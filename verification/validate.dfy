/**
 * Notation validation for the `Repeat` generation of notations: which
 * constructs may appear for which arity of node, and whether some layout
 * leaves every child un-flattened.
 */
module Validate {
  import opened Wrappers
  import opened RepeatNotation

  datatype Arity = Texty | Listy | Fixed(numChildren: nat)

  /** Which part of a `Repeat` a sub-notation sits in. */
  datatype Context = OutsideRepeat | InEmpty | InLone | InSurround | InJoin

  datatype ValidationError =
    | FlattenedNewline
    | FlattenedChildren
    | NestedRepeat(ctx: Context)
    | ArityMismatchIfEmptyText(arity: Arity)
    | ArityMismatchText(arity: Arity)
    | ArityMismatchChild(arity: Arity)
    | ArityMismatchChildIndex(index: nat, arity: Arity)
    | ArityMismatchRepeat(arity: Arity)
    | LeftOutsideJoin(ctx: Context)
    | RightOutsideJoin(ctx: Context)
    | SurroundedOutsideSurround(ctx: Context)

  datatype ValidNotation = ValidNotation(notation: Notation, arity: Arity)

  /**
   * The two readings of the recursive check: the code as it stands, and
   * the reading its error messages describe (see `ValidateRec`).
   */
  datatype Revision = AsWritten | Intended

  /** The context a part of a `Repeat` is checked in. */
  function PartContext(rev: Revision, ctx: Context, part: Context): (c: Context)
    ensures rev.AsWritten? ==> c == ctx
    ensures rev.Intended? ==> c == part
  {
    if rev.AsWritten? then ctx else part
  }

  /**
   * Checks `n` for a node of the given arity inside `ctx`, `flat` saying
   * whether it is under a `Flat`. A success carries whether some layout
   * flattens no child. As written, `Right` reports `LeftOutsideJoin` and
   * the parts of a `Repeat` are checked in the `Repeat`'s own context; the
   * `Intended` revision reports `RightOutsideJoin` and checks each part in
   * its own context.
   */
  function ValidateRec(rev: Revision, n: Notation, arity: Arity, ctx: Context, flat: bool): (r: Result<bool, ValidationError>)
    ensures r.Err? ==> r.error != FlattenedChildren
  {
    match n
    case Empty => Ok(true)
    case Literal(_) => Ok(true)
    case Newline => if flat then Err(FlattenedNewline) else Ok(true)
    case Flat(b) => ValidateRec(rev, b, arity, ctx, true)
    case Indent(_, b) => ValidateRec(rev, b, arity, ctx, flat)
    case Left => if ctx != InJoin then Err(LeftOutsideJoin(ctx)) else Ok(!flat)
    case Right =>
      if ctx != InJoin then
        Err(if rev.AsWritten? then LeftOutsideJoin(ctx) else RightOutsideJoin(ctx))
      else Ok(!flat)
    case Surrounded => if ctx != InSurround then Err(SurroundedOutsideSurround(ctx)) else Ok(!flat)
    case Text => if !arity.Texty? then Err(ArityMismatchText(arity)) else Ok(true)
    case Child(i) =>
      if arity.Texty? then Err(ArityMismatchChild(arity))
      else if arity.Listy? && !(i == 0 && ctx == InLone) then Err(ArityMismatchChild(arity))
      else if arity.Fixed? && i >= arity.numChildren then Err(ArityMismatchChildIndex(i, arity))
      else Ok(!flat)
    case IfEmptyText(a, b) =>
      if !arity.Texty? then Err(ArityMismatchIfEmptyText(arity))
      else Either(ValidateRec(rev, a, arity, ctx, flat), ValidateRec(rev, b, arity, ctx, flat))
    case Concat(a, b) =>
      Both(ValidateRec(rev, a, arity, ctx, flat), ValidateRec(rev, b, arity, ctx, flat))
    case Choice(a, b) =>
      Either(ValidateRec(rev, a, arity, ctx, flat), ValidateRec(rev, b, arity, ctx, flat))
    case Repeat(rep) =>
      if ctx != OutsideRepeat then Err(NestedRepeat(ctx))
      else if !arity.Listy? then Err(ArityMismatchRepeat(arity))
      else
        Both(Both(Both(
          ValidateRec(rev, rep.empty, arity, PartContext(rev, ctx, InEmpty), flat),
          ValidateRec(rev, rep.lone, arity, PartContext(rev, ctx, InLone), flat)),
          ValidateRec(rev, rep.join, arity, PartContext(rev, ctx, InJoin), flat)),
          ValidateRec(rev, rep.surround, arity, PartContext(rev, ctx, InSurround), flat))
  }

  /** Both checks, the first error winning (the source's `?` then `&&`). */
  function Both(r1: Result<bool, ValidationError>, r2: Result<bool, ValidationError>): (r: Result<bool, ValidationError>)
    ensures r.Ok? <==> r1.Ok? && r2.Ok?
    ensures r.Ok? ==> r.value == (r1.value && r2.value)
    ensures r1.Err? ==> r == r1
    ensures r1.Ok? && r2.Err? ==> r == r2
  {
    if r1.Err? then r1 else if r2.Err? then r2 else Ok(r1.value && r2.value)
  }

  /** Both checks, the first error winning (the source's `?` then `||`). */
  function Either(r1: Result<bool, ValidationError>, r2: Result<bool, ValidationError>): (r: Result<bool, ValidationError>)
    ensures r.Ok? <==> r1.Ok? && r2.Ok?
    ensures r.Ok? ==> r.value == (r1.value || r2.value)
    ensures r1.Err? ==> r == r1
    ensures r1.Ok? && r2.Err? ==> r == r2
  {
    if r1.Err? then r1 else if r2.Err? then r2 else Ok(r1.value || r2.value)
  }

  /** Validation of a whole notation, as the source does it. */
  function Validate(n: Notation, arity: Arity): (r: Result<ValidNotation, ValidationError>)
    ensures r.Ok? ==> r.value == ValidNotation(n, arity)
    ensures r.Ok? <==> ValidateRec(AsWritten, n, arity, OutsideRepeat, false) == Ok(true)
  {
    ValidateWith(AsWritten, n, arity)
  }

  /** Validation with the intended `Repeat` contexts. */
  function ValidateIntended(n: Notation, arity: Arity): (r: Result<ValidNotation, ValidationError>)
    ensures r.Ok? ==> r.value == ValidNotation(n, arity)
    ensures r.Ok? <==> ValidateRec(Intended, n, arity, OutsideRepeat, false) == Ok(true)
  {
    ValidateWith(Intended, n, arity)
  }

  function ValidateWith(rev: Revision, n: Notation, arity: Arity): (r: Result<ValidNotation, ValidationError>)
    ensures r.Err? && ValidateRec(rev, n, arity, OutsideRepeat, false).Ok? ==> r.error == FlattenedChildren
  {
    var free :- ValidateRec(rev, n, arity, OutsideRepeat, false);
    if free then Ok(ValidNotation(n, arity)) else Err(FlattenedChildren)
  }

  // ----- What the boolean result means -----

  /**
   * `c` is one of the ways of resolving the choices in `n`: one option of
   * every `Choice` and of every `IfEmptyText`; all parts of a `Repeat`.
   */
  ghost predicate IsSelection(c: Notation, n: Notation) {
    match n
    case Flat(b) => c.Flat? && IsSelection(c.body, b)
    case Indent(i, b) => c.Indent? && c.amount == i && IsSelection(c.body, b)
    case Concat(a, b) => c.Concat? && IsSelection(c.left, a) && IsSelection(c.right, b)
    case Choice(a, b) => IsSelection(c, a) || IsSelection(c, b)
    case IfEmptyText(a, b) => IsSelection(c, a) || IsSelection(c, b)
    case Repeat(r) =>
      c.Repeat? && IsSelection(c.repeat.empty, r.empty) && IsSelection(c.repeat.lone, r.lone)
      && IsSelection(c.repeat.join, r.join) && IsSelection(c.repeat.surround, r.surround)
    case _ => c == n
  }

  /** Some child (or `Left`, `Right`, `Surrounded`) of `c` is under a `Flat`. */
  predicate FlattensChild(c: Notation, flat: bool) {
    match c
    case Child(_) => flat
    case Left => flat
    case Right => flat
    case Surrounded => flat
    case Flat(b) => FlattensChild(b, true)
    case Indent(_, b) => FlattensChild(b, flat)
    case Concat(a, b) => FlattensChild(a, flat) || FlattensChild(b, flat)
    case Choice(a, b) => FlattensChild(a, flat) || FlattensChild(b, flat)
    case IfEmptyText(a, b) => FlattensChild(a, flat) || FlattensChild(b, flat)
    case Repeat(r) =>
      FlattensChild(r.empty, flat) || FlattensChild(r.lone, flat)
      || FlattensChild(r.join, flat) || FlattensChild(r.surround, flat)
    case _ => false
  }

  /** The answer a successful check on `n` should give. */
  ghost predicate FreeLayout(n: Notation, flat: bool) {
    exists c :: IsSelection(c, n) && !FlattensChild(c, flat)
  }

  /**
   * A successful check answers `true` exactly when some way of resolving
   * the choices leaves every child un-flattened.
   */
  lemma {:induction false} FreeChildrenMeaning(rev: Revision, n: Notation, arity: Arity, ctx: Context, flat: bool)
    requires ValidateRec(rev, n, arity, ctx, flat).Ok?
    ensures ValidateRec(rev, n, arity, ctx, flat).value <==> FreeLayout(n, flat)
  {
    match n
    case Flat(x) =>
      FreeChildrenMeaning(rev, x, arity, ctx, true);
      FreeFlat(x, flat);
    case Indent(i, x) =>
      FreeChildrenMeaning(rev, x, arity, ctx, flat);
      FreeIndent(i, x, flat);
    case Concat(x, y) =>
      FreeChildrenMeaning(rev, x, arity, ctx, flat);
      FreeChildrenMeaning(rev, y, arity, ctx, flat);
      FreeConcat(x, y, flat);
    case Choice(x, y) =>
      FreeChildrenMeaning(rev, x, arity, ctx, flat);
      FreeChildrenMeaning(rev, y, arity, ctx, flat);
      FreeEither(n, x, y, flat);
    case IfEmptyText(x, y) =>
      FreeChildrenMeaning(rev, x, arity, ctx, flat);
      FreeChildrenMeaning(rev, y, arity, ctx, flat);
      FreeEither(n, x, y, flat);
    case Repeat(r) =>
      FreeChildrenMeaning(rev, r.empty, arity, PartContext(rev, ctx, InEmpty), flat);
      FreeChildrenMeaning(rev, r.lone, arity, PartContext(rev, ctx, InLone), flat);
      FreeChildrenMeaning(rev, r.join, arity, PartContext(rev, ctx, InJoin), flat);
      FreeChildrenMeaning(rev, r.surround, arity, PartContext(rev, ctx, InSurround), flat);
      FreeRepeat(r, flat);
    case _ =>
      FreeLeaf(n, flat);
  }

  lemma FreeLeaf(n: Notation, flat: bool)
    requires !(n.Flat? || n.Indent? || n.Concat? || n.Choice? || n.IfEmptyText? || n.Repeat?)
    ensures FreeLayout(n, flat) <==> !FlattensChild(n, flat)
  {
    assert IsSelection(n, n);
  }

  lemma FreeFlat(x: Notation, flat: bool)
    ensures FreeLayout(Flat(x), flat) <==> FreeLayout(x, true)
  {
    if FreeLayout(x, true) {
      var c :| IsSelection(c, x) && !FlattensChild(c, true);
      assert IsSelection(Flat(c), Flat(x)) && !FlattensChild(Flat(c), flat);
    }
    if FreeLayout(Flat(x), flat) {
      var c :| IsSelection(c, Flat(x)) && !FlattensChild(c, flat);
      assert IsSelection(c.body, x) && !FlattensChild(c.body, true);
    }
  }

  lemma FreeIndent(i: nat, x: Notation, flat: bool)
    ensures FreeLayout(Indent(i, x), flat) <==> FreeLayout(x, flat)
  {
    if FreeLayout(x, flat) {
      var c :| IsSelection(c, x) && !FlattensChild(c, flat);
      assert IsSelection(Indent(i, c), Indent(i, x)) && !FlattensChild(Indent(i, c), flat);
    }
    if FreeLayout(Indent(i, x), flat) {
      var c :| IsSelection(c, Indent(i, x)) && !FlattensChild(c, flat);
      assert IsSelection(c.body, x) && !FlattensChild(c.body, flat);
    }
  }

  lemma FreeConcat(x: Notation, y: Notation, flat: bool)
    ensures FreeLayout(Concat(x, y), flat) <==> FreeLayout(x, flat) && FreeLayout(y, flat)
  {
    if FreeLayout(x, flat) && FreeLayout(y, flat) {
      FreeConcatFromParts(x, y, flat);
    }
    if FreeLayout(Concat(x, y), flat) {
      FreeConcatToParts(x, y, flat);
    }
  }

  /** Free layouts of both sides make a free layout of their concatenation. */
  lemma FreeConcatFromParts(x: Notation, y: Notation, flat: bool)
    requires FreeLayout(x, flat) && FreeLayout(y, flat)
    ensures FreeLayout(Concat(x, y), flat)
  {
    var c1 :| IsSelection(c1, x) && !FlattensChild(c1, flat);
    var c2 :| IsSelection(c2, y) && !FlattensChild(c2, flat);
    assert IsSelection(Concat(c1, c2), Concat(x, y)) && !FlattensChild(Concat(c1, c2), flat);
  }

  /** A free layout of a concatenation gives free layouts of both sides. */
  lemma FreeConcatToParts(x: Notation, y: Notation, flat: bool)
    requires FreeLayout(Concat(x, y), flat)
    ensures FreeLayout(x, flat) && FreeLayout(y, flat)
  {
    var c :| IsSelection(c, Concat(x, y)) && !FlattensChild(c, flat);
    assert IsSelection(c.left, x) && !FlattensChild(c.left, flat);
    assert IsSelection(c.right, y) && !FlattensChild(c.right, flat);
  }

  lemma FreeEither(n: Notation, x: Notation, y: Notation, flat: bool)
    requires n == Choice(x, y) || n == IfEmptyText(x, y)
    ensures FreeLayout(n, flat) <==> FreeLayout(x, flat) || FreeLayout(y, flat)
  {
    if FreeLayout(x, flat) {
      var c :| IsSelection(c, x) && !FlattensChild(c, flat);
      assert IsSelection(c, n);
    }
    if FreeLayout(y, flat) {
      var c :| IsSelection(c, y) && !FlattensChild(c, flat);
      assert IsSelection(c, n);
    }
  }

  lemma FreeRepeat(r: RepeatInner, flat: bool)
    ensures FreeLayout(Repeat(r), flat) <==>
            FreeLayout(r.empty, flat) && FreeLayout(r.lone, flat) && FreeLayout(r.join, flat) && FreeLayout(r.surround, flat)
  {
    if FreeLayout(r.empty, flat) && FreeLayout(r.lone, flat) && FreeLayout(r.join, flat) && FreeLayout(r.surround, flat) {
      FreeRepeatFromParts(r, flat);
    }
    if FreeLayout(Repeat(r), flat) {
      FreeRepeatToParts(r, flat);
    }
  }

  /** Free layouts of the four parts make a free layout of the repeat. */
  lemma FreeRepeatFromParts(r: RepeatInner, flat: bool)
    requires FreeLayout(r.empty, flat) && FreeLayout(r.lone, flat) && FreeLayout(r.join, flat) && FreeLayout(r.surround, flat)
    ensures FreeLayout(Repeat(r), flat)
  {
    var e :| IsSelection(e, r.empty) && !FlattensChild(e, flat);
    var l :| IsSelection(l, r.lone) && !FlattensChild(l, flat);
    var j :| IsSelection(j, r.join) && !FlattensChild(j, flat);
    var s :| IsSelection(s, r.surround) && !FlattensChild(s, flat);
    var c := Repeat(RepeatInner(e, l, j, s));
    assert IsSelection(c, Repeat(r)) && !FlattensChild(c, flat);
  }

  /** A free layout of the repeat gives free layouts of its four parts. */
  lemma FreeRepeatToParts(r: RepeatInner, flat: bool)
    requires FreeLayout(Repeat(r), flat)
    ensures FreeLayout(r.empty, flat) && FreeLayout(r.lone, flat) && FreeLayout(r.join, flat) && FreeLayout(r.surround, flat)
  {
    var c :| IsSelection(c, Repeat(r)) && !FlattensChild(c, flat);
    assert IsSelection(c.repeat.empty, r.empty) && !FlattensChild(c.repeat.empty, flat);
    assert IsSelection(c.repeat.lone, r.lone) && !FlattensChild(c.repeat.lone, flat);
    assert IsSelection(c.repeat.join, r.join) && !FlattensChild(c.repeat.join, flat);
    assert IsSelection(c.repeat.surround, r.surround) && !FlattensChild(c.repeat.surround, flat);
  }

  /** A validated notation has a layout that flattens no child. */
  lemma ValidHasFreeLayout(n: Notation, arity: Arity)
    requires Validate(n, arity).Ok?
    ensures FreeLayout(n, false)
  {
    FreeChildrenMeaning(AsWritten, n, arity, OutsideRepeat, false);
  }

  // ----- Where `Left`, `Right`, `Surrounded` and `Child` may appear -----

  /** `n` mentions `Left`, `Right` or `Surrounded` somewhere. */
  predicate HasRepeatMarker(n: Notation) {
    match n
    case Left => true
    case Right => true
    case Surrounded => true
    case Flat(b) => HasRepeatMarker(b)
    case Indent(_, b) => HasRepeatMarker(b)
    case Concat(a, b) => HasRepeatMarker(a) || HasRepeatMarker(b)
    case Choice(a, b) => HasRepeatMarker(a) || HasRepeatMarker(b)
    case IfEmptyText(a, b) => HasRepeatMarker(a) || HasRepeatMarker(b)
    case Repeat(r) =>
      HasRepeatMarker(r.empty) || HasRepeatMarker(r.lone)
      || HasRepeatMarker(r.join) || HasRepeatMarker(r.surround)
    case _ => false
  }

  /**
   * As written, the context never leaves `OutsideRepeat`, so any `Left`,
   * `Right` or `Surrounded` makes validation fail, wherever it is.
   */
  lemma {:induction false} AsWrittenRejectsMarkers(n: Notation, arity: Arity, flat: bool)
    requires HasRepeatMarker(n)
    ensures ValidateRec(AsWritten, n, arity, OutsideRepeat, flat).Err?
  {
    match n
    case Flat(b) => AsWrittenRejectsMarkers(b, arity, true);
    case Indent(_, b) => AsWrittenRejectsMarkers(b, arity, flat);
    case Concat(a, b) =>
      if HasRepeatMarker(a) { AsWrittenRejectsMarkers(a, arity, flat); }
      else { AsWrittenRejectsMarkers(b, arity, flat); }
    case Choice(a, b) =>
      if HasRepeatMarker(a) { AsWrittenRejectsMarkers(a, arity, flat); }
      else { AsWrittenRejectsMarkers(b, arity, flat); }
    case IfEmptyText(a, b) =>
      if HasRepeatMarker(a) { AsWrittenRejectsMarkers(a, arity, flat); }
      else { AsWrittenRejectsMarkers(b, arity, flat); }
    case Repeat(r) =>
      if HasRepeatMarker(r.empty) { AsWrittenRejectsMarkers(r.empty, arity, flat); }
      else if HasRepeatMarker(r.lone) { AsWrittenRejectsMarkers(r.lone, arity, flat); }
      else if HasRepeatMarker(r.join) { AsWrittenRejectsMarkers(r.join, arity, flat); }
      else { AsWrittenRejectsMarkers(r.surround, arity, flat); }
    case _ =>
  }

  /**
   * Where each construct may sit, as the error messages state it: `Left`
   * and `Right` only in a `join`, `Surrounded` only in a `surround`,
   * `Child` in a listy node only as `Child(0)` in a `lone`, `Text` and
   * `IfEmptyText` only in texty nodes, and no `Repeat` inside another.
   */
  predicate WellPlaced(n: Notation, arity: Arity, ctx: Context) {
    match n
    case Left => ctx == InJoin
    case Right => ctx == InJoin
    case Surrounded => ctx == InSurround
    case Text => arity.Texty?
    case Child(i) =>
      if arity.Texty? then false
      else if arity.Listy? then i == 0 && ctx == InLone
      else i < arity.numChildren
    case Flat(b) => WellPlaced(b, arity, ctx)
    case Indent(_, b) => WellPlaced(b, arity, ctx)
    case Concat(a, b) => WellPlaced(a, arity, ctx) && WellPlaced(b, arity, ctx)
    case Choice(a, b) => WellPlaced(a, arity, ctx) && WellPlaced(b, arity, ctx)
    case IfEmptyText(a, b) => arity.Texty? && WellPlaced(a, arity, ctx) && WellPlaced(b, arity, ctx)
    case Repeat(r) =>
      ctx == OutsideRepeat && arity.Listy?
      && WellPlaced(r.empty, arity, InEmpty) && WellPlaced(r.lone, arity, InLone)
      && WellPlaced(r.join, arity, InJoin) && WellPlaced(r.surround, arity, InSurround)
    case _ => true
  }

  /** With the intended contexts, the check succeeds exactly on well-placed notations. */
  lemma {:induction false} IntendedIffWellPlaced(n: Notation, arity: Arity, ctx: Context, flat: bool)
    requires !HasFlatNewline(n, flat)
    ensures ValidateRec(Intended, n, arity, ctx, flat).Ok? <==> WellPlaced(n, arity, ctx)
  {
    match n
    case Flat(b) => IntendedIffWellPlaced(b, arity, ctx, true);
    case Indent(_, b) => IntendedIffWellPlaced(b, arity, ctx, flat);
    case Concat(a, b) =>
      IntendedIffWellPlaced(a, arity, ctx, flat);
      IntendedIffWellPlaced(b, arity, ctx, flat);
    case Choice(a, b) =>
      IntendedIffWellPlaced(a, arity, ctx, flat);
      IntendedIffWellPlaced(b, arity, ctx, flat);
    case IfEmptyText(a, b) =>
      IntendedIffWellPlaced(a, arity, ctx, flat);
      IntendedIffWellPlaced(b, arity, ctx, flat);
    case Repeat(r) =>
      IntendedIffWellPlaced(r.empty, arity, InEmpty, flat);
      IntendedIffWellPlaced(r.lone, arity, InLone, flat);
      IntendedIffWellPlaced(r.join, arity, InJoin, flat);
      IntendedIffWellPlaced(r.surround, arity, InSurround, flat);
    case _ =>
  }

  /** Some `Newline` of `n` is under a `Flat` (or `flat` holds already). */
  predicate HasFlatNewline(n: Notation, flat: bool) {
    match n
    case Newline => flat
    case Flat(b) => HasFlatNewline(b, true)
    case Indent(_, b) => HasFlatNewline(b, flat)
    case Concat(a, b) => HasFlatNewline(a, flat) || HasFlatNewline(b, flat)
    case Choice(a, b) => HasFlatNewline(a, flat) || HasFlatNewline(b, flat)
    case IfEmptyText(a, b) => HasFlatNewline(a, flat) || HasFlatNewline(b, flat)
    case Repeat(r) =>
      HasFlatNewline(r.empty, flat) || HasFlatNewline(r.lone, flat)
      || HasFlatNewline(r.join, flat) || HasFlatNewline(r.surround, flat)
    case _ => false
  }

  /** Either revision rejects a `Newline` under a `Flat`. */
  lemma {:induction false} FlatNewlineRejected(rev: Revision, n: Notation, arity: Arity, ctx: Context, flat: bool)
    requires HasFlatNewline(n, flat)
    ensures ValidateRec(rev, n, arity, ctx, flat).Err?
  {
    match n
    case Flat(b) => FlatNewlineRejected(rev, b, arity, ctx, true);
    case Indent(_, b) => FlatNewlineRejected(rev, b, arity, ctx, flat);
    case Concat(a, b) =>
      if HasFlatNewline(a, flat) { FlatNewlineRejected(rev, a, arity, ctx, flat); }
      else { FlatNewlineRejected(rev, b, arity, ctx, flat); }
    case Choice(a, b) =>
      if HasFlatNewline(a, flat) { FlatNewlineRejected(rev, a, arity, ctx, flat); }
      else { FlatNewlineRejected(rev, b, arity, ctx, flat); }
    case IfEmptyText(a, b) =>
      if HasFlatNewline(a, flat) { FlatNewlineRejected(rev, a, arity, ctx, flat); }
      else { FlatNewlineRejected(rev, b, arity, ctx, flat); }
    case Repeat(r) =>
      if HasFlatNewline(r.empty, flat) { FlatNewlineRejected(rev, r.empty, arity, PartContext(rev, ctx, InEmpty), flat); }
      else if HasFlatNewline(r.lone, flat) { FlatNewlineRejected(rev, r.lone, arity, PartContext(rev, ctx, InLone), flat); }
      else if HasFlatNewline(r.join, flat) { FlatNewlineRejected(rev, r.join, arity, PartContext(rev, ctx, InJoin), flat); }
      else { FlatNewlineRejected(rev, r.surround, arity, PartContext(rev, ctx, InSurround), flat); }
    case _ =>
  }
}

/** The list notation its error messages describe, under both readings of the check. */
module ValidateExamples {
  import opened Wrappers
  import opened RepeatNotation
  import opened Validate

  /** A separated sequence: `a, b, c` for `sep == ", "`, a lone `a`, or nothing. */
  function ListNotation(sep: string): (n: Notation)
    ensures n.Repeat? && n.repeat.lone == Child(0)
  {
    Repeat(RepeatInner(Empty, Child(0), Concat(Left, Concat(Literal(sep), Right)), Surrounded))
  }

  /** As written, even this notation is rejected: its `Child(0)` is not seen as in a `lone`. */
  lemma ListNotationRejected(sep: string)
    ensures Validate.Validate(ListNotation(sep), Listy) == Err(ArityMismatchChild(Listy))
  {
    var r := ListNotation(sep).repeat;
    assert ValidateRec(AsWritten, r.empty, Listy, OutsideRepeat, false) == Ok(true);
    assert ValidateRec(AsWritten, r.lone, Listy, OutsideRepeat, false) == Err(ArityMismatchChild(Listy));
  }

  /** With the intended contexts, the same notation is accepted. */
  lemma ListNotationAccepted(sep: string)
    ensures ValidateIntended(ListNotation(sep), Listy) == Ok(ValidNotation(ListNotation(sep), Listy))
  {
    var r := ListNotation(sep).repeat;
    ListPartsAccepted(sep);
    assert ValidateRec(Intended, r.empty, Listy, InEmpty, false) == Ok(true);
    assert ValidateRec(Intended, r.surround, Listy, InSurround, false) == Ok(true);
  }

  /** With the intended contexts, the `lone` and `join` parts of the list notation pass. */
  lemma ListPartsAccepted(sep: string)
    ensures ValidateRec(Intended, Child(0), Listy, InLone, false) == Ok(true)
    ensures ValidateRec(Intended, Concat(Left, Concat(Literal(sep), Right)), Listy, InJoin, false) == Ok(true)
  {
    assert ValidateRec(Intended, Concat(Literal(sep), Right), Listy, InJoin, false) == Ok(true);
  }
}
