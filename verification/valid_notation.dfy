/**
 * Validation of the `Count`/`Fold` generation of notations: `Fold` only
 * inside the `one` or `many` case of a `Count`, `Left` and `Right` only in
 * a `Fold`'s `join`, no text inside a `Count`, and no child where the node
 * is known to have none.
 */
module ValidNotation {
  import opened Wrappers

  /** The notation the check walks; `Mark` wraps a sub-notation with a mark. */
  datatype Notation =
    | Empty
    | Literal(lit: string)
    | Newline
    | Text
    | Flat(body: Notation)
    | Indent(amount: nat, body: Notation)
    | Concat(left: Notation, right: Notation)
    | Choice(opt1: Notation, opt2: Notation)
    | IfEmptyText(then_: Notation, else_: Notation)
    | Child(index: nat)
    | Mark(body: Notation)
    | Count(zero: Notation, one: Notation, many: Notation)
    | Fold(first: Notation, join: Notation)
    | Left
    | Right

  datatype NotationError =
    | FoldOutsideCount
    | LeftOutsideJoin
    | RightOutsideJoin
    | NestedFold
    | NestedCount
    | CountZeroChild
    | CountOneChildIndex(index: nat)
    | ChildInsideIfEmptyText
    | IfEmptyTextInsideCount
    | TextInsideCount

  datatype Context =
    | InNothing
    | InIfEmptyText
    | InCountZero
    | InCountOne
    | InCountMany
    | InFoldFirst
    | InFoldJoin

  /** Whether the context lies inside a `Count` (a `Fold` lies inside one too). */
  predicate InCount(ctx: Context) {
    !(ctx.InNothing? || ctx.InIfEmptyText?)
  }

  /** Whether the context lies inside a `Fold`. */
  predicate InFold(ctx: Context) {
    ctx.InFoldFirst? || ctx.InFoldJoin?
  }

  datatype ValidNotation = ValidNotation(notation: Notation)

  /** The first error of `r1`, else the outcome of `r2`. */
  function AndThen(r1: Result<(), NotationError>, r2: Result<(), NotationError>): (r: Result<(), NotationError>)
    ensures r.Ok? <==> r1.Ok? && r2.Ok?
    ensures r1.Err? ==> r == r1
    ensures r1.Ok? ==> r == r2
  {
    if r1.Err? then r1 else r2
  }

  /**
   * Checks `n` in context `ctx`; `flat` says whether it is under a `Flat`
   * (it is passed down but no rule depends on it).
   */
  function ValidateRec(n: Notation, flat: bool, ctx: Context): (r: Result<(), NotationError>)
    ensures n.Text? ==> (r.Ok? <==> !InCount(ctx))
    ensures n.Left? || n.Right? ==> (r.Ok? <==> ctx == InFoldJoin)
    ensures n.Child? ==> (r.Ok? <==> (ctx != InIfEmptyText && ctx != InCountZero && !(n.index > 0 && ctx == InCountOne)))
  {
    match n
    case Text => if InCount(ctx) then Err(TextInsideCount) else Ok(())
    case Empty => Ok(())
    case Literal(_) => Ok(())
    case Newline => Ok(())
    case Flat(b) => ValidateRec(b, true, ctx)
    case Indent(_, b) => ValidateRec(b, flat, ctx)
    case Concat(a, b) => AndThen(ValidateRec(a, flat, ctx), ValidateRec(b, flat, ctx))
    case Choice(a, b) => AndThen(ValidateRec(a, flat, ctx), ValidateRec(b, flat, ctx))
    case IfEmptyText(a, b) =>
      if InCount(ctx) then Err(IfEmptyTextInsideCount)
      else AndThen(ValidateRec(a, flat, InIfEmptyText), ValidateRec(b, flat, InIfEmptyText))
    case Child(i) =>
      if ctx == InIfEmptyText then Err(ChildInsideIfEmptyText)
      else if ctx == InCountZero then Err(CountZeroChild)
      else if i > 0 && ctx == InCountOne then Err(CountOneChildIndex(i))
      else Ok(())
    case Mark(b) => ValidateRec(b, flat, ctx)
    case Count(z, o, m) =>
      if InCount(ctx) then Err(NestedCount)
      else AndThen(ValidateRec(z, flat, InCountZero),
                   AndThen(ValidateRec(o, flat, InCountOne), ValidateRec(m, flat, InCountMany)))
    case Fold(f, j) =>
      if InFold(ctx) then Err(NestedFold)
      else if !(ctx == InCountMany || ctx == InCountOne) then Err(FoldOutsideCount)
      else AndThen(ValidateRec(f, flat, InFoldFirst), ValidateRec(j, flat, InFoldJoin))
    case Left => if ctx != InFoldJoin then Err(LeftOutsideJoin) else Ok(())
    case Right => if ctx != InFoldJoin then Err(RightOutsideJoin) else Ok(())
  }

  /** Validates a whole notation, which starts outside everything. */
  function Validate(n: Notation): (r: Result<ValidNotation, NotationError>)
    ensures r.Ok? <==> ValidateRec(n, false, InNothing).Ok?
    ensures r.Ok? ==> r.value.notation == n
  {
    var _ :- ValidateRec(n, false, InNothing);
    Ok(ValidNotation(n))
  }

  /** Being under a `Flat` never changes the verdict. */
  lemma {:induction false} FlatIrrelevant(n: Notation, f1: bool, f2: bool, ctx: Context)
    ensures ValidateRec(n, f1, ctx) == ValidateRec(n, f2, ctx)
  {
    match n
    case Flat(b) =>
    case Indent(_, b) => FlatIrrelevant(b, f1, f2, ctx);
    case Concat(a, b) => FlatIrrelevant(a, f1, f2, ctx); FlatIrrelevant(b, f1, f2, ctx);
    case Choice(a, b) => FlatIrrelevant(a, f1, f2, ctx); FlatIrrelevant(b, f1, f2, ctx);
    case IfEmptyText(a, b) =>
      FlatIrrelevant(a, f1, f2, InIfEmptyText); FlatIrrelevant(b, f1, f2, InIfEmptyText);
    case Mark(b) => FlatIrrelevant(b, f1, f2, ctx);
    case Count(z, o, m) =>
      FlatIrrelevant(z, f1, f2, InCountZero); FlatIrrelevant(o, f1, f2, InCountOne);
      FlatIrrelevant(m, f1, f2, InCountMany);
    case Fold(f, j) => FlatIrrelevant(f, f1, f2, InFoldFirst); FlatIrrelevant(j, f1, f2, InFoldJoin);
    case _ =>
  }

  /** `n` holds a `Text` or an `IfEmptyText` somewhere. */
  predicate HasText(n: Notation) {
    match n
    case Text => true
    case IfEmptyText(_, _) => true
    case Flat(b) => HasText(b)
    case Indent(_, b) => HasText(b)
    case Mark(b) => HasText(b)
    case Concat(a, b) => HasText(a) || HasText(b)
    case Choice(a, b) => HasText(a) || HasText(b)
    case Count(z, o, m) => HasText(z) || HasText(o) || HasText(m)
    case Fold(f, j) => HasText(f) || HasText(j)
    case _ => false
  }

  /** Inside a `Count`, a notation that checks out has no text at all. */
  lemma {:induction false} NoTextInCount(n: Notation, flat: bool, ctx: Context)
    requires InCount(ctx) && ValidateRec(n, flat, ctx).Ok?
    ensures !HasText(n)
  {
    match n
    case Flat(b) => NoTextInCount(b, true, ctx);
    case Indent(_, b) => NoTextInCount(b, flat, ctx);
    case Mark(b) => NoTextInCount(b, flat, ctx);
    case Concat(a, b) => NoTextInCount(a, flat, ctx); NoTextInCount(b, flat, ctx);
    case Choice(a, b) => NoTextInCount(a, flat, ctx); NoTextInCount(b, flat, ctx);
    case Fold(f, j) => NoTextInCount(f, flat, InFoldFirst); NoTextInCount(j, flat, InFoldJoin);
    case _ =>
  }

  /**
   * Every `Left` and `Right` of `n` sits in the `join` of a `Fold`
   * (`inJoin` says whether `n` itself does), and every `Fold` in the `one`
   * or `many` case of a `Count` (`inCountSome`).
   */
  predicate Scoped(n: Notation, inJoin: bool, inCountSome: bool) {
    match n
    case Left => inJoin
    case Right => inJoin
    case Flat(b) => Scoped(b, inJoin, inCountSome)
    case Indent(_, b) => Scoped(b, inJoin, inCountSome)
    case Mark(b) => Scoped(b, inJoin, inCountSome)
    case Concat(a, b) => Scoped(a, inJoin, inCountSome) && Scoped(b, inJoin, inCountSome)
    case Choice(a, b) => Scoped(a, inJoin, inCountSome) && Scoped(b, inJoin, inCountSome)
    case IfEmptyText(a, b) => Scoped(a, false, false) && Scoped(b, false, false)
    case Count(z, o, m) => Scoped(z, false, false) && Scoped(o, false, true) && Scoped(m, false, true)
    case Fold(f, j) => inCountSome && Scoped(f, false, false) && Scoped(j, true, false)
    case _ => true
  }

  /** A notation that checks out is scoped. */
  lemma {:induction false} ValidIsScoped(n: Notation, flat: bool, ctx: Context)
    requires ValidateRec(n, flat, ctx).Ok?
    ensures Scoped(n, ctx == InFoldJoin, ctx == InCountOne || ctx == InCountMany)
  {
    match n
    case Flat(b) => ValidIsScoped(b, true, ctx);
    case Indent(_, b) => ValidIsScoped(b, flat, ctx);
    case Mark(b) => ValidIsScoped(b, flat, ctx);
    case Concat(a, b) => ValidIsScoped(a, flat, ctx); ValidIsScoped(b, flat, ctx);
    case Choice(a, b) => ValidIsScoped(a, flat, ctx); ValidIsScoped(b, flat, ctx);
    case IfEmptyText(a, b) => ValidIsScoped(a, flat, InIfEmptyText); ValidIsScoped(b, flat, InIfEmptyText);
    case Count(z, o, m) =>
      ValidIsScoped(z, flat, InCountZero); ValidIsScoped(o, flat, InCountOne); ValidIsScoped(m, flat, InCountMany);
    case Fold(f, j) => ValidIsScoped(f, flat, InFoldFirst); ValidIsScoped(j, flat, InFoldJoin);
    case _ =>
  }

  /** `n` holds a `Child` outside any `Count`, directly within an `IfEmptyText`. */
  predicate ChildInText(n: Notation, inText: bool) {
    match n
    case Child(_) => inText
    case Flat(b) => ChildInText(b, inText)
    case Indent(_, b) => ChildInText(b, inText)
    case Mark(b) => ChildInText(b, inText)
    case Concat(a, b) => ChildInText(a, inText) || ChildInText(b, inText)
    case Choice(a, b) => ChildInText(a, inText) || ChildInText(b, inText)
    case IfEmptyText(a, b) => ChildInText(a, true) || ChildInText(b, true)
    case _ => false
  }

  /** Any such child makes the check fail. */
  lemma {:induction false} ChildInTextRejected(n: Notation, flat: bool, ctx: Context)
    requires !InCount(ctx) && ChildInText(n, ctx == InIfEmptyText)
    ensures ValidateRec(n, flat, ctx).Err?
  {
    match n
    case Flat(b) => ChildInTextRejected(b, true, ctx);
    case Indent(_, b) => ChildInTextRejected(b, flat, ctx);
    case Mark(b) => ChildInTextRejected(b, flat, ctx);
    case Concat(a, b) =>
      if ChildInText(a, ctx == InIfEmptyText) { ChildInTextRejected(a, flat, ctx); }
      else { ChildInTextRejected(b, flat, ctx); }
    case Choice(a, b) =>
      if ChildInText(a, ctx == InIfEmptyText) { ChildInTextRejected(a, flat, ctx); }
      else { ChildInTextRejected(b, flat, ctx); }
    case IfEmptyText(a, b) =>
      if ChildInText(a, true) { ChildInTextRejected(a, flat, InIfEmptyText); }
      else { ChildInTextRejected(b, flat, InIfEmptyText); }
    case _ =>
  }

  /** A validated notation is scoped from the top. */
  lemma ValidatedIsScoped(n: Notation)
    requires Validate(n).Ok?
    ensures Scoped(n, false, false)
  {
    ValidIsScoped(n, false, InNothing);
  }
}
