/**
 * The greedy choice rule of the printer in `pretty_printing/choose.rs`:
 * how much room is left on the current line after a notation
 * (`RemainingWidth`), whether a run of chunks fits (`fits_all`), whether a
 * notation has any valid layout (`is_valid_rec`), and which option of a
 * `Choice` to take (`choose`).
 */
module Choose {
  import opened Wrappers

  /**
   * A notation as seen through `NotationRef::case`. A `Child` carries the
   * (already resolved) notation of that child.
   */
  datatype Note =
    | Empty
    | Literal(lit: string)
    | Text(text: string)
    | Newline
    | Flat(body: Note)
    | Indent(amount: nat, body: Note)
    | Child(index: nat, body: Note)
    | Concat(left: Note, right: Note)
    | Choice(opt1: Note, opt2: Note)

  /** A pending chunk: its indentation (`None` when flat) and its notation. */
  datatype Chunk = Chunk(indent: Option<nat>, note: Note)

  datatype RemainingWidth = SingleLine(remaining: nat) | NoFit | MultiLine

  /**
   * The order in which a result is "better": not fitting is worst, more room
   * left is better, and reaching a newline (the rest no longer matters) is
   * best.
   */
  predicate Le(a: RemainingWidth, b: RemainingWidth) {
    match a
    case NoFit => true
    case SingleLine(x) => b.MultiLine? || (b.SingleLine? && x <= b.remaining)
    case MultiLine => b.MultiLine?
  }

  /** `RemainingWidth::and_then`: continue measuring only on a single line. */
  function AndThen(r: RemainingWidth, f: nat -> RemainingWidth): (res: RemainingWidth)
    ensures r.NoFit? ==> res.NoFit?
    ensures r.MultiLine? ==> res.MultiLine?
    ensures r.SingleLine? ==> res == f(r.remaining)
  {
    match r
    case NoFit => NoFit
    case MultiLine => MultiLine
    case SingleLine(w) => f(w)
  }

  /**
   * `RemainingWidth::or_else`: the better of two results. Its contract says
   * it is the least upper bound of its arguments in the order `Le`.
   */
  function OrElse(a: RemainingWidth, b: RemainingWidth): (res: RemainingWidth)
    ensures Le(a, res) && Le(b, res)
    ensures forall c :: Le(a, c) && Le(b, c) ==> Le(res, c)
  {
    match a
    case NoFit => b
    case MultiLine => MultiLine
    case SingleLine(w1) =>
      match b
      case NoFit => SingleLine(w1)
      case MultiLine => MultiLine
      case SingleLine(w2) => SingleLine(if w1 >= w2 then w1 else w2)
  }

  /** `fits_rec`: what is left of `width` after the first line of `note`. */
  function Fits(width: nat, flat: bool, note: Note): (r: RemainingWidth)
    decreases note
    ensures r.SingleLine? ==> r.remaining <= width
    ensures note.Literal? ==> (r.SingleLine? <==> |note.lit| <= width)
    ensures note.Text? ==> (r.SingleLine? <==> |note.text| <= width)
    ensures (note.Literal? || note.Text?) && r.SingleLine? ==>
              r.remaining + |if note.Literal? then note.lit else note.text| == width
    ensures note.Newline? ==> r == (if flat then NoFit else MultiLine)
  {
    match note
    case Empty => SingleLine(width)
    case Literal(lit) => if |lit| <= width then SingleLine(width - |lit|) else NoFit
    case Text(text) => if |text| <= width then SingleLine(width - |text|) else NoFit
    case Newline => if flat then NoFit else MultiLine
    case Flat(n) => Fits(width, true, n)
    case Indent(_, n) => Fits(width, flat, n)
    case Child(_, n) => Fits(width, flat, n)
    case Concat(n1, n2) => AndThen(Fits(width, flat, n1), (w: nat) => Fits(w, flat, n2))
    case Choice(o1, o2) => OrElse(Fits(width, flat, o1), Fits(width, flat, o2))
  }

  /** More width never makes a notation fit worse. */
  lemma {:induction false} FitsMonotone(w1: nat, w2: nat, flat: bool, note: Note)
    requires w1 <= w2
    ensures Le(Fits(w1, flat, note), Fits(w2, flat, note))
    decreases note
  {
    match note
    case Empty =>
    case Literal(_) =>
    case Text(_) =>
    case Newline =>
    case Flat(n) => FitsMonotone(w1, w2, true, n);
    case Indent(_, n) => FitsMonotone(w1, w2, flat, n);
    case Child(_, n) => FitsMonotone(w1, w2, flat, n);
    case Concat(n1, n2) =>
      FitsMonotone(w1, w2, flat, n1);
      var a, b := Fits(w1, flat, n1), Fits(w2, flat, n1);
      if a.SingleLine? && b.SingleLine? {
        FitsMonotone(a.remaining, b.remaining, flat, n2);
      }
    case Choice(o1, o2) =>
      FitsMonotone(w1, w2, flat, o1);
      FitsMonotone(w1, w2, flat, o2);
  }

  /** `is_valid_rec`: whether the notation has any layout. */
  function IsValid(flat: bool, note: Note): bool
    decreases note
  {
    match note
    case Empty => true
    case Literal(_) => true
    case Text(_) => true
    case Newline => !flat
    case Flat(n) => IsValid(true, n)
    case Indent(_, n) => IsValid(flat, n)
    case Choice(o1, o2) => IsValid(flat, o1) || IsValid(flat, o2)
    case Concat(n1, n2) => IsValid(flat, n1) && IsValid(flat, n2)
    case Child(_, n) => !flat || IsValid(flat, n)
  }

  /** Rules of `is_valid_rec`, stated per case. */
  lemma IsValidRules(flat: bool, note: Note)
    ensures note.Newline? ==> (IsValid(flat, note) <==> !flat)
    ensures note.Concat? ==> (IsValid(flat, note) <==> IsValid(flat, note.left) && IsValid(flat, note.right))
    ensures note.Choice? ==> (IsValid(flat, note) <==> IsValid(flat, note.opt1) || IsValid(flat, note.opt2))
    ensures note.Child? ==> (IsValid(flat, note) <==> !flat || IsValid(flat, note.body))
    ensures (note.Empty? || note.Literal? || note.Text?) ==> IsValid(flat, note)
  {
  }

  /** Whatever is valid flat is valid when not flat. */
  lemma {:induction false} IsValidFlatImpliesNonflat(note: Note)
    requires IsValid(true, note)
    ensures IsValid(false, note)
  {
    match note
    case Empty =>
    case Literal(_) =>
    case Text(_) =>
    case Newline =>
    case Flat(n) =>
    case Indent(_, n) => IsValidFlatImpliesNonflat(n);
    case Child(_, n) =>
    case Concat(n1, n2) => IsValidFlatImpliesNonflat(n1); IsValidFlatImpliesNonflat(n2);
    case Choice(o1, o2) =>
      if IsValid(true, o1) { IsValidFlatImpliesNonflat(o1); } else { IsValidFlatImpliesNonflat(o2); }
  }

  /** Without any newline, a flat and a non-flat notation measure the same. */
  predicate NewlineFree(note: Note) {
    match note
    case Newline => false
    case Flat(n) => NewlineFree(n)
    case Indent(_, n) => NewlineFree(n)
    case Child(_, n) => NewlineFree(n)
    case Concat(n1, n2) => NewlineFree(n1) && NewlineFree(n2)
    case Choice(o1, o2) => NewlineFree(o1) && NewlineFree(o2)
    case _ => true
  }

  /** A notation without newlines never reports `MultiLine`. */
  lemma {:induction false} NewlineFreeSingleLine(width: nat, flat: bool, note: Note)
    requires NewlineFree(note)
    ensures !Fits(width, flat, note).MultiLine?
    decreases note
  {
    match note
    case Empty =>
    case Literal(_) =>
    case Text(_) =>
    case Newline =>
    case Flat(n) => NewlineFreeSingleLine(width, true, n);
    case Indent(_, n) => NewlineFreeSingleLine(width, flat, n);
    case Child(_, n) => NewlineFreeSingleLine(width, flat, n);
    case Concat(n1, n2) =>
      NewlineFreeSingleLine(width, flat, n1);
      var a := Fits(width, flat, n1);
      if a.SingleLine? { NewlineFreeSingleLine(a.remaining, flat, n2); }
    case Choice(o1, o2) =>
      NewlineFreeSingleLine(width, flat, o1);
      NewlineFreeSingleLine(width, flat, o2);
  }

  /** The reference meaning of `fits_all`, chunk by chunk. */
  function FitsAllSpec(width: nat, chunks: seq<(bool, Note)>): bool
    decreases |chunks|
  {
    if chunks == [] then true
    else
      match Fits(width, chunks[0].0, chunks[0].1)
      case NoFit => false
      case MultiLine => true
      case SingleLine(w) => FitsAllSpec(w, chunks[1..])
  }

  /** `fits_all`: thread the remaining width through the chunks, in order. */
  method FitsAll(width: nat, chunks: seq<(bool, Note)>) returns (b: bool)
    ensures b == FitsAllSpec(width, chunks)
  {
    var w := width;
    var i := 0;
    while i < |chunks|
      invariant 0 <= i <= |chunks|
      invariant FitsAllSpec(width, chunks) == FitsAllSpec(w, chunks[i..])
    {
      assert chunks[i..][1..] == chunks[i + 1..];
      match Fits(w, chunks[i].0, chunks[i].1)
      case NoFit => return false;
      case MultiLine => return true;
      case SingleLine(r) => w := r;
      i := i + 1;
    }
    return true;
  }

  /** `fits_all` is monotone in the width too. */
  lemma {:induction false} FitsAllMonotone(w1: nat, w2: nat, chunks: seq<(bool, Note)>)
    requires w1 <= w2 && FitsAllSpec(w1, chunks)
    ensures FitsAllSpec(w2, chunks)
    decreases |chunks|
  {
    if chunks != [] {
      FitsMonotone(w1, w2, chunks[0].0, chunks[0].1);
      var a, b := Fits(w1, chunks[0].0, chunks[0].1), Fits(w2, chunks[0].0, chunks[0].1);
      if a.SingleLine? && b.SingleLine? {
        FitsAllMonotone(a.remaining, b.remaining, chunks[1..]);
      }
    }
  }

  /** The suffix chunks as `(flat, notation)` pairs, from the top of the stack down. */
  function SuffixFromTop(suffix: seq<Chunk>): (cs: seq<(bool, Note)>)
    ensures |cs| == |suffix|
    ensures forall k :: 0 <= k < |suffix| ==>
              cs[k] == (suffix[|suffix| - 1 - k].indent.None?, suffix[|suffix| - 1 - k].note)
    decreases |suffix|
  {
    if suffix == [] then []
    else
      var last := suffix[|suffix| - 1];
      [(last.indent.None?, last.note)] + SuffixFromTop(suffix[..|suffix| - 1])
  }

  /** The chunks `choose` measures: `opt1` first, then the suffix from its top. */
  function ChooseChunks(flat: bool, opt1: Note, suffix: seq<Chunk>): seq<(bool, Note)> {
    [(flat, opt1)] + SuffixFromTop(suffix)
  }

  /** Whether `choose` keeps the first option. */
  predicate PicksFirst(width: nat, indent: Option<nat>, prefixLen: nat, opt1: Note, opt2: Note, suffix: seq<Chunk>) {
    var flat := indent.None?;
    width >= prefixLen &&
    ((FitsAllSpec(width - prefixLen, ChooseChunks(flat, opt1, suffix)) && IsValid(flat, opt1))
     || !IsValid(flat, opt2))
  }

  /** `choose`: take `opt1` when it fits and is valid, or when `opt2` is invalid. */
  function Choose(width: nat, indent: Option<nat>, prefixLen: nat, opt1: Note, opt2: Note, suffix: seq<Chunk>): (r: Note)
    ensures width < prefixLen ==> r == opt2
    ensures r == opt1 || r == opt2
    ensures width >= prefixLen && IsValid(indent.None?, opt2) && !IsValid(indent.None?, opt1) ==> r == opt2
    ensures width >= prefixLen && !IsValid(indent.None?, opt2) ==> r == opt1
    ensures width >= prefixLen && opt1 != opt2 ==>
      (r == opt1 <==>
        (FitsAllSpec(width - prefixLen, ChooseChunks(indent.None?, opt1, suffix)) && IsValid(indent.None?, opt1))
        || !IsValid(indent.None?, opt2))
  {
    if PicksFirst(width, indent, prefixLen, opt1, opt2, suffix) then opt1 else opt2
  }

  /** When the line has room, `choose` never trades a valid option for an invalid one. */
  lemma ChooseValid(width: nat, indent: Option<nat>, prefixLen: nat, opt1: Note, opt2: Note, suffix: seq<Chunk>)
    requires width >= prefixLen
    requires IsValid(indent.None?, opt1) || IsValid(indent.None?, opt2)
    ensures IsValid(indent.None?, Choose(width, indent, prefixLen, opt1, opt2, suffix))
  {
  }

  /** If the first option is taken at some width, it is taken at every larger width. */
  lemma PicksFirstMonotone(w1: nat, w2: nat, indent: Option<nat>, prefixLen: nat, opt1: Note, opt2: Note, suffix: seq<Chunk>)
    requires w1 <= w2 && PicksFirst(w1, indent, prefixLen, opt1, opt2, suffix)
    ensures PicksFirst(w2, indent, prefixLen, opt1, opt2, suffix)
  {
    var flat := indent.None?;
    if FitsAllSpec(w1 - prefixLen, ChooseChunks(flat, opt1, suffix)) {
      FitsAllMonotone(w1 - prefixLen, w2 - prefixLen, ChooseChunks(flat, opt1, suffix));
    }
  }
}
