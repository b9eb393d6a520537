/**
 * The notation language of the `if_flat` generation (src/if_flat/notation.rs):
 * eight kinds of notation, the shorthand operators that build them, and
 * `Notation::repeat`, which spells out a list of children.
 *
 * The printers of this generation call measuring helpers that no file of
 * this generation defines: `min_first_line_len` (with a flat flag in
 * src/if_flat/partial_print.rs, without one in src/if_flat/pretty_print.rs,
 * where its result is a `FirstLineLen` whose `len` and `has_newline` are
 * both read), `fits_when_flat` and
 * `choose`. They are reconstructed here. `MinFirstLineLen` and `Choose`
 * follow the free functions of the same names in src/pretty_print.rs,
 * which take the flat flag as an argument and return an `Option`; the
 * unflagged call is read as `MinFirstLineLen(n, false)` on a notation that
 * has a layout. `fits_when_flat` is defined in no file of the repository:
 * `FitsWhenFlat` reads it as "the length of the flat layout, if that is at
 * most the width".
 */
module IfFlatNotation {
  import opened Wrappers

  datatype Notation =
    | Empty
    | Literal(lit: string)
    | Newline
    | Flat(body: Notation)
    | Indent(amount: nat, body: Notation)
    | Concat(left: Notation, right: Notation)
    | Choice(opt1: Notation, opt2: Notation)
    | Child(index: nat)

  /** `+`: the two notations one after the other. */
  function Plus(a: Notation, b: Notation): Notation {
    Concat(a, b)
  }

  /** `|`: the first notation if it fits, else the second. */
  function Or(a: Notation, b: Notation): Notation {
    Choice(a, b)
  }

  /** `^`: the first notation, a newline, then the second. */
  function Above(a: Notation, b: Notation): Notation {
    Plus(Plus(a, Newline), b)
  }

  /** `i >> n`: a newline, then `n`, all indented by `i`. */
  function Nest(i: nat, n: Notation): Notation {
    Indent(i, Plus(Newline, n))
  }

  /** The length of a first line, and whether a newline ends it (`FirstLineLen`). */
  datatype FirstLineLen = FirstLineLen(len: nat, hasNewline: bool)

  /**
   * The shortest first line a notation can have, `None` when it has no
   * layout at all (a newline where only one line is allowed). The second
   * option of a choice is taken to be the shorter one. A child is measured
   * as if it were empty: the notation alone does not know its children.
   */
  function MinFirstLineLen(n: Notation, flat: bool): Option<FirstLineLen> {
    match n
    case Empty => Some(FirstLineLen(0, false))
    case Literal(lit) => Some(FirstLineLen(|lit|, false))
    case Newline => if flat then None else Some(FirstLineLen(0, true))
    case Flat(body) => MinFirstLineLen(body, true)
    case Indent(_, body) => MinFirstLineLen(body, flat)
    case Choice(opt1, opt2) =>
      var m2 := MinFirstLineLen(opt2, flat);
      if m2.Some? then m2 else MinFirstLineLen(opt1, flat)
    case Concat(left, right) =>
      (match MinFirstLineLen(left, flat)
       case None => None
       case Some(len1) =>
         if len1.hasNewline then Some(len1)
         else
           match MinFirstLineLen(right, flat)
           case None => None
           case Some(len2) => Some(FirstLineLen(len1.len + len2.len, len2.hasNewline)))
    case Child(_) => Some(FirstLineLen(0, false))
  }

  /** A notation laid out on one line never reaches a newline. */
  lemma {:induction false} FlatHasNoNewline(n: Notation)
    ensures MinFirstLineLen(n, true).Some? ==> !MinFirstLineLen(n, true).value.hasNewline
  {
    match n
    case Empty =>
    case Literal(_) =>
    case Newline =>
    case Flat(body) => FlatHasNoNewline(body);
    case Indent(_, body) => FlatHasNoNewline(body);
    case Choice(opt1, opt2) => FlatHasNoNewline(opt1); FlatHasNoNewline(opt2);
    case Concat(left, right) => FlatHasNoNewline(left); FlatHasNoNewline(right);
    case Child(_) =>
  }

  /** A notation without `Flat` can always be laid out when newlines are allowed. */
  predicate FlatFree(n: Notation) {
    match n
    case Flat(_) => false
    case Indent(_, body) => FlatFree(body)
    case Choice(opt1, opt2) => FlatFree(opt1) && FlatFree(opt2)
    case Concat(left, right) => FlatFree(left) && FlatFree(right)
    case _ => true
  }

  lemma {:induction false} FlatFreePossible(n: Notation)
    requires FlatFree(n)
    ensures MinFirstLineLen(n, false).Some?
  {
    match n
    case Indent(_, body) => FlatFreePossible(body);
    case Choice(opt1, opt2) => FlatFreePossible(opt2);
    case Concat(left, right) => FlatFreePossible(left); FlatFreePossible(right);
    case _ =>
  }

  /** `Empty` is a unit of `+` for measuring first lines. */
  lemma EmptyUnit(n: Notation, flat: bool)
    ensures MinFirstLineLen(Plus(Empty, n), flat) == MinFirstLineLen(n, flat)
    ensures MinFirstLineLen(Plus(n, Empty), flat) == MinFirstLineLen(n, flat)
  {
  }

  /** How `+` is grouped does not change the first line it measures. */
  lemma PlusAssociative(a: Notation, b: Notation, c: Notation, flat: bool)
    ensures MinFirstLineLen(Plus(Plus(a, b), c), flat) == MinFirstLineLen(Plus(a, Plus(b, c)), flat)
  {
  }

  /** The first line of `a ^ b` is the first line of `a`, and a newline ends it. */
  lemma AboveFirstLine(a: Notation, b: Notation)
    ensures MinFirstLineLen(Above(a, b), false) ==
      match MinFirstLineLen(a, false)
      case None => None
      case Some(l) => Some(FirstLineLen(l.len, true))
    ensures MinFirstLineLen(Above(a, b), true) == None
  {
    FlatHasNoNewline(a);
    match MinFirstLineLen(a, false)
    case None =>
      assert MinFirstLineLen(Plus(a, Newline), false) == None;
    case Some(l) =>
      var line := FirstLineLen(l.len, true);
      assert MinFirstLineLen(Plus(a, Newline), false) == Some(line);
      assert MinFirstLineLen(Plus(Plus(a, Newline), b), false) == Some(line);
    assert MinFirstLineLen(Plus(a, Newline), true) == None;
  }

  /** `i >> n` starts with an empty first line and cannot be laid out flat. */
  lemma NestFirstLine(i: nat, n: Notation)
    ensures MinFirstLineLen(Nest(i, n), false) == Some(FirstLineLen(0, true))
    ensures MinFirstLineLen(Nest(i, n), true) == None
  {
    assert MinFirstLineLen(Plus(Newline, n), false) == Some(FirstLineLen(0, true));
    assert MinFirstLineLen(Plus(Newline, n), true) == None;
  }

  /** `a | b` is measured by `b` when `b` has a layout, otherwise by `a`. */
  lemma OrFirstLine(a: Notation, b: Notation, flat: bool)
    ensures MinFirstLineLen(b, flat).Some? ==> MinFirstLineLen(Or(a, b), flat) == MinFirstLineLen(b, flat)
    ensures MinFirstLineLen(b, flat).None? ==> MinFirstLineLen(Or(a, b), flat) == MinFirstLineLen(a, flat)
  {
  }

  /**
   * `fits_when_flat(width)`, as reconstructed: the length of the notation
   * laid out flat (on one line), when it has such a layout and that length
   * is at most `width`.
   */
  function FitsWhenFlat(n: Notation, width: nat): (r: Option<nat>)
    ensures r.Some? <==> MinFirstLineLen(n, true).Some? && MinFirstLineLen(n, true).value.len <= width
    ensures r.Some? ==> r.value <= width
  {
    match MinFirstLineLen(n, true)
    case None => None
    case Some(l) => if l.len <= width then Some(l.len) else None
  }

  /** More room never makes a flat notation stop fitting. */
  lemma FitsWhenFlatMonotone(n: Notation, w1: nat, w2: nat)
    requires w1 <= w2 && FitsWhenFlat(n, w1).Some?
    ensures FitsWhenFlat(n, w2) == FitsWhenFlat(n, w1)
  {
  }

  /**
   * `choose`: the first option when it has a layout whose first line fits
   * after `prefixLen` (and before `suffixLen` when that line does not end in
   * a newline), or when the second option has no layout; else the second.
   */
  function Choose(width: nat, indent: Option<nat>, prefixLen: nat, note1: Notation, note2: Notation, suffixLen: nat): (r: Notation)
    ensures r == note1 || r == note2
  {
    var flat := indent.None?;
    match MinFirstLineLen(note1, flat)
    case Some(len1) =>
      var fits := if len1.hasNewline then prefixLen + len1.len <= width
                  else prefixLen + len1.len + suffixLen <= width;
      if fits then note1
      else if MinFirstLineLen(note2, flat).None? then note1
      else note2
    case None => note2
  }

  /** Both directions of the rule `choose` follows, when the two options differ. */
  lemma ChooseRule(width: nat, indent: Option<nat>, prefixLen: nat, note1: Notation, note2: Notation, suffixLen: nat)
    requires note1 != note2
    ensures var flat := indent.None?;
      var m1 := MinFirstLineLen(note1, flat);
      (Choose(width, indent, prefixLen, note1, note2, suffixLen) == note1) <==>
        (m1.Some? &&
         ((prefixLen + m1.value.len + (if m1.value.hasNewline then 0 else suffixLen) <= width)
          || MinFirstLineLen(note2, flat).None?))
  {
  }

  /** `Child(i)` for each `i` in `lo..hi`, joined right-nested: `join(Child lo, join(..., Child(hi-1)))`. */
  function Joined(lo: nat, hi: nat, join: (Notation, Notation) -> Notation): Notation
    requires lo < hi
    decreases hi - lo
  {
    if lo == hi - 1 then Child(lo) else join(Child(lo), Joined(lo + 1, hi, join))
  }

  /** What `repeat` builds for `count` elements. */
  function RepeatOf(count: nat, empty: Notation, lone: Notation -> Notation,
                    join: (Notation, Notation) -> Notation, surround: Notation -> Notation): Notation
  {
    if count == 0 then empty
    else if count == 1 then lone(Child(0))
    else surround(Joined(0, count, join))
  }

  /** `Notation::repeat`: folds the children from the last one back to the first. */
  method Repeat(count: nat, empty: Notation, lone: Notation -> Notation,
                join: (Notation, Notation) -> Notation, surround: Notation -> Notation)
    returns (n: Notation)
    ensures n == RepeatOf(count, empty, lone, join, surround)
  {
    if count == 0 {
      return empty;
    }
    if count == 1 {
      return lone(Child(0));
    }
    var acc := Child(count - 1);
    var i := count - 1;
    while i > 0
      invariant 0 <= i < count && acc == Joined(i, count, join)
    {
      i := i - 1;
      acc := join(Child(i), acc);
    }
    n := surround(acc);
  }

  /** The children a notation shows, in order. */
  function ChildrenShown(n: Notation): seq<nat> {
    match n
    case Child(i) => [i]
    case Flat(body) => ChildrenShown(body)
    case Indent(_, body) => ChildrenShown(body)
    case Concat(left, right) => ChildrenShown(left) + ChildrenShown(right)
    case Choice(opt1, opt2) => ChildrenShown(opt1) + ChildrenShown(opt2)
    case _ => []
  }

  function Range(lo: nat, hi: nat): (s: seq<nat>)
    requires lo <= hi
    ensures |s| == hi - lo && forall k :: 0 <= k < |s| ==> s[k] == lo + k
    decreases hi - lo
  {
    if lo == hi then [] else [lo] + Range(lo + 1, hi)
  }

  /** A join that shows both of its parts once each, in order (such as `a + sep + b`). */
  ghost predicate JoinKeepsOrder(join: (Notation, Notation) -> Notation) {
    forall a, b :: ChildrenShown(join(a, b)) == ChildrenShown(a) + ChildrenShown(b)
  }

  lemma {:induction false} JoinedShowsRange(lo: nat, hi: nat, join: (Notation, Notation) -> Notation)
    requires lo < hi && JoinKeepsOrder(join)
    ensures ChildrenShown(Joined(lo, hi, join)) == Range(lo, hi)
    decreases hi - lo
  {
    if lo < hi - 1 {
      JoinedShowsRange(lo + 1, hi, join);
      assert ChildrenShown(join(Child(lo), Joined(lo + 1, hi, join))) ==
        ChildrenShown(Child(lo)) + ChildrenShown(Joined(lo + 1, hi, join));
    }
  }

  /**
   * With two or more elements, a repeat whose join keeps order and whose
   * surround adds no child shows every child exactly once, from the first
   * to the last.
   */
  lemma RepeatShowsEachChild(count: nat, empty: Notation, lone: Notation -> Notation,
                             join: (Notation, Notation) -> Notation, surround: Notation -> Notation)
    requires count >= 2 && JoinKeepsOrder(join)
    requires forall x :: ChildrenShown(surround(x)) == ChildrenShown(x)
    ensures ChildrenShown(RepeatOf(count, empty, lone, join, surround)) == Range(0, count)
  {
    JoinedShowsRange(0, count, join);
  }
}

module IfFlatNotationExamples {
  import opened Wrappers
  import opened IfFlatNotation

  /** A list of three children separated by commas: `$0 + "," + ($1 + "," + $2)`. */
  method CommaList() returns (n: Notation)
    ensures n == Concat(Child(0), Concat(Literal(","), Concat(Child(1), Concat(Literal(","), Child(2)))))
  {
    n := Repeat(3, Literal("[]"), x => x, (a, b) => Plus(a, Plus(Literal(","), b)), x => x);
    var join := (a, b) => Plus(a, Plus(Literal(","), b));
    assert Joined(2, 3, join) == Child(2);
    assert Joined(1, 3, join) == Concat(Child(1), Concat(Literal(","), Child(2)));
    assert Joined(0, 3, join) == Concat(Child(0), Concat(Literal(","), Joined(1, 3, join)));
  }
}
