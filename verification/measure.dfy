/**
 * The `Measure` of a sub-document: the shortest length it can have when laid
 * out flat, and the shortest length of its first line when it contains a
 * newline, each absent when no such layout exists.
 *
 * The combinators are read against an independent reference: a length is a
 * number or "infinity" (no such layout), `concat` adds and `choice` takes the
 * minimum, i.e. the min-plus algebra on extended naturals.
 */
module Measure {
  import opened Wrappers

  datatype Measure = Measure(flatLen: Option<nat>, nonflatLen: Option<nat>)

  /** Extended naturals: the reference reading of an optional length. */
  datatype ExtNat = Fin(n: nat) | Infinity

  function Ext(o: Option<nat>): ExtNat {
    if o.Some? then Fin(o.value) else Infinity
  }

  function Plus(a: ExtNat, b: ExtNat): ExtNat {
    if a.Fin? && b.Fin? then Fin(a.n + b.n) else Infinity
  }

  function Min(a: ExtNat, b: ExtNat): ExtNat {
    if a.Infinity? then b
    else if b.Infinity? then a
    else if a.n <= b.n then a else b
  }

  predicate AtMost(a: ExtNat, w: nat) {
    a.Fin? && a.n <= w
  }

  lemma ExtInjective(o1: Option<nat>, o2: Option<nat>)
    requires Ext(o1) == Ext(o2)
    ensures o1 == o2
  {
  }

  /** `Measure::flat`: only a flat length. */
  function Flat(n: nat): (r: Measure)
    ensures Ext(r.flatLen) == Fin(n) && Ext(r.nonflatLen) == Infinity
  {
    Measure(Some(n), None)
  }

  /** `Measure::nonflat`: only a first-line length. */
  function Nonflat(n: nat): (r: Measure)
    ensures Ext(r.flatLen) == Infinity && Ext(r.nonflatLen) == Fin(n)
  {
    Measure(None, Some(n))
  }

  /** `Measure::flattened`: keeps the flat length, forbids newlines. */
  function Flattened(m: Measure): (r: Measure)
    ensures r.flatLen == m.flatLen && r.nonflatLen.None?
  {
    Measure(m.flatLen, None)
  }

  /**
   * `Measure::concat`. Flat lengths add; the first line of the
   * concatenation is either the left's first line, or the left laid out flat
   * followed by the right's first line, whichever is shorter.
   */
  function Concat(a: Measure, b: Measure): (r: Measure)
    ensures Ext(r.flatLen) == Plus(Ext(a.flatLen), Ext(b.flatLen))
    ensures Ext(r.nonflatLen) == Min(Ext(a.nonflatLen), Plus(Ext(a.flatLen), Ext(b.nonflatLen)))
  {
    Measure(
      match (a.flatLen, b.flatLen)
      case (Some(x), Some(y)) => Some(x + y)
      case (_, _) => None,
      match (a.nonflatLen, a.flatLen, b.nonflatLen)
      case (Some(lfirst), Some(lflat), Some(rfirst)) =>
        Some(if lfirst <= lflat + rfirst then lfirst else lflat + rfirst)
      case (Some(lfirst), _, _) => Some(lfirst)
      case (None, Some(lflat), Some(rfirst)) => Some(lflat + rfirst)
      case (_, _, _) => None)
  }

  function MinOpt(x: Option<nat>, y: Option<nat>): Option<nat> {
    match (x, y)
    case (Some(a), Some(b)) => Some(if a <= b then a else b)
    case (Some(a), None) => Some(a)
    case (None, Some(b)) => Some(b)
    case (None, None) => None
  }

  /** `Measure::choice`: the pointwise minimum of the present lengths. */
  function Choice(a: Measure, b: Measure): (r: Measure)
    ensures Ext(r.flatLen) == Min(Ext(a.flatLen), Ext(b.flatLen))
    ensures Ext(r.nonflatLen) == Min(Ext(a.nonflatLen), Ext(b.nonflatLen))
    ensures r.flatLen.None? <==> a.flatLen.None? && b.flatLen.None?
    ensures r.nonflatLen.None? <==> a.nonflatLen.None? && b.nonflatLen.None?
  {
    Measure(MinOpt(a.flatLen, b.flatLen), MinOpt(a.nonflatLen, b.nonflatLen))
  }

  /** `Measure::is_valid`: some layout exists. */
  function IsValid(m: Measure): (r: bool)
    ensures r <==> Min(Ext(m.nonflatLen), Ext(m.flatLen)) != Infinity
  {
    match (m.nonflatLen, m.flatLen)
    case (None, None) => false
    case (_, _) => true
  }

  /** `Measure::fits_in_width`: some layout's first line fits in `w`. */
  function FitsInWidth(m: Measure, w: nat): (r: bool)
    ensures r <==> AtMost(Min(Ext(m.nonflatLen), Ext(m.flatLen)), w)
  {
    match (m.nonflatLen, m.flatLen)
    case (Some(x), Some(y)) => x <= w || y <= w
    case (Some(x), None) => x <= w
    case (None, Some(x)) => x <= w
    case (None, None) => false
  }

  lemma FitsImpliesValid(m: Measure, w: nat)
    requires FitsInWidth(m, w)
    ensures IsValid(m)
  {
  }

  lemma FitsMonotone(m: Measure, w1: nat, w2: nat)
    requires w1 <= w2 && FitsInWidth(m, w1)
    ensures FitsInWidth(m, w2)
  {
  }

  lemma ChoiceCommutative(a: Measure, b: Measure)
    ensures Choice(a, b) == Choice(b, a)
  {
    ExtInjective(Choice(a, b).flatLen, Choice(b, a).flatLen);
    ExtInjective(Choice(a, b).nonflatLen, Choice(b, a).nonflatLen);
  }

  lemma ChoiceAssociative(a: Measure, b: Measure, c: Measure)
    ensures Choice(Choice(a, b), c) == Choice(a, Choice(b, c))
  {
    ExtInjective(Choice(Choice(a, b), c).flatLen, Choice(a, Choice(b, c)).flatLen);
    ExtInjective(Choice(Choice(a, b), c).nonflatLen, Choice(a, Choice(b, c)).nonflatLen);
  }

  lemma ChoiceIdempotent(a: Measure)
    ensures Choice(a, a) == a
  {
    ExtInjective(Choice(a, a).flatLen, a.flatLen);
    ExtInjective(Choice(a, a).nonflatLen, a.nonflatLen);
  }

  lemma ConcatAssociative(a: Measure, b: Measure, c: Measure)
    ensures Concat(Concat(a, b), c) == Concat(a, Concat(b, c))
  {
    ExtInjective(Concat(Concat(a, b), c).flatLen, Concat(a, Concat(b, c)).flatLen);
    ExtInjective(Concat(Concat(a, b), c).nonflatLen, Concat(a, Concat(b, c)).nonflatLen);
  }

  /** `flat(0)` (the measure of an empty string) is a unit of `concat`. */
  lemma ConcatUnit(a: Measure)
    ensures Concat(Flat(0), a) == a && Concat(a, Flat(0)) == a
  {
    ExtInjective(Concat(Flat(0), a).flatLen, a.flatLen);
    ExtInjective(Concat(Flat(0), a).nonflatLen, a.nonflatLen);
    ExtInjective(Concat(a, Flat(0)).flatLen, a.flatLen);
    ExtInjective(Concat(a, Flat(0)).nonflatLen, a.nonflatLen);
  }

  /** Concatenation distributes over choice on both sides. */
  lemma ConcatDistributesOverChoice(a: Measure, b: Measure, c: Measure)
    ensures Concat(Choice(a, b), c) == Choice(Concat(a, c), Concat(b, c))
    ensures Concat(c, Choice(a, b)) == Choice(Concat(c, a), Concat(c, b))
  {
    ChoiceThenConcat(a, b, c);
    ConcatThenChoice(a, b, c);
  }

  /** A choice followed by a measure: the choice of each option followed by it. */
  lemma ChoiceThenConcat(a: Measure, b: Measure, c: Measure)
    ensures Concat(Choice(a, b), c) == Choice(Concat(a, c), Concat(b, c))
  {
    ExtInjective(Concat(Choice(a, b), c).flatLen, Choice(Concat(a, c), Concat(b, c)).flatLen);
    ExtInjective(Concat(Choice(a, b), c).nonflatLen, Choice(Concat(a, c), Concat(b, c)).nonflatLen);
  }

  /** A measure followed by a choice: the choice of it followed by each option. */
  lemma ConcatThenChoice(a: Measure, b: Measure, c: Measure)
    ensures Concat(c, Choice(a, b)) == Choice(Concat(c, a), Concat(c, b))
  {
    ExtInjective(Concat(c, Choice(a, b)).flatLen, Choice(Concat(c, a), Concat(c, b)).flatLen);
    ExtInjective(Concat(c, Choice(a, b)).nonflatLen, Choice(Concat(c, a), Concat(c, b)).nonflatLen);
  }

  /** Flattening forgets newline layouts, and commutes with choice. */
  lemma FlattenedChoice(a: Measure, b: Measure)
    ensures Flattened(Choice(a, b)) == Choice(Flattened(a), Flattened(b))
    ensures IsValid(Flattened(a)) <==> a.flatLen.Some?
  {
  }
}
