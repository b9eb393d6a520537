// Dividing the width (or height) of a pane among its sub-panes.
//
// A `Divvier` serves the sub-panes in three rounds: `Fixed` panes first, in
// order and first come first served; then `Dynamic` panes, which are given the
// sizes their documents asked for; then `Proportional` panes, which share what
// is left in proportion to their weights (`FairDivision`). A panic of the
// source (a failed `assert`, `expect` or division by zero) is a `false` or
// `None` result here.

module Divvy {
  import opened Wrappers
  import opened Sums
  import opened FairDivision

  datatype PaneSize = Fixed(size: nat) | Dynamic | Proportional(weight: nat)

  /** The three rounds of the division, one per kind of pane size. */
  datatype Kind = FixedKind | DynamicKind | ProportionalKind

  function KindOf(p: PaneSize): Kind
  {
    match p
    case Fixed(_) => FixedKind
    case Dynamic => DynamicKind
    case Proportional(_) => ProportionalKind
  }

  /** `a - b`, or 0 when `b` is larger. */
  function SatSub(a: nat, b: nat): (r: nat)
    ensures r == 0 || r + b == a
    ensures r <= a
  {
    if b <= a then a - b else 0
  }

  /** How much a pane asks for in the fixed round. */
  function Request(p: PaneSize): nat
  {
    if p.Fixed? then p.size else 0
  }

  /** The total size asked for by the fixed panes of `s`. */
  function FixedDemand(s: seq<PaneSize>): nat
  {
    if s == [] then 0 else Request(s[0]) + FixedDemand(s[1..])
  }

  /** How many panes of `s` are of kind `k`. */
  function Count(s: seq<PaneSize>, k: Kind): (n: nat)
    ensures n <= |s|
  {
    if s == [] then 0 else (if KindOf(s[0]) == k then 1 else 0) + Count(s[1..], k)
  }

  /** The weights of the proportional panes of `s`, in order. */
  function Weights(s: seq<PaneSize>): (w: seq<nat>)
    ensures |w| == Count(s, ProportionalKind)
  {
    if s == [] then []
    else if s[0].Proportional? then [s[0].weight] + Weights(s[1..])
    else Weights(s[1..])
  }

  // ---------------------------------------------------------------------
  // The fixed round

  /** What the fixed round gives each pane when `cookies` are available. */
  function FixedAlloc(s: seq<PaneSize>, cookies: nat): (r: seq<nat>)
    ensures |r| == |s|
  {
    if s == [] then []
    else
      var given := Min(cookies, Request(s[0]));
      [given] + FixedAlloc(s[1..], cookies - given)
  }

  /** What is left after the fixed round. */
  function FixedLeft(s: seq<PaneSize>, cookies: nat): nat
  {
    if s == [] then cookies
    else FixedLeft(s[1..], cookies - Min(cookies, Request(s[0])))
  }

  /**
   * First come, first served: a fixed pane gets its request, or whatever
   * the fixed panes before it have left, whichever is smaller; every other
   * pane gets nothing in this round.
   */
  lemma {:induction false} FixedAllocAt(s: seq<PaneSize>, cookies: nat, i: nat)
    requires i < |s|
    ensures FixedAlloc(s, cookies)[i] == Min(Request(s[i]), SatSub(cookies, FixedDemand(s[..i])))
    ensures !s[i].Fixed? ==> FixedAlloc(s, cookies)[i] == 0
    decreases |s|
  {
    var given := Min(cookies, Request(s[0]));
    if i == 0 {
      assert s[..0] == [];
    } else {
      FixedAllocAt(s[1..], cookies - given, i - 1);
      assert s[1..][..i - 1] == s[..i][1..];
      assert s[..i][0] == s[0];
    }
  }

  /** What is left is what was there less the total demand, down to zero. */
  lemma {:induction false} FixedLeftIs(s: seq<PaneSize>, cookies: nat)
    ensures FixedLeft(s, cookies) == SatSub(cookies, FixedDemand(s))
    ensures Sum(FixedAlloc(s, cookies)) + FixedLeft(s, cookies) == cookies
    decreases |s|
  {
    if s != [] {
      var given := Min(cookies, Request(s[0]));
      FixedLeftIs(s[1..], cookies - given);
      SumFront(FixedAlloc(s, cookies));
      assert FixedAlloc(s, cookies)[1..] == FixedAlloc(s[1..], cookies - given);
    }
  }

  /** When the fixed panes ask for no more than there is, each gets all it asks for. */
  lemma FixedAllSatisfied(s: seq<PaneSize>, cookies: nat, i: nat)
    requires FixedDemand(s) <= cookies && i < |s|
    ensures FixedAlloc(s, cookies)[i] == Request(s[i])
  {
    FixedAllocAt(s, cookies, i);
    FixedDemandPrefix(s, i);
  }

  /** Once a fixed pane is served short, every later pane gets nothing. */
  lemma ShortStarvesLater(s: seq<PaneSize>, cookies: nat, i: nat, j: nat)
    requires i < j < |s|
    requires FixedAlloc(s, cookies)[i] < Request(s[i])
    ensures FixedAlloc(s, cookies)[j] == 0
  {
    FixedAllocAt(s, cookies, i);
    FixedAllocAt(s, cookies, j);
    FixedDemandPrefix(s[..j], i);
    assert s[..j][..i] == s[..i];
    assert s[..j][i] == s[i];
    FixedDemandPrefix(s[..j], i + 1);
    FixedDemandSnoc(s[..i + 1]);
    assert s[..i + 1][..i] == s[..i];
    assert s[..j][..i + 1] == s[..i + 1];
  }

  /** The demand of a prefix is at most the demand of the whole. */
  lemma {:induction false} FixedDemandPrefix(s: seq<PaneSize>, i: nat)
    requires i <= |s|
    ensures FixedDemand(s[..i]) <= FixedDemand(s)
    ensures i < |s| ==> FixedDemand(s[..i]) + Request(s[i]) <= FixedDemand(s)
    decreases |s|
  {
    if i > 0 {
      FixedDemandPrefix(s[1..], i - 1);
      assert s[1..][..i - 1] == s[..i][1..];
    } else {
      assert s[..0] == [];
    }
  }

  /** The demand grows by one pane's request at the end. */
  lemma {:induction false} FixedDemandSnoc(s: seq<PaneSize>)
    requires s != []
    ensures FixedDemand(s) == FixedDemand(s[..|s| - 1]) + Request(s[|s| - 1])
    decreases |s|
  {
    if |s| > 1 {
      FixedDemandSnoc(s[1..]);
      assert s[1..][..|s| - 2] == s[..|s| - 1][1..];
    } else {
      assert s[..0] == [];
    }
  }

  // ---------------------------------------------------------------------
  // Placing the sizes of a later round

  /** `Some([x] + r)` from `Some(r)`, `None` from `None`. */
  function Prepend(p: seq<nat>, o: Option<seq<nat>>): (r: Option<seq<nat>>)
    ensures r.Some? <==> o.Some?
    ensures r.Some? ==> r.value == p + o.value
  {
    if o.None? then None else Some(p + o.value)
  }

  lemma PrependTwice(p: seq<nat>, q: seq<nat>, o: Option<seq<nat>>)
    ensures Prepend(p, Prepend(q, o)) == Prepend(p + q, o)
  {
    if o.Some? {
      assert p + (q + o.value) == (p + q) + o.value;
    }
  }

  lemma PrependNothing(o: Option<seq<nat>>)
    ensures Prepend([], o) == o
  {
    if o.Some? {
      assert [] + o.value == o.value;
    }
  }

  /**
   * Gives the panes of kind `k`, in order, the sizes in `values`, keeping
   * `alloc` for the other panes. `None` when `values` runs out (the source's
   * `expect`) or has some left over (its `assert_eq`).
   */
  function Place(s: seq<PaneSize>, k: Kind, values: seq<nat>, alloc: seq<nat>): (r: Option<seq<nat>>)
    requires |alloc| == |s|
    ensures r.Some? ==> |r.value| == |s|
    decreases |s|
  {
    if s == [] then (if values == [] then Some([]) else None)
    else if KindOf(s[0]) == k then
      (if values == [] then None else Prepend([values[0]], Place(s[1..], k, values[1..], alloc[1..])))
    else Prepend([alloc[0]], Place(s[1..], k, values, alloc[1..]))
  }

  /** One step of `Place` from pane `i` and value `j` on. */
  lemma PlaceFrom(s: seq<PaneSize>, k: Kind, values: seq<nat>, alloc: seq<nat>, i: nat, j: nat)
    requires |alloc| == |s| && i < |s| && j <= |values|
    ensures KindOf(s[i]) == k && j == |values| ==> Place(s[i..], k, values[j..], alloc[i..]) == None
    ensures KindOf(s[i]) == k && j < |values| ==>
      Place(s[i..], k, values[j..], alloc[i..]) == Prepend([values[j]], Place(s[i + 1..], k, values[j + 1..], alloc[i + 1..]))
    ensures KindOf(s[i]) != k ==>
      Place(s[i..], k, values[j..], alloc[i..]) == Prepend([alloc[i]], Place(s[i + 1..], k, values[j..], alloc[i + 1..]))
  {
    assert s[i..][1..] == s[i + 1..];
    assert alloc[i..][1..] == alloc[i + 1..];
    if j < |values| {
      assert values[j..][1..] == values[j + 1..];
    } else {
      assert values[j..] == [];
    }
  }

  /** Placing succeeds exactly when there is one size per pane of the kind. */
  lemma {:induction false} PlaceSomeIff(s: seq<PaneSize>, k: Kind, values: seq<nat>, alloc: seq<nat>)
    requires |alloc| == |s|
    ensures Place(s, k, values, alloc).Some? <==> |values| == Count(s, k)
    decreases |s|
  {
    if s != [] {
      if KindOf(s[0]) == k {
        if values != [] {
          PlaceSomeIff(s[1..], k, values[1..], alloc[1..]);
        }
      } else {
        PlaceSomeIff(s[1..], k, values, alloc[1..]);
      }
    }
  }

  /**
   * The `n`-th pane of kind `k` gets the `n`-th size; every other pane keeps
   * its allocation.
   */
  lemma {:induction false} PlaceAt(s: seq<PaneSize>, k: Kind, values: seq<nat>, alloc: seq<nat>, i: nat)
    requires |alloc| == |s| && i < |s|
    requires Place(s, k, values, alloc).Some?
    ensures KindOf(s[i]) == k ==> Count(s[..i], k) < |values|
    ensures KindOf(s[i]) == k ==> Place(s, k, values, alloc).value[i] == values[Count(s[..i], k)]
    ensures KindOf(s[i]) != k ==> Place(s, k, values, alloc).value[i] == alloc[i]
    decreases |s|
  {
    if i == 0 {
      assert s[..0] == [];
    } else {
      assert s[1..][..i - 1] == s[..i][1..];
      assert s[..i][0] == s[0];
      if KindOf(s[0]) == k {
        PlaceAt(s[1..], k, values[1..], alloc[1..], i - 1);
      } else {
        PlaceAt(s[1..], k, values, alloc[1..], i - 1);
      }
    }
  }

  /** Panes of kind `k` that held nothing: placing adds exactly the sizes placed. */
  lemma {:induction false} PlaceSum(s: seq<PaneSize>, k: Kind, values: seq<nat>, alloc: seq<nat>)
    requires |alloc| == |s| && Place(s, k, values, alloc).Some?
    requires forall i :: 0 <= i < |s| && KindOf(s[i]) == k ==> alloc[i] == 0
    ensures Sum(Place(s, k, values, alloc).value) == Sum(alloc) + Sum(values)
    decreases |s|
  {
    if s != [] {
      var r := Place(s, k, values, alloc).value;
      SumFront(r);
      SumFront(alloc);
      assert forall i :: 0 <= i < |s[1..]| && KindOf(s[1..][i]) == k ==> alloc[1..][i] == 0 by {
        forall i | 0 <= i < |s[1..]| && KindOf(s[1..][i]) == k
          ensures alloc[1..][i] == 0
        {
          assert s[1..][i] == s[i + 1];
        }
      }
      if KindOf(s[0]) == k {
        SumFront(values);
        PlaceSum(s[1..], k, values[1..], alloc[1..]);
      } else {
        PlaceSum(s[1..], k, values, alloc[1..]);
      }
    }
  }

  // ---------------------------------------------------------------------
  // The whole division, as values

  /** Allocation and remaining space after the dynamic round; `None` is a panic. */
  function AfterDynamic(s: seq<PaneSize>, alloc: seq<nat>, cookies: nat, sizes: seq<nat>): Option<(seq<nat>, nat)>
    requires |alloc| == |s|
  {
    if Sum(sizes) > cookies then None
    else
      var placed := Place(s, DynamicKind, sizes, alloc);
      if placed.None? then None else Some((placed.value, cookies - Sum(sizes)))
  }

  /** Allocation and remaining space after the proportional round; `None` is a panic. */
  function AfterProportional(s: seq<PaneSize>, alloc: seq<nat>, cookies: nat): Option<(seq<nat>, nat)>
    requires |alloc| == |s|
  {
    var shares := Divide(cookies, Weights(s));
    if shares.None? then None
    else
      DivideSum(cookies, Weights(s));
      var placed := Place(s, ProportionalKind, shares.value, alloc);
      if placed.None? then None
      else Some((placed.value, cookies - Sum(shares.value)))
  }

  /** The dynamic and the proportional rounds, from a given state. */
  function Settle(s: seq<PaneSize>, alloc: seq<nat>, cookies: nat, sizes: seq<nat>): Option<seq<nat>>
    requires |alloc| == |s|
  {
    var dyn := AfterDynamic(s, alloc, cookies, sizes);
    if dyn.None? then None
    else
      var prop := AfterProportional(s, dyn.value.0, dyn.value.1);
      if prop.None? then None else Some(prop.value.0)
  }

  /** The final allocation for `available` space, from construction to `finish`. */
  function Allocation(available: nat, s: seq<PaneSize>, sizes: seq<nat>): Option<seq<nat>>
  {
    Settle(s, FixedAlloc(s, available), FixedLeft(s, available), sizes)
  }

  /** The proportional round never panics once the weights can be divided. */
  lemma ProportionalSome(s: seq<PaneSize>, alloc: seq<nat>, cookies: nat)
    requires |alloc| == |s|
    ensures AfterProportional(s, alloc, cookies).Some? <==> Divisible(Weights(s))
    ensures AfterProportional(s, alloc, cookies).Some? ==>
      AfterProportional(s, alloc, cookies).value.1 == (if Weights(s) == [] then cookies else 0)
  {
    var w := Weights(s);
    DividePanics(cookies, w);
    if Divisible(w) {
      var shares := Divide(cookies, w).value;
      DivideSum(cookies, w);
      PlaceSomeIff(s, ProportionalKind, shares, alloc);
      if w == [] {
        assert shares == [];
      }
    }
  }

  /**
   * The division panics exactly when the dynamic sizes add up to more than
   * the fixed round left, when there is not one of them per dynamic pane, or
   * when there are proportional panes whose weights are all zero.
   */
  lemma AllocationPanics(available: nat, s: seq<PaneSize>, sizes: seq<nat>)
    ensures Allocation(available, s, sizes).None? <==>
      Sum(sizes) > SatSub(available, FixedDemand(s))
      || |sizes| != Count(s, DynamicKind)
      || !Divisible(Weights(s))
  {
    FixedLeftIs(s, available);
    PlaceSomeIff(s, DynamicKind, sizes, FixedAlloc(s, available));
    var dyn := AfterDynamic(s, FixedAlloc(s, available), FixedLeft(s, available), sizes);
    if dyn.Some? {
      ProportionalSome(s, dyn.value.0, dyn.value.1);
    }
  }

  /** What the fixed and the dynamic rounds leave for the proportional panes. */
  function LeftForProportional(available: nat, s: seq<PaneSize>, sizes: seq<nat>): nat
  {
    SatSub(SatSub(available, FixedDemand(s)), Sum(sizes))
  }

  /** A fixed pane keeps what the fixed round gave it. */
  lemma AllocationFixedSlot(available: nat, s: seq<PaneSize>, sizes: seq<nat>, i: nat)
    requires Allocation(available, s, sizes).Some? && i < |s| && s[i].Fixed?
    ensures |Allocation(available, s, sizes).value| == |s|
    ensures Allocation(available, s, sizes).value[i] == FixedAlloc(s, available)[i]
  {
    var a1 := FixedAlloc(s, available);
    var dyn := AfterDynamic(s, a1, FixedLeft(s, available), sizes).value;
    var shares := Divide(dyn.1, Weights(s)).value;
    assert dyn.0 == Place(s, DynamicKind, sizes, a1).value;
    assert Allocation(available, s, sizes).value == Place(s, ProportionalKind, shares, dyn.0).value;
    PlaceAt(s, DynamicKind, sizes, a1, i);
    PlaceAt(s, ProportionalKind, shares, dyn.0, i);
  }

  /** The `n`-th dynamic pane gets the `n`-th dynamic size. */
  lemma AllocationDynamicSlot(available: nat, s: seq<PaneSize>, sizes: seq<nat>, i: nat)
    requires Allocation(available, s, sizes).Some? && i < |s| && s[i].Dynamic?
    ensures |Allocation(available, s, sizes).value| == |s|
    ensures Count(s[..i], DynamicKind) < |sizes|
    ensures Allocation(available, s, sizes).value[i] == sizes[Count(s[..i], DynamicKind)]
  {
    var a1 := FixedAlloc(s, available);
    var dyn := AfterDynamic(s, a1, FixedLeft(s, available), sizes).value;
    var shares := Divide(dyn.1, Weights(s)).value;
    assert dyn.0 == Place(s, DynamicKind, sizes, a1).value;
    assert Allocation(available, s, sizes).value == Place(s, ProportionalKind, shares, dyn.0).value;
    PlaceAt(s, DynamicKind, sizes, a1, i);
    PlaceAt(s, ProportionalKind, shares, dyn.0, i);
  }

  /**
   * The `n`-th proportional pane gets the `n`-th fair share of what the
   * first two rounds left.
   */
  lemma AllocationProportionalSlot(available: nat, s: seq<PaneSize>, sizes: seq<nat>, i: nat)
    requires Allocation(available, s, sizes).Some? && i < |s| && s[i].Proportional?
    ensures |Allocation(available, s, sizes).value| == |s|
    ensures Divide(LeftForProportional(available, s, sizes), Weights(s)).Some?
    ensures Count(s[..i], ProportionalKind) < |Divide(LeftForProportional(available, s, sizes), Weights(s)).value|
    ensures Allocation(available, s, sizes).value[i]
      == Divide(LeftForProportional(available, s, sizes), Weights(s)).value[Count(s[..i], ProportionalKind)]
  {
    FixedLeftIs(s, available);
    var a1 := FixedAlloc(s, available);
    var dyn := AfterDynamic(s, a1, FixedLeft(s, available), sizes).value;
    assert dyn.1 == LeftForProportional(available, s, sizes);
    var shares := Divide(dyn.1, Weights(s)).value;
    assert Allocation(available, s, sizes).value == Place(s, ProportionalKind, shares, dyn.0).value;
    PlaceAt(s, ProportionalKind, shares, dyn.0, i);
  }

  /**
   * Nothing is handed out twice: the allocation adds up to at most the
   * available space, and to all of it when a proportional pane is there to
   * take what the other rounds leave.
   */
  lemma AllocationSum(available: nat, s: seq<PaneSize>, sizes: seq<nat>)
    requires Allocation(available, s, sizes).Some?
    ensures Sum(Allocation(available, s, sizes).value) <= available
    ensures Weights(s) != [] ==> Sum(Allocation(available, s, sizes).value) == available
  {
    FixedLeftIs(s, available);
    var a1 := FixedAlloc(s, available);
    var left1 := FixedLeft(s, available);
    forall i | 0 <= i < |s| && KindOf(s[i]) != FixedKind
      ensures a1[i] == 0
    {
      FixedAllocAt(s, available, i);
    }
    PlaceSum(s, DynamicKind, sizes, a1);
    var dyn := AfterDynamic(s, a1, left1, sizes).value;
    forall i | 0 <= i < |s| && KindOf(s[i]) == ProportionalKind
      ensures dyn.0[i] == 0
    {
      PlaceAt(s, DynamicKind, sizes, a1, i);
      FixedAllocAt(s, available, i);
    }
    var shares := Divide(dyn.1, Weights(s)).value;
    PlaceSum(s, ProportionalKind, shares, dyn.0);
    DivideSum(dyn.1, Weights(s));
    ProportionalSome(s, dyn.0, dyn.1);
  }

  /** One pane of the fixed round. */
  lemma FixedStep(s: seq<PaneSize>, i: nat, cookies: nat)
    requires i < |s|
    ensures var given := Min(cookies, Request(s[i]));
      FixedAlloc(s[i..], cookies) == [given] + FixedAlloc(s[i + 1..], cookies - given) &&
      FixedLeft(s[i..], cookies) == FixedLeft(s[i + 1..], cookies - given)
  {
    assert s[i..][1..] == s[i + 1..];
  }

  /**
   * The fixed round part-way, after pane `i`: the allocation so far followed
   * by what the rest would get is the whole round's allocation, and the
   * panes from `i` on hold nothing yet.
   */
  predicate FixedSoFar(s: seq<PaneSize>, alloc: seq<nat>, i: nat, start: nat, cookies: nat)
  {
    i <= |s| && |alloc| == |s| &&
    alloc[..i] + FixedAlloc(s[i..], cookies) == FixedAlloc(s, start) &&
    FixedLeft(s[i..], cookies) == FixedLeft(s, start) &&
    forall k :: i <= k < |alloc| ==> alloc[k] == 0
  }

  lemma FixedSoFarStart(s: seq<PaneSize>, alloc: seq<nat>, cookies: nat)
    requires |alloc| == |s| && forall k :: 0 <= k < |alloc| ==> alloc[k] == 0
    ensures FixedSoFar(s, alloc, 0, cookies, cookies)
  {
    assert s[0..] == s && alloc[..0] == [];
  }

  /** Pane `i` gets its request or what is left, whichever is smaller; nothing if it is not fixed. */
  lemma FixedSoFarStep(s: seq<PaneSize>, alloc: seq<nat>, i: nat, start: nat, cookies: nat)
    requires FixedSoFar(s, alloc, i, start, cookies) && i < |s|
    ensures var given := Min(cookies, Request(s[i]));
      FixedSoFar(s, alloc[i := given], i + 1, start, cookies - given) &&
      (!s[i].Fixed? ==> alloc[i := given] == alloc && given == 0)
  {
    var given := Min(cookies, Request(s[i]));
    FixedStep(s, i, cookies);
    var next := alloc[i := given];
    assert next[..i + 1] == alloc[..i] + [given];
    assert next[..i + 1] + FixedAlloc(s[i + 1..], cookies - given) == alloc[..i] + FixedAlloc(s[i..], cookies);
  }

  lemma FixedSoFarDone(s: seq<PaneSize>, alloc: seq<nat>, start: nat, cookies: nat)
    requires FixedSoFar(s, alloc, |s|, start, cookies)
    ensures alloc == FixedAlloc(s, start) && cookies == FixedLeft(s, start)
  {
    assert s[|s|..] == [] && alloc[..|s|] == alloc;
  }

  /** From an empty allocation, the fixed round hands out only what there was. */
  lemma FixedBalance(s: seq<PaneSize>, alloc: seq<nat>, cookies: nat)
    requires forall i :: 0 <= i < |alloc| ==> alloc[i] == 0
    ensures Sum(FixedAlloc(s, cookies)) + FixedLeft(s, cookies) == Sum(alloc) + cookies
  {
    SumZeros(alloc);
    FixedLeftIs(s, cookies);
  }

  /**
   * The dynamic round moves space from what is left to the dynamic panes,
   * losing and making up none, and leaves the proportional panes empty.
   */
  lemma DynamicBalance(s: seq<PaneSize>, alloc: seq<nat>, cookies: nat, sizes: seq<nat>)
    requires |alloc| == |s| && AfterDynamic(s, alloc, cookies, sizes).Some?
    requires forall i :: 0 <= i < |s| && KindOf(s[i]) == DynamicKind ==> alloc[i] == 0
    requires forall i :: 0 <= i < |s| && KindOf(s[i]) == ProportionalKind ==> alloc[i] == 0
    ensures Sum(AfterDynamic(s, alloc, cookies, sizes).value.0) + AfterDynamic(s, alloc, cookies, sizes).value.1
      == Sum(alloc) + cookies
    ensures forall i :: 0 <= i < |s| && KindOf(s[i]) == ProportionalKind ==>
      AfterDynamic(s, alloc, cookies, sizes).value.0[i] == 0
  {
    PlaceSum(s, DynamicKind, sizes, alloc);
    forall i | 0 <= i < |s| && KindOf(s[i]) == ProportionalKind
      ensures AfterDynamic(s, alloc, cookies, sizes).value.0[i] == 0
    {
      PlaceAt(s, DynamicKind, sizes, alloc, i);
    }
  }

  // ---------------------------------------------------------------------
  // The divvier itself

  class Divvier {
    const paneSizes: seq<PaneSize>
    var allocations: seq<nat>
    var cookies: nat
    /** The space there was to divide. */
    ghost const available: nat

    /** Every pane has an allocation, and no space is lost or made up. */
    ghost predicate Valid()
      reads this
    {
      |allocations| == |paneSizes| && Sum(allocations) + cookies == available
    }

    /** The panes of kind `k` have not been served yet. */
    ghost predicate Unserved(k: Kind)
      reads this
    {
      |allocations| == |paneSizes|
      && forall i :: 0 <= i < |paneSizes| && KindOf(paneSizes[i]) == k ==> allocations[i] == 0
    }

    /** Builds the divvier and runs the fixed round at once. */
    constructor(availableSize: nat, paneSizes: seq<PaneSize>)
      ensures this.paneSizes == paneSizes && available == availableSize
      ensures allocations == FixedAlloc(paneSizes, availableSize)
      ensures Remaining() == FixedLeft(paneSizes, availableSize)
      ensures Valid() && Unserved(DynamicKind) && Unserved(ProportionalKind)
    {
      this.paneSizes := paneSizes;
      allocations := seq(|paneSizes|, _ => 0);
      cookies := availableSize;
      available := availableSize;
      new;
      SumZeros(allocations);
      AllocateFixed();
      FixedLeftIs(paneSizes, availableSize);
      forall i | 0 <= i < |paneSizes| && KindOf(paneSizes[i]) != FixedKind
        ensures allocations[i] == 0
      {
        FixedAllocAt(paneSizes, availableSize, i);
      }
    }

    /** The space not handed out yet. */
    function Remaining(): nat
      reads this
    {
      cookies
    }

    method AllocateFixed()
      requires forall i :: 0 <= i < |allocations| ==> allocations[i] == 0
      requires |allocations| == |paneSizes|
      modifies this
      ensures allocations == FixedAlloc(paneSizes, old(cookies))
      ensures cookies == FixedLeft(paneSizes, old(cookies))
      ensures Sum(allocations) + cookies == Sum(old(allocations)) + old(cookies)
    {
      FixedSoFarStart(paneSizes, allocations, cookies);
      var i := 0;
      while i < |paneSizes|
        invariant FixedSoFar(paneSizes, allocations, i, old(cookies), cookies)
      {
        FixedSoFarStep(paneSizes, allocations, i, old(cookies), cookies);
        if paneSizes[i].Fixed? {
          var given := Min(cookies, paneSizes[i].size);
          cookies := cookies - given;
          allocations := allocations[i := given];
        }
        i := i + 1;
      }
      FixedSoFarDone(paneSizes, allocations, old(cookies), cookies);
      FixedBalance(paneSizes, old(allocations), old(cookies));
    }

    /**
     * The dynamic round: `sizes` holds one size per dynamic pane, in order.
     * Panics (returns `false`) when they add up to more than what is left or
     * when there are too few or too many of them.
     */
    method AllocateDynamic(sizes: seq<nat>) returns (ok: bool)
      requires Valid() && Unserved(DynamicKind) && Unserved(ProportionalKind)
      modifies this
      ensures ok == AfterDynamic(paneSizes, old(allocations), old(cookies), sizes).Some?
      ensures ok ==> (allocations, cookies) == AfterDynamic(paneSizes, old(allocations), old(cookies), sizes).value
      ensures ok ==> Valid() && Unserved(ProportionalKind)
    {
      var sum := SumOf(sizes);
      if sum > cookies {
        return false;
      }
      cookies := cookies - sum;
      ok := PlaceSizes(sizes);
      if ok {
        DynamicBalance(paneSizes, old(allocations), old(cookies), sizes);
      }
    }

    /** Hands out `sizes` to the dynamic panes, in order; `false` when there is not one size per pane. */
    method PlaceSizes(sizes: seq<nat>) returns (ok: bool)
      requires |allocations| == |paneSizes|
      modifies this
      ensures cookies == old(cookies)
      ensures ok == Place(paneSizes, DynamicKind, sizes, old(allocations)).Some?
      ensures ok ==> allocations == Place(paneSizes, DynamicKind, sizes, old(allocations)).value
    {
      ghost var alloc0 := allocations;
      var i, j := 0, 0;
      assert paneSizes[0..] == paneSizes && sizes[0..] == sizes && alloc0[0..] == alloc0;
      PrependNothing(Place(paneSizes, DynamicKind, sizes, alloc0));
      while i < |paneSizes|
        invariant i <= |paneSizes| && j <= |sizes| && |allocations| == |paneSizes|
        invariant allocations[i..] == alloc0[i..] && cookies == old(cookies)
        invariant Place(paneSizes, DynamicKind, sizes, alloc0)
          == Prepend(allocations[..i], Place(paneSizes[i..], DynamicKind, sizes[j..], alloc0[i..]))
      {
        PlaceFrom(paneSizes, DynamicKind, sizes, alloc0, i, j);
        if paneSizes[i].Dynamic? {
          if j == |sizes| {
            return false;
          }
          PrependTwice(allocations[..i], [sizes[j]],
            Place(paneSizes[i + 1..], DynamicKind, sizes[j + 1..], alloc0[i + 1..]));
          ghost var prev := allocations;
          allocations := allocations[i := sizes[j]];
          assert allocations[..i + 1] == prev[..i] + [sizes[j]];
          j := j + 1;
        } else {
          PrependTwice(allocations[..i], [alloc0[i]],
            Place(paneSizes[i + 1..], DynamicKind, sizes[j..], alloc0[i + 1..]));
          assert allocations[..i + 1] == allocations[..i] + [alloc0[i]];
        }
        i := i + 1;
      }
      assert allocations[..i] == allocations;
      assert paneSizes[i..] == [] && alloc0[i..] == [];
      if j == |sizes| {
        assert sizes[j..] == [];
        assert allocations + [] == allocations;
      }
      ok := j == |sizes|;
    }

    /**
     * The proportional round: the space left is shared among the
     * proportional panes by weight. Panics (returns `false`) when there are
     * proportional panes and all their weights are zero.
     */
    method AllocateProportional() returns (ok: bool)
      requires Valid() && Unserved(ProportionalKind)
      modifies this
      ensures ok == AfterProportional(paneSizes, old(allocations), old(cookies)).Some?
      ensures ok ==> (allocations, cookies) == AfterProportional(paneSizes, old(allocations), old(cookies)).value
      ensures ok ==> Valid()
    {
      var hungers := CollectWeights();
      var division := ProportionallyDivide(cookies, hungers);
      if division.None? {
        return false;
      }
      var shares := division.value;
      DivideSum(cookies, hungers);
      PlaceSomeIff(paneSizes, ProportionalKind, shares, allocations);
      PlaceSum(paneSizes, ProportionalKind, shares, allocations);
      PlaceShares(shares);
      ok := true;
    }

    /** Hands out `shares` to the proportional panes, in order. */
    method PlaceShares(shares: seq<nat>)
      requires |allocations| == |paneSizes|
      requires Place(paneSizes, ProportionalKind, shares, allocations).Some?
      requires Sum(shares) <= cookies
      modifies this
      ensures allocations == Place(paneSizes, ProportionalKind, shares, old(allocations)).value
      ensures cookies == old(cookies) - Sum(shares)
    {
      ghost var alloc0, cookies0 := allocations, cookies;
      var i, j := 0, 0;
      assert paneSizes[0..] == paneSizes && shares[0..] == shares && alloc0[0..] == alloc0;
      assert shares[..0] == [];
      PrependNothing(Place(paneSizes, ProportionalKind, shares, alloc0));
      while i < |paneSizes|
        invariant i <= |paneSizes| && j <= |shares| && |allocations| == |paneSizes|
        invariant allocations[i..] == alloc0[i..]
        invariant Place(paneSizes, ProportionalKind, shares, alloc0)
          == Prepend(allocations[..i], Place(paneSizes[i..], ProportionalKind, shares[j..], alloc0[i..]))
        invariant Place(paneSizes[i..], ProportionalKind, shares[j..], alloc0[i..]).Some?
        invariant cookies + Sum(shares[..j]) == cookies0
      {
        assert paneSizes[i..][1..] == paneSizes[i + 1..];
        assert alloc0[i..][1..] == alloc0[i + 1..];
        if paneSizes[i].Proportional? {
          assert shares[j..] != [];
          var share := shares[j];
          SumStep(shares, j);
          assert shares[j..][1..] == shares[j + 1..];
          PrependTwice(allocations[..i], [share],
            Place(paneSizes[i + 1..], ProportionalKind, shares[j + 1..], alloc0[i + 1..]));
          ghost var prev := allocations;
          allocations := allocations[i := share];
          cookies := cookies - share;
          assert allocations[..i + 1] == prev[..i] + [share];
          j := j + 1;
        } else {
          PrependTwice(allocations[..i], [alloc0[i]],
            Place(paneSizes[i + 1..], ProportionalKind, shares[j..], alloc0[i + 1..]));
          assert allocations[..i + 1] == allocations[..i] + [alloc0[i]];
        }
        i := i + 1;
      }
      assert allocations[..i] == allocations;
      assert paneSizes[i..] == [] && alloc0[i..] == [];
      assert shares[j..] == [];
      assert allocations + [] == allocations;
      assert j == |shares|;
      assert shares[..j] == shares;
    }

    /** The weights of the proportional panes, collected by a loop. */
    method CollectWeights() returns (hungers: seq<nat>)
      ensures hungers == Weights(paneSizes)
    {
      hungers := [];
      var i := 0;
      while i < |paneSizes|
        invariant i <= |paneSizes|
        invariant hungers + Weights(paneSizes[i..]) == Weights(paneSizes)
      {
        assert paneSizes[i..][1..] == paneSizes[i + 1..];
        if paneSizes[i].Proportional? {
          hungers := hungers + [paneSizes[i].weight];
        }
        i := i + 1;
      }
      assert paneSizes[i..] == [];
      assert hungers + [] == hungers;
    }

    /**
     * Runs the dynamic and the proportional rounds and returns the final
     * allocation; `None` when either of them panics.
     */
    method Finish(dynamicSizes: seq<nat>) returns (res: Option<seq<nat>>)
      requires Valid() && Unserved(DynamicKind) && Unserved(ProportionalKind)
      modifies this
      ensures res == Settle(paneSizes, old(allocations), old(cookies), dynamicSizes)
      ensures res.Some? ==> Valid() && res.value == allocations
    {
      var ok := AllocateDynamic(dynamicSizes);
      if !ok {
        return None;
      }
      ok := AllocateProportional();
      if !ok {
        return None;
      }
      res := Some(allocations);
    }
  }

  /** The sum of `sizes`, computed by a loop. */
  method SumOf(sizes: seq<nat>) returns (sum: nat)
    ensures sum == Sum(sizes)
  {
    sum := 0;
    var i := 0;
    while i < |sizes|
      invariant i <= |sizes| && sum == Sum(sizes[..i])
    {
      assert sizes[..i + 1][..i] == sizes[..i];
      sum := sum + sizes[i];
      i := i + 1;
    }
    assert sizes[..i] == sizes;
  }

  /** The source's `Divvier::new(available, sizes).finish(dynamic)`. */
  method DivvyUp(available: nat, paneSizes: seq<PaneSize>, dynamicSizes: seq<nat>) returns (res: Option<seq<nat>>)
    ensures res == Allocation(available, paneSizes, dynamicSizes)
  {
    var divvier := new Divvier(available, paneSizes);
    res := divvier.Finish(dynamicSizes);
  }
}

module DivvyExamples {
  import opened Wrappers
  import opened Sums
  import opened FairDivision
  import opened Divvy
  import FairDivisionExamples

  /** Two proportional panes of equal weight share one column: the left one gets it. */
  lemma ProportionalTie()
    ensures Allocation(1, [Proportional(1), Proportional(1)], []) == Some([1, 0])
  {
    var s := [Proportional(1), Proportional(1)];
    assert FixedAlloc(s, 1) == [0, 0];
    assert FixedLeft(s, 1) == 1;
    assert Weights(s) == [1, 1];
    FairDivisionExamples.TieGoesLeft();
    assert Place(s, DynamicKind, [], [0, 0]) == Some([0, 0]);
    assert s[1..] == [Proportional(1)] && [1, 0][1..] == [0] && [0, 0][1..] == [0];
    assert [Proportional(1)][1..] == [] && [0][1..] == [] && [0] + [] == [0];
    assert Place([], ProportionalKind, [], []) == Some([]);
    assert Place([Proportional(1)], ProportionalKind, [0], [0]) == Some([0]);
    assert [1] + [0] == [1, 0];
    assert Place(s, ProportionalKind, [1, 0], [0, 0]) == Some([1, 0]);
  }

  /** One pane of each kind: fixed first, then dynamic, then the rest. */
  lemma OneOfEach()
    ensures Allocation(10, [Fixed(3), Dynamic, Proportional(1)], [2]) == Some([3, 2, 5])
  {
    OneOfEachFixed();
    OneOfEachDynamic();
    OneOfEachProportional();
  }

  /** The fixed pane of `OneOfEach` gets its request, leaving 7. */
  lemma OneOfEachFixed()
    ensures FixedAlloc([Fixed(3), Dynamic, Proportional(1)], 10) == [3, 0, 0]
    ensures FixedLeft([Fixed(3), Dynamic, Proportional(1)], 10) == 7
  {
    var s := [Fixed(3), Dynamic, Proportional(1)];
    assert s[1..] == [Dynamic, Proportional(1)] && [Dynamic, Proportional(1)][1..] == [Proportional(1)];
    assert [Proportional(1)][1..] == [];
  }

  /** The dynamic pane of `OneOfEach` gets its own size, leaving 5. */
  lemma OneOfEachDynamic()
    ensures AfterDynamic([Fixed(3), Dynamic, Proportional(1)], [3, 0, 0], 7, [2]) == Some(([3, 2, 0], 5))
  {
    var s := [Fixed(3), Dynamic, Proportional(1)];
    assert Sum([2]) == 2 by {
      assert [2][..0] == [];
    }
    assert s[1..] == [Dynamic, Proportional(1)] && [Dynamic, Proportional(1)][1..] == [Proportional(1)];
    assert [Proportional(1)][1..] == [] && [0][1..] == [] && [0] + [] == [0];
    assert [3, 0, 0][1..] == [0, 0] && [0, 0][1..] == [0] && [2][1..] == [];
    assert [2] + [0] == [2, 0] && [3] + [2, 0] == [3, 2, 0];
    assert Place([], DynamicKind, [], []) == Some([]);
    assert Place([Proportional(1)], DynamicKind, [], [0]) == Some([0]);
    assert Place([Dynamic, Proportional(1)], DynamicKind, [2], [0, 0]) == Some([2, 0]);
    assert Place(s, DynamicKind, [2], [3, 0, 0]) == Some([3, 2, 0]);
  }

  /** The proportional pane of `OneOfEach` gets all that is left. */
  lemma OneOfEachProportional()
    ensures AfterProportional([Fixed(3), Dynamic, Proportional(1)], [3, 2, 0], 5) == Some(([3, 2, 5], 0))
  {
    var s := [Fixed(3), Dynamic, Proportional(1)];
    OneOfEachShares();
    assert Sum([5]) == 5 by {
      assert [5][..0] == [];
    }
    assert s[1..] == [Dynamic, Proportional(1)] && [Dynamic, Proportional(1)][1..] == [Proportional(1)];
    assert [Proportional(1)][1..] == [] && [0][1..] == [] && [5] + [] == [5];
    assert [3, 2, 0][1..] == [2, 0] && [2, 0][1..] == [0] && [5][1..] == [];
    assert [2] + [5] == [2, 5] && [3] + [2, 5] == [3, 2, 5];
    assert Place([Proportional(1)], ProportionalKind, [5], [0]) == Some([5]);
    assert Place([Dynamic, Proportional(1)], ProportionalKind, [5], [2, 0]) == Some([2, 5]);
  }

  /** The one proportional pane of `OneOfEach` has weight 1, so it gets all 5. */
  lemma OneOfEachShares()
    ensures Weights([Fixed(3), Dynamic, Proportional(1)]) == [1]
    ensures Divide(5, [1]) == Some([5])
  {
    var s := [Fixed(3), Dynamic, Proportional(1)];
    assert s[1..] == [Dynamic, Proportional(1)] && [Dynamic, Proportional(1)][1..] == [Proportional(1)];
    assert [Proportional(1)][1..] == [];
    assert Weights(s) == [1];
    assert Sum([1]) == 1 by {
      assert [1][..0] == [];
    }
    assert Floors(5, [1], 1) == [5];
    assert Sum([5]) == 5 by {
      assert [5][..0] == [];
    }
    assert Leftover(5, [1]) == 0;
    assert Given(5, [1]) == [];
    assert Bump([5], []) == [5];
  }

  /** Dynamic sizes that add up to more than the fixed panes left: a panic. */
  lemma DynamicTooLarge()
    ensures Allocation(10, [Fixed(3), Fixed(20), Dynamic], [2]) == None
  {
    var s := [Fixed(3), Fixed(20), Dynamic];
    FixedLeftIs(s, 10);
    assert FixedDemand(s) == 23;
    assert Sum([2]) == 2 by {
      assert [2][..0] == [];
    }
  }
}
