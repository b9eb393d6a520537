/**
 * Dividing a number of indivisible units ("cookies") among children in
 * proportion to their "hunger", as `proportionally_divide` in
 * src/pane_printing/pane.rs and `Divvier::allocate_proportional` in
 * src/pane/divvy.rs do (the two contain the same computation).
 *
 * Every child first gets the floor of its exact share. The cookies left over
 * go, one each, to the children with the largest remainders; the source sorts
 * `(index, remainder)` pairs with the stable `sort_by`, so among equal
 * remainders the leftmost child comes first.
 */
module FairDivision {
  import opened Wrappers
  import opened Sums

  function Min(a: nat, b: nat): nat
  {
    if a <= b then a else b
  }

  /** Each child's guaranteed minimum, the floor of the share it deserves.
      Nothing is divided when there are no children. */
  function Floors(cookies: nat, hungers: seq<nat>, total: nat): seq<nat>
    requires total > 0 || hungers == []
  {
    seq(|hungers|, i requires 0 <= i < |hungers| => Scaled(cookies, hungers[i]) / total)
  }

  /** The fraction of a cookie each child still deserves, scaled by `total`. */
  function Remainders(cookies: nat, hungers: seq<nat>, total: nat): seq<nat>
    requires total > 0 || hungers == []
  {
    seq(|hungers|, i requires 0 <= i < |hungers| => Scaled(cookies, hungers[i]) % total)
  }

  /** `cookies * hunger`: a child's share, scaled by the total hunger. */
  function Scaled(cookies: nat, hunger: nat): nat {
    cookies * hunger
  }

  // ---------------------------------------------------------------------
  // The order `sort_by` leaves the remainders in

  /** The remainder of child `i` (zero past the end, where it is never read). */
  function Rem(rems: seq<nat>, i: nat): nat
  {
    if i < |rems| then rems[i] else 0
  }

  /** Child `i` is handed a leftover cookie before child `j`: it has the larger
      remainder, or the same one and is further left. */
  predicate Before(rems: seq<nat>, i: nat, j: nat)
  {
    Rem(rems, i) > Rem(rems, j) || (Rem(rems, i) == Rem(rems, j) && i < j)
  }

  predicate Ordered(rems: seq<nat>, s: seq<nat>)
  {
    forall a, b :: 0 <= a < b < |s| ==> Before(rems, s[a], s[b])
  }

  /** Insert child `x` after every child already placed that is not after it
      (all of which are to the left of `x`). */
  function Insert(rems: seq<nat>, x: nat, sorted: seq<nat>): (r: seq<nat>)
    ensures |r| == |sorted| + 1
  {
    if sorted == [] then [x]
    else if Rem(rems, sorted[0]) >= Rem(rems, x) then [sorted[0]] + Insert(rems, x, sorted[1..])
    else [x] + sorted
  }

  /** Inserting adds `x` and keeps everything already placed. */
  lemma {:induction false} InsertMultiset(rems: seq<nat>, x: nat, sorted: seq<nat>)
    ensures multiset(Insert(rems, x, sorted)) == multiset(sorted) + multiset{x}
    decreases |sorted|
  {
    if sorted != [] {
      assert sorted == [sorted[0]] + sorted[1..];
      if Rem(rems, sorted[0]) >= Rem(rems, x) {
        InsertMultiset(rems, x, sorted[1..]);
      }
    }
  }

  /** The children `0 .. n-1` in the order the stable sort by descending
      remainder leaves them. */
  function Order(rems: seq<nat>, n: nat): (r: seq<nat>)
    ensures |r| == n
  {
    if n == 0 then [] else Insert(rems, n - 1, Order(rems, n - 1))
  }

  /** The order lists each of the children `0 .. n-1` exactly once. */
  lemma {:induction false} OrderCount(rems: seq<nat>, n: nat, i: nat)
    ensures multiset(Order(rems, n))[i] == if i < n then 1 else 0
    decreases n
  {
    if n > 0 {
      OrderStep(rems, n);
      OrderCount(rems, n - 1, i);
      CountAdded(multiset(Order(rems, n)), multiset(Order(rems, n - 1)), n, i);
    }
  }

  /** Adding child `n - 1` to a multiset holding each of `0 .. n-2` once. */
  lemma CountAdded(m: multiset<nat>, m0: multiset<nat>, n: nat, i: nat)
    requires n > 0 && m == m0 + multiset{(n - 1) as nat}
    requires m0[i] == if i < n - 1 then 1 else 0
    ensures m[i] == if i < n then 1 else 0
  {
  }

  /** The order of `n` children is that of the first `n - 1` with the last added. */
  lemma OrderStep(rems: seq<nat>, n: nat)
    requires n > 0
    ensures multiset(Order(rems, n)) == multiset(Order(rems, n - 1)) + multiset{(n - 1) as nat}
  {
    InsertMultiset(rems, n - 1, Order(rems, n - 1));
  }

  lemma OrderMember(rems: seq<nat>, n: nat, i: nat)
    ensures i in Order(rems, n) <==> i < n
  {
    OrderCount(rems, n, i);
    assert i in Order(rems, n) <==> i in multiset(Order(rems, n));
  }

  lemma {:induction false} InsertOrdered(rems: seq<nat>, x: nat, sorted: seq<nat>)
    requires forall k :: 0 <= k < |sorted| ==> sorted[k] < x
    requires Ordered(rems, sorted)
    ensures Ordered(rems, Insert(rems, x, sorted))
    decreases |sorted|
  {
    var r := Insert(rems, x, sorted);
    if sorted != [] {
      if Rem(rems, sorted[0]) >= Rem(rems, x) {
        var tail := Insert(rems, x, sorted[1..]);
        InsertOrdered(rems, x, sorted[1..]);
        InsertMultiset(rems, x, sorted[1..]);
        forall k | 0 <= k < |tail|
          ensures Before(rems, sorted[0], tail[k])
        {
          assert tail[k] in multiset(tail);
          if tail[k] != x {
            assert tail[k] in multiset(sorted[1..]);
            var b :| 0 <= b < |sorted[1..]| && sorted[1..][b] == tail[k];
            assert Before(rems, sorted[0], sorted[b + 1]);
          }
        }
        assert r == [sorted[0]] + tail;
      } else {
        assert r == [x] + sorted;
        forall b | 0 <= b < |sorted|
          ensures Before(rems, x, sorted[b])
        {
          if b > 0 {
            assert Before(rems, sorted[0], sorted[b]);
          }
        }
      }
    }
  }

  lemma {:induction false} OrderOrdered(rems: seq<nat>, n: nat)
    ensures Ordered(rems, Order(rems, n))
    decreases n
  {
    if n > 0 {
      var prev := Order(rems, n - 1);
      OrderOrdered(rems, n - 1);
      forall k | 0 <= k < |prev|
        ensures prev[k] < n - 1
      {
        OrderMember(rems, n - 1, prev[k]);
      }
      InsertOrdered(rems, n - 1, prev);
    }
  }

  /** An ordered sequence holds each child at most once. */
  lemma {:induction false} OrderedOnce(rems: seq<nat>, s: seq<nat>, x: nat)
    requires Ordered(rems, s)
    ensures multiset(s)[x] <= 1
    decreases |s|
  {
    if s != [] {
      var n := |s| - 1;
      assert s == s[..n] + [s[n]];
      assert Ordered(rems, s[..n]);
      OrderedOnce(rems, s[..n], x);
      if s[n] == x {
        assert x !in s[..n] by {
          forall a | 0 <= a < n
            ensures s[a] != x
          {
            assert Before(rems, s[a], s[n]);
          }
        }
      }
    }
  }

  // ---------------------------------------------------------------------
  // Handing out the leftover cookies

  /** `alloc` after `alloc[i] += 1` for each `i` listed in `idxs`: each
      entry grows by the number of times its index is listed. */
  function Bump(alloc: seq<nat>, idxs: seq<nat>): (r: seq<nat>)
    ensures |r| == |alloc|
  {
    seq(|alloc|, i requires 0 <= i < |alloc| => alloc[i] + multiset(idxs)[i])
  }

  /** Listing one more index increments that entry alone. */
  lemma BumpNext(alloc: seq<nat>, idxs: seq<nat>, j: nat)
    requires j < |alloc|
    ensures Bump(alloc, idxs + [j]) == Bump(alloc, idxs)[j := Bump(alloc, idxs)[j] + 1]
  {
    assert multiset(idxs + [j]) == multiset(idxs) + multiset{j};
  }

  /** Every listed index adds one to the total. */
  lemma {:induction false} BumpSum(alloc: seq<nat>, idxs: seq<nat>)
    requires forall k :: 0 <= k < |idxs| ==> idxs[k] < |alloc|
    ensures Sum(Bump(alloc, idxs)) == Sum(alloc) + |idxs|
    decreases |idxs|
  {
    if idxs == [] {
      assert Bump(alloc, idxs) == alloc;
    } else {
      var n := |idxs| - 1;
      BumpSum(alloc, idxs[..n]);
      assert idxs == idxs[..n] + [idxs[n]];
      BumpNext(alloc, idxs[..n], idxs[n]);
      var b := Bump(alloc, idxs[..n]);
      SumUpdate(b, idxs[n], b[idxs[n]] + 1);
    }
  }

  // ---------------------------------------------------------------------
  // The arithmetic behind the division

  lemma Distribute(k: nat, a: nat, b: nat)
    ensures k * (a + b) == k * a + k * b
  {
  }

  lemma MulMonotone(k: nat, a: nat, b: nat)
    requires a <= b
    ensures k * a <= k * b
  {
  }

  /** Division with remainder, entry by entry, summed over the children. */
  lemma {:induction false} FloorsAndRemainders(cookies: nat, hungers: seq<nat>, total: nat)
    requires total > 0
    ensures cookies * Sum(hungers)
      == total * Sum(Floors(cookies, hungers, total)) + Sum(Remainders(cookies, hungers, total))
    decreases |hungers|
  {
    if hungers != [] {
      var n := |hungers| - 1;
      var h := hungers[n];
      var floors := Floors(cookies, hungers, total);
      var rems := Remainders(cookies, hungers, total);
      FloorsAndRemainders(cookies, hungers[..n], total);
      assert floors[..n] == Floors(cookies, hungers[..n], total);
      assert rems[..n] == Remainders(cookies, hungers[..n], total);
      var hs, fs, rs := Sum(hungers[..n]), Sum(floors[..n]), Sum(rems[..n]);
      var q, r := floors[n], rems[n];
      assert cookies * hs == total * fs + rs;
      assert cookies * h == total * q + r;
      assert Sum(hungers) == hs + h;
      assert Sum(floors) == fs + q;
      assert Sum(rems) == rs + r;
      Distribute(cookies, hs, h);
      Distribute(total, fs, q);
    }
  }

  lemma {:induction false} RemaindersBelow(s: seq<nat>, total: nat)
    requires forall k :: 0 <= k < |s| ==> s[k] < total
    ensures Sum(s) + |s| <= |s| * total
    decreases |s|
  {
    if s != [] {
      var n := |s| - 1;
      RemaindersBelow(s[..n], total);
      Distribute(total, n, 1);
      assert |s| * total == n * total + total;
    }
  }

  /** The arithmetic of `FloorsFit`, on the sums alone. */
  lemma LeftoverBelow(cookies: nat, total: nat, floors: nat, rems: nat, n: nat)
    requires total > 0 && n > 0
    requires cookies * total == total * floors + rems
    requires rems + n <= n * total
    ensures floors <= cookies && cookies - floors < n
  {
    if floors > cookies {
      MulMonotone(total, cookies + 1, floors);
      Distribute(total, cookies, 1);
      assert false;
    }
    var leftover := cookies - floors;
    Distribute(total, floors, leftover);
    assert rems == total * leftover;
    if leftover >= n {
      MulMonotone(total, n, leftover);
      assert false;
    }
  }

  /** The floors never add up to more than the cookies, and fewer than one
      cookie per child is left over. */
  lemma FloorsFit(cookies: nat, hungers: seq<nat>)
    requires hungers != [] && Sum(hungers) > 0
    ensures Sum(Floors(cookies, hungers, Sum(hungers))) <= cookies
    ensures cookies - Sum(Floors(cookies, hungers, Sum(hungers))) < |hungers|
  {
    var total := Sum(hungers);
    var rems := Remainders(cookies, hungers, total);
    FloorsAndRemainders(cookies, hungers, total);
    RemaindersBelow(rems, total);
    LeftoverBelow(cookies, total, Sum(Floors(cookies, hungers, total)), Sum(rems), |hungers|);
  }

  // ---------------------------------------------------------------------
  // The division

  /** No division by a zero total hunger happens. */
  predicate Divisible(hungers: seq<nat>)
  {
    hungers == [] || Sum(hungers) > 0
  }

  /** The cookies still unallocated after every child got its floor. */
  function Leftover(cookies: nat, hungers: seq<nat>): nat
    requires Divisible(hungers)
  {
    if hungers == [] then cookies
    else
      FloorsFit(cookies, hungers);
      cookies - Sum(Floors(cookies, hungers, Sum(hungers)))
  }

  lemma LeftoverFacts(cookies: nat, hungers: seq<nat>)
    requires Divisible(hungers)
    ensures Sum(Floors(cookies, hungers, Sum(hungers))) + Leftover(cookies, hungers) == cookies
    ensures hungers != [] ==> Leftover(cookies, hungers) < |hungers|
  {
    if hungers != [] {
      FloorsFit(cookies, hungers);
    }
  }

  /** The children that get one extra cookie, in the order they get it:
      the first `leftover` of the sorted order. */
  function Given(cookies: nat, hungers: seq<nat>): (g: seq<nat>)
    requires Divisible(hungers)
  {
    var order := Order(Remainders(cookies, hungers, Sum(hungers)), |hungers|);
    order[..Min(Leftover(cookies, hungers), |order|)]
  }

  /** Only children that exist are given a cookie. */
  lemma GivenBelow(cookies: nat, hungers: seq<nat>)
    requires Divisible(hungers)
    ensures forall k :: 0 <= k < |Given(cookies, hungers)| ==> Given(cookies, hungers)[k] < |hungers|
  {
    var order := Order(Remainders(cookies, hungers, Sum(hungers)), |hungers|);
    forall k | 0 <= k < |order|
      ensures order[k] < |hungers|
    {
      OrderMember(Remainders(cookies, hungers, Sum(hungers)), |hungers|, order[k]);
    }
  }

  /** The allocation `proportionally_divide(cookies, hungers)` returns, or
      `None` where it divides by a total hunger of zero and panics. */
  function Divide(cookies: nat, hungers: seq<nat>): (r: Option<seq<nat>>)
    ensures r.Some? ==> |r.value| == |hungers|
  {
    if !Divisible(hungers) then None
    else Some(Bump(Floors(cookies, hungers, Sum(hungers)), Given(cookies, hungers)))
  }

  /** The loop of `proportionally_divide`: one more cookie each for the first `leftover` children of `order`. */
  method GiveExtras(floors: seq<nat>, order: seq<nat>, leftover: nat) returns (alloc: seq<nat>)
    requires forall k :: 0 <= k < |order| ==> order[k] < |floors|
    ensures alloc == Bump(floors, order[..Min(leftover, |order|)])
  {
    alloc := floors;
    assert order[..0] == [];
    assert Bump(floors, []) == floors;
    var k := 0;
    while k < |order| && k < leftover
      invariant k <= |order| && k <= leftover
      invariant alloc == Bump(floors, order[..k])
    {
      assert order[..k + 1] == order[..k] + [order[k]];
      BumpNext(floors, order[..k], order[k]);
      alloc := alloc[order[k] := alloc[order[k]] + 1];
      k := k + 1;
    }
  }

  /** `proportionally_divide`: floors first, then one more cookie each for
      the first `leftover` children in the sorted order. */
  method ProportionallyDivide(cookies: nat, hungers: seq<nat>) returns (res: Option<seq<nat>>)
    ensures res == Divide(cookies, hungers)
  {
    var total := Sum(hungers);
    if hungers != [] && total == 0 {
      // `cookies * hunger / total` divides by zero.
      return None;
    }
    var alloc := Floors(cookies, hungers, total);
    var leftover := cookies - Sum(alloc);
    assert leftover == Leftover(cookies, hungers);
    var order := Order(Remainders(cookies, hungers, total), |hungers|);
    forall k | 0 <= k < |order|
      ensures order[k] < |alloc|
    {
      OrderMember(Remainders(cookies, hungers, total), |hungers|, order[k]);
    }
    alloc := GiveExtras(alloc, order, leftover);
    return Some(alloc);
  }

  /** With a positive total hunger every cookie is handed out; with no
      children, none is. */
  lemma DivideSum(cookies: nat, hungers: seq<nat>)
    requires Divisible(hungers)
    ensures Divide(cookies, hungers).Some?
    ensures Sum(Divide(cookies, hungers).value) == if hungers == [] then 0 else cookies
  {
    if hungers == [] {
      assert Divide(cookies, hungers).value == [];
      return;
    }
    GivenBelow(cookies, hungers);
    BumpSum(Floors(cookies, hungers, Sum(hungers)), Given(cookies, hungers));
    LeftoverFacts(cookies, hungers);
    assert |Given(cookies, hungers)| == Leftover(cookies, hungers);
  }

  /** Division by zero is the only failure. */
  lemma DividePanics(cookies: nat, hungers: seq<nat>)
    ensures Divide(cookies, hungers).None? <==> hungers != [] && Sum(hungers) == 0
  {
  }

  /** The children given an extra cookie come in the sorted order, so none
      is given two. */
  lemma GivenOrdered(cookies: nat, hungers: seq<nat>)
    requires Divisible(hungers)
    ensures Ordered(Remainders(cookies, hungers, Sum(hungers)), Given(cookies, hungers))
  {
    OrderOrdered(Remainders(cookies, hungers, Sum(hungers)), |hungers|);
  }

  /** Each child gets the floor of its exact share or one more. */
  lemma DivideFloorOrNext(cookies: nat, hungers: seq<nat>, i: nat)
    requires Divide(cookies, hungers).Some?
    requires i < |hungers|
    ensures |Divide(cookies, hungers).value| == |hungers|
    ensures var r := Divide(cookies, hungers).value;
      var exact := cookies * hungers[i] / Sum(hungers);
      r[i] == exact || r[i] == exact + 1
  {
    GivenOrdered(cookies, hungers);
    OrderedOnce(Remainders(cookies, hungers, Sum(hungers)), Given(cookies, hungers), i);
  }

  /** The extra cookies go to the largest remainders, and among equal
      remainders to the leftmost children: whenever child `i` got one and
      child `j` did not, `i` comes first. */
  lemma DivideLargestRemainders(cookies: nat, hungers: seq<nat>, i: nat, j: nat)
    requires Divide(cookies, hungers).Some?
    requires i < |hungers| && j < |hungers|
    requires Divide(cookies, hungers).value[i] > cookies * hungers[i] / Sum(hungers)
    requires Divide(cookies, hungers).value[j] == cookies * hungers[j] / Sum(hungers)
    ensures Before(Remainders(cookies, hungers, Sum(hungers)), i, j)
  {
    var rems := Remainders(cookies, hungers, Sum(hungers));
    var order := Order(rems, |hungers|);
    var given := Given(cookies, hungers);
    assert given == order[..|given|];
    OrderMember(rems, |hungers|, j);
    OrderOrdered(rems, |hungers|);
    FirstComeFirst(rems, order, |given|, i, j);
  }

  /** In an ordered sequence, whatever is among the first `m` comes before
      whatever is not. */
  lemma FirstComeFirst(rems: seq<nat>, order: seq<nat>, m: nat, i: nat, j: nat)
    requires Ordered(rems, order) && m <= |order|
    requires i in multiset(order[..m]) && j in order && j !in multiset(order[..m])
    ensures Before(rems, i, j)
  {
    var p :| 0 <= p < m && order[..m][p] == i;
    var q :| 0 <= q < |order| && order[q] == j;
    assert q >= m;
    assert Before(rems, order[p], order[q]);
  }
}

module FairDivisionExamples {
  import opened Wrappers
  import opened Sums
  import opened FairDivision

  lemma SumPair(a: nat, b: nat)
    ensures Sum([a, b]) == a + b
  {
    assert [a, b][..1] == [a];
    assert [a][..0] == [];
    assert Sum([a]) == a;
  }

  lemma SumTriple(a: nat, b: nat, c: nat)
    ensures Sum([a, b, c]) == a + b + c
  {
    assert [a, b, c][..2] == [a, b];
    SumPair(a, b);
  }

  /** Two equally hungry children and one cookie: the leftmost gets it. */
  lemma TieGoesLeft()
    ensures Divide(1, [1, 1]) == Some([1, 0])
  {
    SumPair(1, 1);
    assert Floors(1, [1, 1], 2) == [0, 0];
    SumPair(0, 0);
    assert Leftover(1, [1, 1]) == 1;
    assert Remainders(1, [1, 1], 2) == [1, 1];
    assert Order([1, 1], 1) == [0];
    assert Order([1, 1], 2) == [0, 1];
    assert Given(1, [1, 1]) == [0];
    assert Bump([0, 0], [0]) == [1, 0];
  }

  lemma ThreeForTwo()
    ensures Divide(3, [1, 1]) == Some([2, 1])
  {
    SumPair(1, 1);
    assert Floors(3, [1, 1], 2) == [1, 1];
    SumPair(1, 1);
    assert Leftover(3, [1, 1]) == 1;
    assert Remainders(3, [1, 1], 2) == [1, 1];
    assert Order([1, 1], 1) == [0];
    assert Order([1, 1], 2) == [0, 1];
    assert Given(3, [1, 1]) == [0];
    assert Bump([1, 1], [0]) == [2, 1];
  }

  /** A child with no hunger gets nothing. */
  lemma ZeroHunger()
    ensures Divide(5, [2, 0, 1]) == Some([3, 0, 2])
  {
    SumTriple(2, 0, 1);
    assert Floors(5, [2, 0, 1], 3) == [3, 0, 1];
    SumTriple(3, 0, 1);
    assert Leftover(5, [2, 0, 1]) == 1;
    var rems := Remainders(5, [2, 0, 1], 3);
    assert rems == [1, 0, 2];
    assert Order(rems, 1) == [0];
    assert Order(rems, 2) == [0, 1];
    assert Order(rems, 3) == [2, 0, 1];
    assert Given(5, [2, 0, 1]) == [2];
    assert Bump([3, 0, 1], [2]) == [3, 0, 2];
  }

  lemma Sixths()
    ensures Divide(61, [1, 2, 3]) == Some([10, 20, 31])
  {
    SumTriple(1, 2, 3);
    assert Floors(61, [1, 2, 3], 6) == [10, 20, 30];
    SumTriple(10, 20, 30);
    assert Leftover(61, [1, 2, 3]) == 1;
    var rems := Remainders(61, [1, 2, 3], 6);
    assert rems == [1, 2, 3];
    assert Order(rems, 1) == [0];
    assert Order(rems, 2) == [1, 0];
    assert Order(rems, 3) == [2, 1, 0];
    assert Given(61, [1, 2, 3]) == [2];
    assert Bump([10, 20, 30], [2]) == [10, 20, 31];
  }

  lemma SumSix(a: nat, b: nat, c: nat, d: nat, e: nat, f: nat)
    ensures Sum([a, b, c, d, e, f]) == a + b + c + d + e + f
  {
    SumTriple(a, b, c);
    assert [a, b, c, d][..3] == [a, b, c];
    assert Sum([a, b, c, d]) == a + b + c + d;
    assert [a, b, c, d, e][..4] == [a, b, c, d];
    assert Sum([a, b, c, d, e]) == a + b + c + d + e;
    assert [a, b, c, d, e, f][..5] == [a, b, c, d, e];
  }

  /** The largest of the hand-written vectors: three cookies are left over
      after the floors, and go to children 3, 4 and then 0 (child 0 before
      child 2, which has the same remainder). */
  lemma Uneven()
    ensures Divide(34583, [55, 98, 55, 7, 12, 200]) == Some([4455, 7937, 4454, 567, 972, 16198])
  {
    var hungers := [55, 98, 55, 7, 12, 200];
    UnevenShares();
    UnevenOrder();
    var order := Order(Remainders(34583, hungers, Sum(hungers)), |hungers|);
    assert order == [3, 4, 0, 2, 5, 1];
    assert Given(34583, hungers) == order[..3] == [3, 4, 0];
    UnevenBump();
  }

  lemma UnevenBump()
    ensures Bump([4454, 7937, 4454, 566, 971, 16198], [3, 4, 0]) == [4455, 7937, 4454, 567, 972, 16198]
  {
    var m := multiset([3, 4, 0]);
    assert m[0] == 1 && m[1] == 0 && m[2] == 0 && m[3] == 1 && m[4] == 1 && m[5] == 0;
  }

  lemma UnevenShares()
    ensures Sum([55, 98, 55, 7, 12, 200]) == 427
    ensures Floors(34583, [55, 98, 55, 7, 12, 200], 427) == [4454, 7937, 4454, 566, 971, 16198]
    ensures Remainders(34583, [55, 98, 55, 7, 12, 200], 427) == [207, 35, 207, 399, 379, 54]
    ensures Leftover(34583, [55, 98, 55, 7, 12, 200]) == 3
  {
    SumSix(55, 98, 55, 7, 12, 200);
    SumSix(4454, 7937, 4454, 566, 971, 16198);
  }

  /** The sorted order of the remainders 207, 35, 207, 399, 379, 54. */
  lemma UnevenOrder()
    ensures Order([207, 35, 207, 399, 379, 54], 6) == [3, 4, 0, 2, 5, 1]
  {
    var rems := [207, 35, 207, 399, 379, 54];
    assert Order(rems, 1) == [0];
    assert Insert(rems, 1, [0]) == [0] + Insert(rems, 1, []);
    assert Order(rems, 2) == [0, 1];
    assert Insert(rems, 2, [0, 1]) == [0] + Insert(rems, 2, [1]);
    assert Order(rems, 3) == [0, 2, 1];
    assert Order(rems, 4) == [3, 0, 2, 1];
    assert Insert(rems, 4, [3, 0, 2, 1]) == [3] + Insert(rems, 4, [0, 2, 1]);
    assert Order(rems, 5) == [3, 4, 0, 2, 1];
    assert Insert(rems, 5, [3, 4, 0, 2, 1]) == [3, 4, 0, 2] + Insert(rems, 5, [1]) by {
      assert [3, 4, 0, 2, 1][1..] == [4, 0, 2, 1];
      assert [4, 0, 2, 1][1..] == [0, 2, 1];
      assert [0, 2, 1][1..] == [2, 1];
      assert [2, 1][1..] == [1];
    }
  }
}
