// Exhaustive generation of test inputs. A generator is asked for numbers
// below given bounds; to enumerate every value of a type it records, on a
// stack, each choice it made and its bound, replays the recorded choices on
// the next round, and between rounds advances the stack like an odometer
// whose positions have different bases. The random generator is not
// modelled. The test's own generator of trees (a node of size n shares n-1
// among any number of children) is modelled too, as the one `make` the
// enumeration runs.

module RandomTesting {
  import opened Wrappers

  /** A recorded choice: the number picked and the bound it was picked below. */
  type Choice = (nat, nat)

  /** Every recorded choice is below its bound. */
  predicate Counting(stack: seq<Choice>)
  {
    forall i :: 0 <= i < |stack| ==> stack[i].0 < stack[i].1
  }

  /** The generator's state between two picks: the stack and the position of the next pick. */
  datatype State = State(stack: seq<Choice>, index: nat)

  /**
   * `pick(max)`: replays the choice recorded at `index` if there is one;
   * otherwise records `(0, max)` and picks 0. Either way `index` moves on by
   * one. `None` where the source panics: `index` past the end of the stack.
   */
  function PickFrom(st: State, max: nat): Option<(nat, State)>
  {
    if st.index < |st.stack| then Some((st.stack[st.index].0, State(st.stack, st.index + 1)))
    else if st.index == |st.stack| then Some((0, State(st.stack + [(0, max)], st.index + 1)))
    else None
  }

  /**
   * A pick never fails while `index` is within the stack, and it keeps
   * `index` within the stack; a fresh pick records exactly one choice.
   */
  lemma PickKeepsIndex(st: State, max: nat)
    requires st.index <= |st.stack|
    ensures PickFrom(st, max).Some?
    ensures var next := PickFrom(st, max).value.1;
      next.index == st.index + 1 && next.index <= |next.stack|
      && |next.stack| == (if st.index < |st.stack| then |st.stack| else |st.stack| + 1)
      && next.stack[..|st.stack|] == st.stack
  {
  }

  /**
   * The picked number is below `max` as long as a replayed choice was
   * recorded with the same bound (which holds when `make` is deterministic),
   * and the stack stays counting.
   */
  lemma PickBelowMax(st: State, max: nat)
    requires st.index <= |st.stack| && Counting(st.stack) && max > 0
    requires st.index < |st.stack| ==> st.stack[st.index].1 == max
    ensures PickFrom(st, max).Some?
    ensures PickFrom(st, max).value.0 < max && Counting(PickFrom(st, max).value.1.stack)
  {
  }

  /**
   * The stack after `advance`: exhausted choices are dropped from the top
   * (a choice is exhausted when the next number would reach its bound) and
   * the topmost remaining one moves to its next number; empty when none is left.
   */
  function Advanced(stack: seq<Choice>): (r: seq<Choice>)
    ensures |r| <= |stack|
  {
    if stack == [] then []
    else
      var top := stack[|stack| - 1];
      if top.0 + 1 < top.1 then stack[..|stack| - 1] + [(top.0 + 1, top.1)]
      else Advanced(stack[..|stack| - 1])
  }

  /** The generator is done after `advance` exactly when no recorded choice had a next number. */
  lemma {:induction false} AdvancedEmptyIff(stack: seq<Choice>)
    ensures Advanced(stack) == [] <==> forall i :: 0 <= i < |stack| ==> stack[i].0 + 1 >= stack[i].1
  {
    if stack != [] {
      var front := stack[..|stack| - 1];
      AdvancedEmptyIff(front);
      assert forall i :: 0 <= i < |front| ==> front[i] == stack[i];
    }
  }

  /** Advancing keeps every choice below its bound. */
  lemma {:induction false} AdvancedCounting(stack: seq<Choice>)
    requires Counting(stack)
    ensures Counting(Advanced(stack))
  {
    if stack != [] {
      var top := stack[|stack| - 1];
      if top.0 + 1 >= top.1 {
        AdvancedCounting(stack[..|stack| - 1]);
      }
    }
  }

  /** The stack read as a number whose digits are the choices, the first the most significant. */
  function Value(stack: seq<Choice>): nat
  {
    if stack == [] then 0
    else Value(stack[..|stack| - 1]) * stack[|stack| - 1].1 + stack[|stack| - 1].0
  }

  /** How many stacks with these bounds there are: the product of the bounds. */
  function Capacity(stack: seq<Choice>): nat
  {
    if stack == [] then 1 else Capacity(stack[..|stack| - 1]) * stack[|stack| - 1].1
  }

  /** `a` followed by the choices of `stack` past `a`'s length, each restarted at 0. */
  function Refill(stack: seq<Choice>, a: seq<Choice>): (r: seq<Choice>)
    requires |a| <= |stack|
    ensures |r| == |stack|
  {
    a + seq(|stack| - |a|, k requires 0 <= k < |stack| - |a| => (0, stack[|a| + k].1))
  }

  /**
   * `advance` adds one to the stack read as a number, the dropped choices
   * counting as restarted at 0 (the next round records them afresh from 0);
   * when every choice was exhausted the count wraps around to 0 after
   * `Capacity` rounds.
   */
  lemma {:induction false} AdvanceAddsOne(stack: seq<Choice>)
    requires Counting(stack)
    ensures var a := Advanced(stack);
      Value(Refill(stack, a)) + (if a == [] then Capacity(stack) else 0) == Value(stack) + 1
  {
    if stack != [] {
      var front := stack[..|stack| - 1];
      var top := stack[|stack| - 1];
      var m := top.1;
      var a := Advanced(stack);
      if top.0 + 1 < m {
        assert Refill(stack, a) == a == front + [(top.0 + 1, m)];
        ValueSnoc(front, (top.0 + 1, m));
      } else {
        assert Counting(front) by {
          forall i | 0 <= i < |front|
            ensures front[i].0 < front[i].1
          {
            assert front[i] == stack[i];
          }
        }
        AdvanceAddsOne(front);
        var r := Refill(stack, a);
        assert stack == front + [top];
        RefillSnoc(front, top, a);
        ValueSnoc(Refill(front, a), (0, m));
        var v := Value(Refill(front, a));
        var c := if a == [] then Capacity(front) else 0;
        assert Value(r) == v * m;
        assert (if a == [] then Capacity(stack) else 0) == c * m;
        Carry(v, c, Value(front), m);
      }
    }
  }

  lemma Carry(v: nat, c: nat, w: nat, m: nat)
    requires v + c == w + 1
    ensures v * m + c * m == w * m + m
  {
    calc {
      v * m + c * m;
      (v + c) * m;
      (w + 1) * m;
    }
  }

  lemma RefillSnoc(front: seq<Choice>, top: Choice, a: seq<Choice>)
    requires |a| <= |front|
    ensures Refill(front + [top], a) == Refill(front, a) + [(0, top.1)]
  {
    var r := Refill(front + [top], a);
    var q := Refill(front, a) + [(0, top.1)];
    forall k | 0 <= k < |r|
      ensures r[k] == q[k]
    {
      if k >= |a| && k < |front| {
        assert (front + [top])[k] == front[k];
      }
    }
  }

  lemma ValueSnoc(front: seq<Choice>, c: Choice)
    ensures Value(front + [c]) == Value(front) * c.1 + c.0
    ensures Capacity(front + [c]) == Capacity(front) * c.1
  {
    assert (front + [c])[..|front|] == front;
  }

  /** The test's tree: a node with any number of children. */
  datatype Shape = Node(children: seq<Shape>)

  /** `cs` put in front of the trees made, when they were made. */
  function Prefix(cs: seq<Shape>, o: Option<(seq<Shape>, State)>): Option<(seq<Shape>, State)>
  {
    match o
    case None => None
    case Some(p) => Some((cs + p.0, p.1))
  }

  lemma PrefixNothing(o: Option<(seq<Shape>, State)>)
    ensures Prefix([], o) == o
  {
    if o.Some? {
      assert [] + o.value.0 == o.value.0;
    }
  }

  lemma PrefixTwice(a: seq<Shape>, b: seq<Shape>, o: Option<(seq<Shape>, State)>)
    ensures Prefix(a, Prefix(b, o)) == Prefix(a + b, o)
  {
    if o.Some? {
      assert a + (b + o.value.0) == (a + b) + o.value.0;
    }
  }

  /**
   * The test's `make(size)`: a tree of `size` nodes, or `None` where the
   * source panics: size 0, or a replayed choice too large for what is left
   * to share (the subtraction would go below zero).
   */
  function MakeTree(size: nat, st: State): Option<(Shape, State)>
    decreases size, 1
  {
    if size == 0 then None
    else match MakeChildren(size - 1, st)
      case None => None
      case Some(p) => Some((Node(p.0), p.1))
  }

  /** The loop of `make`: while `s` is left, picks a child's size below it, plus one, and makes that child. */
  function MakeChildren(s: nat, st: State): Option<(seq<Shape>, State)>
    decreases s, 2
  {
    if s == 0 then Some(([], st))
    else match PickFrom(st, s)
      case None => None
      case Some(picked) =>
        if picked.0 >= s then None
        else match MakeTree(picked.0 + 1, picked.1)
          case None => None
          case Some(p) => Prefix([p.0], MakeChildren(s - (picked.0 + 1), p.1))
  }

  /** What one call of the iterator's `next` gives. */
  datatype Step = Yield(tree: Shape) | Finished | Panicked

  /**
   * `next`: nothing once done; otherwise makes a tree from the recorded
   * choices (starting at index 0), then advances; done when the stack empties.
   */
  function NextStep(size: nat, stack: seq<Choice>, done: bool): (r: (Step, seq<Choice>, bool))
  {
    if done then (Finished, stack, done)
    else match MakeTree(size, State(stack, 0))
      case None => (Panicked, stack, done)
      case Some(p) => (Yield(p.0), Advanced(p.1.stack), Advanced(p.1.stack) == [])
  }

  /**
   * Collecting the iterator: the trees it yields until it is done, `None`
   * if `make` panics or more than `fuel` trees come.
   */
  function Collect(size: nat, stack: seq<Choice>, done: bool, fuel: nat): (r: Option<seq<Shape>>)
    decreases fuel
  {
    var next := NextStep(size, stack, done);
    match next.0
    case Finished => Some([])
    case Panicked => None
    case Yield(t) =>
      if fuel == 0 then None
      else match Collect(size, next.1, next.2, fuel - 1)
        case None => None
        case Some(ts) => Some([t] + ts)
  }

  /** Collecting yields one tree per round, and stops exactly when `next` reports done. */
  lemma CollectSteps(size: nat, stack: seq<Choice>, done: bool, fuel: nat)
    requires Collect(size, stack, done, fuel).Some?
    ensures var next := NextStep(size, stack, done);
      var ts := Collect(size, stack, done, fuel).value;
      (next.0.Finished? <==> ts == [])
      && (next.0.Yield? ==> ts[0] == next.0.tree && Collect(size, next.1, next.2, fuel - 1) == Some(ts[1..]))
  {
  }

  class GenAll {
    var index: nat
    var stack: seq<Choice>
    var done: bool

    ghost predicate Valid()
      reads this
    {
      index <= |stack| && Counting(stack)
    }

    /** Nothing recorded yet, not done. */
    constructor()
      ensures index == 0 && stack == [] && !done && Valid()
    {
      index := 0;
      stack := [];
      done := false;
    }

    /** `pick`, for a positive bound (the generator in front of it rejects 0). */
    method Pick(max: nat) returns (value: nat)
      requires Valid() && max > 0
      modifies this
      ensures PickFrom(State(old(stack), old(index)), max) == Some((value, State(stack, index)))
      ensures done == old(done) && Valid()
    {
      if index < |stack| {
        value := stack[index].0;
        index := index + 1;
      } else {
        stack := stack + [(0, max)];
        index := index + 1;
        value := 0;
      }
    }

    /** `advance`: restarts from index 0, pops exhausted choices and moves the topmost other one on. */
    method Advance()
      requires Valid()
      modifies this
      ensures stack == Advanced(old(stack)) && index == 0
      ensures done == (old(done) || stack == [])
      ensures Valid()
    {
      AdvancedCounting(stack);
      index := 0;
      while stack != []
        invariant Advanced(stack) == Advanced(old(stack)) && index == 0 && done == old(done)
        decreases |stack|
      {
        var top := stack[|stack| - 1];
        stack := stack[..|stack| - 1];
        if top.0 + 1 < top.1 {
          stack := stack + [(top.0 + 1, top.1)];
          return;
        }
      }
      done := true;
    }
  }

  /** The generator's `pick` in front of `GenAll`: a bound of 0 panics (`None`). */
  method Pick(gen: GenAll, max: nat) returns (r: Option<nat>)
    requires gen.Valid()
    modifies gen
    ensures max == 0 ==> r == None && gen.stack == old(gen.stack) && gen.index == old(gen.index)
    ensures max > 0 ==> r.Some? && PickFrom(State(old(gen.stack), old(gen.index)), max) == Some((r.value, State(gen.stack, gen.index)))
    ensures gen.Valid() && gen.done == old(gen.done)
  {
    if max == 0 {
      return None;
    }
    var value := gen.Pick(max);
    r := Some(value);
  }

  /** The test's `make`, drawing its choices from `gen`; `None` where it panics. */
  method Make(size: nat, gen: GenAll) returns (t: Option<Shape>)
    requires gen.Valid()
    modifies gen
    ensures var r := MakeTree(size, State(old(gen.stack), old(gen.index)));
      t == (if r.Some? then Some(r.value.0) else None)
    ensures var r := MakeTree(size, State(old(gen.stack), old(gen.index)));
      r.Some? ==> State(gen.stack, gen.index) == r.value.1
    ensures gen.Valid() && gen.done == old(gen.done)
    decreases size
  {
    if size == 0 {
      return None;
    }
    var s: nat := size - 1;
    var children: seq<Shape> := [];
    PrefixNothing(MakeChildren(s, State(gen.stack, gen.index)));
    while s > 0
      invariant s < size && gen.Valid() && gen.done == old(gen.done)
      invariant MakeChildren(size - 1, State(old(gen.stack), old(gen.index)))
        == Prefix(children, MakeChildren(s, State(gen.stack, gen.index)))
      decreases s
    {
      ghost var before := State(gen.stack, gen.index);
      var v := gen.Pick(s);
      if v >= s {
        return None;
      }
      var child := Make(v + 1, gen);
      if child.None? {
        return None;
      }
      PrefixTwice(children, [child.value], MakeChildren(s - (v + 1), State(gen.stack, gen.index)));
      children := children + [child.value];
      s := s - (v + 1);
    }
    assert Prefix(children, MakeChildren(s, State(gen.stack, gen.index))) == Some((children + [], State(gen.stack, gen.index)));
    assert children + [] == children;
    t := Some(Node(children));
  }

  /** The iterator over every tree of one size. */
  class GenAllIter {
    const size: nat
    const gen: GenAll

    ghost predicate Valid()
      reads this, gen
    {
      gen.Valid() && gen.index == 0
    }

    constructor(size: nat)
      ensures this.size == size && fresh(gen)
      ensures gen.stack == [] && !gen.done && Valid()
    {
      this.size := size;
      gen := new GenAll();
    }

    /** `next`: `Finished` once done; otherwise the next tree, after which the generator advances. */
    method Next() returns (step: Step)
      requires Valid()
      modifies gen
      ensures step == NextStep(size, old(gen.stack), old(gen.done)).0
      ensures !step.Panicked? ==> gen.stack == NextStep(size, old(gen.stack), old(gen.done)).1
      ensures !step.Panicked? ==> gen.done == NextStep(size, old(gen.stack), old(gen.done)).2 && Valid()
    {
      if gen.done {
        return Finished;
      }
      var t := Make(size, gen);
      if t.None? {
        return Panicked;
      }
      gen.Advance();
      step := Yield(t.value);
    }
  }

  /** `all(size).collect()`, giving up with `None` after `fuel` trees or when `make` panics. */
  method CollectAll(size: nat, fuel: nat) returns (items: Option<seq<Shape>>)
    ensures items == Collect(size, [], false, fuel)
  {
    var iter := new GenAllIter(size);
    var trees: seq<Shape> := [];
    var left: nat := fuel;
    if Collect(size, [], false, fuel).Some? {
      assert trees + Collect(size, [], false, fuel).value == Collect(size, [], false, fuel).value;
    }
    while true
      invariant iter.Valid() && left <= fuel
      invariant Collect(size, [], false, fuel) == (match Collect(size, iter.gen.stack, iter.gen.done, left)
        case None => None
        case Some(ts) => Some(trees + ts))
      decreases left
    {
      ghost var was := (iter.gen.stack, iter.gen.done);
      var step := iter.Next();
      match step
      case Finished =>
        assert trees + [] == trees;
        return Some(trees);
      case Panicked =>
        return None;
      case Yield(t) =>
        if left == 0 {
          return None;
        }
        assert Collect(size, was.0, was.1, left) == (match Collect(size, iter.gen.stack, iter.gen.done, left - 1)
          case None => None
          case Some(ts) => Some([t] + ts));
        if Collect(size, iter.gen.stack, iter.gen.done, left - 1).Some? {
          var ts := Collect(size, iter.gen.stack, iter.gen.done, left - 1).value;
          assert trees + ([t] + ts) == (trees + [t]) + ts;
        }
        trees := trees + [t];
        left := left - 1;
    }
  }
}

module RandomTestingExamples {
  import opened Wrappers
  import opened RandomTesting

  // One step of each function on the generator's state, for the rounds below.

  lemma PickStep(st: State, max: nat, v: nat, st1: State)
    requires st.index <= |st.stack|
    requires st.index < |st.stack| ==> v == st.stack[st.index].0 && st1 == State(st.stack, st.index + 1)
    requires st.index == |st.stack| ==> v == 0 && st1 == State(st.stack + [(0, max)], st.index + 1)
    ensures PickFrom(st, max) == Some((v, st1))
  {
  }

  lemma ChildrenZero(st: State)
    ensures MakeChildren(0, st) == Some(([], st))
  {
  }

  lemma TreeStep(size: nat, st: State, children: seq<Shape>, st2: State)
    requires size > 0
    requires MakeChildren(size - 1, st) == Some((children, st2))
    ensures MakeTree(size, st) == Some((Node(children), st2))
  {
  }

  lemma ChildrenStep(s: nat, st: State, v: nat, st1: State, t: Shape, st2: State, rest: seq<Shape>, st3: State, ts: seq<Shape>)
    requires s > 0 && v < s && ts == [t] + rest
    requires PickFrom(st, s) == Some((v, st1))
    requires MakeTree(v + 1, st1) == Some((t, st2))
    requires MakeChildren(s - (v + 1), st2) == Some((rest, st3))
    ensures MakeChildren(s, st) == Some((ts, st3))
  {
  }

  lemma AdvancedBump(front: seq<Choice>, top: Choice, r: seq<Choice>)
    requires top.0 + 1 < top.1 && r == front + [(top.0 + 1, top.1)]
    ensures Advanced(front + [top]) == r
  {
    assert (front + [top])[..|front|] == front;
  }

  lemma AdvancedPop(front: seq<Choice>, top: Choice)
    requires top.0 + 1 >= top.1
    ensures Advanced(front + [top]) == Advanced(front)
  {
    assert (front + [top])[..|front|] == front;
  }

  /** The first run builds the tree whose root has two leaf children, recording picks 0 of 2 and 0 of 1. */
  lemma Made1()
    ensures MakeTree(3, State([], 0)) == Some((Node([Node([]), Node([])]), State([(0, 2), (0, 1)], 2)))
  {
    PickStep(State([], 0), 2, 0, State([(0, 2)], 1));
    ChildrenZero(State([(0, 2)], 1));
    TreeStep(1, State([(0, 2)], 1), [], State([(0, 2)], 1));
    PickStep(State([(0, 2)], 1), 1, 0, State([(0, 2), (0, 1)], 2));
    ChildrenZero(State([(0, 2), (0, 1)], 2));
    TreeStep(1, State([(0, 2), (0, 1)], 2), [], State([(0, 2), (0, 1)], 2));
    ChildrenStep(1, State([(0, 2)], 1), 0, State([(0, 2), (0, 1)], 2), Node([]), State([(0, 2), (0, 1)], 2), [], State([(0, 2), (0, 1)], 2), [Node([])]);
    ChildrenStep(2, State([], 0), 0, State([(0, 2)], 1), Node([]), State([(0, 2)], 1), [Node([])], State([(0, 2), (0, 1)], 2), [Node([]), Node([])]);
    TreeStep(3, State([], 0), [Node([]), Node([])], State([(0, 2), (0, 1)], 2));
  }

  /** The first run yields that tree; advancing pops the exhausted pick and bumps the first to 1 of 2. */
  lemma Round1()
    ensures NextStep(3, [], false) == (Yield(Node([Node([]), Node([])])), [(1, 2)], false)
  {
    Made1();
    AdvancedBump([], (0, 2), [(1, 2)]);
    AdvancedPop([(0, 2)], (0, 1));
  }

  /** The second run replays pick 1 of 2 and builds the three-node chain. */
  lemma Made2()
    ensures MakeTree(3, State([(1, 2)], 0)) == Some((Node([Node([Node([])])]), State([(1, 2), (0, 1)], 2)))
  {
    PickStep(State([(1, 2)], 0), 2, 1, State([(1, 2)], 1));
    PickStep(State([(1, 2)], 1), 1, 0, State([(1, 2), (0, 1)], 2));
    ChildrenZero(State([(1, 2), (0, 1)], 2));
    TreeStep(1, State([(1, 2), (0, 1)], 2), [], State([(1, 2), (0, 1)], 2));
    ChildrenStep(1, State([(1, 2)], 1), 0, State([(1, 2), (0, 1)], 2), Node([]), State([(1, 2), (0, 1)], 2), [], State([(1, 2), (0, 1)], 2), [Node([])]);
    TreeStep(2, State([(1, 2)], 1), [Node([])], State([(1, 2), (0, 1)], 2));
    ChildrenStep(2, State([(1, 2)], 0), 1, State([(1, 2)], 1), Node([Node([])]), State([(1, 2), (0, 1)], 2), [], State([(1, 2), (0, 1)], 2), [Node([Node([])])]);
    TreeStep(3, State([(1, 2)], 0), [Node([Node([])])], State([(1, 2), (0, 1)], 2));
  }

  /** The second run yields the chain; every pick is exhausted, so the generator is done. */
  lemma Round2()
    ensures NextStep(3, [(1, 2)], false) == (Yield(Node([Node([Node([])])])), [], true)
  {
    Made2();
    assert Advanced([]) == [];
    AdvancedPop([], (1, 2));
    AdvancedPop([(1, 2)], (0, 1));
  }

  /** Exactly the two trees with three nodes come out, each once, in the order of the picks. */
  lemma TreesOfSizeThree()
    ensures Collect(3, [], false, 2) == Some([Node([Node([]), Node([])]), Node([Node([Node([])])])])
  {
    assert Collect(3, [], true, 0) == Some([]);
    Round2();
    assert [Node([Node([Node([])])])] + [] == [Node([Node([Node([])])])];
    assert Collect(3, [(1, 2)], false, 1) == Some([Node([Node([Node([])])])]);
    Round1();
    assert [Node([Node([]), Node([])])] + [Node([Node([Node([])])])] == [Node([Node([]), Node([])]), Node([Node([Node([])])])];
    assert Collect(3, [], false, 2) == Some([Node([Node([]), Node([])]), Node([Node([Node([])])])]);
  }
}
