/**
 * A reference into the notation of a document node, advanced past every
 * construct that does not print by itself (`Flat`, `Indent`, `IfEmptyText`,
 * `Repeat` and its `Surrounded`/`Right` steps), so that what is left is a
 * literal, a newline, text, a concatenation, a choice or a child.
 * Panics are `None`, and so is the one way the source's loop never ends
 * (`Loops`).
 */
module NotationRef {
  import opened Wrappers
  import opened RepeatNotation

  /** Where in a `Repeat` the reference is: its `surround`, or its `join` between children `i` and `i + 1`. */
  datatype RepeatPos = NoRepeat | InSurround(repeat: RepeatInner) | InJoin(repeat: RepeatInner, index: nat)

  datatype NotationRef = NotationRef(doc: Doc, flat: bool, indent: nat, notation: Notation, pos: RepeatPos)

  /** What a reference stands for, its sub-notations already resolved to references. */
  datatype NotationCase =
    | CLiteral(lit: string)
    | CNewline
    | CText(text: string)
    | CConcat(left: NotationRef, right: NotationRef)
    | CChoice(opt1: NotationRef, opt2: NotationRef)
    | CChild(index: nat, child: NotationRef)

  /** The text of a texty node; `None` (a panic) for a node with children. */
  function UnwrapText(d: Doc): (r: Option<string>)
    ensures r.Some? <==> d.contents.Texty?
    ensures r.Some? ==> r.value == d.contents.text
  {
    if d.contents.Texty? then Some(d.contents.text) else None
  }

  /** Child `i` of a node; `None` (a panic) when there is none. */
  function UnwrapChild(d: Doc, i: nat): (r: Option<Doc>)
    ensures r.Some? <==> d.contents.Branch? && i < |d.contents.children|
    ensures r.Some? ==> r.value == d.contents.children[i]
  {
    if d.contents.Branch? && i < |d.contents.children| then Some(d.contents.children[i]) else None
  }

  /** The size bound that makes the walk finite: inside a `Repeat`, the notation is no bigger than it. */
  predicate Fits(r: NotationRef) {
    r.pos.NoRepeat? || NSize(r.notation) <= RSize(r.pos.repeat)
  }

  /** The number of children, 0 for a texty node. */
  function Arity(d: Doc): (k: nat)
    ensures d.contents.Branch? ==> k == |d.contents.children|
  {
    NumChildren(d).GetOr(0)
  }

  function Stage(r: NotationRef): nat {
    match r.pos
    case NoRepeat => 0
    case InSurround(_) => Arity(r.doc) + 1
    case InJoin(_, i) => if i <= Arity(r.doc) then Arity(r.doc) - i else 0
  }

  function Outer(r: NotationRef): nat {
    if r.pos.NoRepeat? then NSize(r.notation) else RSize(r.pos.repeat)
  }

  /** 0 once the walk has passed the top of a join, 1 before. */
  function Lap(fromTop: bool): nat {
    if fromTop then 0 else 1
  }

  /** `(a, fa)` comes before `(b, fb)` in the order the walk descends. */
  predicate Precedes(a: NotationRef, fa: bool, b: NotationRef, fb: bool) {
    Outer(a) < Outer(b) ||
    (Outer(a) == Outer(b) && Lap(fa) < Lap(fb)) ||
    (Outer(a) == Outer(b) && Lap(fa) == Lap(fb) && Stage(a) < Stage(b)) ||
    (Outer(a) == Outer(b) && Lap(fa) == Lap(fb) && Stage(a) == Stage(b) && NSize(a.notation) < NSize(b.notation))
  }

  /**
   * A reference the walk stops at: one that prints by itself, a `Left` in a
   * join, or a `Right` in the last join (the one before the last child).
   */
  predicate Settled(r: NotationRef) {
    match r.notation
    case Empty => true
    case Literal(_) => true
    case Newline => true
    case Text => true
    case Concat(_, _) => true
    case Choice(_, _) => true
    case Child(_) => true
    case Left => r.pos.InJoin?
    case Right => r.pos.InJoin? && r.doc.contents.Branch? && r.pos.index + 2 == |r.doc.contents.children|
    case _ => false
  }

  /** A `Right` in a join that is not before the last child: `i + 2 > k`, so it never meets the last join. */
  predicate PastLastJoin(r: NotationRef) {
    r.notation.Right? && r.pos.InJoin? && r.doc.contents.Branch? && r.pos.index + 2 > |r.doc.contents.children|
  }

  /** The passes that move to the top of a join: `Surrounded` and `Right`. */
  predicate EntersJoin(r: NotationRef) {
    r.notation.Surrounded? || r.notation.Right?
  }

  /**
   * Where a pass panics: a nested `Repeat` (the `assert!`), a marker out of
   * its place (`unreachable!`), or an `unwrap` of the children of a texty
   * node or of the text of a node with children.
   */
  predicate PassPanics(r: NotationRef, parent: RepeatPos) {
    match r.notation
    case Repeat(_) => !parent.NoRepeat? || r.doc.contents.Texty?
    case Surrounded => !r.pos.InSurround?
    case Left => !r.pos.InJoin?
    case Right => !r.pos.InJoin? || r.doc.contents.Texty?
    case IfEmptyText(_, _) => r.doc.contents.Branch?
    case _ => false
  }

  datatype Step = Continue(next: NotationRef) | Stop(result: Option<NotationRef>)

  /**
   * One pass of the loop in `from_parts`. `parent` is the position the walk
   * started from: a `Repeat` is refused unless that was outside any repeat.
   */
  function StepOf(r: NotationRef, parent: RepeatPos): Step {
    match r.notation
    case Repeat(rep) =>
      if !parent.NoRepeat? then Stop(None)
      else if r.doc.contents.Texty? then Stop(None)
      else
        var k := |r.doc.contents.children|;
        var next := if k == 0 then rep.empty else if k == 1 then rep.lone else rep.surround;
        Continue(r.(notation := next, pos := InSurround(rep)))
    case Surrounded =>
      if r.pos.InSurround? then Continue(r.(notation := r.pos.repeat.join, pos := InJoin(r.pos.repeat, 0)))
      else Stop(None)
    case Left =>
      if r.pos.InJoin? then Stop(Some(r)) else Stop(None)
    case Right =>
      if !r.pos.InJoin? || r.doc.contents.Texty? then Stop(None)
      else if r.pos.index + 2 == |r.doc.contents.children| then Stop(Some(r))
      else Continue(r.(notation := r.pos.repeat.join, pos := InJoin(r.pos.repeat, r.pos.index + 1)))
    case IfEmptyText(a, b) =>
      if r.doc.contents.Branch? then Stop(None)
      else if r.doc.contents.text == "" then Continue(r.(notation := a))
      else Continue(r.(notation := b))
    case Flat(b) => Continue(r.(flat := true, notation := b))
    case Indent(k, b) => Continue(r.(indent := r.indent + k, notation := b))
    case _ => Stop(Some(r))
  }

  /**
   * A pass that goes on, other than a `Right` past the last join met after
   * the top of a join, moves down the order, keeps the bound, the node,
   * flatness and never lowers the indentation.
   */
  lemma ContinueAdvances(r: NotationRef, parent: RepeatPos, fromTop: bool)
    requires Fits(r) && StepOf(r, parent).Continue? && !(fromTop && PastLastJoin(r))
    ensures var next := StepOf(r, parent).next;
      Fits(next) && Precedes(next, fromTop || EntersJoin(r), r, fromTop) && next.doc == r.doc &&
      (r.flat ==> next.flat) && next.indent >= r.indent
  {
    if r.notation.Repeat? || EntersJoin(r) {
      RepeatStepAdvances(r, parent, fromTop);
    } else {
      assert NSize(StepOf(r, parent).next.notation) < NSize(r.notation);
    }
  }

  lemma RepeatStepAdvances(r: NotationRef, parent: RepeatPos, fromTop: bool)
    requires Fits(r) && StepOf(r, parent).Continue? && !(fromTop && PastLastJoin(r))
    requires r.notation.Repeat? || EntersJoin(r)
    ensures var next := StepOf(r, parent).next;
      Fits(next) && Precedes(next, fromTop || EntersJoin(r), r, fromTop) &&
      next.doc == r.doc && next.flat == r.flat && next.indent == r.indent
  {
    var next := StepOf(r, parent).next;
    if r.notation.Repeat? {
      assert Outer(next) == RSize(r.notation.repeat) < Outer(r);
    } else if PastLastJoin(r) {
      assert Outer(next) == Outer(r) && Lap(true) < Lap(fromTop);
    } else {
      assert Outer(next) == Outer(r) && Stage(next) < Stage(r);
    }
  }

  /**
   * A pass stops with the reference unchanged exactly when it is settled,
   * and with a panic exactly where the source panics.
   */
  lemma StopSettles(r: NotationRef, parent: RepeatPos)
    ensures StepOf(r, parent) == Stop(None) <==> PassPanics(r, parent)
    ensures StepOf(r, parent) == Stop(Some(r)) <==> Settled(r)
    ensures StepOf(r, parent).Stop? ==> StepOf(r, parent).result.None? || StepOf(r, parent).result == Some(r)
  {
  }

  /** What the walk from `r` guarantees about a reference it returns. */
  predicate Resolves(r: NotationRef, res: Option<NotationRef>) {
    res.Some? ==>
      Settled(res.value) && Fits(res.value) && res.value.doc == r.doc &&
      (r.flat ==> res.value.flat) && res.value.indent >= r.indent
  }

  /**
   * The walk meets a `Right` past the last join after it has passed the top
   * of a join; from there the loop of `from_parts` never ends (`NeverEnds`).
   */
  predicate Loops(r: NotationRef, parent: RepeatPos, fromTop: bool)
    requires Fits(r)
    decreases Outer(r), Lap(fromTop), Stage(r), NSize(r.notation)
  {
    if fromTop && PastLastJoin(r) then true
    else
      match StepOf(r, parent)
      case Stop(_) => false
      case Continue(next) =>
        ContinueAdvances(r, parent, fromTop);
        Loops(next, parent, fromTop || EntersJoin(r))
  }

  /**
   * The loop of `from_parts` as a recursive function, from `r`; `fromTop`
   * once the walk has passed the top of a join. Where it `Loops`, the
   * result is `None` (`WalkFromLoops`).
   */
  function WalkFrom(r: NotationRef, parent: RepeatPos, fromTop: bool): (res: Option<NotationRef>)
    requires Fits(r)
    decreases Outer(r), Lap(fromTop), Stage(r), NSize(r.notation)
    ensures Resolves(r, res)
  {
    if fromTop && PastLastJoin(r) then None
    else
      match StepOf(r, parent)
      case Stop(res) => StopSettles(r, parent); res
      case Continue(next) =>
        ContinueAdvances(r, parent, fromTop);
        WalkFrom(next, parent, fromTop || EntersJoin(r))
  }

  /** The specification of `FromParts`: the walk from a fresh reference. */
  function Walk(r: NotationRef, parent: RepeatPos): (res: Option<NotationRef>)
    requires Fits(r)
    ensures Resolves(r, res)
  {
    WalkFrom(r, parent, false)
  }

  /** Where the walk loops, it returns no reference. */
  lemma {:induction false} WalkFromLoops(r: NotationRef, parent: RepeatPos, fromTop: bool)
    requires Fits(r) && Loops(r, parent, fromTop)
    ensures WalkFrom(r, parent, fromTop) == None
    decreases Outer(r), Lap(fromTop), Stage(r), NSize(r.notation)
  {
    if !(fromTop && PastLastJoin(r)) {
      ContinueAdvances(r, parent, fromTop);
      WalkFromLoops(StepOf(r, parent).next, parent, fromTop || EntersJoin(r));
    }
  }

  /** `n` passes of the loop body from `r`, or fewer when one of them stops the loop. */
  function Run(r: NotationRef, parent: RepeatPos, n: nat): Step
    decreases n
  {
    if n == 0 then Continue(r)
    else
      match StepOf(r, parent)
      case Stop(res) => Stop(res)
      case Continue(next) => Run(next, parent, n - 1)
  }

  /** How many passes the loop makes from `r` before it stops. */
  function Passes(r: NotationRef, parent: RepeatPos, fromTop: bool): nat
    requires Fits(r)
    decreases Outer(r), Lap(fromTop), Stage(r), NSize(r.notation)
  {
    if fromTop && PastLastJoin(r) then 0
    else
      match StepOf(r, parent)
      case Stop(_) => 1
      case Continue(next) =>
        ContinueAdvances(r, parent, fromTop);
        1 + Passes(next, parent, fromTop || EntersJoin(r))
  }

  /** Unless the walk loops, the loop of `from_parts` stops, and with the walk's result. */
  lemma {:induction false} RunReachesWalk(r: NotationRef, parent: RepeatPos, fromTop: bool)
    requires Fits(r) && !Loops(r, parent, fromTop)
    ensures Run(r, parent, Passes(r, parent, fromTop)) == Stop(WalkFrom(r, parent, fromTop))
    decreases Outer(r), Lap(fromTop), Stage(r), NSize(r.notation)
  {
    match StepOf(r, parent)
    case Stop(_) =>
    case Continue(next) =>
      ContinueAdvances(r, parent, fromTop);
      RunReachesWalk(next, parent, fromTop || EntersJoin(r));
  }

  /**
   * Two references the loop treats alike: the same node and notation, and
   * the same position or joins of the same repeat, both past the last join.
   */
  predicate Alike(a: NotationRef, b: NotationRef) {
    a.doc == b.doc && a.notation == b.notation &&
    (a.pos == b.pos ||
     (a.pos.InJoin? && b.pos.InJoin? && a.pos.repeat == b.pos.repeat && a.doc.contents.Branch? &&
      a.pos.index + 2 > |a.doc.contents.children| && b.pos.index + 2 > |b.doc.contents.children|))
  }

  /** Alike references take alike passes. */
  lemma AlikeStep(a: NotationRef, b: NotationRef, parent: RepeatPos)
    requires Alike(a, b)
    ensures (Fits(a) <==> Fits(b)) && (PastLastJoin(a) <==> PastLastJoin(b)) && (EntersJoin(a) <==> EntersJoin(b))
    ensures StepOf(a, parent).Stop? <==> StepOf(b, parent).Stop?
    ensures StepOf(a, parent).Continue? ==> Alike(StepOf(a, parent).next, StepOf(b, parent).next)
  {
    if a.pos == b.pos {
      AlikeStepSamePos(a, b, parent);
    } else {
      AlikeStepPast(a, b, parent);
    }
  }

  /** References that differ only in flatness and indentation take alike passes. */
  lemma AlikeStepSamePos(a: NotationRef, b: NotationRef, parent: RepeatPos)
    requires a.doc == b.doc && a.notation == b.notation && a.pos == b.pos
    ensures StepOf(a, parent).Stop? <==> StepOf(b, parent).Stop?
    ensures StepOf(a, parent).Continue? ==>
      var (x, y) := (StepOf(a, parent).next, StepOf(b, parent).next);
      x.doc == y.doc && x.notation == y.notation && x.pos == y.pos
  {
  }

  /** References in joins of the same repeat, both past the last join, take alike passes. */
  lemma AlikeStepPast(a: NotationRef, b: NotationRef, parent: RepeatPos)
    requires Alike(a, b) && a.pos != b.pos
    ensures StepOf(a, parent).Stop? <==> StepOf(b, parent).Stop?
    ensures StepOf(a, parent).Continue? ==> Alike(StepOf(a, parent).next, StepOf(b, parent).next)
  {
    if a.notation.Right? {
      assert StepOf(a, parent).next.pos == InJoin(a.pos.repeat, a.pos.index + 1);
      assert StepOf(b, parent).next.pos == InJoin(a.pos.repeat, b.pos.index + 1);
    }
  }

  /** Alike references loop alike. */
  lemma {:induction false} AlikeLoops(a: NotationRef, b: NotationRef, parent: RepeatPos, fromTop: bool)
    requires Fits(a) && Alike(a, b)
    ensures Fits(b) && (Loops(a, parent, fromTop) <==> Loops(b, parent, fromTop))
    decreases Outer(a), Lap(fromTop), Stage(a), NSize(a.notation)
  {
    AlikeStep(a, b, parent);
    if !(fromTop && PastLastJoin(a)) && StepOf(a, parent).Continue? {
      ContinueAdvances(a, parent, fromTop);
      ContinueAdvances(b, parent, fromTop);
      AlikeLoops(StepOf(a, parent).next, StepOf(b, parent).next, parent, fromTop || EntersJoin(a));
    }
  }

  /** The top of the join `r` is in, unflattened and unindented. */
  function JoinTop(r: NotationRef): (t: NotationRef)
    requires r.pos.InJoin?
    ensures Fits(t) && t.pos == r.pos && t.doc == r.doc
  {
    NotationRef(r.doc, false, 0, r.pos.repeat.join, r.pos)
  }

  /** Once past the top of a join, the walk from that top loops too. */
  predicate LoopsFromTop(r: NotationRef, parent: RepeatPos, fromTop: bool) {
    fromTop && r.pos.InJoin? ==> Loops(JoinTop(r), parent, true)
  }

  /** At a `Right` past the last join, after the top of its join: the next pass is that top again, and it loops. */
  lemma LoopAtPast(r: NotationRef, parent: RepeatPos)
    requires Fits(r) && PastLastJoin(r) && LoopsFromTop(r, parent, true)
    ensures StepOf(r, parent).Continue?
    ensures var next := StepOf(r, parent).next;
      Fits(next) && Loops(next, parent, true) && LoopsFromTop(next, parent, true)
  {
    var next := StepOf(r, parent).next;
    AlikeLoops(JoinTop(r), next, parent, true);
    AlikeLoops(next, JoinTop(next), parent, true);
  }

  /** Elsewhere on a walk that loops, the pass goes on, and the walk from there loops. */
  lemma LoopGoesOn(r: NotationRef, parent: RepeatPos, fromTop: bool)
    requires Fits(r) && Loops(r, parent, fromTop) && LoopsFromTop(r, parent, fromTop)
    requires !(fromTop && PastLastJoin(r))
    ensures StepOf(r, parent).Continue?
    ensures var next := StepOf(r, parent).next;
      Fits(next) && Loops(next, parent, fromTop || EntersJoin(r)) && LoopsFromTop(next, parent, fromTop || EntersJoin(r))
  {
    LoopsUnfold(r, parent, fromTop);
    if EntersJoin(r) {
      LoopEntersJoin(r, parent, fromTop);
    } else {
      LoopStaysInJoin(r, parent, fromTop);
    }
  }

  /** A walk that loops and is not at its end goes on to a walk that loops. */
  lemma LoopsUnfold(r: NotationRef, parent: RepeatPos, fromTop: bool)
    requires Fits(r) && Loops(r, parent, fromTop) && !(fromTop && PastLastJoin(r))
    ensures StepOf(r, parent).Continue?
    ensures Fits(StepOf(r, parent).next) && Loops(StepOf(r, parent).next, parent, fromTop || EntersJoin(r))
  {
    ContinueAdvances(r, parent, fromTop);
  }

  /** A pass to the top of a join: that top is where the walk is, so the walk from it loops. */
  lemma LoopEntersJoin(r: NotationRef, parent: RepeatPos, fromTop: bool)
    requires StepOf(r, parent).Continue? && EntersJoin(r)
    requires Fits(StepOf(r, parent).next) && Loops(StepOf(r, parent).next, parent, true)
    ensures LoopsFromTop(StepOf(r, parent).next, parent, true)
  {
    var next := StepOf(r, parent).next;
    AlikeLoops(next, JoinTop(next), parent, true);
  }

  /** Any other pass keeps the position or leaves every join, so the top of the join stays the same. */
  lemma LoopStaysInJoin(r: NotationRef, parent: RepeatPos, fromTop: bool)
    requires StepOf(r, parent).Continue? && !EntersJoin(r) && LoopsFromTop(r, parent, fromTop)
    ensures LoopsFromTop(StepOf(r, parent).next, parent, fromTop)
  {
    var next := StepOf(r, parent).next;
    if next.pos.InJoin? {
      assert next.pos == r.pos && next.doc == r.doc;
      assert JoinTop(next) == JoinTop(r);
    }
  }

  /** Where the walk loops, every number of passes of the source's loop leaves it running. */
  lemma {:induction false} LoopRunsForever(r: NotationRef, parent: RepeatPos, fromTop: bool, n: nat)
    requires Fits(r) && Loops(r, parent, fromTop) && LoopsFromTop(r, parent, fromTop)
    ensures Run(r, parent, n).Continue?
    decreases n
  {
    if n > 0 {
      if fromTop && PastLastJoin(r) {
        LoopAtPast(r, parent);
        LoopRunsForever(StepOf(r, parent).next, parent, true, n - 1);
      } else {
        LoopGoesOn(r, parent, fromTop);
        LoopRunsForever(StepOf(r, parent).next, parent, fromTop || EntersJoin(r), n - 1);
      }
    }
  }

  /**
   * `from_parts` either stops after finitely many passes with the walk's
   * result, or, where the walk loops, never stops.
   */
  lemma NeverEnds(r: NotationRef, parent: RepeatPos, n: nat)
    requires Fits(r)
    ensures Loops(r, parent, false) ==> Run(r, parent, n).Continue?
    ensures !Loops(r, parent, false) ==> Run(r, parent, Passes(r, parent, false)) == Stop(Walk(r, parent))
  {
    if Loops(r, parent, false) {
      LoopRunsForever(r, parent, false, n);
    } else {
      RunReachesWalk(r, parent, false);
    }
  }

  /**
   * A one-child node whose `lone` is `Surrounded` and whose `join` is just
   * `Right`: every `Right` is past the last join and leads back to it, so
   * `from_parts` never stops; the model's reference is `None`.
   */
  lemma LoneSurroundedLoops(child: Doc, id: nat, n: nat)
    ensures var rep := RepeatInner(Empty, Surrounded, Right, Surrounded);
      var doc := Doc(id, Repeat(rep), Branch([child]));
      var start := NotationRef(doc, false, 0, Repeat(rep), NoRepeat);
      Loops(start, NoRepeat, false) && Run(start, NoRepeat, n).Continue? && New(doc) == None
  {
    var rep := RepeatInner(Empty, Surrounded, Right, Surrounded);
    var doc := Doc(id, Repeat(rep), Branch([child]));
    var start := NotationRef(doc, false, 0, Repeat(rep), NoRepeat);
    var lone := start.(notation := Surrounded, pos := InSurround(rep));
    var right := start.(notation := Right, pos := InJoin(rep, 0));
    assert StepOf(start, NoRepeat) == Continue(lone);
    assert StepOf(lone, NoRepeat) == Continue(right);
    assert Loops(right, NoRepeat, true);
    assert Loops(lone, NoRepeat, false);
    NeverEnds(start, NoRepeat, n);
    WalkFromLoops(start, NoRepeat, false);
  }

  /**
   * With one child, `Right` in the join `"," Right` is past the last join:
   * it moves on to the join after it rather than panicking.
   */
  lemma RightPastLastJoinMovesOn(child: Doc, id: nat)
    ensures var rep := RepeatInner(Empty, Surrounded, Concat(Literal(","), Right), Surrounded);
      var doc := Doc(id, Repeat(rep), Branch([child]));
      var r := NotationRef(doc, false, 0, rep.join, InJoin(rep, 0));
      Subnotation(r, Right) == Some(r.(pos := InJoin(rep, 1)))
  {
    var rep := RepeatInner(Empty, Surrounded, Concat(Literal(","), Right), Surrounded);
    var doc := Doc(id, Repeat(rep), Branch([child]));
    var r := NotationRef(doc, false, 0, rep.join, InJoin(rep, 0));
    var right := r.(notation := Right);
    Unfold(right, r.pos, false);
    Unfold(r.(pos := InJoin(rep, 1)), r.pos, true);
  }

  /** A reference that is settled already is its own walk. */
  lemma SettledIsFixed(r: NotationRef, parent: RepeatPos)
    requires Fits(r) && Settled(r)
    ensures Walk(r, parent) == Some(r)
  {
  }

  /** The reference `from_parts` builds, as a function. */
  function FromPartsSpec(flat: bool, indent: nat, doc: Doc, notation: Notation, parent: RepeatPos): (res: Option<NotationRef>)
    requires Fits(NotationRef(doc, flat, indent, notation, parent))
    ensures Resolves(NotationRef(doc, flat, indent, notation, parent), res)
  {
    Walk(NotationRef(doc, flat, indent, notation, parent), parent)
  }

  /** One unfolding of the walk. */
  lemma Unfold(r: NotationRef, parent: RepeatPos, fromTop: bool)
    requires Fits(r)
    ensures fromTop && PastLastJoin(r) ==> WalkFrom(r, parent, fromTop) == None
    ensures !(fromTop && PastLastJoin(r)) && StepOf(r, parent).Stop? ==>
      WalkFrom(r, parent, fromTop) == StepOf(r, parent).result
    ensures !(fromTop && PastLastJoin(r)) && StepOf(r, parent).Continue? ==>
      Fits(StepOf(r, parent).next) && Precedes(StepOf(r, parent).next, fromTop || EntersJoin(r), r, fromTop) &&
      WalkFrom(r, parent, fromTop) == WalkFrom(StepOf(r, parent).next, parent, fromTop || EntersJoin(r))
  {
    if !(fromTop && PastLastJoin(r)) && StepOf(r, parent).Continue? {
      ContinueAdvances(r, parent, fromTop);
    }
  }

  /** One pass of the loop body, updating the reference in place or stopping. */
  method Pass(r: NotationRef, parent: RepeatPos) returns (s: Step)
    ensures s == StepOf(r, parent)
  {
    match r.notation {
      case Repeat(rep) =>
        if !parent.NoRepeat? {
          return Stop(None);  // nested repeats are refused
        }
        if r.doc.contents.Texty? {
          return Stop(None);
        }
        var k := |r.doc.contents.children|;
        var next := rep.surround;
        if k == 0 {
          next := rep.empty;
        } else if k == 1 {
          next := rep.lone;
        }
        return Continue(r.(notation := next, pos := InSurround(rep)));
      case Surrounded =>
        if r.pos.InSurround? {
          return Continue(r.(notation := r.pos.repeat.join, pos := InJoin(r.pos.repeat, 0)));
        }
        return Stop(None);
      case Left =>
        if r.pos.InJoin? {
          return Stop(Some(r));
        }
        return Stop(None);
      case Right =>
        if !r.pos.InJoin? || r.doc.contents.Texty? {
          return Stop(None);
        }
        if r.pos.index + 2 == |r.doc.contents.children| {
          return Stop(Some(r));
        }
        return Continue(r.(notation := r.pos.repeat.join, pos := InJoin(r.pos.repeat, r.pos.index + 1)));
      case IfEmptyText(a, b) =>
        if r.doc.contents.Branch? {
          return Stop(None);
        }
        if r.doc.contents.text == "" {
          return Continue(r.(notation := a));
        }
        return Continue(r.(notation := b));
      case Flat(b) =>
        return Continue(r.(flat := true, notation := b));
      case Indent(k, b) =>
        return Continue(r.(indent := r.indent + k, notation := b));
      case _ =>
        return Stop(Some(r));
    }
  }

  /**
   * `from_parts`: advance a fresh reference until it settles. Where the
   * source's loop would never end (`Loops`), the method stops with `None`.
   */
  method FromParts(flat: bool, indent: nat, doc: Doc, notation: Notation, parent: RepeatPos)
    returns (res: Option<NotationRef>)
    requires Fits(NotationRef(doc, flat, indent, notation, parent))
    ensures res == FromPartsSpec(flat, indent, doc, notation, parent)
  {
    var cur := NotationRef(doc, flat, indent, notation, parent);
    var fromTop := false;
    while true
      invariant Fits(cur) && WalkFrom(cur, parent, fromTop) == FromPartsSpec(flat, indent, doc, notation, parent)
      decreases Outer(cur), Lap(fromTop), Stage(cur), NSize(cur.notation)
    {
      if fromTop && PastLastJoin(cur) {
        return None;
      }
      var s := Pass(cur, parent);
      Unfold(cur, parent, fromTop);
      match s {
        case Stop(result) => return result;
        case Continue(next) =>
          fromTop := fromTop || EntersJoin(cur);
          cur := next;
      }
    }
  }

  /** The reference to a whole node: unflattened, unindented, outside any repeat. */
  function New(doc: Doc): (res: Option<NotationRef>)
    ensures res.Some? ==> Settled(res.value) && res.value.doc == doc
  {
    FromPartsSpec(false, 0, doc, doc.notation, NoRepeat)
  }

  /** The stand-in newline placed before the start of a document. */
  function FakeStartOfDocNewline(r: NotationRef): (res: NotationRef)
    ensures Settled(res) && Fits(res) && res.doc == r.doc && res.notation == Newline
    ensures !res.flat && res.indent == 0
  {
    NotationRef(r.doc, false, 0, Newline, NoRepeat)
  }

  /** A sub-notation of `r`'s notation, in the same node and repeat position. */
  function Subnotation(r: NotationRef, n: Notation): (res: Option<NotationRef>)
    requires r.pos.NoRepeat? || NSize(n) <= RSize(r.pos.repeat)
    ensures res.Some? ==> Settled(res.value) && res.value.doc == r.doc && (r.flat ==> res.value.flat)
  {
    FromPartsSpec(r.flat, r.indent, r.doc, n, r.pos)
  }

  /** Child `i` of `r`'s node with its own notation, keeping flatness and indentation. */
  function ChildRef(r: NotationRef, i: nat): (res: Option<NotationRef>)
    ensures res.Some? ==> r.doc.contents.Branch? && i < |r.doc.contents.children|
    ensures res.Some? ==> Settled(res.value) && Fits(res.value) && res.value.doc == r.doc.contents.children[i]
    ensures res.Some? ==> (r.flat ==> res.value.flat) && res.value.indent >= r.indent
  {
    match UnwrapChild(r.doc, i)
    case None => None
    case Some(child) => FromPartsSpec(r.flat, r.indent, child, child.notation, NoRepeat)
  }

  /**
   * What a settled reference stands for. `Left` in the join between
   * children `i` and `i + 1` stands for child `i`, and `Right` for child
   * `i + 1`. `None` is a panic: text on a node with children, a missing
   * child, or a sub-notation whose own walk panics.
   */
  function Case(r: NotationRef): (res: Option<NotationCase>)
    requires Settled(r) && Fits(r)
    ensures res.Some? && res.value.CText? ==> r.doc.contents == Texty(res.value.text)
    ensures res.Some? && res.value.CChild? ==>
      r.doc.contents.Branch? && res.value.index < |r.doc.contents.children| &&
      res.value.child.doc == r.doc.contents.children[res.value.index]
    ensures res.Some? && res.value.CChild? && r.notation.Left? ==> res.value.index == r.pos.index
    ensures res.Some? && res.value.CChild? && r.notation.Right? ==> res.value.index == r.pos.index + 1
    ensures res.Some? && (res.value.CConcat? || res.value.CChoice?) ==>
      var (a, b) := if res.value.CConcat? then (res.value.left, res.value.right) else (res.value.opt1, res.value.opt2);
      a.doc == r.doc && b.doc == r.doc && Settled(a) && Settled(b) && Fits(a) && Fits(b)
    ensures res.Some? && res.value.CChild? ==> Settled(res.value.child) && Fits(res.value.child)
  {
    match r.notation
    case Empty => Some(CLiteral(""))
    case Literal(lit) => Some(CLiteral(lit))
    case Newline => Some(CNewline)
    case Text =>
      (match UnwrapText(r.doc)
       case None => None
       case Some(t) => Some(CText(t)))
    case Concat(a, b) =>
      (match (Subnotation(r, a), Subnotation(r, b))
       case (Some(x), Some(y)) => Some(CConcat(x, y))
       case _ => None)
    case Choice(a, b) =>
      (match (Subnotation(r, a), Subnotation(r, b))
       case (Some(x), Some(y)) => Some(CChoice(x, y))
       case _ => None)
    case Child(i) => ChildCase(r, i)
    case Left => ChildCase(r, r.pos.index)
    case Right => ChildCase(r, r.pos.index + 1)
  }

  function ChildCase(r: NotationRef, i: nat): (res: Option<NotationCase>)
    ensures res.Some? ==> res.value.CChild? && res.value.index == i
    ensures res.Some? ==> Settled(res.value.child) && Fits(res.value.child)
    ensures res.Some? ==> (r.doc.contents.Branch? && i < |r.doc.contents.children| &&
                           res.value.child.doc == r.doc.contents.children[i])
  {
    match ChildRef(r, i)
    case None => None
    case Some(c) => Some(CChild(i, c))
  }

  // ----- Which children a `Repeat` visits -----

  /**
   * The children met, in order, when reading the reference's first option
   * of every choice, without entering the children; `None` when a panic
   * is met or `fuel` runs out.
   */
  function Visits(r: NotationRef, fuel: nat): (res: Option<seq<nat>>)
    requires Settled(r) && Fits(r)
    decreases fuel
  {
    if fuel == 0 then None
    else
      match Case(r)
      case None => None
      case Some(c) =>
        match c
        case CLiteral(_) => Some([])
        case CNewline => Some([])
        case CText(_) => Some([])
        case CChild(i, _) => Some([i])
        case CChoice(a, _) => Visits(a, fuel - 1)
        case CConcat(a, b) =>
          (match (Visits(a, fuel - 1), Visits(b, fuel - 1))
           case (Some(x), Some(y)) => Some(x + y)
           case _ => None)
  }

  /** The indices `lo`, `lo + 1`, ..., `hi - 1`. */
  function Range(lo: nat, hi: nat): (s: seq<nat>)
    requires lo <= hi
    decreases hi - lo
  {
    if lo == hi then [] else [lo] + Range(lo + 1, hi)
  }

  /** A separated list: nothing, the lone child, or the children joined by `sep`. */
  function SeparatedBy(sep: string): (rep: RepeatInner)
    ensures rep.join == Concat(Left, Concat(Literal(sep), Right))
  {
    RepeatInner(Empty, Child(0), Concat(Left, Concat(Literal(sep), Right)), Surrounded)
  }

  /** Every child of the node has a reference of its own (no child's walk panics). */
  predicate ChildrenResolve(doc: Doc) {
    doc.contents.Branch? && forall c :: c in doc.contents.children ==> New(c).Some?
  }

  /** In an unflattened, unindented reference, child `i` is met as itself. */
  lemma {:induction false} ChildVisit(r: NotationRef, i: nat, fuel: nat)
    requires Settled(r) && Fits(r) && ChildrenResolve(r.doc) && !r.flat && r.indent == 0
    requires i < |r.doc.contents.children| && fuel >= 1
    requires r.notation == Child(i) || (r.notation == Left && r.pos.InJoin? && r.pos.index == i)
             || (r.notation == Right && r.pos.InJoin? && r.pos.index + 1 == i)
    ensures Visits(r, fuel) == Some([i])
  {
    assert r.doc.contents.children[i] in r.doc.contents.children;
    assert ChildRef(r, i) == New(r.doc.contents.children[i]);
  }

  /** The join `Left sep Right` between children `i` and `i + 1`, as a reference. */
  function JoinAt(doc: Doc, sep: string, i: nat): (r: NotationRef)
    ensures Settled(r) && Fits(r) && r.notation.Concat?
  {
    NotationRef(doc, false, 0, SeparatedBy(sep).join, InJoin(SeparatedBy(sep), i))
  }

  /** What `Right` in the join between `i` and `i + 1` resolves to: itself at the last join, else the next join. */
  lemma {:induction false} RightStep(doc: Doc, sep: string, i: nat)
    requires doc.contents.Branch? && i + 2 <= |doc.contents.children|
    ensures var right := JoinAt(doc, sep, i).(notation := Right);
      Subnotation(JoinAt(doc, sep, i), Right) ==
        if i + 2 == |doc.contents.children| then Some(right) else Some(JoinAt(doc, sep, i + 1))
  {
    var right := JoinAt(doc, sep, i).(notation := Right);
    if i + 2 < |doc.contents.children| {
      Unfold(right, right.pos, false);
      assert StepOf(right, right.pos).next == JoinAt(doc, sep, i + 1);
    }
  }

  /** `Visits` of a concatenation joins what its two sides visit. */
  lemma {:induction false} VisitsConcat(r: NotationRef, fuel: nat, a: NotationRef, b: NotationRef, x: seq<nat>, y: seq<nat>)
    requires Settled(r) && Fits(r) && fuel >= 1 && Case(r) == Some(CConcat(a, b))
    requires Visits(a, fuel - 1) == Some(x) && Visits(b, fuel - 1) == Some(y)
    ensures Visits(r, fuel) == Some(x + y)
  {
  }

  /** At the last join, the separator and `Right` resolve to a literal and the last child's stand-in. */
  lemma {:induction false} LastTailCase(doc: Doc, sep: string, i: nat)
    requires doc.contents.Branch? && i + 2 == |doc.contents.children|
    ensures var tail := JoinAt(doc, sep, i).(notation := Concat(Literal(sep), Right));
      Settled(tail) && Fits(tail) &&
      Case(tail) == Some(CConcat(tail.(notation := Literal(sep)), tail.(notation := Right)))
  {
    var r := JoinAt(doc, sep, i);
    var tail := r.(notation := Concat(Literal(sep), Right));
    assert Subnotation(tail, Literal(sep)) == Some(tail.(notation := Literal(sep)));
    RightStep(doc, sep, i);
  }

  /** Before the last join, the separator and `Right` resolve to a literal and the next join. */
  lemma {:induction false} MoreTailCase(doc: Doc, sep: string, i: nat)
    requires doc.contents.Branch? && i + 2 < |doc.contents.children|
    ensures var tail := JoinAt(doc, sep, i).(notation := Concat(Literal(sep), Right));
      Settled(tail) && Fits(tail) &&
      Case(tail) == Some(CConcat(tail.(notation := Literal(sep)), JoinAt(doc, sep, i + 1)))
  {
    var r := JoinAt(doc, sep, i);
    var tail := r.(notation := Concat(Literal(sep), Right));
    assert Subnotation(tail, Literal(sep)) == Some(tail.(notation := Literal(sep)));
    RightStep(doc, sep, i);
  }

  /** The separator and what follows it: the last child, or the rest of the joins. */
  lemma {:induction false} TailVisits(doc: Doc, sep: string, i: nat, fuel: nat)
    requires ChildrenResolve(doc) && i + 2 <= |doc.contents.children|
    requires fuel >= 2 * (|doc.contents.children| - i) - 1
    ensures var tail := JoinAt(doc, sep, i).(notation := Concat(Literal(sep), Right));
      Settled(tail) && Fits(tail) && Visits(tail, fuel) == Some(Range(i + 1, |doc.contents.children|))
    decreases |doc.contents.children| - i, 0
  {
    if i + 2 == |doc.contents.children| {
      LastTailVisits(doc, sep, i, fuel);
    } else {
      JoinVisits(doc, sep, i + 1, fuel - 1);
      MoreTailVisits(doc, sep, i, fuel);
    }
  }

  lemma {:induction false} LastTailVisits(doc: Doc, sep: string, i: nat, fuel: nat)
    requires ChildrenResolve(doc) && i + 2 == |doc.contents.children| && fuel >= 3
    ensures var tail := JoinAt(doc, sep, i).(notation := Concat(Literal(sep), Right));
      Settled(tail) && Fits(tail) && Visits(tail, fuel) == Some(Range(i + 1, |doc.contents.children|))
  {
    var tail := JoinAt(doc, sep, i).(notation := Concat(Literal(sep), Right));
    var lit := tail.(notation := Literal(sep));
    assert Visits(lit, fuel - 1) == Some([]);
    LastTailCase(doc, sep, i);
    ChildVisit(tail.(notation := Right), i + 1, fuel - 1);
    VisitsConcat(tail, fuel, lit, tail.(notation := Right), [], [i + 1]);
    assert [] + [i + 1] == [i + 1] == [i + 1] + [];
    assert Range(i + 1, i + 2) == [i + 1] + Range(i + 2, i + 2);
  }

  lemma {:induction false} MoreTailVisits(doc: Doc, sep: string, i: nat, fuel: nat)
    requires doc.contents.Branch? && i + 2 < |doc.contents.children| && fuel >= 1
    requires Visits(JoinAt(doc, sep, i + 1), fuel - 1) == Some(Range(i + 1, |doc.contents.children|))
    ensures var tail := JoinAt(doc, sep, i).(notation := Concat(Literal(sep), Right));
      Settled(tail) && Fits(tail) && Visits(tail, fuel) == Some(Range(i + 1, |doc.contents.children|))
  {
    var tail := JoinAt(doc, sep, i).(notation := Concat(Literal(sep), Right));
    var lit := tail.(notation := Literal(sep));
    assert Visits(lit, fuel - 1) == Some([]);
    MoreTailCase(doc, sep, i);
    VisitsConcat(tail, fuel, lit, JoinAt(doc, sep, i + 1), [], Range(i + 1, |doc.contents.children|));
    assert [] + Range(i + 1, |doc.contents.children|) == Range(i + 1, |doc.contents.children|);
  }

  /** A join is the concatenation of its left child and the rest: the separator, then its right child. */
  lemma {:induction false} JoinCase(doc: Doc, sep: string, i: nat)
    ensures var r := JoinAt(doc, sep, i);
      Case(r) == Some(CConcat(r.(notation := Left), r.(notation := Concat(Literal(sep), Right))))
  {
    var r := JoinAt(doc, sep, i);
    assert Subnotation(r, Left) == Some(r.(notation := Left));
    assert Subnotation(r, Concat(Literal(sep), Right)) == Some(r.(notation := Concat(Literal(sep), Right)));
  }

  /** From the join between children `i` and `i + 1`, the children from `i` on are met in order. */
  lemma {:induction false} JoinVisits(doc: Doc, sep: string, i: nat, fuel: nat)
    requires ChildrenResolve(doc) && i + 2 <= |doc.contents.children|
    requires fuel >= 2 * (|doc.contents.children| - i)
    ensures Visits(JoinAt(doc, sep, i), fuel) == Some(Range(i, |doc.contents.children|))
    decreases |doc.contents.children| - i, 1
  {
    TailVisits(doc, sep, i, fuel - 1);
    JoinVisitsStep(doc, sep, i, fuel);
  }

  /** A join meets child `i`, then what the separator and `Right` meet. */
  lemma {:induction false} JoinVisitsStep(doc: Doc, sep: string, i: nat, fuel: nat)
    requires ChildrenResolve(doc) && i + 2 <= |doc.contents.children| && fuel >= 2
    requires var tail := JoinAt(doc, sep, i).(notation := Concat(Literal(sep), Right));
      Settled(tail) && Fits(tail) && Visits(tail, fuel - 1) == Some(Range(i + 1, |doc.contents.children|))
    ensures Visits(JoinAt(doc, sep, i), fuel) == Some(Range(i, |doc.contents.children|))
  {
    var r := JoinAt(doc, sep, i);
    JoinCase(doc, sep, i);
    JoinLeftVisit(doc, sep, i, fuel - 1);
    VisitsCons(r, fuel, r.(notation := Left), r.(notation := Concat(Literal(sep), Right)), i, |doc.contents.children|);
  }

  /** A concatenation that meets `i` and then `i + 1 .. k` meets `i .. k`. */
  lemma {:induction false} VisitsCons(r: NotationRef, fuel: nat, a: NotationRef, b: NotationRef, i: nat, k: nat)
    requires Settled(r) && Fits(r) && fuel >= 1 && Case(r) == Some(CConcat(a, b)) && i < k
    requires Visits(a, fuel - 1) == Some([i]) && Visits(b, fuel - 1) == Some(Range(i + 1, k))
    ensures Visits(r, fuel) == Some(Range(i, k))
  {
    VisitsConcat(r, fuel, a, b, [i], Range(i + 1, k));
  }

  /** `Left` in the join between children `i` and `i + 1` meets child `i`. */
  lemma {:induction false} JoinLeftVisit(doc: Doc, sep: string, i: nat, fuel: nat)
    requires ChildrenResolve(doc) && i + 2 <= |doc.contents.children| && fuel >= 1
    ensures var left := JoinAt(doc, sep, i).(notation := Left);
      Settled(left) && Fits(left) && Visits(left, fuel) == Some([i])
  {
    ChildVisit(JoinAt(doc, sep, i).(notation := Left), i, fuel);
  }

  /** Where the walk of a separated list stops: `empty`, `lone`, or the first join. */
  lemma {:induction false} NewSeparated(doc: Doc, sep: string)
    requires doc.contents.Branch? && doc.notation == Repeat(SeparatedBy(sep))
    ensures var k := |doc.contents.children|;
      var start := NotationRef(doc, false, 0, Empty, InSurround(SeparatedBy(sep)));
      New(doc) == Some(if k == 0 then start else if k == 1 then start.(notation := Child(0)) else JoinAt(doc, sep, 0))
  {
    var rep := SeparatedBy(sep);
    var start := NotationRef(doc, false, 0, Repeat(rep), NoRepeat);
    Unfold(start, NoRepeat, false);
    var s := StepOf(start, NoRepeat).next;
    Unfold(s, NoRepeat, false);
    if |doc.contents.children| >= 2 {
      Unfold(StepOf(s, NoRepeat).next, NoRepeat, true);
    }
  }

  /**
   * A node whose notation is a separated list meets each of its children
   * exactly once, in order: none for no children, the lone child for one.
   */
  lemma {:induction false} RepeatVisitsEachChild(doc: Doc, sep: string)
    requires ChildrenResolve(doc) && doc.notation == Repeat(SeparatedBy(sep))
    ensures New(doc).Some?
    ensures Visits(New(doc).value, 2 * |doc.contents.children| + 1) == Some(Range(0, |doc.contents.children|))
  {
    var k := |doc.contents.children|;
    if k == 0 {
      EmptyVisit(doc, sep);
    } else if k == 1 {
      LoneVisit(doc, sep);
    } else {
      ManyVisit(doc, sep);
    }
  }

  /** No children: the walk starts at `empty`, which meets none. */
  lemma {:induction false} EmptyVisit(doc: Doc, sep: string)
    requires ChildrenResolve(doc) && doc.notation == Repeat(SeparatedBy(sep)) && |doc.contents.children| == 0
    ensures New(doc).Some?
    ensures Visits(New(doc).value, 2 * |doc.contents.children| + 1) == Some(Range(0, |doc.contents.children|))
  {
    NewSeparated(doc, sep);
  }

  /** One child: the walk starts at `lone`, which meets it. */
  lemma {:induction false} LoneVisit(doc: Doc, sep: string)
    requires ChildrenResolve(doc) && doc.notation == Repeat(SeparatedBy(sep)) && |doc.contents.children| == 1
    ensures New(doc).Some?
    ensures Visits(New(doc).value, 2 * |doc.contents.children| + 1) == Some(Range(0, |doc.contents.children|))
  {
    NewSeparated(doc, sep);
    var first: nat := 0;
    ChildVisit(NotationRef(doc, false, 0, Child(first), InSurround(SeparatedBy(sep))), first, 3);
    assert Range(first, 1) == [first] + Range(1, 1) == [first];
  }

  /** Two children or more: the walk starts at the first join, from which all are met. */
  lemma {:induction false} ManyVisit(doc: Doc, sep: string)
    requires ChildrenResolve(doc) && doc.notation == Repeat(SeparatedBy(sep)) && |doc.contents.children| >= 2
    ensures New(doc).Some?
    ensures Visits(New(doc).value, 2 * |doc.contents.children| + 1) == Some(Range(0, |doc.contents.children|))
  {
    NewSeparated(doc, sep);
    var first: nat := 0;
    JoinVisits(doc, sep, first, 2 * |doc.contents.children| + 1);
  }
}
