/**
 * `DelayedNotationWalker::force` (src/pretty_printing/notation_walker.rs):
 * the panicking predecessor of the consolidating loop. Every mismatch
 * between notation and document is a panic, and a `Fold` over a single
 * child starts in its `join` at index 0.
 *
 * `ForceSpec` is the walk as a recursive function over single steps; the
 * method `Force` is the loop and is proved equal to it.
 */
module NotationWalker {
  import opened Wrappers
  import opened FoldDoc

  datatype Walker =
    | WEmpty
    | WNewline(indent: nat)
    | WLiteral(lit: string)
    | WText(text: string)
    | WConcat(left: Delayed, right: Delayed)
    | WChoice(opt1: Delayed, opt2: Delayed)
    | WChild(index: nat, child: Delayed)

  datatype Forced = Walked(w: Walker) | Panicked

  datatype Step = Continue(next: Delayed) | Stop(result: Forced)

  /** `PrettyDoc::unwrap_child`: `None` stands for the panic of a missing child. */
  function ChildAt(d: Doc, i: nat): (r: Option<Doc>)
    ensures r.Some? <==> d.contents.Branch? && i < |d.contents.children|
    ensures r.Some? ==> r.value == d.contents.children[i]
  {
    if d.contents.Branch? && i < |d.contents.children| then Some(d.contents.children[i]) else None
  }

  /** One pass of the loop body of `force`. */
  function StepOf(d: Delayed): Step {
    match d.notation
    case Empty => Stop(Walked(WEmpty))
    case Newline => Stop(Walked(WNewline(d.indent)))
    case Literal(lit) => Stop(Walked(WLiteral(lit)))
    case Text =>
      // `unwrap_text` panics on a node with children
      if d.doc.contents.Branch? then Stop(Panicked) else Stop(Walked(WText(d.doc.contents.text)))
    case Flat(note) => Continue(d.(flat := true, notation := note))
    case Indent(k, note) => Continue(d.(indent := d.indent + k, notation := note))
    case Concat(n1, n2) => Stop(Walked(WConcat(d.(notation := n1), d.(notation := n2))))
    case Choice(n1, n2) =>
      if d.flat then Continue(d.(notation := n1))
      else Stop(Walked(WChoice(d.(notation := n1), d.(notation := n2))))
    case IfEmptyText(n1, n2) =>
      if d.doc.contents.Branch? then Stop(Panicked)
      else if d.doc.contents.text == "" then Continue(d.(notation := n1))
      else Continue(d.(notation := n2))
    case Child(i) =>
      if d.doc.contents.Texty? || i >= |d.doc.contents.children| then Stop(Panicked)
      else
        // the node is asked for child `n`, not child `i`
        (match ChildAt(d.doc, |d.doc.contents.children|)
         case Some(child) => Stop(Walked(WChild(i, d.(doc := child, notation := child.notation))))
         case None => Stop(Panicked))
    case Count(zero, one, many) =>
      if d.doc.contents.Texty? then Stop(Panicked)
      else
        var n := |d.doc.contents.children|;
        if n == 0 then Continue(d.(notation := zero))
        else if n == 1 then Continue(d.(notation := one))
        else Continue(d.(notation := many))
    case Fold(first, join) =>
      if d.doc.contents.Texty? then Stop(Panicked)
      else
        var n := |d.doc.contents.children|;
        if n == 0 then Continue(d.(notation := first))
        else Continue(d.(notation := join,
                         joinPos := Some(JoinPos(d.doc, d.doc.contents.children[n - 1], n - 1, first, join))))
    case Left =>
      (match d.joinPos
       case None => Stop(Panicked)
       case Some(jp) =>
        // `index - 1` underflows at index 0
        if jp.index == 0 then Stop(Panicked)
        else if jp.index - 1 == 0 then Continue(d.(notation := jp.first, joinPos := None))
        else
          (match ChildAt(jp.parent, jp.index - 1)
           case Some(prev) => Continue(d.(notation := jp.join, joinPos := Some(jp.(child := prev, index := jp.index - 1))))
           case None => Stop(Panicked)))
    case Right =>
      // the node moves to the child, but the notation stays `Right`
      match d.joinPos
      case None => Stop(Panicked)
      case Some(jp) => Continue(d.(doc := jp.child, joinPos := None))
  }

  /**
   * A step that continues moves down the termination order, keeps flatness,
   * never lowers the indentation, and stays in the same node unless it is
   * the `Right` step.
   */
  lemma ContinueAdvances(d: Delayed)
    requires StepOf(d).Continue?
    ensures var next := StepOf(d).next;
      Precedes(next, d) && (d.flat ==> next.flat) && next.indent >= d.indent &&
      (next.doc == d.doc || (next.notation == Right && next.joinPos.None?))
  {
    var next := StepOf(d).next;
    match d.notation
    case Fold(_, _) =>
      if next.joinPos == d.joinPos {
        SameJoinSmaller(next, d);
      }
    case Left =>
    case Right =>
    case _ =>
      SameJoinSmaller(next, d);
  }

  /**
   * What a walk that does not panic guarantees: flat text offers no choice,
   * flatness and indentation carry into the parts, text is the node's own,
   * and no child is ever produced.
   */
  ghost predicate Resolves(d: Delayed, r: Forced) {
    (r.Walked? && d.flat ==> !r.w.WChoice?) &&
    (r.Walked? && (r.w.WConcat? || r.w.WChoice?) ==>
       var a := if r.w.WConcat? then r.w.left else r.w.opt1;
       var b := if r.w.WConcat? then r.w.right else r.w.opt2;
       (d.flat ==> a.flat && b.flat) && a.indent >= d.indent && b.indent >= d.indent &&
       a.doc == d.doc && b.doc == d.doc) &&
    (r.Walked? && r.w.WNewline? ==> r.w.indent >= d.indent) &&
    (r.Walked? && r.w.WText? ==> d.doc.contents == Texty(r.w.text)) &&
    (r.Walked? ==> !r.w.WChild?)
  }

  lemma StopResolves(d: Delayed)
    requires StepOf(d).Stop?
    ensures Resolves(d, StepOf(d).result)
  {
  }

  /** The walk as a recursive function: the specification of `Force`. */
  function ForceSpec(d: Delayed): (r: Forced)
    decreases JoinBound(d), JoinIndex(d), NSize(d.notation)
    ensures Resolves(d, r)
  {
    match StepOf(d)
    case Stop(r) => StopResolves(d); r
    case Continue(next) =>
      ContinueAdvances(d);
      ForceSpec(next)
  }

  /** A `Fold` over exactly one child whose `join` starts with `Left` panics: index 0 underflows. */
  lemma SingleChildFoldLeftPanics(d: Delayed, first: Notation)
    requires d.notation == Fold(first, Left) && d.doc.contents.Branch? && |d.doc.contents.children| == 1
    ensures ForceSpec(d) == Panicked
  {
    var next := StepOf(d).next;
    assert next.joinPos.Some? && next.joinPos.value.index == 0;
    assert StepOf(next) == Stop(Panicked);
  }

  /** `Right` never forces to the child it names. */
  lemma RightAlwaysPanics(d: Delayed)
    requires d.notation == Right
    ensures ForceSpec(d) == Panicked
  {
    if d.joinPos.Some? {
      var next := StepOf(d).next;
      assert StepOf(next) == Stop(Panicked);
    }
  }

  /** One unfolding of `ForceSpec`. */
  lemma Unfold(d: Delayed)
    ensures StepOf(d).Stop? ==> ForceSpec(d) == StepOf(d).result
    ensures StepOf(d).Continue? ==> ForceSpec(d) == ForceSpec(StepOf(d).next) && Precedes(StepOf(d).next, d)
  {
    if StepOf(d).Continue? {
      ContinueAdvances(d);
    }
  }

  /** One pass of the body of `force`'s loop: stop with a result, or go on from the rewritten walker. */
  method Pass(cur: Delayed) returns (s: Step)
    ensures s == StepOf(cur)
  {
    match cur.notation {
      case Empty => return Stop(Walked(WEmpty));
      case Newline => return Stop(Walked(WNewline(cur.indent)));
      case Literal(lit) => return Stop(Walked(WLiteral(lit)));
      case Text =>
        if cur.doc.contents.Branch? {
          return Stop(Panicked);
        }
        return Stop(Walked(WText(cur.doc.contents.text)));
      case Flat(note) =>
        return Continue(cur.(flat := true, notation := note));
      case Indent(k, note) =>
        return Continue(cur.(indent := cur.indent + k, notation := note));
      case Concat(n1, n2) =>
        return Stop(Walked(WConcat(cur.(notation := n1), cur.(notation := n2))));
      case Choice(n1, n2) =>
        if cur.flat {
          return Continue(cur.(notation := n1));
        } else {
          return Stop(Walked(WChoice(cur.(notation := n1), cur.(notation := n2))));
        }
      case IfEmptyText(n1, n2) =>
        if cur.doc.contents.Branch? {
          return Stop(Panicked);
        }
        if cur.doc.contents.text == "" {
          return Continue(cur.(notation := n1));
        } else {
          return Continue(cur.(notation := n2));
        }
      case Child(i) =>
        if cur.doc.contents.Texty? || i >= |cur.doc.contents.children| {
          return Stop(Panicked);
        }
        var n := |cur.doc.contents.children|;
        match ChildAt(cur.doc, n) {
          case Some(c) => return Stop(Walked(WChild(i, cur.(doc := c, notation := c.notation))));
          case None => return Stop(Panicked);
        }
      case Count(zero, one, many) =>
        if cur.doc.contents.Texty? {
          return Stop(Panicked);
        }
        var n := |cur.doc.contents.children|;
        if n == 0 {
          return Continue(cur.(notation := zero));
        } else if n == 1 {
          return Continue(cur.(notation := one));
        } else {
          return Continue(cur.(notation := many));
        }
      case Fold(first, join) =>
        if cur.doc.contents.Texty? {
          return Stop(Panicked);
        }
        var n := |cur.doc.contents.children|;
        if n == 0 {
          return Continue(cur.(notation := first));
        } else {
          return Continue(cur.(notation := join,
                      joinPos := Some(JoinPos(cur.doc, cur.doc.contents.children[n - 1], n - 1, first, join))));
        }
      case Left =>
        match cur.joinPos {
          case None => return Stop(Panicked);
          case Some(jp) =>
            if jp.index == 0 {
              return Stop(Panicked);
            } else if jp.index - 1 == 0 {
              return Continue(cur.(notation := jp.first, joinPos := None));
            } else {
              match ChildAt(jp.parent, jp.index - 1) {
                case Some(p) =>
                  return Continue(cur.(notation := jp.join, joinPos := Some(jp.(child := p, index := jp.index - 1))));
                case None => return Stop(Panicked);
              }
            }
        }
      case Right =>
        match cur.joinPos {
          case None => return Stop(Panicked);
          case Some(jp) =>
            return Continue(cur.(doc := jp.child, joinPos := None));
        }
    }

  }

  /** `force`: the loop, proved to compute `ForceSpec`. */
  method Force(d: Delayed) returns (r: Forced)
    ensures r == ForceSpec(d)
  {
    var cur := d;
    while true
      invariant ForceSpec(cur) == ForceSpec(d)
      decreases JoinBound(cur), JoinIndex(cur), NSize(cur.notation)
    {
      var s := Pass(cur);
      Unfold(cur);
      match s {
        case Stop(result) => return result;
        case Continue(next) => cur := next;
      }
    }
  }
}
