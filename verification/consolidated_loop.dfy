/**
 * `DelayedConsolidatedNotation::eval` of the `Fold` generation
 * (src/pretty_printing/consolidated_notation.rs): a loop that rewrites the
 * delayed notation in place until it reaches one of the seven kinds that
 * remain (`CNote`), an error, or a panic.
 *
 * `EvalSpec` is the same walk as a recursive function over single steps
 * (`StepOf`); the method `Eval` is the loop and is proved equal to it.
 */
module ConsolidatedLoop {
  import opened Wrappers
  import opened Outcomes
  import opened FoldDoc

  datatype CNote =
    | CEmpty
    | CNewline(indent: nat)
    | CLiteral(lit: string)
    | CText(text: string)
    | CConcat(left: Delayed, right: Delayed)
    | CChoice(opt1: Delayed, opt2: Delayed)
    | CChild(index: nat, child: Delayed)

  datatype NotationMismatchError =
    | TextNotationOnTextlessDoc
    | IfEmptyTextNotationOnTextlessDoc
    | ChildIndexOutOfBounds(index: nat, len: nat)
    | ChildNotationOnChildlessDoc
    | CountNotationOnChildlessDoc
    | NumChildrenChanged
    | FoldNotationOnChildlessDoc

  /** `PrettyDoc::unwrap_child`: the `i`-th child, or a panic ("child index out of bounds"). */
  function UnwrapChild(d: Doc, i: nat): (r: Outcome<Doc, NotationMismatchError>)
    ensures r.Done? <==> d.contents.Branch? && i < |d.contents.children|
    ensures r.Done? ==> r.value == d.contents.children[i]
    ensures !r.Fail?
  {
    if d.contents.Branch? && i < |d.contents.children| then Done(d.contents.children[i]) else Panic
  }

  datatype Step = Continue(next: Delayed) | Stop(result: Outcome<CNote, NotationMismatchError>)

  /** One pass of the loop body. */
  function StepOf(d: Delayed): Step {
    match d.notation
    case Empty => Stop(Done(CEmpty))
    case Newline => Stop(Done(CNewline(d.indent)))
    case Literal(lit) => Stop(Done(CLiteral(lit)))
    case Text =>
      if d.doc.contents.Branch? then Stop(Fail(TextNotationOnTextlessDoc))
      else Stop(Done(CText(d.doc.contents.text)))
    case Flat(note) => Continue(d.(flat := true, notation := note))
    case Indent(k, note) => Continue(d.(indent := d.indent + k, notation := note))
    case Concat(n1, n2) => Stop(Done(CConcat(d.(notation := n1), d.(notation := n2))))
    case Choice(n1, n2) =>
      if d.flat then Continue(d.(notation := n1))
      else Stop(Done(CChoice(d.(notation := n1), d.(notation := n2))))
    case IfEmptyText(n1, n2) =>
      if d.doc.contents.Branch? then Stop(Fail(IfEmptyTextNotationOnTextlessDoc))
      else if d.doc.contents.text == "" then Continue(d.(notation := n1))
      else Continue(d.(notation := n2))
    case Child(i) =>
      if d.doc.contents.Texty? then Stop(Fail(ChildNotationOnChildlessDoc))
      else
        var n := |d.doc.contents.children|;
        if i >= n then Stop(Fail(ChildIndexOutOfBounds(i, n)))
        else
          // the node is asked for child `n`, not child `i`
          (match UnwrapChild(d.doc, n)
           case Done(child) => Stop(Done(CChild(i, d.(doc := child, notation := child.notation))))
           case _ => Stop(Panic))
    case Count(zero, one, many) =>
      if d.doc.contents.Texty? then Stop(Fail(CountNotationOnChildlessDoc))
      else
        var n := |d.doc.contents.children|;
        if n == 0 then Continue(d.(notation := zero))
        else if n == 1 then Continue(d.(notation := one))
        else Continue(d.(notation := many))
    case Fold(first, join) =>
      if d.doc.contents.Texty? then Stop(Fail(NumChildrenChanged))
      else
        var n := |d.doc.contents.children|;
        if n == 0 then Stop(Fail(FoldNotationOnChildlessDoc))
        else if n == 1 then Continue(d.(notation := first))
        else Continue(d.(notation := join,
                         joinPos := Some(JoinPos(d.doc, d.doc.contents.children[n - 1], n - 1, first, join))))
    case Left =>
      (match d.joinPos
       case None => Stop(Panic)
       case Some(jp) =>
        if jp.index == 1 then Continue(d.(notation := jp.first, joinPos := None))
        else if jp.index == 0 then Stop(Panic)
        else
          (match UnwrapChild(jp.parent, jp.index - 1)
           case Done(prev) => Continue(d.(notation := jp.join, joinPos := Some(jp.(child := prev, index := jp.index - 1))))
           case _ => Stop(Panic)))
    case Right =>
      // the node moves to the child, but the notation stays `Right`
      match d.joinPos
      case None => Stop(Panic)
      case Some(jp) => Continue(d.(doc := jp.child, joinPos := None))
  }

  /**
   * A step that continues moves down the termination order, keeps flatness,
   * never lowers the indentation, and stays in the same node unless it is
   * the `Right` step, after which only a panic can follow.
   */
  lemma ContinueAdvances(d: Delayed)
    requires StepOf(d).Continue?
    ensures var next := StepOf(d).next;
      Precedes(next, d) && (d.flat ==> next.flat) && next.indent >= d.indent &&
      (next.doc == d.doc || (next.notation == Right && next.joinPos.None?))
  {
    var next := StepOf(d).next;
    match d.notation
    case Fold(_, _) =>
      if next.joinPos == d.joinPos {
        SameJoinSmaller(next, d);
      }
    case Left =>
    case Right =>
    case _ =>
      SameJoinSmaller(next, d);
  }

  /**
   * What a final outcome of the walk from `d` guarantees: flat text offers no
   * choice; flatness is never undone and indentation never shrinks; text
   * and every error are true of the node; and no child is ever produced,
   * because the node is always asked for child `n` of `n`.
   */
  ghost predicate Resolves(d: Delayed, r: Outcome<CNote, NotationMismatchError>) {
    (r.Done? && d.flat ==> !r.value.CChoice?) &&
    (r.Done? && (r.value.CConcat? || r.value.CChoice?) ==>
       var a := if r.value.CConcat? then r.value.left else r.value.opt1;
       var b := if r.value.CConcat? then r.value.right else r.value.opt2;
       (d.flat ==> a.flat && b.flat) && a.indent >= d.indent && b.indent >= d.indent &&
       a.doc == d.doc && b.doc == d.doc) &&
    (r.Done? && r.value.CNewline? ==> r.value.indent >= d.indent) &&
    (r.Done? && r.value.CText? ==> d.doc.contents == Texty(r.value.text)) &&
    (r.Done? ==> !r.value.CChild?) &&
    (r.Fail? && r.error in {TextNotationOnTextlessDoc, IfEmptyTextNotationOnTextlessDoc, FoldNotationOnChildlessDoc} ==>
       d.doc.contents.Branch?) &&
    (r.Fail? && r.error == FoldNotationOnChildlessDoc ==> d.doc.contents.children == []) &&
    (r.Fail? && r.error in {ChildNotationOnChildlessDoc, CountNotationOnChildlessDoc, NumChildrenChanged} ==>
       d.doc.contents.Texty?) &&
    (r.Fail? && r.error.ChildIndexOutOfBounds? ==>
       d.doc.contents.Branch? && r.error.len == |d.doc.contents.children| <= r.error.index)
  }

  lemma StopResolves(d: Delayed)
    requires StepOf(d).Stop?
    ensures Resolves(d, StepOf(d).result)
  {
  }

  /** The walk as a recursive function: the specification of `Eval`. */
  function EvalSpec(d: Delayed): (r: Outcome<CNote, NotationMismatchError>)
    decreases JoinBound(d), JoinIndex(d), NSize(d.notation)
    ensures Resolves(d, r)
  {
    match StepOf(d)
    case Stop(r) => StopResolves(d); r
    case Continue(next) =>
      ContinueAdvances(d);
      var r := EvalSpec(next);
      r
  }

  /** After a `Right` step the walk panics on its next pass: the notation is still `Right`. */
  lemma RightThenPanic(d: Delayed)
    requires d.notation == Right && d.joinPos.None?
    ensures EvalSpec(d) == Panic
  {
  }

  /**
   * `Right` never evaluates to the child it names: with no fold position it
   * panics at once, and inside a fold it panics one pass later.
   */
  lemma RightAlwaysPanics(d: Delayed)
    requires d.notation == Right
    ensures EvalSpec(d) == Panic
  {
    if d.joinPos.Some? {
      assert StepOf(d).Continue?;
      RightThenPanic(StepOf(d).next);
    }
  }

  /** A `Child` notation on a node with children either reports a bad index or panics. */
  lemma ChildNeverResolves(d: Delayed, i: nat)
    requires d.notation == Child(i) && d.doc.contents.Branch?
    ensures var n := |d.doc.contents.children|;
      EvalSpec(d) == (if i >= n then Fail(ChildIndexOutOfBounds(i, n)) else Panic)
  {
  }

  /** One unfolding of `EvalSpec`. */
  lemma Unfold(d: Delayed)
    ensures StepOf(d).Stop? ==> EvalSpec(d) == StepOf(d).result
    ensures StepOf(d).Continue? ==> EvalSpec(d) == EvalSpec(StepOf(d).next) && Precedes(StepOf(d).next, d)
  {
    if StepOf(d).Continue? {
      ContinueAdvances(d);
    }
  }

  /** One pass of the body of `eval`'s loop: stop with a result, or go on from the rewritten notation. */
  method Pass(cur: Delayed) returns (s: Step)
    ensures s == StepOf(cur)
  {
    match cur.notation {
      case Empty => return Stop(Done(CEmpty));
      case Newline => return Stop(Done(CNewline(cur.indent)));
      case Literal(lit) => return Stop(Done(CLiteral(lit)));
      case Text =>
        if cur.doc.contents.Branch? {
          return Stop(Fail(TextNotationOnTextlessDoc));
        } else {
          return Stop(Done(CText(cur.doc.contents.text)));
        }
      case Flat(note) =>
        return Continue(cur.(flat := true, notation := note));
      case Indent(k, note) =>
        return Continue(cur.(indent := cur.indent + k, notation := note));
      case Concat(n1, n2) =>
        return Stop(Done(CConcat(cur.(notation := n1), cur.(notation := n2))));
      case Choice(n1, n2) =>
        if cur.flat {
          return Continue(cur.(notation := n1));
        } else {
          return Stop(Done(CChoice(cur.(notation := n1), cur.(notation := n2))));
        }
      case IfEmptyText(n1, n2) =>
        if cur.doc.contents.Branch? {
          return Stop(Fail(IfEmptyTextNotationOnTextlessDoc));
        }
        if cur.doc.contents.text == "" {
          return Continue(cur.(notation := n1));
        } else {
          return Continue(cur.(notation := n2));
        }
      case Child(i) =>
        if cur.doc.contents.Texty? {
          return Stop(Fail(ChildNotationOnChildlessDoc));
        }
        var n := |cur.doc.contents.children|;
        if i >= n {
          return Stop(Fail(ChildIndexOutOfBounds(i, n)));
        }
        var child := UnwrapChild(cur.doc, n);
        match child {
          case Done(c) =>
            return Stop(Done(CChild(i, cur.(doc := c, notation := c.notation))));
          case _ =>
            return Stop(Panic);
        }
      case Count(zero, one, many) =>
        if cur.doc.contents.Texty? {
          return Stop(Fail(CountNotationOnChildlessDoc));
        }
        var n := |cur.doc.contents.children|;
        if n == 0 {
          return Continue(cur.(notation := zero));
        } else if n == 1 {
          return Continue(cur.(notation := one));
        } else {
          return Continue(cur.(notation := many));
        }
      case Fold(first, join) =>
        if cur.doc.contents.Texty? {
          return Stop(Fail(NumChildrenChanged));
        }
        var n := |cur.doc.contents.children|;
        if n == 0 {
          return Stop(Fail(FoldNotationOnChildlessDoc));
        } else if n == 1 {
          return Continue(cur.(notation := first));
        } else {
          return Continue(cur.(notation := join,
                      joinPos := Some(JoinPos(cur.doc, cur.doc.contents.children[n - 1], n - 1, first, join))));
        }
      case Left =>
        match cur.joinPos {
          case None => return Stop(Panic);
          case Some(jp) =>
            if jp.index == 1 {
              return Continue(cur.(notation := jp.first, joinPos := None));
            } else if jp.index == 0 {
              return Stop(Panic);
            } else {
              var prev := UnwrapChild(jp.parent, jp.index - 1);
              match prev {
                case Done(p) =>
                  return Continue(cur.(notation := jp.join, joinPos := Some(jp.(child := p, index := jp.index - 1))));
                case _ =>
                  return Stop(Panic);
              }
            }
        }
      case Right =>
        match cur.joinPos {
          case None => return Stop(Panic);
          case Some(jp) =>
            return Continue(cur.(doc := jp.child, joinPos := None));
        }
    }
  }

  /** `eval`: the loop, proved to compute `EvalSpec`. */
  method Eval(d: Delayed) returns (r: Outcome<CNote, NotationMismatchError>)
    ensures r == EvalSpec(d)
  {
    var cur := d;
    while true
      invariant EvalSpec(cur) == EvalSpec(d)
      decreases JoinBound(cur), JoinIndex(cur), NSize(cur.notation)
    {
      var s := Pass(cur);
      Unfold(cur);
      match s {
        case Stop(result) => return result;
        case Continue(next) => cur := next;
      }
    }
  }
}
