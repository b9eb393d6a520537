/**
 * The consolidating walk over the notation tree (`DelayedConsolidatedNotation::eval`).
 *
 * A `Delayed` pairs a notation with the document node it came from and the
 * context accumulated on the way down (flatness, the indentation chain, the
 * position inside a `Fold`). `Eval` resolves every kind of notation that can
 * be decided locally (Flat, Indent, Style, Check, Count, Fold, Left, Right, and
 * Choice under Flat) and stops at the eight kinds that remain (`CNote`).
 * Styles are not modelled: a `Style` notation is kept only as a wrapper.
 * A document is a total tree, so its accessors never fail and the source's
 * `PrettyDoc` error has no case in `PrintingError`.
 */
module Consolidated {
  import opened Wrappers
  import opened Outcomes

  /** A condition a document node can be asked about; its meaning belongs to the document. */
  type Cond = nat

  datatype CheckPos = Here | ChildAt(i: int) | LeftChild | RightChild

  datatype Notation =
    | Empty
    | EndOfLine
    | Newline
    | Literal(lit: string)
    | Text
    | Flat(body: Notation)
    | Indent(prefix: string, body: Notation)
    | Concat(left: Notation, right: Notation)
    | Choice(opt1: Notation, opt2: Notation)
    | Check(cond: Cond, pos: CheckPos, then_: Notation, else_: Notation)
    | Child(index: int)
    | Style(body: Notation)
    | FocusMark
    | Count(zero: Notation, one: Notation, many: Notation)
    | Fold(first: Notation, join: Notation)
    | Left
    | Right

  /** The number of notation constructors in `n`; every notation has size at least 1. */
  function NSize(n: Notation): (s: nat)
    ensures s >= 1
  {
    match n
    case Flat(b) => 1 + NSize(b)
    case Indent(_, b) => 1 + NSize(b)
    case Concat(a, b) => 1 + NSize(a) + NSize(b)
    case Choice(a, b) => 1 + NSize(a) + NSize(b)
    case Check(_, _, a, b) => 1 + NSize(a) + NSize(b)
    case Style(b) => 1 + NSize(b)
    case Count(a, b, c) => 1 + NSize(a) + NSize(b) + NSize(c)
    case Fold(a, b) => 1 + NSize(a) + NSize(b)
    case _ => 1
  }

  /** A document node: its notation, its contents and the conditions that hold of it. */
  datatype Doc = Doc(id: nat, notation: Notation, contents: Contents, conds: set<Cond>)
  datatype Contents = Texty(text: string) | Branch(children: seq<Doc>)

  function NumChildren(d: Doc): (r: Option<nat>)
    ensures r.Some? <==> d.contents.Branch?
    ensures r.Some? ==> r.value == |d.contents.children|
  {
    if d.contents.Branch? then Some(|d.contents.children|) else None
  }

  /** Indexing a child; a node without that child makes the document panic. */
  function UnwrapChild(d: Doc, i: int): (r: Outcome<Doc, PrintingError>)
    ensures r.Done? <==> d.contents.Branch? && 0 <= i < |d.contents.children|
    ensures r.Done? ==> r.value == d.contents.children[i]
    ensures !r.Fail?
  {
    if d.contents.Branch? && 0 <= i < |d.contents.children| then Done(d.contents.children[i])
    else Panic
  }

  /**
   * A child index as written in a notation: non-negative indices count from
   * the front, negative ones from the back (`-1` is the last child).
   */
  function NormalizeChildIndex(i: int, len: nat): (r: Option<nat>)
    ensures r.Some? <==> -(len as int) <= i < len
    ensures r.Some? ==> r.value < len && (r.value == i || r.value == len + i)
  {
    if 0 <= i < len then Some(i)
    else if -(len as int) <= i < 0 then Some(len + i)
    else None
  }

  /** A chain of indentation prefixes, innermost first. */
  datatype Indentation = NoIndent | IndentNode(segment: string, parent: Indentation)

  /** `outer` is `inner` or one of its ancestors: `inner` was built by pushing onto `outer`. */
  predicate Extends(inner: Indentation, outer: Indentation)
    decreases inner
  {
    inner == outer || (inner.IndentNode? && Extends(inner.parent, outer))
  }

  lemma {:induction false} ExtendsTransitive(a: Indentation, b: Indentation, c: Indentation)
    requires Extends(a, b) && Extends(b, c)
    ensures Extends(a, c)
    decreases a
  {
    if a != b {
      ExtendsTransitive(a.parent, b, c);
    }
  }

  /** Position inside a `Fold`'s `join`: `child` is the `index`-th child of `parent`. */
  datatype JoinPos = JoinPos(parent: Doc, child: Doc, index: nat, first: Notation, join: Notation)

  datatype Delayed = Delayed(
    notation: Notation,
    doc: Doc,
    flat: bool,
    indent: Indentation,
    joinPos: Option<JoinPos>)

  datatype Textual = Textual(str: string, width: nat, isFromText: bool)

  datatype CNote =
    | CEmpty
    | CEndOfLine
    | CNewline(indent: Indentation)
    | CTextual(t: Textual)
    | CConcat(left: Delayed, right: Delayed)
    | CChoice(opt1: Delayed, opt2: Delayed)
    | CChild(index: nat, child: Delayed)
    | CFocusMark

  datatype PrintingError =
    | InvalidPath(depth: nat)
    | TextNotationOnTextlessDoc
    | ChildIndexOutOfBounds(index: int, len: nat)
    | ChildNotationOnChildlessDoc
    | CheckPosChildIndexOutOfBounds(index: int, len: nat)
    | CheckPosChildOnChildlessDoc
    | CountNotationOnChildlessDoc
    | NumChildrenChanged
    | TextAfterEndOfLine
    | MissingFocusMark
    | MissingText

  /** The starting point for a document node: its own notation, not flat, no indentation. */
  function New(doc: Doc): (d: Delayed)
    ensures d.notation == doc.notation && d.doc == doc
    ensures !d.flat && d.indent == NoIndent && d.joinPos.None?
    ensures Consistent(d)
  {
    Delayed(doc.notation, doc, false, NoIndent, None)
  }

  /**
   * The invariant the walk keeps about a `Fold` position: it belongs to the
   * node being walked, its child really is the `index`-th child, and the
   * index is at least 1 (index 0 is handled by `first`).
   */
  predicate Consistent(d: Delayed) {
    d.joinPos.Some? ==>
      var jp := d.joinPos.value;
      jp.parent == d.doc && jp.parent.contents.Branch? &&
      1 <= jp.index < |jp.parent.contents.children| &&
      jp.child == jp.parent.contents.children[jp.index]
  }

  /** The delayed notations held by an evaluated node. */
  function Delays(c: CNote): (ds: seq<Delayed>)
    ensures c.CConcat? || c.CChoice? ==> |ds| == 2
    ensures c.CChild? ==> ds == [c.child]
    ensures !(c.CConcat? || c.CChoice? || c.CChild?) ==> ds == []
  {
    match c
    case CConcat(a, b) => [a, b]
    case CChoice(a, b) => [a, b]
    case CChild(_, a) => [a]
    case _ => []
  }

  /** The measure that decreases from one step of the walk to the next. */
  function JoinBound(d: Delayed): nat {
    match d.joinPos
    case None => NSize(d.notation)
    case Some(jp) =>
      var s := NSize(jp.first) + NSize(jp.join);
      if NSize(d.notation) < s then s else NSize(d.notation)
  }

  function JoinIndex(d: Delayed): nat {
    if d.joinPos.None? then 0 else d.joinPos.value.index
  }

  /** `a` comes strictly before `b` in the lexicographic order on (JoinBound, JoinIndex, NSize). */
  predicate Precedes(a: Delayed, b: Delayed) {
    JoinBound(a) < JoinBound(b) ||
    (JoinBound(a) == JoinBound(b) &&
     (JoinIndex(a) < JoinIndex(b) ||
      (JoinIndex(a) == JoinIndex(b) && NSize(a.notation) < NSize(b.notation))))
  }

  /**
   * What a final outcome of the walk from `d` guarantees:
   * flat text never offers a choice; flatness is never undone and
   * indentation only grows; text comes from the node's own contents; every
   * mismatch error is true of the node and no printing-stage error is
   * raised; when the fold position is consistent, a child result holds the
   * child it names and the parts of a concatenation or choice stay consistent.
   */
  ghost predicate Resolves(d: Delayed, r: Outcome<CNote, PrintingError>) {
    (r.Done? && d.flat ==> !r.value.CChoice?) &&
    (r.Done? ==> forall x :: x in Delays(r.value) ==> (d.flat ==> x.flat) && Extends(x.indent, d.indent)) &&
    (r.Done? && r.value.CNewline? ==> Extends(r.value.indent, d.indent)) &&
    (r.Done? && r.value.CTextual? ==> r.value.t.width == |r.value.t.str|) &&
    (r.Done? && r.value.CTextual? && r.value.t.isFromText ==> d.doc.contents == Texty(r.value.t.str)) &&
    (r == Fail(TextNotationOnTextlessDoc) ==> d.doc.contents.Branch?) &&
    (r.Fail? && r.error in {ChildNotationOnChildlessDoc, CountNotationOnChildlessDoc, NumChildrenChanged, CheckPosChildOnChildlessDoc} ==>
       d.doc.contents.Texty?) &&
    (r.Fail? && (r.error.ChildIndexOutOfBounds? || r.error.CheckPosChildIndexOutOfBounds?) ==>
       d.doc.contents.Branch? && r.error.len == |d.doc.contents.children| &&
       NormalizeChildIndex(r.error.index, r.error.len).None?) &&
    (r.Fail? ==> !(r.error.InvalidPath? || r.error.TextAfterEndOfLine? || r.error.MissingFocusMark? || r.error.MissingText?)) &&
    (Consistent(d) && r.Done? && r.value.CChild? ==>
       d.doc.contents.Branch? && r.value.index < |d.doc.contents.children| &&
       r.value.child.doc == d.doc.contents.children[r.value.index] &&
       r.value.child.notation == r.value.child.doc.notation) &&
    (Consistent(d) && r.Done? && !r.value.CChild? ==> forall x :: x in Delays(r.value) ==> Consistent(x))
  }

  datatype Step = Continue(next: Delayed) | Stop(result: Outcome<CNote, PrintingError>)

  /**
   * One step of `eval`: either the notation is resolved into a smaller one in
   * the same node (`Continue`), or the walk ends.
   */
  function StepOf(d: Delayed): (s: Step)
  {
    match d.notation
    case Empty => Stop(Done(CEmpty))
    case EndOfLine => Stop(Done(CEndOfLine))
    case Newline => Stop(Done(CNewline(d.indent)))
    case Literal(lit) => Stop(Done(CTextual(Textual(lit, |lit|, false))))
    case Text =>
      if NumChildren(d.doc).Some? then Stop(Fail(TextNotationOnTextlessDoc))
      else
        var text := d.doc.contents.text;
        Stop(Done(CTextual(Textual(text, |text|, true))))
    case Flat(note) => Continue(d.(flat := true, notation := note))
    case Indent(prefix, note) =>
      assert Extends(d.indent, d.indent);
      Continue(d.(indent := IndentNode(prefix, d.indent), notation := note))
    case Concat(n1, n2) => Stop(Done(CConcat(d.(notation := n1), d.(notation := n2))))
    case Choice(n1, n2) =>
      if d.flat then Continue(d.(notation := n1))
      else Stop(Done(CChoice(d.(notation := n1), d.(notation := n2))))
    case Check(cond, pos, n1, n2) =>
      var inspected := CheckedDoc(d, pos);
      if inspected.Fail? then Stop(Fail(inspected.error))
      else if inspected.Panic? then Stop(Panic)
      else if cond in inspected.value.conds then Continue(d.(notation := n1))
      else Continue(d.(notation := n2))
    case Child(i) =>
      if d.doc.contents.Texty? then Stop(Fail(ChildNotationOnChildlessDoc))
      else
        var n := |d.doc.contents.children|;
        var index := NormalizeChildIndex(i, n);
        if index.None? then Stop(Fail(ChildIndexOutOfBounds(i, n)))
        else
          var child := d.doc.contents.children[index.value];
          Stop(Done(CChild(index.value, d.(doc := child, notation := child.notation))))
    case Style(note) => Continue(d.(notation := note))
    case FocusMark => Stop(Done(CFocusMark))
    case Count(zero, one, many) =>
      if d.doc.contents.Texty? then Stop(Fail(CountNotationOnChildlessDoc))
      else
        var n := |d.doc.contents.children|;
        if n == 0 then Continue(d.(notation := zero))
        else if n == 1 then Continue(d.(notation := one))
        else Continue(d.(notation := many))
    case Fold(first, join) =>
      if d.doc.contents.Texty? then Stop(Fail(NumChildrenChanged))
      else
        var n := |d.doc.contents.children|;
        if n == 0 then Stop(Done(CEmpty))
        else if n == 1 then Continue(d.(notation := first))
        else
          var last := d.doc.contents.children[n - 1];
          Continue(d.(notation := join, joinPos := Some(JoinPos(d.doc, last, n - 1, first, join))))
    case Left =>
      if d.joinPos.None? then Stop(Panic)
      else
        var jp := d.joinPos.value;
        if jp.index == 1 then Continue(d.(notation := jp.first, joinPos := None))
        else if jp.index == 0 then Stop(Panic)
        else
          var prev := UnwrapChild(jp.parent, jp.index - 1);
          if !prev.Done? then Stop(Panic)
          else Continue(d.(notation := jp.join, joinPos := Some(jp.(child := prev.value, index := jp.index - 1))))
    case Right =>
      if d.joinPos.None? then Stop(Panic)
      else
        var jp := d.joinPos.value;
        Stop(Done(CChild(jp.index, d.(doc := jp.child, notation := jp.child.notation, joinPos := None))))
  }

  /**
   * `DelayedConsolidatedNotation::eval`: resolve `d` down to one of the kinds
   * in `CNote`. The walk never leaves the node it starts at except through
   * `Child` or `Right`, which end it, so everything `Resolves` says of the
   * final step holds of `d` itself.
   */
  function Eval(d: Delayed): (r: Outcome<CNote, PrintingError>)
    decreases JoinBound(d), JoinIndex(d), NSize(d.notation)
    ensures Resolves(d, r)
  {
    match StepOf(d)
    case Stop(r) => StopResolves(d); r
    case Continue(next) =>
      ContinueAdvances(d);
      var r := Eval(next);
      ResolvesCarriesBack(d, next, r);
      r
  }

  /**
   * A step that continues the walk stays in the same node, keeps flatness,
   * only adds indentation, keeps the fold position consistent, and moves
   * down the order that makes the walk terminate.
   */
  lemma ContinueAdvances(d: Delayed)
    requires StepOf(d).Continue?
    ensures var next := StepOf(d).next;
      Precedes(next, d) && next.doc == d.doc && (d.flat ==> next.flat) &&
      Extends(next.indent, d.indent) && (Consistent(d) ==> Consistent(next))
  {
    ContinuePrecedes(d);
    ContinueKeeps(d);
  }

  /** A step that continues the walk moves down the order that makes it terminate. */
  lemma ContinuePrecedes(d: Delayed)
    requires StepOf(d).Continue?
    ensures Precedes(StepOf(d).next, d)
  {
    match d.notation
    case Check(_, pos, _, _) =>
      var inspected := CheckedDoc(d, pos);
    case Fold(_, _) =>
    case Left =>
    case _ =>
  }

  /** A step that continues the walk keeps the node and flatness, only adds indentation, and keeps consistency. */
  lemma ContinueKeeps(d: Delayed)
    requires StepOf(d).Continue?
    ensures var next := StepOf(d).next;
      next.doc == d.doc && (d.flat ==> next.flat) &&
      Extends(next.indent, d.indent) && (Consistent(d) ==> Consistent(next))
  {
    match d.notation
    case Check(_, pos, _, _) =>
      var inspected := CheckedDoc(d, pos);
    case Indent(_, _) =>
      assert Extends(d.indent, d.indent);
    case Fold(_, _) =>
    case Left =>
    case _ =>
  }

  /** A step that ends the walk ends it with an outcome that `Resolves` describes. */
  lemma StopResolves(d: Delayed)
    requires StepOf(d).Stop?
    ensures Resolves(d, StepOf(d).result)
  {
    match d.notation
    case Check(_, pos, _, _) =>
      var inspected := CheckedDoc(d, pos);
    case Child(i) =>
    case Fold(_, _) =>
    case Left =>
    case Right =>
    case _ =>
  }

  /** What holds of the walk from a later step holds of the walk from an earlier one. */
  lemma ResolvesCarriesBack(d: Delayed, next: Delayed, r: Outcome<CNote, PrintingError>)
    requires next.doc == d.doc && (d.flat ==> next.flat) && Extends(next.indent, d.indent)
    requires Consistent(d) ==> Consistent(next)
    requires Resolves(next, r)
    ensures Resolves(d, r)
  {
    if r.Done? {
      forall x | x in Delays(r.value)
        ensures Extends(x.indent, d.indent)
      {
        ExtendsTransitive(x.indent, next.indent, d.indent);
      }
      if r.value.CNewline? {
        ExtendsTransitive(r.value.indent, next.indent, d.indent);
      }
    }
  }

  /** The node a `Check` inspects. */
  function CheckedDoc(d: Delayed, pos: CheckPos): (r: Outcome<Doc, PrintingError>)
    ensures r == Fail(CheckPosChildOnChildlessDoc) <==> pos.ChildAt? && d.doc.contents.Texty?
    ensures r.Fail? ==> r.error.CheckPosChildOnChildlessDoc? || r.error.CheckPosChildIndexOutOfBounds?
    ensures r.Fail? && r.error.CheckPosChildIndexOutOfBounds? ==>
              pos.ChildAt? && d.doc.contents.Branch? && r.error.len == |d.doc.contents.children| &&
              NormalizeChildIndex(r.error.index, r.error.len).None?
    ensures pos.Here? ==> r == Done(d.doc)
    ensures pos.ChildAt? && r.Done? ==> r.value in d.doc.contents.children
    ensures Consistent(d) && pos.RightChild? ==> (d.joinPos.Some? && r == Done(d.joinPos.value.child)) || (d.joinPos.None? && r.Panic?)
    ensures Consistent(d) && pos.LeftChild? && d.joinPos.Some? ==>
              r == Done(d.doc.contents.children[d.joinPos.value.index - 1])
  {
    match pos
    case Here => Done(d.doc)
    case ChildAt(i) =>
      if d.doc.contents.Texty? then Fail(CheckPosChildOnChildlessDoc)
      else
        var n := |d.doc.contents.children|;
        var index := NormalizeChildIndex(i, n);
        if index.None? then Fail(CheckPosChildIndexOutOfBounds(i, n))
        else Done(d.doc.contents.children[index.value])
    case RightChild =>
      if d.joinPos.None? then Panic else Done(d.joinPos.value.child)
    case LeftChild =>
      if d.joinPos.None? || d.joinPos.value.index == 0 then Panic
      else UnwrapChild(d.joinPos.value.parent, d.joinPos.value.index - 1)
  }

  /**
   * Inside the `k`-th join of a fold, `Right` is the `k`-th child, and `Left`
   * moves to the previous join (or to `first` once the front is reached).
   */
  lemma FoldPositions(d: Delayed)
    requires Consistent(d) && d.joinPos.Some?
    ensures var jp := d.joinPos.value;
      Eval(d.(notation := Right)) ==
        Done(CChild(jp.index, d.(doc := d.doc.contents.children[jp.index],
                                 notation := d.doc.contents.children[jp.index].notation, joinPos := None)))
    ensures var jp := d.joinPos.value;
      jp.index == 1 ==> Eval(d.(notation := Left)) == Eval(d.(notation := jp.first, joinPos := None))
    ensures var jp := d.joinPos.value;
      jp.index > 1 ==>
        var d' := d.(notation := jp.join, joinPos := Some(jp.(child := d.doc.contents.children[jp.index - 1], index := jp.index - 1)));
        Consistent(d') && Eval(d.(notation := Left)) == Eval(d')
  {
    FoldRight(d);
    FoldLeft(d);
  }

  /** Inside the `k`-th join of a fold, `Right` is the `k`-th child. */
  lemma FoldRight(d: Delayed)
    requires Consistent(d) && d.joinPos.Some?
    ensures var jp := d.joinPos.value;
      Eval(d.(notation := Right)) ==
        Done(CChild(jp.index, d.(doc := d.doc.contents.children[jp.index],
                                 notation := d.doc.contents.children[jp.index].notation, joinPos := None)))
  {
  }

  /** Inside the `k`-th join of a fold, `Left` is `first` at the front and the previous join elsewhere. */
  lemma FoldLeft(d: Delayed)
    requires Consistent(d) && d.joinPos.Some?
    ensures var jp := d.joinPos.value;
      jp.index == 1 ==> Eval(d.(notation := Left)) == Eval(d.(notation := jp.first, joinPos := None))
    ensures var jp := d.joinPos.value;
      jp.index > 1 ==>
        var d' := d.(notation := jp.join, joinPos := Some(jp.(child := d.doc.contents.children[jp.index - 1], index := jp.index - 1)));
        Consistent(d') && Eval(d.(notation := Left)) == Eval(d')
  {
  }

  /**
   * A fold over `n >= 2` children starts at the last child's join with a
   * consistent position; over one child it is `first`, over none it is empty.
   */
  lemma FoldStart(d: Delayed, first: Notation, join: Notation)
    requires d.notation == Fold(first, join) && d.doc.contents.Branch?
    ensures var n := |d.doc.contents.children|;
      (n == 0 ==> Eval(d) == Done(CEmpty)) &&
      (n == 1 ==> Eval(d) == Eval(d.(notation := first))) &&
      (n >= 2 ==>
        var d' := d.(notation := join, joinPos := Some(JoinPos(d.doc, d.doc.contents.children[n - 1], n - 1, first, join)));
        Consistent(d') && Eval(d) == Eval(d'))
  {
  }

  /** `Textual::split_at`: cut after `charPos` characters (or at the end). */
  function SplitAt(t: Textual, charPos: nat): (r: (Textual, Textual))
    ensures r.0.str + r.1.str == t.str
    ensures |r.0.str| == if charPos < |t.str| then charPos else |t.str|
    ensures r.0.width == |r.0.str| && r.1.width == |r.1.str|
    ensures r.0.isFromText == t.isFromText && r.1.isFromText == t.isFromText
  {
    var k := if charPos < |t.str| then charPos else |t.str|;
    (Textual(t.str[..k], k, t.isFromText), Textual(t.str[k..], |t.str| - k, t.isFromText))
  }
}
