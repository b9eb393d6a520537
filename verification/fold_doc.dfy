/**
 * The notation language of the `Fold` generation of the printer
 * (src/pretty_printing/), the documents it is applied to, and the delayed
 * notation that both walks over it (`consolidated_notation.rs` and
 * `notation_walker.rs`) carry from step to step.
 */
module FoldDoc {
  import opened Wrappers

  datatype Notation =
    | Empty
    | Newline
    | Literal(lit: string)
    | Text
    | Flat(body: Notation)
    | Indent(amount: nat, body: Notation)
    | Concat(left: Notation, right: Notation)
    | Choice(opt1: Notation, opt2: Notation)
    | IfEmptyText(then_: Notation, else_: Notation)
    | Child(index: nat)
    | Count(zero: Notation, one: Notation, many: Notation)
    | Fold(first: Notation, join: Notation)
    | Left
    | Right

  /** The number of notation constructors in `n`; at least 1. */
  function NSize(n: Notation): (s: nat)
    ensures s >= 1
  {
    match n
    case Flat(b) => 1 + NSize(b)
    case Indent(_, b) => 1 + NSize(b)
    case Concat(a, b) => 1 + NSize(a) + NSize(b)
    case Choice(a, b) => 1 + NSize(a) + NSize(b)
    case IfEmptyText(a, b) => 1 + NSize(a) + NSize(b)
    case Count(a, b, c) => 1 + NSize(a) + NSize(b) + NSize(c)
    case Fold(a, b) => 1 + NSize(a) + NSize(b)
    case _ => 1
  }

  /** A document node (`PrettyDoc`): its notation and either text or children. */
  datatype Doc = Doc(id: nat, notation: Notation, contents: Contents)
  datatype Contents = Texty(text: string) | Branch(children: seq<Doc>)

  function NumChildren(d: Doc): (r: Option<nat>)
    ensures r.Some? <==> d.contents.Branch?
    ensures r.Some? ==> r.value == |d.contents.children|
  {
    if d.contents.Branch? then Some(|d.contents.children|) else None
  }

  /** Position inside a `Fold`'s `join`: `child` is the `index`-th child of `parent`. */
  datatype JoinPos = JoinPos(parent: Doc, child: Doc, index: nat, first: Notation, join: Notation)

  datatype Delayed = Delayed(doc: Doc, notation: Notation, flat: bool, indent: nat, joinPos: Option<JoinPos>)

  /** `DelayedConsolidatedNotation::new` / `NotationWalker::new`: a node's own notation, unindented. */
  function New(doc: Doc): (d: Delayed)
    ensures d.doc == doc && d.notation == doc.notation
    ensures !d.flat && d.indent == 0 && d.joinPos.None?
  {
    Delayed(doc, doc.notation, false, 0, None)
  }

  /** The first component of the order that makes both walks terminate. */
  function JoinBound(d: Delayed): nat {
    match d.joinPos
    case None => NSize(d.notation)
    case Some(jp) =>
      var s := NSize(jp.first) + NSize(jp.join);
      if NSize(d.notation) < s then s else NSize(d.notation)
  }

  function JoinIndex(d: Delayed): nat {
    if d.joinPos.None? then 0 else d.joinPos.value.index
  }

  /** `a` comes strictly before `b` in the lexicographic order on (JoinBound, JoinIndex, NSize). */
  predicate Precedes(a: Delayed, b: Delayed) {
    JoinBound(a) < JoinBound(b) ||
    (JoinBound(a) == JoinBound(b) &&
     (JoinIndex(a) < JoinIndex(b) ||
      (JoinIndex(a) == JoinIndex(b) && NSize(a.notation) < NSize(b.notation))))
  }

  /** Replacing the notation by a smaller one, in the same fold position, moves down the order. */
  lemma SameJoinSmaller(a: Delayed, b: Delayed)
    requires a.joinPos == b.joinPos && NSize(a.notation) < NSize(b.notation)
    ensures Precedes(a, b)
  {
  }
}
