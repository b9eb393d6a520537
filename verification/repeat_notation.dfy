/**
 * The notation language of the `Repeat` generation (used by
 * src/validate.rs and src/pretty_printing/notation_ref.rs), and the
 * documents it is applied to.
 */
module RepeatNotation {
  import opened Wrappers

  datatype Notation =
    | Empty
    | Literal(lit: string)
    | Newline
    | Text
    | Flat(body: Notation)
    | Indent(amount: nat, body: Notation)
    | Concat(left: Notation, right: Notation)
    | Choice(opt1: Notation, opt2: Notation)
    | IfEmptyText(then_: Notation, else_: Notation)
    | Child(index: nat)
    | Repeat(repeat: RepeatInner)
    | Surrounded
    | Left
    | Right

  /**
   * How to print a list: `empty` for no children, `lone` for one, and for
   * more `surround` around the joined children, where `join` combines the
   * children to its `Left` and `Right`.
   */
  datatype RepeatInner = RepeatInner(empty: Notation, lone: Notation, join: Notation, surround: Notation)

  function NSize(n: Notation): (s: nat)
    ensures s >= 1
  {
    match n
    case Flat(b) => 1 + NSize(b)
    case Indent(_, b) => 1 + NSize(b)
    case Concat(a, b) => 1 + NSize(a) + NSize(b)
    case Choice(a, b) => 1 + NSize(a) + NSize(b)
    case IfEmptyText(a, b) => 1 + NSize(a) + NSize(b)
    case Repeat(r) => 1 + RSize(r)
    case _ => 1
  }

  function RSize(r: RepeatInner): (s: nat)
    ensures s > NSize(r.empty) && s > NSize(r.lone) && s > NSize(r.join) && s > NSize(r.surround)
  {
    NSize(r.empty) + NSize(r.lone) + NSize(r.join) + NSize(r.surround)
  }

  /** A document node: its notation and either text or children. */
  datatype Doc = Doc(id: nat, notation: Notation, contents: Contents)
  datatype Contents = Texty(text: string) | Branch(children: seq<Doc>)

  function NumChildren(d: Doc): (r: Option<nat>)
    ensures r.Some? <==> d.contents.Branch?
    ensures r.Some? ==> r.value == |d.contents.children|
  {
    if d.contents.Branch? then Some(|d.contents.children|) else None
  }
}
