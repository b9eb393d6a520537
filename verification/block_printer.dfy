/**
 * The block printer of `pretty_printing/pretty_print_3.rs`. The document
 * is cut into blocks, one per line: a block holds the line's indentation,
 * the texts already laid out on it, and the chunks still to lay out
 * (reversed, leftmost on top). A `BlockSet` holds the blocks before the
 * current one (`prev`), the current one, and the blocks after it (`next`,
 * reversed). Inserting a chunk unfolds it, cutting a new block at each
 * newline; resolving the first chunk of the current block replaces a child
 * by its notation or a choice by the option `resolve_choice` picks.
 *
 * Notations and chunks are those of `Choose`; shades and styles are not
 * modelled, so a text fragment is its string.
 */
module BlockPrinter {
  import opened Wrappers
  import Text
  import C = Choose
  import CP = CursorPrinter

  type Note = C.Note
  type Chunk = C.Chunk

  predicate Textual(n: Note) {
    n.Literal? || n.Text?
  }

  /** What a block's chunks may be: texts, and children and choices still to resolve. */
  predicate Piece(n: Note) {
    Textual(n) || n.Child? || n.Choice?
  }

  predicate Pieces(chunks: seq<Chunk>) {
    forall i :: 0 <= i < |chunks| ==> Piece(chunks[i].note)
  }

  /** `Block`: `spaces` of indentation, then `text`, then `chunks` (leftmost on top) still to lay out. */
  datatype Block = Block(spaces: nat, text: seq<string>, textLen: nat, chunks: seq<Chunk>)

  /** `Block::empty`. */
  const EmptyBlock := Block(0, [], 0, [])

  /**
   * The invariant of a block: its chunks are pieces, the leftmost of them
   * (if any) is not a text, and `text_len` is the width of `text`.
   */
  predicate WfBlock(b: Block) {
    Pieces(b.chunks) && b.textLen == Text.SumLengths(b.text) &&
    (b.chunks == [] || !Textual(b.chunks[|b.chunks| - 1].note))
  }

  predicate WfBlocks(bs: seq<Block>) {
    forall i :: 0 <= i < |bs| ==> WfBlock(bs[i])
  }

  lemma SumLengthsPush(ss: seq<string>, s: string)
    ensures Text.SumLengths(ss + [s]) == Text.SumLengths(ss) + |s|
  {
    assert (ss + [s])[..|ss|] == ss;
  }

  lemma PiecesPrefix(chunks: seq<Chunk>, n: nat)
    requires Pieces(chunks) && n <= |chunks|
    ensures Pieces(chunks[..n])
  {
    assert forall i :: 0 <= i < n ==> chunks[..n][i] == chunks[i];
  }

  /**
   * `collect_text`: moves the texts on top of the chunks, leftmost first,
   * onto the end of the block's text until a child or a choice is on top.
   */
  function Collected(b: Block): (r: Block)
    requires Pieces(b.chunks)
    ensures r.spaces == b.spaces
    ensures |r.chunks| <= |b.chunks| && r.chunks == b.chunks[..|r.chunks|]
    ensures r.chunks == [] || !Textual(r.chunks[|r.chunks| - 1].note)
    ensures |b.text| <= |r.text| && r.text[..|b.text|] == b.text
    decreases |b.chunks|
  {
    if b.chunks == [] then b
    else
      var c := b.chunks[|b.chunks| - 1];
      if Textual(c.note) then
        PiecesPrefix(b.chunks, |b.chunks| - 1);
        var r := Collected(Block(b.spaces, b.text + CP.TextOf(c.note), b.textLen + CP.TextLen(c.note), b.chunks[..|b.chunks| - 1]));
        assert r.text[..|b.text|] == r.text[..|b.text| + |CP.TextOf(c.note)|][..|b.text|];
        r
      else b
  }

  /** The block `collect_text` goes on with after moving the text on top. */
  function CollectStep(b: Block): Block
    requires b.chunks != []
  {
    var c := b.chunks[|b.chunks| - 1];
    Block(b.spaces, b.text + CP.TextOf(c.note), b.textLen + CP.TextLen(c.note), b.chunks[..|b.chunks| - 1])
  }

  lemma CollectStepTextLen(b: Block)
    requires Pieces(b.chunks) && b.chunks != [] && Textual(b.chunks[|b.chunks| - 1].note)
    requires b.textLen == Text.SumLengths(b.text)
    ensures Pieces(CollectStep(b).chunks) && Collected(b) == Collected(CollectStep(b))
    ensures CollectStep(b).textLen == Text.SumLengths(CollectStep(b).text)
  {
    var c := b.chunks[|b.chunks| - 1];
    PiecesPrefix(b.chunks, |b.chunks| - 1);
    var t := CP.TextOf(c.note)[0];
    assert CP.TextOf(c.note) == [t];
    SumLengthsPush(b.text, t);
  }

  /** `collect_text` keeps `text_len` the width of `text`. */
  lemma {:induction false} CollectedTextLen(b: Block)
    requires Pieces(b.chunks) && b.textLen == Text.SumLengths(b.text)
    ensures Collected(b).textLen == Text.SumLengths(Collected(b).text)
    decreases |b.chunks|
  {
    if b.chunks != [] && Textual(b.chunks[|b.chunks| - 1].note) {
      CollectStepTextLen(b);
      CollectedTextLen(CollectStep(b));
    }
  }

  /** `collect_text` on a block of pieces gives a well-formed block. */
  lemma CollectedWf(b: Block)
    requires Pieces(b.chunks) && b.textLen == Text.SumLengths(b.text)
    ensures WfBlock(Collected(b))
  {
    CollectedTextLen(b);
    PiecesPrefix(b.chunks, |Collected(b).chunks|);
  }

  /** `collect_text`, popping the chunks one at a time. */
  method CollectText(b: Block) returns (r: Block)
    requires Pieces(b.chunks)
    ensures r == Collected(b)
  {
    var text, chunks := b.text, b.chunks;
    var textLen: nat := b.textLen;
    while chunks != []
      invariant Pieces(chunks)
      invariant Collected(Block(b.spaces, text, textLen, chunks)) == Collected(b)
      decreases |chunks|
    {
      var c := chunks[|chunks| - 1];
      ghost var before := chunks;
      chunks := chunks[..|chunks| - 1];
      PiecesPrefix(before, |chunks|);
      if c.note.Child? || c.note.Choice? {
        chunks := chunks + [c];
        assert chunks == before;
        break;
      }
      match c.note {
        case Literal(lit) =>
          text := text + [lit];
          textLen := textLen + |lit|;
        case Text(t) =>
          text := text + [t];
          textLen := textLen + |t|;
      }
    }
    r := Block(b.spaces, text, textLen, chunks);
  }

  /** What the printed document is made of: strings, line breaks with their indentation, and chunks not yet resolved. */
  datatype Item = Str(s: string) | Break(spaces: nat) | Hole(chunk: Chunk)

  /** What an atom stands for in the printed document. */
  function ItemOf(c: Chunk): seq<Item> {
    match c.note
    case Literal(lit) => [Str(lit)]
    case Text(text) => [Str(text)]
    case Newline => [Break(c.indent.GetOr(0))]
    case Child(_, _) => [Hole(c)]
    case Choice(_, _) => [Hole(c)]
    case _ => []
  }

  /** What a sequence of atoms, in document order, stands for. */
  function ItemsOf(atoms: seq<Chunk>): seq<Item> {
    if atoms == [] then [] else ItemsOf(atoms[..|atoms| - 1]) + ItemOf(atoms[|atoms| - 1])
  }

  function Strs(text: seq<string>): seq<Item> {
    if text == [] then [] else Strs(text[..|text| - 1]) + [Str(text[|text| - 1])]
  }

  /** What a block stands for, after its line break: its text, then its chunks. */
  function View(b: Block): seq<Item> {
    Strs(b.text) + ItemsOf(CP.Ahead(b.chunks))
  }

  /** What the blocks of `next` stand for, from the top of the stack down: each is a line break and its line. */
  function NextView(next: seq<Block>): seq<Item> {
    if next == [] then [] else [Break(next[|next| - 1].spaces)] + View(next[|next| - 1]) + NextView(next[..|next| - 1])
  }

  lemma {:induction false} ItemsAppend(a: seq<Chunk>, b: seq<Chunk>)
    ensures ItemsOf(a + b) == ItemsOf(a) + ItemsOf(b)
    decreases |b|
  {
    if b == [] {
      assert a + b == a;
    } else {
      var init := b[..|b| - 1];
      var last := b[|b| - 1];
      assert (a + b)[..|a + b| - 1] == a + init && (a + b)[|a + b| - 1] == last;
      assert ItemsOf(a + b) == ItemsOf(a + init) + ItemOf(last);
      assert ItemsOf(b) == ItemsOf(init) + ItemOf(last);
      ItemsAppend(a, init);
      ItemsAssoc(ItemsOf(a), ItemsOf(init), ItemOf(last));
    }
  }

  lemma ItemsAssoc(x: seq<Item>, y: seq<Item>, z: seq<Item>)
    ensures x + y + z == x + (y + z)
  {
  }

  lemma StrsPush(text: seq<string>, s: string)
    ensures Strs(text + [s]) == Strs(text) + [Str(s)]
  {
    assert (text + [s])[..|text|] == text;
  }

  lemma NextViewPush(next: seq<Block>, b: Block)
    ensures NextView(next + [b]) == [Break(b.spaces)] + View(b) + NextView(next)
  {
    assert (next + [b])[..|next|] == next;
  }

  /** The atoms ahead of a stack with an atom pushed on it start with that atom. */
  lemma ItemsAheadPush(chunks: seq<Chunk>, c: Chunk)
    requires CP.Atomic(c.note)
    ensures ItemsOf(CP.Ahead(chunks + [c])) == ItemOf(c) + ItemsOf(CP.Ahead(chunks))
  {
    CP.AheadPush(chunks, c);
    CP.AtomsOfAtom(c);
    ItemsAppend([c], CP.Ahead(chunks));
    assert ItemsOf([c]) == ItemOf(c) by {
      assert [c][..0] == [];
    }
  }

  /** The atoms behind a stack with an atom pushed on it end with that atom. */
  lemma ItemsBehindPush(stack: seq<Chunk>, c: Chunk)
    requires CP.Atomic(c.note)
    ensures ItemsOf(CP.Behind(stack + [c])) == ItemsOf(CP.Behind(stack)) + ItemOf(c)
  {
    CP.BehindPush(stack, c);
    CP.AtomsOfAtom(c);
    assert (CP.Behind(stack) + [c])[..|CP.Behind(stack)|] == CP.Behind(stack);
  }

  lemma Assoc(x: seq<Item>, y: seq<Item>, z: seq<Item>)
    ensures x + (y + z) == x + y + z
  {
  }

  lemma CollectedViewStep(b: Block, c: Chunk, rest: seq<Chunk>, t: string)
    requires b.chunks == rest + [c] && CP.TextOf(c.note) == [t]
    ensures View(b) == View(Block(b.spaces, b.text + [t], b.textLen + CP.TextLen(c.note), rest))
  {
    ItemsAheadPush(rest, c);
    StrsPush(b.text, t);
    assert ItemOf(c) == [Str(t)];
    Assoc(Strs(b.text), [Str(t)], ItemsOf(CP.Ahead(rest)));
  }

  /** `collect_text` never changes what a block stands for. */
  lemma {:induction false} CollectedView(b: Block)
    requires Pieces(b.chunks)
    ensures View(Collected(b)) == View(b)
    decreases |b.chunks|
  {
    if b.chunks != [] && Textual(b.chunks[|b.chunks| - 1].note) {
      var c := b.chunks[|b.chunks| - 1];
      var rest := b.chunks[..|b.chunks| - 1];
      assert b.chunks == rest + [c];
      PiecesPrefix(b.chunks, |b.chunks| - 1);
      var t := CP.TextOf(c.note)[0];
      assert CP.TextOf(c.note) == [t];
      var b' := Block(b.spaces, b.text + CP.TextOf(c.note), b.textLen + CP.TextLen(c.note), rest);
      assert Collected(b) == Collected(b');
      CollectedViewStep(b, c, rest, t);
      CollectedView(b');
    }
  }

  /** The current block and the blocks after it: what `insert_chunk` changes. */
  datatype Lines = Lines(block: Block, next: seq<Block>)

  /** What the current block and the blocks after it stand for. */
  function LinesView(lines: Lines): seq<Item> {
    View(lines.block) + NextView(lines.next)
  }

  /**
   * The loop of `insert_chunk` on its pending `stack` (top: rightmost):
   * pieces go onto the current block's chunks, a newline cuts off a new
   * block holding them all (a panic when the newline is flat), and the rest
   * is unfolded on the stack.
   */
  function InsertLoop(lines: Lines, stack: seq<Chunk>): (r: Option<Lines>)
    requires Pieces(lines.block.chunks)
    ensures r.Some? ==> Pieces(r.value.block.chunks)
    ensures r.Some? ==> r.value.block.spaces == lines.block.spaces && r.value.block.text == lines.block.text
    ensures r.Some? ==> r.value.block.textLen == lines.block.textLen
    decreases CP.StackSize(stack)
  {
    if stack == [] then Some(lines)
    else
      var c := stack[|stack| - 1];
      var rest := stack[..|stack| - 1];
      var b := lines.block;
      CP.StackSizePush(rest, c);
      if Piece(c.note) then
        InsertLoop(Lines(b.(chunks := b.chunks + [c]), lines.next), rest)
      else if c.note.Newline? then
        if c.indent.None? then None
        else
          var nb := Collected(Block(c.indent.value, [], 0, b.chunks));
          InsertLoop(Lines(b.(chunks := []), lines.next + [nb]), rest)
      else
        CP.BehindUnfold(rest, c);
        InsertLoop(lines, rest + CP.UnfoldBehind(c))
  }

  /** `insert_chunk`: inserts a chunk between the current block's text and its chunks. */
  function Insert(lines: Lines, c: Chunk): (r: Option<Lines>)
    requires Pieces(lines.block.chunks)
  {
    match InsertLoop(lines, [c])
    case None => None
    case Some(l) => Some(Lines(Collected(l.block), l.next))
  }

  lemma Regroup(s: seq<Item>, x: seq<Item>, i: seq<Item>, y: seq<Item>)
    ensures s + (x + i) + y == s + x + (i + y)
  {
  }

  lemma InsertPieceView(lines: Lines, c: Chunk, rest: seq<Chunk>)
    requires Pieces(lines.block.chunks) && Piece(c.note)
    ensures var b := lines.block;
      Strs(b.text) + ItemsOf(CP.Behind(rest + [c])) + ItemsOf(CP.Ahead(b.chunks)) ==
      Strs(b.text) + ItemsOf(CP.Behind(rest)) + ItemsOf(CP.Ahead(b.chunks + [c]))
  {
    ItemsBehindPush(rest, c);
    ItemsAheadPush(lines.block.chunks, c);
    Regroup(Strs(lines.block.text), ItemsOf(CP.Behind(rest)), ItemOf(c), ItemsOf(CP.Ahead(lines.block.chunks)));
  }

  lemma NewBlockView(i: nat, chunks: seq<Chunk>)
    requires Pieces(chunks)
    ensures View(Collected(Block(i, [], 0, chunks))) == ItemsOf(CP.Ahead(chunks))
  {
    var b := Block(i, [], 0, chunks);
    CollectedView(b);
    assert Strs(b.text) == [];
    assert View(b) == [] + ItemsOf(CP.Ahead(chunks));
  }

  lemma RegroupBreak(s: seq<Item>, x: seq<Item>, br: Item, a: seq<Item>, n: seq<Item>)
    ensures s + (x + [br]) + a + n == s + x + [] + ([br] + a + n)
  {
  }

  lemma InsertNewlineView(lines: Lines, c: Chunk, rest: seq<Chunk>)
    requires Pieces(lines.block.chunks) && c.note.Newline? && c.indent.Some?
    ensures var b := lines.block;
      var nb := Collected(Block(c.indent.value, [], 0, b.chunks));
      Strs(b.text) + ItemsOf(CP.Behind(rest + [c])) + ItemsOf(CP.Ahead(b.chunks)) + NextView(lines.next) ==
      Strs(b.text) + ItemsOf(CP.Behind(rest)) + ItemsOf(CP.Ahead([])) + NextView(lines.next + [nb])
  {
    var b := lines.block;
    var nb := Collected(Block(c.indent.value, [], 0, b.chunks));
    ItemsBehindPush(rest, c);
    assert ItemOf(c) == [Break(c.indent.value)];
    NewBlockView(c.indent.value, b.chunks);
    NextViewPush(lines.next, nb);
    assert ItemsOf(CP.Ahead([])) == [];
    RegroupBreak(Strs(b.text), ItemsOf(CP.Behind(rest)), Break(c.indent.value), ItemsOf(CP.Ahead(b.chunks)), NextView(lines.next));
  }

  lemma InsertUnfoldView(c: Chunk, rest: seq<Chunk>)
    requires !CP.Atomic(c.note)
    ensures ItemsOf(CP.Behind(rest + [c])) == ItemsOf(CP.Behind(rest + CP.UnfoldBehind(c)))
  {
    CP.BehindPush(rest, c);
    CP.BehindUnfold(rest, c);
  }

  /**
   * What the loop of `insert_chunk` promises: unless it panics, the
   * stack's atoms are laid out between the current block's text and its
   * chunks, and nothing else the lines stand for changes.
   */
  predicate InsertsInPlace(lines: Lines, stack: seq<Chunk>)
    requires Pieces(lines.block.chunks)
  {
    InsertLoop(lines, stack).Some? ==>
      LinesView(InsertLoop(lines, stack).value) ==
      Strs(lines.block.text) + ItemsOf(CP.Behind(stack)) + ItemsOf(CP.Ahead(lines.block.chunks)) + NextView(lines.next)
  }

  lemma InsertPieceStep(lines: Lines, c: Chunk, rest: seq<Chunk>)
    requires Pieces(lines.block.chunks) && Piece(c.note)
    requires InsertsInPlace(Lines(lines.block.(chunks := lines.block.chunks + [c]), lines.next), rest)
    ensures InsertsInPlace(lines, rest + [c])
  {
    var stack := rest + [c];
    assert stack[..|stack| - 1] == rest;
    var l := Lines(lines.block.(chunks := lines.block.chunks + [c]), lines.next);
    assert InsertLoop(lines, stack) == InsertLoop(l, rest);
    InsertPieceView(lines, c, rest);
  }

  lemma InsertNewlineStep(lines: Lines, c: Chunk, rest: seq<Chunk>)
    requires Pieces(lines.block.chunks) && c.note.Newline?
    requires c.indent.Some? ==> InsertsInPlace(Lines(lines.block.(chunks := []), lines.next + [Collected(Block(c.indent.value, [], 0, lines.block.chunks))]), rest)
    ensures InsertsInPlace(lines, rest + [c])
  {
    var stack := rest + [c];
    assert stack[..|stack| - 1] == rest;
    if c.indent.Some? {
      var nb := Collected(Block(c.indent.value, [], 0, lines.block.chunks));
      var l := Lines(lines.block.(chunks := []), lines.next + [nb]);
      assert InsertLoop(lines, stack) == InsertLoop(l, rest);
      InsertNewlineView(lines, c, rest);
    }
  }

  lemma InsertUnfoldStep(lines: Lines, c: Chunk, rest: seq<Chunk>)
    requires Pieces(lines.block.chunks) && !CP.Atomic(c.note)
    requires InsertsInPlace(lines, rest + CP.UnfoldBehind(c))
    ensures InsertsInPlace(lines, rest + [c])
  {
    var stack := rest + [c];
    assert stack[..|stack| - 1] == rest;
    CP.BehindUnfold(rest, c);
    assert InsertLoop(lines, stack) == InsertLoop(lines, rest + CP.UnfoldBehind(c));
    InsertUnfoldView(c, rest);
  }

  /**
   * The loop of `insert_chunk` lays the stack's atoms out between the
   * current block's text and its chunks, without changing anything else the
   * lines stand for.
   */
  lemma {:induction false} InsertLoopView(lines: Lines, stack: seq<Chunk>)
    requires Pieces(lines.block.chunks)
    ensures InsertsInPlace(lines, stack)
    decreases CP.StackSize(stack)
  {
    if stack == [] {
      assert CP.Behind(stack) == [];
      assert ItemsOf([]) == [];
    } else {
      var c := stack[|stack| - 1];
      var rest := stack[..|stack| - 1];
      var b := lines.block;
      assert stack == rest + [c];
      CP.StackSizePush(rest, c);
      if Piece(c.note) {
        InsertLoopView(Lines(b.(chunks := b.chunks + [c]), lines.next), rest);
        InsertPieceStep(lines, c, rest);
      } else if c.note.Newline? {
        if c.indent.Some? {
          InsertLoopView(Lines(b.(chunks := []), lines.next + [Collected(Block(c.indent.value, [], 0, b.chunks))]), rest);
        }
        InsertNewlineStep(lines, c, rest);
      } else {
        CP.BehindUnfold(rest, c);
        InsertLoopView(lines, rest + CP.UnfoldBehind(c));
        InsertUnfoldStep(lines, c, rest);
      }
    }
  }

  /**
   * `insert_chunk` lays the chunk's atoms out between the current block's
   * text and its chunks: what the lines stand for is the text, the chunk's
   * atoms, then what the chunks and the next blocks stood for.
   */
  lemma InsertView(lines: Lines, c: Chunk)
    requires Pieces(lines.block.chunks)
    ensures Insert(lines, c).Some? ==>
      LinesView(Insert(lines, c).value) ==
      Strs(lines.block.text) + ItemsOf(CP.Atoms(c)) + ItemsOf(CP.Ahead(lines.block.chunks)) + NextView(lines.next)
  {
    InsertLoopView(lines, [c]);
    assert CP.Behind([c]) == CP.Atoms(c) by {
      CP.BehindPush([], c);
      assert [] + [c] == [c];
    }
    var r := InsertLoop(lines, [c]);
    if r.Some? {
      var l := r.value;
      assert Insert(lines, c) == Some(Lines(Collected(l.block), l.next));
      CollectedView(l.block);
      assert LinesView(Lines(Collected(l.block), l.next)) == LinesView(l);
    }
  }

  /**
   * `is_valid`: whether a notation has a layout, flat or not. Unlike the
   * printer of `pretty_print_2.rs`, a child is valid only if its notation is,
   * flat or not.
   */
  function IsValid(flat: bool, note: Note): bool
    decreases note
  {
    match note
    case Empty => true
    case Literal(_) => true
    case Text(_) => true
    case Newline => !flat
    case Flat(n) => IsValid(true, n)
    case Indent(_, n) => IsValid(flat, n)
    case Choice(o1, o2) => IsValid(flat, o1) || IsValid(flat, o2)
    case Concat(n1, n2) => IsValid(flat, n1) && IsValid(flat, n2)
    case Child(_, n) => IsValid(flat, n)
  }

  /**
   * `fits`: pops `(flat, notation)` entries off the end of `chunks` and
   * takes each text's width off `remaining`. A flat newline fails; any other
   * newline is passed over and the counting goes on.
   */
  function FitsAll(remaining: nat, chunks: seq<(bool, Note)>): bool
    decreases CP.Weight(chunks)
  {
    if chunks == [] then true
    else
      var (flat, note) := chunks[|chunks| - 1];
      var rest := chunks[..|chunks| - 1];
      CP.WeightPush(rest, (flat, note));
      assert chunks == rest + [(flat, note)];
      match note
      case Empty => FitsAll(remaining, rest)
      case Literal(lit) => if |lit| <= remaining then FitsAll(remaining - |lit|, rest) else false
      case Text(text) => if |text| <= remaining then FitsAll(remaining - |text|, rest) else false
      case Newline => if flat then false else FitsAll(remaining, rest)
      case Flat(n) => CP.WeightPush(rest, (true, n)); FitsAll(remaining, rest + [(true, n)])
      case Indent(_, n) => CP.WeightPush(rest, (flat, n)); FitsAll(remaining, rest + [(flat, n)])
      case Child(_, n) => CP.WeightPush(rest, (flat, n)); FitsAll(remaining, rest + [(flat, n)])
      case Concat(a, b) =>
        CP.WeightPush(rest, (flat, b));
        CP.WeightPush(rest + [(flat, b)], (flat, a));
        FitsAll(remaining, rest + [(flat, b)] + [(flat, a)])
      case Choice(o1, o2) =>
        var o := if IsValid(flat, o2) then o2 else o1;
        CP.WeightPush(rest, (flat, o));
        FitsAll(remaining, rest + [(flat, o)])
  }

  /** The width of the texts `fits` meets in a notation: choices take their second option when it is valid. */
  function LineWidth(flat: bool, note: Note): nat
    decreases note
  {
    match note
    case Empty => 0
    case Literal(lit) => |lit|
    case Text(text) => |text|
    case Newline => 0
    case Flat(n) => LineWidth(true, n)
    case Indent(_, n) => LineWidth(flat, n)
    case Child(_, n) => LineWidth(flat, n)
    case Concat(a, b) => LineWidth(flat, a) + LineWidth(flat, b)
    case Choice(o1, o2) => if IsValid(flat, o2) then LineWidth(flat, o2) else LineWidth(flat, o1)
  }

  /** Whether `fits` meets a flat newline in a notation. */
  predicate FlatBreak(flat: bool, note: Note)
    decreases note
  {
    match note
    case Newline => flat
    case Flat(n) => FlatBreak(true, n)
    case Indent(_, n) => FlatBreak(flat, n)
    case Child(_, n) => FlatBreak(flat, n)
    case Concat(a, b) => FlatBreak(flat, a) || FlatBreak(flat, b)
    case Choice(o1, o2) => if IsValid(flat, o2) then FlatBreak(flat, o2) else FlatBreak(flat, o1)
    case _ => false
  }

  function EntriesWidth(chunks: seq<(bool, Note)>): nat {
    if chunks == [] then 0 else EntriesWidth(chunks[..|chunks| - 1]) + LineWidth(chunks[|chunks| - 1].0, chunks[|chunks| - 1].1)
  }

  predicate EntriesBreak(chunks: seq<(bool, Note)>) {
    if chunks == [] then false else EntriesBreak(chunks[..|chunks| - 1]) || FlatBreak(chunks[|chunks| - 1].0, chunks[|chunks| - 1].1)
  }

  lemma EntriesPush(chunks: seq<(bool, Note)>, e: (bool, Note))
    ensures EntriesWidth(chunks + [e]) == EntriesWidth(chunks) + LineWidth(e.0, e.1)
    ensures EntriesBreak(chunks + [e]) == (EntriesBreak(chunks) || FlatBreak(e.0, e.1))
  {
    assert (chunks + [e])[..|chunks|] == chunks;
  }

  /** `FitsAll` agrees with the widths and flat newlines `fits` meets. */
  predicate FitsAgrees(remaining: nat, chunks: seq<(bool, Note)>) {
    FitsAll(remaining, chunks) == (!EntriesBreak(chunks) && EntriesWidth(chunks) <= remaining)
  }

  /** The one entry `fits` replaces a flat, indented, child or choice entry by. */
  function UnfoldOne(flat: bool, note: Note): (bool, Note)
    requires note.Flat? || note.Indent? || note.Child? || note.Choice?
  {
    match note
    case Flat(n) => (true, n)
    case Indent(_, n) => (flat, n)
    case Child(_, n) => (flat, n)
    case Choice(o1, o2) => (flat, if IsValid(flat, o2) then o2 else o1)
  }

  lemma FitsTextStep(remaining: nat, rest: seq<(bool, Note)>, flat: bool, note: Note)
    requires note.Literal? || note.Text?
    requires CP.TextLen(note) <= remaining ==> FitsAgrees(remaining - CP.TextLen(note), rest)
    ensures FitsAgrees(remaining, rest + [(flat, note)])
  {
    var chunks := rest + [(flat, note)];
    assert chunks[..|chunks| - 1] == rest;
    EntriesPush(rest, (flat, note));
  }

  lemma FitsSkipStep(remaining: nat, rest: seq<(bool, Note)>, flat: bool, note: Note)
    requires note.Empty? || note.Newline?
    requires FitsAgrees(remaining, rest)
    ensures FitsAgrees(remaining, rest + [(flat, note)])
  {
    var chunks := rest + [(flat, note)];
    assert chunks[..|chunks| - 1] == rest;
    EntriesPush(rest, (flat, note));
  }

  lemma FitsConcatStep(remaining: nat, rest: seq<(bool, Note)>, flat: bool, note: Note)
    requires note.Concat?
    requires FitsAgrees(remaining, rest + [(flat, note.right)] + [(flat, note.left)])
    ensures FitsAgrees(remaining, rest + [(flat, note)])
  {
    var chunks := rest + [(flat, note)];
    assert chunks[..|chunks| - 1] == rest;
    EntriesPush(rest, (flat, note));
    EntriesPush(rest, (flat, note.right));
    EntriesPush(rest + [(flat, note.right)], (flat, note.left));
  }

  lemma FitsUnfoldStep(remaining: nat, rest: seq<(bool, Note)>, flat: bool, note: Note)
    requires note.Flat? || note.Indent? || note.Child? || note.Choice?
    requires FitsAgrees(remaining, rest + [UnfoldOne(flat, note)])
    ensures FitsAgrees(remaining, rest + [(flat, note)])
  {
    var chunks := rest + [(flat, note)];
    assert chunks[..|chunks| - 1] == rest;
    assert FitsAll(remaining, chunks) == FitsAll(remaining, rest + [UnfoldOne(flat, note)]);
    EntriesPush(rest, (flat, note));
    EntriesPush(rest, UnfoldOne(flat, note));
  }

  /**
   * What `fits` decides: the chunks fit in `remaining` columns exactly when
   * `fits` meets no flat newline in them and the texts it meets are no
   * wider than `remaining`, all of them, across non-flat newlines too.
   */
  lemma {:induction false} FitsAllMeaning(remaining: nat, chunks: seq<(bool, Note)>)
    ensures FitsAll(remaining, chunks) == (!EntriesBreak(chunks) && EntriesWidth(chunks) <= remaining)
    decreases CP.Weight(chunks)
  {
    if chunks != [] {
      var (flat, note) := chunks[|chunks| - 1];
      var rest := chunks[..|chunks| - 1];
      assert chunks == rest + [(flat, note)];
      CP.WeightPush(rest, (flat, note));
      if note.Literal? || note.Text? {
        if CP.TextLen(note) <= remaining {
          FitsAllMeaning(remaining - CP.TextLen(note), rest);
        }
        FitsTextStep(remaining, rest, flat, note);
      } else if note.Empty? || note.Newline? {
        FitsAllMeaning(remaining, rest);
        FitsSkipStep(remaining, rest, flat, note);
      } else if note.Concat? {
        CP.WeightPush(rest, (flat, note.right));
        CP.WeightPush(rest + [(flat, note.right)], (flat, note.left));
        FitsAllMeaning(remaining, rest + [(flat, note.right)] + [(flat, note.left)]);
        FitsConcatStep(remaining, rest, flat, note);
      } else {
        CP.WeightPush(rest, UnfoldOne(flat, note));
        FitsAllMeaning(remaining, rest + [UnfoldOne(flat, note)]);
        FitsUnfoldStep(remaining, rest, flat, note);
      }
    }
  }

  /** `fits` fails at the first text that is wider than what is left. */
  lemma FitsAllMonotone(r1: nat, r2: nat, chunks: seq<(bool, Note)>)
    requires r1 <= r2 && FitsAll(r1, chunks)
    ensures FitsAll(r2, chunks)
  {
    FitsAllMeaning(r1, chunks);
    FitsAllMeaning(r2, chunks);
  }

  lemma {:induction false} EntriesAppend(a: seq<(bool, Note)>, b: seq<(bool, Note)>)
    ensures EntriesWidth(a + b) == EntriesWidth(a) + EntriesWidth(b)
    ensures EntriesBreak(a + b) == (EntriesBreak(a) || EntriesBreak(b))
    decreases |b|
  {
    if b == [] {
      assert a + b == a;
    } else {
      var init := b[..|b| - 1];
      assert a + b == (a + init) + [b[|b| - 1]];
      assert b == init + [b[|b| - 1]];
      EntriesAppend(a, init);
      EntriesPush(a + init, b[|b| - 1]);
      EntriesPush(init, b[|b| - 1]);
    }
  }

  /**
   * The order of the entries does not change what `fits` decides: placing
   * the option below the suffix, and so measuring it last, is harmless.
   */
  lemma FitsAllOrderFree(remaining: nat, a: seq<(bool, Note)>, b: seq<(bool, Note)>)
    ensures FitsAll(remaining, a + b) == FitsAll(remaining, b + a)
  {
    FitsAllMeaning(remaining, a + b);
    FitsAllMeaning(remaining, b + a);
    EntriesAppend(a, b);
    EntriesAppend(b, a);
  }

  /** A notation with no layout makes `fits` meet a flat newline. */
  lemma {:induction false} InvalidBreaks(flat: bool, note: Note)
    requires !IsValid(flat, note)
    ensures FlatBreak(flat, note)
    decreases note
  {
    match note {
      case Newline =>
      case Flat(n) => InvalidBreaks(true, n);
      case Indent(_, n) => InvalidBreaks(flat, n);
      case Child(_, n) => InvalidBreaks(flat, n);
      case Concat(a, b) =>
        if !IsValid(flat, a) {
          InvalidBreaks(flat, a);
        } else {
          InvalidBreaks(flat, b);
        }
      case Choice(o1, o2) => InvalidBreaks(flat, o1);
    }
  }

  lemma {:induction false} NoBreakAt(chunks: seq<(bool, Note)>, i: nat)
    requires i < |chunks| && !EntriesBreak(chunks)
    ensures !FlatBreak(chunks[i].0, chunks[i].1)
    decreases |chunks|
  {
    if i < |chunks| - 1 {
      NoBreakAt(chunks[..|chunks| - 1], i);
    }
  }

  /** Whatever `fits` accepts has a layout: every entry is valid. */
  lemma FitsAllValid(remaining: nat, chunks: seq<(bool, Note)>, i: nat)
    requires i < |chunks| && FitsAll(remaining, chunks)
    ensures IsValid(chunks[i].0, chunks[i].1)
  {
    FitsAllMeaning(remaining, chunks);
    NoBreakAt(chunks, i);
    if !IsValid(chunks[i].0, chunks[i].1) {
      InvalidBreaks(chunks[i].0, chunks[i].1);
    }
  }

  /** The entries `resolve_choice` hands to `fits` for the chunks after the choice. */
  function Entries(suffix: seq<Chunk>): (es: seq<(bool, Note)>)
    ensures |es| == |suffix|
    ensures forall i :: 0 <= i < |suffix| ==> es[i] == (suffix[i].indent.None?, suffix[i].note)
  {
    seq(|suffix|, i requires 0 <= i < |suffix| => (suffix[i].indent.None?, suffix[i].note))
  }

  /**
   * `resolve_choice`: the first option if it and the rest of the block fit
   * in what is left of the line, or if the second option has no layout;
   * otherwise the second option. The first option is the bottom entry.
   */
  function ResolveChoice(width: nat, prefixLen: nat, indent: Option<nat>, opt1: Note, opt2: Note, suffix: seq<Chunk>): (r: Note)
    ensures r == opt1 || r == opt2
    ensures !IsValid(indent.None?, opt2) ==> r == opt1
  {
    var flat := indent.None?;
    var remaining := if width >= prefixLen then width - prefixLen else 0;
    if FitsAll(remaining, [(flat, opt1)] + Entries(suffix)) || !IsValid(flat, opt2) then opt1 else opt2
  }

  /**
   * When the second option is valid, `resolve_choice` takes the first
   * exactly when it meets no flat newline in it or in the rest of the block
   * and their texts fit in the width left after the prefix.
   */
  lemma ResolveChoiceFits(width: nat, prefixLen: nat, indent: Option<nat>, opt1: Note, opt2: Note, suffix: seq<Chunk>)
    requires IsValid(indent.None?, opt2) && opt1 != opt2
    ensures ResolveChoice(width, prefixLen, indent, opt1, opt2, suffix) == opt1 <==>
      !FlatBreak(indent.None?, opt1) && !EntriesBreak(Entries(suffix)) &&
      LineWidth(indent.None?, opt1) + EntriesWidth(Entries(suffix)) <= (if width >= prefixLen then width - prefixLen else 0)
  {
    var flat := indent.None?;
    var remaining := if width >= prefixLen then width - prefixLen else 0;
    FitsAllMeaning(remaining, [(flat, opt1)] + Entries(suffix));
    EntriesAppend([(flat, opt1)], Entries(suffix));
    EntriesPush([], (flat, opt1));
    assert [] + [(flat, opt1)] == [(flat, opt1)];
  }

  /** Whenever either option has a layout, the option `resolve_choice` picks has one, though it never checks the first. */
  lemma ResolveChoiceValid(width: nat, prefixLen: nat, indent: Option<nat>, opt1: Note, opt2: Note, suffix: seq<Chunk>)
    requires IsValid(indent.None?, opt1) || IsValid(indent.None?, opt2)
    ensures IsValid(indent.None?, ResolveChoice(width, prefixLen, indent, opt1, opt2, suffix))
  {
    var flat := indent.None?;
    var remaining := if width >= prefixLen then width - prefixLen else 0;
    if FitsAll(remaining, [(flat, opt1)] + Entries(suffix)) {
      FitsAllValid(remaining, [(flat, opt1)] + Entries(suffix), 0);
    }
  }

  /** `fits`, popping the entries one at a time. */
  method Fits(remaining: nat, chunks: seq<(bool, Note)>) returns (b: bool)
    ensures b == FitsAll(remaining, chunks)
  {
    var room := remaining;
    var stack := chunks;
    b := true;
    while stack != []
      invariant FitsAll(room, stack) == FitsAll(remaining, chunks)
      decreases CP.Weight(stack)
    {
      var (flat, note) := stack[|stack| - 1];
      var rest := stack[..|stack| - 1];
      CP.WeightPush(rest, (flat, note));
      assert stack == rest + [(flat, note)];
      stack := rest;
      match note {
        case Empty =>
        case Literal(lit) =>
          if |lit| <= room {
            room := room - |lit|;
          } else {
            b := false;
            break;
          }
        case Text(text) =>
          if |text| <= room {
            room := room - |text|;
          } else {
            b := false;
            break;
          }
        case Newline =>
          if flat {
            b := false;
            break;
          }
        case Flat(n) => stack := stack + [(true, n)]; CP.WeightPush(rest, (true, n));
        case Indent(_, n) => stack := stack + [(flat, n)]; CP.WeightPush(rest, (flat, n));
        case Child(_, n) => stack := stack + [(flat, n)]; CP.WeightPush(rest, (flat, n));
        case Concat(l, r) =>
          stack := stack + [(flat, r)];
          stack := stack + [(flat, l)];
          CP.WeightPush(rest, (flat, r));
          CP.WeightPush(rest + [(flat, r)], (flat, l));
        case Choice(o1, o2) =>
          var valid := IsValid(flat, o2);
          if valid {
            stack := stack + [(flat, o2)];
            CP.WeightPush(rest, (flat, o2));
          } else {
            stack := stack + [(flat, o1)];
            CP.WeightPush(rest, (flat, o1));
          }
      }
    }
  }

  /** The total size of the chunks left in a run of blocks. */
  function TotalSize(bs: seq<Block>): nat {
    if bs == [] then 0 else TotalSize(bs[..|bs| - 1]) + CP.StackSize(bs[|bs| - 1].chunks)
  }

  lemma TotalSizePush(bs: seq<Block>, b: Block)
    ensures TotalSize(bs + [b]) == TotalSize(bs) + CP.StackSize(b.chunks)
  {
    assert (bs + [b])[..|bs|] == bs;
  }

  lemma {:induction false} StackSizePrefix(s: seq<Chunk>, n: nat)
    requires n <= |s|
    ensures CP.StackSize(s[..n]) <= CP.StackSize(s)
    decreases |s|
  {
    if n < |s| {
      StackSizePrefix(s[..|s| - 1], n);
      assert s[..|s| - 1][..n] == s[..n];
    } else {
      assert s[..n] == s;
    }
  }

  /** A chunk has a layout: its notation is valid in the flatness its indentation gives. */
  predicate ValidChunk(c: Chunk) {
    IsValid(c.indent.None?, c.note)
  }

  predicate AllValid(chunks: seq<Chunk>) {
    forall i :: 0 <= i < |chunks| ==> ValidChunk(chunks[i])
  }

  lemma AllValidPush(chunks: seq<Chunk>, c: Chunk)
    ensures AllValid(chunks + [c]) == (AllValid(chunks) && ValidChunk(c))
  {
    assert forall i :: 0 <= i < |chunks| ==> (chunks + [c])[i] == chunks[i];
    assert (chunks + [c])[|chunks|] == c;
  }

  lemma AllValidPrefix(chunks: seq<Chunk>, n: nat)
    requires AllValid(chunks) && n <= |chunks|
    ensures AllValid(chunks[..n])
  {
    assert forall i :: 0 <= i < n ==> chunks[..n][i] == chunks[i];
  }

  /** Every chunk in a run of blocks has a layout. */
  predicate BlocksValid(bs: seq<Block>) {
    forall i :: 0 <= i < |bs| ==> AllValid(bs[i].chunks)
  }

  /**
   * What the loop of `insert_chunk` keeps, besides what the lines stand
   * for: the blocks after the current one are only pushed onto, the new ones
   * are well formed, the chunks left in the blocks grow by no more than the
   * size of the stack, and valid chunks never make it panic.
   */
  predicate InsertKeeps(lines: Lines, stack: seq<Chunk>)
    requires Pieces(lines.block.chunks)
  {
    var r := InsertLoop(lines, stack);
    (AllValid(lines.block.chunks) && AllValid(stack) ==>
       r.Some? && AllValid(r.value.block.chunks) && (BlocksValid(lines.next) ==> BlocksValid(r.value.next))) &&
    (r.Some? ==>
      |lines.next| <= |r.value.next| && r.value.next[..|lines.next|] == lines.next &&
      (WfBlocks(lines.next) ==> WfBlocks(r.value.next)) &&
      TotalSize(r.value.next) + CP.StackSize(r.value.block.chunks) <=
        TotalSize(lines.next) + CP.StackSize(lines.block.chunks) + CP.StackSize(stack))
  }

  lemma InsertKeepsPiece(lines: Lines, c: Chunk, rest: seq<Chunk>)
    requires Pieces(lines.block.chunks) && Piece(c.note)
    requires InsertKeeps(Lines(lines.block.(chunks := lines.block.chunks + [c]), lines.next), rest)
    ensures InsertKeeps(lines, rest + [c])
  {
    var stack := rest + [c];
    assert stack[..|stack| - 1] == rest;
    var l := Lines(lines.block.(chunks := lines.block.chunks + [c]), lines.next);
    assert InsertLoop(lines, stack) == InsertLoop(l, rest);
    AllValidPush(lines.block.chunks, c);
    AllValidPush(rest, c);
    CP.StackSizePush(lines.block.chunks, c);
    CP.StackSizePush(rest, c);
  }

  lemma NewBlockKeeps(i: nat, chunks: seq<Chunk>)
    requires Pieces(chunks)
    ensures WfBlock(Collected(Block(i, [], 0, chunks)))
    ensures CP.StackSize(Collected(Block(i, [], 0, chunks)).chunks) <= CP.StackSize(chunks)
    ensures AllValid(chunks) ==> AllValid(Collected(Block(i, [], 0, chunks)).chunks)
  {
    var nb := Collected(Block(i, [], 0, chunks));
    CollectedWf(Block(i, [], 0, chunks));
    StackSizePrefix(chunks, |nb.chunks|);
    if AllValid(chunks) {
      AllValidPrefix(chunks, |nb.chunks|);
    }
  }

  lemma NextPushKeeps(next: seq<Block>, nb: Block, r: seq<Block>)
    requires |next| + 1 <= |r| && r[..|next| + 1] == next + [nb]
    ensures |next| <= |r| && r[..|next|] == next
  {
    assert r[..|next|] == r[..|next| + 1][..|next|];
  }

  lemma BlocksPush(bs: seq<Block>, b: Block)
    ensures WfBlocks(bs + [b]) == (WfBlocks(bs) && WfBlock(b))
    ensures BlocksValid(bs + [b]) == (BlocksValid(bs) && AllValid(b.chunks))
  {
    assert forall i :: 0 <= i < |bs| ==> (bs + [b])[i] == bs[i];
    assert (bs + [b])[|bs|] == b;
  }

  lemma InsertKeepsNewline(lines: Lines, c: Chunk, rest: seq<Chunk>)
    requires Pieces(lines.block.chunks) && c.note.Newline?
    requires c.indent.Some? ==> InsertKeeps(Lines(lines.block.(chunks := []), lines.next + [Collected(Block(c.indent.value, [], 0, lines.block.chunks))]), rest)
    ensures InsertKeeps(lines, rest + [c])
  {
    var stack := rest + [c];
    assert stack[..|stack| - 1] == rest;
    AllValidPush(rest, c);
    CP.StackSizePush(rest, c);
    if c.indent.Some? {
      var nb := Collected(Block(c.indent.value, [], 0, lines.block.chunks));
      var l := Lines(lines.block.(chunks := []), lines.next + [nb]);
      assert InsertLoop(lines, stack) == InsertLoop(l, rest);
      NewBlockKeeps(c.indent.value, lines.block.chunks);
      TotalSizePush(lines.next, nb);
      assert CP.StackSize([]) == 0;
      assert AllValid([]);
      if InsertLoop(l, rest).Some? {
        NextPushKeeps(lines.next, nb, InsertLoop(l, rest).value.next);
      }
      BlocksPush(lines.next, nb);
    } else {
      assert !ValidChunk(c);
    }
  }

  /** Unfolding a chunk with a layout gives chunks with layouts. */
  lemma UnfoldValid(c: Chunk)
    requires !CP.Atomic(c.note) && ValidChunk(c)
    ensures AllValid(CP.UnfoldBehind(c))
  {
  }

  lemma AllValidAppend(a: seq<Chunk>, b: seq<Chunk>)
    requires AllValid(a) && AllValid(b)
    ensures AllValid(a + b)
  {
    assert forall i :: |a| <= i < |a + b| ==> (a + b)[i] == b[i - |a|];
  }

  lemma InsertKeepsUnfold(lines: Lines, c: Chunk, rest: seq<Chunk>)
    requires Pieces(lines.block.chunks) && !CP.Atomic(c.note)
    requires InsertKeeps(lines, rest + CP.UnfoldBehind(c))
    ensures InsertKeeps(lines, rest + [c])
  {
    var stack := rest + [c];
    assert stack[..|stack| - 1] == rest;
    CP.BehindUnfold(rest, c);
    CP.StackSizePush(rest, c);
    assert InsertLoop(lines, stack) == InsertLoop(lines, rest + CP.UnfoldBehind(c));
    AllValidPush(rest, c);
    if AllValid(stack) {
      UnfoldValid(c);
      AllValidAppend(rest, CP.UnfoldBehind(c));
    }
  }

  /** See `InsertKeeps`. */
  lemma {:induction false} InsertLoopKeeps(lines: Lines, stack: seq<Chunk>)
    requires Pieces(lines.block.chunks)
    ensures InsertKeeps(lines, stack)
    decreases CP.StackSize(stack)
  {
    if stack == [] {
      assert lines.next[..|lines.next|] == lines.next;
    } else {
      var c := stack[|stack| - 1];
      var rest := stack[..|stack| - 1];
      var b := lines.block;
      assert stack == rest + [c];
      CP.StackSizePush(rest, c);
      if Piece(c.note) {
        InsertLoopKeeps(Lines(b.(chunks := b.chunks + [c]), lines.next), rest);
        InsertKeepsPiece(lines, c, rest);
      } else if c.note.Newline? {
        if c.indent.Some? {
          InsertLoopKeeps(Lines(b.(chunks := []), lines.next + [Collected(Block(c.indent.value, [], 0, b.chunks))]), rest);
        }
        InsertKeepsNewline(lines, c, rest);
      } else {
        CP.BehindUnfold(rest, c);
        InsertLoopKeeps(lines, rest + CP.UnfoldBehind(c));
        InsertKeepsUnfold(lines, c, rest);
      }
    }
  }

  lemma {:induction false} TotalSizePrefix(bs: seq<Block>, n: nat)
    requires n <= |bs|
    ensures TotalSize(bs[..n]) <= TotalSize(bs)
    decreases |bs|
  {
    if n < |bs| {
      TotalSizePrefix(bs[..|bs| - 1], n);
      assert bs[..|bs| - 1][..n] == bs[..n];
    } else {
      assert bs[..n] == bs;
    }
  }

  /**
   * What `insert_chunk` keeps: the current block stays well formed, with
   * the same indentation and its text only extended; the blocks after it are
   * only pushed onto, and the new ones are well formed; the chunks left grow
   * by no more than the inserted chunk's size; and a chunk with a layout,
   * inserted among chunks with layouts, never makes it panic.
   */
  lemma InsertKeepsAll(lines: Lines, c: Chunk)
    requires Pieces(lines.block.chunks) && lines.block.textLen == Text.SumLengths(lines.block.text)
    ensures AllValid(lines.block.chunks) && ValidChunk(c) ==>
      Insert(lines, c).Some? && AllValid(Insert(lines, c).value.block.chunks) &&
      (BlocksValid(lines.next) ==> BlocksValid(Insert(lines, c).value.next))
    ensures Insert(lines, c).Some? ==> InsertedWell(lines, c, Insert(lines, c).value)
  {
    InsertLoopKeeps(lines, [c]);
    CP.StackSizePush([], c);
    assert [] + [c] == [c];
    AllValidPush([], c);
    var r := InsertLoop(lines, [c]);
    if r.Some? {
      var l := r.value;
      CollectedWf(l.block);
      StackSizePrefix(l.block.chunks, |Collected(l.block).chunks|);
      if AllValid(l.block.chunks) {
        AllValidPrefix(l.block.chunks, |Collected(l.block).chunks|);
      }
    }
  }

  /** See `InsertKeepsAll`. */
  predicate InsertedWell(lines: Lines, c: Chunk, r: Lines) {
    WfBlock(r.block) && r.block.spaces == lines.block.spaces &&
    |lines.block.text| <= |r.block.text| && r.block.text[..|lines.block.text|] == lines.block.text &&
    |lines.next| <= |r.next| && r.next[..|lines.next|] == lines.next &&
    (WfBlocks(lines.next) ==> WfBlocks(r.next)) &&
    TotalSize(r.next) + CP.StackSize(r.block.chunks) <=
      TotalSize(lines.next) + CP.StackSize(lines.block.chunks) + CP.Size(c.note)
  }

  /**
   * The chunk `resolve_first_chunk` inserts in place of the first one: a
   * child's notation, or the option `resolve_choice` picks, measured from
   * the block's text onwards.
   */
  function Resolving(width: nat, b: Block): (d: Chunk)
    requires WfBlock(b) && b.chunks != []
    ensures d.indent == b.chunks[|b.chunks| - 1].indent
    ensures CP.Size(d.note) < CP.Size(b.chunks[|b.chunks| - 1].note)
    ensures b.chunks[|b.chunks| - 1].note.Child? ==> d.note == b.chunks[|b.chunks| - 1].note.body
    ensures b.chunks[|b.chunks| - 1].note.Choice? ==>
      d.note == b.chunks[|b.chunks| - 1].note.opt1 || d.note == b.chunks[|b.chunks| - 1].note.opt2
    ensures ValidChunk(b.chunks[|b.chunks| - 1]) ==> ValidChunk(d)
  {
    var c := b.chunks[|b.chunks| - 1];
    var rest := b.chunks[..|b.chunks| - 1];
    match c.note
    case Child(_, body) => C.Chunk(c.indent, body)
    case Choice(o1, o2) =>
      if IsValid(c.indent.None?, o1) || IsValid(c.indent.None?, o2) then
        ResolveChoiceValid(width, b.textLen, c.indent, o1, o2, rest);
        C.Chunk(c.indent, ResolveChoice(width, b.textLen, c.indent, o1, o2, rest))
      else
        C.Chunk(c.indent, ResolveChoice(width, b.textLen, c.indent, o1, o2, rest))
  }

  /** What `resolve_first_chunk` does: nothing on a block with no chunks, otherwise a new state or a panic. */
  datatype Resolution = NothingToResolve | Resolved(lines: Lines) | ResolvePanic

  /** `resolve_first_chunk`: pops the first chunk of the current block and inserts what it resolves to. */
  function ResolveFirst(width: nat, lines: Lines): (r: Resolution)
    requires WfBlock(lines.block)
    ensures r.NothingToResolve? <==> lines.block.chunks == []
  {
    var b := lines.block;
    if b.chunks == [] then NothingToResolve
    else
      PiecesPrefix(b.chunks, |b.chunks| - 1);
      match Insert(Lines(b.(chunks := b.chunks[..|b.chunks| - 1]), lines.next), Resolving(width, b))
      case None => ResolvePanic
      case Some(l) => Resolved(l)
  }

  /**
   * `resolve_first_chunk` keeps the current block well formed, with the same
   * indentation and its text only extended, only pushes onto the blocks
   * after it, and strictly shrinks what is left to resolve in them. On
   * chunks that all have layouts it never panics and keeps them so.
   */
  lemma ResolveFirstKeeps(width: nat, lines: Lines)
    requires WfBlock(lines.block)
    ensures ResolveFirst(width, lines).Resolved? ==>
      var r := ResolveFirst(width, lines).lines;
      WfBlock(r.block) && r.block.spaces == lines.block.spaces &&
      |lines.block.text| <= |r.block.text| && r.block.text[..|lines.block.text|] == lines.block.text &&
      |lines.next| <= |r.next| && r.next[..|lines.next|] == lines.next &&
      (WfBlocks(lines.next) ==> WfBlocks(r.next)) &&
      TotalSize(r.next) + CP.StackSize(r.block.chunks) < TotalSize(lines.next) + CP.StackSize(lines.block.chunks)
    ensures AllValid(lines.block.chunks) ==>
      !ResolveFirst(width, lines).ResolvePanic? &&
      (ResolveFirst(width, lines).Resolved? ==>
         AllValid(ResolveFirst(width, lines).lines.block.chunks) &&
         (BlocksValid(lines.next) ==> BlocksValid(ResolveFirst(width, lines).lines.next)))
  {
    var b := lines.block;
    if b.chunks != [] {
      var c := b.chunks[|b.chunks| - 1];
      var rest := b.chunks[..|b.chunks| - 1];
      PiecesPrefix(b.chunks, |b.chunks| - 1);
      var l := Lines(b.(chunks := rest), lines.next);
      var d := Resolving(width, b);
      assert ResolveFirst(width, lines) == (match Insert(l, d) case None => ResolvePanic case Some(x) => Resolved(x));
      InsertKeepsAll(l, d);
      assert b.chunks == rest + [c];
      CP.StackSizePush(rest, c);
      if AllValid(b.chunks) {
        AllValidPush(rest, c);
      }
    }
  }

  /**
   * `resolve_first_chunk` replaces the hole the first chunk leaves in what
   * the lines stand for by the atoms of what it resolves to: the child's
   * notation, or one of the choice's options.
   */
  lemma ResolveFirstView(width: nat, lines: Lines)
    requires WfBlock(lines.block) && lines.block.chunks != []
    ensures var b := lines.block;
      var c := b.chunks[|b.chunks| - 1];
      var rest := b.chunks[..|b.chunks| - 1];
      LinesView(lines) == Strs(b.text) + [Hole(c)] + ItemsOf(CP.Ahead(rest)) + NextView(lines.next) &&
      (ResolveFirst(width, lines).Resolved? ==>
         LinesView(ResolveFirst(width, lines).lines) ==
         Strs(b.text) + ItemsOf(CP.Atoms(Resolving(width, b))) + ItemsOf(CP.Ahead(rest)) + NextView(lines.next))
  {
    var b := lines.block;
    var c := b.chunks[|b.chunks| - 1];
    var rest := b.chunks[..|b.chunks| - 1];
    assert b.chunks == rest + [c];
    ItemsAheadPush(rest, c);
    Assoc(Strs(b.text), [Hole(c)], ItemsOf(CP.Ahead(rest)));
    PiecesPrefix(b.chunks, |b.chunks| - 1);
    var l := Lines(b.(chunks := rest), lines.next);
    InsertView(l, Resolving(width, b));
  }

  /** Where a `BlockSet` stands: the blocks before the current one, the current one, and the blocks after it (top: the nearest). */
  datatype Place = Place(prev: seq<Block>, block: Block, next: seq<Block>)

  function Reversed<T>(s: seq<T>): (r: seq<T>)
    ensures |r| == |s|
  {
    if s == [] then [] else [s[|s| - 1]] + Reversed(s[..|s| - 1])
  }

  /** The blocks of a place from the first line to the last. */
  function Order(p: Place): seq<Block> {
    p.prev + [p.block] + Reversed(p.next)
  }

  predicate WfPlace(p: Place) {
    WfBlock(p.block) && WfBlocks(p.prev) && WfBlocks(p.next)
  }

  /** Every chunk left in a place has a layout. */
  predicate PlaceValid(p: Place) {
    BlocksValid(p.prev) && AllValid(p.block.chunks) && BlocksValid(p.next)
  }

  function PlaceSize(p: Place): nat {
    TotalSize(p.prev) + CP.StackSize(p.block.chunks) + TotalSize(p.next)
  }

  /** `goto_next_block`: the next block becomes the current one, the current one the last of `prev`. */
  function NextBlock(p: Place): Option<Place> {
    if p.next == [] then None
    else Some(Place(p.prev + [p.block], p.next[|p.next| - 1], p.next[..|p.next| - 1]))
  }

  lemma ReversedPush<T>(init: seq<T>, top: T)
    ensures Reversed(init + [top]) == [top] + Reversed(init)
  {
    assert (init + [top])[..|init|] == init;
  }

  /** Moving to the next block keeps the blocks and their order. */
  lemma NextBlockOrder(p: Place)
    requires p.next != []
    ensures Order(NextBlock(p).value) == Order(p)
  {
    var top := p.next[|p.next| - 1];
    var init := p.next[..|p.next| - 1];
    assert p.next == init + [top];
    ReversedPush(init, top);
  }

  /** Moving to the next block keeps the blocks well formed and their chunks with layouts. */
  lemma NextBlockWf(p: Place)
    requires p.next != []
    ensures WfPlace(p) ==> WfPlace(NextBlock(p).value)
    ensures PlaceValid(p) ==> PlaceValid(NextBlock(p).value)
  {
    var top := p.next[|p.next| - 1];
    var init := p.next[..|p.next| - 1];
    assert p.next == init + [top];
    BlocksPush(p.prev, p.block);
    BlocksPush(init, top);
  }

  /** Moving to the next block keeps the chunks left the same. */
  lemma NextBlockSize(p: Place)
    requires p.next != []
    ensures PlaceSize(NextBlock(p).value) == PlaceSize(p)
  {
    var top := p.next[|p.next| - 1];
    var init := p.next[..|p.next| - 1];
    assert p.next == init + [top];
    TotalSizePush(p.prev, p.block);
    TotalSizePush(init, top);
  }

  /** `goto_last_block`: moves forward to the very last block. */
  function LastBlock(p: Place): (q: Place)
    ensures q.next == []
    decreases |p.next|
  {
    match NextBlock(p)
    case None => p
    case Some(p') => LastBlock(p')
  }

  /** Moving to the last block keeps the blocks and their order, and well-formedness. */
  lemma {:induction false} LastBlockKeeps(p: Place)
    ensures Order(LastBlock(p)) == Order(p)
    ensures |p.prev| <= |LastBlock(p).prev| && LastBlock(p).prev[..|p.prev|] == p.prev
    ensures WfPlace(p) ==> WfPlace(LastBlock(p))
    ensures PlaceValid(p) ==> PlaceValid(LastBlock(p))
    ensures PlaceSize(LastBlock(p)) == PlaceSize(p)
    decreases |p.next|
  {
    if p.next != [] {
      var q := NextBlock(p).value;
      NextBlockOrder(p);
      NextBlockWf(p);
      NextBlockSize(p);
      LastBlockKeeps(q);
      assert LastBlock(q).prev[..|p.prev|] == LastBlock(q).prev[..|q.prev|][..|p.prev|];
    } else {
      assert p.prev[..|p.prev|] == p.prev;
    }
  }

  /** Whether any chunk of a block passes the predicate. */
  predicate AnyMatch(pred: Note -> bool, chunks: seq<Chunk>) {
    exists i :: 0 <= i < |chunks| && pred(chunks[i].note)
  }

  /** `find_block`: moves forward to the first block with a chunk that passes the predicate, or to the last block. */
  function FindFrom(pred: Note -> bool, p: Place): Place
    decreases |p.next|
  {
    if AnyMatch(pred, p.block.chunks) then p
    else match NextBlock(p)
      case None => p
      case Some(p') => FindFrom(pred, p')
  }

  /**
   * Where `find_block` may stop, moving from `p` to `q`: at a block with a
   * chunk that passes the predicate, or at the last block, having moved
   * past blocks with no such chunk and kept the blocks and their order.
   */
  predicate StopsAtMatch(pred: Note -> bool, p: Place, q: Place) {
    Order(q) == Order(p) && (WfPlace(p) ==> WfPlace(q)) &&
    |p.prev| <= |q.prev| && q.prev[..|p.prev|] == p.prev &&
    (AnyMatch(pred, q.block.chunks) || q.next == []) &&
    forall i :: |p.prev| <= i < |q.prev| ==> !AnyMatch(pred, q.prev[i].chunks)
  }

  lemma StopsAtMatchHere(pred: Note -> bool, p: Place)
    requires AnyMatch(pred, p.block.chunks) || p.next == []
    ensures StopsAtMatch(pred, p, p)
  {
    assert p.prev[..|p.prev|] == p.prev;
  }

  lemma StopsAtMatchStep(pred: Note -> bool, p: Place, q: Place)
    requires !AnyMatch(pred, p.block.chunks) && p.next != []
    requires StopsAtMatch(pred, NextBlock(p).value, q)
    ensures StopsAtMatch(pred, p, q)
  {
    var p' := NextBlock(p).value;
    NextBlockOrder(p);
    NextBlockWf(p);
    assert q.prev[..|p.prev|] == q.prev[..|p'.prev|][..|p.prev|];
    assert q.prev[|p.prev|] == q.prev[..|p'.prev|][|p.prev|] == p.block;
  }

  /**
   * `find_block` stops at the first block with a chunk that passes the
   * predicate, or at the last block: it keeps the blocks and their order,
   * and none of the blocks it moves past has such a chunk.
   */
  lemma {:induction false} FindFromStops(pred: Note -> bool, p: Place)
    ensures StopsAtMatch(pred, p, FindFrom(pred, p))
    decreases |p.next|
  {
    if !AnyMatch(pred, p.block.chunks) && p.next != [] {
      FindFromStops(pred, NextBlock(p).value);
      StopsAtMatchStep(pred, p, FindFrom(pred, p));
    } else {
      StopsAtMatchHere(pred, p);
    }
  }

  /**
   * `take_block`: removes the current block, replacing it by the nearest
   * block in the given direction, or by an empty block (and reporting that
   * the blocks ran out) when there is none.
   */
  function Take(p: Place, up: bool): (Block, bool, Place) {
    var source := if up then p.prev else p.next;
    var (nb, out) := if source == [] then (EmptyBlock, true) else (source[|source| - 1], false);
    var rest := if source == [] then [] else source[..|source| - 1];
    (p.block, out, if up then Place(rest, nb, p.next) else Place(p.prev, nb, rest))
  }

  /**
   * `take_block` gives back the current block and, unless the blocks ran
   * out, removes it from the order and changes nothing else; when they ran
   * out an empty block is left in its place.
   */
  lemma TakeKeeps(p: Place, up: bool)
    ensures var (b, out, q) := Take(p, up);
      b == p.block && (out <==> (if up then p.prev else p.next) == []) &&
      (!out ==> Order(p) == p.prev + [b] + Order(q)[|p.prev|..] && Order(q)[..|p.prev|] == p.prev) &&
      (out ==> q.block == EmptyBlock && (if up then q.prev == [] && q.next == p.next else q.next == [] && q.prev == p.prev))
  {
    if up && p.prev != [] {
      TakeUpOrder(p);
    } else if !up && p.next != [] {
      TakeDownOrder(p);
    }
  }

  lemma TakeUpOrder(p: Place)
    requires p.prev != []
    ensures Order(p) == p.prev + [p.block] + Order(Take(p, true).2)[|p.prev|..]
    ensures Order(Take(p, true).2)[..|p.prev|] == p.prev
  {
    var q := Take(p, true).2;
    assert p.prev == q.prev + [q.block];
    assert Order(q) == p.prev + Reversed(p.next);
  }

  lemma TakeDownOrder(p: Place)
    requires p.next != []
    ensures Order(p) == p.prev + [p.block] + Order(Take(p, false).2)[|p.prev|..]
    ensures Order(Take(p, false).2)[..|p.prev|] == p.prev
  {
    var q := Take(p, false).2;
    var top := p.next[|p.next| - 1];
    var init := p.next[..|p.next| - 1];
    assert p.next == init + [top];
    ReversedPush(init, top);
    assert Order(q) == p.prev + Reversed(p.next);
  }

  /** The loop of the downward printer's `next`: resolves the current block's chunks until there are none; `None` on a panic. */
  function ResolveAll(width: nat, lines: Lines): Option<Lines>
    requires WfBlock(lines.block)
    decreases CP.StackSize(lines.block.chunks)
  {
    match ResolveFirst(width, lines)
    case NothingToResolve => Some(lines)
    case ResolvePanic => None
    case Resolved(l) =>
      ResolveFirstKeeps(width, lines);
      TotalSizePrefix(l.next, |lines.next|);
      ResolveAll(width, l)
  }

  /**
   * What the downward printer's loop gives: a block with nothing left to
   * resolve, the same indentation and its text only extended, with the
   * blocks after it only pushed onto.
   */
  predicate FullyResolved(lines: Lines, r: Lines) {
    r.block.chunks == [] && WfBlock(r.block) && r.block.spaces == lines.block.spaces &&
    |lines.block.text| <= |r.block.text| && r.block.text[..|lines.block.text|] == lines.block.text &&
    |lines.next| <= |r.next| && r.next[..|lines.next|] == lines.next &&
    (WfBlocks(lines.next) ==> WfBlocks(r.next))
  }

  lemma FullyResolvedStep(lines: Lines, l: Lines, r: Lines)
    requires WfBlock(r.block) && r.block.spaces == l.block.spaces && r.block.chunks == []
    requires l.block.spaces == lines.block.spaces
    requires |lines.block.text| <= |l.block.text| && l.block.text[..|lines.block.text|] == lines.block.text
    requires |lines.next| <= |l.next| && l.next[..|lines.next|] == lines.next
    requires WfBlocks(lines.next) ==> WfBlocks(l.next)
    requires |l.block.text| <= |r.block.text| && r.block.text[..|l.block.text|] == l.block.text
    requires |l.next| <= |r.next| && r.next[..|l.next|] == l.next
    requires WfBlocks(l.next) ==> WfBlocks(r.next)
    ensures FullyResolved(lines, r)
  {
    assert r.block.text[..|lines.block.text|] == r.block.text[..|l.block.text|][..|lines.block.text|];
    assert r.next[..|lines.next|] == r.next[..|l.next|][..|lines.next|];
  }

  /**
   * The downward printer's loop fully resolves the current block (see
   * `FullyResolved`), and on chunks that all have layouts it never panics
   * and keeps them so.
   */
  lemma {:induction false} ResolveAllKeeps(width: nat, lines: Lines)
    requires WfBlock(lines.block)
    ensures ResolveAll(width, lines).Some? ==> FullyResolved(lines, ResolveAll(width, lines).value)
    ensures AllValid(lines.block.chunks) && BlocksValid(lines.next) ==>
      ResolveAll(width, lines).Some? && BlocksValid(ResolveAll(width, lines).value.next)
    decreases CP.StackSize(lines.block.chunks)
  {
    ResolveFirstKeeps(width, lines);
    match ResolveFirst(width, lines) {
      case NothingToResolve =>
        assert lines.block.text[..|lines.block.text|] == lines.block.text;
        assert lines.next[..|lines.next|] == lines.next;
      case ResolvePanic =>
      case Resolved(l) =>
        TotalSizePrefix(l.next, |lines.next|);
        ResolveAllKeeps(width, l);
        if ResolveAll(width, l).Some? {
          FullyResolvedStep(lines, l, ResolveAll(width, l).value);
        }
    }
  }

  /**
   * The loop of the upward printer's `next`: resolves the first chunk of
   * the current block and moves to the last block, until the current block
   * has nothing left to resolve; `None` on a panic.
   */
  function UpResolve(width: nat, p: Place): Option<Place>
    requires WfPlace(p)
    decreases PlaceSize(p)
  {
    match ResolveFirst(width, Lines(p.block, p.next))
    case NothingToResolve => Some(p)
    case ResolvePanic => None
    case Resolved(l) =>
      ResolveFirstKeeps(width, Lines(p.block, p.next));
      var p' := Place(p.prev, l.block, l.next);
      LastBlockKeeps(p');
      UpResolve(width, LastBlock(p'))
  }

  /** One turn of the upward printer's loop: resolve, then move to the last block. */
  function UpTurn(width: nat, p: Place): Place
    requires WfPlace(p) && ResolveFirst(width, Lines(p.block, p.next)).Resolved?
  {
    var l := ResolveFirst(width, Lines(p.block, p.next)).lines;
    LastBlock(Place(p.prev, l.block, l.next))
  }

  lemma UpTurnKeeps(width: nat, p: Place)
    requires WfPlace(p) && ResolveFirst(width, Lines(p.block, p.next)).Resolved?
    ensures WfPlace(UpTurn(width, p)) && PlaceSize(UpTurn(width, p)) < PlaceSize(p)
    ensures UpResolve(width, p) == UpResolve(width, UpTurn(width, p))
  {
    var l := ResolveFirst(width, Lines(p.block, p.next)).lines;
    ResolveFirstKeeps(width, Lines(p.block, p.next));
    LastBlockKeeps(Place(p.prev, l.block, l.next));
  }

  /**
   * What the upward printer's loop gives: a current block with nothing left
   * to resolve, the blocks before the start only pushed onto, and, starting
   * at the last block, still at the last block.
   */
  predicate UpResolved(p: Place, q: Place) {
    q.block.chunks == [] && WfPlace(q) &&
    |p.prev| <= |q.prev| && q.prev[..|p.prev|] == p.prev &&
    (p.next == [] ==> q.next == [])
  }

  lemma UpResolvedStep(p: Place, p': Place, q: Place)
    requires p'.next == [] && |p.prev| <= |p'.prev| && p'.prev[..|p.prev|] == p.prev
    requires UpResolved(p', q)
    ensures UpResolved(p, q)
  {
    assert q.prev[..|p.prev|] == q.prev[..|p'.prev|][..|p.prev|];
  }

  /**
   * The upward printer's loop fully resolves the block it ends on (see
   * `UpResolved`), and on chunks that all have layouts it never panics and
   * keeps them so.
   */
  lemma {:induction false} UpResolveKeeps(width: nat, p: Place)
    requires WfPlace(p)
    ensures UpResolve(width, p).Some? ==> UpResolved(p, UpResolve(width, p).value)
    ensures PlaceValid(p) ==> UpResolve(width, p).Some? && PlaceValid(UpResolve(width, p).value)
    decreases PlaceSize(p)
  {
    ResolveFirstKeeps(width, Lines(p.block, p.next));
    match ResolveFirst(width, Lines(p.block, p.next)) {
      case NothingToResolve =>
        assert p.prev[..|p.prev|] == p.prev;
      case ResolvePanic =>
      case Resolved(l) =>
        var p' := Place(p.prev, l.block, l.next);
        LastBlockKeeps(p');
        UpResolveKeeps(width, LastBlock(p'));
        if UpResolve(width, LastBlock(p')).Some? {
          UpResolvedStep(p, LastBlock(p'), UpResolve(width, LastBlock(p')).value);
        }
    }
  }

  /** Whether any chunk passes the predicate, trying them from the bottom of the stack up. */
  method HasMatch(pred: Note -> bool, chunks: seq<Chunk>) returns (found: bool)
    ensures found == AnyMatch(pred, chunks)
  {
    found := false;
    var i := 0;
    while i < |chunks| && !found
      invariant 0 <= i <= |chunks|
      invariant !found ==> forall j :: 0 <= j < i ==> !pred(chunks[j].note)
      invariant found ==> AnyMatch(pred, chunks)
    {
      if pred(chunks[i].note) {
        found := true;
      }
      i := i + 1;
    }
  }

  /** One turn of the loop of `insert_chunk`: pops the top of the stack and places it. */
  method InsertStep(b: Block, nx: seq<Block>, stack: seq<Chunk>) returns (b': Block, nx': seq<Block>, stack': seq<Chunk>, panicked: bool)
    requires stack != [] && Pieces(b.chunks)
    ensures panicked <==> stack[|stack| - 1].note.Newline? && stack[|stack| - 1].indent.None?
    ensures panicked ==> InsertLoop(Lines(b, nx), stack).None?
    ensures !panicked ==>
      Pieces(b'.chunks) && CP.StackSize(stack') < CP.StackSize(stack) &&
      InsertLoop(Lines(b', nx'), stack') == InsertLoop(Lines(b, nx), stack)
  {
    var top := stack[|stack| - 1];
    var rest := stack[..|stack| - 1];
    CP.StackSizePush(rest, top);
    assert stack == rest + [top];
    b', nx', stack', panicked := b, nx, rest, false;
    match top.note {
      case Empty =>
        CP.BehindUnfold(rest, top);
        assert rest + CP.UnfoldBehind(top) == rest;
      case Literal(_) => b' := b.(chunks := b.chunks + [top]);
      case Text(_) => b' := b.(chunks := b.chunks + [top]);
      case Child(_, _) => b' := b.(chunks := b.chunks + [top]);
      case Choice(_, _) => b' := b.(chunks := b.chunks + [top]);
      case Newline =>
        if top.indent.None? {
          panicked := true;
        } else {
          var nb := CollectText(Block(top.indent.value, [], 0, b.chunks));
          nx' := nx + [nb];
          b' := b.(chunks := []);
        }
      case Indent(j, n) =>
        CP.BehindUnfold(rest, top);
        stack' := rest + [C.Chunk(CP.AddIndent(top.indent, j), n)];
      case Flat(n) =>
        CP.BehindUnfold(rest, top);
        stack' := rest + [C.Chunk(None, n)];
      case Concat(l, r) =>
        CP.BehindUnfold(rest, top);
        stack' := rest + [C.Chunk(top.indent, l)];
        stack' := stack' + [C.Chunk(top.indent, r)];
        assert stack' == rest + CP.UnfoldBehind(top);
    }
  }

  /** `BlockSet`: a document cut into lines, resolved on demand around the current block. */
  class BlockSet {
    const width: nat
    var prev: seq<Block>
    var block: Block
    var next: seq<Block>

    /** Where the set stands. */
    function At(): Place
      reads this
    {
      Place(prev, block, next)
    }

    ghost predicate Valid()
      reads this
    {
      WfPlace(At())
    }

    /** The set `BlockSet::new` starts from, before it inserts the root. */
    constructor(width: nat)
      ensures this.width == width && At() == Place([], EmptyBlock, []) && Valid()
    {
      this.width := width;
      prev, block, next := [], EmptyBlock, [];
    }

    /** `insert_chunk`: inserts a chunk between the current block's text and its chunks; panics on a flat newline. */
    method InsertChunk(c: Chunk) returns (panicked: bool)
      requires Pieces(block.chunks)
      modifies this
      ensures prev == old(prev)
      ensures panicked <==> Insert(Lines(old(block), old(next)), c).None?
      ensures !panicked ==> Lines(block, next) == Insert(Lines(old(block), old(next)), c).value
    {
      var b, nx, stack := block, next, [c];
      panicked := false;
      while stack != []
        invariant Pieces(b.chunks) && prev == old(prev)
        invariant InsertLoop(Lines(b, nx), stack) == InsertLoop(Lines(old(block), old(next)), [c])
        decreases CP.StackSize(stack)
      {
        b, nx, stack, panicked := InsertStep(b, nx, stack);
        if panicked {
          return;
        }
      }
      b := CollectText(b);
      block, next := b, nx;
    }

    /**
     * `resolve_first_chunk`: pops the current block's first chunk, a child
     * or a choice, and inserts the child's notation or the option
     * `resolve_choice` picks. Reports whether there was a chunk to resolve.
     */
    method ResolveFirstChunk() returns (resolved: bool, panicked: bool)
      requires Valid()
      modifies this
      ensures prev == old(prev)
      ensures resolved <==> old(block.chunks) != []
      ensures panicked <==> ResolveFirst(width, Lines(old(block), old(next))).ResolvePanic?
      ensures !resolved ==> block == old(block) && next == old(next)
      ensures ResolveFirst(width, Lines(old(block), old(next))).Resolved? ==>
        Lines(block, next) == ResolveFirst(width, Lines(old(block), old(next))).lines
      ensures !panicked ==> Valid()
    {
      if block.chunks == [] {
        return false, false;
      }
      var c := block.chunks[|block.chunks| - 1];
      ghost var b0 := block;
      PiecesPrefix(block.chunks, |block.chunks| - 1);
      block := block.(chunks := block.chunks[..|block.chunks| - 1]);
      var d: Chunk;
      match c.note {
        case Child(_, body) =>
          d := C.Chunk(c.indent, body);
        case Choice(o1, o2) =>
          var flat := c.indent.None?;
          var fit := Fits(if width >= block.textLen then width - block.textLen else 0, [(flat, o1)] + Entries(block.chunks));
          var note := if fit || !IsValid(flat, o2) then o1 else o2;
          d := C.Chunk(c.indent, note);
      }
      assert d == Resolving(width, b0);
      panicked := InsertChunk(d);
      resolved := true;
      ResolveFirstKeeps(width, Lines(b0, old(next)));
    }

    /** `goto_next_block`: moves forward one block; false when already at the last. */
    method GotoNextBlock() returns (moved: bool)
      modifies this
      ensures moved <==> old(next) != []
      ensures At() == (if moved then NextBlock(old(At())).value else old(At()))
    {
      if next == [] {
        return false;
      }
      prev, block, next := prev + [block], next[|next| - 1], next[..|next| - 1];
      moved := true;
    }

    /** `goto_last_block`: moves forward to the very last block. */
    method GotoLastBlock()
      modifies this
      ensures At() == LastBlock(old(At()))
    {
      var moved := true;
      while moved
        invariant LastBlock(At()) == LastBlock(old(At()))
        invariant !moved ==> next == []
        decreases |next|, moved
      {
        moved := GotoNextBlock();
      }
    }

    /** `find_block`: moves forward to the first block with a chunk that passes the predicate, or to the last block. */
    method FindBlock(pred: Note -> bool)
      modifies this
      ensures At() == FindFrom(pred, old(At()))
    {
      while true
        invariant FindFrom(pred, At()) == FindFrom(pred, old(At()))
        decreases |next|
      {
        var found := HasMatch(pred, block.chunks);
        if found {
          return;
        }
        var moved := GotoNextBlock();
        if !moved {
          return;
        }
      }
    }

    /**
     * `take_block`: removes and returns the current block, moving up or
     * down; reports whether there was no block left in that direction.
     */
    method TakeBlock(up: bool) returns (b: Block, allOut: bool)
      modifies this
      ensures (b, allOut, At()) == Take(old(At()), up)
    {
      var nb: Block;
      if up {
        if prev == [] {
          nb, allOut := EmptyBlock, true;
        } else {
          nb, allOut := prev[|prev| - 1], false;
          prev := prev[..|prev| - 1];
        }
      } else {
        if next == [] {
          nb, allOut := EmptyBlock, true;
        } else {
          nb, allOut := next[|next| - 1], false;
          next := next[..|next| - 1];
        }
      }
      b := block;
      block := nb;
    }
  }

  /** `BlockSet::new`: an empty set with the root inserted at indentation 0; panics as `insert_chunk` does. */
  method NewBlockSet(root: Note, width: nat) returns (bs: BlockSet, panicked: bool)
    ensures fresh(bs) && bs.width == width && bs.prev == []
    ensures panicked <==> Insert(Lines(EmptyBlock, []), C.Chunk(Some(0), root)).None?
    ensures !panicked ==> Lines(bs.block, bs.next) == Insert(Lines(EmptyBlock, []), C.Chunk(Some(0), root)).value && bs.Valid()
  {
    bs := new BlockSet(width);
    panicked := bs.InsertChunk(C.Chunk(Some(0), root));
    InsertKeepsAll(Lines(EmptyBlock, []), C.Chunk(Some(0), root));
  }

  /** A new block set stands for the whole document: the atoms of the root, and nothing more. */
  lemma NewBlockSetView(root: Note)
    ensures Insert(Lines(EmptyBlock, []), C.Chunk(Some(0), root)).Some? ==>
      LinesView(Insert(Lines(EmptyBlock, []), C.Chunk(Some(0), root)).value) == ItemsOf(CP.Atoms(C.Chunk(Some(0), root)))
  {
    InsertView(Lines(EmptyBlock, []), C.Chunk(Some(0), root));
    assert Strs([]) == [] && ItemsOf(CP.Ahead([])) == [] && NextView([]) == [];
  }

  /**
   * The downward printer's `next` from a place: resolve the current block
   * fully, then take it, moving down. Gives the line (or a panic), whether
   * the blocks ran out, and the new place.
   */
  function DownNext(width: nat, p: Place): (CP.Printed, bool, Place)
    requires WfBlock(p.block)
  {
    match ResolveAll(width, Lines(p.block, p.next))
    case None => (CP.PrintPanic, true, p)
    case Some(l) =>
      var (b, out, q) := Take(Place(p.prev, l.block, l.next), false);
      (CP.Printed(CP.LineContents(b.spaces, b.text)), out, q)
  }

  /** Taking a block, up or down, keeps the blocks well formed and their chunks with layouts. */
  lemma TakeWf(p: Place, up: bool)
    ensures WfPlace(p) ==> WfPlace(Take(p, up).2)
    ensures PlaceValid(p) ==> PlaceValid(Take(p, up).2)
  {
    var source := if up then p.prev else p.next;
    if source != [] {
      BlocksPush(source[..|source| - 1], source[|source| - 1]);
      assert source == source[..|source| - 1] + [source[|source| - 1]];
    }
  }

  /**
   * The downward printer prints the current line: its indentation, then
   * its text so far and what the rest of it resolves to. The blocks before
   * it are untouched, it never panics on chunks with layouts, and it keeps
   * them so.
   */
  lemma DownNextPrintsLine(width: nat, p: Place)
    requires WfPlace(p)
    ensures DownNext(width, p).0.Printed? ==>
      DownNext(width, p).0.line.spaces == p.block.spaces &&
      |p.block.text| <= |DownNext(width, p).0.line.contents| &&
      DownNext(width, p).0.line.contents[..|p.block.text|] == p.block.text &&
      DownNext(width, p).2.prev == p.prev && WfPlace(DownNext(width, p).2)
    ensures PlaceValid(p) ==> DownNext(width, p).0.Printed? && PlaceValid(DownNext(width, p).2)
  {
    ResolveAllKeeps(width, Lines(p.block, p.next));
    if ResolveAll(width, Lines(p.block, p.next)).Some? {
      var l := ResolveAll(width, Lines(p.block, p.next)).value;
      TakeWf(Place(p.prev, l.block, l.next), false);
    }
  }

  /**
   * The upward printer's `next` from a place: resolve the current block
   * fully, moving to the last block after each step, then take it, moving
   * up. Gives the line (or a panic), whether the blocks ran out, and the
   * new place.
   */
  function UpNext(width: nat, p: Place): (CP.Printed, bool, Place)
    requires WfPlace(p)
  {
    match UpResolve(width, p)
    case None => (CP.PrintPanic, true, p)
    case Some(p') =>
      var (b, out, q) := Take(p', true);
      (CP.Printed(CP.LineContents(b.spaces, b.text)), out, q)
  }

  /**
   * The upward printer prints the last line left: once it is fully
   * resolved no block is after it, it never panics on chunks with layouts,
   * and it keeps them so.
   */
  lemma UpNextPrintsLast(width: nat, p: Place)
    requires WfPlace(p) && p.next == []
    ensures UpNext(width, p).0.Printed? ==>
      UpResolve(width, p).Some? && UpResolve(width, p).value.block.chunks == [] &&
      UpNext(width, p).2.next == [] && WfPlace(UpNext(width, p).2)
    ensures PlaceValid(p) ==> UpNext(width, p).0.Printed? && PlaceValid(UpNext(width, p).2)
  {
    UpResolveKeeps(width, p);
    if UpResolve(width, p).Some? {
      TakeWf(UpResolve(width, p).value, true);
    }
  }

  /** `DownwardPrinter`: prints the lines from the current block down. */
  class DownwardPrinter {
    var done: bool
    const blocks: BlockSet

    constructor(done: bool, blocks: BlockSet)
      ensures this.done == done && this.blocks == blocks
    {
      this.done := done;
      this.blocks := blocks;
    }

    /** `next`: `None` once done; otherwise resolves the current block, takes it and prints it. */
    method Next() returns (r: CP.Printed)
      requires blocks.Valid()
      modifies this, blocks
      ensures old(done) ==> r == CP.AtEnd && done && blocks.At() == old(blocks.At())
      ensures !old(done) ==> r == DownNext(blocks.width, old(blocks.At())).0
      ensures !old(done) && r.Printed? ==>
        done == DownNext(blocks.width, old(blocks.At())).1 && blocks.At() == DownNext(blocks.width, old(blocks.At())).2
    {
      if done {
        return CP.AtEnd;
      }
      ghost var start := blocks.At();
      while true
        invariant blocks.Valid() && blocks.prev == start.prev && !done
        invariant ResolveAll(blocks.width, Lines(blocks.block, blocks.next)) == ResolveAll(blocks.width, Lines(start.block, start.next))
        decreases CP.StackSize(blocks.block.chunks)
      {
        ghost var before := Lines(blocks.block, blocks.next);
        var resolved, panicked := blocks.ResolveFirstChunk();
        if panicked {
          return CP.PrintPanic;
        }
        if !resolved {
          break;
        }
        ResolveFirstKeeps(blocks.width, before);
        TotalSizePrefix(blocks.next, |before.next|);
      }
      var b, atEnd := blocks.TakeBlock(false);
      done := atEnd;
      r := CP.Printed(CP.LineContents(b.spaces, b.text));
    }
  }

  /** `UpwardPrinter`: prints the lines from the last block up. */
  class UpwardPrinter {
    var done: bool
    const blocks: BlockSet

    constructor(done: bool, blocks: BlockSet)
      ensures this.done == done && this.blocks == blocks
    {
      this.done := done;
      this.blocks := blocks;
    }

    /** `next`: `None` once done; otherwise fully resolves the last block, takes it and prints it. */
    method Next() returns (r: CP.Printed)
      requires blocks.Valid()
      modifies this, blocks
      ensures old(done) ==> r == CP.AtEnd && done && blocks.At() == old(blocks.At())
      ensures !old(done) ==> r == UpNext(blocks.width, old(blocks.At())).0
      ensures !old(done) && r.Printed? ==>
        done == UpNext(blocks.width, old(blocks.At())).1 && blocks.At() == UpNext(blocks.width, old(blocks.At())).2
    {
      if done {
        return CP.AtEnd;
      }
      ghost var start := blocks.At();
      while true
        invariant blocks.Valid() && !done
        invariant UpResolve(blocks.width, blocks.At()) == UpResolve(blocks.width, start)
        decreases PlaceSize(blocks.At())
      {
        ghost var before := blocks.At();
        var resolved, panicked := blocks.ResolveFirstChunk();
        if panicked {
          return CP.PrintPanic;
        }
        if !resolved {
          break;
        }
        UpTurnKeeps(blocks.width, before);
        blocks.GotoLastBlock();
      }
      var b, atStart := blocks.TakeBlock(true);
      done := atStart;
      r := CP.Printed(CP.LineContents(b.spaces, b.text));
    }
  }
}
