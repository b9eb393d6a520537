/**
 * The focusing printer of `pretty_printing/pretty_print.rs`. The document is
 * cut into blocks, one per line: a block holds the segments already laid
 * out on its line (its indentation first) and the chunks still to lay out
 * (reversed: the leftmost chunk is last). A `Printer` keeps two stacks of
 * blocks around a focus point: `prev` (its last block is the line above)
 * and `next` (its last block is the line holding the focus). Expanding a
 * chunk cuts a new block at each newline, keeping the focus on the first
 * block (printing down) or on the last block (printing up) of what the
 * chunk stands for; printing a line resolves every child and choice of one
 * block.
 *
 * Notations are taken already consolidated: a `Delayed` notation is the id
 * of its document node and what its `eval` gives, a node or an error.
 * Styles and marks are not modelled.
 */
module FocusPrinter {
  import opened Wrappers
  import opened Outcomes
  import Text
  import Consolidated

  type PrintingError = Consolidated.PrintingError

  /** `Segment`: a piece of laid-out text, its width, and the document node it came from. */
  datatype Segment = Segment(str: string, width: nat, docId: nat)

  /** `Textual`: a text fragment of a notation and its width in columns. */
  datatype Textual = Textual(str: string, width: nat)

  /** The indentation a newline starts its line with: `IndentNode`s, innermost first; `NoIndent` is `None`. */
  datatype Indentation = NoIndent | IndentNode(segment: Segment, parent: Indentation)

  /** `ConsolidatedNotation`: what evaluating a delayed notation gives (`Text` is the source's `Textual`). */
  datatype Node =
    | Empty
    | Newline(indentation: Indentation)
    | Text(textual: Textual)
    | Concat(left: Delayed, right: Delayed)
    | Choice(opt1: Delayed, opt2: Delayed)
    | Child(index: nat, child: Delayed)

  /** `DelayedConsolidatedNotation`: the id of its document node, and what `eval` gives for it. */
  datatype Delayed = Delayed(id: nat, eval: Result<Node, PrintingError>)

  /** `Chunk`: an evaluated notation and the id of its document node. */
  datatype Chunk = Chunk(notation: Node, id: nat)

  /** `Chunk::new`: evaluates the notation. */
  function NewChunk(d: Delayed): Result<Chunk, PrintingError> {
    if d.eval.Err? then Err(d.eval.error) else Ok(Chunk(d.eval.value, d.id))
  }

  /** The number of nodes in a notation, counting a failed evaluation as one. */
  function NSize(n: Node): nat
    decreases n, 1
  {
    match n
    case Concat(l, r) => 1 + DSize(l) + DSize(r)
    case Choice(a, b) => 1 + DSize(a) + DSize(b)
    case Child(_, d) => 1 + DSize(d)
    case _ => 1
  }

  function DSize(d: Delayed): nat
    decreases d, 0
  {
    match d.eval
    case Ok(n) => NSize(n)
    case Err(_) => 1
  }

  function ChunksSize(cs: seq<Chunk>): nat {
    if cs == [] then 0 else ChunksSize(cs[..|cs| - 1]) + NSize(cs[|cs| - 1].notation)
  }

  lemma ChunksSizePush(cs: seq<Chunk>, c: Chunk)
    ensures ChunksSize(cs + [c]) == ChunksSize(cs) + NSize(c.notation)
  {
    assert (cs + [c])[..|cs|] == cs;
  }

  /** What a block's chunks may be: texts, and choices and children still to resolve. */
  predicate Atomic(n: Node) {
    n.Text? || n.Choice? || n.Child?
  }

  predicate AllAtomic(cs: seq<Chunk>) {
    forall i :: 0 <= i < |cs| ==> Atomic(cs[i].notation)
  }

  lemma AllAtomicPrefix(cs: seq<Chunk>, n: nat)
    requires AllAtomic(cs) && n <= |cs|
    ensures AllAtomic(cs[..n])
  {
  }

  function Widths(segs: seq<Segment>): nat {
    if segs == [] then 0 else Widths(segs[..|segs| - 1]) + segs[|segs| - 1].width
  }

  lemma WidthsPush(segs: seq<Segment>, s: Segment)
    ensures Widths(segs + [s]) == Widths(segs) + s.width
  {
    assert (segs + [s])[..|segs|] == segs;
  }

  /** The width of `a + b` is the width of `a` plus the width of `b`. */
  lemma {:induction false} WidthsAppend(a: seq<Segment>, b: seq<Segment>)
    ensures Widths(a + b) == Widths(a) + Widths(b)
    decreases |b|
  {
    if b == [] {
      assert a + b == a;
    } else {
      var init := b[..|b| - 1];
      assert a + b == (a + init) + [b[|b| - 1]];
      WidthsPush(a + init, b[|b| - 1]);
      WidthsAppend(a, init);
    }
  }

  /** The segments of an indentation, outermost (the root's) first. */
  function IndentSegments(ind: Indentation): seq<Segment> {
    match ind
    case NoIndent => []
    case IndentNode(s, parent) => IndentSegments(parent) + [s]
  }

  /**
   * `Block`: `segments` laid out so far (the rightmost last), their total
   * width `prefixLen`, and the `chunks` still to lay out (the leftmost last).
   */
  datatype Block = Block(segments: seq<Segment>, prefixLen: nat, chunks: seq<Chunk>)

  /**
   * The invariant of a block: `prefixLen` is the sum of the segments'
   * widths, and the chunks are only texts, choices and children.
   */
  predicate WfBlock(b: Block) {
    b.prefixLen == Widths(b.segments) && AllAtomic(b.chunks)
  }

  predicate WfBlocks(bs: seq<Block>) {
    forall i :: 0 <= i < |bs| ==> WfBlock(bs[i])
  }

  lemma WfBlocksPush(bs: seq<Block>, b: Block)
    requires WfBlocks(bs) && WfBlock(b)
    ensures WfBlocks(bs + [b])
  {
  }

  lemma WfBlocksPushIf(bs: seq<Block>, b: Block)
    ensures WfBlocks(bs) && WfBlock(b) ==> WfBlocks(bs + [b])
  {
  }

  lemma WfBlocksPrefix(bs: seq<Block>, n: nat)
    requires WfBlocks(bs) && n <= |bs|
    ensures WfBlocks(bs[..n])
  {
  }

  /** What `Block::new` builds: the indentation's segments, root first, and the given chunks. */
  function NewBlockOf(ind: Indentation, chunks: seq<Chunk>): (b: Block)
    ensures AllAtomic(chunks) ==> WfBlock(b)
  {
    Block(IndentSegments(ind), Widths(IndentSegments(ind)), chunks)
  }

  /** `Block::push_text`: the text becomes the rightmost segment. */
  function PushText(b: Block, id: nat, t: Textual): (r: Block)
    ensures r.chunks == b.chunks && |r.segments| == |b.segments| + 1 && r.segments[..|b.segments|] == b.segments
    ensures r.segments[|b.segments|..] == [Segment(t.str, t.width, id)]
    ensures WfBlock(b) ==> WfBlock(r)
  {
    WidthsPush(b.segments, Segment(t.str, t.width, id));
    Block(b.segments + [Segment(t.str, t.width, id)], b.prefixLen + t.width, b.chunks)
  }

  /** The blocks' weight: one per block and the size of each chunk; printing a line lowers it. */
  function Weight(bs: seq<Block>): nat {
    if bs == [] then 0 else Weight(bs[..|bs| - 1]) + 1 + ChunksSize(bs[|bs| - 1].chunks)
  }

  lemma WeightPush(bs: seq<Block>, b: Block)
    ensures Weight(bs + [b]) == Weight(bs) + 1 + ChunksSize(b.chunks)
  {
    assert (bs + [b])[..|bs|] == bs;
  }

  // ---------------------------------------------------------------------
  // What the blocks stand for
  // ---------------------------------------------------------------------

  /** What the printed document is made of: segments, line breaks, and choices and children still to resolve. */
  datatype Item = Seg(seg: Segment) | Break | Hole(chunk: Chunk)

  /** What a chunk of a block stands for: a text is the segment it will become. */
  function ItemOf(c: Chunk): seq<Item> {
    match c.notation
    case Text(t) => [Seg(Segment(t.str, t.width, c.id))]
    case Choice(_, _) => [Hole(c)]
    case Child(_, _) => [Hole(c)]
    case _ => []
  }

  function Segs(segs: seq<Segment>): seq<Item> {
    if segs == [] then [] else Segs(segs[..|segs| - 1]) + [Seg(segs[|segs| - 1])]
  }

  /** What a block's chunks stand for, leftmost (the last) first. */
  function ChunkItems(cs: seq<Chunk>): seq<Item> {
    if cs == [] then [] else ItemOf(cs[|cs| - 1]) + ChunkItems(cs[..|cs| - 1])
  }

  /** What chunks in document order stand for, leftmost (the first) first. */
  function RunItems(cs: seq<Chunk>): seq<Item> {
    if cs == [] then [] else RunItems(cs[..|cs| - 1]) + ItemOf(cs[|cs| - 1])
  }

  /** What a block stands for: its segments, then its chunks. */
  function BlockItems(b: Block): seq<Item> {
    Segs(b.segments) + ChunkItems(b.chunks)
  }

  /** What the blocks of `next` stand for, from the top of the stack down: each is a line break and its line. */
  function NextView(next: seq<Block>): seq<Item> {
    if next == [] then [] else [Break] + BlockItems(next[|next| - 1]) + NextView(next[..|next| - 1])
  }

  /** What the blocks of `prev` stand for, from the bottom of the stack up: each is its line and a line break. */
  function PrevView(prev: seq<Block>): seq<Item> {
    if prev == [] then [] else PrevView(prev[..|prev| - 1]) + BlockItems(prev[|prev| - 1]) + [Break]
  }

  /**
   * What a chunk stands for once every concatenation in it is expanded:
   * nothing for `Empty`, a line break and the indentation for `Newline`;
   * `None` when a part of a concatenation fails to evaluate.
   */
  function AtomsOf(c: Chunk): Option<seq<Item>>
    decreases c.notation
  {
    match c.notation
    case Empty => Some([])
    case Newline(ind) => Some([Break] + Segs(IndentSegments(ind)))
    case Concat(l, r) =>
      if l.eval.Err? || r.eval.Err? then None
      else
        var a := AtomsOf(Chunk(l.eval.value, l.id));
        var b := AtomsOf(Chunk(r.eval.value, r.id));
        if a.Some? && b.Some? then Some(a.value + b.value) else None
    case _ => Some(ItemOf(c))
  }

  /** What a stack whose top is the rightmost chunk stands for, leftmost (the bottom) first. */
  function StackItems(stack: seq<Chunk>): Option<seq<Item>> {
    if stack == [] then Some([])
    else
      var a := StackItems(stack[..|stack| - 1]);
      var b := AtomsOf(stack[|stack| - 1]);
      if a.Some? && b.Some? then Some(a.value + b.value) else None
  }

  /** What a stack whose top is the leftmost chunk stands for, leftmost (the top) first. */
  function StackItemsRev(stack: seq<Chunk>): Option<seq<Item>> {
    if stack == [] then Some([])
    else
      var a := AtomsOf(stack[|stack| - 1]);
      var b := StackItemsRev(stack[..|stack| - 1]);
      if a.Some? && b.Some? then Some(a.value + b.value) else None
  }

  function StackSize(stack: seq<Chunk>): nat {
    ChunksSize(stack)
  }

  lemma Assoc(x: seq<Item>, y: seq<Item>, z: seq<Item>)
    ensures x + (y + z) == x + y + z
  {
  }

  lemma Regroup(x: seq<Item>, i: seq<Item>, y: seq<Item>, z: seq<Item>)
    ensures x + i + y + z == x + (i + y) + z
  {
  }

  lemma StackItemsPush(stack: seq<Chunk>, c: Chunk)
    ensures StackItems(stack + [c]) ==
      if StackItems(stack).Some? && AtomsOf(c).Some? then Some(StackItems(stack).value + AtomsOf(c).value) else None
  {
    assert (stack + [c])[..|stack|] == stack;
  }

  lemma StackItemsRevPush(stack: seq<Chunk>, c: Chunk)
    ensures StackItemsRev(stack + [c]) ==
      if AtomsOf(c).Some? && StackItemsRev(stack).Some? then Some(AtomsOf(c).value + StackItemsRev(stack).value) else None
  {
    assert (stack + [c])[..|stack|] == stack;
  }

  lemma ChunkItemsPush(cs: seq<Chunk>, c: Chunk)
    ensures ChunkItems(cs + [c]) == ItemOf(c) + ChunkItems(cs)
  {
    assert (cs + [c])[..|cs|] == cs;
  }

  lemma RunItemsPush(cs: seq<Chunk>, c: Chunk)
    ensures RunItems(cs + [c]) == RunItems(cs) + ItemOf(c)
  {
    assert (cs + [c])[..|cs|] == cs;
  }

  lemma NextViewPush(next: seq<Block>, b: Block)
    ensures NextView(next + [b]) == [Break] + BlockItems(b) + NextView(next)
  {
    assert (next + [b])[..|next|] == next;
  }

  lemma PrevViewPush(prev: seq<Block>, b: Block)
    ensures PrevView(prev + [b]) == PrevView(prev) + BlockItems(b) + [Break]
  {
    assert (prev + [b])[..|prev|] == prev;
  }

  function Rev(s: seq<Chunk>): (r: seq<Chunk>)
    ensures |r| == |s|
  {
    if s == [] then [] else [s[|s| - 1]] + Rev(s[..|s| - 1])
  }

  /** A stack of chunks read from the top stands for what the same chunks stand for in order. */
  lemma {:induction false} ChunkItemsRev(cs: seq<Chunk>)
    ensures ChunkItems(Rev(cs)) == RunItems(cs)
    decreases |cs|
  {
    if cs != [] {
      var init := cs[..|cs| - 1];
      var last := cs[|cs| - 1];
      assert Rev(cs) == [last] + Rev(init);
      ChunkItemsAppend([last], Rev(init));
      assert [last] == [] + [last];
      ChunkItemsPush([], last);
      ChunkItemsRev(init);
    }
  }

  /** Chunks stacked on top of others stand for what comes before them. */
  lemma {:induction false} ChunkItemsAppend(a: seq<Chunk>, b: seq<Chunk>)
    ensures ChunkItems(a + b) == ChunkItems(b) + ChunkItems(a)
    decreases |b|
  {
    if b == [] {
      assert a + b == a;
    } else {
      var init := b[..|b| - 1];
      var last := b[|b| - 1];
      assert a + b == (a + init) + [last];
      ChunkItemsPush(a + init, last);
      ChunkItemsAppend(a, init);
      assert ChunkItems(b) == ItemOf(last) + ChunkItems(init);
      Assoc(ItemOf(last), ChunkItems(init), ChunkItems(a));
    }
  }

  lemma RevAtomic(cs: seq<Chunk>)
    requires AllAtomic(cs)
    ensures AllAtomic(Rev(cs)) && ChunksSize(Rev(cs)) == ChunksSize(cs)
    decreases |cs|
  {
    if cs != [] {
      var init := cs[..|cs| - 1];
      var last := cs[|cs| - 1];
      RevAtomic(init);
      assert Rev(cs) == [last] + Rev(init);
      ChunksSizeAppend([last], Rev(init));
      assert [last] == [] + [last];
      ChunksSizePush([], last);
    }
  }

  lemma {:induction false} ChunksSizeAppend(a: seq<Chunk>, b: seq<Chunk>)
    ensures ChunksSize(a + b) == ChunksSize(a) + ChunksSize(b)
    decreases |b|
  {
    if b == [] {
      assert a + b == a;
    } else {
      var init := b[..|b| - 1];
      var last := b[|b| - 1];
      assert a + b == (a + init) + [last];
      ChunksSizePush(a + init, last);
      ChunksSizeAppend(a, init);
    }
  }

  // ---------------------------------------------------------------------
  // expand_focusing_first_block
  // ---------------------------------------------------------------------

  /** What `expand_focusing_first_block` changes: the blocks after the focus and the focused block's chunks. */
  datatype Down = Down(next: seq<Block>, chunks: seq<Chunk>)

  /**
   * The loop of `expand_focusing_first_block` on its `stack` (top: the
   * rightmost part): `Empty` is dropped; texts, choices and children go
   * onto the focused block's chunks; a newline moves those chunks into a new
   * block pushed on `next`; a concatenation is split, both parts evaluated,
   * the left one first.
   */
  function ExpandFirstLoop(d: Down, stack: seq<Chunk>): Result<Down, PrintingError>
    decreases StackSize(stack)
  {
    if stack == [] then Ok(d)
    else
      var c := stack[|stack| - 1];
      var rest := stack[..|stack| - 1];
      assert stack == rest + [c];
      ChunksSizePush(rest, c);
      match c.notation
      case Empty => ExpandFirstLoop(d, rest)
      case Newline(ind) => ExpandFirstLoop(Down(d.next + [NewBlockOf(ind, d.chunks)], []), rest)
      case Concat(l, r) =>
        var lc :- NewChunk(l);
        var rc :- NewChunk(r);
        ChunksSizePush(rest, lc);
        ChunksSizePush(rest + [lc], rc);
        assert rest + [lc, rc] == rest + [lc] + [rc];
        ExpandFirstLoop(d, rest + [lc, rc])
      case _ => ExpandFirstLoop(Down(d.next, d.chunks + [c]), rest)
  }

  /** `expand_focusing_first_block`: expands one chunk. */
  function ExpandFirst(d: Down, c: Chunk): Result<Down, PrintingError> {
    ExpandFirstLoop(d, [c])
  }

  /**
   * What the loop of `expand_focusing_first_block` promises: it succeeds
   * exactly when every concatenation in the stack evaluates, and then what
   * the stack stands for is laid out at the focus, before the focused
   * block's chunks and the blocks after it.
   */
  predicate ExpandsFirst(d: Down, stack: seq<Chunk>) {
    var r := ExpandFirstLoop(d, stack);
    (r.Ok? <==> StackItems(stack).Some?) &&
    (r.Ok? ==> ChunkItems(r.value.chunks) + NextView(r.value.next) ==
               StackItems(stack).value + ChunkItems(d.chunks) + NextView(d.next))
  }

  /**
   * And it only pushes blocks on `next`, adds no more weight than the stack
   * had, and keeps the invariants: the focused block's chunks stay atomic
   * and the blocks it pushes are well formed.
   */
  predicate ExpandFirstKeeps(d: Down, stack: seq<Chunk>) {
    var r := ExpandFirstLoop(d, stack);
    r.Ok? ==>
      |d.next| <= |r.value.next| && r.value.next[..|d.next|] == d.next &&
      Weight(r.value.next) + ChunksSize(r.value.chunks) <= Weight(d.next) + ChunksSize(d.chunks) + StackSize(stack) &&
      (AllAtomic(d.chunks) && WfBlocks(d.next) ==> AllAtomic(r.value.chunks) && WfBlocks(r.value.next))
  }

  lemma NewlineRegroup(x: seq<Item>, s: seq<Item>, c: seq<Item>, n: seq<Item>)
    ensures x + [] + ([Break] + (s + c) + n) == x + ([Break] + s) + c + n
  {
  }

  lemma ExpandFirstEmptyStep(d: Down, c: Chunk, rest: seq<Chunk>)
    requires c.notation.Empty?
    requires ExpandsFirst(d, rest)
    ensures ExpandsFirst(d, rest + [c])
  {
    var stack := rest + [c];
    assert stack[..|stack| - 1] == rest;
    assert ExpandFirstLoop(d, stack) == ExpandFirstLoop(d, rest);
    StackItemsPush(rest, c);
    assert AtomsOf(c) == Some([]);
    if StackItems(rest).Some? {
      assert StackItems(rest).value + [] == StackItems(rest).value;
    }
    assert StackItems(stack) == StackItems(rest);
  }

  lemma ExpandFirstAtomStep(d: Down, c: Chunk, rest: seq<Chunk>)
    requires Atomic(c.notation)
    requires ExpandsFirst(Down(d.next, d.chunks + [c]), rest)
    ensures ExpandsFirst(d, rest + [c])
  {
    var stack := rest + [c];
    assert stack[..|stack| - 1] == rest;
    assert ExpandFirstLoop(d, stack) == ExpandFirstLoop(Down(d.next, d.chunks + [c]), rest);
    StackItemsPush(rest, c);
    ChunkItemsPush(d.chunks, c);
    assert AtomsOf(c) == Some(ItemOf(c));
    if StackItems(rest).Some? {
      Regroup(StackItems(rest).value, ItemOf(c), ChunkItems(d.chunks), NextView(d.next));
    }
  }

  lemma ExpandFirstNewlineStep(d: Down, c: Chunk, rest: seq<Chunk>)
    requires c.notation.Newline?
    requires ExpandsFirst(Down(d.next + [NewBlockOf(c.notation.indentation, d.chunks)], []), rest)
    ensures ExpandsFirst(d, rest + [c])
  {
    var stack := rest + [c];
    var nb := NewBlockOf(c.notation.indentation, d.chunks);
    assert stack[..|stack| - 1] == rest;
    assert ExpandFirstLoop(d, stack) == ExpandFirstLoop(Down(d.next + [nb], []), rest);
    StackItemsPush(rest, c);
    NextViewPush(d.next, nb);
    if StackItems(rest).Some? {
      NewlineRegroup(StackItems(rest).value, Segs(nb.segments), ChunkItems(d.chunks), NextView(d.next));
    }
  }

  /** Splitting a concatenation on the stack does not change what the stack stands for. */
  lemma StackConcat(rest: seq<Chunk>, c: Chunk, lc: Chunk, rc: Chunk)
    requires c.notation.Concat?
    requires NewChunk(c.notation.left) == Ok(lc) && NewChunk(c.notation.right) == Ok(rc)
    ensures StackItems(rest + [lc, rc]) == StackItems(rest + [c])
  {
    assert rest + [lc, rc] == rest + [lc] + [rc];
    StackItemsPush(rest + [lc], rc);
    StackItemsPush(rest, lc);
    StackItemsPush(rest, c);
    var a, x, y := StackItems(rest), AtomsOf(lc), AtomsOf(rc);
    if a.Some? && x.Some? && y.Some? {
      assert AtomsOf(c) == Some(x.value + y.value);
      Assoc(a.value, x.value, y.value);
    }
  }

  lemma ExpandFirstConcatStep(d: Down, c: Chunk, rest: seq<Chunk>)
    requires c.notation.Concat?
    requires NewChunk(c.notation.left).Ok? && NewChunk(c.notation.right).Ok? ==>
      ExpandsFirst(d, rest + [NewChunk(c.notation.left).value, NewChunk(c.notation.right).value])
    ensures ExpandsFirst(d, rest + [c])
  {
    var stack := rest + [c];
    assert stack[..|stack| - 1] == rest;
    var l, r := c.notation.left, c.notation.right;
    StackItemsPush(rest, c);
    if NewChunk(l).Ok? && NewChunk(r).Ok? {
      var lc, rc := NewChunk(l).value, NewChunk(r).value;
      assert ExpandFirstLoop(d, stack) == ExpandFirstLoop(d, rest + [lc, rc]);
      StackConcat(rest, c, lc, rc);
    } else {
      assert ExpandFirstLoop(d, stack).Err?;
      assert AtomsOf(c).None?;
    }
  }

  /**
   * The loop of `expand_focusing_first_block` succeeds exactly when every
   * concatenation evaluates, and lays what the stack stands for out at the
   * focus.
   */
  lemma {:induction false} ExpandFirstView(d: Down, stack: seq<Chunk>)
    ensures ExpandsFirst(d, stack)
    decreases StackSize(stack)
  {
    if stack == [] {
      assert ChunkItems(d.chunks) + NextView(d.next) == [] + ChunkItems(d.chunks) + NextView(d.next);
    } else {
      var c := stack[|stack| - 1];
      var rest := stack[..|stack| - 1];
      assert stack == rest + [c];
      ChunksSizePush(rest, c);
      match c.notation {
        case Empty =>
          ExpandFirstView(d, rest);
          ExpandFirstEmptyStep(d, c, rest);
        case Newline(ind) =>
          ExpandFirstView(Down(d.next + [NewBlockOf(ind, d.chunks)], []), rest);
          ExpandFirstNewlineStep(d, c, rest);
        case Concat(l, r) =>
          if NewChunk(l).Ok? && NewChunk(r).Ok? {
            var lc, rc := NewChunk(l).value, NewChunk(r).value;
            ChunksSizePush(rest, lc);
            ChunksSizePush(rest + [lc], rc);
            assert rest + [lc, rc] == rest + [lc] + [rc];
            ExpandFirstView(d, rest + [lc, rc]);
          }
          ExpandFirstConcatStep(d, c, rest);
        case _ =>
          ExpandFirstView(Down(d.next, d.chunks + [c]), rest);
          ExpandFirstAtomStep(d, c, rest);
      }
    }
  }

  lemma ExpandFirstKeepsEmpty(d: Down, c: Chunk, rest: seq<Chunk>)
    requires c.notation.Empty?
    requires ExpandFirstKeeps(d, rest)
    ensures ExpandFirstKeeps(d, rest + [c])
  {
    var stack := rest + [c];
    assert stack[..|stack| - 1] == rest;
    assert ExpandFirstLoop(d, stack) == ExpandFirstLoop(d, rest);
    ChunksSizePush(rest, c);
  }

  lemma ExpandFirstKeepsAtom(d: Down, c: Chunk, rest: seq<Chunk>)
    requires Atomic(c.notation)
    requires ExpandFirstKeeps(Down(d.next, d.chunks + [c]), rest)
    ensures ExpandFirstKeeps(d, rest + [c])
  {
    var stack := rest + [c];
    assert stack[..|stack| - 1] == rest;
    assert ExpandFirstLoop(d, stack) == ExpandFirstLoop(Down(d.next, d.chunks + [c]), rest);
    ChunksSizePush(rest, c);
    ChunksSizePush(d.chunks, c);
    assert AllAtomic(d.chunks) ==> AllAtomic(d.chunks + [c]);
  }

  lemma ExpandFirstKeepsNewline(d: Down, c: Chunk, rest: seq<Chunk>)
    requires c.notation.Newline?
    requires ExpandFirstKeeps(Down(d.next + [NewBlockOf(c.notation.indentation, d.chunks)], []), rest)
    ensures ExpandFirstKeeps(d, rest + [c])
  {
    var stack := rest + [c];
    var nb := NewBlockOf(c.notation.indentation, d.chunks);
    assert stack[..|stack| - 1] == rest;
    assert ExpandFirstLoop(d, stack) == ExpandFirstLoop(Down(d.next + [nb], []), rest);
    ChunksSizePush(rest, c);
    WeightPush(d.next, nb);
    if AllAtomic(d.chunks) && WfBlocks(d.next) {
      WfBlocksPush(d.next, nb);
    }
    var r := ExpandFirstLoop(d, stack);
    if r.Ok? {
      var n' := r.value.next;
      assert n'[..|d.next| + 1] == d.next + [nb];
      assert n'[..|d.next|] == (d.next + [nb])[..|d.next|];
    }
  }

  lemma ExpandFirstKeepsConcat(d: Down, c: Chunk, rest: seq<Chunk>)
    requires c.notation.Concat?
    requires NewChunk(c.notation.left).Ok? && NewChunk(c.notation.right).Ok? ==>
      ExpandFirstKeeps(d, rest + [NewChunk(c.notation.left).value, NewChunk(c.notation.right).value])
    ensures ExpandFirstKeeps(d, rest + [c])
  {
    var stack := rest + [c];
    assert stack[..|stack| - 1] == rest;
    var l, r := c.notation.left, c.notation.right;
    ChunksSizePush(rest, c);
    if NewChunk(l).Ok? && NewChunk(r).Ok? {
      var lc, rc := NewChunk(l).value, NewChunk(r).value;
      assert ExpandFirstLoop(d, stack) == ExpandFirstLoop(d, rest + [lc, rc]);
      ChunksSizePush(rest, lc);
      ChunksSizePush(rest + [lc], rc);
      assert rest + [lc, rc] == rest + [lc] + [rc];
    }
  }

  /**
   * The loop of `expand_focusing_first_block` keeps the blocks well formed,
   * only pushes blocks on `next`, and adds no more weight than the stack had.
   */
  lemma {:induction false} ExpandFirstKeepsAll(d: Down, stack: seq<Chunk>)
    ensures ExpandFirstKeeps(d, stack)
    decreases StackSize(stack)
  {
    if stack != [] {
      var c := stack[|stack| - 1];
      var rest := stack[..|stack| - 1];
      assert stack == rest + [c];
      ChunksSizePush(rest, c);
      match c.notation {
        case Empty =>
          ExpandFirstKeepsAll(d, rest);
          ExpandFirstKeepsEmpty(d, c, rest);
        case Newline(ind) =>
          var nb := NewBlockOf(ind, d.chunks);
          ExpandFirstKeepsAll(Down(d.next + [nb], []), rest);
          ExpandFirstKeepsNewline(d, c, rest);
        case Concat(l, r) =>
          if NewChunk(l).Ok? && NewChunk(r).Ok? {
            var lc, rc := NewChunk(l).value, NewChunk(r).value;
            ChunksSizePush(rest, lc);
            ChunksSizePush(rest + [lc], rc);
            assert rest + [lc, rc] == rest + [lc] + [rc];
            ExpandFirstKeepsAll(d, rest + [lc, rc]);
          }
          ExpandFirstKeepsConcat(d, c, rest);
        case _ =>
          ExpandFirstKeepsAll(Down(d.next, d.chunks + [c]), rest);
          ExpandFirstKeepsAtom(d, c, rest);
      }
    }
  }

  // ---------------------------------------------------------------------
  // expand_focusing_last_block
  // ---------------------------------------------------------------------

  /**
   * What `expand_focusing_last_block` changes: the blocks before the focus,
   * the focused block, and the chunks `run` laid out so far before the
   * focus (in document order).
   */
  datatype Up = Up(prev: seq<Block>, block: Block, run: seq<Chunk>)

  /**
   * The loop of `expand_focusing_last_block` on its `stack` (top: the
   * leftmost part): `Empty` is dropped; texts, choices and children are
   * appended to `run`; a newline turns the focused block's segments and
   * `run` into a block pushed on `prev`, and starts a new focused block
   * with the newline's indentation and the old block's chunks; a
   * concatenation is split, both parts evaluated, the right one first.
   */
  function ExpandLastLoop(u: Up, stack: seq<Chunk>): Result<Up, PrintingError>
    decreases StackSize(stack)
  {
    if stack == [] then Ok(u)
    else
      var c := stack[|stack| - 1];
      var rest := stack[..|stack| - 1];
      assert stack == rest + [c];
      ChunksSizePush(rest, c);
      match c.notation
      case Empty => ExpandLastLoop(u, rest)
      case Newline(ind) =>
        var pb := Block(u.block.segments, u.block.prefixLen, Rev(u.run));
        ExpandLastLoop(Up(u.prev + [pb], NewBlockOf(ind, u.block.chunks), []), rest)
      case Concat(l, r) =>
        var rc :- NewChunk(r);
        var lc :- NewChunk(l);
        ChunksSizePush(rest, rc);
        ChunksSizePush(rest + [rc], lc);
        assert rest + [rc, lc] == rest + [rc] + [lc];
        ExpandLastLoop(u, rest + [rc, lc])
      case _ => ExpandLastLoop(Up(u.prev, u.block, u.run + [c]), rest)
  }

  /** `expand_focusing_last_block`: expands one chunk; then `run`, leftmost last, goes on top of the block's chunks. */
  function ExpandLast(prev: seq<Block>, block: Block, c: Chunk): Result<(seq<Block>, Block), PrintingError> {
    var u :- ExpandLastLoop(Up(prev, block, []), [c]);
    Ok((u.prev, u.block.(chunks := u.block.chunks + Rev(u.run))))
  }

  /**
   * What the loop of `expand_focusing_last_block` promises: it succeeds
   * exactly when every concatenation in the stack evaluates, and then what
   * the stack stands for is laid out after `run`, before the block's chunks.
   */
  predicate ExpandsLast(u: Up, stack: seq<Chunk>) {
    var r := ExpandLastLoop(u, stack);
    (r.Ok? <==> StackItemsRev(stack).Some?) &&
    (r.Ok? ==>
      PrevView(r.value.prev) + Segs(r.value.block.segments) + RunItems(r.value.run) + ChunkItems(r.value.block.chunks) ==
      PrevView(u.prev) + Segs(u.block.segments) + RunItems(u.run) + StackItemsRev(stack).value + ChunkItems(u.block.chunks))
  }

  /**
   * And it only pushes blocks on `prev`, keeps the focused block's chunks,
   * adds no more to `run` than the stack's size, and keeps the blocks well
   * formed.
   */
  predicate ExpandLastKeeps(u: Up, stack: seq<Chunk>) {
    var r := ExpandLastLoop(u, stack);
    r.Ok? ==>
      |u.prev| <= |r.value.prev| && r.value.prev[..|u.prev|] == u.prev &&
      r.value.block.chunks == u.block.chunks &&
      ChunksSize(r.value.run) <= ChunksSize(u.run) + StackSize(stack) &&
      Weight(r.value.prev) + ChunksSize(r.value.run) <= Weight(u.prev) + ChunksSize(u.run) + StackSize(stack) &&
      (WfBlock(u.block) && WfBlocks(u.prev) && AllAtomic(u.run) ==>
        WfBlock(r.value.block) && WfBlocks(r.value.prev) && AllAtomic(r.value.run))
  }

  lemma UpRegroup(p: seq<Item>, s: seq<Item>, run: seq<Item>, i: seq<Item>, rest: seq<Item>, cs: seq<Item>)
    ensures p + s + (run + i) + rest + cs == p + s + run + (i + rest) + cs
  {
  }

  lemma UpNewlineRegroup(p: seq<Item>, s: seq<Item>, run: seq<Item>, ind: seq<Item>, rest: seq<Item>, cs: seq<Item>)
    ensures p + (s + run) + [Break] + ind + [] + rest + cs == p + s + run + ([Break] + ind + rest) + cs
  {
  }

  lemma ExpandLastEmptyStep(u: Up, c: Chunk, rest: seq<Chunk>)
    requires c.notation.Empty?
    requires ExpandsLast(u, rest)
    ensures ExpandsLast(u, rest + [c])
  {
    var stack := rest + [c];
    assert stack[..|stack| - 1] == rest;
    assert ExpandLastLoop(u, stack) == ExpandLastLoop(u, rest);
    StackItemsRevPush(rest, c);
    assert AtomsOf(c) == Some([]);
    if StackItemsRev(rest).Some? {
      assert [] + StackItemsRev(rest).value == StackItemsRev(rest).value;
    }
    assert StackItemsRev(stack) == StackItemsRev(rest);
  }

  lemma ExpandLastAtomStep(u: Up, c: Chunk, rest: seq<Chunk>)
    requires Atomic(c.notation)
    requires ExpandsLast(Up(u.prev, u.block, u.run + [c]), rest)
    ensures ExpandsLast(u, rest + [c])
  {
    var stack := rest + [c];
    assert stack[..|stack| - 1] == rest;
    assert ExpandLastLoop(u, stack) == ExpandLastLoop(Up(u.prev, u.block, u.run + [c]), rest);
    StackItemsRevPush(rest, c);
    RunItemsPush(u.run, c);
    assert AtomsOf(c) == Some(ItemOf(c));
    if StackItemsRev(rest).Some? {
      UpRegroup(PrevView(u.prev), Segs(u.block.segments), RunItems(u.run), ItemOf(c), StackItemsRev(rest).value, ChunkItems(u.block.chunks));
    }
  }

  lemma ExpandLastNewlineStep(u: Up, c: Chunk, rest: seq<Chunk>)
    requires c.notation.Newline?
    requires ExpandsLast(Up(u.prev + [Block(u.block.segments, u.block.prefixLen, Rev(u.run))], NewBlockOf(c.notation.indentation, u.block.chunks), []), rest)
    ensures ExpandsLast(u, rest + [c])
  {
    var stack := rest + [c];
    var pb := Block(u.block.segments, u.block.prefixLen, Rev(u.run));
    var nb := NewBlockOf(c.notation.indentation, u.block.chunks);
    assert stack[..|stack| - 1] == rest;
    assert ExpandLastLoop(u, stack) == ExpandLastLoop(Up(u.prev + [pb], nb, []), rest);
    StackItemsRevPush(rest, c);
    PrevViewPush(u.prev, pb);
    ChunkItemsRev(u.run);
    assert RunItems([]) == [];
    if StackItemsRev(rest).Some? {
      UpNewlineRegroup(PrevView(u.prev), Segs(u.block.segments), RunItems(u.run), Segs(nb.segments), StackItemsRev(rest).value, ChunkItems(u.block.chunks));
    }
  }

  /** Splitting a concatenation on the stack does not change what the stack stands for. */
  lemma StackRevConcat(rest: seq<Chunk>, c: Chunk, lc: Chunk, rc: Chunk)
    requires c.notation.Concat?
    requires NewChunk(c.notation.left) == Ok(lc) && NewChunk(c.notation.right) == Ok(rc)
    ensures StackItemsRev(rest + [rc, lc]) == StackItemsRev(rest + [c])
  {
    assert rest + [rc, lc] == rest + [rc] + [lc];
    StackItemsRevPush(rest + [rc], lc);
    StackItemsRevPush(rest, rc);
    StackItemsRevPush(rest, c);
    var a, x, y := StackItemsRev(rest), AtomsOf(lc), AtomsOf(rc);
    if a.Some? && x.Some? && y.Some? {
      assert AtomsOf(c) == Some(x.value + y.value);
      Assoc(x.value, y.value, a.value);
    }
  }

  lemma ExpandLastConcatStep(u: Up, c: Chunk, rest: seq<Chunk>)
    requires c.notation.Concat?
    requires NewChunk(c.notation.left).Ok? && NewChunk(c.notation.right).Ok? ==>
      ExpandsLast(u, rest + [NewChunk(c.notation.right).value, NewChunk(c.notation.left).value])
    ensures ExpandsLast(u, rest + [c])
  {
    var stack := rest + [c];
    assert stack[..|stack| - 1] == rest;
    var l, r := c.notation.left, c.notation.right;
    StackItemsRevPush(rest, c);
    if NewChunk(l).Ok? && NewChunk(r).Ok? {
      var lc, rc := NewChunk(l).value, NewChunk(r).value;
      assert ExpandLastLoop(u, stack) == ExpandLastLoop(u, rest + [rc, lc]);
      StackRevConcat(rest, c, lc, rc);
    } else {
      assert ExpandLastLoop(u, stack).Err?;
      assert AtomsOf(c).None?;
    }
  }

  /**
   * The loop of `expand_focusing_last_block` succeeds exactly when every
   * concatenation evaluates, and lays what the stack stands for out at the
   * focus.
   */
  lemma {:induction false} ExpandLastView(u: Up, stack: seq<Chunk>)
    ensures ExpandsLast(u, stack)
    decreases StackSize(stack)
  {
    if stack == [] {
      var x := PrevView(u.prev) + Segs(u.block.segments) + RunItems(u.run);
      assert x + [] == x;
    } else {
      var c := stack[|stack| - 1];
      var rest := stack[..|stack| - 1];
      assert stack == rest + [c];
      ChunksSizePush(rest, c);
      match c.notation {
        case Empty =>
          ExpandLastView(u, rest);
          ExpandLastEmptyStep(u, c, rest);
        case Newline(ind) =>
          var pb := Block(u.block.segments, u.block.prefixLen, Rev(u.run));
          ExpandLastView(Up(u.prev + [pb], NewBlockOf(ind, u.block.chunks), []), rest);
          ExpandLastNewlineStep(u, c, rest);
        case Concat(l, r) =>
          if NewChunk(l).Ok? && NewChunk(r).Ok? {
            var lc, rc := NewChunk(l).value, NewChunk(r).value;
            ChunksSizePush(rest, rc);
            ChunksSizePush(rest + [rc], lc);
            assert rest + [rc, lc] == rest + [rc] + [lc];
            ExpandLastView(u, rest + [rc, lc]);
          }
          ExpandLastConcatStep(u, c, rest);
        case _ =>
          ExpandLastView(Up(u.prev, u.block, u.run + [c]), rest);
          ExpandLastAtomStep(u, c, rest);
      }
    }
  }

  lemma ExpandLastKeepsEmpty(u: Up, c: Chunk, rest: seq<Chunk>)
    requires c.notation.Empty?
    requires ExpandLastKeeps(u, rest)
    ensures ExpandLastKeeps(u, rest + [c])
  {
    var stack := rest + [c];
    assert stack[..|stack| - 1] == rest;
    assert ExpandLastLoop(u, stack) == ExpandLastLoop(u, rest);
    ChunksSizePush(rest, c);
  }

  lemma ExpandLastKeepsAtom(u: Up, c: Chunk, rest: seq<Chunk>)
    requires Atomic(c.notation)
    requires ExpandLastKeeps(Up(u.prev, u.block, u.run + [c]), rest)
    ensures ExpandLastKeeps(u, rest + [c])
  {
    var stack := rest + [c];
    assert stack[..|stack| - 1] == rest;
    assert ExpandLastLoop(u, stack) == ExpandLastLoop(Up(u.prev, u.block, u.run + [c]), rest);
    ChunksSizePush(rest, c);
    ChunksSizePush(u.run, c);
    assert AllAtomic(u.run) ==> AllAtomic(u.run + [c]);
  }

  lemma ExpandLastKeepsNewline(u: Up, c: Chunk, rest: seq<Chunk>)
    requires c.notation.Newline?
    requires ExpandLastKeeps(Up(u.prev + [Block(u.block.segments, u.block.prefixLen, Rev(u.run))], NewBlockOf(c.notation.indentation, u.block.chunks), []), rest)
    ensures ExpandLastKeeps(u, rest + [c])
  {
    var stack := rest + [c];
    var pb := Block(u.block.segments, u.block.prefixLen, Rev(u.run));
    var nb := NewBlockOf(c.notation.indentation, u.block.chunks);
    assert stack[..|stack| - 1] == rest;
    assert ExpandLastLoop(u, stack) == ExpandLastLoop(Up(u.prev + [pb], nb, []), rest);
    ChunksSizePush(rest, c);
    WeightPush(u.prev, pb);
    RevSize(u.run);
    if WfBlock(u.block) && WfBlocks(u.prev) && AllAtomic(u.run) {
      RevAtomic(u.run);
      WfBlocksPush(u.prev, pb);
    }
    var r := ExpandLastLoop(u, stack);
    if r.Ok? {
      var p' := r.value.prev;
      assert p'[..|u.prev| + 1] == u.prev + [pb];
      assert p'[..|u.prev|] == (u.prev + [pb])[..|u.prev|];
    }
  }

  lemma ExpandLastKeepsConcat(u: Up, c: Chunk, rest: seq<Chunk>)
    requires c.notation.Concat?
    requires NewChunk(c.notation.left).Ok? && NewChunk(c.notation.right).Ok? ==>
      ExpandLastKeeps(u, rest + [NewChunk(c.notation.right).value, NewChunk(c.notation.left).value])
    ensures ExpandLastKeeps(u, rest + [c])
  {
    var stack := rest + [c];
    assert stack[..|stack| - 1] == rest;
    var l, r := c.notation.left, c.notation.right;
    ChunksSizePush(rest, c);
    if NewChunk(l).Ok? && NewChunk(r).Ok? {
      var lc, rc := NewChunk(l).value, NewChunk(r).value;
      assert ExpandLastLoop(u, stack) == ExpandLastLoop(u, rest + [rc, lc]);
      ChunksSizePush(rest, rc);
      ChunksSizePush(rest + [rc], lc);
      assert rest + [rc, lc] == rest + [rc] + [lc];
    }
  }

  /**
   * The loop of `expand_focusing_last_block` keeps the blocks well formed,
   * only pushes blocks on `prev`, keeps the focused block's chunks, and adds
   * no more to `run` than the stack's size.
   */
  lemma {:induction false} ExpandLastKeepsAll(u: Up, stack: seq<Chunk>)
    ensures ExpandLastKeeps(u, stack)
    decreases StackSize(stack)
  {
    if stack != [] {
      var c := stack[|stack| - 1];
      var rest := stack[..|stack| - 1];
      assert stack == rest + [c];
      ChunksSizePush(rest, c);
      match c.notation {
        case Empty =>
          ExpandLastKeepsAll(u, rest);
          ExpandLastKeepsEmpty(u, c, rest);
        case Newline(ind) =>
          var pb := Block(u.block.segments, u.block.prefixLen, Rev(u.run));
          var nb := NewBlockOf(ind, u.block.chunks);
          ExpandLastKeepsAll(Up(u.prev + [pb], nb, []), rest);
          ExpandLastKeepsNewline(u, c, rest);
        case Concat(l, r) =>
          if NewChunk(l).Ok? && NewChunk(r).Ok? {
            var lc, rc := NewChunk(l).value, NewChunk(r).value;
            ChunksSizePush(rest, rc);
            ChunksSizePush(rest + [rc], lc);
            assert rest + [rc, lc] == rest + [rc] + [lc];
            ExpandLastKeepsAll(u, rest + [rc, lc]);
          }
          ExpandLastKeepsConcat(u, c, rest);
        case _ =>
          ExpandLastKeepsAll(Up(u.prev, u.block, u.run + [c]), rest);
          ExpandLastKeepsAtom(u, c, rest);
      }
    }
  }

  // ---------------------------------------------------------------------
  // fits and choose
  // ---------------------------------------------------------------------

  function NotesSize(ns: seq<Node>): nat {
    if ns == [] then 0 else NotesSize(ns[..|ns| - 1]) + NSize(ns[|ns| - 1])
  }

  lemma NotesSizePush(ns: seq<Node>, n: Node)
    ensures NotesSize(ns + [n]) == NotesSize(ns) + NSize(n)
  {
    assert (ns + [n])[..|ns|] == ns;
  }

  /**
   * The loop of `fits`: takes the next notation from its stack `notations`
   * (top: the leftmost) or, once that is empty, from the chunks `next`
   * (leftmost last); the first line fits when the chunks run out.
   */
  function FitsLoop(remaining: nat, notations: seq<Node>, next: seq<Chunk>): Result<bool, PrintingError>
    decreases |next|, NotesSize(notations), 1
  {
    if notations != [] then FitsNote(remaining, notations[|notations| - 1], notations[..|notations| - 1], next)
    else if next == [] then Ok(true)
    else FitsNote(remaining, next[|next| - 1].notation, [], next[..|next| - 1])
  }

  /**
   * One step of `fits`: a text takes its width from `remaining` (the line
   * does not fit when it is too wide), a newline ends the line (it fits), a
   * child is replaced by its notation, a concatenation by its parts, and a
   * choice by its second option, each evaluated.
   */
  function FitsNote(remaining: nat, n: Node, notations: seq<Node>, next: seq<Chunk>): Result<bool, PrintingError>
    decreases |next|, NotesSize(notations) + NSize(n), 0
  {
    match n
    case Empty => FitsLoop(remaining, notations, next)
    case Text(t) => if t.width <= remaining then FitsLoop(remaining - t.width, notations, next) else Ok(false)
    case Newline(_) => Ok(true)
    case Child(_, d) =>
      var e :- d.eval;
      assert DSize(d) == NSize(e);
      NotesSizePush(notations, e);
      FitsLoop(remaining, notations + [e], next)
    case Concat(a, b) =>
      var eb :- b.eval;
      var ea :- a.eval;
      assert DSize(a) == NSize(ea) && DSize(b) == NSize(eb);
      NotesSizePush(notations, eb);
      NotesSizePush(notations + [eb], ea);
      assert notations + [eb, ea] == notations + [eb] + [ea];
      FitsLoop(remaining, notations + [eb, ea], next)
    case Choice(_, o2) =>
      var e :- o2.eval;
      assert DSize(o2) == NSize(e);
      NotesSizePush(notations, e);
      FitsLoop(remaining, notations + [e], next)
  }

  /** `fits`: whether the first line of `notation` followed by the chunks `next` fits in `width`. */
  function Fits(width: nat, notation: Node, next: seq<Chunk>): Result<bool, PrintingError> {
    FitsLoop(width, [notation], next)
  }

  /** What `fits` measures: text widths and newlines, along second options of choices. */
  datatype Mark = Wide(width: nat) | Nl

  /**
   * The marks of a notation as `fits` reads it, children by their notation
   * and choices by their second option; `None` when one of those fails to
   * evaluate.
   */
  function Marks(n: Node): Option<seq<Mark>>
    decreases n
  {
    match n
    case Empty => Some([])
    case Newline(_) => Some([Nl])
    case Text(t) => Some([Wide(t.width)])
    case Child(_, d) => if d.eval.Ok? then Marks(d.eval.value) else None
    case Concat(a, b) =>
      if a.eval.Err? || b.eval.Err? then None
      else
        var x := Marks(a.eval.value);
        var y := Marks(b.eval.value);
        if x.Some? && y.Some? then Some(x.value + y.value) else None
    case Choice(_, o2) => if o2.eval.Ok? then Marks(o2.eval.value) else None
  }

  /** The marks of `fits`' stack (top first), then of the chunks (leftmost first). */
  function LoopMarks(notations: seq<Node>, next: seq<Chunk>): Option<seq<Mark>>
    decreases |next|, |notations|
  {
    if notations != [] then
      var x := Marks(notations[|notations| - 1]);
      var y := LoopMarks(notations[..|notations| - 1], next);
      if x.Some? && y.Some? then Some(x.value + y.value) else None
    else if next == [] then Some([])
    else
      var x := Marks(next[|next| - 1].notation);
      var y := LoopMarks([], next[..|next| - 1]);
      if x.Some? && y.Some? then Some(x.value + y.value) else None
  }

  /** The width of the first line: the widths before the first newline. */
  function FirstLineWidth(ms: seq<Mark>): nat {
    if ms == [] then 0
    else match ms[0]
      case Nl => 0
      case Wide(w) => w + FirstLineWidth(ms[1..])
  }

  /** `fits` agrees with the first line's width wherever every notation it may read evaluates. */
  predicate FitsAgrees(remaining: nat, notations: seq<Node>, next: seq<Chunk>) {
    LoopMarks(notations, next).Some? ==>
      FitsLoop(remaining, notations, next) == Ok(FirstLineWidth(LoopMarks(notations, next).value) <= remaining)
  }

  lemma LoopMarksPush(notations: seq<Node>, n: Node, next: seq<Chunk>)
    ensures LoopMarks(notations + [n], next) ==
      if Marks(n).Some? && LoopMarks(notations, next).Some? then Some(Marks(n).value + LoopMarks(notations, next).value) else None
  {
    assert (notations + [n])[..|notations|] == notations;
  }

  lemma FirstLineWidthCons(m: Mark, ms: seq<Mark>)
    ensures FirstLineWidth([m] + ms) == if m.Nl? then 0 else m.width + FirstLineWidth(ms)
  {
    assert ([m] + ms)[1..] == ms;
  }

  lemma FitsTextStep(remaining: nat, t: Textual, notations: seq<Node>, next: seq<Chunk>)
    requires t.width <= remaining ==> FitsAgrees(remaining - t.width, notations, next)
    ensures FitsAgrees(remaining, notations + [Text(t)], next)
  {
    LoopMarksPush(notations, Text(t), next);
    assert FitsLoop(remaining, notations + [Text(t)], next) == FitsNote(remaining, Text(t), notations, next) by {
      assert (notations + [Text(t)])[..|notations|] == notations;
    }
    if LoopMarks(notations, next).Some? {
      FirstLineWidthCons(Wide(t.width), LoopMarks(notations, next).value);
    }
  }

  lemma FitsNewlineStep(remaining: nat, n: Node, notations: seq<Node>, next: seq<Chunk>)
    requires n.Newline?
    ensures FitsAgrees(remaining, notations + [n], next)
  {
    LoopMarksPush(notations, n, next);
    assert FitsLoop(remaining, notations + [n], next) == FitsNote(remaining, n, notations, next) by {
      assert (notations + [n])[..|notations|] == notations;
    }
    if LoopMarks(notations, next).Some? {
      FirstLineWidthCons(Nl, LoopMarks(notations, next).value);
    }
  }

  lemma FitsEmptyStep(remaining: nat, notations: seq<Node>, next: seq<Chunk>)
    requires FitsAgrees(remaining, notations, next)
    ensures FitsAgrees(remaining, notations + [Empty], next)
  {
    LoopMarksPush(notations, Empty, next);
    assert FitsLoop(remaining, notations + [Empty], next) == FitsNote(remaining, Empty, notations, next) by {
      assert (notations + [Empty])[..|notations|] == notations;
    }
    if LoopMarks(notations, next).Some? {
      assert [] + LoopMarks(notations, next).value == LoopMarks(notations, next).value;
    }
  }

  /** A child or a choice reads as the one notation `fits` replaces it with. */
  lemma FitsSwapStep(remaining: nat, n: Node, e: Node, notations: seq<Node>, next: seq<Chunk>)
    requires n.Child? || n.Choice?
    requires n.Child? ==> n.child.eval == Ok(e)
    requires n.Choice? ==> n.opt2.eval == Ok(e)
    requires FitsAgrees(remaining, notations + [e], next)
    ensures FitsAgrees(remaining, notations + [n], next)
  {
    LoopMarksPush(notations, n, next);
    LoopMarksPush(notations, e, next);
    assert FitsLoop(remaining, notations + [n], next) == FitsNote(remaining, n, notations, next) by {
      assert (notations + [n])[..|notations|] == notations;
    }
    assert Marks(n) == Marks(e);
  }

  lemma FitsConcatStep(remaining: nat, n: Node, ea: Node, eb: Node, notations: seq<Node>, next: seq<Chunk>)
    requires n.Concat? && n.left.eval == Ok(ea) && n.right.eval == Ok(eb)
    requires FitsAgrees(remaining, notations + [eb, ea], next)
    ensures FitsAgrees(remaining, notations + [n], next)
  {
    LoopMarksPush(notations, n, next);
    assert notations + [eb, ea] == notations + [eb] + [ea];
    LoopMarksPush(notations + [eb], ea, next);
    LoopMarksPush(notations, eb, next);
    assert FitsLoop(remaining, notations + [n], next) == FitsNote(remaining, n, notations, next) by {
      assert (notations + [n])[..|notations|] == notations;
    }
    var x, y, z := Marks(ea), Marks(eb), LoopMarks(notations, next);
    if x.Some? && y.Some? && z.Some? {
      assert Marks(n) == Some(x.value + y.value);
      assert x.value + (y.value + z.value) == x.value + y.value + z.value;
    }
  }

  lemma FitsNoteStep(remaining: nat, n: Node, notations: seq<Node>, next: seq<Chunk>)
    requires n.Empty? ==> FitsAgrees(remaining, notations, next)
    requires n.Text? && n.textual.width <= remaining ==> FitsAgrees(remaining - n.textual.width, notations, next)
    requires n.Child? && n.child.eval.Ok? ==> FitsAgrees(remaining, notations + [n.child.eval.value], next)
    requires n.Choice? && n.opt2.eval.Ok? ==> FitsAgrees(remaining, notations + [n.opt2.eval.value], next)
    requires n.Concat? && n.left.eval.Ok? && n.right.eval.Ok? ==>
      FitsAgrees(remaining, notations + [n.right.eval.value, n.left.eval.value], next)
    ensures FitsAgrees(remaining, notations + [n], next)
  {
    match n {
      case Empty => FitsEmptyStep(remaining, notations, next);
      case Text(t) => FitsTextStep(remaining, t, notations, next);
      case Newline(_) => FitsNewlineStep(remaining, n, notations, next);
      case Child(_, d) =>
        if d.eval.Ok? {
          FitsSwapStep(remaining, n, d.eval.value, notations, next);
        } else {
          LoopMarksPush(notations, n, next);
        }
      case Choice(_, o2) =>
        if o2.eval.Ok? {
          FitsSwapStep(remaining, n, o2.eval.value, notations, next);
        } else {
          LoopMarksPush(notations, n, next);
        }
      case Concat(a, b) =>
        if a.eval.Ok? && b.eval.Ok? {
          FitsConcatStep(remaining, n, a.eval.value, b.eval.value, notations, next);
        } else {
          LoopMarksPush(notations, n, next);
        }
    }
  }

  /** Taking the leftmost chunk onto the empty stack changes nothing `fits` reads. */
  lemma FitsChunkStep(remaining: nat, next: seq<Chunk>)
    requires next != []
    requires FitsAgrees(remaining, [next[|next| - 1].notation], next[..|next| - 1])
    ensures FitsAgrees(remaining, [], next)
  {
    var n := next[|next| - 1].notation;
    var init := next[..|next| - 1];
    assert [n] == [] + [n];
    LoopMarksPush([], n, init);
    assert FitsLoop(remaining, [n], init) == FitsNote(remaining, n, [], init);
  }

  /**
   * `fits` holds exactly when the first line, read with every choice's
   * second option, is no wider than `remaining`, wherever what it reads
   * evaluates.
   */
  lemma {:induction false} FitsMeaning(remaining: nat, notations: seq<Node>, next: seq<Chunk>)
    ensures FitsAgrees(remaining, notations, next)
    decreases |next|, NotesSize(notations)
  {
    if notations != [] {
      var n := notations[|notations| - 1];
      var init := notations[..|notations| - 1];
      assert notations == init + [n];
      NotesSizePush(init, n);
      match n {
        case Empty => FitsMeaning(remaining, init, next);
        case Text(t) =>
          if t.width <= remaining {
            FitsMeaning(remaining - t.width, init, next);
          }
        case Newline(_) =>
        case Child(_, d) =>
          if d.eval.Ok? {
            NotesSizePush(init, d.eval.value);
            FitsMeaning(remaining, init + [d.eval.value], next);
          }
        case Choice(_, o2) =>
          if o2.eval.Ok? {
            NotesSizePush(init, o2.eval.value);
            FitsMeaning(remaining, init + [o2.eval.value], next);
          }
        case Concat(a, b) =>
          if a.eval.Ok? && b.eval.Ok? {
            var ea, eb := a.eval.value, b.eval.value;
            NotesSizePush(init, eb);
            NotesSizePush(init + [eb], ea);
            assert init + [eb, ea] == init + [eb] + [ea];
            FitsMeaning(remaining, init + [eb, ea], next);
          }
      }
      FitsNoteStep(remaining, n, init, next);
    } else if next != [] {
      var n := next[|next| - 1].notation;
      FitsMeaning(remaining, [n], next[..|next| - 1]);
      FitsChunkStep(remaining, next);
    }
  }

  /**
   * `choose` (of `Printer`): evaluates the first option, then picks it when
   * the block's prefix leaves room and the first line fits in the rest of
   * the width; otherwise the second option.
   */
  function Choose(width: nat, b: Block, opt1: Delayed, opt2: Delayed): Result<Delayed, PrintingError> {
    var e1 :- opt1.eval;
    if width >= b.prefixLen then
      var f :- Fits(width - b.prefixLen, e1, b.chunks);
      Ok(if f then opt1 else opt2)
    else Ok(opt2)
  }

  /**
   * `choose` gives one of the options, or the error of evaluating the first;
   * and, where what `fits` reads evaluates, it picks the first option exactly
   * when the block's prefix, the first option and the chunks after it fit on
   * one line of `width`, reading later choices by their second option.
   */
  lemma ChooseMeaning(width: nat, b: Block, opt1: Delayed, opt2: Delayed)
    ensures Choose(width, b, opt1, opt2).Ok? ==> Choose(width, b, opt1, opt2).value in {opt1, opt2}
    ensures opt1.eval.Err? ==> Choose(width, b, opt1, opt2) == Err(opt1.eval.error)
    ensures opt1.eval.Ok? && LoopMarks([opt1.eval.value], b.chunks).Some? ==>
      Choose(width, b, opt1, opt2) ==
        Ok(if b.prefixLen + FirstLineWidth(LoopMarks([opt1.eval.value], b.chunks).value) <= width then opt1 else opt2)
  {
    if opt1.eval.Ok? && width >= b.prefixLen {
      FitsMeaning(width - b.prefixLen, [opt1.eval.value], b.chunks);
    }
  }

  // ---------------------------------------------------------------------
  // print_next_line and print_prev_line
  // ---------------------------------------------------------------------

  /** A block and the stack of blocks beside it, as resolving its chunks leaves them. */
  datatype Resolved = Resolved(blocks: seq<Block>, block: Block)

  /**
   * What takes the place of a block's leftmost chunk when it is a child or
   * a choice: the child's notation, or the option `choose` picks given the
   * chunks after it.
   */
  function Picked(width: nat, b: Block): Result<Delayed, PrintingError>
    requires b.chunks != []
    requires b.chunks[|b.chunks| - 1].notation.Child? || b.chunks[|b.chunks| - 1].notation.Choice?
  {
    var c := b.chunks[|b.chunks| - 1];
    match c.notation
    case Child(_, d) => Ok(d)
    case Choice(o1, o2) => Choose(width, b.(chunks := b.chunks[..|b.chunks| - 1]), o1, o2)
  }

  lemma PickedSize(width: nat, b: Block)
    requires b.chunks != []
    requires b.chunks[|b.chunks| - 1].notation.Child? || b.chunks[|b.chunks| - 1].notation.Choice?
    ensures Picked(width, b).Ok? ==> DSize(Picked(width, b).value) < NSize(b.chunks[|b.chunks| - 1].notation)
  {
    var c := b.chunks[|b.chunks| - 1];
    if c.notation.Choice? {
      ChooseMeaning(width, b.(chunks := b.chunks[..|b.chunks| - 1]), c.notation.opt1, c.notation.opt2);
    }
  }

  /**
   * `self.expand_focusing_first_block(&mut block, Chunk::new(note)?)?`: the
   * notation is evaluated and expanded at the block's focus.
   */
  function DownExpand(next: seq<Block>, b: Block, d: Delayed): (r: Outcome<Resolved, PrintingError>)
    ensures r.Done? ==> |next| <= |r.value.blocks| && r.value.blocks[..|next|] == next
    ensures r.Done? ==> r.value.block.segments == b.segments && r.value.block.prefixLen == b.prefixLen
    ensures r.Done? ==> Weight(r.value.blocks) + ChunksSize(r.value.block.chunks) <= Weight(next) + ChunksSize(b.chunks) + DSize(d)
    ensures r.Done? && WfBlock(b) && WfBlocks(next) ==> WfBlock(r.value.block) && WfBlocks(r.value.blocks)
    ensures !r.Panic?
  {
    match NewChunk(d)
    case Err(e) => Fail(e)
    case Ok(ch) =>
      ExpandFirstKeepsAll(Down(next, b.chunks), [ch]);
      assert [ch] == [] + [ch];
      ChunksSizePush([], ch);
      match ExpandFirst(Down(next, b.chunks), ch)
      case Err(e) => Fail(e)
      case Ok(x) => Done(Resolved(x.next, b.(chunks := x.chunks)))
  }

  /**
   * One turn of the loop of `print_next_line`: the block's leftmost chunk is
   * taken off; a text becomes the rightmost segment, a child or a choice is
   * replaced by what `Picked` gives, expanded at the focus; anything else is
   * a bug (a panic).
   */
  function DownStep(width: nat, next: seq<Block>, b: Block): (r: Outcome<Resolved, PrintingError>)
    requires b.chunks != []
    ensures r.Done? ==> |next| <= |r.value.blocks| && r.value.blocks[..|next|] == next
    ensures r.Done? ==> |b.segments| <= |r.value.block.segments| && r.value.block.segments[..|b.segments|] == b.segments
    ensures r.Done? ==> Weight(r.value.blocks) + ChunksSize(r.value.block.chunks) < Weight(next) + ChunksSize(b.chunks)
    ensures WfBlock(b) && WfBlocks(next) ==> !r.Panic? && (r.Done? ==> WfBlock(r.value.block) && WfBlocks(r.value.blocks))
  {
    var c := b.chunks[|b.chunks| - 1];
    var b' := b.(chunks := b.chunks[..|b.chunks| - 1]);
    assert b.chunks == b'.chunks + [c];
    ChunksSizePush(b'.chunks, c);
    match c.notation
    case Text(t) => Done(Resolved(next, PushText(b', c.id, t)))
    case Child(_, _) =>
      PickedSize(width, b);
      DownExpand(next, b', Picked(width, b).value)
    case Choice(_, _) =>
      PickedSize(width, b);
      (match Picked(width, b)
       case Err(e) => Fail(e)
       case Ok(d) => DownExpand(next, b', d))
    case _ => Panic
  }

  /** The loop of `print_next_line`: resolves the block's chunks until none is left. */
  function DownResolve(width: nat, next: seq<Block>, b: Block): (r: Outcome<Resolved, PrintingError>)
    decreases Weight(next) + ChunksSize(b.chunks)
  {
    if b.chunks == [] then Done(Resolved(next, b))
    else
      match DownStep(width, next, b)
      case Done(s) => DownResolve(width, s.blocks, s.block)
      case Fail(e) => Fail(e)
      case Panic => Panic
  }

  /**
   * The loop of `print_next_line` leaves the block with no chunks, its
   * segments extended on the right, the blocks below it kept under those it
   * pushes, and no more weight than before; and when the blocks are well
   * formed it does not panic and keeps them well formed.
   */
  lemma {:induction false} DownResolveKeeps(width: nat, next: seq<Block>, b: Block)
    ensures var r := DownResolve(width, next, b);
      r.Done? ==>
        r.value.block.chunks == [] &&
        |next| <= |r.value.blocks| && r.value.blocks[..|next|] == next &&
        |b.segments| <= |r.value.block.segments| && r.value.block.segments[..|b.segments|] == b.segments &&
        Weight(r.value.blocks) <= Weight(next) + ChunksSize(b.chunks)
    ensures WfBlock(b) && WfBlocks(next) ==>
      var r := DownResolve(width, next, b);
      !r.Panic? && (r.Done? ==> WfBlock(r.value.block) && WfBlocks(r.value.blocks))
    decreases Weight(next) + ChunksSize(b.chunks)
  {
    if b.chunks != [] {
      var s := DownStep(width, next, b);
      if s.Done? {
        DownResolveKeeps(width, s.value.blocks, s.value.block);
        assert DownResolve(width, next, b) == DownResolve(width, s.value.blocks, s.value.block);
        var r := DownResolve(width, next, b);
        if r.Done? {
          var n1, n2 := s.value.blocks, r.value.blocks;
          assert n2[..|next|] == n2[..|n1|][..|next|];
          var g0, g1, g2 := b.segments, s.value.block.segments, r.value.block.segments;
          assert g2[..|g0|] == g2[..|g1|][..|g0|];
        }
      }
    }
  }

  /** `Block::print`: a block with no chunks left is a line. */
  function BlockLine(b: Block): (l: Line)
    requires b.chunks == []
    ensures l.segments == b.segments
  {
    Line(b.segments)
  }

  /** `Line`: the segments of a printed line, left to right. */
  datatype Line = Line(segments: seq<Segment>)

  /** What printing a line gives, and the stacks it leaves. */
  datatype Printed = Printed(line: Option<Line>, prev: seq<Block>, next: seq<Block>)

  /**
   * `print_next_line`: nothing when `next` is empty; otherwise its top block
   * is taken off, resolved until it has no chunks, and printed.
   */
  function PrintNext(width: nat, prev: seq<Block>, next: seq<Block>): Outcome<Printed, PrintingError> {
    if next == [] then Done(Printed(None, prev, next))
    else
      DownResolveKeeps(width, next[..|next| - 1], next[|next| - 1]);
      match DownResolve(width, next[..|next| - 1], next[|next| - 1])
      case Done(r) => Done(Printed(Some(BlockLine(r.block)), prev, r.blocks))
      case Fail(e) => Fail(e)
      case Panic => Panic
  }

  /**
   * `print_next_line` prints nothing exactly when there is no block after
   * the focus; otherwise it prints the top block of `next`, its segments
   * first, keeps `prev`, leaves the blocks below the top one under those it
   * pushes, and lowers the weight of `next`. On well-formed blocks it does
   * not panic and keeps them well formed.
   */
  lemma PrintNextKeeps(width: nat, prev: seq<Block>, next: seq<Block>)
    ensures PrintNext(width, prev, next) == Done(Printed(None, prev, next)) <==> next == []
    ensures var r := PrintNext(width, prev, next);
      r.Done? && next != [] ==>
        var top := next[|next| - 1];
        r.value.line.Some? && r.value.prev == prev &&
        |top.segments| <= |r.value.line.value.segments| && r.value.line.value.segments[..|top.segments|] == top.segments &&
        |next| - 1 <= |r.value.next| && r.value.next[..|next| - 1] == next[..|next| - 1] &&
        Weight(r.value.next) < Weight(next)
    ensures WfBlocks(next) ==>
      var r := PrintNext(width, prev, next);
      !r.Panic? && (r.Done? ==> WfBlocks(r.value.next))
  {
    if next != [] {
      var init, top := next[..|next| - 1], next[|next| - 1];
      assert next == init + [top];
      WeightPush(init, top);
      DownResolveKeeps(width, init, top);
      if WfBlocks(next) {
        WfBlocksPrefix(next, |next| - 1);
      }
    }
  }

  lemma SegsPush(segs: seq<Segment>, g: Segment)
    ensures Segs(segs + [g]) == Segs(segs) + [Seg(g)]
  {
    assert (segs + [g])[..|segs|] == segs;
  }

  lemma StackItemsOne(c: Chunk)
    ensures StackItems([c]) == AtomsOf(c) && StackItemsRev([c]) == AtomsOf(c)
  {
    assert [c] == [] + [c];
    StackItemsPush([], c);
    StackItemsRevPush([], c);
    if AtomsOf(c).Some? {
      assert [] + AtomsOf(c).value == AtomsOf(c).value;
      assert AtomsOf(c).value + [] == AtomsOf(c).value;
    }
  }

  lemma DownRegroup(g: seq<Item>, cs: seq<Item>, n: seq<Item>, a: seq<Item>, rest: seq<Item>, n0: seq<Item>)
    requires cs + n == a + rest + n0
    ensures g + cs + n == g + a + rest + n0
  {
    calc {
      g + cs + n;
      == g + (cs + n);
      == g + (a + rest + n0);
    }
  }

  /**
   * Expanding a notation at the focus, printing down, lays what it stands
   * for out between the block's segments and its chunks.
   */
  lemma DownExpandView(next: seq<Block>, b: Block, d: Delayed)
    ensures var r := DownExpand(next, b, d);
      r.Done? ==>
        NewChunk(d).Ok? && AtomsOf(NewChunk(d).value).Some? &&
        BlockItems(r.value.block) + NextView(r.value.blocks) ==
        Segs(b.segments) + AtomsOf(NewChunk(d).value).value + ChunkItems(b.chunks) + NextView(next)
  {
    if NewChunk(d).Ok? {
      var ch := NewChunk(d).value;
      ExpandFirstView(Down(next, b.chunks), [ch]);
      StackItemsOne(ch);
      var x := ExpandFirst(Down(next, b.chunks), ch);
      if x.Ok? {
        DownRegroup(Segs(b.segments), ChunkItems(x.value.chunks), NextView(x.value.next),
          AtomsOf(ch).value, ChunkItems(b.chunks), NextView(next));
      }
    }
  }

  /**
   * One turn of printing down keeps what the block and the blocks after it
   * stand for, except that a child or a choice, the block's leftmost chunk,
   * gives way to what `Picked` stands for.
   */
  lemma DownStepView(width: nat, next: seq<Block>, b: Block)
    requires b.chunks != []
    ensures var c := b.chunks[|b.chunks| - 1];
      var rest := b.chunks[..|b.chunks| - 1];
      var r := DownStep(width, next, b);
      r.Done? ==>
        (c.notation.Text? ==> BlockItems(r.value.block) + NextView(r.value.blocks) == BlockItems(b) + NextView(next)) &&
        (!c.notation.Text? ==>
          (c.notation.Child? || c.notation.Choice?) && Picked(width, b).Ok? &&
          NewChunk(Picked(width, b).value).Ok? && AtomsOf(NewChunk(Picked(width, b).value).value).Some? &&
          BlockItems(r.value.block) + NextView(r.value.blocks) ==
          Segs(b.segments) + AtomsOf(NewChunk(Picked(width, b).value).value).value + ChunkItems(rest) + NextView(next))
  {
    var c := b.chunks[|b.chunks| - 1];
    var rest := b.chunks[..|b.chunks| - 1];
    var b' := b.(chunks := rest);
    assert b.chunks == rest + [c];
    match c.notation {
      case Text(t) =>
        var g := Segment(t.str, t.width, c.id);
        SegsPush(b.segments, g);
        ChunkItemsPush(rest, c);
        assert ItemOf(c) == [Seg(g)];
        Assoc(Segs(b.segments), [Seg(g)], ChunkItems(rest));
      case Child(_, _) =>
        DownExpandView(next, b', Picked(width, b).value);
      case Choice(_, _) =>
        if Picked(width, b).Ok? {
          DownExpandView(next, b', Picked(width, b).value);
        }
      case _ =>
    }
  }

  // Printing up

  /**
   * `expand_focusing_last_block` on one chunk only pushes blocks on `prev`,
   * puts no more than the chunk's size on top of the focused block's
   * chunks, and keeps the blocks well formed.
   */
  lemma ExpandLastKeepsOne(prev: seq<Block>, b: Block, ch: Chunk)
    ensures var x := ExpandLast(prev, b, ch);
      x.Ok? ==>
        |prev| <= |x.value.0| && x.value.0[..|prev|] == prev &&
        |b.chunks| <= |x.value.1.chunks| && x.value.1.chunks[..|b.chunks|] == b.chunks &&
        Weight(x.value.0) + ChunksSize(x.value.1.chunks) <= Weight(prev) + ChunksSize(b.chunks) + ChunksSize([ch]) &&
        (WfBlock(b) && WfBlocks(prev) ==> WfBlock(x.value.1) && WfBlocks(x.value.0))
  {
    ExpandLastKeepsAll(Up(prev, b, []), [ch]);
    var l := ExpandLastLoop(Up(prev, b, []), [ch]);
    if l.Ok? {
      var u := l.value;
      RevSize(u.run);
      ChunksSizeAppend(u.block.chunks, Rev(u.run));
      assert (u.block.chunks + Rev(u.run))[..|b.chunks|] == b.chunks;
      if WfBlock(b) && WfBlocks(prev) {
        RevAtomic(u.run);
      }
    }
  }

  /**
   * `self.expand_focusing_last_block(&mut block, Chunk::new(note)?)?`: the
   * notation is evaluated and expanded at the focus, which ends on the last
   * line it stands for; the lines before that go onto `prev`.
   */
  function UpExpand(prev: seq<Block>, b: Block, d: Delayed): (r: Outcome<Resolved, PrintingError>)
    ensures r.Done? ==> |prev| <= |r.value.blocks| && r.value.blocks[..|prev|] == prev
    ensures r.Done? ==> |b.chunks| <= |r.value.block.chunks| && r.value.block.chunks[..|b.chunks|] == b.chunks
    ensures r.Done? ==> Weight(r.value.blocks) + ChunksSize(r.value.block.chunks) <= Weight(prev) + ChunksSize(b.chunks) + DSize(d)
    ensures r.Done? && WfBlock(b) && WfBlocks(prev) ==> WfBlock(r.value.block) && WfBlocks(r.value.blocks)
    ensures !r.Panic?
  {
    match NewChunk(d)
    case Err(e) => Fail(e)
    case Ok(ch) =>
      ExpandLastKeepsOne(prev, b, ch);
      assert [ch] == [] + [ch];
      ChunksSizePush([], ch);
      match ExpandLast(prev, b, ch)
      case Err(e) => Fail(e)
      case Ok(x) => Done(Resolved(x.0, x.1))
  }

  lemma {:induction false} RevSize(cs: seq<Chunk>)
    ensures ChunksSize(Rev(cs)) == ChunksSize(cs)
    decreases |cs|
  {
    if cs != [] {
      var init := cs[..|cs| - 1];
      var last := cs[|cs| - 1];
      RevSize(init);
      assert Rev(cs) == [last] + Rev(init);
      ChunksSizeAppend([last], Rev(init));
      assert [last] == [] + [last];
      ChunksSizePush([], last);
    }
  }

  /**
   * One turn of the loop of `print_prev_line`: the block's leftmost chunk is
   * taken off; a text becomes the rightmost segment, a child or a choice is
   * replaced by what `Picked` gives, expanded so that the focus is on its
   * last line; anything else is a bug (a panic).
   */
  function UpStep(width: nat, prev: seq<Block>, b: Block): (r: Outcome<Resolved, PrintingError>)
    requires b.chunks != []
    ensures r.Done? ==> |prev| <= |r.value.blocks| && r.value.blocks[..|prev|] == prev
    ensures r.Done? ==>
      |b.chunks| - 1 <= |r.value.block.chunks| && r.value.block.chunks[..|b.chunks| - 1] == b.chunks[..|b.chunks| - 1]
    ensures r.Done? ==> Weight(r.value.blocks) + ChunksSize(r.value.block.chunks) < Weight(prev) + ChunksSize(b.chunks)
    ensures WfBlock(b) && WfBlocks(prev) ==> !r.Panic? && (r.Done? ==> WfBlock(r.value.block) && WfBlocks(r.value.blocks))
  {
    var c := b.chunks[|b.chunks| - 1];
    var b' := b.(chunks := b.chunks[..|b.chunks| - 1]);
    assert b.chunks == b'.chunks + [c];
    ChunksSizePush(b'.chunks, c);
    match c.notation
    case Text(t) => Done(Resolved(prev, PushText(b', c.id, t)))
    case Child(_, _) =>
      PickedSize(width, b);
      UpExpand(prev, b', Picked(width, b).value)
    case Choice(_, _) =>
      PickedSize(width, b);
      (match Picked(width, b)
       case Err(e) => Fail(e)
       case Ok(d) => UpExpand(prev, b', d))
    case _ => Panic
  }

  /** The loop of `print_prev_line`: resolves the block's chunks until none is left. */
  function UpResolve(width: nat, prev: seq<Block>, b: Block): (r: Outcome<Resolved, PrintingError>)
    decreases Weight(prev) + ChunksSize(b.chunks)
  {
    if b.chunks == [] then Done(Resolved(prev, b))
    else
      match UpStep(width, prev, b)
      case Done(s) => UpResolve(width, s.blocks, s.block)
      case Fail(e) => Fail(e)
      case Panic => Panic
  }

  /**
   * The loop of `print_prev_line` leaves the block with no chunks, the
   * blocks below it kept under those it pushes, and no more weight than
   * before; and when the blocks are well formed it does not panic and keeps
   * them well formed.
   */
  lemma {:induction false} UpResolveKeeps(width: nat, prev: seq<Block>, b: Block)
    ensures var r := UpResolve(width, prev, b);
      r.Done? ==>
        r.value.block.chunks == [] &&
        |prev| <= |r.value.blocks| && r.value.blocks[..|prev|] == prev &&
        Weight(r.value.blocks) <= Weight(prev) + ChunksSize(b.chunks)
    ensures WfBlock(b) && WfBlocks(prev) ==>
      var r := UpResolve(width, prev, b);
      !r.Panic? && (r.Done? ==> WfBlock(r.value.block) && WfBlocks(r.value.blocks))
    decreases Weight(prev) + ChunksSize(b.chunks)
  {
    if b.chunks != [] {
      var s := UpStep(width, prev, b);
      if s.Done? {
        UpResolveKeeps(width, s.value.blocks, s.value.block);
        assert UpResolve(width, prev, b) == UpResolve(width, s.value.blocks, s.value.block);
        var r := UpResolve(width, prev, b);
        if r.Done? {
          var p1, p2 := s.value.blocks, r.value.blocks;
          assert p2[..|prev|] == p2[..|p1|][..|prev|];
        }
      }
    }
  }

  /**
   * `print_prev_line`: nothing when `prev` is empty; otherwise its top block
   * is taken off, resolved until it has no chunks, and printed.
   */
  function PrintPrev(width: nat, prev: seq<Block>, next: seq<Block>): Outcome<Printed, PrintingError> {
    if prev == [] then Done(Printed(None, prev, next))
    else
      UpResolveKeeps(width, prev[..|prev| - 1], prev[|prev| - 1]);
      match UpResolve(width, prev[..|prev| - 1], prev[|prev| - 1])
      case Done(r) => Done(Printed(Some(BlockLine(r.block)), r.blocks, next))
      case Fail(e) => Fail(e)
      case Panic => Panic
  }

  /**
   * `print_prev_line` prints nothing exactly when there is no block before
   * the focus; otherwise it prints a line, keeps `next`, leaves the blocks
   * below the top of `prev` under those it pushes, and lowers the weight of
   * `prev`. On well-formed blocks it does not panic and keeps them well
   * formed.
   */
  lemma PrintPrevKeeps(width: nat, prev: seq<Block>, next: seq<Block>)
    ensures PrintPrev(width, prev, next) == Done(Printed(None, prev, next)) <==> prev == []
    ensures var r := PrintPrev(width, prev, next);
      r.Done? && prev != [] ==>
        r.value.line.Some? && r.value.next == next &&
        |prev| - 1 <= |r.value.prev| && r.value.prev[..|prev| - 1] == prev[..|prev| - 1] &&
        Weight(r.value.prev) < Weight(prev)
    ensures WfBlocks(prev) ==>
      var r := PrintPrev(width, prev, next);
      !r.Panic? && (r.Done? ==> WfBlocks(r.value.prev))
  {
    if prev != [] {
      var init, top := prev[..|prev| - 1], prev[|prev| - 1];
      assert prev == init + [top];
      WeightPush(init, top);
      UpResolveKeeps(width, init, top);
      if WfBlocks(prev) {
        WfBlocksPrefix(prev, |prev| - 1);
      }
    }
  }

  lemma UpViewRegroup(p: seq<Item>, g: seq<Item>, run: seq<Item>, cs: seq<Item>, p0: seq<Item>, g0: seq<Item>, a: seq<Item>, cs0: seq<Item>)
    requires p + g + run + cs == p0 + g0 + [] + a + cs0
    ensures p + (g + (run + cs)) == p0 + g0 + a + cs0
  {
    assert p0 + g0 + [] == p0 + g0;
  }

  /**
   * Expanding a notation at the focus, printing up, lays what it stands for
   * out between the block's segments and its chunks, the lines before its
   * last one going onto `prev`.
   */
  lemma UpExpandView(prev: seq<Block>, b: Block, d: Delayed)
    ensures var r := UpExpand(prev, b, d);
      r.Done? ==>
        NewChunk(d).Ok? && AtomsOf(NewChunk(d).value).Some? &&
        PrevView(r.value.blocks) + BlockItems(r.value.block) ==
        PrevView(prev) + Segs(b.segments) + AtomsOf(NewChunk(d).value).value + ChunkItems(b.chunks)
  {
    if NewChunk(d).Ok? {
      var ch := NewChunk(d).value;
      var l := ExpandLastLoop(Up(prev, b, []), [ch]);
      ExpandLastView(Up(prev, b, []), [ch]);
      StackItemsOne(ch);
      if l.Ok? {
        var u := l.value;
        ChunkItemsAppend(u.block.chunks, Rev(u.run));
        ChunkItemsRev(u.run);
        UpViewRegroup(PrevView(u.prev), Segs(u.block.segments), RunItems(u.run), ChunkItems(u.block.chunks),
          PrevView(prev), Segs(b.segments), AtomsOf(ch).value, ChunkItems(b.chunks));
      }
    }
  }

  /**
   * One turn of printing up keeps what the blocks before the focus and the
   * block stand for, except that a child or a choice, the block's leftmost
   * chunk, gives way to what `Picked` stands for.
   */
  lemma UpStepView(width: nat, prev: seq<Block>, b: Block)
    requires b.chunks != []
    ensures var c := b.chunks[|b.chunks| - 1];
      var rest := b.chunks[..|b.chunks| - 1];
      var r := UpStep(width, prev, b);
      r.Done? ==>
        (c.notation.Text? ==> PrevView(r.value.blocks) + BlockItems(r.value.block) == PrevView(prev) + BlockItems(b)) &&
        (!c.notation.Text? ==>
          (c.notation.Child? || c.notation.Choice?) && Picked(width, b).Ok? &&
          NewChunk(Picked(width, b).value).Ok? && AtomsOf(NewChunk(Picked(width, b).value).value).Some? &&
          PrevView(r.value.blocks) + BlockItems(r.value.block) ==
          PrevView(prev) + Segs(b.segments) + AtomsOf(NewChunk(Picked(width, b).value).value).value + ChunkItems(rest))
  {
    var c := b.chunks[|b.chunks| - 1];
    var rest := b.chunks[..|b.chunks| - 1];
    var b' := b.(chunks := rest);
    assert b.chunks == rest + [c];
    match c.notation {
      case Text(t) =>
        var g := Segment(t.str, t.width, c.id);
        SegsPush(b.segments, g);
        ChunkItemsPush(rest, c);
        assert ItemOf(c) == [Seg(g)];
        Assoc(Segs(b.segments), [Seg(g)], ChunkItems(rest));
      case Child(_, _) =>
        UpExpandView(prev, b', Picked(width, b).value);
      case Choice(_, _) =>
        if Picked(width, b).Ok? {
          UpExpandView(prev, b', Picked(width, b).value);
        }
      case _ =>
    }
  }

  // ---------------------------------------------------------------------
  // seek_child and seek
  // ---------------------------------------------------------------------

  /** A chunk `seek_child` stops at: the wanted child of the parent, or any choice of the parent. */
  predicate Relevant(c: Chunk, parentId: nat, idx: nat) {
    c.id == parentId && ((c.notation.Child? && c.notation.index == idx) || c.notation.Choice?)
  }

  /** The closure `contains_relevant_chunk`. */
  predicate HasRelevant(b: Block, parentId: nat, idx: nat) {
    exists i :: 0 <= i < |b.chunks| && Relevant(b.chunks[i], parentId, idx)
  }

  /** The blocks in reverse order: what moving them one by one from the top of one stack to another gives. */
  function RevBlocks(bs: seq<Block>): (r: seq<Block>)
    ensures |r| == |bs|
  {
    if bs == [] then [] else [bs[|bs| - 1]] + RevBlocks(bs[..|bs| - 1])
  }

  /**
   * Step 1 of `seek_child`: blocks without a relevant chunk are moved from
   * `next` to `prev` until the top of `next` has one, or `next` is empty.
   */
  function FindRelevant(parentId: nat, idx: nat, prev: seq<Block>, next: seq<Block>): (r: (seq<Block>, seq<Block>))
    ensures |r.1| <= |next| && r.1 == next[..|r.1|]
    decreases |next|
  {
    if next == [] || HasRelevant(next[|next| - 1], parentId, idx) then (prev, next)
    else
      var r := FindRelevant(parentId, idx, prev + [next[|next| - 1]], next[..|next| - 1]);
      assert next[..|next| - 1][..|r.1|] == next[..|r.1|];
      r
  }

  lemma RevBlocksLast(next: seq<Block>, n: nat)
    requires n < |next|
    ensures RevBlocks(next[n..]) == [next[|next| - 1]] + RevBlocks(next[..|next| - 1][n..])
  {
    var moved := next[n..];
    assert moved[..|moved| - 1] == next[..|next| - 1][n..];
  }

  /**
   * Step 1 of `seek_child` moves the blocks it passes onto `prev`, the top
   * first; it stops at the first block with a relevant chunk, and passes
   * only blocks without one.
   */
  lemma {:induction false} FindRelevantMoves(parentId: nat, idx: nat, prev: seq<Block>, next: seq<Block>)
    ensures var r := FindRelevant(parentId, idx, prev, next);
      r.0 == prev + RevBlocks(next[|r.1|..]) &&
      (r.1 != [] ==> HasRelevant(r.1[|r.1| - 1], parentId, idx)) &&
      forall j :: |r.1| <= j < |next| ==> !HasRelevant(next[j], parentId, idx)
    decreases |next|
  {
    var r := FindRelevant(parentId, idx, prev, next);
    if next == [] || HasRelevant(next[|next| - 1], parentId, idx) {
      assert next[|next|..] == [];
    } else {
      var init, top := next[..|next| - 1], next[|next| - 1];
      FindRelevantMoves(parentId, idx, prev + [top], init);
      assert r == FindRelevant(parentId, idx, prev + [top], init);
      RevBlocksLast(next, |r.1|);
      assert r.1 == init[..|r.1|];
      forall j | |r.1| <= j < |next|
        ensures !HasRelevant(next[j], parentId, idx)
      {
        if j < |init| {
          assert next[j] == init[j];
        }
      }
    }
  }

  lemma FindRelevantWeight(parentId: nat, idx: nat, prev: seq<Block>, next: seq<Block>)
    ensures var r := FindRelevant(parentId, idx, prev, next);
      Weight(r.1) <= Weight(next) && |prev| <= |r.0| && r.0[..|prev|] == prev &&
      (WfBlocks(prev) && WfBlocks(next) ==> WfBlocks(r.0) && WfBlocks(r.1))
  {
    var r := FindRelevant(parentId, idx, prev, next);
    WeightPrefix(next, |r.1|);
    FindRelevantMoves(parentId, idx, prev, next);
    assert r.0[..|prev|] == prev;
    if WfBlocks(prev) && WfBlocks(next) {
      RevBlocksWf(next[|r.1|..]);
      WfBlocksAppend(prev, RevBlocks(next[|r.1|..]));
    }
  }

  lemma WfBlocksAppend(a: seq<Block>, b: seq<Block>)
    requires WfBlocks(a) && WfBlocks(b)
    ensures WfBlocks(a + b)
  {
  }

  lemma {:induction false} RevBlocksWf(bs: seq<Block>)
    requires WfBlocks(bs)
    ensures WfBlocks(RevBlocks(bs))
    decreases |bs|
  {
    if bs != [] {
      RevBlocksWf(bs[..|bs| - 1]);
    }
  }

  lemma {:induction false} WeightPrefix(bs: seq<Block>, n: nat)
    requires n <= |bs|
    ensures Weight(bs[..n]) <= Weight(bs)
    decreases |bs|
  {
    if n < |bs| {
      WeightPrefix(bs[..|bs| - 1], n);
      assert bs[..|bs| - 1][..n] == bs[..n];
    } else {
      assert bs[..n] == bs;
    }
  }

  /** How step 2 of `seek_child` ends on one block. */
  datatype SeekStep =
    | Found(next: seq<Block>)   // the wanted child was met: seeking is done
    | Moved(next: seq<Block>)   // another child or a choice was resolved: back to step 1
    | Exhausted                 // the block had texts only: it is dropped

  /**
   * Step 2 of `seek_child`: the block's chunks are taken off from the left;
   * texts become segments, the wanted child ends the search (expanded, or
   * put back), and any other child or choice is resolved as printing down
   * would, the block going back on `next`.
   */
  function SeekChunks(width: nat, parentId: nat, idx: nat, expand: bool, next: seq<Block>, b: Block): (r: Outcome<SeekStep, PrintingError>)
    ensures r.Done? && r.value.Moved? ==> Weight(r.value.next) < Weight(next + [b])
    decreases Weight(next) + ChunksSize(b.chunks)
  {
    if b.chunks == [] then Done(Exhausted)
    else
      var c := b.chunks[|b.chunks| - 1];
      var b' := b.(chunks := b.chunks[..|b.chunks| - 1]);
      if c.notation.Child? && c.id == parentId && c.notation.index == idx then
        if expand then
          (match DownExpand(next, b', c.notation.child)
           case Done(x) => Done(Found(x.blocks + [x.block]))
           case Fail(e) => Fail(e)
           case Panic => Panic)
        else Done(Found(next + [b]))
      else
        match DownStep(width, next, b)
        case Done(s) =>
          if c.notation.Text? then SeekChunks(width, parentId, idx, expand, s.blocks, s.block)
          else
            WeightPush(s.blocks, s.block);
            WeightPush(next, b);
            Done(Moved(s.blocks + [s.block]))
        case Fail(e) => Fail(e)
        case Panic => Panic
  }

  /**
   * What step 2 of `seek_child` keeps: the blocks below under those it
   * pushes; when it stops at the wanted child without expanding it, that
   * child is the top block's leftmost chunk; and on well-formed blocks it
   * does not panic and keeps them well formed.
   */
  predicate SeekChunksKept(width: nat, parentId: nat, idx: nat, expand: bool, next: seq<Block>, b: Block) {
    var r := SeekChunks(width, parentId, idx, expand, next, b);
    (r.Done? && !r.value.Exhausted? ==>
      r.value.next != [] && |next| <= |r.value.next| && r.value.next[..|next|] == next) &&
    (r.Done? && r.value.Found? && !expand ==>
      var top := r.value.next[|r.value.next| - 1];
      top.chunks != [] && top.chunks[|top.chunks| - 1].id == parentId &&
      top.chunks[|top.chunks| - 1].notation.Child? && top.chunks[|top.chunks| - 1].notation.index == idx) &&
    (WfBlock(b) && WfBlocks(next) ==> !r.Panic? && (r.Done? && !r.value.Exhausted? ==> WfBlocks(r.value.next)))
  }

  lemma SeekChunksWanted(width: nat, parentId: nat, idx: nat, expand: bool, next: seq<Block>, b: Block)
    requires b.chunks != []
    requires var c := b.chunks[|b.chunks| - 1]; c.notation.Child? && c.id == parentId && c.notation.index == idx
    ensures SeekChunksKept(width, parentId, idx, expand, next, b)
  {
    var c := b.chunks[|b.chunks| - 1];
    var b' := b.(chunks := b.chunks[..|b.chunks| - 1]);
    if expand {
      var x := DownExpand(next, b', c.notation.child);
      assert WfBlock(b) ==> WfBlock(b');
      if x.Done? {
        WfBlocksPushIf(x.value.blocks, x.value.block);
        assert (x.value.blocks + [x.value.block])[..|next|] == x.value.blocks[..|next|];
      }
    } else {
      WfBlocksPushIf(next, b);
      assert (next + [b])[..|next|] == next;
    }
  }

  lemma SeekChunksOther(width: nat, parentId: nat, idx: nat, expand: bool, next: seq<Block>, b: Block)
    requires b.chunks != []
    requires var c := b.chunks[|b.chunks| - 1]; !(c.notation.Child? && c.id == parentId && c.notation.index == idx)
    requires var s := DownStep(width, next, b);
      s.Done? && b.chunks[|b.chunks| - 1].notation.Text? ==>
        SeekChunksKept(width, parentId, idx, expand, s.value.blocks, s.value.block)
    ensures SeekChunksKept(width, parentId, idx, expand, next, b)
  {
    var c := b.chunks[|b.chunks| - 1];
    var s := DownStep(width, next, b);
    if s.Done? {
      if c.notation.Text? {
        var r := SeekChunks(width, parentId, idx, expand, next, b);
        assert r == SeekChunks(width, parentId, idx, expand, s.value.blocks, s.value.block);
        if r.Done? && !r.value.Exhausted? {
          assert r.value.next[..|next|] == r.value.next[..|s.value.blocks|][..|next|];
        }
      } else {
        WfBlocksPushIf(s.value.blocks, s.value.block);
        assert (s.value.blocks + [s.value.block])[..|next|] == s.value.blocks[..|next|];
      }
    }
  }

  lemma {:induction false} SeekChunksKeeps(width: nat, parentId: nat, idx: nat, expand: bool, next: seq<Block>, b: Block)
    ensures SeekChunksKept(width, parentId, idx, expand, next, b)
    decreases Weight(next) + ChunksSize(b.chunks)
  {
    if b.chunks != [] {
      var c := b.chunks[|b.chunks| - 1];
      if c.notation.Child? && c.id == parentId && c.notation.index == idx {
        SeekChunksWanted(width, parentId, idx, expand, next, b);
      } else {
        var s := DownStep(width, next, b);
        if s.Done? && c.notation.Text? {
          SeekChunksKeeps(width, parentId, idx, expand, s.value.blocks, s.value.block);
        }
        SeekChunksOther(width, parentId, idx, expand, next, b);
      }
    }
  }

  /** A block with a relevant chunk has a child or a choice before its texts run out. */
  lemma {:induction false} SeekChunksFinds(width: nat, parentId: nat, idx: nat, expand: bool, next: seq<Block>, b: Block)
    requires HasRelevant(b, parentId, idx)
    ensures SeekChunks(width, parentId, idx, expand, next, b) != Done(Exhausted)
    decreases Weight(next) + ChunksSize(b.chunks)
  {
    var c := b.chunks[|b.chunks| - 1];
    if c.notation.Text? {
      var s := DownStep(width, next, b);
      if s.Done? {
        var i :| 0 <= i < |b.chunks| && Relevant(b.chunks[i], parentId, idx);
        assert s.value.block.chunks[i] == b.chunks[i];
        SeekChunksFinds(width, parentId, idx, expand, s.value.blocks, s.value.block);
      }
    }
  }

  /** The state of seeking: the stacks before and after the focus. */
  datatype Stacks = Stacks(prev: seq<Block>, next: seq<Block>)

  /** How one turn of the `loop` of `seek_child` ends. */
  datatype Turn = Finished(stacks: Stacks) | Again(stacks: Stacks)

  /**
   * One turn of the `loop` of `seek_child`: step 1, then step 2 on the
   * block found; `InvalidPath` when no block is left.
   */
  function SeekTurn(width: nat, parentId: nat, idx: nat, expand: bool, prev: seq<Block>, next: seq<Block>): (r: Outcome<Turn, PrintingError>)
    ensures r.Done? && r.value.Again? ==> Weight(r.value.stacks.next) < Weight(next)
  {
    var f := FindRelevant(parentId, idx, prev, next);
    FindRelevantWeight(parentId, idx, prev, next);
    if f.1 == [] then Fail(PrintingError.InvalidPath(idx))
    else
      var init, top := f.1[..|f.1| - 1], f.1[|f.1| - 1];
      assert f.1 == init + [top];
      WeightPush(init, top);
      match SeekChunks(width, parentId, idx, expand, init, top)
      case Done(Found(n)) => Done(Finished(Stacks(f.0, n)))
      case Done(Moved(n)) => Done(Again(Stacks(f.0, n)))
      case Done(Exhausted) => Done(Again(Stacks(f.0, init)))
      case Fail(e) => Fail(e)
      case Panic => Panic
  }

  /** The `loop` of `seek_child`: turns until the wanted child is met. */
  function SeekLoop(width: nat, parentId: nat, idx: nat, expand: bool, prev: seq<Block>, next: seq<Block>): Outcome<Stacks, PrintingError>
    decreases Weight(next)
  {
    match SeekTurn(width, parentId, idx, expand, prev, next)
    case Done(Finished(st)) => Done(st)
    case Done(Again(st)) => SeekLoop(width, parentId, idx, expand, st.prev, st.next)
    case Fail(e) => Fail(e)
    case Panic => Panic
  }

  /** The loop of `seek_child` unfolded by one turn. */
  lemma SeekLoopStep(width: nat, parentId: nat, idx: nat, expand: bool, prev: seq<Block>, next: seq<Block>)
    ensures var t := SeekTurn(width, parentId, idx, expand, prev, next);
      var l := SeekLoop(width, parentId, idx, expand, prev, next);
      (t.Done? && t.value.Again? ==>
        l == SeekLoop(width, parentId, idx, expand, t.value.stacks.prev, t.value.stacks.next) &&
        Weight(t.value.stacks.next) < Weight(next)) &&
      (t.Done? && t.value.Finished? ==> l == Done(t.value.stacks)) &&
      (t.Fail? ==> l == Fail(t.error)) &&
      (t.Panic? ==> l.Panic?)
  {
  }

  /**
   * `seek_child`: the parent is the doc of the chunk right of the focus
   * (a panic when there is none); then the loop.
   */
  function SeekChild(width: nat, idx: nat, expand: bool, prev: seq<Block>, next: seq<Block>): Outcome<Stacks, PrintingError> {
    if next == [] || next[|next| - 1].chunks == [] then Panic
    else
      var top := next[|next| - 1];
      SeekLoop(width, top.chunks[|top.chunks| - 1].id, idx, expand, prev, next)
  }

  /**
   * `seek_child` fails with `InvalidPath` when no block after the focus has
   * a chunk of the parent that is the wanted child or a choice.
   */
  lemma SeekChildInvalidPath(width: nat, idx: nat, expand: bool, prev: seq<Block>, next: seq<Block>)
    requires next != [] && next[|next| - 1].chunks != []
    requires var top := next[|next| - 1];
      forall j :: 0 <= j < |next| ==> !HasRelevant(next[j], top.chunks[|top.chunks| - 1].id, idx)
    ensures SeekChild(width, idx, expand, prev, next) == Fail(PrintingError.InvalidPath(idx))
  {
    var top := next[|next| - 1];
    var parentId := top.chunks[|top.chunks| - 1].id;
    FindRelevantMoves(parentId, idx, prev, next);
  }

  /** One turn only pushes blocks on `prev`. */
  lemma SeekTurnPushes(width: nat, parentId: nat, idx: nat, expand: bool, prev: seq<Block>, next: seq<Block>)
    ensures var r := SeekTurn(width, parentId, idx, expand, prev, next);
      r.Done? ==> |prev| <= |r.value.stacks.prev| && r.value.stacks.prev[..|prev|] == prev
  {
    FindRelevantWeight(parentId, idx, prev, next);
  }

  /** There is a block after the focus and, unless the child was expanded, its leftmost chunk is child `idx` of `parentId`. */
  predicate ChildAtFocus(parentId: nat, idx: nat, expand: bool, next: seq<Block>)
  {
    next != [] &&
    (!expand ==>
      var top := next[|next| - 1];
      top.chunks != [] && top.chunks[|top.chunks| - 1].id == parentId &&
      top.chunks[|top.chunks| - 1].notation.Child? && top.chunks[|top.chunks| - 1].notation.index == idx)
  }

  /** A turn that ends the loop leaves the wanted child in place, unless it was expanded. */
  lemma SeekTurnMeets(width: nat, parentId: nat, idx: nat, expand: bool, prev: seq<Block>, next: seq<Block>)
    ensures var r := SeekTurn(width, parentId, idx, expand, prev, next);
      r.Done? && r.value.Finished? ==> ChildAtFocus(parentId, idx, expand, r.value.stacks.next)
  {
    var f := FindRelevant(parentId, idx, prev, next);
    if f.1 != [] {
      var init, top := f.1[..|f.1| - 1], f.1[|f.1| - 1];
      SeekTurnOfStep(width, parentId, idx, expand, prev, next);
      SeekChunksKeeps(width, parentId, idx, expand, init, top);
      var st := SeekChunks(width, parentId, idx, expand, init, top);
      if st.Done? && st.value.Found? {
        assert SeekTurn(width, parentId, idx, expand, prev, next) == Done(Finished(Stacks(f.0, st.value.next)));
      }
    }
  }

  /** On well-formed blocks one turn does not panic and keeps them well formed. */
  lemma SeekTurnWf(width: nat, parentId: nat, idx: nat, expand: bool, prev: seq<Block>, next: seq<Block>)
    requires WfBlocks(prev) && WfBlocks(next)
    ensures var r := SeekTurn(width, parentId, idx, expand, prev, next);
      !r.Panic? && (r.Done? ==> WfBlocks(r.value.stacks.prev) && WfBlocks(r.value.stacks.next))
  {
    var f := FindRelevant(parentId, idx, prev, next);
    FindRelevantWeight(parentId, idx, prev, next);
    if f.1 != [] {
      var init, top := f.1[..|f.1| - 1], f.1[|f.1| - 1];
      assert WfBlock(top) && WfBlocks(init);
      SeekChunksKeeps(width, parentId, idx, expand, init, top);
      SeekTurnOfStep(width, parentId, idx, expand, prev, next);
    }
  }

  /** A turn after step 1 found a block: how it ends follows from step 2 alone. */
  lemma SeekTurnOfStep(width: nat, parentId: nat, idx: nat, expand: bool, prev: seq<Block>, next: seq<Block>)
    requires FindRelevant(parentId, idx, prev, next).1 != []
    ensures var f := FindRelevant(parentId, idx, prev, next);
      var init, top := f.1[..|f.1| - 1], f.1[|f.1| - 1];
      var s := SeekChunks(width, parentId, idx, expand, init, top);
      var r := SeekTurn(width, parentId, idx, expand, prev, next);
      (r.Panic? <==> s.Panic?) && (r.Done? <==> s.Done?) &&
      (r.Done? ==>
        (r.value.Finished? <==> s.value.Found?) && r.value.stacks.prev == f.0 &&
        r.value.stacks.next == if s.value.Exhausted? then init else s.value.next)
  {
  }

  /**
   * The loop of `seek_child` only pushes blocks on `prev`; it does not end
   * without a block after the focus; and when it leaves the wanted child in
   * place, that child is the leftmost chunk right of the focus.
   */
  lemma SeekLoopKeeps(width: nat, parentId: nat, idx: nat, expand: bool, prev: seq<Block>, next: seq<Block>)
    ensures var r := SeekLoop(width, parentId, idx, expand, prev, next);
      r.Done? ==>
        r.value.next != [] && |prev| <= |r.value.prev| && r.value.prev[..|prev|] == prev &&
        (!expand ==>
          var top := r.value.next[|r.value.next| - 1];
          top.chunks != [] && top.chunks[|top.chunks| - 1].id == parentId &&
          top.chunks[|top.chunks| - 1].notation.Child? && top.chunks[|top.chunks| - 1].notation.index == idx)
  {
    SeekLoopPushes(width, parentId, idx, expand, prev, next);
    SeekLoopMeets(width, parentId, idx, expand, prev, next);
  }

  /** The loop of `seek_child` only pushes blocks on `prev`. */
  lemma {:induction false} SeekLoopPushes(width: nat, parentId: nat, idx: nat, expand: bool, prev: seq<Block>, next: seq<Block>)
    ensures var r := SeekLoop(width, parentId, idx, expand, prev, next);
      r.Done? ==> |prev| <= |r.value.prev| && r.value.prev[..|prev|] == prev
    decreases Weight(next)
  {
    SeekTurnPushes(width, parentId, idx, expand, prev, next);
    SeekLoopStep(width, parentId, idx, expand, prev, next);
    var t := SeekTurn(width, parentId, idx, expand, prev, next);
    if t.Done? && t.value.Again? {
      var st := t.value.stacks;
      SeekLoopPushes(width, parentId, idx, expand, st.prev, st.next);
      var r := SeekLoop(width, parentId, idx, expand, st.prev, st.next);
      if r.Done? {
        assert r.value.prev[..|prev|] == r.value.prev[..|st.prev|][..|prev|];
      }
    }
  }

  /** The loop of `seek_child` ends with a block after the focus, and the wanted child there unless it was expanded. */
  lemma {:induction false} SeekLoopMeets(width: nat, parentId: nat, idx: nat, expand: bool, prev: seq<Block>, next: seq<Block>)
    ensures var r := SeekLoop(width, parentId, idx, expand, prev, next);
      r.Done? ==> ChildAtFocus(parentId, idx, expand, r.value.next)
    decreases Weight(next)
  {
    SeekLoopStep(width, parentId, idx, expand, prev, next);
    var t := SeekTurn(width, parentId, idx, expand, prev, next);
    if t.Done? && t.value.Again? {
      SeekLoopMeets(width, parentId, idx, expand, t.value.stacks.prev, t.value.stacks.next);
    } else if t.Done? {
      SeekTurnMeets(width, parentId, idx, expand, prev, next);
    }
  }

  /** On well-formed blocks the loop of `seek_child` does not panic and keeps them well formed. */
  lemma {:induction false} SeekLoopWf(width: nat, parentId: nat, idx: nat, expand: bool, prev: seq<Block>, next: seq<Block>)
    requires WfBlocks(prev) && WfBlocks(next)
    ensures var r := SeekLoop(width, parentId, idx, expand, prev, next);
      !r.Panic? && (r.Done? ==> WfBlocks(r.value.prev) && WfBlocks(r.value.next))
    decreases Weight(next)
  {
    SeekTurnWf(width, parentId, idx, expand, prev, next);
    SeekLoopStep(width, parentId, idx, expand, prev, next);
    var t := SeekTurn(width, parentId, idx, expand, prev, next);
    if t.Done? && t.value.Again? {
      SeekLoopWf(width, parentId, idx, expand, t.value.stacks.prev, t.value.stacks.next);
    }
  }

  /** The `for` loop of `seek`: `seek_child` on each index, expanding every child but the last. */
  function SeekPath(width: nat, path: seq<nat>, i: nat, prev: seq<Block>, next: seq<Block>): Outcome<Stacks, PrintingError>
    requires i <= |path|
    decreases |path| - i
  {
    if i == |path| then Done(Stacks(prev, next))
    else
      match SeekChild(width, path[i], i + 1 < |path|, prev, next)
      case Done(st) => SeekPath(width, path, i + 1, st.prev, st.next)
      case Fail(e) => Fail(e)
      case Panic => Panic
  }

  /** `while self.next_blocks.len() > 1`: all blocks but the bottom one of `next` move to `prev`. */
  function MoveAllButOne(prev: seq<Block>, next: seq<Block>): (r: Stacks)
    ensures |next| <= 1 ==> r == Stacks(prev, next)
    ensures |next| > 1 ==> r == Stacks(prev + RevBlocks(next[1..]), next[..1])
    decreases |next|
  {
    if |next| <= 1 then Stacks(prev, next)
    else
      var r := MoveAllButOne(prev + [next[|next| - 1]], next[..|next| - 1]);
      RevBlocksLast(next, 1);
      assert next[..|next| - 1][..1] == next[..1];
      r
  }

  /**
   * The `while` loop of `seek` when seeking the end: the block's chunks are
   * resolved as printing up does, until only `numAfter` are left.
   */
  function SeekEndResolve(width: nat, prev: seq<Block>, b: Block, numAfter: nat): Outcome<Resolved, PrintingError>
    decreases Weight(prev) + ChunksSize(b.chunks)
  {
    if |b.chunks| <= numAfter then Done(Resolved(prev, b))
    else
      match UpStep(width, prev, b)
      case Done(s) => SeekEndResolve(width, s.blocks, s.block, numAfter)
      case Fail(e) => Fail(e)
      case Panic => Panic
  }

  /**
   * `seek`: each index of the path in turn; then, when seeking the end, the
   * focus moves past the node: to the end of the document for the empty
   * path (all lines but the last go to `prev` first), and past the child
   * found otherwise. Popping from an empty `next` and the `usize` underflow
   * of `block.chunks.len() - 1` are panics.
   */
  function Seek(width: nat, path: seq<nat>, seekEnd: bool, prev: seq<Block>, next: seq<Block>): Outcome<Stacks, PrintingError> {
    match SeekPath(width, path, 0, prev, next)
    case Done(st) => if seekEnd then SeekEnd(width, path == [], st) else Done(st)
    case Fail(e) => Fail(e)
    case Panic => Panic
  }

  /** The part of `seek` after the path when seeking the end. */
  function SeekEnd(width: nat, emptyPath: bool, st: Stacks): Outcome<Stacks, PrintingError> {
    var st' := if emptyPath then MoveAllButOne(st.prev, st.next) else st;
    if st'.next == [] then Panic
    else
      var b := st'.next[|st'.next| - 1];
      if !emptyPath && b.chunks == [] then Panic
      else
        var numAfter := if emptyPath then 0 else |b.chunks| - 1;
        match SeekEndResolve(width, st'.prev, b, numAfter)
        case Done(r) => Done(Stacks(r.blocks, st'.next[..|st'.next| - 1] + [r.block]))
        case Fail(e) => Fail(e)
        case Panic => Panic
  }


  /**
   * Resolving up to `numAfter` chunks leaves exactly the block's first
   * `numAfter` chunks (the rightmost ones), only pushes blocks on `prev`,
   * and on well-formed blocks does not panic and keeps them well formed.
   */
  lemma SeekEndResolveKeeps(width: nat, prev: seq<Block>, b: Block, numAfter: nat)
    requires numAfter <= |b.chunks|
    ensures var r := SeekEndResolve(width, prev, b, numAfter);
      r.Done? ==>
        r.value.block.chunks == b.chunks[..numAfter] &&
        |prev| <= |r.value.blocks| && r.value.blocks[..|prev|] == prev
    ensures WfBlock(b) && WfBlocks(prev) ==>
      var r := SeekEndResolve(width, prev, b, numAfter);
      !r.Panic? && (r.Done? ==> WfBlock(r.value.block) && WfBlocks(r.value.blocks))
  {
    SeekEndResolveLeaves(width, prev, b, numAfter);
    if WfBlock(b) && WfBlocks(prev) {
      SeekEndResolveWf(width, prev, b, numAfter);
    }
  }

  /** The resolving loop of `seek` unfolded by one step. */
  lemma SeekEndResolveStep(width: nat, prev: seq<Block>, b: Block, numAfter: nat)
    requires |b.chunks| > numAfter
    ensures var s := UpStep(width, prev, b);
      var r := SeekEndResolve(width, prev, b, numAfter);
      (s.Done? ==> r == SeekEndResolve(width, s.value.blocks, s.value.block, numAfter)) &&
      (s.Fail? ==> r == Fail(s.error)) &&
      (s.Panic? ==> r.Panic?)
  {
  }

  /** Resolving up to `numAfter` chunks leaves the block's first `numAfter` chunks and only pushes on `prev`. */
  lemma SeekEndResolveLeaves(width: nat, prev: seq<Block>, b: Block, numAfter: nat)
    requires numAfter <= |b.chunks|
    ensures var r := SeekEndResolve(width, prev, b, numAfter);
      r.Done? ==>
        r.value.block.chunks == b.chunks[..numAfter] &&
        |prev| <= |r.value.blocks| && r.value.blocks[..|prev|] == prev
  {
    SeekEndResolveChunks(width, prev, b, numAfter);
    SeekEndResolvePushes(width, prev, b, numAfter);
  }

  /** Resolving leaves the first `numAfter` chunks of the block. */
  lemma {:induction false} SeekEndResolveChunks(width: nat, prev: seq<Block>, b: Block, numAfter: nat)
    requires numAfter <= |b.chunks|
    ensures var r := SeekEndResolve(width, prev, b, numAfter);
      r.Done? ==> r.value.block.chunks == b.chunks[..numAfter]
    decreases Weight(prev) + ChunksSize(b.chunks)
  {
    if |b.chunks| > numAfter {
      SeekEndResolveStep(width, prev, b, numAfter);
      var s := UpStep(width, prev, b);
      if s.Done? {
        var c1 := s.value.block.chunks;
        assert c1[..numAfter] == c1[..|b.chunks| - 1][..numAfter];
        assert b.chunks[..numAfter] == b.chunks[..|b.chunks| - 1][..numAfter];
        SeekEndResolveChunks(width, s.value.blocks, s.value.block, numAfter);
      }
    } else {
      assert b.chunks[..numAfter] == b.chunks;
    }
  }

  /** Resolving only pushes blocks on `prev`. */
  lemma {:induction false} SeekEndResolvePushes(width: nat, prev: seq<Block>, b: Block, numAfter: nat)
    requires numAfter <= |b.chunks|
    ensures var r := SeekEndResolve(width, prev, b, numAfter);
      r.Done? ==> |prev| <= |r.value.blocks| && r.value.blocks[..|prev|] == prev
    decreases Weight(prev) + ChunksSize(b.chunks)
  {
    if |b.chunks| > numAfter {
      SeekEndResolveStep(width, prev, b, numAfter);
      var s := UpStep(width, prev, b);
      if s.Done? {
        SeekEndResolvePushes(width, s.value.blocks, s.value.block, numAfter);
        var r := SeekEndResolve(width, s.value.blocks, s.value.block, numAfter);
        if r.Done? {
          assert r.value.blocks[..|prev|] == r.value.blocks[..|s.value.blocks|][..|prev|];
        }
      }
    }
  }

  /** On well-formed blocks resolving does not panic and keeps them well formed. */
  lemma {:induction false} SeekEndResolveWf(width: nat, prev: seq<Block>, b: Block, numAfter: nat)
    requires WfBlock(b) && WfBlocks(prev)
    ensures var r := SeekEndResolve(width, prev, b, numAfter);
      !r.Panic? && (r.Done? ==> WfBlock(r.value.block) && WfBlocks(r.value.blocks))
    decreases Weight(prev) + ChunksSize(b.chunks)
  {
    if |b.chunks| > numAfter {
      SeekEndResolveStep(width, prev, b, numAfter);
      var s := UpStep(width, prev, b);
      if s.Done? {
        SeekEndResolveWf(width, s.value.blocks, s.value.block, numAfter);
      }
    }
  }

  /**
   * `seek_child` only pushes blocks on `prev` and leaves a block after the
   * focus; when it does not expand the child, the child is the leftmost
   * chunk right of the focus; and well-formed blocks stay well formed.
   */
  lemma SeekChildKeeps(width: nat, idx: nat, expand: bool, prev: seq<Block>, next: seq<Block>)
    ensures var r := SeekChild(width, idx, expand, prev, next);
      r.Done? ==>
        r.value.next != [] && |prev| <= |r.value.prev| && r.value.prev[..|prev|] == prev &&
        (!expand ==> LeftmostIsChild(r.value.next, idx))
    ensures WfBlocks(prev) && WfBlocks(next) ==>
      var r := SeekChild(width, idx, expand, prev, next);
      r.Done? ==> WfBlocks(r.value.prev) && WfBlocks(r.value.next)
  {
    if next != [] && next[|next| - 1].chunks != [] {
      var top := next[|next| - 1];
      var parentId := top.chunks[|top.chunks| - 1].id;
      SeekLoopKeeps(width, parentId, idx, expand, prev, next);
      if WfBlocks(prev) && WfBlocks(next) {
        SeekLoopWf(width, parentId, idx, expand, prev, next);
      }
    }
  }

  /** The leftmost chunk right of the focus is a child with the index. */
  predicate LeftmostIsChild(next: seq<Block>, idx: nat) {
    next != [] && next[|next| - 1].chunks != [] &&
    var c := next[|next| - 1].chunks[|next[|next| - 1].chunks| - 1];
    c.notation.Child? && c.notation.index == idx
  }

  /**
   * The `for` loop of `seek` only pushes blocks on `prev`, and after a
   * non-empty rest of the path the leftmost chunk right of the focus is the
   * child with the path's last index.
   */
  lemma {:induction false} SeekPathKeeps(width: nat, path: seq<nat>, i: nat, prev: seq<Block>, next: seq<Block>)
    requires i <= |path|
    ensures var r := SeekPath(width, path, i, prev, next);
      r.Done? ==>
        |prev| <= |r.value.prev| && r.value.prev[..|prev|] == prev &&
        (i < |path| ==> LeftmostIsChild(r.value.next, path[|path| - 1]))
    decreases |path| - i
  {
    if i < |path| {
      SeekChildKeeps(width, path[i], i + 1 < |path|, prev, next);
      var c := SeekChild(width, path[i], i + 1 < |path|, prev, next);
      if c.Done? {
        SeekPathKeeps(width, path, i + 1, c.value.prev, c.value.next);
        var r := SeekPath(width, path, i, prev, next);
        assert r == SeekPath(width, path, i + 1, c.value.prev, c.value.next);
        if r.Done? {
          assert r.value.prev[..|prev|] == r.value.prev[..|c.value.prev|][..|prev|];
        }
      }
    }
  }

  /** The `for` loop of `seek` keeps well-formed blocks well formed. */
  lemma {:induction false} SeekPathWf(width: nat, path: seq<nat>, i: nat, prev: seq<Block>, next: seq<Block>)
    requires i <= |path| && WfBlocks(prev) && WfBlocks(next)
    ensures var r := SeekPath(width, path, i, prev, next);
      r.Done? ==> WfBlocks(r.value.prev) && WfBlocks(r.value.next)
    decreases |path| - i
  {
    if i < |path| {
      SeekChildKeeps(width, path[i], i + 1 < |path|, prev, next);
      var c := SeekChild(width, path[i], i + 1 < |path|, prev, next);
      if c.Done? {
        SeekPathWf(width, path, i + 1, c.value.prev, c.value.next);
      }
    }
  }

  /**
   * `seek(&[], true)` on well-formed blocks with a line after the focus does
   * not panic; when it succeeds, exactly one block is left after the focus,
   * with no chunks: the focus is at the end of the document, and the other
   * lines have gone onto `prev`.
   */
  lemma SeekToEnd(width: nat, prev: seq<Block>, next: seq<Block>)
    requires next != [] && WfBlocks(prev) && WfBlocks(next)
    ensures var r := Seek(width, [], true, prev, next);
      !r.Panic? &&
      (r.Done? ==>
        |r.value.next| == 1 && r.value.next[0].chunks == [] &&
        |prev| <= |r.value.prev| && r.value.prev[..|prev|] == prev)
  {
    assert SeekPath(width, [], 0, prev, next) == Done(Stacks(prev, next));
    var st := MoveAllButOne(prev, next);
    if |next| > 1 {
      RevBlocksWf(next[1..]);
      WfBlocksAppend(prev, RevBlocks(next[1..]));
      assert st.prev[..|prev|] == prev;
    }
    var b := st.next[|st.next| - 1];
    SeekEndResolveKeeps(width, st.prev, b, 0);
    var e := SeekEndResolve(width, st.prev, b, 0);
    if e.Done? {
      assert e.value.blocks[..|prev|] == e.value.blocks[..|st.prev|][..|prev|];
    }
  }

  /**
   * Seeking the end past a child: the focus moves past the leftmost chunk
   * right of it, so the chunks after the focus are those after that chunk,
   * and the blocks below stay; on well-formed blocks nothing panics.
   */
  lemma SeekEndPastChild(width: nat, st: Stacks)
    requires st.next != [] && st.next[|st.next| - 1].chunks != []
    ensures var r := SeekEnd(width, false, st);
      var top := st.next[|st.next| - 1];
      r.Done? ==>
        r.value.next != [] &&
        r.value.next[..|r.value.next| - 1] == st.next[..|st.next| - 1] &&
        r.value.next[|r.value.next| - 1].chunks == top.chunks[..|top.chunks| - 1]
    ensures WfBlocks(st.prev) && WfBlocks(st.next) ==> !SeekEnd(width, false, st).Panic?
  {
    var top := st.next[|st.next| - 1];
    SeekEndResolveKeeps(width, st.prev, top, |top.chunks| - 1);
    var e := SeekEndResolve(width, st.prev, top, |top.chunks| - 1);
    if e.Done? {
      var n := st.next[..|st.next| - 1] + [e.value.block];
      assert n[..|n| - 1] == st.next[..|st.next| - 1];
    }
  }

  /**
   * `seek(path, true)` for a non-empty path: once the path is followed, the
   * child found is the leftmost chunk right of the focus, and the focus
   * moves past it; on well-formed blocks, once the path is followed, the
   * subtraction `block.chunks.len() - 1` does not underflow and nothing
   * panics.
   */
  lemma SeekPastChild(width: nat, path: seq<nat>, prev: seq<Block>, next: seq<Block>)
    requires path != []
    ensures var p := SeekPath(width, path, 0, prev, next);
      p.Done? ==>
        LeftmostIsChild(p.value.next, path[|path| - 1]) &&
        Seek(width, path, true, prev, next) == SeekEnd(width, false, p.value)
    ensures WfBlocks(prev) && WfBlocks(next) && SeekPath(width, path, 0, prev, next).Done? ==>
      !Seek(width, path, true, prev, next).Panic?
  {
    SeekPathKeeps(width, path, 0, prev, next);
    var p := SeekPath(width, path, 0, prev, next);
    if p.Done? {
      SeekEndPastChild(width, p.value);
      if WfBlocks(prev) && WfBlocks(next) {
        SeekPathWf(width, path, 0, prev, next);
      }
    }
  }

  // ---------------------------------------------------------------------
  // Lines
  // ---------------------------------------------------------------------

  /** The text of segments, left to right. */
  function SegsText(segs: seq<Segment>): string {
    if segs == [] then "" else SegsText(segs[..|segs| - 1]) + segs[|segs| - 1].str
  }

  lemma {:induction false} SegsTextAppend(a: seq<Segment>, b: seq<Segment>)
    ensures SegsText(a + b) == SegsText(a) + SegsText(b)
    decreases |b|
  {
    if b == [] {
      assert a + b == a;
    } else {
      var init := b[..|b| - 1];
      assert a + b == (a + init) + [b[|b| - 1]];
      assert (a + b)[..|a + b| - 1] == a + init;
      SegsTextAppend(a, init);
      Text.ConcatAssoc(SegsText(a), SegsText(init), b[|b| - 1].str);
    }
  }

  /** `FocusedLine`: the line with the focus, split at it. */
  datatype FocusedLine = FocusedLine(left: seq<Segment>, right: seq<Segment>)

  /** `From<FocusedLine> for Line`: the left segments, then the right ones. */
  function LineOf(fl: FocusedLine): (l: Line)
    ensures |l.segments| == |fl.left| + |fl.right| && l.segments[..|fl.left|] == fl.left && l.segments[|fl.left|..] == fl.right
  {
    Line(fl.left + fl.right)
  }

  /**
   * The helpers of a focused line agree with those of the line it becomes:
   * its `to_string` is `to_left_string` then `to_right_string`, and its
   * `width` is the sum of its segments' widths on both sides.
   */
  lemma FocusedLineAgrees(fl: FocusedLine)
    ensures SegsText(LineOf(fl).segments) == SegsText(fl.left) + SegsText(fl.right)
    ensures Widths(LineOf(fl).segments) == Widths(fl.left) + Widths(fl.right)
  {
    SegsTextAppend(fl.left, fl.right);
    WidthsAppend(fl.left, fl.right);
  }

  // ---------------------------------------------------------------------
  // pretty_print and pretty_print_to_string
  // ---------------------------------------------------------------------

  /**
   * `Printer::new`: the root is evaluated and expanded into a first block
   * with no indentation; what `next_blocks` then holds.
   */
  function NewPrinter(root: Delayed): Outcome<seq<Block>, PrintingError> {
    match DownExpand([], NewBlockOf(NoIndent, []), root)
    case Done(r) => Done(r.blocks + [r.block])
    case Fail(e) => Fail(e)
    case Panic => Panic
  }

  /**
   * `Printer::new` does not panic; when it succeeds, the blocks after the
   * focus are well formed, the first line is on top with nothing before the
   * focus, and together they stand for the whole document, a line break
   * first.
   */
  lemma NewPrinterMeaning(root: Delayed)
    ensures !NewPrinter(root).Panic?
    ensures var r := NewPrinter(root);
      r.Done? ==>
        r.value != [] && WfBlocks(r.value) && r.value[|r.value| - 1].segments == [] &&
        NewChunk(root).Ok? && AtomsOf(NewChunk(root).value).Some? &&
        NextView(r.value) == [Break] + AtomsOf(NewChunk(root).value).value
  {
    var b := NewBlockOf(NoIndent, []);
    DownExpandView([], b, root);
    var x := DownExpand([], b, root);
    if x.Done? {
      var n := x.value.blocks + [x.value.block];
      WfBlocksPushIf(x.value.blocks, x.value.block);
      assert n[..|n| - 1] == x.value.blocks;
      assert Segs([]) == [] && ChunkItems([]) == [] && NextView([]) == [];
      var a := AtomsOf(NewChunk(root).value).value;
      assert [] + a + [] + [] == a;
    }
  }

  /** What `pretty_print` gives: the upward printer's blocks, the focused line, the downward printer's blocks. */
  datatype Printout = Printout(prev: seq<Block>, focused: FocusedLine, next: seq<Block>)

  /**
   * `pretty_print`: a printer, the seek, then the line with the focus,
   * split where the top block's segments end; the blocks before the focus
   * go to the upward printer and those after it to the downward printer.
   * The `unwrap`s and `split_off` panic when there is no line.
   */
  function PrettyPrint(width: nat, root: Delayed, path: seq<nat>, seekEnd: bool): Outcome<Printout, PrintingError> {
    match NewPrinter(root)
    case Fail(e) => Fail(e)
    case Panic => Panic
    case Done(next) =>
      match Seek(width, path, seekEnd, [], next)
      case Fail(e) => Fail(e)
      case Panic => Panic
      case Done(st) => FocusedPrint(width, st)
  }

  /** The end of `pretty_print`: the line with the focus is printed and split at the focus. */
  function FocusedPrint(width: nat, st: Stacks): Outcome<Printout, PrintingError> {
    if st.next == [] then Panic
    else
      var numLeft := |st.next[|st.next| - 1].segments|;
      match PrintNext(width, st.prev, st.next)
      case Fail(e) => Fail(e)
      case Panic => Panic
      case Done(pr) =>
        if pr.line.None? || numLeft > |pr.line.value.segments| then Panic
        else
          var segs := pr.line.value.segments;
          Done(Printout(pr.prev, FocusedLine(segs[..numLeft], segs[numLeft..]), pr.next))
  }

  /**
   * Printing the line with the focus on well-formed blocks does not panic;
   * the left part is what the top block had resolved before the focus, and
   * the upward printer gets the blocks before the focus unchanged.
   */
  lemma FocusedPrintKeeps(width: nat, st: Stacks)
    requires st.next != [] && WfBlocks(st.next)
    ensures var r := FocusedPrint(width, st);
      !r.Panic? &&
      (r.Done? ==>
        r.value.prev == st.prev && r.value.focused.left == st.next[|st.next| - 1].segments &&
        Weight(r.value.next) < Weight(st.next))
  {
    PrintNextKeeps(width, st.prev, st.next);
  }

  /**
   * `pretty_print` with the empty path does not panic. Without `seek_end`
   * the focus is at the start of the document: nothing is left of it on
   * its line and there is nothing above. With `seek_end` it is at the end:
   * nothing is right of it and there is nothing below.
   */
  lemma PrettyPrintEmptyPath(width: nat, root: Delayed, seekEnd: bool)
    ensures var r := PrettyPrint(width, root, [], seekEnd);
      !r.Panic? &&
      (r.Done? && !seekEnd ==> r.value.focused.left == [] && r.value.prev == []) &&
      (r.Done? && seekEnd ==> r.value.focused.right == [] && r.value.next == [])
  {
    NewPrinterMeaning(root);
    var n := NewPrinter(root);
    if n.Done? {
      var next := n.value;
      assert SeekPath(width, [], 0, [], next) == Done(Stacks([], next));
      if seekEnd {
        SeekToEnd(width, [], next);
        var sk := Seek(width, [], true, [], next);
        if sk.Done? {
          FocusedPrintAtEnd(width, sk.value);
        }
      } else {
        assert Seek(width, [], false, [], next) == Done(Stacks([], next));
        FocusedPrintKeeps(width, Stacks([], next));
      }
    }
  }

  /** With one block left, and no chunks in it, the focused line is that block's and nothing follows. */
  lemma FocusedPrintAtEnd(width: nat, st: Stacks)
    requires |st.next| == 1 && st.next[0].chunks == []
    ensures var r := FocusedPrint(width, st);
      r.Done? && r.value.focused.right == [] && r.value.next == []
  {
    var top := st.next[0];
    assert st.next[..0] == [];
    assert DownResolve(width, [], top) == Done(Resolved([], top));
    assert PrintNext(width, st.prev, st.next) == Done(Printed(Some(Line(top.segments)), st.prev, []));
  }

  /** The lines the downward printer prints, until it prints nothing. */
  function DownLines(width: nat, next: seq<Block>): Outcome<seq<Line>, PrintingError>
    decreases Weight(next)
  {
    PrintNextKeeps(width, [], next);
    match PrintNext(width, [], next)
    case Fail(e) => Fail(e)
    case Panic => Panic
    case Done(pr) =>
      if pr.line.None? then Done([])
      else
        match DownLines(width, pr.next)
        case Done(ls) => Done([pr.line.value] + ls)
        case Fail(e) => Fail(e)
        case Panic => Panic
  }

  /** The lines joined by newline characters, the focused line first. */
  function JoinedText(first: string, ls: seq<Line>): string {
    if ls == [] then first else JoinedText(first, ls[..|ls| - 1]) + "\n" + SegsText(ls[|ls| - 1].segments)
  }

  /**
   * `pretty_print_to_string`: printed with the focus at the start, the
   * focused line and then every line of the downward printer, one per line.
   */
  function PrettyPrintToString(width: nat, root: Delayed): Outcome<string, PrintingError> {
    match PrettyPrint(width, root, [], false)
    case Fail(e) => Fail(e)
    case Panic => Panic
    case Done(p) =>
      match DownLines(width, p.next)
      case Done(ls) => Done(JoinedText(SegsText(LineOf(p.focused).segments), ls))
      case Fail(e) => Fail(e)
      case Panic => Panic
  }

  /** On well-formed blocks the downward printer never panics, and keeps them well formed. */
  lemma {:induction false} DownLinesNoPanic(width: nat, next: seq<Block>)
    requires WfBlocks(next)
    ensures !DownLines(width, next).Panic?
    decreases Weight(next)
  {
    PrintNextKeeps(width, [], next);
    var pr := PrintNext(width, [], next);
    if pr.Done? && pr.value.line.Some? {
      DownLinesNoPanic(width, pr.value.next);
    }
  }

  /** `pretty_print_to_string` never panics: it gives the text or an evaluation error. */
  lemma PrettyPrintToStringNoPanic(width: nat, root: Delayed)
    ensures !PrettyPrintToString(width, root).Panic?
  {
    PrettyPrintEmptyPath(width, root, false);
    NewPrinterMeaning(root);
    var p := PrettyPrint(width, root, [], false);
    if p.Done? {
      var next := NewPrinter(root).value;
      assert Seek(width, [], false, [], next) == Done(Stacks([], next));
      PrintNextKeeps(width, [], next);
      DownLinesNoPanic(width, p.value.next);
    }
  }

  // ---------------------------------------------------------------------
  // The printer, in place
  // ---------------------------------------------------------------------

  /** The segments in reverse order, as `Vec::reverse` leaves them. */
  function RevSegs(segs: seq<Segment>): seq<Segment> {
    if segs == [] then [] else [segs[|segs| - 1]] + RevSegs(segs[..|segs| - 1])
  }

  lemma RevSegsPush(segs: seq<Segment>, g: Segment)
    ensures RevSegs(segs + [g]) == [g] + RevSegs(segs)
  {
    assert (segs + [g])[..|segs|] == segs;
  }

  /**
   * `Block::new`: walks the indentation from the innermost node to the
   * root collecting segments, then reverses them; the prefix is their
   * total width.
   */
  method NewBlock(ind: Indentation, chunks: seq<Chunk>) returns (b: Block)
    ensures b == NewBlockOf(ind, chunks)
  {
    var remaining := ind;
    var collected: seq<Segment> := [];
    while remaining.IndentNode?
      invariant IndentSegments(ind) == IndentSegments(remaining) + RevSegs(collected)
      decreases remaining
    {
      RevSegsPush(collected, remaining.segment);
      assert IndentSegments(remaining) == IndentSegments(remaining.parent) + [remaining.segment];
      collected := collected + [remaining.segment];
      remaining := remaining.parent;
    }
    var segs := RevSegs(collected);
    b := Block(segs, Widths(segs), chunks);
  }

  /**
   * `fits`: a loop over a stack of notations that, once empty, takes the
   * chunks from the left; it answers exactly as `Fits` does.
   */
  method FitsCheck(width: nat, notation: Node, nextChunks: seq<Chunk>) returns (r: Result<bool, PrintingError>)
    ensures r == Fits(width, notation, nextChunks)
  {
    var rest := nextChunks;
    var remaining: nat := width;
    var notations := [notation];
    while true
      invariant FitsLoop(remaining, notations, rest) == Fits(width, notation, nextChunks)
      decreases |rest|, NotesSize(notations)
    {
      var n: Node;
      if notations != [] {
        n := notations[|notations| - 1];
        assert notations == notations[..|notations| - 1] + [n];
        NotesSizePush(notations[..|notations| - 1], n);
        notations := notations[..|notations| - 1];
      } else if rest == [] {
        return Ok(true);
      } else {
        n := rest[|rest| - 1].notation;
        rest := rest[..|rest| - 1];
        assert [n] == [] + [n];
        NotesSizePush([], n);
      }
      assert FitsNote(remaining, n, notations, rest) == Fits(width, notation, nextChunks);
      match n {
        case Empty =>
        case Text(t) =>
          if t.width <= remaining {
            remaining := remaining - t.width;
          } else {
            return Ok(false);
          }
        case Newline(_) =>
          return Ok(true);
        case Child(_, d) =>
          if d.eval.Err? {
            return Err(d.eval.error);
          }
          NotesSizePush(notations, d.eval.value);
          notations := notations + [d.eval.value];
        case Concat(a, b) =>
          if b.eval.Err? {
            return Err(b.eval.error);
          }
          if a.eval.Err? {
            return Err(a.eval.error);
          }
          NotesSizePush(notations, b.eval.value);
          NotesSizePush(notations + [b.eval.value], a.eval.value);
          assert notations + [b.eval.value, a.eval.value] == notations + [b.eval.value] + [a.eval.value];
          notations := notations + [b.eval.value, a.eval.value];
        case Choice(_, o2) =>
          if o2.eval.Err? {
            return Err(o2.eval.error);
          }
          NotesSizePush(notations, o2.eval.value);
          notations := notations + [o2.eval.value];
      }
    }
  }

  /**
   * `Printer`: the width, and the stacks of blocks before and after the
   * focus (the last element of each is the line nearest the focus).
   */
  class Printer {
    const width: nat
    var prev: seq<Block>
    var next: seq<Block>

    /** The struct literal `Printer { width, prev_blocks, next_blocks }`. */
    constructor(width: nat, prev: seq<Block>, next: seq<Block>)
      ensures this.width == width && this.prev == prev && this.next == next
    {
      this.width := width;
      this.prev := prev;
      this.next := next;
    }

    /** `choose`: the option `Choose` picks, or the error of evaluating the first. */
    method ChooseOption(block: Block, opt1: Delayed, opt2: Delayed) returns (r: Result<Delayed, PrintingError>)
      ensures r == Choose(width, block, opt1, opt2)
    {
      if opt1.eval.Err? {
        return Err(opt1.eval.error);
      }
      if width >= block.prefixLen {
        var f := FitsCheck(width - block.prefixLen, opt1.eval.value, block.chunks);
        if f.Err? {
          return Err(f.error);
        }
        if f.value {
          return Ok(opt1);
        }
      }
      return Ok(opt2);
    }

    /**
     * `expand_focusing_first_block`: the loop over its stack, pushing a
     * block on `next` at each newline; on success the block and `next` are
     * what `ExpandFirst` gives.
     */
    method ExpandFocusingFirstBlock(block: Block, chunk: Chunk) returns (r: Result<Block, PrintingError>)
      modifies this
      ensures prev == old(prev)
      ensures var x := ExpandFirst(Down(old(next), block.chunks), chunk);
        r.Ok? == x.Ok? &&
        (r.Ok? ==> r.value == block.(chunks := x.value.chunks) && next == x.value.next) &&
        (r.Err? ==> r.error == x.error)
    {
      var stack := [chunk];
      var chunks := block.chunks;
      var blocks := next;
      ghost var target := ExpandFirst(Down(old(next), block.chunks), chunk);
      while stack != []
        invariant ExpandFirstLoop(Down(blocks, chunks), stack) == target
        invariant prev == old(prev) && next == old(next)
        decreases StackSize(stack)
      {
        var c := stack[|stack| - 1];
        var rest := stack[..|stack| - 1];
        assert stack == rest + [c];
        ChunksSizePush(rest, c);
        stack := rest;
        match c.notation {
          case Empty =>
          case Newline(ind) =>
            var nb := NewBlock(ind, chunks);
            blocks := blocks + [nb];
            chunks := [];
          case Concat(left, right) =>
            var lc := NewChunk(left);
            if lc.Err? {
              return Err(lc.error);
            }
            var rc := NewChunk(right);
            if rc.Err? {
              return Err(rc.error);
            }
            ChunksSizePush(rest, lc.value);
            ChunksSizePush(rest + [lc.value], rc.value);
            assert rest + [lc.value, rc.value] == rest + [lc.value] + [rc.value];
            stack := rest + [lc.value, rc.value];
          case _ =>
            chunks := chunks + [c];
        }
      }
      next := blocks;
      r := Ok(block.(chunks := chunks));
    }

    /**
     * `expand_focusing_last_block`: the loop over its stack, collecting
     * `chunks` and pushing a block on `prev` at each newline; on success the
     * block and `prev` are what `ExpandLast` gives.
     */
    method ExpandFocusingLastBlock(block: Block, chunk: Chunk) returns (r: Result<Block, PrintingError>)
      modifies this
      ensures next == old(next)
      ensures var x := ExpandLast(old(prev), block, chunk);
        r.Ok? == x.Ok? &&
        (r.Ok? ==> r.value == x.value.1 && prev == x.value.0) &&
        (r.Err? ==> r.error == x.error)
    {
      var stack := [chunk];
      var run: seq<Chunk> := [];
      var b := block;
      var blocks := prev;
      ghost var target := ExpandLastLoop(Up(old(prev), block, []), [chunk]);
      while stack != []
        invariant ExpandLastLoop(Up(blocks, b, run), stack) == target
        invariant prev == old(prev) && next == old(next)
        decreases StackSize(stack)
      {
        var c := stack[|stack| - 1];
        var rest := stack[..|stack| - 1];
        assert stack == rest + [c];
        ChunksSizePush(rest, c);
        stack := rest;
        match c.notation {
          case Empty =>
          case Newline(ind) =>
            blocks := blocks + [Block(b.segments, b.prefixLen, Rev(run))];
            run := [];
            b := NewBlock(ind, b.chunks);
          case Concat(left, right) =>
            var rc := NewChunk(right);
            if rc.Err? {
              return Err(rc.error);
            }
            var lc := NewChunk(left);
            if lc.Err? {
              return Err(lc.error);
            }
            ChunksSizePush(rest, rc.value);
            ChunksSizePush(rest + [rc.value], lc.value);
            assert rest + [rc.value, lc.value] == rest + [rc.value] + [lc.value];
            stack := rest + [rc.value, lc.value];
          case _ =>
            run := run + [c];
        }
      }
      prev := blocks;
      r := Ok(b.(chunks := b.chunks + Rev(run)));
    }

    /**
     * One turn of the chunk loop of `print_next_line` (and of step 2 of
     * `seek_child`): the block's leftmost chunk is taken off and resolved,
     * pushing blocks on `next` as `DownStep` does.
     */
    method StepDown(block: Block) returns (r: Outcome<Block, PrintingError>)
      requires block.chunks != []
      modifies this
      ensures prev == old(prev)
      ensures var x := DownStep(width, old(next), block);
        (r.Done? <==> x.Done?) && (r.Panic? <==> x.Panic?) &&
        (r.Done? ==> r.value == x.value.block && next == x.value.blocks) &&
        (r.Fail? ==> r.error == x.error)
    {
      var c := block.chunks[|block.chunks| - 1];
      var rest := block.(chunks := block.chunks[..|block.chunks| - 1]);
      match c.notation {
        case Text(t) =>
          r := Done(PushText(rest, c.id, t));
        case Child(_, note) =>
          var ch := NewChunk(note);
          if ch.Err? {
            return Fail(ch.error);
          }
          var x := ExpandFocusingFirstBlock(rest, ch.value);
          r := if x.Ok? then Done(x.value) else Fail(x.error);
        case Choice(opt1, opt2) =>
          var choice := ChooseOption(rest, opt1, opt2);
          if choice.Err? {
            return Fail(choice.error);
          }
          var ch := NewChunk(choice.value);
          if ch.Err? {
            return Fail(ch.error);
          }
          var x := ExpandFocusingFirstBlock(rest, ch.value);
          r := if x.Ok? then Done(x.value) else Fail(x.error);
        case _ =>
          r := Panic;
      }
    }

    /**
     * One turn of the chunk loop of `print_prev_line` (and of `seek` when
     * seeking the end): the block's rightmost chunk is taken off and
     * resolved, pushing blocks on `prev` as `UpStep` does.
     */
    method StepUp(block: Block) returns (r: Outcome<Block, PrintingError>)
      requires block.chunks != []
      modifies this
      ensures next == old(next)
      ensures var x := UpStep(width, old(prev), block);
        (r.Done? <==> x.Done?) && (r.Panic? <==> x.Panic?) &&
        (r.Done? ==> r.value == x.value.block && prev == x.value.blocks) &&
        (r.Fail? ==> r.error == x.error)
    {
      var c := block.chunks[|block.chunks| - 1];
      var rest := block.(chunks := block.chunks[..|block.chunks| - 1]);
      match c.notation {
        case Text(t) =>
          r := Done(PushText(rest, c.id, t));
        case Child(_, note) =>
          var ch := NewChunk(note);
          if ch.Err? {
            return Fail(ch.error);
          }
          var x := ExpandFocusingLastBlock(rest, ch.value);
          r := if x.Ok? then Done(x.value) else Fail(x.error);
        case Choice(opt1, opt2) =>
          var choice := ChooseOption(rest, opt1, opt2);
          if choice.Err? {
            return Fail(choice.error);
          }
          var ch := NewChunk(choice.value);
          if ch.Err? {
            return Fail(ch.error);
          }
          var x := ExpandFocusingLastBlock(rest, ch.value);
          r := if x.Ok? then Done(x.value) else Fail(x.error);
        case _ =>
          r := Panic;
      }
    }

    /**
     * `print_next_line`: pops the top block of `next` and resolves it, chunk
     * by chunk, until none is left; the line, the error or the panic, and
     * the new stacks, are those of `PrintNext`.
     */
    method PrintNextLine() returns (r: Outcome<Option<Line>, PrintingError>)
      modifies this
      ensures var x := PrintNext(width, old(prev), old(next));
        (r.Done? <==> x.Done?) && (r.Panic? <==> x.Panic?) &&
        (r.Done? ==> r.value == x.value.line && prev == x.value.prev && next == x.value.next) &&
        (r.Fail? ==> r.error == x.error)
    {
      if next == [] {
        return Done(None);
      }
      var block := next[|next| - 1];
      next := next[..|next| - 1];
      DownResolveKeeps(width, next, block);
      ghost var target := DownResolve(width, next, block);
      while block.chunks != []
        invariant DownResolve(width, next, block) == target
        invariant prev == old(prev)
        decreases Weight(next) + ChunksSize(block.chunks)
      {
        var s := StepDown(block);
        if !s.Done? {
          return if s.Fail? then Fail(s.error) else Panic;
        }
        block := s.value;
      }
      r := Done(Some(BlockLine(block)));
    }

    /**
     * `print_prev_line`: pops the top block of `prev` and resolves it, chunk
     * by chunk, until none is left; the line, the error or the panic, and
     * the new stacks, are those of `PrintPrev`.
     */
    method PrintPrevLine() returns (r: Outcome<Option<Line>, PrintingError>)
      modifies this
      ensures var x := PrintPrev(width, old(prev), old(next));
        (r.Done? <==> x.Done?) && (r.Panic? <==> x.Panic?) &&
        (r.Done? ==> r.value == x.value.line && prev == x.value.prev && next == x.value.next) &&
        (r.Fail? ==> r.error == x.error)
    {
      if prev == [] {
        return Done(None);
      }
      var block := prev[|prev| - 1];
      prev := prev[..|prev| - 1];
      UpResolveKeeps(width, prev, block);
      ghost var target := UpResolve(width, prev, block);
      while block.chunks != []
        invariant UpResolve(width, prev, block) == target
        invariant next == old(next)
        decreases Weight(prev) + ChunksSize(block.chunks)
      {
        var s := StepUp(block);
        if !s.Done? {
          return if s.Fail? then Fail(s.error) else Panic;
        }
        block := s.value;
      }
      r := Done(Some(BlockLine(block)));
    }

    /**
     * Step 2 of `seek_child` on one block taken off `next`: true when the
     * wanted child was met (and `next` is as `SeekChunks` leaves it), false
     * when another child or a choice was resolved or the block ran out of
     * chunks.
     */
    method SeekInBlock(parentId: nat, idx: nat, expand: bool, block: Block) returns (r: Outcome<bool, PrintingError>)
      modifies this
      ensures prev == old(prev)
      ensures var x := SeekChunks(width, parentId, idx, expand, old(next), block);
        (r.Done? <==> x.Done?) && (r.Panic? <==> x.Panic?) &&
        (r.Done? ==> (r.value <==> x.value.Found?) && next == (if x.value.Exhausted? then old(next) else x.value.next)) &&
        (r.Fail? ==> r.error == x.error)
    {
      ghost var target := SeekChunks(width, parentId, idx, expand, next, block);
      var b := block;
      while b.chunks != []
        invariant SeekChunks(width, parentId, idx, expand, next, b) == target
        invariant prev == old(prev) && next == old(next)
        decreases ChunksSize(b.chunks)
      {
        var c := b.chunks[|b.chunks| - 1];
        if c.notation.Child? && c.id == parentId && c.notation.index == idx {
          if expand {
            var ch := NewChunk(c.notation.child);
            if ch.Err? {
              return Fail(ch.error);
            }
            var x := ExpandFocusingFirstBlock(b.(chunks := b.chunks[..|b.chunks| - 1]), ch.value);
            if x.Err? {
              return Fail(x.error);
            }
            next := next + [x.value];
          } else {
            next := next + [b];
          }
          return Done(true);
        }
        var s := StepDown(b);
        if !s.Done? {
          return if s.Fail? then Fail(s.error) else Panic;
        }
        if !c.notation.Text? {
          next := next + [s.value];
          return Done(false);
        }
        b := s.value;
      }
      r := Done(false);
    }

    /**
     * One turn of the `loop` of `seek_child`: step 1 moves the blocks with
     * no relevant chunk to `prev`, then step 2 works on the block found.
     * True when the wanted child was met, as `SeekTurn` says.
     */
    method SeekTurnOnce(parentId: nat, idx: nat, expand: bool) returns (r: Outcome<bool, PrintingError>)
      modifies this
      ensures var x := SeekTurn(width, parentId, idx, expand, old(prev), old(next));
        (r.Done? <==> x.Done?) && (r.Panic? <==> x.Panic?) &&
        (r.Done? ==> (r.value <==> x.value.Finished?) && prev == x.value.stacks.prev && next == x.value.stacks.next) &&
        (r.Fail? ==> r.error == x.error)
    {
      ghost var f := FindRelevant(parentId, idx, prev, next);
      while next != [] && !HasRelevant(next[|next| - 1], parentId, idx)
        invariant FindRelevant(parentId, idx, prev, next) == f
        decreases |next|
      {
        prev := prev + [next[|next| - 1]];
        next := next[..|next| - 1];
      }
      if next == [] {
        return Fail(PrintingError.InvalidPath(idx));
      }
      var block := next[|next| - 1];
      next := next[..|next| - 1];
      r := SeekInBlock(parentId, idx, expand, block);
    }

    /**
     * `seek_child`: moves the focus to the left of child `idx` of the node
     * of the chunk right of the focus, as `SeekChild` says.
     */
    method SeekChildNode(idx: nat, expand: bool) returns (r: Outcome<(), PrintingError>)
      modifies this
      ensures var x := SeekChild(width, idx, expand, old(prev), old(next));
        (r.Done? <==> x.Done?) && (r.Panic? <==> x.Panic?) &&
        (r.Done? ==> prev == x.value.prev && next == x.value.next) &&
        (r.Fail? ==> r.error == x.error)
    {
      if next == [] || next[|next| - 1].chunks == [] {
        return Panic;
      }
      var top := next[|next| - 1];
      var parentId := top.chunks[|top.chunks| - 1].id;
      ghost var target := SeekLoop(width, parentId, idx, expand, prev, next);
      while true
        invariant SeekLoop(width, parentId, idx, expand, prev, next) == target
        decreases Weight(next)
      {
        SeekLoopStep(width, parentId, idx, expand, prev, next);
        var t := SeekTurnOnce(parentId, idx, expand);
        if !t.Done? {
          return if t.Fail? then Fail(t.error) else Panic;
        }
        if t.value {
          return Done(());
        }
      }
    }

    /** The `while` loop of `seek` for the empty path: all blocks of `next` but the bottom one move to `prev`. */
    method MoveToBottomBlock()
      modifies this
      ensures Stacks(prev, next) == MoveAllButOne(old(prev), old(next))
    {
      while |next| > 1
        invariant MoveAllButOne(prev, next) == MoveAllButOne(old(prev), old(next))
        decreases |next|
      {
        prev := prev + [next[|next| - 1]];
        next := next[..|next| - 1];
      }
    }

    /**
     * The part of `seek` after the path when seeking the end: for the empty
     * path all blocks but the bottom one move to `prev`; then the top block
     * is resolved up to its last `numAfter` chunks, as `SeekEnd` says.
     */
    method SeekEndOfNode(emptyPath: bool) returns (r: Outcome<(), PrintingError>)
      modifies this
      ensures var x := SeekEnd(width, emptyPath, Stacks(old(prev), old(next)));
        (r.Done? <==> x.Done?) && (r.Panic? <==> x.Panic?) &&
        (r.Done? ==> prev == x.value.prev && next == x.value.next) &&
        (r.Fail? ==> r.error == x.error)
    {
      if emptyPath {
        MoveToBottomBlock();
      }
      if next == [] {
        return Panic;
      }
      var block := next[|next| - 1];
      next := next[..|next| - 1];
      if !emptyPath && block.chunks == [] {
        return Panic;
      }
      var numAfter := if emptyPath then 0 else |block.chunks| - 1;
      var s := ResolveToLast(block, numAfter);
      if !s.Done? {
        return if s.Fail? then Fail(s.error) else Panic;
      }
      next := next + [s.value];
      r := Done(());
    }

    /**
     * The `while` loop of `seek` when seeking the end: the block's chunks
     * are resolved as printing up does until only `numAfter` are left, as
     * `SeekEndResolve` says.
     */
    method ResolveToLast(block: Block, numAfter: nat) returns (r: Outcome<Block, PrintingError>)
      modifies this
      ensures next == old(next)
      ensures var x := SeekEndResolve(width, old(prev), block, numAfter);
        (r.Done? <==> x.Done?) && (r.Panic? <==> x.Panic?) &&
        (r.Done? ==> prev == x.value.blocks && r.value == x.value.block) &&
        (r.Fail? ==> r.error == x.error)
    {
      var b := block;
      ghost var target := SeekEndResolve(width, prev, b, numAfter);
      while |b.chunks| > numAfter
        invariant SeekEndResolve(width, prev, b, numAfter) == target
        invariant next == old(next)
        decreases Weight(prev) + ChunksSize(b.chunks)
      {
        var s := StepUp(b);
        if !s.Done? {
          return if s.Fail? then Fail(s.error) else Panic;
        }
        b := s.value;
      }
      r := Done(b);
    }

    /** `seek`: `seek_child` on each index of the path, then the end when asked, as `Seek` says. */
    method SeekFocus(path: seq<nat>, seekEnd: bool) returns (r: Outcome<(), PrintingError>)
      modifies this
      ensures var x := Seek(width, path, seekEnd, old(prev), old(next));
        (r.Done? <==> x.Done?) && (r.Panic? <==> x.Panic?) &&
        (r.Done? ==> prev == x.value.prev && next == x.value.next) &&
        (r.Fail? ==> r.error == x.error)
    {
      ghost var target := SeekPath(width, path, 0, prev, next);
      for i := 0 to |path|
        invariant SeekPath(width, path, i, prev, next) == target
      {
        var s := SeekChildNode(path[i], i + 1 < |path|);
        if !s.Done? {
          return if s.Fail? then Fail(s.error) else Panic;
        }
      }
      if seekEnd {
        r := SeekEndOfNode(path == []);
      } else {
        r := Done(());
      }
    }

    /**
     * `Printer::new`: the root is evaluated and expanded into a fresh block
     * with no indentation, which goes on the empty `next`; the blocks are
     * those `NewPrinter` gives.
     */
    static method New(root: Delayed, width: nat) returns (r: Outcome<Printer, PrintingError>)
      ensures var x := NewPrinter(root);
        (r.Done? <==> x.Done?) && (r.Panic? <==> x.Panic?) &&
        (r.Done? ==> fresh(r.value) && r.value.width == width && r.value.prev == [] && r.value.next == x.value) &&
        (r.Fail? ==> r.error == x.error)
    {
      var ch := NewChunk(root);
      if ch.Err? {
        return Fail(ch.error);
      }
      var block := NewBlock(NoIndent, []);
      var printer := new Printer(width, [], []);
      var x := printer.ExpandFocusingFirstBlock(block, ch.value);
      if x.Err? {
        return Fail(x.error);
      }
      printer.next := printer.next + [x.value];
      r := Done(printer);
    }
  }

  /** `Line::to_string`, `to_left_string` and `to_right_string`: the segments' strings, left to right. */
  method SegmentsString(segs: seq<Segment>) returns (s: string)
    ensures s == SegsText(segs)
  {
    s := "";
    for i := 0 to |segs|
      invariant s == SegsText(segs[..i])
    {
      assert segs[..i + 1][..i] == segs[..i];
      s := s + segs[i].str;
    }
    assert segs[..|segs|] == segs;
  }

  /** `Line::width` and `FocusedLine::width`: the sum of the segments' widths. */
  method SegmentsWidth(segs: seq<Segment>) returns (w: nat)
    ensures w == Widths(segs)
  {
    w := 0;
    for i := 0 to |segs|
      invariant w == Widths(segs[..i])
    {
      assert segs[..i + 1][..i] == segs[..i];
      w := w + segs[i].width;
    }
    assert segs[..|segs|] == segs;
  }

  /** `FocusedLine::to_string`: the left segments and then the right ones. */
  method FocusedString(fl: FocusedLine) returns (s: string)
    ensures s == SegsText(fl.left) + SegsText(fl.right)
  {
    s := SegmentsString(fl.left + fl.right);
    FocusedLineAgrees(fl);
  }

  /** What `pretty_print` hands back: the upward printer, the focused line and the downward printer. */
  datatype Printers = Printers(up: Printer, focused: FocusedLine, down: Printer)

  /**
   * `pretty_print`: a printer for the document, the seek, the line with the
   * focus split at it, and two fresh printers, the upward one holding the
   * blocks before the focus and the downward one those after it, all as
   * `PrettyPrint` says.
   */
  method PrettyPrintPrinters(width: nat, root: Delayed, path: seq<nat>, seekEnd: bool) returns (r: Outcome<Printers, PrintingError>)
    ensures var x := PrettyPrint(width, root, path, seekEnd);
      (r.Done? <==> x.Done?) && (r.Panic? <==> x.Panic?) &&
      (r.Done? ==>
        fresh(r.value.up) && fresh(r.value.down) && r.value.up != r.value.down &&
        r.value.up.width == width && r.value.down.width == width &&
        r.value.up.prev == x.value.prev && r.value.up.next == [] &&
        r.value.down.prev == [] && r.value.down.next == x.value.next &&
        r.value.focused == x.value.focused) &&
      (r.Fail? ==> r.error == x.error)
  {
    var n := Printer.New(root, width);
    if !n.Done? {
      return if n.Fail? then Fail(n.error) else Panic;
    }
    var printer := n.value;
    var s := printer.SeekFocus(path, seekEnd);
    if !s.Done? {
      return if s.Fail? then Fail(s.error) else Panic;
    }
    if printer.next == [] {
      return Panic;
    }
    var numLeft := |printer.next[|printer.next| - 1].segments|;
    var line := printer.PrintNextLine();
    if !line.Done? {
      return if line.Fail? then Fail(line.error) else Panic;
    }
    if line.value.None? || numLeft > |line.value.value.segments| {
      return Panic;
    }
    var segs := line.value.value.segments;
    var focused := FocusedLine(segs[..numLeft], segs[numLeft..]);
    var up := new Printer(width, printer.prev, []);
    var down := new Printer(width, [], printer.next);
    r := Done(Printers(up, focused, down));
  }

  /** The lines of `ls` before those of a printing outcome. */
  function LinesBefore(ls: seq<Line>, o: Outcome<seq<Line>, PrintingError>): (r: Outcome<seq<Line>, PrintingError>)
    ensures r.Done? <==> o.Done?
    ensures r.Done? ==> |r.value| == |ls| + |o.value| && r.value[..|ls|] == ls && r.value[|ls|..] == o.value
  {
    match o
    case Done(x) => Done(ls + x)
    case Fail(e) => Fail(e)
    case Panic => Panic
  }

  /** One line of the downward printer: `DownLines` is that line, if any, before the lines after it. */
  lemma DownLinesStep(width: nat, next: seq<Block>)
    ensures var pr := PrintNext(width, [], next);
      (pr.Done? && pr.value.line.None? ==> DownLines(width, next) == Done([])) &&
      (pr.Done? && pr.value.line.Some? ==>
        DownLines(width, next) == LinesBefore([pr.value.line.value], DownLines(width, pr.value.next))) &&
      (pr.Fail? ==> DownLines(width, next) == Fail(pr.error)) &&
      (pr.Panic? ==> DownLines(width, next) == Panic)
  {
  }

  /** Lines put before lines put before an outcome are put before it together. */
  lemma LinesBeforeAppend(a: seq<Line>, b: seq<Line>, o: Outcome<seq<Line>, PrintingError>)
    ensures LinesBefore(a, LinesBefore(b, o)) == LinesBefore(a + b, o)
  {
    if o.Done? {
      assert a + (b + o.value) == (a + b) + o.value;
    }
  }

  /**
   * The `for` loop of `pretty_print_to_string`: each line the downward
   * printer prints goes after a newline, until it prints nothing; the
   * lines are those of `DownLines`.
   */
  method AppendDownLines(down: Printer, first: string) returns (r: Outcome<string, PrintingError>)
    requires down.prev == []
    modifies down
    ensures var x := DownLines(down.width, old(down.next));
      (r.Done? <==> x.Done?) && (r.Panic? <==> x.Panic?) &&
      (r.Done? ==> r.value == JoinedText(first, x.value)) &&
      (r.Fail? ==> r.error == x.error)
  {
    var s := first;
    ghost var lines: seq<Line> := [];
    ghost var target := DownLines(down.width, down.next);
    assert LinesBefore([], target) == target by {
      if target.Done? {
        assert [] + target.value == target.value;
      }
    }
    while true
      invariant down.prev == []
      invariant LinesBefore(lines, DownLines(down.width, down.next)) == target
      invariant s == JoinedText(first, lines)
      decreases Weight(down.next)
    {
      ghost var before := down.next;
      PrintNextKeeps(down.width, [], before);
      DownLinesStep(down.width, before);
      var l := down.PrintNextLine();
      if !l.Done? {
        return if l.Fail? then Fail(l.error) else Panic;
      }
      if l.value.None? {
        assert DownLines(down.width, before) == Done([]);
        assert lines + [] == lines;
        return Done(s);
      }
      var line := l.value.value;
      LinesBeforeAppend(lines, [line], DownLines(down.width, down.next));
      var text := SegmentsString(line.segments);
      assert (lines + [line])[..|lines|] == lines;
      s := s + "\n" + text;
      lines := lines + [line];
    }
  }

  /**
   * `pretty_print_to_string`: printed with the focus at the start, the
   * focused line and then every line of the downward printer; the string,
   * error or panic is that of `PrettyPrintToString`.
   */
  method PrettyPrintString(width: nat, root: Delayed) returns (r: Outcome<string, PrintingError>)
    ensures r == PrettyPrintToString(width, root)
  {
    var p := PrettyPrintPrinters(width, root, [], false);
    if !p.Done? {
      return if p.Fail? then Fail(p.error) else Panic;
    }
    var first := FocusedString(p.value.focused);
    FocusedLineAgrees(p.value.focused);
    r := AppendDownLines(p.value.down, first);
  }
}
