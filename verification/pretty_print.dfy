/**
 * The partial printers of src/pretty_print.rs. Like the printers of the
 * `if_flat` generation, they print a document one line at a time, from the
 * top (`DownwardPrinter`) or from the bottom (`UpwardPrinter`). The one
 * difference is that a `Child` node is transparent: the walks step into the
 * child's own notation, and measuring a child measures that notation.
 *
 * Every operation here is proved to do what the `if_flat` model of the same
 * operation does to the notation with each child inlined (`Inline`).
 */
module PrettyPrint {
  import opened Wrappers
  import F = IfFlatNotation
  import P = IfFlatPartialPrint
  import Text

  /** The notation of a document node, each child's notation reached through its `Child` node. */
  datatype Notation =
    | Empty
    | Literal(lit: string)
    | Newline
    | Flat(body: Notation)
    | Indent(amount: nat, body: Notation)
    | Concat(left: Notation, right: Notation)
    | Choice(opt1: Notation, opt2: Notation)
    | Child(index: nat, body: Notation)

  datatype Chunk = Chunk(indent: Option<nat>, note: Notation)

  function Size(n: Notation): (k: nat)
    ensures k >= 1
  {
    match n
    case Flat(body) => 1 + Size(body)
    case Indent(_, body) => 1 + Size(body)
    case Choice(opt1, opt2) => 1 + Size(opt1) + Size(opt2)
    case Concat(left, right) => 1 + Size(left) + Size(right)
    case Child(_, body) => 1 + Size(body)
    case _ => 1
  }

  function StackSize(s: seq<Chunk>): nat {
    if s == [] then 0 else StackSize(s[..|s| - 1]) + Size(s[|s| - 1].note)
  }

  lemma StackSizePush(s: seq<Chunk>, c: Chunk)
    ensures StackSize(s + [c]) == StackSize(s) + Size(c.note)
  {
    assert (s + [c])[..|s|] == s;
  }

  /** The notation with every child node replaced by the child's own notation. */
  function Inline(n: Notation): (r: F.Notation)
    ensures F.ChildrenShown(r) == []
  {
    match n
    case Empty => F.Empty
    case Literal(lit) => F.Literal(lit)
    case Newline => F.Newline
    case Flat(body) => F.Flat(Inline(body))
    case Indent(j, body) => F.Indent(j, Inline(body))
    case Concat(left, right) => F.Concat(Inline(left), Inline(right))
    case Choice(opt1, opt2) => F.Choice(Inline(opt1), Inline(opt2))
    case Child(_, body) => Inline(body)
  }

  function InlineChunk(c: Chunk): P.Chunk {
    P.Chunk(c.indent, Inline(c.note))
  }

  /** A stack with every chunk's children inlined. */
  function InlineStack(s: seq<Chunk>): (r: seq<P.Chunk>)
    ensures |r| == |s|
  {
    if s == [] then [] else InlineStack(s[..|s| - 1]) + [InlineChunk(s[|s| - 1])]
  }

  lemma InlinePush(s: seq<Chunk>, c: Chunk)
    ensures InlineStack(s + [c]) == InlineStack(s) + [InlineChunk(c)]
  {
    assert (s + [c])[..|s|] == s;
  }

  lemma {:induction false} InlineAppend(a: seq<Chunk>, b: seq<Chunk>)
    ensures InlineStack(a + b) == InlineStack(a) + InlineStack(b)
    decreases |b|
  {
    if b == [] {
      assert a + b == a;
    } else {
      var init := b[..|b| - 1];
      assert a + b == (a + init) + [b[|b| - 1]];
      InlineAppend(a, init);
      InlinePush(a + init, b[|b| - 1]);
    }
  }

  lemma PushTop<T>(xs: seq<T>, x: T)
    ensures (xs + [x])[..|xs|] == xs && (xs + [x])[|xs|] == x
  {
  }

  lemma InlinePop(s: seq<Chunk>)
    requires s != []
    ensures InlineStack(s) == InlineStack(s[..|s| - 1]) + [InlineChunk(s[|s| - 1])]
  {
  }

  /**
   * `min_first_line_len`: the shortest first line a notation can have, `None`
   * when it has no layout. A child is measured by its own notation.
   */
  function MinFirstLineLen(n: Notation, flat: bool): (r: Option<F.FirstLineLen>)
    ensures flat && r.Some? ==> !r.value.hasNewline
  {
    match n
    case Empty => Some(F.FirstLineLen(0, false))
    case Literal(lit) => Some(F.FirstLineLen(|lit|, false))
    case Newline => if flat then None else Some(F.FirstLineLen(0, true))
    case Flat(body) => MinFirstLineLen(body, true)
    case Indent(_, body) => MinFirstLineLen(body, flat)
    case Choice(opt1, opt2) =>
      var m2 := MinFirstLineLen(opt2, flat);
      if m2.Some? then m2 else MinFirstLineLen(opt1, flat)
    case Concat(left, right) =>
      (match MinFirstLineLen(left, flat)
       case None => None
       case Some(len1) =>
         if len1.hasNewline then Some(len1)
         else
           match MinFirstLineLen(right, flat)
           case None => None
           case Some(len2) => Some(F.FirstLineLen(len1.len + len2.len, len2.hasNewline)))
    case Child(_, body) => MinFirstLineLen(body, flat)
  }

  /** Measuring a notation measures it with its children inlined. */
  lemma {:induction false} MinFirstLineLenInlined(n: Notation, flat: bool)
    ensures MinFirstLineLen(n, flat) == F.MinFirstLineLen(Inline(n), flat)
  {
    match n
    case Empty =>
    case Literal(_) =>
    case Newline =>
    case Flat(body) => MinFirstLineLenInlined(body, true);
    case Indent(_, body) => MinFirstLineLenInlined(body, flat);
    case Choice(opt1, opt2) => MinFirstLineLenInlined(opt1, flat); MinFirstLineLenInlined(opt2, flat);
    case Concat(left, right) => MinFirstLineLenInlined(left, flat); MinFirstLineLenInlined(right, flat);
    case Child(_, body) => MinFirstLineLenInlined(body, flat);
  }

  /** Measuring the inlined stack `s[..i]` takes the first line of its top chunk first. */
  lemma {:induction false} MeasurePop(s: seq<Chunk>, i: nat, len: nat)
    requires 0 < i <= |s|
    ensures MinFirstLineLen(s[i - 1].note, s[i - 1].indent.None?).None? ==> P.Measure(InlineStack(s[..i]), len).None?
    ensures var m := MinFirstLineLen(s[i - 1].note, s[i - 1].indent.None?);
      m.Some? && m.value.hasNewline ==> P.Measure(InlineStack(s[..i]), len) == Some(len + m.value.len)
    ensures var m := MinFirstLineLen(s[i - 1].note, s[i - 1].indent.None?);
      m.Some? && !m.value.hasNewline ==> P.Measure(InlineStack(s[..i]), len) == P.Measure(InlineStack(s[..i - 1]), len + m.value.len)
  {
    var c := s[i - 1];
    InlinePop(s[..i]);
    assert s[..i][..i - 1] == s[..i - 1];
    MinFirstLineLenInlined(c.note, c.indent.None?);
  }

  /**
   * `compute_suffix_len`: adds up the first lines of the chunks from the top
   * of the stack down, and stops after the first one that ends in a newline.
   * `None` where the source's `unwrap` panics on a chunk with no layout.
   */
  method ComputeSuffixLen(next: seq<Chunk>) returns (r: Option<nat>)
    ensures r == P.SuffixLen(InlineStack(next))
  {
    P.MeasureIsSuffixLen(InlineStack(next), 0);
    var len: nat := 0;
    var i := |next|;
    assert next[..i] == next;
    while i > 0
      invariant 0 <= i <= |next|
      invariant P.Measure(InlineStack(next[..i]), len) == P.Measure(InlineStack(next), 0)
    {
      var c := next[i - 1];
      var m := MinFirstLineLen(c.note, c.indent.None?);
      MeasurePop(next, i, len);
      if m.None? {
        return None;
      }
      len := len + m.value.len;
      if m.value.hasNewline {
        return Some(len);
      }
      i := i - 1;
    }
    r := Some(len);
  }

  /**
   * `choose`: the first option when it has a layout whose first line fits
   * after `prefixLen` (and before `suffixLen` when that line does not end in
   * a newline), or when the second option has no layout; else the second.
   */
  function Choose(width: nat, indent: Option<nat>, prefixLen: nat, note1: Notation, note2: Notation, suffixLen: nat): (r: Notation)
    ensures r == note1 || r == note2
    ensures note1 != note2 ==>
      var m1 := MinFirstLineLen(note1, indent.None?);
      (r == note1 <==>
        m1.Some? &&
        ((prefixLen + m1.value.len + (if m1.value.hasNewline then 0 else suffixLen) <= width)
         || MinFirstLineLen(note2, indent.None?).None?))
  {
    var flat := indent.None?;
    match MinFirstLineLen(note1, flat)
    case Some(len1) =>
      var fits := if len1.hasNewline then prefixLen + len1.len <= width
                  else prefixLen + len1.len + suffixLen <= width;
      if fits then note1
      else if MinFirstLineLen(note2, flat).None? then note1
      else note2
    case None => note2
  }

  /** Choosing between two notations chooses between them with their children inlined. */
  lemma {:induction false} ChooseInlined(width: nat, indent: Option<nat>, prefixLen: nat, note1: Notation, note2: Notation, suffixLen: nat)
    ensures Inline(Choose(width, indent, prefixLen, note1, note2, suffixLen))
         == F.Choose(width, indent, prefixLen, Inline(note1), Inline(note2), suffixLen)
  {
    MinFirstLineLenInlined(note1, indent.None?);
    MinFirstLineLenInlined(note2, indent.None?);
  }

  /** The state after one iteration of the loop of `print_first_line`. */
  datatype ScanState =
    | Scanning(next: seq<Chunk>, text: string, prefixLen: nat)
    | AtNewline(text: string, indent: nat, rest: seq<Chunk>)
    | ScanPanic

  /**
   * One iteration of the loop of `print_first_line`, on the chunk at the top
   * of `next`; a child gives way to its own notation.
   */
  function ScanStep(width: nat, next: seq<Chunk>, text: string, prefixLen: nat): (r: ScanState)
    requires next != []
  {
    var c := next[|next| - 1];
    var rest := next[..|next| - 1];
    var indent := c.indent;
    match c.note
    case Empty => Scanning(rest, text, prefixLen)
    case Literal(lit) => Scanning(rest, text + lit, prefixLen + |lit|)
    case Newline => if indent.None? then ScanPanic else AtNewline(text, indent.value, rest)
    case Indent(j, note) =>
      Scanning(rest + [Chunk(if indent.Some? then Some(indent.value + j) else None, note)], text, prefixLen)
    case Flat(note) => Scanning(rest + [Chunk(None, note)], text, prefixLen)
    case Concat(left, right) => Scanning(rest + [Chunk(indent, right)] + [Chunk(indent, left)], text, prefixLen)
    case Choice(opt1, opt2) =>
      (match P.SuffixLen(InlineStack(rest))
       case None => ScanPanic
       case Some(suffixLen) =>
         Scanning(rest + [Chunk(indent, Choose(width, indent, prefixLen, opt1, opt2, suffixLen))], text, prefixLen))
    case Child(_, note) => Scanning(rest + [Chunk(indent, note)], text, prefixLen)
  }

  /** Stack `b` is below stack `a`: smaller once inlined, or as large inlined and smaller as it is. */
  predicate Smaller(b: seq<Chunk>, a: seq<Chunk>) {
    P.StackSize(InlineStack(b)) < P.StackSize(InlineStack(a)) ||
    (P.StackSize(InlineStack(b)) == P.StackSize(InlineStack(a)) && StackSize(b) < StackSize(a))
  }

  /** A scan state with its stacks inlined. */
  function Lift(r: ScanState): P.ScanState {
    match r
    case Scanning(n, t, p) => P.Scanning(InlineStack(n), t, p)
    case AtNewline(t, i, rest) => P.Stopped(P.AtNewline(t, i, InlineStack(rest)))
    case ScanPanic => P.Stopped(P.ScanPanic)
  }

  /** Every step but a child's or a choice's is the `if_flat` step on the inlined stack. */
  lemma LiftedStep(width: nat, rest: seq<Chunk>, c: Chunk, text: string, prefixLen: nat)
    requires !c.note.Child? && !c.note.Choice?
    ensures P.ScanStep(width, InlineStack(rest + [c]), text, prefixLen) == Lift(ScanStep(width, rest + [c], text, prefixLen))
  {
    match c.note
    case Indent(_, _) => LiftedIndent(width, rest, c, text, prefixLen);
    case Flat(_) => LiftedFlat(width, rest, c, text, prefixLen);
    case Concat(_, _) => LiftedConcat(width, rest, c, text, prefixLen);
    case _ => LiftedLeaf(width, rest, c, text, prefixLen);
  }

  lemma LiftedIndent(width: nat, rest: seq<Chunk>, c: Chunk, text: string, prefixLen: nat)
    requires c.note.Indent?
    ensures P.ScanStep(width, InlineStack(rest + [c]), text, prefixLen) == Lift(ScanStep(width, rest + [c], text, prefixLen))
  {
    InlinePush(rest, c);
    PushTop(InlineStack(rest), InlineChunk(c));
    PushTop(rest, c);
    var indent := c.indent;
    InlinePush(rest, Chunk(if indent.Some? then Some(indent.value + c.note.amount) else None, c.note.body));
  }

  lemma LiftedFlat(width: nat, rest: seq<Chunk>, c: Chunk, text: string, prefixLen: nat)
    requires c.note.Flat?
    ensures P.ScanStep(width, InlineStack(rest + [c]), text, prefixLen) == Lift(ScanStep(width, rest + [c], text, prefixLen))
  {
    InlinePush(rest, c);
    PushTop(InlineStack(rest), InlineChunk(c));
    PushTop(rest, c);
    InlinePush(rest, Chunk(None, c.note.body));
  }

  lemma LiftedConcat(width: nat, rest: seq<Chunk>, c: Chunk, text: string, prefixLen: nat)
    requires c.note.Concat?
    ensures P.ScanStep(width, InlineStack(rest + [c]), text, prefixLen) == Lift(ScanStep(width, rest + [c], text, prefixLen))
  {
    InlinePush(rest, c);
    PushTop(InlineStack(rest), InlineChunk(c));
    PushTop(rest, c);
    InlinePush(rest, Chunk(c.indent, c.note.right));
    InlinePush(rest + [Chunk(c.indent, c.note.right)], Chunk(c.indent, c.note.left));
  }

  lemma LiftedLeaf(width: nat, rest: seq<Chunk>, c: Chunk, text: string, prefixLen: nat)
    requires !c.note.Child? && !c.note.Choice? && !c.note.Indent? && !c.note.Flat? && !c.note.Concat?
    ensures P.ScanStep(width, InlineStack(rest + [c]), text, prefixLen) == Lift(ScanStep(width, rest + [c], text, prefixLen))
  {
    InlinePush(rest, c);
    PushTop(InlineStack(rest), InlineChunk(c));
    PushTop(rest, c);
  }

  /** The `if_flat` scan step on a choice with something printable after it resolves the choice. */
  lemma {:induction false} ChoiceScanned(width: nat, xs: seq<P.Chunk>, c: P.Chunk, text: string, prefixLen: nat, suffixLen: nat)
    requires c.note.Choice? && P.SuffixLen(xs) == Some(suffixLen)
    ensures P.ScanStep(width, xs + [c], text, prefixLen) ==
      P.Scanning(xs + [P.Chunk(c.indent, F.Choose(width, c.indent, prefixLen, c.note.opt1, c.note.opt2, suffixLen))], text, prefixLen)
  {
    PushTop(xs, c);
  }

  /** The `if_flat` scan step on a choice with nothing printable after it panics. */
  lemma {:induction false} ChoiceScanPanics(width: nat, xs: seq<P.Chunk>, c: P.Chunk, text: string, prefixLen: nat)
    requires c.note.Choice? && P.SuffixLen(xs).None?
    ensures P.ScanStep(width, xs + [c], text, prefixLen) == P.Stopped(P.ScanPanic)
  {
    PushTop(xs, c);
  }

  /** The scan step on a choice with something printable after it resolves the choice. */
  lemma {:induction false} ChoiceStepScanned(width: nat, rest: seq<Chunk>, c: Chunk, text: string, prefixLen: nat, suffixLen: nat)
    requires c.note.Choice? && P.SuffixLen(InlineStack(rest)) == Some(suffixLen)
    ensures ScanStep(width, rest + [c], text, prefixLen) ==
      Scanning(rest + [Chunk(c.indent, Choose(width, c.indent, prefixLen, c.note.opt1, c.note.opt2, suffixLen))], text, prefixLen)
  {
    PushTop(rest, c);
  }

  /** The scan step on a choice with nothing printable after it panics. */
  lemma {:induction false} ChoiceStepPanics(width: nat, rest: seq<Chunk>, c: Chunk, text: string, prefixLen: nat)
    requires c.note.Choice? && P.SuffixLen(InlineStack(rest)).None?
    ensures ScanStep(width, rest + [c], text, prefixLen) == ScanPanic
  {
    PushTop(rest, c);
  }

  /** A choice resolved by the scan step is resolved as on the inlined stack. */
  lemma {:induction false} LiftedChoice(width: nat, rest: seq<Chunk>, c: Chunk, text: string, prefixLen: nat, suffixLen: nat)
    requires c.note.Choice? && P.SuffixLen(InlineStack(rest)) == Some(suffixLen)
    ensures P.ScanStep(width, InlineStack(rest) + [InlineChunk(c)], text, prefixLen) == Lift(ScanStep(width, rest + [c], text, prefixLen))
  {
    var chosen := Chunk(c.indent, Choose(width, c.indent, prefixLen, c.note.opt1, c.note.opt2, suffixLen));
    ChoiceScanned(width, InlineStack(rest), InlineChunk(c), text, prefixLen, suffixLen);
    ChoiceStepScanned(width, rest, c, text, prefixLen, suffixLen);
    ChooseInlined(width, c.indent, prefixLen, c.note.opt1, c.note.opt2, suffixLen);
    InlinePush(rest, chosen);
  }

  /** A child step leaves the inlined stack as it is, and the stack itself smaller. */
  lemma {:induction false} ChildStep(width: nat, rest: seq<Chunk>, indent: Option<nat>, i: nat, note: Notation, text: string, prefixLen: nat)
    ensures ScanStep(width, rest + [Chunk(indent, Child(i, note))], text, prefixLen) == Scanning(rest + [Chunk(indent, note)], text, prefixLen)
    ensures InlineStack(rest + [Chunk(indent, note)]) == InlineStack(rest + [Chunk(indent, Child(i, note))])
    ensures StackSize(rest + [Chunk(indent, note)]) < StackSize(rest + [Chunk(indent, Child(i, note))])
  {
    PushTop(rest, Chunk(indent, Child(i, note)));
    InlinePush(rest, Chunk(indent, note));
    InlinePush(rest, Chunk(indent, Child(i, note)));
    StackSizePush(rest, Chunk(indent, note));
    StackSizePush(rest, Chunk(indent, Child(i, note)));
  }

  /**
   * A scan step leaves the scan of the inlined stack where it was: a child
   * step leaves the inlined stack as it is, and every other step is the
   * `if_flat` step on the inlined stack.
   */
  lemma {:induction false} ScanStepInlined(width: nat, next: seq<Chunk>, text: string, prefixLen: nat)
    requires next != []
    ensures var r := ScanStep(width, next, text, prefixLen);
      r.Scanning? ==> Smaller(r.next, next)
    ensures var r := ScanStep(width, next, text, prefixLen);
      r.Scanning? ==>
        P.ScanLine(width, InlineStack(next), text, prefixLen) == P.ScanLine(width, InlineStack(r.next), r.text, r.prefixLen)
    ensures var r := ScanStep(width, next, text, prefixLen);
      r.AtNewline? ==> P.ScanLine(width, InlineStack(next), text, prefixLen) == P.AtNewline(r.text, r.indent, InlineStack(r.rest))
    ensures ScanStep(width, next, text, prefixLen).ScanPanic? ==> P.ScanLine(width, InlineStack(next), text, prefixLen) == P.ScanPanic
  {
    var c := next[|next| - 1];
    var rest := next[..|next| - 1];
    assert next == rest + [c];
    if c.note.Child? {
      ChildStep(width, rest, c.indent, c.note.index, c.note.body, text, prefixLen);
    } else if c.note.Choice? {
      InlinePush(rest, c);
      var xs := InlineStack(rest);
      if P.SuffixLen(xs).Some? {
        LiftedChoice(width, rest, c, text, prefixLen, P.SuffixLen(xs).value);
      } else {
        ChoiceScanPanics(width, xs, InlineChunk(c), text, prefixLen);
        ChoiceStepPanics(width, rest, c, text, prefixLen);
      }
    } else {
      LiftedStep(width, rest, c, text, prefixLen);
    }
  }

  class DownwardPrinter {
    const width: nat
    var next: seq<Chunk>
    var spaces: nat
    var atEnd: bool

    /** A printer about to print `n` from its first line. */
    constructor(n: Notation, width: nat)
      ensures this.width == width
      ensures next == [Chunk(Some(0), n)] && spaces == 0 && !atEnd
    {
      this.width := width;
      next := [Chunk(Some(0), n)];
      spaces := 0;
      atEnd := false;
    }

    /** One iteration of the loop of `print_first_line`, worked out without changing the printer. */
    method ScanChunk(text: string, prefixLen: nat) returns (s: ScanState)
      requires next != []
      ensures s == ScanStep(width, next, text, prefixLen)
    {
      var c := next[|next| - 1];
      var rest := next[..|next| - 1];
      var indent := c.indent;
      match c.note {
        case Empty =>
          s := Scanning(rest, text, prefixLen);
        case Literal(lit) =>
          s := Scanning(rest, text + lit, prefixLen + |lit|);
        case Newline =>
          if indent.None? {
            return ScanPanic;
          }
          s := AtNewline(text, indent.value, rest);
        case Indent(j, note) =>
          s := Scanning(rest + [Chunk(if indent.Some? then Some(indent.value + j) else None, note)], text, prefixLen);
        case Flat(note) =>
          s := Scanning(rest + [Chunk(None, note)], text, prefixLen);
        case Concat(left, right) =>
          s := Scanning(rest + [Chunk(indent, right)] + [Chunk(indent, left)], text, prefixLen);
        case Choice(opt1, opt2) =>
          var suffixLen := ComputeSuffixLen(rest);
          if suffixLen.None? {
            return ScanPanic;
          }
          var choice := Choose(width, indent, prefixLen, opt1, opt2, suffixLen.value);
          s := Scanning(rest + [Chunk(indent, choice)], text, prefixLen);
        case Child(_, note) =>
          s := Scanning(rest + [Chunk(indent, note)], text, prefixLen);
      }
    }

    /**
     * `print_first_line`: the next line, with the spaces in effect where it
     * began. It does to the stack with its children inlined what the
     * `if_flat` printer does; a child only gives way to its notation.
     */
    method PrintFirstLine() returns (r: P.Printed)
      modifies this
      ensures P.FirstLineStep(width, InlineStack(old(next)), old(spaces), old(atEnd),
                              r, InlineStack(next), spaces, atEnd)
    {
      if atEnd {
        return P.Exhausted;
      }
      var text: string := "";
      var prefixLen: nat := spaces;
      ghost var goal := P.ScanLine(width, InlineStack(next), "", spaces);
      while next != []
        invariant !atEnd && spaces == old(spaces)
        invariant P.ScanLine(width, InlineStack(next), text, prefixLen) == goal
        decreases P.StackSize(InlineStack(next)), StackSize(next)
      {
        var step := ScanChunk(text, prefixLen);
        ScanStepInlined(width, next, text, prefixLen);
        match step {
          case Scanning(n, t, p) =>
            next, text, prefixLen := n, t, p;
          case AtNewline(t, indent, rest) =>
            r := P.Printed(P.Line(spaces, t));
            spaces := indent;
            next := rest;
            return;
          case ScanPanic =>
            return P.Panicked;
        }
      }
      atEnd := true;
      r := P.Printed(P.Line(spaces, text));
    }
  }

  /** `print_downward_for_testing`: runs the downward printer to its end. */
  method PrintDownwardForTesting(n: Notation, width: nat) returns (r: Option<seq<string>>)
    ensures r == P.PrintDownward(Inline(n), width)
  {
    var printer := new DownwardPrinter(n, width);
    var lines: seq<P.Line> := [];
    ghost var goal := P.DownLines(width, InlineStack(printer.next), printer.spaces, printer.atEnd);
    assert goal.Some? ==> [] + goal.value == goal.value;
    while true
      invariant printer.width == width
      invariant goal == P.Prefixed(lines, P.DownLines(width, InlineStack(printer.next), printer.spaces, printer.atEnd))
      decreases P.StackSize(InlineStack(printer.next)), if printer.atEnd then 0 else 1
    {
      ghost var next, spaces, atEnd := InlineStack(printer.next), printer.spaces, printer.atEnd;
      var p := printer.PrintFirstLine();
      P.FirstLineStepLines(width, next, spaces, atEnd, p, InlineStack(printer.next), printer.spaces, printer.atEnd);
      match p {
        case Exhausted =>
          assert lines + [] == lines;
          return Some(P.RenderAll(lines));
        case Panicked =>
          return None;
        case Printed(line) =>
          P.PrefixedAppend(lines, line, P.DownLines(width, InlineStack(printer.next), printer.spaces, printer.atEnd));
          lines := lines + [line];
      }
    }
  }

  lemma {:induction false} InlineCons(c: Chunk, s: seq<Chunk>)
    ensures InlineStack([c] + s) == [InlineChunk(c)] + InlineStack(s)
  {
    InlineAppend([c], s);
    assert InlineStack([c]) == InlineStack([]) + [InlineChunk(c)];
  }

  lemma {:induction false} InlineReversed(s: seq<Chunk>)
    ensures InlineStack(P.Reversed(s)) == P.Reversed(InlineStack(s))
    decreases |s|
  {
    if s != [] {
      var init := s[..|s| - 1];
      InlineReversed(init);
      InlineCons(s[|s| - 1], P.Reversed(init));
      InlinePop(s);
      PushTop(InlineStack(init), InlineChunk(s[|s| - 1]));
    }
  }

  /** `Literal` and `Choice` chunks only: all that the upward printer keeps in `next`. */
  predicate AtomsOnly(s: seq<Chunk>) {
    s == [] || (AtomsOnly(s[..|s| - 1]) && (s[|s| - 1].note.Literal? || s[|s| - 1].note.Choice?))
  }

  /**
   * What a chunk that is neither a leaf nor a child expands into on a
   * stack: its parts in document order, each with its indentation.
   */
  function Expanded(c: Chunk): (r: seq<Chunk>)
    requires c.note.Empty? || c.note.Indent? || c.note.Flat? || c.note.Concat?
    ensures |r| <= 2
  {
    match c.note
    case Indent(j, note) => [Chunk(if c.indent.Some? then Some(c.indent.value + j) else None, note)]
    case Flat(note) => [Chunk(None, note)]
    case Concat(left, right) => [Chunk(c.indent, left), Chunk(c.indent, right)]
    case Empty => []
  }

  /** The state after one iteration of the loop of `seek_start_of_last_line`. */
  datatype SeekState =
    | Seeking(prev: seq<Chunk>, next: seq<Chunk>)
    | Found(indent: nat, prev: seq<Chunk>)
    | SeekPanic

  /**
   * One iteration of the loop of `seek_start_of_last_line`, on the chunk on
   * top of `prev`: literals and choices move to `next`, a newline ends the
   * seek (and is put back unless `deleteNewline`), a child gives way to its
   * notation and every other chunk is expanded in place.
   */
  function SeekStep(prev: seq<Chunk>, next: seq<Chunk>, deleteNewline: bool): (r: SeekState)
    requires prev != []
  {
    var c := prev[|prev| - 1];
    var rest := prev[..|prev| - 1];
    var indent := c.indent;
    match c.note
    case Literal(_) => Seeking(rest, next + [c])
    case Choice(_, _) => Seeking(rest, next + [c])
    case Newline => if indent.None? then SeekPanic else Found(indent.value, if deleteNewline then rest else prev)
    case Child(_, note) => Seeking(rest + [Chunk(indent, note)], next)
    case _ => Seeking(rest + Expanded(c), next)
  }

  /** A seek state with its stacks inlined; `next` is the stack a found newline leaves as it was. */
  function LiftSeek(r: SeekState, next: seq<Chunk>): P.SeekState {
    match r
    case Seeking(p, n) => P.Seeking(InlineStack(p), InlineStack(n))
    case Found(i, p) => P.Settled(P.Sought(Some(i), InlineStack(p), InlineStack(next)))
    case SeekPanic => P.Settled(P.SeekPanic)
  }

  /** Every seek step but a child's is the `if_flat` step on the inlined stacks. */
  lemma {:induction false} LiftedSeekStep(rest: seq<Chunk>, c: Chunk, next: seq<Chunk>, deleteNewline: bool)
    requires !c.note.Child?
    ensures P.SeekStep(InlineStack(rest + [c]), InlineStack(next), deleteNewline)
         == LiftSeek(SeekStep(rest + [c], next, deleteNewline), next)
  {
    InlinePush(rest, c);
    if c.note.Literal? || c.note.Choice? {
      SeekMoves(rest, c, next, deleteNewline);
    } else if c.note.Newline? {
      PushTop(InlineStack(rest), InlineChunk(c));
      PushTop(rest, c);
    } else {
      SeekExpands(rest, c, next, deleteNewline);
    }
  }

  lemma {:induction false} SeekMoves(rest: seq<Chunk>, c: Chunk, next: seq<Chunk>, deleteNewline: bool)
    requires c.note.Literal? || c.note.Choice?
    ensures P.SeekStep(InlineStack(rest) + [InlineChunk(c)], InlineStack(next), deleteNewline)
         == LiftSeek(SeekStep(rest + [c], next, deleteNewline), next)
  {
    MovesStep(rest, c, next, deleteNewline);
    AtomStep(InlineStack(rest), InlineChunk(c), InlineStack(next), deleteNewline);
    InlinePush(next, c);
  }

  /** Seeking moves a literal or a choice from `prev` to `next`. */
  lemma {:induction false} MovesStep(rest: seq<Chunk>, c: Chunk, next: seq<Chunk>, deleteNewline: bool)
    requires c.note.Literal? || c.note.Choice?
    ensures SeekStep(rest + [c], next, deleteNewline) == Seeking(rest, next + [c])
  {
    PushTop(rest, c);
  }

  lemma {:induction false} AtomStep(xs: seq<P.Chunk>, c: P.Chunk, ys: seq<P.Chunk>, deleteNewline: bool)
    requires c.note.Literal? || c.note.Choice?
    ensures P.SeekStep(xs + [c], ys, deleteNewline) == P.Seeking(xs, ys + [c])
  {
    PushTop(xs, c);
  }

  lemma {:induction false} SeekExpands(rest: seq<Chunk>, c: Chunk, next: seq<Chunk>, deleteNewline: bool)
    requires c.note.Empty? || c.note.Indent? || c.note.Flat? || c.note.Concat?
    ensures P.SeekStep(InlineStack(rest) + [InlineChunk(c)], InlineStack(next), deleteNewline)
         == LiftSeek(SeekStep(rest + [c], next, deleteNewline), next)
  {
    ExpandsStep(rest, c, next, deleteNewline);
    ExpandStep(InlineStack(rest), InlineChunk(c), InlineStack(next), deleteNewline);
    InlineExpanded(c);
    InlineAppend(rest, Expanded(c));
  }

  /** Seeking expands a chunk that is neither a leaf nor a child in place. */
  lemma {:induction false} ExpandsStep(rest: seq<Chunk>, c: Chunk, next: seq<Chunk>, deleteNewline: bool)
    requires c.note.Empty? || c.note.Indent? || c.note.Flat? || c.note.Concat?
    ensures SeekStep(rest + [c], next, deleteNewline) == Seeking(rest + Expanded(c), next)
  {
    PushTop(rest, c);
  }

  lemma {:induction false} ExpandStep(xs: seq<P.Chunk>, c: P.Chunk, ys: seq<P.Chunk>, deleteNewline: bool)
    requires c.note.Empty? || c.note.Indent? || c.note.Flat? || c.note.Concat?
    ensures P.SeekStep(xs + [c], ys, deleteNewline) == P.Seeking(xs + P.Expanded(c), ys)
  {
    PushTop(xs, c);
  }

  lemma {:induction false} InlineExpanded(c: Chunk)
    requires c.note.Empty? || c.note.Indent? || c.note.Flat? || c.note.Concat?
    ensures InlineStack(Expanded(c)) == P.Expanded(InlineChunk(c))
  {
    match c.note
    case Concat(left, right) =>
      InlineCons(Chunk(c.indent, left), [Chunk(c.indent, right)]);
      assert InlineStack([Chunk(c.indent, right)]) == InlineStack([]) + [InlineChunk(Chunk(c.indent, right))];
    case Empty =>
    case Indent(_, _) =>
      assert InlineStack(Expanded(c)) == InlineStack([]) + [InlineChunk(Expanded(c)[0])];
    case Flat(_) =>
      assert InlineStack(Expanded(c)) == InlineStack([]) + [InlineChunk(Expanded(c)[0])];
  }

  /** A child seek step leaves the inlined stack as it is, and the stack itself smaller. */
  lemma {:induction false} ChildSeekStep(rest: seq<Chunk>, indent: Option<nat>, i: nat, note: Notation, next: seq<Chunk>, deleteNewline: bool)
    ensures SeekStep(rest + [Chunk(indent, Child(i, note))], next, deleteNewline) == Seeking(rest + [Chunk(indent, note)], next)
    ensures InlineStack(rest + [Chunk(indent, note)]) == InlineStack(rest + [Chunk(indent, Child(i, note))])
    ensures StackSize(rest + [Chunk(indent, note)]) < StackSize(rest + [Chunk(indent, Child(i, note))])
  {
    PushTop(rest, Chunk(indent, Child(i, note)));
    InlinePush(rest, Chunk(indent, note));
    InlinePush(rest, Chunk(indent, Child(i, note)));
    StackSizePush(rest, Chunk(indent, note));
    StackSizePush(rest, Chunk(indent, Child(i, note)));
  }

  /** A seek step leaves the seek of the inlined stacks where it was. */
  lemma {:induction false} SeekStepInlined(prev: seq<Chunk>, next: seq<Chunk>, deleteNewline: bool)
    requires prev != []
    ensures var r := SeekStep(prev, next, deleteNewline);
      r.Seeking? ==> Smaller(r.prev, prev)
    ensures var r := SeekStep(prev, next, deleteNewline);
      r.Seeking? ==>
        P.SeekStart(InlineStack(prev), InlineStack(next), deleteNewline)
        == P.SeekStart(InlineStack(r.prev), InlineStack(r.next), deleteNewline)
    ensures var r := SeekStep(prev, next, deleteNewline);
      r.Found? ==>
        P.SeekStart(InlineStack(prev), InlineStack(next), deleteNewline)
        == P.Sought(Some(r.indent), InlineStack(r.prev), InlineStack(next))
    ensures SeekStep(prev, next, deleteNewline).SeekPanic? ==>
      P.SeekStart(InlineStack(prev), InlineStack(next), deleteNewline) == P.SeekPanic
  {
    var c := prev[|prev| - 1];
    var rest := prev[..|prev| - 1];
    assert prev == rest + [c];
    if c.note.Child? {
      ChildSeekStep(rest, c.indent, c.note.index, c.note.body, next, deleteNewline);
    } else {
      LiftedSeekStep(rest, c, next, deleteNewline);
    }
  }

  /** One iteration of the loop of `seek_start_of_last_line`, on the printer's two stacks. */
  method SeekChunk(prev: seq<Chunk>, next: seq<Chunk>, deleteNewline: bool) returns (s: SeekState)
    requires prev != []
    ensures s == SeekStep(prev, next, deleteNewline)
    ensures s.Seeking? && AtomsOnly(next) ==> AtomsOnly(s.next)
  {
    var c := prev[|prev| - 1];
    var rest := prev[..|prev| - 1];
    var indent := c.indent;
    match c.note {
      case Empty =>
        s := Seeking(rest, next);
      case Literal(_) =>
        PushTop(next, c);
        s := Seeking(rest, next + [c]);
      case Newline =>
        if indent.None? {
          return SeekPanic;
        }
        s := Found(indent.value, if deleteNewline then rest else prev);
      case Indent(j, note) =>
        s := Seeking(rest + [Chunk(if indent.Some? then Some(indent.value + j) else None, note)], next);
      case Flat(note) =>
        s := Seeking(rest + [Chunk(None, note)], next);
      case Concat(left, right) =>
        s := Seeking(rest + [Chunk(indent, left), Chunk(indent, right)], next);
      case Choice(_, _) =>
        PushTop(next, c);
        s := Seeking(rest, next + [c]);
      case Child(_, note) =>
        s := Seeking(rest + [Chunk(indent, note)], next);
    }
  }

  /**
   * The loop of `seek_start_of_last_line` on the printer's two stacks: what
   * the `if_flat` seek does to them inlined.
   */
  method SeekStartOf(prev: seq<Chunk>, next: seq<Chunk>, deleteNewline: bool)
    returns (panicked: bool, found: Option<nat>, prev': seq<Chunk>, next': seq<Chunk>)
    ensures panicked <==> P.SeekStart(InlineStack(prev), InlineStack(next), deleteNewline).SeekPanic?
    ensures !panicked ==>
      P.SeekStart(InlineStack(prev), InlineStack(next), deleteNewline) == P.Sought(found, InlineStack(prev'), InlineStack(next'))
    ensures !panicked && AtomsOnly(next) ==> AtomsOnly(next')
  {
    prev', next' := prev, next;
    ghost var goal := P.SeekStart(InlineStack(prev), InlineStack(next), deleteNewline);
    while prev' != []
      invariant AtomsOnly(next) ==> AtomsOnly(next')
      invariant P.SeekStart(InlineStack(prev'), InlineStack(next'), deleteNewline) == goal
      decreases P.StackSize(InlineStack(prev')), StackSize(prev')
    {
      var step := SeekChunk(prev', next', deleteNewline);
      SeekStepInlined(prev', next', deleteNewline);
      match step {
        case Seeking(p, n) =>
          prev', next' := p, n;
        case Found(indent, p) =>
          return false, Some(indent), p, next';
        case SeekPanic =>
          return true, None, prev', next';
      }
    }
    return false, None, prev', next';
  }

  /** A literal walked over moves to `prev` as it does on the inlined stacks. */
  lemma {:induction false} WalkLiteral(width: nat, prev: seq<Chunk>, rest: seq<Chunk>, c: Chunk, column: nat)
    requires c.note.Literal?
    ensures P.WalkStep(width, InlineStack(prev), InlineStack(rest + [c]), column)
         == P.Walked(InlineStack(prev + [c]), InlineStack(rest), column + |c.note.lit|)
  {
    InlinePush(rest, c);
    InlinePush(prev, c);
    PushTop(InlineStack(rest), InlineChunk(c));
  }

  /** How a walk step goes on once the seek after a choice is done. */
  function Resumed(seek: P.Seek): (r: P.Walk)
    ensures r.WalkPanic? <==> seek.SeekPanic?
  {
    match seek
    case SeekPanic => P.WalkPanic
    case Sought(found, p, n) => P.Walked(p, n, found.GetOr(0))
  }

  /** The `if_flat` walk step panics on a choice with nothing printable after it. */
  lemma {:induction false} ChoiceWalkPanics(width: nat, xs: seq<P.Chunk>, ys: seq<P.Chunk>, c: P.Chunk, column: nat)
    requires c.note.Choice? && P.SuffixLen(ys).None?
    ensures P.WalkStep(width, xs, ys + [c], column) == P.WalkPanic
  {
    PushTop(ys, c);
  }

  /** The `if_flat` walk step on a choice makes it, then seeks the last line again from the end. */
  lemma {:induction false} ChoiceWalkResumes(width: nat, xs: seq<P.Chunk>, ys: seq<P.Chunk>, c: P.Chunk, column: nat)
    requires c.note.Choice? && P.SuffixLen(ys).Some?
    ensures P.WalkStep(width, xs, ys + [c], column) ==
      Resumed(P.SeekStart(xs + [P.Chunk(c.indent, F.Choose(width, c.indent, column, c.note.opt1, c.note.opt2, P.SuffixLen(ys).value))] + P.Reversed(ys), [], false))
  {
    PushTop(ys, c);
  }

  /** A choice walked over with nothing printable after it panics, as on the inlined stacks. */
  lemma {:induction false} WalkChoicePanics(width: nat, prev: seq<Chunk>, rest: seq<Chunk>, c: Chunk, column: nat)
    requires c.note.Choice? && P.SuffixLen(InlineStack(rest)).None?
    ensures P.WalkStep(width, InlineStack(prev), InlineStack(rest + [c]), column) == P.WalkPanic
  {
    InlinePush(rest, c);
    ChoiceWalkPanics(width, InlineStack(prev), InlineStack(rest), InlineChunk(c), column);
  }

  /**
   * A choice walked over is resolved as on the inlined stacks, and the seek
   * that follows starts from the inlined document with the choice made.
   */
  lemma {:induction false} WalkChoiceResumes(width: nat, prev: seq<Chunk>, rest: seq<Chunk>, c: Chunk, column: nat)
    requires c.note.Choice? && P.SuffixLen(InlineStack(rest)).Some?
    ensures P.WalkStep(width, InlineStack(prev), InlineStack(rest + [c]), column) ==
      Resumed(P.SeekStart(InlineStack(prev + [Chunk(c.indent, Choose(width, c.indent, column, c.note.opt1, c.note.opt2,
                                                                    P.SuffixLen(InlineStack(rest)).value))] + P.Reversed(rest)), [], false))
  {
    var suffixLen := P.SuffixLen(InlineStack(rest)).value;
    var chosen := Chunk(c.indent, Choose(width, c.indent, column, c.note.opt1, c.note.opt2, suffixLen));
    InlinePush(rest, c);
    ChoiceWalkResumes(width, InlineStack(prev), InlineStack(rest), InlineChunk(c), column);
    ChooseInlined(width, c.indent, column, c.note.opt1, c.note.opt2, suffixLen);
    InlinePush(prev, chosen);
    InlineAppend(prev + [chosen], P.Reversed(rest));
    InlineReversed(rest);
  }

  /** Popping a literal off a stack puts it in front of the literals below it. */
  /** `lit` in front of the text `t`, when there is one. */
  function Prepend(lit: string, t: Option<string>): (r: Option<string>)
    ensures r.Some? <==> t.Some?
    ensures r.Some? ==> |r.value| == |lit| + |t.value| && r.value[..|lit|] == lit
  {
    match t
    case None => None
    case Some(s) => Some(lit + s)
  }

  /** Popping a literal off a stack puts it in front of the literals below it. */
  lemma {:induction false} LiteralTop(s: seq<Chunk>)
    requires s != [] && s[|s| - 1].note.Literal?
    ensures P.Literals(InlineStack(s)) == Prepend(s[|s| - 1].note.lit, P.Literals(InlineStack(s[..|s| - 1])))
  {
    InlinePop(s);
    PushTop(InlineStack(s[..|s| - 1]), InlineChunk(s[|s| - 1]));
  }

  /** A choice on top of a stack is not a literal. */
  lemma {:induction false} ChoiceTop(s: seq<Chunk>)
    requires s != [] && s[|s| - 1].note.Choice?
    ensures P.Literals(InlineStack(s)) == None
  {
    InlinePop(s);
    PushTop(InlineStack(s[..|s| - 1]), InlineChunk(s[|s| - 1]));
  }

  /** The second loop of `print_last_line`, over a stack: its literals from the top, joined. */
  method JoinLiterals(s: seq<Chunk>) returns (text: Option<string>)
    requires AtomsOnly(s)
    ensures text == P.Literals(InlineStack(s))
  {
    var line: string := "";
    var rest := s;
    while rest != []
      invariant AtomsOnly(rest)
      invariant P.Literals(InlineStack(s)).Some? <==> P.Literals(InlineStack(rest)).Some?
      invariant P.Literals(InlineStack(s)).Some? ==> P.Literals(InlineStack(s)).value == line + P.Literals(InlineStack(rest)).value
      decreases |rest|
    {
      var c := rest[|rest| - 1];
      if !c.note.Literal? {
        ChoiceTop(rest);
        return None;
      }
      LiteralTop(rest);
      rest := rest[..|rest| - 1];
      if P.Literals(InlineStack(rest)).Some? {
        Text.ConcatAssoc(line, c.note.lit, P.Literals(InlineStack(rest)).value);
      }
      line := line + c.note.lit;
    }
    Text.EmptyConcat(line);
    return Some(line);
  }

  /** The first half of `print_last_line` on an inlined stack: the stack once the last line is walked. */
  function WalkedBack(width: nat, prev: seq<P.Chunk>): Option<seq<P.Chunk>> {
    match P.SeekStart(prev, [], false)
    case SeekPanic => None
    case Sought(found, p, n) =>
      match P.UpLoop(width, p, n, found.GetOr(0))
      case LoopPanic => None
      case Looped(p2) => Some(p2)
  }

  /** The second half of `print_last_line` on an inlined stack: the line and the state after it. */
  function Finished(prev: seq<P.Chunk>): (r: P.Upward)
    ensures !r.UpExhausted?
  {
    match P.SeekStart(prev, [], true)
    case SeekPanic => P.UpPanic
    case Sought(found, p, n) =>
      match P.Literals(n)
      case None => P.UpPanic
      case Some(text) => P.UpLine(P.Line(found.GetOr(0), text), p, found.None?)
  }

  /** `print_last_line` is its two halves one after the other. */
  lemma {:induction false} LastLineSplits(width: nat, prev: seq<P.Chunk>)
    ensures P.LastLine(width, prev, false) ==
      match WalkedBack(width, prev)
      case None => P.UpPanic
      case Some(p2) => Finished(p2)
  {
  }

  class UpwardPrinter {
    const width: nat
    var prev: seq<Chunk>
    var next: seq<Chunk>
    var atBeginning: bool

    predicate Valid()
      reads this
    {
      AtomsOnly(next)
    }

    /** A printer about to print `n` from its last line. */
    constructor(n: Notation, width: nat)
      ensures Valid() && this.width == width
      ensures prev == [Chunk(Some(0), n)] && next == [] && !atBeginning
    {
      this.width := width;
      prev := [Chunk(Some(0), n)];
      next := [];
      atBeginning := false;
    }

    /** `seek_end`: moves everything on `next` back onto `prev`, in document order. */
    method SeekEnd()
      modifies this
      ensures prev == old(prev) + P.Reversed(old(next)) && next == []
      ensures Valid() && atBeginning == old(atBeginning)
    {
      while next != []
        invariant prev + P.Reversed(next) == old(prev) + P.Reversed(old(next))
        invariant atBeginning == old(atBeginning)
        decreases |next|
      {
        var c := next[|next| - 1];
        var init := next[..|next| - 1];
        assert P.Reversed(next) == [c] + P.Reversed(init);
        next := init;
        prev := prev + [c];
      }
      assert P.Reversed(next) == [];
    }

    /**
     * `seek_start_of_last_line`, with `panicked` standing for the `unwrap` of
     * a flat newline: what the `if_flat` seek does to the inlined stacks.
     */
    method SeekStartOfLastLine(deleteNewline: bool) returns (panicked: bool, found: Option<nat>)
      requires Valid() && next == []
      modifies this
      ensures Valid() && atBeginning == old(atBeginning)
      ensures panicked <==> P.SeekStart(InlineStack(old(prev)), [], deleteNewline).SeekPanic?
      ensures !panicked ==>
        P.SeekStart(InlineStack(old(prev)), [], deleteNewline) == P.Sought(found, InlineStack(prev), InlineStack(next))
    {
      var p, n;
      panicked, found, p, n := SeekStartOf(prev, next, deleteNewline);
      if !panicked {
        prev, next := p, n;
      }
    }

    /**
     * The first loop of `print_last_line`: walks the last line forwards
     * from `prefixLen` columns, resolving its choices.
     */
    method WalkLastLine(prefixLen: nat) returns (panicked: bool)
      requires Valid()
      modifies this
      ensures Valid() && atBeginning == old(atBeginning)
      ensures panicked <==> P.UpLoop(width, InlineStack(old(prev)), InlineStack(old(next)), prefixLen).LoopPanic?
      ensures !panicked ==>
        P.UpLoop(width, InlineStack(old(prev)), InlineStack(old(next)), prefixLen) == P.Looped(InlineStack(prev)) && next == []
    {
      var column: nat := prefixLen;
      ghost var goal := P.UpLoop(width, InlineStack(prev), InlineStack(next), column);
      panicked := false;
      while next != []
        invariant Valid() && atBeginning == old(atBeginning)
        invariant P.UpLoop(width, InlineStack(prev), InlineStack(next), column) == goal
        decreases P.StackSize(InlineStack(prev)) + P.StackSize(InlineStack(next)), |next|
      {
        panicked, column := WalkChunk(column);
        if panicked {
          break;
        }
      }
    }

    /** One pass of the first loop of `print_last_line`, at `column`. */
    method WalkChunk(column: nat) returns (panicked: bool, column': nat)
      requires Valid() && next != []
      modifies this
      ensures Valid() && atBeginning == old(atBeginning)
      ensures panicked <==> P.WalkStep(width, InlineStack(old(prev)), InlineStack(old(next)), column).WalkPanic?
      ensures !panicked ==>
        P.WalkStep(width, InlineStack(old(prev)), InlineStack(old(next)), column) == P.Walked(InlineStack(prev), InlineStack(next), column')
    {
      var c := next[|next| - 1];
      var rest := next[..|next| - 1];
      assert next == rest + [c];
      assert c.note.Literal? || c.note.Choice?;
      assert AtomsOnly(rest);
      next := rest;
      if c.note.Literal? {
        WalkLiteral(width, prev, rest, c, column);
        column' := column + |c.note.lit|;
        prev := prev + [c];
        return false, column';
      }
      var suffixLen := ComputeSuffixLen(rest);
      if suffixLen.None? {
        WalkChoicePanics(width, prev, rest, c, column);
        return true, 0;
      }
      WalkChoiceResumes(width, prev, rest, c, column);
      var choice := Choose(width, c.indent, column, c.note.opt1, c.note.opt2, suffixLen.value);
      prev := prev + [Chunk(c.indent, choice)];
      SeekEnd();
      var seekPanicked, found := SeekStartOfLastLine(false);
      if seekPanicked {
        return true, 0;
      }
      return false, found.GetOr(0);
    }

    /** The second loop of `print_last_line`: the literals left on `next`, from the top. */
    method TakeLiterals() returns (text: Option<string>)
      requires Valid()
      modifies this
      ensures prev == old(prev) && atBeginning == old(atBeginning)
      ensures text == P.Literals(InlineStack(old(next)))
      ensures next == (if text.Some? then [] else old(next))
    {
      text := JoinLiterals(next);
      if text.Some? {
        next := [];
      }
    }

    /** The first half of `print_last_line`: seek back to the last line, then walk it resolving its choices. */
    method WalkBack() returns (panicked: bool)
      requires Valid() && next == []
      modifies this
      ensures Valid() && atBeginning == old(atBeginning)
      ensures panicked <==> WalkedBack(width, InlineStack(old(prev))).None?
      ensures !panicked ==> WalkedBack(width, InlineStack(old(prev))) == Some(InlineStack(prev)) && next == []
    {
      var found;
      panicked, found := SeekStartOfLastLine(false);
      if panicked {
        return;
      }
      panicked := WalkLastLine(found.GetOr(0));
    }

    /** The second half of `print_last_line`: seek back again, deleting the newline, and take the line's literals. */
    method FinishLastLine() returns (r: P.Printed)
      requires Valid() && next == []
      modifies this
      ensures Valid()
      ensures Finished(InlineStack(old(prev))).UpPanic? ==> r == P.Panicked
      ensures Finished(InlineStack(old(prev))).UpLine? ==>
        var up := Finished(InlineStack(old(prev)));
        r == P.Printed(up.line) && InlineStack(prev) == up.prev && next == [] && atBeginning == up.atBeginning
    {
      var panicked, lastFound := SeekStartOfLastLine(true);
      if panicked {
        return P.Panicked;
      }
      var spaces: nat;
      if lastFound.Some? {
        atBeginning := false;
        spaces := lastFound.value;
      } else {
        atBeginning := true;
        spaces := 0;
      }
      var text := TakeLiterals();
      if text.None? {
        return P.Panicked;
      }
      r := P.Printed(P.Line(spaces, text.value));
    }

    /**
     * `print_last_line`: the last line not yet printed, with the spaces of
     * the newline before it; `atBeginning` is set when no newline precedes it.
     */
    method PrintLastLine() returns (r: P.Printed)
      requires Valid() && next == []
      modifies this
      ensures Valid()
      ensures P.LastLineStep(width, InlineStack(old(prev)), old(atBeginning), r, InlineStack(prev), InlineStack(next), atBeginning)
    {
      if atBeginning {
        return P.Exhausted;
      }
      LastLineSplits(width, InlineStack(prev));
      var panicked := WalkBack();
      if panicked {
        return P.Panicked;
      }
      r := FinishLastLine();
    }
  }

  /** `print_upward_for_testing`: runs the upward printer to the beginning and reverses its lines. */
  method PrintUpwardForTesting(n: Notation, width: nat) returns (r: Option<seq<string>>)
    ensures r == P.PrintUpward(Inline(n), width)
  {
    var printer := new UpwardPrinter(n, width);
    var lines: seq<P.Line> := [];
    ghost var goal := P.UpLines(width, InlineStack(printer.prev), printer.atBeginning);
    assert goal.Some? ==> [] + goal.value == goal.value;
    while true
      invariant printer.Valid() && printer.next == [] && printer.width == width
      invariant goal == P.Prefixed(lines, P.UpLines(width, InlineStack(printer.prev), printer.atBeginning))
      decreases P.StackSize(InlineStack(printer.prev)), if printer.atBeginning then 0 else 1
    {
      ghost var prev, atBeginning := InlineStack(printer.prev), printer.atBeginning;
      var p := printer.PrintLastLine();
      P.LastLineStepLines(width, prev, atBeginning, p, InlineStack(printer.prev), InlineStack(printer.next), printer.atBeginning);
      match p {
        case Exhausted =>
          assert lines + [] == lines;
          return Some(P.Reversed(P.RenderAll(lines)));
        case Panicked =>
          return None;
        case Printed(line) =>
          P.PrefixedAppend(lines, line, P.UpLines(width, InlineStack(printer.prev), printer.atBeginning));
          lines := lines + [line];
      }
    }
  }
}
