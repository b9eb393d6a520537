/**
 * The partial printers of the `if_flat` generation
 * (src/if_flat/partial_print.rs). The downward printer prints a document
 * one line at a time from the top; a stack `next` holds what is still to be
 * printed, its top (the end of the sequence) first. Each chunk carries its
 * indentation, `None` inside `Flat`.
 *
 * The walks in this file have no arm for `Child`: the match is not
 * exhaustive as written, and the model stops with a panic there.
 */
module IfFlatPartialPrint {
  import opened Wrappers
  import opened IfFlatNotation
  import IfFlatPrint
  import Text

  datatype Chunk = Chunk(indent: Option<nat>, note: Notation)

  /** The number of nodes of a notation. */
  function Size(n: Notation): (k: nat)
    ensures k >= 1
  {
    match n
    case Flat(body) => 1 + Size(body)
    case Indent(_, body) => 1 + Size(body)
    case Choice(opt1, opt2) => 1 + Size(opt1) + Size(opt2)
    case Concat(left, right) => 1 + Size(left) + Size(right)
    case _ => 1
  }

  /** The number of nodes on a stack. */
  function StackSize(s: seq<Chunk>): nat {
    if s == [] then 0 else StackSize(s[..|s| - 1]) + Size(s[|s| - 1].note)
  }

  lemma StackSizePush(s: seq<Chunk>, c: Chunk)
    ensures StackSize(s + [c]) == StackSize(s) + Size(c.note)
  {
    assert (s + [c])[..|s|] == s;
  }

  /** The chunk as a notation of its own: a flat chunk is its notation under `Flat`. */
  function AsNotation(c: Chunk): Notation {
    if c.indent.None? then Flat(c.note) else c.note
  }

  /** What a stack still holds, as one notation: its chunks from the top down, concatenated. */
  function Rest(s: seq<Chunk>): Notation {
    if s == [] then Empty else Concat(AsNotation(s[|s| - 1]), Rest(s[..|s| - 1]))
  }

  /**
   * The length of the text that must follow on the current line: the
   * shortest first line of everything still on the stack. `None` when some
   * chunk measured has no layout, where the source's `unwrap` panics.
   */
  function SuffixLen(s: seq<Chunk>): Option<nat> {
    match MinFirstLineLen(Rest(s), false)
    case None => None
    case Some(l) => Some(l.len)
  }

  /**
   * `len` plus the first lines of the chunks of `s`, measured one at a time
   * from the top down until one ends in a newline.
   */
  function Measure(s: seq<Chunk>, len: nat): Option<nat> {
    if s == [] then Some(len)
    else
      match MinFirstLineLen(s[|s| - 1].note, s[|s| - 1].indent.None?)
      case None => None
      case Some(l) => if l.hasNewline then Some(len + l.len) else Measure(s[..|s| - 1], len + l.len)
  }

  /** Measuring chunk by chunk gives the first line of the whole stack, `len` columns further on. */
  lemma {:induction false} MeasureIsSuffixLen(s: seq<Chunk>, len: nat)
    ensures Measure(s, len) == if SuffixLen(s).Some? then Some(len + SuffixLen(s).value) else None
    decreases |s|
  {
    if s != [] {
      var c := s[|s| - 1];
      var below := s[..|s| - 1];
      assert Rest(s) == Concat(AsNotation(c), Rest(below));
      assert MinFirstLineLen(AsNotation(c), false) == MinFirstLineLen(c.note, c.indent.None?);
      match MinFirstLineLen(c.note, c.indent.None?)
      case None =>
      case Some(l) =>
        if !l.hasNewline {
          MeasureIsSuffixLen(below, len + l.len);
        }
    }
  }

  /**
   * `compute_suffix_len`: adds up the first lines of the chunks from the top
   * of the stack down, and stops after the first one that ends in a newline.
   */
  method ComputeSuffixLen(next: seq<Chunk>) returns (r: Option<nat>)
    ensures r == SuffixLen(next)
  {
    MeasureIsSuffixLen(next, 0);
    var len: nat := 0;
    var i := |next|;
    assert next[..i] == next;
    while i > 0
      invariant 0 <= i <= |next|
      invariant Measure(next[..i], len) == Measure(next, 0)
    {
      assert next[..i][..i - 1] == next[..i - 1];
      var c := next[i - 1];
      var m := MinFirstLineLen(c.note, c.indent.None?);
      if m.None? {
        return None;
      }
      len := len + m.value.len;
      if m.value.hasNewline {
        return Some(len);
      }
      i := i - 1;
    }
    r := Some(len);
  }

  /** A line of output: the spaces that begin it and its text. */
  datatype Line = Line(spaces: nat, text: string)

  /** How the scan of one line ends. */
  datatype Scan =
    | AtNewline(text: string, indent: nat, rest: seq<Chunk>)
    | AtEnd(text: string)
    | ScanPanic

  /** The state after one iteration of the loop of `print_first_line`: still scanning, or stopped. */
  datatype ScanState = Scanning(next: seq<Chunk>, text: string, prefixLen: nat) | Stopped(scan: Scan)

  /**
   * One iteration of the loop of `print_first_line`, on the chunk at the top
   * of `next`: a literal is appended to `text`, a newline ends the line (its
   * indentation becomes the next line's), and a choice is resolved by
   * `choose` against the text before it on the line (`prefixLen`) and the
   * text after it. `Concat` pushes its right part first, so the left part is
   * printed first.
   */
  function ScanStep(width: nat, next: seq<Chunk>, text: string, prefixLen: nat): (r: ScanState)
    requires next != []
    ensures r.Scanning? ==> StackSize(r.next) < StackSize(next)
    ensures r.Stopped? && r.scan.AtNewline? ==>
      StackSize(r.scan.rest) < StackSize(next)
  {
    var c := next[|next| - 1];
    var rest := next[..|next| - 1];
    var indent := c.indent;
    match c.note
    case Empty => Scanning(rest, text, prefixLen)
    case Literal(lit) => Scanning(rest, text + lit, prefixLen + |lit|)
    case Newline => Stopped(if indent.None? then ScanPanic else AtNewline(text, indent.value, rest))
    case Indent(j, note) =>
      var pushed := rest + [Chunk(if indent.Some? then Some(indent.value + j) else None, note)];
      StackSizePush(rest, pushed[|rest|]);
      Scanning(pushed, text, prefixLen)
    case Flat(note) =>
      var pushed := rest + [Chunk(None, note)];
      StackSizePush(rest, pushed[|rest|]);
      Scanning(pushed, text, prefixLen)
    case Concat(left, right) =>
      var pushed := rest + [Chunk(indent, right)] + [Chunk(indent, left)];
      StackSizePush(rest, Chunk(indent, right));
      StackSizePush(rest + [Chunk(indent, right)], Chunk(indent, left));
      Scanning(pushed, text, prefixLen)
    case Choice(opt1, opt2) =>
      (match SuffixLen(rest)
       case None => Stopped(ScanPanic)
       case Some(suffixLen) =>
         var pushed := rest + [Chunk(indent, Choose(width, indent, prefixLen, opt1, opt2, suffixLen))];
         StackSizePush(rest, pushed[|rest|]);
         Scanning(pushed, text, prefixLen))
    case Child(_) => Stopped(ScanPanic)
  }

  /** The loop of `print_first_line`: scan steps until one stops or the stack is empty. */
  function ScanLine(width: nat, next: seq<Chunk>, text: string, prefixLen: nat): (r: Scan)
    ensures r.AtNewline? ==> StackSize(r.rest) < StackSize(next)
    decreases StackSize(next)
  {
    if next == [] then AtEnd(text)
    else
      match ScanStep(width, next, text, prefixLen)
      case Stopped(scan) => scan
      case Scanning(n, t, p) => ScanLine(width, n, t, p)
  }

  /** `lines` in front of the lines of `rest`, unless `rest` is a panic. */
  function Prefixed(lines: seq<Line>, rest: Option<seq<Line>>): (r: Option<seq<Line>>)
    ensures r.Some? <==> rest.Some?
    ensures r.Some? ==> |r.value| == |lines| + |rest.value| && r.value[..|lines|] == lines
  {
    match rest
    case None => None
    case Some(more) => Some(lines + more)
  }

  /** `None` once the walk has panicked, otherwise the lines printed from here to the end. */
  function DownLines(width: nat, next: seq<Chunk>, spaces: nat, atEnd: bool): (r: Option<seq<Line>>)
    ensures r.Some? && !atEnd ==> |r.value| >= 1 && r.value[0].spaces == spaces
    decreases StackSize(next), if atEnd then 0 else 1
  {
    if atEnd then Some([])
    else
      match ScanLine(width, next, "", spaces)
      case AtEnd(text) => Some([Line(spaces, text)])
      case ScanPanic => None
      case AtNewline(text, indent, rest) =>
        Prefixed([Line(spaces, text)], DownLines(width, rest, indent, false))
  }

  /** What `print_first_line` returns: a line, nothing once the end was printed, or a panic. */
  datatype Printed = Printed(line: Line) | Exhausted | Panicked

  /**
   * One call of `print_first_line` from state (`next`, `spaces`, `atEnd`)
   * returning `r` and leaving state (`next'`, `spaces'`, `atEnd'`).
   */
  predicate FirstLineStep(width: nat, next: seq<Chunk>, spaces: nat, atEnd: bool,
                          r: Printed, next': seq<Chunk>, spaces': nat, atEnd': bool)
  {
    if atEnd then r == Exhausted && next' == next && spaces' == spaces && atEnd'
    else
      match ScanLine(width, next, "", spaces)
      case AtNewline(text, indent, rest) =>
        r == Printed(Line(spaces, text)) && next' == rest && spaces' == indent && !atEnd'
      case AtEnd(text) =>
        r == Printed(Line(spaces, text)) && next' == [] && spaces' == spaces && atEnd'
      case ScanPanic => r == Panicked
  }

  /**
   * The lines still to come before a call of `print_first_line` are the line it
   * returns followed by those still to come after it; it panics exactly when
   * they would.
   */
  lemma FirstLineStepLines(width: nat, next: seq<Chunk>, spaces: nat, atEnd: bool,
                           r: Printed, next': seq<Chunk>, spaces': nat, atEnd': bool)
    requires FirstLineStep(width, next, spaces, atEnd, r, next', spaces', atEnd')
    ensures r.Exhausted? <==> DownLines(width, next, spaces, atEnd) == Some([])
    ensures r.Panicked? ==> DownLines(width, next, spaces, atEnd).None?
    ensures r.Printed? ==>
      DownLines(width, next, spaces, atEnd) == Prefixed([r.line], DownLines(width, next', spaces', atEnd'))
    ensures r.Printed? ==>
      StackSize(next') < StackSize(next) || (StackSize(next') == StackSize(next) && !atEnd && atEnd')
  {
    if !atEnd {
      match ScanLine(width, next, "", spaces)
      case AtNewline(text, indent, rest) =>
        assert DownLines(width, next, spaces, atEnd) == Prefixed([Line(spaces, text)], DownLines(width, rest, indent, false));
      case AtEnd(text) =>
        assert [Line(spaces, text)] + [] == [Line(spaces, text)];
      case ScanPanic =>
    }
  }

  class DownwardPrinter {
    const width: nat
    var next: seq<Chunk>
    var spaces: nat
    var atEnd: bool

    /** A printer about to print `n` from its first line. */
    constructor(n: Notation, width: nat)
      ensures this.width == width
      ensures next == [Chunk(Some(0), n)] && spaces == 0 && !atEnd
    {
      this.width := width;
      next := [Chunk(Some(0), n)];
      spaces := 0;
      atEnd := false;
    }

    /**
     * `print_first_line`: the next line, with the spaces in effect where it
     * began. A newline ends the line and sets the spaces of the next one to
     * its own indentation; running out of chunks ends the last line.
     */
    method PrintFirstLine() returns (r: Printed)
      modifies this
      ensures FirstLineStep(width, old(next), old(spaces), old(atEnd), r, next, spaces, atEnd)
    {
      if atEnd {
        return Exhausted;
      }
      var text: string := "";
      var prefixLen: nat := spaces;
      ghost var goal := ScanLine(width, next, "", spaces);
      while next != []
        invariant !atEnd && spaces == old(spaces)
        invariant ScanLine(width, next, text, prefixLen) == goal
        decreases StackSize(next)
      {
        ghost var step := ScanStep(width, next, text, prefixLen);
        var c := next[|next| - 1];
        var rest := next[..|next| - 1];
        var indent := c.indent;
        match c.note {
          case Empty =>
            next := rest;
          case Literal(lit) =>
            text := text + lit;
            prefixLen := prefixLen + |lit|;
            next := rest;
          case Newline =>
            if indent.None? {
              return Panicked;
            }
            r := Printed(Line(spaces, text));
            spaces := indent.value;
            next := rest;
            return;
          case Indent(j, note) =>
            next := rest + [Chunk(if indent.Some? then Some(indent.value + j) else None, note)];
          case Flat(note) =>
            next := rest + [Chunk(None, note)];
          case Concat(left, right) =>
            next := rest + [Chunk(indent, right)] + [Chunk(indent, left)];
          case Choice(opt1, opt2) =>
            var suffixLen := ComputeSuffixLen(rest);
            if suffixLen.None? {
              return Panicked;
            }
            var choice := Choose(width, indent, prefixLen, opt1, opt2, suffixLen.value);
            next := rest + [Chunk(indent, choice)];
          case Child(_) =>
            return Panicked;
        }
        assert step == Scanning(next, text, prefixLen);
      }
      atEnd := true;
      r := Printed(Line(spaces, text));
    }
  }

  /** `format!("{:spaces$}{}", "", line)`. */
  function Render(line: Line): string {
    Text.Spaces(line.spaces) + line.text
  }

  function RenderAll(lines: seq<Line>): (r: seq<string>)
    ensures |r| == |lines|
  {
    if lines == [] then [] else [Render(lines[0])] + RenderAll(lines[1..])
  }

  /** The lines a document prints downward, each written out with its spaces. */
  function PrintDownward(n: Notation, width: nat): Option<seq<string>>
  {
    match DownLines(width, [Chunk(Some(0), n)], 0, false)
    case None => None
    case Some(lines) => Some(RenderAll(lines))
  }

  lemma RenderAllAppend(a: seq<Line>, b: seq<Line>)
    ensures RenderAll(a + b) == RenderAll(a) + RenderAll(b)
  {
    if a == [] {
      assert a + b == b;
    } else {
      assert (a + b)[0] == a[0];
      assert (a + b)[1..] == a[1..] + b;
      RenderAllAppend(a[1..], b);
      assert RenderAll(a + b) == [Render(a[0])] + RenderAll(a[1..] + b);
    }
  }

  /** `print_downward_for_testing`: runs the downward printer to its end. */
  method PrintDownwardForTesting(n: Notation, width: nat) returns (r: Option<seq<string>>)
    ensures r == PrintDownward(n, width)
  {
    var printer := new DownwardPrinter(n, width);
    var lines: seq<Line> := [];
    ghost var goal := DownLines(width, printer.next, printer.spaces, printer.atEnd);
    assert goal.Some? ==> [] + goal.value == goal.value;
    while true
      invariant printer.width == width
      invariant goal == Prefixed(lines, DownLines(width, printer.next, printer.spaces, printer.atEnd))
      decreases StackSize(printer.next), if printer.atEnd then 0 else 1
    {
      ghost var next, spaces, atEnd := printer.next, printer.spaces, printer.atEnd;
      var p := printer.PrintFirstLine();
      FirstLineStepLines(width, next, spaces, atEnd, p, printer.next, printer.spaces, printer.atEnd);
      match p {
        case Exhausted =>
          assert lines + [] == lines;
          return Some(RenderAll(lines));
        case Panicked =>
          return None;
        case Printed(line) =>
          PrefixedAppend(lines, line, DownLines(width, printer.next, printer.spaces, printer.atEnd));
          lines := lines + [line];
      }
    }
  }

  lemma PrefixedAppend(lines: seq<Line>, line: Line, rest: Option<seq<Line>>)
    ensures Prefixed(lines, Prefixed([line], rest)) == Prefixed(lines + [line], rest)
  {
    if rest.Some? {
      assert lines + ([line] + rest.value) == (lines + [line]) + rest.value;
    }
  }

  /**
   * The text of what is on a stack, from the top down, when no chunk is
   * flat and no choice is left: each chunk's text at its indentation.
   */
  predicate Plain(s: seq<Chunk>) {
    forall i :: 0 <= i < |s| ==>
      s[i].indent.Some? && IfFlatPrint.Printable(s[i].note) && IfFlatPrint.ChoiceFree(s[i].note)
  }

  function StackText(s: seq<Chunk>): string
    requires Plain(s)
  {
    if s == [] then ""
    else
      var c := s[|s| - 1];
      IfFlatPrint.TextOf(c.note, c.indent.value) + StackText(s[..|s| - 1])
  }

  /** Pushing a plain chunk keeps the stack plain and puts the chunk's text first. */
  lemma PlainPush(s: seq<Chunk>, c: Chunk)
    requires Plain(s) && c.indent.Some? && IfFlatPrint.Printable(c.note)
    requires IfFlatPrint.ChoiceFree(c.note)
    ensures Plain(s + [c])
    ensures StackText(s + [c]) == IfFlatPrint.TextOf(c.note, c.indent.value) + StackText(s)
  {
    assert (s + [c])[..|s|] == s;
  }

  lemma PlainPop(s: seq<Chunk>)
    requires Plain(s) && s != []
    ensures Plain(s[..|s| - 1])
  {
  }

  /**
   * What scanning a plain stack from `text` prints: all of its text, or its
   * text up to the first newline, whose indentation begins what is left.
   */
  predicate ScansPlainly(r: Scan, text: string, next: seq<Chunk>)
    requires Plain(next)
  {
    (r.AtEnd? && r.text == text + StackText(next)) ||
    (r.AtNewline? && Plain(r.rest) &&
     r.text + "\n" + Text.Spaces(r.indent) + StackText(r.rest) == text + StackText(next))
  }

  /** A scan step over a plain stack keeps the text still to print, or stops at a newline. */
  predicate StepsPlainly(r: ScanState, text: string, next: seq<Chunk>)
    requires Plain(next)
  {
    (r.Scanning? && Plain(r.next) && r.text + StackText(r.next) == text + StackText(next)) ||
    (r.Stopped? && ScansPlainly(r.scan, text, next) && r.scan.AtNewline?)
  }

  lemma ScanStepPlainEmpty(width: nat, rest: seq<Chunk>, indent: nat, text: string, prefixLen: nat)
    requires Plain(rest + [Chunk(Some(indent), Empty)])
    ensures var next := rest + [Chunk(Some(indent), Empty)];
      StepsPlainly(ScanStep(width, next, text, prefixLen), text, next)
  {
    var next := rest + [Chunk(Some(indent), Empty)];
    assert next[..|next| - 1] == rest;
    PlainPop(next);
    assert StackText(next) == "" + StackText(rest);
  }

  lemma ScanStepPlainLiteral(width: nat, rest: seq<Chunk>, indent: nat, lit: string, text: string, prefixLen: nat)
    requires Plain(rest + [Chunk(Some(indent), Literal(lit))])
    ensures var next := rest + [Chunk(Some(indent), Literal(lit))];
      StepsPlainly(ScanStep(width, next, text, prefixLen), text, next)
  {
    var next := rest + [Chunk(Some(indent), Literal(lit))];
    assert next[..|next| - 1] == rest;
    PlainPop(next);
    assert StackText(next) == lit + StackText(rest);
    assert (text + lit) + StackText(rest) == text + (lit + StackText(rest));
  }

  lemma ScanStepPlainNewline(width: nat, rest: seq<Chunk>, indent: nat, text: string, prefixLen: nat)
    requires Plain(rest + [Chunk(Some(indent), Newline)])
    ensures var next := rest + [Chunk(Some(indent), Newline)];
      StepsPlainly(ScanStep(width, next, text, prefixLen), text, next)
  {
    var next := rest + [Chunk(Some(indent), Newline)];
    assert next[..|next| - 1] == rest;
    PlainPop(next);
    var nl := "\n" + Text.Spaces(indent);
    assert StackText(next) == nl + StackText(rest);
    assert text + nl + StackText(rest) == text + (nl + StackText(rest));
  }

  lemma ScanStepPlainIndent(width: nat, rest: seq<Chunk>, indent: nat, j: nat, body: Notation,
                            text: string, prefixLen: nat)
    requires Plain(rest + [Chunk(Some(indent), Indent(j, body))])
    ensures var next := rest + [Chunk(Some(indent), Indent(j, body))];
      StepsPlainly(ScanStep(width, next, text, prefixLen), text, next)
  {
    var next := rest + [Chunk(Some(indent), Indent(j, body))];
    assert next[..|next| - 1] == rest;
    assert next[|next| - 1].note == Indent(j, body);
    PlainPop(next);
    PlainPush(rest, Chunk(Some(indent + j), body));
  }

  lemma ScanStepPlainConcat(width: nat, rest: seq<Chunk>, indent: nat, left: Notation, right: Notation,
                            text: string, prefixLen: nat)
    requires Plain(rest + [Chunk(Some(indent), Concat(left, right))])
    ensures var next := rest + [Chunk(Some(indent), Concat(left, right))];
      StepsPlainly(ScanStep(width, next, text, prefixLen), text, next)
  {
    var next := rest + [Chunk(Some(indent), Concat(left, right))];
    assert next[..|next| - 1] == rest;
    assert next[|next| - 1].note == Concat(left, right);
    SplitConcatText(rest, indent, left, right);
    assert ScanStep(width, next, text, prefixLen) ==
      Scanning(rest + [Chunk(Some(indent), right)] + [Chunk(Some(indent), left)], text, prefixLen);
  }

  /** Splitting a concatenation into its two parts keeps a plain stack's text. */
  lemma SplitConcatText(rest: seq<Chunk>, indent: nat, left: Notation, right: Notation)
    requires Plain(rest + [Chunk(Some(indent), Concat(left, right))])
    ensures Plain(rest + [Chunk(Some(indent), right)] + [Chunk(Some(indent), left)])
    ensures StackText(rest + [Chunk(Some(indent), right)] + [Chunk(Some(indent), left)]) ==
      StackText(rest + [Chunk(Some(indent), Concat(left, right))])
  {
    var whole := Chunk(Some(indent), Concat(left, right));
    var next := rest + [whole];
    assert next[..|next| - 1] == rest && next[|next| - 1] == whole;
    PlainPop(next);
    PlainPush(rest, whole);
    var once := rest + [Chunk(Some(indent), right)];
    PlainPush(rest, Chunk(Some(indent), right));
    PlainPush(once, Chunk(Some(indent), left));
    var tl := IfFlatPrint.TextOf(left, indent);
    var tr := IfFlatPrint.TextOf(right, indent);
    Text.ConcatAssoc(tl, tr, StackText(rest));
  }

  /** A scan step over a plain stack never panics and prints exactly the stack's text. */
  lemma ScanStepPlain(width: nat, next: seq<Chunk>, text: string, prefixLen: nat)
    requires Plain(next) && next != []
    ensures StepsPlainly(ScanStep(width, next, text, prefixLen), text, next)
  {
    var c := next[|next| - 1];
    var rest := next[..|next| - 1];
    assert next == rest + [c];
    var indent := c.indent.value;
    match c.note
    case Empty => ScanStepPlainEmpty(width, rest, indent, text, prefixLen);
    case Literal(lit) => ScanStepPlainLiteral(width, rest, indent, lit, text, prefixLen);
    case Newline => ScanStepPlainNewline(width, rest, indent, text, prefixLen);
    case Indent(j, body) => ScanStepPlainIndent(width, rest, indent, j, body, text, prefixLen);
    case Concat(left, right) => ScanStepPlainConcat(width, rest, indent, left, right, text, prefixLen);
    case Flat(_) => assert false;
    case Choice(_, _) => assert false;
    case Child(_) => assert false;
  }

  /** Scanning a plain stack never panics, and prints the stack's text. */
  lemma {:induction false} ScanPlain(width: nat, next: seq<Chunk>, text: string, prefixLen: nat)
    requires Plain(next)
    ensures ScansPlainly(ScanLine(width, next, text, prefixLen), text, next)
    decreases StackSize(next)
  {
    if next == [] {
      assert StackText(next) == "" && text + "" == text;
    } else {
      ScanStepPlain(width, next, text, prefixLen);
      match ScanStep(width, next, text, prefixLen)
      case Stopped(scan) =>
      case Scanning(n, t, p) =>
        ScanPlain(width, n, t, p);
    }
  }

  /** The printed lines joined by newline characters. */
  function Joined(lines: seq<Line>): string {
    Text.Join(RenderAll(lines), "\n")
  }

  lemma JoinCons(s: string, rest: seq<string>)
    requires rest != []
    ensures Text.Join([s] + rest, "\n") == s + "\n" + Text.Join(rest, "\n")
    decreases |rest|
  {
    if |rest| > 1 {
      var front := rest[..|rest| - 1];
      assert ([s] + rest)[..|rest|] == [s] + front;
      JoinCons(s, front);
    }
  }

  /** Printing a plain stack downward prints its text, the first line indented by `spaces`. */
  lemma {:induction false} DownLinesPlain(width: nat, next: seq<Chunk>, spaces: nat)
    requires Plain(next)
    ensures DownLines(width, next, spaces, false).Some? &&
      Joined(DownLines(width, next, spaces, false).value) == Text.Spaces(spaces) + StackText(next)
    decreases StackSize(next)
  {
    ScanPlain(width, next, "", spaces);
    Text.EmptyConcat(StackText(next));
    match ScanLine(width, next, "", spaces)
    case AtEnd(text) =>
      assert RenderAll([Line(spaces, text)]) == [Render(Line(spaces, text))];
    case AtNewline(text, indent, rest) =>
      DownLinesPlain(width, rest, indent);
      JoinedCons(spaces, text, DownLines(width, rest, indent, false).value);
      Text.ConcatAssoc(text + "\n", Text.Spaces(indent), StackText(rest));
  }

  /** Putting a line in front of printed lines puts it and a newline in front of their text. */
  lemma JoinedCons(spaces: nat, text: string, tail: seq<Line>)
    requires tail != []
    ensures Joined([Line(spaces, text)] + tail) == Text.Spaces(spaces) + (text + "\n" + Joined(tail))
  {
    var first := [Line(spaces, text)];
    assert (first + tail)[0] == Line(spaces, text) && (first + tail)[1..] == tail;
    assert RenderAll(first + tail) == [Render(Line(spaces, text))] + RenderAll(tail);
    JoinCons(Render(Line(spaces, text)), RenderAll(tail));
  }

  /**
   * For a document without choices, flats or children, the downward printer
   * and the whole-document printer print the same text.
   */
  lemma DownwardMatchesPrettyPrint(n: Notation, width: nat)
    requires IfFlatPrint.Printable(n) && IfFlatPrint.ChoiceFree(n)
    ensures PrintDownward(n, width).Some? &&
      Text.Join(PrintDownward(n, width).value, "\n") == Text.Join(IfFlatPrint.PrettyPrint(n, width), "\n")
  {
    var s := [Chunk(Some(0), n)];
    DownLinesPlain(width, s, 0);
    assert s[..0] == [];
    IfFlatPrint.PrintsTextOf(width, [""], n, 0, 0, 0);
  }

  /** The reverse of a sequence. */
  function Reversed<T>(s: seq<T>): (r: seq<T>)
    ensures |r| == |s| && forall k :: 0 <= k < |s| ==> r[k] == s[|s| - 1 - k]
  {
    if s == [] then [] else [s[|s| - 1]] + Reversed(s[..|s| - 1])
  }

  lemma {:induction false} StackSizeReversed(prev: seq<Chunk>, next: seq<Chunk>)
    ensures StackSize(prev + Reversed(next)) == StackSize(prev) + StackSize(next)
    decreases |next|
  {
    if next != [] {
      var c := next[|next| - 1];
      var init := next[..|next| - 1];
      assert prev + Reversed(next) == (prev + [c]) + Reversed(init);
      StackSizeReversed(prev + [c], init);
      StackSizePush(prev, c);
    } else {
      assert prev + Reversed(next) == prev;
    }
  }

  lemma {:induction false} StackSizeAppend(a: seq<Chunk>, b: seq<Chunk>)
    ensures StackSize(a + b) == StackSize(a) + StackSize(b)
    decreases |b|
  {
    if b == [] {
      assert a + b == a;
    } else {
      var init := b[..|b| - 1];
      assert a + b == (a + init) + [b[|b| - 1]];
      StackSizeAppend(a, init);
      StackSizePush(a + init, b[|b| - 1]);
    }
  }

  /**
   * What a chunk that is neither a leaf nor a child expands into on a
   * stack: its parts in document order, each with its indentation.
   */
  function Expanded(c: Chunk): (r: seq<Chunk>)
    requires c.note.Empty? || c.note.Indent? || c.note.Flat? || c.note.Concat?
    ensures StackSize(r) < Size(c.note)
  {
    match c.note
    case Indent(j, note) =>
      var r := [Chunk(if c.indent.Some? then Some(c.indent.value + j) else None, note)];
      assert r[..0] == [];
      r
    case Flat(note) =>
      var r := [Chunk(None, note)];
      assert r[..0] == [];
      r
    case Concat(left, right) =>
      var r := [Chunk(c.indent, left), Chunk(c.indent, right)];
      assert r[..1] == [r[0]] && r[..1][..0] == [];
      assert StackSize(r[..1]) == Size(left);
      r
    case Empty => []
  }

  /** `Literal` and `Choice` chunks only: all that the upward printer keeps in `next`. */
  predicate AtomsOnly(s: seq<Chunk>) {
    forall i :: 0 <= i < |s| ==> s[i].note.Literal? || s[i].note.Choice?
  }

  /**
   * Where `seek_start_of_last_line` stops: at a newline, with its
   * indentation, or at the beginning of the document (`found == None`).
   */
  datatype Seek = Sought(found: Option<nat>, prev: seq<Chunk>, next: seq<Chunk>) | SeekPanic

  /**
   * `seek_start_of_last_line`: pops `prev` (whose top is the end of the
   * document) back to the last newline, moving literals and unresolved
   * choices onto `next` and expanding everything else. The newline is left
   * on `prev` unless `deleteNewline`.
   */
  function SeekStart(prev: seq<Chunk>, next: seq<Chunk>, deleteNewline: bool): (r: Seek)
    ensures r.Sought? ==> StackSize(r.prev) + StackSize(r.next) <= StackSize(prev) + StackSize(next)
    ensures r.Sought? && r.found.Some? && deleteNewline ==>
      StackSize(r.prev) + StackSize(r.next) < StackSize(prev) + StackSize(next)
    ensures r.Sought? && r.found.None? ==> r.prev == []
    ensures r.Sought? && AtomsOnly(next) ==> AtomsOnly(r.next)
    decreases StackSize(prev)
  {
    if prev == [] then Sought(None, [], next)
    else
      match SeekStep(prev, next, deleteNewline)
      case Settled(seek) => seek
      case Seeking(p, n) => SeekStart(p, n, deleteNewline)
  }

  /** Part way through `seek_start_of_last_line`, or stopped with its outcome. */
  datatype SeekState = Seeking(prev: seq<Chunk>, next: seq<Chunk>) | Settled(seek: Seek)

  /** One pass of the loop of `seek_start_of_last_line`, on the chunk on top of `prev`. */
  function SeekStep(prev: seq<Chunk>, next: seq<Chunk>, deleteNewline: bool): (r: SeekState)
    requires prev != []
    ensures r.Seeking? ==> StackSize(r.prev) < StackSize(prev)
    ensures r.Seeking? ==> StackSize(r.prev) + StackSize(r.next) <= StackSize(prev) + StackSize(next)
    ensures r.Seeking? && AtomsOnly(next) ==> AtomsOnly(r.next)
    ensures r.Settled? && r.seek.Sought? ==> r.seek.found.Some? && r.seek.next == next
    ensures r.Settled? && r.seek.Sought? ==> StackSize(r.seek.prev) <= StackSize(prev)
    ensures r.Settled? && r.seek.Sought? && deleteNewline ==> StackSize(r.seek.prev) < StackSize(prev)
  {
    var c := prev[|prev| - 1];
    var rest := prev[..|prev| - 1];
    match c.note
    case Literal(_) =>
      StackSizePush(next, c);
      Seeking(rest, next + [c])
    case Choice(_, _) =>
      StackSizePush(next, c);
      Seeking(rest, next + [c])
    case Newline =>
      if c.indent.None? then Settled(SeekPanic)
      else Settled(Sought(Some(c.indent.value), if deleteNewline then rest else prev, next))
    case Child(_) => Settled(SeekPanic)
    case _ =>
      StackSizeAppend(rest, Expanded(c));
      Seeking(rest + Expanded(c), next)
  }

  /** A newline of `n` that seeking meets: one that is not inside a `Choice`. */
  predicate BareNewline(n: Notation) {
    match n
    case Newline => true
    case Flat(body) => BareNewline(body)
    case Indent(_, body) => BareNewline(body)
    case Concat(left, right) => BareNewline(left) || BareNewline(right)
    case _ => false
  }

  /** No chunk of `s` holds a newline that seeking would meet. */
  predicate NewlineFree(s: seq<Chunk>) {
    forall i :: 0 <= i < |s| ==> !BareNewline(s[i].note)
  }

  lemma NewlineFreePop(s: seq<Chunk>)
    requires s != []
    ensures NewlineFree(s) <==> NewlineFree(s[..|s| - 1]) && !BareNewline(s[|s| - 1].note)
  {
    if NewlineFree(s[..|s| - 1]) && !BareNewline(s[|s| - 1].note) {
      forall i | 0 <= i < |s|
        ensures !BareNewline(s[i].note)
      {
        if i < |s| - 1 {
          assert s[i] == s[..|s| - 1][i];
        }
      }
    }
  }

  lemma NewlineFreeExpanded(rest: seq<Chunk>, c: Chunk)
    requires c.note.Empty? || c.note.Indent? || c.note.Flat? || c.note.Concat?
    ensures NewlineFree(rest + Expanded(c)) <==> NewlineFree(rest) && !BareNewline(c.note)
  {
    var s := rest + Expanded(c);
    assert forall i :: 0 <= i < |rest| ==> s[i] == rest[i];
    if c.note.Concat? {
      assert s[|rest|] == Chunk(c.indent, c.note.left) && s[|rest| + 1] == Chunk(c.indent, c.note.right);
    } else if !c.note.Empty? {
      assert s[|rest|] == Expanded(c)[0];
    }
  }

  /**
   * Seeking stops at a newline exactly when there is one to meet: it reaches
   * the beginning of the document (`found == None`) iff no chunk still to be
   * walked back over holds a newline outside a choice.
   */
  lemma {:induction false} SeekFindsNewline(prev: seq<Chunk>, next: seq<Chunk>, deleteNewline: bool)
    ensures SeekStart(prev, next, deleteNewline).Sought? ==>
      (SeekStart(prev, next, deleteNewline).found.None? <==> NewlineFree(prev))
    decreases StackSize(prev)
  {
    if prev != [] {
      var c := prev[|prev| - 1];
      var rest := prev[..|prev| - 1];
      NewlineFreePop(prev);
      match c.note
      case Literal(_) =>
        StackSizePush(next, c);
        SeekFindsNewline(rest, next + [c], deleteNewline);
      case Choice(_, _) =>
        StackSizePush(next, c);
        SeekFindsNewline(rest, next + [c], deleteNewline);
      case Newline =>
      case Child(_) =>
      case _ =>
        NewlineFreeExpanded(rest, c);
        StackSizeAppend(rest, Expanded(c));
        SeekFindsNewline(rest + Expanded(c), next, deleteNewline);
    }
  }

  /** A walk step strictly shrinks the stacks, or keeps their size and shortens `next`. */
  predicate Below(p: seq<Chunk>, n: seq<Chunk>, prev: seq<Chunk>, next: seq<Chunk>) {
    StackSize(p) + StackSize(n) < StackSize(prev) + StackSize(next) ||
    (StackSize(p) + StackSize(n) == StackSize(prev) + StackSize(next) && |n| < |next|)
  }

  /** The state after one iteration of the loop of `print_last_line`, or a panic. */
  datatype Walk = Walked(prev: seq<Chunk>, next: seq<Chunk>, column: nat) | WalkPanic

  /**
   * One iteration of the loop of `print_last_line`, on the chunk at the top
   * of `next`. A literal goes back onto `prev`; a choice is resolved against
   * the text before it on the line and the text after it, and then the last
   * line is sought again from the end of the document.
   */
  function WalkStep(width: nat, prev: seq<Chunk>, next: seq<Chunk>, column: nat): (r: Walk)
    requires next != []
    ensures r.Walked? ==> Below(r.prev, r.next, prev, next)
  {
    var c := next[|next| - 1];
    var rest := next[..|next| - 1];
    StackSizePush(rest, c);
    match c.note
    case Literal(lit) =>
      StackSizePush(prev, c);
      Walked(prev + [c], rest, column + |lit|)
    case Choice(opt1, opt2) =>
      (match SuffixLen(rest)
       case None => WalkPanic
       case Some(suffixLen) =>
         var chosen := Chunk(c.indent, Choose(width, c.indent, column, opt1, opt2, suffixLen));
         StackSizePush(prev, chosen);
         StackSizeReversed(prev + [chosen], rest);
         match SeekStart(prev + [chosen] + Reversed(rest), [], false)
         case SeekPanic => WalkPanic
         case Sought(found, p, n) => Walked(p, n, found.GetOr(0)))
    case _ => WalkPanic
  }

  /** How the loop of `print_last_line` ends: everything back on `prev`, or a panic. */
  datatype Loop = Looped(prev: seq<Chunk>) | LoopPanic

  /** The loop of `print_last_line`: walk steps until `next` is empty. */
  function UpLoop(width: nat, prev: seq<Chunk>, next: seq<Chunk>, column: nat): (r: Loop)
    ensures r.Looped? ==> StackSize(r.prev) <= StackSize(prev) + StackSize(next)
    decreases StackSize(prev) + StackSize(next), |next|
  {
    if next == [] then Looped(prev)
    else
      match WalkStep(width, prev, next, column)
      case WalkPanic => LoopPanic
      case Walked(p, n, col) => UpLoop(width, p, n, col)
  }

  /** The literals of a stack from the top down, joined; `None` if it holds anything else. */
  function Literals(s: seq<Chunk>): Option<string> {
    if s == [] then Some("")
    else match s[|s| - 1].note
      case Literal(lit) =>
        (match Literals(s[..|s| - 1])
         case None => None
         case Some(t) => Some(lit + t))
      case _ => None
  }

  /** What `print_last_line` does: a line and the state after it, nothing at the beginning, or a panic. */
  datatype Upward = UpLine(line: Line, prev: seq<Chunk>, atBeginning: bool) | UpExhausted | UpPanic

  function LastLine(width: nat, prev: seq<Chunk>, atBeginning: bool): (r: Upward)
    ensures atBeginning <==> r.UpExhausted?
    ensures r.UpLine? && r.atBeginning ==> r.prev == [] && r.line.spaces == 0
    ensures r.UpLine? && !r.atBeginning ==> StackSize(r.prev) < StackSize(prev)
  {
    if atBeginning then UpExhausted
    else
      match SeekStart(prev, [], false)
      case SeekPanic => UpPanic
      case Sought(found, p, n) =>
        match UpLoop(width, p, n, found.GetOr(0))
        case LoopPanic => UpPanic
        case Looped(p2) =>
          match SeekStart(p2, [], true)
          case SeekPanic => UpPanic
          case Sought(found2, p3, n3) =>
            match Literals(n3)
            case None => UpPanic
            case Some(text) => UpLine(Line(found2.GetOr(0), text), p3, found2.None?)
  }

  /** The lines printed upward from here, the last line of the document first. */
  function UpLines(width: nat, prev: seq<Chunk>, atBeginning: bool): (r: Option<seq<Line>>)
    ensures r.Some? && !atBeginning ==> |r.value| >= 1
    decreases StackSize(prev), if atBeginning then 0 else 1
  {
    match LastLine(width, prev, atBeginning)
    case UpExhausted => Some([])
    case UpPanic => None
    case UpLine(line, p, b) => Prefixed([line], UpLines(width, p, b))
  }

  /** The lines a document prints upward, put back in document order. */
  function PrintUpward(n: Notation, width: nat): Option<seq<string>>
  {
    match UpLines(width, [Chunk(Some(0), n)], false)
    case None => None
    case Some(lines) => Some(Reversed(RenderAll(lines)))
  }

  /**
   * One call of `print_last_line` from state (`prev`, `atBeginning`) with
   * nothing on `next`, returning `r` and leaving state (`prev'`, `next'`,
   * `atBeginning'`).
   */
  predicate LastLineStep(width: nat, prev: seq<Chunk>, atBeginning: bool,
                         r: Printed, prev': seq<Chunk>, next': seq<Chunk>, atBeginning': bool)
  {
    match LastLine(width, prev, atBeginning)
    case UpExhausted => r == Exhausted && prev' == prev && next' == [] && atBeginning'
    case UpPanic => r == Panicked
    case UpLine(line, p, b) => r == Printed(line) && prev' == p && next' == [] && atBeginning' == b
  }

  /**
   * The lines still to come upward before a call of `print_last_line` are the
   * line it returns followed by those still to come after it.
   */
  lemma LastLineStepLines(width: nat, prev: seq<Chunk>, atBeginning: bool,
                          r: Printed, prev': seq<Chunk>, next': seq<Chunk>, atBeginning': bool)
    requires LastLineStep(width, prev, atBeginning, r, prev', next', atBeginning')
    ensures r.Exhausted? <==> UpLines(width, prev, atBeginning) == Some([])
    ensures r.Panicked? ==> UpLines(width, prev, atBeginning).None?
    ensures r.Printed? ==>
      UpLines(width, prev, atBeginning) == Prefixed([r.line], UpLines(width, prev', atBeginning'))
    ensures r.Printed? ==> next' == []
    ensures r.Printed? ==>
      StackSize(prev') < StackSize(prev) || (StackSize(prev') == StackSize(prev) && !atBeginning && atBeginning')
  {
  }

  class UpwardPrinter {
    const width: nat
    var prev: seq<Chunk>
    var next: seq<Chunk>
    var atBeginning: bool

    predicate Valid()
      reads this
    {
      AtomsOnly(next)
    }

    /** A printer about to print `n` from its last line. */
    constructor(n: Notation, width: nat)
      ensures Valid() && this.width == width
      ensures prev == [Chunk(Some(0), n)] && next == [] && !atBeginning
    {
      this.width := width;
      prev := [Chunk(Some(0), n)];
      next := [];
      atBeginning := false;
    }

    /** `seek_end`: moves everything on `next` back onto `prev`, in document order. */
    method SeekEnd()
      modifies this
      ensures prev == old(prev) + Reversed(old(next)) && next == []
      ensures Valid() && atBeginning == old(atBeginning)
    {
      while next != []
        invariant prev + Reversed(next) == old(prev) + Reversed(old(next))
        invariant atBeginning == old(atBeginning)
        decreases |next|
      {
        var c := next[|next| - 1];
        var init := next[..|next| - 1];
        assert Reversed(next) == [c] + Reversed(init);
        next := init;
        prev := prev + [c];
      }
      assert Reversed(next) == [];
    }

    /** `seek_start_of_last_line`, with `panicked` standing for the `unwrap` of a flat newline. */
    method SeekStartOfLastLine(deleteNewline: bool) returns (panicked: bool, found: Option<nat>)
      requires Valid() && next == []
      modifies this
      ensures Valid() && atBeginning == old(atBeginning)
      ensures panicked <==> SeekStart(old(prev), [], deleteNewline).SeekPanic?
      ensures !panicked ==>
        SeekStart(old(prev), [], deleteNewline) == Sought(found, prev, next)
    {
      ghost var goal := SeekStart(prev, next, deleteNewline);
      while prev != []
        invariant Valid() && atBeginning == old(atBeginning)
        invariant SeekStart(prev, next, deleteNewline) == goal
        decreases StackSize(prev)
      {
        ghost var step := SeekStep(prev, next, deleteNewline);
        var c := prev[|prev| - 1];
        var rest := prev[..|prev| - 1];
        match c.note {
          case Literal(_) =>
            prev := rest;
            next := next + [c];
          case Choice(_, _) =>
            prev := rest;
            next := next + [c];
          case Newline =>
            if c.indent.None? {
              return true, None;
            }
            if deleteNewline {
              prev := rest;
            }
            return false, Some(c.indent.value);
          case Child(_) =>
            return true, None;
          case _ =>
            prev := rest + Expanded(c);
        }
        assert step == Seeking(prev, next);
      }
      return false, None;
    }

    /**
     * The first loop of `print_last_line`: walks the last line forwards
     * from `prefixLen` columns, resolving its choices.
     */
    method WalkLastLine(prefixLen: nat) returns (panicked: bool)
      requires Valid()
      modifies this
      ensures Valid() && atBeginning == old(atBeginning)
      ensures panicked <==> UpLoop(width, old(prev), old(next), prefixLen).LoopPanic?
      ensures !panicked ==> UpLoop(width, old(prev), old(next), prefixLen) == Looped(prev) && next == []
    {
      var column: nat := prefixLen;
      ghost var goal := UpLoop(width, prev, next, column);
      while next != []
        invariant Valid() && atBeginning == old(atBeginning)
        invariant UpLoop(width, prev, next, column) == goal
        decreases StackSize(prev) + StackSize(next), |next|
      {
        panicked, column := WalkChunk(column);
        if panicked {
          return;
        }
      }
      return false;
    }

    /** One pass of the first loop of `print_last_line`, at `column`. */
    method WalkChunk(column: nat) returns (panicked: bool, column': nat)
      requires Valid() && next != []
      modifies this
      ensures Valid() && atBeginning == old(atBeginning)
      ensures panicked <==> WalkStep(width, old(prev), old(next), column).WalkPanic?
      ensures !panicked ==> WalkStep(width, old(prev), old(next), column) == Walked(prev, next, column')
    {
      ghost var step := WalkStep(width, prev, next, column);
      var c := next[|next| - 1];
      var rest := next[..|next| - 1];
      assert AtomsOnly(rest);
      assert c.note.Literal? || c.note.Choice?;
      next := rest;
      if c.note.Literal? {
        column' := column + |c.note.lit|;
        prev := prev + [c];
        return false, column';
      }
      var suffixLen := ComputeSuffixLen(rest);
      if suffixLen.None? {
        return true, 0;
      }
      var choice := Choose(width, c.indent, column, c.note.opt1, c.note.opt2, suffixLen.value);
      prev := prev + [Chunk(c.indent, choice)];
      SeekEnd();
      var seekPanicked, found := SeekStartOfLastLine(false);
      if seekPanicked {
        return true, 0;
      }
      return false, found.GetOr(0);
    }

    /** The second loop of `print_last_line`: the literals left on `next`, from the top. */
    method TakeLiterals() returns (text: Option<string>)
      requires Valid()
      modifies this
      ensures Valid() && prev == old(prev) && atBeginning == old(atBeginning)
      ensures text == Literals(old(next))
      ensures text.Some? ==> next == []
    {
      var line: string := "";
      ghost var goal := Literals(next);
      while next != []
        invariant Valid() && prev == old(prev) && atBeginning == old(atBeginning)
        invariant goal.Some? <==> Literals(next).Some?
        invariant goal.Some? ==> goal.value == line + Literals(next).value
        decreases |next|
      {
        var c := next[|next| - 1];
        if !c.note.Literal? {
          return None;
        }
        next := next[..|next| - 1];
        line := line + c.note.lit;
      }
      assert Literals(next) == Some("") && line + "" == line;
      assert goal == Some(line);
      return Some(line);
    }

    /**
     * `print_last_line`: the last line not yet printed, with the spaces of
     * the newline before it; `atBeginning` is set when no newline precedes it.
     */
    method PrintLastLine() returns (r: Printed)
      requires Valid() && next == []
      modifies this
      ensures Valid()
      ensures LastLineStep(width, old(prev), old(atBeginning), r, prev, next, atBeginning)
    {
      if atBeginning {
        return Exhausted;
      }
      var panicked, found := SeekStartOfLastLine(false);
      if panicked {
        return Panicked;
      }
      panicked := WalkLastLine(found.GetOr(0));
      if panicked {
        return Panicked;
      }
      var lastFound;
      panicked, lastFound := SeekStartOfLastLine(true);
      if panicked {
        return Panicked;
      }
      var spaces: nat;
      if lastFound.Some? {
        atBeginning := false;
        spaces := lastFound.value;
      } else {
        atBeginning := true;
        spaces := 0;
      }
      var text := TakeLiterals();
      if text.None? {
        return Panicked;
      }
      r := Printed(Line(spaces, text.value));
    }
  }

  /** `print_upward_for_testing`: runs the upward printer to the beginning and reverses its lines. */
  method PrintUpwardForTesting(n: Notation, width: nat) returns (r: Option<seq<string>>)
    ensures r == PrintUpward(n, width)
  {
    var printer := new UpwardPrinter(n, width);
    var lines: seq<Line> := [];
    ghost var goal := UpLines(width, printer.prev, printer.atBeginning);
    assert goal.Some? ==> [] + goal.value == goal.value;
    while true
      invariant printer.Valid() && printer.next == [] && printer.width == width
      invariant goal == Prefixed(lines, UpLines(width, printer.prev, printer.atBeginning))
      decreases StackSize(printer.prev), if printer.atBeginning then 0 else 1
    {
      ghost var prev, atBeginning := printer.prev, printer.atBeginning;
      var p := printer.PrintLastLine();
      LastLineStepLines(width, prev, atBeginning, p, printer.prev, printer.next, printer.atBeginning);
      match p {
        case Exhausted =>
          assert lines + [] == lines;
          return Some(Reversed(RenderAll(lines)));
        case Panicked =>
          return None;
        case Printed(line) =>
          PrefixedAppend(lines, line, UpLines(width, printer.prev, printer.atBeginning));
          lines := lines + [line];
      }
    }
  }
}
