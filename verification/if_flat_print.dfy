/**
 * The whole-document printer of the `if_flat` generation
 * (src/if_flat/pretty_print.rs): a recursive walk that appends to a list of
 * lines. A choice takes its first option when that option fits flat in the
 * room left between the text before it on the line and the text that must
 * follow it.
 *
 * The walk has cases for six of the eight notations; `Flat` and `Child` have
 * none, so the model prints only notations built from the other six
 * (`Printable`).
 */
module IfFlatPrint {
  import opened Wrappers
  import opened IfFlatNotation
  import Text

  predicate Printable(n: Notation) {
    match n
    case Flat(_) => false
    case Child(_) => false
    case Indent(_, body) => Printable(body)
    case Choice(opt1, opt2) => Printable(opt1) && Printable(opt2)
    case Concat(left, right) => Printable(left) && Printable(right)
    case _ => true
  }

  lemma {:induction false} PrintableFlatFree(n: Notation)
    requires Printable(n)
    ensures FlatFree(n)
  {
    match n
    case Indent(_, body) => PrintableFlatFree(body);
    case Choice(opt1, opt2) => PrintableFlatFree(opt1); PrintableFlatFree(opt2);
    case Concat(left, right) => PrintableFlatFree(left); PrintableFlatFree(right);
    case _ =>
  }

  /** `a.saturating_sub(b)`. */
  function SaturatingSub(a: nat, b: nat): nat {
    if a >= b then a - b else 0
  }

  /** `lines` grown into `r`: earlier lines kept, the last one extended, new lines after it. */
  predicate Extends(r: seq<string>, lines: seq<string>)
    requires |lines| >= 1
  {
    var k := |lines| - 1;
    |r| >= |lines| && r[..k] == lines[..k] && lines[k] <= r[k]
  }

  lemma ExtendsTransitive(a: seq<string>, b: seq<string>, c: seq<string>)
    requires |c| >= 1 && Extends(b, c) && Extends(a, b)
    ensures Extends(a, c)
  {
    var k := |c| - 1;
    assert a[..k] == a[..|b| - 1][..k];
    assert b[..k] == b[..|b| - 1][..k];
    if |b| - 1 > k {
      assert a[k] == a[..|b| - 1][k];
    }
  }

  /** The first line of a printable notation, measured with newlines allowed. */
  function FirstLine(n: Notation): (l: FirstLineLen)
    requires Printable(n)
  {
    PrintableFlatFree(n);
    FlatFreePossible(n);
    MinFirstLineLen(n, false).value
  }

  /** The lines after printing `n` with the given indentation, prefix and suffix lengths. */
  function PrintLines(width: nat, lines: seq<string>, n: Notation, indent: nat, prefixLen: nat, suffixLen: nat): (r: seq<string>)
    requires |lines| >= 1 && Printable(n)
    ensures |r| >= |lines|
    decreases n
  {
    match n
    case Empty => lines
    case Literal(lit) => lines[|lines| - 1 := lines[|lines| - 1] + lit]
    case Newline => lines + [Text.Spaces(indent)]
    case Indent(i, body) => PrintLines(width, lines, body, indent + i, prefixLen, suffixLen)
    case Choice(note1, note2) =>
      var available := SaturatingSub(width, prefixLen + suffixLen);
      var choice := if FitsWhenFlat(note1, available).Some? then note1 else note2;
      PrintLines(width, lines, choice, indent, prefixLen, suffixLen)
    case Concat(note1, note2) =>
      var newSuffixLen := SuffixAfter(note2, suffixLen);
      var mid := PrintLines(width, lines, note1, indent, prefixLen, newSuffixLen);
      PrintLines(width, mid, note2, indent, LastLen(mid), suffixLen)
  }

  /** Printing keeps the lines before the last, extends the last one and adds new lines after it. */
  lemma {:induction false} PrintLinesExtends(width: nat, lines: seq<string>, n: Notation, indent: nat, prefixLen: nat, suffixLen: nat)
    requires |lines| >= 1 && Printable(n)
    ensures Extends(PrintLines(width, lines, n, indent, prefixLen, suffixLen), lines)
    decreases n
  {
    match n
    case Empty =>
    case Literal(lit) =>
    case Newline =>
      assert (lines + [Text.Spaces(indent)])[..|lines| - 1] == lines[..|lines| - 1];
    case Indent(i, body) =>
      PrintLinesExtends(width, lines, body, indent + i, prefixLen, suffixLen);
    case Choice(note1, note2) =>
      var available := SaturatingSub(width, prefixLen + suffixLen);
      var choice := if FitsWhenFlat(note1, available).Some? then note1 else note2;
      PrintLinesExtends(width, lines, choice, indent, prefixLen, suffixLen);
    case Concat(note1, note2) =>
      var newSuffixLen := SuffixAfter(note2, suffixLen);
      var mid := PrintLines(width, lines, note1, indent, prefixLen, newSuffixLen);
      PrintLinesExtends(width, lines, note1, indent, prefixLen, newSuffixLen);
      PrintLinesExtends(width, mid, note2, indent, LastLen(mid), suffixLen);
      ExtendsTransitive(PrintLines(width, mid, note2, indent, LastLen(mid), suffixLen), mid, lines);
  }

  /**
   * The suffix length while printing the left part of a concatenation: the
   * first line of the right part, and the old suffix too unless that first
   * line ends in a newline.
   */
  function SuffixAfter(n: Notation, suffixLen: nat): nat
    requires Printable(n)
  {
    var len := FirstLine(n);
    if len.hasNewline then len.len else len.len + suffixLen
  }

  /** The length of the last line, where printing continues. */
  function LastLen(lines: seq<string>): nat
    requires |lines| >= 1
  {
    |lines[|lines| - 1]|
  }

  /** `pretty_print`: the lines of a notation printed at the given width, starting from one empty line. */
  function PrettyPrint(n: Notation, width: nat): (r: seq<string>)
    requires Printable(n)
    ensures |r| >= 1
  {
    PrintLines(width, [""], n, 0, 0, 0)
  }

  /** `Spaces(k)` begins line `s`. */
  predicate IndentedBy(s: string, k: nat) {
    Text.Spaces(k) <= s
  }

  lemma SpacesPrefix(a: nat, b: nat)
    requires a <= b
    ensures Text.Spaces(a) <= Text.Spaces(b)
  {
    assert Text.Spaces(b)[..a] == Text.Spaces(a);
  }

  lemma PrefixTransitive(a: string, b: string, c: string)
    requires a <= b && b <= c
    ensures a <= c
  {
    assert c[..|b|] == b;
    assert c[..|a|] == b[..|a|];
  }

  /**
   * Every line the printer adds begins with at least the indentation in
   * effect: nested indents only add to it.
   */
  lemma {:induction false} NewLinesIndented(width: nat, lines: seq<string>, n: Notation, indent: nat, prefixLen: nat, suffixLen: nat)
    requires |lines| >= 1 && Printable(n)
    ensures forall k :: |lines| <= k < |PrintLines(width, lines, n, indent, prefixLen, suffixLen)| ==>
      IndentedBy(PrintLines(width, lines, n, indent, prefixLen, suffixLen)[k], indent)
    decreases n
  {
    var r := PrintLines(width, lines, n, indent, prefixLen, suffixLen);
    match n
    case Empty =>
    case Literal(lit) =>
    case Newline =>
      assert r[|lines|] == Text.Spaces(indent);
    case Indent(i, body) =>
      NewLinesIndented(width, lines, body, indent + i, prefixLen, suffixLen);
      SpacesPrefix(indent, indent + i);
      assert r == PrintLines(width, lines, body, indent + i, prefixLen, suffixLen);
      forall k | |lines| <= k < |r|
        ensures IndentedBy(r[k], indent)
      {
        assert IndentedBy(r[k], indent + i);
        PrefixTransitive(Text.Spaces(indent), Text.Spaces(indent + i), r[k]);
      }
    case Choice(note1, note2) =>
      var available := SaturatingSub(width, prefixLen + suffixLen);
      var choice := if FitsWhenFlat(note1, available).Some? then note1 else note2;
      NewLinesIndented(width, lines, choice, indent, prefixLen, suffixLen);
      assert r == PrintLines(width, lines, choice, indent, prefixLen, suffixLen);
    case Concat(note1, note2) =>
      var newSuffixLen := SuffixAfter(note2, suffixLen);
      var mid := PrintLines(width, lines, note1, indent, prefixLen, newSuffixLen);
      NewLinesIndented(width, lines, note1, indent, prefixLen, newSuffixLen);
      assert forall k :: |lines| <= k < |mid| ==> IndentedBy(mid[k], indent);
      NewLinesIndented(width, mid, note2, indent, LastLen(mid), suffixLen);
      PrintLinesExtends(width, lines, note1, indent, prefixLen, newSuffixLen);
      PrintLinesExtends(width, mid, note2, indent, LastLen(mid), suffixLen);
      assert r == PrintLines(width, mid, note2, indent, LastLen(mid), suffixLen);
      forall k | |lines| <= k < |r|
        ensures IndentedBy(r[k], indent)
      {
        if k < |mid| - 1 {
          assert r[k] == r[..|mid| - 1][k] == mid[..|mid| - 1][k] == mid[k];
          assert IndentedBy(mid[k], indent);
        } else if k == |mid| - 1 {
          assert IndentedBy(mid[k], indent);
          PrefixTransitive(Text.Spaces(indent), mid[k], r[k]);
        } else {
          assert IndentedBy(r[k], indent);
        }
      }
  }

  /** A notation with no choice left to make. */
  predicate ChoiceFree(n: Notation) {
    match n
    case Choice(_, _) => false
    case Indent(_, body) => ChoiceFree(body)
    case Concat(left, right) => ChoiceFree(left) && ChoiceFree(right)
    case Flat(body) => ChoiceFree(body)
    case _ => true
  }

  /**
   * The text of a choice-free notation, independently of the printer: its
   * literals in order, each newline written as a newline character and the
   * indentation in effect.
   */
  function TextOf(n: Notation, indent: nat): string
    requires Printable(n) && ChoiceFree(n)
  {
    match n
    case Empty => ""
    case Literal(lit) => lit
    case Newline => "\n" + Text.Spaces(indent)
    case Indent(i, body) => TextOf(body, indent + i)
    case Concat(left, right) => TextOf(left, indent) + TextOf(right, indent)
  }

  /** Printing a choice-free notation appends exactly its text, whatever the width. */
  lemma {:induction false} PrintsTextOf(width: nat, lines: seq<string>, n: Notation, indent: nat, prefixLen: nat, suffixLen: nat)
    requires |lines| >= 1 && Printable(n) && ChoiceFree(n)
    ensures Text.Join(PrintLines(width, lines, n, indent, prefixLen, suffixLen), "\n") ==
      Text.Join(lines, "\n") + TextOf(n, indent)
    decreases n, 1
  {
    match n
    case Empty =>
    case Literal(lit) =>
      Text.JoinExtendLast(lines, lit);
    case Newline =>
      Text.JoinSnoc(lines, Text.Spaces(indent));
    case Indent(i, body) =>
      PrintsTextOf(width, lines, body, indent + i, prefixLen, suffixLen);
    case Concat(note1, note2) =>
      PrintsTextOfConcat(width, lines, note1, note2, indent, prefixLen, suffixLen);
  }

  /** The `Concat` case of `PrintsTextOf`: the right part is printed after the lines the left part leaves. */
  lemma {:induction false} PrintsTextOfConcat(width: nat, lines: seq<string>, note1: Notation, note2: Notation,
                                              indent: nat, prefixLen: nat, suffixLen: nat)
    requires |lines| >= 1 && Printable(Concat(note1, note2)) && ChoiceFree(Concat(note1, note2))
    ensures Text.Join(PrintLines(width, lines, Concat(note1, note2), indent, prefixLen, suffixLen), "\n") ==
      Text.Join(lines, "\n") + TextOf(Concat(note1, note2), indent)
    decreases Concat(note1, note2), 0
  {
    var newSuffixLen := SuffixAfter(note2, suffixLen);
    var mid := PrintLines(width, lines, note1, indent, prefixLen, newSuffixLen);
    PrintsTextOf(width, lines, note1, indent, prefixLen, newSuffixLen);
    PrintsTextOf(width, mid, note2, indent, LastLen(mid), suffixLen);
    var t1, t2 := TextOf(note1, indent), TextOf(note2, indent);
    Text.ConcatAssoc(Text.Join(lines, "\n"), t1, t2);
  }

  class PrettyPrinter {
    const width: nat
    var lines: seq<string>

    /** A printer holding one empty line. */
    constructor(width: nat)
      ensures this.width == width && lines == [""]
    {
      this.width := width;
      lines := [""];
    }

    /** `print`: appends `n` to the lines, the last line being extended in place. */
    method Print(n: Notation, indent: nat, prefixLen: nat, suffixLen: nat)
      requires |lines| >= 1 && Printable(n)
      modifies this
      ensures lines == PrintLines(width, old(lines), n, indent, prefixLen, suffixLen)
      decreases n
    {
      match n
      case Empty =>
      case Literal(lit) =>
        lines := lines[|lines| - 1 := lines[|lines| - 1] + lit];
      case Newline =>
        lines := lines + [Text.Spaces(indent)];
      case Indent(i, body) =>
        Print(body, indent + i, prefixLen, suffixLen);
      case Choice(note1, note2) =>
        var available := SaturatingSub(width, prefixLen + suffixLen);
        var fits := FitsWhenFlat(note1, available).Some?;
        var choice := if fits then note1 else note2;
        Print(choice, indent, prefixLen, suffixLen);
      case Concat(note1, note2) =>
        var newSuffixLen := SuffixAfter(note2, suffixLen);
        Print(note1, indent, prefixLen, newSuffixLen);
        var newPrefixLen := LastLen(lines);
        Print(note2, indent, newPrefixLen, suffixLen);
    }
  }

  /** `pretty_print`, run on a fresh printer. */
  method PrettyPrintLines(n: Notation, width: nat) returns (lines: seq<string>)
    requires Printable(n)
    ensures lines == PrettyPrint(n, width)
  {
    var printer := new PrettyPrinter(width);
    printer.Print(n, 0, 0, 0);
    lines := printer.lines;
  }
}

module IfFlatPrintExamples {
  import opened Wrappers
  import opened IfFlatNotation
  import opened IfFlatPrint

  /** `"ab" | ("a" ^ "b")` keeps to one line at width 2 and breaks at width 1. */
  lemma ChoiceByWidth()
    ensures PrettyPrint(Or(Literal("ab"), Above(Literal("a"), Literal("b"))), 2) == ["ab"]
    ensures PrettyPrint(Or(Literal("ab"), Above(Literal("a"), Literal("b"))), 1) == ["a", "b"]
  {
    assert FitsWhenFlat(Literal("ab"), 2) == Some(2);
    assert FitsWhenFlat(Literal("ab"), 1).None?;
    assert "" + "a" == "a" && "" + "b" == "b" && "" + "ab" == "ab";
    assert [""][0 := "ab"] == ["ab"];
    assert [""][0 := "a"] == ["a"];
    assert ["a"] + [""] == ["a", ""];
    assert ["a", ""][1 := "b"] == ["a", "b"];
  }
}
