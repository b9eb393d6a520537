// A plain-text window for the pane printer: a grid of characters, one per
// column, grown on demand. A full-width character takes two columns; the
// second holds `SENTINEL`, which is not shown.

module PlainTextGrid {

  datatype Pos = Pos(row: nat, col: nat)

  /** Follows each full-width character. */
  const SENTINEL: char := '\0'

  /** `n` copies of `c`. */
  function Copies(c: char, n: nat): (s: seq<char>)
    ensures |s| == n && forall i :: 0 <= i < n ==> s[i] == c
  {
    seq(n, _ => c)
  }

  /** The lines after `ch` is put at `(row, col)`, taking two columns when `fullWidth`. */
  function PutChar(lines: seq<seq<char>>, ch: char, row: nat, col: nat, fullWidth: bool): seq<seq<char>>
  {
    var grown := if |lines| < row + 1 then lines + EmptyLines(row + 1 - |lines|) else lines;
    var width := if fullWidth then 2 else 1;
    var line := grown[row];
    var padded := if |line| < col + width then line + Copies(' ', col + width - |line|) else line;
    var written := padded[col := ch];
    grown[row := if fullWidth then written[col + 1 := SENTINEL] else written]
  }

  /** `n` empty lines. */
  function EmptyLines(n: nat): (s: seq<seq<char>>)
    ensures |s| == n && forall i :: 0 <= i < n ==> s[i] == []
  {
    seq(n, _ => [])
  }

  /**
   * After `display_char`: there are enough rows for `row`, other rows are
   * as they were (new ones empty), the row is long enough for the
   * character, which sits at `col` followed by `SENTINEL` when full width;
   * every other column of the row is what it was, or a space where the row
   * was too short.
   */
  lemma PutCharEffect(lines: seq<seq<char>>, ch: char, row: nat, col: nat, fullWidth: bool)
    ensures var r := PutChar(lines, ch, row, col, fullWidth);
      |r| == (if |lines| < row + 1 then row + 1 else |lines|)
      && forall i :: 0 <= i < |r| && i != row ==> r[i] == RowOf(lines, i)
    ensures var r := PutChar(lines, ch, row, col, fullWidth);
      var width := if fullWidth then 2 else 1;
      var was := RowOf(lines, row);
      |r[row]| == (if |was| < col + width then col + width else |was|)
      && r[row][col] == ch
      && (fullWidth ==> r[row][col + 1] == SENTINEL)
    ensures var r := PutChar(lines, ch, row, col, fullWidth);
      var was := RowOf(lines, row);
      forall k :: 0 <= k < |r[row]| && k != col && (k != col + 1 || !fullWidth) ==>
        r[row][k] == if k < |was| then was[k] else ' '
  {
  }

  /** Row `i` of the window, empty when the window has no such row yet. */
  function RowOf(lines: seq<seq<char>>, i: nat): seq<char>
  {
    if i < |lines| then lines[i] else []
  }

  /** What one line shows: its characters without the sentinels. */
  function Visible(line: seq<char>): (s: seq<char>)
    ensures SENTINEL !in s
  {
    if line == [] then []
    else Visible(line[..|line| - 1]) + (if line[|line| - 1] == SENTINEL then [] else [line[|line| - 1]])
  }

  /** What the window shows: each line's visible characters, then a line break. */
  function Render(lines: seq<seq<char>>): seq<char>
  {
    if lines == [] then []
    else Render(lines[..|lines| - 1]) + Visible(lines[|lines| - 1]) + ['\n']
  }

  /** Only sentinels are hidden: a line shows as many characters as it has non-sentinels. */
  lemma {:induction false} VisibleCount(line: seq<char>, c: char)
    ensures multiset(Visible(line))[c] == if c == SENTINEL then 0 else multiset(line)[c]
    decreases |line|
  {
    if line != [] {
      VisibleCount(line[..|line| - 1], c);
      assert line == line[..|line| - 1] + [line[|line| - 1]];
    }
  }

  /** The window shows one line break per row, when no character put there is one. */
  lemma {:induction false} RenderLineBreaks(lines: seq<seq<char>>)
    requires forall i :: 0 <= i < |lines| ==> '\n' !in lines[i]
    ensures multiset(Render(lines))['\n'] == |lines|
    decreases |lines|
  {
    if lines != [] {
      var last := lines[|lines| - 1];
      RenderLineBreaks(lines[..|lines| - 1]);
      VisibleCount(last, '\n');
      assert multiset(last)['\n'] == 0;
    }
  }

  class PlainText {
    var lines: seq<seq<char>>
    const width: nat
    const height: nat
    var focusPoints: seq<Pos>

    /** An empty window of the given size, with no focus points. */
    constructor(width: nat, height: nat)
      ensures lines == [] && focusPoints == []
      ensures this.width == width && this.height == height
    {
      lines := [];
      this.width := width;
      this.height := height;
      focusPoints := [];
    }

    method DisplayChar(ch: char, pos: Pos, fullWidth: bool)
      modifies this
      ensures lines == PutChar(old(lines), ch, pos.row, pos.col, fullWidth)
      ensures focusPoints == old(focusPoints)
    {
      var row, col := pos.row, pos.col;
      if |lines| < row + 1 {
        lines := lines + EmptyLines(row + 1 - |lines|);
      }
      var line := lines[row];
      var width := if fullWidth then 2 else 1;
      if |line| < col + width {
        line := line + Copies(' ', col + width - |line|);
      }
      line := line[col := ch];
      if fullWidth {
        line := line[col + 1 := SENTINEL];
      }
      lines := lines[row := line];
    }

    method SetFocus(pos: Pos)
      modifies this
      ensures focusPoints == old(focusPoints) + [pos]
      ensures lines == old(lines)
    {
      focusPoints := focusPoints + [pos];
    }

    /** The text of the window, written out line by line. */
    method Show() returns (s: seq<char>)
      ensures s == Render(lines)
    {
      s := [];
      var i := 0;
      while i < |lines|
        invariant i <= |lines| && s == Render(lines[..i])
      {
        var line := lines[i];
        ghost var before := s;
        var j := 0;
        while j < |line|
          invariant j <= |line| && s == before + Visible(line[..j])
        {
          assert line[..j + 1][..j] == line[..j];
          if line[j] != SENTINEL {
            s := s + [line[j]];
          }
          j := j + 1;
        }
        assert line[..j] == line;
        s := s + ['\n'];
        assert lines[..i + 1][..i] == lines[..i];
        i := i + 1;
      }
      assert lines[..i] == lines;
    }
  }
}

module PlainTextGridExamples {
  import opened PlainTextGrid

  /** A full-width character at column 1 of a new window pads column 0 and takes columns 1 and 2. */
  lemma FullWidthChar()
    ensures PutChar([], 'x', 0, 1, true) == [[' ', 'x', SENTINEL]]
    ensures Render([[' ', 'x', SENTINEL]]) == [' ', 'x', '\n']
  {
    var line: seq<char> := [' ', 'x', SENTINEL];
    var empty: seq<seq<char>> := [];
    assert empty + EmptyLines(1) == [[]];
    assert [] + Copies(' ', 3) == [' ', ' ', ' '];
    assert [' ', ' ', ' '][1 := 'x'][2 := SENTINEL] == line;
    assert [[]][0 := line] == [line];
    assert line[..2][..1] == [' '] && line[..2] == [' ', 'x'] && [' '][..0] == [];
    assert Visible([' ']) == [' '];
    assert Visible([' ', 'x']) == [' ', 'x'];
    assert Visible(line) == [' ', 'x'];
    assert [line][..0] == [];
  }
}
