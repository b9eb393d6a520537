// A plain-text window for the older pane printer: one string per line,
// grown on demand. Printing overwrites part of a line; lines below the
// window's height are ignored.

module PlainTextLines {
  import opened Text
  import opened Geometry

  /**
   * The line after `s` is written over it from column `col`: the old
   * characters left of `col` (spaces where the line was shorter), then `s`,
   * then whatever the old line had right of `s`.
   */
  function Overwrite(line: string, col: nat, s: string): (r: string)
    ensures |r| == if |line| > col + |s| then |line| else col + |s|
  {
    var left := if |line| >= col then line[..col] else line + Spaces(col - |line|);
    left + s + (if |line| > col + |s| then line[col + |s|..] else "")
  }

  /** Column by column: `s` where it was written, the old line elsewhere, spaces in the gap. */
  lemma OverwriteAt(line: string, col: nat, s: string, k: nat)
    requires k < |Overwrite(line, col, s)|
    ensures Overwrite(line, col, s)[k] ==
      if col <= k < col + |s| then s[k - col]
      else if k < |line| then line[k]
      else ' '
  {
  }

  /** Writing the same text twice at the same place is writing it once. */
  lemma OverwriteIdempotent(line: string, col: nat, s: string)
    ensures Overwrite(Overwrite(line, col, s), col, s) == Overwrite(line, col, s)
  {
    var once := Overwrite(line, col, s);
    var twice := Overwrite(once, col, s);
    forall k | 0 <= k < |twice|
      ensures twice[k] == once[k]
    {
      OverwriteAt(once, col, s, k);
      OverwriteAt(line, col, s, k);
    }
  }

  /** The lines after line `n` has been made to exist, new lines being empty. */
  function Grow(lines: seq<string>, n: nat): (r: seq<string>)
    ensures |r| == if |lines| < n + 1 then n + 1 else |lines|
    ensures forall i :: 0 <= i < |r| ==> r[i] == if i < |lines| then lines[i] else ""
  {
    if |lines| < n + 1 then lines + seq(n + 1 - |lines|, _ => "") else lines
  }

  /** The window's lines after `print(pos, s)` in a window of the given height. */
  function PrintAt(lines: seq<string>, height: nat, pos: Pos, s: string): seq<string>
  {
    if pos.line >= height then lines
    else
      var grown := Grow(lines, pos.line);
      grown[pos.line := Overwrite(grown[pos.line], pos.col, s)]
  }

  /** Printing below the window changes nothing; otherwise only the line printed on changes. */
  lemma PrintAtOnlyThatLine(lines: seq<string>, height: nat, pos: Pos, s: string, i: nat)
    requires i < |PrintAt(lines, height, pos, s)| && (i != pos.line || pos.line >= height)
    ensures PrintAt(lines, height, pos, s)[i] == if i < |lines| then lines[i] else ""
  {
  }

  /** The old characters of a line left of column `col`, spaces once they run out. */
  method KeptLeft(was: string, col: nat) returns (r: string)
    ensures r == if |was| >= col then was[..col] else was + Spaces(col - |was|)
  {
    r := "";
    var k := 0;
    while k < col
      invariant k <= col
      invariant r == if |was| >= k then was[..k] else was + Spaces(k - |was|)
    {
      if k < |was| {
        assert was[..k + 1] == was[..k] + [was[k]];
        r := r + [was[k]];
      } else {
        assert Spaces(k + 1 - |was|) == Spaces(k - |was|) + [' '];
        r := r + [' '];
      }
      k := k + 1;
    }
  }

  /** The old characters of a line from column `from` on, none when it is shorter. */
  method KeptRight(was: string, from: nat) returns (r: string)
    ensures r == if |was| > from then was[from..] else ""
  {
    r := "";
    var k := from;
    while k < |was|
      invariant k == from || from <= k <= |was|
      invariant r == if from < k then was[from..k] else ""
    {
      assert was[from..k + 1] == (if from < k then was[from..k] else "") + [was[k]];
      r := r + [was[k]];
      k := k + 1;
    }
    if from < |was| {
      assert was[from..k] == was[from..];
    }
  }

  class PlainText {
    var lines: seq<string>
    const size: Size

    /** An empty screen of the given size. */
    constructor(size: Size)
      ensures lines == [] && this.size == size
    {
      lines := [];
      this.size := size;
    }

    /** Makes line `n` exist. */
    method GetMutLine(n: nat)
      modifies this
      ensures lines == Grow(old(lines), n)
    {
      if |lines| < n + 1 {
        lines := lines + seq(n + 1 - |lines|, _ => "");
      }
    }

    method Print(pos: Pos, s: string)
      modifies this
      ensures lines == PrintAt(old(lines), size.height, pos, s)
    {
      if pos.line >= size.height {
        return;
      }
      GetMutLine(pos.line);
      var was := lines[pos.line];
      var left := KeptLeft(was, pos.col);
      var right := KeptRight(was, pos.col + |s|);
      lines := lines[pos.line := left + s + right];
    }

    /** `fill`: prints `len` copies of `ch`. */
    method Fill(pos: Pos, ch: char, len: nat)
      modifies this
      ensures lines == PrintAt(old(lines), size.height, pos, Repeat(ch, len))
    {
      Print(pos, Repeat(ch, len));
    }

    /** `highlight` does nothing in plain text. */
    method Highlight(line: nat, from: nat, to: nat)
      ensures lines == old(lines)
    {
    }

    /** The text of the screen: the lines one after the other, with nothing between them. */
    method Show() returns (text: string)
      ensures text == Concat(lines)
    {
      text := "";
      var i := 0;
      while i < |lines|
        invariant i <= |lines| && text == Concat(lines[..i])
      {
        assert lines[..i + 1][..i] == lines[..i];
        text := text + lines[i];
        i := i + 1;
      }
      assert lines[..i] == lines;
    }
  }
}

module PlainTextLinesExamples {
  import opened PlainTextLines

  /** Printing past the end of a line pads it with spaces; printing inside keeps both ends. */
  lemma OverwriteExamples()
    ensures Overwrite("ab", 4, "xy") == "ab  xy"
    ensures Overwrite("abcdef", 1, "XY") == "aXYdef"
  {
    assert "abcdef"[..1] == "a" && "abcdef"[3..] == "def";
  }
}
