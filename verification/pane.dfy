// A pane: a rectangle of a window that text is printed into, clipped at the
// rectangle's right edge, and the division of a pane's space among sub-panes
// (`divvy`). The window is a log of the calls made to it.

module PanePrinting {
  import opened Wrappers
  import opened Outcomes
  import opened Sums
  import opened Text
  import opened Geometry
  import opened FairDivision

  datatype PaneSize = Fixed(size: nat) | DynHeight | Proportional(weight: nat)

  datatype PaneError = NotSubPane | ImpossibleDemands

  // ---------------------------------------------------------------------
  // divvy

  /** The total size the fixed sub-panes ask for. */
  function TotalFixed(demands: seq<PaneSize>): nat
  {
    if demands == [] then 0
    else (if demands[0].Fixed? then demands[0].size else 0) + TotalFixed(demands[1..])
  }

  /** How many sub-panes are proportional. */
  function ProportionalCount(demands: seq<PaneSize>): (n: nat)
    ensures n <= |demands|
  {
    if demands == [] then 0
    else (if demands[0].Proportional? then 1 else 0) + ProportionalCount(demands[1..])
  }

  /** The weights of the proportional sub-panes, in order. */
  function Hungers(demands: seq<PaneSize>): (h: seq<nat>)
    ensures |h| == ProportionalCount(demands)
  {
    if demands == [] then []
    else if demands[0].Proportional? then [demands[0].weight] + Hungers(demands[1..])
    else Hungers(demands[1..])
  }

  /**
   * The sizes in demand order: a fixed sub-pane its size, a proportional one
   * the next share. `None` where the source panics: on a `DynHeight`, or if
   * the shares ran out.
   */
  function Assign(demands: seq<PaneSize>, shares: seq<nat>): (r: Option<seq<nat>>)
    ensures r.Some? ==> |r.value| == |demands|
  {
    if demands == [] then Some([])
    else
      match demands[0]
      case Fixed(n) =>
        var rest := Assign(demands[1..], shares);
        if rest.None? then None else Some([n] + rest.value)
      case DynHeight => None
      case Proportional(_) =>
        if shares == [] then None
        else
          var rest := Assign(demands[1..], shares[1..]);
          if rest.None? then None else Some([shares[0]] + rest.value)
  }

  /** `divvy(cookies, demands)`: `Fail` is its `None`, `Panic` a panic. */
  function Divvy(cookies: nat, demands: seq<PaneSize>): Outcome<seq<nat>, PaneError>
  {
    var fixed := TotalFixed(demands);
    if fixed > cookies then Fail(ImpossibleDemands)
    else
      var shares := Divide(cookies - fixed, Hungers(demands));
      if shares.None? then Outcome.Panic
      else
        var sizes := Assign(demands, shares.value);
        if sizes.None? then Outcome.Panic else Done(sizes.value)
  }

  /** Assigning never runs out of shares when there is one per proportional sub-pane. */
  lemma {:induction false} AssignSomeIff(demands: seq<PaneSize>, shares: seq<nat>)
    requires |shares| == ProportionalCount(demands)
    ensures Assign(demands, shares).Some? <==> DynHeight !in demands
    decreases |demands|
  {
    if demands != [] {
      assert demands == [demands[0]] + demands[1..];
      match demands[0]
      case Fixed(_) =>
        AssignSomeIff(demands[1..], shares);
      case DynHeight =>
      case Proportional(_) =>
        AssignSomeIff(demands[1..], shares[1..]);
    }
  }

  /** Each sub-pane's size: a fixed one its own, the `n`-th proportional one the `n`-th share. */
  lemma {:induction false} AssignAt(demands: seq<PaneSize>, shares: seq<nat>, i: nat)
    requires Assign(demands, shares).Some? && i < |demands|
    ensures demands[i].Fixed? ==> Assign(demands, shares).value[i] == demands[i].size
    ensures demands[i].Proportional? ==> ProportionalCount(demands[..i]) < |shares|
    ensures demands[i].Proportional? ==>
      Assign(demands, shares).value[i] == shares[ProportionalCount(demands[..i])]
    decreases |demands|
  {
    if i == 0 {
      assert demands[..0] == [];
    } else {
      assert demands[1..][..i - 1] == demands[..i][1..];
      assert demands[..i][0] == demands[0];
      if demands[0].Proportional? {
        AssignAt(demands[1..], shares[1..], i - 1);
      } else {
        AssignAt(demands[1..], shares, i - 1);
      }
    }
  }

  /** The sizes add up to the fixed sizes plus the shares handed out. */
  lemma {:induction false} AssignSum(demands: seq<PaneSize>, shares: seq<nat>)
    requires Assign(demands, shares).Some? && |shares| == ProportionalCount(demands)
    ensures Sum(Assign(demands, shares).value) == TotalFixed(demands) + Sum(shares)
    decreases |demands|
  {
    if demands != [] {
      var r := Assign(demands, shares).value;
      SumFront(r);
      if demands[0].Proportional? {
        SumFront(shares);
        AssignSum(demands[1..], shares[1..]);
      } else {
        AssignSum(demands[1..], shares);
      }
    }
  }

  /** `divvy` returns `None` exactly when the fixed sub-panes ask for more than there is. */
  lemma DivvyFailIff(cookies: nat, demands: seq<PaneSize>)
    ensures Divvy(cookies, demands).Fail? <==> TotalFixed(demands) > cookies
  {
  }

  /**
   * Otherwise it panics exactly when a `DynHeight` is left, or the
   * proportional sub-panes all weigh zero.
   */
  lemma DivvyPanicIff(cookies: nat, demands: seq<PaneSize>)
    ensures Divvy(cookies, demands).Panic? <==>
      TotalFixed(demands) <= cookies && (DynHeight in demands || !Divisible(Hungers(demands)))
  {
    if TotalFixed(demands) <= cookies && Divisible(Hungers(demands)) {
      DividePanics(cookies - TotalFixed(demands), Hungers(demands));
      DivideSum(cookies - TotalFixed(demands), Hungers(demands));
      AssignSomeIff(demands, Divide(cookies - TotalFixed(demands), Hungers(demands)).value);
    }
  }

  /**
   * A successful division keeps the sub-panes' order: one size per
   * sub-pane, the fixed size for a fixed one, the `n`-th fair share of what
   * the fixed ones leave for the `n`-th proportional one; and when there is a
   * proportional sub-pane, all the space is used.
   */
  lemma DivvyDone(cookies: nat, demands: seq<PaneSize>, i: nat)
    requires Divvy(cookies, demands).Done? && i < |demands|
    ensures |Divvy(cookies, demands).value| == |demands|
    ensures demands[i].Fixed? ==> Divvy(cookies, demands).value[i] == demands[i].size
    ensures demands[i].Proportional? ==>
      var shares := Divide(cookies - TotalFixed(demands), Hungers(demands)).value;
      ProportionalCount(demands[..i]) < |shares|
      && Divvy(cookies, demands).value[i] == shares[ProportionalCount(demands[..i])]
    ensures Hungers(demands) != [] ==> Sum(Divvy(cookies, demands).value) == cookies
  {
    var left := cookies - TotalFixed(demands);
    var shares := Divide(left, Hungers(demands)).value;
    AssignAt(demands, shares, i);
    DivideSum(left, Hungers(demands));
    AssignSum(demands, shares);
  }

  // ---------------------------------------------------------------------
  // Printing into a pane

  /** A call made to the window. */
  datatype Call = PrintCall(pos: Pos, text: string) | FillCall(pos: Pos, ch: char, len: nat)

  /** What `print` hands the window at `pos`: `None` past the right edge, else the string cut at it. */
  function Clip(rect: Rectangle, pos: Pos, s: string): (r: Option<string>)
    ensures r.None? <==> pos.col >= rect.maxCol
    ensures r.Some? ==> r.value <= s && pos.col + |r.value| <= rect.maxCol
    ensures r.Some? && pos.col + |s| <= rect.maxCol ==> r.value == s
    ensures r.Some? && r.value != s ==> pos.col + |r.value| == rect.maxCol
  {
    if pos.col >= rect.maxCol then None
    else
      var maxLen := rect.maxCol - pos.col;
      if |s| > maxLen then Some(s[..maxLen]) else Some(s)
  }

  function PrintCalls(rect: Rectangle, pos: Pos, s: string): seq<Call>
  {
    var clipped := Clip(rect, pos, s);
    if clipped.None? then [] else [PrintCall(pos, clipped.value)]
  }

  /** What `fill` asks the window to fill: from `pos` to the right edge. */
  function FillCalls(rect: Rectangle, pos: Pos, ch: char): (r: seq<Call>)
    ensures |r| <= 1
    ensures r != [] <==> pos.col < rect.maxCol
    ensures r != [] ==> r[0].FillCall? && r[0].pos == pos && pos.col + r[0].len == rect.maxCol
  {
    if pos.col >= rect.maxCol then [] else [FillCall(pos, ch, rect.maxCol - pos.col)]
  }

  /** The calls `print_line` makes: each string where the previous one ended. */
  function LineCalls(rect: Rectangle, line: nat, col: nat, strings: seq<string>): seq<Call>
  {
    if strings == [] then []
    else
      var init := strings[..|strings| - 1];
      LineCalls(rect, line, col, init)
        + PrintCalls(rect, Pos(line, col + SumLengths(init)), strings[|strings| - 1])
  }

  /** The text of the print calls, concatenated. */
  function Printed(calls: seq<Call>): string
  {
    if calls == [] then ""
    else
      var last := calls[|calls| - 1];
      Printed(calls[..|calls| - 1]) + (if last.PrintCall? then last.text else "")
  }

  lemma {:induction false} PrintedAppend(a: seq<Call>, b: seq<Call>)
    ensures Printed(a + b) == Printed(a) + Printed(b)
    decreases |b|
  {
    if b == [] {
      assert a + b == a;
    } else {
      assert (a + b)[..|a + b| - 1] == a + b[..|b| - 1];
      PrintedAppend(a, b[..|b| - 1]);
    }
  }

  /** How many columns a line starting at `col` has before the right edge. */
  function Room(rect: Rectangle, col: nat): nat
  {
    if col < rect.maxCol then rect.maxCol - col else 0
  }

  /** What one `print` shows: the string up to the right edge. */
  lemma PrintedClip(rect: Rectangle, at: Pos, text: string)
    ensures Printed(PrintCalls(rect, at, text))
      == if at.col >= rect.maxCol then "" else text[..Min(|text|, rect.maxCol - at.col)]
  {
    if at.col < rect.maxCol {
      var c := Clip(rect, at, text).value;
      assert [PrintCall(at, c)][..0] == [];
    }
  }

  /** A prefix of `a + b` is a prefix of `a`, or all of `a` and a prefix of `b`. */
  lemma PrefixOfAppend(a: string, b: string, w: nat)
    ensures (a + b)[..Min(|a + b|, w)]
      == if |a| >= w then a[..w] else a + b[..Min(|b|, w - |a|)]
  {
  }

  /**
   * A printed line shows exactly the part of its text that fits before the
   * right edge of the pane: nothing is dropped in the middle, nothing is
   * written past the edge.
   */
  lemma {:induction false} LineShowsPrefix(rect: Rectangle, line: nat, col: nat, strings: seq<string>)
    ensures Printed(LineCalls(rect, line, col, strings))
      == Concat(strings)[..Min(|Concat(strings)|, Room(rect, col))]
    decreases |strings|
  {
    if strings != [] {
      var init := strings[..|strings| - 1];
      var last := strings[|strings| - 1];
      var at := Pos(line, col + SumLengths(init));
      LineShowsPrefix(rect, line, col, init);
      PrintedAppend(LineCalls(rect, line, col, init), PrintCalls(rect, at, last));
      PrintedClip(rect, at, last);
      PrefixOfAppend(Concat(init), last, Room(rect, col));
      assert Concat(strings) == Concat(init) + last;
    }
  }

  /** Every call of a line starts at or right of where the line starts and stays left of the edge. */
  lemma {:induction false} LineCallsInside(rect: Rectangle, line: nat, col: nat, strings: seq<string>, k: nat)
    requires k < |LineCalls(rect, line, col, strings)|
    ensures var c := LineCalls(rect, line, col, strings)[k];
      c.PrintCall? && c.pos.line == line && col <= c.pos.col && c.pos.col + |c.text| <= rect.maxCol
    decreases |strings|
  {
    var init := strings[..|strings| - 1];
    if k < |LineCalls(rect, line, col, init)| {
      LineCallsInside(rect, line, col, init, k);
    }
  }

  /** The fill calls for lines `first` to `first + n - 1`, from the left edge. */
  function FillRows(rect: Rectangle, ch: char, first: nat, n: nat): (r: seq<Call>)
    ensures |r| == if rect.minCol < rect.maxCol then n else 0
  {
    if n == 0 then []
    else FillRows(rect, ch, first, n - 1) + FillCalls(rect, Pos(first + n - 1, rect.minCol), ch)
  }

  /** Row `k` of the fill is line `first + k`, filled from the left edge to the right edge. */
  lemma {:induction false} FillRowsAt(rect: Rectangle, ch: char, first: nat, n: nat, k: nat)
    requires k < |FillRows(rect, ch, first, n)|
    ensures FillRows(rect, ch, first, n)[k] == FillCall(Pos(first + k, rect.minCol), ch, rect.maxCol - rect.minCol)
    decreases n
  {
    if k < n - 1 {
      FillRowsAt(rect, ch, first, n - 1, k);
    }
  }

  /** Filling a pane's own lines covers each line of it once, and nothing outside it. */
  lemma FillStaysInside(rect: Rectangle, ch: char, k: nat)
    requires rect.minLine <= rect.maxLine
    requires k < |FillRows(rect, ch, rect.minLine, Height(rect))|
    ensures FillRows(rect, ch, rect.minLine, Height(rect))[k].pos.line == rect.minLine + k
    ensures Contains(rect, FillRows(rect, ch, rect.minLine, Height(rect))[k].pos)
  {
    FillRowsAt(rect, ch, rect.minLine, Height(rect), k);
  }

  /**
   * As written, `render` fills lines `0` to `height - 1` whatever the
   * pane's first line: a one-line pane on line 2 gets its fill on line 0,
   * outside the pane.
   */
  lemma FillAsWrittenLeavesPane(ch: char)
    ensures var rect := Rectangle(2, 3, 0, 1);
      FillRows(rect, ch, 0, Height(rect)) == [FillCall(Pos(0, 0), ch, 1)]
      && !Contains(rect, FillRows(rect, ch, 0, Height(rect))[0].pos)
  {
    var rect := Rectangle(2, 3, 0, 1);
    assert FillRows(rect, ch, 0, 0) == [];
  }

  /** What a pane is asked to render. Other notations are not implemented (they panic). */
  datatype PaneNotation = FillWith(ch: char) | Empty | Other

  /** The window: the calls it has been sent, in order. */
  class Window {
    var calls: seq<Call>

    constructor()
      ensures calls == []
    {
      calls := [];
    }
  }

  class Pane {
    const window: Window
    const rect: Rectangle

    constructor(window: Window, rect: Rectangle)
      ensures this.window == window && this.rect == rect
    {
      this.window := window;
      this.rect := rect;
    }

    /** A pane on the same window for a part of this one; `None` unless this pane covers `rect`. */
    method SubPane(rect: Rectangle) returns (sub: Option<Pane>)
      ensures sub.None? <==> !Covers(this.rect, rect)
      ensures sub.Some? ==> fresh(sub.value) && sub.value.window == window && sub.value.rect == rect
    {
      if !Covers(this.rect, rect) {
        return None;
      }
      var pane := new Pane(window, rect);
      sub := Some(pane);
    }

    method Print(pos: Pos, s: string)
      modifies window
      ensures window.calls == old(window.calls) + PrintCalls(rect, pos, s)
    {
      if pos.col >= rect.maxCol {
        return;
      }
      var maxLen := rect.maxCol - pos.col;
      if |s| > maxLen {
        window.calls := window.calls + [PrintCall(pos, s[..maxLen])];
      } else {
        window.calls := window.calls + [PrintCall(pos, s)];
      }
    }

    method Fill(pos: Pos, ch: char)
      modifies window
      ensures window.calls == old(window.calls) + FillCalls(rect, pos, ch)
    {
      if pos.col >= rect.maxCol {
        return;
      }
      window.calls := window.calls + [FillCall(pos, ch, rect.maxCol - pos.col)];
    }

    /** Prints `strings` one after the other on one line, after `spaces` columns of indentation. */
    method PrintLine(pos: Pos, spaces: nat, strings: seq<string>)
      modifies window
      ensures window.calls == old(window.calls) + LineCalls(rect, pos.line, pos.col + spaces, strings)
    {
      var col := pos.col + spaces;
      var i := 0;
      while i < |strings|
        invariant i <= |strings|
        invariant col == pos.col + spaces + SumLengths(strings[..i])
        invariant window.calls == old(window.calls) + LineCalls(rect, pos.line, pos.col + spaces, strings[..i])
      {
        assert strings[..i + 1][..i] == strings[..i];
        Print(Pos(pos.line, col), strings[i]);
        col := col + |strings[i]|;
        i := i + 1;
      }
      assert strings[..i] == strings;
    }

    /**
     * Renders `note` as the source does: a fill writes lines `0` to
     * `height - 1` from the left edge, whatever the pane's first line (see
     * `FillAsWrittenLeavesPane`); `false` for the notations the source
     * leaves unimplemented.
     */
    method Render(note: PaneNotation) returns (ok: bool)
      requires rect.minLine <= rect.maxLine
      modifies window
      ensures ok <==> !note.Other?
      ensures note.FillWith? ==>
        window.calls == old(window.calls) + FillRows(rect, note.ch, 0, Height(rect))
      ensures !note.FillWith? ==> window.calls == old(window.calls)
    {
      match note
      case Empty =>
        return true;
      case Other =>
        return false;
      case FillWith(ch) =>
        var line := 0;
        while line < Height(rect)
          invariant line <= Height(rect)
          invariant window.calls == old(window.calls) + FillRows(rect, ch, 0, line)
        {
          Fill(Pos(line, rect.minCol), ch);
          line := line + 1;
        }
        return true;
    }

    /**
     * `render` with the fill on the pane's own lines, `min_line` to
     * `max_line - 1`; by `FillStaysInside` every call lands inside the pane.
     */
    method RenderIntended(note: PaneNotation) returns (ok: bool)
      requires rect.minLine <= rect.maxLine
      modifies window
      ensures ok <==> !note.Other?
      ensures note.FillWith? ==>
        window.calls == old(window.calls) + FillRows(rect, note.ch, rect.minLine, Height(rect))
      ensures !note.FillWith? ==> window.calls == old(window.calls)
    {
      match note
      case Empty =>
        return true;
      case Other =>
        return false;
      case FillWith(ch) =>
        var k := 0;
        while k < Height(rect)
          invariant k <= Height(rect)
          invariant window.calls == old(window.calls) + FillRows(rect, ch, rect.minLine, k)
        {
          Fill(Pos(rect.minLine + k, rect.minCol), ch);
          k := k + 1;
        }
        return true;
    }
  }
}

module PanePrintingExamples {
  import opened Wrappers
  import opened Outcomes
  import opened Geometry
  import opened FairDivision
  import opened PanePrinting
  import FairDivisionExamples

  /** Three columns left for two equal proportional sub-panes after a fixed one of 3. */
  lemma FixedThenTwoEqual()
    ensures Divvy(10, [Fixed(3), Proportional(1), Proportional(1)]) == Done([3, 4, 3])
  {
    var d := [Fixed(3), Proportional(1), Proportional(1)];
    assert TotalFixed(d) == 3;
    assert Hungers(d) == [1, 1];
    FairDivisionExamples.SumPair(1, 1);
    assert Floors(7, [1, 1], 2) == [3, 3];
    FairDivisionExamples.SumPair(3, 3);
    assert Leftover(7, [1, 1]) == 1;
    assert Remainders(7, [1, 1], 2) == [1, 1];
    assert Order([1, 1], 1) == [0];
    assert Order([1, 1], 2) == [0, 1];
    assert Given(7, [1, 1]) == [0];
    assert Bump([3, 3], [0]) == [4, 3];
    assert Divide(7, [1, 1]) == Some([4, 3]);
    assert d[1..] == [Proportional(1), Proportional(1)] && d[1..][1..] == [Proportional(1)];
    assert [4, 3][1..] == [3] && [3][1..] == [];
    assert [Proportional(1)][1..] == [] && [3] + [] == [3] && [4] + [3] == [4, 3] && [3] + [4, 3] == [3, 4, 3];
    assert Assign([], []) == Some([]);
    assert Assign([Proportional(1)], [3]) == Some([3]);
    assert Assign(d[1..], [4, 3]) == Some([4, 3]);
  }

  lemma FixedTooLarge()
    ensures Divvy(4, [Fixed(3), Proportional(1), Fixed(2)]) == Fail(ImpossibleDemands)
  {
    var d := [Fixed(3), Proportional(1), Fixed(2)];
    assert d[1..] == [Proportional(1), Fixed(2)] && d[1..][1..] == [Fixed(2)];
    assert TotalFixed(d) == 5;
  }

  lemma PrintTruncated()
    ensures PrintCalls(Rectangle(0, 1, 0, 5), Pos(0, 3), "hello") == [PrintCall(Pos(0, 3), "he")]
  {
    assert "hello"[..2] == "he";
  }
}
