// Rectangles on the screen or on the document, and splitting them into
// side-by-side (or stacked) sub-rectangles.
//
// Lines are `u32` and columns `u16` in the source; here both are `nat`, and
// the constants below bound them. A rectangle includes its upper-left corner
// and excludes its lower-right one.

module Geometry {
  import opened Wrappers
  import opened Sums

  const MAX_LINE: nat := 0xFFFF_FFFF
  const MAX_COL: nat := 0xFFFF

  datatype Pos = Pos(line: nat, col: nat)
  datatype Size = Size(height: nat, width: nat)

  datatype Rectangle = Rectangle(minLine: nat, maxLine: nat, minCol: nat, maxCol: nat)

  /** The two directions a rectangle can be split along. */
  datatype Axis = Cols | Lines

  /** A rectangle that the machine integers of the source can hold. */
  predicate Representable(r: Rectangle)
  {
    r.maxLine <= MAX_LINE && r.maxCol <= MAX_COL && r.minLine <= MAX_LINE && r.minCol <= MAX_COL
  }

  /** Width; the source subtracts without a guard, so it needs `minCol <= maxCol`. */
  function Width(r: Rectangle): (w: nat)
    requires r.minCol <= r.maxCol
    ensures r.minCol + w == r.maxCol
  {
    r.maxCol - r.minCol
  }

  /** Height; the source subtracts without a guard, so it needs `minLine <= maxLine`. */
  function Height(r: Rectangle): (h: nat)
    requires r.minLine <= r.maxLine
    ensures r.minLine + h == r.maxLine
  {
    r.maxLine - r.minLine
  }

  /** Does `r` completely cover `other`? */
  predicate Covers(r: Rectangle, other: Rectangle)
  {
    r.minLine <= other.minLine && other.maxLine <= r.maxLine
    && r.minCol <= other.minCol && other.maxCol <= r.maxCol
  }

  lemma CoversReflexive(r: Rectangle)
    ensures Covers(r, r)
  {
  }

  lemma CoversTransitive(a: Rectangle, b: Rectangle, c: Rectangle)
    requires Covers(a, b) && Covers(b, c)
    ensures Covers(a, c)
  {
  }

  /** A point lies in `r` (upper-left included, lower-right excluded). */
  predicate Contains(r: Rectangle, p: Pos)
  {
    r.minLine <= p.line < r.maxLine && r.minCol <= p.col < r.maxCol
  }

  /** Covering is exactly containment of every point. */
  lemma CoversMeansContains(r: Rectangle, other: Rectangle, p: Pos)
    requires Covers(r, other) && Contains(other, p)
    ensures Contains(r, p)
  {
  }

  // ---------------------------------------------------------------------
  // One axis at a time

  function Lo(r: Rectangle, a: Axis): nat
  {
    if a == Cols then r.minCol else r.minLine
  }

  function Hi(r: Rectangle, a: Axis): nat
  {
    if a == Cols then r.maxCol else r.maxLine
  }

  function WithLo(r: Rectangle, a: Axis, v: nat): (s: Rectangle)
    ensures Lo(s, a) == v && Hi(s, a) == Hi(r, a)
  {
    if a == Cols then r.(minCol := v) else r.(minLine := v)
  }

  function WithHi(r: Rectangle, a: Axis, v: nat): (s: Rectangle)
    ensures Hi(s, a) == v && Lo(s, a) == Lo(r, a)
  {
    if a == Cols then r.(maxCol := v) else r.(maxLine := v)
  }

  /** `s` agrees with `r` on the axis other than `a`. */
  predicate SameAcross(r: Rectangle, s: Rectangle, a: Axis)
  {
    if a == Cols then s.minLine == r.minLine && s.maxLine == r.maxLine
    else s.minCol == r.minCol && s.maxCol == r.maxCol
  }

  /** One step of `HorzSplits::next` (`Cols`) or `VertSplits::next` (`Lines`):
      the piece handed out and the rectangle that remains, or `None` where the
      source panics because the size is larger than what remains. An overflow
      of the machine addition panics as well, and on a representable rectangle
      it can only happen when the assertion fails too. */
  function SplitStep(a: Axis, rect: Rectangle, size: nat): (r: Option<(Rectangle, Rectangle)>)
    ensures r.Some? <==> Lo(rect, a) + size <= Hi(rect, a)
    ensures r.Some? ==>
      var (piece, rest) := r.value;
      Lo(piece, a) == Lo(rect, a) && Hi(piece, a) == Lo(rect, a) + size
      && Lo(rest, a) == Hi(piece, a) && Hi(rest, a) == Hi(rect, a)
      && SameAcross(rect, piece, a) && SameAcross(rect, rest, a)
  {
    var split := Lo(rect, a) + size;
    if split > Hi(rect, a) then None
    else Some((WithHi(rect, a, split), WithLo(rect, a, split)))
  }

  /** All the pieces an iterator hands out before it is exhausted, or `None`
      when one of its calls panics. */
  function Splits(a: Axis, rect: Rectangle, sizes: seq<nat>): Option<seq<Rectangle>>
    decreases |sizes|
  {
    if sizes == [] then Some([])
    else
      var step := SplitStep(a, rect, sizes[0]);
      if step.None? then None
      else
        var pieces := Splits(a, step.value.1, sizes[1..]);
        if pieces.None? then None else Some([step.value.0] + pieces.value)
  }

  /** The splits panic exactly when the sizes add up to more than the
      rectangle's extent; a leftover is allowed. */
  lemma {:induction false} SplitsPanicIff(a: Axis, rect: Rectangle, sizes: seq<nat>)
    requires Lo(rect, a) <= Hi(rect, a)
    ensures Splits(a, rect, sizes).Some? <==> Lo(rect, a) + Sum(sizes) <= Hi(rect, a)
    decreases |sizes|
  {
    if sizes != [] {
      SumFront(sizes);
      var step := SplitStep(a, rect, sizes[0]);
      if step.Some? {
        SplitsPanicIff(a, step.value.1, sizes[1..]);
      }
    }
  }

  /** One piece per size, in order: each is exactly that size along the
      axis, starts where the previous one ended, is unchanged across the axis
      and is covered by the original rectangle. */
  lemma {:induction false} SplitsPieces(a: Axis, rect: Rectangle, sizes: seq<nat>)
    requires Splits(a, rect, sizes).Some?
    ensures var pieces := Splits(a, rect, sizes).value;
      |pieces| == |sizes|
      && (pieces != [] ==> Lo(pieces[0], a) == Lo(rect, a))
      && (forall i :: 0 <= i < |pieces| ==>
            Hi(pieces[i], a) == Lo(pieces[i], a) + sizes[i]
            && SameAcross(rect, pieces[i], a)
            && Covers(rect, pieces[i]))
      && (forall i :: 0 < i < |pieces| ==> Lo(pieces[i], a) == Hi(pieces[i - 1], a))
    decreases |sizes|
  {
    if sizes != [] {
      var step := SplitStep(a, rect, sizes[0]);
      var rest := step.value.1;
      SplitsPieces(a, rest, sizes[1..]);
      var tail := Splits(a, rest, sizes[1..]).value;
      assert Splits(a, rect, sizes).value == [step.value.0] + tail;
    }
  }

  /** Piece `i` starts at the rectangle's start plus the sizes before it. */
  lemma {:induction false} SplitsOffsets(a: Axis, rect: Rectangle, sizes: seq<nat>, i: nat)
    requires Splits(a, rect, sizes).Some?
    requires i < |sizes|
    ensures |Splits(a, rect, sizes).value| == |sizes|
    ensures Lo(Splits(a, rect, sizes).value[i], a) == Lo(rect, a) + Sum(sizes[..i])
    decreases i
  {
    SplitsPieces(a, rect, sizes);
    if i > 0 {
      var pieces := Splits(a, rect, sizes).value;
      SplitsOffsets(a, rect, sizes, i - 1);
      assert sizes[..i] == sizes[..i - 1] + [sizes[i - 1]];
      SumAppend(sizes[..i - 1], [sizes[i - 1]]);
      assert Sum([sizes[i - 1]]) == sizes[i - 1] by {
        assert [sizes[i - 1]][..0] == [];
      }
    }
  }

  /** Splitting across columns never changes lines, and each piece has exactly
      the requested width. */
  lemma HorzSplitWidths(rect: Rectangle, widths: seq<nat>, i: nat)
    requires Splits(Cols, rect, widths).Some?
    requires i < |widths|
    ensures i < |Splits(Cols, rect, widths).value|
    ensures var piece := Splits(Cols, rect, widths).value[i];
      piece.minCol <= piece.maxCol && Width(piece) == widths[i]
      && piece.minLine == rect.minLine && piece.maxLine == rect.maxLine
  {
    SplitsPieces(Cols, rect, widths);
  }

  /** Splitting across lines never changes columns, and each piece has
      exactly the requested height. */
  lemma VertSplitHeights(rect: Rectangle, heights: seq<nat>, i: nat)
    requires Splits(Lines, rect, heights).Some?
    requires i < |heights|
    ensures i < |Splits(Lines, rect, heights).value|
    ensures var piece := Splits(Lines, rect, heights).value[i];
      piece.minLine <= piece.maxLine && Height(piece) == heights[i]
      && piece.minCol == rect.minCol && piece.maxCol == rect.maxCol
  {
    SplitsPieces(Lines, rect, heights);
  }

  /** What a call to `next` produced. */
  datatype Next = Yield(piece: Rectangle) | Exhausted | Panic

  /** The iterator returned by `Rectangle::horz_splits` or
      `Rectangle::vert_splits`: the rectangle that remains and the sizes not
      yet handed out. */
  class Splitter {
    const axis: Axis
    var rect: Rectangle
    var sizes: seq<nat>

    /** `horz_splits` is `Splitter(Cols, …)`, `vert_splits` is `Splitter(Lines, …)`. */
    constructor (axis: Axis, rect: Rectangle, sizes: seq<nat>)
      ensures this.axis == axis && this.rect == rect && this.sizes == sizes
    {
      this.axis := axis;
      this.rect := rect;
      this.sizes := sizes;
    }

    /** The pieces this iterator will still produce. */
    function Remaining(): Option<seq<Rectangle>>
      reads this
    {
      Splits(axis, rect, sizes)
    }

    /** Hand out the next piece. The remaining rectangle is moved past it
        before the size check, as in the source; a `Panic` ends the iteration. */
    method Next() returns (res: Next)
      modifies this
      ensures old(sizes) == [] ==> res == Exhausted && rect == old(rect) && sizes == old(sizes)
      ensures old(sizes) != [] ==>
        var split := Lo(old(rect), axis) + old(sizes)[0];
        rect == WithLo(old(rect), axis, split) && sizes == old(sizes)[1..]
        && (if split <= Hi(old(rect), axis)
            then res == Yield(WithHi(old(rect), axis, split))
            else res == Panic)
      ensures res.Yield? ==>
        (old(Remaining()).Some? <==> Remaining().Some?)
      ensures res.Yield? && Remaining().Some? ==>
        old(Remaining()) == Some([res.piece] + Remaining().value)
      ensures res.Exhausted? ==> old(Remaining()) == Some([])
      ensures res.Panic? ==> old(Remaining()) == None
    {
      if sizes == [] {
        return Exhausted;
      }
      var split := Lo(rect, axis) + sizes[0];
      var result := WithHi(rect, axis, split);
      rect := WithLo(rect, axis, split);
      sizes := sizes[1..];
      if Lo(rect, axis) <= Hi(rect, axis) {
        assert SplitStep(axis, old(rect), old(sizes)[0]) == Some((result, rect));
        res := Yield(result);
      } else {
        res := Panic;
      }
    }
  }

  /** `Pos + Size`; `None` where the machine addition overflows and the source
      panics. */
  function Add(p: Pos, s: Size): (r: Option<Pos>)
    ensures r.Some? <==> p.line + s.height <= MAX_LINE && p.col + s.width <= MAX_COL
  {
    if p.line + s.height <= MAX_LINE && p.col + s.width <= MAX_COL
    then Some(Pos(p.line + s.height, p.col + s.width))
    else None
  }

  /** The upper-left corner plus a well-formed rectangle's size is its
      lower-right corner. */
  lemma CornerPlusSize(r: Rectangle)
    requires Representable(r)
    requires r.minLine <= r.maxLine && r.minCol <= r.maxCol
    ensures Add(Pos(r.minLine, r.minCol), Size(Height(r), Width(r))) == Some(Pos(r.maxLine, r.maxCol))
  {
  }

  /** Adding the empty size changes nothing. */
  lemma AddZero(p: Pos)
    requires p.line <= MAX_LINE && p.col <= MAX_COL
    ensures Add(p, Size(0, 0)) == Some(p)
  {
  }
}

module GeometryExamples {
  import opened Wrappers
  import opened Geometry

  /** Splitting columns 1..5 into widths 1 and 3 (lines 2..4) gives 1..2 and 2..5. */
  lemma HorzSplitsExample(lo: nat)
    ensures Splits(Cols, Rectangle(lo + 2, lo + 4, lo + 1, lo + 5), [1, 3])
      == Some([Rectangle(lo + 2, lo + 4, lo + 1, lo + 2), Rectangle(lo + 2, lo + 4, lo + 2, lo + 5)])
  {
    var rect := Rectangle(lo + 2, lo + 4, lo + 1, lo + 5);
    assert [1, 3][1..] == [3];
    assert [3][1..] == [];
    assert SplitStep(Cols, rect, 1) == Some((rect.(maxCol := lo + 2), rect.(minCol := lo + 2)));
    assert SplitStep(Cols, rect.(minCol := lo + 2), 3) == Some((rect.(minCol := lo + 2), rect.(minCol := lo + 5)));
    assert Splits(Cols, rect.(minCol := lo + 5), []) == Some([]);
    assert [rect.(minCol := lo + 2)] + [] == [rect.(minCol := lo + 2)];
    assert Splits(Cols, rect.(minCol := lo + 2), [3]) == Some([rect.(minCol := lo + 2)]);
    assert Splits(Cols, rect, [1, 3]) == Some([rect.(maxCol := lo + 2)] + [rect.(minCol := lo + 2)]);
    assert [rect.(maxCol := lo + 2)] + [rect.(minCol := lo + 2)]
      == [Rectangle(lo + 2, lo + 4, lo + 1, lo + 2), Rectangle(lo + 2, lo + 4, lo + 2, lo + 5)];
  }

  /** Widths 5 then 1 on a rectangle of width 4 panic at once, and so do 1 then 5. */
  lemma HorzSplitsOverflow(lo: nat)
    ensures Splits(Cols, Rectangle(lo + 2, lo + 4, lo + 1, lo + 5), [5, 1]) == None
    ensures Splits(Cols, Rectangle(lo + 2, lo + 4, lo + 1, lo + 5), [1, 5]) == None
  {
    assert [1, 5][1..] == [5];
  }
}
