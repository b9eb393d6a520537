/**
 * The oracle printer (`oracular_pretty_print` in src/oracle.rs): a slow,
 * obviously-correct printer that tries every `Choice` greedily, used to
 * cross-check the partial printer.
 *
 * The oracle walks the consolidated notation tree, evaluating each delayed
 * part when it reaches it. Here that tree is given fully expanded: a `Tree`
 * holds, for each of its parts, the outcome of evaluating it (`Expands`
 * relates such a tree to `Consolidated.Eval`). The printer is then a
 * structural recursion over the tree.
 */
module Oracle {
  import opened Outcomes
  import opened Wrappers
  import Text
  import C = Consolidated

  const MAX_WIDTH: nat := 10000

  type Part = Outcome<Tree, C.PrintingError>

  /** A consolidated notation together with the evaluations of all its parts. */
  datatype Tree =
    | TEmpty
    | TEndOfLine
    | TNewline(indent: C.Indentation)
    | TTextual(str: string)
    | TConcat(x: Part, y: Part)
    | TChoice(x: Part, y: Part)
    | TChild(index: nat, x: Part)
    | TFocusMark

  /** `t` is what repeatedly evaluating the delayed notation `d` gives. */
  ghost predicate Expands(d: C.Delayed, t: Part)
    decreases t
  {
    match C.Eval(d)
    case Fail(e) => t == Fail(e)
    case Panic => t == Panic
    case Done(c) =>
      t.Done? &&
      match c
      case CEmpty => t.value == TEmpty
      case CEndOfLine => t.value == TEndOfLine
      case CNewline(ind) => t.value == TNewline(ind)
      case CTextual(tx) => t.value == TTextual(tx.str)
      case CFocusMark => t.value == TFocusMark
      case CConcat(a, b) => t.value.TConcat? && Expands(a, t.value.x) && Expands(b, t.value.y)
      case CChoice(a, b) => t.value.TChoice? && Expands(a, t.value.x) && Expands(b, t.value.y)
      case CChild(i, a) => t.value.TChild? && t.value.index == i && Expands(a, t.value.x)
  }

  /** The text printed for a chain of indentation: outermost segment first. */
  function IndentString(ind: C.Indentation): (s: string)
    ensures ind.NoIndent? ==> s == ""
    ensures ind.IndentNode? ==> s == IndentString(ind.parent) + ind.segment
  {
    if ind.NoIndent? then "" else IndentString(ind.parent) + ind.segment
  }

  datatype RawLayout = Layout(lines: seq<string>, endsWithEol: bool)

  /** A list of lines; there is always at least one. */
  type Layout = l: RawLayout | |l.lines| >= 1 witness Layout([""], false)

  function EmptyLayout(): (l: Layout)
    ensures Display(l) == "" && !l.endsWithEol
  {
    Layout([""], false)
  }

  function AppendNewline(l: Layout, indentation: string): (r: Layout)
    ensures r.lines == l.lines + [indentation] && !r.endsWithEol
    ensures Display(r) == Display(l) + "\n" + indentation
  {
    Text.JoinSnoc(l.lines, indentation);
    Layout(l.lines + [indentation], false)
  }

  /** Text is added to the last line; text after an end-of-line mark is a panic (`None`). */
  function AppendText(l: Layout, text: string): (r: Option<Layout>)
    ensures r.None? <==> l.endsWithEol
    ensures r.Some? ==> |r.value.lines| == |l.lines| && r.value.endsWithEol == l.endsWithEol
    ensures r.Some? ==> Display(r.value) == Display(l) + text
  {
    if l.endsWithEol then None
    else
      var n := |l.lines|;
      Text.JoinExtendLast(l.lines, text);
      Some(Layout(l.lines[n - 1 := l.lines[n - 1] + text], false))
  }

  function LastLineLen(l: Layout): (w: nat)
    ensures w == |l.lines[|l.lines| - 1]|
  {
    Text.StrWidth(l.lines[|l.lines| - 1])
  }

  /** The layout as text: its lines separated by newline characters. */
  function Display(l: Layout): (s: string)
  {
    Text.Join(l.lines, "\n")
  }

  /** `l` begins with `prefix`: the same lines, with possibly more text on its last one, then more lines. */
  predicate Extends(l: Layout, prefix: Layout) {
    var k := |prefix.lines| - 1;
    |prefix.lines| <= |l.lines| &&
    l.lines[..k] == prefix.lines[..k] &&
    prefix.lines[k] <= l.lines[k]
  }

  lemma ExtendsTransitive(a: Layout, b: Layout, c: Layout)
    requires Extends(a, b) && Extends(b, c)
    ensures Extends(a, c)
  {
    var k := |c.lines| - 1;
    assert a.lines[..k] == a.lines[..|b.lines| - 1][..k];
    assert b.lines[..k] == b.lines[..|b.lines| - 1][..k];
    if |c.lines| < |b.lines| {
      assert c.lines[k] <= b.lines[k] == a.lines[k];
    }
  }

  function Min(a: nat, b: nat): nat {
    if a < b then a else b
  }

  /**
   * `first_line_len`: the length of the first line of `t` given that
   * `suffix` columns follow its last line (`None`: an end-of-line mark
   * followed by text). Choices are taken to their second option.
   */
  function FirstLineLen(t: Tree, suffix: Option<nat>): (r: Outcome<Option<nat>, C.PrintingError>)
    decreases t
    ensures t.TNewline? ==> r == Done(Some(0))
    ensures t.TEmpty? || t.TFocusMark? ==> r == Done(suffix)
    ensures t.TTextual? && suffix.Some? ==> r == Done(Some(|t.str| + suffix.value))
    ensures t.TEndOfLine? ==> (r == Done(Some(0)) <==> suffix == Some(0))
  {
    match t
    case TEmpty => Done(suffix)
    case TFocusMark => Done(suffix)
    case TTextual(s) => Done(if suffix.None? then None else Some(|s| + suffix.value))
    case TEndOfLine => Done(if suffix == Some(0) then Some(0) else None)
    case TNewline(_) => Done(Some(0))
    case TChild(_, x) =>
      if !x.Done? then Forward(x) else FirstLineLen(x.value, suffix)
    case TConcat(x, y) =>
      if !y.Done? then Forward(y)
      else
        var ys := FirstLineLen(y.value, suffix);
        if !ys.Done? then ys
        else if !x.Done? then Forward(x)
        else FirstLineLen(x.value, Clamp(ys.value))
    case TChoice(_, y) =>
      if !y.Done? then Forward(y) else FirstLineLen(y.value, suffix)
  }

  /** The failure of a part that did not evaluate, passed on. */
  function Forward<T>(x: Part): (r: Outcome<T, C.PrintingError>)
    requires !x.Done?
    ensures r.Fail? <==> x.Fail?
    ensures r.Fail? ==> r.error == x.error
  {
    if x.Fail? then Fail(x.error) else Panic
  }

  function Clamp(s: Option<nat>): (r: Option<nat>)
    ensures r.Some? <==> s.Some?
    ensures r.Some? ==> r.value <= MAX_WIDTH && r.value <= s.value
  {
    if s.None? then None else Some(Min(s.value, MAX_WIDTH))
  }

  /** The `Le` order on suffix lengths, with `None` (text after end-of-line) above every number. */
  predicate AtMost(a: Option<nat>, b: Option<nat>) {
    b.None? || (a.Some? && a.value <= b.value)
  }

  /** A longer suffix never gives a shorter first line. */
  lemma {:induction false} FirstLineLenMonotone(t: Tree, s1: Option<nat>, s2: Option<nat>)
    requires AtMost(s1, s2)
    requires FirstLineLen(t, s1).Done? && FirstLineLen(t, s2).Done?
    ensures AtMost(FirstLineLen(t, s1).value, FirstLineLen(t, s2).value)
    decreases t
  {
    match t
    case TChild(_, x) => FirstLineLenMonotone(x.value, s1, s2);
    case TChoice(_, y) => FirstLineLenMonotone(y.value, s1, s2);
    case TConcat(x, y) =>
      FirstLineLenMonotone(y.value, s1, s2);
      FirstLineLenMonotone(x.value, Clamp(FirstLineLen(y.value, s1).value), Clamp(FirstLineLen(y.value, s2).value));
    case _ =>
  }

  /** The choice rule: the first option fits when its first line fits on the current line. */
  function Fits(prefix: Layout, firstLen: Option<nat>, width: nat): (b: bool)
    ensures b ==> firstLen.Some? && LastLineLen(prefix) + firstLen.value <= width
    ensures b ==> !prefix.endsWithEol || firstLen.value == 0
  {
    match firstLen
    case None => false
    case Some(f) =>
      if prefix.endsWithEol && f > 0 then false
      else LastLineLen(prefix) + f <= width
  }

  /**
   * `pp`: print `t` after `prefix`. The result always extends `prefix`: the
   * oracle only ever appends text and lines.
   */
  function PP(prefix: Layout, t: Tree, suffix: Option<nat>, width: nat): (r: Outcome<Layout, C.PrintingError>)
    requires width < MAX_WIDTH
    decreases t
    ensures r.Done? ==> Extends(r.value, prefix)
    ensures r.Done? && (t.TEmpty? || t.TFocusMark?) ==> r.value == prefix
  {
    match t
    case TEmpty => Done(prefix)
    case TFocusMark => Done(prefix)
    case TTextual(s) =>
      var l := AppendText(prefix, s);
      if l.None? then Panic else Done(l.value)
    case TEndOfLine => Done(prefix.(endsWithEol := true))
    case TNewline(ind) => Done(AppendNewline(prefix, IndentString(ind)))
    case TChild(_, x) =>
      if !x.Done? then Forward(x) else PP(prefix, x.value, suffix, width)
    case TConcat(x, y) =>
      if !x.Done? then Forward(x)
      else if !y.Done? then Forward(y)
      else
        var ys := FirstLineLen(y.value, suffix);
        if !ys.Done? then Forward(if ys.Fail? then Fail(ys.error) else Panic)
        else
          var mid := PP(prefix, x.value, Clamp(ys.value), width);
          if !mid.Done? then mid
          else
            var r := PP(mid.value, y.value, suffix, width);
            if r.Done? then ExtendsTransitive(r.value, mid.value, prefix); r else r
    case TChoice(x, y) =>
      if !x.Done? then Forward(x)
      else
        var xs := FirstLineLen(x.value, suffix);
        if !xs.Done? then Forward(if xs.Fail? then Fail(xs.error) else Panic)
        else if Fits(prefix, xs.value, width) then PP(prefix, x.value, suffix, width)
        else if !y.Done? then Forward(y)
        else PP(prefix, y.value, suffix, width)
  }

  /**
   * The choice rule: with both options evaluated, a choice prints its first
   * option iff that option has a first line, the last line does not end in an
   * end-of-line mark unless that first line is empty, and the two together
   * fit in the width; otherwise it prints the second.
   */
  lemma ChoiceRule(prefix: Layout, x: Tree, y: Tree, suffix: Option<nat>, width: nat)
    requires width < MAX_WIDTH && FirstLineLen(x, suffix).Done?
    ensures var f := FirstLineLen(x, suffix).value;
      f.Some? && (!prefix.endsWithEol || f.value == 0) && LastLineLen(prefix) + f.value <= width ==>
      PP(prefix, TChoice(Done(x), Done(y)), suffix, width) == PP(prefix, x, suffix, width)
    ensures var f := FirstLineLen(x, suffix).value;
      !(f.Some? && (!prefix.endsWithEol || f.value == 0) && LastLineLen(prefix) + f.value <= width) ==>
      PP(prefix, TChoice(Done(x), Done(y)), suffix, width) == PP(prefix, y, suffix, width)
  {
  }

  /** No choice anywhere in the tree. */
  predicate ChoiceFree(t: Tree)
    decreases t
  {
    match t
    case TChoice(_, _) => false
    case TConcat(x, y) => (x.Done? ==> ChoiceFree(x.value)) && (y.Done? ==> ChoiceFree(y.value))
    case TChild(_, x) => x.Done? ==> ChoiceFree(x.value)
    case _ => true
  }

  /** Without choices the width and the suffix make no difference to the printed layout. */
  lemma {:induction false} ChoiceFreeIgnoresWidth(prefix: Layout, t: Tree, s1: Option<nat>, s2: Option<nat>, w1: nat, w2: nat)
    requires w1 < MAX_WIDTH && w2 < MAX_WIDTH && ChoiceFree(t)
    requires FirstLineLenTotal(t)
    ensures PP(prefix, t, s1, w1) == PP(prefix, t, s2, w2)
    decreases t
  {
    match t
    case TChild(_, x) =>
      if x.Done? {
        ChoiceFreeIgnoresWidth(prefix, x.value, s1, s2, w1, w2);
      }
    case TConcat(x, y) =>
      if x.Done? && y.Done? {
        var ys1 := FirstLineLen(y.value, s1);
        var ys2 := FirstLineLen(y.value, s2);
        FirstLineLenTotalDone(y.value, s1);
        FirstLineLenTotalDone(y.value, s2);
        ChoiceFreeIgnoresWidth(prefix, x.value, Clamp(ys1.value), Clamp(ys2.value), w1, w2);
        var mid := PP(prefix, x.value, Clamp(ys1.value), w1);
        if mid.Done? {
          ChoiceFreeIgnoresWidth(mid.value, y.value, s1, s2, w1, w2);
        }
      }
    case _ =>
  }

  /** Every part of the tree evaluated without error or panic. */
  predicate FirstLineLenTotal(t: Tree)
    decreases t
  {
    match t
    case TConcat(x, y) => x.Done? && y.Done? && FirstLineLenTotal(x.value) && FirstLineLenTotal(y.value)
    case TChoice(x, y) => x.Done? && y.Done? && FirstLineLenTotal(x.value) && FirstLineLenTotal(y.value)
    case TChild(_, x) => x.Done? && FirstLineLenTotal(x.value)
    case _ => true
  }

  /** On a tree whose parts all evaluated, `first_line_len` cannot fail. */
  lemma {:induction false} FirstLineLenTotalDone(t: Tree, suffix: Option<nat>)
    requires FirstLineLenTotal(t)
    ensures FirstLineLen(t, suffix).Done?
    decreases t
  {
    match t
    case TChild(_, x) => FirstLineLenTotalDone(x.value, suffix);
    case TChoice(_, y) => FirstLineLenTotalDone(y.value, suffix);
    case TConcat(x, y) =>
      FirstLineLenTotalDone(y.value, suffix);
      FirstLineLenTotalDone(x.value, Clamp(FirstLineLen(y.value, suffix).value));
    case _ =>
  }

  /**
   * `oracular_pretty_print`: print the expanded root notation from an empty
   * layout with nothing after it. Any error is turned into a panic, and so
   * is a width of `MAX_WIDTH` or more (the assertion at the top of `pp`).
   */
  function OracularPrettyPrint(root: Part, width: nat): (r: Outcome<string, C.PrintingError>)
    ensures !r.Fail?
    ensures width >= MAX_WIDTH ==> r.Panic?
    ensures r.Done? ==> root.Done? && exists l: Layout :: PP(EmptyLayout(), root.value, Some(0), width) == Done(l) && r.value == Display(l)
  {
    if width >= MAX_WIDTH || !root.Done? then Panic
    else
      var l := PP(EmptyLayout(), root.value, Some(0), width);
      if l.Done? then Done(Display(l.value)) else Panic
  }
}
