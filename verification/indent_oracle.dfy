/**
 * The oracle printer of the stack-indentation generation
 * (src/pretty_printing/oracle.rs). Indentation is a stack of strings kept in
 * the layout: `PushIndent` and `PopIndent` change it, and each new line
 * starts with the whole stack. There is no end-of-line mark, and suffix
 * lengths are plain numbers.
 *
 * As for the other oracle, the notation tree is given with every part
 * already evaluated; `E` is the type of evaluation errors.
 */
module IndentOracle {
  import opened Outcomes
  import Text

  const MAX_WIDTH: nat := 10000

  type Part<E> = Outcome<Tree<E>, E>

  datatype Tree<E> =
    | Empty
    | Textual(str: string)
    | Newline
    | Child(index: nat, x: Part<E>)
    | Concat(x: Part<E>, y: Part<E>)
    | Choice(x: Part<E>, y: Part<E>)
    | PushIndent(indent: string)
    | PopIndent

  datatype RawLayout = Layout(indentStack: seq<string>, lines: seq<string>)

  /** The printed lines, always at least one, and the indentation currently in force. */
  type Layout = l: RawLayout | |l.lines| >= 1 witness Layout([], [""])

  function EmptyLayout(): (l: Layout)
    ensures Display(l) == "" && l.indentStack == []
  {
    Layout([], [""])
  }

  function AppendText(l: Layout, text: string): (r: Layout)
    ensures r.indentStack == l.indentStack && |r.lines| == |l.lines|
    ensures Display(r) == Display(l) + text
  {
    var n := |l.lines|;
    Text.JoinExtendLast(l.lines, text);
    l.(lines := l.lines[n - 1 := l.lines[n - 1] + text])
  }

  /** A new line that starts with every indentation string on the stack, bottom first. */
  function AppendNewline(l: Layout): (r: Layout)
    ensures r.indentStack == l.indentStack
    ensures r.lines == l.lines + [Text.Concat(l.indentStack)]
    ensures Display(r) == Display(l) + "\n" + Text.Concat(l.indentStack)
  {
    Text.JoinSnoc(l.lines, Text.Concat(l.indentStack));
    l.(lines := l.lines + [Text.Concat(l.indentStack)])
  }

  function PushIndent(l: Layout, indent: string): (r: Layout)
    ensures r.lines == l.lines && r.indentStack == l.indentStack + [indent]
  {
    l.(indentStack := l.indentStack + [indent])
  }

  /** Drop the innermost indentation; popping an empty stack leaves it empty. */
  function PopIndent(l: Layout): (r: Layout)
    ensures r.lines == l.lines
    ensures l.indentStack == [] ==> r.indentStack == []
    ensures l.indentStack != [] ==> r.indentStack + [l.indentStack[|l.indentStack| - 1]] == l.indentStack
  {
    if l.indentStack == [] then l else l.(indentStack := l.indentStack[..|l.indentStack| - 1])
  }

  /** Popping undoes pushing. */
  lemma PopUndoesPush(l: Layout, indent: string)
    ensures PopIndent(PushIndent(l, indent)) == l
  {
    assert (l.indentStack + [indent])[..|l.indentStack|] == l.indentStack;
  }

  function LastLineLen(l: Layout): (w: nat)
    ensures w == |l.lines[|l.lines| - 1]|
  {
    Text.StrWidth(l.lines[|l.lines| - 1])
  }

  function Display(l: Layout): (s: string) {
    Text.Join(l.lines, "\n")
  }

  /** `l` begins with the lines of `prefix`, with possibly more text on its last one, then more lines. */
  predicate Extends(l: Layout, prefix: Layout) {
    var k := |prefix.lines| - 1;
    |prefix.lines| <= |l.lines| &&
    l.lines[..k] == prefix.lines[..k] &&
    prefix.lines[k] <= l.lines[k]
  }

  lemma ExtendsTransitive(a: Layout, b: Layout, c: Layout)
    requires Extends(a, b) && Extends(b, c)
    ensures Extends(a, c)
  {
    var k := |c.lines| - 1;
    assert a.lines[..k] == a.lines[..|b.lines| - 1][..k];
    assert b.lines[..k] == b.lines[..|b.lines| - 1][..k];
    if |c.lines| < |b.lines| {
      assert c.lines[k] <= b.lines[k] == a.lines[k];
    }
  }

  function Min(a: nat, b: nat): nat {
    if a < b then a else b
  }

  /** The failure of a part that did not evaluate, passed on. */
  function Forward<T, E>(x: Part<E>): (r: Outcome<T, E>)
    requires !x.Done?
    ensures r.Fail? <==> x.Fail?
    ensures r.Fail? ==> r.error == x.error
  {
    if x.Fail? then Fail(x.error) else Panic
  }

  /**
   * `first_line_len`: the length of the first line of `t` when `suffix`
   * columns follow its last line, taking every choice to its second option.
   */
  function FirstLineLen<E>(t: Tree<E>, suffix: nat): (r: Outcome<nat, E>)
    decreases t
    ensures r.Done? && NewlineFree(t) ==> r.value >= Min(suffix, MAX_WIDTH)
    ensures AllDone(t) ==> r.Done?
  {
    match t
    case Empty => Done(suffix)
    case PushIndent(_) => Done(suffix)
    case PopIndent => Done(suffix)
    case Textual(s) => Done(|s| + suffix)
    case Newline => Done(0)
    case Child(_, x) =>
      if !x.Done? then Forward(x) else FirstLineLen(x.value, suffix)
    case Concat(x, y) =>
      if !y.Done? then Forward(y)
      else
        var ys := FirstLineLen(y.value, suffix);
        if !ys.Done? then ys
        else if !x.Done? then Forward(x)
        else
          FirstLineLen(x.value, Min(ys.value, MAX_WIDTH))
    case Choice(_, y) =>
      if !y.Done? then Forward(y) else FirstLineLen(y.value, suffix)
  }

  /** No newline is reachable in the tree (through the options `first_line_len` looks at). */
  predicate NewlineFree<E>(t: Tree<E>)
    decreases t
  {
    match t
    case Newline => false
    case Child(_, x) => x.Done? ==> NewlineFree(x.value)
    case Concat(x, y) => (x.Done? ==> NewlineFree(x.value)) && (y.Done? ==> NewlineFree(y.value))
    case Choice(_, y) => y.Done? ==> NewlineFree(y.value)
    case _ => true
  }

  /** Every part of the tree evaluated. */
  predicate AllDone<E>(t: Tree<E>)
    decreases t
  {
    match t
    case Concat(x, y) => x.Done? && y.Done? && AllDone(x.value) && AllDone(y.value)
    case Choice(x, y) => x.Done? && y.Done? && AllDone(x.value) && AllDone(y.value)
    case Child(_, x) => x.Done? && AllDone(x.value)
    case _ => true
  }

  /** A longer suffix never gives a shorter first line. */
  lemma {:induction false} FirstLineLenMonotone<E>(t: Tree<E>, s1: nat, s2: nat)
    requires s1 <= s2
    requires FirstLineLen(t, s1).Done? && FirstLineLen(t, s2).Done?
    ensures FirstLineLen(t, s1).value <= FirstLineLen(t, s2).value
    decreases t
  {
    match t
    case Child(_, x) => FirstLineLenMonotone(x.value, s1, s2);
    case Choice(_, y) => FirstLineLenMonotone(y.value, s1, s2);
    case Concat(x, y) =>
      FirstLineLenMonotone(y.value, s1, s2);
      var a := FirstLineLen(y.value, s1).value;
      var b := FirstLineLen(y.value, s2).value;
      FirstLineLenMonotone(x.value, Min(a, MAX_WIDTH), Min(b, MAX_WIDTH));
    case _ =>
  }

  /**
   * `pp`: print `t` after `prefix`. The result extends `prefix`, and the
   * indentation stack changes only through `PushIndent` and `PopIndent`.
   */
  function PP<E>(prefix: Layout, t: Tree<E>, suffix: nat, width: nat): (r: Outcome<Layout, E>)
    requires width < MAX_WIDTH
    decreases t
    ensures r.Done? ==> Extends(r.value, prefix)
    ensures r.Done? && StackNeutral(t) ==> r.value.indentStack == prefix.indentStack
    ensures AllDone(t) ==> r.Done?
  {
    match t
    case Empty => Done(prefix)
    case Textual(s) => Done(AppendText(prefix, s))
    case Newline => Done(AppendNewline(prefix))
    case PushIndent(s) => Done(PushIndent(prefix, s))
    case PopIndent => Done(PopIndent(prefix))
    case Child(_, x) =>
      if !x.Done? then Forward(x) else PP(prefix, x.value, suffix, width)
    case Concat(x, y) =>
      if !x.Done? then Forward(x)
      else if !y.Done? then Forward(y)
      else
        var ys := FirstLineLen(y.value, suffix);
        if !ys.Done? then Forward(if ys.Fail? then Fail(ys.error) else Panic)
        else
          var mid := PP(prefix, x.value, Min(ys.value, MAX_WIDTH), width);
          if !mid.Done? then mid
          else
            var r := PP(mid.value, y.value, suffix, width);
            if r.Done? then ExtendsTransitive(r.value, mid.value, prefix); r else r
    case Choice(x, y) =>
      if !x.Done? then Forward(x)
      else
        var xs := FirstLineLen(x.value, suffix);
        if !xs.Done? then Forward(if xs.Fail? then Fail(xs.error) else Panic)
        else if LastLineLen(prefix) + xs.value <= width then PP(prefix, x.value, suffix, width)
        else if !y.Done? then Forward(y)
        else PP(prefix, y.value, suffix, width)
  }

  /**
   * The choice rule: with both options evaluated, a choice prints its first
   * option iff that option's first line, followed by the suffix, fits after
   * the current last line; otherwise it prints the second.
   */
  lemma ChoiceRule<E>(prefix: Layout, x: Tree<E>, y: Tree<E>, suffix: nat, width: nat)
    requires width < MAX_WIDTH && FirstLineLen(x, suffix).Done?
    ensures LastLineLen(prefix) + FirstLineLen(x, suffix).value <= width ==>
      PP(prefix, Choice(Done(x), Done(y)), suffix, width) == PP(prefix, x, suffix, width)
    ensures LastLineLen(prefix) + FirstLineLen(x, suffix).value > width ==>
      PP(prefix, Choice(Done(x), Done(y)), suffix, width) == PP(prefix, y, suffix, width)
  {
  }

  /** No `PushIndent` or `PopIndent` anywhere in the tree. */
  predicate StackNeutral<E>(t: Tree<E>)
    decreases t
  {
    match t
    case PushIndent(_) => false
    case PopIndent => false
    case Child(_, x) => x.Done? ==> StackNeutral(x.value)
    case Concat(x, y) => (x.Done? ==> StackNeutral(x.value)) && (y.Done? ==> StackNeutral(y.value))
    case Choice(x, y) => (x.Done? ==> StackNeutral(x.value)) && (y.Done? ==> StackNeutral(y.value))
    case _ => true
  }

  /**
   * `oracular_pretty_print`: print from an empty layout with nothing after.
   * Any error panics, and so does a width of `MAX_WIDTH` or more (the
   * assertion at the top of `pp`).
   */
  function OracularPrettyPrint<E>(root: Part<E>, width: nat): (r: Outcome<string, E>)
    ensures !r.Fail?
    ensures width >= MAX_WIDTH ==> r.Panic?
    ensures width < MAX_WIDTH && root.Done? && AllDone(root.value) ==> r.Done?
  {
    if width >= MAX_WIDTH || !root.Done? then Panic
    else
      var l := PP(EmptyLayout(), root.value, 0, width);
      if l.Done? then Done(Display(l.value)) else Panic
  }
}
