// The sample document type: a tree whose nodes are text or a list of
// children, each with an id drawn from a per-thread counter, a notation, a
// style, per-label style overrides and the two flags that notations test
// (comment, needs a separator). The two versions of this type differ only in
// where the counter starts and in whether `IsComment` is available; one
// model serves both.

module Trees {
  import opened Wrappers

  /** Where the id counter starts: the newer tree counts from 0, the older one keeps id 0 free. */
  const DOC_FIRST_ID: nat := 0
  const EXAMPLE_FIRST_ID: nat := 1

  /** What a notation may ask of a node. The older tree has no `IsComment`. */
  datatype Condition = NeedsSeparator | IsEmptyText | IsComment

  /**
   * A node: `N` stands for the notation it refers to, `S` for its style;
   * style overrides are (label, style) pairs, searched front to back.
   */
  datatype Tree<N, S> = Tree(
    id: nat,
    notation: N,
    contents: Contents<N, S>,
    nodeStyle: S,
    styleOverrides: seq<(string, S)>,
    isComment: bool,
    needsSeparator: bool)

  datatype Contents<N, S> = Text(text: string) | Children(children: seq<Tree<N, S>>)

  /** The per-thread id counter. */
  class IdCounter {
    var next: nat
    const first: nat

    /** A counter at `first`, the value `reset_id` goes back to. */
    constructor(first: nat)
      ensures next == first && this.first == first
    {
      next := first;
      this.first := first;
    }

    /** Hands out the current value and moves past it. */
    method NextId() returns (id: nat)
      modifies this
      ensures id == old(next) && next == old(next) + 1
    {
      id := next;
      next := next + 1;
    }

    /** Meant to be called between two documents, so that ids start over. */
    method Reset()
      modifies this
      ensures next == first
    {
      next := first;
    }
  }

  /** Some child after position `i` is not a comment. */
  predicate LaterNonComment<N, S>(children: seq<Tree<N, S>>, i: nat)
  {
    exists j :: i < j < |children| && !children[j].isComment
  }

  /**
   * The children of a new branch: a child needs a separator when it is not a
   * comment and some non-comment child follows it, i.e. it is not the last
   * non-comment child; a child that already needed one still does, and
   * nothing else changes.
   */
  function MarkSeparators<N, S>(children: seq<Tree<N, S>>): (r: seq<Tree<N, S>>)
  {
    seq(|children|, i requires 0 <= i < |children| =>
      children[i].(needsSeparator := children[i].needsSeparator || (!children[i].isComment && LaterNonComment(children, i))))
  }

  /** How many of the trees are not comments. */
  function NonComments<N, S>(ts: seq<Tree<N, S>>): (n: nat)
    ensures n <= |ts|
  {
    if ts == [] then 0 else (if ts[0].isComment then 0 else 1) + NonComments(ts[1..])
  }

  /** How many of the trees need a separator. */
  function Marked<N, S>(ts: seq<Tree<N, S>>): (n: nat)
    ensures n <= |ts|
  {
    if ts == [] then 0 else (if ts[0].needsSeparator then 1 else 0) + Marked(ts[1..])
  }

  /** There is a non-comment among the trees exactly when the count of them is positive. */
  lemma {:induction false} NonCommentsPositive<N, S>(ts: seq<Tree<N, S>>)
    ensures NonComments(ts) > 0 <==> exists j :: 0 <= j < |ts| && !ts[j].isComment
  {
    if ts != [] {
      NonCommentsPositive(ts[1..]);
      if exists j :: 0 <= j < |ts| && !ts[j].isComment {
        var j :| 0 <= j < |ts| && !ts[j].isComment;
        if j > 0 {
          assert !ts[1..][j - 1].isComment;
        }
      }
      if exists j :: 0 <= j < |ts[1..]| && !ts[1..][j].isComment {
        var j :| 0 <= j < |ts[1..]| && !ts[1..][j].isComment;
        assert !ts[j + 1].isComment;
      }
    }
  }

  /**
   * When no child needed a separator before, exactly one fewer child than
   * there are non-comments needs one after (none when all are comments).
   */
  lemma {:induction false} MarkedCount<N, S>(children: seq<Tree<N, S>>)
    requires forall i :: 0 <= i < |children| ==> !children[i].needsSeparator
    ensures Marked(MarkSeparators(children)) == if NonComments(children) == 0 then 0 else NonComments(children) - 1
  {
    if children != [] {
      var m := MarkSeparators(children);
      var rest := children[1..];
      assert m[1..] == MarkSeparators(rest) by {
        forall i | 0 <= i < |rest|
          ensures LaterNonComment(children, i + 1) == LaterNonComment(rest, i)
        {
          if LaterNonComment(children, i + 1) {
            var j :| i + 1 < j < |children| && !children[j].isComment;
            assert !rest[j - 1].isComment;
          }
          if LaterNonComment(rest, i) {
            var j :| i < j < |rest| && !rest[j].isComment;
            assert !children[j + 1].isComment;
          }
        }
      }
      MarkedCount(rest);
      NonCommentsPositive(rest);
      assert LaterNonComment(children, 0) <==> exists j :: 0 <= j < |rest| && !rest[j].isComment by {
        if LaterNonComment(children, 0) {
          var j :| 0 < j < |children| && !children[j].isComment;
          assert !rest[j - 1].isComment;
        }
        if exists j :: 0 <= j < |rest| && !rest[j].isComment {
          var j :| 0 <= j < |rest| && !rest[j].isComment;
          assert !children[j + 1].isComment;
        }
      }
    }
  }

  /** Marking the children of a branch twice is marking them once. */
  lemma MarkSeparatorsIdempotent<N, S>(children: seq<Tree<N, S>>)
    ensures MarkSeparators(MarkSeparators(children)) == MarkSeparators(children)
  {
    var m := MarkSeparators(children);
    forall i | 0 <= i < |m|
      ensures LaterNonComment(m, i) == LaterNonComment(children, i)
    {
      if LaterNonComment(m, i) {
        var j :| i < j < |m| && !m[j].isComment;
        assert !children[j].isComment;
      }
      if LaterNonComment(children, i) {
        var j :| i < j < |children| && !children[j].isComment;
        assert !m[j].isComment;
      }
    }
  }

  /** `new_text`: a fresh text node with the next id, the default style, no overrides and no flags. */
  method NewText<N, S>(counter: IdCounter, notation: N, text: string, defaultStyle: S) returns (t: Tree<N, S>)
    modifies counter
    ensures t.id == old(counter.next) && counter.next == old(counter.next) + 1
    ensures t.notation == notation && t.contents == Text(text)
    ensures t.nodeStyle == defaultStyle && t.styleOverrides == []
    ensures !t.isComment && !t.needsSeparator
  {
    var id := counter.NextId();
    t := Tree(id, notation, Text(text), defaultStyle, [], false, false);
  }

  /**
   * `new_branch`: walks the children from the last, skipping comments, and
   * marks every non-comment child after the first one met; then the branch
   * takes the next id, the default style, no overrides and no flags.
   */
  method NewBranch<N, S>(counter: IdCounter, notation: N, children: seq<Tree<N, S>>, defaultStyle: S) returns (t: Tree<N, S>)
    modifies counter
    ensures t.id == old(counter.next) && counter.next == old(counter.next) + 1
    ensures t.notation == notation && t.contents == Children(MarkSeparators(children))
    ensures t.nodeStyle == defaultStyle && t.styleOverrides == []
    ensures !t.isComment && !t.needsSeparator
  {
    var marked := children;
    var seen := false;
    var i := |children|;
    while i > 0
      invariant 0 <= i <= |children| && |marked| == |children|
      invariant marked[..i] == children[..i]
      invariant marked[i..] == MarkSeparators(children)[i..]
      invariant seen <==> exists j :: i <= j < |children| && !children[j].isComment
    {
      i := i - 1;
      assert LaterNonComment(children, i) <==> seen;
      if !marked[i].isComment {
        if seen {
          marked := marked[i := marked[i].(needsSeparator := true)];
        }
        seen := true;
      }
      assert marked[i] == MarkSeparators(children)[i];
    }
    assert marked == marked[0..];
    var id := counter.NextId();
    t := Tree(id, notation, Children(marked), defaultStyle, [], false, false);
  }

  /** `into_comment`: the node becomes a comment and nothing else changes. */
  function IntoComment<N, S>(t: Tree<N, S>): (r: Tree<N, S>)
    ensures r.isComment && r.(isComment := t.isComment) == t
  {
    t.(isComment := true)
  }

  /** `with_style`: only the node's own style changes. */
  function WithStyle<N, S>(t: Tree<N, S>, style: S): (r: Tree<N, S>)
    ensures r.nodeStyle == style && r.(nodeStyle := t.nodeStyle) == t
  {
    t.(nodeStyle := style)
  }

  /** `with_style_override`: adds an override after the existing ones; nothing else changes. */
  function WithStyleOverride<N, S>(t: Tree<N, S>, lbl: string, style: S): (r: Tree<N, S>)
    ensures |r.styleOverrides| == |t.styleOverrides| + 1
    ensures r.styleOverrides[..|t.styleOverrides|] == t.styleOverrides
    ensures r.(styleOverrides := t.styleOverrides) == t
  {
    t.(styleOverrides := t.styleOverrides + [(lbl, style)])
  }

  /** The style of the first override for `lbl`, if there is one. */
  function FirstOverride<S>(overrides: seq<(string, S)>, lbl: string): Option<S>
  {
    if overrides == [] then None
    else if overrides[0].0 == lbl then Some(overrides[0].1)
    else FirstOverride(overrides[1..], lbl)
  }

  /** Some override has the label. */
  predicate HasOverride<S>(overrides: seq<(string, S)>, lbl: string)
  {
    exists i :: 0 <= i < |overrides| && overrides[i].0 == lbl
  }

  /**
   * An override is found exactly when one has the label, and then it is the
   * first one with that label.
   */
  lemma {:induction false} FirstOverrideIsFirst<S>(overrides: seq<(string, S)>, lbl: string)
    ensures FirstOverride(overrides, lbl).Some? <==> HasOverride(overrides, lbl)
    ensures FirstOverride(overrides, lbl).Some? ==>
      exists i :: 0 <= i < |overrides| && overrides[i] == (lbl, FirstOverride(overrides, lbl).value)
        && forall k :: 0 <= k < i ==> overrides[k].0 != lbl
  {
    if overrides != [] && overrides[0].0 != lbl {
      var rest := overrides[1..];
      FirstOverrideIsFirst(rest, lbl);
      if HasOverride(overrides, lbl) {
        var i :| 0 <= i < |overrides| && overrides[i].0 == lbl;
        assert rest[i - 1].0 == lbl;
      }
      if HasOverride(rest, lbl) {
        var i :| 0 <= i < |rest| && rest[i].0 == lbl;
        assert overrides[i + 1].0 == lbl;
      }
      if FirstOverride(rest, lbl).Some? {
        var i :| 0 <= i < |rest| && rest[i] == (lbl, FirstOverride(rest, lbl).value)
          && forall k :: 0 <= k < i ==> rest[k].0 != lbl;
        assert overrides[i + 1] == rest[i];
        forall k | 0 <= k < i + 1
          ensures overrides[k].0 != lbl
        {
          if k > 0 {
            assert overrides[k] == rest[k - 1];
          }
        }
      }
    } else if overrides != [] {
      assert HasOverride(overrides, lbl) by {
        assert overrides[0].0 == lbl;
      }
    }
  }

  /**
   * Adding an override with `with_style_override` decides `lbl` only when
   * no earlier override does, and leaves every other label alone.
   */
  lemma {:induction false} OverrideAfter<S>(overrides: seq<(string, S)>, lbl: string, style: S, other: string)
    ensures FirstOverride(overrides + [(lbl, style)], other) ==
      if other == lbl && FirstOverride(overrides, other).None? then Some(style)
      else FirstOverride(overrides, other)
  {
    if overrides == [] {
      assert [] + [(lbl, style)] == [(lbl, style)];
      assert [(lbl, style)][1..] == [];
    } else {
      OverrideAfter(overrides[1..], lbl, style, other);
      assert (overrides + [(lbl, style)])[1..] == overrides[1..] + [(lbl, style)];
    }
  }

  /** `lookup_style`: the style of the first override with the label, else the label's own style. */
  method LookupStyle<N, S>(t: Tree<N, S>, lbl: string, fromLabel: string -> S) returns (s: S)
    ensures FirstOverride(t.styleOverrides, lbl).Some? ==> s == FirstOverride(t.styleOverrides, lbl).value
    ensures FirstOverride(t.styleOverrides, lbl).None? ==> s == fromLabel(lbl)
  {
    var overrides := t.styleOverrides;
    var i := 0;
    while i < |overrides|
      invariant i <= |overrides|
      invariant FirstOverride(overrides[i..], lbl) == FirstOverride(overrides, lbl)
    {
      if overrides[i].0 == lbl {
        return overrides[i].1;
      }
      assert overrides[i..][1..] == overrides[i + 1..];
      i := i + 1;
    }
    s := fromLabel(lbl);
  }

  /** `num_children`: none for text, the number of children for a branch. */
  function NumChildren<N, S>(t: Tree<N, S>): (r: Option<nat>)
    ensures r.Some? <==> t.contents.Children?
    ensures r.Some? ==> r.value == |t.contents.children|
  {
    match t.contents
    case Text(_) => None
    case Children(children) => Some(|children|)
  }

  /** `unwrap_text`: the text of a text node; on a branch the source panics. */
  function UnwrapText<N, S>(t: Tree<N, S>): (r: Option<string>)
    ensures r.Some? <==> t.contents.Text?
    ensures r.Some? ==> r.value == t.contents.text
  {
    match t.contents
    case Text(text) => Some(text)
    case Children(_) => None
  }

  /** `unwrap_child`: child `i` of a branch; on text, or past the last child, the source panics. */
  function UnwrapChild<N, S>(t: Tree<N, S>, i: nat): (r: Option<Tree<N, S>>)
    ensures r.Some? <==> t.contents.Children? && i < |t.contents.children|
    ensures r.Some? ==> r.value == t.contents.children[i]
  {
    match t.contents
    case Text(_) => None
    case Children(children) => if i < |children| then Some(children[i]) else None
  }

  /** `condition`: what a notation learns from the node. */
  function Holds<N, S>(t: Tree<N, S>, c: Condition): (r: bool)
  {
    match c
    case IsEmptyText => t.contents.Text? && t.contents.text == ""
    case NeedsSeparator => t.needsSeparator
    case IsComment => t.isComment
  }

  /**
   * In a branch built from children none of which needed a separator, child
   * `i` needs one exactly when it is not a comment and is not the last
   * non-comment child; being empty text and being a comment are unchanged.
   */
  lemma BranchChildConditions<N, S>(children: seq<Tree<N, S>>, i: nat)
    requires i < |children| && !children[i].needsSeparator
    ensures var c := MarkSeparators(children)[i];
      Holds(c, NeedsSeparator) <==> !children[i].isComment && LaterNonComment(children, i)
    ensures var c := MarkSeparators(children)[i];
      (Holds(c, IsComment) <==> Holds(children[i], IsComment))
      && (Holds(c, IsEmptyText) <==> Holds(children[i], IsEmptyText))
  {
  }

  /** A fresh text node is empty text exactly when its text is empty; comments come only from `into_comment`. */
  lemma FreshTextConditions<N, S>(id: nat, notation: N, text: string, style: S)
    ensures var t := Tree(id, notation, Text(text), style, [], false, false);
      (Holds(t, IsEmptyText) <==> text == "")
      && !Holds(t, NeedsSeparator) && !Holds(t, IsComment)
      && Holds(IntoComment(t), IsComment)
  {
  }
}

module TreesExamples {
  import opened Wrappers
  import opened Trees

  /** Three children, the last a comment: only the first is marked. */
  method SeparatorsSkipTrailingComment() returns (t: Tree<int, int>)
    ensures t.contents.Children? && |t.contents.children| == 3
    ensures t.contents.children[0].needsSeparator
    ensures !t.contents.children[1].needsSeparator && !t.contents.children[2].needsSeparator
    ensures t.id == 3
  {
    var counter := new IdCounter(DOC_FIRST_ID);
    var a := NewText(counter, 0, "a", 0);
    var b := NewText(counter, 0, "b", 0);
    var c := NewText(counter, 0, "", 0);
    c := IntoComment(c);
    t := NewBranch(counter, 0, [a, b, c], 0);
    assert LaterNonComment([a, b, c], 0) by {
      assert !([a, b, c][1].isComment);
    }
  }

  /** With two overrides for one label, the first one wins; other labels fall back to their own style. */
  lemma FirstOverrideWins()
    ensures FirstOverride([("x", 1), ("x", 2)], "x") == Some(1)
    ensures FirstOverride([("x", 1), ("x", 2)], "y") == None
  {
    assert [("x", 1), ("x", 2)][1..] == [("x", 2)];
    assert [("x", 2)][1..] == [];
  }
}
