/**
 * The chunk cursor of `pretty_printing/pretty_print_2.rs`. A `Printer`
 * holds the chunks to the left of its cursor (`prev`, in document order)
 * and to its right (`next`, reversed, so that its top is the chunk right
 * after the cursor). Seeking moves atomic chunks across the cursor and
 * unfolds `Empty`, `Indent`, `Flat` and `Concat` in place, so the document
 * the two stacks spell out never changes; resolving replaces one `Choice`
 * by the option `choose` picks, or one `Child` by the child's notation.
 *
 * Notations are those of `Choose` (what `NotationRef::case` shows, with
 * each child already resolved), and the `is_valid` of this file is
 * `Choose.IsValid`: the rules are the same. Shades and styles are not
 * modelled.
 */
module CursorPrinter {
  import opened Wrappers
  import Text
  import C = Choose

  type Note = C.Note
  type Chunk = C.Chunk

  /** The number of nodes of a notation: what unfolding a chunk makes smaller. */
  function Size(n: Note): (r: nat)
    ensures r >= 1
  {
    match n
    case Flat(b) => 1 + Size(b)
    case Indent(_, b) => 1 + Size(b)
    case Child(_, b) => 1 + Size(b)
    case Concat(l, r) => 1 + Size(l) + Size(r)
    case Choice(a, b) => 1 + Size(a) + Size(b)
    case _ => 1
  }

  function StackSize(s: seq<Chunk>): nat {
    if s == [] then 0 else StackSize(s[..|s| - 1]) + Size(s[|s| - 1].note)
  }

  lemma StackSizePush(s: seq<Chunk>, c: Chunk)
    ensures StackSize(s + [c]) == StackSize(s) + Size(c.note)
  {
    assert (s + [c])[..|s|] == s;
  }

  lemma PushTop<T>(xs: seq<T>, x: T)
    ensures (xs + [x])[..|xs|] == xs && (xs + [x])[|xs|] == x
  {
  }

  /** The chunks the cursor moves across whole; every other chunk is unfolded where it is. */
  predicate Atomic(n: Note) {
    n.Literal? || n.Text? || n.Newline? || n.Child? || n.Choice?
  }

  /** `indent.map(|i| i + j)`: only a chunk that is not flat has an indentation. */
  function AddIndent(indent: Option<nat>, j: nat): Option<nat> {
    if indent.Some? then Some(indent.value + j) else None
  }

  /** The printer's two stacks: `prev` left of the cursor in order, `next` right of it reversed. */
  datatype Cursor = Cursor(prev: seq<Chunk>, next: seq<Chunk>)

  /** The atomic chunks a chunk stands for, in document order. */
  function Atoms(c: Chunk): (r: seq<Chunk>)
    ensures forall i :: 0 <= i < |r| ==> Atomic(r[i].note)
    decreases Size(c.note)
  {
    match c.note
    case Empty => []
    case Indent(j, b) => Atoms(C.Chunk(AddIndent(c.indent, j), b))
    case Flat(b) => Atoms(C.Chunk(None, b))
    case Concat(l, r) => Atoms(C.Chunk(c.indent, l)) + Atoms(C.Chunk(c.indent, r))
    case _ => [c]
  }

  /** The atoms of `prev`, read from the bottom of the stack up. */
  function Behind(s: seq<Chunk>): seq<Chunk> {
    if s == [] then [] else Behind(s[..|s| - 1]) + Atoms(s[|s| - 1])
  }

  /** The atoms of `next`, read from the top of the stack down. */
  function Ahead(s: seq<Chunk>): seq<Chunk> {
    if s == [] then [] else Atoms(s[|s| - 1]) + Ahead(s[..|s| - 1])
  }

  /** The document a cursor stands in: everything behind it, then everything ahead of it. */
  function Document(cur: Cursor): seq<Chunk> {
    Behind(cur.prev) + Ahead(cur.next)
  }

  lemma BehindPush(s: seq<Chunk>, c: Chunk)
    ensures Behind(s + [c]) == Behind(s) + Atoms(c)
  {
    PushTop(s, c);
  }

  lemma AheadPush(s: seq<Chunk>, c: Chunk)
    ensures Ahead(s + [c]) == Atoms(c) + Ahead(s)
  {
    PushTop(s, c);
  }

  /** What `Indent`, `Flat`, `Concat` and `Empty` unfold to, pushed on `next`: the last one is first. */
  function UnfoldAhead(c: Chunk): seq<Chunk>
    requires !Atomic(c.note)
  {
    match c.note
    case Empty => []
    case Indent(j, b) => [C.Chunk(AddIndent(c.indent, j), b)]
    case Flat(b) => [C.Chunk(None, b)]
    case Concat(l, r) => [C.Chunk(c.indent, r), C.Chunk(c.indent, l)]
  }

  /** What the same chunks unfold to, pushed on `prev`: the last one is last. */
  function UnfoldBehind(c: Chunk): seq<Chunk>
    requires !Atomic(c.note)
  {
    match c.note
    case Empty => []
    case Indent(j, b) => [C.Chunk(AddIndent(c.indent, j), b)]
    case Flat(b) => [C.Chunk(None, b)]
    case Concat(l, r) => [C.Chunk(c.indent, l), C.Chunk(c.indent, r)]
  }

  lemma {:induction false} AheadAppend(s: seq<Chunk>, t: seq<Chunk>)
    ensures Ahead(s + t) == Ahead(t) + Ahead(s)
    ensures StackSize(s + t) == StackSize(s) + StackSize(t)
    decreases |t|
  {
    if t == [] {
      assert s + t == s;
    } else {
      var init := t[..|t| - 1];
      assert s + t == (s + init) + [t[|t| - 1]];
      assert t == init + [t[|t| - 1]];
      AheadPush(s + init, t[|t| - 1]);
      AheadPush(init, t[|t| - 1]);
      StackSizePush(s + init, t[|t| - 1]);
      StackSizePush(init, t[|t| - 1]);
      AheadAppend(s, init);
    }
  }

  lemma {:induction false} BehindAppend(s: seq<Chunk>, t: seq<Chunk>)
    ensures Behind(s + t) == Behind(s) + Behind(t)
    ensures StackSize(s + t) == StackSize(s) + StackSize(t)
    decreases |t|
  {
    if t == [] {
      assert s + t == s;
    } else {
      var init := t[..|t| - 1];
      assert s + t == (s + init) + [t[|t| - 1]];
      assert t == init + [t[|t| - 1]];
      BehindPush(s + init, t[|t| - 1]);
      BehindPush(init, t[|t| - 1]);
      StackSizePush(s + init, t[|t| - 1]);
      StackSizePush(init, t[|t| - 1]);
      BehindAppend(s, init);
    }
  }

  /** What a chunk unfolds to on `next` holds its atoms, and is smaller. */
  lemma UnfoldAheadAtoms(c: Chunk)
    requires !Atomic(c.note)
    ensures Ahead(UnfoldAhead(c)) == Atoms(c)
    ensures StackSize(UnfoldAhead(c)) < Size(c.note)
  {
    var u := UnfoldAhead(c);
    if |u| == 2 {
      assert u[..1][..0] == [];
      assert u[..1] == [u[0]];
      assert Ahead(u[..1]) == Atoms(u[0]);
      assert StackSize(u[..1]) == Size(u[0].note);
      assert StackSize(u) == Size(u[0].note) + Size(u[1].note);
    } else if |u| == 1 {
      assert u[..0] == [];
      assert Ahead(u) == Atoms(u[0]);
      assert StackSize(u) == Size(u[0].note);
    }
  }

  /** What a chunk unfolds to on `prev` holds its atoms, and is smaller. */
  lemma UnfoldBehindAtoms(c: Chunk)
    requires !Atomic(c.note)
    ensures Behind(UnfoldBehind(c)) == Atoms(c)
    ensures StackSize(UnfoldBehind(c)) < Size(c.note)
  {
    var u := UnfoldBehind(c);
    if |u| == 2 {
      assert u[..1][..0] == [];
      assert u[..1] == [u[0]];
      assert Behind(u[..1]) == Atoms(u[0]);
      assert StackSize(u[..1]) == Size(u[0].note);
      assert StackSize(u) == Size(u[0].note) + Size(u[1].note);
    } else if |u| == 1 {
      assert u[..0] == [];
      assert Behind(u) == Atoms(u[0]);
      assert StackSize(u) == Size(u[0].note);
    }
  }

  /** Unfolding on `next` leaves the atoms ahead as they were. */
  lemma AheadUnfold(rest: seq<Chunk>, c: Chunk)
    requires !Atomic(c.note)
    ensures Ahead(rest + UnfoldAhead(c)) == Atoms(c) + Ahead(rest)
    ensures StackSize(rest + UnfoldAhead(c)) < StackSize(rest) + Size(c.note)
  {
    AheadAppend(rest, UnfoldAhead(c));
    UnfoldAheadAtoms(c);
  }

  /** Unfolding on `prev` leaves the atoms behind as they were. */
  lemma BehindUnfold(rest: seq<Chunk>, c: Chunk)
    requires !Atomic(c.note)
    ensures Behind(rest + UnfoldBehind(c)) == Behind(rest) + Atoms(c)
    ensures StackSize(rest + UnfoldBehind(c)) < StackSize(rest) + Size(c.note)
  {
    BehindAppend(rest, UnfoldBehind(c));
    UnfoldBehindAtoms(c);
  }

  /**
   * One pass of the loop of `seek_forward_until`, on the chunk on top of
   * `next`: an atom moves to `prev`, anything else is unfolded on `next`.
   */
  function ForwardStep(cur: Cursor): (r: Cursor)
    requires cur.next != []
    ensures StackSize(r.next) < StackSize(cur.next)
  {
    var c := cur.next[|cur.next| - 1];
    var rest := cur.next[..|cur.next| - 1];
    StackSizePush(rest, c);
    if Atomic(c.note) then Cursor(cur.prev + [c], rest)
    else
      AheadUnfold(rest, c);
      Cursor(cur.prev, rest + UnfoldAhead(c))
  }

  /** One pass of the loop of `seek_backward_until`, on the chunk on top of `prev`. */
  function BackwardStep(cur: Cursor): (r: Cursor)
    requires cur.prev != []
    ensures StackSize(r.prev) < StackSize(cur.prev)
  {
    var c := cur.prev[|cur.prev| - 1];
    var rest := cur.prev[..|cur.prev| - 1];
    StackSizePush(rest, c);
    if Atomic(c.note) then Cursor(rest, cur.next + [c])
    else
      BehindUnfold(rest, c);
      Cursor(rest + UnfoldBehind(c), cur.next)
  }

  lemma AtomsOfAtom(c: Chunk)
    requires Atomic(c.note)
    ensures Atoms(c) == [c]
  {
  }

  lemma ForwardAtomAhead(cur: Cursor, c: Chunk, rest: seq<Chunk>)
    requires cur.next == rest + [c] && Atomic(c.note)
    ensures ForwardStep(cur) == Cursor(cur.prev + [c], rest)
    ensures Ahead(cur.next) == [c] + Ahead(rest)
    ensures Behind(cur.prev + [c]) == Behind(cur.prev) + [c]
  {
    PushTop(rest, c);
    AheadPush(rest, c);
    BehindPush(cur.prev, c);
    AtomsOfAtom(c);
  }

  lemma ForwardUnfoldAhead(cur: Cursor, c: Chunk, rest: seq<Chunk>)
    requires cur.next == rest + [c] && !Atomic(c.note)
    ensures ForwardStep(cur) == Cursor(cur.prev, rest + UnfoldAhead(c))
    ensures Ahead(rest + UnfoldAhead(c)) == Ahead(cur.next)
  {
    PushTop(rest, c);
    AheadPush(rest, c);
    AheadUnfold(rest, c);
  }

  /** A forward step moves an atom from ahead of the cursor to `prev`, or unfolds what is ahead. */
  lemma ForwardStepAhead(cur: Cursor)
    requires cur.next != []
    ensures ForwardStep(cur).prev + Ahead(ForwardStep(cur).next) == cur.prev + Ahead(cur.next)
    ensures Document(ForwardStep(cur)) == Document(cur)
  {
    var c := cur.next[|cur.next| - 1];
    var rest := cur.next[..|cur.next| - 1];
    assert cur.next == rest + [c];
    if Atomic(c.note) {
      ForwardAtomAhead(cur, c, rest);
    } else {
      ForwardUnfoldAhead(cur, c, rest);
    }
  }

  lemma BackwardAtomBehind(cur: Cursor, c: Chunk, rest: seq<Chunk>)
    requires cur.prev == rest + [c] && Atomic(c.note)
    ensures BackwardStep(cur) == Cursor(rest, cur.next + [c])
    ensures Behind(cur.prev) == Behind(rest) + [c]
    ensures Ahead(cur.next + [c]) == [c] + Ahead(cur.next)
  {
    PushTop(rest, c);
    BehindPush(rest, c);
    AheadPush(cur.next, c);
    AtomsOfAtom(c);
  }

  lemma BackwardUnfoldBehind(cur: Cursor, c: Chunk, rest: seq<Chunk>)
    requires cur.prev == rest + [c] && !Atomic(c.note)
    ensures BackwardStep(cur) == Cursor(rest + UnfoldBehind(c), cur.next)
    ensures Behind(rest + UnfoldBehind(c)) == Behind(cur.prev)
  {
    PushTop(rest, c);
    BehindPush(rest, c);
    BehindUnfold(rest, c);
  }

  /** A backward step moves an atom from behind the cursor to `next`, or unfolds what is behind. */
  lemma BackwardStepBehind(cur: Cursor)
    requires cur.prev != []
    ensures Document(BackwardStep(cur)) == Document(cur)
    ensures |BackwardStep(cur).next| >= |cur.next| && BackwardStep(cur).next[..|cur.next|] == cur.next
  {
    var c := cur.prev[|cur.prev| - 1];
    var rest := cur.prev[..|cur.prev| - 1];
    assert cur.prev == rest + [c];
    if Atomic(c.note) {
      BackwardAtomBehind(cur, c, rest);
      PushTop(cur.next, c);
    } else {
      BackwardUnfoldBehind(cur, c, rest);
    }
  }

  /**
   * `seek_forward_until`: step forward until the notation just popped
   * satisfies `stop`, or until nothing is left ahead.
   */
  function SeekForward(cur: Cursor, stop: Note -> bool): Cursor
    decreases StackSize(cur.next)
  {
    if cur.next == [] then cur
    else if stop(cur.next[|cur.next| - 1].note) then ForwardStep(cur)
    else SeekForward(ForwardStep(cur), stop)
  }

  /** `seek_backward_until`: step backward until the notation just popped satisfies `stop`. */
  function SeekBackward(cur: Cursor, stop: Note -> bool): Cursor
    decreases StackSize(cur.prev)
  {
    if cur.prev == [] then cur
    else if stop(cur.prev[|cur.prev| - 1].note) then BackwardStep(cur)
    else SeekBackward(BackwardStep(cur), stop)
  }

  /** Seeking forward never changes the document, and only appends to `prev`. */
  lemma {:induction false} SeekForwardKeepsDocument(cur: Cursor, stop: Note -> bool)
    ensures Document(SeekForward(cur, stop)) == Document(cur)
    ensures SeekForward(cur, stop).prev + Ahead(SeekForward(cur, stop).next) == cur.prev + Ahead(cur.next)
    decreases StackSize(cur.next)
  {
    if cur.next != [] {
      ForwardStepAhead(cur);
      if !stop(cur.next[|cur.next| - 1].note) {
        SeekForwardKeepsDocument(ForwardStep(cur), stop);
      }
    }
  }

  /** Seeking backward never changes the document, and only pushes onto `next`. */
  lemma {:induction false} SeekBackwardKeepsDocument(cur: Cursor, stop: Note -> bool)
    ensures Document(SeekBackward(cur, stop)) == Document(cur)
    ensures |SeekBackward(cur, stop).next| >= |cur.next| && SeekBackward(cur, stop).next[..|cur.next|] == cur.next
    decreases StackSize(cur.prev)
  {
    if cur.prev != [] {
      BackwardStepBehind(cur);
      var s := BackwardStep(cur);
      if !stop(cur.prev[|cur.prev| - 1].note) {
        SeekBackwardKeepsDocument(s, stop);
        var r := SeekBackward(s, stop);
        assert r.next[..|cur.next|] == r.next[..|s.next|][..|cur.next|];
      }
    }
  }

  /**
   * `after` is `before` with atoms pushed on it, none of which but the last
   * satisfies `stop`; the last one does, unless the seek ran out (`ranOut`).
   */
  predicate StopsAfterFirst(before: seq<Chunk>, after: seq<Chunk>, ranOut: bool, stop: Note -> bool) {
    |before| <= |after| && after[..|before|] == before &&
    (forall i :: |before| <= i < |after| - 1 ==> !stop(after[i].note)) &&
    (ranOut || (|after| > |before| && stop(after[|after| - 1].note)))
  }

  /** Pushing one more atom that fails `stop` in front keeps `StopsAfterFirst`. */
  lemma StopsAfterFirstExtend(before: seq<Chunk>, c: Chunk, after: seq<Chunk>, ranOut: bool, stop: Note -> bool)
    requires !stop(c.note) && StopsAfterFirst(before + [c], after, ranOut, stop)
    ensures StopsAfterFirst(before, after, ranOut, stop)
  {
    assert after[..|before|] == after[..|before| + 1][..|before|];
    assert after[|before|] == after[..|before| + 1][|before|];
  }

  lemma ForwardAtom(cur: Cursor)
    requires cur.next != [] && Atomic(cur.next[|cur.next| - 1].note)
    ensures ForwardStep(cur).prev == cur.prev + [cur.next[|cur.next| - 1]]
  {
  }

  lemma ForwardUnfolds(cur: Cursor)
    requires cur.next != [] && !Atomic(cur.next[|cur.next| - 1].note)
    ensures ForwardStep(cur).prev == cur.prev
  {
  }

  lemma BackwardAtom(cur: Cursor)
    requires cur.prev != [] && Atomic(cur.prev[|cur.prev| - 1].note)
    ensures BackwardStep(cur).next == cur.next + [cur.prev[|cur.prev| - 1]]
  {
  }

  lemma BackwardUnfolds(cur: Cursor)
    requires cur.prev != [] && !Atomic(cur.prev[|cur.prev| - 1].note)
    ensures BackwardStep(cur).next == cur.next
  {
  }

  /**
   * When `stop` can only hold of atoms, `seek_forward_until` walks just past
   * the first atom ahead that satisfies it: every atom it moves onto `prev`
   * before that one fails `stop`, and it runs to the end when there is none.
   */
  lemma {:induction false} SeekForwardStopsAtFirst(cur: Cursor, stop: Note -> bool)
    requires forall n :: stop(n) ==> Atomic(n)
    ensures StopsAfterFirst(cur.prev, SeekForward(cur, stop).prev, SeekForward(cur, stop).next == [], stop)
    decreases StackSize(cur.next)
  {
    if cur.next != [] {
      var c := cur.next[|cur.next| - 1];
      if stop(c.note) {
        ForwardAtom(cur);
      } else if Atomic(c.note) {
        ForwardAtom(cur);
        SeekForwardStopsAtFirst(ForwardStep(cur), stop);
        StopsAfterFirstExtend(cur.prev, c, SeekForward(cur, stop).prev, SeekForward(cur, stop).next == [], stop);
      } else {
        ForwardUnfolds(cur);
        SeekForwardStopsAtFirst(ForwardStep(cur), stop);
      }
    }
  }

  /**
   * When `stop` can only hold of atoms, `seek_backward_until` stops right
   * after moving the last atom behind the cursor that satisfies it, which is
   * then on top of `next`; no atom it moved before that one satisfies it.
   */
  lemma {:induction false} SeekBackwardStopsAtFirst(cur: Cursor, stop: Note -> bool)
    requires forall n :: stop(n) ==> Atomic(n)
    ensures StopsAfterFirst(cur.next, SeekBackward(cur, stop).next, SeekBackward(cur, stop).prev == [], stop)
    decreases StackSize(cur.prev)
  {
    if cur.prev != [] {
      var c := cur.prev[|cur.prev| - 1];
      if stop(c.note) {
        BackwardAtom(cur);
      } else if Atomic(c.note) {
        BackwardAtom(cur);
        SeekBackwardStopsAtFirst(BackwardStep(cur), stop);
        StopsAfterFirstExtend(cur.next, c, SeekBackward(cur, stop).next, SeekBackward(cur, stop).prev == [], stop);
      } else {
        BackwardUnfolds(cur);
        SeekBackwardStopsAtFirst(BackwardStep(cur), stop);
      }
    }
  }

  /** Seeking forward with a predicate that never holds moves every atom ahead onto `prev`, in order. */
  lemma {:induction false} SeekForwardToEnd(cur: Cursor, stop: Note -> bool)
    requires forall n :: !stop(n)
    ensures SeekForward(cur, stop) == Cursor(cur.prev + Ahead(cur.next), [])
    decreases StackSize(cur.next)
  {
    if cur.next != [] {
      ForwardStepAhead(cur);
      SeekForwardToEnd(ForwardStep(cur), stop);
    }
  }

  /** Seeking backward with a predicate that never holds runs to the start of the document. */
  lemma {:induction false} SeekBackwardEmpties(cur: Cursor, stop: Note -> bool)
    requires forall n :: !stop(n)
    ensures SeekBackward(cur, stop).prev == []
    decreases StackSize(cur.prev)
  {
    if cur.prev != [] {
      SeekBackwardEmpties(BackwardStep(cur), stop);
    }
  }

  /** Seeking backward with a predicate that never holds moves everything behind onto `next`. */
  lemma SeekBackwardToStart(cur: Cursor, stop: Note -> bool)
    requires forall n :: !stop(n)
    ensures SeekBackward(cur, stop).prev == []
    ensures Ahead(SeekBackward(cur, stop).next) == Behind(cur.prev) + Ahead(cur.next)
  {
    SeekBackwardKeepsDocument(cur, stop);
    SeekBackwardEmpties(cur, stop);
    assert Behind(SeekBackward(cur, stop).prev) == [];
  }

  /** The text a chunk adds to a line: a literal's or a text's, and nothing for any other chunk. */
  function TextOf(n: Note): (r: seq<string>)
    ensures |r| <= 1 && Text.SumLengths(r) == TextLen(n)
  {
    match n
    case Literal(lit) => [lit]
    case Text(text) => [text]
    case _ => []
  }

  /** The width of what a chunk adds to a line. */
  function TextLen(n: Note): nat {
    match n
    case Literal(lit) => |lit|
    case Text(text) => |text|
    case _ => 0
  }

  /**
   * `choose`: the first option when the first line of it and of the suffix
   * fits in what is left of the width and it is valid, or when the second
   * option is not valid.
   */
  function Choose(width: nat, indent: Option<nat>, prefixLen: nat, opt1: Note, opt2: Note, suffix: seq<Chunk>): (r: Note)
    ensures r == opt1 || r == opt2
    ensures !C.IsValid(indent.None?, opt2) ==> r == opt1
    ensures C.IsValid(indent.None?, opt2) && !C.IsValid(indent.None?, opt1) ==> r == opt2
    ensures C.IsValid(indent.None?, opt1) && C.IsValid(indent.None?, opt2) ==>
      (r == opt1 <== FirstFits(width, indent, prefixLen, opt1, suffix)) &&
      (r == opt2 <== !FirstFits(width, indent, prefixLen, opt1, suffix))
  {
    var flat := indent.None?;
    if (FirstFits(width, indent, prefixLen, opt1, suffix) && C.IsValid(flat, opt1)) || !C.IsValid(flat, opt2) then opt1
    else opt2
  }

  /** Whether the first line of `opt1` and of the suffix fits in what the prefix leaves of the width. */
  predicate FirstFits(width: nat, indent: Option<nat>, prefixLen: nat, opt1: Note, suffix: seq<Chunk>) {
    FitsSpec(if width >= prefixLen then width - prefixLen else 0, FitChunks(indent.None?, opt1, suffix))
  }

  /** Whenever either option has a layout, the option `choose` picks has one. */
  lemma ChooseIsValid(width: nat, indent: Option<nat>, prefixLen: nat, opt1: Note, opt2: Note, suffix: seq<Chunk>)
    requires C.IsValid(indent.None?, opt1) || C.IsValid(indent.None?, opt2)
    ensures C.IsValid(indent.None?, Choose(width, indent, prefixLen, opt1, opt2, suffix))
  {
  }

  /** A first option taken because it fits is still taken with more width. */
  lemma ChooseMonotone(w1: nat, w2: nat, indent: Option<nat>, prefixLen: nat, opt1: Note, opt2: Note, suffix: seq<Chunk>)
    requires w1 <= w2 && opt1 != opt2
    requires Choose(w1, indent, prefixLen, opt1, opt2, suffix) == opt1
    ensures Choose(w2, indent, prefixLen, opt1, opt2, suffix) == opt1
  {
    if FirstFits(w1, indent, prefixLen, opt1, suffix) {
      var r1 := if w1 >= prefixLen then w1 - prefixLen else 0;
      var r2 := if w2 >= prefixLen then w2 - prefixLen else 0;
      FitsMonotone(r1, r2, FitChunks(indent.None?, opt1, suffix));
    }
  }

  /** The `(flat, notation)` pairs `choose` measures: the suffix with `opt1` on top. */
  function FitChunks(flat: bool, opt1: Note, suffix: seq<Chunk>): (cs: seq<(bool, Note)>)
    ensures |cs| == |suffix| + 1 && cs[|suffix|] == (flat, opt1)
    ensures forall i :: 0 <= i < |suffix| ==> cs[i] == (suffix[i].indent.None?, suffix[i].note)
  {
    seq(|suffix|, i requires 0 <= i < |suffix| => (suffix[i].indent.None?, suffix[i].note)) + [(flat, opt1)]
  }

  function Weight(chunks: seq<(bool, Note)>): nat {
    if chunks == [] then 0 else Weight(chunks[..|chunks| - 1]) + Size(chunks[|chunks| - 1].1)
  }

  lemma WeightPush(chunks: seq<(bool, Note)>, c: (bool, Note))
    ensures Weight(chunks + [c]) == Weight(chunks) + Size(c.1)
  {
    assert (chunks + [c])[..|chunks|] == chunks;
  }

  /**
   * What `fits` computes: whether the first line of the chunks, from the top
   * of the stack down, fits in `remaining` columns. A newline ends the line
   * (and is allowed only when not flat), a choice is measured by its second
   * option when that is valid.
   */
  function FitsSpec(remaining: nat, chunks: seq<(bool, Note)>): bool
    decreases Weight(chunks)
  {
    if chunks == [] then true
    else
      var flat := chunks[|chunks| - 1].0;
      var rest := chunks[..|chunks| - 1];
      WeightPush(rest, chunks[|chunks| - 1]);
      match chunks[|chunks| - 1].1
      case Empty => FitsSpec(remaining, rest)
      case Literal(lit) => |lit| <= remaining && FitsSpec(remaining - |lit|, rest)
      case Text(text) => |text| <= remaining && FitsSpec(remaining - |text|, rest)
      case Newline => !flat
      case Flat(n) => WeightPush(rest, (true, n)); FitsSpec(remaining, rest + [(true, n)])
      case Indent(_, n) => WeightPush(rest, (flat, n)); FitsSpec(remaining, rest + [(flat, n)])
      case Child(_, n) => WeightPush(rest, (flat, n)); FitsSpec(remaining, rest + [(flat, n)])
      case Concat(a, b) =>
        WeightPush(rest, (flat, b));
        WeightPush(rest + [(flat, b)], (flat, a));
        FitsSpec(remaining, rest + [(flat, b)] + [(flat, a)])
      case Choice(o1, o2) =>
        var o := if C.IsValid(flat, o2) then o2 else o1;
        WeightPush(rest, (flat, o));
        FitsSpec(remaining, rest + [(flat, o)])
  }

  /** More room never makes the chunks stop fitting. */
  lemma {:induction false} FitsMonotone(r1: nat, r2: nat, chunks: seq<(bool, Note)>)
    requires r1 <= r2 && FitsSpec(r1, chunks)
    ensures FitsSpec(r2, chunks)
    decreases Weight(chunks)
  {
    if chunks != [] {
      var flat := chunks[|chunks| - 1].0;
      var rest := chunks[..|chunks| - 1];
      WeightPush(rest, chunks[|chunks| - 1]);
      match chunks[|chunks| - 1].1
      case Empty => FitsMonotone(r1, r2, rest);
      case Literal(lit) => FitsMonotone(r1 - |lit|, r2 - |lit|, rest);
      case Text(text) => FitsMonotone(r1 - |text|, r2 - |text|, rest);
      case Newline =>
      case Flat(n) => WeightPush(rest, (true, n)); FitsMonotone(r1, r2, rest + [(true, n)]);
      case Indent(_, n) => WeightPush(rest, (flat, n)); FitsMonotone(r1, r2, rest + [(flat, n)]);
      case Child(_, n) => WeightPush(rest, (flat, n)); FitsMonotone(r1, r2, rest + [(flat, n)]);
      case Concat(a, b) =>
        WeightPush(rest, (flat, b));
        WeightPush(rest + [(flat, b)], (flat, a));
        FitsMonotone(r1, r2, rest + [(flat, b)] + [(flat, a)]);
      case Choice(o1, o2) =>
        var o := if C.IsValid(flat, o2) then o2 else o1;
        WeightPush(rest, (flat, o));
        FitsMonotone(r1, r2, rest + [(flat, o)]);
    }
  }

  /** `fits`: pops the chunks one at a time, taking each text's width off `remaining`. */
  method Fits(remaining: nat, chunks: seq<(bool, Note)>) returns (b: bool)
    ensures b == FitsSpec(remaining, chunks)
  {
    var room := remaining;
    var stack := chunks;
    while stack != []
      invariant FitsSpec(room, stack) == FitsSpec(remaining, chunks)
      decreases Weight(stack)
    {
      var (flat, note) := stack[|stack| - 1];
      var rest := stack[..|stack| - 1];
      WeightPush(rest, (flat, note));
      assert stack == rest + [(flat, note)];
      stack := rest;
      match note {
        case Empty =>
        case Literal(lit) =>
          if |lit| <= room {
            room := room - |lit|;
          } else {
            return false;
          }
        case Text(text) =>
          if |text| <= room {
            room := room - |text|;
          } else {
            return false;
          }
        case Newline => return !flat;
        case Flat(n) => stack := stack + [(true, n)]; WeightPush(rest, (true, n));
        case Indent(_, n) => stack := stack + [(flat, n)]; WeightPush(rest, (flat, n));
        case Child(_, n) => stack := stack + [(flat, n)]; WeightPush(rest, (flat, n));
        case Concat(a, b) =>
          stack := stack + [(flat, b)];
          stack := stack + [(flat, a)];
          WeightPush(rest, (flat, b));
          WeightPush(rest + [(flat, b)], (flat, a));
        case Choice(o1, o2) =>
          var valid := C.IsValid(flat, o2);
          if valid {
            stack := stack + [(flat, o2)];
            WeightPush(rest, (flat, o2));
          } else {
            stack := stack + [(flat, o1)];
            WeightPush(rest, (flat, o1));
          }
      }
    }
    return true;
  }

  /** What `resolve_next_child_or_choice` leaves: the cursor and the chunk it resolved, if any. */
  datatype Resolution = Resolved(cursor: Cursor, chunk: Option<Chunk>) | ResolvePanic

  /**
   * What a child or a choice is replaced by, `prefixLen` columns into its
   * line with `rest` after it: the child's notation, or the option `choose`
   * picks.
   */
  function ResolveChunk(width: nat, c: Chunk, prefixLen: nat, rest: seq<Chunk>): (d: Chunk)
    requires c.note.Child? || c.note.Choice?
    ensures d.indent == c.indent && Size(d.note) < Size(c.note)
    ensures c.note.Child? ==> d.note == c.note.body
    ensures c.note.Choice? ==> d.note == c.note.opt1 || d.note == c.note.opt2
  {
    if c.note.Child? then C.Chunk(c.indent, c.note.body)
    else C.Chunk(c.indent, Choose(width, c.indent, prefixLen, c.note.opt1, c.note.opt2, rest))
  }

  /**
   * The loop of `resolve_next_child_or_choice`, `prefixLen` columns into the
   * line: texts move behind the cursor, and the first child or choice ahead
   * on this line is resolved in place.
   */
  function ResolveLoop(width: nat, cur: Cursor, prefixLen: nat): (r: Resolution)
    ensures r.Resolved?
    decreases StackSize(cur.next)
  {
    if cur.next == [] then Resolved(cur, None)
    else
      var c := cur.next[|cur.next| - 1];
      var rest := cur.next[..|cur.next| - 1];
      if c.note.Newline? then Resolved(cur, None)
      else if c.note.Child? || c.note.Choice? then
        Resolved(Cursor(cur.prev, rest + [ResolveChunk(width, c, prefixLen, rest)]), Some(c))
      else ResolveLoop(width, ForwardStep(cur), prefixLen + TextLen(c.note))
  }

  /**
   * `resolve_next_child_or_choice`: steps past the newline ahead (a panic if
   * there is none, or if it is flat), then resolves the line's next child or
   * choice.
   */
  function Resolve(width: nat, cur: Cursor): Resolution {
    if cur.next == [] then ResolvePanic
    else
      var nl := cur.next[|cur.next| - 1];
      if !nl.note.Newline? || nl.indent.None? then ResolvePanic
      else ResolveLoop(width, Cursor(cur.prev + [nl], cur.next[..|cur.next| - 1]), nl.indent.value)
  }

  /** What a chunk resolves to: a child's notation, or one of the options. */
  predicate ResolvesTo(c: Chunk, d: Chunk) {
    d.indent == c.indent &&
    ((c.note.Child? && d.note == c.note.body) ||
     (c.note.Choice? && (d.note == c.note.opt1 || d.note == c.note.opt2)))
  }

  /**
   * Going from `before` to `after` resolved at most one chunk: with none,
   * the document is unchanged and the cursor is at the end or before a
   * newline; with one, the document of `before` has that chunk exactly where
   * `after` has what it resolved to, on top of `next`.
   */
  predicate ResolvedOne(before: Cursor, after: Cursor, chunk: Option<Chunk>) {
    match chunk
    case None =>
      Document(after) == Document(before) &&
      (after.next == [] || after.next[|after.next| - 1].note.Newline?)
    case Some(c) =>
      after.next != [] && ResolvesTo(c, after.next[|after.next| - 1]) &&
      Document(before) == Behind(after.prev) + [c] + Ahead(after.next[..|after.next| - 1])
  }

  lemma ResolvedOneFrom(a: Cursor, b: Cursor, after: Cursor, chunk: Option<Chunk>)
    requires Document(a) == Document(b) && ResolvedOne(b, after, chunk)
    ensures ResolvedOne(a, after, chunk)
  {
  }

  /** A resolved chunk sits in the document where the child or choice was. */
  lemma ResolveInPlace(width: nat, cur: Cursor, prefixLen: nat)
    requires cur.next != []
    requires cur.next[|cur.next| - 1].note.Child? || cur.next[|cur.next| - 1].note.Choice?
    ensures ResolvedOne(cur, ResolveLoop(width, cur, prefixLen).cursor, ResolveLoop(width, cur, prefixLen).chunk)
  {
    var c := cur.next[|cur.next| - 1];
    var rest := cur.next[..|cur.next| - 1];
    assert cur.next == rest + [c];
    AheadPush(rest, c);
    PushTop(rest, ResolveChunk(width, c, prefixLen, rest));
    assert Atoms(c) == [c];
  }

  /** The resolve loop resolves at most one chunk, as `ResolvedOne` says. */
  lemma {:induction false} ResolveLoopResolvesOne(width: nat, cur: Cursor, prefixLen: nat)
    ensures ResolvedOne(cur, ResolveLoop(width, cur, prefixLen).cursor, ResolveLoop(width, cur, prefixLen).chunk)
    decreases StackSize(cur.next)
  {
    if cur.next != [] {
      var c := cur.next[|cur.next| - 1];
      if c.note.Child? || c.note.Choice? {
        ResolveInPlace(width, cur, prefixLen);
      } else if !c.note.Newline? {
        var s := ForwardStep(cur);
        ForwardStepAhead(cur);
        ResolveLoopResolvesOne(width, s, prefixLen + TextLen(c.note));
        var r := ResolveLoop(width, s, prefixLen + TextLen(c.note));
        ResolvedOneFrom(cur, s, r.cursor, r.chunk);
      }
    }
  }

  /**
   * `resolve_next_child_or_choice` resolves at most one chunk of the line
   * after the newline ahead, and keeps the rest of the document.
   */
  lemma ResolveResolvesOne(width: nat, cur: Cursor)
    ensures Resolve(width, cur).Resolved? ==>
      ResolvedOne(cur, Resolve(width, cur).cursor, Resolve(width, cur).chunk)
  {
    if cur.next != [] && cur.next[|cur.next| - 1].note.Newline? && cur.next[|cur.next| - 1].indent.Some? {
      var nl := cur.next[|cur.next| - 1];
      var s := Cursor(cur.prev + [nl], cur.next[..|cur.next| - 1]);
      ForwardAtom(cur);
      ForwardStepAhead(cur);
      ResolveLoopResolvesOne(width, s, nl.indent.value);
      var r := ResolveLoop(width, s, nl.indent.value);
      ResolvedOneFrom(cur, s, r.cursor, r.chunk);
    }
  }

  /** The contents of a printed line, without shades or styles. */
  datatype LineContents = LineContents(spaces: nat, contents: seq<string>)

  /** What `print_line` returns: a line, nothing at the end of the document, or a panic. */
  datatype Printed = Printed(line: LineContents) | AtEnd | PrintPanic

  /**
   * The loop of `print_line`, `prefixLen` columns into the line: texts are
   * added to `contents`, choices and children are resolved, and the next
   * newline is left on `next`. Gives the line's contents and what is left.
   */
  function LineLoop(width: nat, next: seq<Chunk>, contents: seq<string>, prefixLen: nat): (r: (seq<string>, seq<Chunk>))
    ensures r.1 == [] || r.1[|r.1| - 1].note.Newline?
    decreases StackSize(next)
  {
    if next == [] then (contents, [])
    else
      var c := next[|next| - 1];
      var rest := next[..|next| - 1];
      StackSizePush(rest, c);
      if c.note.Newline? then (contents, next)
      else if c.note.Literal? || c.note.Text? then
        LineLoop(width, rest, contents + TextOf(c.note), prefixLen + TextLen(c.note))
      else if c.note.Child? || c.note.Choice? then
        var d := ResolveChunk(width, c, prefixLen, rest);
        StackSizePush(rest, d);
        LineLoop(width, rest + [d], contents, prefixLen)
      else
        AheadUnfold(rest, c);
        LineLoop(width, rest + UnfoldAhead(c), contents, prefixLen)
  }

  /** The outcome of `print_line` and what it leaves on `next`. */
  datatype Printing = Printing(out: Printed, next: seq<Chunk>)

  /**
   * `print_line`: nothing at the end of the document; otherwise the line
   * starting at the newline on top of `next` (a panic if that is not a
   * newline, or is a flat one), indented by that newline's indentation.
   */
  function NextLine(width: nat, next: seq<Chunk>): (r: Printing)
    ensures r.out.AtEnd? <==> next == []
    ensures r.out.Printed? ==> r.next == [] || r.next[|r.next| - 1].note.Newline?
  {
    if next == [] then Printing(AtEnd, [])
    else
      var nl := next[|next| - 1];
      if !nl.note.Newline? || nl.indent.None? then Printing(PrintPanic, next)
      else
        var (contents, rest) := LineLoop(width, next[..|next| - 1], [], nl.indent.value);
        Printing(Printed(LineContents(nl.indent.value, contents)), rest)
  }

  /** The texts of the atoms before the first newline, and the atoms from that newline on. */
  function SplitLine(atoms: seq<Chunk>): (r: (seq<string>, seq<Chunk>))
    ensures r.1 == [] || r.1[0].note.Newline?
  {
    if atoms == [] then ([], [])
    else if atoms[0].note.Newline? then ([], atoms)
    else (TextOf(atoms[0].note) + SplitLine(atoms[1..]).0, SplitLine(atoms[1..]).1)
  }

  /** No choice or child is left among the atoms. */
  predicate Settled(atoms: seq<Chunk>) {
    forall i :: 0 <= i < |atoms| ==> !atoms[i].note.Choice? && !atoms[i].note.Child?
  }

  /** Reading a text off a settled stack leaves a settled stack and the rest of the line. */
  lemma SplitText(rest: seq<Chunk>, c: Chunk)
    requires (c.note.Literal? || c.note.Text?) && Settled(Ahead(rest + [c]))
    ensures Settled(Ahead(rest))
    ensures SplitLine(Ahead(rest + [c])) == (TextOf(c.note) + SplitLine(Ahead(rest)).0, SplitLine(Ahead(rest)).1)
  {
    AheadPush(rest, c);
    assert Atoms(c) == [c];
    var all := Ahead(rest + [c]);
    assert all[0] == c && all[1..] == Ahead(rest);
    forall i | 0 <= i < |Ahead(rest)|
      ensures !Ahead(rest)[i].note.Choice? && !Ahead(rest)[i].note.Child?
    {
      assert Ahead(rest)[i] == all[i + 1];
    }
  }

  /** A stack with a child or a choice on top is not settled. */
  lemma UnsettledTop(rest: seq<Chunk>, c: Chunk)
    requires c.note.Child? || c.note.Choice?
    ensures !Settled(Ahead(rest + [c]))
  {
    AheadPush(rest, c);
    assert Atoms(c) == [c];
    assert Ahead(rest + [c])[0] == c;
  }

  /**
   * On a document with nothing left to resolve, the loop of `print_line`
   * prints exactly the texts up to the next newline and leaves the rest.
   */
  lemma {:induction false} LineLoopOfSettled(width: nat, next: seq<Chunk>, contents: seq<string>, prefixLen: nat)
    requires Settled(Ahead(next))
    ensures LineLoop(width, next, contents, prefixLen).0 == contents + SplitLine(Ahead(next)).0
    ensures Ahead(LineLoop(width, next, contents, prefixLen).1) == SplitLine(Ahead(next)).1
    decreases StackSize(next)
  {
    if next != [] {
      var c := next[|next| - 1];
      var rest := next[..|next| - 1];
      assert next == rest + [c];
      StackSizePush(rest, c);
      if c.note.Newline? {
        AheadPush(rest, c);
        assert Atoms(c) == [c];
      } else if c.note.Literal? || c.note.Text? {
        SplitText(rest, c);
        LineLoopOfSettled(width, rest, contents + TextOf(c.note), prefixLen + TextLen(c.note));
        assert contents + TextOf(c.note) + SplitLine(Ahead(rest)).0 == contents + (TextOf(c.note) + SplitLine(Ahead(rest)).0);
      } else if c.note.Child? || c.note.Choice? {
        UnsettledTop(rest, c);
        assert false;
      } else {
        AheadUnfold(rest, c);
        LineLoopOfSettled(width, rest + UnfoldAhead(c), contents, prefixLen);
      }
    }
  }

  /** The loop of `print_line` unfolds `Empty`, `Indent`, `Flat` and `Concat` in place. */
  lemma LineLoopUnfold(width: nat, rest: seq<Chunk>, c: Chunk, contents: seq<string>, prefixLen: nat)
    requires !Atomic(c.note)
    ensures LineLoop(width, rest + [c], contents, prefixLen) == LineLoop(width, rest + UnfoldAhead(c), contents, prefixLen)
    ensures StackSize(rest + UnfoldAhead(c)) < StackSize(rest + [c])
  {
    PushTop(rest, c);
    StackSizePush(rest, c);
    AheadUnfold(rest, c);
  }

  /** `LineContents::to_string`: the spaces, then the contents in order. */
  method ToString(line: LineContents) returns (s: string)
    ensures s == Text.Spaces(line.spaces) + Text.Concat(line.contents)
    ensures |s| == line.spaces + Text.SumLengths(line.contents)
  {
    s := Text.Spaces(line.spaces);
    var i := 0;
    while i < |line.contents|
      invariant 0 <= i <= |line.contents|
      invariant s == Text.Spaces(line.spaces) + Text.Concat(line.contents[..i])
    {
      assert line.contents[..i + 1][..i] == line.contents[..i];
      Text.ConcatAssoc(Text.Spaces(line.spaces), Text.Concat(line.contents[..i]), line.contents[i]);
      s := s + line.contents[i];
      i := i + 1;
    }
    assert line.contents[..i] == line.contents;
  }

  /** The body of the loop of `seek_forward_until`. */
  method StepForward(cur: Cursor) returns (r: Cursor)
    requires cur.next != []
    ensures r == ForwardStep(cur)
  {
    var c := cur.next[|cur.next| - 1];
    var prev, next := cur.prev, cur.next[..|cur.next| - 1];
    match c.note {
      case Empty =>
      case Indent(j, note) => next := next + [C.Chunk(AddIndent(c.indent, j), note)];
      case Flat(note) => next := next + [C.Chunk(None, note)];
      case Concat(left, right) =>
        next := next + [C.Chunk(c.indent, right)];
        next := next + [C.Chunk(c.indent, left)];
      case _ => prev := prev + [c];
    }
    return Cursor(prev, next);
  }

  /** The body of the loop of `seek_backward_until`. */
  method StepBackward(cur: Cursor) returns (r: Cursor)
    requires cur.prev != []
    ensures r == BackwardStep(cur)
  {
    var c := cur.prev[|cur.prev| - 1];
    var prev, next := cur.prev[..|cur.prev| - 1], cur.next;
    match c.note {
      case Empty =>
      case Indent(j, note) => prev := prev + [C.Chunk(AddIndent(c.indent, j), note)];
      case Flat(note) => prev := prev + [C.Chunk(None, note)];
      case Concat(left, right) =>
        prev := prev + [C.Chunk(c.indent, left)];
        prev := prev + [C.Chunk(c.indent, right)];
      case _ => next := next + [c];
    }
    return Cursor(prev, next);
  }

  /** The loop of `resolve_next_child_or_choice`. */
  method ResolveLine(width: nat, cur: Cursor, prefixLen: nat) returns (r: Resolution)
    ensures r == ResolveLoop(width, cur, prefixLen)
  {
    var behind, ahead := cur.prev, cur.next;
    var len: nat := prefixLen;
    while ahead != []
      invariant ResolveLoop(width, Cursor(behind, ahead), len) == ResolveLoop(width, cur, prefixLen)
      decreases StackSize(ahead)
    {
      var c := ahead[|ahead| - 1];
      var rest := ahead[..|ahead| - 1];
      if c.note.Newline? {
        break;
      } else if c.note.Child? || c.note.Choice? {
        return Resolved(Cursor(behind, rest + [ResolveChunk(width, c, len, rest)]), Some(c));
      }
      var stepped := StepForward(Cursor(behind, ahead));
      len := len + TextLen(c.note);
      behind, ahead := stepped.prev, stepped.next;
    }
    return Resolved(Cursor(behind, ahead), None);
  }

  /** One pass of the loop of `print_line`, on any chunk but a newline. */
  method LineStep(width: nat, stack: seq<Chunk>, contents: seq<string>, prefixLen: nat)
    returns (stack': seq<Chunk>, contents': seq<string>, prefixLen': nat)
    requires stack != [] && !stack[|stack| - 1].note.Newline?
    ensures StackSize(stack') < StackSize(stack)
    ensures LineLoop(width, stack', contents', prefixLen') == LineLoop(width, stack, contents, prefixLen)
  {
    var c := stack[|stack| - 1];
    var rest := stack[..|stack| - 1];
    assert stack == rest + [c];
    StackSizePush(rest, c);
    contents', prefixLen' := contents, prefixLen;
    match c.note {
      case Literal(lit) =>
        contents' := contents + [lit];
        prefixLen' := prefixLen + |lit|;
        stack' := rest;
      case Text(text) =>
        contents' := contents + [text];
        prefixLen' := prefixLen + |text|;
        stack' := rest;
      case Choice(opt1, opt2) =>
        var choice := Choose(width, c.indent, prefixLen, opt1, opt2, rest);
        StackSizePush(rest, C.Chunk(c.indent, choice));
        stack' := rest + [C.Chunk(c.indent, choice)];
        assert C.Chunk(c.indent, choice) == ResolveChunk(width, c, prefixLen, rest);
      case Child(_, body) =>
        StackSizePush(rest, C.Chunk(c.indent, body));
        stack' := rest + [C.Chunk(c.indent, body)];
        assert C.Chunk(c.indent, body) == ResolveChunk(width, c, prefixLen, rest);
      case Empty =>
        LineLoopUnfold(width, rest, c, contents, prefixLen);
        stack' := rest;
        assert rest + UnfoldAhead(c) == rest;
      case Indent(j, note) =>
        LineLoopUnfold(width, rest, c, contents, prefixLen);
        stack' := rest + [C.Chunk(AddIndent(c.indent, j), note)];
      case Flat(note) =>
        LineLoopUnfold(width, rest, c, contents, prefixLen);
        stack' := rest + [C.Chunk(None, note)];
      case Concat(left, right) =>
        LineLoopUnfold(width, rest, c, contents, prefixLen);
        stack' := rest + [C.Chunk(c.indent, right), C.Chunk(c.indent, left)];
    }
  }

  class Printer {
    const width: nat
    var prev: seq<Chunk>
    var next: seq<Chunk>

    /** `Printer::new`: a newline at indentation 0 behind the cursor, the whole document ahead. */
    constructor(width: nat, root: Note)
      ensures this.width == width
      ensures prev == [C.Chunk(Some(0), C.Newline)] && next == [C.Chunk(Some(0), root)]
    {
      this.width := width;
      prev := [C.Chunk(Some(0), C.Newline)];
      next := [C.Chunk(Some(0), root)];
    }

    /** `seek_forward_until`. */
    method SeekForwardUntil(stop: Note -> bool)
      modifies this
      ensures Cursor(prev, next) == SeekForward(old(Cursor(prev, next)), stop)
    {
      var cur := Cursor(prev, next);
      while cur.next != []
        invariant SeekForward(cur, stop) == SeekForward(old(Cursor(prev, next)), stop)
        decreases StackSize(cur.next)
      {
        var note := cur.next[|cur.next| - 1].note;
        cur := StepForward(cur);
        if stop(note) {
          break;
        }
      }
      prev, next := cur.prev, cur.next;
    }

    /** `seek_backward_until`. */
    method SeekBackwardUntil(stop: Note -> bool)
      modifies this
      ensures Cursor(prev, next) == SeekBackward(old(Cursor(prev, next)), stop)
    {
      var cur := Cursor(prev, next);
      while cur.prev != []
        invariant SeekBackward(cur, stop) == SeekBackward(old(Cursor(prev, next)), stop)
        decreases StackSize(cur.prev)
      {
        var note := cur.prev[|cur.prev| - 1].note;
        cur := StepBackward(cur);
        if stop(note) {
          break;
        }
      }
      prev, next := cur.prev, cur.next;
    }

    /** `resolve_next_child_or_choice`, with `panicked` standing for its `unwrap`s and `assert`. */
    method ResolveNextChildOrChoice() returns (panicked: bool, chunk: Option<Chunk>)
      modifies this
      ensures panicked <==> Resolve(width, old(Cursor(prev, next))).ResolvePanic?
      ensures !panicked ==> Resolve(width, old(Cursor(prev, next))) == Resolved(Cursor(prev, next), chunk)
    {
      if next == [] {
        return true, None;
      }
      var nl := next[|next| - 1];
      if !nl.note.Newline? || nl.indent.None? {
        return true, None;
      }
      var r := ResolveLine(width, Cursor(prev + [nl], next[..|next| - 1]), nl.indent.value);
      prev, next := r.cursor.prev, r.cursor.next;
      return false, r.chunk;
    }

    /** `print_line`, with `PrintPanic` standing for its `assert` and `unwrap`. */
    method PrintLine() returns (r: Printed)
      modifies this
      ensures Printing(r, next) == NextLine(width, old(next))
      ensures prev == old(prev)
    {
      if next == [] {
        return AtEnd;
      }
      var nl := next[|next| - 1];
      if !nl.note.Newline? || nl.indent.None? {
        return PrintPanic;
      }
      var spaces := nl.indent.value;
      var stack := next[..|next| - 1];
      var contents: seq<string> := [];
      var prefixLen: nat := spaces;
      ghost var goal := LineLoop(width, stack, contents, prefixLen);
      while stack != [] && !stack[|stack| - 1].note.Newline?
        invariant LineLoop(width, stack, contents, prefixLen) == goal
        invariant prev == old(prev)
        decreases StackSize(stack)
      {
        stack, contents, prefixLen := LineStep(width, stack, contents, prefixLen);
      }
      next := stack;
      return Printed(LineContents(spaces, contents));
    }
  }
}
