/**
 * Stand-ins for the Unicode helpers of the library (`str_width`,
 * `is_char_full_width`). Every character is taken to occupy one column, so
 * the width of a string is its length in characters.
 */
module Text {

  function StrWidth(s: string): (w: nat)
    ensures w == |s|
  {
    |s|
  }

  /** `n` copies of the space character. */
  function Spaces(n: nat): (s: string)
    ensures |s| == n && forall i :: 0 <= i < n ==> s[i] == ' '
  {
    if n == 0 then "" else Spaces(n - 1) + " "
  }

  /** `n` copies of `c`, as `iter::repeat(c).take(n)`. */
  function Repeat(c: char, n: nat): (s: string)
    ensures |s| == n && forall i :: 0 <= i < n ==> s[i] == c
  {
    if n == 0 then "" else Repeat(c, n - 1) + [c]
  }

  /** The concatenation of a sequence of strings, in order. */
  function Concat(ss: seq<string>): (s: string)
    ensures |s| == SumLengths(ss)
  {
    if ss == [] then "" else Concat(ss[..|ss| - 1]) + ss[|ss| - 1]
  }

  function SumLengths(ss: seq<string>): nat {
    if ss == [] then 0 else SumLengths(ss[..|ss| - 1]) + |ss[|ss| - 1]|
  }

  /** The strings of `ss` joined with `sep` between each two of them. */
  function Join(ss: seq<string>, sep: string): (s: string)
    ensures ss == [] ==> s == ""
    ensures |ss| == 1 ==> s == ss[0]
  {
    if ss == [] then ""
    else if |ss| == 1 then ss[0]
    else Join(ss[..|ss| - 1], sep) + sep + ss[|ss| - 1]
  }

  /** Concatenation of strings is associative. */
  lemma ConcatAssoc(a: string, b: string, c: string)
    ensures a + b + c == a + (b + c)
  {
  }

  /** The empty string is a unit of concatenation. */
  lemma EmptyConcat(a: string)
    ensures "" + a == a && a + "" == a
  {
  }

  /** Adding a line adds a newline character and the line. */
  lemma JoinSnoc(ss: seq<string>, s: string)
    requires |ss| >= 1
    ensures Join(ss + [s], "\n") == Join(ss, "\n") + "\n" + s
  {
    assert (ss + [s])[..|ss|] == ss;
  }

  /** Extending the last line extends the joined text. */
  lemma {:induction false} JoinExtendLast(ss: seq<string>, s: string)
    requires |ss| >= 1
    ensures Join(ss[|ss| - 1 := ss[|ss| - 1] + s], "\n") == Join(ss, "\n") + s
  {
    var ss' := ss[|ss| - 1 := ss[|ss| - 1] + s];
    if |ss| > 1 {
      assert ss'[..|ss'| - 1] == ss[..|ss| - 1];
    }
  }
}
