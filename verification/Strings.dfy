/** The Ruby string operations the helpers rely on: `Array#join`,
    `String#split` with a one-character separator, and ActiveSupport's
    `blank?`. */
module Strings {

  /** `parts.join(sep)`: the parts in order, `sep` between neighbours. */
  function Join(parts: seq<string>, sep: string): string
  {
    if |parts| == 0 then ""
    else if |parts| == 1 then parts[0]
    else parts[0] + sep + Join(parts[1..], sep)
  }

  /** Sum of the lengths of `parts`. */
  function TotalLength(parts: seq<string>): nat
  {
    if |parts| == 0 then 0 else |parts[0]| + TotalLength(parts[1..])
  }

  /** A join of n parts holds exactly n - 1 separators besides the parts. */
  lemma {:induction false} JoinLength(parts: seq<string>, sep: string)
    requires |parts| > 0
    ensures |Join(parts, sep)| == TotalLength(parts) + (|parts| - 1) * |sep|
  {
    if |parts| > 1 {
      JoinLength(parts[1..], sep);
    }
  }

  /** Joining two non-empty lists is joining each and putting one separator between. */
  lemma {:induction false} JoinAppend(xs: seq<string>, ys: seq<string>, sep: string)
    requires |xs| > 0 && |ys| > 0
    ensures Join(xs + ys, sep) == Join(xs, sep) + sep + Join(ys, sep)
  {
    if |xs| == 1 {
      assert (xs + ys)[1..] == ys;
    } else {
      assert (xs + ys)[1..] == xs[1..] + ys;
      JoinAppend(xs[1..], ys, sep);
    }
  }

  /** The pieces of `s` between occurrences of `d`, empty pieces kept: a
      string with k separators gives k + 1 pieces. */
  function SplitAll(s: string, d: char): (pieces: seq<string>)
    ensures |pieces| > 0
    decreases |s|
  {
    if |s| == 0 then [""]
    else if s[0] == d then [""] + SplitAll(s[1..], d)
    else
      var rest := SplitAll(s[1..], d);
      [[s[0]] + rest[0]] + rest[1..]
  }

  /** Splitting and re-joining with the separator gives the string back. */
  lemma {:induction false} SplitAllJoin(s: string, d: char)
    ensures Join(SplitAll(s, d), [d]) == s
  {
    if |s| > 0 {
      var rest := SplitAll(s[1..], d);
      SplitAllJoin(s[1..], d);
      if s[0] == d {
        assert ([""] + rest)[1..] == rest;
      } else if |rest| > 1 {
        var p := [[s[0]] + rest[0]] + rest[1..];
        assert p[1..] == rest[1..];
        assert s == [s[0]] + s[1..];
      } else {
        assert s == [s[0]] + s[1..];
      }
    }
  }

  /** No piece contains the separator. */
  lemma {:induction false} SplitAllPieces(s: string, d: char)
    ensures forall i :: 0 <= i < |SplitAll(s, d)| ==> d !in SplitAll(s, d)[i]
  {
    if |s| > 0 {
      SplitAllPieces(s[1..], d);
      var rest := SplitAll(s[1..], d);
      if s[0] != d {
        assert d !in rest[0];
        assert d !in [s[0]] + rest[0];
      }
    }
  }

  /** A string without the separator is a single piece. */
  lemma {:induction false} SplitAllNoSeparator(s: string, d: char)
    requires d !in s
    ensures SplitAll(s, d) == [s]
  {
    if |s| > 0 {
      assert d !in s[1..];
      SplitAllNoSeparator(s[1..], d);
      assert s == [s[0]] + s[1..];
    }
  }

  /** The longest prefix of `xs` that does not end in an empty string. */
  function DropTrailingEmpty(xs: seq<string>): (r: seq<string>)
    ensures |r| <= |xs| && r == xs[..|r|]
    ensures |r| > 0 ==> r[|r| - 1] != ""
    ensures forall i :: |r| <= i < |xs| ==> xs[i] == ""
  {
    if |xs| == 0 then []
    else if xs[|xs| - 1] == "" then DropTrailingEmpty(xs[..|xs| - 1])
    else xs
  }

  /** Ruby's `s.split(d)` for a one-character separator: the pieces between
      separators, with trailing empty pieces removed (so `""` gives `[]`). */
  function RubySplit(s: string, d: char): seq<string>
  {
    DropTrailingEmpty(SplitAll(s, d))
  }

  /** A non-empty name without the separator splits into itself alone. */
  lemma RubySplitSingle(s: string, d: char)
    requires s != "" && d !in s
    ensures RubySplit(s, d) == [s]
  {
    SplitAllNoSeparator(s, d);
  }

  /** The characters matched by the POSIX class `[[:space:]]` in Ruby's
      Unicode-aware regular expressions. */
  predicate IsSpace(c: char)
  {
    || c == ' ' || c == '\t' || c == '\n' || c == '\U{000B}' || c == '\U{000C}' || c == '\r'
    || c == '\U{0085}' || c == '\U{00A0}' || c == '\U{1680}'
    || ('\U{2000}' <= c <= '\U{200A}')
    || c == '\U{2028}' || c == '\U{2029}' || c == '\U{202F}' || c == '\U{205F}' || c == '\U{3000}'
  }

  /** ActiveSupport's `String#blank?`, read character by character: the
      empty string is blank, and so is any string of whitespace only. */
  function IsBlank(s: string): (b: bool)
    ensures s == "" ==> b
    ensures b <==> forall i :: 0 <= i < |s| ==> IsSpace(s[i])
  {
    |s| == 0 || (IsSpace(s[0]) && IsBlank(s[1..]))
  }
}
