/**
 * The Python string operations the flow-log script relies on:
 * `str.split` with a one-character separator, `str.join`, `str.ljust`,
 * `str.center` and repetition of a character (`'-' * width`).
 */
module Strings {

  /** Number of occurrences of `c` in `s`. */
  function Occurrences(s: string, c: char): nat
  {
    if s == [] then 0 else (if s[0] == c then 1 else 0) + Occurrences(s[1..], c)
  }

  /**
   * `s.split(sep)`: the maximal pieces of `s` between separators, one more
   * piece than there are separators, none of them holding the separator.
   */
  function Split(s: string, sep: char): (fields: seq<string>)
    ensures |fields| == Occurrences(s, sep) + 1
    ensures forall i :: 0 <= i < |fields| ==> sep !in fields[i]
  {
    if s == [] then [""]
    else
      var rest := Split(s[1..], sep);
      if s[0] == sep then [""] + rest
      else [[s[0]] + rest[0]] + rest[1..]
  }

  /** `sep.join(parts)`. */
  function Join(parts: seq<string>, sep: string): string
  {
    if |parts| == 0 then ""
    else if |parts| == 1 then parts[0]
    else parts[0] + sep + Join(parts[1..], sep)
  }

  /** Joining the pieces of a split with the separator gives back the string. */
  lemma {:induction false} JoinSplit(s: string, sep: char)
    ensures Join(Split(s, sep), [sep]) == s
  {
    if s != [] {
      var rest := Split(s[1..], sep);
      JoinSplit(s[1..], sep);
      if s[0] == sep {
        assert ([""] + rest)[1..] == rest;
      } else {
        var fields := [[s[0]] + rest[0]] + rest[1..];
        if |rest| == 1 {
          assert fields == [[s[0]] + rest[0]];
        } else {
          assert fields[1..] == rest[1..];
          assert Join(rest, [sep]) == rest[0] + [sep] + Join(rest[1..], [sep]);
        }
        assert s == [s[0]] + s[1..];
      }
    }
  }

  /** A string without the separator splits into itself alone. */
  lemma {:induction false} SplitWithoutSeparator(a: string, sep: char)
    requires sep !in a
    ensures Split(a, sep) == [a]
  {
    if a != [] {
      SplitWithoutSeparator(a[1..], sep);
      assert a == [a[0]] + a[1..];
    }
  }

  /** Splitting `a + sep + b`, where `a` has no separator, yields `a` first. */
  lemma {:induction false} SplitAfterField(a: string, sep: char, b: string)
    requires sep !in a
    ensures Split(a + [sep] + b, sep) == [a] + Split(b, sep)
  {
    var s := a + [sep] + b;
    if a == [] {
      assert s[1..] == b;
    } else {
      assert s[1..] == a[1..] + [sep] + b;
      SplitAfterField(a[1..], sep, b);
      assert a == [a[0]] + a[1..];
    }
  }

  /** Splitting a join of separator-free pieces gives back the pieces. */
  lemma {:induction false} SplitJoin(fields: seq<string>, sep: char)
    requires |fields| >= 1
    requires forall i :: 0 <= i < |fields| ==> sep !in fields[i]
    ensures Split(Join(fields, [sep]), sep) == fields
  {
    if |fields| == 1 {
      SplitWithoutSeparator(fields[0], sep);
    } else {
      SplitJoin(fields[1..], sep);
      SplitAfterField(fields[0], sep, Join(fields[1..], [sep]));
      assert fields == [fields[0]] + fields[1..];
    }
  }

  /** `c * n`: the character `c` repeated `n` times. */
  function Repeat(c: char, n: nat): (r: string)
    ensures |r| == n
    ensures forall i :: 0 <= i < n ==> r[i] == c
  {
    seq(n, _ => c)
  }

  function Max(a: int, b: int): int
  {
    if a < b then b else a
  }

  /**
   * `s.ljust(width)`: `s` followed by spaces up to `width`; a string already
   * as wide is returned unchanged, so nothing is ever cut off.
   */
  function LJust(s: string, width: nat): (r: string)
    ensures |r| == Max(width, |s|)
    ensures r[..|s|] == s
    ensures forall i :: |s| <= i < |r| ==> r[i] == ' '
  {
    if width <= |s| then s else s + Repeat(' ', width - |s|)
  }

  /**
   * `s.center(width)` as CPython computes it: the margin is split in two,
   * the left half getting the extra space when both the margin and the
   * width are odd. The result is `s` between runs of spaces whose lengths
   * differ by at most one.
   */
  function Center(s: string, width: nat): (r: string)
    ensures |r| == Max(width, |s|)
  {
    if width <= |s| then s
    else
      var margin := width - |s|;
      var left := margin / 2 + (if margin % 2 == 1 && width % 2 == 1 then 1 else 0);
      Repeat(' ', left) + s + Repeat(' ', margin - left)
  }

  /** The centred string sits between runs of spaces whose lengths differ by at most one. */
  lemma CenterPlacement(s: string, width: nat)
    ensures var r := Center(s, width);
            exists left ::
              && 0 <= left <= |r| - |s|
              && r == Repeat(' ', left) + s + Repeat(' ', |r| - |s| - left)
              && -1 <= left - (|r| - |s| - left) <= 1
  {
    if width <= |s| {
      assert Center(s, width) == Repeat(' ', 0) + s + Repeat(' ', 0);
    } else {
      var margin := width - |s|;
      var left := margin / 2 + (if margin % 2 == 1 && width % 2 == 1 then 1 else 0);
      assert Center(s, width) == Repeat(' ', left) + s + Repeat(' ', margin - left);
    }
  }
}
