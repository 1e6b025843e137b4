/**
 * The handful of Python `str` operations the orchestrator relies on:
 * `sep.join(parts)`, `s.split(sep)` with an explicit one-character separator,
 * `s.replace(old, new)` and `str(n)` for a natural number.
 */
module Strings {

  /** `sep.join(parts)` */
  function Join(sep: string, parts: seq<string>): string {
    if parts == [] then ""
    else if |parts| == 1 then parts[0]
    else parts[0] + sep + Join(sep, parts[1..])
  }

  /**
   * `s.split(c)` with an explicit separator: every occurrence of `c` cuts,
   * so empty pieces are kept and the result is never empty.
   */
  function Split(s: string, c: char): (r: seq<string>)
    ensures |r| >= 1
  {
    if s == [] then [""]
    else if s[0] == c then [""] + Split(s[1..], c)
    else
      var rest := Split(s[1..], c);
      [[s[0]] + rest[0]] + rest[1..]
  }

  /** `s.split(c)` yields as many pieces as `c` has occurrences in `s`, plus one */
  function Occurrences(s: string, c: char): nat {
    if s == [] then 0 else (if s[0] == c then 1 else 0) + Occurrences(s[1..], c)
  }

  lemma {:induction false} SplitLength(s: string, c: char)
    ensures |Split(s, c)| == Occurrences(s, c) + 1
  {
    if s != [] {
      SplitLength(s[1..], c);
    }
  }

  /** No piece of a split contains the separator. */
  lemma {:induction false} SplitPiecesFree(s: string, c: char)
    ensures forall i :: 0 <= i < |Split(s, c)| ==> c !in Split(s, c)[i]
  {
    if s != [] {
      SplitPiecesFree(s[1..], c);
    }
  }

  /** Joining the pieces of a split with the same separator gives back the string. */
  lemma {:induction false} JoinSplit(s: string, c: char)
    ensures Join([c], Split(s, c)) == s
  {
    if s != [] {
      var rest := Split(s[1..], c);
      JoinSplit(s[1..], c);
      if s[0] == c {
        JoinEmptyFirst(c, rest);
      } else {
        JoinExtendFirst(s[0], c, rest);
      }
      assert [s[0]] + s[1..] == s;
    }
  }

  /** An empty first piece puts a separator in front. */
  lemma JoinEmptyFirst(c: char, pieces: seq<string>)
    requires |pieces| >= 1
    ensures Join([c], [""] + pieces) == [c] + Join([c], pieces)
  {
    assert ([""] + pieces)[1..] == pieces;
  }

  /** A character put in front of the first piece is put in front of the join. */
  lemma JoinExtendFirst(x: char, c: char, pieces: seq<string>)
    requires |pieces| >= 1
    ensures Join([c], [[x] + pieces[0]] + pieces[1..]) == [x] + Join([c], pieces)
  {
    var head := [[x] + pieces[0]] + pieces[1..];
    if |pieces| == 1 {
      assert head == [[x] + pieces[0]];
    } else {
      var tail := Join([c], pieces[1..]);
      assert head[0] == [x] + pieces[0] && head[1..] == pieces[1..] && |head| > 1;
      assert Join([c], head) == ([x] + pieces[0]) + [c] + tail;
      assert Join([c], pieces) == pieces[0] + [c] + tail;
      PrependAssoc(x, pieces[0], c, tail);
    }
  }

  lemma PrependAssoc(x: char, a: string, c: char, t: string)
    ensures ([x] + a) + [c] + t == [x] + (a + [c] + t)
  {
  }

  lemma SplitPrepend(x: char, s: string, c: char)
    requires x != c
    ensures Split([x] + s, c) == [[x] + Split(s, c)[0]] + Split(s, c)[1..]
  {
    assert ([x] + s)[1..] == s;
  }

  lemma SplitCons(s: string, c: char)
    ensures Split([c] + s, c) == [""] + Split(s, c)
  {
    assert ([c] + s)[1..] == s;
  }

  /** Splitting a piece followed by the separator and more text. */
  lemma {:induction false} SplitAppend(a: string, c: char, b: string)
    requires c !in a
    ensures Split(a + [c] + b, c) == [a] + Split(b, c)
  {
    if a == [] {
      assert a + [c] + b == [c] + b;
      SplitCons(b, c);
    } else {
      SplitAppend(a[1..], c, b);
      assert a + [c] + b == [a[0]] + (a[1..] + [c] + b);
      SplitPrepend(a[0], a[1..] + [c] + b, c);
      assert [a[0]] + a[1..] == a;
    }
  }

  /** A string without the separator splits into itself alone. */
  lemma {:induction false} SplitFree(a: string, c: char)
    requires c !in a
    ensures Split(a, c) == [a]
  {
    if a != [] {
      SplitFree(a[1..], c);
      SplitPrepend(a[0], a[1..], c);
      assert [a[0]] + a[1..] == a;
    }
  }

  /**
   * Splitting what was joined gives back the parts exactly when no part
   * contains the separator.
   */
  lemma {:induction false} SplitJoin(parts: seq<string>, c: char)
    requires |parts| >= 1
    requires forall i :: 0 <= i < |parts| ==> c !in parts[i]
    ensures Split(Join([c], parts), c) == parts
  {
    if |parts| == 1 {
      SplitFree(parts[0], c);
    } else {
      SplitJoin(parts[1..], c);
      SplitAppend(parts[0], c, Join([c], parts[1..]));
      assert [parts[0]] + parts[1..] == parts;
    }
  }

  /** `pat` occurs in `s` at position `i` */
  predicate OccursAt(s: string, pat: string, i: nat) {
    i + |pat| <= |s| && s[i..i + |pat|] == pat
  }

  /** `pat` occurs somewhere in `s` */
  predicate Contains(s: string, pat: string) {
    exists i: nat | i <= |s| :: OccursAt(s, pat, i)
  }

  /** `s.replace(pat, repl)`: every non-overlapping occurrence, scanning left to right. */
  function Replace(s: string, pat: string, repl: string): (r: string)
    requires pat != []
    decreases |s|
  {
    if |s| < |pat| then s
    else if s[..|pat|] == pat then repl + Replace(s[|pat|..], pat, repl)
    else [s[0]] + Replace(s[1..], pat, repl)
  }

  /** Where `pat` does not occur, replacing it changes nothing. */
  lemma {:induction false} ReplaceAbsent(s: string, pat: string, repl: string)
    requires pat != []
    requires !Contains(s, pat)
    ensures Replace(s, pat, repl) == s
  {
    if |s| >= |pat| {
      assert !OccursAt(s, pat, 0);
      assert s[..|pat|] != pat;
      forall i: nat
        ensures !OccursAt(s[1..], pat, i)
      {
        assert !OccursAt(s, pat, i + 1);
      }
      ReplaceAbsent(s[1..], pat, repl);
    }
  }

  /** A string that starts with `pat` and has no further occurrence gets exactly its prefix rewritten. */
  lemma ReplacePrefixOnly(pat: string, rest: string, repl: string)
    requires pat != []
    requires !Contains(rest, pat)
    ensures Replace(pat + rest, pat, repl) == repl + rest
  {
    var s := pat + rest;
    assert s[..|pat|] == pat;
    assert s[|pat|..] == rest;
    ReplaceAbsent(rest, pat, repl);
  }

  function DigitChar(d: nat): char
    requires d < 10
  {
    "0123456789"[d]
  }

  /** `str(n)` for a natural number: its decimal digits, without leading zeros */
  function NatToString(n: nat): (r: string)
    ensures |r| >= 1
    ensures forall i :: 0 <= i < |r| ==> '0' <= r[i] <= '9'
    decreases n
  {
    if n < 10 then [DigitChar(n)] else NatToString(n / 10) + [DigitChar(n % 10)]
  }
}
