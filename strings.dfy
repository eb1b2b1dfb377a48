/**
 * `System.String` operations on response text. The client itself uses `IndexOf`,
 * `Remove` and `Replace`; `Split` and `Join` serve only the corrected parse of the
 * permutation response.
 */
module Strings {

  /** `s.IndexOf(c)`: the index of the first `c` in `s`, or -1 when there is none. */
  function IndexOf(s: string, c: char): (i: int)
    ensures -1 <= i < |s|
    ensures i == -1 <==> c !in s
    ensures 0 <= i ==> s[i] == c && c !in s[..i]
  {
    if s == [] then -1
    else if s[0] == c then 0
    else
      var j := IndexOf(s[1..], c);
      if j < 0 then -1 else j + 1
  }

  /** The first `c` of `a + b` is the first character of `b` when `a` has none. */
  lemma IndexOfAfter(a: string, b: string, c: char)
    requires c !in a && |b| > 0 && b[0] == c
    ensures IndexOf(a + b, c) == |a|
  {
    assert (a + b)[|a|] == c;
    assert forall j :: 0 <= j < |a| ==> (a + b)[j] == a[j];
  }

  /** `sub` occurs in `s` at index `i`. */
  predicate OccursAt(s: string, sub: string, i: nat) {
    i + |sub| <= |s| && s[i..i + |sub|] == sub
  }

  /** `sub` occurs somewhere in `s`. */
  predicate Occurs(s: string, sub: string) {
    exists i: nat | i <= |s| :: OccursAt(s, sub, i)
  }

  /**
   * `s.Replace(pattern, "")`: scans `s` left to right and drops every occurrence of
   * `pattern` that does not overlap an earlier dropped one; the result is not rescanned.
   */
  function RemoveAll(s: string, pattern: string): (r: string)
    requires |pattern| > 0
    ensures |r| <= |s|
    decreases |s|
  {
    if s == [] then []
    else if pattern <= s then RemoveAll(s[|pattern|..], pattern)
    else [s[0]] + RemoveAll(s[1..], pattern)
  }

  /** Removal brings in no character the text did not have. */
  lemma {:induction false} RemoveAllAddsNothing(s: string, pattern: string, c: char)
    requires |pattern| > 0 && c !in s
    ensures c !in RemoveAll(s, pattern)
    decreases |s|
  {
    if s != [] {
      if pattern <= s {
        RemoveAllAddsNothing(s[|pattern|..], pattern, c);
      } else {
        RemoveAllAddsNothing(s[1..], pattern, c);
      }
    }
  }

  /** Removing a one-character pattern leaves no copy of that character. */
  lemma {:induction false} RemoveAllChar(s: string, c: char)
    ensures c !in RemoveAll(s, [c])
    decreases |s|
  {
    if s != [] {
      if [c] <= s {
        RemoveAllChar(s[|[c]|..], c);
      } else {
        RemoveAllChar(s[1..], c);
      }
    }
  }

  /** Text in which the pattern never occurs is left as it is. */
  lemma {:induction false} RemoveAllAbsent(s: string, pattern: string)
    requires |pattern| > 0 && !Occurs(s, pattern)
    ensures RemoveAll(s, pattern) == s
    decreases |s|
  {
    if s != [] {
      assert !OccursAt(s, pattern, 0);
      forall i: nat ensures !OccursAt(s[1..], pattern, i) {
        assert !OccursAt(s, pattern, i + 1);
        if i + |pattern| <= |s[1..]| {
          assert s[1..][i..i + |pattern|] == s[i + 1..i + 1 + |pattern|];
        }
      }
      RemoveAllAbsent(s[1..], pattern);
    }
  }

  /**
   * A pattern met right after a stretch `t` that cannot start it is dropped,
   * and `t` itself is kept.
   */
  lemma {:induction false} RemoveAllAfter(t: string, pattern: string, u: string)
    requires |pattern| > 0 && pattern[0] !in t
    ensures RemoveAll(t + pattern + u, pattern) == t + RemoveAll(u, pattern)
    decreases |t|
  {
    var s := t + pattern + u;
    if t == [] {
      assert s == pattern + u && pattern <= s && s[|pattern|..] == u;
    } else {
      assert !(pattern <= s) by {
        assert s[0] == t[0] != pattern[0];
      }
      assert s[1..] == t[1..] + pattern + u;
      RemoveAllAfter(t[1..], pattern, u);
      assert RemoveAll(s, pattern) == [t[0]] + (t[1..] + RemoveAll(u, pattern));
      assert [t[0]] + t[1..] == t;
    }
  }


  /** A copy of the pattern in front of a text that lacks one of its characters is all that is removed. */
  lemma RemoveAllLeading(pattern: string, rest: string, c: char)
    requires c in pattern && c !in rest
    ensures RemoveAll(pattern + rest, pattern) == rest
  {
    assert pattern + rest == [] + pattern + rest;
    RemoveAllAfter([], pattern, rest);
    NoOccurrenceWithout(rest, pattern, c);
    RemoveAllAbsent(rest, pattern);
  }

  /** A text that lacks a character of the pattern loses only the copy of the pattern appended to it. */
  lemma {:induction false} RemoveAllTrailing(s: string, pattern: string, c: char)
    requires c in pattern && c !in s
    ensures RemoveAll(s + pattern, pattern) == s
    decreases |s|
  {
    var text := s + pattern;
    if s == [] {
      assert text == pattern && text[|pattern|..] == [];
    } else {
      var k := IndexOf(pattern, c);
      assert text[k] != c || !(pattern <= text);
      assert text[1..] == s[1..] + pattern;
      RemoveAllTrailing(s[1..], pattern, c);
      assert [s[0]] + s[1..] == s;
    }
  }

  /** A first character that cannot start the pattern is kept. */
  lemma RemoveAllKeepsFirst(c: char, s: string, pattern: string)
    requires |pattern| > 0 && pattern[0] != c
    ensures RemoveAll([c] + s, pattern) == [c] + RemoveAll(s, pattern)
  {
    assert ([c] + s)[1..] == s;
  }

  /** A text without the character `c` contains no string that holds `c`. */
  lemma NoOccurrenceWithout(s: string, sub: string, c: char)
    requires c in sub && c !in s
    ensures !Occurs(s, sub)
  {
    var k :| 0 <= k < |sub| && sub[k] == c;
    forall i: nat ensures !OccursAt(s, sub, i) {
      if i + |sub| <= |s| { assert s[i..i + |sub|][k] == s[i + k] != c; }
    }
  }

  /** `s.Split(separator)`: the pieces between separators, in order; a text without one is one piece. */
  function Split(s: string, separator: char): (parts: seq<string>)
    ensures |parts| > 0
    decreases |s|
  {
    var i := IndexOf(s, separator);
    if i < 0 then [s] else [s[..i]] + Split(s[i + 1..], separator)
  }

  /** `string.Join(separator, parts)`. */
  function Join(parts: seq<string>, separator: char): (s: string)
    requires |parts| > 0
    ensures parts[0] <= s
    ensures |parts| > 1 ==> separator in s
  {
    if |parts| == 1 then parts[0] else parts[0] + [separator] + Join(parts[1..], separator)
  }

  /** A piece without the separator, the separator, then more text: the piece is split off first. */
  lemma SplitAfterPiece(first: string, separator: char, rest: string)
    requires separator !in first
    ensures Split(first + [separator] + rest, separator) == [first] + Split(rest, separator)
  {
    var s := first + [separator] + rest;
    assert IndexOf(s, separator) == |first| by {
      IndexOfAfter(first, [separator] + rest, separator);
      assert s == first + ([separator] + rest);
    }
    assert s[..|first|] == first && s[|first| + 1..] == rest;
  }

  /** Splitting joined pieces that hold no separator gives the pieces back. */
  lemma {:induction false} SplitJoin(parts: seq<string>, separator: char)
    requires |parts| > 0 && forall k :: 0 <= k < |parts| ==> separator !in parts[k]
    ensures Split(Join(parts, separator), separator) == parts
    decreases |parts|
  {
    if |parts| > 1 {
      var rest := parts[1..];
      SplitJoin(rest, separator);
      SplitAfterPiece(parts[0], separator, Join(rest, separator));
      assert [parts[0]] + rest == parts;
    } else {
      assert Split(parts[0], separator) == [parts[0]];
    }
  }


  /** A character that is not the separator and is in no piece is not in the joined text. */
  lemma {:induction false} JoinWithout(parts: seq<string>, separator: char, c: char)
    requires |parts| > 0 && c != separator && forall k :: 0 <= k < |parts| ==> c !in parts[k]
    ensures c !in Join(parts, separator)
    decreases |parts|
  {
    if |parts| > 1 {
      JoinWithout(parts[1..], separator, c);
    }
  }


  /** Joining two lists of pieces is joining each and putting a separator between. */
  lemma {:induction false} JoinAppend(a: seq<string>, b: seq<string>, separator: char)
    requires |a| > 0 && |b| > 0
    ensures Join(a + b, separator) == Join(a, separator) + [separator] + Join(b, separator)
    decreases |a|
  {
    var ab := a + b;
    assert ab[0] == a[0];
    if |a| == 1 {
      assert ab[1..] == b;
    } else {
      assert ab[1..] == a[1..] + b;
      JoinAppend(a[1..], b, separator);
    }
  }


  /** Joining the pieces of a split gives the text back. */
  lemma {:induction false} JoinSplit(s: string, separator: char)
    ensures Join(Split(s, separator), separator) == s
    decreases |s|
  {
    var i := IndexOf(s, separator);
    if 0 <= i {
      var head, rest := s[..i], s[i + 1..];
      JoinSplit(rest, separator);
      SplitAt(s, separator, i);
      assert s == head + [separator] + rest;
    }
  }

  /** A split at the first separator is the piece before it followed by the split of the rest. */
  lemma SplitAt(s: string, separator: char, i: int)
    requires i == IndexOf(s, separator) && 0 <= i
    ensures Join(Split(s, separator), separator)
            == s[..i] + [separator] + Join(Split(s[i + 1..], separator), separator)
  {
    var tailParts := Split(s[i + 1..], separator);
    var parts := Split(s, separator);
    assert parts == [s[..i]] + tailParts;
    calc {
      Join(parts, separator);
    ==
      Join([s[..i]] + tailParts, separator);
    == { JoinCons(s[..i], tailParts, separator); }
      s[..i] + [separator] + Join(tailParts, separator);
    }
  }

  /** Joining a piece in front of further pieces. */
  lemma JoinCons(head: string, tail: seq<string>, separator: char)
    requires |tail| > 0
    ensures Join([head] + tail, separator) == head + [separator] + Join(tail, separator)
  {
    var parts := [head] + tail;
    assert parts[0] == head && parts[1..] == tail;
  }


}
