/** Character-level helpers on strings. */
module Strings {
  import opened Wrappers

  /** The position of the first `c` in `s`, if any. */
  function IndexOf(s: string, c: char): (r: Option<nat>)
    ensures r.Some? ==> r.value < |s| && s[r.value] == c && c !in s[..r.value]
    ensures r.None? ==> c !in s
  {
    if |s| == 0 then None
    else if s[0] == c then Some(0)
    else match IndexOf(s[1..], c)
      case None => None
      case Some(k) => assert s[..k + 1] == [s[0]] + s[1..][..k]; Some(k + 1)
  }

  /** In a + [c] + b with no c in a, the first c is the one right after a. */
  lemma IndexOfAfter(a: string, c: char, b: string)
    requires c !in a
    ensures IndexOf(a + [c] + b, c) == Some(|a|)
    decreases |a|
  {
    if |a| > 0 {
      assert (a + [c] + b)[1..] == a[1..] + [c] + b;
      IndexOfAfter(a[1..], c, b);
    }
  }

  /** Python's s.rstrip(c): `s` without all its trailing `c` characters. */
  function RStrip(s: string, c: char): (r: string)
    ensures r <= s
    ensures r == [] || r[|r| - 1] != c
    ensures forall i :: |r| <= i < |s| ==> s[i] == c
    decreases |s|
  {
    if |s| > 0 && s[|s| - 1] == c then RStrip(s[..|s| - 1], c) else s
  }

  /** The parts joined back together with `sep` between them. */
  function Join(parts: seq<string>, sep: char): string
    requires |parts| >= 1
    decreases |parts|
  {
    if |parts| == 1 then parts[0] else parts[0] + [sep] + Join(parts[1..], sep)
  }

  /** Python's s.split(sep) for a one-character separator: the pieces between the
      separators, always at least one. */
  function Split(s: string, sep: char): (parts: seq<string>)
    ensures |parts| >= 1
    decreases |s|
  {
    match IndexOf(s, sep)
    case None => [s]
    case Some(k) => [s[..k]] + Split(s[k + 1..], sep)
  }

  /** No piece holds a separator. */
  ghost predicate SeparatorFree(parts: seq<string>, sep: char)
  {
    forall i :: 0 <= i < |parts| ==> sep !in parts[i]
  }

  /** A piece in front is separator-free with the rest exactly when both are. */
  lemma SeparatorFreeCons(p: string, rest: seq<string>, sep: char)
    ensures SeparatorFree([p] + rest, sep) <==> sep !in p && SeparatorFree(rest, sep)
  {
    var parts := [p] + rest;
    assert parts[0] == p;
    assert forall i :: 0 <= i < |rest| ==> parts[i + 1] == rest[i];
  }

  /** Joining a part in front of at least one more. */
  lemma JoinCons(p: string, rest: seq<string>, sep: char)
    requires |rest| >= 1
    ensures Join([p] + rest, sep) == p + [sep] + Join(rest, sep)
  {
    assert ([p] + rest)[1..] == rest;
  }

  /** No piece of a split holds the separator. */
  lemma {:induction false} SplitSeparatorFree(s: string, sep: char)
    ensures SeparatorFree(Split(s, sep), sep)
    decreases |s|
  {
    match IndexOf(s, sep)
    case None =>
      assert Split(s, sep) == [s];
    case Some(k) =>
      var p, rest := s[..k], Split(s[k + 1..], sep);
      assert Split(s, sep) == [p] + rest;
      SplitSeparatorFree(s[k + 1..], sep);
      SeparatorFreeCons(p, rest, sep);
  }

  /** Joining the pieces of a split gives back the string. */
  lemma {:induction false} SplitJoinBack(s: string, sep: char)
    ensures Join(Split(s, sep), sep) == s
    decreases |s|
  {
    match IndexOf(s, sep)
    case None =>
      assert Split(s, sep) == [s];
    case Some(k) =>
      var p, rest := s[..k], Split(s[k + 1..], sep);
      assert Split(s, sep) == [p] + rest;
      SplitJoinBack(s[k + 1..], sep);
      JoinCons(p, rest, sep);
      assert s == p + [sep] + s[k + 1..];
  }

  /** A split has more than one piece exactly when the string holds the separator. */
  lemma SplitCount(s: string, sep: char)
    ensures |Split(s, sep)| == 1 <==> sep !in s
  {
    match IndexOf(s, sep)
    case None =>
      assert Split(s, sep) == [s];
    case Some(k) =>
      assert Split(s, sep) == [s[..k]] + Split(s[k + 1..], sep);
  }

  /** Splitting undoes joining pieces that hold no separator. */
  lemma {:induction false} SplitJoin(parts: seq<string>, sep: char)
    requires |parts| >= 1
    requires SeparatorFree(parts, sep)
    ensures Split(Join(parts, sep), sep) == parts
    decreases |parts|
  {
    if |parts| == 1 {
      assert IndexOf(parts[0], sep) == None;
    } else {
      var p, rest := parts[0], parts[1..];
      assert parts == [p] + rest;
      SeparatorFreeCons(p, rest, sep);
      JoinCons(p, rest, sep);
      var s, k := Join(parts, sep), |p|;
      IndexOfAfter(p, sep, Join(rest, sep));
      assert s[..k] == p && s[k + 1..] == Join(rest, sep) by {
        assert s == p + [sep] + Join(rest, sep);
      }
      SplitJoin(rest, sep);
    }
  }
}
