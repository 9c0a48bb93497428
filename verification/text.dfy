/**
  Strings as sequences of characters: the emptiness test of Apache Commons
  `StringUtils.isEmpty`, suffix tests, and splitting on a separator character
  (the inverse of joining), used to read a query string back.
 */
module Text {
  import opened Wrappers

  /** `StringUtils.isEmpty`: a null reference or the empty string. */
  predicate IsEmpty(s: Option<string>) {
    s.None? || s.value == ""
  }

  /** An empty string read as no value at all. */
  function Normalize(s: Option<string>): (r: Option<string>)
    ensures IsEmpty(r) <==> IsEmpty(s)
    ensures !IsEmpty(s) ==> r == s
    ensures r != Some("")
  {
    if IsEmpty(s) then None else s
  }

  /** `String.endsWith` for a single character; false on the empty string. */
  predicate EndsWith(s: string, c: char) {
    |s| > 0 && s[|s| - 1] == c
  }

  /** A non-empty tail decides how a concatenation ends. */
  lemma EndsWithAppend(a: string, b: string, c: char)
    requires |b| > 0
    ensures EndsWith(a + b, c) == EndsWith(b, c)
  {
    assert (a + b)[|a + b| - 1] == b[|b| - 1];
  }

  /** Position of the first occurrence of `c` in `s`. */
  function FirstIndex(s: string, c: char): (i: nat)
    requires c in s
    ensures i < |s| && s[i] == c
    ensures forall j :: 0 <= j < i ==> s[j] != c
  {
    if s[0] == c then 0 else 1 + FirstIndex(s[1..], c)
  }

  /** `parts` joined with the separator `sep` between neighbours. */
  function Join(parts: seq<string>, sep: char): string
    requires |parts| > 0
  {
    if |parts| == 1 then parts[0] else parts[0] + [sep] + Join(parts[1..], sep)
  }

  lemma JoinTwo(a: string, b: string, sep: char)
    ensures Join([a, b], sep) == a + [sep] + b
  {
    assert [a, b][1..] == [b];
  }

  lemma JoinThree(a: string, b: string, c: string, sep: char)
    ensures Join([a, b, c], sep) == a + [sep] + b + [sep] + c
  {
    assert [a, b, c][1..] == [b, c];
    JoinTwo(b, c, sep);
  }

  /** The pieces of `s` between occurrences of `sep`; always at least one piece. */
  function Split(s: string, sep: char): (parts: seq<string>)
    ensures |parts| > 0
    ensures forall k :: 0 <= k < |parts| ==> sep !in parts[k]
    decreases |s|
  {
    if sep in s then
      var i := FirstIndex(s, sep);
      [s[..i]] + Split(s[i + 1..], sep)
    else
      [s]
  }

  /** The part of `s` before its first `sep`, and the part after it. */
  function SplitOnce(s: string, sep: char): (r: (string, string))
    ensures sep in s ==> r.0 + [sep] + r.1 == s && sep !in r.0
    ensures sep !in s ==> r == (s, "")
  {
    if sep in s then
      var i := FirstIndex(s, sep);
      assert s == s[..i] + [sep] + s[i + 1..];
      (s[..i], s[i + 1..])
    else
      (s, "")
  }

  /** In a piece free of `sep`, followed by `sep`, the first `sep` is the one right after the piece. */
  lemma FirstIndexAfter(p: string, rest: string, sep: char)
    requires sep !in p
    ensures sep in p + [sep] + rest
    ensures FirstIndex(p + [sep] + rest, sep) == |p|
  {
    var s := p + [sep] + rest;
    assert s[|p|] == sep;
    var i := FirstIndex(s, sep);
    assert forall j :: 0 <= j < |p| ==> s[j] == p[j];
    assert i == |p|;
  }

  /** Splitting a piece free of `sep`, followed by `sep` and more text, peels that piece off. */
  lemma SplitCons(p: string, rest: string, sep: char)
    requires sep !in p
    ensures Split(p + [sep] + rest, sep) == [p] + Split(rest, sep)
  {
    var s := p + [sep] + rest;
    FirstIndexAfter(p, rest, sep);
    assert s[..|p|] == p;
    assert s[|p| + 1..] == rest;
  }

  /** Cutting `k + sep + v` at its first `sep` gives back `k` and `v` when `k` is free of `sep`. */
  lemma SplitOnceKey(k: string, v: string, sep: char)
    requires sep !in k
    ensures SplitOnce(k + [sep] + v, sep) == (k, v)
  {
    var s := k + [sep] + v;
    FirstIndexAfter(k, v, sep);
    assert s[..|k|] == k;
    assert s[|k| + 1..] == v;
  }

  /** Splitting undoes joining when no piece contains the separator. */
  lemma {:induction false} SplitJoin(parts: seq<string>, sep: char)
    requires |parts| > 0
    requires forall k :: 0 <= k < |parts| ==> sep !in parts[k]
    ensures Split(Join(parts, sep), sep) == parts
    decreases |parts|
  {
    if |parts| == 1 {
      assert Join(parts, sep) == parts[0];
    } else {
      SplitCons(parts[0], Join(parts[1..], sep), sep);
      SplitJoin(parts[1..], sep);
      assert parts == [parts[0]] + parts[1..];
    }
  }
}
