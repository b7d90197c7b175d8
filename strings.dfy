/**
 * String operations that the JavaScript client and the Python backend rely on:
 * trimming (with each language's own whitespace set), ASCII lower-casing,
 * substring search, Python/JavaScript `split` with a non-empty separator, and
 * `join`. Strings are sequences of Unicode scalar values.
 */
module Strings {
  import opened Wrappers

  /** Which language's notion of whitespace a trim uses. */
  datatype Whitespace = Js | Py

  /**
   * The characters `String.prototype.trim` removes (WhiteSpace and
   * LineTerminator of ECMAScript), and those Python's `str.strip()` removes
   * (those for which `str.isspace()` holds).
   */
  predicate IsSpace(ws: Whitespace, c: char)
  {
    match ws
    case Js =>
      '\t' <= c <= '\r' || c == ' ' || c == '\U{A0}' || c == '\U{1680}' || '\U{2000}' <= c <= '\U{200A}'
      || c == '\U{2028}' || c == '\U{2029}' || c == '\U{202F}' || c == '\U{205F}' || c == '\U{3000}' || c == '\U{FEFF}'
    case Py =>
      '\t' <= c <= '\r' || '\U{1C}' <= c <= ' ' || c == '\U{85}' || c == '\U{A0}' || c == '\U{1680}' || '\U{2000}' <= c <= '\U{200A}'
      || c == '\U{2028}' || c == '\U{2029}' || c == '\U{202F}' || c == '\U{205F}' || c == '\U{3000}'
  }

  /** Drops the leading characters that are whitespace. */
  function TrimStart(s: string, ws: Whitespace): (r: string)
    ensures |r| <= |s| && r == s[|s| - |r|..]
    ensures r == [] || !IsSpace(ws, r[0])
    ensures forall k :: 0 <= k < |s| - |r| ==> IsSpace(ws, s[k])
    decreases |s|
  {
    if |s| > 0 && IsSpace(ws, s[0]) then TrimStart(s[1..], ws) else s
  }

  /** Drops the trailing characters that are whitespace. */
  function TrimEnd(s: string, ws: Whitespace): (r: string)
    ensures |r| <= |s| && r == s[..|r|]
    ensures r == [] || !IsSpace(ws, r[|r| - 1])
    ensures forall k :: |r| <= k < |s| ==> IsSpace(ws, s[k])
    decreases |s|
  {
    if |s| > 0 && IsSpace(ws, s[|s| - 1]) then TrimEnd(s[..|s| - 1], ws) else s
  }

  /**
   * Removes whitespace at both ends: the result is the infix of `s` that starts
   * and ends with a non-whitespace character, and everything cut off is whitespace.
   */
  function Trim(s: string, ws: Whitespace): (r: string)
    ensures |r| <= |s|
    ensures r == [] || (!IsSpace(ws, r[0]) && !IsSpace(ws, r[|r| - 1]))
  {
    TrimEnd(TrimStart(s, ws), ws)
  }

  /** A string trims to nothing exactly when it is all whitespace. */
  lemma TrimEmptyIff(s: string, ws: Whitespace)
    ensures Trim(s, ws) == [] <==> forall k :: 0 <= k < |s| ==> IsSpace(ws, s[k])
  {
    var a := TrimStart(s, ws);
    assert a != [] ==> a[0] == s[|s| - |a|];
  }

  /** `str.trim()` in JavaScript. */
  function JsTrim(s: string): string { Trim(s, Js) }

  /** `str.strip()` in Python. */
  function PyStrip(s: string): string { Trim(s, Py) }

  /** Trimming a trimmed string changes nothing. */
  lemma TrimIdempotent(s: string, ws: Whitespace)
    ensures Trim(Trim(s, ws), ws) == Trim(s, ws)
  {
    var t := Trim(s, ws);
    assert TrimStart(t, ws) == t;
    assert TrimEnd(t, ws) == t;
  }

  /** ASCII lower-casing of one character; every other character is kept. */
  function LowerChar(c: char): char
  {
    if 'A' <= c <= 'Z' then (c as int + 32) as char else c
  }

  /** ASCII lower-casing, character by character. */
  function Lower(s: string): (r: string)
    ensures |r| == |s| && forall i :: 0 <= i < |s| ==> r[i] == LowerChar(s[i])
  {
    seq(|s|, i requires 0 <= i < |s| => LowerChar(s[i]))
  }

  /** `s.startsWith(p)`. */
  predicate IsPrefix(p: string, s: string)
  {
    |p| <= |s| && s[..|p|] == p
  }

  /** `p` occurs in `s` starting at index `k`. */
  predicate OccursAt(s: string, p: string, k: int)
  {
    0 <= k && k + |p| <= |s| && s[k..k + |p|] == p
  }

  /** `s.includes(p)` in JavaScript, `p in s` in Python. */
  predicate Contains(s: string, p: string)
  {
    exists k :: 0 <= k <= |s| - |p| && OccursAt(s, p, k)
  }

  /** The index of the first occurrence of `p` in `s` (`s.find(p)` in Python, as an Option). */
  function Find(s: string, p: string): (r: Option<nat>)
    ensures r.Some? ==> OccursAt(s, p, r.value)
    ensures r.Some? ==> forall k :: 0 <= k < r.value ==> !OccursAt(s, p, k)
    ensures r.None? <==> !Contains(s, p)
    decreases |s|
  {
    if |s| < |p| then None
    else if s[..|p|] == p then Some(0)
    else
      match Find(s[1..], p)
      case None =>
        forall k | 1 <= k <= |s| - |p|
          ensures !OccursAt(s, p, k)
        {
          OccursShift(s, p, k);
        }
        None
      case Some(i) =>
        forall k | 1 <= k <= i
          ensures !OccursAt(s, p, k)
        {
          OccursShift(s, p, k);
        }
        OccursShift(s, p, i + 1);
        Some(i + 1)
  }

  /** An occurrence after the first character is an occurrence in the rest, one place earlier. */
  lemma OccursShift(s: string, p: string, k: int)
    requires 1 <= k && |s| >= 1
    ensures OccursAt(s, p, k) <==> OccursAt(s[1..], p, k - 1)
  {
    if k + |p| <= |s| {
      assert s[1..][k - 1..k - 1 + |p|] == s[k..k + |p|];
    }
  }

  /** `s.split(sep)` for a non-empty separator (the same in Python and JavaScript). */
  function Split(s: string, sep: string): (r: seq<string>)
    requires |sep| > 0
    ensures |r| >= 1
    ensures Find(s, sep).None? ==> r == [s]
    ensures Find(s, sep).Some? ==> r[0] == s[..Find(s, sep).value] && |r| >= 2
    decreases |s|
  {
    var f := Find(s, sep);
    if f.None? then [s] else [s[..f.value]] + Split(s[f.value + |sep|..], sep)
  }

  /** `sep.join(parts)`. */
  function Join(parts: seq<string>, sep: string): string
  {
    if |parts| == 0 then ""
    else if |parts| == 1 then parts[0]
    else parts[0] + sep + Join(parts[1..], sep)
  }

  /** Joining the pieces of a split with the same separator gives back the string. */
  lemma {:induction false} JoinSplit(s: string, sep: string)
    requires |sep| > 0
    ensures Join(Split(s, sep), sep) == s
    decreases |s|
  {
    match Find(s, sep)
    case None =>
    case Some(i) =>
      var rest := s[i + |sep|..];
      SplitStep(s, sep, i);
      JoinSplit(rest, sep);
      JoinCons(s[..i], Split(rest, sep), sep);
      Reassemble(s, i, i + |sep|);
  }

  /** A string is the concatenation of its pieces before `i`, between `i` and `j`, and from `j`. */
  lemma Reassemble(s: string, i: nat, j: nat)
    requires i <= j <= |s|
    ensures s[..i] + s[i..j] + s[j..] == s
  {
    assert s[..i] + s[i..j] == s[..j];
  }

  /** At the first separator a split takes the piece before it and splits the rest. */
  lemma {:induction false} SplitStep(s: string, sep: string, i: nat)
    requires |sep| > 0 && Find(s, sep) == Some(i)
    ensures i + |sep| <= |s| && s[i..i + |sep|] == sep
    ensures Split(s, sep) == [s[..i]] + Split(s[i + |sep|..], sep)
  {
    assert OccursAt(s, sep, i);
    var rest := Split(s[i + |sep|..], sep);
    assert Split(s, sep) == [s[..i]] + rest;
  }

  /** Joining a first part onto a non-empty list puts the separator between them. */
  lemma JoinCons(a: string, parts: seq<string>, sep: string)
    requires |parts| >= 1
    ensures Join([a] + parts, sep) == a + sep + Join(parts, sep)
  {
    assert ([a] + parts)[1..] == parts;
  }

  /** A one-character separator that occurs in none of the parts splits their join back into them. */
  lemma {:induction false} SplitJoin(parts: seq<string>, sep: string)
    requires |parts| >= 1 && |sep| == 1
    requires forall i :: 0 <= i < |parts| ==> sep[0] !in parts[i]
    ensures Split(Join(parts, sep), sep) == parts
    decreases |parts|
  {
    var a := parts[0];
    if |parts| == 1 {
      NoCharNoFind(a, sep);
    } else {
      var rest := Join(parts[1..], sep);
      var s := a + sep + rest;
      assert OccursAt(s, sep, |a|);
      forall k | 0 <= k < |a|
        ensures !OccursAt(s, sep, k)
      {
        assert s[k] == a[k];
      }
      var f := Find(s, sep);
      assert f == Some(|a|);
      assert s[..|a|] == a;
      assert s[|a| + |sep|..] == rest;
      SplitJoin(parts[1..], sep);
    }
  }

  /** A string without the separator's only character does not contain it. */
  lemma NoCharNoFind(a: string, sep: string)
    requires |sep| == 1 && sep[0] !in a
    ensures Find(a, sep).None?
  {
    forall k | 0 <= k <= |a| - |sep|
      ensures !OccursAt(a, sep, k)
    {
      assert a[k..k + |sep|][0] == a[k];
    }
  }

  /** Python's `s[:n]` for a non-negative `n`. */
  function Take(s: string, n: nat): (r: string)
    ensures |r| == if |s| < n then |s| else n
    ensures IsPrefix(r, s)
  {
    if |s| <= n then s else s[..n]
  }

  /** The decimal digits of `n`, as JavaScript and Python print a non-negative integer. */
  function NatToString(n: nat): (r: string)
    ensures |r| >= 1 && forall i :: 0 <= i < |r| ==> '0' <= r[i] <= '9'
  {
    if n < 10 then ["0123456789"[n]] else NatToString(n / 10) + ["0123456789"[n % 10]]
  }

  /** `a` is `b` with some elements left out and the rest kept in order: what a `filter` returns. */
  predicate IsSubsequence<T(==)>(a: seq<T>, b: seq<T>)
    decreases |b|
  {
    a == [] || (b != [] && ((a[0] == b[0] && IsSubsequence(a[1..], b[1..])) || IsSubsequence(a, b[1..])))
  }

  /** A filtered list never holds an element more often than the list it came from. */
  lemma {:induction false} SubsequenceCounts<T>(a: seq<T>, b: seq<T>)
    requires IsSubsequence(a, b)
    ensures multiset(a) <= multiset(b)
    decreases |b|
  {
    if a != [] {
      if a[0] == b[0] && IsSubsequence(a[1..], b[1..]) {
        SubsequenceCounts(a[1..], b[1..]);
        assert a == [a[0]] + a[1..];
        assert b == [b[0]] + b[1..];
      } else {
        SubsequenceCounts(a, b[1..]);
        assert b == [b[0]] + b[1..];
      }
    }
  }
}
