/** String helpers that mirror the Python built-ins the application uses. */
module Strings {

  predicate IsPrefix(p: string, s: string) {
    |p| <= |s| && s[..|p|] == p
  }

  predicate IsSuffix(t: string, s: string) {
    |t| <= |s| && s[|s| - |t|..] == t
  }

  /** `t` appears in `s` starting at index `k`. */
  predicate OccursAt(t: string, s: string, k: int) {
    0 <= k && k + |t| <= |s| && s[k..k + |t|] == t
  }

  /** Python's `s.endswith(c)` for a one-character suffix. */
  predicate EndsWith(s: string, c: char) {
    |s| > 0 && s[|s| - 1] == c
  }

  /** Python's `sep.join(parts)`. */
  function Join(parts: seq<string>, sep: string): string
    decreases |parts|
  {
    if |parts| == 0 then ""
    else if |parts| == 1 then parts[0]
    else parts[0] + sep + Join(parts[1..], sep)
  }

  /** The concatenation of `sep + p` for every `p` in `parts`, in order. */
  function PrefixEach(sep: string, parts: seq<string>): string
    decreases |parts|
  {
    if parts == [] then "" else sep + parts[0] + PrefixEach(sep, parts[1..])
  }

  /** Joining a head before further parts puts one separator before each further part. */
  lemma {:induction false} JoinCons(head: string, parts: seq<string>, sep: string)
    ensures Join([head] + parts, sep) == head + PrefixEach(sep, parts)
    decreases |parts|
  {
    if parts != [] {
      assert ([head] + parts)[1..] == [parts[0]] + parts[1..];
      JoinCons(parts[0], parts[1..], sep);
    }
  }

  lemma {:induction false} PrefixEachAppend(sep: string, a: seq<string>, b: seq<string>)
    ensures PrefixEach(sep, a + b) == PrefixEach(sep, a) + PrefixEach(sep, b)
    decreases |a|
  {
    if a == [] {
      assert a + b == b;
    } else {
      assert (a + b)[0] == a[0];
      assert (a + b)[1..] == a[1..] + b;
      PrefixEachAppend(sep, a[1..], b);
    }
  }

  /** Part `k` sits, behind its separator, right after the rendering of the parts before it. */
  lemma PrefixEachSplit(sep: string, parts: seq<string>, k: nat)
    requires k < |parts|
    ensures PrefixEach(sep, parts)
         == PrefixEach(sep, parts[..k]) + (sep + parts[k]) + PrefixEach(sep, parts[k + 1..])
  {
    assert parts == parts[..k] + ([parts[k]] + parts[k + 1..]);
    PrefixEachAppend(sep, parts[..k], [parts[k]] + parts[k + 1..]);
    assert ([parts[k]] + parts[k + 1..])[1..] == parts[k + 1..];
  }

  lemma AppendAssoc(a: string, b: string, c: string, d: string)
    ensures a + (b + c + d) == (a + b) + c + d
  {
  }

  /** In a join after a head, part `k` sits behind its separator right after the earlier parts. */
  lemma JoinedPartOccurs(head: string, parts: seq<string>, sep: string, k: nat)
    requires k < |parts|
    ensures OccursAt(sep + parts[k], Join([head] + parts, sep), |head| + |PrefixEach(sep, parts[..k])|)
  {
    var before := PrefixEach(sep, parts[..k]);
    var part := sep + parts[k];
    var after := PrefixEach(sep, parts[k + 1..]);
    JoinCons(head, parts, sep);
    PrefixEachSplit(sep, parts, k);
    assert Join([head] + parts, sep) == head + (before + part + after);
    AppendAssoc(head, before, part, after);
    OccursBetween(head + before, part, after);
  }

  /** The last part, behind its separator, ends the rendering of all parts. */
  lemma PrefixEachLast(sep: string, parts: seq<string>)
    requires parts != []
    ensures IsSuffix(sep + parts[|parts| - 1], PrefixEach(sep, parts))
  {
    var n := |parts| - 1;
    PrefixEachSplit(sep, parts, n);
    assert parts[n + 1..] == [];
    var before := PrefixEach(sep, parts[..n]);
    assert PrefixEach(sep, parts) == before + (sep + parts[n]);
    SuffixOfAppend(sep + parts[n], before, sep + parts[n]);
  }

  lemma SuffixOfAppend(t: string, a: string, b: string)
    requires IsSuffix(t, b)
    ensures IsSuffix(t, a + b)
  {
    assert (a + b)[|a + b| - |t|..] == b[|b| - |t|..];
  }

  /** Moving a piece `b` between two copies of `l` from the left group to the right one. */
  lemma Regroup(p: string, a: string, l: string, b: string, c: string, q: string)
    ensures p + (a + l + b) + l + c + q == p + a + l + (b + l + c) + q
  {
    assert a + l + b == a + (l + b);
    assert b + l + c == (b + l) + c;
    assert p + (a + (l + b)) == p + a + (l + b);
    assert p + a + l + ((b + l) + c) == p + a + l + (b + l) + c;
  }

  lemma OccursBetween(a: string, t: string, b: string)
    ensures OccursAt(t, a + t + b, |a|)
  {
    assert (a + t + b)[|a|..|a| + |t|] == t;
  }

  /** Python's `str.isspace` for one character (the Unicode whitespace table CPython uses). */
  predicate IsSpace(c: char) {
    c in WHITESPACE
  }

  const WHITESPACE: set<char> := {
    '\t', '\n', '\U{B}', '\U{C}', '\r', '\U{1C}', '\U{1D}', '\U{1E}', '\U{1F}', ' ',
    '\U{85}', '\U{A0}', '\U{1680}',
    '\U{2000}', '\U{2001}', '\U{2002}', '\U{2003}', '\U{2004}', '\U{2005}',
    '\U{2006}', '\U{2007}', '\U{2008}', '\U{2009}', '\U{200A}',
    '\U{2028}', '\U{2029}', '\U{202F}', '\U{205F}', '\U{3000}'
  }

  /** `s` with its leading whitespace removed. */
  function TrimStart(s: string): (r: string)
    ensures IsSuffix(r, s)
    ensures forall k :: 0 <= k < |s| - |r| ==> IsSpace(s[k])
    ensures r != [] ==> !IsSpace(r[0])
    decreases |s|
  {
    if s != [] && IsSpace(s[0]) then
      var r := TrimStart(s[1..]);
      assert s[|s| - |r|..] == s[1..][|s| - 1 - |r|..];
      assert forall k :: 1 <= k < |s| ==> s[k] == s[1..][k - 1];
      r
    else
      s
  }

  /** `s` with its trailing whitespace removed. */
  function TrimEnd(s: string): (r: string)
    ensures IsPrefix(r, s)
    ensures forall k :: |r| <= k < |s| ==> IsSpace(s[k])
    ensures r != [] ==> !IsSpace(r[|r| - 1])
    decreases |s|
  {
    if s != [] && IsSpace(s[|s| - 1]) then
      var r := TrimEnd(s[..|s| - 1]);
      assert s[..|r|] == s[..|s| - 1][..|r|];
      assert forall k :: 0 <= k < |s| - 1 ==> s[k] == s[..|s| - 1][k];
      r
    else
      s
  }

  /** Python's `s.strip()`: the slice of `s` left after dropping whitespace at both ends. */
  function Strip(s: string): (r: string)
    ensures OccursAt(r, s, |s| - |TrimStart(s)|)
    ensures forall k :: 0 <= k < |s| - |TrimStart(s)| ==> IsSpace(s[k])
    ensures forall k :: |s| - |TrimStart(s)| + |r| <= k < |s| ==> IsSpace(s[k])
    ensures r != [] ==> !IsSpace(r[0]) && !IsSpace(r[|r| - 1])
  {
    var t := TrimStart(s);
    var r := TrimEnd(t);
    StripSlice(s, t, r);
    assert r != [] ==> r[0] == t[0];
    r
  }

  /** A prefix `r` of a suffix `t` of `s` sits in `s` where `t` starts, followed by the rest of `t`. */
  lemma StripSlice(s: string, t: string, r: string)
    requires IsSuffix(t, s) && IsPrefix(r, t)
    requires forall k :: |r| <= k < |t| ==> IsSpace(t[k])
    ensures OccursAt(r, s, |s| - |t|)
    ensures forall k :: |s| - |t| + |r| <= k < |s| ==> IsSpace(s[k])
  {
    var i := |s| - |t|;
    assert s[i..i + |r|] == r by {
      assert s[i..] == t;
      assert s[i..i + |r|] == s[i..][..|r|];
    }
    forall k | i + |r| <= k < |s|
      ensures IsSpace(s[k])
    {
      assert s[k] == s[i..][k - i] == t[k - i];
    }
  }

  /** Stripping leaves nothing exactly when every character is whitespace. */
  lemma StripEmptyIff(s: string)
    ensures Strip(s) == [] <==> forall k :: 0 <= k < |s| ==> IsSpace(s[k])
  {
    var r := Strip(s);
    var i := |s| - |TrimStart(s)|;
    if r != [] {
      assert s[i] == r[0];
    }
  }

  /** Stripping twice is the same as stripping once. */
  lemma StripIdempotent(s: string)
    ensures Strip(Strip(s)) == Strip(s)
  {
    var r := Strip(s);
    assert TrimStart(r) == r;
    assert TrimEnd(r) == r;
  }
}
