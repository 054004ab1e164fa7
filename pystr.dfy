/** The Python `str` operations the core relies on: `s.strip()`,
    `s.split(sep)`, `sep.join(parts)` and the slice `s[:n]`. A string is
    a sequence of Unicode code points, as in Python. */
module PyStr {
  import opened Basics

  /** `c.isspace()` in Python 3. */
  predicate IsSpace(c: char) {
    c == ' ' || ('\t' <= c <= '\r') || ('\U{1c}' <= c <= '\U{1f}')
    || c == '\U{85}' || c == '\U{a0}' || c == '\U{1680}'
    || ('\U{2000}' <= c <= '\U{200a}') || c == '\U{2028}' || c == '\U{2029}'
    || c == '\U{202f}' || c == '\U{205f}' || c == '\U{3000}'
  }

  predicate AllSpace(s: string) {
    forall i {:trigger IsSpace(s[i])} :: 0 <= i < |s| ==> IsSpace(s[i])
  }

  /** Neither end of `s` is whitespace. */
  predicate Trimmed(s: string) {
    s == [] || (!IsSpace(s[0]) && !IsSpace(s[|s| - 1]))
  }

  /** `s.lstrip()`: the suffix left after dropping leading whitespace. */
  function TrimStart(s: string): (r: string)
    ensures |r| <= |s| && r == s[|s| - |r|..]
    ensures AllSpace(s[..|s| - |r|])
    ensures r == [] || !IsSpace(r[0])
  {
    if s == [] || !IsSpace(s[0]) then s
    else
      var r := TrimStart(s[1..]);
      assert s[..|s| - |r|] == [s[0]] + s[1..][..|s| - 1 - |r|];
      r
  }

  /** `s.rstrip()`: the prefix left after dropping trailing whitespace. */
  function TrimEnd(s: string): (r: string)
    ensures |r| <= |s| && r == s[..|r|]
    ensures AllSpace(s[|r|..])
    ensures r == [] || !IsSpace(r[|r| - 1])
  {
    if s == [] || !IsSpace(s[|s| - 1]) then s
    else
      var r := TrimEnd(s[..|s| - 1]);
      assert s[|r|..] == s[..|s| - 1][|r|..] + [s[|s| - 1]];
      r
  }

  /** `s` is `r`, starting at index `i`, with whitespace only around it. */
  predicate SurroundedAt(s: string, r: string, i: nat) {
    i + |r| <= |s| && s[i..i + |r|] == r && AllSpace(s[..i]) && AllSpace(s[i + |r|..])
  }

  /** `s.strip()`: `s` without its leading and trailing whitespace. */
  function Strip(s: string): (r: string)
    ensures Trimmed(r)
  {
    var a := TrimStart(s);
    var r := TrimEnd(a);
    assert r != [] ==> r[0] == a[0];
    r
  }

  /** What `strip()` keeps is surrounded in `s` by whitespace only. */
  lemma StripSurrounds(s: string)
    ensures SurroundedAt(s, Strip(s), |s| - |TrimStart(s)|)
  {
    var a := TrimStart(s);
    var r := TrimEnd(a);
    assert r == Strip(s);
    SurroundsAt(s, |s| - |a|, a, r);
  }

  lemma SurroundsAt(s: string, i: nat, a: string, r: string)
    requires i <= |s| && a == s[i..] && AllSpace(s[..i])
    requires |r| <= |a| && r == a[..|r|] && AllSpace(a[|r|..])
    ensures SurroundedAt(s, r, i)
  {
    assert s[i..i + |r|] == r;
    assert s[i + |r|..] == a[|r|..];
  }

  /** Stripping is idempotent, and a string with no whitespace at either
      end is its own strip. */
  lemma StripTrimmed(s: string)
    requires Trimmed(s)
    ensures Strip(s) == s
  {
  }

  lemma StripIdempotent(s: string)
    ensures Strip(Strip(s)) == Strip(s)
  {
    StripTrimmed(Strip(s));
  }

  /** Where the first non-space character is, there `lstrip` cuts. */
  lemma {:induction false} TrimStartAt(s: string, i: nat)
    requires i <= |s| && AllSpace(s[..i]) && (i == |s| || !IsSpace(s[i]))
    ensures TrimStart(s) == s[i..]
  {
    if i > 0 {
      assert s[0] == s[..i][0];
      assert s[1..][..i - 1] == s[..i][1..];
      TrimStartAt(s[1..], i - 1);
    }
  }

  /** Where the last non-space character is, there `rstrip` cuts. */
  lemma {:induction false} TrimEndAt(s: string, k: nat)
    requires k <= |s| && AllSpace(s[k..]) && (k == 0 || !IsSpace(s[k - 1]))
    ensures TrimEnd(s) == s[..k]
  {
    if k < |s| {
      assert s[|s| - 1] == s[k..][|s| - 1 - k];
      assert s[..|s| - 1][k..] == s[k..][..|s| - 1 - k];
      TrimEndAt(s[..|s| - 1], k);
    }
  }

  /** The strip is the only trimmed string that `s` surrounds with
      whitespace, wherever it sits. */
  lemma StripUnique(s: string, r: string, i: nat)
    requires Trimmed(r) && SurroundedAt(s, r, i)
    ensures r == Strip(s)
  {
    StripAt(s, r, i);
  }

  lemma AllSpaceConcat(a: string, b: string)
    requires AllSpace(a) && AllSpace(b)
    ensures AllSpace(a + b)
  {
  }

  lemma StripAt(s: string, r: string, i: nat)
    requires Trimmed(r) && i + |r| <= |s| && s[i..i + |r|] == r
    requires AllSpace(s[..i]) && AllSpace(s[i + |r|..])
    ensures r == TrimEnd(TrimStart(s))
  {
    if r == [] {
      StripAtBlank(s, i);
    } else {
      StripAtWord(s, r, i);
    }
  }

  lemma StripAtBlank(s: string, i: nat)
    requires i <= |s| && AllSpace(s[..i]) && AllSpace(s[i..])
    ensures TrimStart(s) == []
  {
    AllSpaceConcat(s[..i], s[i..]);
    assert s[..|s|] == s[..i] + s[i..];
    TrimStartAt(s, |s|);
  }

  lemma StripAtWord(s: string, r: string, i: nat)
    requires r != [] && Trimmed(r) && i + |r| <= |s| && s[i..i + |r|] == r
    requires AllSpace(s[..i]) && AllSpace(s[i + |r|..])
    ensures r == TrimEnd(TrimStart(s))
  {
    var a := s[i..];
    assert s[i] == r[0];
    TrimStartAt(s, i);
    assert a[|r|..] == s[i + |r|..];
    assert a[|r| - 1] == r[|r| - 1];
    TrimEndAt(a, |r|);
    assert a[..|r|] == r;
  }

  /** Whitespace appended to a string disappears under `strip()`. */
  lemma StripAppendSpace(s: string, c: char)
    requires IsSpace(c)
    ensures Strip(s + [c]) == Strip(s)
  {
    var a := TrimStart(s);
    var r := TrimEnd(a);
    assert r == Strip(s);
    AppendKeepsLayout(s, c, a, r);
    StripAt(s + [c], r, |s| - |a|);
  }

  /** Appending whitespace keeps `r` in place and whitespace around it. */
  lemma AppendKeepsLayout(s: string, c: char, a: string, r: string)
    requires IsSpace(c) && Trimmed(r)
    requires |a| <= |s| && a == s[|s| - |a|..] && AllSpace(s[..|s| - |a|])
    requires |r| <= |a| && r == a[..|r|] && AllSpace(a[|r|..])
    ensures SurroundedAt(s + [c], r, |s| - |a|)
  {
    var t, i := s + [c], |s| - |a|;
    assert t[..i] == s[..i];
    assert t[i..i + |r|] == r;
    assert t[i + |r|..] == a[|r|..] + [c];
    AllSpaceConcat(a[|r|..], [c]);
  }

  /** Whitespace prepended to a string disappears under `strip()`. */
  lemma StripPrependSpace(c: char, s: string)
    requires IsSpace(c)
    ensures Strip([c] + s) == Strip(s)
  {
    assert ([c] + s)[1..] == s;
  }

  /** A character absent from `s` is absent from its strip. */
  lemma StripKeepsOut(s: string, c: char)
    requires c !in s
    ensures c !in Strip(s)
  {
    var a := TrimStart(s);
    assert Strip(s) == a[..|TrimEnd(a)|];
  }

  /** `s[:n]`. */
  function Take(s: string, n: nat): (r: string)
    ensures |r| == Min(n, |s|)
    ensures r <= s
  {
    s[..Min(n, |s|)]
  }

  /** How many times `c` occurs in `s` (`s.count(c)`). */
  function Count(s: string, c: char): (n: nat)
    ensures n == 0 <==> c !in s
    ensures n <= |s|
  {
    multiset(s)[c]
  }

  function IndexOf(s: string, c: char): (i: nat)
    requires c in s
    ensures i < |s| && s[i] == c && c !in s[..i]
  {
    if s[0] == c then 0 else 1 + IndexOf(s[1..], c)
  }

  /** `s.split(sep)` for a one-character separator. */
  function Split(s: string, sep: char): (parts: seq<string>)
    ensures |parts| >= 1
    ensures forall k :: 0 <= k < |parts| ==> sep !in parts[k]
    decreases |s|
  {
    if sep !in s then [s]
    else
      var i := IndexOf(s, sep);
      [s[..i]] + Split(s[i + 1..], sep)
  }

  /** `sep.join(parts)` for a one-character separator: empty only when
      there is nothing to join, and two or more pieces are always separated. */
  function Join(parts: seq<string>, sep: char): (r: string)
    ensures r == [] <==> parts == [] || (|parts| == 1 && parts[0] == [])
    ensures |parts| == 1 ==> r == parts[0]
    ensures |parts| >= 2 ==> sep in r
  {
    if |parts| == 0 then ""
    else if |parts| == 1 then parts[0]
    else parts[0] + [sep] + Join(parts[1..], sep)
  }

  /** A join starts with its first piece. */
  lemma JoinHead(parts: seq<string>, sep: char)
    requires parts != []
    ensures |Join(parts, sep)| >= |parts[0]| && Join(parts, sep)[..|parts[0]|] == parts[0]
  {
    if |parts| > 1 {
      assert Join(parts, sep) == parts[0] + ([sep] + Join(parts[1..], sep));
    }
  }

  /** Joining the pieces of a split gives the original string back. */
  lemma {:induction false} JoinSplit(s: string, sep: char)
    ensures Join(Split(s, sep), sep) == s
    decreases |s|
  {
    if sep in s {
      var i := IndexOf(s, sep);
      var rest := Split(s[i + 1..], sep);
      JoinSplit(s[i + 1..], sep);
      var parts := Split(s, sep);
      assert parts == [s[..i]] + rest && parts[1..] == rest;
      assert Join(parts, sep) == s[..i] + [sep] + Join(rest, sep);
      assert s == s[..i] + [sep] + s[i + 1..];
    }
  }

  /** Splitting a join of separator-free pieces gives the pieces back. */
  lemma {:induction false} SplitJoin(parts: seq<string>, sep: char)
    requires |parts| >= 1
    requires forall k :: 0 <= k < |parts| ==> sep !in parts[k]
    ensures Split(Join(parts, sep), sep) == parts
  {
    if |parts| > 1 {
      var s := Join(parts, sep);
      var tail := Join(parts[1..], sep);
      assert s == parts[0] + [sep] + tail;
      assert s[|parts[0]|] == sep;
      assert s[..|parts[0]|] == parts[0];
      assert IndexOf(s, sep) == |parts[0]|;
      assert s[|parts[0]| + 1..] == tail;
      SplitJoin(parts[1..], sep);
    }
  }

  /** A split yields one more piece than there are separators. */
  lemma {:induction false} SplitCount(s: string, sep: char)
    ensures |Split(s, sep)| == Count(s, sep) + 1
    decreases |s|
  {
    if sep in s {
      var i := IndexOf(s, sep);
      SplitCount(s[i + 1..], sep);
      assert s == s[..i] + [sep] + s[i + 1..];
      assert multiset(s) == multiset(s[..i]) + multiset{sep} + multiset(s[i + 1..]);
    } else {
      assert sep !in multiset(s);
    }
  }

  /** A join of `n` separator-free pieces contains exactly `n - 1` separators. */
  lemma {:induction false} JoinLength(parts: seq<string>, sep: char)
    requires forall k :: 0 <= k < |parts| ==> sep !in parts[k]
    ensures |parts| >= 1 ==> Count(Join(parts, sep), sep) == |parts| - 1
  {
    if |parts| >= 1 {
      SplitJoin(parts, sep);
      SplitCount(Join(parts, sep), sep);
    }
  }

  /** Appending a piece to a join appends a separator and the piece. */
  lemma {:induction false} JoinSnoc(parts: seq<string>, last: string, sep: char)
    ensures Join(parts + [last], sep) == (if parts == [] then last else Join(parts, sep) + [sep] + last)
  {
    if |parts| > 1 {
      assert (parts + [last])[1..] == parts[1..] + [last];
      JoinSnoc(parts[1..], last, sep);
    } else if |parts| == 1 {
      assert (parts + [last])[1..] == [last];
    }
  }
}
