/** The pieces of Go's `strings` package the gateway relies on, on strings
    seen as sequences of Unicode code points. */
module Strs {
  import opened Wrappers

  /** unicode.IsSpace: the characters strings.TrimSpace strips. */
  predicate IsSpace(c: char) {
    || c == '\t' || c == '\n' || c == '\U{B}' || c == '\U{C}' || c == '\r' || c == ' '
    || c == '\U{85}' || c == '\U{A0}' || c == '\U{1680}'
    || ('\U{2000}' <= c <= '\U{200A}')
    || c == '\U{2028}' || c == '\U{2029}' || c == '\U{202F}' || c == '\U{205F}' || c == '\U{3000}'
  }

  /** Every character of `s` from `lo` up to `hi` is white space. */
  predicate SpaceBetween(s: string, lo: int, hi: int) {
    0 <= lo <= hi <= |s| && forall i :: lo <= i < hi ==> IsSpace(s[i])
  }

  /** strings.TrimLeftFunc(s, unicode.IsSpace). */
  function TrimLeft(s: string): (r: string)
    ensures |r| <= |s| && r == s[|s| - |r|..]
    ensures SpaceBetween(s, 0, |s| - |r|)
    ensures |r| > 0 ==> !IsSpace(r[0])
  {
    if |s| > 0 && IsSpace(s[0]) then
      var r := TrimLeft(s[1..]);
      SpaceAfterFirst(s, |s| - 1 - |r|);
      r
    else s
  }

  /** White space at the front of `s` followed by `k` white-space characters
      of `s[1..]` is a run of `k + 1`. */
  lemma SpaceAfterFirst(s: string, k: nat)
    requires |s| > 0 && IsSpace(s[0]) && SpaceBetween(s[1..], 0, k)
    ensures SpaceBetween(s, 0, k + 1)
    ensures s[1..][k..] == s[k + 1..]
  {
    forall i | 0 < i < k + 1 ensures IsSpace(s[i]) {
      assert s[1..][i - 1] == s[i];
    }
  }

  /** strings.TrimRightFunc(s, unicode.IsSpace). */
  function TrimRight(s: string): (r: string)
    ensures |r| <= |s| && r == s[..|r|]
    ensures SpaceBetween(s, |r|, |s|)
    ensures |r| > 0 ==> !IsSpace(r[|r| - 1])
  {
    if |s| > 0 && IsSpace(s[|s| - 1]) then
      var r := TrimRight(s[..|s| - 1]);
      SpaceBeforeLast(s, |r|);
      r
    else s
  }

  /** White-space characters of `s` without its last one from `k` on,
      followed by a white-space last character, run from `k` to the end. */
  lemma SpaceBeforeLast(s: string, k: nat)
    requires |s| > 0 && IsSpace(s[|s| - 1]) && SpaceBetween(s[..|s| - 1], k, |s| - 1)
    ensures SpaceBetween(s, k, |s|)
    ensures s[..|s| - 1][..k] == s[..k]
  {
    forall i | k <= i < |s| - 1 ensures IsSpace(s[i]) {
      assert s[..|s| - 1][i] == s[i];
    }
  }

  /** `r` is the slice of `s` starting at `a`, with only white space
      around it. */
  predicate TrimmedAt(s: string, r: string, a: int) {
    && 0 <= a <= |s| - |r| && r == s[a..a + |r|]
    && SpaceBetween(s, 0, a) && SpaceBetween(s, a + |r|, |s|)
  }

  /** strings.TrimSpace: the longest slice of `s` that neither begins nor
      ends with white space, obtained by removing white space only. */
  function TrimSpace(s: string): (r: string)
    ensures |r| <= |s|
    ensures exists a :: TrimmedAt(s, r, a)
    ensures |r| > 0 ==> !IsSpace(r[0]) && !IsSpace(r[|r| - 1])
  {
    var l := TrimLeft(s);
    var r := TrimRight(l);
    TrimBothEnds(s, |s| - |l|, l, r);
    assert |r| > 0 ==> r[0] == l[0];
    r
  }

  /** A white-space run, then `r`, then a white-space run: the shape
      TrimLeft followed by TrimRight leaves. */
  lemma TrimBothEnds(s: string, a: nat, l: string, r: string)
    requires a <= |s| && l == s[a..] && SpaceBetween(s, 0, a)
    requires |r| <= |l| && r == l[..|r|] && SpaceBetween(l, |r|, |l|)
    ensures TrimmedAt(s, r, a)
  {
    forall i | a + |r| <= i < |s| ensures IsSpace(s[i]) {
      assert l[i - a] == s[i];
    }
  }

  /** A string with no white space at either end is its own TrimSpace. */
  lemma TrimSpaceTrimmed(s: string)
    requires |s| > 0 ==> !IsSpace(s[0]) && !IsSpace(s[|s| - 1])
    ensures TrimSpace(s) == s
  {
    TrimLeftKeeps(s);
    TrimRightKeeps(s);
  }

  lemma TrimLeftKeeps(s: string)
    requires |s| > 0 ==> !IsSpace(s[0])
    ensures TrimLeft(s) == s
  {
  }

  lemma TrimRightKeeps(s: string)
    requires |s| > 0 ==> !IsSpace(s[|s| - 1])
    ensures TrimRight(s) == s
  {
  }

  /** TrimSpace is idempotent. */
  lemma TrimSpaceIdempotent(s: string)
    ensures TrimSpace(TrimSpace(s)) == TrimSpace(s)
  {
    TrimSpaceTrimmed(TrimSpace(s));
  }

  /** strings.Replace(s, old, new, -1) for one-character `old` and `new`:
      every occurrence of `a` becomes `b`. */
  function ReplaceChar(s: string, a: char, b: char): (r: string)
    ensures |r| == |s|
    ensures forall i :: 0 <= i < |s| ==> r[i] == (if s[i] == a then b else s[i])
  {
    if |s| == 0 then []
    else [if s[0] == a then b else s[0]] + ReplaceChar(s[1..], a, b)
  }

  /** The number of occurrences of `c` in `s` (strings.Count for a
      one-character separator). */
  function CountChar(s: string, c: char): nat {
    if |s| == 0 then 0 else (if s[0] == c then 1 else 0) + CountChar(s[1..], c)
  }

  /** strings.Replace(s, string(c), "", -1): deletes every `c`, keeping the
      other characters in order. */
  function RemoveChar(s: string, c: char): (r: string)
    ensures |s| == 1 ==> r == (if s[0] == c then "" else s)
    ensures c !in r
    ensures forall x :: x != c ==> (x in r <==> x in s)
    ensures |r| == |s| - CountChar(s, c)
  {
    if |s| == 0 then []
    else if s[0] == c then RemoveChar(s[1..], c)
    else
      var t := RemoveChar(s[1..], c);
      assert forall x :: x in s <==> x == s[0] || x in s[1..];
      [s[0]] + t
  }

  /** Removal works piece by piece: with the one-character case above, this
      fixes the result as the other characters of `s`, in their order. */
  lemma {:induction false} RemoveCharAppend(a: string, b: string, c: char)
    ensures RemoveChar(a + b, c) == RemoveChar(a, c) + RemoveChar(b, c)
    decreases |a|
  {
    if |a| == 0 {
      assert a + b == b;
    } else {
      assert (a + b)[0] == a[0];
      assert (a + b)[1..] == a[1..] + b;
      RemoveCharAppend(a[1..], b, c);
    }
  }

  /** Removing a character that does not occur changes nothing, so
      RemoveChar is idempotent. */
  lemma {:induction false} RemoveCharAbsent(s: string, c: char)
    requires c !in s
    ensures RemoveChar(s, c) == s
  {
    if |s| > 0 {
      RemoveCharAbsent(s[1..], c);
    }
  }

  predicate IsUpperAscii(c: char) { 'A' <= c <= 'Z' }
  predicate IsLowerAscii(c: char) { 'a' <= c <= 'z' }

  /** unicode.ToLower restricted to ASCII: 'A'..'Z' become 'a'..'z'. */
  function LowerAscii(c: char): (d: char)
    ensures IsUpperAscii(c) ==> IsLowerAscii(d) && (d as int) - (c as int) == 32
    ensures !IsUpperAscii(c) ==> d == c
  {
    if IsUpperAscii(c) then ((c as int) + 32) as char else c
  }

  /** strings.ToLower on ASCII letters (other characters are kept). */
  function ToLower(s: string): (r: string)
    ensures |r| == |s|
    ensures forall i :: 0 <= i < |s| ==> r[i] == LowerAscii(s[i])
    ensures forall i :: 0 <= i < |r| ==> !IsUpperAscii(r[i])
  {
    if |s| == 0 then [] else [LowerAscii(s[0])] + ToLower(s[1..])
  }

  /** A string without upper-case ASCII letters is its own ToLower, so
      ToLower is idempotent. */
  lemma ToLowerNoUpper(s: string)
    requires forall i :: 0 <= i < |s| ==> !IsUpperAscii(s[i])
    ensures ToLower(s) == s
  {
  }

  lemma ToLowerIdempotent(s: string)
    ensures ToLower(ToLower(s)) == ToLower(s)
  {
    ToLowerNoUpper(ToLower(s));
  }

  /** `sep` occurs in `s` starting at position `j`. */
  predicate OccursAt(s: string, sep: string, j: int) {
    0 <= j && j + |sep| <= |s| && s[j..j + |sep|] == sep
  }

  /** strings.Index: the position of the first occurrence of `sep`. */
  function Index(s: string, sep: string): (r: Option<nat>)
    ensures r.Some? ==> OccursAt(s, sep, r.value)
    ensures r.Some? ==> forall j :: 0 <= j < r.value ==> !OccursAt(s, sep, j)
    ensures r.None? ==> forall j :: !OccursAt(s, sep, j)
  {
    if |s| < |sep| then None
    else if s[..|sep|] == sep then Some(0)
    else
      var rest := Index(s[1..], sep);
      IndexStep(s, sep, rest);
      if rest.Some? then Some(rest.value + 1) else None
  }

  /** An occurrence one position further into `s` is an occurrence in
      `s[1..]`. */
  lemma OccursShift(s: string, sep: string, j: int)
    requires |s| > 0 && j > 0
    ensures OccursAt(s, sep, j) <==> OccursAt(s[1..], sep, j - 1)
  {
    if j + |sep| <= |s| {
      assert s[1..][j - 1..j - 1 + |sep|] == s[j..j + |sep|];
    }
  }

  /** Where `sep` does not start `s`, the occurrences in `s` are those in
      `s[1..]`, moved one position on. */
  lemma IndexStep(s: string, sep: string, rest: Option<nat>)
    requires |s| >= |sep| && s[..|sep|] != sep
    requires rest.Some? ==> OccursAt(s[1..], sep, rest.value)
    requires rest.Some? ==> forall j :: 0 <= j < rest.value ==> !OccursAt(s[1..], sep, j)
    requires rest.None? ==> forall j :: !OccursAt(s[1..], sep, j)
    ensures rest.Some? ==> OccursAt(s, sep, rest.value + 1)
    ensures rest.Some? ==> forall j :: 0 <= j < rest.value + 1 ==> !OccursAt(s, sep, j)
    ensures rest.None? ==> forall j :: !OccursAt(s, sep, j)
  {
    assert !OccursAt(s, sep, 0) by { assert s[0..|sep|] == s[..|sep|]; }
    forall j | j > 0
      ensures OccursAt(s, sep, j) <==> OccursAt(s[1..], sep, j - 1)
    {
      OccursShift(s, sep, j);
    }
  }

  /** strings.Contains. */
  predicate Contains(s: string, sep: string) {
    Index(s, sep).Some?
  }

  /** strings.Join. */
  function Join(parts: seq<string>, sep: string): string {
    if |parts| == 0 then ""
    else if |parts| == 1 then parts[0]
    else parts[0] + sep + Join(parts[1..], sep)
  }

  /** strings.Split: the pieces of `s` between the non-overlapping occurrences
      of `sep`, found left to right; with an empty `sep`, each character. The
      pieces joined by `sep` give `s` back, and none of them contains `sep`.
      Every cut is at the leftmost occurrence left: no occurrence starts
      inside a piece and runs on into the separator after it, which fixes
      the cuts when occurrences of `sep` overlap. */
  function Split(s: string, sep: string): (r: seq<string>)
    ensures |sep| > 0 ==> |r| >= 1
    ensures Join(r, sep) == s
    ensures |sep| > 0 ==> forall k :: 0 <= k < |r| ==> !Contains(r[k], sep)
    ensures |sep| > 0 ==> forall k :: 0 <= k < |r| - 1 ==> !Contains(r[k] + sep[..|sep| - 1], sep)
    decreases |s|
  {
    if |sep| == 0 then Explode(s)
    else
      match Index(s, sep)
      case None => [s]
      case Some(i) =>
        var rest := Split(s[i + |sep|..], sep);
        BeforeFirstOccurrence(s, sep, i);
        NoLeftOverlap(s, sep, i);
        JoinCons(s[..i], rest, sep);
        var r := [s[..i]] + rest;
        assert forall k :: 1 <= k < |r| ==> r[k] == rest[k - 1];
        r
  }

  /** The text before the first occurrence of `sep`, followed by all of
      `sep` but its last character, does not contain `sep`. */
  lemma NoLeftOverlap(s: string, sep: string, i: nat)
    requires |sep| > 0
    requires Index(s, sep) == Some(i)
    ensures !Contains(s[..i] + sep[..|sep| - 1], sep)
  {
    var len := i + |sep| - 1;
    assert s[..i] + sep[..|sep| - 1] == s[..len] by {
      assert s[i..i + |sep|] == sep;
    }
    NoOccurrenceWithin(s, sep, len);
  }

  /** No occurrence ending within the first `len` characters means none
      inside `s[..len]`. */
  lemma NoOccurrenceWithin(s: string, sep: string, len: nat)
    requires |sep| > 0 && len <= |s|
    requires forall j :: 0 <= j && j + |sep| <= len ==> !OccursAt(s, sep, j)
    ensures !Contains(s[..len], sep)
  {
    var p := s[..len];
    forall j | 0 <= j && j + |sep| <= |p| ensures !OccursAt(p, sep, j) {
      assert p[j..j + |sep|] == s[j..j + |sep|];
      assert !OccursAt(s, sep, j);
    }
  }

  lemma JoinCons(p: string, rest: seq<string>, sep: string)
    requires |rest| >= 1
    ensures Join([p] + rest, sep) == p + sep + Join(rest, sep)
  {
    assert ([p] + rest)[1..] == rest;
  }

  /** The text before the first occurrence of a non-empty `sep` does not
      contain `sep`, and `s` is that text, `sep`, and what follows. */
  lemma BeforeFirstOccurrence(s: string, sep: string, i: nat)
    requires |sep| > 0
    requires Index(s, sep) == Some(i)
    ensures !Contains(s[..i], sep)
    ensures s == s[..i] + sep + s[i + |sep|..]
  {
    NoOccurrenceWithin(s, sep, i);
    assert s == s[..i] + s[i..i + |sep|] + s[i + |sep|..];
  }

  /** strings.Split with an empty separator: one piece per character. */
  function Explode(s: string): (r: seq<string>)
    ensures |r| == |s|
    ensures Join(r, "") == s
    ensures forall k :: 0 <= k < |r| ==> r[k] == [s[k]]
  {
    if |s| == 0 then []
    else
      var rest := Explode(s[1..]);
      var r := [[s[0]]] + rest;
      assert r[1..] == rest;
      r
  }

  // ---------------------------------------------------------------------
  // Splitting on a one-character separator.

  lemma {:induction false} CountCharAppend(a: string, b: string, c: char)
    ensures CountChar(a + b, c) == CountChar(a, c) + CountChar(b, c)
    decreases |a|
  {
    if |a| > 0 {
      assert (a + b)[0] == a[0];
      assert (a + b)[1..] == a[1..] + b;
      CountCharAppend(a[1..], b, c);
    } else {
      assert a + b == b;
    }
  }

  lemma {:induction false} CountCharZero(s: string, c: char)
    requires c !in s
    ensures CountChar(s, c) == 0
    decreases |s|
  {
    if |s| > 0 {
      assert c !in s[1..] by { assert forall x :: x in s[1..] ==> x in s; }
      CountCharZero(s[1..], c);
    }
  }

  lemma NoOccurrenceOfChar(s: string, c: char)
    requires !Contains(s, [c])
    ensures c !in s
  {
    forall j | 0 <= j < |s| ensures s[j] != c {
      assert !OccursAt(s, [c], j);
      assert s[j..j + 1] == [s[j]];
    }
  }

  /** Splitting on a one-character separator gives one piece more than there
      are separators. */
  lemma {:induction false} SplitCharCount(s: string, c: char)
    ensures |Split(s, [c])| == CountChar(s, c) + 1
    decreases |s|
  {
    match Index(s, [c])
    case None =>
      NoOccurrenceOfChar(s, c);
      CountCharZero(s, c);
    case Some(i) =>
      SplitCharCount(s[i + 1..], c);
      SplitCountAtFirst(s, c, i);
  }

  /** Unfolds Split at the first occurrence of a non-empty separator. */
  lemma SplitAtFirst(s: string, sep: string, i: nat)
    requires |sep| > 0 && Index(s, sep) == Some(i)
    ensures Split(s, sep) == [s[..i]] + Split(s[i + |sep|..], sep)
  {
  }

  lemma SplitCountAtFirst(s: string, c: char, i: nat)
    requires Index(s, [c]) == Some(i)
    ensures |Split(s, [c])| == |Split(s[i + 1..], [c])| + 1
    ensures CountChar(s, c) == CountChar(s[i + 1..], c) + 1
  {
    SplitAtFirst(s, [c], i);
    BeforeFirstOccurrence(s, [c], i);
    NoOccurrenceOfChar(s[..i], c);
    assert s[i] == c by { assert s[i..i + 1][0] == s[i]; }
    CountAtFirst(s, c, i);
  }

  /** One occurrence is counted at the first one, none before it. */
  lemma CountAtFirst(s: string, c: char, i: nat)
    requires i < |s| && s[i] == c && c !in s[..i]
    ensures CountChar(s, c) == CountChar(s[i + 1..], c) + 1
  {
    var rest := s[i + 1..];
    CountCharZero(s[..i], c);
    CountCharAppend(s[..i], [c] + rest, c);
    CountCharAppend([c], rest, c);
    assert s == s[..i] + ([c] + rest);
  }

  /** The first piece of a split on a one-character separator is the text
      before the separator's first occurrence. */
  lemma SplitCharFirst(s: string, c: char, i: nat)
    requires i < |s| && s[i] == c && c !in s[..i]
    ensures Index(s, [c]) == Some(i)
    ensures Split(s, [c]) == [s[..i]] + Split(s[i + 1..], [c])
  {
    FirstCharIndex(s, c, i);
    SplitAtFirst(s, [c], i);
  }

  /** The first `c` in `s` is where strings.Index finds `[c]`. */
  lemma FirstCharIndex(s: string, c: char, i: nat)
    requires i < |s| && s[i] == c && c !in s[..i]
    ensures Index(s, [c]) == Some(i)
  {
    CharOccursAt(s, c, i);
    var r := Index(s, [c]);
    assert r.Some?;
    var k := r.value;
    assert k <= i;
    CharOccursAt(s, c, k);
    NoCharBefore(s, c, i);
  }

  lemma NoCharBefore(s: string, c: char, i: nat)
    requires i <= |s| && c !in s[..i]
    ensures forall j :: 0 <= j < i ==> s[j] != c
  {
    forall j | 0 <= j < i ensures s[j] != c {
      assert s[..i][j] == s[j];
    }
  }

  /** A one-character separator occurs exactly where that character is. */
  lemma CharOccursAt(s: string, c: char, j: int)
    ensures OccursAt(s, [c], j) <==> 0 <= j < |s| && s[j] == c
  {
    if 0 <= j < |s| {
      assert s[j..j + 1] == [s[j]];
    }
  }

  /** Without the separator character, Split gives the whole string back. */
  lemma SplitNoChar(s: string, c: char)
    requires c !in s
    ensures Split(s, [c]) == [s]
  {
  }

  /** A string with exactly one `c` splits into the text before and the text
      after it. */
  lemma SplitOnce(s: string, c: char)
    requires CountChar(s, c) == 1
    ensures Index(s, [c]).Some?
    ensures var k := Index(s, [c]).value;
            && k < |s| && s[k] == c
            && c !in s[..k] && c !in s[k + 1..]
            && Split(s, [c]) == [s[..k], s[k + 1..]]
  {
    SplitCharCount(s, c);
    var parts := Split(s, [c]);
    var k := Index(s, [c]).value;
    assert s[k..k + 1] == [c];
    BeforeFirstOccurrence(s, [c], k);
    NoOccurrenceOfChar(s[..k], c);
    SplitCountAtFirst(s, c, k);
    CountCharZero(s[..k], c);
    var rest := s[k + 1..];
    assert CountChar(rest, c) == 0;
    CountCharZeroAbsent(rest, c);
    SplitNoChar(rest, c);
    SplitAtFirst(s, [c], k);
  }

  lemma {:induction false} CountCharZeroAbsent(s: string, c: char)
    requires CountChar(s, c) == 0
    ensures c !in s
    decreases |s|
  {
    if |s| > 0 {
      CountCharZeroAbsent(s[1..], c);
      assert s == [s[0]] + s[1..];
    }
  }

  /** Splitting `a`, `c`, `rest` on `c` when `a` holds no `c`: `a` is the first
      piece. */
  lemma SplitCons(a: string, c: char, rest: string)
    requires c !in a
    ensures Split(a + [c] + rest, [c]) == [a] + Split(rest, [c])
  {
    var s := a + [c] + rest;
    assert s[|a|] == c && s[..|a|] == a && s[|a| + 1..] == rest;
    SplitCharFirst(s, c, |a|);
  }

  /** Three `c`-free pieces joined by `c` split back into those pieces. */
  lemma SplitThree(a: string, b: string, d: string, c: char)
    requires c !in a && c !in b && c !in d
    ensures Split(a + [c] + b + [c] + d, [c]) == [a, b, d]
  {
    var tail := b + [c] + d;
    SplitNoChar(d, c);
    SplitCons(b, c, d);
    SplitCons(a, c, tail);
    JoinedThree(a, b, d, c);
  }

  lemma JoinedThree(a: string, b: string, d: string, c: char)
    ensures a + [c] + b + [c] + d == a + [c] + (b + [c] + d)
  {
  }
}
