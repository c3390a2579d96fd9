/** The session correlation key: hashCode / hashCodes, which appear twice
    with the same text, in wsproxy/hash_crc32.go and in the older root file
    wsproxy.go. The CRC-32 checksum is a parameter `crc`. */
module Hash {
  import opened GoInt
  import opened Wrappers
  import opened Strconv

  /** The text hashCodes hands to the checksum: every string followed by '-',
      in order, as the `fmt.Sprintf("%s-", s)` loop writes them. */
  function Suffixed(xs: seq<string>): (r: string)
    ensures |r| >= |xs|
    ensures |xs| > 0 ==> r[|r| - 1] == '-'
  {
    if |xs| == 0 then "" else xs[0] + "-" + Suffixed(xs[1..])
  }

  /** hashCode: the checksum converted to `int`, and negated when that made it
      negative; math.MinInt, whose negation overflows, becomes 0. On a 64-bit
      platform every checksum fits, so the key is the checksum itself; on a
      32-bit one, checksums of 2^31 and above wrap. */
  function HashCode(w: Width, crc: string -> Uint32, s: string): (r: int)
    ensures 0 <= r <= w.MaxInt()
    ensures ToInt(w, crc(s)) >= 0 ==> r == ToInt(w, crc(s))
    ensures ToInt(w, crc(s)) < 0 && ToInt(w, crc(s)) != w.MinInt() ==> r == -ToInt(w, crc(s))
    ensures ToInt(w, crc(s)) == w.MinInt() ==> r == 0
    ensures crc(s) <= w.MaxInt() ==> r == crc(s)
    ensures crc(s) == -w.MinInt() ==> r == 0
    ensures crc(s) > -w.MinInt() ==> r == w.Modulus() - crc(s)
  {
    var v := ToInt(w, crc(s));
    if v >= 0 then v
    else if Negate(w, v) >= 0 then Negate(w, v)
    else 0
  }

  /** hashCodes: the decimal rendering of hashCode of the '-'-suffixed
      concatenation. It is digits only, never signed, has no leading zero,
      and reads back as the hashCode it renders. */
  function HashCodes(w: Width, crc: string -> Uint32, xs: seq<string>): (r: string)
    ensures |r| >= 1 && AllDigits(r)
    ensures Value(r) == HashCode(w, crc, Suffixed(xs))
    ensures r[0] == '0' ==> r == "0"
    ensures Atoi(w, r) == Parsed(HashCode(w, crc, Suffixed(xs)), None)
  {
    var h := HashCode(w, crc, Suffixed(xs));
    AtoiItoa(w, h);
    Itoa(h)
  }

  /** The key handleWs computes for every request, in both versions:
      hashCodes of the single string `RemoteAddr + "_" + time`. */
  function SessionKey(w: Width, crc: string -> Uint32, remoteAddr: string, stamp: string): (r: string)
    ensures |r| >= 1 && AllDigits(r)
    ensures Value(r) == HashCode(w, crc, remoteAddr + "_" + stamp + "-")
    ensures r[0] == '0' ==> r == "0"
    ensures Atoi(w, r) == Parsed(HashCode(w, crc, remoteAddr + "_" + stamp + "-"), None)
  {
    assert Suffixed([remoteAddr + "_" + stamp]) == remoteAddr + "_" + stamp + "-";
    HashCodes(w, crc, [remoteAddr + "_" + stamp])
  }

  // ---------------------------------------------------------------------

  /** On a 64-bit platform the key is the checksum, unchanged. */
  lemma HashCode64(crc: string -> Uint32, s: string)
    ensures HashCode(W64, crc, s) == crc(s)
  {
  }

  lemma {:induction false} SuffixedAppend(xs: seq<string>, ys: seq<string>)
    ensures Suffixed(xs + ys) == Suffixed(xs) + Suffixed(ys)
    decreases |xs|
  {
    if |xs| == 0 {
      assert xs + ys == ys;
    } else {
      assert (xs + ys)[0] == xs[0];
      assert (xs + ys)[1..] == xs[1..] + ys;
      SuffixedAppend(xs[1..], ys);
    }
  }

  /** The empty list hashes the empty string. */
  lemma EmptyListKey(w: Width, crc: string -> Uint32)
    ensures HashCodes(w, crc, []) == Itoa(HashCode(w, crc, ""))
  {
  }

  /** Lists whose '-'-suffixed concatenations agree get the same key. */
  lemma SameTextSameKey(w: Width, crc: string -> Uint32, xs: seq<string>, ys: seq<string>)
    requires Suffixed(xs) == Suffixed(ys)
    ensures HashCodes(w, crc, xs) == HashCodes(w, crc, ys)
  {
  }

  /** So a '-' inside an element is indistinguishable from an element
      boundary: ["a-b"] and ["a", "b"] get the same key. */
  lemma DashCollision(w: Width, crc: string -> Uint32)
    ensures HashCodes(w, crc, ["a-b"]) == HashCodes(w, crc, ["a", "b"])
  {
    assert Suffixed(["a-b"]) == "a-b-";
    assert Suffixed(["a", "b"]) == "a-b-" by {
      assert ["a", "b"][1..] == ["b"];
    }
  }

  predicate DashFree(xs: seq<string>) {
    forall i :: 0 <= i < |xs| ==> '-' !in xs[i]
  }

  lemma DashFreeHead(x: string, y: string, a: string, b: string)
    requires '-' !in x && '-' !in y
    requires x + "-" + a == y + "-" + b
    ensures x == y && a == b
  {
    var l := x + "-" + a;
    assert l[|x|] == '-';
    assert forall j :: 0 <= j < |x| ==> l[j] == x[j];
    assert l[|y|] == '-' by { assert l == y + "-" + b; }
    assert forall j :: 0 <= j < |y| ==> l[j] == y[j];
    assert x == l[..|x|];
    assert a == l[|x| + 1..];
  }

  /** Without '-' inside the elements, the concatenation determines the list:
      distinct '-'-free lists are hashed from distinct texts. */
  lemma {:induction false} SuffixedInjective(xs: seq<string>, ys: seq<string>)
    requires DashFree(xs) && DashFree(ys)
    requires Suffixed(xs) == Suffixed(ys)
    ensures xs == ys
    decreases |xs|
  {
    if |xs| == 0 || |ys| == 0 {
      assert |Suffixed(xs)| == 0 || |Suffixed(ys)| == 0;
    } else {
      DashFreeHead(xs[0], ys[0], Suffixed(xs[1..]), Suffixed(ys[1..]));
      SuffixedInjective(xs[1..], ys[1..]);
      assert xs == [xs[0]] + xs[1..];
      assert ys == [ys[0]] + ys[1..];
    }
  }
}
