/** Startup configuration of the gateway (wsproxy/wsproxy.go): the flag
    defaults, the normalisation `init` applies after flag.Parse, and the
    checks `main` runs before it serves. */
module Config {
  import opened Wrappers
  import opened GoInt
  import opened Strs
  import opened Strconv

  /** The flags as flag.Parse leaves them. The `uint` flags hold values of
      Go's `uint`, so each is below 2^bits of the platform. */
  datatype Flags = Flags(
    secret: string,
    addr: string,
    timeout: nat,
    buffer: nat,
    maxConns: nat,
    stream: string,
    fsplit: string,
    frkey: string,
    sslOnly: bool,
    aesOnly: bool,
    proxyProto: bool)

  /** The defaults of the flags: buffer 1024, at most 64*1024 connections,
      format "bin", form key "token", no split marker, a 3 second dial. */
  function Defaults(): (f: Flags)
    ensures f.buffer == 1024 && f.maxConns == 65536 && f.timeout == 3
    ensures f.stream == "bin" && f.frkey == "token" && f.fsplit == "" && f.secret == ""
  {
    Flags("", "0.0.0.0:1443", 3, 1 * 1024, 64 * 1024, "bin", "", "token", false, false, false)
  }

  const NanosPerSecond: nat := 1_000_000_000

  /** `init`: the dial timeout becomes nanoseconds (a `uint` product, which
      wraps), every space is removed from -fsplit, -frkey is trimmed and
      lower-cased, and -stream is lower-cased. Nothing else changes. */
  function Init(w: Width, f: Flags): (n: Flags)
    ensures n.timeout == ToUint(w, NanosPerSecond * f.timeout)
    ensures n.fsplit == RemoveChar(f.fsplit, ' ')
    ensures n.frkey == ToLower(TrimSpace(f.frkey))
    ensures n.stream == ToLower(f.stream)
    ensures n == f.(timeout := n.timeout, fsplit := n.fsplit, frkey := n.frkey, stream := n.stream)
  {
    f.(timeout := ToUint(w, NanosPerSecond * f.timeout),
       fsplit := RemoveChar(f.fsplit, ' '),
       frkey := ToLower(TrimSpace(f.frkey)),
       stream := ToLower(f.stream))
  }

  /** What `init` leaves in -fsplit: no space; a flag without spaces as it
      is; and at every cut of the flag, what is left of the text before the
      cut followed by what is left of the text after it, so the other
      characters keep their order. */
  lemma InitFsplit(w: Width, f: Flags)
    ensures var n := Init(w, f);
            && ' ' !in n.fsplit
            && (forall c :: c != ' ' ==> (c in n.fsplit <==> c in f.fsplit))
            && |n.fsplit| == |f.fsplit| - CountChar(f.fsplit, ' ')
            && (' ' !in f.fsplit ==> n.fsplit == f.fsplit)
            && (forall i :: 0 <= i <= |f.fsplit| ==>
                  n.fsplit == RemoveChar(f.fsplit[..i], ' ') + RemoveChar(f.fsplit[i..], ' '))
  {
    if ' ' !in f.fsplit {
      RemoveCharAbsent(f.fsplit, ' ');
    }
    forall i | 0 <= i <= |f.fsplit|
      ensures RemoveChar(f.fsplit, ' ') == RemoveChar(f.fsplit[..i], ' ') + RemoveChar(f.fsplit[i..], ' ')
    {
      assert f.fsplit[..i] + f.fsplit[i..] == f.fsplit;
      RemoveCharAppend(f.fsplit[..i], f.fsplit[i..], ' ');
    }
  }

  /** What `init` leaves in -frkey: no white space at either end and no
      upper-case ASCII letter. */
  lemma InitFrkey(w: Width, f: Flags)
    ensures var n := Init(w, f);
            && (|n.frkey| > 0 ==> !IsSpace(n.frkey[0]) && !IsSpace(n.frkey[|n.frkey| - 1]))
            && (forall i :: 0 <= i < |n.frkey| ==> !IsUpperAscii(n.frkey[i]))
  {
    var n := Init(w, f);
    assert n.frkey == ToLower(TrimSpace(f.frkey));
    LowerTrimmed(f.frkey);
  }

  lemma LowerTrimmed(k: string)
    ensures var r := ToLower(TrimSpace(k));
            && (|r| > 0 ==> !IsSpace(r[0]) && !IsSpace(r[|r| - 1]))
            && (forall i :: 0 <= i < |r| ==> !IsUpperAscii(r[i]))
  {
    LowerKeepsEnds(TrimSpace(k));
  }

  /** What `init` leaves in -stream: the flag lower-cased letter by letter. */
  lemma InitStream(w: Width, f: Flags)
    ensures var n := Init(w, f);
            && |n.stream| == |f.stream|
            && (forall i :: 0 <= i < |n.stream| ==> n.stream[i] == LowerAscii(f.stream[i]))
  {
  }

  /** Running `init` a second time changes none of the strings it
      normalises. */
  lemma InitIdempotent(w: Width, f: Flags)
    ensures var n := Init(w, f); var m := Init(w, n);
            m.fsplit == n.fsplit && m.frkey == n.frkey && m.stream == n.stream
  {
    var n := Init(w, f);
    InitFsplit(w, f);
    InitFrkey(w, f);
    RemoveCharAbsent(n.fsplit, ' ');
    LowerKeepsEnds(TrimSpace(f.frkey));
    TrimSpaceTrimmed(n.frkey);
    ToLowerNoUpper(n.frkey);
    ToLowerIdempotent(f.stream);
  }

  /** Lower-casing ASCII letters never turns a non-space character into a
      white-space one, so a trimmed string stays trimmed. */
  lemma LowerKeepsEnds(t: string)
    requires |t| > 0 ==> !IsSpace(t[0]) && !IsSpace(t[|t| - 1])
    ensures |ToLower(t)| > 0 ==> !IsSpace(ToLower(t)[0]) && !IsSpace(ToLower(t)[|t| - 1])
  {
    if |t| > 0 {
      var k := ToLower(t);
      assert k[0] == LowerAscii(t[0]) && k[|k| - 1] == LowerAscii(t[|t| - 1]);
    }
  }

  /** The -fsplit rule `main` accepts: the marker to split the token on and
      the zero-based index of the piece to keep. */
  datatype SplitRule = SplitRule(marker: string, index: int)

  datatype StartupError =
    | MissingSecret
    | FsplitFormat      // not exactly two comma-separated parts
    | FsplitNoMarker    // two parts, the first one empty
    | FrkeyFormat
    | StreamUnsupported(stream: string)

  /** The -fsplit check of `main`: an empty value means no splitting;
      otherwise splitting on ',' must give exactly two parts with a non-empty
      first part, and the second part is read with strconv.Atoi, its error
      ignored. So text that is not a number gives index 0, unless the digits
      it starts with (after an optional sign) already overflow 64 bits: then
      Atoi stops at the overflow and the index is math.MaxInt, or math.MinInt
      after a '-'. */
  function ParseFsplit(w: Width, fs: string): (r: Result<Option<SplitRule>, StartupError>)
    ensures fs == "" ==> r == Ok(None)
    ensures fs != "" ==> (r.Ok? <==> CountChar(fs, ',') == 1 && fs[0] != ',')
    ensures fs != "" && CountChar(fs, ',') != 1 ==> r == Err(FsplitFormat)
    ensures fs != "" && CountChar(fs, ',') == 1 && fs[0] == ',' ==> r == Err(FsplitNoMarker)
    ensures r.Ok? && r.value.Some? ==>
              var rule := r.value.value;
              && |rule.marker| >= 1 && ',' !in rule.marker
              && |rule.marker| < |fs| && fs[..|rule.marker|] == rule.marker && fs[|rule.marker|] == ','
              && rule.index == Atoi(w, fs[|rule.marker| + 1..]).value
    ensures r.Ok? && r.value.Some? ==>
              var rest := fs[|r.value.value.marker| + 1..];
              && (IsIntegerText(rest) && InIntRange(w, SignedValue(rest)) ==> r.value.value.index == SignedValue(rest))
              && (!IsIntegerText(rest) && LeadingValue(rest) <= MaxUint64 ==> r.value.value.index == 0)
              && (LeadingValue(rest) > MaxUint64 ==>
                    r.value.value.index == (if rest[0] == '-' then w.MinInt() else w.MaxInt()))
  {
    if fs == "" then Ok(None)
    else
      var parts := Split(fs, ",");
      SplitCharCount(fs, ',');
      if |parts| == 2 then
        SplitOnce(fs, ',');
        if parts[0] == "" then Err(FsplitNoMarker)
        else Ok(Some(SplitRule(parts[0], Atoi(w, parts[1]).value)))
      else Err(FsplitFormat)
  }

  /** A -fsplit value made of a comma-free marker, one comma and a comma-free
      rest is accepted, with the rest read by Atoi as the index. */
  lemma FsplitAccepts(w: Width, marker: string, rest: string)
    requires marker != "" && ',' !in marker && ',' !in rest
    ensures ParseFsplit(w, marker + "," + rest) == Ok(Some(SplitRule(marker, Atoi(w, rest).value)))
  {
    var fs := marker + "," + rest;
    assert fs[|marker|] == ',' && fs[..|marker|] == marker && fs[|marker| + 1..] == rest;
    assert fs == marker + ("," + rest);
    CountCharAppend(marker, "," + rest, ',');
    CountCharAppend(",", rest, ',');
    CountCharZero(marker, ',');
    CountCharZero(rest, ',');
  }

  /** A -fsplit index whose digits overflow 64 bits before a non-digit is
      read as math.MaxInt rather than 0. */
  lemma FsplitOverflowIndex(w: Width, marker: string, digits: string)
    requires marker != "" && ',' !in marker
    requires AllDigits(digits) && Value(digits) > MaxUint64
    ensures ParseFsplit(w, marker + "," + digits + "x") == Ok(Some(SplitRule(marker, w.MaxInt())))
  {
    assert ',' !in digits + "x" by { assert forall i :: 0 <= i < |digits| ==> IsDigit(digits[i]); }
    assert marker + "," + digits + "x" == marker + "," + (digits + "x");
    FsplitAccepts(w, marker, digits + "x");
    OverflowThenLetter(w, digits, 'x');
  }

  /** The literal meaning of the regular expression `^[a-z]+[0-9]*` under
      MatchString: some prefix of `s` is one or more lower-case ASCII letters
      followed by digits. The pattern is anchored at the start only, so
      anything may follow. */
  predicate KeyPatternMatches(s: string) {
    exists j, k :: 1 <= j <= k <= |s| && AllLowerAscii(s[..j]) && AllDigits(s[j..k])
  }

  predicate AllLowerAscii(s: string) {
    forall i :: 0 <= i < |s| ==> IsLowerAscii(s[i])
  }

  /** -frkey passes exactly when its first character is a lower-case ASCII
      letter: the rest of the key is never looked at. */
  lemma KeyPatternFirstLetter(s: string)
    ensures KeyPatternMatches(s) <==> |s| >= 1 && IsLowerAscii(s[0])
  {
    if |s| >= 1 && IsLowerAscii(s[0]) {
      assert AllLowerAscii(s[..1]) && AllDigits(s[1..1]);
    }
    if KeyPatternMatches(s) {
      var j, k :| 1 <= j <= k <= |s| && AllLowerAscii(s[..j]) && AllDigits(s[j..k]);
      assert s[..j][0] == s[0];
    }
  }

  /** What `main` hands on to the server once every check passed. */
  datatype Settings = Settings(
    secret: string,
    split: Option<SplitRule>,
    formKey: string,
    stream: string,
    maxConns: int,
    bufferSize: nat,
    dialTimeout: nat,
    addr: string)

  /** `main` after `init` (the -version banner aside): the checks in source
      order, then setMaxConns(int(cfgMaxConns)). */
  function Main(w: Width, f: Flags): (r: Result<Settings, StartupError>)
    ensures var n := Init(w, f);
            r.Ok? <==> && n.secret != ""
                       && ParseFsplit(w, n.fsplit).Ok?
                       && |n.frkey| >= 1 && IsLowerAscii(n.frkey[0])
                       && (n.stream == "bin" || n.stream == "text")
    ensures f.secret == "" ==> r == Err(MissingSecret)
    ensures r.Ok? ==> var n := Init(w, f);
                      && r.value.secret == n.secret
                      && r.value.split == ParseFsplit(w, n.fsplit).value
                      && r.value.formKey == n.frkey
                      && r.value.stream == n.stream
                      && (r.value.stream == "bin" || r.value.stream == "text")
                      && r.value.maxConns == ToInt(w, f.maxConns)
                      && r.value.bufferSize == f.buffer
                      && r.value.dialTimeout == n.timeout
                      && r.value.addr == n.addr
  {
    var n := Init(w, f);
    KeyPatternFirstLetter(n.frkey);
    if |n.secret| == 0 then Err(MissingSecret)
    else match ParseFsplit(w, n.fsplit)
      case Err(e) => Err(e)
      case Ok(split) =>
        if !KeyPatternMatches(n.frkey) then Err(FrkeyFormat)
        else if n.stream != "bin" && n.stream != "text" then Err(StreamUnsupported(n.stream))
        else Ok(Settings(n.secret, split, n.frkey, n.stream, ToInt(w, n.maxConns), n.buffer, n.timeout, n.addr))
  }

  /** With the default flags and a secret, startup succeeds with a ceiling of
      64*1024 sessions. */
  lemma DefaultsStart(w: Width, secret: string)
    requires secret != ""
    ensures Main(w, Defaults().(secret := secret)).Ok?
    ensures Main(w, Defaults().(secret := secret)).value.maxConns == 65536
  {
    DefaultsAccepted(w, Defaults().(secret := secret));
  }

  lemma DefaultsAccepted(w: Width, f: Flags)
    requires f.secret != "" && f.fsplit == "" && f.frkey == "token" && f.stream == "bin"
    requires f.maxConns == 65536
    ensures Main(w, f).Ok? && Main(w, f).value.maxConns == 65536
  {
    var n := Init(w, f);
    assert n.secret != "" && ParseFsplit(w, n.fsplit).Ok? by { DefaultsInit(w, f); }
    assert |n.frkey| >= 1 && IsLowerAscii(n.frkey[0]) by {
      DefaultsInit(w, f);
      DefaultKeyAccepted(n.frkey);
    }
    assert n.stream == "bin" by { DefaultsInit(w, f); }
    assert InIntRange(w, 65536);
  }

  lemma DefaultKeyAccepted(k: string)
    requires k == "token"
    ensures |k| >= 1 && IsLowerAscii(k[0])
  {
  }

  /** `init` leaves the default -fsplit, -frkey and -stream as they are. */
  lemma DefaultsInit(w: Width, f: Flags)
    requires f.fsplit == "" && f.frkey == "token" && f.stream == "bin"
    ensures Init(w, f).fsplit == "" && Init(w, f).frkey == "token" && Init(w, f).stream == "bin"
  {
    DefaultKeyTrimmed();
    DefaultKeyLower();
    DefaultStreamLower();
  }

  lemma DefaultKeyTrimmed()
    ensures TrimSpace("token") == "token"
  {
    TrimSpaceTrimmed("token");
  }

  lemma DefaultKeyLower()
    ensures ToLower("token") == "token"
  {
    ToLowerNoUpper("token");
  }

  lemma DefaultStreamLower()
    ensures ToLower("bin") == "bin"
  {
    ToLowerNoUpper("bin");
  }

  /** A -max_conns of 2^(bits-1) or more turns negative in `int(cfgMaxConns)`,
      so the ceiling handed to setMaxConns is below zero. */
  lemma HugeMaxConnsWraps(w: Width, f: Flags)
    requires w.MaxInt() < f.maxConns <= w.MaxUint()
    requires Main(w, f).Ok?
    ensures Main(w, f).value.maxConns < 0
  {
  }
}
