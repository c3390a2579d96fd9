/** The older single-file gateway, wsproxy.go at the top of the repository.
    Its hashCode, hashCodes and If are the same text as in the wsproxy/
    package and are modelled once (modules Hash and Ternary). Its flags,
    init, main, logHandle, handleWs and the two relay loops differ from the
    newer ones; each is modelled here and tied to its newer counterpart by
    a lemma that says exactly where the two agree. */
module Root {
  import opened Wrappers
  import opened GoInt
  import opened Strs
  import opened Config
  import opened Frames
  import opened Sessions
  import opened LogRecord
  import opened Ternary
  import opened Relay
  import opened Handshake

  /** The root file's flags: no -stream, -max_conns, -aes_only or
      -proxyproto. */
  datatype RootFlags = RootFlags(
    secret: string,
    addr: string,
    timeout: nat,
    buffer: nat,
    fsplit: string,
    frkey: string,
    sslOnly: bool)

  /** The root file's defaults: a 64*1024 byte buffer (the newer package
      uses 1024), a 3 second dial, form key "token", no split marker. */
  function RootDefaults(): (f: RootFlags)
    ensures f.buffer == 65536 && f.timeout == 3
    ensures f.frkey == "token" && f.fsplit == "" && f.secret == ""
    ensures f.buffer == 64 * Defaults().buffer
  {
    RootFlags("", "0.0.0.0:1443", 3, 64 * 1024, "", "token", false)
  }

  /** The newer package's flags carrying the root file's values, with the
      flags the root file lacks at their newer defaults. */
  function AsFlags(f: RootFlags): (g: Flags)
    ensures g.secret == f.secret && g.fsplit == f.fsplit && g.frkey == f.frkey
    ensures g.timeout == f.timeout && g.buffer == f.buffer && g.addr == f.addr
    ensures g.stream == "bin" && g.maxConns == 65536
  {
    Flags(f.secret, f.addr, f.timeout, f.buffer, 64 * 1024, "bin", f.fsplit, f.frkey, f.sslOnly, false, false)
  }

  /** The root `init` after flag.Parse: the dial timeout in nanoseconds,
      spaces removed from -fsplit, -frkey trimmed and lower-cased. */
  function RootInit(w: Width, f: RootFlags): (n: RootFlags)
    ensures n.secret == f.secret && n.addr == f.addr && n.buffer == f.buffer && n.sslOnly == f.sslOnly
  {
    f.(timeout := ToUint(w, NanosPerSecond * f.timeout),
       fsplit := RemoveChar(f.fsplit, ' '),
       frkey := ToLower(TrimSpace(f.frkey)))
  }

  /** The root `init` normalises exactly as the newer one does. */
  lemma RootInitAgrees(w: Width, f: RootFlags)
    ensures AsFlags(RootInit(w, f)) == Init(w, AsFlags(f))
  {
    DefaultStreamLower();
  }

  /** What the root `main` hands on: no format and no ceiling. */
  datatype RootSettings = RootSettings(
    secret: string,
    split: Option<SplitRule>,
    formKey: string,
    bufferSize: nat,
    dialTimeout: nat,
    addr: string,
    sslOnly: bool)

  /** The root `main` (the -version banner aside): the passphrase, -fsplit
      and -frkey checks of the newer `main`, with no -stream check and no
      setMaxConns. */
  function RootMain(w: Width, f: RootFlags): (r: Result<RootSettings, StartupError>)
    ensures var n := RootInit(w, f);
            r.Ok? <==> && n.secret != ""
                       && ParseFsplit(w, n.fsplit).Ok?
                       && |n.frkey| >= 1 && IsLowerAscii(n.frkey[0])
    ensures r.Ok? ==> var n := RootInit(w, f);
                      && r.value.secret == n.secret
                      && r.value.split == ParseFsplit(w, n.fsplit).value
                      && r.value.formKey == n.frkey
                      && r.value.bufferSize == n.buffer
                      && r.value.dialTimeout == n.timeout
                      && r.value.addr == n.addr
                      && r.value.sslOnly == n.sslOnly
    ensures f.secret == "" ==> r == Err(MissingSecret)
    ensures r.Err? ==> !r.error.StreamUnsupported?
  {
    var n := RootInit(w, f);
    KeyPatternFirstLetter(n.frkey);
    if |n.secret| == 0 then Err(MissingSecret)
    else match ParseFsplit(w, n.fsplit)
      case Err(e) => Err(e)
      case Ok(split) =>
        if !KeyPatternMatches(n.frkey) then Err(FrkeyFormat)
        else Ok(RootSettings(n.secret, split, n.frkey, n.buffer, n.timeout, n.addr, n.sslOnly))
  }

  /** The root `main` accepts exactly the flags the newer one accepts once
      -stream is "bin", and settles on the same passphrase, split rule and
      form key. */
  lemma RootMainAgrees(w: Width, f: RootFlags)
    ensures RootMain(w, f).Ok? <==> Main(w, AsFlags(f)).Ok?
    ensures RootMain(w, f).Ok? ==>
              var r := RootMain(w, f).value;
              var m := Main(w, AsFlags(f)).value;
              r.secret == m.secret && r.split == m.split && r.formKey == m.formKey
              && r.bufferSize == m.bufferSize
  {
    RootInitAgrees(w, f);
    if RootMain(w, f).Ok? {
      SameSettings(w, f);
    }
  }

  lemma SameSettings(w: Width, f: RootFlags)
    requires RootMain(w, f).Ok? && Main(w, AsFlags(f)).Ok?
    ensures var r := RootMain(w, f).value;
            var m := Main(w, AsFlags(f)).value;
            r.secret == m.secret && r.split == m.split && r.formKey == m.formKey
            && r.bufferSize == m.bufferSize
  {
    var m := RootInit(w, f);
    var n := Init(w, AsFlags(f));
    assert m.secret == n.secret && m.fsplit == n.fsplit && m.frkey == n.frkey && m.buffer == n.buffer by {
      RootInitAgrees(w, f);
    }
    assert RootMain(w, f).value.split == ParseFsplit(w, n.fsplit).value;
    assert RootMain(w, f).value.formKey == n.frkey;
  }

  /** With its default flags and a passphrase, the root gateway starts. */
  lemma RootDefaultsStart(w: Width, secret: string)
    requires secret != ""
    ensures RootMain(w, RootDefaults().(secret := secret)).Ok?
  {
    var f := RootDefaults().(secret := secret);
    DefaultsAccepted(w, AsFlags(f));
    RootMainAgrees(w, f);
  }

  // ---------------------------------------------------------------------

  /** The root logHandle: the same record as `log` in wsproxy/log.go, put
      together field by field in the order the root file assigns them. */
  function RootLogHandle(c: Option<Conn>, r: Request, hostOf: string -> string,
                         remoteAddr: string, stCode: int, hashCode: string): (rec: Record)
    ensures rec == Build(c, r, hostOf, remoteAddr, stCode, hashCode)
  {
    var localAddr := if c.Some? then c.value.localAddr else "";
    var realIp := HeaderGet(r, RealIpHeader);
    var forwardedFor := HeaderGet(r, ForwardedForHeader);
    var userAgent := HeaderGet(r, UserAgentHeader);
    Record(
      remoteAddr := hostOf(r.remoteAddr),
      realIp := If(realIp == "", "-", realIp),
      forwardedFor := If(forwardedFor == "", "-", forwardedFor),
      serverAddrPort := If(localAddr == "", "-:nil", localAddr),
      targetAddrPort := If(remoteAddr == "", "-:nil", remoteAddr),
      request := r.httpMethod + " " + r.requestUri + " " + r.proto,
      status := Strconv.Itoa(stCode),
      userAgent := If(userAgent == "", "-", userAgent),
      hashcode := If(hashCode == "", "-", hashCode))
  }

  /** The newer settings the root file behaves like: format "bin". */
  function AsSettings(s: RootSettings): (t: Settings)
    ensures t.secret == s.secret && t.split == s.split && t.formKey == s.formKey
    ensures SelectFormat(t.stream) == BinaryMessage
  {
    Settings(s.secret, s.split, s.formKey, "bin", 65536, s.bufferSize, s.dialTimeout, s.addr)
  }

  /** The dial stage of the root handleWs: the same three endings as the
      newer one, with the root logHandle writing the records and the
      frames always binary. */
  function RootConnect(hash: string, ws: nat, r: Request, hostOf: string -> string,
                       raddr: string, d: Dial): (o: Outcome)
    ensures o == Connect(hash, BinaryMessage, ws, r, hostOf, raddr, d)
  {
    match d
    case DialTimedOut => NotConnected(StatusDialTimeout, RootLogHandle(None, r, hostOf, raddr, StatusDialTimeout, hash))
    case DialRefused => NotConnected(StatusDialError, RootLogHandle(None, r, hostOf, raddr, StatusDialError, hash))
    case Dialed(conn) => Admitted(Worker(hash, BinaryMessage, ws, conn.id), RootLogHandle(Some(conn), r, hostOf, raddr, StatusOK, hash))
  }

  /** The root handleWs up to the relay: no capacity check and no registry;
      the pair it relays between is reported as a worker whose frames are
      always binary. */
  function RootHandleWs(w: Width, s: RootSettings, r: Request, env: Env): (o: Outcome)
    ensures !o.Rejected?
    ensures o.Admitted? ==> o.worker.format == BinaryMessage && o.record.status == Strconv.Itoa(StatusOK)
    ensures !env.upgrade.Upgraded? ==>
              o == NoSession(if env.upgrade == UpgradeFailed then Some(Warning) else None)
    ensures env.upgrade.Upgraded? && Target(s.secret, s.split, s.formKey, r, env.decrypt).Err? ==>
              var why := Target(s.secret, s.split, s.formKey, r, env.decrypt).error;
              o == Refused(why, if why.DecryptFailed? then Some(Error) else None)
    ensures env.upgrade.Upgraded? && Target(s.secret, s.split, s.formKey, r, env.decrypt).Ok? ==>
              var raddr := Target(s.secret, s.split, s.formKey, r, env.decrypt).value;
              o == RootConnect(Hash.SessionKey(w, env.crc, r.remoteAddr, env.stamp), env.upgrade.ws,
                               r, env.hostOf, raddr, env.dial(raddr))
  {
    var hash := Hash.SessionKey(w, env.crc, r.remoteAddr, env.stamp);
    match env.upgrade
    case NotWebSocket => NoSession(None)
    case UpgradeFailed => NoSession(Some(Warning))
    case Upgraded(ws) =>
      match Target(s.secret, s.split, s.formKey, r, env.decrypt)
      case Err(why) => Refused(why, if why.DecryptFailed? then Some(Error) else None)
      case Ok(raddr) => RootConnect(hash, ws, r, env.hostOf, raddr, env.dial(raddr))
  }

  /** Below the ceiling the newer handleWs answers a request exactly as the
      root one does (with -stream "bin"); only the newer one can turn a
      client away, and only the newer one stores the session. */
  lemma RootHandleAgrees(w: Width, s: RootSettings, r: Request, env: Env)
    ensures RootHandleWs(w, s, r, env) == Respond(w, AsSettings(s), false, r, env)
  {
  }

  // ---------------------------------------------------------------------
  // The root relay loops.

  /** The root client-to-backend goroutine: client.Write is judged by its
      error alone; an unexpected close emits a request record with status
      503 instead of an error line, any other read error is logged as a
      notice, a failed write as a warning; on stopping it closes both
      connections. */
  function RootWsToTcp(input: seq<Read<WsReadError>>, acks: seq<Write>): (r: LoopEnd<Bytes>)
    ensures r.sent == Pump(input, acks, ErrorOnly).forwarded
    ensures r.closed <==> !Pump(input, acks, ErrorOnly).stop.Blocked?
    ensures r.status.Some? <==>
              |r.sent| < |input| && input[|r.sent|].Failed? && UnexpectedClose(input[|r.sent|].error)
    ensures r.status.Some? ==> r.status == Some(StatusCloseError) && r.log.None?
    ensures r.log == Some(Notice) <==>
              |r.sent| < |input| && input[|r.sent|].Failed? && !UnexpectedClose(input[|r.sent|].error)
    ensures r.log == Some(Warning) <==> Pump(input, acks, ErrorOnly).stop.WriteStop?
    ensures r.log != Some(Error)
    ensures r.closed <==> r.log.Some? || r.status.Some?
  {
    var p := Pump(input, acks, ErrorOnly);
    match p.stop
    case Blocked => LoopEnd(p.forwarded, None, None, false)
    case ReadStop(e) =>
      if UnexpectedClose(e) then LoopEnd(p.forwarded, None, Some(StatusCloseError), true)
      else LoopEnd(p.forwarded, Some(Notice), None, true)
    case WriteStop(_, _) => LoopEnd(p.forwarded, Some(Warning), None, true)
  }

  /** The root backend-to-client loop: always binary frames, otherwise the
      newer `backend`. */
  function RootTcpToWs(input: seq<Read<SockReadError>>, acks: seq<Write>): (r: LoopEnd<Frame>)
    ensures forall i :: 0 <= i < |r.sent| ==> r.sent[i].kind == BinaryMessage
  {
    var p := Pump(input, acks, ErrorOnly);
    var sent := AsFrames(BinaryMessage, p.forwarded);
    match p.stop
    case Blocked => LoopEnd(sent, None, None, false)
    case ReadStop(e) => LoopEnd(sent, if e == EndOfStream then Some(Notice) else None, None, true)
    case WriteStop(_, _) => LoopEnd(sent, Some(Error), None, true)
  }

  lemma RootTcpToWsAgrees(input: seq<Read<SockReadError>>, acks: seq<Write>)
    ensures RootTcpToWs(input, acks) == Backend(input, acks, BinaryMessage)
  {
  }

  /** No write reported short: every accepted write took its whole chunk. */
  predicate WholeWrites<E>(input: seq<Read<E>>, acks: seq<Write>) {
    forall i :: 0 <= i < |input| && i < |acks| && input[i].Data? ==>
      acks[i].failed || acks[i].n >= |input[i].bytes|
  }

  /** When no write is short the two client-to-backend loops forward the
      same data and stop at the same point; they differ only in how an
      unexpected close is reported: an error line in the newer one, a 503
      request record in the root one. */
  lemma RootWsToTcpAgrees(input: seq<Read<WsReadError>>, acks: seq<Write>)
    requires WholeWrites(input, acks)
    ensures RootWsToTcp(input, acks).sent == Frontend(input, acks).sent
    ensures RootWsToTcp(input, acks).closed == Frontend(input, acks).closed
    ensures RootWsToTcp(input, acks).status.Some? <==> Frontend(input, acks).log == Some(Error)
  {
    PolicyIrrelevant(input, acks);
  }

  /** With whole writes the write policy does not matter. */
  lemma PolicyIrrelevant<E>(input: seq<Read<E>>, acks: seq<Write>)
    requires WholeWrites(input, acks)
    ensures Pump(input, acks, ErrorOnly) == Pump(input, acks, ShortWriteFatal)
  {
    PumpUnique(input, acks, ShortWriteFatal, Pump(input, acks, ErrorOnly));
  }

  /** A short write without an error stops the newer loop but not the root
      one, which goes on as if the whole chunk had been written. */
  lemma ShortWriteDiffers(d: Bytes, n: nat, input: seq<Read<WsReadError>>, acks: seq<Write>)
    requires n < |d|
    requires |input| > 0 && input[0] == Data(d) && |acks| > 0 && acks[0] == Write(n, false)
    ensures Frontend(input, acks).sent == [] && Frontend(input, acks).log == Some(Warning)
    ensures |RootWsToTcp(input, acks).sent| >= 1 && RootWsToTcp(input, acks).sent[0] == d
  {
  }
}
