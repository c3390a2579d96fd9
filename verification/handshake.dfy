/** handleWs of wsproxy/handle.go: one HTTP request, from the WebSocket
    upgrade to a session stored in the registry. The outside world (the
    checksum, the clock reading, the upgrade, the decryption and the dial)
    is given as an `Env`. */
module Handshake {
  import opened Wrappers
  import opened GoInt
  import opened Strs
  import opened Config
  import opened Hash
  import opened Token
  import opened Frames
  import opened Sessions
  import opened LogRecord

  /** upgrader.Upgrade: the request was not a WebSocket handshake (a
      websocket.HandshakeError), the upgrade failed otherwise, or it gave
      the connection `ws`. */
  datatype Upgrade = NotWebSocket | UpgradeFailed | Upgraded(ws: nat)

  /** net.DialTimeout: a net.Error whose Timeout() holds, any other error,
      or the connection. */
  datatype Dial = DialTimedOut | DialRefused | Dialed(conn: Conn)

  /** The status codes handle.go declares for its request records. */
  const StatusOK: int := 200
  const StatusDialError: int := 502
  const StatusCloseError: int := 503
  const StatusDialTimeout: int := 504

  /** What one request meets outside the program: the CRC-32 checksum, the
      text of time.Now() when the request came in, the upgrade outcome,
      aes256cbc.DecryptString (None for an error), the dial of an address,
      and the host part net.SplitHostPort takes from an address. */
  datatype Env = Env(
    crc: string -> Uint32,
    stamp: string,
    upgrade: Upgrade,
    decrypt: (string, string) -> Option<string>,
    dial: string -> Dial,
    hostOf: string -> string)

  /** Why a request that was upgraded got no backend connection before the
      dial: the token split panicked, or decryption failed on `token`. */
  datatype Refusal = TokenPanic(panic: SplitPanic) | DecryptFailed(token: string)

  /** The backend address of a request (handle.go:95-113): the token taken
      from the form value under -frkey is decrypted with the passphrase and
      the plaintext is trimmed. A decryption error wins over the plaintext. */
  function Target(secret: string, split: Option<SplitRule>, formKey: string, r: Request,
                  decrypt: (string, string) -> Option<string>): (t: Result<string, Refusal>)
    ensures Extract(split, FormValue(r, formKey)).Err? ==>
              t == Err(TokenPanic(Extract(split, FormValue(r, formKey)).error))
    ensures Extract(split, FormValue(r, formKey)).Ok? ==>
              var token := Extract(split, FormValue(r, formKey)).value;
              && (t.Ok? <==> decrypt(secret, token).Some?)
              && (t.Err? ==> t.error == DecryptFailed(token))
              && (t.Ok? ==> exists a :: TrimmedAt(decrypt(secret, token).value, t.value, a))
    ensures t.Ok? && |t.value| > 0 ==> !IsSpace(t.value[0]) && !IsSpace(t.value[|t.value| - 1])
  {
    match Extract(split, FormValue(r, formKey))
    case Err(p) => Err(TokenPanic(p))
    case Ok(token) =>
      match decrypt(secret, token)
      case None => Err(DecryptFailed(token))
      case Some(plain) => Ok(TrimSpace(plain))
  }

  /** How a request ended. The upgrade failed (logged as a warning unless
      the request was no handshake); the registry was full (the client gets
      the JSON error and its connection is closed); the token was refused,
      with an error line when decryption failed (a split panic is left to
      net/http's recovery and the program's logger writes nothing); the dial
      failed, with the request record of that status; or a session
      was admitted, with its request record. */
  datatype Outcome =
    | NoSession(log: Option<Level>)
    | Rejected
    | Refused(why: Refusal, log: Option<Level>)
    | NotConnected(status: int, record: Record)
    | Admitted(worker: Worker, record: Record)

  datatype Handled = Handled(outcome: Outcome, reg: Registry)

  /** The dial stage of handleWs (handle.go:122-140): a timeout gives a 504
      record and any other dial error a 502 record, both without a local
      address; a connection gives the worker and a 200 record. */
  function Connect(hash: string, format: MessageType, ws: nat, r: Request, hostOf: string -> string,
                   raddr: string, d: Dial): (o: Outcome)
    ensures o.Admitted? <==> d.Dialed?
    ensures o.NotConnected? <==> !d.Dialed?
    ensures o.NotConnected? ==>
              && (o.status == StatusDialTimeout <==> d == DialTimedOut)
              && (o.status == StatusDialError <==> d == DialRefused)
              && o.record == Build(None, r, hostOf, raddr, o.status, hash)
              && o.record.serverAddrPort == NoAddr
    ensures o.Admitted? ==>
              && o.worker == Worker(hash, format, ws, d.conn.id)
              && o.record == Build(Some(d.conn), r, hostOf, raddr, StatusOK, hash)
    ensures o.record.targetAddrPort == OrElse(raddr, NoAddr) && o.record.hashcode == OrElse(hash, Dash)
  {
    match d
    case DialTimedOut => NotConnected(StatusDialTimeout, Build(None, r, hostOf, raddr, StatusDialTimeout, hash))
    case DialRefused => NotConnected(StatusDialError, Build(None, r, hostOf, raddr, StatusDialError, hash))
    case Dialed(conn) => Admitted(Worker(hash, format, ws, conn.id), Build(Some(conn), r, hostOf, raddr, StatusOK, hash))
  }

  /** How handleWs answers a request, in source order: session key,
      upgrade, capacity check (`full` says whether the registry was at its
      ceiling), token and decryption, frame format, dial. Nothing is dialed
      unless the client was upgraded, the registry had room and the token
      decrypted. */
  function Respond(w: Width, s: Settings, full: bool, r: Request, env: Env): (o: Outcome)
    ensures !env.upgrade.Upgraded? ==>
              o == NoSession(if env.upgrade == UpgradeFailed then Some(Warning) else None)
    ensures env.upgrade.Upgraded? && full ==> o == Rejected
    ensures o.Refused? <==>
              env.upgrade.Upgraded? && !full && Target(s.secret, s.split, s.formKey, r, env.decrypt).Err?
    ensures o.Refused? ==> o.why == Target(s.secret, s.split, s.formKey, r, env.decrypt).error
    ensures o.Refused? ==> (o.log == Some(Error) <==> o.why.DecryptFailed?) && (o.log.None? <==> o.why.TokenPanic?)
    ensures o.NotConnected? || o.Admitted? <==>
              env.upgrade.Upgraded? && !full && Target(s.secret, s.split, s.formKey, r, env.decrypt).Ok?
    ensures o.NotConnected? || o.Admitted? ==>
              var raddr := Target(s.secret, s.split, s.formKey, r, env.decrypt).value;
              o == Connect(SessionKey(w, env.crc, r.remoteAddr, env.stamp), SelectFormat(s.stream),
                           env.upgrade.ws, r, env.hostOf, raddr, env.dial(raddr))
  {
    var hash := SessionKey(w, env.crc, r.remoteAddr, env.stamp);
    match env.upgrade
    case NotWebSocket => NoSession(None)
    case UpgradeFailed => NoSession(Some(Warning))
    case Upgraded(ws) =>
      if full then Rejected
      else match Target(s.secret, s.split, s.formKey, r, env.decrypt)
        case Err(why) => Refused(why, if why.DecryptFailed? then Some(Error) else None)
        case Ok(raddr) => Connect(hash, SelectFormat(s.stream), ws, r, env.hostOf, raddr, env.dial(raddr))
  }

  /** The frame format a started gateway uses is decided by the normalised
      -stream flag: "bin" (in any letter case) gives binary frames, and
      "text" gives text frames. */
  lemma StartedFormat(w: Width, f: Flags)
    requires Main(w, f).Ok?
    ensures SelectFormat(Main(w, f).value.stream) == BinaryMessage <==> Init(w, f).stream == "bin"
    ensures SelectFormat(Main(w, f).value.stream) == TextMessage <==> Init(w, f).stream == "text"
  {
  }

  /** handleWs: the answer above, with the capacity test
      `len(pool) >= max_connections` taken on the registry; the registry
      changes only when a session is admitted, and then exactly by storing
      that worker under its key. */
  function HandleWs(w: Width, s: Settings, reg: Registry, r: Request, env: Env): (h: Handled)
    ensures h.outcome == Respond(w, s, Full(reg), r, env)
    ensures h.outcome.Admitted? ==> h.reg == Insert(reg, h.outcome.worker)
    ensures !h.outcome.Admitted? ==> h.reg == reg
  {
    var o := Respond(w, s, Full(reg), r, env);
    if o.Admitted? then Handled(o, Insert(reg, o.worker)) else Handled(o, reg)
  }

  /** Every admitted session's record says 200, and its key is the request's
      session key, which is all digits. */
  lemma AdmittedRecord(w: Width, s: Settings, reg: Registry, r: Request, env: Env)
    requires HandleWs(w, s, reg, r, env).outcome.Admitted?
    ensures var o := HandleWs(w, s, reg, r, env).outcome;
            && o.record.status == Strconv.Itoa(StatusOK)
            && o.record.hashcode == o.worker.key
            && |o.worker.key| >= 1 && Strconv.AllDigits(o.worker.key)
  {
  }

  // ---------------------------------------------------------------------
  // The registry across requests and releases.

  /** The bound the capacity check keeps: an empty pool, or no more sessions
      than the ceiling. (A ceiling below zero admits nobody.) */
  predicate WithinCeiling(reg: Registry) {
    |reg.pool| == 0 || |reg.pool| <= reg.maxConnections
  }

  /** One request never takes the pool over the ceiling, and keeps every
      worker stored under its own key. */
  lemma HandleKeepsCeiling(w: Width, s: Settings, reg: Registry, r: Request, env: Env)
    requires WithinCeiling(reg)
    ensures WithinCeiling(HandleWs(w, s, reg, r, env).reg)
    ensures KeysMatch(reg) ==> KeysMatch(HandleWs(w, s, reg, r, env).reg)
  {
    var h := HandleWs(w, s, reg, r, env);
    if h.outcome.Admitted? {
      InsertWithinCeiling(reg, h.outcome.worker);
    }
  }

  /** What happens to the registry, one event at a time: a request comes in,
      or a worker's loop stops and releases its key. */
  datatype Event = Incoming(r: Request, env: Env) | Closed(key: string)

  function Apply(w: Width, s: Settings, reg: Registry, e: Event): (r: Registry)
    ensures r.maxConnections == reg.maxConnections
    ensures e.Closed? ==> e.key !in r.pool
  {
    match e
    case Incoming(req, env) => HandleWs(w, s, reg, req, env).reg
    case Closed(key) => Release(reg, key)
  }

  /** The registry after a series of events taken one at a time. */
  function Run(w: Width, s: Settings, reg: Registry, events: seq<Event>): (r: Registry)
    ensures r.maxConnections == reg.maxConnections
    decreases |events|
  {
    if |events| == 0 then reg else Run(w, s, Apply(w, s, reg, events[0]), events[1..])
  }

  /** Starting from `main`'s registry (empty, ceiling set from -max_conns),
      no series of requests and releases takes the pool over the ceiling or
      stores a worker under another worker's key. */
  lemma {:induction false} RunKeepsCeiling(w: Width, s: Settings, reg: Registry, events: seq<Event>)
    requires WithinCeiling(reg) && KeysMatch(reg)
    ensures WithinCeiling(Run(w, s, reg, events)) && KeysMatch(Run(w, s, reg, events))
    decreases |events|
  {
    if |events| > 0 {
      var next := Apply(w, s, reg, events[0]);
      if events[0].Incoming? {
        HandleKeepsCeiling(w, s, reg, events[0].r, events[0].env);
      }
      RunKeepsCeiling(w, s, next, events[1..]);
    }
  }

  lemma StartWithinCeiling(n: int)
    ensures WithinCeiling(SetMaxConns(Initial(), n)) && KeysMatch(SetMaxConns(Initial(), n))
  {
  }
}
