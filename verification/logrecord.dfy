/** The per-request log record: `log` in wsproxy/log.go (and its twin
    `logHandle` in the root wsproxy.go) fills every field, putting "-" or
    "-:nil" where the request or the connection has nothing to say. */
module LogRecord {
  import opened Wrappers
  import GoInt
  import opened Strs
  import opened Strconv
  import opened Ternary

  /** The parts of an *http.Request the gateway reads. Header names are
      canonical (as http.CanonicalHeaderKey writes them). */
  datatype Request = Request(
    httpMethod: string,
    requestUri: string,
    proto: string,
    remoteAddr: string,
    header: map<string, string>,
    form: map<string, string>)

  /** A dialed backend connection: an identity and c.LocalAddr().String(). */
  datatype Conn = Conn(id: nat, localAddr: string)

  /** r.Header.Get: the header's value, "" when absent. */
  function HeaderGet(r: Request, name: string): string {
    if name in r.header then r.header[name] else ""
  }

  /** r.FormValue: the form value for `key`, "" when absent. */
  function FormValue(r: Request, key: string): string {
    if key in r.form then r.form[key] else ""
  }

  const RealIpHeader := "X-Real-Ip"
  const ForwardedForHeader := "X-Forwarded-For"
  const UserAgentHeader := "User-Agent"

  /** The placeholder for an absent header or hash. */
  const Dash := "-"
  /** The placeholder for an absent address. */
  const NoAddr := "-:nil"

  /** The logger levels the gateway writes lines at. */
  datatype Level = Notice | Warning | Error

  /** LogStruck without the request duration. */
  datatype Record = Record(
    remoteAddr: string,
    serverAddrPort: string,
    targetAddrPort: string,
    request: string,
    status: string,
    userAgent: string,
    realIp: string,
    forwardedFor: string,
    hashcode: string)

  /** A value, or `placeholder` when the value is empty. */
  function OrElse(value: string, placeholder: string): (r: string)
    ensures value != "" ==> r == value
    ensures value == "" ==> r == placeholder
  {
    If(value == "", placeholder, value)
  }

  /** The request line "Method RequestURI Proto". */
  function RequestLine(r: Request): (line: string)
    ensures |line| == |r.httpMethod| + |r.requestUri| + |r.proto| + 2
  {
    r.httpMethod + " " + r.requestUri + " " + r.proto
  }

  /** `log(c, r, raddr, runTime, stCode, hashCode)`: `c` is None for a nil
      connection, `hostOf` stands for net.SplitHostPort's host result. Every
      header-derived field and the hash are never empty. */
  function Build(c: Option<Conn>, r: Request, hostOf: string -> string,
                 raddr: string, stCode: int, hash: string): (rec: Record)
    ensures rec.remoteAddr == hostOf(r.remoteAddr)
    ensures rec.realIp == OrElse(HeaderGet(r, RealIpHeader), Dash)
    ensures rec.forwardedFor == OrElse(HeaderGet(r, ForwardedForHeader), Dash)
    ensures rec.userAgent == OrElse(HeaderGet(r, UserAgentHeader), Dash)
    ensures rec.hashcode == OrElse(hash, Dash)
    ensures c.None? ==> rec.serverAddrPort == NoAddr
    ensures c.Some? ==> rec.serverAddrPort == OrElse(c.value.localAddr, NoAddr)
    ensures rec.targetAddrPort == OrElse(raddr, NoAddr)
    ensures rec.request == RequestLine(r)
    ensures |rec.status| >= 1 && (rec.status[0] == '0' ==> rec.status == "0")
    ensures stCode >= 0 ==> AllDigits(rec.status) && Value(rec.status) == stCode
    ensures Atoi(GoInt.W64, rec.status) == Parsed(stCode, None) || !GoInt.InIntRange(GoInt.W64, stCode)
    ensures rec.realIp != "" && rec.forwardedFor != "" && rec.userAgent != "" && rec.hashcode != ""
    ensures rec.serverAddrPort != "" && rec.targetAddrPort != "" && rec.status != ""
  {
    var localAddr := if c.Some? then c.value.localAddr else "";
    StatusReadsBack(stCode);
    Record(
      hostOf(r.remoteAddr),
      If(localAddr == "", NoAddr, localAddr),
      If(raddr == "", NoAddr, raddr),
      RequestLine(r),
      Itoa(stCode),
      If(HeaderGet(r, UserAgentHeader) == "", Dash, HeaderGet(r, UserAgentHeader)),
      If(HeaderGet(r, RealIpHeader) == "", Dash, HeaderGet(r, RealIpHeader)),
      If(HeaderGet(r, ForwardedForHeader) == "", Dash, HeaderGet(r, ForwardedForHeader)),
      If(hash == "", Dash, hash))
  }

  lemma StatusReadsBack(stCode: int)
    ensures GoInt.InIntRange(GoInt.W64, stCode) ==> Atoi(GoInt.W64, Itoa(stCode)) == Parsed(stCode, None)
  {
    if GoInt.InIntRange(GoInt.W64, stCode) {
      AtoiItoa(GoInt.W64, stCode);
    }
  }

  /** The request line splits back on ' ' into method, URI and protocol
      whenever none of the three holds a space. */
  lemma RequestLineSplits(r: Request)
    requires ' ' !in r.httpMethod && ' ' !in r.requestUri && ' ' !in r.proto
    ensures Split(RequestLine(r), " ") == [r.httpMethod, r.requestUri, r.proto]
  {
    SplitThree(r.httpMethod, r.requestUri, r.proto, ' ');
    assert RequestLine(r) == r.httpMethod + [' '] + r.requestUri + [' '] + r.proto;
  }
}
