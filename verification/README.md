# wsproxy in Dafny

wsproxy is a WebSocket-to-TCP gateway. A client opens a WebSocket and passes
an AES-encrypted backend address (`host:port`) as a form value. The gateway
does the following:

- decrypts the address with the passphrase given on the command line;
- dials the backend over TCP;
- relays data both ways until either side stops;
- gives each session a numeric correlation key, derived from the client address and the arrival time;
- writes one request record per dial attempt, in the style of an nginx access log.

The repository holds two versions of the gateway:

- the `wsproxy/` package: flags and startup in `wsproxy.go`, the handshake, the session pool and the two relay loops in `handle.go`, the record builder in `log.go`, and the helpers in `hash_crc32.go` and `if_tom.go`;
- an older single-file gateway, `wsproxy.go` at the top of the repository.

The older version has the same key and record logic. It has no session pool and no connection ceiling, and its frames are always binary.

The model is written with pure functions over immutable data:

| module | file | models |
|---|---|---|
| `Wrappers` | wrappers.dfy | `Option`/`Result` |
| `GoInt` | goint.dfy | Go's `int`/`uint` of 32 or 64 bits: conversions that wrap, and negation that overflows |
| `Strconv` | strconv.dfy | `strconv.Itoa`, `ParseUint`, `ParseInt`, `Atoi` in base 10, with their `(value, err)` pairs |
| `Strs` | strs.dfy | `strings.TrimSpace`, `Replace`, `ToLower`, `Index`/`Contains`, `Split` |
| `Hash` | hash.dfy | `hashCode` / `hashCodes` and the session key |
| `Ternary` | ternary.dfy | `If` |
| `Config` | config.dfy | the flags, `init` and `main` of `wsproxy/wsproxy.go` |
| `LogRecord` | logrecord.dfy | `LogStruck` and `log` |
| `Token` | token.dfy | how the encrypted token is taken from the form value |
| `Frames` | frames.dfy | the choice of frame format |
| `Sessions` | sessions.dfy | `pool`, `max_connections`, `setMaxConns`, `release` |
| `Relay` | relay.dfy | the `frontend` and `backend` loops, as a machine over a trace of reads and write results |
| `Handshake` | handshake.dfy | `handleWs` and the registry over a series of requests and releases |
| `Root` | root.dfy | the older gateway's flags, `init`, `main`, `logHandle`, `handleWs` and relay loops, each tied to its newer counterpart by an agreement lemma |

Some things are not computed by the model. Each one is a parameter or a datatype case:

- the CRC-32 checksum: a function `string -> Uint32`;
- the text of `time.Now()`: a string;
- the outcome of the WebSocket upgrade: `NotWebSocket`, `UpgradeFailed` or `Upgraded`;
- `aes256cbc.DecryptString`: a partial function;
- `net.DialTimeout`: timed out, refused, or connected;
- the host that `net.SplitHostPort` takes from an address: a function.

The platform's word size (`W32`/`W64`) is a parameter wherever Go's `int` or `uint` width matters.

A relay loop is modelled as a function of two sequences. One holds the reads the loop makes, each either data or an error. The other holds the results of the writes it issues. `Relay.Pump` consumes both in step and reports two things: what was forwarded, and why it stopped. A loop may also stop with its input still open, because a write never completed. `Relay.Runs` characterises the result independently. `Relay.PumpUnique` proves that the characterisation determines it.

Where the project's prose description and the code differ, the code is followed. The main differences:

- A failed decryption ends the request with an error line and no request record (the `log` of `Refused`).
- Before `main` runs, the ceiling is 65535. The default of `-max_conns` is 64*1024 = 65536.
- `handleWs` tests the ceiling before the token is decrypted and the backend is dialed, and stores the session afterwards. So only requests taken one at a time are shown to keep the pool within the ceiling.
- `release` deletes by key. A session released late removes a newer session stored under the same key (`Sessions.StaleReleaseEvicts`).
- The 503 status is declared in `wsproxy/handle.go` and never used there. The older gateway emits a 503 request record when a client connection closes unexpectedly.
- The newer `frontend` treats a short write as fatal. The older loop looks only at the write error (`Root.ShortWriteDiffers`). The difference is only in the text of the code. `bufio.Writer.Write`, and `net.Conn` writes under io.Writer's rule, always return an error when they write less than the whole chunk. So a short write with no error does not happen at run time, and the two checks stop the loops at the same writes (`Root.PolicyIrrelevant`).
- `hashCodes` joins its strings with '-' as a suffix, so lists that differ only in where the dashes fall get the same key (`Hash.DashCollision`).
- A read error that is not a WebSocket close error is never "unexpected", so the client-side loops log it as a notice.
- The `-frkey` pattern `^[a-z]+[0-9]*` is anchored only at the start, so it checks nothing past the first character (`Config.KeyPatternFirstLetter`).

## Model

| member | source | states |
|---|---|---|
| GoInt.ToInt | wsproxy/hash_crc32.go:21 | `int(x)` lands in the platform's int range, is congruent to x modulo 2^bits, is x itself when x fits, and is x - 2^bits for the upper half of `uint` |
| GoInt.ToUint | wsproxy/wsproxy.go:72 | a `uint` result is the exact value reduced modulo 2^bits, and unchanged when it fits |
| GoInt.Negate | wsproxy/hash_crc32.go:25-27 | unary minus negates every int exactly, except math.MinInt, which stays math.MinInt |
| Hash.HashCode | wsproxy/hash_crc32.go:20-30 | the key number is never negative. It equals the checksum when that fits an int. On 32 bits a checksum above 2^31 gives 2^32 minus the checksum, and 2^31 gives 0 |
| Hash.HashCodes | wsproxy/hash_crc32.go:33-41 | the key is the decimal rendering of the hashCode of the '-'-suffixed concatenation: non-empty, all digits, no leading zero, and of that value. Atoi reads it back with no error |
| Hash.SessionKey | wsproxy/handle.go:47-48 | the session key of `RemoteAddr_time` is the decimal rendering, with no leading zero, of the hashCode of that text followed by '-'. Atoi reads it back with no error |
| Hash.HashCode64 | wsproxy.go:90-100 | on a 64-bit platform the key number is the checksum itself |
| Hash.Suffixed | wsproxy/hash_crc32.go:36-38 | the text handed to the checksum: each string followed by '-'. It is at least one character per string and ends in '-' when the list is not empty. Its meaning is fixed by SuffixedAppend and SuffixedInjective |
| Hash.SuffixedAppend | wsproxy/hash_crc32.go:36-38 | the hashed text of a concatenated list is the concatenation of the lists' texts |
| Hash.EmptyListKey | wsproxy.go:103-110 | an empty list hashes the empty text |
| Hash.SameTextSameKey | wsproxy/hash_crc32.go:33-41 | lists with the same suffixed text get the same key |
| Hash.DashCollision | wsproxy/hash_crc32.go:36-40 | `["a-b"]` and `["a", "b"]` get the same key |
| Hash.SuffixedInjective | wsproxy/hash_crc32.go:36-38 | for lists whose strings hold no '-', the hashed text determines the list |
| Ternary.If | wsproxy/if_tom.go:12-17 | the first value when the condition holds, the second otherwise |
| Ternary.IfSame | wsproxy.go:113-118 | with equal branches the result is that value, whatever the condition |
| Ternary.IfNegate | wsproxy/if_tom.go:12-17 | negating the condition swaps the branches |
| Strconv.Itoa | wsproxy/log.go:86 | the rendering is the digits of the value, or a '-' followed by the digits of its magnitude, with no leading zero ("0" only for 0) |
| Strconv.ParseUint | wsproxy/wsproxy.go:101 | an empty text is a syntax error. Digits give their value when it fits, and the maximum with a range error when it does not. Otherwise the first non-digit gives a syntax error, or a range error if the digits before it had already overflowed |
| Strconv.ParseInt | wsproxy/wsproxy.go:101 | equals the reference reading IntReading, which is stated from the leading digits and not from the loop. The digits after an optional sign are read at 64 bits on every platform. If they overflow 64 bits, the answer is math.MaxInt, or math.MinInt after a '-', with a range error, even when a non-digit follows. Otherwise any non-digit is a syntax error with value 0. An integer text gives its number, clamped with a range error when it does not fit the platform |
| Strconv.Atoi | wsproxy/wsproxy.go:101 | the same pair as ParseInt: it equals IntReading, clamps every range error to the bound on the sign's side, and gives a syntax error with value 0 exactly for non-integer text whose leading digits fit 64 bits |
| Strconv.OverflowThenLetter | wsproxy/wsproxy.go:101 | digits that overflow 64 bits followed by a non-digit give math.MaxInt with a range error, because the digit loop stops at the overflow before it reaches the non-digit |
| Strconv.WideDigitsThenLetter | wsproxy/wsproxy.go:101 | on a 32-bit platform, `Atoi("5000000000x")` is a syntax error with value 0, not a range error |
| Strconv.AtoiItoa | wsproxy/log.go:86 | Atoi(Itoa(v)) gives v back with no error, for every int of the platform |
| Strs.TrimSpace | wsproxy/handle.go:98 | the result is a slice of the input whose dropped ends are all white space, and it neither starts nor ends with white space |
| Strs.TrimSpaceTrimmed | wsproxy/handle.go:109 | a string that already starts and ends with a non-space is its own trim |
| Strs.TrimSpaceIdempotent | wsproxy/handle.go:109 | trimming twice is trimming once |
| Strs.ReplaceChar | wsproxy/handle.go:97 | every occurrence of the old character becomes the new one, and every other character is kept in place |
| Strs.RemoveChar | wsproxy/wsproxy.go:73 | a one-character string loses the character or is kept. The character is gone from the result, the other characters occur as before, and the length drops by its count |
| Strs.RemoveCharAppend | wsproxy/wsproxy.go:73 | removal of a concatenation is the concatenation of the removals. With the one-character case, this means the other characters are kept in order |
| Strs.RemoveCharAbsent | wsproxy/wsproxy.go:73 | removing a character that does not occur changes nothing |
| Strs.ToLower | wsproxy/wsproxy.go:75 | same length, each ASCII capital lowered, every other character kept, and no ASCII capital left |
| Strs.ToLowerIdempotent | wsproxy/wsproxy.go:76 | lowering twice is lowering once |
| Strs.Index | wsproxy/handle.go:102 | the position found is an occurrence and no earlier one exists; None exactly when there is none |
| Strs.Split | wsproxy/handle.go:103 | the pieces joined by the separator give the input back, and there is at least one piece. No piece holds a non-empty separator. No occurrence starts inside a piece and runs into the separator after it, so each cut is at the leftmost occurrence |
| Strs.SplitCharCount | wsproxy/wsproxy.go:95 | splitting on a character gives one more piece than it has occurrences |
| Strs.SplitOnce | wsproxy/wsproxy.go:95-101 | with exactly one comma, the two pieces are the text before it and the text after it |
| Strs.SplitThree | wsproxy/log.go:85 | three space-free parts joined by spaces split back into those parts |
| Config.Defaults | wsproxy/wsproxy.go:28-34 | buffer 1024, at most 64*1024 connections, format "bin", form key "token", no split marker, a 3 second dial |
| Config.Init | wsproxy/wsproxy.go:70-76 | `init` wraps the nanosecond timeout as a `uint`, strips spaces from -fsplit, trims and lowers -frkey, lowers -stream, and changes nothing else |
| Config.InitFsplit | wsproxy/wsproxy.go:73 | after `init`, -fsplit holds no space, and a flag without spaces is unchanged. At every cut of the flag, the result is what is left of the text before the cut followed by what is left of the text after it |
| Config.InitFrkey | wsproxy/wsproxy.go:74-75 | after `init`, -frkey has no white space at its ends and no ASCII capital |
| Config.InitStream | wsproxy/wsproxy.go:76 | after `init`, -stream is the flag lowered letter by letter |
| Config.InitIdempotent | wsproxy/wsproxy.go:73-76 | a second `init` leaves the normalised strings as they are |
| Config.ParseFsplit | wsproxy/wsproxy.go:94-108 | an empty -fsplit means no split. Otherwise it is accepted exactly when it holds one comma and does not start with it. The marker is the text before the comma. The index is Atoi of the rest with its error ignored: the number when it fits, 0 for a non-number whose leading digits fit 64 bits, and math.MaxInt or math.MinInt, by sign, when they do not |
| Config.FsplitAccepts | wsproxy/wsproxy.go:94-101 | a comma-free non-empty marker, one comma and a comma-free rest are accepted, with Atoi of the rest as the index |
| Config.FsplitOverflowIndex | wsproxy/wsproxy.go:100-101 | `marker,<digits over 64 bits>x` gives index math.MaxInt, not 0 |
| Config.KeyPatternFirstLetter | wsproxy/wsproxy.go:110-113 | `^[a-z]+[0-9]*` matches exactly the keys whose first character is a lower-case ASCII letter |
| Config.Main | wsproxy/wsproxy.go:83-121 | startup succeeds exactly when the passphrase is set, -fsplit parses, -frkey starts with a lower-case letter and -stream is "bin" or "text". A missing passphrase is reported first. On success it hands on the normalised flags: the passphrase, the split rule, the form key, the lowered -stream, the dial timeout in nanoseconds, the address and the buffer size. The ceiling is `int(-max_conns)` |
| Config.DefaultsStart | wsproxy/wsproxy.go:28-34 | the defaults plus a passphrase start the gateway with a ceiling of 65536 |
| Config.HugeMaxConnsWraps | wsproxy/wsproxy.go:121 | a -max_conns above the int range wraps to a negative ceiling |
| LogRecord.OrElse | wsproxy/log.go:81-84 | a non-empty value is kept and an empty one becomes the placeholder |
| LogRecord.RequestLine | wsproxy/log.go:85 | the request line is the three parts plus two separators long |
| LogRecord.Build | wsproxy/log.go:67-100 | every record field comes from the request, the connection, the address and the hash, with "-" or "-:nil" for an empty value. The status is the decimal rendering of the code, with no leading zero, and reads back as the code. No field but the remote host is empty |
| LogRecord.StatusReadsBack | wsproxy/log.go:86 | the status text reads back as the status code |
| LogRecord.RequestLineSplits | wsproxy/log.go:85 | a request line splits back into method, URI and protocol when none holds a space |
| Token.Normalize | wsproxy/handle.go:96-98 | the token has no space. Each kept character is the form value's character, with ' ' as '+'. Only white space other than ' ' is dropped, from the two ends |
| Token.Extract | wsproxy/handle.go:101-105 | without a rule, or with the marker absent, the token is the normalised value. Otherwise it is the piece at the index, or an index-out-of-range panic when the index is not a piece number |
| Token.MarkerPresentPieces | wsproxy/handle.go:102-103 | with a non-empty marker present there are at least two pieces |
| Token.ExtractedIsPiece | wsproxy/handle.go:103 | the extracted token is one of the pieces that join back into the normalised token |
| Frames.SelectFormat | wsproxy/handle.go:115-120 | "bin" selects binary frames and every other format selects text frames |
| Sessions.Initial | wsproxy/handle.go:25-28 | the registry starts empty with a ceiling of 65535 |
| Sessions.SetMaxConns | wsproxy/handle.go:37 | the ceiling becomes n and the pool is untouched |
| Sessions.Insert | wsproxy/handle.go:143-144 | the worker is stored under its key and no other entry changes. The pool grows only for a new key, and keys keep matching their workers |
| Sessions.Release | wsproxy/handle.go:161-168 | the key is gone and no other entry changes. An absent key changes nothing |
| Sessions.ReleaseTwice | wsproxy/handle.go:161-168 | a second release changes nothing |
| Sessions.Full | wsproxy/handle.go:87 | the admission test `len(pool) >= max_connections`. A ceiling of zero or below refuses every request, even on an empty pool |
| Sessions.ReleaseMakesRoom | wsproxy/handle.go:87 | releasing a stored session from a pool at its ceiling lets the next request pass the test |
| Sessions.InsertWithinCeiling | wsproxy/handle.go:87-93 | storing into a registry that passed the capacity test stays within the ceiling |
| Sessions.InsertThenRelease | wsproxy/handle.go:144 | releasing a fresh worker undoes its insertion |
| Sessions.StaleReleaseEvicts | wsproxy/handle.go:166 | releasing the first of two sessions with one key removes the second one's entry |
| Relay.Pump | wsproxy/handle.go:175-193 | the loop's result satisfies `Runs`: the forwarded chunks are a prefix of the data read, each was written without a fatal result, and the loop stopped at the first read error or fatal write, or blocked |
| Relay.PumpUnique | wsproxy/handle.go:175-193 | `Runs` determines the loop's result: any result it accepts is the one the loop gives |
| Relay.PumpExtend | wsproxy/handle.go:201-246 | more reads and writes only extend what was forwarded, and a loop that already stopped is unaffected |
| Relay.UnexpectedClose | wsproxy/handle.go:225-228 | `websocket.IsUnexpectedCloseError(err, 1000, 1001, 1005)`. An abrupt close (1006) is unexpected, and a plain error is never unexpected |
| Relay.CloseCodeLevel | wsproxy/handle.go:223-243 | a first read that is a close frame is logged as a notice for codes 1000, 1001 and 1005, and as an error for any other code |
| Relay.Frontend | wsproxy/handle.go:199-249 | an unexpected close is logged as an error, any other read error as a notice, and a failed or short write as a warning. The loop releases exactly when it logged |
| Relay.Backend | wsproxy/handle.go:172-196 | the frames are the chunks read, in the worker's format. EOF is logged as a notice and a failed message write as an error. A stopped loop logs nothing exactly when another read error stopped it, and nothing is ever a warning |
| Relay.BackendSendsReads | wsproxy/handle.go:187 | each frame carries the worker's format and the chunk read at its position |
| Relay.FrontendWritesWhole | wsproxy/handle.go:239-244 | a chunk counts as forwarded only when the socket took all of it without an error |
| Relay.AfterLoops | wsproxy/handle.go:161-168 | whichever loops stopped, the registry afterwards is one release of the key, or is untouched when neither loop stopped |
| Relay.LoopEndReleases | wsproxy/handle.go:195-248 | once either loop stopped, the worker's key is gone, the other sessions are untouched, and the pool shrank by at most one |
| Handshake.Target | wsproxy/handle.go:95-113 | a token panic or a failed decryption refuses the request. Otherwise the address is the decrypted text, trimmed |
| Handshake.Connect | wsproxy/handle.go:122-140 | a timeout gives a 504 record and any other dial error a 502 record, both without a local address. A connection gives the worker and a 200 record |
| Handshake.Respond | wsproxy/handle.go:46-140 | no upgrade gives no session, with a warning only for a failed upgrade. A full registry rejects. A token or decryption failure refuses, with an error line exactly for a decryption failure. Only then is the backend dialed, with the session key and the selected format |
| Handshake.StartedFormat | wsproxy/handle.go:115-120 | a started gateway sends binary frames exactly when the lowered -stream is "bin", and text frames exactly when it is "text" |
| Handshake.HandleWs | wsproxy/handle.go:46-147 | the registry changes only for an admitted session, and then exactly by storing that worker |
| Handshake.AdmittedRecord | wsproxy/handle.go:137-140 | an admitted session's record says 200 and carries the worker's all-digit key |
| Handshake.HandleKeepsCeiling | wsproxy/handle.go:87-93 | one request keeps the pool within the ceiling and every worker under its own key |
| Handshake.Apply | wsproxy/handle.go:161-168 | an event keeps the ceiling, and a release leaves its key absent |
| Handshake.RunKeepsCeiling | wsproxy/handle.go:87-146 | no series of requests and releases, taken one at a time, takes the pool over the ceiling or misfiles a worker |
| Handshake.StartWithinCeiling | wsproxy/handle.go:25-37 | the registry `main` starts with is within its ceiling |
| Root.RootDefaults | wsproxy.go:41-45 | the older defaults are a 64*1024 byte buffer (64 times the newer one), a 3 second dial, form key "token" and no split marker |
| Root.RootInit | wsproxy.go:149-154 | the older `init` keeps the passphrase, address and buffer |
| Root.RootInitAgrees | wsproxy.go:151-154 | the older `init` normalises exactly as the newer one does |
| Root.RootMain | wsproxy.go:179-213 | the older startup succeeds exactly when the passphrase is set, -fsplit parses and -frkey starts with a lower-case letter. It never rejects a format. On success it hands on the normalised passphrase, split rule, form key, buffer size, dial timeout, address and -ssl_only switch |
| Root.RootMainAgrees | wsproxy.go:187-213 | the older startup accepts exactly the flags the newer one accepts with -stream "bin", and settles on the same passphrase, split rule, form key and buffer |
| Root.RootDefaultsStart | wsproxy.go:41-45 | the older defaults plus a passphrase start the gateway |
| Root.RootLogHandle | wsproxy.go:277-312 | the older record is the newer `log` record |
| Root.RootConnect | wsproxy.go:379-400 | the older dial stage ends as the newer one does, with binary frames |
| Root.RootHandleWs | wsproxy.go:315-400 | the older handshake never rejects a client and admits only binary sessions with a 200 record. A decryption failure refuses with an error line; a split panic refuses without one |
| Root.RootHandleAgrees | wsproxy.go:315-400 | below the ceiling, the newer handleWs answers exactly as the older one with format "bin" |
| Root.RootWsToTcp | wsproxy.go:404-455 | an unexpected close emits a 503 record and no log line. Any other read error is a notice, and a failed write a warning. Nothing is logged as an error. The loop closes exactly when it logged or emitted a record |
| Root.RootTcpToWs | wsproxy.go:459-479 | every frame the older loop sends is binary |
| Root.RootTcpToWsAgrees | wsproxy.go:459-479 | the older backend loop is the newer `backend` with binary frames |
| Root.RootWsToTcpAgrees | wsproxy.go:431-452 | with no short write, both client loops forward the same data and stop together. The older one emits a 503 exactly when the newer one logs an error |
| Root.PolicyIrrelevant | wsproxy.go:446-452 | with no short write, judging a write by its error alone or also by its length makes no difference |
| Root.ShortWriteDiffers | wsproxy.go:446-452 | as the code is written, a short write without an error stops the newer loop with a warning but is forwarded by the older one. No writer the loops use reports such a write |

## Left out

- `wsproxy/listener.go` and `routes.go` are not part of this model: the HTTP(S) server setup, the pid file, the `/status` endpoint and signal handling are I/O.
- AES-256-CBC decryption and the CRC-32 checksum are parameters. Their algorithms are not modelled.
- Goroutines and the mutex are left out. Registry operations are taken one at a time. The capacity test in `handleWs` is made without the lock, so with concurrent requests the pool can overshoot the ceiling. The model does not show that.
- Request durations and `time.Now()` are left out: the duration is dropped from the record, and the time enters only as the text the session key is made from.
- The `-version` banner, the start-up information printed by `main`, and the `-aes_only`, `-proxyproto` and `-ssl_*` flags are left out. These flags are only carried along or printed.
- `Slc`, `logHandle` and `cfgBuffProto` are used by `wsproxy/handle.go` but not defined in the files modelled. `Slc(...).logHandle()` is taken to write the `log` record, and the dial protocol to be TCP.
- Logger output formatting, flushes and their errors, `bufio` buffering, the upgrader's options and the content of the JSON "too many connections" reply are left out. A rejection is only the `Rejected` outcome.
- The HTTP server's recovery from the index-out-of-range panic of a token split is left out. The panic is the `TokenPanic` refusal.
- The older gateway shares one global record for all requests (`logh`). The race between requests is left out, and each record is built on its own.
- Closing the connections is left out. The newer `handleWs` leaves the upgraded connection open after a refusal or a failed dial, while the older one closes it when it returns.
- Config.Init: `strings.ToLower` is modelled on ASCII letters only, so keys and formats with non-ASCII capitals are not lowered as Go would lower them.
- Strs.ToLower: lowers ASCII capitals only. Go's Unicode case mapping is not modelled.
- Strs.TrimSpace: white space is the ASCII set plus U+0085, U+00A0 and the Unicode space separators. The string is a sequence of code points, not of UTF-8 bytes.
- Handshake.RunKeepsCeiling: holds for requests taken one at a time only, because the source's check is not atomic with the insertion.
