/**
 * The application side of the load shedder's protocol
 * (lib/load_shedder/client.rb): one cached socket to the daemon, an ADMIT
 * request whose reply is parsed into a decision, and a COMPLETE report whose
 * reply is read and ignored.
 *
 * The socket and the daemon's behaviour on it are inputs: `Dial` is what
 * opening a new connection gives, `Exchange` what writing the request and
 * reading one line back gives.
 */
module ShedderClient {
  import opened Wrappers
  import opened Text
  import opened AimdLimiter
  import opened ShedderServer

  /** The errors the client can raise. */
  datatype Failure =
    | EPIPE                // writing to a connection the daemon closed
    | ECONNRESET           // the daemon reset the connection
    | IOError              // using a stream that is closed
    | ENOENT               // no socket file
    | ECONNREFUSED         // nobody listening on the socket file
    | ArgumentError        // `to_h` on a reply token without `=`

  /** The transport errors `with_socket` answers by dropping the socket. */
  predicate DropsSocket(f: Failure) {
    f == EPIPE || f == ECONNRESET || f == IOError
  }

  /** What the client makes of an ADMIT reply; absent values are Ruby's nil. */
  datatype AdmitInfo = AdmitInfo(admitted: bool, limit: Option<int>, inflight: Option<int>,
                                 degraded: Option<int>, contacted: bool)

  /** The decision when the daemon closed the connection without a reply:
      admit, and report that the daemon was not reached. */
  const FAIL_OPEN: AdmitInfo := AdmitInfo(true, None, None, Some(0), false)

  const ADMIT_REQUEST: string := "ADMIT kind=anon\n"

  /** The COMPLETE request: one line. */
  function CompleteRequest(status: int, rttMs: int): (line: string)
    ensures line != [] && line[|line| - 1] == '\n'
    ensures '\n' !in line[..|line| - 1]
  {
    var r, st := IntToString(rttMs), IntToString(status);
    var text := "COMPLETE rtt_ms=" + r + " status=" + st;
    assert '\n' !in r && '\n' !in st;
    assert (text + "\n")[..|text|] == text;
    text + "\n"
  }

  /** `kv[key]&.to_i`. */
  function IntParam(kv: map<string, string>, key: string): Option<int> {
    if key in kv then Some(ToI(kv[key])) else None
  }

  /** `parse_admit` on the line `gets` returned, stripped; `None` is `gets`
      hitting the end of the stream. */
  function ParseAdmit(line: Option<string>): (r: Result<AdmitInfo, Failure>)
    ensures line.None? ==> r == Ok(FAIL_OPEN)
    ensures r.Err? <==> line.Some? && Fields(line.value) != [] && !AllPairs(Fields(line.value)[1..])
    ensures r.Err? ==> r.error == ArgumentError
    ensures line.Some? && r.Ok? ==>
              r.value.contacted && (r.value.admitted <==> Fields(line.value) != [] && Fields(line.value)[0] == "OK")
  {
    match line
    case None => Ok(FAIL_OPEN)
    case Some(l) =>
      var tokens := Fields(l);
      var status := if tokens == [] then None else Some(tokens[0]);
      var rest := if tokens == [] then [] else tokens[1..];
      match KeyValues(rest)
      case None => Err(ArgumentError)
      case Some(kv) =>
        Ok(AdmitInfo(status == Some("OK"), IntParam(kv, "limit"), IntParam(kv, "inflight"),
                     IntParam(kv, "degraded"), true))
  }

  // ---------------------------------------------------------------------------
  // The wire format, both ways

  /** Letters and underscores: the protocol's words and keys. */
  predicate Word(w: string) {
    w != [] && forall i :: 0 <= i < |w| ==> 'a' <= w[i] <= 'z' || 'A' <= w[i] <= 'Z' || w[i] == '_'
  }

  lemma WordIsToken(w: string)
    requires Word(w)
    ensures SpaceFree(w) && '=' !in w && !IsStripped(w[0])
  {
  }

  /** A value the protocol writes after `key=`: what `Integer#to_s` gives. */
  predicate Value(v: string) {
    v != [] && SpaceFree(v) && !IsStripped(v[|v| - 1])
  }

  lemma IntValue(n: int)
    ensures Value(IntToString(n))
  {
  }

  /** The token `key=value`. */
  function Token(key: string, v: string): string {
    key + "=" + v
  }

  /** `key=value` is one token that splits back into `key` and `value`. */
  lemma TokenSplits(key: string, v: string)
    requires Word(key) && Value(v)
    ensures var t := Token(key, v);
            t != [] && SpaceFree(t) && SplitOnce(t, '=') == Some((key, v)) && t[|t| - 1] == v[|v| - 1]
  {
    WordIsToken(key);
    var t := key + "=" + v;
    assert t == key + ['='] + v;
    SplitOnceJoin(key, '=', v);
    forall i | 0 <= i < |t| ensures !IsSpace(t[i]) {
      if i < |key| { assert t[i] == key[i]; }
      else if i > |key| { assert t[i] == v[i - |key| - 1]; }
    }
  }

  /** A word and three tokens, joined by single spaces. */
  function Joined(w: string, a: string, b: string, c: string): string {
    w + " " + (a + " " + (b + " " + c))
  }

  /** Such a line, with its newline, strips to itself. */
  lemma JoinedStrips(w: string, a: string, b: string, c: string)
    requires Word(w) && Value(c)
    ensures Strip(Joined(w, a, b, c) + "\n") == Joined(w, a, b, c)
  {
    WordIsToken(w);
    var line := Joined(w, a, b, c);
    assert line[0] == w[0];
    assert line[|line| - 1] == c[|c| - 1];
    StripNewline(line);
  }

  /** Such a line splits back into the word and the tokens. */
  lemma {:induction false} JoinedFields(w: string, a: string, b: string, c: string)
    requires Word(w) && Value(a) && Value(b) && Value(c)
    ensures Fields(Joined(w, a, b, c)) == [w, a, b, c]
  {
    WordIsToken(w);
    FieldsCons(w, a + " " + (b + " " + c));
    FieldsCons(a, b + " " + c);
    FieldsCons(b, c);
    FieldsSingle(c);
  }

  /** The client's parse of such a line, for the stats keys. */
  lemma {:induction false} ParseJoined(status: string, l: string, i: string, g: string)
    requires Word(status) && Value(l) && Value(i) && Value(g)
    ensures ParseAdmit(Some(Joined(status, Token("limit", l), Token("inflight", i), Token("degraded", g))))
            == Ok(AdmitInfo(status == "OK", Some(ToI(l)), Some(ToI(i)), Some(ToI(g)), true))
  {
    var a, b, c := Token("limit", l), Token("inflight", i), Token("degraded", g);
    assert Word("limit") && Word("inflight") && Word("degraded");
    TokenValue("limit", l);
    TokenValue("inflight", i);
    TokenValue("degraded", g);
    JoinedFields(status, a, b, c);
    assert [status, a, b, c] == [status] + [a, b, c];
    TokensReadBack("limit", l, "inflight", i, "degraded", g);
    ParseAdmitOf(Joined(status, a, b, c), status, [a, b, c]);
  }

  /** A token is itself a value the protocol can write. */
  lemma TokenValue(key: string, v: string)
    requires Word(key) && Value(v)
    ensures Value(Token(key, v))
  {
    TokenSplits(key, v);
  }

  /** A line whose fields are a status word and well-formed pairs parses to
      that status and the integer values the pairs give the three keys. */
  lemma ParseAdmitOf(line: string, status: string, parts: seq<string>)
    requires Fields(line) == [status] + parts && KeyValues(parts).Some?
    ensures var kv := KeyValues(parts).value;
            ParseAdmit(Some(line))
            == Ok(AdmitInfo(status == "OK", IntParam(kv, "limit"), IntParam(kv, "inflight"), IntParam(kv, "degraded"), true))
  {
    assert ([status] + parts)[1..] == parts;
  }

  /** Three tokens with distinct keys read back as a map from each key to
      its value. */
  lemma {:induction false} TokensReadBack(k1: string, v1: string, k2: string, v2: string, k3: string, v3: string)
    requires Word(k1) && Word(k2) && Word(k3) && Value(v1) && Value(v2) && Value(v3)
    requires k1 != k2 && k1 != k3 && k2 != k3
    ensures var kv := KeyValues([Token(k1, v1), Token(k2, v2), Token(k3, v3)]);
            kv.Some? && k1 in kv.value && kv.value[k1] == v1 && k2 in kv.value && kv.value[k2] == v2
            && k3 in kv.value && kv.value[k3] == v3
  {
    var parts := [Token(k1, v1), Token(k2, v2), Token(k3, v3)];
    TokenKey(k1, v1);
    TokenKey(k2, v2);
    TokenKey(k3, v3);
    assert AllPairs(parts);
    KeyValuesLast(parts, 0, k1, v1);
    KeyValuesLast(parts, 1, k2, v2);
    KeyValuesLast(parts, 2, k3, v3);
  }

  /** A token names its key and splits at its `=` into key and value. */
  lemma TokenKey(key: string, v: string)
    requires Word(key) && Value(v)
    ensures SplitOnce(Token(key, v), '=') == Some((key, v)) && KeyOf(Token(key, v)) == Some(key)
  {
    TokenSplits(key, v);
  }

  /** The stats line with a status word, over any three values, is that word
      and the three `key=value` tokens joined by single spaces, then a newline. */
  lemma StatsTextJoined(status: string, l: string, i: string, g: string)
    ensures (status + " ") + "limit=" + l + " inflight=" + i + " degraded=" + g + "\n"
            == Joined(status, Token("limit", l), Token("inflight", i), Token("degraded", g)) + "\n"
  {
  }

  lemma StatsLineJoined(status: string, limit: int, inflight: int, degraded: int)
    ensures FormatStats(Some(status), limit, inflight, degraded)
            == Joined(status, Token("limit", IntToString(limit)), Token("inflight", IntToString(inflight)),
                      Token("degraded", IntToString(degraded))) + "\n"
  {
    StatsTextJoined(status, IntToString(limit), IntToString(inflight), IntToString(degraded));
  }

  /** The client reads back exactly the decision the server formatted. */
  lemma {:induction false} ParseAdmitReply(d: Decision)
    ensures ParseAdmit(Some(Strip(AdmitReply(d))))
            == Ok(AdmitInfo(d.admitted, Some(d.limit), Some(d.inflight), Some(d.degraded), true))
  {
    var status := if d.admitted then "OK" else "REJECT";
    var l, i, g := IntToString(d.limit), IntToString(d.inflight), IntToString(d.degraded);
    var a, b, c := Token("limit", l), Token("inflight", i), Token("degraded", g);
    assert Word(status);
    IntValue(d.limit);
    IntValue(d.inflight);
    IntValue(d.degraded);
    TokenSplits("degraded", g);
    StatsLineJoined(status, d.limit, d.inflight, d.degraded);
    JoinedStrips(status, a, b, c);
    ParseJoined(status, l, i, g);
    ToIOfIntToString(d.limit);
    ToIOfIntToString(d.inflight);
    ToIOfIntToString(d.degraded);
  }

  /** A command word and a rest with no separator at either end, with a
      newline, strip to themselves and split back into the word and the rest. */
  lemma RequestSplits(w: string, rest: string)
    requires Word(w) && rest != [] && !IsStripped(rest[0]) && !IsStripped(rest[|rest| - 1])
    ensures Strip(w + " " + rest + "\n") == w + " " + rest
    ensures SplitCommand(w + " " + rest) == (Some(w), Some(rest))
  {
    WordIsToken(w);
    var line := w + " " + rest;
    assert line[0] == w[0] && line[|line| - 1] == rest[|rest| - 1];
    StripNewline(line);
    SplitCommandCons(w, rest);
  }

  /** One token parses into a one-key map. */
  lemma OneTokenParams(k: string, v: string)
    requires Word(k) && Value(v)
    ensures ParseParams(Some(Token(k, v))).Some?
    ensures k in ParseParams(Some(Token(k, v))).value && ParseParams(Some(Token(k, v))).value[k] == v
  {
    var t := Token(k, v);
    TokenSplits(k, v);
    FieldsSingle(t);
    KeyValuesLast([t], 0, k, v);
  }

  /** Two tokens with distinct keys parse into a map holding the first. */
  lemma {:induction false} TwoTokenParams(k1: string, v1: string, k2: string, v2: string)
    requires Word(k1) && Word(k2) && Value(v1) && Value(v2) && k1 != k2
    ensures var rest := Token(k1, v1) + " " + Token(k2, v2);
            && rest != [] && !IsStripped(rest[0]) && !IsStripped(rest[|rest| - 1])
            && ParseParams(Some(rest)).Some?
            && k1 in ParseParams(Some(rest)).value && ParseParams(Some(rest)).value[k1] == v1
  {
    var t1, t2 := Token(k1, v1), Token(k2, v2);
    TwoTokenLine(k1, v1, k2, v2);
    TwoTokenMap(k1, v1, k2, v2);
    assert ParseParams(Some(t1 + " " + t2)) == KeyValues([t1, t2]);
  }

  /** Two tokens joined by a space: no separator at either end, and they
      split back into the two tokens. */
  lemma TwoTokenLine(k1: string, v1: string, k2: string, v2: string)
    requires Word(k1) && Word(k2) && Value(v1) && Value(v2)
    ensures var rest := Token(k1, v1) + " " + Token(k2, v2);
            && rest != [] && !IsStripped(rest[0]) && !IsStripped(rest[|rest| - 1])
            && Fields(rest) == [Token(k1, v1), Token(k2, v2)]
  {
    var t1, t2 := Token(k1, v1), Token(k2, v2);
    TokenValue(k1, v1);
    TokenValue(k2, v2);
    WordIsToken(k1);
    assert t1[0] == k1[0];
    PairLine(t1, t2);
  }

  /** Two separator-free fields joined by a space split back into them. */
  lemma PairLine(t1: string, t2: string)
    requires t1 != [] && SpaceFree(t1) && !IsStripped(t1[0]) && Value(t2)
    ensures var rest := t1 + " " + t2;
            && rest != [] && !IsStripped(rest[0]) && !IsStripped(rest[|rest| - 1])
            && Fields(rest) == [t1, t2]
  {
    var rest := t1 + " " + t2;
    assert rest[0] == t1[0] && rest[|rest| - 1] == t2[|t2| - 1];
    FieldsCons(t1, t2);
    FieldsSingle(t2);
  }

  /** Two tokens with distinct keys: the first key keeps its value. */
  lemma TwoTokenMap(k1: string, v1: string, k2: string, v2: string)
    requires Word(k1) && Word(k2) && Value(v1) && Value(v2) && k1 != k2
    ensures var kv := KeyValues([Token(k1, v1), Token(k2, v2)]);
            kv.Some? && k1 in kv.value && kv.value[k1] == v1
  {
    var parts := [Token(k1, v1), Token(k2, v2)];
    TokenKey(k1, v1);
    TokenKey(k2, v2);
    assert AllPairs(parts);
    KeyValuesLast(parts, 0, k1, v1);
  }

  /** The server answers the client's ADMIT request with the limiter's
      admission step. */
  lemma AdmitRequestServed(c: Config, s: Snapshot)
    requires c.initialLimit >= 1
    ensures LineOutcome(c, s, Strip(ADMIT_REQUEST)) == Ok((AdmitReply(AdmitStep(s).0), AdmitStep(s).1))
  {
    assert Word("ADMIT") && Word("kind") && Value("anon");
    assert ADMIT_REQUEST == "ADMIT" + " " + Token("kind", "anon") + "\n";
    TokenSplits("kind", "anon");
    RequestSplits("ADMIT", Token("kind", "anon"));
    OneTokenParams("kind", "anon");
  }

  /** The request line is the command word and two tokens. */
  lemma CompleteTextJoined(r: string, st: string)
    ensures "COMPLETE rtt_ms=" + r + " status=" + st + "\n"
            == "COMPLETE" + " " + (Token("rtt_ms", r) + " " + Token("status", st)) + "\n"
  {
  }

  /** The server reads back the round trip time the client reported and
      feeds it to the limiter as a sampled completion. */
  lemma {:induction false} CompleteRequestServed(c: Config, s: Snapshot, status: int, rttMs: int)
    requires c.initialLimit >= 1
    ensures LineOutcome(c, s, Strip(CompleteRequest(status, rttMs)))
            == Ok((COMPLETE_ACK, CompleteStep(c, s, rttMs, true)))
  {
    var r, st := IntToString(rttMs), IntToString(status);
    assert Word("COMPLETE") && Word("rtt_ms") && Word("status");
    IntValue(rttMs);
    IntValue(status);
    CompleteTextJoined(r, st);
    TwoTokenParams("rtt_ms", r, "status", st);
    RequestSplits("COMPLETE", Token("rtt_ms", r) + " " + Token("status", st));
    ToIOfIntToString(rttMs);
  }

  /** End to end: the daemon serves the client's ADMIT request, and what the
      client decides from the reply is the limiter's own decision. */
  lemma AdmitRoundTrip(c: Config, s: Snapshot)
    requires c.initialLimit >= 1
    ensures var served := LineOutcome(c, s, Strip(ADMIT_REQUEST));
            var d := AdmitStep(s).0;
            && served.Ok?
            && served.value.1 == AdmitStep(s).1
            && AdmitBody(Replied(Some(served.value.0)))
               == Ok(AdmitInfo(d.admitted, Some(d.limit), Some(d.inflight), Some(d.degraded), true))
  {
    AdmitRequestServed(c, s);
    ParseAdmitReply(AdmitStep(s).0);
  }

  // ---------------------------------------------------------------------------
  // The socket

  /** An open or closed connection to the daemon. */
  datatype Conn = Conn(id: nat, closed: bool)

  /** What opening a new connection gives. */
  datatype Dial = Connected(id: nat) | DialFailed(failure: Failure)

  /** What writing a request and reading one line back gives: a write error,
      a read error, or the line read (`None` at the end of the stream). */
  datatype Exchange = WriteFailed(wf: Failure) | ReadFailed(rf: Failure) | Replied(line: Option<string>)

  /** `ensure_socket`: the cached socket when it is open; otherwise a new
      connection, the cache cleared first so a failed dial leaves none. */
  function EnsureSocketStep(cached: Option<Conn>, dial: Dial): (r: (Result<Conn, Failure>, Option<Conn>))
    ensures cached.Some? && !cached.value.closed ==> r == (Ok(cached.value), cached)
    ensures r.0.Ok? ==> r.1 == Some(r.0.value) && !r.0.value.closed
    ensures r.0.Err? ==> r.1 == None && dial.DialFailed? && r.0.error == dial.failure
    // Otherwise the connection is the one just dialled, or the dial's error.
    ensures !(cached.Some? && !cached.value.closed) && dial.Connected? ==> r.0 == Ok(Conn(dial.id, false))
    ensures !(cached.Some? && !cached.value.closed) && dial.DialFailed? ==> r.0.Err?
  {
    if cached.Some? && !cached.value.closed then (Ok(cached.value), cached)
    else
      match dial
      case Connected(id) => (Ok(Conn(id, false)), Some(Conn(id, false)))
      case DialFailed(f) => (Err(f), None)
  }

  /** `with_socket` around one exchange: the body's result, and the cached
      socket afterwards, dropped when the body raised a transport error. */
  function WithSocketStep<T>(cached: Option<Conn>, dial: Dial, body: Result<T, Failure>)
    : (r: (Result<T, Failure>, Option<Conn>))
    ensures r.0 == body || (dial.DialFailed? && r.0 == Err(dial.failure))
    ensures r.1.Some? ==> !r.1.value.closed && r.1 == EnsureSocketStep(cached, dial).1
  {
    var (sock, cached') := EnsureSocketStep(cached, dial);
    if sock.Err? then (Err(sock.error), cached')
    else if body.Err? && DropsSocket(body.error) then (body, None)
    else (body, cached')
  }

  /** The body of `admit`: the parsed reply, or the exchange's error. */
  function AdmitBody(x: Exchange): (r: Result<AdmitInfo, Failure>)
    ensures x.Replied? && x.line.None? ==> r == Ok(FAIL_OPEN)
    ensures x.WriteFailed? ==> r == Err(x.wf)
    ensures x.ReadFailed? ==> r == Err(x.rf)
    ensures x.Replied? && r.Err? ==> r.error == ArgumentError
  {
    match x
    case WriteFailed(f) => Err(f)
    case ReadFailed(f) => Err(f)
    case Replied(line) => ParseAdmit(if line.Some? then Some(Strip(line.value)) else None)
  }

  /** The body of `complete`: nil, whatever the reply. */
  function CompleteBody(x: Exchange): (r: Result<(), Failure>)
    ensures r.Ok? <==> x.Replied?
    ensures x.WriteFailed? ==> r == Err(x.wf)
    ensures x.ReadFailed? ==> r == Err(x.rf)
  {
    match x
    case WriteFailed(f) => Err(f)
    case ReadFailed(f) => Err(f)
    case Replied(_) => Ok(())
  }

  /** A failed dial is raised as it is and leaves no socket cached. */
  lemma DialFailureRaised<T>(dial: Dial, body: Result<T, Failure>)
    requires dial.DialFailed?
    ensures WithSocketStep(None, dial, body) == (Err(dial.failure), None)
  {
  }

  /** A transport error during the exchange is re-raised and drops the cached
      socket, so the next call dials again; any other outcome keeps it. */
  lemma {:induction false} TransportErrorDropsSocket<T>(cached: Option<Conn>, dial: Dial, body: Result<T, Failure>)
    requires EnsureSocketStep(cached, dial).0.Ok?
    ensures WithSocketStep(cached, dial, body).0 == body
    ensures body.Err? && DropsSocket(body.error) ==> WithSocketStep(cached, dial, body).1 == None
    ensures !(body.Err? && DropsSocket(body.error)) ==>
              WithSocketStep(cached, dial, body).1 == Some(EnsureSocketStep(cached, dial).0.value)
  {
  }

  /** What the call writes: the request, once a socket is at hand and unless
      the write itself fails. */
  function Written(sock: Result<Conn, Failure>, x: Exchange, request: string): seq<string> {
    if sock.Ok? && !x.WriteFailed? then [request] else []
  }

  /** The client's object: the socket it keeps between calls, and the
      requests written to the daemon so far. */
  class Client {
    var socket: Option<Conn>
    var written: seq<string>

    constructor ()
      ensures socket == None && written == []
    {
      socket := None;
      written := [];
    }

    /** `close_socket`. */
    method CloseSocket()
      modifies this
      ensures socket == None && written == old(written)
    {
      socket := None;
    }

    method EnsureSocket(dial: Dial) returns (r: Result<Conn, Failure>)
      modifies this
      ensures (r, socket) == EnsureSocketStep(old(socket), dial)
      ensures written == old(written)
    {
      if socket.Some? && !socket.value.closed {
        return Ok(socket.value);
      }
      CloseSocket();
      match dial
      case Connected(id) =>
        socket := Some(Conn(id, false));
        r := Ok(socket.value);
      case DialFailed(f) =>
        r := Err(f);
    }

    /** `admit`: the kind argument is not sent; the request always says
        `kind=anon`. */
    method Admit(kind: Option<string>, dial: Dial, x: Exchange) returns (r: Result<AdmitInfo, Failure>)
      modifies this
      ensures (r, socket) == WithSocketStep(old(socket), dial, AdmitBody(x))
      ensures written == old(written) + Written(EnsureSocketStep(old(socket), dial).0, x, ADMIT_REQUEST)
    {
      var sock := EnsureSocket(dial);
      if sock.Err? {
        return Err(sock.error);
      }
      if !x.WriteFailed? {
        written := written + [ADMIT_REQUEST];
      }
      r := AdmitBody(x);
      if r.Err? && DropsSocket(r.error) {
        CloseSocket();
      }
    }

    /** `complete`: reports the status and the round trip, ignores the reply. */
    method Complete(status: int, rttMs: int, dial: Dial, x: Exchange) returns (r: Result<(), Failure>)
      modifies this
      ensures (r, socket) == WithSocketStep(old(socket), dial, CompleteBody(x))
      ensures written == old(written) + Written(EnsureSocketStep(old(socket), dial).0, x, CompleteRequest(status, rttMs))
    {
      var sock := EnsureSocket(dial);
      if sock.Err? {
        return Err(sock.error);
      }
      if !x.WriteFailed? {
        written := written + [CompleteRequest(status, rttMs)];
      }
      r := CompleteBody(x);
      if r.Err? && DropsSocket(r.error) {
        CloseSocket();
      }
    }
  }
}
