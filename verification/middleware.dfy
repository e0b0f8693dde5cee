/**
 * The Rack middleware that gates requests on the load shedder's verdict
 * (lib/load_shedder/middleware.rb).
 *
 * Everything the middleware asks of the outside world is an input here:
 * whether the shedder is enabled, what the auth-cookie check gave, what the
 * client's `admit` and `complete` calls returned, what the wrapped app did,
 * the elapsed time and the wall clock. `Gate` is the decision the `call`
 * method makes; the class `Middleware` holds the warn timestamp the source
 * keeps in a thread variable, and the warnings written to the log.
 */
module ShedderMiddleware {
  import opened Wrappers
  import opened Text
  import opened ShedderClient

  const RETRY_AFTER_SECONDS: int := 2
  const WARN_INTERVAL_SECONDS: int := 60
  /** The translation key of the busy body; the translated text is not modelled. */
  const BUSY_MESSAGE: string := "load_shedder.server_busy"
  const DEFAULT_STATUS: int := 500
  const BUSY_STATUS: int := 503

  type Headers = map<string, string>

  /** The auth-cookie lookup: a cookie is there or not, or the lookup raised. */
  datatype Auth = Cookie(present: bool) | AuthRaised

  /** What the wrapped app did: returned a Rack triple (whose status and
      headers may be nil) or raised. */
  datatype Handler =
    | Returned(status: Option<int>, headers: Option<Headers>, body: seq<string>)
    | HandlerRaised(error: string)

  /** An error that leaves `call`. */
  datatype Raised = ClientRaised(failure: Failure) | AppRaised(error: string)

  /** The messages `rate_limited_warn` is asked to log. */
  datatype Warning =
    | AuthCheckFailed
    | AdmitFailed(admitError: Failure)
    | CompleteFailed(completeError: Failure)
    | RequestFailed(requestError: Raised)

  /** A Rack triple; status and headers are nil only where the app left them so. */
  datatype Response = Response(status: Option<int>, headers: Option<Headers>, body: seq<string>)

  datatype Outcome = Responded(response: Response) | Reraised(error: Raised)

  /** What `call` did besides answering: whether it asked the daemon for
      admission, whether it ran the app, the `(status, rtt_ms)` it reported
      as completed, and the warnings it asked to log, in order. */
  datatype Trace = Trace(admitCalled: bool, handlerRan: bool, completion: Option<(int, int)>,
                         warnings: seq<Warning>)

  /** The errors the middleware's `admit` and `complete` rescue: the errno
      errors (all `SystemCallError`s) and `IOError`; a reply the client
      could not parse is not among them. */
  predicate Rescued(f: Failure) {
    f != ArgumentError
  }

  /** `logged_in?`: whether the request carries an auth cookie, and the
      warning asked for when the lookup raised (it then counts as anonymous). */
  function LoggedIn(auth: Auth): (r: (bool, seq<Warning>))
    ensures r.0 <==> auth == Cookie(true)
    ensures r.1 == [] <==> auth.Cookie?
    ensures auth.AuthRaised? ==> r.1 == [AuthCheckFailed]
  {
    match auth
    case Cookie(present) => (present, [])
    case AuthRaised => (false, [AuthCheckFailed])
  }

  /** The middleware's `admit`: the client's decision, or the fail-open
      decision after a rescued error; any other error escapes. */
  function Verdict(admitResult: Result<AdmitInfo, Failure>): (r: Result<AdmitInfo, Failure>)
    ensures r.Err? <==> admitResult.Err? && !Rescued(admitResult.error)
    ensures r.Ok? && admitResult.Err? ==> r.value == FAIL_OPEN && !r.value.contacted
    ensures admitResult.Ok? ==> r == admitResult
  {
    match admitResult
    case Ok(info) => Ok(info)
    case Err(f) => if Rescued(f) then Ok(FAIL_OPEN) else Err(f)
  }

  /** A signed-in request is let through whatever the daemon said. */
  predicate Admitted(loggedIn: bool, d: AdmitInfo) {
    loggedIn || d.admitted
  }

  function IntText(v: Option<int>): Option<string> {
    if v.Some? then Some(IntToString(v.value)) else None
  }

  /** Ruby's `Hash#compact`: the entries whose value is not nil. */
  function Compact(m: map<string, Option<string>>): (r: Headers)
    ensures forall k :: k in r <==> k in m && m[k].Some?
    ensures forall k :: k in r ==> Some(r[k]) == m[k]
  {
    map k | k in m && m[k].Some? :: m[k].value
  }

  /** The three headers that carry the decision. */
  const LIMIT_HEADER: string := "X-AC-Limit"
  const INFLIGHT_HEADER: string := "X-AC-Inflight"
  const DEGRADED_HEADER: string := "X-AC-Degraded"

  /** The header `key` carries `v` when `v` is not nil. */
  predicate Carries(h: Headers, key: string, v: Option<int>) {
    v.Some? ==> key in h && h[key] == IntToString(v.value)
  }

  predicate CarriesDecision(h: Headers, d: AdmitInfo) {
    Carries(h, LIMIT_HEADER, d.limit) && Carries(h, INFLIGHT_HEADER, d.inflight)
    && Carries(h, DEGRADED_HEADER, d.degraded)
  }

  /** `busy_headers`: the content type, the retry delay, and one header per
      decision field that is not nil; nothing else. */
  function BusyHeaders(d: AdmitInfo): (h: Headers)
    ensures "Content-Type" in h && h["Content-Type"] == "text/plain"
    ensures "Retry-After" in h && h["Retry-After"] == "2"
    ensures CarriesDecision(h, d)
    ensures LIMIT_HEADER in h <==> d.limit.Some?
    ensures INFLIGHT_HEADER in h <==> d.inflight.Some?
    ensures DEGRADED_HEADER in h <==> d.degraded.Some?
  {
    assert IntToString(RETRY_AFTER_SECONDS) == "2";
    Compact(map["Content-Type" := Some("text/plain"),
                "Retry-After" := Some(IntToString(RETRY_AFTER_SECONDS)),
                LIMIT_HEADER := IntText(d.limit),
                INFLIGHT_HEADER := IntText(d.inflight),
                DEGRADED_HEADER := IntText(d.degraded)])
  }

  /** The busy response carries no header besides those five. */
  lemma BusyHeadersOnly(d: AdmitInfo, k: string)
    requires k in BusyHeaders(d)
    ensures k in {"Content-Type", "Retry-After", LIMIT_HEADER, INFLIGHT_HEADER, DEGRADED_HEADER}
  {
  }

  function Put(h: Headers, key: string, v: Option<int>): Headers {
    if v.Some? then h[key := IntToString(v.value)] else h
  }

  /** `attach_headers`: each decision field that is not nil overwrites its
      header; every other header, and a header whose field is nil, is left
      as the app set it. */
  function AttachHeaders(h: Headers, d: AdmitInfo): (r: Headers)
    ensures CarriesDecision(r, d)
    ensures d.limit.None? ==> (LIMIT_HEADER in r <==> LIMIT_HEADER in h)
                              && (LIMIT_HEADER in h ==> r[LIMIT_HEADER] == h[LIMIT_HEADER])
    ensures d.inflight.None? ==> (INFLIGHT_HEADER in r <==> INFLIGHT_HEADER in h)
                                 && (INFLIGHT_HEADER in h ==> r[INFLIGHT_HEADER] == h[INFLIGHT_HEADER])
    ensures d.degraded.None? ==> (DEGRADED_HEADER in r <==> DEGRADED_HEADER in h)
                                 && (DEGRADED_HEADER in h ==> r[DEGRADED_HEADER] == h[DEGRADED_HEADER])
  {
    Put(Put(Put(h, LIMIT_HEADER, d.limit), INFLIGHT_HEADER, d.inflight), DEGRADED_HEADER, d.degraded)
  }

  /** A header other than the three decision headers is left as the app
      set it. */
  lemma AttachKeepsOtherHeaders(h: Headers, d: AdmitInfo, k: string)
    requires k != LIMIT_HEADER && k != INFLIGHT_HEADER && k != DEGRADED_HEADER
    ensures k in AttachHeaders(h, d) <==> k in h
    ensures k in h ==> AttachHeaders(h, d)[k] == h[k]
  {
  }

  /** Attaching the decision headers never changes the round trip read from
      them: `X-Runtime` is the app's own header. */
  lemma AttachKeepsRtt(h: Headers, d: AdmitInfo, elapsedMs: int, runtimeMs: string -> int)
    ensures ExtractRtt(AttachHeaders(h, d), elapsedMs, runtimeMs) == ExtractRtt(h, elapsedMs, runtimeMs)
  {
    AttachKeepsOtherHeaders(h, d, "X-Runtime");
  }

  /** `extract_rtt_ms`: the app's `X-Runtime` header when it set one, read
      through `runtimeMs` (seconds as text to whole milliseconds), otherwise
      the time measured around the call. */
  function ExtractRtt(h: Headers, elapsedMs: int, runtimeMs: string -> int): (rtt: int)
    ensures "X-Runtime" !in h ==> rtt == elapsedMs
  {
    if "X-Runtime" in h then runtimeMs(h["X-Runtime"]) else elapsedMs
  }

  /** The middleware's `complete`: the warning asked for when the client
      raised a rescued error, and the error that escapes otherwise. */
  function CompleteRescue(r: Result<(), Failure>): (out: (seq<Warning>, Option<Failure>))
    ensures out.1.Some? <==> r.Err? && !Rescued(r.error)
    ensures out.0 != [] <==> r.Err? && Rescued(r.error)
  {
    match r
    case Ok(_) => ([], None)
    case Err(f) => if Rescued(f) then ([CompleteFailed(f)], None) else ([], Some(f))
  }

  /** The status the app returned, 500 when it returned none or raised. */
  function StatusOf(handler: Handler): int {
    if handler.Returned? && handler.status.Some? then handler.status.value else DEFAULT_STATUS
  }

  /** The headers the app returned, empty when it returned none or raised. */
  function HeadersOf(handler: Handler): Headers {
    if handler.Returned? && handler.headers.Some? then handler.headers.value else map[]
  }

  /** The path past admission: run the app, default its status and headers,
      attach the decision headers, report completion when the daemon was
      contacted, then answer or re-raise. `prior` holds the warnings already
      asked for. */
  function Proceed(d: AdmitInfo, handler: Handler, completeResult: Result<(), Failure>,
                   elapsedMs: int, runtimeMs: string -> int, prior: seq<Warning>): (r: (Outcome, Trace))
    ensures r.1.admitCalled && r.1.handlerRan
    ensures (r.1.completion.Some? <==> d.contacted)
            && (r.1.completion.Some? ==> r.1.completion.value.0 == StatusOf(handler))
    // The round trip reported is read from the headers after the decision
    // headers are attached.
    ensures r.1.completion.Some? ==>
              r.1.completion.value.1 == ExtractRtt(AttachHeaders(HeadersOf(handler), d), elapsedMs, runtimeMs)
    ensures r.0.Responded? ==>
              handler.Returned?
              && r.0.response == Response(Some(StatusOf(handler)), Some(AttachHeaders(HeadersOf(handler), d)), handler.body)
    ensures handler.HandlerRaised? ==> r.0.Reraised?
    ensures r.0.Reraised? ==> r.1.warnings != [] && r.1.warnings[|r.1.warnings| - 1] == RequestFailed(r.0.error)
    ensures |prior| <= |r.1.warnings| && r.1.warnings[..|prior|] == prior
  {
    var status := StatusOf(handler);
    var headers := AttachHeaders(HeadersOf(handler), d);
    var completion := if d.contacted then Some((status, ExtractRtt(headers, elapsedMs, runtimeMs))) else None;
    var (completeWarnings, escaped) := if d.contacted then CompleteRescue(completeResult) else ([], None);
    var warnings := prior + completeWarnings;
    if escaped.Some? then
      (Reraised(ClientRaised(escaped.value)), Trace(true, true, completion, warnings + [RequestFailed(ClientRaised(escaped.value))]))
    else if handler.HandlerRaised? then
      (Reraised(AppRaised(handler.error)), Trace(true, true, completion, warnings + [RequestFailed(AppRaised(handler.error))]))
    else
      (Responded(Response(Some(status), Some(headers), handler.body)), Trace(true, true, completion, warnings))
  }

  /** `call`: what the middleware answers and what it does on the way. */
  function Gate(enabled: bool, auth: Auth, admitResult: Result<AdmitInfo, Failure>, handler: Handler,
                completeResult: Result<(), Failure>, elapsedMs: int, runtimeMs: string -> int): (r: (Outcome, Trace))
    // Disabled: the app's own answer, and the daemon is never asked.
    ensures r.1.admitCalled <==> enabled
    ensures !enabled && handler.Returned? ==> r.0 == Responded(Response(handler.status, handler.headers, handler.body))
    ensures !enabled ==> r.1.completion.None?
    // The app runs exactly when the request is let through.
    ensures r.1.handlerRan <==>
              !enabled || (Verdict(admitResult).Ok? && Admitted(LoggedIn(auth).0, Verdict(admitResult).value))
    // Turned away: 503 with the busy headers and body, nothing reported.
    ensures enabled && Verdict(admitResult).Ok? && !r.1.handlerRan ==>
              r.0 == Responded(Response(Some(BUSY_STATUS), Some(BusyHeaders(Verdict(admitResult).value)), [BUSY_MESSAGE]))
              && r.1.completion.None?
    // Let through: completion is reported exactly when the daemon was contacted,
    // with the app's status or 500.
    ensures enabled && r.1.handlerRan ==>
              (r.1.completion.Some? <==> Verdict(admitResult).value.contacted)
              && (r.1.completion.Some? ==> r.1.completion.value.0 == StatusOf(handler))
              && (r.1.completion.Some? ==>
                    r.1.completion.value.1
                    == ExtractRtt(AttachHeaders(HeadersOf(handler), Verdict(admitResult).value), elapsedMs, runtimeMs))
    // Let through and answered: the app's body, its status or 500, its headers
    // (none: empty) with the decision headers attached.
    ensures enabled && r.1.handlerRan && r.0.Responded? ==>
              handler.Returned?
              && r.0.response == Response(Some(StatusOf(handler)),
                                          Some(AttachHeaders(HeadersOf(handler), Verdict(admitResult).value)),
                                          handler.body)
              && CarriesDecision(r.0.response.headers.value, Verdict(admitResult).value)
    // Every error that leaves `call` was first handed to the throttled warn.
    ensures r.0.Reraised? ==> r.1.warnings != [] && r.1.warnings[|r.1.warnings| - 1] == RequestFailed(r.0.error)
    ensures handler.HandlerRaised? && r.1.handlerRan ==> r.0.Reraised?
  {
    if !enabled then
      match handler
      case Returned(status, headers, body) =>
        (Responded(Response(status, headers, body)), Trace(false, true, None, []))
      case HandlerRaised(e) =>
        (Reraised(AppRaised(e)), Trace(false, true, None, [RequestFailed(AppRaised(e))]))
    else
      var (loggedIn, authWarnings) := LoggedIn(auth);
      var admitWarnings := if admitResult.Err? && Rescued(admitResult.error) then [AdmitFailed(admitResult.error)] else [];
      match Verdict(admitResult)
      case Err(f) =>
        (Reraised(ClientRaised(f)), Trace(true, false, None, authWarnings + [RequestFailed(ClientRaised(f))]))
      case Ok(d) =>
        if !Admitted(loggedIn, d) then
          (Responded(Response(Some(BUSY_STATUS), Some(BusyHeaders(d)), [BUSY_MESSAGE])),
           Trace(true, false, None, authWarnings + admitWarnings))
        else
          Proceed(d, handler, completeResult, elapsedMs, runtimeMs, authWarnings + admitWarnings)
  }

  /** A transport error while asking for admission lets the request through
      (logged in or not), and nothing is reported as completed. */
  lemma FailOpenProceeds(auth: Auth, f: Failure, handler: Handler, completeResult: Result<(), Failure>,
                         elapsedMs: int, runtimeMs: string -> int)
    requires Rescued(f)
    ensures var r := Gate(true, auth, Err(f), handler, completeResult, elapsedMs, runtimeMs);
            r.1.handlerRan && r.1.completion.None? && AdmitFailed(f) in r.1.warnings
  {
  }

  /** A signed-in request the daemon turned down still runs, and its
      completion is still reported to the daemon. */
  lemma SignedInOverridesReject(info: AdmitInfo, handler: Handler, completeResult: Result<(), Failure>,
                                elapsedMs: int, runtimeMs: string -> int)
    requires !info.admitted && info.contacted
    ensures var r := Gate(true, Cookie(true), Ok(info), handler, completeResult, elapsedMs, runtimeMs);
            r.1.handlerRan && r.1.completion.Some?
            && Gate(true, Cookie(false), Ok(info), handler, completeResult, elapsedMs, runtimeMs).0
               == Responded(Response(Some(BUSY_STATUS), Some(BusyHeaders(info)), [BUSY_MESSAGE]))
  {
  }

  /** The log as written: the time and message of each emitted warning. */
  type Log = seq<(int, Warning)>

  /** The warn timestamp and the log. */
  datatype WarnState = WarnState(warnedAt: Option<int>, log: Log)

  /** Warnings in the log are at least the interval apart, and the timestamp
      is the time of the last one (nil before the first). */
  predicate Coherent(st: WarnState) {
    (forall i :: 0 < i < |st.log| ==> st.log[i].0 - st.log[i - 1].0 >= WARN_INTERVAL_SECONDS)
    && (st.log == [] <==> st.warnedAt.None?)
    && (st.log != [] ==> st.warnedAt == Some(st.log[|st.log| - 1].0))
  }

  /** `rate_limited_warn` logs when no warning was logged before or the last
      one is at least the interval old. */
  predicate ShouldEmit(warnedAt: Option<int>, now: int) {
    warnedAt.None? || now - warnedAt.value >= WARN_INTERVAL_SECONDS
  }

  /** `rate_limited_warn`: log and stamp, or do nothing at all. */
  function WarnStep(st: WarnState, w: Warning, now: int): (r: WarnState)
    ensures ShouldEmit(st.warnedAt, now) ==> r == WarnState(Some(now), st.log + [(now, w)])
    ensures !ShouldEmit(st.warnedAt, now) ==> r == st
    ensures Coherent(st) ==> Coherent(r)
  {
    if ShouldEmit(st.warnedAt, now) then WarnState(Some(now), st.log + [(now, w)]) else st
  }

  /** Every two of the warnings were asked for less than the interval apart. */
  predicate Close(asked: Log) {
    forall i, j :: 0 <= i < |asked| && 0 <= j < |asked| ==> asked[j].0 - asked[i].0 < WARN_INTERVAL_SECONDS
  }

  /** `rate_limited_warn` called for each warning in turn, each at the second
      it was asked at. */
  function Throttle(st: WarnState, asked: Log): (r: WarnState)
    ensures Coherent(st) ==> Coherent(r)
    decreases |asked|
  {
    if asked == [] then st
    else WarnStep(Throttle(st, asked[..|asked| - 1]), asked[|asked| - 1].1, asked[|asked| - 1].0)
  }

  /** The log only grows, and what it gains is warnings that were asked
      for; when it gains nothing the state is unchanged, and otherwise the
      stamp is the time of the last entry. */
  lemma {:induction false} ThrottleLogsAsked(st: WarnState, asked: Log)
    ensures var r := Throttle(st, asked);
            |st.log| <= |r.log| && r.log[..|st.log|] == st.log
            && (forall k :: |st.log| <= k < |r.log| ==> r.log[k] in asked)
            && (|r.log| == |st.log| ==> r == st)
            && (|r.log| > |st.log| ==> r.warnedAt == Some(r.log[|r.log| - 1].0))
    decreases |asked|
  {
    if asked != [] {
      var before := Throttle(st, asked[..|asked| - 1]);
      ThrottleLogsAsked(st, asked[..|asked| - 1]);
      forall k | |st.log| <= k < |before.log| ensures before.log[k] in asked {
        var i :| 0 <= i < |asked| - 1 && asked[..|asked| - 1][i] == before.log[k];
        assert asked[i] == before.log[k];
      }
    }
  }

  /** Warnings asked for less than the interval apart reach the log at most
      once. */
  lemma {:induction false} CloseLogsOnce(st: WarnState, asked: Log)
    requires Close(asked)
    ensures |Throttle(st, asked).log| <= |st.log| + 1
    decreases |asked|
  {
    if asked != [] {
      var prefix := asked[..|asked| - 1];
      var before := Throttle(st, prefix);
      assert Close(prefix) by {
        forall i, j | 0 <= i < |prefix| && 0 <= j < |prefix|
          ensures prefix[j].0 - prefix[i].0 < WARN_INTERVAL_SECONDS
        {
          assert prefix[i] == asked[i] && prefix[j] == asked[j];
        }
      }
      CloseLogsOnce(st, prefix);
      ThrottleLogsAsked(st, prefix);
      if |before.log| > |st.log| {
        var e := before.log[|before.log| - 1];
        var i :| 0 <= i < |prefix| && prefix[i] == e;
        assert asked[i] == e;
        assert asked[|asked| - 1].0 - e.0 < WARN_INTERVAL_SECONDS;
      }
    }
  }

  /** Two warnings asked for the interval apart are both logged. */
  lemma ApartWarningsBothLogged(w1: Warning, w2: Warning, t: int)
    ensures var asked := [(t, w1), (t + WARN_INTERVAL_SECONDS, w2)];
            Throttle(WarnState(None, []), asked).log == asked
  {
    var asked := [(t, w1), (t + WARN_INTERVAL_SECONDS, w2)];
    assert asked[..1] == [(t, w1)] && asked[..1][..0] == [];
    assert Throttle(WarnState(None, []), asked[..1][..0]) == WarnState(None, []);
    var first := Throttle(WarnState(None, []), asked[..1]);
    assert first == WarnStep(WarnState(None, []), w1, t) == WarnState(Some(t), [(t, w1)]);
    assert Throttle(WarnState(None, []), asked) == WarnStep(first, w2, t + WARN_INTERVAL_SECONDS);
  }

  /** The wall-clock second `Time.now.to_i` reads in each `rate_limited_warn`
      call that `call` can make: in the auth check, in `admit`, in `complete`
      and in the final rescue. Each call reads the clock afresh. */
  datatype Clock = Clock(authAt: int, admitAt: int, completeAt: int, failedAt: int)

  /** The second at which a warning of this kind is asked for. */
  function At(clock: Clock, w: Warning): int {
    match w
    case AuthCheckFailed => clock.authAt
    case AdmitFailed(_) => clock.admitAt
    case CompleteFailed(_) => clock.completeAt
    case RequestFailed(_) => clock.failedAt
  }

  /** The warnings of a request, each with the second it was asked at. */
  function Stamp(ws: seq<Warning>, clock: Clock): (r: Log)
    ensures |r| == |ws|
  {
    if ws == [] then [] else Stamp(ws[..|ws| - 1], clock) + [(At(clock, ws[|ws| - 1]), ws[|ws| - 1])]
  }

  /** An auth check that raises, then an app that raises a minute later:
      both warnings of the one request are logged. */
  lemma RequestCanLogTwice(d: AdmitInfo, e: string, completeResult: Result<(), Failure>,
                           elapsedMs: int, runtimeMs: string -> int)
    requires d.admitted && !d.contacted
    ensures var r := Gate(true, AuthRaised, Ok(d), HandlerRaised(e), completeResult, elapsedMs, runtimeMs);
            r.1.warnings == [AuthCheckFailed, RequestFailed(AppRaised(e))]
            && |Throttle(WarnState(None, []), Stamp(r.1.warnings, Clock(0, 0, 0, WARN_INTERVAL_SECONDS))).log| == 2
  {
    var ws := [AuthCheckFailed, RequestFailed(AppRaised(e))];
    assert Stamp(ws, Clock(0, 0, 0, WARN_INTERVAL_SECONDS)) == [(0, ws[0]), (WARN_INTERVAL_SECONDS, ws[1])];
    ApartWarningsBothLogged(ws[0], ws[1], 0);
  }

  /** The middleware object: the warn timestamp (a thread variable in the
      source) and the warnings written to the log. */
  class Middleware {
    var warnedAt: Option<int>
    var log: Log

    function State(): WarnState
      reads this
    {
      WarnState(warnedAt, log)
    }

    constructor ()
      ensures State() == WarnState(None, [])
    {
      warnedAt := None;
      log := [];
    }

    /** `rate_limited_warn`, at time `now`. */
    method Warn(w: Warning, now: int)
      modifies this
      ensures State() == WarnStep(old(State()), w, now)
    {
      if warnedAt.Some? && now - warnedAt.value < WARN_INTERVAL_SECONDS {
        return;
      }
      warnedAt := Some(now);
      log := log + [(now, w)];
    }

    /** `rate_limited_warn` for the next warning of a request, at the second
        the clock gives for its kind; `start` is the warn state at the start
        of the request and `prior` the warnings asked for since. */
    method WarnAt(w: Warning, clock: Clock, ghost start: WarnState, ghost prior: seq<Warning>)
      requires State() == Throttle(start, Stamp(prior, clock))
      modifies this
      ensures State() == Throttle(start, Stamp(prior + [w], clock))
    {
      Warn(w, At(clock, w));
      ThrottleSnoc(start, prior, w, clock);
    }

    /** `call`, with the client's answers, the app's behaviour, the measured
        time and the wall clock given as inputs. */
    method Call(enabled: bool, auth: Auth, admitResult: Result<AdmitInfo, Failure>, handler: Handler,
                completeResult: Result<(), Failure>, elapsedMs: int, runtimeMs: string -> int, clock: Clock)
      returns (out: Outcome, trace: Trace)
      modifies this
      ensures (out, trace) == Gate(enabled, auth, admitResult, handler, completeResult, elapsedMs, runtimeMs)
      ensures State() == Throttle(old(State()), Stamp(trace.warnings, clock))
    {
      if !enabled {
        if handler.HandlerRaised? {
          WarnAt(RequestFailed(AppRaised(handler.error)), clock, old(State()), []);
          assert [] + [RequestFailed(AppRaised(handler.error))] == [RequestFailed(AppRaised(handler.error))];
          return Reraised(AppRaised(handler.error)), Trace(false, true, None, [RequestFailed(AppRaised(handler.error))]);
        }
        return Responded(Response(handler.status, handler.headers, handler.body)), Trace(false, true, None, []);
      }
      var loggedIn, verdict, warnings := Admission(auth, admitResult, clock);
      if verdict.Err? {
        var e := RequestFailed(ClientRaised(verdict.error));
        WarnAt(e, clock, old(State()), warnings);
        assert warnings == LoggedIn(auth).1;
        return Reraised(ClientRaised(verdict.error)), Trace(true, false, None, warnings + [e]);
      }
      var decision := verdict.value;
      if !Admitted(loggedIn, decision) {
        return Responded(Response(Some(BUSY_STATUS), Some(BusyHeaders(decision)), [BUSY_MESSAGE])),
               Trace(true, false, None, warnings);
      }
      out, trace := Serve(decision, handler, completeResult, elapsedMs, runtimeMs, clock, warnings, old(State()));
    }

    /** The auth check and the admission request of an enabled `call`: the
        caller's sign-in state, the verdict, and the warnings asked for so
        far, each passed through the throttle. */
    method Admission(auth: Auth, admitResult: Result<AdmitInfo, Failure>, clock: Clock)
      returns (loggedIn: bool, verdict: Result<AdmitInfo, Failure>, warnings: seq<Warning>)
      modifies this
      ensures loggedIn == LoggedIn(auth).0 && verdict == Verdict(admitResult)
      ensures warnings == LoggedIn(auth).1
                          + (if admitResult.Err? && Rescued(admitResult.error) then [AdmitFailed(admitResult.error)] else [])
      ensures State() == Throttle(old(State()), Stamp(warnings, clock))
    {
      var authWarnings;
      loggedIn, authWarnings := CheckLogin(auth, clock);
      verdict, warnings := AskAdmission(admitResult, clock, authWarnings, old(State()));
    }

    /** `logged_in?`: whether an auth cookie is present; a raised lookup is
        warned about at the clock's `authAt` and counts as logged out. */
    method CheckLogin(auth: Auth, clock: Clock) returns (loggedIn: bool, warnings: seq<Warning>)
      modifies this
      ensures (loggedIn, warnings) == LoggedIn(auth)
      ensures State() == Throttle(old(State()), Stamp(warnings, clock))
    {
      assert Throttle(old(State()), Stamp([], clock)) == old(State());
      if auth.AuthRaised? {
        WarnAt(AuthCheckFailed, clock, old(State()), []);
        assert [] + [AuthCheckFailed] == [AuthCheckFailed];
        return false, [AuthCheckFailed];
      }
      return auth.present, [];
    }

    /** The private `admit`: the client's decision, or on a rescued error a
        warning at the clock's `admitAt` and the fail-open decision; an
        unrescued error escapes. `prior` holds the warnings already asked
        for since `start`. */
    method AskAdmission(admitResult: Result<AdmitInfo, Failure>, clock: Clock, prior: seq<Warning>,
                        ghost start: WarnState)
      returns (verdict: Result<AdmitInfo, Failure>, warnings: seq<Warning>)
      requires State() == Throttle(start, Stamp(prior, clock))
      modifies this
      ensures verdict == Verdict(admitResult)
      ensures warnings == prior + (if admitResult.Err? && Rescued(admitResult.error) then [AdmitFailed(admitResult.error)] else [])
      ensures State() == Throttle(start, Stamp(warnings, clock))
    {
      verdict, warnings := Verdict(admitResult), prior;
      if admitResult.Err? && Rescued(admitResult.error) {
        WarnAt(AdmitFailed(admitResult.error), clock, start, warnings);
        warnings := warnings + [AdmitFailed(admitResult.error)];
      } else {
        assert warnings == prior + [];
      }
    }

    /** The completion report in `call`'s `ensure` clause: when the daemon
        was contacted, `complete` is called with the status and the round
        trip read from the headers, and a rescued failure is warned about at
        the clock's `completeAt`; an unrescued one escapes. */
    method Report(decision: AdmitInfo, status: int, headers: Headers, completeResult: Result<(), Failure>,
                  elapsedMs: int, runtimeMs: string -> int, clock: Clock, prior: seq<Warning>,
                  ghost start: WarnState)
      returns (completion: Option<(int, int)>, escaped: Option<Failure>, warnings: seq<Warning>)
      requires State() == Throttle(start, Stamp(prior, clock))
      modifies this
      ensures completion == if decision.contacted then Some((status, ExtractRtt(headers, elapsedMs, runtimeMs))) else None
      ensures var rescue := if decision.contacted then CompleteRescue(completeResult) else ([], None);
              warnings == prior + rescue.0 && escaped == rescue.1
      ensures State() == Throttle(start, Stamp(warnings, clock))
    {
      completion, escaped, warnings := None, None, prior;
      if decision.contacted {
        completion := Some((status, ExtractRtt(headers, elapsedMs, runtimeMs)));
        if completeResult.Err? {
          if Rescued(completeResult.error) {
            WarnAt(CompleteFailed(completeResult.error), clock, start, warnings);
            warnings := warnings + [CompleteFailed(completeResult.error)];
          } else {
            escaped := Some(completeResult.error);
          }
        }
      }
    }

    /** The part of `call` past admission: the app runs, the rescue and
        ensure clauses default what it left unset, the decision headers are
        attached and completion is reported; `start` is the warn state at the
        start of the request and `prior` the warnings asked for since. */
    method Serve(decision: AdmitInfo, handler: Handler, completeResult: Result<(), Failure>, elapsedMs: int,
                 runtimeMs: string -> int, clock: Clock, prior: seq<Warning>, ghost start: WarnState)
      returns (out: Outcome, trace: Trace)
      requires State() == Throttle(start, Stamp(prior, clock))
      modifies this
      ensures (out, trace) == Proceed(decision, handler, completeResult, elapsedMs, runtimeMs, prior)
      ensures State() == Throttle(start, Stamp(trace.warnings, clock))
    {
      var status: Option<int> := None;
      var headers: Option<Headers> := None;
      var body: seq<string> := [];
      if handler.Returned? {
        status, headers, body := handler.status, handler.headers, handler.body;
      }
      if headers.None? {
        headers := Some(map[]);
      }
      if status.None? {
        status := Some(DEFAULT_STATUS);
      }
      assert status == Some(StatusOf(handler)) && headers == Some(HeadersOf(handler));
      headers := Some(AttachHeaders(headers.value, decision));
      var completion, escaped, warnings := Report(decision, status.value, headers.value, completeResult,
                                                  elapsedMs, runtimeMs, clock, prior, start);
      var error: Option<Raised> := None;
      if escaped.Some? {
        error := Some(ClientRaised(escaped.value));
      } else if handler.HandlerRaised? {
        error := Some(AppRaised(handler.error));
      }
      if error.Some? {
        WarnAt(RequestFailed(error.value), clock, start, warnings);
        return Reraised(error.value), Trace(true, true, completion, warnings + [RequestFailed(error.value)]);
      }
      return Responded(Response(status, headers, body)), Trace(true, true, completion, warnings);
    }
  }

  /** Throttling one more warning is one more `WarnStep`, at that warning's
      second. */
  lemma ThrottleSnoc(st: WarnState, ws: seq<Warning>, w: Warning, clock: Clock)
    ensures Throttle(st, Stamp(ws + [w], clock)) == WarnStep(Throttle(st, Stamp(ws, clock)), w, At(clock, w))
  {
    assert (ws + [w])[..|ws|] == ws;
    var stamped := Stamp(ws, clock) + [(At(clock, w), w)];
    assert stamped[..|ws|] == Stamp(ws, clock);
  }
}
