/**
 * The server side of the load shedder's line protocol
 * (lib/load_shedder/server.rb): one request line in, one reply line out,
 * every command delegated to the one limiter the server owns.
 *
 *   ADMIT kind=..                    -> "OK|REJECT limit=L inflight=I degraded=D\n"
 *   COMPLETE rtt_ms=.. status=..     -> "OK\n"
 *   STATS                            -> "limit=L inflight=I degraded=D\n"
 *   anything else                    -> "ERR unknown\n"
 *
 * The pure functions say what a line does to the limiter's state; the class
 * `Server` runs them against a `Limiter` object.
 */
module ShedderServer {
  import opened Wrappers
  import opened Text
  import opened AimdLimiter

  /** Why a connection ends early: a parameter token without `=`. */
  datatype LineError = MalformedParam

  const ERR_UNKNOWN: string := "ERR unknown\n"
  const COMPLETE_ACK: string := "OK\n"

  /** `format_stats`: an optional status word, then the three key/value pairs,
      on one line. */
  function FormatStats(status: Option<string>, limit: int, inflight: int, degraded: int): (line: string)
    ensures line != [] && line[|line| - 1] == '\n'
    ensures (status.None? || '\n' !in status.value) ==> '\n' !in line[..|line| - 1]
  {
    var prefix := if status.Some? then status.value + " " else "";
    var l, i, d := IntToString(limit), IntToString(inflight), IntToString(degraded);
    var text := prefix + "limit=" + l + " inflight=" + i + " degraded=" + d;
    assert '\n' !in l && '\n' !in i && '\n' !in d;
    assert (text + "\n")[..|text|] == text;
    text + "\n"
  }

  /** A status word leads the line, followed by a space. */
  lemma StatusLeads(status: string, limit: int, inflight: int, degraded: int)
    ensures var line := FormatStats(Some(status), limit, inflight, degraded);
            |line| > |status| + 1 && line[..|status| + 1] == status + " "
  {
    var prefix := status + " ";
    var l, i, d := IntToString(limit), IntToString(inflight), IntToString(degraded);
    var counts := "limit=" + l + " inflight=" + i + " degraded=" + d + "\n";
    assert FormatStats(Some(status), limit, inflight, degraded) == prefix + counts;
    assert (prefix + counts)[..|prefix|] == prefix;
  }

  /** `parse_params`: no rest of line gives no parameters; otherwise the
      separator-delimited tokens, each split at its first `=`. */
  function ParseParams(rest: Option<string>): (r: Option<map<string, string>>)
    ensures rest.None? ==> r == Some(map[])
    ensures rest.Some? ==> (r.Some? <==> AllPairs(Fields(rest.value)))
  {
    match rest
    case None => Some(map[])
    case Some(parts) =>
      KeyValues(Fields(parts))
  }

  /** The reply to an admission decision: one line, led by `OK` or `REJECT`. */
  function AdmitReply(d: Decision): (r: string)
    ensures var w := if d.admitted then "OK" else "REJECT";
            |r| > |w| && r[..|w| + 1] == w + " "
    ensures r[|r| - 1] == '\n' && '\n' !in r[..|r| - 1]
  {
    var w := if d.admitted then "OK" else "REJECT";
    StatusLeads(w, d.limit, d.inflight, d.degraded);
    FormatStats(Some(w), d.limit, d.inflight, d.degraded)
  }

  /** The round trip a COMPLETE line carries; a missing `rtt_ms` counts as 0. */
  function RttParam(params: map<string, string>): (rtt: int)
    ensures "rtt_ms" !in params ==> rtt == 0
  {
    if "rtt_ms" in params then ToI(params["rtt_ms"]) else 0
  }

  /** An `rtt_ms` written as an integer reads back as that integer. */
  lemma RttParamReadsBack(params: map<string, string>, n: int)
    requires "rtt_ms" in params && params["rtt_ms"] == IntToString(n)
    ensures RttParam(params) == n
  {
    ToIOfIntToString(n);
  }

  /** `process_line` on a stripped line: the reply and the limiter's new state,
      or the error that ends the connection. The parameters are parsed before
      the command is looked at, so a malformed token fails any command. */
  function LineOutcome(c: Config, s: Snapshot, line: string): (r: Result<(string, Snapshot), LineError>)
    requires c.initialLimit >= 1
    ensures r.Err? <==> ParseParams(SplitCommand(line).1).None?
  {
    var (command, rest) := SplitCommand(line);
    match ParseParams(rest)
    case None => Err(MalformedParam)
    case Some(params) =>
      if command == Some("ADMIT") then
        var (d, s') := AdmitStep(s);
        Ok((AdmitReply(d), s'))
      else if command == Some("COMPLETE") then
        Ok((COMPLETE_ACK, CompleteStep(c, s, RttParam(params), true)))
      else if command == Some("STATS") then
        Ok((FormatStats(None, s.limit, s.inflight, s.degraded), s))
      else
        Ok((ERR_UNKNOWN, s))
  }

  /** A line whose parameters parse is dispatched on its command word: ADMIT
      answers the admission decision and takes its state (the `kind`
      parameter plays no part), COMPLETE acknowledges and applies a sampled
      completion with the line's `rtt_ms`, and STATS reports the triple
      without a status word and changes nothing. */
  lemma CommandsDispatch(c: Config, s: Snapshot, line: string)
    requires c.initialLimit >= 1
    requires ParseParams(SplitCommand(line).1).Some?
    ensures var command := SplitCommand(line).0;
            var params := ParseParams(SplitCommand(line).1).value;
            (command == Some("ADMIT") ==> LineOutcome(c, s, line) == Ok((AdmitReply(AdmitStep(s).0), AdmitStep(s).1)))
            && (command == Some("COMPLETE") ==>
                  LineOutcome(c, s, line) == Ok((COMPLETE_ACK, CompleteStep(c, s, RttParam(params), true))))
            && (command == Some("STATS") ==>
                  LineOutcome(c, s, line) == Ok((FormatStats(None, s.limit, s.inflight, s.degraded), s)))
  {
  }

  /** A parameter token without `=` ends the connection whatever the command
      word is, known or not: the parameters are parsed first. */
  lemma MalformedTokenFails(c: Config, s: Snapshot, command: string, token: string)
    requires c.initialLimit >= 1
    requires command != [] && SpaceFree(command)
    requires token != [] && SpaceFree(token) && '=' !in token
    ensures LineOutcome(c, s, command + " " + token) == Err(MalformedParam)
  {
    SplitCommandCons(command, token);
    FieldsSingle(token);
  }

  /** A line whose first word is none of the three commands, or that has no
      word at all, is answered with `ERR unknown` and leaves the limiter
      alone, as long as its parameters parse. */
  lemma UnknownCommandAnswered(c: Config, s: Snapshot, line: string)
    requires c.initialLimit >= 1
    requires SplitCommand(line).0 !in {Some("ADMIT"), Some("COMPLETE"), Some("STATS")}
    requires ParseParams(SplitCommand(line).1).Some?
    ensures LineOutcome(c, s, line) == Ok((ERR_UNKNOWN, s))
  {
  }

  /** The empty line, and a bare unknown word, are such lines. */
  lemma UnknownWordAnswered(c: Config, s: Snapshot, command: string)
    requires c.initialLimit >= 1
    requires command != [] && SpaceFree(command)
    requires command !in {"ADMIT", "COMPLETE", "STATS"}
    ensures LineOutcome(c, s, "") == Ok((ERR_UNKNOWN, s))
    ensures LineOutcome(c, s, command) == Ok((ERR_UNKNOWN, s))
  {
    SplitCommandSingle(command);
    UnknownCommandAnswered(c, s, command);
  }

  /** `STATS` reports the current triple without a status word and changes
      nothing. */
  lemma StatsReportsState(c: Config, s: Snapshot)
    requires c.initialLimit >= 1
    ensures LineOutcome(c, s, "STATS") == Ok(("limit=" + IntToString(s.limit) + " inflight=" + IntToString(s.inflight)
                                              + " degraded=" + IntToString(s.degraded) + "\n", s))
  {
    assert SpaceFree("STATS") by {
      forall i | 0 <= i < 5 ensures !IsSpace("STATS"[i]) { }
    }
    SplitCommandSingle("STATS");
    var body := "limit=" + IntToString(s.limit) + " inflight=" + IntToString(s.inflight)
      + " degraded=" + IntToString(s.degraded) + "\n";
    assert "" + "limit=" + IntToString(s.limit) + " inflight=" + IntToString(s.inflight)
      + " degraded=" + IntToString(s.degraded) + "\n" == body;
  }

  /** What one connection leaves behind: the replies written, the limiter's
      state afterwards, and whether an error ended it before its last line. */
  datatype Session = Session(replies: seq<string>, state: Snapshot, failed: bool)

  /** A session's outcome with `replies` written before it. */
  function After(replies: seq<string>, rest: Session): Session {
    rest.(replies := replies + rest.replies)
  }

  /** `handle_client` on the lines one connection sends. */
  function SessionOutcome(c: Config, s: Snapshot, lines: seq<string>): (r: Session)
    requires c.initialLimit >= 1
    ensures r.failed ==> |r.replies| < |lines|
    ensures !r.failed ==> |r.replies| == |lines|
    decreases |lines|
  {
    if lines == [] then Session([], s, false)
    else
      var r := LineOutcome(c, s, Strip(lines[0]));
      if r.Err? then Session([], s, true)
      else
        var tail := SessionOutcome(c, r.value.1, lines[1..]);
        After([r.value.0], tail)
  }

  /** A line the server cannot process ends the session there, with no reply. */
  lemma SessionStops(c: Config, s: Snapshot, lines: seq<string>)
    requires c.initialLimit >= 1 && lines != [] && LineOutcome(c, s, Strip(lines[0])).Err?
    ensures SessionOutcome(c, s, lines) == Session([], s, true)
  {
  }

  /** A line the server processes puts its reply first and hands the new
      state on to the rest of the session. */
  lemma SessionContinues(c: Config, s: Snapshot, lines: seq<string>, reply: string, next: Snapshot)
    requires c.initialLimit >= 1 && lines != [] && LineOutcome(c, s, Strip(lines[0])) == Ok((reply, next))
    ensures SessionOutcome(c, s, lines) == After([reply], SessionOutcome(c, next, lines[1..]))
  {
  }

  lemma AfterAfter(a: seq<string>, b: seq<string>, rest: Session)
    ensures After(a, After(b, rest)) == After(a + b, rest)
  {
    assert a + (b + rest.replies) == (a + b) + rest.replies;
  }

  /** A line is well formed when every parameter token has a `=`. */
  predicate WellFormed(line: string) {
    ParseParams(SplitCommand(Strip(line)).1).Some?
  }

  /** Whether a line fails does not depend on the limiter's state. */
  lemma LineFailsIffMalformed(c: Config, s: Snapshot, line: string)
    requires c.initialLimit >= 1
    ensures LineOutcome(c, s, Strip(line)).Err? <==> !WellFormed(line)
  {
  }

  /** The index of the first malformed line, or the number of lines when
      every line is well formed. */
  function FirstMalformed(lines: seq<string>): (n: nat)
    ensures n <= |lines|
  {
    if lines == [] || !WellFormed(lines[0]) then 0
    else 1 + FirstMalformed(lines[1..])
  }

  /** Every line of `lines` is well formed. */
  predicate AllWellFormed(lines: seq<string>) {
    lines == [] || (WellFormed(lines[0]) && AllWellFormed(lines[1..]))
  }

  /** Every line before that index is well formed. */
  lemma {:induction false} FirstMalformedPrefix(lines: seq<string>)
    ensures AllWellFormed(lines[..FirstMalformed(lines)])
  {
    if lines != [] && WellFormed(lines[0]) {
      var tail := lines[1..];
      FirstMalformedPrefix(tail);
      assert lines[..FirstMalformed(lines)][1..] == tail[..FirstMalformed(tail)];
    }
  }

  /** The line at that index, when there is one, is malformed. */
  lemma {:induction false} FirstMalformedStops(lines: seq<string>)
    ensures FirstMalformed(lines) < |lines| ==> !WellFormed(lines[FirstMalformed(lines)])
  {
    if lines != [] && WellFormed(lines[0]) {
      var tail := lines[1..];
      FirstMalformedStops(tail);
      if FirstMalformed(lines) < |lines| {
        assert lines[FirstMalformed(lines)] == tail[FirstMalformed(tail)];
      }
    }
  }

  /** Each line gets exactly one reply, in order, up to the first malformed
      line, which ends the connection without a reply; the connection fails
      exactly when there is such a line. */
  lemma {:induction false} SessionRepliesInOrder(c: Config, s: Snapshot, lines: seq<string>)
    requires c.initialLimit >= 1
    ensures |SessionOutcome(c, s, lines).replies| == FirstMalformed(lines)
    ensures SessionOutcome(c, s, lines).failed <==> FirstMalformed(lines) < |lines|
    decreases |lines|
  {
    if lines != [] {
      var r := LineOutcome(c, s, Strip(lines[0]));
      LineFailsIffMalformed(c, s, lines[0]);
      if r.Ok? {
        SessionRepliesInOrder(c, r.value.1, lines[1..]);
      }
    }
  }

  /** The server object: the limiter it owns. */
  class Server {
    const limiter: Limiter

    constructor (limiter: Limiter)
      ensures this.limiter == limiter
    {
      this.limiter := limiter;
    }

    /** `admit`: the kind parameter is ignored. */
    method Admit(kindParam: Option<string>) returns (reply: string)
      requires limiter.config.initialLimit >= 1
      modifies limiter
      ensures (reply, limiter.Current()) == (AdmitReply(AdmitStep(old(limiter.Current())).0), AdmitStep(old(limiter.Current())).1)
    {
      var decision := limiter.Admit();
      var status := if decision.admitted then "OK" else "REJECT";
      reply := FormatStats(Some(status), decision.limit, decision.inflight, decision.degraded);
    }

    /** `complete`: always a sampled completion, always acknowledged. */
    method Complete(params: map<string, string>) returns (reply: string)
      requires limiter.config.initialLimit >= 1
      modifies limiter
      ensures reply == COMPLETE_ACK
      ensures limiter.Current() == CompleteStep(limiter.config, old(limiter.Current()), RttParam(params), true)
    {
      var rttMs := if "rtt_ms" in params then ToI(params["rtt_ms"]) else 0;
      limiter.Complete(rttMs, true);
      reply := COMPLETE_ACK;
    }

    /** `stats`: the triple with no status word. */
    method Stats() returns (reply: string)
      ensures reply == FormatStats(None, limiter.limit, limiter.inflight, limiter.degraded)
    {
      var current := limiter.Stats();
      reply := FormatStats(None, current.limit, current.inflight, current.degraded);
    }

    method ProcessLine(line: string) returns (r: Result<string, LineError>)
      requires limiter.config.initialLimit >= 1
      modifies limiter
      ensures var spec := LineOutcome(limiter.config, old(limiter.Current()), line);
              && (spec.Ok? ==> r == Ok(spec.value.0) && limiter.Current() == spec.value.1)
              && (spec.Err? ==> r.Err? && limiter.Current() == old(limiter.Current()))
    {
      var (command, rest) := SplitCommand(line);
      var params := ParseParams(rest);
      if params.None? {
        return Err(MalformedParam);
      }
      var reply;
      if command == Some("ADMIT") {
        reply := Admit(if "kind" in params.value then Some(params.value["kind"]) else None);
      } else if command == Some("COMPLETE") {
        reply := Complete(params.value);
      } else if command == Some("STATS") {
        reply := Stats();
      } else {
        reply := ERR_UNKNOWN;
      }
      r := Ok(reply);
    }

    /** `handle_client`: reads lines until the connection's input ends, writes
        one reply per stripped line, and stops at the first error. */
    method HandleClient(lines: seq<string>) returns (replies: seq<string>, failed: bool)
      requires limiter.config.initialLimit >= 1
      modifies limiter
      ensures Session(replies, limiter.Current(), failed) == SessionOutcome(limiter.config, old(limiter.Current()), lines)
    {
      replies := [];
      failed := false;
      var i := 0;
      assert lines[0..] == lines;
      while i < |lines|
        invariant 0 <= i <= |lines|
        invariant After(replies, SessionOutcome(limiter.config, limiter.Current(), lines[i..]))
                  == SessionOutcome(limiter.config, old(limiter.Current()), lines)
      {
        ghost var before := limiter.Current();
        ghost var spec := LineOutcome(limiter.config, before, Strip(lines[i]));
        var r := ProcessLine(Strip(lines[i]));
        if r.Err? {
          assert spec.Err? && limiter.Current() == before;
          SessionStops(limiter.config, before, lines[i..]);
          failed := true;
          assert replies + [] == replies;
          return;
        }
        assert spec == Ok((r.value, limiter.Current()));
        assert lines[i..][1..] == lines[i + 1..];
        SessionContinues(limiter.config, before, lines[i..], r.value, limiter.Current());
        ghost var rest := SessionOutcome(limiter.config, limiter.Current(), lines[i + 1..]);
        AfterAfter(replies, [r.value], rest);
        replies := replies + [r.value];
        i := i + 1;
      }
      assert lines[i..] == [];
      assert replies + [] == replies;
    }
  }
}
