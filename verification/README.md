# Discourse: load shedder, checklist, sheet machines, category search, bookmark fix

A Dafny model of nine small pieces of Discourse, with the properties their
code promises proved about the model.

- **Load shedder.** An AIMD admission limiter (`AimdLimiter`) is a class
  whose `admit`, `complete` and `update_limit` update `limit`, `inflight`
  and `degraded` in place. Every sequence of calls from construction keeps
  `lmin <= limit <= lmax`, as long as the additive step is not negative
  and the multiplicative decrease is at most 1. The defaults, 1 and 0.9,
  meet both conditions. A larger decrease or a negative step breaks the
  bounds. The daemon's line protocol has two sides:
  - the server (`ShedderServer`) parses a line, dispatches it to the
    limiter, and answers one reply per line until a malformed line ends
    the connection;
  - the client (`ShedderClient`) builds the request lines, reads the
    `ADMIT` reply back into a decision, and caches its socket. The client
    reads back exactly what the server formatted.
- **Rack middleware** (`ShedderMiddleware`). It decides whether the app
  runs, answers 503 with the busy headers, attaches the decision headers,
  defaults the status to 500, reports completion to the daemon, and
  throttles its warnings to one per 60 seconds.
- **Checklist plugin.** The toggle service (`ChecklistToggle`) validates an
  offset and flips `[ ]` and `[x]` in the raw text. The markdown pass
  (`ChecklistMarkdown`) does three things:
  - splits text tokens around the boxes;
  - computes line offsets;
  - tags each `check_open` token with the source offset of its box. That
    offset is the one the toggle service is later given.
- **d-sheet state tables.** `SheetGuards`, `SheetPosition`,
  `SheetAnimation`, `SheetLongRunning` and `SheetLifecycle` model the
  guards and the position, animation, long-running and sheet machines.
  Each is a transition function over enumerated states and events.
- **Category hierarchy search** (`CategorySearch`). The recursive query is
  a function over a sequence of categories:
  - matched categories, with the term and the `only_ids`/`except_ids`
    filters;
  - the ancestor closure;
  - the tree from the roots, with name paths and depths;
  - the order by name path, then id.

  The `matched` condition is modelled twice, under a `Precedence`
  parameter. `AsWritten` follows SQL precedence, where `AND` binds tighter
  than `OR`, so the id filters only guard the piece test. `Intended`
  applies the filters to either term test. See "## Findings".
- **Stale-bookmark migration** (`BookmarkMigration`). The batched `UPDATE`
  clears `topic_users.bookmarked` in place on an array of rows when no
  qualifying bookmark exists.

`Wrappers` holds `Option` (Ruby's nil, JavaScript's null) and `Result`
(raised errors). `Text` writes out the Ruby string operations the line
protocol uses: `strip`, awk-style `split(" ")`, `split("=", 2)`, `to_h`,
`to_i` and `Integer#to_s`.

Where the code and its description disagree, the model follows the code:

- The server parses the parameters before it looks at the command. A
  token without `=` therefore ends the connection whatever the command,
  including an unknown one, before `ERR unknown` could be written.
- The client reads `ERR unknown` as a malformed reply, which raises
  `ArgumentError`. It does not read it as a rejection.
- The middleware calls the client's `admit` with no argument and
  `complete(status:, rtt_ms:)`.
- The `after_validation` block of the category search assigns a local
  variable only, so it has no effect.

## Model

| member | source | states |
|---|---|---|
| AimdLimiter.NewConfig | lib/load_shedder/aimd_limiter.rb:15-25 | the initial limit is clamped to at least 1 and kept otherwise; the target, the additive step and the decrease are kept; the step defaults to 1 and the decrease to 9/10 |
| AimdLimiter.Lmin | lib/load_shedder/aimd_limiter.rb:68-70 | lmin is between 1 and lmax; an initial limit of 2 or more gives half of it rounded down (2 lmin <= initial < 2 lmin + 2), a smaller one gives 1 |
| AimdLimiter.Decreased | lib/load_shedder/aimd_limiter.rb:58 | the result is `floor(limit * num/den)` for the decrease num/den: den*r <= num*limit < den*(r+1) |
| AimdLimiter.DecreasedAtMost | lib/load_shedder/aimd_limiter.rb:58 | a decrease of at most 1 never raises a non-negative limit |
| AimdLimiter.AdmitStep | lib/load_shedder/aimd_limiter.rb:32-38 | admitted iff inflight < limit; inflight grows by one exactly when admitted; limit and degraded unchanged; the decision reports the state after the call |
| AimdLimiter.Retune | lib/load_shedder/aimd_limiter.rb:56-66 | slow: limit := max(lmin, floor(limit * decrease)) and degraded := 1; healthy under load (2 inflight >= limit): limit := min(lmax, limit + step) and degraded := 0; healthy and idle: limit kept and degraded := 0 |
| AimdLimiter.CompleteStep | lib/load_shedder/aimd_limiter.rb:40-48 | inflight is decremented only when positive; without a sample nothing else changes; with one, the limit is retuned with slow meaning rtt > target |
| AimdLimiter.InitialInvariant | lib/load_shedder/aimd_limiter.rb:27-29 | the state after construction satisfies lmin <= limit <= lmax, inflight >= 0 and degraded in {0, 1} |
| AimdLimiter.ApplyKeepsInvariant | lib/load_shedder/aimd_limiter.rb:32-66 | with a non-negative step and a decrease of at most 1, each admit, complete or stats call keeps that invariant |
| AimdLimiter.RunKeepsInvariant | lib/load_shedder/aimd_limiter.rb:32-66 | with a non-negative step and a decrease of at most 1, any sequence of calls keeps that invariant |
| AimdLimiter.FromConstruction | lib/load_shedder/aimd_limiter.rb:15-74 | from construction with any initial limit and target, a non-negative step and a decrease of at most 1 (the defaults among them), every call sequence ends in a state with lmin <= limit <= lmax |
| AimdLimiter.LargeDecreaseExceedsLmax | lib/load_shedder/aimd_limiter.rb:57-59 | with a decrease of 1.5 and initial limit 10, the first slow sample sets the limit to 15, above lmax |
| AimdLimiter.NegativeStepUndercutsLmin | lib/load_shedder/aimd_limiter.rb:60-62 | with a step of -10 and initial limit 10, six admits and a healthy sample set the limit to 0, below lmin |
| AimdLimiter.AdmitsWithoutComplete | lib/load_shedder/aimd_limiter.rb:32-38 | from any state, k admits with no completion in between grant exactly those made while inflight < limit; limit and degraded stay; inflight gains the number granted and ends at max(inflight, min(limit, inflight + k)), so a state already over the limit admits nothing |
| AimdLimiter.ExampleRejectsOverLimit | lib/load_shedder/aimd_limiter.rb:34-35 | with limit 1, three admits give granted, rejected, rejected, and inflight ends at 1 |
| AimdLimiter.ExampleSlowSampleBacksOff | lib/load_shedder/aimd_limiter.rb:57-59 | from limit 4, a slow sample gives limit 3 and degraded 1 |
| AimdLimiter.ExampleSaturatedHealthyIncreases | lib/load_shedder/aimd_limiter.rb:60-62 | limit 3 with 3 inflight and a healthy sample reaches limit 4 and degraded 0 |
| AimdLimiter.ExampleIdleHealthyUnchanged | lib/load_shedder/aimd_limiter.rb:63-64 | a healthy sample with few inflight keeps limit 4 and clears degraded |
| AimdLimiter.ExampleRespectsMinimum | lib/load_shedder/aimd_limiter.rb:68-70 | with initial limit 4, lmin is 2, and a slow sample at limit 2 keeps it at 2 |
| AimdLimiter.Limiter.constructor | lib/load_shedder/aimd_limiter.rb:15-30 | the config is the clamped one with the given or default step and decrease, the state is limit = initial, inflight 0, degraded 0, and the invariant holds |
| AimdLimiter.Limiter.DecisionHash | lib/load_shedder/aimd_limiter.rb:76-78 | the hash carries the given flag and the current limit, inflight and degraded |
| AimdLimiter.Limiter.Admit | lib/load_shedder/aimd_limiter.rb:32-38 | the decision and new state are AdmitStep's; admitted iff the old inflight was below the old limit; the invariant is kept |
| AimdLimiter.Limiter.Complete | lib/load_shedder/aimd_limiter.rb:40-48 | the new state is CompleteStep's, and the invariant is kept when the step is non-negative and the decrease at most 1 |
| AimdLimiter.Limiter.UpdateLimit | lib/load_shedder/aimd_limiter.rb:56-66 | the new state is Retune's |
| AimdLimiter.Limiter.Stats | lib/load_shedder/aimd_limiter.rb:50-52 | returns the current triple and changes nothing |
| ShedderServer.FormatStats | lib/load_shedder/server.rb:91-94 | the reply is one line ending in a newline, with no newline before the end when the status word has none |
| ShedderServer.AdmitReply | lib/load_shedder/server.rb:73-77 | the reply to an admission is one line led by `OK ` when admitted and `REJECT ` otherwise |
| ShedderServer.RttParam | lib/load_shedder/server.rb:80 | a COMPLETE line without `rtt_ms` counts a round trip of 0 |
| ShedderServer.RttParamReadsBack | lib/load_shedder/server.rb:80 | an `rtt_ms` written as an integer is read back as that integer |
| ShedderServer.ParseParams | lib/load_shedder/server.rb:96-100 | no rest of line gives the empty map; otherwise the parse succeeds iff every token holds `=` |
| ShedderServer.LineOutcome | lib/load_shedder/server.rb:57-71 | a line fails iff its parameters do not parse, whatever the command |
| ShedderServer.MalformedTokenFails | lib/load_shedder/server.rb:57-59 | a command followed by a token without `=` fails, whatever the command |
| ShedderServer.UnknownCommandAnswered | lib/load_shedder/server.rb:57-71 | a line whose first word is none of ADMIT, COMPLETE and STATS, or that has no word, is answered `ERR unknown\n` and leaves the limiter unchanged, provided its parameters parse |
| ShedderServer.UnknownWordAnswered | lib/load_shedder/server.rb:57-71 | the empty line and a bare unknown word are both answered `ERR unknown\n`, limiter unchanged |
| ShedderServer.StatsReportsState | lib/load_shedder/server.rb:86-89 | `STATS` is answered `limit=L inflight=I degraded=D\n` from the current state, which it leaves unchanged |
| ShedderServer.CommandsDispatch | lib/load_shedder/server.rb:57-71 | a line whose parameters parse is dispatched on its word: ADMIT answers AdmitReply of AdmitStep's decision and takes its state, whatever `kind` says; COMPLETE answers `OK` and applies a sampled CompleteStep with the line's `rtt_ms`; STATS answers the triple without a status word and keeps the state |
| ShedderServer.LineFailsIffMalformed | lib/load_shedder/server.rb:104 | whether a stripped line fails does not depend on the limiter's state |
| ShedderServer.FirstMalformedPrefix | lib/load_shedder/server.rb:102-111 | every line before the first malformed one is well formed |
| ShedderServer.SessionOutcome | lib/load_shedder/server.rb:102-111 | a connection that fails has fewer replies than lines; one that does not has one reply per line |
| ShedderServer.FirstMalformedStops | lib/load_shedder/server.rb:102-111 | the line at that index, when there is one, is malformed |
| ShedderServer.SessionRepliesInOrder | lib/load_shedder/server.rb:102-111 | a connection gets exactly one reply per line up to the first malformed line, and ends in error iff there is one |
| ShedderServer.Server.constructor | lib/load_shedder/server.rb:21-22 | the server owns the given limiter |
| ShedderServer.Server.Admit | lib/load_shedder/server.rb:73-77 | the reply is `OK`/`REJECT` followed by the stats of AdmitStep's decision, and the limiter takes AdmitStep's state |
| ShedderServer.Server.Complete | lib/load_shedder/server.rb:79-84 | the reply is `OK\n`; the limiter completes with the given rtt (0 when missing), with sample set |
| ShedderServer.Server.Stats | lib/load_shedder/server.rb:86-89 | the reply is the unprefixed stats line of the limiter's state |
| ShedderServer.Server.ProcessLine | lib/load_shedder/server.rb:57-71 | the reply and new state are LineOutcome's; on error the limiter is unchanged |
| ShedderServer.Server.HandleClient | lib/load_shedder/server.rb:102-111 | the replies, final state and failure flag are SessionOutcome's over the connection's lines |
| Text.KeyValues | lib/load_shedder/server.rb:99 | `to_h` succeeds iff every part holds `=` |
| Text.Strip | lib/load_shedder/server.rb:104 | `strip` leaves no whitespace or NUL at either end |
| Text.Fields | lib/load_shedder/server.rb:99 | `split(" ")` yields non-empty pieces with no separator in them |
| Text.SplitCommand | lib/load_shedder/server.rb:58 | `split(" ", 2)`: no first word means no rest; a first word is non-empty and free of separators |
| Text.ToI | lib/load_shedder/client.rb:41-43 | `to_i` reads a string of digits as its decimal value, and a string that starts with anything but whitespace, a digit or a sign as 0 |
| Text.IntToString | lib/load_shedder/server.rb:93 | `to_s` of an integer is non-empty, has no separator and no `=`, and ends in a digit |
| Text.KeyValuesLast | lib/load_shedder/server.rb:99 | a key maps to the value of the last part that defines it |
| Text.ToIOfIntToString | lib/load_shedder/client.rb:41-43 | `to_i` reads back every integer that `to_s` wrote |
| ShedderClient.CompleteRequest | lib/load_shedder/client.rb:23 | the request is exactly one line: it ends in a newline and has no other |
| ShedderClient.ParseAdmit | lib/load_shedder/client.rb:31-46 | no line gives the fail-open decision (admitted, no limit or inflight, degraded 0, not contacted); a line raises iff a token after the first lacks `=`; otherwise admitted iff the first token is `OK`, and contacted |
| ShedderClient.ParseJoined | lib/load_shedder/client.rb:36-45 | a status word followed by `limit=`, `inflight=` and `degraded=` tokens is read into exactly those values |
| ShedderClient.TokensReadBack | lib/load_shedder/client.rb:38 | three distinct `key=value` tokens map each key to its value |
| ShedderClient.StatsLineJoined | lib/load_shedder/server.rb:91-94 | a prefixed stats reply is the status word and the three `key=value` tokens joined by spaces |
| ShedderClient.ParseAdmitReply | lib/load_shedder/client.rb:31-46 | the client reads the server's ADMIT reply back into the limiter's own decision: admitted, limit, inflight and degraded, contacted |
| ShedderClient.OneTokenParams | lib/load_shedder/server.rb:96-100 | a single `key=value` token parses to that binding |
| ShedderClient.TwoTokenParams | lib/load_shedder/server.rb:96-100 | two `key=value` tokens parse, binding the first key to its value |
| ShedderClient.AdmitRequestServed | lib/load_shedder/client.rb:16 | the server answers the client's ADMIT request with the reply for AdmitStep's decision and takes AdmitStep's state |
| ShedderClient.CompleteRequestServed | lib/load_shedder/client.rb:23 | the server answers the client's COMPLETE request with `OK\n` and completes with the client's rtt, with sample set |
| ShedderClient.AdmitRoundTrip | lib/load_shedder/client.rb:14-19 | end to end, the client's ADMIT yields exactly the limiter's decision, contacted |
| ShedderClient.EnsureSocketStep | lib/load_shedder/client.rb:56-61 | an open cached socket is returned and kept; otherwise the cache is cleared and the dial decides: a connection is returned open and cached, a failed dial raises its own error and leaves nothing cached |
| ShedderClient.WithSocketStep | lib/load_shedder/client.rb:48-54 | the result is the body's, or the dial's error; a socket still cached afterwards is open and is the one `ensure_socket` left |
| ShedderClient.AdmitBody | lib/load_shedder/client.rb:14-19 | no reply line gives the fail-open decision; a write or read error is raised as it is; a reply that does not parse raises ArgumentError |
| ShedderClient.CompleteBody | lib/load_shedder/client.rb:21-27 | succeeds (nil) iff the daemon replied, whatever the reply; a write or read error is raised as it is |
| ShedderClient.DialFailureRaised | lib/load_shedder/client.rb:48-54 | a failed dial is raised as it is, with no socket cached |
| ShedderClient.TransportErrorDropsSocket | lib/load_shedder/client.rb:48-54 | the block's result passes through; EPIPE, ECONNRESET or IOError clears the cached socket, and any other outcome keeps it |
| ShedderClient.Client.constructor | lib/load_shedder/client.rb:9-12 | no socket is cached and nothing has been written |
| ShedderClient.Client.CloseSocket | lib/load_shedder/client.rb:63-66 | the cache is cleared and nothing is written |
| ShedderClient.Client.EnsureSocket | lib/load_shedder/client.rb:56-61 | the result and the new cache are EnsureSocketStep's |
| ShedderClient.Client.Admit | lib/load_shedder/client.rb:14-19 | the result and the new cache are those of the socket wrapper around parsing the reply; `ADMIT kind=anon\n` is written when a socket was had and the write did not fail, whatever the argument |
| ShedderClient.Client.Complete | lib/load_shedder/client.rb:21-27 | the result is nil unless the transport failed; the COMPLETE line for the status and rtt is written under the same condition |
| ShedderMiddleware.LoggedIn | lib/load_shedder/middleware.rb:93-98 | logged in iff an auth cookie is present; a raised lookup gives exactly one auth-check warning and counts as not logged in |
| ShedderMiddleware.Verdict | lib/load_shedder/middleware.rb:56-61 | a transport error gives the fail-open decision, not contacted; any other error escapes; a decision passes through |
| ShedderMiddleware.Compact | lib/load_shedder/middleware.rb:84 | exactly the non-nil entries are kept, with their values |
| ShedderMiddleware.BusyHeaders | lib/load_shedder/middleware.rb:77-85 | `Content-Type: text/plain`, `Retry-After: 2`, and each `X-AC-*` header iff its field is not nil, carrying that field |
| ShedderMiddleware.BusyHeadersOnly | lib/load_shedder/middleware.rb:77-85 | the busy response carries no header besides those five |
| ShedderMiddleware.AttachHeaders | lib/load_shedder/middleware.rb:87-91 | each non-nil decision field sets its `X-AC-*` header, and a nil field leaves that header as the app set it |
| ShedderMiddleware.AttachKeepsOtherHeaders | lib/load_shedder/middleware.rb:87-91 | every header other than the three `X-AC-*` ones is present, with the same value, exactly when the app set it |
| ShedderMiddleware.AttachKeepsRtt | lib/load_shedder/middleware.rb:41-44 | the round trip read after the decision headers are attached equals the one read from the app's own headers |
| ShedderMiddleware.ExtractRtt | lib/load_shedder/middleware.rb:69-75 | without an `X-Runtime` header the rtt is the elapsed time |
| ShedderMiddleware.CompleteRescue | lib/load_shedder/middleware.rb:63-67 | a transport error from `complete` is warned about and swallowed; any other error escapes |
| ShedderMiddleware.Proceed | lib/load_shedder/middleware.rb:29-48 | past admission: the app ran; completion is reported iff the daemon was contacted, with the app's status or 500 and the round trip read from the headers after the decision headers are attached; an answer is the app's body with its status or 500 and its headers or none plus the decision headers; an app error is re-raised; a re-raise is warned about last; earlier warnings are kept |
| ShedderMiddleware.Gate | lib/load_shedder/middleware.rb:13-52 | disabled: the app's own response, the daemon never asked; the app runs iff the request is let through (logged in, or admitted); turned away: 503 with the busy headers and body, nothing reported; let through and answered: the app's status or 500, its headers or none with the decision headers attached, its body, and completion reported iff the daemon was contacted, with the round trip read from those headers; every escaping error is warned about and re-raised |
| ShedderMiddleware.FailOpenProceeds | lib/load_shedder/middleware.rb:56-61 | a transport error while admitting lets the request through, warns, and reports no completion |
| ShedderMiddleware.SignedInOverridesReject | lib/load_shedder/middleware.rb:19-22 | a rejected logged-in request still runs and is reported, while the same anonymous request gets the 503 |
| ShedderMiddleware.WarnStep | lib/load_shedder/middleware.rb:100-108 | logs and stamps the time when there is no stamp or 60 seconds have passed, else changes nothing; logged warnings stay 60 seconds apart |
| ShedderMiddleware.Throttle | lib/load_shedder/middleware.rb:100-108 | warnings asked for in turn, each at its own second, keep the log's entries 60 seconds apart |
| ShedderMiddleware.ThrottleLogsAsked | lib/load_shedder/middleware.rb:100-108 | the log only grows, and only by warnings that were asked for; when it gains nothing the stamp is unchanged, otherwise the stamp is the time of its last entry |
| ShedderMiddleware.CloseLogsOnce | lib/load_shedder/middleware.rb:100-108 | warnings asked for less than 60 seconds apart from each other reach the log at most once |
| ShedderMiddleware.ApartWarningsBothLogged | lib/load_shedder/middleware.rb:100-108 | two warnings asked for 60 seconds apart are both logged |
| ShedderMiddleware.RequestCanLogTwice | lib/load_shedder/middleware.rb:13-52 | one request whose auth check raises and whose app raises a minute later logs both warnings |
| ShedderMiddleware.ThrottleSnoc | lib/load_shedder/middleware.rb:100-108 | one more warning is one more throttled step, at the second its kind is asked at |
| ShedderMiddleware.Middleware.WarnAt | lib/load_shedder/middleware.rb:100-108 | the next warning of a request is throttled at the second the clock gives for its kind |
| ShedderMiddleware.Middleware.CheckLogin | lib/load_shedder/middleware.rb:93-98 | the login flag and warnings are LoggedIn's; a raised lookup's warning is throttled at the auth check's second |
| ShedderMiddleware.Middleware.AskAdmission | lib/load_shedder/middleware.rb:56-61 | the verdict is Verdict's; a rescued admit failure adds one warning, throttled at the admit call's second |
| ShedderMiddleware.Middleware.Report | lib/load_shedder/middleware.rb:38-45 | completion is reported iff the daemon was contacted, with the status and the round trip read from the headers; a rescued complete failure adds one warning, throttled at the complete call's second; an unrescued one escapes |
| ShedderMiddleware.Middleware.constructor | lib/load_shedder/middleware.rb:8-11 | no warning time is stamped and the log is empty |
| ShedderMiddleware.Middleware.Warn | lib/load_shedder/middleware.rb:100-108 | the new stamp and log are WarnStep's |
| ShedderMiddleware.Middleware.Admission | lib/load_shedder/middleware.rb:19-22 | the login check and the admission verdict are LoggedIn's and Verdict's; the warnings are the failed auth check's and the rescued admit failure's, in that order, and pass through the throttle, each at its own second |
| ShedderMiddleware.Middleware.Call | lib/load_shedder/middleware.rb:13-52 | the answer and trace are Gate's, and the trace's warnings pass through the throttle, each at the second the clock gives for its kind |
| ShedderMiddleware.Middleware.Serve | lib/load_shedder/middleware.rb:29-48 | the admitted path's answer and trace are Proceed's, with its warnings throttled, each at its own second |
| ChecklistToggle.ValidateCheckboxAtOffset | plugins/checklist/app/services/checklist/toggle.rb:38-70 | valid iff the offset is inside the text, not after `!` or `\`, and starts `[ ]` or `[x]`; currently checked iff `[x]`; `[X]` fails as permanent exactly there |
| ChecklistToggle.Segment | plugins/checklist/app/services/checklist/toggle.rb:56 | the segment is the 1 to 3 characters of the text at the offset, 3 exactly when the text has them |
| ChecklistToggle.IsBox | plugins/checklist/app/services/checklist/toggle.rb:59 | on a segment of at most three characters, accepted iff `[`, one of space, `x`, `X`, then `]` occurs in it |
| ChecklistToggle.ToggleCheckbox | plugins/checklist/app/services/checklist/toggle.rb:72-79 | same length; the box becomes `[ ]` when checked and `[x]` otherwise; every character outside the box is unchanged |
| ChecklistToggle.Toggle | plugins/checklist/app/services/checklist/toggle.rb:7-22 | a negative offset fails the contract and nothing else does; otherwise it succeeds iff validation does, with the opposite state |
| ChecklistToggle.ToggleChangesOneChar | plugins/checklist/app/services/checklist/toggle.rb:75 | only the character at offset+1 changes, between ` ` and `x`, and the length is kept |
| ChecklistToggle.ToggleTwiceRestores | plugins/checklist/app/services/checklist/toggle.rb:72-79 | toggling the same offset twice restores the raw text and the state |
| ChecklistToggle.PermanentNeverToggled | plugins/checklist/app/services/checklist/toggle.rb:66 | an `[X]` box is never toggled |
| ChecklistToggle.ToggleInText | plugins/checklist/app/services/checklist/toggle.rb:38-79 | a box in running text, not after `!` or `\`, flips and leaves the text around it untouched |
| ChecklistMarkdown.GetClasses | plugins/checklist/assets/javascripts/lib/discourse-markdown/checklist.js:4-13 | classes exist exactly for the marks ` `, `x`, `X` |
| ChecklistMarkdown.ClassesDistinguishMarks | plugins/checklist/assets/javascripts/lib/discourse-markdown/checklist.js:4-13 | the three marks get different classes: `x` checked, `X` checked permanent, ` ` not checked |
| ChecklistMarkdown.BoxesDoNotOverlap | plugins/checklist/assets/javascripts/lib/discourse-markdown/checklist.js:1-2 | `[]` is not a box, and two boxes never overlap |
| ChecklistMarkdown.NextBox | plugins/checklist/assets/javascripts/lib/discourse-markdown/checklist.js:31 | the first box at or after the position, or none |
| ChecklistMarkdown.Checkboxed | plugins/checklist/assets/javascripts/lib/discourse-markdown/checklist.js:26-52 | null iff the content holds no box |
| ChecklistMarkdown.Scan | plugins/checklist/assets/javascripts/lib/discourse-markdown/checklist.js:26-52 | the scan yields no tokens exactly when it starts at the end of the text |
| ChecklistMarkdown.ScanWellShaped | plugins/checklist/assets/javascripts/lib/discourse-markdown/checklist.js:15-52 | text tokens are never empty or adjacent; each box is an untagged `check_open` directly followed by `check_close` |
| ChecklistMarkdown.ScanRendersContent | plugins/checklist/assets/javascripts/lib/discourse-markdown/checklist.js:26-52 | the text pieces and the boxes put back together give the content |
| ChecklistMarkdown.ApplyCheckboxes | plugins/checklist/assets/javascripts/lib/discourse-markdown/checklist.js:26-52 | the loop over matches gives Checkboxed's result |
| ChecklistMarkdown.LineOffsets | plugins/checklist/assets/javascripts/lib/discourse-markdown/checklist.js:55-63 | starts at 0, strictly increasing, one entry after each newline, one more than the newlines |
| ChecklistMarkdown.BuildLineOffsets | plugins/checklist/assets/javascripts/lib/discourse-markdown/checklist.js:55-63 | the loop computes LineOffsets |
| ChecklistMarkdown.Find | plugins/checklist/assets/javascripts/lib/discourse-markdown/checklist.js:113 | `indexOf`: the first occurrence at or after the position, or none |
| ChecklistMarkdown.PastBackticks | plugins/checklist/assets/javascripts/lib/discourse-markdown/checklist.js:120-123 | the position just past a run of backticks |
| ChecklistMarkdown.CodeEnd | plugins/checklist/assets/javascripts/lib/discourse-markdown/checklist.js:108-128 | a found position lies between the search start and the end of the source |
| ChecklistMarkdown.CodeEndFindsTicked | plugins/checklist/assets/javascripts/lib/discourse-markdown/checklist.js:108-128 | when the code occurs at or after the start, right after a backtick, a position is found |
| ChecklistMarkdown.CodeEndNoneWhenUnticked | plugins/checklist/assets/javascripts/lib/discourse-markdown/checklist.js:108-128 | when no such occurrence exists, nothing is found and the search stays |
| ChecklistMarkdown.CodeEndSkipsFirstTicked | plugins/checklist/assets/javascripts/lib/discourse-markdown/checklist.js:108-128 | the found position is just past the backticks that follow the first such occurrence |
| ChecklistMarkdown.UnescapedBox | plugins/checklist/assets/javascripts/lib/discourse-markdown/checklist.js:137-156 | the first box at or after the position that is not after `!` or `\`, or none |
| ChecklistMarkdown.AssignStep | plugins/checklist/assets/javascripts/lib/discourse-markdown/checklist.js:105-158 | only `check_open` tokens change: they keep their mark and take the offset of the first unescaped box, and the search moves past it (no box: token and position kept); inline code moves the search past the first occurrence of the code after a backtick; a line break moves it past the next newline; text, `check_close` and other tokens move nothing; the position never moves back |
| ChecklistMarkdown.Assign | plugins/checklist/assets/javascripts/lib/discourse-markdown/checklist.js:105-158 | one token out per token in; the search position never moves back |
| ChecklistMarkdown.AssignedOffsetsIncrease | plugins/checklist/assets/javascripts/lib/discourse-markdown/checklist.js:135-156 | the offsets tagged in a block strictly increase, are boxes the toggle accepts, and lie at or after the start and before the end of the search |
| ChecklistMarkdown.Expanded | plugins/checklist/assets/javascripts/lib/discourse-markdown/checklist.js:83-101 | the backward pass never drops a token |
| ChecklistMarkdown.ExpandedKeepsSource | plugins/checklist/assets/javascripts/lib/discourse-markdown/checklist.js:83-101 | splitting top-level text tokens around boxes keeps the text they render |
| ChecklistMarkdown.ReplaceTexts | plugins/checklist/assets/javascripts/lib/discourse-markdown/checklist.js:83-101 | the reverse pass replaces exactly the top-level text tokens that hold a box |
| ChecklistMarkdown.BlockStart | plugins/checklist/assets/javascripts/lib/discourse-markdown/checklist.js:79-81 | a block's search starts no earlier than the previous one ended, and there when it has no line map |
| ChecklistMarkdown.WellShapedUntagged | plugins/checklist/assets/javascripts/lib/discourse-markdown/checklist.js:15-52 | the tokens `applyCheckboxes` emits carry no offset |
| ChecklistMarkdown.ExpandedUntagged | plugins/checklist/assets/javascripts/lib/discourse-markdown/checklist.js:83-101 | splitting text tokens around their boxes adds no offset |
| ChecklistMarkdown.ProcessedOffsetsIncrease | plugins/checklist/assets/javascripts/lib/discourse-markdown/checklist.js:65-159 | across all blocks of one pass, the offsets tagged strictly increase, are boxes the toggle accepts, and lie between the start and the end of the search |
| ChecklistMarkdown.BlockStep | plugins/checklist/assets/javascripts/lib/discourse-markdown/checklist.js:73-158 | non-inline blocks are left alone; the search position never moves back |
| ChecklistMarkdown.Process | plugins/checklist/assets/javascripts/lib/discourse-markdown/checklist.js:72-159 | one block out per block in; the search position never decreases across blocks |
| ChecklistMarkdown.MarkdownState.constructor | plugins/checklist/assets/javascripts/lib/discourse-markdown/checklist.js:65-66 | the state holds the source and the block tokens |
| ChecklistMarkdown.MarkdownState.ProcessChecklist | plugins/checklist/assets/javascripts/lib/discourse-markdown/checklist.js:65-160 | the block tokens become Process's result from position 0 |
| ChecklistMarkdown.MarkdownState.ProcessBlock | plugins/checklist/assets/javascripts/lib/discourse-markdown/checklist.js:73-158 | one block is rewritten as BlockStep says |
| ChecklistMarkdown.MarkdownState.AssignOffsets | plugins/checklist/assets/javascripts/lib/discourse-markdown/checklist.js:105-158 | the offset loop computes Assign |
| SheetGuards.GuardsAgree | frontend/discourse/float-kit/components/d-sheet/states.js:19-26 | `notSkipClosing` is the negation of `skipClosing`; `skipOpening` is symmetric in the two contexts; with no machine flags, the message flag decides `skipClosing` |
| SheetGuards.Holds | frontend/discourse/float-kit/components/d-sheet/states.js:19-26 | a guard reads the union of the message context and the machine context |
| SheetGuards.FirstEnabled | frontend/discourse/float-kit/components/d-sheet/states.js:53-61 | the index of the first candidate whose guard holds, every earlier one disabled |
| SheetGuards.Select | frontend/discourse/float-kit/components/d-sheet/states.js:53-61 | no target iff no candidate is enabled, so a list ending in an unguarded candidate gives a target iff it is non-empty; otherwise the first enabled candidate's target |
| SheetGuards.GuardOrFallback | frontend/discourse/float-kit/components/d-sheet/states.js:53-61 | a guarded candidate followed by an unguarded one picks the first iff its guard holds, else the second |
| SheetGuards.SelectSingle | frontend/discourse/float-kit/components/d-sheet/states.js:66 | a single unguarded target is always taken |
| SheetPosition.Settle | frontend/discourse/float-kit/components/d-sheet/states.js:141-145 | no state is left resting in `come-back`; every other state is kept |
| SheetPosition.OutOn | frontend/discourse/float-kit/components/d-sheet/states.js:51-63 | `out` handles only READY_TO_GO_FRONT, only towards `front`, and ends with an unguarded candidate |
| SheetPosition.FrontOn | frontend/discourse/float-kit/components/d-sheet/states.js:64-67 | `front` itself handles only GO_OUT, towards `out` |
| SheetPosition.FrontStatusOn | frontend/discourse/float-kit/components/d-sheet/states.js:68-99 | `opening` and `closing` handle only NEXT, `idle` only READY_TO_GO_DOWN and READY_TO_GO_OUT; only READY_TO_GO_DOWN leads into `covered` |
| SheetPosition.CoveredStatusOn | frontend/discourse/float-kit/components/d-sheet/states.js:101-149 | `come-back` handles no message; every other status goes to the front idle status on GOTO_FRONT_IDLE; every other target is covered |
| SheetPosition.Transition | frontend/discourse/float-kit/components/d-sheet/states.js:51-149 | no target iff no table of the state handles the event (the guards never block a handled one); entering `covered` from outside needs READY_TO_GO_DOWN |
| SheetPosition.Step | frontend/discourse/float-kit/components/d-sheet/states.js:51-149 | an unhandled message changes nothing; a step never rests in `come-back`; entering `covered` needs READY_TO_GO_DOWN |
| SheetPosition.GoFront | frontend/discourse/float-kit/components/d-sheet/states.js:51-63 | `out` + `READY_TO_GO_FRONT` gives `front.status:idle` when `skipOpening` holds, else `front` in `opening` |
| SheetPosition.FrontLifecycle | frontend/discourse/float-kit/components/d-sheet/states.js:64-99 | `opening` -> `idle` on `NEXT`, `idle` -> `closing` on `READY_TO_GO_OUT`, `closing` -> `out` on `NEXT`, and `GO_OUT` leaves any front status for `out` |
| SheetPosition.ComeBackReturns | frontend/discourse/float-kit/components/d-sheet/states.js:125-146 | covered `idle` + `READY_TO_GO_DOWN` targets `come-back` under `skipOpening`, landing back in `idle`, else `going-down` |
| SheetPosition.NeverRestsInComeBack | frontend/discourse/float-kit/components/d-sheet/states.js:141-145 | no sequence of messages leaves the machine in `come-back` |
| SheetPosition.CoveredOnlyByGoingDown | frontend/discourse/float-kit/components/d-sheet/states.js:85-93 | a sheet not covered stays uncovered until a `READY_TO_GO_DOWN` |
| SheetAnimation.OneAnimationAtATime | frontend/discourse/float-kit/components/d-sheet/states.js:173-177 | a running animation returns to `none` on `NEXT` and ignores every other event |
| SheetAnimation.On | frontend/discourse/float-kit/components/d-sheet/states.js:158-179 | `none` starts an animation on every event but NEXT and never stays; a running animation only returns to `none`, on NEXT; only `closing` is guarded, by NOT_SKIP_CLOSING |
| SheetAnimation.Step | frontend/discourse/float-kit/components/d-sheet/states.js:158-179 | each change either starts an animation from `none` or ends one |
| SheetAnimation.ActuallyCloseGuarded | frontend/discourse/float-kit/components/d-sheet/states.js:164-167 | `ACTUALLY_CLOSE` reaches `closing` iff `notSkipClosing` holds |
| SheetAnimation.SkipClosingNeverCloses | frontend/discourse/float-kit/components/d-sheet/states.js:164-167 | under a machine context with `skipClosing`, the closing animation never starts |
| SheetLongRunning.Step | frontend/discourse/float-kit/components/d-sheet/states.js:188-194 | each event leaves the machine in the state it names |
| SheetLongRunning.RunFollowsLastEvent | frontend/discourse/float-kit/components/d-sheet/states.js:188-194 | after any events the state is the one the last event named, or the initial one |
| SheetLifecycle.CloseLandsInPending | frontend/discourse/float-kit/components/d-sheet/states.js:231-236 | `open` -> `closing` on `CLOSE` -> `closed.pending` on `ANIMATION_COMPLETE`, and `SWIPE_OUT` goes from `open` to `closed.pending` |
| SheetLifecycle.LoudMachines | frontend/discourse/float-kit/components/d-sheet/states.js:237-265 | when `scroll` or `move` handles the message the sub-machines change, and only those two |
| SheetLifecycle.SilentMachines | frontend/discourse/float-kit/components/d-sheet/states.js:266-293 | silent messages leave `scroll` and `move`; CLOSE flips `evaluateCloseMessage`, STEP flips `evaluateStepMessage`; SWIPE_START begins a swipe unless one is under way, only SWIPE_RESET returns `swipe` to `unstarted`, other messages leave it |
| SheetLifecycle.Transition | frontend/discourse/float-kit/components/d-sheet/states.js:200-298 | only PREPARED takes a shut sheet out of the closed and preparing states; `opening` and `closing` handle ANIMATION_COMPLETE and nothing else |
| SheetLifecycle.Step | frontend/discourse/float-kit/components/d-sheet/states.js:200-298 | a silent message reaches only the silent sub-machines of `open` and changes nothing elsewhere; an unhandled ordinary message changes nothing; leaving the shut states needs PREPARED |
| SheetLifecycle.ReopenFromPending | frontend/discourse/float-kit/components/d-sheet/states.js:208-230 | from `closed.pending`, `OPEN`, `FLUSH_COMPLETE` and `PREPARED` lead through the flushing and preparing states to `open` under `skipOpening`, else to `opening` |
| SheetLifecycle.OpenFromClosed | frontend/discourse/float-kit/components/d-sheet/states.js:203-207 | any other closed status goes to `preparing-opening` on `OPEN` |
| SheetLifecycle.OpensOnlyWhenPrepared | frontend/discourse/float-kit/components/d-sheet/states.js:203-229 | a closed or preparing sheet stays so until a `PREPARED` message |
| SheetLifecycle.SilentMessagesFlip | frontend/discourse/float-kit/components/d-sheet/states.js:276-293 | silent messages keep the sheet open, and flip `evaluateCloseMessage` and `evaluateStepMessage` on each `CLOSE` and `STEP` |
| CategorySearch.FieldsOccur | app/services/category_hierarchy_search.rb:34-35 | every whitespace-separated piece of a string occurs in it |
| CategorySearch.SelectionsDiffer | app/services/category_hierarchy_search.rb:30-40 | the code as written and the intended reading select differently exactly when the prefix test holds and the id filters reject the category |
| CategorySearch.IntendedHonoursFilters | app/services/category_hierarchy_search.rb:30-40 | as intended, a category is selected iff it passes the id filters and every piece of the term occurs in its name |
| CategorySearch.NoTermSelectsFiltered | app/services/category_hierarchy_search.rb:30-40 | with no term both readings select exactly the categories that pass the id filters |
| CategorySearch.PrefixBypassesFilters | app/services/category_hierarchy_search.rb:30-40 | as written, categories 1 "Ab" and 2 "C" with term "a" and only_ids [2] return category 1, which the filter excludes; as intended nothing is returned |
| CategorySearch.MatchesIffPieces | app/services/category_hierarchy_search.rb:31-38 | with a term, the two term tests together hold iff every piece of the lowercased term occurs in the lowercased name: the prefix test adds nothing on its own |
| CategorySearch.NoTermSelectsAll | app/services/category_hierarchy_search.rb:30-40 | with no term and no id filters every category is selected, under either reading |
| CategorySearch.Find | app/services/category_hierarchy_search.rb:51 | the category with that id, or none when no category has it |
| CategorySearch.Chain | app/services/category_hierarchy_search.rb:42-52 | the ancestors recursion starts at the category and continues through the table |
| CategorySearch.Placement | app/services/category_hierarchy_search.rb:53-73 | a category in the tree has a path that starts at a root and ends at the category |
| CategorySearch.NamePath | app/services/category_hierarchy_search.rb:58 | the lowercased names of the path, in order |
| CategorySearch.PlacementMonotone | app/services/category_hierarchy_search.rb:53-73 | a placement found within a bound stays the same under a larger bound |
| CategorySearch.PlacementOfAncestor | app/services/category_hierarchy_search.rb:63-72 | every prefix of a category's tree path is its ancestor's tree path |
| CategorySearch.ChainMirrorsPlacement | app/services/category_hierarchy_search.rb:42-73 | for a category in the tree, the ancestors chain is its tree path reversed |
| CategorySearch.AncestorIds | app/services/category_hierarchy_search.rb:42-52 | an id is collected iff it is on the ancestors chain of some selected category |
| CategorySearch.CollectedId | app/services/category_hierarchy_search.rb:42-52 | every category the walk from a selected category reaches is collected |
| CategorySearch.Rows | app/services/category_hierarchy_search.rb:74-80 | every row is a collected category in the tree, with its path and depth |
| CategorySearch.TextLeTotal | app/services/category_hierarchy_search.rb:81 | text order is total |
| CategorySearch.TextLeAntisymmetric | app/services/category_hierarchy_search.rb:81 | text order is antisymmetric |
| CategorySearch.TextLeTransitive | app/services/category_hierarchy_search.rb:81 | text order is transitive |
| CategorySearch.PathLeTotal | app/services/category_hierarchy_search.rb:81 | name-path order is total |
| CategorySearch.PathLeAntisymmetric | app/services/category_hierarchy_search.rb:81 | name-path order is antisymmetric |
| CategorySearch.PathLeTransitive | app/services/category_hierarchy_search.rb:81 | name-path order is transitive |
| CategorySearch.PathPrefixFirst | app/services/category_hierarchy_search.rb:81 | a path sorts before its extensions |
| CategorySearch.RowLeTotal | app/services/category_hierarchy_search.rb:81 | the order by name path, then id, is total |
| CategorySearch.RowLeTransitive | app/services/category_hierarchy_search.rb:81 | and transitive |
| CategorySearch.Insert | app/services/category_hierarchy_search.rb:81 | insertion adds exactly the one row |
| CategorySearch.Sort | app/services/category_hierarchy_search.rb:81 | sorting is a permutation |
| CategorySearch.SortSorted | app/services/category_hierarchy_search.rb:81 | sorting gives rows ordered by name path, then id |
| CategorySearch.SortDistinct | app/services/category_hierarchy_search.rb:81 | sorting keeps ids distinct |
| CategorySearch.Search | app/services/category_hierarchy_search.rb:20-85 | the result is sorted by (name path, id) and holds exactly the rows of the collected categories in the tree, under either reading of the `WHERE` clause |
| CategorySearch.RowsInclude | app/services/category_hierarchy_search.rb:78-80 | every collected category in the tree has its row |
| CategorySearch.RowsDistinct | app/services/category_hierarchy_search.rb:80 | with unique category ids, each id appears once |
| CategorySearch.MatchesAndAncestorsAppear | app/services/category_hierarchy_search.rb:42-80 | a selected category in the tree appears with every ancestor, whether or not the filters excluded the ancestors |
| CategorySearch.SearchRowsAreAncestors | app/services/category_hierarchy_search.rb:42-80 | every row is the row of a category in the tree on the ancestors chain of some selected category, and with unique ids no id repeats |
| CategorySearch.SearchRowIsRowOf | app/services/category_hierarchy_search.rb:74-80 | each result row is the row the tree gives its category |
| CategorySearch.NothingMatchedNothingFound | app/services/category_hierarchy_search.rb:27-80 | when no category is selected the result is empty |
| CategorySearch.DepthCountsAncestors | app/services/category_hierarchy_search.rb:59-70 | a category's depth is its number of ancestors, and the last of them is a root |
| CategorySearch.AncestorPathFirst | app/services/category_hierarchy_search.rb:69 | an ancestor's name path strictly precedes its descendant's |
| CategorySearch.AncestorsFirst | app/services/category_hierarchy_search.rb:74-81 | in the result every ancestor comes before its descendants |
| BookmarkMigration.Fix | db/post_migrate/20251226143117_fix_stale_topic_user_bookmarked_data.rb:15-28 | a row stays bookmarked iff it was bookmarked and the user has a topic bookmark on its topic or a post bookmark on a live post of it; nothing else in the row changes |
| BookmarkMigration.Supports | db/post_migrate/20251226143117_fix_stale_topic_user_bookmarked_data.rb:20-28 | a bookmark supports a row only when it is the row user's; a topic bookmark iff it is on the row's topic; a post bookmark iff its post is live and in the row's topic; other bookmarkable types never |
| BookmarkMigration.HasBookmark | db/post_migrate/20251226143117_fix_stale_topic_user_bookmarked_data.rb:20-28 | no bookmarks means none exists; one that exists belongs to the row's user |
| BookmarkMigration.HasBookmarkIgnoresFlag | db/post_migrate/20251226143117_fix_stale_topic_user_bookmarked_data.rb:20-28 | whether a bookmark exists does not depend on the `bookmarked` flag the migration rewrites |
| BookmarkMigration.BatchRow | db/post_migrate/20251226143117_fix_stale_topic_user_bookmarked_data.rb:15-19 | one batch fixes the rows in its window and leaves every other row alone |
| BookmarkMigration.FixIdempotent | db/post_migrate/20251226143117_fix_stale_topic_user_bookmarked_data.rb:15-28 | fixing a fixed row changes nothing |
| BookmarkMigration.BatchStarts | db/post_migrate/20251226143117_fix_stale_topic_user_bookmarked_data.rb:14 | the starts are min_id, min_id + 10000, ..., up to max_id, (max_id - min_id) / 10000 + 1 of them |
| BookmarkMigration.WindowsPartition | db/post_migrate/20251226143117_fix_stale_topic_user_bookmarked_data.rb:14-18 | every id from min_id to max_id lies in exactly one batch window |
| BookmarkMigration.BookmarkedBounds | db/post_migrate/20251226143117_fix_stale_topic_user_bookmarked_data.rb:9-12 | none iff no row is bookmarked; otherwise the least and greatest ids of bookmarked rows |
| BookmarkMigration.UpdateBatch | db/post_migrate/20251226143117_fix_stale_topic_user_bookmarked_data.rb:15-28 | every row becomes BatchRow of its old value |
| BookmarkMigration.Up | db/post_migrate/20251226143117_fix_stale_topic_user_bookmarked_data.rb:8-30 | every row ends as Fix makes it, whatever the batching |

## Left out

- Sockets, the accept loop, the thread pool, `stop`, `run!` and the
  daemon's process handling are not modelled. The server's connection is
  the sequence of lines it reads, and the client's connection is an
  abstract value that is open or closed. Dialling and each exchange are
  inputs.
- The limiter's mutex is left out. The model is sequential, and each
  limiter call is one atomic step.
- Floating point is replaced by integers:
  - the decrease is a fraction num/den, and `floor(limit * decrease)` is
    `(limit * num) / den`; the default 0.9 is 9/10;
  - `floor(initial * 0.5)` is `initial / 2`;
  - `rtt_ms` is an integer number of milliseconds.
- ShedderServer.RttParam: the server reads `rtt_ms` with `to_f`; the
  model takes the integer prefix. A fractional part beyond that is
  dropped, so a value such as `300.5` against a target of 300 counts as
  not slow. `to_f` also reads an exponent and underscores between digits,
  so `5e2` is 500 and `1_000` is 1000 there; the model reads 5 and 1.
  The client only ever writes plain integers (`RttParamReadsBack`).
- Text.ToI: Ruby's `to_i` reads underscores between digits, so `1_0` is
  10 there; the model stops at the underscore and reads 1. The client
  only reads integers the server wrote with `to_s`, which carry none
  (`ToIOfIntToString`).
- ShedderServer.Server.HandleClient: the `rescue` that logs
  `LoadShedder server error` through the logger is not modelled (logging
  is I/O). A connection that fails simply stops.
- ShedderMiddleware.ExtractRtt: the `X-Runtime` header's value is turned
  into milliseconds by an abstract function. The contract states only
  the case without the header.
- The middleware reads the monotonic clock and `Time.now` through inputs:
  one elapsed time per request, and one wall-clock second for each place
  `call` can warn (the auth check, `admit`, `complete` and the final
  rescue), since each `rate_limited_warn` call reads the clock afresh.
  Rails' logger is a log sequence. The translated busy text is its translation key.
- The middleware's headers hash is a value, so the aliasing of the hash
  `attach_headers` changes in place is not modelled.
- The `kind` argument is ignored by the client and by the server, and
  the model ignores it too.
- ShedderMiddleware.Throttle: the source keeps the warn timestamp per
  thread. The model keeps one timestamp per middleware object, which is
  the one-thread case.
- ChecklistToggle.Toggle: the service's post lookup, policies, guardian,
  `PostRevisor` and MessageBus steps are not modelled. The model ends at
  the new raw text and state.
- The markdown-it pipeline is reduced to a token datatype: text, inline
  code, soft and hard breaks, check open and close, and every other
  token with its nesting. `arrayReplaceAt` becomes sequence
  concatenation.
- Character units: JavaScript indexes UTF-16 units and Ruby indexes
  characters. Both are modelled as sequences of `char`.
- ChecklistMarkdown.AssignStep: offsets come from a search of the source
  alone. A box inside emphasis or link text ahead of a real box can
  therefore take the real box's offset. The model keeps that behaviour
  and does not state which rendered box an offset belongs to.
- The d-sheet state-machine interpreter is not part of this model, so
  the semantics of the tables are stated in `SheetGuards`:
  - the first enabled candidate wins;
  - the deepest state is asked first, and its parent only when the
    deepest state has no entry;
  - a target names a sibling state, else a top-level one;
  - entering a state starts its sub-machines in their initial states;
  - `""` is taken at once;
  - an unhandled message changes nothing;
  - `silentOnly` sub-machines see only silent messages, and silent
    messages reach nothing else.
- The category search's database is not modelled:
  - lower-casing is ASCII only;
  - collation is plain lexicographic order on characters;
  - `regexp_split_to_array` on `\s+` is splitting on the same six
    separators as Ruby's `split(" ")`;
  - `only_ids`/`except_ids` are assumed to arrive without blanks.
- CategorySearch.Chain: the recursions are bounded by the number of
  categories. A parent cycle makes the ancestors recursion of the query
  run forever; the model cuts it there instead. Rows on a cycle never
  reach a root, so they never appear in the result.
- CategorySearch.SearchRowsAreAncestors: states that every row lies on
  the ancestors chain of a matched category. It does not state the
  general closure that each row's parent is also a row;
  `MatchesAndAncestorsAppear` states it for the paths of matched
  categories.
- BookmarkMigration.Up: `disable_ddl_transaction!` is not modelled. The
  batches are not atomic together, and concurrent writers to the tables
  are left out. `down` only raises `IrreversibleMigration` and is not
  modelled.

## Findings

| source | as written | input that shows it | evidently intended | confidence | as-written member | corrected member |
|---|---|---|---|---|---|---|
| app/services/category_hierarchy_search.rb:30-40 | `AND` binds tighter than `OR`, so the `only_ids`/`except_ids` conditions guard only the piece test and a prefix match is selected whatever the filters say | categories 1 "Ab" and 2 "C", term "a", `only_ids` [2]: category 1 is returned | the filters restrict every match: `(prefix OR pieces) AND filters` | medium, not executed | CategorySearch.PrefixBypassesFilters | CategorySearch.IntendedHonoursFilters |
