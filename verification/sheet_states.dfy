/**
 * The sheet component's state machines
 * (frontend/discourse/float-kit/components/d-sheet/states.js): four
 * transition tables and the guards their entries name.
 *
 * The interpreter that runs the tables is not part of this model. Its
 * semantics are fixed here as follows, and every machine below is run by
 * them:
 *  - a state's `on` entry for a message is a list of candidates; the first
 *    whose guard holds wins, and a candidate without a guard always holds;
 *  - the deepest active state is asked first, its parent only when the
 *    deepest state has no enabled candidate;
 *  - a target names a sibling state when there is one, otherwise a
 *    top-level state (with a `.status:` suffix choosing its sub-state);
 *  - entering a state starts each of its sub-machines in its initial state;
 *  - a `""` entry is taken at once, without a message;
 *  - a message nobody handles leaves the state as it is;
 *  - `silentOnly` sub-machines only see messages sent silently, and a
 *    silent message is seen by nothing else.
 */
module SheetGuards {
  import opened Wrappers

  /** `GUARD_NAMES`. */
  datatype Guard = NotSkipClosing | SkipOpening | SkipClosing

  /** The flags a guard reads, from the message or from the machine; a flag
      that is absent counts as false. */
  datatype Context = Context(skipOpening: bool, skipClosing: bool)

  const NO_FLAGS: Context := Context(false, false)

  /** Both contexts' flags together: a flag set in either is set. */
  function Union(a: Context, b: Context): Context {
    Context(a.skipOpening || b.skipOpening, a.skipClosing || b.skipClosing)
  }

  /** What a guard asks of a single set of flags. */
  predicate Asks(g: Guard, flags: Context) {
    match g
    case NotSkipClosing => !flags.skipClosing
    case SkipOpening => flags.skipOpening
    case SkipClosing => flags.skipClosing
  }

  /** `GUARDS`: a guard reads the union of the two contexts. */
  predicate Holds(g: Guard, msgCtx: Context, machineCtx: Context): (b: bool)
    ensures b == Asks(g, Union(msgCtx, machineCtx))
  {
    match g
    case NotSkipClosing => !machineCtx.skipClosing && !msgCtx.skipClosing
    case SkipOpening => machineCtx.skipOpening || msgCtx.skipOpening
    case SkipClosing => machineCtx.skipClosing || msgCtx.skipClosing
  }

  /** `notSkipClosing` is exactly the negation of `skipClosing`, and a flag
      set in either context is enough for the positive guards. */
  lemma GuardsAgree(msgCtx: Context, machineCtx: Context)
    ensures Holds(NotSkipClosing, msgCtx, machineCtx) <==> !Holds(SkipClosing, msgCtx, machineCtx)
    ensures Holds(SkipOpening, msgCtx, machineCtx) <==> Holds(SkipOpening, machineCtx, msgCtx)
    ensures Holds(SkipClosing, msgCtx, NO_FLAGS) <==> msgCtx.skipClosing
  {
  }

  /** One candidate of an `on` entry. */
  datatype Entry<S> = Entry(guard: Option<Guard>, target: S)

  /** A candidate without a guard. */
  function Go<S>(target: S): Entry<S> {
    Entry(None, target)
  }

  /** A candidate with a guard. */
  function When<S>(g: Guard, target: S): Entry<S> {
    Entry(Some(g), target)
  }

  predicate Enabled<S>(e: Entry<S>, msgCtx: Context, machineCtx: Context) {
    e.guard.None? || Holds(e.guard.value, msgCtx, machineCtx)
  }

  /** The index of the first enabled candidate, or the number of candidates
      when none is enabled. */
  function FirstEnabled<S>(entries: seq<Entry<S>>, msgCtx: Context, machineCtx: Context): (i: nat)
    ensures i <= |entries|
    ensures forall j :: 0 <= j < i ==> !Enabled(entries[j], msgCtx, machineCtx)
    ensures i < |entries| ==> Enabled(entries[i], msgCtx, machineCtx)
  {
    if entries == [] then 0
    else if Enabled(entries[0], msgCtx, machineCtx) then 0
    else 1 + FirstEnabled(entries[1..], msgCtx, machineCtx)
  }

  /** A candidate list that is empty or ends in an unguarded fallback. */
  predicate EndsUnguarded<S>(entries: seq<Entry<S>>) {
    entries == [] || entries[|entries| - 1].guard.None?
  }

  /** The target of the first enabled candidate, if any; with a fallback at
      the end, a target whenever there is a candidate at all. */
  function Select<S>(entries: seq<Entry<S>>, msgCtx: Context, machineCtx: Context): (r: Option<S>)
    ensures r.None? <==> forall j :: 0 <= j < |entries| ==> !Enabled(entries[j], msgCtx, machineCtx)
    ensures EndsUnguarded(entries) ==> (r.None? <==> entries == [])
    ensures r.Some? ==> exists i :: 0 <= i < |entries| && r.value == entries[i].target
                                    && Enabled(entries[i], msgCtx, machineCtx)
                                    && forall j :: 0 <= j < i ==> !Enabled(entries[j], msgCtx, machineCtx)
  {
    var i := FirstEnabled(entries, msgCtx, machineCtx);
    if i < |entries| then Some(entries[i].target) else None
  }

  /** A guarded candidate followed by an unguarded fallback: the guard alone
      decides. */
  lemma GuardOrFallback<S>(g: Guard, yes: S, no: S, msgCtx: Context, machineCtx: Context)
    ensures Select([When(g, yes), Go(no)], msgCtx, machineCtx)
            == Some(if Holds(g, msgCtx, machineCtx) then yes else no)
  {
    var entries := [When(g, yes), Go(no)];
    if !Holds(g, msgCtx, machineCtx) {
      assert entries[1..] == [Go(no)];
      assert FirstEnabled(entries[1..], msgCtx, machineCtx) == 0;
    }
  }

  /** A single unguarded candidate is always taken. */
  lemma SelectSingle<S>(target: S, msgCtx: Context, machineCtx: Context)
    ensures Select([Go(target)], msgCtx, machineCtx) == Some(target)
  {
    assert Enabled([Go(target)][0], msgCtx, machineCtx);
  }

  /** The deepest state's answer, else its parent's. */
  function OrElse<S>(child: Option<S>, parent: Option<S>): Option<S> {
    if child.Some? then child else parent
  }
}

/** `POSITION_STATES`: where a sheet is in the stack of open sheets. */
module SheetPosition {
  import opened Wrappers
  import opened SheetGuards

  datatype FrontStatus = Opening | FrontIdle | Closing
  datatype CoveredStatus = GoingDown | CoveredIdle | GoingUp | Indeterminate | ComeBack
  datatype Position = Out | Front(front: FrontStatus) | Covered(covered: CoveredStatus)

  datatype Event =
    | READY_TO_GO_FRONT | GO_OUT | NEXT | READY_TO_GO_DOWN | READY_TO_GO_OUT
    | READY_TO_GO_UP | GO_UP | GOTO_FRONT_IDLE | GOTO_COVERED_IDLE

  datatype Message = Message(event: Event, ctx: Context)

  const INITIAL: Position := Out
  /** The target `front`: its status machine starts in `opening`. */
  const FRONT: Position := Front(Opening)
  /** The target `covered`: its status machine starts in `going-down`. */
  const COVERED: Position := Covered(GoingDown)

  /** `out` handles only `READY_TO_GO_FRONT`, and only towards `front`. */
  function OutOn(e: Event): (r: seq<Entry<Position>>)
    ensures EndsUnguarded(r)
    ensures r != [] <==> e == READY_TO_GO_FRONT
    ensures forall k :: 0 <= k < |r| ==> r[k].target.Front?
  {
    if e == READY_TO_GO_FRONT then [When(SkipOpening, Front(FrontIdle)), Go(FRONT)] else []
  }

  /** `front` itself handles only `GO_OUT`, towards `out`. */
  function FrontOn(e: Event): (r: seq<Entry<Position>>)
    ensures EndsUnguarded(r)
    ensures r != [] <==> e == GO_OUT
    ensures forall k :: 0 <= k < |r| ==> r[k].target == Out
  {
    if e == GO_OUT then [Go(Out)] else []
  }

  /** The front statuses: `NEXT` ends `opening` and `closing`, `idle` takes
      `READY_TO_GO_DOWN` and `READY_TO_GO_OUT`, and only
      `READY_TO_GO_DOWN` leads into `covered`. */
  function FrontStatusOn(s: FrontStatus, e: Event): (r: seq<Entry<Position>>)
    ensures EndsUnguarded(r)
    ensures r != [] <==> if s == FrontIdle then e == READY_TO_GO_DOWN || e == READY_TO_GO_OUT else e == NEXT
    ensures forall k :: 0 <= k < |r| ==> (r[k].target.Covered? <==> e == READY_TO_GO_DOWN)
  {
    match (s, e)
    case (Opening, NEXT) => [Go(Front(FrontIdle))]
    case (Closing, NEXT) => [Go(Out)]
    case (FrontIdle, READY_TO_GO_DOWN) => [When(SkipOpening, Covered(CoveredIdle)), Go(COVERED)]
    case (FrontIdle, READY_TO_GO_OUT) => [Go(Front(Closing))]
    case _ => []
  }

  /** The covered statuses: `come-back` takes no message, every other
      status goes to the front idle status on `GOTO_FRONT_IDLE`, and every
      other target stays covered. */
  function CoveredStatusOn(s: CoveredStatus, e: Event): (r: seq<Entry<Position>>)
    ensures EndsUnguarded(r)
    ensures s == ComeBack ==> r == []
    ensures s != ComeBack && e == GOTO_FRONT_IDLE ==> r == [Go(Front(FrontIdle))]
    ensures forall k :: 0 <= k < |r| ==> r[k].target.Covered? || e == GOTO_FRONT_IDLE
  {
    match (s, e)
    case (GoingDown, NEXT) => [Go(Covered(CoveredIdle))]
    case (GoingUp, NEXT) => [Go(Covered(Indeterminate))]
    case (Indeterminate, GOTO_COVERED_IDLE) => [Go(Covered(CoveredIdle))]
    case (CoveredIdle, READY_TO_GO_DOWN) => [When(SkipOpening, Covered(ComeBack)), Go(Covered(GoingDown))]
    case (CoveredIdle, READY_TO_GO_UP) => [Go(Covered(GoingUp))]
    case (CoveredIdle, GO_UP) => [Go(Covered(Indeterminate))]
    case (ComeBack, _) => []
    case (_, GOTO_FRONT_IDLE) => [Go(Front(FrontIdle))]
    case _ => []
  }

  /** The target a message selects, before immediate transitions. The
      guards never block a message some table handles, and only
      `READY_TO_GO_DOWN` leads into `covered` from outside it. */
  function Transition(s: Position, m: Message, machineCtx: Context): (r: Option<Position>)
    ensures r.None? <==> match s
                         case Out => OutOn(m.event) == []
                         case Front(status) => FrontStatusOn(status, m.event) == [] && FrontOn(m.event) == []
                         case Covered(status) => CoveredStatusOn(status, m.event) == []
    ensures r.Some? && r.value.Covered? ==> s.Covered? || m.event == READY_TO_GO_DOWN
  {
    match s
    case Out => Select(OutOn(m.event), m.ctx, machineCtx)
    case Front(status) =>
      OrElse(Select(FrontStatusOn(status, m.event), m.ctx, machineCtx),
             Select(FrontOn(m.event), m.ctx, machineCtx))
    case Covered(status) => Select(CoveredStatusOn(status, m.event), m.ctx, machineCtx)
  }

  /** `come-back` leaves at once for `idle` through its `""` entry. */
  function Settle(s: Position): (r: Position)
    ensures r != Covered(ComeBack)
    ensures s != Covered(ComeBack) ==> r == s
  {
    if s == Covered(ComeBack) then Covered(CoveredIdle) else s
  }

  /** One message: unhandled, it changes nothing; handled, it never leaves
      the machine in `come-back`. */
  function Step(s: Position, m: Message, machineCtx: Context): (r: Position)
    ensures Transition(s, m, machineCtx).None? ==> r == s
    ensures s != Covered(ComeBack) ==> r != Covered(ComeBack)
    ensures r.Covered? ==> s.Covered? || m.event == READY_TO_GO_DOWN
  {
    match Transition(s, m, machineCtx)
    case None => s
    case Some(t) => Settle(t)
  }

  /** A sequence of messages, in order. */
  function Run(s: Position, ms: seq<Message>, machineCtx: Context): Position
    decreases |ms|
  {
    if ms == [] then s else Run(Step(s, ms[0], machineCtx), ms[1..], machineCtx)
  }

  /** From `out`, `READY_TO_GO_FRONT` enters the front idle status directly
      when `skipOpening` holds, and the front's initial `opening` status
      otherwise. */
  lemma GoFront(ctx: Context, machineCtx: Context)
    ensures Step(Out, Message(READY_TO_GO_FRONT, ctx), machineCtx)
            == if Holds(SkipOpening, ctx, machineCtx) then Front(FrontIdle) else Front(Opening)
  {
    GuardOrFallback(SkipOpening, Front(FrontIdle), FRONT, ctx, machineCtx);
  }

  /** The front statuses: `opening` to `idle` on `NEXT`, `idle` to `closing`
      on `READY_TO_GO_OUT`, `closing` to `out` on `NEXT`; `GO_OUT`, handled
      by `front` itself, leaves from any status. */
  lemma FrontLifecycle(ctx: Context, machineCtx: Context, status: FrontStatus)
    ensures Step(Front(Opening), Message(NEXT, ctx), machineCtx) == Front(FrontIdle)
    ensures Step(Front(FrontIdle), Message(READY_TO_GO_OUT, ctx), machineCtx) == Front(Closing)
    ensures Step(Front(Closing), Message(NEXT, ctx), machineCtx) == Out
    ensures Step(Front(status), Message(GO_OUT, ctx), machineCtx) == Out
  {
    SelectSingle(Front(FrontIdle), ctx, machineCtx);
    SelectSingle(Front(Closing), ctx, machineCtx);
    SelectSingle(Out, ctx, machineCtx);
    assert FrontStatusOn(status, GO_OUT) == [];
  }

  /** In the covered idle status, `READY_TO_GO_DOWN` with `skipOpening` selects
      `come-back`, which falls back to `idle` with no further message;
      without `skipOpening` it selects `going-down`. */
  lemma ComeBackReturns(ctx: Context, machineCtx: Context)
    ensures var m := Message(READY_TO_GO_DOWN, ctx);
            && Transition(Covered(CoveredIdle), m, machineCtx)
               == Some(if Holds(SkipOpening, ctx, machineCtx) then Covered(ComeBack) else Covered(GoingDown))
            && Step(Covered(CoveredIdle), m, machineCtx)
               == if Holds(SkipOpening, ctx, machineCtx) then Covered(CoveredIdle) else Covered(GoingDown)
  {
    GuardOrFallback(SkipOpening, Covered(ComeBack), Covered(GoingDown), ctx, machineCtx);
  }

  /** A run never rests in `come-back`. */
  lemma {:induction false} NeverRestsInComeBack(s: Position, ms: seq<Message>, machineCtx: Context)
    requires s != Covered(ComeBack)
    ensures Run(s, ms, machineCtx) != Covered(ComeBack)
    decreases |ms|
  {
    if ms != [] {
      var next := Step(s, ms[0], machineCtx);
      assert next != Covered(ComeBack);
      NeverRestsInComeBack(next, ms[1..], machineCtx);
    }
  }

  /** Only a `READY_TO_GO_DOWN` sends a sheet that is out or in front into
      the covered states. */
  lemma {:induction false} CoveredOnlyByGoingDown(s: Position, ms: seq<Message>, machineCtx: Context)
    requires !s.Covered?
    requires forall i :: 0 <= i < |ms| ==> ms[i].event != READY_TO_GO_DOWN
    ensures !Run(s, ms, machineCtx).Covered?
    decreases |ms|
  {
    if ms != [] {
      var next := Step(s, ms[0], machineCtx);
      assert !next.Covered?;
      CoveredOnlyByGoingDown(next, ms[1..], machineCtx);
    }
  }
}

/** `ANIMATION_STATES`: which animation is running, one at a time. */
module SheetAnimation {
  import opened Wrappers
  import opened SheetGuards

  datatype Animation = NoAnimation | Opening | Stepping | Closing | GoingDown | GoingUp

  datatype Event = OPEN_PREPARED | ACTUALLY_CLOSE | ACTUALLY_STEP | GO_DOWN | GO_UP | NEXT

  datatype Message = Message(event: Event, ctx: Context)

  const INITIAL: Animation := NoAnimation

  /** `none` starts each animation and ignores `NEXT`; a running animation
      only returns to `none` on `NEXT`; only `closing` is guarded. */
  function On(s: Animation, e: Event): (r: seq<Entry<Animation>>)
    ensures s == NoAnimation ==> (r != [] <==> e != NEXT) && forall k :: 0 <= k < |r| ==> r[k].target != NoAnimation
    ensures s != NoAnimation ==> r == (if e == NEXT then [Go(NoAnimation)] else [])
    ensures forall k :: 0 <= k < |r| ==> r[k].guard.Some? ==> r[k] == When(NotSkipClosing, Closing)
  {
    match (s, e)
    case (NoAnimation, OPEN_PREPARED) => [Go(Opening)]
    case (NoAnimation, ACTUALLY_CLOSE) => [When(NotSkipClosing, Closing)]
    case (NoAnimation, ACTUALLY_STEP) => [Go(Stepping)]
    case (NoAnimation, GO_DOWN) => [Go(GoingDown)]
    case (NoAnimation, GO_UP) => [Go(GoingUp)]
    case (NoAnimation, NEXT) => []
    case (_, NEXT) => [Go(NoAnimation)]
    case _ => []
  }

  /** Each change starts an animation from `none` or ends one. */
  function Step(s: Animation, m: Message, machineCtx: Context): (r: Animation)
    ensures r != s ==> (s == NoAnimation <==> r != NoAnimation)
  {
    Select(On(s, m.event), m.ctx, machineCtx).GetOr(s)
  }

  function Run(s: Animation, ms: seq<Message>, machineCtx: Context): Animation
    decreases |ms|
  {
    if ms == [] then s else Run(Step(s, ms[0], machineCtx), ms[1..], machineCtx)
  }

  /** Every running animation ends on `NEXT`, and ignores every other
      message: a new animation starts only from `none`. */
  lemma OneAnimationAtATime(s: Animation, m: Message, machineCtx: Context)
    requires s != NoAnimation
    ensures Step(s, m, machineCtx) == if m.event == NEXT then NoAnimation else s
  {
    if m.event == NEXT {
      assert Select([Go(NoAnimation)], m.ctx, machineCtx) == Some(NoAnimation);
    }
  }

  /** `ACTUALLY_CLOSE` starts the closing animation exactly when
      `notSkipClosing` holds. */
  lemma ActuallyCloseGuarded(ctx: Context, machineCtx: Context)
    ensures Step(NoAnimation, Message(ACTUALLY_CLOSE, ctx), machineCtx)
            == if Holds(NotSkipClosing, ctx, machineCtx) then Closing else NoAnimation
  {
    assert Select([When(NotSkipClosing, Closing)], ctx, machineCtx)
           == if Holds(NotSkipClosing, ctx, machineCtx) then Some(Closing) else None;
  }

  /** A machine whose own context says `skipClosing` never runs the closing
      animation, whatever messages it gets. */
  lemma {:induction false} SkipClosingNeverCloses(s: Animation, ms: seq<Message>, machineCtx: Context)
    requires machineCtx.skipClosing && s != Closing
    ensures Run(s, ms, machineCtx) != Closing
    decreases |ms|
  {
    if ms != [] {
      var next := Step(s, ms[0], machineCtx);
      if s == NoAnimation && ms[0].event == ACTUALLY_CLOSE {
        ActuallyCloseGuarded(ms[0].ctx, machineCtx);
      }
      assert next != Closing;
      SkipClosingNeverCloses(next, ms[1..], machineCtx);
    }
  }
}

/** `LONG_RUNNING_STATES`: a boolean set by `TO_TRUE` and cleared by
    `TO_FALSE`. */
module SheetLongRunning {
  import opened Wrappers
  import opened SheetGuards

  datatype Event = TO_TRUE | TO_FALSE

  const INITIAL: bool := false

  function On(s: bool, e: Event): seq<Entry<bool>> {
    if !s && e == TO_TRUE then [Go(true)]
    else if s && e == TO_FALSE then [Go(false)]
    else []
  }

  /** Each event leaves the machine in the state it names, whether or not
      it was already there. */
  function Step(s: bool, e: Event): (r: bool)
    ensures r == (e == TO_TRUE)
  {
    SelectSingle(true, NO_FLAGS, NO_FLAGS);
    SelectSingle(false, NO_FLAGS, NO_FLAGS);
    Select(On(s, e), NO_FLAGS, NO_FLAGS).GetOr(s)
  }

  function Run(s: bool, es: seq<Event>): bool
    decreases |es|
  {
    if es == [] then s else Run(Step(s, es[0]), es[1..])
  }

  /** The value the last event names, or `initial` when there is none. */
  function LastSet(initial: bool, es: seq<Event>): bool {
    if es == [] then initial else es[|es| - 1] == TO_TRUE
  }

  /** After any run the machine is in the state its last event names. */
  lemma {:induction false} RunFollowsLastEvent(s: bool, es: seq<Event>)
    ensures Run(s, es) == LastSet(s, es)
    decreases |es|
  {
    if es != [] {
      RunFollowsLastEvent(Step(s, es[0]), es[1..]);
      if |es| > 1 {
        assert es[1..][|es[1..]| - 1] == es[|es| - 1];
      }
    }
  }
}

/** `SHEET_STATES`: the sheet's lifecycle, with the sub-machines of `open`. */
module SheetLifecycle {
  import opened Wrappers
  import opened SheetGuards

  datatype ClosedStatus = SafeToUnmount | Pending | FlushingToPreparingOpening | FlushingToPreparingOpen

  /** The `scroll` sub-machine; `ended` holds `afterPaintEffectsRun`. */
  datatype Scroll = ScrollEnded(afterPaintEffectsRun: bool) | ScrollOngoing
  datatype Move = MoveEnded | MoveOngoing
  datatype Swipe = Unstarted | SwipeOngoing | SwipeEnded

  /** The states of the sub-machines of `open`. */
  datatype OpenMachines = OpenMachines(scroll: Scroll, move: Move, swipe: Swipe,
                                       evaluateCloseMessage: bool, evaluateStepMessage: bool)

  datatype Sheet =
    | Closed(closed: ClosedStatus)
    | PreparingOpening
    | PreparingOpen
    | Opening
    | Open(machines: OpenMachines)
    | Closing

  datatype Event =
    | OPEN | FLUSH_COMPLETE | PREPARED | ANIMATION_COMPLETE | CLOSE | STEP | SWIPE_OUT
    | SCROLL_START | SCROLL_END | OCCURRED | RESET | MOVE_START | MOVE_END
    | SWIPE_START | SWIPE_END | SWIPE_RESET

  datatype Message = Message(event: Event, ctx: Context, silent: bool)

  /** Every sub-machine of `open` in its initial state. */
  const OPEN_INITIAL: OpenMachines := OpenMachines(ScrollEnded(false), MoveEnded, Unstarted, false, false)
  /** `closed.safe-to-unmount`. */
  const INITIAL: Sheet := Closed(SafeToUnmount)

  function ClosedOn(e: Event): seq<Entry<Sheet>> {
    if e == OPEN then [Go(PreparingOpening)] else []
  }

  function ClosedStatusOn(s: ClosedStatus, e: Event): seq<Entry<Sheet>> {
    match (s, e)
    case (Pending, OPEN) =>
      [When(SkipOpening, Closed(FlushingToPreparingOpen)), Go(Closed(FlushingToPreparingOpening))]
    case (Pending, FLUSH_COMPLETE) => [Go(Closed(SafeToUnmount))]
    case (FlushingToPreparingOpening, FLUSH_COMPLETE) => [Go(PreparingOpening)]
    case (FlushingToPreparingOpen, FLUSH_COMPLETE) => [Go(PreparingOpen)]
    case _ => []
  }

  function OpenOn(e: Event): seq<Entry<Sheet>> {
    match e
    case CLOSE => [Go(Closing)]
    case STEP => [Go(Open(OPEN_INITIAL))]
    case SWIPE_OUT => [Go(Closed(Pending))]
    case _ => []
  }

  /** The `scroll` machine, with `afterPaintEffectsRun` inside `ended`. */
  function ScrollOn(s: Scroll, e: Event): seq<Entry<Scroll>> {
    match (s, e)
    case (ScrollEnded(_), SCROLL_START) => [Go(ScrollOngoing)]
    case (ScrollEnded(false), OCCURRED) => [Go(ScrollEnded(true))]
    case (ScrollEnded(true), RESET) => [Go(ScrollEnded(false))]
    case (ScrollOngoing, SCROLL_END) => [Go(ScrollEnded(false))]
    case _ => []
  }

  function MoveOn(s: Move, e: Event): seq<Entry<Move>> {
    match (s, e)
    case (MoveEnded, MOVE_START) => [Go(MoveOngoing)]
    case (MoveOngoing, MOVE_END) => [Go(MoveEnded)]
    case _ => []
  }

  function SwipeOn(s: Swipe, e: Event): seq<Entry<Swipe>> {
    match (s, e)
    case (Unstarted, SWIPE_START) => [Go(SwipeOngoing)]
    case (SwipeOngoing, SWIPE_END) => [Go(SwipeEnded)]
    case (SwipeEnded, SWIPE_START) => [Go(SwipeOngoing)]
    case (SwipeEnded, SWIPE_RESET) => [Go(Unstarted)]
    case _ => []
  }

  /** `evaluateCloseMessage` flips on `CLOSE`, `evaluateStepMessage` on
      `STEP`. */
  function FlagOn(s: bool, trigger: Event, e: Event): seq<Entry<bool>> {
    if e == trigger then [Go(!s)] else []
  }

  /** A sub-machine's next state; unchanged when it has no entry. */
  function Sub<S>(entries: seq<Entry<S>>, s: S, m: Message): S {
    Select(entries, m.ctx, NO_FLAGS).GetOr(s)
  }

  /** The sub-machines that see ordinary messages, all stepped together;
      `None` when none of them handles the message. They leave the silent
      sub-machines alone. */
  function LoudMachines(o: OpenMachines, m: Message): (r: Option<OpenMachines>)
    ensures r.Some? ==> r.value != o && r.value.(scroll := o.scroll, move := o.move) == o
  {
    var next := o.(scroll := Sub(ScrollOn(o.scroll, m.event), o.scroll, m),
                   move := Sub(MoveOn(o.move, m.event), o.move, m));
    if next == o then None else Some(next)
  }

  /** The `silentOnly` sub-machines, all stepped together: `CLOSE` flips
      `evaluateCloseMessage`, `STEP` flips `evaluateStepMessage`, and the
      loud sub-machines are left alone. */
  function SilentMachines(o: OpenMachines, m: Message): (r: OpenMachines)
    ensures r.scroll == o.scroll && r.move == o.move
    ensures r.evaluateCloseMessage == (o.evaluateCloseMessage != (m.event == CLOSE))
    ensures r.evaluateStepMessage == (o.evaluateStepMessage != (m.event == STEP))
    // `swipe`: SWIPE_START begins a swipe unless one is under way, only
    // SWIPE_RESET returns to `unstarted`, and other messages leave it.
    ensures m.event == SWIPE_START && o.swipe != SwipeOngoing ==> r.swipe == SwipeOngoing
    ensures r.swipe == Unstarted && o.swipe != Unstarted ==> m.event == SWIPE_RESET
    ensures m.event !in {SWIPE_START, SWIPE_END, SWIPE_RESET} ==> r.swipe == o.swipe
  {
    SelectSingle(!o.evaluateCloseMessage, m.ctx, NO_FLAGS);
    SelectSingle(!o.evaluateStepMessage, m.ctx, NO_FLAGS);
    SelectSingle(SwipeOngoing, m.ctx, NO_FLAGS);
    SelectSingle(SwipeEnded, m.ctx, NO_FLAGS);
    SelectSingle(Unstarted, m.ctx, NO_FLAGS);
    o.(swipe := Sub(SwipeOn(o.swipe, m.event), o.swipe, m),
       evaluateCloseMessage := Sub(FlagOn(o.evaluateCloseMessage, CLOSE, m.event), o.evaluateCloseMessage, m),
       evaluateStepMessage := Sub(FlagOn(o.evaluateStepMessage, STEP, m.event), o.evaluateStepMessage, m))
  }

  /** The target an ordinary message selects. Only `PREPARED` takes a shut
      sheet out of the shut states, and the animation states wait for
      `ANIMATION_COMPLETE` alone. */
  function Transition(s: Sheet, m: Message, machineCtx: Context): (r: Option<Sheet>)
    ensures Shut(s) && r.Some? && !Shut(r.value) ==> m.event == PREPARED
    ensures s == Opening || s == Closing ==> (r.Some? <==> m.event == ANIMATION_COMPLETE)
  {
    match s
    case Closed(status) =>
      OrElse(Select(ClosedStatusOn(status, m.event), m.ctx, machineCtx),
             Select(ClosedOn(m.event), m.ctx, machineCtx))
    case PreparingOpening => if m.event == PREPARED then Some(Opening) else None
    case PreparingOpen => if m.event == PREPARED then Some(Open(OPEN_INITIAL)) else None
    case Opening => if m.event == ANIMATION_COMPLETE then Some(Open(OPEN_INITIAL)) else None
    case Open(machines) =>
      (match LoudMachines(machines, m)
       case Some(next) => Some(Open(next))
       case None => Select(OpenOn(m.event), m.ctx, machineCtx))
    case Closing => if m.event == ANIMATION_COMPLETE then Some(Closed(Pending)) else None
  }

  /** One message: a silent one only reaches the silent sub-machines of
      `open`; an ordinary one nobody handles changes nothing. */
  function Step(s: Sheet, m: Message, machineCtx: Context): (r: Sheet)
    ensures m.silent ==> (r.Open? <==> s.Open?) && (!s.Open? ==> r == s)
    ensures !m.silent && Transition(s, m, machineCtx).None? ==> r == s
    ensures Shut(s) && !Shut(r) ==> m.event == PREPARED
  {
    if m.silent then
      if s.Open? then Open(SilentMachines(s.machines, m)) else s
    else
      Transition(s, m, machineCtx).GetOr(s)
  }

  function Run(s: Sheet, ms: seq<Message>, machineCtx: Context): Sheet
    decreases |ms|
  {
    if ms == [] then s else Run(Step(s, ms[0], machineCtx), ms[1..], machineCtx)
  }

  /** An ordinary message with no flags. */
  function Loud(e: Event): Message {
    Message(e, NO_FLAGS, false)
  }

  /** Closing from `open`: `CLOSE` starts the closing animation, whose end
      lands in `closed.pending`; `SWIPE_OUT` lands there at once. */
  lemma CloseLandsInPending(o: OpenMachines, machineCtx: Context)
    ensures Step(Open(o), Loud(CLOSE), machineCtx) == Closing
    ensures Step(Closing, Loud(ANIMATION_COMPLETE), machineCtx) == Closed(Pending)
    ensures Step(Open(o), Loud(SWIPE_OUT), machineCtx) == Closed(Pending)
  {
    assert LoudMachines(o, Loud(CLOSE)).None?;
    SelectSingle(Closing, NO_FLAGS, machineCtx);
    assert Transition(Open(o), Loud(CLOSE), machineCtx) == Some(Closing);
    assert LoudMachines(o, Loud(SWIPE_OUT)).None?;
    SelectSingle(Closed(Pending), NO_FLAGS, machineCtx);
    assert Transition(Open(o), Loud(SWIPE_OUT), machineCtx) == Some(Closed(Pending));
  }

  /** Reopening from `closed.pending` goes through a flush: with
      `skipOpening` to `preparing-open` and then straight to `open`,
      otherwise to `preparing-opening` and then to the opening animation. */
  lemma {:induction false} ReopenFromPending(ctx: Context, machineCtx: Context)
    ensures var skip := Holds(SkipOpening, ctx, machineCtx);
            var afterOpen := Step(Closed(Pending), Message(OPEN, ctx, false), machineCtx);
            var afterFlush := Step(afterOpen, Loud(FLUSH_COMPLETE), machineCtx);
            && afterOpen == Closed(if skip then FlushingToPreparingOpen else FlushingToPreparingOpening)
            && afterFlush == (if skip then PreparingOpen else PreparingOpening)
            && Step(afterFlush, Loud(PREPARED), machineCtx) == (if skip then Open(OPEN_INITIAL) else Opening)
  {
    var skip := Holds(SkipOpening, ctx, machineCtx);
    GuardOrFallback(SkipOpening, Closed(FlushingToPreparingOpen), Closed(FlushingToPreparingOpening), ctx, machineCtx);
    var afterOpen := Closed(if skip then FlushingToPreparingOpen else FlushingToPreparingOpening);
    assert Transition(Closed(Pending), Message(OPEN, ctx, false), machineCtx) == Some(afterOpen);
    var afterFlush := if skip then PreparingOpen else PreparingOpening;
    SelectSingle(afterFlush, NO_FLAGS, machineCtx);
    assert Transition(afterOpen, Loud(FLUSH_COMPLETE), machineCtx) == Some(afterFlush);
  }

  /** `OPEN` from the other closed statuses falls back to the `closed`
      state's own entry: `preparing-opening`, whatever the flags. */
  lemma OpenFromClosed(status: ClosedStatus, ctx: Context, machineCtx: Context)
    requires status != Pending
    ensures Step(Closed(status), Message(OPEN, ctx, false), machineCtx) == PreparingOpening
  {
    SelectSingle(PreparingOpening, ctx, machineCtx);
  }

  /** Whether the sheet is shut: closed or preparing to open. */
  predicate Shut(s: Sheet) {
    s.Closed? || s == PreparingOpening || s == PreparingOpen
  }

  /** A shut sheet stays shut until a `PREPARED` message. */
  lemma {:induction false} OpensOnlyWhenPrepared(s: Sheet, ms: seq<Message>, machineCtx: Context)
    requires Shut(s)
    requires forall i :: 0 <= i < |ms| ==> ms[i].event != PREPARED
    ensures Shut(Run(s, ms, machineCtx))
    decreases |ms|
  {
    if ms != [] {
      var next := Step(s, ms[0], machineCtx);
      assert Shut(next);
      OpensOnlyWhenPrepared(next, ms[1..], machineCtx);
    }
  }

  /** Whether an odd number of messages carry `e`. */
  function OddCount(ms: seq<Message>, e: Event): bool {
    if ms == [] then false else (ms[0].event == e) != OddCount(ms[1..], e)
  }

  /** Silent messages keep an open sheet open, and each `CLOSE` among them
      flips `evaluateCloseMessage` and each `STEP` flips
      `evaluateStepMessage`. */
  lemma {:induction false} SilentMessagesFlip(o: OpenMachines, ms: seq<Message>, machineCtx: Context)
    requires forall i :: 0 <= i < |ms| ==> ms[i].silent
    ensures var r := Run(Open(o), ms, machineCtx);
            && r.Open?
            && r.machines.evaluateCloseMessage == (o.evaluateCloseMessage != OddCount(ms, CLOSE))
            && r.machines.evaluateStepMessage == (o.evaluateStepMessage != OddCount(ms, STEP))
    decreases |ms|
  {
    if ms != [] {
      var m := ms[0];
      var next := SilentMachines(o, m);
      assert Step(Open(o), m, machineCtx) == Open(next);
      SilentMessagesFlip(next, ms[1..], machineCtx);
      assert Run(Open(o), ms, machineCtx) == Run(Open(next), ms[1..], machineCtx);
    }
  }
}
