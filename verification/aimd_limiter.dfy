/**
 * The AIMD admission controller (lib/load_shedder/aimd_limiter.rb).
 *
 * `limit` is the current ceiling on admitted-but-not-completed requests,
 * `inflight` the number of those requests and `degraded` the verdict (0 or 1)
 * of the most recent latency sample. The step functions below say what one
 * call does to that triple; the class `Limiter` updates its fields in place
 * and is proved to follow them.
 */
module AimdLimiter {

  type Positive = n: int | n > 0 witness 1

  /** The default additive increase per healthy saturated sample. */
  const ADDITIVE_STEP: int := 1
  /** The default multiplicative decrease 0.9, as the fraction 9/10. */
  const DECREASE_NUM: int := 9
  const DECREASE_DEN: Positive := 10

  /** Construction parameters, after normalisation. The multiplicative
      decrease is the fraction `decreaseNum / decreaseDen`. */
  datatype Config = Config(initialLimit: int, targetP95Ms: int,
                           additiveStep: int, decreaseNum: int, decreaseDen: Positive)

  /** The `{limit:, inflight:, degraded:}` triple `stats` returns. */
  datatype Snapshot = Snapshot(limit: int, inflight: int, degraded: int)

  /** The `{admitted:, limit:, inflight:, degraded:}` hash `admit` returns. */
  datatype Decision = Decision(admitted: bool, limit: int, inflight: int, degraded: int)

  /** `initialize`: the initial limit is raised to at least 1; the step and
      the decrease default to 1 and 0.9 and are kept as given. */
  function NewConfig(initialLimit: int, targetP95Ms: int, additiveStep: int := ADDITIVE_STEP,
                     decreaseNum: int := DECREASE_NUM, decreaseDen: Positive := DECREASE_DEN): (c: Config)
    ensures c.initialLimit >= 1
    ensures initialLimit >= 1 ==> c.initialLimit == initialLimit
    ensures initialLimit < 1 ==> c.initialLimit == 1
    ensures c.targetP95Ms == targetP95Ms
    ensures c.additiveStep == additiveStep && c.decreaseNum == decreaseNum && c.decreaseDen == decreaseDen
  {
    Config(if initialLimit < 1 then 1 else initialLimit, targetP95Ms, additiveStep, decreaseNum, decreaseDen)
  }

  function Max(a: int, b: int): int { if a < b then b else a }
  function Min(a: int, b: int): int { if a < b then a else b }

  /** `lmin`: half the initial limit, rounded down, but at least 1. */
  function Lmin(c: Config): (m: int)
    requires c.initialLimit >= 1
    ensures 1 <= m <= Lmax(c)
    ensures c.initialLimit >= 2 ==> 2 * m <= c.initialLimit < 2 * m + 2
    ensures c.initialLimit < 2 ==> m == 1
  {
    Max(1, c.initialLimit / 2)
  }

  /** `lmax`: the initial limit. */
  function Lmax(c: Config): int {
    c.initialLimit
  }

  /** `(limit * multiplicative_decrease).floor`. */
  function Decreased(c: Config, limit: int): (r: int)
    ensures c.decreaseDen * r <= c.decreaseNum * limit < c.decreaseDen * (r + 1)
  {
    (limit * c.decreaseNum) / c.decreaseDen
  }

  /** A decrease of at most 1 never raises a non-negative limit. */
  lemma DecreasedAtMost(c: Config, limit: int)
    requires limit >= 0 && c.decreaseNum <= c.decreaseDen
    ensures Decreased(c, limit) <= limit
  {
    var r := Decreased(c, limit);
    assert (c.decreaseDen - c.decreaseNum) * limit >= 0;
    assert c.decreaseDen * r <= c.decreaseDen * limit;
  }

  /** The tuning under which the ceiling stays in `[lmin, lmax]`: the step
      does not shrink the limit and the decrease does not grow it. The
      defaults meet it. */
  predicate SafeTuning(c: Config) {
    c.additiveStep >= 0 && c.decreaseNum <= c.decreaseDen
  }

  /** The limiter's object invariant: the ceiling stays within `[lmin, lmax]`,
      `inflight` is never negative and `degraded` is a flag. */
  predicate Invariant(c: Config, s: Snapshot) {
    && c.initialLimit >= 1
    && Lmin(c) <= s.limit <= Lmax(c)
    && s.inflight >= 0
    && (s.degraded == 0 || s.degraded == 1)
  }

  /** The state right after construction. */
  function Initial(c: Config): Snapshot {
    Snapshot(c.initialLimit, 0, 0)
  }

  /** `admit`: admits while `inflight < limit`, and reports the state after the call. */
  function AdmitStep(s: Snapshot): (r: (Decision, Snapshot))
    ensures r.0.admitted <==> s.inflight < s.limit
    ensures r.1.inflight == s.inflight + (if r.0.admitted then 1 else 0)
    ensures r.1.limit == s.limit && r.1.degraded == s.degraded
    ensures r.0 == Decision(r.0.admitted, r.1.limit, r.1.inflight, r.1.degraded)
  {
    var admitted := s.inflight < s.limit;
    var s' := if admitted then s.(inflight := s.inflight + 1) else s;
    (Decision(admitted, s'.limit, s'.inflight, s'.degraded), s')
  }

  /** `update_limit`: a slow sample cuts the ceiling multiplicatively (not below
      `lmin`), a healthy sample near saturation raises it additively (not above
      `lmax`), a healthy sample otherwise leaves it. */
  function Retune(c: Config, s: Snapshot, slow: bool): (r: Snapshot)
    requires c.initialLimit >= 1
    ensures r.inflight == s.inflight
    ensures slow ==> r.limit == Max(Lmin(c), Decreased(c, s.limit)) && r.degraded == 1
    ensures !slow && s.inflight * 2 >= s.limit ==> r.limit == Min(Lmax(c), s.limit + c.additiveStep) && r.degraded == 0
    ensures !slow && s.inflight * 2 < s.limit ==> r.limit == s.limit && r.degraded == 0
  {
    if slow then
      s.(limit := Max(Lmin(c), Decreased(c, s.limit)), degraded := 1)
    else if s.inflight * 2 >= s.limit then
      s.(limit := Min(Lmax(c), s.limit + c.additiveStep), degraded := 0)
    else
      s.(degraded := 0)
  }

  /** `complete`: one fewer request in flight (never below 0); an unsampled
      completion changes nothing else; a sampled one is slow when its round
      trip exceeds the p95 target and retunes the ceiling. */
  function CompleteStep(c: Config, s: Snapshot, rttMs: int, sample: bool): (r: Snapshot)
    requires c.initialLimit >= 1
    ensures r.inflight == (if s.inflight > 0 then s.inflight - 1 else s.inflight)
    ensures !sample ==> r.limit == s.limit && r.degraded == s.degraded
    ensures sample ==> r == Retune(c, s.(inflight := r.inflight), rttMs > c.targetP95Ms)
  {
    var s' := if s.inflight > 0 then s.(inflight := s.inflight - 1) else s;
    if sample then Retune(c, s', rttMs > c.targetP95Ms) else s'
  }

  /** One call on the limiter, as the server issues them. */
  datatype Op = Admit | Complete(rttMs: int, sample: bool)

  function Apply(c: Config, s: Snapshot, op: Op): Snapshot
    requires c.initialLimit >= 1
  {
    match op
    case Admit => AdmitStep(s).1
    case Complete(rtt, sample) => CompleteStep(c, s, rtt, sample)
  }

  /** The state after a sequence of calls. */
  function Run(c: Config, s: Snapshot, ops: seq<Op>): Snapshot
    requires c.initialLimit >= 1
    decreases |ops|
  {
    if ops == [] then s else Run(c, Apply(c, s, ops[0]), ops[1..])
  }

  /** The invariant holds after construction. */
  lemma InitialInvariant(c: Config)
    requires c.initialLimit >= 1
    ensures Invariant(c, Initial(c))
  {
  }

  /** Under a safe tuning every single call keeps the invariant. */
  lemma ApplyKeepsInvariant(c: Config, s: Snapshot, op: Op)
    requires SafeTuning(c) && Invariant(c, s)
    ensures Invariant(c, Apply(c, s, op))
  {
    match op
    case Admit =>
    case Complete(rtt, sample) =>
      var s' := CompleteStep(c, s, rtt, sample);
      if sample && rtt > c.targetP95Ms {
        DecreasedAtMost(c, s.limit);
      }
  }

  /** Starting from construction, every admit/complete sequence keeps
      `lmin <= limit <= lmax`, `inflight >= 0` and `degraded` in {0, 1}. */
  lemma {:induction false} RunKeepsInvariant(c: Config, s: Snapshot, ops: seq<Op>)
    requires SafeTuning(c) && Invariant(c, s)
    ensures Invariant(c, Run(c, s, ops))
    decreases |ops|
  {
    if ops != [] {
      ApplyKeepsInvariant(c, s, ops[0]);
      RunKeepsInvariant(c, Apply(c, s, ops[0]), ops[1..]);
    }
  }

  /** From construction with a non-negative step and a decrease of at most
      1 (the defaults among them), every call sequence keeps the invariant. */
  lemma FromConstruction(initialLimit: int, targetP95Ms: int, additiveStep: int,
                         decreaseNum: int, decreaseDen: Positive, ops: seq<Op>)
    requires additiveStep >= 0 && decreaseNum <= decreaseDen
    ensures var c := NewConfig(initialLimit, targetP95Ms, additiveStep, decreaseNum, decreaseDen);
            Invariant(c, Run(c, Initial(c), ops))
  {
    var c := NewConfig(initialLimit, targetP95Ms, additiveStep, decreaseNum, decreaseDen);
    InitialInvariant(c);
    RunKeepsInvariant(c, Initial(c), ops);
  }

  /** Results of `k` consecutive admits. */
  function Admits(s: Snapshot, k: nat): (r: (seq<bool>, Snapshot))
    ensures |r.0| == k
    decreases k
  {
    if k == 0 then ([], s)
    else
      var (d, s') := AdmitStep(s);
      var (rest, s'') := Admits(s', k - 1);
      ([d.admitted] + rest, s'')
  }

  function CountTrue(bs: seq<bool>): nat {
    if bs == [] then 0 else (if bs[0] then 1 else 0) + CountTrue(bs[1..])
  }

  /** With no completion in between, admits are granted exactly until `inflight`
      reaches `limit`: the granted ones come first, their number is what
      `inflight` gained, and `inflight` never passes the limit; a state already
      over the limit (a slow sample lowered it) admits nothing. */
  lemma {:induction false} AdmitsWithoutComplete(s: Snapshot, k: nat)
    ensures var (granted, s') := Admits(s, k);
            && s'.limit == s.limit && s'.degraded == s.degraded
            && s'.inflight == s.inflight + CountTrue(granted)
            && s'.inflight == Max(s.inflight, Min(s.limit, s.inflight + k))
            && forall i :: 0 <= i < k ==> (granted[i] <==> s.inflight + i < s.limit)
    decreases k
  {
    if k > 0 {
      var (d, s1) := AdmitStep(s);
      AdmitsWithoutComplete(s1, k - 1);
      var (rest, s2) := Admits(s1, k - 1);
      var granted := [d.admitted] + rest;
      assert Admits(s, k) == (granted, s2);
      assert granted[1..] == rest;
      forall i | 0 <= i < k
        ensures granted[i] <==> s.inflight + i < s.limit
      {
        if i > 0 {
          assert granted[i] == rest[i - 1];
        }
      }
    }
  }

  /** Without a safe tuning the bounds fail: a decrease of 1.5 lifts the
      limit above `lmax` on the first slow sample, ... */
  lemma LargeDecreaseExceedsLmax()
    ensures var c := NewConfig(10, 300, ADDITIVE_STEP, 3, 2);
            var s := CompleteStep(c, Initial(c), 1000, true);
            s.limit == 15 && s.limit > Lmax(c)
  {
  }

  /** ... and a step of -10 drops it below `lmin` once six requests are in
      flight and a healthy sample arrives. */
  lemma NegativeStepUndercutsLmin()
    ensures var c := NewConfig(10, 300, -10);
            var s := CompleteStep(c, Admits(Initial(c), 6).1, 50, true);
            s.limit == 0 && s.limit < Lmin(c)
  {
    AdmitsWithoutComplete(Snapshot(10, 0, 0), 6);
  }

  // ---------------------------------------------------------------------------
  // The examples of spec/load_shedder/aimd_limiter_spec.rb, for initial_limit 4
  // and target 300 ms; some start from a `limit` the test forces.

  lemma ExampleRejectsOverLimit()
    ensures var s := Snapshot(1, 0, 0);
            var (granted, s') := Admits(s, 3);
            granted == [true, false, false] && s'.inflight == 1
  {
    AdmitsWithoutComplete(Snapshot(1, 0, 0), 3);
  }

  lemma ExampleSlowSampleBacksOff()
    ensures var c := NewConfig(4, 300);
            var s := CompleteStep(c, Initial(c), 1000, true);
            s.limit == 3 && s.degraded == 1
  {
  }

  lemma ExampleSaturatedHealthyIncreases()
    ensures var c := NewConfig(4, 300);
            var (_, s) := Admits(Snapshot(3, 0, 1), 3);
            var s' := CompleteStep(c, s, 50, true);
            s.inflight == 3 && s'.limit == 4 && s'.degraded == 0
  {
    AdmitsWithoutComplete(Snapshot(3, 0, 1), 3);
  }

  lemma ExampleIdleHealthyUnchanged()
    ensures var c := NewConfig(4, 300);
            var s := CompleteStep(c, AdmitStep(Initial(c)).1, 50, true);
            s.limit == 4 && s.degraded == 0
  {
  }

  lemma ExampleRespectsMinimum()
    ensures var c := NewConfig(4, 300);
            Lmin(c) == 2 && CompleteStep(c, Snapshot(2, 0, 0), 10000, true).limit == 2
  {
  }

  /**
   * The limiter object. Each method is atomic (the source serialises them with
   * a mutex), so the class is modelled sequentially.
   */
  class Limiter {
    const config: Config
    var limit: int
    var inflight: int
    var degraded: int

    function Current(): Snapshot
      reads this
    {
      Snapshot(limit, inflight, degraded)
    }

    ghost predicate Valid()
      reads this
    {
      Invariant(config, Current())
    }

    constructor (initialLimit: int, targetP95Ms: int, additiveStep: int := ADDITIVE_STEP,
                 decreaseNum: int := DECREASE_NUM, decreaseDen: Positive := DECREASE_DEN)
      ensures config == NewConfig(initialLimit, targetP95Ms, additiveStep, decreaseNum, decreaseDen)
      ensures Current() == Initial(config)
      ensures Valid()
    {
      config := NewConfig(initialLimit, targetP95Ms, additiveStep, decreaseNum, decreaseDen);
      limit := if initialLimit < 1 then 1 else initialLimit;
      inflight := 0;
      degraded := 0;
      new;
      InitialInvariant(config);
    }

    function DecisionHash(admitted: bool): (d: Decision)
      reads this
      ensures d.admitted == admitted
      ensures d.limit == limit && d.inflight == inflight && d.degraded == degraded
    {
      Decision(admitted, limit, inflight, degraded)
    }

    method Admit() returns (d: Decision)
      requires config.initialLimit >= 1
      modifies this
      ensures (d, Current()) == AdmitStep(old(Current()))
      ensures d.admitted <==> old(inflight) < old(limit)
      ensures old(Valid()) ==> Valid()
    {
      var admitted := inflight < limit;
      if admitted {
        inflight := inflight + 1;
      }
      d := DecisionHash(admitted);
    }

    method Complete(rttMs: int, sample: bool)
      requires config.initialLimit >= 1
      modifies this
      ensures Current() == CompleteStep(config, old(Current()), rttMs, sample)
      ensures SafeTuning(config) && old(Valid()) ==> Valid()
    {
      if inflight > 0 {
        inflight := inflight - 1;
      }
      if sample {
        var slow := rttMs > config.targetP95Ms;
        UpdateLimit(slow);
      }
      if SafeTuning(config) && old(Valid()) {
        ApplyKeepsInvariant(config, old(Current()), Op.Complete(rttMs, sample));
      }
    }

    method UpdateLimit(slow: bool)
      requires config.initialLimit >= 1
      modifies this
      ensures Current() == Retune(config, old(Current()), slow)
    {
      if slow {
        limit := Max(Lmin(config), Decreased(config, limit));
        degraded := 1;
      } else if inflight * 2 >= limit {
        limit := Min(Lmax(config), limit + config.additiveStep);
        degraded := 0;
      } else {
        degraded := 0;
      }
    }

    /** `stats`: the current triple; the call changes nothing. */
    method Stats() returns (s: Snapshot)
      ensures s.limit == limit && s.inflight == inflight && s.degraded == degraded
    {
      s := Snapshot(limit, inflight, degraded);
    }
  }
}
