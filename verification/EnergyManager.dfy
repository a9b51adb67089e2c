/**
 Energy manager (os/src/energy_manager.rs): a thermal hysteresis machine, a battery and cpu policy on top
 of it, and edge-triggered sleep events. The 32-bit floats of the source are modelled as reals.
 */
module EnergyManagers {
  import opened Common
  import opened EventBuses

  datatype EnergyConfig = EnergyConfig(
    cpuHigh: real, batteryLow: real, batteryCritical: real, thermalHigh: real, thermalCritical: real,
    recoveryCycles: u8)

  datatype EnergyMode = Strategic | Reduced | Silent

  datatype ExecutionType = LLM | Proactive | BackgroundTask | CriticalReminder | Voice

  datatype EnergyDecision = EnergyDecision(allowed: bool, reason: Option<string>)

  datatype Sample = Sample(cpu: real, battery: real, thermal: real, external: bool)

  datatype Policy = Policy(llm: bool, proactive: bool, downgrade: bool, unload: bool, forceSleep: bool)

  // ---- Pure policy ----------------------------------------------------------------------

  function DetermineMode(batteryPercent: u8): EnergyMode {
    if batteryPercent >= 50 then Strategic else if batteryPercent >= 20 then Reduced else Silent
  }

  function AuthorizeExecution(mode: EnergyMode, execution: ExecutionType): EnergyDecision {
    match mode
    case Strategic => EnergyDecision(true, None)
    case Reduced => (
      match execution
      case BackgroundTask => EnergyDecision(false, Some("BACKGROUND_BLOCKED_REDUCED"))
      case LLM => EnergyDecision(true, Some("LLM_DOWNGRADED_REDUCED"))
      case _ => EnergyDecision(true, None))
    case Silent => (
      match execution
      case LLM => EnergyDecision(false, Some("LLM_BLOCKED_SILENT"))
      case Proactive => EnergyDecision(false, Some("PROACTIVE_BLOCKED_SILENT"))
      case BackgroundTask => EnergyDecision(false, Some("BACKGROUND_BLOCKED_SILENT"))
      case _ => EnergyDecision(true, None))
  }

  function ModeRank(mode: EnergyMode): nat {
    match mode case Strategic => 0 case Reduced => 1 case Silent => 2
  }

  function MaxMode(left: EnergyMode, right: EnergyMode): (r: EnergyMode)
    ensures ModeRank(r) == Max(ModeRank(left), ModeRank(right))
  {
    if ModeRank(left) >= ModeRank(right) then left else right
  }

  /** Clamping to [0, 100] and the truncating cast to an 8-bit integer. */
  function BatteryAsByte(percent: real): (r: u8)
    ensures r <= 100
    ensures 0.0 <= percent <= 100.0 ==> r as real <= percent < r as real + 1.0
    ensures (percent < 0.0 ==> r == 0) && (percent > 100.0 ==> r == 100)
  {
    (if percent < 0.0 then 0.0 else if percent > 100.0 then 100.0 else percent).Floor
  }

  // ---- One evaluation -------------------------------------------------------------------

  datatype Manager = Manager(policy: Policy, forcedSleep: bool, counter: u8, recovering: bool)

  const FRESH := Manager(Policy(true, true, false, false, false), false, 0, false)

  datatype Evaluation = Evaluation(manager: Manager, mode: EnergyMode, thermal: EnergyMode, events: seq<Event>)

  predicate Critical(cfg: EnergyConfig, x: Sample) { x.thermal >= cfg.thermalCritical }

  predicate High(cfg: EnergyConfig, x: Sample) { x.thermal >= cfg.thermalHigh }

  predicate Hot(cfg: EnergyConfig, x: Sample) { Critical(cfg, x) || High(cfg, x) }

  function Limit(cfg: EnergyConfig): u8 { Max(cfg.recoveryCycles, 1) }

  function Thermal(cfg: EnergyConfig, m: Manager, x: Sample): (EnergyMode, u8, bool) {
    if Critical(cfg, x) then (Silent, 0, true)
    else if High(cfg, x) then (Reduced, 0, true)
    else if m.recovering && m.counter < Limit(cfg) then (Reduced, SaturatingSucc(m.counter), true)
    else if m.recovering then (Strategic, 0, false)
    else (Strategic, m.counter, false)
  }

  function PolicyFor(cfg: EnergyConfig, mode: EnergyMode, x: Sample): Policy {
    var sleep := mode == Silent && (x.battery <= cfg.batteryCritical || Critical(cfg, x)) && !x.external;
    Policy(AuthorizeExecution(mode, LLM).allowed,
           AuthorizeExecution(mode, ExecutionType.Proactive).allowed && !sleep,
           mode != Strategic, mode == Silent, sleep)
  }

  function Sensed(cfg: EnergyConfig, x: Sample): seq<Event> {
    (if x.battery <= cfg.batteryLow then [BatteryLow] else []) + (if High(cfg, x) then [ThermalHigh] else [])
  }

  function Requested(p: Policy): seq<Event> {
    (if p.downgrade then [ModelDowngrade] else []) + (if p.unload then [ModelUnload] else [])
  }

  function SleepEdge(before: bool, after: bool): seq<Event> {
    if after && !before then [SleepEntered] else if !after && before then [SleepExited] else []
  }

  function Evaluate(cfg: EnergyConfig, m: Manager, x: Sample): Evaluation {
    var (thermal, counter, recovering) := Thermal(cfg, m, x);
    var cpu := if x.cpu >= cfg.cpuHigh then Reduced else Strategic;
    var mode := MaxMode(MaxMode(DetermineMode(BatteryAsByte(x.battery)), thermal), cpu);
    var policy := PolicyFor(cfg, mode, x);
    Evaluation(
      Manager(policy, policy.forceSleep, counter, recovering), mode, thermal,
      Sensed(cfg, x) + SleepEdge(m.forcedSleep, policy.forceSleep) + Requested(policy))
  }

  class EnergyManager {
    const config: EnergyConfig
    var policy: Policy
    var forcedSleepActive: bool
    var thermalRecoveryCounter: u8
    var thermalRecoveryActive: bool

    ghost function View(): Manager
      reads this
    {
      Manager(policy, forcedSleepActive, thermalRecoveryCounter, thermalRecoveryActive)
    }

    constructor (cfg: EnergyConfig)
      ensures config == cfg && View() == FRESH
    {
      config := cfg;
      policy := Policy(true, true, false, false, false);
      forcedSleepActive, thermalRecoveryCounter, thermalRecoveryActive := false, 0, false;
    }

    method EvaluateThermalMode(thermalHigh: bool, thermalCritical: bool, ghost x: Sample) returns (mode: EnergyMode)
      requires thermalHigh == High(config, x) && thermalCritical == Critical(config, x)
      modifies this`thermalRecoveryCounter, this`thermalRecoveryActive
      ensures (mode, thermalRecoveryCounter, thermalRecoveryActive) == Thermal(config, old(View()), x)
    {
      if thermalCritical {
        thermalRecoveryActive, thermalRecoveryCounter := true, 0;
        return Silent;
      }
      if thermalHigh {
        thermalRecoveryActive, thermalRecoveryCounter := true, 0;
        return Reduced;
      }
      if thermalRecoveryActive {
        var limit := Max(config.recoveryCycles, 1);
        if thermalRecoveryCounter < limit {
          thermalRecoveryCounter := SaturatingSucc(thermalRecoveryCounter);
          return Reduced;
        }
        thermalRecoveryCounter, thermalRecoveryActive := 0, false;
      }
      return Strategic;
    }

    /** The edge-triggered part: an event only when the forced-sleep flag flips. */
    method UpdateForcedSleep(forceSleep: bool) returns (events: seq<Event>)
      modifies this`forcedSleepActive
      ensures forcedSleepActive == forceSleep && events == SleepEdge(old(forcedSleepActive), forceSleep)
    {
      events := [];
      if forceSleep && !forcedSleepActive {
        events := events + [SleepEntered];
        forcedSleepActive := true;
      } else if !forceSleep && forcedSleepActive {
        events := events + [SleepExited];
        forcedSleepActive := false;
      }
    }

    method EffectiveMode(x: Sample) returns (mode: EnergyMode)
      modifies this`thermalRecoveryCounter, this`thermalRecoveryActive
      ensures var r := Evaluate(config, old(View()), x);
        mode == r.mode && thermalRecoveryCounter == r.manager.counter && thermalRecoveryActive == r.manager.recovering
    {
      var batteryMode := DetermineMode(BatteryAsByte(x.battery));
      var thermalMode := EvaluateThermalMode(x.thermal >= config.thermalHigh, x.thermal >= config.thermalCritical, x);
      var cpuMode := if x.cpu >= config.cpuHigh then Reduced else Strategic;
      mode := MaxMode(MaxMode(batteryMode, thermalMode), cpuMode);
    }

    method EvaluateSample(x: Sample) returns (events: seq<Event>, result: Policy)
      modifies this
      ensures View() == Evaluate(config, old(View()), x).manager
      ensures events == Evaluate(config, old(View()), x).events && result == policy
    {
      events := [];
      if x.battery <= config.batteryLow { events := events + [BatteryLow]; }
      if x.thermal >= config.thermalHigh { events := events + [ThermalHigh]; }
      assert events == Sensed(config, x);

      var mode := EffectiveMode(x);
      var critical := x.battery <= config.batteryCritical || x.thermal >= config.thermalCritical;
      var forceSleep := mode == Silent && critical && !x.external;
      var edge := UpdateForcedSleep(forceSleep);
      policy := Policy(AuthorizeExecution(mode, LLM).allowed,
                       AuthorizeExecution(mode, ExecutionType.Proactive).allowed && !forceSleep,
                       mode != Strategic, mode == Silent, forceSleep);
      assert policy == PolicyFor(config, mode, x);

      var requests := [];
      if policy.downgrade { requests := requests + [ModelDowngrade]; }
      if policy.unload { requests := requests + [ModelUnload]; }
      assert requests == Requested(policy);
      events := events + edge + requests;
      result := policy;
    }
  }

  // ---- Whole histories ------------------------------------------------------------------

  /** The manager after evaluating `history` from a fresh start. */
  ghost function AfterAll(cfg: EnergyConfig, history: seq<Sample>): Manager {
    if history == [] then FRESH
    else Evaluate(cfg, AfterAll(cfg, history[..|history| - 1]), history[|history| - 1]).manager
  }

  /** The evaluation of the last sample of `history`. */
  ghost function Latest(cfg: EnergyConfig, history: seq<Sample>): Evaluation
    requires history != []
  {
    Evaluate(cfg, AfterAll(cfg, history[..|history| - 1]), history[|history| - 1])
  }

  /** Sample `h` was hot and `cool` samples, all of them cool, followed it. */
  ghost predicate CooledFrom(cfg: EnergyConfig, history: seq<Sample>, h: nat, cool: nat) {
    && h + cool + 1 == |history| && Hot(cfg, history[h])
    && forall j | h < j < |history| :: !Hot(cfg, history[j])
  }

  /** Cool samples since the last hot one, if there was a hot one. */
  ghost function SinceHot(cfg: EnergyConfig, history: seq<Sample>): Option<nat> {
    if history == [] then None
    else if Hot(cfg, history[|history| - 1]) then Some(0)
    else
      var before := SinceHot(cfg, history[..|history| - 1]);
      if before.Some? then Some(before.value + 1) else None
  }

  lemma {:induction false} SinceHotCounts(cfg: EnergyConfig, history: seq<Sample>, h: nat, c: nat)
    requires h + c + 1 == |history|
    ensures SinceHot(cfg, history) == Some(c) <==> CooledFrom(cfg, history, h, c)
    decreases c
  {
    if c > 0 {
      var before := history[..|history| - 1];
      SinceHotCounts(cfg, before, h, c - 1);
      assert history == before + [history[|history| - 1]];
    }
  }

  lemma {:induction false} SinceHotInRange(cfg: EnergyConfig, history: seq<Sample>)
    ensures SinceHot(cfg, history).Some? ==> SinceHot(cfg, history).value < |history|
    decreases |history|
  {
    if history != [] { SinceHotInRange(cfg, history[..|history| - 1]); }
  }

  /** The flag and the counter remember exactly how long ago the last hot sample was, up to the limit. */
  lemma {:induction false} RecoveryTracksHistory(cfg: EnergyConfig, history: seq<Sample>)
    ensures var m, cool := AfterAll(cfg, history), SinceHot(cfg, history);
      && (m.recovering <==> cool.Some? && cool.value <= Limit(cfg))
      && m.counter == if m.recovering then cool.value else 0
    decreases |history|
  {
    if history != [] { RecoveryTracksHistory(cfg, history[..|history| - 1]); }
  }

  /** The last hot sample was `1` to `Limit` samples ago. */
  ghost predicate Cooling(cfg: EnergyConfig, history: seq<Sample>) {
    exists h: nat, c: nat :: CooledFrom(cfg, history, h, c) && 1 <= c <= Max(cfg.recoveryCycles, 1)
  }

  /** Closed form: after any history the thermal mode depends only on the samples since the last hot one. */
  lemma ThermalClosedForm(cfg: EnergyConfig, history: seq<Sample>)
    requires history != []
    ensures var last := history[|history| - 1];
      Latest(cfg, history).thermal ==
        if Critical(cfg, last) then Silent
        else if High(cfg, last) then Reduced
        else if Cooling(cfg, history) then Reduced
        else Strategic
  {
    var before, cool := history[..|history| - 1], SinceHot(cfg, history);
    RecoveryTracksHistory(cfg, before);
    SinceHotInRange(cfg, history);
    if cool.Some? {
      SinceHotCounts(cfg, history, |history| - 1 - cool.value, cool.value);
    }
    forall h: nat, c: nat | CooledFrom(cfg, history, h, c) ensures cool == Some(c) {
      SinceHotCounts(cfg, history, h, c);
    }
  }

  lemma BatteryThresholds(percent: real)
    ensures DetermineMode(BatteryAsByte(percent)) ==
            if percent >= 50.0 then Strategic else if percent >= 20.0 then Reduced else Silent
  {
  }

  /**
   The whole policy after any history, in terms of the samples alone. Proactive work is enabled exactly with the
   language model: the extra sleep test never decides.
   */
  lemma PolicyClosedForm(cfg: EnergyConfig, history: seq<Sample>)
    requires history != []
    ensures var p, x := Latest(cfg, history).manager.policy, history[|history| - 1];
      && (p.llm <==> x.battery >= 20.0 && !Critical(cfg, x))
      && p.proactive == p.llm && p.unload == !p.llm
      && (p.downgrade <==> x.battery < 50.0 || x.cpu >= cfg.cpuHigh || Hot(cfg, x) || Cooling(cfg, history))
      && (p.forceSleep <==>
            !x.external && (Critical(cfg, x) || (x.battery < 20.0 && x.battery <= cfg.batteryCritical)))
  {
    var x := history[|history| - 1];
    BatteryThresholds(x.battery);
    ThermalClosedForm(cfg, history);
    assert Latest(cfg, history).thermal == Silent <==> Critical(cfg, x);
    assert Latest(cfg, history).thermal == Strategic <==> !Hot(cfg, x) && !Cooling(cfg, history);
  }

  // ---- Sleep events ---------------------------------------------------------------------

  ghost predicate IsSleepEvent(e: Event) { e.SleepEntered? || e.SleepExited? }

  ghost function SleepOnly(events: seq<Event>): seq<Event> {
    if events == [] then []
    else SleepOnly(events[..|events| - 1])
         + if IsSleepEvent(events[|events| - 1]) then [events[|events| - 1]] else []
  }

  lemma {:induction false} SleepOnlyConcat(a: seq<Event>, b: seq<Event>)
    ensures SleepOnly(a + b) == SleepOnly(a) + SleepOnly(b)
    decreases |b|
  {
    if b == [] {
      assert a + b == a;
    } else {
      assert (a + b)[..|a + b| - 1] == a + b[..|b| - 1];
      SleepOnlyConcat(a, b[..|b| - 1]);
    }
  }

  /** The concatenation of everything emitted during `history`. */
  ghost function Stream(cfg: EnergyConfig, history: seq<Sample>): seq<Event> {
    if history == [] then [] else Stream(cfg, history[..|history| - 1]) + Latest(cfg, history).events
  }

  ghost predicate Alternates(events: seq<Event>) {
    forall i | 0 <= i < |events| :: events[i] == if i % 2 == 0 then SleepEntered else SleepExited
  }

  lemma {:induction false} NoSleepEvents(events: seq<Event>)
    requires forall e | e in events :: !IsSleepEvent(e)
    ensures SleepOnly(events) == []
  {
    if events != [] {
      NoSleepEvents(events[..|events| - 1]);
    }
  }

  lemma SleepOnlyBetween(a: seq<Event>, before: bool, after: bool, b: seq<Event>)
    requires forall e | e in a || e in b :: !IsSleepEvent(e)
    ensures SleepOnly(a + SleepEdge(before, after) + b) == SleepEdge(before, after)
  {
    var edge := SleepEdge(before, after);
    SleepOnlyConcat(a + edge, b);
    SleepOnlyConcat(a, edge);
    NoSleepEvents(a);
    NoSleepEvents(b);
    assert edge != [] ==> edge[..0] == [];
  }

  lemma EvaluationSleepEvents(cfg: EnergyConfig, m: Manager, x: Sample)
    ensures var r := Evaluate(cfg, m, x); SleepOnly(r.events) == SleepEdge(m.forcedSleep, r.manager.forcedSleep)
  {
    var p := Evaluate(cfg, m, x).manager.policy;
    assert forall e | e in Sensed(cfg, x) || e in Requested(p) :: !IsSleepEvent(e);
    SleepOnlyBetween(Sensed(cfg, x), m.forcedSleep, p.forceSleep, Requested(p));
  }

  lemma AlternatesExtend(events: seq<Event>, before: bool, after: bool)
    requires Alternates(events) && (before <==> |events| % 2 == 1)
    ensures var more := events + SleepEdge(before, after); Alternates(more) && (after <==> |more| % 2 == 1)
  {
  }

  /** SleepEntered and SleepExited strictly alternate over any history, and the flag follows the latest decision. */
  lemma {:induction false} SleepEventsAlternate(cfg: EnergyConfig, history: seq<Sample>)
    ensures Alternates(SleepOnly(Stream(cfg, history)))
    ensures AfterAll(cfg, history).forcedSleep <==> |SleepOnly(Stream(cfg, history))| % 2 == 1
    ensures AfterAll(cfg, history).forcedSleep == AfterAll(cfg, history).policy.forceSleep
    decreases |history|
  {
    if history != [] {
      var before, x := history[..|history| - 1], history[|history| - 1];
      SleepEventsAlternate(cfg, before);
      SleepOnlyConcat(Stream(cfg, before), Latest(cfg, history).events);
      EvaluationSleepEvents(cfg, AfterAll(cfg, before), x);
      AlternatesExtend(SleepOnly(Stream(cfg, before)),
                       AfterAll(cfg, before).forcedSleep, AfterAll(cfg, history).forcedSleep);
    }
  }

  /** The place of an event in the stream of one evaluation. */
  ghost function EventRank(e: Event): nat {
    match e
    case BatteryLow => 0
    case ThermalHigh => 1
    case SleepEntered => 2
    case SleepExited => 2
    case ModelDowngrade => 3
    case ModelUnload => 4
    case _ => 5
  }

  ghost predicate Ranked(events: seq<Event>, low: nat, high: nat) {
    && (forall i | 0 <= i < |events| :: low <= EventRank(events[i]) <= high)
    && (forall i, j | 0 <= i < j < |events| :: EventRank(events[i]) < EventRank(events[j]))
  }

  lemma RankedConcat(a: seq<Event>, b: seq<Event>, low: nat, mid: nat, high: nat)
    requires Ranked(a, low, mid) && Ranked(b, mid + 1, high) && low <= mid <= high
    ensures Ranked(a + b, low, high)
  {
    var c := a + b;
    assert forall i | 0 <= i < |c| :: c[i] == if i < |a| then a[i] else b[i - |a|];
  }

  lemma SensedExactly(cfg: EnergyConfig, x: Sample)
    ensures var a := Sensed(cfg, x);
      && Ranked(a, 0, 1) && (BatteryLow in a <==> x.battery <= cfg.batteryLow)
      && (ThermalHigh in a <==> x.thermal >= cfg.thermalHigh)
  {
  }

  lemma RequestedExactly(p: Policy)
    ensures var c := Requested(p);
      Ranked(c, 3, 4) && (ModelDowngrade in c <==> p.downgrade) && (ModelUnload in c <==> p.unload)
  {
  }

  lemma RankedLacks(events: seq<Event>, low: nat, high: nat, e: Event)
    requires Ranked(events, low, high) && !(low <= EventRank(e) <= high)
    ensures e !in events
  {
  }

  lemma EventParts(a: seq<Event>, before: bool, after: bool, c: seq<Event>)
    requires Ranked(a, 0, 1) && Ranked(c, 3, 4)
    ensures var all := a + SleepEdge(before, after) + c;
      && Ranked(all, 0, 4)
      && (BatteryLow in all <==> BatteryLow in a) && (ThermalHigh in all <==> ThermalHigh in a)
      && (ModelDowngrade in all <==> ModelDowngrade in c) && (ModelUnload in all <==> ModelUnload in c)
      && (SleepEntered in all <==> !before && after) && (SleepExited in all <==> before && !after)
  {
    var b := SleepEdge(before, after);
    assert Ranked(b, 2, 2);
    RankedConcat(a, b, 0, 1, 2);
    RankedConcat(a + b, c, 0, 2, 4);
    RankedLacks(a, 0, 1, SleepEntered);
    RankedLacks(a, 0, 1, SleepExited);
    RankedLacks(a, 0, 1, ModelDowngrade);
    RankedLacks(a, 0, 1, ModelUnload);
    RankedLacks(c, 3, 4, SleepEntered);
    RankedLacks(c, 3, 4, SleepExited);
    RankedLacks(c, 3, 4, BatteryLow);
    RankedLacks(c, 3, 4, ThermalHigh);
  }

  lemma EvaluationParts(cfg: EnergyConfig, m: Manager, x: Sample)
    ensures var r := Evaluate(cfg, m, x); var p := r.manager.policy;
      && r.events == Sensed(cfg, x) + SleepEdge(m.forcedSleep, p.forceSleep) + Requested(p)
      && (p.downgrade <==> r.mode != Strategic) && (p.unload <==> r.mode == Silent)
  {
  }

  /** Which events one evaluation emits, each at most once and in this order. */
  lemma EventsExactly(cfg: EnergyConfig, m: Manager, x: Sample, r: Evaluation)
    requires r == Evaluate(cfg, m, x)
    ensures BatteryLow in r.events <==> x.battery <= cfg.batteryLow
    ensures ThermalHigh in r.events <==> x.thermal >= cfg.thermalHigh
    ensures SleepEntered in r.events <==> !m.forcedSleep && r.manager.policy.forceSleep
    ensures SleepExited in r.events <==> m.forcedSleep && !r.manager.policy.forceSleep
    ensures ModelDowngrade in r.events <==> r.mode != Strategic
    ensures ModelUnload in r.events <==> r.mode == Silent
    ensures Ranked(r.events, 0, 4)
  {
    var p := r.manager.policy;
    EvaluationParts(cfg, m, x);
    SensedExactly(cfg, x);
    RequestedExactly(p);
    EventParts(Sensed(cfg, x), m.forcedSleep, p.forceSleep, Requested(p));
  }

  // ---- Two runs ---  // ---- Two runs -------------------------------------------------------------------------

  /** `y` is at least as bad as `x` in every respect. */
  ghost predicate Worse(x: Sample, y: Sample) {
    y.battery <= x.battery && y.cpu >= x.cpu && y.thermal >= x.thermal && (y.external ==> x.external)
  }

  ghost predicate PointwiseWorse(xs: seq<Sample>, ys: seq<Sample>) {
    |xs| == |ys| && forall i | 0 <= i < |xs| :: Worse(xs[i], ys[i])
  }

  /** The second machine is at least as far from recovery as the first. */
  ghost predicate Behind(m: Manager, n: Manager) {
    m.recovering ==> n.recovering && n.counter <= m.counter
  }

  /** `n` never grants what `m` denies, and demands whatever `m` demands. */
  ghost predicate NoMorePermissive(m: Policy, n: Policy) {
    && (n.llm ==> m.llm) && (n.proactive ==> m.proactive)
    && (m.downgrade ==> n.downgrade) && (m.unload ==> n.unload) && (m.forceSleep ==> n.forceSleep)
  }

  lemma BatteryMonotone(a: real, b: real)
    requires b <= a
    ensures ModeRank(DetermineMode(BatteryAsByte(b))) >= ModeRank(DetermineMode(BatteryAsByte(a)))
  {
  }

  lemma StepMonotone(cfg: EnergyConfig, m: Manager, n: Manager, x: Sample, y: Sample)
    requires Behind(m, n) && Worse(x, y)
    ensures var r, q := Evaluate(cfg, m, x), Evaluate(cfg, n, y);
      Behind(r.manager, q.manager) && ModeRank(q.mode) >= ModeRank(r.mode)
      && NoMorePermissive(r.manager.policy, q.manager.policy)
  {
    BatteryMonotone(x.battery, y.battery);
    var (t, _, _) := Thermal(cfg, m, x);
    var (u, _, _) := Thermal(cfg, n, y);
    assert ModeRank(u) >= ModeRank(t);
  }

  lemma {:induction false} RunsStayBehind(cfg: EnergyConfig, xs: seq<Sample>, ys: seq<Sample>)
    requires PointwiseWorse(xs, ys)
    ensures Behind(AfterAll(cfg, xs), AfterAll(cfg, ys))
    decreases |xs|
  {
    if xs != [] {
      var n := |xs| - 1;
      RunsStayBehind(cfg, xs[..n], ys[..n]);
      StepMonotone(cfg, AfterAll(cfg, xs[..n]), AfterAll(cfg, ys[..n]), xs[n], ys[n]);
    }
  }

  /** A pointwise worse history never gains a permission, at any step, despite the recovery counter. */
  lemma WorseHistoryNeverGains(cfg: EnergyConfig, xs: seq<Sample>, ys: seq<Sample>, k: nat)
    requires PointwiseWorse(xs, ys) && 0 < k <= |xs|
    ensures var r, q := Latest(cfg, xs[..k]), Latest(cfg, ys[..k]);
      ModeRank(q.mode) >= ModeRank(r.mode) && NoMorePermissive(r.manager.policy, q.manager.policy)
  {
    var us, vs := xs[..k], ys[..k];
    RunsStayBehind(cfg, us[..k - 1], vs[..k - 1]);
    assert Worse(xs[k - 1], ys[k - 1]);
    StepMonotone(cfg, AfterAll(cfg, us[..k - 1]), AfterAll(cfg, vs[..k - 1]), us[k - 1], vs[k - 1]);
  }

  /** The highest mode rank under which an execution class still runs. */
  function Tolerance(e: ExecutionType): nat {
    match e case BackgroundTask => 0 case LLM => 1 case Proactive => 1 case CriticalReminder => 2 case Voice => 2
  }

  /** Authorization is a threshold on the mode rank, so a higher mode never allows what a lower one denies. */
  lemma AuthorizationIsThreshold(m: EnergyMode, e: ExecutionType)
    ensures AuthorizeExecution(m, e).allowed <==> ModeRank(m) <= Tolerance(e)
    ensures var reason := AuthorizeExecution(m, e).reason;
      && (m == Reduced && e == BackgroundTask ==> reason == Some("BACKGROUND_BLOCKED_REDUCED"))
      && (m == Reduced && e == LLM ==> reason == Some("LLM_DOWNGRADED_REDUCED"))
      && (m == Silent && e == LLM ==> reason == Some("LLM_BLOCKED_SILENT"))
      && (m == Silent && e == ExecutionType.Proactive ==> reason == Some("PROACTIVE_BLOCKED_SILENT"))
      && (m == Silent && e == BackgroundTask ==> reason == Some("BACKGROUND_BLOCKED_SILENT"))
      && (AuthorizeExecution(m, e).allowed && !(m == Reduced && e == LLM) ==> reason == None)
  {
  }
}
