/**
 Event bus (os/src/event_bus.rs). Publisher threads, the dispatch thread and the handlers it runs
 interleave freely: a publish first passes the checks (`Admit`) and only later completes its blocking
 send (`Send`), which needs room in the bounded channel. A handler, or a thread it hands the envelope
 to, may call continue_trace at most `fanout` times for each dispatched envelope.
 */
module EventBuses {
  import opened Common

  datatype Event =
    | IntentParsed | LifecycleValidated | TaskCreated | TaskCompleted | TaskArchived | BatteryLow
    | ThermalHigh | SleepEntered | SleepExited | IdentityChanged | ModelDowngrade | ModelUnload

  type u8 = n: nat | n < 256

  datatype Envelope = Envelope(id: nat, traceId: nat, hop: u8, source: string, timestamp: nat, event: Event)

  datatype Command = Publish(envelope: Envelope) | Stop

  datatype BusError = ChannelDisconnected | RecursionLimitExceeded | AlreadyShutdown

  /** Construction parameters after the lower bounds of `EventBus::new` have been applied. */
  datatype Config = Config(capacity: nat, maxHops: u8, traceCapacity: nat, fanout: nat)
  {
    ghost predicate Valid() { capacity >= 1 && maxHops >= 1 && traceCapacity >= 1 }
  }

  function SaturatingSucc(h: u8): (r: u8)
    ensures r == Min(h + 1, 255)
  {
    if h == 255 then 255 else h + 1
  }

  /**
   The bus with its history. `sent` lists every command the channel accepted, `dispatched` every
   envelope handed to handlers, `callsLeft[i]` the continue_trace calls still allowed for
   `dispatched[i]`, `seeds` every admitted envelope that did not come from continue_trace.
   */
  datatype Bus = Bus(
    queue: seq<Command>, pending: seq<Command>, traces: seq<Envelope>, nextId: nat, active: bool, exited: bool,
    sent: seq<Command>, dispatched: seq<Envelope>, callsLeft: seq<nat>, seeds: seq<Envelope>)

  const INITIAL := Bus([], [], [], 1, true, false, [], [], [], [])

  datatype Message = Message(event: Event, source: string, timestamp: nat)

  datatype Action =
    | NewTrace(message: Message)
    | OldTrace(message: Message, traceId: nat, hop: u8)
    | Continue(message: Message, parent: nat)
    | Send(thread: nat)
    | Deliver
    | Shutdown
    | TakeId

  /** The checks of publish_with_trace; an admitted envelope becomes pending on its sender's thread. */
  predicate Admitted(cfg: Config, s: Bus, hop: u8) { s.active && hop <= cfg.maxHops }

  function Stamp(s: Bus, m: Message, traceId: nat, hop: u8): Envelope {
    Envelope(s.nextId, traceId, hop, m.source, m.timestamp, m.event)
  }

  function Admit(cfg: Config, s: Bus, m: Message, traceId: nat, hop: u8): Bus {
    if !Admitted(cfg, s, hop) then s
    else s.(pending := s.pending + [Publish(Stamp(s, m, traceId, hop))], nextId := s.nextId + 1)
  }

  function AdmitSeed(cfg: Config, s: Bus, m: Message, traceId: nat, hop: u8): Bus {
    if !Admitted(cfg, s, hop) then s
    else Admit(cfg, s, m, traceId, hop).(seeds := s.seeds + [Stamp(s, m, traceId, hop)])
  }

  predicate Enabled(cfg: Config, s: Bus, a: Action) {
    match a
    case Continue(_, i) => i < |s.dispatched| && i < |s.callsLeft| && s.callsLeft[i] > 0
    case Send(t) => t < |s.pending| && (s.exited || |s.queue| < cfg.capacity)
    case Deliver => !s.exited && s.queue != []
    case _ => true
  }

  function Dispatch(cfg: Config, s: Bus, c: Command): Bus {
    match c
    case Stop => s.(exited := true)
    case Publish(e) =>
      if e.hop > cfg.maxHops then s
      else s.(traces := LastN(s.traces + [e], cfg.traceCapacity),
              dispatched := s.dispatched + [e], callsLeft := s.callsLeft + [cfg.fanout])
  }

  function Next(cfg: Config, s: Bus, a: Action): Bus
    requires Enabled(cfg, s, a)
  {
    match a
    case NewTrace(m) => AdmitSeed(cfg, s.(nextId := s.nextId + 1), m, s.nextId, 0)
    case OldTrace(m, traceId, hop) => AdmitSeed(cfg, s, m, traceId, hop)
    case Continue(m, i) =>
      var parent := s.dispatched[i];
      Admit(cfg, s.(callsLeft := s.callsLeft[i := s.callsLeft[i] - 1]), m, parent.traceId, SaturatingSucc(parent.hop))
    case Send(t) =>
      var s' := s.(pending := s.pending[..t] + s.pending[t + 1..]);
      if s.exited then s'
      else s'.(queue := s.queue + [s.pending[t]], sent := s.sent + [s.pending[t]])
    case Deliver =>
      Dispatch(cfg, s.(queue := s.queue[1..]), s.queue[0])
    case Shutdown =>
      if s.active then s.(active := false, pending := s.pending + [Stop]) else s
    case TakeId => s.(nextId := s.nextId + 1)
  }

  /** The state after performing `run` on a fresh bus, if every action was enabled in its turn. */
  ghost function After(cfg: Config, run: seq<Action>): Option<Bus> {
    if run == [] then Some(INITIAL)
    else
      var before, a := After(cfg, run[..|run| - 1]), run[|run| - 1];
      if before.Some? && Enabled(cfg, before.value, a) then Some(Next(cfg, before.value, a)) else None
  }

  ghost predicate Leads(cfg: Config, run: seq<Action>, s: Bus) {
    After(cfg, run) == Some(s)
  }

  lemma LeadsAppend(cfg: Config, run: seq<Action>, s: Bus, a: Action)
    requires Leads(cfg, run, s) && Enabled(cfg, s, a)
    ensures Leads(cfg, run + [a], Next(cfg, s, a))
  {
    assert (run + [a])[..|run|] == run;
  }

  // ---- Cascades: a conserved cost -------------------------------------------------------

  /** G: dispatches one envelope can cause when `n` further hops are allowed. */
  ghost function Growth(k: nat, n: nat): nat {
    if n == 0 then 1 else 1 + k * Growth(k, n - 1)
  }

  ghost function Cost(cfg: Config, hop: u8): nat {
    if hop > cfg.maxHops then 0 else Growth(cfg.fanout, cfg.maxHops - hop)
  }

  ghost function ChildCost(cfg: Config, hop: u8): nat {
    if hop >= cfg.maxHops then 0 else Growth(cfg.fanout, cfg.maxHops - hop - 1)
  }

  ghost function EnvelopeCost(cfg: Config, t: nat, e: Envelope): nat {
    if e.traceId == t then Cost(cfg, e.hop) else 0
  }

  ghost function CommandCost(cfg: Config, t: nat, c: Command): nat {
    match c case Stop => 0 case Publish(e) => EnvelopeCost(cfg, t, e)
  }

  ghost function CommandsCost(cfg: Config, t: nat, cs: seq<Command>): nat {
    if cs == [] then 0 else CommandsCost(cfg, t, cs[..|cs| - 1]) + CommandCost(cfg, t, cs[|cs| - 1])
  }

  ghost function SeedsCost(cfg: Config, t: nat, es: seq<Envelope>): nat {
    if es == [] then 0 else SeedsCost(cfg, t, es[..|es| - 1]) + EnvelopeCost(cfg, t, es[|es| - 1])
  }

  ghost function CallsCost(cfg: Config, t: nat, es: seq<Envelope>, left: seq<nat>): nat
    requires |es| == |left|
  {
    if es == [] then 0
    else
      var n := |es| - 1;
      CallsCost(cfg, t, es[..n], left[..n]) + if es[n].traceId == t then left[n] * ChildCost(cfg, es[n].hop) else 0
  }

  ghost function InTrace(t: nat, es: seq<Envelope>): nat {
    if es == [] then 0 else InTrace(t, es[..|es| - 1]) + if es[|es| - 1].traceId == t then 1 else 0
  }

  /** Work of trace `t` that is admitted, queued or still allowed to its handlers. */
  ghost function Outstanding(cfg: Config, t: nat, s: Bus): nat
    requires |s.dispatched| == |s.callsLeft|
  {
    CommandsCost(cfg, t, s.pending) + CommandsCost(cfg, t, s.queue) + CallsCost(cfg, t, s.dispatched, s.callsLeft)
  }

  lemma {:induction false} CommandsCostConcat(cfg: Config, t: nat, a: seq<Command>, b: seq<Command>)
    ensures CommandsCost(cfg, t, a + b) == CommandsCost(cfg, t, a) + CommandsCost(cfg, t, b)
    decreases |b|
  {
    if b == [] {
      assert a + b == a;
    } else {
      assert (a + b)[..|a + b| - 1] == a + b[..|b| - 1];
      CommandsCostConcat(cfg, t, a, b[..|b| - 1]);
    }
  }

  lemma CommandsCostRemove(cfg: Config, t: nat, cs: seq<Command>, i: nat)
    requires i < |cs|
    ensures CommandsCost(cfg, t, cs[..i] + cs[i + 1..]) + CommandCost(cfg, t, cs[i]) == CommandsCost(cfg, t, cs)
  {
    assert cs == cs[..i] + ([cs[i]] + cs[i + 1..]);
    CommandsCostConcat(cfg, t, cs[..i], [cs[i]] + cs[i + 1..]);
    CommandsCostConcat(cfg, t, [cs[i]], cs[i + 1..]);
    CommandsCostConcat(cfg, t, cs[..i], cs[i + 1..]);
    assert [cs[i]][..0] == [];
  }

  lemma {:induction false} CallsCostUse(cfg: Config, t: nat, es: seq<Envelope>, left: seq<nat>, i: nat)
    requires |es| == |left| && i < |es| && left[i] > 0
    ensures CallsCost(cfg, t, es, left)
         == CallsCost(cfg, t, es, left[i := left[i] - 1])
            + (if es[i].traceId == t then ChildCost(cfg, es[i].hop) else 0)
    decreases |es|
  {
    var n := |es| - 1;
    var used := left[i := left[i] - 1];
    if i == n {
      assert used[..n] == left[..n];
      assert left[n] * ChildCost(cfg, es[n].hop) == used[n] * ChildCost(cfg, es[n].hop) + ChildCost(cfg, es[n].hop);
    } else {
      assert used[..n] == left[..n][i := left[..n][i] - 1];
      CallsCostUse(cfg, t, es[..n], left[..n], i);
    }
  }

  /** The hop check can fire: the largest hop count is not already the limit (or nobody continues traces). */
  predicate Guarded(cfg: Config) {
    cfg.maxHops <= 254 || cfg.fanout == 0
  }

  /** Facts about every state of every run that the cost argument and the delivery argument share. */
  ghost predicate Inv(cfg: Config, s: Bus) {
    && |s.callsLeft| == |s.dispatched|
    && (forall c | c in s.pending || c in s.queue :: c.Publish? ==> c.envelope.hop <= cfg.maxHops)
    && (forall e | e in s.dispatched :: e.hop <= cfg.maxHops)
    && (forall i | 0 <= i < |s.callsLeft| :: s.callsLeft[i] <= cfg.fanout)
  }

  /** Dispatches plus outstanding work of a trace grow by no more than the cost of the seeds the step admits. */
  ghost predicate StepWithinCost(cfg: Config, t: nat, s: Bus, s': Bus)
    requires |s.callsLeft| == |s.dispatched| && |s'.callsLeft| == |s'.dispatched|
  {
    InTrace(t, s'.dispatched) + Outstanding(cfg, t, s') + SeedsCost(cfg, t, s.seeds)
      <= InTrace(t, s.dispatched) + Outstanding(cfg, t, s) + SeedsCost(cfg, t, s'.seeds)
  }

  lemma AdmitCost(cfg: Config, t: nat, s: Bus, m: Message, traceId: nat, hop: u8)
    requires Inv(cfg, s)
    ensures var s' := Admit(cfg, s, m, traceId, hop);
      && Inv(cfg, s')
      && Outstanding(cfg, t, s') <= Outstanding(cfg, t, s) + (if traceId == t then Cost(cfg, hop) else 0)
  {
    if Admitted(cfg, s, hop) {
      var c := Publish(Stamp(s, m, traceId, hop));
      assert (s.pending + [c])[..|s.pending|] == s.pending;
    }
  }

  lemma AdmitSeedCost(cfg: Config, t: nat, s: Bus, m: Message, traceId: nat, hop: u8)
    requires Inv(cfg, s)
    ensures var s' := AdmitSeed(cfg, s, m, traceId, hop);
      Inv(cfg, s') && StepWithinCost(cfg, t, s, s')
  {
    AdmitCost(cfg, t, s, m, traceId, hop);
    var s' := AdmitSeed(cfg, s, m, traceId, hop);
    if s'.seeds != s.seeds {
      assert s'.seeds[..|s.seeds|] == s.seeds;
    }
  }

  lemma TakeCost(cfg: Config, t: nat, cs: seq<Command>)
    requires cs != []
    ensures CommandsCost(cfg, t, cs[1..]) + CommandCost(cfg, t, cs[0]) == CommandsCost(cfg, t, cs)
  {
    CommandsCostRemove(cfg, t, cs, 0);
    assert cs[..0] + cs[1..] == cs[1..];
  }

  lemma RecordCost(cfg: Config, t: nat, es: seq<Envelope>, left: seq<nat>, e: Envelope)
    requires |es| == |left| && e.hop <= cfg.maxHops
    ensures InTrace(t, es + [e]) + CallsCost(cfg, t, es + [e], left + [cfg.fanout])
         == InTrace(t, es) + CallsCost(cfg, t, es, left) + EnvelopeCost(cfg, t, e)
  {
    assert (es + [e])[..|es|] == es && (left + [cfg.fanout])[..|es|] == left;
    assert Cost(cfg, e.hop) == 1 + cfg.fanout * ChildCost(cfg, e.hop);
  }

  lemma DispatchCost(cfg: Config, t: nat, s: Bus)
    requires Inv(cfg, s) && s.queue != []
    ensures var s' := Dispatch(cfg, s.(queue := s.queue[1..]), s.queue[0]);
      Inv(cfg, s') && StepWithinCost(cfg, t, s, s')
  {
    TakeCost(cfg, t, s.queue);
    assert s.queue[0] in s.queue;
    if s.queue[0].Publish? {
      RecordCost(cfg, t, s.dispatched, s.callsLeft, s.queue[0].envelope);
    }
  }

  lemma ContinueCost(cfg: Config, t: nat, s: Bus, m: Message, i: nat)
    requires Guarded(cfg) && Inv(cfg, s) && Enabled(cfg, s, Continue(m, i))
    ensures var s' := Next(cfg, s, Continue(m, i));
      Inv(cfg, s') && StepWithinCost(cfg, t, s, s')
  {
    var parent := s.dispatched[i];
    var used := s.(callsLeft := s.callsLeft[i := s.callsLeft[i] - 1]);
    CallsCostUse(cfg, t, s.dispatched, s.callsLeft, i);
    AdmitCost(cfg, t, used, m, parent.traceId, SaturatingSucc(parent.hop));
    assert Cost(cfg, SaturatingSucc(parent.hop)) == ChildCost(cfg, parent.hop);
  }

  lemma SendCost(cfg: Config, t: nat, s: Bus, i: nat)
    requires Inv(cfg, s) && Enabled(cfg, s, Send(i))
    ensures var s' := Next(cfg, s, Send(i));
      Inv(cfg, s') && StepWithinCost(cfg, t, s, s')
  {
    CommandsCostRemove(cfg, t, s.pending, i);
    assert (s.queue + [s.pending[i]])[..|s.queue|] == s.queue;
  }

  lemma ShutdownCost(cfg: Config, t: nat, s: Bus)
    requires Inv(cfg, s)
    ensures var s' := Next(cfg, s, Shutdown);
      Inv(cfg, s') && StepWithinCost(cfg, t, s, s')
  {
    var s' := Next(cfg, s, Shutdown);
    assert s.active ==> s'.pending[..|s.pending|] == s.pending;
  }

  lemma StepCost(cfg: Config, t: nat, s: Bus, a: Action)
    requires Guarded(cfg) && Inv(cfg, s) && Enabled(cfg, s, a)
    ensures Inv(cfg, Next(cfg, s, a)) && StepWithinCost(cfg, t, s, Next(cfg, s, a))
  {
    match a
    case NewTrace(m) => AdmitSeedCost(cfg, t, s.(nextId := s.nextId + 1), m, s.nextId, 0);
    case OldTrace(m, traceId, hop) => AdmitSeedCost(cfg, t, s, m, traceId, hop);
    case Continue(m, i) => ContinueCost(cfg, t, s, m, i);
    case Send(i) => SendCost(cfg, t, s, i);
    case Deliver => DispatchCost(cfg, t, s);
    case Shutdown => ShutdownCost(cfg, t, s);
    case TakeId =>
  }

  /**
   Termination measure: outside a seed, no step raises the outstanding work of a trace, and each
   dispatch in the trace lowers it.
   */
  lemma OutstandingFalls(cfg: Config, t: nat, s: Bus, a: Action)
    requires Guarded(cfg) && Inv(cfg, s) && Enabled(cfg, s, a) && !a.NewTrace? && !a.OldTrace?
    ensures var s' := Next(cfg, s, a);
      && |s'.callsLeft| == |s'.dispatched|
      && Outstanding(cfg, t, s') <= Outstanding(cfg, t, s)
      && (a.Deliver? && s.queue[0].Publish? && s.queue[0].envelope.traceId == t
          ==> Outstanding(cfg, t, s') < Outstanding(cfg, t, s))
  {
    StepCost(cfg, t, s, a);
    var s' := Next(cfg, s, a);
    if a.Deliver? && s.queue[0].Publish? {
      assert s.queue[0] in s.queue;
      assert s'.dispatched[..|s.dispatched|] == s.dispatched;
    }
  }

  lemma {:induction false} RunCost(cfg: Config, run: seq<Action>, s: Bus, t: nat)
    requires Guarded(cfg) && Leads(cfg, run, s)
    ensures Inv(cfg, s)
    ensures InTrace(t, s.dispatched) + Outstanding(cfg, t, s) <= SeedsCost(cfg, t, s.seeds)
    decreases |run|
  {
    if run != [] {
      var before, a := run[..|run| - 1], run[|run| - 1];
      var p := After(cfg, before).value;
      RunCost(cfg, before, p, t);
      StepCost(cfg, t, p, a);
    }
  }

  /** Exactly one publish started trace `t`; other traces may have been started any number of times. */
  ghost predicate SeededOnce(s: Bus, t: nat, i: nat) {
    && i < |s.seeds| && s.seeds[i].traceId == t && s.seeds[i].hop == 0
    && forall j | 0 <= j < |s.seeds| && j != i :: s.seeds[j].traceId != t
  }

  lemma {:induction false} SeedsCostOther(cfg: Config, t: nat, es: seq<Envelope>)
    requires forall j | 0 <= j < |es| :: es[j].traceId != t
    ensures SeedsCost(cfg, t, es) == 0
    decreases |es|
  {
    if es != [] { SeedsCostOther(cfg, t, es[..|es| - 1]); }
  }

  lemma {:induction false} SeedsCostOnce(cfg: Config, t: nat, es: seq<Envelope>, i: nat)
    requires i < |es| && es[i].traceId == t && es[i].hop == 0
    requires forall j | 0 <= j < |es| && j != i :: es[j].traceId != t
    ensures SeedsCost(cfg, t, es) == Growth(cfg.fanout, cfg.maxHops)
    decreases |es|
  {
    var n := |es| - 1;
    if i == n {
      SeedsCostOther(cfg, t, es[..n]);
    } else {
      SeedsCostOnce(cfg, t, es[..n], i);
    }
  }

  /** The bound on a cascade started by one publish, for every interleaving with any other publishes and cascades. */
  lemma CascadeBound(cfg: Config, run: seq<Action>, s: Bus, t: nat, i: nat)
    requires Guarded(cfg) && Leads(cfg, run, s) && SeededOnce(s, t, i)
    ensures InTrace(t, s.dispatched) <= Growth(cfg.fanout, cfg.maxHops)
  {
    RunCost(cfg, run, s, t);
    SeedsCostOnce(cfg, t, s.seeds, i);
  }

  /** Nobody publishes under a trace id of their own choosing. */
  ghost predicate FreshTraces(run: seq<Action>) {
    forall k | 0 <= k < |run| :: !run[k].OldTrace?
  }

  lemma {:induction false} PublishesHaveOwnTraces(cfg: Config, run: seq<Action>, s: Bus)
    requires Leads(cfg, run, s) && FreshTraces(run)
    ensures forall i | 0 <= i < |s.seeds| :: s.seeds[i].hop == 0 && s.seeds[i].traceId < s.nextId
    ensures forall i, j | 0 <= i < j < |s.seeds| :: s.seeds[i].traceId != s.seeds[j].traceId
    decreases |run|
  {
    if run != [] {
      var before, a := run[..|run| - 1], run[|run| - 1];
      var p := After(cfg, before).value;
      PublishesHaveOwnTraces(cfg, before, p);
      assert p.nextId <= s.nextId && (s.seeds == p.seeds || s.seeds == p.seeds + [s.seeds[|p.seeds|]]);
    }
  }

  /** So as long as handlers only publish afresh or continue, every publish of a run keeps the bound. */
  lemma EveryCascadeBound(cfg: Config, run: seq<Action>, s: Bus, i: nat)
    requires Guarded(cfg) && Leads(cfg, run, s) && FreshTraces(run) && i < |s.seeds|
    ensures InTrace(s.seeds[i].traceId, s.dispatched) <= Growth(cfg.fanout, cfg.maxHops)
  {
    PublishesHaveOwnTraces(cfg, run, s);
    CascadeBound(cfg, run, s, s.seeds[i].traceId, i);
  }

  // ---- At a limit of 255 the saturated hop count never trips the check -------------------

  lemma Perform(cfg: Config, run: seq<Action>, s: Bus, a: Action) returns (run': seq<Action>, s': Bus)
    requires Leads(cfg, run, s) && Enabled(cfg, s, a)
    ensures run' == run + [a] && s' == Next(cfg, s, a) && Leads(cfg, run', s')
  {
    run', s' := run + [a], Next(cfg, s, a);
    LeadsAppend(cfg, run, s, a);
  }

  /** The one pending envelope is sent and dispatched. */
  lemma SendAndDeliver(cfg: Config, run: seq<Action>, s: Bus, e: Envelope) returns (run': seq<Action>, s': Bus)
    requires cfg.Valid() && Leads(cfg, run, s) && !s.exited
    requires s.queue == [] && s.pending == [Publish(e)] && e.hop <= cfg.maxHops
    ensures Leads(cfg, run', s') && s'.queue == [] && s'.pending == []
    ensures s'.seeds == s.seeds && s'.active == s.active && !s'.exited
    ensures s'.dispatched == s.dispatched + [e] && s'.callsLeft == s.callsLeft + [cfg.fanout]
  {
    run', s' := Perform(cfg, run, s, Send(0));
    run', s' := Perform(cfg, run', s', Deliver);
  }

  /** A run of one publish and `n` dispatches of its trace, built by continuing the newest envelope each time. */
  lemma {:induction false} EndlessChain(cfg: Config, n: nat) returns (run: seq<Action>, s: Bus)
    requires cfg.Valid() && !Guarded(cfg) && n >= 1
    ensures Leads(cfg, run, s) && SeededOnce(s, 1, 0) && InTrace(1, s.dispatched) == n
    ensures s.active && !s.exited && s.queue == [] && s.pending == []
    ensures |s.dispatched| == |s.callsLeft| == n && s.callsLeft[n - 1] == cfg.fanout && s.dispatched[n - 1].traceId == 1
  {
    var m := Message(IntentParsed, "seed", 0);
    if n == 1 {
      run, s := [], INITIAL;
      run, s := Perform(cfg, run, s, NewTrace(m));
      assert s.seeds == [Stamp(INITIAL.(nextId := 2), m, 1, 0)];
    } else {
      run, s := EndlessChain(cfg, n - 1);
      run, s := Perform(cfg, run, s, Continue(m, n - 2));
    }
    var dispatched, e := s.dispatched, s.pending[0].envelope;
    run, s := SendAndDeliver(cfg, run, s, e);
    assert (dispatched + [e])[..n - 1] == dispatched;
  }

  // ---- The bound is reached -------------------------------------------------------------

  /** Nothing in flight, and the bus still takes publishes. */
  ghost predicate Idle(s: Bus) {
    s.active && !s.exited && s.queue == [] && s.pending == [] && |s.dispatched| == |s.callsLeft|
  }

  /** The `i`-th dispatched envelope may still be continued to a hop that is let through. */
  ghost predicate Fertile(cfg: Config, t: nat, s: Bus, i: nat) {
    && i < |s.dispatched| == |s.callsLeft| && s.dispatched[i].traceId == t
    && s.callsLeft[i] > 0 && s.dispatched[i].hop < cfg.maxHops
  }

  lemma {:induction false} SpentCallsCost(cfg: Config, t: nat, es: seq<Envelope>, left: seq<nat>)
    requires |es| == |left|
    requires forall i | 0 <= i < |es| :: es[i].traceId != t || left[i] == 0 || es[i].hop >= cfg.maxHops
    ensures CallsCost(cfg, t, es, left) == 0
    decreases |es|
  {
    if es != [] {
      var n := |es| - 1;
      SpentCallsCost(cfg, t, es[..n], left[..n]);
      assert es[n].traceId != t || left[n] * ChildCost(cfg, es[n].hop) == 0;
    }
  }

  lemma ContinueAccount(cfg: Config, t: nat, es: seq<Envelope>, left: seq<nat>, i: nat, e: Envelope)
    requires |es| == |left| && i < |es| && left[i] > 0 && es[i].traceId == t && es[i].hop < cfg.maxHops
    requires e.traceId == t && e.hop == es[i].hop + 1
    ensures InTrace(t, es + [e]) == InTrace(t, es) + 1
    ensures InTrace(t, es + [e]) + CallsCost(cfg, t, es + [e], left[i := left[i] - 1] + [cfg.fanout])
         == InTrace(t, es) + CallsCost(cfg, t, es, left)
  {
    CallsCostUse(cfg, t, es, left, i);
    RecordCost(cfg, t, es, left[i := left[i] - 1], e);
    assert (es + [e])[..|es|] == es;
  }

  /** One more continuation, sent and dispatched at once, turns one unit of allowed work into a dispatch. */
  lemma ContinueOnce(cfg: Config, run: seq<Action>, s: Bus, t: nat, i: nat) returns (run': seq<Action>, s': Bus)
    requires cfg.Valid() && Leads(cfg, run, s) && Idle(s) && Fertile(cfg, t, s, i)
    ensures Leads(cfg, run', s') && Idle(s') && s'.seeds == s.seeds
    ensures InTrace(t, s'.dispatched) == InTrace(t, s.dispatched) + 1
    ensures InTrace(t, s'.dispatched) + CallsCost(cfg, t, s'.dispatched, s'.callsLeft)
         == InTrace(t, s.dispatched) + CallsCost(cfg, t, s.dispatched, s.callsLeft)
  {
    var m := Message(IntentParsed, "handler", 0);
    run', s' := Perform(cfg, run, s, Continue(m, i));
    var e := s'.pending[0].envelope;
    assert e.traceId == t && e.hop == s.dispatched[i].hop + 1;
    run', s' := SendAndDeliver(cfg, run', s', e);
    ContinueAccount(cfg, t, s.dispatched, s.callsLeft, i, e);
  }

  lemma {:induction false} Exhaust(cfg: Config, run: seq<Action>, s: Bus, t: nat) returns (run': seq<Action>, s': Bus)
    requires cfg.Valid() && Leads(cfg, run, s) && Idle(s)
    ensures Leads(cfg, run', s') && s'.seeds == s.seeds
    ensures InTrace(t, s'.dispatched) == InTrace(t, s.dispatched) + CallsCost(cfg, t, s.dispatched, s.callsLeft)
    decreases CallsCost(cfg, t, s.dispatched, s.callsLeft)
  {
    if i: nat :| Fertile(cfg, t, s, i) {
      run', s' := ContinueOnce(cfg, run, s, t, i);
      run', s' := Exhaust(cfg, run', s', t);
    } else {
      forall i | 0 <= i < |s.dispatched|
        ensures s.dispatched[i].traceId != t || s.callsLeft[i] == 0 || s.dispatched[i].hop >= cfg.maxHops
      {
        assert !Fertile(cfg, t, s, i);
      }
      SpentCallsCost(cfg, t, s.dispatched, s.callsLeft);
      run', s' := run, s;
    }
  }

  /** One publish whose handlers make all their calls causes exactly G(max_hops) dispatches. */
  lemma BoundIsReached(cfg: Config) returns (run: seq<Action>, s: Bus)
    requires cfg.Valid()
    ensures Leads(cfg, run, s) && SeededOnce(s, 1, 0)
    ensures InTrace(1, s.dispatched) == Growth(cfg.fanout, cfg.maxHops)
  {
    var m := Message(IntentParsed, "seed", 0);
    run, s := Perform(cfg, [], INITIAL, NewTrace(m));
    var e := s.pending[0].envelope;
    assert s.seeds == [e] && e.traceId == 1 && e.hop == 0;
    run, s := SendAndDeliver(cfg, run, s, e);
    RecordCost(cfg, 1, [], [], e);
    assert s.dispatched == [] + [e] && s.callsLeft == [] + [cfg.fanout];
    run, s := Exhaust(cfg, run, s, 1);
  }

  // ---- When cascades are bounded --------------------------------------------------------

  ghost predicate BoundedBy(cfg: Config, bound: nat) {
    forall run, s, t, i :: Leads(cfg, run, s) && SeededOnce(s, t, i) ==> InTrace(t, s.dispatched) <= bound
  }

  /** Recursion protection works exactly when the limit is below the saturation value (or no handler continues). */
  lemma CascadesBoundedExactly(cfg: Config)
    requires cfg.Valid()
    ensures (exists bound: nat :: BoundedBy(cfg, bound)) <==> Guarded(cfg)
    ensures Guarded(cfg) ==> forall bound: nat :: BoundedBy(cfg, bound) <==> bound >= Growth(cfg.fanout, cfg.maxHops)
  {
    if Guarded(cfg) {
      var reached, full := BoundIsReached(cfg);
      forall run, s, t, i | Leads(cfg, run, s) && SeededOnce(s, t, i)
        ensures InTrace(t, s.dispatched) <= Growth(cfg.fanout, cfg.maxHops)
      {
        CascadeBound(cfg, run, s, t, i);
      }
      assert BoundedBy(cfg, Growth(cfg.fanout, cfg.maxHops));
    } else {
      forall bound: nat ensures !BoundedBy(cfg, bound) {
        var run, s := EndlessChain(cfg, bound + 1);
      }
    }
  }

  // ---- Delivery and shutdown ------------------------------------------------------------

  /** The envelopes sent before the first Stop, in send order. */
  ghost function BeforeStop(cs: seq<Command>): seq<Envelope> {
    if cs == [] || cs[0].Stop? then [] else [cs[0].envelope] + BeforeStop(cs[1..])
  }

  lemma {:induction false} BeforeStopAppend(cs: seq<Command>, more: seq<Command>)
    ensures BeforeStop(cs + more) == if Stop in cs then BeforeStop(cs) else BeforeStop(cs) + BeforeStop(more)
    decreases |cs|
  {
    if cs == [] {
      assert cs + more == more;
    } else {
      assert (cs + more)[1..] == cs[1..] + more && cs == [cs[0]] + cs[1..];
      BeforeStopAppend(cs[1..], more);
    }
  }

  ghost predicate DistinctIds(cs: seq<Command>) {
    forall i, j | 0 <= i < j < |cs| && cs[i].Publish? && cs[j].Publish? :: cs[i].envelope.id != cs[j].envelope.id
  }

  /** What the dispatcher has taken off the channel so far. */
  ghost function Taken(s: Bus): seq<Command>
    requires |s.queue| <= |s.sent|
  {
    s.sent[..|s.sent| - |s.queue|]
  }

  ghost predicate Ordered(cfg: Config, s: Bus) {
    && |s.queue| <= |s.sent| && s.sent == Taken(s) + s.queue
    && s.dispatched == BeforeStop(Taken(s))
    && (s.exited <==> Stop in Taken(s))
    && s.traces == LastN(s.dispatched, cfg.traceCapacity)
    && |s.queue| <= cfg.capacity
  }

  ghost predicate FreshIds(s: Bus) {
    && DistinctIds(s.sent) && DistinctIds(s.pending)
    && (forall c | c in s.sent || c in s.pending :: c.Publish? ==> c.envelope.id < s.nextId)
    && (forall c, d | c in s.sent && d in s.pending && c.Publish? && d.Publish? :: c.envelope.id != d.envelope.id)
  }

  lemma StepKeepsHops(cfg: Config, s: Bus, a: Action)
    requires Inv(cfg, s) && Enabled(cfg, s, a)
    ensures Inv(cfg, Next(cfg, s, a))
  {
    if a.Deliver? { assert s.queue[0] in s.queue; }
  }

  lemma TakeNext(sent: seq<Command>, queue: seq<Command>)
    requires 0 < |queue| <= |sent| && sent == sent[..|sent| - |queue|] + queue
    ensures sent[..|sent| - |queue[1..]|] == sent[..|sent| - |queue|] + [queue[0]]
    ensures sent == sent[..|sent| - |queue[1..]|] + queue[1..]
  {
  }

  lemma BeforeStopNext(cs: seq<Command>, c: Command)
    requires Stop !in cs
    ensures BeforeStop(cs + [c]) == if c.Publish? then BeforeStop(cs) + [c.envelope] else BeforeStop(cs)
  {
    BeforeStopAppend(cs, [c]);
    assert [c][1..] == [];
  }

  lemma DeliverKeepsOrder(cfg: Config, s: Bus)
    requires cfg.Valid() && Inv(cfg, s) && Ordered(cfg, s) && Enabled(cfg, s, Deliver)
    ensures Ordered(cfg, Next(cfg, s, Deliver))
  {
    var s', c := Next(cfg, s, Deliver), s.queue[0];
    assert c in s.queue;
    TakeNext(s.sent, s.queue);
    BeforeStopNext(Taken(s), c);
    assert Taken(s') == Taken(s) + [c];
    if c.Publish? {
      LastNAppend(s.dispatched, c.envelope, cfg.traceCapacity);
      assert Stop !in Taken(s');
    } else {
      assert (Taken(s) + [c])[|Taken(s)|] == Stop;
    }
  }

  lemma SendKeepsOrder(cfg: Config, s: Bus, i: nat)
    requires Ordered(cfg, s) && Enabled(cfg, s, Send(i))
    ensures Ordered(cfg, Next(cfg, s, Send(i)))
  {
    var s' := Next(cfg, s, Send(i));
    assert Taken(s') == Taken(s);
  }

  lemma StepKeepsOrder(cfg: Config, s: Bus, a: Action)
    requires cfg.Valid() && Inv(cfg, s) && Ordered(cfg, s) && Enabled(cfg, s, a)
    ensures Ordered(cfg, Next(cfg, s, a))
  {
    if a.Deliver? {
      DeliverKeepsOrder(cfg, s);
    } else if a.Send? {
      SendKeepsOrder(cfg, s, a.thread);
    } else {
      var s' := Next(cfg, s, a);
      assert s' == s.(pending := s'.pending, nextId := s'.nextId, active := s'.active,
                      callsLeft := s'.callsLeft, seeds := s'.seeds);
    }
  }

  lemma SendKeepsFreshIds(cfg: Config, s: Bus, i: nat)
    requires FreshIds(s) && Enabled(cfg, s, Send(i))
    ensures FreshIds(Next(cfg, s, Send(i)))
  {
    var s', c := Next(cfg, s, Send(i)), s.pending[i];
    assert c in s.pending;
    assert forall d | d in s'.pending :: d in s.pending;
    forall d | d in s'.pending && c.Publish? && d.Publish? ensures d.envelope.id != c.envelope.id {
      var j :| 0 <= j < |s.pending| && j != i && s.pending[j] == d;
    }
  }

  lemma StepKeepsFreshIds(cfg: Config, s: Bus, a: Action)
    requires FreshIds(s) && Enabled(cfg, s, a)
    ensures FreshIds(Next(cfg, s, a))
  {
    if a.Send? {
      SendKeepsFreshIds(cfg, s, a.thread);
    } else {
      var s' := Next(cfg, s, a);
      assert s'.sent == s.sent && s.nextId <= s'.nextId;
      assert s'.pending == s.pending || exists c ::
               s'.pending == s.pending + [c] && (c.Publish? ==> s.nextId <= c.envelope.id < s'.nextId);
    }
  }

  lemma {:induction false} RunOrdered(cfg: Config, run: seq<Action>, s: Bus)
    requires cfg.Valid() && Leads(cfg, run, s)
    ensures Inv(cfg, s) && Ordered(cfg, s) && FreshIds(s)
    decreases |run|
  {
    if run != [] {
      var before, a := run[..|run| - 1], run[|run| - 1];
      var p := After(cfg, before).value;
      RunOrdered(cfg, before, p);
      StepKeepsHops(cfg, p, a);
      StepKeepsOrder(cfg, p, a);
      StepKeepsFreshIds(cfg, p, a);
    }
  }

  lemma {:induction false} BeforeStopIndex(cs: seq<Command>)
    ensures |BeforeStop(cs)| <= |cs|
    ensures forall i | 0 <= i < |BeforeStop(cs)| :: cs[i] == Publish(BeforeStop(cs)[i])
    decreases |cs|
  {
    if cs != [] && cs[0].Publish? {
      BeforeStopIndex(cs[1..]);
      forall i | 0 <= i < |BeforeStop(cs)| ensures cs[i] == Publish(BeforeStop(cs)[i]) {
        if i > 0 { assert cs[i] == cs[1..][i - 1]; }
      }
    }
  }

  /**
   For every interleaving: dispatches follow send order, each envelope at most once; when the dispatcher
   exits, it has handled everything sent before the Stop and nothing after it.
   */
  lemma FifoDelivery(cfg: Config, run: seq<Action>, s: Bus)
    requires cfg.Valid() && Leads(cfg, run, s)
    ensures s.dispatched <= BeforeStop(s.sent)
    ensures s.exited ==> s.dispatched == BeforeStop(s.sent)
    ensures forall i, j | 0 <= i < j < |s.dispatched| :: s.dispatched[i].id != s.dispatched[j].id
    ensures s.traces == LastN(s.dispatched, cfg.traceCapacity)
  {
    RunOrdered(cfg, run, s);
    BeforeStopAppend(Taken(s), s.queue);
    BeforeStopIndex(s.sent);
  }

  // ---- Subscriptions --------------------------------------------------------------------

  type Subscribers = map<Event, seq<nat>>

  /** Subscription ids are handed out once, so they differ within a list and across lists. */
  ghost predicate UniqueIds(subs: Subscribers, nextId: nat) {
    && (forall e | e in subs :: NoDuplicates(subs[e]))
    && (forall e, x | e in subs && x in subs[e] :: x < nextId)
    && (forall e, f, x | e in subs && f in subs && e != f && x in subs[e] :: x !in subs[f])
  }

  function Without(ids: seq<nat>, id: nat): seq<nat> {
    if ids == [] then [] else if ids[0] == id then Without(ids[1..], id) else [ids[0]] + Without(ids[1..], id)
  }

  /** Every list without `id`, wherever it was. */
  function WithoutId(subs: Subscribers, id: nat): Subscribers {
    map e | e in subs :: Without(subs[e], id)
  }

  lemma {:induction false} WithoutAbsent(ids: seq<nat>, id: nat)
    requires id !in ids
    ensures Without(ids, id) == ids
  {
    if ids != [] {
      WithoutAbsent(ids[1..], id);
    }
  }

  lemma {:induction false} WithoutAt(ids: seq<nat>, i: nat)
    requires NoDuplicates(ids) && i < |ids|
    ensures Without(ids, ids[i]) == ids[..i] + ids[i + 1..]
    decreases i
  {
    if i == 0 {
      WithoutAbsent(ids[1..], ids[0]);
    } else {
      WithoutAt(ids[1..], i - 1);
      assert ids[1..][..i - 1] == ids[1..i] && ids[1..][i..] == ids[i + 1..];
      assert [ids[0]] + ids[1..i] == ids[..i];
    }
  }

  lemma SubscribeKeepsUnique(subs: Subscribers, event: Event, entries: seq<nat>, id: nat)
    requires UniqueIds(subs, id) && entries == if event in subs then subs[event] else []
    ensures UniqueIds(subs[event := entries + [id]], id + 1)
  {
    var subs' := subs[event := entries + [id]];
    assert NoDuplicates(entries);
    assert forall x | x in entries :: x < id;
    forall a, b | 0 <= a < b < |subs'[event]| ensures subs'[event][a] != subs'[event][b] {
      assert subs'[event][a] == entries[a] && entries[a] in entries;
    }
    assert forall e | e in subs' && e != event :: NoDuplicates(subs[e]);
  }

  lemma UniqueIdsLater(subs: Subscribers, nextId: nat, later: nat)
    requires UniqueIds(subs, nextId) && nextId <= later
    ensures UniqueIds(subs, later)
  {
  }

  lemma UnsubscribeKeepsUnique(subs: Subscribers, nextId: nat, event: Event, i: nat)
    requires UniqueIds(subs, nextId) && event in subs && i < |subs[event]|
    ensures UniqueIds(subs[event := subs[event][..i] + subs[event][i + 1..]], nextId)
  {
    var entries := subs[event];
    var subs' := subs[event := entries[..i] + entries[i + 1..]];
    assert NoDuplicates(entries);
    assert forall x | x in subs'[event] :: x in entries;
    forall a, b | 0 <= a < b < |subs'[event]| ensures subs'[event][a] != subs'[event][b] {
      assert subs'[event][a] == entries[if a < i then a else a + 1];
      assert subs'[event][b] == entries[if b < i then b else b + 1];
    }
    assert forall e | e in subs' && e != event :: NoDuplicates(subs[e]);
  }

  /** Whatever order the map is scanned in, exactly the one entry with this id goes, wherever it is. */
  method RemoveSubscription(subs: Subscribers, id: nat, ghost nextId: nat) returns (subs': Subscribers, removed: bool)
    requires UniqueIds(subs, nextId)
    ensures removed <==> exists e | e in subs :: id in subs[e]
    ensures subs' == WithoutId(subs, id) && UniqueIds(subs', nextId)
  {
    var events := subs.Keys;
    while events != {}
      invariant events <= subs.Keys
      invariant forall e | e in subs && e !in events :: id !in subs[e]
    {
      var event :| event in events;
      events := events - {event};
      var entries := subs[event];
      var i := 0;
      while i < |entries| && entries[i] != id
        invariant i <= |entries| && id !in entries[..i]
      {
        i := i + 1;
      }
      if i < |entries| {
        assert NoDuplicates(entries);
        WithoutAt(entries, i);
        UnsubscribeKeepsUnique(subs, nextId, event, i);
        forall e | e in subs && e != event ensures Without(subs[e], id) == subs[e] {
          WithoutAbsent(subs[e], id);
        }
        return subs[event := entries[..i] + entries[i + 1..]], true;
      }
      assert entries[..i] == entries;
    }
    forall e | e in subs ensures Without(subs[e], id) == subs[e] {
      WithoutAbsent(subs[e], id);
    }
    return subs, false;
  }

  /** A send returns at once: the channel has room or is disconnected. */
  ghost predicate HasRoom(cfg: Config, s: Bus) { s.exited || |s.queue| < cfg.capacity }

  /** A publishing or shutdown step, followed at once by its own send if that does not block. */
  ghost function Completed(cfg: Config, s: Bus, a: Action): (r: Bus)
    requires Enabled(cfg, s, a) && !a.Send? && !a.Deliver?
  {
    var s1 := Next(cfg, s, a);
    if |s1.pending| > |s.pending| && HasRoom(cfg, s1) then Next(cfg, s1, Send(|s.pending|)) else s1
  }

  /** What a publisher sees: sent, blocked in the full channel, or an error. */
  datatype SendResult = Sent | Blocked | Failed(error: BusError)

  function SendVerdict(room: bool, exited: bool): SendResult {
    if exited then Failed(ChannelDisconnected) else if room then Sent else Blocked
  }

  function PublishVerdict(active: bool, overLimit: bool, room: bool, exited: bool): SendResult {
    if !active then Failed(AlreadyShutdown)
    else if overLimit then Failed(RecursionLimitExceeded)
    else SendVerdict(room, exited)
  }

  /** Every outcome of a publish but the blocked one, by its own condition. */
  lemma PublishVerdictExactly(active: bool, overLimit: bool, room: bool, exited: bool)
    ensures var r := PublishVerdict(active, overLimit, room, exited);
      && (r == Failed(AlreadyShutdown) <==> !active)
      && (r == Failed(RecursionLimitExceeded) <==> active && overLimit)
      && (r == Failed(ChannelDisconnected) <==> active && !overLimit && exited)
      && (r.Sent? <==> active && !overLimit && !exited && room)
  {
  }

  function Queued(queue: seq<Command>, c: Command, r: SendResult): seq<Command> {
    if r.Sent? then queue + [c] else queue
  }

  function Waiting(pending: seq<Command>, c: Command, r: SendResult): seq<Command> {
    if r.Blocked? then pending + [c] else pending
  }

  /** The parts of the bus that the object holds in its own fields. */
  datatype Fields = Fields(
    queue: seq<Command>, pending: seq<Command>, traces: seq<Envelope>, nextId: nat, active: bool, exited: bool)

  ghost function FieldsOf(s: Bus): Fields { Fields(s.queue, s.pending, s.traces, s.nextId, s.active, s.exited) }

  /** The step `a` publishes `m` with this trace id and hop, after taking `first` other ids. */
  ghost predicate Publishes(s: Bus, a: Action, m: Message, traceId: nat, hop: u8, first: nat) {
    match a
    case NewTrace(m') => m' == m && traceId == s.nextId && hop == 0 && first == 1
    case OldTrace(m', t, h) => m' == m && traceId == t && hop == h && first == 0
    case Continue(m', i) =>
      i < |s.dispatched| && m' == m && traceId == s.dispatched[i].traceId
      && hop == SaturatingSucc(s.dispatched[i].hop) && first == 0
    case _ => false
  }

  /** `first` ids are taken before the checks; then an envelope is stamped and sent or blocked, or nothing happens. */
  lemma CompletedFields(cfg: Config, s: Bus, a: Action, m: Message, traceId: nat, hop: u8, first: nat)
    requires Enabled(cfg, s, a) && Publishes(s, a, m, traceId, hop, first)
    ensures var r := PublishVerdict(s.active, hop > cfg.maxHops, |s.queue| < cfg.capacity, s.exited);
      var c := Publish(Envelope(s.nextId + first, traceId, hop, m.source, m.timestamp, m.event));
      FieldsOf(Completed(cfg, s, a)) ==
        Fields(Queued(s.queue, c, r), Waiting(s.pending, c, r), s.traces,
               s.nextId + first + (if s.active && hop <= cfg.maxHops then 1 else 0), s.active, s.exited)
  {
    var s1 := Next(cfg, s, a);
    assert s1.queue == s.queue && s1.exited == s.exited;
    if |s1.pending| > |s.pending| {
      assert s1.pending[..|s.pending|] + s1.pending[|s.pending| + 1..] == s.pending;
    }
  }

  lemma ShutdownFields(cfg: Config, s: Bus)
    ensures var r := SendVerdict(|s.queue| < cfg.capacity, s.exited);
      FieldsOf(Completed(cfg, s, Shutdown)) ==
        if !s.active then FieldsOf(s)
        else Fields(Queued(s.queue, Stop, r), Waiting(s.pending, Stop, r), s.traces, s.nextId, false, s.exited)
  {
    var s1 := Next(cfg, s, Shutdown);
    if s.active {
      assert s1.pending[..|s.pending|] + s1.pending[|s.pending| + 1..] == s.pending;
    }
  }

  lemma HeadWithinLimit(cfg: Config, run: seq<Action>, s: Bus)
    requires cfg.Valid() && Leads(cfg, run, s) && s.queue != []
    ensures s.queue[0].Publish? ==> s.queue[0].envelope.hop <= cfg.maxHops
  {
    RunOrdered(cfg, run, s);
    assert s.queue[0] in s.queue;
  }

  /** The states that a run passes through, the first and the last included. */
  ghost predicate Passes(cfg: Config, states: seq<Bus>, run: seq<Action>) {
    && |states| == |run| + 1 && states[0] == INITIAL
    && forall k | 0 <= k < |run| :: Enabled(cfg, states[k], run[k]) && states[k + 1] == Next(cfg, states[k], run[k])
  }

  lemma PassesAppend(cfg: Config, states: seq<Bus>, run: seq<Action>, a: Action)
    requires Passes(cfg, states, run) && Enabled(cfg, states[|run|], a)
    ensures Passes(cfg, states + [Next(cfg, states[|run|], a)], run + [a])
  {
  }

  lemma {:induction false} PassesLeads(cfg: Config, states: seq<Bus>, run: seq<Action>, k: nat)
    requires Passes(cfg, states, run) && k <= |run|
    ensures Leads(cfg, run[..k], states[k])
    decreases k
  {
    if k > 0 {
      PassesLeads(cfg, states, run, k - 1);
      LeadsAppend(cfg, run[..k - 1], states[k - 1], run[k - 1]);
      assert run[..k] == run[..k - 1] + [run[k - 1]];
    }
  }

  // ---- The bus object -------------------------------------------------------------------

  /**
   The bus between the calls of its callers. A publisher whose send finds the channel full is left blocked in
   `pending`; `Unblock` completes it once there is room. `run` records the steps performed; `model` is the state they
   lead to.
   */
  class EventBus {
    ghost const cfg: Config
    const capacity: nat
    const maxHops: u8
    const traceCapacity: nat
    var queue: seq<Command>
    var pending: seq<Command>
    var traces: seq<Envelope>
    var nextId: nat
    var active: bool
    var exited: bool
    var subscribers: Subscribers
    ghost var model: Bus
    ghost var run: seq<Action>
    ghost var states: seq<Bus>  // the states passed through, the model last

    /** The model is where the steps performed lead. */
    ghost predicate Reached()
      reads this
    {
      Passes(cfg, states, run) && model == states[|run|]
    }

    /** The fields are those of the model, except for `taken` ids not yet accounted for. */
    ghost predicate Follows(taken: nat)
      reads this
    {
      && cfg.Valid() && cfg.capacity == capacity && cfg.maxHops == maxHops && cfg.traceCapacity == traceCapacity
      && Reached() && taken <= nextId
      && FieldsOf(model) == Fields(queue, pending, traces, nextId - taken, active, exited)
    }

    ghost predicate Valid()
      reads this
    {
      Follows(0) && UniqueIds(subscribers, nextId)
    }

    constructor (queueCapacity: nat, hops: u8, traceCap: nat, ghost fanout: nat)
      ensures Valid() && model == INITIAL && subscribers == map[]
      ensures capacity == Max(queueCapacity, 1) && maxHops == Max(hops, 1) && traceCapacity == Max(traceCap, 1)
    {
      capacity, maxHops, traceCapacity := Max(queueCapacity, 1), Max(hops, 1), Max(traceCap, 1);
      cfg := Config(Max(queueCapacity, 1), Max(hops, 1), Max(traceCap, 1), fanout);
      queue, pending, traces, nextId, active, exited := [], [], [], 1, true, false;
      subscribers := map[];
      model, run, states := INITIAL, [], [INITIAL];
    }

    ghost method Perform(a: Action)
      requires Reached() && Enabled(cfg, model, a)
      modifies this`model, this`run, this`states
      ensures Reached() && model == Next(cfg, old(model), a)
    {
      PassesAppend(cfg, states, run, a);
      model := Next(cfg, model, a);
      run, states := run + [a], states + [model];
    }

    ghost method Complete(a: Action)
      requires Reached() && Enabled(cfg, model, a) && !a.Send? && !a.Deliver?
      modifies this`model, this`run, this`states
      ensures Reached() && model == Completed(cfg, old(model), a)
    {
      var waiting := |model.pending|;
      Perform(a);
      if |model.pending| > waiting && HasRoom(cfg, model) {
        Perform(Send(waiting));
      }
    }

    ghost method CompletePublish(a: Action, m: Message, traceId: nat, hop: u8, first: nat)
      requires Reached() && Enabled(cfg, model, a) && Publishes(model, a, m, traceId, hop, first)
      modifies this`model, this`run, this`states
      ensures Reached() && model == Completed(cfg, old(model), a)
      ensures var s := old(model);
        var r := PublishVerdict(s.active, hop > cfg.maxHops, |s.queue| < cfg.capacity, s.exited);
        var c := Publish(Envelope(s.nextId + first, traceId, hop, m.source, m.timestamp, m.event));
        FieldsOf(model) ==
          Fields(Queued(s.queue, c, r), Waiting(s.pending, c, r), s.traces,
                 s.nextId + first + (if s.active && hop <= cfg.maxHops then 1 else 0), s.active, s.exited)
    {
      CompletedFields(cfg, model, a, m, traceId, hop, first);
      Complete(a);
    }

    method Subscribe(event: Event) returns (r: Result<nat, BusError>)
      requires Valid()
      modifies this
      ensures Valid()
      ensures r == if old(active) then Ok(old(nextId)) else Err(AlreadyShutdown)
      ensures var before := if event in old(subscribers) then old(subscribers)[event] else [];
        subscribers == if r.Ok? then old(subscribers)[event := before + [r.value]] else old(subscribers)
      ensures model == if r.Ok? then Next(cfg, old(model), TakeId) else old(model)
    {
      if !active {
        return Err(AlreadyShutdown);
      }
      var id := nextId;
      nextId := nextId + 1;
      Perform(TakeId);
      var entries := if event in subscribers then subscribers[event] else [];
      SubscribeKeepsUnique(subscribers, event, entries, id);
      subscribers := subscribers[event := entries + [id]];
      return Ok(id);
    }

    method Unsubscribe(id: nat) returns (removed: bool)
      requires Valid()
      modifies this`subscribers
      ensures Valid()
      ensures removed <==> exists e | e in old(subscribers) :: id in old(subscribers)[e]
      ensures subscribers == WithoutId(old(subscribers), id)
    {
      var remaining;
      remaining, removed := RemoveSubscription(subscribers, id, nextId);
      subscribers := remaining;
    }

    /** The blocking channel send: a full channel leaves the sender waiting. */
    method Transmit(c: Command) returns (r: SendResult)
      modifies this`queue, this`pending
      ensures exited ==> r == Failed(ChannelDisconnected)
      ensures !exited ==> r == if |old(queue)| < capacity then Sent else Blocked
      ensures queue == Queued(old(queue), c, r) && pending == Waiting(old(pending), c, r)
    {
      if exited {
        return Failed(ChannelDisconnected);
      }
      if |queue| < capacity {
        queue := queue + [c];
        return Sent;
      }
      pending := pending + [c];
      return Blocked;
    }

    /** A blocked sender goes on: the channel got room, or was disconnected. */
    method Unblock(i: nat) returns (r: SendResult)
      requires Valid() && i < |pending| && (exited || |queue| < capacity)
      modifies this`queue, this`pending, this`model, this`run, this`states
      ensures Valid() && model == Next(cfg, old(model), Send(i))
      ensures r == if exited then Failed(ChannelDisconnected) else Sent
      ensures queue == Queued(old(queue), old(pending)[i], r)
      ensures pending == old(pending)[..i] + old(pending)[i + 1..]
    {
      Perform(Send(i));
      var c := pending[i];
      pending := pending[..i] + pending[i + 1..];
      if exited {
        return Failed(ChannelDisconnected);
      }
      queue := queue + [c];
      return Sent;
    }

    /** Checks, stamping and the send. */
    method Post(m: Message, traceId: nat, hop: u8) returns (r: SendResult)
      modifies this`queue, this`pending, this`nextId
      ensures r == PublishVerdict(active, hop > maxHops, |old(queue)| < capacity, exited)
      ensures nextId == old(nextId) + if active && hop <= maxHops then 1 else 0
      ensures var c := Publish(Envelope(old(nextId), traceId, hop, m.source, m.timestamp, m.event));
        queue == Queued(old(queue), c, r) && pending == Waiting(old(pending), c, r)
    {
      if !active {
        return Failed(AlreadyShutdown);
      }
      if hop > maxHops {
        return Failed(RecursionLimitExceeded);
      }
      var envelope := Envelope(nextId, traceId, hop, m.source, m.timestamp, m.event);
      nextId := nextId + 1;
      r := Transmit(Publish(envelope));
    }

    /** The same, with the step `a` that it performs. */
    method PostAs(m: Message, traceId: nat, hop: u8, ghost a: Action, ghost taken: nat) returns (r: SendResult)
      requires Follows(taken) && Enabled(cfg, model, a) && Publishes(model, a, m, traceId, hop, taken)
      modifies this`queue, this`pending, this`nextId, this`model, this`run, this`states
      ensures Follows(0) && old(nextId) <= nextId && model == Completed(cfg, old(model), a)
      ensures r == PublishVerdict(active, hop > maxHops, |old(queue)| < capacity, exited)
      ensures var c := Publish(Envelope(old(nextId), traceId, hop, m.source, m.timestamp, m.event));
        queue == Queued(old(queue), c, r) && pending == Waiting(old(pending), c, r)
    {
      CompletePublish(a, m, traceId, hop, taken);
      r := Post(m, traceId, hop);
    }

    method PublishWithTrace(m: Message, traceId: nat, hop: u8) returns (r: SendResult)
      requires Valid()
      modifies this`queue, this`pending, this`nextId, this`model, this`run, this`states
      ensures Valid() && model == Completed(cfg, old(model), OldTrace(m, traceId, hop))
      ensures !active ==> r == Failed(AlreadyShutdown)
      ensures active && hop > maxHops ==> r == Failed(RecursionLimitExceeded)
      ensures active && hop <= maxHops && exited ==> r == Failed(ChannelDisconnected)
      ensures r.Sent? <==> active && hop <= maxHops && !exited && |old(queue)| < capacity
      ensures var c := Publish(Envelope(old(nextId), traceId, hop, m.source, m.timestamp, m.event));
        queue == Queued(old(queue), c, r) && pending == Waiting(old(pending), c, r)
    {
      r := PostAs(m, traceId, hop, OldTrace(m, traceId, hop), 0);
      UniqueIdsLater(subscribers, old(nextId), nextId);
    }

    method PostFresh(m: Message) returns (traceId: nat, r: SendResult)
      requires Follows(0)
      modifies this`queue, this`pending, this`nextId, this`model, this`run, this`states
      ensures Follows(0) && traceId == old(nextId) <= nextId && model == Completed(cfg, old(model), NewTrace(m))
      ensures r == PublishVerdict(active, false, |old(queue)| < capacity, exited)
      ensures var c := Publish(Envelope(traceId + 1, traceId, 0, m.source, m.timestamp, m.event));
        queue == Queued(old(queue), c, r) && pending == Waiting(old(pending), c, r)
    {
      traceId := nextId;
      nextId := nextId + 1;
      r := PostAs(m, traceId, 0, NewTrace(m), 1);
    }

    /** `traceId` is what publish returns once its send is through. */
    method PublishEvent(m: Message) returns (traceId: nat, r: SendResult)
      requires Valid()
      modifies this`queue, this`pending, this`nextId, this`model, this`run, this`states
      ensures Valid() && traceId == old(nextId) && model == Completed(cfg, old(model), NewTrace(m))
      ensures !active ==> r == Failed(AlreadyShutdown)
      ensures active && exited ==> r == Failed(ChannelDisconnected)
      ensures r.Sent? <==> active && !exited && |old(queue)| < capacity
      ensures r.Blocked? <==> active && !exited && |old(queue)| >= capacity
      ensures var c := Publish(Envelope(traceId + 1, traceId, 0, m.source, m.timestamp, m.event));
        queue == Queued(old(queue), c, r) && pending == Waiting(old(pending), c, r)
    {
      traceId, r := PostFresh(m);
      UniqueIdsLater(subscribers, traceId, nextId);
    }

    /** Any envelope may be continued; `i` says which dispatch hands it out, if it was one with calls left. */
    method ContinueTrace(parent: Envelope, m: Message, ghost i: Option<nat>) returns (r: SendResult)
      requires Valid()
      requires i.Some? ==> Enabled(cfg, model, Continue(m, i.value)) && model.dispatched[i.value] == parent
      modifies this`queue, this`pending, this`nextId, this`model, this`run, this`states
      ensures Valid()
      ensures model == Completed(cfg, old(model), if i.Some? then Continue(m, i.value)
                                                  else OldTrace(m, parent.traceId, SaturatingSucc(parent.hop)))
      ensures !active ==> r == Failed(AlreadyShutdown)
      ensures active && SaturatingSucc(parent.hop) > maxHops ==> r == Failed(RecursionLimitExceeded)
      ensures active && SaturatingSucc(parent.hop) <= maxHops && exited ==> r == Failed(ChannelDisconnected)
      ensures r.Sent? <==> active && SaturatingSucc(parent.hop) <= maxHops && !exited && |old(queue)| < capacity
      ensures var c := Publish(Envelope(old(nextId), parent.traceId, SaturatingSucc(parent.hop),
                                        m.source, m.timestamp, m.event));
        queue == Queued(old(queue), c, r) && pending == Waiting(old(pending), c, r)
    {
      var hop := if parent.hop == 255 then 255 else parent.hop + 1;
      ghost var a := if i.Some? then Continue(m, i.value) else OldTrace(m, parent.traceId, hop);
      r := PostAs(m, parent.traceId, hop, a, 0);
      UniqueIdsLater(subscribers, old(nextId), nextId);
    }

    /** None: the bus was shut down before. */
    method RequestShutdown() returns (r: Option<SendResult>)
      requires Valid()
      modifies this`queue, this`pending, this`active, this`model, this`run, this`states
      ensures Valid() && !active && model == Completed(cfg, old(model), Shutdown)
      ensures r.Some? <==> old(active)
      ensures old(active) && exited ==> r == Some(Failed(ChannelDisconnected))
      ensures old(active) && !exited ==> r == Some(if |old(queue)| < capacity then Sent else Blocked)
      ensures r.None? ==> queue == old(queue) && pending == old(pending)
      ensures r.Some? ==> queue == Queued(old(queue), Stop, r.value) && pending == Waiting(old(pending), Stop, r.value)
    {
      if !active {
        return None;
      }
      active := false;
      ShutdownFields(cfg, model);
      Complete(Shutdown);
      var sent := Transmit(Stop);
      return Some(sent);
    }

    /** One turn of dispatch_loop: the handlers to run, in subscription order. */
    method DispatchOne() returns (handlers: seq<nat>)
      requires Valid() && Enabled(cfg, model, Deliver)
      modifies this`queue, this`traces, this`exited, this`model, this`run, this`states
      ensures Valid() && model == Next(cfg, old(model), Deliver)
      ensures old(queue)[0].Stop? ==> exited && handlers == []
      ensures old(queue)[0].Publish? ==>
                var e := old(queue)[0].envelope;
                && model.dispatched == old(model).dispatched + [e]
                && handlers == if e.event in subscribers then subscribers[e.event] else []
    {
      PassesLeads(cfg, states, run, |run|);
      assert run[..|run|] == run;
      HeadWithinLimit(cfg, run, model);
      var command := queue[0];
      queue := queue[1..];
      Perform(Deliver);
      handlers := [];
      match command {
        case Stop => exited := true;
        case Publish(envelope) =>
          if envelope.hop > maxHops {
            return;
          }
          traces := traces + [envelope];
          if |traces| > traceCapacity {
            traces := traces[|traces| - traceCapacity..];
          }
          if envelope.event in subscribers {
            handlers := subscribers[envelope.event];
          }
      }
    }
  }
}
