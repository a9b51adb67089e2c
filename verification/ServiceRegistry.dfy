/**
 Service dependency registry (os/src/runtime/service_registry.rs): a depth-first start over
 a dependency graph that may hold cycles, missing entries and services that refuse to start.
 */
module ServiceRegistries {
  import opened Common

  /** A supervised service: `startError` and `stopError` are what `start()` and `stop()` would answer. */
  datatype Service = Service(running: bool, startError: Option<string>, stopError: Option<string>)

  datatype Entry = Entry(dependencies: seq<string>, service: Service)

  datatype RegistryError =
    | DuplicateService(name: string)
    | ServiceNotFound(name: string)
    | DependencyCycle(name: string)
    | ServiceFailure(message: string)

  type Services = map<string, Entry>
  type Graph = map<string, seq<string>>
  type Outcome = Result<(), RegistryError>

  // ---- The dependency graph -------------------------------------------------------------

  ghost function Dependencies(s: Services): Graph {
    map n | n in s :: s[n].dependencies
  }

  ghost predicate Edge(g: Graph, a: string, b: string) {
    a in g && b in g[a]
  }

  ghost predicate IsPath(g: Graph, p: seq<string>) {
    |p| > 0 && forall i | 0 < i < |p| :: Edge(g, p[i - 1], p[i])
  }

  ghost predicate PathBetween(g: Graph, p: seq<string>, a: string, b: string) {
    IsPath(g, p) && p[0] == a && p[|p| - 1] == b
  }

  /** `b` is `a` itself or one of its transitive dependencies. */
  ghost predicate Reaches(g: Graph, a: string, b: string) {
    exists p :: PathBetween(g, p, a, b)
  }

  ghost predicate OnCycle(g: Graph, n: string) {
    exists d :: Edge(g, n, d) && Reaches(g, d, n)
  }

  lemma ReachesSelf(g: Graph, a: string)
    ensures Reaches(g, a, a)
  {
    assert PathBetween(g, [a], a, a);
  }

  lemma ReachesPrepend(g: Graph, a: string, d: string, b: string)
    requires Edge(g, a, d) && Reaches(g, d, b)
    ensures Reaches(g, a, b)
  {
    var p :| PathBetween(g, p, d, b);
    assert PathBetween(g, [a] + p, a, b);
  }

  lemma ReachesFirstStep(g: Graph, a: string, b: string) returns (d: string)
    requires Reaches(g, a, b) && a != b
    ensures Edge(g, a, d) && Reaches(g, d, b)
  {
    var p :| PathBetween(g, p, a, b);
    d := p[1];
    assert PathBetween(g, p[1..], d, b);
  }

  // ---- What a successful start needs ----------------------------------------------------

  ghost predicate IsRunning(s: Services, n: string) {
    n in s && s[n].service.running
  }

  ghost predicate Healthy(s: Services, n: string) {
    n in s && (s[n].service.running || s[n].service.startError.None?)
  }

  ghost predicate Sound(s: Services, visiting: set<string>, m: string) {
    m !in visiting && Healthy(s, m) && !OnCycle(Dependencies(s), m)
  }

  /** Everything reachable from `name` is registered, off every cycle, startable, and not in progress. */
  ghost predicate Startable(s: Services, name: string, visiting: set<string>) {
    forall m | Reaches(Dependencies(s), name, m) :: Sound(s, visiting, m)
  }

  lemma StartableUnfold(s: Services, name: string, visiting: set<string>)
    requires name in s && name !in visiting
    ensures Startable(s, name, visiting)
       <==> Healthy(s, name) && forall d | d in s[name].dependencies :: Startable(s, d, visiting + {name})
  {
    var g := Dependencies(s);
    ReachesSelf(g, name);
    if Startable(s, name, visiting) {
      assert Sound(s, visiting, name);
      forall d, m | d in s[name].dependencies && Reaches(g, d, m) ensures Sound(s, visiting + {name}, m) {
        assert Edge(g, name, d);
        ReachesPrepend(g, name, d, m);
        assert Sound(s, visiting, m);
      }
    }
    if Healthy(s, name) && forall d | d in s[name].dependencies :: Startable(s, d, visiting + {name}) {
      forall m | Reaches(g, name, m) ensures Sound(s, visiting, m) {
        if m != name {
          var d := ReachesFirstStep(g, name, m);
          assert Startable(s, d, visiting + {name});
          assert Sound(s, visiting + {name}, m);
        } else {
          forall d | Edge(g, name, d) ensures !Reaches(g, d, name) {
            assert Startable(s, d, visiting + {name});
            assert !Sound(s, visiting + {name}, name);
          }
        }
      }
    }
  }

  // ---- Runs of start() calls ------------------------------------------------------------

  ghost function MarkRunning(s: Services, names: set<string>): Services {
    map n | n in s :: if n in names then s[n].(service := s[n].service.(running := true)) else s[n]
  }

  /** The `i`-th call of `log` may happen: not running yet, start() succeeds, all transitive dependencies run. */
  ghost predicate LegalStart(s: Services, log: seq<string>, i: nat)
    requires i < |log|
  {
    && log[i] in s && !s[log[i]].service.running && s[log[i]].service.startError.None?
    && log[i] !in log[..i]
    && forall m | Reaches(Dependencies(s), log[i], m) && m != log[i] :: IsRunning(s, m) || m in log[..i]
  }

  /** `t` is `s` after successful start() calls on exactly the services of `log`, in that order. */
  ghost predicate StartRun(s: Services, log: seq<string>, t: Services) {
    && t == MarkRunning(s, Elements(log))
    && forall i | 0 <= i < |log| :: LegalStart(s, log, i)
  }

  lemma StartRunFrame(s: Services, log: seq<string>, t: Services)
    requires StartRun(s, log, t)
    ensures Dependencies(t) == Dependencies(s) && t.Keys == s.Keys
    ensures forall n :: Healthy(t, n) <==> Healthy(s, n)
    ensures forall n :: IsRunning(t, n) <==> IsRunning(s, n) || n in log
    ensures forall n | n in s :: t[n].service.startError == s[n].service.startError
    ensures forall n | n in s :: t[n].service.stopError == s[n].service.stopError
  {
    forall n | n in log ensures n in s && s[n].service.startError.None? {
      var i :| 0 <= i < |log| && log[i] == n;
      assert LegalStart(s, log, i);
    }
  }

  lemma StartRunAppend(s: Services, log1: seq<string>, t: Services, log2: seq<string>, u: Services)
    requires StartRun(s, log1, t) && StartRun(t, log2, u)
    ensures StartRun(s, log1 + log2, u)
  {
    StartRunFrame(s, log1, t);
    var log := log1 + log2;
    forall n | n in s ensures u[n] == MarkRunning(s, Elements(log))[n] {
    }
    forall i | 0 <= i < |log| ensures LegalStart(s, log, i) {
      if i < |log1| {
        assert LegalStart(s, log1, i) && log[..i] == log1[..i];
      } else {
        assert LegalStart(t, log2, i - |log1|);
        assert log[..i] == log1 + log2[..i - |log1|];
        assert !IsRunning(t, log[i]);
      }
    }
  }

  lemma StartableStable(s: Services, log: seq<string>, t: Services, name: string, visiting: set<string>)
    requires StartRun(s, log, t)
    ensures Startable(t, name, visiting) <==> Startable(s, name, visiting)
  {
    StartRunFrame(s, log, t);
    assert forall m :: Sound(t, visiting, m) <==> Sound(s, visiting, m);
  }

  // ---- Dependency closure ---------------------------------------------------------------

  /** Every running service has all its direct dependencies registered and running. */
  ghost predicate Closed(s: Services) {
    forall n, d | IsRunning(s, n) && d in s[n].dependencies :: IsRunning(s, d)
  }

  lemma {:induction false} ClosedReaches(s: Services, p: seq<string>)
    requires Closed(s) && IsPath(Dependencies(s), p) && IsRunning(s, p[0])
    ensures IsRunning(s, p[|p| - 1])
    decreases |p|
  {
    if |p| > 1 {
      assert Edge(Dependencies(s), p[0], p[1]);
      assert p[1..][|p| - 2] == p[|p| - 1];
      ClosedReaches(s, p[1..]);
    }
  }

  /** No sequence of legal starts, however it ended, can leave a running service without its dependencies. */
  lemma StartRunKeepsClosed(s: Services, log: seq<string>, t: Services)
    requires StartRun(s, log, t)
    ensures Closed(s) ==> Closed(t)
  {
    StartRunFrame(s, log, t);
    var g := Dependencies(s);
    forall n, d | Closed(s) && IsRunning(t, n) && d in t[n].dependencies ensures IsRunning(t, d) {
      if n in log {
        var i :| 0 <= i < |log| && log[i] == n;
        assert LegalStart(s, log, i);
        assert Edge(g, n, d);
        ReachesSelf(g, d);
        ReachesPrepend(g, n, d, d);
      }
    }
  }

  // ---- What an error means --------------------------------------------------------------

  /** The diagnosis `e` is true of the graph below `name`. */
  ghost predicate Explains(s: Services, name: string, visiting: set<string>, e: RegistryError) {
    var g := Dependencies(s);
    match e
    case DependencyCycle(n) => Reaches(g, name, n) && (n in visiting || OnCycle(g, n))
    case ServiceNotFound(n) => Reaches(g, name, n) && n !in s
    case ServiceFailure(msg) =>
      exists n :: Reaches(g, name, n) && n in s && !s[n].service.running && s[n].service.startError == Some(msg)
    case DuplicateService(_) => false
  }

  lemma ExplainsLift(s: Services, name: string, d: string, visiting: set<string>, e: RegistryError)
    requires name in s && d in s[name].dependencies && Explains(s, d, visiting + {name}, e)
    ensures Explains(s, name, visiting, e)
  {
    var g := Dependencies(s);
    assert Edge(g, name, d);
    match e
    case DependencyCycle(n) => ReachesPrepend(g, name, d, n);
    case ServiceNotFound(n) => ReachesPrepend(g, name, d, n);
    case ServiceFailure(msg) =>
      var n :| Reaches(g, d, n) && n in s && !s[n].service.running && s[n].service.startError == Some(msg);
      ReachesPrepend(g, name, d, n);
  }

  lemma ExplainsStable(s: Services, log: seq<string>, t: Services, d: string, visiting: set<string>, e: RegistryError)
    requires StartRun(s, log, t) && Explains(t, d, visiting, e)
    ensures Explains(s, d, visiting, e)
  {
    StartRunFrame(s, log, t);
    if e.ServiceFailure? {
      var n :| Reaches(Dependencies(t), d, n) && n in t && !t[n].service.running
               && t[n].service.startError == Some(e.message);
      assert !IsRunning(t, n);
      assert Reaches(Dependencies(s), d, n) && n in s && !s[n].service.running;
    }
  }

  // ---- The loop over a service's dependencies -------------------------------------------

  /** `name` and all its transitive dependencies run. */
  ghost predicate Ready(s: Services, name: string) {
    forall m | Reaches(Dependencies(s), name, m) :: IsRunning(s, m)
  }

  /** No service in progress is among those started. */
  ghost predicate Untouched(log: seq<string>, visiting: set<string>) {
    forall n | n in visiting :: n !in log
  }

  /** After the dependencies `done` have been started without error. */
  ghost predicate Progress(s0: Services, log: seq<string>, s: Services, done: seq<string>, visiting: set<string>) {
    && StartRun(s0, log, s) && Untouched(log, visiting)
    && forall d | d in done :: Startable(s0, d, visiting) && Ready(s, d)
  }

  lemma ProgressStep(s0: Services, log1: seq<string>, s1: Services, done: seq<string>, d: string,
                     visiting: set<string>, log2: seq<string>, s2: Services)
    requires Progress(s0, log1, s1, done, visiting) && StartRun(s1, log2, s2) && Untouched(log2, visiting)
    requires Startable(s1, d, visiting) && Ready(s2, d)
    ensures Progress(s0, log1 + log2, s2, done + [d], visiting)
  {
    StartRunAppend(s0, log1, s1, log2, s2);
    StartableStable(s0, log1, s1, d, visiting);
    StartRunFrame(s1, log2, s2);
    forall e | e in done ensures Ready(s2, e) {
      assert Ready(s1, e);
    }
  }

  lemma ProgressFails(s0: Services, log1: seq<string>, s1: Services, name: string, d: string,
                      visiting: set<string>, log2: seq<string>, s2: Services, e: RegistryError)
    requires StartRun(s0, log1, s1) && StartRun(s1, log2, s2)
    requires Untouched(log1, visiting + {name}) && Untouched(log2, visiting + {name})
    requires name in s0 && name !in visiting && d in s0[name].dependencies
    requires !Startable(s1, d, visiting + {name}) && Explains(s1, d, visiting + {name}, e)
    ensures StartRun(s0, log1 + log2, s2) && Untouched(log1 + log2, visiting + {name})
    ensures !Startable(s0, name, visiting) && Explains(s0, name, visiting, e)
  {
    StartRunAppend(s0, log1, s1, log2, s2);
    StartableStable(s0, log1, s1, d, visiting + {name});
    StartableUnfold(s0, name, visiting);
    ExplainsStable(s0, log1, s1, d, visiting + {name}, e);
    ExplainsLift(s0, name, d, visiting, e);
  }

  lemma ProgressDone(s0: Services, log: seq<string>, s: Services, name: string, visiting: set<string>)
    requires name in s0 && name !in visiting
    requires Progress(s0, log, s, s0[name].dependencies, visiting + {name})
    ensures name in s && (Healthy(s, name) <==> Healthy(s0, name))
    ensures Startable(s0, name, visiting) <==> Healthy(s0, name)
    ensures forall m | Reaches(Dependencies(s), name, m) && m != name :: IsRunning(s, m)
  {
    StartRunFrame(s0, log, s);
    StartableUnfold(s0, name, visiting);
    forall m | Reaches(Dependencies(s), name, m) && m != name ensures IsRunning(s, m) {
      var d := ReachesFirstStep(Dependencies(s), name, m);
      assert Ready(s, d);
    }
  }

  lemma AllProgressed(s0: Services, log: seq<string>, s: Services, names: seq<string>)
    requires Progress(s0, log, s, names, {}) && Elements(names) == s0.Keys
    ensures forall n | n in s0 :: Startable(s0, n, {})
    ensures s == MarkRunning(s0, s0.Keys) && (Closed(s0) ==> Closed(s))
  {
    StartRunKeepsClosed(s0, log, s);
    StartRunFrame(s0, log, s);
    forall n | n in s0 ensures Startable(s0, n, {}) && IsRunning(s, n) {
      assert n in Elements(names);
      ReachesSelf(Dependencies(s), n);
    }
    assert forall n | n in s0 :: s[n] == MarkRunning(s0, s0.Keys)[n];
  }

  lemma StartAllFails(s0: Services, log1: seq<string>, s1: Services, name: string, log2: seq<string>, s2: Services,
                      e: RegistryError)
    requires StartRun(s0, log1, s1) && StartRun(s1, log2, s2)
    requires !Startable(s1, name, {}) && Explains(s1, name, {}, e)
    ensures StartRun(s0, log1 + log2, s2) && (Closed(s0) ==> Closed(s2))
    ensures !Startable(s0, name, {}) && Explains(s0, name, {}, e)
  {
    StartRunAppend(s0, log1, s1, log2, s2);
    StartRunKeepsClosed(s0, log1 + log2, s2);
    StartableStable(s0, log1, s1, name, {});
    ExplainsStable(s0, log1, s1, name, {}, e);
  }

  // ---- Starting everything, stopping one ------------------------------------------------

  ghost predicate AllStartable(s: Services) {
    forall n | n in s :: Startable(s, n, {})
  }

  lemma {:induction false} PathStaysRegistered(s: Services, p: seq<string>)
    requires forall n, d | n in s && d in s[n].dependencies :: d in s
    requires IsPath(Dependencies(s), p) && p[0] in s
    ensures p[|p| - 1] in s
    decreases |p|
  {
    if |p| > 1 {
      assert Edge(Dependencies(s), p[0], p[1]);
      assert p[1..][|p| - 2] == p[|p| - 1];
      PathStaysRegistered(s, p[1..]);
    }
  }

  /** start_all can succeed exactly when the registry is complete, acyclic and has no failing service left to start. */
  lemma AllStartableExactly(s: Services)
    ensures AllStartable(s) <==>
      && (forall n, d | n in s && d in s[n].dependencies :: d in s)
      && (forall n | n in s :: !OnCycle(Dependencies(s), n) && Healthy(s, n))
  {
    var g := Dependencies(s);
    if AllStartable(s) {
      forall n | n in s ensures !OnCycle(g, n) && Healthy(s, n) {
        ReachesSelf(g, n);
        assert Sound(s, {}, n);
      }
      forall n, d | n in s && d in s[n].dependencies ensures d in s {
        assert Edge(g, n, d);
        ReachesSelf(g, d);
        ReachesPrepend(g, n, d, d);
        assert Startable(s, n, {}) && Sound(s, {}, d);
      }
    }
    if (forall n, d | n in s && d in s[n].dependencies :: d in s)
       && (forall n | n in s :: !OnCycle(g, n) && Healthy(s, n)) {
      forall n, m | n in s && Reaches(g, n, m) ensures Sound(s, {}, m) {
        var p :| PathBetween(g, p, n, m);
        PathStaysRegistered(s, p);
      }
    }
  }

  ghost function StopOutcome(s: Services, name: string): Outcome {
    if name !in s then Err(ServiceNotFound(name))
    else if s[name].service.running && s[name].service.stopError.Some? then
      Err(ServiceFailure(s[name].service.stopError.value))
    else Ok(())
  }

  ghost function MarkStopped(s: Services, names: set<string>): Services {
    map n | n in s :: if n in names then s[n].(service := s[n].service.(running := false)) else s[n]
  }

  /** No other running service depends on `name`. */
  ghost predicate NoRunningDependent(s: Services, name: string) {
    IsRunning(s, name) ==> forall n | IsRunning(s, n) && n != name :: name !in s[n].dependencies
  }

  /** Stopping one service keeps dependency closure exactly when no other running service depends on it. */
  lemma StopKeepsClosedExactly(s: Services, name: string)
    requires Closed(s) && IsRunning(s, name)
    ensures Closed(MarkStopped(s, {name})) <==> NoRunningDependent(s, name)
  {
    var t := MarkStopped(s, {name});
    assert forall n :: IsRunning(t, n) <==> IsRunning(s, n) && n != name;
    if Closed(t) {
      forall n | IsRunning(s, n) && n != name ensures name !in s[n].dependencies {
        assert IsRunning(t, n) && t[n].dependencies == s[n].dependencies && !IsRunning(t, name);
      }
    }
  }

  /** Closure after a stop and the start attempt that followed it. */
  lemma RestartClosure(s: Services, down: Services, name: string, log: seq<string>, t: Services, ok: bool)
    requires down == MarkStopped(s, {name}) && name in s && StartRun(down, log, t)
    requires if ok then IsRunning(t, name) else name !in log
    ensures !ok ==> !IsRunning(t, name)
    ensures Closed(s) ==> (Closed(t) <==> ok || NoRunningDependent(s, name))
  {
    StartRunFrame(down, log, t);
    var g := Dependencies(down);
    assert forall n :: IsRunning(down, n) <==> IsRunning(s, n) && n != name;
    if Closed(s) {
      forall n, d | IsRunning(t, n) && d in t[n].dependencies
        ensures IsRunning(t, d) || (d == name && !ok && n !in log)
      {
        if n in log {
          var i :| 0 <= i < |log| && log[i] == n;
          assert LegalStart(down, log, i) && Edge(g, n, d);
          ReachesSelf(g, d);
          ReachesPrepend(g, n, d, d);
        } else {
          assert IsRunning(s, n) && d in s[n].dependencies && IsRunning(s, d);
        }
      }
      if !ok && Closed(t) {
        forall n | IsRunning(s, n) && n != name ensures name !in s[n].dependencies {
          assert IsRunning(t, n) && t[n].dependencies == s[n].dependencies;
        }
      }
    }
  }

  /** stop_service under a running dependent does break closure. */
  lemma StopMayBreakClosure()
    ensures exists s: Services, name: string :: Closed(s) && IsRunning(s, name) && !Closed(MarkStopped(s, {name}))
  {
    var up := Service(true, None, None);
    var s: Services := map["d" := Entry([], up), "m" := Entry(["d"], up)];
    assert "d" != "m";
    assert Closed(s) && IsRunning(s, "d") && IsRunning(s, "m");
    StopKeepsClosedExactly(s, "d");
    assert "d" in s["m"].dependencies;
  }

  /** An order in which the hash map may yield its keys. */
  ghost predicate IsOrder(s: Services, names: seq<string>) { Elements(names) == s.Keys && NoDuplicates(names) }

  /** Visited from the back, no service is stopped before a running one that depends on it. */
  ghost predicate DependentsFirst(s: Services, names: seq<string>) {
    forall i, j | 0 <= i < j < |names| && IsRunning(s, names[i]) :: names[j] !in s[names[i]].dependencies
  }

  /** A stop-all from the back passes through closed states only. */
  ghost predicate StaysClosed(s: Services, names: seq<string>) {
    forall i | 0 <= i <= |names| :: Closed(MarkStopped(s, Elements(names[i..])))
  }

  lemma StoppedTailRunning(s: Services, names: seq<string>, i: nat, n: string)
    requires i <= |names|
    ensures IsRunning(MarkStopped(s, Elements(names[i..])), n) <==> IsRunning(s, n) && n !in names[i..]
  {
  }

  lemma TailMembers(names: seq<string>, i: nat)
    requires i <= |names|
    ensures forall k | i <= k < |names| :: names[k] in names[i..]
    ensures forall d | d in names[i..] :: exists k :: i <= k < |names| && names[k] == d
  {
    forall k | i <= k < |names| ensures names[k] in names[i..] {
      assert names[i..][k - i] == names[k];
    }
  }

  /** Whatever the order, stopping a tail of it ends closed if dependents come first. */
  lemma StoppedTailClosed(s: Services, names: seq<string>, i: nat)
    requires IsOrder(s, names) && i <= |names|
    ensures Closed(s) && DependentsFirst(s, names) ==> Closed(MarkStopped(s, Elements(names[i..])))
  {
    var t := MarkStopped(s, Elements(names[i..]));
    TailMembers(names, i);
    forall n, d | Closed(s) && DependentsFirst(s, names) && IsRunning(t, n) && d in t[n].dependencies
      ensures IsRunning(t, d)
    {
      StoppedTailRunning(s, names, i, n);
      StoppedTailRunning(s, names, i, d);
      assert n in Elements(names) && IsRunning(s, d);
      var k :| 0 <= k < |names| && names[k] == n;
      assert k < i;
    }
  }

  /** One more stop from the back of an order. */
  lemma StopNext(s: Services, names: seq<string>, i: nat)
    requires IsOrder(s, names) && i < |names|
    ensures var down := MarkStopped(s, Elements(names[i + 1..]));
      && names[i] in s && StopOutcome(down, names[i]) == StopOutcome(s, names[i])
      && MarkStopped(down, {names[i]}) == MarkStopped(s, Elements(names[i..]))
      && names[i..] == [names[i]] + names[i + 1..]
  {
    assert names[i] in Elements(names);
    TailMembers(names, i + 1);
    assert names[i] !in names[i + 1..];
    ElementsConcat([names[i]], names[i + 1..]);
    assert names[i..] == [names[i]] + names[i + 1..];
  }

  /** Exactly the orders that stop dependents first keep the registry closed throughout. */
  lemma StopOrderExactly(s: Services, names: seq<string>)
    requires Closed(s) && IsOrder(s, names)
    ensures StaysClosed(s, names) <==> DependentsFirst(s, names)
  {
    if DependentsFirst(s, names) {
      forall i | 0 <= i <= |names| ensures Closed(MarkStopped(s, Elements(names[i..]))) {
        StoppedTailClosed(s, names, i);
      }
    }
    if StaysClosed(s, names) {
      forall i, j | 0 <= i < j < |names| && IsRunning(s, names[i]) ensures names[j] !in s[names[i]].dependencies {
        var t := MarkStopped(s, Elements(names[j..]));
        assert Closed(t);
        StoppedTailRunning(s, names, j, names[i]);
        StoppedTailRunning(s, names, j, names[j]);
        assert names[j..][0] == names[j];
        assert names[i] !in names[j..];
        assert t[names[i]].dependencies == s[names[i]].dependencies;
      }
    }
  }

  /** Registered with every dependency before its dependents, as the documented order presumes. */
  ghost predicate DependenciesFirst(s: Services, names: seq<string>) {
    forall i, j | 0 <= i < j < |names| :: names[i] in s && names[j] !in s[names[i]].dependencies
  }

  /** The documented reverse registration order would be safe for a registry filled dependencies first. */
  lemma ReverseRegistrationIsSafe(s: Services, registered: seq<string>)
    requires Closed(s) && IsOrder(s, registered) && DependenciesFirst(s, registered)
    ensures StaysClosed(s, registered)
  {
    StopOrderExactly(s, registered);
  }

  lemma {:induction false} Enumerate(keys: set<string>) returns (names: seq<string>)
    ensures Elements(names) == keys && NoDuplicates(names)
  {
    if keys == {} {
      names := [];
    } else {
      var k :| k in keys;
      var rest := Enumerate(keys - {k});
      assert k !in Elements(rest);
      names := [k] + rest;
      ElementsConcat([k], rest);
    }
  }

  /**
   The order is the hash map's, so any: it is safe whatever it is exactly if no running service has a dependency
   other than itself. In every other registry some order stops a dependency under its running dependent.
   */
  lemma AnyOrderSafeExactly(s: Services)
    requires Closed(s)
    ensures (forall names | IsOrder(s, names) :: StaysClosed(s, names))
       <==> (forall n, d | IsRunning(s, n) && d in s[n].dependencies :: d == n)
  {
    if n, d :| IsRunning(s, n) && d in s[n].dependencies && d != n {
      var rest := Enumerate(s.Keys - {d});
      var names := rest + [d];
      assert d !in Elements(rest) && n in Elements(rest);
      ElementsConcat(rest, [d]);
      NoDuplicatesAppend(rest, d);
      assert IsRunning(s, d) && Elements([d]) == {d};
      assert IsOrder(s, names);
      var i :| 0 <= i < |rest| && rest[i] == n;
      assert names[i] == n && names[|rest|] == d;
      StopOrderExactly(s, names);
      assert !StaysClosed(s, names);
    } else {
      forall names | IsOrder(s, names) ensures StaysClosed(s, names) {
        StopOrderExactly(s, names);
      }
    }
  }

  /** In a closed registry a running service has its whole transitive closure running. */
  lemma ClosedMeansReady(s: Services, name: string)
    requires Closed(s) && IsRunning(s, name)
    ensures Ready(s, name)
  {
    forall m | Reaches(Dependencies(s), name, m) ensures IsRunning(s, m) {
      var p :| PathBetween(Dependencies(s), p, name, m);
      ClosedReaches(s, p);
    }
  }

  /** With nothing in progress, a reported cycle is a real one: its service reaches itself. */
  lemma CycleDiagnosisIsReal(s: Services, name: string, n: string)
    requires Explains(s, name, {}, DependencyCycle(n))
    ensures Reaches(Dependencies(s), name, n)
    ensures exists p :: |p| > 1 && PathBetween(Dependencies(s), p, n, n)
  {
    var g := Dependencies(s);
    var d :| Edge(g, n, d) && Reaches(g, d, n);
    var p :| PathBetween(g, p, d, n);
    assert PathBetween(g, [n] + p, n, n);
  }

  // ---- The registry object --------------------------------------------------------------

  class ServiceRegistry {
    var services: Services
    ghost var started: seq<string>  // every successful start() call, oldest first

    constructor ()
      ensures services == map[] && started == []
    {
      services := map[];
      started := [];
    }

    method RegisterService(name: string, service: Service, dependencies: seq<string>) returns (r: Outcome)
      modifies this`services
      ensures name in old(services) ==> r == Err(DuplicateService(name))
      ensures name !in old(services) && name in dependencies ==> r == Err(DependencyCycle(name))
      ensures r.Ok? <==> name !in old(services) && name !in dependencies
      ensures services == if r.Ok? then old(services)[name := Entry(dependencies, service)] else old(services)
    {
      if name in services {
        return Err(DuplicateService(name));
      }
      if name in dependencies {
        return Err(DependencyCycle(name));
      }
      services := services[name := Entry(dependencies, service)];
      return Ok(());
    }

    /** The tail of start_recursive: call start() unless the service already runs. */
    method EnsureStarted(name: string) returns (r: Outcome)
      requires name in services
      requires forall m | Reaches(Dependencies(services), name, m) && m != name :: IsRunning(services, m)
      modifies this
      ensures old(started) <= started
      ensures StartRun(old(services), started[|old(started)|..], services)
      ensures r.Ok? <==> Healthy(old(services), name)
      ensures r.Ok? ==> IsRunning(services, name)
      ensures started == old(started) || (r.Ok? && started == old(started) + [name])
      ensures r.Err? ==> services == old(services) && !services[name].service.running
                         && r.error.ServiceFailure?
                         && services[name].service.startError == Some(r.error.message)
    {
      ghost var s0 := services;
      var entry := services[name];
      if entry.service.running {
        assert StartRun(s0, [], services);
        return Ok(());
      }
      if entry.service.startError.Some? {
        assert StartRun(s0, [], services);
        return Err(ServiceFailure(entry.service.startError.value));
      }
      services := services[name := entry.(service := entry.service.(running := true))];
      started := started + [name];
      assert services == MarkRunning(s0, Elements([name]));
      assert LegalStart(s0, [name], 0);
      return Ok(());
    }

    method StartRecursive(name: string, visiting: set<string>) returns (r: Outcome, after: set<string>)
      modifies this
      ensures old(started) <= started
      ensures StartRun(old(services), started[|old(started)|..], services)
      ensures r.Ok? <==> Startable(old(services), name, visiting)
      ensures r.Ok? ==> after == visiting
      ensures r.Ok? ==> Ready(services, name)
      ensures r.Err? ==> Explains(old(services), name, visiting, r.error)
      ensures Untouched(started[|old(started)|..], visiting) && (r.Err? ==> name !in started[|old(started)|..])
      decreases services.Keys - visiting
    {
      ghost var s0, log0 := services, started;
      ReachesSelf(Dependencies(s0), name);
      assert StartRun(s0, [], s0);
      after := visiting;
      if name in visiting {
        assert !Sound(s0, visiting, name);
        return Err(DependencyCycle(name)), after;
      }
      if name !in services {
        assert !Sound(s0, visiting, name);
        return Err(ServiceNotFound(name)), after;
      }
      StartableUnfold(s0, name, visiting);
      var dependencies := services[name].dependencies;
      after := after + {name};
      for i := 0 to |dependencies|
        invariant log0 <= started
        invariant after == visiting + {name}
        invariant Progress(s0, started[|log0|..], services, dependencies[..i], visiting + {name})
      {
        ghost var s1, log1 := services, started;
        StartRunFrame(s0, log1[|log0|..], s1);
        r, after := StartRecursive(dependencies[i], after);
        assert log1[|log0|..] + started[|log1|..] == started[|log0|..];
        assert dependencies[..i] + [dependencies[i]] == dependencies[..i + 1];
        if r.Err? {
          ProgressFails(s0, log1[|log0|..], s1, name, dependencies[i], visiting, started[|log1|..], services, r.error);
          return;
        }
        ProgressStep(s0, log1[|log0|..], s1, dependencies[..i], dependencies[i], visiting + {name},
                     started[|log1|..], services);
      }
      after := after - {name};
      assert dependencies[..|dependencies|] == dependencies;
      ghost var s2, log2 := services, started;
      ProgressDone(s0, log2[|log0|..], s2, name, visiting);
      r := EnsureStarted(name);
      StartRunAppend(s0, log2[|log0|..], s2, started[|log2|..], services);
      assert log2[|log0|..] + started[|log2|..] == started[|log0|..];
      StartRunFrame(s2, started[|log2|..], services);
      if r.Err? {
        ReachesSelf(Dependencies(s2), name);
        ExplainsStable(s0, log2[|log0|..], s2, name, visiting, r.error);
      }
    }

    /** Exact verdict, and on every exit the running set has only grown by legal starts. */
    method StartService(name: string) returns (r: Outcome)
      modifies this
      ensures old(started) <= started
      ensures StartRun(old(services), started[|old(started)|..], services)
      ensures r.Ok? <==> Startable(old(services), name, {})
      ensures r.Ok? ==> Ready(services, name)
      ensures r.Err? ==> Explains(old(services), name, {}, r.error) && name !in started[|old(started)|..]
      ensures old(Closed(services)) ==> Closed(services)
    {
      var after;
      r, after := StartRecursive(name, {});
      StartRunKeepsClosed(old(services), started[|old(started)|..], services);
    }

    /** `names` is the arbitrary order in which the hash map yields its keys. */
    method StartAll(names: seq<string>) returns (r: Outcome)
      requires Elements(names) == services.Keys
      modifies this
      ensures old(started) <= started
      ensures StartRun(old(services), started[|old(started)|..], services)
      ensures r.Ok? <==> AllStartable(old(services))
      ensures r.Ok? ==> services == MarkRunning(old(services), old(services).Keys)
      ensures r.Err? ==> exists n | n in old(services) :: Explains(old(services), n, {}, r.error)
      ensures old(Closed(services)) ==> Closed(services)
    {
      ghost var s0, log0 := services, started;
      assert StartRun(s0, [], s0);
      for i := 0 to |names|
        invariant log0 <= started
        invariant Progress(s0, started[|log0|..], services, names[..i], {})
      {
        ghost var s1, log1 := services, started;
        r := StartService(names[i]);
        assert log1[|log0|..] + started[|log1|..] == started[|log0|..];
        assert names[..i] + [names[i]] == names[..i + 1];
        assert names[i] in Elements(names);
        if r.Err? {
          StartAllFails(s0, log1[|log0|..], s1, names[i], started[|log1|..], services, r.error);
          return;
        }
        ProgressStep(s0, log1[|log0|..], s1, names[..i], names[i], {}, started[|log1|..], services);
      }
      r := Ok(());
      assert names[..|names|] == names;
      AllProgressed(s0, started[|log0|..], services, names);
    }

    method StopService(name: string) returns (r: Outcome)
      modifies this`services
      ensures r == StopOutcome(old(services), name)
      ensures name !in old(services) ==> r == Err(ServiceNotFound(name))
      ensures name in old(services) ==>
                var before := old(services)[name].service;
                && (r.Ok? <==> !before.running || before.stopError.None?)
                && (r.Err? ==> r == Err(ServiceFailure(before.stopError.value)))
      ensures r.Ok? ==>
                && name in services && !services[name].service.running
                && services == old(services)[name := old(services)[name].(service := services[name].service)]
                && services[name].service == old(services)[name].service.(running := false)
      ensures services == if r.Ok? then MarkStopped(old(services), {name}) else old(services)
    {
      if name !in services {
        return Err(ServiceNotFound(name));
      }
      var entry := services[name];
      if entry.service.running {
        if entry.service.stopError.Some? {
          return Err(ServiceFailure(entry.service.stopError.value));
        }
        services := services[name := entry.(service := entry.service.(running := false))];
      }
      return Ok(());
    }

    /**
     A failed stop changes nothing. Otherwise the service is started from the stopped state: success restores closure;
     failure leaves the service down, so closure is lost exactly if another running service depends on it.
     */
    method RestartService(name: string) returns (r: Outcome)
      modifies this
      ensures old(started) <= started
      ensures StopOutcome(old(services), name).Err? ==>
                r == StopOutcome(old(services), name) && services == old(services)
      ensures StopOutcome(old(services), name).Ok? ==>
                var down := MarkStopped(old(services), {name});
                && StartRun(down, started[|old(started)|..], services)
                && (r.Ok? <==> Startable(down, name, {}))
                && (r.Err? ==> Explains(down, name, {}, r.error) && !IsRunning(services, name))
      ensures r.Ok? ==> Ready(services, name)
      ensures old(Closed(services)) && r.Ok? ==> Closed(services)
      ensures old(Closed(services)) && r.Err? && StopOutcome(old(services), name).Ok? ==>
                (Closed(services) <==> NoRunningDependent(old(services), name))
    {
      r := StopService(name);
      if r.Ok? {
        ghost var down, log := services, started;
        r := StartService(name);
        ReachesSelf(Dependencies(services), name);
        RestartClosure(old(services), down, name, started[|log|..], services, r.Ok?);
      }
    }

    /**
     The order is that of the hash map reversed, so any order. On an error the services visited before the failing one
     are stopped and no others; if dependents come first, every exit leaves a closed registry closed.
     */
    method StopAll(names: seq<string>) returns (r: Outcome)
      requires IsOrder(services, names)
      modifies this`services
      ensures r.Ok? <==> forall n | n in old(services) :: StopOutcome(old(services), n).Ok?
      ensures r.Ok? ==> services == MarkStopped(old(services), old(services).Keys)
      ensures r.Err? ==> exists i | 0 <= i < |names| ::
                && r == StopOutcome(old(services), names[i])
                && services == MarkStopped(old(services), Elements(names[i + 1..]))
                && forall n | n in names[i + 1..] :: StopOutcome(old(services), n).Ok?
      ensures old(Closed(services)) && DependentsFirst(old(services), names) ==> Closed(services)
    {
      ghost var s0 := services;
      var i := |names|;
      while i > 0
        invariant 0 <= i <= |names|
        invariant services == MarkStopped(s0, Elements(names[i..]))
        invariant forall n | n in names[i..] :: StopOutcome(s0, n).Ok?
      {
        i := i - 1;
        StopNext(s0, names, i);
        StoppedTailClosed(s0, names, i + 1);
        r := StopService(names[i]);
        if r.Err? {
          return;
        }
      }
      r := Ok(());
      assert names[0..] == names;
      StoppedTailClosed(s0, names, 0);
      forall n | n in s0 ensures StopOutcome(s0, n).Ok? {
        assert n in Elements(names);
      }
    }

    method IsServiceRunning(name: string) returns (b: bool)
      ensures name !in services ==> !b
      ensures b && Closed(services) ==> Ready(services, name)
      ensures !b ==> !IsRunning(services, name)
    {
      if Closed(services) && IsRunning(services, name) {
        ClosedMeansReady(services, name);
      }
      b := name in services && services[name].service.running;
    }
  }
}
