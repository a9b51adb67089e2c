/**
 Periodic scheduler (os/src/scheduler.rs). A polling loop samples the clock once per turn and runs every task
 whose next_run has passed, rescheduling it from the sampled time. Times are integer nanoseconds.
 */
module Schedulers {
  import opened Common

  datatype Task = Task(name: string, interval: int, nextRun: int)

  /** One visit of the polling loop to one task. */
  function Visit(task: Task, now: int): Task {
    if now >= task.nextRun then task.(nextRun := now + task.interval) else task
  }

  // ---- One task over all polls ----------------------------------------------------------

  /** When a task registered at `t0` fires during `polls`, and when it is next due. */
  datatype Trace = Trace(nextRun: int, fires: seq<int>)

  ghost function Follow(t0: int, interval: int, polls: seq<int>): Trace {
    if polls == [] then Trace(t0 + interval, [])
    else
      var before, now := Follow(t0, interval, polls[..|polls| - 1]), polls[|polls| - 1];
      if now >= before.nextRun then Trace(now + interval, before.fires + [now]) else before
  }

  ghost function LastFire(t0: int, fires: seq<int>): int {
    if fires == [] then t0 else fires[|fires| - 1]
  }

  /** Time from the firing before the `j`-th to the `j`-th, registration counting as the zeroth. */
  ghost function Gap(t0: int, fires: seq<int>, j: nat): int
    requires j < |fires|
  {
    fires[j] - if j == 0 then t0 else fires[j - 1]
  }

  lemma GapsExtend(t0: int, fires: seq<int>, now: int)
    ensures forall j | 0 <= j < |fires| :: Gap(t0, fires + [now], j) == Gap(t0, fires, j)
    ensures Gap(t0, fires + [now], |fires|) == now - LastFire(t0, fires)
  {
  }

  /** Never early: firings happen at polls and are at least an interval apart. */
  lemma {:induction false} NeverEarly(t0: int, interval: int, polls: seq<int>)
    ensures var r := Follow(t0, interval, polls);
      && r.nextRun == LastFire(t0, r.fires) + interval
      && (forall j | 0 <= j < |r.fires| :: Gap(t0, r.fires, j) >= interval)
      && (forall f | f in r.fires :: f in polls)
    decreases |polls|
  {
    if polls != [] {
      var before, now := Follow(t0, interval, polls[..|polls| - 1]), polls[|polls| - 1];
      NeverEarly(t0, interval, polls[..|polls| - 1]);
      if now >= before.nextRun {
        GapsExtend(t0, before.fires, now);
      }
    }
  }

  lemma {:induction false} GapsAddUp(t0: int, fires: seq<int>, low: int, high: int)
    requires forall j | 0 <= j < |fires| :: low <= Gap(t0, fires, j) <= high
    ensures |fires| * low <= LastFire(t0, fires) - t0 <= |fires| * high
    decreases |fires|
  {
    if fires != [] {
      var n := |fires| - 1;
      var before := fires[..n];
      assert fires == before + [fires[n]];
      GapsExtend(t0, before, fires[n]);
      forall j | 0 <= j < n ensures low <= Gap(t0, before, j) <= high {
        assert low <= Gap(t0, fires, j) <= high;
      }
      GapsAddUp(t0, before, low, high);
      assert low <= Gap(t0, fires, n) <= high;
      assert (n + 1) * low == n * low + low && (n + 1) * high == n * high + high;
    }
  }

  /** The clock does not run backwards, the first poll comes within `g` of registration, later ones `g` apart. */
  ghost predicate Polled(t0: int, polls: seq<int>, g: int) {
    && g >= 0 && (polls != [] ==> polls[0] <= t0 + g)
    && forall i | 0 < i < |polls| :: polls[i - 1] <= polls[i] <= polls[i - 1] + g
  }

  lemma {:induction false} PollsOrdered(t0: int, polls: seq<int>, g: int, i: nat, j: nat)
    requires Polled(t0, polls, g) && i <= j < |polls|
    ensures polls[i] <= polls[j]
    decreases j
  {
    if i < j { PollsOrdered(t0, polls, g, i, j - 1); }
  }

  /** Never late by a whole poll gap: each gap is below interval + g, and nothing due is left unfired. */
  lemma {:induction false} NeverLate(t0: int, interval: int, polls: seq<int>, g: int)
    requires interval > 0 && Polled(t0, polls, g)
    ensures var r := Follow(t0, interval, polls);
      && (forall j | 0 <= j < |r.fires| :: Gap(t0, r.fires, j) < interval + g)
      && (polls != [] ==> polls[|polls| - 1] < r.nextRun)
    decreases |polls|
  {
    if polls != [] {
      var n := |polls| - 1;
      var before, now := Follow(t0, interval, polls[..n]), polls[n];
      NeverLate(t0, interval, polls[..n], g);
      NeverEarly(t0, interval, polls[..n]);
      if now >= before.nextRun {
        GapsExtend(t0, before.fires, now);
        assert n > 0 ==> now <= polls[n - 1] + g && polls[n - 1] < before.nextRun;
      }
    }
  }

  /** How often a task can have fired by its latest poll: between these two counts. */
  lemma FiringCount(t0: int, interval: int, polls: seq<int>, g: int)
    requires interval > 0 && Polled(t0, polls, g) && polls != []
    ensures var n, elapsed := |Follow(t0, interval, polls).fires|, polls[|polls| - 1] - t0;
      && (n > 0 ==> n * interval <= elapsed)
      && elapsed < n * (interval + g) + interval
  {
    NeverEarly(t0, interval, polls);
    NeverLate(t0, interval, polls, g);
    var fires := Follow(t0, interval, polls).fires;
    GapsAddUp(t0, fires, interval, interval + g);
    if fires != [] {
      assert fires[|fires| - 1] in fires;
      var k :| 0 <= k < |polls| && polls[k] == fires[|fires| - 1];
      PollsOrdered(t0, polls, g, k, |polls| - 1);
    }
  }

  // ---- The scheduler object -------------------------------------------------------------

  class Scheduler {
    const tick: int
    var tasks: seq<Task>
    ghost var registeredAt: seq<int>    // registration time of each task
    ghost var pollsSeen: seq<seq<int>>  // polls each task has been through

    ghost predicate Valid()
      reads this
    {
      && tick >= 10_000_000
      && |registeredAt| == |pollsSeen| == |tasks|
      && forall i | 0 <= i < |tasks| ::
           tasks[i].interval >= tick
           && tasks[i].nextRun == Follow(registeredAt[i], tasks[i].interval, pollsSeen[i]).nextRun
    }

    constructor (interval: int)
      ensures Valid() && tick == Max(interval, 10_000_000) && tasks == []
    {
      tick := Max(interval, 10_000_000);
      tasks, registeredAt, pollsSeen := [], [], [];
    }

    method RegisterTask(name: string, interval: int, now: int)
      requires Valid()
      modifies this
      ensures Valid()
      ensures var effective := Max(interval, tick);
        && tasks == old(tasks) + [Task(name, effective, now + effective)]
        && registeredAt == old(registeredAt) + [now] && pollsSeen == old(pollsSeen) + [[]]
    {
      var effective := Max(interval, tick);
      tasks := tasks + [Task(name, effective, now + effective)];
      registeredAt, pollsSeen := registeredAt + [now], pollsSeen + [[]];
    }

    /** One turn of the loop: the tasks that fired, as indices in order; each task has followed its own trace. */
    method Poll(now: int) returns (fired: seq<nat>)
      requires Valid()
      modifies this
      ensures Valid()
      ensures |tasks| == |old(tasks)| && registeredAt == old(registeredAt)
      ensures forall i | 0 <= i < |tasks| ::
                tasks[i] == Visit(old(tasks)[i], now) && pollsSeen[i] == old(pollsSeen)[i] + [now]
      ensures forall i: nat :: i in fired <==> i < |tasks| && now >= old(tasks)[i].nextRun
      ensures forall i | 0 < i < |fired| :: fired[i - 1] < fired[i]
    {
      fired := [];
      ghost var seen := pollsSeen;
      for i := 0 to |tasks|
        invariant |tasks| == |old(tasks)| && |pollsSeen| == |tasks| && registeredAt == old(registeredAt)
        invariant forall j | 0 <= j < i :: tasks[j] == Visit(old(tasks)[j], now) && pollsSeen[j] == seen[j] + [now]
        invariant forall j | i <= j < |tasks| :: tasks[j] == old(tasks)[j] && pollsSeen[j] == seen[j]
        invariant forall j: nat :: j in fired <==> j < i && now >= old(tasks)[j].nextRun
        invariant forall j | 0 < j < |fired| :: fired[j - 1] < fired[j]
        invariant fired != [] ==> fired[|fired| - 1] < i
      {
        if now >= tasks[i].nextRun {
          fired := fired + [i];
          tasks := tasks[i := tasks[i].(nextRun := now + tasks[i].interval)];
        }
        pollsSeen := pollsSeen[i := pollsSeen[i] + [now]];
      }
      forall i | 0 <= i < |tasks|
        ensures tasks[i].nextRun == Follow(registeredAt[i], tasks[i].interval, pollsSeen[i]).nextRun
      {
        assert pollsSeen[i][..|seen[i]|] == seen[i];
      }
    }
  }
}
