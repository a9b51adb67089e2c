/**
 Thread slot limiter (core/behavior/thread_limiter.py). acquire_slot takes the semaphore and then bumps a
 locked counter; release_slot drops the counter and then gives the semaphore back. The two halves are
 separate atomic steps, so arbitrarily many threads may be between them.
 */
module ThreadLimiters {
  import opened Common

  type Thread = nat

  /**
   `acquired` threads hold the semaphore but have not counted themselves; `releasing` threads have left the
   count but not returned the semaphore; `holders` counts, per thread, the slots it was granted and not given up.
   */
  datatype Limiter = Limiter(max: nat, semaphore: int, inUse: int, acquired: set<Thread>, releasing: set<Thread>,
                             holders: multiset<Thread>)

  datatype Step = Acquire(t: Thread) | CountUp(t: Thread) | CountDown(t: Thread) | Return(t: Thread)

  function Start(max: nat): Limiter { Limiter(max, max, 0, {}, {}, multiset{}) }

  /** A thread runs one call at a time, and a semaphore acquire succeeds only on a positive value. */
  predicate Enabled(s: Limiter, a: Step) {
    match a
    case Acquire(t) => t !in s.acquired && t !in s.releasing && s.semaphore > 0
    case CountUp(t) => t in s.acquired
    case CountDown(t) => t !in s.acquired && t !in s.releasing
    case Return(t) => t in s.releasing
  }

  function Next(s: Limiter, a: Step): Limiter
    requires Enabled(s, a)
  {
    match a
    case Acquire(t) => s.(semaphore := s.semaphore - 1, acquired := s.acquired + {t})
    case CountUp(t) => s.(inUse := s.inUse + 1, acquired := s.acquired - {t}, holders := s.holders + multiset{t})
    case CountDown(t) =>
      var s' := s.(holders := s.holders - multiset{t});
      if s.inUse < 1 then s' else s'.(inUse := s.inUse - 1, releasing := s.releasing + {t})
    case Return(t) => s.(semaphore := s.semaphore + 1, releasing := s.releasing - {t})
  }

  ghost predicate IsRun(states: seq<Limiter>, steps: seq<Step>, max: nat) {
    && |states| == |steps| + 1 && states[0] == Start(max)
    && forall i | 0 <= i < |steps| :: Enabled(states[i], steps[i]) && states[i + 1] == Next(states[i], steps[i])
  }

  /** Every slot is in exactly one place. */
  ghost predicate Conserved(s: Limiter) {
    s.semaphore + s.inUse + |s.acquired| + |s.releasing| == s.max && s.semaphore >= 0 && s.inUse >= 0
  }

  lemma Grows(threads: set<Thread>, t: Thread)
    requires t !in threads
    ensures |threads + {t}| == |threads| + 1
  {
  }

  lemma Shrinks(threads: set<Thread>, t: Thread)
    requires t in threads
    ensures |threads - {t}| == |threads| - 1
  {
  }

  lemma StepConserves(s: Limiter, a: Step)
    requires Conserved(s) && Enabled(s, a)
    ensures Conserved(Next(s, a)) && Next(s, a).max == s.max
  {
    match a
    case Acquire(t) => Grows(s.acquired, t);
    case CountUp(t) => Shrinks(s.acquired, t);
    case CountDown(t) => Grows(s.releasing, t);
    case Return(t) => Shrinks(s.releasing, t);
  }

  function Available(s: Limiter): int { Max(0, s.max - s.inUse) }

  /**
   For every interleaving, unmatched releases included: slots are conserved, the count stays in range, a
   pending semaphore return is always legal for a bounded semaphore, and available_slots overstates the
   semaphore by exactly the number of threads caught between their two halves.
   */
  lemma {:induction false} SlotAccounting(states: seq<Limiter>, steps: seq<Step>, max: nat, k: nat)
    requires IsRun(states, steps, max) && k <= |steps|
    ensures Conserved(states[k]) && states[k].max == max
    ensures 0 <= states[k].inUse <= max && 0 <= states[k].semaphore <= max
    ensures forall t | Enabled(states[k], Return(t)) :: states[k].semaphore < max
    ensures Available(states[k]) == states[k].semaphore + |states[k].acquired| + |states[k].releasing|
    decreases k
  {
    if k > 0 {
      SlotAccounting(states, steps, max, k - 1);
      StepConserves(states[k - 1], steps[k - 1]);
    }
    forall t | t in states[k].releasing ensures |states[k].releasing| > 0 {
    }
  }

  // ---- Do the holders stay within the limit? --------------------------------------------

  /** A release that gives up a slot its caller was never granted. */
  ghost predicate Theft(s: Limiter, a: Step) { a.CountDown? && s.inUse >= 1 && a.t !in s.holders }

  /** A release that finds nothing in use although its caller was granted a slot. */
  ghost predicate Lost(s: Limiter, a: Step) { a.CountDown? && s.inUse < 1 && a.t in s.holders }

  ghost function Thefts(states: seq<Limiter>, steps: seq<Step>, k: nat): int
    requires k <= |steps| && k <= |states|
  {
    if k == 0 then 0
    else Thefts(states, steps, k - 1)
         + (if Theft(states[k - 1], steps[k - 1]) then 1 else 0) - (if Lost(states[k - 1], steps[k - 1]) then 1 else 0)
  }

  /** Granted slots exceed the count by exactly the unmatched releases not yet absorbed. */
  lemma {:induction false} HoldersExceedCountByThefts(states: seq<Limiter>, steps: seq<Step>, max: nat, k: nat)
    requires IsRun(states, steps, max) && k <= |steps|
    ensures |states[k].holders| == states[k].inUse + Thefts(states, steps, k)
    decreases k
  {
    if k > 0 {
      HoldersExceedCountByThefts(states, steps, max, k - 1);
      var s, a := states[k - 1], steps[k - 1];
      if a.CountDown? && a.t !in s.holders {
        assert s.holders - multiset{a.t} == s.holders;
      }
    }
  }

  /** Unmatched releases are absorbed only as far as there were any. */
  lemma {:induction false} TheftsNeverNegative(states: seq<Limiter>, steps: seq<Step>, max: nat, k: nat)
    requires IsRun(states, steps, max) && k <= |steps|
    ensures Thefts(states, steps, k) >= 0
    decreases k
  {
    if k > 0 {
      TheftsNeverNegative(states, steps, max, k - 1);
      HoldersExceedCountByThefts(states, steps, max, k - 1);
      SlotAccounting(states, steps, max, k - 1);
      var s, a := states[k - 1], steps[k - 1];
      if Lost(s, a) {
        assert s.holders == (s.holders - multiset{a.t}) + multiset{a.t};
      }
    }
  }

  /** From step `k` on, every release is made by a holder. */
  ghost predicate MatchedFrom(states: seq<Limiter>, steps: seq<Step>, k: nat)
    requires |steps| <= |states|
  {
    forall i | k <= i < |steps| && steps[i].CountDown? :: steps[i].t in states[i].holders
  }

  /** With no unmatched release outstanding, releases by holders keep the count exact, hence the limit. */
  lemma {:induction false} MatchedKeepsExact(states: seq<Limiter>, steps: seq<Step>, max: nat, k: nat, n: nat)
    requires IsRun(states, steps, max) && k <= n <= |steps| && MatchedFrom(states, steps, k)
    requires Thefts(states, steps, k) == 0
    ensures Thefts(states, steps, n) == 0 && |states[n].holders| == states[n].inUse <= max
    decreases n
  {
    HoldersExceedCountByThefts(states, steps, max, n);
    SlotAccounting(states, steps, max, n);
    if n > k {
      MatchedKeepsExact(states, steps, max, k, n - 1);
      var s, a := states[n - 1], steps[n - 1];
      if a.CountDown? {
        assert s.holders == (s.holders - multiset{a.t}) + multiset{a.t};
      }
    }
  }

  /** The limit on concurrent holders holds throughout every run whose releases are made by holders. */
  lemma MatchedReleasesKeepLimit(states: seq<Limiter>, steps: seq<Step>, max: nat, k: nat)
    requires IsRun(states, steps, max) && k <= |steps| && MatchedFrom(states, steps, 0)
    ensures |states[k].holders| == states[k].inUse <= max
  {
    MatchedKeepsExact(states, steps, max, 0, k);
  }

  // ---- Exactly when the limit can still be broken ----------------------------------------

  /** `states'` and `steps'` go on from a run, and from then on only holders release. */
  ghost predicate GoesOn(states: seq<Limiter>, steps: seq<Step>, states': seq<Limiter>, steps': seq<Step>, max: nat) {
    IsRun(states', steps', max) && states <= states' && steps <= steps' && MatchedFrom(states', steps', |steps|)
  }

  lemma {:induction false} TheftsOfPrefix(states: seq<Limiter>, steps: seq<Step>,
                                          states': seq<Limiter>, steps': seq<Step>, k: nat)
    requires states <= states' && steps <= steps' && k <= |steps| && k <= |states|
    ensures Thefts(states', steps', k) == Thefts(states, steps, k)
    decreases k
  {
    if k > 0 { TheftsOfPrefix(states, steps, states', steps', k - 1); }
  }

  lemma TakeStep(states: seq<Limiter>, steps: seq<Step>, max: nat, a: Step)
    returns (states': seq<Limiter>, steps': seq<Step>)
    requires IsRun(states, steps, max) && Enabled(states[|steps|], a) && !a.CountDown?
    ensures GoesOn(states, steps, states', steps', max)
    ensures |steps'| == |steps| + 1 && states'[|steps'|] == Next(states[|steps|], a)
  {
    states', steps' := states + [Next(states[|steps|], a)], steps + [a];
  }

  lemma GoesOnTransitive(states: seq<Limiter>, steps: seq<Step>, states': seq<Limiter>, steps': seq<Step>,
                         states'': seq<Limiter>, steps'': seq<Step>, max: nat)
    requires GoesOn(states, steps, states', steps', max) && GoesOn(states', steps', states'', steps'', max)
    ensures GoesOn(states, steps, states'', steps'', max)
  {
    forall i | |steps| <= i < |steps''| && steps''[i].CountDown? ensures steps''[i].t in states''[i].holders {
      if i < |steps'| { assert steps''[i] == steps'[i] && states''[i] == states'[i]; }
    }
  }

  /** Calls in progress finish, then newcomers take every free slot: no release is needed for that. */
  lemma {:induction false} FillUp(states: seq<Limiter>, steps: seq<Step>, max: nat)
    returns (states': seq<Limiter>, steps': seq<Step>)
    requires IsRun(states, steps, max)
    ensures GoesOn(states, steps, states', steps', max)
    ensures Thefts(states', steps', |steps'|) == Thefts(states, steps, |steps|)
    ensures states'[|steps'|].inUse == max
    decreases max - states[|steps|].inUse, |states[|steps|].releasing|, states[|steps|].semaphore
  {
    var s := states[|steps|];
    SlotAccounting(states, steps, max, |steps|);
    if s.inUse == max {
      states', steps' := states, steps;
    } else {
      var a := if s.acquired != {} then (var t :| t in s.acquired; CountUp(t))
               else if s.releasing != {} then (var t :| t in s.releasing; Return(t))
               else Acquire(0);
      if a.Return? { Shrinks(s.releasing, a.t); }
      var states1, steps1 := TakeStep(states, steps, max, a);
      TheftsOfPrefix(states, steps, states1, steps1, |steps|);
      states', steps' := FillUp(states1, steps1, max);
      GoesOnTransitive(states, steps, states1, steps1, states', steps', max);
    }
  }

  /**
   After any run, the limit can be broken by a continuation in which only holders release, exactly if some unmatched
   release is still outstanding; then the holders reach the limit plus all of those.
   */
  lemma LimitBreakableExactly(states: seq<Limiter>, steps: seq<Step>, max: nat)
    requires IsRun(states, steps, max)
    ensures Thefts(states, steps, |steps|) >= 0
    ensures Thefts(states, steps, |steps|) > 0 <==>
            exists states': seq<Limiter>, steps' ::
              GoesOn(states, steps, states', steps', max) && |states'[|steps'|].holders| > max
  {
    TheftsNeverNegative(states, steps, max, |steps|);
    if Thefts(states, steps, |steps|) > 0 {
      var states', steps' := FillUp(states, steps, max);
      HoldersExceedCountByThefts(states', steps', max, |steps'|);
      assert GoesOn(states, steps, states', steps', max) && |states'[|steps'|].holders| > max;
    } else {
      forall states': seq<Limiter>, steps' | GoesOn(states, steps, states', steps', max)
        ensures |states'[|steps'|].holders| <= max
      {
        TheftsOfPrefix(states, steps, states', steps', |steps|);
        MatchedKeepsExact(states', steps', max, |steps|, |steps'|);
      }
    }
  }

  /** One unmatched release is enough to oversubscribe: with every slot taken, a stranger frees one for a newcomer. */
  lemma UnmatchedReleaseOversubscribes(s: Limiter, stranger: Thread, newcomer: Thread)
    requires Conserved(s) && s.max >= 1 && s.inUse == s.max == |s.holders| && s.acquired == s.releasing == {}
    requires stranger !in s.holders
    ensures Enabled(s, CountDown(stranger))
    ensures var s1 := Next(s, CountDown(stranger));
      && Enabled(s1, Return(stranger))
      && var s2 := Next(s1, Return(stranger));
         && Enabled(s2, Acquire(newcomer))
         && var s3 := Next(s2, Acquire(newcomer));
            && Enabled(s3, CountUp(newcomer))
            && |Next(s3, CountUp(newcomer)).holders| == s.max + 1
  {
    var s1 := Next(s, CountDown(stranger));
    assert s1.holders == s.holders;
    assert s1.releasing == {stranger};
    assert s1.releasing - {stranger} == {};
  }

  /** The state that needs: `n` threads have each acquired one of `max` slots. */
  lemma {:induction false} FillSlots(max: nat, n: nat) returns (states: seq<Limiter>, steps: seq<Step>)
    requires n <= max
    ensures IsRun(states, steps, max)
    ensures var s := states[|steps|];
      && s.inUse == n == |s.holders| && s.acquired == s.releasing == {} && s.semaphore == max - n && s.max == max
      && forall t | t in s.holders :: t < n
  {
    if n == 0 {
      states, steps := [Start(max)], [];
    } else {
      states, steps := FillSlots(max, n - 1);
      var s := states[|steps|];
      var s1 := Next(s, Acquire(n - 1));
      assert s1.acquired == {n - 1};
      var s2 := Next(s1, CountUp(n - 1));
      assert s2.acquired == {};
      states, steps := states + [s1, s2], steps + [Acquire(n - 1), CountUp(n - 1)];
    }
  }

  /** So for every limit, some run with a single unmatched release grants one slot too many. */
  lemma OversubscriptionReachable(max: nat)
    requires max >= 1
    ensures exists states: seq<Limiter>, steps :: IsRun(states, steps, max) && |states[|steps|].holders| == max + 1
  {
    var states, steps := FillSlots(max, max);
    var s := states[|steps|];
    UnmatchedReleaseOversubscribes(s, max, max + 1);
    var s1 := Next(s, CountDown(max));
    var s2 := Next(s1, Return(max));
    var s3 := Next(s2, Acquire(max + 1));
    var s4 := Next(s3, CountUp(max + 1));
    var states', steps' := states + [s1, s2, s3, s4],
                           steps + [CountDown(max), Return(max), Acquire(max + 1), CountUp(max + 1)];
    assert IsRun(states', steps', max) && |states'[|steps'|].holders| == max + 1;
  }

  // ---- The limiter object, used by one thread at a time ----------------------------------

  /** A whole call of one thread: both halves, or just the refusing first one. */
  ghost function Acquired(s: Limiter, t: Thread): Limiter {
    if Enabled(s, Acquire(t)) then Next(Next(s, Acquire(t)), CountUp(t)) else s
  }

  ghost function Released(s: Limiter, t: Thread): Limiter
    requires Enabled(s, CountDown(t))
  {
    var s' := Next(s, CountDown(t));
    if Enabled(s', Return(t)) then Next(s', Return(t)) else s'
  }

  class ThreadLimiter {
    const maxThreads: nat
    var semaphore: nat
    var inUse: nat
    ghost var model: Limiter

    /** The fields are those of a limiter with no call in progress. */
    ghost predicate Valid()
      reads this
    {
      && maxThreads >= 1 && Conserved(model) && model.max == maxThreads
      && model.semaphore == semaphore && model.inUse == inUse && model.acquired == model.releasing == {}
    }

    constructor (max: nat)
      requires max >= 1
      ensures Valid() && maxThreads == max && model == Start(max)
    {
      maxThreads, semaphore, inUse, model := max, max, 0, Start(max);
    }

    method AcquireSlot(ghost t: Thread) returns (granted: bool)
      requires Valid()
      modifies this
      ensures Valid() && model == Acquired(old(model), t)
      ensures granted == (old(inUse) < maxThreads) && inUse == old(inUse) + if granted then 1 else 0
    {
      if semaphore == 0 {
        return false;
      }
      semaphore := semaphore - 1;
      assert {t} - {t} == {} && model.acquired + {t} == {t};
      model := Acquired(model, t);
      inUse := inUse + 1;
      return true;
    }

    method ReleaseSlot(ghost t: Thread)
      requires Valid()
      modifies this
      ensures Valid() && model == Released(old(model), t)
      ensures inUse == Max(0, old(inUse) - 1)
    {
      assert {t} - {t} == {} && model.acquired + {t} == {t};
      model := Released(model, t);
      if inUse < 1 {
        return;
      }
      inUse := inUse - 1;
      semaphore := semaphore + 1;
    }

    method AvailableSlots() returns (n: int)
      requires Valid()
      ensures n == semaphore == maxThreads - inUse
    {
      n := Max(0, maxThreads - inUse);
    }
  }
}
