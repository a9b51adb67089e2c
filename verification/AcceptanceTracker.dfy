/** Outcome counters per day and their totals (core/behavior/acceptance_tracker.py). */
module AcceptanceTrackers {
  import opened Common

  datatype Day = Day(ordinal: int)

  datatype Outcome = Accepted | Rejected | Ignored | Unsupported(text: string)

  datatype Stats = Stats(accepted: nat, rejected: nat, ignored: nat, overrides: nat)
  {
    function Plus(s: Stats): Stats {
      Stats(accepted + s.accepted, rejected + s.rejected, ignored + s.ignored, overrides + s.overrides)
    }

    function Attempts(): nat { accepted + rejected + ignored }
  }

  const ZERO := Stats(0, 0, 0, 0)

  datatype Metrics = Metrics(accepted: int, rejected: int, ignored: int, overrides: int, acceptanceRate: real)

  function Compute(s: Stats): Metrics {
    Metrics(s.accepted, s.rejected, s.ignored, s.overrides,
            if s.Attempts() == 0 then 0.0 else s.accepted as real / s.Attempts() as real)
  }

  /** One accepted call of record. */
  datatype Record = Record(outcome: Outcome, day: Day, overridden: bool)

  /** What is counted: the three outcomes, overrides, and every record. */
  datatype Kind = AcceptedKind | RejectedKind | IgnoredKind | OverrideKind

  predicate Matches(k: Kind, r: Record) {
    match k
    case AcceptedKind => r.outcome.Accepted?
    case RejectedKind => r.outcome.Rejected?
    case IgnoredKind => r.outcome.Ignored?
    case OverrideKind => r.overridden
  }

  /** How many of the first `n` records are of kind `k` and fall on one of `days`. */
  ghost function Count(records: seq<Record>, n: nat, days: set<Day>, k: Kind): nat
    requires n <= |records|
  {
    if n == 0 then 0
    else Count(records, n - 1, days, k) + if records[n - 1].day in days && Matches(k, records[n - 1]) then 1 else 0
  }

  ghost function StatsOn(records: seq<Record>, days: set<Day>): Stats {
    Stats(Count(records, |records|, days, AcceptedKind), Count(records, |records|, days, RejectedKind),
          Count(records, |records|, days, IgnoredKind), Count(records, |records|, days, OverrideKind))
  }

  lemma {:induction false} CountDisjoint(records: seq<Record>, n: nat, days: set<Day>, d: Day, k: Kind)
    requires n <= |records| && d !in days
    ensures Count(records, n, days + {d}, k) == Count(records, n, days, k) + Count(records, n, {d}, k)
  {
    if n > 0 { CountDisjoint(records, n - 1, days, d, k); }
  }

  lemma {:induction false} StatsOnDisjoint(records: seq<Record>, days: set<Day>, d: Day)
    requires d !in days
    ensures StatsOn(records, days + {d}) == StatsOn(records, days).Plus(StatsOn(records, {d}))
  {
    CountDisjoint(records, |records|, days, d, AcceptedKind);
    CountDisjoint(records, |records|, days, d, RejectedKind);
    CountDisjoint(records, |records|, days, d, IgnoredKind);
    CountDisjoint(records, |records|, days, d, OverrideKind);
  }

  lemma {:induction false} CountAbsent(records: seq<Record>, n: nat, days: set<Day>, k: Kind)
    requires n <= |records| && forall r | r in records :: r.day !in days
    ensures Count(records, n, days, k) == 0
  {
    if n > 0 {
      assert records[n - 1] in records;
      CountAbsent(records, n - 1, days, k);
    }
  }

  lemma {:induction false} StatsOnAbsent(records: seq<Record>, days: set<Day>)
    requires forall r | r in records :: r.day !in days
    ensures StatsOn(records, days) == ZERO
  {
    forall k { CountAbsent(records, |records|, days, k); }
  }

  lemma {:induction false} CountPrefix(records: seq<Record>, r: Record, n: nat, days: set<Day>, k: Kind)
    requires n <= |records|
    ensures Count(records + [r], n, days, k) == Count(records, n, days, k)
  {
    if n > 0 { CountPrefix(records, r, n - 1, days, k); }
  }

  function Tally(r: Record): Stats {
    Stats(if r.outcome.Accepted? then 1 else 0, if r.outcome.Rejected? then 1 else 0,
          if r.outcome.Ignored? then 1 else 0, if r.overridden then 1 else 0)
  }

  lemma {:induction false} StatsOnAppend(records: seq<Record>, r: Record, d: Day)
    ensures StatsOn(records + [r], {d})
         == if r.day == d then StatsOn(records, {d}).Plus(Tally(r)) else StatsOn(records, {d})
  {
    CountPrefix(records, r, |records|, {d}, AcceptedKind);
    CountPrefix(records, r, |records|, {d}, RejectedKind);
    CountPrefix(records, r, |records|, {d}, IgnoredKind);
    CountPrefix(records, r, |records|, {d}, OverrideKind);
  }

  /** Nothing is lost or counted twice: attempts over all days equal the number of recorded outcomes. */
  lemma {:induction false} AttemptsEqualRecords(records: seq<Record>, n: nat, days: set<Day>)
    requires n <= |records| && forall r | r in records :: r.day in days && !r.outcome.Unsupported?
    ensures Count(records, n, days, AcceptedKind) + Count(records, n, days, RejectedKind)
            + Count(records, n, days, IgnoredKind) == n
    ensures Count(records, n, days, OverrideKind) <= n
  {
    if n > 0 {
      assert records[n - 1] in records;
      AttemptsEqualRecords(records, n - 1, days);
    }
  }

  /** Reading days that were never recorded changes no total. */
  lemma {:induction false} EmptyDaysCountNothing(records: seq<Record>, n: nat, days: set<Day>, more: set<Day>, k: Kind)
    requires n <= |records| && forall r | r in records :: r.day in days
    ensures Count(records, n, days + more, k) == Count(records, n, days, k)
  {
    if n > 0 {
      assert records[n - 1] in records;
      EmptyDaysCountNothing(records, n - 1, days, more, k);
    }
  }

  /** The sum over all buckets, visited in any order, is the count over the whole record. */
  method SumBuckets(buckets: map<Day, Stats>, ghost records: seq<Record>) returns (total: Stats)
    requires forall d | d in buckets :: buckets[d] == StatsOn(records, {d})
    ensures total == StatsOn(records, buckets.Keys)
  {
    total := ZERO;
    var left := buckets.Keys;
    StatsOnAbsent(records, {});
    assert buckets.Keys - left == {};
    while left != {}
      invariant left <= buckets.Keys
      invariant total == StatsOn(records, buckets.Keys - left)
    {
      var day :| day in left;
      StatsOnDisjoint(records, buckets.Keys - left, day);
      assert buckets.Keys - left + {day} == buckets.Keys - (left - {day});
      total := total.Plus(buckets[day]);
      left := left - {day};
    }
    assert buckets.Keys - {} == buckets.Keys;
  }

  class AcceptanceTracker {
    var dailyStats: map<Day, Stats>
    ghost var records: seq<Record>

    /** Every bucket agrees with the records, and every record has its bucket. */
    ghost predicate Valid()
      reads this
    {
      && (forall d | d in dailyStats :: dailyStats[d] == StatsOn(records, {d}))
      && (forall r | r in records :: r.day in dailyStats && !r.outcome.Unsupported?)
    }

    constructor ()
      ensures Valid() && records == []
    {
      dailyStats, records := map[], [];
    }

    /** The default dictionary: reading a missing day creates an empty bucket. */
    method Bucket(day: Day) returns (s: Stats)
      requires Valid()
      modifies this`dailyStats
      ensures Valid() && s == StatsOn(records, {day})
      ensures dailyStats == old(dailyStats)[day := s]
    {
      if day !in dailyStats {
        StatsOnAbsent(records, {day});
        dailyStats := dailyStats[day := ZERO];
      }
      s := dailyStats[day];
    }

    method RecordOutcome(outcome: Outcome, day: Day, overridden: bool) returns (ok: bool)
      requires Valid()
      modifies this
      ensures Valid() && (ok <==> !outcome.Unsupported?)
      ensures records == if ok then old(records) + [Record(outcome, day, overridden)] else old(records)
      ensures ok ==>
        var before, after := old(StatsOn(records, {day})), StatsOn(records, {day});
        && after.accepted == before.accepted + (if outcome == Accepted then 1 else 0)
        && after.rejected == before.rejected + (if outcome == Rejected then 1 else 0)
        && after.ignored == before.ignored + (if outcome == Ignored then 1 else 0)
        && after.overrides == before.overrides + (if overridden then 1 else 0)
      ensures forall d: Day | d != day :: StatsOn(records, {d}) == old(StatsOn(records, {d}))
    {
      if outcome.Unsupported? {
        return false;
      }
      var bucket := Bucket(day);
      ghost var counted := bucket;
      ghost var r := Record(outcome, day, overridden);
      match outcome {
        case Accepted => bucket := bucket.(accepted := bucket.accepted + 1);
        case Rejected => bucket := bucket.(rejected := bucket.rejected + 1);
        case Ignored => bucket := bucket.(ignored := bucket.ignored + 1);
      }
      if overridden {
        bucket := bucket.(overrides := bucket.overrides + 1);
      }
      assert bucket == counted.Plus(Tally(r));
      forall d: Day { StatsOnAppend(records, r, d); }
      dailyStats := dailyStats[day := bucket];
      records := records + [r];
      ok := true;
    }

    method DailyMetrics(day: Day) returns (m: Metrics)
      requires Valid()
      modifies this`dailyStats
      ensures Valid() && m == Compute(StatsOn(records, {day}))
    {
      var stats := Bucket(day);
      m := Compute(stats);
    }

    method TotalMetrics() returns (m: Metrics)
      requires Valid()
      ensures m == Compute(StatsOn(records, dailyStats.Keys))
      ensures m.accepted + m.rejected + m.ignored == |records|
    {
      var total := SumBuckets(dailyStats, records);
      AttemptsEqualRecords(records, |records|, dailyStats.Keys);
      m := Compute(total);
    }
  }
}
