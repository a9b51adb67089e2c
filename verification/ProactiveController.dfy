/**
 Proactive suggestion controller (core/cognition/proactive_controller.py): a daily budget, a sliding window
 over evaluations and a per-key cooldown, enforced together by counters, a deque and a dictionary. The ranked
 candidates are an arbitrary input.
 */
module ProactiveControllers {
  import opened Common
  import opened AcceptanceTrackers
  import opened Calibration

  datatype Limits = Limits(daily: nat, window: nat, perWindow: nat, cooldown: nat)
  {
    predicate Valid() { daily >= 1 && window >= 1 && perWindow >= 1 && cooldown >= 1 }
  }

  datatype Candidate = Candidate(key: string, confidence: real)

  /** A suggestion made during evaluation number `step`. */
  datatype Suggestion = Suggestion(step: int, day: Day, key: string)

  type History = seq<Suggestion>

  // ---- Specification on histories -------------------------------------------------------

  ghost function DayCount(h: History, d: Day): nat {
    if h == [] then 0 else DayCount(h[..|h| - 1], d) + if h[|h| - 1].day == d then 1 else 0
  }

  /** Suggestions made in evaluations `lo` to `hi`. */
  ghost function SpanCount(h: History, lo: int, hi: int): nat {
    if h == [] then 0 else SpanCount(h[..|h| - 1], lo, hi) + if lo <= h[|h| - 1].step <= hi then 1 else 0
  }

  ghost predicate Suppressed(lim: Limits, h: History, key: string, now: int) {
    exists i | 0 <= i < |h| :: h[i].key == key && now - h[i].step <= lim.cooldown
  }

  ghost predicate Full(lim: Limits, h: History, day: Day, now: int) {
    DayCount(h, day) >= lim.daily || SpanCount(h, now - lim.window + 1, now) >= lim.perWindow
  }

  /** Taking candidates in rank order: every confident one with a cool key, until the budget or window is full. */
  ghost function Grow(lim: Limits, h: History, now: int, day: Day, threshold: real, ranked: seq<Candidate>): History
    decreases |ranked|
  {
    if ranked == [] || Full(lim, h, day, now) then h
    else if ranked[0].confidence < threshold || Suppressed(lim, h, ranked[0].key, now) then
      Grow(lim, h, now, day, threshold, ranked[1..])
    else Grow(lim, h + [Suggestion(now, day, ranked[0].key)], now, day, threshold, ranked[1..])
  }

  /** One evaluation: its day, whether silent or restricted mode mutes it, the threshold in force, the candidates. */
  datatype Request = Request(day: Day, muted: bool, threshold: real, ranked: seq<Candidate>)

  ghost function Advance(lim: Limits, h: History, now: int, r: Request): History {
    if r.muted then h else Grow(lim, h, now, r.day, r.threshold, r.ranked)
  }

  ghost function After(lim: Limits, requests: seq<Request>): History {
    if requests == [] then []
    else Advance(lim, After(lim, requests[..|requests| - 1]), |requests|, requests[|requests| - 1])
  }

  ghost predicate Sorted(h: History, now: int) {
    && (forall i, j | 0 <= i <= j < |h| :: h[i].step <= h[j].step)
    && (forall i | 0 <= i < |h| :: 1 <= h[i].step <= now)
  }

  /** Any `perWindow` consecutive suggestions are followed by the next only a full window after the first. */
  ghost predicate Spaced(lim: Limits, h: History) {
    forall i, j | 0 <= i < j < |h| && j - i == lim.perWindow :: h[j].step >= h[i].step + lim.window
  }

  ghost predicate Cooled(lim: Limits, h: History) {
    forall i, j | 0 <= i < j < |h| && h[i].key == h[j].key :: h[j].step - h[i].step > lim.cooldown
  }

  ghost predicate WithinBudget(lim: Limits, h: History) {
    forall d :: DayCount(h, d) <= lim.daily
  }

  ghost predicate Limited(lim: Limits, h: History, now: int) {
    Sorted(h, now) && Spaced(lim, h) && Cooled(lim, h) && WithinBudget(lim, h)
  }

  lemma DayCountAppend(h: History, s: Suggestion, d: Day)
    ensures DayCount(h + [s], d) == DayCount(h, d) + if s.day == d then 1 else 0
  {
    assert (h + [s])[..|h|] == h;
  }

  lemma {:induction false} SpanCountAtLeast(h: History, lo: int, hi: int, m: nat)
    requires m <= |h| && forall i | m <= i < |h| :: lo <= h[i].step <= hi
    ensures SpanCount(h, lo, hi) >= |h| - m
    decreases |h|
  {
    if m < |h| { SpanCountAtLeast(h[..|h| - 1], lo, hi, m); }
  }

  lemma {:induction false} SpanCountAtMost(h: History, lo: int, hi: int, m: nat)
    requires m <= |h| && forall i | 0 <= i < m :: h[i].step < lo
    ensures SpanCount(h, lo, hi) <= |h| - m
    decreases |h|
  {
    if h != [] { SpanCountAtMost(h[..|h| - 1], lo, hi, if m == |h| then m - 1 else m); }
  }

  lemma AcceptKeepsSpacing(lim: Limits, h: History, now: int, s: Suggestion)
    requires lim.Valid() && Sorted(h, now) && Spaced(lim, h) && s.step == now
    requires SpanCount(h, now - lim.window + 1, now) < lim.perWindow
    ensures Spaced(lim, h + [s])
  {
    var h' := h + [s];
    forall i, j | 0 <= i < j < |h'| && j - i == lim.perWindow ensures h'[j].step >= h'[i].step + lim.window {
      if j == |h| && h[i].step > now - lim.window {
        SpanCountAtLeast(h, now - lim.window + 1, now, i);
        assert false;
      }
    }
  }

  lemma AcceptKeepsCooling(lim: Limits, h: History, now: int, s: Suggestion)
    requires Cooled(lim, h) && s.step == now && !Suppressed(lim, h, s.key, now)
    ensures Cooled(lim, h + [s])
  {
    var h' := h + [s];
    forall i, j | 0 <= i < j < |h'| && h'[i].key == h'[j].key ensures h'[j].step - h'[i].step > lim.cooldown {
      if j == |h| {
        assert !(h[i].key == s.key && now - h[i].step <= lim.cooldown);
      }
    }
  }

  lemma AcceptKeepsLimits(lim: Limits, h: History, now: int, day: Day, key: string)
    requires lim.Valid() && Limited(lim, h, now) && now >= 1
    requires !Full(lim, h, day, now) && !Suppressed(lim, h, key, now)
    ensures Limited(lim, h + [Suggestion(now, day, key)], now)
  {
    var s := Suggestion(now, day, key);
    AcceptKeepsSpacing(lim, h, now, s);
    AcceptKeepsCooling(lim, h, now, s);
    forall d ensures DayCount(h + [s], d) <= lim.daily {
      DayCountAppend(h, s, d);
    }
  }

  lemma {:induction false} GrowKeepsLimits(lim: Limits, h: History, now: int, day: Day, threshold: real,
                                           ranked: seq<Candidate>)
    requires lim.Valid() && Limited(lim, h, now) && now >= 1
    ensures Limited(lim, Grow(lim, h, now, day, threshold, ranked), now)
    decreases |ranked|
  {
    if ranked != [] && !Full(lim, h, day, now) {
      if ranked[0].confidence < threshold || Suppressed(lim, h, ranked[0].key, now) {
        GrowKeepsLimits(lim, h, now, day, threshold, ranked[1..]);
      } else {
        AcceptKeepsLimits(lim, h, now, day, ranked[0].key);
        GrowKeepsLimits(lim, h + [Suggestion(now, day, ranked[0].key)], now, day, threshold, ranked[1..]);
      }
    }
  }

  lemma AfterStep(lim: Limits, requests: seq<Request>, r: Request)
    ensures After(lim, requests + [r]) == Advance(lim, After(lim, requests), |requests| + 1, r)
  {
    assert (requests + [r])[..|requests|] == requests;
  }

  lemma LimitedLater(lim: Limits, h: History, now: int)
    requires Limited(lim, h, now)
    ensures Limited(lim, h, now + 1)
  {
  }

  lemma {:induction false} RunKeepsLimits(lim: Limits, requests: seq<Request>)
    requires lim.Valid()
    ensures Limited(lim, After(lim, requests), |requests|)
    decreases |requests|
  {
    if requests != [] {
      var n := |requests| - 1;
      var h, r := After(lim, requests[..n]), requests[n];
      RunKeepsLimits(lim, requests[..n]);
      LimitedLater(lim, h, n);
      if !r.muted {
        GrowKeepsLimits(lim, h, n + 1, r.day, r.threshold, r.ranked);
      }
    }
  }

  lemma {:induction false} SpacedBoundsWindow(lim: Limits, h: History, now: int, lo: int)
    requires lim.Valid() && Sorted(h, now) && Spaced(lim, h)
    ensures SpanCount(h, lo, lo + lim.window - 1) <= lim.perWindow
    decreases |h|
  {
    if h != [] {
      var n := |h| - 1;
      if lo <= h[n].step <= lo + lim.window - 1 {
        if n < lim.perWindow {
          SpanCountAtMost(h, lo, lo + lim.window - 1, 0);
        } else {
          var m := n - lim.perWindow;
          assert h[n].step >= h[m].step + lim.window;
          assert forall i | 0 <= i <= m :: h[i].step <= h[m].step;
          SpanCountAtMost(h, lo, lo + lim.window - 1, m + 1);
        }
      } else {
        SpacedBoundsWindow(lim, h[..n], now, lo);
      }
    }
  }

  /**
   The three limits together, over every run of evaluations with arbitrary days, modes, thresholds and
   candidates: any window of consecutive evaluations, any day, any two suggestions of one key.
   */
  lemma RateLimits(lim: Limits, requests: seq<Request>, lo: int, d: Day, i: nat, j: nat)
    requires lim.Valid()
    ensures var h := After(lim, requests);
      && SpanCount(h, lo, lo + lim.window - 1) <= lim.perWindow
      && DayCount(h, d) <= lim.daily
      && (i < j < |h| && h[i].key == h[j].key ==> h[j].step - h[i].step > lim.cooldown)
  {
    RunKeepsLimits(lim, requests);
    SpacedBoundsWindow(lim, After(lim, requests), |requests|, lo);
  }

  lemma {:induction false} GrowKeepsSuppressed(lim: Limits, h: History, now: int, day: Day, threshold: real,
                                               ranked: seq<Candidate>, key: string)
    requires Suppressed(lim, h, key, now)
    ensures var h' := Grow(lim, h, now, day, threshold, ranked); h <= h' && Suppressed(lim, h', key, now)
    decreases |ranked|
  {
    if ranked != [] && !Full(lim, h, day, now) {
      var h1 := if ranked[0].confidence < threshold || Suppressed(lim, h, ranked[0].key, now) then h
                else h + [Suggestion(now, day, ranked[0].key)];
      var i :| 0 <= i < |h| && h[i].key == key && now - h[i].step <= lim.cooldown;
      assert h1[i] == h[i];
      GrowKeepsSuppressed(lim, h1, now, day, threshold, ranked[1..], key);
    }
  }

  /** Nothing is withheld without cause: a growth that stops early is full, and skips only unfit candidates. */
  lemma {:induction false} GrowIsMaximal(lim: Limits, h: History, now: int, day: Day, threshold: real,
                                         ranked: seq<Candidate>, c: Candidate)
    requires c in ranked && c.confidence >= threshold
    ensures var h' := Grow(lim, h, now, day, threshold, ranked);
      && h <= h'
      && (|| DayCount(h', day) >= lim.daily
          || SpanCount(h', now - lim.window + 1, now) >= lim.perWindow
          || exists i :: 0 <= i < |h'| && h'[i].key == c.key && now - h'[i].step <= lim.cooldown)
    decreases |ranked|
  {
    if !Full(lim, h, day, now) {
      var h1 := if ranked[0].confidence < threshold || Suppressed(lim, h, ranked[0].key, now) then h
                else h + [Suggestion(now, day, ranked[0].key)];
      if ranked[0] == c {
        assert Suppressed(lim, h1, c.key, now) by {
          if h1 != h { assert h1[|h|].key == c.key; }
        }
        GrowKeepsSuppressed(lim, h1, now, day, threshold, ranked[1..], c.key);
      } else {
        GrowIsMaximal(lim, h1, now, day, threshold, ranked[1..], c);
      }
    }
  }

  /** Nothing is suggested without merit: only confident candidates, in this evaluation, on this day. */
  lemma {:induction false} GrowOnlyConfident(lim: Limits, h: History, now: int, day: Day, threshold: real,
                                             ranked: seq<Candidate>)
    ensures var h' := Grow(lim, h, now, day, threshold, ranked);
      && h <= h' && |h'| <= |h| + |ranked|
      && forall i | |h| <= i < |h'| ::
           && h'[i].step == now && h'[i].day == day
           && exists c | c in ranked :: c.key == h'[i].key && c.confidence >= threshold
    decreases |ranked|
  {
    if ranked != [] && !Full(lim, h, day, now) {
      var h1 := if ranked[0].confidence < threshold || Suppressed(lim, h, ranked[0].key, now) then h
                else h + [Suggestion(now, day, ranked[0].key)];
      GrowOnlyConfident(lim, h1, now, day, threshold, ranked[1..]);
      assert ranked[0] in ranked && forall c | c in ranked[1..] :: c in ranked;
    }
  }

  // ---- The controller object ------------------------------------------------------------

  function Used(daily: map<Day, nat>, day: Day): nat {
    if day in daily then daily[day] else 0
  }

  /** The counters are the day counts of the history. */
  ghost predicate CountersAgree(daily: map<Day, nat>, h: History) {
    forall d :: Used(daily, d) == DayCount(h, d)
  }

  /** The step at which `key` was last suggested. */
  ghost function LastStep(h: History, key: string): Option<int> {
    if h == [] then None
    else if h[|h| - 1].key == key then Some(h[|h| - 1].step)
    else LastStep(h[..|h| - 1], key)
  }

  function Lookup(last: map<string, int>, key: string): Option<int> {
    if key in last then Some(last[key]) else None
  }

  /** The dictionary holds the latest step of every suggested key. */
  ghost predicate LastStepsAgree(last: map<string, int>, h: History) {
    forall k :: Lookup(last, k) == LastStep(h, k)
  }

  /** The deque holds the steps of the newest suggestions; what it dropped is older than `lo`. */
  ghost predicate DequeAgrees(recent: seq<int>, h: History, lo: int) {
    && |recent| <= |h|
    && (forall i | 0 <= i < |recent| :: recent[i] == h[|h| - |recent| + i].step)
    && (forall i | 0 <= i < |h| - |recent| :: h[i].step < lo)
  }

  lemma {:induction false} LastStepDecides(lim: Limits, h: History, key: string, now: int, end: int)
    requires Sorted(h, end)
    ensures Suppressed(lim, h, key, now) <==> LastStep(h, key).Some? && now - LastStep(h, key).value <= lim.cooldown
    decreases |h|
  {
    if h != [] {
      var n := |h| - 1;
      LastStepDecides(lim, h[..n], key, now, end);
      if h[n].key == key {
        if Suppressed(lim, h, key, now) {
          var i :| 0 <= i < |h| && h[i].key == key && now - h[i].step <= lim.cooldown;
          assert h[i].step <= h[n].step;
        }
      } else {
        assert Suppressed(lim, h, key, now) ==> Suppressed(lim, h[..n], key, now) by {
          if Suppressed(lim, h, key, now) {
            var i :| 0 <= i < |h| && h[i].key == key && now - h[i].step <= lim.cooldown;
            assert h[..n][i] == h[i];
          }
        }
        assert Suppressed(lim, h[..n], key, now) ==> Suppressed(lim, h, key, now) by {
          if Suppressed(lim, h[..n], key, now) {
            var i :| 0 <= i < n && h[..n][i].key == key && now - h[..n][i].step <= lim.cooldown;
            assert h[i] == h[..n][i];
          }
        }
      }
    }
  }

  lemma DequeCountsWindow(recent: seq<int>, h: History, lo: int, now: int)
    requires DequeAgrees(recent, h, lo) && Sorted(h, now) && (recent != [] ==> recent[0] >= lo)
    ensures SpanCount(h, lo, now) == |recent|
  {
    var m := |h| - |recent|;
    SpanCountAtMost(h, lo, now, m);
    if recent != [] {
      assert recent[0] == h[m].step;
    }
    SpanCountAtLeast(h, lo, now, m);
  }

  lemma CountersStep(daily: map<Day, nat>, h: History, s: Suggestion)
    requires CountersAgree(daily, h)
    ensures CountersAgree(daily[s.day := Used(daily, s.day) + 1], h + [s])
  {
    forall d ensures Used(daily[s.day := Used(daily, s.day) + 1], d) == DayCount(h + [s], d) {
      DayCountAppend(h, s, d);
    }
  }

  lemma LastStepsStep(last: map<string, int>, h: History, s: Suggestion)
    requires LastStepsAgree(last, h)
    ensures LastStepsAgree(last[s.key := s.step], h + [s])
  {
    assert (h + [s])[..|h|] == h;
    forall k ensures Lookup(last[s.key := s.step], k) == LastStep(h + [s], k) {
      assert Lookup(last, k) == LastStep(h, k);
    }
  }

  /** The controller's records: suggestions per day, latest step per key, steps still in the window. */
  datatype Books = Books(daily: map<Day, nat>, last: map<string, int>, recent: seq<int>)

  function Enter(b: Books, now: int, day: Day, key: string): Books {
    Books(b.daily[day := Used(b.daily, day) + 1], b.last[key := now], b.recent + [now])
  }

  predicate NoRoom(lim: Limits, b: Books, day: Day) { Used(b.daily, day) >= lim.daily || |b.recent| >= lim.perWindow }

  predicate TooSoon(lim: Limits, b: Books, now: int, key: string) { key in b.last && now - b.last[key] <= lim.cooldown }

  /** What the loop over ranked candidates computes from the books alone: the new books and the keys chosen. */
  function Choose(lim: Limits, b: Books, now: int, day: Day, threshold: real,
                  ranked: seq<Candidate>): (Books, seq<string>)
    decreases |ranked|
  {
    if ranked == [] then (b, [])
    else
      var c, rest := ranked[0], ranked[1..];
      if c.confidence < threshold then Choose(lim, b, now, day, threshold, rest)
      else if NoRoom(lim, b, day) then (b, [])
      else if TooSoon(lim, b, now, c.key) then Choose(lim, b, now, day, threshold, rest)
      else
        var (b', keys) := Choose(lim, Enter(b, now, day, c.key), now, day, threshold, rest);
        (b', [c.key] + keys)
  }

  ghost function Prepended(keys: seq<string>, chosen: (Books, seq<string>)): (Books, seq<string>) {
    (chosen.0, keys + chosen.1)
  }

  lemma ChooseUnfold(lim: Limits, b: Books, now: int, day: Day, threshold: real, ranked: seq<Candidate>, i: nat,
                     keys: seq<string>)
    requires i < |ranked|
    ensures var c, rest := ranked[i], ranked[i + 1..];
      Prepended(keys, Choose(lim, b, now, day, threshold, ranked[i..])) ==
        if c.confidence < threshold then Prepended(keys, Choose(lim, b, now, day, threshold, rest))
        else if NoRoom(lim, b, day) then (b, keys)
        else if TooSoon(lim, b, now, c.key) then Prepended(keys, Choose(lim, b, now, day, threshold, rest))
        else Prepended(keys + [c.key], Choose(lim, Enter(b, now, day, c.key), now, day, threshold, rest))
  {
    var c, rest := ranked[i], ranked[i + 1..];
    assert ranked[i..][0] == c && ranked[i..][1..] == rest;
    var more := Choose(lim, Enter(b, now, day, c.key), now, day, threshold, rest).1;
    assert keys + ([c.key] + more) == keys + [c.key] + more && keys + [] == keys;
  }

  /** The books during evaluation `now`, after eviction. */
  ghost predicate InSync(lim: Limits, b: Books, h: History, now: int) {
    && lim.Valid() && now >= 1 && Limited(lim, h, now)
    && CountersAgree(b.daily, h) && LastStepsAgree(b.last, h)
    && DequeAgrees(b.recent, h, now - lim.window + 1)
    && (b.recent != [] ==> b.recent[0] >= now - lim.window + 1)
  }

  lemma BooksDecide(lim: Limits, b: Books, h: History, now: int, day: Day, key: string)
    requires InSync(lim, b, h, now)
    ensures Full(lim, h, day, now) <==> NoRoom(lim, b, day)
    ensures Suppressed(lim, h, key, now) <==> TooSoon(lim, b, now, key)
  {
    DequeCountsWindow(b.recent, h, now - lim.window + 1, now);
    LastStepDecides(lim, h, key, now, now);
    assert Lookup(b.last, key) == LastStep(h, key);
    assert Used(b.daily, day) == DayCount(h, day);
  }

  lemma DequeStep(recent: seq<int>, h: History, lo: int, s: Suggestion)
    requires DequeAgrees(recent, h, lo)
    ensures DequeAgrees(recent + [s.step], h + [s], lo)
  {
  }

  lemma BooksStep(lim: Limits, b: Books, h: History, now: int, day: Day, key: string)
    requires InSync(lim, b, h, now)
    requires !Full(lim, h, day, now) && !Suppressed(lim, h, key, now)
    ensures InSync(lim, Enter(b, now, day, key), h + [Suggestion(now, day, key)], now)
  {
    var s := Suggestion(now, day, key);
    AcceptKeepsLimits(lim, h, now, day, key);
    CountersStep(b.daily, h, s);
    LastStepsStep(b.last, h, s);
    DequeStep(b.recent, h, now - lim.window + 1, s);
  }

  ghost function Suggestions(now: int, day: Day, keys: seq<string>): History {
    seq(|keys|, i requires 0 <= i < |keys| => Suggestion(now, day, keys[i]))
  }

  lemma SuggestionsPrepend(h: History, now: int, day: Day, key: string, keys: seq<string>)
    ensures h + [Suggestion(now, day, key)] + Suggestions(now, day, keys) == h + Suggestions(now, day, [key] + keys)
    ensures h + Suggestions(now, day, []) == h
  {
  }

  lemma {:induction false} ChooseNothing(lim: Limits, b: Books, now: int, day: Day, threshold: real,
                                         ranked: seq<Candidate>)
    requires NoRoom(lim, b, day)
    ensures Choose(lim, b, now, day, threshold, ranked) == (b, [])
    decreases |ranked|
  {
    if ranked != [] { ChooseNothing(lim, b, now, day, threshold, ranked[1..]); }
  }

  /** Deciding by counters, dictionary and deque is deciding by the whole history. */
  lemma {:induction false} ChooseIsGrow(lim: Limits, b: Books, h: History, now: int, day: Day, threshold: real,
                                        ranked: seq<Candidate>)
    requires InSync(lim, b, h, now)
    ensures var (b', keys) := Choose(lim, b, now, day, threshold, ranked);
      var h' := Grow(lim, h, now, day, threshold, ranked);
      InSync(lim, b', h', now) && h' == h + Suggestions(now, day, keys)
    decreases |ranked|
  {
    SuggestionsPrepend(h, now, day, "", []);
    if ranked != [] {
      var c, rest := ranked[0], ranked[1..];
      BooksDecide(lim, b, h, now, day, c.key);
      if NoRoom(lim, b, day) {
        ChooseNothing(lim, b, now, day, threshold, ranked);
      } else if c.confidence < threshold || TooSoon(lim, b, now, c.key) {
        ChooseIsGrow(lim, b, h, now, day, threshold, rest);
      } else {
        BooksStep(lim, b, h, now, day, c.key);
        ChooseIsGrow(lim, Enter(b, now, day, c.key), h + [Suggestion(now, day, c.key)], now, day, threshold, rest);
        SuggestionsPrepend(h, now, day, c.key, Choose(lim, Enter(b, now, day, c.key), now, day, threshold, rest).1);
      }
    }
  }

  lemma {:induction false} ChosenAreConfident(lim: Limits, b: Books, now: int, day: Day, threshold: real,
                                              ranked: seq<Candidate>)
    ensures forall k | k in Choose(lim, b, now, day, threshold, ranked).1 ::
              exists c | c in ranked :: c.key == k && c.confidence >= threshold
    decreases |ranked|
  {
    if ranked != [] {
      ChosenAreConfident(lim, b, now, day, threshold, ranked[1..]);
      ChosenAreConfident(lim, Enter(b, now, day, ranked[0].key), now, day, threshold, ranked[1..]);
      assert ranked[0] in ranked && forall c | c in ranked[1..] :: c in ranked;
    }
  }

  /** Between evaluations: the history is what the requests so far specify, and the books agree with it. */
  ghost predicate Kept(lim: Limits, b: Books, h: History, requests: seq<Request>) {
    && lim.Valid() && h == After(lim, requests)
    && CountersAgree(b.daily, h) && LastStepsAgree(b.last, h)
    && DequeAgrees(b.recent, h, |requests| - lim.window + 1)
  }

  lemma DequeLater(recent: seq<int>, h: History, lo: int)
    requires DequeAgrees(recent, h, lo)
    ensures DequeAgrees(recent, h, lo + 1)
  {
  }

  lemma SkippedEvaluation(lim: Limits, b: Books, h: History, requests: seq<Request>, r: Request)
    requires Kept(lim, b, h, requests) && (r.muted || Used(b.daily, r.day) >= lim.daily)
    ensures Kept(lim, b, h, requests + [r])
  {
    AfterStep(lim, requests, r);
    assert Used(b.daily, r.day) == DayCount(h, r.day);
    DequeLater(b.recent, h, |requests| - lim.window + 1);
  }

  lemma ChosenEvaluation(lim: Limits, b: Books, recent: seq<int>, h: History, requests: seq<Request>, r: Request)
    requires Kept(lim, b, h, requests) && !r.muted
    requires var lo := |requests| + 2 - lim.window; DequeAgrees(recent, h, lo) && (recent != [] ==> recent[0] >= lo)
    ensures var (b', keys) := Choose(lim, b.(recent := recent), |requests| + 1, r.day, r.threshold, r.ranked);
      Kept(lim, b', h + Suggestions(|requests| + 1, r.day, keys), requests + [r])
  {
    RunKeepsLimits(lim, requests);
    LimitedLater(lim, h, |requests|);
    AfterStep(lim, requests, r);
    ChooseIsGrow(lim, b.(recent := recent), h, |requests| + 1, r.day, r.threshold, r.ranked);
  }

  class ProactiveController {
    const limits: Limits
    const calibration: CalibrationConfig
    const tracker: AcceptanceTracker
    var confidenceThreshold: real
    var silentMode: bool
    var dailyCount: map<Day, nat>
    var evaluationSequence: nat
    var recentSteps: seq<int>
    var lastStepByKey: map<string, int>
    ghost var history: History
    ghost var requests: seq<Request>

    ghost predicate Valid()
      reads this
    {
      && calibration.Normal() && evaluationSequence == |requests|
      && Kept(limits, Books(dailyCount, lastStepByKey, recentSteps), history, requests)
    }

    constructor (lim: Limits, threshold: real, cal: CalibrationConfig)
      requires lim.Valid() && 0.0 <= threshold <= 1.0 && cal.Normal()
      ensures Valid() && history == [] && requests == [] && confidenceThreshold == threshold
      ensures limits == lim && calibration == cal && fresh(tracker) && tracker.Valid() && tracker.records == []
    {
      limits, calibration, confidenceThreshold, silentMode := lim, cal, threshold, false;
      dailyCount, evaluationSequence, recentSteps, lastStepByKey := map[], 0, [], map[];
      history, requests := [], [];
      tracker := new AcceptanceTracker();
    }

    method EvictOldWindowEntries(sequence: int)
      requires DequeAgrees(recentSteps, history, sequence - limits.window + 1)
      modifies this`recentSteps
      ensures DequeAgrees(recentSteps, history, sequence - limits.window + 1)
      ensures recentSteps != [] ==> recentSteps[0] >= sequence - limits.window + 1
    {
      var minAllowed := sequence - limits.window + 1;
      while recentSteps != [] && recentSteps[0] < minAllowed
        invariant DequeAgrees(recentSteps, history, minAllowed)
        decreases |recentSteps|
      {
        recentSteps := recentSteps[1..];
      }
    }

    /** The loop over ranked candidates. */
    method Select(now: int, day: Day, ranked: seq<Candidate>) returns (keys: seq<string>)
      modifies this`recentSteps, this`dailyCount, this`lastStepByKey
      ensures (Books(dailyCount, lastStepByKey, recentSteps), keys)
           == Choose(limits, old(Books(dailyCount, lastStepByKey, recentSteps)), now, day, confidenceThreshold, ranked)
    {
      ghost var goal := Choose(limits, Books(dailyCount, lastStepByKey, recentSteps), now, day,
                               confidenceThreshold, ranked);
      keys := [];
      assert ranked[0..] == ranked && [] + goal.1 == goal.1;
      for i := 0 to |ranked|
        invariant goal == Prepended(keys, Choose(limits, Books(dailyCount, lastStepByKey, recentSteps), now, day,
                                                 confidenceThreshold, ranked[i..]))
      {
        var c := ranked[i];
        ChooseUnfold(limits, Books(dailyCount, lastStepByKey, recentSteps), now, day, confidenceThreshold, ranked,
                     i, keys);
        if c.confidence < confidenceThreshold {
          continue;
        }
        if Used(dailyCount, day) >= limits.daily {
          break;
        }
        if |recentSteps| >= limits.perWindow {
          break;
        }
        if c.key in lastStepByKey && now - lastStepByKey[c.key] <= limits.cooldown {
          continue;
        }
        keys := keys + [c.key];
        dailyCount := dailyCount[day := Used(dailyCount, day) + 1];
        recentSteps := recentSteps + [now];
        lastStepByKey := lastStepByKey[c.key := now];
      }
      assert keys + [] == keys;
    }

    /** The keys suggested now are exactly what the history specification adds for this request. */
    method Evaluate(day: Day, restricted: bool, ranked: seq<Candidate>) returns (keys: seq<string>)
      requires Valid()
      modifies this`evaluationSequence, this`recentSteps, this`dailyCount, this`lastStepByKey
      modifies this`history, this`requests
      ensures Valid()
      ensures var r := Request(day, old(silentMode) || restricted, old(confidenceThreshold), ranked);
        requests == old(requests) + [r]
      ensures history == old(history) + Suggestions(evaluationSequence, day, keys)
      ensures old(silentMode) || restricted ==> keys == []
      ensures forall k | k in keys :: exists c | c in ranked :: c.key == k && c.confidence >= confidenceThreshold
    {
      ghost var r := Request(day, silentMode || restricted, confidenceThreshold, ranked);
      ghost var before, earlier := Books(dailyCount, lastStepByKey, recentSteps), requests;
      evaluationSequence, requests := evaluationSequence + 1, requests + [r];
      keys := [];
      if silentMode || restricted || Used(dailyCount, day) >= limits.daily {
        SkippedEvaluation(limits, before, history, earlier, r);
        return;
      }
      DequeLater(recentSteps, history, |earlier| - limits.window + 1);
      EvictOldWindowEntries(evaluationSequence);
      ChosenEvaluation(limits, before, recentSteps, history, earlier, r);
      ChosenAreConfident(limits, before.(recent := recentSteps), evaluationSequence, day, confidenceThreshold, ranked);
      keys := Select(evaluationSequence, day, ranked);
      history := history + Suggestions(evaluationSequence, day, keys);
    }

    method SetSilentMode(enabled: bool)
      requires Valid()
      modifies this`silentMode
      ensures Valid() && silentMode == enabled
    {
      silentMode := enabled;
    }

    method RecalibrateThreshold() returns (updated: real)
      requires Valid() && tracker.Valid()
      modifies this`confidenceThreshold
      ensures Valid() && updated == confidenceThreshold
      ensures calibration.minThreshold <= confidenceThreshold <= calibration.maxThreshold
      ensures confidenceThreshold == UpdateThreshold(calibration, old(confidenceThreshold),
                                       Compute(StatsOn(tracker.records, tracker.dailyStats.Keys)))
    {
      var metrics := tracker.TotalMetrics();
      updated := UpdateThreshold(calibration, confidenceThreshold, metrics);
      confidenceThreshold := updated;
    }

    method RecordOutcome(outcome: Outcome, day: Day, overridden: bool) returns (ok: bool)
      requires Valid() && tracker.Valid()
      modifies this`confidenceThreshold, tracker
      ensures Valid() && tracker.Valid() && (ok <==> !outcome.Unsupported?)
      ensures !ok ==> confidenceThreshold == old(confidenceThreshold) && tracker.records == old(tracker.records)
      ensures ok ==> tracker.records == old(tracker.records) + [Record(outcome, day, overridden)]
      ensures ok ==> confidenceThreshold == UpdateThreshold(calibration, old(confidenceThreshold),
                                              Compute(StatsOn(tracker.records, tracker.dailyStats.Keys)))
    {
      ok := tracker.RecordOutcome(outcome, day, overridden);
      if ok {
        var updated := RecalibrateThreshold();
      }
    }
  }
}
