/** `run_forever`: two intervals served by one sleep. Time is what the sleeps add up to. */
module PollScheduler {

  /** What a run did, and when: waking, polling the tracker, polling feedback; and the sleeps in between. */
  datatype Log = Log(wakes: seq<int>, trackerPolls: seq<int>, feedbackPolls: seq<int>, sleeps: seq<int>)

  function Min(a: int, b: int): int {
    if a < b then a else b
  }

  predicate Multiple(t: int, p: int)
    requires p > 0
  {
    t % p == 0
  }

  /** Every multiple of `p` from 0 up to `until`, in order. */
  function Multiples(p: int, until: nat): (r: seq<int>)
    requires p > 0
    ensures |r| == until / p + 1 && forall i :: 0 <= i < |r| ==> r[i] == i * p
  {
    seq(until / p + 1, i => i * p)
  }

  lemma LessTimes(a: int, b: int, p: int)
    requires p > 0 && a * p < b * p
    ensures a < b
  {
    var d := a - b;
    assert d * p == a * p - b * p;
    assert d >= 0 ==> d * p >= 0;
  }

  lemma QuotientIs(t: int, p: int, k: int)
    requires p > 0 && k * p <= t < k * p + p
    ensures t / p == k && t % p == t - k * p
  {
    var q := t / p;
    assert q * p <= t < q * p + p;
    assert (k + 1) * p == k * p + p && (q + 1) * p == q * p + p;
    LessTimes(q, k + 1, p);
    LessTimes(k, q + 1, p);
  }

  lemma MultipleInside(p: int, until: nat, i: int)
    requires p > 0 && 0 <= i <= until / p
    ensures 0 <= i * p <= until && Multiple(i * p, p)
  {
    QuotientIs(i * p, p, i);
    Times(i, until / p, p);
    Times(0, i, p);
    assert (until / p) * p <= until;
  }

  lemma InsideMultiple(p: int, until: nat, t: int)
    requires p > 0 && 0 <= t <= until && Multiple(t, p)
    ensures 0 <= t / p <= until / p && (t / p) * p == t
  {
    var k, n := t / p, until / p;
    assert t == k * p && until < n * p + p;
    assert (n + 1) * p == n * p + p;
    LessTimes(k, n + 1, p);
    assert (k + 1) * p == k * p + p && 0 * p == 0;
    LessTimes(0, k + 1, p);
  }

  /** The list holds each multiple up to `until` once, in order, and nothing else. */
  lemma MultiplesAre(p: int, until: nat, t: int)
    requires p > 0
    ensures t in Multiples(p, until) <==> 0 <= t <= until && Multiple(t, p)
    ensures Increasing(Multiples(p, until))
  {
    hide Multiples, Multiple;
    var all := Multiples(p, until);
    if t in all {
      var i :| 0 <= i < |all| && all[i] == t;
      MultipleInside(p, until, i);
    }
    if 0 <= t <= until && Multiple(t, p) {
      InsideMultiple(p, until, t);
      assert all[t / p] == t;
    }
    forall i, j | 0 <= i < j < |all| ensures all[i] < all[j] {
      TimesLess(i, j, p);
    }
  }

  lemma TimesLess(a: int, b: int, p: int)
    requires p > 0 && a < b
    ensures a * p < b * p
  {
    Times(a, b - 1, p);
    assert b * p == (b - 1) * p + p;
  }

  lemma Times(a: int, b: int, p: int)
    requires p > 0 && a <= b
    ensures a * p <= b * p
  {
    assert (b - a) * p >= 0;
    assert (b - a) * p == b * p - a * p;
  }

  predicate Increasing(times: seq<int>) {
    forall i, j :: 0 <= i < j < |times| ==> times[i] < times[j]
  }

  /** Some poll is due at this time. */
  predicate Due(t: int, p: int, q: int) {
    p > 0 && q > 0 && (Multiple(t, p) || Multiple(t, q))
  }

  /** The elapsed counter measures the time since the latest multiple of the interval, all of which were polled. */
  predicate Counts(polls: seq<int>, now: int, elapsed: int, p: int) {
    && now - elapsed == (|polls| - 1) * p
    && forall i :: 0 <= i < |polls| ==> polls[i] == i * p
  }

  lemma CountsPoll(polls: seq<int>, now: int, p: int)
    requires Counts(polls, now, p, p)
    ensures Counts(polls + [now], now, 0, p)
  {
    assert (|polls| - 1) * p == |polls| * p - p;
  }

  lemma CountsDone(polls: seq<int>, now: nat, elapsed: int, p: int)
    requires p > 0 && 0 <= elapsed < p && |polls| >= 1 && Counts(polls, now, elapsed, p)
    ensures polls == Multiples(p, now)
    ensures Multiple(now, p) <==> elapsed == 0
  {
    QuotientIs(now, p, |polls| - 1);
  }

  /** Nothing is due strictly between two wakes. */
  lemma NothingBetween(polls: seq<int>, now: nat, elapsed: int, p: int, t: int)
    requires p > 0 && 0 <= elapsed < p && |polls| >= 1 && Counts(polls, now, elapsed, p)
    requires now < t < now + (p - elapsed)
    ensures !Multiple(t, p)
  {
    QuotientIs(t, p, |polls| - 1);
  }

  class IntakeSchedule {
    const pollInterval: int
    const prPollInterval: int

    constructor (pollInterval: int, prPollInterval: int)
      ensures this.pollInterval == pollInterval && this.prPollInterval == prPollInterval
    {
      this.pollInterval, this.prPollInterval := pollInterval, prPollInterval;
    }

    predicate Positive() {
      pollInterval > 0 && prPollInterval > 0
    }

    /** With positive intervals a run wakes exactly at the multiples of either interval, polls the tracker at every
        multiple of the one and feedback at every multiple of the other, and always sleeps; with any other interval it
        does not. */
    method RunForever(maxIterations: nat) returns (log: Log)
      ensures |log.wakes| == maxIterations && |log.sleeps| == if maxIterations == 0 then 0 else maxIterations - 1
      ensures maxIterations == 0 ==> log == Log([], [], [], [])
      ensures maxIterations > 0 ==> log.wakes[0] == 0
      ensures forall i :: 0 <= i < |log.sleeps| ==> log.sleeps[i] == log.wakes[i + 1] - log.wakes[i]
      ensures maxIterations > 0 && Positive() ==>
                && Increasing(log.wakes)
                && var until := log.wakes[maxIterations - 1];
                && until >= 0
                && log.trackerPolls == Multiples(pollInterval, until)
                && log.feedbackPolls == Multiples(prPollInterval, until)
                && (forall t :: 0 <= t <= until ==> (t in log.wakes <==> Due(t, pollInterval, prPollInterval)))
      ensures maxIterations >= 2 ==> ((forall i :: 0 <= i < |log.sleeps| ==> log.sleeps[i] > 0) <==> Positive())
    {
      hide Multiples, Due, Counts, Running, Served, Increasing, Chained, Awake, Min;
      var iteration := 0;
      var trackerElapsed, feedbackElapsed := pollInterval, prPollInterval;
      var now := 0;
      log := Log([], [], [], []);
      StartsRunning();
      while iteration < maxIterations
        invariant 0 <= iteration < maxIterations || (iteration == 0 == maxIterations)
        invariant Chained(log, iteration, now)
        invariant iteration == 0 ==> log == Log([], [], [], [])
        invariant iteration == 0 ==> trackerElapsed == pollInterval && feedbackElapsed == prPollInterval
        invariant Positive() ==> Running(log, now, trackerElapsed, feedbackElapsed)
        decreases maxIterations - iteration
      {
        ChainedWakes(log, iteration, now);
        log, trackerElapsed, feedbackElapsed := Wake(log, now, trackerElapsed, feedbackElapsed);
        iteration := iteration + 1;
        if iteration >= maxIterations {
          if Positive() { Serves(log, now, trackerElapsed, feedbackElapsed); }
          ChainedEnds(log, iteration, now);
          break;
        }
        var sleepSeconds := Min(pollInterval - trackerElapsed, prPollInterval - feedbackElapsed);
        if Positive() {
          Slept(log, now, trackerElapsed, feedbackElapsed, sleepSeconds);
        }
        ChainedSleeps(log, iteration, now, sleepSeconds);
        log := log.(sleeps := log.sleeps + [sleepSeconds]);
        now := now + sleepSeconds;
        trackerElapsed := trackerElapsed + sleepSeconds;
        feedbackElapsed := feedbackElapsed + sleepSeconds;
      }
    }

    /** Wakes and sleeps fit together, and the first sleep is the shorter interval. */
    predicate Chained(log: Log, iteration: nat, now: int) {
      && iteration == |log.wakes| == |log.sleeps|
      && (iteration == 0 ==> now == 0)
      && (iteration > 0 ==> log.wakes[0] == 0 && now == log.wakes[iteration - 1] + log.sleeps[iteration - 1])
      && (forall i :: 0 <= i < iteration - 1 ==> log.sleeps[i] == log.wakes[i + 1] - log.wakes[i])
      && (iteration > 0 ==> log.sleeps[0] == Min(pollInterval, prPollInterval))
    }

    /** The same, awake: the latest wake is not followed by a sleep yet. */
    predicate Awake(log: Log, iteration: nat, now: int) {
      && iteration == |log.wakes| == |log.sleeps| + 1
      && log.wakes[0] == 0 && log.wakes[iteration - 1] == now
      && (forall i :: 0 <= i < iteration - 1 ==> log.sleeps[i] == log.wakes[i + 1] - log.wakes[i])
      && (iteration > 1 ==> log.sleeps[0] == Min(pollInterval, prPollInterval))
    }

    lemma ChainedWakes(log: Log, iteration: nat, now: int)
      requires Chained(log, iteration, now)
      ensures forall next: Log :: next.wakes == log.wakes + [now] && next.sleeps == log.sleeps
                                  ==> Awake(next, iteration + 1, now)
    {
    }

    lemma ChainedSleeps(log: Log, iteration: nat, now: int, sleep: int)
      requires Awake(log, iteration, now) && (iteration == 1 ==> sleep == Min(pollInterval, prPollInterval))
      ensures Chained(log.(sleeps := log.sleeps + [sleep]), iteration, now + sleep)
    {
    }

    lemma ChainedEnds(log: Log, iteration: nat, now: int)
      requires Awake(log, iteration, now)
      ensures iteration == |log.wakes| == |log.sleeps| + 1 && log.wakes[0] == 0 && log.wakes[iteration - 1] == now
      ensures forall i :: 0 <= i < |log.sleeps| ==> log.sleeps[i] == log.wakes[i + 1] - log.wakes[i]
      ensures iteration >= 2 && (forall i :: 0 <= i < |log.sleeps| ==> log.sleeps[i] > 0) ==> Positive()
    {
    }

    method Wake(before: Log, now: int, te: int, fe: int) returns (log: Log, trackerElapsed: int, feedbackElapsed: int)
      requires Positive() ==> Running(before, now, te, fe)
      ensures log.wakes == before.wakes + [now] && log.sleeps == before.sleeps
      ensures trackerElapsed == (if te >= pollInterval then 0 else te)
      ensures feedbackElapsed == (if fe >= prPollInterval then 0 else fe)
      ensures log.trackerPolls == (if te >= pollInterval then before.trackerPolls + [now] else before.trackerPolls)
      ensures log.feedbackPolls == (if fe >= prPollInterval then before.feedbackPolls + [now] else before.feedbackPolls)
      ensures Positive() ==> Served(log, now, trackerElapsed, feedbackElapsed)
    {
      hide Multiples, Due, Counts, Served, Increasing;
      log := before.(wakes := before.wakes + [now]);
      trackerElapsed, feedbackElapsed := te, fe;
      if trackerElapsed >= pollInterval {
        if Positive() { CountsPoll(log.trackerPolls, now, pollInterval); }
        log := log.(trackerPolls := log.trackerPolls + [now]);
        trackerElapsed := 0;
      }
      if feedbackElapsed >= prPollInterval {
        if Positive() { CountsPoll(log.feedbackPolls, now, prPollInterval); }
        log := log.(feedbackPolls := log.feedbackPolls + [now]);
        feedbackElapsed := 0;
      }
      if Positive() {
        Woken(before, log, now, te, fe, trackerElapsed, feedbackElapsed);
      }
    }

    lemma StartsRunning()
      ensures Chained(Log([], [], [], []), 0, 0)
      ensures Positive() ==> Running(Log([], [], [], []), 0, pollInterval, prPollInterval)
    {
    }

    lemma Serves(log: Log, now: int, trackerElapsed: int, feedbackElapsed: int)
      requires Served(log, now, trackerElapsed, feedbackElapsed)
      ensures now >= 0 && pollInterval > 0 && prPollInterval > 0 && Increasing(log.wakes)
      ensures log.trackerPolls == Multiples(pollInterval, now) && log.feedbackPolls == Multiples(prPollInterval, now)
      ensures forall t :: 0 <= t <= now ==> (t in log.wakes <==> Due(t, pollInterval, prPollInterval))
      ensures forall i :: 0 <= i < |log.sleeps| ==> log.sleeps[i] > 0
    {
    }

    /** About to wake at `now`: everything due earlier was served, and nothing lies in between. */
    predicate Running(log: Log, now: int, trackerElapsed: int, feedbackElapsed: int) {
      && now >= 0 && pollInterval > 0 && prPollInterval > 0
      && 0 < trackerElapsed <= pollInterval && 0 < feedbackElapsed <= prPollInterval
      && (trackerElapsed == pollInterval || feedbackElapsed == prPollInterval)
      && (|log.wakes| > 0 ==> |log.trackerPolls| >= 1 && |log.feedbackPolls| >= 1)
      && (|log.wakes| == 0 ==> trackerElapsed == pollInterval && feedbackElapsed == prPollInterval)
      && Counts(log.trackerPolls, now, trackerElapsed, pollInterval)
      && Counts(log.feedbackPolls, now, feedbackElapsed, prPollInterval)
      && Increasing(log.wakes) && (forall i :: 0 <= i < |log.wakes| ==> 0 <= log.wakes[i] < now)
      && (forall t :: 0 <= t < now ==> (t in log.wakes <==> Due(t, pollInterval, prPollInterval)))
      && (forall i :: 0 <= i < |log.sleeps| ==> log.sleeps[i] > 0)
    }

    /** Awake at `now`, with everything due served. */
    predicate Served(log: Log, now: int, trackerElapsed: int, feedbackElapsed: int) {
      && now >= 0 && pollInterval > 0 && prPollInterval > 0
      && 0 <= trackerElapsed < pollInterval && 0 <= feedbackElapsed < prPollInterval
      && |log.trackerPolls| >= 1 && |log.feedbackPolls| >= 1 && |log.wakes| >= 1 && log.wakes[|log.wakes| - 1] == now
      && Counts(log.trackerPolls, now, trackerElapsed, pollInterval)
      && Counts(log.feedbackPolls, now, feedbackElapsed, prPollInterval)
      && log.trackerPolls == Multiples(pollInterval, now) && log.feedbackPolls == Multiples(prPollInterval, now)
      && Increasing(log.wakes) && (forall i :: 0 <= i < |log.wakes| ==> 0 <= log.wakes[i] <= now)
      && (forall t :: 0 <= t <= now ==> (t in log.wakes <==> Due(t, pollInterval, prPollInterval)))
      && (forall i :: 0 <= i < |log.sleeps| ==> log.sleeps[i] > 0)
    }

    lemma Woken(before: Log, log: Log, now: int, te: int, fe: int, trackerElapsed: int, feedbackElapsed: int)
      requires Running(before, now, te, fe)
      requires trackerElapsed == (if te >= pollInterval then 0 else te)
      requires feedbackElapsed == (if fe >= prPollInterval then 0 else fe)
      requires log.trackerPolls == (if te >= pollInterval then before.trackerPolls + [now] else before.trackerPolls)
      requires log.feedbackPolls
               == (if fe >= prPollInterval then before.feedbackPolls + [now] else before.feedbackPolls)
      requires log.wakes == before.wakes + [now] && log.sleeps == before.sleeps
      requires Counts(log.trackerPolls, now, trackerElapsed, pollInterval)
      requires Counts(log.feedbackPolls, now, feedbackElapsed, prPollInterval)
      ensures Served(log, now, trackerElapsed, feedbackElapsed)
    {
      CountsDone(log.trackerPolls, now, trackerElapsed, pollInterval);
      CountsDone(log.feedbackPolls, now, feedbackElapsed, prPollInterval);
      forall t | 0 <= t <= now ensures t in log.wakes <==> Due(t, pollInterval, prPollInterval) {
        assert t == now ==> t in log.wakes;
        assert t < now ==> (t in log.wakes <==> t in before.wakes);
      }
    }

    lemma Slept(log: Log, now: int, trackerElapsed: int, feedbackElapsed: int, sleep: int)
      requires Served(log, now, trackerElapsed, feedbackElapsed)
      requires sleep == Min(pollInterval - trackerElapsed, prPollInterval - feedbackElapsed)
      ensures sleep > 0
      ensures Running(log.(sleeps := log.sleeps + [sleep]), now + sleep,
                      trackerElapsed + sleep, feedbackElapsed + sleep)
    {
      forall t | 0 <= t < now + sleep ensures t in log.wakes <==> Due(t, pollInterval, prPollInterval) {
        if t > now {
          NothingBetween(log.trackerPolls, now, trackerElapsed, pollInterval, t);
          NothingBetween(log.feedbackPolls, now, feedbackElapsed, prPollInterval, t);
        }
      }
    }
  }
}
