/** Sidekiq::Scheduled::Poller: how long each Sidekiq process sleeps between two drains of
    the scheduled sets, and the drain it runs when it wakes.

    The registry size (Sidekiq::ProcessSet.new.size) and the draw of `rand`, a real in [0, 1),
    are inputs; the configuration entries `poll_interval_average` and
    `average_scheduled_poll_interval` are fields of the Poller. Sleeping, the sleeper queue and
    the poller thread are not part of this model. */
module ScheduledPoller {
  import opened Wrappers
  import opened SortedSets
  import opened Redis
  import opened ScheduledEnq

  /** Seconds every process waits at start-up, unless the poll average is configured
      (INITIAL_WAIT), to let the heartbeats of the cluster register. */
  const InitialWait: real := 10.0
  /** Width of the random part of the start-up wait, in seconds. */
  const InitialJitter: real := 5.0
  /** Clusters smaller than this sleep within 50% of the average rather than from 0. */
  const SmallCluster: nat := 10

  /** process_count: the number of live Sidekiq processes, counting this one even before
      its first heartbeat has registered. */
  function ProcessCount(registrySize: nat): (n: nat)
    ensures n >= 1
    ensures registrySize == 0 ==> n == 1
    ensures registrySize > 0 ==> n == registrySize
  {
    if registrySize == 0 then 1 else registrySize
  }

  /** scaled_poll_interval: each process polls `ProcessCount` times less often than the
      configured interval, so that the cluster as a whole polls once per `base` seconds. */
  function ScaledPollInterval(registrySize: nat, base: real): (r: real)
    ensures r / ProcessCount(registrySize) as real == base
    ensures base >= 0.0 ==> r >= base
  {
    ProcessCount(registrySize) as real * base
  }

  /** The interval of random_poll_interval for a cluster of `processCount` processes, an
      average `average` and a draw `u` of `rand`: within 50% of the average below ten
      processes, anywhere below the average from ten on. */
  function RandomInterval(processCount: nat, average: real, u: real): (r: real)
    requires 0.0 <= u < 1.0
    ensures average > 0.0 && processCount < SmallCluster ==>
              average / 2.0 <= r < average * 3.0 / 2.0
    ensures average > 0.0 && processCount >= SmallCluster ==> 0.0 <= r < average
  {
    var spread := average * u;
    Scale(average, u, spread);
    if processCount < SmallCluster then spread + average / 2.0 else spread
  }

  /** A draw of [0, 1) scales a positive average into [0, average). */
  lemma Scale(average: real, u: real, spread: real)
    requires 0.0 <= u < 1.0 && spread == average * u
    ensures average > 0.0 ==> 0.0 <= spread < average
  {
    if average > 0.0 {
      assert average - average * u == average * (1.0 - u);
    }
  }

  /** The inverse of Scale: for `x` in [0, average), `x / average` is a draw of [0, 1)
      that scales back to `x`. */
  lemma Unscale(average: real, x: real)
    requires average > 0.0 && 0.0 <= x < average
    ensures 0.0 <= x / average < 1.0 && average * (x / average) == x
  {
    var u := x / average;
    assert u * average == x;
    if u >= 1.0 {
      assert x - average == (u - 1.0) * average;
      NonNegativeProduct(u - 1.0, average);
    }
  }

  /** The product of a non-negative and a positive real is non-negative. */
  lemma NonNegativeProduct(a: real, c: real)
    requires a >= 0.0 && c > 0.0
    ensures a * c >= 0.0
  {
  }

  /** Every interval of the range is the outcome of some draw. */
  lemma RandomIntervalCovers(processCount: nat, average: real, t: real)
    requires average > 0.0
    requires processCount < SmallCluster ==> average / 2.0 <= t < average * 3.0 / 2.0
    requires processCount >= SmallCluster ==> 0.0 <= t < average
    ensures exists u: real :: 0.0 <= u < 1.0 && RandomInterval(processCount, average, u) == t
  {
    var x := if processCount < SmallCluster then t - average / 2.0 else t;
    Unscale(average, x);
    assert RandomInterval(processCount, average, x / average) == t;
  }

  /** Draws `u` and `1 - u` give intervals that average to `average` below ten processes
      and to half of it from ten on: the sleep is centred on the poll average for a small
      cluster, and spread evenly over [0, average) for a large one. */
  lemma RandomIntervalCentred(processCount: nat, average: real, u: real)
    requires 0.0 < u < 1.0
    ensures processCount < SmallCluster ==>
              RandomInterval(processCount, average, u) + RandomInterval(processCount, average, 1.0 - u)
              == 2.0 * average
    ensures processCount >= SmallCluster ==>
              RandomInterval(processCount, average, u) + RandomInterval(processCount, average, 1.0 - u)
              == average
  {
    assert average * u + average * (1.0 - u) == average;
  }

  class Poller {
    /** Sidekiq.options[:poll_interval_average]: configured, or cached on first use. */
    var pollIntervalAverage: Option<real>
    /** Sidekiq.options[:average_scheduled_poll_interval]. */
    const base: real

    constructor (configured: Option<real>, base: real)
      ensures pollIntervalAverage == configured && this.base == base
    {
      pollIntervalAverage := configured;
      this.base := base;
    }

    /** poll_interval_average: the configured or cached value if there is one; otherwise
        the scaled interval for the current cluster, which is stored and used from then on. */
    method PollIntervalAverage(registrySize: nat) returns (average: real)
      modifies this
      ensures old(pollIntervalAverage).Some? ==>
                average == old(pollIntervalAverage).value && pollIntervalAverage == old(pollIntervalAverage)
      ensures old(pollIntervalAverage).None? ==>
                average == ScaledPollInterval(registrySize, base) && pollIntervalAverage == Some(average)
    {
      if pollIntervalAverage.None? {
        pollIntervalAverage := Some(ScaledPollInterval(registrySize, base));
      }
      average := pollIntervalAverage.value;
    }

    /** random_poll_interval: the cluster size is read again on every call, while the
        average is the one fixed by the first call (or by configuration). */
    method RandomPollInterval(registrySize: nat, u: real) returns (interval: real)
      requires 0.0 <= u < 1.0
      modifies this
      ensures pollIntervalAverage.Some?
      ensures old(pollIntervalAverage).Some? ==> pollIntervalAverage == old(pollIntervalAverage)
      ensures old(pollIntervalAverage).None? ==>
                pollIntervalAverage == Some(ScaledPollInterval(registrySize, base))
      ensures interval == RandomInterval(ProcessCount(registrySize), pollIntervalAverage.value, u)
    {
      var processCount := ProcessCount(registrySize);
      var average := PollIntervalAverage(registrySize);
      interval := RandomInterval(processCount, average, u);
    }

    /** The total of initial_wait: ten seconds unless the poll average is configured (any
        value, zero included, counts as configured), plus up to five random seconds. */
    method InitialWaitTotal(u: real) returns (total: real)
      requires 0.0 <= u < 1.0
      ensures pollIntervalAverage.Some? ==> 0.0 <= total < InitialJitter
      ensures pollIntervalAverage.None? ==> InitialWait <= total < InitialWait + InitialJitter
    {
      total := 0.0;
      if pollIntervalAverage.None? {
        total := total + InitialWait;
      }
      total := total + InitialJitter * u;
    }

    /** enqueue: one drain of the default sets with the reseek as written. An error it
        raises is reported and dropped: the poller carries on at its next wake-up, and the
        jobs pushed before the error stay pushed. The ghost `k` is the number of ZREMs made, each
        of a member due at `now`; it bounds the part of `steal` the other processes acted on. */
    method Enqueue(store: Store, now: int, steal: seq<set<string>>, draw: seq<nat>)
      returns (drained: seq<seq<string>>, ghost k: nat, ghost taken: seq<seq<string>>)
      requires store.Valid()
      modifies store
      ensures store.Valid()
      ensures store.zsets.Keys == old(store.zsets).Keys
      ensures store.pushed == old(store.pushed) + Flatten(drained)
      ensures Accounted(old(store.zsets), store.zsets, Sets, drained, taken, now)
      ensures TakenFrom(Flatten(taken), steal, 0, k)
      ensures ZRemsDue(old(store.zrems), store.zrems, 0, k, Sets, old(store.zsets), now)
      ensures NoCompetition(steal) ==>
                |drained| == |Sets| && forall n | n in Sets :: store.ZCount(n, now) == 0
      ensures NoCompetition(steal) ==> Flatten(taken) == []
      ensures NoCompetition(steal) ==>
                forall n, e | n in Sets && e in Lookup(old(store.zsets), n) && e.score <= now ::
                  Occurrences(Gather(Sets, drained, n), e.member) == 1
    {
      var outcome, steps;
      outcome, drained, steps, taken := EnqueueJobs(store, now, Sets, steal, draw, AsWritten);
      k := steps;
    }
  }
}
