/** Sidekiq::Scheduled::Enq#enqueue_jobs: moves every job whose score is at or before `now`
    from the named sorted sets ("retry", then "schedule") to its work queue.

    Several Sidekiq processes drain the same sets at once, with no lock. Their removals
    are an input here, a finite schedule: `Others(steal, k)` is the set of members the other
    scanners delete just before this scanner's k-th ZREM (counting from 0 over the whole
    call), and nothing past the end of `steal`. The random `sample` of line 57 is an input
    too: `Draw(draw, k)` is the raw draw used by a reseek taken after k ZREMs, and `Pick`
    turns it into a value of the sampled range.

    The methods ProcessBatch, DrainSet and EnqueueJobs act on a Redis.Store; the ghost
    predicates Drains and Accounted say what became of every member they saw, and the
    lemmas beside them state what the drain guarantees. */
module ScheduledEnq {
  import opened Wrappers
  import opened SortedSets
  import opened Redis

  /** The sets drained by default, in order (Sidekiq::Scheduled::SETS). */
  const Sets: seq<string> := ["retry", "schedule"]
  /** Members fetched per ZRANGEBYSCORE. */
  const BatchSize: nat := 100
  /** Failed ZREMs in one batch beyond which the scanner moves its offset. */
  const ConflictLimit: nat := 70
  /** Due count below which the code means to restart from offset 0. */
  const SmallQueue: nat := 1000
  /** Largest offset a reseek of a long set may draw, however long the set. */
  const OffsetCap: nat := 10000

  /** The locals `offset` and `max_offset` of one set's drain. `max_offset` is nil until a
      reseek of a long set assigns it, and keeps its value for the rest of that set's drain
      (an `until` loop does not open a new Ruby scope; each set's block does). */
  datatype Seek = Seek(offset: nat, maxOffset: Option<nat>)

  /** Which reseek the drain performs: the code as written, or the corrected one of
      IntendedReseek. */
  datatype ReseekRule = AsWritten | Intended

  /** How one set's drain ended: the window at `offset` came back empty, or the reseek
      raised after ZCOUNT answered `queueLength`. */
  datatype SetOutcome = Drained(offset: nat) | SampleFailed(queueLength: nat)

  /** How enqueue_jobs ended: every set drained, or the reseek of set number `index`
      raised, ending the call (the sets after it are not touched). */
  datatype Outcome = Done | Failed(index: nat, queueLength: nat)

  function Min(a: nat, b: nat): nat
  {
    if a < b then a else b
  }

  // ---------------------------------------------------------------------------------
  // The reseek (lines 37-58)
  // ---------------------------------------------------------------------------------

  /** `(0..m).to_a.sample`: a value of [0, m], chosen by the caller's draw. Every value of
      the range is the pick of some draw. */
  function Pick(draw: nat, m: nat): (o: nat)
    ensures o <= m
    ensures draw <= m ==> o == draw
  {
    draw % (m + 1)
  }

  /** The reseek of lines 45-57, as written. For a short set (queue_length < 1000) the
      assignment `offset = 0` is overwritten by line 57, which samples `0..max_offset`:
      that raises while `max_offset` is still nil, and otherwise draws from the range a
      previous long-set reseek left behind. */
  function Reseek(queueLength: nat, maxOffset: Option<nat>, draw: nat): (r: Result<Seek, string>)
    ensures r.Success? <==> queueLength >= SmallQueue || maxOffset.Some?
    ensures queueLength >= SmallQueue ==>
              r.Success? && r.value.maxOffset == Some(Min(queueLength / 2, OffsetCap))
    ensures queueLength < SmallQueue && r.Success? ==> r.value.maxOffset == maxOffset
    ensures r.Success? ==> r.value.maxOffset.Some? && r.value.offset <= r.value.maxOffset.value
  {
    var bound := if queueLength < SmallQueue then maxOffset
                 else Some(Min(queueLength / 2, OffsetCap));
    match bound
    case None => Failure("cannot convert endless range to an array")
    case Some(m) => Success(Seek(Pick(draw, m), bound))
  }

  /** The reseek the code's comments describe: a short set restarts at offset 0, a long one
      moves to a random offset of [0, min(queue_length / 2, 10000)]. */
  function IntendedReseek(queueLength: nat, maxOffset: Option<nat>, draw: nat): (r: Seek)
    ensures queueLength < SmallQueue ==> r.offset == 0
    ensures queueLength >= SmallQueue ==>
              r.maxOffset == Some(Min(queueLength / 2, OffsetCap)) && r.offset <= r.maxOffset.value
    ensures r.offset <= OffsetCap
  {
    if queueLength < SmallQueue then Seek(0, maxOffset)
    else
      var m := Min(queueLength / 2, OffsetCap);
      Seek(Pick(draw, m), Some(m))
  }

  function ChooseSeek(rule: ReseekRule, queueLength: nat, maxOffset: Option<nat>, draw: nat)
    : Result<Seek, string>
  {
    match rule
    case AsWritten => Reseek(queueLength, maxOffset, draw)
    case Intended => Success(IntendedReseek(queueLength, maxOffset, draw))
  }

  /** A short set whose drain has not reseeked before makes the reseek as written raise:
      the "restart at 0" branch ends enqueue_jobs with an error. */
  lemma SmallQueueReseekRaises(queueLength: nat, draw: nat)
    requires queueLength < SmallQueue
    ensures Reseek(queueLength, None, draw).Failure?
    ensures IntendedReseek(queueLength, None, draw).offset == 0
  {
  }

  // ---------------------------------------------------------------------------------
  // Competing scanners
  // ---------------------------------------------------------------------------------

  /** The members the other scanners delete just before this scanner's k-th ZREM; past the
      end of the schedule they delete nothing. */
  function Others(steal: seq<set<string>>, k: nat): set<string>
  {
    if k < |steal| then steal[k] else {}
  }

  /** The raw draw of a reseek taken after k ZREMs. */
  function Draw(draw: seq<nat>, k: nat): nat
  {
    if k < |draw| then draw[k] else 0
  }

  /** No other scanner removes anything. */
  ghost predicate NoCompetition(steal: seq<set<string>>)
  {
    forall i | 0 <= i < |steal| :: steal[i] == {}
  }

  /** Appending is associative (stated for the push log, built up batch by batch). */
  lemma AppendAssoc(a: seq<string>, b: seq<string>, c: seq<string>)
    ensures a + b + c == a + (b + c)
  {
  }

  // ---------------------------------------------------------------------------------
  // Bookkeeping
  // ---------------------------------------------------------------------------------

  /** The bookkeeping of a drain that turned set `z0` into `z`: every occurrence of a member
      of `z0` is still in `z`, or was pushed by this scanner (`done`), or was taken by another
      (`taken`), and exactly one of these, so the lengths add up too; nothing was added and
      no score changed. */
  ghost predicate Drains(z0: seq<Entry>, z: seq<Entry>, done: seq<string>, taken: seq<string>)
  {
    |z0| == |z| + |done| + |taken| &&
    (forall m :: Occurrences(Members(z0), m)
                 == Occurrences(Members(z), m) + Occurrences(done, m) + Occurrences(taken, m)) &&
    forall e | e in z :: e in z0
  }

  /** Two drains one after the other make one drain. */
  lemma DrainsChain(z0: seq<Entry>, z1: seq<Entry>, z2: seq<Entry>,
                    d1: seq<string>, t1: seq<string>, d2: seq<string>, t2: seq<string>)
    requires Drains(z0, z1, d1, t1) && Drains(z1, z2, d2, t2)
    ensures Drains(z0, z2, d1 + d2, t1 + t2)
  {
    forall m ensures Occurrences(Members(z0), m)
                     == Occurrences(Members(z2), m) + Occurrences(d1 + d2, m) + Occurrences(t1 + t2, m)
    {
      OccurrencesAppend(d1, d2, m);
      OccurrencesAppend(t1, t2, m);
    }
  }

  /** A member that was in `z0`, is gone from `z` and was not pushed was taken by another
      scanner. */
  lemma GoneMeansTaken(z0: seq<Entry>, z: seq<Entry>, done: seq<string>, taken: seq<string>, m: string)
    requires Drains(z0, z, done, taken)
    requires m in Members(z0) && m !in Members(z) && m !in done
    ensures m in taken
  {
    assert Occurrences(Members(z0), m) > 0;
  }

  /** One job of a batch: the other scanners delete `others`, then the ZREM of `job`. The
      job is pushed exactly when that ZREM finds it; what the others took are members of
      `others`; and a job of the set that the ZREM did not find was taken by them. */
  lemma StepDrains(before: seq<Entry>, others: set<string>, job: string)
    requires SortedSets.Valid(before)
    ensures var between := Without(before, others);
            var removed := job in Members(between);
            var taken := Members(Only(before, others));
            Drains(before, Without(between, {job}), if removed then [job] else [], taken) &&
            (forall m | m in taken :: m in others) &&
            (!removed && job in Members(before) ==> job in taken)
  {
    var between := Without(before, others);
    var taken := Members(Only(before, others));
    Split(before, others);
    WithoutIn(before, others);
    WithoutIn(between, {job});
    OnlyMembers(before, others);
    WithoutValid(before, others);
    Split(between, {job});
    OnlyOne(between, job);
    var removed := job in Members(between);
    if !removed && job in Members(before) {
      GoneMeansTaken(before, between, [], taken, job);
    }
  }

  /** What the bookkeeping gives: a member scored after `now` that no other scanner took is
      still in the set, with its score. */
  lemma KeptAfterNow(z0: seq<Entry>, z: seq<Entry>, done: seq<string>, taken: seq<string>, now: int)
    requires SortedSets.Valid(z0)
    requires Drains(z0, z, done, taken)
    requires forall m | m in done :: m in DueMembers(z0, now)
    ensures forall e | e in z0 && e.score > now && e.member !in taken :: e in z
  {
    forall e | e in z0 && e.score > now && e.member !in taken ensures e in z {
      InMembers(z0, e);
      if e.member in done {
        var d :| d in z0 && d.score <= now && d.member == e.member;
        SameMember(z0, d, e);
      }
      assert Occurrences(Members(z0), e.member) > 0;
      MembersAt(z);
      var i :| 0 <= i < |z| && Members(z)[i] == e.member;
      assert z[i] in z;
      SameMember(z0, z[i], e);
    }
  }

  /** When no other scanner took anything and no due member is left, every member that was
      due has been pushed exactly once. */
  lemma DrainedExactlyOnce(z0: seq<Entry>, z: seq<Entry>, done: seq<string>, now: int)
    requires SortedSets.Valid(z0)
    requires Drains(z0, z, done, [])
    requires Count(z, now) == 0
    ensures forall e | e in z0 && e.score <= now :: Occurrences(done, e.member) == 1
  {
    MembersAt(z0);
    forall a, b | 0 <= a < b < |z0| ensures Members(z0)[a] != Members(z0)[b] {
      ValidAt(z0, a, b);
    }
    forall e | e in z0 && e.score <= now ensures Occurrences(done, e.member) == 1 {
      var i :| 0 <= i < |z0| && z0[i] == e;
      OccurrencesDistinct(Members(z0), i);
      if e.member in Members(z) {
        MembersAt(z);
        var j :| 0 <= j < |z| && Members(z)[j] == e.member;
        assert z[j] in z;
        SameMember(z0, z[j], e);
      }
    }
  }

  // ---------------------------------------------------------------------------------
  // One batch (lines 24-35)
  // ---------------------------------------------------------------------------------

  /** One job of a batch, on the set `zb` the batch has reached from `z0`: the other
      scanners delete `others`, then the ZREM of `job` answers `removed`, leaving `after`;
      `gone` is what the others took. The job is pushed when the ZREM answered true, and
      the bookkeeping carries over either way; a ZREM that answers false, on a member of
      `z0` this scanner has not pushed, means another scanner took something; a job that is
      pushed was in the set and not among the deletions; what is left is neither the job nor
      any deleted member; and with no deletions by others nothing is taken. */
  lemma JobStep(z0: seq<Entry>, zb: seq<Entry>, after: seq<Entry>, done: seq<string>,
                taken: seq<string>, job: string, others: set<string>, removed: bool,
                gone: seq<string>)
    requires SortedSets.Valid(zb)
    requires Drains(z0, zb, done, taken)
    requires job in Members(z0) && job !in done
    requires removed == (job in Members(Without(zb, others)))
    requires after == Without(Without(zb, others), {job})
    requires gone == Members(Only(zb, others))
    ensures removed ==> Drains(z0, after, done + [job], taken + gone)
    ensures !removed ==> Drains(z0, after, done, taken + gone) && job in taken + gone
    ensures forall m | m in gone :: m in others
    ensures removed ==> job in Members(zb) && job !in others
    ensures job !in Members(after)
    ensures forall m | m in Members(after) :: m in Members(zb) && m !in others
    ensures others == {} ==> gone == []
  {
    StepDrains(zb, others, job);
    var between := Without(zb, others);
    WithoutMembers(zb, others);
    WithoutMembers(between, {job});
    if !removed && job in Members(zb) {
      OccurrencesAppend(taken, gone, job);
    }
    if !removed && job !in Members(zb) {
      GoneMeansTaken(z0, zb, done, taken, job);
      OccurrencesAppend(taken, gone, job);
    }
    if removed {
      DrainsChain(z0, zb, after, done, taken, [job], gone);
    } else {
      DrainsChain(z0, zb, after, done, taken, [], gone);
      assert done + [] == done;
    }
    if others == {} {
      OnlyNothing(zb);
    }
  }

  /** Everything in `taken` was deleted by the other scanners just before one of this
      scanner's ZREMs numbered `lo` to `hi - 1`. */
  ghost predicate TakenFrom(taken: seq<string>, steal: seq<set<string>>, lo: nat, hi: nat)
  {
    forall m | m in taken :: exists j | lo <= j < hi :: m in Others(steal, j)
  }

  /** The deletions before ZREM number `j` extend what was taken before it. */
  lemma TakenFromStep(taken: seq<string>, gone: seq<string>, steal: seq<set<string>>, lo: nat, j: nat)
    requires lo <= j && TakenFrom(taken, steal, lo, j)
    requires forall m | m in gone :: m in Others(steal, j)
    ensures TakenFrom(taken + gone, steal, lo, j + 1)
  {
    forall m | m in taken + gone ensures exists i | lo <= i < j + 1 :: m in Others(steal, i) {
      if m !in taken {
        assert m in Others(steal, j);
      }
    }
  }

  /** Two stretches of ZREMs, one after the other. */
  lemma TakenFromChain(t1: seq<string>, t2: seq<string>, steal: seq<set<string>>, lo: nat, mid: nat,
                       hi: nat)
    requires lo <= mid <= hi
    requires TakenFrom(t1, steal, lo, mid) && TakenFrom(t2, steal, mid, hi)
    ensures TakenFrom(t1 + t2, steal, lo, hi)
  {
    forall m | m in t1 + t2 ensures exists i | lo <= i < hi :: m in Others(steal, i) {
      if m in t1 {
        var i :| lo <= i < mid && m in Others(steal, i);
      } else {
        var i :| mid <= i < hi && m in Others(steal, i);
      }
    }
  }

  /** The ZREMs that `log` holds beyond its prefix `log0`: one for each of the scanner's
      ZREMs numbered `lo` to `hi - 1`, each naming one of the sets `names` and a member
      that was due at `now` in that set as `sets0` held it. */
  ghost predicate ZRemsDue(log0: seq<Removal>, log: seq<Removal>, lo: nat, hi: nat,
                           names: seq<string>, sets0: map<string, seq<Entry>>, now: int)
  {
    lo <= hi && |log| == |log0| + (hi - lo) && log[..|log0|] == log0 &&
    forall p | |log0| <= p < |log| ::
      log[p].key in names && log[p].member in DueMembers(Lookup(sets0, log[p].key), now)
  }

  /** A batch of ZREMs of members due in the set `name` keeps ZRemsDue. */
  lemma ZRemsDueBatch(log0: seq<Removal>, log: seq<Removal>, lo: nat, hi: nat, names: seq<string>,
                      sets0: map<string, seq<Entry>>, now: int, name: string, jobs: seq<string>)
    requires ZRemsDue(log0, log, lo, hi, names, sets0, now) && name in names
    requires forall m | m in jobs :: m in DueMembers(Lookup(sets0, name), now)
    ensures ZRemsDue(log0, log + ZRemsOf(name, jobs), lo, hi + |jobs|, names, sets0, now)
  {
    ZRemsOfAt(name, jobs);
    var log' := log + ZRemsOf(name, jobs);
    assert log'[..|log0|] == log[..|log0|];
    forall p | |log0| <= p < |log'|
      ensures log'[p].key in names && log'[p].member in DueMembers(Lookup(sets0, log'[p].key), now)
    {
      if p >= |log| {
        assert log'[p] == Removal(name, jobs[p - |log|]);
        assert jobs[p - |log|] in jobs;
      }
    }
  }

  /** The ZREMs of one set's drain, due in the set as the drain found it, follow those made
      before it; a set only loses entries, so they were due in it from the start. */
  lemma ZRemsDueChain(log0: seq<Removal>, log1: seq<Removal>, log2: seq<Removal>, lo: nat, mid: nat,
                      hi: nat, names: seq<string>, sets0: map<string, seq<Entry>>,
                      name: string, before: map<string, seq<Entry>>, now: int)
    requires ZRemsDue(log0, log1, lo, mid, names, sets0, now)
    requires ZRemsDue(log1, log2, mid, hi, [name], before, now)
    requires name in names && forall e | e in Lookup(before, name) :: e in Lookup(sets0, name)
    ensures ZRemsDue(log0, log2, lo, hi, names, sets0, now)
  {
    DueMembersShrink(Lookup(before, name), Lookup(sets0, name), now);
    assert log2[..|log0|] == log2[..|log1|][..|log0|];
    forall p | |log0| <= p < |log2|
      ensures log2[p].key in names && log2[p].member in DueMembers(Lookup(sets0, log2[p].key), now)
    {
      if p < |log1| {
        assert log2[p] == log2[..|log1|][p];
      }
    }
  }

  /** A prefix one longer holds one more value. */
  lemma PrefixGrows(s: seq<string>, i: nat)
    requires i < |s|
    ensures forall m :: m in s[..i + 1] <==> m in s[..i] || m == s[i]
  {
    assert s[..i + 1] == s[..i] + [s[i]];
  }

  /** The next job of a window of distinct members has not been seen before it. */
  lemma NextJobFresh(jobs: seq<string>, i: nat)
    requires i < |jobs|
    requires forall a, b | 0 <= a < b < |jobs| :: jobs[a] != jobs[b]
    ensures jobs[i] !in jobs[..i]
  {
    forall a | 0 <= a < i ensures jobs[..i][a] != jobs[i] {
      assert jobs[..i][a] == jobs[a];
    }
  }

  // ---------------------------------------------------------------------------------
  // All the sets (lines 12-62)
  // ---------------------------------------------------------------------------------

  /** The parts recorded for the sets called `name`, in order; parts[i] belongs to names[i]. */
  function Gather(names: seq<string>, parts: seq<seq<string>>, name: string): seq<string>
  {
    if parts == [] || names == [] then []
    else (if names[0] == name then parts[0] else []) + Gather(names[1..], parts[1..], name)
  }

  lemma {:induction false} GatherSnoc(names: seq<string>, parts: seq<seq<string>>, last: seq<string>,
                                      name: string)
    requires |parts| < |names|
    ensures Gather(names, parts + [last], name)
            == Gather(names, parts, name) + (if names[|parts|] == name then last else [])
  {
    if parts == [] {
      assert Gather(names[1..], [], name) == [];
    } else {
      assert (parts + [last])[1..] == parts[1..] + [last];
      GatherSnoc(names[1..], parts[1..], last, name);
    }
  }

  function Flatten(parts: seq<seq<string>>): seq<string>
  {
    if parts == [] then [] else parts[0] + Flatten(parts[1..])
  }

  lemma {:induction false} FlattenSnoc(parts: seq<seq<string>>, last: seq<string>)
    ensures Flatten(parts + [last]) == Flatten(parts) + last
  {
    if parts != [] {
      assert (parts + [last])[1..] == parts[1..] + [last];
      FlattenSnoc(parts[1..], last);
    }
  }

  /** The bookkeeping of enqueue_jobs after the first |drained| names of `names` have been
      drained, from the sets `sets0` to `sets`: the sets not drained yet are untouched, and
      each set has lost exactly what the drains of its name pushed (`drained`), all of it due
      at `now`, and what other scanners took meanwhile (`taken`), which may include members
      scored after `now`. */
  ghost predicate Accounted(sets0: map<string, seq<Entry>>, sets: map<string, seq<Entry>>,
                            names: seq<string>, drained: seq<seq<string>>, taken: seq<seq<string>>,
                            now: int)
  {
    |drained| == |taken| <= |names| &&
    (forall n | n !in names[..|drained|] :: Lookup(sets, n) == Lookup(sets0, n)) &&
    (forall n :: Drains(Lookup(sets0, n), Lookup(sets, n),
                        Gather(names, drained, n), Gather(names, taken, n))) &&
    (forall n, m | m in Gather(names, drained, n) :: m in DueMembers(Lookup(sets0, n), now))
  }

  /** One more drained set keeps enqueue_jobs's bookkeeping: the set it drained chains its
      own bookkeeping onto what came before, and every other set is untouched. */
  lemma EnqueueStep(sets0: map<string, seq<Entry>>, before: map<string, seq<Entry>>,
                    after: map<string, seq<Entry>>, names: seq<string>,
                    drained: seq<seq<string>>, taken: seq<seq<string>>,
                    done: seq<string>, setTaken: seq<string>, now: int)
    requires Accounted(sets0, before, names, drained, taken, now) && |drained| < |names|
    requires Elsewhere(before, after, names[|drained|])
    requires Drains(Lookup(before, names[|drained|]), Lookup(after, names[|drained|]), done, setTaken)
    requires forall m | m in done :: m in DueMembers(Lookup(before, names[|drained|]), now)
    ensures Accounted(sets0, after, names, drained + [done], taken + [setTaken], now)
  {
    var name := names[|drained|];
    PrefixGrows(names, |drained|);
    forall n
      ensures Drains(Lookup(sets0, n), Lookup(after, n),
                     Gather(names, drained + [done], n), Gather(names, taken + [setTaken], n))
      ensures forall m | m in Gather(names, drained + [done], n) :: m in DueMembers(Lookup(sets0, n), now)
    {
      GatherSnoc(names, drained, done, n);
      GatherSnoc(names, taken, setTaken, n);
      if n == name {
        DrainsChain(Lookup(sets0, n), Lookup(before, n), Lookup(after, n),
                    Gather(names, drained, n), Gather(names, taken, n), done, setTaken);
        DueMembersShrink(Lookup(before, n), Lookup(sets0, n), now);
      } else {
        assert Gather(names, drained, n) + [] == Gather(names, drained, n);
        assert Gather(names, taken, n) + [] == Gather(names, taken, n);
      }
    }
  }

  /** What the other scanners did during enqueue_jobs, after the first `i` names of `names`
      were drained: everything they took was deleted at one of this scanner's first `k`
      ZREMs; with no competition they took nothing and those sets have nothing due left. */
  ghost predicate Competed(sets: map<string, seq<Entry>>, names: seq<string>, i: nat,
                           taken: seq<seq<string>>, steal: seq<set<string>>, k: nat, now: int)
  {
    i <= |names| &&
    TakenFrom(Flatten(taken), steal, 0, k) &&
    (NoCompetition(steal) ==>
       Flatten(taken) == [] && forall n | n in names[..i] :: Count(Lookup(sets, n), now) == 0)
  }

  /** Draining set number `i` keeps what Competed says, given what its drain promises. */
  lemma CompetedStep(before: map<string, seq<Entry>>, after: map<string, seq<Entry>>,
                     names: seq<string>, i: nat, taken: seq<seq<string>>, setTaken: seq<string>,
                     steal: seq<set<string>>, k: nat, k': nat, now: int)
    requires i < |names| && Competed(before, names, i, taken, steal, k, now)
    requires Elsewhere(before, after, names[i])
    requires k <= k' && TakenFrom(setTaken, steal, k, k')
    requires NoCompetition(steal) ==> setTaken == [] && Count(Lookup(after, names[i]), now) == 0
    ensures Competed(after, names, i + 1, taken + [setTaken], steal, k', now)
  {
    FlattenSnoc(taken, setTaken);
    TakenFromChain(Flatten(taken), setTaken, steal, 0, k, k');
    if NoCompetition(steal) {
      NothingDueStays(before, after, names, i, now);
    }
  }

  /** Parts that flatten to nothing gather to nothing under every name. */
  lemma {:induction false} GatherNothing(names: seq<string>, parts: seq<seq<string>>, name: string)
    requires Flatten(parts) == []
    ensures Gather(names, parts, name) == []
  {
    if parts != [] && names != [] {
      assert parts[0] == [];
      GatherNothing(names[1..], parts[1..], name);
    }
  }

  /** When the other scanners took nothing from any set and no set named in `names` has
      anything due left, each member that was due in such a set was pushed exactly once by
      the drains of that name. */
  lemma EnqueuedExactlyOnce(sets0: map<string, seq<Entry>>, sets: map<string, seq<Entry>>,
                            names: seq<string>, drained: seq<seq<string>>, taken: seq<seq<string>>,
                            now: int)
    requires AllValid(sets0)
    requires Accounted(sets0, sets, names, drained, taken, now)
    requires Flatten(taken) == []
    requires forall n | n in names :: Count(Lookup(sets, n), now) == 0
    ensures forall n, e | n in names && e in Lookup(sets0, n) && e.score <= now ::
              Occurrences(Gather(names, drained, n), e.member) == 1
  {
    forall n | n in names
      ensures forall e | e in Lookup(sets0, n) && e.score <= now ::
                Occurrences(Gather(names, drained, n), e.member) == 1
    {
      GatherNothing(names, taken, n);
      DrainedExactlyOnce(Lookup(sets0, n), Lookup(sets, n), Gather(names, drained, n), now);
    }
  }

  /** Sets left with nothing due stay so while other sets are drained. */
  lemma NothingDueStays(before: map<string, seq<Entry>>, after: map<string, seq<Entry>>,
                        names: seq<string>, i: nat, now: int)
    requires i < |names|
    requires Elsewhere(before, after, names[i])
    requires forall n | n in names[..i] :: Count(Lookup(before, n), now) == 0
    requires Count(Lookup(after, names[i]), now) == 0
    ensures forall n | n in names[..i + 1] :: Count(Lookup(after, n), now) == 0
  {
    PrefixGrows(names, i);
  }

  // ---------------------------------------------------------------------------------
  // The methods, over the store
  // ---------------------------------------------------------------------------------

  /** Lines 29-34 for one job, after the other scanners have deleted `others`: the ZREM,
      and the push when the ZREM answered true. */
  method ProcessJob(store: Store, name: string, job: string, others: set<string>)
    returns (removed: bool, ghost gone: seq<string>)
    requires store.Valid()
    modifies store
    ensures store.Valid()
    ensures Elsewhere(old(store.zsets), store.zsets, name)
    ensures removed == (job in Members(Without(old(store.Get(name)), others)))
    ensures store.Get(name) == Without(Without(old(store.Get(name)), others), {job})
    ensures gone == Members(Only(old(store.Get(name)), others))
    ensures store.pushed == old(store.pushed) + (if removed then [job] else [])
    ensures store.zrems == old(store.zrems) + [Removal(name, job)]
  {
    gone := store.RemoveByOthers(name, others);
    removed := store.ZRem(name, job);
    if removed {
      store.Push(job);
    }
  }

  /** A window as ZRANGEBYSCORE hands it to a batch: distinct members of the set. */
  ghost predicate Window(z: seq<Entry>, jobs: seq<string>)
  {
    (forall a, b | 0 <= a < b < |jobs| :: jobs[a] != jobs[b]) &&
    (forall m | m in jobs :: m in Members(z))
  }

  /** The state of one set's drain so far, from the set `z0` it started from: `done` and
      `taken` account for what left the set, everything pushed was due when the scan began,
      and what the others took was deleted at this drain's ZREMs `k0` to `k - 1`, and nothing
      when there is no competition. */
  ghost predicate SetSoFar(z0: seq<Entry>, z: seq<Entry>, done: seq<string>, taken: seq<string>,
                           steal: seq<set<string>>, k0: nat, k: nat, now: int)
  {
    Drains(z0, z, done, taken) && (forall m | m in done :: m in DueMembers(z0, now)) &&
    k0 <= k && TakenFrom(taken, steal, k0, k) &&
    (NoCompetition(steal) ==> taken == [])
  }

  /** What one set's drain guarantees once it has ended: its state as above; every member
      scored after `now` is still in the set unless another scanner took it, in particular
      unless one of the deletions at this drain's ZREMs named it; and with nothing taken and
      nothing due left, every member that was due has been pushed exactly once. */
  ghost predicate SetDrained(z0: seq<Entry>, z: seq<Entry>, done: seq<string>, taken: seq<string>,
                             steal: seq<set<string>>, k0: nat, k: nat, now: int)
  {
    SetSoFar(z0, z, done, taken, steal, k0, k, now) &&
    (forall e | e in z0 && e.score > now && e.member !in taken :: e in z) &&
    (forall e | e in z0 && e.score > now && (forall j | k0 <= j < k :: e.member !in Others(steal, j)) ::
       e in z) &&
    (taken == [] && Count(z, now) == 0 ==>
       forall e | e in z0 && e.score <= now :: Occurrences(done, e.member) == 1)
  }

  /** The end of a drain: its state gives what SetDrained promises. */
  lemma SetEnd(z0: seq<Entry>, z: seq<Entry>, done: seq<string>, taken: seq<string>,
               steal: seq<set<string>>, k0: nat, k: nat, now: int)
    requires SortedSets.Valid(z0)
    requires SetSoFar(z0, z, done, taken, steal, k0, k, now)
    ensures SetDrained(z0, z, done, taken, steal, k0, k, now)
  {
    KeptAfterNow(z0, z, done, taken, now);
    if taken == [] && Count(z, now) == 0 {
      DrainedExactlyOnce(z0, z, done, now);
    }
  }

  /** One batch over a window of due members keeps the drain's state; its members were due
      when the drain began; a batch with a conflict leaves something taken. */
  lemma SetBatch(z0: seq<Entry>, before: seq<Entry>, after: seq<Entry>, done: seq<string>,
                 taken: seq<string>, jobs: seq<string>, offset: nat, counter: nat,
                 batchDone: seq<string>, batchTaken: seq<string>, steal: seq<set<string>>,
                 k0: nat, k: nat, now: int)
    requires SortedSets.Valid(before)
    requires SetSoFar(z0, before, done, taken, steal, k0, k, now)
    requires jobs == RangeByScore(before, now, offset, BatchSize)
    requires forall m | m in batchDone :: m in jobs
    requires Drains(before, after, batchDone, batchTaken)
    requires TakenFrom(batchTaken, steal, k, k + |jobs|)
    requires NoCompetition(steal) ==> batchTaken == []
    requires counter > 0 ==> batchTaken != []
    ensures SetSoFar(z0, after, done + batchDone, taken + batchTaken, steal, k0, k + |jobs|, now)
    ensures counter > 0 ==> taken + batchTaken != []
    ensures forall m | m in jobs :: m in DueMembers(z0, now)
  {
    DueMembersShrink(before, z0, now);
    DrainsChain(z0, before, after, done, taken, batchDone, batchTaken);
    TakenFromChain(taken, batchTaken, steal, k0, k, k + |jobs|);
  }

  /** The first `i` jobs of a batch are handled: each has left the set `z`, and each that
      this scanner did not push was taken by another. */
  ghost predicate Handled(z: seq<Entry>, jobs: seq<string>, i: nat, done: seq<string>,
                          taken: seq<string>)
  {
    i <= |jobs| &&
    (forall m | m in jobs[..i] :: m !in Members(z)) &&
    (forall m | m in jobs[..i] && m !in done :: m in taken)
  }

  /** Job `i` of the batch, pushed or not, is handled too once its ZREM has run. */
  lemma HandledStep(zb: seq<Entry>, after: seq<Entry>, jobs: seq<string>, i: nat,
                    done: seq<string>, taken: seq<string>, removed: bool, gone: seq<string>)
    requires i < |jobs| && Handled(zb, jobs, i, done, taken)
    requires jobs[i] !in Members(after) && forall m | m in Members(after) :: m in Members(zb)
    requires !removed ==> jobs[i] in taken + gone
    ensures Handled(after, jobs, i + 1, if removed then done + [jobs[i]] else done, taken + gone)
  {
    PrefixGrows(jobs, i);
  }

  /** Job `p` of the batch, for each of the first `i`, was pushed exactly when no other
      scanner deleted it at or before its own ZREM, number `k0 + p`; and no member left in
      `z` was deleted by them during those ZREMs. */
  ghost predicate PushedUnlessTaken(z: seq<Entry>, jobs: seq<string>, i: nat, done: seq<string>,
                                    steal: seq<set<string>>, k0: nat)
  {
    i <= |jobs| &&
    (forall p | 0 <= p < i ::
       jobs[p] in done <==> forall j | k0 <= j <= k0 + p :: jobs[p] !in Others(steal, j)) &&
    (forall m, j | m in Members(z) && k0 <= j < k0 + i :: m !in Others(steal, j))
  }

  /** Job `i` keeps PushedUnlessTaken: when pushed, it had survived every deletion so far;
      when not, it was taken at one of the ZREMs up to its own. */
  lemma PushedStep(zb: seq<Entry>, after: seq<Entry>, jobs: seq<string>, i: nat,
                   done: seq<string>, taken: seq<string>, gone: seq<string>,
                   steal: seq<set<string>>, k0: nat, removed: bool)
    requires i < |jobs| && jobs[i] !in jobs[..i] && forall m | m in done :: m in jobs[..i]
    requires PushedUnlessTaken(zb, jobs, i, done, steal, k0)
    requires removed ==> jobs[i] in Members(zb) && jobs[i] !in Others(steal, k0 + i)
    requires !removed ==> jobs[i] in taken + gone && TakenFrom(taken + gone, steal, k0, k0 + i + 1)
    requires forall m | m in Members(after) :: m in Members(zb) && m !in Others(steal, k0 + i)
    ensures PushedUnlessTaken(after, jobs, i + 1, if removed then done + [jobs[i]] else done,
                              steal, k0)
  {
    var done' := if removed then done + [jobs[i]] else done;
    forall p | 0 <= p < i + 1
      ensures jobs[p] in done' <==> forall j | k0 <= j <= k0 + p :: jobs[p] !in Others(steal, j)
    {
      if p < i {
        assert jobs[..i][p] == jobs[p];
      } else if !removed {
        var j :| k0 <= j < k0 + i + 1 && jobs[i] in Others(steal, j);
      }
    }
  }

  /** The state of a batch after its first `i` jobs, over the set `z0` it started from:
      each of them was pushed or counted as a conflict, has left the set, and if not pushed
      was taken by another scanner; what the others took was deleted at this batch's ZREMs so
      far, and nothing when there is no competition; and a job was pushed exactly when the
      others had not deleted it by its own ZREM. */
  ghost predicate BatchSoFar(z0: seq<Entry>, z: seq<Entry>, jobs: seq<string>, i: nat, counter: nat,
                             done: seq<string>, taken: seq<string>, steal: seq<set<string>>, k0: nat)
  {
    i <= |jobs| && counter + |done| == i && (forall m | m in done :: m in jobs[..i]) &&
    Drains(z0, z, done, taken) &&
    (counter > 0 ==> taken != []) &&
    Handled(z, jobs, i, done, taken) &&
    TakenFrom(taken, steal, k0, k0 + i) &&
    PushedUnlessTaken(z, jobs, i, done, steal, k0) &&
    (NoCompetition(steal) ==> taken == [])
  }

  /** One more job of a window keeps the batch's state: its ZREM answered `removed` after
      the others deleted `Others(steal, k0 + i)`, and `gone` is what they took. */
  lemma BatchJob(z0: seq<Entry>, zb: seq<Entry>, after: seq<Entry>, jobs: seq<string>, i: nat,
                 counter: nat, done: seq<string>, taken: seq<string>, steal: seq<set<string>>,
                 k0: nat, removed: bool, gone: seq<string>)
    requires SortedSets.Valid(zb) && Window(z0, jobs) && i < |jobs|
    requires BatchSoFar(z0, zb, jobs, i, counter, done, taken, steal, k0)
    requires removed == (jobs[i] in Members(Without(zb, Others(steal, k0 + i))))
    requires after == Without(Without(zb, Others(steal, k0 + i)), {jobs[i]})
    requires gone == Members(Only(zb, Others(steal, k0 + i)))
    ensures BatchSoFar(z0, after, jobs, i + 1, if removed then counter else counter + 1,
                       if removed then done + [jobs[i]] else done, taken + gone, steal, k0)
  {
    NextJobFresh(jobs, i);
    PrefixGrows(jobs, i);
    JobStep(z0, zb, after, done, taken, jobs[i], Others(steal, k0 + i), removed, gone);
    TakenFromStep(taken, gone, steal, k0, k0 + i);
    HandledStep(zb, after, jobs, i, done, taken, removed, gone);
    PushedStep(zb, after, jobs, i, done, taken, gone, steal, k0, removed);
  }

  /** The end of a batch: its state, once every job has been handled, gives what
      ProcessBatch promises. */
  lemma BatchEnd(z0: seq<Entry>, z: seq<Entry>, jobs: seq<string>, counter: nat, done: seq<string>,
                 taken: seq<string>, steal: seq<set<string>>, k0: nat)
    requires BatchSoFar(z0, z, jobs, |jobs|, counter, done, taken, steal, k0)
    ensures counter + |done| == |jobs| && forall m | m in done :: m in jobs
    ensures Drains(z0, z, done, taken)
    ensures counter > 0 ==> taken != []
    ensures forall m | m in jobs :: m !in Members(z)
    ensures forall m | m in jobs && m !in done :: m in taken
    ensures TakenFrom(taken, steal, k0, k0 + |jobs|)
    ensures forall p | 0 <= p < |jobs| ::
              jobs[p] in done <==> forall j | k0 <= j <= k0 + p :: jobs[p] !in Others(steal, j)
    ensures jobs != [] ==> |z| < |z0|
    ensures NoCompetition(steal) ==> taken == []
  {
    assert jobs[..|jobs|] == jobs;
  }

  /** Lines 24-35: one batch against the store, over a window of the set. Each job is
      pushed or counted as a conflict, never both, and only jobs of the window are pushed;
      the set stays valid and loses nothing but the pushed jobs and what the other scanners
      deleted during the batch's ZREMs; a conflict means another scanner took something;
      a job is pushed exactly when no other scanner deleted it by the time of its own ZREM;
      the batch sends one ZREM per job, in order; a batch of at least one job shrinks the set. */
  method ProcessBatch(store: Store, name: string, jobs: seq<string>,
                      steal: seq<set<string>>, k0: nat)
    returns (counter: nat, done: seq<string>, ghost taken: seq<string>)
    requires store.Valid()
    requires Window(store.Get(name), jobs)
    modifies store
    ensures store.Valid()
    ensures Elsewhere(old(store.zsets), store.zsets, name)
    ensures store.pushed == old(store.pushed) + done
    ensures counter + |done| == |jobs| && forall m | m in done :: m in jobs
    ensures Drains(old(store.Get(name)), store.Get(name), done, taken)
    ensures counter > 0 ==> taken != []
    ensures forall m | m in jobs :: m !in Members(store.Get(name))
    ensures forall m | m in jobs && m !in done :: m in taken
    ensures TakenFrom(taken, steal, k0, k0 + |jobs|)
    ensures forall p | 0 <= p < |jobs| ::
              jobs[p] in done <==> forall j | k0 <= j <= k0 + p :: jobs[p] !in Others(steal, j)
    ensures store.zrems == old(store.zrems) + ZRemsOf(name, jobs)
    ensures jobs != [] ==> |store.Get(name)| < |old(store.Get(name))|
    ensures NoCompetition(steal) ==> taken == []
  {
    counter, done, taken := 0, [], [];
    ghost var z0 := store.Get(name);
    for i := 0 to |jobs|
      invariant store.Valid()
      invariant Elsewhere(old(store.zsets), store.zsets, name)
      invariant store.pushed == old(store.pushed) + done
      invariant BatchSoFar(z0, store.Get(name), jobs, i, counter, done, taken, steal, k0)
      invariant store.zrems == old(store.zrems) + ZRemsOf(name, jobs[..i])
    {
      ghost var zb, zr := store.Get(name), store.zrems;
      var removed, gone := ProcessJob(store, name, jobs[i], Others(steal, k0 + i));
      ZRemsOfStep(old(store.zrems), zr, name, jobs, i);
      BatchJob(z0, zb, store.Get(name), jobs, i, counter, done, taken, steal, k0, removed, gone);
      if removed {
        AppendAssoc(old(store.pushed), done, [jobs[i]]);
        done := done + [jobs[i]];
      } else {
        counter := counter + 1;
      }
      taken := taken + gone;
    }
    BatchEnd(z0, store.Get(name), jobs, counter, done, taken, steal, k0);
    assert jobs[..|jobs|] == jobs;
  }

  /** Lines 18-59: one set's drain against the store, from offset 0 until the window at the
      current offset comes back empty, or until the reseek raises. A batch with more than
      ConflictLimit conflicts reseeks with `rule`; any other batch leaves the offset as it was.
      Only members due at `now` are pushed, each at most once; members scored after `now`
      stay unless another scanner took them; a drain that ends normally leaves no more due
      members than its final offset. It makes `k - k0` ZREMs, numbered `k0` to `k - 1`, each
      of a member of this set that was due at `now` when the drain began. Without competing
      scanners the drain is the single-scanner one: it ends at offset 0 with every due member
      pushed exactly once, and a set with nothing due is left as it was with nothing pushed. */
  method DrainSet(store: Store, name: string, now: int, steal: seq<set<string>>,
                  draw: seq<nat>, k0: nat, rule: ReseekRule)
    returns (outcome: SetOutcome, done: seq<string>, k: nat, ghost taken: seq<string>)
    requires store.Valid()
    modifies store
    ensures store.Valid()
    ensures Elsewhere(old(store.zsets), store.zsets, name)
    ensures store.pushed == old(store.pushed) + done
    ensures outcome.Drained? ==> outcome.offset >= store.ZCount(name, now)
    ensures outcome.SampleFailed? ==>
              rule == AsWritten &&
              outcome.queueLength == store.ZCount(name, now) && outcome.queueLength < SmallQueue
    ensures rule == Intended ==> outcome.Drained?
    ensures SetDrained(old(store.Get(name)), store.Get(name), done, taken, steal, k0, k, now)
    ensures ZRemsDue(old(store.zrems), store.zrems, k0, k, [name], old(store.zsets), now)
    ensures outcome.SampleFailed? ==> taken != []
    ensures taken == [] ==> outcome == Drained(0) && store.ZCount(name, now) == 0
    ensures (forall e | e in old(store.Get(name)) :: e.score > now) ==>
              outcome == Drained(0) && done == [] && store.Get(name) == old(store.Get(name))
  {
    done, taken, k := [], [], k0;
    ghost var z0 := store.Get(name);
    assert store.zrems[..|store.zrems|] == store.zrems;
    var seek := Seek(0, None);
    var jobs := store.ZRangeByScore(name, now, seek.offset, BatchSize);
    while jobs != []
      invariant store.Valid()
      invariant Elsewhere(old(store.zsets), store.zsets, name)
      invariant store.pushed == old(store.pushed) + done
      invariant jobs == RangeByScore(store.Get(name), now, seek.offset, BatchSize)
      invariant SetSoFar(z0, store.Get(name), done, taken, steal, k0, k, now)
      invariant ZRemsDue(old(store.zrems), store.zrems, k0, k, [name], old(store.zsets), now)
      invariant taken == [] ==> seek.offset == 0
      invariant Count(z0, now) == 0 ==> jobs == [] && done == [] && store.Get(name) == z0 && seek.offset == 0
      decreases |store.Get(name)|
    {
      ghost var before, log := store.Get(name), store.zrems;
      var counter, batchDone, batchTaken := ProcessBatch(store, name, jobs, steal, k);
      AppendAssoc(old(store.pushed), done, batchDone);
      SetBatch(z0, before, store.Get(name), done, taken, jobs, seek.offset, counter, batchDone,
               batchTaken, steal, k0, k, now);
      ZRemsDueBatch(old(store.zrems), log, k0, k, [name], old(store.zsets), now, name, jobs);
      done, taken, k := done + batchDone, taken + batchTaken, k + |jobs|;
      if counter > ConflictLimit {
        var queueLength := store.ZCount(name, now);
        var next := ChooseSeek(rule, queueLength, seek.maxOffset, Draw(draw, k));
        if next.Failure? {
          outcome := SampleFailed(queueLength);
          SetEnd(z0, store.Get(name), done, taken, steal, k0, k, now);
          return;
        }
        seek := next.value;
      }
      jobs := store.ZRangeByScore(name, now, seek.offset, BatchSize);
    }
    outcome := Drained(seek.offset);
    SetEnd(z0, store.Get(name), done, taken, steal, k0, k, now);
  }


  /** Lines 12-62: Enq#enqueue_jobs against the store. The sets are drained one after the
      other in the order given, each from offset 0; a reseek that raises ends the call, and
      the sets after the failing one are not touched. The call makes `k` ZREMs, each of a
      member that was due at `now` in the set it named. */
  method EnqueueJobs(store: Store, now: int, sortedSets: seq<string>, steal: seq<set<string>>,
                     draw: seq<nat>, rule: ReseekRule)
    returns (outcome: Outcome, drained: seq<seq<string>>, k: nat, ghost taken: seq<seq<string>>)
    requires store.Valid()
    modifies store
    ensures store.Valid()
    ensures store.zsets.Keys == old(store.zsets).Keys
    ensures store.pushed == old(store.pushed) + Flatten(drained)
    ensures Accounted(old(store.zsets), store.zsets, sortedSets, drained, taken, now)
    ensures outcome.Done? ==> |drained| == |sortedSets|
    ensures outcome.Failed? ==>
              outcome.index + 1 == |drained| && rule == AsWritten && outcome.queueLength < SmallQueue
    ensures TakenFrom(Flatten(taken), steal, 0, k)
    ensures ZRemsDue(old(store.zrems), store.zrems, 0, k, sortedSets, old(store.zsets), now)
    ensures NoCompetition(steal) ==>
              outcome == Done && forall n | n in sortedSets :: store.ZCount(n, now) == 0
    ensures NoCompetition(steal) ==> Flatten(taken) == []
    ensures NoCompetition(steal) ==>
              forall n, e | n in sortedSets && e in Lookup(old(store.zsets), n) && e.score <= now ::
                Occurrences(Gather(sortedSets, drained, n), e.member) == 1
  {
    ghost var sets0 := store.zsets;
    drained, taken, k := [], [], 0;
    assert store.zrems[..|store.zrems|] == store.zrems;
    var i := 0;
    while i < |sortedSets|
      invariant 0 <= i <= |sortedSets|
      invariant store.Valid()
      invariant store.zsets.Keys == sets0.Keys
      invariant |drained| == i
      invariant store.pushed == old(store.pushed) + Flatten(drained)
      invariant Accounted(sets0, store.zsets, sortedSets, drained, taken, now)
      invariant Competed(store.zsets, sortedSets, i, taken, steal, k, now)
      invariant ZRemsDue(old(store.zrems), store.zrems, 0, k, sortedSets, sets0, now)
    {
      var name := sortedSets[i];
      ghost var before, log := store.zsets, store.zrems;
      var setOutcome, done, k', setTaken := DrainSet(store, name, now, steal, draw, k, rule);
      FlattenSnoc(drained, done);
      AppendAssoc(old(store.pushed), Flatten(drained), done);
      EnqueueStep(sets0, before, store.zsets, sortedSets, drained, taken, done, setTaken, now);
      CompetedStep(before, store.zsets, sortedSets, i, taken, setTaken, steal, k, k', now);
      ZRemsDueChain(old(store.zrems), log, store.zrems, 0, k, k', sortedSets, sets0, name, before, now);
      drained, taken, k := drained + [done], taken + [setTaken], k';
      if setOutcome.SampleFailed? {
        outcome := Failed(i, setOutcome.queueLength);
        return;
      }
      i := i + 1;
    }
    outcome := Done;
    if NoCompetition(steal) {
      assert sortedSets[..i] == sortedSets;
      EnqueuedExactlyOnce(sets0, store.zsets, sortedSets, drained, taken, now);
    }
  }
}
