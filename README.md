# Sidekiq scheduled-job enqueuer, modelled in Dafny

Sidekiq keeps jobs that should run later in two Redis sorted sets, `retry` and `schedule`. Each
job is stored as a member string, scored by the time it is due. Every Sidekiq process runs a
`Poller`. The poller sleeps for a random interval, wakes up, and calls
`Sidekiq::Scheduled::Enq#enqueue_jobs`, which moves every job due at `now` from the sets to its
work queue. The processes do this at the same time and take no lock. A job is pushed only by
the process whose `ZREM` of it answered true. When a batch of up to 100 members meets more than 70
failed `ZREM`s, the scanner jumps to another offset of the set to stop colliding with the
others.

This project models that code:

- `wrappers.dfy` (module `Wrappers`): the `Option` and `Result` values used for nil values and
  raised errors.
- `sorted_set.dfy` (module `SortedSets`): a sorted set as a sequence of entries ordered by
  score, with distinct members. It also holds the read side of `ZRANGEBYSCORE` and `ZCOUNT`, and
  the per-member occurrence count used for bookkeeping.
- `store.dfy` (module `Redis`): the store as a class.
  - It holds the sets by key, the log of pushed jobs, and a ghost log of the `ZREM`s sent.
  - Its methods are `ZREM`, `Sidekiq::Client.push`, and the deletions made by other processes.
- `enq.dfy` (module `ScheduledEnq`):
  - the reseek, as written and as intended;
  - one job, one batch, one set's drain and the whole of `enqueue_jobs`, as methods over the
    store;
  - ghost predicates `Drains` and `Accounted`, which account for every member the drain saw.
- `poller.dfy` (module `ScheduledPoller`):
  - the process count, the scaled and random poll intervals, and the start-up wait;
  - the `Poller` class, whose cached `pollIntervalAverage` field is the memoised
    `poll_interval_average`;
  - `enqueue`, which swallows the drain's errors.

The other processes are an input to the drain. It receives a finite schedule `steal`, where
`steal[k]` is the set of members the others delete just before this process's k-th `ZREM`. It
also receives the draws behind `Array#sample`. With an empty schedule (`NoCompetition`), the
model is the single-scanner drain.

## Model

| member | source | states |
|---|---|---|
| SortedSets.RangeByScore | lib/sidekiq/scheduled.rb:20 | `ZRANGEBYSCORE set -inf now LIMIT offset 100` returns at most `limit` members, all distinct, all due at `now` and all in the set; it is empty exactly when the limit is 0 or the offset has reached the count of due members; below that count it returns exactly `min(limit, count - offset)` members |
| SortedSets.WindowFacts | lib/sidekiq/scheduled.rb:20 | any slice of the due entries of a valid set names distinct members of the set that are due at `now` |
| SortedSets.Count | lib/sidekiq/scheduled.rb:45 | `ZCOUNT set -inf now` is at most the size of the set, and is 0 exactly when every entry is scored after `now` |
| SortedSets.CountIsDueMembers | lib/sidekiq/scheduled.rb:45 | on a valid set, `ZCOUNT set -inf now` is the number of distinct members due at `now` |
| SortedSets.WithoutMembers | lib/sidekiq/scheduled.rb:26-29 | after deleting a set of members, what is left are members of the set, none of them deleted |
| Redis.Store.ZRem | lib/sidekiq/scheduled.rb:29 | `ZREM` answers true exactly when the member was in the set; the set keeps its order and loses just that member; the other sets and the push log are unchanged; the ZREM is appended to the client's log of ZREMs |
| Redis.ZRemsOfAt | lib/sidekiq/scheduled.rb:25-29 | the ZREMs of a batch, one per job in order: ZREM number `p` names job `p` |
| Redis.ZRemsOfStep | lib/sidekiq/scheduled.rb:25-29 | a log holding the ZREMs of the first `i` jobs, after the ZREM of job `i`, holds those of the first `i + 1` |
| Redis.Store.RemoveByOthers | lib/sidekiq/scheduled.rb:26-28 | another process deletes some members: the set loses exactly those, and what was actually taken is reported; nothing else changes, the ZREM log included |
| Redis.Store.Push | lib/sidekiq/scheduled.rb:30 | `Sidekiq::Client.push` appends the job to the push log and changes no set and no logged ZREM |
| ScheduledEnq.Pick | lib/sidekiq/scheduled.rb:57 | `(0..m).to_a.sample` gives a value of [0, m], and every value of the range is the pick of some draw |
| ScheduledEnq.Reseek | lib/sidekiq/scheduled.rb:45-57 | the reseek as written succeeds exactly when `queue_length >= 1000` or `max_offset` is already set; for a long set it sets `max_offset = min(queue_length / 2, 10000)` (integer division); a short set keeps the old `max_offset`; the new offset is never above `max_offset` |
| ScheduledEnq.IntendedReseek | lib/sidekiq/scheduled.rb:47-54 | the reseek the code means: a short set restarts at offset 0; a long set moves to an offset of [0, min(queue_length / 2, 10000)]; the offset never exceeds 10000 |
| ScheduledEnq.SmallQueueReseekRaises | lib/sidekiq/scheduled.rb:47-57 | on the first reseek of a set with fewer than 1000 due members, the code as written raises, where the intended reseek would restart at 0 |
| ScheduledEnq.DrainsChain | lib/sidekiq/scheduled.rb:25-35 | two pieces of drain bookkeeping, one after the other, compose into one |
| ScheduledEnq.GoneMeansTaken | lib/sidekiq/scheduled.rb:26-28 | a member that left the set without being pushed by this process was taken by another one |
| ScheduledEnq.StepDrains | lib/sidekiq/scheduled.rb:26-34 | one job, after other processes delete some members: the job is pushed exactly when its `ZREM` finds it; everything else that left the set was deleted by the others; a job of the set that the `ZREM` missed was taken by the others |
| ScheduledEnq.KeptAfterNow | lib/sidekiq/scheduled.rb:20 | after a drain that pushed only due members, every member scored after `now` that no other process took is still in the set, with its score |
| ScheduledEnq.DrainedExactlyOnce | lib/sidekiq/scheduled.rb:18-35 | if no other process took anything and nothing due is left, every member that was due has been pushed exactly once |
| ScheduledEnq.JobStep | lib/sidekiq/scheduled.rb:29-34 | a push follows a `ZREM` that answered true, and a conflict follows one that answered false; either way the bookkeeping carries over; a conflict on a member this process has not pushed means another process took something; whatever the others took came from the members they deleted at this step; a pushed job was in the set and not among those deletions; afterwards the job is out of the set, and what is left was in it before and was not deleted; with no deletions by others nothing is taken |
| ScheduledEnq.TakenFromStep | lib/sidekiq/scheduled.rb:26-29 | what the others take at step `j` extends the record of takings to the steps before `j + 1` |
| ScheduledEnq.TakenFromChain | lib/sidekiq/scheduled.rb:16-35 | takings recorded over steps `[lo, mid)` and `[mid, hi)` together come from steps `[lo, hi)` |
| ScheduledEnq.NextJobFresh | lib/sidekiq/scheduled.rb:25 | the next job of a window of distinct members has not come up earlier in the batch |
| ScheduledEnq.EnqueueStep | lib/sidekiq/scheduled.rb:16 | draining the next set in order keeps the bookkeeping of `enqueue_jobs`; the sets after it stay untouched |
| ScheduledEnq.NothingDueStays | lib/sidekiq/scheduled.rb:16-20 | a set left with nothing due stays that way while the later sets are drained |
| ScheduledEnq.CompetedStep | lib/sidekiq/scheduled.rb:16 | after the next set is drained, everything the others took still comes from the steps made so far; with no competition nothing is taken and every set drained so far has nothing due left |
| ScheduledEnq.GatherNothing | lib/sidekiq/scheduled.rb:16 | parts that flatten to nothing gather to nothing under every name |
| ScheduledEnq.EnqueuedExactlyOnce | lib/sidekiq/scheduled.rb:12-35 | if the others took nothing and no set has anything due left, every member due in every set at the start was pushed exactly once for that set |
| ScheduledEnq.PushedStep | lib/sidekiq/scheduled.rb:25-34 | after one more job, each job handled so far was pushed exactly when no other process deleted it at or before its own `ZREM`, and nothing left in the set was deleted by them during those `ZREM`s |
| ScheduledEnq.BatchEnd | lib/sidekiq/scheduled.rb:24-35 | the state of a batch whose jobs have all been handled gives every promise of `ProcessBatch` about the set, the pushes and the takings |
| ScheduledEnq.ZRemsDueBatch | lib/sidekiq/scheduled.rb:20-29 | a batch of `ZREM`s of members due in the set when its drain began extends the log of `ZREM`s of due members by one entry per job |
| ScheduledEnq.ZRemsDueChain | lib/sidekiq/scheduled.rb:16-35 | the `ZREM`s of one set's drain, of members due in the set as that drain found it, chain onto the earlier ones: all of them are of members due in their set when `enqueue_jobs` began |
| ScheduledEnq.HandledStep | lib/sidekiq/scheduled.rb:25-34 | after one more job, every job of the batch handled so far is out of the set, and each one that was not pushed was taken by another process |
| ScheduledEnq.BatchJob | lib/sidekiq/scheduled.rb:25-34 | one job of a batch keeps the batch's bookkeeping: `counter` plus the number pushed is the number of jobs handled; only batch jobs are pushed; every departure is recorded once; a conflict implies something was taken; takings come from this batch's steps; with no competition nothing is taken |
| ScheduledEnq.SetBatch | lib/sidekiq/scheduled.rb:20-35 | one batch over a window of due members keeps the set's drain accounted for: only due members pushed, every departure recorded once, takings within the steps so far, nothing taken without competition; the batch's members were due when the drain began |
| ScheduledEnq.SetEnd | lib/sidekiq/scheduled.rb:18-59 | at the end of a drain, members scored after `now` stay unless taken, and stay for certain if no step's deletions named them; if nothing was taken and nothing due is left, every due member was pushed exactly once |
| ScheduledEnq.ProcessJob | lib/sidekiq/scheduled.rb:29-34 | one job: the others' deletions, then the `ZREM`, and a push exactly when the `ZREM` answered true; exactly one `ZREM` is sent, of this job |
| ScheduledEnq.ProcessBatch | lib/sidekiq/scheduled.rb:24-35 | one batch: each job is pushed or counted as a conflict, never both (`counter` plus the number pushed is the batch size, which RangeByScore keeps at or below 100, so `0 <= counter <= 100`); only jobs of the batch are pushed; the set loses exactly what was pushed and what the others took; a conflict means another process took something; a non-empty batch shrinks the set; afterwards no job of the batch is in the set, and each job not pushed is among those taken; everything taken was deleted at one of the batch's steps `[k0, k0 + |jobs|)`; job `p` is pushed exactly when no other process deleted it at or before its own `ZREM`, step `k0 + p`; the batch sends one `ZREM` per job, in order; with no competition there are no conflicts and nothing is taken |
| ScheduledEnq.DrainSet | lib/sidekiq/scheduled.rb:18-59 | one set's drain: only members due at `now` are pushed; each member leaves once, pushed or taken; members scored after `now` stay unless taken; a normal end leaves no more due members than the final offset; a raise happens only with the reseek as written, on a short set, after conflicts; with the intended reseek the drain never raises; the drain sends exactly `k - k0` `ZREM`s, each of a member of this set due at `now` when it began; everything taken was deleted at one of those steps `[k0, k)`, and members scored after `now` that no step's deletions named stay; with no competition the drain ends at offset 0 with nothing due left and every due member pushed exactly once, and a set with nothing due is left unchanged with nothing pushed |
| ScheduledEnq.EnqueueJobs | lib/sidekiq/scheduled.rb:12-62 | the sets are drained in the order given; pushes appear in that order; each set has lost exactly what its drain pushed, all of it due at `now`, and what the others took, which may include members scored after `now`; a reseek that raises ends the call after that set, leaving the later sets untouched and earlier removals in place; the call sends exactly `k` `ZREM`s, each naming one of the sets and a member due in it at `now` when the call began; everything taken was deleted at one of those steps `[0, k)`; with no competition every set is drained, nothing due remains, nothing is taken, and every member due in a set at the start is pushed exactly once for it |
| ScheduledPoller.ProcessCount | lib/sidekiq/scheduled.rb:205-209 | `process_count` is 1 when the registry is empty and equals the registry size when that is positive, so it is at least 1 |
| ScheduledPoller.ScaledPollInterval | lib/sidekiq/scheduled.rb:201-203 | the scaled interval divided by the process count is the configured average, so the cluster as a whole polls once per average; it is never below a non-negative average |
| ScheduledPoller.RandomInterval | lib/sidekiq/scheduled.rb:171-178 | with fewer than 10 processes the interval lies in [avg/2, 3avg/2); from 10 on it lies in [0, avg) |
| ScheduledPoller.RandomIntervalCovers | lib/sidekiq/scheduled.rb:171-178 | every interval of those ranges is produced by some draw of `rand` |
| ScheduledPoller.RandomIntervalCentred | lib/sidekiq/scheduled.rb:171-178 | the draws `u` and `1 - u` average to `avg` below 10 processes and to `avg/2` from 10 on: the small-cluster sleep is centred on the average |
| ScheduledPoller.Poller.PollIntervalAverage | lib/sidekiq/scheduled.rb:194-196 | `||=`: a configured or cached average is returned and kept unchanged; otherwise the scaled interval is computed, stored and returned |
| ScheduledPoller.Poller.RandomPollInterval | lib/sidekiq/scheduled.rb:151-179 | the interval uses the current process count with the cached average; after the call the average is cached and, once cached, it never changes |
| ScheduledPoller.Poller.InitialWaitTotal | lib/sidekiq/scheduled.rb:211-217 | the start-up wait lies in [0, 5) when the poll average is configured and in [10, 15) otherwise |
| ScheduledPoller.Poller.Enqueue | lib/sidekiq/scheduled.rb:128-135 | `enqueue` drains the default sets, `retry` then `schedule`, with the reseek as written, and swallows its error; what was pushed before an error stays pushed and accounted for; the call sends exactly `k` `ZREM`s, each of a member of `retry` or `schedule` due at `now`; everything taken was deleted at one of those `k` steps; with no competition nothing is taken and every due member of `retry` and `schedule` is pushed exactly once |

## Left out

- Redis I/O, the connection pool, JSON encoding and decoding, and the logger. A job is the
  member string it is stored under, and a push records that string.
- Scores and `now` are integers. The source uses floats and passes `now` as a float string.
- Time, `rand`, `Array#sample` and `Sidekiq::ProcessSet.new.size` are parameters. Values come
  from `u` in [0, 1), a raw `draw` reduced by `Pick`, and `registrySize`. The registry size is
  read once per call, whereas `random_poll_interval` may query it twice.
- Other processes are a finite schedule of deletions, one set per `ZREM`, given in advance.
  They delete only immediately before one of this process's `ZREM`s. No process adds members
  during a drain: the model has no `ZADD` from clients scheduling jobs meanwhile, and
  `DrainSet`'s termination measure (the size of the set) rests on that. In the source, due
  jobs added during the drain can keep the `until` loop of line 20 running. Runs in which a deletion
  lands just before a `ZRANGEBYSCORE` (line 20) or a `ZCOUNT` (line 45) are not covered: the
  first can change the batch fetched, and the second can bring `queue_length` under 1000 and so
  make line 57 raise where the model does not.
- The poller thread (`start`, `terminate`, `safe_thread`), the sleeper queue, `wait`, and the
  `Timeout::Error` and `handle_exception` paths are concurrency or foreign error reporting.
  `Poller.Enqueue` only records that an error from the drain is dropped.
- The pluggable `Sidekiq.options[:scheduled_enq]` class is not modelled: the enqueuer is always
  `Enq`.
- The unused debug method `x` (lib/sidekiq/scheduled.rb:65-86) is not modelled.
- ScheduledEnq.DrainSet: no clause of its contract speaks about the offset between two
  batches. That a reseek follows only a batch with more than 70 conflicts, and that the offset
  is otherwise kept, is visible in the method's body, not stated as a postcondition.
- ScheduledEnq.EnqueueJobs: it returns the call's step count `k`, which the source does not
  have. `k` is the number of `ZREM`s sent, and only indexes the input schedules.

## Findings

| source | as written | input that shows it | evidently intended | confidence | as-written member | corrected member |
|---|---|---|---|---|---|---|
| lib/sidekiq/scheduled.rb:47-57 | when `queue_length < 1000`, line 49 sets `offset = 0`, but line 57 still runs `offset = (0..max_offset).to_a.sample` with `max_offset` still nil, so `(0..nil).to_a` raises and `enqueue_jobs` ends with the later sets unprocessed; if an earlier reseek of the same set had set `max_offset`, the offset is drawn from that old range instead of being 0 | the first batch of a set with 999 due members in which more than 70 `ZREM`s answer false | a short set restarts its scan at offset 0 and the drain goes on | not executed | ScheduledEnq.SmallQueueReseekRaises | ScheduledEnq.IntendedReseek |

The reseek is a parameter (`ReseekRule`) of `DrainSet` and `EnqueueJobs`. With `Intended`,
`DrainSet` is proved never to raise. `Poller.Enqueue` uses the rule as written, as the poller
does.

The intent is read from the code itself. Line 49 assigns `offset = 0` for a short set, and the
comment on line 48 says that this is good enough there. Line 57 then overwrites that assignment.
The model keeps the code as written in `Reseek` and the intended behaviour in `IntendedReseek`.
