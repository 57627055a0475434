/** The part of Redis the scheduler talks to: named sorted sets (the "retry" and
    "schedule" sets among them) and the job queue that Sidekiq::Client.push feeds.
    The connection, the wire protocol and JSON decoding are not part of this model;
    a pushed job is recorded as the member string it was stored under. */
module Redis {
  import opened SortedSets

  /** The set stored under `name`; an absent key reads as the empty set. */
  function Lookup(sets: map<string, seq<Entry>>, name: string): seq<Entry>
  {
    if name in sets then sets[name] else []
  }

  /** `sets` with the set under `name` replaced by `z`; an absent key stays absent. */
  function Put(sets: map<string, seq<Entry>>, name: string, z: seq<Entry>): map<string, seq<Entry>>
  {
    if name in sets then sets[name := z] else sets
  }

  /** `a` and `b` hold the same keys, and the same sets except perhaps under `name`. */
  ghost predicate Elsewhere(a: map<string, seq<Entry>>, b: map<string, seq<Entry>>, name: string)
  {
    a.Keys == b.Keys && forall n | n != name :: Lookup(a, n) == Lookup(b, n)
  }

  /** Sets that differ only under `name` are one Put apart. */
  lemma ElsewherePut(a: map<string, seq<Entry>>, b: map<string, seq<Entry>>, name: string)
    requires Elsewhere(a, b, name)
    ensures b == Put(a, name, Lookup(b, name))
  {
    assert forall n | n in b :: b[n] == Lookup(b, n);
  }

  /** One ZREM this client sent: the key and the member it named. */
  datatype Removal = Removal(key: string, member: string)

  /** The ZREMs of `members` from the set `name`, one after the other. */
  function ZRemsOf(name: string, members: seq<string>): (r: seq<Removal>)
    ensures |r| == |members|
  {
    if members == [] then [] else [Removal(name, members[0])] + ZRemsOf(name, members[1..])
  }

  /** ZREM number `p` of the run is the one of `members[p]`. */
  lemma {:induction false} ZRemsOfAt(name: string, members: seq<string>)
    ensures forall p | 0 <= p < |members| :: ZRemsOf(name, members)[p] == Removal(name, members[p])
  {
    if members != [] {
      ZRemsOfAt(name, members[1..]);
    }
  }

  /** A log that holds the ZREMs of the first `i` members, after one more ZREM, holds those
      of the first `i + 1`. */
  lemma ZRemsOfStep(log0: seq<Removal>, log: seq<Removal>, name: string, members: seq<string>, i: nat)
    requires i < |members| && log == log0 + ZRemsOf(name, members[..i])
    ensures log + [Removal(name, members[i])] == log0 + ZRemsOf(name, members[..i + 1])
  {
    ZRemsOfAt(name, members[..i]);
    ZRemsOfAt(name, members[..i + 1]);
  }

  ghost predicate AllValid(sets: map<string, seq<Entry>>)
  {
    forall name | name in sets :: SortedSets.Valid(sets[name])
  }

  class Store {
    /** Every sorted set, by key. A key that is absent reads as the empty set. */
    var zsets: map<string, seq<Entry>>
    /** Every job handed to Sidekiq::Client.push, in push order. */
    var pushed: seq<string>
    /** Every ZREM this client has sent, in order; a record kept for the proofs only. */
    ghost var zrems: seq<Removal>

    ghost predicate Valid()
      reads this
    {
      AllValid(zsets)
    }

    /** The sorted set stored under `name`. */
    function Get(name: string): seq<Entry>
      reads this
    {
      Lookup(zsets, name)
    }

    constructor (sets: map<string, seq<Entry>>)
      requires AllValid(sets)
      ensures Valid()
      ensures zsets == sets && pushed == [] && zrems == []
    {
      zsets := sets;
      pushed := [];
      zrems := [];
    }

    /** ZRANGEBYSCORE name -inf now LIMIT offset limit */
    function ZRangeByScore(name: string, now: int, offset: nat, limit: nat): seq<string>
      reads this
      requires Valid()
    {
      RangeByScore(Get(name), now, offset, limit)
    }

    /** ZCOUNT name -inf now */
    function ZCount(name: string, now: int): nat
      reads this
    {
      Count(Get(name), now)
    }

    /** ZREM name member: deletes `member` and answers whether it was there. Redis runs it
        atomically, so of several clients removing the same member only one is told true. */
    method ZRem(name: string, member: string) returns (removed: bool)
      requires Valid()
      modifies this
      ensures Valid()
      ensures removed <==> member in Members(old(Get(name)))
      ensures Elsewhere(old(zsets), zsets, name)
      ensures Get(name) == Without(old(Get(name)), {member})
      ensures pushed == old(pushed)
      ensures zrems == old(zrems) + [Removal(name, member)]
    {
      removed := member in Members(Get(name));
      zrems := zrems + [Removal(name, member)];
      WithoutValid(Get(name), {member});
      zsets := Put(zsets, name, Without(Get(name), {member}));
    }

    /** Other scanners, in other processes, deleting `members` from the set between two of
        this scanner's commands. Answers (as a ghost value) the members they actually took. */
    method RemoveByOthers(name: string, members: set<string>) returns (ghost taken: seq<string>)
      requires Valid()
      modifies this
      ensures Valid()
      ensures taken == Members(Only(old(Get(name)), members))
      ensures Elsewhere(old(zsets), zsets, name)
      ensures Get(name) == Without(old(Get(name)), members)
      ensures pushed == old(pushed) && zrems == old(zrems)
    {
      taken := Members(Only(Get(name), members));
      WithoutValid(Get(name), members);
      zsets := Put(zsets, name, Without(Get(name), members));
    }

    /** Sidekiq::Client.push of a job read back from a sorted set. */
    method Push(job: string)
      modifies this
      ensures pushed == old(pushed) + [job]
      ensures zsets == old(zsets) && zrems == old(zrems)
    {
      pushed := pushed + [job];
    }
  }
}
