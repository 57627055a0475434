/** A Redis sorted set as the scheduler sees it: members (serialized jobs) with integer
    scores (the time at which each job is due), kept in ascending score order. The
    functions here are the read side of ZRANGEBYSCORE, ZCOUNT and ZREM; the store that
    changes them lives in module Redis. */
module SortedSets {

  /** One member of a sorted set and its score. */
  datatype Entry = Entry(member: string, score: int)

  /** Entry i of `z` is scored at most entry j and holds another member, when i < j. */
  ghost predicate Ordered(z: seq<Entry>, i: int, j: int)
  {
    0 <= i < j < |z| ==> z[i].score <= z[j].score && z[i].member != z[j].member
  }

  /** The store's own invariant on a sorted set: scores ascend along the sequence, and no
      member is stored twice (a member is stored once, however many times it was added). */
  ghost predicate Valid(z: seq<Entry>)
  {
    forall i, j {:trigger Ordered(z, i, j)} :: Ordered(z, i, j)
  }

  /** An entry scored at most every entry of a valid set, and sharing no member with it,
      may be put in front of it. */
  lemma ValidCons(e: Entry, w: seq<Entry>)
    requires Valid(w)
    requires forall x | x in w :: e.score <= x.score && e.member != x.member
    ensures Valid([e] + w)
  {
    var z := [e] + w;
    forall i, j ensures Ordered(z, i, j) {
      if 0 <= i < j < |z| {
        assert z[j] == w[j - 1];
        if i == 0 {
          assert w[j - 1] in w;
        } else {
          assert z[i] == w[i - 1];
          assert Ordered(w, i - 1, j - 1);
        }
      }
    }
  }

  /** The tail of a valid set is valid, and its head is scored at most every later entry
      and shares no member with them. */
  lemma ValidTail(z: seq<Entry>)
    requires Valid(z) && z != []
    ensures Valid(z[1..])
    ensures forall x | x in z[1..] :: z[0].score <= x.score && z[0].member != x.member
  {
    forall x | x in z[1..] ensures z[0].score <= x.score && z[0].member != x.member {
      var j :| 0 <= j < |z| - 1 && z[1..][j] == x;
      assert z[j + 1] == x;
      assert Ordered(z, 0, j + 1);
    }
    forall i, j ensures Ordered(z[1..], i, j) {
      assert Ordered(z, i + 1, j + 1);
    }
  }

  /** In a valid set, entries at two different positions hold different members. */
  lemma ValidAt(z: seq<Entry>, i: nat, j: nat)
    requires Valid(z) && i < |z| && j < |z| && i != j
    ensures z[i].member != z[j].member
  {
    assert Ordered(z, i, j) && Ordered(z, j, i);
  }

  /** The members of `z`, in store order. */
  function Members(z: seq<Entry>): (ms: seq<string>)
    ensures |ms| == |z|
  {
    if z == [] then [] else [z[0].member] + Members(z[1..])
  }

  /** Position i of the members is the member of entry i. */
  lemma {:induction false} MembersAt(z: seq<Entry>)
    ensures forall i | 0 <= i < |z| :: Members(z)[i] == z[i].member
  {
    if z != [] {
      MembersAt(z[1..]);
    }
  }

  /** How often `m` occurs in `s`. */
  function Occurrences(s: seq<string>, m: string): (n: nat)
    ensures n <= |s|
    ensures n > 0 <==> m in s
  {
    if s == [] then 0
    else
      assert s == [s[0]] + s[1..];
      (if s[0] == m then 1 else 0) + Occurrences(s[1..], m)
  }

  lemma OccurrencesCons(x: string, s: seq<string>, m: string)
    ensures Occurrences([x] + s, m) == (if x == m then 1 else 0) + Occurrences(s, m)
  {
    assert ([x] + s)[1..] == s;
  }

  /** Occurrences add up over a concatenation. */
  lemma {:induction false} OccurrencesAppend(a: seq<string>, b: seq<string>, m: string)
    ensures Occurrences(a + b, m) == Occurrences(a, m) + Occurrences(b, m)
  {
    if a != [] {
      OccurrencesAppend(a[1..], b, m);
      assert a + b == [a[0]] + (a[1..] + b);
      OccurrencesCons(a[0], a[1..] + b, m);
    } else {
      assert a + b == b;
    }
  }

  /** In a sequence without repetitions, the value at each position occurs once. */
  lemma {:induction false} OccurrencesDistinct(s: seq<string>, i: nat)
    requires i < |s|
    requires forall a, b | 0 <= a < b < |s| :: s[a] != s[b]
    ensures Occurrences(s, s[i]) == 1
  {
    if i == 0 {
      assert s[0] !in s[1..];
    } else {
      OccurrencesDistinct(s[1..], i - 1);
    }
  }

  /** The members scored at or before `now`. */
  ghost function DueMembers(z: seq<Entry>, now: int): set<string>
  {
    set e | e in z && e.score <= now :: e.member
  }

  /** The entries scored at or before `now`, in store order. */
  function Due(z: seq<Entry>, now: int): (d: seq<Entry>)
    ensures |d| <= |z|
  {
    if z == [] then []
    else if z[0].score <= now then [z[0]] + Due(z[1..], now)
    else Due(z[1..], now)
  }

  /** The due entries are exactly the entries scored at or before `now`. */
  lemma {:induction false} DueIn(z: seq<Entry>, now: int)
    ensures forall e :: e in Due(z, now) <==> e in z && e.score <= now
  {
    if z != [] {
      DueIn(z[1..], now);
      assert z == [z[0]] + z[1..];
    }
  }

  /** `z` after a ZREM of every member in `gone`. */
  function Without(z: seq<Entry>, gone: set<string>): (r: seq<Entry>)
    ensures |r| <= |z|
  {
    if z == [] then []
    else if z[0].member in gone then Without(z[1..], gone)
    else [z[0]] + Without(z[1..], gone)
  }

  /** The entries that a ZREM of every member in `gone` deletes from `z`. */
  function Only(z: seq<Entry>, gone: set<string>): seq<Entry>
  {
    if z == [] then []
    else if z[0].member in gone then [z[0]] + Only(z[1..], gone)
    else Only(z[1..], gone)
  }

  /** A ZREM of no member deletes nothing. */
  lemma {:induction false} OnlyNothing(z: seq<Entry>)
    ensures Only(z, {}) == []
  {
    if z != [] {
      OnlyNothing(z[1..]);
    }
  }

  /** A ZREM of `gone` keeps exactly the entries whose member is not in `gone`. */
  lemma {:induction false} WithoutIn(z: seq<Entry>, gone: set<string>)
    ensures forall e :: e in Without(z, gone) <==> e in z && e.member !in gone
  {
    if z != [] {
      WithoutIn(z[1..], gone);
      assert z == [z[0]] + z[1..];
    }
  }

  /** A ZREM of `gone` deletes exactly the entries whose member is in `gone`. */
  lemma {:induction false} OnlyIn(z: seq<Entry>, gone: set<string>)
    ensures forall e :: e in Only(z, gone) <==> e in z && e.member in gone
  {
    if z != [] {
      OnlyIn(z[1..], gone);
      assert z == [z[0]] + z[1..];
    }
  }

  /** ZCOUNT key -inf now. */
  function Count(z: seq<Entry>, now: int): (n: nat)
    ensures n <= |z|
    ensures n == 0 <==> forall e | e in z :: e.score > now
  {
    var d := Due(z, now);
    DueIn(z, now);
    assert d != [] ==> d[0] in d;
    |d|
  }

  /** In a valid set, ZCOUNT key -inf now is the number of distinct members due at `now`. */
  lemma {:induction false} CountIsDueMembers(z: seq<Entry>, now: int)
    requires Valid(z)
    ensures Count(z, now) == |DueMembers(z, now)|
  {
    if z == [] {
      assert DueMembers(z, now) == {};
    } else {
      ValidTail(z);
      CountIsDueMembers(z[1..], now);
      assert z == [z[0]] + z[1..];
      if z[0].score <= now {
        assert DueMembers(z, now) == {z[0].member} + DueMembers(z[1..], now);
        assert z[0].member !in DueMembers(z[1..], now);
      } else {
        assert DueMembers(z, now) == DueMembers(z[1..], now);
      }
    }
  }

  /** ZRANGEBYSCORE key -inf now LIMIT offset limit: the due members of `z` in store order,
      skipping the first `offset` of them and returning at most `limit`. */
  function RangeByScore(z: seq<Entry>, now: int, offset: nat, limit: nat): (r: seq<string>)
    requires Valid(z)
    ensures |r| <= limit
    ensures r == [] <==> limit == 0 || offset >= Count(z, now)
    ensures offset < Count(z, now) ==>
              |r| == if offset + limit <= Count(z, now) then limit else Count(z, now) - offset
    ensures forall m | m in r :: m in DueMembers(z, now) && m in Members(z)
    ensures forall i, j | 0 <= i < j < |r| :: r[i] != r[j]
  {
    var d := Due(z, now);
    if offset >= |d| then []
    else
      var hi := if offset + limit < |d| then offset + limit else |d|;
      var r := Members(d[offset..hi]);
      WindowFacts(z, now, offset, hi, r);
      r
  }

  /** A slice of the due entries of a valid set names distinct due members of the set. */
  lemma WindowFacts(z: seq<Entry>, now: int, lo: nat, hi: nat, r: seq<string>)
    requires Valid(z) && lo <= hi <= |Due(z, now)|
    requires r == Members(Due(z, now)[lo..hi])
    ensures forall m | m in r :: m in DueMembers(z, now) && m in Members(z)
    ensures forall i, j | 0 <= i < j < |r| :: r[i] != r[j]
  {
    var d := Due(z, now);
    DueValid(z, now);
    DueIn(z, now);
    MembersAt(d[lo..hi]);
    forall m | m in r ensures m in DueMembers(z, now) && m in Members(z) {
      var i :| 0 <= i < |r| && r[i] == m;
      assert d[lo + i] in d;
      InMembers(z, d[lo + i]);
    }
    forall i, j | 0 <= i < j < |r| ensures r[i] != r[j] {
      ValidAt(d, lo + i, lo + j);
    }
  }

  lemma {:induction false} DueValid(z: seq<Entry>, now: int)
    requires Valid(z)
    ensures Valid(Due(z, now))
  {
    if z != [] {
      ValidTail(z);
      DueValid(z[1..], now);
      if z[0].score <= now {
        DueIn(z[1..], now);
        ValidCons(z[0], Due(z[1..], now));
      }
    }
  }

  lemma {:induction false} WithoutValid(z: seq<Entry>, gone: set<string>)
    requires Valid(z)
    ensures Valid(Without(z, gone))
  {
    if z != [] {
      ValidTail(z);
      WithoutValid(z[1..], gone);
      if z[0].member !in gone {
        WithoutIn(z[1..], gone);
        ValidCons(z[0], Without(z[1..], gone));
      }
    }
  }

  lemma MembersCons(e: Entry, z: seq<Entry>)
    ensures Members([e] + z) == [e.member] + Members(z)
  {
  }

  /** A ZREM of `gone` splits the set: every member is either kept or deleted, once. */
  lemma {:induction false} Split(z: seq<Entry>, gone: set<string>)
    ensures |Without(z, gone)| + |Only(z, gone)| == |z|
    ensures forall m :: Occurrences(Members(z), m)
                        == Occurrences(Members(Without(z, gone)), m) + Occurrences(Members(Only(z, gone)), m)
  {
    if z != [] {
      Split(z[1..], gone);
      MembersCons(z[0], z[1..]);
      assert z == [z[0]] + z[1..];
      forall m ensures Occurrences(Members(z), m)
                       == Occurrences(Members(Without(z, gone)), m) + Occurrences(Members(Only(z, gone)), m)
      {
        OccurrencesCons(z[0].member, Members(z[1..]), m);
        if z[0].member in gone {
          MembersCons(z[0], Only(z[1..], gone));
          OccurrencesCons(z[0].member, Members(Only(z[1..], gone)), m);
        } else {
          MembersCons(z[0], Without(z[1..], gone));
          OccurrencesCons(z[0].member, Members(Without(z[1..], gone)), m);
        }
      }
    }
  }

  /** In a valid set a member is stored at most once, so a ZREM of one member deletes that
      member exactly when it is present, and nothing else. */
  lemma {:induction false} OnlyOne(z: seq<Entry>, m: string)
    requires Valid(z)
    ensures Members(Only(z, {m})) == if m in Members(z) then [m] else []
  {
    if z != [] {
      ValidTail(z);
      OnlyOne(z[1..], m);
      MembersCons(z[0], z[1..]);
      if z[0].member == m {
        MembersAt(z[1..]);
        forall i | 0 <= i < |z| - 1 ensures Members(z[1..])[i] != m {
          assert z[1..][i] in z[1..];
        }
        MembersCons(z[0], Only(z[1..], {m}));
      }
    }
  }

  lemma InMembers(z: seq<Entry>, e: Entry)
    requires e in z
    ensures e.member in Members(z)
  {
    var i :| 0 <= i < |z| && z[i] == e;
    MembersAt(z);
  }

  /** A member of a valid set names one entry. */
  lemma SameMember(z: seq<Entry>, a: Entry, b: Entry)
    requires Valid(z) && a in z && b in z && a.member == b.member
    ensures a == b
  {
    var i :| 0 <= i < |z| && z[i] == a;
    var j :| 0 <= j < |z| && z[j] == b;
    if i != j {
      ValidAt(z, i, j);
    }
  }

  /** What a ZREM of `gone` deletes are members of `gone`. */
  lemma OnlyMembers(z: seq<Entry>, gone: set<string>)
    ensures forall m | m in Members(Only(z, gone)) :: m in gone
  {
    OnlyIn(z, gone);
    MembersAt(Only(z, gone));
    forall m | m in Members(Only(z, gone)) ensures m in gone {
      var i :| 0 <= i < |Only(z, gone)| && Members(Only(z, gone))[i] == m;
      assert Only(z, gone)[i] in Only(z, gone);
    }
  }

  /** What is left after deleting `gone` are members of the set, none of them in `gone`. */
  lemma WithoutMembers(z: seq<Entry>, gone: set<string>)
    ensures forall m | m in Members(Without(z, gone)) :: m in Members(z) && m !in gone
  {
    WithoutIn(z, gone);
    MembersAt(Without(z, gone));
    forall m | m in Members(Without(z, gone)) ensures m in Members(z) && m !in gone {
      var i :| 0 <= i < |Without(z, gone)| && Members(Without(z, gone))[i] == m;
      assert Without(z, gone)[i] in Without(z, gone);
      InMembers(z, Without(z, gone)[i]);
    }
  }

  /** Deleting entries never makes a member due. */
  lemma DueMembersShrink(a: seq<Entry>, b: seq<Entry>, now: int)
    requires forall e | e in a :: e in b
    ensures DueMembers(a, now) <= DueMembers(b, now)
  {
    forall m | m in DueMembers(a, now) ensures m in DueMembers(b, now) {
      var e :| e in a && e.score <= now && e.member == m;
      assert e in b;
    }
  }
}
