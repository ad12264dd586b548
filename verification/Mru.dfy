/**
 Recency (src/mru.rs): a bounded list of the windows last in the foreground, and the order it
 gives to a snapshot of applications and their windows.
 */
module Mru {
  /** A window, and which of the windows that had this handle it is. */
  datatype Identity = Identity(window: nat, life: nat)

  const UNRANKED: nat := 0xFFFF_FFFF_FFFF_FFFF

  // ---- Observing ---------------------------------------------------------

  function Others(list: seq<Identity>, window: nat): seq<Identity> {
    if list == [] then []
    else (if list[0].window == window then [] else [list[0]]) + Others(list[1..], window)
  }

  function Truncated(list: seq<Identity>, limit: nat): seq<Identity> {
    if |list| <= limit then list else list[..limit]
  }

  /** `observe`. */
  function Observed(recent: seq<Identity>, limit: nat, id: Identity): seq<Identity> {
    if limit == 0 || (recent != [] && recent[0] == id) then recent
    else Truncated([id] + Others(recent, id.window), limit)
  }

  function ObservedAll(limit: nat, ids: seq<Identity>): seq<Identity> {
    if ids == [] then [] else Observed(ObservedAll(limit, ids[..|ids| - 1]), limit, ids[|ids| - 1])
  }

  /** The list without a bound: every window ever seen, the last seen first. */
  function MovedToFront(list: seq<Identity>, id: Identity): seq<Identity> {
    [id] + Others(list, id.window)
  }

  function History(ids: seq<Identity>): seq<Identity> {
    if ids == [] then [] else MovedToFront(History(ids[..|ids| - 1]), ids[|ids| - 1])
  }

  predicate DistinctWindows(list: seq<Identity>) {
    forall i, j :: 0 <= i < j < |list| ==> list[i].window != list[j].window
  }

  lemma {:induction false} OthersAre(list: seq<Identity>, window: nat)
    ensures forall x :: x in Others(list, window) <==> x in list && x.window != window
    ensures DistinctWindows(list) ==> DistinctWindows(Others(list, window))
    ensures (forall x :: x in list ==> x.window != window) ==> Others(list, window) == list
    decreases |list|
  {
    if list != [] {
      var head, tail := list[0], list[1..];
      OthersAre(tail, window);
      assert list == [head] + tail;
      if DistinctWindows(list) {
        DistinctTail(head, tail);
      }
    }
  }

  lemma HeadApart(list: seq<Identity>)
    requires list != [] && DistinctWindows(list)
    ensures forall x :: x in list[1..] ==> x.window != list[0].window
  {
  }

  lemma {:induction false} HistoryIsDistinct(ids: seq<Identity>)
    ensures DistinctWindows(History(ids))
    decreases |ids|
  {
    if ids != [] {
      var list, id := History(ids[..|ids| - 1]), ids[|ids| - 1];
      HistoryIsDistinct(ids[..|ids| - 1]);
      OthersAre(list, id.window);
    }
  }

  lemma TruncatedAgain(list: seq<Identity>, m: nat, n: nat)
    requires m <= n
    ensures Truncated(Truncated(list, n), m) == Truncated(list, m)
  {
  }

  lemma ConsTruncated(id: Identity, list: seq<Identity>, limit: nat)
    requires limit > 0
    ensures Truncated([id] + list, limit) == [id] + Truncated(list, limit - 1)
  {
  }

  lemma OthersCons(head: Identity, tail: seq<Identity>, window: nat)
    ensures Others([head] + tail, window) == (if head.window == window then [] else [head]) + Others(tail, window)
  {
    assert ([head] + tail)[1..] == tail;
  }

  lemma DistinctTail(head: Identity, tail: seq<Identity>)
    requires DistinctWindows([head] + tail)
    ensures DistinctWindows(tail) && forall x :: x in tail ==> x.window != head.window
  {
    var list := [head] + tail;
    forall i | 0 <= i < |tail|
      ensures tail[i] == list[i + 1] && tail[i].window != head.window
    {
      assert list[0] == head;
    }
  }

  lemma NoneLeftOut(list: seq<Identity>, window: nat, limit: nat)
    requires forall x :: x in list ==> x.window != window
    ensures Others(list, window) == list && Others(Truncated(list, limit), window) == Truncated(list, limit)
    ensures Truncated(Truncated(list, limit), limit) == Truncated(list, limit)
  {
    OthersAre(list, window);
    OthersAre(Truncated(list, limit), window);
    TruncatedAgain(list, limit, limit);
  }

  /** Of a list without repeats, leaving one window out and truncating commute, up to one place. */
  lemma {:induction false} OthersOfTruncated(list: seq<Identity>, window: nat, limit: nat)
    requires DistinctWindows(list) && limit > 0
    ensures Truncated(Others(Truncated(list, limit), window), limit - 1) == Truncated(Others(list, window), limit - 1)
    decreases |list|
  {
    if list != [] {
      var head, tail := list[0], list[1..];
      assert list == [head] + tail;
      DistinctTail(head, tail);
      ConsTruncated(head, tail, limit);
      OthersCons(head, tail, window);
      OthersCons(head, Truncated(tail, limit - 1), window);
      if head.window == window {
        NoneLeftOut(tail, window, limit - 1);
      } else if limit > 1 {
        OthersOfTruncated(tail, window, limit - 1);
        ConsTruncated(head, Others(tail, window), limit - 1);
        ConsTruncated(head, Others(Truncated(tail, limit - 1), window), limit - 1);
      }
    }
  }

  lemma AlreadyInFront(list: seq<Identity>)
    requires list != [] && DistinctWindows(list)
    ensures MovedToFront(list, list[0]) == list
  {
    HeadApart(list);
    OthersAre(list[1..], list[0].window);
    assert list == [list[0]] + list[1..];
  }

  lemma ObservedIsTruncated(list: seq<Identity>, limit: nat, id: Identity)
    requires DistinctWindows(list) && limit > 0
    ensures Observed(Truncated(list, limit), limit, id) == Truncated(MovedToFront(list, id), limit)
  {
    var recent := Truncated(list, limit);
    if recent != [] && recent[0] == id {
      AlreadyInFront(list);
    } else {
      OthersOfTruncated(list, id.window, limit);
      ConsTruncated(id, Others(recent, id.window), limit);
      ConsTruncated(id, Others(list, id.window), limit);
    }
  }

  /** Whatever is observed, the list kept is the beginning of the full history: the last `limit`
      windows in the foreground, the last one first. */
  lemma {:induction false} RecentIsHistory(limit: nat, ids: seq<Identity>)
    ensures ObservedAll(limit, ids) == Truncated(History(ids), limit)
    decreases |ids|
  {
    if ids != [] {
      var init := ids[..|ids| - 1];
      RecentIsHistory(limit, init);
      HistoryIsDistinct(init);
      if limit > 0 {
        ObservedIsTruncated(History(init), limit, ids[|ids| - 1]);
      } else {
        assert ObservedAll(limit, ids) == ObservedAll(limit, init);
      }
    }
  }

  /** A window handle used again never inherits the rank of the window that had it before. */
  lemma HistoryHoldsTheLatest(ids: seq<Identity>)
    requires ids != []
    ensures History(ids)[0] == ids[|ids| - 1]
    ensures forall x :: x in History(ids)[1..] ==> x.window != ids[|ids| - 1].window
  {
    OthersAre(History(ids[..|ids| - 1]), ids[|ids| - 1].window);
  }

  // ---- Stable sorting ----------------------------------------------------

  function Insert<T>(x: T, sorted: seq<T>, key: T -> int): seq<T> {
    if sorted == [] || key(x) <= key(sorted[0]) then [x] + sorted
    else [sorted[0]] + Insert(x, sorted[1..], key)
  }

  /** The stable sort, by key, of the standard library. */
  function Sorted<T>(s: seq<T>, key: T -> int): seq<T> {
    if s == [] then [] else Insert(s[0], Sorted(s[1..], key), key)
  }

  predicate IsSorted<T>(s: seq<T>, key: T -> int) {
    forall i, j :: 0 <= i < j < |s| ==> key(s[i]) <= key(s[j])
  }

  /** The elements of one key, in order. */
  function WithKey<T>(s: seq<T>, key: T -> int, k: int): seq<T> {
    if s == [] then [] else (if key(s[0]) == k then [s[0]] else []) + WithKey(s[1..], key, k)
  }

  lemma HeadIsLeast<T>(sorted: seq<T>, key: T -> int)
    requires sorted != [] && IsSorted(sorted, key)
    ensures forall y :: y in sorted[1..] ==> key(sorted[0]) <= key(y)
  {
  }

  lemma {:induction false} InsertSorts<T>(x: T, sorted: seq<T>, key: T -> int)
    requires IsSorted(sorted, key)
    ensures IsSorted(Insert(x, sorted, key), key)
    decreases |sorted|
  {
    if sorted == [] {
    } else if key(x) <= key(sorted[0]) {
      LeastFirst(x, sorted, key);
    } else {
      var head, tail := sorted[0], sorted[1..];
      InsertSorts(x, tail, key);
      var inserted := Insert(x, tail, key);
      HeadIsLeast(sorted, key);
      forall y | y in inserted
        ensures key(head) <= key(y)
      {
        InsertAdds(x, tail, key, y);
      }
      LeastFirst(head, inserted, key);
    }
  }

  lemma {:induction false} InsertAdds<T>(x: T, sorted: seq<T>, key: T -> int, y: T)
    ensures y in Insert(x, sorted, key) <==> y == x || y in sorted
    decreases |sorted|
  {
    if sorted != [] && key(x) > key(sorted[0]) {
      InsertAdds(x, sorted[1..], key, y);
      assert sorted == [sorted[0]] + sorted[1..];
    }
  }

  lemma LeastFirst<T>(x: T, sorted: seq<T>, key: T -> int)
    requires IsSorted(sorted, key)
    requires (sorted != [] && key(x) <= key(sorted[0])) || forall y :: y in sorted ==> key(x) <= key(y)
    ensures IsSorted([x] + sorted, key)
  {
  }

  lemma {:induction false} InsertIsStable<T>(x: T, sorted: seq<T>, key: T -> int, k: int)
    requires IsSorted(sorted, key)
    ensures WithKey(Insert(x, sorted, key), key, k) == (if key(x) == k then [x] else []) + WithKey(sorted, key, k)
    decreases |sorted|
  {
    if sorted == [] || key(x) <= key(sorted[0]) {
      WithKeyCons(x, sorted, key, k);
    } else {
      var head, tail := sorted[0], sorted[1..];
      InsertIsStable(x, tail, key, k);
      WithKeyCons(head, Insert(x, tail, key), key, k);
      var rest := WithKey(tail, key, k);
      assert [] + rest == rest && [] + ([x] + rest) == [x] + rest;
    }
  }

  lemma WithKeyCons<T>(head: T, tail: seq<T>, key: T -> int, k: int)
    ensures WithKey([head] + tail, key, k) == (if key(head) == k then [head] else []) + WithKey(tail, key, k)
  {
    assert ([head] + tail)[1..] == tail;
  }

  /** Sorting puts the elements in order of their keys, and keeps those of each key as they were:
      so it is a permutation, and a stable one. */
  lemma {:induction false} SortIsStable<T>(s: seq<T>, key: T -> int, k: int)
    ensures IsSorted(Sorted(s, key), key) && WithKey(Sorted(s, key), key, k) == WithKey(s, key, k)
    ensures multiset(Sorted(s, key)) == multiset(s)
    ensures forall y :: y in Sorted(s, key) <==> y in s
    ensures |Sorted(s, key)| == |s|
    decreases |s|
  {
    if s != [] {
      SortIsStable(s[1..], key, k);
      InsertSorts(s[0], Sorted(s[1..], key), key);
      InsertIsStable(s[0], Sorted(s[1..], key), key, k);
      InsertAddsOne(s[0], Sorted(s[1..], key), key);
      assert s == [s[0]] + s[1..];
      SameElements(Sorted(s, key), s);
    }
  }

  lemma {:induction false} InsertAddsOne<T>(x: T, sorted: seq<T>, key: T -> int)
    ensures multiset(Insert(x, sorted, key)) == multiset{x} + multiset(sorted)
    decreases |sorted|
  {
    if sorted != [] && key(x) > key(sorted[0]) {
      InsertAddsOne(x, sorted[1..], key);
      assert sorted == [sorted[0]] + sorted[1..];
    }
  }

  lemma SameElements<T>(a: seq<T>, b: seq<T>)
    requires multiset(a) == multiset(b)
    ensures |a| == |b|
    ensures forall y :: y in a <==> y in b
  {
    assert |multiset(a)| == |a| && |multiset(b)| == |b|;
    forall y
      ensures y in a <==> y in b
    {
      assert y in multiset(a) <==> y in a;
      assert y in multiset(b) <==> y in b;
    }
  }

  // ---- Ordering a snapshot -----------------------------------------------

  datatype Record = Record(identity: Identity, data: nat)

  datatype Group = Group(key: nat, records: seq<Record>)

  /** Its place in the list, or last of all. */
  function Rank(recent: seq<Identity>, id: Identity): nat {
    if recent == [] then UNRANKED
    else if recent[0] == id then 0
    else
      var later := Rank(recent[1..], id);
      if later == UNRANKED then UNRANKED else later + 1
  }

  function RecordRank(recent: seq<Identity>): Record -> int {
    (r: Record) => Rank(recent, r.identity)
  }

  /** A group ranks with its first window; a group without any comes before all others. */
  function GroupRank(recent: seq<Identity>): Group -> int {
    (g: Group) => if g.records == [] then -1 else Rank(recent, g.records[0].identity)
  }

  function SortedGroup(recent: seq<Identity>, g: Group): Group {
    Group(g.key, Sorted(g.records, RecordRank(recent)))
  }

  function SortedGroups(recent: seq<Identity>, groups: seq<Group>): seq<Group> {
    if groups == [] then [] else [SortedGroup(recent, groups[0])] + SortedGroups(recent, groups[1..])
  }

  /** `order`: windows within each application, then applications by their first window. */
  function Ordered(recent: seq<Identity>, groups: seq<Group>): seq<Group> {
    Sorted(SortedGroups(recent, groups), GroupRank(recent))
  }

  lemma {:induction false} SortedGroupsAre(recent: seq<Identity>, groups: seq<Group>)
    ensures |SortedGroups(recent, groups)| == |groups|
    ensures forall i :: 0 <= i < |groups| ==> SortedGroups(recent, groups)[i] == SortedGroup(recent, groups[i])
    decreases |groups|
  {
    if groups != [] {
      SortedGroupsAre(recent, groups[1..]);
    }
  }

  /** Ordering only permutes: every application is there once as often as before, those of one rank in
      their old order, each with its own windows, those of one rank in their old order. */
  lemma OrderPermutes(recent: seq<Identity>, groups: seq<Group>, k: int, i: nat)
    requires i < |groups|
    ensures |Ordered(recent, groups)| == |SortedGroups(recent, groups)| == |groups|
    ensures WithKey(Ordered(recent, groups), GroupRank(recent), k)
         == WithKey(SortedGroups(recent, groups), GroupRank(recent), k)
    ensures var sorted := SortedGroup(recent, groups[i]);
      && SortedGroups(recent, groups)[i] == sorted && sorted in Ordered(recent, groups) && sorted.key == groups[i].key
      && WithKey(sorted.records, RecordRank(recent), k) == WithKey(groups[i].records, RecordRank(recent), k)
      && |sorted.records| == |groups[i].records|
  {
    SortedGroupsAre(recent, groups);
    SortIsStable(SortedGroups(recent, groups), GroupRank(recent), k);
    SortIsStable(groups[i].records, RecordRank(recent), k);
    assert SortedGroups(recent, groups)[i] in SortedGroups(recent, groups);
  }

  lemma GroupRanksWithItsBest(recent: seq<Identity>, g: Group, j: nat)
    requires j < |g.records|
    ensures var sorted := SortedGroup(recent, g);
      sorted.records != [] && GroupRank(recent)(sorted) <= Rank(recent, g.records[j].identity)
  {
    var sorted := SortedGroup(recent, g);
    SortIsStable(g.records, RecordRank(recent), 0);
    assert g.records[j] in sorted.records;
    var n :| 0 <= n < |sorted.records| && sorted.records[n] == g.records[j];
    assert RecordRank(recent)(sorted.records[0]) <= RecordRank(recent)(sorted.records[n]);
  }

  lemma FirstGroupRanksBest(recent: seq<Identity>, groups: seq<Group>, i: nat)
    requires i < |groups|
    ensures Ordered(recent, groups) != []
         && GroupRank(recent)(Ordered(recent, groups)[0]) <= GroupRank(recent)(SortedGroup(recent, groups[i]))
  {
    var ordered, sorted := Ordered(recent, groups), SortedGroup(recent, groups[i]);
    OrderPermutes(recent, groups, 0, i);
    var m :| 0 <= m < |ordered| && ordered[m] == sorted;
    SortIsStable(SortedGroups(recent, groups), GroupRank(recent), 0);
    assert GroupRank(recent)(ordered[0]) <= GroupRank(recent)(ordered[m]);
  }

  /** The most recent window of all those listed heads the first application. */
  lemma MostRecentComesFirst(recent: seq<Identity>, groups: seq<Group>, i: nat, j: nat)
    requires forall g :: g in groups ==> g.records != []
    requires i < |groups| && j < |groups[i].records|
    ensures var first := Ordered(recent, groups)[0];
      |Ordered(recent, groups)| == |groups| && first.records != []
      && Rank(recent, first.records[0].identity) <= Rank(recent, groups[i].records[j].identity)
  {
    GroupRanksWithItsBest(recent, groups[i], j);
    FirstGroupRanksBest(recent, groups, i);
    FirstHasRecords(recent, groups);
  }

  lemma FirstHasRecords(recent: seq<Identity>, groups: seq<Group>)
    requires groups != [] && forall g :: g in groups ==> g.records != []
    ensures |Ordered(recent, groups)| == |groups| && Ordered(recent, groups)[0].records != []
  {
    SortedGroupsAre(recent, groups);
    SortIsStable(SortedGroups(recent, groups), GroupRank(recent), 0);
    assert Ordered(recent, groups)[0] in Ordered(recent, groups);
    var i :| 0 <= i < |groups| && SortedGroups(recent, groups)[i] == Ordered(recent, groups)[0];
    SortIsStable(groups[i].records, RecordRank(recent), 0);
    assert groups[i] in groups;
  }

  // ---- As the code keeps it ----------------------------------------------

  /** `seed`: windows of the first snapshot fill the rest of the list. */
  function Seeded(recent: seq<Identity>, limit: nat, ids: seq<Identity>): seq<Identity>
    decreases |ids|
  {
    if ids == [] || |recent| == limit then recent
    else Seeded(if ids[0] in recent then recent else recent + [ids[0]], limit, ids[1..])
  }

  /** Seeding never changes what was observed, only what comes after it. */
  lemma {:induction false} SeedingKeepsObserved(recent: seq<Identity>, limit: nat, ids: seq<Identity>)
    requires |recent| <= limit
    ensures recent <= Seeded(recent, limit, ids) && |Seeded(recent, limit, ids)| <= limit
    decreases |ids|
  {
    if ids != [] && |recent| < limit {
      SeedingKeepsObserved(if ids[0] in recent then recent else recent + [ids[0]], limit, ids[1..]);
    }
  }

  class Mru {
    const limit: nat
    var recent: seq<Identity>
    var seeded: bool

    constructor (limit: nat)
      ensures this.limit == limit && recent == [] && !seeded
    {
      this.limit, recent, seeded := limit, [], false;
    }

    method Observe(id: Identity) returns (changed: bool)
      modifies this`recent
      ensures recent == Observed(old(recent), limit, id)
      ensures changed <==> limit != 0 && !(old(recent) != [] && old(recent)[0] == id)
    {
      if limit == 0 || (recent != [] && recent[0] == id) {
        return false;
      }
      var kept := Others(recent, id.window);
      recent := [id] + kept;
      if |recent| > limit {
        recent := recent[..limit];
      }
      changed := true;
    }

    method Seed(ids: seq<Identity>)
      modifies this`recent, this`seeded
      ensures seeded == (old(seeded) || limit != 0)
      ensures recent == if old(seeded) || limit == 0 then old(recent) else Seeded(old(recent), limit, ids)
    {
      if seeded || limit == 0 {
        return;
      }
      seeded := true;
      var i := 0;
      assert ids[0..] == ids;
      while i < |ids| && |recent| != limit
        invariant seeded && i <= |ids| && Seeded(recent, limit, ids[i..]) == Seeded(old(recent), limit, ids)
      {
        assert ids[i..][1..] == ids[i + 1..];
        if ids[i] !in recent {
          recent := recent + [ids[i]];
        }
        i := i + 1;
      }
    }

    function Identities(groups: seq<Group>): seq<Identity> {
      if groups == [] then [] else RecordIdentities(groups[0].records) + Identities(groups[1..])
    }

    function RecordIdentities(records: seq<Record>): seq<Identity> {
      if records == [] then [] else [records[0].identity] + RecordIdentities(records[1..])
    }

    /** `order`, when the configured order is by recency. */
    method Order(groups: seq<Group>) returns (ordered: seq<Group>)
      modifies this`recent, this`seeded
      ensures recent == if old(seeded) || limit == 0 then old(recent) else Seeded(old(recent), limit, Identities(groups))
      ensures ordered == Ordered(recent, groups)
    {
      Seed(Identities(groups));
      var sorted: seq<Group> := [];
      var i := 0;
      assert groups[0..] == groups;
      while i < |groups|
        invariant i <= |groups| && sorted + SortedGroups(recent, groups[i..]) == SortedGroups(recent, groups)
      {
        assert groups[i..][1..] == groups[i + 1..];
        sorted := sorted + [SortedGroup(recent, groups[i])];
        i := i + 1;
      }
      assert sorted + [] == sorted;
      ordered := Sorted(sorted, GroupRank(recent));
    }
  }
}
