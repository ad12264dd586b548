/**
 Runs that show what other threads can do to a reservation (src/icon_cache.rs): two icons fill a
 budget of two, and one reservation evicts them both, or fails though one could be reclaimed at
 every moment.
 */
module IconWitnesses {
  import opened Wrappers
  import opened IconCache
  import opened IconRaces

  /** A run goes on by these moves from world to world. */
  ghost predicate Leads(ws: seq<World>, moves: seq<Move>) {
    |ws| == |moves| + 1 && forall i :: 0 <= i < |moves| ==> Step(ws[i], moves[i], ws[i + 1])
  }

  lemma RunGoesOn(limit: nat, budget: int, run: seq<World>, moves: seq<Move>, ws: seq<World>, more: seq<Move>)
    requires IsRun(limit, budget, run, moves) && Leads(ws, more) && run[|moves|] == ws[0]
    ensures IsRun(limit, budget, run + ws[1..], moves + more) && (run + ws[1..])[|moves| + |more|] == ws[|more|]
    ensures (run + ws[1..])[|moves|..] == ws && (moves + more)[|moves|..] == more
  {
    var all, every := run + ws[1..], moves + more;
    forall i | 0 <= i < |every|
      ensures Step(all[i], every[i], all[i + 1])
    {
      if i < |moves| {
        assert Step(run[i], moves[i], run[i + 1]);
      } else {
        assert all[i] == ws[i - |moves|] && all[i + 1] == ws[i - |moves| + 1];
        assert Step(ws[i - |moves|], more[i - |moves|], ws[i - |moves| + 1]);
      }
    }
    assert all[|moves|..] == ws;
  }

  predicate AllReserving(ws: seq<World>) {
    forall j :: 0 < j < |ws| ==> Reserving(ws[j].pc)
  }

  predicate OneFree(s: Store) {
    Reclaimable(s, 0) || Reclaimable(s, 1)
  }

  predicate AlwaysOneFree(ws: seq<World>) {
    forall j :: 0 <= j < |ws| ==> OneFree(ws[j].s)
  }

  lemma Goes(ws: seq<World>, moves: seq<Move>, move: Move, w: World) returns (ws': seq<World>, moves': seq<Move>)
    requires Leads(ws, moves) && Step(ws[|moves|], move, w)
    ensures Leads(ws', moves') && ws' == ws + [w] && moves' == moves + [move] && ws'[0] == ws[0] && ws'[|moves'|] == w
    ensures AllReserving(ws) && Reserving(w.pc) ==> AllReserving(ws')
    ensures AlwaysOneFree(ws) && OneFree(w.s) ==> AlwaysOneFree(ws')
  {
    ws', moves' := ws + [w], moves + [move];
    forall i | 0 <= i < |moves| + 1
      ensures Step(ws'[i], moves'[i], ws'[i + 1])
    {
      if i < |moves| {
        assert Step(ws[i], moves[i], ws[i + 1]);
      }
    }
  }

  // ---- Settling ----------------------------------------------------------

  lemma SettledStays(s: Store)
    requires AreTheHeld(s.live, s.entries, s.held, s.others)
    ensures Settle(s) == s
  {
    assert (set i | i in s.live && Referenced(s.entries, s.held, s.others, i)) == s.live;
  }

  /** Letting go of an icon that is cached changes nothing but who holds it. */
  lemma CachedStays(s: Store, held: multiset<nat>, others: multiset<nat>)
    requires AreTheHeld(s.live, s.entries, s.held, s.others)
    requires forall i :: i in s.live ==> InCache(s.entries, i) || i in held || i in others
    requires held <= s.held && others <= s.others
    ensures Settle(s.(held := held, others := others)) == s.(held := held, others := others)
  {
    var s' := s.(held := held, others := others);
    forall i: nat
      ensures i in s'.live <==> Referenced(s'.entries, s'.held, s'.others, i)
    {
      assert i in s.live <==> Referenced(s.entries, s.held, s.others, i);
    }
    SettledStays(s');
  }

  // ---- A full budget -----------------------------------------------------

  const TWO: int := 2 * ICON_BYTES

  function Fresh(icon: nat): Entry { Entry(Some(icon), 0, icon + 1, true) }

  const BOTH: map<nat, Entry> := map[0 := Fresh(0), 1 := Fresh(1)]

  /** Two icons fill the budget, one for each of two keys; key 0 was used longer ago. The worker holds none. */
  function Full(others: multiset<nat>): Store {
    Store(BOTH, 2, TWO, TWO, 2, multiset{}, others, {0, 1}, 0, map[0 := [], 1 := []], 2)
  }

  const LOADED: Load := Load(Some([]), true)

  function WithFresh(s: Store, key: nat): Store {
    s.(entries := s.entries[key := Entry(Some(s.next), 0, s.clock + 1, true)], used := s.used + ICON_BYTES,
       clock := s.clock + 1, held := s.held + multiset{s.next}, live := s.live + {s.next},
       pixels := s.pixels[s.next := []], next := s.next + 1)
  }

  lemma LeasesOne(ws: seq<World>, moves: seq<Move>, s: Store) returns (ws': seq<World>, moves': seq<Move>)
    requires Leads(ws, moves) && ws[|moves|] == World(s, Resting) && Fits(s) && s.leases == 0
    ensures Leads(ws', moves') && ws'[0] == ws[0]
    ensures ws'[|moves'|] == World(s.(used := s.used + ICON_BYTES, leases := 1), Resting)
  {
    ws', moves' := Goes(ws, moves, Reserve, World(s, Fetching));
    ws', moves' := Goes(ws', moves', Fetch, World(s.(used := s.used + ICON_BYTES, leases := 1), Resting));
  }

  /** An icon is loaded for a new key. */
  lemma LoadsOne(ws: seq<World>, moves: seq<Move>, s: Store, key: nat) returns (ws': seq<World>, moves': seq<Move>)
    requires Leads(ws, moves) && ws[|moves|] == World(s, Resting) && Inv(s) && s.leases == 0
    requires Fits(s) && |s.entries| < s.limit && key !in s.entries
    ensures Leads(ws', moves') && ws'[0] == ws[0] && ws'[|moves'|] == World(WithFresh(s, key), Resting)
  {
    var s1 := s.(used := s.used + ICON_BYTES, leases := 1);
    var s2, entry := WithIcon(s1, []), Entry(Some(s.next), 0, s.clock + 1, true);
    ws', moves' := LeasesOne(ws, moves, s);
    FreshSettles(s, s2, key, entry);
    ws', moves' := StoresOne(ws', moves', s1, key, WithFresh(s, key));
  }

  lemma StoresOne(ws: seq<World>, moves: seq<Move>, s: Store, key: nat, s': Store) returns (ws': seq<World>, moves': seq<Move>)
    requires Leads(ws, moves) && ws[|moves|] == World(s, Resting) && s.leases == 1 && |s.entries| < s.limit
    requires var entry := Entry(Some(s.next), 0, s.clock + 1, true); s' == Settle(Filled(WithIcon(s, []), key, entry))
    ensures Leads(ws', moves') && ws'[0] == ws[0] && ws'[|moves'|] == World(s', Resting)
  {
    var s2, entry := WithIcon(s, []), Entry(Some(s.next), 0, s.clock + 1, true);
    ws', moves' := Goes(ws, moves, Insert(key, None, LOADED, 0), World(s2, Storing(key, entry, Nothing)));
    ws', moves' := Goes(ws', moves', Fill, World(s', Finishing(Nothing)));
    ws', moves' := Goes(ws', moves', Finish, World(s', Resting));
  }

  lemma FreshSettles(s: Store, s2: Store, key: nat, entry: Entry)
    requires Inv(s) && s.leases == 0 && key !in s.entries && entry == Entry(Some(s.next), 0, s.clock + 1, true)
    requires s2 == WithIcon(s.(used := s.used + ICON_BYTES, leases := 1), [])
    ensures Settle(Filled(s2, key, entry)) == WithFresh(s, key)
  {
    var f := Filled(s2, key, entry);
    forall i: nat
      ensures i in f.live <==> Referenced(f.entries, f.held, f.others, i)
    {
      assert i in s.live <==> Referenced(s.entries, s.held, s.others, i);
      FreshInCache(s.entries, key, entry, i);
    }
    SettledStays(f);
  }

  lemma FreshInCache(entries: map<nat, Entry>, key: nat, entry: Entry, i: nat)
    requires key !in entries
    ensures InCache(entries[key := entry], i) <==> InCache(entries, i) || entry.image == Some(i)
  {
    var more := entries[key := entry];
    if k :| k in entries && entries[k].image == Some(i) {
      assert more[k].image == Some(i);
    }
    if entry.image == Some(i) {
      assert more[key].image == Some(i);
    }
    if k :| k in more && more[k].image == Some(i) {
      assert k == key || entries[k].image == Some(i);
    }
  }

  lemma FullIs(others: multiset<nat>)
    requires forall i <- others :: i < 2
    ensures AreTheHeld({0, 1}, BOTH, multiset{}, others) && InCache(BOTH, 0) && InCache(BOTH, 1)
    ensures forall k :: Reclaimable(Full(others), k) <==> k < 2 && k !in others
  {
    assert BOTH[0].image == Some(0) && BOTH[1].image == Some(1);
    forall k: nat
      ensures Reclaimable(Full(others), k) <==> k < 2 && k !in others
    {
      assert k in BOTH <==> k < 2;
    }
  }

  /** The budget can come to be full, with the second icon held by another thread. */
  lemma FillsUp() returns (run: seq<World>, moves: seq<Move>)
    ensures IsRun(2, TWO, run, moves) && run[|moves|] == World(Full(multiset{1}), Resting)
  {
    var w := New(2, TWO);
    run, moves := [w], [];
    run, moves := LoadsOne(run, moves, w.s, 0);
    EveryRunKeepsInv(2, TWO, run, moves, |moves|);
    var one := WithFresh(w.s, 0);
    run, moves := LoadsOne(run, moves, one, 1);
    EveryRunKeepsInv(2, TWO, run, moves, |moves|);
    run, moves := LetsGo(run, moves);
  }

  /** The worker passes the second icon on and lets both go. */
  lemma LetsGo(ws: seq<World>, moves: seq<Move>) returns (ws': seq<World>, moves': seq<Move>)
    requires Leads(ws, moves) && ws[|moves|] == World(WithFresh(WithFresh(New(2, TWO).s, 0), 1), Resting)
    ensures Leads(ws', moves') && ws'[0] == ws[0] && ws'[|moves'|] == World(Full(multiset{1}), Resting)
  {
    var loaded, both := WithFresh(WithFresh(New(2, TWO).s, 0), 1), multiset{0, 1};
    assert loaded.entries == BOTH && loaded == Full(multiset{}).(held := both);
    FullIs(multiset{1});
    var given := Full(multiset{1}).(held := both);
    assert AreTheHeld({0, 1}, BOTH, both, multiset{1});
    ws', moves' := Goes(ws, moves, Give(1), World(given, Resting));
    CachedStays(given, both - multiset{1}, multiset{1});
    assert both - multiset{1} == multiset{0};
    ws', moves' := Goes(ws', moves', Drop(1), World(given.(held := multiset{0}), Resting));
    CachedStays(given, multiset{}, multiset{1});
    assert multiset{0} - multiset{0} == multiset{};
    ws', moves' := Goes(ws', moves', Drop(0), World(Full(multiset{1}), Resting));
  }

  // ---- A reservation that evicts twice -----------------------------------

  /** Key 0 is gone from the cache, but its icon was taken up. */
  const ONE_LEFT: Store := Full(multiset{0}).(entries := map[1 := Fresh(1)])

  const NONE_LEFT: Store := ONE_LEFT.(entries := map[], live := {0}, used := ICON_BYTES)

  lemma FirstRemoval()
    ensures Without(Full(multiset{0}), 0) == ONE_LEFT && Inv(ONE_LEFT)
    ensures forall k :: Reclaimable(ONE_LEFT, k) <==> k == 1
  {
    FullIs(multiset{0});
    var s := Full(multiset{0}).(entries := BOTH - {0});
    assert s.entries == map[1 := Fresh(1)] && s.entries[1].image == Some(1);
    assert InCache(s.entries, 1);
    forall i: nat
      ensures i in s.live <==> Referenced(s.entries, s.held, s.others, i)
    {
    }
    SettledStays(s);
    assert |{0, 1}| == 2;
  }

  lemma SecondRemoval()
    ensures Without(ONE_LEFT, 1) == NONE_LEFT
  {
    FirstRemoval();
    ReclaimingFreesOne(ONE_LEFT, 1);
    assert ONE_LEFT.entries - {1} == map[];
    assert ONE_LEFT.live - {1} == {0};
  }

  /** A scan finds key 0 the best. */
  lemma ScansBoth() returns (ws: seq<World>, moves: seq<Move>)
    ensures Leads(ws, moves) && ws[0] == World(Full(multiset{}), Resting) && AllReserving(ws)
    ensures moves == [Reserve, Fetch, Read(0), Read(1)] && ws[4] == World(Full(multiset{}), Scanning({}, Some(0)))
  {
    var s := Full(multiset{});
    FullIs(multiset{});
    ws, moves := [World(s, Resting)], [];
    ws, moves := Goes(ws, moves, Reserve, World(s, Fetching));
    assert s.entries.Keys == {0, 1};
    ws, moves := Goes(ws, moves, Fetch, World(s, Scanning({0, 1}, None)));
    assert {0, 1} - {0} == {1} && {1} - {1} == {};
    ws, moves := Goes(ws, moves, Read(0), World(s, Scanning({1}, Some(0))));
    ws, moves := Goes(ws, moves, Read(1), World(s, Scanning({}, Some(0))));
  }

  /** Its icon is taken up before it is removed. */
  lemma FirstRound() returns (ws: seq<World>, moves: seq<Move>)
    ensures Leads(ws, moves) && ws[0] == World(Full(multiset{}), Resting) && AllReserving(ws)
    ensures moves == [Reserve, Fetch, Read(0), Read(1), Choose, Upgrade(0), Remove]
    ensures ws[7] == World(ONE_LEFT, Fetching)
  {
    ws, moves := ScansBoth();
    ws, moves := Goes(ws, moves, Choose, World(Full(multiset{}), Removing(0)));
    ws, moves := TakenUpThenRemoved(ws, moves);
  }

  lemma TakenUpThenRemoved(ws: seq<World>, moves: seq<Move>) returns (ws': seq<World>, moves': seq<Move>)
    requires Leads(ws, moves) && AllReserving(ws) && ws[|moves|] == World(Full(multiset{}), Removing(0))
    ensures Leads(ws', moves') && ws'[0] == ws[0] && AllReserving(ws') && ws'[|moves'|] == World(ONE_LEFT, Fetching)
    ensures moves' == moves + [Upgrade(0), Remove]
  {
    FirstRemoval();
    ws', moves' := Goes(ws, moves, Upgrade(0), World(Full(multiset{0}), Removing(0)));
    ws', moves' := Goes(ws', moves', Remove, World(ONE_LEFT, Fetching));
  }

  lemma ScansOne(ws: seq<World>, moves: seq<Move>) returns (ws': seq<World>, moves': seq<Move>)
    requires Leads(ws, moves) && AllReserving(ws) && ws[|moves|] == World(ONE_LEFT, Fetching)
    ensures Leads(ws', moves') && ws'[0] == ws[0] && AllReserving(ws') && moves' == moves + [Fetch, Read(1)]
    ensures ws'[|moves'|] == World(ONE_LEFT, Scanning({}, Some(1)))
  {
    FirstRemoval();
    assert ONE_LEFT.entries.Keys == {1} && {1} - {1} == {};
    ws', moves' := Goes(ws, moves, Fetch, World(ONE_LEFT, Scanning({1}, None)));
    ws', moves' := Goes(ws', moves', Read(1), World(ONE_LEFT, Scanning({}, Some(1))));
  }

  /** Nothing was freed, and the worker goes on to the other entry. */
  lemma SecondRound(ws: seq<World>, moves: seq<Move>) returns (ws': seq<World>, moves': seq<Move>)
    requires Leads(ws, moves) && AllReserving(ws) && ws[|moves|] == World(ONE_LEFT, Fetching)
    ensures Leads(ws', moves') && ws'[0] == ws[0] && AllReserving(ws') && ws'[|moves'|] == World(NONE_LEFT, Fetching)
    ensures moves' == moves + [Fetch, Read(1), Choose, Remove]
  {
    ws', moves' := ScansOne(ws, moves);
    SecondRemoval();
    ws', moves' := Goes(ws', moves', Choose, World(ONE_LEFT, Removing(1)));
    ws', moves' := Goes(ws', moves', Remove, World(NONE_LEFT, Fetching));
  }

  lemma FillsUpUnheld() returns (run: seq<World>, moves: seq<Move>)
    ensures IsRun(2, TWO, run, moves) && run[|moves|] == World(Full(multiset{}), Resting)
  {
    run, moves := FillsUp();
    ReleasingSecond();
    run, moves := Goes(run, moves, Release(1), World(Full(multiset{}), Resting));
  }

  /** From move `c` on a run ends in these moves, all of one reservation. */
  lemma EndsInReservation(
      limit: nat, budget: int, run: seq<World>, moves: seq<Move>, ws: seq<World>, more: seq<Move>)
      returns (all: seq<World>, every: seq<Move>)
    requires IsRun(limit, budget, run, moves) && Leads(ws, more) && run[|moves|] == ws[0]
    requires more != [] && more[0] == Reserve && AllReserving(ws)
    ensures IsRun(limit, budget, all, every) && every == moves + more && all[|moves|..] == ws
    ensures InReservation(all, every, |moves|, |every|)
  {
    RunGoesOn(limit, budget, run, moves, ws, more);
    all, every := run + ws[1..], moves + more;
    forall j | |moves| < j <= |every|
      ensures Reserving(all[j].pc)
    {
      assert all[j] == ws[j - |moves|];
    }
  }

  /** One reservation that evicts two icons, because the first was taken up after it was chosen. */
  lemma EvictsTwo() returns (run: seq<World>, moves: seq<Move>, c: nat)
    ensures IsRun(2, TWO, run, moves) && InReservation(run, moves, c, |moves|)
    ensures moves[c..] == [Reserve, Fetch, Read(0), Read(1), Choose, Upgrade(0), Remove, Fetch, Read(1), Choose, Remove]
    ensures run[c].s.entries == BOTH && run[|moves|].s.entries == map[] && Fits(run[|moves|].s)
  {
    var run0, moves0 := FillsUpUnheld();
    var ws, more := FirstRound();
    ws, more := SecondRound(ws, more);
    c := |moves0|;
    run, moves := EndsInReservation(2, TWO, run0, moves0, ws, more);
    assert moves[c..] == more && run[c] == run[c..][0] && run[|moves|] == run[c..][|more|];
  }

  // ---- A reservation that fails though it need not -----------------------

  lemma OneIsFree()
    ensures OneFree(Full(multiset{})) && OneFree(Full(multiset{0})) && OneFree(Full(multiset{1}))
  {
    FullIs(multiset{});
    FullIs(multiset{0});
    FullIs(multiset{1});
  }

  lemma ReadsSecondHeld() returns (ws: seq<World>, moves: seq<Move>)
    ensures Leads(ws, moves) && ws[0] == World(Full(multiset{1}), Resting) && AllReserving(ws) && AlwaysOneFree(ws)
    ensures moves == [Reserve, Fetch, Read(1)] && ws[3] == World(Full(multiset{1}), Scanning({0}, None))
  {
    var s := Full(multiset{1});
    OneIsFree();
    FullIs(multiset{1});
    ws, moves := [World(s, Resting)], [];
    ws, moves := Goes(ws, moves, Reserve, World(s, Fetching));
    assert s.entries.Keys == {0, 1} && {0, 1} - {1} == {0};
    ws, moves := Goes(ws, moves, Fetch, World(s, Scanning({0, 1}, None)));
    ws, moves := Goes(ws, moves, Read(1), World(s, Scanning({0}, None)));
  }

  /** The second icon is let go just after it was read, and the first taken up just before. */
  lemma ReadsBothHeld() returns (ws: seq<World>, moves: seq<Move>)
    ensures Leads(ws, moves) && ws[0] == World(Full(multiset{1}), Resting) && AllReserving(ws) && AlwaysOneFree(ws)
    ensures moves == [Reserve, Fetch, Read(1), Release(1), Upgrade(0), Read(0)]
    ensures ws[|moves|] == World(Full(multiset{0}), Scanning({}, None))
  {
    var free, taken := Full(multiset{}), Full(multiset{0});
    OneIsFree();
    FullIs(multiset{0});
    ws, moves := ReadsSecondHeld();
    ReleasingSecond();
    ws, moves := Goes(ws, moves, Release(1), World(free, Scanning({0}, None)));
    ws, moves := Goes(ws, moves, Upgrade(0), World(taken, Scanning({0}, None)));
    assert {0} - {0} == {};
    ws, moves := Goes(ws, moves, Read(0), World(taken, Scanning({}, None)));
  }

  lemma ReleasingSecond()
    ensures Elsewhere(Full(multiset{1}), Release(1)) == Full(multiset{})
  {
    FullIs(multiset{1});
    CachedStays(Full(multiset{1}), multiset{}, multiset{});
  }

  /** One reservation that fails, though at every moment of it some icon could be reclaimed. */
  lemma FailsThoughOneIsFree() returns (run: seq<World>, moves: seq<Move>, c: nat)
    ensures IsRun(2, TWO, run, moves) && c < |moves| && Fails(run, moves, c, |moves| - 1)
    ensures moves[c..] == [Reserve, Fetch, Read(1), Release(1), Upgrade(0), Read(0), Choose]
    ensures forall j :: c <= j < |run| ==> OneFree(run[j].s)
  {
    var run0, moves0 := FillsUp();
    var ws, more := ReadsBothHeld();
    c := |moves0|;
    var run1, moves1 := EndsInReservation(2, TWO, run0, moves0, ws, more);
    assert run1[|moves1|] == run1[c..][|more|];
    run, moves := Goes(run1, moves1, Choose, World(run1[|moves1|].s, Resting));
    assert moves[c..] == more + [Choose];
    assert forall j :: c <= j <= |moves1| ==> run[j] == run1[j];
    forall j | c <= j < |run|
      ensures OneFree(run[j].s)
    {
      if j <= |moves1| {
        assert run1[j] == run1[c..][j - c];
      } else {
        assert run1[|moves1|] == run1[c..][|more|];
      }
    }
  }
}
