/**
 The icon cache as the worker's code runs it (src/icon_cache.rs), with other threads moving before
 every access it shares with them. Every method is shown to be a part of a run of `IconCache.dfy`, so
 everything proved there and in `IconRaces.dfy` of all runs holds of it.
 */
module KeepIcons {
  import opened Wrappers
  import opened IconCache
  import opened IconRaces

  /** A pass over the entries for the least recently used of the candidates. */
  method LeastRecent(entries: map<nat, Entry>, candidate: nat -> bool, ghost clock: nat) returns (best: Option<nat>)
    requires Stamped(entries, clock)
    ensures best.None? <==> forall m :: m in entries ==> !candidate(m)
    ensures best.Some? ==> best.value in entries && candidate(best.value)
    ensures best.Some? ==>
      forall m :: m in entries && candidate(m) && m != best.value ==> entries[best.value].used < entries[m].used
  {
    var left := entries.Keys;
    best := None;
    while left != {}
      invariant left <= entries.Keys
      invariant best.Some? ==> best.value in entries.Keys - left && candidate(best.value)
      invariant forall m :: m in entries.Keys - left && candidate(m) ==>
        best.Some? && (m != best.value ==> entries[best.value].used < entries[m].used)
      decreases |left|
    {
      var key :| key in left;
      if candidate(key) && (best.None? || entries[key].used < entries[best.value].used) {
        best := Some(key);
      }
      left := left - {key};
    }
  }

  class Cache {
    const limit: nat
    const budget: int
    const elsewhere: nat -> seq<Move>  // what other threads do before each access, as far as they can
    var tick: nat
    var entries: map<nat, Entry>
    var used: int
    var clock: nat
    var held: multiset<nat>
    var others: multiset<nat>
    var live: set<nat>
    var leases: nat
    var pixels: map<nat, seq<int>>
    var next: nat
    ghost var run: seq<World>
    ghost var moves: seq<Move>

    constructor (limit: nat, budget: int, elsewhere: nat -> seq<Move>)
      requires limit >= 1 && budget >= 0
      ensures Reached(Resting) && moves == [] && this.limit == limit && this.budget == budget
    {
      this.limit, this.budget, this.elsewhere, tick := limit, budget, elsewhere, 0;
      entries, used, clock, held, others := map[], 0, 0, multiset{}, multiset{};
      live, leases, pixels, next := {}, 0, map[], 0;
      run, moves := [New(limit, budget)], [];
    }

    function View(): Store
      reads this
    {
      Store(entries, limit, budget, used, clock, held, others, live, leases, pixels, next)
    }

    /** What has happened so far is a run that has got to `pc`. */
    ghost predicate Reached(pc: Pc)
      reads this
    {
      IsRun(limit, budget, run, moves) && run[|moves|] == World(View(), pc)
    }

    ghost method Record(move: Move, pc: Pc)
      requires IsRun(limit, budget, run, moves) && Step(run[|moves|], move, World(View(), pc))
      modifies this`run, this`moves
      ensures Reached(pc) && run == old(run) + [World(View(), pc)] && moves == old(moves) + [move]
    {
      run, moves := run + [World(View(), pc)], moves + [move];
    }

    /** Other threads move. */
    method Yield(ghost pc: Pc)
      requires Reached(pc)
      modifies this`tick, this`others, this`live, this`used, this`run, this`moves
      ensures Reached(pc) && old(run) <= run && old(moves) <= moves
      ensures forall j :: old(|run|) <= j < |run| ==> run[j].pc == pc
    {
      var moving := elsewhere(tick);
      var i := 0;
      while i < |moving|
        invariant i <= |moving| && Reached(pc) && old(run) <= run && old(moves) <= moves
        invariant forall j :: old(|run|) <= j < |run| ==> run[j].pc == pc
      {
        if CanElsewhere(View(), moving[i]) {
          MoveElsewhere(moving[i], pc);
        }
        i := i + 1;
      }
      tick := tick + 1;
    }

    method MoveElsewhere(move: Move, ghost pc: Pc)
      requires Reached(pc) && CanElsewhere(View(), move)
      modifies this`others, this`live, this`used, this`run, this`moves
      ensures Reached(pc) && run == old(run) + [World(View(), pc)] && moves == old(moves) + [move]
    {
      EveryRunKeepsInv(limit, budget, run, moves, |moves|);
      ElsewhereKeepsInv(View(), move);
      var s := Elsewhere(View(), move);
      others, live, used := s.others, s.live, s.used;
      Record(move, pc);
    }

    // ---- Reserving ---------------------------------------------------------

    /** The worker is at `pc`, in the reservation that it began at move `c`. */
    ghost predicate Under(c: nat, pc: Pc)
      reads this
    {
      Reached(pc) && InReservation(run, moves, c, |moves|)
    }

    /** The reservation begun at move `c` is over: with a lease, or because there was nothing to evict. */
    ghost predicate Over(c: nat, ok: bool)
      reads this
    {
      && Reached(Resting) && |moves| > 0 && InReservation(run, moves, c, |moves| - 1)
      && moves[|moves| - 1] == if ok then Fetch else Choose
    }

    ghost method Begin()
      requires Reached(Resting)
      modifies this`run, this`moves
      ensures Under(|old(moves)|, Fetching) && old(run) <= run && old(moves) <= moves
    {
      Record(IconCache.Move.Reserve, Fetching);
    }

    /** One try for the bytes. */
    method TryFetch(ghost c: nat) returns (ok: bool)
      requires Under(c, Fetching)
      modifies this`tick, this`others, this`live, this`used, this`leases, this`run, this`moves
      ensures if ok then Over(c, true) else Under(c, Scanning(entries.Keys, None))
      ensures old(run) <= run && old(moves) <= moves && leases == old(leases) + if ok then 1 else 0
    {
      Yield(Fetching);
      ok := used + ICON_BYTES <= budget;
      if ok {
        used, leases := used + ICON_BYTES, leases + 1;
        Record(Fetch, Resting);
      } else {
        Record(Fetch, Scanning(entries.Keys, None));
      }
    }

    /** The pass of `evict` over the entries, reading the holders of each one's icon. */
    method Scan(ghost c: nat) returns (best: Option<nat>)
      requires Under(c, Scanning(entries.Keys, None))
      modifies this`tick, this`others, this`live, this`used, this`run, this`moves
      ensures Under(c, Scanning({}, best)) && old(run) <= run && old(moves) <= moves
    {
      var left := entries.Keys;
      best := None;
      while left != {}
        invariant left <= entries.Keys && Under(c, Scanning(left, best)) && old(run) <= run && old(moves) <= moves
        decreases |left|
      {
        var key :| key in left;
        best := ReadHolders(c, key, left, best);
        left := left - {key};
      }
    }

    /** `strong_count(image) == 1`, and the comparison with the best so far. */
    method ReadHolders(ghost c: nat, key: nat, ghost left: set<nat>, best: Option<nat>) returns (best': Option<nat>)
      requires Under(c, Scanning(left, best)) && key in left
      modifies this`tick, this`others, this`live, this`used, this`run, this`moves
      ensures Under(c, Scanning(left - {key}, best')) && old(run) <= run && old(moves) <= moves
    {
      EveryRunKeepsInv(limit, budget, run, moves, |moves|);
      Yield(Scanning(left, best));
      best' := best;
      if Reclaimable(View(), key) && (best.None? || entries[key].used < entries[best.value].used) {
        best' := Some(key);
      }
      Record(Read(key), Scanning(left - {key}, best'));
    }

    /** `evict(true)`: removes the least recently used of the entries read as only the cache's. */
    method Reclaim(ghost c: nat) returns (done: bool)
      requires Under(c, Scanning(entries.Keys, None))
      modifies this`tick, this`entries, this`others, this`live, this`used, this`run, this`moves
      ensures if done then Under(c, Fetching) && |entries| < old(|entries|) else Over(c, false) && entries == old(entries)
      ensures old(run) <= run && old(moves) <= moves
    {
      var best := Scan(c);
      done := best.Some?;
      Record(Choose, if done then Removing(best.value) else Resting);
      if done {
        RemoveChosen(c, best.value);
      }
    }

    method RemoveChosen(ghost c: nat, key: nat)
      requires Under(c, Removing(key))
      modifies this`tick, this`entries, this`others, this`live, this`used, this`run, this`moves
      ensures Under(c, Fetching) && old(run) <= run && old(moves) <= moves && |entries| < old(|entries|)
    {
      Yield(Removing(key));
      EveryRunKeepsInv(limit, budget, run, moves, |moves|);
      Discard(key);
      Record(Remove, Fetching);
    }

    /** Dropping an entry drops its share in the icon; the last share gives the lease back. */
    method Discard(key: nat)
      requires Inv(View()) && key in entries
      modifies this`entries, this`live, this`used
      ensures View() == Without(old(View()), key) && |entries| < old(|entries|)
    {
      EvictionKeepsInv(View(), key);
      var settled := Settle(View().(entries := entries - {key}));
      entries, live, used := settled.entries, settled.live, settled.used;
    }

    /** `reserve`. The laws about reservations hold of it, whatever other threads do. */
    method Reserve() returns (ok: bool)
      requires Reached(Resting)
      modifies this`tick, this`entries, this`others, this`live, this`used, this`leases, this`run, this`moves
      ensures Over(|old(moves)|, ok) && old(run) <= run && old(moves) <= moves
      ensures leases == old(leases) + if ok then 1 else 0
    {
      ghost var c := |moves|;
      Begin();
      ok := TryFetch(c);
      while !ok
        invariant old(run) <= run && old(moves) <= moves && leases == old(leases) + if ok then 1 else 0
        invariant if ok then Over(c, true) else Under(c, Scanning(entries.Keys, None))
        decreases |entries| + if ok then 0 else 1
      {
        var done;
        done, ok := Retry(c);
        if !done {
          return;
        }
      }
    }

    method Retry(ghost c: nat) returns (done: bool, ok: bool)
      requires Under(c, Scanning(entries.Keys, None))
      modifies this`tick, this`entries, this`others, this`live, this`used, this`leases, this`run, this`moves
      ensures old(run) <= run && old(moves) <= moves && leases == old(leases) + if ok then 1 else 0
      ensures !done ==> Over(c, false) && !ok
      ensures done ==> |entries| < old(|entries|) && if ok then Over(c, true) else Under(c, Scanning(entries.Keys, None))
    {
      ok := false;
      done := Reclaim(c);
      if done {
        ok := TryFetch(c);
      }
    }

    // ---- Looking up --------------------------------------------------------

    /** `get_at`; `current` is whether the files the icon was read from are unchanged. */
    method GetAt(key: nat, now: int, current: bool) returns (found: Option<Option<nat>>)
      requires Reached(Resting)
      modifies this`tick, this`entries, this`clock, this`held, this`others, this`live, this`used, this`run, this`moves
      ensures Reached(Resting) && old(run) <= run && old(moves) <= moves
      ensures var got := Got(old(View()), key, now, current);
        entries == got.entries && clock == got.clock && held == got.held
      ensures found.Some? <==> key in old(entries) && old(entries[key].expires) > now && current
      ensures found.Some? ==> found.value == old(entries[key].image)
    {
      Yield(Resting);
      found := Find(key, now, current);
      Record(Get(key, now, current), Resting);
    }

    method Find(key: nat, now: int, current: bool) returns (found: Option<Option<nat>>)
      modifies this`entries, this`clock, this`held
      ensures View() == Got(old(View()), key, now, current)
      ensures found.Some? <==> key in old(entries) && old(entries[key].expires) > now && current
      ensures found.Some? ==> found.value == old(entries[key].image)
    {
      clock := clock + 1;
      if key in entries {
        var entry := entries[key];
        entries := entries[key := entry.(used := clock)];
        if entry.expires > now && current {
          if entry.image.Some? {
            held := held + multiset{entry.image.value};
          }
          return Some(entry.image);
        }
      }
      found := None;
    }

    /** `previous`: the worker gets the cached icon to hold, fresh or not. */
    method TakePrevious(key: nat) returns (previous: Option<Previous>)
      requires Reached(Resting)
      modifies this`tick, this`held, this`others, this`live, this`used, this`run, this`moves
      ensures Reached(Resting) && old(run) <= run && old(moves) <= moves
      ensures previous.Some? <==> key in entries && entries[key].image.Some?
      ensures previous.Some? ==> previous.value == Previous(entries[key].image.value, entries[key].successful)
      ensures held == old(held) + if previous.Some? then multiset{previous.value.image} else multiset{}
    {
      Yield(Resting);
      previous := None;
      if key in entries && entries[key].image.Some? {
        previous := Some(Previous(entries[key].image.value, entries[key].successful));
        held := held + multiset{previous.value.image};
      }
      Record(IconCache.Move.TakePrevious(key), Resting);
    }

    // ---- Inserting ---------------------------------------------------------

    /** `insert`: the worker gets the icon to hold. What is stored does not depend on other threads. */
    method Insert(key: nat, previous: Option<Previous>, load: Load, expires: int) returns (image: Option<nat>)
      requires Reached(Resting) && CanInsert(View(), previous, load)
      modifies this
      ensures Reached(Resting) && old(run) <= run && old(moves) <= moves
      ensures image == Adopt(old(View()), previous, load).1
      ensures exists roomy ::
        && HaveRoom(old(entries), limit, key, roomy)
        && entries == roomy[key := NewEntry(old(View()), image, previous, load, expires)]
    {
      var entry, spare;
      image, entry, spare := Accept(key, previous, load, expires);
      ghost var roomy := MakeRoom(key, entry, spare);
      Put(key, entry, spare);
      LetGo(spare);
      assert entries == roomy[key := entry];
    }

    /** The icon to store, the entry to store it in, and what will be left over. */
    method Accept(key: nat, previous: Option<Previous>, load: Load, expires: int)
      returns (image: Option<nat>, entry: Entry, spare: Spare)
      requires Reached(Resting) && CanInsert(View(), previous, load)
      modifies this`held, this`live, this`leases, this`pixels, this`next, this`run, this`moves
      ensures Reached(Storing(key, entry, spare)) && old(run) <= run && old(moves) <= moves
      ensures image == Adopt(old(View()), previous, load).1
      ensures entry == NewEntry(old(View()), image, previous, load, expires)
    {
      ghost var s := View();
      var kept := KeepsPrevious(View(), previous, load);
      var successful := Loaded(load) || (kept && previous.value.successful);
      if kept {
        image := Some(previous.value.image);
        spare := if load.pixels.Some? then Lease else Nothing;
      } else {
        image := TakeIn(load);
        spare := if previous.Some? then Icon(previous.value.image) else Nothing;
      }
      entry := Entry(image, expires, clock + 1, successful);
      assert (View(), image) == Adopt(s, previous, load);
      Record(IconCache.Move.Insert(key, previous, load, expires), Storing(key, entry, spare));
    }

    /** The raster, if there is one, becomes an icon with its lease. */
    method TakeIn(load: Load) returns (image: Option<nat>)
      requires load.pixels.Some? ==> leases > 0
      modifies this`held, this`live, this`leases, this`pixels, this`next
      ensures (View(), image) == if load.pixels.Some? then (WithIcon(old(View()), load.pixels.value), Some(old(next)))
                                 else (old(View()), None)
    {
      if load.pixels.None? {
        return None;
      }
      image := Some(next);
      pixels, live, held := pixels[next := load.pixels.value], live + {next}, held + multiset{next};
      next, leases := next + 1, leases - 1;
    }

    /** `evict(false)`, while the cache is full and the key is new. */
    method MakeRoom(key: nat, entry: Entry, spare: Spare) returns (ghost roomy: map<nat, Entry>)
      requires Reached(Storing(key, entry, spare))
      modifies this`tick, this`entries, this`others, this`live, this`used, this`run, this`moves
      ensures Reached(Storing(key, entry, spare)) && old(run) <= run && old(moves) <= moves
      ensures HasRoom(View(), key) && entries == roomy && HaveRoom(old(entries), limit, key, roomy)
    {
      EveryRunKeepsInv(limit, budget, run, moves, |moves|);
      while |entries| >= limit && key !in entries
        invariant Reached(Storing(key, entry, spare)) && old(run) <= run && old(moves) <= moves
        invariant entries == old(entries) || (|entries| < limit && HaveRoom(old(entries), limit, key, entries))
        decreases |entries|
      {
        EvictOldest(key, entry, spare);
      }
      roomy := entries;
    }

    method EvictOldest(key: nat, entry: Entry, spare: Spare)
      requires Reached(Storing(key, entry, spare)) && |entries| >= limit && key !in entries
      modifies this`tick, this`entries, this`others, this`live, this`used, this`run, this`moves
      ensures Reached(Storing(key, entry, spare)) && old(run) <= run && old(moves) <= moves
      ensures |entries| < old(|entries|) <= limit && HaveRoom(old(entries), limit, key, entries)
    {
      Yield(Storing(key, entry, spare));
      EveryRunKeepsInv(limit, budget, run, moves, |moves|);
      var best := LeastRecent(entries, (k: nat) => true, clock);
      assert best.Some? && IsOldest(entries, best.value) by {
        var some :| some in entries;
      }
      assert Oldest(View(), false, best.value);
      Discard(best.value);
      Record(IconCache.Move.MakeRoom(best.value), Storing(key, entry, spare));
    }

    /** The new entry; the icon of the one it replaces is let go. */
    method Put(key: nat, entry: Entry, spare: Spare)
      requires Reached(Storing(key, entry, spare)) && HasRoom(View(), key)
      modifies this`tick, this`entries, this`clock, this`others, this`live, this`used, this`run, this`moves
      ensures Reached(Finishing(spare)) && old(run) <= run && old(moves) <= moves
      ensures entries == old(entries)[key := entry]
    {
      Yield(Storing(key, entry, spare));
      clock := clock + 1;
      entries := entries[key := entry];
      var settled := Settle(View());
      live, used := settled.live, settled.used;
      Record(Fill, Finishing(spare));
    }

    /** The previous icon, or the lease of a raster that was not needed, goes. */
    method LetGo(spare: Spare)
      requires Reached(Finishing(spare))
      modifies this`tick, this`held, this`others, this`live, this`used, this`leases, this`run, this`moves
      ensures Reached(Resting) && old(run) <= run && old(moves) <= moves
    {
      Yield(Finishing(spare));
      Leave(spare);
      Record(Finish, Resting);
    }

    method Leave(spare: Spare)
      modifies this`held, this`live, this`used, this`leases
      ensures View() == WithoutSpare(old(View()), spare)
    {
      SpareTouches(View(), spare);
      var left := WithoutSpare(View(), spare);
      held, live, used, leases := left.held, left.live, left.used, left.leases;
    }
  }
}
