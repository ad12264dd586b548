/**
 A reservation of bytes while other threads hold, take up and release icons (src/icon_cache.rs).

 The worker tries for the bytes, reads entry by entry whether the cache alone holds its icon,
 removes the least recently used of those it found so, and tries again. Other threads move in
 between: an icon read as held may be let go at once, and one read as free be taken up again.
 */
module IconRaces {
  import opened Wrappers
  import opened IconCache

  predicate Reserving(pc: Pc) {
    pc.Fetching? || pc.Scanning? || pc.Removing?
  }

  ghost predicate FailedFetch(run: seq<World>, moves: seq<Move>, a: nat) {
    && |run| == |moves| + 1 && a < |moves| && moves[a] == Fetch
    && run[a].s.used + ICON_BYTES > run[a].s.budget
  }

  /** From the failed try at move `a` to state `b` the worker has neither tried again nor given up. */
  ghost predicate Round(run: seq<World>, moves: seq<Move>, a: nat, b: nat) {
    && FailedFetch(run, moves, a) && a < b < |run|
    && (forall j :: a < j < b ==> moves[j] != Fetch)
    && (forall j :: a < j <= b ==> Reserving(run[j].pc))
  }

  /** Between `a` and `b` the entry was read while the cache was not its icon's only holder. */
  ghost predicate SeenHeld(run: seq<World>, moves: seq<Move>, a: nat, b: nat, k: nat)
    requires b < |run| == |moves| + 1
  {
    exists r :: a < r < b && moves[r] == Read(k) && !Reclaimable(run[r].s, k)
  }

  /** Between `a` and `b` another thread took the icon up. */
  ghost predicate TakenUp(moves: seq<Move>, a: nat, b: nat, i: nat)
    requires b <= |moves|
  {
    exists u :: a < u < b && moves[u] == Upgrade(i)
  }

  ghost predicate NoUpgrade(moves: seq<Move>, a: nat, b: nat)
    requires b <= |moves|
  {
    forall u :: a < u < b ==> !moves[u].Upgrade?
  }

  /** At state `n` the cache alone holds the icon that it alone held at state `r`, unless somebody took it up. */
  ghost predicate FreeUnlessTaken(run: seq<World>, moves: seq<Move>, r: nat, n: nat, k: nat)
    requires r <= n < |run| == |moves| + 1
  {
    Reclaimable(run[r].s, k) ==>
      Reclaimable(run[n].s, k) || TakenUp(moves, r, n, run[r].s.entries[k].image.value)
  }

  /** The worker's choice at state `b`: read as free, and free still unless somebody took it up since. */
  ghost predicate Chosen(run: seq<World>, moves: seq<Move>, a: nat, b: nat, k: nat)
    requires b < |run| == |moves| + 1
  {
    exists r :: a < r < b && moves[r] == Read(k) && Reclaimable(run[r].s, k) && FreeUnlessTaken(run, moves, r, b, k)
  }

  /** What the scan has made of an entry it has read: held, the best so far, or used later than that. */
  ghost predicate Passed(run: seq<World>, moves: seq<Move>, a: nat, b: nat, best: Option<nat>, m: nat)
    requires b < |run| == |moves| + 1
  {
    || SeenHeld(run, moves, a, b, m)
    || (best.Some? && best.value in run[b].s.entries && m in run[b].s.entries
        && (m == best.value || run[b].s.entries[best.value].used < run[b].s.entries[m].used))
  }

  ghost predicate EntriesStand(run: seq<World>, a: nat, b: nat)
    requires b < |run|
  {
    forall r :: a <= r <= b ==> run[r].s.entries == run[a].s.entries
  }

  ghost predicate ScanInv(run: seq<World>, moves: seq<Move>, a: nat, b: nat, left: set<nat>, best: Option<nat>)
    requires b < |run| == |moves| + 1 && a < b
  {
    && EntriesStand(run, a, b) && run[b].s.used <= run[a].s.used
    && (best.Some? ==> Chosen(run, moves, a, b, best.value))
    && (forall m :: m in run[b].s.entries && m !in left ==> Passed(run, moves, a, b, best, m))
  }

  /** The removal in this round: of what was chosen; and it freed the bytes unless the icon was taken up. */
  ghost predicate Removal(run: seq<World>, moves: seq<Move>, a: nat, b: nat)
    requires b < |run| == |moves| + 1 && a < b
  {
    exists m :: a < m < b && moves[m] == Remove && run[m].pc.Removing?
      && ScanInv(run, moves, a, m, {}, Some(run[m].pc.k))
      && (Reclaimable(run[m].s, run[m].pc.k) ==> run[b].s.used <= run[a].s.used - ICON_BYTES)
  }

  ghost predicate RoundInv(run: seq<World>, moves: seq<Move>, a: nat, b: nat)
    requires b < |run| == |moves| + 1 && a < b
  {
    match run[b].pc
    case Scanning(left, best) => ScanInv(run, moves, a, b, left, best)
    case Removing(k) => ScanInv(run, moves, a, b, {}, Some(k))
    case _ => Removal(run, moves, a, b)
  }

  // ---- Steps -------------------------------------------------------------

  /** Nobody but by taking it up can hold an icon that the cache alone holds. */
  lemma StaysFree(s: Store, move: Move, k: nat)
    requires CanElsewhere(s, move) && Reclaimable(s, k)
    ensures Reclaimable(Elsewhere(s, move), k) || move == Upgrade(s.entries[k].image.value)
  {
  }

  lemma TakenUpEarlier(moves: seq<Move>, a: nat, b: nat, c: nat, i: nat)
    requires b <= c <= |moves| && TakenUp(moves, a, b, i)
    ensures TakenUp(moves, a, c, i)
  {
    var u :| a < u < b && moves[u] == Upgrade(i);
    assert a < u < c && moves[u] == Upgrade(i);
  }

  lemma SeenHeldEarlier(run: seq<World>, moves: seq<Move>, a: nat, b: nat, c: nat, k: nat)
    requires b <= c < |run| == |moves| + 1 && SeenHeld(run, moves, a, b, k)
    ensures SeenHeld(run, moves, a, c, k)
  {
    var r :| a < r < b && moves[r] == Read(k) && !Reclaimable(run[r].s, k);
    assert a < r < c && moves[r] == Read(k) && !Reclaimable(run[r].s, k);
  }

  /** In a round only the removal itself changes the entries, and only other threads the holders. */
  lemma FreeGoesOn(run: seq<World>, moves: seq<Move>, r: nat, n: nat, k: nat)
    requires r < n < |moves| && |run| == |moves| + 1 && Step(run[n], moves[n], run[n + 1])
    requires IsElsewhere(moves[n]) || run[n + 1].s == run[n].s
    requires run[n].s.entries == run[r].s.entries
    requires FreeUnlessTaken(run, moves, r, n, k)
    ensures FreeUnlessTaken(run, moves, r, n + 1, k)
  {
    if Reclaimable(run[r].s, k) {
      var i := run[r].s.entries[k].image.value;
      if TakenUp(moves, r, n, i) {
        TakenUpEarlier(moves, r, n, n + 1, i);
      } else if IsElsewhere(moves[n]) {
        StaysFree(run[n].s, moves[n], k);
      }
    }
  }

  lemma ChosenGoesOn(run: seq<World>, moves: seq<Move>, a: nat, b: nat, k: nat)
    requires b < |moves| && |run| == |moves| + 1 && Step(run[b], moves[b], run[b + 1])
    requires IsElsewhere(moves[b]) || run[b + 1].s == run[b].s
    requires EntriesStand(run, a, b)
    requires Chosen(run, moves, a, b, k)
    ensures Chosen(run, moves, a, b + 1, k)
  {
    var r :| a < r < b && moves[r] == Read(k) && Reclaimable(run[r].s, k) && FreeUnlessTaken(run, moves, r, b, k);
    FreeGoesOn(run, moves, r, b, k);
  }

  lemma PassedGoesOn(run: seq<World>, moves: seq<Move>, a: nat, b: nat, best: Option<nat>, m: nat)
    requires b < |moves| && |run| == |moves| + 1 && run[b + 1].s.entries == run[b].s.entries
    requires Passed(run, moves, a, b, best, m)
    ensures Passed(run, moves, a, b + 1, best, m)
  {
    if SeenHeld(run, moves, a, b, m) {
      SeenHeldEarlier(run, moves, a, b, b + 1, m);
    }
  }

  lemma ScanGoesOn(run: seq<World>, moves: seq<Move>, a: nat, b: nat, left: set<nat>, best: Option<nat>)
    requires a < b < |moves| && |run| == |moves| + 1 && Step(run[b], moves[b], run[b + 1])
    requires IsElsewhere(moves[b]) || run[b + 1].s == run[b].s
    requires run[b + 1].s.entries == run[b].s.entries && run[b + 1].s.used <= run[b].s.used
    requires ScanInv(run, moves, a, b, left, best)
    ensures ScanInv(run, moves, a, b + 1, left, best)
  {
    if best.Some? {
      ChosenGoesOn(run, moves, a, b, best.value);
    }
    forall m | m in run[b + 1].s.entries && m !in left
      ensures Passed(run, moves, a, b + 1, best, m)
    {
      PassedGoesOn(run, moves, a, b, best, m);
    }
  }

  /** The entry just read is passed, and all that were passed before still are. */
  lemma ReadPasses(run: seq<World>, moves: seq<Move>, a: nat, b: nat, best: Option<nat>, k: nat, m: nat)
    requires a < b < |moves| && |run| == |moves| + 1 && moves[b] == Read(k) && run[b + 1].s == run[b].s
    requires Stamped(run[b].s.entries, run[b].s.clock) && k in run[b].s.entries
    requires best.Some? ==> best.value in run[b].s.entries && best.value != k
    requires m in run[b].s.entries && (m == k || Passed(run, moves, a, b, best, m))
    ensures Passed(run, moves, a, b + 1, Better(run[b].s, k, best), m)
  {
    if m == k {
      assert !Reclaimable(run[b].s, k) ==> SeenHeld(run, moves, a, b + 1, k);
    } else if SeenHeld(run, moves, a, b, m) {
      SeenHeldEarlier(run, moves, a, b, b + 1, m);
    }
  }

  lemma ScanReads(run: seq<World>, moves: seq<Move>, a: nat, b: nat, left: set<nat>, best: Option<nat>, k: nat)
    requires a < b < |moves| && |run| == |moves| + 1 && Step(run[b], moves[b], run[b + 1])
    requires moves[b] == Read(k) && run[b + 1].s == run[b].s && WorldInv(run[b])
    requires run[b].pc == Scanning(left, best) && k in left
    requires ScanInv(run, moves, a, b, left, best)
    ensures ScanInv(run, moves, a, b + 1, left - {k}, Better(run[b].s, k, best))
  {
    var better := Better(run[b].s, k, best);
    if better != best {
      assert a < b < b + 1 && moves[b] == Read(k) && Reclaimable(run[b].s, k) && FreeUnlessTaken(run, moves, b, b + 1, k);
      assert Chosen(run, moves, a, b + 1, k);
    } else if best.Some? {
      ChosenGoesOn(run, moves, a, b, best.value);
    }
    forall m | m in run[b + 1].s.entries && m !in left - {k}
      ensures Passed(run, moves, a, b + 1, better, m)
    {
      ReadPasses(run, moves, a, b, best, k, m);
    }
  }

  lemma RemovalGoesOn(run: seq<World>, moves: seq<Move>, a: nat, b: nat)
    requires a < b < |moves| && |run| == |moves| + 1 && run[b + 1].s.used <= run[b].s.used
    requires Removal(run, moves, a, b)
    ensures Removal(run, moves, a, b + 1)
  {
    var m :| a < m < b && moves[m] == Remove && run[m].pc.Removing?
      && ScanInv(run, moves, a, m, {}, Some(run[m].pc.k))
      && (Reclaimable(run[m].s, run[m].pc.k) ==> run[b].s.used <= run[a].s.used - ICON_BYTES);
    assert a < m < b + 1;
  }

  lemma RemovalHappens(run: seq<World>, moves: seq<Move>, a: nat, b: nat)
    requires a < b < |moves| && |run| == |moves| + 1 && Step(run[b], moves[b], run[b + 1]) && WorldInv(run[b])
    requires run[b].pc.Removing? && !IsElsewhere(moves[b]) && ScanInv(run, moves, a, b, {}, Some(run[b].pc.k))
    ensures Removal(run, moves, a, b + 1)
  {
    if Reclaimable(run[b].s, run[b].pc.k) {
      ReclaimingFreesOne(run[b].s, run[b].pc.k);
    }
    assert a < b < b + 1 && moves[b] == Remove;
  }

  lemma RoundGoesOn(run: seq<World>, moves: seq<Move>, a: nat, b: nat)
    requires a < b < |moves| && |run| == |moves| + 1 && Step(run[b], moves[b], run[b + 1]) && WorldInv(run[b])
    requires Reserving(run[b].pc) && Reserving(run[b + 1].pc) && moves[b] != Fetch && RoundInv(run, moves, a, b)
    ensures RoundInv(run, moves, a, b + 1)
  {
    if IsElsewhere(moves[b]) {
      ElsewhereKeepsInv(run[b].s, moves[b]);
      match run[b].pc {
        case Scanning(left, best) => ScanGoesOn(run, moves, a, b, left, best);
        case Removing(k) => ScanGoesOn(run, moves, a, b, {}, Some(k));
        case _ => RemovalGoesOn(run, moves, a, b);
      }
    } else {
      match run[b].pc {
        case Scanning(left, best) =>
          if left != {} {
            ScanReads(run, moves, a, b, left, best, moves[b].k);
          } else {
            ScanGoesOn(run, moves, a, b, left, best);
          }
        case Removing(k) => RemovalHappens(run, moves, a, b);
        case _ =>
      }
    }
  }

  lemma RoundBegins(run: seq<World>, moves: seq<Move>, a: nat)
    requires FailedFetch(run, moves, a) && Step(run[a], moves[a], run[a + 1])
    ensures RoundInv(run, moves, a, a + 1)
  {
  }

  ghost predicate InvGoesOn(run: seq<World>, moves: seq<Move>, a: nat, j: nat)
    requires j + 1 < |run| == |moves| + 1 && a < j
  {
    RoundInv(run, moves, a, j) ==> RoundInv(run, moves, a, j + 1)
  }

  lemma {:induction false} InvThroughout(run: seq<World>, moves: seq<Move>, a: nat, b: nat)
    requires a < b < |run| == |moves| + 1 && RoundInv(run, moves, a, a + 1)
    requires forall j :: a < j < b ==> InvGoesOn(run, moves, a, j)
    ensures RoundInv(run, moves, a, b)
  {
    if a + 1 < b {
      InvThroughout(run, moves, a, b - 1);
      assert InvGoesOn(run, moves, a, b - 1);
    }
  }

  lemma EveryRound(limit: nat, budget: int, run: seq<World>, moves: seq<Move>, a: nat, b: nat)
    requires IsRun(limit, budget, run, moves) && Round(run, moves, a, b)
    ensures RoundInv(run, moves, a, b)
  {
    assert Step(run[a], moves[a], run[a + 1]);
    RoundBegins(run, moves, a);
    forall j | a < j < b
      ensures InvGoesOn(run, moves, a, j)
    {
      EveryRunKeepsInv(limit, budget, run, moves, j);
      assert Step(run[j], moves[j], run[j + 1]);
      if RoundInv(run, moves, a, j) {
        RoundGoesOn(run, moves, a, j);
      }
    }
    InvThroughout(run, moves, a, b);
  }

  /** What is free at the failed try stays so until it is removed, unless somebody takes it up. */
  lemma {:induction false} FreeSinceTheTry(limit: nat, budget: int, run: seq<World>, moves: seq<Move>, a: nat, b: nat, k: nat)
    requires IsRun(limit, budget, run, moves) && Round(run, moves, a, b) && !run[b].pc.Fetching?
    ensures FreeUnlessTaken(run, moves, a, b, k)
  {
    if b == a + 1 {
      assert Step(run[a], moves[a], run[a + 1]);
    } else {
      EveryRound(limit, budget, run, moves, a, b - 1);
      EveryRunKeepsInv(limit, budget, run, moves, b - 1);
      assert Step(run[b - 1], moves[b - 1], run[b]);
      FreeSinceTheTry(limit, budget, run, moves, a, b - 1, k);
      FreeGoesOn(run, moves, a, b - 1, k);
    }
  }

  /** From the move `c` that begins it to state `d`, a reservation is under way. */
  ghost predicate InReservation(run: seq<World>, moves: seq<Move>, c: nat, d: nat) {
    && c < d < |run| == |moves| + 1 && moves[c] == Reserve
    && forall j :: c < j <= d ==> Reserving(run[j].pc)
  }

  /** A reservation that scans or removes has a failed try behind it. */
  lemma {:induction false} LastTry(limit: nat, budget: int, run: seq<World>, moves: seq<Move>, c: nat, d: nat)
      returns (a: nat)
    requires IsRun(limit, budget, run, moves) && InReservation(run, moves, c, d) && !run[d].pc.Fetching?
    ensures c < a && Round(run, moves, a, d)
    decreases d
  {
    ReachedByTrying(run[d - 1], moves[d - 1], run[d]);
    if moves[d - 1] == Fetch {
      a := d - 1;
    } else {
      a := LastTry(limit, budget, run, moves, c, d - 1);
      RoundReaches(run, moves, a, d);
    }
  }

  lemma RoundReaches(run: seq<World>, moves: seq<Move>, a: nat, d: nat)
    requires d > 0 && Round(run, moves, a, d - 1) && d < |run| && moves[d - 1] != Fetch && Reserving(run[d].pc)
    ensures Round(run, moves, a, d)
  {
  }

  lemma ReachedByTrying(w: World, move: Move, w': World)
    requires Step(w, move, w') && Reserving(w'.pc) && !w'.pc.Fetching?
    ensures if move == Fetch then !Fits(w.s) else Reserving(w.pc) && !w.pc.Fetching?
  {
  }

  // ---- Main results ------------------------------------------------------

  /** The reservation begun at move `c` fails at move `b`. */
  ghost predicate Fails(run: seq<World>, moves: seq<Move>, c: nat, b: nat) {
    InReservation(run, moves, c, b) && b < |moves| && moves[b] == Choose && run[b + 1].pc.Resting?
  }

  /** Between `a` and `b` another thread took the entry's icon up, and then the entry was read. */
  ghost predicate ReadAfterTakenUp(run: seq<World>, moves: seq<Move>, a: nat, b: nat, k: nat)
    requires b < |run| == |moves| + 1 && a < b && Reclaimable(run[a].s, k)
  {
    exists u, r :: a < u < r < b && moves[u] == Upgrade(run[a].s.entries[k].image.value) && moves[r] == Read(k)
  }

  lemma SeenSinceTheTry(limit: nat, budget: int, run: seq<World>, moves: seq<Move>, a: nat, b: nat, k: nat)
    requires IsRun(limit, budget, run, moves) && Round(run, moves, a, b) && run[b].pc == Scanning({}, None)
    ensures run[a].s.entries == run[b].s.entries
    ensures k in run[b].s.entries ==> SeenHeld(run, moves, a, b, k)
    ensures Reclaimable(run[a].s, k) ==> ReadAfterTakenUp(run, moves, a, b, k)
  {
    EveryRound(limit, budget, run, moves, a, b);
    if k in run[b].s.entries {
      assert Passed(run, moves, a, b, None, k);
      var r :| a < r < b && moves[r] == Read(k) && !Reclaimable(run[r].s, k);
      if Reclaimable(run[a].s, k) {
        assert Round(run, moves, a, r);
        ReadWhileScanning(limit, budget, run, moves, r);
        FreeSinceTheTry(limit, budget, run, moves, a, r, k);
      }
    }
  }

  lemma ReadWhileScanning(limit: nat, budget: int, run: seq<World>, moves: seq<Move>, r: nat)
    requires IsRun(limit, budget, run, moves) && r < |moves| && moves[r].Read?
    ensures run[r].pc.Scanning?
  {
    assert Step(run[r], moves[r], run[r + 1]);
  }

  lemma FailsAfterATry(limit: nat, budget: int, run: seq<World>, moves: seq<Move>, c: nat, b: nat) returns (a: nat)
    requires IsRun(limit, budget, run, moves) && Fails(run, moves, c, b)
    ensures c < a && Round(run, moves, a, b) && run[b].pc == Scanning({}, None)
  {
    assert Step(run[b], moves[b], run[b + 1]);
    a := LastTry(limit, budget, run, moves, c, b);
  }

  /** In every interleaving: a reservation that fails has found the budget full at its last try, and has read
      every entry since then while the cache was not the only holder of its icon. An entry that could have been
      reclaimed at the try itself had its icon taken up by another thread before it was read. */
  lemma FailingHasSeenAllHeld(limit: nat, budget: int, run: seq<World>, moves: seq<Move>, c: nat, b: nat)
      returns (a: nat)
    requires IsRun(limit, budget, run, moves) && Fails(run, moves, c, b)
    ensures c < a < b && FailedFetch(run, moves, a) && run[a].s.entries == run[b].s.entries
    ensures forall k <- run[b].s.entries :: SeenHeld(run, moves, a, b, k)
    ensures forall k :: Reclaimable(run[a].s, k) ==> ReadAfterTakenUp(run, moves, a, b, k)
  {
    a := FailsAfterATry(limit, budget, run, moves, c, b);
    SeenSinceTheTry(limit, budget, run, moves, a, b, 0);
    forall k | k in run[b].s.entries
      ensures SeenHeld(run, moves, a, b, k)
    {
      SeenSinceTheTry(limit, budget, run, moves, a, b, k);
    }
    forall k | Reclaimable(run[a].s, k)
      ensures ReadAfterTakenUp(run, moves, a, b, k)
    {
      SeenSinceTheTry(limit, budget, run, moves, a, b, k);
    }
  }

  /** So a reservation during which nobody takes an icon up fails only when, at its last try, the bytes do not
      fit and every cached icon is in use elsewhere. */
  lemma ReservationFailsOnlyWhenNoneRemains(
      limit: nat, budget: int, run: seq<World>, moves: seq<Move>, c: nat, b: nat) returns (a: nat)
    requires IsRun(limit, budget, run, moves) && Fails(run, moves, c, b) && NoUpgrade(moves, c, b)
    ensures c < a < b && FailedFetch(run, moves, a) && forall k :: !Reclaimable(run[a].s, k)
  {
    a := FailingHasSeenAllHeld(limit, budget, run, moves, c, b);
  }

  /** In every interleaving: what a reservation removes was read, since the try that failed, while the cache was
      its icon's only holder; and whatever was used longer ago was seen held. */
  lemma TheOldestSeenFreeGoes(limit: nat, budget: int, run: seq<World>, moves: seq<Move>, a: nat, b: nat, k: nat, m: nat)
    requires IsRun(limit, budget, run, moves) && Round(run, moves, a, b) && run[b].pc == Removing(k)
    ensures k in run[b].s.entries
    ensures exists r :: a < r < b && moves[r] == Read(k) && Reclaimable(run[r].s, k)
    ensures m in run[b].s.entries && run[b].s.entries[m].used < run[b].s.entries[k].used ==> SeenHeld(run, moves, a, b, m)
  {
    EveryRunKeepsInv(limit, budget, run, moves, b);
    EveryRound(limit, budget, run, moves, a, b);
    assert Chosen(run, moves, a, b, k);
    if m in run[b].s.entries {
      assert Passed(run, moves, a, b, Some(k), m);
    }
  }

  /** Removing an entry frees its icon's bytes exactly when the cache is the only holder at that moment. */
  lemma RemovalFrees(s: Store, k: nat)
    requires Inv(s) && k in s.entries && s.entries[k].image.Some?
    ensures Without(s, k).used == if Reclaimable(s, k) then s.used - ICON_BYTES else s.used
  {
    if Reclaimable(s, k) {
      ReclaimingFreesOne(s, k);
    } else {
      forall i | i in s.live
        ensures i in Without(s, k).live
      {
        assert Referenced(s.entries, s.held, s.others, i);
        if i !in s.held && i !in s.others {
          var m :| m in s.entries && s.entries[m].image == Some(i);
          if m == k {
            m :| m in s.entries && m != k && s.entries[m].image == s.entries[k].image;
          }
          assert m in s.entries - {k} && (s.entries - {k})[m].image == Some(i);
        }
      }
      assert Without(s, k).live == s.live;
    }
  }

  lemma TakenUpBeforeRemoval(run: seq<World>, moves: seq<Move>, a: nat, m: nat, k: nat) returns (r: nat, u: nat)
    requires a < m < |moves| && |run| == |moves| + 1 && ScanInv(run, moves, a, m, {}, Some(k))
    requires WorldInv(run[m]) && k in run[m].s.entries && !Reclaimable(run[m].s, k)
    ensures a < r < u < m && moves[r] == Read(k) && Reclaimable(run[r].s, k)
    ensures moves[u] == Upgrade(run[r].s.entries[k].image.value) && Without(run[m].s, k).used == run[m].s.used
  {
    assert Chosen(run, moves, a, m, k);
    r :| a < r < m && moves[r] == Read(k) && Reclaimable(run[r].s, k) && FreeUnlessTaken(run, moves, r, m, k);
    u :| r < u < m && moves[u] == Upgrade(run[r].s.entries[k].image.value);
    RemovalFrees(run[m].s, k);
  }

  /** In every interleaving: a reservation that must evict again has had the icon it just evicted taken up, after
      its holders were read and before it was removed; so that removal freed nothing. */
  lemma EvictingAgainMeansTakenUp(limit: nat, budget: int, run: seq<World>, moves: seq<Move>, a: nat, b: nat)
      returns (r: nat, u: nat, m: nat, k: nat)
    requires IsRun(limit, budget, run, moves) && Round(run, moves, a, b) && FailedFetch(run, moves, b)
    ensures a < r < u < m < b && moves[r] == Read(k) && Reclaimable(run[r].s, k)
    ensures moves[u] == Upgrade(run[r].s.entries[k].image.value)
    ensures moves[m] == Remove && run[m].pc == Removing(k) && run[m + 1].s.used == run[m].s.used
  {
    EveryRunKeepsInv(limit, budget, run, moves, a);
    EveryRunKeepsInv(limit, budget, run, moves, b);
    EveryRound(limit, budget, run, moves, a, b);
    assert Step(run[b], moves[b], run[b + 1]);
    m :| a < m < b && moves[m] == Remove && run[m].pc.Removing?
      && ScanInv(run, moves, a, m, {}, Some(run[m].pc.k))
      && (Reclaimable(run[m].s, run[m].pc.k) ==> run[b].s.used <= run[a].s.used - ICON_BYTES);
    k := run[m].pc.k;
    EveryRunKeepsInv(limit, budget, run, moves, m);
    assert Step(run[m], moves[m], run[m + 1]);
    r, u := TakenUpBeforeRemoval(run, moves, a, m, k);
  }

  predicate NoRemoval(moves: seq<Move>, c: nat, d: nat)
    requires d <= |moves|
  {
    forall m :: c < m < d ==> moves[m] != Remove
  }

  predicate Fits(s: Store) {
    s.used + ICON_BYTES <= s.budget
  }

  /** With nobody taking icons up, what is chosen stays free, and one removal makes room. */
  ghost predicate OneIsEnough(w: World, unremoved: bool) {
    match w.pc
    case Scanning(left, best) => unremoved && (best.Some? ==> Reclaimable(w.s, best.value))
    case Removing(k) => unremoved && Reclaimable(w.s, k)
    case Fetching => unremoved || Fits(w.s)
    case _ => true
  }

  lemma OneGoesOn(w: World, move: Move, w': World, unremoved: bool)
    requires WorldInv(w) && Step(w, move, w') && Reserving(w.pc) && Reserving(w'.pc) && !move.Upgrade?
    requires OneIsEnough(w, unremoved)
    ensures OneIsEnough(w', unremoved && move != Remove) && (move == Remove ==> unremoved)
  {
    if IsElsewhere(move) {
      ElsewhereKeepsInv(w.s, move);
      if w.pc.Removing? {
        StaysFree(w.s, move, w.pc.k);
      }
      if w.pc.Scanning? && w.pc.best.Some? {
        StaysFree(w.s, move, w.pc.best.value);
      }
    } else if w.pc.Removing? {
      ReclaimingFreesOne(w.s, w.pc.k);
    }
  }

  /** What is kept by every move of the reservation begun at `c`. */
  ghost predicate OneSoFar(run: seq<World>, moves: seq<Move>, c: nat, j: nat)
    requires c < j < |run| == |moves| + 1
  {
    OneIsEnough(run[j], NoRemoval(moves, c, j))
    && forall m, n :: c < m < n < j && moves[m] == Remove ==> moves[n] != Remove
  }

  lemma OneSoFarGoesOn(run: seq<World>, moves: seq<Move>, c: nat, j: nat)
    requires c < j < |moves| && |run| == |moves| + 1 && OneSoFar(run, moves, c, j)
    requires WorldInv(run[j]) && Step(run[j], moves[j], run[j + 1]) && Reserving(run[j].pc) && Reserving(run[j + 1].pc)
    requires !moves[j].Upgrade?
    ensures OneSoFar(run, moves, c, j + 1)
  {
    OneGoesOn(run[j], moves[j], run[j + 1], NoRemoval(moves, c, j));
    assert NoRemoval(moves, c, j + 1) <==> NoRemoval(moves, c, j) && moves[j] != Remove;
  }

  ghost predicate OneHoldsNext(run: seq<World>, moves: seq<Move>, c: nat, j: nat)
    requires c < j && j + 1 < |run| == |moves| + 1
  {
    OneSoFar(run, moves, c, j) ==> OneSoFar(run, moves, c, j + 1)
  }

  lemma {:induction false} OneHolds(run: seq<World>, moves: seq<Move>, c: nat, d: nat)
    requires c < d < |run| == |moves| + 1 && OneSoFar(run, moves, c, c + 1)
    requires forall j :: c < j < d ==> OneHoldsNext(run, moves, c, j)
    ensures OneSoFar(run, moves, c, d)
  {
    if c + 1 < d {
      OneHolds(run, moves, c, d - 1);
      assert OneHoldsNext(run, moves, c, d - 1);
    }
  }

  lemma OneThroughout(limit: nat, budget: int, run: seq<World>, moves: seq<Move>, c: nat, d: nat)
    requires IsRun(limit, budget, run, moves) && InReservation(run, moves, c, d) && NoUpgrade(moves, c, d)
    ensures OneSoFar(run, moves, c, d)
  {
    assert Step(run[c], moves[c], run[c + 1]);
    forall j | c < j < d
      ensures OneHoldsNext(run, moves, c, j)
    {
      EveryRunKeepsInv(limit, budget, run, moves, j);
      assert Step(run[j], moves[j], run[j + 1]);
      if OneSoFar(run, moves, c, j) {
        OneSoFarGoesOn(run, moves, c, j);
      }
    }
    OneHolds(run, moves, c, d);
  }

  /** A reservation during which nobody takes an icon up evicts one at most. */
  lemma ReservationEvictsOnce(limit: nat, budget: int, run: seq<World>, moves: seq<Move>, c: nat, d: nat, m: nat, n: nat)
    requires IsRun(limit, budget, run, moves) && InReservation(run, moves, c, d) && NoUpgrade(moves, c, d)
    requires c < m < n < d
    ensures moves[m] != Remove || moves[n] != Remove
  {
    OneThroughout(limit, budget, run, moves, c, d);
  }

  // ---- Reservations end --------------------------------------------------

  /** From a try on, with n entries: the try, n reads, the choice, the removal, and the same with one less. */
  function Work(n: nat): nat {
    n + 3 + if n == 0 then 0 else Work(n - 1)
  }

  lemma {:induction false} WorkIs(n: nat)
    ensures 2 * Work(n) == (n + 1) * (n + 6)
  {
    if n > 0 {
      WorkIs(n - 1);
      assert n * (n + 5) + 2 * (n + 3) == (n + 1) * (n + 6);
    }
  }

  /** After the removal of one of n entries. */
  function WorkAfter(n: nat): nat {
    if n == 0 then 0 else Work(n - 1)
  }

  function Rank(w: World): nat {
    match w.pc
    case Fetching => Work(|w.s.entries|)
    case Scanning(left, _) => |left| + 2 + WorkAfter(|w.s.entries|)
    case Removing(_) => 1 + WorkAfter(|w.s.entries|)
    case _ => 0
  }

  /** The worker's own moves from `c` on, before `d`. */
  function Own(moves: seq<Move>, c: nat, d: nat): nat
    requires d <= |moves|
    decreases d
  {
    if d <= c then 0 else Own(moves, c, d - 1) + if IsElsewhere(moves[d - 1]) then 0 else 1
  }

  lemma RankFalls(w: World, move: Move, w': World)
    requires WorldInv(w) && Step(w, move, w') && Reserving(w.pc) && Reserving(w'.pc)
    ensures if IsElsewhere(move) then Rank(w') == Rank(w) else Rank(w') < Rank(w)
  {
    if IsElsewhere(move) {
      ElsewhereKeepsInv(w.s, move);
    } else if w.pc.Removing? {
      EvictionKeepsInv(w.s, w.pc.k);
    } else {
      ReadingRankFalls(w, move, w');
    }
  }

  lemma ReadingRankFalls(w: World, move: Move, w': World)
    requires WorkerStep(w, move, w') && Reserving(w'.pc) && (w.pc.Fetching? || w.pc.Scanning?)
    ensures Rank(w') < Rank(w)
  {
    if w.pc.Fetching? {
      assert |w.s.entries.Keys| == |w.s.entries|;
    } else if w.pc.left != {} {
      assert w.pc.left == (w.pc.left - {move.k}) + {move.k};
    }
  }

  ghost predicate Pays(run: seq<World>, moves: seq<Move>, j: nat)
    requires j + 1 < |run| == |moves| + 1
  {
    Rank(run[j + 1]) + (if IsElsewhere(moves[j]) then 0 else 1) <= Rank(run[j])
  }

  ghost predicate AllPay(run: seq<World>, moves: seq<Move>, c: nat, d: nat)
    requires d < |run| == |moves| + 1
  {
    forall j :: c <= j < d ==> Pays(run, moves, j)
  }

  lemma {:induction false} PaysThroughout(run: seq<World>, moves: seq<Move>, c: nat, d: nat)
    requires c <= d < |run| == |moves| + 1 && AllPay(run, moves, c, d)
    ensures Own(moves, c, d) + Rank(run[d]) <= Rank(run[c])
    decreases d
  {
    if c < d {
      PaysThroughout(run, moves, c, d - 1);
      assert Pays(run, moves, d - 1);
    }
  }

  lemma MovesPay(limit: nat, budget: int, run: seq<World>, moves: seq<Move>, c: nat, d: nat)
    requires IsRun(limit, budget, run, moves) && InReservation(run, moves, c, d)
    ensures AllPay(run, moves, c + 1, d)
  {
    forall j | c < j < d
      ensures Pays(run, moves, j)
    {
      EveryRunKeepsInv(limit, budget, run, moves, j);
      assert Step(run[j], moves[j], run[j + 1]);
      RankFalls(run[j], moves[j], run[j + 1]);
    }
  }

  lemma BeginsWithWork(w: World, move: Move, w': World)
    requires Step(w, move, w') && move == Reserve
    ensures Rank(w') == Work(|w.s.entries|)
  {
  }

  /** Whatever other threads do, a reservation from a cache with n entries takes the worker no more than
      (n + 1) * (n + 6) / 2 moves: each leaves it less to do. */
  lemma ReservingTerminates(limit: nat, budget: int, run: seq<World>, moves: seq<Move>, c: nat, d: nat)
    requires IsRun(limit, budget, run, moves) && InReservation(run, moves, c, d)
    ensures Own(moves, c + 1, d) + Rank(run[d]) <= Work(|run[c].s.entries|)
  {
    BeginsWithWork(run[c], moves[c], run[c + 1]);
    MovesPay(limit, budget, run, moves, c, d);
    PaysThroughout(run, moves, c + 1, d);
  }

  /** And the worker always has a move to make until it rests. */
  lemma WorkerIsNeverStuck(w: World) returns (move: Move, w': World)
    requires WorldInv(w) && !w.pc.Resting?
    ensures WorkerStep(w, move, w') && !IsElsewhere(move)
  {
    var s := w.s;
    match w.pc {
      case Fetching =>
        move := Fetch;
        w' := if Fits(s) then World(s.(used := s.used + ICON_BYTES, leases := s.leases + 1), Resting)
              else World(s, Scanning(s.entries.Keys, None));
      case Scanning(left, best) =>
        if left != {} {
          var k :| k in left;
          move, w' := Read(k), World(s, Scanning(left - {k}, Better(s, k, best)));
        } else {
          move, w' := Choose, World(s, if best.Some? then Removing(best.value) else Resting);
        }
      case Removing(k) => move, w' := Remove, World(Without(s, k), Fetching);
      case Storing(key, entry, spare) =>
        if HasRoom(s, key) {
          move, w' := Fill, World(Settle(Filled(s, key, entry)), Finishing(spare));
        } else {
          var some :| some in s.entries.Keys;
          var k := OldestExists(s, false, s.entries.Keys);
          assert Oldest(s, false, k);
          move, w' := MakeRoom(k), World(Without(s, k), w.pc);
        }
      case Finishing(spare) => move, w' := Finish, World(WithoutSpare(s, spare), Resting);
    }
  }
}
