/**
 The icon cache and its byte budget (src/icon_cache.rs).

 An icon lives as long as anyone holds it: the cache, the worker thread that owns the cache, or
 another thread. Each living icon keeps a lease on the bytes of one raster, and gives them back
 when its last holder lets go. Other threads pass icons on, drop them, and take up through a weak
 reference any icon that still lives, between any two accesses of the worker. That the last holder
 is gone and that the bytes are back is one step: in between nobody can tell. Clocks and revisions
 do not wrap here.
 */
module IconCache {
  import opened Wrappers

  const ICON_BYTES: int := 256 * 256 * 4

  datatype Entry = Entry(image: Option<nat>, expires: int, used: nat, successful: bool)

  /** `held` are the icons the worker holds outside the cache, `others` those that other threads hold, each
      as often as it is held; `live` are the icons someone holds; `leases` the worker's leases not yet
      attached to an icon. */
  datatype Store = Store(
    entries: map<nat, Entry>, limit: nat, budget: int, used: int, clock: nat,
    held: multiset<nat>, others: multiset<nat>, live: set<nat>, leases: nat, pixels: map<nat, seq<int>>, next: nat)

  predicate InCache(entries: map<nat, Entry>, i: nat) {
    exists k :: k in entries && entries[k].image == Some(i)
  }

  predicate Referenced(entries: map<nat, Entry>, held: multiset<nat>, others: multiset<nat>, i: nat) {
    i in held || i in others || InCache(entries, i)
  }

  /** Every icon someone holds is among the living. */
  ghost predicate Covers(live: set<nat>, entries: map<nat, Entry>, held: multiset<nat>, others: multiset<nat>) {
    forall i :: Referenced(entries, held, others, i) ==> i in live
  }

  /** And no others are. */
  ghost predicate AreTheHeld(live: set<nat>, entries: map<nat, Entry>, held: multiset<nat>, others: multiset<nat>) {
    forall i :: i in live <==> Referenced(entries, held, others, i)
  }

  ghost predicate AreStored(live: set<nat>, next: nat, pixels: map<nat, seq<int>>) {
    forall i <- live :: i < next && i in pixels
  }

  /** The bytes in use are those of the icons that live and of the leases not yet attached to one. */
  predicate Accounted(used: int, live: set<nat>, leases: nat) {
    used == ICON_BYTES * (|live| + leases)
  }

  /** Icons nobody holds any more are dropped, and their leases given back. */
  function Settle(s: Store): Store {
    var live := set i | i in s.live && Referenced(s.entries, s.held, s.others, i);
    s.(live := live, used := s.used - ICON_BYTES * (|s.live| - |live|))
  }

  ghost predicate Inv(s: Store) {
    && s.limit >= 1 && |s.entries| <= s.limit
    && Accounted(s.used, s.live, s.leases) && s.used <= s.budget
    && AreTheHeld(s.live, s.entries, s.held, s.others) && AreStored(s.live, s.next, s.pixels)
    && Stamped(s.entries, s.clock)
  }

  // ---- Eviction ----------------------------------------------------------

  /** The cache is the icon's only holder. */
  predicate Reclaimable(s: Store, k: nat) {
    && k in s.entries && s.entries[k].image.Some?
    && s.entries[k].image.value !in s.held && s.entries[k].image.value !in s.others
    && forall m :: m in s.entries && m != k ==> s.entries[m].image != s.entries[k].image
  }

  predicate Candidate(s: Store, reclaim: bool, k: nat) {
    k in s.entries && (reclaim ==> Reclaimable(s, k))
  }

  /** The least recently used of the candidates. */
  ghost predicate Oldest(s: Store, reclaim: bool, k: nat) {
    Candidate(s, reclaim, k) && forall m :: Candidate(s, reclaim, m) && m != k ==> s.entries[k].used < s.entries[m].used
  }

  function Without(s: Store, k: nat): Store {
    Settle(s.(entries := s.entries - {k}))
  }

  /** Everything but that dropped icons are gone. */
  ghost predicate Sound(s: Store) {
    && s.limit >= 1 && |s.entries| <= s.limit
    && Accounted(s.used, s.live, s.leases) && s.used <= s.budget
    && Covers(s.live, s.entries, s.held, s.others) && AreStored(s.live, s.next, s.pixels)
    && Stamped(s.entries, s.clock)
  }

  /** No two entries were last used at the same tick. */
  ghost predicate Stamped(entries: map<nat, Entry>, clock: nat) {
    && (forall k <- entries :: entries[k].used <= clock)
    && (forall k, m :: k in entries && m in entries && k != m ==> entries[k].used != entries[m].used)
  }

  lemma SettledAreTheHeld(
      live: set<nat>, entries: map<nat, Entry>, held: multiset<nat>, others: multiset<nat>, next: nat, pixels: map<nat, seq<int>>)
    requires Covers(live, entries, held, others) && AreStored(live, next, pixels)
    ensures var settled := set i | i in live && Referenced(entries, held, others, i);
      settled <= live && AreTheHeld(settled, entries, held, others) && AreStored(settled, next, pixels)
  {
  }

  lemma SettledAccounts(used: int, live: set<nat>, settled: set<nat>, leases: nat)
    requires Accounted(used, live, leases) && settled <= live
    ensures Accounted(used - ICON_BYTES * (|live| - |settled|), settled, leases) && |settled| <= |live|
  {
    CardinalityOfSubset(settled, live);
  }

  lemma SettleKeepsInv(s: Store)
    requires Sound(s)
    ensures Inv(Settle(s)) && Settle(s).used <= s.used
  {
    SettledAreTheHeld(s.live, s.entries, s.held, s.others, s.next, s.pixels);
    SettledAccounts(s.used, s.live, Settle(s).live, s.leases);
  }

  lemma CardinalityOfSubset<T>(a: set<T>, b: set<T>)
    requires a <= b
    ensures |a| <= |b|
  {
    assert b == a + (b - a);
  }

  lemma RemovalShrinks(entries: map<nat, Entry>, k: nat)
    requires k in entries
    ensures |entries - {k}| == |entries| - 1
  {
    assert entries.Keys == (entries - {k}).Keys + {k};
    assert |entries| == |entries.Keys| && |entries - {k}| == |(entries - {k}).Keys|;
  }

  lemma EvictionKeepsInv(s: Store, k: nat)
    requires Inv(s) && k in s.entries
    ensures Inv(Without(s, k)) && |Without(s, k).entries| == |s.entries| - 1 && Without(s, k).used <= s.used
  {
    RemovalShrinks(s.entries, k);
    var s' := s.(entries := s.entries - {k});
    forall i | Referenced(s'.entries, s'.held, s'.others, i)
      ensures i in s.live
    {
      assert Referenced(s.entries, s.held, s.others, i);
    }
    SettleKeepsInv(s');
  }

  /** Removing an entry whose icon only the cache holds frees exactly the bytes of that icon. */
  lemma ReclaimingFreesOne(s: Store, k: nat)
    requires Inv(s) && Reclaimable(s, k)
    ensures Without(s, k).used == s.used - ICON_BYTES
    ensures Without(s, k).live == s.live - {s.entries[k].image.value}
  {
    var i := s.entries[k].image.value;
    var s' := s.(entries := s.entries - {k});
    assert InCache(s.entries, i) && i in s.live;
    forall j: nat
      ensures Referenced(s'.entries, s'.held, s'.others, j) <==> Referenced(s.entries, s.held, s.others, j) && j != i
    {
      if InCache(s.entries, j) && j != i {
        var m :| m in s.entries && s.entries[m].image == Some(j);
        assert m in s'.entries && s'.entries[m].image == Some(j);
      }
      if InCache(s'.entries, j) {
        var m :| m in s'.entries && s'.entries[m].image == Some(j);
        assert m in s.entries && s.entries[m].image == Some(j);
      }
    }
    assert (set j | j in s'.live && Referenced(s'.entries, s'.held, s'.others, j)) == s.live - {i};
    assert s.live == (s.live - {i}) + {i};
  }

  /** There is an oldest candidate whenever there is any: stamps are never shared. */
  lemma {:induction false} OldestExists(s: Store, reclaim: bool, keys: set<nat>) returns (k: nat)
    requires Inv(s) && keys != {} && forall m <- keys :: Candidate(s, reclaim, m)
    ensures k in keys && k in s.entries
    ensures forall m <- keys :: m in s.entries && (m != k ==> s.entries[k].used < s.entries[m].used)
    decreases |keys|
  {
    var some :| some in keys;
    var others := keys - {some};
    k := some;
    if others != {} {
      var best := OldestExists(s, reclaim, others);
      assert Candidate(s, reclaim, some) && Candidate(s, reclaim, best) && best != some;
      if s.entries[best].used < s.entries[some].used {
        k := best;
      }
    }
    forall m | m in keys && m != k
      ensures m in s.entries && s.entries[k].used < s.entries[m].used
    {
      assert Candidate(s, reclaim, m);
      assert m == some || m in others;
    }
  }

  // ---- Inserting ---------------------------------------------------------

  datatype Previous = Previous(image: nat, successful: bool)

  /** What a load gave: pixels with their lease, if any, and whether the source itself was read. */
  datatype Load = Load(pixels: Option<seq<int>>, sourceRead: bool)

  predicate Loaded(load: Load) {
    load.sourceRead && load.pixels.Some?
  }

  predicate SamePixels(s: Store, previous: Option<Previous>, load: Load) {
    previous.Some? && load.pixels.Some? && previous.value.image in s.pixels
    && s.pixels[previous.value.image] == load.pixels.value
  }

  predicate KeepsPrevious(s: Store, previous: Option<Previous>, load: Load) {
    previous.Some? && (load.pixels.None? || (previous.value.successful && !Loaded(load)) || SamePixels(s, previous, load))
  }

  /** A raster that becomes an icon takes its lease along. */
  function WithIcon(s: Store, pixels: seq<int>): Store {
    s.(next := s.next + 1, pixels := s.pixels[s.next := pixels], live := s.live + {s.next},
       leases := if s.leases > 0 then s.leases - 1 else 0, held := s.held + multiset{s.next})
  }

  /** The raster becomes an icon, unless the previous icon is kept. */
  function Adopt(s: Store, previous: Option<Previous>, load: Load): (r: (Store, Option<nat>)) {
    if KeepsPrevious(s, previous, load) then (s, Some(previous.value.image))
    else if load.pixels.Some? then (WithIcon(s, load.pixels.value), Some(s.next))
    else (s, None)
  }

  /** What an insertion has left over in the end: the previous icon, or the lease of a raster not needed. */
  datatype Spare = Nothing | Icon(i: nat) | Lease

  function SpareOf(s: Store, previous: Option<Previous>, load: Load): Spare {
    if KeepsPrevious(s, previous, load) then if load.pixels.Some? then Lease else Nothing
    else if previous.Some? then Icon(previous.value.image) else Nothing
  }

  function WithoutSpare(s: Store, spare: Spare): Store {
    match spare
    case Nothing => s
    case Icon(i) => Settle(s.(held := s.held - multiset{i}))
    case Lease => s.(leases := if s.leases > 0 then s.leases - 1 else 0, used := s.used - ICON_BYTES)
  }

  /** The worker has what is left over. */
  predicate HasSpare(s: Store, spare: Spare) {
    match spare
    case Nothing => true
    case Icon(i) => i in s.held
    case Lease => s.leases > 0
  }

  function NewEntry(s: Store, image: Option<nat>, previous: Option<Previous>, load: Load, expires: int): Entry {
    Entry(image, expires, s.clock + 1,
          Loaded(load) || (KeepsPrevious(s, previous, load) && previous.value.successful))
  }

  function Filled(s: Store, key: nat, entry: Entry): Store {
    s.(entries := s.entries[key := entry], clock := s.clock + 1)
  }

  /** `insert`: the worker holds the previous icon and, with pixels, their lease. */
  ghost predicate CanInsert(s: Store, previous: Option<Previous>, load: Load) {
    && (previous.Some? ==> previous.value.image in s.held)
    && (load.pixels.Some? ==> s.leases > 0)
  }

  lemma OneMoreLives(live: set<nat>, i: nat)
    requires i !in live
    ensures |live + {i}| == |live| + 1
  {
  }

  lemma HoldingOneMore(live: set<nat>, entries: map<nat, Entry>, held: multiset<nat>, others: multiset<nat>, i: nat)
    requires AreTheHeld(live, entries, held, others)
    ensures AreTheHeld(live + {i}, entries, held + multiset{i}, others)
    ensures AreTheHeld(live + {i}, entries, held, others + multiset{i})
  {
    forall j: nat
      ensures j in live + {i} <==> Referenced(entries, held + multiset{i}, others, j)
      ensures j in live + {i} <==> Referenced(entries, held, others + multiset{i}, j)
    {
      assert j in live <==> Referenced(entries, held, others, j);
    }
  }

  lemma StoringOneMore(live: set<nat>, next: nat, pixels: map<nat, seq<int>>, p: seq<int>)
    requires AreStored(live, next, pixels)
    ensures AreStored(live + {next}, next + 1, pixels[next := p])
  {
  }

  lemma LeaseBecomesIcon(used: int, live: set<nat>, leases: nat, i: nat)
    requires Accounted(used, live, leases) && leases > 0 && i !in live
    ensures Accounted(used, live + {i}, leases - 1)
  {
    OneMoreLives(live, i);
  }

  lemma NewIconKeepsInv(s: Store, pixels: seq<int>)
    requires Inv(s) && s.leases > 0
    ensures Inv(WithIcon(s, pixels))
  {
    NextIsNew(s.live, s.next, s.pixels);
    LeaseBecomesIcon(s.used, s.live, s.leases, s.next);
    HoldingOneMore(s.live, s.entries, s.held, s.others, s.next);
    StoringOneMore(s.live, s.next, s.pixels, pixels);
  }

  lemma NextIsNew(live: set<nat>, next: nat, pixels: map<nat, seq<int>>)
    requires AreStored(live, next, pixels)
    ensures next !in live
  {
  }

  lemma AdoptKeepsInv(s: Store, previous: Option<Previous>, load: Load)
    requires Inv(s) && CanInsert(s, previous, load)
    ensures var (adopted, image) := Adopt(s, previous, load);
      && Inv(adopted) && adopted.entries == s.entries && adopted.limit == s.limit && adopted.clock == s.clock
      && (image.Some? ==> image.value in adopted.held) && HasSpare(adopted, SpareOf(s, previous, load))
  {
    if load.pixels.Some? && !KeepsPrevious(s, previous, load) {
      NewIconKeepsInv(s, load.pixels.value);
    }
  }

  lemma FillIsSound(s: Store, key: nat, entry: Entry)
    requires Inv(s) && (key in s.entries || |s.entries| < s.limit) && entry.used == s.clock + 1
    requires entry.image.Some? ==> entry.image.value in s.held
    ensures Sound(Filled(s, key, entry))
  {
    var s' := Filled(s, key, entry);
    EntrySizes(s.entries, key, entry);
    forall i | Referenced(s'.entries, s'.held, s'.others, i)
      ensures i in s'.live
    {
      if InCache(s'.entries, i) {
        var k :| k in s'.entries && s'.entries[k].image == Some(i);
        assert k != key ==> InCache(s.entries, i);
      }
      assert Referenced(s.entries, s.held, s.others, i);
    }
  }

  lemma LettingGoIsSound(s: Store, held: multiset<nat>, others: multiset<nat>)
    requires Sound(s) && held <= s.held && others <= s.others
    ensures Sound(s.(held := held, others := others))
  {
    var s' := s.(held := held, others := others);
    assert forall j :: InCache(s'.entries, j) <==> InCache(s.entries, j);
    assert forall j :: Referenced(s'.entries, s'.held, s'.others, j) ==> Referenced(s.entries, s.held, s.others, j);
  }

  lemma ReleasingKeepsInv(s: Store, held: multiset<nat>, others: multiset<nat>)
    requires Inv(s) && held <= s.held && others <= s.others
    ensures Inv(Settle(s.(held := held, others := others)))
    ensures Settle(s.(held := held, others := others)).used <= s.used
  {
    LettingGoIsSound(s, held, others);
    SettleKeepsInv(s.(held := held, others := others));
  }

  lemma SpareKeepsInv(s: Store, spare: Spare)
    requires Inv(s) && HasSpare(s, spare)
    ensures Inv(WithoutSpare(s, spare))
  {
    match spare {
      case Nothing =>
      case Icon(i) => ReleasingKeepsInv(s, s.held - multiset{i}, s.others);
      case Lease => ReturningKeepsInv(s);
    }
  }

  lemma SpareTouches(s: Store, spare: Spare)
    ensures var s' := WithoutSpare(s, spare);
      s' == s.(held := s'.held, live := s'.live, used := s'.used, leases := s'.leases)
  {
  }

  lemma ReturningKeepsInv(s: Store)
    requires Inv(s) && s.leases > 0
    ensures Inv(s.(leases := s.leases - 1, used := s.used - ICON_BYTES))
  {
  }

  lemma LeasingKeepsInv(s: Store)
    requires Inv(s) && s.used + ICON_BYTES <= s.budget
    ensures Inv(s.(used := s.used + ICON_BYTES, leases := s.leases + 1))
  {
  }

  lemma EntrySizes(entries: map<nat, Entry>, key: nat, entry: Entry)
    ensures |entries[key := entry]| == if key in entries then |entries| else |entries| + 1
  {
    assert entries[key := entry].Keys == entries.Keys + {key};
  }

  // ---- The threads -------------------------------------------------------

  /** Where the worker is. In a reservation it tries for the bytes, reads the holders of one entry after
      another, and removes what it chose; in an insertion it makes room, stores, and drops what is left over. */
  datatype Pc =
    | Resting
    | Fetching
    | Scanning(left: set<nat>, best: Option<nat>)
    | Removing(k: nat)
    | Storing(key: nat, entry: Entry, spare: Spare)
    | Finishing(spare: Spare)

  datatype World = World(s: Store, pc: Pc)

  /** `Hold`, `Upgrade` and `Release` are made by other threads, all the others by the worker. */
  datatype Move =
    | Hold(i: nat) | Upgrade(i: nat) | Release(i: nat)
    | Get(key: nat, now: int, current: bool) | TakePrevious(key: nat) | Give(i: nat) | Drop(i: nat) | ReturnLease
    | Reserve | Fetch | Read(k: nat) | Choose | Remove
    | Insert(key: nat, previous: Option<Previous>, load: Load, expires: int) | MakeRoom(k: nat) | Fill | Finish

  predicate IsElsewhere(move: Move) {
    move.Hold? || move.Upgrade? || move.Release?
  }

  function New(limit: nat, budget: int): World {
    World(Store(map[], limit, budget, 0, 0, multiset{}, multiset{}, {}, 0, map[], 0), Resting)
  }

  predicate CanElsewhere(s: Store, move: Move) {
    match move
    case Hold(i) => i in s.others
    case Upgrade(i) => i in s.live
    case Release(i) => i in s.others
    case _ => false
  }

  /** A step of another thread: a copy of an icon it holds, one taken up through a weak reference, which
      succeeds while anyone holds it, or one dropped. */
  function Elsewhere(s: Store, move: Move): Store {
    match move
    case Hold(i) => s.(others := s.others + multiset{i})
    case Upgrade(i) => s.(others := s.others + multiset{i})
    case Release(i) => Settle(s.(others := s.others - multiset{i}))
    case _ => s
  }

  /** `get_at`: the entry is now the most recently used, and the caller holds what it found. */
  function Got(s: Store, key: nat, now: int, current: bool): Store {
    var s' := s.(clock := s.clock + 1);
    if key !in s.entries then s'
    else
      var e := s.entries[key].(used := s.clock + 1);
      var touched := s'.(entries := s.entries[key := e]);
      if e.expires > now && current && e.image.Some? then touched.(held := s.held + multiset{e.image.value}) else touched
  }

  /** Of two entries that the cache alone holds, the one used longer ago. */
  function Better(s: Store, k: nat, best: Option<nat>): Option<nat> {
    if Reclaimable(s, k) && (best.None? || best.value !in s.entries || s.entries[k].used < s.entries[best.value].used)
    then Some(k) else best
  }

  predicate HasRoom(s: Store, key: nat) {
    |s.entries| < s.limit || key in s.entries
  }

  /** A step of the worker while it neither reserves nor inserts. */
  ghost predicate RestingStep(s: Store, move: Move, w': World) {
    match move
    case Get(key, now, current) => w' == World(Got(s, key, now, current), Resting)
    case TakePrevious(key) =>
      w' == World(if key in s.entries && s.entries[key].image.Some?
                  then s.(held := s.held + multiset{s.entries[key].image.value}) else s, Resting)
    case Give(i) => i in s.held && w' == World(s.(others := s.others + multiset{i}), Resting)
    case Drop(i) => i in s.held && w' == World(Settle(s.(held := s.held - multiset{i})), Resting)
    case ReturnLease => s.leases > 0 && w' == World(s.(leases := s.leases - 1, used := s.used - ICON_BYTES), Resting)
    case Reserve => w' == World(s, Fetching)
    case Insert(key, previous, load, expires) =>
      var (adopted, image) := Adopt(s, previous, load);
      && CanInsert(s, previous, load)
      && w' == World(adopted, Storing(key, NewEntry(s, image, previous, load, expires), SpareOf(s, previous, load)))
    case _ => false
  }

  ghost predicate WorkerStep(w: World, move: Move, w': World) {
    var s := w.s;
    match w.pc
    case Resting => RestingStep(s, move, w')
    case Fetching =>
      move == Fetch
      && w' == if s.used + ICON_BYTES <= s.budget
               then World(s.(used := s.used + ICON_BYTES, leases := s.leases + 1), Resting)
               else World(s, Scanning(s.entries.Keys, None))
    case Scanning(left, best) =>
      if left != {} then
        move.Read? && move.k in left && w' == World(s, Scanning(left - {move.k}, Better(s, move.k, best)))
      else move == Choose && w' == World(s, if best.Some? then Removing(best.value) else Resting)
    case Removing(k) => move == Remove && w' == World(Without(s, k), Fetching)
    case Storing(key, entry, spare) =>
      if HasRoom(s, key) then move == Fill && w' == World(Settle(Filled(s, key, entry)), Finishing(spare))
      else move.MakeRoom? && Oldest(s, false, move.k) && w' == World(Without(s, move.k), w.pc)
    case Finishing(spare) => move == Finish && w' == World(WithoutSpare(s, spare), Resting)
  }

  ghost predicate Step(w: World, move: Move, w': World) {
    if IsElsewhere(move) then CanElsewhere(w.s, move) && w' == World(Elsewhere(w.s, move), w.pc)
    else WorkerStep(w, move, w')
  }

  ghost predicate IsRun(limit: nat, budget: int, run: seq<World>, moves: seq<Move>) {
    && limit >= 1 && budget >= 0 && |run| == |moves| + 1 && run[0] == New(limit, budget)
    && forall i :: 0 <= i < |moves| ==> Step(run[i], moves[i], run[i + 1])
  }

  // ---- The invariant -----------------------------------------------------

  /** What the worker is about to use is still there. */
  ghost predicate PcInv(s: Store, pc: Pc) {
    match pc
    case Scanning(left, best) => left <= s.entries.Keys && (best.Some? ==> best.value in s.entries.Keys - left)
    case Removing(k) => k in s.entries
    case Storing(key, entry, spare) =>
      entry.used == s.clock + 1 && (entry.image.Some? ==> entry.image.value in s.held) && HasSpare(s, spare)
    case Finishing(spare) => HasSpare(s, spare)
    case _ => true
  }

  ghost predicate WorldInv(w: World) {
    Inv(w.s) && PcInv(w.s, w.pc)
  }

  lemma TouchedStamps(entries: map<nat, Entry>, key: nat, clock: nat)
    requires Stamped(entries, clock) && key in entries
    ensures Stamped(entries[key := entries[key].(used := clock + 1)], clock + 1)
  {
  }

  lemma TouchedInCache(entries: map<nat, Entry>, key: nat, used: nat, i: nat)
    requires key in entries
    ensures InCache(entries[key := entries[key].(used := used)], i) <==> InCache(entries, i)
  {
    var touched := entries[key := entries[key].(used := used)];
    if k :| k in entries && entries[k].image == Some(i) {
      assert touched[k].image == Some(i);
    }
    if k :| k in touched && touched[k].image == Some(i) {
      assert entries[k].image == Some(i);
    }
  }

  lemma TouchedAreTheHeld(
      live: set<nat>, entries: map<nat, Entry>, held: multiset<nat>, others: multiset<nat>, key: nat, used: nat)
    requires AreTheHeld(live, entries, held, others) && key in entries
    ensures AreTheHeld(live, entries[key := entries[key].(used := used)], held, others)
  {
    forall i: nat
      ensures i in live <==> Referenced(entries[key := entries[key].(used := used)], held, others, i)
    {
      TouchedInCache(entries, key, used, i);
      assert i in live <==> Referenced(entries, held, others, i);
    }
  }

  lemma TouchingKeepsInv(s: Store, key: nat)
    requires Inv(s) && key in s.entries
    ensures Inv(s.(entries := s.entries[key := s.entries[key].(used := s.clock + 1)], clock := s.clock + 1))
  {
    EntrySizes(s.entries, key, s.entries[key].(used := s.clock + 1));
    TouchedStamps(s.entries, key, s.clock);
    TouchedAreTheHeld(s.live, s.entries, s.held, s.others, key, s.clock + 1);
  }

  lemma CachedLives(live: set<nat>, entries: map<nat, Entry>, held: multiset<nat>, others: multiset<nat>, key: nat)
    requires AreTheHeld(live, entries, held, others) && key in entries && entries[key].image.Some?
    ensures entries[key].image.value in live
  {
    assert InCache(entries, entries[key].image.value);
    assert Referenced(entries, held, others, entries[key].image.value);
  }

  lemma LaterKeepsStamps(entries: map<nat, Entry>, clock: nat)
    requires Stamped(entries, clock)
    ensures Stamped(entries, clock + 1)
  {
  }

  lemma GettingKeepsInv(s: Store, key: nat, now: int, current: bool)
    requires Inv(s)
    ensures Inv(Got(s, key, now, current))
  {
    if key in s.entries {
      TouchingKeepsInv(s, key);
      CachedAndHeld(s, key, now, current);
    } else {
      LaterKeepsStamps(s.entries, s.clock);
    }
  }

  lemma CachedAndHeld(s: Store, key: nat, now: int, current: bool)
    requires Inv(s) && key in s.entries
    requires Inv(s.(entries := s.entries[key := s.entries[key].(used := s.clock + 1)], clock := s.clock + 1))
    ensures Inv(Got(s, key, now, current))
  {
    var e := s.entries[key];
    if e.expires > now && current && e.image.Some? {
      CachedLives(s.live, s.entries, s.held, s.others, key);
      HoldingKeepsInv(s.(entries := s.entries[key := e.(used := s.clock + 1)], clock := s.clock + 1),
                      e.image.value, Got(s, key, now, current));
    }
  }

  lemma HoldingKeepsInv(s: Store, i: nat, s': Store)
    requires Inv(s) && i in s.live
    requires s' == s.(held := s.held + multiset{i}) || s' == s.(others := s.others + multiset{i})
    ensures Inv(s')
  {
    HoldingOneMore(s.live, s.entries, s.held, s.others, i);
    assert s.live + {i} == s.live;
  }

  lemma TakingKeepsInv(s: Store, key: nat)
    requires Inv(s) && key in s.entries && s.entries[key].image.Some?
    ensures Inv(s.(held := s.held + multiset{s.entries[key].image.value}))
  {
    CachedLives(s.live, s.entries, s.held, s.others, key);
    HoldingKeepsInv(s, s.entries[key].image.value, s.(held := s.held + multiset{s.entries[key].image.value}));
  }

  /** Other threads touch neither the entries nor what the worker holds, and raise no bytes. */
  lemma ElsewhereKeepsInv(s: Store, move: Move)
    requires Inv(s) && CanElsewhere(s, move)
    ensures Inv(Elsewhere(s, move)) && Elsewhere(s, move).used <= s.used
    ensures var s' := Elsewhere(s, move);
      s' == s.(others := s'.others, live := s'.live, used := s'.used)
  {
    match move {
      case Hold(i) =>
        assert Referenced(s.entries, s.held, s.others, i);
        HoldingKeepsInv(s, i, Elsewhere(s, move));
      case Upgrade(i) => HoldingKeepsInv(s, i, Elsewhere(s, move));
      case Release(i) => ReleasingKeepsInv(s, s.held, s.others - multiset{i});
      case _ =>
    }
  }

  lemma RestingKeepsInv(s: Store, move: Move, w': World)
    requires Inv(s) && RestingStep(s, move, w')
    ensures WorldInv(w') && w'.s.budget == s.budget && w'.s.limit == s.limit
  {
    match move {
      case Get(key, now, current) => GettingKeepsInv(s, key, now, current);
      case TakePrevious(key) =>
        if key in s.entries && s.entries[key].image.Some? {
          TakingKeepsInv(s, key);
        }
      case Give(i) =>
        assert Referenced(s.entries, s.held, s.others, i);
        HoldingKeepsInv(s, i, w'.s);
      case Drop(i) => ReleasingKeepsInv(s, s.held - multiset{i}, s.others);
      case ReturnLease => ReturningKeepsInv(s);
      case Insert(key, previous, load, expires) => AdoptKeepsInv(s, previous, load);
      case _ =>
    }
  }

  lemma FillKeepsInv(s: Store, key: nat, entry: Entry, spare: Spare)
    requires Inv(s) && HasRoom(s, key) && PcInv(s, Storing(key, entry, spare))
    ensures WorldInv(World(Settle(Filled(s, key, entry)), Finishing(spare)))
  {
    FillIsSound(s, key, entry);
    SettleKeepsInv(Filled(s, key, entry));
  }

  lemma WorkerKeepsInv(w: World, move: Move, w': World)
    requires WorldInv(w) && WorkerStep(w, move, w')
    ensures WorldInv(w') && w'.s.budget == w.s.budget && w'.s.limit == w.s.limit
  {
    match w.pc {
      case Resting => RestingKeepsInv(w.s, move, w');
      case Fetching =>
        if w.s.used + ICON_BYTES <= w.s.budget {
          LeasingKeepsInv(w.s);
        }
      case Scanning(left, best) =>
      case Removing(k) => EvictionKeepsInv(w.s, k);
      case Storing(key, entry, spare) =>
        if HasRoom(w.s, key) {
          FillKeepsInv(w.s, key, entry, spare);
        } else {
          EvictionKeepsInv(w.s, move.k);
        }
      case Finishing(spare) => SpareKeepsInv(w.s, spare);
    }
  }

  lemma StepKeepsInv(w: World, move: Move, w': World)
    requires WorldInv(w) && Step(w, move, w')
    ensures WorldInv(w') && w'.s.budget == w.s.budget && w'.s.limit == w.s.limit
  {
    if IsElsewhere(move) {
      ElsewhereKeepsInv(w.s, move);
    } else {
      WorkerKeepsInv(w, move, w');
    }
  }

  lemma {:induction false} EveryRunKeepsInv(limit: nat, budget: int, run: seq<World>, moves: seq<Move>, n: nat)
    requires IsRun(limit, budget, run, moves) && n < |run|
    ensures WorldInv(run[n]) && run[n].s.budget == budget && run[n].s.limit == limit
  {
    if n > 0 {
      EveryRunKeepsInv(limit, budget, run, moves, n - 1);
      StepKeepsInv(run[n - 1], moves[n - 1], run[n]);
    }
  }

  // ---- Main results ------------------------------------------------------

  /** In every interleaving, at every moment, the budget counts exactly the icons someone holds and the
      leases not yet used, never more than the limit; and the cache has at most its number of entries. */
  lemma BudgetIsExact(limit: nat, budget: int, run: seq<World>, moves: seq<Move>, n: nat)
    requires IsRun(limit, budget, run, moves) && n < |run|
    ensures var s := run[n].s;
      && s.used == ICON_BYTES * (|s.live| + s.leases) <= budget && |s.entries| <= limit
      && forall i :: i in s.live <==> i in s.held || i in s.others || InCache(s.entries, i)
  {
    EveryRunKeepsInv(limit, budget, run, moves, n);
    var s := run[n].s;
    forall i: nat
      ensures i in s.live <==> i in s.held || i in s.others || InCache(s.entries, i)
    {
      assert i in s.live <==> Referenced(s.entries, s.held, s.others, i);
    }
  }

  // ---- Insertions --------------------------------------------------------

  /** The entry used longest ago. */
  ghost predicate IsOldest(entries: map<nat, Entry>, k: nat) {
    k in entries && forall m :: m in entries && m != k ==> entries[k].used < entries[m].used
  }

  /** The entries with room for the key: one is gone if the cache was full and the key is new. */
  ghost predicate HaveRoom(entries: map<nat, Entry>, limit: nat, key: nat, roomy: map<nat, Entry>) {
    if |entries| >= limit && key !in entries then exists k :: IsOldest(entries, k) && roomy == entries - {k}
    else roomy == entries
  }

  /** An insertion begun at move `a` has not got beyond storing at state `b`. */
  ghost predicate Inserting(run: seq<World>, moves: seq<Move>, a: nat, b: nat) {
    && a < b < |run| && |run| == |moves| + 1 && moves[a].Insert?
    && forall j :: a < j <= b ==> run[j].pc.Storing?
  }

  /** It still has what it began with, and has evicted nothing or just the oldest entry. */
  lemma {:induction false} InsertionGoesOn(limit: nat, budget: int, run: seq<World>, moves: seq<Move>, a: nat, b: nat)
    requires IsRun(limit, budget, run, moves) && Inserting(run, moves, a, b)
    ensures var Insert(key, previous, load, expires) := moves[a];
      && run[b].pc == Storing(key, NewEntry(run[a].s, Adopt(run[a].s, previous, load).1, previous, load, expires),
                              SpareOf(run[a].s, previous, load))
      && (run[b].s.entries == run[a].s.entries || HaveRoom(run[a].s.entries, limit, key, run[b].s.entries))
  {
    if a + 1 < b {
      InsertionGoesOn(limit, budget, run, moves, a, b - 1);
      EveryRunKeepsInv(limit, budget, run, moves, a);
      EveryRunKeepsInv(limit, budget, run, moves, b - 1);
      StoringGoesOn(run[b - 1], moves[b - 1], run[b], run[a].s.entries, limit);
    } else {
      InsertionBegins(run[a], moves[a], run[b]);
    }
  }

  lemma InsertionBegins(w: World, move: Move, w': World)
    requires Step(w, move, w') && move.Insert?
    ensures w'.s.entries == w.s.entries
    ensures var Insert(key, previous, load, expires) := move;
      && CanInsert(w.s, previous, load)
      && w'.pc == Storing(key, NewEntry(w.s, Adopt(w.s, previous, load).1, previous, load, expires), SpareOf(w.s, previous, load))
  {
  }

  lemma StoringGoesOn(w: World, move: Move, w': World, entries: map<nat, Entry>, limit: nat)
    requires WorldInv(w) && Step(w, move, w') && w.pc.Storing? && w'.pc.Storing? && w.s.limit == limit >= |entries|
    requires w.s.entries == entries || HaveRoom(entries, limit, w.pc.key, w.s.entries)
    ensures w'.pc == w.pc
    ensures w'.s.entries == entries || HaveRoom(entries, limit, w.pc.key, w'.s.entries)
  {
    if IsElsewhere(move) {
      ElsewhereKeepsInv(w.s, move);
    } else {
      assert forall m :: Candidate(w.s, false, m) <==> m in w.s.entries;
      assert IsOldest(w.s.entries, move.k) && w'.s.entries == w.s.entries - {move.k};
      if w.s.entries != entries {
        RoomIsEnough(entries, limit, w.pc.key, w.s.entries);
      }
    }
  }

  lemma RoomIsEnough(entries: map<nat, Entry>, limit: nat, key: nat, roomy: map<nat, Entry>)
    requires HaveRoom(entries, limit, key, roomy) && |entries| <= limit
    ensures |roomy| < limit || key in roomy
  {
    if |entries| >= limit && key !in entries {
      var k :| IsOldest(entries, k) && roomy == entries - {k};
      RemovalShrinks(entries, k);
    }
  }

  /** In every interleaving, the entry that an insertion stores is determined where it begins, whatever other
      threads do meanwhile; and it makes room if it must, and no more. */
  lemma InsertionStores(limit: nat, budget: int, run: seq<World>, moves: seq<Move>, a: nat, b: nat)
    requires IsRun(limit, budget, run, moves) && Inserting(run, moves, a, b) && b < |moves| && moves[b].Fill?
    ensures var Insert(key, previous, load, expires) := moves[a];
      exists roomy :: HaveRoom(run[a].s.entries, limit, key, roomy)
        && run[b + 1].s.entries
           == roomy[key := NewEntry(run[a].s, Adopt(run[a].s, previous, load).1, previous, load, expires)]
  {
    InsertionGoesOn(limit, budget, run, moves, a, b);
    EveryRunKeepsInv(limit, budget, run, moves, a);
    EveryRunKeepsInv(limit, budget, run, moves, b);
    assert Step(run[b], moves[b], run[b + 1]);
    assert HaveRoom(run[a].s.entries, limit, moves[a].key, run[b].s.entries);
  }

  lemma StoredImageLives(limit: nat, budget: int, run: seq<World>, moves: seq<Move>, n: nat, key: nat)
    requires IsRun(limit, budget, run, moves) && n < |run| && key in run[n].s.entries
    requires run[n].s.entries[key].image.Some?
    ensures run[n].s.entries[key].image.value in run[n].s.live
  {
    EveryRunKeepsInv(limit, budget, run, moves, n);
    CachedLives(run[n].s.live, run[n].s.entries, run[n].s.held, run[n].s.others, key);
  }

  /** A load that fails, or that only yields a fallback, never displaces an icon that was loaded. */
  lemma FailedLoadKeepsIcon(limit: nat, budget: int, run: seq<World>, moves: seq<Move>, a: nat, b: nat)
    requires IsRun(limit, budget, run, moves) && Inserting(run, moves, a, b) && b < |moves| && moves[b].Fill?
    requires moves[a].previous.Some? && moves[a].previous.value.successful && !Loaded(moves[a].load)
    ensures var Insert(key, previous, load, expires) := moves[a];
      && key in run[b + 1].s.entries && run[b + 1].s.entries[key].image == Some(previous.value.image)
      && run[b + 1].s.entries[key].successful && previous.value.image in run[b + 1].s.live
  {
    InsertionStores(limit, budget, run, moves, a, b);
    StoredImageLives(limit, budget, run, moves, b + 1, moves[a].key);
  }

  /** A refresh that reads the same pixels keeps the icon, and so its revision; one that reads
      others makes a new icon, different from every icon there is. */
  lemma RefreshKeepsOrRenews(limit: nat, budget: int, run: seq<World>, moves: seq<Move>, a: nat, b: nat)
    requires IsRun(limit, budget, run, moves) && Inserting(run, moves, a, b) && b < |moves| && moves[b].Fill?
    requires moves[a].previous.Some? && Loaded(moves[a].load)
    ensures var Insert(key, previous, load, expires) := moves[a];
      && previous.value.image in run[a].s.pixels && run[a].s.next !in run[a].s.live
      && key in run[b + 1].s.entries && run[b + 1].s.entries[key].successful
      && run[b + 1].s.entries[key].image
         == Some(if run[a].s.pixels[previous.value.image] == load.pixels.value then previous.value.image else run[a].s.next)
  {
    InsertionStores(limit, budget, run, moves, a, b);
    EveryRunKeepsInv(limit, budget, run, moves, a);
    InsertionBegins(run[a], moves[a], run[a + 1]);
    assert Referenced(run[a].s.entries, run[a].s.held, run[a].s.others, moves[a].previous.value.image);
  }

  /** When an entry must go, it is the one used longest ago, and the only one. */
  lemma InsertionEvictsTheOldest(limit: nat, budget: int, run: seq<World>, moves: seq<Move>, a: nat, b: nat, k: nat)
    requires IsRun(limit, budget, run, moves) && Inserting(run, moves, a, b) && b < |moves| && moves[b].Fill?
    requires k in run[a].s.entries && k !in run[b + 1].s.entries
    ensures moves[a].key !in run[a].s.entries && |run[a].s.entries| == limit && IsOldest(run[a].s.entries, k)
    ensures forall m :: m in run[a].s.entries && m != k ==> m in run[b + 1].s.entries
  {
    InsertionStores(limit, budget, run, moves, a, b);
    EveryRunKeepsInv(limit, budget, run, moves, a);
  }
}
