/**
 The latest-request mailbox between the UI and a worker (src/worker.rs, src/worker/request.rs).

 The UI requests, cancels, takes results and closes; the worker receives requests and
 publishes results. They interleave one shared access at a time: each load, swap and store
 is a step of its own, and so is every element the worker looks at while it holds the lock.
 `published` and `delivered` record what has been put in and given out; nothing reads them.
 */
module Mailbox {
  import opened Wrappers

  const U64_MAX: nat := 0xFFFF_FFFF_FFFF_FFFF

  datatype Entry = Entry(generation: nat, item: nat)

  /** The UI between two accesses of `request`, `cancel` or `close`. */
  datatype UiPc = Idle | ClearFor(g: nat) | PutFor(g: nat) | CancelAdvance | CancelSlot | CancelClear

  /** The worker: resting, checking a request it took, working on one, or inside `publish`. */
  datatype WorkerPc =
    | Resting
    | Took(g: nat) | TookOpen(g: nat)
    | Working(g: nat)
    | Asking(g: nat, item: nat) | AskingOpen(g: nat, item: nat)
    | Locking(g: nat, item: nat)
    | Retaining(g: nat, item: nat, kept: nat) | RetainingOpen(g: nat, item: nat, kept: nat)
    | Last(g: nat, item: nat) | LastOpen(g: nat, item: nat)
    | Pushing(g: nat, item: nat)

  datatype World = World(
    generation: nat, closed: bool, slot: Option<nat>, results: seq<Entry>, limit: nat,
    ui: UiPc, worker: WorkerPc, published: seq<Entry>, delivered: seq<Entry>)

  predicate HoldsLock(pc: WorkerPc) {
    pc.Retaining? || pc.RetainingOpen? || pc.Last? || pc.LastOpen? || pc.Pushing?
  }

  predicate Current(w: World, g: nat) {
    !w.closed && w.generation == g
  }

  /** The entries of one generation, in order. */
  function Of(entries: seq<Entry>, g: nat): seq<Entry> {
    if entries == [] then []
    else Of(entries[..|entries| - 1], g)
         + if entries[|entries| - 1].generation == g then [entries[|entries| - 1]] else []
  }

  function Removed(entries: seq<Entry>, at: nat): seq<Entry>
    requires at < |entries|
  {
    entries[..at] + entries[at + 1..]
  }

  datatype Move =
    | UiRequest | UiClear | UiPut | UiCancel | UiAdvance | UiSlot | UiCancelClear | UiTake | UiClose
    | WorkerTake | WorkerStep | WorkerPublish(item: nat) | WorkerRest

  // ---- The UI's steps ----------------------------------------------------

  /** `advance`: the next generation, or closed for good when there is none. */
  function Advanced(w: World): World {
    if w.generation < U64_MAX then w.(generation := w.generation + 1) else w.(closed := true)
  }

  /** Clears the results, unless the worker holds the lock. */
  function Cleared(w: World): World {
    if HoldsLock(w.worker) then w else w.(results := [])
  }

  predicate UiStep(w: World, move: Move, w': World) {
    match move
    case UiRequest => w.ui.Idle? && w' == Advanced(w).(ui := ClearFor(Advanced(w).generation))
    case UiClear => w.ui.ClearFor? && w' == Cleared(w).(ui := PutFor(w.ui.g))
    case UiPut => w.ui.PutFor? && w' == w.(slot := if w.closed then w.slot else Some(w.ui.g), ui := Idle)
    case UiCancel => w.ui.Idle? && w' == w.(ui := CancelAdvance)
    case UiAdvance => w.ui.CancelAdvance? && w' == Advanced(w).(ui := CancelSlot)
    case UiSlot => w.ui.CancelSlot? && w' == w.(slot := None, ui := CancelClear)
    case UiCancelClear => w.ui.CancelClear? && w' == Cleared(w).(ui := Idle)
    case UiTake =>
      w.ui.Idle?
      && if HoldsLock(w.worker) then w' == w
         else w' == w.(results := [],
                       delivered := w.delivered + if w.closed then [] else Of(w.results, w.generation))
    case UiClose => w.ui.Idle? && w' == w.(closed := true, ui := CancelAdvance)
    case _ => false
  }

  // ---- The worker's steps ------------------------------------------------

  /** The next access of `receive` or `publish`. */
  predicate WorkerNext(w: World, w': World) {
    match w.worker
    case Took(g) => w' == w.(worker := if w.closed then Resting else TookOpen(g))
    case TookOpen(g) => w' == w.(worker := if w.generation == g then Working(g) else Resting)
    case Asking(g, item) => w' == w.(worker := if w.closed then Working(g) else AskingOpen(g, item))
    case AskingOpen(g, item) => w' == w.(worker := if w.generation == g then Locking(g, item) else Working(g))
    case Locking(g, item) => w' == w.(worker := Retaining(g, item, 0))
    case Retaining(g, item, kept) =>
      if kept >= |w.results| then w' == w.(worker := Last(g, item))
      else if w.closed then w' == w.(results := Removed(w.results, kept))
      else w' == w.(worker := RetainingOpen(g, item, kept))
    case RetainingOpen(g, item, kept) =>
      kept < |w.results|
      && if w.results[kept].generation == w.generation then w' == w.(worker := Retaining(g, item, kept + 1))
         else w' == w.(results := Removed(w.results, kept), worker := Retaining(g, item, kept))
    case Last(g, item) => w' == w.(worker := if w.closed then Working(g) else LastOpen(g, item))
    case LastOpen(g, item) => w' == w.(worker := if w.generation == g then Pushing(g, item) else Working(g))
    case Pushing(g, item) =>
      if |w.results| < w.limit
      then w' == w.(results := w.results + [Entry(g, item)], published := w.published + [Entry(g, item)],
                    worker := Working(g))
      else w' == w.(worker := Asking(g, item))
    case _ => false
  }

  predicate WorkerStepOf(w: World, move: Move, w': World) {
    match move
    case WorkerTake =>
      w.worker.Resting?
      && w' == if w.slot.None? then w else w.(slot := None, worker := Took(w.slot.value))
    case WorkerPublish(item) => w.worker.Working? && w' == w.(worker := Asking(w.worker.g, item))
    case WorkerRest => w.worker.Working? && w' == w.(worker := Resting)
    case WorkerStep => WorkerNext(w, w')
    case _ => false
  }

  predicate Step(w: World, move: Move, w': World) {
    UiStep(w, move, w') || WorkerStepOf(w, move, w')
  }

  function New(limit: nat): World {
    World(0, false, None, [], limit, Idle, Resting, [], [])
  }

  ghost predicate IsRun(limit: nat, run: seq<World>, moves: seq<Move>) {
    && limit > 0 && |run| == |moves| + 1 && run[0] == New(limit)
    && forall i :: 0 <= i < |moves| ==> Step(run[i], moves[i], run[i + 1])
  }

  // ---- Filtering ---------------------------------------------------------

  lemma {:induction false} OfAppend(xs: seq<Entry>, ys: seq<Entry>, g: nat)
    ensures Of(xs + ys, g) == Of(xs, g) + Of(ys, g)
    decreases |ys|
  {
    if ys == [] {
      assert xs + ys == xs;
    } else {
      assert (xs + ys)[..|xs + ys| - 1] == xs + ys[..|ys| - 1];
      OfAppend(xs, ys[..|ys| - 1], g);
    }
  }

  lemma OfOne(e: Entry, g: nat)
    ensures Of([e], g) == if e.generation == g then [e] else []
  {
    assert [e][..0] == [];
  }

  lemma OfRemoved(entries: seq<Entry>, at: nat, g: nat)
    requires at < |entries| && entries[at].generation != g
    ensures Of(Removed(entries, at), g) == Of(entries, g)
  {
    assert entries == entries[..at] + [entries[at]] + entries[at + 1..];
    OfAppend(entries[..at], [entries[at]], g);
    OfAppend(entries[..at] + [entries[at]], entries[at + 1..], g);
    OfAppend(entries[..at], entries[at + 1..], g);
    OfOne(entries[at], g);
  }

  lemma {:induction false} OfNone(entries: seq<Entry>, g: nat)
    requires forall i :: 0 <= i < |entries| ==> entries[i].generation != g
    ensures Of(entries, g) == []
    decreases |entries|
  {
    if entries != [] {
      OfNone(entries[..|entries| - 1], g);
    }
  }

  lemma {:induction false} OfOf(entries: seq<Entry>, g: nat)
    ensures Of(Of(entries, g), g) == Of(entries, g)
    ensures forall i :: 0 <= i < |Of(entries, g)| ==> Of(entries, g)[i].generation == g
    decreases |entries|
  {
    if entries != [] {
      var init, last := entries[..|entries| - 1], entries[|entries| - 1];
      OfOf(init, g);
      OfAppend(Of(init, g), if last.generation == g then [last] else [], g);
      OfOne(last, g);
    }
  }

  // ---- The invariant -----------------------------------------------------

  ghost predicate AtMost(entries: seq<Entry>, g: nat) {
    forall i :: 0 <= i < |entries| ==> entries[i].generation <= g
  }

  ghost predicate Below(entries: seq<Entry>, g: nat) {
    forall i :: 0 <= i < |entries| ==> entries[i].generation < g
  }

  /** The generation the worker has in hand. */
  function Held(pc: WorkerPc): Option<nat> {
    if pc.Resting? then None else Some(pc.g)
  }

  ghost predicate Bounded(w: World) {
    && AtMost(w.results, w.generation) && AtMost(w.published, w.generation) && AtMost(w.delivered, w.generation)
    && (w.slot.Some? ==> w.slot.value <= w.generation) && (Held(w.worker).Some? ==> Held(w.worker).value <= w.generation)
    && |w.results| <= w.limit
  }

  /** Between advancing and putting the request, nobody knows the new generation yet. */
  ghost predicate Unknown(w: World) {
    !w.closed && (w.ui.ClearFor? || w.ui.PutFor? || w.ui.CancelSlot? || w.ui.CancelClear?) ==>
      && Below(w.results, w.generation) && Below(w.published, w.generation) && Below(w.delivered, w.generation)
      && (w.slot.Some? ==> w.slot.value < w.generation)
      && (Held(w.worker).Some? ==> Held(w.worker).value < w.generation)
      && (w.ui.ClearFor? || w.ui.PutFor? ==> w.ui.g == w.generation)
  }

  /** What the worker has kept while it holds the lock is no older than its own generation. */
  ghost predicate Kept(w: World) {
    match w.worker
    case Retaining(g, _, kept) =>
      kept <= |w.results| && forall i :: 0 <= i < kept ==> g <= w.results[i].generation
    case RetainingOpen(g, _, kept) =>
      kept < |w.results| && forall i :: 0 <= i < kept ==> g <= w.results[i].generation
    case Last(g, _) => forall i :: 0 <= i < |w.results| ==> g <= w.results[i].generation
    case LastOpen(g, _) => forall i :: 0 <= i < |w.results| ==> g <= w.results[i].generation
    case Pushing(g, _) => forall i :: 0 <= i < |w.results| ==> w.results[i].generation == g
    case _ => true
  }

  /** Of the current generation, what was published is what was delivered and what still waits. */
  ghost predicate Conserved(w: World) {
    !w.closed ==>
      Of(w.published, w.generation) == Of(w.delivered, w.generation) + Of(w.results, w.generation)
  }

  ghost predicate Inv(w: World) {
    Bounded(w) && Unknown(w) && Kept(w) && Conserved(w)
  }

  lemma NothingOfTheNew(w: World, g: nat)
    requires Below(w.published, g) && Below(w.delivered, g) && Below(w.results, g)
    ensures Of(w.published, g) == Of(w.delivered, g) == Of(w.results, g) == []
  {
    OfNone(w.published, g);
    OfNone(w.delivered, g);
    OfNone(w.results, g);
  }

  lemma AdvancingKeepsInv(w: World, w': World, pc: UiPc)
    requires Inv(w) && w' == Advanced(w).(ui := pc)
    requires pc.ClearFor? || pc.CancelSlot?
    requires pc.ClearFor? ==> pc.g == Advanced(w).generation
    ensures Inv(w')
  {
    if w.generation < U64_MAX {
      NothingOfTheNew(w, w.generation + 1);
    }
  }

  lemma ClearingKeepsInv(w: World, w': World, pc: UiPc)
    requires Inv(w) && w' == Cleared(w).(ui := pc)
    requires (w.ui.ClearFor? && pc == PutFor(w.ui.g)) || (w.ui.CancelClear? && pc.Idle?)
    ensures Inv(w')
  {
    if !w.closed {
      OfNone(w.results, w.generation);
    }
  }

  lemma TakingKeepsInv(w: World, w': World)
    requires Inv(w) && UiStep(w, UiTake, w')
    ensures Inv(w')
  {
    if !HoldsLock(w.worker) && !w.closed {
      OfOf(w.results, w.generation);
      OfAppend(w.delivered, Of(w.results, w.generation), w.generation);
      assert Of([], w.generation) == [];
    }
  }

  lemma UiKeepsInv(w: World, move: Move, w': World)
    requires Inv(w) && UiStep(w, move, w')
    ensures Inv(w')
  {
    match move
    case UiRequest => AdvancingKeepsInv(w, w', ClearFor(Advanced(w).generation));
    case UiClear => ClearingKeepsInv(w, w', PutFor(w.ui.g));
    case UiAdvance => AdvancingKeepsInv(w, w', CancelSlot);
    case UiCancelClear => ClearingKeepsInv(w, w', Idle);
    case UiTake => TakingKeepsInv(w, w');
    case _ =>
  }

  lemma RemovingKeepsInv(w: World, w': World, at: nat)
    requires Inv(w) && at < |w.results| && (w.closed || w.results[at].generation != w.generation)
    requires (w.worker.Retaining? || w.worker.RetainingOpen?) && w.worker.kept == at
    requires w' == w.(results := Removed(w.results, at), worker := Retaining(w.worker.g, w.worker.item, at))
    ensures Inv(w')
  {
    if !w.closed {
      OfRemoved(w.results, at, w.generation);
    }
  }

  lemma OfPushed(entries: seq<Entry>, e: Entry, g: nat)
    ensures Of(entries + [e], g) == Of(entries, g) + if e.generation == g then [e] else []
  {
    assert (entries + [e])[..|entries|] == entries;
  }

  lemma PushedLast(delivered: seq<Entry>, waiting: seq<Entry>, pushed: seq<Entry>)
    ensures delivered + waiting + pushed == delivered + (waiting + pushed)
  {
  }

  lemma PushedConserves(published: seq<Entry>, delivered: seq<Entry>, results: seq<Entry>, e: Entry, g: nat)
    requires Of(published, g) == Of(delivered, g) + Of(results, g)
    ensures Of(published + [e], g) == Of(delivered, g) + Of(results + [e], g)
  {
    OfPushed(published, e, g);
    OfPushed(results, e, g);
    PushedLast(Of(delivered, g), Of(results, g), if e.generation == g then [e] else []);
  }

  lemma PushingKeepsInv(w: World, w': World)
    requires Inv(w) && w.worker.Pushing? && WorkerNext(w, w')
    ensures Inv(w')
  {
    if |w.results| < w.limit && !w.closed {
      PushedConserves(w.published, w.delivered, w.results, Entry(w.worker.g, w.worker.item), w.generation);
    }
  }

  /** Steps of the worker that change nothing but where it is. */
  lemma MovingOnKeepsInv(w: World, w': World)
    requires Inv(w) && WorkerNext(w, w') && w' == w.(worker := w'.worker) && !w.worker.Pushing?
    ensures Inv(w')
  {
    assert Held(w'.worker).Some? ==> Held(w'.worker) == Held(w.worker);
    assert Conserved(w') && Unknown(w');
  }

  /** The worker drops the result it is looking at. */
  predicate Drops(w: World) {
    || (w.worker.Retaining? && w.worker.kept < |w.results| && w.closed)
    || (w.worker.RetainingOpen? && w.worker.kept < |w.results|
        && w.results[w.worker.kept].generation != w.generation)
  }

  lemma WorkerKeepsInv(w: World, move: Move, w': World)
    requires Inv(w) && WorkerStepOf(w, move, w')
    ensures Inv(w')
  {
    if move.WorkerStep? {
      if w.worker.Pushing? {
        PushingKeepsInv(w, w');
      } else if Drops(w) {
        RemovingKeepsInv(w, w', w.worker.kept);
      } else {
        MovingOnKeepsInv(w, w');
      }
    }
  }

  lemma {:induction false} EveryRunKeepsInv(limit: nat, run: seq<World>, moves: seq<Move>, n: nat)
    requires IsRun(limit, run, moves) && n < |run|
    ensures Inv(run[n]) && run[n].limit == limit
  {
    if n > 0 {
      EveryRunKeepsInv(limit, run, moves, n - 1);
      if UiStep(run[n - 1], moves[n - 1], run[n]) {
        UiKeepsInv(run[n - 1], moves[n - 1], run[n]);
      } else {
        WorkerKeepsInv(run[n - 1], moves[n - 1], run[n]);
      }
    }
  }

  // ---- Main results ------------------------------------------------------

  /** `take` gives out results of the generation that is current when it begins, and after `close`
      nothing at all. It is one move here: it holds the lock, so the queue stands still, and what else
      it reads, the generation and whether the mailbox is closed, only the UI changes, which is in it. */
  lemma TakeIsCurrent(limit: nat, run: seq<World>, moves: seq<Move>, n: nat)
    requires IsRun(limit, run, moves) && n < |moves| && UiStep(run[n], UiTake, run[n + 1]) && moves[n].UiTake?
    ensures run[n].delivered <= run[n + 1].delivered
    ensures var given := run[n + 1].delivered[|run[n].delivered|..];
      forall e :: e in given ==> Current(run[n], e.generation) && e in run[n].results
  {
    OfOf(run[n].results, run[n].generation);
    OfIsFrom(run[n].results, run[n].generation);
  }

  lemma {:induction false} OfIsFrom(entries: seq<Entry>, g: nat)
    ensures forall e :: e in Of(entries, g) ==> e in entries
    decreases |entries|
  {
    if entries != [] {
      OfIsFrom(entries[..|entries| - 1], g);
    }
  }

  /** While a generation stays current, what has been published of it is what has been given out
      followed by what still waits: nothing is lost, repeated or reordered. */
  lemma NothingCurrentIsLost(limit: nat, run: seq<World>, moves: seq<Move>, n: nat)
    requires IsRun(limit, run, moves) && n < |run| && !run[n].closed
    ensures var w := run[n];
      Of(w.published, w.generation) == Of(w.delivered, w.generation) + Of(w.results, w.generation)
  {
    EveryRunKeepsInv(limit, run, moves, n);
  }

  /** And of every generation, current or not, what was given out is a beginning of what was published. */
  lemma {:induction false} DeliveredInOrder(limit: nat, run: seq<World>, moves: seq<Move>, n: nat, g: nat)
    requires IsRun(limit, run, moves) && n < |run|
    ensures Of(run[n].delivered, g) <= Of(run[n].published, g)
  {
    if n > 0 {
      DeliveredInOrder(limit, run, moves, n - 1, g);
      EveryRunKeepsInv(limit, run, moves, n - 1);
      EveryRunKeepsInv(limit, run, moves, n);
      StepKeepsOrder(run[n - 1], moves[n - 1], run[n], g);
    }
  }

  lemma TakingKeepsOrder(w: World, w': World, g: nat)
    requires Inv(w) && Inv(w') && UiStep(w, UiTake, w') && Of(w.delivered, g) <= Of(w.published, g)
    ensures Of(w'.delivered, g) <= Of(w'.published, g)
  {
    if HoldsLock(w.worker) || w.closed {
      assert w'.delivered == w.delivered;
    } else if g != w.generation {
      OfOf(w.results, w.generation);
      OfAppend(w.delivered, Of(w.results, w.generation), g);
      OfNone(Of(w.results, w.generation), g);
    } else {
      assert Conserved(w');
    }
  }

  lemma UiFrame(w: World, move: Move, w': World)
    requires UiStep(w, move, w') && !move.UiTake?
    ensures w'.delivered == w.delivered && w'.published == w.published
  {
  }

  lemma WorkerFrame(w: World, move: Move, w': World)
    requires WorkerStepOf(w, move, w')
    ensures w'.delivered == w.delivered
    ensures w'.published == w.published || exists e :: w'.published == w.published + [e]
  {
    if w'.published != w.published {
      assert w'.published == w.published + [Entry(w.worker.g, w.worker.item)];
    }
  }

  lemma StepKeepsOrder(w: World, move: Move, w': World, g: nat)
    requires Inv(w) && Inv(w') && Step(w, move, w') && Of(w.delivered, g) <= Of(w.published, g)
    ensures Of(w'.delivered, g) <= Of(w'.published, g)
  {
    if UiStep(w, move, w') {
      if move.UiTake? {
        TakingKeepsOrder(w, w', g);
      } else {
        UiFrame(w, move, w');
      }
    } else {
      WorkerFrame(w, move, w');
      if w'.published != w.published {
        var e :| w'.published == w.published + [e];
        OfAppend(w.published, [e], g);
      }
    }
  }

  /** The queue never exceeds its limit. */
  lemma QueueWithinLimit(limit: nat, run: seq<World>, moves: seq<Move>, n: nat)
    requires IsRun(limit, run, moves) && n < |run|
    ensures |run[n].results| <= limit
  {
    EveryRunKeepsInv(limit, run, moves, n);
  }

  /** A producer whose generation was still current when it looked last is refused only because
      the queue is full of its own results: stale ones never block it. */
  lemma StaleResultsNeverBlock(limit: nat, run: seq<World>, moves: seq<Move>, n: nat)
    requires IsRun(limit, run, moves) && n < |run| && run[n].worker.Pushing?
    ensures forall i :: 0 <= i < |run[n].results| ==> run[n].results[i].generation == run[n].worker.g
    ensures |run[n].results| >= limit ==> Of(run[n].results, run[n].worker.g) == run[n].results && |run[n].results| == limit
  {
    EveryRunKeepsInv(limit, run, moves, n);
    OfAll(run[n].results, run[n].worker.g);
  }

  lemma {:induction false} OfAll(entries: seq<Entry>, g: nat)
    requires forall i :: 0 <= i < |entries| ==> entries[i].generation == g
    ensures Of(entries, g) == entries
    decreases |entries|
  {
    if entries != [] {
      OfAll(entries[..|entries| - 1], g);
    }
  }

  /** The UI never waits for the worker: wherever the worker is, a request is made in three steps,
      and the worker, once resting, has it in hand in three of its own. */
  lemma RequestsGetThrough(w: World) returns (w1: World, w2: World, w3: World, w4: World, w5: World, w6: World)
    requires w.ui.Idle? && !w.closed && w.generation < U64_MAX
    ensures UiStep(w, UiRequest, w1) && UiStep(w1, UiClear, w2) && UiStep(w2, UiPut, w3)
    ensures w3.ui.Idle? && w3.slot == Some(w.generation + 1) && w3.generation == w.generation + 1 && w3.worker == w.worker
    ensures w.worker.Resting? ==>
      WorkerStepOf(w3, WorkerTake, w4) && WorkerStepOf(w4, WorkerStep, w5) && WorkerStepOf(w5, WorkerStep, w6)
      && w6.worker == Working(w.generation + 1)
  {
    w1 := Advanced(w).(ui := ClearFor(w.generation + 1));
    w2 := Cleared(w1).(ui := PutFor(w.generation + 1));
    w3 := w2.(slot := Some(w.generation + 1), ui := Idle);
    w4 := w3.(slot := None, worker := Took(w.generation + 1));
    w5 := w4.(worker := TookOpen(w.generation + 1));
    w6 := w5.(worker := Working(w.generation + 1));
  }

  /** What the worker starts on is the newest request there is at that moment. */
  lemma TheNewestIsReceived(limit: nat, run: seq<World>, moves: seq<Move>, n: nat)
    requires IsRun(limit, run, moves) && n < |moves| && run[n + 1].worker.Working? && run[n].worker.TookOpen?
    requires moves[n].WorkerStep?
    ensures run[n + 1].worker.g == run[n].generation && (run[n].slot.Some? ==> run[n].slot.value <= run[n].generation)
  {
    EveryRunKeepsInv(limit, run, moves, n);
  }
}
