/**
 Handing the keyboard from one process to another (src/keyboard/activation.rs,
 src/keyboard.rs, src/app/lifecycle.rs, src/utils/single_instance.rs).

 Any number of processes share one single-instance lock. Each has a UI thread that
 runs the lifecycle phases and requests activation generations, and a hook thread
 that acknowledges them between callbacks. The threads of all processes interleave
 one access at a time; which lifecycle messages arrive, and when, is arbitrary, and
 any process may die at any time.
 */
module Handover {
  import opened Wrappers

  // ---- The activation handshake ------------------------------------------

  predicate Odd(n: nat) { n % 2 == 1 }

  /** The generation to request: the same one if it already asks for `active`, else the next. */
  function Requested(previous: nat, active: bool): nat {
    if Odd(previous) == active then previous
    else (previous / 2 + 1) * 2 + if active then 1 else 0
  }

  /** A change of mind always gets a new, larger generation of the right parity. */
  lemma RequestedIsNewer(previous: nat, active: bool)
    ensures Odd(Requested(previous, active)) == active
    ensures Odd(previous) != active ==> Requested(previous, active) > previous
    ensures Odd(previous) == active ==> Requested(previous, active) == previous
  {
  }

  // ---- Processes and their threads ---------------------------------------

  datatype Phase = Running | Preparing | Prepared | Activating | Active | Committed | Pausing | Suspended | Restoring

  /** The hook thread: waiting for messages, inside a callback that handles a key, or in the
      activation branch, where it loads the requested generation, compares and stores it. */
  datatype HookPc =
    | Waiting
    | InCallback
    | ReadPending(g: nat)
    | Comparing(g: nat, again: nat)
    | Storing(g: nat)

  /** The UI thread between two accesses: about to request activation, or about to release the lock. */
  datatype UiPc = Polling | WillActivate(next: Phase) | WillRelease

  datatype Process = Process(
    requested: nat, applied: nat, hook: HookPc, phase: Phase, ui: UiPc, exiting: bool)

  datatype World = World(procs: map<nat, Process>, lock: Option<nat>)

  /** The request asks for `active` and has been applied. */
  predicate Agrees(p: Process, active: bool) {
    Odd(p.requested) == active && p.applied == p.requested
  }

  datatype Move =
    | StartFirst(id: nat)
    | StartReplacement(id: nat)
    | Die(id: nat)
    | HookKey(id: nat)
    | HookReturn(id: nat)
    | HookActivation(id: nat)
    | UiPrepared(id: nat)
    | UiActivate(id: nat)
    | UiActivateFails(id: nat)
    | UiRequest(id: nat, posted: bool)
    | UiActivated(id: nat)
    | UiCommit(id: nat)
    | UiAccept(id: nat)
    | UiSuspend(id: nat, posted: bool)
    | UiQuiesced(id: nat)
    | UiRelease(id: nat)
    | UiFailed(id: nat)
    | UiRestore(id: nat)
    | UiExit(id: nat)

  const FIRST := Process(1, 1, Waiting, Running, Polling, false)
  const REPLACEMENT := Process(0, 0, Waiting, Preparing, Polling, false)

  /** The lock can be had by a process that already has it, or when nobody does. */
  predicate Available(w: World, id: nat) {
    w.lock.None? || w.lock == Some(id)
  }

  function Put(w: World, id: nat, p: Process): World {
    w.(procs := w.procs[id := p])
  }

  /** One access of the hook thread of process `id`. */
  predicate HookStep(w: World, move: Move, w': World)
    requires move.id in w.procs
  {
    var id, p := move.id, w.procs[move.id];
    match move
    case HookKey(_) =>
      p.hook.Waiting? && (if Odd(p.applied) then w' == Put(w, id, p.(hook := InCallback)) else w' == w)
    case HookReturn(_) => p.hook.InCallback? && w' == Put(w, id, p.(hook := Waiting))
    case HookActivation(_) =>
      (match p.hook
       case Waiting => w' == Put(w, id, p.(hook := ReadPending(p.requested)))
       case ReadPending(g) => w' == Put(w, id, p.(hook := Comparing(g, p.requested)))
       case Comparing(g, again) =>
         if Odd(again) == Odd(g) && p.applied == again then w' == Put(w, id, p.(hook := Waiting))
         else w' == Put(w, id, p.(hook := Storing(g)))
       case Storing(g) => w' == Put(w, id, p.(applied := g, hook := Waiting))
       case InCallback => false)
    case _ => false
  }

  /** One access of the UI thread of process `id`, or a change of phase. */
  predicate UiStep(w: World, move: Move, w': World)
    requires move.id in w.procs
  {
    var id, p := move.id, w.procs[move.id];
    if move.UiRequest? then
      p.ui.WillActivate?
      && w' == Put(w, id, p.(requested := Requested(p.requested, true), ui := Polling,
                             phase := if move.posted then p.ui.next else p.phase))
    else if move.UiRelease? then
      p.ui.WillRelease?
      && w' == Put(w, id, p.(phase := Suspended, ui := Polling)).(lock := if w.lock == Some(id) then None else w.lock)
    else
      p.ui.Polling? &&
      match move
      case UiPrepared(_) => p.phase.Preparing? && w' == Put(w, id, p.(phase := Prepared))
      case UiActivate(_) =>
        p.phase.Prepared? && Available(w, id) && w' == Put(w, id, p.(ui := WillActivate(Activating))).(lock := Some(id))
      case UiActivateFails(_) =>
        p.phase.Prepared? && !Available(w, id)
        && w' == Put(w, id, p.(requested := Requested(p.requested, false), exiting := true))
      case UiActivated(_) => p.phase.Activating? && Agrees(p, true) && w' == Put(w, id, p.(phase := Active))
      case UiCommit(_) => p.phase.Active? && w' == Put(w, id, p.(phase := Committed))
      case UiAccept(_) => p.phase.Committed? && w' == Put(w, id, p.(phase := Running))
      case UiSuspend(_, posted) =>
        !p.exiting
        && w' == Put(w, id, p.(requested := Requested(p.requested, false), phase := if posted then Pausing else p.phase))
      case UiQuiesced(_) =>
        p.phase.Pausing? && Agrees(p, false) && w' == Put(w, id, p.(ui := WillRelease))
      case UiFailed(_) => !p.exiting && w' == Put(w, id, p.(phase := Restoring))
      case UiRestore(_) =>
        p.phase.Restoring? && Available(w, id)
        && w' == Put(w, id, if Agrees(p, true) then p.(phase := Running)
                            else p.(ui := WillActivate(Restoring))).(lock := Some(id))
      case UiExit(_) => w' == Put(w, id, p.(requested := Requested(p.requested, false), exiting := true))
      case _ => false
  }

  predicate Step(w: World, move: Move, w': World) {
    match move
    case StartFirst(id) => w.procs == map[] && w.lock.None? && w' == World(map[id := FIRST], Some(id))
    case StartReplacement(id) => id !in w.procs && w.procs != map[] && w' == Put(w, id, REPLACEMENT)
    case Die(id) => id in w.procs && w' == World(w.procs - {id}, if w.lock == Some(id) then None else w.lock)
    case _ =>
      move.id in w.procs
      && (if move.HookKey? || move.HookReturn? || move.HookActivation? then HookStep(w, move, w')
          else UiStep(w, move, w'))
  }

  /** A run and the moves that made it. */
  predicate IsRun(run: seq<World>, moves: seq<Move>) {
    && |run| == |moves| + 1 && run[0] == World(map[], None)
    && forall i :: 0 <= i < |moves| ==> Step(run[i], moves[i], run[i + 1])
  }

  // ---- The invariant -----------------------------------------------------

  /** The generation the hook thread has read but not yet stored or dropped. */
  function InHand(pc: HookPc): Option<nat> {
    match pc
    case ReadPending(g) => Some(g)
    case Comparing(g, _) => Some(g)
    case Storing(g) => Some(g)
    case Waiting => None
    case InCallback => None
  }

  /** The process asks for keys, takes keys, or is about to. */
  predicate Claims(p: Process) {
    || Odd(p.requested) || Odd(p.applied) || p.hook.InCallback?
    || (InHand(p.hook).Some? && Odd(InHand(p.hook).value))
    || p.ui.WillActivate?
  }

  predicate ProcessInv(p: Process, owns: bool) {
    && p.applied <= p.requested
    && (InHand(p.hook).Some? ==> p.applied <= InHand(p.hook).value <= p.requested)
    && (p.hook.Comparing? ==> p.hook.g <= p.hook.again <= p.requested)
    && (p.hook.InCallback? ==> Odd(p.applied))
    && (p.ui.WillRelease? ==> Agrees(p, false) && p.phase.Pausing?)
    && (Claims(p) ==> owns)
  }

  predicate Inv(w: World) {
    && (forall id <- w.procs :: ProcessInv(w.procs[id], w.lock == Some(id)))
    && (w.lock.Some? ==> w.lock.value in w.procs)
  }

  lemma HookKeepsInv(w: World, move: Move, w': World)
    requires Inv(w) && move.id in w.procs && HookStep(w, move, w')
    ensures Inv(w')
  {
    assert ProcessInv(w.procs[move.id], w.lock == Some(move.id));
    HookKeepsItsProcess(w, move, w');
    forall id | id in w'.procs && id != move.id
      ensures ProcessInv(w'.procs[id], w'.lock == Some(id))
    {
      assert ProcessInv(w.procs[id], w.lock == Some(id));
    }
  }

  lemma HookKeepsItsProcess(w: World, move: Move, w': World)
    requires move.id in w.procs && ProcessInv(w.procs[move.id], w.lock == Some(move.id)) && HookStep(w, move, w')
    ensures w'.lock == w.lock && w'.procs.Keys == w.procs.Keys
    ensures forall id <- w.procs :: id != move.id ==> w'.procs[id] == w.procs[id]
    ensures ProcessInv(w'.procs[move.id], w.lock == Some(move.id))
  {
  }

  lemma UiKeepsInv(w: World, move: Move, w': World)
    requires Inv(w) && move.id in w.procs && UiStep(w, move, w')
    ensures Inv(w')
  {
    var p := w.procs[move.id];
    RequestedIsNewer(p.requested, true);
    RequestedIsNewer(p.requested, false);
    assert ProcessInv(w'.procs[move.id], w'.lock == Some(move.id));
    forall id | id in w'.procs && id != move.id
      ensures ProcessInv(w'.procs[id], w'.lock == Some(id))
    {
      assert w'.lock == w.lock || w.lock != Some(id);
    }
  }

  lemma StepKeepsInv(w: World, move: Move, w': World)
    requires Inv(w) && Step(w, move, w')
    ensures Inv(w')
  {
    if move.HookKey? || move.HookReturn? || move.HookActivation? {
      HookKeepsInv(w, move, w');
    } else if !move.StartFirst? && !move.StartReplacement? && !move.Die? {
      UiKeepsInv(w, move, w');
    }
  }

  lemma {:induction false} EveryRunKeepsInv(run: seq<World>, moves: seq<Move>, n: nat)
    requires IsRun(run, moves) && n < |run|
    ensures Inv(run[n])
  {
    if n > 0 {
      EveryRunKeepsInv(run, moves, n - 1);
      StepKeepsInv(run[n - 1], moves[n - 1], run[n]);
    }
  }

  // ---- Main results ------------------------------------------------------

  /** In every interleaving, a process whose hook is active, is handling a key, or has read a
      request to become active, owns the lock. */
  lemma OnlyTheOwnerTakesKeys(run: seq<World>, moves: seq<Move>, n: nat, id: nat)
    requires IsRun(run, moves) && n < |run| && id in run[n].procs
    ensures Claims(run[n].procs[id]) ==> run[n].lock == Some(id)
  {
    EveryRunKeepsInv(run, moves, n);
  }

  /** So two processes never both handle keys, and a second one cannot even be asked to. */
  lemma NeverTwoInputOwners(run: seq<World>, moves: seq<Move>, n: nat, one: nat, other: nat)
    requires IsRun(run, moves) && n < |run| && one in run[n].procs && other in run[n].procs && one != other
    ensures !(Claims(run[n].procs[one]) && Claims(run[n].procs[other]))
  {
    OnlyTheOwnerTakesKeys(run, moves, n, one);
    OnlyTheOwnerTakesKeys(run, moves, n, other);
  }

  /** Inactive, and nothing on its way to change that. */
  predicate Quiet(p: Process) {
    && Agrees(p, false) && !p.hook.InCallback?
    && (InHand(p.hook).Some? ==> InHand(p.hook).value == p.requested)
  }

  /** An acknowledged pause: no callback is running and none is about to begin. */
  lemma AcknowledgedPauseIsQuiet(run: seq<World>, moves: seq<Move>, n: nat, id: nat)
    requires IsRun(run, moves) && n < |run| && id in run[n].procs && Agrees(run[n].procs[id], false)
    ensures Quiet(run[n].procs[id])
  {
    EveryRunKeepsInv(run, moves, n);
  }

  lemma StepKeepsQuiet(w: World, move: Move, w': World, id: nat)
    requires Inv(w) && Step(w, move, w') && id in w.procs && Quiet(w.procs[id]) && !(move.UiRequest? && move.id == id)
    ensures id in w'.procs ==> Quiet(w'.procs[id])
  {
    var p := w.procs[id];
    RequestedIsNewer(p.requested, false);
    if move.id == id && move.HookActivation? {
      assert ProcessInv(p, w.lock == Some(id));
    }
  }

  /** And it stays that way, for as long as the process lives, until it is asked to resume. */
  lemma {:induction false} QuietUntilAskedToResume(run: seq<World>, moves: seq<Move>, from: nat, to: nat, id: nat)
    requires IsRun(run, moves) && from <= to < |run|
    requires id in run[from].procs && Agrees(run[from].procs[id], false)
    requires forall i :: from <= i < to ==> !(moves[i].UiRequest? && moves[i].id == id) && moves[i] != Die(id)
    ensures id in run[to].procs && Quiet(run[to].procs[id])
  {
    if from == to {
      AcknowledgedPauseIsQuiet(run, moves, from, id);
    } else {
      QuietUntilAskedToResume(run, moves, from, to - 1, id);
      EveryRunKeepsInv(run, moves, to - 1);
      StepKeepsQuiet(run[to - 1], moves[to - 1], run[to], id);
      StepKeepsOthers(run[to - 1], moves[to - 1], run[to], id);
    }
  }

  lemma StepKeepsOthers(w: World, move: Move, w': World, id: nat)
    requires Step(w, move, w') && id in w.procs && move != Die(id)
    ensures id in w'.procs
  {
  }

  /** The lock changes hands only from a process that is quiet, or dead. */
  lemma LockIsReleasedInSilence(run: seq<World>, moves: seq<Move>, n: nat, id: nat)
    requires IsRun(run, moves) && n < |moves| && run[n].lock == Some(id) && run[n + 1].lock != Some(id)
    ensures moves[n] == Die(id) || (id in run[n].procs && Quiet(run[n].procs[id]))
  {
    EveryRunKeepsInv(run, moves, n);
    assert Step(run[n], moves[n], run[n + 1]);
    if moves[n] == UiRelease(id) {
      AcknowledgedPauseIsQuiet(run, moves, n, id);
    }
  }

  // ---- The handover can be completed -------------------------------------

  /** The moves lead from one world to another. */
  ghost predicate Leads(w: World, moves: seq<Move>, w': World)
    decreases |moves|
  {
    if moves == [] then w == w'
    else
      var last := |moves| - 1;
      exists mid :: Leads(w, moves[..last], mid) && Step(mid, moves[last], w')
  }

  lemma Extend(w: World, moves: seq<Move>, mid: World, move: Move, w': World)
    requires Leads(w, moves, mid) && Step(mid, move, w')
    ensures Leads(w, moves + [move], w')
  {
    assert (moves + [move])[..|moves|] == moves;
  }

  /** A waiting hook thread reads the requested generation and finds it new. */
  lemma HookFindsNew(w: World, moves: seq<Move>, mid: World, id: nat, w': World)
    returns (moves': seq<Move>)
    requires Leads(w, moves, mid) && id in mid.procs
    requires mid.procs[id].hook.Waiting? && mid.procs[id].applied != mid.procs[id].requested
    requires w' == Put(mid, id, mid.procs[id].(hook := Storing(mid.procs[id].requested)))
    ensures Leads(w, moves', w')
  {
    var p := mid.procs[id];
    var read := Put(mid, id, p.(hook := ReadPending(p.requested)));
    Extend(w, moves, mid, HookActivation(id), read);
    moves' := moves + [HookActivation(id)];
    var compared := Put(read, id, p.(hook := Comparing(p.requested, p.requested)));
    Extend(w, moves', read, HookActivation(id), compared);
    moves' := moves' + [HookActivation(id)];
    assert w'.procs == compared.procs[id := w'.procs[id]];
    Extend(w, moves', compared, HookActivation(id), w');
    moves' := moves' + [HookActivation(id)];
  }

  /** Left alone, it adopts that generation in four accesses. */
  lemma HookAdopts(w: World, moves: seq<Move>, mid: World, id: nat) returns (moves': seq<Move>, w': World)
    requires Leads(w, moves, mid) && id in mid.procs
    requires mid.procs[id].hook.Waiting? && mid.procs[id].applied != mid.procs[id].requested
    ensures Leads(w, moves', w') && w' == Put(mid, id, mid.procs[id].(applied := mid.procs[id].requested))
  {
    var p := mid.procs[id];
    var storing := Put(mid, id, p.(hook := Storing(p.requested)));
    moves' := HookFindsNew(w, moves, mid, id, storing);
    w' := Put(mid, id, p.(applied := p.requested));
    assert w'.procs == storing.procs[id := w'.procs[id]];
    Extend(w, moves', storing, HookActivation(id), w');
    moves' := moves' + [HookActivation(id)];
  }

  /** A paused owner whose hook thread has acknowledged gives up the lock. */
  lemma PausedReleases(w: World, moves: seq<Move>, mid: World, id: nat) returns (moves': seq<Move>, w': World)
    requires Leads(w, moves, mid) && id in mid.procs && mid.lock == Some(id)
    requires var p := mid.procs[id]; p.ui.Polling? && p.phase.Pausing? && Agrees(p, false)
    ensures Leads(w, moves', w') && w' == Put(mid, id, mid.procs[id].(phase := Suspended)).(lock := None)
  {
    var p := mid.procs[id];
    var quiesced := Put(mid, id, p.(ui := WillRelease));
    Extend(w, moves, mid, UiQuiesced(id), quiesced);
    w' := Put(quiesced, id, p.(phase := Suspended)).(lock := None);
    Extend(w, moves + [UiQuiesced(id)], quiesced, UiRelease(id), w');
    moves' := moves + [UiQuiesced(id)] + [UiRelease(id)];
    assert w'.procs == mid.procs[id := p.(phase := Suspended)];
  }

  /** What a process has applied may change; the rest stays. */
  predicate SameButApplied(p: Process, p': Process) {
    p' == p.(applied := p'.applied)
  }

  /** Left alone, the hook thread finishes what it is doing. */
  lemma {:induction false} HookSettles(w: World, moves: seq<Move>, mid: World, id: nat, steps: nat)
    returns (moves': seq<Move>, w': World)
    requires Leads(w, moves, mid) && id in mid.procs && StepsLeft(mid.procs[id].hook) <= steps
    ensures Leads(w, moves', w') && id in w'.procs && w' == Put(mid, id, w'.procs[id])
    ensures w'.procs[id].hook.Waiting? && SameButApplied(mid.procs[id].(hook := Waiting), w'.procs[id])
    decreases steps
  {
    if mid.procs[id].hook.Waiting? {
      moves', w' := moves, mid;
      assert w'.procs == mid.procs[id := w'.procs[id]];
    } else {
      var move, next := HookGoesOn(mid, id);
      Extend(w, moves, mid, move, next);
      moves', w' := HookSettles(w, moves + [move], next, id, steps - 1);
      assert w'.procs == mid.procs[id := w'.procs[id]];
    }
  }

  function StepsLeft(hook: HookPc): nat {
    match hook
    case Waiting => 0
    case InCallback => 1
    case ReadPending(_) => 3
    case Comparing(_, _) => 2
    case Storing(_) => 1
  }

  lemma HookGoesOn(w: World, id: nat) returns (move: Move, w': World)
    requires id in w.procs && !w.procs[id].hook.Waiting?
    ensures Step(w, move, w') && id in w'.procs && w' == Put(w, id, w'.procs[id])
    ensures SameButApplied(w.procs[id].(hook := w'.procs[id].hook), w'.procs[id])
    ensures StepsLeft(w'.procs[id].hook) <= StepsLeft(w.procs[id].hook) - 1
  {
    var p := w.procs[id];
    match p.hook {
      case InCallback => move, w' := HookReturn(id), Put(w, id, p.(hook := Waiting));
      case ReadPending(g) => move, w' := HookActivation(id), Put(w, id, p.(hook := Comparing(g, p.requested)));
      case Comparing(g, again) =>
        move := HookActivation(id);
        w' := Put(w, id, p.(hook := if Odd(again) == Odd(g) && p.applied == again then Waiting else Storing(g)));
      case Storing(g) => move, w' := HookActivation(id), Put(w, id, p.(applied := g, hook := Waiting));
    }
  }

  /** The owner's UI thread finishes a request it is about to make. */
  lemma UiSettles(w: World, moves: seq<Move>, mid: World, id: nat) returns (moves': seq<Move>, w': World)
    requires Leads(w, moves, mid) && id in mid.procs && !mid.procs[id].ui.WillRelease?
    ensures Leads(w, moves', w') && id in w'.procs && w' == Put(mid, id, w'.procs[id]) && w'.procs[id].ui.Polling?
    ensures w'.procs[id].hook == mid.procs[id].hook && w'.procs[id].exiting == mid.procs[id].exiting
  {
    var p := mid.procs[id];
    if p.ui.WillActivate? {
      w' := Put(mid, id, p.(requested := Requested(p.requested, true), ui := Polling, phase := p.ui.next));
      Extend(w, moves, mid, UiRequest(id, true), w');
      moves' := moves + [UiRequest(id, true)];
    } else {
      moves', w' := moves, mid;
      assert w'.procs == mid.procs[id := w'.procs[id]];
    }
  }

  /** An owner at rest pauses and gives up the lock. */
  lemma RestingOwnerSuspends(w: World, moves: seq<Move>, mid: World, id: nat) returns (moves': seq<Move>, w': World)
    requires Leads(w, moves, mid) && Inv(mid) && id in mid.procs && mid.lock == Some(id)
    requires var p := mid.procs[id]; p.hook.Waiting? && p.ui.Polling? && !p.exiting
    ensures Leads(w, moves', w') && w'.lock.None? && id in w'.procs && w' == Put(mid, id, w'.procs[id]).(lock := None)
    ensures Quiet(w'.procs[id])
  {
    var p := mid.procs[id];
    assert ProcessInv(p, true);
    var g := Requested(p.requested, false);
    RequestedIsNewer(p.requested, false);
    var asked := Put(mid, id, p.(requested := g, phase := Pausing));
    Extend(w, moves, mid, UiSuspend(id, true), asked);
    moves' := moves + [UiSuspend(id, true)];
    var adopted := asked;
    if p.applied != g {
      moves', adopted := HookAdopts(w, moves', asked, id);
    }
    assert adopted.procs[id] == p.(requested := g, applied := g, phase := Pausing);
    moves', w' := PausedReleases(w, moves', adopted, id);
    assert w'.procs == mid.procs[id := w'.procs[id]];
  }

  /** Wherever its threads are, an owner that is not exiting can pause and give up the lock. */
  lemma OwnerSuspends(w: World, id: nat) returns (moves: seq<Move>, w': World)
    requires Inv(w) && id in w.procs && w.lock == Some(id) && !w.procs[id].exiting
    ensures Leads(w, moves, w') && w'.lock.None? && id in w'.procs && w' == Put(w, id, w'.procs[id]).(lock := None)
    ensures Quiet(w'.procs[id])
  {
    assert Leads(w, [], w);
    assert ProcessInv(w.procs[id], true);
    if w.procs[id].ui.WillRelease? {
      w' := Put(w, id, w.procs[id].(phase := Suspended, ui := Polling)).(lock := None);
      Extend(w, [], w, UiRelease(id), w');
      moves := [] + [UiRelease(id)];
    } else {
      var asked, resting;
      moves, asked := UiSettles(w, [], w, id);
      moves, resting := HookSettles(w, moves, asked, id, StepsLeft(asked.procs[id].hook));
      LeadsKeepsInv(w, moves, resting);
      assert resting.procs == w.procs[id := resting.procs[id]];
      moves, w' := RestingOwnerSuspends(w, moves, resting, id);
      assert w'.procs == w.procs[id := w'.procs[id]];
    }
  }

  /** A prepared replacement at rest takes the free lock, becomes active and handles a key. */
  lemma RestingReplacementActivates(w: World, moves: seq<Move>, mid: World, id: nat) returns (moves': seq<Move>, w': World)
    requires Leads(w, moves, mid) && Inv(mid) && id in mid.procs && mid.lock.None?
    requires var p := mid.procs[id]; p.hook.Waiting? && p.ui.Polling? && p.phase.Prepared?
    ensures Leads(w, moves', w') && id in w'.procs && w' == Put(mid, id, w'.procs[id]).(lock := Some(id))
    ensures w'.procs[id].hook.InCallback? && Agrees(w'.procs[id], true)
  {
    var p := mid.procs[id];
    assert ProcessInv(p, false);
    RequestedIsNewer(p.requested, true);
    var asked := p.(requested := Requested(p.requested, true), phase := Activating);
    var asking := Put(mid, id, asked).(lock := Some(id));
    moves' := ReplacementAsks(w, moves, mid, id, asking);
    var active;
    moves', active := HookAdopts(w, moves', asking, id);
    w' := Put(active, id, asked.(applied := asked.requested, hook := InCallback));
    Extend(w, moves', active, HookKey(id), w');
    moves' := moves' + [HookKey(id)];
    assert w'.procs == mid.procs[id := w'.procs[id]];
  }

  lemma ReplacementAsks(w: World, moves: seq<Move>, mid: World, id: nat, w': World) returns (moves': seq<Move>)
    requires Leads(w, moves, mid)
    requires id in mid.procs && mid.lock.None? && mid.procs[id].ui.Polling? && mid.procs[id].phase.Prepared?
    requires w' == Put(mid, id, mid.procs[id].(requested := Requested(mid.procs[id].requested, true), phase := Activating))
                   .(lock := Some(id))
    ensures Leads(w, moves', w')
  {
    var locked := Put(mid, id, mid.procs[id].(ui := WillActivate(Activating))).(lock := Some(id));
    Extend(w, moves, mid, UiActivate(id), locked);
    assert w'.procs == locked.procs[id := w'.procs[id]];
    Extend(w, moves + [UiActivate(id)], locked, UiRequest(id, true), w');
    moves' := moves + [UiActivate(id)] + [UiRequest(id, true)];
  }

  /** Wherever its hook thread is, a prepared replacement can take the free lock and handle a key. */
  lemma ReplacementActivates(w: World, id: nat) returns (moves: seq<Move>, w': World)
    requires Inv(w) && id in w.procs && w.lock.None? && w.procs[id].phase.Prepared?
    ensures Leads(w, moves, w') && id in w'.procs && w' == Put(w, id, w'.procs[id]).(lock := Some(id))
    ensures w'.procs[id].hook.InCallback? && Agrees(w'.procs[id], true)
  {
    assert Leads(w, [], w);
    assert ProcessInv(w.procs[id], false);
    var resting;
    moves, resting := HookSettles(w, [], w, id, StepsLeft(w.procs[id].hook));
    LeadsKeepsInv(w, moves, resting);
    moves, w' := RestingReplacementActivates(w, moves, resting, id);
    assert w'.procs == w.procs[id := w'.procs[id]];
  }

  lemma {:induction false} LeadsKeepsInv(w: World, moves: seq<Move>, w': World)
    requires Inv(w) && Leads(w, moves, w')
    ensures Inv(w')
    decreases |moves|
  {
    if moves != [] {
      var mid :| Leads(w, moves[..|moves| - 1], mid) && Step(mid, moves[|moves| - 1], w');
      LeadsKeepsInv(w, moves[..|moves| - 1], mid);
      StepKeepsInv(mid, moves[|moves| - 1], w');
    }
  }

  /** From any reachable world in which the owner is not exiting and a replacement is prepared, wherever
      their threads are, the handover can complete: the second handles a key while the first is quiet. */
  lemma HandoverCanComplete(run: seq<World>, moves: seq<Move>, n: nat, one: nat, two: nat)
      returns (pause: seq<Move>, between: World, resume: seq<Move>, w': World)
    requires IsRun(run, moves) && n < |run|
    requires one in run[n].procs && run[n].lock == Some(one) && !run[n].procs[one].exiting
    requires two in run[n].procs && two != one && run[n].procs[two].phase.Prepared?
    ensures Leads(run[n], pause, between) && Leads(between, resume, w')
    ensures one in w'.procs && Quiet(w'.procs[one])
    ensures two in w'.procs && w'.procs[two].hook.InCallback? && w'.lock == Some(two)
  {
    EveryRunKeepsInv(run, moves, n);
    pause, between := OwnerSuspends(run[n], one);
    LeadsKeepsInv(run[n], pause, between);
    resume, w' := ReplacementActivates(between, two);
  }

  // ---- The handshake as the code runs it ---------------------------------

  /** `InputActivation`. Every access of a thread to it is one move of the process it belongs to;
      `w` and `id` say which process that is, and what the world is at that moment. */
  class InputActivation {
    var requested: nat
    var applied: nat

    constructor (active: bool)
      ensures requested == applied == if active then 1 else 0
    {
      requested := if active then 1 else 0;
      applied := if active then 1 else 0;
    }

    /** The two counters are those of process `id`. */
    ghost predicate Of(w: World, id: nat)
      reads this
    {
      id in w.procs && w.procs[id].requested == requested && w.procs[id].applied == applied
    }

    /** `request`, by a UI thread that is about to resume or that is told to suspend. */
    method Request(active: bool, posted: bool, ghost w: World, ghost id: nat) returns (ghost w': World)
      requires Of(w, id)
      requires if active then w.procs[id].ui.WillActivate? else w.procs[id].ui.Polling? && !w.procs[id].exiting
      modifies this`requested
      ensures Of(w', id) && Step(w, if active then UiRequest(id, posted) else UiSuspend(id, posted), w')
    {
      if Odd(requested) != active {
        requested := (requested / 2 + 1) * 2 + if active then 1 else 0;
      }
      ghost var p := w.procs[id];
      w' := Put(w, id, if active
                       then p.(requested := requested, ui := Polling, phase := if posted then p.ui.next else p.phase)
                       else p.(requested := requested, phase := if posted then Pausing else p.phase));
    }

    /** `acknowledged`, by the UI thread, which is the only one to change what is requested. */
    method Acknowledged(active: bool, ghost w: World, ghost id: nat) returns (r: bool)
      requires Of(w, id)
      ensures r <==> Agrees(w.procs[id], active)
    {
      var generation := requested;
      r := Odd(generation) == active && applied == generation;
    }

    /** `active`, as a callback begins. */
    method Active(ghost w: World, ghost id: nat) returns (r: bool, ghost w': World)
      requires Of(w, id) && w.procs[id].hook.Waiting?
      ensures Of(w', id) && Step(w, HookKey(id), w') && (r <==> w'.procs[id].hook.InCallback?)
    {
      r := Odd(applied);
      w' := if r then Put(w, id, w.procs[id].(hook := InCallback)) else w;
    }

    /** `pending`, at the beginning of the hook thread's activation branch. */
    method Pending(ghost w: World, ghost id: nat) returns (g: nat, ghost w': World)
      requires Of(w, id) && w.procs[id].hook.Waiting?
      ensures g == requested
      ensures Of(w', id) && Step(w, HookActivation(id), w') && w'.procs[id].hook == ReadPending(g)
    {
      g := requested;
      w' := Put(w, id, w.procs[id].(hook := ReadPending(g)));
    }

    /** The first access of `acknowledged` in that branch; another request may come before the second. */
    method Reload(ghost w: World, ghost id: nat) returns (again: nat, ghost w': World)
      requires Of(w, id) && w.procs[id].hook.ReadPending?
      ensures Of(w', id) && Step(w, HookActivation(id), w')
      ensures again == requested && w'.procs[id].hook == Comparing(w.procs[id].hook.g, again)
    {
      again := requested;
      w' := Put(w, id, w.procs[id].(hook := Comparing(w.procs[id].hook.g, again)));
    }

    /** The second access of `acknowledged` in that branch. */
    method Compare(g: nat, again: nat, ghost w: World, ghost id: nat) returns (done: bool, ghost w': World)
      requires Of(w, id) && w.procs[id].hook == Comparing(g, again)
      ensures Of(w', id) && Step(w, HookActivation(id), w')
      ensures w'.procs[id].hook == if done then Waiting else Storing(g)
      ensures done <==> Odd(again) == Odd(g) && applied == again
    {
      done := Odd(again) == Odd(g) && applied == again;
      w' := Put(w, id, w.procs[id].(hook := if done then Waiting else Storing(g)));
    }

    /** `acknowledge`, at the end of that branch. */
    method Acknowledge(generation: nat, ghost w: World, ghost id: nat) returns (ghost w': World)
      requires Of(w, id) && w.procs[id].hook == Storing(generation)
      modifies this`applied
      ensures applied == generation
      ensures Of(w', id) && Step(w, HookActivation(id), w') && w'.procs[id].hook.Waiting?
    {
      applied := generation;
      w' := Put(w, id, w.procs[id].(applied := generation, hook := Waiting));
    }

    /** The whole branch, when nothing comes between: the requested generation is the applied one. */
    method Branch(ghost w: World, ghost id: nat) returns (ghost moves: seq<Move>, ghost w': World)
      requires Of(w, id) && w.procs[id].hook.Waiting?
      modifies this`applied
      ensures Leads(w, moves, w') && (forall move <- moves :: move == HookActivation(id))
      ensures Of(w', id) && w'.procs[id].hook.Waiting? && applied == requested
    {
      var g, again;
      g, again, moves, w' := Read(w, id);
      moves, w' := Finish(g, again, w, moves, w', id);
    }

    method Read(ghost w: World, ghost id: nat) returns (g: nat, again: nat, ghost moves: seq<Move>, ghost w': World)
      requires Of(w, id) && w.procs[id].hook.Waiting?
      ensures Leads(w, moves, w') && (forall move <- moves :: move == HookActivation(id))
      ensures Of(w', id) && w'.procs[id].hook == Comparing(g, again) && g == again == requested
    {
      assert Leads(w, [], w);
      ghost var read;
      g, read := Pending(w, id);
      Extend(w, [], w, HookActivation(id), read);
      again, w' := Reload(read, id);
      moves := [HookActivation(id)];
      assert [] + moves == moves;
      Extend(w, moves, read, HookActivation(id), w');
      moves := moves + [HookActivation(id)];
    }

    method Finish(g: nat, again: nat, ghost w: World, ghost moves: seq<Move>, ghost mid: World, ghost id: nat)
      returns (ghost moves': seq<Move>, ghost w': World)
      requires Leads(w, moves, mid) && (forall move <- moves :: move == HookActivation(id))
      requires Of(mid, id) && mid.procs[id].hook == Comparing(g, again) && g == again == requested
      modifies this`applied
      ensures Leads(w, moves', w') && (forall move <- moves' :: move == HookActivation(id))
      ensures Of(w', id) && w'.procs[id].hook.Waiting? && applied == requested
    {
      var done;
      done, w' := Compare(g, again, mid, id);
      Extend(w, moves, mid, HookActivation(id), w');
      moves' := moves + [HookActivation(id)];
      if !done {
        ghost var compared := w';
        w' := Acknowledge(g, compared, id);
        Extend(w, moves', compared, HookActivation(id), w');
        moves' := moves' + [HookActivation(id)];
      }
    }
  }
}
