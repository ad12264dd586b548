/**
 The hook thread, the bounded dispatch queue and the UI thread, interleaved one
 atomic access at a time (src/keyboard.rs, src/keyboard/dispatch.rs,
 src/app/input.rs).

 The hook thread decides with the machine of KeyboardState.dfy and then submits;
 each load, compare-and-swap, send and store on the shared counters is a move of
 its own, and the UI thread may move in between. What the system answers (whether
 a notification is posted, what the permissions are, when the UI acknowledges,
 cancels, pauses or closes) is any choice.
 */
module InputProtocol {
  import opened Wrappers
  import opened KeyboardState
  import opened KeyboardHistory

  const CAPACITY: nat := 64

  /** An emitted event, whether it entered the channel and whether submission refused it. */
  datatype Entry = Entry(event: Event, sent: bool, refused: bool)

  /** An event the UI is done with, and whether it was applied or skipped. */
  datatype Handled = Handled(event: Event, applied: bool)

  /** Where the hook thread stands inside one callback; `e` is the event being submitted. */
  datatype HookPc =
    | Idle
    | ReadRevoked(key: Key, perm: Permissions, acknowledged: nat)
    | Permits(key: Key, consume: bool, e: Event, canceling: bool, checks: nat)
    | Reserve(key: Key, consume: bool, e: Event)
    | Send(key: Key, consume: bool, e: Event)
    | Unreserve(key: Key, consume: bool, e: Event)
    | Notify(key: Key, consume: bool, e: Event)
    | NotifyFailed(key: Key, consume: bool, e: Event)
    | Refuse(key: Key, consume: bool, e: Event)
    | Revoke(key: Key, consume: bool, e: Event)
    | PauseSlot(key: Key, consume: bool, e: Event)
    | Answered(key: Key, consume: bool, e: Event, accepted: bool)
    | Undisturbed(key: Key, consume: bool)
    | ResetRevoke(session: nat)

  /** Where the UI thread stands: draining the channel, then deciding event by event. */
  datatype UiPc =
    | Resting
    | Draining(events: seq<Event>)
    | Uncounted(events: seq<Event>, hand: Event)
    | Deciding(events: seq<Event>)
    | Skipping(events: seq<Event>, skipped: Event)

  datatype World = World(
    machine: Machine, hook: HookPc, ui: UiPc,
    queued: nat, channel: seq<Event>, notified: bool,
    acknowledged: nat, revoked: nat, paused: bool, live: bool, pauseRequested: bool,
    log: seq<Entry>, processed: seq<Handled>)

  datatype Move =
    | HookStart(key: Key, perm: Permissions)
    | HookGo(posted: bool)
    | HookActivate(states: Option<seq<bool>>)
    | HookInjected(key: Key)
    | UiStart
    | UiReceive
    | UiUncount
    | UiStop
    | UiDecide(discard: bool)
    | UiSkip
    | UiAcknowledge(session: nat)
    | UiCancel(session: nat)
    | UiPause(on: bool)
    | UiClose

  function Max(a: nat, b: nat): nat { if a < b then b else a }

  function Init(hotkeys: seq<Hotkey>): World {
    World(Initial(hotkeys), Idle, Resting, 0, [], false, 0, 0, false, true, false, [], [])
  }

  function LimitFor(e: Event): nat { if e.action.Cycle? then CAPACITY - 1 else CAPACITY }

  /** The sessions the UI knows of: none (zero), or one of an event it has already handled. */
  predicate Seen(w: World, session: nat) {
    session == 0 || exists h <- w.processed :: h.event.session == session
  }

  predicate Permitted(w: World, session: nat) {
    !w.paused && w.live && session > w.revoked && session > w.acknowledged
  }

  predicate Enabled(w: World, move: Move) {
    match move
    case HookStart(_, _) => w.hook.Idle?
    case HookActivate(states) => w.hook.Idle? && Shape(w.machine) && (states.Some? ==> |states.value| == |SEEDED|)
    case HookInjected(_) => w.hook.Idle?
    case HookGo(_) => !w.hook.Idle? && Shape(w.machine) && (Holding(w.hook) ==> w.log != [])
    case UiStart => w.ui.Resting?
    case UiReceive => w.ui.Draining? && |w.ui.events| < CAPACITY && w.channel != []
    case UiUncount => w.ui.Uncounted? && w.queued > 0
    case UiStop => w.ui.Draining? && (|w.ui.events| == CAPACITY || w.channel == [])
    case UiDecide(_) => w.ui.Deciding?
    case UiSkip => w.ui.Skipping?
    case UiAcknowledge(session) => (w.ui.Resting? || w.ui.Deciding?) && Seen(w, session)
    case UiCancel(session) => (w.ui.Resting? || w.ui.Deciding?) && Seen(w, session)
    case UiPause(_) => w.ui.Resting? || w.ui.Deciding?
    case UiClose => true
  }

  /** The hook thread has an event in hand, already in the log. */
  predicate Holding(pc: HookPc) {
    !pc.Idle? && !pc.ReadRevoked? && !pc.Undisturbed? && !pc.ResetRevoke?
  }

  function Last(log: seq<Entry>): Entry
    requires log != []
  {
    log[|log| - 1]
  }

  function MarkLast(log: seq<Entry>, e: Entry): seq<Entry>
    requires log != []
  {
    log[|log| - 1 := e]
  }

  /** One atomic access of the hook thread. */
  predicate HookStep(w: World, posted: bool, w': World)
    requires Enabled(w, HookGo(posted))
  {
    match w.hook
    case Idle => false
    case ReadRevoked(key, perm, acknowledged) =>
      var (m, d) := Handle(w.machine, key, perm, acknowledged, w.revoked);
      (match d.event
       case None => w' == w.(machine := m, hook := Undisturbed(key, d.consume))
       case Some(e) =>
         w' == w.(machine := m, log := w.log + [Entry(e, false, false)],
                  hook := if e.action.TogglePause? then PauseSlot(key, d.consume, e)
                          else Permits(key, d.consume, e, e.action.Cancel?, 0)))
    case Permits(key, consume, e, canceling, checks) =>
      var passed := if checks == 0 then !w.paused else if checks == 1 then w.live
                    else if checks == 2 then e.session > w.revoked else e.session > w.acknowledged;
      if passed && checks < 3 then w' == w.(hook := Permits(key, consume, e, canceling, checks + 1))
      else if passed && canceling then w' == w.(hook := Revoke(key, consume, e))
      else if passed then w' == w.(hook := Reserve(key, consume, e))
      else if canceling then w' == w.(hook := Permits(key, consume, e, false, 0))
      else w' == w.(hook := Refuse(key, consume, e))
    case Reserve(key, consume, e) =>
      if w.queued < LimitFor(e) then w' == w.(queued := w.queued + 1, hook := Send(key, consume, e))
      else w' == w.(hook := Refuse(key, consume, e))
    case Send(key, consume, e) =>
      if |w.channel| < CAPACITY then
        w' == w.(channel := w.channel + [e], log := MarkLast(w.log, Last(w.log).(sent := true)),
                 hook := Notify(key, consume, e))
      else w' == w.(hook := Unreserve(key, consume, e))
    case Unreserve(key, consume, e) =>
      w.queued > 0 && w' == w.(queued := w.queued - 1, hook := Refuse(key, consume, e))
    case Notify(key, consume, e) =>
      if w.notified || posted then w' == w.(notified := true, hook := Answered(key, consume, e, true))
      else w' == w.(notified := true, hook := NotifyFailed(key, consume, e))
    case NotifyFailed(key, consume, e) =>
      if w.live then w' == w.(notified := false, hook := Answered(key, consume, e, true))
      else w' == w.(notified := false, hook := Refuse(key, consume, e))
    case Refuse(key, consume, e) =>
      w' == w.(revoked := Max(w.revoked, e.session), log := MarkLast(w.log, Last(w.log).(refused := true)),
               hook := Answered(key, consume, e, false))
    case Revoke(key, consume, e) =>
      w' == w.(revoked := Max(w.revoked, e.session), hook := Answered(key, consume, e, true))
    case PauseSlot(key, consume, e) =>
      if w.live then w' == w.(pauseRequested := true, hook := Answered(key, consume, e, true))
      else w' == w.(hook := Refuse(key, consume, e))
    case Answered(key, consume, e, accepted) =>
      if accepted then w' == w.(machine := Accepted(w.machine, key, consume), hook := Idle)
      else w' == w.(machine := Rejected(w.machine, key), hook := Idle)
    case Undisturbed(key, consume) =>
      w' == w.(machine := Accepted(w.machine, key, consume), hook := Idle)
    case ResetRevoke(session) =>
      w' == w.(revoked := Max(w.revoked, session), hook := Idle)
  }

  predicate Step(w: World, move: Move, w': World)
    requires Enabled(w, move)
  {
    match move
    case HookStart(key, perm) => w' == w.(hook := ReadRevoked(key, perm, w.acknowledged))
    case HookGo(posted) => HookStep(w, posted, w')
    case HookInjected(key) => w' == w.(machine := ObserveInjected(w.machine, key))
    case HookActivate(states) =>
      var (m, session) := Reset(w.machine);
      var seeded := if states.Some? then Seed(m, states.value, |SEEDED|) else m;
      if session.Some? then w' == w.(machine := seeded, hook := ResetRevoke(session.value))
      else w' == w.(machine := seeded)
    case UiStart => w' == w.(notified := false, ui := Draining([]))
    case UiReceive => w' == w.(channel := w.channel[1..], ui := Uncounted(w.ui.events, w.channel[0]))
    case UiUncount => w' == w.(queued := w.queued - 1, ui := Draining(w.ui.events + [w.ui.hand]))
    case UiStop => w' == w.(ui := Deciding(w.ui.events))
    case UiDecide(discard) =>
      if w.ui.events == [] then w' == w.(ui := Resting)
      else
        var e, rest := w.ui.events[0], w.ui.events[1..];
        if !discard && Permitted(w, e.session) then
          w' == w.(processed := w.processed + [Handled(e, true)], ui := Deciding(rest))
        else w' == w.(ui := Skipping(rest, e))
    case UiSkip =>
      w' == w.(acknowledged := Max(w.acknowledged, w.ui.skipped.session),
               processed := w.processed + [Handled(w.ui.skipped, false)], ui := Deciding(w.ui.events))
    case UiAcknowledge(session) => w' == w.(acknowledged := Max(w.acknowledged, session))
    case UiCancel(session) => w' == w.(revoked := Max(w.revoked, session))
    case UiPause(on) => w' == w.(paused := on)
    case UiClose => w' == w.(live := false)
  }

  ghost predicate Next(w: World, w': World) {
    exists move :: Enabled(w, move) && Step(w, move, w')
  }

  /** A run: any number of moves from the start, each possible when its turn came. */
  ghost predicate IsRun(hotkeys: seq<Hotkey>, run: seq<World>) {
    && run != [] && run[0] == Init(hotkeys)
    && forall i :: 0 <= i < |run| - 1 ==> Next(run[i], run[i + 1])
  }

  // ---- The invariant -----------------------------------------------------

  function Events(log: seq<Entry>): (r: seq<Event>)
    ensures |r| == |log| && forall i :: 0 <= i < |r| ==> r[i] == log[i].event
  {
    seq(|log|, i requires 0 <= i < |log| => log[i].event)
  }

  function SentEvents(log: seq<Entry>): seq<Event> {
    if log == [] then []
    else SentEvents(log[..|log| - 1]) + if Last(log).sent then [Last(log).event] else []
  }

  function HandledEvents(processed: seq<Handled>): (r: seq<Event>)
    ensures |r| == |processed| && forall i :: 0 <= i < |r| ==> r[i] == processed[i].event
  {
    seq(|processed|, i requires 0 <= i < |processed| => processed[i].event)
  }

  function UiEvents(pc: UiPc): seq<Event> {
    match pc
    case Resting => []
    case Draining(events) => events
    case Uncounted(events, hand) => events + [hand]
    case Deciding(events) => events
    case Skipping(events, skipped) => [skipped] + events
  }

  /** Everything counted in `queued`: taken out but not yet uncounted, in the channel, reserved. */
  function Counted(w: World): seq<Event> {
    (if w.ui.Uncounted? then [w.ui.hand] else []) + w.channel + Reserved(w.hook)
  }

  function Reserved(pc: HookPc): seq<Event> {
    if pc.Send? || pc.Unreserve? then [pc.e] else []
  }

  /** The last slot is only ever taken by an event that is not a cycle. */
  predicate QueueInv(queued: nat, counted: seq<Event>) {
    && queued == |counted| <= CAPACITY
    && (queued == CAPACITY ==> !counted[CAPACITY - 1].action.Cycle?)
  }

  /** Entries the hook thread is finished with. */
  function Settled(w: World): nat {
    if Holding(w.hook) && |w.log| > 0 then |w.log| - 1 else |w.log|
  }

  predicate HookInv(w: World) {
    && !w.hook.Unreserve?
    && (Holding(w.hook) ==>
          && w.log != []
          && Last(w.log).event == w.hook.e
          && (w.hook.e.session == 0 <==> w.hook.e.action.TogglePause?)
          && (w.hook.e.action.TogglePause? ==> w.hook.PauseSlot? || w.hook.Refuse? || w.hook.Answered?)
          && (w.hook.PauseSlot? ==> w.hook.e.action.TogglePause?)
          && (w.hook.Permits? || w.hook.Reserve? || w.hook.Send? || w.hook.e.session == 0 ==> !Last(w.log).sent)
          && (w.hook.Notify? || w.hook.NotifyFailed? ==> Last(w.log).sent)
          && (w.hook.Answered? && w.hook.accepted ==>
                Last(w.log).sent || Terminal(w.hook.e.action) || w.hook.e.session == 0)
          && (w.hook.Answered? && !Last(w.log).sent ==> w.hook.e.session <= w.revoked))
    && (w.hook.Permits? && w.hook.canceling ==> w.hook.e.action.Cancel?)
    && (w.hook.Revoke? ==> w.hook.e.action.Cancel?)
    && (w.hook.ReadRevoked? ==> w.hook.acknowledged <= w.acknowledged)
    && (w.hook.ResetRevoke? ==> w.hook.session <= w.machine.nextSession)
  }

  /** Every event of a session but its last was sent, and what was not sent is revoked. */
  predicate Kept(log: seq<Entry>, settled: nat, active: Option<Gesture>, revoked: nat)
    requires settled <= |log|
  {
    && (forall i, j :: 0 <= i < j < |log| && log[i].event.session == log[j].event.session != 0 ==> log[i].sent)
    && (active.Some? && !active.value.finishing ==>
          forall i :: 0 <= i < settled && log[i].event.session == active.value.session ==> log[i].sent)
    && (forall i :: 0 <= i < settled && !log[i].sent ==> log[i].event.session <= revoked)
    && (forall i :: 0 <= i < |log| && log[i].refused ==> log[i].event.session <= revoked)
  }

  predicate KeptInv(w: World) {
    Kept(w.log, Settled(w), w.machine.active, w.revoked)
  }

  /** What the UI has handled, has taken and has yet to take is what was sent, in that order. */
  predicate OrderInv(w: World) {
    && SentEvents(w.log) == HandledEvents(w.processed) + UiEvents(w.ui) + w.channel
    && (w.ui.Draining? ==> |w.ui.events| <= CAPACITY)
    && (w.ui.Uncounted? ==> |w.ui.events| < CAPACITY)
  }

  /** After one skipped event of a session, the session is acknowledged and nothing of it is applied. */
  predicate SkipInv(w: World) {
    && (forall h <- w.processed :: !h.applied ==> h.event.session <= w.acknowledged)
    && (forall i, j :: 0 <= i < j < |w.processed| && w.processed[i].event.session == w.processed[j].event.session ==>
          w.processed[j].applied ==> w.processed[i].applied)
  }

  predicate CounterInv(w: World) {
    w.acknowledged <= w.machine.nextSession && w.revoked <= w.machine.nextSession
  }

  predicate MachineInv(w: World) {
    Shape(w.machine) && GestureInv(w.machine) && LogInv(w.machine, Events(w.log))
  }

  predicate Inv(w: World) {
    && MachineInv(w) && CounterInv(w) && HookInv(w) && QueueInv(w.queued, Counted(w))
    && KeptInv(w) && OrderInv(w) && SkipInv(w)
  }

  // ---- Lemmas about the log ----------------------------------------------

  lemma SentAppend(log: seq<Entry>, e: Entry)
    ensures SentEvents(log + [e]) == SentEvents(log) + if e.sent then [e.event] else []
  {
    assert (log + [e])[..|log|] == log;
  }

  lemma SentMarked(log: seq<Entry>)
    requires log != [] && !Last(log).sent
    ensures SentEvents(MarkLast(log, Last(log).(sent := true))) == SentEvents(log) + [Last(log).event]
    ensures Events(MarkLast(log, Last(log).(sent := true))) == Events(log)
  {
    var marked := MarkLast(log, Last(log).(sent := true));
    assert marked[..|marked| - 1] == log[..|log| - 1];
  }

  lemma SentRefused(log: seq<Entry>)
    requires log != []
    ensures SentEvents(MarkLast(log, Last(log).(refused := true))) == SentEvents(log)
    ensures Events(MarkLast(log, Last(log).(refused := true))) == Events(log)
  {
    var marked := MarkLast(log, Last(log).(refused := true));
    assert marked[..|marked| - 1] == log[..|log| - 1];
  }

  lemma {:induction false} SentIsLogged(log: seq<Entry>, e: Event)
    requires e in SentEvents(log)
    ensures exists x <- log :: x.sent && x.event == e
  {
    var rest := log[..|log| - 1];
    if e in SentEvents(rest) {
      SentIsLogged(rest, e);
    } else {
      assert Last(log) in log;
    }
  }

  /** A session the UI has seen is one that was issued. */
  lemma SeenIsIssued(w: World, session: nat)
    requires MachineInv(w) && OrderInv(w) && Seen(w, session)
    ensures session <= w.machine.nextSession
  {
    if session != 0 {
      var h :| h in w.processed && h.event.session == session;
      assert h.event in HandledEvents(w.processed) by {
        var k :| 0 <= k < |w.processed| && w.processed[k] == h;
        assert HandledEvents(w.processed)[k] == h.event;
      }
      assert h.event in SentEvents(w.log);
      SentIsLogged(w.log, h.event);
      var x :| x in w.log && x.event == h.event;
      var k :| 0 <= k < |w.log| && w.log[k] == x;
      assert Events(w.log)[k] in Events(w.log);
    }
  }

  lemma TakenIsIssued(w: World, e: Event)
    requires MachineInv(w) && OrderInv(w) && e in UiEvents(w.ui)
    ensures e.session <= w.machine.nextSession
  {
    assert e in SentEvents(w.log);
    SentIsLogged(w.log, e);
    var x :| x in w.log && x.event == e;
    var k :| 0 <= k < |w.log| && w.log[k] == x;
    assert Events(w.log)[k] in Events(w.log);
  }

  // ---- Each move keeps the invariant, one part at a time -----------------

  lemma InitInv(hotkeys: seq<Hotkey>)
    requires forall k <- hotkeys :: Parsed(k)
    ensures Inv(Init(hotkeys))
  {
  }

  /** The hook thread moves on with its event in hand and nothing it submitted changes. */
  lemma ProceedKeepsInv(w: World, w': World)
    requires Inv(w) && Holding(w.hook) && Holding(w'.hook) && w'.hook.e == w.hook.e
    requires w' == w.(hook := w'.hook, notified := w'.notified, pauseRequested := w'.pauseRequested)
    requires Reserved(w.hook) == [] && Reserved(w'.hook) == [] && HookInv(w')
    ensures Inv(w')
  {
    assert Counted(w') == Counted(w);
  }

  lemma ReserveKeepsInv(w: World, w': World)
    requires Inv(w) && w.hook.Reserve? && w.queued < LimitFor(w.hook.e)
    requires w' == w.(queued := w.queued + 1, hook := Send(w.hook.key, w.hook.consume, w.hook.e))
    ensures Inv(w')
  {
    assert Counted(w') == Counted(w) + [w.hook.e];
  }

  /** Marking the entry in hand changes no session, and only adds to what was sent. */
  lemma MarkedIsKept(log: seq<Entry>, x: Entry, settled: nat, active: Option<Gesture>, revoked: nat, revoked': nat)
    requires log != [] && settled < |log| && Kept(log, settled, active, revoked) && revoked <= revoked'
    requires x.event == Last(log).event && (x.refused ==> x.event.session <= revoked')
    ensures Kept(MarkLast(log, x), settled, active, revoked')
  {
  }

  lemma SentInOrder(w: World, w': World)
    requires OrderInv(w) && w.log != [] && !Last(w.log).sent
    requires w'.log == MarkLast(w.log, Last(w.log).(sent := true)) && w'.channel == w.channel + [Last(w.log).event]
    requires w'.processed == w.processed && w'.ui == w.ui
    ensures OrderInv(w') && Events(w'.log) == Events(w.log)
  {
    SentMarked(w.log);
  }

  lemma SendKeepsInv(w: World, w': World)
    requires Inv(w) && w.hook.Send?
    requires w' == w.(channel := w.channel + [w.hook.e], log := MarkLast(w.log, Last(w.log).(sent := true)),
                      hook := Notify(w.hook.key, w.hook.consume, w.hook.e))
    ensures Inv(w')
  {
    SentInOrder(w, w');
    MarkedIsKept(w.log, Last(w.log).(sent := true), Settled(w), w.machine.active, w.revoked, w.revoked);
    assert Counted(w') == Counted(w);
  }

  lemma RefuseKeepsInv(w: World, w': World)
    requires Inv(w) && w.hook.Refuse?
    requires w' == w.(revoked := Max(w.revoked, w.hook.e.session),
                      log := MarkLast(w.log, Last(w.log).(refused := true)),
                      hook := Answered(w.hook.key, w.hook.consume, w.hook.e, false))
    ensures Inv(w')
  {
    SentRefused(w.log);
    MarkedIsKept(w.log, Last(w.log).(refused := true), Settled(w), w.machine.active, w.revoked, w'.revoked);
    assert Events(w.log)[|w.log| - 1] in Events(w.log);
    assert Counted(w') == Counted(w);
  }

  lemma RevokeKeepsInv(w: World, w': World)
    requires Inv(w) && w.hook.Revoke?
    requires w' == w.(revoked := Max(w.revoked, w.hook.e.session),
                      hook := Answered(w.hook.key, w.hook.consume, w.hook.e, true))
    ensures Inv(w')
  {
    assert Events(w.log)[|w.log| - 1] in Events(w.log);
    assert Counted(w') == Counted(w);
  }

  lemma ResetRevokeKeepsInv(w: World, w': World)
    requires Inv(w) && w.hook.ResetRevoke?
    requires w' == w.(revoked := Max(w.revoked, w.hook.session), hook := Idle)
    ensures Inv(w')
  {
    assert Counted(w') == Counted(w);
  }

  /** Recording what was swallowed, and dropping the gesture, leave the machine in order. */
  lemma RecordedOutcome(m: Machine, key: Key, consume: bool)
    requires Shape(m)
    ensures var a := Accepted(m, key, consume); |a.consumed| == KEYS && a == m.(consumed := a.consumed)
    ensures var r := Rejected(m, key); |r.consumed| == KEYS && r == m.(consumed := r.consumed, active := None)
  {
  }

  /** An accepted event that was not sent has ended its gesture, and a refused one drops it. */
  lemma AnsweredIsKept(w: World, active: Option<Gesture>)
    requires MachineInv(w) && HookInv(w) && KeptInv(w) && w.hook.Answered?
    requires active == if w.hook.accepted then w.machine.active else None
    ensures Kept(w.log, |w.log|, active, w.revoked)
  {
    assert Events(w.log)[|w.log| - 1] in Events(w.log);
  }

  lemma RecordingKeepsInv(w: World, m: Machine)
    requires Inv(w) && (w.hook.Answered? || w.hook.Undisturbed?) && m == w.machine.(consumed := m.consumed, active := m.active)
    requires MachineInv(w.(machine := m)) && Kept(w.log, |w.log|, m.active, w.revoked)
    ensures Inv(w.(machine := m, hook := Idle))
  {
    assert Counted(w.(machine := m, hook := Idle)) == Counted(w);
  }

  lemma ReturnKeepsInv(w: World, w': World)
    requires Inv(w) && w.hook.Answered?
    requires w' == w.(machine := w'.machine, hook := Idle)
    requires w'.machine == if w.hook.accepted then Accepted(w.machine, w.hook.key, w.hook.consume)
                           else Rejected(w.machine, w.hook.key)
    ensures Inv(w')
  {
    RecordedOutcome(w.machine, w.hook.key, w.hook.consume);
    RecordedMachine(w.machine, w'.machine, Events(w.log));
    AnsweredIsKept(w, w'.machine.active);
    RecordingKeepsInv(w, w'.machine);
  }

  lemma UndisturbedKeepsInv(w: World, w': World)
    requires Inv(w) && w.hook.Undisturbed?
    requires w' == w.(machine := Accepted(w.machine, w.hook.key, w.hook.consume), hook := Idle)
    ensures Inv(w')
  {
    RecordedOutcome(w.machine, w.hook.key, w.hook.consume);
    RecordedMachine(w.machine, w'.machine, Events(w.log));
    RecordingKeepsInv(w, w'.machine);
  }

  lemma NoEventMachine(o: Machine, m: Machine, consume: bool, log: seq<Event>)
    requires Shape(o) && GestureInv(o) && LogInv(o, log) && Decides(o, m, Decision(consume, None))
    ensures Shape(m) && GestureInv(m) && LogInv(m, log)
  {
  }

  lemma NoEventIsKept(log: seq<Entry>, active: Option<Gesture>, active': Option<Gesture>, revoked: nat)
    requires Kept(log, |log|, active, revoked)
    requires active'.None? || (active.Some? && active'.value.session == active.value.session
                               && active'.value.finishing == active.value.finishing)
    ensures Kept(log, |log|, active', revoked)
  {
  }

  lemma NoEventKeepsInv(w: World, m: Machine, consume: bool, w': World)
    requires Inv(w) && w.hook.ReadRevoked? && Decides(w.machine, m, Decision(consume, None))
    requires w' == w.(machine := m, hook := Undisturbed(w.hook.key, consume))
    ensures Inv(w')
  {
    NoEventMachine(w.machine, m, consume, Events(w.log));
    NoEventIsKept(w.log, w.machine.active, m.active, w.revoked);
    assert Counted(w') == Counted(w);
  }

  /** Whatever is logged of the new event's session was sent. */
  lemma NewEventIsKept(w: World, m: Machine, consume: bool, e: Event)
    requires MachineInv(w) && KeptInv(w) && w.hook.ReadRevoked? && Decides(w.machine, m, Decision(consume, Some(e)))
    ensures Kept(w.log + [Entry(e, false, false)], |w.log|, m.active, w.revoked)
  {
    if e.session != 0 && m.nextSession > w.machine.nextSession {
      forall i | 0 <= i < |w.log| ensures w.log[i].event.session < e.session {
        assert Events(w.log)[i] in Events(w.log);
      }
    }
  }

  lemma NewEventMachine(o: Machine, m: Machine, consume: bool, log: seq<Entry>, e: Event)
    requires Shape(o) && GestureInv(o) && LogInv(o, Events(log)) && Decides(o, m, Decision(consume, Some(e)))
    ensures Shape(m) && GestureInv(m) && LogInv(m, Events(log + [Entry(e, false, false)]))
  {
    EmissionKeepsLog(o, m, Events(log), e);
    assert Events(log + [Entry(e, false, false)]) == Events(log) + [e];
  }

  lemma NewEventKeepsInv(w: World, m: Machine, consume: bool, e: Event, w': World)
    requires Inv(w) && w.hook.ReadRevoked? && Decides(w.machine, m, Decision(consume, Some(e)))
    requires w' == w.(machine := m, log := w.log + [Entry(e, false, false)], hook := w'.hook)
    requires Holding(w'.hook) && w'.hook.e == e && Reserved(w'.hook) == [] && HookInv(w')
    ensures Inv(w')
  {
    assert Counted(w') == Counted(w);
    SentAppend(w.log, Entry(e, false, false));
    assert OrderInv(w');
    NewEventIsKept(w, m, consume, e);
    assert KeptInv(w');
    NewEventMachine(w.machine, m, consume, w.log, e);
  }

  lemma DecideKeepsInv(w: World, posted: bool, w': World)
    requires Inv(w) && Enabled(w, HookGo(posted)) && w.hook.ReadRevoked? && HookStep(w, posted, w')
    ensures Inv(w')
  {
    var ReadRevoked(key, perm, acknowledged) := w.hook;
    var (m, d) := Handle(w.machine, key, perm, acknowledged, w.revoked);
    HandleDecides(w.machine, key, perm, acknowledged, w.revoked);
    if d.event.Some? {
      NewEventKeepsInv(w, m, d.consume, d.event.value, w');
    } else {
      NoEventKeepsInv(w, m, d.consume, w');
    }
  }

  /** Where one permission check can lead. */
  predicate AfterCheck(pc: HookPc, hook: HookPc)
    requires pc.Permits?
  {
    || hook == Permits(pc.key, pc.consume, pc.e, false, 0)
    || hook == Permits(pc.key, pc.consume, pc.e, pc.canceling, pc.checks + 1)
    || (hook == Revoke(pc.key, pc.consume, pc.e) && pc.canceling)
    || hook == Reserve(pc.key, pc.consume, pc.e)
    || hook == Refuse(pc.key, pc.consume, pc.e)
  }

  lemma CheckOutcome(w: World, posted: bool, w': World)
    requires w.hook.Permits? && Enabled(w, HookGo(posted)) && HookStep(w, posted, w')
    ensures AfterCheck(w.hook, w'.hook) && w' == w.(hook := w'.hook)
  {
  }

  lemma PermitsKeepsInv(w: World, hook: HookPc)
    requires Inv(w) && w.hook.Permits? && AfterCheck(w.hook, hook)
    ensures Inv(w.(hook := hook))
  {
    var w' := w.(hook := hook);
    assert HookInv(w');
    ProceedKeepsInv(w, w');
  }

  lemma ReservingKeepsInv(w: World, posted: bool, w': World)
    requires Inv(w) && w.hook.Reserve? && Enabled(w, HookGo(posted)) && HookStep(w, posted, w')
    ensures Inv(w')
  {
    if w.queued < LimitFor(w.hook.e) {
      ReserveKeepsInv(w, w');
    } else {
      ProceedKeepsInv(w, w');
    }
  }

  lemma NotifyKeepsInv(w: World, posted: bool, w': World)
    requires Inv(w) && Enabled(w, HookGo(posted)) && HookStep(w, posted, w')
    requires w.hook.Notify? || w.hook.NotifyFailed? || w.hook.PauseSlot?
    ensures Inv(w')
  {
    ProceedKeepsInv(w, w');
  }

  lemma HookGoKeepsInv(w: World, posted: bool, w': World)
    requires Inv(w) && Enabled(w, HookGo(posted)) && HookStep(w, posted, w')
    ensures Inv(w')
  {
    match w.hook
    case ReadRevoked(_, _, _) => DecideKeepsInv(w, posted, w');
    case Permits(_, _, _, _, _) =>
      CheckOutcome(w, posted, w');
      PermitsKeepsInv(w, w'.hook);
    case Reserve(_, _, _) => ReservingKeepsInv(w, posted, w');
    case Send(_, _, _) => SendKeepsInv(w, w');
    case Refuse(_, _, _) => RefuseKeepsInv(w, w');
    case Revoke(_, _, _) => RevokeKeepsInv(w, w');
    case ResetRevoke(_) => ResetRevokeKeepsInv(w, w');
    case Answered(_, _, _, _) => ReturnKeepsInv(w, w');
    case Undisturbed(_, _) => UndisturbedKeepsInv(w, w');
    case _ => NotifyKeepsInv(w, posted, w');
  }

  lemma StartKeepsInv(w: World, key: Key, perm: Permissions)
    requires Inv(w) && w.hook.Idle?
    ensures Inv(w.(hook := ReadRevoked(key, perm, w.acknowledged)))
  {
    assert Counted(w.(hook := ReadRevoked(key, perm, w.acknowledged))) == Counted(w);
  }

  /** Between callbacks the machine may forget its gesture and change its flags. */
  lemma MachineChangeKeepsInv(w: World, m: Machine, hook: HookPc)
    requires Inv(w) && w.hook.Idle? && Shape(m) && GestureInv(m) && LogInv(m, Events(w.log))
    requires m.nextSession == w.machine.nextSession && (m.active.None? || m.active == w.machine.active)
    requires hook.Idle? || (hook.ResetRevoke? && hook.session <= m.nextSession)
    ensures Inv(w.(machine := m, hook := hook))
  {
    var w' := w.(machine := m, hook := hook);
    assert Counted(w') == Counted(w);
    assert Settled(w') == Settled(w) == |w.log|;
    assert KeptInv(w') by {
      assert Kept(w.log, |w.log|, w.machine.active, w.revoked);
      assert Kept(w.log, |w.log|, m.active, w.revoked);
    }
    assert MachineInv(w');
  }

  lemma ActivatedMachine(m: Machine, states: Option<seq<bool>>, log: seq<Event>)
    requires Shape(m) && GestureInv(m) && LogInv(m, log) && (states.Some? ==> |states.value| == |SEEDED|)
    ensures var reset := Reset(m).0;
            var m' := if states.Some? then Seed(reset, states.value, |SEEDED|) else reset;
            Shape(m') && GestureInv(m') && LogInv(m', log) && m'.nextSession == m.nextSession && m'.active.None?
  {
    if states.Some? {
      SeedKeepsGesture(Reset(m).0, states.value, |SEEDED|);
    }
  }

  lemma InjectedKeepsInv(w: World, key: Key)
    requires Inv(w) && w.hook.Idle?
    ensures Inv(w.(machine := ObserveInjected(w.machine, key)))
  {
    MachineChangeKeepsInv(w, ObserveInjected(w.machine, key), Idle);
  }

  lemma ActivateKeepsInv(w: World, states: Option<seq<bool>>, m: Machine)
    requires Inv(w) && w.hook.Idle? && (states.Some? ==> |states.value| == |SEEDED|)
    requires m == if states.Some? then Seed(Reset(w.machine).0, states.value, |SEEDED|) else Reset(w.machine).0
    ensures w.machine.active.Some? ==> Inv(w.(machine := m, hook := ResetRevoke(w.machine.active.value.session)))
    ensures w.machine.active.None? ==> Inv(w.(machine := m))
  {
    ActivatedMachine(w.machine, states, Events(w.log));
    if w.machine.active.Some? {
      MachineChangeKeepsInv(w, m, ResetRevoke(w.machine.active.value.session));
    } else {
      MachineChangeKeepsInv(w, m, Idle);
      assert w.(machine := m) == w.(machine := m, hook := Idle);
    }
  }

  lemma ReceiveKeepsInv(w: World, w': World)
    requires Inv(w) && w.ui.Draining? && |w.ui.events| < CAPACITY && w.channel != []
    requires w' == w.(channel := w.channel[1..], ui := Uncounted(w.ui.events, w.channel[0]))
    ensures Inv(w')
  {
    assert Counted(w') == Counted(w);
    assert UiEvents(w'.ui) + w'.channel == UiEvents(w.ui) + w.channel;
  }

  lemma UncountKeepsInv(w: World, w': World)
    requires Inv(w) && w.ui.Uncounted? && w.queued > 0
    requires w' == w.(queued := w.queued - 1, ui := Draining(w.ui.events + [w.ui.hand]))
    ensures Inv(w')
  {
    assert Counted(w') == Counted(w)[1..];
    assert UiEvents(w'.ui) == UiEvents(w.ui);
  }

  lemma SameEventsKeepInv(w: World, ui: UiPc, notified: bool)
    requires Inv(w) && UiEvents(ui) == UiEvents(w.ui) && !w.ui.Uncounted? && !ui.Uncounted?
    requires ui.Draining? ==> ui.events == []
    ensures Inv(w.(ui := ui, notified := notified))
  {
    assert Counted(w.(ui := ui, notified := notified)) == Counted(w);
  }

  lemma DrainKeepsInv(w: World, move: Move, w': World)
    requires Inv(w) && Enabled(w, move) && Step(w, move, w')
    requires move.UiStart? || move.UiReceive? || move.UiUncount? || move.UiStop?
    ensures Inv(w')
  {
    match move
    case UiReceive => ReceiveKeepsInv(w, w');
    case UiUncount => UncountKeepsInv(w, w');
    case _ => SameEventsKeepInv(w, w'.ui, w'.notified);
  }

  /** The UI is done with one event: applied if nothing of its session was skipped before. */
  lemma HandledKeepsInv(w: World, h: Handled, w': World)
    requires Inv(w) && w' == w.(processed := w.processed + [h], acknowledged := w'.acknowledged, ui := w'.ui)
    requires w.ui.Deciding? || w.ui.Skipping?
    requires UiEvents(w.ui) == [h.event] + UiEvents(w'.ui) && w'.ui.Deciding?
    requires w.acknowledged <= w'.acknowledged <= Max(w.acknowledged, h.event.session)
    requires if h.applied then h.event.session > w.acknowledged else h.event.session <= w'.acknowledged
    ensures Inv(w')
  {
    TakenIsIssued(w, h.event);
    assert Counted(w') == Counted(w);
    assert HandledEvents(w'.processed) == HandledEvents(w.processed) + [h.event];
    assert SkipInv(w') by {
      forall i | 0 <= i < |w.processed| && !w.processed[i].applied
        ensures w.processed[i].event.session <= w.acknowledged
      {
        assert w.processed[i] in w.processed;
      }
    }
  }

  lemma ApplyKeepsInv(w: World)
    requires Inv(w) && w.ui.Deciding? && w.ui.events != [] && Permitted(w, w.ui.events[0].session)
    ensures Inv(w.(processed := w.processed + [Handled(w.ui.events[0], true)], ui := Deciding(w.ui.events[1..])))
  {
    HandledKeepsInv(w, Handled(w.ui.events[0], true),
                    w.(processed := w.processed + [Handled(w.ui.events[0], true)], ui := Deciding(w.ui.events[1..])));
  }

  lemma SkipKeepsInv(w: World, w': World)
    requires Inv(w) && w.ui.Skipping?
    requires w' == w.(acknowledged := Max(w.acknowledged, w.ui.skipped.session),
                      processed := w.processed + [Handled(w.ui.skipped, false)], ui := Deciding(w.ui.events))
    ensures Inv(w')
  {
    HandledKeepsInv(w, Handled(w.ui.skipped, false), w');
  }

  lemma UiDecideKeepsInv(w: World, discard: bool, w': World)
    requires Inv(w) && w.ui.Deciding? && Step(w, UiDecide(discard), w')
    ensures Inv(w')
  {
    if w.ui.events == [] {
      SameEventsKeepInv(w, Resting, w.notified);
    } else if !discard && Permitted(w, w.ui.events[0].session) {
      ApplyKeepsInv(w);
    } else {
      SameEventsKeepInv(w, Skipping(w.ui.events[1..], w.ui.events[0]), w.notified);
    }
  }

  lemma AcknowledgeKeepsInv(w: World, session: nat)
    requires Inv(w) && session <= w.machine.nextSession
    ensures Inv(w.(acknowledged := Max(w.acknowledged, session)))
  {
    assert Counted(w.(acknowledged := Max(w.acknowledged, session))) == Counted(w);
  }

  lemma CancelKeepsInv(w: World, session: nat)
    requires Inv(w) && session <= w.machine.nextSession
    ensures Inv(w.(revoked := Max(w.revoked, session)))
  {
    assert Counted(w.(revoked := Max(w.revoked, session))) == Counted(w);
  }

  lemma FlagsKeepInv(w: World, paused: bool, live: bool)
    requires Inv(w)
    ensures Inv(w.(paused := paused, live := live))
  {
    assert Counted(w.(paused := paused, live := live)) == Counted(w);
  }

  lemma UiCountersKeepInv(w: World, move: Move, w': World)
    requires Inv(w) && Enabled(w, move) && Step(w, move, w')
    requires move.UiAcknowledge? || move.UiCancel? || move.UiPause? || move.UiClose?
    ensures Inv(w')
  {
    match move
    case UiAcknowledge(session) =>
      SeenIsIssued(w, session);
      AcknowledgeKeepsInv(w, session);
    case UiCancel(session) =>
      SeenIsIssued(w, session);
      CancelKeepsInv(w, session);
    case _ => FlagsKeepInv(w, w'.paused, w'.live);
  }

  lemma MoveKeepsInv(w: World, move: Move, w': World)
    requires Inv(w) && Enabled(w, move) && Step(w, move, w')
    ensures Inv(w')
  {
    if move.HookGo? {
      HookGoKeepsInv(w, move.posted, w');
    } else if move.HookStart? {
      StartKeepsInv(w, move.key, move.perm);
    } else if move.HookInjected? {
      InjectedKeepsInv(w, move.key);
    } else if move.HookActivate? {
      ActivateKeepsInv(w, move.states, w'.machine);
    } else if move.UiStart? || move.UiReceive? || move.UiUncount? || move.UiStop? {
      DrainKeepsInv(w, move, w');
    } else if move.UiDecide? {
      UiDecideKeepsInv(w, move.discard, w');
    } else if move.UiSkip? {
      SkipKeepsInv(w, w');
    } else {
      UiCountersKeepInv(w, move, w');
    }
  }

  lemma {:induction false} EveryRunKeepsInv(hotkeys: seq<Hotkey>, run: seq<World>, n: nat)
    requires (forall k <- hotkeys :: Parsed(k)) && IsRun(hotkeys, run) && n < |run|
    ensures Inv(run[n])
  {
    if n == 0 {
      InitInv(hotkeys);
    } else {
      EveryRunKeepsInv(hotkeys, run, n - 1);
      assert Next(run[n - 1], run[n - 1 + 1]);
      var move :| Enabled(run[n - 1], move) && Step(run[n - 1], move, run[n]);
      MoveKeepsInv(run[n - 1], move, run[n]);
    }
  }

  // ---- Main results ------------------------------------------------------

  /** In every interleaving the queue count is what is in the channel, in the UI's hand and
      reserved, and never exceeds the capacity: a reserved send always finds room. */
  lemma SendAlwaysFindsRoom(hotkeys: seq<Hotkey>, run: seq<World>, n: nat)
    requires (forall k <- hotkeys :: Parsed(k)) && IsRun(hotkeys, run) && n < |run|
    ensures var w := run[n];
            && |w.channel| + |Reserved(w.hook)| <= w.queued <= CAPACITY
            && (w.hook.Send? ==> |w.channel| < CAPACITY)
            && !w.hook.Unreserve?
  {
    EveryRunKeepsInv(hotkeys, run, n);
  }

  lemma RefusedReservation(w: World, move: Move, w': World)
    requires Enabled(w, move) && Step(w, move, w') && w.hook.Reserve? && w'.hook.Refuse?
    ensures w.queued >= LimitFor(w.hook.e)
  {
  }

  /** An event that is not a cycle is refused for lack of space only when another event that is
      not a cycle already holds a slot. */
  lemma CyclesNeverCrowdOutAFinish(hotkeys: seq<Hotkey>, run: seq<World>, n: nat)
    requires (forall k <- hotkeys :: Parsed(k)) && IsRun(hotkeys, run) && n + 1 < |run|
    requires run[n].hook.Reserve? && !run[n].hook.e.action.Cycle? && run[n + 1].hook.Refuse?
    ensures exists e <- Counted(run[n]) :: !e.action.Cycle?
  {
    EveryRunKeepsInv(hotkeys, run, n);
    var w := run[n];
    assert Next(w, run[n + 1]);
    var move :| Enabled(w, move) && Step(w, move, run[n + 1]);
    RefusedReservation(w, move, run[n + 1]);
    assert Counted(w)[CAPACITY - 1] in Counted(w);
  }

  /** In every interleaving: whatever was sent is handled once and in the order sent. */
  lemma DeliveryIsOrdered(hotkeys: seq<Hotkey>, run: seq<World>, n: nat)
    requires (forall k <- hotkeys :: Parsed(k)) && IsRun(hotkeys, run) && n < |run|
    ensures SentEvents(run[n].log) == HandledEvents(run[n].processed) + UiEvents(run[n].ui) + run[n].channel
  {
    EveryRunKeepsInv(hotkeys, run, n);
  }

  /** Every event that submission refused leaves its session revoked; and so does every event that
      was not sent, once the hook thread is done with it. */
  lemma RefusedIsRevoked(hotkeys: seq<Hotkey>, run: seq<World>, n: nat, i: nat)
    requires (forall k <- hotkeys :: Parsed(k)) && IsRun(hotkeys, run) && n < |run| && i < |run[n].log|
    ensures run[n].log[i].refused ==> run[n].log[i].event.session <= run[n].revoked
    ensures i < Settled(run[n]) && !run[n].log[i].sent ==> run[n].log[i].event.session <= run[n].revoked
  {
    EveryRunKeepsInv(hotkeys, run, n);
  }

  /** Only the last event of a session can be one that was not sent. */
  lemma OnlyTheLastIsUnsent(hotkeys: seq<Hotkey>, run: seq<World>, n: nat, i: nat, j: nat)
    requires (forall k <- hotkeys :: Parsed(k)) && IsRun(hotkeys, run) && n < |run|
    requires i < j < |run[n].log| && run[n].log[i].event.session == run[n].log[j].event.session != 0
    ensures run[n].log[i].sent
  {
    EveryRunKeepsInv(hotkeys, run, n);
  }

  /** No session is acknowledged or revoked before it is issued. */
  lemma CountersFollowSessions(hotkeys: seq<Hotkey>, run: seq<World>, n: nat)
    requires (forall k <- hotkeys :: Parsed(k)) && IsRun(hotkeys, run) && n < |run|
    ensures run[n].acknowledged <= run[n].machine.nextSession && run[n].revoked <= run[n].machine.nextSession
  {
    EveryRunKeepsInv(hotkeys, run, n);
  }

  /** The events of one session, in order. */
  function OfSession(events: seq<Event>, session: nat): seq<Event> {
    if events == [] then []
    else
      var e := events[|events| - 1];
      OfSession(events[..|events| - 1], session) + if e.session == session then [e] else []
  }

  /** What the machine emitted for a session. */
  function Emitted(log: seq<Entry>, session: nat): seq<Event> {
    if log == [] then []
    else Emitted(log[..|log| - 1], session) + if Last(log).event.session == session then [Last(log).event] else []
  }

  function Sent(log: seq<Entry>, session: nat): seq<Event> {
    if log == [] then []
    else Sent(log[..|log| - 1], session)
         + if Last(log).event.session == session && Last(log).sent then [Last(log).event] else []
  }

  /** What the UI handled, and what it applied, of a session. */
  function HandledOf(processed: seq<Handled>, session: nat): seq<Event> {
    if processed == [] then []
    else
      var h := processed[|processed| - 1];
      HandledOf(processed[..|processed| - 1], session) + if h.event.session == session then [h.event] else []
  }

  function Applied(processed: seq<Handled>, session: nat): seq<Event> {
    if processed == [] then []
    else
      var h := processed[|processed| - 1];
      Applied(processed[..|processed| - 1], session)
      + if h.event.session == session && h.applied then [h.event] else []
  }

  lemma OfSessionAppend(events: seq<Event>, e: Event, session: nat)
    ensures OfSession(events + [e], session) == OfSession(events, session) + if e.session == session then [e] else []
  {
    assert (events + [e])[..|events|] == events;
  }

  lemma {:induction false} OfSessionPrefix(a: seq<Event>, b: seq<Event>, session: nat)
    ensures OfSession(a, session) <= OfSession(a + b, session)
  {
    if b == [] {
      assert a + b == a;
    } else {
      var init, e := b[..|b| - 1], b[|b| - 1];
      OfSessionPrefix(a, init, session);
      assert a + b == (a + init) + [e];
      OfSessionAppend(a + init, e, session);
    }
  }

  lemma {:induction false} SentOfSession(log: seq<Entry>, session: nat)
    ensures OfSession(SentEvents(log), session) == Sent(log, session)
  {
    if log != [] {
      SentOfSession(log[..|log| - 1], session);
      OfSessionAppend(SentEvents(log[..|log| - 1]), Last(log).event, session);
      assert SentEvents(log[..|log| - 1]) + [] == SentEvents(log[..|log| - 1]);
    }
  }

  lemma {:induction false} HandledOfSession(processed: seq<Handled>, session: nat)
    ensures OfSession(HandledEvents(processed), session) == HandledOf(processed, session)
  {
    if processed != [] {
      var init, h := processed[..|processed| - 1], processed[|processed| - 1];
      HandledOfSession(init, session);
      assert HandledEvents(processed) == HandledEvents(init) + [h.event];
      OfSessionAppend(HandledEvents(init), h.event, session);
    }
  }

  /** If only a session's last event may be unsent, what was sent of it is a prefix. */
  lemma {:induction false} SentIsPrefix(log: seq<Entry>, session: nat)
    requires session != 0
    requires forall i, j :: 0 <= i < j < |log| && log[i].event.session == log[j].event.session != 0 ==> log[i].sent
    ensures Sent(log, session) <= Emitted(log, session)
    ensures (forall i :: 0 <= i < |log| && log[i].event.session == session ==> log[i].sent) ==>
              Sent(log, session) == Emitted(log, session)
  {
    if log != [] {
      SentIsPrefix(log[..|log| - 1], session);
    }
  }

  /** If nothing is applied after a skipped event, what was applied of a session is a prefix. */
  lemma {:induction false} AppliedIsPrefix(processed: seq<Handled>, session: nat)
    requires forall i, j :: 0 <= i < j < |processed| && processed[i].event.session == processed[j].event.session ==>
               processed[j].applied ==> processed[i].applied
    ensures Applied(processed, session) <= HandledOf(processed, session)
    ensures (forall i :: 0 <= i < |processed| && processed[i].event.session == session ==> processed[i].applied) ==>
              Applied(processed, session) == HandledOf(processed, session)
  {
    if processed != [] {
      AppliedIsPrefix(processed[..|processed| - 1], session);
    }
  }

  /** End to end, in every interleaving: what the UI applies of a session is a prefix of what
      the keyboard machine emitted for it. No event is lost in the middle, repeated or reordered. */
  lemma AppliedIsPrefixOfEmitted(hotkeys: seq<Hotkey>, run: seq<World>, n: nat, session: nat)
    requires (forall k <- hotkeys :: Parsed(k)) && IsRun(hotkeys, run) && n < |run| && session != 0
    ensures Applied(run[n].processed, session) <= Emitted(run[n].log, session)
  {
    EveryRunKeepsInv(hotkeys, run, n);
    var w := run[n];
    HandledFirst(HandledEvents(w.processed), UiEvents(w.ui), w.channel);
    PrefixOfEmitted(w.log, w.processed, UiEvents(w.ui) + w.channel, session);
  }

  lemma HandledFirst(a: seq<Event>, b: seq<Event>, c: seq<Event>)
    ensures a + b + c == a + (b + c)
  {
  }

  lemma PrefixOfEmitted(log: seq<Entry>, processed: seq<Handled>, rest: seq<Event>, session: nat)
    requires session != 0 && SentEvents(log) == HandledEvents(processed) + rest
    requires forall i, j :: 0 <= i < j < |log| && log[i].event.session == log[j].event.session != 0 ==> log[i].sent
    requires forall i, j :: 0 <= i < j < |processed| && processed[i].event.session == processed[j].event.session ==>
               processed[j].applied ==> processed[i].applied
    ensures Applied(processed, session) <= Emitted(log, session)
  {
    SentIsPrefix(log, session);
    SentOfSession(log, session);
    AppliedIsPrefix(processed, session);
    HandledOfSession(processed, session);
    OfSessionPrefix(HandledEvents(processed), rest, session);
  }

  lemma {:induction false} EndIsLast(log: seq<Entry>, session: nat, k: nat)
    requires forall i, j :: 0 <= i < j < |log| && log[i].event.session == log[j].event.session != 0 ==>
               !Terminal(log[i].event.action)
    requires session != 0 && k < |Emitted(log, session)|
    ensures exists i :: 0 <= i < |log| && log[i].event == Emitted(log, session)[k] && log[i].event.session == session
    ensures Terminal(Emitted(log, session)[k].action) ==> k == |Emitted(log, session)| - 1
  {
    var init := log[..|log| - 1];
    if k < |Emitted(init, session)| {
      EndIsLast(init, session, k);
      var i :| 0 <= i < |init| && init[i].event == Emitted(init, session)[k] && init[i].event.session == session;
      assert log[i] == init[i];
    }
  }

  /** So a Finish that the UI applies stands on the whole gesture: every event that the machine
      emitted for that session has been applied, the Finish last. */
  lemma AnAppliedFinishCompletesTheSession(hotkeys: seq<Hotkey>, run: seq<World>, n: nat, session: nat, k: nat)
    requires (forall h <- hotkeys :: Parsed(h)) && IsRun(hotkeys, run) && n < |run| && session != 0
    requires k < |Applied(run[n].processed, session)| && Applied(run[n].processed, session)[k].action.Finish?
    ensures Applied(run[n].processed, session) == Emitted(run[n].log, session)
  {
    EveryRunKeepsInv(hotkeys, run, n);
    AppliedIsPrefixOfEmitted(hotkeys, run, n, session);
    var log := run[n].log;
    forall i, j | 0 <= i < j < |log| && log[i].event.session == log[j].event.session != 0
      ensures !Terminal(log[i].event.action)
    {
      assert Events(log)[i].session == Events(log)[j].session;
    }
    EndIsLast(log, session, k);
  }
}
