/**
 Histories of hook callbacks: what holds of the events the keyboard machine
 emits and of the key releases it swallows, over every run.

 A run is any sequence of callbacks and activation changes. Nothing is assumed
 about permissions or about which events the dispatch queue accepts; of the two
 counters a callback reads it is assumed only that no session has been
 acknowledged or revoked before it was issued, which InputProtocol.dfy proves.
 */
module KeyboardHistory {
  import opened Wrappers
  import opened KeyboardState

  /** A callback while the hook handles keys; one for an injected key that is let through; one while the hook is
      inactive, stopped or without its window; a change of activation, with what the system reports of the
      modifiers when it is on; and the end, when the listener stops or the window goes. */
  datatype HookInput =
    | OnKey(key: Key, perm: Permissions, acknowledged: nat, revoked: nat, submitted: bool)
    | OnInjected(key: Key)
    | OnInactive(key: Key)
    | OnActivation(states: Option<seq<bool>>)
    | OnStop

  /** The machine, whether the hook is active or has stopped, every event emitted, and for each key whether its
      most recent press was swallowed (`lastPress`), whether that press still awaits a swallowed
      release (`owed`), and whether it came after the last change of activation or the end (`recent`).
      Injected keys are not the user's, and are not recorded. */
  datatype History = History(
    machine: Machine, active: bool, stopped: bool, log: seq<Event>, lastPress: seq<bool>, owed: seq<bool>, recent: seq<bool>)

  function Start(hotkeys: seq<Hotkey>): History {
    History(Initial(hotkeys), true, false, [], NoKeys(), NoKeys(), NoKeys())
  }

  predicate Wide(h: History) {
    Shape(h.machine) && |h.lastPress| == |h.owed| == |h.recent| == KEYS
  }

  /** What the system sees of one callback: the key goes down or up, and is swallowed or not. */
  function Watch(h: History, key: Key, swallowed: bool): (r: History)
    requires Wide(h)
  {
    match key.Index()
    case None => h
    case Some(i) =>
      if key.down then
        h.(lastPress := h.lastPress[i := swallowed], owed := h.owed[i := swallowed], recent := h.recent[i := true])
      else if swallowed then h.(owed := h.owed[i := false])
      else h
  }

  function Step(h: History, input: HookInput): (r: History)
    requires Wide(h) && (input.OnActivation? && input.states.Some? ==> |input.states.value| == |SEEDED|)
    ensures Wide(r)
  {
    match input
    case OnKey(key, perm, acknowledged, revoked, submitted) =>
      var (m, swallowed) := Process(h.machine, key, perm, acknowledged, revoked, submitted);
      var event := Handle(h.machine, key, perm, acknowledged, revoked).1.event;
      HandleKeepsShape(h.machine, key, perm, acknowledged, revoked);
      Watch(h, key, swallowed).(machine := m, log := if event.Some? then h.log + [event.value] else h.log)
    case OnInjected(key) => h.(machine := ObserveInjected(h.machine, key))
    case OnInactive(key) => Watch(h, key, false)
    case OnActivation(states) =>
      var m := Reset(h.machine).0;
      h.(machine := if states.Some? then Seed(m, states.value, |SEEDED|) else m,
         active := states.Some?, recent := NoKeys())
    case OnStop => h.(stopped := true, recent := NoKeys())
  }

  predicate Possible(h: History, input: HookInput) {
    match input
    case OnKey(_, _, acknowledged, revoked, _) =>
      h.active && !h.stopped && acknowledged <= h.machine.nextSession && revoked <= h.machine.nextSession
    case OnInjected(_) => h.active && !h.stopped
    case OnInactive(_) => !h.active || h.stopped
    case OnActivation(states) => states.Some? ==> |states.value| == |SEEDED|
    case OnStop => true
  }

  ghost predicate Reaches(hotkeys: seq<Hotkey>, inputs: seq<HookInput>, h: History)
    decreases |inputs|
  {
    if inputs == [] then h == Start(hotkeys)
    else
      var last := |inputs| - 1;
      exists before: History ::
        && Reaches(hotkeys, inputs[..last], before) && Wide(before) && Possible(before, inputs[last])
        && h == Step(before, inputs[last])
  }

  // ---- The invariant -----------------------------------------------------

  predicate Terminal(a: Action) {
    a.Finish? || a.Cancel?
  }

  /** The kind of the last Cycle event of a session. */
  function LastCycle(log: seq<Event>, session: nat): Option<SwitchKind> {
    if log == [] then None
    else
      var e := log[|log| - 1];
      if e.session == session && e.action.Cycle? then Some(e.action.kind) else LastCycle(log[..|log| - 1], session)
  }

  /** A live gesture is the newest session, its modifier is one a hotkey can have, and
      unless it is sticky or finishing one side of that modifier is held. */
  predicate GestureInv(m: Machine)
    requires Shape(m)
  {
    && (forall h <- m.hotkeys :: Parsed(h))
    && (m.active.Some? ==>
          var g := m.active.value;
          && 1 <= g.session == m.nextSession
          && (g.modifier == 0x38 || g.modifier == 0x1d || g.modifier == 0x5b)
          && (g.kind == Search ==> g.sticky)
          && (!g.sticky && !g.finishing ==> ModifierPressed(m.pressed, g.modifier)))
  }

  /** The events of each session: numbered in order, nothing after the end, and each end of
      the kind last cycled. */
  predicate LogInv(m: Machine, log: seq<Event>) {
    && (forall e <- log :: e.session <= m.nextSession && (e.session == 0 <==> e.action.TogglePause?))
    && (forall i, j :: 0 <= i < j < |log| && log[i].session == log[j].session != 0 ==> !Terminal(log[i].action))
    && (forall i, j :: 0 <= i < j < |log| && log[j].session != 0 ==> log[i].session <= log[j].session)
    && (forall j :: 0 <= j < |log| && log[j].action.Finish? ==>
          LastCycle(log[..j], log[j].session) == Some(log[j].action.finished))
    && (m.active.Some? && !m.active.value.finishing ==>
          && LastCycle(log, m.active.value.session) == Some(m.active.value.kind)
          && (forall e <- log :: e.session == m.active.value.session ==> !Terminal(e.action)))
  }

  /** Until the end the machine's own record of swallowed presses is the true one, as far back as the last
      change of activation. */
  predicate SwallowInv(h: History)
    requires Wide(h)
  {
    && (forall i :: 0 <= i < KEYS ==> (h.owed[i] && h.recent[i]) == (h.machine.consumed[i] && !h.stopped))
    && (!h.active ==> forall i :: 0 <= i < KEYS ==> !h.machine.consumed[i])
    && (forall i :: 0 <= i < KEYS && h.owed[i] ==> h.lastPress[i])
    && (forall i :: 0 <= i < KEYS && IsModifierScan(i % 256) ==> !h.owed[i])
  }

  predicate Inv(h: History) {
    Wide(h) && GestureInv(h.machine) && LogInv(h.machine, h.log) && SwallowInv(h)
  }

  // ---- One callback ------------------------------------------------------

  lemma {:induction false} FirstMatchIsListed(m: Machine, key: Key, perm: Permissions, from: nat)
    requires Shape(m) && from <= |m.hotkeys|
    ensures var r := FirstMatch(m, key, perm, from);
            r.Some? ==> r.value in m.hotkeys && HotkeyAllowed(r.value, perm) && MatchesHotkey(m, r.value, key)
    decreases |m.hotkeys| - from
  {
    if from < |m.hotkeys| {
      FirstMatchIsListed(m, key, perm, from + 1);
    }
  }

  /** How an emitted event relates to the gesture before and after it. */
  predicate Emits(m: Machine, m': Machine, e: Event) {
    if e.session == 0 then
      e.action.TogglePause? && m'.nextSession == m.nextSession && (m'.active.None? || m'.active == m.active)
    else
      && !e.action.TogglePause? && m'.active.Some?
      && var g' := m'.active.value;
      && e.session == g'.session
      && (if m'.nextSession == m.nextSession then
            && m.active.Some? && m.active.value.session == e.session && !m.active.value.finishing
            && (e.action.ShowDetails? ==> g'.kind == m.active.value.kind)
            && (e.action.Finish? ==> e.action.finished == m.active.value.kind)
          else e.session == m'.nextSession == m.nextSession + 1 && e.action.Cycle?)
      && (e.action.Cycle? ==> g'.kind == e.action.kind)
      && (Terminal(e.action) ==> g'.finishing)
  }

  /** What a decision does to the gesture, whether or not it emits an event. */
  predicate Decides(m: Machine, m': Machine, d: Decision) {
    && Shape(m') && GestureInv(m')
    && (match d.event
        case None => m'.nextSession == m.nextSession
                     && (m'.active.None? || (m.active.Some? && m'.active.value.session == m.active.value.session
                                             && m'.active.value.kind == m.active.value.kind
                                             && m'.active.value.finishing == m.active.value.finishing))
        case Some(e) => Emits(m, m', e))
  }

  lemma TriggerDecides(o: Machine, h: Hotkey)
    requires Shape(o) && GestureInv(o) && (o.active.Some? ==> !o.active.value.finishing)
    requires Parsed(h) && ModifierPressed(o.pressed, h.modifier)
    ensures var (m', d) := Trigger(o, h); Decides(o, m', d)
  {
  }

  lemma NavigateDecides(o: Machine, key: Key, perm: Permissions)
    requires Shape(o) && GestureInv(o) && (o.active.Some? ==> !o.active.value.finishing)
    ensures var (m', d) := Navigate(o, key, perm); Decides(o, m', d)
  {
  }

  /** No hotkey's main key is a modifier. */
  lemma ModifiersAreNotMainKeys(m: Machine, id: nat, key: Key)
    requires Shape(m) && GestureInv(m) && IsModifierScan(key.scan)
    ensures !AnyCode(m, id, key.scan) && !AnyMatch(m, id, key)
  {
    assert forall k :: 0 <= k < |m.hotkeys| ==> Parsed(m.hotkeys[k]);
  }

  lemma PressDecides(o: Machine, i: nat, key: Key, repeated: bool, perm: Permissions)
    requires Shape(o) && GestureInv(o) && (o.active.Some? ==> !o.active.value.finishing) && i < KEYS
    ensures var (m', d) := Press(o, i, key, repeated, perm);
            && Decides(o, m', d) && m'.consumed == o.consumed
            && (IsModifierScan(key.scan) ==> !d.consume)
  {
    if IsModifierScan(key.scan) {
      ModifiersAreNotMainKeys(o, DETAILS_HOTKEY_ID, key);
    }
    FirstMatchIsListed(o, key, perm, 0);
    var r := FirstMatch(o, key, perm, 0);
    if r.Some? {
      TriggerDecides(o, r.value);
    } else {
      NavigateDecides(o, key, perm);
    }
  }

  /** Recording a key drops a gesture no longer current and keeps the rest of the gesture. */
  lemma ObservedKeepsGesture(m: Machine, i: nat, down: bool, acknowledged: nat, revoked: nat)
    requires Shape(m) && GestureInv(m) && i < KEYS
    ensures var o := Observed(m, i, down, acknowledged, revoked);
            && Shape(o) && (!ModifierReleased(o) ==> GestureInv(o)) && (down ==> GestureInv(o))
            && (o.active.Some? ==> GestureInv(Finishing(o)))
  {
  }

  lemma HandleDecides(m: Machine, key: Key, perm: Permissions, acknowledged: nat, revoked: nat)
    requires Shape(m) && GestureInv(m)
    requires acknowledged <= m.nextSession && revoked <= m.nextSession
    ensures var (m', d) := Handle(m, key, perm, acknowledged, revoked);
            && Decides(m, m', d)
            && (d.event.Some? && d.event.value.session != 0 ==>
                  d.event.value.session > acknowledged && d.event.value.session > revoked)
  {
    var i := key.Index();
    if i.Some? {
      var o := Observed(m, i.value, key.down, acknowledged, revoked);
      ObservedKeepsGesture(m, i.value, key.down, acknowledged, revoked);
      if key.down && !LostPermission(o, perm) && !ModifierReleased(o)
         && !(o.active.Some? && o.active.value.finishing) {
        PressDecides(o, i.value, key, m.pressed[i.value], perm);
      }
    }
  }

  lemma LastCycleAppend(log: seq<Event>, e: Event, session: nat)
    ensures LastCycle(log + [e], session)
         == if e.session == session && e.action.Cycle? then Some(e.action.kind) else LastCycle(log, session)
  {
    assert (log + [e])[..|log|] == log;
  }

  lemma {:induction false} NoCycleOfUnseen(log: seq<Event>, session: nat)
    requires forall e <- log :: e.session != session
    ensures LastCycle(log, session).None?
  {
    if log != [] {
      NoCycleOfUnseen(log[..|log| - 1], session);
    }
  }

  lemma FinishesAppend(log: seq<Event>, e: Event)
    requires forall j :: 0 <= j < |log| && log[j].action.Finish? ==>
               LastCycle(log[..j], log[j].session) == Some(log[j].action.finished)
    requires e.action.Finish? ==> LastCycle(log, e.session) == Some(e.action.finished)
    ensures var longer := log + [e];
      forall j :: 0 <= j < |longer| && longer[j].action.Finish? ==>
        LastCycle(longer[..j], longer[j].session) == Some(longer[j].action.finished)
  {
    var longer := log + [e];
    forall j | 0 <= j < |longer| && longer[j].action.Finish?
      ensures LastCycle(longer[..j], longer[j].session) == Some(longer[j].action.finished)
    {
      assert longer[..j] == log[..j];
      assert log[..|log|] == log;
    }
  }

  lemma EmissionKeepsLog(m: Machine, m': Machine, log: seq<Event>, e: Event)
    requires Shape(m) && GestureInv(m) && LogInv(m, log) && Emits(m, m', e)
    ensures LogInv(m', log + [e])
  {
    LastCycleAppend(log, e, e.session);
    if m'.active.Some? {
      LastCycleAppend(log, e, m'.active.value.session);
    }
    FinishesAppend(log, e);
  }

  lemma HandleKeepsConsumed(m: Machine, key: Key, perm: Permissions, acknowledged: nat, revoked: nat)
    requires Shape(m) && GestureInv(m)
    requires acknowledged <= m.nextSession && revoked <= m.nextSession
    ensures var (m', d) := Handle(m, key, perm, acknowledged, revoked);
            && (key.down || key.Index().None? ==> m'.consumed == m.consumed)
            && (key.down && IsModifierScan(key.scan) ==> !d.consume)
            && (!key.down && key.Index().Some? && d.event.None? ==>
                  d.consume == m.consumed[key.Index().value]
                  && m'.consumed == m.consumed[key.Index().value := false])
            && (!key.down && d.event.Some? ==> !d.consume && m'.consumed == m.consumed)
  {
    var i := key.Index();
    if i.Some? {
      var o := Observed(m, i.value, key.down, acknowledged, revoked);
      ObservedKeepsGesture(m, i.value, key.down, acknowledged, revoked);
      if key.down && IsModifierScan(key.scan) {
        ModifiersAreNotMainKeys(o, PAUSE_HOTKEY_ID, key);
      }
      if key.down && !LostPermission(o, perm) && !ModifierReleased(o)
         && !(o.active.Some? && o.active.value.finishing) {
        PressDecides(o, i.value, key, m.pressed[i.value], perm);
      }
    }
  }

  /** The record of swallowed presses stays true whatever the dispatch queue answered. */
  lemma WatchKeepsSwallow(h: History, key: Key, m': Machine, swallowed: bool)
    requires Wide(h) && SwallowInv(h) && h.active && !h.stopped && Shape(m')
    requires var i := key.Index();
             m'.consumed == if i.None? then h.machine.consumed
                            else if key.down then h.machine.consumed[i.value := swallowed]
                            else if swallowed then h.machine.consumed[i.value := false]
                            else h.machine.consumed
    requires key.down && IsModifierScan(key.scan) ==> !swallowed
    requires key.Index().Some? && !key.down && swallowed ==> h.owed[key.Index().value]
    ensures var h' := Watch(h, key, swallowed).(machine := m'); Wide(h') && SwallowInv(h')
  {
  }

  /** What a callback makes of the machine's record of swallowed presses. */
  lemma ProcessedConsumed(m: Machine, key: Key, perm: Permissions, acknowledged: nat, revoked: nat, submitted: bool)
    requires Shape(m) && GestureInv(m) && acknowledged <= m.nextSession && revoked <= m.nextSession
    ensures var (m', swallowed) := Process(m, key, perm, acknowledged, revoked, submitted);
            var i := key.Index();
            && Shape(m')
            && (key.down && IsModifierScan(key.scan) ==> !swallowed)
            && (i.Some? && !key.down && swallowed ==> m.consumed[i.value])
            && m'.consumed == if i.None? then m.consumed
                              else if key.down then m.consumed[i.value := swallowed]
                              else if swallowed then m.consumed[i.value := false]
                              else m.consumed
  {
    HandleDecides(m, key, perm, acknowledged, revoked);
    HandleKeepsConsumed(m, key, perm, acknowledged, revoked);
    var i := key.Index();
    assert i.Some? && !m.consumed[i.value] ==> m.consumed[i.value := false] == m.consumed;
  }

  lemma RecordedMachine(m: Machine, m': Machine, log: seq<Event>)
    requires Shape(m) && GestureInv(m) && LogInv(m, log) && |m'.consumed| == KEYS
    requires m' == m.(consumed := m'.consumed, active := m'.active)
    requires m'.active.None? || m'.active == m.active
    ensures Shape(m') && GestureInv(m') && LogInv(m', log)
  {
  }

  /** What a callback makes of the gesture and the log. */
  lemma ProcessedLog(m: Machine, log: seq<Event>, key: Key, perm: Permissions, acknowledged: nat, revoked: nat, submitted: bool)
    requires Shape(m) && GestureInv(m) && LogInv(m, log) && acknowledged <= m.nextSession && revoked <= m.nextSession
    ensures var m' := Process(m, key, perm, acknowledged, revoked, submitted).0;
            var event := Handle(m, key, perm, acknowledged, revoked).1.event;
            Shape(m') && GestureInv(m') && LogInv(m', if event.Some? then log + [event.value] else log)
  {
    var (decided, d) := Handle(m, key, perm, acknowledged, revoked);
    var m' := Process(m, key, perm, acknowledged, revoked, submitted).0;
    HandleDecides(m, key, perm, acknowledged, revoked);
    if d.event.Some? {
      EmissionKeepsLog(m, decided, log, d.event.value);
    }
    RecordedMachine(decided, m', if d.event.Some? then log + [d.event.value] else log);
  }

  lemma KeyKeepsInv(h: History, key: Key, perm: Permissions, acknowledged: nat, revoked: nat, submitted: bool)
    requires Inv(h) && h.active && !h.stopped && acknowledged <= h.machine.nextSession && revoked <= h.machine.nextSession
    ensures Inv(Step(h, OnKey(key, perm, acknowledged, revoked, submitted)))
  {
    var (m', swallowed) := Process(h.machine, key, perm, acknowledged, revoked, submitted);
    ProcessedConsumed(h.machine, key, perm, acknowledged, revoked, submitted);
    ProcessedLog(h.machine, h.log, key, perm, acknowledged, revoked, submitted);
    WatchKeepsSwallow(h, key, m', swallowed);
  }

  lemma {:induction false} SeedKeepsGesture(m: Machine, states: seq<bool>, n: nat)
    requires Shape(m) && m.active.None? && |states| == |SEEDED| && n <= |SEEDED|
    ensures var s := Seed(m, states, n); s == m.(pressed := s.pressed)
  {
    if n > 0 {
      SeedKeepsGesture(m, states, n - 1);
    }
  }

  /** While the hook is inactive or stopped the machine holds nothing that a passed key could contradict. */
  lemma InactiveKeepsInv(h: History, key: Key)
    requires Inv(h) && (!h.active || h.stopped)
    ensures Inv(Watch(h, key, false))
  {
  }

  lemma StepKeepsInv(h: History, input: HookInput)
    requires Inv(h) && Possible(h, input)
    ensures Inv(Step(h, input))
  {
    match input
    case OnKey(key, perm, acknowledged, revoked, submitted) =>
      KeyKeepsInv(h, key, perm, acknowledged, revoked, submitted);
    case OnInjected(_) =>
    case OnInactive(key) => InactiveKeepsInv(h, key);
    case OnStop =>
    case OnActivation(states) =>
      if states.Some? {
        SeedKeepsGesture(Reset(h.machine).0, states.value, |SEEDED|);
      }
  }

  lemma {:induction false} EveryRunKeepsInv(hotkeys: seq<Hotkey>, inputs: seq<HookInput>, h: History)
    requires (forall k <- hotkeys :: Parsed(k)) && Reaches(hotkeys, inputs, h)
    ensures Inv(h)
    decreases |inputs|
  {
    if inputs != [] {
      var last := |inputs| - 1;
      var before: History :| Reaches(hotkeys, inputs[..last], before) && Wide(before)
                             && Possible(before, inputs[last]) && h == Step(before, inputs[last]);
      EveryRunKeepsInv(hotkeys, inputs[..last], before);
      StepKeepsInv(before, inputs[last]);
    }
  }

  // ---- Main results ------------------------------------------------------

  /** Over every run: a session has at most one end and nothing follows it, and sessions are
      numbered in the order they begin and never reused. */
  lemma SessionsAreOrderly(hotkeys: seq<Hotkey>, inputs: seq<HookInput>, h: History, i: nat, j: nat)
    requires (forall k <- hotkeys :: Parsed(k)) && Reaches(hotkeys, inputs, h)
    requires i < j < |h.log| && h.log[j].session != 0
    ensures h.log[i].session <= h.log[j].session
    ensures h.log[i].session == h.log[j].session ==> !Terminal(h.log[i].action)
  {
    EveryRunKeepsInv(hotkeys, inputs, h);
  }

  /** Over every run: every Finish comes after a Cycle of its session, and has the kind of the last one. */
  lemma FinishesFollowCycles(hotkeys: seq<Hotkey>, inputs: seq<HookInput>, h: History, j: nat)
    requires (forall k <- hotkeys :: Parsed(k)) && Reaches(hotkeys, inputs, h)
    requires j < |h.log| && h.log[j].action.Finish?
    ensures LastCycle(h.log[..j], h.log[j].session) == Some(h.log[j].action.finished)
  {
    EveryRunKeepsInv(hotkeys, inputs, h);
  }

  /** After every run, an event that a callback emits is of a session above both counters the
      callback read; when it starts a session, that session has never been seen before. */
  lemma EmittedEventsAreCurrent(hotkeys: seq<Hotkey>, inputs: seq<HookInput>, h: History, input: HookInput)
    requires (forall k <- hotkeys :: Parsed(k)) && Reaches(hotkeys, inputs, h)
    requires input.OnKey? && Possible(h, input)
    ensures Wide(h)
    ensures var h' := Step(h, input);
            |h'.log| > |h.log| && h'.log[|h.log|].session != 0 ==>
              var e := h'.log[|h.log|];
              && e.session > input.acknowledged && e.session > input.revoked
              && (e.session > h.machine.nextSession ==> e.action.Cycle? && forall x <- h.log :: x.session < e.session)
  {
    EveryRunKeepsInv(hotkeys, inputs, h);
    HandleDecides(h.machine, input.key, input.perm, input.acknowledged, input.revoked);
  }

  /** The key a callback is about, and what the callback answers. */
  function KeyOf(input: HookInput): Option<Key> {
    match input
    case OnKey(key, _, _, _, _) => Some(key)
    case OnInjected(key) => Some(key)
    case OnInactive(key) => Some(key)
    case _ => None
  }

  function Swallows(h: History, input: HookInput): bool
    requires Wide(h)
  {
    input.OnKey? && Process(h.machine, input.key, input.perm, input.acknowledged, input.revoked, input.submitted).1
  }

  /** The callback on which lost permission cancels the gesture. */
  predicate CancelsHere(h: History, input: HookInput, i: nat)
    requires Wide(h) && i < KEYS
  {
    input.OnKey? && LostPermission(Observed(h.machine, i, false, input.acknowledged, input.revoked), input.perm)
  }

  /** After every run, for every callback that is a release: if it is swallowed it answers a press that was
      swallowed; and it is swallowed exactly when a swallowed press of that key awaits a release, activation has
      not changed and the hook has not ended since that press, the release is not an injected one let through,
      and it is not the one event where lost permission cancels the gesture. */
  lemma ReleasesFollowPresses(hotkeys: seq<Hotkey>, inputs: seq<HookInput>, h: History, input: HookInput)
    requires (forall k <- hotkeys :: Parsed(k)) && Reaches(hotkeys, inputs, h) && Possible(h, input)
    requires KeyOf(input).Some? && !KeyOf(input).value.down && KeyOf(input).value.Index().Some?
    ensures Wide(h)
    ensures var i := KeyOf(input).value.Index().value;
      && (Swallows(h, input) ==> h.lastPress[i])
      && (Swallows(h, input) <==> h.owed[i] && h.recent[i] && !input.OnInjected? && !CancelsHere(h, input, i))
  {
    EveryRunKeepsInv(hotkeys, inputs, h);
    if input.OnKey? {
      KeyReleases(h, input);
    }
  }

  lemma KeyReleases(h: History, input: HookInput)
    requires Inv(h) && input.OnKey? && Possible(h, input) && !input.key.down && input.key.Index().Some?
    ensures Swallows(h, input) <==> h.machine.consumed[input.key.Index().value] && !CancelsHere(h, input, input.key.Index().value)
  {
    var i := input.key.Index().value;
    if ModifierReleased(Observed(h.machine, i, false, input.acknowledged, input.revoked)) {
      OnlyTheModifierReleases(h.machine, i, input.acknowledged, input.revoked);
    }
  }

  // ---- A release passed on after a rollback ------------------------------

  lemma ReachesNext(hotkeys: seq<Hotkey>, inputs: seq<HookInput>, h: History, input: HookInput)
    requires Reaches(hotkeys, inputs, h) && Wide(h) && Possible(h, input)
    ensures Reaches(hotkeys, inputs + [input], Step(h, input))
  {
    assert (inputs + [input])[..|inputs|] == inputs;
  }

  const ALT_TAB := Hotkey(SWITCH_APPS_HOTKEY_ID, 0x38, 0x0f)
  const ALT := Key(0x38, false, true)
  const TAB := Key(0x0f, false, true)
  const ALLOWED := Permissions(true, true, NoSurface)

  /** Alt goes down and is passed on. */
  lemma AltIsHeld() returns (h: History)
    ensures Reaches([ALT_TAB], [OnKey(ALT, ALLOWED, 0, 0, true)], h) && Wide(h) && h.active && !h.stopped
    ensures h.machine == Initial([ALT_TAB]).(pressed := NoKeys()[0x38 := true])
  {
    var input := OnKey(ALT, ALLOWED, 0, 0, true);
    var start := Start([ALT_TAB]);
    ReachesNext([ALT_TAB], [], start, input);
    assert [] + [input] == [input];
    h := Step(start, input);
    var o := Observed(start.machine, 0x38, true, 0, 0);
    assert FirstMatch(o, ALT, ALLOWED, 0).None?;
    assert h.machine.consumed == NoKeys();
  }

  lemma TabMatches(m: Machine)
    requires m == Initial([ALT_TAB]).(pressed := NoKeys()[0x38 := true])
    ensures FirstMatch(Observed(m, 0x0f, true, 0, 0), TAB, ALLOWED, 0) == Some(ALT_TAB)
  {
    assert MatchesHotkey(Observed(m, 0x0f, true, 0, 0), ALT_TAB, TAB);
  }

  /** Then Tab goes down and is swallowed: a gesture begins. */
  lemma TabIsSwallowed() returns (inputs: seq<HookInput>, h: History)
    ensures Reaches([ALT_TAB], inputs, h) && Wide(h) && h.active && !h.stopped && h.owed[0x0f]
  {
    h := AltIsHeld();
    var input := OnKey(TAB, ALLOWED, 0, 0, true);
    ReachesNext([ALT_TAB], [OnKey(ALT, ALLOWED, 0, 0, true)], h, input);
    inputs := [OnKey(ALT, ALLOWED, 0, 0, true)] + [input];
    TabMatches(h.machine);
    h := Step(h, input);
  }

  /** The activation exception is real: a handover that is rolled back while the keys are held
      leaves a swallowed press whose release is passed on, with every permission given. */
  lemma RollbackPassesARelease() returns (inputs: seq<HookInput>, h: History)
    ensures Reaches([ALT_TAB], inputs, h) && Wide(h) && h.owed[0x0f]
    ensures var release := OnKey(TAB.(down := false), ALLOWED, 0, 0, true);
      && Possible(h, release)
      && !CancelsHere(h, release, 0x0f) && !Swallows(h, release)
  {
    var before;
    inputs, before := TabIsSwallowed();
    var paused, held := Step(before, OnActivation(None)), [true, false, false, false, false, false, false, false];
    ReachesNext([ALT_TAB], inputs, before, OnActivation(None));
    ReachesNext([ALT_TAB], inputs + [OnActivation(None)], paused, OnActivation(Some(held)));
    inputs := inputs + [OnActivation(None)] + [OnActivation(Some(held))];
    h := Step(paused, OnActivation(Some(held)));
    SeedKeepsGesture(Reset(paused.machine).0, held, |SEEDED|);
    assert [ALT_TAB][0] == ALT_TAB;
    ReleasesFollowPresses([ALT_TAB], inputs, h, OnKey(TAB.(down := false), ALLOWED, 0, 0, true));
  }

  /** The gesture's modifier can only be lost by releasing one of its own sides, a key that is
      never swallowed. */
  lemma OnlyTheModifierReleases(m: Machine, i: nat, acknowledged: nat, revoked: nat)
    requires Shape(m) && GestureInv(m) && i < KEYS
    requires ModifierReleased(Observed(m, i, false, acknowledged, revoked))
    ensures IsModifierScan(i % 256)
  {
    assert i in Sides(m.active.value.modifier);
  }

  /** The sides of a modifier that are held. */
  function HeldSides(pressed: seq<bool>, modifier: nat): set<nat>
    requires |pressed| == KEYS
  {
    set i | i in Sides(modifier) && i < KEYS && pressed[i]
  }

  /** After every run, a live gesture that is neither sticky nor finishing and whose application
      is still allowed is finished by a key exactly when that key is the release of the only side
      of its modifier that is still held. */
  lemma FinishComesAtTheLastSide(hotkeys: seq<Hotkey>, inputs: seq<HookInput>, h: History, input: HookInput)
    requires (forall k <- hotkeys :: Parsed(k)) && Reaches(hotkeys, inputs, h)
    requires input.OnKey? && Possible(h, input) && input.key.Index().Some?
    requires h.machine.active.Some? && !h.machine.active.value.sticky && !h.machine.active.value.finishing
    requires !Stale(h.machine, input.acknowledged, input.revoked) && !LostPermission(h.machine, input.perm)
    ensures Wide(h)
    ensures var g := h.machine.active.value;
            var event := Handle(h.machine, input.key, input.perm, input.acknowledged, input.revoked).1.event;
            event == Some(Event(g.session, Finish(g.kind)))
            <==> !input.key.down && HeldSides(h.machine.pressed, g.modifier) == {input.key.Index().value}
  {
    EveryRunKeepsInv(hotkeys, inputs, h);
    var m := h.machine;
    var g := m.active.value;
    var i := input.key.Index().value;
    var o := Observed(m, i, input.key.down, input.acknowledged, input.revoked);
    LastSideReleased(m.pressed, g.modifier, i, input.key.down);
    ObservedKeepsGesture(m, i, input.key.down, input.acknowledged, input.revoked);
    if input.key.down {
      PressNeverFinishesUnlessSticky(o, i, input.key, m.pressed[i], input.perm);
    }
  }

  lemma PressNeverFinishesUnlessSticky(o: Machine, i: nat, key: Key, repeated: bool, perm: Permissions)
    requires Shape(o) && i < KEYS && o.active.Some? && !o.active.value.sticky
    ensures var d := Press(o, i, key, repeated, perm).1; d.event.Some? ==> !d.event.value.action.Finish?
  {
  }

  lemma LastSideReleased(pressed: seq<bool>, modifier: nat, i: nat, down: bool)
    requires |pressed| == KEYS && i < KEYS && ModifierPressed(pressed, modifier)
    ensures !ModifierPressed(pressed[i := down], modifier) <==> !down && HeldSides(pressed, modifier) == {i}
  {
    var after := pressed[i := down];
    HeldMeansASide(pressed, modifier);
    HeldMeansASide(after, modifier);
    assert HeldSides(after, modifier)
        == if down && i in Sides(modifier) then HeldSides(pressed, modifier) + {i}
           else if down then HeldSides(pressed, modifier)
           else HeldSides(pressed, modifier) - {i};
  }

  lemma HeldMeansASide(pressed: seq<bool>, modifier: nat)
    requires |pressed| == KEYS
    ensures ModifierPressed(pressed, modifier) <==> HeldSides(pressed, modifier) != {}
  {
    assert modifier == 0x38 || modifier == 0x1d ==> modifier in Sides(modifier) && modifier + 256 in Sides(modifier);
    assert modifier == 0x5b ==> 0x5b + 256 in Sides(modifier) && 0x5c + 256 in Sides(modifier);
    if ModifierPressed(pressed, modifier) {
      var i :| i in Sides(modifier) && i < KEYS && pressed[i];
      assert i in HeldSides(pressed, modifier);
    }
  }
}
