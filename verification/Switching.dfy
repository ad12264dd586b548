/**
 Switching between applications while snapshots arrive in the background
 (src/app/switching.rs, src/app/input.rs, src/app/coordinator.rs).

 The user's inputs and the worker's snapshots interleave in any order. The model covers one
 session of application switching: inputs queue until the first snapshot, later snapshots
 refresh the panel. `Walk` is what the user means: take the first list, walk it, choose.
 */
module Switching {
  import opened Arithmetic
  import opened Navigation
  import opened Wrappers

  // ---- Snapshots ---------------------------------------------------------

  datatype Window = Window(id: nat, minimized: bool)

  /** An application and its windows, most recent first. */
  datatype Group = Group(key: nat, windows: seq<Window>)

  datatype Entry = Entry(group: nat, window: nat)

  predicate HasKey(groups: seq<Group>, key: nat) {
    exists i :: 0 <= i < |groups| && groups[i].key == key
  }

  /** A snapshot is an ordered map from applications to windows. */
  predicate IsSnapshot(groups: seq<Group>) {
    forall i, j :: 0 <= i < j < |groups| ==> groups[i].key != groups[j].key
  }

  function Find(groups: seq<Group>, key: nat): (at: nat)
    requires HasKey(groups, key)
    ensures at < |groups| && groups[at].key == key
    ensures forall i :: 0 <= i < at ==> groups[i].key != key
  {
    if groups[0].key == key then 0 else assert HasKey(groups[1..], key) by { OneIsLater(groups, key); } 1 + Find(groups[1..], key)
  }

  lemma OneIsLater(groups: seq<Group>, key: nat)
    requires HasKey(groups, key) && groups[0].key != key
    ensures HasKey(groups[1..], key)
  {
    var i :| 0 <= i < |groups| && groups[i].key == key;
    assert groups[1..][i - 1].key == key;
  }

  /** `shift_remove`: the others keep their order. */
  function Without(groups: seq<Group>, at: nat): seq<Group>
    requires at < |groups|
  {
    groups[..at] + groups[at + 1..]
  }

  /** The groups in the order of the old entries, then the new ones in their own order. */
  function Arrange(previous: seq<Entry>, groups: seq<Group>): seq<Group> {
    if previous == [] then groups
    else if HasKey(groups, previous[0].group) then
      var at := Find(groups, previous[0].group);
      [groups[at]] + Arrange(previous[1..], Without(groups, at))
    else Arrange(previous[1..], groups)
  }

  /** The window that stands for an application: a minimized head gives way to the last, unless by recency. */
  function Representative(windows: seq<Window>, mru: bool): nat
    requires windows != []
  {
    if windows[0].minimized && !mru then windows[|windows| - 1].id else windows[0].id
  }

  function EntryOf(g: Group, mru: bool): seq<Entry> {
    if g.windows == [] then [] else [Entry(g.key, Representative(g.windows, mru))]
  }

  function EntriesTo(groups: seq<Group>, mru: bool, k: nat): seq<Entry>
    requires k <= |groups|
  {
    if k == 0 then [] else EntriesTo(groups, mru, k - 1) + EntryOf(groups[k - 1], mru)
  }

  function Entries(groups: seq<Group>, mru: bool): seq<Entry> {
    EntriesTo(groups, mru, |groups|)
  }

  function PositionOf(entries: seq<Entry>, key: nat): (r: Option<nat>)
    ensures r.Some? ==> r.value < |entries| && entries[r.value].group == key
    ensures r.None? ==> forall i :: 0 <= i < |entries| ==> entries[i].group != key
  {
    if entries == [] then None
    else if entries[0].group == key then Some(0)
    else
      match PositionOf(entries[1..], key)
      case Some(i) => Some(i + 1)
      case None => None
  }

  predicate Lists(g: Group, window: nat) {
    exists i :: 0 <= i < |g.windows| && g.windows[i].id == window
  }

  /** The first group that lists the window. */
  function GroupOf(groups: seq<Group>, window: nat): Option<nat> {
    if groups == [] then None
    else if Lists(groups[0], window) then Some(groups[0].key)
    else GroupOf(groups[1..], window)
  }

  // ---- The session -------------------------------------------------------

  const MAX_QUEUED := 64

  datatype Panel = Panel(apps: seq<Entry>, index: nat)

  datatype Pending = Pending(generation: nat, refresh: bool)

  datatype Ending = Abandoned | Chosen(entry: Entry)

  /** `first` is the panel the first snapshot made: a record for stating what happened, which
      nothing reads. */
  datatype Session = Session(
    actions: seq<bool>, pending: Option<Pending>, finishing: bool, panel: Option<Panel>,
    requests: nat, permitted: bool, ended: Option<Ending>, first: Option<Panel>)

  /** What stays fixed for a session. */
  datatype Setting = Setting(mru: bool, anchor: nat)

  const NEW := Session([], None, false, None, 0, true, None, None)

  function End(s: Session, ending: Ending): Session {
    s.(ended := Some(ending), actions := [], pending := None, finishing := false, panel := None)
  }

  function Request(s: Session, refresh: bool): Session {
    s.(requests := s.requests + 1, pending := Some(Pending(s.requests + 1, refresh)))
  }

  /** The queue is worked off while there is a panel; without one, a snapshot is asked for. */
  function WorkOff(s: Session): Session
    decreases |s.actions|
  {
    if !s.permitted || s.actions == [] then s
    else if s.panel.Some? then
      var panel := s.panel.value;
      var index := if panel.apps == [] then 0 else CycleIndex(panel.index, |panel.apps|, s.actions[0]);
      WorkOff(s.(actions := s.actions[1..], panel := Some(panel.(index := index))))
    else if s.pending.None? || s.pending.value.refresh then Request(s, false)
    else s
  }

  predicate CanFinish(s: Session) {
    s.finishing && s.pending.None? && s.actions == []
  }

  function Finished(s: Session): Session {
    if !CanFinish(s) then s
    else if s.permitted && s.panel.Some? && s.panel.value.index < |s.panel.value.apps|
    then End(s, Chosen(s.panel.value.apps[s.panel.value.index]))
    else End(s, Abandoned)
  }

  /** `pump_switches`. */
  function Pump(s: Session): Session {
    Finished(WorkOff(s))
  }

  /** The panel a snapshot makes. */
  function PanelOf(setting: Setting, previous: Option<Panel>, groups: seq<Group>): Panel {
    var entries := if previous.Some? then previous.value.apps else [];
    var apps := Entries(Arrange(entries, groups), setting.mru);
    var selected :=
      match previous
      case Some(panel) => if panel.index < |panel.apps| then Some(panel.apps[panel.index].group) else None
      case None => if setting.mru then GroupOf(groups, setting.anchor) else None;
    var before := if previous.Some? then previous.value.index else 0;
    var fallback := if before < |apps| then before else if apps == [] then 0 else |apps| - 1;
    var at := if selected.Some? then PositionOf(apps, selected.value) else None;
    Panel(apps, if at.Some? then at.value else fallback)
  }

  /** `apply_app_snapshot`. */
  function Apply(setting: Setting, s: Session, groups: seq<Group>): Session {
    var panel := PanelOf(setting, s.panel, groups);
    if panel.apps == [] then End(s, Abandoned)
    else s.(panel := Some(panel), first := if s.first.Some? then s.first else Some(panel))
  }

  datatype Event =
    | Cycle(reverse: bool)
    | Finish
    | Cancel
    | Deliver(generation: nat, result: Option<seq<Group>>)
    | RefreshDue
    | Poll
    | Revoke
    | Fail

  /** One thing happens: an input, a result of the worker, a refresh falling due, a failure. */
  function Step(setting: Setting, s: Session, event: Event): Session {
    if s.ended.Some? then s
    else
      match event
      case Cycle(reverse) =>
        if |s.actions| >= MAX_QUEUED then End(s, Abandoned) else Pump(s.(actions := s.actions + [reverse]))
      case Finish =>
        Pump(s.(finishing := true,
                pending := if s.pending.Some? && s.pending.value.refresh then None else s.pending))
      case Cancel => End(s, Abandoned)
      case Deliver(generation, result) =>
        if !s.permitted || s.pending.None? || s.pending.value.generation != generation then s
        else
          (match result
           case None => End(s, Abandoned)
           case Some(groups) => Apply(setting, s.(pending := None), groups))
      case RefreshDue =>
        if s.pending.None? && !s.finishing && s.panel.Some? then Request(s, true) else s
      case Poll => Pump(s)
      case Revoke => s.(permitted := false)
      case Fail => End(s, Abandoned)
  }

  ghost predicate IsRun(setting: Setting, run: seq<Session>, events: seq<Event>) {
    && |run| == |events| + 1 && run[0] == NEW
    && forall i :: 0 <= i < |events| ==> run[i + 1] == Step(setting, run[i], events[i])
  }

  // ---- Refreshing a panel ------------------------------------------------

  lemma WithoutKeys(groups: seq<Group>, at: nat, key: nat)
    requires IsSnapshot(groups) && at < |groups|
    ensures IsSnapshot(Without(groups, at))
    ensures HasKey(Without(groups, at), key) <==> HasKey(groups, key) && key != groups[at].key
  {
    var rest := Without(groups, at);
    if HasKey(groups, key) && key != groups[at].key {
      var i :| 0 <= i < |groups| && groups[i].key == key;
      assert rest[if i < at then i else i - 1].key == key;
    }
    if HasKey(rest, key) {
      var i :| 0 <= i < |rest| && rest[i].key == key;
      assert groups[if i < at then i else i + 1].key == key;
    }
  }

  predicate InEntries(entries: seq<Entry>, key: nat) {
    exists i :: 0 <= i < |entries| && entries[i].group == key
  }

  predicate Distinct(entries: seq<Entry>) {
    forall i, j :: 0 <= i < j < |entries| ==> entries[i].group != entries[j].group
  }

  lemma InTail(entries: seq<Entry>, key: nat)
    requires Distinct(entries) && entries != []
    ensures InEntries(entries[1..], key) <==> InEntries(entries, key) && key != entries[0].group
  {
    if InEntries(entries, key) && key != entries[0].group {
      var i :| 0 <= i < |entries| && entries[i].group == key;
      assert entries[1..][i - 1].group == key;
    }
    if InEntries(entries[1..], key) {
      var i :| 0 <= i < |entries[1..]| && entries[1..][i].group == key;
      assert entries[i + 1].group == key;
    }
  }

  predicate Living(groups: seq<Group>) {
    forall i :: 0 <= i < |groups| ==> groups[i].windows != []
  }

  /** With the same applications as before, the panel keeps its order. */
  lemma {:induction false} SameGroupsKeepOrder(previous: seq<Entry>, groups: seq<Group>)
    requires Distinct(previous) && IsSnapshot(groups) && Living(groups)
    requires forall key :: HasKey(groups, key) <==> InEntries(previous, key)
    ensures |Arrange(previous, groups)| == |previous| && Living(Arrange(previous, groups))
    ensures forall i :: 0 <= i < |previous| ==> Arrange(previous, groups)[i].key == previous[i].group
    decreases |previous|
  {
    if previous == [] {
      if groups != [] {
        assert HasKey(groups, groups[0].key);
      }
    } else {
      assert InEntries(previous, previous[0].group);
      var at, rest := Find(groups, previous[0].group), previous[1..];
      var groups' := Without(groups, at);
      forall key
        ensures HasKey(groups', key) <==> InEntries(rest, key)
      {
        WithoutKeys(groups, at, key);
        InTail(previous, key);
      }
      WithoutKeys(groups, at, 0);
      SameGroupsKeepOrder(rest, groups');
    }
  }

  lemma {:induction false} LivingEntriesTo(groups: seq<Group>, mru: bool, k: nat)
    requires Living(groups) && k <= |groups|
    ensures |EntriesTo(groups, mru, k)| == k
    ensures forall i :: 0 <= i < k ==> EntriesTo(groups, mru, k)[i].group == groups[i].key
    ensures forall i :: 0 <= i < k ==> Lists(groups[i], EntriesTo(groups, mru, k)[i].window)
  {
    if k > 0 {
      LivingEntriesTo(groups, mru, k - 1);
      var windows := groups[k - 1].windows;
      assert windows[0].id == windows[0].id && windows[|windows| - 1].id == windows[|windows| - 1].id;
      assert Lists(groups[k - 1], Representative(windows, mru));
    }
  }

  lemma LivingEntries(groups: seq<Group>, mru: bool)
    requires Living(groups)
    ensures |Entries(groups, mru)| == |groups|
    ensures forall i :: 0 <= i < |groups| ==> Entries(groups, mru)[i].group == groups[i].key
    ensures forall i :: 0 <= i < |groups| ==> Lists(groups[i], Entries(groups, mru)[i].window)
  {
    LivingEntriesTo(groups, mru, |groups|);
  }

  lemma PositionIs(entries: seq<Entry>, i: nat)
    requires Distinct(entries) && i < |entries|
    ensures PositionOf(entries, entries[i].group) == Some(i)
  {
  }

  // ---- What the session means --------------------------------------------

  /** The snapshots of the session all list the same applications, each with a window. */
  ghost predicate SameApplications(groups: seq<Group>, keys: set<nat>) {
    IsSnapshot(groups) && Living(groups) && groups != [] && forall key :: HasKey(groups, key) <==> key in keys
  }

  ghost predicate FixedApplications(events: seq<Event>, keys: set<nat>) {
    forall i :: 0 <= i < |events| && events[i].Deliver? && events[i].result.Some? ==>
      SameApplications(events[i].result.value, keys)
  }

  /** Forward moves less backward moves. */
  function Net(actions: seq<bool>): int {
    if actions == [] then 0 else (if actions[0] then -1 else 1) + Net(actions[1..])
  }

  function NetTo(events: seq<Event>, k: nat): int
    requires k <= |events|
  {
    if k == 0 then 0
    else NetTo(events, k - 1) + if events[k - 1].Cycle? then (if events[k - 1].reverse then -1 else 1) else 0
  }

  /** Synchronous switching: the index walks the list as the keys are pressed. */
  function Walk(count: nat, start: nat, events: seq<Event>, k: nat): (r: nat)
    requires k <= |events| && start < count
    ensures r < count
  {
    if k == 0 then start
    else
      var at := Walk(count, start, events, k - 1);
      if events[k - 1].Cycle? then CycleIndex(at, count, events[k - 1].reverse) else at
  }

  /** In closed form: start, plus the forward moves, less the backward ones. */
  lemma {:induction false} WalkIsNet(count: nat, start: nat, events: seq<Event>, k: nat)
    requires k <= |events| && start < count
    ensures Walk(count, start, events, k) == (start + NetTo(events, k)) % count
  {
    if k == 0 {
      DivModIs(start, 0, start, count);
    } else {
      WalkIsNet(count, start, events, k - 1);
      if events[k - 1].Cycle? {
        CycleIsStep(start + NetTo(events, k - 1), count, events[k - 1].reverse);
      }
    }
  }

  lemma {:induction false} NetAppend(actions: seq<bool>, reverse: bool)
    ensures Net(actions + [reverse]) == Net(actions) + if reverse then -1 else 1
    decreases |actions|
  {
    if actions == [] {
      assert [reverse][1..] == [];
    } else {
      NetAppend(actions[1..], reverse);
      assert (actions + [reverse])[1..] == actions[1..] + [reverse];
    }
  }

  // ---- The invariant -----------------------------------------------------

  ghost predicate SameOrder(one: seq<Entry>, other: seq<Entry>) {
    |one| == |other| && forall i :: 0 <= i < |one| ==> one[i].group == other[i].group
  }

  ghost predicate PanelInv(panel: Panel, first: Panel, keys: set<nat>, moved: int) {
    && first.apps != [] && Distinct(panel.apps) && SameOrder(panel.apps, first.apps) && first.index < |first.apps|
    && (forall key :: InEntries(panel.apps, key) <==> key in keys)
    && panel.index == (first.index + moved) % |first.apps|
  }

  /** While the session is open, its panel has moved by every input not still queued. */
  ghost predicate Inv(s: Session, keys: set<nat>, net: int) {
    s.ended.None? ==>
      match s.panel
      case Some(panel) => s.first.Some? && PanelInv(panel, s.first.value, keys, net - Net(s.actions))
      case None => s.first.None? && net == Net(s.actions)
  }

  lemma {:induction false} WorkOffKeepsInv(s: Session, keys: set<nat>, net: int)
    requires s.ended.None? && Inv(s, keys, net)
    ensures WorkOff(s).ended.None? && Inv(WorkOff(s), keys, net) && WorkOff(s).first == s.first
    decreases |s.actions|
  {
    if s.permitted && s.actions != [] && s.panel.Some? {
      var panel, n := s.panel.value, |s.first.value.apps|;
      var s' := s.(actions := s.actions[1..],
                   panel := Some(panel.(index := CycleIndex(panel.index, n, s.actions[0]))));
      CycleIsStep(s.first.value.index + net - Net(s.actions), n, s.actions[0]);
      assert PanelInv(s'.panel.value, s'.first.value, keys, net - Net(s'.actions));
      WorkOffKeepsInv(s', keys, net);
    }
  }

  lemma FirstPanel(setting: Setting, groups: seq<Group>, keys: set<nat>)
    requires SameApplications(groups, keys)
    ensures var panel := PanelOf(setting, None, groups);
      PanelInv(panel, panel, keys, 0)
  {
    var panel := PanelOf(setting, None, groups);
    LivingEntries(groups, setting.mru);
    forall key
      ensures InEntries(panel.apps, key) <==> key in keys
    {
      assert HasKey(groups, key) <==> key in keys;
      if HasKey(groups, key) {
        var i :| 0 <= i < |groups| && groups[i].key == key;
        assert panel.apps[i].group == key;
      }
      if InEntries(panel.apps, key) {
        var i :| 0 <= i < |panel.apps| && panel.apps[i].group == key;
        assert groups[i].key == key;
      }
    }
    DivModIs(panel.index, 0, panel.index, |panel.apps|);
  }

  /** A refresh with the same applications keeps the order and the selection. */
  lemma RefreshedPanel(setting: Setting, panel: Panel, groups: seq<Group>, keys: set<nat>)
    requires SameApplications(groups, keys) && Distinct(panel.apps) && panel.index < |panel.apps|
    requires forall key :: InEntries(panel.apps, key) <==> key in keys
    ensures var panel' := PanelOf(setting, Some(panel), groups);
      SameOrder(panel'.apps, panel.apps) && panel'.index == panel.index
  {
    forall key
      ensures HasKey(groups, key) <==> InEntries(panel.apps, key)
    {
      assert HasKey(groups, key) <==> key in keys;
    }
    SameGroupsKeepOrder(panel.apps, groups);
    LivingEntries(Arrange(panel.apps, groups), setting.mru);
    var apps := Entries(Arrange(panel.apps, groups), setting.mru);
    assert SameOrder(apps, panel.apps);
    PositionIs(apps, panel.index);
  }

  lemma ApplyKeepsInv(setting: Setting, s: Session, groups: seq<Group>, keys: set<nat>, net: int)
    requires s.ended.None? && Inv(s, keys, net) && SameApplications(groups, keys)
    ensures Apply(setting, s, groups).ended.None? && Inv(Apply(setting, s, groups), keys, net)
  {
    if s.panel.Some? {
      var panel, first := s.panel.value, s.first.value;
      ModInRange(first.index + net - Net(s.actions), |first.apps|);
      RefreshedPanel(setting, panel, groups, keys);
      var panel' := PanelOf(setting, Some(panel), groups);
      SameOrderSameKeys(panel.apps, panel'.apps, keys);
    } else {
      FirstPanel(setting, groups, keys);
    }
  }

  lemma ModInRange(x: int, n: nat)
    requires n > 0
    ensures 0 <= x % n < n
  {
  }

  lemma SameOrderSameKeys(one: seq<Entry>, other: seq<Entry>, keys: set<nat>)
    requires SameOrder(other, one) && Distinct(one) && forall key :: InEntries(one, key) <==> key in keys
    ensures Distinct(other) && forall key :: InEntries(other, key) <==> key in keys
  {
    forall key
      ensures InEntries(other, key) <==> InEntries(one, key)
    {
      if InEntries(other, key) {
        var i :| 0 <= i < |other| && other[i].group == key;
        assert one[i].group == key;
      }
      if InEntries(one, key) {
        var i :| 0 <= i < |one| && one[i].group == key;
        assert other[i].group == key;
      }
    }
  }

  /** The session ends by choosing where the walk has got to. */
  ghost predicate ChoosesWalked(s: Session, net: int) {
    && s.first.Some? && s.first.value.apps != []
    && s.ended.Some? && s.ended.value.Chosen?
    && s.ended.value.entry.group
       == s.first.value.apps[(s.first.value.index + net) % |s.first.value.apps|].group
  }

  lemma PumpKeepsInv(s: Session, keys: set<nat>, net: int)
    requires s.ended.None? && Inv(s, keys, net)
    ensures Inv(Pump(s), keys, net) && Pump(s).first == s.first
    ensures Pump(s).ended.None? || Pump(s).ended == Some(Abandoned) || ChoosesWalked(Pump(s), net)
  {
    WorkOffKeepsInv(s, keys, net);
    var w := WorkOff(s);
    if CanFinish(w) && w.panel.Some? {
      ModInRange(w.first.value.index + net, |w.first.value.apps|);
    }
  }

  function NetOf(event: Event): int {
    if event.Cycle? then (if event.reverse then -1 else 1) else 0
  }

  lemma StepKeepsInv(setting: Setting, s: Session, event: Event, keys: set<nat>, net: int)
    requires s.ended.None? && Inv(s, keys, net)
    requires event.Deliver? && event.result.Some? ==> SameApplications(event.result.value, keys)
    ensures var s' := Step(setting, s, event);
      && Inv(s', keys, net + NetOf(event))
      && (s'.ended.None? || s'.ended == Some(Abandoned) || ChoosesWalked(s', net + NetOf(event)))
  {
    match event {
      case Cycle(reverse) =>
        if |s.actions| < MAX_QUEUED {
          NetAppend(s.actions, reverse);
          PumpKeepsInv(s.(actions := s.actions + [reverse]), keys, net + NetOf(event));
        }
      case Finish =>
        PumpKeepsInv(s.(finishing := true,
                        pending := if s.pending.Some? && s.pending.value.refresh then None else s.pending), keys, net);
      case Deliver(generation, result) =>
        if s.permitted && s.pending.Some? && s.pending.value.generation == generation && result.Some? {
          ApplyKeepsInv(setting, s.(pending := None), result.value, keys, net);
        }
      case Poll => PumpKeepsInv(s, keys, net);
      case _ =>
    }
  }

  lemma {:induction false} EveryRunKeepsInv(
      setting: Setting, run: seq<Session>, events: seq<Event>, keys: set<nat>, n: nat)
    requires IsRun(setting, run, events) && FixedApplications(events, keys) && n < |run| && run[n].ended.None?
    ensures Inv(run[n], keys, NetTo(events, n))
  {
    if n > 0 {
      EveryRunKeepsInv(setting, run, events, keys, n - 1);
      StepKeepsInv(setting, run[n - 1], events[n - 1], keys, NetTo(events, n - 1));
    }
  }

  // ---- Main results ------------------------------------------------------

  /** However inputs, the first snapshot and later refreshes interleave, a session over the same
      applications ends without choosing, or chooses what synchronous switching chooses: the
      first list, walked by every input. */
  lemma AsynchronousIsSynchronous(setting: Setting, run: seq<Session>, events: seq<Event>, keys: set<nat>, n: nat)
    requires IsRun(setting, run, events) && FixedApplications(events, keys) && n < |events|
    requires run[n].ended.None? && run[n + 1].ended.Some?
    ensures run[n + 1].ended == Some(Abandoned)
            || (run[n + 1].first.Some?
                && var first := run[n + 1].first.value;
                  first.index < |first.apps|
                  && run[n + 1].ended.value.entry.group
                     == first.apps[Walk(|first.apps|, first.index, events, n + 1)].group)
    ensures run[n + 1].ended != Some(Abandoned) ==> run[n + 1].first == run[n].first
  {
    EveryRunKeepsInv(setting, run, events, keys, n);
    StepKeepsInv(setting, run[n], events[n], keys, NetTo(events, n));
    if run[n + 1].ended != Some(Abandoned) {
      var first := run[n + 1].first.value;
      ChoiceHasPanel(setting, run[n], events[n], keys, NetTo(events, n));
      WalkIsNet(|first.apps|, first.index, events, n + 1);
    }
  }

  lemma ChoiceHasPanel(setting: Setting, s: Session, event: Event, keys: set<nat>, net: int)
    requires s.ended.None? && Inv(s, keys, net)
    requires Step(setting, s, event).ended.Some? && Step(setting, s, event).ended.value.Chosen?
    ensures s.first.Some? && Step(setting, s, event).first == s.first && s.first.value.index < |s.first.value.apps|
  {
    match event {
      case Cycle(reverse) => ChoiceFromPump(s.(actions := s.actions + [reverse]), keys);
      case Finish =>
        ChoiceFromPump(s.(finishing := true,
                          pending := if s.pending.Some? && s.pending.value.refresh then None else s.pending), keys);
      case Poll => ChoiceFromPump(s, keys);
      case _ =>
    }
  }

  lemma {:induction false} ChoiceFromPump(s: Session, keys: set<nat>)
    requires Pump(s).ended.Some? && Pump(s).ended.value.Chosen? && s.ended.None?
    ensures s.panel.Some? && Pump(s).first == s.first
    decreases |s.actions|
  {
    if s.permitted && s.actions != [] && s.panel.Some? {
      var panel := s.panel.value;
      var index := if panel.apps == [] then 0 else CycleIndex(panel.index, |panel.apps|, s.actions[0]);
      ChoiceFromPump(s.(actions := s.actions[1..], panel := Some(panel.(index := index))), keys);
    }
  }

  /** The list that counts is that of the first snapshot taken, in its own order, starting at the
      application the user is in when ordering by recency and at the top otherwise. */
  lemma {:induction false} FirstIsTheFirstSnapshot(setting: Setting, run: seq<Session>, events: seq<Event>, n: nat)
    returns (m: nat)
    requires IsRun(setting, run, events) && n < |run| && run[n].first.Some?
    ensures m < n && events[m].Deliver? && events[m].result.Some? && run[m].panel.None?
    ensures run[m].pending.Some? && run[m].pending.value.generation == events[m].generation
    ensures run[n].first == run[m + 1].first == Some(PanelOf(setting, None, events[m].result.value))
    ensures forall i :: 0 <= i <= m ==> run[i].first.None?
  {
    PanelHasFirst(setting, run, events, n - 1);
    if run[n - 1].first.None? {
      m := n - 1;
      FirstComesFromASnapshot(setting, run[m], events[m]);
      NoFirstBefore(setting, run, events, m);
    } else {
      m := FirstIsTheFirstSnapshot(setting, run, events, n - 1);
      FirstIsKept(setting, run[n - 1], events[n - 1]);
    }
  }

  lemma {:induction false} PumpKeepsFirst(s: Session)
    ensures Pump(s).first == s.first && (Pump(s).panel.Some? ==> s.panel.Some?)
    decreases |s.actions|
  {
    if s.permitted && s.actions != [] && s.panel.Some? {
      var panel := s.panel.value;
      var index := if panel.apps == [] then 0 else CycleIndex(panel.index, |panel.apps|, s.actions[0]);
      PumpKeepsFirst(s.(actions := s.actions[1..], panel := Some(panel.(index := index))));
    }
  }

  lemma FirstIsKept(setting: Setting, s: Session, event: Event)
    requires s.first.Some?
    ensures Step(setting, s, event).first == s.first
  {
    StepPumps(s, event);
  }

  lemma StepPumps(s: Session, event: Event)
    ensures event.Cycle? ==> PumpsFrom(s, s.(actions := s.actions + [event.reverse]))
    ensures PumpsFrom(s, s.(finishing := true,
                            pending := if s.pending.Some? && s.pending.value.refresh then None else s.pending))
    ensures PumpsFrom(s, s)
  {
    if event.Cycle? {
      PumpKeepsFirst(s.(actions := s.actions + [event.reverse]));
    }
    PumpKeepsFirst(s.(finishing := true,
                      pending := if s.pending.Some? && s.pending.value.refresh then None else s.pending));
    PumpKeepsFirst(s);
  }

  predicate PumpsFrom(s: Session, s': Session) {
    Pump(s').first == s.first && (Pump(s').panel.Some? ==> s.panel.Some?)
  }

  lemma FirstComesFromASnapshot(setting: Setting, s: Session, event: Event)
    requires s.first.None? && s.panel.None? && Step(setting, s, event).first.Some?
    ensures event.Deliver? && event.result.Some? && s.pending.Some? && s.pending.value.generation == event.generation
    ensures Step(setting, s, event).first == Some(PanelOf(setting, None, event.result.value))
  {
    StepPumps(s, event);
  }

  lemma PanelComesWithFirst(setting: Setting, s: Session, event: Event)
    requires s.panel.Some? ==> s.first.Some?
    ensures Step(setting, s, event).panel.Some? ==> Step(setting, s, event).first.Some?
  {
    StepPumps(s, event);
  }

  /** There is a panel only once a first snapshot has been taken. */
  lemma {:induction false} PanelHasFirst(setting: Setting, run: seq<Session>, events: seq<Event>, n: nat)
    requires IsRun(setting, run, events) && n < |run|
    ensures run[n].panel.Some? ==> run[n].first.Some?
  {
    if n > 0 {
      PanelHasFirst(setting, run, events, n - 1);
      PanelComesWithFirst(setting, run[n - 1], events[n - 1]);
    }
  }

  lemma {:induction false} NoFirstBefore(setting: Setting, run: seq<Session>, events: seq<Event>, n: nat)
    requires IsRun(setting, run, events) && n < |run| && run[n].first.None?
    ensures forall i :: 0 <= i <= n ==> run[i].first.None?
  {
    if n > 0 {
      if run[n - 1].first.Some? {
        FirstIsKept(setting, run[n - 1], events[n - 1]);
      }
      NoFirstBefore(setting, run, events, n - 1);
    }
  }

  /** Ordering by recency starts at the application that lists the window the user is in. */
  lemma FirstStart(setting: Setting, groups: seq<Group>, keys: set<nat>)
    requires SameApplications(groups, keys)
    ensures var panel := PanelOf(setting, None, groups);
      && |panel.apps| == |groups| && panel.index < |panel.apps|
      && (forall i :: 0 <= i < |groups| ==> panel.apps[i].group == groups[i].key)
      && (if setting.mru && GroupOf(groups, setting.anchor).Some?
          then panel.apps[panel.index].group == GroupOf(groups, setting.anchor).value
          else panel.index == 0)
  {
    FirstPanel(setting, groups, keys);
    LivingEntries(groups, setting.mru);
    if GroupOf(groups, setting.anchor).Some? {
      GroupOfHasKey(groups, setting.anchor);
      var i :| 0 <= i < |groups| && groups[i].key == GroupOf(groups, setting.anchor).value;
      assert PanelOf(setting, None, groups).apps[i].group == groups[i].key;
    }
  }

  lemma {:induction false} GroupOfHasKey(groups: seq<Group>, window: nat)
    requires GroupOf(groups, window).Some?
    ensures exists i :: 0 <= i < |groups| && groups[i].key == GroupOf(groups, window).value && Lists(groups[i], window)
    decreases |groups|
  {
    if !Lists(groups[0], window) {
      GroupOfHasKey(groups[1..], window);
      var i :| 0 <= i < |groups[1..]| && groups[1..][i].key == GroupOf(groups[1..], window).value
               && Lists(groups[1..][i], window);
      assert groups[i + 1] == groups[1..][i];
    }
  }

  // ---- Nothing waits for nothing -----------------------------------------

  /** An open session with work to do has asked for the snapshot it needs, and nothing else. */
  predicate Waits(s: Session) {
    && (s.finishing ==> s.pending.Some? ==> !s.pending.value.refresh)
    && (s.panel.None? && s.pending.Some? ==> !s.pending.value.refresh)
  }

  lemma {:induction false} WorkOffWaits(s: Session)
    requires Waits(s)
    ensures Waits(WorkOff(s))
    ensures s.permitted && WorkOff(s).actions != [] ==>
              WorkOff(s).pending.Some? && !WorkOff(s).pending.value.refresh && WorkOff(s).panel.None?
    ensures WorkOff(s).ended == s.ended && WorkOff(s).finishing == s.finishing && WorkOff(s).permitted == s.permitted
    decreases |s.actions|
  {
    if s.permitted && s.actions != [] && s.panel.Some? {
      var panel := s.panel.value;
      var index := if panel.apps == [] then 0 else CycleIndex(panel.index, |panel.apps|, s.actions[0]);
      WorkOffWaits(s.(actions := s.actions[1..], panel := Some(panel.(index := index))));
    }
  }

  lemma StepWaits(setting: Setting, s: Session, event: Event)
    requires Waits(s)
    ensures Waits(Step(setting, s, event))
  {
    match event {
      case Cycle(reverse) => WorkOffWaits(s.(actions := s.actions + [reverse]));
      case Finish =>
        WorkOffWaits(s.(finishing := true,
                        pending := if s.pending.Some? && s.pending.value.refresh then None else s.pending));
      case Poll => WorkOffWaits(s);
      case _ =>
    }
  }

  lemma {:induction false} EveryRunWaits(setting: Setting, run: seq<Session>, events: seq<Event>, n: nat)
    requires IsRun(setting, run, events) && n < |run|
    ensures Waits(run[n])
  {
    if n > 0 {
      EveryRunWaits(setting, run, events, n - 1);
      StepWaits(setting, run[n - 1], events[n - 1]);
    }
  }

  /** After every turn of the UI, a permitted session that is still open and has inputs queued or
      a finish to carry out is waiting for the one snapshot it asked for. */
  lemma OpenSessionsWait(setting: Setting, run: seq<Session>, events: seq<Event>, n: nat)
    requires IsRun(setting, run, events) && n < |events|
    requires events[n].Cycle? || events[n].Finish? || events[n].Poll?
    requires run[n + 1].ended.None? && run[n + 1].permitted && (run[n + 1].actions != [] || run[n + 1].finishing)
    ensures run[n + 1].pending.Some? && !run[n + 1].pending.value.refresh
  {
    EveryRunWaits(setting, run, events, n);
    var s := run[n];
    match events[n] {
      case Cycle(reverse) => WorkOffWaits(s.(actions := s.actions + [reverse]));
      case Finish =>
        WorkOffWaits(s.(finishing := true,
                        pending := if s.pending.Some? && s.pending.value.refresh then None else s.pending));
      case Poll => WorkOffWaits(s);
    }
  }

  /** And once that snapshot comes, the session that was to finish is over within the turn. */
  lemma ASnapshotFinishes(setting: Setting, s: Session, groups: seq<Group>)
    requires s.ended.None? && s.finishing && s.permitted && s.pending.Some?
    ensures Step(setting, Step(setting, s, Deliver(s.pending.value.generation, Some(groups))), Poll).ended.Some?
  {
    var applied := Step(setting, s, Deliver(s.pending.value.generation, Some(groups)));
    if applied.ended.None? {
      WorkOffWithPanel(applied);
    }
  }

  lemma {:induction false} WorkOffWithPanel(s: Session)
    requires s.permitted && s.panel.Some?
    ensures WorkOff(s).actions == [] && WorkOff(s).pending == s.pending && WorkOff(s).finishing == s.finishing
    decreases |s.actions|
  {
    if s.actions != [] {
      var panel := s.panel.value;
      var index := if panel.apps == [] then 0 else CycleIndex(panel.index, |panel.apps|, s.actions[0]);
      WorkOffWithPanel(s.(actions := s.actions[1..], panel := Some(panel.(index := index))));
    }
  }

  /** Any refresh, of any applications: if the selected one is still there, it stays selected. */
  lemma SelectionSurvives(setting: Setting, panel: Panel, groups: seq<Group>)
    requires panel.index < |panel.apps|
    ensures var panel' := PanelOf(setting, Some(panel), groups);
      InEntries(panel'.apps, panel.apps[panel.index].group) ==>
        panel'.index < |panel'.apps| && panel'.apps[panel'.index].group == panel.apps[panel.index].group
    ensures var panel' := PanelOf(setting, Some(panel), groups);
      panel'.apps != [] ==> panel'.index < |panel'.apps|
  {
  }
}
