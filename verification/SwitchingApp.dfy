/**
 The session as the program keeps it: `SwitchCoordinator` and the panel are fields that the
 methods of `App` update (src/app/switching.rs, src/app/input.rs, src/app/coordinator.rs).
 Every method is shown to do what `Switching.dfy` says of one step.
 */
module SwitchingApp {
  import opened Wrappers
  import opened Navigation
  import opened Switching

  class App {
    const setting: Setting
    var actions: seq<bool>
    var pending: Option<Pending>
    var finishing: bool
    var panel: Option<Panel>
    var requests: nat
    var permitted: bool
    var ended: Option<Ending>
    ghost var first: Option<Panel>

    constructor (setting: Setting)
      ensures View() == NEW && this.setting == setting
    {
      this.setting := setting;
      actions, pending, finishing, panel := [], None, false, None;
      requests, permitted, ended, first := 0, true, None, None;
    }

    ghost function View(): Session
      reads this
    {
      Session(actions, pending, finishing, panel, requests, permitted, ended, first)
    }

    method Complete(ending: Ending)
      modifies this
      ensures View() == End(old(View()), ending)
    {
      ended := Some(ending);
      actions, pending, finishing, panel := [], None, false, None;
    }

    method RequestSnapshot(refresh: bool)
      modifies this`requests, this`pending
      ensures View() == Request(old(View()), refresh)
    {
      requests := requests + 1;
      pending := Some(Pending(requests, refresh));
    }

    /** The loop of `pump_switches`. */
    method WorkOffActions()
      modifies this`actions, this`panel, this`requests, this`pending
      ensures View() == WorkOff(old(View()))
    {
      while permitted && actions != [] && panel.Some?
        invariant WorkOff(View()) == WorkOff(old(View()))
        invariant ended == old(ended) && finishing == old(finishing) && permitted == old(permitted) && first == old(first)
        decreases |actions|
      {
        var apps := panel.value.apps;
        var index := if apps == [] then 0 else CycleIndex(panel.value.index, |apps|, actions[0]);
        panel := Some(Panel(apps, index));
        actions := actions[1..];
      }
      if permitted && actions != [] && (pending.None? || pending.value.refresh) {
        RequestSnapshot(false);
      }
    }

    method PumpSwitches()
      modifies this
      ensures View() == Pump(old(View()))
    {
      WorkOffActions();
      if finishing && pending.None? && actions == [] {
        if permitted && panel.Some? && panel.value.index < |panel.value.apps| {
          Complete(Chosen(panel.value.apps[panel.value.index]));
        } else {
          Complete(Abandoned);
        }
      }
    }

    /** The arms of `apply_input` for cycling, finishing and cancelling. */
    method Push(reverse: bool)
      modifies this
      ensures View() == Step(setting, old(View()), Cycle(reverse))
    {
      if ended.Some? {
        return;
      }
      if |actions| >= MAX_QUEUED {
        Complete(Abandoned);
        return;
      }
      actions := actions + [reverse];
      PumpSwitches();
    }

    method FinishSwitch()
      modifies this
      ensures View() == Step(setting, old(View()), Finish)
    {
      if ended.Some? {
        return;
      }
      finishing := true;
      if pending.Some? && pending.value.refresh {
        pending := None;
      }
      PumpSwitches();
    }

    /** `apply_app_snapshot`: the groups still listed in their old order, then the new ones. */
    method ArrangeGroups(previous: seq<Entry>, groups: seq<Group>) returns (ordered: seq<Group>)
      ensures ordered == Arrange(previous, groups)
    {
      ordered := [];
      var left, i := groups, 0;
      assert previous[0..] == previous;
      while i < |previous|
        invariant i <= |previous|
        invariant ordered + Arrange(previous[i..], left) == Arrange(previous, groups)
      {
        assert previous[i..][1..] == previous[i + 1..];
        var key := previous[i].group;
        if exists j :: 0 <= j < |left| && left[j].key == key {
          var at := Switching.Find(left, key);
          ghost var rest := Arrange(previous[i + 1..], Without(left, at));
          assert ordered + ([left[at]] + rest) == ordered + [left[at]] + rest;
          ordered := ordered + [left[at]];
          left := Without(left, at);
        }
        i := i + 1;
      }
      ordered := ordered + left;
    }

    method MakeEntries(groups: seq<Group>) returns (apps: seq<Entry>)
      ensures apps == Entries(groups, setting.mru)
    {
      apps := [];
      var i := 0;
      while i < |groups|
        invariant i <= |groups| && apps == EntriesTo(groups, setting.mru, i)
      {
        var windows := groups[i].windows;
        if windows != [] {
          var window := if windows[0].minimized && !setting.mru then windows[|windows| - 1].id else windows[0].id;
          apps := apps + [Entry(groups[i].key, window)];
        }
        i := i + 1;
      }
    }

    method ApplySnapshot(groups: seq<Group>)
      modifies this
      ensures View() == Apply(setting, old(View()), groups)
    {
      var previous := panel;
      var selected: Option<nat> := None;
      if previous.Some? {
        if previous.value.index < |previous.value.apps| {
          selected := Some(previous.value.apps[previous.value.index].group);
        }
      } else if setting.mru {
        selected := GroupOf(groups, setting.anchor);
      }
      var ordered := ArrangeGroups(if previous.Some? then previous.value.apps else [], groups);
      var apps := MakeEntries(ordered);
      var before := if previous.Some? then previous.value.index else 0;
      var index := if before < |apps| then before else if apps == [] then 0 else |apps| - 1;
      if selected.Some? {
        var at := PositionOf(apps, selected.value);
        if at.Some? {
          index := at.value;
        }
      }
      if apps == [] {
        Complete(Abandoned);
        return;
      }
      panel := Some(Panel(apps, index));
      first := if first.Some? then first else panel;
    }

    /** One result of `poll_switching`: stale ones are dropped. */
    method AcceptResult(generation: nat, result: Option<seq<Group>>)
      modifies this
      ensures View() == Step(setting, old(View()), Deliver(generation, result))
    {
      if ended.Some? || !permitted || pending.None? || pending.value.generation != generation {
        return;
      }
      pending := None;
      match result {
        case Some(groups) => ApplySnapshot(groups);
        case None => Complete(Abandoned);
      }
    }

    /** The end of `poll_switching`: a refresh when it is due and nothing is under way. */
    method Refresh()
      modifies this
      ensures View() == Step(setting, old(View()), RefreshDue)
    {
      if ended.None? && pending.None? && !finishing && panel.Some? {
        RequestSnapshot(true);
      }
    }
  }
}
