/**
 The keyboard state machine as the program keeps it (src/keyboard/state.rs): two
 arrays of key flags and a few fields, updated in place. Every method is proved
 equal to the operation of the same name in KeyboardState.dfy.
 */
module Keyboard {
  import opened Wrappers
  import opened KeyboardState

  class InputMachine {
    const hotkeys: seq<Hotkey>
    const pressed: array<bool>
    const consumed: array<bool>
    var active: Option<Gesture>
    var nextSession: nat
    var injectedControl: bool

    ghost predicate Valid()
      reads this, pressed, consumed
    {
      pressed != consumed && Shape(View())
    }

    ghost function View(): Machine
      reads this, pressed, consumed
    {
      Machine(hotkeys, pressed[..], consumed[..], active, nextSession, injectedControl)
    }

    constructor (hotkeys: seq<Hotkey>)
      ensures Valid() && fresh(pressed) && fresh(consumed)
      ensures View() == Initial(hotkeys)
    {
      this.hotkeys := hotkeys;
      pressed := new bool[KEYS](_ => false);
      consumed := new bool[KEYS](_ => false);
      active, nextSession, injectedControl := None, 0, false;
      new;
      assert pressed[..] == NoKeys() && consumed[..] == NoKeys();
    }

    method SeedModifier(scan: nat, extended: bool, down: bool)
      requires Valid()
      modifies pressed
      ensures Valid() && View() == SeedOne(old(View()), scan, extended, down)
    {
      var index := Key(scan, extended, down).Index();
      if index.Some? {
        pressed[index.value] := down;
      }
    }

    /** `seed_modifiers`; `states` is what the system reports for each modifier key. */
    method SeedModifiers(states: seq<bool>)
      requires Valid() && |states| == |SEEDED|
      modifies pressed
      ensures Valid() && View() == Seed(old(View()), states, |SEEDED|)
    {
      for k := 0 to |SEEDED|
        invariant Valid() && View() == Seed(old(View()), states, k)
      {
        SeedModifier(SEEDED[k].scan, SEEDED[k].extended, states[k]);
      }
    }

    method Reset() returns (session: Option<nat>)
      requires Valid()
      modifies this, pressed, consumed
      ensures Valid() && (View(), session) == KeyboardState.Reset(old(View()))
    {
      Clear(pressed);
      Clear(consumed);
      injectedControl := false;
      session := if active.Some? then Some(active.value.session) else None;
      active := None;
    }

    static method Clear(keys: array<bool>)
      requires keys.Length == KEYS
      modifies keys
      ensures keys[..] == NoKeys()
    {
      for k := 0 to KEYS
        invariant forall j :: 0 <= j < k ==> !keys[j]
      {
        keys[k] := false;
      }
    }

    method HasMatch(id: nat, key: Key) returns (found: bool)
      requires Valid()
      ensures found == AnyMatch(View(), id, key)
    {
      found := false;
      for k := 0 to |hotkeys|
        invariant found == exists j :: 0 <= j < k && hotkeys[j].id == id && MatchesHotkey(View(), hotkeys[j], key)
      {
        var matched := Matches(hotkeys[k], key);
        found := found || (hotkeys[k].id == id && matched);
      }
    }

    method HasCode(id: nat, scan: nat) returns (found: bool)
      ensures found == AnyCode(View(), id, scan)
    {
      found := false;
      for k := 0 to |hotkeys|
        invariant found == exists j :: 0 <= j < k && hotkeys[j].id == id && hotkeys[j].code == scan
      {
        found := found || (hotkeys[k].id == id && hotkeys[k].code == scan);
      }
    }

    method Matches(h: Hotkey, key: Key) returns (r: bool)
      requires Valid()
      ensures r == MatchesHotkey(View(), h, key)
    {
      var altgr := pressed[0x38 + 256] && (pressed[0x1d] || injectedControl);
      var held := Held(h.modifier);
      r := !(altgr && (h.modifier == 0x38 || h.modifier == 0x1d)) && held && h.code == key.scan
           && (!(0x47 <= key.scan <= 0x53) || key.extended);
    }

    method Held(modifier: nat) returns (r: bool)
      requires Valid()
      ensures r == ModifierPressed(View().pressed, modifier)
    {
      if modifier == 0x38 || modifier == 0x1d {
        r := pressed[modifier] || pressed[modifier + 256];
      } else if modifier == 0x5b {
        r := pressed[0x5b + 256] || pressed[0x5c + 256];
      } else {
        r := false;
      }
    }

    method Find(key: Key, perm: Permissions) returns (r: Option<Hotkey>)
      requires Valid()
      ensures r == FirstMatch(View(), key, perm, 0)
    {
      var k := 0;
      while k < |hotkeys|
        invariant k <= |hotkeys|
        invariant FirstMatch(View(), key, perm, 0) == FirstMatch(View(), key, perm, k)
      {
        var matched := Matches(hotkeys[k], key);
        if HotkeyAllowed(hotkeys[k], perm) && matched {
          return Some(hotkeys[k]);
        }
        k := k + 1;
      }
      r := None;
    }

    method Handle(key: Key, perm: Permissions, acknowledged: nat, revoked: nat) returns (d: Decision)
      requires Valid()
      modifies this, pressed, consumed
      ensures Valid()
      ensures (View(), d) == KeyboardState.Handle(old(View()), key, perm, acknowledged, revoked)
    {
      HandleKeepsShape(View(), key, perm, acknowledged, revoked);
      var index := key.Index();
      if index.None? {
        return PASS;
      }
      var i := index.value;
      if active.Some? && (active.value.session <= revoked || active.value.session <= acknowledged) {
        active := None;
      }
      var repeated := pressed[i];
      pressed[i] := key.down;
      ghost var o := View();
      assert o == Observed(old(View()), i, key.down, acknowledged, revoked);
      // The pause hotkey comes first, so that it can always turn a pause off again.
      if key.down {
        var pause := HasMatch(PAUSE_HOTKEY_ID, key);
        if pause {
          return Decision(true, if repeated then None else Some(Event(0, TogglePause)));
        }
      }
      if active.Some? {
        var allowed := if active.value.kind != Windows then perm.apps else perm.windows;
        if !allowed && !active.value.finishing {
          active := Some(active.value.(finishing := true));
          return Decision(false, Some(Event(active.value.session, Cancel)));
        }
      }
      if active.Some? {
        var held := Held(active.value.modifier);
        if !active.value.sticky && !active.value.finishing && !held {
          active := Some(active.value.(finishing := true));
          return Decision(false, Some(Event(active.value.session, Finish(active.value.kind))));
        }
      }
      if !key.down {
        var owned := consumed[i];
        consumed[i] := false;
        return Decision(owned, None);
      }
      if active.Some? && active.value.finishing {
        return PASS;
      }
      d := Pressed(i, key, repeated, perm);
    }

    method Pressed(i: nat, key: Key, repeated: bool, perm: Permissions) returns (d: Decision)
      requires Valid() && i < KEYS
      modifies this
      ensures (View(), d) == Press(old(View()), i, key, repeated, perm)
    {
      if repeated && consumed[i] && active.Some? && active.value.sticky {
        var details := HasCode(DETAILS_HOTKEY_ID, key.scan);
        if details {
          return Decision(true, None);
        }
      }
      if perm.surface == Panel && perm.apps && active.Some? && active.value.kind == Apps {
        var details := HasMatch(DETAILS_HOTKEY_ID, key);
        if details {
          active := Some(active.value.(sticky := true));
          return Decision(true, if repeated then None else Some(Event(active.value.session, ShowDetails)));
        }
      }
      var matching := Find(key, perm);
      if matching.Some? {
        d := Triggered(matching.value);
        return;
      }
      if active.Some? && active.value.kind == Apps && (!active.value.sticky || perm.surface == Panel) {
        var session := active.value.session;
        if key.scan == 0x01 {
          active := Some(active.value.(finishing := true));
          return Decision(true, Some(Event(session, Cancel)));
        } else if key.scan == 0x1c && active.value.sticky {
          active := Some(active.value.(finishing := true));
          return Decision(true, Some(Event(session, Finish(Apps))));
        } else if (key.scan == 0x48 || key.scan == 0x4b || key.scan == 0x4d || key.scan == 0x50) && key.extended {
          return Decision(true, Some(Event(session, Cycle(Apps, key.scan == 0x48 || key.scan == 0x4b))));
        }
      }
      d := PASS;
    }

    method Triggered(h: Hotkey) returns (d: Decision)
      requires Valid()
      modifies this
      ensures (View(), d) == Trigger(old(View()), h)
    {
      var kind := KindOf(h);
      if active.Some?
         && ((active.value.sticky && (kind != Search || active.value.kind != Search))
             || (kind == Search && active.value.kind != Search)) {
        active := None;
      }
      if active.Some? && active.value.modifier != h.modifier {
        return PASS;
      }
      if active.None? {
        if nextSession == U64_MAX {
          return PASS;
        }
        nextSession := nextSession + 1;
        active := Some(Gesture(nextSession, kind, h.modifier, false, kind == Search));
      }
      var reverse := pressed[0x2a] || pressed[0x36];
      active := Some(active.value.(kind := kind));
      return Decision(true, Some(Event(active.value.session, Cycle(kind, reverse))));
    }

    method Accepted(key: Key, consume: bool)
      requires Valid()
      modifies consumed
      ensures Valid() && View() == KeyboardState.Accepted(old(View()), key, consume)
    {
      if key.down {
        var index := key.Index();
        if index.Some? {
          consumed[index.value] := consume;
        }
      }
    }

    method Rejected(key: Key)
      requires Valid()
      modifies this, consumed
      ensures Valid() && View() == KeyboardState.Rejected(old(View()), key)
    {
      active := None;
      Accepted(key, false);
    }

    method ObserveInjectedPassthrough(key: Key)
      requires Valid()
      modifies this
      ensures Valid() && View() == ObserveInjected(old(View()), key)
    {
      if key.scan == 0x1d && !key.extended {
        injectedControl := key.down;
      }
    }
  }
}
