/**
 The keyboard state machine (src/keyboard/state.rs) and the part of the hook
 callback that feeds it (src/keyboard.rs).

 `Machine` is the machine's value; `Handle`, `Accepted`, `Rejected` and `Reset`
 say what each operation does to it. The class that performs them on arrays is in
 InputMachine.dfy, and histories of callbacks are in KeyboardHistory.dfy.
 */
module KeyboardState {
  import opened Wrappers

  const U64_MAX: nat := 0xFFFF_FFFF_FFFF_FFFF
  const KEYS: nat := 512

  const SWITCH_WINDOWS_HOTKEY_ID: nat := 1
  const SWITCH_APPS_HOTKEY_ID: nat := 2
  const SEARCH_HOTKEY_ID: nat := 3
  const PAUSE_HOTKEY_ID: nat := 4
  const DETAILS_HOTKEY_ID: nat := 5

  datatype SwitchKind = Apps | Windows | Search

  datatype Surface = NoSurface | Panel | Details

  datatype Permissions = Permissions(windows: bool, apps: bool, surface: Surface)

  datatype Action =
    | Cycle(kind: SwitchKind, reverse: bool)
    | Finish(finished: SwitchKind)
    | Cancel
    | TogglePause
    | ShowDetails

  datatype Event = Event(session: nat, action: Action)

  datatype Decision = Decision(consume: bool, event: Option<Event>)

  const PASS := Decision(false, None)

  datatype Key = Key(scan: nat, extended: bool, down: bool) {
    function Index(): Option<nat> {
      if scan == 0 || scan > 255 then None
      else Some(scan + if extended then 256 else 0)
    }
  }

  datatype Hotkey = Hotkey(id: nat, modifier: nat, code: nat)

  datatype Gesture = Gesture(session: nat, kind: SwitchKind, modifier: nat, finishing: bool, sticky: bool)

  datatype Machine = Machine(
    hotkeys: seq<Hotkey>,
    pressed: seq<bool>,
    consumed: seq<bool>,
    active: Option<Gesture>,
    nextSession: nat,
    injectedControl: bool)

  // ---- Queries -----------------------------------------------------------

  /** The scan codes that stand for Alt, Ctrl and the two Windows keys. */
  predicate IsModifierScan(scan: nat) {
    scan == 0x38 || scan == 0x1d || scan == 0x5b || scan == 0x5c
  }

  /** What the hotkey parser can produce: a known modifier, and a main key that is not one. */
  predicate Parsed(h: Hotkey) {
    (h.modifier == 0x38 || h.modifier == 0x1d || h.modifier == 0x5b) && !IsModifierScan(h.code)
  }

  /** The key indices of the two sides of a modifier. */
  function Sides(modifier: nat): set<nat> {
    if modifier == 0x38 || modifier == 0x1d then {modifier, modifier + 256}
    else if modifier == 0x5b then {0x5b + 256, 0x5c + 256}
    else {}
  }

  predicate ModifierPressed(pressed: seq<bool>, modifier: nat)
    requires |pressed| == KEYS
  {
    if modifier == 0x38 || modifier == 0x1d then pressed[modifier] || pressed[modifier + 256]
    else if modifier == 0x5b then pressed[0x5b + 256] || pressed[0x5c + 256]
    else false
  }

  /** Shape of the two arrays, and the session counter's width. */
  predicate Shape(m: Machine) {
    |m.pressed| == KEYS && |m.consumed| == KEYS && m.nextSession <= U64_MAX
  }

  predicate MatchesHotkey(m: Machine, h: Hotkey, key: Key)
    requires Shape(m)
  {
    var altgr := m.pressed[0x38 + 256] && (m.pressed[0x1d] || m.injectedControl);
    && !(altgr && (h.modifier == 0x38 || h.modifier == 0x1d))
    && ModifierPressed(m.pressed, h.modifier)
    && h.code == key.scan
    && (!(0x47 <= key.scan <= 0x53) || key.extended)
  }

  predicate AnyMatch(m: Machine, id: nat, key: Key)
    requires Shape(m)
  {
    exists k :: 0 <= k < |m.hotkeys| && m.hotkeys[k].id == id && MatchesHotkey(m, m.hotkeys[k], key)
  }

  predicate AnyCode(m: Machine, id: nat, scan: nat) {
    exists k :: 0 <= k < |m.hotkeys| && m.hotkeys[k].id == id && m.hotkeys[k].code == scan
  }

  predicate HotkeyAllowed(h: Hotkey, perm: Permissions) {
    ((h.id == SWITCH_APPS_HOTKEY_ID || h.id == SEARCH_HOTKEY_ID) && perm.apps)
    || (h.id == SWITCH_WINDOWS_HOTKEY_ID && perm.windows)
  }

  /** The first allowed hotkey at or after `from` that the key matches. */
  function FirstMatch(m: Machine, key: Key, perm: Permissions, from: nat): Option<Hotkey>
    requires Shape(m) && from <= |m.hotkeys|
    decreases |m.hotkeys| - from
  {
    if from == |m.hotkeys| then None
    else if HotkeyAllowed(m.hotkeys[from], perm) && MatchesHotkey(m, m.hotkeys[from], key) then Some(m.hotkeys[from])
    else FirstMatch(m, key, perm, from + 1)
  }

  predicate Stale(m: Machine, acknowledged: nat, revoked: nat) {
    m.active.Some? && (m.active.value.session <= revoked || m.active.value.session <= acknowledged)
  }

  /** A live gesture whose application is no longer allowed to be switched. */
  predicate LostPermission(m: Machine, perm: Permissions) {
    && m.active.Some?
    && !(if m.active.value.kind != Windows then perm.apps else perm.windows)
    && !m.active.value.finishing
  }

  predicate ModifierReleased(m: Machine)
    requires Shape(m)
  {
    && m.active.Some? && !m.active.value.sticky && !m.active.value.finishing
    && !ModifierPressed(m.pressed, m.active.value.modifier)
  }

  function KindOf(h: Hotkey): SwitchKind {
    if h.id == SWITCH_APPS_HOTKEY_ID then Apps
    else if h.id == SEARCH_HOTKEY_ID then Search
    else Windows
  }

  /** A normal switch replaces a sticky gesture, and a search replaces anything but a search. */
  predicate Replaces(g: Gesture, kind: SwitchKind) {
    (g.sticky && (kind != Search || g.kind != Search)) || (kind == Search && g.kind != Search)
  }

  // ---- Operations --------------------------------------------------------

  function Finishing(m: Machine): Machine
    requires m.active.Some?
  {
    m.(active := Some(m.active.value.(finishing := true)))
  }

  /** The machine after the stale gesture is dropped and the key's state recorded. */
  function Observed(m: Machine, i: nat, down: bool, acknowledged: nat, revoked: nat): Machine
    requires Shape(m) && i < KEYS
  {
    m.(active := if Stale(m, acknowledged, revoked) then None else m.active,
       pressed := m.pressed[i := down])
  }

  function Handle(m: Machine, key: Key, perm: Permissions, acknowledged: nat, revoked: nat): (Machine, Decision)
    requires Shape(m)
  {
    match key.Index()
    case None => (m, PASS)
    case Some(i) =>
      var repeated := m.pressed[i];
      var o := Observed(m, i, key.down, acknowledged, revoked);
      if key.down && AnyMatch(o, PAUSE_HOTKEY_ID, key) then
        (o, Decision(true, if repeated then None else Some(Event(0, TogglePause))))
      else if LostPermission(o, perm) then
        (Finishing(o), Decision(false, Some(Event(o.active.value.session, Cancel))))
      else if ModifierReleased(o) then
        (Finishing(o), Decision(false, Some(Event(o.active.value.session, Finish(o.active.value.kind)))))
      else if !key.down then
        (o.(consumed := o.consumed[i := false]), Decision(o.consumed[i], None))
      else if o.active.Some? && o.active.value.finishing then
        (o, PASS)
      else
        Press(o, i, key, repeated, perm)
  }

  /** A key press that no recovery, cancellation or completion has claimed. */
  function Press(o: Machine, i: nat, key: Key, repeated: bool, perm: Permissions): (Machine, Decision)
    requires Shape(o) && i < KEYS
  {
    if repeated && o.consumed[i] && o.active.Some? && o.active.value.sticky
       && AnyCode(o, DETAILS_HOTKEY_ID, key.scan) then
      (o, Decision(true, None))
    else if perm.surface == Panel && perm.apps && o.active.Some? && o.active.value.kind == Apps
            && AnyMatch(o, DETAILS_HOTKEY_ID, key) then
      var g := o.active.value.(sticky := true);
      (o.(active := Some(g)), Decision(true, if repeated then None else Some(Event(g.session, ShowDetails))))
    else
      match FirstMatch(o, key, perm, 0)
      case Some(h) => Trigger(o, h)
      case None => Navigate(o, key, perm)
  }

  /** A matched switch hotkey: start, replace or continue a gesture. */
  function Trigger(o: Machine, h: Hotkey): (Machine, Decision)
    requires Shape(o)
  {
    var kind := KindOf(h);
    var kept := if o.active.Some? && Replaces(o.active.value, kind) then None else o.active;
    if kept.Some? && kept.value.modifier != h.modifier then
      (o.(active := kept), PASS)
    else if kept.None? && o.nextSession == U64_MAX then
      (o.(active := None), PASS)
    else
      var session := if kept.None? then o.nextSession + 1 else kept.value.session;
      var g := if kept.None? then Gesture(session, kind, h.modifier, false, kind == Search)
               else kept.value.(kind := kind);
      var reverse := o.pressed[0x2a] || o.pressed[0x36];
      (o.(active := Some(g), nextSession := if kept.None? then session else o.nextSession),
       Decision(true, Some(Event(session, Cycle(kind, reverse)))))
  }

  /** Escape, Enter and the arrow keys inside a live application gesture. */
  function Navigate(o: Machine, key: Key, perm: Permissions): (Machine, Decision) {
    if o.active.Some? && o.active.value.kind == Apps && (!o.active.value.sticky || perm.surface == Panel) then
      var g := o.active.value;
      if key.scan == 0x01 then
        (Finishing(o), Decision(true, Some(Event(g.session, Cancel))))
      else if key.scan == 0x1c && g.sticky then
        (Finishing(o), Decision(true, Some(Event(g.session, Finish(Apps)))))
      else if (key.scan == 0x48 || key.scan == 0x4b || key.scan == 0x4d || key.scan == 0x50) && key.extended then
        (o, Decision(true, Some(Event(g.session, Cycle(Apps, key.scan == 0x48 || key.scan == 0x4b)))))
      else (o, PASS)
    else (o, PASS)
  }

  function Accepted(m: Machine, key: Key, consume: bool): Machine
    requires Shape(m)
  {
    if key.down && key.Index().Some? then m.(consumed := m.consumed[key.Index().value := consume]) else m
  }

  function Rejected(m: Machine, key: Key): Machine
    requires Shape(m)
  {
    Accepted(m.(active := None), key, false)
  }

  /** One hook callback: decide, submit the event if there is one, record the outcome.
      The second component is what the hook returns to the system. */
  function Process(m: Machine, key: Key, perm: Permissions, acknowledged: nat, revoked: nat, submitted: bool)
      : (Machine, bool)
    requires Shape(m)
  {
    var (decided, d) := Handle(m, key, perm, acknowledged, revoked);
    HandleKeepsShape(m, key, perm, acknowledged, revoked);
    if d.event.None? || submitted then (Accepted(decided, key, d.consume), d.consume)
    else (Rejected(decided, key), false)
  }

  function NoKeys(): (r: seq<bool>)
    ensures |r| == KEYS
  {
    seq(KEYS, _ => false)
  }

  function Initial(hotkeys: seq<Hotkey>): Machine {
    Machine(hotkeys, NoKeys(), NoKeys(), None, 0, false)
  }

  function Reset(m: Machine): (Machine, Option<nat>) {
    (m.(pressed := NoKeys(), consumed := NoKeys(), injectedControl := false, active := None),
     if m.active.Some? then Some(m.active.value.session) else None)
  }

  function ObserveInjected(m: Machine, key: Key): Machine {
    if key.scan == 0x1d && !key.extended then m.(injectedControl := key.down) else m
  }

  /** The modifier keys in the order in which activation reads them from the system. */
  const SEEDED: seq<Key> := [
    Key(0x38, false, true), Key(0x38, true, true), Key(0x1d, false, true), Key(0x1d, true, true),
    Key(0x5b, true, true), Key(0x5c, true, true), Key(0x2a, false, true), Key(0x36, false, true)
  ]

  function SeedOne(m: Machine, scan: nat, extended: bool, down: bool): Machine
    requires Shape(m)
  {
    match Key(scan, extended, down).Index()
    case None => m
    case Some(i) => m.(pressed := m.pressed[i := down])
  }

  function Seed(m: Machine, states: seq<bool>, n: nat): (r: Machine)
    requires Shape(m) && |states| == |SEEDED| && n <= |SEEDED|
    ensures Shape(r)
  {
    if n == 0 then m
    else SeedOne(Seed(m, states, n - 1), SEEDED[n - 1].scan, SEEDED[n - 1].extended, states[n - 1])
  }

  lemma HandleKeepsShape(m: Machine, key: Key, perm: Permissions, acknowledged: nat, revoked: nat)
    requires Shape(m)
    ensures Shape(Handle(m, key, perm, acknowledged, revoked).0)
  {
  }
}
