/**
 Cycling through the windows of one application (src/app/window_cycle.rs).

 Every press takes a fresh list of the application's windows, in whatever order the system
 gives it, and activates the next one; the order of the first press is remembered until the
 modifier is released.
 */
module WindowCycle {
  import opened Arithmetic
  import opened Navigation
  import opened Wrappers

  /** What is remembered: the application, the window it began at, the place and the order. */
  datatype Cache = Cache(group: nat, anchor: nat, index: nat, windows: seq<nat>)

  datatype Cycling = Cycling(cache: Option<Cache>, released: bool)

  /** The application the user is in: its windows, and which of them the user is in. */
  datatype Listing = Listing(group: nat, windows: seq<nat>, at: nat)

  datatype Choice = Choice(ordered: seq<nat>, index: nat, anchor: nat)

  /** `cycle_windows` up to the activation. */
  function Choose(s: Cycling, l: Listing, mru: bool, reverse: bool): (c: Choice)
    requires l.at < |l.windows|
  {
    var start := if mru then l.at else 0;
    var first := Choice(l.windows, CycleIndex(start, |l.windows|, reverse), l.windows[start]);
    if s.cache.None? || s.cache.value.group != l.group then first
    else
      var cache := s.cache.value;
      if s.released then
        if !mru && cache.anchor != l.windows[0] && cache.anchor in l.windows
        then first.(index := IndexOf(l.windows, cache.anchor)) else first
      else
        match Reconcile(cache.windows, cache.index, l.windows, reverse)
        case Some((ordered, index)) =>
          Choice(ordered, index, if cache.anchor in l.windows then cache.anchor else first.anchor)
        case None => first
  }

  /** One press: nothing to do with fewer than two windows; the place is remembered only if the
      window really came to the foreground. */
  function Press(s: Cycling, l: Listing, mru: bool, reverse: bool, activates: bool): (r: (Cycling, Option<nat>))
    requires l.at < |l.windows|
  {
    if |l.windows| < 2 then (s, None)
    else
      var c := Choose(s, l, mru, reverse);
      if c.index >= |c.ordered| || !activates then (s, None)
      else (Cycling(Some(Cache(l.group, c.anchor, c.index, c.ordered)), false), Some(c.ordered[c.index]))
  }

  class Windows {
    var cache: Option<Cache>
    var released: bool

    constructor ()
      ensures View() == Cycling(None, true)
    {
      cache, released := None, true;
    }

    function View(): Cycling
      reads this
    {
      Cycling(cache, released)
    }

    /** `cycle_windows`; `activates` is whether the filter allows the window and it comes forward. */
    method CycleWindows(l: Listing, mru: bool, reverse: bool, activates: bool) returns (target: Option<nat>)
      requires l.at < |l.windows|
      modifies this
      ensures (View(), target) == Press(old(View()), l, mru, reverse, activates)
    {
      if |l.windows| < 2 {
        return None;
      }
      var ordered := l.windows;
      var anchorIndex := if mru then l.at else 0;
      var anchor := ordered[anchorIndex];
      var index := CycleIndex(anchorIndex, |ordered|, reverse);
      if cache.Some? && cache.value.group == l.group {
        if released {
          if !mru && cache.value.anchor != l.windows[0] && cache.value.anchor in l.windows {
            index := IndexOf(l.windows, cache.value.anchor);
          }
        } else {
          var reconciled := ReconcileCycle(cache.value.windows, cache.value.index, l.windows, reverse);
          if reconciled.Some? {
            ordered, index := reconciled.value.0, reconciled.value.1;
            if cache.value.anchor in l.windows {
              anchor := cache.value.anchor;
            }
          }
        }
      }
      if index >= |ordered| || !activates {
        return None;
      }
      cache := Some(Cache(l.group, anchor, index, ordered));
      released := false;
      target := Some(ordered[index]);
    }

    /** `complete_switch` lets go of the order at the next press. */
    method Release()
      modifies this`released
      ensures View() == old(View()).(released := true)
    {
      released := true;
    }
  }

  // ---- A run of presses --------------------------------------------------

  /** The listings are of one application with the same windows, in any order. */
  ghost predicate SameWindows(listings: seq<Listing>, group: nat, windows: set<nat>) {
    forall k :: 0 <= k < |listings| ==>
      && listings[k].group == group && listings[k].at < |listings[k].windows|
      && NoRepeats(listings[k].windows) && |listings[k].windows| == |windows|
      && forall x :: x in listings[k].windows <==> x in windows
  }

  /** Successful presses in one direction while the modifier is held: the states and the windows. */
  ghost predicate Presses(states: seq<Cycling>, listings: seq<Listing>, targets: seq<nat>, mru: bool, reverse: bool) {
    && |states| == |listings| + 1 && |targets| == |listings|
    && forall k :: 0 <= k < |listings| ==>
         listings[k].at < |listings[k].windows|
         && Press(states[k], listings[k], mru, reverse, true) == (states[k + 1], Some(targets[k]))
  }

  /** The order of the first press, and the place it began at, carried on by one per press. */
  ghost predicate Walks(s: Cycling, group: nat, order: seq<nat>, at: int) {
    && !s.released && s.cache.Some? && s.cache.value.group == group
    && order != [] && s.cache.value.windows == order && s.cache.value.index == at % |order|
  }

  lemma FirstPress(s: Cycling, l: Listing, mru: bool, reverse: bool)
    requires l.at < |l.windows| && 2 <= |l.windows| && NoRepeats(l.windows)
    ensures var c := Choose(s, l, mru, reverse);
      NoRepeats(c.ordered) && c.index < |c.ordered| && (forall x :: x in c.ordered <==> x in l.windows)
      && |c.ordered| == |l.windows|
  {
    var c := Choose(s, l, mru, reverse);
    if s.cache.Some? && s.cache.value.group == l.group && !s.released {
      ReconcileArranges(s.cache.value.windows, s.cache.value.index, l.windows, reverse);
      SameSize(c.ordered, l.windows);
    }
  }

  lemma SameSize(a: seq<nat>, b: seq<nat>)
    requires NoRepeats(a) && NoRepeats(b) && forall x :: x in a <==> x in b
    ensures |a| == |b|
  {
    SizeOfSet(a);
    SizeOfSet(b);
    assert ToSet(a) == ToSet(b);
  }

  function ToSet(a: seq<nat>): set<nat> {
    set x | x in a
  }

  lemma {:induction false} SizeOfSet(a: seq<nat>)
    requires NoRepeats(a)
    ensures |ToSet(a)| == |a|
    decreases |a|
  {
    if a == [] {
      assert ToSet(a) == {};
    } else {
      var init, last := a[..|a| - 1], a[|a| - 1];
      SizeOfSet(init);
      assert a == init + [last];
      assert ToSet(a) == ToSet(init) + {last};
      assert last !in ToSet(init);
    }
  }

  /** `k` places on from `start`, in the direction of the presses. */
  function Place(start: int, k: int, reverse: bool): int {
    if reverse then start - k else start + k
  }

  lemma NextPress(s: Cycling, l: Listing, mru: bool, reverse: bool, group: nat, order: seq<nat>, at: int,
                  s': Cycling, target: nat)
    requires Walks(s, group, order, at) && NoRepeats(order) && l.group == group && 2 <= |l.windows|
    requires l.at < |l.windows| && forall x :: x in order <==> x in l.windows
    requires Press(s, l, mru, reverse, true) == (s', Some(target))
    ensures 0 <= Place(at, 1, reverse) % |order| < |order|
    ensures Walks(s', group, order, Place(at, 1, reverse)) && target == order[Place(at, 1, reverse) % |order|]
  {
    CycleIsStep(at, |order|, reverse);
    SameValuesKeepPlace(order, s.cache.value.index, l.windows, reverse);
  }

  /** The states, applications and windows of a walk after `k` presses. */
  ghost predicate WalkedTo(states: seq<Cycling>, targets: seq<nat>, group: nat, order: seq<nat>, at: int, k: nat)
    requires k < |targets| && |states| == |targets| + 1
  {
    order != [] && Walks(states[k + 1], group, order, at) && 0 <= at % |order| < |order|
    && targets[k] == order[at % |order|]
  }

  lemma WalksOn(
      states: seq<Cycling>, listings: seq<Listing>, targets: seq<nat>, mru: bool, reverse: bool,
      group: nat, windows: set<nat>, order: seq<nat>, at: int, k: nat)
    requires Presses(states, listings, targets, mru, reverse) && SameWindows(listings, group, windows)
    requires 0 < k < |listings| && |windows| >= 2 && NoRepeats(order) && forall x :: x in order <==> x in windows
    requires WalkedTo(states, targets, group, order, at, k - 1)
    ensures WalkedTo(states, targets, group, order, Place(at, 1, reverse), k)
  {
    assert listings[k].group == group && forall x :: x in listings[k].windows <==> x in windows;
    NextPress(states[k], listings[k], mru, reverse, group, order, at, states[k + 1], targets[k]);
  }

  /** Wherever the walk has got to, press `k` takes it one place on. */
  ghost predicate Advances(
      states: seq<Cycling>, targets: seq<nat>, group: nat, order: seq<nat>, reverse: bool, k: nat)
    requires 0 < k < |targets| && |states| == |targets| + 1
  {
    forall at: int :: WalkedTo(states, targets, group, order, at, k - 1) ==>
      WalkedTo(states, targets, group, order, Place(at, 1, reverse), k)
  }

  lemma PressesAdvance(
      states: seq<Cycling>, listings: seq<Listing>, targets: seq<nat>, mru: bool, reverse: bool,
      group: nat, windows: set<nat>, order: seq<nat>, k: nat)
    requires Presses(states, listings, targets, mru, reverse) && SameWindows(listings, group, windows)
    requires 0 < k < |listings| && |windows| >= 2 && NoRepeats(order) && forall x :: x in order <==> x in windows
    ensures Advances(states, targets, group, order, reverse, k)
  {
    forall at: int | WalkedTo(states, targets, group, order, at, k - 1)
      ensures WalkedTo(states, targets, group, order, Place(at, 1, reverse), k)
    {
      WalksOn(states, listings, targets, mru, reverse, group, windows, order, at, k);
    }
  }

  /** The `k`-th press activates the window `k` places on in the order of the first. */
  lemma {:induction false} EveryPressWalks(
      states: seq<Cycling>, targets: seq<nat>, reverse: bool, group: nat, order: seq<nat>, start: nat, k: nat)
    requires k < |targets| && |states| == |targets| + 1 && WalkedTo(states, targets, group, order, start, 0)
    requires forall j :: 0 < j < |targets| ==> Advances(states, targets, group, order, reverse, j)
    ensures WalkedTo(states, targets, group, order, Place(start, k, reverse), k)
  {
    if k > 0 {
      EveryPressWalks(states, targets, reverse, group, order, start, k - 1);
      assert Advances(states, targets, group, order, reverse, k);
      assert Place(Place(start, k - 1, reverse), 1, reverse) == Place(start, k, reverse);
    }
  }

  lemma DifferentPlaces(start: int, i: int, j: int, n: int, reverse: bool)
    requires 0 <= i < j < n
    ensures Place(start, i, reverse) % n != Place(start, j, reverse) % n
  {
    SameRemainder(Place(start, i, reverse), Place(start, j, reverse), n);
  }

  lemma PlacesAreApart(order: seq<nat>, targets: seq<nat>, start: int, reverse: bool)
    requires NoRepeats(order) && |targets| == |order|
    requires forall k :: 0 <= k < |targets| ==> targets[k] == order[Place(start, k, reverse) % |order|]
    ensures NoRepeats(targets)
  {
    forall i, j | 0 <= i < j < |targets|
      ensures targets[i] != targets[j]
    {
      DifferentPlaces(start, i, j, |order|, reverse);
    }
  }

  /** Numbers with the same remainder are equal or far apart. */
  lemma SameRemainder(a: int, b: int, n: int)
    requires n > 0
    ensures a % n == b % n ==> a == b || a - b >= n || b - a >= n
  {
    var qa, qb := a / n, b / n;
    assert a == qa * n + a % n && b == qb * n + b % n;
    assert (qa - qb) * n == qa * n - qb * n;
    MultipleIsFar(qa - qb, n);
  }

  /** The first press begins the walk: its order has the windows, each once. */
  lemma FirstWalks(
      states: seq<Cycling>, listings: seq<Listing>, targets: seq<nat>, mru: bool, reverse: bool,
      group: nat, windows: set<nat>) returns (order: seq<nat>, start: nat)
    requires Presses(states, listings, targets, mru, reverse) && SameWindows(listings, group, windows)
    requires |listings| == |windows| >= 2
    ensures NoRepeats(order) && |order| == |windows| && forall x :: x in order <==> x in windows
    ensures WalkedTo(states, targets, group, order, start, 0)
  {
    FirstPress(states[0], listings[0], mru, reverse);
    var c := Choose(states[0], listings[0], mru, reverse);
    order, start := c.ordered, c.index;
    DivModIs(start, 0, start, |order|);
  }

  lemma TargetIs(
      states: seq<Cycling>, listings: seq<Listing>, targets: seq<nat>, mru: bool, reverse: bool,
      group: nat, windows: set<nat>, order: seq<nat>, start: nat, k: nat)
    requires Presses(states, listings, targets, mru, reverse) && SameWindows(listings, group, windows)
    requires k < |listings| && |windows| >= 2
    requires NoRepeats(order) && forall x :: x in order <==> x in windows
    requires WalkedTo(states, targets, group, order, start, 0)
    ensures WalkedTo(states, targets, group, order, Place(start, k, reverse), k)
  {
    forall j | 0 < j < |targets|
      ensures Advances(states, targets, group, order, reverse, j)
    {
      PressesAdvance(states, listings, targets, mru, reverse, group, windows, order, j);
    }
    EveryPressWalks(states, targets, reverse, group, order, start, k);
  }

  /** While the modifier is held and the windows stay the same, as many presses in one direction
      as there are windows activate every one of them, and none twice, however the list is
      reordered in between. */
  lemma EveryWindowOnce(
      states: seq<Cycling>, listings: seq<Listing>, targets: seq<nat>, mru: bool, reverse: bool,
      group: nat, windows: set<nat>)
    requires Presses(states, listings, targets, mru, reverse) && SameWindows(listings, group, windows)
    requires |listings| == |windows| >= 2
    ensures NoRepeats(targets) && forall x :: x in targets <==> x in windows
  {
    var order, start := FirstWalks(states, listings, targets, mru, reverse, group, windows);
    forall k | 0 <= k < |targets|
      ensures var at := Place(start, k, reverse) % |order|; 0 <= at < |order| && targets[k] == order[at]
    {
      TargetIs(states, listings, targets, mru, reverse, group, windows, order, start, k);
    }
    PlacesAreApart(order, targets, start, reverse);
    AllOfThem(targets, windows);
  }

  /** As many different members as there are members are all of them. */
  lemma AllOfThem(targets: seq<nat>, windows: set<nat>)
    requires NoRepeats(targets) && |targets| == |windows| && forall k :: 0 <= k < |targets| ==> targets[k] in windows
    ensures forall x :: x in targets <==> x in windows
  {
    SizeOfSet(targets);
    assert ToSet(targets) <= windows;
    forall x | x in windows
      ensures x in targets
    {
      if x !in ToSet(targets) {
        FewerWithout(ToSet(targets), windows, x);
      }
    }
  }

  lemma FewerWithout(part: set<nat>, whole: set<nat>, x: nat)
    requires part <= whole && x in whole && x !in part
    ensures |part| < |whole|
  {
    assert part <= whole - {x};
    assert whole == (whole - {x}) + {x};
    assert whole - {x} == part + (whole - {x} - part);
  }
}
