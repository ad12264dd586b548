/**
 Walking a list in a circle, and carrying the place over to a fresh list
 (src/app/navigation.rs).
 */
module Navigation {
  import opened Arithmetic
  import opened Wrappers

  function CycleIndex(current: nat, count: nat, reverse: bool): (r: nat)
    requires count > 0
    ensures r < count
  {
    var at := if current < count then current else count - 1;
    if reverse then (if at == 0 then count - 1 else at - 1)
    else if at + 1 == count then 0 else at + 1
  }

  lemma CycleIsStep(at: int, count: nat, reverse: bool)
    requires count > 0
    ensures 0 <= at % count < count
    ensures CycleIndex(at % count, count, reverse) == (at + if reverse then -1 else 1) % count
  {
    var q, r := at / count, at % count;
    assert at == q * count + r;
    if reverse {
      if r == 0 {
        DivModIs(at - 1, q - 1, count - 1, count);
      } else {
        DivModIs(at - 1, q, r - 1, count);
      }
    } else if r + 1 == count {
      DivModIs(at + 1, q + 1, 0, count);
    } else {
      DivModIs(at + 1, q, r + 1, count);
    }
  }

  // ---- Insertion-ordered sets --------------------------------------------

  predicate NoRepeats(s: seq<nat>) {
    forall i, j :: 0 <= i < j < |s| ==> s[i] != s[j]
  }

  /** `collect` into an ordered set: every value where it first occurs. */
  function Collected(s: seq<nat>): seq<nat> {
    if s == [] then []
    else
      var init, last := Collected(s[..|s| - 1]), s[|s| - 1];
      if last in init then init else init + [last]
  }

  function IndexOf(s: seq<nat>, x: nat): (i: nat)
    requires x in s
    ensures i < |s| && s[i] == x && x !in s[..i]
  {
    if s[0] == x then 0 else 1 + IndexOf(s[1..], x)
  }

  /** `swap_remove`: the last value takes the place of the one removed. */
  function SwapRemoved(s: seq<nat>, x: nat): seq<nat>
    requires x in s
  {
    var at, last := IndexOf(s, x), s[|s| - 1];
    s[at := last][..|s| - 1]
  }

  /** The previous values still in the set, each taken out of it as it is met. */
  function Survivors(previous: seq<nat>, remaining: seq<nat>): (seq<nat>, seq<nat>) {
    if previous == [] then ([], remaining)
    else if previous[0] in remaining then
      var (kept, rest) := Survivors(previous[1..], SwapRemoved(remaining, previous[0]));
      ([previous[0]] + kept, rest)
    else Survivors(previous[1..], remaining)
  }

  /** The old arrangement, less what is gone, then what is new. */
  function Arranged(previous: seq<nat>, current: seq<nat>): seq<nat> {
    var (kept, rest) := Survivors(previous, Collected(current));
    kept + rest
  }

  /** `reconcile_cycle`: where to go next, or nothing when there is nowhere to go. */
  function Reconcile(previous: seq<nat>, cached: nat, current: seq<nat>, reverse: bool): Option<(seq<nat>, nat)> {
    var ordered := Arranged(previous, current);
    if ordered == [] then None
    else
      var base :=
        if cached < |previous| && previous[cached] in ordered then IndexOf(ordered, previous[cached])
        else if cached < |ordered| then cached else |ordered| - 1;
      Some((ordered, CycleIndex(base, |ordered|, reverse)))
  }

  // ---- Laws --------------------------------------------------------------

  lemma {:induction false} CollectedIsSet(s: seq<nat>)
    ensures NoRepeats(Collected(s)) && forall x :: x in Collected(s) <==> x in s
    decreases |s|
  {
    if s != [] {
      CollectedIsSet(s[..|s| - 1]);
      assert s == s[..|s| - 1] + [s[|s| - 1]];
    }
  }

  lemma SwapRemovedIsSet(s: seq<nat>, x: nat)
    requires NoRepeats(s) && x in s
    ensures NoRepeats(SwapRemoved(s, x)) && |SwapRemoved(s, x)| == |s| - 1
    ensures forall y :: y in SwapRemoved(s, x) <==> y in s && y != x
  {
    var at, last, r := IndexOf(s, x), s[|s| - 1], SwapRemoved(s, x);
    assert forall i :: 0 <= i < |r| ==> r[i] == if i == at then last else s[i];
    forall y | y in s && y != x
      ensures y in r
    {
      var i := IndexOf(s, y);
      assert r[if i == |s| - 1 then at else i] == y;
    }
    forall y | y in r
      ensures y in s && y != x
    {
      var i := IndexOf(r, y);
      assert y == if i == at then last else s[i];
    }
  }

  lemma {:induction false} SurvivorsShareOut(previous: seq<nat>, remaining: seq<nat>)
    requires NoRepeats(remaining)
    ensures var (kept, rest) := Survivors(previous, remaining);
      && NoRepeats(kept) && NoRepeats(rest) && |kept| + |rest| == |remaining|
      && (forall x :: x in kept <==> x in previous && x in remaining)
      && (forall x :: x in rest <==> x !in previous && x in remaining)
    decreases |previous|
  {
    if previous != [] {
      var x, later := previous[0], previous[1..];
      assert previous == [x] + later;
      if x in remaining {
        SwapRemovedIsSet(remaining, x);
        SurvivorsShareOut(later, SwapRemoved(remaining, x));
      } else {
        SurvivorsShareOut(later, remaining);
      }
    }
  }

  /** The values of `s` that are in `among`, each where it first occurs, in the order of `s`. */
  function FirstOccurrences(s: seq<nat>, among: set<nat>): seq<nat> {
    if s == [] then []
    else if s[0] in among then [s[0]] + FirstOccurrences(s[1..], among - {s[0]})
    else FirstOccurrences(s[1..], among)
  }

  lemma {:induction false} SurvivorsInOrder(previous: seq<nat>, remaining: seq<nat>, among: set<nat>)
    requires NoRepeats(remaining) && forall x :: x in remaining <==> x in among
    ensures Survivors(previous, remaining).0 == FirstOccurrences(previous, among)
    decreases |previous|
  {
    if previous != [] {
      var x := previous[0];
      if x in remaining {
        SwapRemovedIsSet(remaining, x);
        SurvivorsInOrder(previous[1..], SwapRemoved(remaining, x), among - {x});
      } else {
        SurvivorsInOrder(previous[1..], remaining, among);
      }
    }
  }

  lemma JoinedNoRepeats(a: seq<nat>, b: seq<nat>)
    requires NoRepeats(a) && NoRepeats(b) && forall x :: x in a ==> x !in b
    ensures NoRepeats(a + b)
  {
    assert forall i :: 0 <= i < |a| ==> (a + b)[i] in a;
    assert forall i :: |a| <= i < |a + b| ==> (a + b)[i] in b;
  }

  /** The result is the fresh list without repeats: the survivors first, in their old order, and an
      index within it; and there is no result exactly when the fresh list is empty. */
  lemma ReconcileArranges(previous: seq<nat>, cached: nat, current: seq<nat>, reverse: bool)
    ensures Reconcile(previous, cached, current, reverse).None? <==> current == []
    ensures Reconcile(previous, cached, current, reverse).Some? ==>
      var (ordered, index) := Reconcile(previous, cached, current, reverse).value;
      && NoRepeats(ordered) && index < |ordered| && (forall x :: x in ordered <==> x in current)
      && FirstOccurrences(previous, set x | x in current) <= ordered
  {
    CollectedIsSet(current);
    SurvivorsShareOut(previous, Collected(current));
    SurvivorsInOrder(previous, Collected(current), set x | x in current);
    var (kept, rest) := Survivors(previous, Collected(current));
    JoinedNoRepeats(kept, rest);
    if current != [] {
      assert current[0] in Arranged(previous, current);
    }
    assert forall x :: x in kept + rest <==> x in current;
  }

  lemma SomethingIn(s: seq<nat>)
    ensures s != [] ==> exists x :: x in s
  {
    if s != [] {
      assert s[0] in s;
    }
  }

  lemma {:induction false} AllSurvive(previous: seq<nat>, remaining: seq<nat>)
    requires NoRepeats(previous) && NoRepeats(remaining) && forall x :: x in previous <==> x in remaining
    ensures Survivors(previous, remaining) == (previous, [])
    decreases |previous|
  {
    if previous == [] {
      SomethingIn(remaining);
    } else {
      var x, later := previous[0], previous[1..];
      assert previous == [x] + later;
      SwapRemovedIsSet(remaining, x);
      AllSurvive(later, SwapRemoved(remaining, x));
    }
  }

  /** A fresh list of the same values, in any order, changes nothing: the walk goes on by one. */
  lemma SameValuesKeepPlace(previous: seq<nat>, cached: nat, current: seq<nat>, reverse: bool)
    requires NoRepeats(previous) && cached < |previous| && forall x :: x in previous <==> x in current
    ensures Reconcile(previous, cached, current, reverse) == Some((previous, CycleIndex(cached, |previous|, reverse)))
  {
    CollectedIsSet(current);
    AllSurvive(previous, Collected(current));
    assert previous + [] == previous;
    var at := IndexOf(previous, previous[cached]);
    assert at == cached;
  }

  // ---- As the code runs it -----------------------------------------------

  /** The loop over the previous values, which empties the set as it goes. */
  method ReconcileCycle(previous: seq<nat>, cached: nat, current: seq<nat>, reverse: bool)
    returns (r: Option<(seq<nat>, nat)>)
    ensures r == Reconcile(previous, cached, current, reverse)
  {
    var remaining := Collected(current);
    var ordered: seq<nat> := [];
    var i := 0;
    assert previous[0..] == previous && ordered + Survivors(previous, remaining).0 == Survivors(previous, remaining).0;
    while i < |previous|
      invariant i <= |previous|
      invariant var (kept, rest) := Survivors(previous[i..], remaining);
        Survivors(previous, Collected(current)) == (ordered + kept, rest)
    {
      var x := previous[i];
      assert previous[i..][1..] == previous[i + 1..];
      if x in remaining {
        ghost var (kept, rest) := Survivors(previous[i + 1..], SwapRemoved(remaining, x));
        Assoc3(ordered, x, kept);
        remaining := SwapRemoved(remaining, x);
        ordered := ordered + [x];
      }
      i := i + 1;
    }
    assert Survivors([], remaining) == ([], remaining);
    assert ordered + [] == ordered;
    ordered := ordered + remaining;
    if ordered == [] {
      return None;
    }
    var base := if cached < |ordered| then cached else |ordered| - 1;
    if cached < |previous| && previous[cached] in ordered {
      base := IndexOf(ordered, previous[cached]);
    }
    r := Some((ordered, CycleIndex(base, |ordered|, reverse)));
  }

  lemma Assoc3(a: seq<nat>, x: nat, b: seq<nat>)
    ensures a + ([x] + b) == (a + [x]) + b
  {
  }
}
