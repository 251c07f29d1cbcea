/** What several modules share. */
module Common {

  datatype Option<+T> = None | Some(value: T)

  lemma Associative<T>(a: seq<T>, b: seq<T>, c: seq<T>)
    ensures a + b + c == a + (b + c)
  {
  }

  lemma SubsetSize<T>(small: set<T>, large: set<T>)
    requires small <= large
    ensures |small| <= |large| && (|small| == |large| ==> small == large)
  {
    assert large == small + (large - small);
  }

  lemma Outside<T>(small: set<T>, large: set<T>) returns (e: T)
    requires small <= large && |small| < |large|
    ensures e in large && e !in small
  {
    assert large == small + (large - small);
    e :| e in large - small;
  }

  /** The kept items, in order. */
  function Filter<T>(items: seq<T>, keep: T -> bool): (kept: seq<T>)
    ensures |kept| <= |items|
  {
    if items == [] then []
    else if keep(items[0]) then [items[0]] + Filter(items[1..], keep)
    else Filter(items[1..], keep)
  }

  lemma {:induction false} FilterConcat<T>(a: seq<T>, b: seq<T>, keep: T -> bool)
    ensures Filter(a + b, keep) == Filter(a, keep) + Filter(b, keep)
  {
    if a == [] {
      assert a + b == b;
    } else {
      FilterConcat(a[1..], b, keep);
      assert (a + b)[0] == a[0] && (a + b)[1..] == a[1..] + b;
      Associative([a[0]], Filter(a[1..], keep), Filter(b, keep));
    }
  }

  lemma FilterSnoc<T>(items: seq<T>, x: T, keep: T -> bool)
    ensures Filter(items + [x], keep) == if keep(x) then Filter(items, keep) + [x] else Filter(items, keep)
  {
    FilterConcat(items, [x], keep);
    assert [x][1..] == [];
  }

  lemma {:induction false} FilterContains<T>(items: seq<T>, keep: T -> bool, x: T)
    ensures x in Filter(items, keep) <==> x in items && keep(x)
  {
    if items != [] {
      FilterContains(items[1..], keep, x);
      assert x in items <==> x == items[0] || x in items[1..];
    }
  }

  /** The places, in increasing order, are exactly those whose item is kept, and the kept items
      stand there. */
  ghost predicate IsSelection<T>(items: seq<T>, keep: T -> bool, kept: seq<T>, places: seq<nat>) {
    Increasing(places) && StandAt(items, kept, places) && Covers(items, keep, places)
  }

  ghost predicate Increasing(places: seq<nat>) {
    forall i, j :: 0 <= i < j < |places| ==> places[i] < places[j]
  }

  ghost predicate StandAt<T>(items: seq<T>, kept: seq<T>, places: seq<nat>) {
    |places| == |kept| && forall i :: 0 <= i < |places| ==> places[i] < |items| && kept[i] == items[places[i]]
  }

  ghost predicate Covers<T>(items: seq<T>, keep: T -> bool, places: seq<nat>) {
    forall k :: 0 <= k < |items| ==> (keep(items[k]) <==> k in places)
  }

  function Shifted(places: seq<nat>): (r: seq<nat>)
    ensures |r| == |places| && forall i :: 0 <= i < |places| ==> r[i] == places[i] + 1
  {
    if places == [] then [] else [places[0] + 1] + Shifted(places[1..])
  }

  lemma ShiftedContains(places: seq<nat>, k: nat)
    ensures k in Shifted(places) <==> k > 0 && k - 1 in places
  {
    if k > 0 && k - 1 in places {
      var i :| 0 <= i < |places| && places[i] == k - 1;
      assert Shifted(places)[i] == k;
    }
  }

  lemma OneMoreStandsAt<T>(x: T, items: seq<T>, kept: seq<T>, places: seq<nat>)
    requires StandAt(items, kept, places)
    ensures StandAt([x] + items, kept, Shifted(places))
    ensures StandAt([x] + items, [x] + kept, [0] + Shifted(places))
  {
  }

  lemma ShiftedIncreases(places: seq<nat>)
    requires Increasing(places)
    ensures Increasing(Shifted(places)) && Increasing([0] + Shifted(places))
  {
  }

  lemma FilterCons<T>(x: T, rest: seq<T>, keep: T -> bool)
    ensures Filter([x] + rest, keep) == if keep(x) then [x] + Filter(rest, keep) else Filter(rest, keep)
  {
    assert ([x] + rest)[1..] == rest;
  }

  lemma OneMoreCovered<T>(x: T, items: seq<T>, keep: T -> bool, places: seq<nat>)
    requires Covers(items, keep, places)
    ensures Covers([x] + items, keep, if keep(x) then [0] + Shifted(places) else Shifted(places))
  {
    var places' := if keep(x) then [0] + Shifted(places) else Shifted(places);
    forall k | 0 <= k < |[x] + items| ensures keep(([x] + items)[k]) <==> k in places' {
      ShiftedContains(places, k);
    }
  }

  lemma SelectionCons<T>(x: T, rest: seq<T>, keep: T -> bool, there: seq<nat>) returns (places: seq<nat>)
    requires IsSelection(rest, keep, Filter(rest, keep), there)
    ensures IsSelection([x] + rest, keep, Filter([x] + rest, keep), places)
  {
    OneMoreStandsAt(x, rest, Filter(rest, keep), there);
    OneMoreCovered(x, rest, keep, there);
    ShiftedIncreases(there);
    FilterCons(x, rest, keep);
    places := if keep(x) then [0] + Shifted(there) else Shifted(there);
  }

  /** Filtering keeps exactly the items it should, each at its turn. */
  lemma {:induction false} FilterIsExact<T>(items: seq<T>, keep: T -> bool) returns (places: seq<nat>)
    ensures IsSelection(items, keep, Filter(items, keep), places)
  {
    if items == [] {
      places := [];
    } else {
      var there := FilterIsExact(items[1..], keep);
      places := SelectionCons(items[0], items[1..], keep, there);
      assert items == [items[0]] + items[1..];
    }
  }

  lemma Distribute(a: real, b: real, p: real)
    ensures (a + b) * p == a * p + b * p
  {
  }
}
