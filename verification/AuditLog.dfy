/** The bounded dictionary of audit message counts, and the sampling of repeated messages. */
module AuditLog {
  import opened Common


  type Entries<K> = seq<(K, int)>

  function Keys<K>(entries: Entries<K>): set<K> { set e | e in entries :: e.0 }

  ghost predicate Distinct<K>(entries: Entries<K>) {
    forall i, j :: 0 <= i < j < |entries| ==> entries[i].0 != entries[j].0
  }

  function Without<K(==)>(entries: Entries<K>, key: K): Entries<K> {
    if entries == [] then []
    else if entries[0].0 == key then Without(entries[1..], key)
    else [entries[0]] + Without(entries[1..], key)
  }

  /** The value under a key, 0 when it is absent. */
  function Lookup<K(==)>(entries: Entries<K>, key: K): int {
    if entries == [] then 0
    else if entries[0].0 == key then entries[0].1
    else Lookup(entries[1..], key)
  }

  predicate Contains<K(==)>(entries: Entries<K>, key: K) {
    exists i :: 0 <= i < |entries| && entries[i].0 == key
  }

  // ---- What the dictionary should hold ----

  /** The assignments that no later assignment to the same key overwrites, in their order. */
  function LastWrites<K(==)>(history: Entries<K>): Entries<K> {
    if history == [] then []
    else if Contains(history[1..], history[0].0) then LastWrites(history[1..])
    else [history[0]] + LastWrites(history[1..])
  }

  /** The last n entries. */
  function Recent<K>(entries: Entries<K>, n: nat): Entries<K> {
    if |entries| <= n then entries else entries[|entries| - n..]
  }

  lemma {:induction false} WithoutConcat<K>(a: Entries<K>, b: Entries<K>, key: K)
    ensures Without(a + b, key) == Without(a, key) + Without(b, key)
  {
    if a == [] {
      assert a + b == b;
    } else {
      assert (a + b)[0] == a[0] && (a + b)[1..] == a[1..] + b;
      WithoutConcat(a[1..], b, key);
      if a[0].0 != key {
        assert [a[0]] + (Without(a[1..], key) + Without(b, key)) == [a[0]] + Without(a[1..], key) + Without(b, key);
      }
    }
  }

  lemma {:induction false} WithoutAbsent<K>(entries: Entries<K>, key: K)
    requires forall e :: e in entries ==> e.0 != key
    ensures Without(entries, key) == entries
  {
    if entries != [] {
      assert entries[0] in entries;
      WithoutAbsent(entries[1..], key);
      assert entries == [entries[0]] + entries[1..];
    }
  }

  lemma {:induction false} LastWritesOf<K>(history: Entries<K>, key: K)
    ensures Contains(LastWrites(history), key) <==> Contains(history, key)
  {
    if history != [] {
      var rest := history[1..];
      LastWritesOf(rest, key);
      ContainsCons(history[0], rest, key);
      ContainsCons(history[0], LastWrites(rest), key);
      assert history == [history[0]] + rest;
    }
  }

  lemma ContainsCons<K>(e: (K, int), rest: Entries<K>, key: K)
    ensures Contains([e] + rest, key) <==> e.0 == key || Contains(rest, key)
  {
    if Contains(rest, key) {
      var i :| 0 <= i < |rest| && rest[i].0 == key;
      assert ([e] + rest)[i + 1].0 == key;
    }
    if e.0 == key {
      assert ([e] + rest)[0].0 == key;
    }
  }

  lemma ContainsSnoc<K>(rest: Entries<K>, e: (K, int), key: K)
    ensures Contains(rest + [e], key) <==> Contains(rest, key) || e.0 == key
  {
    if Contains(rest, key) {
      var i :| 0 <= i < |rest| && rest[i].0 == key;
      assert (rest + [e])[i].0 == key;
    }
    if e.0 == key {
      assert (rest + [e])[|rest|].0 == key;
    }
  }

  lemma {:induction false} LastWritesDistinct<K>(history: Entries<K>)
    ensures Distinct(LastWrites(history))
  {
    if history != [] {
      LastWritesDistinct(history[1..]);
      LastWritesOf(history[1..], history[0].0);
    }
  }

  /** One more assignment moves its key to the end. */
  lemma {:induction false} LastWritesSnoc<K>(history: Entries<K>, e: (K, int))
    ensures LastWrites(history + [e]) == Without(LastWrites(history), e.0) + [e]
  {
    if history == [] {
      assert (history + [e])[1..] == [];
    } else {
      var rest := history[1..];
      assert (history + [e])[0] == history[0] && (history + [e])[1..] == rest + [e];
      LastWritesSnoc(rest, e);
      ContainsSnoc(rest, e, history[0].0);
      if !Contains(rest, history[0].0) {
        WithoutCons(history[0], LastWrites(rest), e.0);
      }
    }
  }

  lemma WithoutCons<K>(e: (K, int), rest: Entries<K>, key: K)
    ensures Without([e] + rest, key) == if e.0 == key then Without(rest, key) else [e] + Without(rest, key)
  {
    assert ([e] + rest)[1..] == rest;
  }

  lemma {:induction false} WithoutSize<K>(entries: Entries<K>, key: K)
    requires Distinct(entries)
    ensures |entries| - 1 <= |Without(entries, key)| <= |entries|
  {
    if entries != [] {
      if entries[0].0 == key {
        WithoutAbsent(entries[1..], key);
      } else {
        WithoutSize(entries[1..], key);
      }
    }
  }

  lemma RecentConcat<K>(a: Entries<K>, b: Entries<K>, n: nat)
    requires n <= |b| || a == []
    ensures Recent(a + b, n) == Recent(b, n)
  {
  }

  /** What one assignment does: move the key to the end, store the value, evict the oldest. */
  function Assigned<K(==)>(entries: Entries<K>, key: K, value: int, n: nat): Entries<K> {
    var stored := Without(entries, key) + [(key, value)];
    if n < |stored| then stored[1..] else stored
  }

  lemma AssignedInSplit<K>(older: Entries<K>, kept: Entries<K>, key: K, value: int, n: nat)
    requires Distinct(kept) && |kept| <= n && (older == [] || |kept| == n)
    ensures Assigned(kept, key, value, n) == Recent(Without(older + kept, key) + [(key, value)], n)
  {
    var remaining, e := Without(kept, key), (key, value);
    WithoutSize(kept, key);
    WithoutConcat(older, kept, key);
    Associative(Without(older, key), remaining, [e]);
    RecentConcat(Without(older, key), remaining + [e], n);
  }

  /** Evicting at every assignment loses nothing that the n most recent keys of the whole
      history need, and keeps nothing else. */
  lemma AssignedIsRecent<K>(history: Entries<K>, key: K, value: int, n: nat)
    ensures Assigned(Recent(LastWrites(history), n), key, value, n) == Recent(LastWrites(history + [(key, value)]), n)
  {
    LastWritesDistinct(history);
    LastWritesSnoc(history, (key, value));
    var all, kept := LastWrites(history), Recent(LastWrites(history), n);
    assert all == all[..|all| - |kept|] + kept;
    AssignedInSplit(all[..|all| - |kept|], kept, key, value, n);
  }

  // ---- Which keys are still held, and with what value ----

  /** An entry is kept exactly when it is the last assignment to its key. */
  lemma {:induction false} KeptIffLast<K>(history: Entries<K>, e: (K, int))
    ensures e in LastWrites(history) <==> exists i :: IsLast(history, i, e)
  {
    if history != [] {
      var rest := history[1..];
      KeptIffLast(rest, e);
      if i :| IsLast(rest, i, e) {
        assert history[i + 1 + 1..] == rest[i + 1..];
        assert IsLast(history, i + 1, e);
      }
      if i :| IsLast(history, i, e) {
        if i == 0 {
          LastWritesOf(rest, e.0);
        } else {
          assert history[i + 1..] == rest[i - 1 + 1..];
          assert IsLast(rest, i - 1, e);
        }
      }
      if history[0] == e && !Contains(rest, e.0) {
        assert IsLast(history, 0, e);
      }
    }
  }

  ghost predicate IsLast<K>(history: Entries<K>, i: int, e: (K, int)) {
    0 <= i < |history| && history[i] == e && !Contains(history[i + 1..], e.0)
  }

  lemma {:induction false} LastWritesSuffix<K>(a: Entries<K>, b: Entries<K>) returns (older: Entries<K>)
    ensures LastWrites(a + b) == older + LastWrites(b)
  {
    if a == [] {
      assert a + b == b;
      older := [];
    } else {
      older := LastWritesSuffix(a[1..], b);
      assert (a + b)[0] == a[0] && (a + b)[1..] == a[1..] + b;
      if !Contains(a[1..] + b, a[0].0) {
        older := [a[0]] + older;
      }
    }
  }

  lemma {:induction false} KeysOfDistinct<K>(entries: Entries<K>)
    requires Distinct(entries)
    ensures |Keys(entries)| == |entries|
  {
    if entries != [] {
      var rest := entries[1..];
      KeysOfDistinct(rest);
      assert entries == [entries[0]] + rest;
      assert Keys(entries) == {entries[0].0} + Keys(rest);
      assert forall e :: e in rest ==> e.0 != entries[0].0;
    }
  }

  lemma KeysContain<K>(entries: Entries<K>, key: K)
    ensures key in Keys(entries) <==> Contains(entries, key)
  {
    if Contains(entries, key) {
      var i :| 0 <= i < |entries| && entries[i].0 == key;
      assert entries[i] in entries;
    }
  }

  lemma LastWritesCount<K>(history: Entries<K>)
    ensures |LastWrites(history)| == |Keys(history)|
  {
    LastWritesDistinct(history);
    KeysOfDistinct(LastWrites(history));
    forall key: K | key in Keys(history) || key in Keys(LastWrites(history))
      ensures key in Keys(history) && key in Keys(LastWrites(history))
    {
      LastWritesOf(history, key);
      KeysContain(history, key);
      KeysContain(LastWrites(history), key);
    }
    assert Keys(history) == Keys(LastWrites(history));
  }

  lemma {:induction false} LookupInDistinct<K>(entries: Entries<K>, i: nat)
    requires Distinct(entries) && i < |entries|
    ensures Lookup(entries, entries[i].0) == entries[i].1
  {
    if i > 0 {
      LookupInDistinct(entries[1..], i - 1);
    }
  }

  lemma {:induction false} LookupAbsent<K>(entries: Entries<K>, key: K)
    requires !Contains(entries, key)
    ensures Lookup(entries, key) == 0
  {
    if entries != [] {
      assert entries[0].0 != key;
      assert entries == [entries[0]] + entries[1..];
      ContainsCons(entries[0], entries[1..], key);
      LookupAbsent(entries[1..], key);
    }
  }

  /** A key's last value is still held exactly when fewer than n distinct other keys were
      assigned after it; otherwise the dictionary reads 0 for it. */
  lemma RememberedIff<K>(before: Entries<K>, key: K, value: int, after: Entries<K>, n: nat)
    requires !Contains(after, key)
    ensures var held := Recent(LastWrites(before + ([(key, value)] + after)), n);
            && (Contains(held, key) <==> |Keys(after)| < n)
            && Lookup(held, key) == (if |Keys(after)| < n then value else 0)
  {
    var e := (key, value);
    var older := LastWritesSuffix(before, [e] + after);
    assert ([e] + after)[1..] == after;
    LastWritesDistinct(before + ([e] + after));
    LastWritesCount(after);
    RememberedAt(older, e, LastWrites(after), n);
  }

  lemma RememberedAt<K>(older: Entries<K>, e: (K, int), newer: Entries<K>, n: nat)
    requires Distinct(older + ([e] + newer))
    ensures var held := Recent(older + ([e] + newer), n);
            && (Contains(held, e.0) <==> |newer| < n)
            && Lookup(held, e.0) == (if |newer| < n then e.1 else 0)
  {
    var all := older + ([e] + newer);
    var held := Recent(all, n);
    var dropped := |all| - |held|;
    assert held == all[dropped..];
    assert all[|older|] == e;
    if |newer| < n {
      assert held[|older| - dropped] == e;
      LookupInDistinct(held, |older| - dropped);
    } else {
      assert !Contains(held, e.0) by {
        assert forall i :: 0 <= i < |held| ==> held[i] == all[dropped + i];
      }
      LookupAbsent(held, e.0);
    }
  }

  function Capacity(maxsize: int): nat { if maxsize < 0 then 0 else maxsize }

  /** The dictionary holds as many keys as were ever assigned, up to maxsize, and never one when
      that is negative. */
  lemma SizeIs<K>(d: LeastRecentlyUsedDict<K>)
    requires d.Valid()
    ensures |d.entries| == if d.maxsize < 0 then 0 else if |Keys(d.history)| < d.maxsize then |Keys(d.history)| else d.maxsize
  {
    LastWritesCount(d.history);
  }

  class LeastRecentlyUsedDict<K(==)> {
    const maxsize: int
    var entries: Entries<K>
    ghost var history: Entries<K>

    /** Exactly the maxsize most recently assigned distinct keys, in order of last assignment. */
    ghost predicate Valid()
      reads this
    {
      entries == Recent(LastWrites(history), Capacity(maxsize))
    }

    constructor (maxsize: int)
      ensures Valid() && history == [] && this.maxsize == maxsize
    {
      this.maxsize := maxsize;
      entries, history := [], [];
    }

    method GetItem(key: K) returns (value: int)
      requires Valid()
      ensures value == Lookup(Recent(LastWrites(history), Capacity(maxsize)), key)
    {
      value := 0;
      for i := 0 to |entries|
        invariant value == 0
        invariant Lookup(entries, key) == Lookup(entries[i..], key)
      {
        assert entries[i..][1..] == entries[i + 1..];
        if entries[i].0 == key {
          return entries[i].1;
        }
      }
      assert entries[|entries|..] == [];
    }

    method SetItem(key: K, value: int)
      requires Valid()
      modifies this
      ensures Valid() && history == old(history) + [(key, value)]
    {
      AssignedIsRecent(history, key, value, Capacity(maxsize));
      if Contains(entries, key) {
        MoveToEnd(key);
        entries := entries[..|entries| - 1] + [(key, value)];
      } else {
        WithoutAbsent(entries, key);
        entries := entries + [(key, value)];
      }
      if maxsize < |entries| {
        entries := entries[1..];
      }
      history := history + [(key, value)];
    }

    method MoveToEnd(key: K)
      requires Contains(entries, key)
      modifies this`entries
      ensures entries == Without(old(entries), key) + [(key, Lookup(old(entries), key))]
    {
      entries := Without(entries, key) + [(key, Lookup(entries, key))];
    }
  }
}
