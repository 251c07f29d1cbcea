/** Counting repeated audit events in the bounded dictionary, and logging only some of them. */
module AuditSampling {
  import opened Common
  import opened AuditLog

  const DEFAULT_MAXSIZE := 128

  datatype Message<K> = Message(key: K, count: int)

  /** All of the first ten, then every tenth, then every hundredth. */
  predicate ShouldLog(count: int) {
    !(count > 100 && count % 100 != 0) && !(count > 10 && count % 10 != 0)
  }

  // ---- What a sequence of events writes and logs ----

  /** The assignments made for a sequence of event keys, oldest first. */
  function Writes<K(==)>(events: seq<K>, n: nat): Entries<K> {
    if events == [] then []
    else
      var before, key := Writes(events[..|events| - 1], n), events[|events| - 1];
      before + [(key, Lookup(Recent(LastWrites(before), n), key) + 1)]
  }

  /** The messages logged for a sequence of assigned counts. */
  function Messages<K>(writes: Entries<K>): seq<Message<K>> {
    if writes == [] then []
    else
      var before, last := Messages(writes[..|writes| - 1]), writes[|writes| - 1];
      if ShouldLog(last.1) then before + [Message(last.0, last.1)] else before
  }

  class AuditLogger<K(==)> {
    const messageCount: LeastRecentlyUsedDict<K>
    var logged: seq<Message<K>>
    ghost var events: seq<K>

    ghost predicate Valid()
      reads this, messageCount
    {
      && messageCount.Valid()
      && messageCount.history == Writes(events, Capacity(messageCount.maxsize))
      && logged == Messages(messageCount.history)
    }

    constructor ()
      ensures Valid() && fresh(messageCount)
      ensures events == [] && messageCount.maxsize == 128
    {
      messageCount := new LeastRecentlyUsedDict(DEFAULT_MAXSIZE);
      logged, events := [], [];
    }

    /** Pairing the arguments with their names is strict: a length mismatch raises before
        anything is counted. */
    method LogAuditEvent(key: K, args: seq<string>, argNames: seq<string>) returns (ok: bool)
      requires Valid()
      modifies this, messageCount
      ensures Valid()
      ensures ok <==> |args| == |argNames|
      ensures events == if ok then old(events) + [key] else old(events)
      ensures !ok ==> messageCount.history == old(messageCount.history)
    {
      if |args| != |argNames| {
        return false;
      }
      ghost var before := messageCount.history;
      var count := 1;
      if Contains(messageCount.entries, key) {
        count := messageCount.GetItem(key);
        count := count + 1;
      } else {
        LookupAbsent(messageCount.entries, key);
      }
      messageCount.SetItem(key, count);
      events := events + [key];
      assert events[..|events| - 1] == old(events);
      assert messageCount.history[..|before|] == before;
      if count > 100 && count % 100 != 0 {
        return true;
      }
      if count > 10 && count % 10 != 0 {
        return true;
      }
      logged := logged + [Message(key, count)];
      return true;
    }
  }

  // ---- The count an event gets ----

  lemma {:induction false} WritesKeys<K>(events: seq<K>, n: nat)
    ensures |Writes(events, n)| == |events|
    ensures forall i :: 0 <= i < |events| ==> Writes(events, n)[i].0 == events[i]
  {
    if events != [] {
      WritesKeys(events[..|events| - 1], n);
    }
  }

  function SetOf<K>(s: seq<K>): set<K> { set k | k in s }

  /** The count given to the last of a nonempty sequence of events. */
  function CountOfLast<K(==)>(events: seq<K>, n: nat): int
    requires events != []
  {
    Lookup(Recent(LastWrites(Writes(events[..|events| - 1], n)), n), events[|events| - 1]) + 1
  }

  lemma FirstCountIsOne<K>(before: seq<K>, key: K, n: nat)
    requires key !in before
    ensures CountOfLast(before + [key], n) == 1
  {
    var writes := Writes(before, n);
    assert (before + [key])[..|before|] == before;
    WritesKeys(before, n);
    assert !Contains(writes, key);
    LastWritesOf(writes, key);
    assert !Contains(Recent(LastWrites(writes), n), key);
    LookupAbsent(Recent(LastWrites(writes), n), key);
  }

  /** One entry per event, in order. */
  ghost predicate KeyedBy<K>(entries: Entries<K>, events: seq<K>) {
    |entries| == |events| && forall i :: 0 <= i < |events| ==> entries[i].0 == events[i]
  }

  lemma KeyedBySnoc<K>(entries: Entries<K>, events: seq<K>, e: (K, int))
    requires KeyedBy(entries, events)
    ensures KeyedBy(entries + [e], events + [e.0])
  {
  }

  lemma SetOfKeys<K>(events: seq<K>, entries: Entries<K>)
    requires KeyedBy(entries, events)
    ensures Keys(entries) == SetOf(events)
  {
    forall k | k in events ensures k in Keys(entries) {
      var i :| 0 <= i < |events| && events[i] == k;
      assert entries[i] in entries;
    }
  }

  lemma WritesSnoc<K>(events: seq<K>, key: K, n: nat)
    ensures Writes(events + [key], n) == Writes(events, n) + [(key, CountOfLast(events + [key], n))]
  {
    assert (events + [key])[..|events|] == events;
  }

  lemma DropLast<K>(s: seq<K>, k: nat)
    requires k < |s|
    ensures s[..|s| - 1][..k] == s[..k] && s[k..] == s[..|s| - 1][k..] + [s[|s| - 1]]
  {
  }

  lemma {:induction false} WritesAfter<K>(events: seq<K>, k: nat, n: nat) returns (after: Entries<K>)
    requires k <= |events|
    ensures Writes(events, n) == Writes(events[..k], n) + after && KeyedBy(after, events[k..])
  {
    if k == |events| {
      after := [];
      assert events[..k] == events;
    } else {
      var init, last := events[..|events| - 1], events[|events| - 1];
      var first := WritesAfter(init, k, n);
      var added := (last, CountOfLast(events, n));
      after := first + [added];
      DropLast(events, k);
      Associative(Writes(events[..k], n), first, [added]);
      KeyedBySnoc(first, init[k..], added);
    }
  }

  /** A repeated event counts one more than its previous occurrence exactly when fewer than
      n distinct other events came in between; otherwise its count restarts at 1. */
  lemma RepeatCount<K>(before: seq<K>, key: K, between: seq<K>, n: nat)
    requires key !in between
    ensures CountOfLast(before + [key] + between + [key], n)
         == if |SetOf(between)| < n then CountOfLast(before + [key], n) + 1 else 1
  {
    var events := before + [key] + between;
    var after := WritesAfter(events, |before| + 1, n);
    assert events[..|before| + 1] == before + [key] && events[|before| + 1..] == between;
    WritesSnoc(before, key, n);
    Associative(Writes(before, n), [(key, CountOfLast(before + [key], n))], after);
    SetOfKeys(between, after);
    assert (events + [key])[..|events|] == events;
    RememberedIff(Writes(before, n), key, CountOfLast(before + [key], n), after, n);
  }

  // ---- An event that is never evicted ----

  function Occurrences<K(==)>(events: seq<K>, key: K): nat {
    if events == [] then 0
    else Occurrences(events[..|events| - 1], key) + if events[|events| - 1] == key then 1 else 0
  }

  /** Between two consecutive occurrences of the key come fewer than n distinct other events. */
  ghost predicate NeverEvicted<K>(events: seq<K>, key: K, n: nat) {
    forall i, j :: 0 <= i < j < |events| && events[i] == key == events[j] && key !in events[i + 1..j]
      ==> |SetOf(events[i + 1..j])| < n
  }

  lemma NeverEvictedPrefix<K>(events: seq<K>, key: K, n: nat, k: nat)
    requires NeverEvicted(events, key, n) && k <= |events|
    ensures NeverEvicted(events[..k], key, n)
  {
    forall i, j | 0 <= i < j < k && events[i] == key == events[j] && key !in events[..k][i + 1..j]
      ensures |SetOf(events[..k][i + 1..j])| < n
    {
      assert events[..k][i + 1..j] == events[i + 1..j];
    }
  }

  lemma {:induction false} OccurrencesNone<K>(events: seq<K>, later: seq<K>, key: K)
    requires key !in later
    ensures Occurrences(events + later, key) == Occurrences(events, key)
  {
    if later == [] {
      assert events + later == events;
    } else {
      assert (events + later)[..|events + later| - 1] == events + later[..|later| - 1];
      OccurrencesNone(events, later[..|later| - 1], key);
    }
  }

  lemma {:induction false} LastIndexOf<K>(events: seq<K>, key: K) returns (i: nat)
    requires key in events
    ensures i < |events| && events[i] == key && key !in events[i + 1..]
  {
    var last := |events| - 1;
    if events[last] == key {
      i := last;
    } else {
      i := LastIndexOf(events[..last], key);
      assert events[i + 1..] == events[..last][i + 1..] + [events[last]];
    }
  }

  lemma GapIsShort<K>(before: seq<K>, key: K, between: seq<K>, n: nat)
    requires key !in between && NeverEvicted(before + [key] + between + [key], key, n)
    ensures |SetOf(between)| < n && NeverEvicted(before + [key], key, n)
  {
    var events := before + [key] + between + [key];
    var i, j := |before|, |before| + 1 + |between|;
    GapBetween(before, key, between);
    assert events[i] == key == events[j];
    NeverEvictedPrefix(events, key, n, i + 1);
  }

  lemma GapBetween<K>(before: seq<K>, key: K, between: seq<K>)
    ensures var events := before + [key] + between + [key];
      && events[..|before| + 1] == before + [key] && events[|before| + 1..|before| + 1 + |between|] == between
  {
  }

  lemma OccurrencesSnoc<K>(events: seq<K>, last: K, key: K)
    ensures Occurrences(events + [last], key) == Occurrences(events, key) + if last == key then 1 else 0
  {
    assert (events + [last])[..|events|] == events;
  }

  lemma SplitAt<K>(events: seq<K>, i: nat)
    requires i < |events|
    ensures events == events[..i] + [events[i]] + events[i + 1..]
  {
  }

  /** A never-evicted event is counted exactly. */
  lemma {:induction false} CountIsExact<K>(events: seq<K>, key: K, n: nat)
    requires NeverEvicted(events + [key], key, n)
    ensures CountOfLast(events + [key], n) == Occurrences(events, key) + 1
    decreases |events|
  {
    if key in events {
      var i := LastIndexOf(events, key);
      var before, between := events[..i], events[i + 1..];
      SplitAt(events, i);
      GapIsShort(before, key, between, n);
      RepeatCount(before, key, between, n);
      CountIsExact(before, key, n);
      OccurrencesNone(before + [key], between, key);
      OccurrencesSnoc(before, key, key);
    } else {
      FirstCountIsOne(events, key, n);
      OccurrencesNone([], events, key);
      assert [] + events == events;
    }
  }

  // ---- How many messages that makes ----

  /** The counts carried by the messages logged for a key, in order. */
  function CountsLogged<K(==)>(messages: seq<Message<K>>, key: K): seq<int> {
    if messages == [] then []
    else
      var before, last := CountsLogged(messages[..|messages| - 1], key), messages[|messages| - 1];
      if last.key == key then before + [last.count] else before
  }

  /** The counts 1..n that are logged. */
  function Sampled(n: nat): seq<int> {
    if n == 0 then [] else Sampled(n - 1) + if ShouldLog(n) then [n] else []
  }

  lemma MessagesSnoc<K>(writes: Entries<K>, e: (K, int), key: K)
    ensures CountsLogged(Messages(writes + [e]), key)
         == CountsLogged(Messages(writes), key) + if e.0 == key && ShouldLog(e.1) then [e.1] else []
  {
    assert (writes + [e])[..|writes|] == writes;
    if ShouldLog(e.1) {
      var all := Messages(writes) + [Message(e.0, e.1)];
      assert all[..|all| - 1] == Messages(writes);
    }
  }

  /** While it is not evicted, an event's messages carry exactly the sampled counts up to its
      number of occurrences, whatever other events come in between. */
  lemma {:induction false} MessagesAreSampled<K>(events: seq<K>, key: K, n: nat)
    requires NeverEvicted(events, key, n)
    ensures CountsLogged(Messages(Writes(events, n)), key) == Sampled(Occurrences(events, key))
  {
    if events != [] {
      var init, last := events[..|events| - 1], events[|events| - 1];
      assert events == init + [last];
      NeverEvictedPrefix(events, key, n, |events| - 1);
      MessagesAreSampled(init, key, n);
      OneMoreMessage(init, last, key, n);
    }
  }

  lemma OneMoreMessage<K>(events: seq<K>, last: K, key: K, n: nat)
    requires NeverEvicted(events + [last], key, n)
    requires CountsLogged(Messages(Writes(events, n)), key) == Sampled(Occurrences(events, key))
    ensures CountsLogged(Messages(Writes(events + [last], n)), key) == Sampled(Occurrences(events + [last], key))
  {
    WritesSnoc(events, last, n);
    MessagesSnoc(Writes(events, n), (last, CountOfLast(events + [last], n)), key);
    OccurrencesSnoc(events, last, key);
    if last == key {
      CountIsExact(events, key, n);
    }
  }

  function SampledCount(n: nat): nat {
    if n <= 10 then n else if n <= 100 then 9 + n / 10 else 18 + n / 100
  }

  lemma {:induction false} SampledSize(n: nat)
    ensures |Sampled(n)| == SampledCount(n)
  {
    if n > 0 {
      SampledSize(n - 1);
      if n > 100 {
        assert n % 100 == 0 ==> n % 10 == 0;
        assert (n - 1) / 100 == n / 100 - if n % 100 == 0 then 1 else 0;
      } else if n > 10 {
        assert (n - 1) / 10 == n / 10 - if n % 10 == 0 then 1 else 0;
      }
    }
  }

  /** After any sequence of events the number of messages for a never-evicted one. */
  lemma MessageCount<K>(events: seq<K>, key: K, n: nat)
    requires NeverEvicted(events, key, n)
    ensures |CountsLogged(Messages(Writes(events, n)), key)| == SampledCount(Occurrences(events, key))
  {
    MessagesAreSampled(events, key, n);
    SampledSize(Occurrences(events, key));
  }

  /** Eviction makes the sampling start over: with room for one key, an event alternating with
      another is logged every time and always counted as 1. */
  lemma {:induction false} AlternatingIsNeverSampled(rounds: nat)
    ensures CountOfLast(Alternating(rounds) + [true], 1) == 1
  {
    if rounds == 0 {
      FirstCountIsOne([], true, 1);
      assert [] + [true] == [true];
    } else {
      var before := Alternating(rounds - 1);
      RepeatCount(before, true, [false], 1);
      assert false in SetOf([false]);
      assert Alternating(rounds) == before + [true] + [false];
    }
  }

  function Alternating(rounds: nat): seq<bool> {
    if rounds == 0 then [] else Alternating(rounds - 1) + [true, false]
  }
}
