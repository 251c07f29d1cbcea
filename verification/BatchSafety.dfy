/** Runs in which the two unguarded writers keep to undecided documents: every
    document is decided once, the counter is safe, and the final status is right. */
module BatchSafety {
  import opened Common
  import opened Processing
  import opened BatchProtocol
  import opened BatchLedger

  /** An initial upsert of d has chosen a status and not stored it. */
  predicate Open(s: State, d: DocId) {
    exists w :: w in s.workers && Stores(s.workers[w], d)
  }

  predicate Stores(worker: Worker, d: DocId) {
    worker.store.Some? && worker.store.value.doc == d
  }

  /** The hypothesis on one step: an initial upsert starts on a non-terminal
      document that has none open, no other terminal write is made to the
      document until it stores, and the STARTED write is made to a non-terminal
      document. Claims, deletes, reads and increments are unrestricted. */
  predicate Orderly(s: State, l: Label)
    requires Enabled(s, l)
  {
    l.Run? ==>
      match s.workers[l.worker].pc
      case WriteTerminal(d, _, _) => !Open(s, d)
      case Decide(d, _) => NonTerminal(s.docs[d]) && !Open(s, d)
      case SetStarted(d) => NonTerminal(s.docs[d])
      case _ => true
  }

  ghost predicate IsOrderlyRun(states: seq<State>, labels: seq<Label>) {
    && IsRun(states, labels)
    && forall i {:trigger labels[i]} :: 0 <= i < |labels| ==> Orderly(states[i], labels[i])
  }

  /** A stored terminal status is the one decided, or DELETED. */
  predicate TerminalIsDecided(s: State, d: DocId)
    requires d in s.docs
  {
    !NonTerminal(s.docs[d]) ==>
      d in s.log.outcome && (s.docs[d] == s.log.outcome[d] || s.docs[d] == Deleted)
  }

  /** A decided document is stored terminal, or is waiting for its early-credited store. */
  predicate DecidedIsTerminal(s: State, d: DocId) {
    d in s.log.outcome ==>
      && d in s.docs
      && !NonTerminal(s.log.outcome[d])
      && s.log.outcome[d] != Deleted
      && (NonTerminal(s.docs[d]) ==> Open(s, d) && CreditedEarly(s.log.outcome[d]))
  }

  predicate WorkerFits(s: State, w: WorkerId)
    requires w in s.workers
  {
    var worker := s.workers[w];
    && (worker.pc.WriteTerminal? ==> !NonTerminal(worker.pc.status) && worker.pc.status != Deleted)
    && (worker.pc.Decide? ==> worker.pc.status != Deleted)
    && (worker.pc.Claim? ==> NonTerminal(worker.pc.expected))
    && (worker.pc.MarkDeleted? ==> worker.pc.doc in s.docs && !NonTerminal(s.docs[worker.pc.doc]))
    && (worker.store.Some? ==>
          var d, st := worker.store.value.doc, worker.store.value.status;
          && d in s.docs
          && NonTerminal(s.docs[d])
          && st != Deleted
          && (d in s.log.outcome <==> CreditedEarly(st))
          && (CreditedEarly(st) ==> s.log.outcome[d] == st))
  }

  ghost predicate Safe(s: State) {
    && s.docs.Keys <= s.files
    && s.log.repeats == multiset{}
    && (forall d :: d in s.docs ==> TerminalIsDecided(s, d))
    && (forall d :: d in s.log.outcome ==> DecidedIsTerminal(s, d))
    && (forall w :: w in s.workers ==> WorkerFits(s, w))
    && (forall v, w, d {:trigger Stores(s.workers[v], d), Stores(s.workers[w], d)} ::
          v in s.workers && w in s.workers && Stores(s.workers[v], d) && Stores(s.workers[w], d) ==> v == w)
  }

  /** s' differs from s in at most worker w, whose unstored upsert is unchanged. */
  ghost predicate SameUpserts(s: State, s': State, w: WorkerId) {
    && w in s'.workers
    && s'.workers == s.workers[w := s'.workers[w]]
    && s'.workers[w].store == (if w in s.workers then s.workers[w].store else None)
  }

  lemma OpenSame(s: State, s': State, w: WorkerId, d: DocId)
    requires SameUpserts(s, s', w)
    ensures Open(s, d) <==> Open(s', d)
  {
    if Open(s, d) {
      var v :| v in s.workers && Stores(s.workers[v], d);
      assert Stores(s'.workers[v], d);
    }
    if Open(s', d) {
      var v :| v in s'.workers && Stores(s'.workers[v], d);
      assert Stores(s.workers[v], d);
    }
  }

  /** A step that writes d's row, or none, and at most decides d. */
  lemma WriteSafe(s: State, s': State, w: WorkerId, d: DocId)
    requires Safe(s) && SameUpserts(s, s', w)
    requires d in s.docs && d in s'.docs && s'.files == s.files && s'.docs == s.docs[d := s'.docs[d]]
    requires s'.log.repeats == multiset{}
    requires s'.log.outcome == s.log.outcome
          || (d !in s.log.outcome && d in s'.log.outcome && s'.log.outcome == s.log.outcome[d := s'.log.outcome[d]])
    requires TerminalIsDecided(s', d) && DecidedIsTerminal(s', d)
    requires Open(s, d) ==> NonTerminal(s'.docs[d]) && s'.log.outcome == s.log.outcome
    requires !NonTerminal(s.docs[d]) ==> !NonTerminal(s'.docs[d])
    requires WorkerFits(s', w)
    ensures Safe(s')
  {
    forall e | e in s'.docs ensures TerminalIsDecided(s', e) {
      assert e != d ==> TerminalIsDecided(s, e);
    }
    forall e | e in s'.log.outcome ensures DecidedIsTerminal(s', e) {
      OpenSame(s, s', w, e);
      assert e != d ==> DecidedIsTerminal(s, e);
    }
    forall v | v in s'.workers ensures WorkerFits(s', v) {
      if v != w {
        assert WorkerFits(s, v);
        assert Stores(s.workers[v], d) ==> Open(s, d);
      }
    }
    forall u, v, e | u in s'.workers && v in s'.workers && Stores(s'.workers[u], e) && Stores(s'.workers[v], e)
      ensures u == v
    {
      assert Stores(s.workers[u], e) && Stores(s.workers[v], e);
    }
  }

  /** w opens an upsert of d: nothing was open, and d is decided now exactly if it is credited early. */
  lemma OpenSafe(s: State, s': State, w: WorkerId, d: DocId, st: ProcessStatus)
    requires Safe(s) && w in s.workers && w in s'.workers && s'.workers == s.workers[w := s'.workers[w]]
    requires s'.workers[w].store == Some(Upsert(d, st)) && s.workers[w].store.None?
    requires s'.files == s.files && s'.docs == s.docs && d in s.docs && NonTerminal(s.docs[d])
    requires !Open(s, d) && d !in s.log.outcome && st != Deleted
    requires s'.log.repeats == multiset{}
    requires s'.log.outcome == if CreditedEarly(st) then s.log.outcome[d := st] else s.log.outcome
    requires WorkerFits(s', w)
    ensures Safe(s')
  {
    assert Stores(s'.workers[w], d);
    forall e | e in s'.docs ensures TerminalIsDecided(s', e) {
      assert TerminalIsDecided(s, e);
    }
    forall e | e in s'.log.outcome ensures DecidedIsTerminal(s', e) {
      if e != d {
        assert DecidedIsTerminal(s, e);
        if Open(s, e) {
          var v :| v in s.workers && Stores(s.workers[v], e);
          assert Stores(s'.workers[v], e);
        }
      }
    }
    forall v | v in s'.workers ensures WorkerFits(s', v) {
      assert v != w ==> WorkerFits(s, v) && !Stores(s.workers[v], d);
    }
    forall u, v, e | u in s'.workers && v in s'.workers && Stores(s'.workers[u], e) && Stores(s'.workers[v], e)
      ensures u == v
    {
      assert u != w ==> Stores(s.workers[u], e);
      assert v != w ==> Stores(s.workers[v], e);
    }
  }

  /** w stores the upsert of d it had open. */
  lemma CloseSafe(s: State, s': State, w: WorkerId, d: DocId, st: ProcessStatus)
    requires Safe(s) && w in s.workers && w in s'.workers && s'.workers == s.workers[w := s'.workers[w]]
    requires s.workers[w].store == Some(Upsert(d, st)) && s'.workers[w].store.None?
    requires d in s.docs && s'.files == s.files && s'.docs == s.docs[d := st] && st != Deleted
    requires s'.log.repeats == multiset{}
    requires s'.log.outcome == if NonTerminal(st) then s.log.outcome else s.log.outcome[d := st]
    requires NonTerminal(st) ==> d !in s.log.outcome
    requires WorkerFits(s', w)
    ensures Safe(s')
  {
    assert Stores(s.workers[w], d);
    forall e | e in s'.docs ensures TerminalIsDecided(s', e) {
      assert TerminalIsDecided(s, e);
    }
    forall e | e in s'.log.outcome ensures DecidedIsTerminal(s', e) {
      if e != d {
        assert DecidedIsTerminal(s, e);
        if Open(s, e) {
          var v :| v in s.workers && Stores(s.workers[v], e);
          assert Stores(s'.workers[v], e);
        }
      }
    }
    forall v | v in s'.workers ensures WorkerFits(s', v) {
      if v != w {
        CloseFits(s, s', w, d, st, v);
      }
    }
    forall u, v, e | u in s'.workers && v in s'.workers && Stores(s'.workers[u], e) && Stores(s'.workers[v], e)
      ensures u == v
    {
      assert Stores(s.workers[u], e) && Stores(s.workers[v], e);
    }
  }

  lemma CloseFits(s: State, s': State, w: WorkerId, d: DocId, st: ProcessStatus, v: WorkerId)
    requires Safe(s) && w in s.workers && v in s.workers && v in s'.workers && v != w
    requires s'.workers[v] == s.workers[v] && s.workers[w].store == Some(Upsert(d, st))
    requires d in s.docs && s'.docs == s.docs[d := st]
    requires s'.log.outcome == if NonTerminal(st) then s.log.outcome else s.log.outcome[d := st]
    ensures WorkerFits(s', v)
  {
    assert Stores(s.workers[w], d);
    assert WorkerFits(s, v) && !Stores(s.workers[v], d);
    assert WorkerFits(s, w);
  }

  lemma DecideSafe(s: State, w: WorkerId)
    requires Enabled(s, Run(w)) && WorkersFit(s) && Safe(s) && Orderly(s, Run(w)) && s.workers[w].pc.Decide?
    ensures Safe(RunWorker(s, w))
  {
    var d := s.workers[w].pc.doc;
    assert WellFormed(s.workers[w]) && WorkerFits(s, w);
    assert d in s.log.outcome ==> DecidedIsTerminal(s, d);
    OpenSafe(s, RunWorker(s, w), w, d, s.workers[w].pc.status);
  }

  lemma StoreSafe(s: State, w: WorkerId)
    requires Enabled(s, Run(w)) && Safe(s) && s.workers[w].pc.Idle?
    ensures Safe(RunWorker(s, w))
  {
    var Upsert(d, st) := s.workers[w].store.value;
    assert WorkerFits(s, w);
    assert CreditedEarly(st) ==> s.log.outcome[d := st] == s.log.outcome;
    CloseSafe(s, RunWorker(s, w), w, d, st);
  }

  /** Steps after which no row and no decision is different. */
  lemma QuietSafe(s: State, s': State, w: WorkerId)
    requires Safe(s) && SameUpserts(s, s', w)
    requires s'.files == s.files && s'.docs == s.docs
    requires s'.log.outcome == s.log.outcome && s'.log.repeats == s.log.repeats
    requires WorkerFits(s', w)
    ensures Safe(s')
  {
    forall e | e in s'.docs ensures TerminalIsDecided(s', e) {
      assert TerminalIsDecided(s, e);
    }
    forall e | e in s'.log.outcome ensures DecidedIsTerminal(s', e) {
      OpenSame(s, s', w, e);
      assert DecidedIsTerminal(s, e);
    }
    forall v | v in s'.workers ensures WorkerFits(s', v) {
      assert v != w ==> WorkerFits(s, v);
    }
    forall u, v, e | u in s'.workers && v in s'.workers && Stores(s'.workers[u], e) && Stores(s'.workers[v], e)
      ensures u == v
    {
      assert Stores(s.workers[u], e) && Stores(s.workers[v], e);
    }
  }

  /** A write that decides nothing: it keeps the row non-terminal, or marks a terminal row deleted. */
  lemma RowWrite(s: State, s': State, w: WorkerId, d: DocId)
    requires Safe(s) && SameUpserts(s, s', w)
    requires d in s.docs && d in s'.docs && s'.files == s.files && s'.docs == s.docs[d := s'.docs[d]]
    requires s'.log == s.log && WorkerFits(s', w)
    requires s'.docs[d] == s.docs[d]
          || (NonTerminal(s.docs[d]) && NonTerminal(s'.docs[d]))
          || (!NonTerminal(s.docs[d]) && s'.docs[d] == Deleted)
    ensures Safe(s')
  {
    assert TerminalIsDecided(s, d);
    OpenSame(s, s', w, d);
    if Open(s, d) {
      var v :| v in s.workers && Stores(s.workers[v], d);
      assert WorkerFits(s, v);
    }
    assert d in s.log.outcome ==> DecidedIsTerminal(s, d);
    WriteSafe(s, s', w, d);
  }

  lemma TerminalWriteSafe(s: State, w: WorkerId)
    requires Enabled(s, Run(w)) && WorkersFit(s) && Safe(s) && Orderly(s, Run(w)) && s.workers[w].pc.WriteTerminal?
    ensures Safe(RunWorker(s, w))
  {
    var d := s.workers[w].pc.doc;
    assert WellFormed(s.workers[w]) && WorkerFits(s, w);
    assert TerminalIsDecided(s, d);
    assert d in s.log.outcome ==> DecidedIsTerminal(s, d);
    if NonTerminal(s.docs[d]) {
      WriteSafe(s, RunWorker(s, w), w, d);
    } else {
      QuietSafe(s, RunWorker(s, w), w);
    }
  }

  lemma RowWriteSafe(s: State, w: WorkerId)
    requires Enabled(s, Run(w)) && WorkersFit(s) && Safe(s) && Orderly(s, Run(w))
    requires s.workers[w].pc.Claim? || s.workers[w].pc.SetStarted? || s.workers[w].pc.MarkDeleted?
    ensures Safe(RunWorker(s, w))
  {
    var s' := RunWorker(s, w);
    var d := s.workers[w].pc.doc;
    assert WellFormed(s.workers[w]) && WorkerFits(s, w);
    if s.workers[w].pc.Claim? && s.docs[d] != s.workers[w].pc.expected {
      QuietSafe(s, s', w);
    } else {
      RowWrite(s, s', w, d);
    }
  }

  lemma GotoSafe(s: State, s1: State, w: WorkerId, pc: Pc)
    requires Safe(s) && w in s.workers && s1.workers == s.workers
    requires s1.files == s.files && s1.docs == s.docs
    requires s1.log.outcome == s.log.outcome && s1.log.repeats == s.log.repeats
    requires !pc.WriteTerminal? && !pc.Decide? && !pc.Claim?
    requires pc.MarkDeleted? ==> pc.doc in s.docs && !NonTerminal(s.docs[pc.doc])
    ensures Safe(Goto(s1, w, pc))
  {
    assert WorkerFits(s, w);
    QuietSafe(s, Goto(s1, w, pc), w);
  }

  /** The worker's own steps that write no document row. */
  lemma QuietRunSafe(s: State, w: WorkerId)
    requires Enabled(s, Run(w)) && Safe(s)
    requires var pc := s.workers[w].pc; pc.SendMetrics? || pc.Requery? || pc.Finalize? || pc.CheckDelete?
    ensures Safe(RunWorker(s, w))
  {
    match s.workers[w].pc
    case SendMetrics(d, inc) =>
      GotoSafe(s, s.(log := s.log.(metrics := s.log.metrics + multiset{d})), w, if inc then Increment(d) else Idle);
    case Requery =>
      GotoSafe(s, s, w, Finalize(Verdict(|FailedDocs(s)|, s.Total())));
    case Finalize(v) =>
      GotoSafe(s, s.(batch := v, log := s.log.(verdicts := s.log.verdicts + [v])), w, Idle);
      GotoSafe(s, s, w, Idle);
    case CheckDelete(d) =>
      GotoSafe(s, s, w, if s.docs[d] != Deleted && IsClassified(s.docs[d]) then MarkDeleted(d) else Idle);
  }

  lemma IncrementSafe(s: State, w: WorkerId, d: DocId)
    requires w in s.workers && Safe(s)
    ensures Safe(RunIncrement(s, w, d))
  {
    var bumped := s.log.(bumped := s.log.bumped + multiset{d});
    GotoSafe(s, s.(log := s.log.(dropped := s.log.dropped + multiset{d})), w, Idle);
    GotoSafe(s, s.(resolved := s.resolved + 1, log := bumped), w, Idle);
    GotoSafe(s, s.(resolved := s.resolved + 1, log := bumped.(reached := s.log.reached + 1)), w, Requery);
  }

  lemma RunSafe(s: State, w: WorkerId)
    requires Enabled(s, Run(w)) && WorkersFit(s) && Safe(s) && Orderly(s, Run(w))
    ensures Safe(Next(s, Run(w)))
  {
    var pc := s.workers[w].pc;
    if pc.Decide? {
      DecideSafe(s, w);
    } else if pc.Idle? {
      StoreSafe(s, w);
    } else if pc.WriteTerminal? {
      TerminalWriteSafe(s, w);
    } else if pc.Claim? || pc.SetStarted? || pc.MarkDeleted? {
      RowWriteSafe(s, w);
    } else if pc.Increment? {
      IncrementSafe(s, w, pc.doc);
    } else {
      QuietRunSafe(s, w);
    }
  }

  lemma InsertSafe(s: State, d: DocId, st: ProcessStatus)
    requires Enabled(s, Insert(d, st)) && Safe(s)
    ensures Safe(Next(s, Insert(d, st)))
  {
    var s' := Next(s, Insert(d, st));
    forall e | e in s'.docs ensures TerminalIsDecided(s', e) {
      assert e != d ==> TerminalIsDecided(s, e);
    }
    forall e | e in s'.log.outcome ensures DecidedIsTerminal(s', e) {
      assert DecidedIsTerminal(s, e);
      assert Open(s, e) ==> Open(s', e);
    }
    forall v | v in s'.workers ensures WorkerFits(s', v) {
      assert WorkerFits(s, v);
    }
  }

  lemma RequestSafe(s: State, l: Label)
    requires Enabled(s, l) && Safe(s) && (l.OpenBatch? || l.FailBatch? || l.Return?)
    ensures Safe(Next(s, l))
  {
    var s' := Next(s, l);
    forall e | e in s'.docs ensures TerminalIsDecided(s', e) {
      assert TerminalIsDecided(s, e);
    }
    forall e | e in s'.log.outcome ensures DecidedIsTerminal(s', e) {
      assert DecidedIsTerminal(s, e);
      assert Open(s, e) ==> Open(s', e);
    }
    forall v | v in s'.workers ensures WorkerFits(s', v) {
      assert WorkerFits(s, v);
    }
  }

  lemma StepSafe(s: State, l: Label)
    requires Enabled(s, l) && WorkersFit(s) && Safe(s) && Orderly(s, l)
    ensures Safe(Next(s, l))
  {
    match l
    case Run(w) => RunSafe(s, w);
    case Spawn(w, _) => QuietSafe(s, Next(s, l), w);
    case Fault(w) =>
      assert WorkerFits(s, w);
      QuietSafe(s, Next(s, l), w);
    case Insert(d, st) => InsertSafe(s, d, st);
    case _ => RequestSafe(s, l);
  }
}
