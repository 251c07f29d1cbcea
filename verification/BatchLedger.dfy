/** What every run keeps, with no hypothesis on who writes when: the counter is a
    ledger of decisions, and a batch is finalised at most once. */
module BatchLedger {
  import opened Common
  import opened Processing
  import opened BatchProtocol

  predicate Owes(worker: Worker, d: DocId) {
    worker.pc == Increment(d) || worker.pc == SendMetrics(d, true)
  }

  predicate OwesMetrics(worker: Worker, d: DocId) {
    || (worker.pc.SendMetrics? && worker.pc.doc == d)
    || (worker.store.Some? && worker.store.value.doc == d && CreditedEarly(worker.store.value.status))
  }

  /** The workers that still have to bump the counter for d. */
  function Owing(workers: map<WorkerId, Worker>, d: DocId): set<WorkerId> {
    set w | w in workers && Owes(workers[w], d)
  }

  function OwingMetrics(workers: map<WorkerId, Worker>, d: DocId): set<WorkerId> {
    set w | w in workers && OwesMetrics(workers[w], d)
  }

  function One(b: bool): nat { if b then 1 else 0 }

  lemma OwingUpdate(ws: map<WorkerId, Worker>, w: WorkerId, x: Worker, d: DocId)
    ensures |Owing(ws[w := x], d)| == |Owing(ws, d)| - One(w in ws && Owes(ws[w], d)) + One(Owes(x, d))
  {
    var rest := Owing(ws, d) - {w};
    assert Owing(ws[w := x], d) == if Owes(x, d) then rest + {w} else rest;
    assert Owing(ws, d) == if w in ws && Owes(ws[w], d) then rest + {w} else rest;
  }

  lemma OwingMetricsUpdate(ws: map<WorkerId, Worker>, w: WorkerId, x: Worker, d: DocId)
    ensures |OwingMetrics(ws[w := x], d)|
         == |OwingMetrics(ws, d)| - One(w in ws && OwesMetrics(ws[w], d)) + One(OwesMetrics(x, d))
  {
    var rest := OwingMetrics(ws, d) - {w};
    assert OwingMetrics(ws[w := x], d) == if OwesMetrics(x, d) then rest + {w} else rest;
    assert OwingMetrics(ws, d) == if w in ws && OwesMetrics(ws[w], d) then rest + {w} else rest;
  }

  ghost predicate Balanced(s: State, d: DocId) {
    s.log.events[d] == s.log.bumped[d] + s.log.dropped[d] + s.log.uncredited[d] + |Owing(s.workers, d)|
  }

  ghost predicate MetricsCovered(s: State, d: DocId) {
    s.log.metrics[d] + |OwingMetrics(s.workers, d)| <= s.log.events[d]
  }

  predicate WellFormed(worker: Worker) {
    worker.store.Some? ==> worker.pc.Idle? || worker.pc.Increment? || worker.pc.Requery? || worker.pc.Finalize?
  }

  predicate Finishing(worker: Worker) { worker.pc.Requery? || worker.pc.Finalize? }

  predicate FinalStatus(b: BatchStatus) { b.Completed? || b.Partial? || b.BatchFailed? }

  /** The part of the ledger that speaks of single workers. */
  ghost predicate WorkersFit(s: State) {
    forall w :: w in s.workers ==>
      && WellFormed(s.workers[w])
      && (Finishing(s.workers[w]) ==> s.log.reached >= 1)
      && (s.workers[w].pc.Finalize? ==> FinalStatus(s.workers[w].pc.verdict))
  }

  ghost predicate DecisionsCounted(s: State) {
    s.log.events == multiset(s.log.outcome.Keys) + s.log.repeats
  }

  ghost predicate CounterExact(s: State) {
    && s.files != {}
    && s.resolved == |s.log.bumped|
    && s.log.reached == (if s.resolved >= s.Total() then s.resolved - s.Total() + 1 else 0)
  }

  ghost predicate FinalisedOnce(s: State) {
    && (s.request == Uploads ==> s.batch == Uploading)
    && |s.log.verdicts| <= 1
    && (s.log.verdicts != [] ==> s.request != Uploads && s.batch != Processing)
    && (forall v :: v in s.log.verdicts ==> FinalStatus(v))
  }

  ghost predicate Ledger(s: State) {
    && DecisionsCounted(s)
    && CounterExact(s)
    && FinalisedOnce(s)
    && WorkersFit(s)
    && (forall d: DocId :: Balanced(s, d))
    && (forall d: DocId :: MetricsCovered(s, d))
  }

  lemma InitialLedger(files: set<DocId>)
    requires files != {}
    ensures Ledger(Initial(files))
  {
    var s := Initial(files);
    assert |s.log.bumped| == 0;
    forall d: DocId ensures Balanced(s, d) && MetricsCovered(s, d) {
      assert Owing(s.workers, d) == {} && OwingMetrics(s.workers, d) == {};
    }
  }

  /** The worker a label touches, if any. */
  function Touched(l: Label): Option<WorkerId> {
    match l
    case Spawn(w, _) => Some(w)
    case Run(w) => Some(w)
    case Fault(w) => Some(w)
    case _ => None
  }

  lemma OneWorkerMoves(s: State, l: Label)
    requires Enabled(s, l)
    ensures Touched(l).None? ==> Next(s, l).workers == s.workers
    ensures Touched(l).Some? ==>
      && Touched(l).value in Next(s, l).workers
      && Next(s, l).workers == s.workers[Touched(l).value := Next(s, l).workers[Touched(l).value]]
  {
  }

  /** What one step adds to d's side of the ledger. */
  lemma {:induction false} StepBalanced(s: State, l: Label, d: DocId)
    requires Enabled(s, l) && WorkersFit(s) && Balanced(s, d)
    ensures Balanced(Next(s, l), d)
  {
    OneWorkerMoves(s, l);
    if Touched(l).Some? {
      var w := Touched(l).value;
      OwingUpdate(s.workers, w, Next(s, l).workers[w], d);
      match l
      case Spawn(_, _) =>
      case Fault(_) =>
      case Run(_) => RunChange(s, w, d);
    }
  }

  /** Decisions on d that have neither been counted nor waived. */
  function Net(h: History, d: DocId): int {
    h.events[d] as int - h.bumped[d] as int - h.dropped[d] as int - h.uncredited[d] as int
  }

  lemma DecidedNet(h: History, d: DocId, st: ProcessStatus, credited: bool, e: DocId)
    ensures Net(Decided(h, d, st, credited), e) == Net(h, e) + One(credited && d == e)
    ensures Decided(h, d, st, credited).events[e] >= h.events[e] + One(d == e)
    ensures Decided(h, d, st, credited).metrics == h.metrics
  {
  }

  lemma IncrementNet(s: State, w: WorkerId, d: DocId, e: DocId)
    requires w in s.workers
    ensures Net(RunIncrement(s, w, d).log, e) == Net(s.log, e) - One(d == e)
    ensures !Owes(RunIncrement(s, w, d).workers[w], e)
  {
  }

  lemma TerminalWriteChange(s: State, w: WorkerId, d: DocId, st: ProcessStatus, q: bool, e: DocId)
    requires w in s.workers && d in s.docs && s.workers[w].pc == WriteTerminal(d, st, q)
    ensures var s' := RunWriteTerminal(s, w, d, st, q);
      Net(s'.log, e) - One(Owes(s'.workers[w], e)) == Net(s.log, e)
  {
    DecidedNet(s.log, d, st, true, e);
  }

  /** A worker's step moves one unit of d between the columns, or adds one to both sides. */
  lemma RunChange(s: State, w: WorkerId, d: DocId)
    requires Enabled(s, Run(w)) && WellFormed(s.workers[w])
    ensures Net(RunWorker(s, w).log, d) - One(Owes(RunWorker(s, w).workers[w], d))
         == Net(s.log, d) - One(Owes(s.workers[w], d))
  {
    var worker := s.workers[w];
    match worker.pc
    case WriteTerminal(e, st, q) => TerminalWriteChange(s, w, e, st, q, d);
    case Increment(e) => IncrementNet(s, w, e, d);
    case Decide(e, st) => DecidedNet(s.log, e, st, true, d);
    case Idle => DecidedNet(s.log, worker.store.value.doc, worker.store.value.status, false, d);
    case _ =>
  }

  lemma StepMetricsCovered(s: State, l: Label, d: DocId)
    requires Enabled(s, l) && WorkersFit(s) && MetricsCovered(s, d)
    ensures MetricsCovered(Next(s, l), d)
  {
    OneWorkerMoves(s, l);
    if Touched(l).Some? {
      var w := Touched(l).value;
      OwingMetricsUpdate(s.workers, w, Next(s, l).workers[w], d);
      match l
      case Spawn(_, _) =>
      case Fault(_) =>
      case Run(_) => RunMetricsChange(s, w, d);
    }
  }

  lemma RunMetricsChange(s: State, w: WorkerId, d: DocId)
    requires Enabled(s, Run(w)) && WellFormed(s.workers[w])
    ensures var s' := RunWorker(s, w);
      s'.log.metrics[d] + One(OwesMetrics(s'.workers[w], d)) - s'.log.events[d]
      <= s.log.metrics[d] + One(OwesMetrics(s.workers[w], d)) - s.log.events[d]
  {
    var worker := s.workers[w];
    match worker.pc
    case WriteTerminal(e, st, _) => DecidedNet(s.log, e, st, true, d);
    case Decide(e, st) => DecidedNet(s.log, e, st, true, d);
    case Idle => DecidedNet(s.log, worker.store.value.doc, worker.store.value.status, false, d);
    case SendMetrics(_, _) => SentMetricsChange(s, w, d);
    case Increment(e) => SameMetricsAfterIncrement(s, w, e, d);
    case _ => OtherMetricsChange(s, w, d);
  }

  lemma SentMetricsChange(s: State, w: WorkerId, d: DocId)
    requires Enabled(s, Run(w)) && s.workers[w].pc.SendMetrics? && s.workers[w].store.None?
    ensures var s' := RunWorker(s, w);
      && s'.log.metrics[d] + One(OwesMetrics(s'.workers[w], d)) == s.log.metrics[d] + One(OwesMetrics(s.workers[w], d))
      && s'.log.events == s.log.events
  {
  }

  lemma SameMetricsAfterIncrement(s: State, w: WorkerId, e: DocId, d: DocId)
    requires w in s.workers && s.workers[w].pc == Increment(e)
    ensures var s' := RunIncrement(s, w, e);
      && s'.log.metrics == s.log.metrics && s'.log.events == s.log.events
      && OwesMetrics(s'.workers[w], d) == OwesMetrics(s.workers[w], d)
  {
  }

  lemma OtherMetricsChange(s: State, w: WorkerId, d: DocId)
    requires Enabled(s, Run(w))
    requires var pc := s.workers[w].pc;
      !pc.WriteTerminal? && !pc.Decide? && !pc.Idle? && !pc.SendMetrics? && !pc.Increment?
    ensures var s' := RunWorker(s, w);
      && s'.log.metrics == s.log.metrics && s'.log.events == s.log.events
      && OwesMetrics(s'.workers[w], d) == OwesMetrics(s.workers[w], d)
  {
  }

  lemma DecidedTotals(h: History, d: DocId, st: ProcessStatus, credited: bool)
    requires h.events == multiset(h.outcome.Keys) + h.repeats
    ensures var h' := Decided(h, d, st, credited); h'.events == multiset(h'.outcome.Keys) + h'.repeats
  {
    if d !in h.outcome {
      assert h.outcome[d := st].Keys == h.outcome.Keys + {d};
    }
  }

  lemma StepDecisionsCounted(s: State, l: Label)
    requires Enabled(s, l) && DecisionsCounted(s)
    ensures DecisionsCounted(Next(s, l))
  {
    if l.Run? {
      var worker := s.workers[l.worker];
      match worker.pc
      case WriteTerminal(d, st, _) => DecidedTotals(s.log, d, st, true);
      case Decide(d, st) => DecidedTotals(s.log, d, st, true);
      case Idle => DecidedTotals(s.log, worker.store.value.doc, worker.store.value.status, false);
      case _ =>
    }
  }

  lemma StepCounterExact(s: State, l: Label)
    requires Enabled(s, l) && CounterExact(s)
    ensures CounterExact(Next(s, l))
  {
    if l.Run? && s.workers[l.worker].pc.Increment? {
      assert |s.log.bumped + multiset{s.workers[l.worker].pc.doc}| == |s.log.bumped| + 1;
    }
  }

  lemma StepFinalisedOnce(s: State, l: Label)
    requires Enabled(s, l) && FinalisedOnce(s) && WorkersFit(s)
    ensures FinalisedOnce(Next(s, l))
  {
    if l.Run? && s.workers[l.worker].pc.Finalize? && s.batch == Processing {
      assert s.log.verdicts == [];
      assert FinalStatus(s.workers[l.worker].pc.verdict);
    }
  }

  lemma StepWorkersFit(s: State, l: Label)
    requires Enabled(s, l) && WorkersFit(s)
    ensures WorkersFit(Next(s, l))
  {
    OneWorkerMoves(s, l);
    if Touched(l).Some? && Touched(l).value in s.workers {
      assert WellFormed(s.workers[Touched(l).value]);
    }
  }

  lemma StepLedger(s: State, l: Label)
    requires Enabled(s, l) && Ledger(s)
    ensures Ledger(Next(s, l))
  {
    StepDecisionsCounted(s, l);
    StepCounterExact(s, l);
    StepFinalisedOnce(s, l);
    StepWorkersFit(s, l);
    forall d: DocId ensures Balanced(Next(s, l), d) && MetricsCovered(Next(s, l), d) {
      StepBalanced(s, l, d);
      StepMetricsCovered(s, l, d);
    }
  }

  lemma {:induction false} RunLedger(states: seq<State>, labels: seq<Label>, n: nat)
    requires IsRun(states, labels) && n < |states|
    ensures Ledger(states[n])
  {
    if n == 0 {
      InitialLedger(states[0].files);
    } else {
      RunLedger(states, labels, n - 1);
      assert states[n] == Next(states[n - 1], labels[n - 1]);
      StepLedger(states[n - 1], labels[n - 1]);
    }
  }
}
