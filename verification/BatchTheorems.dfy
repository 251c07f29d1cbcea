/** The guarantees over whole runs. */
module BatchTheorems {
  import opened Common
  import opened Processing
  import opened BatchProtocol
  import opened BatchLedger
  import opened BatchSafety

  // ---- With no hypothesis ----

  lemma {:induction false} SubmultisetSize(a: multiset<DocId>, b: multiset<DocId>)
    requires a <= b
    ensures |a| <= |b|
  {
    assert b == a + (b - a);
  }

  /** In every run the counter is exactly the increments that landed, and for each
      document every decision is accounted for once: counted, dropped, owed by one
      worker, or of the kind that never increments. So the counter exceeds the number
      of decided documents by at most the decisions made on decided documents. */
  lemma CounterIsALedger(states: seq<State>, labels: seq<Label>, n: nat, d: DocId)
    requires IsRun(states, labels) && n < |states|
    ensures var s := states[n];
      && s.resolved == |s.log.bumped|
      && s.log.events[d] == s.log.bumped[d] + s.log.dropped[d] + s.log.uncredited[d] + |Owing(s.workers, d)|
      && s.log.metrics[d] <= s.log.events[d]
      && |s.log.events| == |s.log.outcome.Keys| + |s.log.repeats|
      && s.resolved <= |s.log.outcome.Keys| + |s.log.repeats|
  {
    RunLedger(states, labels, n);
    var s := states[n];
    assert Balanced(s, d) && MetricsCovered(s, d);
    forall e ensures s.log.bumped[e] <= s.log.events[e] {
      assert Balanced(s, e);
    }
    SubmultisetSize(s.log.bumped, s.log.events);
  }

  predicate LandsFinal(s: State, l: Label) {
    l.Run? && l.worker in s.workers && s.workers[l.worker].pc.Finalize? && s.batch == Processing
  }

  lemma {:induction false} VerdictsStay(states: seq<State>, labels: seq<Label>, i: nat, j: nat)
    requires IsRun(states, labels) && i <= j < |states|
    ensures states[i].log.verdicts <= states[j].log.verdicts
    decreases j
  {
    if i < j {
      VerdictsStay(states, labels, i, j - 1);
      assert states[j] == Next(states[j - 1], labels[j - 1]);
    }
  }

  /** At most one worker finalises the batch, and it is not processing afterwards. */
  lemma FinalisedAtMostOnce(states: seq<State>, labels: seq<Label>, i: nat, j: nat)
    requires IsRun(states, labels) && i < j < |labels|
    requires LandsFinal(states[i], labels[i])
    ensures states[j].batch != Processing && !LandsFinal(states[j], labels[j])
  {
    assert states[i + 1] == Next(states[i], labels[i]);
    VerdictsStay(states, labels, i + 1, j);
    RunLedger(states, labels, j);
  }

  // ---- Under the hypothesis ----

  lemma InitialSafe(files: set<DocId>)
    ensures Safe(Initial(files))
  {
  }

  lemma {:induction false} RunSafeAt(states: seq<State>, labels: seq<Label>, n: nat)
    requires IsOrderlyRun(states, labels) && n < |states|
    ensures Safe(states[n]) && Ledger(states[n])
  {
    RunLedger(states, labels, n);
    if n == 0 {
      InitialSafe(states[0].files);
    } else {
      RunSafeAt(states, labels, n - 1);
      assert states[n] == Next(states[n - 1], labels[n - 1]) && Orderly(states[n - 1], labels[n - 1]);
      StepSafe(states[n - 1], labels[n - 1]);
    }
  }

  ghost predicate AllDecided(s: State) {
    s.log.outcome.Keys == s.files && s.docs.Keys == s.files
  }

  lemma SafeCounts(s: State)
    requires Safe(s) && Ledger(s)
    ensures forall d: DocId :: s.log.events[d] == One(d in s.log.outcome)
    ensures s.log.outcome.Keys <= s.docs.Keys
    ensures s.resolved <= |s.log.outcome.Keys| <= s.Total()
    ensures s.log.reached <= 1
    ensures s.log.reached == 1 ==> AllDecided(s)
  {
    assert s.log.events == multiset(s.log.outcome.Keys);
    forall d | d in s.log.outcome.Keys ensures d in s.docs {
      assert DecidedIsTerminal(s, d);
    }
    forall d ensures s.log.bumped[d] <= s.log.events[d] {
      assert Balanced(s, d);
    }
    SubmultisetSize(s.log.bumped, s.log.events);
    SubsetSize(s.log.outcome.Keys, s.files);
  }

  /** The counter never exceeds the number of decided documents. At most one increment
      sees it reach the total, and by then every file has a decided document. */
  lemma CounterIsSafe(states: seq<State>, labels: seq<Label>, n: nat)
    requires IsOrderlyRun(states, labels) && n < |states|
    ensures var s := states[n];
      && s.resolved <= |s.log.outcome.Keys| <= s.Total()
      && s.log.reached <= 1
      && (s.log.reached == 1 ==> AllDecided(s))
      && (forall w :: w in s.workers && Finishing(s.workers[w]) ==> AllDecided(s))
      && (s.log.verdicts != [] ==> AllDecided(s))
  {
    RunSafeAt(states, labels, n);
    SafeCounts(states[n]);
    VerdictNeedsTotal(states, labels, n);
  }

  lemma {:induction false} VerdictNeedsTotal(states: seq<State>, labels: seq<Label>, n: nat)
    requires IsRun(states, labels) && n < |states|
    ensures states[n].log.verdicts != [] ==> states[n].log.reached >= 1
  {
    if n > 0 {
      VerdictNeedsTotal(states, labels, n - 1);
      RunLedger(states, labels, n - 1);
      assert states[n] == Next(states[n - 1], labels[n - 1]);
      var l := labels[n - 1];
      assert l.Run? ==> (Finishing(states[n - 1].workers[l.worker]) ==> states[n - 1].log.reached >= 1);
    }
  }

  /** How far the counter falls short: by the increments that were dropped while the batch
      was not processing and the decisions that never increment. A batch whose documents
      are all decided, with no increment still owed, reached its total exactly when there
      were none of either. */
  lemma CompletionIsExact(states: seq<State>, labels: seq<Label>, n: nat)
    requires IsOrderlyRun(states, labels) && n < |states|
    requires AllDecided(states[n])
    requires forall d: DocId :: Owing(states[n].workers, d) == {}
    ensures var s := states[n];
      && s.resolved + |s.log.dropped| + |s.log.uncredited| == s.Total()
      && (s.log.reached == 1 <==> s.log.dropped == multiset{} && s.log.uncredited == multiset{})
  {
    RunSafeAt(states, labels, n);
    var s := states[n];
    SafeCounts(s);
    assert s.log.events == s.log.bumped + s.log.dropped + s.log.uncredited by {
      forall d ensures s.log.events[d] == (s.log.bumped + s.log.dropped + s.log.uncredited)[d] {
        assert Balanced(s, d);
      }
    }
    assert |s.log.events| == s.Total();
  }

  /** No step takes back a file, a row or a first decision. */
  ghost predicate Frame(s: State, s': State) {
    && s'.files == s.files
    && s.docs.Keys <= s'.docs.Keys
    && (forall d :: d in s.log.outcome ==> d in s'.log.outcome && s'.log.outcome[d] == s.log.outcome[d])
  }

  lemma DecidedFrame(h: History, d: DocId, st: ProcessStatus, credited: bool)
    ensures forall e :: e in h.outcome ==>
      e in Decided(h, d, st, credited).outcome && Decided(h, d, st, credited).outcome[e] == h.outcome[e]
  {
  }

  lemma StepFrame(s: State, l: Label)
    requires Enabled(s, l)
    ensures Frame(s, Next(s, l))
  {
    if l.Run? {
      var worker := s.workers[l.worker];
      match worker.pc
      case WriteTerminal(d, st, _) => DecidedFrame(s.log, d, st, true);
      case Decide(d, st) => DecidedFrame(s.log, d, st, true);
      case Idle => DecidedFrame(s.log, worker.store.value.doc, worker.store.value.status, false);
      case _ =>
    }
  }

  /** One step of an orderly run leaves a terminal row as it is, or marks it deleted. */
  lemma TerminalIsStable(s: State, l: Label, d: DocId)
    requires Enabled(s, l) && Safe(s) && Orderly(s, l)
    requires d in s.docs && IsClassified(s.docs[d])
    ensures d in Next(s, l).docs
    ensures Next(s, l).docs[d] == s.docs[d] || Next(s, l).docs[d] == Deleted
  {
    if l.Run? {
      assert WorkerFits(s, l.worker);
    }
  }

  predicate Lands(s: State, l: Label, d: DocId) {
    l.Run? && l.worker in s.workers && s.workers[l.worker].pc.WriteTerminal? && s.workers[l.worker].pc.doc == d &&
    d in s.docs && NonTerminal(s.docs[d])
  }

  lemma {:induction false} ClassifiedStays(states: seq<State>, labels: seq<Label>, i: nat, j: nat, d: DocId)
    requires IsOrderlyRun(states, labels) && i <= j < |states|
    requires d in states[i].docs && IsClassified(states[i].docs[d])
    ensures d in states[j].docs && (states[j].docs[d] == states[i].docs[d] || states[j].docs[d] == Deleted)
    decreases j
  {
    if i < j {
      ClassifiedStays(states, labels, i, j - 1, d);
      RunSafeAt(states, labels, j - 1);
      assert states[j] == Next(states[j - 1], labels[j - 1]) && Orderly(states[j - 1], labels[j - 1]);
      TerminalIsStable(states[j - 1], labels[j - 1], d);
    }
  }

  /** Of any number of guarded writers on one document only the first lands. From then on
      the row holds its status or DELETED; the document's metrics message and its increment
      happen at most once each. */
  lemma OnlyTheFirstWriteLands(states: seq<State>, labels: seq<Label>, i: nat, j: nat, d: DocId)
    requires IsOrderlyRun(states, labels) && i < j < |labels|
    requires Lands(states[i], labels[i], d)
    ensures var st := states[i].workers[labels[i].worker].pc.status;
      && d in states[j].docs
      && (states[j].docs[d] == st || states[j].docs[d] == Deleted)
      && d in states[j].log.outcome && states[j].log.outcome[d] == st
    ensures !Lands(states[j], labels[j], d)
    ensures states[j].log.metrics[d] <= 1 && states[j].log.bumped[d] <= 1
  {
    RunSafeAt(states, labels, i);
    assert states[i + 1] == Next(states[i], labels[i]) && Orderly(states[i], labels[i]);
    assert WorkerFits(states[i], labels[i].worker);
    assert d in states[i].log.outcome ==> DecidedIsTerminal(states[i], d);
    ClassifiedStays(states, labels, i + 1, j, d);
    RunSafeAt(states, labels, j);
    SafeCounts(states[j]);
    assert Balanced(states[j], d) && MetricsCovered(states[j], d);
    OutcomeStays(states, labels, i + 1, j, d);
  }

  lemma {:induction false} OutcomeStays(states: seq<State>, labels: seq<Label>, i: nat, j: nat, d: DocId)
    requires IsRun(states, labels) && i <= j < |states| && d in states[i].log.outcome
    ensures d in states[j].log.outcome && states[j].log.outcome[d] == states[i].log.outcome[d]
    decreases j
  {
    if i < j {
      OutcomeStays(states, labels, i, j - 1, d);
      assert states[j] == Next(states[j - 1], labels[j - 1]);
      StepFrame(states[j - 1], labels[j - 1]);
    }
  }

  /** A delete checks the status in one call and writes in another, with no condition on
      the write. It never overwrites a document that is still processing. */
  lemma DeleteHitsOnlyClassified(states: seq<State>, labels: seq<Label>, n: nat, w: WorkerId)
    requires IsOrderlyRun(states, labels) && n < |labels| && labels[n] == Run(w)
    requires w in states[n].workers && states[n].workers[w].pc.MarkDeleted?
    ensures var d := states[n].workers[w].pc.doc;
      && d in states[n].docs && IsClassified(states[n].docs[d]) && d in states[n].log.outcome
      && states[n + 1].docs[d] == Deleted
  {
    RunSafeAt(states, labels, n);
    assert WorkerFits(states[n], w);
    assert TerminalIsDecided(states[n], states[n].workers[w].pc.doc);
    assert states[n + 1] == Next(states[n], labels[n]);
  }

  // ---- The final status ----

  function FailedIn(outcome: map<DocId, ProcessStatus>): set<DocId> {
    set d | d in outcome && CountsAsFailed(outcome[d])
  }

  function FailedOutcomes(s: State): set<DocId> { FailedIn(s.log.outcome) }

  /** What a re-query counts: the documents decided FAILED or TIMED_OUT that were not deleted since.
      The early-credited documents still waiting for their store do not disturb the count. */
  lemma RequeryCountsFailures(s: State)
    requires Safe(s) && AllDecided(s)
    ensures FailedDocs(s) == set d | d in FailedOutcomes(s) && s.docs[d] != Deleted
  {
    forall d | d in s.docs
      ensures d in FailedDocs(s) <==> d in FailedOutcomes(s) && s.docs[d] != Deleted
    {
      RequeryCounts(s, d);
    }
  }

  lemma RequeryCounts(s: State, d: DocId)
    requires Safe(s) && d in s.docs && d in s.log.outcome
    ensures CountsAsFailed(s.docs[d]) <==> CountsAsFailed(s.log.outcome[d]) && s.docs[d] != Deleted
  {
    assert TerminalIsDecided(s, d) && DecidedIsTerminal(s, d);
  }

  /** The documents decided FAILED or TIMED_OUT that are not deleted in this state. */
  function FailedLeft(s: State): set<DocId> {
    set d | d in FailedOutcomes(s) && d in s.docs && s.docs[d] != Deleted
  }

  /** A worker's re-query that finds every document decided, and its verdict. */
  ghost predicate Requeries(s: State, l: Label, v: BatchStatus) {
    && l.Run? && l.worker in s.workers && s.workers[l.worker].pc.Requery?
    && AllDecided(s) && v == Verdict(|FailedLeft(s)|, s.Total())
  }

  ghost predicate CountedBefore(states: seq<State>, labels: seq<Label>, n: nat, v: BatchStatus)
    requires n <= |labels| <= |states|
  {
    exists m :: 0 <= m < n && Requeries(states[m], labels[m], v)
  }

  ghost predicate VerdictsCounted(states: seq<State>, labels: seq<Label>, n: nat)
    requires n <= |labels| < |states|
  {
    var s := states[n];
    && (forall w :: w in s.workers && s.workers[w].pc.Finalize? ==> CountedBefore(states, labels, n, s.workers[w].pc.verdict))
    && (forall v :: v in s.log.verdicts ==> CountedBefore(states, labels, n, v))
  }

  lemma DecidedIsFiled(s: State)
    requires Safe(s)
    ensures s.log.outcome.Keys <= s.docs.Keys <= s.files
  {
    forall d | d in s.log.outcome ensures d in s.docs {
      assert DecidedIsTerminal(s, d);
    }
  }

  /** Once all are decided, the outcomes never change again. */
  lemma OutcomesFixed(s: State, s': State)
    requires Safe(s') && AllDecided(s) && Frame(s, s')
    ensures AllDecided(s') && s'.log.outcome == s.log.outcome
  {
    DecidedIsFiled(s');
    OutcomeMap(s.log.outcome, s'.log.outcome);
  }

  lemma OutcomeMap(outcome: map<DocId, ProcessStatus>, outcome': map<DocId, ProcessStatus>)
    requires forall d :: d in outcome ==> d in outcome' && outcome'[d] == outcome[d]
    requires outcome'.Keys <= outcome.Keys
    ensures outcome' == outcome
  {
  }

  lemma DeletedStays(s: State, l: Label)
    requires Enabled(s, l) && Safe(s) && Orderly(s, l)
    ensures forall d :: d in s.docs && s.docs[d] == Deleted ==> d in Next(s, l).docs && Next(s, l).docs[d] == Deleted
  {
    forall d | d in s.docs && s.docs[d] == Deleted
      ensures d in Next(s, l).docs && Next(s, l).docs[d] == Deleted
    {
      TerminalIsStable(s, l, d);
    }
  }

  /** Where the verdicts after a step come from. */
  ghost predicate VerdictSource(s: State, l: Label, s': State)
    requires Enabled(s, l)
  {
    && (forall w :: w in s'.workers && s'.workers[w].pc.Finalize? && !(w in s.workers && s'.workers[w].pc == s.workers[w].pc) ==>
          l == Run(w) && s.workers[w].pc.Requery? && s'.workers[w].pc.verdict == Verdict(|FailedDocs(s)|, s.Total()))
    && (forall v :: v in s'.log.verdicts && v !in s.log.verdicts ==>
          l.Run? && s.workers[l.worker].pc == Finalize(v))
  }

  lemma RunVerdictSource(s: State, w: WorkerId)
    requires Enabled(s, Run(w))
    ensures VerdictSource(s, Run(w), RunWorker(s, w))
  {
    match s.workers[w].pc
    case WriteTerminal(_, _, _) =>
    case Requery =>
    case Finalize(_) =>
    case Increment(_) =>
    case _ =>
  }

  lemma VerdictOrigin(s: State, l: Label)
    requires Enabled(s, l)
    ensures VerdictSource(s, l, Next(s, l))
  {
    if l.Run? {
      RunVerdictSource(s, l.worker);
    }
  }

  lemma RequeryVerdict(s: State, w: WorkerId)
    requires Safe(s) && Ledger(s) && w in s.workers && s.workers[w].pc.Requery?
    ensures Requeries(s, Run(w), Verdict(|FailedDocs(s)|, s.Total()))
  {
    SafeCounts(s);
    assert Finishing(s.workers[w]);
    RequeryCountsFailures(s);
    assert FailedLeft(s) == FailedDocs(s);
  }

  lemma CountedStays(states: seq<State>, labels: seq<Label>, n: nat, v: BatchStatus)
    requires n < |labels| < |states| && CountedBefore(states, labels, n, v)
    ensures CountedBefore(states, labels, n + 1, v)
  {
    var m :| 0 <= m < n && Requeries(states[m], labels[m], v);
    assert 0 <= m < n + 1 && Requeries(states[m], labels[m], v);
  }

  lemma FinalizerCounted(states: seq<State>, labels: seq<Label>, n: nat, w: WorkerId)
    requires IsOrderlyRun(states, labels) && n < |labels| && VerdictsCounted(states, labels, n)
    requires Enabled(states[n], labels[n]) && VerdictSource(states[n], labels[n], states[n + 1])
    requires w in states[n + 1].workers && states[n + 1].workers[w].pc.Finalize?
    ensures CountedBefore(states, labels, n + 1, states[n + 1].workers[w].pc.verdict)
  {
    var s, s' := states[n], states[n + 1];
    if w in s.workers && s'.workers[w].pc == s.workers[w].pc {
      CountedStays(states, labels, n, s.workers[w].pc.verdict);
    } else {
      RunSafeAt(states, labels, n);
      RequeryVerdict(s, w);
      assert Requeries(states[n], labels[n], s'.workers[w].pc.verdict);
    }
  }

  lemma LoggedCounted(states: seq<State>, labels: seq<Label>, n: nat, v: BatchStatus)
    requires IsOrderlyRun(states, labels) && n < |labels| && VerdictsCounted(states, labels, n)
    requires Enabled(states[n], labels[n]) && VerdictSource(states[n], labels[n], states[n + 1])
    requires v in states[n + 1].log.verdicts
    ensures CountedBefore(states, labels, n + 1, v)
  {
    if v !in states[n].log.verdicts {
      assert states[n].workers[labels[n].worker].pc == Finalize(v);
    }
    CountedStays(states, labels, n, v);
  }

  lemma {:induction false} VerdictsCountedAt(states: seq<State>, labels: seq<Label>, n: nat)
    requires IsOrderlyRun(states, labels) && n < |states|
    ensures VerdictsCounted(states, labels, n)
  {
    if n > 0 {
      VerdictsCountedAt(states, labels, n - 1);
      RunStep(states, labels, n - 1);
      VerdictsStillCounted(states, labels, n - 1);
    }
  }

  lemma RunStep(states: seq<State>, labels: seq<Label>, n: nat)
    requires IsRun(states, labels) && n < |labels|
    ensures Enabled(states[n], labels[n]) && states[n + 1] == Next(states[n], labels[n])
    ensures VerdictSource(states[n], labels[n], states[n + 1])
  {
    VerdictOrigin(states[n], labels[n]);
  }

  lemma VerdictsStillCounted(states: seq<State>, labels: seq<Label>, n: nat)
    requires IsOrderlyRun(states, labels) && n < |labels| && VerdictsCounted(states, labels, n)
    requires Enabled(states[n], labels[n]) && VerdictSource(states[n], labels[n], states[n + 1])
    ensures VerdictsCounted(states, labels, n + 1)
  {
    var s', after := states[n + 1], n + 1;
    forall w | w in s'.workers && s'.workers[w].pc.Finalize?
      ensures CountedBefore(states, labels, after, s'.workers[w].pc.verdict)
    {
      FinalizerCounted(states, labels, n, w);
    }
    forall v | v in s'.log.verdicts ensures CountedBefore(states, labels, after, v) {
      LoggedCounted(states, labels, n, v);
    }
  }

  /** The outcomes are the same, and what was deleted still is. */
  ghost predicate Later(s: State, s': State) {
    && s'.files == s.files && s'.log.outcome == s.log.outcome && AllDecided(s')
    && forall d :: d in s.docs && s.docs[d] == Deleted ==> d in s'.docs && s'.docs[d] == Deleted
  }

  lemma StepIsLater(s: State, l: Label, s': State)
    requires Enabled(s, l) && Safe(s) && Orderly(s, l) && s' == Next(s, l) && Safe(s') && AllDecided(s)
    ensures Later(s, s')
  {
    StepFrame(s, l);
    OutcomesFixed(s, s');
    DeletedStays(s, l);
  }

  lemma LaterStill(s: State, s': State, s'': State)
    requires Later(s, s') && Later(s', s'')
    ensures Later(s, s'')
  {
  }

  lemma RunStepIsLater(states: seq<State>, labels: seq<Label>, n: nat)
    requires IsOrderlyRun(states, labels) && n < |labels| && AllDecided(states[n])
    ensures Later(states[n], states[n + 1])
  {
    RunSafeAt(states, labels, n);
    RunSafeAt(states, labels, n + 1);
    assert Orderly(states[n], labels[n]) && states[n + 1] == Next(states[n], labels[n]);
    StepIsLater(states[n], labels[n], states[n + 1]);
  }

  /** Once all are decided the outcomes are fixed, and what is deleted stays deleted. */
  lemma {:induction false} AfterDeciding(states: seq<State>, labels: seq<Label>, m: nat, n: nat)
    requires IsOrderlyRun(states, labels) && m <= n < |states| && AllDecided(states[m])
    ensures Later(states[m], states[n])
    decreases n
  {
    if m < n {
      AfterDeciding(states, labels, m, n - 1);
      RunStepIsLater(states, labels, n - 1);
      LaterStill(states[m], states[n - 1], states[n]);
    }
  }

  /** The stored batch status is the verdict, or FAILED because the upload request failed the
      batch after the verdict was written. */
  ghost predicate RowHolds(states: seq<State>, labels: seq<Label>, n: nat, v: BatchStatus)
    requires n <= |labels| <= |states| && n < |states|
  {
    states[n].batch == v ||
    (states[n].batch == BatchFailed && exists k :: 0 <= k < n && labels[k] == FailBatch && v in states[k].log.verdicts)
  }

  lemma {:induction false} RowHoldsAt(states: seq<State>, labels: seq<Label>, n: nat, v: BatchStatus)
    requires IsRun(states, labels) && n < |states| && v in states[n].log.verdicts
    ensures RowHolds(states, labels, n, v)
  {
    assert n > 0;
    var s, l := states[n - 1], labels[n - 1];
    RunLedger(states, labels, n - 1);
    RowAfterStep(s, l, states[n], v);
    if v in s.log.verdicts {
      RowHoldsAt(states, labels, n - 1, v);
      if l == FailBatch {
        assert 0 <= n - 1 < n && labels[n - 1] == FailBatch && v in states[n - 1].log.verdicts;
      }
    }
  }

  lemma RowAfterStep(s: State, l: Label, s': State, v: BatchStatus)
    requires Enabled(s, l) && s' == Next(s, l) && Ledger(s) && v in s'.log.verdicts
    ensures if v in s.log.verdicts then s'.batch == s.batch || (l == FailBatch && s'.batch == BatchFailed) else s'.batch == v
  {
    VerdictOrigin(s, l);
    if v in s.log.verdicts {
      OnlyFailBatchFollows(s, l, v);
    } else {
      WrittenWithItsVerdict(s, l, v);
    }
  }

  lemma FailedStaysAfterStep(s: State, l: Label)
    requires Enabled(s, l) && s.batch == BatchFailed && s.request == Returned
    ensures Next(s, l).batch == BatchFailed && Next(s, l).request == Returned
  {
  }

  /** A batch that its upload request failed is FAILED for good, whatever its documents do; a
      batch is opened only when every file has its row. No hypothesis. */
  lemma {:induction false} FailedByItsRequest(states: seq<State>, labels: seq<Label>, i: nat, j: nat)
    requires IsRun(states, labels) && i < j < |states|
    ensures labels[i] == FailBatch ==> states[j].batch == BatchFailed && states[j].request == Returned
    ensures labels[i] == OpenBatch ==> states[i].docs.Keys == states[i].files && states[i + 1].batch == Processing
    decreases j
  {
    assert Enabled(states[i], labels[i]) && states[i + 1] == Next(states[i], labels[i]);
    if i + 1 < j && labels[i] == FailBatch {
      FailedByItsRequest(states, labels, i, j - 1);
      assert Enabled(states[j - 1], labels[j - 1]) && states[j] == Next(states[j - 1], labels[j - 1]);
      FailedStaysAfterStep(states[j - 1], labels[j - 1]);
    }
  }

  lemma OnlyFailBatchFollows(s: State, l: Label, v: BatchStatus)
    requires Enabled(s, l) && Ledger(s) && v in s.log.verdicts
    ensures Next(s, l).batch == s.batch || (l == FailBatch && Next(s, l).batch == BatchFailed)
  {
  }

  lemma WrittenWithItsVerdict(s: State, l: Label, v: BatchStatus)
    requires Enabled(s, l) && v !in s.log.verdicts && v in Next(s, l).log.verdicts && VerdictSource(s, l, Next(s, l))
    ensures Next(s, l).batch == v
  {
  }

  /** The document was decided FAILED or TIMED_OUT and is not deleted in this state. */
  predicate FailedAt(s: State, d: DocId) {
    && d in s.log.outcome && (s.log.outcome[d] == Failed || s.log.outcome[d] == TimedOut)
    && d in s.docs && s.docs[d] != Deleted
  }

  /** COMPLETED when no file failed, FAILED when every file did, PARTIAL in between. */
  lemma VerdictMeans(s: State, l: Label, v: BatchStatus)
    requires Requeries(s, l, v) && s.files != {}
    ensures v == Completed <==> forall d :: d in s.files ==> !FailedAt(s, d)
    ensures v == BatchFailed <==> forall d :: d in s.files ==> FailedAt(s, d)
    ensures v == Partial <==> (exists d :: d in s.files && FailedAt(s, d)) && (exists d :: d in s.files && !FailedAt(s, d))
  {
    var failed := FailedLeft(s);
    assert forall d :: d in failed <==> FailedAt(s, d);
    assert failed <= s.files;
    SubsetSize(failed, s.files);
    assert |failed| == 0 <==> failed == {};
    if |failed| == |s.files| {
      assert failed == s.files;
      assert exists d :: d in s.files;
    } else if failed != {} {
      var d :| d in failed;
      assert d in s.files && FailedAt(s, d);
      var e := Outside(failed, s.files);
      assert !FailedAt(s, e);
    }
  }

  /** A finalised batch has one verdict. It is the one a re-query at some earlier step m reached
      when every document was decided: it counts exactly the documents decided FAILED or
      TIMED_OUT that were not deleted at that step; the outcomes have not changed since. It is
      COMPLETED when no file is such, FAILED when every file is, and PARTIAL in between. The
      batch row holds it unless the upload request failed the batch afterwards. */
  lemma FinalStatusIsRight(states: seq<State>, labels: seq<Label>, n: nat, v: BatchStatus) returns (m: nat)
    requires IsOrderlyRun(states, labels) && n < |states| && v in states[n].log.verdicts
    ensures states[n].log.verdicts == [v] && AllDecided(states[n])
    ensures m < n && Requeries(states[m], labels[m], v) && states[m].log.outcome == states[n].log.outcome
    ensures (forall d :: d in states[n].docs ==> states[n].docs[d] != Deleted) ==>
              v == Verdict(|FailedOutcomes(states[n])|, states[n].Total())
    ensures RowHolds(states, labels, n, v)
    ensures v == Completed <==> forall d :: d in states[n].files ==> !FailedAt(states[m], d)
    ensures v == BatchFailed <==> forall d :: d in states[n].files ==> FailedAt(states[m], d)
    ensures v == Partial <==>
      (exists d :: d in states[n].files && FailedAt(states[m], d)) && (exists d :: d in states[n].files && !FailedAt(states[m], d))
  {
    VerdictsCountedAt(states, labels, n);
    m :| 0 <= m < n && Requeries(states[m], labels[m], v);
    AfterDeciding(states, labels, m, n);
    RunLedger(states, labels, n);
    OneVerdict(states[n], v);
    RowHoldsAt(states, labels, n, v);
    RunLedger(states, labels, m);
    VerdictMeans(states[m], labels[m], v);
    if forall d :: d in states[n].docs ==> states[n].docs[d] != Deleted {
      NoneDeleted(states[m], states[n]);
    }
  }

  lemma OneVerdict(s: State, v: BatchStatus)
    requires Ledger(s) && v in s.log.verdicts
    ensures s.log.verdicts == [v]
  {
  }

  lemma NoneDeleted(s: State, s': State)
    requires AllDecided(s) && Later(s, s')
    requires forall d :: d in s'.docs ==> s'.docs[d] != Deleted
    ensures FailedLeft(s) == FailedOutcomes(s')
  {
    forall d | d in FailedOutcomes(s') ensures d in FailedLeft(s) {
      assert d in s.log.outcome.Keys;
    }
  }

  // ---- The hypothesis is exact ----

  lemma DisorderlyWrite(s: State, w: WorkerId)
    requires Enabled(s, Run(w)) && WorkersFit(s) && Safe(s) && s.workers[w].pc.WriteTerminal? && !Orderly(s, Run(w))
    ensures !Safe(RunWorker(s, w))
  {
    var d := s.workers[w].pc.doc;
    assert WellFormed(s.workers[w]) && WorkerFits(s, w);
    var v :| v in s.workers && Stores(s.workers[v], d);
    assert WorkerFits(s, v);
    assert RunWorker(s, w).workers[v] == s.workers[v];
    assert !WorkerFits(RunWorker(s, w), v);
  }

  lemma DisorderlyDecide(s: State, w: WorkerId)
    requires Enabled(s, Run(w)) && WorkersFit(s) && Safe(s) && s.workers[w].pc.Decide? && !Orderly(s, Run(w))
    ensures !Safe(RunWorker(s, w))
  {
    var d, s' := s.workers[w].pc.doc, RunWorker(s, w);
    assert WellFormed(s.workers[w]) && Stores(s'.workers[w], d);
    if Open(s, d) {
      var v :| v in s.workers && Stores(s.workers[v], d);
      assert v != w && Stores(s'.workers[v], d);
    } else {
      assert !WorkerFits(s', w);
    }
  }

  lemma TerminalIsNotOpen(s: State, d: DocId)
    requires Safe(s) && d in s.docs && !NonTerminal(s.docs[d])
    ensures !Open(s, d)
  {
    forall v | v in s.workers ensures !Stores(s.workers[v], d) {
      assert WorkerFits(s, v);
    }
  }

  lemma DisorderlyStarted(s: State, w: WorkerId)
    requires Enabled(s, Run(w)) && Safe(s) && s.workers[w].pc.SetStarted? && !Orderly(s, Run(w))
    ensures !Safe(RunWorker(s, w))
  {
    var d, s' := s.workers[w].pc.doc, RunWorker(s, w);
    assert TerminalIsDecided(s, d);
    TerminalIsNotOpen(s, d);
    OpenSame(s, s', w, d);
    assert !DecidedIsTerminal(s', d);
  }

  /** From a safe state, the step keeps the invariant exactly when it is orderly: each clause
      of the hypothesis is needed for every state it excludes. */
  lemma SafeStepIff(s: State, l: Label)
    requires Enabled(s, l) && WorkersFit(s) && Safe(s)
    ensures Safe(Next(s, l)) <==> Orderly(s, l)
  {
    if Orderly(s, l) {
      StepSafe(s, l);
    } else if s.workers[l.worker].pc.WriteTerminal? {
      DisorderlyWrite(s, l.worker);
    } else if s.workers[l.worker].pc.Decide? {
      DisorderlyDecide(s, l.worker);
    } else {
      DisorderlyStarted(s, l.worker);
    }
  }

  /** So a run keeps it throughout exactly when the run is orderly. */
  lemma SafeRunIff(states: seq<State>, labels: seq<Label>)
    requires IsRun(states, labels)
    ensures (forall n :: 0 <= n < |states| ==> Safe(states[n])) <==> IsOrderlyRun(states, labels)
  {
    if IsOrderlyRun(states, labels) {
      forall n | 0 <= n < |states| ensures Safe(states[n]) {
        RunSafeAt(states, labels, n);
      }
    }
    if forall n :: 0 <= n < |states| ==> Safe(states[n]) {
      forall i {:trigger labels[i]} | 0 <= i < |labels| ensures Orderly(states[i], labels[i]) {
        RunLedger(states, labels, i);
        assert Enabled(states[i], labels[i]) && states[i + 1] == Next(states[i], labels[i]);
        assert Safe(states[i]) && Safe(states[i + 1]);
        SafeStepIff(states[i], labels[i]);
      }
    }
  }

  // ---- Which of those steps decide a document again at once ----

  predicate EarlyOpen(s: State, d: DocId) {
    exists w :: w in s.workers && Stores(s.workers[w], d) && CreditedEarly(s.workers[w].store.value.status)
  }

  /** A step that decides d although it is stored terminal or credited early. */
  predicate DecidesAgain(s: State, l: Label)
    requires Enabled(s, l)
  {
    l.Run? &&
    match s.workers[l.worker].pc
    case WriteTerminal(d, _, _) => NonTerminal(s.docs[d]) && EarlyOpen(s, d)
    case Decide(d, st) => CreditedEarly(st) && (IsClassified(s.docs[d]) || EarlyOpen(s, d))
    case _ => false
  }

  /** From a safe state, the one step repeats a decision exactly when it is a guarded write
      that lands inside an early-credited upsert, or an early-credited decision on a terminal
      or already credited document. Other disorderly steps leave that to a later one. */
  lemma DecidedOnceIff(s: State, l: Label)
    requires Enabled(s, l) && Safe(s) && WorkersFit(s)
    ensures Next(s, l).log.repeats == multiset{} <==> !DecidesAgain(s, l)
  {
    if l.Run? {
      var w := l.worker;
      assert WorkerFits(s, w) && WellFormed(s.workers[w]);
      match s.workers[w].pc
      case WriteTerminal(d, _, _) => DecidedWhen(s, d);
      case Decide(d, _) => DecidedWhen(s, d);
      case Idle => DecidedWhen(s, s.workers[w].store.value.doc);
      case _ =>
    }
  }

  /** Of the statuses an initial upsert can choose, password-protected and excluded by sampling,
      and no others, are counted before they are stored. */
  lemma UpsertCountsEarlyIff(s: State, w: WorkerId)
    requires Enabled(s, Run(w)) && s.workers[w].pc.Decide?
    ensures var Decide(d, st) := s.workers[w].pc; var s' := Next(s, Run(w));
      && (s'.workers[w].pc == Increment(d) <==> st == PasswordProtected || st == ProcessingExcluded)
      && (s'.log.events == s.log.events + multiset{d} <==> st == PasswordProtected || st == ProcessingExcluded)
      && s'.workers[w].store == Some(Upsert(d, st)) && s'.docs == s.docs
  {
    var d := s.workers[w].pc.doc;
    assert (s.log.events + multiset{d})[d] == s.log.events[d] + 1;
  }

  lemma DecidedWhen(s: State, d: DocId)
    requires Safe(s) && d in s.docs
    ensures d in s.log.outcome <==> IsClassified(s.docs[d]) || EarlyOpen(s, d)
  {
    assert TerminalIsDecided(s, d);
    if d in s.log.outcome && NonTerminal(s.docs[d]) {
      assert DecidedIsTerminal(s, d);
      var w :| w in s.workers && Stores(s.workers[w], d);
      assert WorkerFits(s, w);
    }
    if EarlyOpen(s, d) {
      var w :| w in s.workers && Stores(s.workers[w], d) && CreditedEarly(s.workers[w].store.value.status);
      assert WorkerFits(s, w);
    }
  }
}
