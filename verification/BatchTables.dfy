/** The same calls as methods over the two tables, run without interference, and
    their agreement with a worker that runs alone in the transition system. */
module BatchTables {
  import opened Common
  import opened Processing
  import opened BatchProtocol

  /** What the document rows of one batch and its batch row hold. */
  datatype Rows = Rows(docs: map<DocId, ProcessStatus>, batch: BatchStatus, resolved: nat)

  function RowsOf(s: State): Rows {
    Rows(s.docs, s.batch, s.resolved)
  }

  function FailedAmong(docs: map<DocId, ProcessStatus>): set<DocId> {
    set d | d in docs && CountsAsFailed(docs[d])
  }

  /** The rows after one increment and, when it is the last, the finalisation. */
  function Counted(rows: Rows, total: nat): Rows {
    if rows.batch != Processing then rows
    else if rows.resolved + 1 < total then rows.(resolved := rows.resolved + 1)
    else rows.(resolved := rows.resolved + 1, batch := Verdict(|FailedAmong(rows.docs)|, total))
  }

  /** The rows after a claim from an expected status. */
  function Claimed(docs: map<DocId, ProcessStatus>, doc: DocId, expected: ProcessStatus): map<DocId, ProcessStatus> {
    if doc in docs && docs[doc] == expected then docs[doc := Started] else docs
  }

  /** The rows after a delete request: only a classified document is touched. */
  function Erased(docs: map<DocId, ProcessStatus>, doc: DocId): map<DocId, ProcessStatus> {
    if doc in docs && IsClassified(docs[doc]) then docs[doc := Deleted] else docs
  }

  lemma FailedMeans(docs: map<DocId, ProcessStatus>)
    ensures FailedAmong(docs) == set d | d in docs && (docs[d] == Failed || docs[d] == TimedOut)
  {
  }

  /** What the finalisation in an increment means for the rows. */
  lemma CountedMeans(rows: Rows, total: nat)
    requires rows.batch == Processing && rows.resolved + 1 >= total
    ensures var batch, docs := Counted(rows, total).batch, rows.docs;
      && (batch == Completed <==> forall d :: d in docs ==> docs[d] != Failed && docs[d] != TimedOut)
      && (|docs| == total && docs != map[] ==>
            (batch == BatchFailed <==> forall d :: d in docs ==> docs[d] == Failed || docs[d] == TimedOut))
      && (batch == Completed || batch == BatchFailed || batch == Partial)
  {
    var failed := FailedAmong(rows.docs);
    assert forall d :: d in failed <==> d in rows.docs && (rows.docs[d] == Failed || rows.docs[d] == TimedOut);
    assert |failed| == 0 <==> failed == {};
    SubsetSize(failed, rows.docs.Keys);
    assert |rows.docs.Keys| == |rows.docs|;
    assert failed == rows.docs.Keys <==> forall d :: d in rows.docs ==> rows.docs[d] == Failed || rows.docs[d] == TimedOut;
    if rows.docs != map[] {
      var d :| d in rows.docs;
      assert d in rows.docs.Keys && |rows.docs.Keys| > 0;
    }
  }

  datatype DeleteReply = NoContent | NotFound | StillProcessing

  class Tables {
    var docs: map<DocId, ProcessStatus>
    var batch: BatchStatus
    var resolved: nat
    var queued: seq<DocId>
    const total: nat

    ghost function View(): Rows
      reads this
    {
      Rows(docs, batch, resolved)
    }

    constructor (files: nat)
      ensures View() == Rows(map[], Uploading, 0) && queued == [] && total == files
    {
      docs, batch, resolved, queued, total := map[], Uploading, 0, [], files;
    }

    /** The re-query of the batch's jobs, and the count of those that failed. */
    method CountFailedJobs() returns (failed: nat)
      ensures failed == |FailedAmong(docs)|
      ensures failed == |set d | d in docs && (docs[d] == Failed || docs[d] == TimedOut)|
    {
      failed := 0;
      var jobs := docs.Keys;
      ghost var seen := {};
      while jobs != {}
        invariant jobs + seen == docs.Keys && jobs !! seen
        invariant failed == |set d | d in seen && CountsAsFailed(docs[d])|
        decreases |jobs|
      {
        var d :| d in jobs;
        ghost var before := set e | e in seen && CountsAsFailed(docs[e]);
        assert (set e | e in seen + {d} && CountsAsFailed(docs[e]))
            == if CountsAsFailed(docs[d]) then before + {d} else before;
        if CountsAsFailed(docs[d]) {
          failed := failed + 1;
        }
        jobs, seen := jobs - {d}, seen + {d};
      }
      assert seen == docs.Keys;
      assert FailedAmong(docs) == set d | d in seen && CountsAsFailed(docs[d]);
      FailedMeans(docs);
    }

    /** The last increment leaves COMPLETED when no row is FAILED or TIMED_OUT; with one row per
        file, FAILED when every row is, and PARTIAL in between. */
    method IncrementResolvedCount()
      modifies this`batch, this`resolved
      ensures View() == Counted(old(View()), total)
      ensures old(batch) != Processing || old(resolved) + 1 < total ==> batch == old(batch)
      ensures resolved == if old(batch) == Processing then old(resolved) + 1 else old(resolved)
      ensures old(batch) == Processing && old(resolved) + 1 >= total ==>
        var failed := |set d | d in docs && (docs[d] == Failed || docs[d] == TimedOut)|;
        && batch == (if failed == 0 then Completed else if failed == total then BatchFailed else Partial)
        && (batch == Completed <==> forall d :: d in docs ==> docs[d] != Failed && docs[d] != TimedOut)
        && (|docs| == total && docs != map[] ==>
              (batch == BatchFailed <==> forall d :: d in docs ==> docs[d] == Failed || docs[d] == TimedOut))
        && (batch == Completed || batch == BatchFailed || batch == Partial)
    {
      if batch != Processing {
        return;
      }
      resolved := resolved + 1;
      if resolved < total {
        return;
      }
      CountedMeans(old(View()), total);
      var failed := CountFailedJobs();
      var terminal;
      if failed == 0 {
        terminal := Completed;
      } else if failed == total {
        terminal := BatchFailed;
      } else {
        terminal := Partial;
      }
      if batch == Processing {
        batch := terminal;
      }
    }

    /** The guarded terminal write. A row that does not exist passes the guard. */
    method WriteTerminalStatus(doc: DocId, status: ProcessStatus, inBatch: bool) returns (landed: bool)
      modifies this
      ensures landed <==>
        doc !in old(docs) || old(docs)[doc] in {Started, NotStarted, PendingUpload, PendingImageOptimization}
      ensures !landed ==> View() == old(View()) && queued == old(queued)
      ensures landed ==> queued == if IsClassified(status) then old(queued) + [doc] else old(queued)
      ensures landed ==>
        View() == (var written := old(View()).(docs := old(docs)[doc := status]);
                   if inBatch then Counted(written, total) else written)
    {
      landed := doc !in docs || NonTerminal(docs[doc]);
      if !landed {
        return;
      }
      docs := docs[doc := status];
      if IsClassified(status) {
        queued := queued + [doc];
      }
      if inBatch {
        IncrementResolvedCount();
      }
    }

    method SetProcessingStatusStarted(doc: DocId, expected: ProcessStatus) returns (claimed: bool)
      modifies this`docs
      ensures claimed <==> doc in old(docs) && old(docs)[doc] == expected
      ensures docs == Claimed(old(docs), doc, expected)
      ensures claimed ==> docs == old(docs)[doc := Started]
      ensures claimed ==> !Claimable(docs[doc])
    {
      claimed := doc in docs && docs[doc] == expected;
      if claimed {
        docs := docs[doc := Started];
      }
    }

    method DeleteDocument(doc: DocId) returns (reply: DeleteReply)
      modifies this`docs
      ensures reply == NotFound <==> doc !in old(docs) || old(docs)[doc] == Deleted
      ensures reply == StillProcessing <==> doc in old(docs) && NonTerminal(old(docs)[doc])
      ensures docs == Erased(old(docs), doc)
      ensures reply == NoContent ==> docs == old(docs)[doc := Deleted]
      ensures forall d :: d in old(docs) && NonTerminal(old(docs)[d]) ==> d in docs && docs[d] == old(docs)[d]
    {
      if doc !in docs || docs[doc] == Deleted {
        return NotFound;
      }
      if !IsClassified(docs[doc]) {
        return StillProcessing;
      }
      docs := docs[doc := Deleted];
      return NoContent;
    }
  }

  function Steps(s: State, w: WorkerId, n: nat): Option<State>
    decreases n
  {
    if n == 0 then Some(s)
    else if Enabled(s, Run(w)) then Steps(Next(s, Run(w)), w, n - 1)
    else None
  }

  /** A worker that increments with nobody in between changes the rows as the method does. */
  lemma AloneIncrementAgrees(s: State, w: WorkerId, d: DocId) returns (n: nat, s': State)
    requires w in s.workers && s.workers[w] == Worker(Increment(d), None)
    ensures Steps(s, w, n) == Some(s') && w in s'.workers && s'.workers[w] == Worker(Idle, None)
    ensures RowsOf(s') == Counted(RowsOf(s), s.Total()) && s'.log.metrics == s.log.metrics
  {
    n, s' := IncrementAlone(s, w, d, None);
  }

  lemma IncrementAlone(s: State, w: WorkerId, d: DocId, store: Option<Upsert>) returns (n: nat, s': State)
    requires w in s.workers && s.workers[w] == Worker(Increment(d), store)
    ensures Steps(s, w, n) == Some(s') && w in s'.workers && s'.workers[w] == Worker(Idle, store)
    ensures RowsOf(s') == Counted(RowsOf(s), s.Total()) && s'.log.metrics == s.log.metrics
  {
    s' := Next(s, Run(w));
    n := 1;
    assert Steps(s', w, 0) == Some(s');
    if s'.workers[w].pc.Requery? {
      var s2 := Next(s', Run(w));
      var s3 := Next(s2, Run(w));
      assert FailedDocs(s') == FailedAmong(s.docs);
      assert Steps(s3, w, 0) == Some(s3) && Steps(s2, w, 1) == Some(s3) && Steps(s', w, 2) == Some(s3);
      n, s' := 3, s3;
    }
  }

  /** So does a guarded terminal write with its metrics message and its increment. */
  lemma AloneTerminalWriteAgrees(s: State, w: WorkerId, d: DocId, st: ProcessStatus) returns (n: nat, s': State)
    requires w in s.workers && s.workers[w] == Worker(WriteTerminal(d, st, true), None) && d in s.docs
    ensures Steps(s, w, n) == Some(s') && w in s'.workers && s'.workers[w] == Worker(Idle, None)
    ensures RowsOf(s') == if NonTerminal(s.docs[d]) then Counted(RowsOf(s).(docs := s.docs[d := st]), s.Total()) else RowsOf(s)
    ensures s'.log.metrics == if NonTerminal(s.docs[d]) then s.log.metrics + multiset{d} else s.log.metrics
  {
    var s1 := Next(s, Run(w));
    if NonTerminal(s.docs[d]) {
      assert s1.workers[w] == Worker(SendMetrics(d, true), None);
      var s2 := Next(s1, Run(w));
      assert RowsOf(s2) == RowsOf(s).(docs := s.docs[d := st]) && s2.Total() == s.Total();
      assert s2.workers[w] == Worker(Increment(d), None);
      n, s' := AloneIncrementAgrees(s2, w, d);
      assert Steps(s1, w, n + 1) == Some(s');
      n := n + 2;
    } else {
      n, s' := 1, s1;
      assert Steps(s1, w, 0) == Some(s1);
    }
  }

  /** A claim may expect any of three statuses, and changes the row exactly when it has that one. */
  lemma ClaimFrom(s: State, w: WorkerId, d: DocId, e: ProcessStatus)
    requires w !in s.workers && d in s.docs
    ensures Enabled(s, Spawn(w, Claim(d, e))) <==> e in {NotStarted, PendingUpload, PendingImageOptimization}
    ensures Enabled(s, Spawn(w, Claim(d, e))) ==>
      var claiming := Next(s, Spawn(w, Claim(d, e)));
      && Enabled(claiming, Run(w))
      && Next(claiming, Run(w)).docs == if s.docs[d] == e then s.docs[d := Started] else s.docs
  {
  }

  /** A claim in one call, and of two claims run one after the other from claimable statuses
      at most one changes the row. */
  lemma AloneClaimAgrees(s: State, w: WorkerId, d: DocId, e: ProcessStatus) returns (s': State)
    requires w in s.workers && s.workers[w] == Worker(Claim(d, e), None) && d in s.docs
    ensures Steps(s, w, 1) == Some(s') && w in s'.workers && s'.workers[w] == Worker(Idle, None)
    ensures RowsOf(s') == RowsOf(s).(docs := Claimed(s.docs, d, e))
    ensures s.docs[d] == e ==> forall e' :: Claimable(e') ==> Claimed(s'.docs, d, e') == s'.docs
  {
    s' := Next(s, Run(w));
    assert Steps(s', w, 0) == Some(s');
  }

  /** An initial upsert that nobody interrupts: a password-protected or sampled-out document is
      counted before its row is stored, every classified status queues one metrics message, and
      no other status is counted or decided early. */
  lemma AloneUpsertAgrees(s: State, w: WorkerId, d: DocId, st: ProcessStatus) returns (n: nat, s': State)
    requires w in s.workers && s.workers[w] == Worker(Decide(d, st), None) && d in s.docs
    ensures Steps(s, w, n) == Some(s') && w in s'.workers && s'.workers[w] == Worker(Idle, None)
    ensures RowsOf(s') == (if st == PasswordProtected || st == ProcessingExcluded then Counted(RowsOf(s), s.Total()) else RowsOf(s))
                          .(docs := s.docs[d := st])
    ensures s'.log.metrics == if st in {Started, NotStarted, PendingUpload, PendingImageOptimization}
                              then s.log.metrics else s.log.metrics + multiset{d}
  {
    var s1 := DecideStep(s, w, d, st);
    var m;
    if CreditedEarly(st) {
      m, s' := CountThenStore(s1, w, d, st);
    } else {
      m, s' := StoreAlone(s1, w, d, st);
    }
    FirstThen(s, w, m, s');
    n := 1 + m;
  }

  lemma CountThenStore(s: State, w: WorkerId, d: DocId, st: ProcessStatus) returns (n: nat, s': State)
    requires w in s.workers && s.workers[w] == Worker(Increment(d), Some(Upsert(d, st))) && d in s.docs
    ensures Steps(s, w, n) == Some(s') && w in s'.workers && s'.workers[w] == Worker(Idle, None)
    ensures RowsOf(s') == Counted(RowsOf(s), s.Total()).(docs := s.docs[d := st])
    ensures s'.log.metrics == if NonTerminal(st) then s.log.metrics else s.log.metrics + multiset{d}
  {
    var k, s1 := IncrementAlone(s, w, d, Some(Upsert(d, st)));
    assert s1.docs == RowsOf(s1).docs;
    var m, s2 := StoreAlone(s1, w, d, st);
    StepsThen(s, w, k, s1, m, s2);
    n, s' := k + m, s2;
  }

  lemma DecideStep(s: State, w: WorkerId, d: DocId, st: ProcessStatus) returns (s': State)
    requires w in s.workers && s.workers[w] == Worker(Decide(d, st), None) && d in s.docs
    ensures Enabled(s, Run(w)) && s' == Next(s, Run(w)) && RowsOf(s') == RowsOf(s) && s'.Total() == s.Total()
    ensures s'.log.metrics == s.log.metrics && w in s'.workers
    ensures s'.workers[w] == Worker(if CreditedEarly(st) then Increment(d) else Idle, Some(Upsert(d, st)))
  {
    s' := Next(s, Run(w));
  }

  lemma FirstThen(s: State, w: WorkerId, n: nat, s': State)
    requires Enabled(s, Run(w)) && Steps(Next(s, Run(w)), w, n) == Some(s')
    ensures Steps(s, w, 1 + n) == Some(s')
  {
  }

  lemma {:induction false} StepsThen(s: State, w: WorkerId, k: nat, s1: State, m: nat, s2: State)
    requires Steps(s, w, k) == Some(s1) && Steps(s1, w, m) == Some(s2)
    ensures Steps(s, w, k + m) == Some(s2)
    decreases k
  {
    if k > 0 {
      StepsThen(Next(s, Run(w)), w, k - 1, s1, m, s2);
    }
  }

  lemma StoreAlone(s: State, w: WorkerId, d: DocId, st: ProcessStatus) returns (n: nat, s': State)
    requires w in s.workers && s.workers[w] == Worker(Idle, Some(Upsert(d, st))) && d in s.docs
    ensures Steps(s, w, n) == Some(s') && w in s'.workers && s'.workers[w] == Worker(Idle, None)
    ensures RowsOf(s') == RowsOf(s).(docs := s.docs[d := st])
    ensures s'.log.metrics == if NonTerminal(st) then s.log.metrics else s.log.metrics + multiset{d}
  {
    s' := Next(s, Run(w));
    n := 1;
    assert Steps(s', w, 0) == Some(s');
    if !NonTerminal(st) {
      assert s'.workers[w] == Worker(SendMetrics(d, false), None);
      var s2 := Next(s', Run(w));
      assert Steps(s2, w, 0) == Some(s2) && Steps(s', w, 1) == Some(s2);
      n, s' := 2, s2;
    }
  }

  /** A delete request in its two calls, the check and the unconditional write. */
  lemma AloneDeleteAgrees(s: State, w: WorkerId, d: DocId) returns (n: nat, s': State)
    requires w in s.workers && s.workers[w] == Worker(CheckDelete(d), None) && d in s.docs
    ensures Steps(s, w, n) == Some(s') && w in s'.workers && s'.workers[w] == Worker(Idle, None)
    ensures RowsOf(s') == RowsOf(s).(docs := Erased(s.docs, d))
    ensures s'.log == s.log
  {
    s' := Next(s, Run(w));
    n := 1;
    assert Steps(s', w, 0) == Some(s');
    if s'.workers[w].pc.MarkDeleted? {
      var s2 := Next(s', Run(w));
      assert Steps(s2, w, 0) == Some(s2) && Steps(s', w, 1) == Some(s2);
      n, s' := 2, s2;
    }
    assert Erased(s.docs, d) == s'.docs;
  }
}
