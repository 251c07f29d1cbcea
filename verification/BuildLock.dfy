/** The submit lock over every interleaving: how many merged documents can reach S3, and
    who clears the lock. */
module BuildLock {
  import opened Common
  import opened BuildProtocol

  function Held(m: Metadata): nat { if Submitted(m) then 1 else 0 }

  ghost predicate Roles(requests: map<RequestId, Pc>, h: History) {
    && (forall id :: id in h.granted ==> id in requests)
    && (forall id :: id in requests && Holding(requests[id]) ==>
          id in h.granted && id !in h.released && id !in h.uploaded && id !in h.abandoned)
    && (forall id :: id in requests && !Holding(requests[id]) && requests[id] != Idle ==> id !in h.granted)
    && (forall id :: id in requests && requests[id].Authorize? ==> EntryPoint(requests[id]))
  }

  ghost predicate Ends(h: History) {
    && h.released <= h.granted && h.uploaded <= h.granted && h.abandoned <= h.granted
    && h.succeeded <= h.uploaded
    && h.released !! h.uploaded && h.released !! h.abandoned && h.succeeded !! h.abandoned
  }

  /** Every grant after the first was made possible by a rollback or by a delete. */
  ghost predicate Accounted(s: State) {
    |s.log.granted| <= Held(s.metadata) + s.log.lost + |s.log.released|
  }

  ghost predicate LockInv(s: State) {
    Roles(s.requests, s.log) && Ends(s.log) && Accounted(s)
  }

  /** The two states agree on everything the lock is about, except where request id is. */
  ghost predicate SameLock(s: State, s': State, id: RequestId) {
    && s'.requests.Keys == s.requests.Keys + {id}
    && (forall x :: x in s.requests && x != id ==> s'.requests[x] == s.requests[x])
    && s'.log.granted == s.log.granted && s'.log.released == s.log.released
    && s'.log.uploaded == s.log.uploaded && s'.log.succeeded == s.log.succeeded
    && s'.log.abandoned == s.log.abandoned
    && Held(s'.metadata) + s'.log.lost == Held(s.metadata) + s.log.lost
  }

  predicate Moves(from: Pc, to: Pc) {
    from != Idle && !to.Authorize? && (to == Idle || Holding(from) == Holding(to))
  }

  lemma SameLockKeeps(s: State, s': State, id: RequestId)
    requires LockInv(s) && id in s.requests && SameLock(s, s', id) && Moves(s.requests[id], s'.requests[id])
    ensures LockInv(s')
  {
  }

  lemma GotoKeeps(s: State, id: RequestId, pc: Pc)
    requires LockInv(s) && id in s.requests && Moves(s.requests[id], pc)
    ensures LockInv(Goto(s, id, pc))
  {
    SameLockKeeps(s, Goto(s, id, pc), id);
  }

  lemma ArriveKeeps(s: State, id: RequestId, pc: Pc)
    requires LockInv(s) && Enabled(s, Arrive(id, pc))
    ensures LockInv(Next(s, Arrive(id, pc)))
  {
    assert id !in s.log.granted;
  }

  lemma LockKeeps(s: State, id: RequestId)
    requires LockInv(s) && id in s.requests && s.requests[id].Lock?
    ensures LockInv(RunLock(s, id))
  {
    var s' := RunLock(s, id);
    if Submitted(s.metadata) {
      SameLockKeeps(s, s', id);
    } else {
      assert id !in s.log.granted;
      assert Accounted(s');
    }
  }

  lemma RollbackKeeps(s: State, id: RequestId)
    requires LockInv(s) && id in s.requests && s.requests[id].Rollback?
    ensures LockInv(RunRollback(s, id))
  {
    assert id !in s.log.released;
  }

  lemma UploadKeeps(s: State, id: RequestId)
    requires LockInv(s) && id in s.requests && s.requests[id].UploadMerged?
    ensures LockInv(RunUploadMerged(s, id))
  {
  }

  predicate GrantStep(pc: Pc) { pc.Lock? || pc.Rollback? || pc.UploadMerged? }

  lemma ReadsOnlyMove(s: State, pc: Pc, pick: PageNumber)
    requires pc != Idle && !Writes(pc) && (pc.Authorize? ==> EntryPoint(pc))
    ensures Moves(pc, AfterReading(s, pc, pick))
  {
  }

  lemma MetadataGoneSame(s: State, id: RequestId, pc: Pc)
    requires id in s.requests
    ensures SameLock(s, Goto(WithoutMetadata(s), id, pc), id)
  {
  }

  lemma RemoveRowSame(s: State, id: RequestId, n: PageNumber, todo: set<PageNumber>, whole: bool)
    requires id in s.requests
    ensures SameLock(s, RunRemoveRow(s, id, n, todo, whole), id)
  {
    if n == 0 {
      MetadataGoneSame(s, id, CheckPages(todo, whole));
    }
  }

  lemma WriteSame(s: State, id: RequestId, pc: Pc, pick: PageNumber)
    requires id in s.requests && Writes(pc) && !GrantStep(pc)
    ensures SameLock(s, RunWrite(s, id, pc, pick), id)
  {
    if pc.RemoveMetadata? {
      MetadataGoneSame(s, id, Idle);
    } else if pc.RemoveRow? {
      RemoveRowSame(s, id, pc.page, pc.todo, pc.whole);
    }
  }

  lemma WriteMoves(s: State, id: RequestId, pc: Pc, pick: PageNumber)
    requires Writes(pc) && !GrantStep(pc)
    ensures Moves(pc, RunWrite(s, id, pc, pick).requests[id])
  {
  }

  lemma RunKeeps(s: State, id: RequestId, pick: PageNumber)
    requires LockInv(s) && Enabled(s, Run(id, pick))
    ensures LockInv(Next(s, Run(id, pick)))
  {
    var pc := s.requests[id];
    if pc.Lock? {
      LockKeeps(s, id);
    } else if pc.Rollback? {
      RollbackKeeps(s, id);
    } else if pc.UploadMerged? {
      UploadKeeps(s, id);
    } else if Writes(pc) {
      WriteSame(s, id, pc, pick);
      WriteMoves(s, id, pc, pick);
      SameLockKeeps(s, RunWrite(s, id, pc, pick), id);
    } else {
      ReadsOnlyMove(s, pc, pick);
      GotoKeeps(s, id, AfterReading(s, pc, pick));
    }
  }

  /** Ending with an error after a call, or instead of it, keeps the account. */
  lemma AbortKeeps(s: State, before: State, id: RequestId)
    requires LockInv(s) && LockInv(before) && id in s.requests && id in before.requests && before.requests[id] != Idle
    requires before.log.succeeded <= s.log.succeeded
    ensures LockInv(Aborted(s, before, id))
  {
    assert id !in before.log.succeeded;
  }

  lemma WriteReports(s: State, id: RequestId, pc: Pc, pick: PageNumber)
    requires Writes(pc)
    ensures var s' := RunWrite(s, id, pc, pick); id in s'.requests && s.log.succeeded <= s'.log.succeeded
  {
  }

  lemma FailKeeps(s: State, id: RequestId, pick: PageNumber, landed: bool)
    requires LockInv(s) && Enabled(s, Fail(id, pick, landed))
    ensures LockInv(Next(s, Fail(id, pick, landed)))
  {
    var pc := s.requests[id];
    if pc.Prepare? {
      GotoKeeps(s, id, Rollback);
    } else if landed && Writes(pc) {
      RunKeeps(s, id, pick);
      WriteReports(s, id, pc, pick);
      AbortKeeps(RunWrite(s, id, pc, pick), s, id);
    } else {
      AbortKeeps(s, s, id);
    }
  }

  // ---- Every run ----

  lemma StepKeeps(s: State, l: Label)
    requires LockInv(s) && Enabled(s, l)
    ensures LockInv(Next(s, l))
  {
    match l
    case Arrive(id, pc) => ArriveKeeps(s, id, pc);
    case Run(id, pick) => RunKeeps(s, id, pick);
    case Fail(id, pick, landed) => FailKeeps(s, id, pick, landed);
  }

  lemma {:induction false} LockIsAccounted(declined: bool, labels: seq<Label>, s: State)
    requires Play(Created(declined), labels) == Some(s)
    ensures LockInv(s)
  {
    if labels != [] {
      var before := Play(Created(declined), labels[..|labels| - 1]).value;
      LockIsAccounted(declined, labels[..|labels| - 1], before);
      StepKeeps(before, labels[|labels| - 1]);
    }
  }

  /** The submits that took the lock and did not give it back are at most one more than the
      deletes that removed a row carrying it. */
  lemma KeptAtMost(s: State)
    requires LockInv(s)
    ensures |s.log.granted - s.log.released| <= Held(s.metadata) + s.log.lost
  {
    assert s.log.granted == s.log.released + (s.log.granted - s.log.released);
  }

  /** However submits, retries, failures and deletes interleave, the merged documents that
      reach S3 are at most one more than the deletes that removed a locked row. */
  lemma UploadsAtMost(declined: bool, labels: seq<Label>, s: State)
    requires Play(Created(declined), labels) == Some(s)
    ensures s.log.succeeded <= s.log.uploaded
    ensures |s.log.uploaded| <= 1 + s.log.lost
  {
    LockIsAccounted(declined, labels, s);
    KeptAtMost(s);
    SubsetSize(s.log.uploaded, s.log.granted - s.log.released);
  }

  lemma OnlyOne<T>(kept: set<T>, a: T, b: T)
    requires |kept| <= 1 && a in kept && b in kept
    ensures a == b
  {
    if a != b {
      SubsetSize({a, b}, kept);
    }
  }

  /** While no delete has removed a locked row, a request about to clear the lock is its one
      holder, and no document has been uploaded. */
  lemma OnlyTheHolderClears(declined: bool, labels: seq<Label>, s: State, id: RequestId)
    requires Play(Created(declined), labels) == Some(s) && s.log.lost == 0
    requires id in s.requests && s.requests[id] == Rollback
    ensures Submitted(s.metadata) && s.log.granted - s.log.released == {id}
    ensures s.log.uploaded == {} && forall x :: x in s.requests && Holding(s.requests[x]) ==> x == id
  {
    LockIsAccounted(declined, labels, s);
    KeptAtMost(s);
    var kept := s.log.granted - s.log.released;
    assert id in kept;
    SubsetSize({id}, kept);
    forall x | x in kept ensures x == id {
      OnlyOne(kept, x, id);
    }
    assert forall x :: x in s.log.uploaded ==> x in kept;
    assert forall x :: x in s.requests && Holding(s.requests[x]) ==> x in kept;
  }

  /** A failed stamp, a failed upload or a failed rollback keeps the lock for good: while no
      delete has removed a locked row, no submit has succeeded and none is under way. */
  lemma AbandonedLockBlocks(declined: bool, labels: seq<Label>, s: State, id: RequestId)
    requires Play(Created(declined), labels) == Some(s) && s.log.lost == 0 && id in s.log.abandoned
    ensures Submitted(s.metadata) && s.log.succeeded == {} && s.log.uploaded <= {id}
    ensures forall x :: x in s.requests ==> !Holding(s.requests[x])
  {
    LockIsAccounted(declined, labels, s);
    KeptAtMost(s);
    var kept := s.log.granted - s.log.released;
    assert id in kept;
    SubsetSize({id}, kept);
    forall x | x in kept ensures x == id {
      OnlyOne(kept, x, id);
    }
    assert forall x :: x in s.log.uploaded ==> x in kept;
    assert forall x :: x in s.requests && Holding(s.requests[x]) ==> x in kept;
    assert forall x :: x in s.log.succeeded ==> x in kept;
  }

  // ---- When the lock is free ----

  /** While no locked row was deleted, the lock is held for exactly one submit or free. */
  ghost predicate Exact(s: State) {
    s.log.lost == 0 ==> |s.log.granted - s.log.released| == Held(s.metadata)
  }

  /** A submit that took the lock is under way or has come to one of its three ends. */
  ghost predicate Ended(s: State) {
    forall x :: x in s.log.granted ==>
      || (x in s.requests && Holding(s.requests[x]))
      || x in s.log.released || x in s.log.abandoned || x in s.log.succeeded
  }

  lemma LockExact(s: State, id: RequestId)
    requires LockInv(s) && Exact(s) && id in s.requests && s.requests[id].Lock?
    ensures Exact(RunLock(s, id))
  {
    if !Submitted(s.metadata) && s.log.lost == 0 {
      assert s.log.granted - s.log.released == {};
      assert s.log.granted + {id} - s.log.released == {id};
    }
  }

  lemma RollbackExact(s: State, id: RequestId)
    requires LockInv(s) && Exact(s) && id in s.requests && s.requests[id].Rollback?
    ensures Exact(RunRollback(s, id))
  {
    if s.log.lost == 0 {
      var kept := s.log.granted - s.log.released;
      assert id in kept;
      SubsetSize({id}, kept);
      assert s.log.granted - (s.log.released + {id}) == kept - {id};
    }
  }

  /** The steps that neither take the lock nor clear it. */
  lemma WriteExact(s: State, id: RequestId, pc: Pc, pick: PageNumber)
    requires Exact(s) && id in s.requests && Writes(pc) && !pc.Lock? && !pc.Rollback?
    ensures Exact(RunWrite(s, id, pc, pick))
  {
    if !pc.UploadMerged? {
      WriteSame(s, id, pc, pick);
    }
  }

  lemma AnyWriteExact(s: State, id: RequestId, pc: Pc, pick: PageNumber)
    requires LockInv(s) && Exact(s) && id in s.requests && s.requests[id] == pc && Writes(pc)
    ensures Exact(RunWrite(s, id, pc, pick))
  {
    if pc.Lock? {
      LockExact(s, id);
    } else if pc.Rollback? {
      RollbackExact(s, id);
    } else {
      WriteExact(s, id, pc, pick);
    }
  }

  lemma StepExact(s: State, l: Label)
    requires LockInv(s) && Exact(s) && Enabled(s, l)
    ensures Exact(Next(s, l))
  {
    if !l.Arrive? && Writes(s.requests[l.id]) {
      AnyWriteExact(s, l.id, s.requests[l.id], l.pick);
    }
  }

  lemma GrantEnded(s: State, id: RequestId, pc: Pc, pick: PageNumber)
    requires Ended(s) && id in s.requests && s.requests[id] == pc && GrantStep(pc)
    ensures Ended(RunWrite(s, id, pc, pick))
  {
  }

  lemma SameLockEnded(s: State, s': State, id: RequestId)
    requires LockInv(s) && Ended(s) && id in s.requests && s.requests[id] != Idle && SameLock(s, s', id)
    requires Holding(s.requests[id]) ==> Holding(s'.requests[id])
    ensures Ended(s')
  {
  }

  lemma StampGoesOn(s: State, id: RequestId, pc: Pc, pick: PageNumber)
    requires Writes(pc) && !GrantStep(pc) && Holding(pc)
    ensures Holding(RunWrite(s, id, pc, pick).requests[id])
  {
  }

  lemma WriteEnded(s: State, id: RequestId, pc: Pc, pick: PageNumber)
    requires LockInv(s) && Ended(s) && id in s.requests && s.requests[id] == pc && Writes(pc)
    ensures Ended(RunWrite(s, id, pc, pick))
  {
    if GrantStep(pc) {
      GrantEnded(s, id, pc, pick);
    } else {
      WriteSame(s, id, pc, pick);
      if Holding(pc) {
        StampGoesOn(s, id, pc, pick);
      }
      SameLockEnded(s, RunWrite(s, id, pc, pick), id);
    }
  }

  lemma ReadEnded(s: State, id: RequestId, pc: Pc)
    requires LockInv(s) && Ended(s)
    requires id in s.requests ==> s.requests[id] != Idle && (Holding(s.requests[id]) ==> Holding(pc))
    ensures Ended(Goto(s, id, pc))
  {
  }

  lemma AbortEnded(s: State, before: State, id: RequestId)
    requires LockInv(s) && Ended(s) && LockInv(before)
    requires id in before.requests && before.requests[id] != Idle
    requires before.log.succeeded <= s.log.succeeded <= before.log.succeeded + {id}
    ensures Ended(Aborted(s, before, id))
  {
    assert id in s.log.released ==> id !in s.log.abandoned;
  }

  lemma WriteSucceeds(s: State, id: RequestId, pc: Pc, pick: PageNumber)
    requires Writes(pc)
    ensures s.log.succeeded <= RunWrite(s, id, pc, pick).log.succeeded <= s.log.succeeded + {id}
  {
  }

  lemma FailEnded(s: State, id: RequestId, pick: PageNumber, landed: bool)
    requires LockInv(s) && Ended(s) && Enabled(s, Fail(id, pick, landed))
    ensures Ended(Next(s, Fail(id, pick, landed)))
  {
    var pc := s.requests[id];
    if pc.Prepare? {
      ReadEnded(s, id, Rollback);
    } else if landed && Writes(pc) {
      WriteEnded(s, id, pc, pick);
      WriteSucceeds(s, id, pc, pick);
      RunKeeps(s, id, pick);
      AbortEnded(RunWrite(s, id, pc, pick), s, id);
    } else {
      AbortEnded(s, s, id);
    }
  }

  lemma HoldersMoveOn(s: State, pc: Pc, pick: PageNumber)
    requires Holding(pc) && !Writes(pc)
    ensures Holding(AfterReading(s, pc, pick))
  {
  }

  lemma StepEnded(s: State, l: Label)
    requires LockInv(s) && Ended(s) && Enabled(s, l)
    ensures Ended(Next(s, l))
  {
    match l
    case Arrive(id, pc) => ReadEnded(s, id, pc);
    case Fail(id, pick, landed) => FailEnded(s, id, pick, landed);
    case Run(id, pick) =>
      var pc := s.requests[id];
      if Writes(pc) {
        WriteEnded(s, id, pc, pick);
      } else {
        if Holding(pc) {
          HoldersMoveOn(s, pc, pick);
        }
        ReadEnded(s, id, AfterReading(s, pc, pick));
      }
  }

  lemma {:induction false} ExactInEveryRun(declined: bool, labels: seq<Label>, s: State)
    requires Play(Created(declined), labels) == Some(s)
    ensures LockInv(s) && Exact(s) && Ended(s)
  {
    if labels == [] {
      assert s.log.granted - s.log.released == {};
    } else {
      var before := Play(Created(declined), labels[..|labels| - 1]).value;
      ExactInEveryRun(declined, labels[..|labels| - 1], before);
      StepKeeps(before, labels[|labels| - 1]);
      StepExact(before, labels[|labels| - 1]);
      StepEnded(before, labels[|labels| - 1]);
    }
  }

  /** While no delete has removed a locked row, the lock is free exactly when every submit that
      took it has rolled back: none succeeded, none was abandoned, none is under way. */
  lemma LockIsFreeIff(declined: bool, labels: seq<Label>, s: State)
    requires Play(Created(declined), labels) == Some(s) && s.log.lost == 0
    ensures !Submitted(s.metadata) <==> s.log.granted == s.log.released
    ensures !Submitted(s.metadata) <==>
      s.log.succeeded == {} && s.log.abandoned == {} && forall id :: id in s.requests ==> !Holding(s.requests[id])
  {
    ExactInEveryRun(declined, labels, s);
    KeptIsEmptyIff(s);
  }

  lemma KeptIsEmptyIff(s: State)
    requires LockInv(s) && Ended(s)
    ensures |s.log.granted - s.log.released| == 0 <==> s.log.granted == s.log.released
    ensures s.log.granted == s.log.released <==>
      s.log.succeeded == {} && s.log.abandoned == {} && forall id :: id in s.requests ==> !Holding(s.requests[id])
  {
    var kept := s.log.granted - s.log.released;
    assert |kept| == 0 <==> kept == {};
    assert kept == {} <==> s.log.granted == s.log.released;
    if kept == {} {
      assert forall id :: id in s.log.succeeded || id in s.log.abandoned ==> id in kept;
      assert forall id :: id in s.requests && Holding(s.requests[id]) ==> id in kept;
    }
    if s.log.succeeded == {} && s.log.abandoned == {} && forall id :: id in s.requests ==> !Holding(s.requests[id]) {
      assert forall id :: id in s.log.granted ==> id in s.log.released;
    }
  }

  /** Which failures give the lock back: only one while preparing the document leads to the
      rollback. Any other failure of a submit that holds the lock, or takes it, keeps it,
      except for a rollback that had already cleared it when it raised. */
  lemma FailureRollsBackIff(s: State, id: RequestId, pick: PageNumber, landed: bool)
    requires LockInv(s) && Enabled(s, Fail(id, pick, landed))
    ensures var s', pc := Next(s, Fail(id, pick, landed)), s.requests[id];
      && (s'.requests[id] == Rollback <==> pc.Prepare?)
      && (id in s'.log.abandoned <==>
            || (Holding(pc) && !pc.Prepare? && !(pc.Rollback? && landed))
            || (pc.Lock? && landed && !Submitted(s.metadata)))
      && (id in s'.log.released <==> pc.Rollback? && landed)
  {
    var pc := s.requests[id];
    if landed && GrantStep(pc) {
    } else if landed && Writes(pc) {
      WriteSame(s, id, pc, pick);
    }
  }

  // ---- Consent ----

  predicate BeforeTheLock(pc: Pc) { pc.ReadPages? || pc.Lock? }

  ghost predicate ConsentGiven(s: State) {
    && (s.metadata.Row? ==> !s.metadata.declined)
    && (forall id :: id in s.requests ==> !s.requests[id].RecordDeclined?)
    && s.log.declined == {}
  }

  ghost predicate ConsentRefused(s: State) {
    s.log.metadataRemoved == 0 ==>
      && s.metadata == Row(true, true, false)
      && s.log.granted == {}
      && forall id :: id in s.requests ==> !BeforeTheLock(s.requests[id]) && !Holding(s.requests[id])
  }

  lemma ReadKeepsConsent(s: State, pc: Pc, pick: PageNumber)
    requires !Writes(pc) && pc != Idle && !BeforeTheLock(pc) && !Holding(pc)
    requires pc.Authorize? ==> EntryPoint(pc)
    ensures var to := AfterReading(s, pc, pick);
      !Holding(to) && !to.Lock? && (to.ReadPages? ==> s.metadata.Row? ==> !s.metadata.declined)
  {
  }

  lemma ReadKeepsGiven(s: State, pc: Pc, pick: PageNumber)
    requires !Writes(pc) && (pc.Authorize? ==> EntryPoint(pc)) && (s.metadata.Row? ==> !s.metadata.declined)
    ensures !AfterReading(s, pc, pick).RecordDeclined?
  {
  }

  lemma WriteKeepsGiven(s: State, id: RequestId, pc: Pc, pick: PageNumber)
    requires ConsentGiven(s) && id in s.requests && s.requests[id] == pc && Writes(pc)
    ensures ConsentGiven(RunWrite(s, id, pc, pick))
  {
  }

  lemma AbortKeepsGiven(s: State, before: State, id: RequestId)
    requires ConsentGiven(s)
    ensures ConsentGiven(Aborted(s, before, id))
  {
  }

  lemma FailKeepsGiven(s: State, id: RequestId, pick: PageNumber, landed: bool)
    requires ConsentGiven(s) && Enabled(s, Fail(id, pick, landed))
    ensures ConsentGiven(Next(s, Fail(id, pick, landed)))
  {
    var pc := s.requests[id];
    if landed && Writes(pc) {
      WriteKeepsGiven(s, id, pc, pick);
      AbortKeepsGiven(RunWrite(s, id, pc, pick), s, id);
    } else {
      AbortKeepsGiven(s, s, id);
    }
  }

  lemma StepKeepsGiven(s: State, l: Label)
    requires LockInv(s) && ConsentGiven(s) && Enabled(s, l)
    ensures ConsentGiven(Next(s, l))
  {
    match l
    case Arrive(id, pc) =>
    case Fail(id, pick, landed) => FailKeepsGiven(s, id, pick, landed);
    case Run(id, pick) =>
      if Writes(s.requests[id]) {
        WriteKeepsGiven(s, id, s.requests[id], pick);
      } else {
        ReadKeepsGiven(s, s.requests[id], pick);
      }
  }

  lemma WriteKeepsRefused(s: State, id: RequestId, pc: Pc, pick: PageNumber)
    requires ConsentRefused(s) && id in s.requests && s.requests[id] == pc && Writes(pc)
    ensures ConsentRefused(RunWrite(s, id, pc, pick))
  {
  }

  lemma AbortKeepsRefused(s: State, before: State, id: RequestId)
    requires ConsentRefused(s)
    ensures ConsentRefused(Aborted(s, before, id))
  {
  }

  lemma FailKeepsRefused(s: State, id: RequestId, pick: PageNumber, landed: bool)
    requires ConsentRefused(s) && Enabled(s, Fail(id, pick, landed))
    ensures ConsentRefused(Next(s, Fail(id, pick, landed)))
  {
    var pc := s.requests[id];
    if landed && Writes(pc) {
      WriteKeepsRefused(s, id, pc, pick);
      AbortKeepsRefused(RunWrite(s, id, pc, pick), s, id);
    } else {
      AbortKeepsRefused(s, s, id);
    }
  }

  lemma StepKeepsRefused(s: State, l: Label)
    requires LockInv(s) && ConsentRefused(s) && Enabled(s, l)
    ensures ConsentRefused(Next(s, l))
  {
    match l
    case Arrive(id, pc) =>
    case Fail(id, pick, landed) => FailKeepsRefused(s, id, pick, landed);
    case Run(id, pick) =>
      if Writes(s.requests[id]) {
        WriteKeepsRefused(s, id, s.requests[id], pick);
      } else if s.log.metadataRemoved == 0 {
        ReadKeepsConsent(s, s.requests[id], pick);
      }
  }

  /** A build whose creator gave consent, or said nothing, is never reported as declined; one
      whose creator refused is never locked, stamped or uploaded while its row exists. */
  lemma {:induction false} ConsentDecides(declined: bool, labels: seq<Label>, s: State)
    requires Play(Created(declined), labels) == Some(s)
    ensures LockInv(s)
    ensures if declined then ConsentRefused(s) else ConsentGiven(s)
  {
    if labels != [] {
      var before := Play(Created(declined), labels[..|labels| - 1]).value;
      ConsentDecides(declined, labels[..|labels| - 1], before);
      StepKeeps(before, labels[|labels| - 1]);
      if declined {
        StepKeepsRefused(before, labels[|labels| - 1]);
      } else {
        StepKeepsGiven(before, labels[|labels| - 1]);
      }
    }
  }
}
