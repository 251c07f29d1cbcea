/** Runs showing what the build protocol does not promise. */
module BuildCounterexamples {
  import opened Common
  import opened BuildLock
  import opened BuildPages
  import opened BuildProtocol

  /** A state some run of a build with consent leads to. */
  ghost predicate Reaches(s: State) {
    exists labels :: Play(Created(false), labels) == Some(s)
  }

  lemma Take(s: State, l: Label) returns (s': State)
    requires Reaches(s) && Enabled(s, l)
    ensures s' == Next(s, l) && Reaches(s')
  {
    var labels :| Play(Created(false), labels) == Some(s);
    s' := Next(s, l);
    assert (labels + [l])[..|labels|] == labels;
    assert Play(Created(false), labels + [l]) == Some(s');
  }

  const PDF := Upload("pdf", None, false)
  const FIRST := ObjectKey(1, "pdf")

  /** After one upload of page 1 by request 0. */
  const ONE_CREATED := Created(false).log.(created := map[0 := 1], fileEvents := [Stored(FIRST, 0)])

  predicate OnePage(s: State) {
    s.pages.Keys == {1} && s.pages[1].file == Some(FIRST) && s.pages[1].category == None
  }

  /** An upload that has been given page 1 of an empty build. */
  lemma Allocated(s0: State, id: RequestId) returns (s: State)
    requires Reaches(s0) && id !in s0.requests && s0.pages == map[] && s0.metadata == Row(true, false, false)
    ensures Reaches(s) && s == Goto(s0, id, PutFile(1, PDF))
  {
    s := Authorized(s0, id, Allocate(None, PDF));
    assert ListedPages(s) == {};
    s := Take(s, Run(id, 0));
  }

  lemma Uploaded(s0: State, id: RequestId) returns (s: State)
    requires Reaches(s0) && id in s0.requests && s0.requests[id] == PutFile(1, PDF)
    ensures Reaches(s) && s == RunPutRow(RunPutFile(s0, id, 1, PDF), id, 1, PDF)
  {
    PutFileStep(s0, id, 1, PDF);
    s := Take(s0, Run(id, 0));
    PutRowStep(s, id, 1, PDF);
    s := Take(s, Run(id, 0));
  }

  /** The upload that loses the race for a page number is refused, but its bytes have
      already replaced those of the page that won it. */
  lemma LoserReplacesTheBytes() returns (s: State)
    ensures Reaches(s) && s.log.created == map[0 := 1]
    ensures s.pages.Keys == {1} && s.pages[1].owner == Some(0) && s.pages[1].file == Some(FIRST)
    ensures FIRST in s.files && s.files[FIRST] == 1
  {
    assert Play(Created(false), []) == Some(Created(false));
    s := Allocated(Created(false), 0);
    s := Allocated(s, 1);
    s := Uploaded(s, 0);
    s := Uploaded(s, 1);
  }

  lemma BuildWithOnePage() returns (s: State)
    ensures Reaches(s) && OnePage(s) && s.requests == map[0 := Idle] && s.metadata == Row(true, false, false)
    ensures s.log == ONE_CREATED && !s.pages[1].stamped
  {
    assert Play(Created(false), []) == Some(Created(false));
    s := Allocated(Created(false), 0);
    s := Uploaded(s, 0);
  }

  lemma Authorized(s0: State, id: RequestId, start: Pc) returns (s: State)
    requires Reaches(s0) && id !in s0.requests && EntryPoint(Authorize(start))
    requires s0.metadata.Row? && s0.metadata.whole
    ensures Reaches(s) && s == Goto(s0, id, start)
  {
    s := Take(s0, Arrive(id, Authorize(start)));
    s := Take(s, Run(id, 0));
    assert s == Goto(s0, id, start);
  }

  lemma AtTheLock(s0: State, id: RequestId) returns (s: State)
    requires Reaches(s0) && id !in s0.requests && OnePage(s0)
    requires s0.metadata.Row? && s0.metadata.whole && !s0.metadata.declined
    ensures Reaches(s) && s == Goto(s0, id, Lock)
  {
    s := Authorized(s0, id, ReadConsent);
    s := Take(s, Run(id, 0));
    assert 1 in ListedPages(s) && !MixedCategories(s);
    s := Take(s, Run(id, 0));
  }

  lemma Locked(s0: State, id: RequestId) returns (s: State)
    requires Reaches(s0) && OnePage(s0) && id in s0.requests && s0.requests[id] == Lock && !Submitted(s0.metadata)
    ensures Reaches(s) && OnePage(s) && s.pages[1].stamped
    ensures s.metadata == if s0.metadata.Row? then s0.metadata.(submitted := true) else Row(false, false, true)
    ensures s.requests == s0.requests[id := Prepare] && s.log == s0.log.(granted := s0.log.granted + {id}, stampedPages := s0.log.stampedPages + {1})
  {
    s := Take(s0, Run(id, 0));
    assert s.requests == s0.requests[id := QueryStamps];
    s := Take(s, Run(id, 0));
    assert s.requests == s0.requests[id := Stamp({1})];
    s := StampedOnce(s, id);
  }

  lemma StampedOnce(s0: State, id: RequestId) returns (s: State)
    requires Reaches(s0) && OnePage(s0) && id in s0.requests && s0.requests[id] == Stamp({1})
    ensures Reaches(s) && OnePage(s) && s.pages[1].stamped && s.metadata == s0.metadata
    ensures s.log == s0.log.(stampedPages := s0.log.stampedPages + {1})
    ensures s.requests == s0.requests[id := Prepare]
  {
    s := Take(s0, Run(id, 1));
    assert {1} - {1} == {};
    assert s.requests == s0.requests[id := Stamp({})];
    s := Take(s, Run(id, 0));
  }

  lemma SubmitHasLocked() returns (s: State)
    ensures Reaches(s) && 1 in s.requests && s.requests[1] == Prepare && OnePage(s) && s.pages[1].stamped
    ensures s.metadata == Row(true, false, true)
    ensures s.log == ONE_CREATED.(granted := {1}, stampedPages := {1})
  {
    s := BuildWithOnePage();
    s := AtTheLock(s, 1);
    s := Locked(s, 1);
  }

  /** The only upload that was ever tried failed, and the build stays locked: retrying is
      refused for good, although the comment beside the rollback promises a retry. */
  lemma FailedUploadKeepsTheLock() returns (s: State)
    ensures Reaches(s) && s.log.abandoned == {1} && s.log.uploaded == {} && s.log.lost == 0
    ensures Submitted(s.metadata)
  {
    s := SubmitHasLocked();
    s := Take(s, Run(1, 0));
    assert s.requests[1] == UploadMerged;
    s := Take(s, Fail(1, 0, false));
  }

  /** After a rollback the build can be submitted again, but its stamped pages still make it
      read as submitted, so it cannot be deleted. */
  lemma RolledBackReadsSubmitted() returns (s: State)
    ensures Reaches(s) && !Submitted(s.metadata) && s.metadata.Row? && AnySubmitted(s)
    ensures s.log.released == {1} && s.log.uploaded == {}
  {
    s := SubmitHasLocked();
    s := Take(s, Fail(1, 0, false));
    s := Take(s, Run(1, 0));
    assert 1 in s.pages && s.pages[1].stamped;
  }

  lemma FoundMetadata(s0: State, id: RequestId) returns (s: State)
    requires Reaches(s0) && id in s0.requests && s0.requests[id] == FindPage(0, {}, false) && s0.metadata.Row?
    ensures Reaches(s) && s == Goto(s0, id, RemoveRow(0, {}, false))
  {
    s := Take(s0, Run(id, 0));
    s := Take(s, Run(id, 0));
  }

  /** A delete of row 0 that has passed its check. */
  lemma AboutToRemoveMetadata(s0: State, id: RequestId) returns (s: State)
    requires Reaches(s0) && id !in s0.requests && !AnySubmitted(s0) && s0.metadata.Row? && s0.metadata.whole
    ensures Reaches(s) && s == Goto(s0, id, RemoveRow(0, {}, false))
  {
    assert |{0}| == 1;
    s := Authorized(s0, id, CheckPages({0}, false));
    assert {0} - {0} == {};
    s := Take(s, Run(id, 0));
    assert s == Goto(s0, id, FindPage(0, {}, false));
    s := FoundMetadata(s, id);
  }

  lemma ThreeAtWork() returns (s: State)
    ensures Reaches(s) && OnePage(s) && s.metadata == Row(true, false, false)
    ensures s.requests == map[0 := Idle, 1 := Lock, 2 := Lock, 3 := RemoveRow(0, {}, false)]
    ensures s.log == ONE_CREATED
  {
    s := BuildWithOnePage();
    s := AtTheLock(s, 1);
    s := AtTheLock(s, 2);
    s := AboutToRemoveMetadata(s, 3);
  }

  lemma UploadedMerged(s0: State, id: RequestId) returns (s: State)
    requires Reaches(s0) && id in s0.requests && s0.requests[id] == Prepare
    ensures Reaches(s) && s.pages == s0.pages && s.metadata == s0.metadata
    ensures s.requests == s0.requests[id := Idle]
    ensures s.log == s0.log.(uploaded := s0.log.uploaded + {id}, succeeded := s0.log.succeeded + {id})
  {
    s := Take(s0, Run(id, 0));
    s := Take(s, Run(id, 0));
  }

  /** A delete that checked before the submit locked removes the lock with the row, and a
      second submit uploads the build again: the bound of one plus the lost locks is met. */
  lemma TwoUploadsAfterADelete() returns (s: State)
    ensures Reaches(s) && s.log.succeeded == {1, 2} && s.log.lost == 1
  {
    s := ThreeAtWork();
    s := Locked(s, 1);
    s := Take(s, Run(3, 0));
    s := Locked(s, 2);
    s := UploadedMerged(s, 1);
    s := UploadedMerged(s, 2);
  }
}
