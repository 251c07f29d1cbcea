/** Runs showing that each clause of the hypothesis is needed, and that a batch
    can be left unfinished although every document is decided. */
module BatchCounterexamples {
  import opened Common
  import opened Processing
  import opened BatchProtocol
  import opened BatchSafety

  ghost predicate Reaches(files: set<DocId>, s: State) {
    exists states: seq<State>, labels: seq<Label> {:trigger IsRun(states, labels)} ::
      IsRun(states, labels) && states[0].files == files && states[|labels|] == s
  }

  predicate Untouched(s: State, d: DocId) {
    d in s.docs && s.docs[d] == NotStarted
  }

  lemma Start(files: set<DocId>)
    requires files != {}
    ensures Reaches(files, Initial(files))
  {
    assert IsRun([Initial(files)], []);
  }

  lemma Take(files: set<DocId>, s: State, l: Label) returns (s': State)
    requires Reaches(files, s) && Enabled(s, l)
    ensures s' == Next(s, l) && Reaches(files, s')
  {
    s' := Next(s, l);
    var states: seq<State>, labels: seq<Label> :| IsRun(states, labels) && states[0].files == files && states[|labels|] == s;
    var states', labels' := states + [s'], labels + [l];
    forall i {:trigger labels'[i]} | 0 <= i < |labels'|
      ensures Enabled(states'[i], labels'[i]) && states'[i + 1] == Next(states'[i], labels'[i])
    {
      if i < |labels| {
        assert labels'[i] == labels[i];
      }
    }
    assert IsRun(states', labels');
  }

  /** A batch of two with both rows inserted and uploads finished. */
  lemma OpenedPair() returns (s: State)
    ensures Reaches({"a", "b"}, s) && s.files == {"a", "b"} && |s.files| == 2
    ensures s.docs == map["a" := NotStarted, "b" := NotStarted]
    ensures s.batch == Processing && s.resolved == 0 && s.workers == map[] && s.log == Initial({}).log
  {
    var files := {"a", "b"};
    Start(files);
    s := Take(files, Initial(files), Insert("a", NotStarted));
    s := Take(files, s, Insert("b", NotStarted));
    s := Take(files, s, OpenBatch);
  }

  /** A new worker's guarded write of a terminal status to d lands. */
  lemma Written(w: WorkerId, d: DocId, st: ProcessStatus, s0: State) returns (s: State)
    requires Reaches({"a", "b"}, s0) && w !in s0.workers && d in s0.docs && NonTerminal(s0.docs[d])
    requires !NonTerminal(st) && st != Deleted
    ensures Reaches({"a", "b"}, s)
    ensures s == s0.(docs := s0.docs[d := st], log := Decided(s0.log, d, st, true),
                     workers := s0.workers[w := Worker(Increment(d), None)])
  {
    var files := {"a", "b"};
    s := Take(files, s0, Spawn(w, WriteTerminal(d, st, false)));
    assert s.workers[w] == Worker(WriteTerminal(d, st, false), None);
    s := Take(files, s, Run(w));
    assert s.workers == s0.workers[w := Worker(Increment(d), None)];
  }

  /** An increment lands short of the total. */
  lemma Bumped(w: WorkerId, d: DocId, s0: State) returns (s: State)
    requires Reaches({"a", "b"}, s0) && w in s0.workers && s0.workers[w].pc == Increment(d)
    requires s0.batch == Processing && s0.resolved + 1 < s0.Total()
    ensures Reaches({"a", "b"}, s)
    ensures s == s0.(resolved := s0.resolved + 1, log := s0.log.(bumped := s0.log.bumped + multiset{d}),
                     workers := s0.workers[w := s0.workers[w].(pc := Idle)])
  {
    s := Take({"a", "b"}, s0, Run(w));
  }

  /** A worker writes a terminal status to d and bumps the counter to one of two. */
  lemma ReapedOnce(d: DocId, s0: State) returns (s: State)
    requires Reaches({"a", "b"}, s0) && s0.files == {"a", "b"} && |s0.files| == 2
    requires d in s0.docs && s0.docs[d] == NotStarted && d !in s0.log.outcome
    requires s0.batch == Processing && s0.resolved == 0 && s0.workers == map[]
    ensures Reaches({"a", "b"}, s) && s.files == s0.files && s.docs == s0.docs[d := TimedOut]
    ensures s.batch == Processing && s.resolved == 1 && s.workers == map[0 := Worker(Idle, None)]
    ensures s.log.outcome == s0.log.outcome[d := TimedOut] && s.log.verdicts == s0.log.verdicts
  {
    s := Written(0, d, TimedOut, s0);
    s := Bumped(0, d, s);
  }

  /** With one of two counted, worker w's increment finalises the batch. */
  lemma FinalisedBy(w: WorkerId, d: DocId, s0: State) returns (s: State)
    requires Reaches({"a", "b"}, s0) && |s0.files| == 2 && s0.batch == Processing && s0.resolved == 1
    requires w in s0.workers && s0.workers[w].pc == Increment(d)
    ensures Reaches({"a", "b"}, s) && s.docs == s0.docs && s.files == s0.files && s.log.outcome == s0.log.outcome
    ensures s.resolved == 2 && s.log.verdicts == s0.log.verdicts + [Verdict(|FailedDocs(s0)|, 2)]
  {
    var files := {"a", "b"};
    s := Take(files, s0, Run(w));
    s := Take(files, s, Run(w));
    assert FailedDocs(s) == FailedDocs(s0);
    s := Take(files, s, Run(w));
  }

  /** Worker 1 has credited password-protected document a and not stored its status. */
  lemma CreditedNotStored() returns (s: State)
    ensures Reaches({"a", "b"}, s) && s.files == {"a", "b"} && |s.files| == 2
    ensures s.docs == map["a" := NotStarted, "b" := NotStarted] && s.batch == Processing && s.resolved == 0
    ensures s.workers == map[1 := Worker(Increment("a"), Some(Upsert("a", PasswordProtected)))]
    ensures s.log.outcome == map["a" := PasswordProtected] && s.log.verdicts == []
  {
    var files := {"a", "b"};
    s := OpenedPair();
    s := Take(files, s, Spawn(1, Decide("a", PasswordProtected)));
    s := Take(files, s, Run(1));
  }

  lemma CreditedTwice() returns (s: State)
    ensures Reaches({"a", "b"}, s) && s.files == {"a", "b"} && |s.files| == 2
    ensures s.docs == map["a" := TimedOut, "b" := NotStarted] && s.batch == Processing && s.resolved == 1
    ensures 2 in s.workers && s.workers[2].pc == Increment("a")
    ensures s.log.outcome == map["a" := PasswordProtected] && s.log.verdicts == []
  {
    s := CreditedNotStored();
    s := Written(2, "a", TimedOut, s);
    assert s.workers[1] == Worker(Increment("a"), Some(Upsert("a", PasswordProtected)));
    s := Bumped(1, "a", s);
  }

  /** The early increment of a password-protected document races with the reaper: one
      document is counted twice and a batch of two is finalised with the other untouched. */
  lemma EarlyCreditRace() returns (s: State)
    ensures Reaches({"a", "b"}, s)
    ensures s.resolved == 2 && s.log.outcome.Keys == {"a"} && s.log.verdicts != [] && Untouched(s, "b")
  {
    s := CreditedTwice();
    s := FinalisedBy(2, "a", s);
  }

  /** Document a was reaped and counted, then set to STARTED again. */
  lemma Reopened() returns (s: State)
    ensures Reaches({"a", "b"}, s) && s.files == {"a", "b"} && |s.files| == 2
    ensures s.docs == map["a" := Started, "b" := NotStarted] && s.batch == Processing && s.resolved == 1
    ensures 2 !in s.workers && s.log.outcome == map["a" := TimedOut] && s.log.verdicts == []
  {
    var files := {"a", "b"};
    s := OpenedPair();
    s := ReapedOnce("a", s);
    s := Take(files, s, Spawn(1, SetStarted("a")));
    s := Take(files, s, Run(1));
  }

  /** The STARTED write reopens a reaped document, whose real result is then counted again. */
  lemma StartedReopens() returns (s: State)
    ensures Reaches({"a", "b"}, s)
    ensures s.resolved == 2 && s.log.outcome.Keys == {"a"} && s.log.verdicts == [Completed] && Untouched(s, "b")
  {
    s := Reopened();
    s := Written(2, "a", Success, s);
    assert FailedDocs(s) == {};
    s := FinalisedBy(2, "a", s);
  }

  /** An initial upsert that starts on a reaped document counts it again. */
  lemma UpsertAfterTerminal() returns (s: State)
    ensures Reaches({"a", "b"}, s)
    ensures s.resolved == 2 && s.log.outcome.Keys == {"a"} && s.log.verdicts != [] && Untouched(s, "b")
  {
    var files := {"a", "b"};
    s := OpenedPair();
    s := ReapedOnce("a", s);
    s := Take(files, s, Spawn(1, Decide("a", ProcessingExcluded)));
    s := Take(files, s, Run(1));
    assert s.workers[1].pc == Increment("a");
    s := FinalisedBy(1, "a", s);
  }

  lemma DeclineWritten() returns (s: State)
    ensures Reaches({"a"}, s) && s.workers == map[0 := Worker(SendMetrics("a", true), None)]
    ensures s.files == {"a"} && s.docs == map["a" := AiConsentDeclined] && s.batch == Uploading && s.request == Uploads
    ensures s.resolved == 0 && s.log.outcome == map["a" := AiConsentDeclined]
  {
    var files := {"a"};
    Start(files);
    s := Take(files, Initial(files), Insert("a", NotStarted));
    s := Take(files, s, Spawn(0, WriteTerminal("a", AiConsentDeclined, true)));
    assert s.workers == map[0 := Worker(WriteTerminal("a", AiConsentDeclined, true), None)];
    s := Take(files, s, Run(0));
  }

  lemma DeclineDropped(s0: State) returns (s: State)
    requires Reaches({"a"}, s0) && s0.workers == map[0 := Worker(SendMetrics("a", true), None)]
    requires s0.batch == Uploading
    ensures Reaches({"a"}, s) && s.workers == map[0 := Worker(Idle, None)]
    ensures s.docs == s0.docs && s.files == s0.files && s.batch == Uploading && s.request == s0.request
    ensures s.resolved == s0.resolved && s.log.outcome == s0.log.outcome
  {
    var files := {"a"};
    s := Take(files, s0, Run(0));
    assert s.workers[0].pc == Increment("a");
    s := Take(files, s, Run(0));
  }

  /** A consent decline while the batch is still uploading: the document is decided, no
      worker has anything left to do, and the batch stays at PROCESSING with nothing counted. */
  lemma DeclinedWhileUploading() returns (s: State)
    ensures Reaches({"a"}, s)
    ensures s.log.outcome == map["a" := AiConsentDeclined] && s.docs == map["a" := AiConsentDeclined]
    ensures s.batch == Processing && s.resolved == 0 < s.Total()
    ensures forall w :: w in s.workers ==> s.workers[w] == Worker(Idle, None)
  {
    var files := {"a"};
    s := DeclineWritten();
    s := DeclineDropped(s);
    s := Take(files, s, OpenBatch);
  }
}
