/** Claims: of the concurrent claims of a document from one status at most one wins,
    until an initial upsert stores that status again. No hypothesis on the run. */
module BatchClaims {
  import opened Common
  import opened Processing
  import opened BatchProtocol

  predicate WinsClaim(s: State, l: Label, d: DocId, expected: ProcessStatus) {
    && l.Run? && l.worker in s.workers
    && s.workers[l.worker].pc == Claim(d, expected)
    && d in s.docs && s.docs[d] == expected
  }

  predicate StoresInitial(s: State, l: Label, d: DocId, st: ProcessStatus) {
    && l.Run? && l.worker in s.workers
    && s.workers[l.worker] == Worker(Idle, Some(Upsert(d, st)))
  }

  predicate Shaped(worker: Worker) {
    && (worker.pc.WriteTerminal? ==> !NonTerminal(worker.pc.status))
    && (worker.pc.Claim? ==> Claimable(worker.pc.expected))
  }

  ghost predicate AllShaped(s: State) {
    forall w :: w in s.workers ==> Shaped(s.workers[w])
  }

  lemma StepShaped(s: State, l: Label)
    requires Enabled(s, l) && AllShaped(s)
    ensures AllShaped(Next(s, l))
  {
  }

  lemma {:induction false} RunShaped(states: seq<State>, labels: seq<Label>, n: nat)
    requires IsRun(states, labels) && n < |states|
    ensures AllShaped(states[n])
  {
    if n > 0 {
      RunShaped(states, labels, n - 1);
      assert states[n] == Next(states[n - 1], labels[n - 1]);
      StepShaped(states[n - 1], labels[n - 1]);
    }
  }

  /** The only step that gives an existing row a claimable status is an initial upsert's store. */
  lemma OnlyStoresRestore(s: State, l: Label, d: DocId, e: ProcessStatus)
    requires Enabled(s, l) && AllShaped(s) && Claimable(e)
    requires d in s.docs && s.docs[d] != e
    ensures d in Next(s, l).docs
    ensures Next(s, l).docs[d] == e ==> StoresInitial(s, l, d, e)
  {
    assert l.Run? ==> Shaped(s.workers[l.worker]);
  }

  lemma {:induction false} SomeStoreRestores(states: seq<State>, labels: seq<Label>, i: nat, j: nat, d: DocId,
        e: ProcessStatus)
    requires IsRun(states, labels) && i <= j < |states| && Claimable(e)
    requires d in states[i].docs && states[i].docs[d] != e
    ensures d in states[j].docs
    ensures states[j].docs[d] == e ==> exists k :: i <= k < j && StoresInitial(states[k], labels[k], d, e)
    decreases j
  {
    if i < j {
      SomeStoreRestores(states, labels, i, j - 1, d, e);
      RunShaped(states, labels, j - 1);
      assert states[j] == Next(states[j - 1], labels[j - 1]);
      if states[j - 1].docs[d] != e {
        OnlyStoresRestore(states[j - 1], labels[j - 1], d, e);
      } else {
        RowStays(states[j - 1], labels[j - 1], d);
      }
    }
  }

  lemma RowStays(s: State, l: Label, d: DocId)
    requires Enabled(s, l) && d in s.docs
    ensures d in Next(s, l).docs
  {
  }

  lemma ClaimsExclude(states: seq<State>, labels: seq<Label>, i: nat, j: nat, d: DocId, e: ProcessStatus)
    requires IsRun(states, labels) && i < j < |labels|
    requires WinsClaim(states[i], labels[i], d, e) && WinsClaim(states[j], labels[j], d, e)
    ensures exists k :: i < k < j && StoresInitial(states[k], labels[k], d, e)
  {
    RunShaped(states, labels, i);
    assert Shaped(states[i].workers[labels[i].worker]);
    assert states[i + 1] == Next(states[i], labels[i]);
    assert states[i + 1].docs[d] == Started;
    SomeStoreRestores(states, labels, i + 1, j, d, e);
  }
}
