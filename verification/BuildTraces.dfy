/** Whose bytes a page's file holds, and which pages keep the stamp of a submit, over every
    interleaving of uploads, deletes, submits and failures. */
module BuildTraces {
  import opened Common
  import opened BuildLock
  import opened BuildProtocol

  // ---- Bytes ----

  /** Who stored what is at a key, going by what happened to it last. */
  function HolderOf(events: seq<FileEvent>, key: ObjectKey): Option<RequestId> {
    if events == [] then None
    else
      var last := events[|events| - 1];
      if last.key != key then HolderOf(events[..|events| - 1], key)
      else if last.Stored? then Some(last.writer) else None
  }

  lemma HolderSnoc(events: seq<FileEvent>, e: FileEvent, key: ObjectKey)
    ensures HolderOf(events + [e], key) ==
      if e.key != key then HolderOf(events, key) else if e.Stored? then Some(e.writer) else None
  {
    assert (events + [e])[..|events|] == events;
  }

  function FileAt(s: State, key: ObjectKey): Option<RequestId> {
    if key in s.files then Some(s.files[key]) else None
  }

  /** The request stored the key's bytes at i, and from then on nobody else stored others there
      and no delete removed them. */
  predicate UntouchedSince(events: seq<FileEvent>, key: ObjectKey, id: RequestId, i: int) {
    && 0 <= i < |events| && events[i] == Stored(key, id)
    && forall j :: i < j < |events| && events[j].key == key ==> events[j] == Stored(key, id)
  }

  ghost predicate LeftAlone(events: seq<FileEvent>, key: ObjectKey, id: RequestId) {
    exists i :: UntouchedSince(events, key, id, i)
  }

  lemma LeftAloneSnoc(events: seq<FileEvent>, e: FileEvent, key: ObjectKey, id: RequestId)
    ensures LeftAlone(events + [e], key, id) <==>
      e == Stored(key, id) || (e.key != key && LeftAlone(events, key, id))
  {
    var all := events + [e];
    if e == Stored(key, id) {
      assert UntouchedSince(all, key, id, |events|);
    }
    if e.key != key && LeftAlone(events, key, id) {
      var i :| UntouchedSince(events, key, id, i);
      assert UntouchedSince(all, key, id, i);
    }
    if LeftAlone(all, key, id) && e != Stored(key, id) {
      var i :| UntouchedSince(all, key, id, i);
      assert all[|events|] == e;
      assert forall j :: 0 <= j < |events| ==> all[j] == events[j];
      assert UntouchedSince(events, key, id, i);
    }
  }

  lemma {:induction false} HolderIffLeftAlone(events: seq<FileEvent>, key: ObjectKey, id: RequestId)
    ensures HolderOf(events, key) == Some(id) <==> LeftAlone(events, key, id)
  {
    if events != [] {
      var init, last := events[..|events| - 1], events[|events| - 1];
      HolderIffLeftAlone(init, key, id);
      assert events == init + [last];
      LeftAloneSnoc(init, last, key, id);
    }
  }

  predicate HasStored(events: seq<FileEvent>, key: ObjectKey, id: RequestId) { Stored(key, id) in events }

  /** The files are what the events left, and whoever owns a row, or is about to write one,
      has stored its bytes. */
  ghost predicate FilesTraced(s: State) {
    && (forall key :: FileAt(s, key) == HolderOf(s.log.fileEvents, key))
    && (forall n :: n in s.pages && s.pages[n].file.Some? ==>
          s.pages[n].owner.Some? && HasStored(s.log.fileEvents, s.pages[n].file.value, s.pages[n].owner.value))
    && (forall id :: id in s.requests && s.requests[id].PutRow? ==>
          HasStored(s.log.fileEvents, ObjectKey(s.requests[id].page, s.requests[id].upload.extension), id))
  }

  lemma PutFileTraced(s: State, id: RequestId, n: PageNumber, upload: Upload)
    requires FilesTraced(s)
    ensures FilesTraced(RunPutFile(s, id, n, upload))
  {
    var e := Stored(ObjectKey(n, upload.extension), id);
    forall key ensures FileAt(RunPutFile(s, id, n, upload), key) == HolderOf(s.log.fileEvents + [e], key) {
      HolderSnoc(s.log.fileEvents, e, key);
    }
    StoredStays(s.log.fileEvents, e);
  }

  lemma StoredStays(events: seq<FileEvent>, e: FileEvent)
    ensures forall x :: x in events ==> x in events + [e]
    ensures e in events + [e]
  {
  }

  lemma RemoveFileTraced(s: State, id: RequestId, pc: Pc)
    requires FilesTraced(s) && pc.RemoveFile?
    ensures FilesTraced(RunRemoveFile(s, id, pc))
  {
    if pc.file.Some? {
      var e := Dropped(pc.file.value);
      forall key ensures FileAt(RunRemoveFile(s, id, pc), key) == HolderOf(s.log.fileEvents + [e], key) {
        HolderSnoc(s.log.fileEvents, e, key);
      }
      StoredStays(s.log.fileEvents, e);
    }
  }

  lemma PutRowTraced(s: State, id: RequestId, n: PageNumber, upload: Upload)
    requires FilesTraced(s) && id in s.requests && s.requests[id] == PutRow(n, upload)
    ensures FilesTraced(RunPutRow(s, id, n, upload))
  {
    var s' := RunPutRow(s, id, n, upload);
    assert HasStored(s.log.fileEvents, ObjectKey(n, upload.extension), id);
    assert forall key :: FileAt(s', key) == FileAt(s, key);
  }

  /** The steps that touch no file and give no page another owner or file. */
  lemma OtherTraced(s: State, s': State, id: RequestId)
    requires FilesTraced(s) && s'.files == s.files && s'.log.fileEvents == s.log.fileEvents
    requires forall n :: n in s'.pages && s'.pages[n].file.Some? ==>
      n in s.pages && s.pages[n].file == s'.pages[n].file && s.pages[n].owner == s'.pages[n].owner
    requires id in s'.requests && s'.requests == s.requests[id := s'.requests[id]] && !s'.requests[id].PutRow?
    ensures FilesTraced(s')
  {
    assert forall key :: FileAt(s', key) == FileAt(s, key);
  }

  lemma WriteTraced(s: State, id: RequestId, pc: Pc, pick: PageNumber)
    requires FilesTraced(s) && id in s.requests && s.requests[id] == pc && Writes(pc)
    ensures FilesTraced(RunWrite(s, id, pc, pick))
  {
    if pc.PutFile? {
      PutFileTraced(s, id, pc.page, pc.upload);
    } else if pc.RemoveFile? {
      RemoveFileTraced(s, id, pc);
    } else if pc.PutRow? {
      PutRowTraced(s, id, pc.page, pc.upload);
    } else {
      OtherTraced(s, RunWrite(s, id, pc, pick), id);
    }
  }

  lemma AbortTraced(s: State, before: State, id: RequestId)
    requires FilesTraced(s)
    ensures FilesTraced(Aborted(s, before, id))
  {
    OtherTraced(s, Aborted(s, before, id), id);
  }

  lemma ReadIsNotPut(s: State, pc: Pc, pick: PageNumber)
    requires !Writes(pc) && (pc.Authorize? ==> EntryPoint(pc))
    ensures !AfterReading(s, pc, pick).PutRow?
  {
  }

  lemma FailTraced(s: State, id: RequestId, pick: PageNumber, landed: bool)
    requires FilesTraced(s) && Enabled(s, Fail(id, pick, landed))
    ensures FilesTraced(Next(s, Fail(id, pick, landed)))
  {
    var pc := s.requests[id];
    if pc.Prepare? {
      OtherTraced(s, Goto(s, id, Rollback), id);
    } else if landed && Writes(pc) {
      WriteTraced(s, id, pc, pick);
      AbortTraced(RunWrite(s, id, pc, pick), s, id);
    } else {
      AbortTraced(s, s, id);
    }
  }

  lemma StepTraced(s: State, l: Label)
    requires FilesTraced(s) && LockInv(s) && Enabled(s, l)
    ensures FilesTraced(Next(s, l))
  {
    match l
    case Arrive(id, pc) => OtherTraced(s, Goto(s, id, pc), id);
    case Fail(id, pick, landed) => FailTraced(s, id, pick, landed);
    case Run(id, pick) =>
      var pc := s.requests[id];
      if Writes(pc) {
        WriteTraced(s, id, pc, pick);
      } else {
        ReadIsNotPut(s, pc, pick);
        OtherTraced(s, Goto(s, id, AfterReading(s, pc, pick)), id);
      }
  }

  lemma {:induction false} TracedInEveryRun(declined: bool, labels: seq<Label>, s: State)
    requires Play(Created(declined), labels) == Some(s)
    ensures FilesTraced(s)
  {
    if labels != [] {
      var before := Play(Created(declined), labels[..|labels| - 1]).value;
      TracedInEveryRun(declined, labels[..|labels| - 1], before);
      LockIsAccounted(declined, labels[..|labels| - 1], before);
      StepTraced(before, labels[|labels| - 1]);
    }
  }

  /** In every run, the file a page names has been stored by the page's owner, and holds the
      owner's bytes exactly when since then nobody else has stored a file at that key and no
      delete has removed it. */
  lemma PageHoldsItsBytesIff(declined: bool, labels: seq<Label>, s: State, n: PageNumber)
    requires Play(Created(declined), labels) == Some(s) && n in s.pages && s.pages[n].file.Some?
    ensures s.pages[n].owner.Some?
    ensures var key, owner := s.pages[n].file.value, s.pages[n].owner.value;
      && HasStored(s.log.fileEvents, key, owner)
      && (FileAt(s, key) == Some(owner) <==> LeftAlone(s.log.fileEvents, key, owner))
  {
    TracedInEveryRun(declined, labels, s);
    HolderIffLeftAlone(s.log.fileEvents, s.pages[n].file.value, s.pages[n].owner.value);
  }

  /** A create-only upload to a page that is there is refused, and has replaced the bytes of
      that page exactly when it uses the same key: the same page and the same extension. */
  lemma RefusedUploadReplacesIff(s: State, id: RequestId, n: PageNumber, upload: Upload)
    requires !upload.overwrite && n in s.pages && s.pages[n].file.Some?
    requires s.pages[n].owner.Some? && s.pages[n].owner != Some(id)
    requires FileAt(s, s.pages[n].file.value) == s.pages[n].owner
    ensures var stored := RunPutFile(s, id, n, upload);
      && RunPutRow(stored, id, n, upload).pages == s.pages
      && (FileAt(stored, s.pages[n].file.value) != s.pages[n].owner <==>
            s.pages[n].file == Some(ObjectKey(n, upload.extension)))
  {
  }

  // ---- Stamps ----

  /** The stamped rows are the ones stamped and not replaced or removed since. */
  ghost predicate StampsTraced(s: State) {
    forall n :: n in s.log.stampedPages <==> n in s.pages && s.pages[n].stamped
  }

  lemma WriteStamps(s: State, id: RequestId, pc: Pc, pick: PageNumber)
    requires StampsTraced(s) && Writes(pc)
    ensures StampsTraced(RunWrite(s, id, pc, pick))
  {
  }

  lemma StepKeepsStamps(s: State, l: Label)
    requires StampsTraced(s) && Enabled(s, l)
    ensures StampsTraced(Next(s, l))
  {
    if !l.Arrive? && Writes(s.requests[l.id]) {
      WriteStamps(s, l.id, s.requests[l.id], l.pick);
    }
  }

  lemma {:induction false} StampsInEveryRun(declined: bool, labels: seq<Label>, s: State)
    requires Play(Created(declined), labels) == Some(s)
    ensures StampsTraced(s)
  {
    if labels != [] {
      var before := Play(Created(declined), labels[..|labels| - 1]).value;
      StampsInEveryRun(declined, labels[..|labels| - 1], before);
      StepKeepsStamps(before, labels[|labels| - 1]);
    }
  }

  /** With the lock free, so that the build can be submitted, its deletion is refused exactly
      when some page still carries the stamp of an earlier submit. */
  lemma DeleteIsRefusedIff(declined: bool, labels: seq<Label>, s: State, pick: PageNumber)
    requires Play(Created(declined), labels) == Some(s) && !Submitted(s.metadata)
    ensures AfterReading(s, CheckBuild, pick) == Idle <==> s.log.stampedPages != {}
    ensures forall todo, whole :: todo != {} ==>
      (AfterReading(s, CheckPages(todo, whole), pick) == Idle <==> s.log.stampedPages != {})
  {
    StampsInEveryRun(declined, labels, s);
    if n :| n in s.log.stampedPages {
      assert n in s.pages && s.pages[n].stamped;
    }
    if AnySubmitted(s) {
      var n :| n in s.pages && s.pages[n].stamped;
      assert n in s.log.stampedPages;
    }
  }
}
