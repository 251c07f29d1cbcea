/** Page numbers and page files over every interleaving of uploads, deletes and submits. */
module BuildPages {
  import opened Common
  import opened BuildLock
  import opened BuildProtocol

  function Present(s: State, n: PageNumber): nat { if n in s.pages then 1 else 0 }

  function CreatorsOf(created: map<RequestId, PageNumber>, n: PageNumber): set<RequestId> {
    set id | id in created && created[id] == n
  }

  /** Successful create-only uploads of page n, against its row and its removals. */
  ghost predicate NumberInv(s: State, n: PageNumber) {
    && |CreatorsOf(s.log.created, n)| <= Present(s, n) + s.log.removed[n]
    && (forall id :: id in s.log.created ==> id in s.requests && s.requests[id] == Idle)
    && (forall id :: id in s.log.created && s.log.created[id] == n && s.log.removed[n] == 0 && s.log.replaced[n] == 0 ==>
          n in s.pages && s.pages[n].owner == Some(id) && s.pages[n].file.Some? && s.pages[n].file.value.page == n)
  }

  lemma CreatedMore(created: map<RequestId, PageNumber>, id: RequestId, n: PageNumber)
    requires id !in created
    ensures CreatorsOf(created[id := n], n) == CreatorsOf(created, n) + {id}
    ensures forall m :: m != n ==> CreatorsOf(created[id := n], m) == CreatorsOf(created, m)
  {
  }

  lemma PutThisRowKeeps(s: State, id: RequestId, n: PageNumber, upload: Upload)
    requires NumberInv(s, n) && id in s.requests && s.requests[id] == PutRow(n, upload)
    ensures NumberInv(RunPutRow(s, id, n, upload), n)
  {
    assert id !in s.log.created;
    if !upload.overwrite && n !in s.pages {
      CreateKeeps(s, id, n, upload);
    }
  }

  lemma CreateKeeps(s: State, id: RequestId, n: PageNumber, upload: Upload)
    requires NumberInv(s, n) && id in s.requests && s.requests[id] == PutRow(n, upload)
    requires !upload.overwrite && n !in s.pages && id !in s.log.created
    ensures NumberInv(RunPutRow(s, id, n, upload), n)
  {
    CreatedMore(s.log.created, id, n);
    if s.log.removed[n] == 0 {
      assert CreatorsOf(s.log.created, n) == {};
      assert forall x :: x in s.log.created && s.log.created[x] == n ==> x in CreatorsOf(s.log.created, n);
    }
  }

  lemma PutOtherRowKeeps(s: State, id: RequestId, m: PageNumber, upload: Upload, n: PageNumber)
    requires NumberInv(s, n) && id in s.requests && s.requests[id] == PutRow(m, upload) && m != n
    ensures NumberInv(RunPutRow(s, id, m, upload), n)
  {
    assert id !in s.log.created;
    CreatedMore(s.log.created, id, m);
  }

  lemma RemoveRowKeeps(s: State, id: RequestId, m: PageNumber, todo: set<PageNumber>, whole: bool, n: PageNumber)
    requires NumberInv(s, n) && id in s.requests && s.requests[id] != Idle
    ensures NumberInv(RunRemoveRow(s, id, m, todo, whole), n)
  {
  }

  lemma StampKeeps(s: State, id: RequestId, todo: set<PageNumber>, m: PageNumber, n: PageNumber)
    requires NumberInv(s, n) && id in s.requests && s.requests[id] != Idle
    ensures NumberInv(RunStamp(s, id, todo, m), n)
  {
  }

  /** The steps that leave page rows and their history alone. */
  lemma OtherKeeps(s: State, s': State, id: RequestId, n: PageNumber)
    requires NumberInv(s, n) && (id in s.requests ==> s.requests[id] != Idle)
    requires s'.pages == s.pages && s'.log.created == s.log.created
    requires s'.log.removed == s.log.removed && s'.log.replaced == s.log.replaced
    requires id in s'.requests && s'.requests == s.requests[id := s'.requests[id]]
    ensures NumberInv(s', n)
  {
  }

  lemma WriteKeepsNumber(s: State, id: RequestId, pc: Pc, pick: PageNumber, n: PageNumber)
    requires NumberInv(s, n) && id in s.requests && s.requests[id] == pc && Writes(pc)
    ensures NumberInv(RunWrite(s, id, pc, pick), n)
  {
    if pc.PutRow? {
      if pc.page == n {
        PutThisRowKeeps(s, id, n, pc.upload);
      } else {
        PutOtherRowKeeps(s, id, pc.page, pc.upload, n);
      }
    } else if pc.RemoveRow? {
      RemoveRowKeeps(s, id, pc.page, pc.todo, pc.whole, n);
    } else if pc.Stamp? {
      StampKeeps(s, id, pc.todo, pick, n);
    } else {
      OtherKeeps(s, RunWrite(s, id, pc, pick), id, n);
    }
  }

  lemma CreatedFewer(created: map<RequestId, PageNumber>, before: map<RequestId, PageNumber>, n: PageNumber)
    requires forall id :: id in before ==> id in created && created[id] == before[id]
    ensures |CreatorsOf(before, n)| <= |CreatorsOf(created, n)|
  {
    SubsetSize(CreatorsOf(before, n), CreatorsOf(created, n));
  }

  lemma AbortKeepsNumber(s: State, before: State, id: RequestId, n: PageNumber)
    requires NumberInv(s, n) && id in s.requests
    requires forall x :: x in before.log.created ==> x in s.log.created && s.log.created[x] == before.log.created[x]
    ensures NumberInv(Aborted(s, before, id), n)
  {
    CreatedFewer(s.log.created, before.log.created, n);
  }

  lemma WriteCreates(s: State, id: RequestId, pc: Pc, pick: PageNumber)
    requires Writes(pc) && id !in s.log.created
    ensures var s' := RunWrite(s, id, pc, pick);
      id in s'.requests && forall x :: x in s.log.created ==> x in s'.log.created && s'.log.created[x] == s.log.created[x]
  {
  }

  lemma FailKeepsNumber(s: State, id: RequestId, pick: PageNumber, landed: bool, n: PageNumber)
    requires NumberInv(s, n) && Enabled(s, Fail(id, pick, landed))
    ensures NumberInv(Next(s, Fail(id, pick, landed)), n)
  {
    var pc := s.requests[id];
    if pc.Prepare? {
      OtherKeeps(s, Goto(s, id, Rollback), id, n);
    } else if landed && Writes(pc) {
      WriteKeepsNumber(s, id, pc, pick, n);
      WriteCreates(s, id, pc, pick);
      AbortKeepsNumber(RunWrite(s, id, pc, pick), s, id, n);
    } else {
      AbortKeepsNumber(s, s, id, n);
    }
  }

  lemma StepKeepsNumber(s: State, l: Label, n: PageNumber)
    requires NumberInv(s, n) && Enabled(s, l)
    ensures NumberInv(Next(s, l), n)
  {
    match l
    case Arrive(id, pc) => OtherKeeps(s, Goto(s, id, pc), id, n);
    case Fail(id, pick, landed) => FailKeepsNumber(s, id, pick, landed, n);
    case Run(id, pick) =>
      if Writes(s.requests[id]) {
        WriteKeepsNumber(s, id, s.requests[id], pick, n);
      } else {
        OtherKeeps(s, Goto(s, id, AfterReading(s, s.requests[id], pick)), id, n);
      }
  }

  lemma {:induction false} NumbersAreKept(declined: bool, labels: seq<Label>, s: State, n: PageNumber)
    requires Play(Created(declined), labels) == Some(s)
    ensures NumberInv(s, n)
  {
    if labels == [] {
      assert CreatorsOf(s.log.created, n) == {};
    } else {
      var before := Play(Created(declined), labels[..|labels| - 1]).value;
      NumbersAreKept(declined, labels[..|labels| - 1], before, n);
      StepKeepsNumber(before, labels[|labels| - 1], n);
    }
  }

  /** Two create-only uploads of the same page number both succeed only if that page was
      deleted in between: at most once more than it was deleted. */
  lemma PageNumbersAreDistinct(declined: bool, labels: seq<Label>, s: State, a: RequestId, b: RequestId)
    requires Play(Created(declined), labels) == Some(s)
    requires a in s.log.created && b in s.log.created && a != b && s.log.created[a] == s.log.created[b]
    ensures s.log.removed[s.log.created[a]] >= 1
  {
    var n := s.log.created[a];
    NumbersAreKept(declined, labels, s, n);
    var creators := CreatorsOf(s.log.created, n);
    assert creators == {a, b} + (creators - {a, b});
  }

  /** A successful create-only upload still owns its row unless the page was deleted or
      overwritten on request. */
  lemma CreatorOwnsThePage(declined: bool, labels: seq<Label>, s: State, id: RequestId)
    requires Play(Created(declined), labels) == Some(s) && id in s.log.created
    requires s.log.removed[s.log.created[id]] == 0 && s.log.replaced[s.log.created[id]] == 0
    ensures s.log.created[id] in s.pages && s.pages[s.log.created[id]].owner == Some(id)
  {
    NumbersAreKept(declined, labels, s, s.log.created[id]);
  }

  // ---- Files ----

  ghost predicate FilesInv(s: State) {
    s.log.filesRemoved == 0 ==>
      && (forall n :: n in s.pages && s.pages[n].file.Some? ==> s.pages[n].file.value in s.files)
      && (forall id :: id in s.requests && s.requests[id].PutRow? ==>
            ObjectKey(s.requests[id].page, s.requests[id].upload.extension) in s.files)
  }

  lemma ReadIsNotPutRow(s: State, pc: Pc, pick: PageNumber)
    requires !Writes(pc) && (pc.Authorize? ==> EntryPoint(pc))
    ensures !AfterReading(s, pc, pick).PutRow?
  {
  }

  lemma WriteKeepsFiles(s: State, id: RequestId, pc: Pc, pick: PageNumber)
    requires FilesInv(s) && id in s.requests && s.requests[id] == pc && Writes(pc)
    ensures FilesInv(RunWrite(s, id, pc, pick))
  {
  }

  lemma AbortKeepsFiles(s: State, before: State, id: RequestId)
    requires FilesInv(s)
    ensures FilesInv(Aborted(s, before, id))
  {
  }

  lemma FailKeepsFiles(s: State, id: RequestId, pick: PageNumber, landed: bool)
    requires FilesInv(s) && Enabled(s, Fail(id, pick, landed))
    ensures FilesInv(Next(s, Fail(id, pick, landed)))
  {
    var pc := s.requests[id];
    if landed && Writes(pc) {
      WriteKeepsFiles(s, id, pc, pick);
      AbortKeepsFiles(RunWrite(s, id, pc, pick), s, id);
    } else {
      AbortKeepsFiles(s, s, id);
    }
  }

  lemma StepKeepsFiles(s: State, l: Label)
    requires FilesInv(s) && LockInv(s) && Enabled(s, l)
    ensures FilesInv(Next(s, l))
  {
    match l
    case Arrive(id, pc) =>
    case Fail(id, pick, landed) => FailKeepsFiles(s, id, pick, landed);
    case Run(id, pick) =>
      if Writes(s.requests[id]) {
        WriteKeepsFiles(s, id, s.requests[id], pick);
      } else {
        ReadIsNotPutRow(s, s.requests[id], pick);
      }
  }

  lemma {:induction false} FilesAreKept(declined: bool, labels: seq<Label>, s: State)
    requires Play(Created(declined), labels) == Some(s)
    ensures FilesInv(s)
  {
    if labels != [] {
      var before := Play(Created(declined), labels[..|labels| - 1]).value;
      FilesAreKept(declined, labels[..|labels| - 1], before);
      LockIsAccounted(declined, labels[..|labels| - 1], before);
      StepKeepsFiles(before, labels[|labels| - 1]);
    }
  }

  /** The bytes are stored before the row that names them: until a file is deleted, every
      uploaded page's file exists. */
  lemma EveryPageHasItsFile(declined: bool, labels: seq<Label>, s: State, n: PageNumber)
    requires Play(Created(declined), labels) == Some(s) && s.log.filesRemoved == 0
    requires n in s.pages && s.pages[n].file.Some?
    ensures s.pages[n].file.value in s.files
  {
    FilesAreKept(declined, labels, s);
  }

  // ---- No page is numbered 0 ----

  predicate StartsAtOne(pc: Pc) {
    match pc
    case Authorize(next) => StartsAtOne(next)
    case Allocate(number, _) => number.Some? ==> number.value >= 1
    case PutFile(n, _) => n >= 1
    case PutRow(n, _) => n >= 1
    case Stamp(todo) => 0 !in todo
    case _ => true
  }

  ghost predicate NumberedFromOne(s: State) {
    0 !in s.pages && forall id :: id in s.requests ==> StartsAtOne(s.requests[id])
  }

  lemma ReadStartsAtOne(s: State, pc: Pc, pick: PageNumber)
    requires 0 !in s.pages && StartsAtOne(pc)
    ensures StartsAtOne(AfterReading(s, pc, pick))
  {
  }

  lemma WriteStartsAtOne(s: State, id: RequestId, pc: Pc, pick: PageNumber)
    requires NumberedFromOne(s) && Writes(pc) && StartsAtOne(pc) && (pc.Stamp? && pc.todo != {} ==> pick in pc.todo)
    ensures NumberedFromOne(RunWrite(s, id, pc, pick))
  {
  }

  lemma StepStartsAtOne(s: State, l: Label)
    requires NumberedFromOne(s) && Enabled(s, l)
    ensures NumberedFromOne(Next(s, l))
  {
    match l
    case Arrive(id, pc) =>
    case Run(id, pick) =>
      if Writes(s.requests[id]) {
        WriteStartsAtOne(s, id, s.requests[id], pick);
      } else {
        ReadStartsAtOne(s, s.requests[id], pick);
      }
    case Fail(id, pick, landed) =>
      if Writes(s.requests[id]) {
        WriteStartsAtOne(s, id, s.requests[id], pick);
      }
  }

  /** In every run page 0 is the metadata row and nothing else. */
  lemma {:induction false} PageZeroIsTheMetadata(declined: bool, labels: seq<Label>, s: State)
    requires Play(Created(declined), labels) == Some(s)
    ensures 0 !in s.pages && NumberedFromOne(s)
  {
    if labels != [] {
      var before := Play(Created(declined), labels[..|labels| - 1]).value;
      PageZeroIsTheMetadata(declined, labels[..|labels| - 1], before);
      StepStartsAtOne(before, labels[|labels| - 1]);
    }
  }

  // ---- What lets a request go on ----

  /** Any request goes on from its access check exactly when there is a metadata row, and that
      row was not recreated by an update after a delete. */
  lemma AccessIff(s: State, id: RequestId, next: Pc, pick: PageNumber)
    requires id in s.requests && s.requests[id] == Authorize(next) && next != Idle
    ensures Enabled(s, Run(id, pick))
    ensures Next(s, Run(id, pick)) == s.(requests := s.requests[id := next]) <==> s.metadata.Row? && s.metadata.whole
    ensures Next(s, Run(id, pick)) in {s.(requests := s.requests[id := next]), s.(requests := s.requests[id := Idle])}
  {
    ReadStep(s, id, Authorize(next), pick);
    assert s.requests[id := next][id] == next && s.requests[id := Idle][id] == Idle;
  }

  /** A submit that has read its pages goes on to the lock exactly when a row is listed, page or
      bare metadata row, and no two pages name different categories. */
  lemma SubmitGoesOnIff(s: State, id: RequestId, pick: PageNumber)
    requires id in s.requests && s.requests[id] == ReadPages
    ensures Enabled(s, Run(id, pick))
    ensures Next(s, Run(id, pick)) == s.(requests := s.requests[id := Lock]) <==>
      && (s.pages != map[] || (s.metadata.Row? && !s.metadata.whole))
      && forall n, m :: n in s.pages && m in s.pages && s.pages[n].category.Some? && s.pages[m].category.Some? ==>
           s.pages[n].category == s.pages[m].category
    ensures Next(s, Run(id, pick)) in {s.(requests := s.requests[id := Lock]), s.(requests := s.requests[id := Idle])}
  {
    assert ListedPages(s) == {} <==> s.pages == map[] && !(s.metadata.Row? && !s.metadata.whole) by {
      assert s.pages.Keys <= ListedPages(s);
      assert s.pages.Keys == {} <==> s.pages == map[];
    }
    assert s.requests[id := Lock][id] == Lock && s.requests[id := Idle][id] == Idle;
  }

  /** An upload goes on exactly when fewer than fifty rows are listed, and then to the number it
      was given, or the one after the last, or 1. */
  lemma UploadGoesOnIff(s: State, id: RequestId, number: Option<PageNumber>, upload: Upload, pick: PageNumber)
    returns (n: PageNumber)
    requires id in s.requests && s.requests[id] == Allocate(number, upload)
    ensures Enabled(s, Run(id, pick))
    ensures var listed := s.pages.Keys + if s.metadata.Row? && !s.metadata.whole then {0} else {};
      && Next(s, Run(id, pick)) == s.(requests := s.requests[id := if |listed| < 50 then PutFile(n, upload) else Idle])
      && (number.Some? ==> n == number.value)
      && (number.None? ==> (if listed == {} then n == 1 else n - 1 in listed) && forall m :: m in listed ==> m < n)
  {
    n := if number.Some? then number.value else MaxOf(ListedPages(s)) + 1;
    AllocateStep(s, id, number, upload, pick, n);
    AfterTheLast(ListedPages(s), MaxOf(ListedPages(s)));
  }

  lemma AllocateStep(s: State, id: RequestId, number: Option<PageNumber>, upload: Upload, pick: PageNumber, n: PageNumber)
    requires id in s.requests && s.requests[id] == Allocate(number, upload)
    requires n == if number.Some? then number.value else MaxOf(ListedPages(s)) + 1
    ensures Enabled(s, Run(id, pick))
    ensures Next(s, Run(id, pick)) == Goto(s, id, if |ListedPages(s)| < 50 then PutFile(n, upload) else Idle)
  {
    AllocateReads(s, number, upload, pick, n);
    ReadStep(s, id, Allocate(number, upload), pick);
  }

  lemma AllocateReads(s: State, number: Option<PageNumber>, upload: Upload, pick: PageNumber, n: PageNumber)
    requires n == if number.Some? then number.value else MaxOf(ListedPages(s)) + 1
    ensures AfterReading(s, Allocate(number, upload), pick) == if |ListedPages(s)| < 50 then PutFile(n, upload) else Idle
  {
  }

  lemma ReadStep(s: State, id: RequestId, pc: Pc, pick: PageNumber)
    requires id in s.requests && s.requests[id] == pc && Ready(s, id, pick) && !Writes(pc)
    ensures Enabled(s, Run(id, pick)) && Next(s, Run(id, pick)) == Goto(s, id, AfterReading(s, pc, pick))
  {
  }

  lemma AfterTheLast(numbers: set<PageNumber>, last: PageNumber)
    requires last == MaxOf(numbers)
    ensures (if numbers == {} then last + 1 == 1 else last + 1 - 1 in numbers) && forall m :: m in numbers ==> m < last + 1
  {
  }

  // ---- Allocation ----

  lemma PlayMore(start: State, labels: seq<Label>, s: State, l: Label)
    requires Play(start, labels) == Some(s) && Enabled(s, l)
    ensures Play(start, labels + [l]) == Some(Next(s, l))
  {
    assert (labels + [l])[..|labels|] == labels;
  }

  lemma PutFileStep(s: State, id: RequestId, n: PageNumber, upload: Upload)
    requires id in s.requests && s.requests[id] == PutFile(n, upload)
    ensures Enabled(s, Run(id, 0)) && Next(s, Run(id, 0)) == RunPutFile(s, id, n, upload)
    ensures RunPutFile(s, id, n, upload).requests[id] == PutRow(n, upload)
  {
  }

  lemma PutRowStep(s: State, id: RequestId, n: PageNumber, upload: Upload)
    requires id in s.requests && s.requests[id] == PutRow(n, upload)
    ensures Enabled(s, Run(id, 0)) && Next(s, Run(id, 0)) == RunPutRow(s, id, n, upload)
  {
  }

  lemma AloneUploadPlays(s: State, id: RequestId, n: PageNumber, upload: Upload)
    requires id in s.requests && s.requests[id] == PutFile(n, upload)
    ensures Play(s, [Run(id, 0), Run(id, 0)]) == Some(RunPutRow(RunPutFile(s, id, n, upload), id, n, upload))
  {
    var run := Run(id, 0);
    PutFileStep(s, id, n, upload);
    PlayMore(s, [], s, run);
    assert [] + [run] == [run];
    PutRowStep(RunPutFile(s, id, n, upload), id, n, upload);
    PlayMore(s, [run], RunPutFile(s, id, n, upload), run);
    assert [run] + [run] == [run, run];
  }

  lemma PutsCreate(s: State, id: RequestId, n: PageNumber, upload: Upload)
    requires n !in s.pages && !upload.overwrite
    ensures var s' := RunPutRow(RunPutFile(s, id, n, upload), id, n, upload);
      && s'.log.created == s.log.created[id := n] && s'.metadata == s.metadata
      && s'.pages == s.pages[n := Page(Some(id), Some(ObjectKey(n, upload.extension)), upload.category, false)]
  {
  }

  lemma AllocatesNext(s: State, id: RequestId, upload: Upload) returns (n: PageNumber)
    requires id in s.requests && s.requests[id] == Allocate(None, upload)
    requires |ListedPages(s)| < MAX_PAGES_PER_BUILD
    ensures RunRequest(s, id, 0) == Goto(s, id, PutFile(n, upload))
    ensures forall m :: m in s.pages ==> m < n
  {
    n := MaxOf(ListedPages(s)) + 1;
    assert forall m :: m in s.pages ==> m in ListedPages(s);
  }

  /** An upload without a number that nobody interrupts after it has read the pages creates
      the page after the last. */
  lemma AloneUploadCreates(s: State, id: RequestId, upload: Upload) returns (n: PageNumber, s': State)
    requires id in s.requests && s.requests[id] == Allocate(None, upload) && !upload.overwrite
    requires |ListedPages(s)| < MAX_PAGES_PER_BUILD
    ensures Play(RunRequest(s, id, 0), [Run(id, 0), Run(id, 0)]) == Some(s')
    ensures s'.log.created == s.log.created[id := n] && forall m :: m in s.pages ==> m < n
    ensures s'.pages == s.pages[n := Page(Some(id), Some(ObjectKey(n, upload.extension)), upload.category, false)]
    ensures s'.metadata == s.metadata
  {
    n := AllocatesNext(s, id, upload);
    var s1 := Goto(s, id, PutFile(n, upload));
    AloneUploadPlays(s1, id, n, upload);
    PutsCreate(s1, id, n, upload);
    s' := RunPutRow(RunPutFile(s1, id, n, upload), id, n, upload);
  }
}
