/** The build's calls as methods over its rows, run without interference, and their agreement
    with a submit that runs alone in the transition system. */
module BuildTables {
  import opened Common
  import opened BuildPages
  import opened BuildProtocol

  /** The pages with the given ones stamped. A page that is not there becomes a bare row. */
  function Stamped(pages: map<PageNumber, Page>, stamps: set<PageNumber>): (r: map<PageNumber, Page>)
    ensures r.Keys == pages.Keys + stamps
  {
    map n | n in pages.Keys + stamps ::
      if n !in stamps then pages[n] else if n in pages then pages[n].(stamped := true) else Page(None, None, None, true)
  }

  function Locked(m: Metadata): Metadata { if m.Row? then m.(submitted := true) else Row(false, false, true) }
  function Unlocked(m: Metadata): Metadata { if m.Row? then m.(submitted := false) else Row(false, false, false) }

  /** The page table after a put, which only lands over a row when it may overwrite. */
  function PutPage(pages: map<PageNumber, Page>, id: RequestId, n: PageNumber, upload: Upload): map<PageNumber, Page> {
    if upload.overwrite || n !in pages
    then pages[n := Page(Some(id), Some(ObjectKey(n, upload.extension)), upload.category, false)]
    else pages
  }

  /** What the rows of a build and its page files hold. */
  datatype Rows = Rows(metadata: Metadata, pages: map<PageNumber, Page>, files: set<ObjectKey>)

  function RowsOf(s: State): Rows { Rows(s.metadata, s.pages, s.files.Keys) }

  predicate Closed(rows: Rows) {
    Submitted(rows.metadata) || exists n :: n in rows.pages && rows.pages[n].stamped
  }

  /** The rows after deleting one page with its file. Page 0 is the metadata row. */
  function PageDeleted(rows: Rows, n: PageNumber): Rows {
    if Closed(rows) then rows
    else if n == 0 then rows.(metadata := Missing)
    else if n !in rows.pages then rows
    else rows.(pages := rows.pages - {n},
               files := if rows.pages[n].file.Some? then rows.files - {rows.pages[n].file.value} else rows.files)
  }

  /** After deleting the build: no row, and of the files those that no page named. */
  function BuildDeleted(rows: Rows): Rows {
    if Closed(rows) then rows
    else Rows(Missing, map[], set k | k in rows.files && forall n :: n in rows.pages ==> rows.pages[n].file != Some(k))
  }

  datatype DeleteReply = AlreadySubmitted | NotFound | Removed

  class BuildTable {
    var metadata: Metadata
    var pages: map<PageNumber, Page>
    var files: set<ObjectKey>

    constructor (declined: bool)
      ensures metadata == Row(true, declined, false) && pages == map[] && files == {}
    {
      metadata, pages, files := Row(true, declined, false), map[], {};
    }

    ghost function View(): Rows
      reads this
    {
      Rows(metadata, pages, files)
    }

    method IsDocumentBuildSubmitted() returns (submitted: bool)
      ensures submitted <==> Closed(View())
      ensures submitted <==> (metadata.Row? && metadata.submitted) || exists n :: n in pages && pages[n].stamped
    {
      if Submitted(metadata) {
        return true;
      }
      var left := pages.Keys;
      while left != {}
        invariant left <= pages.Keys
        invariant forall n :: n in pages && n !in left ==> !pages[n].stamped
        decreases |left|
      {
        var n :| n in left;
        if pages[n].stamped {
          return true;
        }
        left := left - {n};
      }
      return false;
    }

    /** A create-only put leaves every row that is there as it is. */
    method UpsertDocumentBuildPage(id: RequestId, n: PageNumber, upload: Upload) returns (written: bool)
      modifies this`pages
      ensures written <==> upload.overwrite || n !in old(pages)
      ensures pages == PutPage(old(pages), id, n, upload)
      ensures pages == if written then old(pages)[n := Page(Some(id), Some(ObjectKey(n, upload.extension)), upload.category, false)]
                       else old(pages)
    {
      if !upload.overwrite && n in pages {
        return false;
      }
      pages := pages[n := Page(Some(id), Some(ObjectKey(n, upload.extension)), upload.category, false)];
      return true;
    }

    method MarkDocumentBuildSubmitted() returns (locked: bool)
      modifies this`metadata, this`pages
      ensures locked <==> !Submitted(old(metadata))
      ensures !locked ==> metadata == old(metadata) && pages == old(pages)
      ensures locked ==> pages == Stamped(old(pages), old(pages.Keys)) && metadata == Locked(old(metadata))
      ensures locked ==> pages == map n | n in old(pages) :: old(pages)[n].(stamped := true)
      ensures locked ==> metadata == if old(metadata).Row? then old(metadata).(submitted := true) else Row(false, false, true)
    {
      if Submitted(metadata) {
        return false;
      }
      metadata := Locked(metadata);
      StampPages();
      return true;
    }

    method StampPages()
      modifies this`pages
      ensures pages == Stamped(old(pages), old(pages.Keys))
    {
      var left := pages.Keys;
      while left != {}
        invariant left <= pages.Keys && pages.Keys == old(pages.Keys)
        invariant pages == Stamped(old(pages), pages.Keys - left)
        decreases |left|
      {
        var n :| n in left;
        pages := pages[n := pages[n].(stamped := true)];
        left := left - {n};
      }
    }

    method ClearSubmittedAt()
      modifies this`metadata
      ensures metadata == Unlocked(old(metadata))
      ensures metadata == if old(metadata).Row? then old(metadata).(submitted := false) else Row(false, false, false)
    {
      metadata := Unlocked(metadata);
    }

    method DeleteDocumentBuildPage(n: PageNumber) returns (reply: DeleteReply)
      modifies this
      ensures reply == AlreadySubmitted <==> old(Closed(View()))
      ensures reply == NotFound <==> !old(Closed(View())) && (if n == 0 then old(metadata).Missing? else n !in old(pages))
      ensures View() == PageDeleted(old(View()), n)
      ensures reply != Removed ==> metadata == old(metadata) && pages == old(pages) && files == old(files)
      ensures reply == Removed && n == 0 ==> metadata == Missing && pages == old(pages) && files == old(files)
      ensures reply == Removed && n != 0 ==> metadata == old(metadata) && pages == map m | m in old(pages) && m != n :: old(pages)[m]
      ensures reply == Removed && n != 0 ==> files == set k | k in old(files) && old(pages)[n].file != Some(k)
    {
      var submitted := IsDocumentBuildSubmitted();
      if submitted {
        return AlreadySubmitted;
      }
      if n == 0 {
        if metadata.Missing? {
          return NotFound;
        }
        metadata := Missing;
        return Removed;
      }
      if n !in pages {
        return NotFound;
      }
      if pages[n].file.Some? {
        files := files - {pages[n].file.value};
      }
      pages := pages - {n};
      return Removed;
    }

    /** Removes every page with its file, then the metadata row. A metadata row that is not
        whole is listed as a page and goes with them. */
    method DeleteDocumentBuild() returns (reply: DeleteReply)
      requires 0 !in pages
      modifies this
      ensures reply == if old(Closed(View())) then AlreadySubmitted
                       else if old(metadata).Missing? && old(pages) == map[] then NotFound
                       else Removed
      ensures reply != Removed ==> metadata == old(metadata) && pages == old(pages) && files == old(files)
      ensures View() == BuildDeleted(old(View()))
      ensures reply == Removed ==> metadata == Missing && pages == map[]
      ensures reply == Removed ==>
        forall k :: k in files <==> k in old(files) && forall n :: n in old(pages) ==> old(pages)[n].file != Some(k)
    {
      var submitted := IsDocumentBuildSubmitted();
      if submitted {
        return AlreadySubmitted;
      }
      if metadata.Missing? && pages.Keys == {} {
        return NotFound;
      }
      if metadata.Row? && !metadata.whole {
        metadata := Missing;
      }
      var left := pages.Keys;
      while left != {}
        invariant !Submitted(metadata) && 0 !in left
        invariant left == pages.Keys && left <= old(pages.Keys)
        invariant forall n :: n in pages ==> pages[n] == old(pages)[n]
        invariant forall k :: k in files <==>
          k in old(files) && forall n :: n in old(pages) && n !in left ==> old(pages)[n].file != Some(k)
        decreases |left|
      {
        var n :| n in left;
        var removed := DeleteDocumentBuildPage(n);
        left := left - {n};
      }
      metadata := Missing;
      return Removed;
    }
  }

  function StampOne(pages: map<PageNumber, Page>, n: PageNumber): map<PageNumber, Page> {
    pages[n := if n in pages then pages[n].(stamped := true) else Page(None, None, None, true)]
  }

  lemma StampedOneByOne(pages: map<PageNumber, Page>, n: PageNumber, rest: set<PageNumber>)
    requires n !in rest
    ensures Stamped(StampOne(pages, n), rest) == Stamped(pages, rest + {n})
  {
  }

  function AfterStamps(s: State, id: RequestId, todo: set<PageNumber>): State {
    Goto(s.(pages := Stamped(s.pages, todo), log := s.log.(stampedPages := s.log.stampedPages + todo)), id, Prepare)
  }

  lemma LastStamp(s: State, id: RequestId)
    requires id in s.requests && s.requests[id] == Stamp({})
    ensures Enabled(s, Run(id, 0)) && Next(s, Run(id, 0)) == AfterStamps(s, id, {})
  {
    assert Stamped(s.pages, {}) == s.pages && s.log.stampedPages + {} == s.log.stampedPages;
  }

  lemma StampStep(s: State, id: RequestId, todo: set<PageNumber>, n: PageNumber) returns (s1: State)
    requires id in s.requests && s.requests[id] == Stamp(todo) && n in todo
    ensures Enabled(s, Run(id, n)) && s1 == Next(s, Run(id, n))
    ensures id in s1.requests && s1.requests[id] == Stamp(todo - {n})
    ensures AfterStamps(s1, id, todo - {n}) == AfterStamps(s, id, todo)
  {
    s1 := RunStamp(s, id, todo, n);
    assert s1.pages == StampOne(s.pages, n) && s.log.stampedPages + {n} + (todo - {n}) == s.log.stampedPages + todo;
    StampedOneByOne(s.pages, n, todo - {n});
    assert todo - {n} + {n} == todo;
    assert s1.requests[id := Prepare] == s.requests[id := Prepare];
  }

  lemma {:induction false} StampsAlone(start: State, labels: seq<Label>, s: State, id: RequestId, todo: set<PageNumber>)
    returns (labels': seq<Label>)
    requires Play(start, labels) == Some(s) && id in s.requests && s.requests[id] == Stamp(todo)
    ensures Play(start, labels') == Some(AfterStamps(s, id, todo))
    decreases |todo|
  {
    if todo == {} {
      LastStamp(s, id);
      PlayMore(start, labels, s, Run(id, 0));
      labels' := labels + [Run(id, 0)];
    } else {
      var n :| n in todo;
      var s1 := StampStep(s, id, todo, n);
      PlayMore(start, labels, s, Run(id, n));
      labels' := StampsAlone(start, labels + [Run(id, n)], s1, id, todo - {n});
    }
  }

  /** A submit that takes the lock with nobody in between changes the rows as the method does. */
  lemma AloneLockAgrees(s: State, id: RequestId) returns (labels: seq<Label>, s': State)
    requires id in s.requests && s.requests[id] == Lock && !Submitted(s.metadata)
    ensures Play(s, labels) == Some(s') && id in s'.requests && s'.requests[id] == Prepare
    ensures s'.pages == Stamped(s.pages, s.pages.Keys)
    ensures s'.metadata == Locked(s.metadata)
  {
    var run := Run(id, 0);
    PlayMore(s, [], s, run);
    var s1 := RunLock(s, id);
    PlayMore(s, [] + [run], s1, run);
    var s2 := Goto(s1, id, Stamp(s1.pages.Keys));
    labels := StampsAlone(s, [] + [run] + [run], s2, id, s1.pages.Keys);
    s' := AfterStamps(s2, id, s1.pages.Keys);
  }

  /** Rolling back undoes taking the lock, except that it leaves a bare row where there was none. */
  lemma RollbackUndoesTheLock(m: Metadata)
    requires !Submitted(m)
    ensures Submitted(Locked(m)) && !Submitted(Unlocked(Locked(m)))
    ensures Unlocked(Locked(m)) == m <==> m.Row?
  {
  }

  /** So does a submit's rollback, and the page stamps stay. */
  lemma AloneRollbackAgrees(s: State, id: RequestId)
    requires id in s.requests && s.requests[id] == Rollback
    ensures Play(s, [Run(id, 0)]) == Some(Next(s, Run(id, 0)))
    ensures RowsOf(Next(s, Run(id, 0))) == RowsOf(s).(metadata := Unlocked(s.metadata))
  {
    PlayMore(s, [], s, Run(id, 0));
    assert [] + [Run(id, 0)] == [Run(id, 0)];
  }

  /** And an upload's put, which reports a create-only success exactly when there was no row. */
  lemma AlonePutAgrees(s: State, id: RequestId, n: PageNumber, upload: Upload)
    requires id in s.requests && s.requests[id] == PutRow(n, upload) && id !in s.log.created
    ensures Play(s, [Run(id, 0)]) == Some(Next(s, Run(id, 0)))
    ensures RowsOf(Next(s, Run(id, 0))) == RowsOf(s).(pages := PutPage(s.pages, id, n, upload))
    ensures id in Next(s, Run(id, 0)).log.created <==> !upload.overwrite && n !in s.pages
  {
    PutRowStep(s, id, n, upload);
    PlayMore(s, [], s, Run(id, 0));
    assert [] + [Run(id, 0)] == [Run(id, 0)];
  }

  lemma FindStep(s: State, id: RequestId, n: PageNumber, todo: set<PageNumber>, whole: bool)
    requires id in s.requests && s.requests[id] == FindPage(n, todo, whole)
    ensures Enabled(s, Run(id, 0)) && Next(s, Run(id, 0)) == Goto(s, id, AfterFinding(s, n, todo, whole))
  {
  }

  lemma RemoveFileStep(s: State, id: RequestId, pc: Pc)
    requires id in s.requests && s.requests[id] == pc && pc.RemoveFile?
    ensures Enabled(s, Run(id, 0)) && Next(s, Run(id, 0)) == RunRemoveFile(s, id, pc)
    ensures RunRemoveFile(s, id, pc).requests[id] == RemoveRow(pc.page, pc.todo, pc.whole)
  {
  }

  lemma RemoveRowStep(s: State, id: RequestId, n: PageNumber, todo: set<PageNumber>, whole: bool)
    requires id in s.requests && s.requests[id] == RemoveRow(n, todo, whole)
    ensures Enabled(s, Run(id, 0)) && Next(s, Run(id, 0)) == RunRemoveRow(s, id, n, todo, whole)
    ensures RunRemoveRow(s, id, n, todo, whole).requests[id] == CheckPages(todo, whole)
  {
  }

  /** What follows the check of a page delete that is not refused: find, remove the file, remove
      the row. */
  lemma DeleteFoundPage(s: State, id: RequestId, n: PageNumber, todo: set<PageNumber>, whole: bool)
    returns (labels: seq<Label>, s': State)
    requires id in s.requests && s.requests[id] == FindPage(n, todo, whole) && !Closed(RowsOf(s))
    ensures Play(s, labels) == Some(s') && id in s'.requests && s'.requests[id] == CheckPages(todo, whole)
    ensures RowsOf(s') == PageDeleted(RowsOf(s), n)
  {
    var run, pc := Run(id, 0), AfterFinding(s, n, todo, whole);
    FindStep(s, id, n, todo, whole);
    PlayMore(s, [], s, run);
    labels, s' := [] + [run], Goto(s, id, pc);
    if pc.RemoveFile? {
      RemoveFileStep(s', id, pc);
      PlayMore(s, labels, s', run);
      var s2 := RunRemoveFile(s', id, pc);
      RemoveRowStep(s2, id, n, todo, whole);
      PlayMore(s, labels + [run], s2, run);
      labels, s' := labels + [run] + [run], RunRemoveRow(s2, id, n, todo, whole);
      FileAndRowGone(s, id, n, todo, whole, pc.file);
    }
  }

  lemma FileAndRowGone(s: State, id: RequestId, n: PageNumber, todo: set<PageNumber>, whole: bool, file: Option<ObjectKey>)
    requires !Closed(RowsOf(s)) && (if n == 0 then file == None else n in s.pages && file == s.pages[n].file)
    ensures var pc := RemoveFile(n, todo, whole, file);
      RowsOf(RunRemoveRow(RunRemoveFile(Goto(s, id, pc), id, pc), id, n, todo, whole)) == PageDeleted(RowsOf(s), n)
  {
  }

  /** One page of a delete that nobody interrupts, from its check to its row. */
  lemma DeletePageAlone(s: State, id: RequestId, n: PageNumber, todo: set<PageNumber>, whole: bool)
    returns (labels: seq<Label>, s': State)
    requires id in s.requests && s.requests[id] == CheckPages(todo, whole) && n in todo && !Closed(RowsOf(s))
    ensures Play(s, labels) == Some(s') && id in s'.requests && s'.requests[id] == CheckPages(todo - {n}, whole)
    ensures RowsOf(s') == PageDeleted(RowsOf(s), n)
  {
    var check := Run(id, n);
    ReadStep(s, id, CheckPages(todo, whole), n);
    PlayMore(s, [], s, check);
    assert [] + [check] == [check];
    var s1 := Goto(s, id, FindPage(n, todo - {n}, whole));
    var rest, s2 := DeleteFoundPage(s1, id, n, todo - {n}, whole);
    PlayThen(s, [check], s1, rest, s2);
    labels, s' := [check] + rest, s2;
  }

  /** A page delete that nobody interrupts changes the rows and files as the method does. */
  lemma AloneDeletePageAgrees(s: State, id: RequestId, n: PageNumber) returns (labels: seq<Label>, s': State)
    requires id in s.requests && s.requests[id] == CheckPages({n}, false)
    ensures Play(s, labels) == Some(s') && id in s'.requests && s'.requests[id] == Idle
    ensures RowsOf(s') == PageDeleted(RowsOf(s), n)
  {
    if AnySubmitted(s) {
      ReadStep(s, id, CheckPages({n}, false), n);
      PlayMore(s, [], s, Run(id, n));
      labels, s' := [] + [Run(id, n)], Goto(s, id, Idle);
    } else {
      var first, s1 := DeletePageAlone(s, id, n, {n}, false);
      assert {n} - {n} == {};
      ReadStep(s1, id, CheckPages({}, false), 0);
      PlayMore(s, first, s1, Run(id, 0));
      labels, s' := first + [Run(id, 0)], Goto(s1, id, Idle);
    }
  }

  function Listed(rows: Rows): set<PageNumber> {
    rows.pages.Keys + if rows.metadata.Row? && !rows.metadata.whole then {0} else {}
  }

  /** Deleting one listed page leaves the others to be deleted, to the same end. */
  lemma OneLessToDelete(rows: Rows, n: PageNumber)
    requires !Closed(rows) && 0 !in rows.pages && n in Listed(rows)
    ensures var rest := PageDeleted(rows, n);
      && !Closed(rest) && 0 !in rest.pages && Listed(rest) == Listed(rows) - {n} && BuildDeleted(rest) == BuildDeleted(rows)
  {
    var rest := PageDeleted(rows, n);
    if n != 0 {
      assert forall m :: m in rest.pages <==> m in rows.pages && m != n;
      forall k ensures k in BuildDeleted(rest).files <==> k in BuildDeleted(rows).files {
      }
    }
  }

  lemma {:induction false} DeletePagesAlone(s: State, id: RequestId, todo: set<PageNumber>)
    returns (labels: seq<Label>, s': State)
    requires id in s.requests && s.requests[id] == CheckPages(todo, true)
    requires !Closed(RowsOf(s)) && 0 !in s.pages && todo == Listed(RowsOf(s))
    ensures Play(s, labels) == Some(s') && id in s'.requests && s'.requests[id] == CheckPages({}, true)
    ensures Listed(RowsOf(s')) == {} && BuildDeleted(RowsOf(s')) == BuildDeleted(RowsOf(s)) && !Closed(RowsOf(s'))
    decreases |todo|
  {
    if todo == {} {
      labels, s' := [], s;
    } else {
      var n :| n in todo;
      OneLessToDelete(RowsOf(s), n);
      var first, s1 := DeletePageAlone(s, id, n, todo, true);
      var rest, s2 := DeletePagesAlone(s1, id, todo - {n});
      PlayThen(s, first, s1, rest, s2);
      labels, s' := first + rest, s2;
    }
  }

  lemma RemoveMetadataStep(s: State, id: RequestId)
    requires id in s.requests && s.requests[id] == RemoveMetadata
    ensures Enabled(s, Run(id, 0)) && Next(s, Run(id, 0)) == Goto(WithoutMetadata(s), id, Idle)
  {
  }

  lemma NothingLeft(rows: Rows)
    requires Listed(rows) == {} && !Closed(rows)
    ensures BuildDeleted(rows) == rows.(metadata := Missing)
  {
    assert rows.pages.Keys == {};
    assert rows.pages == map[];
  }

  /** A delete of the whole build that nobody interrupts changes the rows and files as the method
      does, whatever the order of its pages. No page row is ever numbered 0. */
  lemma AloneDeleteBuildAgrees(s: State, id: RequestId) returns (labels: seq<Label>, s': State)
    requires id in s.requests && s.requests[id] == CheckBuild && 0 !in s.pages
    ensures Play(s, labels) == Some(s') && id in s'.requests && s'.requests[id] == Idle
    ensures RowsOf(s') == BuildDeleted(RowsOf(s))
  {
    var run := Run(id, 0);
    ReadStep(s, id, CheckBuild, 0);
    PlayMore(s, [], s, run);
    if AnySubmitted(s) {
      labels, s' := [] + [run], Goto(s, id, Idle);
    } else {
      var s1 := Goto(s, id, ListPages);
      ReadStep(s1, id, ListPages, 0);
      PlayMore(s, [] + [run], s1, run);
      var s2 := Goto(s1, id, AfterReading(s1, ListPages, 0));
      labels, s' := [] + [run] + [run], s2;
      if s2.requests[id] == Idle {
        NothingLeft(RowsOf(s));
      } else {
        var rest, s3 := ListedAndMetadataGone(s2, id);
        PlayThen(s, labels, s2, rest, s3);
        labels, s' := labels + rest, s3;
      }
    }
  }

  lemma ListedAndMetadataGone(s: State, id: RequestId) returns (labels: seq<Label>, s': State)
    requires id in s.requests && s.requests[id] == CheckPages(Listed(RowsOf(s)), true)
    requires !Closed(RowsOf(s)) && 0 !in s.pages
    ensures Play(s, labels) == Some(s') && id in s'.requests && s'.requests[id] == Idle
    ensures RowsOf(s') == BuildDeleted(RowsOf(s))
  {
    var run := Run(id, 0);
    var pages, s1 := DeletePagesAlone(s, id, Listed(RowsOf(s)));
    ReadStep(s1, id, CheckPages({}, true), 0);
    PlayMore(s, pages, s1, run);
    var s2 := Goto(s1, id, RemoveMetadata);
    RemoveMetadataStep(s2, id);
    PlayMore(s, pages + [run], s2, run);
    labels, s' := pages + [run] + [run], Goto(WithoutMetadata(s2), id, Idle);
    NothingLeft(RowsOf(s1));
  }

  lemma PlayLast(s: State, labels: seq<Label>, s': State) returns (before: State)
    requires labels != [] && Play(s, labels) == Some(s')
    ensures var last := labels[|labels| - 1];
      Play(s, labels[..|labels| - 1]) == Some(before) && Enabled(before, last) && Next(before, last) == s'
  {
    before := Play(s, labels[..|labels| - 1]).value;
  }

  lemma {:induction false} PlayThen(start: State, labels: seq<Label>, s: State, more: seq<Label>, s': State)
    requires Play(start, labels) == Some(s) && Play(s, more) == Some(s')
    ensures Play(start, labels + more) == Some(s')
    decreases |more|
  {
    if more == [] {
      assert labels + more == labels;
    } else {
      var init, last := more[..|more| - 1], more[|more| - 1];
      var before := PlayLast(s, more, s');
      PlayThen(start, labels, s, init, before);
      PlayMore(start, labels + init, before, last);
      assert labels + more == labels + init + [last];
    }
  }
}
