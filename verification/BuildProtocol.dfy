/** The rows of one multi-page build and the requests that read and write them, as a
    transition system. Each DynamoDB or S3 call is one atomic step; any number of requests
    interleave between calls. */
module BuildProtocol {
  import opened Common

  type RequestId = nat
  type PageNumber = nat

  const MAX_PAGES_PER_BUILD := 50

  /** Page 0. A row that an update recreates after a delete is not whole: it has no tenant,
      no metadata flag and no consent flag. */
  datatype Metadata = Missing | Row(whole: bool, declined: bool, submitted: bool)

  datatype ObjectKey = ObjectKey(page: PageNumber, extension: string)

  datatype Page = Page(owner: Option<RequestId>, file: Option<ObjectKey>, category: Option<string>, stamped: bool)

  datatype Upload = Upload(extension: string, category: Option<string>, overwrite: bool)

  /** The next call a request makes. */
  datatype Pc =
    | Idle
    | Authorize(next: Pc)
    // submit
    | ReadConsent | RecordDeclined | ReadPages | Lock | QueryStamps | Stamp(todo: set<PageNumber>)
    | Prepare | UploadMerged | Rollback
    // delete
    | CheckBuild | ListPages | CheckPages(todo: set<PageNumber>, whole: bool)
    | FindPage(page: PageNumber, todo: set<PageNumber>, whole: bool)
    | RemoveFile(page: PageNumber, todo: set<PageNumber>, whole: bool, file: Option<ObjectKey>)
    | RemoveRow(page: PageNumber, todo: set<PageNumber>, whole: bool)
    | RemoveMetadata
    // add a page
    | Allocate(number: Option<PageNumber>, upload: Upload)
    | PutFile(page: PageNumber, upload: Upload)
    | PutRow(page: PageNumber, upload: Upload)

  /** What happened to a page file: a request stored its bytes, or a delete removed it. */
  datatype FileEvent = Stored(key: ObjectKey, writer: RequestId) | Dropped(key: ObjectKey)

  /** What has happened so far. No step reads it.
      granted: submits that took the lock; released: those of them that cleared it;
      uploaded: those whose merged document reached S3; succeeded: those that said so;
      abandoned: those that failed and left the lock set; lost: deletes of a metadata row
      that carried the lock; created: page numbers of successful create-only uploads;
      removed and replaced: page rows deleted and overwritten; filesRemoved: deleted files;
      fileEvents: what happened to the page files, in order; stampedPages: the pages stamped
      and not replaced or removed since. */
  datatype History = History(
    granted: set<RequestId>,
    released: set<RequestId>,
    uploaded: set<RequestId>,
    succeeded: set<RequestId>,
    abandoned: set<RequestId>,
    declined: set<RequestId>,
    lost: nat,
    metadataRemoved: nat,
    created: map<RequestId, PageNumber>,
    removed: multiset<PageNumber>,
    replaced: multiset<PageNumber>,
    filesRemoved: nat,
    fileEvents: seq<FileEvent>,
    stampedPages: set<PageNumber>)

  datatype State = State(
    metadata: Metadata,
    pages: map<PageNumber, Page>,
    files: map<ObjectKey, RequestId>,
    requests: map<RequestId, Pc>,
    log: History)

  datatype Label =
    | Arrive(id: RequestId, start: Pc)
    | Run(id: RequestId, pick: PageNumber)
    | Fail(id: RequestId, pick: PageNumber, landed: bool)

  /** A build just created by create_document_build. */
  function Created(declined: bool): State {
    State(Row(true, declined, false), map[], map[], map[],
          History({}, {}, {}, {}, {}, {}, 0, 0, map[], multiset{}, multiset{}, 0, [], {}))
  }

  /** Every endpoint first checks the tenant against the metadata row. A page number given
      to an upload is at least 1, one given to a delete is not checked. */
  predicate EntryPoint(pc: Pc) {
    pc.Authorize? &&
    match pc.next
    case ReadConsent => true
    case CheckBuild => true
    case CheckPages(todo, whole) => |todo| == 1 && !whole
    case Allocate(number, _) => number.Some? ==> number.value >= 1
    case _ => false
  }

  function Submitted(m: Metadata): bool { m.Row? && m.submitted }

  /** is_document_build_submitted: any row of the build carries the attribute. */
  predicate AnySubmitted(s: State) {
    Submitted(s.metadata) || exists n :: n in s.pages && s.pages[n].stamped
  }

  /** get_document_build_pages: every row without the metadata flag. */
  function ListedPages(s: State): set<PageNumber> {
    s.pages.Keys + if s.metadata.Row? && !s.metadata.whole then {0} else {}
  }

  predicate MixedCategories(s: State) {
    exists n, m :: n in s.pages && m in s.pages && s.pages[n].category.Some? && s.pages[m].category.Some?
                && s.pages[n].category != s.pages[m].category
  }

  function MaxOf(numbers: set<PageNumber>): (m: PageNumber)
    ensures forall n :: n in numbers ==> n <= m
    ensures numbers != {} ==> m in numbers
    ensures numbers == {} ==> m == 0
  {
    if numbers == {} then 0
    else
      Bounded(numbers);
      var m :| m in numbers && forall n :: n in numbers ==> n <= m;
      m
  }

  lemma {:induction false} Bounded(numbers: set<PageNumber>)
    requires numbers != {}
    ensures exists m :: m in numbers && forall n :: n in numbers ==> n <= m
  {
    var m :| m in numbers;
    if forall n :: n in numbers ==> n <= m {
    } else {
      var rest := numbers - {m};
      var larger :| larger in numbers && m < larger;
      assert larger in rest;
      Bounded(rest);
      var top :| top in rest && forall n :: n in rest ==> n <= top;
      assert larger <= top;
      assert forall n :: n in numbers ==> n in rest || n == m;
      assert top in numbers && forall n :: n in numbers ==> n <= top;
    }
  }

  predicate Enabled(s: State, l: Label) {
    match l
    case Arrive(id, pc) => id !in s.requests && EntryPoint(pc)
    case Run(id, pick) => Ready(s, id, pick)
    case Fail(id, pick, _) => Ready(s, id, pick)
  }

  /** The request has a call to make; one that works through pages picks one of them. */
  predicate Ready(s: State, id: RequestId, pick: PageNumber) {
    && id in s.requests && s.requests[id] != Idle
    && (s.requests[id].Stamp? && s.requests[id].todo != {} ==> pick in s.requests[id].todo)
    && (s.requests[id].CheckPages? && s.requests[id].todo != {} ==> pick in s.requests[id].todo)
  }

  function Goto(s: State, id: RequestId, pc: Pc): State {
    s.(requests := s.requests[id := pc])
  }

  /** The conditional SET of submittedAt; it creates the row when there is none. */
  function RunLock(s: State, id: RequestId): State {
    if Submitted(s.metadata) then Goto(s, id, Idle)
    else
      var m := if s.metadata.Row? then s.metadata.(submitted := true) else Row(false, false, true);
      Goto(s.(metadata := m, log := s.log.(granted := s.log.granted + {id})), id, QueryStamps)
  }

  /** Stamping is unconditional: a page deleted since the query comes back as a bare row. */
  function RunStamp(s: State, id: RequestId, todo: set<PageNumber>, n: PageNumber): State {
    if todo == {} then Goto(s, id, Prepare)
    else
      var page := if n in s.pages then s.pages[n].(stamped := true) else Page(None, None, None, true);
      Goto(s.(pages := s.pages[n := page], log := s.log.(stampedPages := s.log.stampedPages + {n})), id, Stamp(todo - {n}))
  }

  function RunUploadMerged(s: State, id: RequestId): State {
    Goto(s.(log := s.log.(uploaded := s.log.uploaded + {id}, succeeded := s.log.succeeded + {id})), id, Idle)
  }

  /** The unconditional REMOVE of submittedAt; it creates the row when there is none. */
  function RunRollback(s: State, id: RequestId): State {
    var m := if s.metadata.Row? then s.metadata.(submitted := false) else Row(false, false, false);
    Goto(s.(metadata := m, log := s.log.(released := s.log.released + {id})), id, Idle)
  }

  function WithoutMetadata(s: State): State {
    s.(metadata := Missing,
       log := s.log.(lost := s.log.lost + if Submitted(s.metadata) then 1 else 0,
                     metadataRemoved := s.log.metadataRemoved + 1))
  }

  function RunRemoveFile(s: State, id: RequestId, pc: Pc): State
    requires pc.RemoveFile?
  {
    var s' := if pc.file.None? then s
              else s.(files := s.files - {pc.file.value},
                      log := s.log.(filesRemoved := s.log.filesRemoved + 1,
                                    fileEvents := s.log.fileEvents + [Dropped(pc.file.value)]));
    Goto(s', id, RemoveRow(pc.page, pc.todo, pc.whole))
  }

  function RunRemoveRow(s: State, id: RequestId, n: PageNumber, todo: set<PageNumber>, whole: bool): State {
    var s' := if n == 0 then WithoutMetadata(s)
              else s.(pages := s.pages - {n},
                      log := s.log.(removed := s.log.removed + multiset{n}, stampedPages := s.log.stampedPages - {n}));
    Goto(s', id, CheckPages(todo, whole))
  }

  /** The bytes go to a path made of the build, the page number and the extension, before
      the page row is written. */
  function RunPutFile(s: State, id: RequestId, n: PageNumber, upload: Upload): State {
    var key := ObjectKey(n, upload.extension);
    Goto(s.(files := s.files[key := id], log := s.log.(fileEvents := s.log.fileEvents + [Stored(key, id)])),
         id, PutRow(n, upload))
  }

  function RunPutRow(s: State, id: RequestId, n: PageNumber, upload: Upload): State {
    var page := Page(Some(id), Some(ObjectKey(n, upload.extension)), upload.category, false);
    if upload.overwrite then
      Goto(s.(pages := s.pages[n := page],
              log := s.log.(replaced := s.log.replaced + multiset{n}, stampedPages := s.log.stampedPages - {n})), id, Idle)
    else if n in s.pages then Goto(s, id, Idle)
    else
      Goto(s.(pages := s.pages[n := page],
              log := s.log.(created := s.log.created[id := n], stampedPages := s.log.stampedPages - {n})), id, Idle)
  }

  predicate Writes(pc: Pc) {
    || pc.RecordDeclined? || pc.Lock? || pc.Stamp? || pc.UploadMerged? || pc.Rollback?
    || pc.RemoveFile? || pc.RemoveRow? || pc.RemoveMetadata? || pc.PutFile? || pc.PutRow?
  }

  function AfterFinding(s: State, n: PageNumber, todo: set<PageNumber>, whole: bool): Pc {
    if n == 0 && s.metadata.Row? then RemoveFile(n, todo, whole, None)
    else if n != 0 && n in s.pages then RemoveFile(n, todo, whole, s.pages[n].file)
    else CheckPages(todo, whole)
  }

  /** Where a request goes after a call that only reads. */
  function AfterReading(s: State, pc: Pc, pick: PageNumber): Pc {
    match pc
    case Authorize(next) => if s.metadata.Row? && s.metadata.whole then next else Idle
    case ReadConsent => if s.metadata.Row? && s.metadata.declined then RecordDeclined else ReadPages
    case ReadPages => if ListedPages(s) == {} || MixedCategories(s) then Idle else Lock
    case QueryStamps => Stamp(s.pages.Keys)
    case Prepare => UploadMerged
    case CheckBuild => if AnySubmitted(s) then Idle else ListPages
    case ListPages => if ListedPages(s) == {} && s.metadata.Missing? then Idle else CheckPages(ListedPages(s), true)
    case CheckPages(todo, whole) =>
      if todo == {} then (if whole then RemoveMetadata else Idle)
      else if AnySubmitted(s) then Idle
      else FindPage(pick, todo - {pick}, whole)
    case FindPage(n, todo, whole) => AfterFinding(s, n, todo, whole)
    case Allocate(number, upload) =>
      if |ListedPages(s)| >= MAX_PAGES_PER_BUILD then Idle
      else PutFile(if number.Some? then number.value else MaxOf(ListedPages(s)) + 1, upload)
    case _ => Idle
  }

  function RunWrite(s: State, id: RequestId, pc: Pc, pick: PageNumber): State
    requires Writes(pc)
  {
    match pc
    case RecordDeclined => Goto(s.(log := s.log.(declined := s.log.declined + {id})), id, Idle)
    case Lock => RunLock(s, id)
    case Stamp(todo) => RunStamp(s, id, todo, pick)
    case UploadMerged => RunUploadMerged(s, id)
    case Rollback => RunRollback(s, id)
    case RemoveFile(_, _, _, _) => RunRemoveFile(s, id, pc)
    case RemoveRow(n, todo, whole) => RunRemoveRow(s, id, n, todo, whole)
    case RemoveMetadata => Goto(WithoutMetadata(s), id, Idle)
    case PutFile(n, upload) => RunPutFile(s, id, n, upload)
    case PutRow(n, upload) => RunPutRow(s, id, n, upload)
  }

  function RunRequest(s: State, id: RequestId, pick: PageNumber): State
    requires Enabled(s, Run(id, pick))
  {
    var pc := s.requests[id];
    if Writes(pc) then RunWrite(s, id, pc, pick) else Goto(s, id, AfterReading(s, pc, pick))
  }

  /** The submit holds the lock and has neither released nor abandoned it. */
  predicate Holding(pc: Pc) { pc.QueryStamps? || pc.Stamp? || pc.Prepare? || pc.UploadMerged? || pc.Rollback? }

  /** The request ends with an error: what its last call did stays done, but is not reported
      as a success, and a lock it holds stays set. */
  function Aborted(s: State, before: State, id: RequestId): State {
    Goto(s.(log := s.log.(abandoned := s.log.abandoned + {id} * (s.log.granted - s.log.released),
                          succeeded := before.log.succeeded, created := before.log.created)), id, Idle)
  }

  /** A call raises, before it took effect or after. While preparing, the submit goes on to its
      rollback. Every other error ends the request: an upload that fails is re-raised as an
      HTTP error before the rollback, and a failed stamp or rollback has nothing behind it. */
  function FailRequest(s: State, id: RequestId, pick: PageNumber, landed: bool): State
    requires Enabled(s, Fail(id, pick, landed))
  {
    var pc := s.requests[id];
    if pc.Prepare? then Goto(s, id, Rollback)
    else Aborted(if landed && Writes(pc) then RunWrite(s, id, pc, pick) else s, s, id)
  }

  function Next(s: State, l: Label): State
    requires Enabled(s, l)
  {
    match l
    case Arrive(id, pc) => Goto(s, id, pc)
    case Run(id, pick) => RunRequest(s, id, pick)
    case Fail(id, pick, landed) => FailRequest(s, id, pick, landed)
  }

  /** The state after a sequence of steps, if each was enabled. */
  function Play(start: State, labels: seq<Label>): Option<State> {
    if labels == [] then Some(start)
    else
      var before := Play(start, labels[..|labels| - 1]);
      if before.Some? && Enabled(before.value, labels[|labels| - 1])
      then Some(Next(before.value, labels[|labels| - 1]))
      else None
  }
}
