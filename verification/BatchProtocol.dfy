/** The documents of one batch, the batch row, and every process that writes
    them, as a transition system. Each DynamoDB call is one atomic step; any
    number of workers interleave between calls. */
module BatchProtocol {
  import opened Common
  import opened Processing

  type DocId = string
  type WorkerId = nat

  /** The next call a worker makes. */
  datatype Pc =
    | Idle
    | WriteTerminal(doc: DocId, status: ProcessStatus, queuesMetrics: bool)
    | SendMetrics(doc: DocId, thenIncrement: bool)
    | Increment(doc: DocId)
    | Requery
    | Finalize(verdict: BatchStatus)
    | Decide(doc: DocId, status: ProcessStatus)
    | Claim(doc: DocId, expected: ProcessStatus)
    | SetStarted(doc: DocId)
    | CheckDelete(doc: DocId)
    | MarkDeleted(doc: DocId)

  /** The status an initial upsert has chosen and not stored yet. */
  datatype Upsert = Upsert(doc: DocId, status: ProcessStatus)

  datatype Worker = Worker(pc: Pc, store: Option<Upsert>)

  /** Where the upload request that created the batch is. */
  datatype Request = Uploads | Opened | Returned

  /** What has happened so far. No step reads it.
      outcome: the first status each document was decided on;
      events: every decision; repeats: decisions on a document already decided;
      uncredited: decisions that owe no increment; bumped and dropped: increments
      that landed and that did not; metrics: messages queued;
      reached: increments that saw the total; verdicts: statuses the batch was finalised with. */
  datatype History = History(
    outcome: map<DocId, ProcessStatus>,
    events: multiset<DocId>,
    repeats: multiset<DocId>,
    uncredited: multiset<DocId>,
    bumped: multiset<DocId>,
    dropped: multiset<DocId>,
    metrics: multiset<DocId>,
    reached: nat,
    verdicts: seq<BatchStatus>)

  datatype State = State(
    files: set<DocId>,
    docs: map<DocId, ProcessStatus>,
    batch: BatchStatus,
    resolved: nat,
    request: Request,
    workers: map<WorkerId, Worker>,
    log: History)
  {
    function Total(): nat { |files| }
  }

  datatype Label =
    | Insert(doc: DocId, status: ProcessStatus)
    | OpenBatch
    | FailBatch
    | Return
    | Spawn(id: WorkerId, start: Pc)
    | Run(worker: WorkerId)
    | Fault(worker: WorkerId)

  function Initial(files: set<DocId>): State {
    State(files, map[], Uploading, 0, Uploads, map[],
          History(map[], multiset{}, multiset{}, multiset{}, multiset{}, multiset{}, multiset{}, 0, []))
  }

  /** Where a new worker may begin: classify_as_* and the reaper, the initial
      upsert, a claim, the STARTED write, a delete request. */
  predicate EntryPoint(s: State, pc: Pc) {
    match pc
    case WriteTerminal(d, st, _) => d in s.docs && !NonTerminal(st) && st != Deleted
    case Decide(d, st) => d in s.docs && st != Deleted
    case Claim(d, e) => d in s.docs && Claimable(e)
    case SetStarted(d) => d in s.docs
    case CheckDelete(d) => d in s.docs
    case _ => false
  }

  predicate Enabled(s: State, l: Label) {
    match l
    case Insert(d, st) => d in s.files && d !in s.docs && NonTerminal(st)
    case OpenBatch => s.request == Uploads && s.docs.Keys == s.files
    case FailBatch => s.request != Returned
    case Return => s.request != Returned
    case Spawn(id, pc) => id !in s.workers && EntryPoint(s, pc)
    case Run(w) => w in s.workers && s.workers[w] != Worker(Idle, None) && Addresses(s, w)
    case Fault(w) => w in s.workers && (s.workers[w].pc.SendMetrics? || s.workers[w].pc.Increment? ||
                                        s.workers[w].pc.Requery? || s.workers[w].pc.Finalize?)
  }

  /** The rows a worker's next call names exist; it was spawned for one of them. */
  predicate Addresses(s: State, w: WorkerId)
    requires w in s.workers
  {
    var worker := s.workers[w];
    match worker.pc
    case WriteTerminal(d, _, _) => d in s.docs
    case Decide(d, _) => d in s.docs
    case Claim(d, _) => d in s.docs
    case SetStarted(d) => d in s.docs
    case CheckDelete(d) => d in s.docs
    case MarkDeleted(d) => d in s.docs
    case Idle => worker.store.Some? && worker.store.value.doc in s.docs
    case _ => true
  }

  function Goto(s: State, w: WorkerId, pc: Pc): State
    requires w in s.workers
  {
    s.(workers := s.workers[w := s.workers[w].(pc := pc)])
  }

  function Decided(h: History, d: DocId, st: ProcessStatus, credited: bool): History {
    h.(outcome := if d in h.outcome then h.outcome else h.outcome[d := st],
       events := h.events + multiset{d},
       repeats := if d in h.outcome then h.repeats + multiset{d} else h.repeats,
       uncredited := if credited then h.uncredited else h.uncredited + multiset{d})
  }

  /** The jobs a re-query counts as failed. */
  function FailedDocs(s: State): set<DocId> {
    set d | d in s.docs && CountsAsFailed(s.docs[d])
  }

  function RunWriteTerminal(s: State, w: WorkerId, d: DocId, st: ProcessStatus, queuesMetrics: bool): State
    requires w in s.workers && d in s.docs
  {
    if NonTerminal(s.docs[d]) then
      Goto(s.(docs := s.docs[d := st], log := Decided(s.log, d, st, true)), w,
           if queuesMetrics then SendMetrics(d, true) else Increment(d))
    else
      Goto(s, w, Idle)
  }

  function RunIncrement(s: State, w: WorkerId, d: DocId): State
    requires w in s.workers
  {
    if s.batch != Processing then
      Goto(s.(log := s.log.(dropped := s.log.dropped + multiset{d})), w, Idle)
    else if s.resolved + 1 < s.Total() then
      Goto(s.(resolved := s.resolved + 1, log := s.log.(bumped := s.log.bumped + multiset{d})), w, Idle)
    else
      Goto(s.(resolved := s.resolved + 1,
              log := s.log.(bumped := s.log.bumped + multiset{d}, reached := s.log.reached + 1)), w, Requery)
  }

  function RunFinalize(s: State, w: WorkerId, verdict: BatchStatus): State
    requires w in s.workers
  {
    if s.batch == Processing then
      Goto(s.(batch := verdict, log := s.log.(verdicts := s.log.verdicts + [verdict])), w, Idle)
    else
      Goto(s, w, Idle)
  }

  function RunDecide(s: State, w: WorkerId, d: DocId, st: ProcessStatus): State
    requires w in s.workers
  {
    var s' := if CreditedEarly(st) then s.(log := Decided(s.log, d, st, true)) else s;
    var pc := if CreditedEarly(st) then Increment(d) else Idle;
    s'.(workers := s'.workers[w := Worker(pc, Some(Upsert(d, st)))])
  }

  function RunStore(s: State, w: WorkerId, d: DocId, st: ProcessStatus): State
    requires w in s.workers
  {
    var pc := if NonTerminal(st) then Idle else SendMetrics(d, false);
    var log := if NonTerminal(st) || CreditedEarly(st) then s.log else Decided(s.log, d, st, false);
    s.(docs := s.docs[d := st], log := log, workers := s.workers[w := Worker(pc, None)])
  }

  function RunWorker(s: State, w: WorkerId): State
    requires Enabled(s, Run(w))
  {
    match s.workers[w].pc
    case WriteTerminal(d, st, q) => RunWriteTerminal(s, w, d, st, q)
    case SendMetrics(d, inc) =>
      Goto(s.(log := s.log.(metrics := s.log.metrics + multiset{d})), w, if inc then Increment(d) else Idle)
    case Increment(d) => RunIncrement(s, w, d)
    case Requery => Goto(s, w, Finalize(Verdict(|FailedDocs(s)|, s.Total())))
    case Finalize(v) => RunFinalize(s, w, v)
    case Decide(d, st) => RunDecide(s, w, d, st)
    case Claim(d, e) => Goto(if s.docs[d] == e then s.(docs := s.docs[d := Started]) else s, w, Idle)
    case SetStarted(d) => Goto(s.(docs := s.docs[d := Started]), w, Idle)
    case CheckDelete(d) =>
      Goto(s, w, if s.docs[d] != Deleted && IsClassified(s.docs[d]) then MarkDeleted(d) else Idle)
    case MarkDeleted(d) => Goto(s.(docs := s.docs[d := Deleted]), w, Idle)
    case Idle => RunStore(s, w, s.workers[w].store.value.doc, s.workers[w].store.value.status)
  }

  /** A call that fails where the source swallows the exception. */
  function FaultWorker(s: State, w: WorkerId): State
    requires Enabled(s, Fault(w))
  {
    match s.workers[w].pc
    case SendMetrics(d, inc) => Goto(s, w, if inc then Increment(d) else Idle)
    case Increment(d) => Goto(s.(log := s.log.(dropped := s.log.dropped + multiset{d})), w, Idle)
    case _ => Goto(s, w, Idle)
  }

  function Next(s: State, l: Label): State
    requires Enabled(s, l)
  {
    match l
    case Insert(d, st) => s.(docs := s.docs[d := st])
    case OpenBatch => s.(batch := Processing, request := Opened)
    case FailBatch => s.(batch := BatchFailed, request := Returned)
    case Return => s.(request := Returned)
    case Spawn(id, pc) => s.(workers := s.workers[id := Worker(pc, None)])
    case Run(w) => RunWorker(s, w)
    case Fault(w) => FaultWorker(s, w)
  }

  /** states[i] --labels[i]--> states[i + 1], from an empty batch of at least one file. */
  ghost predicate IsRun(states: seq<State>, labels: seq<Label>) {
    && |states| == |labels| + 1
    && states[0] == Initial(states[0].files)
    && states[0].files != {}
    && forall i {:trigger labels[i]} :: 0 <= i < |labels| ==>
         Enabled(states[i], labels[i]) && states[i + 1] == Next(states[i], labels[i])
  }
}
