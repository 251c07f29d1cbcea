/** Document and batch statuses, and the predicates over them that the
    conditional writes are built from. */
module Processing {

  datatype ProcessStatus =
    | AiConsentDeclined
    | BlurryDocumentDetected
    | ConversionFailed
    | Deleted
    | ExcludedPerPreclassification
    | Failed
    | MultipleDocumentsInMultipage
    | MultipleDocumentsOnSinglePage
    | NoCustomBlueprintMatched
    | NoDocumentDetected
    | NotImplemented
    | NotStarted
    | PasswordProtected
    | PendingImageOptimization
    | PendingUpload
    | BlueprintDisabled
    | ProcessingExcluded
    | Started
    | Success
    | TimedOut

  datatype BatchStatus = Uploading | Processing | Completed | Partial | BatchFailed

  /** The statuses a guarded terminal write may leave. */
  predicate NonTerminal(status: ProcessStatus) {
    match status
    case Started | NotStarted | PendingUpload | PendingImageOptimization => true
    case _ => false
  }

  /** The two lists are written out separately in the source. They are
      complements: what the delete endpoint and the metrics queue call
      "classified" is exactly what the conditional write calls terminal. */
  predicate IsClassified(status: ProcessStatus)
    ensures IsClassified(status) <==> !NonTerminal(status)
  {
    match status
    case AiConsentDeclined | BlueprintDisabled | BlurryDocumentDetected | ConversionFailed => true
    case Deleted | Failed | MultipleDocumentsInMultipage | MultipleDocumentsOnSinglePage => true
    case NoCustomBlueprintMatched | NoDocumentDetected | NotImplemented => true
    case ExcludedPerPreclassification | PasswordProtected | ProcessingExcluded | Success | TimedOut => true
    case _ => false
  }

  /** Statuses a document may be claimed from. */
  predicate Claimable(status: ProcessStatus) {
    status.PendingImageOptimization? || status.NotStarted? || status.PendingUpload?
  }

  /** Statuses the initial upsert credits to the batch counter before it stores them. */
  predicate CreditedEarly(status: ProcessStatus) {
    status.PasswordProtected? || status.ProcessingExcluded?
  }

  /** Statuses that count as failures when a batch is finalised. */
  predicate CountsAsFailed(status: ProcessStatus) {
    status.Failed? || status.TimedOut?
  }

  /** The batch status chosen once every job is resolved. */
  function Verdict(failed: nat, total: nat): BatchStatus {
    if failed == 0 then Completed else if failed == total then BatchFailed else Partial
  }
}
