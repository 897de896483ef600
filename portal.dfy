/**
 * The request flow of the compliance portal (final.py): a query is checked
 * for blankness, its category detected, the dataset fetched, the table
 * checked for emptiness, the hosted classifier asked for a verdict, the
 * audit row built and the session history extended — each step only if the
 * previous one succeeded.
 *
 * External services are parameters: the approximate matcher, the storage
 * bucket and the classifier (which answers a validated verdict, a reply that
 * failed schema validation, or raises). The warehouse insert reports a list
 * of errors or raises. Neither the classifier call nor the insert is guarded,
 * so an exception from either stops the run where it is raised. The clock
 * readings are strings.
 */
module Portal {
  import opened Wrappers
  import opened Text
  import opened Categories
  import opened Storage
  import opened Requests

  /** Audit text fields are cut to this many characters. */
  const MaxLength: nat := 255

  /** The requester id every request is logged under. */
  const DefaultRequesterId: int := 123456

  /** The schema-validated verdict of the hosted classifier. */
  datatype Classification = Classification(
    classification: string,
    impactCategory: string,
    impactLevel: string,
    excludedColumns: seq<string>,
    justification: string,
    ndmoReference: string,
    safeDataset: seq<map<string, string>>)

  /** One row of the audit table. */
  datatype AuditRow = AuditRow(
    requestId: int,
    requester: int,
    classification: string,
    requestTime: string,
    decisionTime: string,
    decision: string,
    requestedData: string)

  /** One entry of the session's request history. */
  datatype HistoryEntry = HistoryEntry(
    requestId: int,
    requester: int,
    category: Category,
    classification: string,
    justification: string,
    timestamp: string)

  /** What the hosted classifier does: a validated verdict, a reply that fails validation, or an exception. */
  datatype ClassifierReply = Verdict(result: Classification) | Unvalidated | CallFailed(error: string)

  /** The services a request consults. */
  datatype Services = Services(
    closeMatch: string -> Option<Category>,
    bucket: string -> Download,
    classify: Table -> ClassifierReply)

  /** How a press of the send button ends. */
  datatype Outcome =
    | BlankQuery
    | CategoryUnknown
    | FetchFailed(status: string)
    | ClassificationFailed
      /** The classifier call raised: the run stops there. */
    | ClassifierAborted(error: string)
      /** The verdict was shown, then the insert raised: the run stops before the history append. */
    | LoggingAborted(result: Classification, row: AuditRow, error: string)
    | Completed(result: Classification, row: AuditRow, logErrors: seq<string>, entry: HistoryEntry)
  {
    /** The classifier was called. */
    predicate ReachedClassifier() {
      ClassificationFailed? || ClassifierAborted? || LoggingAborted? || Completed?
    }
  }

  /**
   * The audit row `log_request_to_bigquery` inserts: one clock reading for
   * both times, every text field cut to `MaxLength` characters.
   */
  function LogRow(requestId: int, requester: int, classification: string, justification: string,
                  requestedData: string, now: string): (row: AuditRow)
    ensures row.requestId == requestId && row.requester == requester
    ensures row.requestTime == now && row.decisionTime == row.requestTime
    ensures row.classification <= classification && |row.classification| <= MaxLength
    ensures row.decision <= justification && |row.decision| <= MaxLength
    ensures row.requestedData <= requestedData && |row.requestedData| <= MaxLength
    ensures |classification| <= MaxLength ==> row.classification == classification
    ensures |justification| <= MaxLength ==> row.decision == justification
    ensures |requestedData| <= MaxLength ==> row.requestedData == requestedData
    ensures |classification| > MaxLength ==> |row.classification| == MaxLength
    ensures |justification| > MaxLength ==> |row.decision| == MaxLength
    ensures |requestedData| > MaxLength ==> |row.requestedData| == MaxLength
  {
    AuditRow(requestId, requester, Truncate(classification, MaxLength), now, now,
             Truncate(justification, MaxLength), Truncate(requestedData, MaxLength))
  }

  /** The category the query asks for: detection runs only on a non-blank query. */
  function RequestedCategory(userInput: string, svc: Services): Option<Category> {
    if IsBlank(userInput) then None else Detected(userInput, svc.closeMatch)
  }

  /** The query gets as far as the classifier: a category was found and its table is present and non-empty. */
  predicate ReachesClassifier(userInput: string, svc: Services) {
    var category := RequestedCategory(userInput, svc);
    category.Some? && FetchedRows(Label(category.value), svc.bucket)
  }

  /** The table handed to the classifier. */
  function ClassifiedTable(userInput: string, svc: Services): Table
    requires ReachesClassifier(userInput, svc)
  {
    FetchData(Label(RequestedCategory(userInput, svc).value), svc.bucket).table.value
  }

  /**
   * What one press of the send button does, as a function of the query and
   * the services' answers: each step runs only if the one before succeeded,
   * and a history entry is added only when the insert returned.
   */
  function Handle(userInput: string, svc: Services, requestId: int, now: string,
                  insert: InsertResult, historyTime: string): (o: Outcome)
    ensures o.BlankQuery? <==> IsBlank(userInput)
    ensures o.CategoryUnknown? <==> !IsBlank(userInput) && Detected(userInput, svc.closeMatch).None?
    ensures o.FetchFailed? <==> RequestedCategory(userInput, svc).Some? && !ReachesClassifier(userInput, svc)
    ensures o.FetchFailed? ==> o.status == FetchData(Label(RequestedCategory(userInput, svc).value), svc.bucket).status
    ensures o.ClassificationFailed? <==>
              ReachesClassifier(userInput, svc) && svc.classify(ClassifiedTable(userInput, svc)).Unvalidated?
    ensures o.ClassifierAborted? <==>
              ReachesClassifier(userInput, svc) && svc.classify(ClassifiedTable(userInput, svc)).CallFailed?
    ensures o.Completed? ==> insert == Inserted(o.logErrors) && RequestedCategory(userInput, svc) == Some(o.entry.category)
  {
    if IsBlank(userInput) then BlankQuery
    else match Detected(userInput, svc.closeMatch)
      case None => CategoryUnknown
      case Some(c) =>
        var fetched := FetchData(Label(c), svc.bucket);
        if !FetchedRows(Label(c), svc.bucket) then FetchFailed(fetched.status)
        else match svc.classify(fetched.table.value)
          case Unvalidated => ClassificationFailed
          case CallFailed(error) => ClassifierAborted(error)
          case Verdict(res) =>
            var row := LogRow(requestId, DefaultRequesterId, res.classification, res.justification, Label(c), now);
            match insert
            case InsertRaised(message) => LoggingAborted(res, row, message)
            case Inserted(errors) =>
              Completed(res, row, errors,
                        HistoryEntry(requestId, DefaultRequesterId, c, res.classification, res.justification, historyTime))
  }

  /** The history entries an outcome adds: one for a completed request, none otherwise. */
  function Added(outcome: Outcome): seq<HistoryEntry> {
    if outcome.Completed? then [outcome.entry] else []
  }

  /** One browser session: its request history, only ever appended to. */
  class Session {
    var history: seq<HistoryEntry>

    constructor ()
      ensures history == []
    {
      history := [];
    }

    /** Handle one press of the send button. */
    method SendQuery(userInput: string, svc: Services, requestId: int, now: string,
                     insert: InsertResult, historyTime: string) returns (outcome: Outcome)
      modifies this
      ensures outcome == Handle(userInput, svc, requestId, now, insert, historyTime)
      ensures history == old(history) + Added(outcome)
    {
      if IsBlank(userInput) {
        return BlankQuery;
      }
      var category := DetectCategory(userInput, svc.closeMatch);
      if category.None? {
        return CategoryUnknown;
      }
      var c := category.value;
      var fetched := FetchData(Label(c), svc.bucket);
      if fetched.table.None? || fetched.table.value.IsEmpty() {
        return FetchFailed(fetched.status);
      }
      var reply := svc.classify(fetched.table.value);
      if reply.Unvalidated? {
        return ClassificationFailed;
      } else if reply.CallFailed? {
        return ClassifierAborted(reply.error);
      }
      var res := reply.result;
      var row := LogRow(requestId, DefaultRequesterId, res.classification, res.justification, Label(c), now);
      if insert.InsertRaised? {
        return LoggingAborted(res, row, insert.message);
      }
      var entry := HistoryEntry(requestId, DefaultRequesterId, c, res.classification, res.justification, historyTime);
      history := history + [entry];
      outcome := Completed(res, row, insert.errors, entry);
    }
  }

  /**
   * The classifier runs only on a present, non-empty table: a query that does
   * not get that far ends the same way whatever the classifier would say, and
   * the classification outcomes occur exactly for queries that get that far.
   */
  lemma ClassifierOnlyOnNonEmptyTable(userInput: string, closeMatch: string -> Option<Category>,
                                      bucket: string -> Download,
                                      f: Table -> ClassifierReply, g: Table -> ClassifierReply,
                                      requestId: int, now: string, insert: InsertResult, historyTime: string)
    ensures var o := Handle(userInput, Services(closeMatch, bucket, f), requestId, now, insert, historyTime);
            o.ReachedClassifier() <==> ReachesClassifier(userInput, Services(closeMatch, bucket, f))
    ensures !ReachesClassifier(userInput, Services(closeMatch, bucket, f)) ==>
              Handle(userInput, Services(closeMatch, bucket, f), requestId, now, insert, historyTime)
              == Handle(userInput, Services(closeMatch, bucket, g), requestId, now, insert, historyTime)
  {
  }

  /**
   * A request completes, and so is added to the history, exactly when it
   * reaches the classifier, the classifier returns a verdict and the insert
   * returns.
   */
  lemma CompletedIffClassified(userInput: string, svc: Services, requestId: int, now: string,
                               insert: InsertResult, historyTime: string)
    ensures Handle(userInput, svc, requestId, now, insert, historyTime).Completed?
            <==> ReachesClassifier(userInput, svc) && svc.classify(ClassifiedTable(userInput, svc)).Verdict?
                 && insert.Inserted?
    ensures |Added(Handle(userInput, svc, requestId, now, insert, historyTime))|
            == if Handle(userInput, svc, requestId, now, insert, historyTime).Completed? then 1 else 0
  {
  }

  /**
   * What a completed request logs and records: the audit row's text fields
   * fit their columns and are prefixes of the verdict and the category
   * label, both times are one reading, and the history entry carries the same
   * request id, the category and the verdict untruncated.
   */
  lemma {:induction false} CompletedRequestRecords(userInput: string, svc: Services, requestId: int, now: string,
                                                   insert: InsertResult, historyTime: string)
    requires IsRequestId(requestId)
    requires Handle(userInput, svc, requestId, now, insert, historyTime).Completed?
    ensures var o := Handle(userInput, svc, requestId, now, insert, historyTime);
            && IsRequestId(o.row.requestId)
            && o.row.requestId == o.entry.requestId == requestId
            && o.row.requester == o.entry.requester == DefaultRequesterId
            && o.row.requestTime == o.row.decisionTime == now
            && o.row.classification <= o.result.classification && |o.row.classification| <= MaxLength
            && o.row.decision <= o.result.justification && |o.row.decision| <= MaxLength
            && (|o.result.classification| > MaxLength ==> |o.row.classification| == MaxLength)
            && (|o.result.justification| > MaxLength ==> |o.row.decision| == MaxLength)
            && o.row.requestedData == Label(o.entry.category)
            && RequestedCategory(userInput, svc) == Some(o.entry.category)
            && o.entry.classification == o.result.classification
            && o.entry.justification == o.result.justification
            && svc.classify(ClassifiedTable(userInput, svc)) == Verdict(o.result)
  {
  }

  /**
   * Errors the warehouse insert reports are shown but change nothing else:
   * the outcome and the history entry are the same whatever errors it reports.
   */
  lemma LoggingFailureIsNonFatal(userInput: string, svc: Services, requestId: int, now: string,
                                 e1: seq<string>, e2: seq<string>, historyTime: string)
    ensures var o1 := Handle(userInput, svc, requestId, now, Inserted(e1), historyTime);
            var o2 := Handle(userInput, svc, requestId, now, Inserted(e2), historyTime);
            && Added(o1) == Added(o2)
            && (o1.Completed? <==> o2.Completed?)
            && (o1.Completed? ==> o1.row == o2.row && o1.result == o2.result)
            && (!o1.Completed? ==> o1 == o2)
  {
  }

  /**
   * An insert that raises stops the run after the verdict was shown and the
   * row built, but before the history append: the same row as a returning
   * insert would have sent, and no entry.
   */
  lemma InsertExceptionSkipsHistory(userInput: string, svc: Services, requestId: int, now: string,
                                    message: string, errors: seq<string>, historyTime: string)
    ensures var o := Handle(userInput, svc, requestId, now, InsertRaised(message), historyTime);
            var done := Handle(userInput, svc, requestId, now, Inserted(errors), historyTime);
            && Added(o) == []
            && (o.LoggingAborted? <==> done.Completed?)
            && (o.LoggingAborted? ==> o.row == done.row && o.result == done.result && o.error == message)
            && (!o.LoggingAborted? ==> o == done)
  {
  }

  /** A classifier call that raises stops the run with no row and no history entry. */
  lemma ClassifierExceptionSkipsLogging(userInput: string, svc: Services, requestId: int, now: string,
                                        insert: InsertResult, historyTime: string)
    requires ReachesClassifier(userInput, svc) && svc.classify(ClassifiedTable(userInput, svc)).CallFailed?
    ensures var o := Handle(userInput, svc, requestId, now, insert, historyTime);
            o == ClassifierAborted(svc.classify(ClassifiedTable(userInput, svc)).error) && Added(o) == []
  {
  }

  /**
   * A present but empty table is reported as a fetch failure whose status is
   * "Success", and "Invalid category" is never reported, since every detected
   * label resolves.
   */
  lemma {:induction false} FetchFailureReports(userInput: string, svc: Services, requestId: int, now: string,
                                               insert: InsertResult, historyTime: string)
    ensures Handle(userInput, svc, requestId, now, insert, historyTime) != FetchFailed(InvalidCategory)
    ensures RequestedCategory(userInput, svc).Some? ==>
              var c := RequestedCategory(userInput, svc).value;
              var fetched := FetchData(Label(c), svc.bucket);
              fetched.table.Some? && fetched.table.value.IsEmpty() ==>
                Handle(userInput, svc, requestId, now, insert, historyTime) == FetchFailed(FetchSuccess)
  {
    var category := RequestedCategory(userInput, svc);
    if category.Some? {
      DetectedCategoryResolves(category.value, svc.bucket);
    }
  }

  /** A blank or all-whitespace query is refused before anything else runs. */
  lemma BlankQueryDoesNothing(userInput: string, svc: Services, requestId: int, now: string,
                              insert: InsertResult, historyTime: string)
    requires IsBlank(userInput)
    ensures Handle(userInput, svc, requestId, now, insert, historyTime) == BlankQuery
    ensures !ReachesClassifier(userInput, svc)
  {
  }
}
