/**
 * The request flow of the chatbot front end (main.py): the hosted model
 * names a category, a ticket id is drawn, the status message is set from
 * which step failed, one history entry is appended and one audit row built,
 * with the status markers stripped from its decision text.
 *
 * The three status markers are the character sequences main.py holds: a
 * check mark, a cross and an hourglass emoji whose UTF-8 bytes were decoded
 * as Mac Roman, each followed by a space.
 */
module Chatbot {
  import opened Wrappers
  import opened Text
  import opened Storage
  import opened Requests

  const InProgressMarker: string := "\U{201A}\U{E8}\U{2265} "
  const ApprovedMarker: string := "\U{201A}\U{FA}\U{D6} "
  const FailedMarker: string := "\U{201A}\U{F9}\U{E5} "

  const InProgress: string := InProgressMarker + "In Progress"
  const Approved: string := ApprovedMarker + "Approved"
  const Unidentified: string := FailedMarker + "Could not identify category"
  const FetchFailurePrefix: string := "Failed to fetch data: "

  /** The status of a request whose fetch failed with `fetchStatus`. */
  function FetchFailure(fetchStatus: string): string {
    FailedMarker + FetchFailurePrefix + fetchStatus
  }

  /** The history's data-requested column when no category was found. */
  const UnknownCategory: string := "Unknown"
  /** The history's year-range column, never filled in. */
  const YearRangeNotSpecified: string := "Not specified"
  /** The audit classification of every request whose category was found. */
  const Confidential: string := "Confidential"

  /** Python truthiness of the parsed category: present and not the empty string. */
  predicate Found(category: Option<string>) {
    category.Some? && category.value != ""
  }

  /** One row of the session history: ticket id, data requested, year range, status. */
  datatype TicketEntry = TicketEntry(ticketId: int, dataRequested: string, yearRange: string, status: string)

  /** One row of the audit table, with the columns main.py leaves NULL as None. */
  datatype TicketRow = TicketRow(
    requestId: int,
    requester: Option<int>,
    classification: Option<string>,
    requestTime: string,
    decisionTime: string,
    decision: string)

  /** The notice shown after the insert; none of them stops the request. */
  datatype LogNotice = Logged | LogErrors(errors: seq<string>) | LogFailed(message: string)

  /** The services a message consults: the hosted model's category and the storage bucket. */
  datatype Services = Services(parse: string -> Option<string>, client: StorageClient, bucket: string -> Download)

  /**
   * What `get_storage_client()` gives when the fetch starts: a client, or the
   * exception it raises. The call is outside the fetch's `try`, so a raise
   * leaves the send before anything is recorded.
   */
  datatype StorageClient = ClientReady | ClientRaised(error: string)

  /** How a press of the send button ends. */
  datatype SendOutcome = NotSent | ClientFailed(error: string) | Sent(reply: Reply)

  /** The send reaches the fetch, and constructing the storage client raises there. */
  predicate ClientAborts(userInput: string, svc: Services) {
    Found(svc.parse(userInput)) && svc.client.ClientRaised?
  }

  /** Everything one send produces besides the history append. */
  datatype Reply = Reply(status: string, entry: TicketEntry, row: TicketRow, notice: LogNotice)

  /** Reference definition of the final status message. */
  function StatusMessage(category: Option<string>, bucket: string -> Download): string {
    if !Found(category) then Unidentified
    else if FetchedRows(category.value, bucket) then Approved
    else FetchFailure(FetchData(category.value, bucket).status)
  }

  /** The status method as main.py runs it: start "In Progress", then overwrite by branch. */
  method ComputeStatus(category: Option<string>, bucket: string -> Download) returns (status: string)
    ensures status == StatusMessage(category, bucket)
  {
    status := InProgress;
    if Found(category) {
      var fetched := FetchData(category.value, bucket);
      if fetched.table.Some? && !fetched.table.value.IsEmpty() {
        status := Approved;
      } else {
        status := FetchFailure(fetched.status);
      }
    } else {
      status := Unidentified;
    }
  }

  /** The first character shared by the three markers. */
  const MarkerLead: char := '\U{201A}'

  /**
   * The three `str.replace` calls that strip the markers, in main.py's order:
   * they never lengthen the text, and keep text in which no marker can start.
   */
  function RemoveMarkers(s: string): (r: string)
    ensures |r| <= |s|
    ensures MarkerLead !in s ==> r == s
  {
    MarkersAbsent(s);
    ReplaceAll(ReplaceAll(ReplaceAll(s, ApprovedMarker, ""), FailedMarker, ""), InProgressMarker, "")
  }

  /** The three replacements keep a string in which no marker can start. */
  lemma MarkersAbsent(s: string)
    ensures MarkerLead !in s ==>
              ReplaceAll(ReplaceAll(ReplaceAll(s, ApprovedMarker, ""), FailedMarker, ""), InProgressMarker, "") == s
  {
    if MarkerLead !in s {
      ReplaceAllAbsent(s, ApprovedMarker, "");
      ReplaceAllAbsent(s, FailedMarker, "");
      ReplaceAllAbsent(s, InProgressMarker, "");
    }
  }

  /** The audit row of one send. */
  function Row(ticketId: int, category: Option<string>, status: string,
               requestTime: string, decisionTime: string): (row: TicketRow)
    ensures row.requestId == ticketId && row.requester == None
    ensures row.classification.Some? <==> Found(category)
    ensures row.classification.Some? ==> row.classification.value == Confidential
    ensures |row.decision| <= |status|
    ensures row.requestTime == requestTime && row.decisionTime == decisionTime
  {
    TicketRow(ticketId, None, if Found(category) then Some(Confidential) else None,
              requestTime, decisionTime, RemoveMarkers(status))
  }

  /**
   * The notice for an insert result: success exactly when the insert returned
   * no errors; an exception is caught and shown, never propagated.
   */
  function Notice(insert: InsertResult): (n: LogNotice)
    ensures n == Logged <==> insert == Inserted([])
    ensures n.LogFailed? <==> insert.InsertRaised?
    ensures n.LogErrors? ==> n.errors == insert.errors != []
    ensures n.LogFailed? ==> n.message == insert.message
  {
    match insert
    case Inserted(errors) => if errors == [] then Logged else LogErrors(errors)
    case InsertRaised(message) => LogFailed(message)
  }

  /**
   * What one send of a non-blank message produces: the status shown is the
   * one recorded in the history, and the history entry and the audit row
   * carry the same ticket id.
   */
  function Respond(userInput: string, svc: Services, ticketId: int, requestTime: string,
                   decisionTime: string, insert: InsertResult): (r: Reply)
    ensures r.entry.status == r.status
    ensures r.entry.ticketId == r.row.requestId == ticketId
    ensures r.notice == Notice(insert)
  {
    var category := svc.parse(userInput);
    var status := StatusMessage(category, svc.bucket);
    Reply(status,
          TicketEntry(ticketId, if Found(category) then category.value else UnknownCategory, YearRangeNotSpecified, status),
          Row(ticketId, category, status, requestTime, decisionTime),
          Notice(insert))
  }

  /** One browser session: its ticket history, only ever appended to. */
  class ChatSession {
    var history: seq<TicketEntry>

    constructor ()
      ensures history == []
    {
      history := [];
    }

    /**
     * Handle the send button: a blank message does nothing; a send whose
     * storage client cannot be constructed stops without a record; any other
     * adds exactly one history entry, whatever happens to the audit insert.
     */
    method Send(userInput: string, svc: Services, ticketId: int, requestTime: string,
                decisionTime: string, insert: InsertResult) returns (outcome: SendOutcome)
      requires IsRequestId(ticketId)
      modifies this
      ensures IsBlank(userInput) ==> outcome == NotSent && history == old(history)
      ensures !IsBlank(userInput) && ClientAborts(userInput, svc) ==>
                outcome == ClientFailed(svc.client.error) && history == old(history)
      ensures !IsBlank(userInput) && !ClientAborts(userInput, svc) ==>
                outcome == Sent(Respond(userInput, svc, ticketId, requestTime, decisionTime, insert))
                && history == old(history) + [outcome.reply.entry]
                && IsRequestId(outcome.reply.entry.ticketId)
    {
      if IsBlank(userInput) {
        return NotSent;
      }
      var category := svc.parse(userInput);
      if Found(category) && svc.client.ClientRaised? {
        // The fetch's first statement raises: no status, entry, row or insert.
        return ClientFailed(svc.client.error);
      }
      var status := ComputeStatus(category, svc.bucket);
      var entry := TicketEntry(ticketId, if Found(category) then category.value else UnknownCategory,
                               YearRangeNotSpecified, status);
      history := history + [entry];
      var row := Row(ticketId, category, status, requestTime, decisionTime);
      outcome := Sent(Reply(status, entry, row, Notice(insert)));
    }
  }

  /**
   * The status is "Approved" exactly when a category was found and its table
   * is present and non-empty; "In Progress" never survives to the end.
   */
  lemma ApprovedIffFetched(category: Option<string>, bucket: string -> Download)
    ensures StatusMessage(category, bucket) == Approved <==> Found(category) && FetchedRows(category.value, bucket)
    ensures StatusMessage(category, bucket) != InProgress
  {
    var status := StatusMessage(category, bucket);
    assert Approved[1] != Unidentified[1] && Approved[1] != FetchFailure(FetchData(category.GetOr(""), bucket).status)[1];
    assert InProgress[1] != Approved[1] && InProgress[1] != Unidentified[1];
    assert InProgress[1] != FetchFailure(FetchData(category.GetOr(""), bucket).status)[1];
  }

  /**
   * With no category the status is "Could not identify category" whatever the
   * bucket holds, so no fetch decides anything.
   */
  lemma NoCategoryNoFetch(category: Option<string>, b1: string -> Download, b2: string -> Download)
    requires !Found(category)
    ensures StatusMessage(category, b1) == StatusMessage(category, b2) == Unidentified
  {
  }

  /** A present but empty table is reported as a fetch failure carrying the fetch status "Success". */
  lemma EmptyTableIsFetchFailure(category: string, bucket: string -> Download)
    requires category != ""
    requires FetchData(category, bucket).table.Some? && FetchData(category, bucket).table.value.IsEmpty()
    ensures StatusMessage(Some(category), bucket) == FetchFailure(FetchSuccess)
  {
  }

  /** A category the table does not know is reported as the fetch failure "Invalid category". */
  lemma UnknownCategoryIsFetchFailure(category: string, bucket: string -> Download)
    requires category != "" && Lower(category) !in FileMap
    ensures StatusMessage(Some(category), bucket) == FetchFailure(InvalidCategory)
  {
  }

  /** Removing the markers distributes over a plain-text prefix. */
  lemma RemoveMarkersAfterPlain(p: string, t: string)
    requires MarkerLead !in p
    ensures RemoveMarkers(p + t) == p + RemoveMarkers(t)
  {
    ReplaceAllAfterPrefix(p, t, ApprovedMarker, "");
    var t1 := ReplaceAll(t, ApprovedMarker, "");
    ReplaceAllAfterPrefix(p, t1, FailedMarker, "");
    var t2 := ReplaceAll(t1, FailedMarker, "");
    ReplaceAllAfterPrefix(p, t2, InProgressMarker, "");
  }

  /**
   * The decision text is the status without its marker: "Approved",
   * "Could not identify category", or "Failed to fetch data: " followed by
   * the fetch status with any markers in it removed.
   */
  lemma {:induction false} DecisionText(category: Option<string>, bucket: string -> Download)
    ensures var decision := RemoveMarkers(StatusMessage(category, bucket));
            && (!Found(category) ==> decision == "Could not identify category")
            && (Found(category) && FetchedRows(category.value, bucket) ==> decision == "Approved")
            && (Found(category) && !FetchedRows(category.value, bucket) ==>
                  decision == FetchFailurePrefix + RemoveMarkers(FetchData(category.value, bucket).status))
  {
    if !Found(category) {
      DecisionOfMarked(FailedMarker, "Could not identify category");
    } else if FetchedRows(category.value, bucket) {
      DecisionOfMarked(ApprovedMarker, "Approved");
    } else {
      DecisionOfFetchFailure(FetchData(category.value, bucket).status);
    }
  }

  /** A fetch failure's decision is the prefix followed by the fetch status without markers. */
  lemma DecisionOfFetchFailure(fetchStatus: string)
    ensures RemoveMarkers(FetchFailure(fetchStatus)) == FetchFailurePrefix + RemoveMarkers(fetchStatus)
  {
    var text := FetchFailurePrefix + fetchStatus;
    FetchFailureSplits(fetchStatus);
    StripLeadingMarker(FailedMarker, text);
    RemoveMarkersAfterPlain(FetchFailurePrefix, fetchStatus);
  }

  /** A fetch failure is the cross marker followed by unmarked text and the fetch status. */
  lemma FetchFailureSplits(fetchStatus: string)
    ensures FetchFailure(fetchStatus) == FailedMarker + (FetchFailurePrefix + fetchStatus)
    ensures MarkerLead !in FetchFailurePrefix
  {
  }

  /** A marker followed by plain text leaves just the text. */
  lemma DecisionOfMarked(marker: string, text: string)
    requires marker == ApprovedMarker || marker == FailedMarker
    requires MarkerLead !in text
    ensures RemoveMarkers(marker + text) == text
  {
    StripLeadingMarker(marker, text);
  }

  /** A status that starts with the check-mark or cross marker loses exactly that marker. */
  lemma StripLeadingMarker(marker: string, text: string)
    requires marker == ApprovedMarker || marker == FailedMarker
    ensures RemoveMarkers(marker + text) == RemoveMarkers(text)
  {
    var s := marker + text;
    if marker == ApprovedMarker {
      ReplaceAllAtStart(text, ApprovedMarker, "");
      assert ReplaceAll(s, ApprovedMarker, "") == ReplaceAll(text, ApprovedMarker, "");
    } else {
      assert s[1] != ApprovedMarker[1];
      assert !(ApprovedMarker <= s);
      assert s[1..] == marker[1..] + text;
      assert MarkerLead !in marker[1..];
      ReplaceAllAfterPrefix(marker[1..], text, ApprovedMarker, "");
      var t1 := ReplaceAll(text, ApprovedMarker, "");
      assert ReplaceAll(s, ApprovedMarker, "") == [s[0]] + marker[1..] + t1;
      assert [s[0]] + marker[1..] == marker;
      assert ReplaceAll(s, ApprovedMarker, "") == FailedMarker + t1;
      ReplaceAllAtStart(t1, FailedMarker, "");
      assert ReplaceAll(FailedMarker + t1, FailedMarker, "") == ReplaceAll(t1, FailedMarker, "");
    }
  }

  /**
   * The history entry a non-blank send appends: the final status message,
   * the category the model named or "Unknown" when it named none, and a
   * year range never filled in.
   */
  lemma SentEntry(userInput: string, svc: Services, ticketId: int, requestTime: string,
                  decisionTime: string, insert: InsertResult)
    ensures var e := Respond(userInput, svc, ticketId, requestTime, decisionTime, insert).entry;
            var category := svc.parse(userInput);
            && e.ticketId == ticketId
            && e.status == StatusMessage(category, svc.bucket)
            && (Found(category) ==> e.dataRequested == category.value)
            && (!Found(category) ==> e.dataRequested == UnknownCategory)
            && e.yearRange == YearRangeNotSpecified
  {
  }

  /**
   * The audit row a non-blank send builds: its decision is the status
   * without its marker ("Approved", "Could not identify category", or the
   * fetch failure text), and the two clock readings are its request and
   * decision times.
   */
  lemma {:induction false} SentRow(userInput: string, svc: Services, ticketId: int, requestTime: string,
                                   decisionTime: string, insert: InsertResult)
    ensures var row := Respond(userInput, svc, ticketId, requestTime, decisionTime, insert).row;
            var category := svc.parse(userInput);
            && row.requestTime == requestTime && row.decisionTime == decisionTime
            && (!Found(category) ==> row.decision == "Could not identify category")
            && (Found(category) && FetchedRows(category.value, svc.bucket) ==> row.decision == "Approved")
            && (Found(category) && !FetchedRows(category.value, svc.bucket) ==>
                  row.decision == FetchFailurePrefix + RemoveMarkers(FetchData(category.value, svc.bucket).status))
  {
    DecisionText(svc.parse(userInput), svc.bucket);
  }
}
