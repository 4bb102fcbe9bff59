/**
 * The administrator's report triage view (components/admin-reports.tsx): the
 * anonymising projection of fetched rows, the search/status/crime-type filter,
 * the local status update, the response guard, the status labels and the list
 * of crime types offered by the crime-type filter.
 */
module AdminReports {
  import opened Types
  import opened Text
  import Seqs

  /** A row of the joined `crime_reports` query: the report's columns and the owner record `users`. */
  datatype ReportRow = ReportRow(columns: CrimeReport, users: Option<Owner>)

  /** What the `crime_reports` select yields: `data`, which may be null, or an error. */
  datatype FetchOutcome = Fetched(data: Option<seq<ReportRow>>) | FetchFailed

  /** The row handed to the `admin_responses` insert. */
  datatype ResponseInsert = ResponseInsert(reportId: string, response: string)

  /** The update sent to the `crime_reports` row with id `reportId`. */
  datatype StatusPatch = StatusPatch(reportId: string, status: string, updatedAt: string)

  // ---------------------------------------------------------------------------
  // Anonymisation

  /** `{ ...report, user: report.is_anonymous ? null : report.users }` */
  function Anonymise(row: ReportRow): (r: CrimeReport)
    ensures row.columns.isAnonymous ==> r.user == None
    ensures !row.columns.isAnonymous ==> r.user == row.users
    ensures r.(user := row.columns.user) == row.columns
  {
    row.columns.(user := if row.columns.isAnonymous then None else row.users)
  }

  function AnonymiseAll(rows: seq<ReportRow>): (reports: seq<CrimeReport>)
    ensures |reports| == |rows|
    ensures forall i :: 0 <= i < |rows| ==> reports[i] == Anonymise(rows[i])
  {
    seq(|rows|, i requires 0 <= i < |rows| => Anonymise(rows[i]))
  }

  /** No report that the view holds after a fetch shows the owner of an anonymous report. */
  lemma AnonymousOwnersHidden(rows: seq<ReportRow>)
    ensures forall r :: r in AnonymiseAll(rows) && r.isAnonymous ==> r.user == None
    ensures forall i :: 0 <= i < |rows| && !rows[i].columns.isAnonymous ==>
              AnonymiseAll(rows)[i].user == rows[i].users
  {
    var reports := AnonymiseAll(rows);
    forall r | r in reports && r.isAnonymous ensures r.user == None {
      var i :| 0 <= i < |reports| && reports[i] == r;
      assert r == Anonymise(rows[i]);
    }
  }

  /** The report list after `fetchReports`: the projected rows (none when `data` is null), or the old list on error. */
  function AfterFetch(reports: seq<CrimeReport>, outcome: FetchOutcome): seq<CrimeReport>
  {
    match outcome
    case Fetched(data) => AnonymiseAll(if data.Some? then data.value else [])
    case FetchFailed => reports
  }

  // ---------------------------------------------------------------------------
  // Search and filters

  /** The search test: any of crime type, description, location or owner name contains the term, ignoring case. */
  predicate MatchesSearch(r: CrimeReport, term: string)
  {
    || ContainsIgnoreCase(r.crimeType, term)
    || ContainsIgnoreCase(r.description, term)
    || (Truthy(r.location) && ContainsIgnoreCase(r.location.value, term))
    || (r.user.Some? && ContainsIgnoreCase(r.user.value.name, term))
  }

  /** The filter chain of the view, stage by stage; an empty term and "all" skip their stage. */
  function FilterReports(reports: seq<CrimeReport>, term: string, statusFilter: string, crimeTypeFilter: string)
    : seq<CrimeReport>
  {
    var bySearch :=
      if term != "" then Seqs.Filter(reports, (r: CrimeReport) => MatchesSearch(r, term)) else reports;
    var byStatus :=
      if statusFilter != "all" then Seqs.Filter(bySearch, (r: CrimeReport) => StatusName(r.status) == statusFilter) else bySearch;
    if crimeTypeFilter != "all" then Seqs.Filter(byStatus, (r: CrimeReport) => r.crimeType == crimeTypeFilter) else byStatus
  }

  /** When a report survives the filter chain: all three conditions hold. */
  predicate Kept(r: CrimeReport, term: string, statusFilter: string, crimeTypeFilter: string)
  {
    && (term == "" || MatchesSearch(r, term))
    && (statusFilter == "all" || StatusName(r.status) == statusFilter)
    && (crimeTypeFilter == "all" || r.crimeType == crimeTypeFilter)
  }

  /** The chain of filters is one stable filter by `Kept`. */
  lemma FilterReportsIsOnePass(reports: seq<CrimeReport>, term: string, statusFilter: string, crimeTypeFilter: string)
    ensures FilterReports(reports, term, statusFilter, crimeTypeFilter)
         == Seqs.Filter(reports, (r: CrimeReport) => Kept(r, term, statusFilter, crimeTypeFilter))
  {
    var search := (r: CrimeReport) => term == "" || MatchesSearch(r, term);
    var status := (r: CrimeReport) => statusFilter == "all" || StatusName(r.status) == statusFilter;
    var kind := (r: CrimeReport) => crimeTypeFilter == "all" || r.crimeType == crimeTypeFilter;
    var searchStatus := (r: CrimeReport) => search(r) && status(r);
    var all := (r: CrimeReport) => Kept(r, term, statusFilter, crimeTypeFilter);

    var bySearch := Seqs.Filter(reports, search);
    assert bySearch == if term != "" then Seqs.Filter(reports, (r: CrimeReport) => MatchesSearch(r, term)) else reports by {
      if term == "" {
        Seqs.FilterKeepsAll(reports, search);
      } else {
        Seqs.FilterSameTest(reports, search, (r: CrimeReport) => MatchesSearch(r, term));
      }
    }
    var byStatus := Seqs.Filter(bySearch, status);
    assert byStatus == if statusFilter != "all" then Seqs.Filter(bySearch, (r: CrimeReport) => StatusName(r.status) == statusFilter) else bySearch by {
      if statusFilter == "all" {
        Seqs.FilterKeepsAll(bySearch, status);
      } else {
        Seqs.FilterSameTest(bySearch, status, (r: CrimeReport) => StatusName(r.status) == statusFilter);
      }
    }
    var byKind := Seqs.Filter(byStatus, kind);
    assert byKind == FilterReports(reports, term, statusFilter, crimeTypeFilter) by {
      if crimeTypeFilter == "all" {
        Seqs.FilterKeepsAll(byStatus, kind);
      } else {
        Seqs.FilterSameTest(byStatus, kind, (r: CrimeReport) => r.crimeType == crimeTypeFilter);
      }
    }
    Seqs.FilterFuse(reports, search, status, searchStatus);
    Seqs.FilterFuse(reports, searchStatus, kind, all);
  }

  /**
   * The filtered list is an order-preserving subsequence of the report list,
   * and a report is in it exactly when it is in the list and passes all three conditions.
   */
  lemma FilterReportsSpec(reports: seq<CrimeReport>, term: string, statusFilter: string, crimeTypeFilter: string)
    ensures Seqs.IsSubsequence(FilterReports(reports, term, statusFilter, crimeTypeFilter), reports)
    ensures forall r :: r in FilterReports(reports, term, statusFilter, crimeTypeFilter)
                   <==> r in reports && Kept(r, term, statusFilter, crimeTypeFilter)
  {
    FilterReportsIsOnePass(reports, term, statusFilter, crimeTypeFilter);
    Seqs.FilterIsSubsequence(reports, (r: CrimeReport) => Kept(r, term, statusFilter, crimeTypeFilter));
  }

  /** The two reports of the worked case below. */
  predicate ExampleReports(theft: CrimeReport, harassment: CrimeReport)
  {
    && theft.crimeType == "Theft" && theft.status == Pending && theft.location == Some("Lahore")
    && theft.description == "" && theft.user == None
    && harassment.crimeType == "Harassment" && harassment.status == Resolved
    && harassment.location == Some("Karachi") && harassment.description == "" && harassment.user == None
  }

  lemma TheftMatchesLahore()
    ensures ContainsIgnoreCase("Lahore", "lahore")
  {
    assert Lower("Lahore") == "lahore" && Lower("lahore") == "lahore";
    assert "lahore" <= "lahore";
  }

  lemma ExampleLowercase()
    ensures Lower("Harassment") == "harassment" && 'l' !in "harassment"
    ensures Lower("Karachi") == "karachi" && 'l' !in "karachi"
  {
  }

  /** A field whose lowercase form has no 'l' does not contain "lahore", whatever its case. */
  lemma LacksLahore(field: string, lowered: string)
    requires Lower(field) == lowered && 'l' !in lowered
    ensures !ContainsIgnoreCase(field, "lahore")
  {
    assert Lower("lahore") == "lahore";
    NotContainsFirstCharAbsent(lowered, "lahore");
  }

  lemma EmptyLacksLahore()
    ensures !ContainsIgnoreCase("", "lahore")
  {
    assert Lower("") == "";
  }

  lemma HarassmentMissesLahore(harassment: CrimeReport)
    requires harassment.crimeType == "Harassment" && harassment.location == Some("Karachi")
    requires harassment.description == "" && harassment.user == None
    ensures !MatchesSearch(harassment, "lahore")
  {
    ExampleLowercase();
    LacksLahore("Harassment", "harassment");
    LacksLahore("Karachi", "karachi");
    EmptyLacksLahore();
  }

  /** Worked case: of a theft in Lahore and a harassment in Karachi, searching "lahore" keeps the theft. */
  lemma SearchExample(theft: CrimeReport, harassment: CrimeReport)
    requires ExampleReports(theft, harassment)
    ensures FilterReports([theft, harassment], "lahore", "all", "all") == [theft]
  {
    TheftMatchesLahore();
    assert MatchesSearch(theft, "lahore");
    HarassmentMissesLahore(harassment);
    var p := (r: CrimeReport) => MatchesSearch(r, "lahore");
    assert [theft, harassment][1..] == [harassment];
    assert Seqs.Filter([harassment], p) == [];
  }

  /** Worked case, continued: the status "resolved" keeps the harassment, the crime type "Robbery" neither. */
  lemma StatusAndTypeExample(theft: CrimeReport, harassment: CrimeReport)
    requires ExampleReports(theft, harassment)
    ensures FilterReports([theft, harassment], "", "resolved", "all") == [harassment]
    ensures FilterReports([theft, harassment], "", "all", "Robbery") == []
  {
    assert [theft, harassment][1..] == [harassment];
    var status := (r: CrimeReport) => StatusName(r.status) == "resolved";
    assert Seqs.Filter([harassment], status) == [harassment];
    var kind := (r: CrimeReport) => r.crimeType == "Robbery";
    assert Seqs.Filter([harassment], kind) == [];
  }

  /** A report without location or owner is searched on its remaining fields only; the test never fails. */
  lemma SearchWithoutLocationOrOwner(r: CrimeReport, term: string)
    ensures r.location.None? ==>
              (MatchesSearch(r, term) <==>
                (|| ContainsIgnoreCase(r.crimeType, term) || ContainsIgnoreCase(r.description, term)
                 || (r.user.Some? && ContainsIgnoreCase(r.user.value.name, term))))
    ensures r.user.None? ==>
              (MatchesSearch(r, term) <==>
                (|| ContainsIgnoreCase(r.crimeType, term) || ContainsIgnoreCase(r.description, term)
                 || (Truthy(r.location) && ContainsIgnoreCase(r.location.value, term))))
  {
  }

  // ---------------------------------------------------------------------------
  // Empty-state message

  const NoMatchMessage := "No reports found matching the current filters."
  const NoReportsMessage := "No crime reports submitted yet."

  /** The card shown below an empty filtered list, if any, once loading has ended. */
  function EmptyStateMessage(filtered: seq<CrimeReport>, term: string, statusFilter: string, crimeTypeFilter: string)
    : Option<string>
  {
    if |filtered| != 0 then None
    else if term != "" || statusFilter != "all" || crimeTypeFilter != "all" then Some(NoMatchMessage)
    else Some(NoReportsMessage)
  }

  /**
   * "No crime reports submitted yet." appears exactly when there are no reports and no
   * filter is active; the no-match message exactly when a filter is active and no report passes.
   */
  lemma EmptyStateSpec(reports: seq<CrimeReport>, term: string, statusFilter: string, crimeTypeFilter: string)
    ensures var active := term != "" || statusFilter != "all" || crimeTypeFilter != "all";
            var message := EmptyStateMessage(FilterReports(reports, term, statusFilter, crimeTypeFilter),
                                             term, statusFilter, crimeTypeFilter);
            && (message == Some(NoReportsMessage) <==> !active && reports == [])
            && (message == Some(NoMatchMessage) <==>
                  active && forall r :: r in reports ==> !Kept(r, term, statusFilter, crimeTypeFilter))
  {
    FilterReportsSpec(reports, term, statusFilter, crimeTypeFilter);
    var filtered := FilterReports(reports, term, statusFilter, crimeTypeFilter);
    if filtered != [] {
      assert filtered[0] in filtered;
    }
    if reports != [] && term == "" && statusFilter == "all" && crimeTypeFilter == "all" {
      assert Kept(reports[0], term, statusFilter, crimeTypeFilter);
      assert reports[0] in reports;
    }
  }

  // ---------------------------------------------------------------------------
  // Status update

  /** `prev.map(report => report.id === reportId ? { ...report, status: newStatus } : report)` */
  function WithStatus(reports: seq<CrimeReport>, reportId: string, newStatus: Status): (r: seq<CrimeReport>)
    ensures |r| == |reports|
    ensures forall i :: 0 <= i < |r| ==>
              r[i].status == (if reports[i].id == reportId then newStatus else reports[i].status)
    ensures forall i :: 0 <= i < |r| ==> r[i].(status := reports[i].status) == reports[i]
    ensures (forall i :: 0 <= i < |reports| ==> reports[i].id != reportId) ==> r == reports
  {
    seq(|reports|, i requires 0 <= i < |reports| =>
      if reports[i].id == reportId then reports[i].(status := newStatus) else reports[i])
  }

  /** Status changes are unrestricted and the last one wins: any status may follow any other. */
  lemma StatusLastWriteWins(reports: seq<CrimeReport>, reportId: string, first: Status, second: Status)
    ensures WithStatus(WithStatus(reports, reportId, first), reportId, second) == WithStatus(reports, reportId, second)
  {
    var once := WithStatus(reports, reportId, first);
    var twice := WithStatus(once, reportId, second);
    var direct := WithStatus(reports, reportId, second);
    forall i | 0 <= i < |reports| ensures twice[i] == direct[i] {
      assert once[i].id == reports[i].id by {
        assert once[i].(status := reports[i].status) == reports[i];
      }
    }
  }

  // ---------------------------------------------------------------------------
  // Labels and crime types

  /** `getStatusText`: a display label for the three statuses, any other string as it is. */
  function StatusText(status: string): (shown: string)
    ensures status == "pending" ==> shown == "Pending"
    ensures status == "in_progress" ==> shown == "In Progress"
    ensures status == "resolved" ==> shown == "Resolved"
    ensures ParseStatus(status).None? ==> shown == status
  {
    match status
    case "pending" => "Pending"
    case "in_progress" => "In Progress"
    case "resolved" => "Resolved"
    case _ => status
  }

  /** Different statuses are shown with different labels. */
  lemma StatusTextDistinguishesStatuses(a: Status, b: Status)
    ensures StatusText(StatusName(a)) == StatusText(StatusName(b)) <==> a == b
  {
  }

  function CrimeTypesOf(reports: seq<CrimeReport>): (types: seq<string>)
    ensures |types| == |reports|
    ensures forall i :: 0 <= i < |reports| ==> types[i] == reports[i].crimeType
  {
    seq(|reports|, i requires 0 <= i < |reports| => reports[i].crimeType)
  }

  /** `[...new Set(reports.map(report => report.crime_type))]` */
  function UniqueCrimeTypes(reports: seq<CrimeReport>): seq<string>
  {
    Seqs.Distinct(CrimeTypesOf(reports))
  }

  /**
   * The crime-type filter offers each crime type occurring in the reports exactly once,
   * no other, in the order of first occurrence.
   */
  lemma UniqueCrimeTypesSpec(reports: seq<CrimeReport>)
    ensures Seqs.NoDuplicates(UniqueCrimeTypes(reports))
    ensures forall t :: t in UniqueCrimeTypes(reports) <==> exists r :: r in reports && r.crimeType == t
    ensures Seqs.FirstOccurrenceOrder(UniqueCrimeTypes(reports), CrimeTypesOf(reports))
  {
    var types := CrimeTypesOf(reports);
    Seqs.DistinctFirstOccurrenceOrder(types);
    forall t ensures t in types <==> exists r :: r in reports && r.crimeType == t {
      if t in types {
        var i :| 0 <= i < |types| && types[i] == t;
        assert reports[i] in reports;
      }
      if exists r :: r in reports && r.crimeType == t {
        var r :| r in reports && r.crimeType == t;
        var i :| 0 <= i < |reports| && reports[i] == r;
        assert types[i] == t;
      }
    }
  }

  // ---------------------------------------------------------------------------
  // The view's state

  class AdminReportsView {
    var reports: seq<CrimeReport>
    var searchTerm: string
    var statusFilter: string
    var crimeTypeFilter: string
    var isLoading: bool
    var responseText: string
    var selectedReport: Option<CrimeReport>
    var isSubmittingResponse: bool

    constructor ()
      ensures reports == [] && searchTerm == "" && statusFilter == "all" && crimeTypeFilter == "all"
      ensures isLoading && responseText == "" && selectedReport == None && !isSubmittingResponse
    {
      reports := [];
      searchTerm := "";
      statusFilter := "all";
      crimeTypeFilter := "all";
      isLoading := true;
      responseText := "";
      selectedReport := None;
      isSubmittingResponse := false;
    }

    /** The list the filter effect derives from the state. */
    function FilteredReports(): (shown: seq<CrimeReport>)
      reads this
      ensures Seqs.IsSubsequence(shown, reports)
      ensures forall r :: r in shown <==> r in reports && Kept(r, searchTerm, statusFilter, crimeTypeFilter)
    {
      FilterReportsSpec(reports, searchTerm, statusFilter, crimeTypeFilter);
      FilterReports(reports, searchTerm, statusFilter, crimeTypeFilter)
    }

    method SetSearchTerm(term: string)
      modifies this`searchTerm
      ensures searchTerm == term
    {
      searchTerm := term;
    }

    method SetStatusFilter(filter: string)
      modifies this`statusFilter
      ensures statusFilter == filter
    {
      statusFilter := filter;
    }

    method SetCrimeTypeFilter(filter: string)
      modifies this`crimeTypeFilter
      ensures crimeTypeFilter == filter
    {
      crimeTypeFilter := filter;
    }

    /** `fetchReports`, with the select's outcome as a parameter; loading ends either way. */
    method FetchReports(outcome: FetchOutcome)
      modifies this`reports, this`isLoading
      ensures reports == AfterFetch(old(reports), outcome)
      ensures !isLoading
    {
      match outcome {
        case Fetched(data) =>
          reports := AnonymiseAll(if data.Some? then data.value else []);
        case FetchFailed =>
      }
      isLoading := false;
    }

    /**
     * `updateReportStatus`: sends the new status with `now` (the clock's ISO time) as
     * `updated_at`; when the store accepts the update, only the status of the report with
     * that id changes in the local list; on a store error nothing changes.
     * Returns the update sent to the store.
     */
    method UpdateReportStatus(reportId: string, newStatus: Status, now: string, storeOk: bool)
      returns (patch: StatusPatch)
      modifies this`reports
      ensures patch == StatusPatch(reportId, StatusName(newStatus), now)
      ensures storeOk ==> reports == WithStatus(old(reports), reportId, newStatus)
      ensures !storeOk ==> reports == old(reports)
    {
      patch := StatusPatch(reportId, StatusName(newStatus), now);
      if storeOk {
        reports := WithStatus(reports, reportId, newStatus);
      }
    }

    /** Typing into a report's response box selects that report. */
    method EditResponse(report: CrimeReport, text: string)
      modifies this`responseText, this`selectedReport
      ensures responseText == text && selectedReport == Some(report)
    {
      responseText := text;
      selectedReport := Some(report);
    }

    /** Whether the "Submit Response" button of `report` is enabled. */
    function SubmitEnabled(report: CrimeReport): (enabled: bool)
      reads this
      ensures enabled <==> && !Blank(responseText) && !isSubmittingResponse
                           && selectedReport.Some? && selectedReport.value.id == report.id
    {
      TrimEmptyIffBlank(responseText);
      Trim(responseText) != "" && !isSubmittingResponse
        && selectedReport.Some? && selectedReport.value.id == report.id
    }

    /**
     * `submitResponse`: a no-op without a selected report or with a blank text; otherwise
     * the response is sent, and on success the list is fetched again, the text cleared
     * and the selection reset. Returns the row handed to the insert, if any.
     */
    method SubmitResponse(insertOk: bool, refetch: FetchOutcome) returns (sent: Option<ResponseInsert>)
      modifies this`reports, this`isLoading, this`responseText, this`selectedReport, this`isSubmittingResponse
      ensures old(selectedReport).None? || Blank(old(responseText)) ==>
                sent == None && reports == old(reports) && isLoading == old(isLoading)
                && responseText == old(responseText) && selectedReport == old(selectedReport)
                && isSubmittingResponse == old(isSubmittingResponse)
      ensures old(selectedReport).Some? && !Blank(old(responseText)) ==>
                && sent == Some(ResponseInsert(old(selectedReport).value.id, old(responseText)))
                && !isSubmittingResponse
                && (insertOk ==> reports == AfterFetch(old(reports), refetch) && !isLoading
                                 && responseText == "" && selectedReport == None)
                && (!insertOk ==> reports == old(reports) && isLoading == old(isLoading)
                                  && responseText == old(responseText) && selectedReport == old(selectedReport))
    {
      TrimEmptyIffBlank(responseText);
      if selectedReport.None? || Trim(responseText) == "" {
        return None;
      }
      isSubmittingResponse := true;
      sent := Some(ResponseInsert(selectedReport.value.id, responseText));
      if insertOk {
        FetchReports(refetch);
        responseText := "";
        selectedReport := None;
      }
      isSubmittingResponse := false;
    }
  }
}
