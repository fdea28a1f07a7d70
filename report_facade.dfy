/** The report store: the report list with its loading flag and load error,
    and the four operations that call the backend and update the list
    (src/app/core/facades/report.facade.ts). */
module Reports {
  import opened AsyncCalls
  import opened JsArrays
  import opened ReportModel

  const LoadFallback := "Errore caricamento reports"

  /** `reports.map(r => r.id === id ? updated : r)` */
  function ReplaceById(reports: seq<Report>, id: string, updated: Report): (replaced: seq<Report>)
    ensures |replaced| == |reports|
    decreases |reports|
  {
    if |reports| == 0 then []
    else [if reports[0].id == id then updated else reports[0]] + ReplaceById(reports[1..], id, updated)
  }

  /** `reports.filter(r => r.id !== id)` */
  function RemoveById(reports: seq<Report>, id: string): (remaining: seq<Report>)
    ensures |remaining| <= |reports|
    ensures forall i :: 0 <= i < |remaining| ==> remaining[i].id != id && remaining[i] in reports
    ensures forall i :: 0 <= i < |reports| && reports[i].id != id ==> reports[i] in remaining
  {
    Filter(reports, (r: Report) => r.id != id)
  }

  /** Every entry with the id becomes `updated`; every other entry stays
      where it was. */
  lemma {:induction false} ReplaceByIdAt(reports: seq<Report>, id: string, updated: Report, i: int)
    requires 0 <= i < |reports|
    ensures reports[i].id == id ==> ReplaceById(reports, id, updated)[i] == updated
    ensures reports[i].id != id ==> ReplaceById(reports, id, updated)[i] == reports[i]
    decreases i
  {
    if i > 0 {
      ReplaceByIdAt(reports[1..], id, updated, i - 1);
    }
  }

  /** A list without the id is left as it is. */
  lemma {:induction false} ReplaceAbsent(reports: seq<Report>, id: string, updated: Report)
    requires forall i :: 0 <= i < |reports| ==> reports[i].id != id
    ensures ReplaceById(reports, id, updated) == reports
    decreases |reports|
  {
    if |reports| > 0 {
      ReplaceAbsent(reports[1..], id, updated);
    }
  }

  /** Replacing twice with the same record is replacing once. */
  lemma {:induction false} ReplaceIdempotent(reports: seq<Report>, id: string, updated: Report)
    ensures ReplaceById(ReplaceById(reports, id, updated), id, updated) == ReplaceById(reports, id, updated)
    decreases |reports|
  {
    if |reports| > 0 {
      var once := ReplaceById(reports, id, updated);
      assert once[1..] == ReplaceById(reports[1..], id, updated);
      ReplaceIdempotent(reports[1..], id, updated);
    }
  }

  /** Deleting by id leaves exactly the entries with other ids, in their
      order: the list shrinks by the number of entries with the id. */
  lemma RemoveByIdKeepsOthers(reports: seq<Report>, id: string)
    ensures IsSubsequence(RemoveById(reports, id), reports)
    ensures |RemoveById(reports, id)| + |Filter(reports, (r: Report) => r.id == id)| == |reports|
  {
    FilterIsSubsequence(reports, (r: Report) => r.id != id);
    FilterComplement(reports, (r: Report) => r.id != id, (r: Report) => r.id == id);
  }

  /** A delete of an id that is not in the list changes nothing. */
  lemma RemoveAbsent(reports: seq<Report>, id: string)
    requires forall i :: 0 <= i < |reports| ==> reports[i].id != id
    ensures RemoveById(reports, id) == reports
  {
    FilterKeepsAll(reports, (r: Report) => r.id != id);
  }

  /** Deleting an id after updating it to a record with the same id is the
      same as deleting it straight away. */
  lemma {:induction false} RemoveAfterReplace(reports: seq<Report>, id: string, updated: Report)
    requires updated.id == id
    ensures RemoveById(ReplaceById(reports, id, updated), id) == RemoveById(reports, id)
    decreases |reports|
  {
    if |reports| > 0 {
      var replaced := ReplaceById(reports, id, updated);
      assert replaced[1..] == ReplaceById(reports[1..], id, updated);
      RemoveAfterReplace(reports[1..], id, updated);
    }
  }

  class ReportFacade {
    var reports: seq<Report>
    var loading: bool
    var error: Option<string>

    /** Starts empty and runs `loadReports` at once; `initial` is the
        outcome of that first call. */
    constructor (initial: CallOutcome<seq<Report>>)
      ensures !loading
      ensures initial.Resolved? ==> reports == initial.value && error == None
      ensures initial.Rejected? ==> reports == [] && error == Some(MessageOr(initial.thrown, LoadFallback))
    {
      reports := [];
      loading := false;
      error := None;
      new;
      LoadReports(initial);
    }

    /** `loadReports`: clears the error, then replaces the list on success
        or records the message (or the fallback) and keeps the list on
        failure; never raises. */
    method LoadReports(listed: CallOutcome<seq<Report>>)
      modifies this`reports, this`loading, this`error
      ensures !loading
      ensures listed.Resolved? ==> reports == listed.value && error == None
      ensures listed.Rejected? ==> reports == old(reports) && error == Some(MessageOr(listed.thrown, LoadFallback))
    {
      loading := true;
      error := None;
      match listed {
        case Resolved(data) =>
          reports := data;
        case Rejected(thrown) =>
          error := Some(MessageOr(thrown, LoadFallback));
      }
      loading := false;
    }

    /** `addReport`: appends the created report on success; a failure
        leaves the list alone and is raised to the caller. */
    method AddReport(request: CreateReportRequest, created: CallOutcome<Report>) returns (raised: Option<Thrown>)
      modifies this`reports, this`loading
      ensures !loading
      ensures created.Resolved? ==> reports == old(reports) + [created.value] && raised == None
      ensures created.Rejected? ==> reports == old(reports) && raised == Some(created.thrown)
    {
      loading := true;
      raised := None;
      match created {
        case Resolved(newReport) =>
          reports := reports + [newReport];
        case Rejected(thrown) =>
          raised := Some(thrown);
      }
      loading := false;
    }

    /** `updateReport`: on success every entry with the id becomes the
        record the backend returned; a failure is raised. */
    method UpdateReport(id: string, request: UpdateReportRequest, updated: CallOutcome<Report>)
      returns (raised: Option<Thrown>)
      modifies this`reports, this`loading
      ensures !loading
      ensures updated.Resolved? ==> reports == ReplaceById(old(reports), id, updated.value) && raised == None
      ensures updated.Rejected? ==> reports == old(reports) && raised == Some(updated.thrown)
    {
      loading := true;
      raised := None;
      match updated {
        case Resolved(record) =>
          reports := ReplaceById(reports, id, record);
        case Rejected(thrown) =>
          raised := Some(thrown);
      }
      loading := false;
    }

    /** `deleteReport`: on success drops every entry with the id; a failure
        is raised. */
    method DeleteReport(id: string, deleted: CallOutcome<()>) returns (raised: Option<Thrown>)
      modifies this`reports, this`loading
      ensures !loading
      ensures deleted.Resolved? ==> reports == RemoveById(old(reports), id) && raised == None
      ensures deleted.Rejected? ==> reports == old(reports) && raised == Some(deleted.thrown)
    {
      loading := true;
      raised := None;
      match deleted {
        case Resolved(_) =>
          reports := RemoveById(reports, id);
        case Rejected(thrown) =>
          raised := Some(thrown);
      }
      loading := false;
    }
  }
}
