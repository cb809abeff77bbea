/** User reports (routes/reports.js over models/Report.js): evidence
    uploads, filing a report, and listing one's own reports. The remote
    media store is a parameter. */
module Reports {
  import opened Base
  import opened Sorting

  datatype ReportStatus = Received | Reviewing | Resolved

  datatype Report = Report(
    id: Id,
    owner: Id,
    targetId: string,
    category: string,
    reason: string,
    evidenceUrls: seq<JsValue>,
    status: ReportStatus,
    createdAt: int)

  /** The request body's fields; absent ones are `Undefined`. */
  datatype ReportForm = ReportForm(targetId: JsValue, category: JsValue, reason: JsValue, evidenceUrls: JsValue)

  /** A file multer accepted. */
  datatype EvidenceFile = EvidenceFile(mimeType: string, size: nat)

  const TargetAndReasonRequired := "targetId, reason 필수"
  const DefaultCategory := "기타"
  const RequiredPath := "Path is required."
  const MaxEvidence := 20
  const DefaultListLimit := 20
  const MaxListLimit := 100

  /** The evidence filter `^(image|video|audio)/`. */
  predicate EvidenceMime(m: string)
  {
    StartsWith(m, "image/") || StartsWith(m, "video/") || StartsWith(m, "audio/")
  }

  /** `POST /api/reports/evidences`: no files give no URLs; otherwise every
      file is uploaded and the URLs come back in file order. One failed
      upload fails the request (500). */
  function Evidences(files: seq<EvidenceFile>, upload: EvidenceFile -> Option<string>): (r: Reply<seq<string>>)
    ensures files == [] ==> r == Ok([])
    ensures r.Ok? <==> forall i :: 0 <= i < |files| ==> upload(files[i]).Some?
    ensures r.Fail? ==> r.status == 500
    ensures r.Ok? ==> |r.value| == |files| && forall i :: 0 <= i < |files| ==> r.value[i] == upload(files[i]).value
  {
    if files == [] then Ok([])
    else
      match upload(files[0])
      case None => Fail(500, "upload failed")
      case Some(url) =>
        match Evidences(files[1..], upload)
        case Fail(status, message) => Fail(status, message)
        case Ok(rest) =>
          assert forall i :: 1 <= i < |files| ==> files[i] == files[1..][i - 1];
          Ok([url] + rest)
  }

  /** The evidence list stored with a report: the first 20 items of an
      array, else none. */
  function EvidenceList(v: JsValue): (r: seq<JsValue>)
    ensures |r| <= MaxEvidence
    ensures v.Arr? ==> r == v.items[..Min(|v.items|, MaxEvidence)]
    ensures !v.Arr? ==> r == []
  {
    if v.Arr? then TakeFirst(v.items, Some(MaxEvidence)) else []
  }

  /** `POST /api/reports` up to `Report.create`: 400 unless the target id
      and the reason are truthy; the owner must be an ObjectId and the
      required strings non-empty after `String(..)`, or saving fails (500).
      A falsy category is "기타", and a new report is "received". */
  function NewReport(owner: Id, form: ReportForm, freshId: Id, now: int): (r: Reply<Report>)
    ensures !Truthy(form.targetId) || !Truthy(form.reason) ==> r == Fail(400, TargetAndReasonRequired)
    ensures r.Fail? ==> r.status == 400 || r.status == 500
    ensures r.Ok? <==> Truthy(form.targetId) && Truthy(form.reason) && IsObjectId(owner)
                       && JsString(form.targetId) != [] && JsString(form.reason) != []
    ensures r.Ok? ==> && r.value.id == freshId && r.value.owner == owner && r.value.createdAt == now
                      && r.value.targetId == JsString(form.targetId) && r.value.reason == JsString(form.reason)
                      && r.value.status == Received && r.value.evidenceUrls == EvidenceList(form.evidenceUrls)
    ensures r.Ok? && !Truthy(form.category) ==> r.value.category == DefaultCategory
    ensures r.Ok? && Truthy(form.category) ==> r.value.category == JsString(form.category)
  {
    if !Truthy(form.targetId) || !Truthy(form.reason) then Fail(400, TargetAndReasonRequired)
    else if !IsObjectId(owner) then Fail(500, CastFailure)
    else if JsString(form.targetId) == [] || JsString(form.reason) == [] then Fail(500, RequiredPath)
    else Ok(Report(freshId, owner, JsString(form.targetId), JsString(Or(form.category, Str(DefaultCategory))),
                   JsString(form.reason), EvidenceList(form.evidenceUrls), Received, now))
  }

  /** A truthy value can still print as the empty string: `[""]` passes
      the 400 check and then fails the required-path validation. */
  lemma TruthyButEmptyTarget(owner: Id, freshId: Id, now: int)
    requires IsObjectId(owner)
    ensures var form := ReportForm(Arr([Str("")]), Undefined, Str("spam"), Undefined);
      Truthy(form.targetId) && NewReport(owner, form, freshId, now) == Fail(500, RequiredPath)
  {
    assert JsString(Arr([Str("")])) == "";
  }

  /** `Math.max(1, Math.min(100, Number(limit) || 20))` */
  function ListLimit(limit: JsValue): (n: nat)
    ensures 1 <= n <= MaxListLimit
    ensures ToNumber(limit).None? || ToNumber(limit).value == 0 ==> n == DefaultListLimit
    ensures ToNumber(limit).Some? && 1 <= ToNumber(limit).value <= MaxListLimit ==> n == ToNumber(limit).value
  {
    Max(1, Min(MaxListLimit, NumberOr(limit, DefaultListLimit)))
  }

  function ReportCreatedAt(r: Report): int { r.createdAt }

  /** The reports of one owner, in store order. */
  function ReportsOf(rs: seq<Report>, owner: Id): seq<Report>
  {
    Filter(rs, (r: Report) => r.owner == owner)
  }

  predicate ReportIdsUnique(rs: seq<Report>)
  {
    forall i, j :: 0 <= i < j < |rs| ==> rs[i].id != rs[j].id
  }

  /** The caller's reports, newest first, cut to the limit. */
  function MyReports(rs: seq<Report>, me: Id, limit: JsValue): (r: Reply<seq<Report>>)
    ensures r.Fail? <==> !IsObjectId(me)
    ensures r.Ok? ==> SortedDesc(r.value, ReportCreatedAt)
    ensures r.Ok? ==> |r.value| == Min(ListLimit(limit), |ReportsOf(rs, me)|)
    ensures r.Ok? ==> forall x :: x in r.value ==> x in rs && x.owner == me
    ensures r.Ok? ==> forall x, y :: x in r.value && y in rs && y.owner == me && y !in r.value ==> y.createdAt <= x.createdAt
  {
    if !IsObjectId(me) then Fail(500, CastFailure)
    else
      var sorted := SortDesc(ReportsOf(rs, me), ReportCreatedAt);
      var page := TakeFirst(sorted, Some(ListLimit(limit)));
      forall x | x in page ensures x in rs && x.owner == me {
        SortDescMembers(ReportsOf(rs, me), ReportCreatedAt, x);
      }
      forall x, y | x in page && y in rs && y.owner == me && y !in page ensures y.createdAt <= x.createdAt {
        SortDescMembers(ReportsOf(rs, me), ReportCreatedAt, y);
        var i :| 0 <= i < |page| && page[i] == x;
        var j :| 0 <= j < |sorted| && sorted[j] == y;
        assert page[i] == sorted[i];
        assert |page| <= j;
      }
      Ok(page)
  }

  /** No report of the caller is newer than the first one listed. */
  lemma {:induction false} ListStartsWithNewest(rs: seq<Report>, me: Id, limit: JsValue, x: Report)
    requires IsObjectId(me) && x in rs && x.owner == me
    ensures |MyReports(rs, me, limit).value| > 0
    ensures x.createdAt <= MyReports(rs, me, limit).value[0].createdAt
  {
    var mine := ReportsOf(rs, me);
    var sorted := SortDesc(mine, ReportCreatedAt);
    SortDescMembers(mine, ReportCreatedAt, x);
    var j :| 0 <= j < |sorted| && sorted[j] == x;
    assert MyReports(rs, me, limit).value[0] == sorted[0];
  }

  class Desk {
    var reports: seq<Report>

    ghost predicate Valid()
      reads this
    {
      ReportIdsUnique(reports) && forall i :: 0 <= i < |reports| ==> reports[i].status == Received
    }

    constructor()
      ensures Valid() && reports == []
    {
      reports := [];
    }

    /** `POST /api/reports`: the report `NewReport` describes is stored
        (201); nothing is stored otherwise. */
    method File(owner: Id, form: ReportForm, freshId: Id, now: int) returns (r: Reply<Report>)
      requires Valid()
      requires forall i :: 0 <= i < |reports| ==> reports[i].id != freshId
      modifies this`reports
      ensures Valid()
      ensures r == NewReport(owner, form, freshId, now)
      ensures r.Ok? ==> reports == old(reports) + [r.value]
      ensures r.Fail? ==> reports == old(reports)
    {
      r := NewReport(owner, form, freshId, now);
      if r.Ok? {
        reports := reports + [r.value];
      }
    }

    /** `GET /api/reports` */
    function List(me: Id, limit: JsValue): (r: Reply<seq<Report>>)
      reads this
      ensures r.Fail? <==> !IsObjectId(me)
      ensures r.Ok? ==> SortedDesc(r.value, ReportCreatedAt) && |r.value| <= MaxListLimit
      ensures r.Ok? ==> forall x :: x in r.value ==> x in reports && x.owner == me
    {
      MyReports(reports, me, limit)
    }
  }

  /** A filed report shows up in its owner's list when it is the newest. */
  lemma FiledReportListed(rs: seq<Report>, owner: Id, form: ReportForm, freshId: Id, now: int, limit: JsValue)
    requires NewReport(owner, form, freshId, now).Ok?
    requires forall i :: 0 <= i < |rs| ==> rs[i].createdAt < now
    ensures var x := NewReport(owner, form, freshId, now).value;
      MyReports(rs + [x], owner, limit).value[0] == x
  {
    var x := NewReport(owner, form, freshId, now).value;
    var all := rs + [x];
    ListStartsWithNewest(all, owner, limit, x);
    var first := MyReports(all, owner, limit).value[0];
    assert first in all;
  }
}
