/** The monthly report screen: a 1-based (year, month) selector stepping
    across year boundaries, and the loading/report state around the report
    request, whose outcome is passed in. */
module Report {
  import opened Records
  import Calendar

  /** The report body: its text and, when the server sends it, the diary count. */
  datatype ReportData = ReportData(text: string, diaryCount: Option<int>)

  /** How the report request ended: a JSON body, or an exception (network
      failure or a body that is not JSON). */
  datatype FetchOutcome = Responded(body: ReportData) | Failed

  /** The text shown when the request fails. */
  const FailureText: string := "리포트를 불러오는데 실패했어요."

  /** `new Date(year, month - 2, 1)` read back as a 1-based month. */
  function PrevReportMonth(y: int, m: int): (r: (int, int))
    ensures 1 <= r.1 <= 12
    ensures m == 1 ==> r == (y - 1, 12)
    ensures 2 <= m <= 12 ==> r == (y, m - 1)
  {
    var n := Calendar.NormalizeMonth(y, m - 2);
    (n.0, n.1 + 1)
  }

  /** `new Date(year, month, 1)` read back as a 1-based month. */
  function NextReportMonth(y: int, m: int): (r: (int, int))
    ensures 1 <= r.1 <= 12
    ensures m == 12 ==> r == (y + 1, 1)
    ensures 1 <= m <= 11 ==> r == (y, m + 1)
  {
    var n := Calendar.NormalizeMonth(y, m);
    (n.0, n.1 + 1)
  }

  /** Stepping back and then forward, or forward and then back, returns to the same month. */
  lemma {:induction false} ReportNavigationInverse(y: int, m: int)
    requires 1 <= m <= 12
    ensures NextReportMonth(PrevReportMonth(y, m).0, PrevReportMonth(y, m).1) == (y, m)
    ensures PrevReportMonth(NextReportMonth(y, m).0, NextReportMonth(y, m).1) == (y, m)
  {
  }

  /** The report screen's state. */
  class MonthlyReport {
    var year: int
    var month: int
    var report: Option<ReportData>
    var isLoading: bool

    ghost predicate Valid()
      reads this
    {
      1 <= month <= 12
    }

    /** Opens on the current month (`getMonth() + 1`), with no report and not loading. */
    constructor (nowYear: int, nowMonth: int)
      requires 0 <= nowMonth < 12
      ensures Valid()
      ensures year == nowYear && month == nowMonth + 1
      ensures report == None && !isLoading
    {
      year, month := nowYear, nowMonth + 1;
      report, isLoading := None, false;
    }

    method ShowPreviousMonth()
      requires Valid()
      modifies this
      ensures Valid()
      ensures (year, month) == PrevReportMonth(old(year), old(month))
      ensures report == old(report) && isLoading == old(isLoading)
    {
      var p := PrevReportMonth(year, month);
      year, month := p.0, p.1;
    }

    method ShowNextMonth()
      requires Valid()
      modifies this
      ensures Valid()
      ensures (year, month) == NextReportMonth(old(year), old(month))
      ensures report == old(report) && isLoading == old(isLoading)
    {
      var n := NextReportMonth(year, month);
      year, month := n.0, n.1;
    }

    /** The start of `fetchReport`: loading, the old report cleared, and the
        request made for the month shown now. */
    method StartFetch() returns (requestYear: int, requestMonth: int)
      requires Valid()
      modifies this
      ensures Valid()
      ensures isLoading && report == None
      ensures requestYear == year && requestMonth == month
      ensures year == old(year) && month == old(month)
    {
      isLoading := true;
      report := None;
      requestYear, requestMonth := year, month;
    }

    /** The end of `fetchReport`: the body, or the failure text without a diary
        count; loading is over either way. */
    method FinishFetch(outcome: FetchOutcome)
      requires Valid()
      modifies this
      ensures Valid()
      ensures !isLoading
      ensures outcome.Responded? ==> report == Some(outcome.body)
      ensures outcome.Failed? ==> report == Some(ReportData(FailureText, None))
      ensures year == old(year) && month == old(month)
    {
      match outcome {
        case Responded(body) => report := Some(body);
        case Failed => report := Some(ReportData(FailureText, None));
      }
      isLoading := false;
    }
  }

  /** A whole `fetchReport` run: whatever the outcome, loading ends false and a report is shown. */
  method FetchReport(r: MonthlyReport, outcome: FetchOutcome) returns (requestYear: int, requestMonth: int)
    requires r.Valid()
    modifies r
    ensures r.Valid()
    ensures !r.isLoading && r.report.Some?
    ensures outcome.Failed? ==> r.report.value.diaryCount.None?
    ensures (requestYear, requestMonth) == (r.year, r.month) == (old(r.year), old(r.month))
  {
    requestYear, requestMonth := r.StartFetch();
    r.FinishFetch(outcome);
  }
}
