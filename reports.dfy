/**
  The date-range check `AnalyticsReportCreateSerializer.validate` applies to a
  request for an analytics report: a range whose start is after its end is
  refused; any other request is passed on unchanged.
*/
module Reports {
  import opened Wrappers
  import opened Dates

  /** The validated fields of a report request; the ones the check does not read are
      carried along untouched. */
  datatype ReportRequest = ReportRequest(name: string, reportType: string, startDate: Date, endDate: Date)

  datatype ReportError = EndBeforeStart

  /** `validate(data)`: an error exactly when `start_date > end_date`, otherwise the data
      itself. */
  function ValidateReport(data: ReportRequest): (r: Result<ReportRequest, ReportError>)
    ensures r.Ok? <==> LessEq(data.startDate, data.endDate)
    ensures r.Ok? ==> r.value == data
    ensures r.Err? ==> Before(data.endDate, data.startDate)
  {
    if Before(data.endDate, data.startDate) then Err(EndBeforeStart) else Ok(data)
  }

  /** A one-day report, starting and ending on the same date, is accepted, although the
      error message speaks of the end being "after" the start. */
  lemma SameDayAccepted(data: ReportRequest)
    requires data.startDate == data.endDate
    ensures ValidateReport(data) == Ok(data)
  {
  }
}
