/** The report records exchanged with the backend
    (src/app/core/models/report.model.ts). */
module ReportModel {
  import opened AsyncCalls

  /** `'Completato' | 'Inviato' | 'Archiviato'` */
  datatype ReportStatus = Completato | Inviato | Archiviato

  datatype Report = Report(
    id: string,
    name: string,
    size: string,
    pages: int,
    format: string,
    template: string,
    language: string,
    status: ReportStatus,
    generatedAt: string,
    period: string)

  /** A report without its id, which the backend assigns. */
  datatype CreateReportRequest = CreateReportRequest(
    name: string,
    size: string,
    pages: int,
    format: string,
    template: string,
    language: string,
    status: ReportStatus,
    generatedAt: string,
    period: string)

  /** A partial update: every field but the id may be left out. */
  datatype UpdateReportRequest = UpdateReportRequest(
    id: string,
    name: Option<string>,
    size: Option<string>,
    pages: Option<int>,
    format: Option<string>,
    template: Option<string>,
    language: Option<string>,
    status: Option<ReportStatus>,
    generatedAt: Option<string>,
    period: Option<string>)
}
