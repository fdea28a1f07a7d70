/** The data-source records exchanged with the backend
    (src/app/core/models/data-source.model.ts). */
module DataSourceModel {
  import opened AsyncCalls

  /** `'connected' | 'disconnected' | 'issues'` */
  datatype Status = Connected | Disconnected | Issues

  datatype DataSource = DataSource(
    id: string,
    system: string,
    status: Status,
    host: string,
    port: Option<string>,
    database: Option<string>,
    username: Option<string>,
    lastSync: string,
    createdAt: Option<string>,
    updatedAt: Option<string>)

  /** The body of a create request. `selectedFields` is optional because
      the wizard may hold no bound list (see the step-2 component). */
  datatype CreateDataSourceRequest = CreateDataSourceRequest(
    system: string,
    dbType: string,
    host: string,
    port: string,
    database: string,
    username: string,
    password: string,
    selectedTable: string,
    selectedFields: Option<seq<string>>,
    syncFrequency: string,
    transformationRules: string)
}
