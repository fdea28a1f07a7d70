/** The add-data-source wizard: a step counter over 1..3, the connection
    fields of step 1, the configuration fields of step 2, and the publish
    request sent through the data-sources facade
    (src/app/features/data-sources/add/add-data-source-container.component.ts). */
module AddSourceContainer {
  import opened AsyncCalls
  import opened DataSourceModel
  import AddSourceStep2
  import AddSourceStepper
  import DataSources

  /** The payload of step 1's `next` event. */
  datatype Step1Values = Step1Values(
    dbType: string,
    host: string,
    port: string,
    database: string,
    username: string,
    password: string)

  class AddSourceContainer {
    var step: int
    var dbType: string
    var host: string
    var port: string
    var database: string
    var username: string
    var password: string
    var isSubmitting: bool
    var error: Option<string>
    var success: bool
    var selectedDatabase: string
    var selectedTable: string
    var selectedFields: Option<seq<string>>
    var syncFrequency: string
    var transformationRules: string
    const dataSourcesFacade: DataSources.DataSourcesFacade

    /** The step counter stays within the three steps. */
    ghost predicate Valid()
      reads this
    {
      1 <= step <= 3
    }

    function Step1(): Step1Values
      reads this
    {
      Step1Values(dbType, host, port, database, username, password)
    }

    function Step2(): AddSourceStep2.Step2Values
      reads this
    {
      AddSourceStep2.Step2Values(selectedDatabase, selectedTable, selectedFields, syncFrequency, transformationRules)
    }

    /** The wizard opens on step 1 with Oracle preselected, hourly sync and
        every other field empty. */
    constructor (facade: DataSources.DataSourcesFacade)
      ensures Valid() && step == 1 && dataSourcesFacade == facade
      ensures Step1() == Step1Values("Oracle", "", "", "", "", "")
      ensures Step2() == AddSourceStep2.Step2Values("", "", Some([]), "Hourly", "")
      ensures !isSubmitting && error == None && !success
    {
      step := 1;
      dbType := "Oracle";
      host := "";
      port := "";
      database := "";
      username := "";
      password := "";
      isSubmitting := false;
      error := None;
      success := false;
      selectedDatabase := "";
      selectedTable := "";
      selectedFields := Some([]);
      syncFrequency := "Hourly";
      transformationRules := "";
      dataSourcesFacade := facade;
    }

    /** `currentStepLabel`: a fixed title for steps 1 to 3, empty otherwise. */
    function CurrentStepLabel(): (title: string)
      reads this
      ensures Valid() ==> title != ""
      ensures !Valid() ==> title == ""
    {
      match step
      case 1 => "Database Connection"
      case 2 => "Data Configuration"
      case 3 => "Review & Publish"
      case _ => ""
    }

    /** `progress`: 33, 66 and 100 for steps 1, 2 and anything else; the
        same mapping as the stepper's bar. */
    function Progress(): (percent: int)
      reads this
      ensures percent == AddSourceStepper.Progress(step)
    {
      if step == 1 then 33 else if step == 2 then 66 else 100
    }

    /** `onTestConnection`: records the connection test result only. */
    method OnTestConnection(valid: bool)
      modifies this`success
      ensures success == valid
    {
      success := valid;
    }

    /** `onStep1Next`: copies the six connection fields and moves to step 2;
        the step-2 state is untouched. */
    method OnStep1Next(data: Step1Values)
      modifies this`dbType, this`host, this`port, this`database, this`username, this`password, this`step
      ensures Step1() == data && step == 2 && Valid()
      ensures Step2() == old(Step2())
    {
      dbType := data.dbType;
      host := data.host;
      port := data.port;
      database := data.database;
      username := data.username;
      password := data.password;
      step := 2;
    }

    /** `onFieldsChange`: takes over the list step 2 emitted. */
    method OnFieldsChange(fields: seq<string>)
      modifies this`selectedFields
      ensures selectedFields == Some(fields)
    {
      selectedFields := Some(fields);
    }

    /** `onStep2Next`: copies the five configuration fields and moves to
        step 3; the connection fields are untouched. */
    method OnStep2Next(data: AddSourceStep2.Step2Values)
      modifies this`selectedDatabase, this`selectedTable, this`selectedFields,
        this`syncFrequency, this`transformationRules, this`step
      ensures Step2() == data && step == 3 && Valid()
      ensures Step1() == old(Step1())
    {
      selectedDatabase := data.selectedDatabase;
      selectedTable := data.selectedTable;
      selectedFields := data.selectedFields;
      syncFrequency := data.syncFrequency;
      transformationRules := data.transformationRules;
      step := 3;
    }

    /** `prevStep`: one step back, except on step 1 where nothing happens. */
    method PrevStep()
      modifies this`step
      ensures old(Valid()) ==> Valid()
      ensures old(step) > 1 ==> step == old(step) - 1
      ensures old(step) <= 1 ==> step == old(step)
    {
      if step > 1 {
        step := step - 1;
      }
    }

    /** The request `onPublish` sends: `system` repeats `dbType` and every
        other field is the current state. */
    function PublishRequest(): (request: CreateDataSourceRequest)
      reads this
      ensures request.system == request.dbType == dbType
      ensures request.host == host && request.port == port && request.database == database
      ensures request.username == username && request.password == password
      ensures request.selectedTable == selectedTable && request.selectedFields == selectedFields
      ensures request.syncFrequency == syncFrequency && request.transformationRules == transformationRules
    {
      CreateDataSourceRequest(dbType, dbType, host, port, database, username, password,
        selectedTable, selectedFields, syncFrequency, transformationRules)
    }

    /** `onPublish`: hands the request to the facade and navigates back to
        the overview only on success; the wizard's own state never changes. */
    method OnPublish(created: CallOutcome<()>) returns (navigate: bool)
      modifies dataSourcesFacade`isLoading, dataSourcesFacade`cachedError, dataSourcesFacade`dataVersion
      ensures unchanged(this)
      ensures navigate <==> created.Resolved?
      ensures !dataSourcesFacade.isLoading
      ensures created.Resolved? ==>
        dataSourcesFacade.cachedError == None && dataSourcesFacade.dataVersion == old(dataSourcesFacade.dataVersion) + 1
      ensures created.Rejected? ==>
        && dataSourcesFacade.cachedError == Some(InstanceMessage(created.thrown, DataSources.CreateFallback))
        && dataSourcesFacade.dataVersion == old(dataSourcesFacade.dataVersion)
    {
      var result := dataSourcesFacade.AddDataSource(PublishRequest(), created);
      navigate := result.Succeeded?;
    }
  }
}
