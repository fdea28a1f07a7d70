/** The data-sources facade: the cached list of data sources, the loading
    flag, the error message, and the version counter whose every bump asks
    for a reload (src/app/core/facades/data-sources.facade.ts). */
module DataSources {
  import opened AsyncCalls
  import opened JsArrays
  import opened DataSourceModel

  /** `{ success: true }` or `{ success: false, error }`. */
  datatype MutationResult = Succeeded | Failed(error: string)

  const LoadFallback := "Failed to load data sources"
  const CreateFallback := "Failed to create data source"
  const DeleteFallback := "Failed to delete data source"

  /** `sources.filter(ds => ds.status === status).length` */
  function StatusCount(sources: seq<DataSource>, status: Status): (n: nat)
    ensures n <= |sources|
  {
    |Filter(sources, (d: DataSource) => d.status == status)|
  }

  /** Every source has exactly one of the three statuses, so the three
      counts add up to the total. */
  lemma StatusCountsPartition(sources: seq<DataSource>)
    ensures StatusCount(sources, Connected) + StatusCount(sources, Issues)
      + StatusCount(sources, Disconnected) == |sources|
  {
    FilterPartition3(sources,
      (d: DataSource) => d.status == Connected,
      (d: DataSource) => d.status == Issues,
      (d: DataSource) => d.status == Disconnected);
  }

  class DataSourcesFacade {
    var dataVersion: int
    var cachedDataSources: seq<DataSource>
    var cachedError: Option<string>
    var isLoading: bool
    var lastError: Option<string>

    /** The constructor requests the first load. */
    constructor ()
      ensures dataVersion == 1 && cachedDataSources == [] && cachedError == None
      ensures !isLoading && lastError == None
    {
      dataVersion := 0;
      cachedDataSources := [];
      cachedError := None;
      isLoading := false;
      lastError := None;
      new;
      LoadDataSources();
    }

    function DataSources(): seq<DataSource>
      reads this
    {
      cachedDataSources
    }

    /** `connectedSources` */
    function ConnectedSources(): (n: nat)
      reads this
      ensures n <= |cachedDataSources|
    {
      StatusCount(DataSources(), Connected)
    }

    /** `sourcesWithIssues` */
    function SourcesWithIssues(): (n: nat)
      reads this
      ensures n <= |cachedDataSources|
    {
      StatusCount(DataSources(), Issues)
    }

    /** `disconnectedSources` */
    function DisconnectedSources(): (n: nat)
      reads this
      ensures n <= |cachedDataSources|
    {
      StatusCount(DataSources(), Disconnected)
    }

    /** `totalSources`: every cached source is counted by exactly one of
        the three status tiles. */
    function TotalSources(): (n: nat)
      reads this
      ensures n == ConnectedSources() + SourcesWithIssues() + DisconnectedSources()
    {
      StatusCountsPartition(DataSources());
      |DataSources()|
    }

    /** `_performLoad`: a resolved list replaces the cache and clears the
        error; a rejection keeps the old list and records the message. The
        loading flag ends false either way. */
    method PerformLoad(list: CallOutcome<seq<DataSource>>)
      modifies this`isLoading, this`cachedDataSources, this`cachedError
      ensures !isLoading
      ensures list.Resolved? ==> cachedDataSources == list.value && cachedError == None
      ensures list.Rejected? ==>
        cachedDataSources == old(cachedDataSources) && cachedError == Some(InstanceMessage(list.thrown, LoadFallback))
    {
      isLoading := true;
      match list {
      case Resolved(result) =>
        cachedDataSources := result;
        cachedError := None;
      case Rejected(error) =>
        cachedError := Some(InstanceMessage(error, LoadFallback));
      }
      isLoading := false;
    }

    /** `loadDataSources`: bumps the version, which requests a reload. */
    method LoadDataSources()
      modifies this`dataVersion
      ensures dataVersion == old(dataVersion) + 1
    {
      dataVersion := dataVersion + 1;
    }

    /** `addDataSource`: clears the error first; success requests a reload
        and returns `Succeeded`; failure records and returns the message.
        The loading flag ends false either way and the list is untouched. */
    method AddDataSource(request: CreateDataSourceRequest, created: CallOutcome<()>)
      returns (result: MutationResult)
      modifies this`isLoading, this`cachedError, this`dataVersion
      ensures !isLoading
      ensures created.Resolved? ==>
        result == Succeeded && cachedError == None && dataVersion == old(dataVersion) + 1
      ensures created.Rejected? ==> var message := InstanceMessage(created.thrown, CreateFallback);
        result == Failed(message) && cachedError == Some(message) && dataVersion == old(dataVersion)
    {
      isLoading := true;
      cachedError := None;
      match created {
      case Resolved(_) =>
        LoadDataSources();
        result := Succeeded;
      case Rejected(error) =>
        var message := InstanceMessage(error, CreateFallback);
        cachedError := Some(message);
        result := Failed(message);
      }
      isLoading := false;
    }

    /** `deleteDataSource`: does not clear an earlier error; success
        requests a reload; failure records and returns the message and
        leaves the version as it was. The loading flag ends false. */
    method DeleteDataSource(id: string, deleted: CallOutcome<()>) returns (result: MutationResult)
      modifies this`isLoading, this`cachedError, this`dataVersion
      ensures !isLoading
      ensures deleted.Resolved? ==>
        result == Succeeded && cachedError == old(cachedError) && dataVersion == old(dataVersion) + 1
      ensures deleted.Rejected? ==> var message := InstanceMessage(deleted.thrown, DeleteFallback);
        result == Failed(message) && cachedError == Some(message) && dataVersion == old(dataVersion)
    {
      isLoading := true;
      match deleted {
      case Resolved(_) =>
        LoadDataSources();
        result := Succeeded;
      case Rejected(error) =>
        var message := InstanceMessage(error, DeleteFallback);
        cachedError := Some(message);
        result := Failed(message);
      }
      isLoading := false;
    }

    /** The body of `_errorEffect`: publish the cached error. */
    method ErrorEffect()
      modifies this`lastError
      ensures lastError == cachedError
    {
      lastError := cachedError;
    }

    /** `clearError` clears both the cached and the published error. */
    method ClearError()
      modifies this`cachedError, this`lastError
      ensures cachedError == None && lastError == None
    {
      cachedError := None;
      lastError := None;
    }
  }
}
