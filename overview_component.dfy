/** The standalone data-sources overview component, which keeps its own
    list of sources and derives its tiles from it
    (src/app/data-sources-overview.component.ts). */
module OverviewComponent {
  import opened JsArrays
  import opened DataSourceModel
  import DataSourcesOverview
  import DataSources

  /** This component's own record of a source (its id is a number). */
  datatype Source = Source(id: int, system: string, status: Status, host: string, lastSync: string)

  function CountWhere(sources: seq<Source>, status: Status): nat {
    |Filter(sources, (s: Source) => s.status == status)|
  }

  /** `connectedCount` */
  function ConnectedCount(sources: seq<Source>): (n: nat)
    ensures n <= |sources|
  {
    CountWhere(sources, Connected)
  }

  /** `issuesCount` */
  function IssuesCount(sources: seq<Source>): (n: nat)
    ensures n <= |sources|
  {
    CountWhere(sources, Issues)
  }

  /** `totalCount`: every source is connected, has issues or is
      disconnected, so the total is the sum of the three counts. */
  function TotalCount(sources: seq<Source>): (n: nat)
    ensures n == ConnectedCount(sources) + IssuesCount(sources) + CountWhere(sources, Disconnected)
  {
    FilterPartition3(sources,
      (s: Source) => s.status == Connected,
      (s: Source) => s.status == Issues,
      (s: Source) => s.status == Disconnected);
    |sources|
  }

  /** `syncSuccessPercent`: the share of connected sources in percent,
      rounded to the nearest integer, and 0 for an empty list. The exact
      value of `Math.round(connected / total * 100)` is
      `(200 * connected + total) div (2 * total)`. */
  function SyncSuccessPercent(sources: seq<Source>): (percent: nat)
    ensures |sources| == 0 ==> percent == 0
    ensures percent <= 100
  {
    var total := |sources|;
    var connected := CountWhere(sources, Connected);
    if total != 0 then
      DataSourcesOverview.RoundedPercentBound(total, connected);
      (200 * connected + total) / (2 * total)
    else 0
  }

  /** The two views of the same sources, one record per source in the same
      order, report the same number of sources with a given status. */
  lemma {:induction false} CountsMatch(sources: seq<Source>, cached: seq<DataSource>, status: Status)
    requires |sources| == |cached|
    requires forall i :: 0 <= i < |sources| ==> sources[i].status == cached[i].status
    ensures CountWhere(sources, status) == DataSources.StatusCount(cached, status)
    decreases |sources|
  {
    if |sources| > 0 {
      CountsMatch(sources[1..], cached[1..], status);
    }
  }

  /** The tile shows the same percentage as the overview container's
      `dataSyncSuccess` computed from the facade's counts over the same
      sources. */
  lemma SyncSuccessAgrees(sources: seq<Source>, cached: seq<DataSource>)
    requires |sources| == |cached|
    requires forall i :: 0 <= i < |sources| ==> sources[i].status == cached[i].status
    ensures SyncSuccessPercent(sources)
      == DataSourcesOverview.DataSyncSuccess(|cached|, DataSources.StatusCount(cached, Connected))
  {
    CountsMatch(sources, cached, Connected);
  }
}
