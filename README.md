# Data-platform console core, modelled in Dafny

The console is an Angular application for registering database sources,
browsing processed files and managing generated reports. Most of it is
templates and fetch wrappers. This project models the logic that sits
between them and proves what it promises:

- the breadcrumb trail built from the router URL (`Breadcrumb`);
- the comma-separated field list of the add-data-source wizard's step 2,
  with its parser and printer (`AddSourceStep2`);
- the wizard's step machine, form state and publish request
  (`AddSourceContainer`, `AddSourceStepper`);
- the data-sources facade's status counts and its load, add, delete and
  clear-error operations (`DataSources`);
- the rounded sync-success percentage (`DataSourcesOverview`) and the
  standalone overview component's tiles (`OverviewComponent`);
- the file-management filter pipeline and its summary counters
  (`FileManagementContainer`, `FileManagementPresentation`);
- the report store's load, add, update and delete (`Reports`).

Three helper modules give the JavaScript built-ins the core relies on an
exact meaning over ASCII text:
- `JsStrings`: `split` on one character, `join`, `trim`, `toLowerCase`, `includes` and `endsWith`.
- `JsArrays`: `filter`, `map`, and "is an order-preserving sublist".
- `AsyncCalls`: `null`/`undefined` as `Option`, what a rejected call threw, and `err.message || fallback`.

A call to the backend is never made. The operation that awaits it takes the
call's outcome as a parameter: `Resolved(value)` or `Rejected(thrown)`.
Each `async` operation is modelled as one atomic step from its start state
to its final state. Signals become class fields, and `computed` values
become functions of those fields.

## Model

| member | source | states |
|---|---|---|
| Breadcrumb.Segments | src/app/breadcrumb.component.ts:32 | every segment kept from the URL is non-empty and contains no `/` |
| Breadcrumb.FormatLabel | src/app/breadcrumb.component.ts:45-52 | a label never starts with a lower-case letter |
| Breadcrumb.Breadcrumbs | src/app/breadcrumb.component.ts:31-43 | never empty; one crumb per segment when the url has segments |
| Breadcrumb.BuildBreadcrumbs | src/app/breadcrumb.component.ts:31-43 | the loop that extends `path` and pushes a crumb per segment returns exactly the trail `Breadcrumbs(url)` |
| Breadcrumb.TrailLength | src/app/breadcrumb.component.ts:34-38 | the loop pushes exactly one crumb per segment |
| Breadcrumb.TrailAt | src/app/breadcrumb.component.ts:34-38 | crumb i carries `formatLabel(segment i)` and the path of the first i+1 segments |
| Breadcrumb.TrailLinks | src/app/breadcrumb.component.ts:34-38 | over clean segments, crumb i's url is normalised, crumb 0's url is `/` + segment 0, and crumb i's url is crumb i-1's url + `/` + segment i |
| Breadcrumb.TrailShape | src/app/breadcrumb.component.ts:34-38 | the same facts for every index of a non-empty trail at once |
| Breadcrumb.BreadcrumbsShape | src/app/breadcrumb.component.ts:32-42 | one crumb per non-empty segment, or exactly the fallback crumb when there are none; labels, the first url, each url extending the previous one, and every url normalised |
| Breadcrumb.FallbackIsNormal | src/app/breadcrumb.component.ts:39-41 | the fallback url `/data-sources` is a normalised path |
| Breadcrumb.PathOfIsNormal | src/app/breadcrumb.component.ts:36 | a path built from non-empty slash-free segments starts with `/`, has no trailing `/` and no `//` |
| Breadcrumb.PathOfIsJoin | src/app/breadcrumb.component.ts:34-37 | the accumulated path is `/` + the segments joined by `/` |
| Breadcrumb.SegmentsOfPath | src/app/breadcrumb.component.ts:32-36 | splitting a built path again gives back its segments |
| Breadcrumb.LastCrumbNormalisesUrl | src/app/breadcrumb.component.ts:32-38 | the last crumb's url is `/` + the non-empty segments joined by `/`, so it re-splits to the URL's own segments |
| Breadcrumb.FormatLabelKnown | src/app/breadcrumb.component.ts:47-49 | `data-sources`, `add` and `dashboard` map to `Data Sources`, `Add Source` and `Dashboard` |
| Breadcrumb.FormatLabelOther | src/app/breadcrumb.component.ts:50 | any other non-empty segment keeps its length and all but its first character, which is upper-cased |
| Breadcrumb.FormatLabelIdempotent | src/app/breadcrumb.component.ts:45-52 | formatting a label a second time changes nothing |
| AsyncCalls.InstanceMessage | src/app/core/facades/data-sources.facade.ts:70 | an `Error`'s own message, even an empty one; the fallback for any other thrown value |
| AsyncCalls.InstanceMessageVersusMessageOr | src/app/core/facades/data-sources.facade.ts:70 | the `instanceof Error` reading and the falsy-message reading (`MessageOr`) agree except for an `Error` with an empty message and a non-`Error` with a non-empty `message` |
| AsyncCalls.MessageOr | src/app/core/facades/report.facade.ts:26 | `err.message` when it is present and non-empty, else the fallback; never empty when the fallback is not |
| AddSourceStep2.ParseFields | src/app/features/data-sources/add/add-data-source-step2.component.ts:99 | every parsed field is non-empty, has no surrounding whitespace and holds no comma |
| AddSourceStep2.ParseAroundComma | src/app/features/data-sources/add/add-data-source-step2.component.ts:99 | parsing text around a comma is parsing each side and concatenating |
| AddSourceStep2.ParseLeadingSpace | src/app/features/data-sources/add/add-data-source-step2.component.ts:99 | a leading space does not change the parse |
| AddSourceStep2.ParseSingle | src/app/features/data-sources/add/add-data-source-step2.component.ts:99 | a printable field parses to the list holding just that field |
| AddSourceStep2.ParseAfterSeparator | src/app/features/data-sources/add/add-data-source-step2.component.ts:94-99 | a printable field followed by `", "` parses to that field followed by the parse of the rest |
| AddSourceStep2.ParsePrinted | src/app/features/data-sources/add/add-data-source-step2.component.ts:94-99 | round trip: parsing the getter's `", "`-joined text restores any list of non-empty, trimmed, comma-free fields |
| AddSourceStep2.ParseBlank | src/app/features/data-sources/add/add-data-source-step2.component.ts:99 | text of only whitespace and commas parses to the empty list |
| AddSourceStep2.ParseIsPieces | src/app/features/data-sources/add/add-data-source-step2.component.ts:99 | the pieces hold no comma and join back to the text with commas; the parse is exactly the trimmed pieces that are not blank, in input order and with repeats, one field per non-blank piece |
| AddSourceStep2.ParseKeepsRepeats | src/app/features/data-sources/add/add-data-source-step2.component.ts:99 | repeated fields are kept: a printable field typed twice, comma-separated, parses to that field twice |
| AddSourceStep2.FieldsText | src/app/features/data-sources/add/add-data-source-step2.component.ts:94-96 | `''` when no list is bound; otherwise every field can be found in the text (`ParsePrinted` proves the text parses back to the list) |
| AddSourceStep2.Step2Component.SelectedFieldsStr | src/app/features/data-sources/add/add-data-source-step2.component.ts:94-96 | the getter shows `''` for no list, else a text in which every stored field can be found |
| AddSourceStep2.Step2Component.constructor | src/app/features/data-sources/add/add-data-source-step2.component.ts:84-88 | the component holds the five bound inputs |
| AddSourceStep2.Step2Component.SetSelectedFieldsStr | src/app/features/data-sources/add/add-data-source-step2.component.ts:98-101 | the setter stores the parse, emits exactly the stored list, and typing back the getter's text keeps a printable list as it was |
| AddSourceStep2.Step2Component.NextStep | src/app/features/data-sources/add/add-data-source-step2.component.ts:103-111 | `next` carries the five current values unchanged |
| AddSourceStepper.Progress | src/app/features/data-sources/add/add-data-source-stepper.component.ts:27-29 | the bar is 33 exactly for step 1, 66 exactly for step 2, and 100 for any other value |
| AddSourceStepper.ProgressMonotone | src/app/features/data-sources/add/add-data-source-stepper.component.ts:27-29 | over steps 1, 2, 3 the bar never shrinks |
| AddSourceContainer.AddSourceContainer.constructor | src/app/features/data-sources/add/add-data-source-container.component.ts:127-143 | the wizard starts on step 1 with Oracle, hourly sync, an empty field list and every other field empty |
| AddSourceContainer.AddSourceContainer.CurrentStepLabel | src/app/features/data-sources/add/add-data-source-container.component.ts:148-155 | the title is non-empty exactly for steps 1 to 3 |
| AddSourceContainer.AddSourceContainer.Progress | src/app/features/data-sources/add/add-data-source-container.component.ts:157-159 | the wizard's progress is the stepper's mapping for every step |
| AddSourceContainer.AddSourceContainer.OnTestConnection | src/app/features/data-sources/add/add-data-source-container.component.ts:163-165 | `success` becomes the test result and nothing else changes |
| AddSourceContainer.AddSourceContainer.OnStep1Next | src/app/features/data-sources/add/add-data-source-container.component.ts:167-175 | the six connection fields are copied, the step becomes 2, and the step-2 state is untouched |
| AddSourceContainer.AddSourceContainer.OnFieldsChange | src/app/features/data-sources/add/add-data-source-container.component.ts:177-179 | the field list becomes the emitted list and nothing else changes |
| AddSourceContainer.AddSourceContainer.OnStep2Next | src/app/features/data-sources/add/add-data-source-container.component.ts:181-188 | the five configuration fields are copied, the step becomes 3, and the connection fields are untouched |
| AddSourceContainer.AddSourceContainer.PrevStep | src/app/features/data-sources/add/add-data-source-container.component.ts:213-217 | one step back above step 1, no change otherwise; the step stays within 1..3 |
| AddSourceContainer.AddSourceContainer.PublishRequest | src/app/features/data-sources/add/add-data-source-container.component.ts:191-203 | `system` and `dbType` are both the chosen type, and every other field is the current state |
| AddSourceContainer.AddSourceContainer.OnPublish | src/app/features/data-sources/add/add-data-source-container.component.ts:190-211 | navigates exactly when the create call succeeds; the wizard's state never changes; the facade ends as `addDataSource` leaves it: loading off; success clears the error and requests a reload; failure records the create message and keeps the version; the cached list and `lastError` are untouched |
| DataSources.StatusCount | src/app/core/facades/data-sources.facade.ts:30-42 | a per-status count never exceeds the number of sources |
| DataSources.DataSourcesFacade.ConnectedSources | src/app/core/facades/data-sources.facade.ts:30-32 | at most the number of cached sources |
| DataSources.DataSourcesFacade.SourcesWithIssues | src/app/core/facades/data-sources.facade.ts:34-36 | at most the number of cached sources |
| DataSources.DataSourcesFacade.DisconnectedSources | src/app/core/facades/data-sources.facade.ts:40-42 | at most the number of cached sources |
| DataSources.DataSourcesFacade.TotalSources | src/app/core/facades/data-sources.facade.ts:38 | the total equals connected + with issues + disconnected |
| DataSources.StatusCountsPartition | src/app/core/facades/data-sources.facade.ts:30-42 | connected + issues + disconnected = total |
| DataSources.DataSourcesFacade.constructor | src/app/core/facades/data-sources.facade.ts:58-61 | the facade starts empty, with no error, and with one load requested |
| DataSources.DataSourcesFacade.PerformLoad | src/app/core/facades/data-sources.facade.ts:63-75 | success replaces the list and clears the error; failure keeps the list and records the message or the fallback; loading ends false |
| DataSources.DataSourcesFacade.LoadDataSources | src/app/core/facades/data-sources.facade.ts:78-80 | the version goes up by exactly one |
| DataSources.DataSourcesFacade.AddDataSource | src/app/core/facades/data-sources.facade.ts:82-98 | the error is cleared first; success returns `Succeeded`, leaves no error and bumps the version by one; failure returns and records the message or `Failed to create data source`; loading ends false |
| DataSources.DataSourcesFacade.DeleteDataSource | src/app/core/facades/data-sources.facade.ts:100-113 | success keeps any earlier error and bumps the version; failure records the message or `Failed to delete data source` and keeps the version; loading ends false |
| DataSources.DataSourcesFacade.ErrorEffect | src/app/core/facades/data-sources.facade.ts:53-56 | the published error becomes the cached error |
| DataSources.DataSourcesFacade.ClearError | src/app/core/facades/data-sources.facade.ts:115-118 | both the cached and the published error become null |
| DataSourcesOverview.DataSyncSuccess | src/app/features/data-sources/overview/data-sources-overview-container.component.ts:34-38 | 0 for no sources or none connected, at most 100 when connected ≤ total, 100 when all are connected |
| DataSourcesOverview.RoundedPercentBound | src/app/features/data-sources/overview/data-sources-overview-container.component.ts:37 | the half-up rounding formula stays within 0..100 and hits 0 and 100 at the ends |
| DataSourcesOverview.DataSyncSuccessIsNearest | src/app/features/data-sources/overview/data-sources-overview-container.component.ts:37 | the result is the integer nearest to 100·connected/total, a tie going up |
| DataSourcesOverview.DataSyncSuccessMonotone | src/app/features/data-sources/overview/data-sources-overview-container.component.ts:37 | for a fixed total, more connected sources never lower the percentage |
| OverviewComponent.ConnectedCount | src/app/data-sources-overview.component.ts:111 | never more than the number of sources |
| OverviewComponent.IssuesCount | src/app/data-sources-overview.component.ts:112 | never more than the number of sources |
| OverviewComponent.SyncSuccessPercent | src/app/data-sources-overview.component.ts:114-118 | the component's own half-up rounding of 100·connected/total: 0 for an empty list and never above 100 |
| OverviewComponent.TotalCount | src/app/data-sources-overview.component.ts:111-113 | the total count equals connected + issues + disconnected |
| OverviewComponent.CountsMatch | src/app/data-sources-overview.component.ts:111-112 | this component and the facade count the same sources with a status alike |
| OverviewComponent.SyncSuccessAgrees | src/app/data-sources-overview.component.ts:114-118 | the component's percentage, computed from its own count, equals the overview container's `dataSyncSuccess` over the facade's count of the same sources |
| FileManagementPresentation.TotalFiles | src/app/features/file-management/overview/file-management-overview-presentation.component.ts:12-14 | the number of files, 0 when no list is bound |
| FileManagementPresentation.CompletedFiles | src/app/features/file-management/overview/file-management-overview-presentation.component.ts:15-17 | never more than the total |
| FileManagementPresentation.InProgressFiles | src/app/features/file-management/overview/file-management-overview-presentation.component.ts:18-20 | never more than the total |
| FileManagementPresentation.ErrorFiles | src/app/features/file-management/overview/file-management-overview-presentation.component.ts:21-23 | never more than the total |
| FileManagementPresentation.CountAppend | src/app/features/file-management/overview/file-management-overview-presentation.component.ts:15-23 | one more file raises a counter by one exactly when its status passes the counter's test |
| FileManagementPresentation.UnclassifiedNotCounted | src/app/features/file-management/overview/file-management-overview-presentation.component.ts:15-23 | a status mentioning none of the keywords is counted by no tile |
| FileManagementContainer.StatusStageIsFilter | src/app/features/file-management/overview/file-management-overview-container.component.ts:40-47 | the status stage keeps exactly the files its keyword test accepts, and everything under `Tutti` or an unknown value |
| FileManagementContainer.TypeStageIsFilter | src/app/features/file-management/overview/file-management-overview-container.component.ts:49-52 | the type stage keeps exactly `.xlsx` names for Excel, `.csv` names for CSV, and everything otherwise |
| FileManagementContainer.SearchStageIsFilter | src/app/features/file-management/overview/file-management-overview-container.component.ts:54-57 | a non-empty search keeps exactly the names whose lower-cased form contains the lower-cased term; an empty one keeps everything |
| FileManagementContainer.ShownIsConjunction | src/app/features/file-management/overview/file-management-overview-container.component.ts:37-60 | a file is shown exactly when it passes all three stage tests |
| FileManagementContainer.FilteredFiles | src/app/features/file-management/overview/file-management-overview-container.component.ts:37-60 | never more files than given, and every shown file is one of them (`FilteredFilesSelects` states exactly which) |
| FileManagementContainer.FilteredFilesIsOneFilter | src/app/features/file-management/overview/file-management-overview-container.component.ts:37-60 | the three filters in sequence are one filter by the combined test |
| FileManagementContainer.FilteredFilesSelects | src/app/features/file-management/overview/file-management-overview-container.component.ts:37-60 | the result is an order-preserving sublist, and a file is in it exactly when it passes every active filter |
| FileManagementContainer.DefaultsShowEverything | src/app/features/file-management/overview/file-management-overview-container.component.ts:32-60 | with the initial filter values every file is shown |
| FileManagementContainer.CompletedTileMatchesFilter | src/app/features/file-management/overview/file-management-overview-container.component.ts:42 | the `completedFiles` tile counts exactly what `Completati` shows |
| FileManagementContainer.FileManagementOverview.constructor | src/app/features/file-management/overview/file-management-overview-container.component.ts:32-35 | the filters start at `Tutti`, `Ultimo mese`, `Tutti i formati` and `''` |
| FileManagementContainer.FileManagementOverview.SetStatusFilter | src/app/features/file-management/overview/file-management-overview-container.component.ts:66 | only the status filter changes |
| FileManagementContainer.FileManagementOverview.SetPeriodFilter | src/app/features/file-management/overview/file-management-overview-container.component.ts:67 | only the period filter changes, and the shown files stay the same |
| FileManagementContainer.FileManagementOverview.SetTypeFilter | src/app/features/file-management/overview/file-management-overview-container.component.ts:68 | only the type filter changes |
| FileManagementContainer.FileManagementOverview.SetSearchFilter | src/app/features/file-management/overview/file-management-overview-container.component.ts:69 | only the search filter changes |
| Reports.ReplaceById | src/app/core/facades/report.facade.ts:46 | the update keeps the length of the list |
| Reports.RemoveById | src/app/core/facades/report.facade.ts:56 | after a delete no entry has the id, every entry left was in the list, and every entry with another id is kept |
| Reports.ReplaceByIdAt | src/app/core/facades/report.facade.ts:45-46 | entries with the id become the returned record; all others stay unchanged in place |
| Reports.ReplaceAbsent | src/app/core/facades/report.facade.ts:46 | updating an id that is not in the list changes nothing |
| Reports.ReplaceIdempotent | src/app/core/facades/report.facade.ts:46 | applying the same update twice is applying it once |
| Reports.RemoveByIdKeepsOthers | src/app/core/facades/report.facade.ts:55-56 | the other entries keep their order, and the list shrinks by the number of entries with the id |
| Reports.RemoveAbsent | src/app/core/facades/report.facade.ts:56 | deleting an id that is not in the list changes nothing |
| Reports.RemoveAfterReplace | src/app/core/facades/report.facade.ts:42-60 | deleting an id after updating it to a record with that id is deleting it directly |
| Reports.ReportFacade.constructor | src/app/core/facades/report.facade.ts:7-17 | the store starts empty and ends as the first `loadReports` leaves it |
| Reports.ReportFacade.LoadReports | src/app/core/facades/report.facade.ts:19-30 | the error is cleared; success replaces the list; failure keeps the list and records the message or `Errore caricamento reports`; loading ends false |
| Reports.ReportFacade.AddReport | src/app/core/facades/report.facade.ts:32-40 | success appends the created report; failure keeps the list and is raised; the error is never touched; loading ends false |
| Reports.ReportFacade.UpdateReport | src/app/core/facades/report.facade.ts:42-50 | success replaces the entries with the id by the returned record; failure keeps the list and is raised; the error is never touched; loading ends false |
| Reports.ReportFacade.DeleteReport | src/app/core/facades/report.facade.ts:52-60 | success drops every entry with the id; failure keeps the list and is raised; the error is never touched; loading ends false |

## Left out

- Fetch wrappers and use-cases (`src/app/core/functions/*`, `src/app/core/use-cases/*`): they are network I/O. Each call's outcome is a parameter of the operation that awaits it.
- Signal, `computed` and `effect` scheduling: this includes the data-sources facade's `_loadEffect`, which runs `_performLoad` whenever the version is above 0. A version bump stands for "a reload was requested". `PerformLoad` is the load itself, given its outcome.
- Concurrency: overlapping `async` calls and their interleavings are not modelled. Each operation is one atomic step, so the loading flag's intermediate `true` is not observable.
- `formatDate` in both overview components: it relies on `Date` and locale formatting.
- DataSourcesOverview.DataSyncSuccess: computes the exact rational half-up rounding of 100·connected/total. The source rounds a floating-point quotient, and the two differ where the floating-point error crosses a .5 boundary. For example, with total 40 and connected 23, `23 / 40 * 100` is 57.49999999999999 in double precision, so `Math.round` gives 57, while the exact value 57.5 rounds to 58.
- OverviewComponent.SyncSuccessPercent: the same exact rounding in place of the floating-point `Math.round((connected / total) * 100)`, with the same divergence (total 40, connected 23: 57 in the source, 58 here).
- Templates, layout, the error banner and the loading spinner: they are UI.
- `router.navigate`, `confirm()`, `alert()` and timers: they are UI side effects. Navigation in `onPublish` is the returned boolean.
- The router subscription in the breadcrumb component's constructor: it only feeds `router.url` to `buildBreadcrumbs`.
- The standalone overview component's `loadDataSources` and `dataSources`: the first is a network call that sets the list, and the second returns that list unchanged. The model takes the list as a parameter.
- The dashboard, file-processing, file-management and user facades, and the static mock data: they are outside this model.
- Optional fields of `FileEntity` (`time`, `quality`, `compliance`, `violations`): no modelled operation reads them.
- Breadcrumb.FormatLabel: upper-cases ASCII letters only. `toUpperCase` on a non-ASCII first character is not modelled.
- JsStrings.ToLower and JsStrings.Trim: cover ASCII only. JavaScript's `toLowerCase` maps all Unicode letters, and `trim` strips all Unicode white space and line terminators.
- Reports.ReportFacade.LoadReports: a thrown `null` or `undefined` is not modelled. In the source, `err.message` would itself throw there.
- Untyped event payloads (`data: any` in `onStep1Next` and `onStep2Next`): they are records with the expected fields. A payload missing a field is not modelled, except that `selectedFields` may be absent, since the step-2 getter handles that case.
- `isSubmitting` and `error` in the wizard: they are fields that no modelled handler changes, as in the source.
