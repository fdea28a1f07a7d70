/** The file-management overview: a status filter, a type filter and a
    case-insensitive name search applied in turn to the file list, plus a
    period filter that filters nothing
    (src/app/features/file-management/overview/file-management-overview-container.component.ts). */
module FileManagementContainer {
  import opened AsyncCalls
  import opened JsStrings
  import opened JsArrays
  import opened FileModel
  import opened FileManagementPresentation

  const AllStatuses := "Tutti"
  const CompletedStatuses := "Completati"
  const InProgressStatuses := "In Elaborazione"
  const FailedStatuses := "Con Errori"
  const AllFormats := "Tutti i formati"
  const ExcelFormat := "Excel (.xlsx)"
  const CsvFormat := "CSV (.csv)"
  const LastMonth := "Ultimo mese"

  /** The status filter's test; an unknown value lets every file through. */
  predicate StatusKeeps(statusFilter: string, f: FileEntity) {
    if statusFilter == CompletedStatuses then IsCompleted(f)
    else if statusFilter == InProgressStatuses then IsInProgress(f)
    else if statusFilter == FailedStatuses then IsFailed(f)
    else true
  }

  /** `f.name?.endsWith(extension)`, case-sensitive. */
  predicate NameEndsWith(f: FileEntity, extension: string) {
    f.name.Some? && EndsWith(f.name.value, extension)
  }

  /** `f.name?.toLowerCase().includes(term)` */
  predicate NameMentions(f: FileEntity, term: string) {
    f.name.Some? && Includes(ToLower(f.name.value), term)
  }

  /** The status filter's stage: applied unless the value is "Tutti". */
  function StatusStage(files: seq<FileEntity>, statusFilter: string): (kept: seq<FileEntity>)
    ensures |kept| <= |files|
    ensures forall i :: 0 <= i < |kept| ==> kept[i] in files
  {
    if statusFilter != AllStatuses then Filter(files, f => StatusKeeps(statusFilter, f)) else files
  }

  /** The type filter's stage: unless the value is "Tutti i formati", the
      Excel test and then the CSV test, each only for its own value. */
  function TypeStage(files: seq<FileEntity>, typeFilter: string): (kept: seq<FileEntity>)
    ensures |kept| <= |files|
    ensures forall i :: 0 <= i < |kept| ==> kept[i] in files
  {
    if typeFilter != AllFormats then
      var excel := if typeFilter == ExcelFormat then Filter(files, f => NameEndsWith(f, ".xlsx")) else files;
      if typeFilter == CsvFormat then Filter(excel, f => NameEndsWith(f, ".csv")) else excel
    else files
  }

  /** The search stage: only for a non-empty term, which is lower-cased. */
  function SearchStage(files: seq<FileEntity>, searchFilter: string): (kept: seq<FileEntity>)
    ensures |kept| <= |files|
    ensures forall i :: 0 <= i < |kept| ==> kept[i] in files
  {
    if searchFilter != "" then
      var term := ToLower(searchFilter);
      Filter(files, f => NameMentions(f, term))
    else files
  }

  /** `filteredFiles`: the three stages one after the other; the period
      filter takes no part. */
  function FilteredFiles(files: seq<FileEntity>, statusFilter: string, typeFilter: string, searchFilter: string)
    : (shown: seq<FileEntity>)
    ensures |shown| <= |files|
    ensures forall i :: 0 <= i < |shown| ==> shown[i] in files
  {
    SearchStage(TypeStage(StatusStage(files, statusFilter), typeFilter), searchFilter)
  }

  function StatusTest(statusFilter: string): FileEntity -> bool {
    f => StatusKeeps(statusFilter, f)
  }

  function TypeTest(typeFilter: string): FileEntity -> bool {
    f => (typeFilter == ExcelFormat ==> NameEndsWith(f, ".xlsx")) && (typeFilter == CsvFormat ==> NameEndsWith(f, ".csv"))
  }

  function SearchTest(searchFilter: string): FileEntity -> bool {
    f => searchFilter != "" ==> NameMentions(f, ToLower(searchFilter))
  }

  /** The test a file must pass to be shown, all filters combined. */
  predicate Shown(statusFilter: string, typeFilter: string, searchFilter: string, f: FileEntity) {
    && StatusKeeps(statusFilter, f)
    && (typeFilter == ExcelFormat ==> NameEndsWith(f, ".xlsx"))
    && (typeFilter == CsvFormat ==> NameEndsWith(f, ".csv"))
    && (searchFilter != "" ==> NameMentions(f, ToLower(searchFilter)))
  }

  lemma StatusStageIsFilter(files: seq<FileEntity>, statusFilter: string)
    ensures StatusStage(files, statusFilter) == Filter(files, StatusTest(statusFilter))
  {
    if statusFilter == AllStatuses {
      FilterKeepsAll(files, StatusTest(statusFilter));
    } else {
      FilterCongruent(files, f => StatusKeeps(statusFilter, f), StatusTest(statusFilter));
    }
  }

  lemma TypeStageIsFilter(files: seq<FileEntity>, typeFilter: string)
    ensures TypeStage(files, typeFilter) == Filter(files, TypeTest(typeFilter))
  {
    if typeFilter == ExcelFormat {
      FilterCongruent(files, f => NameEndsWith(f, ".xlsx"), TypeTest(typeFilter));
    } else if typeFilter == CsvFormat {
      FilterCongruent(files, f => NameEndsWith(f, ".csv"), TypeTest(typeFilter));
    } else {
      FilterKeepsAll(files, TypeTest(typeFilter));
    }
  }

  lemma SearchStageIsFilter(files: seq<FileEntity>, searchFilter: string)
    ensures SearchStage(files, searchFilter) == Filter(files, SearchTest(searchFilter))
  {
    if searchFilter != "" {
      var term := ToLower(searchFilter);
      FilterCongruent(files, f => NameMentions(f, term), SearchTest(searchFilter));
    } else {
      FilterKeepsAll(files, SearchTest(searchFilter));
    }
  }

  /** The combined test is the conjunction of the three stage tests. */
  lemma ShownIsConjunction(statusFilter: string, typeFilter: string, searchFilter: string)
    ensures forall f :: (Shown(statusFilter, typeFilter, searchFilter, f)
                         == ((StatusTest(statusFilter)(f) && TypeTest(typeFilter)(f)) && SearchTest(searchFilter)(f)))
  {
  }

  /** The pipeline is a single filter by the combined test. */
  lemma FilteredFilesIsOneFilter(files: seq<FileEntity>, statusFilter: string, typeFilter: string, searchFilter: string)
    ensures FilteredFiles(files, statusFilter, typeFilter, searchFilter)
      == Filter(files, f => Shown(statusFilter, typeFilter, searchFilter, f))
  {
    var status, kind, search := StatusTest(statusFilter), TypeTest(typeFilter), SearchTest(searchFilter);
    var statusKind := (f: FileEntity) => status(f) && kind(f);
    var shown := (f: FileEntity) => Shown(statusFilter, typeFilter, searchFilter, f);
    StatusStageIsFilter(files, statusFilter);
    var byStatus := Filter(files, status);
    TypeStageIsFilter(byStatus, typeFilter);
    FilterFilter(files, status, kind, statusKind);
    var byType := Filter(files, statusKind);
    assert TypeStage(StatusStage(files, statusFilter), typeFilter) == byType;
    SearchStageIsFilter(byType, searchFilter);
    ShownIsConjunction(statusFilter, typeFilter, searchFilter);
    FilterFilter(files, statusKind, search, shown);
  }

  /** What is shown is an order-preserving sublist of the files, and a file
      is shown exactly when it passes every active filter. */
  lemma FilteredFilesSelects(files: seq<FileEntity>, statusFilter: string, typeFilter: string, searchFilter: string)
    ensures var shown := FilteredFiles(files, statusFilter, typeFilter, searchFilter);
      && IsSubsequence(shown, files)
      && (forall i :: 0 <= i < |shown| ==> Shown(statusFilter, typeFilter, searchFilter, shown[i]))
      && (forall i :: 0 <= i < |files| && Shown(statusFilter, typeFilter, searchFilter, files[i]) ==> files[i] in shown)
  {
    FilteredFilesIsOneFilter(files, statusFilter, typeFilter, searchFilter);
    FilterIsSubsequence(files, f => Shown(statusFilter, typeFilter, searchFilter, f));
  }

  /** With the initial filter values every file is shown. */
  lemma DefaultsShowEverything(files: seq<FileEntity>)
    ensures FilteredFiles(files, AllStatuses, AllFormats, "") == files
  {
  }

  /** The "completed" tile counts exactly the files the "Completati" status
      filter shows. */
  lemma CompletedTileMatchesFilter(files: seq<FileEntity>)
    ensures CompletedFiles(Some(files)) == |FilteredFiles(files, CompletedStatuses, AllFormats, "")|
  {
    FilterCongruent(files, IsCompleted, f => StatusKeeps(CompletedStatuses, f));
  }

  class FileManagementOverview {
    var statusFilter: string
    var periodFilter: string
    var typeFilter: string
    var searchFilter: string

    constructor ()
      ensures statusFilter == AllStatuses && periodFilter == LastMonth
      ensures typeFilter == AllFormats && searchFilter == ""
    {
      statusFilter := AllStatuses;
      periodFilter := LastMonth;
      typeFilter := AllFormats;
      searchFilter := "";
    }

    /** The files shown for the current filter values. */
    function ShownFiles(files: seq<FileEntity>): seq<FileEntity>
      reads this
    {
      FilteredFiles(files, statusFilter, typeFilter, searchFilter)
    }

    method SetStatusFilter(value: string)
      modifies this`statusFilter
      ensures statusFilter == value
    {
      statusFilter := value;
    }

    /** The period filter is stored but never changes what is shown. */
    method SetPeriodFilter(value: string)
      modifies this`periodFilter
      ensures periodFilter == value
      ensures forall files :: ShownFiles(files) == old(ShownFiles(files))
    {
      periodFilter := value;
    }

    method SetTypeFilter(value: string)
      modifies this`typeFilter
      ensures typeFilter == value
    {
      typeFilter := value;
    }

    method SetSearchFilter(value: string)
      modifies this`searchFilter
      ensures searchFilter == value
    {
      searchFilter := value;
    }
  }
}
