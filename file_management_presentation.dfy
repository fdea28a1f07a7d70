/** A file record as the backend returns it (src/app/core/models/file.model.ts).
    `name` and `status` are optional because the components read them with
    `?.`; the optional metrics are not used by the components modelled. */
module FileModel {
  import opened AsyncCalls

  datatype FileEntity = FileEntity(
    name: Option<string>,
    size: string,
    date: string,
    records: string,
    status: Option<string>)
}

/** The summary tiles of the file-management overview: how many files are
    completed, in progress or failed, by keywords in their status
    (src/app/features/file-management/overview/file-management-overview-presentation.component.ts). */
module FileManagementPresentation {
  import opened AsyncCalls
  import opened JsStrings
  import opened JsArrays
  import opened FileModel

  /** `f.status?.toLowerCase().includes(keyword)`; a missing status matches
      nothing. */
  predicate StatusMentions(f: FileEntity, keyword: string) {
    f.status.Some? && Includes(ToLower(f.status.value), keyword)
  }

  predicate IsCompleted(f: FileEntity) {
    StatusMentions(f, "completato") || StatusMentions(f, "conforme")
  }

  predicate IsInProgress(f: FileEntity) {
    StatusMentions(f, "elaborazione") || StatusMentions(f, "in corso")
  }

  predicate IsFailed(f: FileEntity) {
    StatusMentions(f, "errore")
  }

  /** `totalFiles`: the number of files, 0 when none are bound. */
  function TotalFiles(files: Option<seq<FileEntity>>): (n: nat)
    ensures files.None? ==> n == 0
    ensures files.Some? ==> n == |files.value|
  {
    match files
    case None => 0
    case Some(fs) => |fs|
  }

  function CountWhere(files: Option<seq<FileEntity>>, keep: FileEntity -> bool): (n: nat)
    ensures n <= TotalFiles(files)
  {
    match files
    case None => 0
    case Some(fs) => |Filter(fs, keep)|
  }

  /** `completedFiles` */
  function CompletedFiles(files: Option<seq<FileEntity>>): (n: nat)
    ensures n <= TotalFiles(files)
  {
    CountWhere(files, IsCompleted)
  }

  /** `inProgressFiles` */
  function InProgressFiles(files: Option<seq<FileEntity>>): (n: nat)
    ensures n <= TotalFiles(files)
  {
    CountWhere(files, IsInProgress)
  }

  /** `errorFiles` */
  function ErrorFiles(files: Option<seq<FileEntity>>): (n: nat)
    ensures n <= TotalFiles(files)
  {
    CountWhere(files, IsFailed)
  }

  /** A counter counts exactly the files its status test accepts: adding a
      file raises it by one when the file passes and leaves it otherwise. */
  lemma {:induction false} CountAppend(files: seq<FileEntity>, f: FileEntity, keep: FileEntity -> bool)
    ensures CountWhere(Some(files + [f]), keep)
      == CountWhere(Some(files), keep) + (if keep(f) then 1 else 0)
  {
    FilterConcat(files, [f], keep);
  }

  /** A status mentioning none of the keywords is counted by no tile. */
  lemma UnclassifiedNotCounted(f: FileEntity)
    requires f.status.Some?
    requires !Includes(ToLower(f.status.value), "completato") && !Includes(ToLower(f.status.value), "conforme")
    requires !Includes(ToLower(f.status.value), "elaborazione") && !Includes(ToLower(f.status.value), "in corso")
    requires !Includes(ToLower(f.status.value), "errore")
    ensures CompletedFiles(Some([f])) == 0 && InProgressFiles(Some([f])) == 0 && ErrorFiles(Some([f])) == 0
  {
    assert [f][1..] == [];
  }
}
