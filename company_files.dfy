/**
 * The company files section (`src/components/forms/sections/CompanyFilesSection.tsx`):
 * the section status from the uploaded files and the two required
 * categories, the upload that files everything under "misc", the
 * expand/collapse toggle of a category, the delete button, and the
 * search, category, type and date filters of the file list.
 */
module CompanyFiles {
  import opened Common
  import opened FormSections

  /** `uploadDate` is kept as milliseconds since the epoch. */
  datatype FileItem = FileItem(id: string, name: string, size: nat, fileType: string, category: string, uploadDate: int)

  /** The ids of the seven categories, in display order. */
  const CategoryIds: seq<string> := ["incorporation", "financial", "pitch", "case-studies", "technical", "resumes", "misc"]

  /** The ids of the categories marked `required`. */
  const RequiredCategories: seq<string> := ["incorporation", "financial"]

  /** The category every upload is filed under. */
  const UploadCategory := "misc"

  /** `files.some(file => file.category === id)` */
  predicate HasCategory(files: seq<FileItem>, id: string)
  {
    exists k :: 0 <= k < |files| && files[k].category == id
  }

  /** `getSectionStatus` */
  function FilesStatus(files: seq<FileItem>): (st: SectionStatus)
    ensures st == Incomplete <==> |files| == 0
    ensures st == Complete <==> |files| > 0 && HasCategory(files, "incorporation") && HasCategory(files, "financial")
    ensures st == InProgress <==>
      |files| > 0 && !(HasCategory(files, "incorporation") && HasCategory(files, "financial"))
  {
    var hasAllRequired := forall k :: 0 <= k < |RequiredCategories| ==> HasCategory(files, RequiredCategories[k]);
    assert hasAllRequired <==> HasCategory(files, "incorporation") && HasCategory(files, "financial") by {
      assert RequiredCategories[0] == "incorporation" && RequiredCategories[1] == "financial";
    }
    if |files| == 0 then Incomplete
    else if hasAllRequired then Complete
    else InProgress
  }

  /** The entry an upload adds: the file's name, size and type, filed under "misc". */
  function Uploaded(id: string, name: string, size: nat, fileType: string, now: int): (f: FileItem)
    ensures f.category == UploadCategory
    ensures f.id == id && f.name == name && f.size == size && f.fileType == fileType && f.uploadDate == now
  {
    FileItem(id, name, size, fileType, UploadCategory, now)
  }

  /** Files filed under "misc" add no required category. */
  lemma {:induction false} MiscAddsNoCategory(files: seq<FileItem>, uploads: seq<FileItem>, id: string)
    requires forall k :: 0 <= k < |uploads| ==> uploads[k].category == UploadCategory
    requires id != UploadCategory
    ensures HasCategory(files + uploads, id) <==> HasCategory(files, id)
  {
    var all := files + uploads;
    if HasCategory(all, id) {
      var k :| 0 <= k < |all| && all[k].category == id;
      assert files[k] == all[k];
    }
    if HasCategory(files, id) {
      var k :| 0 <= k < |files| && files[k].category == id;
      assert all[k] == files[k];
    }
  }

  /**
   * Uploads alone never complete the section: after any number of uploads
   * it is complete exactly when it was complete with a file already there.
   */
  lemma UploadsNeverComplete(files: seq<FileItem>, uploads: seq<FileItem>)
    requires forall k :: 0 <= k < |uploads| ==> uploads[k].category == UploadCategory
    ensures FilesStatus(files + uploads) == Complete <==> FilesStatus(files) == Complete
  {
    MiscAddsNoCategory(files, uploads, "incorporation");
    MiscAddsNoCategory(files, uploads, "financial");
  }

  /** The delete filter's test, `f.id !== fileId`. */
  function OtherFile(fileId: string): FileItem -> bool
  {
    (f: FileItem) => f.id != fileId
  }

  /** The test `f.id === fileId`. */
  function SameFile(fileId: string): FileItem -> bool
  {
    (f: FileItem) => f.id == fileId
  }

  /** `files.filter(f => f.id !== fileId)` */
  function DeleteFile(files: seq<FileItem>, fileId: string): (r: seq<FileItem>)
    ensures forall f :: f in r <==> f in files && f.id != fileId
    ensures |r| <= |files|
  {
    Filter(files, OtherFile(fileId))
  }

  /**
   * Deleting removes exactly the files with the id and keeps the others in
   * order: it distributes over concatenation and drops as many entries as
   * carry the id.
   */
  lemma DeleteFileSpec(files: seq<FileItem>, more: seq<FileItem>, fileId: string)
    ensures DeleteFile(files + more, fileId) == DeleteFile(files, fileId) + DeleteFile(more, fileId)
    ensures |DeleteFile(files, fileId)| + CountWhere(files, SameFile(fileId)) == |files|
  {
    FilterAppend(files, more, OtherFile(fileId));
    FilterCount(files, OtherFile(fileId));
    CountWhereSplit(files, OtherFile(fileId), SameFile(fileId));
  }

  // ---------------------------------------------------------------------
  // Filtering
  // ---------------------------------------------------------------------

  /** The date selector: all, or uploaded today, in the last 7 days or in the last 30 days. */
  datatype DateFilter = AllDates | Today | LastWeek | LastMonth

  const MillisPerDay := 1000 * 60 * 60 * 24

  /** `Math.floor((now - uploadDate) / day)`: the floored quotient, which Dafny's `/` is for a positive divisor. */
  function DaysSince(f: FileItem, now: int): int
  {
    (now - f.uploadDate) / MillisPerDay
  }

  /** `"all"` or the selected value, for the category and type selectors. */
  datatype Choice = All | Only(value: string)

  predicate MatchesSearch(f: FileItem, query: string)
  {
    Contains(Lower(f.name), Lower(query))
  }

  predicate MatchesCategory(f: FileItem, category: Choice)
  {
    category.All? || f.category == category.value
  }

  predicate MatchesType(f: FileItem, fileType: Choice)
  {
    fileType.All? || Contains(f.fileType, fileType.value)
  }

  predicate MatchesDate(f: FileItem, date: DateFilter, now: int)
  {
    match date
    case AllDates => true
    case Today => DaysSince(f, now) == 0
    case LastWeek => DaysSince(f, now) <= 7
    case LastMonth => DaysSince(f, now) <= 30
  }

  predicate Shown(f: FileItem, query: string, category: Choice, fileType: Choice, date: DateFilter, now: int)
  {
    MatchesSearch(f, query) && MatchesCategory(f, category) && MatchesType(f, fileType) && MatchesDate(f, date, now)
  }

  /** The test of `filteredFiles` for the given selections. */
  function ShownBy(query: string, category: Choice, fileType: Choice, date: DateFilter, now: int): FileItem -> bool
  {
    f => Shown(f, query, category, fileType, date, now)
  }

  /** `filteredFiles` */
  function FilteredFiles(files: seq<FileItem>, query: string, category: Choice, fileType: Choice, date: DateFilter, now: int): (r: seq<FileItem>)
    ensures |r| <= |files|
    ensures forall f :: f in r <==> f in files && Shown(f, query, category, fileType, date, now)
  {
    Filter(files, ShownBy(query, category, fileType, date, now))
  }

  /** With every selector at "all" and an empty search, the whole list is shown in its own order. */
  lemma NoFiltersShowAll(files: seq<FileItem>, now: int)
    ensures FilteredFiles(files, "", All, All, AllDates, now) == files
  {
    forall k | 0 <= k < |files| ensures Shown(files[k], "", All, All, AllDates, now) {
      assert StartsWith(Lower(files[k].name), "");
    }
    FilterKeepsAll(files, ShownBy("", All, All, AllDates, now));
  }

  /** Narrowing the date range never shows more files. */
  lemma DateRangesNest(f: FileItem, now: int)
    ensures MatchesDate(f, Today, now) ==> MatchesDate(f, LastWeek, now)
    ensures MatchesDate(f, LastWeek, now) ==> MatchesDate(f, LastMonth, now)
    ensures MatchesDate(f, LastMonth, now) ==> MatchesDate(f, AllDates, now)
  {
  }

  /** The section's state. */
  class FilesPanel {
    var files: seq<FileItem>
    var expandedCategories: set<string>
    var searchQuery: string
    var categoryFilter: Choice
    var dateFilter: DateFilter
    var typeFilter: Choice

    constructor()
      ensures files == [] && expandedCategories == {"incorporation"}
      ensures searchQuery == "" && categoryFilter == All && dateFilter == AllDates && typeFilter == All
    {
      files := [];
      expandedCategories := {"incorporation"};
      searchQuery := "";
      categoryFilter := All;
      dateFilter := AllDates;
      typeFilter := All;
    }

    /** `toggleCategory` */
    method ToggleCategory(categoryId: string)
      modifies this`expandedCategories
      ensures expandedCategories == Toggled(old(expandedCategories), categoryId)
    {
      var next := expandedCategories;
      if categoryId in next {
        next := next - {categoryId};
      } else {
        next := next + {categoryId};
      }
      expandedCategories := next;
    }

    /** The end of a simulated upload: the file joins the list under "misc". */
    method FinishUpload(id: string, name: string, size: nat, fileType: string, now: int)
      modifies this`files
      ensures files == old(files) + [Uploaded(id, name, size, fileType, now)]
      ensures FilesStatus(files) == Complete <==> old(FilesStatus(files)) == Complete
    {
      var item := Uploaded(id, name, size, fileType, now);
      UploadsNeverComplete(files, [item]);
      files := files + [item];
    }

    /** `deleteFile` */
    method DeleteFileAction(fileId: string)
      modifies this`files
      ensures files == DeleteFile(old(files), fileId)
    {
      files := DeleteFile(files, fileId);
    }

    /** The list shown for the current filters. */
    function Visible(now: int): seq<FileItem>
      reads this
    {
      FilteredFiles(files, searchQuery, categoryFilter, typeFilter, dateFilter, now)
    }
  }
}
