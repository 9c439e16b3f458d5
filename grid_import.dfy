/**
 * The map-and-validate import flow (`src/components/data-mapping/DataMapping.tsx`):
 * a mapping record from source column to target field ('' when unmapped),
 * the dataset's cell errors recomputed after every mapping or data change,
 * and completion gated only on there being no cell errors. Unlike the
 * column-mapping form (module ImportMapping), it checks neither required
 * fields nor duplicate targets; when two columns share a target, the later
 * one supplies the value.
 */
module GridImport {
  import opened Common
  import opened Validation
  import opened ImportMapping

  /** With nothing mapped, no cell is checked and the dataset has no errors. */
  lemma {:induction false} NoMappingsNoErrors(data: seq<Row>, lib: LibraryChecks)
    ensures ValidateDataset(data, [], lib) == []
  {
    if data != [] {
      NoMappingsNoErrors(data[..|data| - 1], lib);
    }
  }

  /**
   * The two flows differ in strictness: with no column mapped, the grid
   * flow can complete while the form flow reports missing required fields.
   */
  lemma FlowsDifferInStrictness(data: seq<Row>, lib: LibraryChecks)
    ensures ValidateDataset(data, [], lib) == []
    ensures CheckMappings([]).MissingRequired?
  {
    NoMappingsNoErrors(data, lib);
    RequiredFieldsValue();
    MissingReportedFirst(RequiredFields(), [], "clientName");
  }

  // ---------------------------------------------------------------------
  // Opening a row for editing from the error summary
  // ---------------------------------------------------------------------

  /** The row the data grid opens for `editingRow`: `data[editingRow]`, undefined past the end. */
  function GridRowAt(data: seq<Row>, editingRow: nat): (r: Option<Row>)
    ensures r.Some? <==> editingRow < |data|
    ensures r.Some? ==> r.value == data[editingRow]
  {
    if editingRow < |data| then Some(data[editingRow]) else None
  }

  /** The summary's "Edit Row" for the group of record row `recordRow`, as written: `parseInt(row)`. */
  function EditTarget(recordRow: nat): nat
  {
    recordRow
  }

  /** The intended index: record rows count from 1, the grid's rows from 0. */
  function EditTargetCorrected(recordRow: nat): (index: nat)
    requires recordRow >= 1
    ensures index + 1 == recordRow
  {
    recordRow - 1
  }

  /**
   * As written, "Edit Row" on a record opens the data row after the one the
   * record is about; for a record of the last row it opens nothing.
   */
  lemma EditRowOpensNext(data: seq<Row>, mappings: Mappings, lib: LibraryChecks, e: ValidationError)
    requires e in ValidateDataset(data, mappings, lib)
    ensures e.row < |data| ==> GridRowAt(data, EditTarget(e.row)) == Some(data[e.row])
    ensures e.row == |data| ==> GridRowAt(data, EditTarget(e.row)).None?
  {
    DatasetErrorsPointIntoData(data, mappings, lib);
  }

  /** Every failing cell of the last row gives a record whose "Edit Row" opens no row. */
  lemma LastRowEditOpensNothing(data: seq<Row>, mappings: Mappings, lib: LibraryChecks, e: ValidationError)
    requires data != [] && e in RowErrors(data[|data| - 1], mappings, lib)
    ensures e.(row := |data|) in ValidateDataset(data, mappings, lib)
    ensures GridRowAt(data, EditTarget(e.(row := |data|).row)).None?
  {
    DatasetErrorsComplete(data, mappings, lib, |data| - 1, e);
  }

  /** With the corrected index, "Edit Row" opens the very row whose cell the record reports. */
  lemma EditRowCorrectedOpensSource(data: seq<Row>, mappings: Mappings, lib: LibraryChecks, e: ValidationError)
    requires e in ValidateDataset(data, mappings, lib)
    ensures 1 <= e.row <= |data|
    ensures GridRowAt(data, EditTargetCorrected(e.row)) == Some(data[e.row - 1])
    ensures e.(row := 0) in RowErrors(data[EditTargetCorrected(e.row)], mappings, lib)
  {
    DatasetErrorsPointIntoData(data, mappings, lib);
  }

  /** The state of the map-and-validate component. */
  class GridSession {
    const lib: LibraryChecks
    var fileData: seq<Row>
    var columns: seq<string>
    var mappings: Mappings
    var validationErrors: seq<ValidationError>
    var editingRow: Option<nat>

    /** The shown errors are those of the current data under the current mappings. */
    predicate Valid()
      reads this
    {
      validationErrors == ValidateDataset(fileData, mappings, lib)
    }

    /** `disabled={isProcessing || validationErrors.length > 0}`, after processing has finished. */
    predicate CompleteDisabled()
      reads this
    {
      |validationErrors| > 0
    }

    /** The state once the file's rows and columns are loaded, before any mapping is chosen. */
    constructor(lib: LibraryChecks, data: seq<Row>, columns: seq<string>)
      ensures this.lib == lib && fileData == data && this.columns == columns
      ensures mappings == [] && validationErrors == [] && editingRow == None
      ensures Valid()
    {
      this.lib := lib;
      fileData := data;
      this.columns := columns;
      mappings := [];
      validationErrors := [];
      editingRow := None;
      new;
      NoMappingsNoErrors(data, lib);
    }

    /** `validateData`: store the dataset's errors and report whether there are none. */
    method ValidateData(data: seq<Row>, mappings: Mappings) returns (ok: bool)
      modifies this`validationErrors
      ensures validationErrors == ValidateDataset(data, mappings, lib)
      ensures ok <==> validationErrors == []
    {
      validationErrors := ValidateDataset(data, mappings, lib);
      ok := |validationErrors| == 0;
    }

    /** `handleMappingChange`: set this column's target ('' when cleared), keep the others, revalidate. */
    method HandleMappingChange(sourceColumn: string, targetField: string)
      modifies this`mappings, this`validationErrors
      ensures mappings == Put(old(mappings), sourceColumn, targetField)
      ensures Get(mappings, sourceColumn) == Some(targetField)
      ensures forall c :: c != sourceColumn ==> Get(mappings, c) == Get(old(mappings), c)
      ensures Valid()
    {
      var newMappings := Put(mappings, sourceColumn, targetField);
      mappings := newMappings;
      var _ := ValidateData(fileData, newMappings);
    }

    /** `handleDataChange`: replace the rows, stop editing, revalidate. */
    method HandleDataChange(newData: seq<Row>)
      modifies this`fileData, this`editingRow, this`validationErrors
      ensures fileData == newData && editingRow == None
      ensures Valid()
    {
      fileData := newData;
      editingRow := None;
      var _ := ValidateData(newData, mappings);
    }

    /** `onEditRow={setEditingRow}`: the number passed is stored as it is. */
    method EditRow(row: nat)
      modifies this`editingRow
      ensures editingRow == Some(row)
    {
      editingRow := Some(row);
    }

    /**
     * `handleComplete`: revalidate; with no cell errors, every row
     * projected onto the mapped targets, walking the mapping record in
     * order; otherwise nothing.
     */
    method HandleComplete() returns (emitted: Option<seq<Row>>)
      modifies this`validationErrors
      ensures Valid()
      ensures emitted.Some? <==> ValidateDataset(fileData, mappings, lib) == []
      ensures old(Valid()) ==> (emitted.Some? <==> !old(CompleteDisabled()))
      ensures emitted.Some? ==> |emitted.value| == |fileData|
      ensures emitted.Some? ==> forall k :: 0 <= k < |fileData| ==> emitted.value[k] == Projected(fileData[k], mappings)
    {
      var ok := ValidateData(fileData, mappings);
      if !ok {
        return None;
      }
      var out := ProjectRows(fileData, mappings);
      emitted := Some(out);
    }
  }
}
