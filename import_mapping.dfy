/**
 * The column-mapping step of the spreadsheet import form
 * (`src/components/forms/DataMapping.tsx`): spreadsheet headers are matched
 * to the system's fields by their normalised spelling, the user may change
 * any mapping, and completion is refused while a required field is unmapped
 * or a field is the target of two columns. Completion projects every row
 * onto the mapped fields.
 *
 * The projection of a row onto mapped targets is shared with the grid
 * import flow (module GridImport), which walks its own mapping record the
 * same way.
 */
module ImportMapping {
  import opened Common
  import opened Validation

  // =====================================================================
  // System fields and header matching
  // =====================================================================

  datatype FieldType = StringType | NumberType | DateType | EmailType

  /** `Column`: a field of the system that a spreadsheet column can be mapped to. */
  datatype SystemField = SystemField(name: string, required: bool, description: string, kind: FieldType)

  /** `systemFields`, in declaration order. */
  const SystemFields: seq<SystemField> := [
    SystemField("clientName", true, "Full name of the client", StringType),
    SystemField("companyName", true, "Name of the company", StringType),
    SystemField("email", true, "Primary email address", EmailType),
    SystemField("phone", true, "Contact phone number", StringType),
    SystemField("revenue", false, "Annual revenue", NumberType),
    SystemField("employeeCount", false, "Number of employees", NumberType),
    SystemField("incorporationDate", false, "Date of incorporation", DateType),
    SystemField("website", false, "Company website", StringType)
  ]

  /** `[a-z0-9]` */
  predicate IsLowerAlnum(c: char) { IsLower(c) || IsDigit(c) }

  /** `s.toLowerCase().replace(/[^a-z0-9]/g, '')` */
  function Normalize(s: string): (n: string)
    ensures |n| <= |s|
    ensures forall i :: 0 <= i < |n| ==> IsLowerAlnum(n[i])
  {
    KeepChars(Lower(s), IsLowerAlnum)
  }

  /** Normalising keeps every lower-case letter and digit of the lower-cased name, and nothing else. */
  lemma NormalizeCounts(s: string)
    ensures forall c :: multiset(Normalize(s))[c] == if IsLowerAlnum(c) then multiset(Lower(s))[c] else 0
  {
    KeepCharsCounts(Lower(s), IsLowerAlnum);
  }

  /** Normalising keeps the kept characters in order: a split name normalises part by part. */
  lemma NormalizeAppend(a: string, b: string)
    ensures Normalize(a + b) == Normalize(a) + Normalize(b)
  {
    LowerAppend(a, b);
    KeepCharsAppend(Lower(a), Lower(b), IsLowerAlnum);
  }

  /** Whether `field` is matched by `header` once both are normalised. */
  predicate Matches(field: SystemField, header: string)
  {
    Normalize(field.name) == Normalize(header)
  }

  /** The position of the first field that matches, `|fields|` when none does. */
  function FirstMatch(fields: seq<SystemField>, header: string): (k: nat)
    ensures k <= |fields|
    ensures forall j :: 0 <= j < k ==> !Matches(fields[j], header)
    ensures k < |fields| ==> Matches(fields[k], header)
  {
    if fields == [] || Matches(fields[0], header) then 0
    else
      var k := FirstMatch(fields[1..], header);
      assert forall j :: 0 < j <= k ==> fields[j] == fields[1..][j - 1];
      1 + k
  }

  /** `findMatchingSystemField`: the name of the first system field that matches, if any. */
  function FindMatchingSystemField(header: string): (r: Option<string>)
    ensures r.None? <==> forall i :: 0 <= i < |SystemFields| ==> !Matches(SystemFields[i], header)
    ensures r.Some? ==> exists i :: 0 <= i < |SystemFields| && SystemFields[i].name == r.value &&
                                    Matches(SystemFields[i], header) &&
                                    forall j :: 0 <= j < i ==> !Matches(SystemFields[j], header)
  {
    var k := FirstMatch(SystemFields, header);
    if k < |SystemFields| then Some(SystemFields[k].name) else None
  }

  /** The normalised form of a name made of ASCII letters is its lower-case form. */
  lemma NormalizeLetters(s: string)
    requires forall i :: 0 <= i < |s| ==> IsLetter(s[i])
    ensures Normalize(s) == Lower(s)
  {
    var l := Lower(s);
    forall i | 0 <= i < |l| ensures IsLowerAlnum(l[i]) {
      assert IsLetter(s[i]);
    }
    KeepAll(l, IsLowerAlnum);
  }

  lemma LowerAppend(a: string, b: string)
    ensures Lower(a + b) == Lower(a) + Lower(b)
  {
  }

  /** Capitals and a space between two words do not change the normalised form. */
  lemma NormalizeSpacedWords(a: string, b: string, a': string, b': string)
    requires Lower(a) == Lower(a') && Lower(b) == Lower(b')
    ensures Normalize(a + [' '] + b) == Normalize(a' + b')
  {
    LowerAppend(a + [' '], b);
    LowerAppend(a, [' ']);
    assert Lower([' ']) == [' '];
    DropSeparator(Lower(a), ' ', Lower(b), IsLowerAlnum);
    LowerAppend(a', b');
    KeepCharsAppend(Lower(a'), Lower(b'), IsLowerAlnum);
  }

  // =====================================================================
  // Mappings
  // =====================================================================

  /** `MappingField`; the `isValid` flag is always true and never read, so it is not kept. */
  datatype MappingField = MappingField(sourceColumn: string, targetField: Option<string>)

  /** The initial mappings: one entry per header, in header order, auto-matched. */
  function InitialMappings(headers: seq<string>): (ms: seq<MappingField>)
    ensures |ms| == |headers|
    ensures forall i {:trigger ms[i]} :: 0 <= i < |ms| ==> ms[i].sourceColumn == headers[i]
  {
    seq(|headers|, i requires 0 <= i < |headers| => MappingField(headers[i], FindMatchingSystemField(headers[i])))
  }

  /** `targetField || null`: the empty selection clears the mapping. */
  function Selection(targetField: string): (t: Option<string>)
    ensures t.None? <==> targetField == ""
    ensures t.Some? ==> t.value == targetField
  {
    if targetField == "" then None else Some(targetField)
  }

  /** The mappings after choosing `target` for every entry of `column`. */
  function Remapped(ms: seq<MappingField>, column: string, target: Option<string>): (r: seq<MappingField>)
    ensures |r| == |ms|
    ensures forall i :: 0 <= i < |ms| ==> r[i].sourceColumn == ms[i].sourceColumn
    ensures forall i :: 0 <= i < |ms| && ms[i].sourceColumn == column ==> r[i].targetField == target
    ensures forall i :: 0 <= i < |ms| && ms[i].sourceColumn != column ==> r[i] == ms[i]
  {
    seq(|ms|, i requires 0 <= i < |ms| =>
      if ms[i].sourceColumn == column then ms[i].(targetField := target) else ms[i])
  }

  /** Choosing the same target twice is choosing it once. */
  lemma RemappedIdempotent(ms: seq<MappingField>, column: string, target: Option<string>)
    ensures Remapped(Remapped(ms, column, target), column, target) == Remapped(ms, column, target)
  {
  }

  /** A later choice for the same column overrides an earlier one. */
  lemma RemappedOverrides(ms: seq<MappingField>, column: string, t1: Option<string>, t2: Option<string>)
    ensures Remapped(Remapped(ms, column, t1), column, t2) == Remapped(ms, column, t2)
  {
  }

  // =====================================================================
  // Checking the mappings
  // =====================================================================

  /** The names of the fields satisfying `required`, in order. */
  function RequiredNames(fields: seq<SystemField>): (names: seq<string>)
    ensures |names| <= |fields|
  {
    if fields == [] then []
    else (if fields[0].required then [fields[0].name] else []) + RequiredNames(fields[1..])
  }

  /** The names are exactly those of the required fields. */
  lemma {:induction false} RequiredNamesMembers(fields: seq<SystemField>, n: string)
    ensures n in RequiredNames(fields) <==> exists i :: 0 <= i < |fields| && fields[i].required && fields[i].name == n
  {
    if fields != [] {
      RequiredNamesMembers(fields[1..], n);
      assert forall i :: 0 < i < |fields| ==> fields[i] == fields[1..][i - 1];
    }
  }

  /** `requiredFields` */
  function RequiredFields(): seq<string>
  {
    RequiredNames(SystemFields)
  }

  /** One step of `RequiredNames` over a suffix of the field list. */
  lemma RequiredNamesStep(fields: seq<SystemField>, i: nat)
    requires i < |fields|
    ensures RequiredNames(fields[i..]) ==
            (if fields[i].required then [fields[i].name] else []) + RequiredNames(fields[i + 1..])
  {
    assert fields[i..][1..] == fields[i + 1..];
  }

  /** Optional fields only: no names. */
  lemma {:induction false} NoRequiredNames(fields: seq<SystemField>)
    requires forall i :: 0 <= i < |fields| ==> !fields[i].required
    ensures RequiredNames(fields) == []
  {
    if fields != [] {
      NoRequiredNames(fields[1..]);
    }
  }

  /** Four required fields followed only by optional ones yield the four names, in order. */
  lemma FourRequiredNames(fields: seq<SystemField>)
    requires |fields| >= 4
    requires fields[0].required && fields[1].required && fields[2].required && fields[3].required
    requires forall i :: 4 <= i < |fields| ==> !fields[i].required
    ensures var names := RequiredNames(fields);
            |names| == 4 && names[0] == fields[0].name && names[1] == fields[1].name &&
            names[2] == fields[2].name && names[3] == fields[3].name
  {
    var rest := fields[4..];
    assert forall i :: 0 <= i < |rest| ==> rest[i] == fields[i + 4];
    NoRequiredNames(rest);
    RequiredNamesStep(fields, 3);
    RequiredNamesStep(fields, 2);
    RequiredNamesStep(fields, 1);
    RequiredNamesStep(fields, 0);
    assert fields[0..] == fields;
  }

  lemma RequiredFieldsValue()
    ensures RequiredFields() == ["clientName", "companyName", "email", "phone"]
  {
    FourRequiredNames(SystemFields);
  }

  /** `mappedFields`: the targets of the entries, skipping empty ones (`filter(Boolean)`). */
  function MappedFields(ms: seq<MappingField>): (fs: seq<string>)
    ensures forall f :: f in fs <==> f != "" && exists i :: 0 <= i < |ms| && ms[i].targetField == Some(f)
  {
    if ms == [] then []
    else
      var last := ms[|ms| - 1];
      var init := MappedFields(ms[..|ms| - 1]);
      assert forall i :: 0 <= i < |ms| - 1 ==> ms[i] == ms[..|ms| - 1][i];
      init + (if last.targetField.Some? && last.targetField.value != "" then [last.targetField.value] else [])
  }

  /** `missingRequired`: the required names not among `mapped`, in order. */
  function MissingFrom(required: seq<string>, mapped: seq<string>): (missing: seq<string>)
    ensures forall f :: f in missing <==> f in required && f !in mapped
  {
    if required == [] then []
    else (if required[0] in mapped then [] else [required[0]]) + MissingFrom(required[1..], mapped)
  }

  /** `duplicateMappings`: every element equal to an earlier one, in order. */
  function Duplicates(fs: seq<string>): seq<string>
  {
    if fs == [] then []
    else
      var init := fs[..|fs| - 1];
      var last := fs[|fs| - 1];
      Duplicates(init) + (if last in init then [last] else [])
  }

  predicate Distinct(fs: seq<string>)
  {
    forall i, j :: 0 <= i < j < |fs| ==> fs[i] != fs[j]
  }

  /** A value is reported as a duplicate exactly when it occurs at least twice. */
  lemma {:induction false} DuplicatesMembers(fs: seq<string>, f: string)
    ensures f in Duplicates(fs) <==> multiset(fs)[f] >= 2
  {
    if fs != [] {
      var init := fs[..|fs| - 1];
      var last := fs[|fs| - 1];
      assert fs == init + [last];
      DuplicatesMembers(init, f);
      assert multiset(fs) == multiset(init) + multiset{last};
    }
  }

  /** There are no duplicates exactly when the targets are pairwise distinct. */
  lemma {:induction false} NoDuplicatesIffDistinct(fs: seq<string>)
    ensures Duplicates(fs) == [] <==> Distinct(fs)
  {
    if fs != [] {
      var init := fs[..|fs| - 1];
      var last := fs[|fs| - 1];
      NoDuplicatesIffDistinct(init);
      if Distinct(fs) {
        assert Distinct(init) by {
          forall i, j | 0 <= i < j < |init| ensures init[i] != init[j] {
            assert init[i] == fs[i] && init[j] == fs[j];
          }
        }
        assert last !in init by {
          forall i | 0 <= i < |init| ensures init[i] != last {
            assert init[i] == fs[i];
          }
        }
      }
    }
  }

  /** The outcome of `validateMappings`. */
  datatype MappingCheck = MappingsOk | MissingRequired(missing: seq<string>) | DuplicateTargets(duplicates: seq<string>)

  /** The error text `validateMappings` sets. */
  function CheckMessage(c: MappingCheck): string
  {
    match c
    case MappingsOk => ""
    case MissingRequired(missing) => "Missing required fields: " + Join(missing, ", ")
    case DuplicateTargets(duplicates) => "Duplicate mappings found for: " + Join(duplicates, ", ")
  }

  /** `validateMappings` against a list of required names: missing ones are reported before duplicates. */
  function CheckAgainst(required: seq<string>, ms: seq<MappingField>): (c: MappingCheck)
    ensures c.MissingRequired? ==>
              c.missing != [] && forall f :: f in c.missing <==> f in required && f !in MappedFields(ms)
    ensures c.DuplicateTargets? ==>
              c.duplicates != [] && forall f :: f in required ==> f in MappedFields(ms)
  {
    var mapped := MappedFields(ms);
    var missing := MissingFrom(required, mapped);
    var duplicates := Duplicates(mapped);
    if |missing| > 0 then MissingRequired(missing)
    else if |duplicates| > 0 then DuplicateTargets(duplicates)
    else MappingsOk
  }

  /** `validateMappings`, with the system's required fields. */
  function CheckMappings(ms: seq<MappingField>): MappingCheck
  {
    CheckAgainst(RequiredFields(), ms)
  }

  /**
   * The mappings pass exactly when every required field is the target of
   * some column and no field is the target of two columns.
   */
  lemma CheckAgainstOkIff(required: seq<string>, ms: seq<MappingField>)
    ensures CheckAgainst(required, ms) == MappingsOk <==>
            (forall f :: f in required ==> f in MappedFields(ms)) && Distinct(MappedFields(ms))
  {
    NoDuplicatesIffDistinct(MappedFields(ms));
    var missing := MissingFrom(required, MappedFields(ms));
    if missing != [] {
      assert missing[0] in missing;
    }
  }

  /** A missing required field is always the reported problem, whatever the duplicates. */
  lemma MissingReportedFirst(required: seq<string>, ms: seq<MappingField>, f: string)
    requires f in required && f !in MappedFields(ms)
    ensures CheckAgainst(required, ms).MissingRequired?
    ensures f in CheckAgainst(required, ms).missing
  {
  }

  /** The duplicates reported are the targets mapped from two or more columns. */
  lemma DuplicatesReported(required: seq<string>, ms: seq<MappingField>, f: string)
    requires CheckAgainst(required, ms).DuplicateTargets?
    ensures f in CheckAgainst(required, ms).duplicates <==> multiset(MappedFields(ms))[f] >= 2
  {
    DuplicatesMembers(MappedFields(ms), f);
  }

  // =====================================================================
  // Projecting rows onto the mapped fields
  // =====================================================================

  /**
   * The output row built from `row` by walking `pairs` (source column,
   * target field) in order and setting each non-empty target to the
   * source column's value.
   */
  function Projected(row: Row, pairs: seq<(string, string)>): Row
  {
    if pairs == [] then []
    else
      var acc := Projected(row, pairs[..|pairs| - 1]);
      var (source, target) := pairs[|pairs| - 1];
      if target != "" then Put(acc, target, Lookup(row, source)) else acc
  }

  /** The position of the last pair whose target is `target`, -1 when there is none. */
  function LastTargetIndex(pairs: seq<(string, string)>, target: string): (k: int)
    ensures -1 <= k < |pairs|
    ensures k >= 0 ==> pairs[k].1 == target
    ensures forall j :: k < j < |pairs| ==> pairs[j].1 != target
  {
    if pairs == [] then -1
    else if pairs[|pairs| - 1].1 == target then |pairs| - 1
    else LastTargetIndex(pairs[..|pairs| - 1], target)
  }

  /**
   * Each non-empty target of the output row holds the value of the last
   * column mapped to it; targets no column maps to are absent.
   */
  lemma {:induction false} ProjectedValue(row: Row, pairs: seq<(string, string)>, target: string)
    requires target != ""
    ensures var k := LastTargetIndex(pairs, target);
            Get(Projected(row, pairs), target) == if k < 0 then None else Some(Lookup(row, pairs[k].0))
  {
    if pairs != [] {
      ProjectedValue(row, pairs[..|pairs| - 1], target);
    }
  }

  /** The target column of each pair, in order. */
  function Targets(pairs: seq<(string, string)>): (ts: seq<string>)
    ensures |ts| == |pairs|
    ensures forall i :: 0 <= i < |pairs| ==> ts[i] == pairs[i].1
  {
    if pairs == [] then []
    else
      var init := pairs[..|pairs| - 1];
      assert forall i :: 0 <= i < |init| ==> init[i] == pairs[i];
      Targets(init) + [pairs[|pairs| - 1].1]
  }

  /** The output row's keys are exactly the non-empty targets. */
  lemma {:induction false} ProjectedKeys(row: Row, pairs: seq<(string, string)>, t: string)
    ensures t in Keys(Projected(row, pairs)) <==> t != "" && t in Targets(pairs)
  {
    if pairs != [] {
      ProjectedKeys(row, pairs[..|pairs| - 1], t);
      ProjectedKeysStep(row, pairs, t);
    }
  }

  /** The last pair adds its target, when non-empty, to the keys built from the others. */
  lemma ProjectedKeysStep(row: Row, pairs: seq<(string, string)>, t: string)
    requires pairs != []
    ensures var last := pairs[|pairs| - 1];
            t in Keys(Projected(row, pairs)) <==>
            t in Keys(Projected(row, pairs[..|pairs| - 1])) || (last.1 != "" && t == last.1)
  {
  }

  /** No target appears twice among the output row's keys. */
  lemma {:induction false} ProjectedUniqueKeys(row: Row, pairs: seq<(string, string)>)
    ensures UniqueKeys(Projected(row, pairs))
  {
    if pairs != [] {
      var init := pairs[..|pairs| - 1];
      ProjectedUniqueKeys(row, init);
      var (source, target) := pairs[|pairs| - 1];
      if target != "" {
        PutKeepsUniqueKeys(Projected(row, init), target, Lookup(row, source));
      }
    }
  }

  /** `newRow` filled by the `forEach` over the mapping pairs. */
  method ProjectRow(row: Row, pairs: seq<(string, string)>) returns (newRow: Row)
    ensures newRow == Projected(row, pairs)
  {
    newRow := [];
    var i := 0;
    while i < |pairs|
      invariant 0 <= i <= |pairs|
      invariant newRow == Projected(row, pairs[..i])
    {
      var (sourceColumn, targetField) := pairs[i];
      assert pairs[..i + 1][..i] == pairs[..i];
      if targetField != "" {
        newRow := Put(newRow, targetField, Lookup(row, sourceColumn));
      }
      i := i + 1;
    }
    assert pairs[..i] == pairs;
  }

  /** The projection of one row by `pairs`, as a function value. */
  function ProjectBy(pairs: seq<(string, string)>): Row -> Row
  {
    row => Projected(row, pairs)
  }

  /** The `fileData.map(...)` of the projection: one output row per input row. */
  method ProjectRows(data: seq<Row>, pairs: seq<(string, string)>) returns (out: seq<Row>)
    ensures |out| == |data|
    ensures forall k :: 0 <= k < |data| ==> out[k] == Projected(data[k], pairs)
  {
    out := [];
    var k := 0;
    while k < |data|
      invariant 0 <= k <= |data|
      invariant out == MapSeq(data[..k], ProjectBy(pairs))
    {
      var projected := ProjectRow(data[k], pairs);
      assert data[..k + 1][..k] == data[..k];
      out := out + [projected];
      k := k + 1;
    }
    assert data[..k] == data;
  }

  /** The mapping entries as (source column, target) pairs, '' for no target. */
  function Pairs(ms: seq<MappingField>): (ps: seq<(string, string)>)
    ensures |ps| == |ms|
    ensures forall i :: 0 <= i < |ms| ==> ps[i].0 == ms[i].sourceColumn
    ensures forall i :: 0 <= i < |ms| ==> (ps[i].1 != "" <==> ms[i].targetField.Some? && ms[i].targetField.value != "")
    ensures forall i :: 0 <= i < |ms| && ps[i].1 != "" ==> ms[i].targetField == Some(ps[i].1)
  {
    seq(|ms|, i requires 0 <= i < |ms| =>
      (ms[i].sourceColumn, match ms[i].targetField case None => "" case Some(t) => t))
  }

  /**
   * When the mappings pass, each mapped field of an output row holds the
   * value of the one column mapped to it.
   */
  lemma AcceptedProjection(row: Row, ms: seq<MappingField>, i: nat)
    requires CheckMappings(ms) == MappingsOk
    requires i < |ms| && ms[i].targetField.Some? && ms[i].targetField.value != ""
    ensures Get(Projected(row, Pairs(ms)), ms[i].targetField.value) == Some(Lookup(row, ms[i].sourceColumn))
  {
    var ps := Pairs(ms);
    var t := ms[i].targetField.value;
    ProjectedValue(row, ps, t);
    CheckAgainstOkIff(RequiredFields(), ms);
    var k := LastTargetIndex(ps, t);
    assert ps[i].1 == t;
    if k != i {
      SharedTargetNotDistinct(ms, i, k);
    }
  }

  /** Two entries with the same non-empty target make the mapped fields repeat. */
  lemma {:induction false} SharedTargetNotDistinct(ms: seq<MappingField>, i: nat, k: nat)
    requires i < k < |ms|
    requires ms[i].targetField.Some? && ms[i].targetField.value != ""
    requires ms[k].targetField == ms[i].targetField
    ensures !Distinct(MappedFields(ms))
  {
    var init := ms[..|ms| - 1];
    var t := ms[i].targetField.value;
    var before := MappedFields(init);
    assert MappedFields(ms) == before + (if ms[|ms| - 1].targetField.Some? && ms[|ms| - 1].targetField.value != "" then [ms[|ms| - 1].targetField.value] else []);
    if k == |ms| - 1 {
      assert init[i] == ms[i];
      assert t in before;
      var p :| 0 <= p < |before| && before[p] == t;
      assert MappedFields(ms)[p] == t && MappedFields(ms)[|before|] == t;
    } else {
      assert init[i] == ms[i] && init[k] == ms[k];
      SharedTargetNotDistinct(init, i, k);
      var p, q :| 0 <= p < q < |before| && before[p] == before[q];
      assert MappedFields(ms)[p] == before[p] && MappedFields(ms)[q] == before[q];
    }
  }

  // =====================================================================
  // The form's state
  // =====================================================================

  /** What reading the file gave: the decoded rows, or the read error's message. */
  datatype ReadOutcome = Decoded(rows: seq<Row>) | ReadFailed(message: string)

  const NoDataMessage: string := "No data found in file"

  /** The state of the `DataMapping` form and its handlers. */
  class MappingSession {
    var fileData: seq<Row>
    var columns: seq<string>
    var mappings: seq<MappingField>
    var previewData: seq<Row>
    var error: Option<string>

    constructor()
      ensures fileData == [] && columns == [] && mappings == [] && previewData == [] && error == None
    {
      fileData := [];
      columns := [];
      mappings := [];
      previewData := [];
      error := None;
    }

    /** `disabled={isProcessing || !!error}`, after processing has finished. */
    predicate CompleteDisabled()
      reads this
    {
      error.Some?
    }

    /**
     * `parseFile`: clear the error, then either take the rows (columns are
     * the first row's keys, one auto-matched mapping per column) or report
     * why there are none.
     */
    method ParseFile(outcome: ReadOutcome)
      modifies this
      ensures outcome.Decoded? && |outcome.rows| > 0 ==> Loaded(outcome.rows)
      ensures outcome.Decoded? && |outcome.rows| == 0 ==>
                error == Some(NoDataMessage) && unchanged(this`fileData, this`columns, this`mappings, this`previewData)
      ensures outcome.ReadFailed? ==>
                error == Some(outcome.message) && unchanged(this`fileData, this`columns, this`mappings, this`previewData)
    {
      if outcome.ReadFailed? {
        error := Some(outcome.message);
      } else if |outcome.rows| == 0 {
        error := Some(NoDataMessage);
      } else {
        Load(outcome.rows);
      }
    }

    /** The state after reading `data`: its rows, the first row's keys as columns, auto-matched mappings. */
    predicate Loaded(data: seq<Row>)
      requires |data| > 0
      reads this
    {
      && error == None
      && fileData == data
      && columns == Keys(data[0])
      && previewData == data[..Min(5, |data|)]
      && mappings == InitialMappings(columns)
    }

    method Load(data: seq<Row>)
      requires |data| > 0
      modifies this
      ensures Loaded(data)
    {
      var headers := Keys(data[0]);
      var initial := InitialMappings(headers);
      columns := headers;
      fileData := data;
      previewData := data[..Min(5, |data|)];
      mappings := initial;
      error := None;
    }

    /** `handleMappingChange`: only the entries of `sourceColumn` change; the error stays. */
    method HandleMappingChange(sourceColumn: string, targetField: string)
      modifies this`mappings
      ensures mappings == Remapped(old(mappings), sourceColumn, Selection(targetField))
    {
      mappings := Remapped(mappings, sourceColumn, Selection(targetField));
    }

    /**
     * `handleComplete`: when the mappings pass, every row projected onto
     * the mapped fields; otherwise nothing, and the error is set.
     */
    method HandleComplete() returns (emitted: Option<seq<Row>>)
      modifies this`error
      ensures var check := CheckMappings(mappings);
              && (check == MappingsOk ==> error == old(error))
              && (check != MappingsOk ==> error == Some(CheckMessage(check)))
              && (emitted.Some? <==> check == MappingsOk)
      ensures emitted.Some? ==> |emitted.value| == |fileData|
      ensures emitted.Some? ==> forall k :: 0 <= k < |fileData| ==> emitted.value[k] == Projected(fileData[k], Pairs(mappings))
    {
      var check := CheckMappings(mappings);
      if check != MappingsOk {
        error := Some(CheckMessage(check));
        return None;
      }
      var out := ProjectRows(fileData, Pairs(mappings));
      emitted := Some(out);
    }
  }
}
