/**
 * The client-side validation library: value formatters, the regular
 * expression rules behind the field schemas, the field validator, the
 * row and dataset validators that turn a mapped spreadsheet into an
 * ordered list of error records, and the two renderings of that list
 * (a CSV report and a grouped text summary).
 */
module Validation {
  import opened Common

  // =====================================================================
  // Formatters
  // =====================================================================

  function Min(a: int, b: int): int { if a <= b then a else b }

  predicate AllDigits(s: string)
  {
    forall i :: 0 <= i < |s| ==> IsDigit(s[i])
  }

  /**
   * `value.replace(/\D/g, '')`, the cleaning step of `formatters.phone`;
   * `formatters.corporationNumber` and `formatters.businessNumber` are
   * this same function (`/[^0-9]/g` removes the same characters).
   */
  function Digits(value: string): (d: string)
    ensures AllDigits(d) && |d| <= |value|
  {
    KeepChars(value, IsDigit)
  }

  /** Cleaning keeps every digit, as often as it occurs, and nothing else. */
  lemma DigitsCounts(value: string)
    ensures forall c :: multiset(Digits(value))[c] == if IsDigit(c) then multiset(value)[c] else 0
  {
    KeepCharsCounts(value, IsDigit);
  }

  /** Cleaning keeps the digits in their order: a split input cleans part by part. */
  lemma DigitsAppend(a: string, b: string)
    ensures Digits(a + b) == Digits(a) + Digits(b)
  {
    KeepCharsAppend(a, b, IsDigit);
  }

  /** Input made of digits only is left unchanged, so cleaning twice is cleaning once. */
  lemma DigitsOfDigits(value: string)
    requires AllDigits(value)
    ensures Digits(value) == value
  {
    KeepAll(value, IsDigit);
  }

  /** The phone layout applied to a string of digits. */
  function PhoneLayout(digits: string): string
  {
    if |digits| <= 3 then digits
    else if |digits| <= 6 then digits[..3] + "-" + digits[3..]
    else digits[..3] + "-" + digits[3..6] + "-" + digits[6..Min(10, |digits|)]
  }

  /** `formatters.phone`: keep the digits and lay them out as ddd-ddd-dddd. */
  function FormatPhone(value: string): string
  {
    PhoneLayout(Digits(value))
  }

  /** The postal-code layout applied to cleaned, upper-cased text. */
  function PostalLayout(cleaned: string): string
  {
    if |cleaned| <= 3 then cleaned
    else cleaned[..3] + " " + cleaned[3..Min(6, |cleaned|)]
  }

  /** `value.replace(/[^A-Za-z0-9]/g, '').toUpperCase()` */
  function CleanPostal(value: string): string
  {
    Upper(KeepChars(value, IsAlnum))
  }

  /** `formatters.postalCode`: A1A 1A1. */
  function FormatPostalCode(value: string): string
  {
    PostalLayout(CleanPostal(value))
  }

  // =====================================================================
  // Regular-expression rules
  // =====================================================================

  /** `1?\d{10,}` matched against the whole of `t`. */
  predicate PhoneTail(t: string)
  {
    (|t| >= 10 && AllDigits(t)) || (|t| >= 11 && t[0] == '1' && AllDigits(t[1..]))
  }

  /** `/^\+?1?\d{10,}$/` */
  predicate PhonePattern(s: string)
  {
    PhoneTail(s) || (|s| >= 1 && s[0] == '+' && PhoneTail(s[1..]))
  }

  /** `/^\d{4}-\d{2}-\d{2}$/` */
  predicate DatePattern(s: string)
  {
    |s| == 10 && AllDigits(s[..4]) && s[4] == '-' && AllDigits(s[5..7]) &&
    s[7] == '-' && AllDigits(s[8..])
  }

  /** `/^\d+$/` */
  predicate NumberPattern(s: string)
  {
    |s| >= 1 && AllDigits(s)
  }

  /** `/^[A-Za-z]\d[A-Za-z] \d[A-Za-z]\d$/` */
  predicate PostalPattern(s: string)
  {
    |s| == 7 && IsLetter(s[0]) && IsDigit(s[1]) && IsLetter(s[2]) && s[3] == ' ' &&
    IsDigit(s[4]) && IsLetter(s[5]) && IsDigit(s[6])
  }

  /** `/^\d{9}$/` */
  predicate BusinessNumberPattern(s: string)
  {
    |s| == 9 && AllDigits(s)
  }

  // =====================================================================
  // Field schemas and the field validator
  // =====================================================================

  /** The rule a field schema applies to a string. */
  datatype Rule =
    | EmailRule                  // z.string().email('Invalid email format')
    | PhoneRule                  // phoneSchema
    | UrlRule                    // z.string().url('Invalid URL format')
    | DateRule                   // dateSchema
    | NumberRule                 // numberSchema
    | PostalCodeRule             // addressSchema.postalCode
    | BusinessNumberRule         // companySchema.businessNumber
    | NonEmpty(message: string)  // z.string().min(1, message)
    | OptionalRule(inner: Rule)  // schema.optional()

  /**
   * The checks the schema library performs itself and that are not
   * visible here: whether a string is an e-mail address and whether it
   * is a URL.
   */
  datatype LibraryChecks = LibraryChecks(isEmail: string -> bool, isUrl: string -> bool)

  /** A spreadsheet cell as it reaches the validator. */
  datatype Cell =
    | Text(text: string)                      // a string
    | NonText(typeName: string, shown: string) // a number or boolean, with `String(v)`
    | Absent                                   // `undefined`: the row has no such key

  /** The failure message of a rule applied to a string. */
  function RuleMessage(rule: Rule): string
  {
    match rule
    case EmailRule => "Invalid email format"
    case PhoneRule => "Invalid phone number"
    case UrlRule => "Invalid URL format"
    case DateRule => "Invalid date format (YYYY-MM-DD)"
    case NumberRule => "Must be a number"
    case PostalCodeRule => "Invalid postal code format (A1A 1A1)"
    case BusinessNumberRule => "Business number must be 9 digits"
    case NonEmpty(m) => m
    case OptionalRule(inner) => RuleMessage(inner)
  }

  /** Whether a rule accepts a string. */
  predicate Accepts(rule: Rule, s: string, lib: LibraryChecks)
  {
    match rule
    case EmailRule => lib.isEmail(s)
    case PhoneRule => PhonePattern(s)
    case UrlRule => lib.isUrl(s)
    case DateRule => DatePattern(s)
    case NumberRule => NumberPattern(s)
    case PostalCodeRule => PostalPattern(s)
    case BusinessNumberRule => BusinessNumberPattern(s)
    case NonEmpty(_) => |s| >= 1
    case OptionalRule(inner) => Accepts(inner, s, lib)
  }

  /** `{ isValid, error? }` */
  datatype FieldResult = Valid | Invalid(error: string)

  /**
   * `validateField(schema, value)`: the schema's first failure message, or
   * Valid. A value that is not a string fails the string type check first,
   * with the schema library's own messages; `optional()` lets `undefined`
   * through and nothing else.
   */
  function ValidateField(rule: Rule, cell: Cell, lib: LibraryChecks): (r: FieldResult)
    ensures r.Invalid? && NoEmptyMessage(rule) ==> r.error != ""
    ensures cell.Text? ==> (r.Valid? <==> Accepts(rule, cell.text, lib))
    ensures cell.Text? && r.Invalid? ==> r.error == RuleMessage(rule)
    ensures cell.NonText? ==> r.Invalid?
    ensures cell.Absent? ==> (r.Valid? <==> rule.OptionalRule?)
  {
    match rule
    case OptionalRule(inner) =>
      if cell.Absent? then Valid else ValidateField(inner, cell, lib)
    case _ =>
      match cell
      case Absent => Invalid("Required")
      case NonText(t, _) => Invalid("Expected string, received " + t)
      case Text(s) =>
        if Accepts(rule, s, lib) then Valid else Invalid(RuleMessage(rule))
  }

  /** A rule whose failure message is not empty. */
  predicate NoEmptyMessage(rule: Rule)
    ensures NoEmptyMessage(rule) ==> RuleMessage(rule) != ""
  {
    match rule
    case NonEmpty(m) => m != ""
    case OptionalRule(inner) => NoEmptyMessage(inner)
    case _ => true
  }

  /** The one rule whose message is "Field is required". */
  const RequiredRule: Rule := NonEmpty("Field is required")

  /** `getSchemaForField`: a target field name to its rule; never null. */
  function SchemaForField(field: string): (r: Option<Rule>)
    ensures r.Some? && NoEmptyMessage(r.value)
    ensures field == "email" ==> r.value == EmailRule
    ensures field == "phone" ==> r.value == PhoneRule
    ensures field in {"website", "linkedin", "twitter", "facebook"} ==> r.value == UrlRule
    ensures field == "incorporationDate" ==> r.value == DateRule
    ensures field in {"revenue", "employeeCount"} ==> r.value == NumberRule
    ensures (field !in {"email", "phone", "website", "linkedin", "twitter", "facebook",
                        "incorporationDate", "revenue", "employeeCount"}) ==> r.value == RequiredRule
  {
    if field == "email" then Some(EmailRule)
    else if field == "phone" then Some(PhoneRule)
    else if field == "website" || field == "linkedin" || field == "twitter" || field == "facebook" then Some(UrlRule)
    else if field == "incorporationDate" then Some(DateRule)
    else if field == "revenue" || field == "employeeCount" then Some(NumberRule)
    else Some(RequiredRule)
  }

  // =====================================================================
  // Row and dataset validation
  // =====================================================================

  /** `{ row, column, value, error }` */
  datatype ValidationError = ValidationError(row: nat, column: string, value: Cell, error: string)

  /** A spreadsheet row: column name to cell. */
  type Row = Record<Cell>

  /** Column mappings: source column to target field, '' when unmapped. */
  type Mappings = Record<string>

  /** `row[column]` */
  function Lookup(row: Row, column: string): Cell
  {
    match Get(row, column)
    case None => Absent
    case Some(c) => c
  }

  /** The records one mapping entry contributes for one row (row number 0). */
  function EntryErrors(row: Row, entry: (string, string), lib: LibraryChecks): (r: seq<ValidationError>)
    ensures |r| <= 1
    ensures |r| == 1 <==> entry.1 != "" && ValidateField(SchemaForField(entry.1).value, Lookup(row, entry.0), lib).Invalid?
    ensures |r| == 1 ==> r[0] == ValidationError(0, entry.0, Lookup(row, entry.0),
                                  ValidateField(SchemaForField(entry.1).value, Lookup(row, entry.0), lib).error)
  {
    var (column, target) := entry;
    if target == "" then []
    else
      match SchemaForField(target)
      case None => []
      case Some(rule) =>
        var value := Lookup(row, column);
        match ValidateField(rule, value, lib)
        case Valid => []
        case Invalid(e) => [ValidationError(0, column, value, if e == "" then "Invalid value" else e)]
  }

  /** What `validateRow` returns: the entries' records in mapping order. */
  function RowErrors(row: Row, mappings: Mappings, lib: LibraryChecks): seq<ValidationError>
  {
    if mappings == [] then []
    else RowErrors(row, mappings[..|mappings| - 1], lib) + EntryErrors(row, mappings[|mappings| - 1], lib)
  }

  /** Row errors of two runs of mappings are those of each, in order. */
  lemma {:induction false} RowErrorsAppend(row: Row, m1: Mappings, m2: Mappings, lib: LibraryChecks)
    ensures RowErrors(row, m1 + m2, lib) == RowErrors(row, m1, lib) + RowErrors(row, m2, lib)
    decreases |m2|
  {
    if m2 == [] {
      assert m1 + m2 == m1;
    } else {
      var init := m2[..|m2| - 1];
      assert (m1 + m2)[..|m1 + m2| - 1] == m1 + init;
      RowErrorsAppend(row, m1, init, lib);
    }
  }

  /** A mapping entry with an empty target never yields a record. */
  lemma {:induction false} UnmappedEntriesIgnored(row: Row, m: Mappings, lib: LibraryChecks)
    ensures RowErrors(row, m, lib) == RowErrors(row, MappedOnly(m), lib)
  {
    if m != [] {
      var init := m[..|m| - 1];
      var last := m[|m| - 1];
      assert m == init + [last];
      UnmappedEntriesIgnored(row, init, lib);
      MappedOnlyAppend(init, [last]);
      RowErrorsAppend(row, MappedOnly(init), MappedOnly([last]), lib);
      if last.1 == "" {
        assert MappedOnly([last]) == [];
      } else {
        assert MappedOnly([last]) == [last];
        assert RowErrors(row, [last], lib) == EntryErrors(row, last, lib) by {
          assert [last][..0] == [];
        }
      }
    }
  }

  /** The entries whose target is not empty, in order. */
  function MappedOnly(m: Mappings): (r: Mappings)
    ensures forall e :: e in r <==> e in m && e.1 != ""
  {
    if m == [] then [] else (if m[0].1 != "" then [m[0]] else []) + MappedOnly(m[1..])
  }

  lemma {:induction false} MappedOnlyAppend(m1: Mappings, m2: Mappings)
    ensures MappedOnly(m1 + m2) == MappedOnly(m1) + MappedOnly(m2)
  {
    if m1 == [] {
      assert m1 + m2 == m2;
    } else {
      assert (m1 + m2)[0] == m1[0] && (m1 + m2)[1..] == m1[1..] + m2;
      MappedOnlyAppend(m1[1..], m2);
    }
  }

  /** Every record of a row names a mapped column, with its raw value and zero row. */
  lemma {:induction false} RowErrorsCarryCell(row: Row, m: Mappings, lib: LibraryChecks)
    ensures forall e :: e in RowErrors(row, m, lib) ==>
              e.row == 0 && e.value == Lookup(row, e.column) && e.error != "" &&
              exists i :: 0 <= i < |m| && m[i].0 == e.column && m[i].1 != ""
  {
    if m != [] {
      var init := m[..|m| - 1];
      RowErrorsCarryCell(row, init, lib);
      forall e | e in RowErrors(row, m, lib)
        ensures e.row == 0 && e.value == Lookup(row, e.column) && e.error != "" &&
                exists i :: 0 <= i < |m| && m[i].0 == e.column && m[i].1 != ""
      {
        if e in RowErrors(row, init, lib) {
          var i :| 0 <= i < |init| && init[i].0 == e.column && init[i].1 != "";
          assert m[i] == init[i];
        } else {
          assert m[|m| - 1].0 == e.column;
        }
      }
    }
  }

  /**
   * `validateRow`: walk the mappings in order and push one record for each
   * mapped column whose value fails its field's rule.
   */
  method ValidateRow(row: Row, mappings: Mappings, lib: LibraryChecks) returns (errors: seq<ValidationError>)
    ensures errors == RowErrors(row, mappings, lib)
    ensures |errors| <= |mappings|
  {
    errors := [];
    var i := 0;
    while i < |mappings|
      invariant 0 <= i <= |mappings|
      invariant errors == RowErrors(row, mappings[..i], lib)
      invariant |errors| <= i
    {
      var (sourceColumn, targetField) := mappings[i];
      assert mappings[..i + 1][..i] == mappings[..i];
      if targetField != "" {
        var value := Lookup(row, sourceColumn);
        var schema := SchemaForField(targetField);
        if schema.Some? {
          var validation := ValidateField(schema.value, value, lib);
          if validation.Invalid? {
            var message := if validation.error == "" then "Invalid value" else validation.error;
            errors := errors + [ValidationError(0, sourceColumn, value, message)];
          }
        }
      }
      i := i + 1;
    }
    assert mappings[..i] == mappings;
  }

  /** The records of one row, numbered with that row's 1-based position. */
  function Numbered(errors: seq<ValidationError>, rowNumber: nat): (r: seq<ValidationError>)
    ensures |r| == |errors|
    ensures forall k :: 0 <= k < |r| ==> r[k] == errors[k].(row := rowNumber)
  {
    if errors == [] then [] else [errors[0].(row := rowNumber)] + Numbered(errors[1..], rowNumber)
  }

  /** `validateDataset`: each row's records, in row order, with `row = index + 1`. */
  function ValidateDataset(data: seq<Row>, mappings: Mappings, lib: LibraryChecks): seq<ValidationError>
  {
    if data == [] then []
    else ValidateDataset(data[..|data| - 1], mappings, lib) +
         Numbered(RowErrors(data[|data| - 1], mappings, lib), |data|)
  }

  /** Every record points to an existing row, and to a failing cell of that row. */
  lemma {:induction false} DatasetErrorsPointIntoData(data: seq<Row>, mappings: Mappings, lib: LibraryChecks)
    ensures forall e :: e in ValidateDataset(data, mappings, lib) ==>
              1 <= e.row <= |data| && e.(row := 0) in RowErrors(data[e.row - 1], mappings, lib)
  {
    if data != [] {
      var init, lastRow := data[..|data| - 1], data[|data| - 1];
      DatasetErrorsPointIntoData(init, mappings, lib);
      var a := ValidateDataset(init, mappings, lib);
      var errs := RowErrors(lastRow, mappings, lib);
      forall e: ValidationError | e in ValidateDataset(data, mappings, lib)
        ensures 1 <= e.row <= |data| && e.(row := 0) in RowErrors(data[e.row - 1], mappings, lib)
      {
        if e in a {
          assert data[e.row - 1] == init[e.row - 1];
        } else {
          assert e in Numbered(errs, |data|);
          RowErrorsCarryCell(lastRow, mappings, lib);
          NumberedPointsBack(errs, |data|, e);
        }
      }
    }
  }

  /** A renumbered record comes from the record with row zero in the same position. */
  lemma NumberedPointsBack(errors: seq<ValidationError>, rowNumber: nat, e: ValidationError)
    requires forall x :: x in errors ==> x.row == 0
    requires e in Numbered(errors, rowNumber)
    ensures e.row == rowNumber && e.(row := 0) in errors
  {
    var r := Numbered(errors, rowNumber);
    var k :| 0 <= k < |r| && r[k] == e;
    assert errors[k].row == 0;
    assert e.(row := 0) == errors[k];
  }

  /** Conversely, every failing cell of every row is reported, under that row's number. */
  lemma {:induction false} DatasetErrorsComplete(data: seq<Row>, mappings: Mappings, lib: LibraryChecks, i: nat, e: ValidationError)
    requires i < |data| && e in RowErrors(data[i], mappings, lib)
    ensures e.(row := i + 1) in ValidateDataset(data, mappings, lib)
  {
    var init := data[..|data| - 1];
    var last := RowErrors(data[|data| - 1], mappings, lib);
    if i < |data| - 1 {
      DatasetErrorsComplete(init, mappings, lib, i, e);
    } else {
      var k :| 0 <= k < |last| && last[k] == e;
      assert Numbered(last, |data|)[k] == e.(row := i + 1);
    }
  }

  /** Whether the records come in non-decreasing row order. */
  predicate OrderedByRow(es: seq<ValidationError>)
  {
    forall j, k :: 0 <= j < k < |es| ==> es[j].row <= es[k].row
  }

  /** Records come in non-decreasing row order. */
  lemma {:induction false} DatasetErrorsOrderedByRow(data: seq<Row>, mappings: Mappings, lib: LibraryChecks)
    ensures OrderedByRow(ValidateDataset(data, mappings, lib))
  {
    if data != [] {
      var init := data[..|data| - 1];
      DatasetErrorsOrderedByRow(init, mappings, lib);
      DatasetRowsAtMost(init, mappings, lib);
      var a: seq<ValidationError> := ValidateDataset(init, mappings, lib);
      var b: seq<ValidationError> := Numbered(RowErrors(data[|data| - 1], mappings, lib), |data|);
      assert forall m :: 0 <= m < |a| ==> a[m].row <= |init| by {
        forall m | 0 <= m < |a| ensures a[m].row <= |init| { assert a[m] in a; }
      }
      assert forall m :: 0 <= m < |b| ==> b[m].row == |data|;
      OrderedThenRow(a, b, |data|);
      assert ValidateDataset(data, mappings, lib) == a + b;
    }
  }

  /** No record of a dataset names a row past its end. */
  lemma {:induction false} DatasetRowsAtMost(data: seq<Row>, mappings: Mappings, lib: LibraryChecks)
    ensures forall e :: e in ValidateDataset(data, mappings, lib) ==> e.row <= |data|
  {
    if data != [] {
      var init := data[..|data| - 1];
      DatasetRowsAtMost(init, mappings, lib);
      var a: seq<ValidationError> := ValidateDataset(init, mappings, lib);
      var b: seq<ValidationError> := Numbered(RowErrors(data[|data| - 1], mappings, lib), |data|);
      assert ValidateDataset(data, mappings, lib) == a + b;
      forall e | e in a + b ensures e.row <= |data| {
        if e !in a {
          var m :| 0 <= m < |b| && b[m] == e;
        }
      }
    }
  }

  /** Ordered records followed by records of one later row stay ordered. */
  lemma OrderedThenRow(a: seq<ValidationError>, b: seq<ValidationError>, row: nat)
    requires OrderedByRow(a)
    requires forall m :: 0 <= m < |a| ==> a[m].row <= row
    requires forall m :: 0 <= m < |b| ==> b[m].row == row
    ensures OrderedByRow(a + b)
  {
    forall j, k | 0 <= j < k < |a + b| ensures (a + b)[j].row <= (a + b)[k].row {
      if k < |a| {
        assert (a + b)[j] == a[j] && (a + b)[k] == a[k];
      } else if j < |a| {
        assert (a + b)[j] == a[j] && (a + b)[k] == b[k - |a|];
      } else {
        assert (a + b)[j] == b[j - |a|] && (a + b)[k] == b[k - |a|];
      }
    }
  }

  // =====================================================================
  // The CSV error report
  // =====================================================================

  /** `${value}` */
  function Shown(value: Cell): string
  {
    match value
    case Text(s) => s
    case NonText(_, shown) => shown
    case Absent => "undefined"
  }

  const ReportHeader: string := "Row,Column,Value,Error\n"

  /** One line of the report: row, then column, value and error wrapped in quotes, unescaped. */
  function ReportLine(e: ValidationError): string
  {
    DecimalString(e.row) + ",\"" + e.column + "\",\"" + Shown(e.value) + "\",\"" + e.error + "\""
  }

  function ReportLines(errors: seq<ValidationError>): (lines: seq<string>)
    ensures |lines| == |errors|
    ensures forall k :: 0 <= k < |errors| ==> lines[k] == ReportLine(errors[k])
  {
    seq(|errors|, k requires 0 <= k < |errors| => ReportLine(errors[k]))
  }

  /** `generateErrorReport` */
  function GenerateErrorReport(errors: seq<ValidationError>): (report: string)
    ensures StartsWith(report, ReportHeader)
    ensures errors == [] ==> report == ReportHeader
  {
    ReportHeader + Join(ReportLines(errors), "\n")
  }

  /** `text.split('\n')` */
  function SplitLines(s: string): (lines: seq<string>)
    ensures |lines| >= 1
  {
    if s == [] then [""]
    else
      var rest := SplitLines(s[1..]);
      if s[0] == '\n' then [""] + rest else [[s[0]] + rest[0]] + rest[1..]
  }

  lemma {:induction false} SplitLinesAppend(a: string, b: string)
    requires '\n' !in a
    ensures SplitLines(a + b) == [a + SplitLines(b)[0]] + SplitLines(b)[1..]
  {
    if a == [] {
      assert a + b == b;
      assert a + SplitLines(b)[0] == SplitLines(b)[0];
      assert SplitLines(b) == [SplitLines(b)[0]] + SplitLines(b)[1..];
    } else {
      assert (a + b)[0] == a[0] && (a + b)[1..] == a[1..] + b;
      SplitLinesAppend(a[1..], b);
      assert [a[0]] + (a[1..] + SplitLines(b)[0]) == a + SplitLines(b)[0];
    }
  }

  /** Splitting lines joined by newlines gives them back, when none holds a newline. */
  lemma {:induction false} SplitJoin(lines: seq<string>)
    requires |lines| >= 1
    requires forall k :: 0 <= k < |lines| ==> '\n' !in lines[k]
    ensures SplitLines(Join(lines, "\n")) == lines
  {
    if |lines| == 1 {
      SplitLinesAppend(lines[0], "");
      assert lines[0] + "" == lines[0];
      assert SplitLines("") == [""];
      assert Join(lines, "\n") == lines[0];
    } else {
      var rest := Join(lines[1..], "\n");
      SplitJoin(lines[1..]);
      assert Join(lines, "\n") == lines[0] + ("\n" + rest);
      SplitLinesAppend(lines[0], "\n" + rest);
      assert ("\n" + rest)[0] == '\n' && ("\n" + rest)[1..] == rest;
      assert SplitLines("\n" + rest) == [""] + lines[1..];
      assert lines[0] + "" == lines[0];
      assert lines == [lines[0]] + lines[1..];
    }
  }

  /**
   * When no column, value or error text holds a newline, the report is the
   * header line followed by exactly one line per record, in order, with no
   * trailing newline.
   */
  lemma {:induction false} ReportHasOneLinePerError(errors: seq<ValidationError>)
    requires errors != []
    requires forall e :: e in errors ==> '\n' !in e.column && '\n' !in Shown(e.value) && '\n' !in e.error
    ensures SplitLines(GenerateErrorReport(errors)) == ["Row,Column,Value,Error"] + ReportLines(errors)
  {
    var lines := ReportLines(errors);
    forall k | 0 <= k < |lines| ensures '\n' !in lines[k] {
      assert errors[k] in errors;
      ReportLineOneLine(errors[k]);
    }
    var hdr := "Row,Column,Value,Error";
    assert ReportHeader == hdr + "\n";
    assert '\n' !in hdr;
    HeaderThenLines(hdr, lines);
  }

  /** A line, a newline and the joined lines split back into that line and those lines. */
  lemma HeaderThenLines(hdr: string, lines: seq<string>)
    requires '\n' !in hdr
    requires |lines| >= 1
    requires forall k :: 0 <= k < |lines| ==> '\n' !in lines[k]
    ensures SplitLines(hdr + "\n" + Join(lines, "\n")) == [hdr] + lines
  {
    SplitJoin(lines);
    var tail := "\n" + Join(lines, "\n");
    assert hdr + "\n" + Join(lines, "\n") == hdr + tail;
    SplitLinesAppend(hdr, tail);
    assert tail[0] == '\n' && tail[1..] == Join(lines, "\n");
    assert SplitLines(tail) == [""] + lines;
    assert hdr + "" == hdr;
  }

  lemma ReportLineOneLine(e: ValidationError)
    requires '\n' !in e.column && '\n' !in Shown(e.value) && '\n' !in e.error
    ensures '\n' !in ReportLine(e)
  {
    var n := DecimalString(e.row);
    assert '\n' !in n by {
      forall i | 0 <= i < |n| ensures n[i] != '\n' {
        assert IsDigit(n[i]);
      }
    }
  }

  /**
   * Quotes inside a field are not escaped, so two different records can
   * produce the same report line.
   */
  lemma ReportLineNotInjective()
    ensures ReportLine(ValidationError(1, "a\",\"b", Text("c"), "d")) ==
            ReportLine(ValidationError(1, "a", Text("b\",\"c"), "d"))
  {
  }

  // =====================================================================
  // The grouped text summary
  // =====================================================================

  /** `Row ${row}` */
  function SummaryKey(e: ValidationError): string
  {
    "Row " + DecimalString(e.row)
  }

  /** `${column}: ${error}` */
  function SummaryItem(e: ValidationError): string
  {
    e.column + ": " + e.error
  }

  /** `acc[key] = acc[key] || []; acc[key].push(item)` */
  function AddItem(acc: Record<seq<string>>, key: string, item: string): Record<seq<string>>
  {
    var current := match Get(acc, key) case None => [] case Some(items) => items;
    Put(acc, key, current + [item])
  }

  /** The accumulator of the `reduce`: summary key to items, in first-appearance order. */
  function SummaryGroups(errors: seq<ValidationError>): Record<seq<string>>
  {
    if errors == [] then []
    else
      var last := errors[|errors| - 1];
      AddItem(SummaryGroups(errors[..|errors| - 1]), SummaryKey(last), SummaryItem(last))
  }

  /** The items of the records whose key is `key`, in input order. */
  function ItemsFor(errors: seq<ValidationError>, key: string): seq<string>
  {
    if errors == [] then []
    else
      var last := errors[|errors| - 1];
      ItemsFor(errors[..|errors| - 1], key) + (if SummaryKey(last) == key then [SummaryItem(last)] else [])
  }

  /** The distinct keys of `ks`, each at its first appearance. */
  function FirstAppearances(ks: seq<string>): (r: seq<string>)
    ensures forall k :: k in r <==> k in ks
    ensures forall i, j :: 0 <= i < j < |r| ==> r[i] != r[j]
  {
    if ks == [] then []
    else
      var init := FirstAppearances(ks[..|ks| - 1]);
      var last := ks[|ks| - 1];
      assert ks == ks[..|ks| - 1] + [last];
      if last in init then init else init + [last]
  }

  /** The position of the first occurrence of `k` in `ks`. */
  function FirstIndex(ks: seq<string>, k: string): (p: nat)
    requires k in ks
    ensures p < |ks| && ks[p] == k && k !in ks[..p]
  {
    if ks[0] == k then 0
    else
      var p := FirstIndex(ks[1..], k);
      assert ks[..p + 1] == [ks[0]] + ks[1..][..p];
      p + 1
  }

  /** A key's first occurrence is unchanged by appending to the sequence. */
  lemma FirstIndexPrefix(ks: seq<string>, x: string, k: string)
    requires k in ks
    ensures FirstIndex(ks + [x], k) == FirstIndex(ks, k)
  {
    assert (ks + [x])[FirstIndex(ks, k)] == k;
  }

  /** The distinct keys are listed in the order of their first occurrences. */
  lemma {:induction false} FirstAppearancesOrder(ks: seq<string>, i: nat, j: nat)
    requires i < j < |FirstAppearances(ks)|
    ensures FirstIndex(ks, FirstAppearances(ks)[i]) < FirstIndex(ks, FirstAppearances(ks)[j])
  {
    var init, last := ks[..|ks| - 1], ks[|ks| - 1];
    assert ks == init + [last];
    var r, r0 := FirstAppearances(ks), FirstAppearances(init);
    if j < |r0| {
      assert r[i] == r0[i] && r[j] == r0[j];
      FirstAppearancesOrder(init, i, j);
      FirstIndexPrefix(init, last, r0[i]);
      FirstIndexPrefix(init, last, r0[j]);
    } else {
      assert r == r0 + [last] && r[j] == last && last !in init;
      assert r[i] == r0[i] && r0[i] in init;
      FirstIndexPrefix(init, last, r0[i]);
      assert ks[|init|] == last;
    }
  }

  function SummaryKeys(errors: seq<ValidationError>): seq<string>
  {
    seq(|errors|, k requires 0 <= k < |errors| => SummaryKey(errors[k]))
  }

  /** Each group holds exactly the items of the records with its key, in input order. */
  lemma {:induction false} SummaryGroupItems(errors: seq<ValidationError>, key: string)
    ensures Get(SummaryGroups(errors), key) ==
            if ItemsFor(errors, key) == [] then None else Some(ItemsFor(errors, key))
  {
    if errors != [] {
      var init := errors[..|errors| - 1];
      var last := errors[|errors| - 1];
      SummaryGroupItems(init, key);
      var g := SummaryGroups(init);
      var k := SummaryKey(last);
      var current := match Get(g, k) case None => [] case Some(items) => items;
      var item := SummaryItem(last);
      assert SummaryGroups(errors) == Put(g, k, current + [item]);
      if k == key {
        assert ItemsFor(errors, key) == ItemsFor(init, key) + [item];
        assert current == ItemsFor(init, key);
        assert Get(SummaryGroups(errors), key) == Some(current + [item]);
      } else {
        assert ItemsFor(errors, key) == ItemsFor(init, key) + [];
        assert ItemsFor(errors, key) == ItemsFor(init, key);
        assert Get(SummaryGroups(errors), key) == Get(g, key);
      }
    }
  }

  /** The groups come in the order their keys first appear. */
  lemma {:induction false} SummaryGroupOrder(errors: seq<ValidationError>)
    ensures Keys(SummaryGroups(errors)) == FirstAppearances(SummaryKeys(errors))
  {
    if errors != [] {
      var init := errors[..|errors| - 1];
      var last := errors[|errors| - 1];
      SummaryGroupOrder(init);
      var ks := SummaryKeys(errors);
      assert ks[..|ks| - 1] == SummaryKeys(init);
      assert ks[|ks| - 1] == SummaryKey(last);
      var g := SummaryGroups(init);
      var k := SummaryKey(last);
      var current := match Get(g, k) case None => [] case Some(items) => items;
      assert SummaryGroups(errors) == Put(g, k, current + [SummaryItem(last)]);
    }
  }

  /** One block: `${row}:\n  - ${items.join('\n  - ')}` */
  function SummaryBlock(key: string, items: seq<string>): string
  {
    key + ":\n  - " + Join(items, "\n  - ")
  }

  function SummaryBlocks(groups: Record<seq<string>>): (blocks: seq<string>)
    ensures |blocks| == |groups|
    ensures forall k :: 0 <= k < |groups| ==> blocks[k] == SummaryBlock(groups[k].0, groups[k].1)
  {
    seq(|groups|, k requires 0 <= k < |groups| => SummaryBlock(groups[k].0, groups[k].1))
  }

  const NoErrorsText: string := "No validation errors found."

  /** The text `formatErrorSummary` returns. */
  function ErrorSummaryText(errors: seq<ValidationError>): string
  {
    if errors == [] then NoErrorsText
    else Join(SummaryBlocks(SummaryGroups(errors)), "\n\n")
  }

  /**
   * `formatErrorSummary`: a `reduce` that pushes each record's item onto its
   * row's list, then one block per row separated by a blank line.
   */
  method FormatErrorSummary(errors: seq<ValidationError>) returns (text: string)
    ensures text == ErrorSummaryText(errors)
    ensures errors == [] <==> text == NoErrorsText
  {
    if |errors| == 0 {
      return NoErrorsText;
    }
    var summary := GroupSummary(errors);
    var blocks := SummaryBlocks(summary);
    text := Join(blocks, "\n\n");
    SummaryNotPlaceholder(errors);
  }

  /** The `reduce` of `formatErrorSummary`: each record's item pushed onto its row's list. */
  method GroupSummary(errors: seq<ValidationError>) returns (acc: Record<seq<string>>)
    ensures acc == SummaryGroups(errors)
  {
    acc := [];
    var i := 0;
    while i < |errors|
      invariant 0 <= i <= |errors|
      invariant acc == SummaryGroups(errors[..i])
    {
      SummaryGroupsStep(errors, i);
      var error := errors[i];
      acc := AddItem(acc, SummaryKey(error), SummaryItem(error));
      i := i + 1;
    }
    assert errors[..i] == errors;
  }

  /** One more record in the prefix adds its item to the accumulator. */
  lemma SummaryGroupsStep(errors: seq<ValidationError>, i: nat)
    requires i < |errors|
    ensures SummaryGroups(errors[..i + 1]) ==
            AddItem(SummaryGroups(errors[..i]), SummaryKey(errors[i]), SummaryItem(errors[i]))
  {
    assert errors[..i + 1][..i] == errors[..i];
  }

  /** A non-empty summary starts with "Row ", so it is never the no-errors text. */
  lemma SummaryNotPlaceholder(errors: seq<ValidationError>)
    requires errors != []
    ensures Join(SummaryBlocks(SummaryGroups(errors)), "\n\n") != NoErrorsText
  {
    var g := SummaryGroups(errors);
    var ks := SummaryKeys(errors);
    SummaryGroupOrder(errors);
    assert ks[0] in FirstAppearances(ks);
    assert |g| >= 1 && g[0].0 == Keys(g)[0];
    assert g[0].0 in ks;
    var j :| 0 <= j < |ks| && ks[j] == g[0].0;
    assert g[0].0[0] == 'R';
    var blocks := SummaryBlocks(g);
    JoinFirstChar(blocks, "\n\n");
  }

  /** A join starts with the first character of its first part. */
  lemma JoinFirstChar(parts: seq<string>, sep: string)
    requires |parts| >= 1 && |parts[0]| >= 1
    ensures |Join(parts, sep)| >= 1 && Join(parts, sep)[0] == parts[0][0]
  {
    if |parts| > 1 {
      assert Join(parts, sep) == parts[0] + (sep + Join(parts[1..], sep));
    }
  }

  // =====================================================================
  // Properties of the formatters and rules
  // =====================================================================

  /** Digits kept from `a-b`, where `a` and `b` hold only digits. */
  lemma HyphenatedDigits(a: string, b: string)
    requires AllDigits(a) && AllDigits(b)
    ensures Digits(a + "-" + b) == a + b
  {
    assert "-" == ['-'];
    DropSeparator(a, '-', b, IsDigit);
    KeepAll(a, IsDigit);
    KeepAll(b, IsDigit);
  }

  /** The digits of a formatted phone number are the first ten digits of the input. */
  lemma PhoneLayoutDigits(d: string)
    requires AllDigits(d)
    ensures Digits(PhoneLayout(d)) == d[..Min(10, |d|)]
  {
    if |d| <= 3 {
      KeepAll(d, IsDigit);
      assert d[..Min(10, |d|)] == d;
    } else if |d| <= 6 {
      HyphenatedDigits(d[..3], d[3..]);
      assert d[..3] + d[3..] == d;
    } else {
      LongPhoneDigits(d);
    }
  }

  /** The case of seven digits or more: `ddd-ddd-d…`, at most ten digits kept. */
  lemma LongPhoneDigits(d: string)
    requires AllDigits(d) && |d| > 6
    ensures Digits(PhoneLayout(d)) == d[..Min(10, |d|)]
  {
    var m := Min(10, |d|);
    var a, b, c := d[..3], d[3..6], d[6..m];
    assert AllDigits(c) by {
      forall i | 0 <= i < |c| ensures IsDigit(c[i]) {
        assert c[i] == d[6 + i];
      }
    }
    var ab := a + "-" + b;
    assert PhoneLayout(d) == ab + ['-'] + c;
    assert Digits(ab) == a + b by {
      HyphenatedDigits(a, b);
    }
    assert Digits(ab + ['-'] + c) == Digits(ab) + c by {
      DropSeparator(ab, '-', c, IsDigit);
      KeepAll(c, IsDigit);
    }
    assert d[..m] == a + b + c;
  }

  /**
   * `formatters.phone` keeps only digits and hyphens, at most ten digits,
   * with a hyphen after the third digit once there are four, and after the
   * sixth once there are seven.
   */
  lemma FormatPhoneShape(value: string)
    ensures var r := FormatPhone(value);
            var n := |Digits(value)|;
            && (forall i :: 0 <= i < |r| ==> IsDigit(r[i]) || r[i] == '-')
            && |Digits(r)| == Min(10, n)
            && (n <= 3 ==> r == Digits(value))
            && (4 <= n <= 6 ==> |r| == n + 1 && r[3] == '-' && AllDigits(r[..3]) && AllDigits(r[4..]))
            && (n > 6 ==> |r| == Min(10, n) + 2 && r[3] == '-' && r[7] == '-' &&
                          AllDigits(r[..3]) && AllDigits(r[4..7]) && AllDigits(r[8..]))
  {
    var d := Digits(value);
    PhoneLayoutDigits(d);
    if |d| <= 3 {
    } else if |d| <= 6 {
      PhoneLayoutMid(d);
    } else {
      PhoneLayoutLong(d);
    }
  }

  /** Four to six digits: `ddd-d…`. */
  lemma PhoneLayoutMid(d: string)
    requires AllDigits(d) && 4 <= |d| <= 6
    ensures var r := PhoneLayout(d);
            && (forall i :: 0 <= i < |r| ==> IsDigit(r[i]) || r[i] == '-')
            && |r| == |d| + 1 && r[3] == '-' && AllDigits(r[..3]) && AllDigits(r[4..])
  {
    var r := PhoneLayout(d);
    assert r == d[..3] + ['-'] + d[3..];
    assert r[..3] == d[..3] && r[4..] == d[3..];
  }

  /** Seven digits or more: `ddd-ddd-d{1,4}`. */
  lemma PhoneLayoutLong(d: string)
    requires AllDigits(d) && |d| > 6
    ensures var r := PhoneLayout(d);
            && (forall i :: 0 <= i < |r| ==> IsDigit(r[i]) || r[i] == '-')
            && |r| == Min(10, |d|) + 2 && r[3] == '-' && r[7] == '-'
            && AllDigits(r[..3]) && AllDigits(r[4..7]) && AllDigits(r[8..])
  {
    var r := PhoneLayout(d);
    var m := Min(10, |d|);
    assert r == d[..3] + ['-'] + d[3..6] + ['-'] + d[6..m];
    assert r[..3] == d[..3] && r[4..7] == d[3..6] && r[8..] == d[6..m];
  }

  /** Formatting an already formatted phone number changes nothing. */
  lemma FormatPhoneIdempotent(value: string)
    ensures FormatPhone(FormatPhone(value)) == FormatPhone(value)
  {
    var d := Digits(value);
    PhoneLayoutDigits(d);
    var d' := d[..Min(10, |d|)];
    assert Digits(FormatPhone(value)) == d';
    if |d| > 6 {
      assert d'[..3] == d[..3] && d'[3..6] == d[3..6] && d'[6..Min(10, |d'|)] == d[6..Min(10, |d|)];
    }
  }

  /** `phoneSchema` accepts an optional `+` followed by ten or more digits, and nothing else. */
  lemma PhonePatternMeaning(s: string)
    ensures PhonePattern(s) <==>
            (|s| >= 10 && AllDigits(s)) || (|s| >= 11 && s[0] == '+' && AllDigits(s[1..]))
  {
    if |s| >= 11 && s[0] == '1' && AllDigits(s[1..]) {
      assert AllDigits(s);
    }
    if |s| >= 12 && s[0] == '+' && s[1] == '1' && AllDigits(s[2..]) {
      assert AllDigits(s[1..]);
    }
  }

  /** No output of `formatters.phone` passes `phoneSchema`. */
  lemma FormattedPhoneRejected(value: string)
    ensures !PhonePattern(FormatPhone(value))
  {
    var r := FormatPhone(value);
    FormatPhoneShape(value);
    PhonePatternMeaning(r);
    if |Digits(value)| >= 4 {
      assert !AllDigits(r) by { assert !IsDigit(r[3]); }
      assert r[0] != '+';
    } else {
      assert |r| <= 3;
    }
  }

  lemma {:induction false} UpperKeepsClass(s: string)
    ensures |Upper(s)| == |s|
    ensures forall i :: 0 <= i < |s| ==> (IsAlnum(Upper(s)[i]) <==> IsAlnum(s[i]))
    ensures forall i :: 0 <= i < |s| ==> (IsDigit(Upper(s)[i]) <==> IsDigit(s[i]))
    ensures forall i :: 0 <= i < |s| ==> (IsLetter(Upper(s)[i]) <==> IsLetter(s[i]))
    ensures forall i :: 0 <= i < |s| ==> !IsLower(Upper(s)[i])
  {
  }

  /** Cleaning a cleaned postal code gives it back. */
  lemma CleanPostalStable(c: string)
    requires forall i :: 0 <= i < |c| ==> IsAlnum(c[i]) && !IsLower(c[i])
    ensures CleanPostal(c) == c
  {
    KeepAll(c, IsAlnum);
    assert Upper(c) == c;
  }

  /** The cleaned text of a formatted postal code is the first six cleaned characters. */
  lemma PostalLayoutClean(c: string)
    requires forall i :: 0 <= i < |c| ==> IsAlnum(c[i]) && !IsLower(c[i])
    ensures CleanPostal(PostalLayout(c)) == c[..Min(6, |c|)]
  {
    var p := c[..Min(6, |c|)];
    if |c| <= 3 {
      assert p == c;
      CleanPostalStable(c);
    } else {
      SpacedAlnum(c[..3], c[3..Min(6, |c|)]);
      assert c[..3] + c[3..Min(6, |c|)] == p;
      CleanPostalStable(p);
    }
  }

  /** Alphanumerics kept from `a b`, where `a` and `b` hold only alphanumerics. */
  lemma SpacedAlnum(a: string, b: string)
    requires forall i :: 0 <= i < |a| ==> IsAlnum(a[i])
    requires forall i :: 0 <= i < |b| ==> IsAlnum(b[i])
    ensures KeepChars(a + " " + b, IsAlnum) == a + b
  {
    assert " " == [' '];
    DropSeparator(a, ' ', b, IsAlnum);
    KeepAll(a, IsAlnum);
    KeepAll(b, IsAlnum);
  }

  /**
   * `formatters.postalCode` gives at most seven characters: at most three
   * cleaned characters unchanged, otherwise three, a space and up to three more.
   */
  lemma FormatPostalCodeShape(value: string)
    ensures var c := CleanPostal(value);
            var r := FormatPostalCode(value);
            && (forall i :: 0 <= i < |c| ==> IsAlnum(c[i]) && !IsLower(c[i]))
            && |r| <= 7
            && (|c| <= 3 ==> r == c)
            && (|c| > 3 ==> r[..3] == c[..3] && r[3] == ' ' && r[4..] == c[3..Min(6, |c|)])
  {
    UpperKeepsClass(KeepChars(value, IsAlnum));
  }

  /** Formatting an already formatted postal code changes nothing. */
  lemma FormatPostalCodeIdempotent(value: string)
    ensures FormatPostalCode(FormatPostalCode(value)) == FormatPostalCode(value)
  {
    var c := CleanPostal(value);
    FormatPostalCodeShape(value);
    PostalLayoutClean(c);
    var c' := c[..Min(6, |c|)];
    if |c| > 3 {
      assert c'[..3] == c[..3] && c'[3..Min(6, |c'|)] == c[3..Min(6, |c|)];
    }
  }

  /** A formatted postal code passes the address schema iff the cleaned input starts A1A1A1. */
  lemma FormattedPostalAccepted(value: string)
    ensures var c := CleanPostal(value);
            PostalPattern(FormatPostalCode(value)) <==>
            (|c| >= 6 && IsLetter(c[0]) && IsDigit(c[1]) && IsLetter(c[2]) &&
             IsDigit(c[3]) && IsLetter(c[4]) && IsDigit(c[5]))
  {
    FormatPostalCodeShape(value);
  }

  /** A formatted business number passes its schema iff the input holds exactly nine digits. */
  lemma FormattedBusinessNumberAccepted(value: string)
    ensures BusinessNumberPattern(Digits(value)) <==> |Digits(value)| == 9
  {
  }
}
