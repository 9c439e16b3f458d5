/**
 * The client-form sections (`src/components/forms/sections/CompanySection.tsx`,
 * `WorkforceSection.tsx`, `ContactSection.tsx`): each section's status from
 * its required values (complete when all are filled in, in progress when
 * some are, incomplete when none are), the handlers that rebuild a nested
 * record with one field changed, the workforce totals, and the contact
 * phone field, whose formatter runs before its validator.
 */
module FormSections {
  import opened Common
  import opened Validation

  datatype SectionStatus = Complete | InProgress | Incomplete

  /** `field && field.trim() !== ''` */
  predicate Filled(s: string)
  {
    !IsBlank(s)
  }

  /** The shared `getSectionStatus` rule over a section's required values, via `every` and `some`. */
  function StatusOf(values: seq<string>): (st: SectionStatus)
    ensures st == Complete <==> forall i :: 0 <= i < |values| ==> Filled(values[i])
    ensures st == InProgress <==>
      (exists i :: 0 <= i < |values| && Filled(values[i])) && !(forall i :: 0 <= i < |values| ==> Filled(values[i]))
    ensures st == Incomplete <==> |values| > 0 && forall i :: 0 <= i < |values| ==> !Filled(values[i])
  {
    if forall i :: 0 <= i < |values| ==> Filled(values[i]) then
      assert |values| > 0 ==> Filled(values[0]);
      Complete
    else if exists i :: 0 <= i < |values| && Filled(values[i]) then InProgress
    else Incomplete
  }

  /** Filling in one more value never moves a status back. */
  lemma StatusMonotone(values: seq<string>, k: nat, v: string)
    requires k < |values| && Filled(v)
    ensures StatusOf(values) != Incomplete ==> StatusOf(values[k := v]) != Incomplete
    ensures StatusOf(values) == Complete ==> StatusOf(values[k := v]) == Complete
  {
    var w := values[k := v];
    assert Filled(w[k]);
    if StatusOf(values) == Complete {
      forall i | 0 <= i < |w| ensures Filled(w[i]) {
        if i != k {
          assert w[i] == values[i];
        }
      }
    }
  }

  // ---------------------------------------------------------------------
  // Company
  // ---------------------------------------------------------------------

  datatype Address = Address(street: string, province: string, postalCode: string)

  datatype CompanyData = CompanyData(
    companyName: string,
    legalName: string,
    incorporationDate: string,
    corporationNumber: string,
    businessNumber: string,
    legalAddress: Address,
    businessAddress: Address)

  /** The eight required values: five company fields and three of the legal address. */
  function CompanyRequired(d: CompanyData): (vs: seq<string>)
    ensures |vs| == 8
  {
    [d.companyName, d.legalName, d.incorporationDate, d.corporationNumber, d.businessNumber,
     d.legalAddress.street, d.legalAddress.province, d.legalAddress.postalCode]
  }

  function CompanyStatus(d: CompanyData): SectionStatus
  {
    StatusOf(CompanyRequired(d))
  }

  /** The business address never affects the company status. */
  lemma BusinessAddressIgnored(d: CompanyData, a: Address)
    ensures CompanyStatus(d.(businessAddress := a)) == CompanyStatus(d)
  {
    assert CompanyRequired(d.(businessAddress := a)) == CompanyRequired(d);
  }

  /** The company section is complete iff all eight required values are filled in. */
  lemma CompanyCompleteIff(d: CompanyData)
    ensures CompanyStatus(d) == Complete <==>
      Filled(d.companyName) && Filled(d.legalName) && Filled(d.incorporationDate) &&
      Filled(d.corporationNumber) && Filled(d.businessNumber) &&
      Filled(d.legalAddress.street) && Filled(d.legalAddress.province) && Filled(d.legalAddress.postalCode)
  {
    var vs := CompanyRequired(d);
    assert vs[0] == d.companyName && vs[1] == d.legalName && vs[2] == d.incorporationDate;
    assert vs[3] == d.corporationNumber && vs[4] == d.businessNumber && vs[5] == d.legalAddress.street;
    assert vs[6] == d.legalAddress.province && vs[7] == d.legalAddress.postalCode;
    if CompanyStatus(d) != Complete {
      var i :| 0 <= i < |vs| && !Filled(vs[i]);
      assert i in {0, 1, 2, 3, 4, 5, 6, 7};
    }
  }

  datatype AddressKind = Legal | Business

  datatype AddressField = Street | Province | PostalCode

  /** The address with `field` set to `value`; the other two fields are kept. */
  function WithField(a: Address, field: AddressField, value: string): (r: Address)
    ensures r.street == (if field == Street then value else a.street)
    ensures r.province == (if field == Province then value else a.province)
    ensures r.postalCode == (if field == PostalCode then value else a.postalCode)
  {
    match field
    case Street => a.(street := value)
    case Province => a.(province := value)
    case PostalCode => a.(postalCode := value)
  }

  /**
   * `handleAddressChange`: the chosen address with one field replaced;
   * the data as it is after the parent stores it. Only that field of that
   * address changes.
   */
  function AddressChange(d: CompanyData, kind: AddressKind, field: AddressField, value: string): (r: CompanyData)
    ensures var a := if kind == Legal then r.legalAddress else r.businessAddress;
            var old_a := if kind == Legal then d.legalAddress else d.businessAddress;
            && a.street == (if field == Street then value else old_a.street)
            && a.province == (if field == Province then value else old_a.province)
            && a.postalCode == (if field == PostalCode then value else old_a.postalCode)
    ensures kind == Legal ==> r.businessAddress == d.businessAddress
    ensures kind == Business ==> r.legalAddress == d.legalAddress
    ensures r.companyName == d.companyName && r.legalName == d.legalName
    ensures r.incorporationDate == d.incorporationDate && r.corporationNumber == d.corporationNumber
    ensures r.businessNumber == d.businessNumber
  {
    match kind
    case Legal => d.(legalAddress := WithField(d.legalAddress, field, value))
    case Business => d.(businessAddress := WithField(d.businessAddress, field, value))
  }

  // ---------------------------------------------------------------------
  // Workforce
  // ---------------------------------------------------------------------

  datatype Revenue = Revenue(year2022: string, year2023: string, year2024: string)

  datatype Employees = Employees(fullTime: string, partTime: string, contractors: string)

  datatype WorkforceData = WorkforceData(revenue: Revenue, employees: Employees)

  /** The four required values: the 2022 and 2023 revenue, full-time and part-time staff. */
  function WorkforceRequired(d: WorkforceData): (vs: seq<string>)
    ensures |vs| == 4
  {
    [d.revenue.year2022, d.revenue.year2023, d.employees.fullTime, d.employees.partTime]
  }

  function WorkforceStatus(d: WorkforceData): SectionStatus
  {
    StatusOf(WorkforceRequired(d))
  }

  /** The 2024 revenue and the contractor count never affect the status. */
  lemma WorkforceIgnoresOptional(d: WorkforceData, y2024: string, contractors: string)
    ensures WorkforceStatus(WorkforceData(d.revenue.(year2024 := y2024), d.employees.(contractors := contractors)))
         == WorkforceStatus(d)
  {
    assert WorkforceRequired(WorkforceData(d.revenue.(year2024 := y2024), d.employees.(contractors := contractors)))
        == WorkforceRequired(d);
  }

  /** `getTotalEmployees`: `parseInt(count) || 0` summed over the three counts. */
  function TotalEmployees(e: Employees): (total: int)
    ensures (ParseInt(e.fullTime).None? && ParseInt(e.partTime).None? && ParseInt(e.contractors).None?) ==> total == 0
  {
    ParseIntOrZero(e.fullTime) + ParseIntOrZero(e.partTime) + ParseIntOrZero(e.contractors)
  }

  /** Counts written as plain decimals add up to their sum. */
  lemma TotalOfDecimals(a: nat, b: nat, c: nat)
    ensures TotalEmployees(Employees(DecimalString(a), DecimalString(b), DecimalString(c))) == a + b + c
  {
    ParseIntDecimalString(a);
    ParseIntDecimalString(b);
    ParseIntDecimalString(c);
  }

  /**
   * `getRevenueGrowth`: the growth from 2022 to 2023 in per cent, or null
   * when either year parses to 0 or does not parse.
   */
  function RevenueGrowth(r: Revenue): (g: Option<real>)
    ensures g.None? <==> ParseIntOrZero(r.year2022) == 0 || ParseIntOrZero(r.year2023) == 0
  {
    var r22 := ParseIntOrZero(r.year2022);
    var r23 := ParseIntOrZero(r.year2023);
    if r22 != 0 && r23 != 0 then Some((r23 - r22) as real / r22 as real * 100.0) else None
  }

  datatype Year = Y2022 | Y2023 | Y2024

  datatype StaffKind = FullTime | PartTime | Contractors

  /** `handleRevenueChange`: one year replaced, the employees untouched. */
  function RevenueChange(d: WorkforceData, year: Year, value: string): (r: WorkforceData)
    ensures r.employees == d.employees
    ensures r.revenue.year2022 == (if year == Y2022 then value else d.revenue.year2022)
    ensures r.revenue.year2023 == (if year == Y2023 then value else d.revenue.year2023)
    ensures r.revenue.year2024 == (if year == Y2024 then value else d.revenue.year2024)
  {
    match year
    case Y2022 => d.(revenue := d.revenue.(year2022 := value))
    case Y2023 => d.(revenue := d.revenue.(year2023 := value))
    case Y2024 => d.(revenue := d.revenue.(year2024 := value))
  }

  /** `handleEmployeeChange`: one count replaced, the revenue untouched. */
  function EmployeeChange(d: WorkforceData, kind: StaffKind, value: string): (r: WorkforceData)
    ensures r.revenue == d.revenue
    ensures r.employees.fullTime == (if kind == FullTime then value else d.employees.fullTime)
    ensures r.employees.partTime == (if kind == PartTime then value else d.employees.partTime)
    ensures r.employees.contractors == (if kind == Contractors then value else d.employees.contractors)
  {
    match kind
    case FullTime => d.(employees := d.employees.(fullTime := value))
    case PartTime => d.(employees := d.employees.(partTime := value))
    case Contractors => d.(employees := d.employees.(contractors := value))
  }

  /** Changing the contractor count moves the total by the difference of the parsed counts. */
  lemma ContractorChangeMovesTotal(d: WorkforceData, value: string)
    ensures TotalEmployees(EmployeeChange(d, Contractors, value).employees)
         == TotalEmployees(d.employees) - ParseIntOrZero(d.employees.contractors) + ParseIntOrZero(value)
    ensures WorkforceStatus(EmployeeChange(d, Contractors, value)) == WorkforceStatus(d)
  {
    WorkforceIgnoresOptional(d, d.revenue.year2024, value);
    assert EmployeeChange(d, Contractors, value)
        == WorkforceData(d.revenue.(year2024 := d.revenue.year2024), d.employees.(contractors := value));
  }

  // ---------------------------------------------------------------------
  // Contact
  // ---------------------------------------------------------------------

  datatype ContactData = ContactData(
    contactName: string,
    contactPosition: string,
    contactEmail: string,
    contactPhone: string,
    contactLinkedin: string)

  function ContactRequired(d: ContactData): (vs: seq<string>)
    ensures |vs| == 4
  {
    [d.contactName, d.contactPosition, d.contactEmail, d.contactPhone]
  }

  function ContactStatus(d: ContactData): SectionStatus
  {
    StatusOf(ContactRequired(d))
  }

  /** The LinkedIn profile never affects the contact status. */
  lemma LinkedinIgnored(d: ContactData, linkedin: string)
    ensures ContactStatus(d.(contactLinkedin := linkedin)) == ContactStatus(d)
  {
    assert ContactRequired(d.(contactLinkedin := linkedin)) == ContactRequired(d);
  }

  /**
   * The phone field as written: the typed text goes through
   * `formatters.phone`, and the formatted text is what is stored and what
   * `phoneSchema` checks.
   */
  function ContactPhoneEntry(typed: string, lib: LibraryChecks): (r: (string, FieldResult))
    ensures r.0 == FormatPhone(typed)
  {
    var stored := FormatPhone(typed);
    (stored, ValidateField(PhoneRule, Text(stored), lib))
  }

  /** As written, every phone entry is reported invalid. */
  lemma ContactPhoneAlwaysInvalid(typed: string, lib: LibraryChecks)
    ensures ContactPhoneEntry(typed, lib).1 == Invalid("Invalid phone number")
  {
    FormattedPhoneRejected(typed);
  }

  /** A concrete entry: a full ten-digit number is rejected. */
  lemma TenDigitPhoneRejected(lib: LibraryChecks)
    ensures ContactPhoneEntry("6135550123", lib).1.Invalid?
  {
    ContactPhoneAlwaysInvalid("6135550123", lib);
  }

  /**
   * The phone field as evidently intended: the formatted text is stored,
   * and its digits are what `phoneSchema` checks.
   */
  function ContactPhoneEntryCorrected(typed: string, lib: LibraryChecks): (r: (string, FieldResult))
    ensures r.0 == FormatPhone(typed)
  {
    var stored := FormatPhone(typed);
    (stored, ValidateField(PhoneRule, Text(Digits(stored)), lib))
  }

  /** With the correction, an entry is accepted iff it holds at least ten digits. */
  lemma ContactPhoneCorrectedAccepts(typed: string, lib: LibraryChecks)
    ensures ContactPhoneEntryCorrected(typed, lib).1.Valid? <==> |Digits(typed)| >= 10
  {
    var d := Digits(typed);
    PhoneLayoutDigits(d);
    var checked := Digits(FormatPhone(typed));
    assert checked == d[..Min(10, |d|)];
    PhonePatternMeaning(checked);
    if |d| >= 10 {
      assert |checked| == 10 && AllDigits(checked);
    } else {
      assert |checked| < 10;
      assert |checked| == 0 || checked[0] != '+';
    }
  }
}
