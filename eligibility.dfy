/**
 * The eligibility criteria panel (`src/components/validation/EligibilityCriteria.tsx`):
 * each criterion's status from its value against its requirement (met at
 * or above it, partial from 90 % of it, not met below that), and the save
 * handler that rewrites the edited criterion with a new value, status and
 * suggestion.
 */
module Eligibility {
  import opened Common

  datatype Status = Met | Partial | NotMet

  /** `parseFloat`, `Number.prototype.toString` and `toLocaleString`, which belong to the JavaScript runtime. */
  datatype Numbers = Numbers(parse: string -> Option<real>, plain: real -> string, locale: real -> string)

  datatype Criterion = Criterion(
    id: string,
    name: string,
    status: Status,
    value: string,
    numericValue: real,
    requirement: string,
    requirementValue: real,
    unit: string,
    editable: bool,
    suggestion: Option<Suggestion>)

  /** `updateCriterionStatus` */
  function StatusOf(value: real, requirement: real): (st: Status)
    ensures st == Met <==> value >= requirement
    ensures st == Partial <==> requirement * 0.9 <= value < requirement
    ensures st == NotMet <==> value < requirement && value < requirement * 0.9
  {
    if value >= requirement then Met
    else if value >= requirement * 0.9 then Partial
    else NotMet
  }

  /** Met ranks above partial, partial above not met. */
  function Rank(st: Status): nat
  {
    match st
    case NotMet => 0
    case Partial => 1
    case Met => 2
  }

  /** Raising the value never lowers the status. */
  lemma StatusMonotone(v1: real, v2: real, requirement: real)
    requires v1 <= v2
    ensures Rank(StatusOf(v1, requirement)) <= Rank(StatusOf(v2, requirement))
  {
  }

  /** `$<locale>M` for the dollar unit, otherwise the plain number. */
  function Amount(numbers: Numbers, unit: string, v: real): string
  {
    if unit == "$" then "$" + numbers.locale(v) + "M" else numbers.plain(v)
  }

  /** The value text shown after a save. */
  function FormattedValue(numbers: Numbers, unit: string, v: real): string
  {
    if unit == "$" then Amount(numbers, unit, v)
    else numbers.plain(v) + (if unit != "" then " " + unit else "")
  }

  /**
   * A suggestion: free text, as loaded with the criteria, or one of the
   * two a save can set, the fixed "close" text or an increase of the
   * lower-cased criterion name by the shortfall.
   */
  datatype Suggestion = Text(text: string) | CloseToMeeting | Increase(subject: string, shortfall: real, unit: string)

  /** The text shown under the criterion. */
  function SuggestionText(numbers: Numbers, sg: Suggestion): string
  {
    match sg
    case Text(text) => text
    case CloseToMeeting => "Close to meeting requirement, small improvement needed"
    case Increase(subject, shortfall, unit) =>
      "Increase " + subject + " by " + Amount(numbers, unit, shortfall) + " to meet requirement"
  }

  /** The suggestion that goes with a status after a save. */
  function SuggestionFor(st: Status, name: string, unit: string, requirement: real, v: real): (s: Option<Suggestion>)
    ensures s == None <==> st == Met
    ensures s == Some(CloseToMeeting) <==> st == Partial
    ensures s.Some? && s.value.Increase? <==> st == NotMet
    ensures st == NotMet ==> s.value.subject == Lower(name) && s.value.shortfall == requirement - v && s.value.unit == unit
  {
    match st
    case Met => None
    case Partial => Some(CloseToMeeting)
    case NotMet => Some(Increase(Lower(name), requirement - v, unit))
  }

  /**
   * The rewritten entry `c` for the saved `criterion`: the status uses the
   * entry's own requirement, while the unit and the shortfall in the
   * suggestion come from the criterion passed to the handler.
   */
  function Updated(numbers: Numbers, c: Criterion, criterion: Criterion, v: real): (u: Criterion)
    ensures u.id == c.id && u.name == c.name && u.requirement == c.requirement
    ensures u.requirementValue == c.requirementValue && u.unit == c.unit && u.editable == c.editable
    ensures u.value == FormattedValue(numbers, criterion.unit, v) && u.numericValue == v
    ensures u.status == StatusOf(v, c.requirementValue)
    ensures u.suggestion == None <==> v >= c.requirementValue
    ensures u.suggestion == Some(CloseToMeeting) <==> c.requirementValue * 0.9 <= v < c.requirementValue
    ensures u.status == NotMet <==>
            u.suggestion == Some(Increase(Lower(c.name), criterion.requirementValue - v, criterion.unit))
  {
    var st := StatusOf(v, c.requirementValue);
    c.(value := FormattedValue(numbers, criterion.unit, v),
       numericValue := v,
       status := st,
       suggestion := SuggestionFor(st, c.name, criterion.unit, criterion.requirementValue, v))
  }

  /** `criteria.map(...)`: entries with the saved id rewritten, the rest kept. */
  function SaveAll(numbers: Numbers, cs: seq<Criterion>, criterion: Criterion, v: real): (r: seq<Criterion>)
    ensures |r| == |cs|
    ensures forall k :: 0 <= k < |cs| && cs[k].id != criterion.id ==> r[k] == cs[k]
    ensures forall k :: 0 <= k < |cs| && cs[k].id == criterion.id ==> r[k] == Updated(numbers, cs[k], criterion, v)
  {
    seq(|cs|, k requires 0 <= k < |cs| =>
      if cs[k].id == criterion.id then Updated(numbers, cs[k], criterion, v) else cs[k])
  }

  /** Saving twice with the same value is the same as saving once. */
  lemma SaveIdempotent(numbers: Numbers, cs: seq<Criterion>, criterion: Criterion, v: real)
    ensures SaveAll(numbers, SaveAll(numbers, cs, criterion, v), criterion, v) == SaveAll(numbers, cs, criterion, v)
  {
  }

  /** The panel's state. */
  class EligibilityPanel {
    const numbers: Numbers
    var criteria: seq<Criterion>
    var editingId: Option<string>
    var editValue: string
    var hasChanges: bool

    constructor(numbers: Numbers, criteria: seq<Criterion>)
      ensures this.numbers == numbers && this.criteria == criteria
      ensures editingId == None && editValue == "" && !hasChanges
    {
      this.numbers := numbers;
      this.criteria := criteria;
      editingId := None;
      editValue := "";
      hasChanges := false;
    }

    /** `handleEdit` */
    method HandleEdit(criterion: Criterion)
      modifies this`editingId, this`editValue
      ensures editingId == Some(criterion.id)
      ensures editValue == numbers.plain(criterion.numericValue)
    {
      editingId := Some(criterion.id);
      editValue := numbers.plain(criterion.numericValue);
    }

    /** The number input's `onChange`: the edit text follows what is typed. */
    method SetEditValue(s: string)
      modifies this`editValue
      ensures editValue == s
    {
      editValue := s;
    }

    /**
     * `handleSave`: when the edit text does not parse, nothing changes;
     * otherwise the matching entries are rewritten, editing stops, the
     * panel records a change, and the new list goes to the callback.
     */
    method HandleSave(criterion: Criterion) returns (emitted: Option<seq<Criterion>>)
      modifies this`criteria, this`editingId, this`hasChanges
      ensures numbers.parse(editValue).None? ==>
        emitted.None? && criteria == old(criteria) && editingId == old(editingId) && hasChanges == old(hasChanges)
      ensures numbers.parse(editValue).Some? ==>
        var v := numbers.parse(editValue).value;
        && criteria == SaveAll(numbers, old(criteria), criterion, v)
        && editingId == None && hasChanges
        && emitted == Some(criteria)
    {
      var parsed := numbers.parse(editValue);
      if parsed.None? {
        return None;
      }
      var updated := SaveAll(numbers, criteria, criterion, parsed.value);
      criteria := updated;
      editingId := None;
      hasChanges := true;
      emitted := Some(updated);
    }
  }
}
