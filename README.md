# Client data validation and import, modelled in Dafny

This project models the logic core of a browser dashboard for grant
applications: its client-side data-validation library, its two
spreadsheet import flows, and the small rule engines inside its
components. It then proves properties of that model.

- **Validation library** (`src/lib/validation.ts`), module `Validation`:
  - the phone, postal-code, corporation-number and business-number formatters;
  - the regular-expression rules;
  - the field-to-rule dispatcher;
  - the row and dataset validators that yield `{row, column, value, error}` records;
  - the CSV error report and the grouped text summary.
- **Column-mapping form** (`src/components/forms/DataMapping.tsx`), module `ImportMapping`:
  - auto-matching of headers onto system fields by normalised spelling;
  - the mapping checks (missing required fields first, then duplicate targets);
  - the projection of every row onto the mapped fields.
- **Map-and-validate grid flow** (`src/components/data-mapping/DataMapping.tsx`), module `GridImport`:
  - the cell errors are recomputed after every change;
  - completion is gated only on there being no cell errors.
- **Error list** (`ValidationSummary.tsx`), module `ValidationSummary`: errors grouped by row in ascending row order, and the expand toggle.
- **Proposal linting** (`ProposalValidation.tsx`), module `ProposalValidation`: empty required sections, word limits, capitalisation, ending punctuation, completion.
- **Eligibility thresholds** (`EligibilityCriteria.tsx`), module `Eligibility`: met / partial from 90 % / not met, and the save handler.
- **Funding list** (`FundingOpportunities.tsx`), module `Funding`: search, amount range, sort and sort toggle, score colour.
- **Tag input** (`TagInput.tsx`), module `TagInput`: a key-driven state machine that refuses duplicates.
- **Application questions** (`ApplicationQuestionsPanel.tsx`), module `Questions`: add, update, delete.
- **Client form sections** (`CompanySection.tsx`, `WorkforceSection.tsx`, `ContactSection.tsx`), module `FormSections`:
  - the complete / in-progress / incomplete rule;
  - the record-rebuilding handlers;
  - the workforce totals;
  - the contact phone field.
- **Company files** (`CompanyFilesSection.tsx`), module `CompanyFiles`: the status, upload, toggle, delete and filters.
- **Shared helpers**, module `Common`:
  - the JavaScript string helpers (`trim`, `includes`, `parseInt`, `split`, `join`, `filter`);
  - plain objects as insertion-ordered records.

Operations that update component state are methods of classes whose fields
are that state. Each method's postcondition gives the new state in terms of
a specification function, and the properties are proved about those
functions.

## Model

| member | source | states |
|---|---|---|
| Common.Toggled | src/components/data-mapping/ValidationSummary.tsx:17-27 | the toggled element is in the result iff it was not in the set; every other element keeps its membership |
| Common.ToggleTwice | src/components/data-mapping/ValidationSummary.tsx:17-27 | toggling the same element twice restores the set |
| Common.Filter | src/components/ui/TagInput.tsx:27-29 | `filter` keeps exactly the elements that pass, and is never longer than its input |
| Common.FilterAppend | src/components/grant-writing/ApplicationQuestionsPanel.tsx:81-83 | filtering distributes over concatenation, so the kept elements keep their relative order |
| Common.FilterKeepsAll | src/components/forms/sections/CompanyFilesSection.tsx:179-184 | when every element passes, the filter returns its input unchanged |
| Common.FilterMultiset | src/components/validation/FundingOpportunities.tsx:192-209 | each passing element is kept exactly as often as it occurs, and failing ones are dropped |
| Common.CountWhere | src/components/grant-writing/ProposalValidation.tsx:97 | the count of passing elements is at most the length |
| Common.CountWhereBelow | src/components/grant-writing/ProposalValidation.tsx:97-101 | fewer than all pass iff some element fails |
| Common.FilterCount | src/components/grant-writing/ProposalValidation.tsx:119-120 | the filtered sequence is as long as the number of elements that pass |
| Common.CountWhereSplit | src/components/grant-writing/ProposalValidation.tsx:119-120 | two complementary tests split a sequence: their counts add up to its length |
| Common.RemoveAll | src/components/ui/TagInput.tsx:27-29 | the removed value is gone, every other value keeps its membership, and the multiset loses exactly that value |
| Common.ParseIntDecimalString | src/components/data-mapping/ValidationSummary.tsx:61 | `parseInt` of a row number written in decimal gives that number back |
| Common.BlankIffAllSpace | src/components/forms/sections/CompanySection.tsx:67 | `s.trim() === ''` iff every character of `s` is white space |
| Common.ContainsIffOccurs | src/components/validation/FundingOpportunities.tsx:194-196 | `includes` holds iff the substring occurs at some index |
| Common.Put | src/components/data-mapping/DataMapping.tsx:26-29 | the key maps to the new value, and every other key keeps its value |
| Common.PutKeepsUniqueKeys | src/components/data-mapping/DataMapping.tsx:26-29 | a spread update never duplicates a key |
| Validation.Digits | src/lib/validation.ts:106-107 | the cleaning of the phone, corporation-number and business-number formatters: only digits, never longer than the input |
| Validation.DigitsCounts | src/lib/validation.ts:106-107 | every digit of the input is kept, as often as it occurs, and no other character |
| Validation.DigitsAppend | src/lib/validation.ts:106-107 | the digits keep their order: cleaning a split input cleans each part and joins the results |
| Validation.DigitsOfDigits | src/lib/validation.ts:106-107 | input made only of digits is left unchanged, so formatting twice is formatting once |
| Validation.PhoneLayoutDigits | src/lib/validation.ts:95-100 | the digits of a formatted phone number are the first ten digits of the input |
| Validation.FormatPhoneShape | src/lib/validation.ts:95-100 | up to 3 digits: no hyphen; 4 to 6 digits: `ddd-d…`; more: `ddd-ddd-d{1,4}` |
| Validation.PhoneLayoutMid | src/lib/validation.ts:98 | four to six digits are laid out as three digits, a hyphen and the rest |
| Validation.PhoneLayoutLong | src/lib/validation.ts:99 | seven digits or more are laid out as `ddd-ddd-` and at most four more digits |
| Validation.FormatPhoneIdempotent | src/lib/validation.ts:95-100 | formatting a formatted phone number changes nothing |
| Validation.PhonePatternMeaning | src/lib/validation.ts:5 | the phone rule accepts an optional `+`, an optional `1`, then ten or more digits, and nothing else |
| Validation.FormattedPhoneRejected | src/lib/validation.ts:5 | no output of the phone formatter passes the phone rule |
| Validation.CleanPostalStable | src/lib/validation.ts:102 | cleaning already-clean postal text gives it back |
| Validation.PostalLayoutClean | src/lib/validation.ts:101-105 | the cleaned text of a formatted postal code is the first six cleaned characters |
| Validation.FormatPostalCodeShape | src/lib/validation.ts:101-105 | up to 3 cleaned characters are returned as they are; otherwise three characters, a space, then at most three more |
| Validation.FormatPostalCodeIdempotent | src/lib/validation.ts:101-105 | formatting a formatted postal code changes nothing |
| Validation.FormattedPostalAccepted | src/lib/validation.ts:14 | a formatted postal code passes the address rule iff the cleaned input starts letter-digit-letter-digit-letter-digit |
| Validation.FormattedBusinessNumberAccepted | src/lib/validation.ts:23 | a formatted business number passes its rule iff the input holds exactly nine digits |
| Validation.ValidateField | src/lib/validation.ts:127-137 | for text, valid iff the rule accepts it, and when invalid the error is the rule's message; a non-text value is invalid; a missing value is valid only for an optional rule |
| Validation.NoEmptyMessage | src/lib/validation.ts:178-197 | the rules the dispatcher returns carry non-empty messages |
| Validation.SchemaForField | src/lib/validation.ts:178-197 | never null; each listed name gets its rule, and every other name gets the non-empty rule "Field is required" |
| Validation.EntryErrors | src/lib/validation.ts:143-158 | an entry yields one record iff its target is non-empty and the value fails; the record carries row 0, the column, the raw value and the first message |
| Validation.RowErrorsAppend | src/lib/validation.ts:140-162 | a row's records follow the mapping order: two runs of entries give their records one after the other |
| Validation.UnmappedEntriesIgnored | src/lib/validation.ts:144 | entries with an empty target contribute nothing |
| Validation.MappedOnly | src/lib/validation.ts:144 | keeps exactly the entries with a non-empty target |
| Validation.MappedOnlyAppend | src/lib/validation.ts:144 | keeping mapped entries distributes over concatenation |
| Validation.RowErrorsCarryCell | src/lib/validation.ts:150-157 | every record of a row names a mapped column, with its raw value, row 0 and a non-empty message |
| Validation.ValidateRow | src/lib/validation.ts:140-162 | the loop pushes exactly the row's records in mapping order, at most one per entry |
| Validation.Numbered | src/lib/validation.ts:170-173 | each record keeps its fields, and its row becomes the given number |
| Validation.DatasetErrorsPointIntoData | src/lib/validation.ts:165-175 | every record names a row between 1 and the row count, and is a record of that row |
| Validation.DatasetErrorsComplete | src/lib/validation.ts:165-175 | every record of row i appears with row number i + 1 |
| Validation.DatasetErrorsOrderedByRow | src/lib/validation.ts:165-175 | records come in non-decreasing row order |
| Validation.DatasetRowsAtMost | src/lib/validation.ts:165-175 | no record names a row past the end of the data |
| Validation.ReportLines | src/lib/validation.ts:202-204 | one line per record, in order |
| Validation.GenerateErrorReport | src/lib/validation.ts:200-207 | the report starts with the header `Row,Column,Value,Error` and a newline, and with no records it is exactly that header |
| Validation.SplitJoin | src/lib/validation.ts:204 | splitting newline-joined lines that hold no newline gives them back |
| Validation.ReportHasOneLinePerError | src/lib/validation.ts:200-207 | without newlines in the fields, the report's lines are the header followed by one line per record, with no trailing newline |
| Validation.ReportLineOneLine | src/lib/validation.ts:203 | a record's line holds no newline when its fields hold none |
| Validation.ReportLineNotInjective | src/lib/validation.ts:203 | quotes are not escaped, so two different records can produce the same line |
| Validation.FirstAppearances | src/lib/validation.ts:213-220 | the keys listed are exactly the keys that occur, each listed once |
| Validation.FirstIndex | src/lib/validation.ts:213-220 | the position of a key's first occurrence: it holds the key, and no earlier position does |
| Validation.FirstAppearancesOrder | src/lib/validation.ts:213-220 | the keys are listed in the order of their first occurrences |
| Validation.SummaryGroupItems | src/lib/validation.ts:213-218 | each group holds exactly the items of the records with its key, in input order |
| Validation.SummaryGroupOrder | src/lib/validation.ts:220 | the groups come in the order their keys first appear |
| Validation.SummaryBlocks | src/lib/validation.ts:220-222 | one block per group, in group order |
| Validation.FormatErrorSummary | src/lib/validation.ts:210-223 | the loop builds the grouped summary; the text is `No validation errors found.` iff there are no records |
| Validation.GroupSummary | src/lib/validation.ts:213-218 | the loop's accumulator is the grouping of all records by row key, in first-appearance order |
| Validation.SummaryNotPlaceholder | src/lib/validation.ts:220-222 | a non-empty summary is never the no-errors text |
| ImportMapping.Normalize | src/components/forms/DataMapping.tsx:104 | the normalised header is no longer than the header and holds only lower-case letters and digits |
| ImportMapping.NormalizeCounts | src/components/forms/DataMapping.tsx:104 | every lower-case letter and digit of the lower-cased header is kept, as often as it occurs, and no other character |
| ImportMapping.NormalizeAppend | src/components/forms/DataMapping.tsx:104 | the kept characters keep their order: a split header normalises part by part |
| ImportMapping.FindMatchingSystemField | src/components/forms/DataMapping.tsx:103-109 | null iff no system field's normalised name equals the normalised header; otherwise the name of a matching field before which no field matches |
| ImportMapping.NormalizeLetters | src/components/forms/DataMapping.tsx:104 | a name made of letters normalises to its lower-case form |
| ImportMapping.NormalizeSpacedWords | src/components/forms/DataMapping.tsx:104-106 | capitals and a space between two words do not change the normalised form |
| ImportMapping.InitialMappings | src/components/forms/DataMapping.tsx:66-70 | one entry per header, in header order, each with its header as the source column |
| ImportMapping.Selection | src/components/forms/DataMapping.tsx:114 | the empty selection is stored as null, and any other as itself |
| ImportMapping.Remapped | src/components/forms/DataMapping.tsx:111-117 | only entries of the chosen column change, and only their target |
| ImportMapping.RemappedIdempotent | src/components/forms/DataMapping.tsx:111-117 | choosing the same target twice is choosing it once |
| ImportMapping.RemappedOverrides | src/components/forms/DataMapping.tsx:111-117 | a later choice for a column overrides an earlier one |
| ImportMapping.RequiredNamesMembers | src/components/forms/DataMapping.tsx:120 | the names are exactly those of the required fields |
| ImportMapping.RequiredFieldsValue | src/components/forms/DataMapping.tsx:30-39 | the required fields are clientName, companyName, email and phone |
| ImportMapping.MappedFields | src/components/forms/DataMapping.tsx:121 | exactly the non-empty targets of the entries |
| ImportMapping.MissingFrom | src/components/forms/DataMapping.tsx:123 | exactly the required names that are not mapped |
| ImportMapping.DuplicatesMembers | src/components/forms/DataMapping.tsx:124-126 | a target is reported as a duplicate iff it occurs at least twice |
| ImportMapping.NoDuplicatesIffDistinct | src/components/forms/DataMapping.tsx:124-126 | there are no duplicates iff the targets are pairwise distinct |
| ImportMapping.CheckAgainst | src/components/forms/DataMapping.tsx:119-139 | a missing-required result lists the missing names; a duplicate result comes only when nothing is missing |
| ImportMapping.CheckAgainstOkIff | src/components/forms/DataMapping.tsx:119-139 | the mappings pass iff every required field is mapped and no target is shared |
| ImportMapping.MissingReportedFirst | src/components/forms/DataMapping.tsx:128-131 | an unmapped required field is always reported, whatever the duplicates |
| ImportMapping.DuplicatesReported | src/components/forms/DataMapping.tsx:133-136 | the reported duplicates are the targets mapped from two or more columns |
| ImportMapping.LastTargetIndex | src/components/forms/DataMapping.tsx:146-150 | the position of the last entry with the target, or -1 |
| ImportMapping.ProjectedValue | src/components/forms/DataMapping.tsx:146-150 | each target of the output row holds the value of the last column mapped to it |
| ImportMapping.ProjectedKeys | src/components/forms/DataMapping.tsx:146-150 | the output row's keys are exactly the non-empty targets |
| ImportMapping.ProjectedUniqueKeys | src/components/forms/DataMapping.tsx:146-150 | no key of the output row appears twice |
| ImportMapping.ProjectRow | src/components/forms/DataMapping.tsx:145-151 | the `forEach` that fills `newRow` builds the projected row |
| ImportMapping.ProjectRows | src/components/forms/DataMapping.tsx:144-152 | one output row per input row, each the projection of its input row |
| ImportMapping.Pairs | src/components/forms/DataMapping.tsx:146-149 | each entry as its source column and its non-empty target, or '' |
| ImportMapping.AcceptedProjection | src/components/forms/DataMapping.tsx:141-155 | when the mappings pass, each mapped field of an output row holds its one source column's value |
| ImportMapping.SharedTargetNotDistinct | src/components/forms/DataMapping.tsx:124-126 | two entries with the same target make the mapped fields repeat |
| ImportMapping.MappingSession.constructor | src/components/forms/DataMapping.tsx:42-46 | empty data, columns, mappings and preview, and no error |
| ImportMapping.MappingSession.ParseFile | src/components/forms/DataMapping.tsx:53-80 | rows: columns from the first row and one auto-matched mapping per column; no rows: `No data found in file` and no mappings; read failure: its message |
| ImportMapping.MappingSession.Load | src/components/forms/DataMapping.tsx:59-71 | stores the rows, the first row's keys, the first five rows and the initial mappings |
| ImportMapping.MappingSession.HandleMappingChange | src/components/forms/DataMapping.tsx:111-117 | the mappings are remapped for that column; the error is left as it is |
| ImportMapping.MappingSession.HandleComplete | src/components/forms/DataMapping.tsx:141-155 | nothing is emitted and the error is set iff the check fails; otherwise every row is projected |
| GridImport.NoMappingsNoErrors | src/lib/validation.ts:165-175 | with nothing mapped, the dataset has no errors |
| GridImport.FlowsDifferInStrictness | src/components/data-mapping/DataMapping.tsx:59-72 | with no column mapped, the grid flow can complete while the form flow reports missing required fields |
| GridImport.GridSession.constructor | src/components/data-mapping/DataMapping.tsx:16-20 | no mappings, no errors, no row being edited |
| GridImport.GridSession.ValidateData | src/components/data-mapping/DataMapping.tsx:34-38 | stores the dataset's errors, and reports true iff there are none |
| GridImport.GridSession.HandleMappingChange | src/components/data-mapping/DataMapping.tsx:25-32 | only that column's entry changes ('' when cleared); the shown errors are those of the new mappings |
| GridImport.GridSession.HandleDataChange | src/components/data-mapping/DataMapping.tsx:40-44 | replaces the rows, stops editing, and revalidates |
| GridImport.GridSession.EditRow | src/components/data-mapping/DataMapping.tsx:158 | `editingRow` becomes the number passed |
| GridImport.GridRowAt | src/components/data-mapping/EditableDataGrid.tsx:27-30 | the grid opens `data[editingRow]` when the index is inside the data, and nothing past its end |
| GridImport.EditTargetCorrected | src/components/data-mapping/ValidationSummary.tsx:78 | the intended index is one less than the record's 1-based row |
| GridImport.EditRowOpensNext | src/components/data-mapping/ValidationSummary.tsx:78 | as written, "Edit Row" on a record opens the data row after the record's own, and nothing for a record of the last row |
| GridImport.LastRowEditOpensNothing | src/components/data-mapping/ValidationSummary.tsx:78 | every failing cell of the last row yields a record whose "Edit Row" opens no row |
| GridImport.EditRowCorrectedOpensSource | src/components/data-mapping/ValidationSummary.tsx:78 | with the corrected index, "Edit Row" opens exactly the row whose cell the record reports |
| GridImport.GridSession.HandleComplete | src/components/data-mapping/DataMapping.tsx:59-72 | emits iff the dataset has no cell errors, which is iff Complete was enabled; otherwise nothing; each output row is its input row projected with the later column winning a shared target |
| ValidationSummary.AddToGroups | src/components/data-mapping/ValidationSummary.tsx:29-33 | adding a record leaves at least one group |
| ValidationSummary.AddKeepsSorted | src/components/data-mapping/ValidationSummary.tsx:29-33 | adding a record keeps the groups in strictly ascending row order |
| ValidationSummary.AddGroupFor | src/components/data-mapping/ValidationSummary.tsx:29-33 | the record's row group gains it at the end, and other groups are unchanged |
| ValidationSummary.GroupForBelow | src/components/data-mapping/ValidationSummary.tsx:29-33 | sorted groups hold no group for a row below the first key |
| ValidationSummary.AddCounts | src/components/data-mapping/ValidationSummary.tsx:29-33 | adding a record adds one to the total and its row to the row set |
| ValidationSummary.GroupsOfSpec | src/components/data-mapping/ValidationSummary.tsx:29-55 | groups are in ascending row order; each holds exactly its row's records in input order; the rows are those of the records; the sizes add up to the record count |
| ValidationSummary.GroupErrorsByRow | src/components/data-mapping/ValidationSummary.tsx:29-33 | the `reduce` loop builds exactly the grouping: ascending rows, each group its row's records in input order, sizes adding up to the record count |
| ValidationSummary.ErrorLabel | src/components/data-mapping/ValidationSummary.tsx:69 | "error" iff the count is 1, and "errors" otherwise |
| ValidationSummary.RowExpansion.constructor | src/components/data-mapping/ValidationSummary.tsx:15 | nothing is expanded |
| ValidationSummary.RowExpansion.ToggleRow | src/components/data-mapping/ValidationSummary.tsx:17-27 | the expanded set is toggled at exactly that row |
| ValidationSummary.RowExpansion.ToggleGroup | src/components/data-mapping/ValidationSummary.tsx:61 | clicking a group toggles the row whose number is the group's key |
| ProposalValidation.Words | src/components/grant-writing/ProposalValidation.tsx:49 | splitting on white-space runs always gives at least one piece |
| ProposalValidation.WordCount | src/components/grant-writing/ProposalValidation.tsx:49 | the count is at least 1 |
| ProposalValidation.BlankCountsOneWord | src/components/grant-writing/ProposalValidation.tsx:49 | blank content counts as one word |
| ProposalValidation.WordsOfJoined | src/components/grant-writing/ProposalValidation.tsx:49 | words joined by single spaces split back into the same words |
| ProposalValidation.EmptyIssues | src/components/grant-writing/ProposalValidation.tsx:36-45 | a required blank section yields exactly one error `empty-<id>`, and nothing otherwise |
| ProposalValidation.WordLimitIssues | src/components/grant-writing/ProposalValidation.tsx:48-69 | at most one issue, only with a truthy limit, naming the section |
| ProposalValidation.WordLimitOutcome | src/components/grant-writing/ProposalValidation.tsx:50-59 | with a truthy limit: an error iff the count exceeds it, with action "Remove (count − limit) words"; a warning iff the count is within it and below 80 % of it; never both |
| ProposalValidation.FormatWarnings | src/components/grant-writing/ProposalValidation.tsx:72-94 | at most two warnings, each naming the section |
| ProposalValidation.FormatIssues | src/components/grant-writing/ProposalValidation.tsx:72-94 | at most two issues, each a warning naming the section |
| ProposalValidation.FormatWarningsPresent | src/components/grant-writing/ProposalValidation.tsx:72-94 | the capital warning is present iff requested, and so is the ending warning |
| ProposalValidation.FormatWarningsIff | src/components/grant-writing/ProposalValidation.tsx:72-94 | non-empty content gets the capital warning iff it does not start with `A`–`Z`, and the ending warning iff its trimmed form does not end in `.`, `!` or `?` |
| ProposalValidation.SectionIssues | src/components/grant-writing/ProposalValidation.tsx:34-95 | every issue of a section names that section |
| ProposalValidation.CompletedCount | src/components/grant-writing/ProposalValidation.tsx:97 | never more than the number of sections |
| ProposalValidation.IncompleteIffSomeBlank | src/components/grant-writing/ProposalValidation.tsx:97-101 | some section short of complete iff some section is blank |
| ProposalValidation.CompletionWarningLast | src/components/grant-writing/ProposalValidation.tsx:98-109 | the last issue is the completion warning iff the list is non-empty and some section is blank |
| ProposalValidation.SectionIssuesNamed | src/components/grant-writing/ProposalValidation.tsx:34-95 | every section issue names its section, so none is the completion warning |
| ProposalValidation.CountsAddUp | src/components/grant-writing/ProposalValidation.tsx:119-120 | errors plus warnings is the number of issues |
| ProposalValidation.ProposalPanel.constructor | src/components/grant-writing/ProposalValidation.tsx:26-28 | no issues and not validating |
| ProposalValidation.ProposalPanel.ValidateProposal | src/components/grant-writing/ProposalValidation.tsx:30-113 | the `forEach` loop stores exactly the proposal's issues, then stops validating |
| ProposalValidation.ProposalPanel.Counts | src/components/grant-writing/ProposalValidation.tsx:119-120 | the error and warning counts, which add up to the issue count |
| Eligibility.StatusOf | src/components/validation/EligibilityCriteria.tsx:86-93 | met iff value ≥ requirement; partial iff 0.9·requirement ≤ value < requirement; not met otherwise |
| Eligibility.StatusMonotone | src/components/validation/EligibilityCriteria.tsx:86-93 | raising the value never lowers the status |
| Eligibility.SuggestionFor | src/components/validation/EligibilityCriteria.tsx:118-128 | none iff met; the fixed "close" text iff partial; "increase … by requirement − value" iff not met |
| Eligibility.Updated | src/components/validation/EligibilityCriteria.tsx:104-133 | the entry keeps its identity; it gets the value text formatted with the saved criterion's unit, the new number and the status from its own requirement; no suggestion iff met, the "close" text iff partial, and iff not met "increase" for its lower-cased name by the saved criterion's requirement minus the value, in that criterion's unit |
| Eligibility.SaveAll | src/components/validation/EligibilityCriteria.tsx:104-133 | entries with the saved id are rewritten, and all others are unchanged |
| Eligibility.SaveIdempotent | src/components/validation/EligibilityCriteria.tsx:100-139 | saving the same value twice is saving it once |
| Eligibility.EligibilityPanel.constructor | src/components/validation/EligibilityCriteria.tsx:25-28 | nothing is being edited and there are no changes |
| Eligibility.EligibilityPanel.HandleEdit | src/components/validation/EligibilityCriteria.tsx:95-98 | edits that criterion, starting from its current number |
| Eligibility.EligibilityPanel.SetEditValue | src/components/validation/EligibilityCriteria.tsx:190 | the edit text becomes what was typed |
| Eligibility.EligibilityPanel.HandleSave | src/components/validation/EligibilityCriteria.tsx:100-139 | unparsable input changes nothing; otherwise the matching entries are rewritten, editing stops, the panel has changes, and the new list is emitted |
| Funding.EmptyQueryMatchesAll | src/components/validation/FundingOpportunities.tsx:194-196 | the empty query keeps every opportunity |
| Funding.SearchIgnoresCase | src/components/validation/FundingOpportunities.tsx:194-196 | queries that lower-case alike keep the same opportunities |
| Funding.BoundedMeansOverlap | src/components/validation/FundingOpportunities.tsx:199-206 | with a maximum, an opportunity is kept iff its amount range overlaps the bounds, ends included |
| Funding.Filtered | src/components/validation/FundingOpportunities.tsx:192-209 | exactly the opportunities that pass both the search and the amount filter |
| Funding.Insert | src/components/validation/FundingOpportunities.tsx:210-227 | inserting adds exactly one element |
| Funding.InsertSorted | src/components/validation/FundingOpportunities.tsx:210-227 | inserting into a sorted list keeps it sorted |
| Funding.SortBy | src/components/validation/FundingOpportunities.tsx:210-227 | the sorted list is a permutation of its input (same length, same multiset) |
| Funding.SortBySorted | src/components/validation/FundingOpportunities.tsx:210-227 | the sorted list is non-decreasing by rank |
| Funding.ShownSpec | src/components/validation/FundingOpportunities.tsx:192-227 | the list shown is a permutation of the opportunities that pass both filters, non-decreasing by the key for ascending and non-increasing for descending |
| Funding.NextSort | src/components/validation/FundingOpportunities.tsx:229-234 | the clicked field; ascending iff it was already the field and descending |
| Funding.SortCycle | src/components/validation/FundingOpportunities.tsx:229-234 | repeated clicks on one header alternate descending and ascending |
| Funding.ScoreTone | src/components/validation/FundingOpportunities.tsx:236-240 | green iff ≥ 80, yellow iff 50 to 79, red iff < 50 |
| Funding.ToneMonotone | src/components/validation/FundingOpportunities.tsx:236-240 | a higher score never gets a lower band |
| Funding.FundingPanel.constructor | src/components/validation/FundingOpportunities.tsx:168-170 | empty search, all amounts, best match first |
| Funding.FundingPanel.HandleSort | src/components/validation/FundingOpportunities.tsx:229-234 | the sort becomes the next sort for the clicked field |
| TagInput.EnterAddsNew | src/components/ui/TagInput.tsx:16-21 | Enter with text appends it iff it is not already a tag, and clears the text either way |
| TagInput.BackspaceDropsLast | src/components/ui/TagInput.tsx:22-23 | Backspace on empty text removes exactly the last tag |
| TagInput.OtherKeysIgnored | src/components/ui/TagInput.tsx:15-25 | Enter on empty text, Backspace with text, and other keys change nothing |
| TagInput.BlankTextBecomesTag | src/components/ui/TagInput.tsx:16-19 | white-space-only text becomes a tag, since the text is not trimmed |
| TagInput.KeyDownKeepsNoDuplicates | src/components/ui/TagInput.tsx:18 | a duplicate-free tag list stays duplicate-free under every key |
| TagInput.RemoveTag | src/components/ui/TagInput.tsx:27-29 | every copy of the tag goes, and the other tags stay |
| TagInput.RemoveTagOrder | src/components/ui/TagInput.tsx:27-29 | the remaining tags keep their order: removing from a split list removes from each part |
| TagInput.RemoveKeepsNoDuplicates | src/components/ui/TagInput.tsx:27-29 | removing keeps a duplicate-free list duplicate-free |
| TagInput.TagField.constructor | src/components/ui/TagInput.tsx:13 | the given tags and empty text |
| TagInput.TagField.SetInput | src/components/ui/TagInput.tsx:58 | the text becomes what was typed |
| TagInput.TagField.HandleKeyDown | src/components/ui/TagInput.tsx:15-25 | the new tags and text are the key-press transition, and no duplicates appear |
| TagInput.TagField.RemoveTagAction | src/components/ui/TagInput.tsx:27-29 | the tags lose every copy of the tag, and no duplicates appear |
| Questions.FromDraft | src/components/grant-writing/ApplicationQuestionsPanel.tsx:57-64 | the draft's text and limit, defaults short/general/not required for unset keys, and the new id |
| Questions.Merge | src/components/grant-writing/ApplicationQuestionsPanel.tsx:76-78 | each key present in the update replaces the question's, and the others are kept |
| Questions.MergeLaws | src/components/grant-writing/ApplicationQuestionsPanel.tsx:76-78 | an empty update changes nothing; merging twice is merging once |
| Questions.AsUpdate | src/components/grant-writing/ApplicationQuestionsPanel.tsx:166 | a question spread as an update leaves that question unchanged |
| Questions.WordLimitEntry | src/components/grant-writing/ApplicationQuestionsPanel.tsx:155 | no limit iff the text does not parse as an integer or parses as zero; otherwise the parsed number |
| Questions.EditWordLimit | src/components/grant-writing/ApplicationQuestionsPanel.tsx:155 | typing into the word-limit input changes only the limit, and removes it iff the text does not parse or is zero |
| Questions.UpdateAll | src/components/grant-writing/ApplicationQuestionsPanel.tsx:75-79 | same length and order; only questions with the id are merged |
| Questions.DeleteAll | src/components/grant-writing/ApplicationQuestionsPanel.tsx:81-83 | exactly the questions without the id remain |
| Questions.DeleteSpec | src/components/grant-writing/ApplicationQuestionsPanel.tsx:81-83 | deleting distributes over concatenation, which keeps order, and removes as many questions as carry the id |
| Questions.DeleteAbsent | src/components/grant-writing/ApplicationQuestionsPanel.tsx:81-83 | deleting an id nobody has changes nothing |
| Questions.QuestionsPanel.constructor | src/components/grant-writing/ApplicationQuestionsPanel.tsx:45-52 | the three default questions, the empty draft, the form closed |
| Questions.QuestionsPanel.HandleAddQuestion | src/components/grant-writing/ApplicationQuestionsPanel.tsx:54-73 | a blank draft changes nothing; otherwise one question is appended, the draft is reset and the form closes |
| Questions.QuestionsPanel.HandleUpdateQuestion | src/components/grant-writing/ApplicationQuestionsPanel.tsx:75-79 | the questions become the merged list |
| Questions.QuestionsPanel.HandleDeleteQuestion | src/components/grant-writing/ApplicationQuestionsPanel.tsx:81-83 | the questions become the list without the id |
| FormSections.StatusOf | src/components/forms/sections/CompanySection.tsx:67-73 | complete iff all values are non-blank; in progress iff some but not all are; incomplete iff there are values and all are blank |
| FormSections.StatusMonotone | src/components/forms/sections/CompanySection.tsx:67-73 | filling in a value never moves the status back |
| FormSections.CompanyRequired | src/components/forms/sections/CompanySection.tsx:56-65 | eight required values |
| FormSections.BusinessAddressIgnored | src/components/forms/sections/CompanySection.tsx:56-65 | the business address never affects the company status |
| FormSections.CompanyCompleteIff | src/components/forms/sections/CompanySection.tsx:55-74 | complete iff the five company fields and the legal street, province and postal code are all non-blank |
| FormSections.WithField | src/components/forms/sections/CompanySection.tsx:41-44 | the named field holds the value, and the other two fields are kept |
| FormSections.AddressChange | src/components/forms/sections/CompanySection.tsx:39-45 | the named field of the named address holds the value; its other fields, the other address and the five company fields are kept |
| FormSections.WorkforceRequired | src/components/forms/sections/WorkforceSection.tsx:76-81 | four required values |
| FormSections.WorkforceIgnoresOptional | src/components/forms/sections/WorkforceSection.tsx:76-81 | the 2024 revenue and the contractors never affect the status |
| FormSections.TotalEmployees | src/components/forms/sections/WorkforceSection.tsx:62-64 | counts that do not parse add 0 |
| FormSections.TotalOfDecimals | src/components/forms/sections/WorkforceSection.tsx:62-64 | counts written as plain decimals add up to their sum |
| FormSections.RevenueGrowth | src/components/forms/sections/WorkforceSection.tsx:66-73 | null iff the 2022 or 2023 revenue parses to 0 or does not parse |
| FormSections.RevenueChange | src/components/forms/sections/WorkforceSection.tsx:40-45 | exactly the named year changes, and the employees are untouched |
| FormSections.EmployeeChange | src/components/forms/sections/WorkforceSection.tsx:47-52 | exactly the named count changes, and the revenue is untouched |
| FormSections.ContractorChangeMovesTotal | src/components/forms/sections/WorkforceSection.tsx:47-64 | changing the contractors moves the total by the difference, and leaves the status unchanged |
| FormSections.ContactRequired | src/components/forms/sections/ContactSection.tsx:36-41 | four required values |
| FormSections.LinkedinIgnored | src/components/forms/sections/ContactSection.tsx:36-41 | the LinkedIn profile never affects the status |
| FormSections.ContactPhoneEntry | src/components/forms/sections/ContactSection.tsx:104-116 | the stored text is the formatted entry |
| FormSections.ContactPhoneAlwaysInvalid | src/components/forms/sections/ContactSection.tsx:109-110 | as written, every phone entry is reported `Invalid phone number` |
| FormSections.TenDigitPhoneRejected | src/components/forms/sections/ContactSection.tsx:109-110 | the ten-digit entry 6135550123 is rejected |
| FormSections.ContactPhoneEntryCorrected | src/components/forms/sections/ContactSection.tsx:104-116 | the stored text is the formatted entry, and its digits are what is checked |
| FormSections.ContactPhoneCorrectedAccepts | src/components/forms/sections/ContactSection.tsx:109-110 | with the correction, an entry is accepted iff it holds at least ten digits |
| CompanyFiles.FilesStatus | src/components/forms/sections/CompanyFilesSection.tsx:202-211 | incomplete iff there are no files; complete iff there are files and both incorporation and financial have one; in progress otherwise |
| CompanyFiles.Uploaded | src/components/forms/sections/CompanyFilesSection.tsx:127-134 | an upload keeps the file's name, size and type, and is filed under misc |
| CompanyFiles.MiscAddsNoCategory | src/components/forms/sections/CompanyFilesSection.tsx:127-134 | files under misc add no other category |
| CompanyFiles.UploadsNeverComplete | src/components/forms/sections/CompanyFilesSection.tsx:127-134 | after uploads the section is complete iff it was complete before them |
| CompanyFiles.DeleteFile | src/components/forms/sections/CompanyFilesSection.tsx:170-171 | exactly the files without the id remain |
| CompanyFiles.DeleteFileSpec | src/components/forms/sections/CompanyFilesSection.tsx:170-171 | deleting distributes over concatenation, which keeps order, and removes as many files as carry the id |
| CompanyFiles.FilteredFiles | src/components/forms/sections/CompanyFilesSection.tsx:179-200 | exactly the files that pass the search, category, type and date tests |
| CompanyFiles.NoFiltersShowAll | src/components/forms/sections/CompanyFilesSection.tsx:179-184 | with every selector at all and an empty search, every file is shown, in order |
| CompanyFiles.DateRangesNest | src/components/forms/sections/CompanyFilesSection.tsx:186-199 | today is within the last week, and the last week within the last month |
| CompanyFiles.FilesPanel.constructor | src/components/forms/sections/CompanyFilesSection.tsx:99-104 | no files, incorporation expanded, every filter at all |
| CompanyFiles.FilesPanel.ToggleCategory | src/components/forms/sections/CompanyFilesSection.tsx:158-168 | the expanded set is toggled at exactly that category |
| CompanyFiles.FilesPanel.FinishUpload | src/components/forms/sections/CompanyFilesSection.tsx:127-134 | the file is appended under misc, and completeness does not change |
| CompanyFiles.FilesPanel.DeleteFileAction | src/components/forms/sections/CompanyFilesSection.tsx:170-171 | the files become the list without the id |

## Left out

- Reading the file and decoding the spreadsheet (`FileReader`, `XLSX`) are outside the model. `MappingSession.ParseFile` takes the decoder's outcome as a parameter.
- Downloads and exports (the CSV blob and anchor, the PDF and Excel exports) are browser I/O.
- The email and URL checks come from the zod library. They are the parameters `isEmail` and `isUrl`, so their semantics are not modelled.
- Number formatting through `Intl`, `toLocaleString`, `toFixed` and `Number.prototype.toString` is outside the model:
  - the eligibility texts use the `Numbers` parameter for it;
  - the completion percentage text and the revenue growth value are not modelled;
  - `formatters.currency` and `formatFileSize` are not modelled.
- Timers, simulated upload progress, notifications and asynchronous loading are not modelled. `isProcessing` is taken as finished, and `FilesPanel.FinishUpload` models only the end of an upload.
- `parseFloat` is the `Numbers.parse` parameter.
- The grid flow's `parseFile` is not part of this model: its file elides it.
- Case mapping (`toLowerCase`, `toUpperCase`) is ASCII only. White space (`\s`, `trim`) is the full ECMAScript set of white-space and line-terminator code points. Strings are sequences of characters, not UTF-16 units.
- The deadline sort uses a parameter for `new Date(deadline).getTime()`, so invalid dates are not modelled.
- `Funding.ShownSpec`: states order and permutation but not stability, which the JavaScript sort guarantees and the model's insertion sort also has.
- `Funding.AmountOptions`: the four options of the amount selector are written already decoded. The `split('-').map(Number)` decoding is not modelled.
- `ProposalValidation.WordLimitIssues`: the 80 % threshold is exact (`5·count < 4·limit`), without floating-point rounding of `limit * 0.8`. Word limits are integers.
- `Questions.Merge`: a key present in an update with the value `undefined` is treated as absent, except for the word limit, where `Some(None)` models it.
- `Eligibility.StatusOf` and `Eligibility.Updated`: values are exact reals, not JavaScript doubles. The rounding of `requirement * 0.9` and of the shortfall `requirementValue - newValue` is not modelled.
- `Common.ParseInt`: the result is an unbounded integer, not a JavaScript double. Digit strings above 2^53 are read exactly, not rounded, and a number written in exponent form (`String(n)` for n ≥ 10^21) is not produced.
- `Common.ParseIntDecimalString`: holds for every natural number in the model. In JavaScript it holds only below 2^53; above that `parseInt` rounds, and from 10^21 on `String(n)` uses exponent form.
- `Questions.WordLimitEntry`: the limit is the exact parsed integer, without double rounding above 2^53.
- `FormSections.TotalEmployees`, `FormSections.TotalOfDecimals` and `FormSections.ContractorChangeMovesTotal`: counts and their sums are unbounded integers, not doubles. They agree with JavaScript only while the values stay below 2^53.
- `Questions.QuestionsPanel.HandleAddQuestion`: the `Date.now()` id is the parameter `newId`.
- `CompanyFiles.FilesPanel.FinishUpload`: the random id and the upload date are parameters.
- `CompanyFiles.DaysSince`: the current time is the parameter `now`, and `uploadDate` is a millisecond count.
- The `isValid` flag of a column mapping is always true and never read.
- `ImportMapping.FindMatchingSystemField`:
  - the example "Company Name" → `companyName` is covered by `NormalizeSpacedWords` and `NormalizeLetters` in general form, not by a lemma on that literal;
  - uniqueness of the normalised system-field names is not stated.
- `ImportMapping.InitialMappings`: the contract states each entry's source column. Its target is the header's `FindMatchingSystemField` result by definition, and that function's contract states what the match means.
- `Validation.FormatPostalCodeShape`: the example "a1a1a1" → "A1A 1A1" is not stated as a separate lemma.
- `FormSections.RevenueGrowth`: only whether the growth is null is stated, not its value. The revenues are unbounded integers and the growth an exact real, not doubles. The `toFixed(1)` rendering is not modelled.
- `FormSections.TotalEmployees`: the postcondition states only the all-unparsable case. Other sums are covered by `TotalOfDecimals` and `ContractorChangeMovesTotal`.
- Object keys that look like integers are enumerated in ascending order by JavaScript. The model keeps this only where the keys are row numbers (`ValidationSummary`). The mapping records of the import flows are taken in insertion order.
- The data grid's inline validation always falls into the catch branch ("Invalid value") and is not modelled.
- The data grid's editing is modelled only as far as which row it opens (`GridImport.GridRowAt`). The field edits, the save into `data[editingRow]` and the thrown error on an undefined row are not modelled.
- Presentation, animation, icons and styling classes are not modelled, apart from `Funding.ToneClasses`.

## Findings

| source | as written | input that shows it | evidently intended | confidence | as-written member | corrected member |
|---|---|---|---|---|---|---|
| src/components/forms/sections/ContactSection.tsx:109-110 | the phone entry is formatted to `ddd-ddd-dddd` and the formatted text is checked against `^\+?1?\d{10,}$`, which allows no hyphen, so every entry is reported invalid | typing `6135550123` stores `613-555-0123` and reports "Invalid phone number" | a complete ten-digit number is accepted, for example by checking the digits of the formatted text | not executed; high | FormSections.ContactPhoneAlwaysInvalid | FormSections.ContactPhoneCorrectedAccepts |
| src/components/data-mapping/ValidationSummary.tsx:78 | "Edit Row" passes the group's 1-based record row (`row: index + 1`) to `setEditingRow`, and the grid indexes `data[editingRow]` from 0 | a failing cell in the last of n rows gives a record with row n; "Edit Row" opens `data[n]`, which is undefined, and the grid's field check then reads a column of it; in any other row it opens, and saves over, the next row | "Edit Row" opens the row the record is about, `data[row - 1]` | not executed; high | GridImport.EditRowOpensNext | GridImport.EditRowCorrectedOpensSource |
