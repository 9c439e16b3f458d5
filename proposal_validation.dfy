/**
 * The proposal linter (`src/components/grant-writing/ProposalValidation.tsx`):
 * per section, in input order, an error for a blank required section,
 * an error or a warning from the word limit, and warnings for a missing
 * leading capital and a missing final punctuation mark; then one
 * completion warning when some section is blank.
 */
module ProposalValidation {
  import opened Common

  /** A word limit is applied only when it is truthy: present and non-zero. */
  datatype Section = Section(id: string, title: string, content: string, required: bool, wordLimit: Option<int>)

  datatype IssueKind = Error | Warning

  datatype Issue = Issue(
    id: string,
    kind: IssueKind,
    message: string,
    section: Option<string>,
    details: Option<string>,
    action: string)

  // ---------------------------------------------------------------------
  // Word counting: `content.trim().split(/\s+/).length`
  // ---------------------------------------------------------------------

  /** `s.split(/\s+/)`: the pieces between maximal runs of white space. */
  function Words(s: string): (ws: seq<string>)
    ensures |ws| >= 1
    decreases |s|
  {
    if s == [] then [""]
    else if IsSpace(s[0]) then [""] + Words(TrimStart(s[1..]))
    else
      var rest := Words(s[1..]);
      [[s[0]] + rest[0]] + rest[1..]
  }

  function WordCount(content: string): (n: nat)
    ensures n >= 1
  {
    |Words(Trim(content))|
  }

  /** Blank content still counts as one word. */
  lemma BlankCountsOneWord(content: string)
    requires IsBlank(content)
    ensures WordCount(content) == 1
  {
  }

  predicate IsWord(w: string)
  {
    w != [] && forall i :: 0 <= i < |w| ==> !IsSpace(w[i])
  }

  /** A word followed by text that starts with white space (or nothing) extends the first piece. */
  lemma {:induction false} WordsAfterWord(w: string, rest: string)
    requires forall i :: 0 <= i < |w| ==> !IsSpace(w[i])
    ensures Words(w + rest) == [w + Words(rest)[0]] + Words(rest)[1..]
    decreases |w|
  {
    var r := Words(rest);
    if w == [] {
      assert w + rest == rest && w + r[0] == r[0];
    } else {
      var s := w + rest;
      assert s[0] == w[0] && !IsSpace(s[0]);
      assert s[1..] == w[1..] + rest;
      WordsAfterWord(w[1..], rest);
      var tail := Words(s[1..]);
      assert tail[0] == w[1..] + r[0] && tail[1..] == r[1..];
      assert [w[0]] + (w[1..] + r[0]) == w + r[0];
    }
  }

  /**
   * Splitting words joined by single spaces gives the words back, so the
   * count is the number of words.
   */
  lemma {:induction false} WordsOfJoined(ws: seq<string>)
    requires |ws| >= 1
    requires forall k :: 0 <= k < |ws| ==> IsWord(ws[k])
    ensures Words(Join(ws, " ")) == ws
  {
    if |ws| == 1 {
      WordsAfterWord(ws[0], "");
      assert ws[0] + "" == ws[0];
    } else {
      var tail := Join(ws[1..], " ");
      WordsOfJoined(ws[1..]);
      assert tail != [] && !IsSpace(tail[0]) by {
        JoinStartsWithFirst(ws[1..]);
      }
      assert TrimStart(tail) == tail;
      assert Words(" " + tail) == [""] + ws[1..];
      assert Join(ws, " ") == ws[0] + (" " + tail);
      WordsAfterWord(ws[0], " " + tail);
      assert ws[0] + "" == ws[0];
    }
  }

  lemma {:induction false} JoinStartsWithFirst(ws: seq<string>)
    requires |ws| >= 1 && ws[0] != []
    ensures Join(ws, " ") != [] && Join(ws, " ")[0] == ws[0][0]
  {
  }

  // ---------------------------------------------------------------------
  // The checks of one section
  // ---------------------------------------------------------------------

  predicate LimitTruthy(limit: Option<int>)
  {
    limit.Some? && limit.value != 0
  }

  /** `!/^[A-Z]/.test(content)`, on the untrimmed content. */
  predicate NeedsCapital(content: string)
  {
    content == [] || !IsUpper(content[0])
  }

  /** `!/[.!?]$/.test(content.trim())` */
  predicate NeedsEnding(content: string)
  {
    var t := Trim(content);
    t == [] || !(t[|t| - 1] in {'.', '!', '?'})
  }

  /** A required section that is empty or only white space. */
  function EmptyIssues(s: Section): (r: seq<Issue>)
    ensures |r| <= 1
    ensures r != [] <==> s.required && IsBlank(s.content)
    ensures r != [] ==> r[0].kind == Error && r[0].id == "empty-" + s.id
    ensures forall k :: 0 <= k < |r| ==> r[k].section == Some(s.title)
  {
    if s.required && IsBlank(s.content) then
      [Issue("empty-" + s.id, Error, s.title + " is required", Some(s.title),
             Some("This section must be completed before submission"), "Add content to this section")]
    else []
  }

  /** Over the limit is an error; under 80 % of it (`5 * count < 4 * limit`) a warning. */
  function WordLimitIssues(s: Section): (r: seq<Issue>)
    ensures |r| <= 1
    ensures r != [] ==> LimitTruthy(s.wordLimit)
    ensures forall k :: 0 <= k < |r| ==> r[k].section == Some(s.title)
  {
    if LimitTruthy(s.wordLimit) then
      var limit := s.wordLimit.value;
      var count := WordCount(s.content);
      if count > limit then
        [Issue("wordlimit-" + s.id, Error, s.title + " exceeds word limit", Some(s.title),
               Some("Current: " + DecimalString(count) + " words / Limit: " + IntString(limit) + " words"),
               "Remove " + DecimalString(count - limit) + " words")]
      else if 5 * count < 4 * limit then
        [Issue("wordcount-" + s.id, Warning, s.title + " may be too brief", Some(s.title),
               Some("Current: " + DecimalString(count) + " words / Target: " + IntString(limit) + " words"),
               "Consider adding more detail")]
      else []
    else []
  }

  /** The two formatting warnings, given which of them apply. */
  function FormatWarnings(s: Section, needsCapital: bool, needsEnding: bool): (r: seq<Issue>)
    ensures |r| <= 2
    ensures forall k :: 0 <= k < |r| ==> r[k].kind == Warning && r[k].section == Some(s.title)
  {
    (if needsCapital then
       [Issue("format-caps-" + s.id, Warning, s.title + " should start with a capital letter",
              Some(s.title), None, "Capitalize the first letter")]
     else [])
    + (if needsEnding then
         [Issue("format-end-" + s.id, Warning, s.title + " should end with proper punctuation",
                Some(s.title), None, "Add appropriate ending punctuation")]
       else [])
  }

  /** Formatting warnings, only for non-empty content. */
  function FormatIssues(s: Section): (r: seq<Issue>)
    ensures |r| <= 2
    ensures forall k :: 0 <= k < |r| ==> r[k].kind == Warning && r[k].section == Some(s.title)
  {
    if s.content != [] then FormatWarnings(s, NeedsCapital(s.content), NeedsEnding(s.content)) else []
  }

  function SectionIssues(s: Section): (r: seq<Issue>)
    ensures forall k :: 0 <= k < |r| ==> r[k].section == Some(s.title)
  {
    var e, w, f := EmptyIssues(s), WordLimitIssues(s), FormatIssues(s);
    assert forall k :: 0 <= k < |e + w| ==> (e + w)[k] in e + w;
    e + w + f
  }

  /**
   * The word-limit outcomes: an error iff the count exceeds a truthy
   * limit, with the excess in its action; a warning iff it does not and
   * is below 80 % of it; never both.
   */
  lemma WordLimitOutcome(s: Section)
    ensures var r := WordLimitIssues(s);
      (r != [] && r[0].kind == Error) <==> LimitTruthy(s.wordLimit) && WordCount(s.content) > s.wordLimit.value
    ensures var r := WordLimitIssues(s);
      (r != [] && r[0].kind == Warning)
      <==> LimitTruthy(s.wordLimit) && WordCount(s.content) <= s.wordLimit.value
           && 5 * WordCount(s.content) < 4 * s.wordLimit.value
    ensures var r := WordLimitIssues(s);
      r != [] && r[0].kind == Error ==> r[0].action == "Remove " + DecimalString(WordCount(s.content) - s.wordLimit.value) + " words"
  {
  }

  /** Each formatting warning is present iff its condition holds. */
  lemma FormatWarningsPresent(s: Section, needsCapital: bool, needsEnding: bool)
    ensures var r := FormatWarnings(s, needsCapital, needsEnding);
      (exists k :: 0 <= k < |r| && r[k].id == "format-caps-" + s.id) <==> needsCapital
    ensures var r := FormatWarnings(s, needsCapital, needsEnding);
      (exists k :: 0 <= k < |r| && r[k].id == "format-end-" + s.id) <==> needsEnding
  {
    var r := FormatWarnings(s, needsCapital, needsEnding);
    var caps := "format-caps-" + s.id;
    var end := "format-end-" + s.id;
    assert caps[7] == 'c' && end[7] == 'e';
    if needsCapital {
      assert r[0].id == caps;
    }
    if needsEnding {
      assert r[|r| - 1].id == end;
    }
  }

  /**
   * The formatting warnings: capitalisation iff the untrimmed content is
   * non-empty and does not start with `A`-`Z`; punctuation iff it is
   * non-empty and its trimmed form does not end in `.`, `!` or `?`.
   */
  lemma FormatWarningsIff(s: Section)
    ensures var r := FormatIssues(s);
      (exists k :: 0 <= k < |r| && r[k].id == "format-caps-" + s.id)
      <==> s.content != [] && !IsUpper(s.content[0])
    ensures var r := FormatIssues(s);
      (exists k :: 0 <= k < |r| && r[k].id == "format-end-" + s.id)
      <==> s.content != [] && NeedsEnding(s.content)
  {
    if s.content != [] {
      var needsCapital := NeedsCapital(s.content);
      assert needsCapital <==> !IsUpper(s.content[0]);
      assert FormatIssues(s) == FormatWarnings(s, needsCapital, NeedsEnding(s.content));
      FormatWarningsPresent(s, needsCapital, NeedsEnding(s.content));
    }
  }

  // ---------------------------------------------------------------------
  // The whole proposal
  // ---------------------------------------------------------------------

  /** `s.content && s.content.trim() !== ''` */
  predicate Filled(s: Section)
  {
    !IsBlank(s.content)
  }

  /** `sections.filter(s => s.content && s.content.trim() !== '').length` */
  function CompletedCount(sections: seq<Section>): (n: nat)
    ensures n <= |sections|
  {
    CountWhere(sections, Filled)
  }

  /** Some section short of complete iff some section is blank. */
  lemma IncompleteIffSomeBlank(sections: seq<Section>)
    ensures CompletedCount(sections) < |sections| <==> exists k :: 0 <= k < |sections| && !Filled(sections[k])
  {
    CountWhereBelow(sections, Filled);
  }

  /**
   * `completionPercentage < 100`: with no sections the percentage is
   * NaN and the comparison is false.
   */
  predicate Incomplete(sections: seq<Section>)
  {
    |sections| > 0 && CompletedCount(sections) < |sections|
  }

  const CompletionIssue := Issue("completion", Warning, "Proposal is incomplete", None, None, "Complete all sections")

  function AllSectionIssues(sections: seq<Section>): seq<Issue>
  {
    if sections == [] then []
    else AllSectionIssues(sections[..|sections| - 1]) + SectionIssues(sections[|sections| - 1])
  }

  /** One more section appends that section's issues. */
  lemma AllSectionIssuesStep(sections: seq<Section>, i: nat)
    requires i < |sections|
    ensures AllSectionIssues(sections[..i + 1]) == AllSectionIssues(sections[..i]) + SectionIssues(sections[i])
  {
    assert sections[..i + 1][..i] == sections[..i];
  }

  /** The issue list of `validateProposal`. */
  function ProposalIssues(sections: seq<Section>): seq<Issue>
  {
    AllSectionIssues(sections) + (if Incomplete(sections) then [CompletionIssue] else [])
  }

  /** One completion warning, last, iff the list is non-empty and some section is blank. */
  lemma CompletionWarningLast(sections: seq<Section>)
    ensures var r := ProposalIssues(sections);
      (r != [] && r[|r| - 1] == CompletionIssue)
      <==> |sections| > 0 && exists k :: 0 <= k < |sections| && !Filled(sections[k])
  {
    IncompleteIffSomeBlank(sections);
    SectionIssuesNamed(sections);
    var r := ProposalIssues(sections);
    if !Incomplete(sections) && r != [] {
      assert r[|r| - 1].section.Some?;
    }
  }

  /** Every per-section issue names its section; the completion warning names none. */
  lemma {:induction false} SectionIssuesNamed(sections: seq<Section>)
    ensures forall k :: 0 <= k < |AllSectionIssues(sections)| ==> AllSectionIssues(sections)[k].section.Some?
  {
    if sections != [] {
      var init := sections[..|sections| - 1];
      SectionIssuesNamed(init);
      var s := sections[|sections| - 1];
      var a: seq<Issue> := AllSectionIssues(init);
      var t: seq<Issue> := SectionIssues(s);
      forall k | 0 <= k < |a| + |t| ensures (a + t)[k].section.Some? {
        if k < |a| {
          assert (a + t)[k] == a[k];
        } else {
          assert (a + t)[k] == t[k - |a|];
        }
      }
    }
  }

  function ErrorCount(issues: seq<Issue>): nat
  {
    if issues == [] then 0
    else ErrorCount(issues[..|issues| - 1]) + (if issues[|issues| - 1].kind == Error then 1 else 0)
  }

  function WarningCount(issues: seq<Issue>): nat
  {
    if issues == [] then 0
    else WarningCount(issues[..|issues| - 1]) + (if issues[|issues| - 1].kind == Warning then 1 else 0)
  }

  /** Every issue is an error or a warning: the two counts add up to the list. */
  lemma {:induction false} CountsAddUp(issues: seq<Issue>)
    ensures ErrorCount(issues) + WarningCount(issues) == |issues|
  {
    if issues != [] {
      CountsAddUp(issues[..|issues| - 1]);
    }
  }

  /** The linter's state. */
  class ProposalPanel {
    var issues: seq<Issue>
    var isValidating: bool

    constructor()
      ensures issues == [] && !isValidating
    {
      issues := [];
      isValidating := false;
    }

    /** `validateProposal`: collect the issues section by section, then the completion check. */
    method ValidateProposal(sections: seq<Section>)
      modifies this
      ensures issues == ProposalIssues(sections)
      ensures !isValidating
    {
      isValidating := true;
      var newIssues: seq<Issue> := [];
      var i := 0;
      while i < |sections|
        invariant 0 <= i <= |sections|
        invariant newIssues == AllSectionIssues(sections[..i])
      {
        AllSectionIssuesStep(sections, i);
        newIssues := newIssues + SectionIssues(sections[i]);
        i := i + 1;
      }
      assert sections[..i] == sections;
      if Incomplete(sections) {
        newIssues := newIssues + [CompletionIssue];
      }
      issues := newIssues;
      isValidating := false;
    }

    /** `errorCount` and `warningCount` */
    method Counts() returns (errors: nat, warnings: nat)
      ensures errors == ErrorCount(issues) && warnings == WarningCount(issues)
      ensures errors + warnings == |issues|
    {
      errors := ErrorCount(issues);
      warnings := WarningCount(issues);
      CountsAddUp(issues);
    }
  }
}
