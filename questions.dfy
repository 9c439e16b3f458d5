/**
 * The application-question list (`src/components/grant-writing/ApplicationQuestionsPanel.tsx`):
 * it starts from three default questions; adding appends one question
 * built from the draft (ignored when the draft text is blank); updating
 * merges a partial question into the questions with that id; deleting
 * removes every question with that id.
 */
module Questions {
  import opened Common

  datatype QuestionType = Short | Long | Numeric

  datatype Category = Impact | Budget | Timeline | General

  datatype Question = Question(
    id: string,
    text: string,
    kind: QuestionType,
    category: Category,
    required: bool,
    wordLimit: Option<int>)

  /**
   * `Partial<Question>`: each key present or absent. The word limit may be
   * present with the value `undefined`, written `Some(None)`.
   */
  datatype Draft = Draft(
    id: Option<string>,
    text: Option<string>,
    kind: Option<QuestionType>,
    category: Option<Category>,
    required: Option<bool>,
    wordLimit: Option<Option<int>>)

  const DefaultQuestions: seq<Question> := [
    Question("1", "Describe the project's impact on the community", Long, Impact, true, Some(500)),
    Question("2", "What is the total budget requested?", Numeric, Budget, true, None),
    Question("3", "Outline the project timeline and key milestones", Long, Timeline, true, Some(300))
  ]

  /** The draft the form starts from and is reset to. */
  const EmptyDraft := Draft(None, None, Some(Short), Some(General), Some(false), None)

  function OrElse<T>(o: Option<T>, d: T): (r: T)
    ensures o.Some? ==> r == o.value
    ensures o.None? ==> r == d
  {
    if o.Some? then o.value else d
  }

  /** `!newQuestion.text?.trim()`: no text, or only white space. */
  predicate BlankDraft(d: Draft)
  {
    d.text.None? || IsBlank(d.text.value)
  }

  /** The question built from a non-blank draft, with `newId` for `Date.now().toString()`. */
  function FromDraft(d: Draft, newId: string): (q: Question)
    requires !BlankDraft(d)
    ensures q.id == newId && q.text == d.text.value
    ensures q.wordLimit == (if d.wordLimit.Some? then d.wordLimit.value else None)
    ensures q.kind == OrElse(d.kind, Short) && q.category == OrElse(d.category, General)
    ensures q.required <==> d.required == Some(true)
  {
    Question(newId, d.text.value, OrElse(d.kind, Short), OrElse(d.category, General), OrElse(d.required, false), OrElse(d.wordLimit, None))
  }

  /** `{ ...q, ...updates }`: each key present in the update replaces the question's. */
  function Merge(q: Question, u: Draft): (r: Question)
    ensures r.id == OrElse(u.id, q.id) && r.text == OrElse(u.text, q.text)
    ensures r.kind == OrElse(u.kind, q.kind) && r.category == OrElse(u.category, q.category)
    ensures r.required == OrElse(u.required, q.required)
    ensures r.wordLimit == (if u.wordLimit.Some? then u.wordLimit.value else q.wordLimit)
  {
    Question(OrElse(u.id, q.id), OrElse(u.text, q.text), OrElse(u.kind, q.kind),
             OrElse(u.category, q.category), OrElse(u.required, q.required),
             OrElse(u.wordLimit, q.wordLimit))
  }

  /** An empty update changes nothing; merging the same update twice is merging it once. */
  lemma MergeLaws(q: Question, u: Draft)
    ensures Merge(q, Draft(None, None, None, None, None, None)) == q
    ensures Merge(Merge(q, u), u) == Merge(q, u)
  {
  }

  /**
   * The word-limit input's value, `parseInt(text) || undefined`: text that
   * does not parse, and zero, clear the limit.
   */
  function WordLimitEntry(text: string): (w: Option<int>)
    ensures w.None? <==> ParseInt(text).None? || ParseInt(text).value == 0
    ensures w.Some? ==> w == ParseInt(text)
  {
    match ParseInt(text)
    case None => None
    case Some(n) => if n == 0 then None else Some(n)
  }

  /** `{ ...question }` as an update: every key present. */
  function AsUpdate(q: Question): (u: Draft)
    ensures Merge(q, u) == q
  {
    Draft(Some(q.id), Some(q.text), Some(q.kind), Some(q.category), Some(q.required), Some(q.wordLimit))
  }

  /** The update the word-limit input of the edit form sends, `{ ...question, wordLimit: … }`. */
  function WordLimitUpdate(q: Question, text: string): Draft
  {
    AsUpdate(q).(wordLimit := Some(WordLimitEntry(text)))
  }

  /**
   * Typing into the word-limit input changes only the limit, to the typed
   * number; text that does not parse, or zero, removes the limit.
   */
  lemma EditWordLimit(q: Question, text: string)
    ensures Merge(q, WordLimitUpdate(q, text)) == q.(wordLimit := WordLimitEntry(text))
    ensures Merge(q, WordLimitUpdate(q, text)).wordLimit.None? <==>
            ParseInt(text).None? || ParseInt(text).value == 0
  {
  }

  /** `questions.map(q => q.id === id ? { ...q, ...updates } : q)` */
  function UpdateAll(qs: seq<Question>, id: string, u: Draft): (r: seq<Question>)
    ensures |r| == |qs|
    ensures forall k :: 0 <= k < |qs| ==> r[k] == (if qs[k].id == id then Merge(qs[k], u) else qs[k])
  {
    seq(|qs|, k requires 0 <= k < |qs| => if qs[k].id == id then Merge(qs[k], u) else qs[k])
  }

  /** The delete filter's test, `q.id !== id`. */
  function OtherId(id: string): Question -> bool
  {
    (q: Question) => q.id != id
  }

  /** The test `q.id === id`. */
  function SameId(id: string): Question -> bool
  {
    (q: Question) => q.id == id
  }

  /** `questions.filter(q => q.id !== id)` */
  function DeleteAll(qs: seq<Question>, id: string): (r: seq<Question>)
    ensures forall q :: q in r <==> q in qs && q.id != id
    ensures |r| <= |qs|
  {
    Filter(qs, OtherId(id))
  }

  /**
   * Deleting drops exactly the questions with the id and keeps the rest in
   * order: it distributes over concatenation, and removes as many entries
   * as carry the id.
   */
  lemma DeleteSpec(qs: seq<Question>, more: seq<Question>, id: string)
    ensures DeleteAll(qs + more, id) == DeleteAll(qs, id) + DeleteAll(more, id)
    ensures |DeleteAll(qs, id)| + CountWhere(qs, SameId(id)) == |qs|
  {
    FilterAppend(qs, more, OtherId(id));
    FilterCount(qs, OtherId(id));
    CountWhereSplit(qs, OtherId(id), SameId(id));
  }

  /** Deleting an id no question carries leaves the list as it is. */
  lemma DeleteAbsent(qs: seq<Question>, id: string)
    requires forall k :: 0 <= k < |qs| ==> qs[k].id != id
    ensures DeleteAll(qs, id) == qs
  {
    FilterKeepsAll(qs, OtherId(id));
  }

  /** The panel's state. */
  class QuestionsPanel {
    var questions: seq<Question>
    var newQuestion: Draft
    var isAddingNew: bool

    constructor()
      ensures questions == DefaultQuestions && newQuestion == EmptyDraft
      ensures !isAddingNew
    {
      questions := DefaultQuestions;
      newQuestion := EmptyDraft;
      isAddingNew := false;
    }

    /**
     * `handleAddQuestion`: nothing when the draft text is blank; otherwise
     * the new question goes at the end, the draft is reset and the form
     * closes.
     */
    method HandleAddQuestion(newId: string)
      modifies this`questions, this`newQuestion, this`isAddingNew
      ensures BlankDraft(old(newQuestion)) ==>
        questions == old(questions) && newQuestion == old(newQuestion) && isAddingNew == old(isAddingNew)
      ensures !BlankDraft(old(newQuestion)) ==>
        && questions == old(questions) + [FromDraft(old(newQuestion), newId)]
        && newQuestion == EmptyDraft && !isAddingNew
    {
      if BlankDraft(newQuestion) {
        return;
      }
      var question := FromDraft(newQuestion, newId);
      questions := questions + [question];
      newQuestion := EmptyDraft;
      isAddingNew := false;
    }

    /** `handleUpdateQuestion` */
    method HandleUpdateQuestion(id: string, updates: Draft)
      modifies this`questions
      ensures questions == UpdateAll(old(questions), id, updates)
    {
      questions := UpdateAll(questions, id, updates);
    }

    /** `handleDeleteQuestion` */
    method HandleDeleteQuestion(id: string)
      modifies this`questions
      ensures questions == DeleteAll(old(questions), id)
    {
      questions := DeleteAll(questions, id);
    }
  }
}
