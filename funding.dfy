/**
 * The funding-opportunity list (`src/components/validation/FundingOpportunities.tsx`):
 * a case-insensitive search on name and description, an amount-range
 * filter, a sort on the selected key in the selected direction, the
 * header click that switches the sort, and the colour band of a match
 * score.
 */
module Funding {
  import opened Common

  datatype RequirementStatus = ReqMet | ReqNotMet | ReqPartial

  datatype Requirement = Requirement(
    id: string,
    name: string,
    status: RequirementStatus,
    current: string,
    required: string,
    recommendation: Option<string>)

  datatype Opportunity = Opportunity(
    id: string,
    name: string,
    description: string,
    amount: string,
    minAmount: int,
    maxAmount: int,
    deadline: string,
    matchScore: int,
    requirements: seq<Requirement>,
    overview: string)

  // ---------------------------------------------------------------------
  // Filtering
  // ---------------------------------------------------------------------

  /** `q === '' || name.includes(q) || description.includes(q)` on lower-cased text. */
  predicate MatchesSearch(o: Opportunity, query: string)
  {
    var q := Lower(query);
    q == "" || Contains(Lower(o.name), q) || Contains(Lower(o.description), q)
  }

  /** An empty query keeps every opportunity. */
  lemma EmptyQueryMatchesAll(o: Opportunity)
    ensures MatchesSearch(o, "")
  {
  }

  /** Case does not matter: queries that lower-case alike keep the same opportunities. */
  lemma SearchIgnoresCase(o: Opportunity, q1: string, q2: string)
    requires Lower(q1) == Lower(q2)
    ensures MatchesSearch(o, q1) <==> MatchesSearch(o, q2)
  {
  }

  /**
   * The amount options after `split('-').map(Number)`: `All`, or bounds
   * where a zero (absent) maximum means "at least the minimum".
   */
  datatype AmountFilter = AllAmounts | Bounds(min: int, max: int)

  /** The four options of the amount selector: all, under 50 000, 50 000 to 100 000, over 100 000. */
  const AmountOptions: seq<AmountFilter> := [AllAmounts, Bounds(0, 50000), Bounds(50000, 100000), Bounds(100000, 0)]

  predicate MatchesAmount(o: Opportunity, f: AmountFilter)
  {
    match f
    case AllAmounts => true
    case Bounds(min, max) =>
      if max != 0 then o.minAmount <= max && o.maxAmount >= min else o.minAmount >= min
  }

  predicate Within(x: int, lo: int, hi: int)
  {
    lo <= x <= hi
  }

  /** With a maximum, an opportunity is kept iff its range overlaps the bounds, ends included. */
  lemma BoundedMeansOverlap(o: Opportunity, min: int, max: int)
    requires max != 0 && o.minAmount <= o.maxAmount && min <= max
    ensures MatchesAmount(o, Bounds(min, max)) <==> exists x :: Within(x, o.minAmount, o.maxAmount) && Within(x, min, max)
  {
    if MatchesAmount(o, Bounds(min, max)) {
      var x := if o.minAmount >= min then o.minAmount else min;
      assert Within(x, o.minAmount, o.maxAmount) && Within(x, min, max);
    }
  }

  predicate Keep(o: Opportunity, query: string, f: AmountFilter)
  {
    MatchesSearch(o, query) && MatchesAmount(o, f)
  }

  /** The test of the filter for the given search and amount range. */
  function KeptBy(query: string, f: AmountFilter): Opportunity -> bool
  {
    o => Keep(o, query, f)
  }

  /** `opportunities.filter(...)` */
  function Filtered(os: seq<Opportunity>, query: string, f: AmountFilter): (r: seq<Opportunity>)
    ensures |r| <= |os|
    ensures forall o :: o in r <==> o in os && Keep(o, query, f)
  {
    Filter(os, KeptBy(query, f))
  }

  // ---------------------------------------------------------------------
  // Sorting
  // ---------------------------------------------------------------------

  datatype SortField = MatchScore | Deadline | AmountMin

  datatype SortOrder = Asc | Desc

  datatype SortConfig = SortConfig(field: SortField, order: SortOrder)

  /** The initial sort: best match first. */
  const InitialSort := SortConfig(MatchScore, Desc)

  /**
   * The compared key; `deadlineTime` stands for `new Date(deadline).getTime()`.
   */
  function Key(o: Opportunity, field: SortField, deadlineTime: string -> int): int
  {
    match field
    case MatchScore => o.matchScore
    case Deadline => deadlineTime(o.deadline)
    case AmountMin => o.minAmount
  }

  /** The comparator's sign: ascending compares the key, descending its negation. */
  function Rank(o: Opportunity, config: SortConfig, deadlineTime: string -> int): int
  {
    var k := Key(o, config.field, deadlineTime);
    if config.order == Asc then k else -k
  }

  predicate SortedBy(os: seq<Opportunity>, rank: Opportunity -> int)
  {
    forall i, j :: 0 <= i < j < |os| ==> rank(os[i]) <= rank(os[j])
  }

  /** Place `o` after every element that does not rank above it. */
  function Insert(o: Opportunity, os: seq<Opportunity>, rank: Opportunity -> int): (r: seq<Opportunity>)
    ensures |r| == |os| + 1
    ensures multiset(r) == multiset(os) + multiset{o}
    ensures r[0] == o || (os != [] && r[0] == os[0])
  {
    if os == [] then [o]
    else if rank(o) < rank(os[0]) then [o] + os
    else
      var rest := Insert(o, os[1..], rank);
      assert os == [os[0]] + os[1..];
      [os[0]] + rest
  }

  lemma {:induction false} InsertSorted(o: Opportunity, os: seq<Opportunity>, rank: Opportunity -> int)
    requires SortedBy(os, rank)
    ensures SortedBy(Insert(o, os, rank), rank)
  {
    if os != [] && rank(o) >= rank(os[0]) {
      var tail := os[1..];
      assert SortedBy(tail, rank) by {
        forall i, j | 0 <= i < j < |tail| ensures rank(tail[i]) <= rank(tail[j]) {
          assert tail[i] == os[i + 1] && tail[j] == os[j + 1];
        }
      }
      InsertSorted(o, tail, rank);
      var rest := Insert(o, tail, rank);
      var r := [os[0]] + rest;
      assert Insert(o, os, rank) == r;
      assert rank(os[0]) <= rank(rest[0]) by {
        if rest[0] != o {
          assert rest[0] == os[1];
        }
      }
      forall i, j | 0 <= i < j < |r| ensures rank(r[i]) <= rank(r[j]) {
        assert r[j] == rest[j - 1];
        if i > 0 {
          assert r[i] == rest[i - 1];
        } else if j > 1 {
          assert rank(rest[0]) <= rank(rest[j - 1]);
        }
      }
    }
  }

  /** `.sort(...)` with a stable insertion order; the result keeps exactly the input's elements. */
  function SortBy(os: seq<Opportunity>, rank: Opportunity -> int): (r: seq<Opportunity>)
    ensures |r| == |os|
    ensures multiset(r) == multiset(os)
  {
    if os == [] then []
    else
      var init, last := os[..|os| - 1], os[|os| - 1];
      assert os == init + [last];
      Insert(last, SortBy(init, rank), rank)
  }

  /** The sort orders the list by rank. */
  lemma {:induction false} SortBySorted(os: seq<Opportunity>, rank: Opportunity -> int)
    ensures SortedBy(SortBy(os, rank), rank)
  {
    if os != [] {
      var init, last := os[..|os| - 1], os[|os| - 1];
      SortBySorted(init, rank);
      InsertSorted(last, SortBy(init, rank), rank);
    }
  }

  /** The list shown: filtered, then sorted. */
  function Shown(os: seq<Opportunity>, query: string, f: AmountFilter, config: SortConfig, deadlineTime: string -> int): seq<Opportunity>
  {
    SortBy(Filtered(os, query, f), o => Rank(o, config, deadlineTime))
  }

  /**
   * The list shown is a permutation of the opportunities that pass both
   * filters, ordered non-decreasing by the key for `Asc` and
   * non-increasing for `Desc`.
   */
  lemma ShownSpec(os: seq<Opportunity>, query: string, f: AmountFilter, config: SortConfig, deadlineTime: string -> int)
    ensures var r := Shown(os, query, f, config, deadlineTime);
      forall o :: multiset(r)[o] == if Keep(o, query, f) then multiset(os)[o] else 0
    ensures var r := Shown(os, query, f, config, deadlineTime);
      forall i, j :: 0 <= i < j < |r| ==>
        if config.order == Asc then Key(r[i], config.field, deadlineTime) <= Key(r[j], config.field, deadlineTime)
        else Key(r[i], config.field, deadlineTime) >= Key(r[j], config.field, deadlineTime)
  {
    var rank := o => Rank(o, config, deadlineTime);
    var kept := Filtered(os, query, f);
    SortBySorted(kept, rank);
    forall o ensures multiset(Shown(os, query, f, config, deadlineTime))[o] == if Keep(o, query, f) then multiset(os)[o] else 0 {
      FilterMultiset(os, KeptBy(query, f), o);
    }
  }

  /** `handleSort`: the current field while descending turns ascending; any other click sorts descending by the clicked field. */
  function NextSort(prev: SortConfig, field: SortField): (next: SortConfig)
    ensures next.field == field
    ensures next.order == Asc <==> prev.field == field && prev.order == Desc
  {
    SortConfig(field, if prev.field == field && prev.order == Desc then Asc else Desc)
  }

  /** Clicking the same header cycles descending, ascending, descending. */
  lemma SortCycle(prev: SortConfig, field: SortField)
    ensures NextSort(NextSort(NextSort(prev, field), field), field) == NextSort(prev, field)
  {
  }

  datatype Tone = Green | Yellow | Red

  /** `getMatchScoreColor`: the colour band of a score. */
  function ScoreTone(score: int): (t: Tone)
    ensures t == Green <==> score >= 80
    ensures t == Yellow <==> 50 <= score < 80
    ensures t == Red <==> score < 50
  {
    if score >= 80 then Green else if score >= 50 then Yellow else Red
  }

  function ToneClasses(t: Tone): string
  {
    match t
    case Green => "bg-green-100 text-green-800 dark:bg-green-900 dark:text-green-200"
    case Yellow => "bg-yellow-100 text-yellow-800 dark:bg-yellow-900 dark:text-yellow-200"
    case Red => "bg-red-100 text-red-800 dark:bg-red-900 dark:text-red-200"
  }

  /** A higher score never gets a lower band. */
  lemma ToneMonotone(s1: int, s2: int)
    requires s1 <= s2
    ensures ScoreTone(s1) == Green ==> ScoreTone(s2) == Green
    ensures ScoreTone(s2) == Red ==> ScoreTone(s1) == Red
  {
  }

  /** The panel's filter and sort state. */
  class FundingPanel {
    var opportunities: seq<Opportunity>
    var searchQuery: string
    var amountFilter: AmountFilter
    var sortConfig: SortConfig

    constructor(opportunities: seq<Opportunity>)
      ensures this.opportunities == opportunities
      ensures searchQuery == "" && amountFilter == AllAmounts && sortConfig == InitialSort
    {
      this.opportunities := opportunities;
      searchQuery := "";
      amountFilter := AllAmounts;
      sortConfig := InitialSort;
    }

    /** `handleSort` */
    method HandleSort(field: SortField)
      modifies this`sortConfig
      ensures sortConfig == NextSort(old(sortConfig), field)
    {
      var order := if sortConfig.field == field && sortConfig.order == Desc then Asc else Desc;
      sortConfig := SortConfig(field, order);
    }

    /** The list as shown for the current state. */
    function Visible(deadlineTime: string -> int): seq<Opportunity>
      reads this
    {
      Shown(opportunities, searchQuery, amountFilter, sortConfig, deadlineTime)
    }
  }
}
