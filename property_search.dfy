/** The property search service: the listing record and its validation, the
    loading of records into listings, and the search endpoint that narrows the
    preloaded listings by an optional minimum ROI, area and maximum cost. */
module PropertySearch {
  import opened Wrappers
  import opened Frames

  /** One listing as a row of the tabular source: the fields of `Property`
      before any of its field constraints has been checked. */
  datatype Listing = Listing(
    id: int,
    name: string,
    area: string,
    cost: real,
    expectedRoi: real,
    description: Option<string>,
    address: Option<string>)

  /** The field constraints of `Property`: a positive cost and a
      non-negative expected ROI. */
  predicate IsValidProperty(l: Listing)
  {
    l.cost > 0.0 && l.expectedRoi >= 0.0
  }

  /** A listing that passed validation, as every loaded `Property` is. */
  type Property = l: Listing | IsValidProperty(l)
    witness Listing(0, "", "", 1.0, 0.0, None, None)

  /** Why a row could not become a `Property`: the position of the first row
      that breaks a field constraint. */
  datatype LoadError = InvalidRow(index: nat)

  /** Builds a `Property` from each row, in row order, failing at the first
      row whose cost or expected ROI breaks the constraints. */
  function ConvertRows(rows: seq<Listing>): (r: Result<seq<Property>, LoadError>)
    ensures r.Success? <==> forall j :: 0 <= j < |rows| ==> IsValidProperty(rows[j])
    ensures r.Success? ==> r.value == rows
    ensures r.Failure? ==>
      && r.error.index < |rows|
      && !IsValidProperty(rows[r.error.index])
      && forall j :: 0 <= j < r.error.index ==> IsValidProperty(rows[j])
    decreases |rows|
  {
    if rows == [] then Success([])
    else if !IsValidProperty(rows[0]) then Failure(InvalidRow(0))
    else match ConvertRows(rows[1..])
      case Success(ps) => Success([rows[0]] + ps)
      case Failure(InvalidRow(i)) => Failure(InvalidRow(i + 1))
  }

  /** Rebuilding properties from the rows of already valid properties, as the
      endpoint does with the rows that survive its filters, always succeeds
      and gives back the same properties. */
  lemma {:induction false} ConvertRowsOfProperties(ps: seq<Property>)
    ensures ConvertRows(ps) == Success(ps)
  {
    var r := ConvertRows(ps);
    assert r.Success?;
  }

  // ---------------------------------------------------------------------
  // Case-insensitive area comparison

  predicate IsUpper(c: char)
  {
    'A' <= c <= 'Z'
  }

  /** Lowercase of one character; only ASCII letters change. */
  function LowerChar(c: char): char
  {
    if IsUpper(c) then (c as int - 'A' as int + 'a' as int) as char else c
  }

  /** Lowercase of a string, character by character: the length is kept,
      each upper-case ASCII letter becomes its lower-case letter, no
      upper-case letter is left and every other character is unchanged. */
  function Lower(s: string): (r: string)
    ensures |r| == |s|
    ensures forall i :: 0 <= i < |s| ==> !IsUpper(r[i])
    ensures forall i :: 0 <= i < |s| && IsUpper(s[i]) ==> r[i] as int == s[i] as int + 32
    ensures forall i :: 0 <= i < |s| && !IsUpper(s[i]) ==> r[i] == s[i]
  {
    seq(|s|, i requires 0 <= i < |s| => LowerChar(s[i]))
  }

  /** Lowercasing twice is lowercasing once. */
  lemma LowerIdempotent(s: string)
    ensures Lower(Lower(s)) == Lower(s)
  {
  }

  // ---------------------------------------------------------------------
  // Search criteria and the filters

  /** The three optional query parameters; an absent one does not constrain. */
  datatype Criteria = Criteria(minRoi: Option<real>, area: Option<string>, maxCost: Option<real>)

  /** The three filters, in the order the endpoint applies them. */
  datatype Field = Roi | Area | Cost

  /** Whether listing `l` passes the filter on field `f` of criteria `c`:
      the mask that filter selects by, or true when the criterion is absent. */
  predicate Holds(l: Listing, c: Criteria, f: Field)
  {
    match f
    case Roi => c.minRoi.None? || KeepRoi(c.minRoi.value)(l)
    case Area => c.area.None? || KeepArea(c.area.value)(l)
    case Cost => c.maxCost.None? || KeepCost(c.maxCost.value)(l)
  }

  /** Whether listing `l` satisfies every criterion present in `c`. Written
      out independently of the filters, as the reference the search is
      proved against; it is the conjunction of the three filters' tests. */
  predicate Matches(l: Listing, c: Criteria): (b: bool)
    ensures b <==> Holds(l, c, Roi) && Holds(l, c, Area) && Holds(l, c, Cost)
  {
    && (c.minRoi.Some? ==> l.expectedRoi >= c.minRoi.value)
    && (c.area.Some? ==> Lower(l.area) == Lower(c.area.value))
    && (c.maxCost.Some? ==> l.cost <= c.maxCost.value)
  }

  /** The mask of the ROI filter. */
  function KeepRoi(roi: real): Listing -> bool
  {
    (l: Listing) => l.expectedRoi >= roi
  }

  /** The mask of the area filter. */
  function KeepArea(area: string): Listing -> bool
  {
    (l: Listing) => Lower(l.area) == Lower(area)
  }

  /** The mask of the cost filter. */
  function KeepCost(cost: real): Listing -> bool
  {
    (l: Listing) => l.cost <= cost
  }

  /** The mask of `Matches`. */
  function KeepMatching(c: Criteria): Listing -> bool
  {
    (l: Listing) => Matches(l, c)
  }

  /** The mask of one filter's test. */
  function KeepHolds(c: Criteria, f: Field): Listing -> bool
  {
    (l: Listing) => Holds(l, c, f)
  }

  /** The mask "passes every filter named in `order`". */
  function KeepAll(c: Criteria, order: seq<Field>): Listing -> bool
  {
    (l: Listing) => forall i :: 0 <= i < |order| ==> Holds(l, c, order[i])
  }

  /** The ROI filter: the listings whose expected ROI is at least `roi`;
      all of them when `roi` is absent. */
  function FilterRoi(ls: seq<Listing>, roi: Option<real>): (r: seq<Listing>)
    ensures |r| <= |ls|
    ensures roi.None? ==> r == ls
    ensures forall x :: x in r <==> x in ls && (roi.Some? ==> x.expectedRoi >= roi.value)
  {
    match roi
    case None => ls
    case Some(m) => Filter(ls, KeepRoi(m))
  }

  /** The area filter: the listings whose area equals `area` ignoring case;
      all of them when `area` is absent. */
  function FilterArea(ls: seq<Listing>, area: Option<string>): (r: seq<Listing>)
    ensures |r| <= |ls|
    ensures area.None? ==> r == ls
    ensures forall x :: x in r <==> x in ls && (area.Some? ==> Lower(x.area) == Lower(area.value))
  {
    match area
    case None => ls
    case Some(a) => Filter(ls, KeepArea(a))
  }

  /** The cost filter: the listings that cost at most `cost`; all of them
      when `cost` is absent. */
  function FilterCost(ls: seq<Listing>, cost: Option<real>): (r: seq<Listing>)
    ensures |r| <= |ls|
    ensures cost.None? ==> r == ls
    ensures forall x :: x in r <==> x in ls && (cost.Some? ==> x.cost <= cost.value)
  {
    match cost
    case None => ls
    case Some(m) => Filter(ls, KeepCost(m))
  }

  /** The filtering of the search endpoint: ROI, then area, then cost. A
      listing is returned exactly when it is in `ls` and matches `c`, and
      with no criterion everything is returned. */
  function Search(ls: seq<Listing>, c: Criteria): (r: seq<Listing>)
    ensures |r| <= |ls|
    ensures forall x :: x in r <==> x in ls && Matches(x, c)
    ensures c == Criteria(None, None, None) ==> r == ls
  {
    FilterCost(FilterArea(FilterRoi(ls, c.minRoi), c.area), c.maxCost)
  }

  /** One filter of the search, chosen by field. */
  function ApplyStep(ls: seq<Listing>, c: Criteria, f: Field): seq<Listing>
  {
    match f
    case Roi => FilterRoi(ls, c.minRoi)
    case Area => FilterArea(ls, c.area)
    case Cost => FilterCost(ls, c.maxCost)
  }

  /** The filters named in `order`, applied one after the other. */
  function ApplyInOrder(ls: seq<Listing>, c: Criteria, order: seq<Field>): seq<Listing>
    decreases |order|
  {
    if order == [] then ls else ApplyInOrder(ApplyStep(ls, c, order[0]), c, order[1..])
  }

  // ---------------------------------------------------------------------
  // Properties of the search

  /** Each single filter selects exactly the listings that pass it; an absent
      criterion selects everything. */
  lemma StepIsFilter(ls: seq<Listing>, c: Criteria, f: Field)
    ensures ApplyStep(ls, c, f) == Filter(ls, KeepHolds(c, f))
  {
    match f
    case Roi =>
      if c.minRoi.None? {
        FilterKeepsAll(ls, KeepHolds(c, f));
      } else {
        FilterSameMask(ls, KeepRoi(c.minRoi.value), KeepHolds(c, f));
      }
    case Area =>
      if c.area.None? {
        FilterKeepsAll(ls, KeepHolds(c, f));
      } else {
        FilterSameMask(ls, KeepArea(c.area.value), KeepHolds(c, f));
      }
    case Cost =>
      if c.maxCost.None? {
        FilterKeepsAll(ls, KeepHolds(c, f));
      } else {
        FilterSameMask(ls, KeepCost(c.maxCost.value), KeepHolds(c, f));
      }
  }

  /** Applying filters one after the other selects the listings that pass
      all of them. */
  lemma {:induction false} ApplyInOrderIsFilter(ls: seq<Listing>, c: Criteria, order: seq<Field>)
    ensures ApplyInOrder(ls, c, order) == Filter(ls, KeepAll(c, order))
    decreases |order|
  {
    if order == [] {
      FilterKeepsAll(ls, KeepAll(c, order));
    } else {
      var first := KeepHolds(c, order[0]);
      var later := KeepAll(c, order[1..]);
      StepIsFilter(ls, c, order[0]);
      ApplyInOrderIsFilter(ApplyStep(ls, c, order[0]), c, order[1..]);
      FilterFilter(ls, first, later);
      forall x | x in ls
        ensures Both(first, later)(x) == KeepAll(c, order)(x)
      {
        if Both(first, later)(x) {
          forall i | 0 <= i < |order|
            ensures Holds(x, c, order[i])
          {
            if i > 0 {
              assert order[i] == order[1..][i - 1];
            }
          }
        }
      }
      FilterSameMask(ls, Both(first, later), KeepAll(c, order));
    }
  }

  /** The search selects exactly the listings that match the criteria. */
  lemma SearchIsFilter(ls: seq<Listing>, c: Criteria)
    ensures Search(ls, c) == Filter(ls, KeepMatching(c))
  {
    var order := [Roi, Area, Cost];
    assert ApplyInOrder(ls, c, order) == Search(ls, c) by {
      assert order[1..] == [Area, Cost] && order[1..][1..] == [Cost];
    }
    ApplyInOrderIsFilter(ls, c, order);
    forall x | x in ls
      ensures KeepAll(c, order)(x) == KeepMatching(c)(x)
    {
      assert Holds(x, c, order[0]) && Holds(x, c, order[1]) && Holds(x, c, order[2]) ==> KeepAll(c, order)(x);
    }
    FilterSameMask(ls, KeepAll(c, order), KeepMatching(c));
  }

  /** Sound and complete: a listing is returned exactly when it is one of the
      input listings and meets every criterion given. */
  lemma SearchSoundAndComplete(ls: seq<Listing>, c: Criteria, x: Listing)
    ensures x in Search(ls, c) <==> x in ls && Matches(x, c)
  {
    SearchIsFilter(ls, c);
  }

  /** The result is the input with non-matching listings dropped: order is
      kept, every matching listing keeps its multiplicity, nothing is
      duplicated and the result is never longer than the input. */
  lemma SearchIsSubsequence(ls: seq<Listing>, c: Criteria, x: Listing)
    ensures Subsequence(Search(ls, c), ls)
    ensures |Search(ls, c)| <= |ls|
    ensures multiset(Search(ls, c))[x] == if Matches(x, c) then multiset(ls)[x] else 0
  {
    SearchIsFilter(ls, c);
    FilterIsSubsequence(ls, KeepMatching(c));
    FilterCount(ls, KeepMatching(c), x);
  }

  /** With no criterion given, every listing is returned in its order. */
  lemma SearchWithoutCriteria(ls: seq<Listing>)
    ensures Search(ls, Criteria(None, None, None)) == ls
  {
  }

  /** Searching the result again with the same criteria changes nothing. */
  lemma SearchIdempotent(ls: seq<Listing>, c: Criteria)
    ensures Search(Search(ls, c), c) == Search(ls, c)
  {
    SearchIsFilter(ls, c);
    SearchIsFilter(Search(ls, c), c);
    FilterIdempotent(ls, KeepMatching(c));
  }

  /** The three filters may run in any order, each one or more times: as long
      as every field is filtered on, the result is that of the search. */
  lemma SearchInAnyOrder(ls: seq<Listing>, c: Criteria, order: seq<Field>)
    requires Roi in order && Area in order && Cost in order
    ensures ApplyInOrder(ls, c, order) == Search(ls, c)
  {
    ApplyInOrderIsFilter(ls, c, order);
    SearchIsFilter(ls, c);
    forall x | x in ls
      ensures KeepAll(c, order)(x) == KeepMatching(c)(x)
    {
      var r :| 0 <= r < |order| && order[r] == Roi;
      var a :| 0 <= a < |order| && order[a] == Area;
      var k :| 0 <= k < |order| && order[k] == Cost;
      if KeepAll(c, order)(x) {
        assert Holds(x, c, order[r]) && Holds(x, c, order[a]) && Holds(x, c, order[k]);
      }
    }
    FilterSameMask(ls, KeepAll(c, order), KeepMatching(c));
  }

  /** Two area queries that differ only in letter case give the same result. */
  lemma SearchAreaIgnoresCase(ls: seq<Listing>, c: Criteria, a: string, b: string)
    requires Lower(a) == Lower(b)
    ensures Search(ls, c.(area := Some(a))) == Search(ls, c.(area := Some(b)))
  {
    SearchIsFilter(ls, c.(area := Some(a)));
    SearchIsFilter(ls, c.(area := Some(b)));
    FilterSameMask(ls, KeepMatching(c.(area := Some(a))), KeepMatching(c.(area := Some(b))));
  }

  /** An area query and its lowercase give the same result. */
  lemma SearchAreaLowercased(ls: seq<Listing>, c: Criteria, a: string)
    ensures Search(ls, c.(area := Some(Lower(a)))) == Search(ls, c.(area := Some(a)))
  {
    LowerIdempotent(a);
    SearchAreaIgnoresCase(ls, c, Lower(a), a);
  }

  /** "business bay" and "Business Bay" select the same listings. */
  lemma BusinessBayIgnoresCase(ls: seq<Listing>, c: Criteria)
    ensures Search(ls, c.(area := Some("business bay"))) == Search(ls, c.(area := Some("Business Bay")))
  {
    assert Lower("Business Bay") == Lower("business bay");
    SearchAreaIgnoresCase(ls, c, "business bay", "Business Bay");
  }

  /** Every listing the search returns from valid properties is itself a
      valid property. */
  lemma SearchKeepsProperties(ps: seq<Property>, c: Criteria)
    ensures forall x :: x in Search(ps, c) ==> IsValidProperty(x)
  {
    forall x | x in Search(ps, c)
      ensures IsValidProperty(x)
    {
      SearchSoundAndComplete(ps, c, x);
    }
  }

  // ---------------------------------------------------------------------
  // The endpoint

  /** What the endpoint can answer instead of a list: a rejected query
      parameter (HTTP 422), or a column missing from the frame (HTTP 500). */
  datatype SearchError = InvalidQuery(params: seq<string>) | MissingColumn(column: string)

  /** The query parameters that fail validation: `roi` must be at least 0 and
      `cost` greater than 0 when given. */
  function QueryErrors(roi: Option<real>, cost: Option<real>): (bad: seq<string>)
    ensures "roi" in bad <==> roi.Some? && roi.value < 0.0
    ensures "cost" in bad <==> cost.Some? && cost.value <= 0.0
    ensures |bad| <= 2
  {
    (if roi.Some? && roi.value < 0.0 then ["roi"] else [])
    + (if cost.Some? && cost.value <= 0.0 then ["cost"] else [])
  }

  /** The search endpoint over the preloaded properties, with an empty
      catalogue answered by an empty list. */
  function SearchProperties(all: seq<Property>, roi: Option<real>, area: Option<string>, cost: Option<real>)
    : (r: Result<seq<Property>, SearchError>)
    ensures r.Failure? <==> QueryErrors(roi, cost) != []
    ensures r.Failure? ==> r.error == InvalidQuery(QueryErrors(roi, cost))
    ensures r.Success? ==> r.value == Search(all, Criteria(roi, area, cost))
  {
    var bad := QueryErrors(roi, cost);
    if bad != [] then Failure(InvalidQuery(bad))
    else
      var found := Search(all, Criteria(roi, area, cost));
      SearchKeepsProperties(all, Criteria(roi, area, cost));
      Success(found)
  }

  /** The endpoint as written: an empty catalogue becomes a frame with no
      columns, so the first criterion given looks up a column that is not
      there. */
  function SearchPropertiesAsWritten(all: seq<Property>, roi: Option<real>, area: Option<string>, cost: Option<real>)
    : (r: Result<seq<Property>, SearchError>)
    ensures |all| > 0 || QueryErrors(roi, cost) != [] ==> r == SearchProperties(all, roi, area, cost)
    ensures all == [] && QueryErrors(roi, cost) == [] && (roi.Some? || area.Some? || cost.Some?) ==>
      r == Failure(MissingColumn(if roi.Some? then "expected_roi" else if area.Some? then "area" else "cost"))
    ensures all == [] && QueryErrors(roi, cost) == [] && roi.None? && area.None? && cost.None? ==>
      r == Success([])
  {
    var bad := QueryErrors(roi, cost);
    if bad != [] then Failure(InvalidQuery(bad))
    else if all == [] && roi.Some? then Failure(MissingColumn("expected_roi"))
    else if all == [] && area.Some? then Failure(MissingColumn("area"))
    else if all == [] && cost.Some? then Failure(MissingColumn("cost"))
    else SearchProperties(all, roi, area, cost)
  }

  /** On an empty catalogue a valid query with a minimum ROI fails with a
      missing column as written, where the intended answer is an empty list. */
  lemma EmptyCatalogueMissingColumn()
    ensures SearchPropertiesAsWritten([], Some(0.05), None, None) == Failure(MissingColumn("expected_roi"))
    ensures SearchProperties([], Some(0.05), None, None) == Success([])
  {
  }

  /** Every valid query of an empty catalogue answers an empty list. */
  lemma EmptyCatalogueAnswersEmpty(roi: Option<real>, area: Option<string>, cost: Option<real>)
    requires QueryErrors(roi, cost) == []
    ensures SearchProperties([], roi, area, cost) == Success([])
  {
    SearchIsSubsequence([], Criteria(roi, area, cost), Listing(0, "", "", 1.0, 0.0, None, None));
  }
}
