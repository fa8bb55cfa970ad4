/** The recommendation batch: a fixed table of per-user preferences and the
    filter that turns one user's preferences into recommended listings. */
module Recommendation {
  import opened Wrappers
  import opened Frames
  import opened PropertySearch

  /** One user's preferences; `None` means no preference on that criterion. */
  datatype Pref = Pref(area: Option<string>, maxCost: Option<real>, minRoi: Option<real>)

  /** The preference table, keyed by user id. */
  const UserPreferences: map<int, Pref> := map[
    101 := Pref(Some("Business Bay"), Some(1600000.0), Some(0.07)),
    102 := Pref(Some("Downtown Dubai"), Some(6000000.0), Some(0.04)),
    103 := Pref(Some("Arabian Ranches"), Some(3500000.0), Some(0.05)),
    104 := Pref(None, Some(1000000.0), Some(0.07)),
    105 := Pref(Some("JLT"), Some(2500000.0), Some(0.07)),
    106 := Pref(Some("Business Bay"), None, Some(0.06)),
    107 := Pref(None, None, None)
  ]

  /** The area preference is applied only when it is truthy: present and not
      the empty string. */
  predicate AreaIsSet(area: Option<string>)
  {
    area.Some? && area.value != ""
  }

  /** The area the filter actually uses: the stored area when it is set,
      and none when it is absent or empty. */
  function EffectiveArea(area: Option<string>): (r: Option<string>)
    ensures r.Some? <==> AreaIsSet(area)
    ensures r.Some? ==> r == area && r.value != ""
  {
    if AreaIsSet(area) then area else None
  }

  /** The filters of one user's preferences: area, then maximum cost, then
      minimum ROI. A listing is recommended exactly when it is in `ls` and
      suits every preference that is set. */
  function RecommendFor(pref: Pref, ls: seq<Listing>): (r: seq<Listing>)
    ensures |r| <= |ls|
    ensures forall x :: x in r <==> x in ls && Suits(x, pref)
  {
    FilterRoi(FilterCost(FilterArea(ls, EffectiveArea(pref.area)), pref.maxCost), pref.minRoi)
  }

  /** Recommendations for `userId`; a user without preferences gets none,
      and a known user gets the input listings that suit the stored
      preferences. */
  function RecommendProperties(userId: int, ls: seq<Listing>): (r: seq<Listing>)
    ensures userId !in UserPreferences ==> r == []
    ensures userId in UserPreferences ==>
      forall x :: x in r <==> x in ls && Suits(x, UserPreferences[userId])
  {
    if userId !in UserPreferences then [] else RecommendFor(UserPreferences[userId], ls)
  }

  /** The search criteria a preference amounts to. */
  function PrefCriteria(pref: Pref): Criteria
  {
    Criteria(pref.minRoi, EffectiveArea(pref.area), pref.maxCost)
  }

  /** Whether listing `l` meets every preference that is set: the search's
      match against the criteria the preference amounts to. */
  predicate Suits(l: Listing, pref: Pref): (b: bool)
    ensures b <==> Matches(l, PrefCriteria(pref))
  {
    && (AreaIsSet(pref.area) ==> Lower(l.area) == Lower(pref.area.value))
    && (pref.maxCost.Some? ==> l.cost <= pref.maxCost.value)
    && (pref.minRoi.Some? ==> l.expectedRoi >= pref.minRoi.value)
  }

  // ---------------------------------------------------------------------
  // Properties

  /** The recommendation runs the search's filters in another order, so it is
      the search with the preference's criteria. */
  lemma RecommendIsSearch(pref: Pref, ls: seq<Listing>)
    ensures RecommendFor(pref, ls) == Search(ls, PrefCriteria(pref))
  {
    var c := PrefCriteria(pref);
    var order := [Area, Cost, Roi];
    assert ApplyInOrder(ls, c, order) == RecommendFor(pref, ls) by {
      assert order[1..] == [Cost, Roi] && order[1..][1..] == [Roi];
    }
    SearchInAnyOrder(ls, c, order);
  }

  /** Sound and complete: a listing is recommended exactly when it is one of
      the input listings and meets every preference that is set. */
  lemma RecommendSoundAndComplete(pref: Pref, ls: seq<Listing>, x: Listing)
    ensures x in RecommendFor(pref, ls) <==> x in ls && Suits(x, pref)
  {
    RecommendIsSearch(pref, ls);
    SearchSoundAndComplete(ls, PrefCriteria(pref), x);
  }

  /** The recommendation is the input with unsuitable listings dropped: order
      and multiplicity of the rest are kept. */
  lemma RecommendIsSubsequence(pref: Pref, ls: seq<Listing>, x: Listing)
    ensures Subsequence(RecommendFor(pref, ls), ls)
    ensures multiset(RecommendFor(pref, ls))[x] == if Suits(x, pref) then multiset(ls)[x] else 0
  {
    RecommendIsSearch(pref, ls);
    SearchIsSubsequence(ls, PrefCriteria(pref), x);
  }

  /** For an area preference that is absent or not empty, the recommendation
      equals the search endpoint's answer to the same three criteria. */
  lemma RecommendAgreesWithSearch(pref: Pref, ls: seq<Listing>)
    requires pref.area != Some("")
    ensures RecommendFor(pref, ls) == Search(ls, Criteria(pref.minRoi, pref.area, pref.maxCost))
  {
    RecommendIsSearch(pref, ls);
  }

  /** An empty area preference is no area preference at all. */
  lemma EmptyAreaIsNoPreference(pref: Pref, ls: seq<Listing>)
    requires pref.area == Some("")
    ensures RecommendFor(pref, ls) == RecommendFor(pref.(area := None), ls)
  {
  }

  /** Where the two differ: with an empty area the search keeps only listings
      whose area is empty, while the recommendation keeps every listing. */
  lemma EmptyAreaDiffersFromSearch()
    ensures var l := Listing(1, "Studio", "JLT", 1.0, 0.1, None, None);
      && RecommendFor(Pref(Some(""), None, None), [l]) == [l]
      && Search([l], Criteria(None, Some(""), None)) == []
  {
    var l := Listing(1, "Studio", "JLT", 1.0, 0.1, None, None);
    assert Lower(l.area)[0] == 'j';
    assert Lower(l.area) != Lower("");
  }

  /** Area preferences that differ only in letter case give the same
      recommendation. */
  lemma RecommendAreaIgnoresCase(pref: Pref, ls: seq<Listing>, a: string, b: string)
    requires Lower(a) == Lower(b)
    ensures RecommendFor(pref.(area := Some(a)), ls) == RecommendFor(pref.(area := Some(b)), ls)
  {
    RecommendIsSearch(pref.(area := Some(a)), ls);
    RecommendIsSearch(pref.(area := Some(b)), ls);
    if a != "" {
      SearchAreaIgnoresCase(ls, PrefCriteria(pref), a, b);
    }
  }

  /** A user with no stored preferences gets an empty recommendation. */
  lemma UnknownUserGetsNothing(userId: int, ls: seq<Listing>)
    requires userId !in UserPreferences
    ensures RecommendProperties(userId, ls) == []
  {
  }

  /** The table holds exactly users 101 to 107, so user 999 gets nothing
      from any catalogue. Users 104 and 107 have no area preference, users
      106 and 107 no cost limit, and user 107 no ROI floor. */
  lemma KnownUsers(ls: seq<Listing>)
    ensures UserPreferences.Keys == {101, 102, 103, 104, 105, 106, 107}
    ensures RecommendProperties(999, ls) == []
    ensures forall id :: id in UserPreferences && UserPreferences[id].area.None? <==> id in {104, 107}
    ensures forall id :: id in UserPreferences && UserPreferences[id].maxCost.None? <==> id in {106, 107}
    ensures forall id :: id in UserPreferences && UserPreferences[id].minRoi.None? <==> id == 107
  {
  }

  /** User 107 has no preferences and is recommended every listing, in order. */
  lemma User107GetsEverything(ls: seq<Listing>)
    ensures RecommendProperties(107, ls) == ls
  {
  }

  /** User 104 does not care about the area: only cost and ROI filter. */
  lemma User104IgnoresArea(ls: seq<Listing>, x: Listing)
    ensures x in RecommendProperties(104, ls) <==> x in ls && x.cost <= 1000000.0 && x.expectedRoi >= 0.07
  {
    RecommendSoundAndComplete(UserPreferences[104], ls, x);
  }

  /** User 101 gets what the search endpoint answers for Business Bay, at
      most 1,600,000 and at least 0.07 ROI. */
  lemma User101IsSearch(ls: seq<Listing>)
    ensures RecommendProperties(101, ls) == Search(ls, Criteria(Some(0.07), Some("Business Bay"), Some(1600000.0)))
  {
    RecommendAgreesWithSearch(UserPreferences[101], ls);
  }
}
