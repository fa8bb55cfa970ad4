# Property search and recommendation: a Dafny model of the listing filter

This project models the core of a small real-estate listing service. The
service loads a catalogue of listings once. Its search endpoint
(`GET /properties/search`, `search_properties` in `main.py`) narrows the
catalogue by three optional criteria: a minimum expected ROI, an area that is
compared ignoring case, and a maximum cost. A batch routine
(`recommend_properties` in `recommend_property_by_user.py`) looks up a user's
stored preferences in a fixed table and applies the same three filters in
another order (area, then cost, then ROI).

Both source files are pure: each filter builds a new frame from the previous
one. So the model is made of datatypes, functions and lemmas:

- `wrappers.dfy`: `Option` and `Result`.
- `frames.dfy`, module `Frames`: pandas row selection by a boolean mask
  (`df[mask]`) as a generic `Filter` over sequences, and its laws. The laws
  cover subsequence, multiplicity, idempotence, commutation and conjunction of
  masks.
- `property_search.dfy`, module `PropertySearch` (`main.py`): the `Listing`
  record and the `Property` subset type with its field constraints, loading rows
  into properties, ASCII lowercasing, the criteria and the three filters, the
  search, and the endpoint with query validation.
- `recommendation.dfy`, module `Recommendation`
  (`recommend_property_by_user.py`): the preference table, the
  truthy-area rule, and the recommendation, proved equal to a search.

The two implementations differ in one place. `main.py` applies the area
filter whenever an area is given, even the empty string. The recommendation
applies it only when the stored area is truthy, so `""` means no preference.
`RecommendAgreesWithSearch` proves the two agree whenever the area is not
`""`. `EmptyAreaDiffersFromSearch` gives a listing on which they differ.

So the recommendation is the search's filter with one exception: a stored
area of `""` filters nothing, where a search for area `""` keeps only
listings whose area is empty.

## Model

| member | source | states |
|---|---|---|
| `Frames.Filter` | main.py:69-74 | selecting rows by a mask returns at most as many rows, and a row is in the result exactly when it is in the input and the mask accepts it |
| `Frames.FilterIsSubsequence` | main.py:69-74 | a selection is the input with some rows dropped, in the original order |
| `Frames.FilterCount` | main.py:69-74 | each accepted row keeps its multiplicity, each rejected row is gone: nothing is duplicated |
| `Frames.FilterIdempotent` | main.py:69-74 | selecting again by the same mask changes nothing |
| `Frames.FilterCommutes` | main.py:69-74 | two selections may run in either order |
| `Frames.FilterFilter` | main.py:69-74 | two successive selections are one selection by the conjunction of the masks |
| `PropertySearch.ConvertRows` | main.py:37-41 | rows become properties (`Property`, the listings satisfying `IsValidProperty`: the `gt=0`/`ge=0` constraints of main.py:22-23) in order; it succeeds exactly when every row has cost > 0 and expected ROI >= 0, and otherwise names the first bad row, all rows before it being valid |
| `PropertySearch.ConvertRowsOfProperties` | main.py:76-77 | rebuilding properties from the rows that survive the filters cannot fail and gives the same properties |
| `PropertySearch.Lower` | main.py:72 | lowercasing keeps the length, turns each upper-case ASCII letter into its lower-case letter, leaves no upper-case letter and changes nothing else (see also `LowerIdempotent`) |
| `PropertySearch.LowerIdempotent` | main.py:72 | lowercasing twice is lowercasing once |
| `PropertySearch.Matches` | main.py:69-74 | the reference test, written independently of the filters: a listing matches exactly when it passes the ROI, area and cost tests, an absent criterion passing everything (used by `SearchIsFilter`, `SearchSoundAndComplete`) |
| `PropertySearch.FilterRoi` | main.py:69-70 | with `roi` given, keeps exactly the listings whose expected ROI is at least `roi`; without it, returns the listings unchanged |
| `PropertySearch.FilterArea` | main.py:71-72 | with `area` given, keeps exactly the listings whose lowercased area equals the lowercased query; without it, returns the listings unchanged |
| `PropertySearch.FilterCost` | main.py:73-74 | with `cost` given, keeps exactly the listings costing at most `cost`; without it, returns the listings unchanged |
| `PropertySearch.Search` | main.py:69-74 | ROI, then area, then cost filtering returns a listing exactly when it is in the catalogue and `Matches` the criteria, is never longer than the catalogue, and with no criterion returns the catalogue (order and multiplicity in `SearchIsSubsequence`, idempotence in `SearchIdempotent`, filter order in `SearchInAnyOrder`) |
| `PropertySearch.StepIsFilter` | main.py:69-74 | each of the three filters selects the listings that pass it, and an absent criterion selects all of them |
| `PropertySearch.ApplyInOrderIsFilter` | main.py:69-74 | any sequence of filters selects exactly the listings that pass all of them |
| `PropertySearch.SearchIsFilter` | main.py:69-74 | the search is one selection by the conjunction of the present criteria |
| `PropertySearch.SearchSoundAndComplete` | main.py:69-74 | a listing is returned if and only if it is in the catalogue and meets every present criterion: ROI >= roi, lowercased area equal, cost <= cost |
| `PropertySearch.SearchIsSubsequence` | main.py:66-77 | the result keeps the catalogue's order, is never longer than the catalogue, and holds each matching listing as often as the catalogue does and no other |
| `PropertySearch.SearchWithoutCriteria` | main.py:69-79 | with no criterion the whole catalogue is returned in order |
| `PropertySearch.SearchIdempotent` | main.py:69-74 | searching the result again with the same criteria changes nothing |
| `PropertySearch.SearchInAnyOrder` | main.py:69-74 | running the filters in any order, each at least once, gives the search's result |
| `PropertySearch.SearchAreaIgnoresCase` | main.py:71-72 | two area queries with the same lowercase give the same result |
| `PropertySearch.SearchAreaLowercased` | main.py:71-72 | an area query and its lowercase give the same result |
| `PropertySearch.BusinessBayIgnoresCase` | main.py:58 | "business bay" and "Business Bay" give the same result |
| `PropertySearch.SearchKeepsProperties` | main.py:22-23 | every listing the search returns from valid properties has cost > 0 and expected ROI >= 0 |
| `PropertySearch.QueryErrors` | main.py:57-59 | `roi` is rejected exactly when it is below 0, and `cost` exactly when it is not above 0 |
| `PropertySearch.SearchProperties` | main.py:55-79 | the endpoint fails exactly on an invalid query, naming the bad parameters, and otherwise returns the search over the catalogue |
| `PropertySearch.SearchPropertiesAsWritten` | main.py:66-74 | as written, the endpoint agrees with `SearchProperties` on every non-empty catalogue and on every invalid query (the 422 comes first); on an empty catalogue a valid query fails on the column of the first criterion given (`expected_roi`, then `area`, then `cost`), and one without criteria answers an empty list |
| `PropertySearch.EmptyCatalogueMissingColumn` | main.py:66-70 | as written, an empty catalogue with `roi=0.05` fails on the missing `expected_roi` column, where the corrected endpoint answers an empty list |
| `PropertySearch.EmptyCatalogueAnswersEmpty` | main.py:66-79 | every valid query of an empty catalogue answers an empty list |
| `Recommendation.EffectiveArea` | recommend_property_by_user.py:42 | the area filter is used exactly when the stored area is truthy, present and not `""`, and then with the stored area itself |
| `Recommendation.Suits` | recommend_property_by_user.py:41-59 | a listing suits a preference exactly when it matches the search criteria the preference amounts to (effective area, maximum cost, minimum ROI) |
| `Recommendation.RecommendFor` | recommend_property_by_user.py:36-61 | area, then cost, then ROI filtering recommends a listing exactly when it is in the input and suits every set preference, and never returns more listings than it was given (order and multiplicity in `RecommendIsSubsequence`) |
| `Recommendation.RecommendProperties` | recommend_property_by_user.py:18-61 | a user id not in the table gets an empty result; a known user gets exactly the input listings that suit the stored preferences |
| `Recommendation.RecommendIsSearch` | recommend_property_by_user.py:41-59 | area, then cost, then ROI filtering equals the search with the preference's criteria, where the area counts only when it is truthy |
| `Recommendation.RecommendSoundAndComplete` | recommend_property_by_user.py:41-59 | a listing is recommended if and only if it is in the input and meets every preference that is set |
| `Recommendation.RecommendIsSubsequence` | recommend_property_by_user.py:39-61 | the recommendation keeps the input's order and holds each suitable listing as often as the input does and no other |
| `Recommendation.RecommendAgreesWithSearch` | recommend_property_by_user.py:42-59 | when the stored area is absent or non-empty, the recommendation equals the search for the same ROI, area and cost |
| `Recommendation.EmptyAreaIsNoPreference` | recommend_property_by_user.py:42 | an empty stored area gives the same result as no area preference |
| `Recommendation.EmptyAreaDiffersFromSearch` | recommend_property_by_user.py:42 | with area `""`, a listing in "JLT" is recommended but not found by the search |
| `Recommendation.RecommendAreaIgnoresCase` | recommend_property_by_user.py:43-47 | stored areas with the same lowercase give the same recommendation |
| `Recommendation.UnknownUserGetsNothing` | recommend_property_by_user.py:32-34 | a user id not in the table gets an empty recommendation |
| `Recommendation.KnownUsers` | recommend_property_by_user.py:8-16 | the preference table `UserPreferences` holds exactly users 101 to 107, so user 999 gets nothing from any catalogue; only users 104 and 107 have no area, only 106 and 107 no cost limit, only 107 no ROI floor |
| `Recommendation.User107GetsEverything` | recommend_property_by_user.py:15 | user 107, with no preferences, gets every listing in order |
| `Recommendation.User104IgnoresArea` | recommend_property_by_user.py:12 | user 104 gets exactly the listings costing at most 1,000,000 with ROI at least 0.07, whatever their area |
| `Recommendation.User101IsSearch` | recommend_property_by_user.py:9 | user 101 gets the search result for Business Bay, cost at most 1,600,000, ROI at least 0.07 |

## Findings

| source | as written | input that shows it | evidently intended | confidence | as-written member | corrected member |
|---|---|---|---|---|---|---|
| main.py:66-74 | an empty catalogue becomes `pd.DataFrame([])`, which has no columns, so the first filter's column lookup raises `KeyError` (HTTP 500) | an empty catalogue (a CSV with only its header) and the query `roi=0.05` | an empty list, as for any other query nothing matches | not executed | `PropertySearch.SearchPropertiesAsWritten` (shown by `PropertySearch.EmptyCatalogueMissingColumn`) | `PropertySearch.SearchProperties` (proved by `PropertySearch.EmptyCatalogueAnswersEmpty`) |

## Left out

- Reading the CSV file, the hard-coded paths, writing recommendations with `to_csv`, every `print`, and the `main` driver of the recommendation script are file and console I/O. The catalogue is an input `seq<Listing>`.
- request.py is an HTTP client with network I/O. It is not part of this model.
- FastAPI routing, Pydantic model machinery and JSON serialisation are library behaviour. Only their constraints are modelled: `QueryErrors` for `ge=0`/`gt=0` (main.py:57-59), and `Property` for `gt=0`/`ge=0` (main.py:22-23).
- `Listing` fields are already typed. So a cell that cannot be parsed as a number, and missing columns, are not modelled. This covers the column check at recommend_property_by_user.py:83-85, which always holds for typed records.
- `ConvertRows`: reports only the first invalid row. It does not list each field error the way Pydantic does.
- Costs and ROI are `real`. Floating-point rounding and the NaN that a blank numeric CSV cell produces are not modelled.
- Blank `description`/`address` cells also read as NaN, and how Pydantic then treats them depends on its version. They are modelled as `Option<string>`.
- `Lower`: changes only ASCII letters. Python's `str.lower` also folds other Unicode letters.
- `RecommendProperties`: for an unknown user, the source returns an empty frame that keeps the input's column names and prints an error message. The model returns an empty sequence.
- The input frame is copied, never changed: Dafny sequences are values, so this holds by construction.
- The uniqueness of listing ids is not enforced by the source and is not modelled.
- The DVC pipeline comment at the end of the recommendation script is not code.
