# AlgoSearch result pipeline, in Dafny

AlgoSearch's front end (`Frontend/src/App.jsx`) sends a free-text query to a
search endpoint and gets back a list of records, each the string
`"<link>*<title>"`. The page keeps the records whose link names a ticked
platform (LeetCode, CodeForces, CodeChef), shows the first ten of them, and
appends ten more each time a sentinel at the bottom of the list scrolls into
view. This project models that pipeline and proves its properties.

- `options.dfy` (`Options`): an optional value.
- `records.dfy` (`Records`): splitting a record on `*` (`split("*")`), the
  substring test (`includes`), the platform label chosen for a link, and the
  parsed item (link, title, platform) the page renders.
- `filtering.dfy` (`Filtering`): the three check boxes, the filter test on one
  record, and the order-preserving filter of a response's results.
- `pagination.dfy` (`Pagination`): `slice` with its clamping, the first page,
  `loadMoreResults` as a function, and the window after a number of loads.
- `session.dfy` (`Session`): the component's state as the class `SearchPage`.
  Its fields are the state hooks. Its methods are the events: typing, Search,
  response decoded, request failed, check box clicked, sentinel intersected.
  The filter effect becomes the method `Recompute`, called by every event that
  changes the response or the selection. `Valid()` is the invariant every
  event keeps. The filtered list is the filter of the current results. The
  shown list is a prefix of it, at least one page long or all of it, and a
  whole number of pages while more remain. While loading there is no response.

The network request, the JSON decoding and the viewport observer are not
modelled as code. A completed request is the event `ResponseArrived` with the
decoded body (whose `results` field may be absent). A failed one is
`ResponseFailed`. An observer notification is `SentinelIntersected` with its
`isIntersecting` flag.

Behaviour of the code the model keeps:
- a title containing `*` is cut at it, not rejoined (segment 1 only);
- a record without `*` is not skipped; its whole text is its link, and it is
  listed when that text names a ticked platform;
- there is no "unclassified" label; a link naming neither LeetCode nor
  CodeForces is labelled CodeChef;
- a link naming two platforms is listed under the ticked one but labelled with
  the first in the order LeetCode, CodeForces (`Filtering.LabelMayBeUnticked`);
- no response is ever rejected as stale; there is no session identity.

## Model

| member | source | states |
|---|---|---|
| `Records.FirstSegment` | Frontend/src/App.jsx:55 | the link is the longest prefix of the record free of `*`: a prefix, without `*`, and either the whole record or followed by `*` |
| `Records.Split` | Frontend/src/App.jsx:218 | `split("*")` gives at least one segment, none containing `*`, the first being the link |
| `Records.JoinSplit` | Frontend/src/App.jsx:218 | joining the segments with `*` gives the record back |
| `Records.SplitJoin` | Frontend/src/App.jsx:218 | splitting a `*`-join of `*`-free segments gives those segments |
| `Records.Classify` | Frontend/src/App.jsx:219-220 | the label is the first of LeetCode, CodeForces whose fragment occurs in the link, else CodeChef; no platform tested earlier matches; when some fragment occurs, the label's fragment occurs |
| `Records.Parse` | Frontend/src/App.jsx:218-220 | the item's link is the first segment; it has a title iff the record has a `*`; the title is the `*`-free text after the first `*`; the platform is the classification of the link |
| `Records.ParseUnparseParse` | Frontend/src/App.jsx:218 | parsing is stable: re-encoding a parsed item as `link*title` and parsing again gives the same item |
| `Records.UnparseParse` | Frontend/src/App.jsx:218 | a record with at most one `*` is recovered from its parse |
| `Records.TitleStopsAtSecondDelimiter` | Frontend/src/App.jsx:218 | the title of `https://codeforces.com/p3*A*B` is `A`: later segments are dropped |
| `Filtering.Flip` | Frontend/src/App.jsx:194 | a click flips the clicked platform's box and no other |
| `Filtering.AdmitsIff` | Frontend/src/App.jsx:55-60 | the filter test `Admits` (the three-way disjunction over `Contains`, which models `includes`) holds iff its link contains the fragment of some ticked platform |
| `Filtering.Filter` | Frontend/src/App.jsx:54-61 | the kept records all pass the test and are no more than the results |
| `Filtering.FilterConcat` | Frontend/src/App.jsx:54-61 | filtering a concatenation is the concatenation of the filtered parts; with the one-record case `FilterSingleton`, this fixes the filter as the order-preserving one |
| `Filtering.FilterMembership` | Frontend/src/App.jsx:54-61 | a record is kept iff it is among the results and passes the test |
| `Filtering.FilterSubsequence` | Frontend/src/App.jsx:54-61 | the kept records are a subsequence of the results, in their order |
| `Filtering.FilterNoneSelected` | Frontend/src/App.jsx:56-60 | with no box ticked nothing is kept |
| `Filtering.FilterIdempotent` | Frontend/src/App.jsx:54-61 | filtering the filtered list again changes nothing |
| `Filtering.FilterMonotone` | Frontend/src/App.jsx:56-60 | a wider selection keeps the records of a narrower one, as a subsequence |
| `Filtering.ToggleOnKeeps` | Frontend/src/App.jsx:56-60 | ticking a box never removes a kept record |
| `Filtering.ToggleOffDropsOnly` | Frontend/src/App.jsx:56-60 | unticking a box removes a record only if its link has the unticked fragment and no fragment of a box still ticked |
| `Filtering.AdmittedLabelSound` | Frontend/src/App.jsx:219-220 | for every record the filter keeps, the fragment of its label occurs in its link |
| `Filtering.LabelMayBeUnticked` | Frontend/src/App.jsx:219-220 | a link naming LeetCode and CodeForces, with only CodeForces ticked, is kept and labelled LeetCode |
| `Filtering.ScenarioOnlyLeetCode` | Frontend/src/App.jsx:54-61 | of a LeetCode and a CodeForces record, with LeetCode ticked, only the LeetCode one is kept, parsed as its link, title "Two Sum" and LeetCode |
| `Filtering.ScenarioNothingTicked` | Frontend/src/App.jsx:56-60 | the same records with nothing ticked: nothing is kept |
| `Filtering.ScenarioNoDelimiter` | Frontend/src/App.jsx:55 | a record without `*` naming no platform is dropped and the valid record beside it is kept |
| `Pagination.Slice` | Frontend/src/App.jsx:70-73 | `slice` has the clamped length and takes elements from the start index on |
| `Pagination.FirstPage` | Frontend/src/App.jsx:64 | the reset window is a prefix of the filtered list of length min(10, length) |
| `Pagination.NextPage` | Frontend/src/App.jsx:67-76 | nothing changes when all is shown; otherwise at most one page is appended, and a prefix of the filtered list of length n grows to one of length min(n + 10, length) |
| `Pagination.WindowAfterLoads` | Frontend/src/App.jsx:67-76 | after the reset and k loads the window is the prefix of length min(10(k + 1), length) |
| `Pagination.WindowCoversAll` | Frontend/src/App.jsx:68 | enough loads show the whole list, and loading again is a no-op |
| `Pagination.ScenarioTwentyFive` | Frontend/src/App.jsx:67-76 | with 25 filtered records the window has 10, 20, 25, then 25 records |
| `Session.SearchPage.constructor` | Frontend/src/App.jsx:5-15 | initial state: empty query, no response, not loading, only LeetCode ticked, empty lists |
| `Session.SearchPage.InputChanged` | Frontend/src/App.jsx:17-19 | typing sets the query and nothing else |
| `Session.SearchPage.Recompute` | Frontend/src/App.jsx:48-65 | with `response?.results` as `ResultsOf` and the filter of possibly absent results as `FilterResults`, the effect sets the filtered list to the filter of the current results (empty without results) and, when there are results, the window to the first page; it establishes the invariant |
| `Session.SearchPage.Submit` | Frontend/src/App.jsx:21-26 | Search clears the response and both lists and sets loading, and the request carries the query; the client method `FailedSearchShowsNothing` runs Search then a failure and finds nothing shown and no sentinel |
| `Session.SearchPage.ResponseArrived` | Frontend/src/App.jsx:38-43 | the decoded body is stored, loading ends, the list is the filter of its results and the window their first page; the client method `MissingResultsListsNothing` shows that a body without `results` lists nothing, even after a click |
| `Session.SearchPage.ResponseFailed` | Frontend/src/App.jsx:40-44 | a failure ends loading and leaves response absent and both lists empty |
| `Session.SearchPage.Toggle` | Frontend/src/App.jsx:194 | a click flips one box, recomputes the list and resets the window; ticking keeps the old list as a subsequence; unticking drops only records naming no box still ticked |
| `Session.SearchPage.LoadMore` | Frontend/src/App.jsx:67-76 | the window becomes the next page of the filtered list, keeping the invariant |
| `Session.SearchPage.SentinelIntersected` | Frontend/src/App.jsx:83-87 | an intersecting event loads one page only while more remain; any event adds at most one page |
| `Session.SearchPage.SentinelIffMore` | Frontend/src/App.jsx:250 | `SentinelPresent` (not loading, a non-empty shown list, fewer shown than filtered: lines 207, 214, 250) holds iff fewer records are shown than are filtered |
| `Session.SearchPage.DisplayedAdmitted` | Frontend/src/App.jsx:217-220 | every shown record passes the current filter, and its label's fragment occurs in its link |
| `Session.SearchPage.DisplayedIsWindow` | Frontend/src/App.jsx:63-76 | the shown list is always the window after the reset and some number of loads |

## Left out

- The `fetch` request, its headers and body, and `data.json()` (App.jsx:27-38): network and JSON I/O. They appear only as their outcome, a decoded body or a failure.
- The `IntersectionObserver`, its refs, its root and its 10% threshold (App.jsx:13-14, 79-96): a host capability. Only the notification and the guard at line 84 are modelled.
- `console.log` of the error (App.jsx:41), the platform table's logos, colours and URLs, and all markup (App.jsx:98-272 apart from the check-box toggle at 194, the split and label at 218-220 and the conditions at 207, 214 and 250).
- A decoded body whose `results` is not a list of strings: the model types `results` as an optional list of strings.
- Session.SearchPage.ResponseArrived: requires `isLoading`, like `ResponseFailed`. So a request that completes after another request's completion already cleared the spinner is not modelled. The code has no guard against such a late response. If it has no `results` field, the effect (App.jsx:49-51) empties the filtered list but keeps the window of the earlier response, so the shown list would stop being a prefix of the filtered one.
- Session.SearchPage.Recompute: requires that nothing is shown when the results are absent. Every reachable state of the model meets this; the code itself does not check it (see the previous line).
- Session.SearchPage.LoadMore: two observer notifications handled before React re-renders would both read the same stale length and append the same page twice. The model treats each notification as one atomic step.
- The Enter key in the search box (App.jsx:170) runs the same handler as the button, so it is the same `Submit` event.
