/** The search page's state: the query, the last decoded response, the loading
    flag, the three platform check boxes, the filtered list and the shown
    window, and the events that change them. The React state hooks become the
    fields of one object; the filter effect becomes the explicit step
    `Recompute`, run after every event that changes the response or the
    selection. */
module Session {
  import opened Options
  import opened Records
  import opened Filtering
  import opened Pagination

  /** The decoded body of a search response; only its `results` field is read. */
  datatype Response = Response(results: Option<seq<string>>)

  /** `response?.results`: absent when there is no response or no such field. */
  function ResultsOf(response: Option<Response>): Option<seq<string>>
  {
    match response
    case None => None
    case Some(r) => r.results
  }

  class SearchPage {
    var query: string
    var response: Option<Response>
    var isLoading: bool
    var leetCodeSelected: bool
    var codeForcesSelected: bool
    var codeChefSelected: bool
    var filtered: seq<string>
    var displayed: seq<string>

    function CurrentSelection(): Selection
      reads this
    {
      Selection(leetCodeSelected, codeForcesSelected, codeChefSelected)
    }

    /** What every event keeps: the filtered list is the filter of the current
        response under the current selection; the shown list is a prefix of
        it, at least a page long (or all of it), and a whole number of pages
        while more remain; and while loading there is no response. */
    ghost predicate Valid()
      reads this
    {
      && filtered == FilterResults(CurrentSelection(), ResultsOf(response))
      && displayed <= filtered
      && Min(PageSize, |filtered|) <= |displayed|
      && (|displayed| < |filtered| ==> |displayed| % PageSize == 0)
      && (isLoading ==> response == None)
    }

    /** The load-more sentinel is rendered: the page is not loading, the list
        is shown because it is not empty, and more filtered results remain. */
    predicate SentinelPresent()
      reads this
    {
      !isLoading && 0 < |displayed| && |displayed| < |filtered|
    }

    constructor ()
      ensures Valid()
      ensures query == "" && response == None && !isLoading
      ensures CurrentSelection() == InitialSelection
      ensures filtered == [] && displayed == []
    {
      query := "";
      response := None;
      isLoading := false;
      leetCodeSelected, codeForcesSelected, codeChefSelected := true, false, false;
      filtered, displayed := [], [];
    }

    /** Typing in the search box. */
    method InputChanged(text: string)
      requires Valid()
      modifies this`query
      ensures Valid() && query == text
    {
      query := text;
    }

    /** The filter effect. With no results it empties the filtered list and
        leaves the shown list alone; otherwise it filters the results and
        shows their first page. */
    method Recompute()
      requires isLoading ==> response == None
      requires ResultsOf(response).None? ==> displayed == []
      modifies this`filtered, this`displayed
      ensures Valid()
      ensures filtered == FilterResults(CurrentSelection(), ResultsOf(response))
      ensures displayed == if ResultsOf(response).Some? then FirstPage(filtered) else old(displayed)
    {
      match ResultsOf(response)
      case None =>
        filtered := [];
      case Some(rs) =>
        filtered := Filter(CurrentSelection(), rs);
        displayed := FirstPage(filtered);
    }

    /** Pressing Search: the previous session is cleared before the request
        carrying the query goes out. */
    method Submit() returns (request: string)
      requires Valid()
      modifies this`response, this`isLoading, this`filtered, this`displayed
      ensures Valid()
      ensures request == query
      ensures response == None && isLoading
      ensures filtered == [] && displayed == []
    {
      response := None;
      isLoading := true;
      displayed := [];
      filtered := [];
      request := query;
      Recompute();
    }

    /** The request completed and its body decoded: the response is stored,
        loading ends, and the effect lists the first page of the filter. */
    method ResponseArrived(decoded: Response)
      requires Valid() && isLoading
      modifies this`response, this`isLoading, this`filtered, this`displayed
      ensures Valid()
      ensures response == Some(decoded) && !isLoading
      ensures filtered == FilterResults(CurrentSelection(), decoded.results)
      ensures displayed == FirstPage(filtered)
    {
      response := Some(decoded);
      isLoading := false;
      Recompute();
    }

    /** The request or the decoding failed: loading ends and nothing else
        changes, so the response stays absent and the list stays empty. */
    method ResponseFailed()
      requires Valid() && isLoading
      modifies this`isLoading
      ensures Valid() && !isLoading
      ensures response == None && filtered == [] && displayed == []
    {
      isLoading := false;
    }

    /** Clicking the check box of `p`; the effect then recomputes the list.
        Ticking keeps every listed record in order; unticking drops only
        records whose link names no platform that stays ticked. */
    method Toggle(p: Platform)
      requires Valid()
      modifies this`leetCodeSelected, this`codeForcesSelected, this`codeChefSelected, this`filtered, this`displayed
      ensures Valid()
      ensures CurrentSelection() == Flip(old(CurrentSelection()), p)
      ensures displayed == FirstPage(filtered)
      ensures !Selected(old(CurrentSelection()), p) ==> IsSubsequence(old(filtered), filtered)
      ensures Selected(old(CurrentSelection()), p) ==>
        forall x :: x in old(filtered) && x !in filtered ==>
          forall q :: Selected(CurrentSelection(), q) ==> !Contains(FirstSegment(x), Fragment(q))
    {
      ghost var sel := CurrentSelection();
      match p {
        case LeetCode => leetCodeSelected := !leetCodeSelected;
        case CodeForces => codeForcesSelected := !codeForcesSelected;
        case CodeChef => codeChefSelected := !codeChefSelected;
      }
      assert CurrentSelection() == Flip(sel, p);
      Recompute();
      match ResultsOf(response)
      case None =>
        assert filtered == [] && old(filtered) == [];
      case Some(rs) =>
        if !Selected(sel, p) {
          ToggleOnKeeps(sel, p, rs);
        } else {
          forall x | x in old(filtered) && x !in filtered
            ensures forall q :: Selected(CurrentSelection(), q) ==> !Contains(FirstSegment(x), Fragment(q))
          {
            ToggleOffDropsOnly(sel, p, rs, x);
          }
        }
    }

    /** `loadMoreResults`: when more remain, the next page is appended. */
    method LoadMore()
      requires Valid()
      modifies this`displayed
      ensures Valid()
      ensures displayed == NextPage(filtered, old(displayed))
    {
      if |displayed| >= |filtered| {
        return;
      }
      var nextBatch := Slice(filtered, |displayed|, |displayed| + PageSize);
      displayed := displayed + nextBatch;
    }

    /** The observer callback: an intersecting sentinel loads one more page,
        and only while more remain. */
    method SentinelIntersected(isIntersecting: bool)
      requires Valid()
      modifies this`displayed
      ensures Valid()
      ensures displayed == if isIntersecting && |old(displayed)| < |filtered| then NextPage(filtered, old(displayed)) else old(displayed)
      ensures |old(displayed)| <= |displayed| <= |old(displayed)| + PageSize
    {
      if isIntersecting && |displayed| < |filtered| {
        LoadMore();
      }
    }

    /** The sentinel, and with it any further load, is there exactly when more
        filtered results remain than are shown. */
    lemma SentinelIffMore()
      requires Valid()
      ensures SentinelPresent() <==> |displayed| < |filtered|
    {
      if |displayed| < |filtered| {
        assert !isLoading;
        assert Min(PageSize, |filtered|) >= 1;
      }
    }

    /** Every shown record passes the filter, and the label shown for it names
        a platform whose fragment occurs in its link. */
    lemma DisplayedAdmitted()
      requires Valid()
      ensures forall i :: 0 <= i < |displayed| ==> Admits(CurrentSelection(), displayed[i])
      ensures forall i :: 0 <= i < |displayed| ==> Contains(Parse(displayed[i]).link, Fragment(Parse(displayed[i]).platform))
    {
      forall i | 0 <= i < |displayed|
        ensures Admits(CurrentSelection(), displayed[i])
        ensures Contains(Parse(displayed[i]).link, Fragment(Parse(displayed[i]).platform))
      {
        assert displayed[i] == filtered[i];
        AdmittedLabelSound(CurrentSelection(), displayed[i]);
      }
    }

    /** The shown list is always the window after some number of loads. */
    lemma DisplayedIsWindow()
      requires Valid()
      ensures exists loads: nat :: displayed == Window(filtered, loads)
    {
      var n := |filtered|;
      var d := |displayed|;
      var loads: nat := if d < n then d / PageSize - 1 else n / PageSize;
      WindowAfterLoads(filtered, loads);
      assert displayed == filtered[..d];
      if d < n {
        assert d == PageSize * (loads + 1);
      } else {
        assert n <= PageSize * (loads + 1);
      }
    }
  }

  /** A failed search leaves nothing to show. */
  method FailedSearchShowsNothing()
  {
    var page := new SearchPage();
    page.InputChanged("two sum");
    var request := page.Submit();
    assert request == "two sum";
    page.ResponseFailed();
    assert page.response == None && page.filtered == [] && page.displayed == [];
    assert !page.SentinelPresent();
  }

  /** A response without a `results` field lists nothing, whatever is ticked. */
  method MissingResultsListsNothing()
  {
    var page := new SearchPage();
    var _ := page.Submit();
    page.ResponseArrived(Response(None));
    page.Toggle(CodeChef);
    assert page.filtered == [] && page.displayed == [];
  }
}
