/** The display window: the filtered list is shown a page at a time, a prefix
    that grows by one page whenever more is asked for. */
module Pagination {

  /** Results added per page (`resultsPerPage`). */
  const PageSize: nat := 10

  function Min(a: int, b: int): int
  {
    if a <= b then a else b
  }

  /** `s.slice(start, end)` for non-negative bounds: each bound is clamped to
      the length, and an empty range gives the empty list. */
  function Slice<T>(s: seq<T>, start: nat, end: nat): (r: seq<T>)
    ensures |r| == if Min(end, |s|) <= Min(start, |s|) then 0 else Min(end, |s|) - Min(start, |s|)
    ensures forall i :: 0 <= i < |r| ==> r[i] == s[start + i]
  {
    var lo, hi := Min(start, |s|), Min(end, |s|);
    if hi <= lo then [] else s[lo..hi]
  }

  /** The window set by a recompute: `filtered.slice(0, resultsPerPage)`. */
  function FirstPage<T>(filtered: seq<T>): (w: seq<T>)
    ensures w <= filtered
    ensures |w| == Min(PageSize, |filtered|)
  {
    Slice(filtered, 0, PageSize)
  }

  /** `loadMoreResults`: nothing when everything is shown, otherwise the next
      slice of at most one page appended to what is shown. */
  function NextPage<T>(filtered: seq<T>, displayed: seq<T>): (w: seq<T>)
    ensures |displayed| >= |filtered| ==> w == displayed
    ensures displayed <= w && |w| <= |displayed| + PageSize
    ensures displayed <= filtered ==> w <= filtered && |w| == Min(|displayed| + PageSize, |filtered|)
  {
    if |displayed| >= |filtered| then displayed
    else displayed + Slice(filtered, |displayed|, |displayed| + PageSize)
  }

  /** The window after a recompute followed by `loads` calls of `loadMoreResults`. */
  function Window<T>(filtered: seq<T>, loads: nat): seq<T>
  {
    if loads == 0 then FirstPage(filtered)
    else NextPage(filtered, Window(filtered, loads - 1))
  }

  /** Each load shows one more page, until the whole list is shown. */
  lemma {:induction false} WindowAfterLoads<T>(filtered: seq<T>, loads: nat)
    ensures Window(filtered, loads) == filtered[..Min(PageSize * (loads + 1), |filtered|)]
  {
    if loads > 0 {
      WindowAfterLoads(filtered, loads - 1);
    }
  }

  /** Enough loads show the whole list, and from then on a load changes nothing. */
  lemma WindowCoversAll<T>(filtered: seq<T>, loads: nat)
    requires |filtered| <= PageSize * (loads + 1)
    ensures Window(filtered, loads) == filtered
    ensures NextPage(filtered, Window(filtered, loads)) == filtered
  {
    WindowAfterLoads(filtered, loads);
  }

  /** Twenty-five filtered results show as 10, 20, 25 and then 25 again. */
  lemma ScenarioTwentyFive<T>(filtered: seq<T>)
    requires |filtered| == 25
    ensures |Window(filtered, 0)| == 10
    ensures |Window(filtered, 1)| == 20
    ensures |Window(filtered, 2)| == 25 && Window(filtered, 2) == filtered
    ensures Window(filtered, 3) == filtered
  {
    WindowAfterLoads(filtered, 1);
    WindowAfterLoads(filtered, 2);
    WindowAfterLoads(filtered, 3);
  }
}
