/** The platform filter: which results of a response are listed, given the
    three platform check boxes. */
module Filtering {
  import opened Options
  import opened Records

  /** The three check boxes; the page starts with only LeetCode ticked. */
  datatype Selection = Selection(leetCode: bool, codeForces: bool, codeChef: bool)

  const InitialSelection: Selection := Selection(true, false, false)

  function Selected(sel: Selection, p: Platform): bool
  {
    match p
    case LeetCode => sel.leetCode
    case CodeForces => sel.codeForces
    case CodeChef => sel.codeChef
  }

  /** Clicking the check box of `p`. */
  function Flip(sel: Selection, p: Platform): (sel': Selection)
    ensures Selected(sel', p) == !Selected(sel, p)
    ensures forall q :: q != p ==> Selected(sel', q) == Selected(sel, q)
  {
    match p
    case LeetCode => sel.(leetCode := !sel.leetCode)
    case CodeForces => sel.(codeForces := !sel.codeForces)
    case CodeChef => sel.(codeChef := !sel.codeChef)
  }

  /** The filter's test on one record: the link (the first segment) contains
      the fragment of a ticked platform. */
  predicate Admits(sel: Selection, rec: string)
  {
    var link := FirstSegment(rec);
    (sel.leetCode && Contains(link, "leetcode")) ||
    (sel.codeForces && Contains(link, "codeforces")) ||
    (sel.codeChef && Contains(link, "codechef"))
  }

  /** The test, stated per platform. */
  lemma AdmitsIff(sel: Selection, rec: string)
    ensures Admits(sel, rec) <==> exists p :: Selected(sel, p) && Contains(FirstSegment(rec), Fragment(p))
  {
    var link := FirstSegment(rec);
    if sel.leetCode && Contains(link, "leetcode") {
      assert Selected(sel, LeetCode) && Contains(link, Fragment(LeetCode));
    } else if sel.codeForces && Contains(link, "codeforces") {
      assert Selected(sel, CodeForces) && Contains(link, Fragment(CodeForces));
    } else if sel.codeChef && Contains(link, "codechef") {
      assert Selected(sel, CodeChef) && Contains(link, Fragment(CodeChef));
    }
  }

  /** `results.filter(...)`: the admitted records, in their original order. */
  function Filter(sel: Selection, results: seq<string>): (kept: seq<string>)
    ensures |kept| <= |results|
    ensures forall i :: 0 <= i < |kept| ==> Admits(sel, kept[i])
  {
    if results == [] then []
    else (if Admits(sel, results[0]) then [results[0]] else []) + Filter(sel, results[1..])
  }

  /** The filtered list when the response may lack its `results` field. */
  function FilterResults(sel: Selection, results: Option<seq<string>>): seq<string>
  {
    match results
    case None => []
    case Some(rs) => Filter(sel, rs)
  }

  /** `a` is `b` with some elements left out, the rest in the same order. */
  predicate IsSubsequence(a: seq<string>, b: seq<string>)
    decreases |b|
  {
    a == [] || (b != [] && ((a[0] == b[0] && IsSubsequence(a[1..], b[1..])) || IsSubsequence(a, b[1..])))
  }

  /** A single record is kept exactly when it passes the test. */
  lemma FilterSingleton(sel: Selection, x: string)
    ensures Filter(sel, [x]) == if Admits(sel, x) then [x] else []
  {
    assert [x][1..] == [];
  }

  /** Filtering a concatenation filters each part. */
  lemma {:induction false} FilterConcat(sel: Selection, a: seq<string>, b: seq<string>)
    ensures Filter(sel, a + b) == Filter(sel, a) + Filter(sel, b)
  {
    if a != [] {
      assert (a + b)[0] == a[0];
      assert (a + b)[1..] == a[1..] + b;
      FilterConcat(sel, a[1..], b);
      var head := if Admits(sel, a[0]) then [a[0]] else [];
      assert Filter(sel, a + b) == head + Filter(sel, a[1..] + b);
      assert Filter(sel, a) == head + Filter(sel, a[1..]);
    } else {
      assert a + b == b;
    }
  }

  /** A record is listed exactly when it is in the response and admitted. */
  lemma {:induction false} FilterMembership(sel: Selection, results: seq<string>, x: string)
    ensures x in Filter(sel, results) <==> x in results && Admits(sel, x)
  {
    if results != [] {
      FilterMembership(sel, results[1..], x);
      assert results == [results[0]] + results[1..];
    }
  }

  /** The filtered list keeps the response's order. */
  lemma {:induction false} FilterSubsequence(sel: Selection, results: seq<string>)
    ensures IsSubsequence(Filter(sel, results), results)
  {
    if results != [] {
      FilterSubsequence(sel, results[1..]);
      var rest := Filter(sel, results[1..]);
      if Admits(sel, results[0]) {
        assert Filter(sel, results) == [results[0]] + rest;
        assert ([results[0]] + rest)[1..] == rest;
      } else {
        assert Filter(sel, results) == rest;
      }
    }
  }

  /** With no box ticked nothing is listed. */
  lemma {:induction false} FilterNoneSelected(results: seq<string>)
    ensures Filter(Selection(false, false, false), results) == []
  {
    if results != [] {
      FilterNoneSelected(results[1..]);
    }
  }

  /** Filtering twice with one selection is filtering once. */
  lemma {:induction false} FilterIdempotent(sel: Selection, results: seq<string>)
    ensures Filter(sel, Filter(sel, results)) == Filter(sel, results)
  {
    if results != [] {
      FilterIdempotent(sel, results[1..]);
      var head := if Admits(sel, results[0]) then [results[0]] else [];
      FilterConcat(sel, head, Filter(sel, results[1..]));
    }
  }

  /** A subsequence of `b` stays a subsequence of `[x] + b`. */
  lemma SubsequenceCons(a: seq<string>, x: string, b: seq<string>)
    requires IsSubsequence(a, b)
    ensures IsSubsequence(a, [x] + b)
  {
    assert ([x] + b)[1..] == b;
  }

  /** Every selection at least as wide keeps the records a narrower one lists,
      in the same order. */
  lemma {:induction false} FilterMonotone(sel: Selection, wider: Selection, results: seq<string>)
    requires forall p :: Selected(sel, p) ==> Selected(wider, p)
    ensures IsSubsequence(Filter(sel, results), Filter(wider, results))
  {
    if results != [] {
      FilterMonotone(sel, wider, results[1..]);
      var x := results[0];
      var a, b := Filter(sel, results[1..]), Filter(wider, results[1..]);
      AdmitsIff(sel, x);
      AdmitsIff(wider, x);
      if Admits(sel, x) {
        assert Filter(sel, results) == [x] + a;
        assert Filter(wider, results) == [x] + b;
        assert ([x] + a)[1..] == a;
        assert ([x] + b)[1..] == b;
      } else if Admits(wider, x) {
        assert Filter(sel, results) == a;
        assert Filter(wider, results) == [x] + b;
        SubsequenceCons(a, x, b);
      } else {
        assert Filter(sel, results) == a;
        assert Filter(wider, results) == b;
      }
    }
  }

  /** Ticking a box never drops a listed record. */
  lemma ToggleOnKeeps(sel: Selection, p: Platform, results: seq<string>)
    requires !Selected(sel, p)
    ensures IsSubsequence(Filter(sel, results), Filter(Flip(sel, p), results))
    ensures forall x :: x in Filter(sel, results) ==> x in Filter(Flip(sel, p), results)
  {
    FilterMonotone(sel, Flip(sel, p), results);
    forall x | x in Filter(sel, results)
      ensures x in Filter(Flip(sel, p), results)
    {
      FilterMembership(sel, results, x);
      FilterMembership(Flip(sel, p), results, x);
      AdmitsIff(sel, x);
      AdmitsIff(Flip(sel, p), x);
    }
  }

  /** Unticking a box drops a listed record only when its link contains the
      fragment of no platform that stays ticked. */
  lemma ToggleOffDropsOnly(sel: Selection, p: Platform, results: seq<string>, x: string)
    requires Selected(sel, p)
    requires x in Filter(sel, results) && x !in Filter(Flip(sel, p), results)
    ensures Contains(FirstSegment(x), Fragment(p))
    ensures forall q :: Selected(Flip(sel, p), q) ==> !Contains(FirstSegment(x), Fragment(q))
  {
    FilterMembership(sel, results, x);
    FilterMembership(Flip(sel, p), results, x);
    AdmitsIff(sel, x);
    AdmitsIff(Flip(sel, p), x);
  }

  /** The label shown for an admitted record names a platform whose fragment
      occurs in its link; it need not be a ticked one (see below). */
  lemma AdmittedLabelSound(sel: Selection, rec: string)
    requires Admits(sel, rec)
    ensures Contains(Parse(rec).link, Fragment(Parse(rec).platform))
  {
    AdmitsIff(sel, rec);
  }

  /** Filtering two records, spelled out. */
  lemma FilterTwo(sel: Selection, x: string, y: string)
    ensures Filter(sel, [x, y]) == (if Admits(sel, x) then [x] else []) + (if Admits(sel, y) then [y] else [])
  {
    assert [x, y][1..] == [y];
    assert [y][1..] == [];
  }

  /** The link "https://leetcode.com/p1" names LeetCode. */
  lemma LeetCodeLink(link: string)
    requires link == "https://leetcode.com/p1"
    ensures Contains(link, "leetcode")
  {
    assert link == "https://" + "leetcode" + ".com/p1";
    ContainsMiddle("https://", "leetcode", ".com/p1");
  }

  /** The record "https://leetcode.com/p1*Two Sum", parsed. */
  lemma LeetCodeRecord(rec: string)
    requires rec == "https://leetcode.com/p1*Two Sum"
    ensures FirstSegment(rec) == "https://leetcode.com/p1"
    ensures Contains(FirstSegment(rec), "leetcode")
    ensures Parse(rec) == ParsedItem("https://leetcode.com/p1", Some("Two Sum"), LeetCode)
  {
    var link := "https://leetcode.com/p1";
    assert link + [Delimiter] + "Two Sum" == rec;
    ParseRecord(rec, link, "Two Sum");
    LeetCodeLink(link);
  }

  /** The link "https://codeforces.com/p2" does not name LeetCode. */
  lemma CodeForcesLink(link: string)
    requires link == "https://codeforces.com/p2"
    ensures !Contains(link, "leetcode")
  {
    MissingCharNotContained(link, "leetcode", 'l');
  }

  /** The record "https://codeforces.com/p2*B. Problem" is not a LeetCode one. */
  lemma CodeForcesRecord(rec: string)
    requires rec == "https://codeforces.com/p2*B. Problem"
    ensures !Contains(FirstSegment(rec), "leetcode")
  {
    var link := "https://codeforces.com/p2";
    assert link + [Delimiter] + "B. Problem" == rec;
    ParseRecord(rec, link, "B. Problem");
    CodeForcesLink(link);
  }

  /** The record "no-delimiter-here" is its own link and names no platform. */
  lemma NoDelimiterRecord(rec: string)
    requires rec == "no-delimiter-here"
    ensures forall sel :: !Admits(sel, rec)
  {
    SplitJoin([rec]);
    MissingCharNotContained(rec, "leetcode", 'c');
    MissingCharNotContained(rec, "codeforces", 'c');
    MissingCharNotContained(rec, "codechef", 'c');
  }

  /** The link "https://leetcode.com/codeforces" names two platforms. */
  lemma TwoPlatformLink(link: string)
    requires link == "https://leetcode.com/codeforces"
    ensures Contains(link, "leetcode") && Contains(link, "codeforces")
  {
    assert link == "https://" + "leetcode" + ".com/codeforces";
    ContainsMiddle("https://", "leetcode", ".com/codeforces");
    assert link == "https://leetcode.com/" + "codeforces" + "";
    ContainsMiddle("https://leetcode.com/", "codeforces", "");
  }

  /** A link naming two platforms is listed under the ticked one and labelled
      with the one tested first. */
  lemma LabelMayBeUnticked(rec: string)
    requires rec == "https://leetcode.com/codeforces*X"
    ensures Admits(Selection(false, true, false), rec)
    ensures Parse(rec).platform == LeetCode
  {
    var link := "https://leetcode.com/codeforces";
    assert link + [Delimiter] + "X" == rec;
    ParseRecord(rec, link, "X");
    TwoPlatformLink(link);
  }

  /** One LeetCode result and one CodeForces result, only LeetCode ticked: the
      LeetCode result alone is listed, with its link, title and label. */
  lemma ScenarioOnlyLeetCode(r1: string, r2: string)
    requires r1 == "https://leetcode.com/p1*Two Sum"
    requires r2 == "https://codeforces.com/p2*B. Problem"
    ensures Filter(InitialSelection, [r1, r2]) == [r1]
    ensures Parse(r1) == ParsedItem("https://leetcode.com/p1", Some("Two Sum"), LeetCode)
  {
    LeetCodeRecord(r1);
    CodeForcesRecord(r2);
    FilterTwo(InitialSelection, r1, r2);
  }

  /** The same results with no box ticked: nothing is listed. */
  lemma ScenarioNothingTicked(r1: string, r2: string)
    requires r1 == "https://leetcode.com/p1*Two Sum"
    requires r2 == "https://codeforces.com/p2*B. Problem"
    ensures Filter(Selection(false, false, false), [r1, r2]) == []
  {
    FilterNoneSelected([r1, r2]);
  }

  /** A record without a delimiter is tested on its whole text: one that names no
      platform is dropped and the valid record beside it is still listed. */
  lemma ScenarioNoDelimiter(sel: Selection, bad: string, r1: string)
    requires sel.leetCode
    requires bad == "no-delimiter-here"
    requires r1 == "https://leetcode.com/p1*Two Sum"
    ensures Filter(sel, [bad, r1]) == [r1]
  {
    NoDelimiterRecord(bad);
    LeetCodeRecord(r1);
    FilterTwo(sel, bad, r1);
  }
}
