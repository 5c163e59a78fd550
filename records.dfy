/** Result records: a search result is one string "<link>*<title>". This module
    models how the page splits such a string, tests for substrings and infers the
    platform that is shown beside each result. */
module Records {
  import opened Options

  const Delimiter: char := '*'

  /** The longest prefix of `s` that holds no delimiter; this is what
      `s.split("*")[0]` yields, and the whole of `s` when it has no delimiter. */
  function FirstSegment(s: string): (link: string)
    ensures link <= s
    ensures Delimiter !in link
    ensures |link| == |s| || s[|link|] == Delimiter
  {
    if |s| == 0 || s[0] == Delimiter then ""
    else [s[0]] + FirstSegment(s[1..])
  }

  /** The three conditions above single out one prefix. */
  lemma FirstSegmentUnique(s: string, p: string)
    requires p <= s && Delimiter !in p
    requires |p| == |s| || s[|p|] == Delimiter
    ensures FirstSegment(s) == p
  {
  }

  /** `s.split("*")`: the segments between delimiters, at least one. */
  function Split(s: string): (parts: seq<string>)
    ensures |parts| >= 1 && parts[0] == FirstSegment(s)
    ensures forall i :: 0 <= i < |parts| ==> Delimiter !in parts[i]
    decreases |s|
  {
    var link := FirstSegment(s);
    if |link| == |s| then [s]
    else [link] + Split(s[|link| + 1..])
  }

  /** The segments joined back with the delimiter between them. */
  function Join(parts: seq<string>): string
    requires |parts| >= 1
  {
    if |parts| == 1 then parts[0]
    else parts[0] + [Delimiter] + Join(parts[1..])
  }

  lemma JoinCons(head: string, parts: seq<string>)
    requires |parts| >= 1
    ensures Join([head] + parts) == head + [Delimiter] + Join(parts)
  {
    assert ([head] + parts)[1..] == parts;
  }

  /** A record with a delimiter is its link, the delimiter and the rest. */
  lemma SplitCons(s: string)
    requires |FirstSegment(s)| < |s|
    ensures s == FirstSegment(s) + [Delimiter] + s[|FirstSegment(s)| + 1..]
    ensures Split(s) == [FirstSegment(s)] + Split(s[|FirstSegment(s)| + 1..])
  {
    var link := FirstSegment(s);
    assert s == s[..|link|] + [s[|link|]] + s[|link| + 1..];
  }

  /** Splitting loses nothing: joining the segments gives the record back. */
  lemma {:induction false} JoinSplit(s: string)
    ensures Join(Split(s)) == s
    decreases |s|
  {
    var link := FirstSegment(s);
    if |link| < |s| {
      var rest := s[|link| + 1..];
      SplitCons(s);
      JoinSplit(rest);
      JoinCons(link, Split(rest));
    } else {
      assert Split(s) == [s];
    }
  }

  /** Splitting a join of delimiter-free segments gives those segments. */
  lemma {:induction false} SplitJoin(parts: seq<string>)
    requires |parts| >= 1
    requires forall i :: 0 <= i < |parts| ==> Delimiter !in parts[i]
    ensures Split(Join(parts)) == parts
  {
    var s := Join(parts);
    if |parts| == 1 {
      FirstSegmentUnique(s, parts[0]);
    } else {
      var rest := Join(parts[1..]);
      assert s == parts[0] + [Delimiter] + rest;
      FirstSegmentUnique(s, parts[0]);
      assert s[|parts[0]| + 1..] == rest;
      SplitJoin(parts[1..]);
    }
  }

  /** A record with one delimiter is its link and its title. */
  lemma SplitPair(link: string, title: string)
    requires Delimiter !in link && Delimiter !in title
    ensures Split(link + [Delimiter] + title) == [link, title]
  {
    assert Join([link, title]) == link + [Delimiter] + title;
    SplitJoin([link, title]);
  }

  /** `frag` occurs in `s` starting at index `i`. */
  predicate OccursAt(s: string, frag: string, i: int)
  {
    0 <= i && i + |frag| <= |s| && s[i..i + |frag|] == frag
  }

  /** `s.includes(frag)`: `frag` occurs somewhere in `s` (the empty fragment
      occurs everywhere). */
  predicate Contains(s: string, frag: string)
  {
    exists i :: 0 <= i <= |s| - |frag| && OccursAt(s, frag, i)
  }

  /** A fragment with a character that `s` lacks does not occur in `s`. */
  lemma MissingCharNotContained(s: string, frag: string, c: char)
    requires c in frag && c !in s
    ensures !Contains(s, frag)
  {
    var k :| 0 <= k < |frag| && frag[k] == c;
    forall i | 0 <= i && i + |frag| <= |s|
      ensures !OccursAt(s, frag, i)
    {
      assert s[i..i + |frag|][k] == s[i + k];
      assert s[i + k] in s;
    }
  }

  /** A fragment occurring at a known index is found by the scan. */
  lemma OccursContained(s: string, frag: string, i: int)
    requires OccursAt(s, frag, i)
    ensures Contains(s, frag)
  {
  }

  /** A fragment glued between two strings occurs in the result. */
  lemma ContainsMiddle(a: string, frag: string, b: string)
    ensures Contains(a + frag + b, frag)
  {
    var s := a + frag + b;
    assert s[|a|..|a| + |frag|] == frag;
    OccursContained(s, frag, |a|);
  }

  /** The judges a result can come from, in the order the page tests them. */
  datatype Platform = LeetCode | CodeForces | CodeChef

  /** The substring of a link that marks a platform. */
  function Fragment(p: Platform): string
  {
    match p
    case LeetCode => "leetcode"
    case CodeForces => "codeforces"
    case CodeChef => "codechef"
  }

  /** Position of a platform in the order of the tests. */
  function Rank(p: Platform): nat
  {
    match p
    case LeetCode => 0
    case CodeForces => 1
    case CodeChef => 2
  }

  /** The platform shown for a link: the first of LeetCode and CodeForces whose
      fragment occurs in it, and CodeChef when neither does (whether or not
      "codechef" occurs). */
  function Classify(link: string): (p: Platform)
    ensures forall q :: Rank(q) < Rank(p) ==> !Contains(link, Fragment(q))
    ensures p != CodeChef ==> Contains(link, Fragment(p))
    ensures forall q :: Contains(link, Fragment(q)) ==> Rank(p) <= Rank(q) && Contains(link, Fragment(p))
  {
    if Contains(link, "leetcode") then LeetCode
    else if Contains(link, "codeforces") then CodeForces
    else CodeChef
  }

  /** A result as the page renders it: segment 0 is the link, segment 1 the
      title (absent when the record has no delimiter); later segments are
      dropped. */
  datatype ParsedItem = ParsedItem(link: string, title: Option<string>, platform: Platform)

  function Parse(rec: string): (item: ParsedItem)
    ensures item.link == FirstSegment(rec)
    ensures item.title.Some? <==> Delimiter in rec
    ensures item.title.Some? ==> item.title.value == FirstSegment(rec[|item.link| + 1..])
    ensures item.platform == Classify(item.link)
  {
    var parts := Split(rec);
    var title := if |parts| > 1 then Some(parts[1]) else None;
    assert Delimiter !in rec ==> |parts| == 1 by {
      if |FirstSegment(rec)| < |rec| {
        assert rec[|FirstSegment(rec)|] in rec;
      }
    }
    ParsedItem(parts[0], title, Classify(parts[0]))
  }

  /** The record a parsed item would come from. */
  function Unparse(item: ParsedItem): string
  {
    match item.title
    case None => item.link
    case Some(t) => item.link + [Delimiter] + t
  }

  /** Parsing is stable: re-encoding a parsed item and parsing it again gives
      the same item. */
  lemma ParseUnparseParse(rec: string)
    ensures Parse(Unparse(Parse(rec))) == Parse(rec)
  {
    var parts := Split(rec);
    var item := Parse(rec);
    if |parts| > 1 {
      SplitPair(parts[0], parts[1]);
    } else {
      SplitJoin([item.link]);
    }
  }

  /** A record with at most one delimiter is recovered from its parse. */
  lemma UnparseParse(rec: string)
    requires |Split(rec)| <= 2
    ensures Unparse(Parse(rec)) == rec
  {
    JoinSplit(rec);
    var parts := Split(rec);
    if |parts| == 2 {
      assert Join(parts) == parts[0] + [Delimiter] + parts[1];
    }
  }

  /** A record built from a link and a title parses back to them. */
  lemma ParseRecord(rec: string, link: string, title: string)
    requires Delimiter !in link && Delimiter !in title
    requires rec == link + [Delimiter] + title
    ensures FirstSegment(rec) == link
    ensures Parse(rec) == ParsedItem(link, Some(title), Classify(link))
  {
    SplitPair(link, title);
  }

  /** Titles holding the delimiter are cut at it, not rejoined. */
  lemma TitleStopsAtSecondDelimiter()
    ensures Parse("https://codeforces.com/p3*A*B").title == Some("A")
  {
    var s := "https://codeforces.com/p3*A*B";
    assert Join(["https://codeforces.com/p3", "A", "B"]) == s;
    SplitJoin(["https://codeforces.com/p3", "A", "B"]);
  }
}
