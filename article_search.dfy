/**
 * The keyword search over the site's article list: the four articles, the
 * match test (the lower-cased query must occur in the lower-cased title,
 * summary, or tags joined by one space) and the order-preserving filter,
 * with the properties the search page relies on.
 */
module ArticleSearch {
  import opened Text

  /** One entry of the article list. The date is kept as its literal text. */
  datatype Article = Article(id: nat, title: string, tags: seq<string>, summary: string, date: string)

  /** The fixed article list shown by the search page, in its source order. */
  const Articles: seq<Article> := [
    Article(1, "How Governments Are Adopting the AU Continental AI Strategy (2024–2025)",
      ["Policy", "Africa", "Strategy"],
      "A roundup of national AI strategy updates across Africa, tracking readiness, funding, and implementation gaps.",
      "2025-09-28"),
    Article(2, "Model Evaluations 101: From Red-Team Drills to Societal Impact Checks",
      ["Safety", "Evaluation", "Governance"],
      "Explains capability, safety, and socio-technical evals with a lightweight checklist teams can start using today.",
      "2025-08-19"),
    Article(3, "Inclusive by Design: Localization Tactics for Low-Power Agri-LLMs",
      ["Inclusion", "Localization", "Agriculture"],
      "Concrete practices for building localized assistants that work for small-scale producers and rural contexts.",
      "2025-07-12"),
    Article(4, "The DPI Angle: Interoperability, Open Standards, and Accountability",
      ["DPI", "Open Standards", "Accountability"],
      "Why digital public infrastructure matters for scalable, responsible AI systems in the public sector.",
      "2025-06-30")
  ]

  /** The three texts a query is tested against, in the order they are tried. */
  function SearchFields(a: Article): seq<string> {
    [a.title, a.summary, Join(a.tags, " ")]
  }

  /** Whether `a` is kept for `query`: the lower-cased query is included in one lower-cased field. */
  function Matches(a: Article, query: string): (b: bool)
    ensures query == "" ==> b
    ensures b ==> |query| <= |a.title| || |query| <= |a.summary| || |query| <= |Join(a.tags, " ")|
  {
    var q := LowerStr(query);
    Includes(LowerStr(a.title), q)
      || Includes(LowerStr(a.summary), q)
      || Includes(LowerStr(Join(a.tags, " ")), q)
  }

  /** `Matches` stated with the index-based reference definition of a substring. */
  lemma MatchesIff(a: Article, query: string)
    ensures Matches(a, query) <==>
      exists f :: f in SearchFields(a) && Occurs(LowerStr(f), LowerStr(query))
  {
    var q := LowerStr(query);
    IncludesIff(LowerStr(a.title), q);
    IncludesIff(LowerStr(a.summary), q);
    IncludesIff(LowerStr(Join(a.tags, " ")), q);
    var fields := SearchFields(a);
    if Matches(a, query) {
      var k := if Includes(LowerStr(a.title), q) then 0
               else if Includes(LowerStr(a.summary), q) then 1 else 2;
      assert fields[k] in fields && Occurs(LowerStr(fields[k]), q);
    }
    if exists f :: f in fields && Occurs(LowerStr(f), q) {
      var f :| f in fields && Occurs(LowerStr(f), q);
      assert f == fields[0] || f == fields[1] || f == fields[2];
    }
  }

  /**
   * The articles of `xs` that match `query`, in their original order.
   * Exactly the matching articles of `xs` are members of the result.
   */
  function Filter(xs: seq<Article>, query: string): (r: seq<Article>)
    ensures |r| <= |xs|
    ensures forall a :: a in r <==> a in xs && Matches(a, query)
  {
    if xs == [] then []
    else if Matches(xs[0], query) then [xs[0]] + Filter(xs[1..], query)
    else Filter(xs[1..], query)
  }

  /** `ys` can be obtained from `xs` by deleting elements, without reordering or repeating any. */
  ghost predicate IsSubsequence(ys: seq<Article>, xs: seq<Article>)
    decreases |xs|
  {
    if ys == [] then true
    else if xs == [] then false
    else (ys[0] == xs[0] && IsSubsequence(ys[1..], xs[1..])) || IsSubsequence(ys, xs[1..])
  }

  /** The filter adds nothing, duplicates nothing and keeps the original order. */
  lemma {:induction false} FilterIsSubsequence(xs: seq<Article>, query: string)
    ensures IsSubsequence(Filter(xs, query), xs)
  {
    if xs != [] {
      FilterIsSubsequence(xs[1..], query);
      var r := Filter(xs, query);
      if Matches(xs[0], query) {
        assert r[0] == xs[0] && r[1..] == Filter(xs[1..], query);
      }
    }
  }

  /** Each article keeps all its occurrences when it matches, and loses all of them when not. */
  lemma {:induction false} FilterCounts(xs: seq<Article>, query: string, a: Article)
    ensures multiset(Filter(xs, query))[a] == if Matches(a, query) then multiset(xs)[a] else 0
  {
    if xs != [] {
      FilterCounts(xs[1..], query, a);
      var rest := Filter(xs[1..], query);
      assert xs == [xs[0]] + xs[1..];
      assert multiset(xs) == multiset{xs[0]} + multiset(xs[1..]);
      if Matches(xs[0], query) {
        assert multiset(Filter(xs, query)) == multiset{xs[0]} + multiset(rest);
      } else {
        assert Filter(xs, query) == rest;
      }
    }
  }

  /** Filtering a list that starts with `x` keeps `x` when it matches, then filters the rest. */
  lemma FilterCons(x: Article, xs: seq<Article>, query: string)
    ensures Filter([x] + xs, query) == (if Matches(x, query) then [x] else []) + Filter(xs, query)
  {
    assert ([x] + xs)[0] == x && ([x] + xs)[1..] == xs;
  }

  /** Filtering a concatenation filters each part and concatenates the results. */
  lemma {:induction false} FilterAppend(xs: seq<Article>, ys: seq<Article>, query: string)
    ensures Filter(xs + ys, query) == Filter(xs, query) + Filter(ys, query)
  {
    if xs == [] {
      assert xs + ys == ys;
    } else {
      var x, tail := xs[0], xs[1..];
      var kept := if Matches(x, query) then [x] else [];
      calc {
        Filter(xs + ys, query);
        == { assert xs + ys == [x] + (tail + ys); FilterCons(x, tail + ys, query); }
        kept + Filter(tail + ys, query);
        == { FilterAppend(tail, ys, query); }
        kept + (Filter(tail, query) + Filter(ys, query));
        ==
        (kept + Filter(tail, query)) + Filter(ys, query);
        == { assert xs == [x] + tail; FilterCons(x, tail, query); }
        Filter(xs, query) + Filter(ys, query);
      }
    }
  }

  /** The empty query matches every article. */
  lemma EmptyQueryMatches(a: Article)
    ensures Matches(a, "")
  {
  }

  /** With the empty query every article is kept, in the original order. */
  lemma {:induction false} FilterEmptyQuery(xs: seq<Article>)
    ensures Filter(xs, "") == xs
  {
    if xs != [] {
      EmptyQueryMatches(xs[0]);
      FilterEmptyQuery(xs[1..]);
    }
  }

  /** Two queries that differ only in the case of their letters. */
  predicate SameIgnoringCase(q1: string, q2: string) {
    |q1| == |q2| && forall i :: 0 <= i < |q1| ==> Lower(q1[i]) == Lower(q2[i])
  }

  /** Matching ignores case: queries equal up to case give the same result. */
  lemma {:induction false} FilterIgnoresCase(xs: seq<Article>, q1: string, q2: string)
    requires SameIgnoringCase(q1, q2)
    ensures Filter(xs, q1) == Filter(xs, q2)
  {
    assert LowerStr(q1) == LowerStr(q2);
    if xs != [] {
      FilterIgnoresCase(xs[1..], q1, q2);
    }
  }

  /** Filtering the filtered list again with the same query changes nothing. */
  lemma {:induction false} FilterIdempotent(xs: seq<Article>, query: string)
    ensures Filter(Filter(xs, query), query) == Filter(xs, query)
  {
    if xs != [] {
      FilterIdempotent(xs[1..], query);
      if Matches(xs[0], query) {
        var r := Filter(xs, query);
        assert r[0] == xs[0] && r[1..] == Filter(xs[1..], query);
      }
    }
  }

  /** A query equal, up to case, to some text in the space-joined tags matches. */
  lemma TagTextMatches(a: Article, query: string, text: string)
    requires Occurs(Join(a.tags, " "), text)
    requires SameIgnoringCase(query, text)
    ensures Matches(a, query)
  {
    var joined := Join(a.tags, " ");
    var k :| SubstringAt(joined, text, k);
    LowerPreservesSubstring(joined, text, k);
    assert LowerStr(query) == LowerStr(text);
    IncludesIff(LowerStr(joined), LowerStr(query));
  }

  /** A query equal, up to case, to one of the tags matches: "dpi" finds an article tagged "DPI". */
  lemma QueryEqualToTagMatches(a: Article, i: nat, query: string)
    requires i < |a.tags|
    requires SameIgnoringCase(query, a.tags[i])
    ensures Matches(a, query)
  {
    JoinContainsPart(a.tags, " ", i);
    TagTextMatches(a, query, a.tags[i]);
  }

  /**
   * A query made of two neighbouring tags with one space between them
   * matches, whatever the case of either: the tags are searched as one
   * space-joined text.
   */
  lemma QuerySpanningTagsMatches(a: Article, i: nat, query: string)
    requires i + 1 < |a.tags|
    requires SameIgnoringCase(query, a.tags[i] + " " + a.tags[i + 1])
    ensures Matches(a, query)
  {
    JoinSpansNeighbours(a.tags, " ", i);
    TagTextMatches(a, query, a.tags[i] + " " + a.tags[i + 1]);
  }

  /** "dpi open" and "DPI Open" differ only in letter case. */
  lemma DpiOpenIgnoringCase()
    ensures SameIgnoringCase("dpi open", "DPI Open")
  {
  }

  /** "dpi open" matches any article whose tags start with "DPI", "Open Standards". */
  lemma DpiOpenMatches(a: Article)
    requires |a.tags| >= 2 && a.tags[0] == "DPI" && a.tags[1] == "Open Standards"
    ensures Matches(a, "dpi open")
  {
    // "DPI Open" is a prefix of the span "DPI Open Standards" of the first two tags.
    var joined := Join(a.tags, " ");
    JoinSpansNeighbours(a.tags, " ", 0);
    assert a.tags[0] + " " + a.tags[1] == "DPI Open Standards";
    var k :| SubstringAt(joined, "DPI Open Standards", k);
    SubstringAtPrefix(joined, "DPI Open Standards", k, 8);
    assert "DPI Open Standards"[..8] == "DPI Open";
    DpiOpenIgnoringCase();
    TagTextMatches(a, "dpi open", "DPI Open");
  }

  /** The query "dpi" finds the fourth article through its tag "DPI". */
  lemma DpiFindsFourthArticle()
    ensures Articles[3] in Filter(Articles, "dpi")
  {
    var a := Articles[3];
    assert a.tags[0] == "DPI";
    QueryEqualToTagMatches(a, 0, "dpi");
  }

  /** The query "dpi open" finds the fourth article, spanning its tags "DPI" and "Open Standards". */
  lemma DpiOpenFindsFourthArticle()
    ensures Articles[3] in Filter(Articles, "dpi open")
  {
    DpiOpenMatches(Articles[3]);
  }

  /** With the initial, empty query the search lists all four articles. */
  lemma InitialQueryListsAll()
    ensures Filter(Articles, "") == Articles
    ensures |Filter(Articles, "")| == 4
  {
    FilterEmptyQuery(Articles);
  }
}
