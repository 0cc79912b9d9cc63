# Responsible AI & Beyond: search filter and page selection

This project models the behaviour of the newsletter site's single `App`
component. The component holds two pieces of logic.

- **The keyword search.** There is a fixed list of four articles. The query is
  lower-cased. An article is kept when the lower-cased query occurs in one of
  three lower-cased texts: its title, its summary, or its tags joined with one
  space. Kept articles stay in their original order.
- **The page selection.** There are two state cells. `page` starts at `"home"`
  and `query` starts at `""`. Every navigation control sets `page` to one of
  four names. The search box sets `query`. Each page value renders its own
  view. The search view shows a "No results" message when the filtered list is
  empty.

Modules:

- `Text` (`text.dfy`): per-character lower-casing, joining with a separator, and
  the `includes` substring test. `Includes` is proved equal to an index-based
  reference definition, `Occurs`.
- `ArticleSearch` (`article_search.dfy`): the `Article` datatype, the four
  articles, the match test `Matches` and the order-preserving `Filter`, with
  their properties.
- `App` (`app.dfy`): the page names, every control that calls the page setter,
  the four conditional views, and the `SiteState` class. That class has the
  `page` and `query` fields and their setters.

The two state cells are plain fields of a class. Their setters are methods
that say what they change and what they keep. The search filter is pure: it is
written as functions, with lemmas about them. The search view gets the filtered
list as an argument, just as the component computes `filtered` once and passes
it down. The view lemmas hold for any article list. The site's own list is the
`articles` constant of `SiteState`, which the constructor sets to `Articles`.

## Model

| member | source | states |
|---|---|---|
| Text.Lower | src/App.jsx:16 | lower-casing a character never leaves an upper-case letter; 'A'..'Z' move to 'a'..'z' and every other character is kept |
| Text.LowerStr | src/App.jsx:16-20 | lower-casing a string keeps its length and lower-cases each character in place |
| Text.LowerStrIdempotent | src/App.jsx:16-20 | lower-casing an already lower-cased query or text changes nothing |
| Text.LowerStrOfLower | src/App.jsx:16 | a string with no upper-case letter is its own lower-case form |
| Text.Join | src/App.jsx:20 | `tags.join(" ")`: the parts with the separator between each pair of neighbours, "" for no parts (its content is fixed by `JoinSnoc` and `JoinLength`) |
| Text.JoinLength | src/App.jsx:20 | the join of n tags is as long as the tags together plus n - 1 separators |
| Text.JoinSnoc | src/App.jsx:20 | appending a tag to a non-empty list appends the separator and that tag to the join; with the one-tag case this fixes the join of every list |
| Text.Includes | src/App.jsx:18-20 | `includes` can only hold when the query is no longer than the text |
| Text.IncludesIff | src/App.jsx:18-20 | `includes` holds exactly when the query occurs in the text at some index, in both directions |
| Text.IncludesEmpty | src/App.jsx:18-20 | the empty query is included in every text |
| Text.LowerPreservesSubstring | src/App.jsx:18-20 | an occurrence of a query in a text is still an occurrence after both are lower-cased |
| Text.SubstringAtPrefix | src/App.jsx:18-20 | any prefix of an occurrence is an occurrence at the same index |
| Text.SubstringAtAppend | src/App.jsx:20 | an occurrence in a later part of a joined text is an occurrence in the whole text, shifted by the length before it |
| Text.JoinStartsWithFirst | src/App.jsx:20 | the space-joined tags start with the first tag |
| Text.JoinSpansNeighbours | src/App.jsx:20 | two neighbouring tags with the separator between them occur in the joined tags, so a query can span a tag boundary |
| Text.JoinContainsPart | src/App.jsx:20 | every tag occurs in the joined tags |
| ArticleSearch.Articles | src/App.jsx:7-13 | the four articles, with their ids, titles, tags, summaries and dates, in source order |
| ArticleSearch.Matches | src/App.jsx:17-20 | the filter's test: the empty query matches every article, and a match needs a field at least as long as the query (its full meaning is `MatchesIff`) |
| ArticleSearch.MatchesIff | src/App.jsx:16-20 | an article matches exactly when the lower-cased query occurs in one of its lower-cased title, summary or space-joined tags |
| ArticleSearch.Filter | src/App.jsx:15-22 | the result is no longer than the list, and an article is in it exactly when it is in the list and matches the query |
| ArticleSearch.FilterCons | src/App.jsx:17-21 | filtering a list that starts with an article keeps that article exactly when it matches, then filters the rest |
| ArticleSearch.FilterIsSubsequence | src/App.jsx:17-21 | the filtered list is a subsequence of the input: nothing is added or reordered |
| ArticleSearch.FilterCounts | src/App.jsx:17-21 | a matching article keeps all its occurrences and a non-matching one keeps none, so nothing is duplicated or dropped wrongly |
| ArticleSearch.FilterAppend | src/App.jsx:17-21 | filtering a concatenation is the concatenation of the filtered parts, so order is kept |
| ArticleSearch.EmptyQueryMatches | src/App.jsx:16-20 | every article matches the empty query |
| ArticleSearch.FilterEmptyQuery | src/App.jsx:16-21 | with the empty query every article is kept in its original order |
| ArticleSearch.FilterIgnoresCase | src/App.jsx:16-20 | two queries that differ only in letter case give the same result |
| ArticleSearch.FilterIdempotent | src/App.jsx:15-22 | filtering the filtered list again with the same query returns it unchanged |
| ArticleSearch.TagTextMatches | src/App.jsx:20 | a query equal, up to case, to any text in the space-joined tags matches the article |
| ArticleSearch.QueryEqualToTagMatches | src/App.jsx:20 | a query equal, up to case, to one of the tags matches the article, so "dpi" finds an article tagged "DPI" |
| ArticleSearch.QuerySpanningTagsMatches | src/App.jsx:20 | a query equal, up to case, to two neighbouring tags joined by a space matches the article |
| ArticleSearch.DpiOpenMatches | src/App.jsx:12-20 | "dpi open" matches an article whose tags begin with "DPI", "Open Standards" |
| ArticleSearch.DpiFindsFourthArticle | src/App.jsx:12-20 | the query "dpi" keeps the fourth article, through its tag "DPI" |
| ArticleSearch.DpiOpenFindsFourthArticle | src/App.jsx:7-22 | the query "dpi open" keeps the fourth article |
| ArticleSearch.InitialQueryListsAll | src/App.jsx:5-22 | with the initial empty query all four articles are listed, in order |
| App.Name | src/App.jsx:36-46 | each page's name is one of the four page names |
| App.NameInjective | src/App.jsx:36-46 | different pages have different names |
| App.NameCovers | src/App.jsx:42-46 | every one of the four page names names some page |
| App.Target | src/App.jsx:36-69 | every navigation control (header tabs, menu options, footer links, and the buttons at lines 126, 127 and 211) passes one of the four page names, and the one it is labelled with |
| App.Rendered | src/App.jsx:52-55 | the four conditionals render exactly one view for a page name and none for any other string |
| App.ViewFor | src/App.jsx:52-55 | the view meant for each page; it shows the "No results" message exactly when it is the search view and the filtered list is empty |
| App.View.ShowsNoResults | src/App.jsx:277 | the search view's "No results" message is shown when the filtered list is empty |
| App.RenderedForPage | src/App.jsx:52-55 | the name of each page renders exactly the one view meant for that page |
| App.NoResultsIff | src/App.jsx:277 | for any article list, the "No results" message is shown exactly when no article of the list matches the query |
| App.EmptyQueryShowsAll | src/App.jsx:15-22 | with the empty query the search view lists the whole article list, and shows "No results" only when that list is empty |
| App.SiteState.Valid | src/App.jsx:36-46 | the state invariant: the page is one of the four names the controls pass |
| App.SiteState.constructor | src/App.jsx:4-13 | the site starts on "home" with an empty query and the four-article list, a valid state |
| App.SiteState.SetPage | src/App.jsx:4 | the page setter replaces the page and never changes the query |
| App.SiteState.SetQuery | src/App.jsx:253 | the search box's setter replaces the query, never changes the page, and keeps the state valid |
| App.SiteState.Activate | src/App.jsx:36-46 | activating any control sets the page to its target, keeps the query, and leaves the page one of the four names |
| App.SiteState.Filtered | src/App.jsx:15-22 | the listed articles are exactly those of the state's article list that match the current query |
| App.SiteState.CurrentView | src/App.jsx:52-55 | in a valid state exactly one view is rendered, the one for the current page |

## Left out

- Markup, styling and the presentational components (`NavItem`, `Section`, `Pill`, `Card`, `BulletCard`, `DocCard`, `Timeline`, `Home`, `Content`, `Resources`, `Cta`): they only lay out content.
- The `alert` calls and the two email forms: they are browser side effects and keep no state.
- Date display (`toLocaleDateString`) and the footer year (`getFullYear`): both depend on locale or clock. The article date is kept as its literal text.
- Text.LowerStr: lower-cases ASCII letters only; the full Unicode case mapping of JavaScript's `toLowerCase` is not modelled.
- The memoisation and update scheduling of React (`useMemo`, `useState`): the two state cells are plain fields and updates take effect at once.
- App.SiteState.SetPage: accepts any string, as the setter does. Validity is kept by `Activate`, because every control passes one of the four names. The narrow-screen menu's value is modelled as one of its four options.
- Scripts/fix-bin.js and Scripts/build.mjs: file-system and build plumbing.
- The component has no pagination, no fragment-based routing, no search over the resource list and no subscription post to an external provider, so the model has none either.
