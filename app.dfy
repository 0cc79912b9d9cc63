/**
 * The page-selection state of the site: the current page name and the
 * search query, the controls that change them, and which view is rendered
 * for each page.
 */
module App {
  import opened Text
  import opened ArticleSearch

  /** The four page names the navigation controls use. */
  predicate IsPageName(p: string) {
    p == "home" || p == "content" || p == "resources" || p == "search"
  }

  /** The pages, as the navigation controls list them. */
  datatype Page = Home | Content | Resources | Search

  /** The name a control passes when it selects `p`. */
  function Name(p: Page): (s: string)
    ensures IsPageName(s)
  {
    match p
    case Home => "home"
    case Content => "content"
    case Resources => "resources"
    case Search => "search"
  }

  /** Different pages have different names. */
  lemma NameInjective(p1: Page, p2: Page)
    requires Name(p1) == Name(p2)
    ensures p1 == p2
  {
  }

  /** Every page name is the name of some page. */
  lemma NameCovers(s: string)
    requires IsPageName(s)
    ensures exists p :: Name(p) == s
  {
    if s == "home" { assert Name(Home) == s; }
    else if s == "content" { assert Name(Content) == s; }
    else if s == "resources" { assert Name(Resources) == s; }
    else { assert Name(Search) == s; }
  }

  /**
   * Every control that changes the page: the four header tabs, the four
   * options of the narrow-screen menu, the four footer quick links, the two
   * buttons of the home page and the "View all resources" button.
   */
  datatype Control =
    | HeaderTab(tab: Page)
    | MenuOption(option: Page)
    | QuickLink(link: Page)
    | ReadTheLatest
    | ExploreResources
    | ViewAllResources

  /** The page name a control passes to the page setter. */
  function Target(c: Control): (p: string)
    ensures IsPageName(p)
    ensures c.HeaderTab? ==> p == Name(c.tab)
    ensures c.MenuOption? ==> p == Name(c.option)
    ensures c.QuickLink? ==> p == Name(c.link)
    ensures c == ReadTheLatest ==> p == "content"
    ensures c == ExploreResources || c == ViewAllResources ==> p == "resources"
  {
    match c
    case HeaderTab(t) => Name(t)
    case MenuOption(o) => Name(o)
    case QuickLink(l) => Name(l)
    case ReadTheLatest => "content"
    case ExploreResources => "resources"
    case ViewAllResources => "resources"
  }

  /** What the main area can show. The search view carries its query and the filtered articles. */
  datatype View =
    | HomeView
    | ContentView
    | ResourcesView
    | SearchView(query: string, results: seq<Article>)
  {
    /** The search view shows its "No results" message when the filtered list is empty. */
    predicate ShowsNoResults() {
      SearchView? && |results| == 0
    }
  }

  /**
   * The views rendered for a page value: each of the four views is
   * rendered on its own test of the page value, in this order. The search
   * view is handed the query and the already filtered article list. A page
   * name renders exactly one view; any other string renders none.
   */
  function Rendered(page: string, query: string, filtered: seq<Article>): (views: seq<View>)
    ensures |views| == if IsPageName(page) then 1 else 0
  {
    (if page == "home" then [HomeView] else [])
      + (if page == "content" then [ContentView] else [])
      + (if page == "resources" then [ResourcesView] else [])
      + (if page == "search" then [SearchView(query, filtered)] else [])
  }

  /** The one view meant for each page. */
  function ViewFor(p: Page, query: string, filtered: seq<Article>): (v: View)
    ensures v.ShowsNoResults() <==> p == Search && filtered == []
  {
    match p
    case Home => HomeView
    case Content => ContentView
    case Resources => ResourcesView
    case Search => SearchView(query, filtered)
  }

  /** The name of a page renders exactly the view meant for that page. */
  lemma RenderedForPage(p: Page, query: string, filtered: seq<Article>)
    ensures Rendered(Name(p), query, filtered) == [ViewFor(p, query, filtered)]
  {
  }

  /** The "No results" message is shown exactly when no article of the list matches the query. */
  lemma NoResultsIff(articles: seq<Article>, query: string)
    ensures ViewFor(Search, query, Filter(articles, query)).ShowsNoResults() <==>
      forall a :: a in articles ==> !Matches(a, query)
  {
  }

  /**
   * With the empty query the search view lists the whole article list, and
   * shows "No results" only when that list is empty.
   */
  lemma EmptyQueryShowsAll(articles: seq<Article>)
    ensures ViewFor(Search, "", Filter(articles, "")) == SearchView("", articles)
    ensures ViewFor(Search, "", Filter(articles, "")).ShowsNoResults() <==> articles == []
  {
  }

  /** The two state cells of the site: the page name and the search query. */
  class SiteState {
    /** The article list, fixed when the site opens. */
    const articles: seq<Article>
    var page: string
    var query: string

    /** The page is always one of the four names. */
    predicate Valid()
      reads this
    {
      IsPageName(page)
    }

    /** The site opens on the home page with an empty query. */
    constructor ()
      ensures Valid()
      ensures page == "home" && query == "" && articles == Articles
    {
      articles := Articles;
      page := "home";
      query := "";
    }

    /** The page setter: replaces the page and leaves the query alone. */
    method SetPage(p: string)
      modifies this
      ensures page == p && query == old(query)
    {
      page := p;
    }

    /** The query setter, called by the search box: replaces the query and leaves the page alone. */
    method SetQuery(q: string)
      requires Valid()
      modifies this
      ensures Valid()
      ensures query == q && page == old(page)
    {
      query := q;
    }

    /** Activating a navigation control selects its page; the query is kept. */
    method Activate(c: Control)
      modifies this
      ensures Valid()
      ensures page == Target(c) && query == old(query)
    {
      SetPage(Target(c));
    }

    /** The articles the search view lists for the current query. */
    function Filtered(): (r: seq<Article>)
      reads this
      ensures forall a :: a in r <==> a in articles && Matches(a, query)
    {
      Filter(articles, query)
    }

    /** The view rendered for the current state: exactly one, the view of the current page. */
    method CurrentView() returns (v: View)
      requires Valid()
      ensures [v] == Rendered(page, query, Filtered())
      ensures exists p :: Name(p) == page && v == ViewFor(p, query, Filtered())
    {
      NameCovers(page);
      var p :| Name(p) == page;
      RenderedForPage(p, query, Filtered());
      v := ViewFor(p, query, Filtered());
    }
  }
}
