/** The news collector (news_scraper.py): per-article extraction for the two
    agencies searched, the keyword relevance test, and the cross-source
    de-duplication by link. Fetching and HTML parsing are abstracted: a
    `fetch` function maps a search URL to the parsed page. */
module Scraper {
  import opened Wrappers
  import opened Text

  /** A collected news item. The `date` field (wall clock) is not modelled. */
  datatype NewsItem = NewsItem(title: string, link: string, source: string)

  /** The first `<a>` element of an article block: its stripped text, its
      `title` attribute and its `href` attribute, each as the parser found it. */
  datatype Anchor = Anchor(text: string, titleAttr: Option<string>, href: Option<string>)

  /** An article block: `article.find('a')`, absent when the block has no anchor. */
  type Article = Option<Anchor>

  /** The outcome of `requests.get` on one search URL: it raised (timeout,
      connection failure), or it answered with a status code and, parsed, the
      article blocks of the page in document order. */
  datatype Response = Failed | Reply(status: int, articles: seq<Article>)

  /** The two agencies actually searched. */
  datatype Agency = Mehr | Isna

  /** The configured search keywords; only the first three are searched. */
  const Keywords: seq<string> := [
    "شرکت مهندسی و توسعه گاز ایران",
    "شرکت ملی گاز ایران",
    "مهندس بهنام میرزایی",
    "میرزایی",
    "خط لوله گاز",
    "ایستگاه تقویت فشار گاز",
    "صنعت گاز ایران",
    "گاز طبیعی ایران"
  ]
  const SearchedKeywords: nat := 3
  /** `find_all(..., limit=5)`. */
  const ArticleLimit: nat := 5

  /** The fixed words of the relevance test (not the search keywords). */
  const RelevantWords: seq<string> := ["گاز", "میرزایی", "خط لوله", "ایستگاه", "شرکت ملی"]

  function BaseUrl(agency: Agency): string {
    match agency
    case Mehr => "https://www.mehrnews.com"
    case Isna => "https://www.isna.ir"
  }

  function SourceName(agency: Agency): string {
    match agency
    case Mehr => "مهر"
    case Isna => "ایسنا"
  }

  function SearchUrl(agency: Agency, keyword: string): string {
    match agency
    case Mehr => "https://www.mehrnews.com/search?text=" + keyword
    case Isna => "https://www.isna.ir/search?search=" + keyword
  }

  /** Mehr titles come from the anchor's text, ISNA titles from its `title`
      attribute, defaulting to the empty string. */
  function TitleOf(agency: Agency, a: Anchor): string {
    match agency
    case Mehr => a.text
    case Isna => if a.titleAttr.Some? then a.titleAttr.value else ""
  }

  // ---------------------------------------------------------------------------
  // Relevance

  function AnyContained(text: string, words: seq<string>): bool {
    if words == [] then false
    else Contains(text, words[0]) || AnyContained(text, words[1..])
  }

  /** `_is_relevant`: the lower-cased text contains one of the fixed words. */
  function IsRelevant(text: string): bool {
    AnyContained(Lower(text), RelevantWords)
  }

  lemma {:induction false} AnyContainedOccurs(text: string, words: seq<string>)
    ensures AnyContained(text, words) <==> exists w, i :: w in words && OccursAt(w, text, i)
  {
    if words != [] {
      ContainsOccurs(text, words[0]);
      AnyContainedOccurs(text, words[1..]);
      assert forall w :: w in words <==> w == words[0] || w in words[1..];
    }
  }

  /** A title is relevant exactly when one of the five fixed words occurs in
      its lower-cased form; the search keywords play no part. */
  lemma IsRelevantOccurs(text: string)
    ensures IsRelevant(text) <==> exists w, i :: w in RelevantWords && OccursAt(w, Lower(text), i)
  {
    AnyContainedOccurs(Lower(text), RelevantWords);
  }

  /** The empty title (an ISNA anchor without `title`) is never relevant. */
  lemma EmptyTitleIrrelevant()
    ensures !IsRelevant("")
  {
    IsRelevantOccurs("");
    forall w, i | w in RelevantWords
      ensures !OccursAt(w, Lower(""), i)
    {
      assert |w| > 0;
    }
  }

  /** A title mentioning gas is relevant. */
  lemma GasHeadlineRelevant()
    ensures IsRelevant("قطعی گاز در تهران")
  {
    var gas := "قطعی گاز در تهران";
    LowerWithoutCapitals(gas);
    assert gas[5..8] == RelevantWords[0];
    assert OccursAt(RelevantWords[0], Lower(gas), 5);
    IsRelevantOccurs(gas);
  }

  // ---------------------------------------------------------------------------
  // Per-article extraction

  /** One iteration of the article loop. A missing anchor is skipped; a
      missing `href` makes `base + None` raise, and the bare `except` skips
      the article; an irrelevant title is dropped. */
  function ExtractArticle(agency: Agency, article: Article): (r: Option<NewsItem>)
  {
    match article
    case None => None
    case Some(a) =>
      match a.href
      case None => None
      case Some(href) =>
        var title := TitleOf(agency, a);
        if IsRelevant(title) then Some(NewsItem(title, BaseUrl(agency) + href, SourceName(agency)))
        else None
  }

  /** The items the article loop appends, in article order. */
  function ExtractAll(agency: Agency, articles: seq<Article>): (r: seq<NewsItem>)
    ensures |r| <= |articles|
  {
    if articles == [] then []
    else
      var init := ExtractAll(agency, articles[..|articles| - 1]);
      match ExtractArticle(agency, articles[|articles| - 1])
      case None => init
      case Some(item) => init + [item]
  }

  lemma ExtractAllSnoc(agency: Agency, articles: seq<Article>, a: Article)
    ensures ExtractAll(agency, articles + [a]) == ExtractAll(agency, articles)
      + (var found := ExtractArticle(agency, a); if found.Some? then [found.value] else [])
  {
    assert (articles + [a])[..|articles|] == articles;
  }

  /** The first `n` elements, as `find_all(limit=n)` returns them. */
  function Take<T>(s: seq<T>, n: nat): (r: seq<T>)
    ensures |r| == if |s| <= n then |s| else n
    ensures r == s[..|r|]
  {
    if |s| <= n then s else s[..n]
  }

  /** The items one answered search page contributes: nothing unless the
      status is 200, else the article loop over the first five articles. */
  function PageItems(agency: Agency, response: Response): seq<NewsItem>
    requires response.Reply?
  {
    if response.status == 200 then ExtractAll(agency, Take(response.articles, ArticleLimit)) else []
  }

  /** The answer to the search for one keyword. */
  function Fetched(agency: Agency, fetch: string -> Response, keyword: string): Response {
    fetch(SearchUrl(agency, keyword))
  }

  /** What the search for one keyword yields: `None` when the request
      raised, else the items of the answered page. */
  function PageResult(agency: Agency, response: Response): (r: Option<seq<NewsItem>>)
    ensures r.None? <==> response.Failed?
    ensures r.Some? ==> |r.value| <= ArticleLimit
    ensures response.Reply? && response.status != 200 ==> r == Some([])
  {
    if response.Failed? then None else Some(PageItems(agency, response))
  }

  /** The page result of each keyword, in order, as one search routine
      obtains them. */
  function Pages(agency: Agency, fetch: string -> Response, keywords: seq<string>): (r: seq<Option<seq<NewsItem>>>)
    ensures |r| == |keywords|
    ensures forall k :: 0 <= k < |keywords| ==> r[k] == PageResult(agency, Fetched(agency, fetch, keywords[k]))
  {
    if keywords == [] then []
    else [PageResult(agency, Fetched(agency, fetch, keywords[0]))] + Pages(agency, fetch, keywords[1..])
  }

  /** The keyword loop of a search routine: the items of the pages in
      order, where a request that raised (`None`) ends the whole search
      (the outer `try`) and keeps what was collected so far. */
  function Collect<X>(pages: seq<Option<seq<X>>>): seq<X> {
    if pages == [] then []
    else
      match pages[0]
      case None => []
      case Some(items) => items + Collect(pages[1..])
  }

  /** What one search routine returns when it searches `keywords`: a
      non-200 status contributes nothing, a raised request stops. */
  function SearchFrom(agency: Agency, fetch: string -> Response, keywords: seq<string>): seq<NewsItem> {
    Collect(Pages(agency, fetch, keywords))
  }

  /** The search over the first three keywords. */
  function Search(agency: Agency, fetch: string -> Response): seq<NewsItem> {
    SearchFrom(agency, fetch, Keywords[..SearchedKeywords])
  }

  /** The article loop of one search page. */
  method ExtractPage(agency: Agency, articles: seq<Article>) returns (items: seq<NewsItem>)
    ensures items == ExtractAll(agency, articles)
  {
    items := [];
    var j := 0;
    while j < |articles|
      invariant 0 <= j <= |articles|
      invariant items == ExtractAll(agency, articles[..j])
    {
      assert articles[..j + 1] == articles[..j] + [articles[j]];
      var found := ExtractArticle(agency, articles[j]);
      ExtractAllSnoc(agency, articles[..j], articles[j]);
      if found.Some? {
        items := items + [found.value];
      }
      j := j + 1;
    }
    assert articles[..j] == articles;
  }

  /** One answered search page: nothing unless the status is 200, else the
      article loop over at most five articles. */
  method ReadPage(agency: Agency, response: Response) returns (items: seq<NewsItem>)
    requires response.Reply?
    ensures items == PageItems(agency, response)
  {
    items := [];
    if response.status == 200 {
      items := ExtractPage(agency, Take(response.articles, ArticleLimit));
    }
  }

  /** The body of the keyword loop: request the search page of one keyword
      and read it; `None` when the request raised. */
  method SearchKeyword(agency: Agency, fetch: string -> Response, keyword: string) returns (page: Option<seq<NewsItem>>)
    ensures page == PageResult(agency, Fetched(agency, fetch, keyword))
  {
    var response := fetch(SearchUrl(agency, keyword));
    if response.Failed? {
      return None;
    }
    var items := ReadPage(agency, response);
    page := Some(items);
  }

  /** The keyword loop of one search routine. */
  method SearchKeywords(agency: Agency, fetch: string -> Response, keywords: seq<string>) returns (news: seq<NewsItem>)
    ensures news == SearchFrom(agency, fetch, keywords)
  {
    ghost var pages := Pages(agency, fetch, keywords);
    news := [];
    var k := 0;
    assert pages[k..] == pages;
    while k < |keywords|
      invariant 0 <= k <= |keywords|
      invariant news + Collect(pages[k..]) == Collect(pages)
    {
      var page := SearchKeyword(agency, fetch, keywords[k]);
      assert page == pages[k];
      CollectStep(pages, k);
      if page.None? {
        assert news + [] == news;
        return;
      }
      assert news + (page.value + Collect(pages[k + 1..])) == (news + page.value) + Collect(pages[k + 1..]);
      news := news + page.value;
      k := k + 1;
    }
    assert pages[k..] == [];
  }

  /** `search_mehr_news` / `search_isna_news`: the keyword loop over the
      first three keywords. */
  method SearchNews(agency: Agency, fetch: string -> Response) returns (news: seq<NewsItem>)
    ensures news == Search(agency, fetch)
  {
    news := SearchKeywords(agency, fetch, Keywords[..SearchedKeywords]);
  }

  // ---------------------------------------------------------------------------
  // Cross-source de-duplication by link

  function Links(s: seq<NewsItem>): set<string> {
    set x | x in s :: x.link
  }

  predicate NoDuplicateLinks(s: seq<NewsItem>) {
    forall i, j :: 0 <= i < j < |s| ==> s[i].link != s[j].link
  }

  /** The item at `i` is the first with its link. */
  predicate IsFirstOccurrence(s: seq<NewsItem>, i: int) {
    0 <= i < |s| && forall j :: 0 <= j < i ==> s[j].link != s[i].link
  }

  /** `a` is `b` with some elements removed, order kept. */
  ghost predicate IsSubsequence<T>(a: seq<T>, b: seq<T>) {
    a == [] ||
    (b != [] &&
     ((a[|a| - 1] == b[|b| - 1] && IsSubsequence(a[..|a| - 1], b[..|b| - 1]))
      || IsSubsequence(a, b[..|b| - 1])))
  }

  /** The de-duplicated list: each item is kept unless an earlier item
      already had its link. */
  function DedupByLink(s: seq<NewsItem>): seq<NewsItem> {
    if s == [] then []
    else
      var init := s[..|s| - 1];
      if s[|s| - 1].link in Links(init) then DedupByLink(init)
      else DedupByLink(init) + [s[|s| - 1]]
  }

  /** The de-duplication loop of `get_all_news`. */
  method Dedup(all: seq<NewsItem>) returns (unique: seq<NewsItem>)
    ensures unique == DedupByLink(all)
  {
    unique := [];
    var seen: set<string> := {};
    var i := 0;
    while i < |all|
      invariant 0 <= i <= |all|
      invariant unique == DedupByLink(all[..i])
      invariant seen == Links(all[..i])
    {
      assert all[..i + 1][..i] == all[..i];
      if all[i].link !in seen {
        seen := seen + {all[i].link};
        unique := unique + [all[i]];
      }
      i := i + 1;
    }
    assert all[..i] == all;
  }

  /** Both searches, concatenated Mehr first, de-duplicated by link. */
  function AllNews(fetch: string -> Response): seq<NewsItem> {
    DedupByLink(Search(Mehr, fetch) + Search(Isna, fetch))
  }

  /** `get_all_news`. */
  method GetAllNews(fetch: string -> Response) returns (unique: seq<NewsItem>)
    ensures unique == AllNews(fetch)
    ensures NoDuplicateLinks(unique)
    ensures |unique| <= 2 * SearchedKeywords * ArticleLimit
    ensures forall x :: x in unique ==> IsRelevant(x.title)
  {
    var mehr := SearchNews(Mehr, fetch);
    var isna := SearchNews(Isna, fetch);
    unique := Dedup(mehr + isna);
    DedupProperties(mehr + isna);
    SearchBounded(Mehr, fetch);
    SearchBounded(Isna, fetch);
    DedupSubsequence(mehr + isna);
    SubsequenceLength(unique, mehr + isna);
    SearchItemsWellFormed(Mehr, fetch);
    SearchItemsWellFormed(Isna, fetch);
    forall x | x in unique ensures IsRelevant(x.title) {
      SubsequenceMembers(unique, mehr + isna, x);
    }
  }

  // ---------------------------------------------------------------------------
  // Properties of the extraction

  /** `x` is the item the article loop builds from `article`. */
  predicate ItemFromArticle(agency: Agency, x: NewsItem, article: Article) {
    article.Some? && article.value.href.Some?
    && x == NewsItem(TitleOf(agency, article.value), BaseUrl(agency) + article.value.href.value, SourceName(agency))
    && IsRelevant(x.title)
  }

  /** Blocks without an anchor, anchors without `href`, and ISNA anchors
      without a `title` attribute never produce an item. */
  lemma SkippedArticles(agency: Agency, a: Anchor)
    ensures ExtractArticle(agency, None) == None
    ensures a.href == None ==> ExtractArticle(agency, Some(a)) == None
    ensures agency == Isna && a.titleAttr == None ==> ExtractArticle(agency, Some(a)) == None
  {
    EmptyTitleIrrelevant();
  }

  /** The article loop distributes over concatenation of article lists. */
  lemma {:induction false} ExtractAllAppend(agency: Agency, p: seq<Article>, q: seq<Article>)
    ensures ExtractAll(agency, p + q) == ExtractAll(agency, p) + ExtractAll(agency, q)
    decreases |q|
  {
    if q == [] {
      assert p + q == p;
    } else {
      var q' := q[..|q| - 1];
      assert (p + q)[..|p + q| - 1] == p + q';
      assert (p + q)[|p + q| - 1] == q[|q| - 1];
      ExtractAllAppend(agency, p, q');
    }
  }

  /** A skipped article does not affect the articles around it. */
  lemma SkippedArticleIsolated(agency: Agency, p: seq<Article>, bad: Article, q: seq<Article>)
    requires ExtractArticle(agency, bad) == None
    ensures ExtractAll(agency, p + [bad] + q) == ExtractAll(agency, p + q)
  {
    ExtractAllAppend(agency, p + [bad], q);
    ExtractAllAppend(agency, p, [bad]);
    assert ExtractAll(agency, [bad]) == [] by {
      assert [bad][..0] == [];
    }
    ExtractAllAppend(agency, p, q);
  }

  /** Every extracted item is built from one of the articles. */
  lemma {:induction false} ExtractedItemsSound(agency: Agency, articles: seq<Article>)
    ensures forall x :: x in ExtractAll(agency, articles) ==>
      exists k :: 0 <= k < |articles| && ItemFromArticle(agency, x, articles[k])
  {
    if articles != [] {
      var init := articles[..|articles| - 1];
      var n := |init|;
      ExtractedItemsSound(agency, init);
      forall x | x in ExtractAll(agency, articles)
        ensures exists k :: 0 <= k < |articles| && ItemFromArticle(agency, x, articles[k])
      {
        if x in ExtractAll(agency, init) {
          var k :| 0 <= k < |init| && ItemFromArticle(agency, x, init[k]);
          assert articles[k] == init[k];
        } else {
          assert ItemFromArticle(agency, x, articles[n]);
        }
      }
    }
  }

  // ---------------------------------------------------------------------------
  // Properties of the keyword loop

  /** One step of the loop: the items of the next page, then the rest,
      unless the request raised. */
  lemma CollectStep<X>(pages: seq<Option<seq<X>>>, k: nat)
    requires k < |pages|
    ensures Collect(pages[k..]) ==
      (if pages[k].None? then [] else pages[k].value + Collect(pages[k + 1..]))
  {
    assert pages[k..][0] == pages[k] && pages[k..][1..] == pages[k + 1..];
  }

  /** At most `n` items per page gives at most `n` items per page visited. */
  lemma {:induction false} CollectBounded<X>(pages: seq<Option<seq<X>>>, n: nat)
    requires forall k :: 0 <= k < |pages| && pages[k].Some? ==> |pages[k].value| <= n
    ensures |Collect(pages)| <= n * |pages|
  {
    if pages != [] {
      assert forall k :: 0 <= k < |pages[1..]| ==> pages[1..][k] == pages[k + 1];
      CollectBounded(pages[1..], n);
    }
  }

  /** Every collected item is on one of the pages. */
  lemma {:induction false} CollectItems<X>(pages: seq<Option<seq<X>>>)
    ensures forall x :: x in Collect(pages) ==>
      exists k :: 0 <= k < |pages| && pages[k].Some? && x in pages[k].value
  {
    if pages != [] && pages[0].Some? {
      CollectItems(pages[1..]);
      forall x | x in Collect(pages)
        ensures exists k :: 0 <= k < |pages| && pages[k].Some? && x in pages[k].value
      {
        if x !in pages[0].value {
          assert x in Collect(pages[1..]);
          var k :| 0 <= k < |pages[1..]| && pages[1..][k].Some? && x in pages[1..][k].value;
          assert pages[1..][k] == pages[k + 1];
        }
      }
    }
  }

  /** Pages whose requests did not raise contribute independently. */
  lemma {:induction false} CollectAppend<X>(p: seq<Option<seq<X>>>, q: seq<Option<seq<X>>>)
    requires forall k :: 0 <= k < |p| ==> p[k].Some?
    ensures Collect(p + q) == Collect(p) + Collect(q)
  {
    if p == [] {
      assert p + q == q;
    } else {
      var page := p[0].value;
      assert (p + q)[0] == p[0] && (p + q)[1..] == p[1..] + q;
      assert forall k :: 0 <= k < |p[1..]| ==> p[1..][k] == p[k + 1];
      CollectAppend(p[1..], q);
      calc {
        Collect(p + q);
        page + Collect(p[1..] + q);
        page + (Collect(p[1..]) + Collect(q));
        (page + Collect(p[1..])) + Collect(q);
        Collect(p) + Collect(q);
      }
    }
  }

  /** A raised request ends the loop: later pages are not visited. */
  lemma {:induction false} CollectStopsAtNone<X>(pages: seq<Option<seq<X>>>, k: nat)
    requires k < |pages| && pages[k].None?
    ensures Collect(pages) == Collect(pages[..k])
  {
    if k > 0 {
      assert pages[1..][..k - 1] == pages[..k][1..];
      assert pages[..k][0] == pages[0];
      CollectStopsAtNone(pages[1..], k - 1);
    }
  }

  /** An empty page can be dropped. */
  lemma {:induction false} CollectSkipsEmpty<X>(pages: seq<Option<seq<X>>>, k: nat)
    requires k < |pages| && pages[k] == Some([])
    ensures Collect(pages) == Collect(pages[..k] + pages[k + 1..])
  {
    var rest := pages[..k] + pages[k + 1..];
    if k > 0 {
      assert pages[1..][..k - 1] == pages[..k][1..];
      assert pages[1..][k..] == pages[k + 1..];
      assert rest[0] == pages[0];
      assert rest[1..] == pages[1..][..k - 1] + pages[1..][k..];
      CollectSkipsEmpty(pages[1..], k - 1);
    } else {
      assert rest == pages[1..];
      assert [] + Collect(pages[1..]) == Collect(pages[1..]);
    }
  }

  // ---------------------------------------------------------------------------
  // Properties of the search routines

  /** Each search routine returns at most 3 x 5 items. */
  lemma SearchBounded(agency: Agency, fetch: string -> Response)
    ensures |Search(agency, fetch)| <= SearchedKeywords * ArticleLimit
  {
    CollectBounded(Pages(agency, fetch, Keywords[..SearchedKeywords]), ArticleLimit);
  }

  /** A request that raises ends the search: the search returns what the
      pages of the earlier keywords yielded, and later keywords are not
      searched. */
  lemma SearchStopsAtFailure(agency: Agency, fetch: string -> Response, keywords: seq<string>, k: nat)
    requires k < |keywords| && Fetched(agency, fetch, keywords[k]).Failed?
    ensures SearchFrom(agency, fetch, keywords) == Collect(Pages(agency, fetch, keywords)[..k])
  {
    CollectStopsAtNone(Pages(agency, fetch, keywords), k);
  }

  /** A page answered with a status other than 200 contributes nothing: the
      search returns what the other pages yield. */
  lemma SearchSkipsBadStatus(agency: Agency, fetch: string -> Response, keywords: seq<string>, k: nat)
    requires k < |keywords|
    requires Fetched(agency, fetch, keywords[k]).Reply? && Fetched(agency, fetch, keywords[k]).status != 200
    ensures var pages := Pages(agency, fetch, keywords);
      SearchFrom(agency, fetch, keywords) == Collect(pages[..k] + pages[k + 1..])
  {
    CollectSkipsEmpty(Pages(agency, fetch, keywords), k);
  }

  /** `x` was built from one of the first five articles of a page answered
      with status 200. */
  predicate FromSearchPage(agency: Agency, x: NewsItem, response: Response) {
    response.Reply? && response.status == 200
    && exists j :: 0 <= j < |response.articles| && j < ArticleLimit && ItemFromArticle(agency, x, response.articles[j])
  }

  /** Every item a search returns comes from the page of one of the
      searched keywords. */
  lemma SearchFromItems(agency: Agency, fetch: string -> Response, keywords: seq<string>)
    ensures forall x :: x in SearchFrom(agency, fetch, keywords) ==>
      exists k :: 0 <= k < |keywords| && FromSearchPage(agency, x, Fetched(agency, fetch, keywords[k]))
  {
    var pages := Pages(agency, fetch, keywords);
    CollectItems(pages);
    forall x | x in SearchFrom(agency, fetch, keywords)
      ensures exists k :: 0 <= k < |keywords| && FromSearchPage(agency, x, Fetched(agency, fetch, keywords[k]))
    {
      var k :| 0 <= k < |pages| && pages[k].Some? && x in pages[k].value;
      var response := Fetched(agency, fetch, keywords[k]);
      var page := Take(response.articles, ArticleLimit);
      ExtractedItemsSound(agency, page);
      var j :| 0 <= j < |page| && ItemFromArticle(agency, x, page[j]);
      assert page[j] == response.articles[j];
      assert FromSearchPage(agency, x, response);
    }
  }

  /** Every item a search returns is relevant, names its agency, and links
      to the agency's site followed by the anchor's `href`. */
  lemma SearchItemsWellFormed(agency: Agency, fetch: string -> Response)
    ensures forall x :: x in Search(agency, fetch) ==>
      IsRelevant(x.title) && x.source == SourceName(agency)
      && exists href :: x.link == BaseUrl(agency) + href
  {
    var keywords := Keywords[..SearchedKeywords];
    SearchFromItems(agency, fetch, keywords);
    forall x | x in Search(agency, fetch)
      ensures IsRelevant(x.title) && x.source == SourceName(agency)
        && exists href :: x.link == BaseUrl(agency) + href
    {
      var k :| 0 <= k < |keywords| && FromSearchPage(agency, x, Fetched(agency, fetch, keywords[k]));
      var response := Fetched(agency, fetch, keywords[k]);
      var j :| 0 <= j < |response.articles| && j < ArticleLimit && ItemFromArticle(agency, x, response.articles[j]);
      var href := response.articles[j].value.href.value;
      assert x.link == BaseUrl(agency) + href;
    }
  }

  // ---------------------------------------------------------------------------
  // Properties of the de-duplication

  lemma LinksAppend(s: seq<NewsItem>, x: NewsItem)
    ensures Links(s + [x]) == Links(s) + {x.link}
  {
    forall y | y in s + [x] ensures y in s || y == x { }
  }

  /** The output has no repeated link and keeps every link of the input. */
  lemma {:induction false} DedupProperties(s: seq<NewsItem>)
    ensures NoDuplicateLinks(DedupByLink(s))
    ensures Links(DedupByLink(s)) == Links(s)
  {
    if s != [] {
      var init, last := s[..|s| - 1], s[|s| - 1];
      assert s == init + [last];
      DedupProperties(init);
      LinksAppend(init, last);
      if last.link !in Links(init) {
        LinksAppend(DedupByLink(init), last);
        var d := DedupByLink(s);
        forall i | 0 <= i < |d| - 1 ensures d[i].link != last.link {
          assert d[i] in DedupByLink(init);
        }
      }
    }
  }

  lemma SubsequenceAppend<T>(a: seq<T>, b: seq<T>, y: T)
    requires IsSubsequence(a, b)
    ensures IsSubsequence(a, b + [y])
  {
    assert (b + [y])[..|b|] == b;
  }

  /** The output is the input with elements removed, order preserved. */
  lemma {:induction false} DedupSubsequence(s: seq<NewsItem>)
    ensures IsSubsequence(DedupByLink(s), s)
  {
    if s != [] {
      var init, last := s[..|s| - 1], s[|s| - 1];
      assert s == init + [last];
      DedupSubsequence(init);
      var d := DedupByLink(init);
      if last.link in Links(init) {
        SubsequenceAppend(d, init, last);
      } else {
        assert (d + [last])[..|d|] == d;
      }
    }
  }

  lemma {:induction false} SubsequenceLength<T>(a: seq<T>, b: seq<T>)
    requires IsSubsequence(a, b)
    ensures |a| <= |b|
    decreases |b|
  {
    if a != [] {
      if a[|a| - 1] == b[|b| - 1] && IsSubsequence(a[..|a| - 1], b[..|b| - 1]) {
        SubsequenceLength(a[..|a| - 1], b[..|b| - 1]);
      } else {
        SubsequenceLength(a, b[..|b| - 1]);
      }
    }
  }

  lemma {:induction false} SubsequenceMembers<T>(a: seq<T>, b: seq<T>, x: T)
    requires IsSubsequence(a, b) && x in a
    ensures x in b
    decreases |b|
  {
    var a', b' := a[..|a| - 1], b[..|b| - 1];
    assert b == b' + [b[|b| - 1]];
    if a[|a| - 1] == b[|b| - 1] && IsSubsequence(a', b') {
      assert a == a' + [a[|a| - 1]];
      if x != a[|a| - 1] {
        SubsequenceMembers(a', b', x);
      }
    } else {
      SubsequenceMembers(a, b', x);
    }
  }

  /** `x` is in `s` at an index where its link occurs for the first time. */
  ghost predicate IsFirstOf(s: seq<NewsItem>, x: NewsItem) {
    exists i :: IsFirstOccurrence(s, i) && s[i] == x
  }

  lemma FirstOccurrenceInPrefix(s: seq<NewsItem>, i: int)
    requires 0 <= i < |s| - 1
    ensures IsFirstOccurrence(s, i) <==> IsFirstOccurrence(s[..|s| - 1], i)
    ensures s[..|s| - 1][i] == s[i]
  {
    assert forall j :: 0 <= j <= i ==> s[..|s| - 1][j] == s[j];
  }

  /** Every item of the output is the first occurrence of its link in the
      input. */
  lemma {:induction false} DedupOnlyFirstOccurrences(s: seq<NewsItem>)
    ensures forall x :: x in DedupByLink(s) ==> IsFirstOf(s, x)
  {
    if s != [] {
      var init, last := s[..|s| - 1], s[|s| - 1];
      var n := |init|;
      DedupOnlyFirstOccurrences(init);
      forall x | x in DedupByLink(s) ensures IsFirstOf(s, x) {
        if x in DedupByLink(init) {
          var i :| IsFirstOccurrence(init, i) && init[i] == x;
          FirstOccurrenceInPrefix(s, i);
        } else {
          assert x == last && last.link !in Links(init);
          forall j | 0 <= j < n ensures s[j].link != last.link {
            assert init[j] in init;
          }
          assert IsFirstOccurrence(s, n) && s[n] == x;
        }
      }
    }
  }

  /** Every first occurrence of a link in the input is in the output. */
  lemma {:induction false} DedupKeepsFirstOccurrences(s: seq<NewsItem>)
    ensures forall x :: IsFirstOf(s, x) ==> x in DedupByLink(s)
  {
    if s != [] {
      var init := s[..|s| - 1];
      DedupKeepsFirstOccurrences(init);
      forall x | IsFirstOf(s, x) ensures x in DedupByLink(s) {
        var i :| IsFirstOccurrence(s, i) && s[i] == x;
        if i < |init| {
          FirstOccurrenceInPrefix(s, i);
          assert IsFirstOf(init, x);
        }
        KeepFirstStep(s, i);
      }
    }
  }

  /** The item at a first occurrence survives the last step of the
      de-duplication, given that it survived the earlier ones. */
  lemma KeepFirstStep(s: seq<NewsItem>, i: int)
    requires IsFirstOccurrence(s, i)
    requires i < |s| - 1 ==> s[i] in DedupByLink(s[..|s| - 1])
    ensures s[i] in DedupByLink(s)
  {
    var d := DedupByLink(s[..|s| - 1]);
    if i == |s| - 1 {
      LastLinkFresh(s);
      assert DedupByLink(s) == d + [s[i]];
    } else {
      assert DedupByLink(s) == d || DedupByLink(s) == d + [s[|s| - 1]];
    }
  }

  /** The last item's link is new when no earlier item has it. */
  lemma LastLinkFresh(s: seq<NewsItem>)
    requires s != [] && IsFirstOccurrence(s, |s| - 1)
    ensures s[|s| - 1].link !in Links(s[..|s| - 1])
  {
    var init := s[..|s| - 1];
    forall y | y in init ensures y.link != s[|s| - 1].link {
      var j :| 0 <= j < |init| && init[j] == y;
      assert s[j] == y;
    }
  }

  /** A list with no repeated link is its own de-duplication. */
  lemma {:induction false} DedupOfDistinct(s: seq<NewsItem>)
    requires NoDuplicateLinks(s)
    ensures DedupByLink(s) == s
  {
    if s != [] {
      var init, last := s[..|s| - 1], s[|s| - 1];
      assert s == init + [last];
      assert NoDuplicateLinks(init) by {
        forall i, j | 0 <= i < j < |init| ensures init[i].link != init[j].link {
          assert init[i] == s[i] && init[j] == s[j];
        }
      }
      DedupOfDistinct(init);
      LastLinkFresh(s);
    }
  }

  /** De-duplicating twice is the same as de-duplicating once. */
  lemma DedupIdempotent(s: seq<NewsItem>)
    ensures DedupByLink(DedupByLink(s)) == DedupByLink(s)
  {
    DedupProperties(s);
    DedupOfDistinct(DedupByLink(s));
  }
}
