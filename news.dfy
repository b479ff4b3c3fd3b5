/**
 * The listing crawler (scraping/news.py): it walks the numbered listing pages
 * of cryptonews.net, keeps the article links whose `data-id` it has not seen
 * before, scrapes each article, and stops on a page without new links, at a
 * page limit, or at an article limit.
 *
 * HTTP and HTML parsing are inputs: a listing page is its status code and the
 * `data-id` attribute of each news item in page order, and an article page is
 * its status code and the text of each tag it looks up.
 */
module News {
  import opened Wrappers
  import opened Text
  import opened ScrapeLoop

  const Site: string := "https://cryptonews.net"
  const BaseUrl: string := "https://cryptonews.net/"
  const PageQuery: string := "?page="

  // ---------------------------------------------------------------------
  // Page URLs
  // ---------------------------------------------------------------------

  /** The first page is the base URL; page n > 1 adds `?page=n`. */
  function PageUrl(n: int): string {
    if n > 1 then BaseUrl + PageQuery + NatToString(n) else BaseUrl
  }

  /** A later page's URL is the base URL, the query key, and the page number in decimal. */
  lemma PageUrlShape(n: int)
    requires n > 1
    ensures var u := PageUrl(n); var k := |BaseUrl + PageQuery|;
      && |u| > k && u[..k] == BaseUrl + PageQuery
      && (forall i :: k <= i < |u| ==> IsDigit(u[i]))
      && DigitsValue(u[k..]) == n
  {
    var u := PageUrl(n);
    var k := |BaseUrl + PageQuery|;
    assert u[k..] == NatToString(n);
    NatToStringRoundTrip(n);
  }

  /** Different page numbers (from 1 on) are fetched from different URLs. */
  lemma PageUrlInjective(m: int, n: int)
    requires m >= 1 && n >= 1 && PageUrl(m) == PageUrl(n)
    ensures m == n
  {
    var k := |BaseUrl + PageQuery|;
    if m > 1 && n > 1 {
      assert PageUrl(m)[k..] == NatToString(m);
      assert PageUrl(n)[k..] == NatToString(n);
      NatToStringInjective(m, n);
    }
  }

  // ---------------------------------------------------------------------
  // get_article_links: deduplication against the shared set
  // ---------------------------------------------------------------------

  datatype ListingResponse = ListingResponse(statusCode: int, dataIds: seq<Option<string>>)

  /** The ids a page contributes, in page order, given the ids seen before it. */
  function NewIds(ids: seq<Option<string>>, seen: set<string>): seq<string>
    decreases |ids|
  {
    if ids == [] then []
    else if Truthy(ids[0]) && ids[0].value !in seen then [ids[0].value] + NewIds(ids[1..], seen + {ids[0].value})
    else NewIds(ids[1..], seen)
  }

  /** The set of a sequence's elements. */
  function Elements(xs: seq<string>): (e: set<string>)
    ensures forall x :: x in e <==> x in xs
  {
    if xs == [] then {} else Elements(xs[..|xs| - 1]) + {xs[|xs| - 1]}
  }

  lemma ElementsAppend(xs: seq<string>, x: string)
    ensures Elements(xs + [x]) == Elements(xs) + {x}
  {
    assert (xs + [x])[..|xs|] == xs;
  }

  /** `'https://cryptonews.net' + data_id` for each id. */
  function ArticleUrls(ids: seq<string>): (urls: seq<string>)
    ensures |urls| == |ids| && forall k :: 0 <= k < |ids| ==> urls[k] == Site + ids[k]
  {
    seq(|ids|, k requires 0 <= k < |ids| => Site + ids[k])
  }

  lemma ArticleUrlsAppend(ids: seq<string>, x: string)
    ensures ArticleUrls(ids + [x]) == ArticleUrls(ids) + [Site + x]
  {
    assert ArticleUrls(ids + [x])[..|ids|] == ArticleUrls(ids);
  }

  /** The links a listing response yields. */
  function Links(r: ListingResponse, seen: set<string>): seq<string> {
    if r.statusCode != 200 then [] else ArticleUrls(NewIds(r.dataIds, seen))
  }

  /** The seen set after a listing response. */
  function SeenAfter(r: ListingResponse, seen: set<string>): set<string> {
    if r.statusCode != 200 then seen else seen + Elements(NewIds(r.dataIds, seen))
  }

  /** NewIds continuing a list `acc` of ids already taken from the page. */
  function NewIdsAfter(ids: seq<Option<string>>, seen: set<string>, acc: seq<string>): seq<string>
    decreases |ids|
  {
    if ids == [] then acc
    else if Truthy(ids[0]) && ids[0].value !in seen then NewIdsAfter(ids[1..], seen + {ids[0].value}, acc + [ids[0].value])
    else NewIdsAfter(ids[1..], seen, acc)
  }

  lemma {:induction false} NewIdsAfterSplit(ids: seq<Option<string>>, seen: set<string>, acc: seq<string>)
    ensures NewIdsAfter(ids, seen, acc) == acc + NewIds(ids, seen)
    decreases |ids|
  {
    if ids != [] {
      if Truthy(ids[0]) && ids[0].value !in seen {
        var x := ids[0].value;
        NewIdsAfterSplit(ids[1..], seen + {x}, acc + [x]);
        assert (acc + [x]) + NewIds(ids[1..], seen + {x}) == acc + ([x] + NewIds(ids[1..], seen + {x}));
      } else {
        NewIdsAfterSplit(ids[1..], seen, acc);
      }
    }
  }

  /** One step of NewIdsAfter at position i. */
  lemma NewIdsStep(ids: seq<Option<string>>, i: nat, seen: set<string>, acc: seq<string>)
    requires i < |ids|
    ensures Truthy(ids[i]) && ids[i].value !in seen ==>
      NewIdsAfter(ids[i..], seen, acc) == NewIdsAfter(ids[i + 1..], seen + {ids[i].value}, acc + [ids[i].value])
    ensures !(Truthy(ids[i]) && ids[i].value !in seen) ==>
      NewIdsAfter(ids[i..], seen, acc) == NewIdsAfter(ids[i + 1..], seen, acc)
  {
    assert ids[i..][0] == ids[i] && ids[i..][1..] == ids[i + 1..];
  }

  /** The set of ids scraped so far, shared by every page of the crawl. */
  class LinkRegistry {
    var scrapedUrls: set<string>

    constructor ()
      ensures scrapedUrls == {}
    {
      scrapedUrls := {};
    }

    /**
     * `get_article_links`: a non-200 page gives no links and changes
     * nothing; otherwise every truthy id not yet seen gives a link and is
     * added to the set at once.
     */
    method GetArticleLinks(response: ListingResponse) returns (links: seq<string>)
      modifies this
      ensures links == Links(response, old(scrapedUrls))
      ensures scrapedUrls == SeenAfter(response, old(scrapedUrls))
    {
      if response.statusCode != 200 {
        return [];
      }
      var ids := response.dataIds;
      ghost var seen0 := scrapedUrls;
      ghost var added: seq<string> := [];
      links := [];
      NewIdsAfterSplit(ids, seen0, []);
      var i := 0;
      while i < |ids|
        invariant 0 <= i <= |ids|
        invariant NewIdsAfter(ids[i..], scrapedUrls, added) == NewIds(ids, seen0)
        invariant scrapedUrls == seen0 + Elements(added)
        invariant links == ArticleUrls(added)
      {
        NewIdsStep(ids, i, scrapedUrls, added);
        var dataId := ids[i];
        if Truthy(dataId) && dataId.value !in scrapedUrls {
          var x := dataId.value;
          links := links + [Site + x];
          scrapedUrls := scrapedUrls + {x};
          ElementsAppend(added, x);
          ArticleUrlsAppend(added, x);
          added := added + [x];
        }
        i := i + 1;
      }
      assert ids[i..] == [];
    }
  }

  // ---------------------------------------------------------------------
  // Properties of the deduplication
  // ---------------------------------------------------------------------

  /**
   * The new ids are distinct, none was seen before, and each one is a
   * truthy id of the page; so a page repeating an id yields it once.
   */
  lemma {:induction false} NewIdsFresh(ids: seq<Option<string>>, seen: set<string>)
    ensures forall a, b :: 0 <= a < b < |NewIds(ids, seen)| ==> NewIds(ids, seen)[a] != NewIds(ids, seen)[b]
    ensures forall a :: 0 <= a < |NewIds(ids, seen)| ==> NewIds(ids, seen)[a] !in seen
    ensures forall a :: 0 <= a < |NewIds(ids, seen)| ==> Some(NewIds(ids, seen)[a]) in ids && NewIds(ids, seen)[a] != ""
    decreases |ids|
  {
    if ids != [] {
      var r := NewIds(ids, seen);
      if Truthy(ids[0]) && ids[0].value !in seen {
        var x := ids[0].value;
        NewIdsFresh(ids[1..], seen + {x});
        var rest := NewIds(ids[1..], seen + {x});
        assert r == [x] + rest;
        forall a | 0 < a < |r| ensures r[a] !in seen + {x} && Some(r[a]) in ids && r[a] != "" {
          assert r[a] == rest[a - 1];
          assert Some(rest[a - 1]) in ids[1..];
        }
      } else {
        NewIdsFresh(ids[1..], seen);
        forall a | 0 <= a < |r| ensures Some(r[a]) in ids {
          assert Some(r[a]) in ids[1..];
        }
      }
    }
  }

  /** Conversely, every truthy id on the page was either seen before or is new. */
  lemma {:induction false} NewIdsComplete(ids: seq<Option<string>>, seen: set<string>)
    ensures forall k :: 0 <= k < |ids| && Truthy(ids[k]) ==>
      ids[k].value in seen || ids[k].value in NewIds(ids, seen)
    decreases |ids|
  {
    if ids != [] {
      var seen' := if Truthy(ids[0]) && ids[0].value !in seen then seen + {ids[0].value} else seen;
      NewIdsComplete(ids[1..], seen');
      forall k | 0 <= k < |ids| && Truthy(ids[k])
        ensures ids[k].value in seen || ids[k].value in NewIds(ids, seen)
      {
        if k > 0 {
          assert ids[1..][k - 1] == ids[k];
        }
      }
    }
  }

  /**
   * After a page the set is the old set plus exactly the ids behind the
   * returned links; a non-200 page returns no links and leaves it unchanged.
   */
  lemma LinksAndSeen(r: ListingResponse, seen: set<string>)
    ensures r.statusCode != 200 ==> Links(r, seen) == [] && SeenAfter(r, seen) == seen
    ensures seen <= SeenAfter(r, seen)
    ensures forall x :: x in SeenAfter(r, seen) && x !in seen ==> Site + x in Links(r, seen)
    ensures forall u :: u in Links(r, seen) ==> exists x :: x in SeenAfter(r, seen) && x !in seen && u == Site + x
  {
    if r.statusCode == 200 {
      var ids := NewIds(r.dataIds, seen);
      NewIdsFresh(r.dataIds, seen);
      forall x | x in SeenAfter(r, seen) && x !in seen ensures Site + x in Links(r, seen) {
        var k :| 0 <= k < |ids| && ids[k] == x;
        assert Links(r, seen)[k] == Site + x;
      }
      forall u | u in Links(r, seen)
        ensures exists x :: x in SeenAfter(r, seen) && x !in seen && u == Site + x
      {
        var k :| 0 <= k < |Links(r, seen)| && Links(r, seen)[k] == u;
        assert ids[k] in Elements(ids);
        assert ids[k] in SeenAfter(r, seen) && ids[k] !in seen && u == Site + ids[k];
      }
    }
  }

  /** With no truthy id seen before and none repeated, every truthy id gives a link, in page order. */
  lemma {:induction false} NewIdsAllFresh(ids: seq<Option<string>>, seen: set<string>)
    requires forall k :: 0 <= k < |ids| ==> Truthy(ids[k]) && ids[k].value !in seen
    requires forall a, b :: 0 <= a < b < |ids| ==> ids[a] != ids[b]
    ensures |NewIds(ids, seen)| == |ids|
    ensures forall k :: 0 <= k < |ids| ==> Some(NewIds(ids, seen)[k]) == ids[k]
    decreases |ids|
  {
    if ids != [] {
      var x := ids[0].value;
      forall k | 0 <= k < |ids[1..]| ensures Truthy(ids[1..][k]) && ids[1..][k].value !in seen + {x} {
        assert ids[1..][k] == ids[k + 1] != ids[0];
      }
      NewIdsAllFresh(ids[1..], seen + {x});
    }
  }

  // ---------------------------------------------------------------------
  // scrape_article
  // ---------------------------------------------------------------------

  const NoTitle: string := "No title found"
  const NoDate: string := "No date found"
  const NoAuthor: string := "No author found"
  const NoContent: string := "No content found"

  /** An article page: the status code and the text of each tag looked up (None when the tag is absent). */
  datatype ArticlePage = ArticlePage(statusCode: int, title: Option<string>, datePublished: Option<string>,
                                     author: Option<string>, coins: seq<string>, content: Option<string>)

  /** A scraped article: the link dictionary merged with the scraped fields. */
  datatype NewsArticle = NewsArticle(url: string, title: string, datePublished: string,
                                     author: string, coins: seq<string>, content: string)

  function ScrapeNewsArticle(url: string, page: ArticlePage): Option<NewsArticle> {
    if page.statusCode != 200 then None
    else Some(NewsArticle(url, page.title.GetOr(NoTitle), page.datePublished.GetOr(NoDate),
                          page.author.GetOr(NoAuthor), page.coins, page.content.GetOr(NoContent)))
  }

  /**
   * Only a non-200 page gives no article; otherwise each field is the tag's
   * text, or its placeholder when the tag is absent.
   */
  lemma ScrapeNewsArticleSpec(url: string, page: ArticlePage)
    ensures ScrapeNewsArticle(url, page).None? <==> page.statusCode != 200
    ensures page.statusCode == 200 ==>
      var a := ScrapeNewsArticle(url, page).value;
      && a.url == url && a.coins == page.coins
      && (page.title.Some? ==> a.title == page.title.value)
      && (page.title.None? ==> a.title == NoTitle)
      && (page.datePublished.Some? ==> a.datePublished == page.datePublished.value)
      && (page.datePublished.None? ==> a.datePublished == NoDate)
      && (page.author.Some? ==> a.author == page.author.value)
      && (page.author.None? ==> a.author == NoAuthor)
      && (page.content.Some? ==> a.content == page.content.value)
      && (page.content.None? ==> a.content == NoContent)
  {
  }

  /** Each link scraped through the article responses `fetch`. */
  function Scraper(fetch: string -> ArticlePage): string -> Option<NewsArticle> {
    u => ScrapeNewsArticle(u, fetch(u))
  }

  // ---------------------------------------------------------------------
  // The crawl loop of the main block
  // ---------------------------------------------------------------------

  datatype StopReason = NoNewLinks | PageLimit | ArticleLimit

  /**
   * What the crawl ends with: the articles, the last page number, the ids
   * seen before that last page, and why it stopped.
   */
  datatype CrawlResult = CrawlResult(articles: seq<NewsArticle>, pageNumber: int, lastSeen: set<string>, reason: StopReason)

  /** `stop_at_page and page_number >= stop_at_page`: 0 and absent mean no limit. */
  predicate PageLimitReached(stopAtPage: Option<int>, pageNumber: int) {
    stopAtPage.Some? && stopAtPage.value != 0 && pageNumber >= stopAtPage.value
  }

  /** What one page visit yields: its links, the seen set after it, and the articles after its links are scraped. */
  datatype Visit = Visit(links: seq<string>, seen: set<string>, articles: seq<NewsArticle>)

  /** The listing response for each page number: the response to that page's URL. */
  function ListingPages(listing: string -> ListingResponse): int -> ListingResponse {
    n => listing(PageUrl(n))
  }

  /**
   * The work of one iteration of the crawl on page n: `get_article_links`,
   * then the inner loop over the links under the article limit.
   */
  function VisitPage(pages: int -> ListingResponse, fetch: string -> ArticlePage, stopAtCount: Option<int>)
    : (int, set<string>, seq<NewsArticle>) -> Visit
  {
    (n: int, seen: set<string>, acc: seq<NewsArticle>) =>
      var links := Links(pages(n), seen);
      Visit(links, SeenAfter(pages(n), seen), CollectFrom(links, Scraper(fetch), stopAtCount, acc))
  }

  /**
   * The site lists only finitely many articles: every `data-id` any listing
   * page shows is one of `site`.  This is what makes the crawl end.
   */
  ghost predicate FiniteSite(pages: int -> ListingResponse, site: set<string>) {
    forall n: int, k :: 0 <= k < |pages(n).dataIds| && pages(n).dataIds[k].Some? ==>
      pages(n).dataIds[k].value in site
  }

  /** A page visit that yields links leaves fewer of the site's ids unseen. */
  ghost predicate Progress(visit: (int, set<string>, seq<NewsArticle>) -> Visit, site: set<string>) {
    forall n, seen, acc :: visit(n, seen, acc).links != [] ==> |site - visit(n, seen, acc).seen| < |site - seen|
  }

  /** Every id a page adds to the seen set is an id of the site. */
  lemma NewIdsOnSite(pages: int -> ListingResponse, site: set<string>, n: int, seen: set<string>)
    requires FiniteSite(pages, site)
    ensures SeenAfter(pages(n), seen) - seen <= site
  {
    var r := pages(n);
    if r.statusCode == 200 {
      NewIdsFresh(r.dataIds, seen);
      var ids := NewIds(r.dataIds, seen);
      forall x | x in SeenAfter(r, seen) - seen ensures x in site {
        var a :| 0 <= a < |ids| && ids[a] == x;
        var k :| 0 <= k < |r.dataIds| && r.dataIds[k] == Some(x);
      }
    }
  }

  lemma {:induction false} SubsetCardinality(a: set<string>, b: set<string>)
    requires a <= b
    ensures |a| <= |b|
    decreases |a|
  {
    if a != {} {
      var x :| x in a;
      SubsetCardinality(a - {x}, b - {x});
    }
  }

  /** A page with links leaves fewer of the site's ids unseen. */
  lemma ProgressOnLinks(pages: int -> ListingResponse, site: set<string>, n: int, seen: set<string>)
    requires FiniteSite(pages, site)
    requires Links(pages(n), seen) != []
    ensures |site - SeenAfter(pages(n), seen)| < |site - seen|
  {
    var r := pages(n);
    var ids := NewIds(r.dataIds, seen);
    NewIdsOnSite(pages, site, n, seen);
    NewIdsFresh(r.dataIds, seen);
    var x := ids[0];
    assert x in Elements(ids);
    assert x in site - seen && x !in site - SeenAfter(r, seen);
    var rest := site - SeenAfter(r, seen);
    SubsetCardinality(rest, (site - seen) - {x});
  }

  lemma VisitPageProgress(pages: int -> ListingResponse, fetch: string -> ArticlePage,
                          stopAtCount: Option<int>, site: set<string>)
    requires FiniteSite(pages, site)
    ensures Progress(VisitPage(pages, fetch, stopAtCount), site)
  {
    var visit := VisitPage(pages, fetch, stopAtCount);
    forall n, seen, acc | visit(n, seen, acc).links != []
      ensures |site - visit(n, seen, acc).seen| < |site - seen|
    {
      ProgressOnLinks(pages, site, n, seen);
    }
  }

  /**
   * The crawl from page `n`, with the ids `seen` and the articles `acc`
   * collected so far: visit the page, stop when it has no new links, then
   * stop at the page limit or the article limit, or go on with the next page.
   */
  function CrawlFrom(visit: (int, set<string>, seq<NewsArticle>) -> Visit,
                     stopAtPage: Option<int>, stopAtCount: Option<int>, site: set<string>,
                     n: int, seen: set<string>, acc: seq<NewsArticle>): CrawlResult
    requires Progress(visit, site)
    decreases |site - seen|
  {
    var v := visit(n, seen, acc);
    if v.links == [] then CrawlResult(acc, n, seen, NoNewLinks)
    else if PageLimitReached(stopAtPage, n) then CrawlResult(v.articles, n, seen, PageLimit)
    else if LimitReached(stopAtCount, |v.articles|) then CrawlResult(v.articles, n, seen, ArticleLimit)
    else CrawlFrom(visit, stopAtPage, stopAtCount, site, n + 1, v.seen, v.articles)
  }

  /** One step of the crawl: it stops with page n, or goes on from page n + 1. */
  lemma CrawlStep(visit: (int, set<string>, seq<NewsArticle>) -> Visit,
                  stopAtPage: Option<int>, stopAtCount: Option<int>, site: set<string>,
                  n: int, seen: set<string>, acc: seq<NewsArticle>)
    requires Progress(visit, site)
    ensures var v := visit(n, seen, acc);
      var r := CrawlFrom(visit, stopAtPage, stopAtCount, site, n, seen, acc);
      if v.links == [] || PageLimitReached(stopAtPage, n) || LimitReached(stopAtCount, |v.articles|)
      then r.articles == (if v.links == [] then acc else v.articles) && r.pageNumber == n
      else r == CrawlFrom(visit, stopAtPage, stopAtCount, site, n + 1, v.seen, v.articles)
  {
  }

  /**
   * The `while True` loop of the main block, with the listing responses by
   * URL and the article responses as inputs: the crawl from page 1 with
   * nothing seen, the total kept equal to the number of articles, and the
   * last page never beyond a page limit.
   */
  method Crawl(listing: string -> ListingResponse, fetch: string -> ArticlePage,
               stopAtPage: Option<int>, stopAtCount: Option<int>, ghost site: set<string>)
    returns (articles: seq<NewsArticle>, total: int, pageNumber: int)
    requires FiniteSite(ListingPages(listing), site)
    ensures Progress(VisitPage(ListingPages(listing), fetch, stopAtCount), site)
    ensures var r := CrawlFrom(VisitPage(ListingPages(listing), fetch, stopAtCount), stopAtPage, stopAtCount, site, 1, {}, []);
      articles == r.articles && pageNumber == r.pageNumber
    ensures total == |articles|
  {
    ghost var visit := VisitPage(ListingPages(listing), fetch, stopAtCount);
    VisitPageProgress(ListingPages(listing), fetch, stopAtCount, site);
    var registry := new LinkRegistry();
    articles, total, pageNumber := [], 0, 1;
    while true
      invariant total == |articles|
      invariant CrawlFrom(visit, stopAtPage, stopAtCount, site, pageNumber, registry.scrapedUrls, articles)
        == CrawlFrom(visit, stopAtPage, stopAtCount, site, 1, {}, [])
      decreases |site - registry.scrapedUrls|
    {
      CrawlStep(visit, stopAtPage, stopAtCount, site, pageNumber, registry.scrapedUrls, articles);
      var links;
      links, articles, total := CrawlPage(registry, listing, fetch, stopAtCount, pageNumber, articles);
      if links == [] || PageLimitReached(stopAtPage, pageNumber) || LimitReached(stopAtCount, total) {
        return;
      }
      pageNumber := pageNumber + 1;
    }
  }

  /**
   * One iteration's page work: fetch page n's listing, deduplicate its links
   * against the registry, and, when there are links, scrape them under the
   * article limit.
   */
  method CrawlPage(registry: LinkRegistry, listing: string -> ListingResponse, fetch: string -> ArticlePage,
                   stopAtCount: Option<int>, pageNumber: int, collected: seq<NewsArticle>)
    returns (links: seq<string>, articles: seq<NewsArticle>, total: int)
    modifies registry
    ensures var v := VisitPage(ListingPages(listing), fetch, stopAtCount)(pageNumber, old(registry.scrapedUrls), collected);
      links == v.links && registry.scrapedUrls == v.seen && articles == v.articles
    ensures links == [] ==> articles == collected
    ensures total == |articles|
  {
    var pageUrl := PageUrl(pageNumber);
    links := registry.GetArticleLinks(listing(pageUrl));
    if links == [] {
      assert CollectFrom(links, Scraper(fetch), stopAtCount, collected) == collected;
      return links, collected, |collected|;
    }
    articles, total := CollectLoop(links, Scraper(fetch), stopAtCount, collected);
  }

  // ---------------------------------------------------------------------
  // Properties of the crawl
  // ---------------------------------------------------------------------

  /** A page visit keeps the articles collected before it at the front. */
  ghost predicate Extends(visit: (int, set<string>, seq<NewsArticle>) -> Visit) {
    forall n, seen, acc :: acc <= visit(n, seen, acc).articles
  }

  /** A page visit starting below a positive article limit k never ends above it. */
  ghost predicate RespectsLimit(visit: (int, set<string>, seq<NewsArticle>) -> Visit, k: int) {
    forall n, seen, acc :: |acc| < k ==> |visit(n, seen, acc).articles| <= k
  }

  lemma VisitPageExtends(pages: int -> ListingResponse, fetch: string -> ArticlePage, stopAtCount: Option<int>)
    ensures Extends(VisitPage(pages, fetch, stopAtCount))
  {
    var visit := VisitPage(pages, fetch, stopAtCount);
    forall n, seen, acc ensures acc <= visit(n, seen, acc).articles {
      CollectExtends(Links(pages(n), seen), Scraper(fetch), stopAtCount, acc);
    }
  }

  lemma VisitPageRespectsLimit(pages: int -> ListingResponse, fetch: string -> ArticlePage, k: int)
    requires k > 0
    ensures RespectsLimit(VisitPage(pages, fetch, Some(k)), k)
  {
    var visit := VisitPage(pages, fetch, Some(k));
    forall n, seen, acc | |acc| < k ensures |visit(n, seen, acc).articles| <= k {
      CollectWithinLimit(Links(pages(n), seen), Scraper(fetch), k, acc);
    }
  }

  /** Articles only accumulate: those collected before stay at the front. */
  lemma {:induction false} CrawlExtends(visit: (int, set<string>, seq<NewsArticle>) -> Visit,
                                        stopAtPage: Option<int>, stopAtCount: Option<int>, site: set<string>,
                                        n: int, seen: set<string>, acc: seq<NewsArticle>)
    requires Progress(visit, site) && Extends(visit)
    ensures acc <= CrawlFrom(visit, stopAtPage, stopAtCount, site, n, seen, acc).articles
    decreases |site - seen|
  {
    var v := visit(n, seen, acc);
    if v.links != [] && !PageLimitReached(stopAtPage, n) && !LimitReached(stopAtCount, |v.articles|) {
      CrawlExtends(visit, stopAtPage, stopAtCount, site, n + 1, v.seen, v.articles);
    }
  }

  /** With a positive article limit not yet reached, the crawl never collects more than the limit. */
  lemma {:induction false} CrawlWithinLimit(visit: (int, set<string>, seq<NewsArticle>) -> Visit,
                                            stopAtPage: Option<int>, k: int, site: set<string>,
                                            n: int, seen: set<string>, acc: seq<NewsArticle>)
    requires Progress(visit, site) && RespectsLimit(visit, k)
    requires k > 0 && |acc| < k
    ensures |CrawlFrom(visit, stopAtPage, Some(k), site, n, seen, acc).articles| <= k
    decreases |site - seen|
  {
    var v := visit(n, seen, acc);
    if v.links != [] && !PageLimitReached(stopAtPage, n) && !LimitReached(Some(k), |v.articles|) {
      CrawlWithinLimit(visit, stopAtPage, k, site, n + 1, v.seen, v.articles);
    }
  }

  /**
   * The crawl stops for the reason it reports: the last page had no new
   * links, reached the page limit, or brought the article limit.
   */
  lemma {:induction false} CrawlStopReason(visit: (int, set<string>, seq<NewsArticle>) -> Visit,
                                           stopAtPage: Option<int>, stopAtCount: Option<int>, site: set<string>,
                                           n: int, seen: set<string>, acc: seq<NewsArticle>)
    requires Progress(visit, site)
    ensures var r := CrawlFrom(visit, stopAtPage, stopAtCount, site, n, seen, acc);
      && (r.reason == NoNewLinks ==> visit(r.pageNumber, r.lastSeen, r.articles).links == [])
      && (r.reason == PageLimit ==> PageLimitReached(stopAtPage, r.pageNumber))
      && (r.reason == ArticleLimit ==> LimitReached(stopAtCount, |r.articles|))
    decreases |site - seen|
  {
    var v := visit(n, seen, acc);
    if v.links != [] && !PageLimitReached(stopAtPage, n) && !LimitReached(stopAtCount, |v.articles|) {
      CrawlStopReason(visit, stopAtPage, stopAtCount, site, n + 1, v.seen, v.articles);
    }
  }

  /**
   * Pages are visited in order from n, one more per completed page, and with
   * a page limit p >= n >= 1 the last page visited is at most p.
   */
  lemma {:induction false} CrawlPages(visit: (int, set<string>, seq<NewsArticle>) -> Visit,
                                      stopAtPage: Option<int>, stopAtCount: Option<int>, site: set<string>,
                                      n: int, seen: set<string>, acc: seq<NewsArticle>)
    requires Progress(visit, site)
    ensures var r := CrawlFrom(visit, stopAtPage, stopAtCount, site, n, seen, acc);
      && r.pageNumber >= n
      && (n >= 1 && stopAtPage.Some? && stopAtPage.value >= n ==> r.pageNumber <= stopAtPage.value)
    decreases |site - seen|
  {
    var v := visit(n, seen, acc);
    if v.links != [] && !PageLimitReached(stopAtPage, n) && !LimitReached(stopAtCount, |v.articles|) {
      CrawlPages(visit, stopAtPage, stopAtCount, site, n + 1, v.seen, v.articles);
    }
  }

  /** A page without new links leaves the seen set as it was. */
  lemma NoLinksNoChange(r: ListingResponse, seen: set<string>)
    requires Links(r, seen) == []
    ensures SeenAfter(r, seen) == seen
    ensures Links(r, SeenAfter(r, seen)) == []
  {
    if r.statusCode == 200 {
      assert NewIds(r.dataIds, seen) == [];
      assert Elements([]) == {};
    }
  }
}
