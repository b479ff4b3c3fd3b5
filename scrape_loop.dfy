/**
 * The per-URL loop both scrapers share: each URL is scraped in turn, every
 * result that is not None is appended and counted, and after each URL the
 * loop stops once the optional article limit is reached.  A limit of 0 or
 * no limit at all means the loop runs over every URL.
 */
module ScrapeLoop {
  import opened Wrappers

  /** `stop_at_article_count and total >= stop_at_article_count`: 0 and absent mean no limit. */
  predicate LimitReached(limit: Option<int>, total: int) {
    limit.Some? && limit.value != 0 && total >= limit.value
  }

  /**
   * The articles kept when the remaining URLs are processed after `acc` was
   * collected, each URL's outcome given by `scrape`.
   */
  function CollectFrom<T>(urls: seq<string>, scrape: string -> Option<T>,
                       limit: Option<int>, acc: seq<T>): seq<T>
    decreases |urls|
  {
    if urls == [] then acc
    else
      var acc' := match scrape(urls[0]) case Some(a) => acc + [a] case None => acc;
      if LimitReached(limit, |acc'|) then acc' else CollectFrom(urls[1..], scrape, limit, acc')
  }

  /** With a positive limit not yet reached, the collected list never exceeds it. */
  lemma {:induction false} CollectWithinLimit<T>(urls: seq<string>, scrape: string -> Option<T>,
                                              k: int, acc: seq<T>)
    requires k > 0 && |acc| < k
    ensures |CollectFrom(urls, scrape, Some(k), acc)| <= k
    decreases |urls|
  {
    if urls != [] {
      var acc' := match scrape(urls[0]) case Some(a) => acc + [a] case None => acc;
      if !LimitReached(Some(k), |acc'|) {
        CollectWithinLimit(urls[1..], scrape, k, acc');
      }
    }
  }

  /** The list only grows: what was collected before stays at the front. */
  lemma {:induction false} CollectExtends<T>(urls: seq<string>, scrape: string -> Option<T>,
                                          limit: Option<int>, acc: seq<T>)
    ensures var r := CollectFrom(urls, scrape, limit, acc); |acc| <= |r| && r[..|acc|] == acc
    decreases |urls|
  {
    if urls != [] {
      var acc' := match scrape(urls[0]) case Some(a) => acc + [a] case None => acc;
      assert acc'[..|acc|] == acc;
      if !LimitReached(limit, |acc'|) {
        CollectExtends(urls[1..], scrape, limit, acc');
        var r := CollectFrom(urls[1..], scrape, limit, acc');
        assert r[..|acc|] == r[..|acc'|][..|acc|];
      }
    }
  }

  /** Every newly collected article is the outcome of one of the URLs. */
  lemma {:induction false} CollectedFromUrls<T>(urls: seq<string>, scrape: string -> Option<T>,
                                             limit: Option<int>, acc: seq<T>, j: int)
    requires |acc| <= j < |CollectFrom(urls, scrape, limit, acc)|
    ensures exists u :: u in urls && scrape(u) == Some(CollectFrom(urls, scrape, limit, acc)[j])
    decreases |urls|
  {
    var acc' := match scrape(urls[0]) case Some(a) => acc + [a] case None => acc;
    if LimitReached(limit, |acc'|) || j < |acc'| {
      CollectExtends(urls[1..], scrape, limit, acc');
      assert j == |acc| && scrape(urls[0]) == Some(acc'[j]);
      assert urls[0] in urls;
    } else {
      CollectedFromUrls(urls[1..], scrape, limit, acc', j);
      var u :| u in urls[1..] && scrape(u) == Some(CollectFrom(urls[1..], scrape, limit, acc')[j]);
      assert u in urls;
    }
  }

  /**
   * The loop itself, for any per-URL scrape, continuing a list `collected`
   * whose length is the running total: keep each item the scrape returns and
   * stop once the article limit is reached.
   */
  method CollectLoop<T>(urls: seq<string>, scrape: string -> Option<T>, limit: Option<int>, collected: seq<T>)
    returns (items: seq<T>, total: int)
    ensures items == CollectFrom(urls, scrape, limit, collected)
    ensures total == |items|
    ensures limit.Some? && limit.value > 0 && |collected| < limit.value ==> total <= limit.value
  {
    items, total := collected, |collected|;
    var i := 0;
    while i < |urls|
      invariant 0 <= i <= |urls|
      invariant total == |items|
      invariant CollectFrom(urls[i..], scrape, limit, items) == CollectFrom(urls, scrape, limit, collected)
    {
      var detail := scrape(urls[i]);
      assert urls[i..][0] == urls[i] && urls[i..][1..] == urls[i + 1..];
      if detail.Some? {
        items := items + [detail.value];
        total := total + 1;
      }
      if LimitReached(limit, total) {
        break;
      }
      i := i + 1;
    }
    if limit.Some? && limit.value > 0 && |collected| < limit.value {
      CollectWithinLimit(urls, scrape, limit.value, collected);
    }
  }
}
