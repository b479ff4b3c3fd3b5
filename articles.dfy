/**
 * Post-processing of one scraped news article (scraping/articles.py): the
 * relative publication time ("21 m"), the completeness status of the scraped
 * fields, the data id taken from the article URL, and the batch loop over a
 * list of URLs with an optional article limit.
 *
 * The HTTP response and the HTML tag lookups are inputs: an ArticleResponse
 * carries the status code, the text (or absence) of each tag, and the UTC
 * clock reading at the time of the scrape, in seconds.
 */
module Articles {
  import opened Wrappers
  import opened Text
  import opened ScrapeLoop

  // ---------------------------------------------------------------------
  // Relative time: re.match(r'(\d+)\s*(m|h|d)', s.strip())
  // ---------------------------------------------------------------------

  datatype TimeUnit = Minutes | Hours | Days

  /** A timedelta built from one unit and a count of it. */
  datatype TimeDelta = TimeDelta(unit: TimeUnit, count: nat)

  function UnitSeconds(u: TimeUnit): (k: nat)
    ensures k > 0
  {
    match u
    case Minutes => 60
    case Hours => 3600
    case Days => 86400
  }

  function Seconds(d: TimeDelta): nat {
    d.count * UnitSeconds(d.unit)
  }

  function UnitOf(c: char): Option<TimeUnit> {
    if c == 'm' then Some(Minutes)
    else if c == 'h' then Some(Hours)
    else if c == 'd' then Some(Days)
    else None
  }

  function UnitChar(u: TimeUnit): (c: char)
    ensures UnitOf(c) == Some(u)
  {
    match u
    case Minutes => 'm'
    case Hours => 'h'
    case Days => 'd'
  }

  /**
   * The regular expression, matched at the start of t: a maximal run of
   * digits, then optional whitespace, then one of m, h, d; whatever follows
   * is ignored.  Greedy matching never needs to backtrack here, because a
   * shorter digit run leaves a digit where whitespace or the unit must be.
   */
  function MatchTimeAgo(t: string): Option<TimeDelta> {
    var digits := LeadingDigits(t);
    if digits == [] then None
    else
      var rest := t[|digits|..];
      var after := rest[|LeadingSpaces(rest)|..];
      if after == [] then None
      else
        match UnitOf(after[0])
        case None => None
        case Some(u) => Some(TimeDelta(u, DigitsValue(digits)))
  }

  /** parse_time_ago: the pattern applied to the stripped text. */
  function ParseTimeAgo(s: string): Option<TimeDelta> {
    MatchTimeAgo(Strip(s))
  }

  /** How the site writes a relative time, e.g. "21 m". */
  function FormatTimeAgo(d: TimeDelta): (f: string)
    ensures |f| >= 3 && IsDigit(f[0]) && f[|f| - 1] == UnitChar(d.unit)
  {
    NatToString(d.count) + " " + [UnitChar(d.unit)]
  }

  lemma {:induction false} LeadingDigitsOfNumber(ds: string, x: string)
    requires forall i :: 0 <= i < |ds| ==> IsDigit(ds[i])
    requires x != [] && !IsDigit(x[0])
    ensures LeadingDigits(ds + x) == ds
  {
    if ds != [] {
      assert (ds + x)[1..] == ds[1..] + x;
      LeadingDigitsOfNumber(ds[1..], x);
      assert [ds[0]] + ds[1..] == ds;
    } else {
      assert ds + x == x;
    }
  }

  lemma {:induction false} LeadingSpacesOf(w: string, x: string)
    requires forall i :: 0 <= i < |w| ==> IsSpace(w[i])
    requires x != [] && !IsSpace(x[0])
    ensures LeadingSpaces(w + x) == w
  {
    if w != [] {
      assert (w + x)[1..] == w[1..] + x;
      LeadingSpacesOf(w[1..], x);
      assert [w[0]] + w[1..] == w;
    } else {
      assert w + x == x;
    }
  }

  /**
   * What the pattern makes of digits, whitespace and one more character: the
   * count in the digits' unit when that character is m, h or d, no match
   * otherwise; the text after that character plays no part.
   */
  lemma MatchShape(ds: string, w: string, c: char, tail: string)
    requires ds != [] && forall i :: 0 <= i < |ds| ==> IsDigit(ds[i])
    requires forall i :: 0 <= i < |w| ==> IsSpace(w[i])
    requires !IsDigit(c) && !IsSpace(c)
    ensures MatchTimeAgo(ds + w + [c] + tail) ==
      match UnitOf(c) case None => None case Some(u) => Some(TimeDelta(u, DigitsValue(ds)))
  {
    var t := ds + w + [c] + tail;
    var x := w + ([c] + tail);
    Regroup(ds, w, c, tail);
    LeadingDigitsOfNumber(ds, x);
    LeadingSpacesOf(w, [c] + tail);
    MatchSteps(t, ds, x, w, c);
  }

  /** The text after the digits starts with the whitespace, then c. */
  lemma Regroup(ds: string, w: string, c: char, tail: string)
    requires forall i :: 0 <= i < |w| ==> IsSpace(w[i])
    requires !IsDigit(c)
    ensures ds + w + [c] + tail == ds + (w + ([c] + tail))
    ensures |w| < |w + ([c] + tail)| && (w + ([c] + tail))[|w|] == c
    ensures !IsDigit((w + ([c] + tail))[0])
  {
    var x := w + ([c] + tail);
    assert x[0] == if w == [] then c else w[0];
  }

  /** Unfolds the pattern once its three pieces are known. */
  lemma MatchSteps(t: string, ds: string, x: string, w: string, c: char)
    requires ds != [] && LeadingDigits(t) == ds && t == ds + x
    requires LeadingSpaces(x) == w && |w| < |x| && x[|w|] == c
    requires forall i :: 0 <= i < |ds| ==> IsDigit(ds[i])
    ensures MatchTimeAgo(t) ==
      match UnitOf(c) case None => None case Some(u) => Some(TimeDelta(u, DigitsValue(ds)))
  {
    assert t[|ds|..] == x;
  }

  /** The pattern reads a formatted relative time back, whatever text follows it. */
  lemma MatchFormatted(d: TimeDelta, tail: string)
    ensures MatchTimeAgo(FormatTimeAgo(d) + tail) == Some(d)
  {
    var n := NatToString(d.count);
    MatchShape(n, " ", UnitChar(d.unit), tail);
    assert FormatTimeAgo(d) + tail == n + " " + [UnitChar(d.unit)] + tail;
    NatToStringRoundTrip(d.count);
  }

  /**
   * t has the shape the pattern accepts: a non-empty run of digits, then
   * whitespace, then the unit letter c, then any tail.
   */
  predicate TimeAgoShape(t: string, ds: string, w: string, c: char, tail: string) {
    && t == ds + w + [c] + tail
    && ds != [] && (forall i :: 0 <= i < |ds| ==> IsDigit(ds[i]))
    && (forall i :: 0 <= i < |w| ==> IsSpace(w[i]))
    && UnitOf(c).Some?
  }

  /**
   * The pattern matches t with delta d exactly when t splits into digits
   * spelling d's count, whitespace, d's unit letter and a tail.
   */
  lemma MatchTimeAgoIff(t: string, d: TimeDelta)
    ensures MatchTimeAgo(t) == Some(d) <==>
      exists ds, w, c, tail :: TimeAgoShape(t, ds, w, c, tail)
        && UnitOf(c) == Some(d.unit) && DigitsValue(ds) == d.count
  {
    if MatchTimeAgo(t) == Some(d) {
      var ds, w, c, tail := MatchPieces(t);
    }
    if exists ds, w, c, tail :: TimeAgoShape(t, ds, w, c, tail)
        && UnitOf(c) == Some(d.unit) && DigitsValue(ds) == d.count {
      var ds, w, c, tail :| TimeAgoShape(t, ds, w, c, tail)
        && UnitOf(c) == Some(d.unit) && DigitsValue(ds) == d.count;
      MatchShape(ds, w, c, tail);
    }
  }

  /** The pieces a successful match consists of. */
  lemma MatchPieces(t: string) returns (ds: string, w: string, c: char, tail: string)
    requires MatchTimeAgo(t).Some?
    ensures TimeAgoShape(t, ds, w, c, tail)
    ensures UnitOf(c) == Some(MatchTimeAgo(t).value.unit)
    ensures DigitsValue(ds) == MatchTimeAgo(t).value.count
  {
    ds := LeadingDigits(t);
    var rest := t[|ds|..];
    w := LeadingSpaces(rest);
    var after := rest[|w|..];
    c, tail := after[0], after[1..];
    Reassemble(t, |ds|, |w|);
  }

  /** A text that does not start with a digit never matches ("m", " 5 m" after a letter). */
  lemma NoNumberNoMatch(t: string)
    requires t == [] || !IsDigit(t[0])
    ensures MatchTimeAgo(t) == None
  {
  }

  /** Digits and whitespace alone never match: "21" and "21 " have no unit. */
  lemma NoUnitNoMatch(t: string)
    requires forall i :: 0 <= i < |t| ==> IsDigit(t[i]) || IsSpace(t[i])
    ensures MatchTimeAgo(t) == None
  {
  }

  /**
   * parse_time_ago gives d exactly when the stripped text splits into digits
   * spelling d's count, whitespace, d's unit letter and a tail.
   */
  lemma ParseTimeAgoIff(s: string, d: TimeDelta)
    ensures ParseTimeAgo(s) == Some(d) <==>
      exists ds, w, c, tail :: TimeAgoShape(Strip(s), ds, w, c, tail)
        && UnitOf(c) == Some(d.unit) && DigitsValue(ds) == d.count
  {
    MatchTimeAgoIff(Strip(s), d);
  }

  /** A text made of digits and whitespace only parses to None. */
  lemma ParseTimeAgoNeedsUnit(s: string)
    requires forall i :: 0 <= i < |s| ==> IsDigit(s[i]) || IsSpace(s[i])
    ensures ParseTimeAgo(s) == None
  {
    var t := Strip(s);
    var a := StripIsSlice(s);
    forall i | 0 <= i < |t|
      ensures IsDigit(t[i]) || IsSpace(t[i])
    {
      assert t[i] == s[a + i];
    }
    NoUnitNoMatch(t);
  }

  /** The pattern reads the count back whatever whitespace precedes the unit. */
  lemma MatchSpaced(d: TimeDelta, w: string, tail: string)
    requires forall i :: 0 <= i < |w| ==> IsSpace(w[i])
    ensures MatchTimeAgo(NatToString(d.count) + w + [UnitChar(d.unit)] + tail) == Some(d)
  {
    MatchShape(NatToString(d.count), w, UnitChar(d.unit), tail);
    NatToStringRoundTrip(d.count);
  }

  /**
   * Any whitespace between the number and the unit is accepted, a no-break
   * space (U+00A0, what `&nbsp;` becomes in the page text) included.
   */
  lemma ParseTimeAgoAnySpace(d: TimeDelta, w: string, tail: string)
    requires forall i :: 0 <= i < |w| ==> IsSpace(w[i])
    ensures ParseTimeAgo(NatToString(d.count) + w + [UnitChar(d.unit)] + tail) == Some(d)
  {
    var ds, c := NatToString(d.count), UnitChar(d.unit);
    var f := ds + w + [c];
    assert f[0] == ds[0] && f[|f| - 1] == c;
    DigitNotSpace(ds[0]);
    assert "" + f == f;
    StripAround("", f, tail);
    MatchSpaced(d, w, StripRight(tail));
  }

  /** A number, a no-break space and "m" is that many minutes ("21\u00a0m"). */
  lemma NoBreakSpaceTime(n: nat)
    ensures ParseTimeAgo(NatToString(n) + "\U{A0}" + "m") == Some(TimeDelta(Minutes, n))
  {
    ParseTimeAgoAnySpace(TimeDelta(Minutes, n), "\U{A0}", "");
    assert NatToString(n) + "\U{A0}" + "m" == NatToString(n) + "\U{A0}" + [UnitChar(Minutes)] + "";
  }

  /** Stripping leaves a text that neither starts nor ends with whitespace, minus the tail's. */
  lemma StripAround(w: string, f: string, tail: string)
    requires forall i :: 0 <= i < |w| ==> IsSpace(w[i])
    requires f != [] && !IsSpace(f[0]) && !IsSpace(f[|f| - 1])
    ensures Strip(w + f + tail) == f + StripRight(tail)
  {
    assert w + f + tail == w + (f + tail);
    StripLeftSpaces(w, f + tail);
    StripRightAppend(f, tail);
  }

  /**
   * Parsing a formatted relative time gives it back, whatever whitespace
   * surrounds it and whatever text follows it ("5 hours ago" is 5 hours).
   */
  lemma ParseTimeAgoRoundTrip(w: string, d: TimeDelta, tail: string)
    requires forall i :: 0 <= i < |w| ==> IsSpace(w[i])
    ensures ParseTimeAgo(w + FormatTimeAgo(d) + tail) == Some(d)
  {
    StripAround(w, FormatTimeAgo(d), tail);
    MatchFormatted(d, StripRight(tail));
  }

  /** The text a missing time tag is read as. */
  const MissingTimeText: string := "0 m"

  /** "0 m" parses to a zero delta. */
  lemma MissingTimeTextIsZero()
    ensures ParseTimeAgo(MissingTimeText) == Some(TimeDelta(Minutes, 0))
  {
    assert NatToString(0) == "0";
    assert MissingTimeText == "" + FormatTimeAgo(TimeDelta(Minutes, 0)) + "";
    ParseTimeAgoRoundTrip("", TimeDelta(Minutes, 0), "");
  }

  /**
   * datetime_published: the clock minus the parsed delta.  A missing time tag
   * reads as "0 m"; an unparsable text and a zero delta (a falsy timedelta)
   * both leave the clock reading itself.
   */
  function PublishedAt(now: int, timeText: Option<string>): int {
    var d := ParseTimeAgo(timeText.GetOr(MissingTimeText));
    if d.Some? && d.value.count != 0 then now - Seconds(d.value) else now
  }

  /**
   * The publication time is the clock itself exactly when the text does not
   * parse or parses to zero, and otherwise the clock minus the delta.
   */
  lemma PublishedAtBounds(now: int, text: string)
    ensures PublishedAt(now, Some(text)) == now <==>
      ParseTimeAgo(text).None? || ParseTimeAgo(text).value.count == 0
    ensures ParseTimeAgo(text).Some? ==>
      PublishedAt(now, Some(text)) == now - Seconds(ParseTimeAgo(text).value)
  {
    if ParseTimeAgo(text).Some? {
      SecondsZero(ParseTimeAgo(text).value);
    }
  }

  /** A delta lasts zero seconds exactly when its count is zero. */
  lemma SecondsZero(d: TimeDelta)
    ensures Seconds(d) == 0 <==> d.count == 0
  {
    assert UnitSeconds(d.unit) >= 60;
    if d.count > 0 {
      assert Seconds(d) >= UnitSeconds(d.unit);
    }
  }

  /** A missing time tag leaves the clock reading, as the text "0 m" does. */
  lemma MissingTimeTagIsNow(now: int)
    ensures PublishedAt(now, None) == now
  {
    MissingTimeTextIsZero();
  }

  // ---------------------------------------------------------------------
  // Completeness status of a scraped article
  // ---------------------------------------------------------------------

  /** The text of each tag the scraper looks up, None when the tag (or its attribute) is absent. */
  datatype ArticlePage = ArticlePage(
    title: Option<string>,
    content: Option<string>,
    sourceLink: Option<string>,
    timeText: Option<string>,
    imageUrl: Option<string>)

  datatype ArticleResponse = ArticleResponse(statusCode: int, page: ArticlePage, now: int)

  datatype Status = SuccessfullyScraped | PartiallyScraped

  /** The dictionary scrape_article returns. */
  datatype Article = Article(
    dataId: string,
    title: Option<string>,
    content: Option<string>,
    sourceLink: Option<string>,
    published: int,
    imageUrl: Option<string>,
    status: Status)

  /** The keys of the article dictionary, in the order the source writes them. */
  datatype Field = DataIdKey | TitleKey | ContentKey | SourceLinkKey | DatetimePublishedKey | ImageUrlKey

  /**
   * missing_fields: the keys whose value is None, in dictionary order.  The
   * data id and the publication time are never None.
   */
  function MissingFields(p: ArticlePage): seq<Field> {
    (if p.title.None? then [TitleKey] else [])
    + (if p.content.None? then [ContentKey] else [])
    + (if p.sourceLink.None? then [SourceLinkKey] else [])
    + (if p.imageUrl.None? then [ImageUrlKey] else [])
  }

  /** A key is listed exactly when its value is None; the data id and the time never are. */
  lemma MissingFieldsAreTheNoneOnes(p: ArticlePage)
    ensures MissingFields(p) == [] <==>
      p.title.Some? && p.content.Some? && p.sourceLink.Some? && p.imageUrl.Some?
    ensures TitleKey in MissingFields(p) <==> p.title.None?
    ensures ContentKey in MissingFields(p) <==> p.content.None?
    ensures SourceLinkKey in MissingFields(p) <==> p.sourceLink.None?
    ensures ImageUrlKey in MissingFields(p) <==> p.imageUrl.None?
    ensures DataIdKey !in MissingFields(p) && DatetimePublishedKey !in MissingFields(p)
  {
  }

  /** The status an article is kept with, or None when it is skipped. */
  function Classify(p: ArticlePage): Option<Status> {
    if MissingFields(p) != [] then
      if Truthy(p.title) && Truthy(p.content) then Some(PartiallyScraped) else None
    else Some(SuccessfullyScraped)
  }

  /** The three outcomes of the classifier, each stated by the fields. */
  lemma ClassifyOutcomes(p: ArticlePage)
    ensures Classify(p) == Some(SuccessfullyScraped) <==>
      p.title.Some? && p.content.Some? && p.sourceLink.Some? && p.imageUrl.Some?
    ensures Classify(p) == Some(PartiallyScraped) <==>
      (p.sourceLink.None? || p.imageUrl.None?) && Truthy(p.title) && Truthy(p.content)
    ensures Classify(p) == None <==>
      (p.title.None? || p.content.None? || p.sourceLink.None? || p.imageUrl.None?)
      && !(Truthy(p.title) && Truthy(p.content))
  {
    MissingFieldsAreTheNoneOnes(p);
  }

  /** Only None counts as missing: an empty title with every field present is a full success. */
  lemma EmptyTitleIsSuccess(content: string, link: string, image: string, timeText: Option<string>)
    ensures Classify(ArticlePage(Some(""), Some(content), Some(link), timeText, Some(image)))
      == Some(SuccessfullyScraped)
  {
    assert MissingFields(ArticlePage(Some(""), Some(content), Some(link), timeText, Some(image))) == [];
  }

  /** scrape_article: None on a non-200 response or a skipped article. */
  function ScrapeArticle(r: ArticleResponse, dataId: string): (a: Option<Article>)
    ensures a.Some? <==> r.statusCode == 200 && Classify(r.page).Some?
  {
    if r.statusCode != 200 then None
    else
      match Classify(r.page)
      case None => None
      case Some(st) =>
        var p := r.page;
        Some(Article(dataId, p.title, p.content, p.sourceLink,
                     PublishedAt(r.now, p.timeText), p.imageUrl, st))
  }

  /** A kept article carries the page's fields, the caller's data id and a time no later than the scrape. */
  lemma ScrapeArticleKept(r: ArticleResponse, dataId: string)
    requires ScrapeArticle(r, dataId).Some?
    ensures var a := ScrapeArticle(r, dataId).value;
      && a.dataId == dataId
      && a.title == r.page.title && a.content == r.page.content
      && a.sourceLink == r.page.sourceLink && a.imageUrl == r.page.imageUrl
      && a.published <= r.now
      && Some(a.status) == Classify(r.page)
      && (a.status == PartiallyScraped ==> Truthy(a.title) && Truthy(a.content))
  {
    PublishedAtNeverLater(r.now, r.page.timeText);
  }

  lemma PublishedAtNeverLater(now: int, timeText: Option<string>)
    ensures PublishedAt(now, timeText) <= now
  {
  }

  // ---------------------------------------------------------------------
  // data_id = '/'.join(url.split('/')[3:])
  // ---------------------------------------------------------------------

  function DataId(url: string): string {
    JoinSlash(DropPrefix(SplitSlash(url), 3))
  }

  /** The text after the n-th slash of s, None when s has fewer slashes. */
  function AfterSlashes(s: string, n: nat): Option<string> {
    if n == 0 then Some(s)
    else if s == [] then None
    else if s[0] == '/' then AfterSlashes(s[1..], n - 1)
    else AfterSlashes(s[1..], n)
  }

  lemma {:induction false} JoinAfterSplit(s: string, n: nat)
    ensures JoinSlash(DropPrefix(SplitSlash(s), n)) == AfterSlashes(s, n).GetOr("")
  {
    if n == 0 {
      SplitJoinRoundTrip(s);
      assert DropPrefix(SplitSlash(s), 0) == SplitSlash(s);
    } else if s == [] {
    } else if s[0] == '/' {
      JoinAfterSplit(s[1..], n - 1);
      var rest := SplitSlash(s[1..]);
      assert DropPrefix([[]] + rest, n) == DropPrefix(rest, n - 1);
    } else {
      JoinAfterSplit(s[1..], n);
      var rest := SplitSlash(s[1..]);
      var parts := [[s[0]] + rest[0]] + rest[1..];
      assert SplitSlash(s) == parts;
      assert DropPrefix(parts, n) == DropPrefix(rest, n);
    }
  }

  /** The data id is the URL after its third slash, "" when there is none. */
  lemma DataIdAfterThirdSlash(url: string)
    ensures DataId(url) == AfterSlashes(url, 3).GetOr("")
  {
    JoinAfterSplit(url, 3);
  }

  /** Skipping a slash-free prefix and its slash uses up one slash. */
  lemma {:induction false} AfterSlashFree(a: string, b: string, n: nat)
    requires forall i :: 0 <= i < |a| ==> a[i] != '/'
    ensures AfterSlashes(a + "/" + b, n + 1) == AfterSlashes(b, n)
  {
    if a == [] {
      assert a + "/" + b == ['/'] + b;
      assert (['/'] + b)[1..] == b;
    } else {
      assert (a + "/" + b)[0] == a[0];
      assert (a + "/" + b)[1..] == a[1..] + "/" + b;
      AfterSlashFree(a[1..], b, n);
    }
  }

  lemma {:induction false} NoSlashLeft(a: string, n: nat)
    requires forall i :: 0 <= i < |a| ==> a[i] != '/'
    ensures AfterSlashes(a, n + 1) == None
  {
    if a != [] {
      NoSlashLeft(a[1..], n);
    }
  }

  /**
   * An article URL `scheme://host/path` has the path as its data id; a bare
   * `scheme://host` has the empty data id.
   */
  lemma DataIdOfArticleUrl(scheme: string, host: string, path: string)
    requires forall i :: 0 <= i < |scheme| ==> scheme[i] != '/'
    requires forall i :: 0 <= i < |host| ==> host[i] != '/'
    ensures DataId(scheme + "//" + host + "/" + path) == path
    ensures DataId(scheme + "//" + host) == ""
  {
    var url := scheme + "//" + host + "/" + path;
    assert url == scheme + "/" + ("" + "/" + (host + "/" + path));
    AfterSlashFree(scheme, "" + "/" + (host + "/" + path), 2);
    AfterSlashFree("", host + "/" + path, 1);
    AfterSlashFree(host, path, 0);
    DataIdAfterThirdSlash(url);
    var bare := scheme + "//" + host;
    assert bare == scheme + "/" + ("" + "/" + host);
    AfterSlashFree(scheme, "" + "/" + host, 2);
    AfterSlashFree("", host, 1);
    NoSlashLeft(host, 0);
    DataIdAfterThirdSlash(bare);
  }

  // ---------------------------------------------------------------------
  // The batch loop of the script's main block
  // ---------------------------------------------------------------------

  /**
   * The main block: each URL's data id is its path, each page goes through
   * scrape_article, and the loop above keeps what comes back.
   */
  method ScrapeArticles(urls: seq<string>, fetch: string -> ArticleResponse, limit: Option<int>)
    returns (articles: seq<Article>, total: int)
    ensures articles == CollectFrom(urls, u => ScrapeArticle(fetch(u), DataId(u)), limit, [])
    ensures total == |articles|
    ensures limit.Some? && limit.value > 0 ==> total <= limit.value
    ensures forall j :: 0 <= j < |articles| ==>
      exists u :: u in urls && ScrapeArticle(fetch(u), DataId(u)) == Some(articles[j])
  {
    var scrape := u => ScrapeArticle(fetch(u), DataId(u));
    articles, total := CollectLoop(urls, scrape, limit, []);
    forall j | 0 <= j < |articles|
      ensures exists u :: u in urls && scrape(u) == Some(articles[j])
    {
      CollectedFromUrls(urls, scrape, limit, [], j);
    }
  }
}
