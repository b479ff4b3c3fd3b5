# coincap-viz: the derived metrics and the news scrapers, in Dafny

coincap-viz is a Streamlit dashboard over the CoinCap market API, plus two
scrapers for the cryptonews.net site. This project models the parts of it that
compute something, and proves what they promise:

- **Market metrics** (`app.py`):
  - the top-3 gainers, losers and volume leaders that `nlargest`/`nsmallest`
    select;
  - an asset's volatility: the spread of its consecutive percent changes;
  - the risk-profile table, built by a loop over the assets;
  - a price series normalised to percent change from its first price, for the
    top-asset panel;
  - the group panel. It skips members that raise and averages the rest point
    by point.
- **Momentum oscillator** (`pages/2_momentum_analysis.py`): the RSI-like
  `calculate_momentum`. It is built from clamped differences, trailing rolling
  means and `100 - 100/(1+rs)`, in IEEE arithmetic over NaN and ±infinity.
- **Article scraper** (`scraping/articles.py`):
  - the relative-time parser `parse_time_ago`, i.e. `re.match(r'(\d+)\s*(m|h|d)')`
    after `strip`;
  - the publication time;
  - the missing-field classifier (Successfully Scraped, Partially Scraped or
    skipped);
  - the `data_id` taken from a URL;
  - the main loop under its article limit.
- **News crawler** (`scraping/news.py`):
  - `get_article_links`, which deduplicates `data-id`s against a set it
    updates in place;
  - the page-URL rule;
  - `scrape_article`, with its placeholder texts;
  - the `while True` crawl and its three stop conditions.

Everything the program fetches or reads is a parameter of the model:

- CoinCap histories are functions from an asset id to an optional list of
  points.
- Listing pages and article pages are functions from a URL to the response.
- The clock is an integer.

Python floats are `real`. The extended-real type `ExtReal.Ext` (a number, NaN
or ±infinity) is used only where pandas or numpy produce NaN or infinity.

The source's form is kept:

- Pure expressions become functions and lemmas.
- Loops become methods with loop invariants.
  - These methods are proved equal to a specification function:
    Performance.GroupPerformance (GroupPanel), ScrapeLoop.CollectLoop
    (CollectFrom) and News.Crawl (CrawlFrom).
  - These are specified pointwise, each result entry given by the per-item
    function they are passed, or the first failure: Volatility.CollectRiskTable
    and Performance.CollectTraces.
- The shared `scraped_urls` set is a field of the class `News.LinkRegistry`.
  Its method GetArticleLinks updates that field.

Modules and files:

| module | file |
|---|---|
| Wrappers | wrappers.dfy |
| ExtReal | ext_real.dfy |
| Text | text.dfy |
| Series | series.dfy |
| AssetHistory | history.dfy |
| MarketRanking | ranking.dfy |
| Volatility | volatility.dfy |
| Performance | performance.dfy |
| Momentum | momentum.dfy |
| ScrapeLoop | scrape_loop.dfy |
| Articles | articles.dfy |
| News | news.dfy |

ScrapeLoop is the article-collecting loop that both scrapers share.

### Edge cases the model keeps as the code has them

- **Momentum.** The undefined prefix is `window - 1` entries long, not `window`
  (pages/2_momentum_analysis.py:11-15): `delta.where(delta > 0, 0)` turns the
  NaN first difference into 0, so the first full window ends at index
  `window - 1`. After that prefix, an entry is NaN exactly when the price did
  not move in its window, because both means are 0 and `0/0` makes `rs` NaN
  (Momentum.MomentumDefinedIff).
- **Volatility with one price.** One price gives NaN, not an error
  (app.py:56): the percent changes are all NaN, `dropna` leaves an empty
  series, and `np.std` of it times 100 is NaN.
- **Volatility of constant prices.** Two or more equal prices give 0 only when
  the price is non-zero. Equal zero prices give 0/0 returns. `dropna` removes
  them all, so the result is NaN.
- **Group panel and empty histories.** An empty history in the group panel
  contributes `[]` (app.py:211-213): the comprehension over `[]` yields `[]`,
  and that member is appended. Only these skip a member:
  - a failed fetch;
  - a zero first price, which raises ZeroDivisionError.

  Members of different lengths make `np.mean` raise outside the `try`
  (app.py:219), and the panel fails.

## Model

| member | source | states |
|---|---|---|
| MarketRanking.Changes | app.py:21 | the change column holds each row's `changePercent24Hr`, index by index |
| MarketRanking.Volumes | app.py:22 | the volume column holds each row's `volumeUsd24Hr`, index by index |
| MarketRanking.InsertPermutes | app.py:24-26 | inserting a position into the ranked list adds exactly that position (multiset) |
| MarketRanking.InsertRanked | app.py:24-26 | inserting a new position into a ranked list keeps it ranked by (value, position) |
| MarketRanking.RankPermutes | app.py:24-26 | the sort behind `nlargest`/`nsmallest` is a permutation of the positions |
| MarketRanking.RankLength | app.py:24-26 | the sort keeps every row |
| MarketRanking.RankRanked | app.py:24-26 | the sorted positions are in strict rank order: better value first, ties in input order (keep='first') |
| MarketRanking.RankContains | app.py:24-26 | every input row appears in the ranking |
| MarketRanking.PrefixAhead | app.py:24-26 | in a ranked list, every entry of a prefix ranks ahead of any entry outside it |
| MarketRanking.Select | app.py:24-26 | definition of `nlargest(n)`/`nsmallest(n)` over one column: the positions it selects are in range; characterised by MarketRanking.SelectSpec and MarketRanking.SelectAll |
| MarketRanking.SelectSpec | app.py:24-26 | `nlargest(n)`/`nsmallest(n)` returns min(n, len) rows in rank order; every row left out ranks behind every row selected |
| MarketRanking.SelectAll | app.py:24-26 | selecting as many rows as there are returns every row |
| MarketRanking.SmallMarketShowsAll | app.py:24-26 | with 3 assets or fewer, each panel shows all of them |
| MarketRanking.Rows | app.py:24-26 | the displayed frame has one row per selected position |
| MarketRanking.PanelSpec | app.py:24-26 | a panel has min(3, len) rows: name, symbol and value of distinct input rows, ordered by value, ties in input order, with nothing better left out |
| MarketRanking.Gainers | app.py:24 | definition of `df.nlargest(3, 'changePercent24Hr')` with its three columns; characterised by MarketRanking.GainersSpec and MarketRanking.PanelSpec |
| MarketRanking.Losers | app.py:25 | definition of `df.nsmallest(3, 'changePercent24Hr')`; characterised by MarketRanking.LosersSpec |
| MarketRanking.VolumeLeaders | app.py:26 | definition of `df.nlargest(3, 'volumeUsd24Hr')`; characterised by MarketRanking.VolumeLeadersSpec |
| MarketRanking.MarketMetrics | app.py:17-28 | definition of `get_market_metrics`: the gainers, losers and volume leaders panels, in that order; characterised by the three panel rows above and MarketRanking.SmallMarketShowsAll |
| MarketRanking.GainersSpec | app.py:24 | gainers: min(3, len) input rows by descending 24h change; no row left out has a larger change |
| MarketRanking.LosersSpec | app.py:25 | losers: min(3, len) input rows by ascending 24h change; no row left out has a smaller change |
| MarketRanking.VolumeLeadersSpec | app.py:26 | volume leaders: min(3, len) input rows by descending volume; no row left out has a larger volume |
| AssetHistory.Prices | app.py:55 | the price list has one entry per history record: that record's `priceUsd` |
| AssetHistory.Times | app.py:132 | the timestamp list has one entry per history record: that record's time |
| Volatility.PctChange | app.py:56 | `pct_change` has one entry per price |
| Volatility.PctChangeAt | app.py:56 | after a non-zero price, the change is the finite `p[i]/p[i-1] - 1` |
| Volatility.DropNaN | app.py:56 | `dropna` keeps no NaN and never lengthens the series |
| Volatility.DropNaNNone | app.py:56 | `dropna` of a series without NaN is that series |
| Volatility.DropNaNAll | app.py:56 | `dropna` of an all-NaN series is empty |
| Volatility.DropNaNHead | app.py:56 | `dropna` removes a NaN first entry and nothing else |
| Volatility.DropNaNSplit | app.py:56 | `dropna` distributes over concatenation |
| Volatility.NonZeroReturns | app.py:56 | with no zero prices, the returns are every change after the first, all finite, one fewer than the prices |
| Series.Sum | app.py:56 | definition of the sum behind every mean (`np.std`'s variance, `rolling().mean()`, `np.mean`); characterised by Series.SumNonNegative, SumZero, SumBetween and SumConstant |
| Series.SumNonNegative | app.py:56 | a sum of non-negative terms is non-negative (variance and window means) |
| Series.SumZero | pages/2_momentum_analysis.py:12-13 | a sum of non-negative terms is zero exactly when every term is (a flat window) |
| Series.SumBetween | app.py:219 | a sum of n terms between lo and hi lies between n·lo and n·hi (the group mean stays within its members) |
| Series.SumConstant | app.py:56 | the sum of n copies of c is n·c (the variance of constant prices) |
| Volatility.SquaredDeviations | app.py:56 | one squared deviation per value |
| Volatility.VarianceNonNegative | app.py:56 | the population variance is never negative |
| Volatility.ConstantSeries | app.py:56 | a constant series has its value as mean and variance 0 |
| Volatility.SquaredVolatility | app.py:53-56 | definition of `get_volatility`, squared (see Left out): 10000 times the population variance of the NaN-free percent changes, NaN when none is left or one of them is infinite; characterised by Volatility.SquaredVolatilityNonNegative, SquaredVolatilityNotInfinite, TooFewPrices, ConstantPricesZero and ZeroPricesUndefined |
| Volatility.SquaredVolatilityNonNegative | app.py:53-56 | a defined volatility is never negative |
| Volatility.SquaredVolatilityNotInfinite | app.py:53-56 | the volatility is a number or NaN, never infinite |
| Volatility.TooFewPrices | app.py:53-56 | fewer than two prices give NaN |
| Volatility.ConstantPricesZero | app.py:53-56 | two or more equal non-zero prices give volatility exactly 0 |
| Volatility.ZeroPricesUndefined | app.py:53-56 | an all-zero price series gives NaN, not 0 |
| Volatility.CollectRiskTable | app.py:72-83 | the loop fills the five columns index by index: name, market cap, volatility, volume, change. It fails exactly when some asset's history fetch fails |
| Volatility.RiskProfile | app.py:58-83 | the risk-profile table: each asset's name, cap, volume and change, with the volatility of its fetched history. It fails when any fetch fails |
| Performance.PercentFrom | app.py:136 | one percent value per price |
| Performance.Normalize | app.py:131-136 | definition of the normalisation to percent change from the first price, with its IndexError and ZeroDivisionError; characterised by Performance.NormalizeSpec, NormalizedSign and NormalizeExample |
| Performance.NormalizeSpec | app.py:131-136 | the result is an error exactly for an empty history (IndexError) or a zero base (ZeroDivisionError). Otherwise it has the prices' length and starts at exactly 0 |
| Performance.ChangeSign | app.py:136 | with a positive base, `(p - b)/b*100` is positive, zero or negative exactly as p is above, at or below b |
| Performance.NormalizedSign | app.py:136 | with a positive first price, value i is > 0, = 0 or < 0 exactly as price i is above, at or below the first |
| Performance.NormalizeExample | app.py:134-136 | 100, 110, 99 normalise to 0, 10, -1 |
| Performance.AssetTrace | app.py:124-146 | definition of one iteration of the top-asset loop: the trace or the exception it raises; characterised by Performance.AssetTraceSpec |
| Performance.AssetTraceSpec | app.py:124-146 | one asset's trace: the fetch error, IndexError on an empty history, ZeroDivisionError on a zero base. Otherwise the asset's name, its timestamps and its normalised prices |
| Performance.CollectTraces | app.py:124-146 | succeeds exactly when every asset's trace does, and then holds those traces in order. Otherwise it fails with the error of the first failing asset |
| Performance.TopAssetPerformance | app.py:114-146 | the top-asset panel: the traces of all assets, in order, or the first asset's exception |
| Performance.MemberPerformance | app.py:211-212 | a member series has one value per history record |
| Performance.MemberStep | app.py:204-215 | definition of one try/except step of the inner group loop; characterised by Performance.MemberStepSpec |
| Performance.CollectMembers | app.py:203-215 | definition of the inner loop over a group's members; characterised by Performance.CollectedFromMembers |
| Performance.MemberStepSpec | app.py:204-215 | a failed fetch changes nothing. A zero base keeps the fetched history but adds no series. An empty history adds `[]`. Otherwise the member's percent series is appended |
| Performance.CollectedFromMembers | app.py:202-215 | the inner loop only appends, at most one series per member, each the series of one of the members |
| Performance.Column | app.py:219 | column i holds each member's value at index i |
| Performance.PointwiseMean | app.py:219 | the mean has the members' common length |
| Performance.NoMemberNoTrace | app.py:217 | a group with no collected series adds no trace |
| Performance.SingleMemberIsItsSeries | app.py:217-219 | a single collected series is the group's line |
| Performance.MeanWithinMembers | app.py:219 | each averaged point lies between the smallest and the largest member value at that index |
| Performance.RaggedGroupFails | app.py:219 | members of different lengths make the panel fail |
| Performance.GroupOutcomeOf | app.py:217-224 | definition of what a group adds once its members are collected: nothing, a trace, or the `np.mean` failure; characterised by Performance.NoMemberNoTrace, SingleMemberIsItsSeries, MeanWithinMembers and RaggedGroupFails |
| Performance.GroupPanel | app.py:201-224 | definition of the group panel as written, history carried across members and groups; characterised by Performance.GroupPerformance and Performance.TimestampsFromSkippedMember |
| Performance.GroupPerformance | app.py:201-224 | the nested loops produce exactly the group panel of the specification function GroupPanel |
| Performance.AssetGroupPerformance | app.py:188-224 | the group panel over the four hand-configured groups |
| Performance.TimestampsFromSkippedMember | app.py:203-220 | as written: a skipped last member supplies the timestamps, so the line has 2 timestamps for 1 value (see Findings) |
| Performance.AlignedGroupPanel | app.py:201-224 | corrected definition of the group panel, with the timestamps of the last averaged member; characterised by Performance.CollectAlignedLast and Performance.AlignedTracesMatch |
| Performance.CollectAlignedLast | app.py:201-220 | corrected: the history kept for the x-axis has as many points as the last series averaged |
| Performance.AlignedTracesMatch | app.py:201-220 | corrected: every group line has as many timestamps as values |
| ExtReal.Neg | pages/2_momentum_analysis.py:13 | negation keeps finiteness and negates the value |
| ExtReal.Add | pages/2_momentum_analysis.py:15 | finite sums are exact; NaN propagates |
| ExtReal.Sub | pages/2_momentum_analysis.py:15 | finite differences are exact |
| ExtReal.Div | pages/2_momentum_analysis.py:14-15 | finite over non-zero is exact, finite over zero is a signed infinity or NaN (0/0), finite over infinity is 0, NaN propagates |
| Momentum.Gain | pages/2_momentum_analysis.py:12 | the clamped gain is never negative, and positive exactly when the price rose |
| Momentum.Loss | pages/2_momentum_analysis.py:13 | the clamped loss is never negative, and positive exactly when the price fell |
| Momentum.Gains | pages/2_momentum_analysis.py:12 | one gain per price |
| Momentum.Losses | pages/2_momentum_analysis.py:13 | one loss per price |
| Momentum.RollingMean | pages/2_momentum_analysis.py:12-13 | the rolling mean has one entry per value |
| Momentum.CalculateMomentum | pages/2_momentum_analysis.py:9-15 | the output has the same length as the prices |
| Momentum.RatioForm | pages/2_momentum_analysis.py:15 | `100 - 100/(1 + g/l)` equals `100g/(g + l)` for a positive loss |
| Momentum.Indicator | pages/2_momentum_analysis.py:14-15 | definition of `100 - (100 / (1 + gain / loss))` in IEEE arithmetic; characterised by Momentum.IndicatorOf, IndicatorBounded and RatioForm |
| Momentum.IndicatorOf | pages/2_momentum_analysis.py:14-15 | for finite non-negative g and l, the indicator by case: positive loss gives 100g/(g+l), and 0 when g is 0. Zero loss gives 100 with a gain and NaN without one |
| Momentum.IndicatorBounded | pages/2_momentum_analysis.py:14-15 | that indicator is NaN exactly when both are 0; otherwise it lies in [0, 100] |
| Momentum.WindowMeansNonNegative | pages/2_momentum_analysis.py:12-13 | a window's mean gain and mean loss are non-negative |
| Momentum.MomentumAt | pages/2_momentum_analysis.py:11-15 | from index window-1 on, entry i is the indicator of the window's mean gain and loss |
| Momentum.UndefinedBeforeWindow | pages/2_momentum_analysis.py:12-13 | the first window-1 entries are NaN |
| Momentum.MomentumValue | pages/2_momentum_analysis.py:14-15 | with some loss in the window, entry i is 100g/(g+l), and exactly 0 when there is no gain |
| Momentum.MomentumNoLoss | pages/2_momentum_analysis.py:14-15 | with no loss in the window, entry i is exactly 100 when there is a gain and NaN when the price did not move |
| Momentum.MomentumBounded | pages/2_momentum_analysis.py:9-15 | every entry is NaN or lies in [0, 100]; none is infinite |
| Momentum.StretchAt | pages/2_momentum_analysis.py:12-13 | entry k of a slice of the gains or losses is the gain or loss at the matching index |
| Momentum.FlatStretch | pages/2_momentum_analysis.py:11-13 | gains and losses on a stretch are all zero exactly when the price does not move there |
| Momentum.FlatSums | pages/2_momentum_analysis.py:11-13 | total gain and total loss on a stretch are both zero exactly when the price does not move there |
| Momentum.WindowFlat | pages/2_momentum_analysis.py:11-13 | a window's mean gain and mean loss are both zero exactly when the price is flat in it |
| Momentum.MomentumDefinedIff | pages/2_momentum_analysis.py:11-15 | entry i is a number exactly when i >= window-1 and the price moved in its window |
| Momentum.GainsMinusLosses | pages/2_momentum_analysis.py:11-13 | over a stretch, total gains minus total losses is the net price change |
| Momentum.WindowNetChange | pages/2_momentum_analysis.py:12-13 | mean gain minus mean loss is the price change across the window divided by its length |
| Text.StripLeft | scraping/articles.py:20 | lstrip removes exactly the leading whitespace, whitespace being every character `str.isspace()` accepts (U+00A0, U+2000-U+200A, U+3000 and the others included) |
| Text.StripRight | scraping/articles.py:20 | rstrip removes exactly the trailing whitespace, Unicode whitespace included |
| Text.Strip | scraping/articles.py:20 | definition of `str.strip()` as rstrip after lstrip; characterised by Text.StripLeft, Text.StripRight, StripUntouched, StripIsSlice and Articles.StripAround |
| Text.StripUntouched | scraping/articles.py:20 | a text with no whitespace at either end is its own strip |
| Text.StripLeftSpaces | scraping/articles.py:20 | leading whitespace before a non-space is dropped |
| Text.StripRightAppend | scraping/articles.py:20 | rstrip only touches what follows the last non-space |
| Text.DigitNotSpace | scraping/articles.py:20 | no digit is whitespace, so `\d+` and `\s*` never compete for a character |
| Text.StripIsSlice | scraping/articles.py:20 | `strip()` returns a contiguous slice of its argument |
| Text.Reassemble | scraping/articles.py:20-24 | a text is its digit group, its whitespace, the unit letter and the rest, as `re.match` splits it |
| Text.LeadingDigits | scraping/articles.py:20 | `\d+` takes the longest run of leading ASCII digits |
| Text.LeadingSpaces | scraping/articles.py:20 | `\s*` takes the longest run of leading whitespace, the same characters `str.isspace()` accepts, so U+00A0 and the other Unicode spaces count |
| Text.DigitValue | scraping/articles.py:25 | a digit's value is below 10 |
| Text.DigitChar | scraping/news.py:95 | the digit character for d reads back as d |
| Text.NatToString | scraping/news.py:95 | `str(n)` is a non-empty string of digits |
| Text.NatToStringRoundTrip | scraping/news.py:95 | `int(str(n)) == n` |
| Text.NatToStringInjective | scraping/news.py:95 | different numbers have different spellings |
| Text.SplitSlash | scraping/articles.py:115 | `split('/')` yields at least one piece |
| Text.JoinSlashPrepend | scraping/articles.py:115 | text glued onto the first piece is glued onto the join |
| Text.SplitJoinRoundTrip | scraping/articles.py:115 | `'/'.join(s.split('/')) == s` |
| Text.SplitSlashHead | scraping/articles.py:115 | a slash-free head and a slash split off as the first piece |
| Text.SplitSlashFree | scraping/articles.py:115 | a slash-free string splits into itself |
| Text.DropPrefix | scraping/articles.py:115 | `xs[k:]`: the entries from k on, empty once k passes the end |
| Articles.UnitSeconds | scraping/articles.py:27-32 | each unit lasts a positive number of seconds |
| Articles.UnitChar | scraping/articles.py:27-32 | the letter written for a unit is read back as that unit |
| Articles.FormatTimeAgo | scraping/articles.py:17-19 | the site's "21 m" form starts with a digit and ends with the unit letter |
| Articles.LeadingDigitsOfNumber | scraping/articles.py:20 | the digits before a non-digit are what `\d+` takes |
| Articles.LeadingSpacesOf | scraping/articles.py:20 | the whitespace before a non-space is what `\s*` takes |
| Articles.Regroup | scraping/articles.py:20 | after the digits, the text is the whitespace, then the unit letter |
| Articles.MatchTimeAgo | scraping/articles.py:20-32 | definition of `re.match(r'(\d+)\s*(m|h|d)', t)` and the timedelta built from its groups; characterised by Articles.MatchTimeAgoIff, MatchShape, NoNumberNoMatch and NoUnitNoMatch |
| Articles.ParseTimeAgo | scraping/articles.py:18-32 | definition of `parse_time_ago`: the pattern over the stripped text; characterised by Articles.ParseTimeAgoIff, ParseTimeAgoRoundTrip, ParseTimeAgoNeedsUnit and ParseTimeAgoAnySpace |
| Articles.MatchShape | scraping/articles.py:20-32 | digits, whitespace, a letter and any tail: the count in minutes, hours or days for m, h or d; no match for any other letter |
| Articles.MatchSteps | scraping/articles.py:20-32 | the match is read off from its three pieces |
| Articles.MatchFormatted | scraping/articles.py:20-32 | the pattern reads "N u" back as N units, whatever follows ("5 hours ago" gives 5 hours) |
| Articles.MatchTimeAgoIff | scraping/articles.py:20-32 | the pattern matches with delta d exactly when the text splits into a non-empty digit run spelling d's count, whitespace, d's unit letter and a tail |
| Articles.MatchPieces | scraping/articles.py:20-24 | a successful match splits the text into its digit group, whitespace, unit letter and tail, and its groups give the count and unit |
| Articles.NoNumberNoMatch | scraping/articles.py:20-22 | a text that does not start with a digit gives no match |
| Articles.NoUnitNoMatch | scraping/articles.py:20-22 | a text of digits and whitespace only ("21", "21 ") gives no match |
| Articles.ParseTimeAgoIff | scraping/articles.py:18-32 | `parse_time_ago` gives d exactly when the stripped text has the digits-whitespace-unit shape for d; None otherwise |
| Articles.ParseTimeAgoNeedsUnit | scraping/articles.py:18-22 | `parse_time_ago` of a text of digits and whitespace only is None |
| Articles.MatchSpaced | scraping/articles.py:20-32 | the pattern reads `str(n)`, any whitespace and a unit letter back as n units, whatever follows |
| Articles.ParseTimeAgoAnySpace | scraping/articles.py:18-32 | any run of whitespace between the number and the unit letter is accepted, whatever follows |
| Articles.NoBreakSpaceTime | scraping/articles.py:18-28 | "21" + U+00A0 + "m", the text of `21&nbsp;m`, is 21 minutes |
| Articles.StripAround | scraping/articles.py:20 | strip removes the surrounding whitespace and only that |
| Articles.ParseTimeAgoRoundTrip | scraping/articles.py:18-32 | `parse_time_ago` of "N u" with any leading whitespace and any tail gives N units |
| Articles.MissingTimeTextIsZero | scraping/articles.py:58-61 | the default "0 m" parses to a zero delta |
| Articles.PublishedAt | scraping/articles.py:57-65 | definition of `datetime_published` from the time tag's text and the clock; characterised by Articles.PublishedAtBounds, MissingTimeTagIsNow and PublishedAtNeverLater |
| Articles.PublishedAtBounds | scraping/articles.py:61-65 | the time is the clock itself exactly when the text does not parse or parses to zero (a falsy timedelta); otherwise it is the clock minus the delta |
| Articles.SecondsZero | scraping/articles.py:62 | a delta is zero seconds (falsy) exactly when its count is zero |
| Articles.MissingTimeTagIsNow | scraping/articles.py:57-65 | a missing time tag gives the clock reading |
| Articles.PublishedAtNeverLater | scraping/articles.py:61-65 | the publication time is never later than the clock, and never None |
| Articles.MissingFields | scraping/articles.py:71-80 | definition of `missing_fields`, the keys whose value is None in dictionary order; characterised by Articles.MissingFieldsAreTheNoneOnes |
| Articles.MissingFieldsAreTheNoneOnes | scraping/articles.py:71-80 | a key is listed as missing exactly when its value is None; the data id and the time never are |
| Articles.Classify | scraping/articles.py:82-94 | definition of the status branch: kept with a status, or skipped; characterised by Articles.ClassifyOutcomes and EmptyTitleIsSuccess |
| Articles.ClassifyOutcomes | scraping/articles.py:80-94 | Successfully Scraped exactly when nothing is None. Partially Scraped exactly when the link or the image is None and title and content are truthy. Skipped otherwise |
| Articles.EmptyTitleIsSuccess | scraping/articles.py:80-92 | an empty title with every field present is still Successfully Scraped |
| Articles.ScrapeArticle | scraping/articles.py:35-94 | an article is returned exactly when the response is 200 and the classifier keeps it |
| Articles.ScrapeArticleKept | scraping/articles.py:71-94 | a kept article carries the page's fields, the caller's data id, the classifier's status and a time no later than the clock |
| Articles.DataId | scraping/articles.py:115 | definition of `'/'.join(url.split('/')[3:])`; characterised by Articles.DataIdAfterThirdSlash and DataIdOfArticleUrl |
| Articles.JoinAfterSplit | scraping/articles.py:115 | joining the pieces from index n on is the text after the n-th slash, or "" |
| Articles.DataIdAfterThirdSlash | scraping/articles.py:115 | the data id is the URL after its third slash, "" when it has fewer |
| Articles.AfterSlashFree | scraping/articles.py:115 | a slash-free head and its slash use up one slash |
| Articles.NoSlashLeft | scraping/articles.py:115 | a slash-free text has nothing after a further slash |
| Articles.DataIdOfArticleUrl | scraping/articles.py:114-115 | "scheme://host/path" gives "path" ("news/finance/30203892/"); "scheme://host" gives "" |
| Articles.ScrapeArticles | scraping/articles.py:110-124 | the main loop returns the articles kept under the limit, in URL order, each one from an input URL. The count equals the list's length and never exceeds a positive limit |
| ScrapeLoop.CollectFrom | scraping/articles.py:113-124 | definition of the collect-under-a-limit loop both scrapers run; characterised by ScrapeLoop.CollectWithinLimit, CollectExtends, CollectedFromUrls and CollectLoop |
| ScrapeLoop.CollectWithinLimit | scraping/articles.py:118-124 | with a positive limit not yet reached, the collected list never exceeds it |
| ScrapeLoop.CollectExtends | scraping/news.py:105-117 | what was collected before stays at the front |
| ScrapeLoop.CollectedFromUrls | scraping/articles.py:113-120 | every newly collected item is the scrape of one of the URLs |
| ScrapeLoop.CollectLoop | scraping/articles.py:113-124 | the loop's list is the specification function CollectFrom's; the counter equals its length and stays within a positive limit |
| News.PageUrl | scraping/news.py:95 | definition of the page URL; characterised by News.PageUrlShape and PageUrlInjective |
| News.PageUrlShape | scraping/news.py:95 | page n > 1 is the base URL, `?page=`, then n in decimal |
| News.PageUrlInjective | scraping/news.py:95 | different page numbers from 1 on are fetched from different URLs |
| News.Elements | scraping/news.py:38 | the set of a list's ids holds exactly those ids |
| News.ElementsAppend | scraping/news.py:38 | adding an id to the list adds it to the set |
| News.ArticleUrls | scraping/news.py:35 | each link is `'https://cryptonews.net' + data_id`, in page order |
| News.ArticleUrlsAppend | scraping/news.py:35-37 | appending an id appends its link |
| News.NewIds | scraping/news.py:30-38 | definition of the ids a page adds: truthy, unseen, first occurrence only, in page order; characterised by News.NewIdsFresh, NewIdsComplete and NewIdsAllFresh |
| News.Links | scraping/news.py:20-41 | definition of the list `get_article_links` returns, [] on a non-200 response; characterised by News.LinksAndSeen and News.LinkRegistry.GetArticleLinks |
| News.SeenAfter | scraping/news.py:20-41 | definition of `scraped_urls` after the call, unchanged on a non-200 response; characterised by News.LinksAndSeen and NoLinksNoChange |
| News.NewIdsAfterSplit | scraping/news.py:30-38 | resuming the filter after ids already taken appends the rest |
| News.NewIdsStep | scraping/news.py:31-38 | one step of the filter: a truthy unseen id is taken and marked seen; any other id is passed over |
| News.LinkRegistry.constructor | scraping/news.py:89 | the crawl starts with no id seen |
| News.LinkRegistry.GetArticleLinks | scraping/news.py:18-41 | a non-200 page gives [] and leaves the set unchanged. Otherwise it returns the links of the page's new ids and adds exactly those ids to the set |
| News.NewIdsFresh | scraping/news.py:30-38 | the new ids are distinct, none was seen before, and each is a truthy id of the page; a repeated id yields one link |
| News.NewIdsComplete | scraping/news.py:30-38 | every truthy id of the page was seen before or is new |
| News.LinksAndSeen | scraping/news.py:22-38 | non-200 changes nothing. The set only grows, and exactly the ids added give the links |
| News.NewIdsAllFresh | scraping/news.py:30-37 | distinct truthy unseen ids all give links, in page order |
| News.ScrapeNewsArticle | scraping/news.py:43-80 | definition of news.py's `scrape_article` with its placeholder texts; characterised by News.ScrapeNewsArticleSpec |
| News.ScrapeNewsArticleSpec | scraping/news.py:43-80 | None exactly on a non-200 response. Otherwise the link with the page's title, date, author and content (each replaced by its placeholder when missing) and the coin names |
| News.NewIdsOnSite | scraping/news.py:30-38 | a page only adds ids of the site |
| News.ProgressOnLinks | scraping/news.py:99-103 | a page with new links leaves fewer of the site's ids unseen |
| News.VisitPageProgress | scraping/news.py:94-126 | every page visit with links makes progress, so the crawl terminates |
| News.VisitPage | scraping/news.py:99-117 | definition of one page of the crawl: its links, the dedup and the limited scrape; characterised by News.VisitPageExtends, VisitPageRespectsLimit, VisitPageProgress and CrawlPage |
| News.CrawlFrom | scraping/news.py:94-126 | definition of the `while True` crawl from a page on; characterised by News.CrawlStep, CrawlExtends, CrawlWithinLimit, CrawlStopReason, CrawlPages and Crawl |
| News.CrawlStep | scraping/news.py:94-126 | one iteration: stop at page n on no links, the page limit or the article limit, otherwise continue from page n+1 |
| News.CrawlPage | scraping/news.py:95-117 | one page: fetch its listing, deduplicate its links, and scrape them under the article limit |
| News.Crawl | scraping/news.py:88-126 | the `while True` loop's articles and last page are those of the specification function CrawlFrom from page 1 with nothing seen; the counter equals the list's length |
| News.VisitPageExtends | scraping/news.py:105-117 | a page visit keeps the earlier articles at the front |
| News.VisitPageRespectsLimit | scraping/news.py:109-117 | a page visit starting below a positive limit ends within it |
| News.CrawlExtends | scraping/news.py:94-126 | articles only accumulate across pages |
| News.CrawlWithinLimit | scraping/news.py:109-124 | with a positive article limit the crawl never collects more than it |
| News.CrawlStopReason | scraping/news.py:101-124 | the crawl ends because the last page had no new links, reached the page limit, or brought the article limit |
| News.CrawlPages | scraping/news.py:119-126 | pages are visited from 1 upwards one by one; with a page limit p >= 1 the last page is at most p |
| News.NoLinksNoChange | scraping/news.py:99-103 | a page without new links leaves the set unchanged |

## Left out

- Volatility.SquaredVolatility: the model gives the square of the reported figure, `10000 · variance`. `np.std` takes a square root, and real square roots are not modelled. It is NaN exactly where the reported figure is.
- News.Crawl: termination rests on a ghost set `site` that holds every id any listing page can show (`FiniteSite`), and Crawl requires it even when a positive `stop_at_page` would end the source's loop on any site (scraping/news.py:119-124). The code does not check that the site is finite. Without a page limit, a site that serves new ids forever would crawl forever; with one, the model does not cover such a site at all.
- Text.LeadingDigits: only ASCII digits are modelled. Python's `\d` in a str pattern and `int()` also accept every other Unicode decimal digit (Arabic-Indic, Devanagari, fullwidth and so on), so a time text such as "٢١ m" parses in the source and gives None in the model.
- Articles.PublishedAtBounds: two exceptions of the source are not modelled, and the model returns a time where the source raises. `timedelta(days=n)` raises OverflowError past 999999999 days, and `datetime.utcnow() - delta` raises OverflowError when the result would fall before year 1. So a text such as "999999 d" ends the script at scraping/articles.py:63: no `try` surrounds it, and the model gives `now - 999999 · 86400` instead. `int(number)` at scraping/articles.py:25 raises ValueError on a digit run longer than Python's integer-string limit (4300 digits by default). The clock is an unbounded integer with no datetime range.
- News.ScrapeNewsArticleSpec: a `meta` tag without a `content` attribute makes `date_published_tag['content']` raise KeyError (scraping/news.py:59). The model takes the attribute from the page; that exception is not modelled.
- Momentum: pandas `rolling().mean()` can return tiny round-off residues where exact arithmetic gives 0. The reals here are exact, so limits such as "exactly 100" are the exact-arithmetic ones.
- Float rounding, signed zero, and `float()` parsing of the API's decimal strings: prices are `real`.
- The price correlation matrix (app.py:157-186): `df.corr()` is a pandas call over square roots.
- HTTP requests, BeautifulSoup tag lookup, `datetime.now`/`utcnow`, CSV reading and writing, logging and argument parsing. Fetched responses, extracted tag texts and the clock are inputs.
- Plotly figures and Streamlit widgets. A trace is modelled as its name, x values and y values.
- coincap_api.py, constants.py, market_summary.py, data/setup_data.py and data/assets_preview.py are not part of this model. The last one repeats the ranking of app.py:24-26.
- numpy's RuntimeWarning on the empty mean is not modelled; only its NaN result is.

## Findings

| source | as written | input that shows it | evidently intended | confidence | as-written member | corrected member |
|---|---|---|---|---|---|---|
| app.py:203-220 | the x-axis of a group's line is `history`, the last history fetched in the inner loop, even when that member was skipped for a zero first price (the assignment at app.py:205 happens before the ZeroDivisionError at app.py:212) | a group [a, b]: a has one point at a non-zero price; b has two points at price 0. The line gets b's 2 timestamps for a's 1 averaged value | the timestamps of a member that was averaged, so the line has one timestamp per value | not executed | Performance.TimestampsFromSkippedMember | Performance.AlignedTracesMatch |
