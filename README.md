# KM-Web-Crawler: a verified model of the level-by-level crawl

The repository holds two small Java programs that crawl an encyclopedia site from a seed
article, following a fixed number of links per page down to a fixed depth:

- `MiniCrawler` records, for each fetched article, its title mapped to the set of links
  gathered from it. It has no error handling: the first failing URL aborts the crawl.
- `Search` adds one `(title, link)` document per fetched article to a full-text index. It
  catches a failure per URL and skips that URL. After the crawl it reads queries line by
  line until the line `break`.

The model is in five modules.

- `Web` (`web.dfy`):
  - The web is a map from URL to a parsed page. A page has an optional `h1` title and an
    optional content region, which holds the `href`s of its anchors in document order.
    A URL outside the map cannot be loaded.
  - `Site` is the loading collaborator. A ghost log in it records every request, in order.
  - `GetLinks` is the counted loop of `get_links`.
  - `FetchArticle` is the per-URL sequence both crawlers share: load, then title, then
    links, stopping at the first failure.
  - Their pure specifications are `Links` and `Visit`.
- `Frontiers` (`frontiers.dfy`): the order-independent account of a crawl.
  - `Gathered` is the next frontier: the union of the link sets of the pages that succeed.
  - `Frontier(q, k)` is level `k`, and `Reached` is every URL fetched.
  - `FetchBag` is the multiset of fetches. A URL counts once per level it reaches,
    because there is no visited set.
  - `Levels` is the number of levels a call fetches: the code increments the depth
    counter before testing it.
- `MiniCrawler` (`minicrawler.dfy`):
  - The shared title-to-links `HashMap` is the class `LinkDict`. `VisitLevel` is the
    iterator loop and `CrawlWp` the recursive call.
  - `HashSet` iteration order is unspecified, so both loops take their URLs in an
    arbitrary order.
  - The map a crawl leaves is therefore given by the predicates `LevelMerged` and
    `CrawlMerged`. Each level adds its titles. Each title maps to the links of some
    page of that level bearing it. Earlier entries persist unless a later title
    overwrites them.
  - On the first failure, `CrawlWp` returns an error. The map keeps whatever was already
    recorded, and `Explained` describes it.
- `Search` (`search.dfy`):
  - `IndexWriter` is a sequence of documents, and `AddDoc` appends one.
  - `IndexLevel` is the loop with the per-URL `catch`. `CrawlWp` is the recursion, and
    its result is always `null`.
  - `LevelDocs` and `DocBag` give the documents a crawl adds, counted with multiplicity.
  - `QueryLoop` is the query loop over a sequence of input lines. It stops at the first
    line that `equalsIgnoreCase` matches against `"break"`. Every earlier line is handed
    to the query parser with the fuzzy marker `~` appended. The parser's verdict is the
    parameter `parses`, and the first rejected query ends the program, because the
    `ParseException` propagates out of `main`.
- `Bookkeeping` (`bookkeeping.dfy`): facts about request logs, sets and multisets that
  the proofs of both crawl loops share.

In these places the model follows the code rather than what a reader might expect:

- There is no visited set. A URL is fetched again at every level it reaches
  (`SelfLinkFetchedEveryLevel`, `SelfLinkIndexedEveryLevel`).
- Duplicate anchors are not skipped: each one takes a link slot (`DuplicateAnchorsShareSlot`).
- Fewer anchors than requested is an index-out-of-range exception, and a missing title
  element is a null dereference. Both are modelled as failures (`TooFewAnchors`,
  `NoTitle`), and so is a missing content region (`NoContent`).
- `MiniCrawler` does not skip failed URLs: the exception ends the crawl. Only `Search`
  continues past a failed URL.
- With a maximum depth of 0, nothing is fetched, not even the seed: `Levels(0, 0) == 0`.
  A maximum depth of `d` fetches exactly `d` levels.

## Model

| member | source | states |
|---|---|---|
| Web.Site.Load | src/Search.java:48-50 | records one request for the URL; the result is the page behind it, or a fetch failure when there is none |
| Web.Title | src/MiniCrawler.java:57-59 | succeeds exactly when the page has an `h1`, with its text; otherwise fails with `NoTitle` |
| Web.Links | src/MiniCrawler.java:68-77 | fails exactly when there is no content region, or when more links are requested than there are anchors; says which failure |
| Web.GetLinks | src/MiniCrawler.java:68-77 | the counted loop yields exactly `Links(page, linkAmount)`, failure cases included (the same helper is at src/Search.java:72-81) |
| Web.LinksBounded | src/MiniCrawler.java:73-75 | a page yields at most `max(n, 0)` links, and none when `n <= 0` |
| Web.LinksMembers | src/MiniCrawler.java:74 | a URL is gathered exactly when it is the site prefix followed by one of the first `n` hrefs; every gathered URL starts with the prefix |
| Web.LinksExactlyN | src/MiniCrawler.java:73-75 | if the first `n` hrefs are distinct, exactly `n` links are gathered |
| Web.LinksFewerOnDuplicate | src/MiniCrawler.java:73-75 | if two of the first `n` hrefs are equal, fewer than `n` links are gathered, on every page |
| Web.DuplicateAnchorsShareSlot | src/MiniCrawler.java:73-75 | two equal hrefs use two slots and yield one link |
| Web.Visit | src/Search.java:110-112 | one URL succeeds exactly when it loads, has a title and yields its links; the article is that title and link set; otherwise it names the cause: a fetch failure, a missing title, or the failure of `Links` |
| Web.FetchArticle | src/MiniCrawler.java:104-106 | issues exactly one request and returns `Visit` of the URL |
| Web.LinksOf | src/Search.java:112-114 | a URL contributes at most `max(n, 0)` links to the next frontier, and none when its visit fails |
| Frontiers.Levels | src/MiniCrawler.java:91-95 | a call fetches no level exactly when `crawlDepth + 1 > maxCrawlDepth`; from depth 0 it fetches `max(maxCrawlDepth, 0)` levels |
| Frontiers.GatheredMembers | src/MiniCrawler.java:99-108 | a URL is in the next frontier exactly when a successful page of the frontier links to it |
| Frontiers.AddUrl | src/MiniCrawler.java:108 | visiting one more URL adds exactly its links to the next frontier |
| Frontiers.FailureContributesNothing | src/Search.java:109-117 | a URL whose visit fails adds neither links nor a title |
| Frontiers.GatheredSize | src/Search.java:104-114 | the next frontier has at most `max(n, 0)` times as many URLs as there are successful pages |
| Frontiers.GatheredBound | src/MiniCrawler.java:99-108 | the next frontier has at most `max(n, 0) * |queue|` URLs |
| Frontiers.FrontierSize | src/MiniCrawler.java:111 | level `k` has at most `max(n, 0)^k * |queue|` URLs |
| Frontiers.FetchBagSize | src/MiniCrawler.java:89-113 | a crawl makes at most `|queue| * (1 + f + ... + f^(levels-1))` fetches, where `f = max(n, 0)` |
| Frontiers.FetchBagLevels | src/MiniCrawler.java:101-111 | the fetches of `levels` levels are those of `levels - 1` levels plus one fetch of each URL of the last level |
| Frontiers.EmptyFrontier | src/MiniCrawler.java:101-109 | from an empty frontier nothing is fetched, no title is seen and nothing fails |
| Frontiers.FetchBagReached | src/MiniCrawler.java:101-111 | a URL is fetched exactly when it lies in some level's frontier |
| Frontiers.SelfLinkFetchedEveryLevel | src/MiniCrawler.java:99-111 | a page that links only to itself is fetched once per level |
| Frontiers.AllTitlesLevels | src/MiniCrawler.java:105-107 | a title is seen exactly when a page of some level bears it |
| Frontiers.NoDescentBeforeLevelEnds | src/MiniCrawler.java:101-111 | from the frontier `{a, c}` a crawl cut short may have requested `[c]` or `[a, c]`, but never `[a, x, c]`: no URL of the next level is requested before the current level has ended |
| MiniCrawler.LinkDict.Put | src/MiniCrawler.java:107 | maps the title to the links, overwriting any earlier value |
| MiniCrawler.LinkDict.PutAll | src/MiniCrawler.java:111 | copies every entry of the other map, which may be this map |
| MiniCrawler.VisitLevel | src/MiniCrawler.java:99-109 | finishes exactly when every URL of the frontier succeeds. Then it has fetched each URL once, built the next frontier as `Gathered`, and merged the level's titles as `LevelMerged` states. Otherwise it stops at the first failing URL: its requests end with that URL, every earlier request succeeded, no URL was fetched twice, and only titles and links of successful pages were added (`LevelAborted`) |
| MiniCrawler.CrawlWp | src/MiniCrawler.java:89-113 | past the depth bound, returns a fresh empty map and fetches nothing. Otherwise it succeeds exactly when every visit of every level succeeds. Then (`CrawlDone`) it returns the shared map itself, merged level by level, and the fetches are each level's URLs in turn, level after level (`ByLevels`), adding up to `FetchBag`. On failure (`CrawlAborted`), the requests are whole successful levels followed by part of one more level (`CutByLevels`); they end at the first failing URL and every earlier request succeeded, so nothing is fetched after it. The error is that of this reached URL, and the map holds only old entries and entries of reached successful pages |
| MiniCrawler.Crawl | src/MiniCrawler.java:119-139 | the crawl from `Information_extraction` over 3 levels with 3 links per page succeeds exactly when every visit succeeds; its map starts empty; on success the fetches are exactly `FetchBag`, level after level; on failure they are whole levels then part of one more, ending at the first failing URL |
| MiniCrawler.CrawlMergedKeys | src/MiniCrawler.java:107-111 | the keys after a crawl are the earlier keys plus the title of every page fetched |
| MiniCrawler.CrawlMergedExplained | src/MiniCrawler.java:107-112 | every value after a crawl is an earlier value left unchanged, or the link set of a fetched page with that title |
| MiniCrawler.CrawlMergedUntouched | src/MiniCrawler.java:107-112 | an entry whose title no fetched page bears keeps its value |
| MiniCrawler.CrawlMergedDeepest | src/MiniCrawler.java:107-112 | a title whose deepest occurrence is at level `k` is mapped, and the lemma yields a page `u` of level `k` bearing that title whose links are the recorded value |
| MiniCrawler.CrawlMergedLinkSetsBounded | src/MiniCrawler.java:106-107 | every link set in the map holds at most `max(n, 0)` links |
| MiniCrawler.EmptyFrontierLeavesMap | src/MiniCrawler.java:101-111 | a crawl from an empty frontier leaves the map as it was |
| Search.IndexWriter.AddDocument | src/Search.java:129 | appends the document to the index |
| Search.AddDoc | src/Search.java:123-130 | appends exactly one `(title, link)` document |
| Search.IndexLevel | src/Search.java:104-118 | fetches every URL of the frontier once, failures included. The new documents are those of `LevelDocs`, and the next frontier is `Gathered` over the successful pages |
| Search.CrawlWp | src/Search.java:94-121 | always returns null. Past the depth bound it fetches and indexes nothing. Otherwise (`Indexed`) the fetches are `FetchBag` and the new documents are `DocBag` over the levels the call covers, both taken level after level (`ByLevels`, `DocsByLevels`) |
| Search.BuildIndex | src/Search.java:156-164 | the index built from `Rose_Cheruiyot` over 4 levels with 5 links per page holds exactly the documents of `DocBag`, added level after level |
| Search.LevelDocsMembers | src/Search.java:110-114 | a level's document `(t, u)` exists exactly when `u` is in the frontier and its visit succeeds with title `t` |
| Search.LevelDocsAdd | src/Search.java:110-114 | one more URL adds its document exactly when its visit succeeds; the document is new |
| Search.LevelDocsSize | src/Search.java:113 | a level adds one document per successful page |
| Search.DocBagCount | src/Search.java:106-120 | the index holds one document per successful visit across all levels, repeats included |
| Search.SuccessBagFetched | src/Search.java:106-120 | the successful visits are among the fetches |
| Search.DocBagSize | src/Search.java:106-120 | there are never more documents than fetches |
| Search.AllSucceedDocs | src/Search.java:109-114 | if every visit succeeds, every fetch yields a document |
| Search.DocBagMembers | src/Search.java:110-113 | every document is the title and URL of a reached page whose visit succeeded |
| Search.FailureSkipped | src/Search.java:109-117 | a failing URL adds no document and no link; the other URLs of its level are indexed as if it were absent |
| Search.SelfLinkIndexedEveryLevel | src/Search.java:104-120 | a page that links only to itself is indexed once per level |
| Search.QueryLoop | src/Search.java:147-184 | searches `line + "~"` for each line before the first `break` line, in order, as long as the parser accepts it; it ends at a `break` line exactly when the input has one and every earlier line parses; it ends with a parse failure at the first non-`break` line whose query the parser rejects; otherwise it has used every line |
| Search.IsBreak | src/Search.java:176 | a line is the break word exactly when `equalsIgnoreCase("break")` holds for it, which needs five characters; `break` and `BREAK` both qualify |
| Search.BreakSpellings | src/Search.java:176 | `break` matches in any mix of cases, including the Kelvin sign for `k`; a longer, shorter or misspelled line does not match |

## Left out

- Loading and parsing pages over the network is not modelled. The model takes the parsed page as given: the title, the content region and its anchors' `href`s. An unloadable URL is a URL outside the page map.
- The Lucene internals are not modelled: the analyzer's tokenisation, the in-memory directory, `close`, the query parser's fuzzy matching, ranking, scores and `hitsPerPage = 10`. These are foreign library calls with floating-point scoring. Indexing is an append to a document sequence, and a query is the string handed to the parser.
- Search.QueryLoop: the grammar of Lucene's query parser is not modelled. Whether a query string parses is the parameter `parses`; an empty line gives the query `"~"`, which the classic parser can reject, ending the program there.
- Console output (`System.out.println`, `print`, `printStackTrace`) and `test_config` are not modelled. Reading standard input becomes the `input` parameter of `QueryLoop`. When input runs out, `readLine` returns null and `equalsIgnoreCase` dereferences it; the model reports this as `InputExhausted`.
- Frontiers.Levels: does not model the 32-bit wrap-around of `crawl_depth++`. It matters once the counter reaches `Integer.MAX_VALUE`: a start at that value, or a maximum of `Integer.MAX_VALUE`, which Java's `>` test never exceeds, so the recursion only ends when the stack overflows. Both programs start at 0 with a maximum of 3 or 4.
- The JVM's bound on recursion depth is not modelled: a crawl deep enough to raise `StackOverflowError` is, in the model, a crawl that finishes its levels.
- An I/O exception from the index writer's `addDocument` is not modelled. The index lives in memory.
- HashSet iteration order is not modelled, because it is unspecified. The loops choose each next URL arbitrarily. Same-title pages in `MiniCrawler` are described by which level wins, not by which page within a level wins.
- Java's `String` is UTF-16 text; the model uses Dafny strings of Unicode characters. For the comparison with `"break"` the two agree: a character matches a letter when it is the letter, its upper-case form, or, for `k`, the Kelvin sign.
