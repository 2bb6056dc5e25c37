/**
 The web as the crawler sees it: pages reached by URL, the article title taken from
 the first `h1` heading, and the gathering of the first N anchors of the content region
 into absolute URLs. Shared by both crawler variants.
 */
module Web {
  import opened Bookkeeping

  type Url = string

  /** Prefix that turns a site-relative `href` into an absolute URL. */
  const WikiBase: string := "https://en.wikipedia.org"

  datatype Option<T> = None | Some(value: T)

  /**
   A parsed page. `title` is the text of the first `h1` element (None: no `h1`);
   `content` holds the `href` of every anchor of the `mw-content-text` element in
   document order (None: the page has no such element).
   */
  datatype Page = Page(title: Option<string>, content: Option<seq<string>>)

  /** Why processing one URL went wrong. */
  datatype Failure =
    | FetchFailed    // loading the URL raised an IOException
    | NoTitle        // no h1 element: the title lookup dereferences null
    | NoContent      // no mw-content-text element: the anchor lookup dereferences null
    | TooFewAnchors  // fewer anchors than requested: the list index is out of bounds

  datatype Result<T> = Ok(value: T) | Err(failure: Failure)

  /** What one URL yields when everything succeeds. */
  datatype Article = Article(title: string, links: set<Url>)

  /** The web: the page behind each URL that can be loaded. */
  type Pages = map<Url, Page>

  /** The URL-loading collaborator; `requests` records every load, in order. */
  class Site {
    const pages: Pages
    ghost var requests: seq<Url>

    constructor (pages: Pages)
      ensures this.pages == pages && requests == []
    {
      this.pages := pages;
      requests := [];
    }

    /** Load a URL; a URL without a page is a failed connection. */
    method Load(url: Url) returns (r: Result<Page>)
      modifies this
      ensures requests == old(requests) + [url]
      ensures r == Fetch(pages, url)
    {
      requests := requests + [url];
      if url in pages {
        r := Ok(pages[url]);
      } else {
        r := Err(FetchFailed);
      }
    }
  }

  function Fetch(pages: Pages, url: Url): (r: Result<Page>)
    ensures r.Ok? <==> url in pages
    ensures r.Ok? ==> r.value == pages[url]
    ensures r.Err? ==> r.failure == FetchFailed
  {
    if url in pages then Ok(pages[url]) else Err(FetchFailed)
  }

  /** The article title: the first h1's text; without one the lookup fails. */
  function Title(page: Page): (r: Result<string>)
    ensures r.Ok? <==> page.title.Some?
    ensures r.Ok? ==> r.value == page.title.value
    ensures r.Err? ==> r.failure == NoTitle
  {
    match page.title
    case Some(t) => Ok(t)
    case None => Err(NoTitle)
  }

  /** The absolute URLs built from anchors 0..n-1 of `anchors`. */
  ghost function LinkSet(anchors: seq<string>, n: int): set<Url>
    requires n <= |anchors|
  {
    set j | 0 <= j < n :: WikiBase + anchors[j]
  }

  /**
   The outcome of gathering the first `n` links of a page: the content region must
   exist, and when `n` is positive it must hold at least `n` anchors.
   */
  ghost function Links(page: Page, n: int): (r: Result<set<Url>>)
    ensures r.Err? <==> page.content.None? || n > |page.content.value|
    ensures r.Err? ==> r.failure == (if page.content.None? then NoContent else TooFewAnchors)
  {
    match page.content
    case None => Err(NoContent)
    case Some(anchors) =>
      if n > |anchors| then Err(TooFewAnchors) else Ok(LinkSet(anchors, n))
  }

  /** Gathers the first `linkAmount` links in the content region, one at a time. */
  method GetLinks(page: Page, linkAmount: int) returns (r: Result<set<Url>>)
    ensures r == Links(page, linkAmount)
  {
    if page.content.None? {
      return Err(NoContent);
    }
    var anchors := page.content.value;
    var links: set<Url> := {};
    var i := 0;
    while i < linkAmount
      invariant 0 <= i <= |anchors|
      invariant i == 0 || i <= linkAmount
      invariant links == set j | 0 <= j < i :: WikiBase + anchors[j]
    {
      if i >= |anchors| {
        return Err(TooFewAnchors);
      }
      links := links + {WikiBase + anchors[i]};
      i := i + 1;
    }
    if linkAmount <= 0 {
      assert links == LinkSet(anchors, linkAmount);
    }
    r := Ok(links);
  }

  /** The fan-out actually used: a non-positive link amount gathers nothing. */
  function Fan(n: int): (r: nat)
    ensures n <= 0 ==> r == 0
    ensures n > 0 ==> r == n
  {
    if n < 0 then 0 else n
  }

  lemma {:induction false} LinkSetSize(anchors: seq<string>, n: int)
    requires n <= |anchors|
    ensures |LinkSet(anchors, n)| <= Fan(n)
    decreases n
  {
    if n > 0 {
      LinkSetSize(anchors, n - 1);
      assert LinkSet(anchors, n) == LinkSet(anchors, n - 1) + {WikiBase + anchors[n - 1]};
    } else {
      assert LinkSet(anchors, n) == {};
    }
  }

  /** A page yields at most `n` links, and none when `n <= 0`. */
  lemma LinksBounded(page: Page, n: int)
    requires Links(page, n).Ok?
    ensures |Links(page, n).value| <= Fan(n)
    ensures n <= 0 ==> Links(page, n).value == {}
  {
    LinkSetSize(page.content.value, n);
  }

  /** Every gathered link is the base prefix followed by one of the first `n` hrefs, and each such URL is gathered. */
  lemma LinksMembers(page: Page, n: int, u: Url)
    requires Links(page, n).Ok?
    ensures u in Links(page, n).value <==>
              exists j :: 0 <= j < n && u == WikiBase + page.content.value[j]
    ensures u in Links(page, n).value ==> WikiBase <= u
  {
  }

  lemma {:induction false} LinkSetDistinct(anchors: seq<string>, n: int)
    requires 0 <= n <= |anchors|
    requires forall i, j :: 0 <= i < j < n ==> anchors[i] != anchors[j]
    ensures |LinkSet(anchors, n)| == n
    decreases n
  {
    if n > 0 {
      LinkSetDistinct(anchors, n - 1);
      var last := WikiBase + anchors[n - 1];
      forall j | 0 <= j < n - 1 ensures WikiBase + anchors[j] != last {
        assert (WikiBase + anchors[j])[|WikiBase|..] == anchors[j];
        assert last[|WikiBase|..] == anchors[n - 1];
      }
      assert LinkSet(anchors, n) == LinkSet(anchors, n - 1) + {last};
    } else {
      assert LinkSet(anchors, n) == {};
    }
  }

  /** With distinct hrefs among the first `n` anchors, exactly `n` links are gathered. */
  lemma LinksExactlyN(page: Page, n: int)
    requires Links(page, n).Ok? && n >= 0
    requires forall i, j :: 0 <= i < j < n ==> page.content.value[i] != page.content.value[j]
    ensures |Links(page, n).value| == n
  {
    LinkSetDistinct(page.content.value, n);
  }

  /** Two equal hrefs among the first `n` anchors yield fewer than `n` links. */
  lemma LinksFewerOnDuplicate(page: Page, n: int, i: int, j: int)
    requires Links(page, n).Ok? && 0 <= i < j < n
    requires page.content.value[i] == page.content.value[j]
    ensures |Links(page, n).value| < n
  {
    var anchors := page.content.value;
    var rest := anchors[..j] + anchors[j + 1..n];
    assert |rest| == n - 1;
    forall u | u in LinkSet(anchors, n) ensures u in LinkSet(rest, n - 1) {
      var k :| 0 <= k < n && u == WikiBase + anchors[k];
      if k < j {
        assert rest[k] == anchors[k];
      } else if k == j {
        assert rest[i] == anchors[i];
      } else {
        assert rest[k - 1] == anchors[k];
      }
    }
    SubsetSize(LinkSet(anchors, n), LinkSet(rest, n - 1));
    LinkSetSize(rest, n - 1);
  }

  /** Duplicate anchors are not skipped: they occupy a slot and yield one link. */
  lemma DuplicateAnchorsShareSlot()
    ensures Links(Page(Some("T"), Some(["/wiki/A", "/wiki/A"])), 2) == Ok({WikiBase + "/wiki/A"})
  {
    var anchors := ["/wiki/A", "/wiki/A"];
    var s := LinkSet(anchors, 2);
    assert WikiBase + anchors[0] in s;
    forall u | u in s ensures u == WikiBase + "/wiki/A" {
      var j :| 0 <= j < 2 && u == WikiBase + anchors[j];
    }
    assert s == {WikiBase + "/wiki/A"};
  }

  /**
   Processing one URL as both crawl loops do: load the page, read its title, gather
   its links, stopping at the first failure.
   */
  ghost function Visit(pages: Pages, url: Url, n: int): (r: Result<Article>)
    ensures r.Ok? <==> (url in pages && pages[url].title.Some? && Links(pages[url], n).Ok?)
    ensures r.Ok? ==> r.value.title == pages[url].title.value && r.value.links == Links(pages[url], n).value
    ensures r.Err? && url !in pages ==> r.failure == FetchFailed
    ensures r.Err? && url in pages && pages[url].title.None? ==> r.failure == NoTitle
    ensures r.Err? && url in pages && pages[url].title.Some? ==> r.failure == Links(pages[url], n).failure
  {
    match Fetch(pages, url)
    case Err(f) => Err(f)
    case Ok(page) =>
      match Title(page)
      case Err(f) => Err(f)
      case Ok(title) =>
        match Links(page, n)
        case Err(f) => Err(f)
        case Ok(links) => Ok(Article(title, links))
  }

  /**
   The statements both crawl loops run for one URL: load the page, read its title and
   gather its links; an exception from any of them ends the sequence.
   */
  method FetchArticle(site: Site, url: Url, linkAmount: int) returns (r: Result<Article>)
    modifies site
    ensures site.requests == old(site.requests) + [url]
    ensures r == Visit(site.pages, url, linkAmount)
  {
    var loaded := site.Load(url);
    if loaded.Err? {
      return Err(loaded.failure);
    }
    var title := Title(loaded.value);
    if title.Err? {
      return Err(title.failure);
    }
    var links := GetLinks(loaded.value, linkAmount);
    if links.Err? {
      return Err(links.failure);
    }
    r := Ok(Article(title.value, links.value));
  }

  /** Every URL of a request log was visited successfully. */
  ghost predicate VisitedOk(pages: Pages, log: seq<Url>, n: int)
  {
    forall i :: 0 <= i < |log| ==> Visit(pages, log[i], n).Ok?
  }

  /** A request log that ends at its first failure: every URL but the last succeeded and the last failed with `f`. */
  ghost predicate StopsAtFailure(pages: Pages, log: seq<Url>, n: int, f: Failure)
  {
    |log| > 0 && VisitedOk(pages, log[..|log| - 1], n) && Visit(pages, log[|log| - 1], n) == Err(f)
  }

  /** Successful visits followed by a stretch that ends at a failure end at that failure. */
  lemma StopsAfter(pages: Pages, a: seq<Url>, b: seq<Url>, n: int, f: Failure)
    requires VisitedOk(pages, a, n) && StopsAtFailure(pages, b, n, f)
    ensures StopsAtFailure(pages, a + b, n, f)
  {
    assert (a + b)[..|a + b| - 1] == a + b[..|b| - 1];
  }

  /** One more request: a success keeps the log successful, a failure makes it end there. */
  lemma VisitedOkStep(pages: Pages, log: seq<Url>, url: Url, n: int)
    requires VisitedOk(pages, log, n)
    ensures Visit(pages, url, n).Ok? ==> VisitedOk(pages, log + [url], n)
    ensures Visit(pages, url, n).Err? ==> StopsAtFailure(pages, log + [url], n, Visit(pages, url, n).failure)
  {
    assert (log + [url])[..|log|] == log;
  }

  lemma VisitedOkAppend(pages: Pages, a: seq<Url>, b: seq<Url>, n: int)
    requires VisitedOk(pages, a, n) && VisitedOk(pages, b, n)
    ensures VisitedOk(pages, a + b, n)
  {
  }

  /** The links a URL contributes to the next frontier: those of a successful visit, else none. */
  ghost function LinksOf(pages: Pages, url: Url, n: int): (r: set<Url>)
    ensures |r| <= Fan(n)
    ensures Visit(pages, url, n).Err? ==> r == {}
  {
    if Visit(pages, url, n).Ok? then
      LinksBounded(pages[url], n);
      Visit(pages, url, n).value.links
    else {}
  }
}
