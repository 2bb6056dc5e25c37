/**
 The standalone crawler: a depth-bounded, level-by-level walk that records, for every
 article it fetches, the article's title mapped to the set of links gathered from it.
 Any failure on any URL aborts the whole crawl.
 */
module MiniCrawler {
  import opened Web
  import opened Frontiers
  import opened Bookkeeping

  type Dict = map<string, set<Url>>

  /** The shared title-to-links map that the crawl fills in place. */
  class LinkDict {
    var entries: Dict

    constructor ()
      ensures entries == map[]
    {
      entries := map[];
    }

    method Put(title: string, links: set<Url>)
      modifies this
      ensures entries == old(entries)[title := links]
    {
      entries := entries[title := links];
    }

    /** Copies every entry of `other` into this map; `other` may be this very map. */
    method PutAll(other: LinkDict)
      modifies this
      ensures entries == old(entries) + old(other.entries)
    {
      entries := entries + other.entries;
    }
  }

  /**
   The map after one level over frontier `q` that visited every URL successfully,
   in some order: the titles of the level are added, each mapped to the links of
   some page of the level with that title (the one enumerated last), and every other
   entry is kept.
   */
  ghost predicate LevelMerged(pages: Pages, q: set<Url>, n: int, before: Dict, after: Dict)
  {
    after.Keys == before.Keys + Titles(pages, q, n) &&
    forall t :: t in after ==>
      if t in Titles(pages, q, n) then exists u :: u in q && Visit(pages, u, n) == Ok(Article(t, after[t]))
      else after[t] == before[t]
  }

  /** The map after `levels` successful levels starting from frontier `q`, one level after the other. */
  ghost predicate CrawlMerged(pages: Pages, q: set<Url>, levels: nat, n: int, before: Dict, after: Dict)
    decreases levels
  {
    if levels == 0 then after == before
    else exists mid :: LevelMerged(pages, q, n, before, mid) &&
                       CrawlMerged(pages, Gathered(pages, q, n), levels - 1, n, mid, after)
  }

  /**
   Every entry of `after` is an entry of `before` left as it was, or the title and
   links of a page in `reached` that was visited successfully; no entry is dropped.
   */
  ghost predicate Explained(pages: Pages, reached: set<Url>, n: int, before: Dict, after: Dict)
  {
    before.Keys <= after.Keys &&
    forall t :: t in after ==>
      (t in before && after[t] == before[t]) ||
      exists u :: u in reached && Visit(pages, u, n) == Ok(Article(t, after[t]))
  }

  /**
   One pass of the iterator loop over the frontier `queue`, in an arbitrary order:
   fetch each URL, record its title and links in the shared map and add its links to
   the next frontier. The first failure stops the pass.
   */
  method VisitLevel(queue: set<Url>, linkAmount: int, site: Site, dict: LinkDict)
    returns (newQueue: set<Url>, failure: Option<Failure>)
    modifies site, dict
    ensures old(site.requests) <= site.requests
    ensures failure.None? <==> forall u :: u in queue ==> Visit(site.pages, u, linkAmount).Ok?
    ensures failure.None? ==>
              newQueue == Gathered(site.pages, queue, linkAmount) &&
              LevelMerged(site.pages, queue, linkAmount, old(dict.entries), dict.entries) &&
              multiset(site.requests[|old(site.requests)|..]) == multiset(queue) &&
              VisitedOk(site.pages, site.requests[|old(site.requests)|..], linkAmount)
    ensures failure.Some? ==>
              LevelAborted(site.pages, queue, linkAmount, old(dict.entries), dict.entries,
                           site.requests[|old(site.requests)|..], failure.value)
  {
    ghost var pages, n := site.pages, linkAmount;
    ghost var before, start := dict.entries, site.requests;
    newQueue := {};
    var remaining := queue;
    ghost var done: set<Url> := {};
    ghost var log: seq<Url> := [];
    failure := None;
    LevelMergedEmpty(pages, n, before);
    while remaining != {}
      invariant remaining <= queue && done == queue - remaining
      invariant forall u :: u in done ==> Visit(pages, u, n).Ok?
      invariant newQueue == Gathered(pages, done, n)
      invariant LevelMerged(pages, done, n, before, dict.entries)
      invariant site.requests == start + log
      invariant multiset(log) == multiset(done)
      invariant VisitedOk(pages, log, n)
      decreases remaining
    {
      var url :| url in remaining;
      var article := FetchArticle(site, url, linkAmount);
      Appended(start, log, url, done);
      VisitedOkStep(pages, log, url, n);
      log := log + [url];
      if article.Err? {
        failure := Some(article.failure);
        LevelAbortedAt(pages, queue, done, url, n, before, dict.entries, log, article.failure);
        AppendSlice(start, log);
        return;
      }
      LevelMergedStep(pages, done, url, n, before, dict.entries);
      dict.Put(article.value.title, article.value.links);
      AddUrl(pages, done, url, n);
      newQueue := newQueue + article.value.links;
      MoveOne(queue, done, remaining, url);
      done := done + {url};
      remaining := remaining - {url};
    }
    AppendSlice(start, log);
  }

  /**
   One call of the crawl. The depth counter is increased first; past the maximum the
   call returns a new empty map and touches nothing. Otherwise it fetches every URL of
   `queue`, records title and links of each, gathers the next frontier and recurses;
   it then returns the shared map itself. The first failure aborts everything, leaving
   what was recorded so far in the shared map.
   */
  method CrawlWp(queue: set<Url>, crawlDepth: int, maxCrawlDepth: int, linkAmount: int, site: Site, dict: LinkDict)
    returns (r: Result<LinkDict>)
    modifies site, dict
    decreases maxCrawlDepth - crawlDepth
    ensures old(site.requests) <= site.requests
    ensures Levels(crawlDepth, maxCrawlDepth) == 0 ==>
              r.Ok? && fresh(r.value) && r.value.entries == map[] &&
              dict.entries == old(dict.entries) && site.requests == old(site.requests)
    ensures var levels := Levels(crawlDepth, maxCrawlDepth);
            levels > 0 ==>
              (r.Ok? <==> AllSucceed(site.pages, queue, levels, linkAmount)) &&
              (r.Ok? ==>
                 r.value == dict &&
                 CrawlDone(site.pages, queue, levels, linkAmount, old(dict.entries), dict.entries,
                           site.requests[|old(site.requests)|..])) &&
              (r.Err? ==>
                 CrawlAborted(site.pages, queue, levels, linkAmount, old(dict.entries), dict.entries,
                              site.requests[|old(site.requests)|..], r.failure))
  {
    var depth := crawlDepth + 1;
    if depth > maxCrawlDepth {
      var empty := new LinkDict();
      return Ok(empty);
    }
    ghost var pages, n, levels := site.pages, linkAmount, Levels(crawlDepth, maxCrawlDepth);
    ghost var before, start := dict.entries, |site.requests|;
    var newQueue, failure := VisitLevel(queue, linkAmount, site, dict);
    if failure.Some? {
      AbortedAtFirstLevel(pages, queue, levels, n, before, dict.entries, site.requests[start..], failure.value);
      return Err(failure.value);
    }
    ghost var mid, midRequests := dict.entries, site.requests;
    assert Levels(depth, maxCrawlDepth) == levels - 1;
    var sub := CrawlWp(newQueue, depth, maxCrawlDepth, linkAmount, site, dict);
    RequestsSplit(old(site.requests), midRequests, site.requests, start);
    if sub.Err? {
      AbortedBelow(pages, queue, levels, n, before, mid, dict.entries,
                   midRequests[start..], site.requests[|midRequests|..], sub.failure);
      return sub;
    }
    ghost var final, other := dict.entries, sub.value.entries;
    if levels == 1 {
      assert other == map[] && final == mid;
      assert site.requests[|midRequests|..] == [];
    } else {
      assert other == final;
    }
    CompletedLevel(pages, queue, levels, n, before, mid, final, midRequests[start..], site.requests[|midRequests|..]);
    dict.PutAll(sub.value);
    PutAllNoOp(final, other);
    return Ok(dict);
  }

  /** The crawl as the program starts it: from one start page, 3 levels deep, 3 links per page. */
  const StartPage: Url := "https://en.wikipedia.org/wiki/" + "Information_extraction"
  const MaxCrawlDepth: int := 3
  const LinkAmount: int := 3

  method Crawl(site: Site) returns (r: Result<LinkDict>)
    modifies site
    ensures r.Ok? <==> AllSucceed(site.pages, {StartPage}, 3, LinkAmount)
    ensures r.Ok? ==> CrawlMerged(site.pages, {StartPage}, 3, LinkAmount, map[], r.value.entries)
    ensures old(site.requests) <= site.requests
    ensures multiset(site.requests[|old(site.requests)|..]) <= FetchBag(site.pages, {StartPage}, 3, LinkAmount)
    ensures r.Ok? ==>
              multiset(site.requests[|old(site.requests)|..]) == FetchBag(site.pages, {StartPage}, 3, LinkAmount) &&
              ByLevels(site.pages, {StartPage}, 3, LinkAmount, site.requests[|old(site.requests)|..])
    ensures r.Err? ==>
              CutByLevels(site.pages, {StartPage}, 3, LinkAmount, site.requests[|old(site.requests)|..]) &&
              StopsAtFailure(site.pages, site.requests[|old(site.requests)|..], LinkAmount, r.failure)
  {
    var dict := new LinkDict();
    var queue := {StartPage};
    r := CrawlWp(queue, 0, MaxCrawlDepth, LinkAmount, site, dict);
  }

  // ---------------------------------------------------------------------------
  // How a level and a crawl end

  /**
   A level that stopped at its first failure `f`: the map is explained by the level's
   pages, some URL of the level fails with `f`, each URL was requested at most once and
   the requests end at the failing one.
   */
  ghost predicate LevelAborted(pages: Pages, q: set<Url>, n: int, before: Dict, after: Dict, log: seq<Url>, f: Failure)
  {
    Explained(pages, q, n, before, after) &&
    (exists u :: u in q && Visit(pages, u, n) == Err(f)) &&
    multiset(log) <= multiset(q) &&
    StopsAtFailure(pages, log, n, f)
  }

  /**
   A crawl of `levels` levels that succeeded: the map was merged level by level, and the
   requests are each level's URLs in turn, level after level, every one of them successful.
   */
  ghost predicate CrawlDone(pages: Pages, q: set<Url>, levels: nat, n: int, before: Dict, after: Dict, log: seq<Url>)
  {
    CrawlMerged(pages, q, levels, n, before, after) &&
    multiset(log) == FetchBag(pages, q, levels, n) &&
    ByLevels(pages, q, levels, n, log) &&
    VisitedOk(pages, log, n)
  }

  /**
   A crawl of `levels` levels aborted by failure `f`: the map is explained by the reached
   pages, some reached URL fails with `f`, and the requests are among the crawl's fetches:
   whole successful levels, then part of one more level, ending at the first failure.
   */
  ghost predicate CrawlAborted(pages: Pages, q: set<Url>, levels: nat, n: int, before: Dict, after: Dict,
                               log: seq<Url>, f: Failure)
  {
    var reached := Reached(pages, q, levels, n);
    Explained(pages, reached, n, before, after) &&
    (exists u :: u in reached && Visit(pages, u, n) == Err(f)) &&
    multiset(log) <= FetchBag(pages, q, levels, n) &&
    CutByLevels(pages, q, levels, n, log) &&
    StopsAtFailure(pages, log, n, f)
  }

  /** The loop of a level leaves at its first failing URL. */
  lemma LevelAbortedAt(pages: Pages, q: set<Url>, done: set<Url>, url: Url, n: int,
                       before: Dict, after: Dict, log: seq<Url>, f: Failure)
    requires done <= q && url in q && url !in done
    requires LevelMerged(pages, done, n, before, after) && Visit(pages, url, n) == Err(f)
    requires multiset(log) == multiset(done + {url}) && StopsAtFailure(pages, log, n, f)
    ensures LevelAborted(pages, q, n, before, after, log, f)
  {
    LevelMergedExplained(pages, done, q, n, before, after);
    SetMultisetSub(done + {url}, q);
  }

  /** A failure in the first level aborts the crawl. */
  lemma AbortedAtFirstLevel(pages: Pages, q: set<Url>, levels: nat, n: int,
                            before: Dict, after: Dict, log: seq<Url>, f: Failure)
    requires levels > 0 && LevelAborted(pages, q, n, before, after, log, f)
    ensures CrawlAborted(pages, q, levels, n, before, after, log, f)
    ensures !AllSucceed(pages, q, levels, n)
  {
    var reached := Reached(pages, q, levels, n);
    ReachedLevel(pages, q, levels, n);
    ExplainedWiden(pages, q, reached, n, before, after);
    var u :| u in q && Visit(pages, u, n) == Err(f);
    assert u in reached;
  }

  /** A failure below a level that succeeded aborts the crawl from that level. */
  lemma AbortedBelow(pages: Pages, q: set<Url>, levels: nat, n: int, before: Dict, mid: Dict, after: Dict,
                     log: seq<Url>, rest: seq<Url>, f: Failure)
    requires levels > 1 && LevelMerged(pages, q, n, before, mid)
    requires multiset(log) == multiset(q) && VisitedOk(pages, log, n)
    requires forall u :: u in q ==> Visit(pages, u, n).Ok?
    requires CrawlAborted(pages, Gathered(pages, q, n), levels - 1, n, mid, after, rest, f)
    requires !AllSucceed(pages, Gathered(pages, q, n), levels - 1, n)
    ensures CrawlAborted(pages, q, levels, n, before, after, log + rest, f)
    ensures !AllSucceed(pages, q, levels, n)
  {
    var reached, below := Reached(pages, q, levels, n), Reached(pages, Gathered(pages, q, n), levels - 1, n);
    ReachedLevel(pages, q, levels, n);
    LevelMergedExplained(pages, q, reached, n, before, mid);
    ExplainedWiden(pages, below, reached, n, mid, after);
    ExplainedCompose(pages, reached, n, before, mid, after);
    var u :| u in below && Visit(pages, u, n) == Err(f);
    assert u in reached;
    StopsAfter(pages, log, rest, n, f);
    CutByLevelsStep(pages, q, levels, n, log, rest);
    assert multiset(log + rest) == multiset(log) + multiset(rest);
  }

  /** A level that succeeded, followed by a crawl below it that succeeded, is a crawl that succeeded. */
  lemma CompletedLevel(pages: Pages, q: set<Url>, levels: nat, n: int, before: Dict, mid: Dict, after: Dict,
                       log: seq<Url>, rest: seq<Url>)
    requires levels > 0 && LevelMerged(pages, q, n, before, mid)
    requires forall u :: u in q ==> Visit(pages, u, n).Ok?
    requires multiset(log) == multiset(q) && VisitedOk(pages, log, n)
    requires levels == 1 ==> after == mid && rest == []
    requires levels > 1 ==>
               CrawlDone(pages, Gathered(pages, q, n), levels - 1, n, mid, after, rest) &&
               AllSucceed(pages, Gathered(pages, q, n), levels - 1, n)
    ensures CrawlDone(pages, q, levels, n, before, after, log + rest)
    ensures AllSucceed(pages, q, levels, n)
  {
    VisitedOkAppend(pages, log, rest, n);
    ByLevelsStep(pages, q, levels, n, log, rest);
    assert multiset(log + rest) == multiset(log) + multiset(rest);
    assert CrawlMerged(pages, Gathered(pages, q, n), levels - 1, n, mid, after);
  }

  // ---------------------------------------------------------------------------
  // What a whole crawl leaves in the map

  /** The keys after a successful crawl are the earlier keys plus the title of every page fetched. */
  lemma {:induction false} CrawlMergedKeys(pages: Pages, q: set<Url>, levels: nat, n: int, before: Dict, after: Dict)
    requires CrawlMerged(pages, q, levels, n, before, after)
    ensures after.Keys == before.Keys + AllTitles(pages, q, levels, n)
    decreases levels
  {
    if levels > 0 {
      var mid := FirstLevel(pages, q, levels, n, before, after);
      CrawlMergedKeys(pages, Gathered(pages, q, n), levels - 1, n, mid, after);
    }
  }

  /** Every value after a successful crawl is an earlier value or the link set of a fetched page bearing that title. */
  lemma {:induction false} CrawlMergedExplained(pages: Pages, q: set<Url>, levels: nat, n: int, before: Dict, after: Dict)
    requires CrawlMerged(pages, q, levels, n, before, after)
    ensures Explained(pages, Reached(pages, q, levels, n), n, before, after)
    decreases levels
  {
    var reached := Reached(pages, q, levels, n);
    if levels == 0 {
      assert forall t :: t in after ==> t in before && after[t] == before[t];
    } else {
      var g := Gathered(pages, q, n);
      var mid := FirstLevel(pages, q, levels, n, before, after);
      CrawlMergedExplained(pages, g, levels - 1, n, mid, after);
      ReachedLevel(pages, q, levels, n);
      LevelMergedExplained(pages, q, reached, n, before, mid);
      ExplainedWiden(pages, Reached(pages, g, levels - 1, n), reached, n, mid, after);
      ExplainedCompose(pages, reached, n, before, mid, after);
    }
  }

  /** An entry whose title no fetched page bears keeps its earlier value. */
  lemma {:induction false} CrawlMergedUntouched(pages: Pages, q: set<Url>, levels: nat, n: int, before: Dict, after: Dict, t: string)
    requires CrawlMerged(pages, q, levels, n, before, after)
    requires t in before && t !in AllTitles(pages, q, levels, n)
    ensures t in after && after[t] == before[t]
    decreases levels
  {
    if levels > 0 {
      var mid := FirstLevel(pages, q, levels, n, before, after);
      CrawlMergedUntouched(pages, Gathered(pages, q, n), levels - 1, n, mid, after, t);
    }
  }

  /**
   Later levels overwrite earlier ones: when a title is borne by a page at level `k`
   and by no page of any deeper level, it is mapped to the links of `u`, a page of
   level `k` bearing it.
   */
  lemma {:induction false} CrawlMergedDeepest(pages: Pages, q: set<Url>, levels: nat, n: int,
                                              before: Dict, after: Dict, t: string, k: nat)
    returns (u: Url)
    requires CrawlMerged(pages, q, levels, n, before, after)
    requires k < levels && t in Titles(pages, Frontier(pages, q, k, n), n)
    requires t !in AllTitles(pages, Frontier(pages, q, k + 1, n), levels - k - 1, n)
    ensures t in after
    ensures u in Frontier(pages, q, k, n) && Visit(pages, u, n) == Ok(Article(t, after[t]))
    decreases k
  {
    if k == 0 {
      FrontierShift(pages, q, 0, n);
      u := DeepestAtFirstLevel(pages, q, levels, n, before, after, t);
    } else {
      var mid := FirstLevel(pages, q, levels, n, before, after);
      FrontierDown(pages, q, levels, n, k);
      assert levels - 1 - (k - 1) - 1 == levels - k - 1;
      u := CrawlMergedDeepest(pages, Gathered(pages, q, n), levels - 1, n, mid, after, t, k - 1);
    }
  }

  lemma DeepestAtFirstLevel(pages: Pages, q: set<Url>, levels: nat, n: int, before: Dict, after: Dict, t: string)
    returns (u: Url)
    requires CrawlMerged(pages, q, levels, n, before, after)
    requires 0 < levels && t in Titles(pages, q, n)
    requires t !in AllTitles(pages, Gathered(pages, q, n), levels - 1, n)
    ensures t in after
    ensures u in q && Visit(pages, u, n) == Ok(Article(t, after[t]))
  {
    var mid := KeptBelowFirstLevel(pages, q, levels, n, before, after, t);
    u := LevelMergedWitness(pages, q, n, before, mid, t);
  }

  /** The map between the first level of a crawl and the rest of it. */
  lemma FirstLevel(pages: Pages, q: set<Url>, levels: nat, n: int, before: Dict, after: Dict) returns (mid: Dict)
    requires CrawlMerged(pages, q, levels, n, before, after) && 0 < levels
    ensures LevelMerged(pages, q, n, before, mid)
    ensures CrawlMerged(pages, Gathered(pages, q, n), levels - 1, n, mid, after)
  {
    mid :| LevelMerged(pages, q, n, before, mid) && CrawlMerged(pages, Gathered(pages, q, n), levels - 1, n, mid, after);
  }

  /** The map after the first level, whose entry for `t` survives when no deeper page bears `t`. */
  lemma KeptBelowFirstLevel(pages: Pages, q: set<Url>, levels: nat, n: int, before: Dict, after: Dict, t: string)
    returns (mid: Dict)
    requires CrawlMerged(pages, q, levels, n, before, after) && 0 < levels
    requires t !in AllTitles(pages, Gathered(pages, q, n), levels - 1, n)
    ensures LevelMerged(pages, q, n, before, mid)
    ensures t in mid ==> t in after && after[t] == mid[t]
  {
    var g := Gathered(pages, q, n);
    mid :| LevelMerged(pages, q, n, before, mid) && CrawlMerged(pages, g, levels - 1, n, mid, after);
    if t in mid {
      CrawlMergedUntouched(pages, g, levels - 1, n, mid, after, t);
    }
  }

  /** Every recorded link set holds at most `n` links, as each page yields at most `n`. */
  lemma CrawlMergedLinkSetsBounded(pages: Pages, q: set<Url>, levels: nat, n: int, before: Dict, after: Dict)
    requires CrawlMerged(pages, q, levels, n, before, after)
    requires forall t :: t in before ==> |before[t]| <= Fan(n)
    ensures forall t :: t in after ==> |after[t]| <= Fan(n)
  {
    CrawlMergedExplained(pages, q, levels, n, before, after);
    forall t | t in after ensures |after[t]| <= Fan(n) {
      if !(t in before && after[t] == before[t]) {
        var u :| u in Reached(pages, q, levels, n) && Visit(pages, u, n) == Ok(Article(t, after[t]));
        assert after[t] == LinksOf(pages, u, n);
      }
    }
  }

  /** From an empty frontier the crawl leaves the map exactly as it was. */
  lemma EmptyFrontierLeavesMap(pages: Pages, levels: nat, n: int, before: Dict, after: Dict)
    requires CrawlMerged(pages, {}, levels, n, before, after)
    ensures after == before
  {
    EmptyFrontier(pages, levels, n);
    CrawlMergedKeys(pages, {}, levels, n, before, after);
    forall t | t in after ensures after[t] == before[t] {
      CrawlMergedUntouched(pages, {}, levels, n, before, after, t);
    }
  }

  // ---------------------------------------------------------------------------
  // Helpers for the proof of CrawlWp

  lemma LevelMergedEmpty(pages: Pages, n: int, before: Dict)
    ensures LevelMerged(pages, {}, n, before, before)
  {
    assert Titles(pages, {}, n) == {};
  }

  lemma LevelMergedStep(pages: Pages, done: set<Url>, u: Url, n: int, before: Dict, mid: Dict)
    requires u !in done && Visit(pages, u, n).Ok?
    requires LevelMerged(pages, done, n, before, mid)
    ensures LevelMerged(pages, done + {u}, n, before,
                        mid[Visit(pages, u, n).value.title := Visit(pages, u, n).value.links])
  {
    var a := Visit(pages, u, n).value;
    var after := mid[a.title := a.links];
    AddUrlTitles(pages, done, u, n);
    var ts := Titles(pages, done + {u}, n);
    forall t | t in after
      ensures if t in ts then exists v :: v in done + {u} && Visit(pages, v, n) == Ok(Article(t, after[t]))
              else after[t] == before[t]
    {
      if t == a.title {
        assert Visit(pages, u, n) == Ok(Article(t, after[t]));
      } else if t in Titles(pages, done, n) {
        var v :| v in done && Visit(pages, v, n) == Ok(Article(t, mid[t]));
        assert v in done + {u};
      }
    }
  }

  lemma LevelMergedWitness(pages: Pages, q: set<Url>, n: int, before: Dict, after: Dict, t: string) returns (u: Url)
    requires LevelMerged(pages, q, n, before, after) && t in Titles(pages, q, n)
    ensures t in after && u in q && Visit(pages, u, n) == Ok(Article(t, after[t]))
  {
    assert t in after;
    u :| u in q && Visit(pages, u, n) == Ok(Article(t, after[t]));
  }

  lemma LevelMergedExplained(pages: Pages, q: set<Url>, reached: set<Url>, n: int, before: Dict, after: Dict)
    requires q <= reached
    requires LevelMerged(pages, q, n, before, after)
    ensures Explained(pages, reached, n, before, after)
  {
    forall t | t in after
      ensures (t in before && after[t] == before[t]) ||
              exists u :: u in reached && Visit(pages, u, n) == Ok(Article(t, after[t]))
    {
      if t in Titles(pages, q, n) {
        var u :| u in q && Visit(pages, u, n) == Ok(Article(t, after[t]));
        assert u in reached;
      }
    }
  }

  lemma ExplainedWiden(pages: Pages, small: set<Url>, reached: set<Url>, n: int, before: Dict, after: Dict)
    requires small <= reached
    requires Explained(pages, small, n, before, after)
    ensures Explained(pages, reached, n, before, after)
  {
    forall t | t in after
      ensures (t in before && after[t] == before[t]) ||
              exists u :: u in reached && Visit(pages, u, n) == Ok(Article(t, after[t]))
    {
      if !(t in before && after[t] == before[t]) {
        var u :| u in small && Visit(pages, u, n) == Ok(Article(t, after[t]));
        assert u in reached;
      }
    }
  }

  lemma ExplainedCompose(pages: Pages, reached: set<Url>, n: int, a: Dict, b: Dict, c: Dict)
    requires Explained(pages, reached, n, a, b) && Explained(pages, reached, n, b, c)
    ensures Explained(pages, reached, n, a, c)
  {
    forall t | t in c
      ensures (t in a && c[t] == a[t]) ||
              exists u :: u in reached && Visit(pages, u, n) == Ok(Article(t, c[t]))
    {
      if t in b && c[t] == b[t] {
        if !(t in a && b[t] == a[t]) {
          var u :| u in reached && Visit(pages, u, n) == Ok(Article(t, b[t]));
        }
      }
    }
  }

  lemma ReachedLevel(pages: Pages, q: set<Url>, levels: nat, n: int)
    requires levels > 0
    ensures q <= Reached(pages, q, levels, n)
    ensures Reached(pages, Gathered(pages, q, n), levels - 1, n) <= Reached(pages, q, levels, n)
    ensures FetchBag(pages, q, levels, n) == multiset(q) + FetchBag(pages, Gathered(pages, q, n), levels - 1, n)
  {
  }

  lemma PutAllNoOp(m: Dict, other: Dict)
    requires other == map[] || other == m
    ensures m + other == m
  {
  }
}
