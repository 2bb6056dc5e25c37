/**
 The level-by-level shape of a crawl, independent of the order in which a frontier
 set is enumerated: which URLs each level fetches and which links a level gathers
 for the next one. Both crawler variants are specified in these terms.
 */
module Frontiers {
  import opened Web
  import opened Bookkeeping

  /** The URLs of `q` whose visit succeeds. */
  ghost function Succeeded(pages: Pages, q: set<Url>, n: int): (r: set<Url>)
    ensures r <= q
  {
    set u | u in q && Visit(pages, u, n).Ok?
  }

  /** The next frontier: the union of the link sets of the pages of `q` that were visited successfully. */
  ghost function Gathered(pages: Pages, q: set<Url>, n: int): set<Url>
  {
    set u, x | u in q && x in LinksOf(pages, u, n) :: x
  }

  /** The titles of the pages of `q` that were visited successfully. */
  ghost function Titles(pages: Pages, q: set<Url>, n: int): set<string>
  {
    set u | u in q && Visit(pages, u, n).Ok? :: Visit(pages, u, n).value.title
  }

  /** The frontier `k` levels below `q`. */
  ghost function Frontier(pages: Pages, q: set<Url>, k: nat, n: int): set<Url>
    decreases k
  {
    if k == 0 then q else Frontier(pages, Gathered(pages, q, n), k - 1, n)
  }

  /** Every URL fetched by a crawl of `levels` levels that starts at frontier `q`. */
  ghost function Reached(pages: Pages, q: set<Url>, levels: nat, n: int): set<Url>
    decreases levels
  {
    if levels == 0 then {} else q + Reached(pages, Gathered(pages, q, n), levels - 1, n)
  }

  /** The fetches of such a crawl, counted with multiplicity: once per level a URL is in. */
  ghost function FetchBag(pages: Pages, q: set<Url>, levels: nat, n: int): multiset<Url>
    decreases levels
  {
    if levels == 0 then multiset{}
    else multiset(q) + FetchBag(pages, Gathered(pages, q, n), levels - 1, n)
  }

  /**
   A request log of such a crawl taken level by level: the URLs of `q`, each once and in
   some order, then the log of the crawl below.
   */
  ghost predicate ByLevels(pages: Pages, q: set<Url>, levels: nat, n: int, log: seq<Url>)
    decreases levels
  {
    if levels == 0 then log == []
    else |q| <= |log| && multiset(log[..|q|]) == multiset(q) &&
         ByLevels(pages, Gathered(pages, q, n), levels - 1, n, log[|q|..])
  }

  /**
   A request log of such a crawl cut short inside some level: whole levels whose every
   visit succeeded, then distinct URLs of one more level.
   */
  ghost predicate CutByLevels(pages: Pages, q: set<Url>, levels: nat, n: int, log: seq<Url>)
    decreases levels
  {
    levels > 0 &&
    (multiset(log) <= multiset(q) ||
     (|q| <= |log| && multiset(log[..|q|]) == multiset(q) &&
      (forall u :: u in q ==> Visit(pages, u, n).Ok?) &&
      CutByLevels(pages, Gathered(pages, q, n), levels - 1, n, log[|q|..])))
  }

  /** Every visit of every level of such a crawl succeeds. */
  ghost predicate AllSucceed(pages: Pages, q: set<Url>, levels: nat, n: int)
    decreases levels
  {
    levels == 0 ||
    ((forall u :: u in q ==> Visit(pages, u, n).Ok?) && AllSucceed(pages, Gathered(pages, q, n), levels - 1, n))
  }

  /** The titles of all pages visited successfully by such a crawl. */
  ghost function AllTitles(pages: Pages, q: set<Url>, levels: nat, n: int): set<string>
    decreases levels
  {
    if levels == 0 then {} else Titles(pages, q, n) + AllTitles(pages, Gathered(pages, q, n), levels - 1, n)
  }

  /**
   How many levels a call `crawl_wp(queue, crawlDepth, maxCrawlDepth, ...)` fetches:
   the counter is increased first and the call stops once it exceeds the maximum.
   */
  function Levels(crawlDepth: int, maxCrawlDepth: int): (r: nat)
    ensures r == 0 <==> crawlDepth + 1 > maxCrawlDepth
    ensures crawlDepth == 0 ==> r == Fan(maxCrawlDepth)
  {
    if crawlDepth + 1 > maxCrawlDepth then 0 else maxCrawlDepth - crawlDepth
  }

  ghost function Pow(b: nat, k: nat): nat
  {
    if k == 0 then 1 else b * Pow(b, k - 1)
  }

  /** 1 + b + ... + b^(k-1). */
  ghost function GeomSum(b: nat, k: nat): nat
  {
    if k == 0 then 0 else 1 + b * GeomSum(b, k - 1)
  }

  /** A URL is in the next frontier exactly when some page of the frontier was visited successfully and links to it. */
  lemma GatheredMembers(pages: Pages, q: set<Url>, n: int, x: Url)
    ensures x in Gathered(pages, q, n) <==>
              exists u :: u in q && Visit(pages, u, n).Ok? && x in Visit(pages, u, n).value.links
  {
    if x in Gathered(pages, q, n) {
      var u :| u in q && x in LinksOf(pages, u, n);
      assert Visit(pages, u, n).Ok?;
    }
    if exists u :: u in q && Visit(pages, u, n).Ok? && x in Visit(pages, u, n).value.links {
      var u :| u in q && Visit(pages, u, n).Ok? && x in Visit(pages, u, n).value.links;
      assert x in LinksOf(pages, u, n);
    }
  }

  /** Adding one more URL to the processed part of a level adds exactly that URL's links. */
  lemma AddUrl(pages: Pages, q: set<Url>, u: Url, n: int)
    requires u !in q
    ensures Gathered(pages, q + {u}, n) == Gathered(pages, q, n) + LinksOf(pages, u, n)
  {
    var g, g' := Gathered(pages, q, n), Gathered(pages, q + {u}, n);
    forall x | x in g' ensures x in g + LinksOf(pages, u, n) {
      var v :| v in q + {u} && x in LinksOf(pages, v, n);
      if v != u { assert x in g; }
    }
    forall x | x in g + LinksOf(pages, u, n) ensures x in g' {
      if x in g {
        var v :| v in q && x in LinksOf(pages, v, n);
        assert v in q + {u};
      } else {
        assert u in q + {u};
      }
    }
  }

  lemma AddUrlSucceeded(pages: Pages, q: set<Url>, u: Url, n: int)
    requires u !in q
    ensures Succeeded(pages, q + {u}, n) ==
              Succeeded(pages, q, n) + (if Visit(pages, u, n).Ok? then {u} else {})
  {
  }

  lemma AddUrlTitles(pages: Pages, q: set<Url>, u: Url, n: int)
    requires u !in q
    ensures Titles(pages, q + {u}, n) ==
              Titles(pages, q, n) + (if Visit(pages, u, n).Ok? then {Visit(pages, u, n).value.title} else {})
  {
  }

  /** A URL whose visit fails changes neither the gathered links nor the titles of a level. */
  lemma FailureContributesNothing(pages: Pages, q: set<Url>, u: Url, n: int)
    requires Visit(pages, u, n).Err?
    ensures Gathered(pages, q + {u}, n) == Gathered(pages, q, n)
    ensures Titles(pages, q + {u}, n) == Titles(pages, q, n)
  {
    if u !in q {
      AddUrl(pages, q, u, n);
      AddUrlTitles(pages, q, u, n);
    } else {
      assert q + {u} == q;
    }
  }

  /** The next frontier holds at most `n` links per successfully visited page. */
  lemma {:induction false} GatheredSize(pages: Pages, q: set<Url>, n: int)
    ensures |Gathered(pages, q, n)| <= Fan(n) * |Succeeded(pages, q, n)|
    decreases |q|
  {
    var f := Fan(n);
    if q == {} {
      assert Gathered(pages, q, n) == {};
    } else {
      var u :| u in q;
      var rest := q - {u};
      assert q == rest + {u};
      GatheredSize(pages, rest, n);
      AddUrl(pages, rest, u, n);
      AddUrlSucceeded(pages, rest, u, n);
      var g, s := Gathered(pages, rest, n), Succeeded(pages, rest, n);
      assert |Gathered(pages, q, n)| <= |g| + |LinksOf(pages, u, n)|;
      if Visit(pages, u, n).Ok? {
        assert |Succeeded(pages, q, n)| == |s| + 1;
        MulAddOne(f, |s|);
      } else {
        assert Succeeded(pages, q, n) == s;
      }
    }
  }

  /** The next frontier holds at most `n` links per URL of the current one. */
  lemma GatheredBound(pages: Pages, q: set<Url>, n: int)
    ensures |Gathered(pages, q, n)| <= Fan(n) * |q|
  {
    GatheredSize(pages, q, n);
    SubsetSize(Succeeded(pages, q, n), q);
    MulMonotone(Fan(n), |Succeeded(pages, q, n)|, |q|);
  }

  lemma MulAddOne(a: nat, b: nat)
    ensures a * (b + 1) == a * b + a
  {
  }

  /** The frontier `k` levels down holds at most `n^k` URLs per starting URL. */
  lemma {:induction false} FrontierSize(pages: Pages, q: set<Url>, k: nat, n: int)
    ensures |Frontier(pages, q, k, n)| <= Pow(Fan(n), k) * |q|
    decreases k
  {
    if k > 0 {
      var g := Gathered(pages, q, n);
      GatheredBound(pages, q, n);
      FrontierSize(pages, g, k - 1, n);
      var p := Pow(Fan(n), k - 1);
      assert |Frontier(pages, q, k, n)| <= p * |g|;
      MulMonotone(p, |g|, Fan(n) * |q|);
      assert Pow(Fan(n), k) == Fan(n) * p;
      MulRegroup(p, Fan(n), |q|);
    }
  }

  lemma MulRegroup(a: nat, b: nat, c: nat)
    ensures a * (b * c) == (b * a) * c
  {
  }

  /** Level `k` and the level below it, seen from the next frontier, in the form the crawl lemmas recurse on. */
  lemma FrontierDown(pages: Pages, q: set<Url>, levels: nat, n: int, k: nat)
    requires 0 < k < levels
    ensures Frontier(pages, q, k, n) == Frontier(pages, Gathered(pages, q, n), k - 1, n)
    ensures Frontier(pages, q, k + 1, n) == Frontier(pages, Gathered(pages, q, n), k - 1 + 1, n)
  {
  }

  /** One level further down from `q` is the same as `k` levels down from the next frontier. */
  lemma FrontierShift(pages: Pages, q: set<Url>, k: nat, n: int)
    ensures Frontier(pages, q, k + 1, n) == Frontier(pages, Gathered(pages, q, n), k, n)
    ensures Frontier(pages, q, 0, n) == q
  {
  }

  lemma MulMonotone(a: nat, b: nat, c: nat)
    requires b <= c
    ensures a * b <= a * c
  {
  }

  /**
   The number of fetches of a crawl of `levels` levels is at most
   `|q| * (1 + n + ... + n^(levels-1))`, counting a URL once per level it is in.
   */
  lemma {:induction false} FetchBagSize(pages: Pages, q: set<Url>, levels: nat, n: int)
    ensures |FetchBag(pages, q, levels, n)| <= |q| * GeomSum(Fan(n), levels)
    decreases levels
  {
    if levels > 0 {
      var f := Fan(n);
      var g := Gathered(pages, q, n);
      var rest := FetchBag(pages, g, levels - 1, n);
      FetchBagSize(pages, g, levels - 1, n);
      GatheredBound(pages, q, n);
      assert |FetchBag(pages, q, levels, n)| == |q| + |rest|;
      GeomBound(|q|, |g|, |rest|, f, GeomSum(f, levels - 1));
    }
  }

  /** The arithmetic step of the fetch bound: `a` URLs, at most `f * a` below them, each fetching at most `s`. */
  lemma GeomBound(a: nat, b: nat, c: nat, f: nat, s: nat)
    requires c <= b * s && b <= f * a
    ensures a + c <= a * (1 + f * s)
  {
    MulMonotone(s, b, f * a);
    assert b * s == s * b;
    assert a * (1 + f * s) == a + a * (f * s);
    assert a * (f * s) == s * (f * a);
  }

  /** The number of fetches at level `k` is the size of that frontier, and the fetch count is their sum. */
  lemma {:induction false} FetchBagLevels(pages: Pages, q: set<Url>, levels: nat, n: int)
    requires levels > 0
    ensures FetchBag(pages, q, levels, n) ==
              FetchBag(pages, q, levels - 1, n) + multiset(Frontier(pages, q, levels - 1, n))
    decreases levels
  {
    if levels > 1 {
      FetchBagLevels(pages, Gathered(pages, q, n), levels - 1, n);
    }
  }

  /** From an empty frontier a crawl fetches nothing, gathers nothing and fails nowhere. */
  lemma {:induction false} EmptyFrontier(pages: Pages, levels: nat, n: int)
    ensures Reached(pages, {}, levels, n) == {}
    ensures FetchBag(pages, {}, levels, n) == multiset{}
    ensures AllTitles(pages, {}, levels, n) == {}
    ensures AllSucceed(pages, {}, levels, n)
    decreases levels
  {
    if levels > 0 {
      assert Gathered(pages, {}, n) == {};
      assert Titles(pages, {}, n) == {};
      EmptyFrontier(pages, levels - 1, n);
    }
  }

  /** The URLs fetched with multiplicity are exactly the reached URLs. */
  lemma {:induction false} FetchBagReached(pages: Pages, q: set<Url>, levels: nat, n: int, u: Url)
    ensures u in FetchBag(pages, q, levels, n) <==> u in Reached(pages, q, levels, n)
    decreases levels
  {
    if levels > 0 {
      FetchBagReached(pages, Gathered(pages, q, n), levels - 1, n, u);
    }
  }

  /** A page whose only anchor points back at itself; with one link per page it is its own next frontier. */
  lemma SelfLinkGathered(href: string, title: string)
    ensures var u := WikiBase + href;
            var pages := map[u := Page(Some(title), Some([href]))];
            Visit(pages, u, 1) == Ok(Article(title, {u})) && Gathered(pages, {u}, 1) == {u}
  {
    var u := WikiBase + href;
    var pages := map[u := Page(Some(title), Some([href]))];
    assert LinkSet([href], 1) == {u} by {
      assert WikiBase + [href][0] in LinkSet([href], 1);
    }
    assert LinksOf(pages, u, 1) == {u};
    AddUrl(pages, {}, u, 1);
  }

  /**
   No visited set: a page that links only to itself is fetched again at every level,
   so a crawl of `levels` levels fetches it `levels` times.
   */
  lemma {:induction false} SelfLinkFetchedEveryLevel(href: string, title: string, levels: nat)
    ensures var pages := map[WikiBase + href := Page(Some(title), Some([href]))];
            FetchBag(pages, {WikiBase + href}, levels, 1)[WikiBase + href] == levels
    decreases levels
  {
    if levels > 0 {
      SelfLinkGathered(href, title);
      SelfLinkFetchedEveryLevel(href, title, levels - 1);
    }
  }

  /** A whole level in front of a level-by-level log of the crawl below. */
  lemma ByLevelsStep(pages: Pages, q: set<Url>, levels: nat, n: int, log: seq<Url>, rest: seq<Url>)
    requires levels > 0 && multiset(log) == multiset(q)
    requires ByLevels(pages, Gathered(pages, q, n), levels - 1, n, rest)
    ensures ByLevels(pages, q, levels, n, log + rest)
  {
    assert |log| == |multiset(log)| == |q|;
    assert (log + rest)[..|q|] == log && (log + rest)[|q|..] == rest;
  }

  /** A whole, successful level in front of a log of the crawl below that was cut short. */
  lemma CutByLevelsStep(pages: Pages, q: set<Url>, levels: nat, n: int, log: seq<Url>, rest: seq<Url>)
    requires levels > 1 && multiset(log) == multiset(q)
    requires forall u :: u in q ==> Visit(pages, u, n).Ok?
    requires CutByLevels(pages, Gathered(pages, q, n), levels - 1, n, rest)
    ensures CutByLevels(pages, q, levels, n, log + rest)
  {
    assert |log| == |multiset(log)| == |q|;
    assert (log + rest)[..|q|] == log && (log + rest)[|q|..] == rest;
  }

  /**
   A URL of the next level is never requested before the current level has ended: from
   the frontier `{a, c}`, the log `[a, x, c]` is not that of a crawl cut short, whatever
   the pages are, while `[c]` and `[a, c]` are.
   */
  lemma NoDescentBeforeLevelEnds(pages: Pages, n: int)
    ensures !CutByLevels(pages, {"a", "c"}, 2, n, ["a", "x", "c"])
    ensures CutByLevels(pages, {"a", "c"}, 2, n, ["c"]) && CutByLevels(pages, {"a", "c"}, 2, n, ["a", "c"])
  {
    assert multiset(["a", "c"]) == multiset({"a", "c"});
    var log: seq<Url> := ["a", "x", "c"];
    assert multiset(log)["x"] == 1 && multiset({"a", "c"})["x"] == 0;
    assert log[..2] == ["a", "x"] && multiset(log[..2])["c"] == 0;
  }

  /** A title lies in the titles of a crawl exactly when some level's frontier has a page bearing it. */
  lemma AllTitlesLevels(pages: Pages, q: set<Url>, levels: nat, n: int, t: string)
    ensures t in AllTitles(pages, q, levels, n) <==>
              exists j: nat :: j < levels && t in Titles(pages, Frontier(pages, q, j, n), n)
  {
    if t in AllTitles(pages, q, levels, n) {
      var j := AllTitlesWitness(pages, q, levels, n, t);
    }
    forall j: nat | j < levels && t in Titles(pages, Frontier(pages, q, j, n), n)
      ensures t in AllTitles(pages, q, levels, n)
    {
      AllTitlesAt(pages, q, levels, n, t, j);
    }
  }

  /** A title of the frontier `j` levels down is among the titles of a crawl deeper than `j`. */
  lemma {:induction false} AllTitlesAt(pages: Pages, q: set<Url>, levels: nat, n: int, t: string, j: nat)
    requires j < levels && t in Titles(pages, Frontier(pages, q, j, n), n)
    ensures t in AllTitles(pages, q, levels, n)
    decreases j
  {
    var g := Gathered(pages, q, n);
    assert AllTitles(pages, q, levels, n) == Titles(pages, q, n) + AllTitles(pages, g, levels - 1, n);
    if j > 0 {
      assert Frontier(pages, q, j, n) == Frontier(pages, g, j - 1, n);
      AllTitlesAt(pages, g, levels - 1, n, t, j - 1);
    }
  }

  /** The level at which a title of a crawl is found. */
  lemma {:induction false} AllTitlesWitness(pages: Pages, q: set<Url>, levels: nat, n: int, t: string) returns (j: nat)
    requires t in AllTitles(pages, q, levels, n)
    ensures j < levels && t in Titles(pages, Frontier(pages, q, j, n), n)
    decreases levels
  {
    var g := Gathered(pages, q, n);
    assert AllTitles(pages, q, levels, n) == Titles(pages, q, n) + AllTitles(pages, g, levels - 1, n);
    if t in Titles(pages, q, n) {
      j := 0;
    } else {
      var below := AllTitlesWitness(pages, g, levels - 1, n, t);
      j := below + 1;
      assert Frontier(pages, q, j, n) == Frontier(pages, g, below, n);
    }
  }
}
