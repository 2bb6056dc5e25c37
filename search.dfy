/**
 The indexing crawler: the same depth-bounded, level-by-level walk, but a URL that
 fails is skipped instead of aborting the crawl, and each article that succeeds becomes
 a (title, link) document of a full-text index. After the crawl the program answers
 queries typed one per line until the word "break".
 */
module Search {
  import opened Web
  import opened Frontiers
  import opened Bookkeeping

  /** An index document: the article title and the URL it was fetched from. */
  datatype Doc = Doc(title: string, link: Url)

  /** The index writer; `docs` lists the documents added, in order. */
  class IndexWriter {
    var docs: seq<Doc>

    constructor ()
      ensures docs == []
    {
      docs := [];
    }

    method AddDocument(d: Doc)
      modifies this
      ensures docs == old(docs) + [d]
    {
      docs := docs + [d];
    }
  }

  /** Builds the document of one article and adds it to the index. */
  method AddDoc(w: IndexWriter, title: string, link: Url)
    modifies w
    ensures w.docs == old(w.docs) + [Doc(title, link)]
  {
    w.AddDocument(Doc(title, link));
  }

  /** The documents one level over frontier `q` contributes: one per URL visited successfully. */
  ghost function LevelDocs(pages: Pages, q: set<Url>, n: int): set<Doc>
  {
    set u | u in q && Visit(pages, u, n).Ok? :: Doc(Visit(pages, u, n).value.title, u)
  }

  /** The documents a crawl of `levels` levels from frontier `q` adds, counted with multiplicity. */
  ghost function DocBag(pages: Pages, q: set<Url>, levels: nat, n: int): multiset<Doc>
    decreases levels
  {
    if levels == 0 then multiset{}
    else multiset(LevelDocs(pages, q, n)) + DocBag(pages, Gathered(pages, q, n), levels - 1, n)
  }

  /**
   The documents of such a crawl in the order they are added, level by level: those of
   `q`, each once and in some order, then those of the crawl below.
   */
  ghost predicate DocsByLevels(pages: Pages, q: set<Url>, levels: nat, n: int, docs: seq<Doc>)
    decreases levels
  {
    if levels == 0 then docs == []
    else
      var level := LevelDocs(pages, q, n);
      |level| <= |docs| && multiset(docs[..|level|]) == multiset(level) &&
      DocsByLevels(pages, Gathered(pages, q, n), levels - 1, n, docs[|level|..])
  }

  /**
   What a crawl of `levels` levels from `q` requests and indexes: the fetches are
   `FetchBag` and the documents `DocBag`, both taken level after level.
   */
  ghost predicate Indexed(pages: Pages, q: set<Url>, levels: nat, n: int, log: seq<Url>, docs: seq<Doc>)
  {
    multiset(log) == FetchBag(pages, q, levels, n) && ByLevels(pages, q, levels, n, log) &&
    multiset(docs) == DocBag(pages, q, levels, n) && DocsByLevels(pages, q, levels, n, docs)
  }

  /**
   One pass of the iterator loop over the frontier `queue`, in an arbitrary order. Each
   URL is loaded, its title read and its links gathered; only when all three succeed is
   the document added and the links put into the next frontier. A failure is caught
   and the loop goes on with the next URL.
   */
  method IndexLevel(queue: set<Url>, linkAmount: int, site: Site, w: IndexWriter) returns (newQueue: set<Url>)
    modifies site, w
    ensures old(site.requests) <= site.requests
    ensures multiset(site.requests[|old(site.requests)|..]) == multiset(queue)
    ensures newQueue == Gathered(site.pages, queue, linkAmount)
    ensures old(w.docs) <= w.docs
    ensures multiset(w.docs[|old(w.docs)|..]) == multiset(LevelDocs(site.pages, queue, linkAmount))
  {
    ghost var pages, n := site.pages, linkAmount;
    ghost var start, docs0 := site.requests, w.docs;
    newQueue := {};
    var remaining := queue;
    ghost var done: set<Url> := {};
    ghost var log: seq<Url> := [];
    ghost var added: seq<Doc> := [];
    assert LevelDocs(pages, {}, n) == {};
    while remaining != {}
      invariant remaining <= queue && done == queue - remaining
      invariant newQueue == Gathered(pages, done, n)
      invariant site.requests == start + log
      invariant multiset(log) == multiset(done)
      invariant w.docs == docs0 + added
      invariant multiset(added) == multiset(LevelDocs(pages, done, n))
      decreases remaining
    {
      var url :| url in remaining;
      MoveOne(queue, done, remaining, url);
      var article := FetchArticle(site, url, linkAmount);
      Appended(start, log, url, done);
      log := log + [url];
      if article.Ok? {
        ghost var d := Doc(article.value.title, url);
        LevelDocsAdd(pages, done, url, n);
        Appended(docs0, added, d, LevelDocs(pages, done, n));
        AddDoc(w, article.value.title, url);
        added := added + [d];
        AddUrl(pages, done, url, n);
        newQueue := newQueue + article.value.links;
      } else {
        LevelDocsAdd(pages, done, url, n);
        FailureContributesNothing(pages, done, url, n);
      }
      done := done + {url};
      remaining := remaining - {url};
    }
    AppendSlice(start, log);
    AppendSlice(docs0, added);
  }

  /**
   One call of the crawl. The depth counter is increased first; past the maximum the
   call returns null and touches nothing. Otherwise it indexes every URL of `queue`
   it can, gathers the next frontier from the pages that succeeded and recurses. The
   result is always null: the documents are the only outcome.
   */
  method CrawlWp(queue: set<Url>, crawlDepth: int, maxCrawlDepth: int, linkAmount: int, site: Site, w: IndexWriter)
    returns (r: Option<map<string, set<Url>>>)
    modifies site, w
    decreases maxCrawlDepth - crawlDepth
    ensures r == None
    ensures old(site.requests) <= site.requests
    ensures old(w.docs) <= w.docs
    ensures Indexed(site.pages, queue, Levels(crawlDepth, maxCrawlDepth), linkAmount,
                    site.requests[|old(site.requests)|..], w.docs[|old(w.docs)|..])
  {
    var depth := crawlDepth + 1;
    if depth > maxCrawlDepth {
      assert site.requests[|site.requests|..] == [] && w.docs[|w.docs|..] == [];
      return None;
    }
    ghost var pages, n, levels := site.pages, linkAmount, Levels(crawlDepth, maxCrawlDepth);
    ghost var firstRequests, firstDocs := site.requests, w.docs;
    var newQueue := IndexLevel(queue, linkAmount, site, w);
    ghost var midRequests, midDocs := site.requests, w.docs;
    assert Levels(depth, maxCrawlDepth) == levels - 1;
    r := CrawlWp(newQueue, depth, maxCrawlDepth, linkAmount, site, w);
    RequestsSplit(firstRequests, midRequests, site.requests, |firstRequests|);
    RequestsSplit(firstDocs, midDocs, w.docs, |firstDocs|);
    IndexedLevel(pages, queue, levels, n, midRequests[|firstRequests|..], site.requests[|midRequests|..],
                 midDocs[|firstDocs|..], w.docs[|midDocs|..]);
  }

  /** The crawl as the program starts it: from one start page, 4 levels deep, 5 links per page. */
  const StartPage: Url := "https://en.wikipedia.org/wiki/" + "Rose_Cheruiyot"
  const MaxCrawlDepth: int := 4
  const LinkAmount: int := 5

  /** Creates the index and fills it by crawling from the start page. */
  method BuildIndex(site: Site) returns (w: IndexWriter)
    modifies site
    ensures fresh(w)
    ensures multiset(w.docs) == DocBag(site.pages, {StartPage}, 4, LinkAmount)
    ensures old(site.requests) <= site.requests
    ensures multiset(site.requests[|old(site.requests)|..]) == FetchBag(site.pages, {StartPage}, 4, LinkAmount)
    ensures ByLevels(site.pages, {StartPage}, 4, LinkAmount, site.requests[|old(site.requests)|..])
    ensures DocsByLevels(site.pages, {StartPage}, 4, LinkAmount, w.docs)
  {
    w := new IndexWriter();
    var queue := {StartPage};
    var _ := CrawlWp(queue, 0, MaxCrawlDepth, LinkAmount, site, w);
    assert w.docs[0..] == w.docs;
  }

  // ---------------------------------------------------------------------------
  // What the crawl puts into the index

  /** A whole level, requests and documents, in front of what the crawl below requests and indexes. */
  lemma IndexedLevel(pages: Pages, q: set<Url>, levels: nat, n: int,
                     log: seq<Url>, rest: seq<Url>, docs: seq<Doc>, restDocs: seq<Doc>)
    requires levels > 0 && multiset(log) == multiset(q) && multiset(docs) == multiset(LevelDocs(pages, q, n))
    requires Indexed(pages, Gathered(pages, q, n), levels - 1, n, rest, restDocs)
    ensures Indexed(pages, q, levels, n, log + rest, docs + restDocs)
  {
    ByLevelsStep(pages, q, levels, n, log, rest);
    DocsByLevelsStep(pages, q, levels, n, docs, restDocs);
    assert multiset(log + rest) == multiset(log) + multiset(rest);
    assert multiset(docs + restDocs) == multiset(docs) + multiset(restDocs);
  }

  /** A whole level's documents in front of the level-by-level documents of the crawl below. */
  lemma DocsByLevelsStep(pages: Pages, q: set<Url>, levels: nat, n: int, docs: seq<Doc>, rest: seq<Doc>)
    requires levels > 0 && multiset(docs) == multiset(LevelDocs(pages, q, n))
    requires DocsByLevels(pages, Gathered(pages, q, n), levels - 1, n, rest)
    ensures DocsByLevels(pages, q, levels, n, docs + rest)
  {
    var level := LevelDocs(pages, q, n);
    assert |docs| == |multiset(docs)| == |level|;
    assert (docs + rest)[..|level|] == docs && (docs + rest)[|level|..] == rest;
  }

  /** A document of a level is exactly a URL of the level visited successfully, under its title. */
  lemma LevelDocsMembers(pages: Pages, q: set<Url>, n: int, d: Doc)
    ensures d in LevelDocs(pages, q, n) <==>
              d.link in q && Visit(pages, d.link, n).Ok? && Visit(pages, d.link, n).value.title == d.title
  {
  }

  /** Adding one URL to a level adds its document if the visit succeeds, and nothing otherwise. */
  lemma LevelDocsAdd(pages: Pages, q: set<Url>, u: Url, n: int)
    requires u !in q
    ensures Visit(pages, u, n).Ok? ==>
              LevelDocs(pages, q + {u}, n) == LevelDocs(pages, q, n) + {Doc(Visit(pages, u, n).value.title, u)} &&
              Doc(Visit(pages, u, n).value.title, u) !in LevelDocs(pages, q, n)
    ensures Visit(pages, u, n).Err? ==> LevelDocs(pages, q + {u}, n) == LevelDocs(pages, q, n)
  {
  }

  /** Each successful URL gives its own document: a level has one document per page that succeeded. */
  lemma {:induction false} LevelDocsSize(pages: Pages, q: set<Url>, n: int)
    ensures |LevelDocs(pages, q, n)| == |Succeeded(pages, q, n)|
    decreases q
  {
    if q != {} {
      var u :| u in q;
      var rest := q - {u};
      assert rest + {u} == q;
      LevelDocsSize(pages, rest, n);
      LevelDocsAdd(pages, rest, u, n);
      AddUrlSucceeded(pages, rest, u, n);
      if Visit(pages, u, n).Ok? {
        assert u !in Succeeded(pages, rest, n);
        assert |Succeeded(pages, q, n)| == |Succeeded(pages, rest, n)| + 1;
        assert |LevelDocs(pages, q, n)| == |LevelDocs(pages, rest, n)| + 1;
      } else {
        assert Succeeded(pages, q, n) == Succeeded(pages, rest, n);
      }
    } else {
      assert LevelDocs(pages, q, n) == {};
      assert Succeeded(pages, q, n) == {};
    }
  }

  /** The successful visits of a crawl of `levels` levels, level by level, counted with multiplicity. */
  ghost function SuccessBag(pages: Pages, q: set<Url>, levels: nat, n: int): multiset<Url>
    decreases levels
  {
    if levels == 0 then multiset{}
    else multiset(Succeeded(pages, q, n)) + SuccessBag(pages, Gathered(pages, q, n), levels - 1, n)
  }

  /** The index holds one document per successful visit, over all levels, repeats included. */
  lemma {:induction false} DocBagCount(pages: Pages, q: set<Url>, levels: nat, n: int)
    ensures |DocBag(pages, q, levels, n)| == |SuccessBag(pages, q, levels, n)|
    decreases levels
  {
    if levels > 0 {
      DocBagCount(pages, Gathered(pages, q, n), levels - 1, n);
      LevelDocsSize(pages, q, n);
    }
  }

  /** The successful visits are among the fetches. */
  lemma {:induction false} SuccessBagFetched(pages: Pages, q: set<Url>, levels: nat, n: int)
    ensures SuccessBag(pages, q, levels, n) <= FetchBag(pages, q, levels, n)
    decreases levels
  {
    if levels > 0 {
      SuccessBagFetched(pages, Gathered(pages, q, n), levels - 1, n);
      SetMultisetSub(Succeeded(pages, q, n), q);
    }
  }

  /** The index never holds more documents than there were fetches. */
  lemma DocBagSize(pages: Pages, q: set<Url>, levels: nat, n: int)
    ensures |DocBag(pages, q, levels, n)| <= |FetchBag(pages, q, levels, n)|
  {
    DocBagCount(pages, q, levels, n);
    SuccessBagFetched(pages, q, levels, n);
    MultisetSubSize(SuccessBag(pages, q, levels, n), FetchBag(pages, q, levels, n));
  }

  /** When every visit succeeds, every fetch yields a document. */
  lemma {:induction false} AllSucceedDocs(pages: Pages, q: set<Url>, levels: nat, n: int)
    requires AllSucceed(pages, q, levels, n)
    ensures SuccessBag(pages, q, levels, n) == FetchBag(pages, q, levels, n)
    ensures |DocBag(pages, q, levels, n)| == |FetchBag(pages, q, levels, n)|
    decreases levels
  {
    if levels > 0 {
      AllSucceedDocs(pages, Gathered(pages, q, n), levels - 1, n);
      assert Succeeded(pages, q, n) == q;
    }
    DocBagCount(pages, q, levels, n);
  }

  /** No visited set: a page that links only to itself is indexed again at every level. */
  lemma {:induction false} SelfLinkIndexedEveryLevel(href: string, title: string, levels: nat)
    ensures var u := WikiBase + href;
            var pages := map[u := Page(Some(title), Some([href]))];
            DocBag(pages, {u}, levels, 1)[Doc(title, u)] == levels
    decreases levels
  {
    var u := WikiBase + href;
    var pages := map[u := Page(Some(title), Some([href]))];
    if levels > 0 {
      SelfLinkGathered(href, title);
      assert LevelDocs(pages, {u}, 1) == {Doc(title, u)};
      SelfLinkIndexedEveryLevel(href, title, levels - 1);
    }
  }

  /** Every document is the title and URL of a page that was reached and visited successfully. */
  lemma {:induction false} DocBagMembers(pages: Pages, q: set<Url>, levels: nat, n: int, d: Doc)
    requires d in DocBag(pages, q, levels, n)
    ensures d.link in Reached(pages, q, levels, n)
    ensures Visit(pages, d.link, n).Ok? && Visit(pages, d.link, n).value.title == d.title
    decreases levels
  {
    var g := Gathered(pages, q, n);
    if d !in LevelDocs(pages, q, n) {
      DocBagMembers(pages, g, levels - 1, n, d);
    }
  }

  /**
   Failures are skipped: a URL that cannot be visited adds no document and no link,
   and the other URLs of its level are indexed as if it were absent.
   */
  lemma FailureSkipped(pages: Pages, q: set<Url>, u: Url, n: int)
    requires u in q && Visit(pages, u, n).Err?
    ensures LevelDocs(pages, q, n) == LevelDocs(pages, q - {u}, n)
    ensures Gathered(pages, q, n) == Gathered(pages, q - {u}, n)
  {
    assert q - {u} + {u} == q;
    LevelDocsAdd(pages, q - {u}, u, n);
    FailureContributesNothing(pages, q - {u}, u, n);
  }

  // ---------------------------------------------------------------------------
  // The query loop

  /** Java's case-insensitive comparison of one character with a lower-case ASCII letter. */
  predicate MatchesIgnoringCase(c: char, letter: char)
    requires 'a' <= letter <= 'z'
  {
    c == letter || c as int == letter as int - 32 ||
    // KELVIN SIGN is upper case and lower-cases to 'k'
    (letter == 'k' && c == 'K')
  }

  /** Whether a line equals "break" when case is ignored, as `equalsIgnoreCase` decides it. */
  predicate IsBreak(line: string): (r: bool)
    ensures r ==> |line| == 5
    ensures line == "break" || line == "BREAK" ==> r
  {
    var word := "break";
    |line| == |word| && forall i :: 0 <= i < |word| ==> MatchesIgnoringCase(line[i], word[i])
  }

  /**
   How the query loop ends: at a "break" line, at a line whose query the parser rejects
   (the ParseException leaves the program), or when input runs out (the null line is
   dereferenced).
   */
  datatype LoopEnd = Stopped | ParseFailed | InputExhausted

  /**
   Reads lines until one equals "break" ignoring case. Each earlier line is handed to
   the query parser with the fuzzy marker "~" appended; `parses` is the parser's verdict
   on a query string, and the first rejected query ends the program. Returns the parsed
   query strings, which are searched in order, and how the loop ended.
   */
  method QueryLoop(input: seq<string>, parses: string -> bool) returns (queries: seq<string>, end: LoopEnd)
    ensures |queries| <= |input|
    ensures forall j :: 0 <= j < |queries| ==>
              queries[j] == input[j] + "~" && !IsBreak(input[j]) && parses(queries[j])
    ensures end == Stopped <==>
              exists i :: 0 <= i < |input| && IsBreak(input[i]) && forall j :: 0 <= j < i ==> parses(input[j] + "~")
    ensures end == Stopped ==> |queries| < |input| && IsBreak(input[|queries|])
    ensures end == ParseFailed ==>
              |queries| < |input| && !IsBreak(input[|queries|]) && !parses(input[|queries|] + "~")
    ensures end == InputExhausted ==> |queries| == |input|
  {
    queries := [];
    var i := 0;
    while i < |input|
      invariant 0 <= i <= |input| && |queries| == i
      invariant forall j :: 0 <= j < i ==>
                  queries[j] == input[j] + "~" && !IsBreak(input[j]) && parses(queries[j])
    {
      var line := input[i];
      if IsBreak(line) {
        return queries, Stopped;
      }
      var query := line + "~";
      if !parses(query) {
        return queries, ParseFailed;
      }
      queries := queries + [query];
      i := i + 1;
    }
    end := InputExhausted;
  }

  /** "break" is recognised in any mix of cases, and only as the whole line. */
  lemma BreakSpellings()
    ensures IsBreak("break") && IsBreak("BREAK") && IsBreak("Break") && IsBreak("bReAk")
    ensures IsBreak("breaK")
    ensures !IsBreak("breaks") && !IsBreak(" break") && !IsBreak("brake") && !IsBreak("")
  {
    assert "breaks"[5] == 's';
    assert " break"[0] == ' ';
    assert "brake"[2] == 'a';
  }
}
