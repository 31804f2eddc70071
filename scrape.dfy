/** Best-match url lookup over a scraped url -> text mapping: the page whose
    text is most similar to a query, provided the similarity reaches a
    threshold. The course lookup and the discourse lookup are the same
    algorithm over two different pickle files, so both are
    `QueryScrapedPages` applied to the file's contents. The fuzzy scorer
    (rapidfuzz `partial_ratio`) is a parameter. */
module Scrape {
  import opened Common
  import opened PyStr

  /** The default `threshold` of both lookups. */
  const DefaultThreshold: real := 60.0

  /** `s.lower().strip()`, applied to the query and to every page text. */
  function Normalize(s: string): string
  {
    Strip(Lower(s))
  }

  /** Normalising twice is normalising once. */
  lemma {:induction false} NormalizeIdempotent(s: string)
    ensures Normalize(Normalize(s)) == Normalize(s)
  {
    var y := Lower(s);
    var t := Strip(y);
    StripIsTrimmedSlice(y);
    var lo, hi :| 0 <= lo <= hi <= |y| && t == y[lo..hi];
    LowerAt(s);
    forall i | 0 <= i < |t| ensures LowerChar(t[i]) == t[i] {
      assert t[i] == y[lo + i] == LowerChar(s[lo + i]);
    }
    LowerFixes(t);
    StripIdempotent(y);
  }

  /** The similarity of a page to an already normalised query: the page's
      text is normalised the same way before it is scored. */
  function PageScore(score: (string, string) -> real, nq: string): Page -> real
  {
    (p: Page) => score(nq, Normalize(p.text))
  }

  /** The running `best_score` and `best_url` of the scan. */
  datatype Best = Best(score: real, url: Option<Url>)

  /** The running best after visiting `pages` in order: it starts at score 0
      with no url and moves only on a strictly greater score. */
  function Scan(pages: seq<Page>, sc: Page -> real): Best
  {
    if |pages| == 0 then Best(0.0, None)
    else
      var b := Scan(pages[..|pages| - 1], sc);
      var p := pages[|pages| - 1];
      if sc(p) > b.score then Best(sc(p), Some(p.url)) else b
  }

  /** Page `k` scores at least as much as every page and strictly more than
      every page before it: it is the first page of maximal score. */
  predicate FirstBest(pages: seq<Page>, sc: Page -> real, k: nat)
    requires k < |pages|
  {
    && (forall j :: 0 <= j < |pages| ==> sc(pages[j]) <= sc(pages[k]))
    && (forall j :: 0 <= j < k ==> sc(pages[j]) < sc(pages[k]))
  }

  /** The lookup on the mapping loaded from the pickle file (None when the
      file does not exist). */
  function Lookup(cache: Option<Corpus>, query: string, threshold: real,
                  score: (string, string) -> real): Option<Url>
  {
    match cache
    case None => None
    case Some(pages) =>
      var b := Scan(pages, PageScore(score, Normalize(query)));
      if b.score >= threshold then b.url else None
  }

  /** `query_tds_course_page` / `query_tds_discourse_page`. */
  method QueryScrapedPages(cache: Option<Corpus>, query: string, threshold: real,
                           score: (string, string) -> real) returns (r: Option<Url>)
    ensures r == Lookup(cache, query, threshold, score)
  {
    if cache.None? {
      return None;
    }
    var visitedPages := cache.value;
    var normalizedQuery := Normalize(query);
    var bestScore := 0.0;
    var bestUrl: Option<Url> := None;
    for i := 0 to |visitedPages|
      invariant Best(bestScore, bestUrl) == Scan(visitedPages[..i], PageScore(score, normalizedQuery))
    {
      var normalizedContent := Normalize(visitedPages[i].text);
      var s := score(normalizedQuery, normalizedContent);
      assert visitedPages[..i + 1][..i] == visitedPages[..i];
      if s > bestScore {
        bestScore := s;
        bestUrl := Some(visitedPages[i].url);
      }
    }
    assert visitedPages[..|visitedPages|] == visitedPages;
    if bestScore >= threshold {
      r := bestUrl;
    } else {
      r := None;
    }
  }

  /** The scan ends on the maximum of 0 and all scores, and it holds a url
      exactly when that maximum is positive. */
  lemma {:induction false} ScanIsMax(pages: seq<Page>, sc: Page -> real)
    ensures Scan(pages, sc).score >= 0.0
    ensures forall j :: 0 <= j < |pages| ==> sc(pages[j]) <= Scan(pages, sc).score
    ensures Scan(pages, sc).url.None? <==> Scan(pages, sc).score == 0.0
    ensures Scan(pages, sc).score == 0.0
      || exists j :: 0 <= j < |pages| && sc(pages[j]) == Scan(pages, sc).score
  {
    var n := |pages|;
    if n > 0 {
      var init := pages[..n - 1];
      ScanIsMax(init, sc);
      assert forall j :: 0 <= j < n - 1 ==> init[j] == pages[j];
    }
  }

  /** The url the scan holds is that of the first page of maximal score. */
  lemma {:induction false} ScanIsFirstArgmax(pages: seq<Page>, sc: Page -> real)
    ensures Scan(pages, sc).url.Some? ==>
      exists k :: 0 <= k < |pages| && pages[k].url == Scan(pages, sc).url.value
        && sc(pages[k]) == Scan(pages, sc).score && FirstBest(pages, sc, k)
  {
    var n := |pages|;
    if n > 0 {
      var init := pages[..n - 1];
      var b := Scan(init, sc);
      var p := pages[n - 1];
      ScanIsMax(init, sc);
      ScanIsFirstArgmax(init, sc);
      assert forall j :: 0 <= j < n - 1 ==> init[j] == pages[j];
      if sc(p) > b.score {
        assert FirstBest(pages, sc, n - 1);
      } else if b.url.Some? {
        var k :| 0 <= k < n - 1 && init[k].url == b.url.value
          && sc(init[k]) == b.score && FirstBest(init, sc, k);
        assert FirstBest(pages, sc, k);
      }
    }
  }

  /** A lookup returns `u` exactly when `u` is the url of the first page of
      maximal score and that score is positive and reaches the threshold:
      the greatest score wins, and on a tie the earliest page. */
  lemma LookupIsThresholdedArgmax(pages: Corpus, query: string, threshold: real,
                                  score: (string, string) -> real, u: Url)
    ensures Lookup(Some(pages), query, threshold, score) == Some(u) <==>
      exists k :: 0 <= k < |pages| && pages[k].url == u
        && FirstBest(pages, PageScore(score, Normalize(query)), k)
        && PageScore(score, Normalize(query))(pages[k]) > 0.0
        && PageScore(score, Normalize(query))(pages[k]) >= threshold
  {
    var sc := PageScore(score, Normalize(query));
    var b := Scan(pages, sc);
    ScanIsMax(pages, sc);
    ScanIsFirstArgmax(pages, sc);
    if exists k :: 0 <= k < |pages| && pages[k].url == u && FirstBest(pages, sc, k)
        && sc(pages[k]) > 0.0 && sc(pages[k]) >= threshold {
      var k :| 0 <= k < |pages| && pages[k].url == u && FirstBest(pages, sc, k)
        && sc(pages[k]) > 0.0 && sc(pages[k]) >= threshold;
      assert b.url.Some?;
      var k' :| 0 <= k' < |pages| && pages[k'].url == b.url.value
        && sc(pages[k']) == b.score && FirstBest(pages, sc, k');
      assert k == k';
    }
  }

  /** The lookup finds some url exactly when the mapping was loaded and some
      page scores both above 0 and at least the threshold. In particular a
      missing file or an empty mapping gives None for every threshold, and a
      page scoring 0 is never chosen. */
  lemma LookupFindsIff(cache: Option<Corpus>, query: string, threshold: real,
                       score: (string, string) -> real)
    ensures Lookup(cache, query, threshold, score).Some? <==>
      && cache.Some?
      && exists j :: 0 <= j < |cache.value|
           && PageScore(score, Normalize(query))(cache.value[j]) > 0.0
           && PageScore(score, Normalize(query))(cache.value[j]) >= threshold
  {
    if cache.Some? {
      var pages := cache.value;
      var sc := PageScore(score, Normalize(query));
      var b := Scan(pages, sc);
      ScanIsMax(pages, sc);
      ScanIsFirstArgmax(pages, sc);
      if b.url.Some? && b.score >= threshold {
        var k :| 0 <= k < |pages| && pages[k].url == b.url.value
          && sc(pages[k]) == b.score && FirstBest(pages, sc, k);
        assert sc(pages[k]) > 0.0;
      }
    }
  }

  /** The query matters only through its lower-cased, stripped form. */
  lemma LookupSeesNormalizedQuery(cache: Option<Corpus>, query: string, threshold: real,
                                  score: (string, string) -> real)
    ensures Lookup(cache, Normalize(query), threshold, score) == Lookup(cache, query, threshold, score)
  {
    NormalizeIdempotent(query);
  }
}
