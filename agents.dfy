/** Hash-gated ingestion of scraped pages into the RAG tool, and the
    wrapper around the tool's retrieval that records which source url the
    retrieved text came from. SHA-256 (`content_hash`) is the parameter
    `contentHash`; the pickle file of known hashes is an optional set. */
module Agents {
  import opened Common
  import opened PyStr
  import Scrape

  /** A hex digest of a page's text. */
  type Digest = string

  /** The header the RAG tool puts before the text it returns. */
  const RelevantContentHeader: string := "Relevant Content:\n"

  /** The text handed to `rag_tool.add` for a page. */
  function Combined(p: Page): string
  {
    "[URL] " + p.url + "\n\n" + p.text
  }

  /** As long as urls hold no line break (and a url never does), the text
      handed to the tool determines the page it was built from. */
  lemma CombinedDeterminesPage(p: Page, q: Page)
    requires forall i :: 0 <= i < |p.url| ==> p.url[i] != '\n'
    requires forall i :: 0 <= i < |q.url| ==> q.url[i] != '\n'
    ensures Combined(p) == Combined(q) ==> p == q
  {
    if Combined(p) == Combined(q) {
      var a, b := Combined(p), Combined(q);
      UrlEndsAtFirstBreak(p);
      UrlEndsAtFirstBreak(q);
      assert |p.url| == |q.url|;
      assert p.url == a[6..6 + |p.url|] == b[6..6 + |q.url|] == q.url;
      assert p.text == a[8 + |p.url|..] == b[8 + |q.url|..] == q.text;
    }
  }

  lemma UrlEndsAtFirstBreak(p: Page)
    requires forall i :: 0 <= i < |p.url| ==> p.url[i] != '\n'
    ensures forall i :: 6 <= i < 6 + |p.url| ==> Combined(p)[i] != '\n'
    ensures Combined(p)[6 + |p.url|] == '\n'
  {
    forall i | 6 <= i < 6 + |p.url| ensures Combined(p)[i] == p.url[i - 6] { }
  }

  /** `load_hash_cache`: the stored set, or the empty set when the file is
      missing. */
  function LoadHashCache(file: Option<set<Digest>>): set<Digest>
  {
    match file
    case Some(hashes) => hashes
    case None => {}
  }

  /** The pages, in order, whose content hash is not in `existing`: those the
      ingestion loop adds. */
  function FreshPages(pages: seq<Page>, existing: set<Digest>, contentHash: string -> Digest): seq<Page>
  {
    if |pages| == 0 then []
    else
      var p := pages[|pages| - 1];
      FreshPages(pages[..|pages| - 1], existing, contentHash)
        + (if contentHash(p.text) !in existing then [p] else [])
  }

  /** The texts handed to the tool for `pages`, in order. */
  function CombinedAll(pages: seq<Page>): seq<string>
  {
    if |pages| == 0 then []
    else CombinedAll(pages[..|pages| - 1]) + [Combined(pages[|pages| - 1])]
  }

  /** The content hashes of `pages`. */
  function Hashes(pages: seq<Page>, contentHash: string -> Digest): set<Digest>
  {
    if |pages| == 0 then {}
    else Hashes(pages[..|pages| - 1], contentHash) + {contentHash(pages[|pages| - 1].text)}
  }

  /** The hashes an ingestion loop collects in `new_hashes`. */
  function NewHashes(pages: seq<Page>, existing: set<Digest>, contentHash: string -> Digest): set<Digest>
  {
    Hashes(FreshPages(pages, existing, contentHash), contentHash)
  }

  /** The ledger saved at the end of a run over the course and the
      discourse pages: the loaded ledger together with the new hashes. */
  function SavedLedger(existing: set<Digest>, course: seq<Page>, discourse: seq<Page>,
                       contentHash: string -> Digest): set<Digest>
  {
    existing + NewHashes(course, existing, contentHash) + NewHashes(discourse, existing, contentHash)
  }

  /** A page is added exactly when it is one of the pages and its hash is
      not in the loaded ledger. */
  lemma {:induction false} FreshPagesIff(pages: seq<Page>, existing: set<Digest>,
                                         contentHash: string -> Digest, p: Page)
    ensures p in FreshPages(pages, existing, contentHash) <==> p in pages && contentHash(p.text) !in existing
  {
    var n := |pages|;
    if n > 0 {
      var init := pages[..n - 1];
      FreshPagesIff(init, existing, contentHash, p);
      assert pages == init + [pages[n - 1]];
    }
  }

  lemma {:induction false} HashesIff(pages: seq<Page>, contentHash: string -> Digest, x: Digest)
    ensures x in Hashes(pages, contentHash) <==> exists p :: p in pages && contentHash(p.text) == x
  {
    var n := |pages|;
    if n > 0 {
      var init := pages[..n - 1];
      HashesIff(init, contentHash, x);
      assert pages == init + [pages[n - 1]];
      if x in Hashes(pages, contentHash) && x !in Hashes(init, contentHash) {
        assert pages[n - 1] in pages;
      }
    }
  }

  /** The saved ledger is the loaded ledger together with the hash of every
      page seen in the run, added or skipped: it never loses a hash and it
      holds the content of every page the run saw. */
  lemma SavedLedgerIsUnionOfAllHashes(existing: set<Digest>, course: seq<Page>, discourse: seq<Page>,
                                      contentHash: string -> Digest)
    ensures SavedLedger(existing, course, discourse, contentHash)
      == existing + Hashes(course, contentHash) + Hashes(discourse, contentHash)
  {
    var saved := SavedLedger(existing, course, discourse, contentHash);
    var all := existing + Hashes(course, contentHash) + Hashes(discourse, contentHash);
    forall x | x in saved ensures x in all {
      if x !in existing {
        if x in NewHashes(course, existing, contentHash) {
          HashesIff(FreshPages(course, existing, contentHash), contentHash, x);
          var p :| p in FreshPages(course, existing, contentHash) && contentHash(p.text) == x;
          FreshPagesIff(course, existing, contentHash, p);
          HashesIff(course, contentHash, x);
        } else {
          HashesIff(FreshPages(discourse, existing, contentHash), contentHash, x);
          var p :| p in FreshPages(discourse, existing, contentHash) && contentHash(p.text) == x;
          FreshPagesIff(discourse, existing, contentHash, p);
          HashesIff(discourse, contentHash, x);
        }
      }
    }
    forall x | x in all ensures x in saved {
      if x !in existing {
        if x in Hashes(course, contentHash) {
          HashesIff(course, contentHash, x);
          var p :| p in course && contentHash(p.text) == x;
          FreshPagesIff(course, existing, contentHash, p);
          HashesIff(FreshPages(course, existing, contentHash), contentHash, x);
        } else {
          HashesIff(discourse, contentHash, x);
          var p :| p in discourse && contentHash(p.text) == x;
          FreshPagesIff(discourse, existing, contentHash, p);
          HashesIff(FreshPages(discourse, existing, contentHash), contentHash, x);
        }
      }
    }
  }

  /** When every page's hash is already known, nothing is added. */
  lemma {:induction false} NothingFreshWhenAllKnown(pages: seq<Page>, existing: set<Digest>,
                                                    contentHash: string -> Digest)
    requires forall i :: 0 <= i < |pages| ==> contentHash(pages[i].text) in existing
    ensures FreshPages(pages, existing, contentHash) == []
  {
    if |pages| > 0 {
      NothingFreshWhenAllKnown(pages[..|pages| - 1], existing, contentHash);
    }
  }

  /** With no hash file every page is added, in order; in particular two
      pages with the same content in one run are both added, because only
      the loaded ledger is consulted. */
  lemma {:induction false} EverythingFreshWithoutLedger(pages: seq<Page>, contentHash: string -> Digest)
    ensures FreshPages(pages, LoadHashCache(None), contentHash) == pages
  {
    var n := |pages|;
    var none := LoadHashCache(None);
    assert none == {};
    if n > 0 {
      var init := pages[..n - 1];
      EverythingFreshWithoutLedger(init, contentHash);
      assert FreshPages(pages, none, contentHash) == init + [pages[n - 1]];
      assert pages == init + [pages[n - 1]];
    }
  }

  /** Two entries of one scraped mapping with the same content are both
      added: a hash collected during the run does not suppress a later
      page, so the same text is embedded twice, under two urls. */
  lemma SameContentAddedTwice(pages: Corpus, existing: set<Digest>,
                              contentHash: string -> Digest, i: nat, j: nat)
    requires i < j < |pages| && pages[i].text == pages[j].text
    requires contentHash(pages[i].text) !in existing
    ensures pages[i] != pages[j]
    ensures pages[i] in FreshPages(pages, existing, contentHash)
    ensures pages[j] in FreshPages(pages, existing, contentHash)
  {
    FreshPagesIff(pages, existing, contentHash, pages[i]);
    FreshPagesIff(pages, existing, contentHash, pages[j]);
  }

  /** Running ingestion again over the same pages with the saved ledger adds
      no page and saves the same ledger. */
  lemma RerunAddsNothing(existing: set<Digest>, course: seq<Page>, discourse: seq<Page>,
                         contentHash: string -> Digest)
    ensures var saved := SavedLedger(existing, course, discourse, contentHash);
      && FreshPages(course, saved, contentHash) == []
      && FreshPages(discourse, saved, contentHash) == []
      && SavedLedger(saved, course, discourse, contentHash) == saved
  {
    var saved := SavedLedger(existing, course, discourse, contentHash);
    SavedLedgerIsUnionOfAllHashes(existing, course, discourse, contentHash);
    forall i | 0 <= i < |course| ensures contentHash(course[i].text) in saved {
      HashesIff(course, contentHash, contentHash(course[i].text));
    }
    forall i | 0 <= i < |discourse| ensures contentHash(discourse[i].text) in saved {
      HashesIff(discourse, contentHash, contentHash(discourse[i].text));
    }
    NothingFreshWhenAllKnown(course, saved, contentHash);
    NothingFreshWhenAllKnown(discourse, saved, contentHash);
  }

  /** When one page is the only one whose hash is unknown, it alone is added. */
  lemma {:induction false} OnlyFreshPage(pages: seq<Page>, existing: set<Digest>,
                                         contentHash: string -> Digest, i: nat)
    requires i < |pages| && contentHash(pages[i].text) !in existing
    requires forall j :: 0 <= j < |pages| && j != i ==> contentHash(pages[j].text) in existing
    ensures FreshPages(pages, existing, contentHash) == [pages[i]]
  {
    var n := |pages|;
    var init := pages[..n - 1];
    if i == n - 1 {
      NothingFreshWhenAllKnown(init, existing, contentHash);
    } else {
      OnlyFreshPage(init, existing, contentHash, i);
    }
  }

  /** After a run, changing the text of one course page to content never
      seen before makes the next run add exactly that page, and the ledger
      gains exactly its hash while keeping the hash of the old content:
      nothing is taken back for the url's earlier version. */
  lemma ChangedPageReingested(existing: set<Digest>, course: seq<Page>, discourse: seq<Page>,
                              contentHash: string -> Digest, i: nat, text: string)
    requires i < |course|
    requires contentHash(text) !in SavedLedger(existing, course, discourse, contentHash)
    ensures var saved := SavedLedger(existing, course, discourse, contentHash);
      var changed := course[i := Page(course[i].url, text)];
      && FreshPages(changed, saved, contentHash) == [changed[i]]
      && FreshPages(discourse, saved, contentHash) == []
      && SavedLedger(saved, changed, discourse, contentHash) == saved + {contentHash(text)}
      && contentHash(course[i].text) in SavedLedger(saved, changed, discourse, contentHash)
  {
    var saved := SavedLedger(existing, course, discourse, contentHash);
    var changed := course[i := Page(course[i].url, text)];
    SavedLedgerIsUnionOfAllHashes(existing, course, discourse, contentHash);
    forall j | 0 <= j < |changed| && j != i ensures contentHash(changed[j].text) in saved {
      HashesIff(course, contentHash, contentHash(course[j].text));
    }
    OnlyFreshPage(changed, saved, contentHash, i);
    RerunAddsNothing(existing, course, discourse, contentHash);
    assert NewHashes(changed, saved, contentHash) == {contentHash(text)};
    HashesIff(course, contentHash, contentHash(course[i].text));
  }

  /** The RAG tool: the texts added to its index, in order, and the set of
      source urls recorded by the retrieval wrapper. */
  class RagTool {
    var added: seq<string>
    var retrievedDocs: set<Url>

    constructor ()
      ensures added == [] && retrievedDocs == {}
    {
      added := [];
      retrievedDocs := {};
    }

    /** `rag_tool.add('text', text)`. */
    method Add(text: string)
      modifies this
      ensures added == old(added) + [text]
      ensures retrievedDocs == old(retrievedDocs)
    {
      added := added + [text];
    }

    /** `debug_run`: runs the original retrieval, records at most one source
        url for its result and returns that result unchanged. */
    method DebugRun(query: string, originalRun: string -> string,
                    courseFile: Option<Corpus>, discourseFile: Option<Corpus>,
                    score: (string, string) -> real) returns (result: string)
      modifies this
      ensures result == originalRun(query)
      ensures added == old(added)
      ensures retrievedDocs == old(retrievedDocs) + UrlSet(CapturedUrl(result, courseFile, discourseFile, score))
    {
      result := originalRun(query);
      var url := Scrape.QueryScrapedPages(courseFile, RemovePrefix(result, RelevantContentHeader),
                                          Scrape.DefaultThreshold, score);
      if url.Some? {
        retrievedDocs := retrievedDocs + {url.value};
      } else {
        url := Scrape.QueryScrapedPages(discourseFile, RemovePrefix(result, RelevantContentHeader),
                                        Scrape.DefaultThreshold, score);
        if url.Some? {
          retrievedDocs := retrievedDocs + {url.value};
        }
      }
    }
  }

  function UrlSet(u: Option<Url>): set<Url>
  {
    match u
    case Some(v) => {v}
    case None => {}
  }

  /** The url `debug_run` records for a retrieval result: the course lookup
      on the result without its header, or else the discourse lookup. */
  function CapturedUrl(result: string, courseFile: Option<Corpus>, discourseFile: Option<Corpus>,
                       score: (string, string) -> real): Option<Url>
  {
    var text := RemovePrefix(result, RelevantContentHeader);
    var course := Scrape.Lookup(courseFile, text, Scrape.DefaultThreshold, score);
    if course.Some? then course else Scrape.Lookup(discourseFile, text, Scrape.DefaultThreshold, score)
  }

  /** A recorded url is the lookup's answer for the retrieved text without
      its header: the course page when the course lookup finds one, the
      discourse page only when it does not; either way it is a url of the
      mapping it came from. */
  lemma CapturedUrlSource(body: string, courseFile: Option<Corpus>, discourseFile: Option<Corpus>,
                          score: (string, string) -> real)
    ensures var course := Scrape.Lookup(courseFile, body, Scrape.DefaultThreshold, score);
      var discourse := Scrape.Lookup(discourseFile, body, Scrape.DefaultThreshold, score);
      var captured := CapturedUrl(RelevantContentHeader + body, courseFile, discourseFile, score);
      && (course.Some? ==> captured == course)
      && (course.None? ==> captured == discourse)
      && (course.Some? ==> courseFile.Some? && HasUrl(courseFile.value, captured.value))
      && (course.None? && captured.Some? ==> discourseFile.Some? && HasUrl(discourseFile.value, captured.value))
  {
    RemovePrefixAfterPrepend(RelevantContentHeader, body);
    var captured := CapturedUrl(RelevantContentHeader + body, courseFile, discourseFile, score);
    if captured.Some? {
      var u := captured.value;
      if courseFile.Some? && Scrape.Lookup(courseFile, body, Scrape.DefaultThreshold, score).Some? {
        Scrape.LookupIsThresholdedArgmax(courseFile.value, body, Scrape.DefaultThreshold, score, u);
      } else {
        Scrape.LookupFindsIff(courseFile, body, Scrape.DefaultThreshold, score);
        Scrape.LookupFindsIff(discourseFile, body, Scrape.DefaultThreshold, score);
        Scrape.LookupIsThresholdedArgmax(discourseFile.value, body, Scrape.DefaultThreshold, score, u);
      }
    }
  }

  /** One of the two ingestion loops of `return_rag_agent`: adds the pages
      whose hash is not in the loaded ledger and collects their hashes. */
  method IngestPages(tool: RagTool, scrapedPages: Corpus, existingHashes: set<Digest>,
                     newHashes: set<Digest>, contentHash: string -> Digest)
    returns (collected: set<Digest>)
    modifies tool
    ensures tool.added == old(tool.added) + CombinedAll(FreshPages(scrapedPages, existingHashes, contentHash))
    ensures tool.retrievedDocs == old(tool.retrievedDocs)
    ensures collected == newHashes + NewHashes(scrapedPages, existingHashes, contentHash)
  {
    collected := newHashes;
    for i := 0 to |scrapedPages|
      invariant tool.added == old(tool.added) + CombinedAll(FreshPages(scrapedPages[..i], existingHashes, contentHash))
      invariant tool.retrievedDocs == old(tool.retrievedDocs)
      invariant collected == newHashes + NewHashes(scrapedPages[..i], existingHashes, contentHash)
    {
      var page := scrapedPages[i];
      var h := contentHash(page.text);
      assert scrapedPages[..i + 1][..i] == scrapedPages[..i];
      ghost var before := FreshPages(scrapedPages[..i], existingHashes, contentHash);
      ghost var after := FreshPages(scrapedPages[..i + 1], existingHashes, contentHash);
      if h !in existingHashes {
        var combined := "[URL] " + page.url + "\n\n" + page.text;
        tool.Add(combined);
        collected := collected + {h};
        assert after == before + [page];
        assert after[..|before|] == before;
        assert CombinedAll(after) == CombinedAll(before) + [combined];
        assert Hashes(after, contentHash) == Hashes(before, contentHash) + {h};
      } else {
        assert after == before;
      }
    }
    assert scrapedPages[..|scrapedPages|] == scrapedPages;
  }

  /** The ingestion part of `return_rag_agent`: builds the tool, adds the new
      course pages, then the new discourse pages, and returns the ledger it
      saves. */
  method ReturnRagAgent(hashFile: Option<set<Digest>>, coursePages: Corpus, discoursePages: Corpus,
                        contentHash: string -> Digest)
    returns (tool: RagTool, saved: set<Digest>)
    ensures fresh(tool)
    ensures tool.added == CombinedAll(FreshPages(coursePages, LoadHashCache(hashFile), contentHash))
                        + CombinedAll(FreshPages(discoursePages, LoadHashCache(hashFile), contentHash))
    ensures tool.retrievedDocs == {}
    ensures saved == SavedLedger(LoadHashCache(hashFile), coursePages, discoursePages, contentHash)
  {
    tool := new RagTool();
    var existingHashes := LoadHashCache(hashFile);
    var newHashes := {};
    newHashes := IngestPages(tool, coursePages, existingHashes, newHashes, contentHash);
    assert newHashes == NewHashes(coursePages, existingHashes, contentHash);
    newHashes := IngestPages(tool, discoursePages, existingHashes, newHashes, contentHash);
    saved := existingHashes + newHashes;
  }
}
