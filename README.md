# TDS help-desk: retrieval, ingestion and answer pipeline

This project models the core of a question-answering help desk for the
Tools in Data Science course, together with proofs about that model.

- **Scraped mappings.** The help desk scrapes course and forum (discourse)
  pages into url -> text mappings that are kept as pickle files.
- **Fuzzy lookup.** It maps a retrieved text back to the url whose stored
  text is most similar to it (`scrape.py`).
- **RAG ingestion.** It feeds new pages into a RAG tool, and skips content
  whose hash is already in the ledger from an earlier run. Within one run
  only the loaded ledger is consulted, not the hashes the run collects, so
  identical content under two urls is ingested once per url (`agents.py`).
- **Vector store indexing.** It merges the two mappings and indexes them in
  batches of ten (`vectordb.py`).
- **Request handling.** It answers a question with a retrieve-then-generate
  graph. It then refines that answer against the first two retrieved
  documents with a second graph, and returns the answer with one link per
  usable refinement (`graphs.py`, `app.py`).

The modules follow the source files:

- `Common` (`common.dfy`) holds the shared pieces:
  - the `Option` and `Result` wrappers (`Failure` is a raised exception);
  - `Page`;
  - `Corpus`, a dict modelled as a sequence of entries with unique urls in
    insertion order, with `Get` as `dict.get`;
  - langchain's `Document`.
- `PyStr` (`pystr.dfy`) holds the Python string built-ins the code relies
  on: `lower`, `strip`, `removeprefix` and `join`.
- `Scrape` (`scrape.dfy`, models `scrape.py`) holds the two lookups. They are one method,
  `QueryScrapedPages`, applied to the course file or the discourse file.
- `Agents` (`agents.dfy`, models `agents.py`) holds:
  - hash-gated ingestion into a `RagTool` class, whose fields are the texts
    added and the set of retrieved urls;
  - `debug_run`, which wraps the tool's retrieval;
  - the ledger that is saved.
- `VectorDb` (`vectordb.dfy`, models `vectordb.py`) holds:
  - the right-biased dict merge;
  - the batch loop over a `VectorStore` class, which records each
    `add_documents` call;
  - the printed batch reports.
- `Graphs` (`graphs.dfy`, models `graphs.py`) holds:
  - graph 1 as a class, whose `retrievalLog` field its retrieve node appends
    to;
  - the joined context;
  - the refinement prompt;
  - graph 2 as a value.
- `App` (`app.dfy`, models `app.py`) holds request validation, the link-assembly loop and
  `api_handler`, both as a method and as the function `Handle` that
  specifies it.

External services are parameters of the model:

- the fuzzy scorer (`rapidfuzz.fuzz.partial_ratio`), as a real-valued
  function;
- SHA-256, as `contentHash`;
- the similarity search, as `search`;
- the `rlm/rag-prompt` template, as `prompt`;
- the chat model, as `llm`;
- the text splitter, as `split`.

A pickle file that may be missing is an `Option`.

## Model

| member | source | states |
|---|---|---|
| Common.Urls | vectordb.py:33 | `list(d.keys())`: one url per entry, entry i's url at position i |
| Common.Get | vectordb.py:40 | `d[url]` finds a text exactly when some entry has the url, and that text is the one stored with it |
| Common.GetAt | vectordb.py:40 | in a dict (unique keys), looking up the key of entry i gives entry i's text |
| Common.GetConcat | vectordb.py:31 | a lookup in two entry lists laid end to end finds the key in the first list if it is there, and otherwise in the second |
| Common.UrlsConcat | vectordb.py:33 | the key list of two entry lists laid end to end is the two key lists laid end to end |
| PyStr.Lower | scrape.py:27 | `str.lower()` on ASCII letters: each character on its own, upper-case ASCII letters to their lower-case forms and every other character unchanged |
| PyStr.LowerIdempotent | scrape.py:27 | lower-casing twice is the same as lower-casing once |
| PyStr.Strip | app.py:41 | `str.strip()`: the input with its leading whitespace and then its trailing whitespace cut off |
| PyStr.StripIsTrimmedSlice | scrape.py:27 | `strip()` returns a contiguous slice of its input that neither starts nor ends with whitespace, and everything cut off is whitespace |
| PyStr.StripEmptyIff | app.py:41-42 | a stripped string is empty exactly when every character of the input is whitespace |
| PyStr.StripIdempotent | scrape.py:27 | stripping twice is the same as stripping once |
| PyStr.RemovePrefix | agents.py:53 | `removeprefix`: the result, with the prefix put back in front, gives the input when the input starts with the prefix; otherwise the input comes back unchanged |
| PyStr.RemovePrefixAfterPrepend | agents.py:53 | removing a prefix undoes prepending it |
| PyStr.Join | graphs.py:56 | `sep.join(parts)`: the parts in order with one separator between each two neighbours, and the empty string for no parts |
| PyStr.JoinLength | graphs.py:56 | a join is exactly as long as the parts plus the separators between them |
| PyStr.JoinPart | graphs.py:56 | every part appears verbatim, in order, at its offset in the join |
| PyStr.JoinSeparator | graphs.py:56 | exactly one separator stands between two neighbouring parts |
| Scrape.Normalize | scrape.py:27-32 | the `lower().strip()` applied to the query and to each page text before they are compared |
| Scrape.PageScore | scrape.py:32-34 | the score of a page: the fuzzy ratio of the normalised query against the normalised page text |
| Scrape.Scan | scrape.py:28-37 | the running best over the entries in order: it starts at score 0 with no url, and a page replaces it only with a strictly greater score |
| Scrape.Lookup | scrape.py:23-44 | the value both lookups return: None when the file is missing; otherwise the url the scan holds if its best score reaches the threshold, else None |
| Scrape.QueryScrapedPages | scrape.py:18-72 | the lookup loop returns what `Lookup` returns: None for a missing file, and otherwise the running best url if the best score reaches the threshold |
| Scrape.ScanIsMax | scrape.py:28-37 | the scan ends on the maximum of 0 and all page scores, and it holds a url exactly when that maximum is positive |
| Scrape.ScanIsFirstArgmax | scrape.py:31-37 | the url the scan holds belongs to the first page of maximal score, because only a strictly greater score replaces the best |
| Scrape.LookupIsThresholdedArgmax | scrape.py:27-42 | the lookup returns u exactly when u is the url of the first page of maximal score, and that score is positive and reaches the threshold |
| Scrape.LookupFindsIff | scrape.py:23-44 | the lookup finds a url exactly when the file exists and some page scores above 0 and at least the threshold |
| Scrape.NormalizeIdempotent | scrape.py:27 | `lower().strip()` applied twice is the same as applied once |
| Scrape.LookupSeesNormalizedQuery | scrape.py:27 | the query matters only through its lower-cased, stripped form |
| Agents.Combined | agents.py:78 | the text `[URL] {url}\n\n{content}` that is handed to the tool for a page |
| Agents.CombinedDeterminesPage | agents.py:78 | for urls without line breaks, the `[URL] {url}\n\n{content}` text determines the page it was built from |
| Agents.LoadHashCache | agents.py:15-19 | the stored set of hashes, or the empty set when the file is missing |
| Agents.FreshPages | agents.py:73-79 | the pages of one loop, in order, whose content hash is not in the loaded ledger: the ones that get added |
| Agents.CombinedAll | agents.py:78-79 | the `[URL] {url}\n\n{content}` texts of a run of pages, in order |
| Agents.Hashes | agents.py:74 | the set of content hashes of a run of pages |
| Agents.NewHashes | agents.py:81 | the hashes `new_hashes` collects in one loop: those of the pages whose hash is not in the loaded ledger |
| Agents.SavedLedger | agents.py:101 | `existing_hashes.union(new_hashes)`: the loaded ledger united with the new hashes of the course loop and the discourse loop |
| Agents.FreshPagesIff | agents.py:73-79 | a page is added exactly when it is scraped and its hash is not in the loaded ledger |
| Agents.HashesIff | agents.py:74 | a digest is among the hashes of some pages exactly when some page's content has that digest |
| Agents.SavedLedgerIsUnionOfAllHashes | agents.py:68-101 | the saved ledger is the loaded ledger plus the hash of every page the run saw, added or skipped |
| Agents.NothingFreshWhenAllKnown | agents.py:75 | when every hash is already known, nothing is added |
| Agents.EverythingFreshWithoutLedger | agents.py:15-19 | with no hash file, every page is added, in order |
| Agents.SameContentAddedTwice | agents.py:74-81 | two distinct entries of one mapping with the same unknown content are both added, because only the loaded ledger is consulted |
| Agents.RerunAddsNothing | agents.py:67-101 | a second run over the same pages, with the saved ledger, adds nothing and saves the same ledger |
| Agents.OnlyFreshPage | agents.py:73-83 | when only one page has an unknown hash, that page alone is added |
| Agents.ChangedPageReingested | agents.py:73-101 | after a run, changing one course page to unseen content makes the next run add exactly that page, and the ledger gains exactly its hash while keeping the hash of the old content |
| Agents.RagTool.constructor | agents.py:45 | a new tool has added nothing and recorded no url |
| Agents.RagTool.Add | agents.py:79 | `add` appends the text to the tool's index |
| Agents.RagTool.DebugRun | agents.py:49-63 | returns the original result unchanged, adds nothing to the index, and records exactly `CapturedUrl`: the course lookup of the result without its header, or else the discourse lookup |
| Agents.CapturedUrl | agents.py:53-60 | the url the wrapper records: the course lookup of the result without "Relevant Content:\n" when it finds one, else the discourse lookup of the same text |
| Agents.CapturedUrlSource | agents.py:53-60 | the recorded url is the course lookup's answer whenever that lookup finds one, and the discourse lookup's answer only otherwise; it is always a url of the mapping it came from |
| Agents.IngestPages | agents.py:73-83 | the loop adds `[URL] url\n\ncontent` for exactly the fresh pages, in order, and collects their hashes |
| Agents.ReturnRagAgent | agents.py:67-101 | the tool holds the fresh course pages, then the fresh discourse pages, and the saved ledger is the loaded one plus the new hashes |
| VectorDb.Merge | vectordb.py:31 | the dict union of the course and discourse mappings: the course entries in their order, each with the discourse text when the discourse mapping has its url, then the discourse entries whose url is new, in their order |
| VectorDb.MergeIsRightBiasedUnion | vectordb.py:27-31 | the dict union of the course and discourse mappings has a url exactly when either mapping has it, with the discourse text when the discourse mapping has the url and the course text otherwise |
| VectorDb.MergeOnLeftKey | vectordb.py:31 | on a course url the merge holds the discourse text if there is one, and the course text otherwise |
| VectorDb.MergeOnRightOnlyKey | vectordb.py:31 | on a url only the discourse mapping has, the merge holds its text |
| VectorDb.MergeOnNeither | vectordb.py:31 | a url neither mapping has is not in the merge |
| VectorDb.MergeOrder | vectordb.py:31-33 | the merged keys are the course keys in their order, then the new discourse keys in theirs |
| VectorDb.AppendedMember | vectordb.py:31 | the entries the merge appends are exactly the discourse entries whose url the course mapping lacks |
| VectorDb.BatchAt | vectordb.py:37 | `urls[i:i+10]`: the ten entries from i on, or fewer at the end of the list |
| VectorDb.BatchesFrom | vectordb.py:36-37 | the batches `range(i, len(urls), 10)` cuts, in order, from position i on |
| VectorDb.SourceDocs | vectordb.py:39-42 | the documents of a batch: one per url in order, holding that url's text with `{"source": url}` as metadata |
| VectorDb.BatchesPartition | vectordb.py:36-37 | the batches `urls[i:i+10]` are non-empty, hold at most ten urls, number ceil(n/10), and laid end to end give back the url list |
| VectorDb.BatchDocsAreLookups | vectordb.py:37-42 | document j of a batch holds `visited_pages[url]` for url j of the batch, and its metadata is `{"source": url}` |
| VectorDb.CallsFrom | vectordb.py:36-48 | the `add_documents` calls the loop makes from position i on: the split of each batch's documents, skipping splits that are empty |
| VectorDb.ReportsFrom | vectordb.py:36-51 | the lines the loop prints from position i on: one per batch, with number `i // 10 + 1` and whether chunks were added |
| VectorDb.SplitsOf | vectordb.py:45-48 | the non-empty splits of a list of batches, one call per batch whose split is non-empty, in order |
| VectorDb.ReportsOf | vectordb.py:45-51 | one report per batch of a list, numbered consecutively from a given number |
| VectorDb.CallsFollowBatches | vectordb.py:36-48 | the add calls the loop makes are the non-empty splits of exactly the batches `BatchesFrom` cuts, one batch after the other |
| VectorDb.ReportsFollowBatches | vectordb.py:36-51 | the printed reports are one per batch `BatchesFrom` cuts, numbered from the batch that starts the run |
| VectorDb.UrlsOfBatch | vectordb.py:33-37 | the url batch `urls[i:i+10]` is the url list of the batch of entries that starts at i |
| VectorDb.CallsNonEmpty | vectordb.py:47-48 | the store is never handed an empty list of chunks |
| VectorDb.ReportsNumbered | vectordb.py:49-51 | there is one printed report per batch, and report k carries batch number k + 1 |
| VectorDb.VectorStore.AddDocuments | vectordb.py:48 | `add_documents` appends its argument to the store's calls |
| VectorDb.IndexBatch | vectordb.py:37-51 | one round of the loop hands over the batch's chunks when there are some, and reports the batch ahead of the later batches |
| VectorDb.IndexBatches | vectordb.py:36-51 | the loop hands the store the non-empty split of each batch `BatchesFrom` cuts, in batch order, and prints one report per batch numbered from 1 |
| VectorDb.VectordbInit | vectordb.py:20-51 | a missing pickle file stops it before anything is added; otherwise the store receives the non-empty splits of the batches of the merged mapping, in order, with one report per batch |
| Graphs.DocsContent | graphs.py:56 | `"\n\n".join` of the documents' page texts, in retrieval order |
| Graphs.DocsContentSmall | graphs.py:56 | the context of no documents is empty, and the context of one document is its text |
| Graphs.DocsContentLayout | graphs.py:56 | the context holds every document text verbatim, in retrieval order, with exactly "\n\n" between neighbours |
| Graphs.DocsContentLength | graphs.py:56 | the context is exactly as long as the texts plus the blank lines between them |
| Graphs.GraphOneAnswer | graphs.py:47-59 | the outcome of graph 1: the search error if the search raises, else what the model gives (its error or its reply) on the prompt over the question and the joined texts of the documents found |
| Graphs.GraphOne.constructor | graphs.py:40-45 | a new graph has an empty retrieval log |
| Graphs.GraphOne.Retrieve | graphs.py:47-53 | a successful search appends exactly one record (the question and the documents found) and returns those documents; a search that raises leaves the log unchanged |
| Graphs.GraphOne.Generate | graphs.py:55-59 | the answer is the model's reply to the prompt over the question and the joined context |
| Graphs.GraphOne.Invoke | graphs.py:47-67 | retrieve then generate: the result is `GraphOneAnswer`, and the log grows by the retrieval record whenever the search succeeds, even when the model then fails |
| Graphs.Framed | graphs.py:94-103 | the framed string holds each inserted value verbatim at its place between the fixed parts |
| Graphs.RefinePrompt | graphs.py:94-103 | the refinement prompt: the fixed opening, the answer, the fixed middle, the document text and the fixed instructions, exactly as the f-string lays them out |
| Graphs.FramedDeterminesParts | graphs.py:94-103 | two framings with the same frame and the same answer length agree only when they frame the same values |
| Graphs.RefinePromptLayout | graphs.py:92-103 | the refinement prompt holds the answer and the document text verbatim at their places and ends with the instructions; the prompt and the answer's length determine the answer and the document |
| Graphs.GraphTwo.RefineOneDoc | graphs.py:92-106 | graph 2 on one document: the model's reply to the refinement prompt over the answer and the document's page text; the question is not used |
| App.Field | app.py:41 | `data.get(field, '').strip()`: the stripped string, the empty string when the field is absent, and a raised error when the value is not a string |
| App.Validate | app.py:38-46 | the checks in the order the handler makes them: a body that is not an object gives a 500; then a question that is not a string gives a 500; then an empty stripped question gives the 400 with "Missing 'question' field."; only after that a link that is not a string gives a 500; otherwise the stripped question is accepted |
| App.LinkFor | app.py:63-72 | the link a refined document contributes: none without `source` metadata or with an empty text or url, else one `{url, text}` |
| App.Handle | app.py:36-83 | the response `api_handler` gives: the rejection of `Validate`, else a 500 when graph 1 raises, else a 500 when a refinement raises, else a 200 with graph 1's answer and the `LinksSpec` links of the first two retrieved documents |
| App.Refiner | app.py:57-61 | graph 2 invoked on one document with graph 1's answer |
| App.LinksSpec | app.py:54-75 | the links of a run of documents in order: the first refinement that raises makes the whole list fail with its error; otherwise each document gives the link `LinkFor` makes of it, or none |
| App.AssembleLinks | app.py:54-75 | the loop builds `LinksSpec` over the refinements of the documents: it stops with the error of the first refinement that raises |
| App.ApiHandler | app.py:36-83 | the response is `Handle(body, ...)`; a request rejected before graph 1 runs leaves the log unchanged, and otherwise the log gains the question's retrieval record |
| App.LinksFailureSticks | app.py:56-61 | once a refinement raises, the whole link list fails with that error |
| App.LinksFailIff | app.py:56-61 | the link list fails exactly when some refinement raises, and then with the error of the first one that does |
| App.LinksAtMostDocs | app.py:56-72 | each refined document contributes at most one link |
| App.LinksInRetrievalOrder | app.py:56-75 | when no refinement raises, the links are those of the documents with a source and a non-empty text and url, one each, in retrieval order, and no others |
| App.LinksConcat | app.py:56-75 | the links of two runs of documents are the links of the first followed by those of the second, unless a refinement raises |
| App.MissingSourceDropsOnlyThatDoc | app.py:63-75 | a document without `source` metadata is dropped, and every other document keeps its link |
| App.RejectsBlankQuestion | app.py:41-43 | the 400 response comes exactly for a readable body whose question is absent or all whitespace; it carries "Missing 'question' field." and graph 1 does not run |
| App.AnsweredCarriesInitialAnswer | app.py:50-80 | a 200 response carries graph 1's answer unchanged and at most two links, built from the first two documents of that question's retrieval |
| App.RefineFailureAborts | app.py:56-83 | a refinement that raises on one of the first two documents is not caught by the per-document guard: the whole request becomes a 500 carrying the error of the first refinement that raises |
| App.FirstRefineFailure | app.py:56-61 | when a refinement among the first two documents raises, the link list fails with the error of the first one that does |

## Behaviour of the code worth knowing

- **A refinement that raises gives a 500.** The call to graph 2
  (app.py:57-61) is outside the per-document `try` (app.py:63-75). An
  exception there reaches the outer handler (app.py:82-83), and the whole
  request answers 500 (`App.RefineFailureAborts`). The per-document `try`
  only catches a document without `source` metadata, which is then dropped
  (`App.MissingSourceDropsOnlyThatDoc`).
- **Links are not deduplicated.** A link is appended per refined document
  (app.py:68-72), so two documents with the same `source` give two links.
- **Graph 1 has its own log.** The refinement loop reads the log of the
  `graph_1` instance (graphs.py:43, app.py:56). The module-level
  `retrieval_log` (graphs.py:19) is never written.

## Left out

- Scraping itself: Selenium, login, BeautifulSoup and link crawling. The
  scraped mappings enter the model as values loaded from the pickle files.
- `save_hash_cache` and the pickle file format: file contents are
  `Option` values (None for a missing file), and the saved ledger is
  returned instead of written.
- The fuzzy scorer is a parameter. The model does not restrict it to the
  range 0-100 that rapidfuzz uses.
- `content_hash`: SHA-256 over UTF-8 (agents.py:12-13) is the parameter
  `contentHash`. No property of SHA-256 is assumed, in particular not
  collision resistance.
- PyStr.Lower: it lower-cases ASCII letters only, because Unicode case
  mapping is not modelled.
- PyStr.Strip: it recognises the whitespace of the Latin-1 range only.
- Agents.ReturnRagAgent: `rag_tool.add` (agents.py:79, 94) is taken never
  to raise. In the source a raise there leaves `return_rag_agent` before
  `save_hash_cache` (agents.py:101), so the pages already added in that run
  are not recorded in the ledger and are added again on the next run. The
  model does not capture that lost ledger update.
- VectorDb.IndexBatches: `add_documents` (vectordb.py:48) is taken never
  to raise. In the source a raise there ends the batch loop with the
  earlier batches already stored and no report for the rest; the model
  does not capture that partial indexing.
- Agents.RagTool.DebugRun: the tool's own retrieval (`original_run`,
  agents.py:50) is taken never to raise. In the source a raise there
  propagates before any url is recorded; the model does not capture that
  path.
- The LLM, the `rlm/rag-prompt` template, embeddings, FAISS, the
  similarity search (and its default k) and `RecursiveCharacterTextSplitter`
  are parameters. Their outputs are arbitrary.
- The crewai agent and task definitions (agents.py:103-148) are
  configuration text with no behaviour of their own. So is the langgraph
  graph construction (graphs.py:61-67, 108-112), beyond the
  retrieve-then-generate order that `Invoke` keeps.
- The `FAISS` object built at the end of `vectordb_init` (vectordb.py:53-58)
  only rebinds a local name and has no effect.
- The progress messages printed by the ingestion loops are not modelled.
  The printed batch lines are modelled as the returned `BatchReport` list.
- The Flask app, CORS, the JSON encoding of responses and the health-check
  route are not modelled.
- The exception messages: a raised exception is `Raised(message)` and its
  text is not modelled. A body that is not a JSON object, and a `question`
  or `link` field that is not a string, are separate `ServerFault` cases.
- The `question` in graph 2's state is never read by its prompt, so it is
  not part of `GraphTwo.RefineOneDoc`.
- Concurrent requests are not modelled. With a threaded server, two
  requests can interleave between graph 1's append to the log and the read
  of its last record. The model handles one request at a time, so the last
  record is always the request's own.
- `VectorDb.IndexBatches` builds each batch's documents from the merged
  entries directly, not by looking up each url. `BatchDocsAreLookups`
  proves that the two agree.
