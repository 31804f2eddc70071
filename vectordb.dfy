/** Start-up indexing: merge the course and discourse mappings, cut the url
    list into batches of ten, turn each batch into documents tagged with
    their source and hand the non-empty splits to the vector store. The text
    splitter is the parameter `split`; the vector store records the argument
    of every `add_documents` call. */
module VectorDb {
  import opened Common

  const BatchSize: nat := 10

  /** `left | right` on two dicts: the keys of `left` in their order, each
      with the value from `right` when `right` has it, then the keys only
      `right` has, in `right`'s order. */
  function Merge(left: Corpus, right: Corpus): Corpus
  {
    OverriddenUniqueUrls(left, right);
    AppendedUnique(left, right);
    AppendedUrls(left, right);
    Overridden(left, right) + Appended(left, right)
  }

  /** The entries of `left`, with the values of `right` on shared keys. */
  function Overridden(left: seq<Page>, right: seq<Page>): seq<Page>
  {
    if left == [] then []
    else
      var p := left[0];
      [match Get(right, p.url) case Some(t) => Page(p.url, t) case None => p] + Overridden(left[1..], right)
  }

  /** The entries of `right` whose key `left` does not have. */
  function Appended(left: seq<Page>, right: seq<Page>): seq<Page>
  {
    if right == [] then []
    else (if HasUrl(left, right[0].url) then [] else [right[0]]) + Appended(left, right[1..])
  }

  lemma {:induction false} OverriddenAt(left: seq<Page>, right: seq<Page>)
    ensures |Overridden(left, right)| == |left|
    ensures Urls(Overridden(left, right)) == Urls(left)
    ensures forall i :: 0 <= i < |left| ==> Overridden(left, right)[i].url == left[i].url
    ensures forall i :: 0 <= i < |left| ==>
      (Overridden(left, right)[i].text == match Get(right, left[i].url) case Some(t) => t case None => left[i].text)
  {
    if left != [] {
      OverriddenAt(left[1..], right);
      assert forall i :: 0 < i < |left| ==> left[1..][i - 1] == left[i];
    }
  }

  lemma OverriddenUniqueUrls(left: Corpus, right: seq<Page>)
    ensures UniqueUrls(Overridden(left, right))
    ensures forall u :: HasUrl(Overridden(left, right), u) <==> HasUrl(left, u)
  {
    OverriddenAt(left, right);
    var o := Overridden(left, right);
    forall u ensures HasUrl(o, u) <==> HasUrl(left, u) {
      if HasUrl(o, u) {
        var i :| 0 <= i < |o| && o[i].url == u;
        assert left[i].url == u;
      }
      if HasUrl(left, u) {
        var i :| 0 <= i < |left| && left[i].url == u;
        assert o[i].url == u;
      }
    }
  }

  lemma {:induction false} AppendedMember(left: seq<Page>, right: seq<Page>, q: Page)
    ensures q in Appended(left, right) <==> q in right && !HasUrl(left, q.url)
  {
    if right != [] {
      AppendedMember(left, right[1..], q);
      assert right == [right[0]] + right[1..];
    }
  }

  lemma {:induction false} AppendedUnique(left: seq<Page>, right: Corpus)
    ensures UniqueUrls(Appended(left, right))
  {
    if right != [] {
      var rest := Appended(left, right[1..]);
      AppendedUnique(left, right[1..]);
      forall i | 0 <= i < |rest| ensures rest[i].url != right[0].url {
        AppendedMember(left, right[1..], rest[i]);
        var j :| 0 <= j < |right[1..]| && right[1..][j] == rest[i];
        assert right[j + 1] == rest[i];
      }
    }
  }

  lemma AppendedUrls(left: seq<Page>, right: seq<Page>)
    ensures forall i :: 0 <= i < |Appended(left, right)| ==> !HasUrl(left, Appended(left, right)[i].url)
  {
    forall i | 0 <= i < |Appended(left, right)| ensures !HasUrl(left, Appended(left, right)[i].url) {
      AppendedMember(left, right, Appended(left, right)[i]);
    }
  }

  /** On a course url the merge holds the discourse text if there is one,
      the course text otherwise. */
  lemma MergeOnLeftKey(left: Corpus, right: Corpus, u: Url)
    requires HasUrl(left, u)
    ensures Get(Merge(left, right), u) == if HasUrl(right, u) then Get(right, u) else Get(left, u)
  {
    var o := Overridden(left, right);
    OverriddenAt(left, right);
    OverriddenUniqueUrls(left, right);
    GetConcat(o, Appended(left, right), u);
    var i :| 0 <= i < |left| && left[i].url == u;
    GetAt(o, i);
    GetAt(left, i);
  }

  /** On a url only the discourse mapping has, the merge holds its text. */
  lemma MergeOnRightOnlyKey(left: Corpus, right: Corpus, u: Url)
    requires !HasUrl(left, u) && HasUrl(right, u)
    ensures Get(Merge(left, right), u) == Get(right, u)
  {
    var o := Overridden(left, right);
    var a := Appended(left, right);
    OverriddenUniqueUrls(left, right);
    AppendedUnique(left, right);
    GetConcat(o, a, u);
    var j :| 0 <= j < |right| && right[j].url == u;
    AppendedMember(left, right, right[j]);
    var k :| 0 <= k < |a| && a[k] == right[j];
    GetAt(a, k);
    GetAt(right, j);
  }

  /** A url neither mapping has is not in the merge. */
  lemma MergeOnNeither(left: Corpus, right: Corpus, u: Url)
    requires !HasUrl(left, u) && !HasUrl(right, u)
    ensures Get(Merge(left, right), u).None?
  {
    var o := Overridden(left, right);
    var a := Appended(left, right);
    OverriddenUniqueUrls(left, right);
    GetConcat(o, a, u);
    if HasUrl(a, u) {
      var k :| 0 <= k < |a| && a[k].url == u;
      AppendedMember(left, right, a[k]);
    }
  }

  /** The merge is the right-biased union of the two mappings: a url is in
      it exactly when it is in either, and its text is the discourse text
      when the discourse mapping has the url, the course text otherwise. */
  lemma MergeIsRightBiasedUnion(left: Corpus, right: Corpus, u: Url)
    ensures HasUrl(Merge(left, right), u) <==> HasUrl(left, u) || HasUrl(right, u)
    ensures Get(Merge(left, right), u) == if HasUrl(right, u) then Get(right, u) else Get(left, u)
  {
    if HasUrl(left, u) {
      MergeOnLeftKey(left, right, u);
    } else if HasUrl(right, u) {
      MergeOnRightOnlyKey(left, right, u);
    } else {
      MergeOnNeither(left, right, u);
    }
  }

  /** The urls of the merge: the course urls in their order, then the new
      discourse urls in theirs. */
  lemma MergeOrder(left: Corpus, right: Corpus)
    ensures Urls(Merge(left, right)) == Urls(left) + Urls(Appended(left, right))
  {
    OverriddenAt(left, right);
    UrlsConcat(Overridden(left, right), Appended(left, right));
  }

  /** The batch that starts at position `i`: `xs[i:i+BATCH_SIZE]`. */
  function BatchAt<T>(xs: seq<T>, i: nat): seq<T>
    requires i < |xs|
  {
    xs[i..Min(i + BatchSize, |xs|)]
  }

  /** The batches that start at `i`, `i + 10`, ... below `|xs|`. */
  function BatchesFrom<T>(xs: seq<T>, i: nat): seq<seq<T>>
    decreases |xs| - i
  {
    if i >= |xs| then [] else [BatchAt(xs, i)] + BatchesFrom(xs, i + BatchSize)
  }

  function Concat<T>(xs: seq<seq<T>>): seq<T>
  {
    if xs == [] then [] else xs[0] + Concat(xs[1..])
  }

  /** The batches are non-empty, hold at most ten urls each, number
      ceil(n / 10) for n urls, and laid end to end give back the url list:
      every url is in exactly one batch, in order. */
  lemma {:induction false} BatchesPartition<T>(xs: seq<T>, i: nat)
    requires i <= |xs|
    ensures Concat(BatchesFrom(xs, i)) == xs[i..]
    ensures |BatchesFrom(xs, i)| == (|xs| - i + BatchSize - 1) / BatchSize
    ensures forall k :: 0 <= k < |BatchesFrom(xs, i)| ==>
      0 < |BatchesFrom(xs, i)[k]| <= BatchSize
    decreases |xs| - i
  {
    if i < |xs| {
      var j := Min(i + BatchSize, |xs|);
      BatchesPartition(xs, j);
      assert BatchesFrom(xs, i + BatchSize) == BatchesFrom(xs, j);
      var bs := BatchesFrom(xs, i);
      assert bs[1..] == BatchesFrom(xs, j);
      assert xs[i..] == xs[i..j] + xs[j..];
    }
  }

  /** `Document(page_content=visited_pages[url], metadata={"source": url})`
      for the urls of a run of entries of the merged mapping: each entry
      becomes its text tagged with its url as `source`. */
  function SourceDocs(entries: seq<Page>): (docs: seq<Document>)
    ensures |docs| == |entries|
  {
    seq(|entries|, j requires 0 <= j < |entries| => Document(entries[j].text, map["source" := entries[j].url]))
  }

  /** Element `j` of the batch at `i` is element `i + j` of the whole. */
  lemma BatchAtIndex<T>(xs: seq<T>, i: nat, j: nat)
    requires i < |xs|
    requires j < |BatchAt(xs, i)|
    ensures i + j < |xs| && BatchAt(xs, i)[j] == xs[i + j]
  {
  }

  /** The documents of a batch of the merged mapping are the lookups of the
      batch's urls: the j-th document holds the text stored under the j-th
      url of the batch and names that url as its source. */
  lemma BatchDocsAreLookups(merged: Corpus, i: nat, j: nat)
    requires i < |merged|
    requires j < |BatchAt(merged, i)|
    ensures BatchAt(Urls(merged), i)[j] == BatchAt(merged, i)[j].url
    ensures Get(merged, BatchAt(Urls(merged), i)[j]) == Some(SourceDocs(BatchAt(merged, i))[j].pageContent)
    ensures SourceDocs(BatchAt(merged, i))[j].metadata == map["source" := BatchAt(Urls(merged), i)[j]]
  {
    var page := merged[i + j];
    var url := BatchAt(Urls(merged), i)[j];
    var doc := SourceDocs(BatchAt(merged, i))[j];
    assert url == page.url && BatchAt(merged, i)[j] == page by {
      BatchAtIndex(merged, i, j);
      BatchAtIndex(Urls(merged), i, j);
    }
    assert doc == Document(page.text, map["source" := page.url]);
    assert Get(merged, url) == Some(page.text) by {
      GetAt(merged, i + j);
    }
  }

  /** The arguments of the `add_documents` calls for the batches from `i`
      on: one call per batch whose split is non-empty. */
  function CallsFrom(merged: seq<Page>, i: nat, split: seq<Document> -> seq<Document>): seq<seq<Document>>
    decreases |merged| - i
  {
    if i >= |merged| then []
    else
      var allSplits := split(SourceDocs(BatchAt(merged, i)));
      (if allSplits != [] then [allSplits] else []) + CallsFrom(merged, i + BatchSize, split)
  }

  /** What is printed for a batch: its 1-based number, and the number of
      chunks added or that it was empty. */
  datatype BatchReport = Added(batch: nat, chunks: nat) | Empty(batch: nat)

  function ReportsFrom(merged: seq<Page>, i: nat, split: seq<Document> -> seq<Document>): seq<BatchReport>
    decreases |merged| - i
  {
    if i >= |merged| then []
    else
      var allSplits := split(SourceDocs(BatchAt(merged, i)));
      [if allSplits != [] then Added(i / BatchSize + 1, |allSplits|) else Empty(i / BatchSize + 1)]
        + ReportsFrom(merged, i + BatchSize, split)
  }

  /** The chunk lists a list of batches hands to the store: the split of
      each batch's documents, in batch order, skipping empty splits. */
  function SplitsOf(batches: seq<seq<Page>>, split: seq<Document> -> seq<Document>): seq<seq<Document>>
  {
    if batches == [] then []
    else
      var allSplits := split(SourceDocs(batches[0]));
      (if allSplits != [] then [allSplits] else []) + SplitsOf(batches[1..], split)
  }

  /** The reports of a list of batches numbered from `first` on. */
  function ReportsOf(batches: seq<seq<Page>>, first: nat, split: seq<Document> -> seq<Document>): seq<BatchReport>
  {
    if batches == [] then []
    else
      var allSplits := split(SourceDocs(batches[0]));
      [if allSplits != [] then Added(first, |allSplits|) else Empty(first)]
        + ReportsOf(batches[1..], first + 1, split)
  }

  /** The loop's calls are those of the batches `BatchesFrom` cuts, one
      batch after the other. */
  lemma {:induction false} CallsFollowBatches(merged: seq<Page>, i: nat, split: seq<Document> -> seq<Document>)
    ensures CallsFrom(merged, i, split) == SplitsOf(BatchesFrom(merged, i), split)
    decreases |merged| - i
  {
    if i < |merged| {
      CallsFollowBatches(merged, i + BatchSize, split);
      var bs := BatchesFrom(merged, i);
      assert bs[0] == BatchAt(merged, i);
      assert bs[1..] == BatchesFrom(merged, i + BatchSize);
    }
  }

  /** The loop's reports are those of the batches `BatchesFrom` cuts,
      numbered from the batch that starts at `i`. */
  lemma {:induction false} ReportsFollowBatches(merged: seq<Page>, i: nat, split: seq<Document> -> seq<Document>)
    ensures ReportsFrom(merged, i, split) == ReportsOf(BatchesFrom(merged, i), i / BatchSize + 1, split)
    decreases |merged| - i
  {
    if i < |merged| {
      ReportsFollowBatches(merged, i + BatchSize, split);
      var bs := BatchesFrom(merged, i);
      assert bs[0] == BatchAt(merged, i);
      assert bs[1..] == BatchesFrom(merged, i + BatchSize);
      assert (i + BatchSize) / BatchSize == i / BatchSize + 1;
    }
  }

  /** The batch of urls `urls[i:i+10]` is the url list of the batch of
      entries that starts at `i`. */
  lemma UrlsOfBatch(merged: seq<Page>, i: nat)
    requires i < |merged|
    ensures BatchAt(Urls(merged), i) == Urls(BatchAt(merged, i))
  {
    var us, b := BatchAt(Urls(merged), i), BatchAt(merged, i);
    assert |us| == |Urls(b)|;
    forall j | 0 <= j < |us| ensures us[j] == Urls(b)[j] {
      BatchAtIndex(Urls(merged), i, j);
      BatchAtIndex(merged, i, j);
    }
  }

  /** The store is never handed an empty list of chunks. */
  lemma {:induction false} CallsNonEmpty(merged: seq<Page>, i: nat, split: seq<Document> -> seq<Document>)
    ensures forall k :: 0 <= k < |CallsFrom(merged, i, split)| ==> CallsFrom(merged, i, split)[k] != []
    decreases |merged| - i
  {
    if i < |merged| {
      CallsNonEmpty(merged, i + BatchSize, split);
    }
  }

  /** There is one report per batch, and the k-th report carries the batch
      number k + 1. */
  lemma {:induction false} ReportsNumbered(merged: seq<Page>, i: nat, split: seq<Document> -> seq<Document>)
    requires i % BatchSize == 0
    ensures |ReportsFrom(merged, i, split)| == |BatchesFrom(merged, i)|
    ensures forall k :: 0 <= k < |ReportsFrom(merged, i, split)| ==>
      ReportsFrom(merged, i, split)[k].batch == i / BatchSize + k + 1
    decreases |merged| - i
  {
    if i < |merged| {
      ReportsNumbered(merged, i + BatchSize, split);
      var rs := ReportsFrom(merged, i, split);
      assert (i + BatchSize) / BatchSize == i / BatchSize + 1;
      assert forall k :: 1 <= k < |rs| ==> rs[k] == ReportsFrom(merged, i + BatchSize, split)[k - 1];
    }
  }

  /** The vector store: the argument of every `add_documents` call, in order. */
  class VectorStore {
    var calls: seq<seq<Document>>

    constructor ()
      ensures calls == []
    {
      calls := [];
    }

    method AddDocuments(docs: seq<Document>)
      modifies this
      ensures calls == old(calls) + [docs]
    {
      calls := calls + [docs];
    }
  }

  /** One round of the batch loop: split the documents of the batch at `i`,
      hand the chunks to the store unless there are none, and report. The
      batch's call and report come ahead of those of the later batches. */
  method IndexBatch(store: VectorStore, visitedPages: seq<Page>, i: nat, split: seq<Document> -> seq<Document>)
    returns (report: BatchReport)
    requires i < |visitedPages|
    modifies store
    ensures store.calls + CallsFrom(visitedPages, i + BatchSize, split)
      == old(store.calls) + CallsFrom(visitedPages, i, split)
    ensures [report] + ReportsFrom(visitedPages, i + BatchSize, split) == ReportsFrom(visitedPages, i, split)
  {
    var docs := SourceDocs(BatchAt(visitedPages, i));
    var allSplits := split(docs);
    ghost var later := CallsFrom(visitedPages, i + BatchSize, split);
    if allSplits != [] {
      assert CallsFrom(visitedPages, i, split) == [allSplits] + later;
      store.AddDocuments(allSplits);
      report := Added(i / BatchSize + 1, |allSplits|);
    } else {
      assert CallsFrom(visitedPages, i, split) == later;
      report := Empty(i / BatchSize + 1);
    }
  }

  /** The batch loop of `vectordb_init` over the merged mapping. */
  method IndexBatches(store: VectorStore, visitedPages: seq<Page>, split: seq<Document> -> seq<Document>)
    returns (printed: seq<BatchReport>)
    modifies store
    ensures store.calls == old(store.calls) + CallsFrom(visitedPages, 0, split)
    ensures printed == ReportsFrom(visitedPages, 0, split)
    ensures store.calls == old(store.calls) + SplitsOf(BatchesFrom(visitedPages, 0), split)
    ensures printed == ReportsOf(BatchesFrom(visitedPages, 0), 1, split)
  {
    printed := [];
    var i: nat := 0;
    while i < |visitedPages|
      invariant store.calls + CallsFrom(visitedPages, i, split)
        == old(store.calls) + CallsFrom(visitedPages, 0, split)
      invariant printed + ReportsFrom(visitedPages, i, split) == ReportsFrom(visitedPages, 0, split)
      decreases |visitedPages| - i
    {
      var report := IndexBatch(store, visitedPages, i, split);
      assert (printed + [report]) + ReportsFrom(visitedPages, i + BatchSize, split)
        == printed + ([report] + ReportsFrom(visitedPages, i + BatchSize, split));
      printed := printed + [report];
      i := i + BatchSize;
    }
    assert CallsFrom(visitedPages, i, split) == [] && ReportsFrom(visitedPages, i, split) == [];
    assert store.calls + [] == store.calls && printed + [] == printed;
    CallsFollowBatches(visitedPages, 0, split);
    ReportsFollowBatches(visitedPages, 0, split);
  }

  /** `vectordb_init`: None when a pickle file is missing (the open raises
      before anything is added); otherwise the printed report of every
      batch. */
  method VectordbInit(store: VectorStore, courseFile: Option<Corpus>, discourseFile: Option<Corpus>,
                      split: seq<Document> -> seq<Document>)
    returns (reports: Option<seq<BatchReport>>)
    modifies store
    ensures courseFile.None? || discourseFile.None? ==> reports.None? && store.calls == old(store.calls)
    ensures courseFile.Some? && discourseFile.Some? ==>
      var merged := Merge(courseFile.value, discourseFile.value);
      && store.calls == old(store.calls) + CallsFrom(merged, 0, split)
      && reports == Some(ReportsFrom(merged, 0, split))
      && store.calls == old(store.calls) + SplitsOf(BatchesFrom(merged, 0), split)
      && reports == Some(ReportsOf(BatchesFrom(merged, 0), 1, split))
  {
    if courseFile.None? || discourseFile.None? {
      return None;
    }
    var visitedPages := Merge(courseFile.value, discourseFile.value);
    var printed := IndexBatches(store, visitedPages, split);
    reports := Some(printed);
  }
}
