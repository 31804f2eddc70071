/** The two answer graphs. Graph 1 retrieves documents for a question,
    records the retrieval in its own log and asks the model for an answer
    over the joined document texts. Graph 2 asks the model to support an
    answer from one document. The vector search, the prompt template and the
    chat model are parameters; a call that raises is a `Failure`. */
module Graphs {
  import opened Common
  import opened PyStr

  /** One entry of `retrieval_log`: the question and the documents found. */
  datatype RetrievalRecord = RetrievalRecord(question: string, retrieved: seq<Document>)

  /** The separator `_generate` puts between document texts. */
  const BlankLine: string := "\n\n"

  /** `doc.page_content` of every document, in order. */
  function PageContents(docs: seq<Document>): (cs: seq<string>)
    ensures |cs| == |docs|
    ensures forall i :: 0 <= i < |docs| ==> cs[i] == docs[i].pageContent
  {
    seq(|docs|, i requires 0 <= i < |docs| => docs[i].pageContent)
  }

  /** `"\n\n".join(doc.page_content for doc in docs)`: the context handed to
      the prompt. */
  function DocsContent(docs: seq<Document>): string
  {
    Join(BlankLine, PageContents(docs))
  }

  /** The context of no documents is empty, and that of one document is its
      text. */
  lemma DocsContentSmall(docs: seq<Document>)
    ensures |docs| == 0 ==> DocsContent(docs) == ""
    ensures |docs| == 1 ==> DocsContent(docs) == docs[0].pageContent
  {
  }

  /** The context holds the text of every document verbatim, in retrieval
      order, each one followed by a blank line except the last: document `k`
      starts at `Offset(BlankLine, texts, k)`, and exactly "\n\n" stands
      between document `k` and document `k + 1`. */
  lemma DocsContentLayout(docs: seq<Document>, k: nat)
    requires k < |docs|
    ensures var texts := PageContents(docs);
      var o := Offset(BlankLine, texts, k);
      && o + |docs[k].pageContent| <= |DocsContent(docs)|
      && DocsContent(docs)[o..o + |docs[k].pageContent|] == docs[k].pageContent
      && (k + 1 < |docs| ==>
            && Offset(BlankLine, texts, k + 1) == o + |docs[k].pageContent| + 2
            && Offset(BlankLine, texts, k + 1) <= |DocsContent(docs)|
            && DocsContent(docs)[o + |docs[k].pageContent|..Offset(BlankLine, texts, k + 1)] == BlankLine)
  {
    var texts := PageContents(docs);
    JoinPart(BlankLine, texts, k);
    if k + 1 < |docs| {
      JoinSeparator(BlankLine, texts, k);
    }
  }

  /** The context is exactly as long as the document texts and the blank
      lines between them. */
  lemma DocsContentLength(docs: seq<Document>)
    requires |docs| > 0
    ensures |DocsContent(docs)| == Offset(BlankLine, PageContents(docs), |docs| - 1) + |docs[|docs| - 1].pageContent|
  {
    JoinLength(BlankLine, PageContents(docs));
  }

  /** The answer graph 1 produces for a question: retrieve, then generate
      from the question and the joined context. */
  function GraphOneAnswer(search: string -> Result<seq<Document>>, prompt: (string, string) -> string,
                          llm: string -> Result<string>, question: string): Result<string>
  {
    match search(question)
    case Failure(e) => Failure(e)
    case Success(docs) => llm(prompt(question, DocsContent(docs)))
  }

  /** `graph_1`: a retrieve node followed by a generate node, and the
      instance's own retrieval log. */
  class GraphOne {
    const search: string -> Result<seq<Document>>
    const prompt: (string, string) -> string
    const llm: string -> Result<string>
    var retrievalLog: seq<RetrievalRecord>

    /** A fresh graph has an empty log. */
    constructor (search: string -> Result<seq<Document>>, prompt: (string, string) -> string,
                 llm: string -> Result<string>)
      ensures this.search == search && this.prompt == prompt && this.llm == llm
      ensures retrievalLog == []
    {
      this.search := search;
      this.prompt := prompt;
      this.llm := llm;
      retrievalLog := [];
    }

    /** `_retrieve`: on a successful search, appends exactly one record,
        holding the question and the documents found, and returns those
        documents as the context; a search that raises leaves the log as it
        was. */
    method Retrieve(question: string) returns (context: Result<seq<Document>>)
      modifies this
      ensures context == search(question)
      ensures context.Success? ==>
        retrievalLog == old(retrievalLog) + [RetrievalRecord(question, context.value)]
      ensures context.Failure? ==> retrievalLog == old(retrievalLog)
    {
      context := search(question);
      if context.Success? {
        retrievalLog := retrievalLog + [RetrievalRecord(question, context.value)];
      }
    }

    /** `_generate`: the model's answer to the prompt over the question and
        the joined context. */
    method Generate(question: string, context: seq<Document>) returns (answer: Result<string>)
      ensures answer == llm(prompt(question, DocsContent(context)))
    {
      var docsContent := Join(BlankLine, PageContents(context));
      var messages := prompt(question, docsContent);
      answer := llm(messages);
    }

    /** `graph.invoke({"question": question})["answer"]`. The log grows by
        the retrieval's record whenever the search succeeds, even when the
        model then fails. */
    method Invoke(question: string) returns (answer: Result<string>)
      modifies this
      ensures answer == GraphOneAnswer(search, prompt, llm, question)
      ensures search(question).Success? ==>
        retrievalLog == old(retrievalLog) + [RetrievalRecord(question, search(question).value)]
      ensures search(question).Failure? ==> retrievalLog == old(retrievalLog)
    {
      var context := Retrieve(question);
      if context.Failure? {
        return Failure(context.error);
      }
      answer := Generate(question, context.value);
    }
  }

  /** The opening of the refinement prompt, up to the answer. */
  const RefineHead: string := "\n        Given the original answer:\n        \"\"\""

  /** The text between the answer and the document. */
  const RefineMiddle: string := "\"\"\"\n\n        And the following document:\n        \"\"\""

  /** The text after the document: the instructions to the model. */
  const RefineTail: string :=
    "\"\"\"\n\n        Please support the answer by only explaining from content in the provided document.\n"
    + "        Your output must be readable text, do not output brackets, escape sequences, html, or markdown.\n        "

  /** `head + x + middle + y + tail`: holds `x` verbatim right after `head`
      and `y` verbatim right after `middle`, and ends with `tail`. */
  function Framed(head: string, x: string, middle: string, y: string, tail: string): (p: string)
    ensures |p| == |head| + |x| + |middle| + |y| + |tail|
    ensures p[..|head|] == head
    ensures p[|head|..|head| + |x|] == x
    ensures p[|head| + |x|..|head| + |x| + |middle|] == middle
    ensures p[|head| + |x| + |middle|..|p| - |tail|] == y
    ensures p[|p| - |tail|..] == tail
  {
    var p := head + x + middle + y + tail;
    assert p == head + (x + (middle + (y + tail)));
    p
  }

  /** Two framings with the same frame and the same length of `x` agree only
      when they frame the same `x` and `y`. */
  lemma FramedDeterminesParts(head: string, middle: string, tail: string,
                              x: string, y: string, x': string, y': string)
    requires |x| == |x'|
    requires Framed(head, x, middle, y, tail) == Framed(head, x', middle, y', tail)
    ensures x == x' && y == y'
  {
    var p := Framed(head, x, middle, y, tail);
    assert x == p[|head|..|head| + |x|] == x';
    assert y == p[|head| + |x| + |middle|..|p| - |tail|] == y';
  }

  /** The prompt of `_refine_one_doc`: the answer and the document text
      framed by the fixed wording. */
  function RefinePrompt(answer: string, docContent: string): string
  {
    Framed(RefineHead, answer, RefineMiddle, docContent, RefineTail)
  }

  /** The refinement prompt holds the answer verbatim right after the
      opening and the document text verbatim right after the middle part,
      and it ends with the instructions; the prompt determines the answer
      and the document once the length of the answer is known. */
  lemma RefinePromptLayout(answer: string, docContent: string)
    ensures var p := RefinePrompt(answer, docContent);
      var h, m, t := |RefineHead|, |RefineMiddle|, |RefineTail|;
      && |p| == h + |answer| + m + |docContent| + t
      && p[h..h + |answer|] == answer
      && p[h + |answer| + m..|p| - t] == docContent
      && p[|p| - t..] == RefineTail
    ensures forall a', d' :: (|a'| == |answer| && RefinePrompt(a', d') == RefinePrompt(answer, docContent)
      ==> a' == answer && d' == docContent)
  {
    forall a', d' | |a'| == |answer| && RefinePrompt(a', d') == RefinePrompt(answer, docContent)
      ensures a' == answer && d' == docContent
    {
      FramedDeterminesParts(RefineHead, RefineMiddle, RefineTail, answer, docContent, a', d');
    }
  }

  /** `graph_2`: one node that asks the model to support an answer from one
      document. The question in its state is not used by the prompt. */
  datatype GraphTwo = GraphTwo(llm: string -> Result<string>)
  {
    /** `_refine_one_doc` followed by `["refined_answer"]`. */
    function RefineOneDoc(answer: string, doc: Document): Result<string>
    {
      llm(RefinePrompt(answer, doc.pageContent))
    }
  }
}
