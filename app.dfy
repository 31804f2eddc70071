/** The `/api/` request handler: validate the question, run graph 1 for an
    answer, then refine that answer against the first two documents of the
    latest retrieval and keep a link for each refinement that has both a
    text and a source url. A raised exception outside the per-document
    guard becomes a 500 response. */
module App {
  import opened Common
  import opened PyStr
  import opened Graphs

  /** A member of the request's JSON object: a string, or any other value. */
  datatype JsonValue = JStr(s: string) | JOther

  /** One entry of `links` in the response. */
  datatype Link = Link(url: string, text: string)

  /** Why a request ended in a 500: the body is not a JSON object, a field
      is not a string (so `.strip()` raises), or a graph raised `message`. */
  datatype ServerFault = BodyNotObject | NotAString(field: string) | Raised(message: string)

  datatype Response =
    | Answered(answer: string, links: seq<Link>)  // 200
    | BadRequest(error: string)                   // 400
    | ServerError(fault: ServerFault)             // 500

  const MissingQuestion: string := "Missing 'question' field."

  /** How many retrieved documents are refined. */
  const MaxRefined: nat := 2

  /** `data.get(field, '').strip()`: the stripped string, the empty string
      when the field is absent, None when the value is not a string. */
  function Field(data: map<string, JsonValue>, field: string): Option<string>
  {
    if field !in data then Some("")
    else match data[field]
      case JStr(s) => Some(Strip(s))
      case JOther => None
  }

  /** The outcome of the checks made before any graph runs. */
  datatype Validation = Valid(question: string) | Rejected(response: Response)

  function Validate(body: Option<map<string, JsonValue>>): Validation
  {
    match body
    case None => Rejected(ServerError(BodyNotObject))
    case Some(data) =>
      var question := Field(data, "question");
      if question.None? then Rejected(ServerError(NotAString("question")))
      else if question.value == "" then Rejected(BadRequest(MissingQuestion))
      else if Field(data, "link").None? then Rejected(ServerError(NotAString("link")))
      else Valid(question.value)
  }

  /** The link a document contributes once its refinement returned `text`:
      none when its metadata has no `source` (the KeyError is caught and
      only this document is skipped) or when the text or the url is empty. */
  function LinkFor(doc: Document, text: string): seq<Link>
  {
    if "source" in doc.metadata && text != "" && doc.metadata["source"] != ""
    then [Link(doc.metadata["source"], text)]
    else []
  }

  /** The refinement of one document against `answer` by graph 2. */
  function Refiner(g2: GraphTwo, answer: string): Document -> Result<string>
  {
    (d: Document) => g2.RefineOneDoc(answer, d)
  }

  /** The link objects for `docs`, refined in order by `refine`; a
      refinement that raises aborts the whole list. */
  function LinksSpec(refine: Document -> Result<string>, docs: seq<Document>): Result<seq<Link>>
  {
    if |docs| == 0 then Success([])
    else
      match LinksSpec(refine, docs[..|docs| - 1])
      case Failure(e) => Failure(e)
      case Success(links) =>
        match refine(docs[|docs| - 1])
        case Failure(e) => Failure(e)
        case Success(text) => Success(links + LinkFor(docs[|docs| - 1], text))
  }

  /** The response `api_handler` gives for a request body, when graph 1
      searches with `search`, prompts with `prompt` and answers with `llm`,
      and graph 2 is `g2`. The refined documents are the first two that the
      question's own retrieval found. */
  function Handle(body: Option<map<string, JsonValue>>, search: string -> Result<seq<Document>>,
                  prompt: (string, string) -> string, llm: string -> Result<string>,
                  g2: GraphTwo): Response
  {
    match Validate(body)
    case Rejected(response) => response
    case Valid(question) =>
      match GraphOneAnswer(search, prompt, llm, question)
      case Failure(e) => ServerError(Raised(e))
      case Success(answer) =>
        var retrieved := search(question).value;
        match LinksSpec(Refiner(g2, answer), retrieved[..Min(MaxRefined, |retrieved|)])
        case Failure(e) => ServerError(Raised(e))
        case Success(links) => Answered(answer, links)
  }

  /** The loop that builds `link_objects`. */
  method AssembleLinks(g2: GraphTwo, answer: string, docs: seq<Document>) returns (r: Result<seq<Link>>)
    ensures r == LinksSpec(Refiner(g2, answer), docs)
  {
    ghost var refine := Refiner(g2, answer);
    var linkObjects: seq<Link> := [];
    for i := 0 to |docs|
      invariant LinksSpec(refine, docs[..i]) == Success(linkObjects)
    {
      assert docs[..i + 1][..i] == docs[..i];
      var refineResult := g2.RefineOneDoc(answer, docs[i]);
      assert refineResult == refine(docs[i]);
      if refineResult.Failure? {
        assert LinksSpec(refine, docs[..i + 1]) == Failure(refineResult.error);
        LinksFailureSticks(refine, docs, i + 1);
        return Failure(refineResult.error);
      }
      var refinedText := refineResult.value;
      ghost var extra := LinkFor(docs[i], refinedText);
      if "source" in docs[i].metadata {
        var url := docs[i].metadata["source"];
        if refinedText != "" && url != "" {
          linkObjects := linkObjects + [Link(url, refinedText)];
        } else {
          assert extra == [] && linkObjects + extra == linkObjects;
        }
      } else {
        assert extra == [] && linkObjects + extra == linkObjects;
      }
      assert LinksSpec(refine, docs[..i + 1]) == Success(linkObjects);
    }
    assert docs[..|docs|] == docs;
    r := Success(linkObjects);
  }

  /** `api_handler`, with graph 1 `g1` and graph 2 `g2`. Graph 1 runs only
      on a valid request, and then its log gains the record of this
      question's retrieval. */
  method ApiHandler(g1: GraphOne, g2: GraphTwo, body: Option<map<string, JsonValue>>)
    returns (response: Response)
    modifies g1
    ensures response == Handle(body, g1.search, g1.prompt, g1.llm, g2)
    ensures Validate(body).Rejected? ==> g1.retrievalLog == old(g1.retrievalLog)
    ensures Validate(body).Valid? ==>
      var question := Validate(body).question;
      g1.retrievalLog == old(g1.retrievalLog)
        + (if g1.search(question).Success? then [RetrievalRecord(question, g1.search(question).value)] else [])
  {
    if body.None? {
      return ServerError(BodyNotObject);
    }
    var data := body.value;
    var question := Field(data, "question");
    if question.None? {
      return ServerError(NotAString("question"));
    }
    if question.value == "" {
      return BadRequest(MissingQuestion);
    }
    var link := Field(data, "link");
    if link.None? {
      return ServerError(NotAString("link"));
    }
    var result := g1.Invoke(question.value);
    if result.Failure? {
      return ServerError(Raised(result.error));
    }
    var initialAnswer := result.value;
    var latest := g1.retrievalLog[|g1.retrievalLog| - 1];
    var docs := latest.retrieved[..Min(MaxRefined, |latest.retrieved|)];
    var links := AssembleLinks(g2, initialAnswer, docs);
    if links.Failure? {
      return ServerError(Raised(links.error));
    }
    response := Answered(initialAnswer, links.value);
  }

  /** Once a prefix of the documents fails, the whole list fails with the
      same error: processing stops at the first refinement that raises. */
  lemma {:induction false} LinksFailureSticks(refine: Document -> Result<string>, docs: seq<Document>, n: nat)
    requires n <= |docs|
    requires LinksSpec(refine, docs[..n]).Failure?
    ensures LinksSpec(refine, docs) == LinksSpec(refine, docs[..n])
    decreases |docs| - n
  {
    if n < |docs| {
      var m := |docs|;
      assert docs[..m - 1][..n] == docs[..n];
      LinksFailureSticks(refine, docs[..m - 1], n);
    } else {
      assert docs[..n] == docs;
    }
  }

  /** The link list fails exactly when some refinement raises, and then
      with the error of the first one that does. */
  lemma {:induction false} LinksFailIff(refine: Document -> Result<string>, docs: seq<Document>)
    ensures LinksSpec(refine, docs).Failure? <==>
      exists k :: 0 <= k < |docs| && refine(docs[k]).Failure?
    ensures LinksSpec(refine, docs).Failure? ==>
      exists k :: 0 <= k < |docs| && refine(docs[k]).Failure?
        && LinksSpec(refine, docs).error == refine(docs[k]).error
        && forall j :: 0 <= j < k ==> refine(docs[j]).Success?
  {
    var n := |docs|;
    if n > 0 {
      var init := docs[..n - 1];
      LinksFailIff(refine, init);
      assert forall j :: 0 <= j < n - 1 ==> init[j] == docs[j];
    }
  }

  /** Every refinement contributes at most one link. */
  lemma {:induction false} LinksAtMostDocs(refine: Document -> Result<string>, docs: seq<Document>)
    ensures LinksSpec(refine, docs).Success? ==> |LinksSpec(refine, docs).value| <= |docs|
  {
    if |docs| > 0 {
      LinksAtMostDocs(refine, docs[..|docs| - 1]);
    }
  }

  /** `idx` picks out, in increasing order, exactly the documents that give
      a link, and `links[j]` is the link of document `idx[j]`. */
  predicate PicksKept(refine: Document -> Result<string>, docs: seq<Document>, links: seq<Link>, idx: seq<nat>)
    requires forall k :: 0 <= k < |docs| ==> refine(docs[k]).Success?
  {
    && |idx| == |links|
    && (forall j :: 0 <= j < |idx| ==>
          idx[j] < |docs| && LinkFor(docs[idx[j]], refine(docs[idx[j]]).value) == [links[j]])
    && (forall j, j' :: 0 <= j < j' < |idx| ==> idx[j] < idx[j'])
    && (forall k :: 0 <= k < |docs| && LinkFor(docs[k], refine(docs[k]).value) != [] ==> k in idx)
  }

  /** Extending the documents by one whose refinement succeeds extends the
      picked indexes by that document's position when it gives a link. */
  lemma PicksKeptSnoc(refine: Document -> Result<string>, docs: seq<Document>, links: seq<Link>,
                      idx: seq<nat>, d: Document)
    requires forall k :: 0 <= k < |docs| ==> refine(docs[k]).Success?
    requires refine(d).Success?
    requires PicksKept(refine, docs, links, idx)
    ensures var extra := LinkFor(d, refine(d).value);
      PicksKept(refine, docs + [d], links + extra, idx + (if extra == [] then [] else [|docs|]))
  {
    var docs' := docs + [d];
    var extra := LinkFor(d, refine(d).value);
    var idx' := idx + (if extra == [] then [] else [|docs|]);
    var links' := links + extra;
    forall j | 0 <= j < |idx'|
      ensures idx'[j] < |docs'| && LinkFor(docs'[idx'[j]], refine(docs'[idx'[j]]).value) == [links'[j]]
    {
      if j < |idx| {
        assert idx'[j] == idx[j] && links'[j] == links[j] && docs'[idx[j]] == docs[idx[j]];
      }
    }
    forall k | 0 <= k < |docs'| && LinkFor(docs'[k], refine(docs'[k]).value) != []
      ensures k in idx'
    {
      if k < |docs| {
        assert docs'[k] == docs[k];
      }
    }
  }

  /** When no refinement raises, the links are the links of the documents
      that have a source and a non-empty text and url, one each, in
      retrieval order, and no others. */
  lemma {:induction false} LinksInRetrievalOrder(refine: Document -> Result<string>, docs: seq<Document>)
    requires forall k :: 0 <= k < |docs| ==> refine(docs[k]).Success?
    ensures LinksSpec(refine, docs).Success?
    ensures exists idx :: PicksKept(refine, docs, LinksSpec(refine, docs).value, idx)
  {
    var n := |docs|;
    if n == 0 {
      assert PicksKept(refine, docs, [], []);
    } else {
      var init := docs[..n - 1];
      assert docs == init + [docs[n - 1]];
      LinksInRetrievalOrder(refine, init);
      var links := LinksSpec(refine, init).value;
      var idx :| PicksKept(refine, init, links, idx);
      PicksKeptSnoc(refine, init, links, idx, docs[n - 1]);
    }
  }

  /** Splitting the documents anywhere: the links of the whole are those of
      the first part followed by those of the second, unless a refinement
      raises. */
  lemma {:induction false} LinksConcat(refine: Document -> Result<string>, a: seq<Document>, b: seq<Document>)
    ensures LinksSpec(refine, a + b) ==
      match LinksSpec(refine, a)
      case Failure(e) => Failure(e)
      case Success(la) =>
        match LinksSpec(refine, b)
        case Failure(e) => Failure(e)
        case Success(lb) => Success(la + lb)
  {
    if |b| == 0 {
      assert a + b == a;
      if LinksSpec(refine, a).Success? {
        assert LinksSpec(refine, a).value + [] == LinksSpec(refine, a).value;
      }
    } else {
      var m := |b|;
      LinksConcat(refine, a, b[..m - 1]);
      assert (a + b)[..|a + b| - 1] == a + b[..m - 1];
      assert (a + b)[|a + b| - 1] == b[m - 1];
      if LinksSpec(refine, a).Success? && LinksSpec(refine, b[..m - 1]).Success? && refine(b[m - 1]).Success? {
        var la := LinksSpec(refine, a).value;
        var lb := LinksSpec(refine, b[..m - 1]).value;
        var extra := LinkFor(b[m - 1], refine(b[m - 1]).value);
        assert la + lb + extra == la + (lb + extra);
      }
    }
  }

  /** A document whose metadata has no `source` is dropped and the others
      keep their links: the list is the one for the documents without it,
      provided its refinement does not raise. */
  lemma MissingSourceDropsOnlyThatDoc(refine: Document -> Result<string>, docs: seq<Document>, k: nat)
    requires k < |docs|
    requires "source" !in docs[k].metadata
    requires refine(docs[k]).Success?
    ensures LinksSpec(refine, docs) == LinksSpec(refine, docs[..k] + docs[k + 1..])
  {
    var a, d, b := docs[..k], docs[k], docs[k + 1..];
    assert docs == (a + [d]) + b;
    ghost var none: seq<Link> := [];
    assert LinksSpec(refine, [d]) == Success(none) by {
      assert [d][..0] == [] && [d][0] == d;
      assert LinkFor(d, refine(d).value) == none;
      assert none + none == none;
    }
    LinksConcat(refine, a + [d], b);
    LinksConcat(refine, a, [d]);
    LinksConcat(refine, a, b);
    if LinksSpec(refine, a).Success? {
      assert LinksSpec(refine, a).value + [] == LinksSpec(refine, a).value;
    }
  }

  /** A question that is absent or holds only whitespace, in an otherwise
      readable body, gets the 400 response, and only such a question does;
      graph 1 then never runs. */
  lemma RejectsBlankQuestion(body: Option<map<string, JsonValue>>, search: string -> Result<seq<Document>>,
                             prompt: (string, string) -> string, llm: string -> Result<string>, g2: GraphTwo)
    ensures Handle(body, search, prompt, llm, g2).BadRequest? <==>
      && body.Some?
      && ("question" in body.value ==>
            && body.value["question"].JStr?
            && forall i :: 0 <= i < |body.value["question"].s| ==> IsSpace(body.value["question"].s[i]))
    ensures Handle(body, search, prompt, llm, g2).BadRequest? ==>
      && Handle(body, search, prompt, llm, g2).error == MissingQuestion
      && Validate(body).Rejected?
  {
    if body.Some? && "question" in body.value && body.value["question"].JStr? {
      StripEmptyIff(body.value["question"].s);
    }
  }

  /** A successful response carries graph 1's answer unchanged and at most
      two links, which come from the first two documents of the question's
      retrieval. */
  lemma AnsweredCarriesInitialAnswer(body: Option<map<string, JsonValue>>, search: string -> Result<seq<Document>>,
                                     prompt: (string, string) -> string, llm: string -> Result<string>,
                                     g2: GraphTwo)
    ensures var r := Handle(body, search, prompt, llm, g2);
      r.Answered? ==>
        && Validate(body).Valid?
        && GraphOneAnswer(search, prompt, llm, Validate(body).question) == Success(r.answer)
        && search(Validate(body).question).Success?
        && (var retrieved := search(Validate(body).question).value;
            LinksSpec(Refiner(g2, r.answer), retrieved[..Min(MaxRefined, |retrieved|)]) == Success(r.links))
        && |r.links| <= MaxRefined
  {
    var r := Handle(body, search, prompt, llm, g2);
    if r.Answered? {
      var question := Validate(body).question;
      var retrieved := search(question).value;
      LinksAtMostDocs(Refiner(g2, r.answer), retrieved[..Min(MaxRefined, |retrieved|)]);
    }
  }

  /** On a valid request whose answer graph succeeds, a refinement that
      raises on one of the first two documents turns the whole request into
      a 500, even though the per-document guard would have skipped a
      document with a missing source. The 500 carries the error of the
      first of those documents whose refinement raises. */
  lemma RefineFailureAborts(body: Option<map<string, JsonValue>>, search: string -> Result<seq<Document>>,
                            prompt: (string, string) -> string, llm: string -> Result<string>,
                            g2: GraphTwo, k: nat)
    requires Validate(body).Valid?
    requires GraphOneAnswer(search, prompt, llm, Validate(body).question).Success?
    requires search(Validate(body).question).Success?
    requires k < Min(MaxRefined, |search(Validate(body).question).value|)
    requires g2.RefineOneDoc(GraphOneAnswer(search, prompt, llm, Validate(body).question).value,
                             search(Validate(body).question).value[k]).Failure?
    ensures var refine := Refiner(g2, GraphOneAnswer(search, prompt, llm, Validate(body).question).value);
      var retrieved := search(Validate(body).question).value;
      exists j :: (0 <= j <= k && refine(retrieved[j]).Failure?
        && (forall i :: 0 <= i < j ==> refine(retrieved[i]).Success?)
        && Handle(body, search, prompt, llm, g2) == ServerError(Raised(refine(retrieved[j]).error)))
  {
    var question := Validate(body).question;
    var answer := GraphOneAnswer(search, prompt, llm, question).value;
    var refine := Refiner(g2, answer);
    var retrieved := search(question).value;
    assert refine(retrieved[k]).Failure?;
    FirstRefineFailure(refine, retrieved, k);
  }

  /** Among the first two documents, the first one whose refinement raises
      decides the error of the link list. */
  lemma FirstRefineFailure(refine: Document -> Result<string>, retrieved: seq<Document>, k: nat)
    requires k < Min(MaxRefined, |retrieved|)
    requires refine(retrieved[k]).Failure?
    ensures exists j :: (0 <= j <= k && refine(retrieved[j]).Failure?
      && (forall i :: 0 <= i < j ==> refine(retrieved[i]).Success?)
      && LinksSpec(refine, retrieved[..Min(MaxRefined, |retrieved|)]) == Failure(refine(retrieved[j]).error))
  {
    var docs := retrieved[..Min(MaxRefined, |retrieved|)];
    assert docs[k] == retrieved[k];
    LinksFailIff(refine, docs);
    var j :| 0 <= j < |docs| && refine(docs[j]).Failure?
      && LinksSpec(refine, docs).error == refine(docs[j]).error
      && forall i :: 0 <= i < j ==> refine(docs[i]).Success?;
    assert j <= k;
    assert docs[j] == retrieved[j];
    assert forall i :: 0 <= i < j ==> docs[i] == retrieved[i];
  }
}
