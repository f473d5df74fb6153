/** The question-answering chain that `build_rag_chain` assembles. The language
    model, the retriever and the output parser are opaque: each strategy is
    given as a function from its input record to a text or an error, and every
    invocation records the calls it makes, in order, so that "the classifier runs
    once" and "exactly one strategy runs" can be stated. */
module RagEngine {
  import opened Text
  import opened Routing

  /** A loaded page or a retrieved chunk; only its `page_content` is modelled. */
  datatype Document = Document(pageContent: string)

  /** A value, or the error a model or retriever call raised. */
  datatype Result<T> = Ok(value: T) | Err(error: string)

  /** Input record of the local strategy (`parallel_chain`). */
  datatype LocalInput = LocalInput(context: string, question: string)

  /** Input record of the global strategy (`parallel_chain_global`). */
  datatype GlobalInput = GlobalInput(document: string, question: string)

  /** Output of the first stage of the final chain: the classifier's raw text
      next to the passed-through question. */
  datatype Classified = Classified(route: string, question: string)

  /** The collaborators: the classification prompt with the model and parser,
      the retriever, the model and parser on a bare question, and the local
      and global prompts with the model and parser. */
  datatype Services = Services(
    classify: string -> Result<string>,
    retrieve: string -> Result<seq<Document>>,
    chat: string -> Result<string>,
    answerLocal: LocalInput -> Result<string>,
    answerGlobal: GlobalInput -> Result<string>)

  /** The chain returned by `build_rag_chain`; the whole-document text is
      computed once, when the chain is built. */
  datatype Chain = Chain(services: Services, fullDocumentText: string)

  /** One call made while answering a question, with its argument. */
  datatype Call =
    | Classify(question: string)
    | Retrieve(question: string)
    | AskChat(question: string)
    | AskLocal(localInput: LocalInput)
    | AskGlobal(globalInput: GlobalInput)

  /** What answering a question gives: the answer or the error, and the calls made. */
  datatype Outcome = Outcome(answer: Result<string>, calls: seq<Call>)

  const Separator: string := "\n\n"

  function PageContents(docs: seq<Document>): (r: seq<string>)
    ensures |r| == |docs| && forall i :: 0 <= i < |docs| ==> r[i] == docs[i].pageContent
  {
    seq(|docs|, i requires 0 <= i < |docs| => docs[i].pageContent)
  }

  /** `format_docs`, and equally the expression that computes `full_document_text`:
      the contents joined with a blank line. */
  function FormatDocs(docs: seq<Document>): string
  {
    Join(PageContents(docs), Separator)
  }

  /** `build_rag_chain` once the pages are loaded and the index is built. */
  function BuildRagChain(pages: seq<Document>, services: Services): Chain
  {
    Chain(services, FormatDocs(pages))
  }

  /** `chain_chat`: the bare question goes to the model. */
  function ChatStrategy(c: Chain, question: string): Outcome
  {
    Outcome(c.services.chat(question), [AskChat(question)])
  }

  /** `chain_local`: retrieve chunks for the question, format them as the
      context, then answer from `{context, question}`. */
  function LocalStrategy(c: Chain, question: string): (o: Outcome)
    ensures ClassifyCount(o.calls) == 0
    ensures StrategyCount(o.calls) == if c.services.retrieve(question).Err? then 0 else 1
  {
    match c.services.retrieve(question)
    case Err(e) => Outcome(Err(e), [Retrieve(question)])
    case Ok(docs) =>
      var input := LocalInput(FormatDocs(docs), question);
      var calls := [Retrieve(question), AskLocal(input)];
      assert calls[1..] == [AskLocal(input)] && calls[1..][1..] == [];
      Outcome(c.services.answerLocal(input), calls)
  }

  /** `chain_global`: answer from `{document, question}` with the precomputed
      whole-document text. */
  function GlobalStrategy(c: Chain, question: string): Outcome
  {
    var input := GlobalInput(c.fullDocumentText, question);
    Outcome(c.services.answerGlobal(input), [AskGlobal(input)])
  }

  /** `route_to_chat`, `route_to_local`, `route_to_global`: take the question
      out of the record and run the route's strategy on it. */
  function RouteTo(c: Chain, r: Route, x: Classified): (o: Outcome)
    ensures forall i :: 0 <= i < |o.calls| ==>
      CallRoute(o.calls[i]) == Some(r) && CallQuestion(o.calls[i]) == x.question
    ensures ClassifyCount(o.calls) == 0
    ensures if r == Local && c.services.retrieve(x.question).Err? then
        StrategyCount(o.calls) == 0 && o.answer == Err(c.services.retrieve(x.question).error)
      else
        StrategyCount(o.calls) == 1
  {
    match r
    case Chat => ChatStrategy(c, x.question)
    case Local => LocalStrategy(c, x.question)
    case Global => GlobalStrategy(c, x.question)
  }

  /** The route a call belongs to; the classifier belongs to none. */
  function CallRoute(call: Call): Option<Route>
  {
    match call
    case Classify(_) => None
    case Retrieve(_) => Some(Local)
    case AskChat(_) => Some(Chat)
    case AskLocal(_) => Some(Local)
    case AskGlobal(_) => Some(Global)
  }

  /** The question a call was made for. */
  function CallQuestion(call: Call): string
  {
    match call
    case AskLocal(input) => input.question
    case AskGlobal(input) => input.question
    case _ => call.question
  }

  predicate IsStrategyCall(call: Call)
  {
    call.AskChat? || call.AskLocal? || call.AskGlobal?
  }

  /** The number of calls to a strategy. */
  function StrategyCount(calls: seq<Call>): nat
  {
    if calls == [] then 0
    else (if IsStrategyCall(calls[0]) then 1 else 0) + StrategyCount(calls[1..])
  }

  /** The number of calls to the classifier. */
  function ClassifyCount(calls: seq<Call>): nat
  {
    if calls == [] then 0
    else (if calls[0].Classify? then 1 else 0) + ClassifyCount(calls[1..])
  }

  /** `final_chain.invoke(question)`. The classifier runs first and exactly
      once. If it fails its error is the answer and nothing else runs.
      Otherwise every later call belongs to the one selected route and is made
      for the original question, and the answer is that of the last call.
      Exactly one strategy runs, unless the local route's retriever failed, in
      which case that error is the answer and no strategy runs. */
  function Invoke(c: Chain, question: string): (o: Outcome)
    ensures |o.calls| >= 1 && o.calls[0] == Classify(question) && ClassifyCount(o.calls) == 1
    ensures c.services.classify(question).Err? ==>
      o == Outcome(Err(c.services.classify(question).error), [Classify(question)])
    ensures c.services.classify(question).Ok? ==>
      var r := SelectRoute(c.services.classify(question).value);
      && (forall i :: 1 <= i < |o.calls| ==>
            CallRoute(o.calls[i]) == Some(r) && CallQuestion(o.calls[i]) == question)
      && (if r == Local && c.services.retrieve(question).Err? then
            StrategyCount(o.calls) == 0 && o.answer == Err(c.services.retrieve(question).error)
          else
            StrategyCount(o.calls) == 1)
  {
    match c.services.classify(question)
    case Err(e) => Outcome(Err(e), [Classify(question)])
    case Ok(raw) =>
      var x := Classified(raw, question);
      var branch := RouteTo(c, SelectRoute(x.route), x);
      var calls := [Classify(question)] + branch.calls;
      assert calls[1..] == branch.calls;
      Outcome(branch.answer, calls)
  }

  /** The answer is the selected strategy's output, passed on unchanged. */
  lemma {:induction false} AnswerIsStrategyOutput(c: Chain, question: string, raw: string)
    requires c.services.classify(question) == Ok(raw)
    ensures SelectRoute(raw) == Chat ==> Invoke(c, question).answer == c.services.chat(question)
    ensures SelectRoute(raw) == Global ==>
      Invoke(c, question).answer == c.services.answerGlobal(GlobalInput(c.fullDocumentText, question))
    ensures SelectRoute(raw) == Local ==> forall docs :: c.services.retrieve(question) == Ok(docs) ==>
      Invoke(c, question).answer == c.services.answerLocal(LocalInput(FormatDocs(docs), question))
  {
  }

  /** The chat strategy gets the bare question: no retrieval, no document. */
  lemma ChatGetsOnlyQuestion(c: Chain, question: string)
    requires c.services.classify(question).Ok?
    requires SelectRoute(c.services.classify(question).value) == Chat
    ensures Invoke(c, question).calls == [Classify(question), AskChat(question)]
  {
    var x := Classified(c.services.classify(question).value, question);
    assert RouteTo(c, SelectRoute(x.route), x) == ChatStrategy(c, question);
    assert Invoke(c, question).calls == [Classify(question)] + [AskChat(question)];
  }

  /** The local strategy's record is the formatted retrieval result for the
      question next to the question itself. */
  lemma LocalRecord(c: Chain, question: string, docs: seq<Document>)
    requires c.services.classify(question).Ok?
    requires SelectRoute(c.services.classify(question).value) == Local
    requires c.services.retrieve(question) == Ok(docs)
    ensures Invoke(c, question).calls ==
      [Classify(question), Retrieve(question), AskLocal(LocalInput(FormatDocs(docs), question))]
  {
    var x := Classified(c.services.classify(question).value, question);
    assert RouteTo(c, SelectRoute(x.route), x) == LocalStrategy(c, question);
  }

  /** The formatted text holds each document's content, in order: content `i`
      starts at its offset and, unless it is the last, is followed by one blank
      line. This is the layout of the local context and of the whole-document
      text alike. */
  lemma FormatDocsLayout(docs: seq<Document>, i: nat)
    requires i < |docs|
    ensures var o := Offset(PageContents(docs), Separator, i);
      var e := o + |docs[i].pageContent|;
      && e <= |FormatDocs(docs)|
      && FormatDocs(docs)[o..e] == docs[i].pageContent
      && (i + 1 < |docs| ==> e + |Separator| <= |FormatDocs(docs)| && FormatDocs(docs)[e..e + |Separator|] == Separator)
  {
    JoinAt(PageContents(docs), Separator, i);
  }

  /** With no retrieved chunks the local context is empty, and with `n` chunks
      it is their contents plus `n - 1` blank-line separators. */
  lemma FormatDocsLength(docs: seq<Document>)
    ensures docs == [] ==> FormatDocs(docs) == ""
    ensures docs != [] ==>
      |FormatDocs(docs)| == TotalLength(PageContents(docs)) + (|docs| - 1) * |Separator|
  {
    JoinLength(PageContents(docs), Separator);
  }

  /** On the global route the calls are the classifier and the global answer
      on `{document, question}`, where `document` is the pages joined with
      blank lines, fixed when the chain is built and so the same for every
      question, and `question` is the question asked. */
  lemma GlobalRecord(pages: seq<Document>, s: Services, question: string)
    requires s.classify(question).Ok? && SelectRoute(s.classify(question).value) == Global
    ensures Invoke(BuildRagChain(pages, s), question).calls ==
      [Classify(question), AskGlobal(GlobalInput(FormatDocs(pages), question))]
  {
    var c := BuildRagChain(pages, s);
    var x := Classified(s.classify(question).value, question);
    assert RouteTo(c, SelectRoute(x.route), x) == GlobalStrategy(c, question);
  }
}
