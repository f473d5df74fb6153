# PDF RAG assistant: the routing chain in Dafny

The assistant answers questions about an uploaded PDF. `build_rag_chain` in
`rag_engine.py` builds one chain. For each question, the chain asks a language
model to classify the question as `CHAT`, `LOCAL` or `GLOBAL`. It then runs one
of three strategies:

- chat: the bare question goes to the model;
- local: MMR retrieval over a FAISS index, with the retrieved chunks as context;
- global: the whole document text as context.

This project models the decision logic of that chain:

- the stripping and ordered, case-sensitive matching of the classifier's
  output, with its fallback to the local strategy;
- passing the question through to the chosen strategy;
- the `"\n\n"` join that builds the local context and the whole-document text;
- the input record each strategy receives.

The model, the retriever and the output parser are opaque. They appear as
function-valued fields of `RagEngine.Services`. Each returns a value or an
error: `Err(message)` stands for a Python exception that a call raises.
`RagEngine.Invoke` returns the answer together with the sequence of calls it
made. These are calls to the classifier, the retriever and the three
strategies, each with its argument. Statements such as "the classifier runs
once" and "exactly one strategy runs" are properties of that trace.

Modules:

- `Text` (`text.dfy`): Python's `str.strip()` over the exact `str.isspace`
  character set, and `sep.join(parts)`, with lemmas that characterise both.
- `Routing` (`routing.dfy`): the three routes, the ordered branch list with its
  default, and `SelectRoute`.
- `RagEngine` (`rag_engine.dfy`): documents, the two input records, the three
  strategies, the `route_to_*` steps and the final chain.

Three points about `build_rag_chain` worth stating:

- The whole-document text is the join of the loaded PDF pages
  (`rag_engine.py:88` joins `docs`), not of the split chunks.
- The model accepts an empty page list, for which the whole-document text is
  empty. What the index build at `rag_engine.py:26` does with zero chunks is
  not modelled.
- An unmatched classifier output never becomes a value of its own. It is the
  `None` of `Routing.FirstMatch`, which `SelectRoute` maps to the default
  route.

## Model

| member | source | states |
|---|---|---|
| `Text.Strip` | rag_engine.py:119-121 | the stripped output is empty or starts and ends with a non-whitespace character, and it is the slice of the raw output between an all-whitespace prefix and an all-whitespace suffix |
| `Text.StripSurrounded` | rag_engine.py:119-121 | stripping removes exactly the surrounding Python whitespace: a trimmed string with any whitespace around it strips back to itself |
| `Text.StripIdempotent` | rag_engine.py:119-121 | stripping an already stripped output changes nothing |
| `Text.JoinAt` | rag_engine.py:86 | in the join, part `i` sits at its offset, and each part except the last is followed by exactly one separator |
| `Text.JoinLength` | rag_engine.py:86 | zero parts join to the empty string; `n` parts join to their total length plus `n - 1` separators, ending with the last part |
| `Text.JoinSnoc` | rag_engine.py:86 | joining one more part at the end appends one separator and that part |
| `Routing.FirstMatch` | rag_engine.py:118-122 | `None` if and only if no branch label equals the key; otherwise the target of the first branch, in order, whose label equals the key |
| `Routing.SelectRouteExact` | rag_engine.py:118-122 | the global and chat strategies are selected if and only if the stripped output is exactly `GLOBAL` or `CHAT`; the local strategy in every other case |
| `Routing.FallbackToLocal` | rag_engine.py:122 | a stripped output that equals none of the three labels (case-sensitive) selects the local strategy |
| `Routing.LabelSelects` | rag_engine.py:119-121 | each label, with any leading and trailing whitespace, selects its own route |
| `Routing.FallbackExamples` | rag_engine.py:119-122 | `""`, `"chat"`, `"CHAT."` and `"LOCAL GLOBAL"` all fall back to the local strategy |
| `Routing.PaddedLabelExample` | rag_engine.py:119-121 | `" GLOBAL\n"` selects the global strategy |
| `RagEngine.LocalStrategy` | rag_engine.py:89-92 | the local chain calls no classifier; it runs its answering step once when retrieval succeeds and not at all when retrieval fails |
| `RagEngine.RouteTo` | rag_engine.py:106-108 | every call a route makes belongs to that route and is made for the question taken from the record; no classifier call; one strategy run unless local retrieval failed, in which case the retrieval error is the answer |
| `RagEngine.Invoke` | rag_engine.py:111-125 | the classifier is called first and exactly once; a classifier error is the answer and nothing else runs; otherwise every later call belongs to the selected route and carries the original question, and exactly one strategy runs unless local retrieval failed |
| `RagEngine.AnswerIsStrategyOutput` | rag_engine.py:99-101 | the chain's answer is the selected strategy's output for the original question, unchanged |
| `RagEngine.ChatGetsOnlyQuestion` | rag_engine.py:106 | on the chat route the calls are the classifier and the model on the bare question: no retrieval, no document |
| `RagEngine.LocalRecord` | rag_engine.py:89-92 | on the local route the calls are the classifier, the retriever for the question, and the local answer on `{context: formatted chunks, question}` |
| `RagEngine.FormatDocsLayout` | rag_engine.py:85-88 | the formatted text holds every document's content at its offset, in order, with one blank line after each but the last |
| `RagEngine.FormatDocsLength` | rag_engine.py:85-87 | no retrieved chunks give an empty context; `n` chunks give their contents plus `n - 1` blank-line separators |
| `RagEngine.GlobalRecord` | rag_engine.py:93-96 | on the global route the calls are the classifier and the global answer on `{document: the pages joined with blank lines, question}`; `document` is fixed when the chain is built, so it does not depend on the question |

## Left out

- PDF loading with `PyPDFLoader` (`rag_engine.py:17-18`): file I/O and parsing. `RagEngine.BuildRagChain` takes the loaded pages as a parameter.
- Chunking with `RecursiveCharacterTextSplitter` (chunk size 800, overlap 100; `rag_engine.py:19-23`): the splitting algorithm is library code. The model makes no claim about chunk sizes or overlaps.
- Embeddings, the FAISS index and MMR retrieval (`k = 8`, `lambda_mult = 0.3`; `rag_engine.py:24-33`): library code with floating-point similarity. Retrieval is the opaque `Services.retrieve`, and no bound on the number of chunks it returns is assumed.
- The Gemini model and `StrOutputParser` (`rag_engine.py:14-15`, `99-102`): network calls. They appear as opaque functions. A function gives the same answer to the same input, which a real model need not do; no property here depends on that.
- The wording and rendering of the three prompt templates (`rag_engine.py:34-82`): configuration text. Each prompt-model-parser chain is one opaque function on its input record.
- The scheduling of `RunnableParallel`: the trace lists retrieval before the local answer, and the passthrough branch makes no call.
- `load_dotenv` and the environment (`rag_engine.py:11`).
- Errors raised while building the chain (unreadable PDF, index build failure): chain construction runs library code only and is not modelled.
- `Document` metadata: only `page_content` is modelled.
- All of `app.py`: the Streamlit interface, temporary-file writing, the session's message list and its reset.
