# Research-paper question answering: the answering step

This project models the answering logic of the Research Paper RAG Analyzer, which lives in
`LLMHandler` (utils/llm_handler.py). The model has three parts.

- **Response normalisation** (`_extract_text_from_llm_response`, module `ResponseText`). A language-model
  response of unknown shape is turned into answer text. The rules are tried in a fixed order:
  1. `None` gives "".
  2. A string is returned as it is.
  3. For a generations batch, the first generation's `.text` is used, else its `.generation_text`.
  4. For an object, its `.content` is used.
  5. For a mapping, the first of `content`, `text`, `message`, `response` that holds a string is used.
  6. A non-empty list or tuple is normalised through its first element.
  7. Anything else gives `str()`, or "" when `str()` raises.
- **Invocation** (`_call_llm_with_prompt`, module `Invocation`). The client's methods are tried in a fixed order:
  `predict`, `generate` (which receives a one-element prompt list), `run`, `invoke`, `call`,
  `complete` and `complete_prompt`. The first method that exists and does not raise gives the response.
  When none does, the call raises a `RuntimeError` with one fixed message.
- **The QA step** (`simple_qa` inside `create_qa_chain`, module `QaChain`). It runs in this order:
  1. A falsy query exits early.
  2. Retrieval tries `similarity_search(q, k=4)`, then the retriever, then falls back to no documents.
  3. The context is the documents' texts joined by `"\n\n---\n\n"`.
  4. The context and the question fill the fixed template.
  5. The model is called. A failed call becomes the answer text `"LLM call failed: " + message`.

  The answer always carries the retrieved documents.

Python values are modelled by the datatype `PyValues.Value`. It keeps only what the code inspects:
the kind of a value, its items or entries, its attributes, its truthiness and its `str()`.
The language-model client and the vector store are oracles:
- The client is a map from method name to what a call does (return a value or raise).
- The store is a pair of functions from query and `k` to documents or a raise.

`_call_llm_with_prompt` and `simple_qa` are methods with loops, proved equal to the
specification functions `Invocation.Invoke` and `QaChain.Qa`; the lemmas state what those functions promise.
The handler's fields `llm` and `prompt_template` are set once and never changed. So the handler is not a class:
the client is passed as a parameter, and the template is the constant `QaChain.PromptTemplate`.
Its text is the handler's, written as short literal pieces that concatenate to it. `QaChain.Format` models `str.format` on the two fields.

The model follows the code, with one exception: the answer text always goes through the corrected
normalisation (see "## Findings" and the `QaChain.Qa` line under "## Left out").
Points where the code's behaviour may be unexpected:
- A question made only of whitespace is truthy, so it goes through retrieval and the model call. It does not exit early.
- The failure text does not carry the reason the last method raised. The exceptions of individual methods are swallowed,
  so the message is always the fixed `RuntimeError` text.
- `simple_qa` can itself raise. This happens when a document's chosen text is not a string (the join
  fails), or when `str()` of a document or of the query raises. The model reports this as `QaRaised`.

## Model

| member | source | states |
|---|---|---|
| `ResponseText.NormaliseBasics` | utils/llm_handler.py:21-52 | `None` normalises to "", a string is returned unchanged, an empty list, tuple or dict gives its `str()` ("[]", "()", "{}"), and a value no rule covers (a scalar, or an object with neither `generations` nor `content`) gives `str()`, or "" when that raises |
| `ResponseText.GenerationResponse` | utils/llm_handler.py:26-34 | for a `generations` list whose first batch is a non-empty list or tuple, whatever the `str()` of the response and the batches, the answer is the first generation's `.text`, or its `.generation_text` when `.text` is absent; a falsy field gives "" |
| `ResponseText.GenerationsFallThrough` | utils/llm_handler.py:26-36 | a `generations` attribute that is empty, not a list, or malformed (the swallowed exceptions) changes nothing: the response normalises as if the attribute were absent |
| `ResponseText.MappingTextFirst` | utils/llm_handler.py:41-44 | the mapping rule yields the value of the first key in order that is present with a string value, skipping others; it yields nothing exactly when no key qualifies |
| `ResponseText.MappingResponse` | utils/llm_handler.py:40-50 | a mapping answers with its first qualifying key among `content`, `text`, `message`, `response`, and with its `str()` when none qualifies (`"{}"` for the empty dict) |
| `ResponseText.TextMappingScenario` | utils/llm_handler.py:41-44 | `{"text": "Answer body"}` normalises to "Answer body" |
| `ResponseText.FirstElement` | utils/llm_handler.py:46-47 | a non-empty list or tuple normalises to what its first element normalises to, whatever the other elements |
| `ResponseText.NestedNormalise` | utils/llm_handler.py:45-47 | a value placed first in any number of nested lists and tuples, each with any further elements, normalises to the same text as the value: the recursion on the first element peels every level |
| `ResponseText.NormaliseAsWritten` | utils/llm_handler.py:19-52 | the source's normalisation returns either a string or a truthy field value passed through `x or ""` |
| `ResponseText.AsWrittenAgreement` | utils/llm_handler.py:19-52 | the source's normalisation and the corrected one agree whenever the source returns a string; otherwise the source returns a truthy non-string field and the corrected one returns its `str()` |
| `ResponseText.ContentListIsNotText` | utils/llm_handler.py:37-39 | a message whose `.content` is a list of content blocks comes out of the source's normalisation as that list, not as text |
| `Invocation.CallLlm` | utils/llm_handler.py:54-83 | trying the seven methods in order, returning on the first response, gives exactly `Invoke(llm, prompt)` |
| `Invocation.OnlyGenerateIsBatched` | utils/llm_handler.py:62-65 | `generate` alone is called with a one-element list holding the prompt; every other method gets the prompt itself |
| `Invocation.TryFromFirstSuccess` | utils/llm_handler.py:54-83 | from any position in the order, the call succeeds exactly when some later method answers, with the response of the earliest one, and otherwise fails with the fixed message |
| `Invocation.InvokeFirstSuccess` | utils/llm_handler.py:54-83 | first success in order: a response exactly when some method is present and does not raise, and then the earliest such method's response; exhaustion (all absent or raising) is the `RuntimeError` with the fixed message |
| `Invocation.TryFromIgnoresFailing` | utils/llm_handler.py:55-81 | removing a method that is absent or raises (or is not in the list) does not change the outcome from any position |
| `Invocation.InvokeIgnoresFailing` | utils/llm_handler.py:55-81 | skipped methods have no effect besides being skipped: removing one leaves the outcome unchanged |
| `Invocation.OnlyRunScenario` | utils/llm_handler.py:68-74 | a client exposing only `run` is answered by `run` |
| `Invocation.NoMethodsScenario` | utils/llm_handler.py:82-83 | a client with no supported method fails with the fixed message |
| `QaChain.SimpleQa` | utils/llm_handler.py:88-124 | building the context part by part in a loop and calling the model gives exactly `Qa(llm, store, inputs)` |
| `QaChain.EarlyExit` | utils/llm_handler.py:90-92 | a falsy query (an empty string, `None`, a dict without `query`) gives empty text and no sources whatever the store and client do; whitespace is not falsy |
| `QaChain.RetrievalDegrades` | utils/llm_handler.py:93-102 | the similarity search's documents when it returns (the retriever then plays no part), the retriever's when only the search raises, no documents when both raise |
| `QaChain.DocTextRule` | utils/llm_handler.py:107-110 | a non-empty `page_content` string is a document's text; when `page_content` is absent or falsy, a dict falls back to `content` and then to "", and any other document falls back to `content` and then to `str(d)` |
| `QaChain.TextsAll` | utils/llm_handler.py:105-111 | the context parts exist exactly when every document has a text, and they are those texts in retrieval order |
| `QaChain.JoinPartAt` | utils/llm_handler.py:112 | each document text lies at its offset in the context, and the context ends with the last text |
| `QaChain.JoinSeparatorAt` | utils/llm_handler.py:112 | two consecutive texts are separated by exactly one divider |
| `QaChain.FormatPlain` | utils/llm_handler.py:114 | `str.format` copies text holding neither `{` nor `}` unchanged |
| `QaChain.FormatFields` | utils/llm_handler.py:114 | `str.format` replaces `{context}` by the context and `{question}` by the question |
| `QaChain.FillFields` | utils/llm_handler.py:114 | a template of texts holding neither `{` nor `}` around one `{context}` and one `{question}` field formats to those texts with the context and the question in place of the fields |
| `QaChain.TemplatePieces` | utils/llm_handler.py:14-17 | the literal template is the preamble, `{context}`, the question label, `{question}` and the closing instruction, and those three texts hold neither `{` nor `}` |
| `QaChain.FillTemplateLayout` | utils/llm_handler.py:114 | formatting the literal template gives the preamble, the context, the question label, the question and the closing instruction, in that order |
| `QaChain.PromptLayout` | utils/llm_handler.py:114 | each of the five pieces of the formatted prompt sits at its offset: the preamble, the context, the question label, the question and the closing instruction |
| `QaChain.PromptDeterminesFields` | utils/llm_handler.py:114 | for contexts of equal length the prompt determines both the context and the question |
| `QaChain.QaRaisesExactly` | utils/llm_handler.py:104-114 | the QA step raises exactly when the query is truthy and some retrieved document has no string text or the query has no `str()` |
| `QaChain.QaAnswer` | utils/llm_handler.py:116-124 | once the prompt is built the answer carries the retrieved documents; its text is the normalised response of the first method that answers, or "LLM call failed: " followed by the fixed message when none does; whenever the source's own normalisation returns a string, the answer text is that string |

## Left out

- Document chunking (utils/pdf_processor.py) is left out. It is delegated to a text splitter whose source is not part of this model, and the PDF extraction and temporary-file handling are I/O.
- The vector store (utils/vector_store.py) is an oracle. Embedding, similarity ranking and persistence happen in foreign libraries.
- The Streamlit interface, session state and `.env` loading (app.py) are left out. They are presentation and configuration.
- The construction of the `ChatGroq` client, its model name and its temperature are left out. They are configuration of a foreign library.
- Text generation is an oracle. Each client method is a deterministic function of its argument, and each method is called at most once per question.
- Python values are simplified:
  - Objects are always truthy.
  - Dict keys are strings.
  - Custom objects have no `__len__` or `__getitem__`.
  - Reading an attribute never raises.
  - `str()` of a non-empty container, an object or a scalar (number, boolean) is an opaque part of the value.
- Exceptions outside `Exception` (such as `KeyboardInterrupt`) are not modelled.
- `QaChain.Qa`: when the response, its first generation, or a response reached through the first element of a list or tuple (the recursion at utils/llm_handler.py:47) has a truthy `.content`, `.text` or `.generation_text` that is not a string, the source's answer is that value itself; the model answers with its `str()` (the corrected normalisation of "## Findings"). In every other case the two agree, as `QaChain.QaAnswer` states.
- `ResponseText.Normalise`: a response nested in lists or tuples deeper than Python's recursion limit makes the source raise `RecursionError`, which escapes `simple_qa` because the normalisation at utils/llm_handler.py:122 is outside any `try`. The model's normalisation always returns.
- `QaChain.Format`: only the two fields `{context}` and `{question}` are modelled. Any other `{` or `}` is copied through unchanged. Python would instead raise `ValueError` on a lone `}`, turn `{{` and `}}` into single braces, or read other fields and format specs. The lemmas about `Format` assume texts with no brace at all, and the handler's template has none outside its two fields.
- The QA step's raises are not told apart. The model records that `simple_qa` raised, but not which exception or at which statement.

## Findings

| source | as written | input that shows it | evidently intended | confidence | as-written member | corrected member |
|---|---|---|---|---|---|---|
| utils/llm_handler.py:31-39 | `gen0.text or ""` and `getattr(resp, "content") or ""` return a truthy field whatever its type, so the text extractor can return a list | a chat message whose `.content` is a list of content blocks, `[{"type": "text", "text": "hi"}]`: the extractor returns the list itself | the extractor always returns text; a non-string field goes through `str()`, as the extractor's own last rule does | medium; not executed | `ResponseText.NormaliseAsWritten` (shown by `ResponseText.ContentListIsNotText`) | `ResponseText.Normalise` (string by its type; related to the source by `ResponseText.AsWrittenAgreement`), used by `QaChain.Qa` |
