/** One question answered against a vector store (the `simple_qa` callable built by
    `LLMHandler.create_qa_chain`): early exit on a falsy query, retrieval that degrades to
    no documents, a context joined from the documents' texts, the fixed prompt template,
    and a language-model call whose failure becomes the answer text. The vector store and
    the client are oracles. */
module QaChain {
  import opened PyValues
  import opened ResponseText
  import opened Invocation

  /** Number of documents asked of the store. */
  const TopK: nat := 4

  /** Placed between the texts of two documents in the context. */
  const Divider: string := "\n\n---\n\n"

  /** `prompt_template`, as the handler sets it. */
  const PromptTemplate: string :=
    "Use the following extracted passages" + " from a research paper to answer the" + " question.\n\n" +
    "Passages:\n" + "{context}" + "\n\nQuestion: " + "{question}" + "\n\nAnswer concisely and cite sources."

  /** The pieces of the template around its two fields. */
  const Preamble: string :=
    "Use the following extracted passages" + " from a research paper to answer the" + " question.\n\n" +
    "Passages:\n"
  const QuestionLabel: string := "\n\nQuestion: "
  const Closing: string := "\n\nAnswer concisely and cite sources."

  /** Start of the answer text when the language-model call fails. */
  const FailurePrefix: string := "LLM call failed: "

  /** What a retrieval call does: return documents, or raise. */
  datatype Retrieval = Docs(docs: seq<Value>) | SearchRaised

  /** The vector store: `similarity_search(q, k)`, and `as_retriever` with `k` followed by
      `get_relevant_documents(q)` (a raise in either step is a raise of the whole). */
  datatype Store = Store(similaritySearch: (Value, nat) -> Retrieval, retrieverSearch: (Value, nat) -> Retrieval)

  /** What `simple_qa` does: return `{"result": ..., "source_documents": ...}`, or let an
      exception out (a document whose text is not a string, or a `str()` that raises). */
  datatype QaOutcome = Answer(result: string, sources: seq<Value>) | QaRaised

  /** `inputs.get("query")` for a dict, the inputs themselves otherwise. */
  function QueryOf(inputs: Value): Value {
    if inputs.Dict? then DictGet(inputs.entries, "query", NoneV) else inputs
  }

  /** Similarity search first; the retriever only when it raises; no documents when both raise. */
  function Retrieve(store: Store, query: Value): seq<Value> {
    match store.similaritySearch(query, TopK)
    case Docs(docs) => docs
    case SearchRaised =>
      match store.retrieverSearch(query, TopK)
      case Docs(docs) => docs
      case SearchRaised => []
  }

  /** A part of the context must be a string for the join to succeed. */
  function AsText(v: Value): Option<string> {
    if v.Str? then Some(v.s) else None
  }

  /** The text of one document: `page_content` or `content` of a dict (each defaulting to "");
      `page_content`, then `content`, then `str(d)` of anything else. `None` when the join or
      `str(d)` would raise. */
  function DocText(d: Value): Option<string> {
    if d.Dict? then
      var pageContent := DictGet(d.entries, "page_content", Str(""));
      AsText(if Truthy(pageContent) then pageContent else DictGet(d.entries, "content", Str("")))
    else
      var pageContent := GetAttr(d, "page_content", NoneV);
      if Truthy(pageContent) then AsText(pageContent)
      else
        var content := GetAttr(d, "content", NoneV);
        if Truthy(content) then AsText(content) else Show(d)
  }

  /** The document-text rule: a non-empty `page_content` string wins; a dict falls back to
      `content` and then to ""; any other document falls back to `content` and then to `str(d)`. */
  lemma DocTextRule(entries: map<string, Value>, attrs: map<string, Value>, shown: Option<string>, s: string)
    requires s != ""
    ensures DocText(Dict(entries["page_content" := Str(s)], shown)) == Some(s)
    ensures DocText(Obj(attrs["page_content" := Str(s)], shown)) == Some(s)
    ensures ("page_content" !in entries || !Truthy(entries["page_content"])) ==>
      DocText(Dict(entries["content" := Str(s)], shown)) == Some(s)
    ensures ("page_content" !in attrs || !Truthy(attrs["page_content"])) ==>
      DocText(Obj(attrs["content" := Str(s)], shown)) == Some(s)
    ensures "page_content" !in entries && "content" !in entries ==> DocText(Dict(entries, shown)) == Some("")
    ensures "page_content" !in attrs && "content" !in attrs ==> DocText(Obj(attrs, shown)) == shown
  {
  }

  /** The texts of all documents, in order; `None` as soon as one has none. */
  function Texts(docs: seq<Value>): Option<seq<string>> {
    if docs == [] then Some([])
    else
      match Texts(docs[..|docs| - 1])
      case None => None
      case Some(parts) =>
        match DocText(docs[|docs| - 1])
        case None => None
        case Some(t) => Some(parts + [t])
  }

  /** `sep.join(parts)`. */
  function Join(sep: string, parts: seq<string>): string {
    if parts == [] then ""
    else if |parts| == 1 then parts[0]
    else parts[0] + sep + Join(sep, parts[1..])
  }

  /** Where the `i`-th part starts in `Join(sep, parts)`. */
  function Offset(sep: string, parts: seq<string>, i: nat): nat
    requires i <= |parts|
  {
    if i == 0 then 0 else |parts[0]| + |sep| + Offset(sep, parts[1..], i - 1)
  }

  /** The context handed to the template. */
  function Context(parts: seq<string>): string {
    if parts != [] then Join(Divider, parts) else ""
  }

  /** `template.format(context=..., question=...)` for a template with no brace outside its
      fields `{context}` and `{question}`: each field is replaced by its value, the values are
      not scanned again, every other character is copied. */
  function Format(template: string, context: string, question: string): string
    decreases |template|
  {
    if template == [] then ""
    else if |template| >= 9 && template[..9] == "{context}" then
      context + Format(template[9..], context, question)
    else if |template| >= 10 && template[..10] == "{question}" then
      question + Format(template[10..], context, question)
    else [template[0]] + Format(template[1..], context, question)
  }

  /** `prompt_template.format(context=..., question=...)`. */
  function FillTemplate(context: string, question: string): string {
    Format(PromptTemplate, context, question)
  }

  /** The prompt for a query and its documents; `None` when building it raises. */
  function PromptFor(docs: seq<Value>, query: Value): Option<string> {
    match (Texts(docs), Show(query))
    case (Some(parts), Some(question)) => Some(FillTemplate(Context(parts), question))
    case _ => None
  }

  /** The outcome of one call of `simple_qa`. */
  function Qa(llm: Client, store: Store, inputs: Value): QaOutcome {
    var query := QueryOf(inputs);
    if !Truthy(query) then Answer("", [])
    else
      var docs := Retrieve(store, query);
      match PromptFor(docs, query)
      case None => QaRaised
      case Some(prompt) =>
        match Invoke(llm, prompt)
        case Ok(resp) => Answer(Normalise(resp), docs)
        case Err(message) => Answer(FailurePrefix + message, docs)
  }

  /** `simple_qa`: the context is built by appending each document's text in a loop. */
  method SimpleQa(llm: Client, store: Store, inputs: Value) returns (out: QaOutcome)
    ensures out == Qa(llm, store, inputs)
  {
    var query := QueryOf(inputs);
    if !Truthy(query) {
      return Answer("", []);
    }
    var docs := Retrieve(store, query);
    var parts: seq<string> := [];
    for i := 0 to |docs|
      invariant Texts(docs[..i]) == Some(parts)
    {
      var text := DocText(docs[i]);
      if text.None? {
        TextsAll(docs);
        return QaRaised;
      }
      assert docs[..i + 1][..i] == docs[..i];
      parts := parts + [text.value];
    }
    assert docs[..|docs|] == docs;
    var context := if parts != [] then Join(Divider, parts) else "";
    var question := Show(query);
    if question.None? {
      return QaRaised;
    }
    var resp := CallLlm(llm, FillTemplate(context, question.value));
    match resp
    case Ok(r) => out := Answer(Normalise(r), docs);
    case Err(message) => out := Answer(FailurePrefix + message, docs);
  }

  /** The texts exist exactly when every document has one, and then they are the documents'
      texts in retrieval order. */
  lemma {:induction false} TextsAll(docs: seq<Value>)
    ensures Texts(docs).Some? <==> forall i :: 0 <= i < |docs| ==> DocText(docs[i]).Some?
    ensures Texts(docs).Some? ==>
      |Texts(docs).value| == |docs| &&
      forall i :: 0 <= i < |docs| ==> Texts(docs).value[i] == DocText(docs[i]).value
    decreases |docs|
  {
    if docs != [] {
      var init := docs[..|docs| - 1];
      TextsAll(init);
      assert forall i :: 0 <= i < |init| ==> init[i] == docs[i];
    }
  }

  /** A slice of the right operand of a concatenation, read through the concatenation. */
  lemma SliceOfRight(a: string, b: string, lo: nat, hi: nat)
    requires lo <= hi <= |b|
    ensures (a + b)[|a| + lo..|a| + hi] == b[lo..hi]
  {
    assert forall k :: 0 <= k < hi - lo ==> (a + b)[|a| + lo..|a| + hi][k] == b[lo..hi][k];
  }

  /** Each part sits at its offset in the joined string, and the string ends with the last
      part. */
  lemma {:induction false} JoinPartAt(sep: string, parts: seq<string>, i: nat)
    requires i < |parts|
    ensures Offset(sep, parts, i) + |parts[i]| <= |Join(sep, parts)|
    ensures Join(sep, parts)[Offset(sep, parts, i)..Offset(sep, parts, i) + |parts[i]|] == parts[i]
    ensures i + 1 == |parts| ==> |Join(sep, parts)| == Offset(sep, parts, i) + |parts[i]|
    decreases i
  {
    if |parts| > 1 {
      var rest := parts[1..];
      var head := parts[0] + sep;
      assert Join(sep, parts) == head + Join(sep, rest);
      if i > 0 {
        JoinPartAt(sep, rest, i - 1);
        assert rest[i - 1] == parts[i];
        var o := Offset(sep, rest, i - 1);
        SliceOfRight(head, Join(sep, rest), o, o + |parts[i]|);
      }
    }
  }

  /** Two consecutive parts are separated by exactly one `sep`. */
  lemma {:induction false} JoinSeparatorAt(sep: string, parts: seq<string>, i: nat)
    requires i + 1 < |parts|
    ensures Offset(sep, parts, i + 1) == Offset(sep, parts, i) + |parts[i]| + |sep|
    ensures Offset(sep, parts, i + 1) <= |Join(sep, parts)|
    ensures Join(sep, parts)[Offset(sep, parts, i) + |parts[i]|..Offset(sep, parts, i + 1)] == sep
    decreases i
  {
    var rest := parts[1..];
    var head := parts[0] + sep;
    assert Join(sep, parts) == head + Join(sep, rest);
    if i == 0 {
      assert Join(sep, parts)[|parts[0]|..|head|] == sep;
    } else {
      JoinSeparatorAt(sep, rest, i - 1);
      assert rest[i - 1] == parts[i];
      var o := Offset(sep, rest, i - 1);
      SliceOfRight(head, Join(sep, rest), o + |parts[i]|, Offset(sep, rest, i));
    }
  }

  /** Text holding neither `{` nor `}`. */
  predicate NoBrace(s: string) {
    forall i :: 0 <= i < |s| ==> s[i] != '{' && s[i] != '}'
  }

  /** Text without a brace is copied by the formatting unchanged. */
  lemma {:induction false} FormatPlain(s: string, t: string, context: string, question: string)
    requires NoBrace(s)
    ensures Format(s + t, context, question) == s + Format(t, context, question)
    decreases |s|
  {
    if s != [] {
      var st := s + t;
      assert st[0] == s[0] && st[0] != '{';
      assert !(|st| >= 9 && st[..9] == "{context}") by {
        if |st| >= 9 { assert st[..9][0] == st[0]; }
      }
      assert !(|st| >= 10 && st[..10] == "{question}") by {
        if |st| >= 10 { assert st[..10][0] == st[0]; }
      }
      assert st[1..] == s[1..] + t;
      FormatPlain(s[1..], t, context, question);
      calc {
        Format(st, context, question);
        [st[0]] + Format(st[1..], context, question);
        [s[0]] + (s[1..] + Format(t, context, question));
        ([s[0]] + s[1..]) + Format(t, context, question);
        { assert [s[0]] + s[1..] == s; }
        s + Format(t, context, question);
      }
    } else {
      assert s + t == t;
      assert s + Format(t, context, question) == Format(t, context, question);
    }
  }

  /** Each field is replaced by its value. */
  lemma FormatFields(t: string, context: string, question: string)
    ensures Format("{context}" + t, context, question) == context + Format(t, context, question)
    ensures Format("{question}" + t, context, question) == question + Format(t, context, question)
  {
    var ct := "{context}" + t;
    assert ct[..9] == "{context}" && ct[9..] == t;
    var qt := "{question}" + t;
    assert qt[..9] != "{context}" by { assert qt[..9][1] == 'q'; }
    assert qt[..10] == "{question}" && qt[10..] == t;
  }

  lemma NoBraceConcat(a: string, b: string)
    requires NoBrace(a) && NoBrace(b)
    ensures NoBrace(a + b)
  {
    forall i | 0 <= i < |a + b| ensures (a + b)[i] != '{' && (a + b)[i] != '}' {
      if i >= |a| { assert (a + b)[i] == b[i - |a|]; }
    }
  }

  /** The handler's template is the preamble, the context field, the question label, the
      question field and the closing instruction; the three texts hold no brace. */
  lemma TemplatePieces()
    ensures PromptTemplate == Preamble + ("{context}" + (QuestionLabel + ("{question}" + Closing)))
    ensures NoBrace(Preamble) && NoBrace(QuestionLabel) && NoBrace(Closing)
  {
    NoBraceConcat("Use the following extracted passages", " from a research paper to answer the");
    NoBraceConcat("Use the following extracted passages" + " from a research paper to answer the", " question.\n\n");
    NoBraceConcat("Use the following extracted passages" + " from a research paper to answer the" + " question.\n\n", "Passages:\n");
  }

  /** A template made of texts without braces around one `{context}` and one `{question}` field is
      filled by putting the context and the question in place of the fields. */
  lemma FillFields(before: string, between: string, after: string, context: string, question: string)
    requires NoBrace(before) && NoBrace(between) && NoBrace(after)
    ensures Format(before + ("{context}" + (between + ("{question}" + after))), context, question)
         == before + context + between + question + after
  {
    var tail := "{question}" + after;
    assert Format(tail, context, question) == question + after by {
      FormatFields(after, context, question);
      FormatPlain(after, "", context, question);
      assert after + "" == after;
    }
    assert Format(between + tail, context, question) == between + (question + after) by {
      FormatPlain(between, tail, context, question);
    }
    assert Format("{context}" + (between + tail), context, question) == context + (between + (question + after)) by {
      FormatFields(between + tail, context, question);
    }
    FormatPlain(before, "{context}" + (between + tail), context, question);
  }

  /** Filling the handler's template gives the preamble, the context, the question label, the
      question and the closing instruction, in this order. */
  lemma FillTemplateLayout(context: string, question: string)
    ensures FillTemplate(context, question) == Preamble + context + QuestionLabel + question + Closing
  {
    TemplatePieces();
    FillFields(Preamble, QuestionLabel, Closing, context, question);
  }

  /** Where each piece sits in the prompt: the context right after the preamble, the question
      after the question label, the closing instruction at the end. */
  lemma PromptLayout(context: string, question: string)
    ensures var p := FillTemplate(context, question);
      var c := |Preamble|;
      var q := c + |context| + |QuestionLabel|;
      |p| == q + |question| + |Closing| &&
      p[..c] == Preamble &&
      p[c..c + |context|] == context &&
      p[c + |context|..q] == QuestionLabel &&
      p[q..q + |question|] == question &&
      p[q + |question|..] == Closing
  {
    FillTemplateLayout(context, question);
    var p := FillTemplate(context, question);
    var c := |Preamble|;
    var q := c + |context| + |QuestionLabel|;
    assert p == (((Preamble + context) + QuestionLabel) + question) + Closing;
    assert p[..c] == Preamble;
    assert p[c..c + |context|] == context;
    assert p[c + |context|..q] == QuestionLabel;
    assert p[q..q + |question|] == question;
    assert p[q + |question|..] == Closing;
  }

  /** For contexts of one length, the prompt determines the context and the question. */
  lemma PromptDeterminesFields(c1: string, q1: string, c2: string, q2: string)
    requires |c1| == |c2| && FillTemplate(c1, q1) == FillTemplate(c2, q2)
    ensures c1 == c2 && q1 == q2
  {
    PromptLayout(c1, q1);
    PromptLayout(c2, q2);
  }

  /** A falsy query (an empty string, `None`, a dict without "query", ...) is answered with
      empty text and no sources, whatever the store and the client do; whitespace is not
      falsy. */
  lemma EarlyExit(inputs: Value, entries: map<string, Value>, shown: Option<string>)
    ensures !Truthy(QueryOf(inputs)) ==>
      forall llm: Client, store: Store :: Qa(llm, store, inputs) == Answer("", [])
    ensures !Truthy(QueryOf(Str(""))) && !Truthy(QueryOf(NoneV))
    ensures "query" !in entries ==> !Truthy(QueryOf(Dict(entries, shown)))
    ensures Truthy(QueryOf(Str(" "))) && Truthy(QueryOf(Dict(map["query" := Str("\n")], shown)))
  {
  }

  /** Retrieval never raises: the similarity search's documents when it returns (the retriever
      is then not consulted), the retriever's when only the search raises, none when both raise. */
  lemma RetrievalDegrades(store: Store, query: Value, other: (Value, nat) -> Retrieval)
    ensures store.similaritySearch(query, TopK).Docs? ==>
      Retrieve(store, query) == Retrieve(Store(store.similaritySearch, other), query) ==
      store.similaritySearch(query, TopK).docs
    ensures store.similaritySearch(query, TopK).SearchRaised? && store.retrieverSearch(query, TopK).Docs? ==>
      Retrieve(store, query) == store.retrieverSearch(query, TopK).docs
    ensures store.similaritySearch(query, TopK).SearchRaised? && store.retrieverSearch(query, TopK).SearchRaised? ==>
      Retrieve(store, query) == []
  {
  }

  /** `simple_qa` raises exactly when the query is truthy and some retrieved document has no
      text or the query has no `str()`. */
  lemma QaRaisesExactly(llm: Client, store: Store, inputs: Value)
    ensures var query := QueryOf(inputs);
      var docs := Retrieve(store, query);
      Qa(llm, store, inputs).QaRaised? <==>
        Truthy(query) && (Show(query).None? || exists i :: 0 <= i < |docs| && DocText(docs[i]).None?)
  {
    TextsAll(Retrieve(store, QueryOf(inputs)));
  }

  /** Once the prompt is built, the answer always carries the retrieved documents; its text is
      the normalised response of the first strategy that answers, or the failure text with
      the fixed message when no strategy answers. Whenever the source's own normalisation
      returns a string, the answer text is that string. */
  lemma QaAnswer(llm: Client, store: Store, inputs: Value, prompt: string)
    requires Truthy(QueryOf(inputs))
    requires PromptFor(Retrieve(store, QueryOf(inputs)), QueryOf(inputs)) == Some(prompt)
    ensures Qa(llm, store, inputs).Answer?
    ensures Qa(llm, store, inputs).sources == Retrieve(store, QueryOf(inputs))
    ensures (forall k :: 0 <= k < |Strategies| ==> Attempt(llm, Strategies[k], prompt).None?) ==>
      Qa(llm, store, inputs).result == FailurePrefix + NoMethodMessage
    ensures forall k ::
      (0 <= k < |Strategies| && Attempt(llm, Strategies[k], prompt).Some? &&
       forall j :: 0 <= j < k ==> Attempt(llm, Strategies[j], prompt).None?) ==>
        Qa(llm, store, inputs).result == Normalise(Attempt(llm, Strategies[k], prompt).value)
    ensures Invoke(llm, prompt).Ok? && NormaliseAsWritten(Invoke(llm, prompt).value).Str? ==>
      Qa(llm, store, inputs).result == NormaliseAsWritten(Invoke(llm, prompt).value).s
  {
    InvokeFirstSuccess(llm, prompt);
    if Invoke(llm, prompt).Ok? {
      AsWrittenAgreement(Invoke(llm, prompt).value);
    }
  }
}
