/** Normalisation of a language-model response of unknown shape into answer text
    (`LLMHandler._extract_text_from_llm_response`). The rules are tried in a fixed
    order: None, str, a generations batch, an object with `.content`, a mapping, a
    non-empty list or tuple (recursively, on its first element), and finally `str()`. */
module ResponseText {
  import opened PyValues

  /** Keys of a mapping response, in order of preference. */
  const MappingKeys: seq<string> := ["content", "text", "message", "response"]

  /** `gens[0][0]` when `gens` is a non-empty list whose first batch is non-empty.
      `None` covers every case in which the source moves on to the next rule: a
      non-list or empty `generations`, an empty first batch, and the exceptions it
      swallows (`len()` of a value without a length, indexing a dict with 0). */
  function FirstGeneration(gens: Value): Option<Value> {
    if gens.List? && gens.items != [] then
      match gens.items[0]
      case List(batch, _) => if batch != [] then Some(batch[0]) else None
      case Tuple(batch, _) => if batch != [] then Some(batch[0]) else None
      case Str(s) => if s != "" then Some(Str([s[0]])) else None
      case _ => None
    else None
  }

  /** The field of a generation that holds its text: `.text`, else `.generation_text`. */
  function GenerationField(gen0: Value): Option<Value> {
    if HasAttr(gen0, "text") then Some(gen0.attrs["text"])
    else if HasAttr(gen0, "generation_text") then Some(gen0.attrs["generation_text"])
    else None
  }

  /** The text field of the first generation of a response, when the generations rule applies. */
  function GenerationOf(resp: Value): Option<Value> {
    if HasAttr(resp, "generations") then
      match FirstGeneration(resp.attrs["generations"])
      case Some(gen0) => GenerationField(gen0)
      case None => None
    else None
  }

  /** A mapping key holds a candidate answer when it is present with a string value. */
  predicate Qualifies(entries: map<string, Value>, key: string) {
    key in entries && entries[key].Str?
  }

  /** The value of the first key of `keys` that qualifies. */
  function MappingText(entries: map<string, Value>, keys: seq<string>): Option<string>
    decreases |keys|
  {
    if keys == [] then None
    else if Qualifies(entries, keys[0]) then Some(entries[keys[0]].s)
    else MappingText(entries, keys[1..])
  }

  /** `field or ""`, as the source writes it: a truthy field is returned whatever its type. */
  function FieldAsWritten(field: Value): Value {
    if Truthy(field) then field else Str("")
  }

  /** `field or ""` made into text: a truthy field that is not a string goes through `str()`,
      the normalisation's own fallback. */
  function FieldText(field: Value): string {
    if Truthy(field) then Show(field).GetOr("") else ""
  }

  /** The normalisation as the source writes it. Its result is a string except when a
      truthy non-string `.text`, `.generation_text` or `.content` is passed through. */
  function NormaliseAsWritten(resp: Value): (r: Value)
    ensures r.Str? || Truthy(r)
  {
    if resp.NoneV? then Str("")
    else if resp.Str? then resp
    else
      var gen := GenerationOf(resp);
      if gen.Some? then FieldAsWritten(gen.value)
      else if HasAttr(resp, "content") then FieldAsWritten(resp.attrs["content"])
      else if resp.Dict? && MappingText(resp.entries, MappingKeys).Some? then
        Str(MappingText(resp.entries, MappingKeys).value)
      else if (resp.List? || resp.Tuple?) && resp.items != [] then NormaliseAsWritten(resp.items[0])
      else Str(Show(resp).GetOr(""))
  }

  /** The normalisation with every rule producing text; the rest of the model uses this one. */
  function Normalise(resp: Value): string {
    if resp.NoneV? then ""
    else if resp.Str? then resp.s
    else
      var gen := GenerationOf(resp);
      if gen.Some? then FieldText(gen.value)
      else if HasAttr(resp, "content") then FieldText(resp.attrs["content"])
      else if resp.Dict? && MappingText(resp.entries, MappingKeys).Some? then
        MappingText(resp.entries, MappingKeys).value
      else if (resp.List? || resp.Tuple?) && resp.items != [] then Normalise(resp.items[0])
      else Show(resp).GetOr("")
  }

  /** `None` gives the empty string, a string is its own text, an empty list, tuple or dict
      gives its `str()`, and a value with no rule (a scalar, an object with neither
      `generations` nor `content`) gives `str()` or "" when that raises. */
  lemma NormaliseBasics(s: string, shown: Option<string>, t: bool, attrs: map<string, Value>)
    ensures Normalise(NoneV) == ""
    ensures Normalise(Str(s)) == s
    ensures Normalise(List([], shown)) == "[]" && Normalise(Tuple([], shown)) == "()"
    ensures Normalise(Dict(map[], shown)) == "{}"
    ensures Normalise(Other(t, shown)) == shown.GetOr("")
    ensures "generations" !in attrs && "content" !in attrs ==> Normalise(Obj(attrs, shown)) == shown.GetOr("")
  {
  }

  /** The mapping rule returns the value of the first key, in the given order, that holds a
      string; keys that are absent or hold other values are skipped; with no such key there
      is no answer from this rule. */
  lemma {:induction false} MappingTextFirst(entries: map<string, Value>, keys: seq<string>, t: string)
    ensures MappingText(entries, keys) == Some(t) <==>
      exists i :: 0 <= i < |keys| && Qualifies(entries, keys[i]) && entries[keys[i]] == Str(t) &&
        forall j :: 0 <= j < i ==> !Qualifies(entries, keys[j])
    ensures MappingText(entries, keys).None? <==> forall i :: 0 <= i < |keys| ==> !Qualifies(entries, keys[i])
    decreases |keys|
  {
    if keys != [] {
      MappingTextFirst(entries, keys[1..], t);
      if MappingText(entries, keys) == Some(t) && !Qualifies(entries, keys[0]) {
        var i :| 0 <= i < |keys[1..]| && Qualifies(entries, keys[1..][i]) && entries[keys[1..][i]] == Str(t) &&
          forall j :: 0 <= j < i ==> !Qualifies(entries, keys[1..][j]);
        assert Qualifies(entries, keys[i + 1]) && entries[keys[i + 1]] == Str(t);
        assert forall j :: 0 <= j < i + 1 ==> !Qualifies(entries, keys[j]) by {
          forall j | 0 < j < i + 1 ensures !Qualifies(entries, keys[j]) {
            assert keys[j] == keys[1..][j - 1];
          }
        }
      }
      if exists i :: 0 <= i < |keys| && Qualifies(entries, keys[i]) && entries[keys[i]] == Str(t) &&
          forall j :: 0 <= j < i ==> !Qualifies(entries, keys[j])
      {
        var i :| 0 <= i < |keys| && Qualifies(entries, keys[i]) && entries[keys[i]] == Str(t) &&
          forall j :: 0 <= j < i ==> !Qualifies(entries, keys[j]);
        if i > 0 {
          assert keys[1..][i - 1] == keys[i];
          assert forall j :: 0 <= j < i - 1 ==> !Qualifies(entries, keys[1..][j]) by {
            forall j | 0 <= j < i - 1 ensures !Qualifies(entries, keys[1..][j]) {
              assert keys[1..][j] == keys[j + 1];
            }
          }
        }
      }
      if forall i :: 0 <= i < |keys| ==> !Qualifies(entries, keys[i]) {
        forall i | 0 <= i < |keys[1..]| ensures !Qualifies(entries, keys[1..][i]) {
          assert keys[1..][i] == keys[i + 1];
        }
      }
    }
  }

  /** A mapping response normalises to the value of its first qualifying key in the order
      `content`, `text`, `message`, `response`, and to its `str()` when none qualifies
      ("{}" for an empty mapping). */
  lemma MappingResponse(entries: map<string, Value>, shown: Option<string>)
    ensures MappingText(entries, MappingKeys).Some? ==>
      Normalise(Dict(entries, shown)) == MappingText(entries, MappingKeys).value
    ensures (forall i :: 0 <= i < |MappingKeys| ==> !Qualifies(entries, MappingKeys[i])) ==>
      Normalise(Dict(entries, shown)) == if entries == map[] then "{}" else shown.GetOr("")
  {
    MappingTextFirst(entries, MappingKeys, "");
  }

  /** A generations response whose first batch (a list or a tuple) is non-empty answers with
      its first generation's `.text`, or `.generation_text` when `.text` is absent; a falsy
      field gives "". */
  lemma GenerationResponse(attrs: map<string, Value>, shown: Option<string>, batches: seq<Value>,
                           bshown: Option<string>, gen0: Value)
    requires "generations" in attrs && attrs["generations"] == List(batches, bshown)
    requires batches != [] && (batches[0].List? || batches[0].Tuple?)
    requires batches[0].items != [] && batches[0].items[0] == gen0
    ensures HasAttr(gen0, "text") ==> Normalise(Obj(attrs, shown)) == FieldText(gen0.attrs["text"])
    ensures !HasAttr(gen0, "text") && HasAttr(gen0, "generation_text") ==>
      Normalise(Obj(attrs, shown)) == FieldText(gen0.attrs["generation_text"])
    ensures HasAttr(gen0, "text") && !Truthy(gen0.attrs["text"]) ==> Normalise(Obj(attrs, shown)) == ""
  {
  }

  /** When `generations` does not have the expected shape (or reading it would raise), the
      response is normalised exactly as if it had no `generations` attribute. */
  lemma GenerationsFallThrough(attrs: map<string, Value>, shown: Option<string>)
    requires "generations" in attrs && GenerationOf(Obj(attrs, shown)).None?
    ensures Normalise(Obj(attrs, shown)) == Normalise(Obj(attrs - {"generations"}, shown))
  {
    assert !HasAttr(Obj(attrs - {"generations"}, shown), "generations");
  }

  /** A non-empty list or tuple normalises to the same text as its first element. */
  lemma FirstElement(items: seq<Value>, shown: Option<string>)
    requires items != []
    ensures Normalise(List(items, shown)) == Normalise(items[0])
    ensures Normalise(Tuple(items, shown)) == Normalise(items[0])
  {
  }

  /** One level of wrapping: a list or a tuple whose first element is the wrapped value,
      followed by any other elements. */
  datatype Layer = Layer(isTuple: bool, tail: seq<Value>, shown: Option<string>)

  /** `v` wrapped in the given layers, the outermost first. */
  function Wrap(v: Value, layers: seq<Layer>): Value
    decreases |layers|
  {
    if layers == [] then v
    else
      var inner := Wrap(v, layers[1..]);
      var l := layers[0];
      if l.isTuple then Tuple([inner] + l.tail, l.shown) else List([inner] + l.tail, l.shown)
  }

  /** The list rule peels any depth of nesting: a value that is the first element of the
      first element ... of nested lists and tuples normalises to the same text as the value
      itself, whatever the other elements are. */
  lemma {:induction false} NestedNormalise(v: Value, layers: seq<Layer>)
    ensures Normalise(Wrap(v, layers)) == Normalise(v)
    decreases |layers|
  {
    if layers != [] {
      NestedNormalise(v, layers[1..]);
      var inner := Wrap(v, layers[1..]);
      FirstElement([inner] + layers[0].tail, layers[0].shown);
    }
  }

  /** The as-written and the corrected normalisation agree whenever the source returns a
      string; otherwise the source returns a truthy non-string field `w` unchanged and the
      corrected version gives its `str()`. */
  lemma {:induction false} AsWrittenAgreement(resp: Value)
    ensures var w := NormaliseAsWritten(resp);
      if w.Str? then w.s == Normalise(resp)
      else Truthy(w) && Normalise(resp) == Show(w).GetOr("")
  {
    if (resp.List? || resp.Tuple?) && resp.items != [] {
      AsWrittenAgreement(resp.items[0]);
    }
  }

  /** A chat message whose `.content` is a list of content blocks. */
  const BlockList: Value :=
    List([Dict(map["type" := Str("text"), "text" := Str("hi")], Some("{'type': 'text', 'text': 'hi'}"))],
         Some("[{'type': 'text', 'text': 'hi'}]"))
  const BlockMessage: Value := Obj(map["content" := BlockList], Some("content=[...]"))

  /** The source's text extraction returns the block list itself, not text; the corrected
      normalisation returns its `str()`. */
  lemma ContentListIsNotText()
    ensures NormaliseAsWritten(BlockMessage) == BlockList && !NormaliseAsWritten(BlockMessage).Str?
    ensures Normalise(BlockMessage) == "[{'type': 'text', 'text': 'hi'}]"
  {
  }

  /** A mapping `{"text": "Answer body"}` normalises to "Answer body". */
  lemma TextMappingScenario(shown: Option<string>)
    ensures Normalise(Dict(map["text" := Str("Answer body")], shown)) == "Answer body"
  {
    var e := map["text" := Str("Answer body")];
    assert !Qualifies(e, MappingKeys[0]) && Qualifies(e, MappingKeys[1]);
  }
}
