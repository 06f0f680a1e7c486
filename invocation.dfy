/** Calling the language-model client (`LLMHandler._call_llm_with_prompt`): a fixed,
    ordered list of method names is tried; the first method the client has that does
    not raise gives the response; when none does, the call fails with one fixed message.
    The client is an oracle: for each method name it exposes, what calling it with a
    given argument does. */
module Invocation {
  import opened PyValues

  /** The argument a method is called with: the prompt, or (for `generate`) a one-element
      list holding it. */
  datatype Arg = Prompt(text: string) | PromptBatch(texts: seq<string>)

  /** What calling a client method does: return a response, or raise. */
  datatype Outcome = Returns(resp: Value) | Raises(message: string)

  /** The methods a client exposes (`hasattr` is key membership). */
  type Client = map<string, Arg -> Outcome>

  /** A calling strategy: a method name and whether it takes a batch of prompts. */
  datatype Strategy = Strategy(name: string, batched: bool)

  /** The methods tried, in order. */
  const Strategies: seq<Strategy> := [
    Strategy("predict", false),
    Strategy("generate", true),
    Strategy("run", false),
    Strategy("invoke", false),
    Strategy("call", false),
    Strategy("complete", false),
    Strategy("complete_prompt", false)
  ]

  /** The message of the `RuntimeError` raised when no method gives a response. */
  const NoMethodMessage: string :=
    "LLM does not expose a supported call method (predict/generate/run/invoke)."

  function ArgFor(s: Strategy, prompt: string): Arg {
    if s.batched then PromptBatch([prompt]) else Prompt(prompt)
  }

  /** The response a strategy gives: `None` when the client lacks the method or it raises. */
  function Attempt(llm: Client, s: Strategy, prompt: string): Option<Value> {
    if s.name in llm then
      match llm[s.name](ArgFor(s, prompt))
      case Returns(resp) => Some(resp)
      case Raises(_) => None
    else None
  }

  /** Trying the strategies from index `i` on. */
  function TryFrom(llm: Client, prompt: string, i: nat): Result<Value>
    requires i <= |Strategies|
    decreases |Strategies| - i
  {
    if i == |Strategies| then Err(NoMethodMessage)
    else match Attempt(llm, Strategies[i], prompt)
      case Some(resp) => Ok(resp)
      case None => TryFrom(llm, prompt, i + 1)
  }

  /** The outcome of calling the client with a prompt. */
  function Invoke(llm: Client, prompt: string): Result<Value> {
    TryFrom(llm, prompt, 0)
  }

  /** The strategies are tried one after the other, returning on the first response. */
  method CallLlm(llm: Client, prompt: string) returns (r: Result<Value>)
    ensures r == Invoke(llm, prompt)
  {
    var i := 0;
    while i < |Strategies|
      invariant 0 <= i <= |Strategies|
      invariant TryFrom(llm, prompt, i) == Invoke(llm, prompt)
    {
      var s := Strategies[i];
      if s.name in llm {
        var out := llm[s.name](ArgFor(s, prompt));
        if out.Returns? {
          return Ok(out.resp);
        }
      }
      i := i + 1;
    }
    return Err(NoMethodMessage);
  }

  /** Only `generate` is called with a batch, and it receives a list holding just the prompt. */
  lemma OnlyGenerateIsBatched(prompt: string, i: nat)
    requires i < |Strategies|
    ensures ArgFor(Strategies[i], prompt) == if Strategies[i].name == "generate" then PromptBatch([prompt]) else Prompt(prompt)
  {
  }

  lemma {:induction false} TryFromFirstSuccess(llm: Client, prompt: string, i: nat)
    requires i <= |Strategies|
    ensures TryFrom(llm, prompt, i).Ok? <==> exists k :: i <= k < |Strategies| && Attempt(llm, Strategies[k], prompt).Some?
    ensures forall k ::
      (i <= k < |Strategies| && Attempt(llm, Strategies[k], prompt).Some? &&
       forall j :: i <= j < k ==> Attempt(llm, Strategies[j], prompt).None?) ==>
        TryFrom(llm, prompt, i) == Ok(Attempt(llm, Strategies[k], prompt).value)
    ensures TryFrom(llm, prompt, i).Err? ==> TryFrom(llm, prompt, i).message == NoMethodMessage
    decreases |Strategies| - i
  {
    if i < |Strategies| {
      TryFromFirstSuccess(llm, prompt, i + 1);
    }
  }

  /** First success in order: the call gives a response exactly when some strategy gives one,
      and that response is the one of the earliest strategy that does; otherwise (every method
      absent or raising) it fails with the fixed message. */
  lemma InvokeFirstSuccess(llm: Client, prompt: string)
    ensures Invoke(llm, prompt).Ok? <==> exists k :: 0 <= k < |Strategies| && Attempt(llm, Strategies[k], prompt).Some?
    ensures forall k ::
      (0 <= k < |Strategies| && Attempt(llm, Strategies[k], prompt).Some? &&
       forall j :: 0 <= j < k ==> Attempt(llm, Strategies[j], prompt).None?) ==>
        Invoke(llm, prompt) == Ok(Attempt(llm, Strategies[k], prompt).value)
    ensures Invoke(llm, prompt).Err? <==>
      (forall k :: 0 <= k < |Strategies| ==> Attempt(llm, Strategies[k], prompt).None?)
    ensures Invoke(llm, prompt).Err? ==> Invoke(llm, prompt) == Err(NoMethodMessage)
  {
    TryFromFirstSuccess(llm, prompt, 0);
  }

  /** A method that the client lacks, or that raises on the argument its strategy passes, can be
      removed from the client without changing the outcome: skipped methods have no other effect.
      This covers method names outside the strategy list too. */
  lemma {:induction false} TryFromIgnoresFailing(llm: Client, prompt: string, name: string, i: nat)
    requires i <= |Strategies|
    requires forall k :: 0 <= k < |Strategies| && Strategies[k].name == name ==>
      Attempt(llm, Strategies[k], prompt).None?
    ensures TryFrom(llm - {name}, prompt, i) == TryFrom(llm, prompt, i)
    decreases |Strategies| - i
  {
    if i < |Strategies| {
      TryFromIgnoresFailing(llm, prompt, name, i + 1);
      assert Attempt(llm - {name}, Strategies[i], prompt) == Attempt(llm, Strategies[i], prompt);
    }
  }

  lemma InvokeIgnoresFailing(llm: Client, prompt: string, name: string)
    requires forall k :: 0 <= k < |Strategies| && Strategies[k].name == name ==>
      Attempt(llm, Strategies[k], prompt).None?
    ensures Invoke(llm - {name}, prompt) == Invoke(llm, prompt)
  {
    TryFromIgnoresFailing(llm, prompt, name, 0);
  }

  /** A client that exposes only `run` is answered through `run`. */
  lemma OnlyRunScenario(run: Arg -> Outcome, prompt: string, resp: Value)
    requires run(Prompt(prompt)) == Returns(resp)
    ensures Invoke(map["run" := run], prompt) == Ok(resp)
  {
    InvokeFirstSuccess(map["run" := run], prompt);
    assert Attempt(map["run" := run], Strategies[2], prompt) == Some(resp);
  }

  /** A client with no method at all fails with the fixed message. */
  lemma NoMethodsScenario(prompt: string)
    ensures Invoke(map[], prompt) == Err(NoMethodMessage)
  {
    InvokeFirstSuccess(map[], prompt);
  }
}
