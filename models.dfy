/**
 * benchmark/models.py: `chat_with_model` builds the request parameters and, for the
 * `x-ai/grok-3-mini-beta:<effort>` ids, rewrites them to the base model with a reasoning
 * effort. The request itself is not part of this model.
 */
module ChatModels {
  import opened Wrappers
  import opened Strings

  datatype Message = Message(role: string, content: string)

  /** The `params` dictionary; `reasoning` is the `{"effort": ...}` entry when present. */
  datatype Params = Params(model: string, messages: seq<Message>, temperature: real, maxTokens: int, reasoning: Option<string>)

  const DefaultMaxTokens: int := 4000
  const GrokBase: string := "x-ai/grok-3-mini-beta"
  const Efforts: seq<string> := ["low", "medium", "high"]

  /** The three tests of the remapping: the prefix, exactly two `:`-parts, a known effort. */
  predicate Remapped(model: string) {
    StartsWith(model, GrokBase + ":")
    && |Split(model, ':')| == 2
    && Split(model, ':')[1] in Efforts
  }

  /**
   * `chat_with_model`'s parameter construction: the caller's model, one user message, the
   * temperature and `max_tokens`; the remapping overwrites `model` and adds `reasoning`.
   */
  method BuildParams(prompt: string, model: string, maxTokens: int, temperature: real) returns (params: Params)
    ensures params.messages == [Message("user", prompt)]
    ensures params.temperature == temperature && params.maxTokens == maxTokens
    ensures params.reasoning.Some? <==> Remapped(model)
    ensures Remapped(model) ==>
      params.model == GrokBase && params.reasoning.value == Split(model, ':')[1]
    ensures !Remapped(model) ==> params.model == model
  {
    params := Params(model, [Message("user", prompt)], temperature, maxTokens, None);
    if StartsWith(model, GrokBase + ":") {
      var parts := Split(model, ':');
      if |parts| == 2 {
        var baseModel := parts[0];
        var effort := parts[1];
        if effort in Efforts {
          GrokBaseIsFirstPart(model);
          params := params.(model := baseModel, reasoning := Some(effort));
        }
      }
    }
  }

  /** A call that leaves `max_tokens` and `temperature` at their defaults, 4000 and 0. */
  method BuildDefaultParams(prompt: string, model: string) returns (params: Params)
    ensures params.maxTokens == DefaultMaxTokens && params.temperature == 0.0
    ensures params.messages == [Message("user", prompt)]
    ensures params.reasoning.Some? <==> Remapped(model)
    ensures Remapped(model) ==>
      params.model == GrokBase && params.reasoning.value == Split(model, ':')[1]
    ensures !Remapped(model) ==> params.model == model
  {
    params := BuildParams(prompt, model, DefaultMaxTokens, 0.0);
  }

  /** Under the prefix test, the first `:`-part is exactly the base model id. */
  lemma GrokBaseIsFirstPart(model: string)
    requires StartsWith(model, GrokBase + ":")
    ensures Split(model, ':') == [GrokBase] + Split(model[|GrokBase| + 1..], ':')
  {
    assert ':' !in GrokBase;
    assert model == GrokBase + [':'] + model[|GrokBase| + 1..];
    SplitAtFirst(GrokBase, ':', model[|GrokBase| + 1..]);
  }

  /**
   * The remapping happens for exactly three ids: the base model followed by `:low`,
   * `:medium` or `:high`.
   */
  lemma RemappedExactly(model: string)
    ensures Remapped(model) <==> exists e :: e in Efforts && model == GrokBase + ":" + e
  {
    if Remapped(model) {
      GrokBaseIsFirstPart(model);
      var rest := model[|GrokBase| + 1..];
      assert |Split(rest, ':')| == 1;
      JoinSplit(rest, ':');
      assert Split(rest, ':')[0] == rest;
      assert model == GrokBase + ":" + rest;
    }
    forall e | e in Efforts && model == GrokBase + ":" + e ensures Remapped(model) {
      assert ':' !in e;
      assert model == GrokBase + [':'] + e;
      SplitAtFirst(GrokBase, ':', e);
      SplitNoSep(e, ':');
    }
  }
}
