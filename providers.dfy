// The per-model generation settings of app/api/lib/ai/providers.ts. The
// provider clients themselves are not modelled; the option objects are
// maps from keys to values.

module Providers {
  import opened Opt

  /** A value inside a provider option object. */
  datatype OptValue = Str(s: string) | Num(n: int) | Obj(fields: map<string, OptValue>)

  /** The options of one provider. */
  type ProviderOpts = map<string, OptValue>

  const ProviderKeys: set<string> := {"neuman", "google", "openai", "xai", "anthropic"}

  const AnthropicThinking: OptValue := Obj(map["type" := Str("enabled"), "budgetTokens" := Num(12000)])
  const GoogleThinking: OptValue := Obj(map["thinkingBudget" := Num(5000)])

  /** `baseOptions`: every provider present, only Anthropic with settings. */
  const BaseOptions: map<string, ProviderOpts> := map[
    "neuman" := map[], "google" := map[], "openai" := map[], "xai" := map[],
    "anthropic" := map["thinking" := AnthropicThinking]
  ]

  /** `modelSpecificOptions[model] || {}`. */
  function ModelSpecific(model: string): (m: map<string, ProviderOpts>)
    ensures m.Keys <= ProviderKeys
  {
    if model == "neuman-default" then map["neuman" := map["reasoningEffort" := Str("high")]]
    else if model == "neuman-o4-mini" then
      map["neuman" := map["reasoningEffort" := Str("medium")], "openai" := map["reasoningEffort" := Str("medium")]]
    else if model == "neuman-google" then
      map["neuman" := map["thinkingConfig" := GoogleThinking], "google" := map["thinkingConfig" := GoogleThinking]]
    else map[]
  }

  /** `getProviderOptions`: the base options spread first, then the
      model's entries, which replace whole provider objects. */
  function GetProviderOptions(model: string): (r: map<string, ProviderOpts>)
    ensures r.Keys == ProviderKeys
    ensures forall k :: k in ProviderKeys ==>
              r[k] == (if k in ModelSpecific(model) then ModelSpecific(model)[k] else BaseOptions[k])
  {
    BaseOptions + ModelSpecific(model)
  }

  /** A model without a specific entry gets exactly the base options, and
      Anthropic's thinking budget is never overridden. */
  lemma UnlistedModelGetsBase(model: string)
    requires model != "neuman-default" && model != "neuman-o4-mini" && model != "neuman-google"
    ensures GetProviderOptions(model) == BaseOptions
    ensures GetProviderOptions(model)["anthropic"]["thinking"] == AnthropicThinking
  {
    assert BaseOptions + map[] == BaseOptions;
  }

  /** The shallow merge for o4-mini: medium effort for both the custom
      and the OpenAI provider, the others as in the base. */
  lemma O4MiniEntries()
    ensures var o := GetProviderOptions("neuman-o4-mini");
            o["neuman"] == map["reasoningEffort" := Str("medium")]
            && o["openai"] == map["reasoningEffort" := Str("medium")]
            && o["anthropic"] == BaseOptions["anthropic"] && o["google"] == map[] && o["xai"] == map[]
  {
    var m := ModelSpecific("neuman-o4-mini");
    assert "neuman" in m && "openai" in m && "anthropic" !in m && "google" !in m && "xai" !in m;
  }

  /** The Google model sets its thinking budget on the custom and the
      Google provider. */
  lemma GoogleEntries()
    ensures var o := GetProviderOptions("neuman-google");
            o["neuman"] == map["thinkingConfig" := GoogleThinking]
            && o["google"] == map["thinkingConfig" := GoogleThinking]
            && o["anthropic"] == BaseOptions["anthropic"] && o["openai"] == map[] && o["xai"] == map[]
  {
    var m := ModelSpecific("neuman-google");
    assert "neuman" in m && "google" in m && "anthropic" !in m && "openai" !in m && "xai" !in m;
  }

  /** The default model asks for high effort from the custom provider only. */
  lemma DefaultEntries()
    ensures var o := GetProviderOptions("neuman-default");
            o["neuman"] == map["reasoningEffort" := Str("high")]
            && o["anthropic"] == BaseOptions["anthropic"] && o["openai"] == map[]
            && o["google"] == map[] && o["xai"] == map[]
  {
    var m := ModelSpecific("neuman-default");
    assert "neuman" in m && "google" !in m && "anthropic" !in m && "openai" !in m && "xai" !in m;
  }

  /** `getTemperature`: 0, except undefined for 'neuman-o4-mini'. */
  function GetTemperature(model: string): (t: Option<int>)
    ensures t.None? <==> model == "neuman-o4-mini"
    ensures t.Some? ==> t.value == 0
  {
    if model != "neuman-o4-mini" then Some(0) else None
  }

  /** `getMaxSteps`. */
  function GetMaxSteps(): (n: nat)
    ensures n == 5
  {
    5
  }

  /** `AVAILABLE_MODELS`. */
  const AvailableModels: seq<string> := [
    "neuman-default", "neuman-grok-3", "neuman-vision", "neuman-4o", "neuman-4.1-nano",
    "neuman-o4-mini", "neuman-qwq", "neuman-google", "neuman-gemini", "neuman-anthropic"
  ]

  /** `isValidModel`. */
  predicate IsValidModel(model: string)
  {
    model in AvailableModels
  }

  /** Every model with a specific entry is an available model, and a model
      that is not available gets the base options. */
  lemma SpecificModelsAvailable(model: string)
    ensures ModelSpecific(model) != map[] ==> IsValidModel(model)
    ensures !IsValidModel(model) ==> GetProviderOptions(model) == BaseOptions
  {
    if !IsValidModel(model) {
      assert model != AvailableModels[0] && model != AvailableModels[5] && model != AvailableModels[7];
      UnlistedModelGetsBase(model);
    }
  }

  /** The ten available names are distinct. */
  lemma AvailableModelsDistinct()
    ensures |AvailableModels| == 10
    ensures forall i, j :: 0 <= i < j < |AvailableModels| ==> AvailableModels[i] != AvailableModels[j]
  {
    forall i, j | 0 <= i < j < |AvailableModels|
      ensures AvailableModels[i] != AvailableModels[j]
    {
      var a := AvailableModels[i];
      var b := AvailableModels[j];
      if |a| == |b| {
        assert a[7] != b[7] || a[8] != b[8] || a[9] != b[9];
      }
    }
  }
}
