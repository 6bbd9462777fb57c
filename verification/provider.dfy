/**
 The provider record of internal/config/provider.go and its defaulting rule.
 Go's `int` timeout is modelled as an unbounded `int`: the rule only compares
 it with zero and never does arithmetic on it.
 */
module Providers {

  /** One configured API provider. `timeout` is in milliseconds. */
  datatype Provider = Provider(
    name: string,
    alias: string,
    baseUrl: string,
    apiKey: string,
    model: string,
    smallModel: string,
    sonnetModel: string,
    opusModel: string,
    haikuModel: string,
    timeout: int)

  /** Five minutes, the timeout given to a provider that names a main model but no timeout. */
  const DefaultTimeout: int := 300000

  /** A field that is left empty inherits the main model. */
  function Inherit(field: string, model: string): string {
    if field == "" then model else field
  }

  /**
   The defaulting rule applied by the store on every add and update. It does
   nothing at all when no main model is set, so in that case a zero timeout
   stays zero.
   */
  function FillDefaults(p: Provider): (r: Provider)
    // identity fields are never touched
    ensures r.name == p.name && r.alias == p.alias && r.baseUrl == p.baseUrl
    ensures r.apiKey == p.apiKey && r.model == p.model
    // without a main model the provider is returned as it is
    ensures p.model == "" ==> r == p
    // with a main model, every role model is set and the timeout is non-zero
    ensures p.model != "" ==>
              r.smallModel != "" && r.sonnetModel != "" && r.opusModel != "" &&
              r.haikuModel != "" && r.timeout != 0
    // a role model that was already set is kept; an empty one becomes the main model
    ensures p.smallModel != "" ==> r.smallModel == p.smallModel
    ensures p.sonnetModel != "" ==> r.sonnetModel == p.sonnetModel
    ensures p.opusModel != "" ==> r.opusModel == p.opusModel
    ensures p.haikuModel != "" ==> r.haikuModel == p.haikuModel
    ensures p.smallModel == "" ==> r.smallModel == p.model
    ensures p.sonnetModel == "" ==> r.sonnetModel == p.model
    ensures p.opusModel == "" ==> r.opusModel == p.model
    ensures p.haikuModel == "" ==> r.haikuModel == p.model
    // any non-zero timeout, negative ones included, is kept
    ensures p.timeout != 0 ==> r.timeout == p.timeout
    ensures p.model != "" && p.timeout == 0 ==> r.timeout == DefaultTimeout
  {
    if p.model == "" then p
    else
      p.(smallModel := Inherit(p.smallModel, p.model),
         sonnetModel := Inherit(p.sonnetModel, p.model),
         opusModel := Inherit(p.opusModel, p.model),
         haikuModel := Inherit(p.haikuModel, p.model),
         timeout := if p.timeout == 0 then DefaultTimeout else p.timeout)
  }

  /** A provider the defaulting rule has nothing left to do for. */
  predicate Defaulted(p: Provider) {
    p.model == "" ||
    (p.smallModel != "" && p.sonnetModel != "" && p.opusModel != "" &&
     p.haikuModel != "" && p.timeout != 0)
  }

  /** The fixed points of FillDefaults are exactly the defaulted providers. */
  lemma FillDefaultsFixedPoints(p: Provider)
    ensures FillDefaults(p) == p <==> Defaulted(p)
    ensures Defaulted(FillDefaults(p))
  {
  }

  /** Applying the rule twice is the same as applying it once. */
  lemma FillDefaultsIdempotent(p: Provider)
    ensures FillDefaults(FillDefaults(p)) == FillDefaults(p)
  {
    FillDefaultsFixedPoints(p);
    FillDefaultsFixedPoints(FillDefaults(p));
  }
}
