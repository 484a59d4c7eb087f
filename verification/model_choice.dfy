/**
 * The preference chain of `get_available_model` in app.py. Listing the models
 * is a call to the LLM service and is a parameter here: None when the listing
 * raised, otherwise the listed models.
 */
module ModelChoice {
  import opened Wrappers
  import opened Text
  import opened Lists

  /** A listed model: its name and its `supported_generation_methods`. */
  datatype ModelInfo = ModelInfo(name: string, methods: seq<string>)

  const GENERATE_CONTENT: string := "generateContent"
  /** The name fragments tried in order: 1.5 Flash, 2.0 Flash, 1.5 Pro, generic Pro. */
  const PREFERENCES: seq<string> := ["gemini-1.5-flash", "gemini-2.0-flash", "gemini-1.5-pro", "gemini-pro"]
  const FALLBACK_MODEL: string := "gemini-pro"

  predicate CanGenerate(m: ModelInfo) {
    GENERATE_CONTENT in m.methods
  }

  /** `[m for m in all_models if 'generateContent' in m.supported_generation_methods]` */
  function ValidModels(all: seq<ModelInfo>): (r: seq<ModelInfo>)
    ensures forall m :: m in r <==> m in all && CanGenerate(m)
  {
    Filter(all, CanGenerate)
  }

  /** No model of `models` has `pattern` in its name. */
  predicate NoneNamed(models: seq<ModelInfo>, pattern: string) {
    forall i :: 0 <= i < |models| ==> !Contains(pattern, models[i].name)
  }

  /** `next((m for m in models if pattern in m.name), None)` */
  function FirstNamed(models: seq<ModelInfo>, pattern: string): (r: Option<ModelInfo>)
    ensures r.None? <==> NoneNamed(models, pattern)
    ensures r.Some? ==> exists i :: 0 <= i < |models| && models[i] == r.value && Contains(pattern, r.value.name)
                          && NoneNamed(models[..i], pattern)
  {
    match FindFirst(models, (m: ModelInfo) => Contains(pattern, m.name))
    case None => None
    case Some(i) =>
      assert NoneNamed(models[..i], pattern) by {
        forall j | 0 <= j < i ensures !Contains(pattern, models[..i][j].name) {
          assert models[..i][j] == models[j];
        }
      }
      Some(models[i])
  }

  /**
   * The preference chain: the first pattern of `prefs` that some model's name
   * contains selects the first such model; when no pattern matches, the first
   * model is taken, if there is one.
   */
  function PreferenceChain(models: seq<ModelInfo>, prefs: seq<string>): (r: Option<ModelInfo>)
    ensures r.Some? ==> r.value in models
    ensures r.None? <==> models == []
  {
    if prefs == [] then (if models == [] then None else Some(models[0]))
    else match FirstNamed(models, prefs[0])
      case Some(m) => Some(m)
      case None => PreferenceChain(models, prefs[1..])
  }

  /**
   * `get_available_model`: the chain over the valid models, and "gemini-pro"
   * when nothing is valid or the listing failed. Whenever some listed model
   * supports generation, the result is the name of such a model.
   */
  function PickModel(listing: Option<seq<ModelInfo>>): (name: string)
    ensures listing.None? ==> name == FALLBACK_MODEL
    ensures listing.Some? && ValidModels(listing.value) == [] ==> name == FALLBACK_MODEL
    ensures listing.Some? && ValidModels(listing.value) != [] ==>
              exists i :: 0 <= i < |listing.value| && CanGenerate(listing.value[i]) && listing.value[i].name == name
  {
    match listing
    case None => FALLBACK_MODEL
    case Some(all) =>
      match PreferenceChain(ValidModels(all), PREFERENCES)
      case Some(m) => m.name
      case None => FALLBACK_MODEL
  }

  /**
   * The chain picks by preference: when preference `k` is the first one some
   * model matches, the result is the first model (in listing order) matching it.
   */
  lemma {:induction false} ChainPicksEarliestPreference(models: seq<ModelInfo>, prefs: seq<string>, k: nat)
    requires k < |prefs|
    requires forall j :: 0 <= j < k ==> NoneNamed(models, prefs[j])
    requires !NoneNamed(models, prefs[k])
    ensures PreferenceChain(models, prefs) == FirstNamed(models, prefs[k])
    ensures PreferenceChain(models, prefs).Some?
  {
    if k > 0 {
      assert NoneNamed(models, prefs[0]);
      ChainPicksEarliestPreference(models, prefs[1..], k - 1);
    }
  }

  /** When no model matches any preference, the chain falls back to the first model, if any. */
  lemma {:induction false} ChainFallsBack(models: seq<ModelInfo>, prefs: seq<string>)
    requires forall j :: 0 <= j < |prefs| ==> NoneNamed(models, prefs[j])
    ensures PreferenceChain(models, prefs) == if models == [] then None else Some(models[0])
  {
    if prefs != [] {
      assert NoneNamed(models, prefs[0]);
      ChainFallsBack(models, prefs[1..]);
    }
  }

  /** A listed 1.5 Flash model that supports generation always wins, whatever else is listed. */
  lemma FlashPreferred(all: seq<ModelInfo>, i: nat)
    requires i < |all| && CanGenerate(all[i]) && Contains("gemini-1.5-flash", all[i].name)
    ensures Contains("gemini-1.5-flash", PickModel(Some(all)))
  {
    var valid := ValidModels(all);
    assert all[i] in valid;
    ChainPicksEarliestPreference(valid, PREFERENCES, 0);
  }

  /**
   * `get_available_model` over a successful listing: when preference `k` is
   * the first one some valid model's name contains, the pick is the first
   * valid model (in listing order) whose name contains it.
   */
  lemma PickPrefersEarliest(all: seq<ModelInfo>, k: nat)
    requires k < |PREFERENCES|
    requires forall j :: 0 <= j < k ==> NoneNamed(ValidModels(all), PREFERENCES[j])
    requires !NoneNamed(ValidModels(all), PREFERENCES[k])
    ensures FirstNamed(ValidModels(all), PREFERENCES[k]).Some?
    ensures PickModel(Some(all)) == FirstNamed(ValidModels(all), PREFERENCES[k]).value.name
  {
    ChainPicksEarliestPreference(ValidModels(all), PREFERENCES, k);
  }

  /**
   * `get_available_model` over a successful listing in which no valid model
   * matches any preference: the pick is the first valid model, or the
   * fallback when there is none.
   */
  lemma PickFallsBackToFirstValid(all: seq<ModelInfo>)
    requires forall j :: 0 <= j < |PREFERENCES| ==> NoneNamed(ValidModels(all), PREFERENCES[j])
    ensures PickModel(Some(all)) == if ValidModels(all) == [] then FALLBACK_MODEL else ValidModels(all)[0].name
  {
    ChainFallsBack(ValidModels(all), PREFERENCES);
  }

  /**
   * `get_api_key`: the secret GEMINI_API_KEY when the secrets hold that key
   * (even when its value is empty), otherwise the environment's API_KEY, if
   * set. The order is the reverse of the SMTP settings, which consult the
   * environment first.
   */
  function ApiKey(env: map<string, string>, secrets: map<string, string>): (r: Option<string>)
    ensures "GEMINI_API_KEY" in secrets ==> r == Some(secrets["GEMINI_API_KEY"])
    ensures "GEMINI_API_KEY" !in secrets && "API_KEY" in env ==> r == Some(env["API_KEY"])
    ensures r.None? <==> "GEMINI_API_KEY" !in secrets && "API_KEY" !in env
  {
    if "GEMINI_API_KEY" in secrets then Some(secrets["GEMINI_API_KEY"])
    else if "API_KEY" in env then Some(env["API_KEY"])
    else None
  }
}
