/** The Groq provider of app/lib/modules/llm/android/providers/GroqProvider.ts: the
    API-key guard of both operations, the list of models built from the `/models`
    response (filter, then map, with the static list as the fallback when the request
    or its parsing fails), and the model instance handed out. The key lookup of the
    base provider, the HTTP request and the OpenAI client are given to the
    operations as their results. */
module Groq {
  import opened Common

  const ProviderName := "Groq"
  const BaseUrl := "https://api.groq.com/openai/v1"
  /** The token allowance given to an entry without a context window. */
  const DefaultMaxTokens := 8000
  /** Only entries whose context window is larger than this are offered. */
  const MinContextWindow := 8000

  datatype ModelInfo = ModelInfo(name: string, labelText: string, provider: string, maxTokenAllowed: int)

  /** One entry of the response's `data`; `objectType` is its `object` field, and an
      absent `context_window` is `None`. */
  datatype ModelEntry = ModelEntry(id: string, objectType: string, active: bool, contextWindow: Option<int>, ownedBy: string)

  /** What `openai(model)` returns, as the settings it is built from. */
  datatype ModelInstance = ModelInstance(baseUrl: string, apiKey: string, model: string)

  function StaticModels(): seq<ModelInfo>
  {
    [ ModelInfo("llama-3.1-8b-instant", "Llama 3.1 8b (Groq)", ProviderName, 8000),
      ModelInfo("llama-3.2-11b-vision-preview", "Llama 3.2 11b (Groq)", ProviderName, 8000),
      ModelInfo("llama-3.2-90b-vision-preview", "Llama 3.2 90b (Groq)", ProviderName, 8000),
      ModelInfo("llama-3.2-3b-preview", "Llama 3.2 3b (Groq)", ProviderName, 8000),
      ModelInfo("llama-3.2-1b-preview", "Llama 3.2 1b (Groq)", ProviderName, 8000),
      ModelInfo("llama-3.3-70b-versatile", "Llama 3.3 70b (Groq)", ProviderName, 8000),
      ModelInfo("deepseek-r1-distill-llama-70b", "Deepseek R1 Distill Llama 70b (Groq)", ProviderName, 131072) ]
  }

  /** The filter: a model object, active, with a context window above 8000. */
  predicate Kept(e: ModelEntry)
  {
    e.objectType == "model" && e.active && e.contextWindow.Some? && e.contextWindow.value > MinContextWindow
  }

  /** `res.data.filter(...)`, in response order. */
  function KeptEntries(entries: seq<ModelEntry>): (r: seq<ModelEntry>)
    ensures |r| <= |entries|
    ensures forall e :: e in r <==> e in entries && Kept(e)
  {
    if entries == [] then []
    else (if Kept(entries[0]) then [entries[0]] else []) + KeptEntries(entries[1..])
  }

  /** The filter keeps response order: filtering a concatenation filters each part in
      place. */
  lemma {:induction false} KeptEntriesAppend(a: seq<ModelEntry>, b: seq<ModelEntry>)
    ensures KeptEntries(a + b) == KeptEntries(a) + KeptEntries(b)
  {
    if a == [] {
      assert a + b == b;
    } else {
      assert (a + b)[0] == a[0];
      assert (a + b)[1..] == a[1..] + b;
      KeptEntriesAppend(a[1..], b);
    }
  }

  /** With `KeptEntriesAppend`, the filter is fixed entry by entry: one entry is kept
      exactly when it passes the test. */
  lemma KeptOne(e: ModelEntry)
    ensures KeptEntries([e]) == if Kept(e) then [e] else []
  {
    assert [e][1..] == [];
  }

  /** The context part of a label: thousands rounded down and `k`, or `N/A` when the
      window is absent or 0. */
  function ContextLabel(contextWindow: Option<int>): string
  {
    if contextWindow.None? || contextWindow.value == 0 then "N/A"
    else
      var k := contextWindow.value / 1000;
      (if k < 0 then "-" + NatToString(-k) else NatToString(k)) + "k"
  }

  /** The map applied to each kept entry. */
  function ToModelInfo(e: ModelEntry): ModelInfo
  {
    ModelInfo(
      e.id,
      e.id + " - context " + ContextLabel(e.contextWindow) + " [ by " + e.ownedBy + "]",
      ProviderName,
      if e.contextWindow.None? || e.contextWindow.value == 0 then DefaultMaxTokens else e.contextWindow.value)
  }

  /** The models offered for a response. */
  function ResponseModels(entries: seq<ModelEntry>): (r: seq<ModelInfo>)
    ensures |r| == |KeptEntries(entries)|
    ensures forall i :: 0 <= i < |r| ==> r[i] == ToModelInfo(KeptEntries(entries)[i])
  {
    var kept := KeptEntries(entries);
    seq(|kept|, i requires 0 <= i < |kept| => ToModelInfo(kept[i]))
  }

  /** For a kept entry the fallbacks never apply: the allowance is its own context
      window, and the label carries that window's thousands, rounded down, then `k`. */
  lemma KeptEntryInfo(e: ModelEntry)
    requires Kept(e)
    ensures ToModelInfo(e).maxTokenAllowed == e.contextWindow.value > MinContextWindow
    ensures ToModelInfo(e).name == e.id && ToModelInfo(e).provider == ProviderName
    ensures var k := e.contextWindow.value / 1000;
      && k * 1000 <= e.contextWindow.value < (k + 1) * 1000
      && ToModelInfo(e).labelText == e.id + " - context " + NatToString(k) + "k" + " [ by " + e.ownedBy + "]"
  {
  }

  /** Every model offered comes from a kept entry and allows more than 8000 tokens. */
  lemma ResponseModelsKept(entries: seq<ModelEntry>)
    ensures forall m :: m in ResponseModels(entries) ==>
      m.provider == ProviderName && m.maxTokenAllowed > MinContextWindow &&
      exists e :: e in entries && Kept(e) && m.name == e.id
  {
    var kept := KeptEntries(entries);
    var r := ResponseModels(entries);
    forall m | m in r
      ensures m.provider == ProviderName && m.maxTokenAllowed > MinContextWindow
      ensures exists e :: e in entries && Kept(e) && m.name == e.id
    {
      var i :| 0 <= i < |r| && r[i] == m;
      assert kept[i] in kept;
      KeptEntryInfo(kept[i]);
    }
  }

  /** `getDynamicModels`: `apiKey` is the key the base provider resolved (`""` when
      none), `response` the parsed `data` list or the failure of the request. A
      missing key is thrown before any request; a failed request yields the static
      list. */
  function GetDynamicModels(apiKey: string, response: Result<seq<ModelEntry>>): (r: Result<seq<ModelInfo>>)
    ensures apiKey == "" ==> r == Err("Missing Api Key configuration for " + ProviderName + " provider")
    ensures apiKey != "" && response.Err? ==> r == Ok(StaticModels())
    ensures apiKey != "" && response.Ok? ==> r == Ok(ResponseModels(response.value))
  {
    if apiKey == "" then Err("Missing Api Key configuration for " + ProviderName + " provider")
    else if response.Err? then Ok(StaticModels())
    else Ok(ResponseModels(response.value))
  }

  /** `getModelInstance`: a missing key is an error before the client is built; a
      failure to build it is rethrown. */
  function GetModelInstance(apiKey: string, model: string, created: Outcome): (r: Result<ModelInstance>)
    ensures apiKey == "" ==> r == Err("Missing API key for " + ProviderName + " provider")
    ensures apiKey != "" && created.Fail? ==> r == Err(created.error)
    ensures r.Ok? <==> apiKey != "" && created.Pass?
    ensures r.Ok? ==> r.value == ModelInstance(BaseUrl, apiKey, model)
  {
    if apiKey == "" then Err("Missing API key for " + ProviderName + " provider")
    else if created.Fail? then Err(created.error)
    else Ok(ModelInstance(BaseUrl, apiKey, model))
  }
}
