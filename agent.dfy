/**
  The agent itself: the table from menu names to model names, the routing of a
  step to a provider endpoint, the two counters, and one step of the loop
  (history hygiene, the provider call, recovery of the directive and the
  response blocks).
*/
module Agent {
  import opened Wrappers
  import opened Text
  import opened PyJson
  import Extractor
  import Repair
  import Actions
  import History

  // ---------------------------------------------------------------------------
  // Model names

  /** The menu entries the agent accepts, and the model name each stands for. */
  const MenuTable: map<string, string> := map[
    "omniparser + gpt-4o" := "gpt-4o-2024-11-20",
    "omniparser + R1" := "deepseek-r1-distill-llama-70b",
    "omniparser + qwen2.5vl" := "qwen2.5-vl-72b-instruct",
    "omniparser + qwen2.5vl-local" := "qwen2.5vl:3b",
    "omniparser + o1" := "o1",
    "omniparser + o3-mini" := "o3-mini",
    "omniparser + gemini-2.5-flash" := "gemini-2.5-flash"
  ]

  /** The model name a menu entry stands for; `ValueError` for any other entry. */
  function ResolveModel(name: string): (r: Result<string, PyError>)
    ensures r.Ok? <==> name in MenuTable
    ensures r.Ok? ==> r.value == MenuTable[name]
    ensures r.Err? ==> r.error == ValueError("Model " + name + " not supported")
    ensures r.Ok? ==> StartsWith(name, "omniparser + ")
  {
    if name == "omniparser + gpt-4o" then Ok("gpt-4o-2024-11-20")
    else if name == "omniparser + R1" then Ok("deepseek-r1-distill-llama-70b")
    else if name == "omniparser + qwen2.5vl" then Ok("qwen2.5-vl-72b-instruct")
    else if name == "omniparser + qwen2.5vl-local" then Ok("qwen2.5vl:3b")
    else if name == "omniparser + o1" then Ok("o1")
    else if name == "omniparser + o3-mini" then Ok("o3-mini")
    else if name == "omniparser + gemini-2.5-flash" then Ok("gemini-2.5-flash")
    else Err(ValueError("Model " + name + " not supported"))
  }

  // ---------------------------------------------------------------------------
  // Routing

  datatype Endpoint = OpenAI | Groq | DashScope | Gemini | Ollama

  /** The request a step sends: where, with which key, and with which output budget. */
  datatype Call = Call(endpoint: Endpoint, baseUrl: Option<string>, apiKey: string, maxTokens: int, temperatureZero: bool)

  function Min(a: int, b: int): int {
    if a <= b then a else b
  }

  /** The base URL each endpoint is called with (`None`: the client's default). */
  function BaseUrl(e: Endpoint): Option<string> {
    match e
    case OpenAI => Some("https://api.openai.com/v1")
    case Groq => None
    case DashScope => Some("https://dashscope.aliyuncs.com/compatible-mode/v1")
    case Gemini => None
    case Ollama => Some("http://localhost:11434/v1")
  }

  /** The substrings that send a model to OpenAI, whatever the provider. */
  predicate OpenAIFamily(model: string) {
    Contains(model, "gpt") || Contains(model, "o1") || Contains(model, "o3-mini")
  }

  /**
    The first matching branch, by substring of the model name and by provider:
    "gpt", "o1" or "o3-mini" go to OpenAI; "r1" to Groq; "qwen" (unless the
    provider is "local") to DashScope; "gemini" to Gemini; then provider "local"
    to Ollama. The last three clamp the output budget to 2048.
  */
  function Route(model: string, provider: string, apiKey: string, maxTokens: int): (r: Result<Call, PyError>)
    ensures r.Err? <==>
      !Contains(model, "gpt") && !Contains(model, "o1") && !Contains(model, "o3-mini") && !Contains(model, "r1")
      && !(Contains(model, "qwen") && provider != "local") && !Contains(model, "gemini") && provider != "local"
    ensures r.Err? ==> r.error == ValueError("Model " + model + " not supported")
    ensures OpenAIFamily(model) ==> r.Ok? && r.value.endpoint == OpenAI
    ensures r.Ok? && r.value.endpoint == Groq <==> !OpenAIFamily(model) && Contains(model, "r1")
    ensures r.Ok? && r.value.endpoint == DashScope ==> Contains(model, "qwen") && provider != "local"
    ensures r.Ok? && r.value.endpoint == Gemini ==> Contains(model, "gemini") && !(Contains(model, "qwen") && provider != "local")
    ensures r.Ok? && r.value.endpoint == Ollama <==>
      provider == "local" && !OpenAIFamily(model) && !Contains(model, "r1") && !Contains(model, "gemini")
    ensures r.Ok? ==> r.value.maxTokens == (if r.value.endpoint in {OpenAI, Groq} then maxTokens else Min(2048, maxTokens))
    ensures r.Ok? ==> r.value.maxTokens <= maxTokens && r.value.maxTokens <= (if r.value.endpoint in {OpenAI, Groq} then maxTokens else 2048)
    ensures r.Ok? ==> r.value.baseUrl == BaseUrl(r.value.endpoint) && (r.value.temperatureZero <==> r.value.endpoint != Groq)
    ensures r.Ok? ==> (r.value.apiKey == apiKey <==> r.value.endpoint != Ollama || apiKey == "dummy")
  {
    if Contains(model, "gpt") || Contains(model, "o1") || Contains(model, "o3-mini") then
      Ok(Call(OpenAI, Some("https://api.openai.com/v1"), apiKey, maxTokens, true))
    else if Contains(model, "r1") then
      Ok(Call(Groq, None, apiKey, maxTokens, false))
    else if Contains(model, "qwen") && provider != "local" then
      Ok(Call(DashScope, Some("https://dashscope.aliyuncs.com/compatible-mode/v1"), apiKey, Min(2048, maxTokens), true))
    else if Contains(model, "gemini") then
      Ok(Call(Gemini, None, apiKey, Min(2048, maxTokens), true))
    else if provider == "local" then
      Ok(Call(Ollama, Some("http://localhost:11434/v1"), "dummy", Min(2048, maxTokens), true))
    else
      Err(ValueError("Model " + model + " not supported"))
  }

  /** No occurrence of `p` in `s` when no position of `s` holds the first two characters of `p`. */
  lemma AbsentPair(s: string, p: string)
    requires |p| >= 2
    requires forall k :: 0 <= k < |s| - 1 ==> !(s[k] == p[0] && s[k + 1] == p[1])
    ensures !Contains(s, p)
  {
    forall i: nat | i <= |s| ensures !OccursAt(s, p, i) {
      if i + |p| <= |s| {
        assert s[i..i + |p|][0] == s[i] && s[i..i + |p|][1] == s[i + 1];
      }
    }
  }

  lemma PrefixOccurs(s: string, p: string)
    requires StartsWith(s, p)
    ensures Contains(s, p)
  {
    assert OccursAt(s, p, 0);
  }

  /** The local Qwen model goes to Ollama under provider "local", and to DashScope under any other. */
  lemma LocalQwenRoutesLocally(apiKey: string, maxTokens: int)
    ensures Route("qwen2.5vl:3b", "local", apiKey, maxTokens) ==
      Ok(Call(Ollama, Some("http://localhost:11434/v1"), "dummy", Min(2048, maxTokens), true))
    ensures forall provider :: provider != "local" ==>
      Route("qwen2.5vl:3b", provider, apiKey, maxTokens).Ok? &&
      Route("qwen2.5vl:3b", provider, apiKey, maxTokens).value.endpoint == DashScope
  {
    var m := "qwen2.5vl:3b";
    AbsentPair(m, "gpt");
    AbsentPair(m, "o1");
    AbsentPair(m, "o3-mini");
    AbsentPair(m, "r1");
    AbsentPair(m, "gemini");
    PrefixOccurs(m, "qwen");
  }

  /** The model name holds one of the substrings that pick a provider-independent endpoint, or "qwen". */
  predicate KnownFamily(model: string) {
    Contains(model, "gpt") || Contains(model, "o1") || Contains(model, "o3-mini") || Contains(model, "r1")
    || Contains(model, "qwen") || Contains(model, "gemini")
  }

  /** A known family is routed under any provider (a Qwen model under "local" goes to Ollama). */
  lemma FamilyRoutes(model: string, provider: string, apiKey: string, maxTokens: int)
    requires KnownFamily(model)
    ensures Route(model, provider, apiKey, maxTokens).Ok?
  {
  }

  /** Each model id of the table belongs to a known family. */
  lemma TableModelsKnown(name: string)
    requires ResolveModel(name).Ok?
    ensures KnownFamily(ResolveModel(name).value)
  {
    var m := ResolveModel(name).value;
    if m == "gpt-4o-2024-11-20" {
      PrefixOccurs(m, "gpt");
    } else if m == "deepseek-r1-distill-llama-70b" {
      assert OccursAt(m, "r1", 9);
    } else if m == "qwen2.5-vl-72b-instruct" || m == "qwen2.5vl:3b" {
      PrefixOccurs(m, "qwen");
    } else if m == "o1" {
      PrefixOccurs(m, "o1");
    } else if m == "o3-mini" {
      PrefixOccurs(m, "o3-mini");
    } else {
      assert m == "gemini-2.5-flash";
      PrefixOccurs(m, "gemini");
    }
  }

  /** Every model of the table is served under any provider: none raises `ValueError`. */
  lemma TableModelsRoute(name: string, provider: string, apiKey: string, maxTokens: int)
    requires ResolveModel(name).Ok?
    ensures Route(ResolveModel(name).value, provider, apiKey, maxTokens).Ok?
  {
    TableModelsKnown(name);
    FamilyRoutes(ResolveModel(name).value, provider, apiKey, maxTokens);
  }

  /**
    The endpoint each menu entry reaches: OpenAI for GPT-4o, o1 and o3-mini,
    Groq for R1, Gemini for Gemini, and both Qwen entries DashScope unless the
    provider is "local", which sends them to Ollama.
  */
  lemma TableEndpoints(name: string, provider: string, apiKey: string, maxTokens: int)
    requires name in MenuTable
    ensures var r := Route(MenuTable[name], provider, apiKey, maxTokens);
      && r.Ok?
      && r.value.endpoint == (
        if name in {"omniparser + gpt-4o", "omniparser + o1", "omniparser + o3-mini"} then OpenAI
        else if name == "omniparser + R1" then Groq
        else if name == "omniparser + gemini-2.5-flash" then Gemini
        else if provider == "local" then Ollama
        else DashScope)
  {
    var m := MenuTable[name];
    if name in {"omniparser + gpt-4o", "omniparser + o1", "omniparser + o3-mini"} {
      OpenAIModelsRoute(m, provider, apiKey, maxTokens);
    } else if name == "omniparser + R1" {
      R1Routes(provider, apiKey, maxTokens);
    } else if name == "omniparser + gemini-2.5-flash" {
      GeminiRoutes(provider, apiKey, maxTokens);
    } else {
      QwenModelsRoute(m, provider, apiKey, maxTokens);
    }
  }

  lemma OpenAIModelsRoute(m: string, provider: string, apiKey: string, maxTokens: int)
    requires m in {"gpt-4o-2024-11-20", "o1", "o3-mini"}
    ensures Route(m, provider, apiKey, maxTokens).Ok? && Route(m, provider, apiKey, maxTokens).value.endpoint == OpenAI
  {
    if m == "gpt-4o-2024-11-20" {
      PrefixOccurs(m, "gpt");
    } else if m == "o1" {
      PrefixOccurs(m, "o1");
    } else {
      PrefixOccurs(m, "o3-mini");
    }
  }

  /** No OpenAI substring in a model id with no "gp", "o1" or "o3" in it. */
  lemma NotOpenAI(m: string)
    requires forall k :: 0 <= k < |m| - 1 ==> !(m[k] == 'g' && m[k + 1] == 'p')
    requires forall k :: 0 <= k < |m| - 1 ==> !(m[k] == 'o' && (m[k + 1] == '1' || m[k + 1] == '3'))
    ensures !OpenAIFamily(m)
  {
    AbsentPair(m, "gpt");
    AbsentPair(m, "o1");
    AbsentPair(m, "o3-mini");
  }

  lemma R1Routes(provider: string, apiKey: string, maxTokens: int)
    ensures Route("deepseek-r1-distill-llama-70b", provider, apiKey, maxTokens).Ok?
      && Route("deepseek-r1-distill-llama-70b", provider, apiKey, maxTokens).value.endpoint == Groq
  {
    var m := "deepseek-r1-distill-llama-70b";
    NotOpenAI(m);
    assert OccursAt(m, "r1", 9);
  }

  lemma GeminiRoutes(provider: string, apiKey: string, maxTokens: int)
    ensures Route("gemini-2.5-flash", provider, apiKey, maxTokens).Ok?
      && Route("gemini-2.5-flash", provider, apiKey, maxTokens).value.endpoint == Gemini
  {
    var m := "gemini-2.5-flash";
    NotOpenAI(m);
    AbsentPair(m, "r1");
    AbsentPair(m, "qwen");
    PrefixOccurs(m, "gemini");
  }

  lemma QwenModelsRoute(m: string, provider: string, apiKey: string, maxTokens: int)
    requires m in {"qwen2.5-vl-72b-instruct", "qwen2.5vl:3b"}
    ensures Route(m, provider, apiKey, maxTokens).Ok?
      && Route(m, provider, apiKey, maxTokens).value.endpoint == (if provider == "local" then Ollama else DashScope)
  {
    if m == "qwen2.5-vl-72b-instruct" {
      QwenOnly(m);
    } else {
      QwenOnly(m);
    }
  }

  /** A model id holding "qwen" at its head and none of the other families' substrings. */
  lemma QwenOnly(m: string)
    requires StartsWith(m, "qwen")
    requires forall k :: 0 <= k < |m| - 1 ==> !(m[k] == 'g' && (m[k + 1] == 'p' || m[k + 1] == 'e'))
    requires forall k :: 0 <= k < |m| - 1 ==> !(m[k] == 'o' && (m[k + 1] == '1' || m[k + 1] == '3'))
    requires forall k :: 0 <= k < |m| - 1 ==> !(m[k] == 'r' && m[k + 1] == '1')
    ensures !OpenAIFamily(m) && !Contains(m, "r1") && !Contains(m, "gemini") && Contains(m, "qwen")
  {
    NotOpenAI(m);
    AbsentPair(m, "r1");
    AbsentPair(m, "gemini");
    PrefixOccurs(m, "qwen");
  }

  // ---------------------------------------------------------------------------
  // One step

  /** The directive after recovery and coordinate resolution, for the provider's reply. */
  function Directive(reply: string, parse: Repair.Parser, elements: seq<Actions.Element>, w: int, h: int): Dict {
    Actions.WithCoordinate(Repair.Decide(Extractor.Extracted(reply), parse), elements, w, h)
  }

  /** The step's outcome for a reply: the blocks and the directive, or the `KeyError` building them raised. */
  function Outcome(reply: string, parse: Repair.Parser, elements: seq<Actions.Element>, w: int, h: int): Result<(seq<Actions.Block>, Dict), PyError> {
    var d := Directive(reply, parse, elements, w, h);
    match Actions.Respond(d)
    case Ok(blocks) => Ok((blocks, d))
    case Err(e) => Err(e)
  }

  /** The history after hygiene, before the new screenshot is appended. */
  function Cleaned(ms: seq<History.Message>, keep: Option<int>, isImg: string -> bool): seq<History.Message> {
    History.KeepRecent(History.DropSom(ms, isImg), keep, isImg)
  }

  class VlmAgent {
    const model: string
    const provider: string
    const apiKey: string
    const maxTokens: int
    const imagesToKeep: Option<int>
    var stepCount: int
    var totalTokenUsage: int

    constructor(model: string, provider: string, apiKey: string, maxTokens: int, imagesToKeep: Option<int>)
      ensures this.model == model && this.provider == provider && this.apiKey == apiKey
      ensures this.maxTokens == maxTokens && this.imagesToKeep == imagesToKeep
      ensures stepCount == 0 && totalTokenUsage == 0
    {
      this.model := model;
      this.provider := provider;
      this.apiKey := apiKey;
      this.maxTokens := maxTokens;
      this.imagesToKeep := imagesToKeep;
      stepCount := 0;
      totalTokenUsage := 0;
    }

    /** `VLMAgent(...)`: the menu name resolved through the table, or its `ValueError`. */
    static method Open(name: string, provider: string, apiKey: string, maxTokens: int, imagesToKeep: Option<int>)
      returns (r: Result<VlmAgent, PyError>)
      ensures r.Err? <==> ResolveModel(name).Err?
      ensures r.Err? ==> r.error == ResolveModel(name).error
      ensures r.Ok? ==> (fresh(r.value) && r.value.model == ResolveModel(name).value
        && r.value.provider == provider && r.value.maxTokens == maxTokens && r.value.imagesToKeep == imagesToKeep
        && r.value.stepCount == 0 && r.value.totalTokenUsage == 0)
    {
      match ResolveModel(name) {
        case Err(e) =>
          return Err(e);
        case Ok(m) =>
          var agent := new VlmAgent(m, provider, apiKey, maxTokens, imagesToKeep);
          return Ok(agent);
      }
    }

    /**
      One step on the caller's `history`. `vlm` stands for the provider: the reply
      text and the token count it returns for a request. `parse` is `json.loads`
      and `isImg` is `is_image_path`. The step counter always advances; the token
      counter advances by the reply's usage once a provider was called.
    */
    method Step(history: History.Conversation, elements: seq<Actions.Element>, w: int, h: int, uuid: string,
                vlm: Call -> (string, int), parse: Repair.Parser, isImg: string -> bool)
      returns (r: Result<(seq<Actions.Block>, Dict), PyError>)
      modifies this, history
      ensures stepCount == old(stepCount) + 1
      ensures var cleaned := Cleaned(old(history.messages), imagesToKeep, isImg);
        if cleaned == [] then
          r == Err(IndexError) && history.messages == [] && totalTokenUsage == old(totalTokenUsage)
        else
          && history.messages == cleaned[..|cleaned| - 1] + [History.WithScreenshots(cleaned[|cleaned| - 1], uuid)]
          && match Route(model, provider, apiKey, maxTokens)
             case Err(e) => r == Err(e) && totalTokenUsage == old(totalTokenUsage)
             case Ok(call) =>
               && totalTokenUsage == old(totalTokenUsage) + vlm(call).1
               && r == Outcome(vlm(call).0, parse, elements, w, h)
    {
      stepCount := stepCount + 1;
      history.RemoveSomImages(isImg);
      history.FilterToNMostRecentImages(imagesToKeep, isImg);
      var err := history.AppendScreenshots(uuid);
      if err.Some? {
        return Err(err.value);
      }
      var route := Route(model, provider, apiKey, maxTokens);
      if route.Err? {
        return Err(route.error);
      }
      var (reply, usage) := vlm(route.value);
      totalTokenUsage := totalTokenUsage + usage;
      var extracted := Extractor.ExtractData(reply);
      var d := Repair.Decide(extracted, parse);
      d := Actions.WithCoordinate(d, elements, w, h);
      var blocks := Actions.BuildResponse(d);
      match blocks {
        case Err(e) => r := Err(e);
        case Ok(bs) => r := Ok((bs, d));
      }
    }
  }
}
