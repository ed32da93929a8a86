/** The Protocol record, the prompts, and LLMProcessor.generate_protocol with its cache.
    The chat completion is not modelled: generate_protocol takes the JSON its reply decodes to
    (or the error) as a parameter, and a ghost log records every request actually sent. */
module Synthesis {
  import opened Wrappers
  import opened Json
  import opened Text
  import opened Cache
  import opened Articles

  /** A generated protocol. The fields taken from the model's answer keep whatever JSON value it
      gave (dict.get does not check types). */
  datatype Protocol = Protocol(
    title: Json,
    originalArticle: Article,
    reagents: Json,
    materials: Json,
    preparation: Json,
    procedure: Json,
    conditions: Json,
    criticalNotes: Json,
    safetyWarnings: Json,
    generatedDate: string,
    llmModel: string)

  const DEFAULT_MODEL := "gpt-4-turbo-preview"
  const DEFAULT_PROTOCOL_TITLE := "Protocolo sin título"
  /** How much of the methods text goes into the cache key. */
  const KEY_PREFIX_LENGTH := 100

  /** The system message of every request. */
  const SYSTEM_PROMPT: string :=
    "Eres un experto en biología molecular y bioquímica con 20 años de experiencia \n"
    + "        en redacción de protocolos de laboratorio. Tu tarea es convertir descripciones de métodos \n"
    + "        de artículos científicos en protocolos paso a paso claros y reproducibles.\n"
    + "        \n"
    + "        SIEMPRE debes responder en formato JSON válido con la siguiente estructura:\n"
    + "        {\n"
    + "            \"title\": \"Título descriptivo del protocolo\",\n"
    + "            \"reagents\": [\"Lista de reactivos con concentraciones\"],\n"
    + "            \"materials\": [\"Lista de materiales y equipos necesarios\"],\n"
    + "            \"preparation\": [\"Pasos de preparación previa\"],\n"
    + "            \"procedure\": [\n"
    + "                {\"step\": 1, \"action\": \"Descripción\", \"time\": \"X min\", \"temp\": \"X°C\", \"notes\": \"\"},\n"
    + "                ...\n"
    + "            ],\n"
    + "            \"conditions\": {\n"
    + "                \"total_time\": \"X horas\",\n"
    + "                \"temperature\": \"X°C\",\n"
    + "                \"special_conditions\": \"\"\n"
    + "            },\n"
    + "            \"critical_notes\": [\"Notas críticas para el éxito\"],\n"
    + "            \"safety_warnings\": [\"Advertencias de seguridad\"]\n"
    + "        }\n"
    + "        "

  /** The user message up to the style instruction. */
  const PROMPT_HEAD: string :=
    "\n"
    + "        Convierte el siguiente texto de métodos en un protocolo de laboratorio estandarizado.\n"
    + "        \n"
    + "        Estilo solicitado: "

  /** Between the style instruction and the methods text. */
  const PROMPT_MIDDLE: string :=
    "\n"
    + "        \n"
    + "        Texto original de métodos:\n"
    + "        "

  /** After the methods text. */
  const PROMPT_TAIL: string :=
    "\n"
    + "        \n"
    + "        Requisitos:\n"
    + "        1. Extrae TODOS los reactivos mencionados con sus concentraciones exactas\n"
    + "        2. Lista todos los equipos y materiales necesarios\n"
    + "        3. Identifica pasos de preparación que deben hacerse antes del experimento\n"
    + "        4. Numera el procedimiento paso a paso con tiempos y temperaturas\n"
    + "        5. Resalta condiciones críticas (pH, temperatura, tiempo)\n"
    + "        6. Añade notas de seguridad relevantes\n"
    + "        7. Si falta información crítica, indícalo en las notas\n"
    + "        \n"
    + "        Responde ÚNICAMENTE con el JSON del protocolo, sin texto adicional.\n"
    + "        "

  /** The three styles and their instructions; any other style gets the "detailed" one. */
  function StyleInstruction(style: string): string {
    if style == "concise" then "Sé conciso pero completo. Incluye solo información esencial."
    else if style == "educational" then "Explica el porqué de cada paso. Incluye principios científicos."
    else "Incluye TODOS los detalles, volúmenes exactos, tiempos precisos y alternativas."
  }

  /** An unknown style is treated as "detailed". */
  lemma UnknownStyleIsDetailed(style: string)
    requires style != "detailed" && style != "concise" && style != "educational"
    ensures StyleInstruction(style) == StyleInstruction("detailed")
  {
  }

  /** _build_prompt */
  function BuildPrompt(methodsText: string, style: string): string {
    PROMPT_HEAD + StyleInstruction(style) + PROMPT_MIDDLE + methodsText + PROMPT_TAIL
  }

  /** Where the methods text starts in the prompt. */
  function MethodsOffset(style: string): nat {
    |PROMPT_HEAD| + |StyleInstruction(style)| + |PROMPT_MIDDLE|
  }

  /** The prompt carries the whole methods text, unchanged, after the fixed preamble. */
  lemma PromptEmbedsMethods(methodsText: string, style: string)
    ensures OccursAt(BuildPrompt(methodsText, style), methodsText, MethodsOffset(style))
    ensures |BuildPrompt(methodsText, style)| == MethodsOffset(style) + |methodsText| + |PROMPT_TAIL|
  {
    var pre := PROMPT_HEAD + StyleInstruction(style) + PROMPT_MIDDLE;
    var p := BuildPrompt(methodsText, style);
    assert p == pre + methodsText + PROMPT_TAIL;
    assert p[|pre|..|pre| + |methodsText|] == methodsText;
  }

  /** For one style, different methods texts give different prompts. */
  lemma BuildPromptInjective(m1: string, m2: string, style: string)
    requires BuildPrompt(m1, style) == BuildPrompt(m2, style)
    ensures m1 == m2
  {
    PromptEmbedsMethods(m1, style);
    PromptEmbedsMethods(m2, style);
  }

  /** `methods_text[:100]` */
  function KeyPrefix(methodsText: string): (r: string)
    ensures |r| <= KEY_PREFIX_LENGTH && |r| <= |methodsText| && r == methodsText[..|r|]
    ensures |methodsText| <= KEY_PREFIX_LENGTH ==> r == methodsText
    ensures |methodsText| >= KEY_PREFIX_LENGTH ==> |r| == KEY_PREFIX_LENGTH
  {
    if |methodsText| <= KEY_PREFIX_LENGTH then methodsText else methodsText[..KEY_PREFIX_LENGTH]
  }

  /** The text digested into the cache key of a protocol. */
  function ProtocolKeyText(methodsText: string, style: string): string {
    "protocol_" + KeyPrefix(methodsText) + "_" + style
  }

  /** Only the first hundred characters of the methods text reach the key: two texts that agree
      on them share the cached protocol for a given style. */
  lemma ProtocolKeySharedPrefix(m1: string, m2: string, style: string)
    requires |m1| >= KEY_PREFIX_LENGTH && |m2| >= KEY_PREFIX_LENGTH
    requires m1[..KEY_PREFIX_LENGTH] == m2[..KEY_PREFIX_LENGTH]
    ensures ProtocolKeyText(m1, style) == ProtocolKeyText(m2, style)
  {
  }

  /** For methods texts of a hundred characters or more, the key text tells the style and the
      first hundred characters apart. */
  lemma ProtocolKeyTextLong(m1: string, m2: string, s1: string, s2: string)
    requires |m1| >= KEY_PREFIX_LENGTH && |m2| >= KEY_PREFIX_LENGTH
    requires ProtocolKeyText(m1, s1) == ProtocolKeyText(m2, s2)
    ensures s1 == s2 && m1[..KEY_PREFIX_LENGTH] == m2[..KEY_PREFIX_LENGTH]
  {
    var k := ProtocolKeyText(m1, s1);
    var n := |"protocol_"| + KEY_PREFIX_LENGTH + 1;
    assert s1 == k[n..] == s2;
    assert m1[..KEY_PREFIX_LENGTH] == k[|"protocol_"|..n - 1] == m2[..KEY_PREFIX_LENGTH];
  }

  /** A style that holds no underscore, as each of the three styles. */
  predicate NoUnderscore(style: string) {
    forall i :: 0 <= i < |style| ==> style[i] != '_'
  }

  /** The style is the end of the key text, right after an underscore. */
  lemma StyleFollowsUnderscore(m: string, s: string)
    ensures var k := ProtocolKeyText(m, s);
            |k| > |s| && k[|k| - |s| - 1] == '_' && k[|k| - |s|..] == s
  {
  }

  /** For styles without an underscore, whatever the length of the methods texts, the key text
      tells the style and the part of the text that is kept apart: the last underscore of the
      key separates the two. */
  lemma ProtocolKeyTextInjective(m1: string, m2: string, s1: string, s2: string)
    requires NoUnderscore(s1) && NoUnderscore(s2)
    requires ProtocolKeyText(m1, s1) == ProtocolKeyText(m2, s2)
    ensures s1 == s2 && KeyPrefix(m1) == KeyPrefix(m2)
  {
    var k := ProtocolKeyText(m1, s1);
    StyleFollowsUnderscore(m1, s1);
    StyleFollowsUnderscore(m2, s2);
    if |s1| < |s2| {
      assert false;
    } else if |s2| < |s1| {
      assert false;
    } else {
      assert s1 == k[|k| - |s1|..] == s2;
      assert KeyPrefix(m1) == k[9..|k| - |s1| - 1] == KeyPrefix(m2);
    }
  }

  /** Each of the three styles is free of underscores, so their keys never collide. */
  lemma ProtocolKeysOfStylesDiffer(m1: string, m2: string, s1: string, s2: string)
    requires s1 in {"detailed", "concise", "educational"} && s2 in {"detailed", "concise", "educational"}
    requires s1 != s2
    ensures ProtocolKeyText(m1, s1) != ProtocolKeyText(m2, s2)
  {
    if ProtocolKeyText(m1, s1) == ProtocolKeyText(m2, s2) {
      ProtocolKeyTextInjective(m1, m2, s1, s2);
    }
  }

  /** The key text of a protocol never equals that of a search or an article. */
  lemma ProtocolKeysDiffer(methodsText: string, style: string, query: string, maxResults: int, pmcId: string)
    ensures ProtocolKeyText(methodsText, style) != SearchKeyText(query, maxResults)
    ensures ProtocolKeyText(methodsText, style) != ArticleKeyText(pmcId)
  {
    assert ProtocolKeyText(methodsText, style)[0] == 'p';
    assert SearchKeyText(query, maxResults)[0] == 's';
    assert ArticleKeyText(pmcId)[0] == 'a';
  }

  /** The Protocol built from the model's JSON object: each field is the value under its key,
      or the default when the key is missing. */
  function ProtocolFromJson(data: map<string, Json>, article: Article, stamp: string, model: string): Protocol {
    Protocol(
      title := Get(data, "title", JStr(DEFAULT_PROTOCOL_TITLE)),
      originalArticle := article,
      reagents := Get(data, "reagents", JArr([])),
      materials := Get(data, "materials", JArr([])),
      preparation := Get(data, "preparation", JArr([])),
      procedure := Get(data, "procedure", JArr([])),
      conditions := Get(data, "conditions", JObj(map[])),
      criticalNotes := Get(data, "critical_notes", JArr([])),
      safetyWarnings := Get(data, "safety_warnings", JArr([])),
      generatedDate := stamp,
      llmModel := model)
  }

  /** A key the model gave is used as is, even when its value is null; a missing key takes the
      default; the article, date and model never come from the answer. */
  lemma ProtocolFromJsonFields(data: map<string, Json>, article: Article, stamp: string, model: string)
    ensures var p := ProtocolFromJson(data, article, stamp, model);
            && ("title" in data ==> p.title == data["title"])
            && ("title" !in data ==> p.title == JStr(DEFAULT_PROTOCOL_TITLE))
            && ("reagents" in data ==> p.reagents == data["reagents"])
            && ("reagents" !in data ==> p.reagents == JArr([]))
            && ("materials" in data ==> p.materials == data["materials"])
            && ("materials" !in data ==> p.materials == JArr([]))
            && ("preparation" in data ==> p.preparation == data["preparation"])
            && ("preparation" !in data ==> p.preparation == JArr([]))
            && ("procedure" in data ==> p.procedure == data["procedure"])
            && ("procedure" !in data ==> p.procedure == JArr([]))
            && ("conditions" in data ==> p.conditions == data["conditions"])
            && ("conditions" !in data ==> p.conditions == JObj(map[]))
            && ("critical_notes" in data ==> p.criticalNotes == data["critical_notes"])
            && ("critical_notes" !in data ==> p.criticalNotes == JArr([]))
            && ("safety_warnings" in data ==> p.safetyWarnings == data["safety_warnings"])
            && ("safety_warnings" !in data ==> p.safetyWarnings == JArr([]))
            && p.originalArticle == article && p.generatedDate == stamp && p.llmModel == model
  {
  }

  /** An empty answer object gives the protocol made only of defaults. */
  lemma EmptyAnswerIsAllDefaults(article: Article, stamp: string, model: string)
    ensures ProtocolFromJson(map[], article, stamp, model)
            == Protocol(JStr(DEFAULT_PROTOCOL_TITLE), article, JArr([]), JArr([]), JArr([]), JArr([]),
                        JObj(map[]), JArr([]), JArr([]), stamp, model)
  {
  }

  const PROTOCOL_KEYS: set<string> :=
    {"title", "original_article", "reagents", "materials", "preparation", "procedure", "conditions",
     "critical_notes", "safety_warnings", "generated_date", "llm_model"}

  /** asdict(protocol): the article is nested as its own dictionary. */
  function EncodeProtocol(p: Protocol): (j: Json)
    ensures j.JObj? && j.fields.Keys == PROTOCOL_KEYS
  {
    JObj(map[
      "title" := p.title,
      "original_article" := EncodeArticle(p.originalArticle),
      "reagents" := p.reagents,
      "materials" := p.materials,
      "preparation" := p.preparation,
      "procedure" := p.procedure,
      "conditions" := p.conditions,
      "critical_notes" := p.criticalNotes,
      "safety_warnings" := p.safetyWarnings,
      "generated_date" := JStr(p.generatedDate),
      "llm_model" := JStr(p.llmModel)])
  }

  /** Protocol(**cached): exactly the eleven field names, else TypeError (None here). */
  function DecodeProtocol(j: Json): (r: Option<Protocol>)
    ensures r.Some? ==> j.JObj? && j.fields.Keys == PROTOCOL_KEYS
  {
    if !j.JObj? || j.fields.Keys != PROTOCOL_KEYS then None
    else
      var f := j.fields;
      var article := DecodeArticle(f["original_article"]);
      var date := DecodeString(f["generated_date"]);
      var model := DecodeString(f["llm_model"]);
      if article.Some? && date.Some? && model.Some? then
        Some(Protocol(f["title"], article.value, f["reagents"], f["materials"], f["preparation"],
                      f["procedure"], f["conditions"], f["critical_notes"], f["safety_warnings"],
                      date.value, model.value))
      else None
  }

  /** A protocol read back from the cache is the protocol that was written. */
  lemma ProtocolRoundTrip(p: Protocol)
    ensures DecodeProtocol(EncodeProtocol(p)) == Some(p)
  {
    EncodedProtocolFields(p);
    ArticleRoundTrip(p.originalArticle);
  }

  lemma EncodedProtocolFields(p: Protocol)
    ensures var f := EncodeProtocol(p).fields;
            && f["title"] == p.title && f["original_article"] == EncodeArticle(p.originalArticle)
            && f["reagents"] == p.reagents && f["materials"] == p.materials
            && f["preparation"] == p.preparation && f["procedure"] == p.procedure
            && f["conditions"] == p.conditions && f["critical_notes"] == p.criticalNotes
            && f["safety_warnings"] == p.safetyWarnings
            && f["generated_date"] == JStr(p.generatedDate) && f["llm_model"] == JStr(p.llmModel)
  {
  }

  /** Protocol(**cached) in generate_protocol: the rebuilt protocol, or the TypeError. */
  function ProtocolFromCache(key: string, cached: Json): (r: Result<Protocol, Error>)
    ensures r.Success? <==> DecodeProtocol(cached).Some?
    ensures r.Failure? ==> r.error == CorruptCacheEntry(key)
  {
    match DecodeProtocol(cached)
    case Some(p) => Success(p)
    case None => Failure(CorruptCacheEntry(key))
  }

  /** What generate_protocol caches is read back, within seven days, as a truthy record that
      Protocol(**cached) turns into the same protocol. */
  lemma CachedProtocolReadsBack(entries: map<string, Entry>, key: string, p: Protocol, t1: int, t2: int)
    requires 0 <= t2 - t1 < EXPIRY_MICROS
    ensures var hit := Lookup(entries[key := Entry(t1, EncodeProtocol(p))], key, t2);
            hit.Some? && Truthy(hit.value) && ProtocolFromCache(key, hit.value) == Success(p)
  {
    PutThenGet(entries, key, EncodeProtocol(p), t1, t2);
    assert "title" in EncodeProtocol(p).fields;
    ProtocolRoundTrip(p);
  }

  /** The chat completion request: both messages, temperature 0.3, at most 4000 tokens, and a
      JSON object as the answer format. */
  datatype ChatRequest = ChatRequest(
    model: string, system: string, user: string, temperature: real, maxTokens: int, responseFormat: string)

  function ChatRequestFor(model: string, methodsText: string, style: string): ChatRequest {
    ChatRequest(model, SYSTEM_PROMPT, BuildPrompt(methodsText, style), 0.3, 4000, "json_object")
  }

  /** What generate_protocol makes of the model's reply: the protocol built from a JSON object;
      the error re-raised; MalformedResponse when the JSON is not an object (it has no `get`). */
  function ReplyOutcome(reply: Result<Json, string>, article: Article, stamp: string, model: string)
    : (r: Result<Protocol, Error>)
    ensures r.Success? <==> reply.Success? && reply.value.JObj?
    ensures r.Success? ==> r.value.originalArticle == article && r.value.llmModel == model
  {
    match reply
    case Failure(e) => Failure(Transport(e))
    case Success(data) =>
      if data.JObj? then Success(ProtocolFromJson(data.fields, article, stamp, model))
      else Failure(MalformedResponse)
  }

  class LLMProcessor {
    const model: string
    const cache: CacheManager
    /** Every chat completion request sent, oldest first. */
    ghost var requests: seq<ChatRequest>

    /** The model defaults to DEFAULT_MODEL, as in the source's signature. */
    constructor (cache: CacheManager, model: string := DEFAULT_MODEL)
      ensures this.model == model && this.cache == cache && requests == []
    {
      this.model := model;
      this.cache := cache;
      requests := [];
    }

    /** generate_protocol: an empty or missing methods text is refused; a truthy cached record
        for the key is rebuilt; otherwise the model is asked, its JSON object becomes the
        protocol, which is cached and returned. `reply` is what json.loads makes of the answer
        (or the API or decoding error); `now` and `stamp` are the clock. */
    method GenerateProtocol(methodsText: Option<string>, article: Article, style: string,
                            now: int, stamp: string, reply: Result<Json, string>)
      returns (r: Result<Protocol, Error>)
      modifies this, cache
      ensures methodsText.None? || methodsText.value == "" ==>
                r == Failure(EmptyMethodsText) && requests == old(requests) && cache.entries == old(cache.entries)
      ensures methodsText.Some? && methodsText.value != "" ==>
                var key := cache.GetCacheKey(ProtocolKeyText(methodsText.value, style));
                var hit := Lookup(old(cache.entries), key, now);
                if hit.Some? && Truthy(hit.value) then
                  r == ProtocolFromCache(key, hit.value) && requests == old(requests) && cache.entries == old(cache.entries)
                else
                  && requests == old(requests) + [ChatRequestFor(model, methodsText.value, style)]
                  && r == ReplyOutcome(reply, article, stamp, model)
                  && cache.entries == if r.Success? then old(cache.entries)[key := Entry(now, EncodeProtocol(r.value))]
                                      else old(cache.entries)
    {
      if methodsText.None? || methodsText.value == "" {
        return Failure(EmptyMethodsText);
      }
      var text := methodsText.value;

      var cacheKey := cache.GetCacheKey(ProtocolKeyText(text, style));
      var cached := cache.Get(cacheKey, now);
      if cached.Some? && Truthy(cached.value) {
        return ProtocolFromCache(cacheKey, cached.value);
      }

      r := AskModel(text, article, style, cacheKey, now, stamp, reply);
    }

    /** The part of generate_protocol after a cache miss: one chat completion request, then the
        protocol built from the reply, cached under `cacheKey`. */
    method AskModel(text: string, article: Article, style: string, cacheKey: string,
                    now: int, stamp: string, reply: Result<Json, string>)
      returns (r: Result<Protocol, Error>)
      modifies this, cache
      ensures requests == old(requests) + [ChatRequestFor(model, text, style)]
      ensures r == ReplyOutcome(reply, article, stamp, model)
      ensures cache.entries == if r.Success? then old(cache.entries)[cacheKey := Entry(now, EncodeProtocol(r.value))]
                               else old(cache.entries)
    {
      var prompt := BuildPrompt(text, style);
      requests := requests + [ChatRequest(model, SYSTEM_PROMPT, prompt, 0.3, 4000, "json_object")];
      if reply.Failure? {
        return Failure(Transport(reply.error));
      }
      var protocolData := reply.value;
      if !protocolData.JObj? {
        return Failure(MalformedResponse);
      }
      var protocol := ProtocolFromJson(protocolData.fields, article, stamp, model);
      cache.Set(cacheKey, EncodeProtocol(protocol), now);
      return Success(protocol);
    }
  }
}
