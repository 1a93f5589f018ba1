/** `generateLeads` (services/geminiService.ts): the one request to the hosted
    model and everything the client does with its answer. The request itself
    is not modelled: its outcome is the parameter `service`, a function of the
    request, and `JSON.parse` is the parameter `parse`. */
module GeminiService {
  import opened Outcomes
  import opened JsStrings
  import opened Json
  import opened Types
  import opened Seqs
  import opened Extraction

  const MissingKeyMessage: string := "Please enter your Gemini API Key to generate leads."
  const EmptyResponseMessage: string := "The AI returned an empty response. " + "Please try refining your search."
  const NotAListMessage: string := "The AI response was not " + "a valid list of leads."
  const InvalidKeyMessage: string := "The provided API key is invalid. Please double-check the key and try again."
  const QuotaMessage: string := "You have exceeded your API quota. Please check your Google AI account for usage limits."
  const CommunicationMessage: string :=
    "Communication with the AI failed. This is often due to an invalid API key. Please verify your key. "
    + "If the key is correct, check your browser's developer console (F12) for network errors (e.g., CORS)."

  /** The TypeErrors raised (in V8's wording) when the code reads a property
      of a grounding chunk without `web`, or of a `null` array element. */
  const MissingWebMessage: string := "Cannot read properties " + "of undefined (reading 'uri')"
  const NullItemMessage: string := "Cannot read properties " + "of null (reading 'name')"

  const ModelName: string := "gemini-2.5-flash"
  const Temperature: real := 0.1

  /** The search parameters the fixed prompt template embeds. */
  datatype Prompt = Prompt(numberOfLeads: int, niche: string, city: string, country: string)

  /** The one request: the client's key, the model, the prompt, the search
      grounding tool and the sampling temperature. */
  datatype Request = Request(apiKey: string, model: string, prompt: Prompt, googleSearch: bool, temperature: real)

  /** A grounding chunk; `web` and its fields may be absent. */
  datatype Web = Web(uri: Option<string>, title: Option<string>)
  datatype Chunk = Chunk(web: Option<Web>)

  /** What the client reads from the answer: its text, and the chunks under
      `candidates[0].groundingMetadata.groundingChunks` (`None` when any link
      of that path is missing). */
  datatype Response = Response(text: Option<string>, groundingChunks: Option<seq<Chunk>>)

  datatype LeadsResult = LeadsResult(leads: seq<Lead>, sources: seq<Source>)

  function RequestFor(niche: string, city: string, country: string, numberOfLeads: int, apiKey: string): Request {
    Request(apiKey, ModelName, Prompt(numberOfLeads, niche, city, country), true, Temperature)
  }

  /** `{ uri: chunk.web.uri, title: chunk.web.title }`. An absent value and the
      empty string are both falsy and are dropped alike by the filter that
      follows, so both become "" here. */
  function ToSource(c: Chunk): (r: Source)
    ensures IsCited(r) ==> c.web.Some? && c.web.value.uri == Some(r.uri) && c.web.value.title == Some(r.title)
    ensures c.web.Some? && c.web.value.uri.Some? ==> r.uri == c.web.value.uri.value
    ensures c.web.Some? && c.web.value.title.Some? ==> r.title == c.web.value.title.value
  {
    match c.web
    case Some(w) =>
      Source(match w.uri case Some(u) => u case None => "", match w.title case Some(t) => t case None => "")
    case None => Source("", "")
  }

  /** `source.uri && source.title` */
  predicate IsCited(s: Source) {
    s.uri != "" && s.title != ""
  }

  /** The sources list: every chunk mapped to a source, then those without a
      uri or a title dropped; `[]` when the chunks are missing. Mapping a
      chunk without `web` throws. */
  function SourcesOf(chunks: Option<seq<Chunk>>): (r: Result<seq<Source>, Thrown>)
    ensures chunks.None? ==> r == Ok([])
    ensures r.Err? <==> chunks.Some? && exists c :: c in chunks.value && c.web.None?
    ensures r.Err? ==> r.error == ErrorObject(MissingWebMessage)
    ensures r.Ok? ==> forall s :: s in r.value ==> s.uri != "" && s.title != ""
    ensures r.Ok? && chunks.Some? ==> IsSubsequence(r.value, Map(chunks.value, ToSource))
    ensures r.Ok? && chunks.Some? ==>
      forall i :: 0 <= i < |chunks.value| && IsCited(ToSource(chunks.value[i])) ==> ToSource(chunks.value[i]) in r.value
    ensures r.Ok? && chunks.Some? ==>
      forall s :: multiset(r.value)[s] == if IsCited(s) then multiset(Map(chunks.value, ToSource))[s] else 0
  {
    match chunks
    case None => Ok([])
    case Some(cs) =>
      if exists c :: c in cs && c.web.None? then Err(ErrorObject(MissingWebMessage))
      else
        var all := Map(cs, ToSource);
        var cited := Filter(all, IsCited);
        assert forall i :: 0 <= i < |cs| && IsCited(all[i]) ==> all[i] in cited by {
          forall i | 0 <= i < |cs| && IsCited(all[i]) ensures all[i] in cited {
            FilterKeeps(all, IsCited, i);
          }
        }
        Ok(cited)
  }

  /** `item.<key> || ''` for a lead field: the string when the property holds
      one, and "" when it is missing or falsy. */
  function FieldText(item: Json, key: string): (r: string)
    requires item != JNull
    ensures r != "" ==> Get(item, key) == Some(JString(r))
    ensures forall s :: Get(item, key) == Some(JString(s)) ==> r == s
    ensures Get(item, key).None? ==> r == ""
  {
    match Get(item, key)
    case Some(JString(s)) => s
    case _ => ""
  }

  /** One array element normalised onto the eight lead fields. */
  function ToLead(item: Json): Lead
    requires item != JNull
  {
    Lead(
      FieldText(item, "name"), FieldText(item, "address"), FieldText(item, "phone"),
      FieldText(item, "website"), FieldText(item, "email"), FieldText(item, "businessType"),
      FieldText(item, "employeeCount"), FieldText(item, "annualRevenue"))
  }

  /** `leadsData.map(item => ({...}))`: same length and order, one lead per
      element; a `null` element makes the property read throw. */
  function Normalise(items: seq<Json>): (r: Result<seq<Lead>, Thrown>)
    ensures r.Err? <==> JNull in items
    ensures r.Err? ==> r.error == ErrorObject(NullItemMessage)
    ensures r.Ok? ==> |r.value| == |items| && forall i :: 0 <= i < |items| ==> r.value[i] == ToLead(items[i])
  {
    if JNull in items then Err(ErrorObject(NullItemMessage))
    else Ok(seq(|items|, i requires 0 <= i < |items| => ToLead(items[i])))
  }

  /** The JSON object the prompt asks the model to return for a lead. */
  function LeadJson(l: Lead): Json {
    JObject(map[
      "name" := JString(l.name), "address" := JString(l.address), "phone" := JString(l.phone),
      "website" := JString(l.website), "email" := JString(l.email),
      "businessType" := JString(l.businessType), "employeeCount" := JString(l.employeeCount),
      "annualRevenue" := JString(l.annualRevenue)])
  }

  /** Normalisation gives back every lead written in the requested shape. */
  lemma NormaliseRoundTrip(leads: seq<Lead>)
    ensures Normalise(Map(leads, LeadJson)) == Ok(leads)
  {
    var items := Map(leads, LeadJson);
    assert forall i :: 0 <= i < |items| ==> items[i].JObject?;
    assert JNull !in items;
    forall i | 0 <= i < |leads| ensures ToLead(items[i]) == leads[i] {
      LeadRoundTrip(leads[i]);
    }
    assert Normalise(items).value == leads;
  }

  /** One lead written as its JSON object and normalised is the same lead. */
  lemma LeadRoundTrip(l: Lead)
    ensures ToLead(LeadJson(l)) == l
  {
    var m := LeadJson(l).members;
    assert m["name"] == JString(l.name) && m["address"] == JString(l.address);
    assert m["phone"] == JString(l.phone) && m["website"] == JString(l.website);
    assert m["email"] == JString(l.email) && m["businessType"] == JString(l.businessType);
    assert m["employeeCount"] == JString(l.employeeCount) && m["annualRevenue"] == JString(l.annualRevenue);
  }

  /** A field missing from an element comes out as "". */
  lemma MissingFieldIsEmpty(item: Json, key: string)
    requires item.JObject? && key !in item.members
    ensures FieldText(item, key) == ""
  {
  }

  /** The outer `catch`: an invalid-key phrase wins, then "quota" (case
      sensitive), and anything else, including a thrown value that is not an
      Error, becomes the generic message. */
  function ErrorMessageFor(e: Thrown): (r: string)
    ensures r in {InvalidKeyMessage, QuotaMessage, CommunicationMessage}
    ensures r == InvalidKeyMessage <==>
      e.ErrorObject? && (Includes(e.message, "API key is invalid") || Includes(e.message, "API key not valid"))
    ensures r == QuotaMessage <==>
      e.ErrorObject? && !Includes(e.message, "API key is invalid") && !Includes(e.message, "API key not valid")
      && Includes(e.message, "quota")
  {
    if e.ErrorObject? && (Includes(e.message, "API key is invalid") || Includes(e.message, "API key not valid")) then
      InvalidKeyMessage
    else if e.ErrorObject? && Includes(e.message, "quota") then
      QuotaMessage
    else
      CommunicationMessage
  }

  /** The errors the `try` block raises itself. */
  const InternalMessages: set<string> := {
    MissingWebMessage, EmptyResponseMessage, InvalidFormatMessage, NotAListMessage, NullItemMessage
  }

  /** None of the errors the `try` block throws itself (the five internal
      messages and the two extraction messages) reaches the caller as itself:
      each contains neither an invalid-key phrase nor "quota", so the `catch`
      turns each into the generic message. The extraction errors never get
      that far, being caught by the fallback. Errors from the request itself
      are not among them. */
  lemma InternalErrorsAreGeneric(m: string)
    requires m in InternalMessages + {NoJsonArrayMessage, NotValidJsonMessage}
    ensures ErrorMessageFor(ErrorObject(m)) == CommunicationMessage
  {
    if m == MissingWebMessage {
      MissingWebMessagePlain();
    } else if m == EmptyResponseMessage {
      EmptyResponseMessagePlain();
    } else if m == InvalidFormatMessage {
      InvalidFormatMessagePlain();
    } else if m == NotAListMessage {
      NotAListMessagePlain();
    } else if m == NullItemMessage {
      NullItemMessagePlain();
    } else if m == NoJsonArrayMessage {
      NoJsonArrayMessagePlain();
    } else {
      NotValidJsonMessagePlain();
    }
    NoKeyPhraseIsGeneric(m);
  }

  /** Each internal message lacks the letters "k" and "q" (one lemma per
      message keeps each literal check small). */
  lemma MissingWebMessagePlain() ensures 'k' !in MissingWebMessage && 'q' !in MissingWebMessage {}
  lemma EmptyResponseMessagePlain() ensures 'k' !in EmptyResponseMessage && 'q' !in EmptyResponseMessage {}
  lemma InvalidFormatMessagePlain() ensures 'k' !in InvalidFormatMessage && 'q' !in InvalidFormatMessage {}
  lemma NotAListMessagePlain() ensures 'k' !in NotAListMessage && 'q' !in NotAListMessage {}
  lemma NullItemMessagePlain() ensures 'k' !in NullItemMessage && 'q' !in NullItemMessage {}
  lemma NoJsonArrayMessagePlain() ensures 'k' !in NoJsonArrayMessage && 'q' !in NoJsonArrayMessage {}
  lemma NotValidJsonMessagePlain() ensures 'k' !in NotValidJsonMessage && 'q' !in NotValidJsonMessage {}

  /** A message without a "k" and without a "q" has neither an invalid-key
      phrase nor "quota" in it. */
  lemma NoKeyPhraseIsGeneric(m: string)
    requires 'k' !in m && 'q' !in m
    ensures ErrorMessageFor(ErrorObject(m)) == CommunicationMessage
  {
    MissingCharNotIncluded(m, "API key is invalid", 'k');
    MissingCharNotIncluded(m, "API key not valid", 'k');
    MissingCharNotIncluded(m, "quota", 'q');
  }

  /** The body of the `try` block, given the outcome of the request. */
  function Attempt(reply: Result<Response, Thrown>, parse: string -> Option<Json>): (r: Result<LeadsResult, Thrown>)
    ensures reply.Err? ==> r == Err(reply.error)
    ensures reply.Ok? && r.Err? ==> r.error.ErrorObject? && r.error.message in InternalMessages
    ensures reply.Ok? && SourcesOf(reply.value.groundingChunks).Err? ==>
      r == Err(SourcesOf(reply.value.groundingChunks).error)
    ensures reply.Ok? && SourcesOf(reply.value.groundingChunks).Ok? && (reply.value.text.None? || reply.value.text.value == "") ==>
      r == Err(ErrorObject(EmptyResponseMessage))
    ensures reply.Ok? && SourcesOf(reply.value.groundingChunks).Ok? && reply.value.text.Some? && reply.value.text.value != "" ==>
      var data := LeadsData(reply.value.text.value, parse);
      && (data.Err? ==> r == Err(data.error))
      && (data.Ok? && !data.value.JArray? ==> r == Err(ErrorObject(NotAListMessage)))
      && (data.Ok? && data.value.JArray? ==> (r.Ok? <==> JNull !in data.value.items))
      && (data.Ok? && data.value.JArray? && JNull in data.value.items ==> r == Err(ErrorObject(NullItemMessage)))
    ensures r.Ok? ==>
      && SourcesOf(reply.value.groundingChunks) == Ok(r.value.sources)
      && reply.value.text.Some?
      && exists items :: LeadsData(reply.value.text.value, parse) == Ok(JArray(items)) && Normalise(items) == Ok(r.value.leads)
  {
    var response :- reply;
    var sources :- SourcesOf(response.groundingChunks);
    if response.text.None? || response.text.value == "" then
      Err(ErrorObject(EmptyResponseMessage))
    else
      var data :- LeadsData(response.text.value, parse);
      if !data.JArray? then
        Err(ErrorObject(NotAListMessage))
      else
        var leads :- Normalise(data.items);
        Ok(LeadsResult(leads, sources))
  }

  /** `generateLeads(niche, city, country, numberOfLeads, apiKey)`. Without a
      key it throws before any request is made; otherwise the request's
      outcome goes through `Attempt`, and any error it raises comes out as one
      of the three messages of the `catch`. */
  function GenerateLeads(
    niche: string, city: string, country: string, numberOfLeads: int, apiKey: string,
    service: Request -> Result<Response, Thrown>, parse: string -> Option<Json>): (r: Result<LeadsResult, Thrown>)
    ensures apiKey == "" ==> r == Err(ErrorObject(MissingKeyMessage))
    ensures r.Err? ==> r.error.ErrorObject?
    ensures r.Err? ==> r.error.message in {MissingKeyMessage, InvalidKeyMessage, QuotaMessage, CommunicationMessage}
    ensures apiKey != "" ==> r.Ok? == Attempt(service(RequestFor(niche, city, country, numberOfLeads, apiKey)), parse).Ok?
    ensures apiKey != "" && Attempt(service(RequestFor(niche, city, country, numberOfLeads, apiKey)), parse).Ok? ==>
      r == Attempt(service(RequestFor(niche, city, country, numberOfLeads, apiKey)), parse)
    ensures apiKey != "" && Attempt(service(RequestFor(niche, city, country, numberOfLeads, apiKey)), parse).Err? ==>
      r == Err(ErrorObject(ErrorMessageFor(Attempt(service(RequestFor(niche, city, country, numberOfLeads, apiKey)), parse).error)))
  {
    if apiKey == "" then
      Err(ErrorObject(MissingKeyMessage))
    else
      match Attempt(service(RequestFor(niche, city, country, numberOfLeads, apiKey)), parse)
      case Ok(result) => Ok(result)
      case Err(e) => Err(ErrorObject(ErrorMessageFor(e)))
  }

  /** Without a key no request is issued: the outcome is the same whatever the
      service would have answered. */
  lemma NoRequestWithoutKey(
    niche: string, city: string, country: string, numberOfLeads: int,
    service1: Request -> Result<Response, Thrown>, service2: Request -> Result<Response, Thrown>, parse: string -> Option<Json>)
    ensures GenerateLeads(niche, city, country, numberOfLeads, "", service1, parse)
         == GenerateLeads(niche, city, country, numberOfLeads, "", service2, parse)
  {
  }

  /** With a key, the outcome depends on the service only through its answer
      to the one request carrying the key and the search parameters. */
  lemma OnlyThisRequest(
    niche: string, city: string, country: string, numberOfLeads: int, apiKey: string,
    service1: Request -> Result<Response, Thrown>, service2: Request -> Result<Response, Thrown>, parse: string -> Option<Json>)
    requires service1(RequestFor(niche, city, country, numberOfLeads, apiKey))
          == service2(RequestFor(niche, city, country, numberOfLeads, apiKey))
    ensures GenerateLeads(niche, city, country, numberOfLeads, apiKey, service1, parse)
         == GenerateLeads(niche, city, country, numberOfLeads, apiKey, service2, parse)
  {
  }

  /** Once the service has answered, every failure (empty text, no parseable
      JSON, not a list, a malformed chunk or element) reaches the caller as the
      generic message; the invalid-key and quota messages can only come from
      a request that failed. */
  lemma AnsweredFailuresAreGeneric(
    niche: string, city: string, country: string, numberOfLeads: int, apiKey: string,
    service: Request -> Result<Response, Thrown>, parse: string -> Option<Json>)
    requires apiKey != ""
    requires service(RequestFor(niche, city, country, numberOfLeads, apiKey)).Ok?
    ensures GenerateLeads(niche, city, country, numberOfLeads, apiKey, service, parse).Err? ==>
      GenerateLeads(niche, city, country, numberOfLeads, apiKey, service, parse).error == ErrorObject(CommunicationMessage)
  {
    var reply := service(RequestFor(niche, city, country, numberOfLeads, apiKey));
    var attempt := Attempt(reply, parse);
    if attempt.Err? {
      InternalErrorsAreGeneric(attempt.error.message);
    }
  }

  /** The whole pipeline on a well-formed answer: prose without "`" or "[",
      then a fenced block whose body parses to an array without `null`
      elements, yields one lead per element, in order, and the cited sources. */
  lemma FencedAnswerGivesLeads(
    niche: string, city: string, country: string, numberOfLeads: int, apiKey: string,
    service: Request -> Result<Response, Thrown>, parse: string -> Option<Json>,
    prose: string, ws1: string, body: string, ws2: string, rest: string, items: seq<Json>, chunks: Option<seq<Chunk>>)
    requires apiKey != ""
    requires '`' !in prose && '[' !in prose
    requires forall i :: 0 <= i < |ws1| ==> IsWhiteSpace(ws1[i])
    requires forall i :: 0 <= i < |ws2| ==> IsWhiteSpace(ws2[i])
    requires body != [] && !IsWhiteSpace(body[0]) && !IsWhiteSpace(body[|body| - 1]) && '`' !in body
    requires parse(body) == Some(JArray(items)) && JNull !in items
    requires chunks.Some? ==> forall c :: c in chunks.value ==> c.web.Some?
    requires service(RequestFor(niche, city, country, numberOfLeads, apiKey))
          == Ok(Response(Some(prose + FenceOpen + ws1 + body + ws2 + Fence + rest), chunks))
    ensures GenerateLeads(niche, city, country, numberOfLeads, apiKey, service, parse).Ok?
    ensures var result := GenerateLeads(niche, city, country, numberOfLeads, apiKey, service, parse).value;
      && |result.leads| == |items|
      && (forall i :: 0 <= i < |items| ==> result.leads[i] == ToLead(items[i]))
      && Ok(result.sources) == SourcesOf(chunks)
  {
    var text := prose + FenceOpen + ws1 + body + ws2 + Fence + rest;
    FencedBlockExtracted(prose, ws1, body, ws2, rest, parse);
    assert LeadsData(text, parse) == Ok(JArray(items));
  }
}
