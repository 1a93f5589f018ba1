/** The page component (App.tsx): the state it keeps, the search submission
    that drives the service, and the API key kept in step with the browser's
    storage. The React state hooks are the fields of one object; a submission
    is one sequential transition whose service outcome is a parameter. */
module AppState {
  import opened Outcomes
  import opened Types
  import opened Json
  import GeminiService
  import LeadGenerationForm

  const MissingFieldsMessage: string := "Please fill in all search fields."
  const NoLeadsMessage: string := "No leads found. " + "Try broadening your search criteria."
  const UnexpectedMessage: string := "An unexpected error occurred. " + "Please try again."

  class App {
    var apiKey: string
    var niche: string
    var city: string
    var country: string
    var numberOfLeads: int
    var leads: seq<Lead>
    var sources: seq<Source>
    var isLoading: bool
    /** `null` is `None`. */
    var error: Option<string>
    /** The browser's stored copy of the key under "gemini_api_key"; `None`
        when nothing is stored. */
    var storedKey: Option<string>

    /** What the form may hold at any time: at least one lead is asked for. */
    ghost predicate Valid()
      reads this
    {
      numberOfLeads >= 1
    }

    /** The initial state, given what the browser has stored. */
    constructor(stored: Option<string>)
      ensures Valid()
      ensures apiKey == "" && niche == "coffee shops" && city == "San Francisco" && country == "USA"
      ensures numberOfLeads == 10 && leads == [] && sources == [] && !isLoading && error == None
      ensures storedKey == stored
    {
      apiKey := "";
      niche := "coffee shops";
      city := "San Francisco";
      country := "USA";
      numberOfLeads := 10;
      leads := [];
      sources := [];
      isLoading := false;
      error := None;
      storedKey := stored;
    }

    /** The key in memory and the stored copy agree. */
    ghost predicate KeySynced()
      reads this
    {
      storedKey == Some(apiKey)
    }

    /** The start-up effect: a stored key is adopted unless it is empty. */
    method LoadSavedKey()
      modifies this`apiKey
      ensures storedKey.Some? && storedKey.value != "" ==> apiKey == storedKey.value && KeySynced()
      ensures storedKey.None? || storedKey.value == "" ==> apiKey == old(apiKey)
    {
      if storedKey.Some? && storedKey.value != "" {
        apiKey := storedKey.value;
      }
    }

    /** `handleApiKeyChange`: the new key is kept in memory and stored. */
    method HandleApiKeyChange(key: string)
      modifies this`apiKey, this`storedKey
      ensures apiKey == key && KeySynced()
    {
      apiKey := key;
      storedKey := Some(key);
    }

    /** The "Number of Leads" input changed: the count becomes the clamped
        value, so the form stays valid. */
    method OnLeadCountInput(value: string)
      modifies this`numberOfLeads
      ensures Valid()
      ensures numberOfLeads == LeadGenerationForm.Clamp(value)
    {
      numberOfLeads := LeadGenerationForm.Clamp(value);
    }

    /** `disabled={isLoading}` on the submit button. */
    function SubmitDisabled(): bool
      reads this
    {
      isLoading
    }

    /** `!isLoading && leads.length > 0`: the results panel is on screen. */
    function ShowsResults(): bool
      reads this
    {
      !isLoading && |leads| > 0
    }

    /** A search is under way: loading, with the old results and error gone. */
    ghost predicate Pending()
      reads this
    {
      isLoading && error == None && leads == [] && sources == []
    }

    /** `handleSubmit` up to the request: the key check first, then the three
        search fields; a submission that passes both clears the results and
        the error and starts loading. */
    method BeginSubmit() returns (proceed: bool)
      modifies this`error, this`isLoading, this`leads, this`sources
      ensures proceed <==> apiKey != "" && niche != "" && city != "" && country != ""
      ensures apiKey == "" ==> error == Some(GeminiService.MissingKeyMessage)
      ensures apiKey != "" && !proceed ==> error == Some(MissingFieldsMessage)
      ensures !proceed ==> leads == old(leads) && sources == old(sources) && isLoading == old(isLoading)
      ensures proceed ==> Pending() && SubmitDisabled()
    {
      if apiKey == "" {
        error := Some(GeminiService.MissingKeyMessage);
        return false;
      }
      if niche == "" || city == "" || country == "" {
        error := Some(MissingFieldsMessage);
        return false;
      }
      isLoading := true;
      error := None;
      leads := [];
      sources := [];
      return true;
    }

    /** `handleSubmit` after the request: a result replaces leads and sources
        together, with the no-leads message when it holds none; a thrown
        value leaves them as they were and shows its message. Loading ends
        either way. */
    method CompleteSubmit(outcome: Result<GeminiService.LeadsResult, Thrown>)
      modifies this`error, this`isLoading, this`leads, this`sources
      ensures !isLoading && !SubmitDisabled()
      ensures outcome.Ok? ==> leads == outcome.value.leads && sources == outcome.value.sources
      ensures outcome.Ok? ==> error == if outcome.value.leads == [] then Some(NoLeadsMessage) else old(error)
      ensures outcome.Err? ==> leads == old(leads) && sources == old(sources)
      ensures outcome.Err? ==>
        error == Some(if outcome.error.ErrorObject? then outcome.error.message else UnexpectedMessage)
    {
      isLoading := false;
      match outcome
      case Ok(result) =>
        if result.leads == [] {
          error := Some(NoLeadsMessage);
        }
        leads := result.leads;
        sources := result.sources;
      case Err(thrown) =>
        error := Some(if thrown.ErrorObject? then thrown.message else UnexpectedMessage);
    }

    /** The whole submission: the guards, then one call to the service with
        the form's values, then its outcome applied. */
    method HandleSubmit(service: GeminiService.Request -> Result<GeminiService.Response, Thrown>, parse: string -> Option<Json>)
      requires Valid()
      modifies this`error, this`isLoading, this`leads, this`sources
      ensures Valid()
      ensures apiKey == "" ==> error == Some(GeminiService.MissingKeyMessage)
      ensures apiKey != "" && (niche == "" || city == "" || country == "") ==> error == Some(MissingFieldsMessage)
      ensures apiKey == "" || niche == "" || city == "" || country == "" ==>
        leads == old(leads) && sources == old(sources) && isLoading == old(isLoading)
      ensures apiKey != "" && niche != "" && city != "" && country != "" ==>
        var r := GeminiService.GenerateLeads(niche, city, country, numberOfLeads, apiKey, service, parse);
        && !isLoading
        && (r.Ok? ==> leads == r.value.leads && sources == r.value.sources)
        && (r.Ok? ==> error == if r.value.leads == [] then Some(NoLeadsMessage) else None)
        && (r.Ok? ==> ShowsResults() == (r.value.leads != []))
        && (r.Err? ==> leads == [] && sources == [] && error == Some(r.error.message) && !ShowsResults())
    {
      var proceed := BeginSubmit();
      if proceed {
        var outcome := GeminiService.GenerateLeads(niche, city, country, numberOfLeads, apiKey, service, parse);
        CompleteSubmit(outcome);
      }
    }
  }
}
