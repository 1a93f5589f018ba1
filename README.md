# AI lead generation client, modelled in Dafny

The client is a browser page that asks a hosted Gemini model, with Google
Search grounding, for business leads in a niche, a city and a country. The
page sends one request. It then finds the JSON array in the model's free-text
answer, normalises each element onto an eight-field `Lead`, and keeps the web
pages the answer cites as `Source`s. The user sees the leads in a table that
can be filtered and exported.

This project models that core and proves what it promises:

- `Extraction.dfy` covers `extractJsonFromString`. It has the regular
  expression, which takes a fenced block or a bracket span, whichever starts
  leftmost. It also has the `match[1] || match[2]` choice, and the fallback
  that parses the whole answer.
- `GeminiService.dfy` covers the rest of `generateLeads`: the key guard,
  source filtering, the empty-text and array checks, normalisation, and the
  outer `catch` that maps every failure onto one of three messages.
- `LeadsDisplay.dfy` covers the results panel. It has the four filters, the
  count and export wired to the filtered list, the cell and link texts, and
  the empty-table hint.
- `LeadGenerationForm.dfy` covers `parseInt` with radix 10 (section 19.2.5 of
  ECMA-262) and the lead-count clamp `Math.max(1, parseInt(v, 10) || 1)`.
- `App.dfy` has the page's state as the class `AppState.App`. It covers the
  submission state machine and the API key kept in step with the browser's
  storage.
- `Outcomes.dfy`, `JsStrings.dfy`, `Seqs.dfy`, `Json.dfy` and `Types.dfy`
  supply:
  - `Option` and `Result`, plus the value a `throw` carries;
  - the JavaScript string operations used;
  - `Array.prototype.filter` and `map` with their lemmas;
  - the values `JSON.parse` returns;
  - the `Lead` and `Source` records of `types.ts`.

Some things are parameters of the model:

- The network request is the parameter `service`, a function from the
  `Request` the client builds to the answer or the thrown value.
- `JSON.parse` is the parameter `parse`, with `None` standing for its
  `SyntaxError`.
- The browser's `localStorage` entry is the field `storedKey`.

Two facts about the code are worth stating outright:

- A `Lead` has eight fields (types.ts:1-10), and normalisation fills all
  eight.
- The pattern takes whichever alternative starts leftmost
  (services/geminiService.ts:5). A `[` that comes before the fence therefore
  wins over a fenced block later in the answer, as `BracketBeforeFenceWins`
  shows.

## Model

| member | source | states |
|---|---|---|
| `JsStrings.IsWhiteSpace` | services/geminiService.ts:5 | the `\s` class, which is also the white space `parseInt` skips: exactly the ECMA-262 WhiteSpace and LineTerminator code points |
| `JsStrings.StartsWith` | components/LeadsDisplay.tsx:178 | `String.prototype.startsWith`: the prefix fits in the string and equals its first characters |
| `JsStrings.Includes` | services/geminiService.ts:111 | `String.prototype.includes`: true exactly when the pattern occurs at some index of the string |
| `JsStrings.LowerChar` | components/LeadsDisplay.tsx:74 | an upper-case ASCII letter becomes its lower-case letter (code point plus 32), every other character is unchanged, and no upper-case letter results |
| `JsStrings.Lower` | components/LeadsDisplay.tsx:74 | lowering keeps the length, lowers every character in place, and leaves no upper-case ASCII letter |
| `JsStrings.LowerIdempotent` | components/LeadsDisplay.tsx:76 | lowering a lowered string changes nothing |
| `JsStrings.SkipWhiteSpace` | services/geminiService.ts:5 | the end of the white-space run: everything skipped is white space, and the character it stops at is not |
| `Seqs.Filter` | components/LeadsDisplay.tsx:73 | `filter` returns a subsequence in which every element passes and each passing element occurs as often as in the input |
| `Seqs.FilterKeeps` | components/LeadsDisplay.tsx:73 | an element of the input is in the output exactly when it passes |
| `Seqs.FilterAll` | components/LeadsDisplay.tsx:73 | a predicate every element passes returns the input unchanged |
| `Seqs.FilterIdempotent` | components/LeadsDisplay.tsx:73 | filtering twice by one predicate is filtering once |
| `Seqs.FilterConjunction` | components/LeadsDisplay.tsx:91 | filtering by a conjunction equals filtering by each conjunct in turn |
| `Seqs.FilterSplit` | components/LeadsDisplay.tsx:79-89 | a predicate and its negation keep, together, exactly as many elements as the input has |
| `Seqs.Map` | services/geminiService.ts:96-105 | `map` keeps the length and applies the function at every index |
| `Json.Get` | services/geminiService.ts:97-104 | for the eight lead keys, a property read gives a value exactly when the value is an object with that member, and then gives that member |
| `Extraction.FirstFence` | services/geminiService.ts:5 | the lazy body stops at the first closing fence: one starts at the index returned and none earlier |
| `Extraction.TrimEnd` | services/geminiService.ts:5 | the `\s*` before the fence takes exactly the white space that ends the body |
| `Extraction.LastIndexOf` | services/geminiService.ts:5 | the greedy `[\s\S]*` reaches the last `]`: one is at the index returned and none after it |
| `Extraction.MatchAt` | services/geminiService.ts:5 | a match is found at a position exactly when one of the two alternatives can start there, and it is described correctly |
| `Extraction.SearchFrom` | services/geminiService.ts:5 | the match found is the first from the start position on, and none is found only when no position matches |
| `Extraction.Match` | services/geminiService.ts:5 | `text.match`: no match exactly when no position matches; otherwise the leftmost match, described by its capture |
| `Extraction.JsonText` | services/geminiService.ts:8 | `match[1]`, or `match[2]` when that is falsy: the fenced body when it is non-empty, the text `undefined` for an empty body, the bracket span otherwise |
| `Extraction.ExtractJsonFromString` | services/geminiService.ts:4-17 | "Could not find a valid JSON array…" exactly when nothing matches; otherwise the capture of the leftmost match is parsed: it succeeds exactly when that parses, with the parsed value, and fails with "…not valid JSON." otherwise |
| `Extraction.LeadsData` | services/geminiService.ts:79-89 | extraction first; the whole text is parsed only when it throws; the invalid-format error only when both fail |
| `Extraction.CaptureParsed` | services/geminiService.ts:8-10 | when the leftmost match's capture parses, `leadsData` is its parsed value |
| `Extraction.FencedBlockMatched` | services/geminiService.ts:5 | prose, a fenced block and any tail: the match is the fenced block at the end of the prose, with exactly the body between the white-space runs |
| `Extraction.FencedBlockExtracted` | services/geminiService.ts:5-10 | for prose, a fenced block and any tail, the capture is exactly the body between the whitespace runs, and the leads come from it |
| `Extraction.BareArrayExtracted` | services/geminiService.ts:80-88 | an answer that is a bare `[...]` is taken whole; if it does not parse, the invalid-format error follows |
| `Extraction.EmptyFenceNotValidJson` | services/geminiService.ts:8-13 | an empty fenced block gives a falsy capture, so `JSON.parse(undefined)` fails with "not valid JSON" and the whole text is tried |
| `Extraction.BracketBeforeFenceWins` | services/geminiService.ts:5-8 | a `[` before any fence starts the match even when a fenced block follows, and its span ends at the last `]` |
| `Extraction.NoMatchAtPlainChar` | services/geminiService.ts:5 | no match starts at a character other than "`" or "[" |
| `GeminiService.RequestFor` | services/geminiService.ts:59-66 | the one request: the key, the model "gemini-2.5-flash", the search parameters of the prompt, search grounding and temperature 0.1 |
| `GeminiService.ToSource` | services/geminiService.ts:69-72 | a source takes the chunk's uri and title; a source with both comes from a chunk holding exactly those |
| `GeminiService.IsCited` | services/geminiService.ts:73 | `source.uri && source.title`: both are non-empty |
| `GeminiService.SourcesOf` | services/geminiService.ts:68-73 | missing metadata gives `[]`; a chunk without `web` throws; otherwise exactly the cited sources, each with a uri and a title, in chunk order, each as often as among the chunks |
| `GeminiService.FieldText` | services/geminiService.ts:97-104 | a member holding a string is kept as it is, and a missing member gives "" |
| `GeminiService.ToLead` | services/geminiService.ts:97-104 | one element becomes the lead whose eight fields are the element's eight members, or "" |
| `GeminiService.Normalise` | services/geminiService.ts:96-105 | fails exactly when an element is `null`; otherwise one lead per element, same length and order |
| `GeminiService.NormaliseRoundTrip` | services/geminiService.ts:96-105 | leads written as the JSON objects the prompt asks for normalise back to the same leads |
| `GeminiService.LeadRoundTrip` | services/geminiService.ts:96-105 | every one of the eight fields survives normalisation |
| `GeminiService.MissingFieldIsEmpty` | services/geminiService.ts:97-104 | a field missing from an element comes out as "" |
| `GeminiService.ErrorMessageFor` | services/geminiService.ts:109-118 | the invalid-key message exactly when an Error's message holds either key phrase; the quota message exactly when it holds "quota" and no key phrase; otherwise the generic message |
| `GeminiService.InternalErrorsAreGeneric` | services/geminiService.ts:75-117 | every error the client's own code throws inside the `try` (the five internal messages and the two extraction messages) surfaces as the generic communication message |
| `GeminiService.NoKeyPhraseIsGeneric` | services/geminiService.ts:111-117 | a message with neither "k" nor "q" can hold no key phrase and no "quota" |
| `GeminiService.Attempt` | services/geminiService.ts:58-107 | a failed request is passed through; then, in order, a chunk without `web`, an empty text, a failed parse and a non-array each raise their own internal error; an array succeeds exactly when it has no `null` element, and one with a `null` element fails with the `item.name` TypeError, and a success carries the sources and the normalised leads |
| `GeminiService.GenerateLeads` | services/geminiService.ts:19-119 | no key gives the missing-key error; with a key, a successful attempt is returned as it is, and a failed one surfaces as the `catch` message its error maps to |
| `GeminiService.NoRequestWithoutKey` | services/geminiService.ts:26-28 | without a key the outcome does not depend on the service, so no request is made |
| `GeminiService.OnlyThisRequest` | services/geminiService.ts:59-66 | the outcome depends only on the service's answer to the one request with the key and the search parameters |
| `GeminiService.AnsweredFailuresAreGeneric` | services/geminiService.ts:75-117 | once the service has answered, every failure reaches the caller as the generic message |
| `GeminiService.FencedAnswerGivesLeads` | services/geminiService.ts:58-107 | a well-formed fenced answer yields one lead per array element, in order, plus the cited sources |
| `LeadsDisplay.TextMatch` | components/LeadsDisplay.tsx:74-77 | an empty filter accepts every address; any other must occur in the lowered address, lowered itself |
| `LeadsDisplay.PresenceMatch` | components/LeadsDisplay.tsx:79-89 | "yes" wants the field filled, "no" wants it empty, any other choice accepts all |
| `LeadsDisplay.Keep` | components/LeadsDisplay.tsx:91 | a lead is kept when the city, country, website and email tests all accept it |
| `LeadsDisplay.FilteredLeads` | components/LeadsDisplay.tsx:72-93 | the kept leads form an order-preserving subsequence, all accepted, each as often as in the input |
| `LeadsDisplay.KeptIffAllMatch` | components/LeadsDisplay.tsx:91 | a lead is kept exactly when the city, country, website and email predicates all hold |
| `LeadsDisplay.NoFiltersKeepsAll` | components/LeadsDisplay.tsx:67-70 | with both texts empty and both selects at "all", the filtered list is the list |
| `LeadsDisplay.TextMatchIgnoresCase` | components/LeadsDisplay.tsx:74-77 | lowering the filter text or the address does not change whether a lead matches |
| `LeadsDisplay.LongerCityFilterNarrows` | components/LeadsDisplay.tsx:76 | a lead that a longer city text accepts is also accepted by any prefix of that text |
| `LeadsDisplay.TextThenPresence` | components/LeadsDisplay.tsx:91 | filtering by the texts and then by the selects gives the same list as filtering by all four |
| `LeadsDisplay.WebsiteChoicesSplit` | components/LeadsDisplay.tsx:79-83 | "yes" and "no" on the website select divide between them the leads that "all" shows |
| `LeadsDisplay.EmailChoicesSplit` | components/LeadsDisplay.tsx:85-89 | "yes" and "no" on the email select divide between them the leads that "all" shows |
| `LeadsDisplay.OrNA` | components/LeadsDisplay.tsx:169 | a cell is never blank: the field itself, or 'N/A' when the field is empty |
| `LeadsDisplay.WebsiteHref` | components/LeadsDisplay.tsx:178 | the href ends with the website and starts with "http" or "//"; it is the website unchanged exactly when that starts with "http", and "//" followed by the website otherwise |
| `LeadsDisplay.RowFor` | components/LeadsDisplay.tsx:166-188 | a mailto link exactly when there is an email, and a website link exactly when there is a website |
| `LeadsDisplay.RowShowsFields` | components/LeadsDisplay.tsx:169-187 | each of the six text cells shows its field when that is non-empty and 'N/A' when it is empty; no text cell is blank |
| `LeadsDisplay.SourceLabel` | components/LeadsDisplay.tsx:211 | a source shows its title, or its uri when the title is empty |
| `LeadsDisplay.ReturnedSourcesShowTitles` | components/LeadsDisplay.tsx:211 | every source the service returns is shown by its non-empty title |
| `LeadsDisplay.Render` | components/LeadsDisplay.tsx:96-217 | export gets the filtered list; the count is its length; export is disabled exactly when it is empty; one row per lead; the hint appears only for an empty table and asks to adjust the filters exactly when there are leads |
| `LeadsDisplay.UnfilteredPanel` | components/LeadsDisplay.tsx:194 | before any filter is set, the count is the number of leads and the adjust-filters hint never appears |
| `LeadGenerationForm.DigitPrefix` | components/LeadGenerationForm.tsx:69 | the longest run of digits at the start of a string |
| `LeadGenerationForm.ParseInt` | components/LeadGenerationForm.tsx:69 | `parseInt(s, 10)`: leading white space skipped, an optional sign, then the longest run of digits; NaN without digits (the cases are proved in `ParseIntOf`) |
| `LeadGenerationForm.ParseSigned` | components/LeadGenerationForm.tsx:69 | `parseInt` after the white space: an optional "+" or "-", then the longest run of digits; NaN without digits, otherwise their value, negated after "-" |
| `LeadGenerationForm.StartsNegative` | components/LeadGenerationForm.tsx:69 | the text read by `parseInt` begins with "-" |
| `LeadGenerationForm.Unsigned` | components/LeadGenerationForm.tsx:69 | the text without its leading "+" or "-", if it has one |
| `LeadGenerationForm.DigitPrefixOf` | components/LeadGenerationForm.tsx:69 | the digits before a non-digit are the digits `parseInt` reads |
| `LeadGenerationForm.SkipsLeadingWhiteSpace` | components/LeadGenerationForm.tsx:69 | `parseInt` skips exactly the leading white space |
| `LeadGenerationForm.SkipsTo` | components/LeadGenerationForm.tsx:69 | skipping from a position stops at the first character that is not white space |
| `LeadGenerationForm.ParseSignedOf` | components/LeadGenerationForm.tsx:69 | after the white space: NaN without digits, otherwise the signed value of the digits |
| `LeadGenerationForm.ParseIntOf` | components/LeadGenerationForm.tsx:69 | `parseInt(ws + sign + digits + rest, 10)` is NaN without digits, otherwise the signed value of the digits, whatever follows them |
| `LeadGenerationForm.Clamp` | components/LeadGenerationForm.tsx:69 | the count is at least 1; it is the parsed value when that is at least 1, and 1 otherwise |
| `LeadGenerationForm.NotANumberGivesOne` | components/LeadGenerationForm.tsx:69 | input with no leading digits gives 1 |
| `LeadGenerationForm.ZeroGivesOne` | components/LeadGenerationForm.tsx:69 | digits denoting zero give 1, because 0 is falsy |
| `LeadGenerationForm.NegativeGivesOne` | components/LeadGenerationForm.tsx:69 | a negative number gives 1 |
| `LeadGenerationForm.DigitsGiveTheirValue` | components/LeadGenerationForm.tsx:69 | leading digits denoting n ≥ 1 give n, whatever follows them |
| `LeadGenerationForm.TrailingTextIgnored` | components/LeadGenerationForm.tsx:69 | "12abc" gives 12 |
| `LeadGenerationForm.DecimalString` | components/LeadGenerationForm.tsx:68 | the decimal rendering of a count is a non-empty digit string that denotes it |
| `LeadGenerationForm.ClampRoundTrip` | components/LeadGenerationForm.tsx:68-69 | re-entering the displayed count gives the same count |
| `AppState.App.constructor` | App.tsx:9-17 | the initial state: no key, the default search, ten leads, no results, not loading, no error |
| `AppState.App.LoadSavedKey` | App.tsx:19-24 | a non-empty stored key is adopted and left in step with storage; otherwise the key is unchanged |
| `AppState.App.HandleApiKeyChange` | App.tsx:26-29 | the key and its stored copy become the same string |
| `AppState.App.OnLeadCountInput` | components/LeadGenerationForm.tsx:69 | the count becomes the clamped input, so it is at least 1 whatever the state was before |
| `AppState.App.SubmitDisabled` | components/LeadGenerationForm.tsx:77 | the submit button is disabled exactly while loading |
| `AppState.App.ShowsResults` | App.tsx:104 | the results panel is on screen exactly when not loading and there are leads |
| `AppState.App.BeginSubmit` | App.tsx:31-44 | a missing key gives the key message; otherwise a missing field gives the fields message; in both cases leads, sources and loading are unchanged; a valid submission clears the results and the error, starts loading and disables the submit button |
| `AppState.App.CompleteSubmit` | App.tsx:46-58 | a result replaces leads and sources together, with the no-leads message exactly when it has no leads; a thrown value shows its message or the fallback text; loading ends and submit is enabled either way |
| `AppState.App.HandleSubmit` | App.tsx:31-59 | with a count of at least 1 kept: the guards, then the service's outcome: leads, sources and error follow the result, results are shown exactly when leads arrived, and a failure leaves no results and its message |

## Left out

- The `GoogleGenAI` client and the `generateContent` request are network I/O in a library that is not part of this model. Their outcome is the parameter `service`.
- `JSON.parse` is the parameter `parse`. Its grammar, and the conversion of JSON numbers to floating point, are not modelled.
- The wording of the prompt (services/geminiService.ts:31-56) is not modelled. The `Prompt` datatype only records the count, niche, city and country it embeds.
- `console.error` logging is a side effect only and is not modelled.
- `localStorage` is the field `storedKey`. Reads and writes are immediate and cannot fail.
- async/await and the React hooks are not modelled. A submission is `BeginSubmit`, then the service call, then `CompleteSubmit`, with no request overlapping another.
- `utils/csvExporter` is not part of this model. Only the list handed to it is modelled.
- JSX markup, styling, the filter input and select components, the loading spinner and the icons are not modelled.
- `toLowerCase` folds only ASCII letters here. Unicode case mapping is not modelled.
- A JavaScript string is a sequence of UTF-16 code units, while a Dafny `char` is a Unicode scalar value. The two differ for characters outside the Basic Multilingual Plane, which are two code units in JavaScript, and for unpaired surrogate code units, which a JavaScript string can hold and no Dafny `char` represents.
- `parseInt` results are exact integers. The floating-point rounding of digit strings beyond 2^53 is not modelled.
- The browser's sanitising of the value of an `<input type="number">` is not modelled. The clamp is modelled on any string.
- GeminiService.FieldText: a field holding a truthy non-string value (a number, `true`, an object, an array) is stored as "", whereas the source keeps the value itself. A `Lead` field is a string.
- GeminiService.Normalise: a property read on a `null` element throws and ends normalisation. Reads on other non-object elements give `undefined`, as in the source. The TypeError's wording follows V8.
- GeminiService.SourcesOf: the TypeError for a chunk without `web` uses V8's wording. A chunk whose `web` is `null` is folded into a missing `web`, although V8 would then say "…of null (reading 'uri')". Both end in the generic message, so nothing a caller sees changes.
- The `error &&` banner (App.tsx:97-102) and the loading panel (App.tsx:89-95) are presentation and are not modelled.
