# Salon scheduling assistant: availability engine and tool helpers

A Dafny model of the decision logic behind the scheduling assistant of the
svim-api backend. The assistant is a language-model agent whose tools talk
to a salon's booking API.

It covers:

- **Availability check.** `consultar_disponibilidade_tool` resolves a service
  by id or by a free-text term. It picks the professionals who perform that
  service, checks a requested start time and proposes free slots. The
  proposals come from a greedy scan over working days and a 30-minute grid
  between 09:00 and 18:00, with Sundays skipped.
- **Shared helpers.** The service-term normaliser and the whitelist filters
  that shrink API records before the model sees them.
- **Booking creation.** The argument checks of `criar_agendamento_tool` and
  the payload it posts.
- **Settings middleware.** It reads the model name from "settings" system
  messages, lets the runtime override it, strips those messages and swaps
  the chat model.
- **Application settings.** The CORS origin list, the effective model name
  and the credentials-with-wildcard rule.
- **Web-search API key.** The precedence of the key sources for the search
  tool.

Each module has its own file:

| file | module | models |
|---|---|---|
| `text.dfy` | `Text` | the Python string operations the code relies on |
| `values.dfy` | `Values` | JSON-like values and insertion-ordered dictionaries |
| `shared.dfy` | `Shared` | `app/ai/tools/shared.py` |
| `schedule.dfy` | `Schedule` | intervals, bookings and the slot search of the availability tool |
| `catalog.dfy` | `Catalog` | service lookup by id and by term |
| `availability.dfy` | `Availability` | the availability tool's body |
| `create_booking.dfy` | `CreateBooking` | `app/ai/tools/criar_agendamento_tool.py` |
| `middleware.dfy` | `Middleware` | `app/ai/middleware.py` |
| `app_settings.dfy` | `AppSettings` | `app/core/settings.py` |
| `tavily.dfy` | `Tavily` | `app/ai/tools/tavily_search.py` |

## Modelling choices

**Inputs instead of effects.** The HTTP fetches are inputs to the model:
- the service list;
- the roster;
- a function from professional id to that professional's services;
- a function from a time window to its bookings.

The clock reading is the parameter `now`. `json.loads` is a parameter
`parse`, which answers `None` where the call would raise. Building a chat
model is a parameter `build`, which answers `None` where construction would
raise.

**Instants.** An instant is a whole number of minutes of local time in one
fixed offset. Its calendar day is `t / 1440`, and day 0 falls on a Thursday.

**Loops become methods.** Code that loops and updates variables is a `method`
with loop invariants. Each such method is proved equal to, or to satisfy, a
specification function:
- `_is_slot_free`;
- the professional scan;
- `_suggest_slots`;
- the eligibility loop;
- the `ok_any` loop;
- the middleware's message scans;
- `_compact_response`.

**Request rewrite.** The request the middleware edits in place is the class
`Middleware.ModelRequest`.

**Local dictionaries.** `_compact_service` and `_compact_agendamento` build a
local dictionary key by key. They are modelled as a chain of `Put`
operations on a dictionary value. The dictionary never escapes before it is
returned, so no aliasing is lost.

**Source quirks the model reproduces:**

- **Rounding.** `_round_up_to_step` rounds the minute *of the hour*. The
  result is on the grid only when the step divides 60; the tool always uses
  30.
- **`sugestoes` of 0 or less.** The scan checks the count after every grid
  position, so it answers the proposal at the first visited position, or
  nothing when nobody is free there (`Schedule.FirstOnly`).
- **Empty intervals.** `_overlap` holds for an empty interval lying strictly
  inside the other one, so a zero-minute booking blocks a slot around it.
- **Negative durations.** `_safe_int(...) or 30` lets a negative duration
  through.
- **`str(None)`.** A `None` service name is compared as the text `"None"`.
- **Regex class.** The raw pattern `[^a-z0-9\\s]` keeps a-z, 0-9 and the
  backslash. Every other character, whitespace included, becomes a space.

**Where the code and its prose disagree, the model follows the code:**

- **Eligibility.** When a professional is requested and is in the roster,
  only that professional is checked. If they do not perform the service,
  nobody is eligible. The roster is *not* checked as a fallback, although
  the comment at app/ai/tools/consultar_disponibilidade_tool.py:303 ("tentamos
  só ele primeiro", "we try only them first") suggests the rest of the
  roster is tried next (`Availability.NoFallbackWhenIneligible`).
- **Middleware precedence.** The docstring of `DynamicSettingsMiddleware`
  lists `configurable` before `context`. Because the last assignment wins,
  the code gives `context` > `configurable` > settings message. A truthy
  `configurable` that is not a dictionary raises inside the `try`, which
  skips the `context` branch (`Middleware.ResolvedModel`,
  `Middleware.ContextWins`, `Middleware.RaisingConfigurableHidesContext`).

## Model

| member | source | states |
|---|---|---|
| Schedule.Overlap | app/ai/tools/consultar_disponibilidade_tool.py:36-37 | for non-empty intervals, overlap means the later start comes before the earlier end; an empty interval overlaps exactly an interval that strictly surrounds it |
| Schedule.OverlapSymmetric | app/ai/tools/consultar_disponibilidade_tool.py:36-37 | overlap does not depend on the order of the two intervals |
| Schedule.TouchingIntervalsDoNotOverlap | app/ai/tools/consultar_disponibilidade_tool.py:36-37 | intervals are half-open: [a, m) and [m, b) never overlap |
| Schedule.OverlapMeansCommonMinute | app/ai/tools/consultar_disponibilidade_tool.py:36-37 | for non-empty intervals, overlap holds exactly when some minute lies in both |
| Schedule.RoundUpToStep | app/ai/tools/consultar_disponibilidade_tool.py:50-56 | the result is at or after the input and before input + step; an on-grid minute is unchanged; the result is a multiple of the step when the step divides 60 |
| Schedule.RoundUpExamples | app/ai/tools/consultar_disponibilidade_tool.py:50-56 | 14:07 rounds to 14:30 and 14:30 stays 14:30 |
| Schedule.SafeInt | app/ai/tools/consultar_disponibilidade_tool.py:58-64 | `None`, lists and dictionaries give none; integers are themselves; booleans are 1 and 0; text is read as a decimal integer (round trip in SafeIntOfDecimalText) |
| Schedule.BookingInterval | app/ai/tools/consultar_disponibilidade_tool.py:168-178 | an interval exactly when the start and an integer duration are usable; it begins at the start and is as long as the duration |
| Schedule.SafeIntOfDecimalText | app/ai/tools/consultar_disponibilidade_tool.py:58-64 | a duration given as the decimal text of n is read back as n |
| Schedule.IsSlotFree | app/ai/tools/consultar_disponibilidade_tool.py:182-198 | answers true exactly when no booking of that professional with a usable interval overlaps the slot |
| Schedule.BookedIntervalIsTaken | app/ai/tools/consultar_disponibilidade_tool.py:170-198 | a slot starting where a professional's positive-length booking starts is never free for that professional |
| Schedule.OtherProfessionalsIgnored | app/ai/tools/consultar_disponibilidade_tool.py:188-191 | adding a booking of another professional does not change whether a slot is free |
| Schedule.IncompleteBookingsIgnored | app/ai/tools/consultar_disponibilidade_tool.py:170-194 | adding a booking without a start, or with a duration `int` rejects, does not change whether a slot is free |
| Schedule.FirstFree | app/ai/tools/consultar_disponibilidade_tool.py:229-238 | the chosen professional is free and every earlier one in list order is not; none is chosen only when nobody is free |
| Schedule.FindFreeProfessional | app/ai/tools/consultar_disponibilidade_tool.py:229-238 | the `for p ... break` loop picks the first free professional in list order |
| Schedule.FirstCursorFacts | app/ai/tools/consultar_disponibilidade_tool.py:217-222 | each day's scan starts on the grid, at or after 09:00 of that day and at or after the base instant |
| Schedule.ScanDay | app/ai/tools/consultar_disponibilidade_tool.py:217-245 | one working day of the scan either reaches the cap with a valid result or keeps every invariant up to the next midnight; for `sugestoes` of 0 or less it stops exactly when the day's first cursor fits, answering the proposal there |
| Schedule.SuggestSlots | app/ai/tools/consultar_disponibilidade_tool.py:200-247 | at most max(sugestoes, 1) slots; each is the first free professional's slot at its grid position; for a positive duration, starts strictly increase and are visited positions; no visited position with a free professional is skipped before the scan stops; for `sugestoes` of 0 or less, exactly the proposal at the first visited position, or nothing |
| Schedule.FirstVisitIsEarliest | app/ai/tools/consultar_disponibilidade_tool.py:212-227 | for a positive duration, the first visited position is the earliest scan position; there is none exactly when the scan has no position |
| Schedule.NonPositiveCountFacts | app/ai/tools/consultar_disponibilidade_tool.py:240-241 | for `sugestoes` of 0 or less and a positive duration, at most one slot, at the earliest scan position; none exactly when nobody is free at the first visited position |
| Schedule.SuggestedSlotFacts | app/ai/tools/consultar_disponibilidade_tool.py:212-238 | every slot lasts the duration inside 09:00-18:00 of its own day, is not on a Sunday, lies within the first `dias_busca` calendar days and not before the base, is on the 30-minute grid, and names the first professional free over it |
| Catalog.PickServiceById | app/ai/tools/consultar_disponibilidade_tool.py:129-133 | the first service whose `id` equals the identifier (Python equality); none only when no service has it |
| Catalog.Score | app/ai/tools/consultar_disponibilidade_tool.py:157 | a score never exceeds the number of query words; it is zero exactly when the name contains none of them, and the number of words exactly when it contains all |
| Catalog.ScoreAppend | app/ai/tools/consultar_disponibilidade_tool.py:157 | the score adds up over the query words, one point per contained word, so repeated words count again |
| Catalog.LongWordsIff | app/ai/tools/consultar_disponibilidade_tool.py:153 | a word is kept exactly when it is a query word of three or more characters |
| Catalog.LongWordsAppend | app/ai/tools/consultar_disponibilidade_tool.py:153 | the filter works segment by segment, so order and repeats are kept |
| Catalog.LongWordsSingle | app/ai/tools/consultar_disponibilidade_tool.py:153 | a single word is kept exactly when it has three or more characters |
| Catalog.ExactMatch | app/ai/tools/consultar_disponibilidade_tool.py:140-143 | the first service whose lowered, stripped name is the query; none only when no name is |
| Catalog.ShortestContaining | app/ai/tools/consultar_disponibilidade_tool.py:145-150 | a containing service with the shortest name, strictly shorter than every earlier containing one; none only when no name contains the query |
| Catalog.BestScored | app/ai/tools/consultar_disponibilidade_tool.py:152-162 | a positive-score service is chosen; none only when every score is zero |
| Catalog.BestOfRanks | app/ai/tools/consultar_disponibilidade_tool.py:160-162 | no positive position sorts before the chosen one, which sorts strictly before every earlier positive position (the head of a stable sort) |
| Catalog.BestScoredRanks | app/ai/tools/consultar_disponibilidade_tool.py:152-162 | the chosen service has the highest score, then the shortest name, then the earliest position |
| Catalog.PickByQuery | app/ai/tools/consultar_disponibilidade_tool.py:140-164 | the answer is a position in the service list |
| Catalog.PickServiceByTerm | app/ai/tools/consultar_disponibilidade_tool.py:135-164 | an empty normalised query chooses nothing; otherwise the three stages decide |
| Catalog.ExactStageWins | app/ai/tools/consultar_disponibilidade_tool.py:140-143 | when some name is exactly the query, the first such service is chosen |
| Catalog.ContainsStageWins | app/ai/tools/consultar_disponibilidade_tool.py:145-150 | without an exact name, the shortest containing name wins, earliest on ties |
| Catalog.ScoreStageWins | app/ai/tools/consultar_disponibilidade_tool.py:152-162 | without a containing name, the best word score wins: highest score, then shortest name, then earliest |
| Catalog.NoMatchIff | app/ai/tools/consultar_disponibilidade_tool.py:135-164 | nothing is chosen exactly when no name contains the query or any of its long words |
| Catalog.ExactNameContains | app/ai/tools/consultar_disponibilidade_tool.py:142-146 | a name equal to the query after stripping also contains the query |
| Availability.ChosenService | app/ai/tools/consultar_disponibilidade_tool.py:277-282 | an identifier match wins; when the identifier is absent or finds nothing, a non-empty term decides through the term lookup, and without one nothing is chosen |
| Availability.DurationOf | app/ai/tools/consultar_disponibilidade_tool.py:292 | the service's duration when it parses to a non-zero integer, 30 otherwise |
| Availability.WithId | app/ai/tools/consultar_disponibilidade_tool.py:306 | only roster entries carrying the identifier; empty exactly when none does |
| Availability.WithIdIff | app/ai/tools/consultar_disponibilidade_tool.py:306 | a roster entry is kept exactly when it carries the identifier |
| Availability.WithIdAppend | app/ai/tools/consultar_disponibilidade_tool.py:306 | the filter works segment by segment, so roster order and repeats are kept |
| Availability.WithIdWithin | app/ai/tools/consultar_disponibilidade_tool.py:306 | every kept entry comes from the roster |
| Availability.WithIdSingle | app/ai/tools/consultar_disponibilidade_tool.py:306 | a single entry is kept exactly when it carries the identifier |
| Availability.ToCheck | app/ai/tools/consultar_disponibilidade_tool.py:304-310 | the professionals checked come from the roster, and there are some exactly when the roster is non-empty |
| Availability.Offers | app/ai/tools/consultar_disponibilidade_tool.py:315 | the service list offers the service exactly when a search for the first entry with its identifier succeeds |
| Availability.Eligible | app/ai/tools/consultar_disponibilidade_tool.py:312-317 | only checked professionals whose service list offers the service |
| Availability.CollectEligible | app/ai/tools/consultar_disponibilidade_tool.py:312-317 | the eligibility loop collects the eligible professionals, in order |
| Availability.EligibleIff | app/ai/tools/consultar_disponibilidade_tool.py:312-317 | a professional is eligible exactly when checked and offering the service |
| Availability.EligibleAppend | app/ai/tools/consultar_disponibilidade_tool.py:312-317 | eligibility filters segment by segment, so roster order is kept |
| Availability.ToCheckFacts | app/ai/tools/consultar_disponibilidade_tool.py:304-310 | a requested professional in the roster is the only one checked; otherwise the whole roster is checked |
| Availability.NoFallbackWhenIneligible | app/ai/tools/consultar_disponibilidade_tool.py:304-326 | a requested professional in the roster who does not offer the service leaves nobody eligible |
| Availability.NoneEligible | app/ai/tools/consultar_disponibilidade_tool.py:312-319 | when no service list offers the service, nobody is eligible |
| Availability.BookingWindow | app/ai/tools/consultar_disponibilidade_tool.py:329-331 | the window starts at the base day's midnight and spans max(1, diasBusca) days |
| Availability.ScanInsideWindow | app/ai/tools/consultar_disponibilidade_tool.py:328-333 | every position the scan visits lies, with its whole slot, inside the window whose bookings were fetched |
| Availability.FirstAvailable | app/ai/tools/consultar_disponibilidade_tool.py:351-357 | `ok_any` says whether some eligible professional is free; `ok_pid` is the first free one |
| Availability.CheckRequested | app/ai/tools/consultar_disponibilidade_tool.py:336-363 | the step-5 code builds exactly the `requested` record: none without a requested time, that professional's availability with one named, the first free eligible professional otherwise |
| Availability.RequestedFacts | app/ai/tools/consultar_disponibilidade_tool.py:336-363 | with a professional named, availability is that professional's; without one, available exactly when some eligible professional is free, reporting the first free one |
| Availability.SuggestCandidates | app/ai/tools/consultar_disponibilidade_tool.py:369-373 | the suggestion candidates are eligible professionals, and there are some exactly when someone is eligible |
| Availability.SuggestCandidatesFacts | app/ai/tools/consultar_disponibilidade_tool.py:369-373 | suggestions narrow to the requested professional when eligible, and use every eligible professional otherwise |
| Availability.Serve | app/ai/tools/consultar_disponibilidade_tool.py:292-396 | no roster gives the error; nobody eligible gives the empty answer; otherwise the eligible list is capped at 10, the requested record is reported, and suggestions are computed exactly when no time was given or it is unavailable |
| Availability.CheckAvailability | app/ai/tools/consultar_disponibilidade_tool.py:272-396 | no services gives the error; an unresolved service gives at most 10 candidates; a resolved service is served as above |
| Shared.StripAccents | app/ai/tools/shared.py:12-15 | no combining mark is left; ASCII text is unchanged |
| Shared.StripAccentsBaseLetters | app/ai/tools/shared.py:12-15 | text without combining marks keeps its length, and each character is replaced by its base letter |
| Shared.StripAccentsAppend | app/ai/tools/shared.py:12-15 | accents are removed piece by piece, so text order is kept |
| Shared.StripAccentsChar | app/ai/tools/shared.py:12-15 | a lone combining mark disappears, and any other character becomes its base letter |
| Shared.StripAccentsExample | app/ai/tools/shared.py:12-15 | "ção" becomes "cao" |
| Shared.CleanText | app/ai/tools/shared.py:22 | every character outside a-z, 0-9 and backslash becomes a space |
| Shared.WithoutStopWords | app/ai/tools/shared.py:23 | the kept tokens are input tokens that are not stop words |
| Shared.WithoutStopWordsIff | app/ai/tools/shared.py:23 | a token is kept exactly when it is an input token that is not a stop word |
| Shared.WithoutStopWordsAppend | app/ai/tools/shared.py:23 | the filter works segment by segment, so token order and repeats are kept |
| Shared.WithoutStopWordsSingle | app/ai/tools/shared.py:23 | a single token is kept exactly when it is not a stop word |
| Shared.NormalizeServiceTerm | app/ai/tools/shared.py:18-27 | `None` and `""` are returned unchanged; with no surviving token, the original term is returned unchanged; otherwise the alias of the whole joined phrase, or the phrase itself when it is no alias key |
| Shared.PhraseShape | app/ai/tools/shared.py:21-26 | the joined phrase has only a-z, 0-9, backslashes and spaces; splitting it gives back exactly the surviving tokens, none a stop word |
| Shared.CleanTermText | app/ai/tools/shared.py:21-22 | lowering, accent removal and the substitution leave a normalised phrase unchanged |
| Shared.NormalizeIdempotent | app/ai/tools/shared.py:18-27 | normalising a phrase that is no alias key a second time changes nothing |
| Shared.TrimFields | app/ai/tools/shared.py:30-36 | a key is present exactly when allowed and present with a value other than None, "" or []; its value is unchanged |
| Shared.TrimFieldsKeys | app/ai/tools/shared.py:30-36 | the result's keys are the kept keys in allowed order, each once |
| Shared.Truncate | app/ai/tools/shared.py:47 | a prefix of at most n characters, the whole text when it is short enough |
| Shared.PricedService | app/ai/tools/shared.py:39-45 | the whitelisted fields, and `valor` only on request, falling back to `preco` |
| Shared.CompactService | app/ai/tools/shared.py:39-48 | the whitelisted fields, `valor` only on request (falling back to `preco`), and `descricao`, when present, as text cut to 160 characters; no other key |
| Shared.CompactProfessional | app/ai/tools/shared.py:51-61 | exactly the kept whitelisted professional fields |
| Shared.AttachTwo | app/ai/tools/shared.py:69-72 | the nested service and professional are attached only when present; other keys are untouched |
| Shared.AttachNested | app/ai/tools/shared.py:69-74 | the nested client is attached as well, only when present |
| Shared.CompactBooking | app/ai/tools/shared.py:64-75 | the whitelisted booking fields; nested service and professional compacted and the client trimmed to id and name, each only when a dictionary; no other key |
| Shared.CopyKeys | app/ai/tools/shared.py:99-101 | each listed key present in the source is copied; every other key keeps its value |
| Shared.WithMeta | app/ai/tools/shared.py:89-101 | `data` plus exactly the meta keys the response has |
| Shared.Compacted | app/ai/tools/shared.py:78-103 | non-dictionary and error responses are unchanged; otherwise mapped `data` and only page, pageSize, total and message |
| Shared.CompactResponse | app/ai/tools/shared.py:78-103 | the key-by-key construction builds exactly that answer |
| Shared.CompactedMapsList | app/ai/tools/shared.py:91-93 | a list under `data` is mapped element by element, keeping length and order |
| CreateBooking.RequiredFields | app/ai/tools/criar_agendamento_tool.py:25-32 | the six required fields, in declaration order |
| CreateBooking.Missing | app/ai/tools/criar_agendamento_tool.py:33 | the missing list is empty exactly when no field value is None, "" or [] |
| CreateBooking.MissingIff | app/ai/tools/criar_agendamento_tool.py:33 | a name is listed exactly when its field's value is None, "" or [] |
| CreateBooking.MissingAppend | app/ai/tools/criar_agendamento_tool.py:33 | the list keeps declaration order: it filters segment by segment |
| CreateBooking.NothingMissing | app/ai/tools/criar_agendamento_tool.py:33-34 | usable values for all six fields leave nothing missing |
| CreateBooking.ValidateBooking | app/ai/tools/criar_agendamento_tool.py:25-64 | missing fields give ARGS_INVALIDOS with their names first; then a non-digit profissionalId, then a non-digit servicoId, is rejected with its text; the payload is posted exactly when every check passes |
| CreateBooking.MissingBeforeDigits | app/ai/tools/criar_agendamento_tool.py:33-45 | a missing profissionalId is reported as missing, not as non-numeric |
| CreateBooking.Payload | app/ai/tools/criar_agendamento_tool.py:55-64 | the payload has the eight fields, in order, each once, and always carries `confirmado` |
| CreateBooking.BookingReply | app/ai/tools/criar_agendamento_tool.py:69 | an error reply or a non-dictionary reply is handed back unchanged; otherwise a dictionary `data` is replaced by the compacted booking |
| CreateBooking.PayloadConfirmed | app/ai/tools/criar_agendamento_tool.py:63 | `confirmado` is true when not given and passed through otherwise |
| CreateBooking.PayloadIds | app/ai/tools/criar_agendamento_tool.py:56-58 | the three identifiers are copied unchanged |
| CreateBooking.PayloadTiming | app/ai/tools/criar_agendamento_tool.py:59-60 | the start and the duration are copied unchanged |
| CreateBooking.PayloadPriceNotes | app/ai/tools/criar_agendamento_tool.py:61-62 | the price and the notes are copied unchanged |
| Middleware.SettingsModel | app/ai/middleware.py:36-37 | a settings message's model, when usable, is non-empty and stripped |
| Middleware.ExtractSettingsFromMessages | app/ai/middleware.py:21-42 | the backward scan answers the model of the last settings message, skipping every other message |
| Middleware.LastSettingsDecides | app/ai/middleware.py:27-38 | the last settings message decides, even when it names no model and earlier ones do |
| Middleware.LastSettingsSkips | app/ai/middleware.py:29-40 | a message that is not a settings message does not change the answer |
| Middleware.NoSettingsNoModel | app/ai/middleware.py:25-42 | a history without settings messages names no model |
| Middleware.LastSettingsModelTrimmed | app/ai/middleware.py:36-37 | the extracted name is non-empty and stripped |
| Middleware.StripSettingsMessages | app/ai/middleware.py:45-64 | the forward scan answers the history without its settings messages |
| Middleware.WithoutSettingsFacts | app/ai/middleware.py:45-64 | never longer; keeps exactly the input's messages that are not settings messages |
| Middleware.WithoutSettingsAppend | app/ai/middleware.py:49-63 | stripping distributes over concatenation, so order is kept |
| Middleware.WithoutSettingsKeepsPlain | app/ai/middleware.py:49-63 | a history without settings messages is unchanged |
| Middleware.WithoutSettingsIdempotent | app/ai/middleware.py:45-64 | stripping twice strips nothing more |
| Middleware.NoSettingsAfterStrip | app/ai/middleware.py:104-106 | the stripped history names no model |
| Middleware.ConfigurableStep | app/ai/middleware.py:88-92 | a non-dictionary `config` gives no override |
| Middleware.ConfigurableStepPath | app/ai/middleware.py:89-92 | `{"configurable": {"model_name": "m"}}` gives the name `m` |
| Middleware.ConfigurableStepOtherName | app/ai/middleware.py:90-91 | a `configurable` without `model_name` gives no name |
| Middleware.ConfigurableStepRaises | app/ai/middleware.py:90-91 | a truthy string `configurable` makes the step raise |
| Middleware.ContextNamePath | app/ai/middleware.py:94-97 | `{"model_name": "m"}` as `context` gives the name `m` |
| Middleware.ContextWins | app/ai/middleware.py:94-97 | a usable `context` name wins unless the `configurable` step raised |
| Middleware.ConfigurableWinsOverMessages | app/ai/middleware.py:88-92 | without a `context` name, a usable `configurable` name wins over the messages |
| Middleware.RaisingConfigurableHidesContext | app/ai/middleware.py:87-99 | a truthy non-dictionary `configurable` leaves the messages' name in place |
| Middleware.ResolvedModelTrimmed | app/ai/middleware.py:81-102 | every resolved name is non-empty and stripped |
| Middleware.ResolvePrefs | app/ai/middleware.py:81-102 | the name is the one the three sources resolve to; the tools are copied |
| Middleware.ApplyModelToolsMessages | app/ai/middleware.py:104-124 | messages become the stripped history and tools the given list; the model is replaced only for a non-empty name that builds; the runtime is untouched |
| Middleware.WrapModelCall | app/ai/middleware.py:131-137 | the request handed on has the stripped history, the same tools, the model of the resolved name, and no settings message left |
| AppSettings.CleanParts | app/core/settings.py:66 | every kept part is non-empty and stripped |
| AppSettings.CleanPartsIff | app/core/settings.py:66 | an origin is listed exactly when it is the non-empty stripped form of some part |
| AppSettings.CleanPartsKeepsOut | app/core/settings.py:66 | a character absent from every part is absent from every origin |
| AppSettings.CleanPartsOfTrimmed | app/core/settings.py:66 | parts already stripped and non-empty are kept as they are |
| AppSettings.AllowOrigins | app/core/settings.py:59-66 | blank gives []; exactly `*` gives ["*"]; otherwise the comma-separated parts, trimmed, empty ones dropped, in order; every origin is non-empty, stripped and comma-free |
| AppSettings.AllowOriginsOfStripped | app/core/settings.py:61 | surrounding whitespace does not change the list |
| AppSettings.WildcardCaseAgrees | app/core/settings.py:64-66 | the `*` special case answers what the general path would |
| AppSettings.AllowOriginsOfJoin | app/core/settings.py:59-66 | stripped, comma-free origins joined with commas parse back to themselves |
| AppSettings.EffectiveModelName | app/core/settings.py:68-70 | the studio model when set and non-empty, the default otherwise |
| AppSettings.ValidateCorsCredentials | app/core/settings.py:72-80 | refuses exactly credentials with a stripped raw string equal to `*`; otherwise returns the flag unchanged |
| AppSettings.ValidateCorsCredentialsIntended | app/core/settings.py:72-80 | refuses exactly credentials with `*` among the parsed origins |
| AppSettings.AsWrittenRefusalIsIntended | app/core/settings.py:72-80 | every refusal of the validator as written is one the intended rule makes too |
| AppSettings.WildcardInListPasses | app/core/settings.py:72-80 | `*,https://a.b` with credentials passes as written, although `*` is among its origins |
| AppSettings.CorsConfig | app/core/settings.py:59-80 | an accepted configuration never combines credentials with the wildcard origin |
| Tavily.ConfigurableKey | app/ai/tools/tavily_search.py:19-30 | a non-dictionary runtime gives no configurable key |
| Tavily.ContextKey | app/ai/tools/tavily_search.py:32-41 | a non-dictionary runtime gives no context key |
| Tavily.ConfigurableKeyPath | app/ai/tools/tavily_search.py:21-28 | `{"config": {"configurable": {"tavily_api_key": "k"}}}` gives the key `k` |
| Tavily.ConfigurableKeyOtherName | app/ai/tools/tavily_search.py:24-27 | a `configurable` without `tavily_api_key` gives no key |
| Tavily.ContextKeyPath | app/ai/tools/tavily_search.py:34-39 | `{"context": {"tavily_api_key": "k"}}` gives the key `k` |
| Tavily.ResolveTavilyKey | app/ai/tools/tavily_search.py:12-49 | a returned key is non-empty and stripped; the lookup fails, with its message, exactly when no source gives a non-blank key |
| Tavily.ConfigurableKeyWins | app/ai/tools/tavily_search.py:19-30 | a usable configurable key wins over everything else |
| Tavily.ContextKeyNext | app/ai/tools/tavily_search.py:32-41 | the context key is used only when the configurable key is absent or blank |
| Tavily.NonDictRuntimeUsesSettings | app/ai/tools/tavily_search.py:19-47 | a non-dictionary runtime skips both runtime branches |
| Tavily.SettingsKeyLast | app/ai/tools/tavily_search.py:43-47 | the settings key is the last fallback, returned stripped |
| Tavily.AsWrittenNeedsRuntime | app/ai/tools/tavily_search.py:43-49 | as written, the lookup succeeds exactly when the runtime supplies a key |
| Tavily.SettingsFallbackUnreachable | app/ai/tools/tavily_search.py:43-49 | with `TAVILY_API_KEY=k` and no runtime, the lookup as written fails while the corrected one yields `k` |
| Tavily.SettingsKey | app/ai/tools/tavily_search.py:44-45 | the settings value is the environment's `TAVILY_API_KEY`, or `None` |
| Tavily.TavilyKey | app/ai/tools/tavily_search.py:12-49 | with the corrected settings lookup, a returned key is non-empty and stripped, and the lookup fails exactly when neither runtime branch nor a non-blank environment key supplies one |
| Tavily.SettingsKeyServes | app/ai/tools/tavily_search.py:43-47 | with the corrected lookup, a non-blank environment key is used, stripped, whenever the runtime has none |

## Left out

- HTTP: `_http_get`, the `_fetch_*` functions, the booking POST and `get_http_client`. They are I/O. Their results are inputs to the model.
- `datetime.now()`. It is a clock read. The model takes `now` as a parameter.
- Schedule.BookingInterval: instants are unbounded integers, while Python's `datetime` stops at the year 9999 and raises `OverflowError` past it. Three effects are lost:
  - a booking whose end falls outside that range is dropped by the `except Exception` of app/ai/tools/consultar_disponibilidade_tool.py:179-180, but the model keeps it blocking;
  - a slot end past the range raises at line 224 with nothing to catch it, so the tool fails; `Schedule.ScanDay` and `Schedule.SuggestSlots` still answer;
  - Availability.CheckAvailability: it still answers where a window end or slot end past the range, from a huge `diasBusca` or service duration, raises at lines 331 and 339.
- ISO-8601 parsing and printing, and time-zone rules. Instants are minutes in one fixed offset. The suggested slot carries instants, not ISO strings.
- An unparseable `dataHoraDesejada`. It raises in the source and is not modelled. `Query.desired` is the instant already parsed.
- The `int(...)` conversions of the tool's arguments. The query fields are already integers.
- `json.loads`, `json.dumps` and `_tool_result`. They are serialisation. `json.loads` is the parameter `parse`.
- Unicode NFD decomposition in `_strip_accents`. Only precomposed Latin-1 letters are decomposed (`Shared.BaseLetter`). Case mapping, whitespace and digit classes also cover only the Latin-1 range (`Text`).
- Schedule.SafeInt: Python's `int` also accepts underscores between digits and non-ASCII digits. The model rejects both.
- Values.Value: JSON floats are not modelled. The source's behaviour on them is lost: `_safe_int(45.9)` truncates to 45, `int(dur)` truncates a fractional booking duration, `5.0 == 5` matches an identifier, and float prices pass through the compaction.
- Values.Str: Python's escaping of quotes inside nested strings is not modelled.
- Seconds. Instants are whole minutes. With seconds, the source can propose the minute that has already begun at the base instant. The model cannot show this.
- Schedule.SuggestSlots: ordering and the scan window are stated only for a positive duration. The count cap, the proposal property and the grid property hold for every duration.
- Roster and booking identifiers. They are taken to be integers. Every roster entry carries an `id` key (app/ai/tools/consultar_disponibilidade_tool.py:100), possibly `None`. A `None` id, which the source matches against bookings that name no professional, is not modelled.
- `chosen_service["id"]`. It is read with `get`. `_fetch_servicos` always sets the key.
- `eligible_ids`. The source fills it but never reads it.
- `CreateBooking.BookingMapper`: list items that are not dictionaries pass through. In the source they reach `_compact_agendamento` and may raise.
- The LangChain and OpenAI layer: `ChatOpenAI` construction (the parameter `build`), the handler call at the end of `wrap_model_call`, and `awrap_model_call`. The async variant does the same rewrite as `wrap_model_call`.
- `_dbg` and the loggers. They only log.
- `request.messages` or `tools` being `None`. The model takes sequences. `None` behaves as the empty list.
- Pydantic loading of `Settings` from the environment. A `Settings` value holds the fields as loaded. `get_settings` is not modelled.
- The search call `TavilySearch.invoke`. It is I/O.

## Findings

| source | as written | input that shows it | evidently intended | confidence | as-written member | corrected member |
|---|---|---|---|---|---|---|
| app/core/settings.py:72-80 | credentials are refused only when the stripped raw origins string is exactly `*` | `ALLOW_ORIGINS="*,https://a.b"`, `ALLOW_CREDENTIALS=true`: validation passes and `allow_origins` is `["*", "https://a.b"]` | refuse credentials whenever `*` is among the parsed origins | medium, not executed | AppSettings.ValidateCorsCredentials (shown by AppSettings.WildcardInListPasses) | AppSettings.ValidateCorsCredentialsIntended (used by AppSettings.CorsConfig) |
| app/ai/tools/tavily_search.py:43-47 | the fallback reads `getattr(settings, "tavily_api_key", None)`, but `Settings` declares no such field and ignores undeclared variables (app/core/settings.py:16-20), so the value is always `None` | `TAVILY_API_KEY=k` in the environment and no runtime: the lookup raises `RuntimeError` | the settings fallback yields `k` | high, not executed | Tavily.SettingsKeyAsWritten (shown by Tavily.SettingsFallbackUnreachable, Tavily.AsWrittenNeedsRuntime) | Tavily.SettingsKey (used by Tavily.TavilyKey, proved in Tavily.SettingsKeyServes) |
