# Mavilda turn processor, modelled in Dafny

Mavilda is a chat back end that qualifies sales leads for agricultural
drones. Each request to its `/process` endpoint carries a message and a
session id. The handler keeps one in-memory session record per id. It counts
the message and appends it to the history. It detects a drone model, a
surface in hectares, a phone number and (on the second message) the user's
name. It classifies the intent from keywords and picks one response from an
ordered cascade. The response is a scripted template, or one of two sentinel
strings (`__NEEDS_SHEETS__`, `__NEEDS_PINECONE__`) that tell the caller to
fetch prices or specifications. From message 4 on it may append a request for
the user's phone. Finally it marks the lead as captured once name, phone and
model are all known, and reports the `needs` flags.

Modules:

- `Wrappers` (wrappers.dfy): `Option` (JavaScript `null`) and `Result`.
- `Text` (text.dfy): the JavaScript primitives the handler uses. These are
  `\d`, `\s`, `trim`, `includes`, the lower-casing and accent-stripping
  normalization, `replace(/\D/g, "")`, `parseInt` of a digit run, and
  `length` in UTF-16 units.
- `Scanners` (scanners.dfy): hand-written scanners for the surface pattern
  `(\d+)\s*(ha|hectarea)` (case-insensitive) and the phone pattern
  `[\d\s\-\+\(\)]{10,15}`. Each is proved to return the match the regular
  expression engine reports: the leftmost one, with greedy repetition.
- `Detect` (detect.dfy): model and intent detection. Each is written as the
  handler's if/else cascade and proved equal to the first-match evaluation of
  an ordered rule table.
- `Sessions` (sessions.dfy): the session record, the response variants, the
  steps of a turn, and `Advance`, one whole turn as a pure function.
- `Turn` (turn.dfy): what one turn does, proved about `Advance` for every
  session and every message.
- `Conversation` (conversation.dfy): the same facts lifted to any sequence of
  turns.
- `Store` (store.dfy): the class `SessionStore` holding the `sessions` map.
  Its methods `GetSession` and `Process` change it in place. `Process` runs
  the turn step by step, as the handler does, in `HandleTurn`/`DetectInto`.
  It is proved to store exactly `Advance`'s session and to return exactly
  `Advance`'s outcome.

Modelling decisions:

- JavaScript truthiness is explicit. A name or phone that is `null` or `""`
  counts as unset (`Filled`). So a phone match that strips to `""` does not
  block a later phone. A surface of `0` shows as "pending" in the demo
  template.
- Lines 70-72 and 103-106 both capture the name on message 2. The model keeps
  both steps. `Turn.NameOnlyOnSecondMessage` shows their combined effect: an
  unset name becomes the trimmed second message, whatever its length.
- Scripted replies are tagged variants carrying the data they display. Their
  wording and emoji are not modelled. The sentinels and the phone-request
  suffix are kept as literal strings. `IsExactly(response, text)` stands for
  `response === text`. It relies on the fact that every template contains
  fixed wording that no sentinel has.
- The history entry's `new Date()` timestamp is a parameter of `Process`.
- `modelInterest` and `surfaceHA` are overwritten by every match in the
  message (index.js:51-61), so a later message naming another model or
  surface replaces the earlier one.
- `needs.saveLead` is `hasCompleteLead && captured`, read after `captured`
  has been switched on (index.js:160-178). It is therefore true on every turn
  on which the lead is complete, not only on the turn that completes it.

## Model

| member | source | states |
|---|---|---|
| `Text.Trim` | index.js:71 | `String.prototype.trim`: drops leading and trailing JavaScript whitespace; its contract is `Text.TrimSpec` and `Text.TrimIdempotent` |
| `Text.TrimSpec` | index.js:71 | the result is the slice left when every leading and trailing JavaScript whitespace character is removed, and it has no whitespace at either end |
| `Text.TrimIdempotent` | index.js:105 | trimming the trimmed name changes nothing |
| `Text.Contains` | index.js:51-92 | `String.prototype.includes` as a left-to-right search; its contract is `Text.ContainsSpec` and `Text.ContainsInContext` |
| `Text.ContainsSpec` | index.js:51-55 | `includes` is true exactly when the word occurs at some index of the text |
| `Text.ContainsInContext` | index.js:76-92 | a keyword found in part of a message is found in the whole message |
| `Text.Normalize` | index.js:45-48 | the keyword form `toLowerCase().normalize("NFD")` with U+0300 to U+036F removed, folded character by character; its contract is `Text.NormalizeSpec`, `Text.NormalizeKeepsUnfolded`, `Text.NormalizeKeepsOccurrences`, `Text.NormalizeAppend` and `Text.FoldsToPlainLetter` |
| `Text.NormalizeSpec` | index.js:45-48 | the keyword form of a message never contains an ASCII capital or a combining mark and is no longer than the message |
| `Text.NormalizeKeepsUnfolded` | index.js:45-48 | every character that is no ASCII capital, no combining mark and outside U+00C0 to U+00FF (lower-case ASCII letters, digits, spaces among them) is kept unchanged, so such text is its own keyword form |
| `Text.NormalizeKeepsOccurrences` | index.js:45-55 | a word found in the message is found, in its keyword form, in the message's keyword form |
| `Text.NormalizeAppend` | index.js:45-48 | normalization works character by character, so it distributes over concatenation |
| `Text.NormalizeIdempotent` | index.js:45-48 | normalizing an already normalized message changes nothing |
| `Text.FoldsToPlainLetter` | index.js:45-48 | an ASCII capital becomes its lower-case letter; every Latin-1 letter with a diacritic (À to Å, Ç, È to Ë, Ì to Ï, Ñ, Ò to Ö, Ù to Ü, Ý, ÿ and their lower-case forms) becomes the plain lower-case letter; Æ, Ð, Ø, Þ become æ, ð, ø, þ; ×, ß and ÷ are kept |
| `Text.StripNonDigits` | index.js:66 | `replace(/\D/g, "")`; its contract is `Text.StripNonDigitsSpec`, `Text.StripNonDigitsAppend` and `Text.StripNonDigitsKeepsDigits` |
| `Text.StripNonDigitsSpec` | index.js:66 | the stored phone holds only digits, and each digit of the match occurs in it as often as in the match |
| `Text.StripNonDigitsAppend` | index.js:66 | stripping works piecewise, keeping the order of the digits |
| `Text.StripNonDigitsKeepsDigits` | index.js:66 | a match made of digits only is stored unchanged |
| `Text.DecimalValue` | index.js:60 | the value `parseInt` gives an n-digit run is below 10^n |
| `Text.Utf16Length` | index.js:70 | JavaScript's `length` is between one and two units per character |
| `Scanners.MatchSurface` | index.js:58-60 | the case-insensitive match of a digit run, optional whitespace and `ha` or `hectarea`, followed by `parseInt` of the digits; its contract is `Scanners.MatchSurfaceSpec` |
| `Scanners.MatchSurfaceSpec` | index.js:58-60 | no result exactly when the hectare pattern matches nowhere; otherwise the value of the digits of the leftmost match, taking the longest digit run there |
| `Scanners.MatchPhone` | index.js:64 | `message.match(/[\d\s\-\+\(\)]{10,15}/)`; its contract is `Scanners.MatchPhoneSpec` and `Scanners.MatchPhoneShape` |
| `Scanners.MatchPhoneSpec` | index.js:64 | no result exactly when no ten phone characters stand together; otherwise the text at the leftmost such place, as many characters as follow there up to fifteen |
| `Scanners.MatchPhoneShape` | index.js:64 | a phone match is 10 to 15 characters long, all from the phone character class |
| `Detect.ModelName` | index.js:51-55 | the model strings the handler stores and reports (`T25P`, `T50`, `T70P`, `T100`, `Mavic3M`); their contract is `Detect.NamesIdentify` |
| `Detect.IntentName` | index.js:75-92 | the intent strings the handler reports (`price`, `demo`, `performance`, `financing`, `general`); their contract is `Detect.NamesIdentify` |
| `Detect.NamesIdentify` | index.js:51-92 | no two models and no two intents have the same reported string, so the reported `model` and `intent` determine the value |
| `Detect.FirstRule` | index.js:75-92 | no result exactly when no rule fires; otherwise the result of a rule that fires with no earlier rule firing |
| `Detect.DetectModel` | index.js:51-55 | the model if/else chain; its contract is `Detect.DetectModelFollowsRules` |
| `Detect.DetectModelFollowsRules` | index.js:51-55 | the model cascade is the first-match evaluation of `t25`, `t50`, `t70`, `t100`, `mavic` in that order |
| `Detect.DetectIntent` | index.js:75-92 | the intent if/else chain; its contract is `Detect.DetectIntentFollowsRules` and `Detect.IntentPriority` |
| `Detect.DetectIntentFollowsRules` | index.js:75-92 | the intent cascade is the first-match evaluation of the price, demo, performance and financing keyword groups in that order, defaulting to general |
| `Detect.IntentPriority` | index.js:76-83 | a price keyword wins over every other; demo wins when there is no price keyword; general exactly when no group fires |
| `Sessions.NewSession` | index.js:15-24 | the record `getSession` creates for an unseen id; its contract is `Store.SessionStore.GetSession` and `Conversation.FreshSessionCounts` |
| `Sessions.Detected` | index.js:42-72 | counting, recording and the model, surface, phone and short-name detections in source order; its contract is the `Turn` lemmas on those fields and `Store.DetectInto` |
| `Sessions.SelectReply` | index.js:99-152 | the response cascade; its contract is `Turn.FirstMessageGreets` through `Turn.PineconeSentinelChosen` |
| `Sessions.PhoneRequestTail` | index.js:155-157 | the phone-request suffix; its contract is `Turn.PhoneRequestHidesSentinels` |
| `Sessions.HasCompleteLead` | index.js:160-164 | `hasCompleteLead`: name, phone and model all truthy; its contract is `Turn.CapturedMonotone` and `Turn.SaveLeadIsCompleteLead` |
| `Sessions.WithCapture` | index.js:167-169 | switches `captured` on for a complete lead; its contract is `Turn.CapturedMonotone` |
| `Sessions.Advance` | index.js:42-182 | one whole turn of the handler after validation; its contract is the `Turn` lemmas and `Store.HandleTurn` |
| `Turn.CountsOneMessage` | index.js:42-43 | a turn adds exactly one to the counter and exactly one entry to the history, and keeps the id |
| `Turn.ModelFollowsMessage` | index.js:50-55 | the model is overwritten by the first rule-table match and kept when none matches; the reported model is the stored one |
| `Turn.SurfaceFollowsMessage` | index.js:57-61 | the surface is overwritten by every hectare match and kept otherwise |
| `Turn.PhoneFirstWriteWins` | index.js:63-67 | a truthy phone is never replaced; an unset one takes the digits of the phone match, if there is one |
| `Turn.PhoneStaysDigits` | index.js:66 | if the stored phone held only digits before the turn, it does after |
| `Turn.NameOnlyOnSecondMessage` | index.js:69-72 | the name changes only on message 2, and only when it was unset; it then becomes the trimmed message, whatever its length |
| `Turn.FirstMessageGreets` | index.js:100-102 | message 1 gets the greeting with nothing appended, whatever it says |
| `Turn.SecondMessageTakesName` | index.js:103-107 | message 2 with no name stored stores the trimmed message as the name and greets by that name |
| `Turn.ThirdMessageListsModels` | index.js:108-116 | message 3 with no model known gets the model list, whatever the intent |
| `Turn.IntentFollowsMessage` | index.js:74-92 | the reported intent is the rule-table classification of the normalized message |
| `Turn.PriceWordMeansPrice` | index.js:45-81 | a word in the message whose keyword form is `precio`, `costo` or `cuanto` (in any case, with or without accents) makes the intent price |
| `Turn.PrecioMeansPrice` | index.js:77-81 | a message containing `precio` has intent price |
| `Turn.T25WordNamesT25` | index.js:45-51 | a word in the message whose keyword form is `t25` makes T25P the stored and reported model |
| `Turn.CapitalT25NamesT25` | index.js:45-51 | a message containing `T25` in capitals reports the T25P |
| `Turn.SheetsSentinelChosen` | index.js:117-124 | the pricing sentinel is chosen exactly from message 3 on, for intent price with a model known |
| `Turn.PineconeSentinelChosen` | index.js:125-126 | the specification sentinel is chosen exactly from message 3 on, for intent performance with a model known |
| `Turn.DemoShowsSurface` | index.js:127-133 | a demo request past the opening gets the checklist, showing the stored surface when it is truthy and otherwise pending |
| `Turn.PriceWithoutModelAsksModel` | index.js:117-121 | a price request past message 3 with no model known asks which model the price is for |
| `Turn.FinancingGetsPlans` | index.js:134-140 | a financing request past the opening gets the financing plans |
| `Turn.GeneralFallback` | index.js:141-152 | past the opening, a message with no keyword gets the follow-up about the known model, or else the question which model interests; a performance question with no model known falls through to that question too |
| `Turn.PhoneRequestHidesSentinels` | index.js:154-157 | the phone request is appended exactly from message 4 on while no phone is stored and a model is known; on such a turn neither lookup is signalled |
| `Turn.NeedsSheetsExactly` | index.js:176 | `needs.sheets` holds exactly from message 3 on, for intent price, with a model known, and (on message 3 or with a phone stored) |
| `Turn.NeedsPineconeExactly` | index.js:177 | `needs.pinecone` holds exactly from message 3 on, for intent performance, with a model known, and (on message 3 or with a phone stored) |
| `Turn.CapturedMonotone` | index.js:159-169 | `captured` never returns to false, is true whenever the lead is complete after the turn, and changes on no other occasion |
| `Turn.SaveLeadIsCompleteLead` | index.js:178 | `needs.saveLead` equals the completeness of the lead after the turn |
| `Conversation.RunCounts` | index.js:42-43 | after N turns the counter has grown by N and the history has the N messages appended in order |
| `Conversation.FreshSessionCounts` | index.js:13-27 | a session created by `getSession` has counted, and recorded in order, exactly the messages sent to it |
| `Conversation.CapturedStays` | index.js:167-169 | once captured, a session stays captured whatever follows |
| `Conversation.CompletedLeadStaysCaptured` | index.js:160-169 | a turn that ends with a complete lead leaves the session captured for all later turns |
| `Conversation.PhoneStays` | index.js:65 | a truthy phone survives every later message unchanged |
| `Conversation.PhoneDigitsStay` | index.js:63-67 | over any number of turns, a stored phone holds only digits |
| `Conversation.NameStays` | index.js:69-72 | after message 2 the name never changes |
| `Store.Validate` | index.js:34-38 | a request is accepted exactly when both `message` and `sessionId` are present and non-empty |
| `Store.DetectInto` | index.js:42-72 | the step-by-step counting, recording and detection yields the session of the pure turn's detection steps |
| `Store.HandleTurn` | index.js:94-182 | the step-by-step turn yields exactly the outcome of the pure turn |
| `Store.SessionStore.constructor` | index.js:10 | the store starts with no sessions |
| `Store.SessionStore.Lookup` | index.js:13-27 | the record for an id carries that id, and is a fresh record when the id is unseen |
| `Store.SessionStore.GetSession` | index.js:13-27 | an unseen id gets a fresh record (no messages, no name, phone, model or surface, not captured, empty history) inserted and returned; a known id gets its record and the map is unchanged |
| `Store.SessionStore.Process` | index.js:30-182 | a rejected request changes no session; an accepted one stores the advanced session under its id, adds one message and one history entry, answers with the turn's outcome, and leaves every other session as it was |

## Left out

- HTTP plumbing: Express, CORS, JSON parsing, status codes and serialisation (index.js:1-7, 35-38, 172-189). The 400 reply is the `Failure` result of `Process`.
- The `/test` page and the health check (index.js:193-312): static output and UI.
- Server start-up and logging (index.js:315-319): process bootstrap.
- The try/catch path (index.js:183-189): no modelled operation throws. In the source, mutations made before an exception persist; the model writes the session back once, at the end of the turn.
- Request fields of a type other than string: a non-string truthy `message` would throw in `toLowerCase`; the model takes both fields as optional strings.
- Prototype keys: JavaScript looks up `sessions[sessionId]` on a plain object, so ids such as `constructor` find inherited properties; the model's map has only the stored sessions.
- `Text.Normalize`: lower-casing and canonical decomposition are modelled for Basic Latin and Latin-1 Supplement only (plus removal of U+0300 to U+036F); other Unicode letters are kept as they are, because full Unicode case and decomposition tables are not part of this model.
- `Text.DecimalValue`: `parseInt` gives a double, rounding runs beyond 2^53 and reaching `Infinity` for very long runs; the model uses the exact unbounded value.
- `Text.Utf16Length`: characters are Unicode scalar values; the lone surrogates a JavaScript string may hold do not exist here.
- The wording and emoji of the scripted templates: each is a tagged variant carrying the data it shows.
