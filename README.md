# Insurance agent workspace: the rule core, modelled in Dafny

The repository is an insurance customer workspace. It has a Next.js front end with
document and communication templates and a storage view, and a Python back end that
analyses conversations and talks to an LLM. Most of it is HTTP, database and UI plumbing.
This project models the self-contained rules underneath and proves what they promise:

- **Customer-data paths and the document template registry**
  (`lib/document-templates.ts`).
  - `getCustomerDataValue` resolves a dotted path (`insuranceInfo.policyNumber`) or a
    comma-joined path (`firstName,lastName`) against an untyped customer value.
  - The three document templates carry field invariants.
- **Communication templates and `replaceTemplateVariables`**
  (`lib/communication-templates.ts`): sequential, global, literal replacement of `{key}`
  tokens, and the five templates as pieces of literal text and placeholders.
- **Storage statistics and file classification** (`lib/storage-utils.ts`).
- **Rule-based transcript analysis** (`backend/processors.py`):
  - mood detection;
  - summary sentence selection and the outcome priority;
  - the escalation predicates;
  - the conversation foresight heuristics.
- **The LLM response validator and the rule-based fallback reply**
  (`backend/llm_grok.py`). `guild_buildathon/llm_grok.py` is a byte-identical copy, and one
  model covers both.
- **Two rules embedded in pages**:
  - the template filter of `app/documents/page.tsx`;
  - recipient toggling, template choice and the submitted schedule of
    `app/communications/schedule/page.tsx`.

## Modules

| file | module | models |
|---|---|---|
| options.dfy | Options | an `Option` datatype |
| text.dfy | Text | the string operations the sources use, over `seq<char>` with ASCII case: `includes`/`in`, `toLowerCase`/`lower`, `split`, `join`, `trim`/`strip` (JavaScript and Python white space), `str.split()` words, integers as decimal text |
| document_templates.dfy | DocumentTemplates | the customer value (`VNull`, `VBool`, `VInt`, `VString`, `VObject`), the path resolver as a function `Resolve` and as methods over the source's loop, the `Customer` shape of `lib/types.ts`, the registry |
| communication_templates.dfy | CommunicationTemplates | `ReplaceAll` (a global literal replace), `Substitute` (the entry loop) and the method `ReplaceTemplateVariables`, templates as `Lit`/`Slot` pieces, the registry as written and with the dollar signs restored |
| storage_utils.dfy | StorageUtils | `StorageFile`, `StorageStats`, `CalculateStorageStats`, `GetFileType`, `GetFileIcon` |
| processors.dfy | Processors | `DetectMood`, sentence splitting and the method `SelectSentences`, `Summarize`, outcome priority, the escalation predicates, the method `GenerateForesights` and its specification `ForesightsOf` |
| llm_grok.dfy | LlmGrok | a parsed JSON value, `Validate` and the method `ValidateResponse`, the method `LastUserMessage`, the method `GetFallbackResponse` |
| documents_page.dfy | DocumentsPage | `FilterTemplates` over the document registry |
| schedule_page.dfy | SchedulePage | `Toggle`, `OfChannel`, `Find`, `Timestamp`, and the class `ScheduleForm` holding the page's state fields |

Where a loop in the source builds a result step by step, the model has a `method` with
loop invariants. Its `ensures` ties the method to a specification function, and the
lemmas are stated about that function.

## Model

| member | source | states |
|---|---|---|
| DocumentTemplates.GetCustomerDataValue | lib/document-templates.ts:247-272 | the resolver method returns exactly `Resolve(customer, path)` |
| DocumentTemplates.LookupDotted | lib/document-templates.ts:260-271 | the dotted loop returns the display of the value reached by walking the keys, or "" once a step fails |
| DocumentTemplates.ResolveCommaPath | lib/document-templates.ts:251-257 | a path with a comma yields the parts' results, empty ones dropped, joined with single spaces |
| DocumentTemplates.ResolveEmptyPath | lib/document-templates.ts:248 | the empty path resolves to "" |
| DocumentTemplates.ResolvePartsAt | lib/document-templates.ts:251-254 | part i of a comma path is resolved after trimming, in declared order |
| DocumentTemplates.CommaPartsAreSingle | lib/document-templates.ts:252-254 | no trimmed comma part contains a comma, so the recursion is one level deep |
| DocumentTemplates.WalkPathFails | lib/document-templates.ts:263-268 | a walk fails exactly when at some step the current value is not an object holding the key |
| DocumentTemplates.ResolveMissingSegment | lib/document-templates.ts:263-268 | a dotted path whose walk misses a segment resolves to "" |
| DocumentTemplates.ResolveRendersReachedValue | lib/document-templates.ts:271 | a reached value is shown by its `toString`; null gives "", 0 gives "0", false gives "false" |
| DocumentTemplates.CommaPathPair | lib/document-templates.ts:251-257 | `a,b` resolves to the two trimmed results with one space between, an empty one dropped |
| DocumentTemplates.CommaPathCons | lib/document-templates.ts:251-257 | a comma path resolves to its first part glued to the rest, in order |
| DocumentTemplates.JoinNonEmptyCons | lib/document-templates.ts:255-256 | filtering empties and joining with " " glues a head to the rest |
| DocumentTemplates.DottedParses | lib/document-templates.ts:260 | a chain of identifier keys joined by "." splits back into the same keys |
| DocumentTemplates.PathTextParts | lib/document-templates.ts:251-252 | a binding's path text splits on "," into its dotted chains |
| DocumentTemplates.PathTextResolves | lib/document-templates.ts:247-272 | a binding's path resolves to the non-empty results of its key chains, joined by spaces |
| DocumentTemplates.ResolveTwoChains | lib/document-templates.ts:251-257 | a two-chain path such as `firstName,lastName` gives the two values glued by one space |
| DocumentTemplates.WalkConforming | lib/types.ts:1-29 | on a value of the Customer shape, a path of required fields always reaches a value of the named shape |
| DocumentTemplates.RegistryWellFormed | lib/document-templates.ts:19-245 | template ids are unique; in each template field ids are unique, select fields have options, bound paths name Customer fields |
| DocumentTemplates.OnlySelectIsCoverage | lib/document-templates.ts:83-88 | the one select field of the registry is the auto policy's `coverage` |
| DocumentTemplates.BoundPathsResolveByChains | lib/document-templates.ts:31-215 | every `customerDataPath` splits into Customer field names and resolves through its key chains |
| CommunicationTemplates.ReplaceAllIsJoin | lib/communication-templates.ts:146-147 | a global replace cuts the text at every occurrence of the token and joins the pieces with the value |
| CommunicationTemplates.SplitOnJoin | lib/communication-templates.ts:146-147 | the pieces joined with the token give back the text |
| CommunicationTemplates.SplitOnPiecesFree | lib/communication-templates.ts:146 | no piece contains the token, so every occurrence is replaced |
| CommunicationTemplates.ReplaceAllAbsent | lib/communication-templates.ts:145-148 | text without the token is unchanged |
| CommunicationTemplates.ReplaceAllSelf | lib/communication-templates.ts:147 | replacing a token by itself changes nothing |
| CommunicationTemplates.ReplaceAllAppend | lib/communication-templates.ts:146-147 | replacement distributes over a concatenation that no occurrence straddles |
| CommunicationTemplates.ReplaceTemplateVariables | lib/communication-templates.ts:142-151 | the entry loop returns `Substitute(content, entries)`, the entries applied in order |
| CommunicationTemplates.EmptyValueKeepsToken | lib/communication-templates.ts:147 | an entry with an empty value leaves the text as it was |
| CommunicationTemplates.SubstituteUntouched | lib/communication-templates.ts:145-148 | text holding no token of any key is unchanged |
| CommunicationTemplates.RenderReplace | lib/communication-templates.ts:146-147 | on a well-formed template text, replacing `{k}` fills exactly the `k` placeholders |
| CommunicationTemplates.SubstituteRendered | lib/communication-templates.ts:142-151 | with identifier keys and values opening no placeholder, substitution fills each placeholder with the first non-empty value of its name |
| CommunicationTemplates.FirstValue | lib/communication-templates.ts:145-148 | the value a placeholder receives is the first non-empty value given for its name, or none |
| CommunicationTemplates.ResolvedIsFixed | lib/communication-templates.ts:142-151 | once every placeholder is filled with plain values, a second substitution changes nothing |
| CommunicationTemplates.SameEntriesIdempotent | lib/communication-templates.ts:142-151 | on a well-formed template with identifier keys and values opening no placeholder, substituting twice with the same entries equals substituting once, even when some placeholders stay unfilled |
| CommunicationTemplates.OrderMatters | lib/communication-templates.ts:145-148 | the order of the entries changes the result: a value holding a later key's token is expanded, an earlier one is not |
| CommunicationTemplates.NotIdempotent | lib/communication-templates.ts:142-151 | substitution is not idempotent in general: `{{k}}` with `k = "k"` gives `{k}`, then `k` |
| CommunicationTemplates.TemplateTokens | lib/communication-templates.ts:11-140 | a `{k}` token occurs in a registry template's subject or content exactly when `k` is a declared variable |
| CommunicationTemplates.FilledContentHasNoToken | lib/communication-templates.ts:11-151 | filling every declared variable with a plain non-empty value leaves no token in the content |
| CommunicationTemplates.RegistryWellFormed | lib/communication-templates.ts:11-140 | every template of the dollar-corrected registry declares exactly the variables its texts use |
| CommunicationTemplates.RegistryAsWrittenWellFormed | lib/communication-templates.ts:11-140 | the same holds of the registry as written |
| CommunicationTemplates.RegistryIdsUnique | lib/communication-templates.ts:13-109 | template ids are unique in both registries |
| CommunicationTemplates.SubstituteShowsValue | lib/communication-templates.ts:142-151 | a filled placeholder shows its value between the literal text around it |
| CommunicationTemplates.PaymentReminderSmsAsWrittenQuotesAmount | lib/communication-templates.ts:74 | the SMS as written shows the amount as `${"50"}` |
| CommunicationTemplates.PaymentReminderSmsShowsDollarAmount | lib/communication-templates.ts:74 | the corrected SMS shows `$` and then the amount |
| CommunicationTemplates.PolicyRenewalEmailAsWrittenDropsDollar | lib/communication-templates.ts:24 | the renewal email as written shows the premium with no `$` |
| CommunicationTemplates.PolicyRenewalEmailShowsDollarPremium | lib/communication-templates.ts:24 | the corrected renewal email shows `$` and then the premium |
| CommunicationTemplates.WelcomeNewCustomerAsWrittenDropsDollar | lib/communication-templates.ts:57 | the welcome email as written shows the premium with no `$` |
| CommunicationTemplates.WelcomeNewCustomerShowsDollarPremium | lib/communication-templates.ts:57 | the corrected welcome email shows `$` and then the premium |
| StorageUtils.CalculateStorageStats | lib/storage-utils.ts:119-137 | totalFiles is the length; totalSize = usedStorage = the sum of sizes; available is 10·1024³; synced + pending + failed = totalFiles; the empty list gives zeros |
| StorageUtils.CountStatus | lib/storage-utils.ts:124-126 | a status count never exceeds the number of files |
| StorageUtils.StatusesPartition | lib/storage-utils.ts:124-126 | synced, pending-or-syncing and failed counts add up to the number of files |
| StorageUtils.SumPermutation | lib/storage-utils.ts:121-126 | sums and counts depend only on the multiset of files |
| StorageUtils.StatsPermutation | lib/storage-utils.ts:119-137 | the stats of a permuted list are the same |
| StorageUtils.StatsAppend | lib/storage-utils.ts:119-137 | adding a file adds its size to the total and one to its status count |
| StorageUtils.GetFileType | lib/storage-utils.ts:161-180 | pdf→pdf, jpg/jpeg/png/gif→image, doc/docx→document, xls/xlsx→spreadsheet, anything else→other, on the lower-cased text after the last "." |
| StorageUtils.SplitLastAfter | lib/storage-utils.ts:162 | the last piece of `prefix.ext` split on "." is `ext` when `ext` has no dot |
| StorageUtils.FileTypeAfterLastDot | lib/storage-utils.ts:161-180 | only the text after the last dot decides the type |
| StorageUtils.FileTypeIgnoresCase | lib/storage-utils.ts:162 | the type ignores the case of the file name |
| StorageUtils.GetFileIcon | lib/storage-utils.ts:104-117 | total; pdf, image, document and spreadsheet each get their own icon (📄, 🖼️, 📝, 📊), and the default folder icon 📁 is shown exactly for every other type |
| StorageUtils.IconsDistinct | lib/storage-utils.ts:104-117 | the four known types have four different icons |
| Processors.KeywordCount | backend/processors.py:112-113 | a keyword count is at most the number of keywords |
| Processors.KeywordCountSingle | backend/processors.py:112-113 | one keyword counts 1 when it occurs in the text and 0 otherwise |
| Processors.KeywordCountAppend | backend/processors.py:112-113 | counts add up over concatenated keyword lists, so the count is the number of keywords present |
| Processors.KeywordCountPositive | backend/processors.py:112-113 | the count is positive exactly when some keyword occurs |
| Processors.KeywordCountPresence | backend/processors.py:112-113 | the count depends only on which keywords occur, not how often |
| Processors.RatioThreshold | backend/processors.py:117-125 | `count / max(words, 1) > 0.05` exactly when `20·count > max(words, 1)` |
| Processors.StrongRatioCaps | backend/processors.py:123-127 | above the threshold `min(0.9, 0.5 + 10·ratio)` is 0.9 |
| Processors.DetectMood | backend/processors.py:83-138 | negative iff neg > pos and the negative ratio exceeds 0.05; positive symmetrically; confidence 0.9 for either and 0.6 for neutral |
| Processors.MoodDependsOnPresence | backend/processors.py:112-118 | two transcripts with the same word count and the same keywords present get the same mood |
| Processors.Pieces | backend/processors.py:153 | splitting at `.`, `!`, `?` gives one more piece than there are stop characters, none holding one |
| Processors.PiecesNoStop | backend/processors.py:153 | a text without a stop character is a single piece, itself |
| Processors.PiecesAtStop | backend/processors.py:153 | a stop character cuts the text: the pieces before it, then the pieces after it |
| Processors.Sentences | backend/processors.py:153 | the sentences are non-empty and hold no stop character |
| Processors.TrimmedNonEmptyAppend | backend/processors.py:153 | stripping and dropping empty pieces works piece by piece and keeps their order |
| Processors.SentencesNoStop | backend/processors.py:153 | a text without a stop character gives its stripped self as the one sentence, or none when that is empty |
| Processors.SentencesAtStop | backend/processors.py:153 | the sentences around a stop character are those before it, then those after it |
| Processors.Window | backend/processors.py:157 | the window is the first five sentences, or all of them when there are at most five |
| Processors.SelectSentences | backend/processors.py:156-161 | the loop with `break` returns `Selected(sentences)`: the first at most three long sentences of the window |
| Processors.LongSentencesAppend | backend/processors.py:157-159 | selecting long sentences keeps their order |
| Processors.LongSentencesSubsequence | backend/processors.py:157-159 | the long sentences are a subsequence of the sentences |
| Processors.SelectedShape | backend/processors.py:156-161 | at most three sentences, each longer than 10 characters, in order, from the first five |
| Processors.Fallback | backend/processors.py:165 | a transcript of at most 200 characters is kept; a longer one becomes its first 200 characters and "..." |
| Processors.SummaryShape | backend/processors.py:153-165 | the summary is three long sentences in order from the first five, or one fallback element |
| Processors.OutcomeIsHighestTriggered | backend/processors.py:187-201 | the outcome is the highest-ranked triggered label (Resolved > Payment Promised > Escalate > Needs Follow-up), follow-up confidence 0.6 with a keyword and 0.5 without |
| Processors.Summarize | backend/processors.py:140-210 | the method returns the summary lines and the outcome of the specification |
| Processors.InteractionEscalation | backend/processors.py:50-53 | with the mood detector, an interaction escalates iff its mood is negative or its outcome is Escalate |
| Processors.GenerateForesights | backend/processors.py:727-810 | the step-by-step appends give `ForesightsOf(messages)` |
| Processors.CountGroupAppend | backend/processors.py:747-808 | counting renewal or engagement entries distributes over appends |
| Processors.ForesightsShape | backend/processors.py:750-810 | between 1 and 6 foresights; first and only renewal entry; at most one engagement entry, none for 20..50 words; high renewal confidence in [0.7, 0.95] |
| Processors.RenewalDirection | backend/processors.py:750-762 | renewal is High iff positive indicators outnumber negative ones |
| Processors.NoMessagesNoForesights | backend/processors.py:724-725 | no messages, no foresights |
| LlmGrok.ValidateResponse | backend/llm_grok.py:115-150 | the loop with early returns computes `Validate(data)` |
| LlmGrok.AcceptedShape | backend/llm_grok.py:116-150 | an accepted object is returned unchanged and has all five fields, a labelled mood among the three, an action among the four, a labelled outcome among the four |
| LlmGrok.MissingFieldRejected | backend/llm_grok.py:116-120 | an object missing a required field is rejected |
| LlmGrok.DictNeverRaises | backend/llm_grok.py:116-150 | on a dict every failed check returns None; nothing raises |
| LlmGrok.ShapeAccepted | backend/llm_grok.py:116-150 | a dict with the five fields, a labelled mood with a known label, a known action and a labelled outcome hint with a known label is accepted unchanged |
| LlmGrok.RaisesExactly | backend/llm_grok.py:116-123 | the validator raises exactly on a value that is not a dict, list or str, and on a list or str holding all five names |
| LlmGrok.ConfidenceUnchecked | backend/llm_grok.py:123-150 | confidence values are not checked: any confidence in mood or outcome_hint is accepted alike |
| LlmGrok.LastUserMessage | backend/llm_grok.py:239-243 | the reverse loop with `break` returns `LastUserContent(messages)` |
| LlmGrok.LastUserContentNone | backend/llm_grok.py:239-243 | without a user message the fallback reads "" |
| LlmGrok.LastUserContentIsLast | backend/llm_grok.py:239-243 | the content read is that of a user message after which no user message follows |
| LlmGrok.FallbackBranch | backend/llm_grok.py:246-260 | the negative words win over the positive ones; the neutral branch is taken when neither occurs |
| LlmGrok.Truncated | backend/llm_grok.py:265 | a message of at most 100 characters is kept whole; a longer one becomes 103 characters: its first 100, then "..." |
| LlmGrok.GetFallbackResponse | backend/llm_grok.py:227-268 | the method returns the fallback reply for the last user content |
| LlmGrok.ReplyValidates | backend/llm_grok.py:262-268 | a reply built from allowed labels and action passes the validator |
| LlmGrok.FallbackValidates | guild_buildathon/llm_grok.py:227-268 | every fallback reply passes `_validate_json_response` unchanged |
| LlmGrok.FallbackConsistent | backend/llm_grok.py:246-265 | mood, action and outcome agree per branch; the negative branch satisfies the reply escalation predicate of backend/processors.py:650-653; the summary is one truncated element |
| DocumentsPage.FilterTemplates | app/documents/page.tsx:16-24 | a template is listed iff its name or description contains the search ignoring case and the type filter is "all" or its type |
| DocumentsPage.FilterAppend | app/documents/page.tsx:16 | the filter keeps the registry order |
| DocumentsPage.FilterEverything | app/documents/page.tsx:16-24 | an empty search with "all" lists every template in order |
| DocumentsPage.FilterByType | app/documents/page.tsx:21 | with a type other than "all" every listed template has that type |
| DocumentsPage.FilterNarrows | app/documents/page.tsx:17-19 | a longer search term containing a shorter one lists no template the shorter does not |
| DocumentsPage.FilterIgnoresCase | app/documents/page.tsx:17-19 | a lower-cased search term lists the same templates |
| DocumentsPage.NoQuoteTemplates | app/documents/page.tsx:21 | no document template has the type "quote" |
| DocumentsPage.ClaimFilter | app/documents/page.tsx:16-24 | the type "claim" lists the claim form alone when the search matches it |
| SchedulePage.Without | app/communications/schedule/page.tsx:72 | removal drops exactly the toggled id |
| SchedulePage.Toggle | app/communications/schedule/page.tsx:70-74 | toggling flips the id's membership and leaves every other id's membership alone |
| SchedulePage.ToggleAbsent | app/communications/schedule/page.tsx:72 | an absent id is appended at the end |
| SchedulePage.TogglePresent | app/communications/schedule/page.tsx:72 | a present id loses every occurrence and the others keep their order |
| SchedulePage.ToggleTwice | app/communications/schedule/page.tsx:70-74 | toggling an absent id twice restores the list |
| SchedulePage.ToggleNoDuplicates | app/communications/schedule/page.tsx:70-74 | toggling keeps a list free of duplicates |
| SchedulePage.OfChannel | app/communications/schedule/page.tsx:54 | the available templates are exactly the registry templates of the chosen channel |
| SchedulePage.OfChannelAppend | app/communications/schedule/page.tsx:54 | in registry order |
| SchedulePage.ChannelsPartition | lib/communication-templates.ts:4 | every template falls under exactly one of email, sms and phone |
| SchedulePage.Find | app/communications/schedule/page.tsx:58 | `find` returns the first template with the id, or nothing when no template has it |
| SchedulePage.RegistryFindsOwn | app/communications/schedule/page.tsx:58 | every registry id finds its own template |
| SchedulePage.DefaultIsNoTemplate | app/communications/schedule/page.tsx:26 | the initial selection "default" is no registry id |
| SchedulePage.ScheduleForm.AvailableTemplates | app/communications/schedule/page.tsx:54 | the templates offered are exactly those of the registry as written whose channel is the chosen one |
| SchedulePage.ScheduleForm.SelectTemplate | app/communications/schedule/page.tsx:57-68 | a registry id sets the selection, subject and content from the template as lib/communication-templates.ts spells it; any other id resets all three to ""; nothing else changes |
| SchedulePage.ScheduleForm.ToggleCustomer | app/communications/schedule/page.tsx:70-74 | the recipients become `Toggle(old recipients, id)`; nothing else changes |
| SchedulePage.ScheduleForm.constructor | app/communications/schedule/page.tsx:24-32 | the initial state of the form |
| SchedulePage.Timestamp | app/communications/schedule/page.tsx:88 | none when sending now; otherwise the date, a `T`, then the time |
| SchedulePage.TimestampSplits | app/communications/schedule/page.tsx:88 | a timestamp splits back on `T` into its date and time |
| SchedulePage.ToggleEnablesSubmit | app/communications/schedule/page.tsx:381 | toggling in a recipient not yet chosen, while not submitting, appends it and leaves the submit button enabled |
| Text.SplitJoin | lib/storage-utils.ts:162 | joining the pieces of a split with the separator gives the text back |
| Text.ContainsLower | app/documents/page.tsx:18-19 | lower-casing preserves containment |
| Text.ContainsTransitive | app/documents/page.tsx:18-19 | substring containment is transitive |
| Text.LowerIdempotent | app/documents/page.tsx:18-19 | lower-casing twice is lower-casing once |
| Text.NatToStringRoundTrip | lib/document-templates.ts:271 | the decimal text of a number reads back as the number |

## Left out

- HTTP and database handlers, the Twilio and Grok network clients, the response cache,
  `call_grok` and the retry loop: all are I/O.
- `json.loads`: the validator is modelled over an already-parsed value. A decode error
  in the source returns None, like `Rejected`.
- Validate: a value that is not a list, string or dict makes `field not in data` raise
  `TypeError`, which the source does not catch. The model returns `Raises`. A list or string
  holding all five names reaches `data["mood"]` and raises too; the model also returns
  `Raises` there.
- `prompts.py`, `formatFileSize`, `formatCurrency`, `uploadFile`, QR and mock-data code:
  outside the modelled rules.
- Floating point: mood and foresight confidences are exact reals. `round(…, 3)` and the
  `.3f` reason strings are not modelled. `MoodReasons` keeps the count and the exact ratio
  instead of the formatted strings.
- File sizes are `nat`: JavaScript numbers are doubles, and the sum of sizes is exact here.
- Text.Lower: lower-cases ASCII letters only, where `toLowerCase` and `str.lower` are
  Unicode-aware.
- CommunicationTemplates.ReplaceAll: the replacement value is inserted literally. The
  source passes it to `String.replace`, where `$&`, `$$` and similar patterns would be
  expanded.
- CommunicationTemplates.Substitute: keys are treated as literal text. In the source a key
  is a regular expression, and metacharacters in a key would change the match. An
  all-digit key such as `1` makes `new RegExp("{1}", "g")` throw a SyntaxError (a braced
  quantifier with nothing to repeat); the model does not raise there. The lemmas about
  substitution assume identifier keys (`Text.IsIdent`: no leading digit), as the registry's
  variable names are.
- Variables are an ordered list of entries standing for `Object.entries`. The order used is
  the given one, and JavaScript's integer-key reordering is not modelled.
- DocumentTemplates.Display: `toString` of nested objects is modelled as
  `"[object Object]"`. Arrays, floats and inherited prototype keys (`"toString" in {}`) are
  not modelled in the customer value. Integers are unbounded and always shown digit by
  digit, while a JavaScript number holds integers exactly only up to 2^53 and shows 10^21
  and above in exponent form (`1e+21`).
- The body of `generate_conversation_foresights` is modelled from the point where the
  messages are loaded. The database query, the "conversation missing" case and the
  exception handler that returns `[]` are not modelled.
- Message dictionaries are records. A message without `role` or `content` raises
  `KeyError` in the source; this case is not modelled.
- Form auto-fill, required-field validation and PDF rendering are not part of this model,
  since none of the modelled files contains that code.
- The search filters of the other pages (customers, payments, communications, storage,
  conversations) are not modelled. They are substring filters too, but their shapes differ:
  some test a field without case folding, and some have no type condition.
- `handleSubmit`'s one-and-a-half-second delay, its logging and the router navigation are
  left out. The model keeps the submitted timestamp (`Timestamp`) and the disabled
  condition (`ScheduleForm.SubmitDisabled`).
- `detect_mood` is modelled as a pure function and `summarize` as a method over its loop.
  `process_inbound_interaction` and the message handlers only use their results in the
  escalation predicates.

## Findings

| source | as written | input that shows it | evidently intended | confidence | as-written member | corrected member |
|---|---|---|---|---|---|---|
| lib/communication-templates.ts:74 | the SMS content is a single-quoted string, so `${"{amount}"}` stays literal text around the placeholder | amount `50` renders as `${"50"}` | `$50` | not executed | CommunicationTemplates.PaymentReminderSmsAsWrittenQuotesAmount | CommunicationTemplates.PaymentReminderSmsShowsDollarAmount |
| lib/communication-templates.ts:24 | in a backtick literal `${"{premium}"}` interpolates to `{premium}`, and the dollar sign is gone | premium `1200` renders as `Current Premium: 1200` | `Current Premium: $1200` | not executed | CommunicationTemplates.PolicyRenewalEmailAsWrittenDropsDollar | CommunicationTemplates.PolicyRenewalEmailShowsDollarPremium |
| lib/communication-templates.ts:57 | the same backtick interpolation drops the dollar sign of the welcome email's premium | premium `1200` renders as `Annual Premium: 1200` | `Annual Premium: $1200` | not executed | CommunicationTemplates.WelcomeNewCustomerAsWrittenDropsDollar | CommunicationTemplates.WelcomeNewCustomerShowsDollarPremium |

`CommunicationTemplates.RegistryAsWritten` keeps the templates as the source spells them,
and the schedule page model (`ScheduleForm.AvailableTemplates`, `ScheduleForm.SelectTemplate`)
reads it, as the page does. `CommunicationTemplates.Registry` is the corrected registry
with the dollar signs restored; it is the corrected half of the three findings.
