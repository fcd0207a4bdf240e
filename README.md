# SaúdeComparador web client — a Dafny model

SaúdeComparador is a single-page web application for comparing Brazilian
private health plans. Visitors search plans by UF, city, contract type
and age band. They can compare up to four plans side by side and browse
operators, the ANS quality index (IDSS) ranking and the yearly price
readjustments. They can also read a blog and ask an AI assistant.
Real monthly prices are shown only to visitors who have left their contact
data (a "lead"). Other visitors see a price level from `$` to `$$$$`.

This project models the logic of that client in Dafny and proves what
each piece promises. Each source file becomes one module:

- **Lead store and gating** (`use_lead.dfy`, `storage.dfy`, `plan_card.dfy`,
  `plano_detalhe.dfy`, `comparar.dfy`). The lead store is a class over a
  local-storage class and a set of listeners. The gating decisions are
  functions of the price and of whether a lead exists.
- **Lead capture** (`lead_capture_modal.dfy`, `lead_form.dfy`). Validation,
  the phone mask and the e-mail shape are functions. Each form is a class
  whose submit method takes the server's answer as a parameter.
- **Query-string pages** (`planos.dfy`, `comparar.dfy`, `ranking.dfy`,
  `operadoras.dfy`, `blog.dfy`, `pagination.dfy`, `search_box.dfy`). The
  URL query is a list of name-value pairs. `set` and `delete` follow
  section 6.2 of the WHATWG URL Standard (`url_params.dfy`). The pages
  with handlers and effects (`planos.dfy`, `ranking.dfy`, `search_box.dfy`)
  are classes whose methods are those handlers and effects. The
  comparison, operator directory, blog list and pagination
  (`comparar.dfy`, `operadoras.dfy`, `blog.dfy`, `pagination.dfy`) are
  functions of the query and the response.
- **Transforms** (`api_client.dfy`, `chat_stream.dfy`, `utils.dfy`,
  `reajuste_chart.dfy`, `blog_post.dfy`, `filter_json.dfy`). These cover
  query building, reshaping the operator record, flattening the
  readjustment series, framing the chat stream into lines, the competência
  and initials formatters, grouping the chart by year, the paragraph pass
  of the article converter, and the JSON of the saved filters.
- **UI state machines** (`municipio_autocomplete.dfy`, `ai_chat.dfy`,
  `reajustes.dfy`, `operadora_detalhe.dfy`, `share_button.dfy`,
  `use_user_uf.dfy`, `use_faixas_preco.dfy`). Each is a class whose
  fields are the component's state.
- **Language support** (`text.dfy`, `numbers.dfy`, `sorting.dfy`,
  `wrappers.dfy`). These model ECMAScript string operations,
  `parseInt`/`Number`/`Math.ceil` on decimal integers, and the stable
  `Array.prototype.sort`. `sorting.dfy` has a specification function and
  an in-place array sort proved equal to it.

Network answers, timer firings and storage failures are parameters of the
methods that receive them. A failed request is `None`, or the failure
alternative of an outcome datatype. Prices, scores and percentages are
`real`: the application compares them with thresholds and with each other
(the best value of a comparison row), and the model does not reproduce
binary floating-point rounding.

## Model

| member | source | states |
|---|---|---|
| WebStorage.Storage.constructor | src/hooks/use-lead.ts:21-27 | a store with the given items, usable or throwing on every access |
| WebStorage.Storage.SetItem | src/hooks/use-lead.ts:37-44 | a usable store maps the key to the value and reports success; a throwing store changes nothing and reports failure |
| WebStorage.Storage.RemoveItem | src/hooks/use-lead.ts:48-51 | a usable store drops the key and reports success; a throwing store changes nothing and reports failure |
| UseLead.ReadAfterWrite | src/hooks/use-lead.ts:37-69 | after the five keys are written, the id key exists and `readLead` returns the written lead, except that an empty id reads as no lead although the id key exists |
| UseLead.LeadKeysOnly | src/hooks/use-lead.ts:37-53 | writing or clearing a lead leaves every key other than the five lead keys present or absent as before, with the same value |
| UseLead.ClearedHasNoLead | src/hooks/use-lead.ts:48-58 | after clearing, the id key is absent and `readLead` gives nothing; clearing again changes nothing |
| UseLead.LeadStore.constructor | src/hooks/use-lead.ts:12 | the store starts with no listeners and no calls |
| UseLead.LeadStore.Subscribe | src/hooks/use-lead.ts:16-17 | a callback is appended unless already subscribed (a set add), the listeners stay duplicate-free, and nothing is called |
| UseLead.LeadStore.Unsubscribe | src/hooks/use-lead.ts:18 | exactly that callback is removed, the others keep their order, and nothing is called |
| UseLead.LeadStore.Emit | src/hooks/use-lead.ts:13-15 | every subscribed listener is called exactly once, in subscription order |
| UseLead.LeadStore.Lead | src/hooks/use-lead.ts:71-75 | lead data is only returned when the snapshot says the visitor is a lead |
| UseLead.LeadStore.SetLead | src/hooks/use-lead.ts:37-46 | a usable store gets exactly the five lead keys written and then reports a lead equal to the written one (none for an empty id), a throwing store is unchanged, and every listener is notified once in both cases |
| UseLead.LeadStore.ClearLead | src/hooks/use-lead.ts:48-53 | the loop removes exactly the five lead keys when storage is usable; afterwards there is no lead, and every listener is notified once even when storage throws |
| Utils.IdssHelpersAgree | src/lib/utils.ts:30-58 | colour, background, badge and label pick the same one of four cases for every score: no score, at least 0.8, at least 0.6, below 0.6 |
| Utils.IdssBadgeMonotone | src/lib/utils.ts:45-51 | every present score gets a letter grade, and a higher score never gets a worse grade |
| Utils.PriceLevelCountsThresholds | src/lib/utils.ts:222-228 | a level exists exactly when a price exists; it is made only of `$`, one per threshold (300, 600, 1000) reached plus one |
| Utils.PriceLevelMonotone | src/lib/utils.ts:222-228 | the level never decreases as the price grows |
| Utils.PriceLevelLabelled | src/lib/utils.ts:230-239 | every level `getPriceLevel` can produce has a label, and distinct levels have distinct labels |
| Utils.RemoveDashes | src/lib/utils.ts:200 | the result has no `-`, is no longer than the input and takes each character from it |
| Utils.FormatCompetencia | src/lib/utils.ts:186-208 | no label for an empty input; slashed text with three pieces and a four-character last piece becomes `piece2/piece3`, other slashed text is kept; otherwise, with the dashes removed, six or more characters give `chars 4-5/chars 0-3`, exactly four give them, anything else keeps the input |
| Utils.SplitPair | src/lib/utils.ts:191 | splitting `a/b` on `/` gives exactly `a` and `b` when neither holds a slash |
| Utils.FormatCompetenciaIdempotent | src/lib/utils.ts:186-208 | formatting a label the function produced returns it unchanged |
| Utils.CompetenciaOfDate | src/lib/utils.ts:190-194 | `DD/MM/YYYY` becomes `MM/YYYY` |
| Utils.CompetenciaOfMonthYear | src/lib/utils.ts:190-197 | text with one slash (`MM/YYYY`) is kept as it is |
| Utils.CompetenciaOfYearMonth | src/lib/utils.ts:200-203 | `YYYYMM…` and `YYYY-MM…` become `MM/YYYY` |
| Utils.CompetenciaOfYear | src/lib/utils.ts:204-206 | a bare year `YYYY` is kept |
| Utils.CompetenciaExamples | src/lib/utils.ts:181-185 | the four documented labels: "202401" → "01/2024", "2024-10" → "10/2024", "25/08/2026" → "08/2026", "2024" → "2024" |
| Utils.RemoveDashesAppend | src/lib/utils.ts:200 | removing dashes from a concatenation removes them from each part |
| Utils.LongWords | src/lib/utils.ts:213 | every kept word is longer than two characters and no more words are kept than given |
| Utils.LongWordsMembers | src/lib/utils.ts:213 | a word is kept exactly when it is one of the words and longer than two characters |
| Utils.LongWordsAppend | src/lib/utils.ts:213 | filtering a concatenation filters each part and keeps them in order, so the kept words are the long words in their original order |
| Utils.FirstLetters | src/lib/utils.ts:215-216 | one character per word, each the first character of its word, in order |
| Utils.GetInitials | src/lib/utils.ts:210-218 | the initials are the upper-cased first letters of the first two words (split on single spaces) longer than two characters: as many initials as such words, at most two |
| Utils.InitialsOfTwoWords | src/lib/utils.ts:210-218 | for two long space-free words the initials are their upper-cased first letters, in order |
| Utils.InitialsSkipShortWords | src/lib/utils.ts:210-218 | a leading word of at most two characters contributes nothing |
| Utils.MigrationTargetsAreBands | src/lib/utils.ts:76-97 | every old code migrates to one of the ten database age bands |
| Utils.CodesShort | src/lib/utils.ts:92-97 | every old code has at most five characters |
| Utils.BandsLong | src/lib/utils.ts:76-87 | every database band has at least twelve characters |
| Utils.MigrationTargetsNotCodes | src/lib/utils.ts:92-97 | no migration target is itself an old code, so migrating never chains |
| Utils.GetSavedFaixaEtaria | src/lib/utils.ts:99-109 | returns the stored band or `""`; an old code is replaced by its database band, which is written back; the result is never an old code, and a non-empty result is what storage now holds, so a second read returns it and writes nothing |
| Utils.SaveFaixaEtaria | src/lib/utils.ts:111-116 | a non-empty value is stored under the band key, `""` removes that key, no other key changes, and nothing changes when storage is unavailable |
| Utils.KeptFiltersExact | src/lib/utils.ts:139-142 | a pair is kept exactly when its name is whitelisted, its value is non-empty and it is the parameter's current value |
| Utils.SavePlanoFilters | src/lib/utils.ts:136-145 | the loop keeps exactly the whitelisted non-empty filters in whitelist order, stores their JSON under the filters key and nothing else, and `getSavedPlanoFilters` then reads those filters back |
| Utils.SavedFiltersRoundTrip | src/lib/utils.ts:128-145 | filters written as JSON are read back unchanged |
| LeadCaptureModal.DigitsOnly | src/components/lead-capture-modal.tsx:103-105 | the result holds only digits and is no longer than the input |
| LeadCaptureModal.DigitsOnlyAppend | src/components/lead-capture-modal.tsx:103-105 | removing non-digits distributes over concatenation |
| LeadCaptureModal.DigitsOnlyOfDigits | src/components/lead-capture-modal.tsx:103-105 | a string of digits is kept whole |
| LeadCaptureModal.DigitsOnlyOfNonDigits | src/components/lead-capture-modal.tsx:103-105 | a string with no digit becomes empty |
| LeadCaptureModal.DigitsOnlyIdempotent | src/components/lead-capture-modal.tsx:103-105 | stripping twice is the same as stripping once |
| LeadCaptureModal.FirstDigits | src/components/lead-capture-modal.tsx:109 | at most 11 characters, all of them digits |
| LeadCaptureModal.PhoneMaskDigits | src/components/lead-capture-modal.tsx:103-113 | the digits of the masked value are exactly the first 11 digits of the input: the mask only adds punctuation |
| LeadCaptureModal.PhoneMaskIdempotent | src/components/lead-capture-modal.tsx:108-113 | masking a masked value changes nothing |
| LeadCaptureModal.PhoneMaskOfDigits | src/components/lead-capture-modal.tsx:108-113 | a digit string of at most 11 digits comes back out of its mask unchanged |
| LeadCaptureModal.PhoneMaskFullNumber | src/components/lead-capture-modal.tsx:108-113 | `11999998888` is shown as `(11) 99999-8888` |
| LeadCaptureModal.PhoneMaskPartialNumber | src/components/lead-capture-modal.tsx:108-113 | `123` is shown as `(12) 3`, and a field without digits stays empty |
| LeadCaptureModal.ValidateFacts | src/components/lead-capture-modal.tsx:120-132 | the name error appears iff the name is all white space (`Text.Trim` yields `""` exactly then), "Celular é obrigatório" iff there are no digits, "Número inválido" iff the digit count is between 1 and 9 or above 11, the consent error iff unchecked; there is no error iff the name has a non-space character, the number has 10 or 11 digits and consent is given |
| LeadCaptureModal.MaskedPhoneError | src/components/lead-capture-modal.tsx:108-132 | for a value typed through the mask, the phone is accepted iff at least 10 digits were typed, missing iff none were, and invalid iff 1 to 9 were (the mask itself cuts anything beyond 11) |
| LeadCaptureModal.SubmittedFaixa | src/components/lead-capture-modal.tsx:141 | the band sent is never empty and never an old short code |
| LeadCaptureModal.MigrationKeepsLead | src/components/lead-capture-modal.tsx:141 | rewriting an old band code leaves the stored lead and the id key as they were |
| LeadCaptureModal.Request | src/components/lead-capture-modal.tsx:142-151 | the body always carries a digits-only phone, no email or city, consent given and a non-empty UF |
| LeadCaptureModal.Modal.constructor | src/components/lead-capture-modal.tsx:44-55 | an empty form: no values, no errors, no token, not submitting, no server error |
| LeadCaptureModal.Modal.SetToken | src/components/lead-capture-modal.tsx:61-63 | the bot-check callbacks store the new token or clear it |
| LeadCaptureModal.Modal.SetNome | src/components/lead-capture-modal.tsx:217 | the name changes and only the name error is removed |
| LeadCaptureModal.Modal.HandleTelefoneChange | src/components/lead-capture-modal.tsx:115-118 | the field holds the masked value, whose digits are the first 11 typed, and only the phone error is removed |
| LeadCaptureModal.Modal.SetLgpd | src/components/lead-capture-modal.tsx:252 | the consent flag changes and only the consent error is removed |
| LeadCaptureModal.Modal.Submit | src/components/lead-capture-modal.tsx:134-172 | the errors shown are `validate`'s; an invalid form sends nothing and leaves the lead store, storage, token and submitting flag alone; a valid form posts the entered name, the phone digits, the detected UF or "SP", the saved band or "29 a 33 anos" and "Individual ou familiar"; on success the lead store holds that lead, listeners are told once and the modal closes; on failure the lead is unchanged, the error message (or the fixed one) is shown, the token is cleared if the widget exists, and submitting ends either way |
| LeadCaptureModal.Modal.CheckForm | src/components/lead-capture-modal.tsx:120-138 | the server error is cleared, the errors shown are exactly `validate`'s, and the form passes iff there is no error |
| LeadCaptureModal.Modal.Send | src/components/lead-capture-modal.tsx:139-171 | posts the request and takes the success or the catch path as described for `Submit` |
| LeadCaptureModal.Modal.SavedFaixa | src/components/lead-capture-modal.tsx:141 | the band is the saved band or the default, and storage changes only by the rewrite of an old band code |
| LeadForm.EmailParts | src/components/lead-form.tsx:111 | an address is accepted iff it is a non-empty local part, one `@` and a domain, with no white space or further `@` on either side and a dot in the domain that is neither its first nor its last character |
| LeadForm.OnlyAtSign | src/components/lead-form.tsx:111 | around the matched `@`, every other character is one the pattern accepts |
| LeadForm.EmailHasOneAt | src/components/lead-form.tsx:111 | an accepted address has no white space and exactly one `@` |
| LeadForm.EmailNotBlank | src/components/lead-form.tsx:109-113 | an accepted address is never blank, so "required" and "invalid" never overlap |
| LeadForm.ShortEmailAccepted | src/components/lead-form.tsx:111 | `a@b.c` is accepted |
| LeadForm.MalformedEmailsRefused | src/components/lead-form.tsx:111 | `invalid-email` (no `@`) and `user@domain` (no dot in the domain) are refused |
| LeadForm.PaddedEmailRefused | src/components/lead-form.tsx:109-113 | ` a@b.c` is not blank, yet the pattern refuses it, so it gets "Email inválido" |
| LeadForm.EmailErrorFacts | src/components/lead-form.tsx:109-113 | there is no email error iff the address is accepted, and an error says "required" iff the value is blank, "invalid" otherwise |
| LeadForm.ValidateFacts | src/components/lead-form.tsx:106-123 | the name error appears iff the trimmed name is empty, the email error iff the address is not accepted, the UF, band and contract-type errors iff the field is empty, the consent error iff unchecked; phone and city never get one |
| LeadForm.ValidIff | src/components/lead-form.tsx:106-123 | the form is valid (no errors) iff every required field is filled, the email is accepted and consent is given |
| LeadForm.Initial | src/components/lead-form.tsx:59-69 | the initial form holds the detected UF and consent unchecked |
| LeadForm.UntouchedFormErrors | src/components/lead-form.tsx:106-129 | submitting the untouched form reports name, email (as "required"), band, contract type and consent, the UF too exactly when none was detected, and nothing for phone or city |
| LeadForm.With | src/components/lead-form.tsx:175 | the copy takes the new value for the named field |
| LeadForm.WithOnlyThatField | src/components/lead-form.tsx:171-183 | after an edit the named field reads back the new value and every other field is unchanged |
| Wrappers.NonEmpty | src/components/lead-form.tsx:141-143 | `x \|\| null` and `x \|\| undefined` (also planos.tsx:178-185): absent exactly for `""`, otherwise the value |
| LeadForm.LeadOf | src/components/lead-form.tsx:137-147 | the lead's id is the server id in decimal (never empty), phone and city are null exactly when left empty, and the email is the entered one |
| LeadForm.SuccessItemsAsSetLead | src/components/lead-form.tsx:148-153 | the direct writes leave storage as `setLead` would plus the band preference, and the lead store then reads the new lead |
| LeadForm.Form.constructor | src/components/lead-form.tsx:59-77 | the form starts from the initial values with no errors, no token and no server error |
| LeadForm.Form.SetToken | src/components/lead-form.tsx:83-85 | the bot-check callbacks store the new token or clear it |
| LeadForm.Form.UpdateField | src/components/lead-form.tsx:171-183 | the field takes the new value and only that field's error is removed |
| LeadForm.Form.Submit | src/components/lead-form.tsx:125-169 | the errors shown are `validate`'s; an invalid form sends nothing and changes no storage; a valid one posts every field with the token; on success with working storage the lead keys and band are written directly, no lead-store listener is called, and the page receives the lead; otherwise the token is cleared if the widget exists, the message is shown, and nothing is handed over; submitting ends either way |
| LeadForm.Form.Send | src/components/lead-form.tsx:131-168 | the success writes or the catch path, as described for `Submit` |
| LeadForm.Form.Fail | src/components/lead-form.tsx:155-165 | the token is cleared when the widget exists and the message is shown |
| ApiClient.PresentEntries | src/lib/api-client.ts:62-66 | only entries with a value other than null, undefined and `""` are kept, each with its own value |
| ApiClient.PresentNames | src/lib/api-client.ts:62-66 | every kept name is the name of some entry |
| ApiClient.BuildQuery | src/lib/api-client.ts:60-69 | the loop of `set` calls yields `?` and the serialized kept pairs in entry order, and the result is `""` exactly when no entry has a value |
| ApiClient.PresentEmpty | src/lib/api-client.ts:60-69 | nothing is kept iff every entry is null, undefined or `""` |
| UrlParams.GetAppend | src/lib/api-client.ts:64 | `get` on a concatenation looks in the first part, then in the second |
| ApiClient.CompararPathShape | src/lib/api-client.ts:158-163 | with some ids the request carries exactly one `ids` parameter holding them comma-joined; with none it has no query |
| ApiClient.JoinNonEmpty | src/lib/api-client.ts:160 | joining parts whose first part is non-empty gives a non-empty string |
| ApiClient.ToIdssEntry | src/lib/api-client.ts:90-97 | the year is kept, a missing final score becomes 0, and the four sub-indices stay as they are, missing ones included |
| ApiClient.IgrPeriodOfCompetencia | src/lib/api-client.ts:100-106 | for `YYYYMM` with a month from 1 to 12, the year is `YYYY` (0 when it is 0) and the quarter is the month's quarter, from 1 to 4 |
| ApiClient.IgrPeriodOfYear | src/lib/api-client.ts:101-106 | a four-character competência has no month, which counts as January: quarter 1 |
| ApiClient.QuarterOfMonth | src/lib/api-client.ts:106 | `ceil(month / 3)` for months 1 to 12 is a quarter from 1 to 4 |
| ApiClient.ToIgrEntry | src/lib/api-client.ts:100-112 | year and quarter come from the competência and a missing index becomes 0 |
| ApiClient.IgrPeriodMissing | src/lib/api-client.ts:101-106 | a missing or empty competência gives year 0, quarter 1 |
| ApiClient.ToReajuste | src/lib/api-client.ts:115-119 | the year is the parsed cycle (0 when unparsable), a missing percentage is 0, and the type is the given one or `geral`, never empty |
| ApiClient.ToOperadoraDetail | src/lib/api-client.ts:85-143 | each list is converted element by element, a missing list becomes empty, the score falls back from `idss_score` to `latest_idss`, and the plan count starts at 0 |
| ApiClient.SeriesRowsStep | src/lib/api-client.ts:214-222 | one more point adds that point's row, if any, at the end |
| ApiClient.FlattenStep | src/lib/api-client.ts:213-223 | one more series adds its rows at the end |
| ApiClient.ByAnoTotalPreorder | src/lib/api-client.ts:224 | the year comparator is a total preorder, as `sort` requires |
| ApiClient.SeriesRowsAppend | src/lib/api-client.ts:214-222 | the loop step of the inner loop appends one point's rows |
| ApiClient.AppendSeriesRows | src/lib/api-client.ts:214-222 | the inner loop appends the rows of one series: its points with a parsable cycle, in order |
| ApiClient.GetReajustes | src/lib/api-client.ts:206-225 | no registration number means no request and no rows; a failed request fails; otherwise the result is the flattened rows sorted by year |
| ApiClient.GetReajustesOrdered | src/lib/api-client.ts:224 | the result is in ascending year order, is a permutation of the flattened rows, and rows of the same year keep their series order |
| ApiClient.SeriesRowsFromPoints | src/lib/api-client.ts:213-222 | every row carries its series' type and comes from a point whose cycle parses to its year, with that point's percentage |
| ChatStream.ConcatAppend | src/lib/api-client.ts:291 | the text of two runs of reads is the text of the first followed by the text of the second |
| ChatStream.Lines | src/lib/api-client.ts:292 | splitting at newlines always gives at least one piece, so `pop` always has a last piece to keep |
| ChatStream.SplitConcat | src/lib/api-client.ts:291-293 | the lines of `x + y` are the complete lines of `x`, then the lines of `x`'s pending text followed by `y`: buffering loses and duplicates nothing |
| ChatStream.SplitConcatChar | src/lib/api-client.ts:291-293 | the step of the previous statement for a first character that is not a newline |
| ChatStream.CompleteLinesUnterminated | src/lib/api-client.ts:291-293 | text without a newline adds no complete line and only extends the buffered text |
| ChatStream.CompleteLinesGrow | src/lib/api-client.ts:291-293 | the complete lines of a prefix of the body are a prefix of the complete lines of the body |
| ChatStream.LinesOutcomeAppend | src/lib/api-client.ts:295-312 | handling two runs of lines is handling the first and, unless it stopped at `[DONE]`, then the second |
| ChatStream.StoppedPrefix | src/lib/api-client.ts:298-301 | once some lines reached `[DONE]`, further lines change nothing |
| ChatStream.HandleLines | src/lib/api-client.ts:295-312 | the loop over one read's lines delivers each data line's chunk in order and returns at `[DONE]` after calling `onDone` |
| ChatStream.ProcessStream | src/lib/api-client.ts:283-314 | the read loop delivers exactly the events of the complete lines of the whole body, then `onDone` at the end of the body (or `onError` when a read fails), and nothing after `[DONE]` |
| ChatStream.NextRead | src/lib/api-client.ts:291-293 | appending read `i` to the buffer and splitting yields the new complete lines and the new buffer |
| ChatStream.DoneEndsStream | src/lib/api-client.ts:298-301 | when the lines read so far reach `[DONE]`, the rest of the body, and whether it fails, changes nothing |
| ChatStream.ChatIAStream | src/lib/api-client.ts:256-316 | a non-OK status or a missing reader gives a single `onError`; a body gives the events of `processStream` |
| ChatStream.LinesOutcomeShape | src/lib/api-client.ts:295-312 | handled lines yield only chunks, followed by `onDone` exactly when `[DONE]` was reached |
| ChatStream.StreamEndsOnce | src/lib/api-client.ts:283-316 | every stream ends with exactly one `onDone` or `onError`, as its last callback, and every callback before it is a chunk |
| ChatStream.UnterminatedTailIgnored | src/lib/api-client.ts:291-293 | a final read with no newline delivers nothing: an unterminated last line is never handled |
| UrlParams.Delete | src/pages/planos.tsx:160 | deleting never lengthens the list |
| UrlParams.DeleteGet | src/pages/planos.tsx:160 | after `delete(name)` no pair has that name and every other name reads as before |
| UrlParams.DeleteDelete | src/pages/planos.tsx:262-264 | deleting twice is deleting once, and deletes of different names commute |
| UrlParams.DeleteAppend | src/pages/planos.tsx:160 | deleting from two lists joined is deleting from each |
| UrlParams.ReplaceFirstFacts | src/pages/planos.tsx:158 | replacing the first pair of a present name leaves exactly one pair with it, holding the new value, and the other pairs in order |
| UrlParams.CountGet | src/pages/planos.tsx:158 | a name has no pair iff `get` finds none |
| UrlParams.AppendFacts | src/pages/planos.tsx:158 | appending an absent name leaves exactly one pair with it and the other pairs in order |
| UrlParams.SetFacts | src/pages/planos.tsx:158 | after `set`, `get` returns the new value, exactly one pair carries the name, and the other pairs are unchanged and in order |
| UrlParams.SetGetOther | src/pages/planos.tsx:158 | `set` leaves every other name's value unchanged |
| UrlParams.SetOrDeleteFacts | src/pages/planos.tsx:154-165 | the set-or-delete update gives the key the new value (absent for `""`) and leaves every other name as it was |
| UrlParams.SerializeEmpty | src/lib/api-client.ts:67-68 | the serialization is empty exactly when there are no pairs |
| Text.TrimStart | src/components/lead-form.tsx:108 | the result is a suffix of the input, what was dropped is all white space, and the result does not start with white space; it is empty iff the input is blank |
| Text.TrimEnd | src/components/lead-form.tsx:108 | the result is a prefix of the input, what was dropped is all white space, and the result does not end with white space; it is empty iff the input is blank |
| Text.Trim | src/components/lead-form.tsx:108 | the result neither starts nor ends with white space and is empty iff the input is blank |
| Text.TrimUnspaced | src/pages/blog-post.tsx:225 | trimming a string that neither starts nor ends with white space changes nothing |
| Text.SplitOn | src/lib/utils.ts:191 | splitting always yields at least one piece |
| Text.JoinSplit | src/lib/utils.ts:191 | splitting and joining again with the same separator gives the original string |
| Text.SplitWithout | src/lib/utils.ts:191 | a string without the separator does not split |
| Text.SplitAtFirst | src/lib/utils.ts:191 | splitting at the first separator yields the text before it followed by the pieces of the rest |
| Text.SplitJoin | src/lib/utils.ts:191 | joining separator-free pieces and splitting gives the pieces back |
| Text.SplitPiecesFree | src/lib/utils.ts:191 | no piece contains the separator |
| Text.SplitSpaceRuns | src/pages/blog.tsx:29-31 | splitting on white-space runs gives at least one piece and no piece holds white space |
| Text.CollapseSpaces | src/pages/blog.tsx:30 | each white-space run becomes one space: no other white space is left and no two spaces are adjacent |
| Text.JoinSplitSpaceRuns | src/pages/blog.tsx:30 | joining the pieces of `split(/\s+/)` with single spaces gives the text with each white-space run collapsed to one space |
| Text.SplitSpaceRunsIsSplit | src/pages/blog.tsx:30 | the pieces are exactly the texts between the single spaces of the collapsed text, the maximal runs without white space |
| Text.ToLower | src/components/reajuste-chart.tsx:37 | each character is lower-cased in place, the length is kept |
| Text.ToUpper | src/lib/utils.ts:217 | each character is upper-cased in place, the length is kept |
| Text.LexLeTotal | src/pages/plano-detalhe.tsx:905 | any two codes compare |
| Text.LexLeTransitive | src/pages/plano-detalhe.tsx:905 | the order is transitive |
| Planos.EffectiveQuery | src/pages/planos.tsx:108-109 | the trimmed text when it has at least two characters, otherwise `""` |
| Planos.DebounceSetsQuery | src/pages/planos.tsx:105-117 | after the debounce `q` holds the effective text (absent when `""`), every other parameter is unchanged, and nothing is written when `q` already holds it |
| Seqs.Without | src/pages/planos.tsx:236 | `filter((x) => x !== id)` (also comparar.tsx:167 and the listener delete of use-lead.ts:18) keeps exactly the other elements and never lengthens the list |
| Seqs.WithoutDistinct | src/pages/planos.tsx:236 | removing an element from a duplicate-free list keeps it duplicate-free |
| Planos.ToggleKeepsList | src/pages/planos.tsx:233-241 | the compare list never exceeds four plans nor holds one twice; a selected plan is removed, an unselected one is added iff fewer than four are selected, and no other plan's membership changes |
| Planos.ClearKeepsOnlyQuery | src/pages/planos.tsx:243-246 | after clearing, `q` keeps its value and no other parameter is present |
| Planos.FilterChangeFacts | src/pages/planos.tsx:257-270 | the changed key takes the new value; a UF change while a city is set also removes the city; every other parameter is unchanged |
| Planos.NonEmptyEntries | src/pages/planos.tsx:71 | keeps exactly the saved entries with a non-empty value |
| Planos.SetEach | src/pages/planos.tsx:73-76 | the loop builds exactly the query that sets every saved entry in turn on an empty query, and the last entry set is readable in it, so a non-empty list of entries never yields an empty query |
| Planos.SetAllGet | src/pages/planos.tsx:73-76 | after setting the entries in turn, a name with no entry reads as before and a name whose entries all carry one value reads that value |
| Planos.RestoreAfterSave | src/pages/planos.tsx:63-83 | saving the filters and restoring them on a later bare visit brings back every whitelisted filter with its value and no other parameter |
| Planos.PlanosPage.constructor | src/pages/planos.tsx:56-102 | the page starts uninitialized, on page 1, loading, with more to load, an empty compare list and the search box showing `q`; the first debounce timer is armed and sees the query of the first render |
| Planos.PlanosPage.RestoreFilters | src/pages/planos.tsx:63-83 | a URL with parameters initializes the page unchanged; a bare URL receives the saved non-empty filters and stays uninitialized until they are in the URL, or is initialized as is when none were saved; the page is never left uninitialized with a bare URL |
| Planos.PlanosPage.Type | src/pages/planos.tsx:101-117 | the box holds the typed text; a changed text arms the debounce (replacing a running timer), whose timer sees the query as it is now, and an unchanged text keeps the earlier timer and its query |
| Planos.PlanosPage.DebounceElapsed | src/pages/planos.tsx:105-117 | a timer fires only while one is armed, and at most once; it compares the effective text with `q` of the query captured when the text last changed; when they differ the query becomes that captured query with `q` set to the effective text (absent when empty), so every other parameter, including a filter changed since, takes the captured value; otherwise the query is left as it is |
| Planos.PlanosPage.SyncSearchText | src/pages/planos.tsx:120-124 | the box takes `q` unless it already shows it, trimmed or not; a new text arms the debounce with the current query |
| Planos.PlanosPage.UpdateParam | src/pages/planos.tsx:154-165 | the key is set to a non-empty value or deleted for `""` |
| Planos.PlanosPage.HandleFilterChange | src/pages/planos.tsx:257-270 | the query changes as the filter-change rule says; a UF change is also saved as the user's UF (stored, or removed for `""`), and other filters leave the UF alone |
| Planos.PlanosPage.ClearFilters | src/pages/planos.tsx:243-246 | the query becomes just `q`, or nothing when `q` is empty |
| Planos.PlanosPage.ToggleCompare | src/pages/planos.tsx:233-241 | the compare list is toggled and stays within four distinct plans |
| Planos.PlanosPage.FetchFirstPage | src/pages/planos.tsx:168-202 | nothing is requested before initialization; afterwards page 1 of the current filters is requested, the list restarts with the page's plans and total, `hasMore` is "full page and not the last", a failure leaves an empty list with total 0 and nothing more, and loading ends |
| Planos.PlanosPage.LoadMore | src/pages/planos.tsx:205-231 | nothing is requested while loading or without more pages; otherwise page + 1 of the current filters is requested, its plans are appended after the shown ones and the page advances by exactly one; a failure keeps the list, the page and the total and stops further loading |
| Planos.SearchEntries | src/pages/planos.tsx:177-189 | the request object has eleven entries with distinct names |
| Planos.SearchQueryFacts | src/pages/planos.tsx:177-189 | the request's query carries each filter of the page's query when non-empty, the UF, the bracket of the query or else the saved one, the order only when it is not `relevancia`, the page and the page size 24 |
| ApiClient.PresentGet | src/lib/api-client.ts:60-69 | with distinct names, the built query holds an entry's value exactly when it is neither null, undefined nor `""` |
| Comparar.NonZeroNumbers | src/pages/comparar.tsx:136 | `.map(Number).filter(Boolean)` keeps no zero and never lengthens the list |
| Comparar.IdStrings | src/lib/api-client.ts:160 | one decimal string per id, in order |
| Comparar.NonZeroNumbersOfStrings | src/pages/comparar.tsx:136 | the decimal strings of non-zero ids convert back to the same ids |
| Comparar.NonZeroHead | src/pages/comparar.tsx:136 | a first piece that is a non-zero number is kept at the front |
| Comparar.ParseJoinedIds | src/pages/comparar.tsx:134-137 | non-zero ids written comma-separated into the query are read back unchanged and in order |
| Comparar.UrlIdsNotCapped | src/pages/comparar.tsx:134-137 | ids typed into the URL are taken as they are: a duplicate and a fifth id survive parsing |
| Comparar.AddPlanSelection | src/pages/comparar.tsx:153-163 | adding does nothing iff the id is already selected or four are; otherwise the new selection is the old one with the id at the end, at most four long, and duplicate-free when the old one was |
| Comparar.RemovePlanSelection | src/pages/comparar.tsx:165-175 | removing drops every occurrence of the id and keeps the others in order; when none remain the query is emptied |
| Comparar.OnlyScoreRowsMarked | src/pages/comparar.tsx:81-101 | only the IDSS row (max) and the complaint-index and last-readjustment rows (min) carry a best rule |
| Comparar.Numeric | src/pages/comparar.tsx:194-198 | the numeric values are exactly the present ones |
| Comparar.Extreme | src/pages/comparar.tsx:200 | the minimum (maximum) is one of the values and no value beats it |
| Comparar.IndexOf | src/pages/comparar.tsx:201 | `indexOf` gives the first index holding the target |
| Comparar.GetBestIndex | src/pages/comparar.tsx:192-202 | -1 iff the row has no rule, fewer than two plans are shown or fewer than two values are numbers; otherwise a plan with a number that no other number beats, and no earlier plan is as good |
| Comparar.MatchedVcm | src/pages/comparar.tsx:496-497 | `find` gives the VCM of the first entry for the bracket; with no entry for it the value is absent, and any value found belongs to an entry for the bracket |
| Comparar.VcmRow | src/pages/comparar.tsx:490-535 | the row exists iff a bracket is chosen; it has one cell per plan, each cell is the gated cell of that plan's first VCM for the bracket, and an exact price shows only to a lead |
| Comparar.VcmCellGating | src/pages/comparar.tsx:495-533 | a visitor never sees an exact price and sees the level teaser iff a price exists; a lead never sees the teaser and sees the exact price iff it exists, "N/D" otherwise |
| Pagination.PageParamDefault | src/pages/ranking.tsx:29 | no `page` parameter reads as page 1, and a page written with `String` reads back as itself |
| Pagination.UpdateParamFacts | src/pages/ranking.tsx:31-43 | a filter change sets (or deletes) that filter and sends the list back to page 1; a page change only sets the page; every other parameter is unchanged |
| Pagination.PageButtons | src/pages/ranking.tsx:217-262 | the previous and next buttons move `page` by exactly one |
| Pagination.ButtonsWithinRange | src/pages/ranking.tsx:215-262 | on a page within range, previous is enabled iff a page exists before it and next iff one exists after it |
| Ranking.YearsListed | src/pages/ranking.tsx:15 | the year filter offers exactly 2024 down to 2019 |
| Ranking.OrdemDecodes | src/pages/ranking.tsx:50 | the sort parameter is `<field>_<dir>`: it ends with `_asc` or `_desc` and cutting that suffix gives back the field |
| Ranking.PageWindow | src/pages/ranking.tsx:231-241 | the window has `min(total_pages, 7)` consecutive page numbers |
| Ranking.PageWindowCoversPage | src/pages/ranking.tsx:231-241 | for a page in range the window stays within 1..total_pages and contains the page |
| Ranking.RankingPage.constructor | src/pages/ranking.tsx:24-25 | the table starts sorted by position, ascending |
| Ranking.RankingPage.HandleSort | src/pages/ranking.tsx:67-74 | the active column flips between ascending and descending; a new column becomes active, ascending for the position and descending for any other field; the order always changes and the requested order names the chosen column |
| Ranking.RankingPage.UpdateParam | src/pages/ranking.tsx:31-43 | the query becomes the set-or-delete update, with `page` dropped unless it is the key |
| Ranking.RankingPage.ChangeUf | src/pages/ranking.tsx:19-43 | the chosen UF is saved as the user's UF (stored, or removed for `""`) and filters the list from page 1 |
| Operadoras.Loaded | src/pages/operadoras.tsx:61-64 | a failed request is replaced by an empty page: no items, total 0, page 1, 18 a page, no pages |
| Operadoras.FailureLooksEmpty | src/pages/operadoras.tsx:143-254 | a failed request shows "none found" with no pagination, exactly as an empty single-page search; an empty page past the last one shows "none found" together with the pagination bar |
| Operadoras.BareRequest | src/pages/operadoras.tsx:36-60 | a bare query asks for page 1, and every request asks for 18 operators |
| Operadoras.ThousandsRounded | src/pages/operadoras.tsx:335-339 | above 1000 the card shows the count in thousands rounded to the nearest whole number (halves up), at least 1 |
| Blog.ReadMinutes | src/pages/blog.tsx:28-32 | the reading time is the least whole number of minutes, at least 1, that covers the words at the given rate |
| Blog.ReadMinutesMonotone | src/pages/blog.tsx:28-32 | more words never give a shorter reading time |
| Blog.EstimateReadTimeBounds | src/pages/blog.tsx:28-32 | a card shows at least one minute, and exactly one for a summary of at most 40 white-space pieces |
| Blog.GoToPageFacts | src/pages/blog.tsx:65-69 | after moving to page `p` the page parameter reads `p` and every other parameter is unchanged |
| Blog.Tags | src/pages/blog.tsx:137-152 | no tag text shows no tags; otherwise one tag per comma-separated piece, each trimmed |
| Blog.TagsOfJoined | src/pages/blog.tsx:137-152 | tags written comma-separated, none containing a comma or edged by white space, are shown exactly as written |
| Blog.FailureShowsNoArticles | src/pages/blog.tsx:56-166 | a failed request shows the "no articles" state with no pagination, the same as an empty single-page blog; an empty page past the last one shows the message together with the pagination bar |
| BlogPost.ReadTimeBounds | src/pages/blog-post.tsx:36-39 | the article's reading time is at least one minute and grows with its word count |
| BlogPost.WrapBlock | src/pages/blog-post.tsx:83-97 | a block disappears exactly when it is blank |
| BlogPost.WrapBlockKeepsText | src/pages/blog-post.tsx:83-97 | a non-blank block keeps its trimmed text; it is left unwrapped exactly when it starts a block element, and otherwise becomes one paragraph around that text |
| BlogPost.SingleBlock | src/pages/blog-post.tsx:80-98 | text with no blank line is treated as a single block |
| AiChat.Truncate | src/components/ai-chat.tsx:217 | the input keeps at most 500 characters, a prefix of what was typed, and short text unchanged |
| AiChat.HistoricoDropsGreeting | src/components/ai-chat.tsx:58 | the history sent is the conversation in order without its opening assistant message |
| AiChat.StreamCompletes | src/components/ai-chat.tsx:59-89 | whatever the body delivers, the chat receives chunks followed by exactly one `onDone` or `onError` |
| AiChat.Chat.constructor | src/components/ai-chat.tsx:23-34 | the conversation opens with the personalised greeting alone, an empty input and nothing streaming |
| AiChat.Chat.SetInput | src/components/ai-chat.tsx:217 | typing keeps the first 500 characters |
| AiChat.Chat.HandleSend | src/components/ai-chat.tsx:46-62 | a send is refused exactly for a blank input, while streaming or at the message limit, and then nothing changes; otherwise the trimmed text is appended as one user message, the count goes up by one, the input clears, streaming starts, and the question goes out with the history |
| AiChat.Chat.OnChunk | src/components/ai-chat.tsx:63-65 | each chunk is appended to the answer being streamed |
| AiChat.Chat.OnDone | src/components/ai-chat.tsx:66-76 | the streamed text, or the apology when it is empty, becomes one assistant message and streaming ends |
| AiChat.Chat.OnError | src/components/ai-chat.tsx:77-89 | one error apology is appended, any partial answer is dropped and streaming ends |
| AiChat.Chat.ReceiveAnswer | src/components/ai-chat.tsx:59-89 | a complete answer appends exactly one assistant message: the chunks concatenated, the apology for an empty answer, or the error apology, and the message limit still holds |
| MunicipioAutocomplete.ArrowKeysWrap | src/components/municipio-autocomplete.tsx:108-120 | on a non-empty list both arrows land on an option, ArrowDown wraps from the last to the first, ArrowUp from the first (or from none) to the last, and the two moves undo each other |
| MunicipioAutocomplete.Autocomplete.constructor | src/components/municipio-autocomplete.tsx:17-31 | the box starts showing the committed value, with no options, closed, nothing highlighted and no search pending |
| MunicipioAutocomplete.Autocomplete.FetchOptions | src/components/municipio-autocomplete.tsx:47-71 | the running timer is cancelled; under two characters the list empties and closes, otherwise loading starts and the query becomes the one pending |
| MunicipioAutocomplete.Autocomplete.TimerFired | src/components/municipio-autocomplete.tsx:56-68 | the pending query is searched and loading ends; results replace the options, open the list iff there are any and clear the highlight; a failure empties and closes the list |
| MunicipioAutocomplete.Autocomplete.HandleInputChange | src/components/municipio-autocomplete.tsx:73-80 | the box shows the new text; editing away from a committed value reports an empty selection; then a search is scheduled or the list cleared as for `fetchOptions` |
| MunicipioAutocomplete.Autocomplete.SelectOption | src/components/municipio-autocomplete.tsx:82-88 | the option becomes the text and is reported as the selection; the list closes with nothing highlighted |
| MunicipioAutocomplete.Autocomplete.HandleClear | src/components/municipio-autocomplete.tsx:90-96 | the text and options are emptied, the list closes and an empty selection is reported |
| MunicipioAutocomplete.Autocomplete.HandleKeyDown | src/components/municipio-autocomplete.tsx:98-135 | closed, only ArrowDown on a non-empty list opens it on the first option; open, the arrows move with wrap-around, Enter selects the highlighted option (and does nothing without one), Escape closes and clears the highlight, any other key leaves the list open with the same highlight; only Enter changes the text or reports a selection |
| MunicipioAutocomplete.Autocomplete.Focus | src/components/municipio-autocomplete.tsx:147-151 | focus opens the list exactly when it has options, the text has at least two characters and nothing is committed |
| MunicipioAutocomplete.Autocomplete.OutsideClick | src/components/municipio-autocomplete.tsx:34-45 | a mouse-down outside closes the list |
| MunicipioAutocomplete.Autocomplete.ValueChanged | src/components/municipio-autocomplete.tsx:29-31 | a new value from the parent replaces the text in the box |
| ShareButton.ShareUrlShape | src/components/share-button.tsx:14-18 | the share link starts with the full url (the site origin is prefixed only to urls not starting with `http`), followed by the tracking parameters after `?`, or after `&` exactly when the url already has a `?`; the link always has a query |
| ShareButton.WhatsAppText | src/components/share-button.tsx:48 | the WhatsApp message is the title, one space, and the share link |
| ShareButton.ShareMenu.constructor | src/components/share-button.tsx:26-27 | the menu starts closed with no "copied" mark |
| ShareButton.ShareMenu.Toggle | src/components/share-button.tsx:133 | the share button opens a closed menu and closes an open one |
| ShareButton.ShareMenu.OutsideClick | src/components/share-button.tsx:31-40 | a mouse-down outside closes the menu |
| ShareButton.ShareMenu.Share | src/components/share-button.tsx:42-81 | each network gets its own action on its own tracked link (a window on WhatsApp, Facebook or LinkedIn with the encoded link, the plain link on the clipboard); the menu closes for every network except the clipboard |
| ShareButton.ShareMenu.Copied | src/components/share-button.tsx:71-72 | a completed clipboard write shows the "copied" mark |
| ShareButton.ShareMenu.CopiedExpired | src/components/share-button.tsx:73 | the mark is removed when its timer ends |
| SearchBox.SearchParamsFacts | src/components/search-box.tsx:41-47 | each filter is in the search exactly when chosen, with its value; there are at most three, and the target is the bare `/planos?` exactly when nothing is chosen |
| SearchBox.SearchBox.constructor | src/components/search-box.tsx:30-33 | the UF starts as the given default, even an empty one, and as the detected UF only when no default is given |
| SearchBox.SearchBox.HandleUfChange | src/components/search-box.tsx:35-39 | the chosen UF goes to the box, to the saved UF (stored, or removed when empty) and to the parent's callback; whether storage is available does not change |
| SearchBox.SearchBox.SetTipo | src/components/search-box.tsx:32 | the contract-type select sets the type |
| SearchBox.SearchBox.SetFaixa | src/components/search-box.tsx:33 | the age-band select sets the band |
| SearchBox.SearchBox.HandleSearch | src/components/search-box.tsx:41-47 | setting the chosen filters one by one on an empty query yields exactly the search target |
| SearchBox.SearchBox.HandleKeyDown | src/components/search-box.tsx:49-53 | Enter runs the search, any other key does nothing |
| ReajusteChart.Find | src/components/reajuste-chart.tsx:33-36 | the lookup of a year's point returns a position holding that year, and -1 exactly when no point has it |
| ReajusteChart.GroupFacts | src/components/reajuste-chart.tsx:32-43 | grouping gives one point per distinct year of the records, and each point holds, per series, the percentage of the last record of that year (none when there is none) |
| ReajusteChart.RecordExisting | src/components/reajuste-chart.tsx:36-41 | a record of a year that already has a point updates only that point: the years stay distinct and the same, and every point still holds its year's last records |
| ReajusteChart.RecordNew | src/components/reajuste-chart.tsx:33-41 | a record of a year without a point adds exactly that year, the years stay distinct, and every point holds its year's last records |
| ReajusteChart.SortedStrictly | src/components/reajuste-chart.tsx:45 | sorting one point per year by year gives strictly ascending years |
| ReajusteChart.SortedSamePoints | src/components/reajuste-chart.tsx:45 | sorting keeps exactly the grouped points |
| ReajusteChart.ChartDataFacts | src/components/reajuste-chart.tsx:32-45 | the chart has one point per distinct year, in strictly ascending order, each with the last individual and last collective percentage of its year; it is empty exactly when there are no records |
| ReajusteChart.BuildChartData | src/components/reajuste-chart.tsx:32-45 | the reduce over the records followed by the sort computes exactly those chart points |
| ReajusteChart.ViewFacts | src/components/reajuste-chart.tsx:47-57 | the "no data" placeholder shows exactly when there are no records, and the bars carry the ANS ceiling exactly as given |
| PlanCard.CardPriceGating | src/components/plan-card.tsx:115-136 | with a price, a lead sees the exact price and no teaser and a visitor only the price-level teaser; without a price neither shows; the card agrees with the comparison table's price cell |
| PlanCard.AccommodationTagFacts | src/components/plan-card.tsx:87-91 | the accommodation tag exists exactly for a non-empty value; only "Individual" and "Coletiva" are renamed, to "Apartamento" and "Enfermaria" |
| PlanCard.StatusTag | src/components/plan-card.tsx:107-111 | the status tag shows the situation exactly when it is neither empty nor "Ativo" |
| PlanCard.PenaltyLabelPlural | src/components/plan-card.tsx:197-203 | the penalty label starts with the count and ends in "s" exactly when the count is not 1 |
| PlanCard.PenaltyBadge | src/components/plan-card.tsx:197-204 | the badge shows exactly for a plan with penalties, starts with their count and is plural exactly when the count is not 1 |
| PlanoDetalhe.PenaltyTag | src/pages/plano-detalhe.tsx:231-238 | the header's penalty tag shows exactly for a plan with penalties, starts with their count, is plural exactly when the count is not 1, and is the plan card's badge |
| PlanCard.DetailPathId | src/components/plan-card.tsx:211-213 | the detail link is `/planos/` followed by one segment, the plan's id, which `Number` reads back as that id |
| PlanCard.CompareButton | src/components/plan-card.tsx:218-232 | the compare button exists exactly when a compare handler is given, and reads "Comparando" exactly while the plan is being compared |
| PlanoDetalhe.HeroPrice | src/pages/plano-detalhe.tsx:303 | the hero price is the plan's own price when it has one; otherwise, with a loaded price list and a chosen bracket, it is the first VCM listed for that bracket; it is absent without a price list, without a bracket, or when no entry has the bracket |
| PlanoDetalhe.HeroGating | src/pages/plano-detalhe.tsx:303-371 | a visitor never sees a price and sees the price-level teaser exactly when there is a hero price; a lead never sees the teaser and is shown exactly the hero price |
| PlanoDetalhe.VcmTableGating | src/pages/plano-detalhe.tsx:496-560 | the price table is hidden exactly when there are no brackets; a lead sees every bracket; a visitor sees the first three at most, in order, blurred |
| PlanoDetalhe.IgrLabelMonotone | src/pages/plano-detalhe.tsx:278-282 | the complaint label is never worse for a lower index, and any index gets a label other than "Sem dados" |
| PlanoDetalhe.SubIndexColorMonotone | src/pages/plano-detalhe.tsx:703-708 | a higher IDSS sub-index never gets a worse colour, and only a missing value is grey |
| PlanoDetalhe.LineFacts | src/pages/plano-detalhe.tsx:907-922 | a UF line shows at most the first ten names, counts the rest in "+n mais" exactly when there are more than ten, and shown plus remainder is the UF's count |
| PlanoDetalhe.ByUfTotalPreorder | src/pages/plano-detalhe.tsx:905 | ordering UFs by their codes is total and transitive |
| PlanoDetalhe.TotalSorted | src/pages/plano-detalhe.tsx:900-905 | sorting the UFs does not change the municipality total |
| PlanoDetalhe.UfLinesFacts | src/pages/plano-detalhe.tsx:895-925 | the UF lines are a reordering of the entries, in ascending order of UF, and their counts add up to the total in the heading |
| PlanoDetalhe.PlanoPage.constructor | src/pages/plano-detalhe.tsx:49-57 | the page starts loading with the bracket saved in storage, an old code replaced by its current band, and the bracket is stored back on mount; no other storage key changes |
| PlanoDetalhe.PlanoPage.SetFaixaEtaria | src/pages/plano-detalhe.tsx:57 | choosing a bracket stores it, or removes the stored key for an empty choice; nothing changes when storage is unavailable |
| PlanoDetalhe.PlanoPage.Loaded | src/pages/plano-detalhe.tsx:61-67 | loading ends with the plan, or with the error message (the default one when the message is empty) |
| OperadoraDetalhe.ByIdssYearTotalPreorder | src/pages/operadora-detalhe.tsx:117 | the chart's year comparator is a total preorder, so the sort is well defined |
| OperadoraDetalhe.IgrColorMonotone | src/pages/operadora-detalhe.tsx:418-425 | more complaints never get a better colour; danger means above 60, and success for a higher index implies success for a lower one |
| OperadoraDetalhe.Location | src/pages/operadora-detalhe.tsx:171-172 | the location is the UF alone without a city, and otherwise the city, " - ", then the UF |
| OperadoraDetalhe.SortedLastIsLatest | src/pages/operadora-detalhe.tsx:111-117 | after the history is sorted by year, its last entry is one of the entries and has the greatest year |
| OperadoraDetalhe.OperadoraPage.constructor | src/pages/operadora-detalhe.tsx:40-43 | the page starts loading, with no operator, no error and no plans |
| OperadoraDetalhe.OperadoraPage.Loaded | src/pages/operadora-detalhe.tsx:49-65 | a failed operator fetch shows its error (the default message when empty) and the operator, its IDSS history and its plans stay as they were; otherwise the operator is shown with its plan total replaced by the plan search's total and those plans listed, and a failed plan search counts as no plans; loading ends either way |
| OperadoraDetalhe.OperadoraPage.Render | src/pages/operadora-detalhe.tsx:111-125 | the latest IDSS entry is read as the last entry before sorting, then the history is sorted by year in place and the chart is the sorted history |
| Reajustes.DisplayName | src/pages/reajustes.tsx:51 | an operator is shown by its trade name, or by its legal name when it has none |
| Reajustes.TableOrdered | src/pages/reajustes.tsx:194-195 | the table lists the same records, newest year first |
| Reajustes.PercentColorMonotone | src/pages/reajustes.tsx:206-212 | a higher percentage never gets a milder colour; danger means above 15 and success at most 10 |
| Reajustes.ReajustesPage.constructor | src/pages/reajustes.tsx:12-19 | the page starts with no query, no operator, no suggestions, no records and no error |
| Reajustes.ReajustesPage.SuggestionEffect | src/pages/reajustes.tsx:20-33 | the previous suggestion timer is cancelled; a blank query or a selected operator clears the suggestions, any other query starts a timer for itself |
| Reajustes.ReajustesPage.SuggestionsFetched | src/pages/reajustes.tsx:25-31 | the pending query is searched for five operators and its results (none on failure) become the suggestions |
| Reajustes.ReajustesPage.LoadEffect | src/pages/reajustes.tsx:36-47 | without an operator the records are emptied; with one, loading starts, the error clears and its records are requested |
| Reajustes.ReajustesPage.ReajustesLoaded | src/pages/reajustes.tsx:43-46 | loading ends with the records received, or with the request's error message |
| Reajustes.ReajustesPage.SelectOperadora | src/pages/reajustes.tsx:49-53 | choosing an operator selects it, shows its name in the box, clears the suggestions and requests its records, clearing the error; the records shown stay until the answer arrives |
| Reajustes.ReajustesPage.Type | src/pages/reajustes.tsx:101-106 | typing sets the query and drops any selection together with its records; a non-blank query schedules suggestions and keeps the current ones, a blank one clears them; the loading flag and any error stay |
| Reajustes.ReajustesPage.ClearSelection | src/pages/reajustes.tsx:55-59 | clearing leaves no operator, an empty query, no records and no suggestions; the loading flag and an earlier error stay as they were |
| Reajustes.ReajustesPage.RenderTable | src/pages/reajustes.tsx:194-196 | rendering sorts the records by year descending in place, and the rows are the sorted records |
| UseUserUf.DetectUfFromMainTable | src/hooks/use-user-uf.ts:43-50 | every UF guessed from the time zone is a Brazilian state code, no guess is made when the zone cannot be read, and the fallback table never changes the outcome of the main one |
| UseUserUf.InitialUf | src/hooks/use-user-uf.ts:53-64 | a non-empty saved choice wins; otherwise the UF guessed from the time zone, or empty |
| UseUserUf.UserUf.constructor | src/hooks/use-user-uf.ts:53-64 | a new instance starts from the saved choice or the time-zone guess |
| UseUserUf.UserUf.SetUf | src/hooks/use-user-uf.ts:66-77 | the instance takes the value; storage keeps a non-empty value under its key and forgets an empty one; unavailable storage is left untouched |
| UseFaixasPreco.Find | src/hooks/use-faixas-preco.ts:19-21 | the search returns the first item with that contract type and age band, and nothing exactly when no item matches |
| UseFaixasPreco.Lookup | src/hooks/use-faixas-preco.ts:16-24 | nothing for a missing or empty type or band; otherwise a matching item exactly when one exists, and it is the first matching item of the list |
| UseFaixasPreco.FaixasPreco.constructor | src/hooks/use-faixas-preco.ts:6-7 | the hook starts loading with no items |
| UseFaixasPreco.FaixasPreco.Loaded | src/hooks/use-faixas-preco.ts:9-14 | loading ends with the items received, or with none when the request failed, in which case no lookup finds anything |
| FilterJson.ParseStringify | src/lib/utils.ts:132-143 | `JSON.parse` reads back exactly the flat object of strings that `JSON.stringify` wrote, with quotes and backslashes escaped |
| Numbers.NatToString | src/lib/api-client.ts:64 | `String(n)` of a non-negative integer is a non-empty run of digits with no leading zero |
| Numbers.NatToStringValue | src/lib/api-client.ts:64 | the digits `String(n)` writes denote `n` |
| Numbers.IntToString | src/components/lead-form.tsx:138 | `String(n)` of an integer is non-empty, has no comma, does not start with white space and ends in a digit |
| Numbers.NumeralHasNoSlash | src/components/plan-card.tsx:211-213 | `String(n)` of an integer holds no slash, so the id is one path segment of the detail link |
| Numbers.LeadingDigits | src/lib/api-client.ts:116 | the digit run `parseInt` reads is the longest prefix made only of digits |
| Numbers.ParseIntOfString | src/pages/blog.tsx:51 | `parseInt(s, 10)` reads back every integer `String` writes |
| Numbers.ParseIntStopsAtNonDigit | src/lib/api-client.ts:102-103 | `parseInt` of digits followed by a non-digit is the value of those digits |
| Numbers.ToNumberOfString | src/lib/api-client.ts:264 | `Number(s)` reads back every integer `String` writes |
| Numbers.CeilDiv | src/pages/blog.tsx:31 | `Math.ceil(a / b)` for a positive divisor is the least integer whose multiple of `b` reaches `a` |
| Sorting.SortByPermutes | src/pages/reajustes.tsx:194-195 | sorting keeps exactly the same elements, with their multiplicities |
| Sorting.SortBySorted | src/pages/reajustes.tsx:194-195 | with a comparator that is a total preorder, the sorted sequence is in comparator order |
| Sorting.SortByStable | src/pages/reajustes.tsx:194-195 | elements that compare equal keep their relative order, as ECMAScript requires of `Array.prototype.sort` |
| Sorting.SortInPlace | src/pages/operadora-detalhe.tsx:116-117 | the in-place sort leaves the array holding exactly the stable sort of its old contents |

## Left out

- Network I/O: `fetcher`, the `fetch`/reader/`TextDecoder` part of `chatIAStream` and the page fetches. Their answers are method parameters.
- `AbortController` and the abort handling of the chat stream.
- Races between overlapping requests and the re-fetch when a route parameter changes.
- Timers are not modelled as time. A debounce is modelled only as "a newer query replaces the pending one". The firing of a timer is a method call.
- The polling for the bot-check script and the bot-check widget's own calls. Its token is a field that callbacks set or clear.
- Locale and number rendering: `formatCurrency`, `formatPercentage`, `formatNumber`, `toLocaleString`, the `toFixed` displays and date formatting. Thresholds are modelled; the rendered text is not.
- Operadoras.BeneficiariosLabel: `toFixed(0)` on a binary float is taken as rounding halves up.
- `JSON.parse` in the stream handler is an abstract input: a payload is either not JSON or an object whose `content` is a string or absent. A truthy non-string `content` is not modelled.
- The `catch` around `chatIAStream` in the chat panel (`src/components/ai-chat.tsx:91-94`) is not modelled. The stream function catches every error itself and reports it through `onError`, so that `catch` never runs.
- The regular-expression chain of `markdownToHtml` (lazy and multiline semantics). Only its final block pass is modelled.
- `getGradientForName`: a cosmetic hash that relies on 32-bit shift wrap-around.
- Numbers.ToNumber: `Number` is modelled on blank text and on decimal integers with an optional sign. Hexadecimal, exponent, fraction and `Infinity` forms are taken as NaN, where `Number` would read them. Every link the application writes carries integer plan ids.
- Storage failures are all or nothing: a storage object is either available or not, so each write either succeeds or throws. A quota error part-way through the five `setItem` calls of `setLead` (`src/hooks/use-lead.ts:38-44`), or through the success writes of the lead form and the lead modal, would leave only some lead keys written. The model never produces such a partial lead.
- Lengths, indices and slices count Unicode characters, where JavaScript counts UTF-16 code units. The two differ only for characters outside the Basic Multilingual Plane, such as emoji. This affects the 500-character cut of the chat input, the two-character minimum of the municipality search, the first letter `w[0]` taken by `getInitials` and the slices of `formatCompetencia`.
- Case mapping is ASCII only. `localeCompare` on the two-letter UF codes is code-unit order.
- The JSON writer and reader for saved filters escape only `"` and `\`. Control characters in filter values are not modelled.
- `Object.entries`/`Object.values` order: where order matters, the model uses the order of the literal or of insertion.
- Rendering and framework plumbing: JSX, `useSyncExternalStore` wiring, class merging, recharts drawing, SEO tags, the router, and focus and blur handling beyond the outside-click rule.
- PlanoDetalhe.PenaltyTag: the fines suffix `(… em multas)` shown after the penalty count when `total_multas` is present is not modelled; it is currency rendering.
- Analytics (`trackEvent`) calls.
- The modal's Escape and backdrop close handlers.
- The `searching`/spinner flags of the autocomplete and of the readjustments page.
- The operator page keeps the IDSS history as a page field, next to the operator record rather than inside it. This is the array that the chart's sort reorders in place.
- Local-storage events from other tabs: the lead store never listens to them.
- Pages without rules of their own: privacy, terms, home, quote and assistant. The assistant only wires the lead store, which `use_lead.dfy` covers.
- The browser test suite, which served only as evidence.
