# ai-gettext-translator, modelled in Dafny

ai-gettext-translator fills in missing translations with a language-model service. It works on two kinds of input:

- **Catalog mode** (`src/translator.rs`) walks the lines of a gettext `.po` file with a cursor. A `msgid ` line followed by a `msgstr` line is a singular record. A `msgid ` line followed by `msgid_plural` and `msgstr[0]` lines, plus one more line, is a plural record. A record whose slot is empty is translated into the target language, and so is every record when force is on. The slot line or lines are then rewritten as `msgstr "<text>"` (or `msgstr[0]`/`msgstr[1]`). The file is written back only when something changed and this is not a dry run.
- **Inline mode** (`src/inline.rs`) finds every `gettext("…")` call in an Elixir (`.ex`) file. It sends the quoted message to be translated into English and rebuilds the call from the answer. It then replaces every occurrence of the old call text in a working copy of the file.

Both modes go through `OpenAI::send` (`src/openai.rs`). It posts a request and retries transport failures and non-OK statuses through `retry`. `retry` allows at most 6 retries (`max_retries` is 5 and the check is `retries > max_retries`), so at most 7 requests, and computes a backoff of `100 * 2^retries` ms. On an OK status, `send` takes the first content line of the first output item and trims the quotes around it.

The project has four modules:

| file | module | models |
|---|---|---|
| `Common.dfy` | `Common` | result and error types; `str::starts_with`, `find`, `rfind` |
| `OpenAi.dfy` | `OpenAi` | `AiRequest::new`, `retry`, the `send` loop, `extract_translation_result` |
| `PoTranslator.dfy` | `PoTranslator` | `is_msgid`, `extract_po_string`, `iso_to_name`, the singular and plural steps, the scan loop, `process_po_file`'s split/join and write decision |
| `Inline.dfy` | `Inline` | `str::replace`, `translate_gettext_strings`, `process_file`'s write decision, `is_processable_file` |

Modelling choices:

- **Service as a parameter.** The translation service is a function parameter. In catalog mode it takes the message and the ISO code of the target language, as `translate_msg` does. Inside `translate_msg` the code is turned into a language name for the instructions; `IsoToName` models that lookup, but since the service is a free parameter, nothing else in the model depends on it. In inline mode the service takes the message only.
- **Scripted replies.** For `send`, the service is a script `nat -> Reply`: the reply to request number n.
- **Lines in place.** The lines of a catalog are an `array<string>` updated in place, as in the source's `&mut [String]`. `ScanLines`, `ScanAt`, `ScanPluralAt`, `TrySingular` and `TryPlural` are proved against the functions `ScanFrom`, `SingularStep` and `PluralStep` on `seq<string>`.
- **Panics.** A Rust panic is a distinct `Error.Panic` value, not a precondition. Two inputs panic:
  - a catalog line with exactly one quote;
  - a reply with an empty `output` or `content` list.

## Model

| member | source | states |
|---|---|---|
| Common.StartsWith | src/translator.rs:95 | `str::starts_with`: the prefix is no longer than the text and equals its first characters |
| Common.FindChar | src/translator.rs:160-162 | `find('"')`: None exactly when the character is absent; otherwise its first position |
| Common.RFindChar | src/translator.rs:163-165 | `rfind('"')`: None exactly when the character is absent; otherwise its last position |
| OpenAi.NewRequest | src/openai.rs:18-24 | the model is always "gpt-4o-mini"; instructions and input are stored unchanged |
| OpenAi.TrimStartQuotes | src/openai.rs:113 | the result is a suffix of the text; everything cut off is quotes; the result does not start with a quote |
| OpenAi.TrimEndQuotes | src/openai.rs:113 | the result is a prefix of the text; everything cut off is quotes; the result does not end with a quote |
| OpenAi.TrimQuotes | src/openai.rs:113 | `trim_matches('"')`: the result is an infix with only quotes on both sides, and neither starts nor ends with a quote (all surrounding quotes go, not one pair) |
| OpenAi.TrimmedInfix | src/openai.rs:113 | trimming the start and then the end leaves an infix between two runs of quotes that neither starts nor ends with a quote |
| OpenAi.TrimQuotesIdempotent | src/openai.rs:113 | trimming twice is trimming once |
| OpenAi.TrimQuotesOfQuotesOnly | src/openai.rs:113 | a text made only of quotes trims to the empty string |
| OpenAi.ExtractTranslationResult | src/openai.rs:111-114 | fails exactly when `output` or its first `content` list is empty, and that failure is a panic; otherwise the first text with its quotes trimmed |
| OpenAi.Pow2 | src/openai.rs:103 | `2u64.pow(n)` is at least 1 |
| OpenAi.Retry | src/openai.rs:97-108 | fails exactly when `retries > max_retries`, with the exhaustion error naming the budget; otherwise the counter goes up by exactly one and the wait is `100 * 2^retries` |
| OpenAi.BackoffSchedule | src/openai.rs:103 | the waits for counters lo..hi-1: one per counter, the j-th being `100 * 2^(lo+j)` |
| OpenAi.BackoffDoubles | src/openai.rs:103 | the first backoff is 100 ms, and each later one doubles the previous |
| OpenAi.Send | src/openai.rs:64-95 | the loop returns the result, the request count and the backoffs given by `SendFrom` from counter 0 |
| OpenAi.SendSettlesAfterFailures | src/openai.rs:68-95 | k ≤ 6 failures, then a reply that is not retried: exactly k+1 requests, the result settled from that reply, backoffs 100·2^j for j < k |
| OpenAi.SendExhausts | src/openai.rs:97-100 | every reply failing: the exhaustion error after exactly 7 requests (counter values 0..6) |
| OpenAi.SendScenarios | src/openai.rs:64-108 | from a fresh call: all failures give 7 requests and waits 100, 200, 400, 800, 1600, 3200; k ≤ 6 failures then an OK reply give the extracted text, or the decoding error, after k+1 requests |
| OpenAi.SendRequestBound | src/openai.rs:65-66 | the loop always ends, after at least one and at most 7 requests, computing one backoff per retried request |
| PoTranslator.MsgidHeaders | src/translator.rs:94-96 | a line is a header exactly when it is "msgid " followed by anything; `msgid_plural` and `msgstr` lines never are |
| PoTranslator.ExtractPoString | src/translator.rs:159-168 | any failure is MalformedLine for that very line, or a panic |
| PoTranslator.ExtractPoStringOutcomes | src/translator.rs:159-168 | no quote: MalformedLine; exactly one quote: panic (slice start after its end); two or more: a text |
| PoTranslator.ExtractPoStringBetweenOutermostQuotes | src/translator.rs:159-167 | the text extracted is exactly what lies between the first and the last quote of the line |
| PoTranslator.SingleQuotePanics | src/translator.rs:159-167 | a line with a single quote (such as `msgid "Hello`, closing quote missing) panics rather than giving the MalformedLine error |
| PoTranslator.ExtractFormatRoundTrip | src/translator.rs:118 | extracting from a written slot line gives back exactly the text written, even a text holding quotes |
| PoTranslator.SlotKeywordsRoundTrip | src/translator.rs:150-151 | the round trip holds for `msgstr`, `msgstr[0]` and `msgstr[1]` lines |
| PoTranslator.IsoToNameFallback | src/translator.rs:195-383 | any text that is not two characters long gives "English" |
| PoTranslator.IsoToNameNonEmpty | src/translator.rs:195-383 | the lookup is total and never gives an empty name |
| PoTranslator.IsoToNameSpanish | src/translator.rs:195-383 | "es" gives "Spanish" |
| PoTranslator.IsoToNameFrench | src/translator.rs:195-383 | "fr" gives "French" |
| PoTranslator.IsoToNameUnlisted | src/translator.rs:195-383 | an unlisted code ("xx") falls back to "English" |
| PoTranslator.SingularShape | src/translator.rs:108 | the guard of `try_translate_singular`: a next line exists and starts with "msgstr" |
| PoTranslator.PluralShape | src/translator.rs:135-141 | the guards of `try_translate_plural`: three more lines exist, the first starting with "msgid_plural" and the second with "msgstr[0]"; the fourth line is not checked |
| PoTranslator.SingularStep | src/translator.rs:108-122 | no change without a following msgstr line, or when the slot holds text and force is off; when it translates, only the slot line changes and it reads back as the translation of the msgid payload |
| PoTranslator.PluralStep | src/translator.rs:135-155 | no change without the msgid_plural/msgstr[0] shape, or when both slots hold text and force is off; when it translates, only the two slot lines change, both reading back as the translation of the msgid_plural payload |
| PoTranslator.SingularStepDecision | src/translator.rs:112-121 | for a singular-shaped record: a failed msgid or slot extraction is returned as the error, in that order; an empty slot or force sends the msgid to the service, whose error is returned or whose answer is written as `msgstr "<t>"`; the step fails exactly in those cases |
| PoTranslator.PluralStepDecision | src/translator.rs:143-154 | for a plural-shaped record: the three extractions fail in order; an empty `msgstr[0]` or `msgstr[1]` slot, or force, sends the msgid_plural payload to the service, whose error is returned or whose answer is written into both slots; the step fails exactly in those cases |
| PoTranslator.PluralFillsEmptySlot | src/translator.rs:143-154 | a plural record with an empty `msgstr[0]` slot is translated even without force, and both slot lines are rewritten with the answer |
| PoTranslator.PluralThenHeader | src/translator.rs:139-145 | a four-line plural record whose fourth line is a header still has the plural shape |
| PoTranslator.PluralThenHeaderPayloads | src/translator.rs:143-145 | every payload of that record extracts: the plural text, an empty first slot, and the next record's key |
| PoTranslator.PluralOverwritesUncheckedFourthLine | src/translator.rs:145-151 | the fourth line of a plural record is overwritten with `msgstr[1]` even when it is the next record's header, which is then no longer a header |
| PoTranslator.ScanFrom | src/translator.rs:55-73 | the scan keeps the line count and every line before the cursor; it counts at most one change per two lines scanned |
| PoTranslator.TrySingular | src/translator.rs:100-123 | on the array: the result and the new contents are those of SingularStep; on an error or no match, the lines are unchanged |
| PoTranslator.TryPlural | src/translator.rs:127-156 | on the array: the result and the new contents are those of PluralStep; on an error or no match, the lines are unchanged |
| PoTranslator.ScanAt | src/translator.rs:56-72 | one turn of the loop: a failed step ends the scan with its error; otherwise the cursor moves forward, and the scan from the new cursor and count gives what it gave from the old |
| PoTranslator.ScanPluralAt | src/translator.rs:62-69 | the plural half of a turn, at a header the singular step left alone: same promise as ScanAt |
| PoTranslator.ScanLines | src/translator.rs:52-73 | the loop leaves the array holding the lines ScanFrom gives and returns its change count, or the first error |
| PoTranslator.ScanRewritesOnlySlots | src/translator.rs:55-73 | every line a scan changes becomes a `msgstr` line, and was a `msgstr` line or the line after a `msgstr[0]` line |
| PoTranslator.NoChangesMeansSameLines | src/translator.rs:55-73 | a scan that counts no change leaves every line as it was |
| PoTranslator.CompleteCatalogUnchanged | src/translator.rs:115 | without force, a catalog whose recognisable records all have filled slots is left exactly as it is, with no change counted |
| PoTranslator.RecordCount | src/translator.rs:61 | the records found by the cursor moves number at most half the lines |
| PoTranslator.ForcedScanCountsRecords | src/translator.rs:115 | with force on and a service that always answers, the change count is the number of records the cursor recognises, whatever their slots held |
| PoTranslator.Lines | src/translator.rs:50 | `str::lines`: non-empty text gives at least one line |
| PoTranslator.LinesOfJoin | src/translator.rs:84 | splitting lines joined by "\n" gives them back when none holds a newline or ends in '\r' and the last is non-empty |
| PoTranslator.JoinOfLines | src/translator.rs:84 | joining the lines of a text gives it back when it holds no '\r' and does not end in a newline |
| PoTranslator.TrailingNewlineDropped | src/translator.rs:50 | a final newline is not a line, so it is not written back |
| PoTranslator.ProcessPoFile | src/translator.rs:49-90 | the scanned lines and change count are those of ScanFrom on the file's lines; the joined lines are written exactly when some record changed and this is not a dry run; any error is passed on |
| PoTranslator.CompleteCatalogNotWritten | src/translator.rs:75-88 | a complete catalog scanned without force counts no change, so it is not written |
| Inline.ReplaceAll | src/inline.rs:81 | `str::replace`: a same-length replacement keeps the length; a text shorter than a non-empty pattern is unchanged |
| Inline.ReplaceAllIdentity | src/inline.rs:81 | replacing a pattern by itself changes nothing, the empty pattern included |
| Inline.ReplaceAllAbsent | src/inline.rs:86 | a text in which a non-empty pattern does not occur is unchanged |
| Inline.ReplaceCharPointwise | src/inline.rs:81 | replacing one character by another is a position-by-position substitution |
| Inline.RewriteFrom | src/inline.rs:76-88 | the flag comes back set exactly when it was set or some capture's rebuilt call differs from its original; the loop fails exactly when some capture's translation fails; a run with the flag still clear leaves the working copy as it was |
| Inline.TranslateGettextStrings | src/inline.rs:67-91 | the loop gives the result of RewriteFrom from the original content with the flag clear; with no captures, the content unchanged and the flag clear |
| Inline.EchoTranslationChangesNothing | src/inline.rs:81-87 | a service answering every message with itself leaves the content and the flag as they were |
| Inline.RepeatedCallRewrittenEverywhere | src/inline.rs:86 | a call appearing twice is rewritten at both places by its first capture, and the flag is set |
| Inline.PayloadReplacedOutsideQuotes | src/inline.rs:81 | the message is replaced outside the quotes too: a one-character message that also occurs in the function name (as "e" in `gettext("e")`) rewrites the name when the answer differs |
| Inline.ProcessFile | src/inline.rs:41-65 | the rewritten text is written exactly when some call changed and this is not a dry run; any error is passed on |
| Inline.FileName | src/inline.rs:35 | the name holds no '/', ends the path, and is preceded by a '/' when shorter than the path |
| Inline.ProcessableIffExNamed | src/inline.rs:30-39 | accepted exactly when it is a regular file whose name is a non-empty stem followed by ".ex" (a hidden ".ex" is not) |
| PoTranslator.IsMsgid | src/translator.rs:94-96 | `is_msgid`: the line starts with "msgid " (space included); its meaning is stated by MsgidHeaders |
| PoTranslator.FormatSlot | src/translator.rs:150-151 | the slot line `<keyword> "<text>"` the scanner writes; its round trip is stated by ExtractFormatRoundTrip |
| PoTranslator.IsoToName | src/translator.rs:195-383 | `iso_to_name`, entry for entry with the `"English"` fallback; its properties are stated by the IsoToName lemmas |
| PoTranslator.Join | src/translator.rs:84 | `lines.join("\n")`; its relation to Lines is stated by LinesOfJoin and JoinOfLines |
| OpenAi.IsFailure | src/openai.rs:77-93 | the replies `send` retries: a transport error, or any status other than 200 |
| OpenAi.Settle | src/openai.rs:85-88 | an OK reply: the extracted text, or the decoding error when the body does not decode |
| OpenAi.SendFrom | src/openai.rs:64-108 | the `send` loop from a counter value; its outcomes are stated by SendSettlesAfterFailures, SendExhausts and SendRequestBound |
| Inline.RewriteCall | src/inline.rs:81 | `original.replace(text, &translation)`; stated by ReplaceAllIdentity and PayloadReplacedOutsideQuotes |
| Inline.Extension | src/inline.rs:35 | `Path::extension`: none exactly for "..", the empty name, or a name with no dot after its first character; otherwise the dot-free text after the last dot, with a non-empty stem before it |
| Inline.IsProcessableFile | src/inline.rs:30-39 | `is_processable_file`: a regular file with extension "ex"; characterised by ProcessableIffExNamed |

## Left out

- File and directory I/O are not modelled: reading, writing, walking directories, the per-language folder loop in `run` and the missing-folder skip. `ProcessPoFile` and `ProcessFile` take the file's text and return what would be written.
- The HTTP request, bearer authentication, JSON serialisation and the `reqwest` client are not modelled. A reply is a scripted `Reply` value, and a body that fails to decode is `Received(200, None)`.
- `OpenAI::new` and `get_api_key` (the environment variable and its `expect`) are not modelled; the key plays no part in any decision modelled here.
- The regular expression of `create_gettext_regex` is not modelled. Its matches come in as a list of `Capture`s taken from the original content; the model does not require them to occur in it.
- The prompt and instruction texts built with `format!` (`build_translation_prompt`, `build_translation_request`, `translate_msg`, `translate_text`) are not modelled. The translation service they feed is a parameter.
- The service is a pure function, so the model does not capture a service that gives different answers to the same message on different calls.
- Async execution, `tokio::time::sleep` and timing are not modelled. Only the computed wait value is kept; the source discards the sleep future, so no delay happens anyway.
- Logging is not modelled: `log_change`, `log_diff`, `log_retry`, `log_file_success`, `log_no_changes` and the command-line dispatch of `src/main.rs`.
- Retry: does not model the overflow of `2u64.pow(retries)` for counters of 64 or more, or of the `u32` counter, because the counter never exceeds 6 in `send`.
- FileName: a path with a trailing '/' or a "." component is not normalised the way `Path::file_name` does; the walk only produces plain entry paths.
- IsoToName: the lookup is modelled entry for entry; only five instances of it are stated as lemmas.
- A catalog line with exactly one quote panics, because the slice start passes its end; it is not a MalformedLine error.
- `trim_matches('"')` removes every leading and trailing quote of the reply text, not just one pair.
- `retry` bails only when `retries > 5`, so a run of failures makes 7 requests.
