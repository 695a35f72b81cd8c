# Live news break: a Dafny model of its processing core

This project models the string, list and protocol logic of the live news
break generator. That generator turns an RSS feed into a spoken news bulletin,
measures and tags its loudness, and uploads the result to an AzuraCast
station or an S3 bucket. A separate helper program, `llm.py`, edits a code
base through a chat model. The model covers these parts:

- **ReplayGain** (`replaygain.dfy`):
  - the scanner that pulls ffmpeg's `loudnorm` JSON block out of its diagnostic lines;
  - the checks on the decoded gain and peak;
  - the `-metadata key=value` arguments and the remux command;
  - the choice between the R128 track gain from the analysis and the derived one;
  - the per-format tag keys that count as existing gain data.
- **LlmFiles** (`llm_files.dfy`):
  - the parser that extracts `<<LLM_FILE_START: name>>` … `<<LLM_FILE_END>>` blocks from a chat reply;
  - the removal of Markdown fence lines.
- **Conversation** (`conversation.dfy`): the conversation as a list of message objects that are updated in place. It covers:
  - `_format_messages`;
  - `append_message`;
  - the retry that drops the `system` role, folds the system prompt into the first user message, and on success replaces the stored conversation.
- **Skeleton** (`skeleton.dfy`): `skeletonize_data` on JSON-like values.
- **Templating** (`templating.dfy`): the time-of-day wording handlers offered to the templates.
- **Filenames** (`filenames.dfy`): the file name templating.
  - The upload clients replace `%Y %m %d %H %M %S %EXT%`.
  - The command-line program replaces `%EXT%` with `mp3`, then `%Y% %m% %d% %H% %M% %S%`.
- **AzuraCast** (`azuracast.dfy`):
  - the client's settings;
  - the retry loop with exponential backoff;
  - the playlist lookup;
  - the upload sequence: upload, find the playlist, empty it, add the file.
- **S3** (`s3.dfy`): the client's settings, the object key and the upload result.
- **News** (`news.dfy`):
  - feed filtering into news items;
  - the checks and prompt assembly of the script request.

Support modules:
- `wrappers.dfy`: `Option` and `Result`.
- `strings.dfy`: Python's `strip`, `rstrip`, `replace`, `split`, `splitlines` and `join`, and `int`/`str` on decimal integers, each with its own lemmas.
- `seqs.dfy`: a list filter with its lemmas.

The outside world is always an input:
- A subprocess run is its return code and its diagnostic text.
- The JSON decoder, the regular-expression search, the tag reader, the HTTP replies, the storage service and the chat completion are function parameters.
- In the AzuraCast client, attempt `k` of an HTTP request is `respond(k)`.
- The chat completion calls take the messages or request they would send and return the reply or the API error. They have no attempt index.

Where this model follows the code rather than the documentation:
- `format_filename` in `src/s3/main.py` is documented as returning a formatted name. The module never imports `datetime`, so the code always raises; see Findings.
- The AzuraCast retry is documented as retrying on server errors. As written it reads the status through the response's truth value, which is false for every error reply; see Findings.
- The command-line program's docstring promises a timestamped output name. The code reads the clock six times; see Findings.
- `current_hour_12` has an empty word for hour 0. `%I` never yields 0, so that entry is never used (`Templating.CurrentHour12NeverEmpty`).
- `remove_markdown_code_blocks` keeps an `in_code_block` toggle. It never decides which lines are kept: every fence line is dropped, and every other line is kept.

## Model

| member | source | states |
|---|---|---|
| ReplayGain.Classify | src/replaygain/main.py:46-53 | a stripped line is an opener exactly when it is `{`, a closer exactly when it is `}`, and otherwise is kept with its text |
| ReplayGain.ScanLine | src/replaygain/main.py:46-53 | one loop step: a `{` line is appended and opens capture; while capturing every line is appended and `}` stops capture; the result is the scan state after one more line |
| ReplayGain.ScanJsonBlock | src/replaygain/main.py:44-53 | the loop over the stripped diagnostic lines returns exactly the concatenation of the lines the capture specification selects |
| ReplayGain.CapturingMeansOpenBlock | src/replaygain/main.py:47-53 | capture is on after a prefix exactly when some `{` line in it has no `}` line after it |
| ReplayGain.ScanStep | src/replaygain/main.py:47-53 | what one line does to the capture flag and to the captured lines |
| ReplayGain.StaysClosed | src/replaygain/main.py:47-50 | with capture off, lines without `{` never turn it on |
| ReplayGain.StaysOpen | src/replaygain/main.py:50-53 | with capture on, lines without `}` never turn it off |
| ReplayGain.UncapturedSpan | src/replaygain/main.py:47-53 | lines that are not captured add nothing to the output |
| ReplayGain.CapturedSpan | src/replaygain/main.py:47-53 | a run of captured lines is appended as it stands |
| ReplayGain.NoOpenerNothingCaptured | src/replaygain/main.py:44-57 | output with no `{` line captures nothing, so the empty-output error is raised |
| ReplayGain.OpenBlock | src/replaygain/main.py:47-53 | a `{` line followed by lines none of which is `}` is captured whole and leaves capture on |
| ReplayGain.FramedBlock | src/replaygain/main.py:47-53 | a `{` … `}` block is captured whole and leaves capture off |
| ReplayGain.ScanRecoversBlock | src/replaygain/main.py:44-53 | noise without `{` before and after a framed block is discarded; exactly the block's lines are captured |
| ReplayGain.ScanRecoversBlockText | src/replaygain/main.py:44-53 | the captured text of such a block is `{`, the body lines run together, `}` |
| ReplayGain.ScanRecoversRawBlock | src/replaygain/main.py:44-53 | the same on raw unstripped lines: the scanner returns `{` + stripped body + `}` |
| ReplayGain.ScanUnclosedBlock | src/replaygain/main.py:47-53 | a `{` never closed captures everything to the end of the output |
| ReplayGain.ScanConcat | src/replaygain/main.py:47-53 | once a prefix leaves capture off, the rest is scanned afresh and its blocks are appended in order |
| ReplayGain.PrefixUpTo | src/replaygain/main.py:45-53 | the state after a prefix does not depend on the lines that follow |
| ReplayGain.ConcatUpTo | src/replaygain/main.py:45-53 | past a prefix that leaves capture off, the state depends on the suffix alone |
| ReplayGain.Lookup | src/replaygain/main.py:61-62 | `get` on the decoded object: the value is present exactly when the key is, and is the value stored under it |
| ReplayGain.Measurement | src/replaygain/main.py:61-64 | a measurement is usable exactly when its key is present and its text is not a NaN spelling; a missing key counts as NaN |
| ReplayGain.CalculateReplayGain | src/replaygain/main.py:40-68 | the result is the analysis of the run, checked in the code's order: a non-zero return code fails with that code; empty captured text fails; an undecodable text fails; a NaN gain or peak fails; otherwise it returns the gain, the peak and the decoded object |
| ReplayGain.TagArgsLayout | src/replaygain/main.py:109-122 | the arguments read two at a time give back the tags: `-metadata` at every even index, `key=value` after it, twice as many arguments as tags |
| ReplayGain.BuildMetadataArgs | src/replaygain/main.py:109-122 | the list grown with `extend` equals the tag arguments of track gain (with ` dB`), peak, the R128 gains when given, then every analysis field in order |
| ReplayGain.ExtendWithFields | src/replaygain/main.py:120-122 | the loop over the analysis fields appends one `-metadata key=value` pair per field, in the object's order |
| ReplayGain.TagArgsConcat | src/replaygain/main.py:109-122 | the arguments of two runs of tags are the two argument lists joined |
| ReplayGain.RemuxCommand | src/replaygain/main.py:124-136 | the command starts with the fixed stream-copy prefix, ends with `-f <format> -`, carries the ID3 options only for mp3 (any case), and the metadata arguments lie between, unchanged |
| ReplayGain.EveryTagReachesCommand | src/replaygain/main.py:109-136 | every tag appears in the remux command as a `-metadata` followed by its `key=value` |
| ReplayGain.RemuxCopiesStreams | src/replaygain/main.py:128-133 | the remux copies every stream (`-c copy`) and keeps the input's metadata (`-map_metadata 0`) |
| ReplayGain.R128TrackGain | src/replaygain/main.py:160 | without an R128 field, the derived gain for a finite gain and an overflow failure for an infinite one; with the field, its integer value, or a failure when `int()` would raise |
| ReplayGain.R128TrackGainKeepsField | src/replaygain/main.py:160 | an R128 field written as a decimal integer is taken over unchanged |
| ReplayGain.ProcessReplayGain | src/replaygain/main.py:157-168 | the result is fixed by the inputs. A failed analysis fails with the same error; a non-zero return code fails with that code. An unreadable R128 field fails with its text, and an infinite gain with no R128 field fails with an overflow. Otherwise the result is the remux command for the analysis' gain and peak, the R128 track gain, album gain 0 and every analysis field. |
| ReplayGain.ProcessSucceedsExactly | src/replaygain/main.py:157-168 | processing succeeds exactly when the analysis succeeds and its R128 track gain can be computed (a readable R128 field, or none and a finite gain); a failed analysis passes its error on |
| ReplayGain.ProcessTagsGoodRun | src/replaygain/main.py:157-168 | a clean run with a readable, finite gain and peak and no R128 field gives the remux command tagged with that gain, that peak, the derived track gain, album gain 0 and the decoded fields |
| ReplayGain.ProcessRejectsInfiniteGain | src/replaygain/main.py:60-160 | a successful analysis with an infinite gain and no R128 field makes processing fail with an overflow |
| ReplayGain.SilenceOverflows | src/replaygain/main.py:60-160 | a `-inf` gain and peak pass the NaN check, and the track gain derived from them overflows |
| ReplayGain.ProcessRejectsBadR128 | src/replaygain/main.py:160 | an R128 field that `int()` cannot read fails with that field's text |
| ReplayGain.ProcessKeepsEveryField | src/replaygain/main.py:120-122 | every field of the analysis appears in the remux command as `-metadata key=value` |
| ReplayGain.MetadataKeys | src/replaygain/main.py:205-209 | mp3 and flac (any case) look for the ReplayGain track keys, opus for the R128 keys, every other format for none |
| ReplayGain.AnyKeyPresent | src/replaygain/main.py:197-203 | the loop reports true exactly when some key is among the tags |
| ReplayGain.HasReplayGainMetadata | src/replaygain/main.py:185-211 | true exactly when the tag reader succeeded and one of the format's keys is present; never for an unlisted format |
| LlmFiles.RemoveMarkdownCodeBlocks | llm.py:917-936 | the result is exactly the lines whose stripped form does not start with three backticks, in order and unchanged; the toggle plays no part |
| LlmFiles.FencedBodyKept | llm.py:927-936 | a fenced code block loses its two fence lines and keeps its code lines |
| LlmFiles.StartLine | llm.py:953-955 | a canonical start line for a name is recognised as a start line |
| LlmFiles.BodyLength | llm.py:958-962 | a block body runs up to, not including, the first end line, or to the end of the reply |
| LlmFiles.UpdateFilesFromResponse | llm.py:939-971 | the nested loops return exactly the map the block scan specification builds from the reply's lines |
| LlmFiles.CollectBody | llm.py:958-962 | the inner loop collects the lines before the first end line and stops on it (or at the end) |
| LlmFiles.EndIsNotStart | llm.py:953-959 | an end line is never a start line |
| LlmFiles.StartIsNotEnd | llm.py:953-959 | a start line is never an end line |
| LlmFiles.BlockStep | llm.py:953-966 | a block stores its cleaned content under its name, replacing any earlier entry, and the scan resumes at its end line |
| LlmFiles.SkipStep | llm.py:967-968 | a line that is not a start line is skipped |
| LlmFiles.BodyLengthIs | llm.py:958-962 | the body length is the unique index of the first end line (or the length) |
| LlmFiles.FileNameRoundTrip | llm.py:955 | the name from a start line built for a trimmed name not ending in `>` is that name |
| LlmFiles.TrailingSpaceKeepsArrows | llm.py:955 | because `rstrip(">>")` runs before `strip()`, a start line ending `>> ` names the file `a.py>>` |
| LlmFiles.ProseIgnored | llm.py:950-969 | lines outside blocks are ignored |
| LlmFiles.ClosedBlock | llm.py:953-966 | a closed block sets its name to its cleaned content and the rest of the reply is scanned on |
| LlmFiles.UnclosedBlock | llm.py:958-966 | a block never closed takes every line to the end |
| LlmFiles.NestedStartIsBody | llm.py:958-962 | a start line inside an open block is body text |
| LlmFiles.LaterBlockWins | llm.py:966 | a later block with the same name overwrites the earlier one |
| LlmFiles.FencedContent | llm.py:963-965 | the stored content of a fenced block is its code lines joined by newlines and stripped |
| Conversation.Message.constructor | llm.py:479 | a new message holds just the role and the content |
| Conversation.MessageList.constructor | llm.py:442 | a conversation starts empty |
| Conversation.FormatMessages | llm.py:416-426 | one entry per message, in order, with the role and content only |
| Conversation.FormatMessagesSnoc | llm.py:426 | formatting distributes over appending a message |
| Conversation.FirstNonSystem | llm.py:344-346 | the index of the first non-system message: every earlier message is a system message, and none at all when all are |
| Conversation.FilterHead | llm.py:344-346 | the filtered list is non-empty exactly when there is a non-system message, and its head is the first one |
| Conversation.RewriteHasNoSystem | llm.py:344-360 | the retried messages hold no system message |
| Conversation.RewriteKeepsOthers | llm.py:344-360 | every non-system message other than the one the prompt is folded into is sent unchanged |
| Conversation.EarlierNonSystem | llm.py:344-346 | a non-system message that is not the first has one before it |
| Conversation.SystemPromptIsFirst | llm.py:348-351 | the prompt is the content of the first system message, or empty when there is none |
| Conversation.FoldedInPlaceThenFiltered | llm.py:353-356 | folding the prompt into the shared user message and then dropping system messages gives what the retry sends |
| Conversation.AllSystemFiltered | llm.py:344-346 | a conversation of system messages only filters to nothing |
| Conversation.FailedRetryFoldsTwice | llm.py:353-360 | the fold writes through to the stored user message even when the retry fails, so a second retry prefixes the prompt twice |
| Conversation.NonSystemMessages | llm.py:344-346 | the comprehension keeps only messages of the conversation |
| Conversation.NonSystemView | llm.py:344-346 | formatting the kept messages equals filtering the formatted conversation |
| Conversation.NonSystemDistinct | llm.py:344-346 | the kept message objects stay distinct |
| Conversation.SystemPromptOf | llm.py:348-351 | the prompt read from the objects is the prompt of the formatted conversation |
| Conversation.NonSystemHead | llm.py:344-353 | the head of the kept list is the object at the first non-system index |
| Conversation.OpenAIInteraction.constructor | llm.py:240 | no error has been recorded yet |
| Conversation.OpenAIInteraction.RetryWithoutSystemRole | llm.py:327-413 | the request carries the rewritten messages; on success the conversation becomes exactly those and the reply is returned; on failure the list is kept, its user message already folded, and the error is recorded |
| Conversation.FoldSystemPrompt | llm.py:344-360 | the new list formats to the rewrite of the old conversation, and the old objects now format to the fold in place |
| Conversation.FoldIntoFirstUser | llm.py:353-356 | writing the prompt into the first non-system message, a user message, makes the filtered list format to the rewrite and the original list to the fold in place |
| Conversation.ConversationManager.constructor | llm.py:441-442 | the manager starts with an empty conversation |
| Conversation.ConversationManager.AppendMessage | llm.py:471-479 | exactly one `{role, content}` message, new and with no other keys, is added at the end; the earlier messages are untouched |
| Skeleton.SkeletonizeMembers | llm.py:824-825 | an object keeps every key, in order |
| Skeleton.Keys | llm.py:824-825 | one key per member |
| Skeleton.KeysKept | llm.py:824-825 | skeletonizing an object keeps its key list |
| Skeleton.SkeletonizeIsSkeleton | llm.py:824-830 | the result is a skeleton: every scalar is a `<type>` placeholder string and every list has at most one element |
| Skeleton.MembersSkeletons | llm.py:824-825 | every member value of an object becomes a skeleton |
| Skeleton.SecondPassKeepsShape | llm.py:824-830 | skeletonizing a skeleton keeps its shape (same keys, same list lengths) |
| Skeleton.MembersKeepShape | llm.py:824-825 | the same for the members of an object |
| Skeleton.SkeletonizeTwiceKeepsShape | llm.py:824-830 | a second pass keeps the shape of the first |
| Skeleton.SecondPassRenamesPlaceholders | llm.py:830 | a second pass is not the identity: `<int>` becomes `<str>` |
| Skeleton.SkeletonizeShrinks | llm.py:824-830 | the skeleton is never larger than the data |
| Skeleton.MembersShrink | llm.py:824-825 | the same for the members of an object |
| Templating.Clock12IsClockFace | src/templating/handlers.py:37 | the 12-hour clock value lies in 1..12, agrees with the hour modulo 12, and is 12 exactly at hours 0 and 12 |
| Templating.CurrentHour12NeverEmpty | src/templating/handlers.py:35-41 | the 12-hour word is never the empty entry: it is one of `one` … `twelve` |
| Templating.MidnightOnlyAtZero | src/templating/handlers.py:24-32 | the 24-hour word is `midnight` exactly at hour 0 |
| Templating.HourWordsAgree | src/templating/handlers.py:24-41 | for hours 1..12 the two wordings agree |
| Templating.AfternoonHourWord | src/templating/handlers.py:24-41 | after noon the 12-hour word is the 24-hour word of the hour twelve earlier |
| Templating.PeriodsPartitionTheDay | src/templating/handlers.py:49-57 | morning is 5..11, afternoon 12..17, evening the rest; one of the three always holds |
| Templating.PeriodChangesAt | src/templating/handlers.py:49-57 | the period changes between consecutive hours exactly at 5, 12 and 18 |
| Templating.TopOfTheHour | src/templating/handlers.py:44-62 | top of the hour exactly when the minute is zero |
| Filenames.NatToStringLength | src/azuracast/main.py:89 | decimal texts of numbers below 10^k have at most k digits, the others more |
| Filenames.TwoDigitsShape | src/azuracast/main.py:90-94 | `strftime` two-digit fields are two decimal digits denoting the value |
| Filenames.YearTextShape | src/azuracast/main.py:89 | the `%Y` field of a four-digit year is four digits denoting the year |
| Filenames.DigitsHaveNoPercent | src/azuracast/main.py:89-94 | a substituted field contains no `%`, so it cannot form a later code |
| Filenames.NoPlaceholderUnchanged | src/azuracast/main.py:88-96 | a template without `%` is returned unchanged |
| Filenames.FormatWithoutTimeCodes | src/azuracast/main.py:88-96 | without any of the letters `Y m d H M S`, only `%EXT%` is replaced |
| Filenames.FormatTextThenExtension | src/azuracast/main.py:88-96 | plain text followed by `%EXT%` gives the text followed by the extension |
| Filenames.DefaultAzuraCastName | src/azuracast/main.py:29 | the default AzuraCast template gives `news.<ext>` |
| Filenames.FieldsHaveNoPercent | src/azuracast/main.py:89-94 | none of the six time fields contains `%` |
| Filenames.ThreeCodesInOrder | src/azuracast/main.py:89-94 | three adjacent codes (of the upload or the output kind) replaced in turn give their three values in place |
| Filenames.FillAllCodesInOrder | src/azuracast/main.py:89-95 | the full replace chain on a template with the date codes, the time codes and `%EXT%` puts each value in its place |
| Filenames.TemplateSplits | src/azuracast/main.py:89-95 | the parts after each run of codes hold none of the letters replaced before them |
| Filenames.FormatAllCodesInOrder | src/azuracast/main.py:88-96 | such a template is formatted with the year, month, day, hour, minute and second of one clock reading |
| Filenames.DefaultS3Name | src/s3/main.py:24 | the default S3 template gives `news_YYYYMMDD_HHMMSS.<ext>` |
| Filenames.DefaultOutputName | src/main.py:187 | the default output template gives `livenews.mp3` |
| Filenames.OutputKeepsUploadTokens | src/main.py:187-188 | the output file name only knows the `%X%` tokens: an upload-style `%Y` stays in the name |
| Filenames.ReplaceTokenAfter | src/main.py:188 | none of the `%X%` tokens occurs in `%Y_mp3` |
| Filenames.FillHourMinute | src/main.py:188 | the token chain on `%H%%M%` gives the hour field then the minute field |
| Filenames.HourMinuteName | src/main.py:188 | the hour comes from the fourth clock reading and the minute from the fifth |
| Filenames.OutputClockReadsDisagree | src/main.py:188 | readings 09:59:59 then 10:00:00 give `0900`, a time at which the name was made by neither reading |
| Filenames.TwoDigitsExamples | src/azuracast/main.py:92-94 | `strftime` pads single digits with a zero |
| Filenames.OutputFilenameOneReading | src/main.py:188 | with one clock reading the name is that reading's hour and minute |
| Filenames.FillOutputTokensKeepsTail | src/main.py:188 | the six token replacements pass a tail without `%` through unchanged |
| Filenames.OutputTemplateSplits | src/main.py:188 | the parts after each run of tokens hold none of the letters replaced before them |
| Filenames.FillAllTokensInOrder | src/main.py:188 | the token chain on a name with the date tokens, plain text, and the time tokens puts each value in its place |
| Filenames.OutputAllTokensInOrder | src/main.py:187-188 | with one clock reading, a template with every token in order and `%EXT%` at the end gives that reading's year, month, day, hour, minute and second in place and ends in `mp3` |
| AzuraCast.Backoffs | src/azuracast/main.py:58-69 | one pause per retried attempt, the k-th being the backoff after attempt k |
| AzuraCast.PerformRequest | src/azuracast/main.py:31-76 | the loop returns the outcome of the attempt the retry rule stops at, and sleeps the backoff of every attempt before it |
| AzuraCast.LastAttemptFromSpec | src/azuracast/main.py:58-76 | the stopping attempt is within the retry count, ends the loop, and every attempt before it failed with a retryable status |
| AzuraCast.LastAttemptSpec | src/azuracast/main.py:58-76 | the loop stops at the first success, the first unretryable failure, or the fifth attempt, and not before |
| AzuraCast.NoRetryOnOtherFailures | src/azuracast/main.py:62-72 | a failure that is not one of 500, 502, 503, 504 ends the request at once with no pause |
| AzuraCast.PersistentServerErrorExhaustsRetries | src/azuracast/main.py:58-73 | a server error on every attempt makes five attempts, pauses 300, 600, 1200 and 2400 ms, and reports that error |
| AzuraCast.ServerErrorNotRetriedAsWritten | src/azuracast/main.py:63-65 | as written, the status of an error reply is read through the falsy response object, so a persistent server error ends the request after one attempt, with no status and no wait |
| AzuraCast.BackoffDoubles | src/azuracast/main.py:68 | each pause is twice the one before |
| AzuraCast.GetPlaylistId | src/azuracast/main.py:117-131 | the loop returns the id of the first playlist with the name, or none |
| AzuraCast.FirstPlaylistIdSpec | src/azuracast/main.py:126-131 | no id exactly when no playlist has the name; otherwise the id of the first that has it |
| AzuraCast.UploadFile | src/azuracast/main.py:169-201 | unconfigured: nothing is sent and there is no id. Configured, branch by branch: a failed upload sends only the upload and gives no id. A reply without `id` gives `KeyError`. Without a playlist name the id is returned after the upload alone. A failed listing gives no id after the upload and the listing. With no match, or a match with id 0, the id is returned after those two. A failed emptying gives no id after the emptying. Otherwise all four requests are sent, and the id is returned unless the adding failed. The id goes through the integer check. |
| AzuraCast.UpdateTrackMetadata | src/azuracast/main.py:155-167 | unconfigured: nothing is sent; configured: exactly one metadata update, with the retried outcome |
| AzuraCast.UnsetStationIdSkips | src/azuracast/main.py:26 | without a station id the id is 0 and the client counts as unconfigured |
| AzuraCast.StationIdRoundTrip | src/azuracast/main.py:26-29 | a station id written as a decimal integer is read back as that integer; the default template is `news.%EXT%` |
| AzuraCast.UploadKeyPrefix | src/azuracast/main.py:184 | with a path the key is `<path>/<key>`, otherwise the key; the file key is always its suffix |
| S3.NormalisePathSpec | src/s3/main.py:23 | the path is the raw value with the runs of `/` at both ends removed: a slice with only `/` around it and no `/` at its ends |
| S3.NormalisePathIdempotent | src/s3/main.py:23 | normalising a normalised path changes nothing |
| S3.ObjectKeyShape | src/s3/main.py:66 | with a path the key is `<path>/<key>` with exactly one `/` at the join; without one it is the key |
| S3.UploadReportsPut | src/s3/main.py:53-76 | the object goes under the prefixed key. The result is `True` exactly when the service stored it and `False` exactly for a Boto or client error. Any other exception propagates unchanged. |
| S3.Defaults | src/s3/main.py:18-24 | region `us-east-1`, an empty path and the timestamped template by default |
| S3.FormatFilenameAlwaysRaises | src/s3/main.py:43 | as written, formatting raises `NameError` for every template |
| S3.IntendedDefaultName | src/s3/main.py:43-51 | the intended formatting gives the default name its timestamp |
| News.ParseRssFeed | src/main.py:32-43 | the loop returns exactly the items the feed specification builds |
| News.FailurePersists | src/main.py:35-41 | once an entry raises, the whole parse raises with that error |
| News.ItemsOf | src/main.py:39-41 | one item per kept entry |
| News.ParsedItemsSnoc | src/main.py:35-41 | one more entry appends its item unless a pattern matches its title |
| News.ParsedItemsAreKeptEntries | src/main.py:35-43 | when every entry has a title (or there are no patterns), the result is the items of exactly the entries no pattern matches, in order |
| News.ItemsOfSnoc | src/main.py:39-41 | items distribute over appending an entry |
| News.MissingTitleFails | src/main.py:36 | with patterns configured, an entry without a title makes the parse raise |
| News.ItemOfSpec | src/main.py:39 | an item has every configured key but the pattern key, each holding the entry's field or none when the entry lacks it |
| News.FeedConfigItemKeys | src/main.py:12-20 | items built from the feed configuration have exactly the keys TITLE, DESCRIPTION, CATEGORY |
| News.ItemTexts | src/main.py:71 | texts are produced exactly when every item has a title and a description key; then there is one text per item, its title, a newline and its description (`None` printed as `None`) |
| News.WhitespaceHasNoWords | src/main.py:77 | the separators add no words to the count |
| News.JoinedWords | src/main.py:71-77 | the word count of the joined news is the sum of the items' word counts |
| News.ItemTextWords | src/main.py:71-77 | the item texts count the words of every title and description |
| News.RequestAcceptedExactly | src/main.py:63-81 | a request is built exactly when there are items, every item has its keys, and prompt words plus news words are at most 4095; no items gives the empty-list error |
| News.AcceptedRequestMessages | src/main.py:83-91 | the system message is the instructions; the user message is the instructions, a blank line, the time line, the station and reader lines, a blank line and the news, and so starts with the instructions and ends with the news |
| News.FullPromptText | src/main.py:72-83 | the user message is the instructions, a blank line, `Current date and time is "<time>"`, a newline, `Station Name is "<station>"`, a newline, `News reader name is "<reader>"`, a blank line and the news |
| News.FullPromptEnds | src/main.py:83 | the user message starts with the instructions and a blank line and ends with the news |
| News.AcceptedRequestBudget | src/main.py:69-91 | the completion budget is 4095 less the prompt words, and is at least the news words |
| News.RejectedNeverCalls | src/main.py:63-81 | a rejected request fails before the API is called, whatever the API would do |
| News.AcceptedReturnsCompletion | src/main.py:85-94 | an accepted request returns the completion, or the API error with its message prefix |

## Left out

- The broadcast timeline mixing, sound effects, music bed and speech cache: none of their code is part of this model.
- External programs and libraries become inputs or are not modelled: ffmpeg, mutagen, the OpenAI client, `requests`, boto3, feedparser, Jinja2 and pytz.
- The URL and header assembly of the AzuraCast requests, the endpoint strings, and the base64 encoding of the uploaded file.
- HTTP replies are taken already decoded: the playlist listing as a sequence of name and id records, the upload reply as an optional `id` value.
- JSON decoding (`json.loads`) is a parameter. The model does not check which texts form a JSON object.
- Floating point: gains and peaks are kept as their decimal text. `float()` is modelled only in its NaN and infinity spellings.
- ReplayGain.ProcessReplayGain: `int((gain - 1.0) * 256)` of a finite gain is a parameter, because it is computed with IEEE floating point. Only its one failure, the `OverflowError` of an infinite gain, is modelled.
- The diagnostic output of ffmpeg is taken as text. `err.decode('utf-8')` (src/replaygain/main.py:40, 44) raising `UnicodeDecodeError` on bytes that are not UTF-8 is not modelled.
- AzuraCast.PerformRequest: the backoff is counted in whole milliseconds (300 · 2^attempt) instead of float seconds, with the sleep itself left to the caller.
- AzuraCast.PerformRequest: an exception without a response is a failure with no status. The loop reads the reply's status directly, as the retry was evidently meant to; see Findings.
- AzuraCast.UploadFile: a request error caught at the end of `upload_file` gives no id. The only failure result is the missing `id` key, which is not caught. The log messages are not modelled.
- The clock: file names take a date-time value as input. `strftime` is modelled for four-digit years only.
- Strings and Unicode:
  - `str.strip` and `str.split` are modelled for ASCII whitespace only;
  - `splitlines` is modelled for `\n` only;
  - `int()` is modelled without underscores, and strips only ASCII whitespace around the number.
- `re.search` on the ignore patterns is a predicate parameter; the patterns stay text.
- Skeleton.Placeholder: type names are modelled for the JSON scalar types only.
- Parts of `llm.py` left out because each is I/O, process control or interactive:
  - `OpenAIInteraction.send` and its dump mode;
  - `ConversationManager` loading, saving and `get_conversation`;
  - `build_file_tree` and `process_file_content`;
  - `get_ignored_paths` and `should_ignore`;
  - `skeletonize_json_yaml` parsing;
  - the prompt file writers;
  - `atomically_write_files`;
  - the git helpers;
  - the `input()` loops;
  - `main`.
- Other files and functions not in this model:
  - `current_day_name`, `get_template_environment` and `render_template`, whose results are produced by `strftime` and Jinja2;
  - `src/templating/__init__.py` and `src/logger.py`;
  - `generate_speech`, prompt file reading and the rest of `main` in `src/main.py`;
  - the boto3 client creation in the S3 client;
  - the time zone conversion in the template handlers' constructor.
- Logging is not modelled anywhere.
- A Python `dict` is modelled as a `map`, which has no insertion order. This covers the files parsed from a chat reply (`LlmFiles.UpdateFilesFromResponse`), the news items (`News.ItemOf`) and the environment. No caller modelled here depends on the order of these keys. The order of the analysis fields that reach the remux command is kept, as a sequence.

## Findings

| source | as written | input that shows it | evidently intended | confidence | as-written member | corrected member |
|---|---|---|---|---|---|---|
| src/s3/main.py:43 | `format_filename` calls `datetime.now()`, but the module's imports (lines 1-5) never bring in `datetime` | any template and extension: the first line raises `NameError` | the same `%Y %m %d %H %M %S %EXT%` replacement as the AzuraCast client, from one clock reading | high; not executed | S3.FormatFilenameAlwaysRaises | S3.IntendedDefaultName |
| src/main.py:188 | each of the six tokens reads the clock anew with `datetime.now()` | readings 09:59:59 for `%H%` and 10:00:00 for `%M%` give `0900` for the template `%H%%M%` | every field taken from one reading, giving `0959` or `1000` | medium; not executed | Filenames.OutputClockReadsDisagree | Filenames.OutputAllTokensInOrder |
| src/azuracast/main.py:64 | `e.response.status_code if e.response else None`: a `requests` response object is false when its status is 400 to 599 | every attempt answers 503: the status read is `None`, so the first failure is re-raised with no retry | read the status whenever there is a response (`e.response is not None`), so 500, 502, 503 and 504 are retried five times with backoff | high; not executed | AzuraCast.ServerErrorNotRetriedAsWritten | AzuraCast.PersistentServerErrorExhaustsRetries |
