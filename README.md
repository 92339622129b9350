# podcast — a Dafny model of the podcast generator plugin

This project models `podcast.py`, a chat-bot plugin that turns a web page into a
two-voice podcast. The user sends `/podcast <url>`. The plugin checks the URL
against a scheme test, a white list and a black list. It fetches the page through
a reader service and cuts the text to a size budget. It then asks a chat model
for a `Speaker: text` dialogue script and parses the reply into segments. Each
segment is spoken by a text-to-speech service, with the voice chosen from the
speaker's name, and the clip is written to a file that is recorded on the segment.
Finally the clips are concatenated between an intro and an outro, exported as one
file, and the segment files are deleted.

The model has eight modules:

- `PyStr`: the Python `str` operations the code relies on (`strip`, `split`, `in`,
  `startswith`, `replace`, `lower`, `s[:n]`), written out over `seq<char>`. `strip`,
  `split`, `in` and `s[:n]` are characterized by lemmas stated without their
  definitions (`StripUnique`, `JoinSplit`/`SplitJoin`, `ContainsWindow`, the
  ensures of `SliceTo`). `replace` is only described by properties (`ReplaceAbsent`,
  `ReplaceShrinks`, `ReplaceLeading`, `ReplaceSkips`), not characterized.
- `Retry`: the bounded retry shared by all three network calls.
- `Errors`: the exceptions that end a run, as values.
- `Files`: `os.path.join` and a `FileSystem` class whose `files` map is changed in
  place by writes and removals.
- `Script`: the `PodcastSegment` class, the prompt and the script parser.
- `Voices`: the voice choice.
- `Generator`: the `Podcast` class with `generate_podcast_texts`,
  `generate_podcast_audios`, `merge_podcast_audios` and `generate_podcast` as
  methods, together with the functions that specify them.
- `Plugin`: `_check_url`, the command parsing and the decision logic of
  `on_handle_context`.

Effects from outside the program are parameters:
- `chat(p)(k)` is what the k-th try of the chat call with prompt `p` gets back,
  and `fetch(u)(k)` what the k-th try of fetching the reader URL `u` gets back.
- `tts(i)(k)` is what the k-th try of the speech call for segment `i` gets back.
  The oracle is keyed by position. The request that call sends is returned beside
  the result (`GenerateAudios`, `GeneratePodcast`), so the audio of position `i` is
  tied to the text and voice of the i-th line of the script.
- `uuids(n)` is the text of the n-th `uuid4()` of a run.
- `moduleDir` is the directory of the module, where the intro and outro clips sit.

One behaviour of the chat call is modelled as the code has it. A chat reply whose
JSON lacks `choices[0].message.content` raises inside the `try`, so it is retried
like a transport error (podcast.py:200-205). This `MalformedReply` case belongs to
`openai_chat` alone. `parse_url` (podcast.py:101-103) and `openai_audio`
(podcast.py:233-235) read no JSON field. Their failures are transport and status
errors, and every one of them is retried the same way. The three calls share one
`NetError` type, so the reader and speech oracles could also yield
`MalformedReply`, but no contract depends on that kind.

## Model

| member | source | states |
|---|---|---|
| PyStr.Strip | podcast.py:251 | `strip()` never lengthens a string, and a non-empty result starts and ends with a non-space character |
| PyStr.StripUnique | podcast.py:251 | `strip()` returns exactly the part framed by whitespace on both sides that starts and ends with a non-space character |
| PyStr.StripIdempotent | podcast.py:120 | stripping an already stripped URL changes nothing |
| PyStr.StripLeading | podcast.py:255-256 | whitespace in front of a string with no whitespace at its edges is all that `strip()` removes |
| PyStr.IndexOf | podcast.py:254 | the found position lies in the string or just past it, and a position inside the string holds the separator |
| PyStr.IndexOfFound | podcast.py:253-254 | a line that contains `:` has its first colon at a position inside the line |
| PyStr.IndexOfFirst | podcast.py:254 | no character before the found position is the separator, so `split(':', 1)` cuts at the first colon |
| PyStr.IndexOfPast | podcast.py:254 | in `p + c + t` with no `c` in `p`, the first `c` is the one right after `p` |
| PyStr.Split | podcast.py:251 | `split(c)` always yields at least one piece |
| PyStr.JoinSplit | podcast.py:251 | joining the pieces of `split(c)` with `c` gives back the input, so splitting loses no character |
| PyStr.SplitJoin | podcast.py:251 | splitting a join of `c`-free pieces gives back exactly those pieces, in order |
| PyStr.Contains | podcast.py:269 | a contained string is never longer than the string holding it, and the empty string is in every string |
| PyStr.ContainsWindow | podcast.py:269 | `sub in s` holds exactly when some window of `s` equals `sub` |
| PyStr.ReplaceAbsent | podcast.py:69 | `replace` leaves a string without the pattern unchanged |
| PyStr.ReplaceShrinks | podcast.py:69 | deleting a pattern with `replace(pat, "")` never lengthens the string |
| PyStr.Lower | podcast.py:269 | `lower()` keeps the length |
| PyStr.LowerEach | podcast.py:269 | `lower()` maps each character on its own and keeps the length |
| PyStr.LowerChar | podcast.py:269 | one character of `lower()`: the result is never an upper-case ASCII letter, a character is kept iff it is not one, it is a lower-case letter iff the input is a letter of either case, and an upper-case letter moves to the same place in the lower-case alphabet |
| PyStr.SliceTo | podcast.py:82 | `s[:n]` is a prefix of `s`, all of it when `n` is at least the length, exactly `n` characters when `0 <= n <= len(s)`, and counted from the end when `n` is negative |
| Retry.RetryCall | podcast.py:200-209 | a call from the first try makes at least one try and at most `retry_count + 1`, and returns what its last try got |
| Retry.RetryFrom | podcast.py:200-209 | the call makes at least one try and at most `retry_count + 1` (a negative count acting as 0), returns what its last try got, every earlier try failed, and a failure means the whole budget was used |
| Retry.FirstSuccessWins | podcast.py:231-239 | a call returns exactly the value of the first try that succeeds within the budget, after that many tries |
| Retry.ExhaustedRaisesLast | podcast.py:96-108 | when every try within the budget fails, `budget + 1` tries are made and the last try's error propagates |
| Retry.RetryCallSummary | podcast.py:181-209 | a call succeeds iff some try within the budget succeeds; on failure it made `budget + 1` tries and raised the last error |
| Retry.TwoFailuresThenSuccess | podcast.py:181 | with the default count of 3, two failures and then a success return the third try's value after three tries |
| Retry.AlwaysFailingMakesFourTries | podcast.py:211 | with the default count of 3, a call that keeps failing makes four tries and raises the fourth error |
| Files.PathJoin | podcast.py:272 | a joined path ends with the file name |
| Files.PathJoinShape | podcast.py:272 | a joined path ends with the file name, and a relative name lands under the directory |
| Files.PathJoinApart | podcast.py:272 | different relative names in one directory give different paths |
| Files.FileSystem.Exists | podcast.py:293 | `os.path.exists` is true exactly for the paths that hold a file |
| Files.FileSystem.Read | podcast.py:294 | reading gives the file's contents, or `FileNotFoundError` for a missing path |
| Files.FileSystem.Write | podcast.py:273-274 | writing creates or overwrites exactly that one file |
| Files.FileSystem.Remove | podcast.py:304 | `os.remove` deletes exactly that file, or raises `FileNotFoundError` and changes nothing |
| Script.Segment.constructor | podcast.py:167-171 | a new segment has the given speaker and text and an empty `audio_path` |
| Script.Prompt | podcast.py:248 | the prompt is the `<input-text>` opening tag, the input verbatim, then the closing tag |
| Script.ParseLine | podcast.py:253-256 | the speaker and the text together are shorter than the line, because the colon is dropped, and neither has whitespace at its edges |
| Script.ParseLineFirstColon | podcast.py:254-256 | a line is cut at its first colon; the speaker is the stripped part before it, and the text is the stripped rest, later colons included |
| Script.ParseLines | podcast.py:252-257 | the loop yields at most one utterance per line, and none at all when no line has a colon |
| Script.ParseReply | podcast.py:250-258 | a reply that is blank once stripped gives no utterances |
| Script.ParseLinesAppend | podcast.py:252-257 | parsing respects concatenation of line lists, so utterances come out in line order |
| Script.ParseLinesSnoc | podcast.py:252-257 | one more line adds its utterance at the end exactly when it contains a colon |
| Script.ColonLines | podcast.py:253 | there is at most one listed position per line |
| Script.ColonLinesSpec | podcast.py:253 | the listed positions are exactly the lines with a colon, in increasing order |
| Script.ParseLinesSpec | podcast.py:250-258 | there is exactly one utterance per line with a colon, the j-th being the parse of the j-th such line; colon-free lines yield nothing and raise nothing |
| Script.ParseRendered | podcast.py:253-257 | a well-formed `Speaker: text` line parses back to that speaker and text |
| Script.ParseLinesRendered | podcast.py:252-257 | a list of well-formed rendered lines parses back to its utterances |
| Script.RenderedReplyStripped | podcast.py:251 | the outer `strip()` leaves a reply made of rendered lines unchanged |
| Script.EmptyReply | podcast.py:251-258 | an empty reply gives no segments |
| Script.ParseReplyRoundTrip | podcast.py:249-258 | a reply of well-formed lines joined by newlines parses to exactly those utterances, in order |
| Voices.WindowIsBob | podcast.py:269 | a window of the lower-cased speaker reads `bob` exactly when that window spells it in any letter case |
| Voices.VoiceFor | podcast.py:269 | every speaker gets one of the two voices, `onyx` or `nova` |
| Voices.NamesBob | podcast.py:269 | a speaker that names `bob` has at least three characters |
| Voices.VoiceForSpec | podcast.py:269 | the voice is `onyx` iff the speaker spells `bob` somewhere in any letter case, and `nova` otherwise |
| Voices.HostVoices | podcast.py:269 | speaker `Bob` gets `onyx` and speaker `Alice` gets `nova` |
| Generator.PathsJoined | podcast.py:272 | the segment, merged, intro and outro paths are `os.path.join` of their directory and file name |
| Generator.SegmentPathsApart | podcast.py:272 | segment files whose uuids differ in the first 18 characters have different paths |
| Generator.MergedPathNotSegment | podcast.py:299 | with uuid-shaped names the merged file is never a segment file, so the cleanup cannot delete the output |
| Generator.SpeechRequests | podcast.py:268-271 | there is one speech request per segment |
| Generator.ScriptRequests | podcast.py:268-271 | a script calls for one speech request per utterance |
| Generator.RequestsOfScript | podcast.py:268-271 | segments that carry a script's lines send, for any prefix, exactly the requests of that prefix of the script |
| Generator.Speech | podcast.py:211-239 | the speech call for a segment makes between one and four tries and returns what its last try got |
| Generator.ChatCall | podcast.py:181-209 | the chat call for an input makes between one and four tries with the prompt of that input and returns what its last try got |
| Generator.SpeechRequestsSpec | podcast.py:268-271 | one speech request per segment, in order, each with that segment's text and the voice its speaker calls for |
| Generator.Spoken | podcast.py:268-276 | the count of segments spoken before the first call that fails for good: every earlier call succeeded, and the call at the count failed unless all were spoken |
| Generator.SpokenIs | podcast.py:268-276 | no other count fits that description |
| Generator.DescribesSnoc | podcast.py:257 | appending a new segment for an utterance extends the description of the list by that utterance |
| Generator.DistinctSnoc | podcast.py:257 | appending an object not yet listed keeps the segment objects distinct |
| Generator.LastAmongStep | podcast.py:275 | a position stays the last of its object when a later, different object is appended |
| Generator.DistinctLast | podcast.py:275 | in a list of distinct objects every position is the last of its object |
| Generator.PathsRecorded | podcast.py:275 | distinct segments that each got their position's path list exactly the segment paths |
| Generator.Written | podcast.py:268-275 | writing the clips never removes a file that was there |
| Generator.WrittenStep | podcast.py:273-275 | a spoken segment adds its clip at its path, among the written files and at the end of the clips |
| Generator.WrittenElsewhere | podcast.py:273-274 | writing the clips changes no file other than the segment files |
| Generator.Assembled | podcast.py:292-295 | with no files at all the concatenation is empty |
| Generator.AssembledFrame | podcast.py:292-295 | a file that is not at a listed path does not affect the concatenation |
| Generator.AssembledAppend | podcast.py:292-295 | the concatenation respects list order: the clips of a first list come before those of a second |
| Generator.AssembledLast | podcast.py:292-295 | a path put last adds its clip at the end, or nothing when it has no file |
| Generator.AssembledSnoc | podcast.py:292-295 | going one segment further adds that segment's clip at the end, if its file exists |
| Generator.SkipsMissing | podcast.py:293 | a segment without a file is skipped and the others keep their order (three segments, the middle one missing) |
| Generator.AssembledWritten | podcast.py:292-295 | once every clip is at its own path, concatenating those paths gives the clips back to back in segment order |
| Generator.SegmentPathsAvoid | podcast.py:272 | a path that is no segment's path is not among the segment paths |
| Generator.SegmentPathsListed | podcast.py:272 | each segment's path is among the segment paths |
| Generator.MergedAsWritten | podcast.py:278-305 | the merge as written returns only the path named by its uuid, and every error it raises is `FileNotFoundError` |
| Generator.MergedAsWrittenSpec | podcast.py:286-305 | when the merge as written returns, intro and outro existed, no segment file is left, (unless a segment path is the output path) the output holds intro, the clips of the existing segment files in order, then outro, and every other file is as it was |
| Generator.RemoveEach | podcast.py:303-304 | when the deletion loop fails, the path it names is one of the listed paths and has no file |
| Generator.RemoveEachClears | podcast.py:303-304 | a deletion loop that meets no missing file has removed every listed path |
| Generator.RemoveEachKeeps | podcast.py:303-304 | a file at a path the deletion loop does not list survives unchanged |
| Generator.Merged | podcast.py:278-305 | the corrected merge returns iff intro and outro exist, and then returns the path named by its uuid; otherwise it raises `FileNotFoundError` and changes no file |
| Generator.MergedSpec | podcast.py:278-305 | with intro and outro present the corrected merge returns the new path; that file holds intro, then the clips of the existing segment files in order, then outro; no segment file survives; every other file is untouched |
| Generator.RemoveEachMissing | podcast.py:303-304 | the deletion loop as written fails when a listed path has no file |
| Generator.RemoveEachStops | podcast.py:303-304 | after the first failed removal the later paths are not tried |
| Generator.RemoveEachShrinks | podcast.py:303-304 | removal only ever takes files away |
| Generator.RemoveEachPresent | podcast.py:303-304 | removing distinct existing paths one by one succeeds and leaves the files minus those paths |
| Generator.MissingSegmentFailsAsWritten | podcast.py:293-304 | as written, a segment whose file is missing makes the merge raise after the export, while the corrected merge returns the path |
| Generator.MergeVersionsAgree | podcast.py:293-304 | when every segment file exists, the paths are distinct and none is the output, the merge as written and the corrected merge agree on result and files |
| Generator.WrittenHolds | podcast.py:268-275 | after the first `n` speech calls succeed, each of those segments' paths holds a file |
| Generator.WrittenMergesAgree | podcast.py:293-304 | after every segment is spoken to its own path, none being the output, the merge as written and the corrected merge agree on result and files |
| Generator.MergeOfWritten | podcast.py:314-317 | after every segment is spoken, the merge as written returns the new path, whose file holds intro, every clip in script order, then outro, no segment file is left, and every other file is as it was |
| Generator.SpeakThenMerge | podcast.py:315-316 | after the script is read: the podcast path is returned only when every segment was spoken, and otherwise the error of the first speech call that failed for good |
| Generator.Pipeline | podcast.py:307-317 | `generate_podcast` as written returns a podcast only when the chat call and every speech call succeeded, and the podcast is the path named by the uuid drawn after the segments' uuids |
| Generator.PipelineOutput | podcast.py:307-317 | end to end, with the merge as written: when the chat call and every speech call succeed, the podcast is the new file with intro, every clip in script order, then outro, no segment file is left, and every other file is as it was |
| Generator.Podcast.constructor | podcast.py:174-179 | the generator keeps its API base, key, models and audio directory |
| Generator.Podcast.GenerateTexts | podcast.py:241-258 | the chat request carries the prompt; a chat failure after the retries is raised; otherwise the result is fresh, distinct segments describing the parsed reply line by line |
| Generator.Podcast.AddSegment | podcast.py:252-257 | one loop turn: a line with a colon appends one fresh segment for its parse, and a line without one appends nothing |
| Generator.Podcast.NewSegments | podcast.py:250-258 | the loop's segments describe the parse of the lines, in order, and are fresh and distinct |
| Generator.Podcast.GenerateAudios | podcast.py:261-276 | the segments are spoken in order; the first call that fails for good is raised after the earlier clips are written; the requests sent are those of the tried segments; the files are the written clips; every spoken segment records its own fresh path (for a repeated object, the path of its last position); a segment object not reached before the failure keeps its old `audio_path` |
| Generator.Podcast.SpeakOne | podcast.py:268-275 | one loop turn: the request has the segment's text and voice; on failure nothing changes; on success the clip is written at the segment's fresh path and the path is recorded |
| Generator.Podcast.SaveClip | podcast.py:273-275 | a successful speech call writes its clip at the segment's fresh path, records that path on the segment, and leaves unreached segments as they were |
| Generator.Podcast.Concatenate | podcast.py:286-296 | a missing intro or outro raises `FileNotFoundError`; otherwise the result is intro, the clips of the existing segment files in order, then outro |
| Generator.Podcast.AppendClips | podcast.py:292-295 | the loop appends the clip of every segment whose file exists, in segment order |
| Generator.Podcast.MergeAsWritten | podcast.py:278-305 | the merge as written: its result and the new files are those of `MergedAsWritten` |
| Generator.Podcast.RemoveAll | podcast.py:303-304 | the deletion loop as written removes the segment files in order and stops with `FileNotFoundError` at the first missing one |
| Generator.Podcast.Merge | podcast.py:278-305 | the corrected merge: its result and the new files are those of `Merged` |
| Generator.Podcast.RemoveExisting | podcast.py:303-304 | the corrected deletion loop leaves the files minus every segment path |
| Generator.Podcast.GeneratePodcast | podcast.py:307-317 | the result and the files are those of the pipeline as written: the chat error, or the first speech error with the clips written so far, or the merge with its unguarded cleanup; the speech requests sent are none after a chat failure, and otherwise one per parsed line of the reply, in order, with its text and its speaker's voice, up to and including the call that failed |
| Generator.Podcast.AudiosThenMerge | podcast.py:315-316 | for distinct segments carrying a script: the first speech error is raised with the clips written so far, or else the result and files are those of the merge as written over all written clips; the requests sent are the script's, up to and including the call that failed |
| Plugin.AnyPrefixSpec | podcast.py:127 | `any(url.startswith(w) for w in list)` holds iff some entry is a prefix |
| Plugin.CheckUrl | podcast.py:119-135 | a URL is admitted iff, once stripped, it starts with `http://` or `https://`, starts with a white-list entry when the list is non-empty, and starts with no black-list entry |
| Plugin.BlackListWins | podcast.py:130-133 | a URL under a black-list prefix is refused even if it is also white-listed |
| Plugin.WhiteListBinds | podcast.py:126-128 | a non-empty white list refuses every URL under none of its entries |
| Plugin.CheckUrlIgnoresPadding | podcast.py:120 | surrounding whitespace never changes the verdict |
| Plugin.DefaultBarsChannels | podcast.py:35-38 | with the class defaults, every URL under one of the two black-listed channel prefixes is refused |
| Plugin.UrlOfCommand | podcast.py:67-69 | the URL of `/podcast` followed by anything is that rest, stripped |
| Plugin.UrlOf | podcast.py:67-69 | the corrected URL is no longer than the message after the command, and has no whitespace at its ends |
| Plugin.UrlOfAsWritten | podcast.py:69 | the URL as written is never longer than the message, and at least the command's length shorter when the message starts with it |
| Plugin.DeletionShortens | podcast.py:69 | deleting every `/podcast` never lengthens the message and removes at least the leading one |
| Plugin.ReplaceLeading | podcast.py:69 | deleting a pattern at the front leaves the deletion of the rest |
| Plugin.ReplaceSkips | podcast.py:69 | deleting a pattern passes unchanged over a stretch where it cannot start |
| Plugin.DeleteAround | podcast.py:69 | the pattern, a stretch where it cannot start, the pattern again and a short end reduce to the stretch and the end |
| Plugin.SchemeCannotStart | podcast.py:69 | no `/podcast` starts inside ` http://` when the host does not start with `p` |
| Plugin.UrlHeadCannotStart | podcast.py:69 | no `/podcast` starts inside ` http://` and a host without `/` that does not start with `p` |
| Plugin.DeletesInPath | podcast.py:69 | deleting `/podcast` from `/podcast http://<host>/podcast<end>` leaves ` http://<host><end>` |
| Plugin.MangledUrl | podcast.py:69 | as written, `/podcast http://<host>/podcast/1` gives the URL `http://<host>/1` |
| Plugin.IntendedUrl | podcast.py:67-69 | `/podcast`, a space and a URL with no whitespace at its edges names that URL |
| Plugin.AsWrittenAgrees | podcast.py:69 | while the rest of the message holds no `/podcast`, the URL as written is the intended one |
| Plugin.AsWrittenMangles | podcast.py:69 | as written, a URL with `/podcast` in its path loses that part, so the URL differs from the one the command names |
| Plugin.ReaderUrl | podcast.py:99 | the reader URL is exactly the reader base, then `/`, then the target URL unchanged; it is the key under which the page is fetched |
| Plugin.Page | podcast.py:96-108 | fetching a page makes between one and four tries of the reader URL and returns what its last try got |
| Plugin.Excerpt | podcast.py:82 | the text handed to the generator is a prefix of the page text, at most `max_words` characters long when the budget is not negative |
| Plugin.Respond | podcast.py:70-91 | a command is always answered, and no file changes and no podcast is sent unless the URL is admitted |
| Plugin.HandleContext | podcast.py:61-91 | `on_handle_context` as written: no reply exactly when the message is neither text nor sharing or does not start with `/podcast`, and then no file changes; a file change or a podcast reply happens only for an admitted URL as line 69 extracts it |
| Plugin.HandleIntended | podcast.py:61-68 | the handler with the corrected extraction passes over exactly the same messages |
| Plugin.HandlersAgree | podcast.py:67-70 | for a message whose rest holds no further `/podcast`, the handler as written and the corrected one give the same reply and files |
| Plugin.RefusedUrl | podcast.py:70-74 | as written, a command with no further `/podcast` whose URL is refused is answered with an error naming it, before anything is fetched or written |
| Plugin.FetchFails | podcast.py:81-90 | as written, a page that cannot be fetched in four tries is answered with the apology, and no file changes |
| Plugin.RunsPipeline | podcast.py:81-85 | as written, once the URL is admitted and the page fetched, the reply is the podcast path on success and the apology on error, with the pipeline's files either way |
| Plugin.Delivers | podcast.py:61-87 | end to end, as written: an admitted URL whose page, script and speech calls succeed is answered with the path of a new file holding intro, every clip in script order, then outro, no segment file is left, and every other file is as it was |

## Left out

- HTTP requests, headers, status checks, timeouts and JSON field extraction: each call is an oracle of per-try outcomes, and its request is recorded as a value (`ChatRequest`, `SpeechRequest`, `ReaderUrl`).
- `html.unescape` on the URL before fetching (podcast.py:98): HTML entity decoding is not modelled, so the reader URL uses the URL as given.
- pydub decoding, concatenation and MP3 export: a clip is an opaque byte sequence, and concatenation is sequence concatenation.
- Failures of `open(...).write` and of the export: writes always succeed in the model.
- `os.path.abspath(__file__)` and `os.path.dirname` (podcast.py:287): the module directory is a parameter.
- `uuid.uuid4()`: the uuids of a run are an oracle. Their being distinct is a precondition of the end-to-end lemmas, not a fact the model derives.
- `str.lower()` beyond ASCII: only `A`-`Z` are lowered, and other characters are left as they are.
- The prose of the prompt template (podcast.py:137-161): only the `<input-text>` tags around the input are modelled.
- Logging, `print`, and the progress message sent on the channel (podcast.py:76-79): they produce no state the model needs.
- Plugin registration, `__init__` config loading and `_load_config_template` (podcast.py:19-59, 109-118): the settings are a `Config` value, and `DefaultConfig` holds the class defaults.
- `get_help_text` (podcast.py:93-94): fixed text.
- `Reply` objects and `EventAction`: a reply is an `ErrorReply` or a `FileReply`, and the event action is not modelled.
- Exceptions other than network errors and `FileNotFoundError` inside the handler: they are possible only in the left-out parts.
- Script.Segment: `speaker` and `text` are constant fields, because nothing reassigns them after construction.
- Generator.Podcast.AudiosThenMerge: requires distinct segment objects, which `generate_podcast` guarantees because the segments come fresh from `generate_podcast_texts`. `GenerateAudios` itself handles repeated objects.
- `Generator.Podcast.GeneratePodcast`, `Plugin.HandleContext` and the lemmas about them follow the code as written: they use the unguarded cleanup and the URL extraction of line 69. The corrected versions (`Merged`, `Generator.Podcast.Merge`, `UrlOf`, `HandleIntended`) sit beside them, and `WrittenMergesAgree` and `HandlersAgree` say where the two coincide.
- Plugin.RefusedUrl, Plugin.FetchFails, Plugin.RunsPipeline, Plugin.Delivers: stated only for messages whose rest holds no further `/podcast`. `Plugin.AsWrittenMangles` and `Plugin.MangledUrl` describe the other messages.
- Plugin.Excerpt: `text[:max_words]` cuts characters, not words. The model keeps the code's meaning.

## Findings

The handler and the pipeline are modelled as written. Each corrected definition is proved beside them, and a lemma names the inputs on which the two agree (`WrittenMergesAgree`, `HandlersAgree`).

| source | as written | input that shows it | evidently intended | confidence | as-written member | corrected member |
|---|---|---|---|---|---|---|
| podcast.py:303-304 | every segment's `audio_path` is passed to `os.remove`, although line 293 expects some files to be missing | a segment whose clip file is missing when the merge runs: the concatenation skips it, the podcast is exported, then `os.remove` raises `FileNotFoundError`, and no path is returned | remove only the segment files that exist, so a finished export is returned | medium, not executed | Generator.MissingSegmentFailsAsWritten | Generator.MergedSpec |
| podcast.py:69 | `content.replace("/podcast", "")` deletes every occurrence of the command word, including those inside the URL | `/podcast http://x/podcast/1` yields the URL `http://x/1` | drop only the leading command word, then strip | high, not executed | Plugin.AsWrittenMangles | Plugin.IntendedUrl |
