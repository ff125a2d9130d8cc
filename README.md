# yt-getter in Dafny

A model of the decision logic of `yt-get`. This command-line tool downloads the audio and/or the video of YouTube links, playlists and batch files. The model covers:

- **Sanitizer** (`sanitize.dfy`): the file-name sanitiser. It removes the characters `< > : " / \ | ? *` and U+0000–U+001F, trims, and falls back to `youtube-download`.
- **Batch** (`batch.dfy`): the batch-file reader. It splits on newlines, trims each line, and drops blank lines and `#` comment lines. The existence check and the outcome of reading the file (its text, or the file system's error) are inputs.
- **Downloader** (`downloader.dfy`): the two download operations.
  - URL normalisation removes every `list` and `index` query parameter. It is modelled as a `SearchParams` object whose `Delete` method rewrites its parameter list.
  - The checks run in the tool's order: format or quality first, then the output directory, then the URL.
  - Also modelled: the audio format default and lower-casing, the ffmpeg format map, rendition selection, and output and temporary path composition.
  - The external steps (resolve, stream, encode, mux) each succeed or fail.
- **Pipeline** (`pipeline.dfy`): the command.
  - Input assembly: either the batch file, or the positional URLs trimmed and unquoted. The help text is shown when there is nothing to do.
  - Then the output-directory check, playlist expansion, and the per-item loop.
  - The loop applies the file-name policy, runs a display counter from 1, and runs audio before video. The first error ends the run.
  - The loop is an imperative method over nested `while` loops. It is proved equal to a reference definition, `Pipeline.Reference`: the planned invocations of the expanded items (`Pipeline.Planned` of `Pipeline.Expand`), cut at the first failing invocation.
- **Text** (`text.dfy`): the JavaScript string operations the tool relies on. These are `trim`, `toLowerCase`, `startsWith`, `includes`, `split` on one character and `join`, plus order-preserving subsequences.
- **Env** (`env.dfy`): the outside world as a record of deterministic functions. It covers the URL parser, the file system, the YouTube resolver and downloaders, ffmpeg, and the playlist resolver.

Where the code and its documentation differ, the model follows the code:

- An empty `--name`, `--format`, `--quality` or `--batch` counts as absent. JavaScript treats the empty string as false.
- A positional URL is trimmed before its quotes are removed, and is not trimmed again after. So `" a "` wrapped in quotes keeps its inner spaces.

## Model

| member | source | states |
|---|---|---|
| Sanitizer.StripIllegal | src/utils/sanitize.ts:2 | the global replace leaves no illegal character, keeps the other characters in order, and keeps each legal character as often as it occurred |
| Sanitizer.IsIllegal | src/utils/sanitize.ts:2 | the characters the replace removes: the nine reserved characters and U+0000–U+001F; the removal is stated by `Sanitizer.StripIllegal` and `Sanitizer.Sanitize` |
| Sanitizer.Sanitize | src/utils/sanitize.ts:1-3 | the result is never empty, has no illegal character and no whitespace at either end |
| Sanitizer.CleanNameIsTrimmed | src/utils/sanitize.ts:2 | a name with no illegal character and a non-empty trimmed form is only trimmed |
| Sanitizer.IllegalOrSpaceGivesFallback | src/utils/sanitize.ts:2 | a name made only of illegal characters and whitespace gives exactly `youtube-download` |
| Sanitizer.SanitizeIdempotent | src/utils/sanitize.ts:2 | sanitising a sanitised name changes nothing |
| Sanitizer.SanitizeIsSubsequence | src/utils/sanitize.ts:2 | unless the fallback is returned, the result is a subsequence of the input, in input order |
| Text.IsSpace | src/utils/batch.ts:14 | the ECMAScript WhiteSpace and LineTerminator characters, the set `trim` removes; `Text.Trim` and `Text.TrimUnique` state that exactly these are cut from the ends |
| Text.Trim | src/utils/batch.ts:14 | trim returns the middle part of the text, with no whitespace at either end and only whitespace cut off the ends |
| Text.TrimUnique | src/utils/batch.ts:14 | whitespace around a trimmed text is exactly what trim removes |
| Text.TrimIdempotent | src/index.ts:44 | trimming twice is trimming once |
| Text.Split | src/utils/batch.ts:13 | split always gives at least one piece and no piece holds the separator |
| Text.JoinSplit | src/utils/batch.ts:13 | joining the pieces of a split with the separator gives back the text |
| Text.SplitJoin | src/utils/batch.ts:13 | splitting a join of separator-free pieces gives back the pieces |
| Text.ContainsIff | src/index.ts:66 | `includes` holds exactly when the text occurs at some position |
| Text.StartsWith | src/utils/batch.ts:15 | `startsWith`: the text begins with the prefix; `Batch.LineKeptIff` states which lines the comment test drops, and `Text.ContainsIff` uses it for `includes` |
| Text.Contains | src/index.ts:66 | `includes`, as a search from the left; its meaning is stated by `Text.ContainsIff` |
| Text.ToLower | src/downloader.ts:31 | `toLowerCase`, the same length with every character case-mapped; used for the format at line 31, the quality at line 87 and the rendition label at line 114 |
| Text.Join | src/downloader.ts:35 | `join` with a separator; `Text.JoinSplit` and `Text.SplitJoin` state that it undoes `split`, and `Downloader.FormatErrorListsFormats` that a joined list names each element |
| Batch.TrimmedLines | src/utils/batch.ts:12-14 | one trimmed line per newline-separated piece, in order |
| Batch.IsEntry | src/utils/batch.ts:15 | the filter test: a non-empty line that does not start with `#`; `Batch.LineKeptIff` states which lines pass it |
| Batch.Entries | src/utils/batch.ts:15 | every kept line is non-empty and not a comment, the kept lines are in order, and every entry line is kept as often as it occurs |
| Batch.Urls | src/utils/batch.ts:12-15 | split, trim each piece, keep the entries; `Batch.UrlsAreTrimmedEntries`, `Batch.LineKeptIff` and `Batch.UrlsInFileOrder` state what the URLs are |
| Batch.ReadUrlsFromFile | src/utils/batch.ts:4-16 | a missing file is the not-found error with the path in its message, and no URLs; an unreadable file gives the file system's error; otherwise the file's URLs |
| Batch.UrlsAreTrimmedEntries | src/utils/batch.ts:14-15 | every URL is non-empty, does not start with `#`, and has no whitespace at either end |
| Batch.LineKeptIff | src/utils/batch.ts:13-15 | a line yields a URL exactly when its trimmed form is non-empty and does not start with `#` |
| Batch.UrlsInFileOrder | src/utils/batch.ts:12-15 | the URLs are an ordered subsequence of the trimmed lines, and never more than the pieces |
| Downloader.WithoutName | src/downloader.ts:19-20 | deleting a parameter name removes all parameters of that name and keeps the others in order, each as often as it occurs |
| Downloader.IsNavigationParam | src/downloader.ts:19-20 | the two parameter names the URL loses, `list` and `index`; `Downloader.StrippedUrl` states that no such parameter remains and every other one is kept |
| Downloader.WithoutNameSnoc | src/downloader.ts:19-20 | deleting from a list extended by one parameter extends the result by that parameter unless it has the deleted name |
| Downloader.WithoutNameAppend | src/downloader.ts:19-20 | deletion works piece by piece over a concatenated list |
| Downloader.SearchParams.Delete | src/downloader.ts:19-20 | the in-place deletion leaves the list `WithoutName` describes |
| Downloader.StrippedUrl | src/downloader.ts:16-25 | an unparsable URL is returned unchanged; otherwise no `list` or `index` parameter remains, the other parameters keep their order and their number of occurrences, and the rest of the URL is unchanged |
| Downloader.StripUrlParams | src/downloader.ts:16-25 | the parse-and-delete method yields `StrippedUrl` |
| Downloader.FormatErrorListsFormats | src/downloader.ts:34-36 | the unsupported-format message names every supported format |
| Downloader.QualityErrorListsQualities | src/downloader.ts:89-91 | the unsupported-quality message names every allowed quality |
| Downloader.FormatError | src/downloader.ts:33-36 | the unsupported-format message with the normalised format; `Downloader.FormatErrorListsFormats` states that it names every format, and `Downloader.DownloadAudio` that it is the first check |
| Downloader.QualityError | src/downloader.ts:89-91 | the unsupported-quality message with the normalised quality; `Downloader.QualityErrorListsQualities` states that it names every quality, and `Downloader.DownloadVideo` that it is the first check |
| Downloader.DirError | src/downloader.ts:49-51 | the missing-directory message with the directory as given, also used for the command's own check at src/index.ts lines 55-57; `Downloader.DownloadAudio`, `Downloader.DownloadVideo` and `Pipeline.Execute` state when it is raised |
| Downloader.AudioFormat | src/downloader.ts:31 | the format is the request in lower case, or `mp3` when none or an empty one is given |
| Downloader.FfmpegFormat | src/downloader.ts:39-47 | `aac` is written as `adts`, every other allowed format as itself |
| Downloader.FfmpegFormatInjective | src/downloader.ts:39-47 | different audio formats get different ffmpeg formats |
| Downloader.RequestedQuality | src/downloader.ts:87 | the quality is the request in lower case, and none when absent or empty |
| Downloader.BaseName | src/downloader.ts:56 | the sanitised custom filename when a non-empty one is given, else the sanitised title, for audio and (line 100) for video; `Downloader.DownloadAudio` and `Downloader.DownloadVideo` state that it names the outputs, `Downloader.AudioOutputName` that it is non-empty and separator-free, and the three `Pipeline` name lemmas which of the two is used |
| Downloader.DownloadAudio | src/downloader.ts:27-81 | an unsupported format fails first, then a missing directory, then a rejected URL; a resolver or encoder error is passed on as it is; once every check and step passes the download succeeds, and a success validated and resolved the stripped URL, used the normalised format and its ffmpeg format, and wrote `outputDir/base.format` |
| Downloader.AudioRejectsInvalidUrl | src/downloader.ts:53 | a URL the resolver rejects fails with `Invalid YouTube URL.` once format and directory pass |
| Downloader.AcceptedFormatNeverRejected | src/downloader.ts:30-57 | once the format is allowed, the only failures are the directory error, the URL error or an external failure |
| Downloader.AudioOutputName | src/downloader.ts:56-57 | the output sits in the output directory, named by a non-empty base without separators and the format's extension |
| Downloader.FindRendition | src/downloader.ts:110-115 | the search returns the first rendition with video, no audio and the requested label, or reports that none matches |
| Downloader.Matches | src/downloader.ts:111-114 | the `find` predicate: video, no audio, and a label equal to the request once lower-cased; `Downloader.FindRendition` states that the first rendition meeting it is found |
| Downloader.SelectRendition | src/downloader.ts:107-122 | without a quality the default is used silently; with a matching rendition the first match is used; otherwise the default is used with a warning |
| Downloader.DownloadVideo | src/downloader.ts:83-158 | an unsupported quality fails first, then a missing directory, then a rejected URL; the errors of the resolver, the default rendition choice, the video fetch, the audio fetch and the mux end the download in that order (a fetch error stands for any failure of that fetch, see Left out); once every check and step passes the download succeeds with the selected rendition and the three paths |
| Downloader.VideoRejectsInvalidUrl | src/downloader.ts:97 | a URL the resolver rejects fails with `Invalid YouTube URL.` once quality and directory pass |
| Downloader.AcceptedQualityNeverRejected | src/downloader.ts:86-122 | an absent or allowed quality never fails the download, even when no rendition matches it |
| Downloader.VideoPathsDistinct | src/downloader.ts:100-105 | the two temporary files and the output are three different paths |
| Downloader.TempNamesDistinct | src/downloader.ts:101-105 | the audio, video and output file names differ for every base name |
| Pipeline.StripQuotesOfQuoted | src/index.ts:44 | a URL wrapped in double quotes loses exactly those quotes |
| Pipeline.StripQuotesOfUnquoted | src/index.ts:44 | a URL that neither starts nor ends with a quote is unchanged |
| Pipeline.StripQuotesOfLeading | src/index.ts:44 | a URL that only starts with a double quote loses exactly that quote |
| Pipeline.StripQuotesOfTrailing | src/index.ts:44 | a URL that only ends with a double quote loses exactly that quote |
| Pipeline.StripQuotes | src/index.ts:44 | removal of a leading and a trailing double quote, each on its own; `Pipeline.StripQuotesOfQuoted`, `Pipeline.StripQuotesOfLeading`, `Pipeline.StripQuotesOfTrailing` and `Pipeline.StripQuotesOfUnquoted` state its effect in all four cases |
| Pipeline.CleanArg | src/index.ts:44 | a positional URL trimmed, then unquoted; `Pipeline.InputUrls` states that each positional URL becomes one cleaned input, in order |
| Pipeline.BatchGiven | src/index.ts:41 | a batch file is used when a non-empty path is given; `Pipeline.InputUrls` and `Pipeline.BatchIgnoresArgs` state its effect |
| Pipeline.InputUrls | src/index.ts:39-45 | with a batch file the inputs are the batch file's result; otherwise one cleaned URL per positional argument, in order |
| Pipeline.BatchIgnoresArgs | src/index.ts:41-45 | with a batch file the positional URLs make no difference |
| Pipeline.IsPlaylistIff | src/index.ts:66 | an input is a playlist exactly when `list=` occurs in it |
| Pipeline.IsPlaylist | src/index.ts:66 | the playlist test on a raw input; `Pipeline.IsPlaylistIff` states it |
| Pipeline.Items | src/index.ts:67 | one item per URL, in order, marked with where it came from |
| Pipeline.ExpandOne | src/index.ts:66-67 | one input becomes its playlist's items, that playlist's error, or itself as one item; `Pipeline.ExpandWithoutPlaylists` and `Pipeline.RunUrls` state its use |
| Pipeline.Expand | src/index.ts:65-67 | the items of all inputs, in order, up to the first playlist that cannot be resolved; `Pipeline.ExpandAppend` and `Pipeline.ExpandWithoutPlaylists` state its properties |
| Pipeline.ExpandAppend | src/index.ts:65-67 | expanding two input lists in turn is expanding their concatenation, stopping at the first unresolvable playlist |
| Pipeline.ExpandWithoutPlaylists | src/index.ts:65-67 | without playlists every input is one item, in input order |
| Pipeline.ItemOptions | src/index.ts:76-81 | the download options of one item; `Pipeline.PlannedOptions` states the custom-name policy and the unchanged directory, format and quality |
| Pipeline.Ops | src/index.ts:83-84 | audio when requested, then video when requested; `Pipeline.PlannedAt` and `Pipeline.ItemRun` state the order |
| Pipeline.ItemEvents | src/index.ts:74-84 | the invocations of one item with its display number; `Pipeline.PlannedAt` states their number, order and options |
| Pipeline.Planned | src/index.ts:63-87 | the invocations of all items, numbered on from the start index; `Pipeline.PlannedAppend`, `Pipeline.PlannedAt` and `Pipeline.PlannedOptions` state its shape |
| Pipeline.PlannedAppend | src/index.ts:73-87 | the invocations of two item lists are those of the first followed by those of the second, numbered on |
| Pipeline.PlannedAt | src/index.ts:63-86 | the k-th item gets display number k+1; its invocations are consecutive, audio before video, each with the item's own options |
| Pipeline.PlannedOptions | src/index.ts:76-81 | every invocation gets the output directory and the format and quality unchanged; it belongs to one of the items, and gets no custom name when that item is from a playlist or there are several inputs, and the custom name otherwise |
| Pipeline.UpToFailureIsCut | src/index.ts:65-93 | the run is the shortest prefix ending in the first failure: all earlier invocations succeeded, and the last failed with the reported error; without a failure it is everything |
| Pipeline.FirstFailureAppend | src/index.ts:65-93 | the first failure of a concatenation is in the first part when there is one there |
| Pipeline.UpToFailureAppend | src/index.ts:65-93 | the run of a concatenation stops inside the first part or runs it whole and goes on |
| Pipeline.FirstFailure | src/index.ts:83-92 | the error of the first failing invocation, which the catch reports; `Pipeline.UpToFailureIsCut` and `Pipeline.FirstFailureAppend` state its properties |
| Pipeline.UpToFailure | src/index.ts:83-92 | the invocations up to and including the first failing one; `Pipeline.UpToFailureIsCut` states that it is the shortest prefix ending in the first failure |
| Pipeline.Reference | src/index.ts:63-93 | the reference run: the planned invocations of the expanded inputs, numbered from 1, cut at the first failure, with the outcome of that failure, else of an unresolvable playlist; `Pipeline.UpToFailureIsCut`, `Pipeline.PlannedAt` and `Pipeline.PlannedOptions` state its properties, and `Pipeline.RunItems` that the loops produce it |
| Pipeline.ItemRun | src/index.ts:83-84 | for one item, video runs only when requested and audio did not fail, and the item's outcome is the first failure |
| Pipeline.RunItem | src/index.ts:76-84 | one item's invocations and outcome are those of the reference cut |
| Pipeline.RunUrls | src/index.ts:73-87 | running the items of one input extends the run by their invocations, or ends it at the reference cut |
| Pipeline.RunItems | src/index.ts:63-88 | the nested loops yield exactly the reference run: the planned invocations cut at the first failure, ending with that error, else with an unresolvable playlist's error, else success |
| Pipeline.Perform | src/index.ts:83-84 | one invocation as the real download: `Downloader.DownloadAudio` or `Downloader.DownloadVideo`, its error passed on; those two own contracts state what each does |
| Pipeline.Performer | src/index.ts:83-84 | the real downloads as the invoker `Pipeline.Execute` passes to `Pipeline.RunItems` |
| Pipeline.Execute | src/index.ts:37-94 | a batch read error aborts with no invocation; no URL or no operation shows the help; a missing output directory aborts with no invocation; otherwise the run is the reference run |
| Pipeline.SingleInputUsesCustomName | src/index.ts:78 | with one non-playlist input every invocation gets the custom name, and the audio file is named after the sanitised custom name |
| Pipeline.SeveralInputsUseTitles | src/index.ts:59-60 | with several inputs no invocation gets a custom name, and each audio file is named after its video's sanitised title |
| Pipeline.SinglePlaylistInputUsesTitles | src/index.ts:69-78 | with a single playlist input no invocation gets a custom name, and each audio file is named after its video's sanitised title |

## Left out

- The `ytdl`, `ffmpeg`, `ytpl` and file-system calls are fields of `Env.World`. They are deterministic functions of their arguments. Their internals are not modelled: stream resolution, encoding, muxing and playlist paging are not modelled.
- Progress bars, stream events, console output and warnings are not modelled. The only exception is the quality-not-available warning, which is the `warned` flag of `Downloader.Selection`, plus the help text as `Pipeline.Exit.Help`. The "--name is ignored" and "--format only applies to audio" warnings do not change any result. Process exit codes are left out too.
- Removing the temporary files after a mux is not modelled, because those deletions are best-effort and their errors are ignored.
- The 128 kbps audio bitrate is not modelled. It is a parameter of the external encoder.
- The output directory's default is not modelled: commander leaves `--output` unset and the tool then uses the process's working directory. `Pipeline.Options.outputDir` is the directory after that default has been applied, so the working directory is an input of the model.
- `path.resolve` of the output directory and the batch path, and `path.join` normalisation, are not modelled. Paths are kept as (directory, file name) pairs, and the directory is as given.
- The WHATWG URL parser's canonical `toString()` form is not modelled. A parsed URL is its query parameter list plus everything else as one opaque part.
- `commander` argument parsing is not modelled. The command starts from the parsed options and positional arguments (`Pipeline.Cli`).
- Asynchrony is not modelled. The tool awaits every step in turn, so the model runs the steps in order.
- The playlist wrapper in `src/utils/playlist.ts` is not part of this model. It is the `playlist` field of `Env.World`.
- Downloader.DownloadVideo: an error of the read stream of either fetch (a network failure, an HTTP error, or the resolve inside the audio fetch) has no error listener. The listeners sit on the file write stream that `.pipe` returns, so such an error ends the process outside the tool's catch. The model treats it as that fetch's failure, `Env.World.fetchVideo` or `fetchAudio` failing. The invocations made and the abort of the run are the same; the printed message is not modelled.
- Text.ToLower: maps ASCII letters only. JavaScript's full Unicode case mapping is not modelled. Format and quality names are ASCII.
- The pipeline methods take the download invoker as a parameter. `Pipeline.Execute` passes the real downloads (`Pipeline.Performer`). The item loop is proved for every invoker.
