# YouTube transcript downloader: a verified model

This project models how the two `YouTubeTranscriptDownloader` classes of the
repository get a transcript for a YouTube video. One is the command-line tool
`youtube_transcript.py`. The other is the downloader inside the Flask server
`monolito/youtube_transcript_downloader.py`. The model also covers the server's
request handlers that filter URLs, loop over them and count the results, and
the handler that builds the transcript archive.

Both downloaders work the same way:

- extract the 11-character video id from the URL with two regular
  expressions;
- ask the caption service (`youtube_transcript_api`) first: preferred
  languages, then every listed transcript, and on the command line also
  translations;
- fall back to the `yt-dlp` program, which writes subtitle files into an
  output directory;
- parse the first VTT or SRT file found there into plain text.

The command-line tool saves `transcricao_<id>.txt` and reports a line per URL.
The server returns a record per URL and deletes the subtitle file it parsed.

Everything outside the Python code is given as data, in `Externals.World`:

- what the caption service answers;
- what `yt-dlp --dump-json` prints;
- which files a `yt-dlp` run writes, or whether it raised;
- whether a transcript file can be written.

Each call is taken to answer the same way every time it is made. The output
directory is a value, `Staging.Dir`: a map from file names to contents plus
the order in which a glob lists them. Pure helpers such as the id extraction,
file-name cleaning, subtitle parsing and entry joining are identical in both
files. They are modelled once, with the command-line file cited. The server's
copies are `monolito/youtube_transcript_downloader.py:32-54` and `:115-215`.

Each downloader is a `class Downloader` whose field `dir` is the output
directory. Its methods mirror the Python methods: loops become `while` loops,
and the `glob`/`unlink` sequence updates `dir`. Each method is proved equal to
a specification function (`Cli.Single`, `Monolith.Single`, `Routes.Batch`, …).
The properties are then proved about those functions as lemmas.

Four behaviours of the code are easy to get wrong, and the model states each:

- Caption normalisation is not idempotent. `<b>12</b>` normalises to `12`,
  and `12` normalises to the empty text, because number lines are dropped
  (`Subtitles.ParseNotIdempotent`, `Subtitles.TaggedNumberNotIdempotent`).
- The command-line tool never deletes a file (`Cli.DownloadsKeeps`). The
  server deletes only the one subtitle file it parsed, not the other files
  yt-dlp wrote (`Monolith.DownloadsRemovesOne`, `Monolith.EndsWith`).
- In both files an exception from a yt-dlp run, including a timeout, ends
  the fallback with no transcript (`Cli.RaisedRunStops`,
  `Monolith.RaisedRunStops`). Only a non-zero exit code, or a run after which
  no subtitle file is found, moves on to the next language (`Cli.MovesOn`,
  `Monolith.MovesOn`).
- The language loop stops at the first subtitle file it finds and returns
  what that file parses to, even when the parse is empty; it does not go on
  looking for a non-empty one (`Cli.EndsWith`, `Monolith.EndsWith`,
  `Cli.DownloadsWalked`, `Monolith.DownloadsWalked`).

## Model

| member | source | states |
|---|---|---|
| VideoId.ExtractVideoId | youtube_transcript.py:20-35 | no id exactly when the URL is empty or neither pattern matches anywhere; an id is 11 characters from `[a-zA-Z0-9_-]`, taken where the leftmost match of the first pattern, else of the second, puts it |
| VideoId.Locate | youtube_transcript.py:25-33 | the match position is the leftmost one of the first pattern, or, when the first pattern matches nowhere, the leftmost one of the second; none exactly when neither matches |
| VideoId.SearchLink | youtube_transcript.py:26 | finds the leftmost position where one of the three link prefixes is followed by an id, and none exists before it |
| VideoId.SearchParam | youtube_transcript.py:27 | finds the leftmost `youtube.com/` followed on the same line by a last `?v=` or `&v=` with an id after it |
| VideoId.LastParam | youtube_transcript.py:27 | the greedy `.*` picks the last `[?&]v=` before the end of the line |
| VideoId.LeftmostLink | youtube_transcript.py:26-33 | when no `y` precedes a link prefix followed by an id, that id is the result |
| VideoId.ShortLinkId | youtube_transcript.py:26 | `https://youtu.be/<id>…` gives back `<id>` |
| VideoId.WatchLinkId | youtube_transcript.py:26 | `https://www.youtube.com/watch?v=<id>…` gives back `<id>` |
| VideoId.LinkPrefixesExclusive | youtube_transcript.py:26 | at most one of the three alternatives can match at a position |
| Filename.Substituted | youtube_transcript.py:40-42 | after the three substitutions the name is no longer than the title and every character is a word character |
| Filename.CleanFilename | youtube_transcript.py:37-43 | the result is no longer than the title and is a clean name: word characters only, no `_` at either end |
| Filename.CleanNameUnchanged | youtube_transcript.py:37-43 | a clean name is left as it is |
| Filename.CleanFixedPoint | youtube_transcript.py:37-43 | cleaning leaves a name unchanged exactly when it is already clean |
| Filename.CleanIdempotent | youtube_transcript.py:37-43 | cleaning twice is cleaning once |
| Text.Strip | youtube_transcript.py:251 | `str.strip()`: no whitespace at either end, empty exactly when the input is all whitespace |
| Text.TrimLeft | youtube_transcript.py:43 | drops exactly the leading characters of a class; the result is a suffix |
| Text.TrimRight | youtube_transcript.py:43 | drops exactly the trailing characters of a class; the result is a prefix |
| Text.StripStripped | youtube_transcript.py:251 | stripping a stripped string changes nothing |
| Text.Split | youtube_transcript.py:121 | `str.split('\n')` gives at least one part |
| Text.SplitPieces | youtube_transcript.py:121 | no part contains the separator |
| Text.JoinSplit | youtube_transcript.py:121 | joining the parts of a split gives the string back |
| Text.SplitJoin | youtube_transcript.py:138 | splitting a join of separator-free parts gives the parts back |
| Text.JoinSnoc | youtube_transcript.py:138 | joining one more part adds the separator and that part |
| Text.ReplaceRuns | youtube_transcript.py:253-254 | `re.sub(r'[…]+', ' ', s)`: every character left is the replacement or outside the class, and the first character is kept or replaced |
| Text.ReplaceRunsSeparated | youtube_transcript.py:254 | no two characters of the class are adjacent after the replacement |
| Text.ReplaceRunsKeeps | youtube_transcript.py:253-254 | any property of all characters that the replacement has is kept |
| Text.ReplaceRunsNone | youtube_transcript.py:253 | a string with no character of the class is unchanged |
| Text.ReplaceRunsAppend | youtube_transcript.py:253-254 | cutting the string after a character outside the class cuts no run: each side is replaced on its own |
| Text.ReplaceRunsRun | youtube_transcript.py:253-254 | a run of class characters, followed by the end or another character, becomes one replacement |
| Text.ReplaceRunsBetween | youtube_transcript.py:253-254 | a run of class characters of any length between two other characters becomes exactly one replacement: `a  b` becomes `a b` |
| Text.MapChars | youtube_transcript.py:40-41 | a character-wise substitution keeps length and maps each position |
| Subtitles.AfterClose | youtube_transcript.py:134 | a tag `<[^>]*>` ends at the first `>`; none when there is no `>` |
| Subtitles.StripTags | youtube_transcript.py:134 | removing tags never lengthens the line |
| Subtitles.StripTagsLeavesNoTag | youtube_transcript.py:134 | the result contains no complete tag |
| Subtitles.StripTagsFixedPoint | youtube_transcript.py:134 | tag removal changes a line exactly when the line holds a tag |
| Subtitles.StripTagsChars | youtube_transcript.py:134 | tag removal introduces no character |
| Subtitles.TaggedText | youtube_transcript.py:134 | text around `<open>inner</close>` keeps only the text |
| Subtitles.HelloWorldTags | youtube_transcript.py:134 | `Hello <b>world</b>` becomes `Hello world` |
| Subtitles.Piece | youtube_transcript.py:124-136 | a line contributes nothing or one non-empty piece |
| Subtitles.Pieces | youtube_transcript.py:124-136 | at most one piece per line |
| Subtitles.KeptLine | youtube_transcript.py:124-136 | a stripped line that is neither header, timing nor number keeps its tag-free text |
| Subtitles.ArrowLine | youtube_transcript.py:127 | a line holding `-->` is dropped in both formats |
| Subtitles.NumberPiece | youtube_transcript.py:130 | a line of digits is dropped |
| Subtitles.NumberLineDropped | youtube_transcript.py:148 | a leading sequence-number line does not change the text |
| Subtitles.TimedCue | youtube_transcript.py:119-138 | a timing line followed by a cue gives the cue's tag-free text |
| Subtitles.CaptionText | youtube_transcript.py:119-156 | the caption text of either format has no line break |
| Subtitles.SrtAgreesWithVtt | youtube_transcript.py:140-156 | without `WEBVTT`/`NOTE` header lines, SRT and VTT parsing agree |
| Subtitles.ParseCaptions | youtube_transcript.py:119-156 | the loop computes the specified caption text |
| Subtitles.KeepLines | youtube_transcript.py:124-136 | the loop collects the pieces of all lines in order |
| Subtitles.KeepLine | youtube_transcript.py:125-136 | the loop body computes one line's piece |
| Subtitles.ParseNotIdempotent | youtube_transcript.py:130-134 | parsing `<b>12</b>` gives `12`, whose own parse is empty |
| Subtitles.TaggedNumberNotIdempotent | youtube_transcript.py:130-134 | any tagged number parses to a non-empty text that parses to nothing |
| Subtitles.LastDot | youtube_transcript.py:108 | the last `.` of the name, none exactly when there is no dot |
| Subtitles.Suffix | youtube_transcript.py:108 | `Path.suffix`: empty or a dot and at least one character, a proper end of the name |
| Subtitles.SuffixOf | youtube_transcript.py:108 | `stem.ext` has suffix `.ext` |
| Subtitles.FormatOf | youtube_transcript.py:108-113 | VTT exactly for `.vtt`, SRT exactly for `.srt` |
| Subtitles.ParseSubtitleFile | youtube_transcript.py:102-117 | text exactly when the file is readable and its suffix is `.vtt` or `.srt`, and then it is that format's caption text |
| Subtitles.ParseFile | youtube_transcript.py:102-117 | the method gives the specified parse |
| Entries.EntryPieces | youtube_transcript.py:249-255 | an entry contributes at most one piece |
| Entries.ProcessTranscriptData | youtube_transcript.py:242-258 | the loop computes the specified text of the entries |
| Entries.CleanEntry | youtube_transcript.py:250-255 | the loop body computes one entry's piece |
| Entries.TranscriptText | youtube_transcript.py:242-258 | the text is tidy: no whitespace at the ends, no whitespace other than single spaces |
| Entries.TranscriptTextTidy | youtube_transcript.py:256-258 | for a non-empty list, the final `strip()` changes nothing: the text is the joined pieces |
| Entries.TranscriptTextContent | youtube_transcript.py:242-258 | the text keeps every non-space character of the entries' texts, in order, and nothing else |
| Entries.SkippedEntry | youtube_transcript.py:250-252 | an entry with no text or only whitespace changes nothing |
| Entries.PiecesAppend | youtube_transcript.py:249 | entries are processed independently and in order |
| Entries.CollapseContent | youtube_transcript.py:253-254 | the whitespace collapsing keeps the visible characters |
| UrlList.ValidUrls | youtube_transcript.py:318-327 | the filter keeps at most one URL per line |
| UrlList.ValidUrlsSound | youtube_transcript.py:319-325 | every kept URL is stripped, non-empty, not a comment and names youtube.com or youtu.be |
| UrlList.ValidUrlsComplete | youtube_transcript.py:319-325 | every such line is kept |
| UrlList.ValidUrlsCount | youtube_transcript.py:318-327 | as many URLs are kept as there are such lines |
| UrlList.ValidUrlsIdempotent | youtube_transcript.py:319-325 | filtering the kept URLs again keeps all of them |
| UrlList.FilterUrls | youtube_transcript.py:318-327 | the loop computes the filter |
| UrlList.KeepUrl | youtube_transcript.py:319-325 | the loop body keeps a line exactly when it qualifies |
| UrlList.LoadUrlsFromFile | youtube_transcript.py:312-337 | an unreadable file gives no URLs, a readable one the filtered lines |
| UrlList.LoadUrls | youtube_transcript.py:312-337 | no file gives no URLs; otherwise as many URLs as qualifying lines, each stripped, not a comment and naming youtube.com or youtu.be |
| Staging.Dir.Write | youtube_transcript.py:267-268 | writing keeps the listing valid; a new name goes at the end |
| Staging.Dir.WriteAll | youtube_transcript.py:76 | a yt-dlp run only adds or overwrites files |
| Staging.Dir.Unlink | monolito/youtube_transcript_downloader.py:107 | removes exactly that file and keeps the listing valid |
| Staging.Without | monolito/youtube_transcript_downloader.py:107 | the listing without the removed name |
| Staging.MatchingMembers | youtube_transcript.py:87 | a glob lists exactly the names in the directory that contain the id |
| Staging.MatchingAppend | youtube_transcript.py:87 | a glob keeps the directory's order |
| Staging.FirstSubtitle | youtube_transcript.py:87-90 | the name found is a listed `.vtt`/`.srt` file; none exactly when no listed name is one |
| Staging.FirstSubtitleIsFirst | youtube_transcript.py:87-90 | no subtitle precedes the name found |
| Staging.FindSubtitle | youtube_transcript.py:87-90 | the loop finds the specified name |
| Staging.GlobbedSubtitle | youtube_transcript.py:87-90 | a subtitle found by the glob is in the directory and contains the id |
| Staging.NoGlobbedSubtitle | youtube_transcript.py:87-90 | the glob finds no subtitle exactly when no file containing the id is a subtitle |
| Search.FirstHit | youtube_transcript.py:185-198 | the first index that satisfies the test, with none before it |
| Search.FindFirst | youtube_transcript.py:185-198 | the loop finds the specified index |
| Search.Tried | youtube_transcript.py:185-198 | the calls made are a prefix that ends at the first hit or covers everything |
| Counting.CountSplits | youtube_transcript.py:379-384 | successes and failures add up to the total |
| Counting.CountCons | youtube_transcript.py:379 | counting one more item |
| Counting.CountSame | monolito/youtube_transcript_downloader.py:426-427 | counts agree over position-wise equivalent tests |
| Decimal.Show | youtube_transcript.py:360 | `str(n)`: digits only, no leading zero |
| Decimal.ValueShow | youtube_transcript.py:360 | the numeral reads back as the number |
| Decimal.ShowInjective | youtube_transcript.py:360 | different numbers give different numerals |
| Api.DirectCalls | youtube_transcript.py:183-198 | one `get_transcript` call per preferred language, in order |
| Api.TranslateCalls | youtube_transcript.py:213-223 | one translation per target `pt`, `en`, in order |
| Api.TrackCallsMembers | youtube_transcript.py:201-224 | a track's calls are its fetch and, when the fetch raised and the track is translatable, its translations |
| Api.CandidatesStart | youtube_transcript.py:183 | the search starts with `pt`, `pt-BR`, `en`, `en-US` |
| Api.CandidateTranslation | youtube_transcript.py:212-224 | a translation is tried only for a listed, translatable track whose fetch raised |
| Api.ApiSearchFound | youtube_transcript.py:182-227 | the calls made stop at the first useful answer; a text is found exactly when some candidate answers usefully |
| Api.ApiSearch | youtube_transcript.py:182-227 | the calls made are a prefix of the candidates; a text is found only where the search stopped, and the search stops early only at a useful answer |
| Api.Searched | youtube_transcript.py:182-227 | a run that did not stop made every call |
| Api.SearchedIsApiSearch | youtube_transcript.py:182-227 | any run of the search loops gives the specified outcome |
| Api.TryPreferred | youtube_transcript.py:185-198 | the loop stops at the first preferred language with a non-empty answer |
| Api.TryListed | youtube_transcript.py:201-224 | the loop stops at the first listed transcript that yields entries |
| Api.TryTrack | youtube_transcript.py:203-224 | one track: its fetch, then its translations when the fetch raised |
| Api.TryTranslations | youtube_transcript.py:213-223 | the translation loop stops at the first useful answer |
| Api.SearchedThen | youtube_transcript.py:182-224 | a search that misses its first part continues with the second |
| Cli.ApiTranscriptCalls | youtube_transcript.py:158-240 | a listing that raised or is empty makes no call; otherwise calls follow the candidate order; a translation is only tried for a translatable track whose fetch raised |
| Cli.ApiTranscript | youtube_transcript.py:158-240 | a listing that raised or is empty gives nothing and makes no call; otherwise the outcome is a run of the search over the candidates with translations |
| Cli.ProbeTitle | youtube_transcript.py:49-60 | no title exactly when the probe raised or printed unreadable output; a failed probe gives the id; a readable one gives a clean name, the cleaned id when it printed no title |
| Cli.ExactNames | youtube_transcript.py:80-81 | the two exact names tried end in `.vtt` and `.srt` |
| Cli.FindStaged | youtube_transcript.py:80-90 | the `.vtt` exact name wins when present, else the `.srt` one; otherwise a file found is a subtitle containing the id; none exactly when neither exact name is present and no file containing the id is a subtitle |
| Cli.DownloadsLangs | youtube_transcript.py:63-90 | the languages tried are a prefix of the list |
| Cli.DownloadsKeeps | youtube_transcript.py:45-100 | the fallback never removes a file |
| Cli.Ytdlp | youtube_transcript.py:45-100 | the languages tried are a prefix of `pt`, `pt-BR`, and no file is removed |
| Cli.DownloadsWalked | youtube_transcript.py:63-93 | the language loop meets its step rules: every language before the last moved on (non-zero exit or nothing staged), and the last ended the loop with the staged file's parse or was the last language |
| Cli.WalkedIsDownloads | youtube_transcript.py:63-93 | any outcome that meets the step rules is the loop's outcome |
| Cli.YtdlpWalked | youtube_transcript.py:45-93 | after a readable probe, the fallback walks the languages by the step rules |
| Cli.YtdlpShape | youtube_transcript.py:49-63 | at most `pt`, `pt-BR` are tried; a probe that raised or printed unreadable output ends the fallback at once with the directory unchanged |
| Cli.RaisedRunStops | youtube_transcript.py:95-100 | a run that raised ends the fallback after that language |
| Cli.DownloadsText | youtube_transcript.py:78-90 | a fallback text is the parse of a subtitle file in the directory |
| Cli.Downloads | youtube_transcript.py:63-93 | the language loop keeps the directory listing valid; its results are described by `Cli.DownloadsText`, `Cli.DownloadsKeeps` and `Cli.DownloadsLangs` |
| Cli.Single | youtube_transcript.py:280-310 | a single-video run keeps the directory listing valid; its result is described by `Cli.SingleSaved` |
| Cli.Batch | youtube_transcript.py:352-368 | one report per URL, and the directory listing stays valid |
| Cli.SingleSaved | youtube_transcript.py:280-310 | a returned transcript is non-empty and saved under `transcricao_<id>.txt`; a URL without id changes nothing |
| Cli.SingleChooses | youtube_transcript.py:280-310 | a non-empty service text that can be saved is the result; otherwise the result is the yt-dlp text when non-empty and saveable, and nothing else |
| Cli.SingleFor | youtube_transcript.py:291-310 | a text returned is non-empty and saved under `transcricao_<id>.txt`; no file is removed |
| Cli.Fallback | youtube_transcript.py:301-310 | a text returned is non-empty and saved; no file yt-dlp left is removed |
| Cli.ApiTextSkipsYtdlp | youtube_transcript.py:295-299 | when the service gives a non-empty text that can be saved, yt-dlp is never consulted |
| Cli.BatchReports | youtube_transcript.py:352-364 | one report per URL, in order, each from that URL's single-video run on the directory as left by the previous ones |
| Cli.ReportLength | youtube_transcript.py:360 | a success report's detail determines the transcript's length |
| Cli.Report | youtube_transcript.py:358-363 | the report is for the URL, succeeds exactly for a non-empty text, and a failure says `Falha ao obter transcrição` |
| Cli.SummaryCounts | youtube_transcript.py:379-384 | failures are the failed reports; successes and failures lie within the total |
| Cli.Summarize | youtube_transcript.py:373-394 | the total is the number of reports; successes and failures count the succeeded and failed reports |
| Cli.ProcessFile | youtube_transcript.py:339-371 | no URL leaves the directory unchanged; one report per loaded URL, in order |
| Cli.Downloader.constructor | youtube_transcript.py:15-18 | starts with the given directory and delay and no sleeps |
| Cli.Downloader.DownloadTranscriptApi | youtube_transcript.py:158-240 | the method gives the specified caption-service outcome |
| Cli.Downloader.DownloadWithYtdlp | youtube_transcript.py:45-100 | the method gives the text, the directory it leaves and the languages tried of the specified fallback |
| Cli.Downloader.DownloadLanguages | youtube_transcript.py:63-93 | the language loop meets the specification |
| Cli.Downloader.DownloadLanguage | youtube_transcript.py:64-90 | one language turn either ends the fallback or passes on to the rest |
| Cli.Downloader.FindStagedFile | youtube_transcript.py:80-90 | the search over exact names, then the glob, finds the specified file |
| Cli.Downloader.SaveTranscript | youtube_transcript.py:260-278 | succeeds exactly for a non-empty text and a writable file, and then writes it |
| Cli.Downloader.DownloadSingleVideo | youtube_transcript.py:280-310 | the method meets the single-video specification |
| Cli.Downloader.DownloadFor | youtube_transcript.py:291-310 | the two strategies in order |
| Cli.Downloader.DownloadFallback | youtube_transcript.py:301-310 | the yt-dlp strategy and its save |
| Cli.Downloader.ProcessUrlsFromFile | youtube_transcript.py:339-371 | reports per the batch specification, with one sleep between consecutive URLs |
| Cli.Downloader.ProcessUrls | youtube_transcript.py:352-368 | the batch loop meets the specification and sleeps `n - 1` times |
| Cli.Downloader.ProcessUrl | youtube_transcript.py:353-364 | one turn of the batch loop |
| Outcomes.AfterAfter | monolito/youtube_transcript_downloader.py:88-108 | language turns compose |
| Monolith.VideoInfoDefaults | monolito/youtube_transcript_downloader.py:56-78 | a failed probe, or one with no fields, gives `Video <id>`, 0, `Unknown`, 0; a printed title or uploader is taken as printed |
| Monolith.GetVideoInfo | monolito/youtube_transcript_downloader.py:56-78 | a probe that failed, raised or printed nothing readable gives the default information |
| Monolith.ApiTranscriptCalls | monolito/youtube_transcript_downloader.py:165-198 | a listing that raised gives nothing and makes no call; no translation is ever tried; an empty listing still tries the four preferred languages; a text exactly when some candidate answers usefully |
| Monolith.ApiTranscript | monolito/youtube_transcript_downloader.py:165-198 | a listing that raised gives nothing and makes no call; otherwise the outcome is a run of the search over the candidates without translations |
| Monolith.Staged | monolito/youtube_transcript_downloader.py:104-105 | the file found is in the directory, contains the id and is a subtitle; none exactly when no file containing the id is a subtitle |
| Monolith.Downloads | monolito/youtube_transcript_downloader.py:88-110 | the language loop keeps the directory listing valid; its results are described by the lemmas below |
| Monolith.DownloadsLangs | monolito/youtube_transcript_downloader.py:88-108 | the languages tried are a prefix of the list |
| Monolith.Ytdlp | monolito/youtube_transcript_downloader.py:80-113 | the languages tried are a prefix of `pt`, `pt-BR`, `en`, a text comes from a subtitle taken from the directory, and at most one file is removed |
| Monolith.Take | monolito/youtube_transcript_downloader.py:104-108 | taking a staged file removes exactly that file and ends on that language |
| Monolith.DownloadsWalked | monolito/youtube_transcript_downloader.py:88-110 | the language loop meets its step rules: every language before the last moved on (non-zero exit or nothing staged), and the last ended the loop with the staged file's parse and its removal, or was the last language |
| Monolith.WalkedIsDownloads | monolito/youtube_transcript_downloader.py:88-110 | any outcome that meets the step rules is the loop's outcome |
| Monolith.YtdlpWalked | monolito/youtube_transcript_downloader.py:80-113 | the fallback walks the languages by the step rules under the name built from the video title |
| Monolith.YtdlpLangs | monolito/youtube_transcript_downloader.py:88 | at most `pt`, `pt-BR`, `en` are tried |
| Monolith.DownloadsRemovesSubtitles | monolito/youtube_transcript_downloader.py:104-108 | every file removed is a subtitle containing the id |
| Monolith.DownloadsRemovesOne | monolito/youtube_transcript_downloader.py:104-108 | at most one file is removed |
| Monolith.DownloadsText | monolito/youtube_transcript_downloader.py:104-108 | a fallback text is the parse of a subtitle file containing the id, which is then gone |
| Monolith.RaisedRunStops | monolito/youtube_transcript_downloader.py:112-113 | a run that raised ends the fallback after that language |
| Monolith.SingleRecord | monolito/youtube_transcript_downloader.py:217-253 | the record is well formed (success exactly with a non-empty transcript, its size and `Sucesso - N caracteres`), keeps the URL, carries the id and video info when an id was found, and a failure has one of the three messages |
| Monolith.SingleForRecord | monolito/youtube_transcript_downloader.py:226-253 | with an id, the record carries it and its video info; it succeeds exactly when the acquired text (service, else yt-dlp) is non-empty, and then carries that text; the directory is the one acquisition leaves; a failure says `Nenhuma transcrição disponível` |
| Monolith.Acquire | monolito/youtube_transcript_downloader.py:229-234 | a non-empty service text is taken with the directory unchanged and no yt-dlp run; otherwise the yt-dlp outcome |
| Monolith.SingleForChooses | monolito/youtube_transcript_downloader.py:229-253 | a non-empty service text makes a success with that text; otherwise success exactly when the yt-dlp text is non-empty, with that text and the directory yt-dlp left |
| Monolith.Single | monolito/youtube_transcript_downloader.py:217-253 | the record is well formed, keeps the URL and has no index |
| Monolith.SingleFor | monolito/youtube_transcript_downloader.py:226-253 | the record is well formed, keeps the URL and carries the id |
| Monolith.ApiTextSkipsYtdlp | monolito/youtube_transcript_downloader.py:230-234 | with a non-empty service text, yt-dlp runs are never consulted, the directory is unchanged and the transcript is that text |
| Monolith.SuccessMessageSize | monolito/youtube_transcript_downloader.py:243 | the digits in the success message read back as the size |
| Monolith.Downloader.constructor | monolito/youtube_transcript_downloader.py:27-30 | starts with the given directory and delay (the source's default delay is 2) and no sleeps |
| Monolith.Downloader.DownloadTranscriptApi | monolito/youtube_transcript_downloader.py:165-198 | the method gives the specified caption-service outcome |
| Monolith.Downloader.DownloadWithYtdlp | monolito/youtube_transcript_downloader.py:80-113 | the method meets the fallback specification, directory included |
| Monolith.Downloader.DownloadLanguages | monolito/youtube_transcript_downloader.py:88-110 | the language loop meets the specification |
| Monolith.Downloader.DownloadLanguage | monolito/youtube_transcript_downloader.py:89-108 | one language turn either ends the fallback or passes on to the rest |
| Monolith.Downloader.DownloadSingleVideo | monolito/youtube_transcript_downloader.py:217-253 | the method meets the single-video specification |
| Monolith.Downloader.DownloadFor | monolito/youtube_transcript_downloader.py:226-253 | the record built from the transcript acquired |
| Monolith.Downloader.AcquireTranscript | monolito/youtube_transcript_downloader.py:229-234 | the service first, yt-dlp only when its text is empty |
| Routes.SingleRoute | monolito/youtube_transcript_downloader.py:274-291 | the single-URL route keeps the directory listing valid; its records are described by `Monolith.SingleRecord` and `Routes.OneUrlBothRoutes` |
| Routes.BehindBehind | monolito/youtube_transcript_downloader.py:314-318 | batch turns compose |
| Routes.Batch | monolito/youtube_transcript_downloader.py:314-318 | one result per URL |
| Routes.BatchNumbered | monolito/youtube_transcript_downloader.py:314-318 | result `k` is well formed, is for URL `k` and carries index `k` |
| Routes.BatchRuns | monolito/youtube_transcript_downloader.py:314-318 | result `k` of a batch is the single-video record of URL `k`, run on the directory the earlier URLs left, with index `k` |
| Routes.BatchRunAt | monolito/youtube_transcript_downloader.py:314-318 | the same for one position `k` |
| Routes.BatchOne | monolito/youtube_transcript_downloader.py:315-318 | a one-URL batch is the single-video record with index 0 |
| Routes.TallyCounts | monolito/youtube_transcript_downloader.py:324-329 | successful plus failed is the total, which is the number of results |
| Routes.Tally | monolito/youtube_transcript_downloader.py:324-329 | the answer lists the batch's results, its total is their number and successful plus failed is the total |
| Routes.MultipleRouteResults | monolito/youtube_transcript_downloader.py:293-332 | rejected with the directory unchanged exactly when no URL survives the filter; otherwise result `k` is the single-video record of kept URL `k`, run on the directory the earlier URLs left, with index `k`; the total is the number of kept URLs and the directory is the batch's |
| Routes.OneUrlBothRoutes | monolito/youtube_transcript_downloader.py:274-332 | for one valid URL, the multiple-URL route gives the single route's record with index 0 and the same directory |
| Routes.MultipleRoute | monolito/youtube_transcript_downloader.py:293-332 | the multiple-URL route keeps the directory listing valid; its answers are tied to the runs of the kept URLs by `Routes.MultipleRouteResults` |
| Routes.FileRoute | monolito/youtube_transcript_downloader.py:334-381 | the file route keeps the directory listing valid; an accepted upload answers as `Routes.FileLikeList` says |
| Routes.TxtNameLetters | monolito/youtube_transcript_downloader.py:345 | a name is accepted exactly when it ends in `.txt` in any letter case |
| Routes.FileLikeList | monolito/youtube_transcript_downloader.py:334-381 | an accepted `.txt` upload with a URL answers as the multiple-URL route on its lines |
| Routes.ProcessSingleVideo | monolito/youtube_transcript_downloader.py:274-291 | the handler meets the single route's specification without sleeping |
| Routes.ProcessMultipleVideos | monolito/youtube_transcript_downloader.py:293-332 | the handler meets the route's specification and sleeps once between consecutive URLs |
| Routes.ProcessFile | monolito/youtube_transcript_downloader.py:334-381 | the handler meets the file route's specification and sleeps once between consecutive URLs |
| Routes.RunBatch | monolito/youtube_transcript_downloader.py:314-322 | the loop gives the numbered batch and sleeps `n - 1` times |
| Routes.RunOne | monolito/youtube_transcript_downloader.py:315-322 | one turn of the batch loop |
| Routes.ArchiveEntries | monolito/youtube_transcript_downloader.py:435-451 | one archive entry per result given, in the same order, each with the header and transcript of that result |
| Routes.SuccessfulCount | monolito/youtube_transcript_downloader.py:426 | the results kept are exactly those that succeeded with a non-empty transcript |
| Routes.Successful | monolito/youtube_transcript_downloader.py:426 | at most the results given; each kept result is one of them and succeeded with a non-empty transcript |
| Routes.ArchiveEntry | monolito/youtube_transcript_downloader.py:436-449 | the entry is `transcricao_<id>.txt` and its content ends with the transcript after a non-empty header |
| Routes.AllTranscripts | monolito/youtube_transcript_downloader.py:415-451 | no results, or none successful, gives the matching error; otherwise an archive with one entry per successful result |
| Routes.ArchiveEntryContent | monolito/youtube_transcript_downloader.py:436-449 | the entry is `transcricao_<id>.txt`, ends with the transcript, and its `Caracteres` line reads back as the transcript's length |
| Routes.ArchiveOfResults | monolito/youtube_transcript_downloader.py:420-451 | for records the downloader returns: no records, or no success, gives the matching error; otherwise one entry per success |
| Routes.DownloadAllTranscripts | monolito/youtube_transcript_downloader.py:415-451 | the loop over the kept results gives the specified archive |
| Routes.EntryContent | monolito/youtube_transcript_downloader.py:443-449 | the lines appended build the specified entry |

## Left out

- Flask plumbing is not modelled: routing, CORS, `request.get_json`, HTTP status codes, `render_template`, `send_file`, the health check. A handler's answer is a `Routes.Response` value.
- The `Erro interno` text of the 500 answers is not modelled. An unreadable upload is the `InternalError` answer.
- JSON values that are not strings (a non-string URL, a body that is not an object) are not modelled.
- A yt-dlp probe whose `title` is JSON `null` is not modelled: `Externals.Info.title` is absent or a string. In the source, `.get('title', video_id)` then gives `None`. The command line's `clean_filename(None)` raises, so its whole yt-dlp fallback returns None (`youtube_transcript.py:58`, `:98-100`). The server's `get_video_info` keeps `None` as the title; `download_with_ytdlp` then raises in `clean_filename(None)` and returns None (`monolito/youtube_transcript_downloader.py:85`, `:112-113`).
- Glob order: `Staging.Dir.Write` puts a new name at the end of `order`, so a glob lists files in creation order. A real `Path.glob` lists them in the file system's order. That order decides which staged subtitle is parsed when several match (`Cli.FindStaged`, `Monolith.Staged`).
- The `/api/download-transcript/<video_id>` handler (`monolito/youtube_transcript_downloader.py:383-413`) is not modelled. It only re-runs the single-video download and wraps it in `send_file`.
- The ZIP file itself is not modelled: compression, encoding and the archive name. The archive is its list of entries.
- Real processes, network and files are not modelled. Their answers come from `Externals.World`. The same probe answer serves both `get_video_info` calls.
- A timeout is modelled as a raised run.
- A failing `unlink` and partial writes are not modelled.
- Whether a transcript file can be written is an input bit. `mkdir` is not modelled.
- Sleep durations are not modelled. Sleeps are counted in the ghost field `sleeps`.
- Console output is not modelled: logging, `safe_print`, and the success percentage of `print_summary`.
- The `proxy` parameter of the command line's `download_transcript_api` is not modelled.
- The command line's `main` and argument handling are not modelled.
- The module-level `downloader` and `processing_results` globals (`monolito/youtube_transcript_downloader.py:255-259`) are not modelled. The handlers take the downloader as a parameter.
- Python's character classes are exact for ASCII and Latin-1. Above U+00FF, only the whitespace characters are exact. Other characters count as neither word characters nor digits.
- Routes.Lower: lower-cases ASCII letters only, not all of Unicode `str.lower`. It decides only whether a name ends in `.txt`.
- Newline translation is not modelled. `UrlList.LoadUrls` and `Subtitles.ParseSubtitleFile` take a file's contents as `open()` in text mode returns them, with `\r\n` and a lone `\r` already turned into `\n`. `Routes.FileRoute` splits the raw upload on `\n` only, as the upload handler does (`monolito/youtube_transcript_downloader.py:349-350`), so there a lone `\r` stays inside its line.
- Text.ReplaceRuns: its own contract states only the character-class facts. Three lemmas state the rest: `Text.ReplaceRunsBetween` (a run between two other characters becomes exactly one replacement), `Text.ReplaceRunsSeparated` (no two class characters end up adjacent) and `Text.ReplaceRunsKeeps` (other character properties survive).
