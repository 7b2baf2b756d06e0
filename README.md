# movie: track selection, stream records, renaming and subtitle styles

This project models the deterministic core of a small media-library organizer in Dafny. The
organizer is a set of Python tools around ffmpeg/ffprobe: `movie/utils` (a package with a class
`Movie`), the earlier single-file script `movie.py` and its anime variant `anime.py`. The model
states and proves what that core does.

- **Track-range notation** (`movie/utils/notation.py`, copied at
  `movie/utils/movie.py:171-200`). A character-class validator, and an expander from text such
  as `0,2-4,7` to the list `[0, 2, 3, 4, 7]`. The expander stops at the first malformed token
  and returns what it has collected so far (module `Notation`).
- **ffprobe stream records** (`movie/utils/stream.py`). A `Stream` object is filled in place
  from the `key=value` lines of one block. The model covers its display string, its type, the
  list of streams built from the blocks, and the media-type filter (module `ProbeStream`).
- **Stream post-processing of `Movie`** (`movie/utils/movie.py:119-156`, `movie.py:139-176`).
  The tuples the ffmpeg regular expressions extracted become stream records with a trimmed
  language. Attachments are dropped and titles are attached (module `MovieLib`).
- **ffmpeg argument vectors** (modules `Remux`, `MovieLib`, `Anime`):
  - the `-map` lists;
  - the default disposition on the first selected subtitle;
  - the six-token language/default groups;
  - the partition by type;
  - the command `[ffmpeg, -i, src, -c, copy, *args, target]` per video of the listing;
  - the files `remove_video` deletes.
- **The renaming plan**. Per-category counters run over the directory listing. Numbers are
  two-digit, subtitles get a `.RUS` suffix, and a single film is named after the template alone
  (modules `Remux`, `MovieLib`, `Anime`). The name-template check is part of this.
- **ASS subtitle styles** (`movie.py:360-489`, `anime.py:163-269`; module `AssStyles`):
  - style names are collected from `Style: ` lines;
  - each name is scored with `str.count` on the whole file;
  - the `max_styles` best are chosen the way `heapq.nlargest` chooses them;
  - fields 1-9, 16 and 17 of the selected `Style: ` lines are overwritten in place.
- **ASS purification of events** (`movie/utils/movie.py:674-680`; module `AssPurify`). Each
  event's text loses its `{...}` override blocks and is stripped. Its style becomes `Main` or
  `Signs`.
- **The prompt contract of `movie/scenarios.py:54-66`** (module `Prompt`). `q...` and the empty
  answer are handled before validation.

How the source's imperative code is represented:

- Imperative loops are `method`s with loop invariants, proved against specification functions.
- `Stream`, `Movie` and the subtitle `Event` are classes whose methods change their fields.
- The in-place field overwrite of a `Style: ` line works on an `array`.
- Python's own behaviour is written out in module `PyText`:
  - `str.strip` with Python's whitespace set;
  - `split`, `join`, `str.count`;
  - `int()` with sign, surrounding whitespace and single underscores;
  - `os.path.splitext`, and `os.path.join` with the POSIX separator '/';
  - the `{:02d}` format.
- `movie.py` and `anime.py` share the builders of `Remux`. They differ in their extension
  sets and name templates:
  - `MovieLib.ScriptLayout` and `MovieLib.ScriptRemuxed` give `movie.py`'s `.mkv`/`.mp4`
    counting and its `.mkv`-only remux and removal;
  - `Anime.AnimeLayout` and `Anime.AnimeVideo` give `anime.py`'s.

Behaviour of the source worth knowing:

- A stream block whose `index` value is not an integer makes `Stream.__init__` raise.
  `parse_ffprobe_output` does not catch that, so the whole parse fails (`ParseFfprobeOutput`
  returns `None`). The block is not skipped.
- A stream without a language tag displays as `(None)`, not blank.
- Notation input is not rejected as a whole. `validation` checks characters only, and
  `recognition` keeps the numbers of the tokens before the first malformed one.
- Only the first selected *subtitle* stream gets the default disposition, not the first stream
  of every type.
- `dialogue_style` does not hold `StrikeOut` (field 10), so that field is kept.

## Model

| member | source | states |
|---|---|---|
| Notation.Validation | movie/utils/notation.py:6-14 | true exactly when every character is a digit, ',' or '-'; the empty string is accepted |
| Notation.Recognition | movie/utils/notation.py:17-35 | the numbers are the expansion of the comma tokens, in order, each token's contribution concatenated, cut off at the first token that raises |
| Notation.RecognizeTokens | movie/utils/notation.py:21-33 | the nested append loop with its try/except yields exactly the expansion of the token list |
| Notation.TokenNumbers | movie/utils/notation.py:24-29 | one token's numbers, or None where split or int() raises, equal the token's contribution |
| Notation.AppendRange | movie/utils/notation.py:26-27 | the range loop appends exactly lo, lo+1, ..., hi-1 to the list |
| Notation.Range | movie/utils/notation.py:26 | range(a, b) has b-a elements (none when a >= b), the k-th being a+k: ascending |
| Notation.SingleToken | movie/utils/notation.py:28-29 | a token of digits contributes the one integer it denotes |
| Notation.RangeToken | movie/utils/notation.py:24-27 | a token a-b contributes a, a+1, ..., b, and nothing when a > b |
| Notation.RangeContribution | movie/utils/notation.py:24-27 | a token splitting into two integer texts m, n contributes range(m, n+1) |
| Notation.DashStop | movie/utils/notation.py:25-26 | a dashed token that does not unpack into two integers raises: no contribution |
| Notation.DashRange | movie/utils/notation.py:24-27 | a dashed token unpacking into integers a, b contributes range(a, b+1) |
| Notation.RangeOfCases | movie/utils/notation.py:25-26 | the three cases of `start, end = num.split('-')` with int(): wrong count, bad integer, range |
| Notation.RangeSnoc | movie/utils/notation.py:26-27 | the inclusive range up to b is the range up to b-1 followed by b |
| Notation.StopHere | movie/utils/notation.py:22-33 | a first token that raises ends the expansion with nothing more |
| Notation.Advance | movie/utils/notation.py:23-29 | a well-formed first token's numbers come first, then the expansion of the rest |
| Notation.MalformedToken | movie/utils/notation.py:22-33 | for a validated token, it raises exactly when it is empty, has more than one '-', or has an empty side of '-' |
| Notation.DashToken | movie/utils/notation.py:24-26 | a validated token with a '-' raises exactly when it has another '-' or an empty side |
| Notation.ExpandAppend | movie/utils/notation.py:23-29 | well-formed tokens followed by others expand to their numbers followed by the others' expansion |
| Notation.ExpandAllWellFormed | movie/utils/notation.py:23-29 | when no token raises, the result is the concatenation of all contributions: duplicates kept, nothing sorted |
| Notation.StopsAtFirstMalformed | movie/utils/notation.py:22-35 | the result is exactly the expansion of the tokens before the first malformed one |
| Notation.RecognitionNonNegative | movie/utils/notation.py:23-29 | every number the expansion returns is non-negative, for any input |
| Notation.ExpandExample | movie/utils/notation.py:17-35 | "0,2-4,7" expands to [0, 2, 3, 4, 7] |
| PyText.StripSpec | movie/utils/stream.py:11-15 | strip removes exactly the leading and trailing whitespace: what is left begins and ends with a non-space |
| PyText.StripIdempotent | movie/utils/movie.py:675 | stripping twice is stripping once |
| PyText.Split | movie/utils/notation.py:23 | split gives one more piece than there are separators, and no piece holds the separator |
| PyText.JoinSplit | movie.py:481-485 | joining the pieces of a split with the same separator gives back the text |
| PyText.SplitJoin | movie.py:481-485 | splitting a join of separator-free pieces gives back the pieces |
| PyText.SplitOnce | movie/utils/stream.py:13 | split('=', 1): the parts rejoin to the line and the first part has no '=' |
| PyText.ParseInt | movie/utils/stream.py:18 | int() of a text without '-' is non-negative |
| PyText.DigitsParse | movie/utils/notation.py:29 | int() of a digit string is its decimal value |
| PyText.ParseIntToString | movie/utils/movie.py:251 | int() reads back the f-string of any integer |
| PyText.Pad2 | movie/utils/movie.py:357 | {:02d} gives at least two digits whose value is the number |
| PyText.Ext | movie/utils/movie.py:353 | splitext's extension is a suffix of the name, empty or a '.' with no further '.' |
| PyText.CountOfContained | movie.py:378 | str.count of a name that occurs is at least 1 |
| ProbeStream.Stream.constructor | movie/utils/stream.py:7-9 | index None, type None, no tags |
| ProbeStream.Stream.Load | movie/utils/stream.py:11-23 | succeeds exactly when no line raises, and then the fields are the fold of the lines |
| ProbeStream.Stream.ApplyLine | movie/utils/stream.py:12-23 | one line's effect on the fields; false where int() raises, the fields then unchanged |
| ProbeStream.Stream.Type | movie/utils/stream.py:29-31 | the type property is the codec type field |
| ProbeStream.Stream.Repr | movie/utils/stream.py:25-27 | __repr__ is the display string of the fields |
| ProbeStream.NewStream | movie/utils/stream.py:6-23 | Stream(data) is None exactly when the block raises; otherwise a fresh stream holding the parsed record |
| ProbeStream.ParseFfprobeOutput | movie/utils/stream.py:34-41 | one fresh Stream per block, in block order, or None exactly when some block raises |
| ProbeStream.FoldStep | movie/utils/stream.py:11-23 | the loop goes on from the first line's record, or stops where it raises |
| ProbeStream.FoldSnoc | movie/utils/stream.py:11-23 | the loop over lines + [line] is the loop over lines followed by that line |
| ProbeStream.NoFieldBlock | movie/utils/stream.py:7-23 | a block with no index, codec_type or TAG: line gives index None, type None, no tags |
| ProbeStream.FoldInert | movie/utils/stream.py:11-23 | lines without '=' and lines with other keys change nothing |
| ProbeStream.LineParts | movie/utils/stream.py:12-15 | a line is cut at its first '=' (the value may hold '='), and key and value are stripped |
| ProbeStream.CodecTypeIsLast | movie/utils/stream.py:19-20 | the type is the value of the last codec_type line, if any |
| ProbeStream.IndexIsLast | movie/utils/stream.py:17-18 | the index is int() of the value of the last index line, if any |
| ProbeStream.IndexStep | movie/utils/stream.py:17-18 | an index line sets the index, any other line keeps it |
| ProbeStream.TagIsLast | movie/utils/stream.py:21-23 | tag k is present exactly when a TAG:k line occurs (or it was present), with the last such value |
| ProbeStream.TagStep | movie/utils/stream.py:21-23 | a TAG:k line sets tag k to its value; other lines keep tag k as it was |
| ProbeStream.TagField | movie/utils/stream.py:21-23 | storing key TAG:k sets exactly tag k |
| ProbeStream.TagKeyOf | movie/utils/stream.py:21-22 | a key starting with TAG: whose rest is k is exactly "TAG:" + k |
| ProbeStream.RaisesIff | movie/utils/stream.py:17-18 | a block raises exactly when some index line has a value int() refuses |
| ProbeStream.ParsedTitle | movie/utils/stream.py:25-27 | the display string is "{index}: ({language}) {title}", the title falling back to "Track {index}" |
| ProbeStream.IndexLine | movie/utils/stream.py:17-18 | an index line with an integer value sets the index to it |
| ProbeStream.CodecLine | movie/utils/stream.py:19-20 | a codec_type line sets the type to its value |
| ProbeStream.TagLine | movie/utils/stream.py:21-23 | a TAG:k line stores its value under k |
| ProbeStream.ExampleBlock | movie/utils/stream.py:6-27 | index=2, codec_type=audio, TAG:language=jpn gives that record, shown as "2: (jpn) Track 2" |
| ProbeStream.FilterMediaStreams | movie/utils/stream.py:44-45 | every kept stream has type video, audio or subtitle |
| ProbeStream.FilterMembership | movie/utils/stream.py:44-45 | a stream is kept exactly when it is in the input and has a media type |
| ProbeStream.FilterSubsequence | movie/utils/stream.py:44-45 | the kept streams are a subsequence of the input: order preserved |
| ProbeStream.FilterIdempotent | movie/utils/stream.py:44-45 | filtering twice is filtering once |
| MovieLib.ReadStreamsSpec | movie/utils/movie.py:119-129 | the stream records exist exactly when int() accepts every stream number; one per tuple, the language with its first and last characters cut |
| MovieLib.ReadTitlesSpec | movie/utils/movie.py:132-141 | the title records exist exactly when int() accepts every number; one per tuple, in order |
| MovieLib.MediaStreamsSpec | movie/utils/movie.py:145 | the media streams are exactly the non-Attachment streams, in order |
| MovieLib.LastTitleSpec | movie/utils/movie.py:149-152 | a stream number gets a title exactly when a title record names it, and the title is that of the last such record |
| MovieLib.LastTitleFound | movie/utils/movie.py:150-151 | some title record names the number exactly when the search finds a title |
| MovieLib.LastTitleAt | movie/utils/movie.py:150-152 | the found title is that of a record naming the number, with no later record naming it |
| MovieLib.WithTitles | movie/utils/movie.py:149-152 | every media stream is kept, one output record per input |
| MovieLib.WithTitlesByPosition | movie/utils/movie.py:149-152 | the loop as written, matching title records against the position: one record per stream |
| MovieLib.DenseNumbersAgree | movie/utils/movie.py:149-152 | when the media streams are numbered 0, 1, 2, ... in order, matching by position and matching by number agree |
| MovieLib.TitleByPositionLost | movie/utils/movie.py:149-152 | streams 0 Video, 1 Attachment, 2 Audio with a title for stream 2: by position the audio stream loses its title, by number it keeps it |
| MovieLib.TitleFor | movie/utils/movie.py:150-152 | the inner loop over title records gives the stream the title of the last record naming it |
| MovieLib.AttachTitles | movie/utils/movie.py:149-152 | the title loop, matching by stream number, yields the titled media streams |
| MovieLib.FirstSubtitleSpec | movie/utils/movie.py:230-236 | None exactly when no selected entry is a subtitle stream; otherwise the first selected entry that is one |
| MovieLib.EntryUnmatched | movie/utils/movie.py:246-247 | a selected entry matching no stream contributes nothing |
| MovieLib.EntryMatchedOnce | movie/utils/movie.py:246-260 | an entry matching one stream contributes -map 0:n, and -disposition:i default only when it is the default subtitle |
| MovieLib.SelectionArgsLength | movie/utils/movie.py:244-260 | with unique stream numbers and matched entries: two tokens per entry, two more per default entry |
| MovieLib.LanguageArgsGroup | movie/utils/movie.py:267-280 | entry i contributes exactly -map 0:key -metadata:s:i language=lang -disposition:i default, six tokens per entry |
| MovieLib.LanguageArguments | movie/utils/movie.py:265-281 | the append loop builds exactly those groups in entry order |
| MovieLib.SeparateSpec | movie/utils/movie.py:286-290 | the three lists hold exactly the Video, Audio and Subtitle streams, each in order |
| MovieLib.SeparateCovers | movie/utils/movie.py:286-290 | when every type is one of the three, the lists together have as many streams as the input |
| MovieLib.ValidTemplate | movie/utils/movie.py:57-64 | accepted exactly when the template is non-empty and holds none of / \ : * ? " < > \| |
| MovieLib.NoForbidden | movie/utils/movie.py:59 | true exactly when no character is one of the forbidden ones |
| MovieLib.SingleFilmNames | movie/utils/movie.py:340-345 | for a single film the names are the template, and the template + .RUS for subtitles |
| MovieLib.SeriesNames | movie/utils/movie.py:355-371 | for a series the k-th name is template + .E + two-digit k, with .RUS for subtitles |
| MovieLib.ValidTemplateStaysInDirectory | movie/utils/movie.py:57-64 | a name built from an accepted template has no '/' |
| MovieLib.Movie.constructor | movie/utils/movie.py:19-22 | the configuration and the generated prefix are held as given, and no stream is known yet |
| MovieLib.Movie.LoadStreams | movie/utils/movie.py:119-156 | succeeds exactly when int() accepts every number; the streams become the titled media streams, and nothing changes on failure |
| MovieLib.Movie.FirstSubtitleStream | movie/utils/movie.py:230-236 | the first selected subtitle stream of the loaded streams |
| MovieLib.Movie.EntryArguments | movie/utils/movie.py:246-260 | the inner loop's tokens for one selected entry |
| MovieLib.Movie.SelectionArguments | movie/utils/movie.py:239-261 | the tokens of every entry in selection order, with the first selected subtitle as default |
| MovieLib.Movie.SelectedStreams | movie/utils/movie.py:239-262 | one copy command per remuxed video of the listing, with the selection tokens and target prefix-name |
| MovieLib.Movie.SetDefaultAndLanguageStreams | movie/utils/movie.py:265-283 | one copy command per remuxed video with the language groups |
| MovieLib.Movie.VideoCount | movie/utils/movie.py:317-324 | the number of video files in the listing |
| MovieLib.Movie.RenameFiles | movie/utils/movie.py:338-374 | the rename plan of the listing, single-film names exactly when one video is present |
| MovieLib.Movie.RemoveVideo | movie/utils/movie.py:210-223 | the paths of the remuxed videos lacking the prefix, or nothing when do_remove is false |
| Remux.Kept | movie/utils/movie.py:294-296 | the videos of the listing are no more than the listing |
| Remux.KeptMembership | movie/utils/movie.py:294-296 | a name is a kept video exactly when it is in the listing and its extension is a video one |
| Remux.KeptAt | movie/utils/movie.py:294-296 | the k-th kept name is in the listing and has a video extension |
| Remux.KeptSnoc | movie/utils/movie.py:294-296 | videos are kept in listing order |
| Remux.CopyCommands | movie/utils/movie.py:294-312 | one command per video |
| Remux.CopyCommandsAt | movie/utils/movie.py:297-312 | the k-th command copies dir/f to dir/tag+f with the arguments in between |
| Remux.CopyCommandsSnoc | movie/utils/movie.py:294-312 | one more video appends its command |
| Remux.CopyCommandsShape | movie/utils/movie.py:306-312 | each command is [ffmpeg, -i, src, -c, copy], the arguments, then the target: six tokens more than the arguments |
| Remux.RunCopies | movie/utils/movie.py:293-314 | the loop issues exactly the copy commands of the listing's videos, in listing order |
| Remux.CopyOne | movie/utils/movie.py:295-314 | one file of the listing advances the commands by its own |
| Remux.Removed | movie/utils/movie.py:213-223 | the removed files are no more than the listing |
| Remux.RemovedMembership | movie/utils/movie.py:213-223 | a file is removed exactly when it is in the listing, is a video, and its name lacks the prefix |
| Remux.RemoveVideos | movie/utils/movie.py:213-223 | the loop removes exactly the paths of those files |
| Remux.RemovedPathsSpec | movie/utils/movie.py:213-223 | the paths the loop builds are the joined paths of the removed names |
| Remux.Paths | movie/utils/movie.py:220 | one path per name |
| Remux.PathsAt | movie/utils/movie.py:220 | the k-th path is dir joined with the k-th name |
| Remux.PathsSnoc | movie/utils/movie.py:220 | one more name appends its path |
| Remux.CopiesSurvive | movie/utils/movie.py:216 | a copy made with a tag holding the prefix is never removed |
| Remux.ContainsPrefix | movie/utils/movie.py:216 | a name that holds the prefix still holds it with more text after it |
| Remux.RenameLoop | movie/utils/movie.py:348-374 | the loop with three counters produces exactly the rename plan |
| Remux.RenameFile | movie/utils/movie.py:353-374 | one file's renames use the counters of the files before it, and each matching counter advances by one |
| Remux.RenamePlanHas | movie/utils/movie.py:352-374 | every file of a category is renamed with its ordinal among that category's files before it, plus one |
| Remux.FileRenamesHas | movie/utils/movie.py:355-374 | a file of a category gets that category's rename |
| Remux.RenamePlanLength | movie/utils/movie.py:352-374 | the plan has one rename per file and category it belongs to |
| Remux.CountGrows | movie/utils/movie.py:360 | the counter grows by at least one past each file of its category |
| Remux.CountStep | movie/utils/movie.py:360 | the counter grows by one exactly at a file of its category |
| Remux.CountSnoc | movie/utils/movie.py:360 | one more file adds one to its category's count only |
| Remux.CountMonotone | movie/utils/movie.py:352-374 | the counters never go down along the listing |
| Remux.FormatInjective | movie/utils/movie.py:327-333 | numbered names with their extensions are equal only for equal numbers and extensions |
| Remux.FormatParts | movie/utils/movie.py:329-333 | a numbered name is the stem, the two-digit number, the suffix and the extension |
| Remux.SameAfterStem | movie/utils/movie.py:333 | equal names with the same stem have equal rests |
| Remux.NumberedNamesDistinct | movie/utils/movie.py:352-374 | two files of one category get different new names |
| Anime.MapsSpec | anime.py:45-49 | the maps hold -map 0:s for each stream in order, two tokens per stream |
| Anime.MapsLength | anime.py:45-49 | the maps have twice as many tokens as there are streams |
| Anime.SaveNecessaryMetadata | anime.py:44-70 | one copy command per .mkv of the listing, with the maps and the metadata/chapter drop, to pure-f |
| Anime.SaveCommandShape | anime.py:52-65 | the k-th command copies a listed .mkv f as [FFMPEG,-i,src,-c,copy,*maps,-map_metadata,-1,-map_chapters,-1,pure-f] |
| Anime.DefaultSubsGroup | anime.py:89-96 | stream i contributes exactly the six tokens keyed by its stream number with languages[i] |
| Anime.MakeDefaultSubs | anime.py:87-117 | None (IndexError) exactly when there are fewer languages than streams; otherwise one command per .mkv with the metadata |
| Anime.ZipSnoc | anime.py:89-96 | pairs stream and language one index at a time |
| Anime.ZipPrefix | anime.py:89-96 | languages past the number of streams are never read |
| Anime.AnimeNames | anime.py:138-148 | the k-th name is template + two-digit k, with .RUS for subtitles |
| Anime.RenameFiles | anime.py:120-149 | the rename plan of the listing with anime.py's extension sets and names |
| Anime.AnimeNamesDistinct | anime.py:131-149 | two files of one category get different new names |
| Anime.RemoveVideo | anime.py:73-84 | the paths of the .mkv files whose name lacks save_template, or nothing when do_remove is false |
| AssStyles.StyleFields | movie.py:370 | the fields of a Style line: at least the name |
| AssStyles.StyleWords | movie.py:367-371 | the loop collects the style names of the Style lines, in file order |
| AssStyles.WordsContained | movie.py:367-379 | every collected name occurs in the file text |
| AssStyles.WordsOccur | movie.py:376-379 | every collected name scores at least 1 |
| AssStyles.ContainedInLonger | movie.py:378 | a name in a prefix of the text is in the text |
| AssStyles.DistinctSpec | movie.py:376-379 | the dictionary keys are the names, each once, in first-seen order |
| AssStyles.Occurrences | movie.py:376-379 | occ has exactly the names as keys, each mapped to str.count of the name in the text |
| AssStyles.Scores | movie.py:376-379 | one (name, score) item per key |
| AssStyles.InsertPermutes | movie.py:382 | inserting into the ranking adds exactly that item |
| AssStyles.InsertBounded | movie.py:382 | inserting keeps a bound on the scores |
| AssStyles.InsertDescending | movie.py:382 | inserting keeps the ranking descending |
| AssStyles.InsertSpec | movie.py:382 | inserting keeps the ranking descending and adds exactly that item |
| AssStyles.RankedSpec | movie.py:382 | the ranking is descending by score and a permutation of the items |
| AssStyles.TopItemsPrefix | movie.py:382 | nlargest takes min(n, count) items, none for n <= 0, as a prefix of the ranking |
| AssStyles.PrefixThreshold | movie.py:382 | an item left out of a descending prefix scores no more than anything in it |
| AssStyles.TopItemsSpec | movie.py:382 | at most max_styles items, descending, all from the items, and every left-out name scores no more than every chosen one |
| AssStyles.TopItemsFromItems | movie.py:382 | the chosen items are items of the dictionary |
| AssStyles.MaxOccurStyles | movie.py:360-389 | the chosen names are the top max_styles of the distinct style names scored on the file text |
| AssStyles.DialogueTable | movie.py:455-467 | dialogue_style holds the keys 1-9, 16 and 17, in increasing order, with comma-free values |
| AssStyles.OverwrittenAt | movie.py:483-484 | after t keys, position i holds the new value when among them, else its old value |
| AssStyles.OverwrittenAll | movie.py:483-484 | after every key, the fields are the restyled fields |
| AssStyles.OverwrittenUpToEnd | movie.py:483-484 | when the loop stops at the first key past the end, every key inside the list has been written |
| AssStyles.ApplyDialogueStyle | movie.py:483-484 | IndexError exactly for fewer than 18 fields; every key inside the list is written and all other fields keep their value |
| AssStyles.RewriteLineUnchanged | movie.py:479-489 | non-Style lines and Style lines of unselected styles are written back exactly as read |
| AssStyles.RewriteLineSelected | movie.py:480-487 | a selected Style line raises exactly for fewer than 18 fields; otherwise it is a Style line with the same name and the restyled fields |
| AssStyles.RewriteLineIdempotent | movie.py:480-487 | rewriting a written line again gives the same line |
| AssStyles.Rewrite | movie.py:479-489 | no more lines are written than were read |
| AssStyles.RewriteSpec | movie.py:479-489 | the written lines are the rewrites of the read lines in order; all are written exactly when none raises, and otherwise writing stops at the first line that raises |
| AssStyles.RewriteNoneSelected | movie.py:479-489 | with no selected Style line, the file is written back unchanged |
| AssStyles.RewriteOne | movie.py:480-489 | one turn of the loop writes the line's rewrite |
| AssStyles.RewriteLines | movie.py:479-489 | the loop writes exactly the rewritten lines |
| AssStyles.ChangeSubsStyles | movie.py:426-489 | the file's lines rewritten with the top max_styles style names as the selection |
| AssPurify.RemoveBlocks | movie/utils/movie.py:675 | removing blocks never lengthens the text and keeps only its characters |
| AssPurify.RemoveBlocksBlockFree | movie/utils/movie.py:675 | no '{' ... '}' block is left |
| AssPurify.RemoveBlocksOfBlockFree | movie/utils/movie.py:675 | a text without a block is kept as it is |
| AssPurify.RemoveBlocksIdempotent | movie/utils/movie.py:675 | removing blocks twice is removing them once |
| AssPurify.RemoveBlocksKeepsPlain | movie/utils/movie.py:675 | text before the first '{' is kept |
| AssPurify.RemoveBlocksCutsBlock | movie/utils/movie.py:675 | a block {inner} is cut out and the scan goes on after it |
| AssPurify.RemoveBlocksUnclosed | movie/utils/movie.py:675 | a '{' with no '}' after it is kept |
| AssPurify.ClearSpec | movie/utils/movie.py:675 | the cleared text has no block and no surrounding whitespace, so clearing again keeps it |
| AssPurify.MapStyle | movie/utils/movie.py:677-680 | Main exactly for styles starting with Main or Default, Signs otherwise |
| AssPurify.MapStyleIdempotent | movie/utils/movie.py:677-680 | mapping a mapped style keeps it |
| AssPurify.Event.Purify | movie/utils/movie.py:675-680 | the event's text is cleared and its style mapped |
| AssPurify.PurifyEvents | movie/utils/movie.py:674-680 | after the loop every event has its old text cleared and its old style mapped, even one listed twice |
| AssPurify.PurifyNext | movie/utils/movie.py:674-680 | one turn of the loop brings the next event to its cleaned-up values |
| AssPurify.PurifyAgain | movie/utils/movie.py:674-680 | cleaning an event up again gives the same values, since clearing and mapping are idempotent |
| Prompt.ReadEntry | movie/scenarios.py:54-61 | quit exactly for a stripped answer starting with q, empty exactly for an empty stripped answer |
| Prompt.ReadEntryStreams | movie/scenarios.py:54-67 | numbers are read exactly for a non-empty answer that passes validation; they are the expansion, all non-negative |

## Left out

- Running ffmpeg/ffprobe, the `-version` checks, `__command_execution__`, logging, and the
  configuration files are left out. Each ffmpeg call is modelled as the argument vector it
  would receive.
- The ffmpeg-stderr regular expressions and their `findall` calls are left out, and so is the
  choice of `streams_pattern` by `__get_first_video_in_directory__`. The model starts from the
  extracted tuples. The ffprobe block regex behind `parse_ffprobe_output` is also left out: the
  model starts from the list of blocks.
- `os.listdir` order is a given: the directory listing is a parameter, a sequence of names.
  The extension sets `VIDEO`, `SUBTITLE` and `IMAGE` of the package are parameters (`Layout`).
- The random `_filename_prefix` is a parameter of `Movie`. Its generator is left out.
- The `r+` writes of the subtitle rewrite are left out: `ChangeSubsStyles` gives the sequence
  of written lines, not the file left on disk. The `do_change` / `do` flag is left out too,
  since with it false nothing is written.
- The rest of `__subtitle_purification__` is left out: parsing and dumping the `ass` document
  and building its Main/Signs styles, which is third-party library work. Only the event loop
  is modelled.
- The SRT to ASS conversion, encoding detection, PIL thumbnails, the console menu and its
  prompts beyond `movie/scenarios.py:54-66` are left out, as third-party or interactive code.
- The rename plan is computed whatever `do_rename` says. `os.rename` and `os.remove`
  themselves are left out: the model gives the pairs and paths they would receive.
- Remux.Format: a template is taken literally around the `{episode_idx:02d}` field. A base
  template holding `{` or `}` would be interpreted by `str.format`, which the model does not
  do.
- PyText.ParseInt: `int()` accepts ASCII digits only in the model. Python also accepts other
  Unicode decimal digits.
- MovieLib.LanguageArgs: the `streams_languages` dictionary enters as its items in
  iteration order, with integer keys printed by `f'{key}'`; a key of another type is not modelled.
- Anime.Maps: the model takes integer stream numbers and prints them as Python prints an int.
  The source formats whatever it is given (`f'0:{stream}'` in `anime.py:48`, `f'-metadata:s:{...}'`
  in `anime.py:93-94`), and its example call passes strings such as `"0"`; a string that is not the
  decimal form of an integer, such as `"01"` or `"s:0"`, is not modelled. The same holds for
  Anime.DefaultSubsArgs.
- PyText.PathJoin: paths are joined with '/' as `posixpath.join` does. On Windows, where the
  source runs (drive-letter paths in `anime.py`, `winerror` in `movie/utils/files.py`),
  `ntpath.join` inserts a backslash, so every source, target, rename and removal path there
  reads `dir\f` where the model has `dir/f`.
- MovieLib.Movie.LoadStreams: attaches titles by stream number, the corrected loop of the
  Findings row (`MovieLib.AttachTitles`), not by position as the loop at
  `movie/utils/movie.py:149-152` and `movie.py:169-172` does; `MovieLib.WithTitlesByPosition`
  models the loop as written.
- ProbeStream.Stream.Load: the fields after a line that raises are not stated. The raising
  constructor discards the object, so nothing reads them.
- AssStyles.TopItems: `heapq.nlargest` is modelled as the stable descending sort it is
  documented to equal, followed by `[:n]`.

## Findings

| source | as written | input that shows it | evidently intended | confidence | as-written member | corrected member |
|---|---|---|---|---|---|---|
| movie/utils/movie.py:149-152 (also movie.py:169-172) | a title record is attached to the media stream at position `idx` when the record's stream number equals `idx` | streams 0 Video, 1 Attachment, 2 Audio and a title for stream 2: after the attachment is dropped, the audio stream sits at position 1 and gets no title | attach the title whose stream number equals the media stream's own number | not executed | MovieLib.TitleByPositionLost | MovieLib.AttachTitles |
