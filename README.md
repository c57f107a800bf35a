# yt-video-downloader-bot, modelled in Dafny

A Telegram bot takes a YouTube link in a chat message. It offers a menu with two buttons, video and audio, and downloads and sends back what the user picks. This project models the parts of the bot that decide something. All of them verify.

- **`getYoutubeVideoID`** (`utils.js`) is the regex that picks the 11-character video id out of a link. `YoutubeId` models it exactly as a backtracking engine runs it:
  - start positions are tried left to right;
  - at each position the alternatives are tried in the order written;
  - the two greedy wildcards (`[^/]+/.+/` and `.*[?&]v=`) give back one character at a time, so the last qualifying `/` and the last qualifying `?v=`/`&v=` win;
  - `.` stops at a line terminator.
- **The callback token** `o_<mode>_<videoId>_<chatId>` is built for the two buttons and read back with `startsWith('o_')` and positional `split('_')` fields. `CallbackToken` models both sides. `JsText` supplies the JavaScript string operations they use: `split`, the decimal rendering of a number, and `${null}`.
- **Size arithmetic**: `FileSize` models `Math.round(bytes / 2^20)` and the `MAX_FILE_SIZE` comparison.
- **Text routing**: `TextGate` models the route for `/start`, the link gate regex, and the "I do not understand you." reply.
- **Temporary file names**: `TempFiles` models the names the downloads are written to.
- **The handlers**: `Handlers` models them as an effect trace, where every Telegram request and every unlink is an `Effect`. Trace functions give each handler's behaviour as a value. The class `Bot` performs the same steps one at a time on its `log`, and each of its methods is proved to append exactly its handler's trace.

What the handlers learn from outside is a parameter of the model:
- what `ytdl.getInfo` returns;
- how a download ends;
- the written file's size;
- `Date.now()`;
- `slugify(title)`;
- the menu message id;
- `MAX_FILE_SIZE`.

Facts about the code that a reader might not expect; the model keeps each of them:
- **Audio file names**: the audio file is named after the slugified title and the time, with no chat id (`app.js:101`). So two chats that download the same title in the same millisecond write the same file; `AudioFileNameInjective` shows that slug and time are all the name depends on.
- **Partial files**: a download that fails leaves its partial file in place. `DownloadBody` proves that an unlink happens exactly when the download finished.
- **Shorts links**: the text gate accepts only `watch?v=` and `youtu.be/` links. A bare `youtube.com/shorts/<id>` link is therefore answered "I do not understand you.", although the extractor alone would find its id.
- **Format choice**: the menu reports the size of the *first* format that has audio, video and a quality label. It is not the best format.
- **Repeated `v=`**: the query alternative's greedy `.*` backs off from the end of the line. So the capture follows the *last* `?v=` or `&v=` on that line that is followed by eleven id characters; a later `v=` with a shorter value does not count. For example, `youtube.com/watch?v=AAAAAAAAAAA&v=short` still yields `AAAAAAAAAAA`. This alternative is reached only when the `[^/]+/.+/` and `v/`/`embed/`/`e/` alternatives fail at that position. `LaterParamWins` proves the case of two full ids followed by a rest with no `/` and no `v=`.

## Model

| member | source | states |
|---|---|---|
| `YoutubeId.GetYoutubeVideoId` | utils.js:2-6 | total; a result is 11 characters from `[A-Za-z0-9_-]`; null exactly when the regex matches at no position; a result implies `youtube.com/` or `youtu.be/` occurs in the input |
| `YoutubeId.MatchAt` | utils.js:3 | the regex anchored at one position: a match captures a well-formed id after the start and needs one of the two host literals there |
| `YoutubeId.FirstMatch` | utils.js:4 | the scan from a position finds nothing exactly when no later position matches |
| `YoutubeId.PathBranch` | utils.js:3 | the `[^/]+/.+/` alternative captures only a well-formed id after the host |
| `YoutubeId.VEmbedBranch` | utils.js:3 | the `v/`, `embed/`, `e/` alternative captures only a well-formed id after the host |
| `YoutubeId.QueryBranch` | utils.js:3 | the `.*[?&]v=` alternative captures only a well-formed id after the host |
| `YoutubeId.LastTail` | utils.js:3 | greedy backtracking: the stop found is the largest in range where the tail matches; none exactly when no stop in range matches |
| `YoutubeId.LineEnd` | utils.js:3 | how far `.` reaches: no line terminator before it, a line terminator (or the end) at it |
| `YoutubeId.SegmentEnd` | utils.js:3 | how far `[^/]+` reaches: no `/` before it, a `/` (or the end) at it |
| `YoutubeId.LeftmostMatchWins` | utils.js:4-5 | the scan returns the match at the first matching position, whatever follows |
| `YoutubeId.ResultIsLeftmostMatch` | utils.js:4-5 | the function returns the id captured by the leftmost match |
| `YoutubeId.NoMatchInPrefix` | utils.js:3 | no match starts inside a prefix without a `y` |
| `YoutubeId.ShortLink` | utils.js:3 | `…youtu.be/<id><anything>` yields the id; characters after the 11th are ignored |
| `YoutubeId.ShortMatch` | utils.js:3 | at the host of `youtu.be/<id>` the long forms fail on the `.` and the short alternative captures the id right after `youtu.be/` |
| `YoutubeId.ShortLinkExample` | utils.js:3-5 | `https://youtu.be/dQw4w9WgXcQ` yields `dQw4w9WgXcQ` |
| `YoutubeId.ShortsLink` | utils.js:3 | `…youtube.com/shorts/<id><rest>` yields the id when `rest` has no `/` and no `v=` |
| `YoutubeId.EmbedLink` | utils.js:3 | `…youtube.com/embed/<id><rest>` yields the id when `rest` has no `/` |
| `YoutubeId.VLink` | utils.js:3 | `…youtube.com/v/<id><rest>` yields the id when `rest` has no `/` |
| `YoutubeId.WatchLink` | utils.js:3 | `…youtube.com/watch?v=<id><rest>` yields the id when `rest` has no `/` and no later `v=` |
| `YoutubeId.WatchQueryBranch` | utils.js:3 | on a clean watch link the greedy `.*` stops at the `?` of `watch?v=` |
| `YoutubeId.QueryBranchStopsAt` | utils.js:3 | greedy `.*[?&]v=` stops at a position where the tail matches, `.` reaches it and no later tail matches |
| `YoutubeId.WatchPathBranchesFail` | utils.js:3 | on a clean watch link the path and `v/`/`embed/` alternatives fail |
| `YoutubeId.ShortsInnerBranchesFail` | utils.js:3 | on a clean shorts link the three long-form alternatives fail, so the shorts alternative decides |
| `YoutubeId.ShortsPathFails` | utils.js:3 | on a shorts link whose rest has no `/`, the `[^/]+/.+/` alternative fails |
| `YoutubeId.ShortsVEmbedFails` | utils.js:3 | on a shorts link, `v/`, `embed/` and `e/` fail on the `s` of `shorts/` |
| `YoutubeId.ShortsQueryFails` | utils.js:3 | on a shorts link whose rest has no `v=` pair, the `.*[?&]v=` alternative fails |
| `YoutubeId.EmbedMatch` | utils.js:3 | on a clean embed link the match at the host captures the id after `embed/` |
| `YoutubeId.EmbedPathFails` | utils.js:3 | on an embed link whose rest has no `/`, the `[^/]+/.+/` alternative fails |
| `YoutubeId.EmbedAlternative` | utils.js:3 | on an embed link, `v/` is not there and `embed/` captures the id after it |
| `YoutubeId.VMatch` | utils.js:3 | on a clean `v/` link the match at the host captures the id after `v/` |
| `YoutubeId.WatchMatch` | utils.js:3 | on a clean watch link the match at the host captures the id after `watch?v=` |
| `YoutubeId.MatchAtLongForm` | utils.js:3 | with `youtube.com/` present, the long-form alternatives are tried in regex order |
| `YoutubeId.LinkAfterPrefix` | utils.js:4-5 | a match right after a `y`-free prefix is the result |
| `YoutubeId.PathBranchFails` | utils.js:3 | the path alternative fails when the first `/` after the host is the last one |
| `YoutubeId.PathBranchFailsWithoutSlash` | utils.js:3 | the path alternative fails when no `/` follows the host |
| `YoutubeId.LaterParamQueryBranch` | utils.js:3 | with `watch?v=<id1>&v=<id2>`, the greedy `.*` stops at the later `&` |
| `YoutubeId.LaterParamLayout` | utils.js:3 | where the host, the two ids and the `&v=` between them sit in `watch?v=<id1>&v=<id2>` |
| `YoutubeId.LaterParamMatch` | utils.js:3 | the match on `watch?v=<id1>&v=<id2>` captures the later id |
| `YoutubeId.LaterParamWins` | utils.js:3-5 | `…watch?v=<id1>&v=<id2>` yields `id2`: the last `v=` wins |
| `YoutubeId.FirstOfTwoLinks` | utils.js:4-5 | with two short links in one string, the first one's id is returned |
| `JsText.Split` | app.js:248 | `split` gives at least one field, no field holds the separator, two or more fields when the separator occurs, and joining the fields gives back the input |
| `JsText.SplitJoin` | app.js:248-252 | splitting the join of separator-free fields gives back the fields |
| `JsText.SplitAfterPiece` | app.js:248 | a separator-free piece before a separator is split off as the first field |
| `JsText.SplitWithoutSeparator` | app.js:248 | a string without the separator splits into itself |
| `JsText.Digits` | app.js:164 | the decimal digits of a natural number: non-empty, only digits, one digit exactly below 10 |
| `JsText.Decimal` | app.js:164 | `${n}` for an integer: non-empty, digits and a leading `-` exactly for negatives, never a `_` |
| `JsText.DigitsInjective` | app.js:35 | distinct natural numbers have distinct digit strings |
| `JsText.DecimalInjective` | app.js:35 | distinct integers render differently |
| `CallbackToken.Encode` | app.js:164-170 | the token begins with `o_`, so the callback listener accepts it (its fields: `EncodeIsJoin`) |
| `CallbackToken.EncodeIsJoin` | app.js:164-170 | the token is the `_`-join of `o`, the mode, the id and the chat id |
| `CallbackToken.JoinFour` | app.js:164 | joining four fields puts the separator between each neighbouring pair |
| `CallbackToken.Decode` | app.js:247-252 | data is read exactly when it starts with `o_`; option, id and chat are `_`-free split fields |
| `CallbackToken.DecodeEncode` | app.js:247-252 | decoding a token gives back its mode, id and chat when the id has no `_` |
| `CallbackToken.RoundTripIff` | app.js:247-252 | the decoded id is the encoded one exactly when that id has no `_` |
| `CallbackToken.DecodeAudioExample` | app.js:247-252 | `o_audio_dQw4w9WgXcQ_12345` decodes to audio, `dQw4w9WgXcQ`, `12345` |
| `CallbackToken.DecimalExample` | app.js:164 | `${12345}` is `12345` |
| `FileSize.ToMegabytes` | app.js:47 | `Math.round(bytes / 2^20)`: the result is within half a megabyte of the byte count, ties going up |
| `FileSize.RoundingIsNearest` | app.js:158 | any integer within half a megabyte (ties up) is the rounded value |
| `FileSize.ToMegabytesMonotonic` | app.js:47 | more bytes never round to fewer megabytes |
| `FileSize.TooBig` | app.js:49 | the definition of `fileSizeMB > MAX_FILE_SIZE` (also the comparison at app.js:183); `TooBigThreshold` states what it means in bytes |
| `FileSize.TooBigThreshold` | app.js:49 | a file is refused exactly when it has at least `MAX_FILE_SIZE` megabytes and a half |
| `TextGate.IsJsWhitespace` | app.js:219-220 | the definition of `\s`: the ECMAScript white-space and line-terminator characters |
| `TextGate.LinkCharAt` | app.js:219-220 | the definition of `[^&\s]+` as `test` needs it: one character that is neither `&` nor white space |
| `TextGate.WatchAt` | app.js:219-220 | the definition of the watch alternative at one position: an optional `m.` or `www.`, then `youtube.com/watch?v=` and `[^&\s]+` |
| `TextGate.ShortAt` | app.js:219-220 | the definition of `youtu\.be\/[^&\s]+` at one position |
| `TextGate.GateAt` | app.js:219-220 | the definition of the gate regex anchored at one position: either alternative, each behind its own `https?:\/\/` |
| `TextGate.Gate` | app.js:237 | the definition of `youtubeRegex.test(text)`: the gate matches at some position. `WatchLinkPassesGate`, `ShortLinkRoutes` and `ShortsLinkFailsGate` state what it accepts and refuses |
| `TextGate.RouteOf` | app.js:222-242 | `/start` greets; otherwise the gate decides between the options flow (with the extracted id) and "I do not understand you." |
| `TextGate.ShortLinkRoutes` | app.js:237-240 | `http(s)://youtu.be/<id>…` passes the gate and is routed with that id |
| `TextGate.WatchLinkPassesGate` | app.js:219-220 | `http(s)://` then `youtube.com/watch?v=<id>…`, bare or behind `m.` or `www.`, passes the gate |
| `TextGate.WatchLinkRoutes` | app.js:237-240 | such a watch link is routed with its id |
| `TextGate.ShortsNoGateAt` | app.js:219-220 | the gate matches at no position of `https://youtube.com/shorts/<id>` |
| `TextGate.ShortsLinkFailsGate` | app.js:219-220 | `https://youtube.com/shorts/<id>` fails the gate |
| `TextGate.ShortsLinkNotUnderstood` | app.js:242 | that shorts link is answered "I do not understand you." |
| `TempFiles.TempName` | app.js:35 | the shared template: the name starts with the prefix followed by `x` and a `_`, and ends with the suffix (the same template at app.js:101) |
| `TempFiles.VideoFileName` | app.js:35 | the definition of the video name as the template with `video_`, the chat id and `.mp4`; `VideoFileNameInjective` states what it determines |
| `TempFiles.AudioFileName` | app.js:101 | the definition of the audio name as the template with `audio_`, the slug and `.mp3`; `AudioFileNameInjective` states what it determines |
| `TempFiles.VideoFileNameInjective` | app.js:35 | distinct (chat, timestamp) pairs give distinct video file names |
| `TempFiles.AudioFileNameInjective` | app.js:101 | distinct (slug, timestamp) pairs give distinct audio file names |
| `TempFiles.TemplateInjective` | app.js:35 | a name of the form `<prefix><x>_<timestamp><suffix>` determines `x` and the timestamp, because a decimal has no `_` |
| `TempFiles.VideoAndAudioNamesDiffer` | app.js:35 | a video file never shares its name with an audio file |
| `Handlers.Combined` | app.js:149 | the definition of the `find` predicate: audio, video and a non-empty (truthy) quality label |
| `Handlers.FindCombined` | app.js:148-150 | `find` gives the first format with audio, video and a quality label; none exactly when no format qualifies |
| `Handlers.FirstCombinedUnique` | app.js:148-150 | the first qualifying format is unique, so `find` has one answer |
| `Handlers.ModeOf` | app.js:28 | only the exact options `video` and `audio` select a download |
| `Handlers.QualityOptionsTrace` | app.js:142-213 | exactly one message to the chat: "Error occurred" exactly when info is missing or no format qualifies; otherwise "too big" or the menu, whose size is within the limit |
| `Handlers.QualityOptionsAdmission` | app.js:183-207 | given the first qualifying format: "too big" exactly when its size rounds above the limit, otherwise the menu with the rounded size and the two tokens |
| `Handlers.VideoFinishTrace` | app.js:39-72 | deletes "Downloading started", then sends "Finished". Over the limit: "Finished" is deleted, then "too big" is sent and no video. Within the limit: the video is sent, then "Finished" is deleted. The unlink comes last and only there, and every other request goes to the chat |
| `Handlers.AudioFinishTrace` | app.js:105-119 | the same opening steps; the audio is always sent with no size check, then "Finished" is deleted, then the file is unlinked |
| `Handlers.SixHundredMegabyteVideoRefused` | app.js:39-62 | a 600 MB video under a 50 MB limit: "Downloading started" deleted, "Finished" sent and deleted, "too big" sent, file unlinked, and nothing else |
| `Handlers.DownloadBody` | app.js:28-139 | an unlink happens exactly when the option is `video` or `audio` and the download finished; it is of the matching file name and comes last; a video goes out only for `video` within the limit; other options issue nothing |
| `Handlers.DownloadBodyDelivers` | app.js:39-119 | a finished download with a known option has five requests with "Finished" second; the video goes out exactly when the option is `video` and the size is within the limit; the audio always goes out for `audio` |
| `Handlers.DownloadBodyFailures` | app.js:75-137 | a download that does not finish: a failing source gets exactly the mode's "Error downloading" message, a throw exactly the "Unexpected error" one, a failing write nothing |
| `Handlers.CallbackTrace` | app.js:246-256 | issues something exactly when the data starts with `o_` and has a chat field. It then starts with "Downloading started" to that chat, followed by the deletion of the menu |
| `Handlers.CallbackUnlinks` | app.js:247-253 | a callback removes a file exactly when its token has a chat field, its option is `video` or `audio`, and the download finished |
| `Handlers.CallbackAddressesOneChat` | app.js:249-254 | every request of a callback goes to the chat in field 3 of the token, which holds no `_` |
| `Handlers.TextTrace` | app.js:216-243 | `/start` gives the sticker and greeting; text failing the gate gives exactly "I do not understand you."; text passing it gives the options flow for the extracted id |
| `Handlers.ShortLinkOffersBothModes` | app.js:237-239 | a `youtu.be` link of a small enough video gets the menu, and its two tokens decode back to the mode, the id and the chat |
| `Handlers.VideoButtonTrace` | app.js:246-254 | pressing the video button of that menu, with a small enough finished download, issues the full trace from "Downloading started" to the unlink |
| `Handlers.Bot.constructor` | app.js:9-11 | a fresh bot has the configured limit and has issued nothing |
| `Handlers.Bot.SendQualityOptions` | app.js:142-213 | appends exactly the trace of `sendQualityOptions` |
| `Handlers.Bot.OnVideoFinish` | app.js:39-72 | appends exactly the video finish trace |
| `Handlers.Bot.OnAudioFinish` | app.js:105-119 | appends exactly the audio finish trace |
| `Handlers.Bot.ContinueDownload` | app.js:28-139 | appends exactly what the download issues after its first `await` |
| `Handlers.Bot.DownloadAndSendYtVideo` | app.js:22-140 | appends "Downloading started" and then that download trace |
| `Handlers.Bot.OnText` | app.js:216-243 | appends exactly the text handler's trace |
| `Handlers.Bot.OnCallbackQuery` | app.js:246-256 | appends exactly the callback handler's trace |

## Left out

- Telegram requests are effects in a log, and each one is taken to succeed. A request that fails is not modelled: the failures that `try`/`catch` turns into "Error occurred", and the unhandled rejections in listeners. The same goes for polling, `setMyCommands` and the `polling_error` handler.
- The `ytdl` streams, `ytdl.getInfo` and `video.destroy()` are network calls, so their results are parameters. So are `fs.createWriteStream`, `statSync` and the `unlink` callbacks (which throw on error), which are file-system calls.
- Stream listeners run later, at some unknown time. The model records each handler's requests in the order it issues them. Interleaving across chats and across downloads is not modelled.
- The callback listener starts the download without `await`. The model therefore places the menu deletion right after "Downloading started..." and before the rest of the download. The message ids of "Downloading started..." and "Finished..." are implicit in the delete effects.
- A callback whose chat field is missing addresses `undefined`. Telegram rejects such requests, so the model issues nothing for it.
- `slugify(title)` is a library function, so the slug is a parameter.
- Message texts are represented by their effect constructors. This covers the HTML menu text with title, likes, author, `(lengthSeconds / 60).toFixed(2)` and `new Date(uploadDate)`, which are float and date formatting, as well as the username in the greeting and the sticker id.
- `contentLength` is taken as the integer `parseInt` returns. A missing length gives `NaN` in the source; that case is not modelled. `MAX_FILE_SIZE` is taken as an integer; a non-numeric value compares as `NaN` in the source.
- `Decimal` renders every integer in plain digits. JavaScript switches to exponent notation at 10^21, far above any chat id or millisecond timestamp.
- The link built for `ytdl` (`https://youtube.com/watch?v=${id}`) only selects what `ytdl` returns. Since those results are parameters, the link itself is not part of any effect.
- Telegram's 64-byte limit on `callback_data` is not modelled.
