// The bot's event handlers (app.js:22-256) as an abstract effect trace. Every
// Telegram request the handlers issue, and every file they unlink, is one
// `Effect`; a handler's behaviour is the sequence of effects it issues, in the
// order it issues them. Everything the handlers learn from the outside world
// (what `ytdl.getInfo` returns, how a download ends, the size of the written
// file, `Date.now()`, `slugify(title)`, the id of the menu message) is a
// parameter; every Telegram request is taken to succeed.
//
// Trace functions give the behaviour of each handler as a value; the class
// `Bot` performs the same steps one at a time on its `log`, and each of its
// methods is proved to append exactly the trace of its handler.

module Handlers {
  import opened Wrappers
  import opened JsText
  import opened CallbackToken
  import opened FileSize
  import opened TempFiles
  import TextGate
  import YoutubeId

  /** The fields of one entry of `info.formats` that the handlers read. */
  datatype Format = Format(hasAudio: bool, hasVideo: bool, qualityLabel: string, contentLength: int)

  /** The predicate given to `formats.find` (app.js:149); an empty quality label is falsy. */
  predicate Combined(f: Format) {
    f.hasAudio && f.hasVideo && f.qualityLabel != ""
  }

  /** `k` is the first index of `formats` holding a combined format. */
  predicate FirstCombinedAt(formats: seq<Format>, k: int) {
    0 <= k < |formats| && Combined(formats[k]) && forall i :: 0 <= i < k ==> !Combined(formats[i])
  }

  /** `Array.prototype.find` with that predicate: the index of the first match, if any. */
  function FindCombined(formats: seq<Format>): (r: Option<nat>)
    ensures r.Some? ==> FirstCombinedAt(formats, r.value)
    ensures r.None? <==> forall i :: 0 <= i < |formats| ==> !Combined(formats[i])
  {
    if |formats| == 0 then None
    else if Combined(formats[0]) then Some(0)
    else match FindCombined(formats[1..]) {
      case None => None
      case Some(k) => Some(k + 1)
    }
  }

  /** At most one index is the first combined one. */
  lemma FirstCombinedUnique(formats: seq<Format>, j: int, k: int)
    requires FirstCombinedAt(formats, j) && FirstCombinedAt(formats, k)
    ensures j == k
  {
    assert Combined(formats[j]) && Combined(formats[k]);
  }

  /** A chat, as the handlers address it: the decimal id, or the callback's chat field. */
  type Chat = string

  datatype Effect =
    | SendSticker(chat: Chat)                   // the greeting sticker
    | SendWelcome(chat: Chat)                   // "Welcome, ..."
    | SendNotUnderstood(chat: Chat)             // "I do not understand you."
    | SendOptions(chat: Chat, megabytes: int, videoToken: string, audioToken: string)
    | SendTooBig(chat: Chat)                    // "Video size is too big. ..."
    | SendErrorOccurred(chat: Chat)             // "Error occurred"
    | SendDownloadStarted(chat: Chat)           // "Downloading started..."
    | DeleteDownloadStarted(chat: Chat)
    | SendFinished(chat: Chat, mode: Mode)      // "Finished downloading, sending ... back..."
    | DeleteFinished(chat: Chat)
    | SendVideo(chat: Chat, path: string)
    | SendAudio(chat: Chat, path: string)
    | Unlink(file: string)
    | SendDownloadError(chat: Chat, mode: Mode) // "Error downloading the ... Please try again."
    | SendUnexpectedError(chat: Chat, mode: Mode)
    | DeleteMenu(chat: Chat, messageId: int)    // the message holding the two buttons

  /** How the download of one file ends, as seen by the handler. */
  datatype Download =
    | Finished(sizeBytes: nat) // the write stream emitted `finish`; the file has this size
    | SourceFailed             // the ytdl stream emitted `error`
    | WriteFailed              // the write stream emitted `error` (only logged)
    | Threw                    // `ytdl`, `ytdl.getInfo` or `createWriteStream` threw

  /** The mode an `option` field selects: only the exact words `video` and `audio` do. */
  function ModeOf(option: string): (m: Option<Mode>)
    ensures m.Some? <==> option == "video" || option == "audio"
    ensures m.Some? ==> ModeName(m.value) == option
  {
    if option == "video" then Some(Video)
    else if option == "audio" then Some(Audio)
    else None
  }

  /**
   * `sendQualityOptions(chatId, videoId)` (app.js:142-213); `info` is what `ytdl.getInfo`
   * returns for the watch link of `videoId`, None when it (or `ytdl`) throws.
   */
  function QualityOptionsTrace(chatId: int, videoId: Option<string>, info: Option<seq<Format>>, maxMegabytes: int): (r: seq<Effect>)
    ensures |r| == 1 && !r[0].Unlink? && r[0].chat == Decimal(chatId)
    ensures r[0].SendErrorOccurred? <==> info.None? || forall i :: 0 <= i < |info.value| ==> !Combined(info.value[i])
    ensures r[0].SendOptions? ==> r[0].megabytes <= maxMegabytes
    ensures r[0].SendErrorOccurred? || r[0].SendTooBig? || r[0].SendOptions?
  {
    var chat := Decimal(chatId);
    if info.None? then [SendErrorOccurred(chat)]
    else match FindCombined(info.value) {
      case None => [SendErrorOccurred(chat)]
      case Some(k) =>
        var mb := ToMegabytes(info.value[k].contentLength);
        if TooBig(mb, maxMegabytes) then [SendTooBig(chat)]
        else [SendOptions(chat, mb, Encode(Video, Interpolated(videoId), chatId), Encode(Audio, Interpolated(videoId), chatId))]
    }
  }

  /**
   * Pre-download admission: once the first combined format is known, exactly one message
   * goes out, "too big" when its size rounds above the limit, and otherwise the menu with
   * its rounded size and the two tokens.
   */
  lemma QualityOptionsAdmission(chatId: int, videoId: Option<string>, formats: seq<Format>, k: int, maxMegabytes: int)
    requires FirstCombinedAt(formats, k)
    ensures var size := formats[k].contentLength;
      QualityOptionsTrace(chatId, videoId, Some(formats), maxMegabytes) ==
        if size >= maxMegabytes * BytesPerMegabyte + HalfMegabyte then [SendTooBig(Decimal(chatId))]
        else [SendOptions(Decimal(chatId), ToMegabytes(size),
                          Encode(Video, Interpolated(videoId), chatId), Encode(Audio, Interpolated(videoId), chatId))]
  {
    var found := FindCombined(formats);
    FirstCombinedUnique(formats, found.value, k);
    TooBigThreshold(formats[k].contentLength, maxMegabytes);
  }

  /** The video `finish` listener (app.js:39-72) for a written file of `sizeBytes` bytes. */
  function VideoFinishTrace(chat: Chat, file: string, sizeBytes: nat, maxMegabytes: int): (r: seq<Effect>)
    ensures |r| == 5 && r[0] == DeleteDownloadStarted(chat) && r[1] == SendFinished(chat, Video)
    ensures r[4] == Unlink(file) && forall i :: 0 <= i < 4 ==> !r[i].Unlink? && r[i].chat == chat
    ensures SendVideo(chat, "./" + file) in r <==> sizeBytes < maxMegabytes * BytesPerMegabyte + HalfMegabyte
    ensures sizeBytes >= maxMegabytes * BytesPerMegabyte + HalfMegabyte ==>
              SendTooBig(chat) in r && forall i :: 0 <= i < |r| ==> !r[i].SendVideo?
    ensures forall i :: 0 <= i < |r| ==> !r[i].SendAudio?
    // "Finished..." is deleted before "too big" when the file is refused, after the video otherwise.
    ensures sizeBytes >= maxMegabytes * BytesPerMegabyte + HalfMegabyte ==>
              r[2] == DeleteFinished(chat) && r[3] == SendTooBig(chat)
    ensures sizeBytes < maxMegabytes * BytesPerMegabyte + HalfMegabyte ==>
              r[2] == SendVideo(chat, "./" + file) && r[3] == DeleteFinished(chat)
  {
    TooBigThreshold(sizeBytes, maxMegabytes);
    var start := [DeleteDownloadStarted(chat), SendFinished(chat, Video)];
    if TooBig(ToMegabytes(sizeBytes), maxMegabytes) then
      start + [DeleteFinished(chat), SendTooBig(chat), Unlink(file)]
    else
      start + [SendVideo(chat, "./" + file), DeleteFinished(chat), Unlink(file)]
  }

  /** A 600 MB video under a 50 MB limit: status message deleted, "too big" sent, file unlinked. */
  lemma SixHundredMegabyteVideoRefused(chat: Chat, file: string)
    ensures VideoFinishTrace(chat, file, 600 * BytesPerMegabyte, 50) ==
      [DeleteDownloadStarted(chat), SendFinished(chat, Video), DeleteFinished(chat), SendTooBig(chat), Unlink(file)]
  {
    var r := VideoFinishTrace(chat, file, 600 * BytesPerMegabyte, 50);
    assert 600 * BytesPerMegabyte >= 50 * BytesPerMegabyte + HalfMegabyte;
    assert r[2] == DeleteFinished(chat) && r[3] == SendTooBig(chat);
  }

  /** The audio `finish` listener (app.js:105-119): no size check, the audio always goes out. */
  function AudioFinishTrace(chat: Chat, file: string): (r: seq<Effect>)
    ensures |r| == 5 && r[0] == DeleteDownloadStarted(chat) && r[1] == SendFinished(chat, Audio)
    ensures r[4] == Unlink(file) && forall i :: 0 <= i < 4 ==> !r[i].Unlink? && r[i].chat == chat
    ensures SendAudio(chat, "./" + file) in r
    ensures r[2] == SendAudio(chat, "./" + file) && r[3] == DeleteFinished(chat)
    ensures forall i :: 0 <= i < |r| ==> !r[i].SendTooBig? && !r[i].SendVideo?
  {
    [DeleteDownloadStarted(chat), SendFinished(chat, Audio), SendAudio(chat, "./" + file),
     DeleteFinished(chat), Unlink(file)]
  }

  /**
   * What `downloadAndSendYtVideo(link, chat, option)` (app.js:22-140) issues after its
   * "Downloading started..." message; `now` is `Date.now()` and `slug` is `slugify(title)`.
   */
  function DownloadBody(chat: Chat, option: string, now: nat, slug: string, outcome: Download, maxMegabytes: int): (r: seq<Effect>)
    ensures (exists i :: 0 <= i < |r| && r[i].Unlink?) <==> ModeOf(option).Some? && outcome.Finished?
    ensures option == "video" && outcome.Finished? ==> r[|r| - 1] == Unlink(VideoFileName(chat, now))
    ensures option == "audio" && outcome.Finished? ==> r[|r| - 1] == Unlink(AudioFileName(slug, now))
    ensures forall i :: 0 <= i < |r| && r[i].SendVideo? ==>
              option == "video" && outcome.Finished? && outcome.sizeBytes < maxMegabytes * BytesPerMegabyte + HalfMegabyte
    ensures forall i :: 0 <= i < |r| && r[i].SendAudio? ==> option == "audio" && outcome.Finished?
    ensures ModeOf(option).None? ==> r == []
    ensures forall i :: 0 <= i < |r| && !r[i].Unlink? ==> r[i].chat == chat
  {
    match ModeOf(option) {
      case None => []
      case Some(mode) =>
        match outcome {
          case Finished(size) =>
            if mode == Video then VideoFinishTrace(chat, VideoFileName(chat, now), size, maxMegabytes)
            else AudioFinishTrace(chat, AudioFileName(slug, now))
          case SourceFailed => [SendDownloadError(chat, mode)]
          case WriteFailed => []
          case Threw => [SendUnexpectedError(chat, mode)]
        }
    }
  }

  /**
   * A download that does not finish: a failing source gets the "Error downloading" message,
   * a throw the "Unexpected error" one, and a failing write nothing at all.
   */
  lemma DownloadBodyFailures(chat: Chat, option: string, now: nat, slug: string, outcome: Download, maxMegabytes: int)
    requires ModeOf(option).Some? && !outcome.Finished?
    ensures var r := DownloadBody(chat, option, now, slug, outcome, maxMegabytes);
      && (outcome.SourceFailed? ==> r == [SendDownloadError(chat, ModeOf(option).value)])
      && (outcome.Threw? ==> r == [SendUnexpectedError(chat, ModeOf(option).value)])
      && (outcome.WriteFailed? ==> r == [])
  {
  }

  /**
   * A finished download goes out: "Finished..." as the second request, the video exactly
   * when it is within the limit, the audio always.
   */
  lemma DownloadBodyDelivers(chat: Chat, option: string, now: nat, slug: string, sizeBytes: nat, maxMegabytes: int)
    ensures var r := DownloadBody(chat, option, now, slug, Finished(sizeBytes), maxMegabytes);
      && (SendVideo(chat, "./" + VideoFileName(chat, now)) in r <==>
            option == "video" && sizeBytes < maxMegabytes * BytesPerMegabyte + HalfMegabyte)
      && (option == "audio" ==> SendAudio(chat, "./" + AudioFileName(slug, now)) in r)
      && (ModeOf(option).Some? ==> |r| == 5 && r[1] == SendFinished(chat, ModeOf(option).value))
  {
    var r := DownloadBody(chat, option, now, slug, Finished(sizeBytes), maxMegabytes);
    var video := "./" + VideoFileName(chat, now);
    if option == "video" {
      assert r == VideoFinishTrace(chat, VideoFileName(chat, now), sizeBytes, maxMegabytes);
    } else if option == "audio" {
      var audio := AudioFileName(slug, now);
      assert r == AudioFinishTrace(chat, audio);
      assert SendVideo(chat, video) !in r by {
        forall i | 0 <= i < |r| ensures r[i] != SendVideo(chat, video) {
          assert !r[i].SendVideo?;
        }
      }
    } else {
      assert r == [];
    }
  }

  /**
   * The `callback_query` listener (app.js:246-256) for data `data` on the menu message
   * `menuId`. The download is started without `await`, so its first request goes out and
   * the menu deletion is issued while the download waits for that request.
   */
  function CallbackTrace(data: string, menuId: int, now: nat, slug: string, outcome: Download, maxMegabytes: int): (r: seq<Effect>)
    ensures !(|data| >= 2 && data[..2] == "o_") ==> r == []
    ensures r != [] ==> |r| >= 2 && r[0].SendDownloadStarted? && r[1] == DeleteMenu(r[0].chat, menuId)
    // A token with a chat field starts a download for that chat; anything else issues nothing.
    ensures r != [] <==> Decode(data).Some? && Decode(data).value.chatId.Some?
    ensures r != [] ==> r[0] == SendDownloadStarted(Decode(data).value.chatId.value)
  {
    match Decode(data) {
      case None => []
      case Some(cb) =>
        match cb.chatId {
          case None => []
          case Some(chat) =>
            [SendDownloadStarted(chat), DeleteMenu(chat, menuId)] + DownloadBody(chat, cb.option, now, slug, outcome, maxMegabytes)
        }
    }
  }

  /**
   * A callback removes a file exactly when its token names a chat and a known option and the
   * download finished.
   */
  lemma CallbackUnlinks(data: string, menuId: int, now: nat, slug: string, outcome: Download, maxMegabytes: int)
    ensures var r := CallbackTrace(data, menuId, now, slug, outcome, maxMegabytes);
      (exists i :: 0 <= i < |r| && r[i].Unlink?) <==>
        Decode(data).Some? && Decode(data).value.chatId.Some? &&
        ModeOf(Decode(data).value.option).Some? && outcome.Finished?
  {
    var r := CallbackTrace(data, menuId, now, slug, outcome, maxMegabytes);
    if r != [] {
      var cb := Decode(data).value;
      var chat := cb.chatId.value;
      var body := DownloadBody(chat, cb.option, now, slug, outcome, maxMegabytes);
      assert r == [SendDownloadStarted(chat), DeleteMenu(chat, menuId)] + body;
      UnlinkAfterTwo(SendDownloadStarted(chat), DeleteMenu(chat, menuId), body);
    }
  }

  /** Two requests put in front of a trace add no unlink to it. */
  lemma UnlinkAfterTwo(a: Effect, b: Effect, body: seq<Effect>)
    requires !a.Unlink? && !b.Unlink?
    ensures (exists i :: 0 <= i < |[a, b] + body| && ([a, b] + body)[i].Unlink?) <==>
            (exists i :: 0 <= i < |body| && body[i].Unlink?)
  {
    var r := [a, b] + body;
    if exists i :: 0 <= i < |body| && body[i].Unlink? {
      var i :| 0 <= i < |body| && body[i].Unlink?;
      assert r[i + 2] == body[i];
    }
    if exists i :: 0 <= i < |r| && r[i].Unlink? {
      var i :| 0 <= i < |r| && r[i].Unlink?;
      assert body[i - 2] == r[i];
    }
  }

  /**
   * Every request a callback issues goes to the one chat named in its token, a chat
   * field without `_`; only the unlink is not addressed to a chat.
   */
  lemma CallbackAddressesOneChat(data: string, menuId: int, now: nat, slug: string, outcome: Download, maxMegabytes: int)
    ensures var r := CallbackTrace(data, menuId, now, slug, outcome, maxMegabytes);
      r != [] ==> && Decode(data).Some? && Decode(data).value.chatId == Some(r[0].chat)
                  && '_' !in r[0].chat
                  && forall i :: 0 <= i < |r| && !r[i].Unlink? ==> r[i].chat == r[0].chat
  {
    var r := CallbackTrace(data, menuId, now, slug, outcome, maxMegabytes);
    if r != [] {
      var cb := Decode(data).value;
      var chat := cb.chatId.value;
      var body := DownloadBody(chat, cb.option, now, slug, outcome, maxMegabytes);
      assert r == [SendDownloadStarted(chat), DeleteMenu(chat, menuId)] + body;
      forall i | 0 <= i < |r| && !r[i].Unlink?
        ensures r[i].chat == chat
      {
        if i >= 2 {
          assert r[i] == body[i - 2];
        }
      }
    }
  }

  /**
   * The `text` listener (app.js:216-243) for text `text` from chat `chatId`; `info` is what
   * `ytdl.getInfo` returns for the link built from the extracted id.
   */
  function TextTrace(text: string, chatId: int, info: Option<seq<Format>>, maxMegabytes: int): (r: seq<Effect>)
    ensures text == "/start" <==> r == [SendSticker(Decimal(chatId)), SendWelcome(Decimal(chatId))]
    ensures r == [SendNotUnderstood(Decimal(chatId))] <==> text != "/start" && !TextGate.Gate(text)
    ensures text != "/start" && TextGate.Gate(text) ==>
              r == QualityOptionsTrace(chatId, YoutubeId.GetYoutubeVideoId(text), info, maxMegabytes)
  {
    var chat := Decimal(chatId);
    match TextGate.RouteOf(text) {
      case Welcome => [SendSticker(chat), SendWelcome(chat)]
      case Options(videoId) => QualityOptionsTrace(chatId, videoId, info, maxMegabytes)
      case NotUnderstood => [SendNotUnderstood(chat)]
    }
  }

  /**
   * A `youtu.be` link whose video has a small enough combined format yields the menu, and
   * each of its two tokens decodes back to its mode, the id and the chat.
   */
  lemma ShortLinkOffersBothModes(scheme: string, id: string, rest: string, chatId: int,
                                 formats: seq<Format>, k: int, maxMegabytes: int)
    requires scheme == "http://" || scheme == "https://"
    requires YoutubeId.IsVideoId(id) && '_' !in id
    requires FirstCombinedAt(formats, k)
    requires formats[k].contentLength < maxMegabytes * BytesPerMegabyte + HalfMegabyte
    ensures var r := TextTrace(scheme + "youtu.be/" + id + rest, chatId, Some(formats), maxMegabytes);
      |r| == 1 && r[0].SendOptions? &&
      r[0].megabytes == ToMegabytes(formats[k].contentLength) &&
      Decode(r[0].videoToken) == Some(Callback("video", Some(id), Some(Decimal(chatId)))) &&
      Decode(r[0].audioToken) == Some(Callback("audio", Some(id), Some(Decimal(chatId))))
  {
    var text := scheme + "youtu.be/" + id + rest;
    TextGate.ShortLinkRoutes(scheme, id, rest);
    QualityOptionsAdmission(chatId, Some(id), formats, k, maxMegabytes);
    DecodeEncode(Video, id, chatId);
    DecodeEncode(Audio, id, chatId);
  }

  /**
   * Pressing the video button of that menu, with a download that finishes small enough,
   * issues this whole trace: the file is sent, then unlinked last.
   */
  lemma VideoButtonTrace(id: string, chatId: int, menuId: int, now: nat, slug: string,
                         sizeBytes: nat, maxMegabytes: int)
    requires '_' !in id
    requires sizeBytes < maxMegabytes * BytesPerMegabyte + HalfMegabyte
    ensures var c := Decimal(chatId);
      var file := VideoFileName(c, now);
      CallbackTrace(Encode(Video, id, chatId), menuId, now, slug, Finished(sizeBytes), maxMegabytes) ==
        [SendDownloadStarted(c), DeleteMenu(c, menuId), DeleteDownloadStarted(c), SendFinished(c, Video),
         SendVideo(c, "./" + file), DeleteFinished(c), Unlink(file)]
  {
    DecodeEncode(Video, id, chatId);
    TooBigThreshold(sizeBytes, maxMegabytes);
  }

  /** Appending two effects and then a trace is appending the three at once. */
  lemma AppendTwo(log: seq<Effect>, a: Effect, b: Effect, rest: seq<Effect>)
    ensures log + [a] + [b] + rest == log + ([a, b] + rest)
  {
  }

  /** Five single appends are one append of the five. */
  lemma AppendFive(log: seq<Effect>, a: Effect, b: Effect, c: Effect, d: Effect, e: Effect)
    ensures log + [a] + [b] + [c] + [d] + [e] == log + [a, b, c, d, e]
  {
  }

  /** The bot process: its size limit (`MAX_FILE_SIZE`) and every effect issued so far. */
  class Bot {
    const maxMegabytes: int
    var log: seq<Effect>

    constructor(maxMegabytes: int)
      ensures this.maxMegabytes == maxMegabytes && log == []
    {
      this.maxMegabytes := maxMegabytes;
      log := [];
    }

    /** Issue one request. */
    method Emit(e: Effect)
      modifies this
      ensures log == old(log) + [e]
    {
      log := log + [e];
    }

    method SendQualityOptions(chatId: int, videoId: Option<string>, info: Option<seq<Format>>)
      modifies this
      ensures log == old(log) + QualityOptionsTrace(chatId, videoId, info, maxMegabytes)
    {
      var chat := Decimal(chatId);
      if info.None? {
        Emit(SendErrorOccurred(chat));
        return;
      }
      var found := FindCombined(info.value);
      if found.None? {
        Emit(SendErrorOccurred(chat));
        return;
      }
      var megabytes := ToMegabytes(info.value[found.value].contentLength);
      if megabytes > maxMegabytes {
        Emit(SendTooBig(chat));
        return;
      }
      var videoToken := Encode(Video, Interpolated(videoId), chatId);
      var audioToken := Encode(Audio, Interpolated(videoId), chatId);
      Emit(SendOptions(chat, megabytes, videoToken, audioToken));
    }

    method OnVideoFinish(chat: Chat, file: string, sizeBytes: nat)
      modifies this
      ensures log == old(log) + VideoFinishTrace(chat, file, sizeBytes, maxMegabytes)
    {
      ghost var before := log;
      Emit(DeleteDownloadStarted(chat));
      Emit(SendFinished(chat, Video));
      var megabytes := ToMegabytes(sizeBytes);
      if megabytes > maxMegabytes {
        Emit(DeleteFinished(chat));
        Emit(SendTooBig(chat));
        Emit(Unlink(file));
        AppendFive(before, DeleteDownloadStarted(chat), SendFinished(chat, Video),
                   DeleteFinished(chat), SendTooBig(chat), Unlink(file));
        assert VideoFinishTrace(chat, file, sizeBytes, maxMegabytes) ==
          [DeleteDownloadStarted(chat), SendFinished(chat, Video), DeleteFinished(chat), SendTooBig(chat), Unlink(file)];
        return;
      }
      Emit(SendVideo(chat, "./" + file));
      Emit(DeleteFinished(chat));
      Emit(Unlink(file));
      AppendFive(before, DeleteDownloadStarted(chat), SendFinished(chat, Video),
                 SendVideo(chat, "./" + file), DeleteFinished(chat), Unlink(file));
      assert VideoFinishTrace(chat, file, sizeBytes, maxMegabytes) ==
        [DeleteDownloadStarted(chat), SendFinished(chat, Video), SendVideo(chat, "./" + file), DeleteFinished(chat), Unlink(file)];
    }

    method OnAudioFinish(chat: Chat, file: string)
      modifies this
      ensures log == old(log) + AudioFinishTrace(chat, file)
    {
      ghost var before := log;
      Emit(DeleteDownloadStarted(chat));
      Emit(SendFinished(chat, Audio));
      Emit(SendAudio(chat, "./" + file));
      Emit(DeleteFinished(chat));
      Emit(Unlink(file));
      AppendFive(before, DeleteDownloadStarted(chat), SendFinished(chat, Audio),
                 SendAudio(chat, "./" + file), DeleteFinished(chat), Unlink(file));
    }

    /** The part of `downloadAndSendYtVideo` after its first `await` resumes. */
    method ContinueDownload(chat: Chat, option: string, now: nat, slug: string, outcome: Download)
      modifies this
      ensures log == old(log) + DownloadBody(chat, option, now, slug, outcome, maxMegabytes)
    {
      if option == "video" || option == "audio" {
        var mode := if option == "video" then Video else Audio;
        match outcome {
          case Finished(size) =>
            if mode == Video {
              OnVideoFinish(chat, VideoFileName(chat, now), size);
            } else {
              OnAudioFinish(chat, AudioFileName(slug, now));
            }
          case SourceFailed =>
            Emit(SendDownloadError(chat, mode));
          case WriteFailed =>
          case Threw =>
            Emit(SendUnexpectedError(chat, mode));
        }
      }
    }

    method DownloadAndSendYtVideo(chat: Chat, option: string, now: nat, slug: string, outcome: Download)
      modifies this
      ensures log == old(log) + [SendDownloadStarted(chat)] + DownloadBody(chat, option, now, slug, outcome, maxMegabytes)
    {
      Emit(SendDownloadStarted(chat));
      ContinueDownload(chat, option, now, slug, outcome);
    }

    method OnText(text: string, chatId: int, info: Option<seq<Format>>)
      modifies this
      ensures log == old(log) + TextTrace(text, chatId, info, maxMegabytes)
    {
      var chat := Decimal(chatId);
      if text == "/start" {
        Emit(SendSticker(chat));
        Emit(SendWelcome(chat));
        return;
      }
      if TextGate.Gate(text) {
        var videoId := YoutubeId.GetYoutubeVideoId(text);
        SendQualityOptions(chatId, videoId, info);
        return;
      }
      Emit(SendNotUnderstood(chat));
    }

    method OnCallbackQuery(data: string, menuId: int, now: nat, slug: string, outcome: Download)
      modifies this
      ensures log == old(log) + CallbackTrace(data, menuId, now, slug, outcome, maxMegabytes)
    {
      // `startsWith('o_')` and the positional fields of `split('_')`
      var token := Decode(data);
      if token.Some? && token.value.chatId.Some? {
        var chat := token.value.chatId.value;
        ghost var before := log;
        // `downloadAndSendYtVideo` runs up to its first `await` ...
        Emit(SendDownloadStarted(chat));
        // ... then the listener issues the menu deletion ...
        Emit(DeleteMenu(chat, menuId));
        // ... and the download resumes.
        ContinueDownload(chat, token.value.option, now, slug, outcome);
        AppendTwo(before, SendDownloadStarted(chat), DeleteMenu(chat, menuId),
                  DownloadBody(chat, token.value.option, now, slug, outcome, maxMegabytes));
      }
    }
  }
}
