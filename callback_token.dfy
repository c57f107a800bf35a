/**
 * The callback token carried by the two option buttons (app.js): built as
 * `o_<mode>_<videoId>_<chatId>` and read back with `startsWith('o_')` and positional
 * fields of `split('_')`.
 */
module CallbackToken {
  import opened Wrappers
  import opened JsText

  /** The two button choices. */
  datatype Mode = Video | Audio

  function ModeName(m: Mode): string {
    match m
    case Video => "video"
    case Audio => "audio"
  }

  /** `o_${mode}_${videoId}_${chatId}` for a numeric chat id. */
  function Encode(m: Mode, videoId: string, chatId: int): (token: string)
    ensures |token| >= 2 && token[..2] == "o_"
  {
    "o_" + ModeName(m) + "_" + videoId + "_" + Decimal(chatId)
  }

  /** What the callback handler reads: field 1, 2 and 3 of the split; a missing field is `undefined`. */
  datatype Callback = Callback(option: string, videoId: Option<string>, chatId: Option<string>)

  /**
   * The callback handler's reading of `msg.data`: ignored unless it starts with `o_`;
   * otherwise positional fields of `split('_')`.
   */
  function Decode(data: string): (r: Option<Callback>)
    ensures r.Some? <==> |data| >= 2 && data[..2] == "o_"
    ensures r.Some? ==> '_' !in r.value.option
    ensures r.Some? && r.value.videoId.Some? ==> '_' !in r.value.videoId.value
    ensures r.Some? && r.value.chatId.Some? ==> '_' !in r.value.chatId.value
  {
    if |data| >= 2 && data[..2] == "o_" then
      assert data[1] == '_';
      var fields := Split(data, '_');
      Some(Callback(fields[1], Field(fields, 2), Field(fields, 3)))
    else None
  }

  /** Joining four fields puts the separator between each neighbouring pair. */
  lemma JoinFour(a: string, b: string, c: string, d: string, sep: char)
    ensures Join([a, b, c, d], sep) == a + [sep] + b + [sep] + c + [sep] + d
  {
    assert [a, b, c, d][1..] == [b, c, d];
    assert [b, c, d][1..] == [c, d];
    assert [c, d][1..] == [d];
    calc {
      Join([a, b, c, d], sep);
      a + [sep] + Join([b, c, d], sep);
      a + [sep] + (b + [sep] + Join([c, d], sep));
      a + [sep] + (b + [sep] + (c + [sep] + d));
    }
  }

  /** A token is the underscore join of its four fields. */
  lemma EncodeIsJoin(m: Mode, videoId: string, chatId: int)
    ensures Encode(m, videoId, chatId) == Join(["o", ModeName(m), videoId, Decimal(chatId)], '_')
  {
    JoinFour("o", ModeName(m), videoId, Decimal(chatId), '_');
    assert "o_" == "o" + ['_'];
  }

  /** Decoding a token gives back its mode, video id and chat id when the id has no `_`. */
  lemma DecodeEncode(m: Mode, videoId: string, chatId: int)
    requires '_' !in videoId
    ensures Decode(Encode(m, videoId, chatId)) == Some(Callback(ModeName(m), Some(videoId), Some(Decimal(chatId))))
  {
    var fields := ["o", ModeName(m), videoId, Decimal(chatId)];
    EncodeIsJoin(m, videoId, chatId);
    assert forall i :: 0 <= i < |fields| ==> '_' !in fields[i];
    SplitJoin(fields, '_');
  }

  /**
   * The round trip holds exactly when the id has no `_`: the id alphabet allows `_`, and an id
   * containing one is cut at it, so the decoded video id is no longer the id that was sent.
   */
  lemma RoundTripIff(m: Mode, videoId: string, chatId: int)
    ensures Decode(Encode(m, videoId, chatId)).Some?
    ensures Decode(Encode(m, videoId, chatId)).value.videoId == Some(videoId) <==> '_' !in videoId
  {
    if '_' !in videoId {
      DecodeEncode(m, videoId, chatId);
    }
  }

  /** The token `o_audio_dQw4w9WgXcQ_12345` reads as an audio request for that video and chat. */
  lemma DecodeAudioExample()
    ensures Decode("o_audio_dQw4w9WgXcQ_12345") == Some(Callback("audio", Some("dQw4w9WgXcQ"), Some("12345")))
  {
    DecimalExample();
    assert '_' !in "dQw4w9WgXcQ";
    assert Encode(Audio, "dQw4w9WgXcQ", 12345) == "o_audio_dQw4w9WgXcQ_12345";
    DecodeEncode(Audio, "dQw4w9WgXcQ", 12345);
  }

  /** `${12345}` is `12345`. */
  lemma DecimalExample()
    ensures Decimal(12345) == "12345"
  {
    assert DigitChar(1) == '1' && DigitChar(2) == '2' && DigitChar(3) == '3';
    assert DigitChar(4) == '4' && DigitChar(5) == '5';
    assert Digits(1) == "1";
    assert Digits(12) == Digits(1) + "2";
    assert Digits(123) == Digits(12) + "3";
    assert Digits(1234) == Digits(123) + "4";
    assert Digits(12345) == Digits(1234) + "5";
  }
}
