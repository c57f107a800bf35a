/**
 * Routing of an inbound text message (the `text` handler of app.js): `/start` greets, text that
 * passes the link gate regex
 *
 *   https?:\/\/(?:m\.|www\.)?youtube\.com\/watch\?v=[^&\s]+|https?:\/\/youtu\.be\/[^&\s]+
 *
 * (applied with `RegExp.prototype.test`, so anywhere in the text) goes to the options flow with
 * the id `getYoutubeVideoID` extracts, and anything else gets "I do not understand you.".
 */
module TextGate {
  import opened Wrappers
  import opened YoutubeId

  /** `\s`: the ECMAScript WhiteSpace and LineTerminator code points. */
  predicate IsJsWhitespace(c: char) {
    c == '\t' || c == '\n' || c == '\U{000B}' || c == '\U{000C}' || c == '\r' || c == ' '
    || c == '\U{00A0}' || c == '\U{1680}' || ('\U{2000}' <= c <= '\U{200A}')
    || c == '\U{2028}' || c == '\U{2029}' || c == '\U{202F}' || c == '\U{205F}'
    || c == '\U{3000}' || c == '\U{FEFF}'
  }

  /** `[^&\s]+` can start at `i` (for `test`, one character is enough). */
  predicate LinkCharAt(s: string, i: nat) {
    i < |s| && s[i] != '&' && !IsJsWhitespace(s[i])
  }

  /** `youtube\.com\/watch\?v=[^&\s]+` at `b`. */
  predicate WatchPathAt(s: string, b: nat) {
    HasAt(s, b, "youtube.com/watch?v=") && LinkCharAt(s, b + 20)
  }

  /** `(?:m\.|www\.)?youtube\.com\/watch\?v=[^&\s]+` at `a`. */
  predicate WatchAt(s: string, a: nat) {
    || WatchPathAt(s, a)
    || (HasAt(s, a, "m.") && WatchPathAt(s, a + 2))
    || (HasAt(s, a, "www.") && WatchPathAt(s, a + 4))
  }

  /** `youtu\.be\/[^&\s]+` at `a`. */
  predicate ShortAt(s: string, a: nat) {
    HasAt(s, a, "youtu.be/") && LinkCharAt(s, a + 9)
  }

  /** Either alternative of the gate, each behind its own `https?:\/\/`, starting at `p`. */
  predicate GateAt(s: string, p: nat) {
    || (HasAt(s, p, "http://") && (WatchAt(s, p + 7) || ShortAt(s, p + 7)))
    || (HasAt(s, p, "https://") && (WatchAt(s, p + 8) || ShortAt(s, p + 8)))
  }

  /** `youtubeRegex.test(text)`. */
  predicate Gate(text: string) {
    exists p :: 0 <= p < |text| && GateAt(text, p)
  }

  /** Where the `text` handler sends a message. */
  datatype Route =
    | Welcome                           // `/start`: sticker and greeting
    | Options(videoId: Option<string>)  // the gate passed: `sendQualityOptions(chatId, getYoutubeVideoID(text))`
    | NotUnderstood                     // "I do not understand you."

  function RouteOf(text: string): (r: Route)
    ensures r == Welcome <==> text == "/start"
    ensures r.Options? <==> text != "/start" && Gate(text)
    ensures r.Options? ==> r.videoId == GetYoutubeVideoId(text)
  {
    if text == "/start" then Welcome
    else if Gate(text) then Options(GetYoutubeVideoId(text))
    else NotUnderstood
  }

  /** `http(s)://youtu.be/<id><rest>` passes the gate and is routed with that id. */
  lemma ShortLinkRoutes(scheme: string, id: string, rest: string)
    requires scheme == "http://" || scheme == "https://"
    requires IsVideoId(id)
    ensures RouteOf(scheme + "youtu.be/" + id + rest) == Options(Some(id))
  {
    var s := scheme + "youtu.be/" + id + rest;
    var a := |scheme|;
    Layout(scheme, "youtu.be/", id, rest);
    assert s[..a] == scheme;
    assert HasAt(s, 0, scheme) by {
      assert s[0..a] == s[..a];
    }
    assert s[a + 9] == id[0];
    assert GateAt(s, 0);
    ShortLink(scheme, id, rest);
  }

  /** A scheme followed by a passing alternative is a gate match at the start. */
  lemma GateAtStart(s: string, scheme: string)
    requires scheme == "http://" || scheme == "https://"
    requires HasAt(s, 0, scheme)
    requires WatchAt(s, |scheme|) || ShortAt(s, |scheme|)
    ensures Gate(s)
  {
    assert GateAt(s, 0);
  }

  /** An id character is neither `&` nor white space, so `[^&\s]+` can start on it. */
  lemma IdCharIsLinkChar(s: string, i: nat)
    requires i < |s| && IsIdChar(s[i])
    ensures LinkCharAt(s, i)
  {
  }

  /** `youtube.com/watch?v=<id>` right after any prefix `pre` is a `WatchPathAt` match. */
  lemma WatchPathAfter(pre: string, id: string, rest: string, b: nat)
    requires IsVideoId(id) && b == |pre|
    ensures WatchPathAt(pre + "youtube.com/watch?v=" + id + rest, b)
  {
    var s := pre + "youtube.com/watch?v=" + id + rest;
    Layout(pre, "youtube.com/watch?v=", id, rest);
    assert s[|pre| + 20] == id[0];
    IdCharIsLinkChar(s, |pre| + 20);
  }

  /** The first two parts of `x + y + z` sit at 0 and at `|x|`. */
  lemma LeadingParts(x: string, y: string, z: string)
    ensures HasAt(x + y + z, 0, x) && HasAt(x + y + z, |x|, y)
  {
    var s := x + y + z;
    assert s[0..|x|] == x;
    assert s[|x|..|x| + |y|] == y;
  }

  /** `http(s)://[m.|www.]youtube.com/watch?v=<id><rest>` passes the gate. */
  lemma WatchLinkPassesGate(scheme: string, host: string, id: string, rest: string)
    requires scheme == "http://" || scheme == "https://"
    requires host == "" || host == "m." || host == "www."
    requires IsVideoId(id)
    ensures Gate(scheme + host + "youtube.com/watch?v=" + id + rest)
  {
    var tail := "youtube.com/watch?v=" + id + rest;
    var s := scheme + host + "youtube.com/watch?v=" + id + rest;
    var a := |scheme|;
    assert s == scheme + host + tail;
    LeadingParts(scheme, host, tail);
    if host == "" {
      WatchPathAfter(scheme + host, id, rest, a);
    } else if host == "m." {
      WatchPathAfter(scheme + host, id, rest, a + 2);
    } else {
      WatchPathAfter(scheme + host, id, rest, a + 4);
    }
    GateAtStart(s, scheme);
  }

  /** `http(s)://[m.|www.]youtube.com/watch?v=<id><rest>` is routed with that id. */
  lemma WatchLinkRoutes(scheme: string, host: string, id: string, rest: string)
    requires scheme == "http://" || scheme == "https://"
    requires host == "" || host == "m." || host == "www."
    requires IsVideoId(id)
    requires '/' !in rest && NoVParam(rest)
    ensures RouteOf(scheme + host + "youtube.com/watch?v=" + id + rest) == Options(Some(id))
  {
    WatchLinkPassesGate(scheme, host, id, rest);
    assert scheme + host + "youtube.com/watch?v=" + id + rest == (scheme + host) + "youtube.com/watch?v=" + id + rest;
    WatchLink(scheme + host, id, rest);
  }

  /** No gate match starts anywhere in `https://youtube.com/shorts/<id>`. */
  lemma ShortsNoGateAt(s: string, p: nat)
    requires |s| == 38 && s[..27] == "https://youtube.com/shorts/" && IsVideoId(s[27..])
    requires p < |s|
    ensures !GateAt(s, p)
  {
    var lit := "https://youtube.com/shorts/";
    if p == 0 {
      assert s[4] == lit[4] && s[8] == lit[8] && s[13] == lit[13] && s[20] == lit[20];
      NotHasAt(s, 0, "http://", 4);
      NotHasAt(s, 8, "youtube.com/watch?v=", 12);
      NotHasAt(s, 8, "m.", 0);
      NotHasAt(s, 8, "www.", 0);
      NotHasAt(s, 8, "youtu.be/", 5);
    } else if p == 1 {
      assert s[1] == lit[1];
      NotHasAt(s, 1, "http://", 0);
      NotHasAt(s, 1, "https://", 0);
    } else {
      assert p + 4 < 27 ==> s[p + 4] == lit[p + 4];
      assert p + 5 < 27 ==> s[p + 5] == lit[p + 5];
      assert p + 4 >= 27 && p + 4 < |s| ==> s[p + 4] == s[27..][p + 4 - 27];
      assert p + 5 >= 27 && p + 5 < |s| ==> s[p + 5] == s[27..][p + 5 - 27];
      NotHasAt(s, p, "http://", 4);
      NotHasAt(s, p, "https://", 5);
    }
  }

  /** `https://youtube.com/shorts/<id>` does not pass the gate. */
  lemma ShortsLinkFailsGate(id: string)
    requires IsVideoId(id)
    ensures !Gate("https://youtube.com/shorts/" + id)
  {
    var s := "https://youtube.com/shorts/" + id;
    assert s[..27] == "https://youtube.com/shorts/" && s[27..] == id;
    forall p | 0 <= p < |s|
      ensures !GateAt(s, p)
    {
      ShortsNoGateAt(s, p);
    }
  }

  /**
   * A bare `shorts/` link fails the gate (it accepts only `watch?v=` and `youtu.be/` links), so it
   * is answered "I do not understand you." although `getYoutubeVideoID` would find its
   * id (`YoutubeId.ShortsLink`).
   */
  lemma ShortsLinkNotUnderstood(id: string)
    requires IsVideoId(id)
    ensures RouteOf("https://youtube.com/shorts/" + id) == NotUnderstood
  {
    var s := "https://youtube.com/shorts/" + id;
    ShortsLinkFailsGate(id);
    assert |s| != |"/start"|;
  }
}
