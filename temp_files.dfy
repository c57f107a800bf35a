// Names of the temporary files a download is written to (app.js:35, app.js:101).
// The clock (`Date.now()`) is a parameter: `now` is the millisecond timestamp
// read when the download starts.

module TempFiles {
  import opened JsText

  /**
   * The shape both names share, `<prefix><x>_${Date.now()}<suffix>`: the prefix, then `x`, then
   * a `_` and the timestamp in decimal, then the suffix.
   */
  function TempName(prefix: string, x: string, now: nat, suffix: string): (name: string)
    ensures |name| > |prefix| + |x| + |suffix|
    ensures name[..|prefix|] == prefix && name[|prefix|..|prefix| + |x|] == x
    ensures name[|prefix| + |x|] == '_' && name[|name| - |suffix|..] == suffix
  {
    prefix + x + "_" + Decimal(now) + suffix
  }

  /** `video_${chatId}_${Date.now()}.mp4`; the chat id is the decoded callback field. */
  function VideoFileName(chatId: string, now: nat): string {
    TempName("video_", chatId, now, ".mp4")
  }

  /** `audio_${slugify(title)}_${Date.now()}.mp3`; the slug is a parameter. */
  function AudioFileName(slug: string, now: nat): string {
    TempName("audio_", slug, now, ".mp3")
  }

  /**
   * Splitting at the last `_`: when neither tail holds a `_`, `a_d == b_e`
   * determines both halves.
   */
  lemma LastUnderscoreSplit(a: string, d: string, b: string, e: string)
    requires '_' !in d && '_' !in e
    requires a + "_" + d == b + "_" + e
    ensures a == b && d == e
  {
    var x := a + "_" + d;
    forall j | |a| < j < |x|
      ensures x[j] != '_'
    {
      assert x[j] == d[j - |a| - 1];
    }
    forall j | |b| < j < |x|
      ensures x[j] != '_'
    {
      assert x[j] == e[j - |b| - 1];
    }
    // The separator of each side is a `_`, so neither may sit inside the other's tail.
    assert x[|a|] == '_' && x[|b|] == '_';
    assert |a| == |b|;
    assert a == x[..|a|] && b == x[..|b|];
    assert d == x[|a| + 1..] && e == x[|b| + 1..];
  }

  /** Removing a known prefix and suffix from equal strings leaves equal middles. */
  lemma StripEnds(pre: string, u: string, v: string, suf: string)
    requires pre + u + suf == pre + v + suf
    ensures u == v
  {
    var x := pre + u + suf;
    assert u == x[|pre|..|pre| + |u|];
    assert v == x[|pre|..|pre| + |v|];
  }

  /** The part of a name between its prefix and its suffix. */
  lemma TempNameMiddle(pre: string, x: string, t: nat, suf: string)
    ensures TempName(pre, x, t, suf) == pre + (x + "_" + Decimal(t)) + suf
  {
    assert pre + x + "_" + Decimal(t) + suf == pre + (x + "_" + Decimal(t)) + suf;
  }

  /** A name `<pre><x>_<timestamp><suf>` determines `x` and the timestamp. */
  lemma TemplateInjective(pre: string, suf: string, x1: string, t1: nat, x2: string, t2: nat)
    requires TempName(pre, x1, t1, suf) == TempName(pre, x2, t2, suf)
    ensures x1 == x2 && t1 == t2
  {
    var m1 := x1 + "_" + Decimal(t1);
    var m2 := x2 + "_" + Decimal(t2);
    TempNameMiddle(pre, x1, t1, suf);
    TempNameMiddle(pre, x2, t2, suf);
    StripEnds(pre, m1, m2, suf);
    LastUnderscoreSplit(x1, Decimal(t1), x2, Decimal(t2));
    DecimalInjective(t1, t2);
  }

  /** Distinct (chat, timestamp) pairs give distinct video file names, for any chat string. */
  lemma VideoFileNameInjective(c1: string, t1: nat, c2: string, t2: nat)
    requires VideoFileName(c1, t1) == VideoFileName(c2, t2)
    ensures c1 == c2 && t1 == t2
  {
    TemplateInjective("video_", ".mp4", c1, t1, c2, t2);
  }

  /** Distinct (slug, timestamp) pairs give distinct audio file names. */
  lemma AudioFileNameInjective(s1: string, t1: nat, s2: string, t2: nat)
    requires AudioFileName(s1, t1) == AudioFileName(s2, t2)
    ensures s1 == s2 && t1 == t2
  {
    TemplateInjective("audio_", ".mp3", s1, t1, s2, t2);
  }

  /** A video file never shares its name with an audio file. */
  lemma VideoAndAudioNamesDiffer(chatId: string, slug: string, t1: nat, t2: nat)
    ensures VideoFileName(chatId, t1) != AudioFileName(slug, t2)
  {
    assert VideoFileName(chatId, t1)[..6] == "video_";
    assert AudioFileName(slug, t2)[..6] == "audio_";
  }
}
