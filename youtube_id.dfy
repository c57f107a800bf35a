/**
 * `getYoutubeVideoID` (utils.js): one `String.prototype.match` with the regex
 *
 *   (?:youtube\.com\/(?:[^\/]+\/.+\/|(?:v|e(?:mbed)?)\/|.*[?&]v=)|youtu\.be\/|youtube\.com\/shorts\/)([a-zA-Z0-9_-]{11})
 *
 * and no flags. A backtracking engine tries start positions left to right and, at each
 * one, the alternatives in the order they are written; the first success is the match and
 * its capture group is the result. The model follows that order exactly. The branch
 * functions return the index where the captured id starts; the id is the 11 characters
 * from there.
 */
module YoutubeId {
  import opened Wrappers

  const IdLength: nat := 11

  /** `[a-zA-Z0-9_-]` */
  predicate IsIdChar(c: char) {
    ('a' <= c <= 'z') || ('A' <= c <= 'Z') || ('0' <= c <= '9') || c == '_' || c == '-'
  }

  predicate IsVideoId(t: string) {
    |t| == IdLength && forall i :: 0 <= i < |t| ==> IsIdChar(t[i])
  }

  /** The characters `.` does not match when the `s` flag is absent. */
  predicate IsLineTerminator(c: char) {
    c == '\n' || c == '\r' || c == '\U{2028}' || c == '\U{2029}'
  }

  /** The literal `lit` occurs in `s` starting at index `i`. */
  predicate HasAt(s: string, i: nat, lit: string) {
    i + |lit| <= |s| && s[i..i + |lit|] == lit
  }

  /** One differing character rules a literal out. */
  lemma NotHasAt(s: string, x: nat, lit: string, i: nat)
    requires i < |lit|
    requires x + i < |s| ==> s[x + i] != lit[i]
    ensures !HasAt(s, x, lit)
  {
    if x + |lit| <= |s| {
      assert s[x..x + |lit|][i] == s[x + i];
    }
  }

  /** The capture group `([a-zA-Z0-9_-]{11})` can match at index `i`. */
  predicate IdAt(s: string, i: nat) {
    i + IdLength <= |s| && IsVideoId(s[i..i + IdLength])
  }

  /** The id group at `i`, when it matches there. */
  function IdFrom(s: string, i: nat): Option<nat> {
    if IdAt(s, i) then Some(i) else None
  }

  /** How far a `.*` or `.+` started at `i` can reach: the first line terminator at or after `i`, or the end. */
  function LineEnd(s: string, i: nat): (e: nat)
    requires i <= |s|
    ensures i <= e <= |s|
    ensures forall k :: i <= k < e ==> !IsLineTerminator(s[k])
    ensures e < |s| ==> IsLineTerminator(s[e])
    decreases |s| - i
  {
    if i == |s| || IsLineTerminator(s[i]) then i else LineEnd(s, i + 1)
  }

  /** How far `[^\/]+` started at `i` can reach: the first `/` at or after `i`, or the end. */
  function SegmentEnd(s: string, i: nat): (j: nat)
    requires i <= |s|
    ensures i <= j <= |s|
    ensures forall k :: i <= k < j ==> s[k] != '/'
    ensures j < |s| ==> s[j] == '/'
    decreases |s| - i
  {
    if i == |s| || s[i] == '/' then i else SegmentEnd(s, i + 1)
  }

  /** What a greedy wildcard has to be followed by in the two backtracking alternatives. */
  datatype Tail =
    | SlashId   // `\/` then the id group, after `.+`
    | ParamId   // `[?&]v=` then the id group, after `.*`

  /** The tail matches when the wildcard stops just before index `k`. */
  predicate TailAt(s: string, k: nat, t: Tail) {
    match t
    case SlashId => k < |s| && s[k] == '/' && IdAt(s, k + 1)
    case ParamId => k < |s| && (s[k] == '?' || s[k] == '&') && HasAt(s, k + 1, "v=") && IdAt(s, k + 3)
  }

  /** Where the id group starts once the tail matched at `k`. */
  function TailIdStart(k: nat, t: Tail): nat {
    match t
    case SlashId => k + 1
    case ParamId => k + 3
  }

  /**
   * Greedy backtracking: the wildcard first takes everything it can (up to `hi`) and gives
   * characters back one at a time, so the LARGEST stopping point `k` in [lo, hi) where the
   * tail matches wins.
   */
  function LastTail(s: string, t: Tail, lo: nat, hi: nat): (r: Option<nat>)
    requires hi <= |s|
    ensures r.Some? ==> lo <= r.value < hi && TailAt(s, r.value, t)
    ensures r.Some? ==> forall k :: r.value < k < hi ==> !TailAt(s, k, t)
    ensures r.None? <==> forall k :: lo <= k < hi ==> !TailAt(s, k, t)
    decreases hi
  {
    if hi <= lo then None
    else if TailAt(s, hi - 1, t) then Some(hi - 1)
    else LastTail(s, t, lo, hi - 1)
  }

  /** `[^\/]+\/.+\/` then the id, after `youtube.com/` ends at `a`. */
  function PathBranch(s: string, a: nat): (r: Option<nat>)
    requires a <= |s|
    ensures r.Some? ==> IdAt(s, r.value) && a < r.value
  {
    // `[^\/]+` cannot end before a `/`, so it takes the whole first segment
    var j := SegmentEnd(s, a);
    if j == a || j == |s| then None
    else
      match LastTail(s, SlashId, j + 2, LineEnd(s, j + 1))
      case Some(k) => IdFrom(s, TailIdStart(k, SlashId))
      case None => None
  }

  /** `(?:v|e(?:mbed)?)\/` then the id: `v/`, then `embed/` (the greedy `?`), then `e/`. */
  function VEmbedBranch(s: string, a: nat): (r: Option<nat>)
    ensures r.Some? ==> IdAt(s, r.value) && a < r.value
  {
    (if HasAt(s, a, "v/") then IdFrom(s, a + 2) else None)
      .OrElse(if HasAt(s, a, "embed/") then IdFrom(s, a + 6) else None)
      .OrElse(if HasAt(s, a, "e/") then IdFrom(s, a + 2) else None)
  }

  /** `.*[?&]v=` then the id. */
  function QueryBranch(s: string, a: nat): (r: Option<nat>)
    requires a <= |s|
    ensures r.Some? ==> IdAt(s, r.value) && a < r.value
  {
    match LastTail(s, ParamId, a, LineEnd(s, a))
    case Some(k) => IdFrom(s, TailIdStart(k, ParamId))
    case None => None
  }

  /** The whole regex anchored at start position `p`: the index of the captured id, if it matches there. */
  function MatchAt(s: string, p: nat): (r: Option<nat>)
    requires p <= |s|
    ensures r.Some? ==> IdAt(s, r.value) && p < r.value
    ensures r.Some? ==> HasAt(s, p, "youtube.com/") || HasAt(s, p, "youtu.be/")
  {
    assert HasAt(s, p, "youtube.com/shorts/") ==> HasAt(s, p, "youtube.com/") by {
      if HasAt(s, p, "youtube.com/shorts/") {
        assert s[p..p + 12] == s[p..p + 19][..12];
      }
    }
    var longForm :=
      if HasAt(s, p, "youtube.com/") then
        PathBranch(s, p + 12).OrElse(VEmbedBranch(s, p + 12)).OrElse(QueryBranch(s, p + 12))
      else None;
    longForm
      .OrElse(if HasAt(s, p, "youtu.be/") then IdFrom(s, p + 9) else None)
      .OrElse(if HasAt(s, p, "youtube.com/shorts/") then IdFrom(s, p + 19) else None)
  }

  /** The scan over start positions `p`, `p + 1`, ..., `|s|`: the first position that matches decides. */
  function FirstMatch(s: string, p: nat): (r: Option<nat>)
    requires p <= |s|
    ensures r.Some? ==> IdAt(s, r.value)
    ensures r.None? <==> forall q :: p <= q <= |s| ==> MatchAt(s, q).None?
    decreases |s| - p
  {
    var m := MatchAt(s, p);
    if m.Some? || p == |s| then m else FirstMatch(s, p + 1)
  }

  /** `getYoutubeVideoID(url)`: `match[1]`, or `null` when the regex matches nowhere. */
  function GetYoutubeVideoId(url: string): (r: Option<string>)
    ensures r.Some? ==> IsVideoId(r.value)
    ensures r.None? <==> forall p :: 0 <= p <= |url| ==> MatchAt(url, p).None?
    ensures r.Some? ==> exists p :: 0 <= p <= |url| && (HasAt(url, p, "youtube.com/") || HasAt(url, p, "youtu.be/"))
  {
    match FirstMatch(url, 0)
    case Some(i) => Some(url[i..i + IdLength])
    case None => None
  }

  /** The match that starts leftmost is the one returned, whatever follows it. */
  lemma {:induction false} LeftmostMatchWins(s: string, from: nat, p: nat)
    requires from <= p <= |s|
    requires MatchAt(s, p).Some?
    requires forall q :: from <= q < p ==> MatchAt(s, q).None?
    ensures FirstMatch(s, from) == MatchAt(s, p)
    decreases p - from
  {
    if from < p {
      assert MatchAt(s, from).None?;
      assert FirstMatch(s, from) == FirstMatch(s, from + 1);
      LeftmostMatchWins(s, from + 1, p);
    } else {
      assert MatchAt(s, from).Some?;
    }
  }

  /** `GetYoutubeVideoId` returns the id of the leftmost match. */
  lemma ResultIsLeftmostMatch(s: string, p: nat)
    requires p <= |s|
    requires MatchAt(s, p).Some?
    requires forall q :: 0 <= q < p ==> MatchAt(s, q).None?
    ensures GetYoutubeVideoId(s) == Some(s[MatchAt(s, p).value..MatchAt(s, p).value + IdLength])
  {
    LeftmostMatchWins(s, 0, p);
  }

  // ----- The clean link shapes -----

  /** No match can start inside a prefix that has no `y`: both host literals start with `y`. */
  lemma NoMatchInPrefix(pre: string, s: string)
    requires 'y' !in pre
    requires |pre| <= |s| && s[..|pre|] == pre
    ensures forall q :: 0 <= q < |pre| ==> MatchAt(s, q).None?
  {
    forall q | 0 <= q < |pre|
      ensures MatchAt(s, q).None?
    {
      assert s[q] == pre[q];
      assert q + 9 <= |s| ==> s[q..q + 9][0] == s[q];
      assert q + 12 <= |s| ==> s[q..q + 12][0] == s[q];
    }
  }

  /** Where each piece of `pre + lit + id + rest` sits. */
  lemma Layout(pre: string, lit: string, id: string, rest: string)
    ensures var s := pre + lit + id + rest;
      && s[..|pre|] == pre
      && HasAt(s, |pre|, lit)
      && s[|pre| + |lit|..|pre| + |lit| + |id|] == id
      && (forall i :: 0 <= i < |lit| ==> s[|pre| + i] == lit[i])
  {
    var s := pre + lit + id + rest;
    assert s == pre + (lit + id + rest);
    assert s[|pre|..] == lit + id + rest;
    assert s[|pre|..|pre| + |lit|] == (lit + id + rest)[..|lit|];
    assert s[|pre| + |lit|..] == id + rest;
    assert s[|pre| + |lit|..|pre| + |lit| + |id|] == (id + rest)[..|id|];
  }

  /** No `/` from index `from` to the end. */
  predicate NoSlashFrom(s: string, from: nat) {
    forall k :: from <= k < |s| ==> s[k] != '/'
  }

  /** No `?v=`/`&v=` followed by an id from index `from` to the end. */
  predicate NoParamFrom(s: string, from: nat) {
    forall k :: from <= k < |s| ==> !TailAt(s, k, ParamId)
  }

  /** `rest` has no `v=` pair, so it holds no `?v=`/`&v=` parameter. */
  predicate NoVParam(rest: string) {
    forall i :: 0 <= i && i + 1 < |rest| ==> !(rest[i] == 'v' && rest[i + 1] == '=')
  }

  /** An id followed by `rest` adds no `/` when `rest` has none. */
  lemma IdRestNoSlash(head: string, id: string, rest: string)
    requires IsVideoId(id)
    requires '/' !in rest
    ensures NoSlashFrom(head + id + rest, |head|)
  {
    var s := head + id + rest;
    forall k | |head| <= k < |s| ensures s[k] != '/' {
      if k < |head| + |id| {
        assert s[k] == id[k - |head|];
      } else {
        assert s[k] == rest[k - |head| - |id|];
      }
    }
  }

  /** An id followed by `rest` adds no `?v=`/`&v=` parameter when `rest` has no `v=`. */
  lemma IdRestNoParam(head: string, id: string, rest: string)
    requires IsVideoId(id)
    requires NoVParam(rest)
    ensures NoParamFrom(head + id + rest, |head|)
  {
    var s := head + id + rest;
    forall k | |head| <= k < |s| ensures !TailAt(s, k, ParamId) {
      if k < |head| + |id| {
        assert s[k] == id[k - |head|];
      } else if k + 3 <= |s| {
        var i := k - |head| - |id|;
        assert s[k + 1] == rest[i + 1] && s[k + 2] == rest[i + 2];
        assert s[k + 1..k + 3] == [s[k + 1], s[k + 2]];
      }
    }
  }

  /** After `youtube.com/` ends at `a`, the path branch fails when the first `/` is the last one. */
  lemma PathBranchFails(s: string, a: nat, j: nat)
    requires a < j < |s| && s[j] == '/'
    requires forall k :: a <= k < j ==> s[k] != '/'
    requires NoSlashFrom(s, j + 1)
    ensures PathBranch(s, a) == None
  {
    assert SegmentEnd(s, a) == j;
    var r := LastTail(s, SlashId, j + 2, LineEnd(s, j + 1));
    assert r.None?;
  }

  /** After `youtube.com/` ends at `a`, the path branch fails when no `/` follows at all. */
  lemma PathBranchFailsWithoutSlash(s: string, a: nat)
    requires a <= |s|
    requires NoSlashFrom(s, a)
    ensures PathBranch(s, a) == None
  {
    assert SegmentEnd(s, a) == |s|;
  }

  /** At the start of `youtu.be/<id>` the long forms fail on the `.` and the short form matches. */
  lemma ShortMatch(pre: string, id: string, rest: string)
    requires IsVideoId(id)
    ensures MatchAt(pre + "youtu.be/" + id + rest, |pre|) == Some(|pre| + 9)
  {
    var s := pre + "youtu.be/" + id + rest;
    var p := |pre|;
    Layout(pre, "youtu.be/", id, rest);
    assert s[p + 5] == '.';
    NotHasAt(s, p, "youtube.com/", 5);
    NotHasAt(s, p, "youtube.com/shorts/", 5);
    assert IdAt(s, p + 9);
  }

  /** `…youtu.be/<id><anything>` yields the id; characters after the 11th are ignored. */
  lemma ShortLink(pre: string, id: string, rest: string)
    requires 'y' !in pre
    requires IsVideoId(id)
    ensures GetYoutubeVideoId(pre + "youtu.be/" + id + rest) == Some(id)
  {
    ShortMatch(pre, id, rest);
    LinkAfterPrefix(pre, "youtu.be/", id, rest);
  }

  /** With `youtube.com/` at `p`, the match there is decided by the alternatives in regex order. */
  lemma MatchAtLongForm(s: string, p: nat)
    requires p + 12 <= |s| && HasAt(s, p, "youtube.com/")
    ensures MatchAt(s, p) ==
      PathBranch(s, p + 12).OrElse(VEmbedBranch(s, p + 12)).OrElse(QueryBranch(s, p + 12))
        .OrElse(if HasAt(s, p, "youtube.com/shorts/") then IdFrom(s, p + 19) else None)
  {
    assert s[p..p + 12][5] == 'b';
    assert p + 9 <= |s| && s[p..p + 9][5] == 'b';
  }

  /** On a clean `shorts/` link the path branch fails: `shorts/` is the only `/` after the host. */
  lemma ShortsPathFails(pre: string, id: string, rest: string)
    requires IsVideoId(id)
    requires '/' !in rest
    ensures PathBranch(pre + "youtube.com/shorts/" + id + rest, |pre| + 12) == None
  {
    var lit := "youtube.com/shorts/";
    var s := pre + lit + id + rest;
    var a := |pre| + 12;
    Layout(pre, lit, id, rest);
    assert s == (pre + lit) + id + rest;
    IdRestNoSlash(pre + lit, id, rest);
    PathBranchFails(s, a, a + 6);
  }

  /** On a clean `shorts/` link `v/`, `embed/` and `e/` fail on the `s`. */
  lemma ShortsVEmbedFails(pre: string, id: string, rest: string)
    ensures VEmbedBranch(pre + "youtube.com/shorts/" + id + rest, |pre| + 12) == None
  {
    var s := pre + "youtube.com/shorts/" + id + rest;
    var a := |pre| + 12;
    Layout(pre, "youtube.com/shorts/", id, rest);
    assert s[a] == 's';
    NotHasAt(s, a, "v/", 0);
    NotHasAt(s, a, "embed/", 0);
    NotHasAt(s, a, "e/", 0);
  }

  /** On a clean `shorts/` link without a `v=` pair the query branch fails. */
  lemma ShortsQueryFails(pre: string, id: string, rest: string)
    requires IsVideoId(id)
    requires NoVParam(rest)
    ensures QueryBranch(pre + "youtube.com/shorts/" + id + rest, |pre| + 12) == None
  {
    var lit := "youtube.com/shorts/";
    var s := pre + lit + id + rest;
    var p := |pre|;
    var a := p + 12;
    Layout(pre, lit, id, rest);
    assert s == (pre + lit) + id + rest;
    IdRestNoParam(pre + lit, id, rest);
    forall k | a <= k < p + 19 ensures !TailAt(s, k, ParamId) {
      assert s[k] == lit[k - p];
    }
    assert NoParamFrom(s, a);
  }

  /** The three inner alternatives of `youtube.com/(...)` all fail on a clean `shorts/` link. */
  lemma ShortsInnerBranchesFail(pre: string, id: string, rest: string)
    requires IsVideoId(id)
    requires '/' !in rest && NoVParam(rest)
    ensures var s := pre + "youtube.com/shorts/" + id + rest; var a := |pre| + 12;
      && PathBranch(s, a) == None && VEmbedBranch(s, a) == None && QueryBranch(s, a) == None
  {
    ShortsPathFails(pre, id, rest);
    ShortsVEmbedFails(pre, id, rest);
    ShortsQueryFails(pre, id, rest);
  }

  /** `…youtube.com/shorts/<id><rest>` yields the id when `rest` has no `/` and no `v=`. */
  lemma ShortsLink(pre: string, id: string, rest: string)
    requires 'y' !in pre
    requires IsVideoId(id)
    requires '/' !in rest && NoVParam(rest)
    ensures GetYoutubeVideoId(pre + "youtube.com/shorts/" + id + rest) == Some(id)
  {
    var lit := "youtube.com/shorts/";
    var s := pre + lit + id + rest;
    var p := |pre|;
    Layout(pre, lit, id, rest);
    NoMatchInPrefix(pre, s);
    assert HasAt(s, p, "youtube.com/") by {
      assert s[p..p + 12] == s[p..p + 19][..12];
    }
    MatchAtLongForm(s, p);
    ShortsInnerBranchesFail(pre, id, rest);
    assert MatchAt(s, p) == Some(p + 19);
    ResultIsLeftmostMatch(s, p);
  }

  /** A clean link whose match starts right after `pre` yields its id. */
  lemma LinkAfterPrefix(pre: string, lit: string, id: string, rest: string)
    requires 'y' !in pre
    requires |id| == IdLength
    requires MatchAt(pre + lit + id + rest, |pre|) == Some(|pre| + |lit|)
    ensures GetYoutubeVideoId(pre + lit + id + rest) == Some(id)
  {
    var s := pre + lit + id + rest;
    Layout(pre, lit, id, rest);
    NoMatchInPrefix(pre, s);
    ResultIsLeftmostMatch(s, |pre|);
  }

  /** On a clean `embed/` link the path branch fails: `embed/` is the only `/` after the host. */
  lemma EmbedPathFails(pre: string, id: string, rest: string)
    requires IsVideoId(id)
    requires '/' !in rest
    ensures var s := pre + "youtube.com/embed/" + id + rest;
      PathBranch(s, |pre| + 12) == None
  {
    var lit := "youtube.com/embed/";
    var s := pre + lit + id + rest;
    var a := |pre| + 12;
    Layout(pre, lit, id, rest);
    assert s == (pre + lit) + id + rest;
    IdRestNoSlash(pre + lit, id, rest);
    PathBranchFails(s, a, a + 5);
  }

  /** On a clean `embed/` link the `v/` test fails and `embed/` captures the id. */
  lemma EmbedAlternative(pre: string, id: string, rest: string)
    requires IsVideoId(id)
    ensures var s := pre + "youtube.com/embed/" + id + rest;
      VEmbedBranch(s, |pre| + 12) == Some(|pre| + 18)
  {
    var lit := "youtube.com/embed/";
    var s := pre + lit + id + rest;
    var p := |pre|;
    var a := p + 12;
    Layout(pre, lit, id, rest);
    assert s[a] == 'e';
    NotHasAt(s, a, "v/", 0);
    assert HasAt(s, a, "embed/") by {
      assert s[a..a + 6] == s[p..p + 18][12..];
    }
    assert IdAt(s, a + 6);
  }

  /** On a clean `embed/` link the path branch fails and `embed/` matches. */
  lemma EmbedMatch(pre: string, id: string, rest: string)
    requires IsVideoId(id)
    requires '/' !in rest
    ensures MatchAt(pre + "youtube.com/embed/" + id + rest, |pre|) == Some(|pre| + 18)
  {
    var s := pre + "youtube.com/embed/" + id + rest;
    var p := |pre|;
    Layout(pre, "youtube.com/embed/", id, rest);
    assert HasAt(s, p, "youtube.com/") by {
      assert s[p..p + 12] == s[p..p + 18][..12];
    }
    MatchAtLongForm(s, p);
    EmbedPathFails(pre, id, rest);
    EmbedAlternative(pre, id, rest);
  }

  /** `…youtube.com/embed/<id><rest>` yields the id when `rest` has no `/`. */
  lemma EmbedLink(pre: string, id: string, rest: string)
    requires 'y' !in pre
    requires IsVideoId(id)
    requires '/' !in rest
    ensures GetYoutubeVideoId(pre + "youtube.com/embed/" + id + rest) == Some(id)
  {
    EmbedMatch(pre, id, rest);
    LinkAfterPrefix(pre, "youtube.com/embed/", id, rest);
  }

  /** On a clean `v/` link the path branch fails and `v/` matches. */
  lemma VMatch(pre: string, id: string, rest: string)
    requires IsVideoId(id)
    requires '/' !in rest
    ensures MatchAt(pre + "youtube.com/v/" + id + rest, |pre|) == Some(|pre| + 14)
  {
    var lit := "youtube.com/v/";
    var s := pre + lit + id + rest;
    var p := |pre|;
    var a := p + 12;
    Layout(pre, lit, id, rest);
    assert s == (pre + lit) + id + rest;
    IdRestNoSlash(pre + lit, id, rest);
    assert HasAt(s, p, "youtube.com/") by {
      assert s[p..p + 12] == s[p..p + 14][..12];
    }
    MatchAtLongForm(s, p);
    PathBranchFails(s, a, a + 1);
    assert HasAt(s, a, "v/") by {
      assert s[a..a + 2] == s[p..p + 14][12..];
    }
  }

  /** `…youtube.com/v/<id><rest>` yields the id when `rest` has no `/`. */
  lemma VLink(pre: string, id: string, rest: string)
    requires 'y' !in pre
    requires IsVideoId(id)
    requires '/' !in rest
    ensures GetYoutubeVideoId(pre + "youtube.com/v/" + id + rest) == Some(id)
  {
    VMatch(pre, id, rest);
    LinkAfterPrefix(pre, "youtube.com/v/", id, rest);
  }

  /**
   * The greedy `.*[?&]v=` from `a` stops at `k0` when the tail matches there, `.` can reach
   * it, and no tail matches anywhere later.
   */
  lemma QueryBranchStopsAt(s: string, a: nat, k0: nat)
    requires a <= k0 && TailAt(s, k0, ParamId)
    requires forall k :: a <= k <= k0 ==> !IsLineTerminator(s[k])
    requires NoParamFrom(s, k0 + 1)
    ensures QueryBranch(s, a) == Some(k0 + 3)
  {
    var e := LineEnd(s, a);
    assert k0 < e;
    var r := LastTail(s, ParamId, a, e);
    assert r == Some(k0);
  }

  /** The greedy `.*[?&]v=` stops at the `?` of `watch?v=` when no later `v=` exists. */
  lemma WatchQueryBranch(pre: string, id: string, rest: string)
    requires IsVideoId(id)
    requires NoVParam(rest)
    ensures var s := pre + "youtube.com/watch?v=" + id + rest;
      QueryBranch(s, |pre| + 12) == Some(|pre| + 20)
  {
    var lit := "youtube.com/watch?v=";
    var s := pre + lit + id + rest;
    var p := |pre|;
    var k0 := p + 17;
    Layout(pre, lit, id, rest);
    assert s == (pre + lit) + id + rest;
    IdRestNoParam(pre + lit, id, rest);
    assert TailAt(s, k0, ParamId) by {
      assert s[k0] == '?';
      assert s[k0 + 1..k0 + 3] == s[p..p + 20][18..];
      assert s[k0 + 3..k0 + 3 + IdLength] == id;
    }
    forall k | p + 12 <= k <= k0 ensures !IsLineTerminator(s[k]) {
      assert s[k] == lit[k - p];
    }
    forall k | k0 < k < p + 20 ensures !TailAt(s, k, ParamId) {
      assert s[k] == lit[k - p];
    }
    QueryBranchStopsAt(s, p + 12, k0);
  }

  /** On a clean `watch?v=` link the path branch and the `v/`/`embed/` branch fail. */
  lemma WatchPathBranchesFail(pre: string, id: string, rest: string)
    requires IsVideoId(id)
    requires '/' !in rest
    ensures var s := pre + "youtube.com/watch?v=" + id + rest;
      PathBranch(s, |pre| + 12) == None && VEmbedBranch(s, |pre| + 12) == None
  {
    var lit := "youtube.com/watch?v=";
    var s := pre + lit + id + rest;
    var p := |pre|;
    var a := p + 12;
    Layout(pre, lit, id, rest);
    assert s == (pre + lit) + id + rest;
    IdRestNoSlash(pre + lit, id, rest);
    assert NoSlashFrom(s, a) by {
      forall k | a <= k < p + 20 ensures s[k] != '/' {
        assert s[k] == lit[k - p];
      }
    }
    PathBranchFailsWithoutSlash(s, a);
    assert s[a..a + 2][0] == 'w' && s[a..a + 6][0] == 'w';
  }

  /** On a clean `watch?v=` link the query branch is the one that matches. */
  lemma WatchMatch(pre: string, id: string, rest: string)
    requires IsVideoId(id)
    requires '/' !in rest && NoVParam(rest)
    ensures MatchAt(pre + "youtube.com/watch?v=" + id + rest, |pre|) == Some(|pre| + 20)
  {
    var s := pre + "youtube.com/watch?v=" + id + rest;
    var p := |pre|;
    Layout(pre, "youtube.com/watch?v=", id, rest);
    assert HasAt(s, p, "youtube.com/") by {
      assert s[p..p + 12] == s[p..p + 20][..12];
    }
    MatchAtLongForm(s, p);
    WatchPathBranchesFail(pre, id, rest);
    WatchQueryBranch(pre, id, rest);
  }

  /** `…youtube.com/watch?v=<id><rest>` yields the id when `rest` has no `/` and no later `v=`. */
  lemma WatchLink(pre: string, id: string, rest: string)
    requires 'y' !in pre
    requires IsVideoId(id)
    requires '/' !in rest && NoVParam(rest)
    ensures GetYoutubeVideoId(pre + "youtube.com/watch?v=" + id + rest) == Some(id)
  {
    WatchMatch(pre, id, rest);
    LinkAfterPrefix(pre, "youtube.com/watch?v=", id, rest);
  }

  /** Where the pieces of `pre + "youtube.com/watch?v=" + id1 + "&v=" + id2 + rest` sit. */
  lemma LaterParamLayout(pre: string, id1: string, id2: string, rest: string)
    requires IsVideoId(id1) && IsVideoId(id2)
    ensures var s := pre + "youtube.com/watch?v=" + id1 + "&v=" + id2 + rest; var p := |pre|;
      && (forall k :: p + 12 <= k < p + 20 ==> s[k] == "youtube.com/watch?v="[k - p])
      && (forall k :: p + 20 <= k < p + 31 ==> IsIdChar(s[k]))
      && (forall k :: p + 31 <= k < p + 34 ==> s[k] == "&v="[k - p - 31])
      && IdAt(s, p + 34)
  {
    var lit := "youtube.com/watch?v=";
    var head := pre + lit + id1;
    var s := head + "&v=" + id2 + rest;
    var p := |pre|;
    Layout(head, "&v=", id2, rest);
    forall k | p + 12 <= k < p + 20 ensures s[k] == lit[k - p] {
      assert s[k] == s[..|head|][k] == head[k];
    }
    forall k | p + 20 <= k < p + 31 ensures IsIdChar(s[k]) {
      assert s[k] == s[..|head|][k] == head[k] == id1[k - p - 20];
    }
  }

  /** With a second `&v=<id2>` after the first id, the greedy `.*` gives back only as far as that later `&`. */
  lemma LaterParamQueryBranch(pre: string, id1: string, id2: string, rest: string)
    requires IsVideoId(id1) && IsVideoId(id2)
    requires NoVParam(rest)
    ensures var s := pre + "youtube.com/watch?v=" + id1 + "&v=" + id2 + rest;
      QueryBranch(s, |pre| + 12) == Some(|pre| + 34)
  {
    var s := pre + "youtube.com/watch?v=" + id1 + "&v=" + id2 + rest;
    var p := |pre|;
    var k1 := p + 31;
    LaterParamLayout(pre, id1, id2, rest);
    IdRestNoParam(pre + "youtube.com/watch?v=" + id1 + "&v=", id2, rest);
    assert TailAt(s, k1, ParamId) by {
      assert s[k1 + 1..k1 + 3] == [s[k1 + 1], s[k1 + 2]];
    }
    forall k | p + 12 <= k <= k1 ensures !IsLineTerminator(s[k]) {
      if k < p + 20 {
        assert s[k] == "youtube.com/watch?v="[k - p];
      } else if k < k1 {
        assert IsIdChar(s[k]);
      }
    }
    forall k | k1 < k < p + 34 ensures !TailAt(s, k, ParamId) {
      assert s[k] == "&v="[k - k1];
    }
    QueryBranchStopsAt(s, p + 12, k1);
  }

  /** On that link the query branch decides the match, at the later id. */
  lemma LaterParamMatch(pre: string, id1: string, id2: string, rest: string)
    requires IsVideoId(id1) && IsVideoId(id2)
    requires '/' !in rest && NoVParam(rest)
    ensures MatchAt(pre + "youtube.com/watch?v=" + id1 + "&v=" + id2 + rest, |pre|) == Some(|pre| + 34)
  {
    var lit := "youtube.com/watch?v=";
    var tail := "&v=" + id2 + rest;
    var s := pre + lit + id1 + tail;
    var p := |pre|;
    assert s == pre + lit + id1 + "&v=" + id2 + rest;
    Layout(pre, lit, id1, tail);
    assert HasAt(s, p, "youtube.com/") by {
      assert s[p..p + 12] == s[p..p + 20][..12];
    }
    assert '/' !in tail by {
      forall k | 0 <= k < |tail| ensures tail[k] != '/' {
        if 3 <= k < 14 {
          assert tail[k] == id2[k - 3];
        } else if 14 <= k {
          assert tail[k] == rest[k - 14];
        }
      }
    }
    MatchAtLongForm(s, p);
    WatchPathBranchesFail(pre, id1, tail);
    LaterParamQueryBranch(pre, id1, id2, rest);
  }

  /** `…watch?v=<id1>&v=<id2>` yields `id2`: the greedy `.*[?&]v=` makes the LAST `v=` parameter win. */
  lemma LaterParamWins(pre: string, id1: string, id2: string, rest: string)
    requires 'y' !in pre
    requires IsVideoId(id1) && IsVideoId(id2)
    requires '/' !in rest && NoVParam(rest)
    ensures GetYoutubeVideoId(pre + "youtube.com/watch?v=" + id1 + "&v=" + id2 + rest) == Some(id2)
  {
    var lit := "youtube.com/watch?v=" + id1 + "&v=";
    assert pre + "youtube.com/watch?v=" + id1 + "&v=" + id2 + rest == pre + lit + id2 + rest;
    LaterParamMatch(pre, id1, id2, rest);
    LinkAfterPrefix(pre, lit, id2, rest);
  }

  /** The three pieces of `a + b + c` are found again at their offsets. */
  lemma PartsOf(a: string, b: string, c: string)
    ensures var s := a + b + c;
      s[..|a|] == a && s[|a|..|a| + |b|] == b && s[|a| + |b|..] == c
  {
    var s := a + b + c;
    assert s[..|a| + |b|] == a + b;
  }

  /** Cutting a string at `i` and `j` and gluing the pieces back gives it again. */
  lemma ThreeParts(x: string, i: nat, j: nat)
    requires i <= j <= |x|
    ensures x == x[..i] + x[i..j] + x[j..] + []
  {
    assert x[..i] + x[i..j] == x[..j];
  }

  /** The documented example: `https://youtu.be/dQw4w9WgXcQ` yields `dQw4w9WgXcQ`. */
  lemma ShortLinkExample(url: string)
    requires url == "https://" + "youtu.be/" + "dQw4w9WgXcQ"
    ensures GetYoutubeVideoId(url) == Some("dQw4w9WgXcQ")
  {
    PartsOf("https://", "youtu.be/", "dQw4w9WgXcQ");
    var pre := url[..8];
    var id := url[17..];
    assert IsVideoId(id);
    ThreeParts(url, 8, 17);
    ShortLink(pre, id, []);
  }

  /** Of two short links, the one that starts first decides the result. */
  lemma FirstOfTwoLinks(pre: string, id1: string, mid: string, id2: string, rest: string)
    requires 'y' !in pre
    requires IsVideoId(id1) && IsVideoId(id2)
    ensures GetYoutubeVideoId(pre + "youtu.be/" + id1 + mid + "youtu.be/" + id2 + rest) == Some(id1)
  {
    var tail := mid + "youtu.be/" + id2 + rest;
    assert pre + "youtu.be/" + id1 + mid + "youtu.be/" + id2 + rest == pre + "youtu.be/" + id1 + tail;
    ShortLink(pre, id1, tail);
  }
}
