/**
 * The tutorial dialog's `getEmbedUrl`: rewrite a YouTube link to its
 * `/embed/` form using the pattern
 *   ^.*(youtu.be\/|v\/|u\/\w\/|embed\/|watch\?v=|&v=)([^#&?]*).*
 *
 * The pattern is modelled as the search a backtracking engine performs:
 * `^.*` first takes every character up to the first line terminator (`.`
 * does not match one) and gives them back one at a time, so the marker
 * group lands on the RIGHTMOST position at which one of its six
 * alternatives matches; the ID group `[^#&?]*` then takes the longest run
 * without `#`, `&` or `?` (line terminators included), and the trailing
 * `.*` always succeeds with zero width.
 */
module TutorialDialog {

  import opened Wrappers
  import opened JsString

  /** The six alternatives of the marker group, in the order the pattern lists them. */
  datatype Marker = YoutuBe | VSlash | UWordSlash | EmbedSlash | WatchV | AmpV

  /** The outcome of a successful match: where the marker starts, which one it is, and group 2. */
  datatype Match = Match(pos: nat, marker: Marker, id: string)

  const EmbedPrefix: string := "https://www.youtube.com/embed/"

  /** The length a YouTube video ID must have for the link to be rewritten. */
  const IdLength: nat := 11

  /** The number of characters an alternative consumes. */
  function MarkerLength(m: Marker): (n: nat)
    ensures 2 <= n <= 9
  {
    match m
    case YoutuBe => 9     // youtu.be/
    case VSlash => 2      // v/
    case UWordSlash => 4  // u/\w/
    case EmbedSlash => 6  // embed/
    case WatchV => 8      // watch?v=
    case AmpV => 3        // &v=
  }

  /** `\w` without the `u` or `i` flag: an ASCII letter, digit or underscore. */
  predicate IsWordChar(c: char) {
    'a' <= c <= 'z' || 'A' <= c <= 'Z' || '0' <= c <= '9' || c == '_'
  }

  /** A character that ends the ID group `[^#&?]*`. */
  predicate IsIdStop(c: char) {
    c == '#' || c == '&' || c == '?'
  }

  /** Alternative `m` of the marker group matches `s` at index `p`. */
  predicate AltMatches(s: string, p: nat, m: Marker) {
    p + MarkerLength(m) <= |s| &&
    match m
    case YoutuBe =>
      s[p] == 'y' && s[p + 1] == 'o' && s[p + 2] == 'u' && s[p + 3] == 't' && s[p + 4] == 'u'
      && !IsLineTerminator(s[p + 5]) && s[p + 6] == 'b' && s[p + 7] == 'e' && s[p + 8] == '/'
    case VSlash =>
      s[p] == 'v' && s[p + 1] == '/'
    case UWordSlash =>
      s[p] == 'u' && s[p + 1] == '/' && IsWordChar(s[p + 2]) && s[p + 3] == '/'
    case EmbedSlash =>
      s[p] == 'e' && s[p + 1] == 'm' && s[p + 2] == 'b' && s[p + 3] == 'e' && s[p + 4] == 'd'
      && s[p + 5] == '/'
    case WatchV =>
      s[p] == 'w' && s[p + 1] == 'a' && s[p + 2] == 't' && s[p + 3] == 'c' && s[p + 4] == 'h'
      && s[p + 5] == '?' && s[p + 6] == 'v' && s[p + 7] == '='
    case AmpV =>
      s[p] == '&' && s[p + 1] == 'v' && s[p + 2] == '='
  }

  /** Some alternative of the marker group matches at `p`. */
  ghost predicate MarkerMatchesAt(s: string, p: nat) {
    exists m :: AltMatches(s, p, m)
  }

  /** The alternatives begin with six different characters, so at most one matches at any index. */
  lemma AlternativesExclusive(s: string, p: nat, m1: Marker, m2: Marker)
    requires AltMatches(s, p, m1) && AltMatches(s, p, m2)
    ensures m1 == m2
  {
  }

  /** The alternative tried at `p`, in the order the pattern lists them. */
  function MarkerAt(s: string, p: nat): Option<Marker> {
    if AltMatches(s, p, YoutuBe) then Some(YoutuBe)
    else if AltMatches(s, p, VSlash) then Some(VSlash)
    else if AltMatches(s, p, UWordSlash) then Some(UWordSlash)
    else if AltMatches(s, p, EmbedSlash) then Some(EmbedSlash)
    else if AltMatches(s, p, WatchV) then Some(WatchV)
    else if AltMatches(s, p, AmpV) then Some(AmpV)
    else None
  }

  /** `MarkerAt` reports an alternative that matches, and reports none only when none does. */
  lemma MarkerAtSound(s: string, p: nat)
    ensures MarkerAt(s, p).Some? ==> AltMatches(s, p, MarkerAt(s, p).value)
    ensures MarkerAt(s, p).None? <==> !MarkerMatchesAt(s, p)
  {
    if MarkerAt(s, p).Some? {
      assert AltMatches(s, p, MarkerAt(s, p).value);
    }
  }

  /** The index of the first line terminator at or after `i`, or `|s|` when there is none. */
  function LineTerminatorFrom(s: string, i: nat): (n: nat)
    requires i <= |s|
    ensures i <= n <= |s|
    ensures forall k :: i <= k < n ==> !IsLineTerminator(s[k])
    ensures n < |s| ==> IsLineTerminator(s[n])
    decreases |s| - i
  {
    if i == |s| || IsLineTerminator(s[i]) then i else LineTerminatorFrom(s, i + 1)
  }

  /** How far `^.*` can reach: the index of the first line terminator, or `|s|` when there is none. */
  function FirstLineTerminator(s: string): (n: nat)
    ensures n <= |s|
    ensures forall i :: 0 <= i < n ==> !IsLineTerminator(s[i])
    ensures n < |s| ==> IsLineTerminator(s[n])
  {
    LineTerminatorFrom(s, 0)
  }

  /** A position where the marker group can start: reachable by `^.*` and matched by an alternative. */
  ghost predicate Candidate(s: string, p: nat) {
    p <= FirstLineTerminator(s) && MarkerMatchesAt(s, p)
  }

  /**
   * The backtracking of `^.*`: try the marker group at `p`, then at `p - 1`, ...,
   * down to 0, and stop at the first index where an alternative matches.
   */
  function ScanBack(s: string, p: nat): Option<(nat, Marker)> {
    match MarkerAt(s, p)
    case Some(m) => Some((p, m))
    case None => if p == 0 then None else ScanBack(s, p - 1)
  }

  /** `ScanBack` finds the greatest index at or below `p` where an alternative matches, or reports that there is none. */
  lemma {:induction false} ScanBackSound(s: string, p: nat)
    ensures var r := ScanBack(s, p);
      && (r.Some? ==> r.value.0 <= p && AltMatches(s, r.value.0, r.value.1))
      && (r.Some? ==> forall q :: r.value.0 < q <= p ==> !MarkerMatchesAt(s, q))
      && (r.None? ==> forall q :: 0 <= q <= p ==> !MarkerMatchesAt(s, q))
  {
    MarkerAtSound(s, p);
    if MarkerAt(s, p).None? && p > 0 {
      ScanBackSound(s, p - 1);
    }
  }

  /** Where the greedy group `[^#&?]*` started at `i` stops: the first `#`, `&` or `?`, or the end. */
  function IdEnd(s: string, i: nat): (e: nat)
    requires i <= |s|
    ensures i <= e <= |s|
    ensures forall k :: i <= k < e ==> !IsIdStop(s[k])
    ensures e < |s| ==> IsIdStop(s[e])
    decreases |s| - i
  {
    if i == |s| || IsIdStop(s[i]) then i else IdEnd(s, i + 1)
  }

  /**
   * `url.match(regExp)`: `None` for `null`, otherwise the marker's position,
   * the alternative and capture group 2.
   */
  function MatchYouTube(s: string): (r: Option<Match>)
    // No match exactly when no alternative matches within reach of `^.*`.
    ensures r.None? <==> forall q :: 0 <= q <= FirstLineTerminator(s) ==> !MarkerMatchesAt(s, q)
    // The marker starts before the first line terminator, and it is the rightmost candidate.
    ensures r.Some? ==> Candidate(s, r.value.pos) && AltMatches(s, r.value.pos, r.value.marker)
    ensures r.Some? ==> forall q :: r.value.pos < q <= FirstLineTerminator(s) ==> !MarkerMatchesAt(s, q)
    // Group 2 directly follows the marker, holds no `#`, `&` or `?`, and cannot be extended.
    ensures r.Some? ==>
      var start := r.value.pos + MarkerLength(r.value.marker);
      && start + |r.value.id| <= |s|
      && r.value.id == s[start..start + |r.value.id|]
      && (forall k :: 0 <= k < |r.value.id| ==> !IsIdStop(r.value.id[k]))
      && (start + |r.value.id| < |s| ==> IsIdStop(s[start + |r.value.id|]))
  {
    var n := FirstLineTerminator(s);
    ScanBackSound(s, n);
    var found := ScanBack(s, n);
    if found.None? then None
    else
      var (p, m) := found.value;
      assert MarkerMatchesAt(s, p);
      var start := p + MarkerLength(m);
      Some(Match(p, m, s[start..IdEnd(s, start)]))
  }

  /** `getEmbedUrl`: the embed link for an 11-character video ID, otherwise the input itself. */
  function GetEmbedUrl(url: string): string {
    if url == [] then []
    else
      match MatchYouTube(url)
      case Some(mt) => if |mt.id| == IdLength then EmbedPrefix + mt.id else url
      case None => url
  }

  /** The empty link maps to the empty string; a failed match or an ID of another length leaves the link unchanged. */
  lemma EmbedUrlUnchanged(url: string)
    ensures url == [] ==> GetEmbedUrl(url) == []
    ensures MatchYouTube(url).None? ==> GetEmbedUrl(url) == url
    ensures MatchYouTube(url).Some? && |MatchYouTube(url).value.id| != IdLength ==> GetEmbedUrl(url) == url
  {
  }

  /** A match whose ID has 11 characters is rewritten to the embed prefix followed by that ID. */
  lemma EmbedUrlRewritten(url: string)
    requires MatchYouTube(url).Some? && |MatchYouTube(url).value.id| == IdLength
    ensures GetEmbedUrl(url) == EmbedPrefix + MatchYouTube(url).value.id
  {
  }

  /** The converse of the rightmost-marker clause: a rightmost candidate is the match. */
  lemma RightmostCandidateIsMatch(s: string, p: nat)
    requires Candidate(s, p)
    requires forall q :: p < q <= FirstLineTerminator(s) ==> !MarkerMatchesAt(s, q)
    ensures MatchYouTube(s).Some? && MatchYouTube(s).value.pos == p
  {
    var r := MatchYouTube(s);
    assert r.Some?;
    if r.value.pos < p {
      assert MarkerMatchesAt(s, p);
    } else if r.value.pos > p {
      assert MarkerMatchesAt(s, r.value.pos);
    }
  }

  /** The result is the input itself, or the embed prefix followed by an 11-character ID free of `#`, `&`, `?`. */
  lemma EmbedUrlShape(url: string)
    ensures var r := GetEmbedUrl(url);
      || r == url
      || (&& |r| == |EmbedPrefix| + IdLength
          && r[..|EmbedPrefix|] == EmbedPrefix
          && (forall k :: |EmbedPrefix| <= k < |r| ==> !IsIdStop(r[k])))
  {
  }

  /** No character of `s` is a line terminator. */
  ghost predicate NoLineTerminator(s: string) {
    forall k :: 0 <= k < |s| ==> !IsLineTerminator(s[k])
  }

  /** `^.*` reaches at least `n` when none of the first `n` characters ends the line. */
  lemma ReachesAtLeast(s: string, n: nat)
    requires n <= |s|
    requires forall k :: 0 <= k < n ==> !IsLineTerminator(s[k])
    ensures n <= FirstLineTerminator(s)
  {
  }

  /** A character that every alternative of the marker group contains somewhere. */
  predicate IsSeparator(c: char) {
    c == '/' || c == '?' || c == '&'
  }

  /** Where in alternative `m` its separator (`/`, `?` or `&`) sits. */
  function SeparatorOffset(m: Marker): nat {
    match m
    case YoutuBe => 8
    case VSlash => 1
    case UWordSlash => 3
    case EmbedSlash => 5
    case WatchV => 5
    case AmpV => 0
  }

  /** Every alternative holds a `/`, `?` or `&`, so no marker fits inside text free of them. */
  lemma MarkerHasSeparator(s: string, p: nat, m: Marker)
    requires AltMatches(s, p, m)
    ensures SeparatorOffset(m) < MarkerLength(m) && IsSeparator(s[p + SeparatorOffset(m)])
  {
  }

  /** No alternative starts at or after `lo` when no `/`, `?` or `&` occurs from `lo` on. */
  lemma NoMarkerWithoutSeparator(s: string, lo: nat)
    requires forall k :: lo <= k < |s| ==> !IsSeparator(s[k])
    ensures forall q :: lo <= q ==> !MarkerMatchesAt(s, q)
  {
    forall q, m | lo <= q && AltMatches(s, q, m) ensures false {
      MarkerHasSeparator(s, q, m);
    }
  }

  /** No alternative matches a line terminator: `.` and `\w` exclude them, and the literal characters are not ones. */
  lemma MarkerHasNoLineTerminator(s: string, p: nat, m: Marker, i: nat)
    requires AltMatches(s, p, m) && p <= i < p + MarkerLength(m)
    ensures !IsLineTerminator(s[i])
  {
    var j := i - p;
    assert j == 0 || j == 1 || j == 2 || j == 3 || j == 4 || j == 5 || j == 6 || j == 7 || j == 8;
  }

  /** No alternative starts in `lo..n` when `n` holds a line terminator and no `/`, `?` or `&` occurs in `lo..n-1`. */
  lemma NoMarkerBeforeTerminator(s: string, lo: nat, n: nat)
    requires lo <= n < |s| && IsLineTerminator(s[n])
    requires forall k :: lo <= k < n ==> !IsSeparator(s[k])
    ensures forall q :: lo <= q <= n ==> !MarkerMatchesAt(s, q)
  {
    forall q, m | lo <= q <= n && AltMatches(s, q, m) ensures false {
      MarkerHasSeparator(s, q, m);
      if n < q + MarkerLength(m) {
        MarkerHasNoLineTerminator(s, q, m, n);
      }
    }
  }

  /** One `?` not followed by `v`, and no other separator from `lo` on, still leaves no alternative starting there:
      only `watch?v=` has a `?`, and it needs the `v`. */
  lemma NoMarkerAroundQuery(s: string, lo: nat, j: nat)
    requires lo <= j < |s| && s[j] == '?'
    requires j + 1 < |s| ==> s[j + 1] != 'v'
    requires forall k :: lo <= k < |s| && k != j ==> !IsSeparator(s[k])
    ensures forall q :: lo <= q ==> !MarkerMatchesAt(s, q)
  {
    forall q, m | lo <= q && AltMatches(s, q, m) ensures false {
      MarkerHasSeparator(s, q, m);
    }
  }

  /** In `EmbedPrefix + id` the marker `embed/` at 24 is a candidate and no alternative starts inside `mbed/`. */
  lemma EmbedLinkMarker(id: string)
    ensures Candidate(EmbedPrefix + id, 24) && AltMatches(EmbedPrefix + id, 24, EmbedSlash)
    ensures forall q :: 24 < q < 30 ==> !MarkerMatchesAt(EmbedPrefix + id, q)
  {
    var r := EmbedPrefix + id;
    EmbedPrefixPlain();
    EmbedPrefixTail();
    assert forall k :: 0 <= k < |EmbedPrefix| ==> r[k] == EmbedPrefix[k];
    assert FirstLineTerminator(r) >= |EmbedPrefix|;
    assert AltMatches(r, 24, EmbedSlash);
    forall q | 24 < q < 30 ensures !MarkerMatchesAt(r, q) {
      assert q == 25 || q == 26 || q == 27 || q == 28 || q == 29;
    }
  }

  /** The match of `EmbedPrefix + id`, for an ID free of `#`, `&` and `?`, is `embed/` at 24 or a marker past the prefix. */
  lemma EmbedLinkMatch(id: string)
    requires forall k :: 0 <= k < |id| ==> !IsIdStop(id[k])
    ensures var mt := MatchYouTube(EmbedPrefix + id);
      && mt.Some?
      && (mt.value.pos == 24 ==> mt.value.id == id)
      && (mt.value.pos != 24 ==> mt.value.pos >= 30)
  {
    var r := EmbedPrefix + id;
    EmbedLinkMarker(id);
    EmbedPrefixTail();
    var mt := MatchYouTube(r).value;
    assert 24 <= mt.pos;
    if mt.pos == 24 {
      AlternativesExclusive(r, 24, mt.marker, EmbedSlash);
      assert forall k :: 0 <= k < |id| ==> r[30 + k] == id[k];
      assert mt.id == r[30..] == id;
    }
  }

  /** The rewrite of any link is left as it is by a second rewrite. */
  lemma GetEmbedUrlIdempotent(url: string)
    ensures GetEmbedUrl(GetEmbedUrl(url)) == GetEmbedUrl(url)
  {
    var r := GetEmbedUrl(url);
    if r != url {
      var id := MatchYouTube(url).value.id;
      EmbedUrlRewritten(url);
      EmbedPrefixTail();
      EmbedLinkMatch(id);
      var mt := MatchYouTube(r).value;
      if mt.pos != 24 {
        assert |mt.id| < IdLength;
      }
    }
  }

  /** The embed prefix holds no line terminator. */
  lemma EmbedPrefixPlain()
    ensures NoLineTerminator(EmbedPrefix)
  {
  }

  /** The embed prefix is 30 characters long and ends in `embed/`. */
  lemma EmbedPrefixTail()
    ensures |EmbedPrefix| == 30
    ensures EmbedPrefix[24] == 'e' && EmbedPrefix[25] == 'm' && EmbedPrefix[26] == 'b'
    ensures EmbedPrefix[27] == 'e' && EmbedPrefix[28] == 'd' && EmbedPrefix[29] == '/'
  {
  }

  /** The head of a `watch?v=` link. */
  const WatchPrefix: string := "https://www.youtube.com/watch?v="

  /** The head of a short `youtu.be` link. */
  const ShortPrefix: string := "https://youtu.be/"

  /** The watch prefix holds no line terminator. */
  lemma WatchPrefixPlain()
    ensures NoLineTerminator(WatchPrefix)
  {
  }

  /** The watch prefix is 32 characters long and ends in `watch?v=`. */
  lemma WatchPrefixTail()
    ensures |WatchPrefix| == 32
    ensures WatchPrefix[24] == 'w' && WatchPrefix[25] == 'a' && WatchPrefix[26] == 't'
    ensures WatchPrefix[27] == 'c' && WatchPrefix[28] == 'h' && WatchPrefix[29] == '?'
    ensures WatchPrefix[30] == 'v' && WatchPrefix[31] == '='
  {
  }

  /** The short prefix holds no line terminator, is 17 characters long and reads `youtu.be/` from index 8. */
  lemma ShortPrefixFacts()
    ensures NoLineTerminator(ShortPrefix) && |ShortPrefix| == 17
    ensures ShortPrefix[8] == 'y' && ShortPrefix[9] == 'o' && ShortPrefix[10] == 'u'
    ensures ShortPrefix[11] == 't' && ShortPrefix[12] == 'u' && ShortPrefix[13] == '.'
    ensures ShortPrefix[14] == 'b' && ShortPrefix[15] == 'e' && ShortPrefix[16] == '/'
  {
  }

  /** In `WatchPrefix + id` the marker `watch?v=` at 24 is the rightmost, when the ID holds no separator. */
  lemma WatchLinkMarker(id: string)
    requires forall k :: 0 <= k < |id| ==> !IsSeparator(id[k])
    ensures Candidate(WatchPrefix + id, 24) && AltMatches(WatchPrefix + id, 24, WatchV)
    ensures forall q :: 24 < q <= FirstLineTerminator(WatchPrefix + id) ==> !MarkerMatchesAt(WatchPrefix + id, q)
  {
    var s := WatchPrefix + id;
    WatchPrefixPlain();
    WatchPrefixTail();
    assert forall k :: 0 <= k < |WatchPrefix| ==> s[k] == WatchPrefix[k];
    ReachesAtLeast(s, 32);
    assert AltMatches(s, 24, WatchV);
    forall k | 32 <= k < |s| ensures !IsSeparator(s[k]) {
      assert s[k] == id[k - 32];
    }
    NoMarkerWithoutSeparator(s, 32);
    forall q | 24 < q < 32 ensures !MarkerMatchesAt(s, q) {
      assert q == 25 || q == 26 || q == 27 || q == 28 || q == 29 || q == 30 || q == 31;
    }
  }

  /** Any 11-character ID without `/`, `#`, `&` or `?` after `watch?v=` is rewritten to the embed link. */
  lemma WatchLinkRewritten(id: string)
    requires |id| == IdLength
    requires forall k :: 0 <= k < |id| ==> !IsSeparator(id[k]) && id[k] != '#'
    ensures GetEmbedUrl(WatchPrefix + id) == EmbedPrefix + id
  {
    var s := WatchPrefix + id;
    WatchLinkMarker(id);
    WatchPrefixTail();
    RightmostCandidateIsMatch(s, 24);
    var mt := MatchYouTube(s).value;
    AlternativesExclusive(s, 24, mt.marker, WatchV);
    assert forall k :: 0 <= k < |id| ==> s[32 + k] == id[k];
    assert mt.id == s[32..] == id;
  }

  /** In `ShortPrefix + id + "?" + query` no alternative starts after the `youtu.be/` at index 8. */
  lemma ShortLinkMarker(id: string, query: string)
    requires |id| == IdLength
    requires forall k :: 0 <= k < |id| ==> !IsSeparator(id[k])
    requires forall k :: 0 <= k < |query| ==> !IsSeparator(query[k])
    requires query == [] || query[0] != 'v'
    ensures var s := ShortPrefix + id + "?" + query;
      && Candidate(s, 8) && AltMatches(s, 8, YoutuBe)
      && forall q :: 8 < q ==> !MarkerMatchesAt(s, q)
  {
    var s := ShortPrefix + id + "?" + query;
    ShortPrefixFacts();
    assert forall k :: 0 <= k < 17 ==> s[k] == ShortPrefix[k];
    assert s[28] == '?';
    ReachesAtLeast(s, 17);
    assert AltMatches(s, 8, YoutuBe);
    forall k | 17 <= k < |s| && k != 28 ensures !IsSeparator(s[k]) {
      if k < 28 {
        assert s[k] == id[k - 17];
      } else {
        assert s[k] == query[k - 29];
      }
    }
    NoMarkerAroundQuery(s, 17, 28);
    forall q | 8 < q < 17 ensures !MarkerMatchesAt(s, q) {
      assert q == 9 || q == 10 || q == 11 || q == 12 || q == 13 || q == 14 || q == 15 || q == 16;
    }
  }

  /** In a short link the ID stops at the `?` of the query, when the query holds no `/`, `&` or `?` and does not start with `v`. */
  lemma ShortLinkRewritten(id: string, query: string)
    requires |id| == IdLength
    requires forall k :: 0 <= k < |id| ==> !IsSeparator(id[k]) && id[k] != '#'
    requires forall k :: 0 <= k < |query| ==> !IsSeparator(query[k])
    requires query == [] || query[0] != 'v'
    ensures GetEmbedUrl(ShortPrefix + id + "?" + query) == EmbedPrefix + id
  {
    var s := ShortPrefix + id + "?" + query;
    ShortLinkMarker(id, query);
    ShortPrefixFacts();
    RightmostCandidateIsMatch(s, 8);
    var mt := MatchYouTube(s).value;
    AlternativesExclusive(s, 8, mt.marker, YoutuBe);
    assert forall k :: 0 <= k < 11 ==> s[17 + k] == id[k];
    assert s[28] == '?';
    assert mt.id == s[17..28] == id;
  }

  /** In `head + "&v=" + tail` the `&v=` is a candidate and no alternative starts after it. */
  lemma TrailingVMarker(head: string, tail: string)
    requires NoLineTerminator(head)
    requires forall k :: 0 <= k < |tail| ==> !IsSeparator(tail[k])
    ensures var s := head + "&v=" + tail;
      && Candidate(s, |head|) && AltMatches(s, |head|, AmpV)
      && forall q :: |head| < q ==> !MarkerMatchesAt(s, q)
  {
    var s := head + "&v=" + tail;
    var h := |head|;
    assert s[h] == '&' && s[h + 1] == 'v' && s[h + 2] == '=';
    assert AltMatches(s, h, AmpV);
    forall k | 0 <= k < h + 3 ensures !IsLineTerminator(s[k]) {
      if k < h {
        assert s[k] == head[k];
      }
    }
    ReachesAtLeast(s, h + 3);
    forall k | h + 3 <= k < |s| ensures !IsSeparator(s[k]) {
      assert s[k] == tail[k - h - 3];
    }
    NoMarkerWithoutSeparator(s, h + 3);
  }

  /**
   * The rightmost marker wins: whatever precedes it (without a line terminator),
   * a trailing `&v=` whose value is not 11 characters long leaves the link unchanged.
   */
  lemma TrailingVParamWins(head: string, tail: string)
    requires NoLineTerminator(head)
    requires |tail| != IdLength
    requires forall k :: 0 <= k < |tail| ==> !IsSeparator(tail[k]) && tail[k] != '#'
    ensures GetEmbedUrl(head + "&v=" + tail) == head + "&v=" + tail
  {
    var s := head + "&v=" + tail;
    var h := |head|;
    TrailingVMarker(head, tail);
    RightmostCandidateIsMatch(s, h);
    var mt := MatchYouTube(s).value;
    AlternativesExclusive(s, h, mt.marker, AmpV);
    assert forall k :: 0 <= k < |tail| ==> s[h + 3 + k] == tail[k];
    assert mt.id == s[h + 3..] == tail;
  }

  /** The same trailing `&v=` with a value of exactly 11 characters rewrites the link to that value, whatever marker precedes it. */
  lemma TrailingVParamRewritten(head: string, tail: string)
    requires NoLineTerminator(head)
    requires |tail| == IdLength
    requires forall k :: 0 <= k < |tail| ==> !IsSeparator(tail[k]) && tail[k] != '#'
    ensures GetEmbedUrl(head + "&v=" + tail) == EmbedPrefix + tail
  {
    var s := head + "&v=" + tail;
    var h := |head|;
    TrailingVMarker(head, tail);
    RightmostCandidateIsMatch(s, h);
    var mt := MatchYouTube(s).value;
    AlternativesExclusive(s, h, mt.marker, AmpV);
    assert forall k :: 0 <= k < |tail| ==> s[h + 3 + k] == tail[k];
    assert mt.id == s[h + 3..] == tail;
  }

  /** A short link whose query ends in `&v=` and an 11-character value is rewritten to that value, not to the path's ID. */
  lemma ShortLinkLaterVParam()
    ensures GetEmbedUrl(ShortPrefix + "dQw4w9WgXcQ" + "?" + "t=1&v=abcdefghijk") == EmbedPrefix + "abcdefghijk"
  {
    var head := ShortPrefix + "dQw4w9WgXcQ" + "?" + "t=1";
    ShortPrefixFacts();
    assert NoLineTerminator(head) by {
      forall k | 0 <= k < |head| ensures !IsLineTerminator(head[k]) {
        if k >= 17 {
          assert head[k] == ("dQw4w9WgXcQ" + "?" + "t=1")[k - 17];
        }
      }
    }
    assert ShortPrefix + "dQw4w9WgXcQ" + "?" + "t=1&v=abcdefghijk" == head + "&v=" + "abcdefghijk";
    TrailingVParamRewritten(head, "abcdefghijk");
  }

  /** `^.*` cannot pass a line terminator: in `v/abcdefghij\n&v=abc` the `v/` wins, and group 2, which holds the `\n`, is 11 characters long. */
  lemma LineTerminatorStopsReach()
    ensures GetEmbedUrl("v/" + "abcdefghij" + "\n" + "&v=abc") == EmbedPrefix + "abcdefghij" + "\n"
  {
    var body := "abcdefghij";
    var s := "v/" + body + "\n" + "&v=abc";
    assert s[12] == '\n' && s[13] == '&';
    forall k | 0 <= k < 12 ensures !IsLineTerminator(s[k]) && (2 <= k ==> !IsSeparator(s[k])) {
      if 2 <= k {
        assert s[k] == body[k - 2];
      }
    }
    ReachesAtLeast(s, 12);
    assert FirstLineTerminator(s) == 12;
    assert AltMatches(s, 0, VSlash);
    NoMarkerBeforeTerminator(s, 2, 12);
    assert !MarkerMatchesAt(s, 1) by {
      assert s[1] == '/';
    }
    RightmostCandidateIsMatch(s, 0);
    var mt := MatchYouTube(s).value;
    AlternativesExclusive(s, 0, mt.marker, VSlash);
    assert s[2..13] == body + "\n";
    assert mt.id == s[2..13];
  }

  /** `https://www.youtube.com/watch?v=dQw4w9WgXcQ` becomes `https://www.youtube.com/embed/dQw4w9WgXcQ`. */
  lemma WatchLinkScenario()
    ensures GetEmbedUrl(WatchPrefix + "dQw4w9WgXcQ") == EmbedPrefix + "dQw4w9WgXcQ"
  {
    WatchLinkRewritten("dQw4w9WgXcQ");
  }

  /** `https://youtu.be/dQw4w9WgXcQ?t=10` becomes `https://www.youtube.com/embed/dQw4w9WgXcQ`. */
  lemma ShortLinkScenario()
    ensures GetEmbedUrl(ShortPrefix + "dQw4w9WgXcQ" + "?" + "t=10") == EmbedPrefix + "dQw4w9WgXcQ"
  {
    ShortLinkRewritten("dQw4w9WgXcQ", "t=10");
  }

  /** `https://www.youtube.com/watch?v=dQw4w9WgXcQ&v=abc` is left unchanged: the later `&v=abc` wins. */
  lemma RightmostMarkerScenario()
    ensures var url := WatchPrefix + "dQw4w9WgXcQ" + "&v=" + "abc";
      GetEmbedUrl(url) == url
  {
    WatchPrefixPlain();
    assert NoLineTerminator("dQw4w9WgXcQ");
    TrailingVParamWins(WatchPrefix + "dQw4w9WgXcQ", "abc");
  }
}
