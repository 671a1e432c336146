/**
 * `extract_video_id`: `re.search` with two patterns, tried in order.
 *
 *   pattern 1: (?:youtube\.com\/watch\?v=|youtu\.be\/|youtube\.com\/embed\/)([a-zA-Z0-9_-]{11})
 *   pattern 2: youtube\.com\/.*[?&]v=([a-zA-Z0-9_-]{11})
 *
 * `re.search` tries start positions from left to right and returns the first
 * that matches. In pattern 2 the greedy `.*` (which never crosses a newline)
 * backs off from the end of the line, so the LAST `?v=`/`&v=` on that line wins.
 */
module VideoId {
  import opened Wrappers
  import opened Text

  const IdLength: nat := 11

  /** The alternatives of pattern 1, in the order the regex tries them. */
  const LinkPrefixes: seq<string> := ["youtube.com/watch?v=", "youtu.be/", "youtube.com/embed/"]

  /** The literal that starts pattern 2. */
  const SitePrefix: string := "youtube.com/"

  /** `[a-zA-Z0-9_-]` */
  predicate IsIdChar(c: char) {
    ('a' <= c <= 'z') || ('A' <= c <= 'Z') || ('0' <= c <= '9') || c == '_' || c == '-'
  }

  /** Eleven identifier characters start at `k`. */
  predicate IdAt(s: string, k: nat) {
    k + IdLength <= |s| && forall j :: k <= j < k + IdLength ==> IsIdChar(s[j])
  }

  /** Pattern 1 matches at `start`, using alternative `a`, with the identifier at `idStart`. */
  predicate LinkHit(s: string, start: nat, idStart: nat) {
    exists a :: 0 <= a < |LinkPrefixes| && idStart == start + |LinkPrefixes[a]|
      && OccursAt(s, LinkPrefixes[a], start) && IdAt(s, idStart)
  }

  /** Pattern 1 matches at `start`. */
  predicate LinkMatchesAt(s: string, start: nat) {
    exists a :: 0 <= a < |LinkPrefixes| && OccursAt(s, LinkPrefixes[a], start) && IdAt(s, start + |LinkPrefixes[a]|)
  }

  /** `[?&]v=` at `j`, followed by an identifier. */
  predicate ParamAt(s: string, j: nat) {
    j + 3 <= |s| && (s[j] == '?' || s[j] == '&') && s[j + 1] == 'v' && s[j + 2] == '=' && IdAt(s, j + 3)
  }

  /** Where the line holding position `i` ends: the first newline at or after `i`, or the end. */
  function LineEnd(s: string, i: nat): (e: nat)
    requires i <= |s|
    ensures i <= e <= |s|
    ensures forall j :: i <= j < e ==> s[j] != '\n'
    ensures e < |s| ==> s[e] == '\n'
    decreases |s| - i
  {
    if i == |s| || s[i] == '\n' then i else LineEnd(s, i + 1)
  }

  /** Greedy backtracking: the last position in [lo, hi) where `[?&]v=` and an identifier follow. */
  function LastParam(s: string, lo: nat, hi: nat): (r: Option<nat>)
    requires lo <= hi <= |s|
    ensures r.Some? ==> (lo <= r.value < hi && ParamAt(s, r.value)
      && forall j :: r.value < j < hi ==> !ParamAt(s, j))
    ensures r.None? ==> forall j :: lo <= j < hi ==> !ParamAt(s, j)
    decreases hi - lo
  {
    if hi == lo then None
    else if ParamAt(s, hi - 1) then Some(hi - 1)
    else LastParam(s, lo, hi - 1)
  }

  /** Pattern 2 matches at `start` with the identifier at `idStart`. */
  predicate ParamHit(s: string, start: nat, idStart: nat) {
    && OccursAt(s, SitePrefix, start)
    && start + |SitePrefix| + 3 <= idStart
    && ParamAt(s, idStart - 3)
    && idStart - 3 < LineEnd(s, start + |SitePrefix|)
    && forall j :: idStart - 3 < j < LineEnd(s, start + |SitePrefix|) ==> !ParamAt(s, j)
  }

  /** Pattern 2 matches at `start`. */
  predicate ParamMatchesAt(s: string, start: nat) {
    && OccursAt(s, SitePrefix, start)
    && exists j :: start + |SitePrefix| <= j < LineEnd(s, start + |SitePrefix|) && ParamAt(s, j)
  }

  /** Where the identifier starts when pattern 1 is tried at `start`, trying alternatives from `a` on. */
  function LinkAt(s: string, start: nat, a: nat): (k: Option<nat>)
    ensures k.Some? ==> LinkHit(s, start, k.value)
    ensures k.None? ==> forall b :: a <= b < |LinkPrefixes| ==>
      !(OccursAt(s, LinkPrefixes[b], start) && IdAt(s, start + |LinkPrefixes[b]|))
    decreases |LinkPrefixes| - a
  {
    if a >= |LinkPrefixes| then None
    else if OccursAt(s, LinkPrefixes[a], start) && IdAt(s, start + |LinkPrefixes[a]|) then Some(start + |LinkPrefixes[a]|)
    else LinkAt(s, start, a + 1)
  }

  /** Where the identifier starts when pattern 2 is tried at `start`. */
  function ParamAtStart(s: string, start: nat): (k: Option<nat>)
    ensures k.Some? ==> ParamHit(s, start, k.value)
    ensures k.None? ==> !ParamMatchesAt(s, start)
  {
    if OccursAt(s, SitePrefix, start) then
      match LastParam(s, start + |SitePrefix|, LineEnd(s, start + |SitePrefix|))
      case Some(j) => Some(j + 3)
      case None => None
    else None
  }

  /** `re.search` with pattern 1 from position `i` on: the leftmost start and where its identifier starts. */
  function SearchLink(s: string, i: nat): (r: Option<(nat, nat)>)
    ensures r.Some? ==> (i <= r.value.0 && LinkHit(s, r.value.0, r.value.1)
      && forall j :: i <= j < r.value.0 ==> !LinkMatchesAt(s, j))
    ensures r.None? ==> forall j :: i <= j <= |s| ==> !LinkMatchesAt(s, j)
    decreases |s| + 1 - i
  {
    if i > |s| then None
    else match LinkAt(s, i, 0)
      case Some(k) => Some((i, k))
      case None => SearchLink(s, i + 1)
  }

  /** `re.search` with pattern 2 from position `i` on. */
  function SearchParam(s: string, i: nat): (r: Option<(nat, nat)>)
    ensures r.Some? ==> (i <= r.value.0 && ParamHit(s, r.value.0, r.value.1)
      && forall j :: i <= j < r.value.0 ==> !ParamMatchesAt(s, j))
    ensures r.None? ==> forall j :: i <= j <= |s| ==> !ParamMatchesAt(s, j)
    decreases |s| + 1 - i
  {
    if i > |s| then None
    else match ParamAtStart(s, i)
      case Some(k) => Some((i, k))
      case None => SearchParam(s, i + 1)
  }

  /** The match `extract_video_id` reports: pattern 1's if it has one, else pattern 2's. */
  function Locate(url: string): (r: Option<(nat, nat)>)
    ensures r.Some? ==> r.value.1 + IdLength <= |url|
    ensures r.Some? ==>
      || (LinkHit(url, r.value.0, r.value.1) && forall j :: 0 <= j < r.value.0 ==> !LinkMatchesAt(url, j))
      || ((forall j :: 0 <= j <= |url| ==> !LinkMatchesAt(url, j))
          && ParamHit(url, r.value.0, r.value.1) && forall j :: 0 <= j < r.value.0 ==> !ParamMatchesAt(url, j))
    ensures r.None? <==> forall j :: 0 <= j <= |url| ==> !LinkMatchesAt(url, j) && !ParamMatchesAt(url, j)
  {
    match SearchLink(url, 0)
    case Some(m) =>
      assert LinkMatchesAt(url, m.0) by {
        var a :| 0 <= a < |LinkPrefixes| && m.1 == m.0 + |LinkPrefixes[a]| && OccursAt(url, LinkPrefixes[a], m.0) && IdAt(url, m.1);
      }
      Some(m)
    case None =>
      var m := SearchParam(url, 0);
      if m.Some? then
        assert ParamMatchesAt(url, m.value.0) by {
          assert ParamAt(url, m.value.1 - 3);
        }
        m
      else
        assert forall j :: 0 <= j <= |url| ==> !LinkMatchesAt(url, j) && !ParamMatchesAt(url, j);
        None
  }

  /**
   * `extract_video_id(url)`: `None` for an empty URL or when neither pattern
   * matches anywhere; otherwise the eleven identifier characters of the match.
   */
  function ExtractVideoId(url: string): (r: Option<string>)
    ensures r.None? <==> url == [] || forall j :: 0 <= j <= |url| ==> !LinkMatchesAt(url, j) && !ParamMatchesAt(url, j)
    ensures r.Some? ==> |r.value| == IdLength && forall i :: 0 <= i < |r.value| ==> IsIdChar(r.value[i])
    ensures r.Some? ==> Locate(url).Some? && r.value == IdFrom(url, Locate(url).value.1)
  {
    if url == [] then None
    else match Locate(url)
      case Some(m) => Some(IdFrom(url, m.1))
      case None => None
  }

  /** The eleven characters from `k` on, or the shorter rest of `s`. */
  function IdFrom(s: string, k: nat): (r: string)
    ensures IdAt(s, k) ==> |r| == IdLength && forall i :: 0 <= i < |r| ==> IsIdChar(r[i])
  {
    if k + IdLength <= |s| then s[k..k + IdLength] else []
  }

  lemma OccursAtHead(s: string, sub: string, i: nat)
    requires |sub| > 0 && OccursAt(s, sub, i)
    ensures s[i] == sub[0]
  {
    assert s[i..i + |sub|][0] == s[i];
  }

  /** No match of either pattern can start at a position that does not hold a `y`. */
  lemma NoMatchWithoutY(s: string, j: nat)
    requires j < |s| && s[j] != 'y'
    ensures !LinkMatchesAt(s, j) && !ParamMatchesAt(s, j)
  {
    forall a | 0 <= a < |LinkPrefixes| && OccursAt(s, LinkPrefixes[a], j)
      ensures false
    {
      OccursAtHead(s, LinkPrefixes[a], j);
    }
    if OccursAt(s, SitePrefix, j) {
      OccursAtHead(s, SitePrefix, j);
    }
  }

  /** The three alternatives of pattern 1 exclude each other at any one position. */
  lemma LinkPrefixesExclusive(s: string, p: nat, a: nat, b: nat)
    requires 0 <= a < |LinkPrefixes| && 0 <= b < |LinkPrefixes|
    requires OccursAt(s, LinkPrefixes[a], p) && OccursAt(s, LinkPrefixes[b], p)
    ensures a == b
  {
    var pa, pb := LinkPrefixes[a], LinkPrefixes[b];
    assert pa[5] == s[p + 5] == pb[5] by {
      assert s[p..p + |pa|][5] == s[p + 5] && s[p..p + |pb|][5] == s[p + 5];
    }
    if a != 1 && b != 1 {
      assert pa[12] == s[p + 12] == pb[12] by {
        assert s[p..p + |pa|][12] == s[p + 12] && s[p..p + |pb|][12] == s[p + 12];
      }
    }
  }

  /**
   * When no `y` comes before position `p` and alternative `a` of pattern 1
   * matches at `p`, the identifier is the eleven characters after that alternative.
   */
  lemma LeftmostLink(s: string, p: nat, a: nat)
    requires 0 <= a < |LinkPrefixes|
    requires forall j :: 0 <= j < p && j < |s| ==> s[j] != 'y'
    requires OccursAt(s, LinkPrefixes[a], p) && IdAt(s, p + |LinkPrefixes[a]|)
    ensures ExtractVideoId(s) == Some(s[p + |LinkPrefixes[a]|..p + |LinkPrefixes[a]| + IdLength])
  {
    forall j | 0 <= j < p ensures !LinkMatchesAt(s, j) {
      NoMatchWithoutY(s, j);
    }
    assert LinkMatchesAt(s, p);
    var m := SearchLink(s, 0).value;
    assert m.0 <= p;
    assert LinkMatchesAt(s, m.0) by {
      var b :| 0 <= b < |LinkPrefixes| && m.1 == m.0 + |LinkPrefixes[b]| && OccursAt(s, LinkPrefixes[b], m.0) && IdAt(s, m.1);
    }
    assert m.0 == p;
    var b :| 0 <= b < |LinkPrefixes| && m.1 == m.0 + |LinkPrefixes[b]| && OccursAt(s, LinkPrefixes[b], m.0);
    LinkPrefixesExclusive(s, p, a, b);
  }

  /** A short link gives the eleven characters after `youtu.be/`, whatever follows them. */
  lemma ShortLinkId(id: string, tail: string)
    requires |id| == IdLength && forall i :: 0 <= i < |id| ==> IsIdChar(id[i])
    ensures ExtractVideoId("https://youtu.be/" + id + tail) == Some(id)
  {
    var url := "https://youtu.be/" + id + tail;
    assert url[..17] == "https://youtu.be/";
    assert forall j :: 0 <= j < 8 ==> url[j] == url[..17][j];
    assert url[8..17] == LinkPrefixes[1];
    assert url[17..28] == id;
    LeftmostLink(url, 8, 1);
  }

  /** A watch link gives the eleven characters after `watch?v=`, whatever follows them. */
  lemma WatchLinkId(id: string, tail: string)
    requires |id| == IdLength && forall i :: 0 <= i < |id| ==> IsIdChar(id[i])
    ensures ExtractVideoId("https://www.youtube.com/watch?v=" + id + tail) == Some(id)
  {
    var url := "https://www.youtube.com/watch?v=" + id + tail;
    assert url[..32] == "https://www.youtube.com/watch?v=";
    assert forall j :: 0 <= j < 12 ==> url[j] == url[..32][j];
    assert url[12..32] == LinkPrefixes[0];
    assert url[32..43] == id;
    LeftmostLink(url, 12, 0);
  }
}
