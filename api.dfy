/**
 * The candidate calls of `download_transcript_api`, in the order both
 * downloaders make them, and the first-success search over them.
 */
module Api {
  import opened Wrappers
  import opened Entries
  import opened Search
  import opened Externals

  /** One call to the caption service that can yield entries. */
  datatype Call =
    | Direct(lang: string)                  // get_transcript(video_id, languages=[lang])
    | FetchTrack(index: nat)                // the listed transcript at `index`, fetch()
    | Translate(index: nat, target: string) // that transcript, translate(target).fetch()

  /** The languages asked for directly, in order. */
  const Preferred: seq<string> := ["pt", "pt-BR", "en", "en-US"]

  /** The translation targets, in order. */
  const Targets: seq<string> := ["pt", "en"]

  /** What the service answers to a call about a video whose listing is `tracks`. */
  function Answer(c: Captions, tracks: seq<Track>, call: Call): Fetch {
    match call
    case Direct(lang) => c.direct(lang)
    case FetchTrack(i) => if i < |tracks| then tracks[i].fetched else Raised
    case Translate(i, target) => if i < |tracks| then tracks[i].translations(target) else Raised
  }

  /** A call whose answer ends the search. */
  predicate Hit(c: Captions, tracks: seq<Track>, call: Call) {
    Useful(Answer(c, tracks, call))
  }

  function DirectCalls(langs: seq<string>): (calls: seq<Call>)
    ensures |calls| == |langs|
    ensures forall k :: 0 <= k < |langs| ==> calls[k] == Direct(langs[k])
  {
    seq(|langs|, k requires 0 <= k < |langs| => Direct(langs[k]))
  }

  function TranslateCalls(i: nat): (calls: seq<Call>)
    ensures |calls| == |Targets|
    ensures forall k :: 0 <= k < |Targets| ==> calls[k] == Translate(i, Targets[k])
  {
    seq(|Targets|, k requires 0 <= k < |Targets| => Translate(i, Targets[k]))
  }

  /** Whether a translation is tried after fetching listed transcript `t`. */
  predicate TranslatesAfter(t: Track, translate: bool) {
    translate && t.fetched.Raised? && t.translatable
  }

  /**
   * The calls made for the listed transcript at `i`: its fetch, then, when
   * translation is on, the fetch raised and the transcript is translatable,
   * its translations.
   */
  function Segment(tracks: seq<Track>, i: nat, translate: bool): seq<Call>
    requires i < |tracks|
  {
    [FetchTrack(i)] + (if TranslatesAfter(tracks[i], translate) then TranslateCalls(i) else [])
  }

  /** The calls for the first `n` listed transcripts. */
  function TrackCalls(tracks: seq<Track>, n: nat, translate: bool): seq<Call>
    requires n <= |tracks|
  {
    if n == 0 then [] else TrackCalls(tracks, n - 1, translate) + Segment(tracks, n - 1, translate)
  }

  /** Every candidate call, in the order the search makes them. */
  function Candidates(tracks: seq<Track>, translate: bool): seq<Call> {
    DirectCalls(Preferred) + TrackCalls(tracks, |tracks|, translate)
  }

  /** The text a strategy returns, and the calls it made. */
  datatype ApiOutcome = ApiOutcome(text: Option<string>, tried: seq<Call>)

  /** The processed text of the answer to `call` (empty when the call raised). */
  function AnswerText(c: Captions, tracks: seq<Track>, call: Call): string {
    match Answer(c, tracks, call)
    case Data(entries) => TranscriptText(entries)
    case Raised => ""
  }

  /** The search ended at a call that answered with entries: the last call made. */
  predicate Stopped(c: Captions, tracks: seq<Track>, tried: seq<Call>) {
    tried != [] && Hit(c, tracks, tried[|tried| - 1])
  }

  /** What a search that made the calls `tried` returns: the processed answer of the last, when it hit. */
  function Found(c: Captions, tracks: seq<Track>, tried: seq<Call>): Option<string> {
    if Stopped(c, tracks, tried) then Some(AnswerText(c, tracks, tried[|tried| - 1])) else None
  }

  /**
   * The search once listing succeeded: it makes the candidate calls up to the
   * first that answers with entries, and returns that answer processed.
   */
  function ApiSearch(c: Captions, tracks: seq<Track>, translate: bool): (out: ApiOutcome)
    ensures out.tried <= Candidates(tracks, translate)
    ensures out.text.Some? ==> Stopped(c, tracks, out.tried)
    ensures out.tried != Candidates(tracks, translate) ==> Stopped(c, tracks, out.tried)
  {
    var tried := Tried(Candidates(tracks, translate), (call: Call) => Hit(c, tracks, call));
    ApiOutcome(Found(c, tracks, tried), tried)
  }

  // ----- The order of the candidates -----

  /** The calls for fewer transcripts come first among the calls for more. */
  lemma {:induction false} TrackCallsPrefix(tracks: seq<Track>, m: nat, n: nat, translate: bool)
    requires m <= n <= |tracks|
    ensures TrackCalls(tracks, m, translate) <= TrackCalls(tracks, n, translate)
    decreases n
  {
    if m < n {
      TrackCallsPrefix(tracks, m, n - 1, translate);
    }
  }

  /**
   * The candidate calls for listed transcripts are exactly: a fetch of each,
   * and a translation into a target only for a translatable transcript whose
   * fetch raised, when translation is on.
   */
  lemma {:induction false} TrackCallsMembers(tracks: seq<Track>, n: nat, translate: bool, call: Call)
    requires n <= |tracks|
    ensures call in TrackCalls(tracks, n, translate) <==>
      || (call.FetchTrack? && call.index < n)
      || (call.Translate? && call.index < n && call.target in Targets && TranslatesAfter(tracks[call.index], translate))
    decreases n
  {
    if n > 0 {
      TrackCallsMembers(tracks, n - 1, translate, call);
      var seg := Segment(tracks, n - 1, translate);
      if call.Translate? && call.index == n - 1 && call.target in Targets && TranslatesAfter(tracks[n - 1], translate) {
        var k :| 0 <= k < |Targets| && Targets[k] == call.target;
        assert seg[1 + k] == call;
      }
    }
  }

  /**
   * A translation among the candidates is of a listed transcript that is
   * translatable and whose fetch raised, into `pt` or `en`, and only when
   * translation is on.
   */
  lemma CandidateTranslation(tracks: seq<Track>, translate: bool, call: Call)
    requires call in Candidates(tracks, translate) && call.Translate?
    ensures call.index < |tracks| && call.target in Targets && TranslatesAfter(tracks[call.index], translate)
  {
    var direct := DirectCalls(Preferred);
    assert call !in direct;
    assert call in TrackCalls(tracks, |tracks|, translate);
    TrackCallsMembers(tracks, |tracks|, translate, call);
  }

  /** The search first asks for `pt`, `pt-BR`, `en` and `en-US` directly. */
  lemma CandidatesStart(tracks: seq<Track>, translate: bool)
    ensures Candidates(tracks, translate)[..4] == [Direct("pt"), Direct("pt-BR"), Direct("en"), Direct("en-US")]
  {
    var calls := Candidates(tracks, translate);
    assert calls[..4] == DirectCalls(Preferred);
  }

  // ----- What a search returns -----

  /** Every one of `calls` failed or answered with an empty list. */
  ghost predicate AllMiss(c: Captions, tracks: seq<Track>, calls: seq<Call>) {
    forall k :: 0 <= k < |calls| ==> !Hit(c, tracks, calls[k])
  }

  /** `tried` ends with its only hit, whose processed answer is `t`. */
  ghost predicate EndsWithHit(c: Captions, tracks: seq<Track>, tried: seq<Call>, t: string) {
    && tried != []
    && AllMiss(c, tracks, tried[..|tried| - 1])
    && Hit(c, tracks, tried[|tried| - 1])
    && t == AnswerText(c, tracks, tried[|tried| - 1])
  }

  /**
   * `tried` is what a search of `calls` in order makes: a prefix of them in
   * which every call but the last missed, and which ends early only at a hit.
   */
  ghost predicate Searched(c: Captions, tracks: seq<Track>, calls: seq<Call>, tried: seq<Call>)
    ensures Searched(c, tracks, calls, tried) && !Stopped(c, tracks, tried) ==> tried == calls
  {
    && tried <= calls
    && (tried != [] ==> AllMiss(c, tracks, tried[..|tried| - 1]))
    && (tried != calls ==> Stopped(c, tracks, tried))
  }

  /** A prefix of a run of misses is a run of misses. */
  lemma MissPrefix(c: Captions, tracks: seq<Track>, calls: seq<Call>, n: nat)
    requires n <= |calls| && AllMiss(c, tracks, calls)
    ensures AllMiss(c, tracks, calls[..n])
  {
    var p := calls[..n];
    forall j | 0 <= j < |p| ensures !Hit(c, tracks, p[j]) {
      assert p[j] == calls[j];
    }
  }

  /** One more miss extends a run of misses. */
  lemma MissStep(c: Captions, tracks: seq<Track>, calls: seq<Call>, k: nat)
    requires k < |calls| && AllMiss(c, tracks, calls[..k]) && !Hit(c, tracks, calls[k])
    ensures AllMiss(c, tracks, calls[..k + 1])
  {
    var p := calls[..k + 1];
    forall j | 0 <= j < |p| ensures !Hit(c, tracks, p[j]) {
      if j < k {
        assert p[j] == calls[..k][j];
      }
    }
  }

  /** Two runs of misses make one. */
  lemma MissAppend(c: Captions, tracks: seq<Track>, a: seq<Call>, b: seq<Call>)
    requires AllMiss(c, tracks, a) && AllMiss(c, tracks, b)
    ensures AllMiss(c, tracks, a + b)
  {
    var p := a + b;
    forall j | 0 <= j < |p| ensures !Hit(c, tracks, p[j]) {
      if j >= |a| {
        assert p[j] == b[j - |a|];
      }
    }
  }

  /** Calls that all missed before one that hit: the search stops at that one and returns its answer. */
  lemma SearchedHit(c: Captions, tracks: seq<Track>, calls: seq<Call>, k: nat)
    requires k < |calls| && Hit(c, tracks, calls[k]) && AllMiss(c, tracks, calls[..k])
    ensures Searched(c, tracks, calls, calls[..k + 1])
    ensures Found(c, tracks, calls[..k + 1]) == Some(AnswerText(c, tracks, calls[k]))
  {
    assert calls[..k + 1][..k] == calls[..k];
    assert calls[..k + 1][k] == calls[k];
  }

  /** Calls that all missed: the search makes every one and finds nothing. */
  lemma SearchedAll(c: Captions, tracks: seq<Track>, calls: seq<Call>)
    requires AllMiss(c, tracks, calls)
    ensures Searched(c, tracks, calls, calls) && Found(c, tracks, calls) == None
  {
    if calls != [] {
      MissPrefix(c, tracks, calls, |calls| - 1);
    }
  }

  /** A search that found nothing made every call, and every one missed. */
  lemma SearchedMissed(c: Captions, tracks: seq<Track>, calls: seq<Call>, tried: seq<Call>)
    requires Searched(c, tracks, calls, tried) && !Stopped(c, tracks, tried)
    ensures tried == calls && AllMiss(c, tracks, calls)
  {
    if calls != [] {
      MissStep(c, tracks, calls, |calls| - 1);
      assert calls[..|calls|] == calls;
    }
  }

  /** A search that hit among the first calls is a search of any calls that start with them. */
  lemma SearchedFirst(c: Captions, tracks: seq<Track>, a: seq<Call>, b: seq<Call>, tried: seq<Call>)
    requires Searched(c, tracks, a, tried) && Stopped(c, tracks, tried) && a <= b
    ensures Searched(c, tracks, b, tried)
  {
  }

  /** A search that missed all of a first stage goes on with the second, and returns what the second finds. */
  lemma SearchedThen(c: Captions, tracks: seq<Track>, a: seq<Call>, b: seq<Call>, tried: seq<Call>)
    requires AllMiss(c, tracks, a) && Searched(c, tracks, b, tried)
    ensures Searched(c, tracks, a + b, a + tried)
    ensures Found(c, tracks, a + tried) == Found(c, tracks, tried)
  {
    if tried != [] {
      var front := tried[..|tried| - 1];
      assert (a + tried)[..|a + tried| - 1] == a + front;
      assert (a + tried)[|a + tried| - 1] == tried[|tried| - 1];
      MissAppend(c, tracks, a, front);
    } else {
      assert a + tried == a;
      SearchedAll(c, tracks, a);
    }
  }

  /**
   * The search returns text exactly when some candidate answers with entries,
   * and the calls it makes are a search of the candidates: every one up to the
   * first hit, all but the last of them missed, and none after it.
   */
  lemma ApiSearchFound(c: Captions, tracks: seq<Track>, translate: bool)
    ensures var out := ApiSearch(c, tracks, translate);
      && Searched(c, tracks, Candidates(tracks, translate), out.tried)
      && (out.text.Some? <==> exists call :: call in Candidates(tracks, translate) && Hit(c, tracks, call))
  {
    var calls := Candidates(tracks, translate);
    var hit := (call: Call) => Hit(c, tracks, call);
    var k := FirstHit(calls, hit);
    assert AllMiss(c, tracks, calls[..k]) by {
      var p := calls[..k];
      forall j | 0 <= j < |p| ensures !Hit(c, tracks, p[j]) {
        assert p[j] == calls[j] && !hit(calls[j]);
      }
    }
    if k < |calls| {
      SearchedHit(c, tracks, calls, k);
    } else {
      assert calls[..k] == calls;
      SearchedAll(c, tracks, calls);
    }
  }

  /** A staged search over all the candidates makes the calls `ApiSearch` makes, and returns what it returns. */
  lemma SearchedIsApiSearch(c: Captions, tracks: seq<Track>, translate: bool, tried: seq<Call>)
    requires Searched(c, tracks, Candidates(tracks, translate), tried)
    ensures ApiOutcome(Found(c, tracks, tried), tried) == ApiSearch(c, tracks, translate)
  {
    var calls := Candidates(tracks, translate);
    var hit := (call: Call) => Hit(c, tracks, call);
    if tried != [] {
      var front := tried[..|tried| - 1];
      forall j | 0 <= j < |front| ensures !hit(front[j]) {
      }
    }
    TriedIs(calls, hit, tried);
  }

  // ----- The search loops -----

  /**
   * The loop over the listed transcripts, in order: each is fetched, and with
   * `translate` a translatable one whose fetch raised is translated.
   */
  method TryListed(c: Captions, tracks: seq<Track>, translate: bool) returns (text: Option<string>, ghost tried: seq<Call>)
    ensures Searched(c, tracks, TrackCalls(tracks, |tracks|, translate), tried) && text == Found(c, tracks, tried)
  {
    tried := [];
    var i := 0;
    while i < |tracks|
      invariant 0 <= i <= |tracks|
      invariant tried == TrackCalls(tracks, i, translate) && AllMiss(c, tracks, tried)
    {
      ghost var more;
      text, more := TryTrack(c, tracks, i, translate);
      SearchedThen(c, tracks, tried, Segment(tracks, i, translate), more);
      if text.Some? {
        TrackCallsPrefix(tracks, i + 1, |tracks|, translate);
        SearchedFirst(c, tracks, TrackCalls(tracks, i + 1, translate), TrackCalls(tracks, |tracks|, translate), tried + more);
        return text, tried + more;
      }
      SearchedMissed(c, tracks, Segment(tracks, i, translate), more);
      MissAppend(c, tracks, tried, more);
      tried := tried + more;
      i := i + 1;
    }
    SearchedAll(c, tracks, tried);
    return None, tried;
  }

  /** The first strategy of both downloaders: asking for each preferred language directly. */
  method TryPreferred(c: Captions, tracks: seq<Track>) returns (text: Option<string>, ghost tried: seq<Call>)
    ensures Searched(c, tracks, DirectCalls(Preferred), tried) && text == Found(c, tracks, tried)
  {
    ghost var calls := DirectCalls(Preferred);
    var j := 0;
    while j < |Preferred|
      invariant 0 <= j <= |Preferred|
      invariant AllMiss(c, tracks, calls[..j])
    {
      var data := c.direct(Preferred[j]);
      assert Answer(c, tracks, calls[j]) == data;
      if data.Data? && data.entries != [] {
        var t := ProcessTranscriptData(data.entries);
        SearchedHit(c, tracks, calls, j);
        return Some(t), calls[..j + 1];
      }
      MissStep(c, tracks, calls, j);
      j := j + 1;
    }
    assert calls[..j] == calls;
    SearchedAll(c, tracks, calls);
    return None, calls;
  }

  /**
   * The calls for one listed transcript: fetching it, and with `translate`,
   * when that raised and it is translatable, fetching its translations.
   */
  method TryTrack(c: Captions, tracks: seq<Track>, i: nat, translate: bool) returns (text: Option<string>, ghost tried: seq<Call>)
    requires i < |tracks|
    ensures Searched(c, tracks, Segment(tracks, i, translate), tried) && text == Found(c, tracks, tried)
  {
    var track := tracks[i];
    tried := [FetchTrack(i)];
    assert Answer(c, tracks, FetchTrack(i)) == track.fetched;
    if track.fetched.Data? && track.fetched.entries != [] {
      var t := ProcessTranscriptData(track.fetched.entries);
      return Some(t), tried;
    }
    assert AllMiss(c, tracks, tried);
    if TranslatesAfter(track, translate) {
      assert Segment(tracks, i, translate) == tried + TranslateCalls(i);
      ghost var more;
      text, more := TryTranslations(c, tracks, i);
      SearchedThen(c, tracks, tried, TranslateCalls(i), more);
      return text, tried + more;
    }
    assert Segment(tracks, i, translate) == tried;
    SearchedAll(c, tracks, tried);
    return None, tried;
  }

  /** The translation step: translating the listed transcript at `i` into each target in turn. */
  method TryTranslations(c: Captions, tracks: seq<Track>, i: nat) returns (text: Option<string>, ghost tried: seq<Call>)
    requires i < |tracks|
    ensures Searched(c, tracks, TranslateCalls(i), tried) && text == Found(c, tracks, tried)
  {
    var track := tracks[i];
    ghost var calls := TranslateCalls(i);
    var m := 0;
    while m < |Targets|
      invariant 0 <= m <= |Targets|
      invariant AllMiss(c, tracks, calls[..m])
    {
      var data := track.translations(Targets[m]);
      assert Answer(c, tracks, calls[m]) == data;
      if data.Data? && data.entries != [] {
        var t := ProcessTranscriptData(data.entries);
        SearchedHit(c, tracks, calls, m);
        return Some(t), calls[..m + 1];
      }
      MissStep(c, tracks, calls, m);
      m := m + 1;
    }
    assert calls[..m] == calls;
    SearchedAll(c, tracks, calls);
    return None, calls;
  }

}
