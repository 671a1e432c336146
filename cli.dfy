/**
 * The command-line downloader, `YouTubeTranscriptDownloader` of
 * `youtube_transcript.py`: the caption-service strategy with its translation
 * step, the yt-dlp strategy that looks for the exact file name before
 * globbing and never deletes, the single-video orchestration that saves
 * `transcricao_<id>.txt`, and the batch over the URLs of a file.
 */
module Cli {
  import opened Wrappers
  import opened Text
  import opened Decimal
  import opened Counting
  import opened Search
  import opened VideoId
  import opened Filename
  import opened Subtitles
  import opened Entries
  import opened UrlList
  import opened Staging
  import opened Externals
  import opened Api
  import opened Outcomes

  // ----- download_transcript_api -----

  /**
   * The caption-service strategy: nothing when listing raised or listed no
   * transcript; otherwise the search over the preferred languages, then each
   * listed transcript with its translations.
   */
  function ApiTranscript(c: Captions): (out: ApiOutcome)
    ensures c.listing.ListingRaised? || c.listing.tracks == [] ==> out == ApiOutcome(None, [])
    ensures c.listing.Listed? && c.listing.tracks != [] ==>
      Searched(c, c.listing.tracks, Candidates(c.listing.tracks, true), out.tried)
  {
    match c.listing
    case ListingRaised => ApiOutcome(None, [])
    case Listed(tracks) =>
      if tracks == [] then ApiOutcome(None, [])
      else
        ApiSearchFound(c, tracks, true);
        ApiSearch(c, tracks, true)
  }

  /**
   * The strategy makes a call only when listing found a transcript; its calls
   * start with the four preferred languages in order; and it asks for a
   * translation only of a translatable transcript whose fetch raised, into
   * `pt` or `en`.
   */
  lemma ApiTranscriptCalls(c: Captions)
    ensures var out := ApiTranscript(c);
      && (out.tried != [] ==> c.listing.Listed? && c.listing.tracks != [])
      && (out.tried != [] ==> out.tried <= Candidates(c.listing.tracks, true))
      && (forall call :: call in out.tried && call.Translate? ==>
            && call.index < |c.listing.tracks|
            && call.target in Targets
            && c.listing.tracks[call.index].fetched.Raised?
            && c.listing.tracks[call.index].translatable)
  {
    var out := ApiTranscript(c);
    if out.tried != [] {
      var tracks := c.listing.tracks;
      ApiSearchFound(c, tracks, true);
      forall call | call in out.tried && call.Translate?
        ensures call.index < |tracks| && call.target in Targets
        ensures tracks[call.index].fetched.Raised? && tracks[call.index].translatable
      {
        CandidateTranslation(tracks, true, call);
      }
    }
  }

  // ----- download_with_ytdlp -----

  /** The languages the strategy downloads, in order. */
  const Languages: seq<string> := ["pt", "pt-BR"]

  /**
   * The title used in file names, or `None` when the strategy gives up at the
   * probe: it raised, or exited with 0 without printing a JSON object. A
   * non-zero exit falls back to the raw id; a missing `title` key to the
   * cleaned id.
   */
  function ProbeTitle(p: Probe, id: string): (r: Option<string>)
    ensures r.None? <==> p.ProbeRaised? || (p.code == 0 && p.info.None?)
    ensures p.ProbeExit? && p.code != 0 ==> r == Some(id)
    ensures p.ProbeExit? && p.code == 0 && p.info.Some? ==>
      && r.Some? && IsCleanName(r.value)
      && (p.info.value.title.None? ==> r.value == CleanFilename(id))
  {
    match p
    case ProbeRaised => None
    case ProbeExit(code, info) =>
      if code != 0 then Some(id)
      else if info.None? then None
      else Some(CleanFilename(info.value.title.GetOr(id)))
  }

  /** `{title}_[{video_id}].{lang}.vtt`, then the same name ending in `.srt`. */
  function ExactNames(stem: string, lang: string): (names: seq<string>)
    ensures |names| == 2
    ensures forall name :: name in names ==> IsSubtitleName(name)
  {
    var head := stem + "." + lang;
    SubtitleEndings(head);
    [head + ".vtt", head + ".srt"]
  }

  lemma SubtitleEndings(head: string)
    requires head != []
    ensures IsSubtitleName(head + ".vtt") && IsSubtitleName(head + ".srt")
  {
    var vtt, srt := "vtt", "srt";
    SuffixOf(head, vtt);
    SuffixOf(head, srt);
    assert head + "." + vtt == head + ".vtt";
    assert head + "." + srt == head + ".srt";
  }

  /**
   * The file parsed after a download that exited with 0: the first exact name
   * that exists, otherwise the first `.vtt` or `.srt` file a glob for the id
   * lists.
   */
  function FindStaged(d: Dir, stem: string, id: string, lang: string): (r: Option<string>)
    requires d.Valid()
    ensures r.Some? ==> r.value in d.files && IsSubtitleName(r.value)
    ensures var exact := ExactNames(stem, lang);
      && (exact[0] in d.files ==> r == Some(exact[0]))
      && (exact[0] !in d.files && exact[1] in d.files ==> r == Some(exact[1]))
      && (r.Some? ==> r.value in exact || Contains(r.value, id))
      && (r.None? <==>
            && exact[0] !in d.files && exact[1] !in d.files
            && forall name :: name in d.files && Contains(name, id) ==> !IsSubtitleName(name))
  {
    var exact := ExactNames(stem, lang);
    if exact[0] in d.files then Some(exact[0])
    else if exact[1] in d.files then Some(exact[1])
    else
      var found := FirstSubtitle(d.Glob(id));
      assert found.Some? ==> found.value in d.files && Contains(found.value, id) by {
        if found.Some? {
          GlobbedSubtitle(d, id);
        }
      }
      NoGlobbedSubtitle(d, id);
      found
  }

  /** The language loop from the languages `langs` on, starting from directory `d`. */
  function Downloads(w: World, url: string, id: string, stem: string, langs: seq<string>, d: Dir): (out: YtdlpOutcome)
    requires d.Valid()
    ensures out.dir.Valid()
    decreases |langs|
  {
    if langs == [] then YtdlpOutcome(None, d, [])
    else match w.run(url, langs[0], stem)
      case RunRaised => YtdlpOutcome(None, d, [langs[0]])
      case RunExit(code, written) =>
        var d1 := d.WriteAll(written);
        var found := if code == 0 then FindStaged(d1, stem, id, langs[0]) else None;
        if found.Some? then
          YtdlpOutcome(ParseSubtitleFile(found.value, d1.files[found.value]), d1, [langs[0]])
        else
          After([langs[0]], Downloads(w, url, id, stem, langs[1..], d1))
  }

  /** The whole yt-dlp strategy. */
  function Ytdlp(w: World, d: Dir, url: string, id: string): (out: YtdlpOutcome)
    requires d.Valid()
    ensures out.dir.Valid()
    ensures out.langs <= Languages && d.files.Keys <= out.dir.files.Keys
  {
    match ProbeTitle(w.probe(url), id)
    case None => YtdlpOutcome(None, d, [])
    case Some(title) =>
      DownloadsLangs(w, url, id, Stem(title, id), Languages, d);
      DownloadsKeeps(w, url, id, Stem(title, id), Languages, d);
      Downloads(w, url, id, Stem(title, id), Languages, d)
  }

  /** The loop downloads a prefix of its languages, in order. */
  lemma {:induction false} DownloadsLangs(w: World, url: string, id: string, stem: string, langs: seq<string>, d: Dir)
    requires d.Valid()
    ensures Downloads(w, url, id, stem, langs, d).langs <= langs
    decreases |langs|
  {
    if langs != [] {
      var run := w.run(url, langs[0], stem);
      if run.RunExit? {
        var d1 := d.WriteAll(run.written);
        DownloadsLangs(w, url, id, stem, langs[1..], d1);
        assert langs == [langs[0]] + langs[1..];
      }
    }
  }

  /** The loop never deletes a file. */
  lemma {:induction false} DownloadsKeeps(w: World, url: string, id: string, stem: string, langs: seq<string>, d: Dir)
    requires d.Valid()
    ensures d.files.Keys <= Downloads(w, url, id, stem, langs, d).dir.files.Keys
    decreases |langs|
  {
    if langs != [] {
      var run := w.run(url, langs[0], stem);
      if run.RunExit? {
        var d1 := d.WriteAll(run.written);
        DownloadsKeeps(w, url, id, stem, langs[1..], d1);
      }
    }
  }

  /**
   * The strategy downloads only `pt`, then `pt-BR`; it keeps every file that
   * was in the directory; and a probe that raised or printed no JSON object
   * ends it before any download.
   */
  lemma YtdlpShape(w: World, d: Dir, url: string, id: string)
    requires d.Valid()
    ensures var out := Ytdlp(w, d, url, id);
      && out.langs <= Languages
      && d.files.Keys <= out.dir.files.Keys
      && (w.probe(url).ProbeRaised? || (w.probe(url).ProbeExit? && w.probe(url).code == 0 && w.probe(url).info.None?) ==>
            out == YtdlpOutcome(None, d, []))
  {
    var title := ProbeTitle(w.probe(url), id);
    if title.Some? {
      DownloadsLangs(w, url, id, Stem(title.value, id), Languages, d);
      DownloadsKeeps(w, url, id, Stem(title.value, id), Languages, d);
    }
  }

  /**
   * A download that raises ends the strategy with nothing: a timeout on `pt`
   * does not move on to `pt-BR`.
   */
  lemma {:induction false} RaisedRunStops(w: World, url: string, id: string, stem: string, langs: seq<string>, d: Dir)
    requires d.Valid() && langs != []
    requires w.run(url, langs[0], stem).RunRaised?
    ensures Downloads(w, url, id, stem, langs, d) == YtdlpOutcome(None, d, [langs[0]])
  {
  }

  /**
   * Text from the strategy is the parse of a `.vtt` or `.srt` file that is
   * still in the directory afterwards.
   */
  lemma {:induction false} DownloadsText(w: World, url: string, id: string, stem: string, langs: seq<string>, d: Dir)
    requires d.Valid()
    ensures var out := Downloads(w, url, id, stem, langs, d);
      out.text.Some? ==> exists name ::
        && name in out.dir.files
        && IsSubtitleName(name)
        && out.text == ParseSubtitleFile(name, out.dir.files[name])
    decreases |langs|
  {
    if langs != [] && w.run(url, langs[0], stem).RunExit? {
      var run := w.run(url, langs[0], stem);
      var d1 := d.WriteAll(run.written);
      var found := if run.code == 0 then FindStaged(d1, stem, id, langs[0]) else None;
      if found.None? {
        DownloadsText(w, url, id, stem, langs[1..], d1);
      }
    }
  }

  /**
   * A turn on `lang` from directory `d` that moves on to the next language:
   * the download exited with a code other than 0, or exited with 0 and the
   * glob found no subtitle file.
   */
  ghost predicate MovesOn(w: World, url: string, id: string, stem: string, lang: string, d: Dir)
    requires d.Valid()
  {
    match w.run(url, lang, stem)
    case RunRaised => false
    case RunExit(code, written) => code != 0 || FindStaged(d.WriteAll(written), stem, id, lang).None?
  }

  /**
   * A turn on `lang` from directory `d` that ends the loop with `text`, leaving `dir`: a
   * download that raised gives nothing and leaves `d`; a download that
   * exited with 0 after which a subtitle file is found gives the parse of
   * that file, which stays in the directory.
   */
  ghost predicate EndsWith(w: World, url: string, id: string, stem: string, lang: string, d: Dir, text: Option<string>, dir: Dir)
    requires d.Valid()
  {
    match w.run(url, lang, stem)
    case RunRaised => text.None? && dir == d
    case RunExit(code, written) =>
      var d1 := d.WriteAll(written);
      var found := FindStaged(d1, stem, id, lang);
      && code == 0 && found.Some?
      && text == ParseSubtitleFile(found.value, d1.files[found.value])
      && dir == d1
  }

  /** The directory the turn on `langs[k]` starts from when the turns before it moved on: what their downloads wrote. */
  ghost function DirAt(w: World, url: string, stem: string, langs: seq<string>, d: Dir, k: nat): (r: Dir)
    requires d.Valid() && k <= |langs|
    ensures r.Valid()
    decreases k
  {
    if k == 0 then d
    else match w.run(url, langs[0], stem)
      case RunRaised => d
      case RunExit(_, written) => DirAt(w, url, stem, langs[1..], d.WriteAll(written), k - 1)
  }

  /** The turns on the first `n` languages all moved on. */
  ghost predicate MovedOn(w: World, url: string, id: string, stem: string, langs: seq<string>, d: Dir, n: nat)
    requires d.Valid() && n <= |langs|
  {
    forall k :: 0 <= k < n ==> MovesOn(w, url, id, stem, langs[k], DirAt(w, url, stem, langs, d, k))
  }

  /**
   * The last turn of a loop that ended with `out`: it ended the loop, or it
   * was the turn on the final language and moved on, leaving nothing and the
   * files the downloads wrote.
   */
  ghost predicate LastTurn(w: World, url: string, id: string, stem: string, langs: seq<string>, d: Dir, out: YtdlpOutcome)
    requires d.Valid() && 0 < |out.langs| <= |langs|
  {
    var k := |out.langs| - 1;
    || EndsWith(w, url, id, stem, langs[k], DirAt(w, url, stem, langs, d, k), out.text, out.dir)
    || (&& k == |langs| - 1
        && MovesOn(w, url, id, stem, langs[k], DirAt(w, url, stem, langs, d, k))
        && out.text.None? && out.dir == DirAt(w, url, stem, langs, d, |langs|))
  }

  /**
   * The loop over `langs` from `d` ended with `out`: it tried a prefix of the
   * languages, at least one when there is one; every turn but the last moved
   * on; and the last is as `LastTurn` says.
   */
  ghost predicate Walked(w: World, url: string, id: string, stem: string, langs: seq<string>, d: Dir, out: YtdlpOutcome)
    requires d.Valid()
  {
    && out.langs <= langs
    && (langs != [] ==> out.langs != [])
    && (out.langs == [] ==> out.text.None? && out.dir == d)
    && (out.langs != [] ==>
          && MovedOn(w, url, id, stem, langs, d, |out.langs| - 1)
          && LastTurn(w, url, id, stem, langs, d, out))
  }

  /** The language loop follows its turns: `Downloads` is a walk over its languages. */
  lemma {:induction false} DownloadsWalked(w: World, url: string, id: string, stem: string, langs: seq<string>, d: Dir)
    requires d.Valid()
    ensures Walked(w, url, id, stem, langs, d, Downloads(w, url, id, stem, langs, d))
    decreases |langs|
  {
    if langs != [] {
      var run := w.run(url, langs[0], stem);
      if run.RunExit? {
        var d1 := d.WriteAll(run.written);
        if MovesOn(w, url, id, stem, langs[0], d) {
          DownloadsWalked(w, url, id, stem, langs[1..], d1);
          WalkedStep(w, url, id, stem, langs, d);
        } else {
          var out := Downloads(w, url, id, stem, langs, d);
          assert EndsWith(w, url, id, stem, langs[0], DirAt(w, url, stem, langs, d, 0), out.text, out.dir);
        }
      }
    }
  }

  /** A turn that moves on, followed by a walk over the other languages, is a walk over all of them. */
  lemma WalkedStep(w: World, url: string, id: string, stem: string, langs: seq<string>, d: Dir)
    requires d.Valid() && langs != [] && w.run(url, langs[0], stem).RunExit?
    requires MovesOn(w, url, id, stem, langs[0], d)
    requires var d1 := d.WriteAll(w.run(url, langs[0], stem).written);
      Walked(w, url, id, stem, langs[1..], d1, Downloads(w, url, id, stem, langs[1..], d1))
    ensures Walked(w, url, id, stem, langs, d, Downloads(w, url, id, stem, langs, d))
  {
    var d1 := d.WriteAll(w.run(url, langs[0], stem).written);
    var rest := Downloads(w, url, id, stem, langs[1..], d1);
    var out := Downloads(w, url, id, stem, langs, d);
    assert out == After([langs[0]], rest);
    assert langs == [langs[0]] + langs[1..];
    if rest.langs != [] {
      MovedOnStep(w, url, id, stem, langs, d, |rest.langs|);
    }
    LastTurnStep(w, url, id, stem, langs, d, rest);
  }

  /** The loop's outcome is the only walk over its languages. */
  lemma {:induction false} WalkedIsDownloads(w: World, url: string, id: string, stem: string, langs: seq<string>, d: Dir, out: YtdlpOutcome)
    requires d.Valid() && Walked(w, url, id, stem, langs, d, out)
    ensures out == Downloads(w, url, id, stem, langs, d)
    decreases |langs|
  {
    if langs != [] {
      if |out.langs| == 1 {
        WalkedOneTurn(w, url, id, stem, langs, d, out);
      } else {
        var d1 := d.WriteAll(w.run(url, langs[0], stem).written);
        var rest := YtdlpOutcome(out.text, out.dir, out.langs[1..]);
        WalkedTail(w, url, id, stem, langs, d, out);
        WalkedIsDownloads(w, url, id, stem, langs[1..], d1, rest);
        DownloadsCons(w, url, id, stem, langs, d, out);
      }
    }
  }

  /** A walk of one turn is the loop's outcome: that turn ended the loop, or it was the only language. */
  lemma WalkedOneTurn(w: World, url: string, id: string, stem: string, langs: seq<string>, d: Dir, out: YtdlpOutcome)
    requires d.Valid() && Walked(w, url, id, stem, langs, d, out) && |out.langs| == 1
    ensures out == Downloads(w, url, id, stem, langs, d)
  {
    assert out.langs == [langs[0]];
    assert DirAt(w, url, stem, langs, d, 0) == d;
    TurnsExclusive(w, url, id, stem, langs[0], d, out.text, out.dir);
    if MovesOn(w, url, id, stem, langs[0], d) {
      var d1 := d.WriteAll(w.run(url, langs[0], stem).written);
      assert |langs| == 1 && out.text.None? && out.dir == DirAt(w, url, stem, langs, d, 1);
      DirAtShift(w, url, stem, langs, d, 1);
      assert Downloads(w, url, id, stem, langs[1..], d1) == YtdlpOutcome(None, d1, []);
    }
  }

  lemma DownloadsCons(w: World, url: string, id: string, stem: string, langs: seq<string>, d: Dir, out: YtdlpOutcome)
    requires d.Valid() && langs != [] && MovesOn(w, url, id, stem, langs[0], d)
    requires out.langs != [] && out.langs[0] == langs[0]
    requires YtdlpOutcome(out.text, out.dir, out.langs[1..])
      == Downloads(w, url, id, stem, langs[1..], d.WriteAll(w.run(url, langs[0], stem).written))
    ensures out == Downloads(w, url, id, stem, langs, d)
  {
    DownloadsMovesOn(w, url, id, stem, langs, d);
    assert out.langs == [langs[0]] + out.langs[1..];
  }

  /** A first turn that moves on leaves the rest of the loop to the other languages, from the files it wrote. */
  lemma DownloadsMovesOn(w: World, url: string, id: string, stem: string, langs: seq<string>, d: Dir)
    requires d.Valid() && langs != [] && MovesOn(w, url, id, stem, langs[0], d)
    ensures w.run(url, langs[0], stem).RunExit?
    ensures Downloads(w, url, id, stem, langs, d)
      == After([langs[0]], Downloads(w, url, id, stem, langs[1..], d.WriteAll(w.run(url, langs[0], stem).written)))
  {
  }

  /** No turn both moves on and ends the loop. */
  lemma TurnsExclusive(w: World, url: string, id: string, stem: string, lang: string, d: Dir, text: Option<string>, dir: Dir)
    requires d.Valid()
    ensures !(MovesOn(w, url, id, stem, lang, d) && EndsWith(w, url, id, stem, lang, d, text, dir))
  {
  }

  /** A walk whose first turn moved on and that made more than one turn continues as a walk over the other languages. */
  lemma WalkedTail(w: World, url: string, id: string, stem: string, langs: seq<string>, d: Dir, out: YtdlpOutcome)
    requires d.Valid() && Walked(w, url, id, stem, langs, d, out) && |out.langs| > 1
    ensures MovesOn(w, url, id, stem, langs[0], d) && out.langs[0] == langs[0]
    ensures Walked(w, url, id, stem, langs[1..], d.WriteAll(w.run(url, langs[0], stem).written),
                   YtdlpOutcome(out.text, out.dir, out.langs[1..]))
  {
    assert DirAt(w, url, stem, langs, d, 0) == d;
    assert MovesOn(w, url, id, stem, langs[0], DirAt(w, url, stem, langs, d, 0));
    var d1 := d.WriteAll(w.run(url, langs[0], stem).written);
    var rest := YtdlpOutcome(out.text, out.dir, out.langs[1..]);
    assert rest.langs <= langs[1..];
    forall k | 0 <= k < |rest.langs| - 1
      ensures MovesOn(w, url, id, stem, langs[1..][k], DirAt(w, url, stem, langs[1..], d1, k))
    {
      DirAtShift(w, url, stem, langs, d, k + 1);
    }
    var k := |out.langs| - 1;
    DirAtShift(w, url, stem, langs, d, k);
    DirAtShift(w, url, stem, langs, d, |langs|);
  }

  lemma DirAtShift(w: World, url: string, stem: string, langs: seq<string>, d: Dir, k: nat)
    requires d.Valid() && 0 < k <= |langs| && w.run(url, langs[0], stem).RunExit?
    ensures DirAt(w, url, stem, langs, d, k) == DirAt(w, url, stem, langs[1..], d.WriteAll(w.run(url, langs[0], stem).written), k - 1)
    ensures k < |langs| ==> langs[k] == langs[1..][k - 1]
  {
  }

  lemma MovedOnStep(w: World, url: string, id: string, stem: string, langs: seq<string>, d: Dir, n: nat)
    requires d.Valid() && 0 < n <= |langs| && w.run(url, langs[0], stem).RunExit?
    requires MovesOn(w, url, id, stem, langs[0], d)
    requires MovedOn(w, url, id, stem, langs[1..], d.WriteAll(w.run(url, langs[0], stem).written), n - 1)
    ensures MovedOn(w, url, id, stem, langs, d, n)
  {
    forall k | 0 < k < n
      ensures MovesOn(w, url, id, stem, langs[k], DirAt(w, url, stem, langs, d, k))
    {
      DirAtShift(w, url, stem, langs, d, k);
    }
  }

  lemma LastTurnStep(w: World, url: string, id: string, stem: string, langs: seq<string>, d: Dir, rest: YtdlpOutcome)
    requires d.Valid() && langs != [] && w.run(url, langs[0], stem).RunExit?
    requires MovesOn(w, url, id, stem, langs[0], d)
    requires rest.langs <= langs[1..]
    requires rest.langs == [] ==> langs[1..] == [] && rest.text.None? && rest.dir == d.WriteAll(w.run(url, langs[0], stem).written)
    requires rest.langs != [] ==> LastTurn(w, url, id, stem, langs[1..], d.WriteAll(w.run(url, langs[0], stem).written), rest)
    ensures LastTurn(w, url, id, stem, langs, d, After([langs[0]], rest))
  {
    var k := |rest.langs|;
    DirAtShift(w, url, stem, langs, d, |langs|);
    if k > 0 {
      DirAtShift(w, url, stem, langs, d, k);
    }
  }

  /** The strategy walks `pt`, then `pt-BR`, under the stem of the probe's title, once the probe gave one. */
  lemma YtdlpWalked(w: World, d: Dir, url: string, id: string)
    requires d.Valid()
    ensures var title := ProbeTitle(w.probe(url), id);
      title.Some? ==> Walked(w, url, id, Stem(title.value, id), Languages, d, Ytdlp(w, d, url, id))
  {
    var title := ProbeTitle(w.probe(url), id);
    if title.Some? {
      DownloadsWalked(w, url, id, Stem(title.value, id), Languages, d);
    }
  }

  // ----- save_transcript and download_single_video -----

  /** The text a single-video run returns and the directory after it. */
  datatype SingleOutcome = SingleOutcome(text: Option<string>, dir: Dir)

  /**
   * `download_single_video`: nothing for an empty URL or one without an id;
   * otherwise the caption-service text when it is not empty and can be saved,
   * else the yt-dlp text when it is not empty and can be saved, else nothing.
   */
  function Single(w: World, d: Dir, url: string): (out: SingleOutcome)
    requires d.Valid()
    ensures out.dir.Valid()
  {
    if url == [] then SingleOutcome(None, d)
    else match ExtractVideoId(url)
      case None => SingleOutcome(None, d)
      case Some(id) => SingleFor(w, d, url, id)
  }

  /** The run for a URL whose id is `id`: the caption-service text when it can be saved, else yt-dlp's. */
  function SingleFor(w: World, d: Dir, url: string, id: string): (out: SingleOutcome)
    requires d.Valid()
    ensures out.dir.Valid()
    ensures out.text.Some? ==> NonEmpty(out.text) && OutputName(id) in out.dir.files && out.dir.files[OutputName(id)] == out.text
    ensures d.files.Keys <= out.dir.files.Keys
  {
    var name := OutputName(id);
    var api := ApiTranscript(w.captions(id)).text;
    if NonEmpty(api) && w.writable(name) then SingleOutcome(api, d.Write(name, api))
    else Fallback(w, d, url, id)
  }

  /** The yt-dlp fallback: its text when it is not empty and can be saved, else nothing. */
  function Fallback(w: World, d: Dir, url: string, id: string): (out: SingleOutcome)
    requires d.Valid()
    ensures out.dir.Valid()
    ensures out.text.Some? ==> NonEmpty(out.text) && OutputName(id) in out.dir.files && out.dir.files[OutputName(id)] == out.text
    ensures Ytdlp(w, d, url, id).dir.files.Keys <= out.dir.files.Keys
  {
    var name := OutputName(id);
    var y := Ytdlp(w, d, url, id);
    if NonEmpty(y.text) && w.writable(name) then SingleOutcome(y.text, y.dir.Write(name, y.text))
    else SingleOutcome(None, y.dir)
  }

  /**
   * A text the single-video run returns is not empty and was saved under
   * `transcricao_<id>.txt`; a URL without an id changes nothing.
   */
  lemma SingleSaved(w: World, d: Dir, url: string)
    requires d.Valid()
    ensures var out := Single(w, d, url);
      && (out.text.Some? ==>
            && ExtractVideoId(url).Some?
            && out.text.value != []
            && out.dir.files[OutputName(ExtractVideoId(url).value)] == out.text)
      && (ExtractVideoId(url).None? ==> out == SingleOutcome(None, d))
  {
  }

  /**
   * The choice a run makes for a URL with an id: the caption-service text
   * when it is not empty and can be saved (then yt-dlp is not run and only
   * the transcript file is written), else the yt-dlp text when it is not
   * empty and can be saved, else nothing.
   */
  lemma SingleChooses(w: World, d: Dir, url: string)
    requires d.Valid()
    ensures var id := ExtractVideoId(url);
      url != [] && id.Some? ==>
        var name := OutputName(id.value);
        var api := ApiTranscript(w.captions(id.value)).text;
        var y := Ytdlp(w, d, url, id.value);
        var out := Single(w, d, url);
        && (NonEmpty(api) && w.writable(name) ==> out.text == api && out.dir == d.Write(name, api))
        && (!(NonEmpty(api) && w.writable(name)) ==>
              && out.text == (if NonEmpty(y.text) && w.writable(name) then y.text else None)
              && y.dir.files.Keys <= out.dir.files.Keys)
  {
  }

  /**
   * yt-dlp is not consulted when the caption service gives a text that can be
   * saved: the outcome is the same whatever the probe and the downloads do.
   */
  lemma ApiTextSkipsYtdlp(w: World, d: Dir, url: string, probe: string -> Probe, run: (string, string, string) -> Run)
    requires d.Valid()
    requires var id := ExtractVideoId(url);
      id.Some? && NonEmpty(ApiTranscript(w.captions(id.value)).text) && w.writable(OutputName(id.value))
    ensures Single(w.(probe := probe, run := run), d, url) == Single(w, d, url)
  {
    assert url != [];
  }

  // ----- process_urls_from_file and print_summary -----

  /** One line of the batch report: the URL, whether it succeeded, and the detail shown. */
  datatype UrlReport = UrlReport(url: string, ok: bool, detail: string)

  function Report(url: string, text: Option<string>): (r: UrlReport)
    ensures r.url == url
    ensures r.ok <==> NonEmpty(text)
    ensures !r.ok ==> r.detail == "Falha ao obter transcrição"
  {
    if NonEmpty(text) then UrlReport(url, true, "Sucesso - " + Show(|text.value|) + " chars")
    else UrlReport(url, false, "Falha ao obter transcrição")
  }

  /** The reports of a batch over `urls` and the directory after it. */
  datatype BatchOutcome = BatchOutcome(reports: seq<UrlReport>, dir: Dir)

  /** An outcome of the batch's remaining runs, after the runs that reported `reports`. */
  function Behind(reports: seq<UrlReport>, rest: BatchOutcome): BatchOutcome {
    BatchOutcome(reports + rest.reports, rest.dir)
  }

  lemma BehindBehind(a: seq<UrlReport>, b: seq<UrlReport>, rest: BatchOutcome)
    ensures Behind(a, Behind(b, rest)) == Behind(a + b, rest)
  {
    assert a + (b + rest.reports) == a + b + rest.reports;
  }

  /** The batch loop: each URL in turn, each run seeing the directory the previous one left. */
  function Batch(w: World, d: Dir, urls: seq<string>): (out: BatchOutcome)
    requires d.Valid()
    ensures out.dir.Valid() && |out.reports| == |urls|
    decreases |urls|
  {
    if urls == [] then BatchOutcome([], d)
    else
      var first := Single(w, d, urls[0]);
      Behind([Report(urls[0], first.text)], Batch(w, first.dir, urls[1..]))
  }

  /** The directory the `i`-th run of a batch starts from. */
  function DirBefore(w: World, d: Dir, urls: seq<string>, i: nat): (r: Dir)
    requires d.Valid() && i <= |urls|
    ensures r.Valid()
    decreases i
  {
    if i == 0 then d else DirBefore(w, Single(w, d, urls[0]).dir, urls[1..], i - 1)
  }

  /**
   * One report per URL, in order: the `i`-th names the `i`-th URL and
   * succeeded exactly when the `i`-th run returned a text.
   */
  lemma {:induction false} BatchReports(w: World, d: Dir, urls: seq<string>)
    requires d.Valid()
    ensures var out := Batch(w, d, urls);
      && |out.reports| == |urls|
      && forall i :: 0 <= i < |urls| ==>
           out.reports[i] == Report(urls[i], Single(w, DirBefore(w, d, urls, i), urls[i]).text)
    decreases |urls|
  {
    if urls != [] {
      var first := Single(w, d, urls[0]);
      BatchReports(w, first.dir, urls[1..]);
      var out := Batch(w, d, urls);
      forall i | 0 <= i < |urls|
        ensures out.reports[i] == Report(urls[i], Single(w, DirBefore(w, d, urls, i), urls[i]).text)
      {
        if i > 0 {
          assert urls[1..][i - 1] == urls[i];
        }
      }
    }
  }

  /** A success report's detail gives back the transcript's length. */
  lemma ReportLength(url: string, t1: Option<string>, t2: Option<string>)
    requires NonEmpty(t1) && NonEmpty(t2)
    requires Report(url, t1).detail == Report(url, t2).detail
    ensures |t1.value| == |t2.value|
  {
    var p := "Sucesso - ";
    var s1, s2 := Show(|t1.value|), Show(|t2.value|);
    assert (p + s1 + " chars")[|p|..|p| + |s1|] == s1;
    assert |s1| == |s2|;
    assert (p + s2 + " chars")[|p|..|p| + |s2|] == s2;
    ShowInjective(|t1.value|, |t2.value|);
  }

  /** The counts `print_summary` shows: total, successes and failures. */
  datatype Summary = Summary(total: nat, successes: nat, failures: int)

  predicate Succeeded(r: UrlReport) {
    r.ok
  }

  predicate Failed(r: UrlReport) {
    !r.ok
  }

  function Summarize(reports: seq<UrlReport>): (s: Summary)
    ensures s.total == |reports|
    ensures s.successes == Count(reports, Succeeded) && s.failures == Count(reports, Failed)
  {
    CountSplits(reports, Succeeded, Failed);
    var total := |reports|;
    var successes := Count(reports, Succeeded);
    Summary(total, successes, total - successes)
  }

  /**
   * The failures shown are the reports that did not succeed, so neither count
   * is negative and together they make the total.
   */
  lemma SummaryCounts(reports: seq<UrlReport>)
    ensures var s := Summarize(reports);
      && s.failures == Count(reports, Failed)
      && 0 <= s.failures <= s.total
      && s.successes <= s.total
  {
    CountSplits(reports, Succeeded, Failed);
  }

  // ----- The downloader object -----

  /** What `process_urls_from_file` returns, and the directory after it. */
  function ProcessFile(w: World, d: Dir, file: Option<string>): (out: BatchOutcome)
    requires d.Valid()
    ensures out.dir.Valid()
    ensures LoadUrls(file) == [] ==> out.dir == d
    ensures |out.reports| == |LoadUrls(file)|
    ensures forall i :: 0 <= i < |out.reports| ==> out.reports[i].url == LoadUrls(file)[i]
  {
    var urls := LoadUrls(file);
    BatchReports(w, d, urls);
    if urls == [] then BatchOutcome([], d) else Batch(w, d, urls)
  }

  /**
   * The downloader: its output directory, the pause between two videos of a
   * batch, and how many pauses it has made.
   */
  class Downloader {
    var dir: Dir
    const delay: nat
    ghost var sleeps: nat

    ghost predicate Valid()
      reads this
    {
      dir.Valid()
    }

    /** A downloader over an existing output directory; the default pause is 5 seconds. */
    constructor(d: Dir, delay: nat)
      requires d.Valid()
      ensures Valid() && dir == d && this.delay == delay && sleeps == 0
    {
      dir := d;
      this.delay := delay;
      sleeps := 0;
    }

    /** `download_transcript_api`; `tried` records the calls made. */
    method DownloadTranscriptApi(c: Captions) returns (text: Option<string>, ghost tried: seq<Call>)
      ensures ApiOutcome(text, tried) == ApiTranscript(c)
    {
      if c.listing.ListingRaised? || c.listing.tracks == [] {
        return None, [];
      }
      var tracks := c.listing.tracks;
      ghost var direct := DirectCalls(Preferred);
      ghost var listed := TrackCalls(tracks, |tracks|, true);
      text, tried := TryPreferred(c, tracks);
      if text.Some? {
        SearchedFirst(c, tracks, direct, direct + listed, tried);
      } else {
        SearchedMissed(c, tracks, direct, tried);
        ghost var more;
        text, more := TryListed(c, tracks, true);
        SearchedThen(c, tracks, direct, listed, more);
        tried := direct + more;
      }
      SearchedIsApiSearch(c, tracks, true, tried);
    }

    /** `download_with_ytdlp`; `langs` records the languages downloaded. */
    method DownloadWithYtdlp(w: World, url: string, id: string) returns (text: Option<string>, ghost langs: seq<string>)
      requires Valid()
      modifies this
      ensures Valid() && sleeps == old(sleeps)
      ensures YtdlpOutcome(text, dir, langs) == Ytdlp(w, old(dir), url, id)
    {
      var title: string;
      match w.probe(url) {
        case ProbeRaised =>
          return None, [];
        case ProbeExit(code, info) =>
          if code == 0 {
            if info.None? {
              return None, [];
            }
            title := CleanFilename(info.value.title.GetOr(id));
          } else {
            title := id;
          }
      }
      text, langs := DownloadLanguages(w, url, id, Stem(title, id));
    }

    /** The language loop of `download_with_ytdlp`, for one output stem. */
    method DownloadLanguages(w: World, url: string, id: string, stem: string) returns (text: Option<string>, ghost langs: seq<string>)
      requires Valid()
      modifies this
      ensures Valid() && sleeps == old(sleeps)
      ensures YtdlpOutcome(text, dir, langs) == Downloads(w, url, id, stem, Languages, old(dir))
    {
      ghost var goal := Downloads(w, url, id, stem, Languages, dir);
      langs := [];
      var todo := Languages;
      while todo != []
        invariant Valid() && sleeps == old(sleeps)
        invariant goal == After(langs, Downloads(w, url, id, stem, todo, dir))
        decreases |todo|
      {
        var done;
        done, text := DownloadLanguage(w, url, id, stem, todo);
        AfterAfter(langs, [todo[0]], Downloads(w, url, id, stem, todo[1..], dir));
        langs := langs + [todo[0]];
        if done {
          return;
        }
        todo := todo[1..];
      }
      return None, langs;
    }

    /**
     * One turn of the language loop, for the first of `langs`: `done` when it
     * ends the loop, with the text it returns; otherwise the loop goes on with
     * the rest from the directory the download left.
     */
    method DownloadLanguage(w: World, url: string, id: string, stem: string, langs: seq<string>) returns (done: bool, text: Option<string>)
      requires Valid() && langs != []
      modifies this
      ensures Valid() && sleeps == old(sleeps)
      ensures done ==> Downloads(w, url, id, stem, langs, old(dir)) == YtdlpOutcome(text, dir, [langs[0]])
      ensures !done ==> Downloads(w, url, id, stem, langs, old(dir)) == After([langs[0]], Downloads(w, url, id, stem, langs[1..], dir))
    {
      var lang := langs[0];
      match w.run(url, lang, stem) {
        case RunRaised =>
          return true, None;
        case RunExit(code, written) =>
          dir := dir.WriteAll(written);
          if code == 0 {
            var found := FindStagedFile(stem, id, lang);
            if found.Some? {
              text := ParseFile(found.value, dir.files[found.value]);
              return true, text;
            }
          }
          return false, None;
      }
    }

    /** The search for the file a download wrote: the exact names first, then a glob for the id. */
    method FindStagedFile(stem: string, id: string, lang: string) returns (found: Option<string>)
      requires Valid()
      ensures found == FindStaged(dir, stem, id, lang)
    {
      var exact := ExactNames(stem, lang);
      var k := 0;
      while k < |exact|
        invariant 0 <= k <= |exact|
        invariant forall j :: 0 <= j < k ==> exact[j] !in dir.files
      {
        if exact[k] in dir.files {
          return Some(exact[k]);
        }
        k := k + 1;
      }
      found := FindSubtitle(dir.Glob(id));
    }

    /** `save_transcript`: writes a non-empty text when the file can be written. */
    method SaveTranscript(w: World, text: string, name: string) returns (ok: bool)
      requires Valid()
      modifies this
      ensures Valid() && sleeps == old(sleeps)
      ensures ok <==> text != [] && w.writable(name)
      ensures dir == if ok then old(dir).Write(name, Some(text)) else old(dir)
    {
      if text == [] || !w.writable(name) {
        return false;
      }
      dir := dir.Write(name, Some(text));
      return true;
    }

    /** `download_single_video`. */
    method DownloadSingleVideo(w: World, url: string) returns (text: Option<string>)
      requires Valid()
      modifies this
      ensures Valid() && sleeps == old(sleeps)
      ensures SingleOutcome(text, dir) == Single(w, old(dir), url)
    {
      if url == [] {
        return None;
      }
      var id := ExtractVideoId(url);
      if id.None? {
        return None;
      }
      text := DownloadFor(w, url, id.value);
    }

    /** `download_single_video` once the id is known: the caption service first, then yt-dlp. */
    method DownloadFor(w: World, url: string, id: string) returns (text: Option<string>)
      requires Valid()
      modifies this
      ensures Valid() && sleeps == old(sleeps)
      ensures SingleOutcome(text, dir) == SingleFor(w, old(dir), url, id)
    {
      var api, _ := DownloadTranscriptApi(w.captions(id));
      if api.Some? && api.value != [] {
        var saved := SaveTranscript(w, api.value, OutputName(id));
        if saved {
          return api;
        }
      }
      text := DownloadFallback(w, url, id);
    }

    /** The yt-dlp half of `download_single_video`. */
    method DownloadFallback(w: World, url: string, id: string) returns (text: Option<string>)
      requires Valid()
      modifies this
      ensures Valid() && sleeps == old(sleeps)
      ensures SingleOutcome(text, dir) == Fallback(w, old(dir), url, id)
    {
      var y, _ := DownloadWithYtdlp(w, url, id);
      if y.Some? && y.value != [] {
        var saved := SaveTranscript(w, y.value, OutputName(id));
        if saved {
          return y;
        }
      }
      return None;
    }

    /** `process_urls_from_file`: `file` is the file's content, `None` when it cannot be read. */
    method ProcessUrlsFromFile(w: World, file: Option<string>) returns (reports: seq<UrlReport>)
      requires Valid()
      modifies this
      ensures Valid()
      ensures BatchOutcome(reports, dir) == ProcessFile(w, old(dir), file)
      ensures sleeps == old(sleeps) + if reports == [] then 0 else |reports| - 1
    {
      var urls := LoadUrlsFromFile(file);
      if urls == [] {
        return [];
      }
      reports := ProcessUrls(w, urls);
    }

    /** The loop over the URLs: one run each, with a pause between two runs. */
    method ProcessUrls(w: World, urls: seq<string>) returns (reports: seq<UrlReport>)
      requires Valid() && urls != []
      modifies this
      ensures Valid()
      ensures BatchOutcome(reports, dir) == Batch(w, old(dir), urls)
      ensures sleeps == old(sleeps) + |urls| - 1
    {
      ghost var goal := Batch(w, dir, urls);
      reports := [];
      var todo := urls;
      while todo != []
        invariant Valid()
        invariant goal == Behind(reports, Batch(w, dir, todo))
        invariant sleeps == old(sleeps) + |urls| - |todo| - (if todo == [] then 1 else 0)
        decreases |todo|
      {
        var report := ProcessUrl(w, todo);
        BehindBehind(reports, [report], Batch(w, dir, todo[1..]));
        reports := reports + [report];
        if |todo| > 1 {
          sleeps := sleeps + 1;
        }
        todo := todo[1..];
      }
    }

    /** One turn of the batch loop, for the first of `urls`: its run and its report. */
    method ProcessUrl(w: World, urls: seq<string>) returns (report: UrlReport)
      requires Valid() && urls != []
      modifies this
      ensures Valid() && sleeps == old(sleeps)
      ensures Batch(w, old(dir), urls) == Behind([report], Batch(w, dir, urls[1..]))
    {
      var text := DownloadSingleVideo(w, urls[0]);
      report := Report(urls[0], text);
    }
  }
}
