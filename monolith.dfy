/**
 * The web server's downloader, `YouTubeTranscriptDownloader` of
 * `monolito/youtube_transcript_downloader.py`: the video information probe,
 * the caption-service strategy without translations, the yt-dlp strategy that
 * globs for the file it parses and deletes it, and the single-video run that
 * returns a result record instead of saving a file.
 */
module Monolith {
  import opened Wrappers
  import opened Decimal
  import opened Text
  import opened VideoId
  import opened Filename
  import opened Subtitles
  import opened Staging
  import opened Externals
  import opened Api
  import opened Outcomes

  // ----- get_video_info -----

  /** The information a result record carries about its video. */
  datatype VideoInfo = VideoInfo(title: string, duration: int, channel: string, viewCount: int)

  /** The URL the probe is run on: the watch page of the id. */
  const WatchPrefix: string := "https://youtube.com/watch?v="

  /** The information used whenever the probe tells nothing. */
  function DefaultInfo(id: string): VideoInfo {
    VideoInfo("Video " + id, 0, "Unknown", 0)
  }

  /**
   * `get_video_info`: the keys of the JSON object a successful probe printed,
   * each with its default when missing; every default when the probe raised,
   * exited with another code, or printed no JSON object.
   */
  function GetVideoInfo(w: World, id: string): (r: VideoInfo)
    ensures var p := w.probe(WatchPrefix + id);
      !(p.ProbeExit? && p.code == 0 && p.info.Some?) ==> r == DefaultInfo(id)
  {
    match w.probe(WatchPrefix + id)
    case ProbeExit(0, Some(info)) =>
      var default := DefaultInfo(id);
      VideoInfo(
        info.title.GetOr(default.title),
        info.duration.GetOr(default.duration),
        info.uploader.GetOr(default.channel),
        info.viewCount.GetOr(default.viewCount))
    case _ => DefaultInfo(id)
  }

  /**
   * The probe never fails the run: a probe that raised, exited with another
   * code or printed no JSON object gives the defaults, and so does one whose
   * object has none of the keys; a key that is present is taken as printed.
   */
  lemma VideoInfoDefaults(w: World, id: string)
    ensures var p := w.probe(WatchPrefix + id);
      && (!(p.ProbeExit? && p.code == 0 && p.info.Some?) ==> GetVideoInfo(w, id) == DefaultInfo(id))
      && (p == ProbeExit(0, Some(Info(None, None, None, None))) ==> GetVideoInfo(w, id) == DefaultInfo(id))
      && (p.ProbeExit? && p.code == 0 && p.info.Some? && p.info.value.title.Some? ==>
            GetVideoInfo(w, id).title == p.info.value.title.value)
      && (p.ProbeExit? && p.code == 0 && p.info.Some? && p.info.value.uploader.Some? ==>
            GetVideoInfo(w, id).channel == p.info.value.uploader.value)
  {
  }

  // ----- download_transcript_api -----

  /**
   * The caption-service strategy: nothing when listing raised; otherwise the
   * search over the preferred languages, then each listed transcript's own
   * fetch, with no translation.
   */
  function ApiTranscript(c: Captions): (out: ApiOutcome)
    ensures c.listing.ListingRaised? ==> out == ApiOutcome(None, [])
    ensures c.listing.Listed? ==> Searched(c, c.listing.tracks, Candidates(c.listing.tracks, false), out.tried)
  {
    match c.listing
    case ListingRaised => ApiOutcome(None, [])
    case Listed(tracks) =>
      ApiSearchFound(c, tracks, false);
      ApiSearch(c, tracks, false)
  }

  /**
   * A listing error makes no call. Once listing succeeded, the strategy
   * searches the preferred languages, then each listed transcript, in order,
   * up to the first answer with entries; it asks for the four preferred
   * languages even when nothing is listed; it never asks for a translation;
   * and it returns text exactly when some candidate answers with entries.
   */
  lemma ApiTranscriptCalls(c: Captions)
    ensures var out := ApiTranscript(c);
      && (c.listing.ListingRaised? ==> out == ApiOutcome(None, []))
      && (forall call :: call in out.tried ==> !call.Translate?)
      && (c.listing.Listed? ==> Searched(c, c.listing.tracks, Candidates(c.listing.tracks, false), out.tried))
      && (c.listing.Listed? && c.listing.tracks == [] && out.text.None? ==> out.tried == DirectCalls(Preferred))
      && (out.text.Some? <==> c.listing.Listed? && exists call :: call in Candidates(c.listing.tracks, false) && Hit(c, c.listing.tracks, call))
  {
    if c.listing.Listed? {
      var tracks := c.listing.tracks;
      var out := ApiSearch(c, tracks, false);
      ApiSearchFound(c, tracks, false);
      forall call | call in out.tried ensures !call.Translate? {
        if call.Translate? {
          CandidateTranslation(tracks, false, call);
        }
      }
      if tracks == [] && out.text.None? {
        SearchedMissed(c, tracks, Candidates(tracks, false), out.tried);
        assert Candidates(tracks, false) == DirectCalls(Preferred);
      }
    }
  }

  // ----- download_with_ytdlp -----

  /** The languages the strategy downloads, in order. */
  const Languages: seq<string> := ["pt", "pt-BR", "en"]

  /** The file parsed after a download that exited with 0: the first `.vtt` or `.srt` file a glob for the id lists. */
  function Staged(d: Dir, id: string): (r: Option<string>)
    requires d.Valid()
    ensures r.Some? ==> r.value in d.files && Contains(r.value, id) && IsSubtitleName(r.value)
    ensures r.None? <==> forall name :: name in d.files && Contains(name, id) ==> !IsSubtitleName(name)
  {
    NoGlobbedSubtitle(d, id);
    var found := FirstSubtitle(d.Glob(id));
    if found.Some? then
      GlobbedSubtitle(d, id);
      found
    else None
  }

  /** Parses the file found, then deletes it. */
  function Take(d: Dir, name: string, lang: string): (out: YtdlpOutcome)
    requires d.Valid() && name in d.files
    ensures out.dir.Valid()
    ensures out.dir.files == d.files - {name} && out.langs == [lang]
  {
    YtdlpOutcome(ParseSubtitleFile(name, d.files[name]), d.Unlink(name), [lang])
  }

  /** The language loop from the languages `langs` on, starting from directory `d`. */
  function Downloads(w: World, url: string, id: string, stem: string, langs: seq<string>, d: Dir): (out: YtdlpOutcome)
    requires d.Valid()
    ensures out.dir.Valid()
    decreases |langs|
  {
    if langs == [] then YtdlpOutcome(None, d, [])
    else match w.run(url, langs[0], stem)
      case RunRaised => YtdlpOutcome(None, d, [langs[0]])
      case RunExit(code, written) =>
        var d1 := d.WriteAll(written);
        var found := if code == 0 then Staged(d1, id) else None;
        if found.Some? then Take(d1, found.value, langs[0])
        else After([langs[0]], Downloads(w, url, id, stem, langs[1..], d1))
  }

  /** The whole yt-dlp strategy: the output stem comes from the cleaned title the probe gives. */
  function Ytdlp(w: World, d: Dir, url: string, id: string): (out: YtdlpOutcome)
    requires d.Valid()
    ensures out.dir.Valid()
    ensures out.langs <= Languages && TakenFrom(out, id)
    ensures |Gone(d, out)| <= 1
  {
    var stem := Stem(CleanFilename(GetVideoInfo(w, id).title), id);
    DownloadsLangs(w, url, id, stem, Languages, d);
    DownloadsText(w, url, id, stem, Languages, d);
    DownloadsRemovesOne(w, url, id, stem, Languages, d);
    Downloads(w, url, id, stem, Languages, d)
  }

  /** The loop downloads a prefix of its languages, in order. */
  lemma DownloadsLangs(w: World, url: string, id: string, stem: string, langs: seq<string>, d: Dir)
    requires d.Valid()
    ensures Downloads(w, url, id, stem, langs, d).langs <= langs
  {
    DownloadsWalked(w, url, id, stem, langs, d);
  }

  /** The files there before the loop and gone after it. */
  ghost function Gone(d: Dir, out: YtdlpOutcome): set<string> {
    d.files.Keys - out.dir.files.Keys
  }

  /** The loop deletes only `.vtt` or `.srt` files whose names contain the id. */
  lemma {:induction false} DownloadsRemovesSubtitles(w: World, url: string, id: string, stem: string, langs: seq<string>, d: Dir)
    requires d.Valid()
    ensures forall name :: name in Gone(d, Downloads(w, url, id, stem, langs, d)) ==> Contains(name, id) && IsSubtitleName(name)
    decreases |langs|
  {
    if langs != [] && w.run(url, langs[0], stem).RunExit? {
      var run := w.run(url, langs[0], stem);
      var d1 := d.WriteAll(run.written);
      var found := if run.code == 0 then Staged(d1, id) else None;
      var out := Downloads(w, url, id, stem, langs, d);
      if found.None? {
        DownloadsRemovesSubtitles(w, url, id, stem, langs[1..], d1);
        assert Gone(d, out) <= Gone(d1, Downloads(w, url, id, stem, langs[1..], d1));
      } else {
        assert Gone(d, out) <= {found.value};
      }
    }
  }

  /** The loop deletes at most one file that was there before it. */
  lemma {:induction false} DownloadsRemovesOne(w: World, url: string, id: string, stem: string, langs: seq<string>, d: Dir)
    requires d.Valid()
    ensures |Gone(d, Downloads(w, url, id, stem, langs, d))| <= 1
    decreases |langs|
  {
    var out := Downloads(w, url, id, stem, langs, d);
    if langs != [] && w.run(url, langs[0], stem).RunExit? {
      var run := w.run(url, langs[0], stem);
      var d1 := d.WriteAll(run.written);
      var found := if run.code == 0 then Staged(d1, id) else None;
      if found.None? {
        var rest := Downloads(w, url, id, stem, langs[1..], d1);
        DownloadsRemovesOne(w, url, id, stem, langs[1..], d1);
        assert Gone(d, out) <= Gone(d1, rest);
        SubsetSize(Gone(d, out), Gone(d1, rest));
      } else {
        SubsetSize(Gone(d, out), {found.value});
      }
    } else {
      assert Gone(d, out) == {};
    }
  }

  lemma SubsetSize(a: set<string>, b: set<string>)
    requires a <= b && |b| <= 1
    ensures |a| <= 1
  {
    if a != {} {
      var x :| x in a;
      var rest := b - {x};
      assert b == rest + {x};
      assert rest == {};
      assert a == {x};
    }
  }

  /**
   * The text of an outcome is the parse of a `.vtt` or `.srt` file whose
   * name contains the id, and that file is no longer in the directory.
   */
  ghost predicate TakenFrom(out: YtdlpOutcome, id: string) {
    out.text.Some? ==> exists name, content :: TakenFile(out, id, name, content)
  }

  /** The file `name` with content `content` is the one the text of `out` was parsed from. */
  ghost predicate TakenFile(out: YtdlpOutcome, id: string, name: string, content: string) {
    && name !in out.dir.files
    && Contains(name, id)
    && IsSubtitleName(name)
    && out.text == ParseSubtitleFile(name, Some(content))
  }

  /** Text from the loop comes from a subtitle file for the id, which the loop deleted. */
  lemma {:induction false} DownloadsText(w: World, url: string, id: string, stem: string, langs: seq<string>, d: Dir)
    requires d.Valid()
    ensures TakenFrom(Downloads(w, url, id, stem, langs, d), id)
    decreases |langs|
  {
    if langs != [] && w.run(url, langs[0], stem).RunExit? {
      var d1 := d.WriteAll(w.run(url, langs[0], stem).written);
      DownloadsText(w, url, id, stem, langs[1..], d1);
      DownloadsTextStep(w, url, id, stem, langs, d);
    }
  }

  /** One turn of the loop keeps the text's origin, given that the rest of the loop does. */
  lemma DownloadsTextStep(w: World, url: string, id: string, stem: string, langs: seq<string>, d: Dir)
    requires d.Valid() && langs != [] && w.run(url, langs[0], stem).RunExit?
    requires TakenFrom(Downloads(w, url, id, stem, langs[1..], d.WriteAll(w.run(url, langs[0], stem).written)), id)
    ensures TakenFrom(Downloads(w, url, id, stem, langs, d), id)
  {
    var run := w.run(url, langs[0], stem);
    var d1 := d.WriteAll(run.written);
    var found := if run.code == 0 then Staged(d1, id) else None;
    if found.None? {
      var rest := Downloads(w, url, id, stem, langs[1..], d1);
      assert Downloads(w, url, id, stem, langs, d) == After([langs[0]], rest);
      TakenFromAfter([langs[0]], rest, id);
    } else {
      assert Downloads(w, url, id, stem, langs, d) == Take(d1, found.value, langs[0]);
      TakeText(d1, id, found.value, langs[0]);
    }
  }

  lemma TakenFromAfter(langs: seq<string>, rest: YtdlpOutcome, id: string)
    requires TakenFrom(rest, id)
    ensures TakenFrom(After(langs, rest), id)
  {
    if rest.text.Some? {
      var name, content :| TakenFile(rest, id, name, content);
      assert TakenFile(After(langs, rest), id, name, content);
    }
  }

  /** Text from the file taken is the parse of its content, and the file is gone. */
  lemma TakeText(d: Dir, id: string, name: string, lang: string)
    requires d.Valid() && name in d.files
    requires Contains(name, id) && IsSubtitleName(name)
    ensures TakenFrom(Take(d, name, lang), id)
  {
    var out := Take(d, name, lang);
    if out.text.Some? {
      assert TakenFile(out, id, name, d.files[name].value);
    }
  }

  /**
   * A download that raises ends the strategy with nothing: a timeout on `pt`
   * moves on to neither `pt-BR` nor `en`.
   */
  lemma {:induction false} RaisedRunStops(w: World, url: string, id: string, stem: string, langs: seq<string>, d: Dir)
    requires d.Valid() && langs != []
    requires w.run(url, langs[0], stem).RunRaised?
    ensures Downloads(w, url, id, stem, langs, d) == YtdlpOutcome(None, d, [langs[0]])
  {
  }

  /**
   * A turn on `lang` from directory `d` that moves on to the next language:
   * the download exited with a code other than 0, or exited with 0 and the
   * glob found no subtitle file.
   */
  ghost predicate MovesOn(w: World, url: string, id: string, stem: string, lang: string, d: Dir)
    requires d.Valid()
  {
    match w.run(url, lang, stem)
    case RunRaised => false
    case RunExit(code, written) => code != 0 || Staged(d.WriteAll(written), id).None?
  }

  /**
   * A turn on `lang` from directory `d` that ends the loop with `text`, leaving `dir`: a
   * download that raised gives nothing and leaves `d`; a download that
   * exited with 0 and left a subtitle file for the id gives the parse of
   * the first such file, which is deleted.
   */
  ghost predicate EndsWith(w: World, url: string, id: string, stem: string, lang: string, d: Dir, text: Option<string>, dir: Dir)
    requires d.Valid()
  {
    match w.run(url, lang, stem)
    case RunRaised => text.None? && dir == d
    case RunExit(code, written) =>
      var d1 := d.WriteAll(written);
      var found := Staged(d1, id);
      && code == 0 && found.Some?
      && text == ParseSubtitleFile(found.value, d1.files[found.value])
      && dir == d1.Unlink(found.value)
  }

  /** The directory the turn on `langs[k]` starts from when the turns before it moved on: what their downloads wrote. */
  ghost function DirAt(w: World, url: string, stem: string, langs: seq<string>, d: Dir, k: nat): (r: Dir)
    requires d.Valid() && k <= |langs|
    ensures r.Valid()
    decreases k
  {
    if k == 0 then d
    else match w.run(url, langs[0], stem)
      case RunRaised => d
      case RunExit(_, written) => DirAt(w, url, stem, langs[1..], d.WriteAll(written), k - 1)
  }

  /** The turns on the first `n` languages all moved on. */
  ghost predicate MovedOn(w: World, url: string, id: string, stem: string, langs: seq<string>, d: Dir, n: nat)
    requires d.Valid() && n <= |langs|
  {
    forall k :: 0 <= k < n ==> MovesOn(w, url, id, stem, langs[k], DirAt(w, url, stem, langs, d, k))
  }

  /**
   * The last turn of a loop that ended with `out`: it ended the loop, or it
   * was the turn on the final language and moved on, leaving nothing and the
   * files the downloads wrote.
   */
  ghost predicate LastTurn(w: World, url: string, id: string, stem: string, langs: seq<string>, d: Dir, out: YtdlpOutcome)
    requires d.Valid() && 0 < |out.langs| <= |langs|
  {
    var k := |out.langs| - 1;
    || EndsWith(w, url, id, stem, langs[k], DirAt(w, url, stem, langs, d, k), out.text, out.dir)
    || (&& k == |langs| - 1
        && MovesOn(w, url, id, stem, langs[k], DirAt(w, url, stem, langs, d, k))
        && out.text.None? && out.dir == DirAt(w, url, stem, langs, d, |langs|))
  }

  /**
   * The loop over `langs` from `d` ended with `out`: it tried a prefix of the
   * languages, at least one when there is one; every turn but the last moved
   * on; and the last is as `LastTurn` says.
   */
  ghost predicate Walked(w: World, url: string, id: string, stem: string, langs: seq<string>, d: Dir, out: YtdlpOutcome)
    requires d.Valid()
  {
    && out.langs <= langs
    && (langs != [] ==> out.langs != [])
    && (out.langs == [] ==> out.text.None? && out.dir == d)
    && (out.langs != [] ==>
          && MovedOn(w, url, id, stem, langs, d, |out.langs| - 1)
          && LastTurn(w, url, id, stem, langs, d, out))
  }

  /** The language loop follows its turns: `Downloads` is a walk over its languages. */
  lemma {:induction false} DownloadsWalked(w: World, url: string, id: string, stem: string, langs: seq<string>, d: Dir)
    requires d.Valid()
    ensures Walked(w, url, id, stem, langs, d, Downloads(w, url, id, stem, langs, d))
    decreases |langs|
  {
    if langs != [] {
      var run := w.run(url, langs[0], stem);
      if run.RunExit? {
        var d1 := d.WriteAll(run.written);
        if MovesOn(w, url, id, stem, langs[0], d) {
          DownloadsWalked(w, url, id, stem, langs[1..], d1);
          WalkedStep(w, url, id, stem, langs, d);
        } else {
          var out := Downloads(w, url, id, stem, langs, d);
          assert EndsWith(w, url, id, stem, langs[0], DirAt(w, url, stem, langs, d, 0), out.text, out.dir);
        }
      }
    }
  }

  /** A turn that moves on, followed by a walk over the other languages, is a walk over all of them. */
  lemma WalkedStep(w: World, url: string, id: string, stem: string, langs: seq<string>, d: Dir)
    requires d.Valid() && langs != [] && w.run(url, langs[0], stem).RunExit?
    requires MovesOn(w, url, id, stem, langs[0], d)
    requires var d1 := d.WriteAll(w.run(url, langs[0], stem).written);
      Walked(w, url, id, stem, langs[1..], d1, Downloads(w, url, id, stem, langs[1..], d1))
    ensures Walked(w, url, id, stem, langs, d, Downloads(w, url, id, stem, langs, d))
  {
    var d1 := d.WriteAll(w.run(url, langs[0], stem).written);
    var rest := Downloads(w, url, id, stem, langs[1..], d1);
    var out := Downloads(w, url, id, stem, langs, d);
    assert out == After([langs[0]], rest);
    assert langs == [langs[0]] + langs[1..];
    if rest.langs != [] {
      MovedOnStep(w, url, id, stem, langs, d, |rest.langs|);
    }
    LastTurnStep(w, url, id, stem, langs, d, rest);
  }

  /** The loop's outcome is the only walk over its languages. */
  lemma {:induction false} WalkedIsDownloads(w: World, url: string, id: string, stem: string, langs: seq<string>, d: Dir, out: YtdlpOutcome)
    requires d.Valid() && Walked(w, url, id, stem, langs, d, out)
    ensures out == Downloads(w, url, id, stem, langs, d)
    decreases |langs|
  {
    if langs != [] {
      if |out.langs| == 1 {
        WalkedOneTurn(w, url, id, stem, langs, d, out);
      } else {
        var d1 := d.WriteAll(w.run(url, langs[0], stem).written);
        var rest := YtdlpOutcome(out.text, out.dir, out.langs[1..]);
        WalkedTail(w, url, id, stem, langs, d, out);
        WalkedIsDownloads(w, url, id, stem, langs[1..], d1, rest);
        DownloadsCons(w, url, id, stem, langs, d, out);
      }
    }
  }

  /** A walk of one turn is the loop's outcome: that turn ended the loop, or it was the only language. */
  lemma WalkedOneTurn(w: World, url: string, id: string, stem: string, langs: seq<string>, d: Dir, out: YtdlpOutcome)
    requires d.Valid() && Walked(w, url, id, stem, langs, d, out) && |out.langs| == 1
    ensures out == Downloads(w, url, id, stem, langs, d)
  {
    assert out.langs == [langs[0]];
    assert DirAt(w, url, stem, langs, d, 0) == d;
    TurnsExclusive(w, url, id, stem, langs[0], d, out.text, out.dir);
    if MovesOn(w, url, id, stem, langs[0], d) {
      var d1 := d.WriteAll(w.run(url, langs[0], stem).written);
      assert |langs| == 1 && out.text.None? && out.dir == DirAt(w, url, stem, langs, d, 1);
      DirAtShift(w, url, stem, langs, d, 1);
      assert Downloads(w, url, id, stem, langs[1..], d1) == YtdlpOutcome(None, d1, []);
    }
  }

  lemma DownloadsCons(w: World, url: string, id: string, stem: string, langs: seq<string>, d: Dir, out: YtdlpOutcome)
    requires d.Valid() && langs != [] && MovesOn(w, url, id, stem, langs[0], d)
    requires out.langs != [] && out.langs[0] == langs[0]
    requires YtdlpOutcome(out.text, out.dir, out.langs[1..])
      == Downloads(w, url, id, stem, langs[1..], d.WriteAll(w.run(url, langs[0], stem).written))
    ensures out == Downloads(w, url, id, stem, langs, d)
  {
    DownloadsMovesOn(w, url, id, stem, langs, d);
    assert out.langs == [langs[0]] + out.langs[1..];
  }

  /** A first turn that moves on leaves the rest of the loop to the other languages, from the files it wrote. */
  lemma DownloadsMovesOn(w: World, url: string, id: string, stem: string, langs: seq<string>, d: Dir)
    requires d.Valid() && langs != [] && MovesOn(w, url, id, stem, langs[0], d)
    ensures w.run(url, langs[0], stem).RunExit?
    ensures Downloads(w, url, id, stem, langs, d)
      == After([langs[0]], Downloads(w, url, id, stem, langs[1..], d.WriteAll(w.run(url, langs[0], stem).written)))
  {
  }

  /** No turn both moves on and ends the loop. */
  lemma TurnsExclusive(w: World, url: string, id: string, stem: string, lang: string, d: Dir, text: Option<string>, dir: Dir)
    requires d.Valid()
    ensures !(MovesOn(w, url, id, stem, lang, d) && EndsWith(w, url, id, stem, lang, d, text, dir))
  {
  }

  /** A walk whose first turn moved on and that made more than one turn continues as a walk over the other languages. */
  lemma WalkedTail(w: World, url: string, id: string, stem: string, langs: seq<string>, d: Dir, out: YtdlpOutcome)
    requires d.Valid() && Walked(w, url, id, stem, langs, d, out) && |out.langs| > 1
    ensures MovesOn(w, url, id, stem, langs[0], d) && out.langs[0] == langs[0]
    ensures Walked(w, url, id, stem, langs[1..], d.WriteAll(w.run(url, langs[0], stem).written),
                   YtdlpOutcome(out.text, out.dir, out.langs[1..]))
  {
    assert DirAt(w, url, stem, langs, d, 0) == d;
    assert MovesOn(w, url, id, stem, langs[0], DirAt(w, url, stem, langs, d, 0));
    var d1 := d.WriteAll(w.run(url, langs[0], stem).written);
    var rest := YtdlpOutcome(out.text, out.dir, out.langs[1..]);
    assert rest.langs <= langs[1..];
    forall k | 0 <= k < |rest.langs| - 1
      ensures MovesOn(w, url, id, stem, langs[1..][k], DirAt(w, url, stem, langs[1..], d1, k))
    {
      DirAtShift(w, url, stem, langs, d, k + 1);
    }
    var k := |out.langs| - 1;
    DirAtShift(w, url, stem, langs, d, k);
    DirAtShift(w, url, stem, langs, d, |langs|);
  }

  lemma DirAtShift(w: World, url: string, stem: string, langs: seq<string>, d: Dir, k: nat)
    requires d.Valid() && 0 < k <= |langs| && w.run(url, langs[0], stem).RunExit?
    ensures DirAt(w, url, stem, langs, d, k) == DirAt(w, url, stem, langs[1..], d.WriteAll(w.run(url, langs[0], stem).written), k - 1)
    ensures k < |langs| ==> langs[k] == langs[1..][k - 1]
  {
  }

  lemma MovedOnStep(w: World, url: string, id: string, stem: string, langs: seq<string>, d: Dir, n: nat)
    requires d.Valid() && 0 < n <= |langs| && w.run(url, langs[0], stem).RunExit?
    requires MovesOn(w, url, id, stem, langs[0], d)
    requires MovedOn(w, url, id, stem, langs[1..], d.WriteAll(w.run(url, langs[0], stem).written), n - 1)
    ensures MovedOn(w, url, id, stem, langs, d, n)
  {
    forall k | 0 < k < n
      ensures MovesOn(w, url, id, stem, langs[k], DirAt(w, url, stem, langs, d, k))
    {
      DirAtShift(w, url, stem, langs, d, k);
    }
  }

  lemma LastTurnStep(w: World, url: string, id: string, stem: string, langs: seq<string>, d: Dir, rest: YtdlpOutcome)
    requires d.Valid() && langs != [] && w.run(url, langs[0], stem).RunExit?
    requires MovesOn(w, url, id, stem, langs[0], d)
    requires rest.langs <= langs[1..]
    requires rest.langs == [] ==> langs[1..] == [] && rest.text.None? && rest.dir == d.WriteAll(w.run(url, langs[0], stem).written)
    requires rest.langs != [] ==> LastTurn(w, url, id, stem, langs[1..], d.WriteAll(w.run(url, langs[0], stem).written), rest)
    ensures LastTurn(w, url, id, stem, langs, d, After([langs[0]], rest))
  {
    var k := |rest.langs|;
    DirAtShift(w, url, stem, langs, d, |langs|);
    if k > 0 {
      DirAtShift(w, url, stem, langs, d, k);
    }
  }

  /** The strategy downloads `pt`, `pt-BR` and `en` at most, in that order, under the cleaned title. */
  lemma YtdlpLangs(w: World, d: Dir, url: string, id: string)
    requires d.Valid()
    ensures Ytdlp(w, d, url, id).langs <= Languages
  {
    DownloadsLangs(w, url, id, Stem(CleanFilename(GetVideoInfo(w, id).title), id), Languages, d);
  }

  // ----- download_single_video -----

  /**
   * The dictionary `download_single_video` returns, with `index` set by the
   * batch routes; `None` for a key the dictionary does not have.
   */
  datatype Record = Record(
    success: bool,
    url: string,
    videoId: Option<string>,
    transcript: Option<string>,
    size: Option<nat>,
    message: string,
    videoInfo: Option<VideoInfo>,
    index: Option<nat>)

  /** The record of a URL given up before its id is known. */
  function Refused(url: string, message: string): Record {
    Record(false, url, None, None, None, message, None, None)
  }

  const SuccessPrefix: string := "Sucesso - "
  const SuccessSuffix: string := " caracteres"

  /** The message of a success: the transcript's length in characters. */
  function SuccessMessage(size: nat): string {
    SuccessPrefix + Show(size) + SuccessSuffix
  }

  /** The record of a URL whose run found the transcript `t`. */
  function Succeeded(url: string, id: string, t: string, info: VideoInfo): Record {
    Record(true, url, Some(id), Some(t), Some(|t|), SuccessMessage(|t|), Some(info), None)
  }

  /** The record of a URL whose run found no transcript. */
  function Missed(url: string, id: string, info: VideoInfo): Record {
    Record(false, url, Some(id), None, None, "Nenhuma transcrição disponível", Some(info), None)
  }

  /** The record of a single-video run and the directory after it. */
  datatype SingleOutcome = SingleOutcome(record: Record, dir: Dir)

  /** The transcript of a video: the caption-service text when it is not empty, else yt-dlp's. */
  function Acquire(w: World, d: Dir, url: string, id: string): (out: YtdlpOutcome)
    requires d.Valid()
    ensures out.dir.Valid()
    ensures var api := ApiTranscript(w.captions(id)).text;
      && (NonEmpty(api) ==> out.text == api && out.dir == d && out.langs == [])
      && (!NonEmpty(api) ==> out.langs <= Languages && TakenFrom(out, id))
  {
    var api := ApiTranscript(w.captions(id)).text;
    if NonEmpty(api) then YtdlpOutcome(api, d, []) else Ytdlp(w, d, url, id)
  }

  /** `download_single_video`: a refusal for an empty URL or one without an id, otherwise a success or a miss. */
  function Single(w: World, d: Dir, url: string): (out: SingleOutcome)
    requires d.Valid()
    ensures out.dir.Valid()
    ensures WellFormed(out.record) && out.record.url == url && out.record.index.None?
  {
    if url == [] then SingleOutcome(Refused(url, "URL não fornecida"), d)
    else match ExtractVideoId(url)
      case None => SingleOutcome(Refused(url, "ID do vídeo não encontrado"), d)
      case Some(id) => SingleFor(w, d, url, id)
  }

  /** The run for a URL whose id is `id`. */
  function SingleFor(w: World, d: Dir, url: string, id: string): (out: SingleOutcome)
    requires d.Valid()
    ensures out.dir.Valid()
    ensures WellFormed(out.record) && out.record.url == url && out.record.videoId == Some(id)
  {
    var info := GetVideoInfo(w, id);
    var t := Acquire(w, d, url, id);
    if NonEmpty(t.text) then SingleOutcome(Succeeded(url, id, t.text.value, info), t.dir)
    else SingleOutcome(Missed(url, id, info), t.dir)
  }

  /**
   * The shape every record has: a success carries a non-empty transcript,
   * its length and the message naming that length; a failure carries no
   * transcript and no length.
   */
  predicate WellFormed(r: Record) {
    && (r.success ==> r.transcript.Some? && r.transcript.value != [])
    && (r.success ==> r.size == Some(|r.transcript.value|) && r.message == SuccessMessage(|r.transcript.value|))
    && (!r.success ==> r.transcript.None? && r.size.None?)
  }

  /**
   * The record of a run: it is well formed and names its URL; it names the
   * id exactly when the URL has one, with the probe's information beside it;
   * and a failure says why.
   */
  lemma SingleRecord(w: World, d: Dir, url: string)
    requires d.Valid()
    ensures var r := Single(w, d, url).record;
      && WellFormed(r)
      && r.url == url && r.index.None?
      && r.videoId == (if url == [] then None else ExtractVideoId(url))
      && (r.videoId.Some? ==> r.videoInfo == Some(GetVideoInfo(w, r.videoId.value)))
      && (r.videoId.None? ==> r.videoInfo.None?)
      && (!r.success ==> r.message in {"URL não fornecida", "ID do vídeo não encontrado", "Nenhuma transcrição disponível"})
  {
    if url != [] && ExtractVideoId(url).Some? {
      SingleForRecord(w, d, url, ExtractVideoId(url).value);
    }
  }

  /** The record of a run for a URL with an id. */
  lemma SingleForRecord(w: World, d: Dir, url: string, id: string)
    requires d.Valid()
    ensures var r := SingleFor(w, d, url, id).record;
      && WellFormed(r)
      && r.url == url && r.index.None?
      && r.videoId == Some(id) && r.videoInfo == Some(GetVideoInfo(w, id))
      && (!r.success ==> r.message == "Nenhuma transcrição disponível")
      && (r.success <==> NonEmpty(Acquire(w, d, url, id).text))
      && (r.success ==> r.transcript == Acquire(w, d, url, id).text)
      && SingleFor(w, d, url, id).dir == Acquire(w, d, url, id).dir
  {
  }

  /**
   * The fallback: a non-empty caption-service text is the transcript and
   * leaves the directory alone; otherwise the run succeeds exactly when
   * yt-dlp gives a non-empty text, which is then the transcript, and the
   * directory is the one yt-dlp left.
   */
  lemma SingleForChooses(w: World, d: Dir, url: string, id: string)
    requires d.Valid()
    ensures var api := ApiTranscript(w.captions(id)).text;
      var out := SingleFor(w, d, url, id);
      && (NonEmpty(api) ==> out.record.success && out.record.transcript == api && out.dir == d)
      && (!NonEmpty(api) ==>
            var y := Ytdlp(w, d, url, id);
            && (out.record.success <==> NonEmpty(y.text))
            && (out.record.success ==> out.record.transcript == y.text)
            && out.dir == y.dir)
  {
    SingleForRecord(w, d, url, id);
  }

  /** The yt-dlp strategy walks `pt`, `pt-BR` and `en` under the stem of the cleaned title. */
  lemma YtdlpWalked(w: World, d: Dir, url: string, id: string)
    requires d.Valid()
    ensures Walked(w, url, id, Stem(CleanFilename(GetVideoInfo(w, id).title), id), Languages, d, Ytdlp(w, d, url, id))
  {
    DownloadsWalked(w, url, id, Stem(CleanFilename(GetVideoInfo(w, id).title), id), Languages, d);
  }

  /**
   * yt-dlp is not consulted when the caption service gives a non-empty text:
   * the record carries that text and the directory is untouched, whatever
   * the downloads do.
   */
  lemma ApiTextSkipsYtdlp(w: World, d: Dir, url: string, run: (string, string, string) -> Run)
    requires d.Valid()
    requires var id := ExtractVideoId(url);
      id.Some? && NonEmpty(ApiTranscript(w.captions(id.value)).text)
    ensures Single(w.(run := run), d, url) == Single(w, d, url)
    ensures Single(w, d, url).dir == d
    ensures Single(w, d, url).record.transcript == ApiTranscript(w.captions(ExtractVideoId(url).value)).text
  {
    assert url != [];
  }

  /** A success message gives back the transcript's length: reading its number yields `size`. */
  lemma SuccessMessageSize(size: nat)
    ensures var m := SuccessMessage(size);
      && |m| > |SuccessPrefix| + |SuccessSuffix|
      && var digits := m[|SuccessPrefix|..|m| - |SuccessSuffix|];
         (forall i :: 0 <= i < |digits| ==> IsAsciiDigit(digits[i])) && Value(digits) == size
  {
    var s := Show(size);
    var m := SuccessMessage(size);
    assert m[|SuccessPrefix|..|m| - |SuccessSuffix|] == s;
    ValueShow(size);
  }

  // ----- The downloader object -----

  /** The downloader: its output directory, the pause between two videos, and how many pauses it made. */
  class Downloader {
    var dir: Dir
    const delay: nat
    ghost var sleeps: nat

    ghost predicate Valid()
      reads this
    {
      dir.Valid()
    }

    /** A downloader over an existing output directory, pausing `delay` seconds between two videos (2 by default). */
    constructor(d: Dir, delay: nat)
      requires d.Valid()
      ensures Valid() && dir == d && this.delay == delay && sleeps == 0
    {
      dir := d;
      this.delay := delay;
      sleeps := 0;
    }

    /** `download_transcript_api`; `tried` records the calls made. */
    method DownloadTranscriptApi(c: Captions) returns (text: Option<string>, ghost tried: seq<Call>)
      ensures ApiOutcome(text, tried) == ApiTranscript(c)
    {
      if c.listing.ListingRaised? {
        return None, [];
      }
      var tracks := c.listing.tracks;
      ghost var direct := DirectCalls(Preferred);
      ghost var listed := TrackCalls(tracks, |tracks|, false);
      text, tried := TryPreferred(c, tracks);
      if text.Some? {
        SearchedFirst(c, tracks, direct, direct + listed, tried);
      } else {
        SearchedMissed(c, tracks, direct, tried);
        ghost var more;
        text, more := TryListed(c, tracks, false);
        SearchedThen(c, tracks, direct, listed, more);
        tried := direct + more;
      }
      SearchedIsApiSearch(c, tracks, false, tried);
    }

    /** `download_with_ytdlp`; `langs` records the languages downloaded. */
    method DownloadWithYtdlp(w: World, url: string, id: string) returns (text: Option<string>, ghost langs: seq<string>)
      requires Valid()
      modifies this
      ensures Valid() && sleeps == old(sleeps)
      ensures YtdlpOutcome(text, dir, langs) == Ytdlp(w, old(dir), url, id)
    {
      var info := GetVideoInfo(w, id);
      var title := CleanFilename(info.title);
      text, langs := DownloadLanguages(w, url, id, Stem(title, id));
    }

    /** The language loop of `download_with_ytdlp`, for one output stem. */
    method DownloadLanguages(w: World, url: string, id: string, stem: string) returns (text: Option<string>, ghost langs: seq<string>)
      requires Valid()
      modifies this
      ensures Valid() && sleeps == old(sleeps)
      ensures YtdlpOutcome(text, dir, langs) == Downloads(w, url, id, stem, Languages, old(dir))
    {
      ghost var goal := Downloads(w, url, id, stem, Languages, dir);
      langs := [];
      var todo := Languages;
      while todo != []
        invariant Valid() && sleeps == old(sleeps)
        invariant goal == After(langs, Downloads(w, url, id, stem, todo, dir))
        decreases |todo|
      {
        var done;
        done, text := DownloadLanguage(w, url, id, stem, todo);
        AfterAfter(langs, [todo[0]], Downloads(w, url, id, stem, todo[1..], dir));
        langs := langs + [todo[0]];
        if done {
          return;
        }
        todo := todo[1..];
      }
      return None, langs;
    }

    /**
     * One turn of the language loop, for the first of `langs`: `done` when it
     * ends the loop, with the text it returns; otherwise the loop goes on with
     * the rest from the directory the download left.
     */
    method DownloadLanguage(w: World, url: string, id: string, stem: string, langs: seq<string>) returns (done: bool, text: Option<string>)
      requires Valid() && langs != []
      modifies this
      ensures Valid() && sleeps == old(sleeps)
      ensures done ==> Downloads(w, url, id, stem, langs, old(dir)) == YtdlpOutcome(text, dir, [langs[0]])
      ensures !done ==> Downloads(w, url, id, stem, langs, old(dir)) == After([langs[0]], Downloads(w, url, id, stem, langs[1..], dir))
    {
      var lang := langs[0];
      match w.run(url, lang, stem) {
        case RunRaised =>
          return true, None;
        case RunExit(code, written) =>
          dir := dir.WriteAll(written);
          if code == 0 {
            var found := FindSubtitle(dir.Glob(id));
            if found.Some? {
              GlobbedSubtitle(dir, id);
              text := ParseFile(found.value, dir.files[found.value]);
              dir := dir.Unlink(found.value);
              return true, text;
            }
          }
          return false, None;
      }
    }

    /** `download_single_video`: the returned record. */
    method DownloadSingleVideo(w: World, url: string) returns (r: Record)
      requires Valid()
      modifies this
      ensures Valid() && sleeps == old(sleeps)
      ensures SingleOutcome(r, dir) == Single(w, old(dir), url)
    {
      if url == [] {
        return Refused(url, "URL não fornecida");
      }
      var id := ExtractVideoId(url);
      if id.None? {
        return Refused(url, "ID do vídeo não encontrado");
      }
      r := DownloadFor(w, url, id.value);
    }

    /** `download_single_video` once the id is known: the information, then the transcript. */
    method DownloadFor(w: World, url: string, id: string) returns (r: Record)
      requires Valid()
      modifies this
      ensures Valid() && sleeps == old(sleeps)
      ensures SingleOutcome(r, dir) == SingleFor(w, old(dir), url, id)
    {
      var info := GetVideoInfo(w, id);
      var transcript, langs := AcquireTranscript(w, url, id);
      if transcript.Some? && transcript.value != [] {
        return Succeeded(url, id, transcript.value, info);
      }
      return Missed(url, id, info);
    }

    /** The caption service first, then yt-dlp when the first gave nothing or an empty text. */
    method AcquireTranscript(w: World, url: string, id: string) returns (transcript: Option<string>, ghost langs: seq<string>)
      requires Valid()
      modifies this
      ensures Valid() && sleeps == old(sleeps)
      ensures YtdlpOutcome(transcript, dir, langs) == Acquire(w, old(dir), url, id)
    {
      ghost var tried;
      transcript, tried := DownloadTranscriptApi(w.captions(id));
      langs := [];
      if transcript.None? || transcript.value == [] {
        transcript, langs := DownloadWithYtdlp(w, url, id);
      }
    }
  }
}
