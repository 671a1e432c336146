/**
 * The web server's routes over the downloader of `Monolith`: one video, a
 * posted list of URLs, an uploaded `.txt` file of URLs, and the archive of
 * every successful transcript. Responses are modelled by their JSON body or
 * the archive's entries; HTTP status codes are not modelled.
 */
module Routes {
  import opened Wrappers
  import opened Text
  import opened Decimal
  import opened Counting
  import opened UrlList
  import opened Staging
  import opened Externals
  import opened Outcomes
  import opened Monolith

  /**
   * A route's answer: an error message (status 400), an internal error
   * (status 500), the record of one video, or the records of a batch with
   * their tallies.
   */
  datatype Response =
    | Rejected(error: string)
    | InternalError
    | One(result: Record)
    | Many(results: seq<Record>, total: nat, successful: nat, failed: nat)

  /** A route's answer and the output directory after it. */
  datatype Served = Served(response: Response, dir: Dir)

  // ----- process-single -----

  /** A URL naming YouTube's long or short domain. */
  predicate NamesYouTube(url: string) {
    Contains(url, "youtube.com") || Contains(url, "youtu.be")
  }

  /**
   * `process_single_video`: the posted URL stripped; refused when empty or
   * not naming YouTube, otherwise the record of its run.
   */
  function SingleRoute(w: World, d: Dir, raw: string): (out: Served)
    requires d.Valid()
    ensures out.dir.Valid()
  {
    var url := Strip(raw);
    if url == [] then Served(Rejected("URL é obrigatória"), d)
    else if !NamesYouTube(url) then Served(Rejected("URL deve ser do YouTube"), d)
    else
      var run := Single(w, d, url);
      Served(One(run.record), run.dir)
  }

  // ----- The batch loop of process-multiple and process-file -----

  /** The records of a batch and the directory after it. */
  datatype BatchOutcome = BatchOutcome(results: seq<Record>, dir: Dir)

  /** An outcome of the batch's remaining runs, after the runs that gave `results`. */
  function Behind(results: seq<Record>, rest: BatchOutcome): BatchOutcome {
    BatchOutcome(results + rest.results, rest.dir)
  }

  lemma BehindBehind(a: seq<Record>, b: seq<Record>, rest: BatchOutcome)
    ensures Behind(a, Behind(b, rest)) == Behind(a + b, rest)
  {
    assert a + (b + rest.results) == a + b + rest.results;
  }

  /**
   * The loop over the URLs from position `i` on: each run sees the directory
   * the previous one left, and its record gets its position as `index`.
   */
  function Batch(w: World, d: Dir, urls: seq<string>, i: nat): (out: BatchOutcome)
    requires d.Valid()
    ensures out.dir.Valid() && |out.results| == |urls|
    decreases |urls|
  {
    if urls == [] then BatchOutcome([], d)
    else
      var first := Single(w, d, urls[0]);
      Behind([first.record.(index := Some(i))], Batch(w, first.dir, urls[1..], i + 1))
  }

  /**
   * Records numbered from `i`: one per URL, in order, each well formed,
   * naming its URL and carrying its position as index.
   */
  ghost predicate Numbered(results: seq<Record>, urls: seq<string>, i: nat) {
    && |results| == |urls|
    && forall k :: 0 <= k < |urls| ==>
         && WellFormed(results[k])
         && results[k].url == urls[k]
         && results[k].index == Some(i + k)
  }

  /** Every record of a batch is well formed, names its URL and carries its position as index. */
  lemma {:induction false} BatchNumbered(w: World, d: Dir, urls: seq<string>, i: nat)
    requires d.Valid()
    ensures Numbered(Batch(w, d, urls, i).results, urls, i)
    decreases |urls|
  {
    if urls != [] {
      var first := Single(w, d, urls[0]);
      SingleRecord(w, d, urls[0]);
      BatchNumbered(w, first.dir, urls[1..], i + 1);
      NumberedCons(first.record.(index := Some(i)), Batch(w, first.dir, urls[1..], i + 1).results, urls, i);
    }
  }

  lemma NumberedCons(r: Record, rest: seq<Record>, urls: seq<string>, i: nat)
    requires urls != [] && WellFormed(r) && r.url == urls[0] && r.index == Some(i)
    requires Numbered(rest, urls[1..], i + 1)
    ensures Numbered([r] + rest, urls, i)
  {
    var all := [r] + rest;
    forall k | 0 <= k < |urls|
      ensures WellFormed(all[k]) && all[k].url == urls[k] && all[k].index == Some(i + k)
    {
      if k > 0 {
        assert all[k] == rest[k - 1] && urls[k] == urls[1..][k - 1];
      }
    }
  }

  /** The directory the `k`-th run of a batch starts from: the one the runs before it left. */
  function DirBefore(w: World, d: Dir, urls: seq<string>, k: nat): (r: Dir)
    requires d.Valid() && k <= |urls|
    ensures r.Valid()
    decreases k
  {
    if k == 0 then d else DirBefore(w, Single(w, d, urls[0]).dir, urls[1..], k - 1)
  }

  /** Record `k` is the single-video record of URL `k`, run on the directory the earlier runs left, with index `i + k`. */
  ghost predicate RanFrom(w: World, d: Dir, results: seq<Record>, urls: seq<string>, i: nat)
    requires d.Valid()
  {
    && |results| == |urls|
    && forall k :: 0 <= k < |urls| ==>
         results[k] == Single(w, DirBefore(w, d, urls, k), urls[k]).record.(index := Some(i + k))
  }

  /** Every record of a batch is the record of its own URL's run, numbered by position. */
  lemma BatchRuns(w: World, d: Dir, urls: seq<string>, i: nat)
    requires d.Valid()
    ensures RanFrom(w, d, Batch(w, d, urls, i).results, urls, i)
  {
    forall k | 0 <= k < |urls|
      ensures Batch(w, d, urls, i).results[k] == Single(w, DirBefore(w, d, urls, k), urls[k]).record.(index := Some(i + k))
    {
      BatchRunAt(w, d, urls, i, k);
    }
  }

  /** Record `k` of `results` is URL `k`'s run on the directory the first `k` runs left, numbered `i + k`. */
  ghost predicate RanAt(w: World, d: Dir, results: seq<Record>, urls: seq<string>, i: nat, k: nat)
    requires d.Valid() && k < |urls|
  {
    k < |results| && results[k] == Single(w, DirBefore(w, d, urls, k), urls[k]).record.(index := Some(i + k))
  }

  /** Record `k` of a batch is URL `k`'s run on the directory the first `k` runs left. */
  lemma {:induction false} BatchRunAt(w: World, d: Dir, urls: seq<string>, i: nat, k: nat)
    requires d.Valid() && k < |urls|
    ensures RanAt(w, d, Batch(w, d, urls, i).results, urls, i, k)
    decreases k
  {
    if k > 0 {
      var d1 := Single(w, d, urls[0]).dir;
      BatchRunAt(w, d1, urls[1..], i + 1, k - 1);
      BatchRunShift(w, d, urls, i, k);
    }
  }

  lemma BatchRunShift(w: World, d: Dir, urls: seq<string>, i: nat, k: nat)
    requires d.Valid() && 0 < k < |urls|
    requires RanAt(w, Single(w, d, urls[0]).dir, Batch(w, Single(w, d, urls[0]).dir, urls[1..], i + 1).results, urls[1..], i + 1, k - 1)
    ensures RanAt(w, d, Batch(w, d, urls, i).results, urls, i, k)
  {
    DirBeforeShift(w, d, urls, k);
    assert Batch(w, d, urls, i).results[k] == Batch(w, Single(w, d, urls[0]).dir, urls[1..], i + 1).results[k - 1];
  }

  lemma DirBeforeShift(w: World, d: Dir, urls: seq<string>, k: nat)
    requires d.Valid() && 0 < k <= |urls|
    ensures DirBefore(w, d, urls, k) == DirBefore(w, Single(w, d, urls[0]).dir, urls[1..], k - 1)
    ensures k < |urls| ==> urls[k] == urls[1..][k - 1]
  {
  }

  /** A batch of one URL is that URL's run, with index `i`. */
  lemma BatchOne(w: World, d: Dir, url: string, i: nat)
    requires d.Valid()
    ensures var run := Single(w, d, url);
      Batch(w, d, [url], i) == BatchOutcome([run.record.(index := Some(i))], run.dir)
  {
    var run := Single(w, d, url);
    assert [url][1..] == [];
    assert Batch(w, run.dir, [], i + 1) == BatchOutcome([], run.dir);
  }

  predicate IsSuccess(r: Record) {
    r.success
  }

  predicate IsFailure(r: Record) {
    !r.success
  }

  /** The batch response: the records, their number, and how many succeeded and failed. */
  function Tally(b: BatchOutcome): (out: Served)
    ensures out.dir == b.dir && out.response.Many? && out.response.results == b.results
    ensures out.response.total == |b.results| && out.response.successful + out.response.failed == out.response.total
  {
    CountSplits(b.results, IsSuccess, IsFailure);
    Served(Many(b.results, |b.results|, Count(b.results, IsSuccess), Count(b.results, IsFailure)), b.dir)
  }

  /** Successes and failures add up to the total. */
  lemma TallyCounts(b: BatchOutcome)
    ensures var r := Tally(b).response;
      r.successful + r.failed == r.total == |r.results|
  {
    CountSplits(b.results, IsSuccess, IsFailure);
  }

  // ----- process-multiple -----

  /**
   * `process_multiple_videos`: refused when the list is empty or keeps no
   * URL; otherwise the batch over the URLs the filter keeps.
   */
  function MultipleRoute(w: World, d: Dir, urls: seq<string>): (out: Served)
    requires d.Valid()
    ensures out.dir.Valid()
  {
    if urls == [] then Served(Rejected("Lista de URLs é obrigatória"), d)
    else
      var valid := ValidUrls(urls);
      if valid == [] then Served(Rejected("Nenhuma URL válida do YouTube encontrada"), d)
      else Tally(Batch(w, d, valid, 0))
  }

  /**
   * A batch answer has one record per URL the filter keeps, in order, each
   * well formed, naming that URL and carrying its position; and a list the
   * filter keeps nothing of is refused without running anything.
   */
  lemma MultipleRouteResults(w: World, d: Dir, urls: seq<string>)
    requires d.Valid()
    ensures var out := MultipleRoute(w, d, urls);
      && (out.response.Many? <==> ValidUrls(urls) != [])
      && (!out.response.Many? ==> out.dir == d && out.response.Rejected?)
      && (out.response.Many? ==>
            && |out.response.results| == |ValidUrls(urls)|
            && forall k :: 0 <= k < |ValidUrls(urls)| ==>
                 && WellFormed(out.response.results[k])
                 && out.response.results[k].url == ValidUrls(urls)[k]
                 && out.response.results[k].index == Some(k))
      && (out.response.Many? ==>
            && RanFrom(w, d, out.response.results, ValidUrls(urls), 0)
            && out.response.total == |ValidUrls(urls)|
            && out.dir == Batch(w, d, ValidUrls(urls), 0).dir)
  {
    var valid := ValidUrls(urls);
    if valid != [] {
      assert urls != [];
      BatchNumbered(w, d, valid, 0);
      BatchRuns(w, d, valid, 0);
    }
  }

  /**
   * Posting one URL that the list filter keeps gives the record the
   * single-video route gives for it, with index 0, and the same directory.
   */
  lemma OneUrlBothRoutes(w: World, d: Dir, raw: string)
    requires d.Valid() && IsUrlLine(raw)
    ensures var one := SingleRoute(w, d, raw);
      var many := MultipleRoute(w, d, [raw]);
      && one.response.One? && many.response.Many?
      && many.response.results == [one.response.result.(index := Some(0))]
      && many.dir == one.dir
  {
    assert [raw][..0] == [];
    assert ValidUrls([raw]) == [Strip(raw)];
    BatchOne(w, d, Strip(raw), 0);
  }

  // ----- process-file -----

  /** An uploaded file: its name, and its content when it decodes as UTF-8 (`None` otherwise). */
  datatype Upload = Upload(filename: string, content: Option<string>)

  /** `str.lower` on one character, for the ASCII letters. */
  function Lower(c: char): char {
    if 'A' <= c <= 'Z' then (c as int + 32) as char else c
  }

  /** `filename.lower().endswith('.txt')`. */
  predicate TxtName(filename: string) {
    |filename| >= 4 && MapChars(filename[|filename| - 4..], Lower) == ".txt"
  }

  /** A name passes exactly when it ends with a dot, `t` or `T`, `x` or `X`, and `t` or `T`. */
  lemma TxtNameLetters(filename: string)
    ensures TxtName(filename) <==>
      && |filename| >= 4
      && filename[|filename| - 4] == '.'
      && filename[|filename| - 3] in {'t', 'T'}
      && filename[|filename| - 2] in {'x', 'X'}
      && filename[|filename| - 1] in {'t', 'T'}
  {
    if |filename| >= 4 {
      var tail := filename[|filename| - 4..];
      var low := MapChars(tail, Lower);
      assert low == ".txt" <==> low[0] == '.' && low[1] == 't' && low[2] == 'x' && low[3] == 't';
    }
  }

  /**
   * `process_file`: refused without a file, with an empty name or a name not
   * ending in `.txt`; an internal error when the content is not UTF-8;
   * refused when no line is kept; otherwise the batch over the kept lines.
   */
  function FileRoute(w: World, d: Dir, upload: Option<Upload>): (out: Served)
    requires d.Valid()
    ensures out.dir.Valid()
  {
    match upload
    case None => Served(Rejected("Arquivo não encontrado"), d)
    case Some(file) =>
      if file.filename == [] then Served(Rejected("Nenhum arquivo selecionado"), d)
      else if !TxtName(file.filename) then Served(Rejected("Apenas arquivos .txt são aceitos"), d)
      else match file.content
        case None => Served(InternalError, d)
        case Some(content) =>
          var valid := ValidUrls(Split(content, '\n'));
          if valid == [] then Served(Rejected("Nenhuma URL válida encontrada no arquivo"), d)
          else Tally(Batch(w, d, valid, 0))
  }

  /**
   * Uploading a `.txt` file that keeps at least one URL answers exactly as
   * posting its lines as a list does.
   */
  lemma FileLikeList(w: World, d: Dir, name: string, content: string)
    requires d.Valid() && TxtName(name)
    requires ValidUrls(Split(content, '\n')) != []
    ensures FileRoute(w, d, Some(Upload(name, Some(content)))) == MultipleRoute(w, d, Split(content, '\n'))
  {
    assert Split(content, '\n') != [];
  }

  // ----- The route methods -----

  /** The `process-single` route over the server's downloader. */
  method ProcessSingleVideo(dl: Downloader, w: World, raw: string) returns (response: Response)
    requires dl.Valid()
    modifies dl
    ensures dl.Valid() && dl.sleeps == old(dl.sleeps)
    ensures Served(response, dl.dir) == SingleRoute(w, old(dl.dir), raw)
  {
    var url := Strip(raw);
    if url == [] {
      return Rejected("URL é obrigatória");
    }
    if !Contains(url, "youtube.com") && !Contains(url, "youtu.be") {
      return Rejected("URL deve ser do YouTube");
    }
    var result := dl.DownloadSingleVideo(w, url);
    return One(result);
  }

  /** The `process-multiple` route: `urls` is the posted list, empty when the key is missing. */
  method ProcessMultipleVideos(dl: Downloader, w: World, urls: seq<string>) returns (response: Response)
    requires dl.Valid()
    modifies dl
    ensures dl.Valid()
    ensures Served(response, dl.dir) == MultipleRoute(w, old(dl.dir), urls)
    ensures response.Many? ==> dl.sleeps == old(dl.sleeps) + |response.results| - 1
    ensures !response.Many? ==> dl.sleeps == old(dl.sleeps)
  {
    if urls == [] {
      return Rejected("Lista de URLs é obrigatória");
    }
    var valid := FilterUrls(urls);
    if valid == [] {
      return Rejected("Nenhuma URL válida do YouTube encontrada");
    }
    var results := RunBatch(dl, w, valid);
    return Many(results, |results|, Count(results, IsSuccess), Count(results, IsFailure));
  }

  /** The `process-file` route. */
  method ProcessFile(dl: Downloader, w: World, upload: Option<Upload>) returns (response: Response)
    requires dl.Valid()
    modifies dl
    ensures dl.Valid()
    ensures Served(response, dl.dir) == FileRoute(w, old(dl.dir), upload)
    ensures response.Many? ==> dl.sleeps == old(dl.sleeps) + |response.results| - 1
    ensures !response.Many? ==> dl.sleeps == old(dl.sleeps)
  {
    if upload.None? {
      return Rejected("Arquivo não encontrado");
    }
    var file := upload.value;
    if file.filename == [] {
      return Rejected("Nenhum arquivo selecionado");
    }
    if !TxtName(file.filename) {
      return Rejected("Apenas arquivos .txt são aceitos");
    }
    if file.content.None? {
      return InternalError;
    }
    var lines := Split(file.content.value, '\n');
    var valid := FilterUrls(lines);
    if valid == [] {
      return Rejected("Nenhuma URL válida encontrada no arquivo");
    }
    var results := RunBatch(dl, w, valid);
    return Many(results, |results|, Count(results, IsSuccess), Count(results, IsFailure));
  }

  /** The loop both batch routes share: one run per URL with its index, and a pause between two runs. */
  method RunBatch(dl: Downloader, w: World, urls: seq<string>) returns (results: seq<Record>)
    requires dl.Valid() && urls != []
    modifies dl
    ensures dl.Valid()
    ensures BatchOutcome(results, dl.dir) == Batch(w, old(dl.dir), urls, 0)
    ensures dl.sleeps == old(dl.sleeps) + |urls| - 1
  {
    ghost var goal := Batch(w, dl.dir, urls, 0);
    results := [];
    var i := 0;
    var todo := urls;
    while todo != []
      invariant dl.Valid()
      invariant i + |todo| == |urls|
      invariant goal == Behind(results, Batch(w, dl.dir, todo, i))
      invariant dl.sleeps == old(dl.sleeps) + i - (if todo == [] then 1 else 0)
      decreases |todo|
    {
      var result := RunOne(dl, w, todo, i);
      BehindBehind(results, [result], Batch(w, dl.dir, todo[1..], i + 1));
      results := results + [result];
      if i < |urls| - 1 {
        dl.sleeps := dl.sleeps + 1;
      }
      i := i + 1;
      todo := todo[1..];
    }
  }

  /** One turn of the batch loop, for the first of `urls` at position `i`. */
  method RunOne(dl: Downloader, w: World, urls: seq<string>, i: nat) returns (result: Record)
    requires dl.Valid() && urls != []
    modifies dl
    ensures dl.Valid() && dl.sleeps == old(dl.sleeps)
    ensures Batch(w, old(dl.dir), urls, i) == Behind([result], Batch(w, dl.dir, urls[1..], i + 1))
  {
    result := dl.DownloadSingleVideo(w, urls[0]);
    result := result.(index := Some(i));
  }

  // ----- download-all -----

  /**
   * One posted result as the page sends it back: `None` for a missing key;
   * `title` and `channel` come from its `video_info`.
   */
  datatype Posted = Posted(
    success: bool,
    videoId: Option<string>,
    transcript: Option<string>,
    url: Option<string>,
    title: Option<string>,
    channel: Option<string>)

  /** The posted form of a record the routes returned. */
  function Echo(r: Record): Posted {
    Posted(
      r.success, r.videoId, r.transcript, Some(r.url),
      if r.videoInfo.Some? then Some(r.videoInfo.value.title) else None,
      if r.videoInfo.Some? then Some(r.videoInfo.value.channel) else None)
  }

  /** `r.get('success') and r.get('transcript')`. */
  predicate Selected(p: Posted) {
    p.success && NonEmpty(p.transcript)
  }

  /** The successful results, in order. */
  function Successful(ps: seq<Posted>): (r: seq<Posted>)
    ensures |r| <= |ps|
    ensures forall k :: 0 <= k < |r| ==> Selected(r[k]) && r[k] in ps
    decreases |ps|
  {
    if ps == [] then []
    else Successful(ps[..|ps| - 1]) + (if Selected(ps[|ps| - 1]) then [ps[|ps| - 1]] else [])
  }

  /** One file of the archive. */
  datatype ZipEntry = ZipEntry(name: string, content: string)

  /** The header written before a transcript: the id, title, channel, URL and length. */
  function Header(id: string, title: string, channel: string, url: string, size: nat): string {
    "# Transcrição do YouTube\n"
    + "# Vídeo ID: " + id + "\n"
    + "# Título: " + title + "\n"
    + "# Canal: " + channel + "\n"
    + "# URL: " + url + "\n"
    + "# Caracteres: " + Show(size) + "\n\n"
  }

  /** The id of a posted result, `unknown` when missing. */
  function PostedId(p: Posted): string {
    p.videoId.GetOr("unknown")
  }

  /** The archive file of one result: `transcricao_<id>.txt` holding the header and the transcript. */
  function ArchiveEntry(p: Posted): (e: ZipEntry)
    ensures e.name == "transcricao_" + PostedId(p) + ".txt"
    ensures var t := p.transcript.GetOr("");
      |e.content| > |t| && e.content[|e.content| - |t|..] == t
  {
    var t := p.transcript.GetOr("");
    var head := Header(PostedId(p), p.title.GetOr("N/A"), p.channel.GetOr("N/A"), p.url.GetOr("N/A"), |t|);
    assert (head + t)[|head + t| - |t|..] == t;
    ZipEntry(OutputName(PostedId(p)), head + t)
  }

  /** The archive's files, one per result, in order. */
  function ArchiveEntries(ps: seq<Posted>): (es: seq<ZipEntry>)
    ensures |es| == |ps|
    ensures forall k :: 0 <= k < |ps| ==> es[k] == ArchiveEntry(ps[k])
  {
    seq(|ps|, k requires 0 <= k < |ps| => ArchiveEntry(ps[k]))
  }

  /** The answer of `download_all_transcripts`: an error message, or the archive's files. */
  datatype Archive = NoArchive(error: string) | Zip(entries: seq<ZipEntry>)

  function AllTranscripts(ps: seq<Posted>): (a: Archive)
    ensures ps == [] ==> a == NoArchive("Nenhum resultado fornecido")
    ensures ps != [] && Count(ps, Selected) == 0 ==> a == NoArchive("Nenhuma transcrição disponível")
    ensures a.Zip? <==> Count(ps, Selected) > 0
    ensures a.Zip? ==> |a.entries| == Count(ps, Selected)
  {
    SuccessfulCount(ps);
    if ps == [] then NoArchive("Nenhum resultado fornecido")
    else
      var selected := Successful(ps);
      if selected == [] then NoArchive("Nenhuma transcrição disponível")
      else Zip(ArchiveEntries(selected))
  }

  /** The successful results are those of the posted results that are selected, in order: one per selected result. */
  lemma {:induction false} SuccessfulCount(ps: seq<Posted>)
    ensures |Successful(ps)| == Count(ps, Selected)
    ensures forall p :: p in Successful(ps) <==> p in ps && Selected(p)
    decreases |ps|
  {
    if ps != [] {
      SuccessfulCount(ps[..|ps| - 1]);
      assert ps == ps[..|ps| - 1] + [ps[|ps| - 1]];
    }
  }

  /**
   * An archive file ends with its transcript, after the header, whose last
   * line gives back the transcript's length; its name is
   * `transcricao_<id>.txt`.
   */
  lemma ArchiveEntryContent(p: Posted)
    requires Selected(p)
    ensures var e := ArchiveEntry(p);
      var t := p.transcript.value;
      && e.name == "transcricao_" + PostedId(p) + ".txt"
      && |e.content| > |t|
      && e.content[|e.content| - |t|..] == t
      && var size := e.content[|e.content| - |t| - 2 - |Show(|t|)|..|e.content| - |t| - 2];
         (forall i :: 0 <= i < |size| ==> IsAsciiDigit(size[i])) && Value(size) == |t|
  {
    var e := ArchiveEntry(p);
    var t := p.transcript.value;
    var n := Show(|t|);
    var head := Header(PostedId(p), p.title.GetOr("N/A"), p.channel.GetOr("N/A"), p.url.GetOr("N/A"), |t|);
    var before := head[..|head| - |n| - 2];
    assert head == before + n + "\n\n";
    assert e.content == before + n + "\n\n" + t;
    assert e.content[|e.content| - |t| - 2 - |n|..|e.content| - |t| - 2] == n;
    ValueShow(|t|);
  }

  /**
   * The archive of the results a batch route returned holds one file per
   * success: none is made when no run succeeded.
   */
  lemma {:induction false} ArchiveOfResults(results: seq<Record>)
    requires forall k :: 0 <= k < |results| ==> WellFormed(results[k])
    ensures var echoes := seq(|results|, k requires 0 <= k < |results| => Echo(results[k]));
      var a := AllTranscripts(echoes);
      && (results == [] ==> a == NoArchive("Nenhum resultado fornecido"))
      && (results != [] && Count(results, IsSuccess) == 0 ==> a == NoArchive("Nenhuma transcrição disponível"))
      && (Count(results, IsSuccess) > 0 ==> a.Zip? && |a.entries| == Count(results, IsSuccess))
  {
    var echoes := seq(|results|, k requires 0 <= k < |results| => Echo(results[k]));
    forall k | 0 <= k < |results| ensures IsSuccess(results[k]) <==> Selected(echoes[k]) {
    }
    CountSame(results, IsSuccess, echoes, Selected);
    SuccessfulCount(echoes);
  }

  /** The `download-all` route: the archive's files built one by one. */
  method DownloadAllTranscripts(ps: seq<Posted>) returns (a: Archive)
    ensures a == AllTranscripts(ps)
  {
    if ps == [] {
      return NoArchive("Nenhum resultado fornecido");
    }
    var selected := Successful(ps);
    if selected == [] {
      return NoArchive("Nenhuma transcrição disponível");
    }
    var entries := [];
    var k := 0;
    while k < |selected|
      invariant 0 <= k <= |selected|
      invariant |entries| == k
      invariant forall j :: 0 <= j < k ==> entries[j] == ArchiveEntry(selected[j])
    {
      var p := selected[k];
      var content := EntryContent(p);
      entries := entries + [ZipEntry(OutputName(PostedId(p)), content)];
      k := k + 1;
    }
    return Zip(entries);
  }

  /** The content of one archive file, written line by line. */
  method EntryContent(p: Posted) returns (content: string)
    ensures content == ArchiveEntry(p).content
  {
    var id := PostedId(p);
    var t := p.transcript.GetOr("");
    content := "# Transcrição do YouTube\n";
    content := content + "# Vídeo ID: " + id + "\n";
    content := content + "# Título: " + p.title.GetOr("N/A") + "\n";
    content := content + "# Canal: " + p.channel.GetOr("N/A") + "\n";
    content := content + "# URL: " + p.url.GetOr("N/A") + "\n";
    content := content + "# Caracteres: " + Show(|t|) + "\n\n";
    content := content + t;
  }
}
