/**
 * The world outside both downloaders, given as data: what the caption service
 * (`youtube_transcript_api`) answers, what the `yt-dlp` program does when it is
 * run, and whether a transcript file can be written. Every call is taken to
 * answer the same way each time it is made.
 */
module Externals {
  import opened Wrappers
  import opened Entries
  import opened Staging

  /** The outcome of a call that returns caption entries: it raised, or it returned a list. */
  datatype Fetch = Raised | Data(entries: seq<Entry>)

  /** `if transcript_data:`: the call returned a list that is not empty. */
  predicate Useful(f: Fetch) {
    f.Data? && f.entries != []
  }

  /**
   * One transcript the service lists for a video: its language code, whether it
   * was generated, whether it can be translated, what `fetch()` gives, and what
   * `translate(target).fetch()` gives for each target language.
   */
  datatype Track = Track(
    language: string,
    generated: bool,
    translatable: bool,
    fetched: Fetch,
    translations: string -> Fetch)

  /** `list_transcripts(video_id)`: it raised, or it listed these transcripts in this order. */
  datatype Listing = ListingRaised | Listed(tracks: seq<Track>)

  /**
   * What the service answers for one video: the listing, and what
   * `get_transcript(video_id, languages=[lang])` gives for each language.
   */
  datatype Captions = Captions(listing: Listing, direct: string -> Fetch)

  /** The fields of `yt-dlp --dump-json` the downloaders read; `None` for a missing key. */
  datatype Info = Info(
    title: Option<string>,
    duration: Option<int>,
    uploader: Option<string>,
    viewCount: Option<int>)

  /**
   * `yt-dlp --dump-json --no-download <target>`: the call raised (a timeout
   * after 30 seconds, or yt-dlp could not be started), or yt-dlp exited with a
   * code and printed something that is a JSON object (`Some`) or is not (`None`).
   */
  datatype Probe = ProbeRaised | ProbeExit(code: int, info: Option<Info>)

  /**
   * One subtitle download: the call raised (a timeout after 60 seconds, or
   * yt-dlp could not be started), or yt-dlp exited with a code after writing
   * these files into the output directory.
   */
  datatype Run = RunRaised | RunExit(code: int, written: seq<StagedFile>)

  /**
   * The whole outside world: the caption service's answers by video id, the
   * probe's outcome by target URL, a download's outcome by URL, language and
   * output stem (the output template without its `.%(ext)s` ending), and
   * whether a transcript file of a given name can be written.
   */
  datatype World = World(
    captions: string -> Captions,
    probe: string -> Probe,
    run: (string, string, string) -> Run,
    writable: string -> bool)
}
