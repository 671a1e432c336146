/**
 * What both downloaders share about their outputs: the truthiness test on a
 * transcript, the output stem yt-dlp writes under, the name of a saved
 * transcript, and the outcome of a yt-dlp strategy.
 */
module Outcomes {
  import opened Wrappers
  import opened Staging

  /** The output template `{title}_[{video_id}]` without its `.%(ext)s` ending. */
  function Stem(title: string, id: string): string {
    title + "_[" + id + "]"
  }

  /** The name of the transcript file of a video. */
  function OutputName(id: string): string {
    "transcricao_" + id + ".txt"
  }

  /** `if transcript:` on an optional text: present and not empty. */
  predicate NonEmpty(t: Option<string>) {
    t.Some? && t.value != []
  }

  /** The text a yt-dlp strategy returns, the directory after it, and the languages it downloaded. */
  datatype YtdlpOutcome = YtdlpOutcome(text: Option<string>, dir: Dir, langs: seq<string>)

  /** An outcome of the loop's remaining turns, after the turns that downloaded `langs`. */
  function After(langs: seq<string>, rest: YtdlpOutcome): YtdlpOutcome {
    YtdlpOutcome(rest.text, rest.dir, langs + rest.langs)
  }

  lemma AfterAfter(a: seq<string>, b: seq<string>, rest: YtdlpOutcome)
    ensures After(a, After(b, rest)) == After(a + b, rest)
  {
    assert a + (b + rest.langs) == a + b + rest.langs;
  }

}
