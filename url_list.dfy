/**
 * The URL-line filter: `load_urls_from_file` in the command-line script and
 * the loops of the `process-multiple` and `process-file` routes keep the same
 * lines, so the filter is modelled once.
 */
module UrlList {
  import opened Wrappers
  import opened Text
  import opened Counting

  /** A stripped line the filter keeps: not empty, not a comment, and naming YouTube. */
  predicate Accepted(line: string) {
    && line != []
    && !StartsWith(line, "#")
    && (Contains(line, "youtube.com") || Contains(line, "youtu.be"))
  }

  /** A raw line whose stripped text the filter keeps. */
  predicate IsUrlLine(raw: string) {
    Accepted(Strip(raw))
  }

  /** What one raw line contributes: nothing, or the line stripped. */
  function Kept(raw: string): seq<string> {
    var line := Strip(raw);
    if Accepted(line) then [line] else []
  }

  /** The URLs the filter keeps, in line order. */
  function ValidUrls(lines: seq<string>): (urls: seq<string>)
    ensures |urls| <= |lines|
    decreases |lines|
  {
    if lines == [] then [] else ValidUrls(lines[..|lines| - 1]) + Kept(lines[|lines| - 1])
  }

  /** The filtering loop: strip each line and append it when it is accepted. */
  method FilterUrls(lines: seq<string>) returns (urls: seq<string>)
    ensures urls == ValidUrls(lines)
  {
    urls := [];
    var i := 0;
    while i < |lines|
      invariant 0 <= i <= |lines|
      invariant urls == ValidUrls(lines[..i])
    {
      ValidUrlsStep(lines, i);
      var kept := KeepUrl(lines[i]);
      urls := urls + kept;
      i := i + 1;
    }
    assert lines[..i] == lines;
  }

  /** One turn of the loop: strip the line, then test it. */
  method KeepUrl(raw: string) returns (kept: seq<string>)
    ensures kept == Kept(raw)
  {
    var line := Strip(raw);
    if line != [] && !StartsWith(line, "#") {
      if Contains(line, "youtube.com") || Contains(line, "youtu.be") {
        return [line];
      }
    }
    return [];
  }

  /**
   * `load_urls_from_file`: the file's text, or `None` when it is missing or
   * cannot be read, which gives no URLs.
   */
  function LoadUrls(file: Option<string>): (urls: seq<string>)
    ensures file.None? ==> urls == []
    ensures file.Some? ==> |urls| == Count(Split(file.value, '\n'), IsUrlLine)
    ensures forall k :: 0 <= k < |urls| ==> Clean(urls[k])
  {
    match file
    case None => []
    case Some(content) =>
      var lines := Split(content, '\n');
      ValidUrlsCount(lines);
      ValidUrlsSound(lines);
      ValidUrls(lines)
  }

  /** The file-reading method: the filter applied to the file's lines. */
  method LoadUrlsFromFile(file: Option<string>) returns (urls: seq<string>)
    ensures urls == LoadUrls(file)
  {
    match file
    case None =>
      urls := [];
    case Some(content) =>
      var lines := Split(content, '\n');
      urls := FilterUrls(lines);
  }

  // ----- Properties of the filter -----

  lemma ValidUrlsStep(lines: seq<string>, i: nat)
    requires i < |lines|
    ensures ValidUrls(lines[..i + 1]) == ValidUrls(lines[..i]) + Kept(lines[i])
  {
    assert lines[..i + 1][..i] == lines[..i];
  }

  lemma ValidUrlsSnoc(lines: seq<string>, line: string)
    ensures ValidUrls(lines + [line]) == ValidUrls(lines) + Kept(line)
  {
    assert (lines + [line])[..|lines|] == lines;
  }

  /** A URL the filter can keep: accepted, and already stripped. */
  predicate Clean(url: string) {
    Accepted(url) && Stripped(url)
  }

  /** Every kept URL is accepted and already stripped. */
  lemma {:induction false} ValidUrlsSound(lines: seq<string>)
    ensures forall k :: 0 <= k < |ValidUrls(lines)| ==> Clean(ValidUrls(lines)[k])
    decreases |lines|
  {
    if lines != [] {
      var n := |lines| - 1;
      ValidUrlsSound(lines[..n]);
      AllCleanAppend(ValidUrls(lines[..n]), Kept(lines[n]));
    }
  }

  lemma AllCleanAppend(a: seq<string>, b: seq<string>)
    requires forall k :: 0 <= k < |a| ==> Clean(a[k])
    requires forall k :: 0 <= k < |b| ==> Clean(b[k])
    ensures forall k :: 0 <= k < |a + b| ==> Clean((a + b)[k])
  {
  }

  /** Every line whose stripped text is accepted is kept. */
  lemma {:induction false} ValidUrlsComplete(lines: seq<string>, k: int)
    requires 0 <= k < |lines| && IsUrlLine(lines[k])
    ensures Strip(lines[k]) in ValidUrls(lines)
    decreases |lines|
  {
    var init := lines[..|lines| - 1];
    if k < |lines| - 1 {
      assert lines[k] == init[k];
      ValidUrlsComplete(init, k);
    }
  }

  /** One URL is kept for each line whose stripped text is accepted. */
  lemma {:induction false} ValidUrlsCount(lines: seq<string>)
    ensures |ValidUrls(lines)| == Count(lines, IsUrlLine)
    decreases |lines|
  {
    if lines != [] {
      var init, last := lines[..|lines| - 1], lines[|lines| - 1];
      ValidUrlsCount(init);
      assert |Kept(last)| == if IsUrlLine(last) then 1 else 0;
    }
  }

  /** Filtering the filter's own output changes nothing. */
  lemma {:induction false} ValidUrlsIdempotent(lines: seq<string>)
    ensures ValidUrls(ValidUrls(lines)) == ValidUrls(lines)
    decreases |lines|
  {
    if lines != [] {
      var init, last := lines[..|lines| - 1], lines[|lines| - 1];
      ValidUrlsIdempotent(init);
      var kept := Kept(last);
      if kept != [] {
        StripStripped(kept[0]);
        ValidUrlsSnoc(ValidUrls(init), kept[0]);
        assert kept == [kept[0]];
      } else {
        assert ValidUrls(init) + kept == ValidUrls(init);
      }
    }
  }
}
