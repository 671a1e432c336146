/**
 * `parse_vtt`, `parse_srt` and `parse_subtitle_file`: from a downloaded
 * WebVTT or SubRip caption file to one line of plain text.
 */
module Subtitles {
  import opened Wrappers
  import opened Text

  /** The two caption formats, told apart by the file suffix. */
  datatype Format = Vtt | Srt

  /**
   * What follows the first `>` of `t`, where the scan resumes after a tag;
   * `None` when `t` holds no `>`.
   */
  function AfterClose(t: string): (r: Option<string>)
    ensures r.None? <==> '>' !in t
    ensures r.Some? ==> |r.value| < |t|
  {
    if t == [] then None
    else if t[0] == '>' then Some(t[1..])
    else AfterClose(t[1..])
  }

  /** The scan resumes on a suffix of the text. */
  lemma {:induction false} AfterCloseSuffix(t: string)
    requires AfterClose(t).Some?
    ensures var rest := AfterClose(t).value; rest == t[|t| - |rest|..]
  {
    if t[0] != '>' {
      AfterCloseSuffix(t[1..]);
    }
  }

  /** The first `>` after a stretch without one closes the tag. */
  lemma {:induction false} AfterCloseOf(inside: string, s: string)
    requires '>' !in inside
    ensures AfterClose(inside + ">" + s) == Some(s)
  {
    var t := inside + ">" + s;
    if inside == [] {
      assert t == ">" + s;
    } else {
      assert t[1..] == inside[1..] + ">" + s;
      AfterCloseOf(inside[1..], s);
    }
  }

  /**
   * `re.sub(r'<[^>]*>', '', s)`: each `<` up to and including the first `>`
   * after it is deleted, scanning left to right; a `<` with no `>` after it
   * stays where it is.
   */
  function StripTags(s: string): (r: string)
    ensures |r| <= |s|
    decreases |s|
  {
    if s == [] then []
    else if s[0] == '<' && AfterClose(s[1..]).Some? then StripTags(AfterClose(s[1..]).value)
    else [s[0]] + StripTags(s[1..])
  }

  /** Tag removal introduces no character that was not there. */
  lemma {:induction false} StripTagsChars(s: string, c: char)
    requires c !in s
    ensures c !in StripTags(s)
    decreases |s|
  {
    if s != [] {
      if s[0] == '<' && AfterClose(s[1..]).Some? {
        AfterCloseSuffix(s[1..]);
        StripTagsChars(AfterClose(s[1..]).value, c);
      } else {
        StripTagsChars(s[1..], c);
      }
    }
  }

  /** The text holds no `<` with a `>` somewhere after it. */
  predicate Untagged(s: string) {
    forall i, j :: 0 <= i < j < |s| && s[i] == '<' ==> s[j] != '>'
  }

  /** After tag removal no `<` has a `>` anywhere after it. */
  lemma {:induction false} StripTagsLeavesNoTag(s: string)
    ensures Untagged(StripTags(s))
    decreases |s|
  {
    if s != [] {
      if s[0] == '<' && AfterClose(s[1..]).Some? {
        StripTagsLeavesNoTag(AfterClose(s[1..]).value);
      } else {
        var tail := StripTags(s[1..]);
        StripTagsLeavesNoTag(s[1..]);
        if s[0] == '<' {
          StripTagsChars(s[1..], '>');
        }
        var r := [s[0]] + tail;
        forall i, j | 0 <= i < j < |r| && r[i] == '<' ensures r[j] != '>' {
          assert r[j] == tail[j - 1];
          if i > 0 {
            assert r[i] == tail[i - 1];
          }
        }
      }
    }
  }

  /** Tag removal leaves text without tags unchanged. */
  lemma {:induction false} StripTagsUntagged(s: string)
    requires Untagged(s)
    ensures StripTags(s) == s
  {
    if s != [] {
      var t := s[1..];
      forall i, j | 0 <= i < j < |t| && t[i] == '<' ensures t[j] != '>' {
        assert s[i + 1] == '<';
      }
      StripTagsUntagged(t);
      if s[0] == '<' {
        forall k | 0 <= k < |t| ensures t[k] != '>' {
          assert s[k + 1] == t[k];
        }
        assert '>' !in t;
      }
    }
  }

  /** Text is its own tag-stripped form exactly when it holds no tag. */
  lemma StripTagsFixedPoint(s: string)
    ensures StripTags(s) == s <==> Untagged(s)
  {
    StripTagsLeavesNoTag(s);
    if Untagged(s) {
      StripTagsUntagged(s);
    }
  }

  /** The `continue` conditions of both loops, on a stripped line. */
  predicate Skipped(line: string, fmt: Format) {
    || line == []
    || (fmt == Vtt && (StartsWith(line, "WEBVTT") || StartsWith(line, "NOTE")))
    || Contains(line, "-->")
    || IsDigits(line)
  }

  /** What one raw line contributes: nothing, or its stripped, tag-free, non-empty text. */
  function Piece(raw: string, fmt: Format): (r: seq<string>)
    ensures r == [] || (|r| == 1 && r[0] != [])
  {
    var line := Strip(raw);
    if Skipped(line, fmt) then []
    else
      var t := StripTags(line);
      if t == [] then [] else [t]
  }

  /** The texts the loop appends to `text_lines`, in line order. */
  function Pieces(lines: seq<string>, fmt: Format): (r: seq<string>)
    ensures |r| <= |lines|
  {
    if lines == [] then []
    else Pieces(lines[..|lines| - 1], fmt) + Piece(lines[|lines| - 1], fmt)
  }

  /** `parse_vtt(content)` (format `Vtt`) or `parse_srt(content)` (format `Srt`). */
  function CaptionText(content: string, fmt: Format): (r: string)
    ensures '\n' !in r
  {
    var lines := Split(content, '\n');
    SplitPieces(content, '\n');
    PiecesChars(lines, fmt, '\n');
    JoinChars(Pieces(lines, fmt), ' ', '\n');
    Join(Pieces(lines, fmt), ' ')
  }

  /** Every piece is non-empty and free of `c`. */
  predicate FreeOf(ps: seq<string>, c: char) {
    forall k :: 0 <= k < |ps| ==> ps[k] != [] && c !in ps[k]
  }

  lemma FreeOfAppend(a: seq<string>, b: seq<string>, c: char)
    requires FreeOf(a, c) && FreeOf(b, c)
    ensures FreeOf(a + b, c)
  {
    var ab := a + b;
    forall k | 0 <= k < |ab| ensures ab[k] != [] && c !in ab[k] {
      if k < |a| {
        assert ab[k] == a[k];
      } else {
        assert ab[k] == b[k - |a|];
      }
    }
  }

  /** A character absent from every line is absent from every piece, and no piece is empty. */
  lemma {:induction false} PiecesChars(lines: seq<string>, fmt: Format, c: char)
    requires forall k :: 0 <= k < |lines| ==> c !in lines[k]
    ensures FreeOf(Pieces(lines, fmt), c)
  {
    if lines != [] {
      var n := |lines| - 1;
      PiecesChars(lines[..n], fmt, c);
      PieceChars(lines[n], fmt, c);
      FreeOfAppend(Pieces(lines[..n], fmt), Piece(lines[n], fmt), c);
    }
  }

  lemma PieceChars(raw: string, fmt: Format, c: char)
    requires c !in raw
    ensures FreeOf(Piece(raw, fmt), c)
  {
    var ps := Piece(raw, fmt);
    if ps != [] {
      var line := Strip(raw);
      StripTagsChars(line, c);
      assert ps == [StripTags(line)];
    }
  }

  /** No stripped line starts with `WEBVTT` or `NOTE`. */
  predicate NoHeaderLines(lines: seq<string>) {
    forall k :: 0 <= k < |lines| ==>
      !StartsWith(Strip(lines[k]), "WEBVTT") && !StartsWith(Strip(lines[k]), "NOTE")
  }

  lemma {:induction false} PiecesAgree(lines: seq<string>)
    requires NoHeaderLines(lines)
    ensures Pieces(lines, Srt) == Pieces(lines, Vtt)
  {
    if lines != [] {
      PiecesAgree(lines[..|lines| - 1]);
    }
  }

  /** Without header or note lines, the SubRip and WebVTT parsers agree. */
  lemma SrtAgreesWithVtt(content: string)
    requires NoHeaderLines(Split(content, '\n'))
    ensures CaptionText(content, Srt) == CaptionText(content, Vtt)
  {
    PiecesAgree(Split(content, '\n'));
  }

  /** The loop of `parse_vtt` / `parse_srt`. */
  method ParseCaptions(content: string, fmt: Format) returns (text: string)
    ensures text == CaptionText(content, fmt)
  {
    var lines := Split(content, '\n');
    var textLines := KeepLines(lines, fmt);
    text := Join(textLines, ' ');
  }

  /** One more line: its piece goes after those of the lines before it. */
  lemma PiecesStep(lines: seq<string>, i: nat, fmt: Format)
    requires i < |lines|
    ensures Pieces(lines[..i + 1], fmt) == Pieces(lines[..i], fmt) + Piece(lines[i], fmt)
  {
    assert lines[..i + 1][..i] == lines[..i];
  }

  /** The loop over the lines: the texts appended to `text_lines`. */
  method KeepLines(lines: seq<string>, fmt: Format) returns (textLines: seq<string>)
    ensures textLines == Pieces(lines, fmt)
  {
    textLines := [];
    var i := 0;
    while i < |lines|
      invariant 0 <= i <= |lines|
      invariant textLines == Pieces(lines[..i], fmt)
    {
      var piece := KeepLine(lines[i], fmt);
      PiecesStep(lines, i, fmt);
      textLines := textLines + piece;
      i := i + 1;
    }
    assert lines[..|lines|] == lines;
  }

  /** One turn of the loop: the `continue` tests, tag removal, and the final emptiness test. */
  method KeepLine(raw: string, fmt: Format) returns (piece: seq<string>)
    ensures piece == Piece(raw, fmt)
  {
    var line := Strip(raw);
    if line == [] {
      return [];
    }
    if fmt == Vtt && (StartsWith(line, "WEBVTT") || StartsWith(line, "NOTE")) {
      return [];
    }
    if Contains(line, "-->") || IsDigits(line) {
      return [];
    }
    line := StripTags(line);
    if line != [] {
      return [line];
    }
    return [];
  }

  /** The position of the last `.` in `name` (`str.rfind`). */
  function LastDot(name: string): (r: Option<nat>)
    ensures r.Some? ==> r.value < |name| && name[r.value] == '.' && '.' !in name[r.value + 1..]
    ensures r.None? <==> '.' !in name
  {
    if name == [] then None
    else if name[|name| - 1] == '.' then Some(|name| - 1)
    else
      var r := LastDot(name[..|name| - 1]);
      assert name == name[..|name| - 1] + [name[|name| - 1]];
      r
  }

  /** `Path(name).suffix`: from the last dot on, unless that dot is first or last. */
  function Suffix(name: string): (r: string)
    ensures r != [] ==> r[0] == '.' && |r| >= 2 && |r| < |name| && r == name[|name| - |r|..]
  {
    match LastDot(name)
    case Some(i) => if 0 < i < |name| - 1 then name[i..] else []
    case None => []
  }

  /** A non-empty stem followed by `.` and an extension without dots has that extension as suffix. */
  lemma SuffixOf(stem: string, ext: string)
    requires stem != [] && ext != [] && '.' !in ext
    ensures Suffix(stem + "." + ext) == "." + ext
  {
    var name := stem + "." + ext;
    assert name[..|name| - |ext|] == stem + ".";
    LastDotAfter(stem + ".", ext);
  }

  lemma {:induction false} LastDotAfter(head: string, ext: string)
    requires head != [] && head[|head| - 1] == '.' && '.' !in ext
    ensures LastDot(head + ext) == Some(|head| - 1)
    decreases |ext|
  {
    if ext != [] {
      AppendInit(head, ext);
      LastDotAfter(head, ext[..|ext| - 1]);
    } else {
      assert head + ext == head;
    }
  }

  lemma AppendInit(head: string, ext: string)
    requires ext != []
    ensures (head + ext)[..|head + ext| - 1] == head + ext[..|ext| - 1]
    ensures (head + ext)[|head + ext| - 1] == ext[|ext| - 1]
  {
  }

  /** The format a suffix selects, if any. */
  function FormatOf(name: string): (r: Option<Format>)
    ensures r == Some(Vtt) <==> Suffix(name) == ".vtt"
    ensures r == Some(Srt) <==> Suffix(name) == ".srt"
  {
    if Suffix(name) == ".vtt" then Some(Vtt)
    else if Suffix(name) == ".srt" then Some(Srt)
    else None
  }

  /**
   * `parse_subtitle_file`: `content` is `None` when the file cannot be read as
   * UTF-8 text. The text comes back only for a readable `.vtt` or `.srt` file.
   */
  function ParseSubtitleFile(name: string, content: Option<string>): (r: Option<string>)
    ensures r.Some? <==> content.Some? && FormatOf(name).Some?
    ensures r.Some? ==> r.value == CaptionText(content.value, FormatOf(name).value)
  {
    match (content, FormatOf(name))
    case (Some(c), Some(fmt)) => Some(CaptionText(c, fmt))
    case _ => None
  }

  /** The method that reads a subtitle file and hands its content to the parser its suffix names. */
  method ParseFile(name: string, content: Option<string>) returns (r: Option<string>)
    ensures r == ParseSubtitleFile(name, content)
  {
    if content.None? {
      return None;
    }
    var suffix := Suffix(name);
    if suffix == ".vtt" {
      var text := ParseCaptions(content.value, Vtt);
      return Some(text);
    } else if suffix == ".srt" {
      var text := ParseCaptions(content.value, Srt);
      return Some(text);
    }
    return None;
  }

  /** A line without `-` has no `-->` in it. */
  lemma NoArrow(line: string)
    requires '-' !in line
    ensures !Contains(line, "-->")
  {
    forall i | 0 <= i <= |line| - 3 ensures !OccursAt(line, "-->", i) {
      assert line[i..i + 3][0] == line[i];
    }
  }

  /** The piece of a single line that is kept: its tag-free text. */
  lemma KeptLine(line: string, fmt: Format)
    requires line != [] && !IsSpace(line[0]) && !IsSpace(line[|line| - 1])
    requires !IsDigit(line[0]) && line[0] != 'W' && line[0] != 'N' && '-' !in line
    requires StripTags(line) != []
    ensures Piece(line, fmt) == [StripTags(line)]
  {
    StripStripped(line);
    NoArrow(line);
    NoHeader(line);
    assert !Skipped(line, fmt);
  }

  lemma NoHeader(line: string)
    requires line != [] && line[0] != 'W' && line[0] != 'N'
    ensures !StartsWith(line, "WEBVTT") && !StartsWith(line, "NOTE")
  {
    if |line| >= 6 { assert line[..6][0] == line[0]; }
    if |line| >= 4 { assert line[..4][0] == line[0]; }
  }

  /** The text of content made of one line. */
  lemma OneLine(line: string, fmt: Format)
    requires '\n' !in line
    ensures CaptionText(line, fmt) == Join(Piece(line, fmt), ' ')
  {
    SplitNoSep(line, '\n');
    PiecesOne(line, fmt);
  }

  /** Text without `<` passes through tag removal unchanged, whatever follows it. */
  lemma {:induction false} StripTagsPlain(x: string, s: string)
    requires '<' !in x
    ensures StripTags(x + s) == x + StripTags(s)
  {
    if x == [] {
      assert x + s == s;
    } else {
      assert x + s == [x[0]] + (x[1..] + s);
      StripTagsCons(x[0], x[1..] + s);
      StripTagsPlain(x[1..], s);
      assert [x[0]] + (x[1..] + StripTags(s)) == x + StripTags(s);
    }
  }

  lemma StripTagsCons(c: char, s: string)
    requires c != '<'
    ensures StripTags([c] + s) == [c] + StripTags(s)
  {
    assert ([c] + s)[1..] == s;
  }

  /** A tag `<inside>` is deleted, together with its brackets. */
  lemma StripTagsTag(inside: string, s: string)
    requires '>' !in inside
    ensures StripTags("<" + inside + ">" + s) == StripTags(s)
  {
    var w := "<" + inside + ">" + s;
    assert w[1..] == inside + ">" + s;
    AfterCloseOf(inside, s);
  }

  /** A line holding `-->` contributes nothing. */
  lemma ArrowLine(line: string, fmt: Format)
    requires Contains(Strip(line), "-->")
    ensures Piece(line, fmt) == []
  {
  }

  /** Content of two lines contributes the pieces of both, in order. */
  lemma TwoLines(first: string, second: string, fmt: Format)
    requires '\n' !in first && '\n' !in second
    ensures Pieces(Split(first + "\n" + second, '\n'), fmt) == Piece(first, fmt) + Piece(second, fmt)
  {
    assert Split(first + "\n" + second, '\n') == [first, second] by {
      SplitAppend(first, second, '\n');
      SplitNoSep(second, '\n');
      assert [first] + [second] == [first, second];
    }
    PiecesPair(first, second, fmt);
  }

  lemma PiecesPair(first: string, second: string, fmt: Format)
    ensures Pieces([first, second], fmt) == Piece(first, fmt) + Piece(second, fmt)
  {
    var pair := [first, second];
    PiecesOne(first, fmt);
    PiecesStep(pair, 1, fmt);
    PairPrefixes(first, second);
  }

  lemma PairPrefixes(first: string, second: string)
    ensures [first, second][..2] == [first, second]
    ensures [first, second][..1] == [first]
  {
  }

  /** A single line contributes its own piece. */
  lemma PiecesOne(line: string, fmt: Format)
    ensures Pieces([line], fmt) == Piece(line, fmt)
  {
    PiecesStep([line], 0, fmt);
    assert [line][..1] == [line];
  }

  /** The pieces of a cue timing line followed by one cue line. */
  lemma TimedCuePieces(timing: string, cue: string, fmt: Format)
    requires '\n' !in timing && '\n' !in cue
    requires Contains(Strip(timing), "-->")
    requires !Skipped(Strip(cue), fmt) && StripTags(Strip(cue)) != []
    ensures Pieces(Split(timing + "\n" + cue, '\n'), fmt) == [StripTags(Strip(cue))]
  {
    ArrowLine(timing, fmt);
    TwoLines(timing, cue, fmt);
    assert [] + [StripTags(Strip(cue))] == [StripTags(Strip(cue))];
  }

  /**
   * A cue timing line followed by one cue line gives the cue's text without
   * its tags, as in `00:00:01 --> 00:00:02` then `Hello <b>world</b>`.
   */
  lemma TimedCue(timing: string, cue: string, fmt: Format)
    requires '\n' !in timing && '\n' !in cue
    requires Contains(Strip(timing), "-->")
    requires !Skipped(Strip(cue), fmt) && StripTags(Strip(cue)) != []
    ensures CaptionText(timing + "\n" + cue, fmt) == StripTags(Strip(cue))
  {
    TimedCuePieces(timing, cue, fmt);
  }

  /** A leading sequence-number line, as in SubRip blocks, does not change the text. */
  lemma NumberLineDropped(number: string, rest: string, fmt: Format)
    requires IsDigits(Strip(number)) && '\n' !in number
    ensures CaptionText(number + "\n" + rest, fmt) == CaptionText(rest, fmt)
  {
    SplitAppend(number, rest, '\n');
    NumberPiecesDropped(number, Split(rest, '\n'), fmt);
  }

  lemma {:induction false} NumberPiecesDropped(number: string, lines: seq<string>, fmt: Format)
    requires IsDigits(Strip(number))
    ensures Pieces([number] + lines, fmt) == Pieces(lines, fmt)
  {
    NumberPiece(number, fmt);
    EmptyFirstPiece(number, lines, fmt);
  }

  lemma NumberPiece(number: string, fmt: Format)
    requires IsDigits(Strip(number))
    ensures Piece(number, fmt) == []
  {
  }

  /** A first line that contributes nothing leaves the pieces of the rest unchanged. */
  lemma {:induction false} EmptyFirstPiece(first: string, lines: seq<string>, fmt: Format)
    requires Piece(first, fmt) == []
    ensures Pieces([first] + lines, fmt) == Pieces(lines, fmt)
    decreases |lines|
  {
    if lines == [] {
      assert [first] + lines == [first];
      PiecesStep([first], 0, fmt);
    } else {
      EmptyFirstPiece(first, lines[..|lines| - 1], fmt);
      ConsInit(first, lines);
    }
  }

  lemma ConsInit(x: string, xs: seq<string>)
    requires xs != []
    ensures ([x] + xs)[..|xs|] == [x] + xs[..|xs| - 1]
    ensures ([x] + xs)[|xs|] == xs[|xs| - 1]
  {
  }

  /** A line of ASCII digits, or an empty one, contributes nothing. */
  lemma NumberDropped(digits: string, fmt: Format)
    requires forall k :: 0 <= k < |digits| ==> '0' <= digits[k] <= '9'
    ensures CaptionText(digits, fmt) == ""
  {
    assert '\n' !in digits;
    OneLine(digits, fmt);
    DigitsPiece(digits, fmt);
  }

  lemma DigitsPiece(digits: string, fmt: Format)
    requires forall k :: 0 <= k < |digits| ==> '0' <= digits[k] <= '9'
    ensures Piece(digits, fmt) == []
  {
    StripStripped(digits);
    if digits != [] {
      assert forall k :: 0 <= k < |digits| ==> IsDigit(digits[k]);
      assert IsDigits(digits);
    }
  }

  /** A number wrapped in a tag, such as `<b>12</b>`, comes out as the bare number. */
  lemma TaggedNumberKept(open: string, digits: string, close: string)
    requires '>' !in open && '>' !in close && '-' !in open && '-' !in close && '\n' !in open && '\n' !in close
    requires forall k :: 0 <= k < |digits| ==> '0' <= digits[k] <= '9'
    ensures CaptionText("<" + open + ">" + digits + "<" + close + ">", Vtt) == digits
  {
    var line := "<" + open + ">" + (digits + ("<" + close + ">"));
    assert "<" + open + ">" + digits + "<" + close + ">" == line;
    assert '\n' !in digits;
    assert '\n' !in line;
    TaggedNumberPiece(open, digits, close);
    OneLine(line, Vtt);
  }

  lemma TaggedNumberPiece(open: string, digits: string, close: string)
    requires '>' !in open && '>' !in close && '-' !in open && '-' !in close
    requires forall k :: 0 <= k < |digits| ==> '0' <= digits[k] <= '9'
    ensures var line := "<" + open + ">" + (digits + ("<" + close + ">"));
      Piece(line, Vtt) == if digits == [] then [] else [digits]
  {
    var line := "<" + open + ">" + (digits + ("<" + close + ">"));
    assert '-' !in digits;
    TaggedNumberTags(open, digits, close);
    assert line[0] == '<' && line[|line| - 1] == '>';
    assert '-' !in line;
    if digits != [] {
      KeptLine(line, Vtt);
    } else {
      StripStripped(line);
    }
  }


  lemma TaggedNumberTags(open: string, digits: string, close: string)
    requires '>' !in open && '>' !in close
    requires forall k :: 0 <= k < |digits| ==> '0' <= digits[k] <= '9'
    ensures StripTags("<" + open + ">" + (digits + ("<" + close + ">"))) == digits
  {
    var closing := "<" + close + ">";
    assert '<' !in digits;
    StripTagsTag(open, digits + closing);
    StripTagsPlain(digits, closing);
    StripTagsTag(close, []);
    assert closing + [] == closing;
  }

  /**
   * Parsing is not idempotent: the digit test runs before tag removal, so a
   * tagged number such as `<b>12</b>` yields `12`, which a second pass drops as
   * a sequence number.
   */
  lemma TaggedNumberNotIdempotent(open: string, digits: string, close: string)
    requires '>' !in open && '>' !in close && '-' !in open && '-' !in close && '\n' !in open && '\n' !in close
    requires forall k :: 0 <= k < |digits| ==> '0' <= digits[k] <= '9'
    requires digits != []
    ensures var once := CaptionText("<" + open + ">" + digits + "<" + close + ">", Vtt);
      once != "" && CaptionText(once, Vtt) == ""
  {
    TaggedNumberKept(open, digits, close);
    NumberDropped(digits, Vtt);
  }

  /** Tag removal on text with one tagged word keeps the plain text around it. */
  lemma TaggedText(before: string, open: string, inner: string, close: string)
    requires '<' !in before && '<' !in inner && '>' !in open && '>' !in close
    ensures StripTags(before + ("<" + open + ">" + (inner + ("<" + close + ">")))) == before + inner
  {
    var closing := "<" + close + ">";
    StripTagsTag(close, []);
    assert closing + [] == closing;
    StripTagsPlain(inner, closing);
    StripTagsTag(open, inner + closing);
    StripTagsPlain(before, "<" + open + ">" + (inner + closing));
  }

  /** The cue of the WebVTT example loses its bold tags. */
  lemma HelloWorldTags()
    ensures StripTags("Hello <b>world</b>") == "Hello world"
  {
    TaggedText("Hello ", "b", "world", "/b");
    assert "Hello " + ("<" + "b" + ">" + ("world" + ("<" + "/b" + ">"))) == "Hello <b>world</b>";
    assert "Hello " + "world" == "Hello world";
  }

  /** The concrete case: `<b>12</b>` parses to `12`, and `12` parses to nothing. */
  lemma ParseNotIdempotent()
    ensures CaptionText("<b>12</b>", Vtt) == "12"
    ensures CaptionText("12", Vtt) == ""
  {
    TaggedNumberKept("b", "12", "/b");
    assert "<" + "b" + ">" + "12" + "<" + "/b" + ">" == "<b>12</b>";
    NumberDropped("12", Vtt);
  }
}
