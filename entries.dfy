/**
 * `process_transcript_data`: the list of caption entries returned by the
 * transcript API becomes one line of text. Both downloaders define it the same
 * way, so it is modelled once.
 */
module Entries {
  import opened Text

  /**
   * One element of the list the API returns: a dictionary with a `text` key,
   * or anything else (not a dictionary, or a dictionary without `text`).
   */
  datatype Entry = Cue(text: string) | Other

  /** The two substitutions applied to a stripped, non-blank caption. */
  function Collapse(s: string): string {
    ReplaceRuns(ReplaceRuns(s, IsLineBreakOrTab, ' '), IsSpace, ' ')
  }

  /** The text an entry adds to the output: nothing, or one cleaned piece. */
  function EntryPieces(e: Entry): (r: seq<string>)
    ensures |r| <= 1
  {
    match e
    case Other => []
    case Cue(t) =>
      var s := Strip(t);
      if s == [] then [] else [Collapse(s)]
  }

  /** The pieces of all entries, in the order of the entries. */
  function Pieces(es: seq<Entry>): seq<string>
    decreases |es|
  {
    if es == [] then [] else Pieces(es[..|es| - 1]) + EntryPieces(es[|es| - 1])
  }

  /** What `process_transcript_data` returns for a list of entries. */
  function TranscriptText(es: seq<Entry>): (r: string)
    ensures Tidy(r)
  {
    if es == [] then ""
    else
      PiecesTidy(es);
      JoinTidy(Pieces(es));
      StripStripped(Join(Pieces(es), ' '));
      Strip(Join(Pieces(es), ' '))
  }

  /** The loop of `process_transcript_data`, computing the text of the entries. */
  method ProcessTranscriptData(es: seq<Entry>) returns (r: string)
    ensures r == TranscriptText(es)
  {
    if |es| == 0 {
      return "";
    }
    var pieces: seq<string> := [];
    var i := 0;
    while i < |es|
      invariant 0 <= i <= |es|
      invariant pieces == Pieces(es[..i])
    {
      PiecesStep(es, i);
      var piece := CleanEntry(es[i]);
      pieces := pieces + piece;
      i := i + 1;
    }
    assert es[..i] == es;
    r := Strip(Join(pieces, ' '));
  }

  /** One turn of the loop: an entry with a `text` key that is not blank gives one cleaned piece. */
  method CleanEntry(e: Entry) returns (piece: seq<string>)
    ensures piece == EntryPieces(e)
  {
    if e.Cue? {
      var text := Strip(e.text);
      if text != [] {
        text := ReplaceRuns(text, IsLineBreakOrTab, ' ');
        text := ReplaceRuns(text, IsSpace, ' ');
        return [text];
      }
    }
    return [];
  }

  lemma PiecesStep(es: seq<Entry>, i: nat)
    requires i < |es|
    ensures Pieces(es[..i + 1]) == Pieces(es[..i]) + EntryPieces(es[i])
  {
    assert es[..i + 1][..i] == es[..i];
  }

  // ----- The output is tidy -----

  /**
   * The only whitespace is the plain space, never two in a row and never at
   * either end.
   */
  predicate Tidy(s: string) {
    && (forall i :: 0 <= i < |s| && IsSpace(s[i]) ==> s[i] == ' ')
    && Separated(s, IsSpace)
    && Stripped(s)
  }

  /** Every piece is tidy and not empty. */
  predicate AllTidy(parts: seq<string>) {
    forall i :: 0 <= i < |parts| ==> parts[i] != [] && Tidy(parts[i])
  }

  lemma AllTidyAppend(a: seq<string>, b: seq<string>)
    requires AllTidy(a) && AllTidy(b)
    ensures AllTidy(a + b)
  {
    var ab := a + b;
    forall i | 0 <= i < |ab| ensures ab[i] != [] && Tidy(ab[i]) {
      if i < |a| {
        assert ab[i] == a[i];
      } else {
        assert ab[i] == b[i - |a|];
      }
    }
  }

  /** Each cleaned caption is tidy and not empty. */
  lemma CollapseTidy(s: string)
    requires s != [] && Stripped(s)
    ensures Collapse(s) != [] && Tidy(Collapse(s))
  {
    var t := ReplaceRuns(s, IsLineBreakOrTab, ' ');
    WordCharsAreNotSpaces(s[0]);
    WordCharsAreNotSpaces(s[|s| - 1]);
    ReplaceRunsLast(s, IsLineBreakOrTab, ' ');
    var u := ReplaceRuns(t, IsSpace, ' ');
    ReplaceRunsLast(t, IsSpace, ' ');
    ReplaceRunsSeparated(t, IsSpace, ' ');
    assert u == Collapse(s);
  }

  /** Every piece is tidy and not empty. */
  lemma {:induction false} PiecesTidy(es: seq<Entry>)
    ensures AllTidy(Pieces(es))
    decreases |es|
  {
    if es != [] {
      PiecesTidy(es[..|es| - 1]);
      EntryPiecesTidy(es[|es| - 1]);
      AllTidyAppend(Pieces(es[..|es| - 1]), EntryPieces(es[|es| - 1]));
    }
  }

  lemma EntryPiecesTidy(e: Entry)
    ensures AllTidy(EntryPieces(e))
  {
    if e.Cue? && Strip(e.text) != [] {
      CollapseTidy(Strip(e.text));
    }
  }

  /** Two tidy, non-empty strings joined by one space give a tidy string. */
  lemma TidyJoin2(a: string, b: string)
    requires a != [] && Tidy(a) && b != [] && Tidy(b)
    ensures Tidy(a + [' '] + b)
  {
    var s := a + [' '] + b;
    forall i | 0 <= i < |s| - 1 ensures !(IsSpace(s[i]) && IsSpace(s[i + 1])) {
      if i < |a| - 1 {
        assert s[i] == a[i] && s[i + 1] == a[i + 1];
      } else if i == |a| - 1 {
        assert s[i] == a[|a| - 1];
      } else if i == |a| {
        assert s[i + 1] == b[0];
      } else {
        assert s[i] == b[i - |a| - 1] && s[i + 1] == b[i - |a|];
      }
    }
    forall i | 0 <= i < |s| && IsSpace(s[i]) ensures s[i] == ' ' {
      if i < |a| {
        assert s[i] == a[i];
      } else if i > |a| {
        assert s[i] == b[i - |a| - 1];
      }
    }
  }

  /** Joining tidy, non-empty pieces with spaces gives a tidy string. */
  lemma {:induction false} JoinTidy(parts: seq<string>)
    requires AllTidy(parts)
    ensures Tidy(Join(parts, ' '))
    ensures parts != [] ==> Join(parts, ' ') != []
  {
    if |parts| > 1 {
      assert Join(parts, ' ') == parts[0] + [' '] + Join(parts[1..], ' ');
      JoinTidy(parts[1..]);
      TidyJoin2(parts[0], Join(parts[1..], ' '));
    }
  }

  /** The final `strip()` of `process_transcript_data` never removes anything. */
  lemma TranscriptTextTidy(es: seq<Entry>)
    ensures es != [] ==> TranscriptText(es) == Join(Pieces(es), ' ')
  {
    PiecesTidy(es);
    JoinTidy(Pieces(es));
    StripStripped(Join(Pieces(es), ' '));
  }

  // ----- The output keeps every visible character, in order -----

  /** The characters of `s` that are not whitespace, in order. */
  function NonSpace(s: string): string {
    if s == [] then [] else (if IsSpace(s[0]) then [] else [s[0]]) + NonSpace(s[1..])
  }

  /** The texts of all entries that have one, one after the other. */
  function AllText(es: seq<Entry>): string
    decreases |es|
  {
    if es == [] then []
    else
      AllText(es[..|es| - 1]) + TextOf(es[|es| - 1])
  }

  function Concat(parts: seq<string>): string {
    if parts == [] then [] else parts[0] + Concat(parts[1..])
  }

  lemma {:induction false} NonSpaceAppend(a: string, b: string)
    ensures NonSpace(a + b) == NonSpace(a) + NonSpace(b)
  {
    if a == [] {
      assert a + b == b;
    } else {
      var head := if IsSpace(a[0]) then [] else [a[0]];
      assert (a + b)[0] == a[0];
      assert (a + b)[1..] == a[1..] + b;
      NonSpaceAppend(a[1..], b);
      calc {
        NonSpace(a + b);
        head + NonSpace(a[1..] + b);
        head + (NonSpace(a[1..]) + NonSpace(b));
        (head + NonSpace(a[1..])) + NonSpace(b);
        NonSpace(a) + NonSpace(b);
      }
    }
  }

  lemma {:induction false} NonSpaceBlank(s: string)
    requires forall i :: 0 <= i < |s| ==> IsSpace(s[i])
    ensures NonSpace(s) == []
  {
    if s != [] {
      NonSpaceBlank(s[1..]);
    }
  }

  /** Trimming whitespace from the left keeps the visible characters. */
  lemma NonSpaceTrimLeft(s: string, p: char -> bool)
    requires forall c :: p(c) ==> IsSpace(c)
    ensures NonSpace(TrimLeft(s, p)) == NonSpace(s)
  {
    var l := TrimLeft(s, p);
    var pre := s[..|s| - |l|];
    assert s == pre + l;
    forall i | 0 <= i < |pre| ensures IsSpace(pre[i]) {
      assert p(s[i]);
    }
    NonSpaceAppend(pre, l);
    NonSpaceBlank(pre);
  }

  /** Trimming whitespace from the right keeps the visible characters. */
  lemma NonSpaceTrimRight(s: string, p: char -> bool)
    requires forall c :: p(c) ==> IsSpace(c)
    ensures NonSpace(TrimRight(s, p)) == NonSpace(s)
  {
    var r := TrimRight(s, p);
    var post := s[|r|..];
    assert s == r + post;
    forall i | 0 <= i < |post| ensures IsSpace(post[i]) {
      assert p(s[|r| + i]);
    }
    NonSpaceAppend(r, post);
    NonSpaceBlank(post);
  }

  lemma NonSpaceStrip(s: string)
    ensures NonSpace(Strip(s)) == NonSpace(s)
  {
    NonSpaceTrimLeft(s, IsSpace);
    NonSpaceTrimRight(TrimLeft(s, IsSpace), IsSpace);
  }

  /** Replacing runs of whitespace by a space keeps the visible characters. */
  lemma {:induction false} NonSpaceReplaceRuns(s: string, p: char -> bool, rep: char)
    requires IsSpace(rep)
    requires forall c :: p(c) ==> IsSpace(c)
    ensures NonSpace(ReplaceRuns(s, p, rep)) == NonSpace(s)
    decreases |s|
  {
    if s != [] {
      var r := ReplaceRuns(s, p, rep);
      if p(s[0]) {
        var t := TrimLeft(s, p);
        NonSpaceReplaceRuns(t, p, rep);
        NonSpaceTrimLeft(s, p);
        assert r == [rep] + ReplaceRuns(t, p, rep);
        assert r[1..] == ReplaceRuns(t, p, rep);
      } else {
        NonSpaceReplaceRuns(s[1..], p, rep);
        assert r == [s[0]] + ReplaceRuns(s[1..], p, rep);
        assert r[1..] == ReplaceRuns(s[1..], p, rep);
      }
    }
  }

  lemma {:induction false} NonSpaceJoin(parts: seq<string>)
    ensures NonSpace(Join(parts, ' ')) == NonSpace(Concat(parts))
  {
    if |parts| == 1 {
      assert parts[1..] == [];
      assert Concat(parts) == parts[0] + Concat(parts[1..]) == parts[0] + [];
      assert parts[0] + [] == parts[0];
    } else if |parts| > 1 {
      var head, rest := parts[0], parts[1..];
      assert NonSpace([' ']) == [];
      calc {
        NonSpace(Join(parts, ' '));
        NonSpace(head + [' '] + Join(rest, ' '));
        { NonSpaceAppend(head + [' '], Join(rest, ' ')); }
        NonSpace(head + [' ']) + NonSpace(Join(rest, ' '));
        { NonSpaceAppend(head, [' ']); }
        NonSpace(head) + NonSpace(Join(rest, ' '));
        { NonSpaceJoin(rest); }
        NonSpace(head) + NonSpace(Concat(rest));
        { NonSpaceAppend(head, Concat(rest)); }
        NonSpace(Concat(parts));
      }
    }
  }

  lemma {:induction false} ConcatAppend(a: seq<string>, b: seq<string>)
    ensures Concat(a + b) == Concat(a) + Concat(b)
  {
    if a == [] {
      assert a + b == b;
    } else {
      assert (a + b)[0] == a[0];
      assert (a + b)[1..] == a[1..] + b;
      ConcatAppend(a[1..], b);
      calc {
        Concat(a + b);
        a[0] + Concat(a[1..] + b);
        a[0] + (Concat(a[1..]) + Concat(b));
        (a[0] + Concat(a[1..])) + Concat(b);
      }
    }
  }

  /** The text an entry carries, if any. */
  function TextOf(e: Entry): string {
    if e.Cue? then e.text else []
  }

  /** An entry's piece keeps the visible characters of its text. */
  lemma EntryContent(e: Entry)
    ensures NonSpace(Concat(EntryPieces(e))) == NonSpace(TextOf(e))
  {
    if e.Cue? {
      var s := Strip(e.text);
      NonSpaceStrip(e.text);
      if s != [] {
        CollapseContent(s);
        ConcatOne(Collapse(s));
      }
    }
  }

  /** The two substitutions keep the visible characters. */
  lemma CollapseContent(s: string)
    ensures NonSpace(Collapse(s)) == NonSpace(s)
  {
    var t := ReplaceRuns(s, IsLineBreakOrTab, ' ');
    assert forall c :: IsLineBreakOrTab(c) ==> IsSpace(c);
    NonSpaceReplaceRuns(s, IsLineBreakOrTab, ' ');
    NonSpaceReplaceRuns(t, IsSpace, ' ');
  }

  lemma ConcatOne(piece: string)
    ensures Concat([piece]) == piece
  {
    assert [piece][1..] == [];
    assert piece + [] == piece;
  }

  lemma {:induction false} PiecesContent(es: seq<Entry>)
    ensures NonSpace(Concat(Pieces(es))) == NonSpace(AllText(es))
    decreases |es|
  {
    if es != [] {
      var init := es[..|es| - 1];
      var e := es[|es| - 1];
      PiecesContent(init);
      EntryContent(e);
      ConcatAppend(Pieces(init), EntryPieces(e));
      NonSpaceAppend(Concat(Pieces(init)), Concat(EntryPieces(e)));
      NonSpaceAppend(AllText(init), TextOf(e));
    }
  }

  /**
   * The visible characters of the output are exactly those of the entries'
   * texts, in the order of the entries: nothing is lost, added or reordered;
   * only whitespace changes.
   */
  lemma TranscriptTextContent(es: seq<Entry>)
    ensures NonSpace(TranscriptText(es)) == NonSpace(AllText(es))
  {
    if es != [] {
      NonSpaceStrip(Join(Pieces(es), ' '));
      NonSpaceJoin(Pieces(es));
      PiecesContent(es);
    }
  }

  // ----- Entries that add nothing -----

  lemma PiecesSnoc(es: seq<Entry>, e: Entry)
    ensures Pieces(es + [e]) == Pieces(es) + EntryPieces(e)
  {
    assert (es + [e])[..|es|] == es;
  }

  /** The entries of two lists contribute one after the other. */
  lemma {:induction false} PiecesAppend(a: seq<Entry>, b: seq<Entry>)
    ensures Pieces(a + b) == Pieces(a) + Pieces(b)
    decreases |b|
  {
    if b == [] {
      assert a + b == a;
    } else {
      var front, last := b[..|b| - 1], b[|b| - 1];
      assert b == front + [last];
      assert a + b == (a + front) + [last];
      var pa, pf, pl := Pieces(a), Pieces(front), EntryPieces(last);
      calc {
        Pieces(a + b);
        Pieces((a + front) + [last]);
        { PiecesSnoc(a + front, last); }
        Pieces(a + front) + pl;
        { PiecesAppend(a, front); }
        (pa + pf) + pl;
        pa + (pf + pl);
        { PiecesSnoc(front, last); }
        pa + Pieces(b);
      }
    }
  }

  /** An entry whose piece list is empty can be dropped from the list of pieces. */
  lemma PiecesSkip(before: seq<Entry>, e: Entry, after: seq<Entry>)
    requires EntryPieces(e) == []
    ensures Pieces(before + [e] + after) == Pieces(before + after)
  {
    PiecesAppend(before + [e], after);
    PiecesSnoc(before, e);
    PiecesAppend(before, after);
  }

  /**
   * An entry without text, or whose text is all whitespace, can be removed
   * from the list without changing the output.
   */
  lemma SkippedEntry(before: seq<Entry>, e: Entry, after: seq<Entry>)
    requires e.Other? || forall i :: 0 <= i < |e.text| ==> IsSpace(e.text[i])
    ensures TranscriptText(before + [e] + after) == TranscriptText(before + after)
  {
    assert EntryPieces(e) == [] by {
      if e.Cue? {
        assert Strip(e.text) == [];
      }
    }
    PiecesSkip(before, e, after);
    if before + after == [] {
      assert before + [e] + after == [e];
      PiecesSnoc([], e);
      assert Pieces([e]) == [];
    }
  }
}
