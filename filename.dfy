/** `clean_filename`: turns a video title into a safe file-name stem. */
module Filename {
  import opened Text

  /** One of the characters `<>:"/\|?*` that the first substitution replaces. */
  predicate IsReserved(c: char) {
    c == '<' || c == '>' || c == ':' || c == '"' || c == '/' || c == '\\' || c == '|' || c == '?' || c == '*'
  }

  /** One character of the class `[-\s]`. */
  predicate IsDashOrSpace(c: char) {
    c == '-' || IsSpace(c)
  }

  /** One character `re.sub(r'[^\w\s-]', '_', s)` keeps. */
  predicate IsWordOrDashOrSpace(c: char) {
    IsWordChar(c) || IsDashOrSpace(c)
  }

  predicate IsUnderscore(c: char) {
    c == '_'
  }

  /** `re.sub(r'[<>:"/\\|?*]', '_', s)`. */
  function ReplaceReserved(c: char): char {
    if IsReserved(c) then '_' else c
  }

  /** `re.sub(r'[^\w\s-]', '_', s)`. */
  function ReplaceOthers(c: char): char {
    if IsWordChar(c) || IsSpace(c) || c == '-' then c else '_'
  }

  /** A stem `clean_filename` can produce: word characters only, no `_` at either end. */
  predicate IsCleanName(s: string) {
    && AllChars(s, IsWordChar)
    && (s != [] ==> s[0] != '_' && s[|s| - 1] != '_')
  }

  /** The three substitutions: every run of `-` and whitespace ends up as a single `_`. */
  function Substituted(title: string): (s: string)
    ensures |s| <= |title|
    ensures AllChars(s, IsWordChar)
  {
    var s2 := MapChars(MapChars(title, ReplaceReserved), ReplaceOthers);
    var s3 := ReplaceRuns(s2, IsDashOrSpace, '_');
    ReplaceRunsKeeps(s2, IsDashOrSpace, '_', IsWordOrDashOrSpace);
    s3
  }

  /**
   * The three substitutions followed by `strip('_')`. The result is made of word
   * characters only (so it holds none of `<>:"/\|?*`, no whitespace and no `-`),
   * does not start or end with `_`, and is no longer than the title.
   */
  function CleanFilename(title: string): (r: string)
    ensures |r| <= |title|
    ensures IsCleanName(r)
  {
    var s := Substituted(title);
    var left := TrimLeft(s, IsUnderscore);
    var r := TrimRight(left, IsUnderscore);
    AllCharsSuffix(s, |s| - |left|, IsWordChar);
    AllCharsPrefix(left, |r|, IsWordChar);
    r
  }

  /** A replacement that changes no character leaves the string as it is. */
  lemma MapCharsUnchanged(s: string, f: char -> char)
    requires forall i :: 0 <= i < |s| ==> f(s[i]) == s[i]
    ensures MapChars(s, f) == s
  {
  }

  /** Trimming `_` from a string that neither starts nor ends with one changes nothing. */
  lemma TrimUnderscoresUnchanged(s: string)
    requires s != [] ==> s[0] != '_' && s[|s| - 1] != '_'
    ensures TrimRight(TrimLeft(s, IsUnderscore), IsUnderscore) == s
  {
  }

  /** A clean stem is left exactly as it is. */
  lemma {:induction false} CleanNameUnchanged(s: string)
    requires IsCleanName(s)
    ensures CleanFilename(s) == s
  {
    forall i | 0 <= i < |s| ensures !IsReserved(s[i]) && !IsDashOrSpace(s[i]) {
      WordCharsAreNotSpaces(s[i]);
    }
    MapCharsUnchanged(s, ReplaceReserved);
    MapCharsUnchanged(s, ReplaceOthers);
    ReplaceRunsNone(s, IsDashOrSpace, '_');
    TrimUnderscoresUnchanged(s);
  }

  /** A title is its own cleaned stem exactly when it is already a clean stem. */
  lemma CleanFixedPoint(s: string)
    ensures CleanFilename(s) == s <==> IsCleanName(s)
  {
    if IsCleanName(s) {
      CleanNameUnchanged(s);
    }
  }

  /** Cleaning twice gives the same stem as cleaning once. */
  lemma CleanIdempotent(title: string)
    ensures CleanFilename(CleanFilename(title)) == CleanFilename(title)
  {
    CleanNameUnchanged(CleanFilename(title));
  }
}
