/**
 * Strings as Python sees them: the character classes behind `str.isspace()`,
 * `str.isdigit()`, the regular-expression classes `\s` and `\w`, and the
 * builtins `strip`, `startswith`, `in`, `split` and `join`.
 *
 * The character classes are exact for code points up to U+00FF. Above that,
 * `IsSpace` lists every whitespace code point Python knows, while `IsDigit` and
 * `IsWordChar` answer false (Python's full Unicode tables are not modelled).
 */
module Text {

  /** `c.isspace()`, which is also what `\s` matches in a `str` pattern. */
  predicate IsSpace(c: char) {
    || ('\t' <= c <= '\r')
    || ('\U{1c}' <= c <= ' ')
    || c == '\U{85}' || c == '\U{a0}' || c == '\U{1680}'
    || ('\U{2000}' <= c <= '\U{200a}')
    || c == '\U{2028}' || c == '\U{2029}' || c == '\U{202f}' || c == '\U{205f}' || c == '\U{3000}'
  }

  /** One character of the class `[\n\r\t]`. */
  predicate IsLineBreakOrTab(c: char) {
    c == '\n' || c == '\r' || c == '\t'
  }

  /** `c.isdigit()`: the ASCII digits and the superscripts one, two and three. */
  predicate IsDigit(c: char) {
    ('0' <= c <= '9') || c == '\U{b2}' || c == '\U{b3}' || c == '\U{b9}'
  }

  /** `\w` in a `str` pattern: `c.isalnum()` or the underscore. */
  predicate IsWordChar(c: char) {
    || ('a' <= c <= 'z') || ('A' <= c <= 'Z') || ('0' <= c <= '9') || c == '_'
    || c == '\U{aa}' || c == '\U{b2}' || c == '\U{b3}' || c == '\U{b5}' || c == '\U{b9}' || c == '\U{ba}'
    || ('\U{bc}' <= c <= '\U{be}')
    || ('\U{c0}' <= c <= '\U{d6}') || ('\U{d8}' <= c <= '\U{f6}') || ('\U{f8}' <= c <= '\U{ff}')
  }

  lemma WordCharsAreNotSpaces(c: char)
    ensures IsWordChar(c) ==> !IsSpace(c) && c != '-'
    ensures IsLineBreakOrTab(c) ==> IsSpace(c)
  {
  }

  /** `s.isdigit()`: non-empty and made of digits only. */
  predicate IsDigits(s: string) {
    |s| > 0 && forall i :: 0 <= i < |s| ==> IsDigit(s[i])
  }

  /** `s.startswith(prefix)`. */
  predicate StartsWith(s: string, prefix: string) {
    |prefix| <= |s| && s[..|prefix|] == prefix
  }

  /** `sub` occurs in `s` starting at position `i`. */
  predicate OccursAt(s: string, sub: string, i: nat) {
    i + |sub| <= |s| && s[i..i + |sub|] == sub
  }

  /** `sub in s`: `sub` occurs in `s` at some position. */
  predicate Contains(s: string, sub: string) {
    exists i :: 0 <= i <= |s| - |sub| && OccursAt(s, sub, i)
  }

  /** Removes the characters satisfying `p` from the front of `s` (`lstrip`). */
  function TrimLeft(s: string, p: char -> bool): (r: string)
    ensures |r| <= |s| && r == s[|s| - |r|..]
    ensures s != [] && p(s[0]) ==> |r| < |s|
    ensures r != [] ==> !p(r[0])
    ensures forall i {:trigger p(s[i])} :: 0 <= i < |s| - |r| ==> p(s[i])
  {
    if s != [] && p(s[0]) then TrimLeft(s[1..], p) else s
  }

  /** Removes the characters satisfying `p` from the back of `s` (`rstrip`). */
  function TrimRight(s: string, p: char -> bool): (r: string)
    ensures |r| <= |s| && r == s[..|r|]
    ensures r != [] ==> !p(r[|r| - 1])
    ensures forall i {:trigger p(s[i])} :: |r| <= i < |s| ==> p(s[i])
  {
    if s != [] && p(s[|s| - 1]) then TrimRight(s[..|s| - 1], p) else s
  }

  /** `s.strip()`: `s` without its leading and trailing whitespace. */
  function Strip(s: string): (r: string)
    ensures |r| <= |s|
    ensures Stripped(r)
    ensures r == [] <==> forall i :: 0 <= i < |s| ==> IsSpace(s[i])
  {
    var left := TrimLeft(s, IsSpace);
    var r := TrimRight(left, IsSpace);
    assert r != [] ==> r[0] == left[0];
    assert r == [] ==> left == [];
    r
  }

  /** Neither end of `s` is whitespace. */
  predicate Stripped(s: string) {
    s != [] ==> !IsSpace(s[0]) && !IsSpace(s[|s| - 1])
  }

  /** A string whose ends are not whitespace is its own `strip()`. */
  lemma StripStripped(s: string)
    requires Stripped(s)
    ensures Strip(s) == s
  {
  }

  /** `sep.join(parts)` for a one-character separator. */
  function Join(parts: seq<string>, sep: char): string {
    if parts == [] then []
    else if |parts| == 1 then parts[0]
    else parts[0] + [sep] + Join(parts[1..], sep)
  }

  /** Joining one more part at the end adds the separator and that part. */
  lemma {:induction false} JoinSnoc(parts: seq<string>, last: string, sep: char)
    ensures Join(parts + [last], sep) == if parts == [] then last else Join(parts, sep) + [sep] + last
  {
    if |parts| > 1 {
      assert (parts + [last])[1..] == parts[1..] + [last];
      JoinSnoc(parts[1..], last, sep);
    } else if |parts| == 1 {
      assert (parts + [last])[1..] == [last];
    }
  }

  /** A character of a join is the separator or a character of one of the parts. */
  lemma {:induction false} JoinChars(parts: seq<string>, sep: char, c: char)
    requires c != sep
    requires forall i :: 0 <= i < |parts| ==> c !in parts[i]
    ensures c !in Join(parts, sep)
  {
    if |parts| > 1 {
      JoinChars(parts[1..], sep, c);
    }
  }

  /** `s.split(sep)`: the pieces between separators, always at least one. */
  function Split(s: string, sep: char): (parts: seq<string>)
    ensures |parts| >= 1
  {
    if s == [] then [[]]
    else
      var rest := Split(s[1..], sep);
      if s[0] == sep then [[]] + rest
      else [[s[0]] + rest[0]] + rest[1..]
  }

  /** No piece of a split holds the separator. */
  lemma {:induction false} SplitPieces(s: string, sep: char)
    ensures forall i :: 0 <= i < |Split(s, sep)| ==> sep !in Split(s, sep)[i]
  {
    if s != [] {
      SplitPieces(s[1..], sep);
      var rest := Split(s[1..], sep);
      var parts := Split(s, sep);
      if s[0] != sep {
        assert parts[0] == [s[0]] + rest[0];
        forall i | 1 <= i < |parts| ensures sep !in parts[i] {
          assert parts[i] == rest[i];
        }
      } else {
        forall i | 1 <= i < |parts| ensures sep !in parts[i] {
          assert parts[i] == rest[i - 1];
        }
      }
    }
  }

  /** Splitting and joining again gives back the original text. */
  lemma {:induction false} JoinSplit(s: string, sep: char)
    ensures Join(Split(s, sep), sep) == s
  {
    if s != [] {
      var rest := Split(s[1..], sep);
      JoinSplit(s[1..], sep);
      if s[0] == sep {
        assert Split(s, sep) == [[]] + rest;
        assert ([[]] + rest)[1..] == rest;
      } else {
        var parts := Split(s, sep);
        assert parts == [[s[0]] + rest[0]] + rest[1..];
        if |rest| > 1 {
          assert parts[1..] == rest[1..];
          assert Join(rest, sep) == rest[0] + [sep] + Join(rest[1..], sep);
        }
      }
    }
  }

  /** Joining parts that have no separator and splitting again gives back the parts. */
  lemma {:induction false} SplitJoin(parts: seq<string>, sep: char)
    requires |parts| >= 1
    requires forall i :: 0 <= i < |parts| ==> sep !in parts[i]
    ensures Split(Join(parts, sep), sep) == parts
  {
    if |parts| == 1 {
      SplitNoSep(parts[0], sep);
    } else {
      SplitJoin(parts[1..], sep);
      SplitAppend(parts[0], Join(parts[1..], sep), sep);
      assert Join(parts, sep) == parts[0] + [sep] + Join(parts[1..], sep);
    }
  }

  lemma {:induction false} SplitNoSep(s: string, sep: char)
    requires sep !in s
    ensures Split(s, sep) == [s]
  {
    if s != [] {
      assert s[0] != sep && sep !in s[1..];
      SplitNoSep(s[1..], sep);
      assert [s[0]] + s[1..] == s;
    }
  }

  lemma {:induction false} SplitAppend(head: string, tail: string, sep: char)
    requires sep !in head
    ensures Split(head + [sep] + tail, sep) == [head] + Split(tail, sep)
  {
    if head == [] {
      assert head + [sep] + tail == [sep] + tail;
      assert ([sep] + tail)[1..] == tail;
    } else {
      var s := head + [sep] + tail;
      assert s[1..] == head[1..] + [sep] + tail;
      SplitAppend(head[1..], tail, sep);
      assert [head[0]] + head[1..] == head;
    }
  }

  /** `re.sub('[class]', f, s)` for a one-character class: every character is passed through `f`. */
  function MapChars(s: string, f: char -> char): (r: string)
    ensures |r| == |s|
    ensures forall i :: 0 <= i < |s| ==> r[i] == f(s[i])
  {
    seq(|s|, i requires 0 <= i < |s| => f(s[i]))
  }

  /**
   * `re.sub('[class]+', rep, s)`: every maximal run of characters satisfying
   * `p` becomes one `rep`; every other character is kept.
   */
  function ReplaceRuns(s: string, p: char -> bool, rep: char): (r: string)
    ensures |r| <= |s|
    ensures forall i :: 0 <= i < |r| ==> r[i] == rep || !p(r[i])
    ensures s != [] && !p(s[0]) ==> r != [] && r[0] == s[0]
    ensures s != [] && p(s[0]) ==> r != [] && r[0] == rep
    decreases |s|
  {
    if s == [] then []
    else if p(s[0]) then [rep] + ReplaceRuns(TrimLeft(s, p), p, rep)
    else [s[0]] + ReplaceRuns(s[1..], p, rep)
  }

  /** Every character of `s` satisfies `q`. */
  predicate AllChars(s: string, q: char -> bool) {
    forall i :: 0 <= i < |s| ==> q(s[i])
  }

  lemma AllCharsCons(c: char, s: string, q: char -> bool)
    requires q(c) && AllChars(s, q)
    ensures AllChars([c] + s, q)
  {
    var cs := [c] + s;
    forall i | 0 <= i < |cs| ensures q(cs[i]) {
      if i > 0 {
        assert cs[i] == s[i - 1];
      }
    }
  }

  lemma AllCharsSuffix(s: string, k: nat, q: char -> bool)
    requires AllChars(s, q) && k <= |s|
    ensures AllChars(s[k..], q)
  {
    var t := s[k..];
    forall i | 0 <= i < |t| ensures q(t[i]) {
      assert t[i] == s[k + i];
    }
  }

  lemma AllCharsPrefix(s: string, k: nat, q: char -> bool)
    requires AllChars(s, q) && k <= |s|
    ensures AllChars(s[..k], q)
  {
    var t := s[..k];
    forall i | 0 <= i < |t| ensures q(t[i]) {
      assert t[i] == s[i];
    }
  }

  /** Every character of the result is `rep` or a character of `s`: a class `q` holding both holds the result. */
  lemma {:induction false} ReplaceRunsKeeps(s: string, p: char -> bool, rep: char, q: char -> bool)
    requires q(rep) && AllChars(s, q)
    ensures AllChars(ReplaceRuns(s, p, rep), q)
    decreases |s|
  {
    if s != [] {
      var t := if p(s[0]) then TrimLeft(s, p) else s[1..];
      AllCharsSuffix(s, |s| - |t|, q);
      ReplaceRunsKeeps(t, p, rep, q);
      var r := ReplaceRuns(s, p, rep);
      assert r == [r[0]] + ReplaceRuns(t, p, rep);
      AllCharsCons(r[0], ReplaceRuns(t, p, rep), q);
    }
  }

  /** With no character to replace, `ReplaceRuns` changes nothing. */
  lemma {:induction false} ReplaceRunsNone(s: string, p: char -> bool, rep: char)
    requires forall i :: 0 <= i < |s| ==> !p(s[i])
    ensures ReplaceRuns(s, p, rep) == s
  {
    if s != [] {
      ReplaceRunsNone(s[1..], p, rep);
    }
  }

  /** A last character outside the class survives as the last character. */
  lemma {:induction false} ReplaceRunsLast(s: string, p: char -> bool, rep: char)
    requires s != [] && !p(s[|s| - 1])
    ensures var r := ReplaceRuns(s, p, rep); r != [] && r[|r| - 1] == s[|s| - 1]
    decreases |s|
  {
    var r := ReplaceRuns(s, p, rep);
    if p(s[0]) {
      var rest := TrimLeft(s, p);
      assert rest != [] by {
        assert !p(s[|s| - 1]);
      }
      assert rest[|rest| - 1] == s[|s| - |rest|..][|rest| - 1];
      ReplaceRunsLast(rest, p, rep);
      assert r == [rep] + ReplaceRuns(rest, p, rep);
    } else if |s| > 1 {
      ReplaceRunsLast(s[1..], p, rep);
      assert r == [s[0]] + ReplaceRuns(s[1..], p, rep);
    }
  }

  /** No two neighbouring characters of `s` both satisfy `p`. */
  predicate Separated(s: string, p: char -> bool) {
    forall i :: 0 <= i < |s| - 1 ==> !(p(s[i]) && p(s[i + 1]))
  }

  /** When `rep` is itself in the class, the result never holds two class characters in a row. */
  lemma {:induction false} ReplaceRunsSeparated(s: string, p: char -> bool, rep: char)
    requires p(rep)
    ensures Separated(ReplaceRuns(s, p, rep), p)
    decreases |s|
  {
    if s != [] {
      var r := ReplaceRuns(s, p, rep);
      var t := if p(s[0]) then TrimLeft(s, p) else s[1..];
      var tail := ReplaceRuns(t, p, rep);
      ReplaceRunsSeparated(t, p, rep);
      assert r == [r[0]] + tail;
      assert p(s[0]) ==> (t != [] ==> !p(t[0]));
      forall i | 0 <= i < |r| - 1 ensures !(p(r[i]) && p(r[i + 1])) {
        if i > 0 {
          assert r[i] == tail[i - 1] && r[i + 1] == tail[i];
          assert !(p(tail[i - 1]) && p(tail[i]));
        } else if p(s[0]) {
          assert r[0] == rep && r[1] == tail[0];
          assert t != [] && !p(t[0]);
          assert tail[0] == t[0];
          assert !p(r[1]);
        } else {
          assert r[0] == s[0];
          assert !p(r[0]);
        }
      }
    }
  }

  /** A run of `p` characters followed by the end or a character outside `p` is trimmed whole. */
  lemma {:induction false} TrimLeftRun(run: string, v: string, p: char -> bool)
    requires AllChars(run, p)
    requires v == [] || !p(v[0])
    ensures TrimLeft(run + v, p) == v
    decreases |run|
  {
    if run == [] {
      assert run + v == v;
    } else {
      assert (run + v)[0] == run[0];
      assert (run + v)[1..] == run[1..] + v;
      TrimLeftRun(run[1..], v, p);
    }
  }

  /** When `u` ends outside `p`, the run trimmed from the front of `u + v` lies inside `u`. */
  lemma {:induction false} TrimLeftAppend(u: string, v: string, p: char -> bool)
    requires u != [] && !p(u[|u| - 1])
    ensures TrimLeft(u + v, p) == TrimLeft(u, p) + v
    decreases |u|
  {
    assert (u + v)[0] == u[0];
    if p(u[0]) {
      assert (u + v)[1..] == u[1..] + v;
      TrimLeftAppend(u[1..], v, p);
    }
  }

  /** Cutting after a character outside `p` cuts no run: the replacement works on each side alone. */
  lemma {:induction false} ReplaceRunsAppend(u: string, v: string, p: char -> bool, rep: char)
    requires u == [] || !p(u[|u| - 1])
    ensures ReplaceRuns(u + v, p, rep) == ReplaceRuns(u, p, rep) + ReplaceRuns(v, p, rep)
    decreases |u|
  {
    if u == [] {
      assert u + v == v;
    } else {
      var s := u + v;
      assert s[0] == u[0];
      if p(u[0]) {
        TrimLeftAppend(u, v, p);
        var t := TrimLeft(u, p);
        assert t != [] && t[|t| - 1] == u[|u| - 1];
        ReplaceRunsAppend(t, v, p, rep);
        ConsAssoc(rep, ReplaceRuns(t, p, rep), ReplaceRuns(v, p, rep));
      } else {
        assert s[1..] == u[1..] + v;
        ReplaceRunsAppend(u[1..], v, p, rep);
        ConsAssoc(u[0], ReplaceRuns(u[1..], p, rep), ReplaceRuns(v, p, rep));
      }
    }
  }

  lemma ConsAssoc(c: char, x: string, y: string)
    ensures [c] + (x + y) == ([c] + x) + y
  {
  }

  lemma Regroup(a: string, x: char, run: string, y: char, b: string)
    ensures a + [x] + run + [y] + b == (a + [x]) + (run + ([y] + b))
  {
  }

  lemma SnocAssoc(x: string, c: char, y: string)
    ensures x + ([c] + y) == x + [c] + y
  {
  }

  /** A run of class characters followed by the end or a character outside the class becomes one `rep`. */
  lemma ReplaceRunsRun(run: string, v: string, p: char -> bool, rep: char)
    requires run != [] && AllChars(run, p)
    requires v == [] || !p(v[0])
    ensures ReplaceRuns(run + v, p, rep) == [rep] + ReplaceRuns(v, p, rep)
  {
    assert (run + v)[0] == run[0];
    TrimLeftRun(run, v, p);
  }

  /**
   * A run of class characters between two characters outside the class
   * becomes exactly one `rep`, whatever its length: `a  b` becomes `a b`.
   */
  lemma ReplaceRunsBetween(a: string, x: char, run: string, y: char, b: string, p: char -> bool, rep: char)
    requires !p(x) && !p(y)
    requires run != [] && AllChars(run, p)
    ensures ReplaceRuns(a + [x] + run + [y] + b, p, rep)
      == ReplaceRuns(a + [x], p, rep) + [rep] + ReplaceRuns([y] + b, p, rep)
  {
    var u := a + [x];
    var w := [y] + b;
    Regroup(a, x, run, y, b);
    assert u[|u| - 1] == x && w[0] == y;
    ReplaceRunsAppend(u, run + w, p, rep);
    ReplaceRunsRun(run, w, p, rep);
    SnocAssoc(ReplaceRuns(u, p, rep), rep, ReplaceRuns(w, p, rep));
  }
}
