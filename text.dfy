/**
 * The three string operations of Python the consolidation pass relies on:
 * `str.split()` with no separator, `in` on strings, and `str.lower()`.
 */
module Text {

  /** The characters `str.split()` treats as separators (those for which `str.isspace()` holds). */
  predicate IsSpace(c: char) {
    || '\U{0009}' <= c <= '\U{000D}'
    || '\U{001C}' <= c <= '\U{0020}'
    || c == '\U{0085}' || c == '\U{00A0}' || c == '\U{1680}'
    || '\U{2000}' <= c <= '\U{200A}'
    || c == '\U{2028}' || c == '\U{2029}' || c == '\U{202F}'
    || c == '\U{205F}' || c == '\U{3000}'
  }

  predicate NoSpace(s: string) {
    forall i :: 0 <= i < |s| ==> !IsSpace(s[i])
  }

  /** The maximal run of non-space characters at the start of `s`. */
  function LeadingWord(s: string): (w: string)
    ensures |w| <= |s| && w == s[..|w|]
    ensures NoSpace(w)
    ensures |w| < |s| ==> IsSpace(s[|w|])
  {
    if s == [] || IsSpace(s[0]) then [] else [s[0]] + LeadingWord(s[1..])
  }

  /** `s.split()`: the maximal runs of non-space characters, in order. */
  function Words(s: string): (ws: seq<string>)
    ensures forall k :: 0 <= k < |ws| ==> ws[k] != [] && NoSpace(ws[k])
    decreases |s|
  {
    if s == [] then []
    else if IsSpace(s[0]) then Words(s[1..])
    else
      var w := LeadingWord(s);
      [w] + Words(s[|w|..])
  }

  /**
   * An independent reading of the initials of a string: a one-pass scan
   * keeping every non-space character that starts the string or follows a
   * space. `atStart` says whether the previous character was a space (or
   * there was none).
   */
  function WordStarts(s: string, atStart: bool): (starts: string) {
    if s == [] then []
    else if IsSpace(s[0]) then WordStarts(s[1..], true)
    else (if atStart then [s[0]] else []) + WordStarts(s[1..], false)
  }

  /** The first character of each word. */
  function Initials(ws: seq<string>): (r: string)
    requires forall k :: 0 <= k < |ws| ==> ws[k] != []
  {
    seq(|ws|, k requires 0 <= k < |ws| => ws[k][0])
  }

  /** A string without spaces is its own leading word. */
  lemma {:induction false} WholeWord(s: string)
    requires NoSpace(s)
    ensures LeadingWord(s) == s
  {
    if s != [] {
      WholeWord(s[1..]);
    }
  }

  /** Inside a word no character starts a new one. */
  lemma {:induction false} SkipWord(s: string)
    ensures WordStarts(s, false) == WordStarts(s[|LeadingWord(s)|..], false)
  {
    if s != [] && !IsSpace(s[0]) {
      var w, w' := LeadingWord(s), LeadingWord(s[1..]);
      assert w == [s[0]] + w';
      assert s[|w|..] == s[1..][|w'|..];
      SkipWord(s[1..]);
    }
  }

  /**
   * The initials of `s.split()` are exactly the characters that start a
   * whitespace-delimited run in `s`.
   */
  lemma {:induction false} InitialsAreWordStarts(s: string)
    ensures Initials(Words(s)) == WordStarts(s, true)
    decreases |s|
  {
    if s == [] {
    } else if IsSpace(s[0]) {
      InitialsAreWordStarts(s[1..]);
    } else {
      var w := LeadingWord(s);
      var rest := s[|w|..];
      var ws := Words(rest);
      assert Words(s) == [w] + ws;
      assert Initials([w] + ws) == [s[0]] + Initials(ws);
      calc {
        WordStarts(s, true);
        [s[0]] + WordStarts(s[1..], false);
        { SkipWord(s[1..]); assert s[1..][|LeadingWord(s[1..])|..] == rest; }
        [s[0]] + WordStarts(rest, false);
        // `rest` is empty or starts with a space, so the flag no longer matters
        [s[0]] + WordStarts(rest, true);
        { InitialsAreWordStarts(rest); }
        [s[0]] + Initials(ws);
      }
    }
  }

  /** Python's `t in s` on strings: `t` occurs as a contiguous, case-sensitive substring. */
  predicate Contains(s: string, t: string) {
    exists i | 0 <= i <= |s| - |t| :: OccursAt(s, t, i)
  }

  /** `t` occurs in `s` starting at index `i`. */
  predicate OccursAt(s: string, t: string, i: nat) {
    i + |t| <= |s| && s[i..i + |t|] == t
  }

  lemma ContainsSelfPrefixed(p: string, s: string)
    ensures Contains(p + s, p)
  {
    assert OccursAt(p + s, p, 0);
  }

  function LowerChar(c: char): (lc: char) {
    if 'A' <= c <= 'Z' then (c as int + 32) as char else c
  }

  /** `s.lower()` on the ASCII letters; every other character is kept. */
  function Lower(s: string): (r: string)
    ensures |r| == |s|
  {
    seq(|s|, i requires 0 <= i < |s| => LowerChar(s[i]))
  }

  /** Lower-casing commutes with slicing, so it keeps every occurrence of a substring. */
  lemma LowerKeepsContains(s: string, t: string)
    requires Contains(s, t)
    ensures Contains(Lower(s), Lower(t))
  {
    var i :| 0 <= i <= |s| - |t| && OccursAt(s, t, i);
    assert Lower(s)[i..i + |t|] == Lower(t);
    assert OccursAt(Lower(s), Lower(t), i);
  }
}
