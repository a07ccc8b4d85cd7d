/**
 * Character classes and string helpers with the meaning JavaScript gives them
 * in a regular expression without the `u` flag: `\d`, `\s`, the word characters
 * that decide `\b`, and the ASCII case folding that the `i` flag performs.
 */
module Text {

  /** `\d`: an ASCII decimal digit. */
  predicate IsDigit(c: char) {
    '0' <= c <= '9'
  }

  /** `[A-Z]`, matched case-sensitively. */
  predicate IsUpper(c: char) {
    'A' <= c <= 'Z'
  }

  /** `\w`, the characters on whose edge `\b` holds: ASCII letters, digits and underscore. */
  predicate IsWordChar(c: char) {
    IsDigit(c) || IsUpper(c) || ('a' <= c <= 'z') || c == '_'
  }

  /** `\s`: the white-space and line-terminator characters of ECMAScript. */
  predicate IsSpace(c: char) {
    c == ' ' || c == '\t' || c == '\n' || c == '\U{B}' || c == '\U{C}' || c == '\r'
    || c == '\U{A0}' || c == '\U{1680}' || ('\U{2000}' <= c <= '\U{200A}')
    || c == '\U{2028}' || c == '\U{2029}' || c == '\U{202F}' || c == '\U{205F}'
    || c == '\U{3000}' || c == '\U{FEFF}'
  }

  /**
   * ASCII lower-casing. The `i` flag compares characters after this folding
   * (JavaScript never folds a non-ASCII character onto an ASCII one without
   * the `u` flag), and it is the only part of `toLowerCase` that can matter
   * for the ASCII words the classifier looks for.
   */
  function ToLower(c: char): (r: char)
    ensures IsUpper(c) ==> r as int == c as int + 32
    ensures !IsUpper(c) ==> r == c
  {
    if IsUpper(c) then (c as int + 32) as char else c
  }

  /** `s.toLowerCase()`, restricted to ASCII letters. */
  function Lower(s: string): (r: string)
    ensures |r| == |s|
    ensures forall i :: 0 <= i < |s| ==> r[i] == ToLower(s[i])
  {
    if s == [] then [] else [ToLower(s[0])] + Lower(s[1..])
  }

  /** `w` occurs in `s` at position `p`. */
  predicate OccursAt(s: string, w: string, p: nat) {
    p + |w| <= |s| && s[p..p + |w|] == w
  }

  /** `s.includes(w)`, searched from position `p` on. */
  predicate IncludesFrom(s: string, w: string, p: nat)
    decreases |s| - p
  {
    if p + |w| > |s| then false
    else s[p..p + |w|] == w || IncludesFrom(s, w, p + 1)
  }

  /** `s.includes(w)`. */
  predicate Includes(s: string, w: string) {
    IncludesFrom(s, w, 0)
  }

  lemma {:induction false} IncludesFromMeans(s: string, w: string, p: nat)
    ensures IncludesFrom(s, w, p) <==> exists i :: p <= i && OccursAt(s, w, i)
    decreases |s| - p
  {
    if p + |w| > |s| {
      forall i | p <= i ensures !OccursAt(s, w, i) { }
    } else {
      IncludesFromMeans(s, w, p + 1);
      if OccursAt(s, w, p) { }
      else {
        forall i | p <= i && OccursAt(s, w, i) ensures p + 1 <= i { }
      }
    }
  }

  /** `s.includes(w)` holds exactly when `w` occurs somewhere in `s`. */
  lemma IncludesMeans(s: string, w: string)
    ensures Includes(s, w) <==> exists i :: OccursAt(s, w, i)
  {
    IncludesFromMeans(s, w, 0);
  }

  /** Case-insensitive containment, `s.toLowerCase().includes(w)` for a lower-case word `w`. */
  predicate IncludesIgnoringCase(s: string, w: string) {
    Includes(Lower(s), w)
  }
}
