/**
 * The seven regular expressions of the trade-prompt parser, each as a dedicated
 * matcher rather than a general regular-expression engine:
 *
 *   action      /\b(Buy|Sell)\b/i
 *   ticker      /\b([A-Z]{1,5})\b/            (case-sensitive)
 *   expiry      /\b(\d{4}-\d{2}-\d{2})\b/
 *   delta       /(\d+\.\d+)\s*delta/i
 *   stop loss   /(\d+\.\d+)x\s*stop\s*loss/i
 *   take profit /(\d+\.\d+)x\s*take\s*profit/i
 *   option type /\b(Call|Put)\b/i
 *
 * `MatchAt(pat, s, p)` is the end of the capture group when the pattern matches
 * at position `p` (every group starts where its match starts); `Find` is
 * `String.prototype.match` without the `g` flag: the group of the leftmost match.
 * `Shape` transcribes each pattern declaratively, and `MatchAtExact` proves the
 * matcher accepts exactly the positions and group ends the pattern describes,
 * so that greedy matching with backtracking has no other outcome to choose.
 */
module Patterns {
  import opened Wrappers
  import opened Text

  datatype Pattern = Action | Ticker | Expiry | Delta | StopLoss | TakeProfit | OptionType

  datatype CharClass = Digit | Space | Upper

  predicate InClass(c: char, cls: CharClass) {
    match cls
    case Digit => IsDigit(c)
    case Space => IsSpace(c)
    case Upper => IsUpper(c)
  }

  /** Every character of `t` belongs to `cls`. */
  ghost predicate AllIn(t: string, cls: CharClass) {
    forall i :: 0 <= i < |t| ==> InClass(t[i], cls)
  }

  /** `\b` at position `p`: exactly one of the characters around it is a word character. */
  predicate Boundary(s: string, p: nat)
    requires p <= |s|
  {
    (p > 0 && IsWordChar(s[p - 1])) != (p < |s| && IsWordChar(s[p]))
  }

  /** Where the longest run of `cls` characters starting at `p` ends (a greedy `+` or `*`). */
  function RunEnd(s: string, p: nat, cls: CharClass): (e: nat)
    requires p <= |s|
    ensures p <= e <= |s|
    decreases |s| - p
  {
    if p < |s| && InClass(s[p], cls) then RunEnd(s, p + 1, cls) else p
  }

  /** The run `RunEnd` finds consists of `cls` characters and cannot be extended. */
  lemma {:induction false} RunEndRun(s: string, p: nat, cls: CharClass)
    requires p <= |s|
    ensures forall k :: p <= k < RunEnd(s, p, cls) ==> InClass(s[k], cls)
    ensures RunEnd(s, p, cls) < |s| ==> !InClass(s[RunEnd(s, p, cls)], cls)
    decreases |s| - p
  {
    if p < |s| && InClass(s[p], cls) {
      RunEndRun(s, p + 1, cls);
    }
  }

  /** A run of `cls` characters that cannot be extended is the one `RunEnd` finds. */
  lemma {:induction false} RunEndUnique(s: string, p: nat, cls: CharClass, e: nat)
    requires p <= e <= |s|
    requires forall k :: p <= k < e ==> InClass(s[k], cls)
    requires e < |s| ==> !InClass(s[e], cls)
    ensures RunEnd(s, p, cls) == e
    decreases e - p
  {
    if p < e {
      RunEndUnique(s, p + 1, cls, e);
    }
  }

  /** The case-insensitive literal `w` (given in lower case) occurs at `p`. */
  predicate LiteralAt(s: string, p: nat, w: string) {
    p + |w| <= |s| && Lower(s[p..p + |w|]) == w
  }

  /** `\bw\b`, case-insensitively. */
  predicate WordAt(s: string, p: nat, w: string) {
    LiteralAt(s, p, w) && Boundary(s, p) && Boundary(s, p + |w|)
  }

  /** The end of `\d+\.\d+` matched greedily at `p`. */
  function DecimalEnd(s: string, p: nat): (r: Option<nat>)
    requires p <= |s|
    ensures r.Some? ==> p < r.value <= |s|
  {
    var q := RunEnd(s, p, Digit);
    if q == p || q == |s| || s[q] != '.' then None
    else
      var r := RunEnd(s, q + 1, Digit);
      if r == q + 1 then None else Some(r)
  }

  /** The end of the group of `(\d+\.\d+)x\s*w1\s*w2` matched at `p`. */
  function MultiplierEnd(s: string, p: nat, w1: string, w2: string): (r: Option<nat>)
    requires p <= |s|
    ensures r.Some? ==> p < r.value <= |s|
  {
    match DecimalEnd(s, p)
    case None => None
    case Some(r) =>
      if r < |s| && ToLower(s[r]) == 'x' then
        var t1 := RunEnd(s, r + 1, Space);
        if LiteralAt(s, t1, w1) then
          var t2 := RunEnd(s, t1 + |w1|, Space);
          if LiteralAt(s, t2, w2) then Some(r) else None
        else None
      else None
  }

  /** The end of the capture group when `pat` matches at `p`. */
  function MatchAt(pat: Pattern, s: string, p: nat): (r: Option<nat>)
    requires p <= |s|
    ensures r.Some? ==> p < r.value <= |s|
  {
    match pat
    case Action =>
      if WordAt(s, p, "buy") then Some(p + 3)
      else if WordAt(s, p, "sell") then Some(p + 4)
      else None
    case OptionType =>
      if WordAt(s, p, "call") then Some(p + 4)
      else if WordAt(s, p, "put") then Some(p + 3)
      else None
    case Ticker =>
      var e := RunEnd(s, p, Upper);
      if 1 <= e - p <= 5 && Boundary(s, p) && Boundary(s, e) then Some(e) else None
    case Expiry =>
      if p + 10 <= |s| && Boundary(s, p)
         && RunEnd(s, p, Digit) == p + 4 && s[p + 4] == '-'
         && RunEnd(s, p + 5, Digit) == p + 7 && s[p + 7] == '-'
         && RunEnd(s, p + 8, Digit) == p + 10 && Boundary(s, p + 10)
      then Some(p + 10)
      else None
    case Delta =>
      (match DecimalEnd(s, p)
       case None => None
       case Some(r) => if LiteralAt(s, RunEnd(s, r, Space), "delta") then Some(r) else None)
    case StopLoss => MultiplierEnd(s, p, "stop", "loss")
    case TakeProfit => MultiplierEnd(s, p, "take", "profit")
  }

  /** The matcher of `pat` on `s` as a function of the start position, failing past the end. */
  function Hits(pat: Pattern, s: string): nat -> Option<nat> {
    (p: nat) => if p <= |s| then MatchAt(pat, s, p) else None
  }

  /** The leftmost position in `p..n` at which `hit` succeeds: the scan `match` performs. */
  function FirstHit(hit: nat -> Option<nat>, p: nat, n: nat): (r: Option<nat>)
    requires p <= n
    ensures r.Some? ==> p <= r.value <= n && hit(r.value).Some?
    decreases n - p
  {
    if hit(p).Some? then Some(p)
    else if p == n then None
    else FirstHit(hit, p + 1, n)
  }

  /** The text captured by the match at `i`. */
  function Capture(pat: Pattern, s: string, i: nat): string
    requires i <= |s| && MatchAt(pat, s, i).Some?
  {
    s[i..MatchAt(pat, s, i).value]
  }

  /** `s.match(regex)[1]` when the match succeeds; `regex.test(s)` is `Find(pat, s).Some?`. */
  function Find(pat: Pattern, s: string): Option<string> {
    match FirstHit(Hits(pat, s), 0, |s|)
    case None => None
    case Some(i) => Some(Capture(pat, s, i))
  }

  // ---------------------------------------------------------------------------
  // The patterns, read declaratively: a match at `p` whose group ends at `e`.

  /** `\d+\.\d+` */
  ghost predicate IsDecimal(t: string) {
    exists k :: 0 < k < |t| - 1 && t[k] == '.' && AllIn(t[..k], Digit) && AllIn(t[k + 1..], Digit)
  }

  /** The literal `w`, matched under the `i` flag. */
  ghost predicate CiEquals(t: string, w: string) {
    Lower(t) == w
  }

  ghost predicate Shape(pat: Pattern, s: string, p: nat, e: nat)
    requires p <= e <= |s|
  {
    match pat
    case Action =>
      Boundary(s, p) && Boundary(s, e) && (CiEquals(s[p..e], "buy") || CiEquals(s[p..e], "sell"))
    case OptionType =>
      Boundary(s, p) && Boundary(s, e) && (CiEquals(s[p..e], "call") || CiEquals(s[p..e], "put"))
    case Ticker =>
      1 <= e - p <= 5 && AllIn(s[p..e], Upper) && Boundary(s, p) && Boundary(s, e)
    case Expiry =>
      e == p + 10 && Boundary(s, p) && Boundary(s, e)
      && AllIn(s[p..p + 4], Digit) && s[p + 4] == '-'
      && AllIn(s[p + 5..p + 7], Digit) && s[p + 7] == '-'
      && AllIn(s[p + 8..p + 10], Digit)
    case Delta =>
      IsDecimal(s[p..e])
      && SpacedLiteralFrom(s, e, "delta")
    case StopLoss => MultiplierShape(s, p, e, "stop", "loss")
    case TakeProfit => MultiplierShape(s, p, e, "take", "profit")
  }

  /** `\s*w` read from `a`: spaces up to `t`, then the literal `w` under the `i` flag. */
  ghost predicate SpacedLiteral(s: string, a: nat, t: nat, w: string) {
    a <= t && t + |w| <= |s| && AllIn(s[a..t], Space) && CiEquals(s[t..t + |w|], w)
  }

  /** `\s*w` matches from `a`. */
  ghost predicate SpacedLiteralFrom(s: string, a: nat, w: string) {
    exists t: nat :: SpacedLiteral(s, a, t, w)
  }

  /** `\s*w` read from just after position `x`. */
  ghost predicate SpacedLiteralAfter(s: string, x: nat, t: nat, w: string) {
    SpacedLiteral(s, x + 1, t, w)
  }

  /** `(\d+\.\d+)x\s*w1\s*w2` with the group `s[p..e]`. */
  ghost predicate MultiplierShape(s: string, p: nat, e: nat, w1: string, w2: string)
    requires p <= e <= |s|
  {
    IsDecimal(s[p..e]) && e < |s| && ToLower(s[e]) == 'x'
    && exists t1: nat :: SpacedLiteralAfter(s, e, t1, w1) && SpacedLiteralFrom(s, t1 + |w1|, w2)
  }
}

module PatternFacts {
  import opened Wrappers
  import opened Text
  import opened Patterns

  // ---------------------------------------------------------------------------
  // Small facts about characters and literals.

  lemma LowerHead(t: string)
    requires |t| > 0
    ensures Lower(t)[0] == ToLower(t[0])
  {
  }

  /** A character that folds to an ASCII lower-case letter is a letter: neither a digit nor a space. */
  lemma FoldsToLetter(c: char)
    requires 'a' <= ToLower(c) <= 'z'
    ensures !IsDigit(c) && !IsSpace(c) && IsWordChar(c)
  {
  }

  /** The first character of a case-insensitive literal that starts with a letter. */
  lemma LiteralHead(s: string, t: nat, w: string)
    requires LiteralAt(s, t, w) && |w| > 0 && 'a' <= w[0] <= 'z'
    ensures t < |s| && ToLower(s[t]) == w[0]
    ensures !IsDigit(s[t]) && !IsSpace(s[t]) && IsWordChar(s[t])
  {
    assert s[t..t + |w|][0] == s[t];
    LowerHead(s[t..t + |w|]);
    FoldsToLetter(s[t]);
  }

  lemma AllInSlice(s: string, p: nat, e: nat, cls: CharClass)
    requires p <= e <= |s|
    ensures AllIn(s[p..e], cls) <==> forall k :: p <= k < e ==> InClass(s[k], cls)
  {
    if AllIn(s[p..e], cls) {
      forall k | p <= k < e ensures InClass(s[k], cls) {
        assert s[p..e][k - p] == s[k];
      }
    }
  }

  // ---------------------------------------------------------------------------
  // `\d+\.\d+`

  lemma DecimalEndSound(s: string, p: nat, e: nat)
    requires p <= e <= |s| && DecimalEnd(s, p) == Some(e)
    ensures IsDecimal(s[p..e]) && (e == |s| || !IsDigit(s[e]))
  {
    var t := s[p..e];
    var q := RunEnd(s, p, Digit);
    RunEndRun(s, p, Digit);
    RunEndRun(s, q + 1, Digit);
    var k := q - p;
    assert t[..k] == s[p..q];
    assert t[k + 1..] == s[q + 1..e];
    AllInSlice(s, p, q, Digit);
    AllInSlice(s, q + 1, e, Digit);
    assert t[k] == '.';
  }

  /** Digits from `p` to a point at `q`, digits from there to `r`, and no digit at `r`. */
  lemma DecimalAt(s: string, p: nat, q: nat, r: nat)
    requires p < q && q + 1 < r <= |s| && s[q] == '.'
    requires forall k :: p <= k < q ==> IsDigit(s[k])
    requires forall k :: q + 1 <= k < r ==> IsDigit(s[k])
    requires r < |s| ==> !IsDigit(s[r])
    ensures DecimalEnd(s, p) == Some(r)
  {
    RunEndUnique(s, p, Digit, q);
    RunEndUnique(s, q + 1, Digit, r);
  }

  lemma DecimalEndComplete(s: string, p: nat, e: nat)
    requires p <= e <= |s| && IsDecimal(s[p..e]) && (e == |s| || !IsDigit(s[e]))
    ensures DecimalEnd(s, p) == Some(e)
  {
    var t := s[p..e];
    var k :| 0 < k < |t| - 1 && t[k] == '.' && AllIn(t[..k], Digit) && AllIn(t[k + 1..], Digit);
    var q := p + k;
    assert t[..k] == s[p..q];
    assert t[k + 1..] == s[q + 1..e];
    AllInSlice(s, p, q, Digit);
    AllInSlice(s, q + 1, e, Digit);
    DecimalAt(s, p, q, e);
  }

  /** `\d+\.\d+` at `p` ends at `e` exactly when `s[p..e]` is a decimal that cannot be extended. */
  lemma DecimalEndExact(s: string, p: nat, e: nat)
    requires p <= e <= |s|
    ensures DecimalEnd(s, p) == Some(e) <==> IsDecimal(s[p..e]) && (e == |s| || !IsDigit(s[e]))
  {
    if DecimalEnd(s, p) == Some(e) { DecimalEndSound(s, p, e); }
    if IsDecimal(s[p..e]) && (e == |s| || !IsDigit(s[e])) { DecimalEndComplete(s, p, e); }
  }

  // ---------------------------------------------------------------------------
  // `\s*w`

  /** `\s*w` from `a` matches exactly when the literal follows the longest run of spaces. */
  lemma SpacedLiteralExact(s: string, a: nat, w: string)
    requires a <= |s| && |w| > 0 && 'a' <= w[0] <= 'z'
    ensures SpacedLiteralFrom(s, a, w) <==> LiteralAt(s, RunEnd(s, a, Space), w)
    ensures SpacedLiteralFrom(s, a, w) ==> a < |s| && !IsDigit(s[a])
  {
    var t0 := RunEnd(s, a, Space);
    RunEndRun(s, a, Space);
    AllInSlice(s, a, t0, Space);
    if LiteralAt(s, t0, w) {
      assert SpacedLiteral(s, a, t0, w);
      LiteralHead(s, t0, w);
    }
    if SpacedLiteralFrom(s, a, w) {
      var t: nat :| SpacedLiteral(s, a, t, w);
      AllInSlice(s, a, t, Space);
      LiteralHead(s, t, w);
      RunEndUnique(s, a, Space, t);
    }
  }

  // ---------------------------------------------------------------------------
  // Each matcher accepts exactly what its pattern describes.

  lemma WordExact(s: string, p: nat, e: nat, w: string)
    requires p <= e <= |s|
    ensures (WordAt(s, p, w) && e == p + |w|) <==> (Boundary(s, p) && Boundary(s, e) && CiEquals(s[p..e], w))
  {
  }

  /** Two literals with different first letters cannot both match at one position. */
  lemma LiteralsExclusive(s: string, p: nat, w1: string, w2: string)
    requires |w1| > 0 && |w2| > 0 && w1[0] != w2[0] && 'a' <= w1[0] <= 'z' && 'a' <= w2[0] <= 'z'
    ensures !(LiteralAt(s, p, w1) && LiteralAt(s, p, w2))
  {
    if LiteralAt(s, p, w1) && LiteralAt(s, p, w2) {
      LiteralHead(s, p, w1);
      LiteralHead(s, p, w2);
    }
  }

  lemma CiEqualsLength(t: string, w: string)
    requires CiEquals(t, w)
    ensures |t| == |w|
  {
  }

  lemma AlternativeExact(s: string, p: nat, e: nat, w1: string, w2: string)
    requires p <= e <= |s|
    requires |w1| > 0 && |w2| > 0 && w1[0] != w2[0] && 'a' <= w1[0] <= 'z' && 'a' <= w2[0] <= 'z'
    ensures (if WordAt(s, p, w1) then Some(p + |w1|) else if WordAt(s, p, w2) then Some(p + |w2|) else None) == Some(e)
        <==> Boundary(s, p) && Boundary(s, e) && (CiEquals(s[p..e], w1) || CiEquals(s[p..e], w2))
  {
    LiteralsExclusive(s, p, w1, w2);
    WordExact(s, p, e, w1);
    WordExact(s, p, e, w2);
    if CiEquals(s[p..e], w1) { CiEqualsLength(s[p..e], w1); }
    if CiEquals(s[p..e], w2) { CiEqualsLength(s[p..e], w2); }
  }

  lemma TickerExact(s: string, p: nat, e: nat)
    requires p <= e <= |s|
    ensures MatchAt(Ticker, s, p) == Some(e) <==> Shape(Ticker, s, p, e)
  {
    AllInSlice(s, p, e, Upper);
    RunEndRun(s, p, Upper);
    if Shape(Ticker, s, p, e) {
      assert IsWordChar(s[e - 1]);
      RunEndUnique(s, p, Upper, e);
    }
  }

  lemma ExpiryExact(s: string, p: nat, e: nat)
    requires p <= e <= |s|
    ensures MatchAt(Expiry, s, p) == Some(e) <==> Shape(Expiry, s, p, e)
  {
    if p + 10 <= |s| {
      RunEndRun(s, p, Digit);
      RunEndRun(s, p + 5, Digit);
      RunEndRun(s, p + 8, Digit);
      AllInSlice(s, p, p + 4, Digit);
      AllInSlice(s, p + 5, p + 7, Digit);
      AllInSlice(s, p + 8, p + 10, Digit);
      if Shape(Expiry, s, p, e) {
        RunEndUnique(s, p, Digit, p + 4);
        RunEndUnique(s, p + 5, Digit, p + 7);
        assert IsWordChar(s[p + 9]);
        RunEndUnique(s, p + 8, Digit, p + 10);
      }
    }
  }

  lemma DeltaExact(s: string, p: nat, e: nat)
    requires p <= e <= |s|
    ensures MatchAt(Delta, s, p) == Some(e) <==> Shape(Delta, s, p, e)
  {
    DecimalEndExact(s, p, e);
    if e <= |s| {
      SpacedLiteralExact(s, e, "delta");
    }
  }

  /** What `MultiplierEnd` checks, one step after another. */
  predicate MultiplierParts(s: string, p: nat, e: nat, w1: string, w2: string)
    requires p <= e <= |s|
  {
    DecimalEnd(s, p) == Some(e) && e < |s| && ToLower(s[e]) == 'x'
    && LiteralAt(s, RunEnd(s, e + 1, Space), w1)
    && LiteralAt(s, RunEnd(s, RunEnd(s, e + 1, Space) + |w1|, Space), w2)
  }

  lemma MultiplierEndParts(s: string, p: nat, e: nat, w1: string, w2: string)
    requires p <= e <= |s|
    ensures MultiplierEnd(s, p, w1, w2) == Some(e) <==> MultiplierParts(s, p, e, w1, w2)
  {
  }

  /** A match of `\s*w` from `a` uses the longest run of spaces. */
  lemma SpacedRunEnd(s: string, a: nat, t: nat, w: string)
    requires |w| > 0 && 'a' <= w[0] <= 'z' && SpacedLiteral(s, a, t, w)
    ensures RunEnd(s, a, Space) == t && LiteralAt(s, t, w)
  {
    AllInSlice(s, a, t, Space);
    LiteralHead(s, t, w);
    RunEndUnique(s, a, Space, t);
  }

  lemma MultiplierComplete(s: string, p: nat, e: nat, w1: string, w2: string)
    requires p <= e <= |s|
    requires |w1| > 0 && 'a' <= w1[0] <= 'z' && |w2| > 0 && 'a' <= w2[0] <= 'z'
    requires MultiplierShape(s, p, e, w1, w2)
    ensures MultiplierParts(s, p, e, w1, w2)
  {
    var u: nat :| SpacedLiteralAfter(s, e, u, w1) && SpacedLiteralFrom(s, u + |w1|, w2);
    MultiplierTailRuns(s, e, u, w1, w2);
    FoldsToLetter(s[e]);
    DecimalEndComplete(s, p, e);
  }

  /** After the `x`, both `\s*` runs of a match are the longest ones. */
  lemma MultiplierTailRuns(s: string, e: nat, u: nat, w1: string, w2: string)
    requires e < |s|
    requires |w1| > 0 && 'a' <= w1[0] <= 'z' && |w2| > 0 && 'a' <= w2[0] <= 'z'
    requires SpacedLiteralAfter(s, e, u, w1) && SpacedLiteralFrom(s, u + |w1|, w2)
    ensures LiteralAt(s, RunEnd(s, e + 1, Space), w1)
    ensures LiteralAt(s, RunEnd(s, RunEnd(s, e + 1, Space) + |w1|, Space), w2)
  {
    SpacedRunEnd(s, e + 1, u, w1);
    SecondWordRun(s, u + |w1|, w2);
  }

  lemma SecondWordRun(s: string, a: nat, w: string)
    requires |w| > 0 && 'a' <= w[0] <= 'z' && SpacedLiteralFrom(s, a, w)
    ensures a <= |s| && LiteralAt(s, RunEnd(s, a, Space), w)
  {
    var t: nat :| SpacedLiteral(s, a, t, w);
    SpacedLiteralExact(s, a, w);
  }


  /** The longest run of spaces after position `x`, followed by `w`, is a match of `\s*w`. */
  lemma SpacedAfterRun(s: string, x: nat, w: string)
    requires x < |s| && LiteralAt(s, RunEnd(s, x + 1, Space), w)
    ensures SpacedLiteralAfter(s, x, RunEnd(s, x + 1, Space), w)
  {
    RunEndRun(s, x + 1, Space);
    AllInSlice(s, x + 1, RunEnd(s, x + 1, Space), Space);
  }

  /** The longest run of spaces from `a`, followed by `w`, is a match of `\s*w`. */
  lemma SpacedFromRun(s: string, a: nat, w: string)
    requires a <= |s| && LiteralAt(s, RunEnd(s, a, Space), w)
    ensures SpacedLiteralFrom(s, a, w)
  {
    var t := RunEnd(s, a, Space);
    RunEndRun(s, a, Space);
    AllInSlice(s, a, t, Space);
    assert SpacedLiteral(s, a, t, w);
  }

  lemma MultiplierSound(s: string, p: nat, e: nat, w1: string, w2: string)
    requires p <= e <= |s|
    requires |w1| > 0 && 'a' <= w1[0] <= 'z' && |w2| > 0 && 'a' <= w2[0] <= 'z'
    requires MultiplierParts(s, p, e, w1, w2)
    ensures MultiplierShape(s, p, e, w1, w2)
  {
    DecimalEndSound(s, p, e);
    MultiplierTailSound(s, e, w1, w2);
  }

  /** The words found after the longest runs of spaces form a match of `x\s*w1\s*w2`. */
  lemma MultiplierTailSound(s: string, e: nat, w1: string, w2: string)
    requires e < |s| && LiteralAt(s, RunEnd(s, e + 1, Space), w1)
    requires LiteralAt(s, RunEnd(s, RunEnd(s, e + 1, Space) + |w1|, Space), w2)
    ensures exists t1: nat :: SpacedLiteralAfter(s, e, t1, w1) && SpacedLiteralFrom(s, t1 + |w1|, w2)
  {
    var t1 := RunEnd(s, e + 1, Space);
    SpacedAfterRun(s, e, w1);
    SpacedFromRun(s, t1 + |w1|, w2);
    assert SpacedLiteralAfter(s, e, t1, w1) && SpacedLiteralFrom(s, t1 + |w1|, w2);
  }

  lemma MultiplierExact(s: string, p: nat, e: nat, w1: string, w2: string)
    requires p <= e <= |s|
    requires |w1| > 0 && 'a' <= w1[0] <= 'z' && |w2| > 0 && 'a' <= w2[0] <= 'z'
    ensures MultiplierEnd(s, p, w1, w2) == Some(e) <==> MultiplierShape(s, p, e, w1, w2)
  {
    MultiplierEndParts(s, p, e, w1, w2);
    if MultiplierShape(s, p, e, w1, w2) { MultiplierComplete(s, p, e, w1, w2); }
    if MultiplierParts(s, p, e, w1, w2) { MultiplierSound(s, p, e, w1, w2); }
  }

  /** The dedicated matcher accepts at `p` with group end `e` exactly when the pattern does. */
  lemma MatchAtExact(pat: Pattern, s: string, p: nat, e: nat)
    requires p <= e <= |s|
    ensures MatchAt(pat, s, p) == Some(e) <==> Shape(pat, s, p, e)
  {
    match pat
    case Action => AlternativeExact(s, p, e, "buy", "sell");
    case OptionType => AlternativeExact(s, p, e, "call", "put");
    case Ticker => TickerExact(s, p, e);
    case Expiry => ExpiryExact(s, p, e);
    case Delta => DeltaExact(s, p, e);
    case StopLoss => MultiplierExact(s, p, e, "stop", "loss");
    case TakeProfit => MultiplierExact(s, p, e, "take", "profit");
  }

  // ---------------------------------------------------------------------------
  // `match` finds the leftmost position at which the pattern matches.

  /** `i` is the leftmost position at which `pat` matches. */
  ghost predicate FirstMatchAt(pat: Pattern, s: string, i: nat) {
    i <= |s| && MatchAt(pat, s, i).Some? && forall j :: 0 <= j < i ==> MatchAt(pat, s, j).None?
  }

  lemma {:induction false} FirstHitNone(hit: nat -> Option<nat>, p: nat, n: nat)
    requires p <= n
    ensures FirstHit(hit, p, n).None? <==> forall i :: p <= i <= n ==> hit(i).None?
    decreases n - p
  {
    if hit(p).None? && p < n {
      FirstHitNone(hit, p + 1, n);
    }
  }

  lemma {:induction false} FirstHitLeast(hit: nat -> Option<nat>, p: nat, n: nat)
    requires p <= n && FirstHit(hit, p, n).Some?
    ensures forall j :: p <= j < FirstHit(hit, p, n).value ==> hit(j).None?
    decreases n - p
  {
    if hit(p).None? {
      FirstHitLeast(hit, p + 1, n);
    }
  }

  lemma {:induction false} FirstHitAt(hit: nat -> Option<nat>, p: nat, n: nat, i: nat)
    requires p <= i <= n && hit(i).Some?
    requires forall j :: p <= j < i ==> hit(j).None?
    ensures FirstHit(hit, p, n) == Some(i)
    decreases i - p
  {
    if p < i {
      assert hit(p).None?;
      FirstHitAt(hit, p + 1, n, i);
    }
  }

  /**
   * `Find` is the group of the leftmost match: it fails exactly when the
   * pattern matches nowhere, and otherwise captures at the first position
   * where it matches.
   */
  lemma FindIsLeftmost(pat: Pattern, s: string)
    ensures Find(pat, s).None? <==> forall i :: 0 <= i <= |s| ==> MatchAt(pat, s, i).None?
    ensures Find(pat, s).Some? ==>
              exists i: nat :: FirstMatchAt(pat, s, i) && Find(pat, s).value == Capture(pat, s, i)
  {
    var hit := Hits(pat, s);
    FirstHitNone(hit, 0, |s|);
    forall i | 0 <= i <= |s|
      ensures hit(i) == MatchAt(pat, s, i)
    {
    }
    if Find(pat, s).Some? {
      var i := FirstHit(hit, 0, |s|).value;
      FirstHitLeast(hit, 0, |s|);
      assert FirstMatchAt(pat, s, i);
    }
  }

  /** Conversely, the first position that matches decides what `Find` captures. */
  lemma FindAtFirstMatch(pat: Pattern, s: string, i: nat)
    requires FirstMatchAt(pat, s, i)
    ensures Find(pat, s) == Some(Capture(pat, s, i))
  {
    var hit := Hits(pat, s);
    forall j | 0 <= j < i
      ensures hit(j).None?
    {
    }
    FirstHitAt(hit, 0, |s|, i);
  }

  // ---------------------------------------------------------------------------
  // What a captured group looks like.

  ghost predicate CaptureForm(pat: Pattern, c: string) {
    match pat
    case Action => CiEquals(c, "buy") || CiEquals(c, "sell")
    case OptionType => CiEquals(c, "call") || CiEquals(c, "put")
    case Ticker => 1 <= |c| <= 5 && AllIn(c, Upper)
    case Expiry =>
      |c| == 10 && AllIn(c[..4], Digit) && c[4] == '-' && AllIn(c[5..7], Digit) && c[7] == '-'
      && AllIn(c[8..], Digit)
    case Delta => IsDecimal(c)
    case StopLoss => IsDecimal(c)
    case TakeProfit => IsDecimal(c)
  }

  lemma ShapeCapture(pat: Pattern, s: string, p: nat, e: nat)
    requires p <= e <= |s| && Shape(pat, s, p, e)
    ensures CaptureForm(pat, s[p..e])
  {
    if pat == Expiry {
      var c := s[p..e];
      assert c[..4] == s[p..p + 4];
      assert c[5..7] == s[p + 5..p + 7];
      assert c[8..] == s[p + 8..p + 10];
    }
  }

  /**
   * A captured field has the form its group describes and is text copied out
   * of the input: the parser never invents a value.
   */
  lemma FindCapture(pat: Pattern, s: string)
    requires Find(pat, s).Some?
    ensures CaptureForm(pat, Find(pat, s).value)
    ensures Includes(s, Find(pat, s).value)
  {
    FindIsLeftmost(pat, s);
    var i: nat :| FirstMatchAt(pat, s, i) && Find(pat, s).value == Capture(pat, s, i);
    var e := MatchAt(pat, s, i).value;
    MatchAtExact(pat, s, i, e);
    ShapeCapture(pat, s, i, e);
    assert OccursAt(s, s[i..e], i);
    IncludesMeans(s, s[i..e]);
  }

  /** Every captured group is non-empty, so a found field is always truthy. */
  lemma FindNonEmpty(pat: Pattern, s: string)
    requires Find(pat, s).Some?
    ensures Find(pat, s).value != ""
  {
    FindIsLeftmost(pat, s);
  }
}
