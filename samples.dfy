/**
 * The matchers and the classifier on concrete texts: the recommendation line
 * of the default reply, a prompt the enhanced gate accepts and the original
 * gate rejects, the messages the three buttons send and the openings of the
 * replies.
 */
module Samples {
  import opened Wrappers
  import opened Text
  import opened Patterns
  import opened PatternFacts
  import opened TradePrompt
  import PromptManager
  import EnhancedPrompts
  import opened ContextManager
  import opened Relay
  import opened MockDeepseek

  // ---------------------------------------------------------------------------
  // Reading positions of a concrete text

  /** `s` holds `w` at `p`. */
  lemma SliceIs(s: string, p: nat, w: string)
    requires p + |w| <= |s|
    requires forall k :: 0 <= k < |w| ==> s[p + k] == w[k]
    ensures s[p..p + |w|] == w
  {
  }

  /** No match of a pattern that needs a word boundary where there is none. */
  lemma NoBoundaryNoMatch(pat: Pattern, s: string, j: nat)
    requires pat == Action || pat == OptionType || pat == Ticker || pat == Expiry
    requires j <= |s| && !Boundary(s, j)
    ensures MatchAt(pat, s, j).None?
  {
  }

  /** The numeric patterns start with a digit. */
  lemma NonDigitNoMatch(pat: Pattern, s: string, j: nat)
    requires pat == Expiry || pat == Delta || pat == StopLoss || pat == TakeProfit
    requires j <= |s| && (j == |s| || !IsDigit(s[j]))
    ensures MatchAt(pat, s, j).None?
  {
    assert RunEnd(s, j, Digit) == j;
  }

  /** A run of digits ended by something other than a point is not a decimal. */
  lemma DigitsNoDecimal(pat: Pattern, s: string, j: nat, q: nat)
    requires pat == Delta || pat == StopLoss || pat == TakeProfit
    requires j < q < |s| && (forall k :: j <= k < q ==> IsDigit(s[k])) && !IsDigit(s[q]) && s[q] != '.'
    ensures MatchAt(pat, s, j).None?
  {
    RunEndUnique(s, j, Digit, q);
  }

  /** A decimal not followed by `x` starts no multiplier. */
  lemma DecimalWithoutX(pat: Pattern, s: string, j: nat, r: nat)
    requires pat == StopLoss || pat == TakeProfit
    requires j <= |s| && DecimalEnd(s, j) == Some(r) && r < |s| && ToLower(s[r]) != 'x'
    ensures MatchAt(pat, s, j).None?
  {
  }

  /** A decimal followed by something other than spaces and `delta` is no delta. */
  lemma DecimalWithoutDelta(s: string, j: nat, r: nat, t: nat)
    requires j <= |s| && DecimalEnd(s, j) == Some(r) && RunEnd(s, r, Space) == t
    requires t < |s| && ToLower(s[t]) != 'd'
    ensures MatchAt(Delta, s, j).None?
  {
    if LiteralAt(s, t, "delta") {
      LiteralHead(s, t, "delta");
    }
  }

  /** Only a (lowered) `b` or `s` can start an action word. */
  lemma ActionNotAt(s: string, j: nat)
    requires j < |s| && s[j] != 'b' && s[j] != 'B' && s[j] != 's' && s[j] != 'S'
    ensures MatchAt(Action, s, j).None?
  {
    if LiteralAt(s, j, "buy") {
      LiteralHead(s, j, "buy");
    }
    if LiteralAt(s, j, "sell") {
      LiteralHead(s, j, "sell");
    }
  }

  /** Only a (lowered) `c` or `p` can start an option type word. */
  lemma OptionTypeNotAt(s: string, j: nat)
    requires j < |s| && s[j] != 'c' && s[j] != 'C' && s[j] != 'p' && s[j] != 'P'
    ensures MatchAt(OptionType, s, j).None?
  {
    if LiteralAt(s, j, "call") {
      LiteralHead(s, j, "call");
    }
    if LiteralAt(s, j, "put") {
      LiteralHead(s, j, "put");
    }
  }

  /** A ticker starts with an uppercase letter. */
  lemma TickerNotUpper(s: string, j: nat)
    requires j <= |s| && (j == |s| || !IsUpper(s[j]))
    ensures MatchAt(Ticker, s, j).None?
  {
    assert RunEnd(s, j, Upper) == j;
  }

  /** An uppercase run that ends inside a word is no ticker. */
  lemma TickerRunInWord(s: string, j: nat, e: nat)
    requires j < e <= |s| && (forall k :: j <= k < e ==> IsUpper(s[k]))
    requires e < |s| ==> !IsUpper(s[e])
    requires !Boundary(s, e)
    ensures MatchAt(Ticker, s, j).None?
  {
    RunEndUnique(s, j, Upper, e);
  }

  /** A whole word spelled `t` at `p` that folds to buy or sell is an action. */
  lemma ActionAt(s: string, p: nat, t: string)
    requires Lower(t) == "buy" || Lower(t) == "sell"
    requires p + |t| <= |s| && s[p..p + |t|] == t && Boundary(s, p) && Boundary(s, p + |t|)
    ensures MatchAt(Action, s, p) == Some(p + |t|)
  {
    AlternativeExact(s, p, p + |t|, "buy", "sell");
  }

  /** A whole word spelled `t` at `p` that folds to call or put is an option type. */
  lemma OptionTypeAt(s: string, p: nat, t: string)
    requires Lower(t) == "call" || Lower(t) == "put"
    requires p + |t| <= |s| && s[p..p + |t|] == t && Boundary(s, p) && Boundary(s, p + |t|)
    ensures MatchAt(OptionType, s, p) == Some(p + |t|)
  {
    AlternativeExact(s, p, p + |t|, "call", "put");
  }

  /** A pattern that matches somewhere is found. */
  lemma FoundSomewhere(pat: Pattern, s: string, i: nat)
    requires i <= |s| && MatchAt(pat, s, i).Some?
    ensures Find(pat, s).Some?
  {
    FindIsLeftmost(pat, s);
  }

  /** The leftmost match, at `i`, captures `w`. */
  lemma FoundAt(pat: Pattern, s: string, i: nat, w: string)
    requires i + |w| <= |s| && MatchAt(pat, s, i) == Some(i + |w|) && s[i..i + |w|] == w
    requires forall j :: 0 <= j < i ==> MatchAt(pat, s, j).None?
    ensures Find(pat, s) == Some(w)
  {
    FindAtFirstMatch(pat, s, i);
    assert Capture(pat, s, i) == s[i..i + |w|];
  }

  // ---------------------------------------------------------------------------
  // The recommendation line of the default reply

  lemma LineOpening()
    ensures |RecommendationLine| == 79
    ensures forall k :: 0 <= k < 9 ==> !IsDigit(RecommendationLine[k])
  {
  }

  lemma LineYear()
    ensures |RecommendationLine| == 79
    ensures forall k :: 9 <= k < 13 ==> IsDigit(RecommendationLine[k])
  {
  }

  lemma LineMonthDay()
    ensures |RecommendationLine| == 79
    ensures RecommendationLine[13] == '-' && RecommendationLine[16] == '-'
    ensures forall k :: 14 <= k < 16 ==> IsDigit(RecommendationLine[k])
    ensures forall k :: 17 <= k < 19 ==> IsDigit(RecommendationLine[k])
    ensures RecommendationLine[19] == ' '
  {
  }

  lemma LineDate()
    ensures |RecommendationLine| == 79
    ensures forall k :: 9 <= k < 13 ==> IsDigit(RecommendationLine[k])
    ensures RecommendationLine[13] == '-' && RecommendationLine[16] == '-'
    ensures forall k :: 14 <= k < 16 ==> IsDigit(RecommendationLine[k])
    ensures forall k :: 17 <= k < 19 ==> IsDigit(RecommendationLine[k])
    ensures RecommendationLine[19] == ' '
  {
    LineYear();
    LineMonthDay();
  }

  lemma LineChars()
    ensures |RecommendationLine| == 79
    ensures forall k :: 0 <= k < 9 ==> !IsDigit(RecommendationLine[k])
    ensures forall k :: 9 <= k < 13 ==> IsDigit(RecommendationLine[k])
    ensures RecommendationLine[13] == '-' && RecommendationLine[16] == '-'
    ensures forall k :: 14 <= k < 16 ==> IsDigit(RecommendationLine[k])
    ensures forall k :: 17 <= k < 19 ==> IsDigit(RecommendationLine[k])
    ensures RecommendationLine[19] == ' '
  {
    LineOpening();
    LineDate();
  }

  lemma LineActionAt()
    ensures MatchAt(Action, RecommendationLine, 0) == Some(4)
    ensures RecommendationLine[0..4] == "Sell"
  {
    SliceIs(RecommendationLine, 0, "Sell");
    assert Lower("Sell") == "sell";
    assert RecommendationLine[0] == 'S' && RecommendationLine[3] == 'l' && RecommendationLine[4] == ' ';
    ActionAt(RecommendationLine, 0, "Sell");
  }

  lemma LineAction()
    ensures Find(Action, RecommendationLine) == Some("Sell")
  {
    LineActionAt();
    FoundAt(Action, RecommendationLine, 0, "Sell");
  }

  lemma LineTickerAt()
    ensures MatchAt(Ticker, RecommendationLine, 5) == Some(8)
    ensures RecommendationLine[5..8] == "SPY"
  {
    RunEndUnique(RecommendationLine, 5, Upper, 8);
    SliceIs(RecommendationLine, 5, "SPY");
  }

  /** "Sell" opens with an uppercase letter, but inside a word. */
  lemma LineNoTickerBefore5(j: nat)
    requires j < 5
    ensures MatchAt(Ticker, RecommendationLine, j).None?
  {
    if j == 0 {
      TickerRunInWord(RecommendationLine, 0, 1);
    } else if j < 4 {
      NoBoundaryNoMatch(Ticker, RecommendationLine, j);
    } else {
      TickerNotUpper(RecommendationLine, j);
    }
  }

  lemma LineTicker()
    ensures Find(Ticker, RecommendationLine) == Some("SPY")
  {
    LineTickerAt();
    forall j | 0 <= j < 5
      ensures MatchAt(Ticker, RecommendationLine, j).None?
    {
      LineNoTickerBefore5(j);
    }
    FoundAt(Ticker, RecommendationLine, 5, "SPY");
  }

  lemma LineExpiry()
    ensures Find(Expiry, RecommendationLine) == Some("2025-06-20")
  {
    var s := RecommendationLine;
    LineChars();
    RunEndUnique(s, 9, Digit, 13);
    RunEndUnique(s, 14, Digit, 16);
    RunEndUnique(s, 17, Digit, 19);
    assert MatchAt(Expiry, s, 9) == Some(19);
    forall j | 0 <= j < 9
      ensures MatchAt(Expiry, s, j).None?
    {
      NonDigitNoMatch(Expiry, s, j);
    }
    FindAtFirstMatch(Expiry, s, 9);
    SliceIs(s, 9, "2025-06-20");
  }

  /** Positions before the first decimal: none starts a numeric group. */
  lemma LineNoDecimalBefore20(pat: Pattern, j: nat)
    requires pat == Delta || pat == StopLoss || pat == TakeProfit
    requires j < 20
    ensures MatchAt(pat, RecommendationLine, j).None?
  {
    LineChars();
    if j < 9 || j == 13 || j == 16 || j == 19 {
      NonDigitNoMatch(pat, RecommendationLine, j);
    } else if j < 13 {
      DigitsNoDecimal(pat, RecommendationLine, j, 13);
    } else if j < 16 {
      DigitsNoDecimal(pat, RecommendationLine, j, 16);
    } else {
      DigitsNoDecimal(pat, RecommendationLine, j, 19);
    }
  }

  lemma LineDecimal20()
    ensures DecimalEnd(RecommendationLine, 20) == Some(23)
  {
    DecimalAt(RecommendationLine, 20, 21, 23);
  }

  lemma LineDecimal44()
    ensures DecimalEnd(RecommendationLine, 44) == Some(47)
  {
    DecimalAt(RecommendationLine, 44, 45, 47);
  }

  lemma LineDecimal63()
    ensures DecimalEnd(RecommendationLine, 63) == Some(66)
  {
    DecimalAt(RecommendationLine, 63, 64, 66);
  }

  /** The words after each number of the line. */
  lemma LineDeltaWord()
    ensures RunEnd(RecommendationLine, 23, Space) == 24 && LiteralAt(RecommendationLine, 24, "delta")
  {
    RunEndUnique(RecommendationLine, 23, Space, 24);
    SliceIs(RecommendationLine, 24, "delta");
    assert Lower("delta") == "delta";
  }

  lemma LineStopWord()
    ensures RunEnd(RecommendationLine, 48, Space) == 49 && LiteralAt(RecommendationLine, 49, "stop")
  {
    RunEndUnique(RecommendationLine, 48, Space, 49);
    SliceIs(RecommendationLine, 49, "stop");
    assert Lower("stop") == "stop";
  }

  lemma LineLossWord()
    ensures RunEnd(RecommendationLine, 53, Space) == 54 && LiteralAt(RecommendationLine, 54, "loss")
  {
    RunEndUnique(RecommendationLine, 53, Space, 54);
    SliceIs(RecommendationLine, 54, "loss");
    assert Lower("loss") == "loss";
  }

  lemma LineStopLossWords()
    ensures RunEnd(RecommendationLine, 48, Space) == 49 && LiteralAt(RecommendationLine, 49, "stop")
    ensures RunEnd(RecommendationLine, 53, Space) == 54 && LiteralAt(RecommendationLine, 54, "loss")
  {
    LineStopWord();
    LineLossWord();
  }

  lemma LineTakeWord()
    ensures RunEnd(RecommendationLine, 67, Space) == 68 && LiteralAt(RecommendationLine, 68, "take")
  {
    RunEndUnique(RecommendationLine, 67, Space, 68);
    SliceIs(RecommendationLine, 68, "take");
    assert Lower("take") == "take";
  }

  lemma LineProfitWord()
    ensures RunEnd(RecommendationLine, 72, Space) == 73 && LiteralAt(RecommendationLine, 73, "profit")
  {
    RunEndUnique(RecommendationLine, 72, Space, 73);
    SliceIs(RecommendationLine, 73, "profit");
    assert Lower("profit") == "profit";
  }

  lemma LineTakeProfitWords()
    ensures RunEnd(RecommendationLine, 67, Space) == 68 && LiteralAt(RecommendationLine, 68, "take")
    ensures RunEnd(RecommendationLine, 72, Space) == 73 && LiteralAt(RecommendationLine, 73, "profit")
  {
    LineTakeWord();
    LineProfitWord();
  }

  lemma LineTextBefore44(k: nat)
    requires 23 <= k < 44
    ensures !IsDigit(RecommendationLine[k])
  {
  }

  lemma LineTextBefore63(k: nat)
    requires 47 <= k < 63
    ensures !IsDigit(RecommendationLine[k])
  {
  }

  lemma LineNoOptionLetter(k: nat)
    requires k < 30 && k != 6
    ensures RecommendationLine[k] != 'c' && RecommendationLine[k] != 'C'
    ensures RecommendationLine[k] != 'p' && RecommendationLine[k] != 'P'
  {
  }

  lemma LineDeltaAt()
    ensures MatchAt(Delta, RecommendationLine, 20) == Some(23)
    ensures RecommendationLine[20..23] == "0.3"
  {
    LineDecimal20();
    LineDeltaWord();
    SliceIs(RecommendationLine, 20, "0.3");
  }

  lemma LineDelta()
    ensures Find(Delta, RecommendationLine) == Some("0.3")
  {
    LineDeltaAt();
    forall j | 0 <= j < 20
      ensures MatchAt(Delta, RecommendationLine, j).None?
    {
      LineNoDecimalBefore20(Delta, j);
    }
    FoundAt(Delta, RecommendationLine, 20, "0.3");
  }


  lemma LineOptionTypeAt()
    ensures MatchAt(OptionType, RecommendationLine, 30) == Some(33)
    ensures RecommendationLine[30..33] == "Put"
  {
    SliceIs(RecommendationLine, 30, "Put");
    assert Lower("Put") == "put";
    assert RecommendationLine[29] == ' ' && RecommendationLine[32] == 't' && RecommendationLine[33] == ' ';
    OptionTypeAt(RecommendationLine, 30, "Put");
  }

  lemma LineNoOptionTypeBefore30(j: nat)
    requires j < 30
    ensures MatchAt(OptionType, RecommendationLine, j).None?
  {
    if j == 6 {
      NoBoundaryNoMatch(OptionType, RecommendationLine, j);
    } else {
      LineNoOptionLetter(j);
      OptionTypeNotAt(RecommendationLine, j);
    }
  }

  lemma LineOptionType()
    ensures Find(OptionType, RecommendationLine) == Some("Put")
  {
    LineOptionTypeAt();
    forall j | 0 <= j < 30
      ensures MatchAt(OptionType, RecommendationLine, j).None?
    {
      LineNoOptionTypeBefore30(j);
    }
    FoundAt(OptionType, RecommendationLine, 30, "Put");
  }


  lemma LineFirstNumber()
    ensures |RecommendationLine| == 79
    ensures RecommendationLine[21] == '.' && IsDigit(RecommendationLine[22]) && RecommendationLine[23] == ' '
  {
  }

  /** The first number of the line is followed by ` delta`, not by `x`. */
  lemma LineNoMultiplierAt20(pat: Pattern)
    requires pat == StopLoss || pat == TakeProfit
    ensures MatchAt(pat, RecommendationLine, 20).None?
  {
    LineDecimal20();
    DecimalWithoutX(pat, RecommendationLine, 20, 23);
  }

  lemma LineNoMultiplierIn23To44(pat: Pattern, j: nat)
    requires pat == StopLoss || pat == TakeProfit
    requires 23 <= j < 44
    ensures MatchAt(pat, RecommendationLine, j).None?
  {
    LineTextBefore44(j);
    NonDigitNoMatch(pat, RecommendationLine, j);
  }

  /** Positions before the stop-loss multiplier: none starts a multiplier group. */
  lemma LineNoMultiplierBefore44(pat: Pattern, j: nat)
    requires pat == StopLoss || pat == TakeProfit
    requires j < 44
    ensures MatchAt(pat, RecommendationLine, j).None?
  {
    if j < 20 {
      LineNoDecimalBefore20(pat, j);
    } else if j == 20 {
      LineNoMultiplierAt20(pat);
    } else if j == 21 {
      LineFirstNumber();
      NonDigitNoMatch(pat, RecommendationLine, j);
    } else if j == 22 {
      LineFirstNumber();
      DigitsNoDecimal(pat, RecommendationLine, 22, 23);
    } else {
      LineNoMultiplierIn23To44(pat, j);
    }
  }

  lemma LineStopLossAt()
    ensures MatchAt(StopLoss, RecommendationLine, 44) == Some(47)
    ensures RecommendationLine[44..47] == "2.5"
  {
    LineDecimal44();
    LineStopLossWords();
    SliceIs(RecommendationLine, 44, "2.5");
  }

  lemma LineStopLoss()
    ensures Find(StopLoss, RecommendationLine) == Some("2.5")
  {
    LineStopLossAt();
    forall j | 0 <= j < 44
      ensures MatchAt(StopLoss, RecommendationLine, j).None?
    {
      LineNoMultiplierBefore44(StopLoss, j);
    }
    FoundAt(StopLoss, RecommendationLine, 44, "2.5");
  }


  /** Positions before the take-profit multiplier: the stop-loss one is followed by the wrong words. */
  lemma LineNoTakeProfitBefore63(j: nat)
    requires j < 63
    ensures MatchAt(TakeProfit, RecommendationLine, j).None?
  {
    if j < 44 {
      LineNoMultiplierBefore44(TakeProfit, j);
    } else if j == 44 {
      LineDecimal44();
      LineStopLossWords();
      assert !LiteralAt(RecommendationLine, 49, "take");
    } else if j == 46 {
      DigitsNoDecimal(TakeProfit, RecommendationLine, 46, 47);
    } else {
      if j >= 47 {
        LineTextBefore63(j);
      }
      NonDigitNoMatch(TakeProfit, RecommendationLine, j);
    }
  }

  lemma LineTakeProfitAt()
    ensures MatchAt(TakeProfit, RecommendationLine, 63) == Some(66)
    ensures RecommendationLine[63..66] == "0.2"
  {
    LineDecimal63();
    LineTakeProfitWords();
    SliceIs(RecommendationLine, 63, "0.2");
  }

  lemma LineTakeProfit()
    ensures Find(TakeProfit, RecommendationLine) == Some("0.2")
  {
    LineTakeProfitAt();
    forall j | 0 <= j < 63
      ensures MatchAt(TakeProfit, RecommendationLine, j).None?
    {
      LineNoTakeProfitBefore63(j);
    }
    FoundAt(TakeProfit, RecommendationLine, 63, "0.2");
  }


  /** The trade the recommendation line parses to; both gates accept it. */
  lemma RecommendationLineParses()
    ensures ParseTradePrompt(RecommendationLine)
            == Trade(Some("Sell"), Some("SPY"), Some("2025-06-20"), Some("0.3"), Some("2.5"), Some("0.2"), Some("Put"))
    ensures PromptManager.ContainsTradePrompt(RecommendationLine)
    ensures EnhancedPrompts.ContainsTradePrompt(RecommendationLine)
  {
    LineAction();
    LineTicker();
    LineExpiry();
    LineDelta();
    LineStopLoss();
    LineTakeProfit();
    LineOptionType();
  }

  // ---------------------------------------------------------------------------
  // A prompt with an expiry but no delta

  /** A trade prompt that names an expiry instead of a delta, and no ticker. */
  const ExpiryNoDelta: string := "Buy " + "Call " + "2025-06-20 " + "2.5x " + "stop " + "loss"

  lemma ExpiryNoDeltaChars()
    ensures |ExpiryNoDelta| == 34
    ensures forall k :: 0 <= k < 9 ==> !IsDigit(ExpiryNoDelta[k])
    ensures forall k :: 9 <= k < 13 ==> IsDigit(ExpiryNoDelta[k])
    ensures forall k :: 14 <= k < 16 ==> IsDigit(ExpiryNoDelta[k])
    ensures forall k :: 17 <= k < 19 ==> IsDigit(ExpiryNoDelta[k])
    ensures forall k :: 23 <= k < 34 ==> !IsDigit(ExpiryNoDelta[k])
    ensures ExpiryNoDelta[13] == '-' && ExpiryNoDelta[16] == '-' && ExpiryNoDelta[19] == ' '
    ensures ExpiryNoDelta[21] == '.' && ExpiryNoDelta[23] == 'x'
    ensures forall k :: 0 <= k < 34 && k != 0 && k != 4 ==> !IsUpper(ExpiryNoDelta[k])
  {
  }

  lemma ExpiryNoDeltaAction()
    ensures MatchAt(Action, ExpiryNoDelta, 0).Some?
  {
    SliceIs(ExpiryNoDelta, 0, "Buy");
    assert Lower("Buy") == "buy";
    assert ExpiryNoDelta[2] == 'y' && ExpiryNoDelta[3] == ' ';
    ActionAt(ExpiryNoDelta, 0, "Buy");
  }

  lemma ExpiryNoDeltaOptionType()
    ensures MatchAt(OptionType, ExpiryNoDelta, 4).Some?
  {
    SliceIs(ExpiryNoDelta, 4, "Call");
    assert Lower("Call") == "call";
    assert ExpiryNoDelta[3] == ' ' && ExpiryNoDelta[7] == 'l' && ExpiryNoDelta[8] == ' ';
    OptionTypeAt(ExpiryNoDelta, 4, "Call");
  }


  lemma ExpiryNoDeltaExpiry()
    ensures MatchAt(Expiry, ExpiryNoDelta, 9).Some?
  {
    ExpiryNoDeltaChars();
    RunEndUnique(ExpiryNoDelta, 9, Digit, 13);
    RunEndUnique(ExpiryNoDelta, 14, Digit, 16);
    RunEndUnique(ExpiryNoDelta, 17, Digit, 19);
  }

  lemma ExpiryNoDeltaStopWord()
    ensures RunEnd(ExpiryNoDelta, 24, Space) == 25 && LiteralAt(ExpiryNoDelta, 25, "stop")
  {
    RunEndUnique(ExpiryNoDelta, 24, Space, 25);
    SliceIs(ExpiryNoDelta, 25, "stop");
    assert Lower("stop") == "stop";
  }

  lemma ExpiryNoDeltaLossWord()
    ensures RunEnd(ExpiryNoDelta, 29, Space) == 30 && LiteralAt(ExpiryNoDelta, 30, "loss")
  {
    RunEndUnique(ExpiryNoDelta, 29, Space, 30);
    SliceIs(ExpiryNoDelta, 30, "loss");
    assert Lower("loss") == "loss";
  }

  lemma ExpiryNoDeltaStopLoss()
    ensures MatchAt(StopLoss, ExpiryNoDelta, 20).Some?
  {
    DecimalAt(ExpiryNoDelta, 20, 21, 23);
    ExpiryNoDeltaStopWord();
    ExpiryNoDeltaLossWord();
  }

  lemma ExpiryNoDeltaNoDeltaAt(j: nat)
    requires j <= |ExpiryNoDelta|
    ensures MatchAt(Delta, ExpiryNoDelta, j).None?
  {
    ExpiryNoDeltaChars();
    if j == 20 {
      DecimalAt(ExpiryNoDelta, 20, 21, 23);
      RunEndUnique(ExpiryNoDelta, 23, Space, 23);
      DecimalWithoutDelta(ExpiryNoDelta, 20, 23, 23);
    } else if j == 22 {
      DigitsNoDecimal(Delta, ExpiryNoDelta, 22, 23);
    } else if 9 <= j < 13 {
      DigitsNoDecimal(Delta, ExpiryNoDelta, j, 13);
    } else if 14 <= j < 16 {
      DigitsNoDecimal(Delta, ExpiryNoDelta, j, 16);
    } else if 17 <= j < 19 {
      DigitsNoDecimal(Delta, ExpiryNoDelta, j, 19);
    } else {
      assert ExpiryNoDelta[20] == '2' && ExpiryNoDelta[21] == '.';
      NonDigitNoMatch(Delta, ExpiryNoDelta, j);
    }
  }

  lemma ExpiryNoDeltaNoTickerAt(j: nat)
    requires j <= |ExpiryNoDelta|
    ensures MatchAt(Ticker, ExpiryNoDelta, j).None?
  {
    ExpiryNoDeltaChars();
    if j == 0 {
      TickerRunInWord(ExpiryNoDelta, 0, 1);
    } else if j == 4 {
      TickerRunInWord(ExpiryNoDelta, 4, 5);
    } else {
      TickerNotUpper(ExpiryNoDelta, j);
    }
  }

  /**
   * The enhanced gate accepts a prompt with an expiry and no delta, and the
   * classifier calls it a decision, but the original gate rejects it; and
   * since it names no ticker, the decision panel for it is null.
   */
  lemma GatesDiffer()
    ensures EnhancedPrompts.ContainsTradePrompt(ExpiryNoDelta)
    ensures !PromptManager.ContainsTradePrompt(ExpiryNoDelta)
    ensures EnhancedPrompts.DeterminePhase(ExpiryNoDelta, None) == EnhancedPrompts.Decision
    ensures ParseTradePrompt(ExpiryNoDelta).ticker.None?
    ensures EnhancedPrompts.FormatTradePrompt(ParseTradePrompt(ExpiryNoDelta), "decision").None?
  {
    ExpiryNoDeltaAction();
    ExpiryNoDeltaOptionType();
    ExpiryNoDeltaExpiry();
    ExpiryNoDeltaStopLoss();
    FoundSomewhere(Action, ExpiryNoDelta, 0);
    FoundSomewhere(OptionType, ExpiryNoDelta, 4);
    FoundSomewhere(Expiry, ExpiryNoDelta, 9);
    FoundSomewhere(StopLoss, ExpiryNoDelta, 20);
    forall j | 0 <= j <= |ExpiryNoDelta|
      ensures MatchAt(Delta, ExpiryNoDelta, j).None?
    {
      ExpiryNoDeltaNoDeltaAt(j);
    }
    FindIsLeftmost(Delta, ExpiryNoDelta);
    forall j | 0 <= j <= |ExpiryNoDelta|
      ensures MatchAt(Ticker, ExpiryNoDelta, j).None?
    {
      ExpiryNoDeltaNoTickerAt(j);
    }
    FindIsLeftmost(Ticker, ExpiryNoDelta);
  }

  // ---------------------------------------------------------------------------
  // The canned replies and the canned accept message

  /** A text that opens with the word "I" has "I" as its first ticker-shaped word. */
  lemma OpensWithI(s: string)
    requires |s| >= 2 && s[0] == 'I' && s[1] == ' '
    ensures Find(Ticker, s) == Some("I")
    ensures TickerUpdate(s).None?
  {
    RunEndUnique(s, 0, Upper, 1);
    assert MatchAt(Ticker, s, 0) == Some(1);
    FindAtFirstMatch(Ticker, s, 0);
    assert s[0..1] == "I";
  }

  /** Without a ticker to set, the update has no ticker key. */
  lemma NoTickerKey(response: string)
    requires TickerUpdate(response).None?
    ensures "ticker" !in ContextUpdates(response)
  {
    UpdatesOfFields(None, Find(Expiry, response), Find(Delta, response),
                    Find(StopLoss, response), Find(TakeProfit, response));
  }

  lemma DefaultReplyTicker()
    ensures ParseTradePrompt(DefaultReply).ticker == Some("I")
    ensures "ticker" !in ContextUpdates(DefaultReply)
  {
    OpensWithI(DefaultReply);
    NoTickerKey(DefaultReply);
  }

  lemma RejectReplyTicker()
    ensures "ticker" !in ContextUpdates(RejectReply)
  {
    OpensWithI(RejectReply);
    NoTickerKey(RejectReply);
  }

  lemma ModifyReplyTicker()
    ensures "ticker" !in ContextUpdates(ModifyReply)
  {
    OpensWithI(ModifyReply);
    NoTickerKey(ModifyReply);
  }

  /** The alternative line holds SPY as an uppercase whole word at position 4. */
  lemma AlternativeLineSpy()
    ensures |AlternativeLine| > 8 && AlternativeLine[3] == ' ' && AlternativeLine[7] == ' '
    ensures AlternativeLine[4..7] == "SPY"
  {
    SliceIs(AlternativeLine, 4, "SPY");
  }

  /**
   * The reject reply names the allowed ticker SPY, as an uppercase whole
   * word, after its opening "I".
   */
  lemma RejectReplyNamesSpy()
    ensures 88 <= |RejectReply| && MatchAt(Ticker, RejectReply, 88).Some?
    ensures Capture(Ticker, RejectReply, 88) == "SPY" && "SPY" in AllowedTickers
  {
    RejectReplyAround88();
    RunEndUnique(RejectReply, 88, Upper, 91);
  }

  lemma RejectReplyAround88()
    ensures |RejectReply| > 92 && RejectReply[87] == ' ' && RejectReply[91] == ' '
    ensures RejectReply[88..91] == "SPY"
  {
    assert |RejectOpening| == 84;
    AlternativeLineSpy();
    var tail := AlternativeLine + RejectRationale;
    assert tail[3] == ' ' && tail[7] == ' ' && tail[4..7] == "SPY";
  }

  /**
   * The default, reject and modify replies open with "I": the client-side
   * parser reads "I" as the default reply's ticker, and the relay sets no
   * ticker for any of them, although the reject reply names the allowed
   * ticker SPY further on.
   */
  lemma RepliesOpenWithI()
    ensures ParseTradePrompt(DefaultReply).ticker == Some("I")
    ensures "ticker" !in ContextUpdates(DefaultReply)
    ensures "ticker" !in ContextUpdates(RejectReply)
    ensures "ticker" !in ContextUpdates(ModifyReply)
  {
    DefaultReplyTicker();
    RejectReplyTicker();
    ModifyReplyTicker();
  }

  /** No two adjacent characters of `s` fold to `a` followed by `b`. */
  ghost predicate NoFoldedPair(s: string, a: char, b: char) {
    forall i :: 0 <= i < |s| - 1 ==> !(ToLower(s[i]) == a && ToLower(s[i + 1]) == b)
  }

  /** The pair is missing from a concatenation when it is missing from both parts and from their junction. */
  lemma NoFoldedPairConcat(s: string, t: string, a: char, b: char)
    requires NoFoldedPair(s, a, b) && NoFoldedPair(t, a, b)
    requires s != [] && t != [] ==> !(ToLower(s[|s| - 1]) == a && ToLower(t[0]) == b)
    ensures NoFoldedPair(s + t, a, b)
  {
    forall i | 0 <= i < |s + t| - 1
      ensures !(ToLower((s + t)[i]) == a && ToLower((s + t)[i + 1]) == b)
    {
      if i + 1 < |s| {
        assert (s + t)[i] == s[i] && (s + t)[i + 1] == s[i + 1];
      } else if i + 1 == |s| {
        assert (s + t)[i] == s[|s| - 1] && (s + t)[i + 1] == t[0];
      } else {
        assert (s + t)[i] == t[i - |s|] && (s + t)[i + 1] == t[i - |s| + 1];
      }
    }
  }

  /** A word is not contained where two of its adjacent letters never appear side by side, after folding. */
  lemma MissingPairNotIncluded(s: string, w: string, k: nat)
    requires k + 1 < |w|
    requires NoFoldedPair(s, w[k], w[k + 1])
    ensures !IncludesIgnoringCase(s, w)
  {
    var low := Lower(s);
    forall i: nat
      ensures !OccursAt(low, w, i)
    {
      if i + |w| <= |low| {
        assert low[i..i + |w|][k] == ToLower(s[i + k]);
        assert low[i..i + |w|][k + 1] == ToLower(s[i + k + 1]);
      }
    }
    IncludesMeans(low, w);
  }

  /** A word spelled at `p`, after folding, is contained. */
  lemma SpelledIncluded(s: string, w: string, p: nat)
    requires p + |w| <= |s|
    requires forall k :: 0 <= k < |w| ==> ToLower(s[p + k]) == w[k]
    ensures IncludesIgnoringCase(s, w)
  {
    var low := Lower(s);
    SliceIs(low, p, w);
    assert OccursAt(low, w, p);
    IncludesMeans(low, w);
  }

  /** A contained word stays contained when text is appended. */
  lemma IncludedExtends(s: string, t: string, w: string)
    requires IncludesIgnoringCase(s, w)
    ensures IncludesIgnoringCase(s + t, w)
  {
    var ls := Lower(s);
    IncludesMeans(ls, w);
    var i: nat :| OccursAt(ls, w, i);
    forall k | 0 <= k < |w|
      ensures ToLower((s + t)[i + k]) == w[k]
    {
      assert (s + t)[i + k] == s[i + k];
      assert ls[i + k] == ToLower(s[i + k]);
      assert ls[i..i + |w|][k] == ls[i + k];
    }
    SpelledIncluded(s + t, w, i);
  }

  /** A contained word stays contained when text is prepended. */
  lemma IncludedAfter(s: string, t: string, w: string)
    requires IncludesIgnoringCase(t, w)
    ensures IncludesIgnoringCase(s + t, w)
  {
    var lt := Lower(t);
    IncludesMeans(lt, w);
    var i: nat :| OccursAt(lt, w, i);
    forall k | 0 <= k < |w|
      ensures ToLower((s + t)[|s| + i + k]) == w[k]
    {
      assert (s + t)[|s| + i + k] == t[i + k];
      assert lt[i + k] == ToLower(t[i + k]);
      assert lt[i..i + |w|][k] == lt[i + k];
    }
    SpelledIncluded(s + t, w, |s| + i);
  }

  /** The message the accept button sends. */
  const AcceptMessage: string := "I accept this " + "trade recommendation."

  /** The accept button leads to the execution phase whatever the reply said, and the mock answers it with the accept reply. */
  lemma AcceptMessageExecutes(text: string)
    ensures EnhancedPrompts.DeterminePhase(text, Some(AcceptMessage)) == EnhancedPrompts.Execution
    ensures SelectResponse(AcceptMessage) == AcceptReply
  {
    var low := Lower(AcceptMessage);
    SliceIs(low, 2, "accept");
    assert OccursAt(low, "accept", 2);
    IncludesMeans(low, "accept");
  }

  /** The message the reject button sends. */
  const RejectMessage: string := "I reject " + "this trade " + "recommendation. " + "Please suggest " + "an alternative."

  /** The message the modify button sends. */
  const ModifyMessage: string := "I want to " + "modify the " + "parameters " + "of this trade. " + "Can you help " + "me adjust it?"

  /** The reject message has no two adjacent characters folding to `a` then `b`. */
  lemma RejectMessageNoPair(a: char, b: char)
    requires NoFoldedPair("I reject ", a, b) && NoFoldedPair("this trade ", a, b) && NoFoldedPair("recommendation. ", a, b)
    requires NoFoldedPair("Please suggest ", a, b) && NoFoldedPair("an alternative.", a, b)
    requires a != ' '
    ensures NoFoldedPair(RejectMessage, a, b)
  {
    NoFoldedPairConcat("I reject ", "this trade ", a, b);
    NoFoldedPairConcat("I reject " + "this trade ", "recommendation. ", a, b);
    NoFoldedPairConcat("I reject " + "this trade " + "recommendation. ", "Please suggest ", a, b);
    NoFoldedPairConcat("I reject " + "this trade " + "recommendation. " + "Please suggest ", "an alternative.", a, b);
  }

  // One lemma per few pieces keeps each check over a literal short.
  lemma RejectOpeningNoDoubleC()
    ensures NoFoldedPair("I reject ", 'c', 'c') && NoFoldedPair("this trade ", 'c', 'c')
  {
  }

  lemma RejectMiddleNoDoubleC()
    ensures NoFoldedPair("recommendation. ", 'c', 'c')
  {
  }

  lemma RejectClosingNoDoubleC()
    ensures NoFoldedPair("Please suggest ", 'c', 'c') && NoFoldedPair("an alternative.", 'c', 'c')
  {
  }

  /** "accept" has a double c, which the reject message does not have. */
  lemma RejectMessageNoAccept()
    ensures !IncludesIgnoringCase(RejectMessage, "accept")
  {
    RejectOpeningNoDoubleC();
    RejectMiddleNoDoubleC();
    RejectClosingNoDoubleC();
    RejectMessageNoPair('c', 'c');
    MissingPairNotIncluded(RejectMessage, "accept", 1);
  }

  lemma RejectMessageSaysReject()
    ensures IncludesIgnoringCase(RejectMessage, "reject")
  {
    SpelledIncluded("I reject ", "reject", 2);
    IncludedExtends("I reject ", "this trade ", "reject");
    IncludedExtends("I reject " + "this trade ", "recommendation. ", "reject");
    IncludedExtends("I reject " + "this trade " + "recommendation. ", "Please suggest ", "reject");
    IncludedExtends("I reject " + "this trade " + "recommendation. " + "Please suggest ", "an alternative.", "reject");
  }

  /** The modify message has no two adjacent characters folding to `a` then `b`. */
  lemma ModifyMessageNoPair(a: char, b: char)
    requires NoFoldedPair("I want to ", a, b) && NoFoldedPair("modify the ", a, b) && NoFoldedPair("parameters ", a, b)
    requires NoFoldedPair("of this trade. ", a, b) && NoFoldedPair("Can you help ", a, b) && NoFoldedPair("me adjust it?", a, b)
    requires a != ' '
    ensures NoFoldedPair(ModifyMessage, a, b)
  {
    NoFoldedPairConcat("I want to ", "modify the ", a, b);
    NoFoldedPairConcat("I want to " + "modify the ", "parameters ", a, b);
    NoFoldedPairConcat("I want to " + "modify the " + "parameters ", "of this trade. ", a, b);
    NoFoldedPairConcat("I want to " + "modify the " + "parameters " + "of this trade. ", "Can you help ", a, b);
    NoFoldedPairConcat("I want to " + "modify the " + "parameters " + "of this trade. " + "Can you help ", "me adjust it?", a, b);
  }

  lemma ModifyOpeningNoPair(a: char, b: char)
    requires (a, b) == ('c', 'c') || (a, b) == ('j', 'e')
    ensures NoFoldedPair("I want to ", a, b) && NoFoldedPair("modify the ", a, b)
  {
  }

  lemma ModifyMiddleNoPair(a: char, b: char)
    requires (a, b) == ('c', 'c') || (a, b) == ('j', 'e')
    ensures NoFoldedPair("parameters ", a, b) && NoFoldedPair("of this trade. ", a, b)
  {
  }

  lemma ModifyClosingNoPair(a: char, b: char)
    requires (a, b) == ('c', 'c') || (a, b) == ('j', 'e')
    ensures NoFoldedPair("Can you help ", a, b) && NoFoldedPair("me adjust it?", a, b)
  {
  }

  /** "accept" has a double c, which the modify message does not have. */
  lemma ModifyMessageNoAccept()
    ensures !IncludesIgnoringCase(ModifyMessage, "accept")
  {
    ModifyOpeningNoPair('c', 'c');
    ModifyMiddleNoPair('c', 'c');
    ModifyClosingNoPair('c', 'c');
    ModifyMessageNoPair('c', 'c');
    MissingPairNotIncluded(ModifyMessage, "accept", 1);
  }

  /** "reject" has "je", and the only j of the modify message is followed by u. */
  lemma ModifyMessageNoReject()
    ensures !IncludesIgnoringCase(ModifyMessage, "reject")
  {
    ModifyOpeningNoPair('j', 'e');
    ModifyMiddleNoPair('j', 'e');
    ModifyClosingNoPair('j', 'e');
    ModifyMessageNoPair('j', 'e');
    MissingPairNotIncluded(ModifyMessage, "reject", 2);
  }

  lemma ModifyMessageSaysModify()
    ensures IncludesIgnoringCase(ModifyMessage, "modify")
  {
    SpelledIncluded("modify the ", "modify", 0);
    IncludedAfter("I want to ", "modify the ", "modify");
    IncludedExtends("I want to " + "modify the ", "parameters ", "modify");
    IncludedExtends("I want to " + "modify the " + "parameters ", "of this trade. ", "modify");
    IncludedExtends("I want to " + "modify the " + "parameters " + "of this trade. ", "Can you help ", "modify");
    IncludedExtends("I want to " + "modify the " + "parameters " + "of this trade. " + "Can you help ", "me adjust it?", "modify");
  }

  /** The reject button leads back to the recommendation phase whatever the reply said, and the mock answers it with the alternative trade. */
  lemma RejectMessageRecommends(text: string)
    ensures EnhancedPrompts.DeterminePhase(text, Some(RejectMessage)) == EnhancedPrompts.Recommendation
    ensures SelectResponse(RejectMessage) == RejectReply
  {
    RejectMessageNoAccept();
    RejectMessageSaysReject();
  }

  /** The modify button leads back to the recommendation phase whatever the reply said, and the mock answers it with the modified trade. */
  lemma ModifyMessageRecommends(text: string)
    ensures EnhancedPrompts.DeterminePhase(text, Some(ModifyMessage)) == EnhancedPrompts.Recommendation
    ensures SelectResponse(ModifyMessage) == ModifyReply
  {
    ModifyMessageNoAccept();
    ModifyMessageNoReject();
    ModifyMessageSaysModify();
  }
}
