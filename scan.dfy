/**
 * The scanner of scan.py. It makes one left-to-right pass over the text with
 * a cursor, emitting one token per operator, bracket, numeral or letter. A
 * second pass then inserts a Multiply token between exactly five kinds of
 * adjacent pairs (see NeedsMultiply): numeral then letter, numeral then '(',
 * letter then '(', ')' then letter, and ')' then '('.
 *
 * The pure functions (ScanStep, RawTokens, ImplicitMultiply, ScanFrom) are
 * the specification; the class Scanner is the imperative scanner, proved to
 * compute them.
 */
module Scan {
  import opened Wrappers
  import Seqs

  datatype Token =
    | Plus | Minus | Multiply | Divide | Exponent
    | Numeric(num: real)
    | Char(name: string)
    | OpenBracket | CloseBracket
  {
    /** The token's class: what the parser's isinstance tests look at. */
    function Kind(): TokenKind {
      match this
      case Plus => PlusKind
      case Minus => MinusKind
      case Multiply => MultiplyKind
      case Divide => DivideKind
      case Exponent => ExponentKind
      case Numeric(_) => NumericKind
      case Char(_) => CharKind
      case OpenBracket => OpenBracketKind
      case CloseBracket => CloseBracketKind
    }
  }

  datatype TokenKind =
    | PlusKind | MinusKind | MultiplyKind | DivideKind | ExponentKind
    | NumericKind | CharKind | OpenBracketKind | CloseBracketKind

  /** The ValueError float() raises on a malformed numeral such as "1.2.3". */
  datatype ScanError = InvalidNumeral(lexeme: string)

  // Character classes, restricted to ASCII (str.isnumeric, isalpha, isspace).

  predicate IsDigit(c: char) {
    '0' <= c <= '9'
  }

  predicate IsAlpha(c: char) {
    'a' <= c <= 'z' || 'A' <= c <= 'Z'
  }

  predicate IsSpace(c: char) {
    c == ' ' || c == '\t' || c == '\n' || c == '\r' || c as int == 11 || c as int == 12
  }

  /** str.isnumeric on a string: non-empty and all digits. */
  predicate IsNumeric(s: string) {
    |s| > 0 && forall k :: 0 <= k < |s| ==> IsDigit(s[k])
  }

  /** A character that the numeral loop of number() consumes. */
  predicate IsNumeralChar(c: char) {
    IsDigit(c) || c == '.'
  }

  /** The token of a one-character operator or bracket, if c is one. */
  function OperatorToken(c: char): Option<Token> {
    match c
    case '(' => Some(OpenBracket)
    case ')' => Some(CloseBracket)
    case '+' => Some(Plus)
    case '-' => Some(Minus)
    case '*' => Some(Multiply)
    case '/' => Some(Divide)
    case '^' => Some(Exponent)
    case _ => None
  }

  // ---------------------------------------------------------------------
  // Numerals and float()
  // ---------------------------------------------------------------------

  /** Where the maximal run of digits and dots that starts at i ends. */
  function NumeralEnd(text: string, i: nat): (j: nat)
    requires i <= |text|
    ensures i <= j <= |text|
    ensures forall k :: i <= k < j ==> IsNumeralChar(text[k])
    ensures j == |text| || !IsNumeralChar(text[j])
    decreases |text| - i
  {
    if i < |text| && IsNumeralChar(text[i]) then NumeralEnd(text, i + 1) else i
  }

  function DotCount(s: string): nat {
    if s == [] then 0 else (if s[0] == '.' then 1 else 0) + DotCount(s[1..])
  }

  lemma {:induction false} DotCountAppend(a: string, b: string)
    ensures DotCount(a + b) == DotCount(a) + DotCount(b)
  {
    if a == [] {
      assert a + b == b;
    } else {
      assert (a + b)[1..] == a[1..] + b;
      DotCountAppend(a[1..], b);
    }
  }

  lemma {:induction false} DotCountZero(s: string)
    ensures DotCount(s) == 0 <==> '.' !in s
    ensures DotCount(s) <= |s|
  {
    if s != [] {
      DotCountZero(s[1..]);
      assert s == [s[0]] + s[1..];
    }
  }

  /** The index of the first '.' at or after i, or |s| when there is none. */
  function FirstDot(s: string, i: nat): (d: nat)
    requires i <= |s|
    ensures i <= d <= |s|
    ensures forall k :: i <= k < d ==> s[k] != '.'
    ensures d < |s| ==> s[d] == '.'
    decreases |s| - i
  {
    if i == |s| || s[i] == '.' then i else FirstDot(s, i + 1)
  }

  function DigitValue(c: char): nat
    requires IsDigit(c)
  {
    c as int - '0' as int
  }

  /** The number a string of decimal digits denotes. */
  function DigitsValue(s: string): nat
    requires forall k :: 0 <= k < |s| ==> IsDigit(s[k])
  {
    if s == [] then 0 else 10 * DigitsValue(s[..|s| - 1]) + DigitValue(s[|s| - 1])
  }

  function Pow10(n: nat): (p: nat)
    ensures p >= 1
  {
    if n == 0 then 1 else 10 * Pow10(n - 1)
  }

  /**
   * Python's float() on a lexeme made of digits and dots: the decimal number
   * it denotes, or None where float() raises ValueError.
   */
  function ParseFloat(s: string): Option<real>
    requires forall k :: 0 <= k < |s| ==> IsNumeralChar(s[k])
  {
    var d := FirstDot(s, 0);
    if d == |s| then
      assert forall k :: 0 <= k < |s| ==> IsNumeralChar(s[k]) && s[k] != '.';
      assert forall k :: 0 <= k < |s| ==> IsDigit(s[k]);
      if s == [] then None else Some(DigitsValue(s) as real)
    else
      var whole, frac := s[..d], s[d + 1..];
      assert forall k :: 0 <= k < |whole| ==> IsDigit(whole[k]) by {
        assert forall k :: 0 <= k < |whole| ==> whole[k] == s[k] && IsNumeralChar(s[k]) && s[k] != '.';
      }
      assert '.' !in frac ==> forall k :: 0 <= k < |frac| ==> IsDigit(frac[k]) by {
        assert forall k :: 0 <= k < |frac| ==> frac[k] == s[d + 1 + k] && IsNumeralChar(frac[k]);
      }
      if '.' in frac || (whole == [] && frac == []) then None
      else Some(DigitsValue(whole) as real + DigitsValue(frac) as real / Pow10(|frac|) as real)
  }

  /** The dots of a string whose first dot is at d: that one, and those after it. */
  lemma FirstDotCount(s: string, d: nat)
    requires d < |s| && s[d] == '.' && forall k :: 0 <= k < d ==> s[k] != '.'
    ensures DotCount(s) == 1 + DotCount(s[d + 1..])
  {
    var whole, frac := s[..d], s[d + 1..];
    assert s == whole + ([s[d]] + frac);
    DotCountAppend(whole, [s[d]] + frac);
    DotCountAppend([s[d]], frac);
    DotCountZero(whole);
    assert DotCount([s[d]]) == 1;
  }

  /** float() accepts a lexeme of digits and dots exactly when it has at most one dot and some digit. */
  lemma ParseFloatDefined(s: string)
    requires forall k :: 0 <= k < |s| ==> IsNumeralChar(s[k])
    ensures ParseFloat(s).Some? <==> DotCount(s) <= 1 && DotCount(s) < |s|
  {
    var d := FirstDot(s, 0);
    if d == |s| {
      DotCountZero(s);
    } else {
      FirstDotCount(s, d);
      DotCountZero(s[d + 1..]);
    }
  }

  // ---------------------------------------------------------------------
  // The first pass: one scan_token call at a time
  // ---------------------------------------------------------------------

  /** The lexeme number() converts is made of digits and dots only. */
  lemma NumeralLexeme(text: string, i: nat)
    requires i < |text| && IsDigit(text[i])
    ensures var lexeme := text[i..NumeralEnd(text, i + 1)];
      forall k :: 0 <= k < |lexeme| ==> IsNumeralChar(lexeme[k])
  {
    var lexeme := text[i..NumeralEnd(text, i + 1)];
    assert forall k :: 0 <= k < |lexeme| ==> lexeme[k] == text[i + k];
  }

  /** What number() does after the digit at i: the Numeric token and the new cursor, or the float() error. */
  function NumberStep(text: string, i: nat): (r: Result<(seq<Token>, nat), ScanError>)
    requires i < |text| && IsDigit(text[i])
    ensures r.Success? ==> r.value.1 == NumeralEnd(text, i + 1) && |r.value.0| == 1 && r.value.0[0].Numeric?
  {
    var j := NumeralEnd(text, i + 1);
    var lexeme := text[i..j];
    NumeralLexeme(text, i);
    match ParseFloat(lexeme)
    case Some(v) => Success(([Numeric(v)], j))
    case None => Failure(InvalidNumeral(lexeme))
  }

  /** number() emits the Numeric token of float() on the lexeme it consumed, or fails with that lexeme exactly where float() raises. */
  lemma NumberStepValue(text: string, i: nat)
    requires i < |text| && IsDigit(text[i])
    ensures var lexeme := text[i..NumeralEnd(text, i + 1)];
      (forall k :: 0 <= k < |lexeme| ==> IsNumeralChar(lexeme[k]))
      && match ParseFloat(lexeme)
         case Some(v) => NumberStep(text, i) == Success(([Numeric(v)], NumeralEnd(text, i + 1)))
         case None => NumberStep(text, i) == Failure(InvalidNumeral(lexeme))
  {
    NumeralLexeme(text, i);
  }

  /** What one call of scan_token does with the cursor at i: the tokens it emits and where the cursor ends. */
  function ScanStep(text: string, i: nat): (r: Result<(seq<Token>, nat), ScanError>)
    requires i < |text|
    ensures r.Success? ==> i < r.value.1 <= |text| && |r.value.0| <= 1
    ensures r.Failure? ==> IsDigit(text[i])
  {
    var c := text[i];
    if OperatorToken(c).Some? then Success(([OperatorToken(c).value], i + 1))
    else if IsDigit(c) then NumberStep(text, i)
    else if IsAlpha(c) then Success(([Char(text[i..i + 1])], i + 1))
    else Success(([], i + 1))
  }

  /**
   * Each operator or bracket character yields exactly its one token, a letter
   * a Char of exactly that letter; whitespace, and any other character that
   * is not a digit (a '.' not inside a numeral among them), yields nothing.
   * In every case the cursor moves past just that character.
   */
  lemma CharacterTokens(text: string, i: nat)
    requires i < |text|
    ensures text[i] == '(' ==> ScanStep(text, i) == Success(([OpenBracket], i + 1))
    ensures text[i] == ')' ==> ScanStep(text, i) == Success(([CloseBracket], i + 1))
    ensures text[i] == '+' ==> ScanStep(text, i) == Success(([Plus], i + 1))
    ensures text[i] == '-' ==> ScanStep(text, i) == Success(([Minus], i + 1))
    ensures text[i] == '*' ==> ScanStep(text, i) == Success(([Multiply], i + 1))
    ensures text[i] == '/' ==> ScanStep(text, i) == Success(([Divide], i + 1))
    ensures text[i] == '^' ==> ScanStep(text, i) == Success(([Exponent], i + 1))
    ensures IsAlpha(text[i]) ==> ScanStep(text, i) == Success(([Char([text[i]])], i + 1))
    ensures OperatorToken(text[i]).None? && !IsDigit(text[i]) && !IsAlpha(text[i]) ==>
      ScanStep(text, i) == Success(([], i + 1))
    ensures IsSpace(text[i]) || text[i] == '.' ==> ScanStep(text, i) == Success(([], i + 1))
  {
    assert text[i..i + 1] == [text[i]];
  }

  /** The tokens the first pass of scan_tokens emits from position i on, or the error that stops it. */
  function RawTokens(text: string, i: nat): (r: Result<seq<Token>, ScanError>)
    requires i <= |text|
    ensures r.Success? ==> |r.value| <= |text| - i
    decreases |text| - i
  {
    if i == |text| then Success([])
    else
      match ScanStep(text, i)
      case Failure(e) => Failure(e)
      case Success((emitted, next)) =>
        match RawTokens(text, next)
        case Failure(e) => Failure(e)
        case Success(rest) => Success(emitted + rest)
  }

  // ---------------------------------------------------------------------
  // The second pass: implicit multiplication
  // ---------------------------------------------------------------------

  /** The (previous, current) token pairs between which the second pass inserts a Multiply. */
  predicate NeedsMultiply(prev: Option<Token>, token: Token) {
    match (prev, token)
    case (Some(Numeric(_)), Char(_)) => true
    case (Some(Numeric(_)), OpenBracket) => true
    case (Some(Char(_)), OpenBracket) => true
    case (Some(CloseBracket), Char(_)) => true
    case (Some(CloseBracket), OpenBracket) => true
    case _ => false
  }

  /** The second pass of scan_tokens over the raw tokens. */
  function ImplicitMultiply(raw: seq<Token>): seq<Token> {
    if raw == [] then []
    else
      var n := |raw|;
      var prev := if n == 1 then None else Some(raw[n - 2]);
      ImplicitMultiply(raw[..n - 1])
        + (if NeedsMultiply(prev, raw[n - 1]) then [Multiply] else [])
        + [raw[n - 1]]
  }

  /** How many adjacent pairs of raw get a Multiply inserted between them. */
  function Joints(raw: seq<Token>): nat {
    if |raw| <= 1 then 0
    else Joints(raw[..|raw| - 1]) + (if NeedsMultiply(Some(raw[|raw| - 2]), raw[|raw| - 1]) then 1 else 0)
  }

  lemma {:induction false} ImplicitMultiplyLength(raw: seq<Token>)
    ensures |ImplicitMultiply(raw)| == |raw| + Joints(raw)
  {
    if raw != [] {
      ImplicitMultiplyLength(raw[..|raw| - 1]);
    }
  }

  /** The index at which the second pass places raw[i]. */
  function Position(raw: seq<Token>, i: nat): nat
    requires i < |raw|
  {
    i + Joints(raw[..i + 1])
  }

  /** What the second pass places just before raw[i]: an inserted Multiply, or else raw[i - 1]. */
  function Before(raw: seq<Token>, i: nat): Token
    requires 0 < i < |raw|
  {
    if NeedsMultiply(Some(raw[i - 1]), raw[i]) then Multiply else raw[i - 1]
  }

  lemma {:induction false} ImplicitMultiplyAt(raw: seq<Token>, i: nat)
    requires i < |raw|
    ensures Position(raw, i) < |ImplicitMultiply(raw)|
    ensures ImplicitMultiply(raw)[Position(raw, i)] == raw[i]
    ensures 0 < i ==> ImplicitMultiply(raw)[Position(raw, i) - 1] == Before(raw, i)
    decreases |raw|, 1
  {
    if i < |raw| - 1 {
      ImplicitMultiplyAtInner(raw, i);
    } else {
      ImplicitMultiplyAtLast(raw);
    }
  }

  /** ImplicitMultiplyAt for a token that is not the last: it sits where it sat in the shorter input. */
  lemma {:induction false} ImplicitMultiplyAtInner(raw: seq<Token>, i: nat)
    requires i < |raw| - 1
    ensures Position(raw, i) < |ImplicitMultiply(raw)|
    ensures ImplicitMultiply(raw)[Position(raw, i)] == raw[i]
    ensures 0 < i ==> ImplicitMultiply(raw)[Position(raw, i) - 1] == Before(raw, i)
    decreases |raw|, 0
  {
    var n := |raw|;
    var p := raw[..n - 1];
    assert raw == p + [raw[n - 1]];
    ImplicitMultiplySnoc(p, raw[n - 1]);
    ImplicitMultiplyLength(p);
    ImplicitMultiplyAt(p, i);
    assert raw[..i + 1] == p[..i + 1];
    if 0 < i {
      assert Before(raw, i) == Before(p, i);
    }
  }

  /** ImplicitMultiplyAt for the last token: it follows the shorter input's output and the inserted Multiply, if any. */
  lemma {:induction false} ImplicitMultiplyAtLast(raw: seq<Token>)
    requires raw != []
    ensures Position(raw, |raw| - 1) < |ImplicitMultiply(raw)|
    ensures ImplicitMultiply(raw)[Position(raw, |raw| - 1)] == raw[|raw| - 1]
    ensures 1 < |raw| ==> ImplicitMultiply(raw)[Position(raw, |raw| - 1) - 1] == Before(raw, |raw| - 1)
    decreases |raw|, 0
  {
    var n := |raw|;
    var p := raw[..n - 1];
    var prev := PrevOf(None, p, |p|);
    var mid: seq<Token> := if NeedsMultiply(prev, raw[n - 1]) then [Multiply] else [];
    assert raw == p + [raw[n - 1]];
    ImplicitMultiplySnoc(p, raw[n - 1]);
    ImplicitMultiplyLength(p);
    assert raw[..n] == raw;
    assert Joints(raw) == Joints(p) + |mid|;
    if 1 < n {
      ImplicitMultiplyAt(p, n - 2);
      assert p[..n - 1] == p;
    }
  }


  /**
   * The second pass keeps every raw token, in order: raw[i] lands at
   * Position(raw, i). Just before it stands an inserted Multiply when the
   * pair (raw[i - 1], raw[i]) needs one, and raw[i - 1] otherwise; nothing is
   * inserted before the first token, and the output is longer than the input
   * by the number of pairs that need a Multiply.
   */
  lemma {:induction false} ImplicitMultiplyLayout(raw: seq<Token>)
    ensures |ImplicitMultiply(raw)| == |raw| + Joints(raw)
    ensures forall i :: 0 <= i < |raw| ==>
      Position(raw, i) < |ImplicitMultiply(raw)| && ImplicitMultiply(raw)[Position(raw, i)] == raw[i]
    ensures forall i :: 0 < i < |raw| ==> ImplicitMultiply(raw)[Position(raw, i) - 1] == Before(raw, i)
    ensures raw != [] ==> Position(raw, 0) == 0
  {
    ImplicitMultiplyLength(raw);
    forall i | 0 <= i < |raw|
      ensures Position(raw, i) < |ImplicitMultiply(raw)| && ImplicitMultiply(raw)[Position(raw, i)] == raw[i]
      ensures 0 < i ==> ImplicitMultiply(raw)[Position(raw, i) - 1] == Before(raw, i)
    {
      ImplicitMultiplyAt(raw, i);
    }
    if raw != [] {
      assert Joints(raw[..1]) == 0;
    }
  }

  // ---------------------------------------------------------------------
  // The whole scan
  // ---------------------------------------------------------------------

  /** What scan_tokens returns for a scanner that already holds done with its cursor at i. */
  function ScanFrom(text: string, i: nat, done: seq<Token>): Result<seq<Token>, ScanError>
    requires i <= |text|
  {
    match RawTokens(text, i)
    case Success(rest) => Success(ImplicitMultiply(done + rest))
    case Failure(e) => Failure(e)
  }

  /** A first-pass result with the tokens `front` emitted before it. */
  function Prepend(front: seq<Token>, r: Result<seq<Token>, ScanError>): Result<seq<Token>, ScanError> {
    match r
    case Success(rest) => Success(front + rest)
    case Failure(e) => Failure(e)
  }

  /** Tokens emitted in two stretches are the tokens of both, in order. */
  lemma PrependTwice(front: seq<Token>, emitted: seq<Token>, r: Result<seq<Token>, ScanError>)
    ensures Prepend(front, Prepend(emitted, r)) == Prepend(front + emitted, r)
  {
    if r.Success? {
      Seqs.ConcatAssociates(front, emitted, r.value);
    }
  }

  /** The first pass from cursor i is what one scan_token call emits, followed by the first pass from where it stops. */
  lemma RawTokensStep(text: string, i: nat)
    requires i < |text| && ScanStep(text, i).Success?
    ensures RawTokens(text, i) == Prepend(ScanStep(text, i).value.0, RawTokens(text, ScanStep(text, i).value.1))
  {
  }

  /**
   * The scanner's loop invariant, kept by one scan_token call: the first pass from the starting cursor is
   * the tokens appended since (after the first k), followed by the first pass from the current cursor.
   */
  lemma AppendedTokensStep(text: string, start: nat, from: nat, k: nat, before: seq<Token>, after: seq<Token>)
    requires start <= |text| && from < |text| && ScanStep(text, from).Success?
    requires k <= |before| && after == before + ScanStep(text, from).value.0
    requires RawTokens(text, start) == Prepend(before[k..], RawTokens(text, from))
    ensures k <= |after| && after[..k] == before[..k]
    ensures RawTokens(text, start) == Prepend(after[k..], RawTokens(text, ScanStep(text, from).value.1))
  {
    var (emitted, next) := ScanStep(text, from).value;
    RawTokensStep(text, from);
    PrependTwice(before[k..], emitted, RawTokens(text, next));
    assert after[k..] == before[k..] + emitted;
  }

  /** The scanner's loop invariant holds before the first scan_token call, with nothing appended yet. */
  lemma AppendedTokensStart(text: string, i: nat, tokens: seq<Token>)
    requires i <= |text|
    ensures RawTokens(text, i) == Prepend(tokens[|tokens|..], RawTokens(text, i))
  {
    assert tokens[|tokens|..] == [];
    if RawTokens(text, i).Success? {
      assert [] + RawTokens(text, i).value == RawTokens(text, i).value;
    }
  }

  /** When scan_token raises, so does the whole scan, with the same error. */
  lemma AppendedTokensFail(text: string, start: nat, from: nat, k: nat, before: seq<Token>)
    requires start <= |text| && from < |text| && ScanStep(text, from).Failure?
    requires k <= |before| && RawTokens(text, start) == Prepend(before[k..], RawTokens(text, from))
    ensures ScanFrom(text, start, before[..k]) == Failure(ScanStep(text, from).error)
  {
  }

  /** At the end of the text, the tokens appended are the whole first pass, and the scan's result is the second pass over all the tokens. */
  lemma AppendedTokensEnd(text: string, start: nat, k: nat, tokens: seq<Token>)
    requires start <= |text| && k <= |tokens|
    requires RawTokens(text, start) == Prepend(tokens[k..], RawTokens(text, |text|))
    ensures RawTokens(text, start) == Success(tokens[k..])
    ensures tokens == tokens[..k] + tokens[k..]
    ensures ScanFrom(text, start, tokens[..k]) == Success(ImplicitMultiply(tokens))
  {
    assert tokens[k..] + [] == tokens[k..];
    assert tokens == tokens[..k] + tokens[k..];
  }

  /** One scan_token call moves the scan from cursor i to the next cursor, or ends it with an error. */
  lemma ScanFromStep(text: string, i: nat, done: seq<Token>)
    requires i < |text|
    ensures match ScanStep(text, i)
      case Success((emitted, next)) => ScanFrom(text, i, done) == ScanFrom(text, next, done + emitted)
      case Failure(e) => ScanFrom(text, i, done) == Failure(e)
  {
    if ScanStep(text, i).Success? {
      var (emitted, next) := ScanStep(text, i).value;
      if RawTokens(text, next).Success? {
        var rest := RawTokens(text, next).value;
        assert done + (emitted + rest) == done + emitted + rest;
      }
    }
  }

  /** Scanner(text).scan_tokens(). */
  function Scanned(text: string): Result<seq<Token>, ScanError> {
    ScanFrom(text, 0, [])
  }

  /** The token a single character contributes when it is an operator, a bracket or a letter. */
  function SymbolOf(c: char): seq<Token> {
    if OperatorToken(c).Some? then [OperatorToken(c).value]
    else if IsAlpha(c) then [Char([c])]
    else []
  }

  /** Reference reading of a text: its operators, brackets and letters, in order, one token each. */
  function Symbols(s: string): seq<Token> {
    if s == [] then [] else SymbolOf(s[0]) + Symbols(s[1..])
  }

  /** The tokens other than Numeric, in order. */
  function NonNumeric(ts: seq<Token>): seq<Token> {
    if ts == [] then [] else (if ts[0].Numeric? then [] else [ts[0]]) + NonNumeric(ts[1..])
  }

  lemma {:induction false} SymbolsSkipNumeral(text: string, i: nat, j: nat)
    requires i <= j <= |text|
    requires forall k :: i <= k < j ==> IsNumeralChar(text[k])
    ensures Symbols(text[i..]) == Symbols(text[j..])
    decreases j - i
  {
    if i < j {
      assert text[i..][1..] == text[i + 1..];
      SymbolsSkipNumeral(text, i + 1, j);
    }
  }

  /**
   * Apart from numerals, the first pass emits exactly one token per operator,
   * bracket and letter, in text order: every letter becomes a Char of that one
   * letter, and whitespace, stray dots and unknown characters emit nothing.
   */
  lemma {:induction false} RawTokensSymbols(text: string, i: nat)
    requires i <= |text|
    requires RawTokens(text, i).Success?
    ensures NonNumeric(RawTokens(text, i).value) == Symbols(text[i..])
    decreases |text| - i
  {
    if i < |text| {
      var step := ScanStep(text, i);
      var emitted, next := step.value.0, step.value.1;
      var rest := RawTokens(text, next).value;
      RawTokensSymbols(text, next);
      assert RawTokens(text, i).value == emitted + rest;
      assert text[i..][1..] == text[i + 1..];
      var c := text[i];
      if OperatorToken(c).Some? {
        assert (emitted + rest)[1..] == rest;
      } else if IsDigit(c) {
        assert (emitted + rest)[1..] == rest;
        SymbolsSkipNumeral(text, i + 1, next);
      } else if IsAlpha(c) {
        assert text[i..i + 1] == [c];
        assert (emitted + rest)[1..] == rest;
      } else {
        assert emitted + rest == rest;
      }
    }
  }

  /** A numeral in a text with at most one dot converts, and leaves at most one dot after it. */
  lemma NumeralTotal(text: string, i: nat)
    requires i < |text| && IsDigit(text[i])
    requires DotCount(text[i..]) <= 1
    ensures NumberStep(text, i).Success?
    ensures DotCount(text[NumeralEnd(text, i + 1)..]) <= 1
  {
    var c := text[i];
    var j := NumeralEnd(text, i + 1);
    var lexeme := text[i..j];
    assert text[i..] == lexeme + text[j..];
    DotCountAppend(lexeme, text[j..]);
    assert lexeme == [c] + lexeme[1..];
    DotCountAppend([c], lexeme[1..]);
    DotCountZero(lexeme[1..]);
    assert forall k :: 0 <= k < |lexeme| ==> lexeme[k] == text[i + k];
    ParseFloatDefined(lexeme);
  }

  lemma {:induction false} RawTokensTotal(text: string, i: nat)
    requires i <= |text|
    requires DotCount(text[i..]) <= 1
    ensures RawTokens(text, i).Success?
    decreases |text| - i
  {
    if i < |text| {
      var c := text[i];
      if IsDigit(c) {
        NumeralTotal(text, i);
        RawTokensTotal(text, NumeralEnd(text, i + 1));
      } else {
        assert text[i..] == [c] + text[i + 1..];
        DotCountAppend([c], text[i + 1..]);
        RawTokensTotal(text, i + 1);
      }
    }
  }

  /** Scanning can fail only on a numeral: a text with at most one '.' always scans. */
  lemma ScanFailsOnlyOnNumerals(text: string)
    ensures DotCount(text) <= 1 ==> Scanned(text).Success?
    ensures Scanned(text).Failure? ==> exists k :: 0 <= k < |text| && IsDigit(text[k])
  {
    if DotCount(text) <= 1 {
      assert text[0..] == text;
      RawTokensTotal(text, 0);
    }
    if Scanned(text).Failure? {
      FailureHasDigit(text, 0);
    }
  }

  lemma {:induction false} FailureHasDigit(text: string, i: nat)
    requires i <= |text|
    requires RawTokens(text, i).Failure?
    ensures exists k :: i <= k < |text| && IsDigit(text[k])
    decreases |text| - i
  {
    if ScanStep(text, i).Success? {
      FailureHasDigit(text, ScanStep(text, i).value.1);
    }
  }

  /** In "1.2.3" the numeral that starts at the first digit runs to the end of the text. */
  lemma MalformedNumeralSpan(text: string)
    requires text == "1.2.3"
    ensures NumeralEnd(text, 1) == 5 && text[0..5] == text
  {
    assert NumeralEnd(text, 5) == 5;
    assert NumeralEnd(text, 4) == 5;
    assert NumeralEnd(text, 3) == 5;
    assert NumeralEnd(text, 2) == 5;
  }

  /** "1.2.3" is one numeral lexeme, and float() rejects it, so scanning fails with that lexeme. */
  lemma MalformedNumeralFails(text: string)
    requires text == "1.2.3"
    ensures Scanned(text) == Failure(InvalidNumeral(text))
  {
    MalformedNumeralSpan(text);
    assert FirstDot(text, 0) == 1;
    assert text[2..][1] == '.';
    assert ParseFloat(text) == None;
    assert NumberStep(text, 0) == Failure(InvalidNumeral(text));
    assert RawTokens(text, 0) == Failure(InvalidNumeral(text));
  }

  /** The tokens of a character that makes a lexeme on its own: a one-digit numeral, or SymbolOf. */
  function LexemeOf(c: char): seq<Token> {
    if IsDigit(c) then [Numeric(DigitValue(c) as real)] else SymbolOf(c)
  }

  function Lexemes(s: string): seq<Token> {
    if s == [] then [] else LexemeOf(s[0]) + Lexemes(s[1..])
  }

  /** No digit is followed by another digit or a '.': every numeral is a single digit. */
  predicate ShortNumerals(text: string) {
    forall k :: 0 <= k < |text| - 1 ==> IsDigit(text[k]) ==> !IsNumeralChar(text[k + 1])
  }

  /** float() of a single digit is that digit's value. */
  lemma SingleDigitValue(c: char)
    requires IsDigit(c)
    ensures ParseFloat([c]) == Some(DigitValue(c) as real)
  {
    assert FirstDot([c], 0) == 1;
    assert [c][..0] == [];
    assert DigitsValue([c]) == DigitValue(c);
  }

  /** When every numeral is one digit, the first pass reads each character on its own. */
  lemma {:induction false} RawTokensShort(text: string, i: nat)
    requires i <= |text| && ShortNumerals(text)
    ensures RawTokens(text, i) == Success(Lexemes(text[i..]))
    decreases |text| - i
  {
    if i < |text| {
      var c := text[i];
      assert text[i..][0] == c && text[i..][1..] == text[i + 1..];
      RawTokensShort(text, i + 1);
      CharacterTokens(text, i);
      if IsDigit(c) {
        assert NumeralEnd(text, i + 1) == i + 1;
        assert text[i..i + 1] == [c];
        SingleDigitValue(c);
      }
    }
  }

  /** The second pass as Python's loop runs it: front to back, remembering the previous token. */
  function ImplicitMultiplyAfter(prev: Option<Token>, raw: seq<Token>): seq<Token>
    decreases |raw|
  {
    if raw == [] then []
    else
      (if NeedsMultiply(prev, raw[0]) then [Multiply] else []) + [raw[0]]
        + ImplicitMultiplyAfter(Some(raw[0]), raw[1..])
  }

  /** Appending one token to the input of the second pass appends it, after a Multiply if the pair needs one. */
  lemma ImplicitMultiplySnoc(done: seq<Token>, x: Token)
    ensures ImplicitMultiply(done + [x])
      == ImplicitMultiply(done) + ((if NeedsMultiply(PrevOf(None, done, |done|), x) then [Multiply] else []) + [x])
  {
    var grown := done + [x];
    assert grown[..|grown| - 1] == done && grown[|grown| - 1] == x;
    if done != [] {
      assert grown[|grown| - 2] == done[|done| - 1];
    }
  }

  lemma {:induction false} ImplicitMultiplySplit(done: seq<Token>, raw: seq<Token>)
    ensures ImplicitMultiply(done + raw)
      == ImplicitMultiply(done) + ImplicitMultiplyAfter(PrevOf(None, done, |done|), raw)
    decreases |raw|
  {
    if raw == [] {
      assert done + raw == done;
    } else {
      var x := raw[0];
      var grown := done + [x];
      var step := (if NeedsMultiply(PrevOf(None, done, |done|), x) then [Multiply] else []) + [x];
      assert done + raw == grown + raw[1..];
      ImplicitMultiplySplit(grown, raw[1..]);
      assert PrevOf(None, grown, |grown|) == Some(x);
      ImplicitMultiplySnoc(done, x);
      ImplicitMultiplyAfterCons(PrevOf(None, done, |done|), raw);
      Seqs.ConcatAssociates(ImplicitMultiply(done), step, ImplicitMultiplyAfter(Some(x), raw[1..]));
    }
  }

  /** The front-to-back reading of the second pass agrees with ImplicitMultiply. */
  lemma ImplicitMultiplyForward(raw: seq<Token>)
    ensures ImplicitMultiply(raw) == ImplicitMultiplyAfter(None, raw)
  {
    ImplicitMultiplySplit([], raw);
    assert [] + raw == raw;
  }

  lemma LexemesAt(text: string, i: nat)
    requires i < |text|
    ensures Lexemes(text[i..]) == LexemeOf(text[i]) + Lexemes(text[i + 1..])
  {
    assert text[i..][0] == text[i] && text[i..][1..] == text[i + 1..];
  }

  /** The token the second pass has seen just before raw[i]. */
  function PrevOf(prev: Option<Token>, raw: seq<Token>, i: nat): Option<Token>
    requires i <= |raw|
  {
    if i == 0 then prev else Some(raw[i - 1])
  }

  /** Where no adjacent pair calls for a Multiply, the second pass changes nothing. */
  lemma {:induction false} NoJointsNoInsert(prev: Option<Token>, raw: seq<Token>)
    requires forall i :: 0 <= i < |raw| ==> !NeedsMultiply(PrevOf(prev, raw, i), raw[i])
    ensures ImplicitMultiplyAfter(prev, raw) == raw
    decreases |raw|
  {
    if raw != [] {
      assert !NeedsMultiply(PrevOf(prev, raw, 0), raw[0]);
      forall i | 0 <= i < |raw| - 1
        ensures !NeedsMultiply(PrevOf(Some(raw[0]), raw[1..], i), raw[1..][i])
      {
        assert PrevOf(Some(raw[0]), raw[1..], i) == PrevOf(prev, raw, i + 1);
        assert !NeedsMultiply(PrevOf(prev, raw, i + 1), raw[i + 1]);
      }
      NoJointsNoInsert(Some(raw[0]), raw[1..]);
      assert raw == [raw[0]] + raw[1..];
    }
  }

  /** One step of the front-to-back pass: the first token, preceded by a Multiply when it needs one, then the rest. */
  lemma ImplicitMultiplyAfterCons(prev: Option<Token>, raw: seq<Token>)
    requires raw != []
    ensures ImplicitMultiplyAfter(prev, raw)
      == (if NeedsMultiply(prev, raw[0]) then [Multiply] else []) + [raw[0]] + ImplicitMultiplyAfter(Some(raw[0]), raw[1..])
  {
  }

  /** The second pass over raw is the pass over its first j tokens, then the pass over the rest. */
  lemma {:induction false} ImplicitMultiplyAfterSplit(prev: Option<Token>, raw: seq<Token>, j: nat)
    requires j <= |raw|
    ensures ImplicitMultiplyAfter(prev, raw)
      == ImplicitMultiplyAfter(prev, raw[..j]) + ImplicitMultiplyAfter(PrevOf(prev, raw, j), raw[j..])
    decreases j
  {
    if j == 0 {
      assert raw[..0] == [] && raw[0..] == raw;
    } else {
      var x, tail, front := raw[0], raw[1..], raw[..j];
      ImplicitMultiplyAfterSplit(Some(x), tail, j - 1);
      assert PrevOf(Some(x), tail, j - 1) == PrevOf(prev, raw, j);
      assert tail[j - 1..] == raw[j..];
      assert front[0] == x && front[1..] == tail[..j - 1];
      ImplicitMultiplyAfterCons(prev, raw);
      ImplicitMultiplyAfterCons(prev, front);
      var head := (if NeedsMultiply(prev, x) then [Multiply] else []) + [x];
      Seqs.ConcatAssociates(head, ImplicitMultiplyAfter(Some(x), tail[..j - 1]),
        ImplicitMultiplyAfter(PrevOf(prev, raw, j), raw[j..]));
    }
  }

  /** No pair before raw[j] needs a Multiply, so the front-to-back pass leaves raw[..j] as it is. */
  lemma NoJointsBefore(prev: Option<Token>, raw: seq<Token>, j: nat)
    requires j <= |raw|
    requires forall i :: 0 <= i < j ==> !NeedsMultiply(PrevOf(prev, raw, i), raw[i])
    ensures ImplicitMultiplyAfter(prev, raw[..j]) == raw[..j]
  {
    forall i | 0 <= i < |raw[..j]|
      ensures !NeedsMultiply(PrevOf(prev, raw[..j], i), raw[..j][i])
    {
      assert PrevOf(prev, raw[..j], i) == PrevOf(prev, raw, i);
    }
    NoJointsNoInsert(prev, raw[..j]);
  }

  /** No pair after raw[j] needs a Multiply, so the front-to-back pass leaves raw[j + 1..] as it is. */
  lemma NoJointsAfter(prev: Option<Token>, raw: seq<Token>, j: nat)
    requires j < |raw|
    requires forall i :: j < i < |raw| ==> !NeedsMultiply(PrevOf(prev, raw, i), raw[i])
    ensures ImplicitMultiplyAfter(Some(raw[j]), raw[j + 1..]) == raw[j + 1..]
  {
    var rest := raw[j + 1..];
    forall i | 0 <= i < |rest|
      ensures !NeedsMultiply(PrevOf(Some(raw[j]), rest, i), rest[i])
    {
      assert PrevOf(Some(raw[j]), rest, i) == PrevOf(prev, raw, j + 1 + i);
      assert !NeedsMultiply(PrevOf(prev, raw, j + 1 + i), raw[j + 1 + i]);
    }
    NoJointsNoInsert(Some(raw[j]), rest);
  }

  /** Where exactly one adjacent pair, before raw[j], calls for a Multiply, the second pass inserts exactly that one. */
  lemma OneJointOneInsert(prev: Option<Token>, raw: seq<Token>, j: nat)
    requires j < |raw| && NeedsMultiply(PrevOf(prev, raw, j), raw[j])
    requires forall i :: 0 <= i < |raw| && i != j ==> !NeedsMultiply(PrevOf(prev, raw, i), raw[i])
    ensures ImplicitMultiplyAfter(prev, raw) == raw[..j] + [Multiply] + raw[j..]
  {
    var front, x, rest := raw[..j], raw[j], raw[j + 1..];
    ImplicitMultiplyAfterSplit(prev, raw, j);
    NoJointsBefore(prev, raw, j);
    NoJointsAfter(prev, raw, j);
    assert raw[j..][0] == x && raw[j..][1..] == rest;
    ImplicitMultiplyAfterCons(PrevOf(prev, raw, j), raw[j..]);
    assert raw[j..] == [x] + rest;
    Seqs.InsertBefore(ImplicitMultiplyAfter(prev, raw), front, ImplicitMultiplyAfter(PrevOf(prev, raw, j), raw[j..]),
      Multiply, x, rest, raw[j..]);
  }

  /** Scanning a text whose numerals are single digits: each character read alone, then the second pass. */
  lemma ScannedShort(text: string)
    requires ShortNumerals(text)
    ensures Scanned(text) == Success(ImplicitMultiplyAfter(None, Lexemes(text)))
  {
    RawTokensShort(text, 0);
    assert text[0..] == text;
    assert [] + Lexemes(text) == Lexemes(text);
    ImplicitMultiplyForward(Lexemes(text));
  }

  // ---------------------------------------------------------------------
  // Worked cases
  // ---------------------------------------------------------------------

  // Each example is proved in up to three steps. Short<X> shows that every numeral of the
  // text is one digit, Reads<X> (with Reads<X>From<k> for the longer texts) gives the
  // token of each character, and Scans<X> applies ScannedShort and the second-pass
  // lemmas. The text is a parameter fixed by its requires clause, rather than a string
  // literal in the ensures clause, so that the verifier unfolds the scanning functions
  // one position at a time instead of all at once.

  /** The characters of "2x", each read on its own. */
  lemma ReadsImplicitProduct(text: string)
    requires text == "2x"
    ensures ShortNumerals(text) && Lexemes(text) == [Numeric(2.0), Char("x")]
  {
    forall k | 0 <= k < |text| - 1
      ensures IsDigit(text[k]) ==> !IsNumeralChar(text[k + 1])
    {
      // one case per position, so that the pair text[k], text[k + 1] is known
      if k == 0 { }
    }
    assert text[2..] == [];
    LexemesAt(text, 1);
    LexemesAt(text, 0);
    assert text[0..] == text;
  }

  /** "2x": a Multiply goes between the numeral and the letter. */
  lemma ScansImplicitProduct(text: string)
    requires text == "2x"
    ensures Scanned(text) == Success([Numeric(2.0), Multiply, Char("x")])
  {
    ReadsImplicitProduct(text);
    var raw := Lexemes(text);
    forall i | 0 <= i < |raw| && i != 1
      ensures !NeedsMultiply(PrevOf(None, raw, i), raw[i])
    {
      if i == 0 { }
    }
    OneJointOneInsert(None, raw, 1);
    assert raw[..1] + [Multiply] + raw[1..] == [Numeric(2.0), Multiply, Char("x")];
    ScannedShort(text);
  }

  /** The characters of "xy", each read on its own. */
  lemma ReadsTwoLetters(text: string)
    requires text == "xy"
    ensures ShortNumerals(text) && Lexemes(text) == [Char("x"), Char("y")]
  {
    forall k | 0 <= k < |text| - 1
      ensures IsDigit(text[k]) ==> !IsNumeralChar(text[k + 1])
    {
      // one case per position, so that the pair text[k], text[k + 1] is known
      if k == 0 { }
    }
    assert text[2..] == [];
    LexemesAt(text, 1);
    LexemesAt(text, 0);
    assert text[0..] == text;
  }

  /** "xy": two letters are two Char tokens, with no Multiply between them. */
  lemma ScansTwoLetters(text: string)
    requires text == "xy"
    ensures Scanned(text) == Success([Char("x"), Char("y")])
  {
    ReadsTwoLetters(text);
    var raw := Lexemes(text);
    forall i | 0 <= i < |raw|
      ensures !NeedsMultiply(PrevOf(None, raw, i), raw[i])
    {
      if i == 0 { } else if i == 1 { }
    }
    NoJointsNoInsert(None, raw);
    ScannedShort(text);
  }

  /** The characters of ")", each read on its own. */
  lemma ReadsCloseBracket(text: string)
    requires text == ")"
    ensures ShortNumerals(text) && Lexemes(text) == [CloseBracket]
  {
    assert text[1..] == [];
    LexemesAt(text, 0);
    assert text[0..] == text;
  }

  /** ")": a lone closing bracket is one token. */
  lemma ScansCloseBracket(text: string)
    requires text == ")"
    ensures Scanned(text) == Success([CloseBracket])
  {
    ReadsCloseBracket(text);
    var raw := Lexemes(text);
    forall i | 0 <= i < |raw|
      ensures !NeedsMultiply(PrevOf(None, raw, i), raw[i])
    {
      if i == 0 { }
    }
    NoJointsNoInsert(None, raw);
    ScannedShort(text);
  }

  /** No digit of "a-b-c" is followed by a digit or a dot, so each of its numerals is one character. */
  lemma ShortDifference(text: string)
    requires text == "a-b-c"
    ensures ShortNumerals(text)
  {
    forall k | 0 <= k < |text| - 1
      ensures IsDigit(text[k]) ==> !IsNumeralChar(text[k + 1])
    {
      // one case per position, so that the pair text[k], text[k + 1] is known
      if k == 0 { } else if k == 1 { } else if k == 2 { } else if k == 3 { }
    }
  }

  /** The characters of "a-b-c", each read on its own. */
  lemma ReadsDifference(text: string)
    requires text == "a-b-c"
    ensures Lexemes(text) == [Char("a"), Minus, Char("b"), Minus, Char("c")]
  {
    assert text[5..] == [];
    LexemesAt(text, 4);
    LexemesAt(text, 3);
    LexemesAt(text, 2);
    LexemesAt(text, 1);
    LexemesAt(text, 0);
    assert text[0..] == text;
  }

  /** "a-b-c": letters and operators, with nothing inserted. */
  lemma ScansDifference(text: string)
    requires text == "a-b-c"
    ensures Scanned(text) == Success([Char("a"), Minus, Char("b"), Minus, Char("c")])
  {
    ShortDifference(text);
    ReadsDifference(text);
    var raw := Lexemes(text);
    forall i | 0 <= i < |raw|
      ensures !NeedsMultiply(PrevOf(None, raw, i), raw[i])
    {
      if i == 0 { } else if i == 1 { } else if i == 2 { } else if i == 3 { } else if i == 4 { }
    }
    NoJointsNoInsert(None, raw);
    ScannedShort(text);
  }

  /** No digit of "3+4*2" is followed by a digit or a dot, so each of its numerals is one character. */
  lemma ShortSumOfProduct(text: string)
    requires text == "3+4*2"
    ensures ShortNumerals(text)
  {
    forall k | 0 <= k < |text| - 1
      ensures IsDigit(text[k]) ==> !IsNumeralChar(text[k + 1])
    {
      // one case per position, so that the pair text[k], text[k + 1] is known
      if k == 0 { } else if k == 1 { } else if k == 2 { } else if k == 3 { }
    }
  }

  /** The characters of "3+4*2", each read on its own. */
  lemma ReadsSumOfProduct(text: string)
    requires text == "3+4*2"
    ensures Lexemes(text) == [Numeric(3.0), Plus, Numeric(4.0), Multiply, Numeric(2.0)]
  {
    assert text[5..] == [];
    LexemesAt(text, 4);
    LexemesAt(text, 3);
    LexemesAt(text, 2);
    LexemesAt(text, 1);
    LexemesAt(text, 0);
    assert text[0..] == text;
  }

  /** "3+4*2": one-digit numerals and operators, with nothing inserted. */
  lemma ScansSumOfProduct(text: string)
    requires text == "3+4*2"
    ensures Scanned(text) == Success([Numeric(3.0), Plus, Numeric(4.0), Multiply, Numeric(2.0)])
  {
    ShortSumOfProduct(text);
    ReadsSumOfProduct(text);
    var raw := Lexemes(text);
    forall i | 0 <= i < |raw|
      ensures !NeedsMultiply(PrevOf(None, raw, i), raw[i])
    {
      if i == 0 { } else if i == 1 { } else if i == 2 { } else if i == 3 { } else if i == 4 { }
    }
    NoJointsNoInsert(None, raw);
    ScannedShort(text);
  }

  /** No digit of "2^3^2" is followed by a digit or a dot, so each of its numerals is one character. */
  lemma ShortTower(text: string)
    requires text == "2^3^2"
    ensures ShortNumerals(text)
  {
    forall k | 0 <= k < |text| - 1
      ensures IsDigit(text[k]) ==> !IsNumeralChar(text[k + 1])
    {
      // one case per position, so that the pair text[k], text[k + 1] is known
      if k == 0 { } else if k == 1 { } else if k == 2 { } else if k == 3 { }
    }
  }

  /** The characters of "2^3^2", each read on its own. */
  lemma ReadsTower(text: string)
    requires text == "2^3^2"
    ensures Lexemes(text) == [Numeric(2.0), Exponent, Numeric(3.0), Exponent, Numeric(2.0)]
  {
    assert text[5..] == [];
    LexemesAt(text, 4);
    LexemesAt(text, 3);
    LexemesAt(text, 2);
    LexemesAt(text, 1);
    LexemesAt(text, 0);
    assert text[0..] == text;
  }

  /** "2^3^2": one-digit numerals and carets, with nothing inserted. */
  lemma ScansTower(text: string)
    requires text == "2^3^2"
    ensures Scanned(text) == Success([Numeric(2.0), Exponent, Numeric(3.0), Exponent, Numeric(2.0)])
  {
    ShortTower(text);
    ReadsTower(text);
    var raw := Lexemes(text);
    forall i | 0 <= i < |raw|
      ensures !NeedsMultiply(PrevOf(None, raw, i), raw[i])
    {
      if i == 0 { } else if i == 1 { } else if i == 2 { } else if i == 3 { } else if i == 4 { }
    }
    NoJointsNoInsert(None, raw);
    ScannedShort(text);
  }

  lemma ReadsBracketProductFrom8(text: string)
    requires text == "(x+1)(x-1)"
    ensures Lexemes(text[8..]) == [Numeric(1.0), CloseBracket]
  {
    assert text[10..] == [];
    LexemesAt(text, 9);
    LexemesAt(text, 8);
  }

  lemma ReadsBracketProductFrom6(text: string)
    requires text == "(x+1)(x-1)"
    ensures Lexemes(text[6..]) == [Char("x"), Minus, Numeric(1.0), CloseBracket]
  {
    ReadsBracketProductFrom8(text);
    LexemesAt(text, 7);
    LexemesAt(text, 6);
  }

  lemma ReadsBracketProductFrom4(text: string)
    requires text == "(x+1)(x-1)"
    ensures Lexemes(text[4..]) == [CloseBracket, OpenBracket, Char("x"), Minus, Numeric(1.0), CloseBracket]
  {
    ReadsBracketProductFrom6(text);
    LexemesAt(text, 5);
    LexemesAt(text, 4);
  }

  lemma ReadsBracketProductFrom2(text: string)
    requires text == "(x+1)(x-1)"
    ensures Lexemes(text[2..]) == [Plus, Numeric(1.0), CloseBracket, OpenBracket, Char("x"), Minus, Numeric(1.0), CloseBracket]
  {
    ReadsBracketProductFrom4(text);
    LexemesAt(text, 3);
    LexemesAt(text, 2);
  }

  /** No digit of "(x+1)(x-1)" is followed by a digit or a dot, so each of its numerals is one character. */
  lemma ShortBracketProduct(text: string)
    requires text == "(x+1)(x-1)"
    ensures ShortNumerals(text)
  {
    forall k | 0 <= k < |text| - 1
      ensures IsDigit(text[k]) ==> !IsNumeralChar(text[k + 1])
    {
      // one case per position, so that the pair text[k], text[k + 1] is known
      if k == 0 { } else if k == 1 { } else if k == 2 { } else if k == 3 { } else if k == 4 { } else if k == 5 { } else if k == 6 { } else if k == 7 { } else if k == 8 { }
    }
  }

  /** The characters of "(x+1)(x-1)", each read on its own. */
  lemma ReadsBracketProduct(text: string)
    requires text == "(x+1)(x-1)"
    ensures Lexemes(text) == [OpenBracket, Char("x"), Plus, Numeric(1.0), CloseBracket, OpenBracket, Char("x"), Minus, Numeric(1.0), CloseBracket]
  {
    ReadsBracketProductFrom2(text);
    LexemesAt(text, 1);
    LexemesAt(text, 0);
    assert text[0..] == text;
  }

  /** "(x+1)(x-1)": a Multiply goes between the closing and the opening bracket. */
  lemma ScansBracketProduct(text: string)
    requires text == "(x+1)(x-1)"
    ensures Scanned(text) == Success([OpenBracket, Char("x"), Plus, Numeric(1.0), CloseBracket, Multiply, OpenBracket, Char("x"), Minus, Numeric(1.0), CloseBracket])
  {
    ShortBracketProduct(text);
    ReadsBracketProduct(text);
    var raw := Lexemes(text);
    forall i | 0 <= i < |raw| && i != 5
      ensures !NeedsMultiply(PrevOf(None, raw, i), raw[i])
    {
      if i == 0 { } else if i == 1 { } else if i == 2 { } else if i == 3 { } else if i == 4 { } else if i == 6 { } else if i == 7 { } else if i == 8 { } else if i == 9 { }
    }
    OneJointOneInsert(None, raw, 5);
    assert raw[..5] + [Multiply] + raw[5..] == [OpenBracket, Char("x"), Plus, Numeric(1.0), CloseBracket, Multiply, OpenBracket, Char("x"), Minus, Numeric(1.0), CloseBracket];
    ScannedShort(text);
  }

  /** "": no characters, no tokens. */
  lemma ScansEmpty()
    ensures Scanned("") == Success([])
  {
  }

  /** float("12.5") is twelve and a half: the digits before the dot, plus those after it over a power of ten. */
  lemma ParsesDecimal(s: string)
    requires s == "12.5"
    ensures ParseFloat(s) == Some(12.5)
  {
    assert s[0] == '1' && s[1] == '2' && s[2] == '.' && s[3] == '5';
    assert FirstDot(s, 0) == 2;
    var whole, frac := s[..2], s[3..];
    assert whole[..1] == s[..1] && s[..1][..0] == [];
    assert DigitsValue(s[..1]) == 1;
    assert DigitsValue(whole) == 12;
    assert frac[..0] == [];
    assert DigitsValue(frac) == 5;
    assert Pow10(1) == 10;
  }

  /** The first pass over "12.5x": the numeral 12.5, read as one token, then the letter. */
  lemma ReadsDecimalProduct(text: string)
    requires text == "12.5x"
    ensures RawTokens(text, 0) == Success([Numeric(12.5), Char("x")])
  {
    assert NumeralEnd(text, 4) == 4;
    assert NumeralEnd(text, 1) == 4;
    ParsesDecimal(text[0..4]);
    assert ScanStep(text, 0) == Success(([Numeric(12.5)], 4));
    assert text[4..5] == "x";
    assert ScanStep(text, 4) == Success(([Char("x")], 5));
    assert RawTokens(text, 5) == Success([]);
    RawTokensStep(text, 4);
    assert [Char("x")] + [] == [Char("x")];
    RawTokensStep(text, 0);
    assert [Numeric(12.5)] + [Char("x")] == [Numeric(12.5), Char("x")];
  }

  /** The second pass puts a Multiply between a numeral and the letter after it. */
  lemma NumeralLetterJoint(raw: seq<Token>, v: real, name: string)
    requires raw == [Numeric(v), Char(name)]
    ensures ImplicitMultiply(raw) == [Numeric(v), Multiply, Char(name)]
  {
    forall i | 0 <= i < |raw| && i != 1
      ensures !NeedsMultiply(PrevOf(None, raw, i), raw[i])
    {
    }
    OneJointOneInsert(None, raw, 1);
    assert raw[..1] + [Multiply] + raw[1..] == [Numeric(v), Multiply, Char(name)];
    ImplicitMultiplyForward(raw);
  }

  /** "12.5x": a numeral of several characters is one Numeric token of its decimal value, and a Multiply follows it. */
  lemma ScansDecimalProduct(text: string)
    requires text == "12.5x"
    ensures Scanned(text) == Success([Numeric(12.5), Multiply, Char("x")])
  {
    ReadsDecimalProduct(text);
    var raw := [Numeric(12.5), Char("x")];
    assert [] + raw == raw;
    NumeralLetterJoint(raw, 12.5, "x");
  }

  // ---------------------------------------------------------------------
  // The imperative scanner
  // ---------------------------------------------------------------------

  /** The second loop of scan_tokens: copy the tokens front to back, remembering the previous one, and put a Multiply before each token whose pair needs one. */
  method InsertMultiplies(raw: seq<Token>) returns (out: seq<Token>)
    ensures out == ImplicitMultiply(raw)
  {
    var prev: Option<Token> := None;
    out := [];
    for k := 0 to |raw|
      invariant out == ImplicitMultiply(raw[..k])
      invariant prev == if k == 0 then None else Some(raw[k - 1])
    {
      var token := raw[k];
      assert raw[..k + 1][..k] == raw[..k];
      if NeedsMultiply(prev, token) {
        out := out + [Multiply];
      }
      out := out + [token];
      prev := Some(token);
    }
    assert raw[..|raw|] == raw;
  }

  class Scanner {
    const text: string
    var start: nat
    var current: nat
    var tokens: seq<Token>

    ghost predicate Valid()
      reads this
    {
      start <= current <= |text|
    }

    constructor (text: string)
      ensures Valid()
      ensures this.text == text && start == 0 && current == 0 && tokens == []
    {
      this.text := text;
      start, current := 0, 0;
      tokens := [];
    }

    predicate IsAtEnd()
      reads this
    {
      current > |text| - 1
    }

    method Advance() returns (c: char)
      requires Valid() && current < |text|
      modifies this
      ensures Valid()
      ensures current == old(current) + 1 && c == text[old(current)]
      ensures start == old(start) && tokens == old(tokens)
    {
      current := current + 1;
      c := text[current - 1];
    }

    /** The next n characters, fewer near the end of the text. */
    function Peek(n: nat): (s: string)
      reads this
      requires current <= |text|
      ensures |s| <= n && current + |s| <= |text|
      ensures s == text[current..current + |s|]
      ensures |s| == n || current + |s| == |text|
    {
      if current + n <= |text| then text[current..current + n] else text[current..]
    }

    method ScanTokens() returns (r: Result<seq<Token>, ScanError>)
      requires Valid()
      modifies this
      ensures Valid()
      ensures r == ScanFrom(text, old(current), old(tokens))
      ensures r.Success? ==>
        (current == |text| && RawTokens(text, old(current)).Success?
         && tokens == old(tokens) + RawTokens(text, old(current)).value)
    {
      AppendedTokensStart(text, current, tokens);
      while !IsAtEnd()
        invariant Valid()
        invariant |old(tokens)| <= |tokens| && tokens[..|old(tokens)|] == old(tokens)
        invariant RawTokens(text, old(current)) == Prepend(tokens[|old(tokens)|..], RawTokens(text, current))
        decreases |text| - current
      {
        start := current;
        ghost var before, from := tokens, current;
        var outcome := ScanToken();
        if outcome.Fail? {
          AppendedTokensFail(text, old(current), from, |old(tokens)|, before);
          return Failure(outcome.error);
        }
        AppendedTokensStep(text, old(current), from, |old(tokens)|, before, tokens);
      }
      AppendedTokensEnd(text, old(current), |old(tokens)|, tokens);

      var out := InsertMultiplies(tokens);
      return Success(out);
    }

    method ScanToken() returns (r: Outcome<ScanError>)
      requires Valid() && start == current && current < |text|
      modifies this
      ensures Valid()
      ensures match ScanStep(text, old(current))
        case Success((emitted, next)) => r == Pass && tokens == old(tokens) + emitted && current == next
        case Failure(e) => r == Fail(e)
    {
      var c := Advance();
      r := Pass;
      match c
      case '(' => AddToken(OpenBracket);
      case ')' => AddToken(CloseBracket);
      case '+' => AddToken(Plus);
      case '-' => AddToken(Minus);
      case '*' => AddToken(Multiply);
      case '/' => AddToken(Divide);
      case '^' => AddToken(Exponent);
      case _ =>
        if IsDigit(c) {
          r := Number();
        } else if IsAlpha(c) {
          CharToken();
        } else if IsSpace(c) {
          // whitespace emits nothing
        } else {
          // an unknown character is reported on the console and skipped
        }
    }

    /** char(): the Char token for the text between start and the cursor. */
    method CharToken()
      requires Valid()
      modifies this
      ensures Valid() && start == old(start) && current == old(current)
      ensures tokens == old(tokens) + [Char(text[start..current])]
    {
      AddToken(Char(text[start..current]));
    }

    /** number(): consume the rest of the numeral begun by the digit at start, then convert it. */
    method Number() returns (r: Outcome<ScanError>)
      requires Valid() && start + 1 == current && IsDigit(text[start])
      modifies this
      ensures Valid() && start == old(start)
      ensures match NumberStep(text, start)
        case Success((emitted, next)) => r == Pass && tokens == old(tokens) + emitted && current == next
        case Failure(e) => r == Fail(e)
    {
      ghost var stop := NumeralEnd(text, current);
      while (var c := Peek(1); IsNumeric(c) || c == ".")
        invariant Valid() && start == old(start) && tokens == old(tokens)
        invariant old(current) <= current && NumeralEnd(text, current) == stop
        decreases |text| - current
      {
        var _ := Advance();
      }
      assert current == stop;
      NumeralLexeme(text, start);
      var lexeme := text[start..current];
      match ParseFloat(lexeme)
      case Some(v) =>
        AddToken(Numeric(v));
        r := Pass;
      case None =>
        r := Fail(InvalidNumeral(lexeme));
    }

    method AddToken(token: Token)
      modifies this
      ensures tokens == old(tokens) + [token]
      ensures start == old(start) && current == old(current)
    {
      tokens := tokens + [token];
    }
  }
}
