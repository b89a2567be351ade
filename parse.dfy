/**
 * The recursive-descent parser of parse.py, one method per precedence level:
 *
 *   expression -> term
 *   term       -> factor (("+" | "-") factor)*
 *   factor     -> exponent (("*" | "/") exponent)*
 *   exponent   -> primary ("^" exponent)*
 *   primary    -> NUMERIC | CHAR | "(" expression ")"
 *
 * The parser builds binary nodes (Addition, Subtraction, Product, Quotient,
 * Power); Expr is that tree. The functions ExpressionAt ... PrimaryAt are the
 * specification: each takes the token list and a cursor and returns the tree
 * and the cursor after it, or the error raised. The class Parser is the
 * imperative parser, proved to compute them.
 */
module Parse {
  import opened Wrappers
  import Scan

  datatype Expr =
    | Constant(num: real)
    | Unknown(term: string)
    | Addition(left: Expr, right: Expr)
    | Subtraction(left: Expr, right: Expr)
    | Product(left: Expr, right: Expr)
    | Quotient(left: Expr, right: Expr)
    | Power(left: Expr, right: Expr)
  {
    predicate IsBinary() {
      !Constant? && !Unknown?
    }
  }

  /** The ValueErrors the parser raises. */
  datatype ParseError =
    | InvalidOperator(operator: Scan.Token)  // "invalid operator ..."
    | MissingCloseBracket                    // "Missing ')' character"
    | NoPrimary                              // "How did we get here"

  predicate IsOperator(t: Scan.Token) {
    t.Plus? || t.Minus? || t.Multiply? || t.Divide? || t.Exponent?
  }

  /** The operator token a binary node stands for. */
  function OperatorOf(e: Expr): Scan.Token
    requires e.IsBinary()
  {
    match e
    case Addition(_, _) => Scan.Plus
    case Subtraction(_, _) => Scan.Minus
    case Product(_, _) => Scan.Multiply
    case Quotient(_, _) => Scan.Divide
    case Power(_, _) => Scan.Exponent
  }

  /** build_binary_math_object: the node for an operator token, with both operands kept in place. */
  function BuildBinary(left: Expr, operator: Scan.Token, right: Expr): (r: Result<Expr, ParseError>)
    ensures r.Success? <==> IsOperator(operator)
    ensures r.Success? ==>
      r.value.IsBinary() && OperatorOf(r.value) == operator && r.value.left == left && r.value.right == right
    ensures r.Failure? ==> r.error == InvalidOperator(operator)
  {
    match operator
    case Plus => Success(Addition(left, right))
    case Minus => Success(Subtraction(left, right))
    case Multiply => Success(Product(left, right))
    case Divide => Success(Quotient(left, right))
    case Exponent => Success(Power(left, right))
    case _ => Failure(InvalidOperator(operator))
  }

  // ---------------------------------------------------------------------
  // The grammar as functions of (tokens, cursor)
  // ---------------------------------------------------------------------

  /** A parsed tree with the cursor just after it, or the error raised. */
  type Parsed = Result<(Expr, nat), ParseError>

  /** check(*kinds): there is a next token and it is of one of the kinds. */
  predicate NextIs(tokens: seq<Scan.Token>, pos: nat, kinds: set<Scan.TokenKind>) {
    pos < |tokens| && tokens[pos].Kind() in kinds
  }

  /** What every rule promises: the cursor only moves forward and stays in the list, and no invalid operator is built. */
  predicate Sound(tokens: seq<Scan.Token>, pos: nat, r: Parsed) {
    (r.Success? ==> pos <= r.value.1 <= |tokens|) &&
    (r.Failure? ==> !r.error.InvalidOperator?)
  }

  const AddOps: set<Scan.TokenKind> := {Scan.PlusKind, Scan.MinusKind}
  const MulOps: set<Scan.TokenKind> := {Scan.MultiplyKind, Scan.DivideKind}
  const PowOps: set<Scan.TokenKind> := {Scan.ExponentKind}

  function ExpressionAt(tokens: seq<Scan.Token>, pos: nat): (r: Parsed)
    requires pos <= |tokens|
    ensures Sound(tokens, pos, r)
    ensures r.Success? ==> !NextIs(tokens, r.value.1, AddOps)
    decreases |tokens| - pos, 7
  {
    TermAt(tokens, pos)
  }

  function TermAt(tokens: seq<Scan.Token>, pos: nat): (r: Parsed)
    requires pos <= |tokens|
    ensures Sound(tokens, pos, r)
    ensures r.Success? ==> !NextIs(tokens, r.value.1, AddOps)
    decreases |tokens| - pos, 6
  {
    match FactorAt(tokens, pos)
    case Failure(e) => Failure(e)
    case Success((left, next)) => TermLoop(tokens, left, next)
  }

  /** The while loop of term(), entered with the tree built so far and the cursor at pos. */
  function TermLoop(tokens: seq<Scan.Token>, left: Expr, pos: nat): (r: Parsed)
    requires pos <= |tokens|
    ensures Sound(tokens, pos, r)
    ensures r.Success? ==> !NextIs(tokens, r.value.1, AddOps)
    decreases |tokens| - pos, 5
  {
    if NextIs(tokens, pos, AddOps) then
      match FactorAt(tokens, pos + 1)
      case Failure(e) => Failure(e)
      case Success((right, next)) =>
        match BuildBinary(left, tokens[pos], right)
        case Failure(e) => Failure(e)
        case Success(node) => TermLoop(tokens, node, next)
    else
      Success((left, pos))
  }

  function FactorAt(tokens: seq<Scan.Token>, pos: nat): (r: Parsed)
    requires pos <= |tokens|
    ensures Sound(tokens, pos, r)
    ensures r.Success? ==> !NextIs(tokens, r.value.1, MulOps)
    decreases |tokens| - pos, 4
  {
    match ExponentAt(tokens, pos)
    case Failure(e) => Failure(e)
    case Success((left, next)) => FactorLoop(tokens, left, next)
  }

  /** The while loop of factor(). */
  function FactorLoop(tokens: seq<Scan.Token>, left: Expr, pos: nat): (r: Parsed)
    requires pos <= |tokens|
    ensures Sound(tokens, pos, r)
    ensures r.Success? ==> !NextIs(tokens, r.value.1, MulOps)
    decreases |tokens| - pos, 3
  {
    if NextIs(tokens, pos, MulOps) then
      match ExponentAt(tokens, pos + 1)
      case Failure(e) => Failure(e)
      case Success((right, next)) =>
        match BuildBinary(left, tokens[pos], right)
        case Failure(e) => Failure(e)
        case Success(node) => FactorLoop(tokens, node, next)
    else
      Success((left, pos))
  }

  function ExponentAt(tokens: seq<Scan.Token>, pos: nat): (r: Parsed)
    requires pos <= |tokens|
    ensures Sound(tokens, pos, r)
    ensures r.Success? ==> !NextIs(tokens, r.value.1, PowOps)
    decreases |tokens| - pos, 2
  {
    match PrimaryAt(tokens, pos)
    case Failure(e) => Failure(e)
    case Success((left, next)) => ExponentLoop(tokens, left, next)
  }

  /** The while loop of exponent(); its body parses the right operand by recursing into exponent(). */
  function ExponentLoop(tokens: seq<Scan.Token>, left: Expr, pos: nat): (r: Parsed)
    requires pos <= |tokens|
    ensures Sound(tokens, pos, r)
    ensures r.Success? ==> !NextIs(tokens, r.value.1, PowOps)
    decreases |tokens| - pos, 1
  {
    if NextIs(tokens, pos, PowOps) then
      match ExponentAt(tokens, pos + 1)
      case Failure(e) => Failure(e)
      case Success((right, next)) =>
        match BuildBinary(left, Scan.Exponent, right)
        case Failure(e) => Failure(e)
        case Success(node) => ExponentLoop(tokens, node, next)
    else
      Success((left, pos))
  }

  function PrimaryAt(tokens: seq<Scan.Token>, pos: nat): (r: Parsed)
    requires pos <= |tokens|
    ensures Sound(tokens, pos, r)
    ensures r.Success? ==> pos < r.value.1
    decreases |tokens| - pos, 0
  {
    if NextIs(tokens, pos, {Scan.NumericKind}) then
      Success((Constant(tokens[pos].num), pos + 1))
    else if NextIs(tokens, pos, {Scan.CharKind}) then
      Success((Unknown(tokens[pos].name), pos + 1))
    else if NextIs(tokens, pos, {Scan.OpenBracketKind}) then
      match ExpressionAt(tokens, pos + 1)
      case Failure(e) => Failure(e)
      case Success((inner, next)) =>
        if NextIs(tokens, next, {Scan.CloseBracketKind}) then Success((inner, next + 1))
        else Failure(MissingCloseBracket)
    else
      Failure(NoPrimary)
  }

  // ---------------------------------------------------------------------
  // Properties of the grammar
  // ---------------------------------------------------------------------

  /**
   * "^" is right-associative: a primary followed by "^" parses to a Power
   * whose right operand is everything exponent() parses after the "^", so the
   * loop in exponent() never runs a second time.
   */
  lemma ExponentRightAssociative(tokens: seq<Scan.Token>, pos: nat)
    requires pos <= |tokens|
    requires PrimaryAt(tokens, pos).Success?
    ensures var (base, next) := PrimaryAt(tokens, pos).value;
      if !NextIs(tokens, next, PowOps) then
        ExponentAt(tokens, pos) == Success((base, next))
      else
        match ExponentAt(tokens, next + 1)
        case Success((exponent, after)) => ExponentAt(tokens, pos) == Success((Power(base, exponent), after))
        case Failure(e) => ExponentAt(tokens, pos) == Failure(e)
  {
    var (base, next) := PrimaryAt(tokens, pos).value;
    if NextIs(tokens, next, PowOps) && ExponentAt(tokens, next + 1).Success? {
      var (exponent, after) := ExponentAt(tokens, next + 1).value;
      assert ExponentLoop(tokens, Power(base, exponent), after) == Success((Power(base, exponent), after));
    }
  }

  /** An empty token list has no primary. */
  lemma EmptyInputFails()
    ensures ExpressionAt([], 0) == Failure(NoPrimary)
  {
  }

  /** A bracketed expression is its inner tree: the brackets add no node. */
  lemma BracketsAddNoNode(tokens: seq<Scan.Token>, pos: nat)
    requires pos < |tokens| && tokens[pos] == Scan.OpenBracket
    requires ExpressionAt(tokens, pos + 1).Success?
    ensures var (inner, next) := ExpressionAt(tokens, pos + 1).value;
      PrimaryAt(tokens, pos)
        == if next < |tokens| && tokens[next] == Scan.CloseBracket then Success((inner, next + 1))
           else Failure(MissingCloseBracket)
  {
  }

  /** A numeral or letter not followed by "^" is a whole exponent: its leaf. */
  lemma LeafExponent(tokens: seq<Scan.Token>, pos: nat)
    requires pos < |tokens| && (tokens[pos].Numeric? || tokens[pos].Char?)
    requires !NextIs(tokens, pos + 1, PowOps)
    ensures ExponentAt(tokens, pos)
      == Success((if tokens[pos].Numeric? then Constant(tokens[pos].num) else Unknown(tokens[pos].name), pos + 1))
  {
    var leaf := if tokens[pos].Numeric? then Constant(tokens[pos].num) else Unknown(tokens[pos].name);
    assert PrimaryAt(tokens, pos) == Success((leaf, pos + 1));
    assert ExponentLoop(tokens, leaf, pos + 1) == Success((leaf, pos + 1));
  }

  /** A leaf operand not followed by "^", "*" or "/" is a whole factor. */
  lemma LeafFactor(tokens: seq<Scan.Token>, pos: nat)
    requires pos < |tokens| && (tokens[pos].Numeric? || tokens[pos].Char?)
    requires !NextIs(tokens, pos + 1, PowOps) && !NextIs(tokens, pos + 1, MulOps)
    ensures FactorAt(tokens, pos)
      == Success((if tokens[pos].Numeric? then Constant(tokens[pos].num) else Unknown(tokens[pos].name), pos + 1))
  {
    var leaf := if tokens[pos].Numeric? then Constant(tokens[pos].num) else Unknown(tokens[pos].name);
    LeafExponent(tokens, pos);
    assert FactorLoop(tokens, leaf, pos + 1) == Success((leaf, pos + 1));
  }

  /** A factor not followed by "+" or "-" is the whole expression. */
  lemma WholeFactor(tokens: seq<Scan.Token>, pos: nat)
    requires pos <= |tokens| && FactorAt(tokens, pos).Success?
    requires !NextIs(tokens, FactorAt(tokens, pos).value.1, AddOps)
    ensures ExpressionAt(tokens, pos) == FactorAt(tokens, pos)
  {
    var (e, next) := FactorAt(tokens, pos).value;
    assert TermLoop(tokens, e, next) == Success((e, next));
  }

  /** An error at the first primary is the error of the whole expression. */
  lemma FailsAtPrimary(tokens: seq<Scan.Token>, pos: nat)
    requires pos <= |tokens| && PrimaryAt(tokens, pos).Failure?
    ensures ExpressionAt(tokens, pos) == Failure(PrimaryAt(tokens, pos).error)
  {
    var e := PrimaryAt(tokens, pos).error;
    assert ExponentAt(tokens, pos) == Failure(e);
    assert FactorAt(tokens, pos) == Failure(e);
    assert TermAt(tokens, pos) == Failure(e);
  }

  /** "2x", once scanned: the constant times the unknown. */
  lemma ParseProduct(tokens: seq<Scan.Token>)
    requires tokens == [Scan.Numeric(2.0), Scan.Multiply, Scan.Char("x")]
    ensures ExpressionAt(tokens, 0) == Success((Product(Constant(2.0), Unknown("x")), 3))
  {
    var product := Product(Constant(2.0), Unknown("x"));
    LeafExponent(tokens, 0);
    LeafExponent(tokens, 2);
    assert FactorLoop(tokens, product, 3) == Success((product, 3));
    assert FactorLoop(tokens, Constant(2.0), 1) == Success((product, 3));
    WholeFactor(tokens, 0);
  }


  /** "a-b-c": subtraction folds to the left. */
  lemma SubtractionLeftAssociative(tokens: seq<Scan.Token>)
    requires tokens == [Scan.Char("a"), Scan.Minus, Scan.Char("b"), Scan.Minus, Scan.Char("c")]
    ensures ExpressionAt(tokens, 0) == Success((Subtraction(Subtraction(Unknown("a"), Unknown("b")), Unknown("c")), 5))
  {
    var a, b, c := Unknown("a"), Unknown("b"), Unknown("c");
    LeafFactor(tokens, 0);
    LeafFactor(tokens, 2);
    LeafFactor(tokens, 4);
    assert TermLoop(tokens, Subtraction(Subtraction(a, b), c), 5) == Success((Subtraction(Subtraction(a, b), c), 5));
    assert TermLoop(tokens, Subtraction(a, b), 3) == Success((Subtraction(Subtraction(a, b), c), 5));
    assert TermLoop(tokens, a, 1) == Success((Subtraction(Subtraction(a, b), c), 5));
  }


  /** "3+4*2": the product binds tighter than the sum. */
  lemma ProductBindsTighter(tokens: seq<Scan.Token>)
    requires tokens == [Scan.Numeric(3.0), Scan.Plus, Scan.Numeric(4.0), Scan.Multiply, Scan.Numeric(2.0)]
    ensures ExpressionAt(tokens, 0) == Success((Addition(Constant(3.0), Product(Constant(4.0), Constant(2.0))), 5))
  {
    var product := Product(Constant(4.0), Constant(2.0));
    var sum := Addition(Constant(3.0), product);
    LeafFactor(tokens, 0);
    LeafExponent(tokens, 2);
    LeafExponent(tokens, 4);
    assert FactorLoop(tokens, product, 5) == Success((product, 5));
    assert FactorLoop(tokens, Constant(4.0), 3) == Success((product, 5));
    assert FactorAt(tokens, 2) == Success((product, 5));
    assert TermLoop(tokens, sum, 5) == Success((sum, 5));
    assert TermLoop(tokens, Constant(3.0), 1) == Success((sum, 5));
  }


  /** "2^3^2": the power is right-associative. */
  lemma PowerRightAssociative(tokens: seq<Scan.Token>)
    requires tokens == [Scan.Numeric(2.0), Scan.Exponent, Scan.Numeric(3.0), Scan.Exponent, Scan.Numeric(2.0)]
    ensures ExpressionAt(tokens, 0) == Success((Power(Constant(2.0), Power(Constant(3.0), Constant(2.0))), 5))
  {
    var inner := Power(Constant(3.0), Constant(2.0));
    var top := Power(Constant(2.0), inner);
    LeafExponent(tokens, 4);
    assert PrimaryAt(tokens, 2) == Success((Constant(3.0), 3));
    assert ExponentLoop(tokens, inner, 5) == Success((inner, 5));
    assert ExponentLoop(tokens, Constant(3.0), 3) == Success((inner, 5));
    assert ExponentAt(tokens, 2) == Success((inner, 5));
    assert PrimaryAt(tokens, 0) == Success((Constant(2.0), 1));
    assert ExponentLoop(tokens, top, 5) == Success((top, 5));
    assert ExponentLoop(tokens, Constant(2.0), 1) == Success((top, 5));
    assert ExponentAt(tokens, 0) == Success((top, 5));
    assert FactorLoop(tokens, top, 5) == Success((top, 5));
    WholeFactor(tokens, 0);
  }


  /** A bracketed "(v + n)" or "(v - n)" not raised to a power parses to the one binary node. */
  lemma BracketedBinomial(tokens: seq<Scan.Token>, pos: nat)
    requires pos + 5 <= |tokens|
    requires tokens[pos] == Scan.OpenBracket && tokens[pos + 1].Char?
    requires tokens[pos + 2] == Scan.Plus || tokens[pos + 2] == Scan.Minus
    requires tokens[pos + 3].Numeric? && tokens[pos + 4] == Scan.CloseBracket
    requires !NextIs(tokens, pos + 5, PowOps)
    ensures BuildBinary(Unknown(tokens[pos + 1].name), tokens[pos + 2], Constant(tokens[pos + 3].num)).Success?
    ensures ExponentAt(tokens, pos)
      == Success((BuildBinary(Unknown(tokens[pos + 1].name), tokens[pos + 2], Constant(tokens[pos + 3].num)).value, pos + 5))
  {
    var node := BuildBinary(Unknown(tokens[pos + 1].name), tokens[pos + 2], Constant(tokens[pos + 3].num)).value;
    LeafFactor(tokens, pos + 1);
    LeafFactor(tokens, pos + 3);
    assert NextIs(tokens, pos + 2, AddOps) && !NextIs(tokens, pos + 4, AddOps);
    assert TermLoop(tokens, node, pos + 4) == Success((node, pos + 4));
    assert TermLoop(tokens, Unknown(tokens[pos + 1].name), pos + 2) == Success((node, pos + 4));
    assert TermAt(tokens, pos + 1) == Success((node, pos + 4));
    BracketsAddNoNode(tokens, pos);
    assert ExponentLoop(tokens, node, pos + 5) == Success((node, pos + 5));
  }

  /** The product of two bracketed binomials, with nothing after it. */
  lemma ProductOfBinomials(tokens: seq<Scan.Token>, left: Expr, right: Expr)
    requires |tokens| == 11 && tokens[5] == Scan.Multiply
    requires tokens[0] == Scan.OpenBracket && tokens[1].Char? && tokens[3].Numeric? && tokens[4] == Scan.CloseBracket
    requires tokens[6] == Scan.OpenBracket && tokens[7].Char? && tokens[9].Numeric? && tokens[10] == Scan.CloseBracket
    requires BuildBinary(Unknown(tokens[1].name), tokens[2], Constant(tokens[3].num)) == Success(left)
    requires BuildBinary(Unknown(tokens[7].name), tokens[8], Constant(tokens[9].num)) == Success(right)
    requires tokens[2] == Scan.Plus || tokens[2] == Scan.Minus
    requires tokens[8] == Scan.Plus || tokens[8] == Scan.Minus
    ensures ExpressionAt(tokens, 0) == Success((Product(left, right), 11))
  {
    BracketedBinomial(tokens, 0);
    BracketedBinomial(tokens, 6);
    assert FactorLoop(tokens, Product(left, right), 11) == Success((Product(left, right), 11));
    assert ExponentAt(tokens, 0) == Success((left, 5));
    assert ExponentAt(tokens, 6) == Success((right, 11));
    assert NextIs(tokens, 5, MulOps);
    assert FactorLoop(tokens, left, 5) == Success((Product(left, right), 11));
    assert FactorAt(tokens, 0) == Success((Product(left, right), 11));
    assert TermLoop(tokens, Product(left, right), 11) == Success((Product(left, right), 11));
    assert TermAt(tokens, 0) == Success((Product(left, right), 11));
  }

  /** "(x+1)(x-1)", once scanned: the product of the two bracketed trees. */
  lemma ParseBracketProduct(tokens: seq<Scan.Token>)
    requires tokens == [Scan.OpenBracket, Scan.Char("x"), Scan.Plus, Scan.Numeric(1.0), Scan.CloseBracket, Scan.Multiply,
                        Scan.OpenBracket, Scan.Char("x"), Scan.Minus, Scan.Numeric(1.0), Scan.CloseBracket]
    ensures ExpressionAt(tokens, 0)
      == Success((Product(Addition(Unknown("x"), Constant(1.0)), Subtraction(Unknown("x"), Constant(1.0))), 11))
  {
    ProductOfBinomials(tokens, Addition(Unknown("x"), Constant(1.0)), Subtraction(Unknown("x"), Constant(1.0)));
  }

  /** "xy", once scanned: parsing stops after the first letter and leaves the second unread. */
  lemma AdjacentLettersStop(tokens: seq<Scan.Token>)
    requires tokens == [Scan.Char("x"), Scan.Char("y")]
    ensures ExpressionAt(tokens, 0) == Success((Unknown("x"), 1))
  {
    LeafFactor(tokens, 0);
    WholeFactor(tokens, 0);
  }


  /** ")": a closing bracket cannot start an expression. */
  lemma StrayCloseBracketFails(tokens: seq<Scan.Token>, pos: nat)
    requires pos < |tokens| && tokens[pos] == Scan.CloseBracket
    ensures ExpressionAt(tokens, pos) == Failure(NoPrimary)
  {
    FailsAtPrimary(tokens, pos);
  }


  /** "(x": an opening bracket whose expression is not followed by ")". */
  lemma UnclosedBracketFails(tokens: seq<Scan.Token>)
    requires tokens == [Scan.OpenBracket, Scan.Char("x")]
    ensures ExpressionAt(tokens, 0) == Failure(MissingCloseBracket)
  {
    LeafFactor(tokens, 1);
    WholeFactor(tokens, 1);
    assert PrimaryAt(tokens, 0) == Failure(MissingCloseBracket);
    FailsAtPrimary(tokens, 0);
  }


  // ---------------------------------------------------------------------
  // The imperative parser
  // ---------------------------------------------------------------------

  /** The outcome of a parsing method together with the cursor it left behind. */
  function Pack(r: Result<Expr, ParseError>, pos: nat): Parsed {
    match r
    case Success(e) => Success((e, pos))
    case Failure(e) => Failure(e)
  }

  class Parser {
    const tokens: seq<Scan.Token>
    var current: nat

    ghost predicate Valid()
      reads this
    {
      current <= |tokens|
    }

    constructor (tokens: seq<Scan.Token>)
      ensures Valid()
      ensures this.tokens == tokens && current == 0
    {
      this.tokens := tokens;
      current := 0;
    }

    predicate IsAtEnd()
      reads this
    {
      current > |tokens| - 1
    }

    function Peek(): Scan.Token
      reads this
      requires current < |tokens|
    {
      tokens[current]
    }

    /** The token before the cursor; like Python's tokens[-1], the last token when the cursor is at 0. */
    function Previous(): (t: Scan.Token)
      reads this
      requires 0 < |tokens| && current <= |tokens|
      ensures t == tokens[(current - 1) % |tokens|]
    {
      if current == 0 then tokens[|tokens| - 1] else tokens[current - 1]
    }

    predicate Check(kinds: set<Scan.TokenKind>)
      reads this
      ensures Check(kinds) <==> NextIs(tokens, current, kinds)
    {
      if IsAtEnd() then false else Peek().Kind() in kinds
    }

    method Advance() returns (t: Scan.Token)
      requires current < |tokens|
      modifies this
      ensures current == old(current) + 1 && t == tokens[old(current)]
    {
      current := current + 1;
      t := Previous();
    }

    method Match(kinds: set<Scan.TokenKind>) returns (matched: bool)
      requires Valid()
      modifies this
      ensures Valid()
      ensures matched == old(NextIs(tokens, current, kinds))
      ensures current == if matched then old(current) + 1 else old(current)
    {
      if Check(kinds) {
        var _ := Advance();
        return true;
      }
      return false;
    }

    method Expression() returns (r: Result<Expr, ParseError>)
      requires Valid()
      modifies this
      ensures Valid() && old(current) <= current
      ensures Pack(r, current) == ExpressionAt(tokens, old(current))
      decreases |tokens| - current, 7
    {
      r := Term();
    }

    method Term() returns (r: Result<Expr, ParseError>)
      requires Valid()
      modifies this
      ensures Valid() && old(current) <= current
      ensures Pack(r, current) == TermAt(tokens, old(current))
      decreases |tokens| - current, 6
    {
      var expr :- Factor();
      while true
        invariant Valid() && old(current) <= current
        invariant TermLoop(tokens, expr, current) == TermAt(tokens, old(current))
        decreases |tokens| - current
      {
        var matched := Match(AddOps);
        if !matched {
          break;
        }
        var operator := Previous();
        var right :- Factor();
        expr :- BuildBinary(expr, operator, right);
      }
      r := Success(expr);
    }

    method Factor() returns (r: Result<Expr, ParseError>)
      requires Valid()
      modifies this
      ensures Valid() && old(current) <= current
      ensures Pack(r, current) == FactorAt(tokens, old(current))
      decreases |tokens| - current, 4
    {
      var expr :- Exponent();
      while true
        invariant Valid() && old(current) <= current
        invariant FactorLoop(tokens, expr, current) == FactorAt(tokens, old(current))
        decreases |tokens| - current
      {
        var matched := Match(MulOps);
        if !matched {
          break;
        }
        var operator := Previous();
        var right :- Exponent();
        expr :- BuildBinary(expr, operator, right);
      }
      r := Success(expr);
    }

    method Exponent() returns (r: Result<Expr, ParseError>)
      requires Valid()
      modifies this
      ensures Valid() && old(current) <= current
      ensures Pack(r, current) == ExponentAt(tokens, old(current))
      decreases |tokens| - current, 2
    {
      var left :- Primary();
      while true
        invariant Valid() && old(current) <= current
        invariant ExponentLoop(tokens, left, current) == ExponentAt(tokens, old(current))
        decreases |tokens| - current
      {
        var matched := Match(PowOps);
        if !matched {
          break;
        }
        var right :- Exponent();
        left :- BuildBinary(left, Scan.Exponent, right);
      }
      r := Success(left);
    }

    method Primary() returns (r: Result<Expr, ParseError>)
      requires Valid()
      modifies this
      ensures Valid() && old(current) <= current
      ensures Pack(r, current) == PrimaryAt(tokens, old(current))
      decreases |tokens| - current, 0
    {
      var matched := Match({Scan.NumericKind});
      if matched {
        var p := Previous();
        return Success(Constant(p.num));
      }
      matched := Match({Scan.CharKind});
      if matched {
        var p := Previous();
        return Success(Unknown(p.name));
      }
      matched := Match({Scan.OpenBracketKind});
      if matched {
        var expr :- Expression();
        var closed := Match({Scan.CloseBracketKind});
        if !closed {
          return Failure(MissingCloseBracket);
        }
        return Success(expr);
      }
      return Failure(NoPrimary);
    }
  }
}
