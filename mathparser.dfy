/** parse_text: scan the text, then parse an expression from the first token. */
module MathParser {
  import opened Wrappers
  import Scan
  import Parse

  /** Either stage's error: the scanner's float() failure or the parser's ValueError. */
  datatype TextError = Lex(scan: Scan.ScanError) | Syntax(parse: Parse.ParseError)

  /** The tree parse_text returns for a text, or the error it raises. */
  function ParsedText(text: string): Result<Parse.Expr, TextError> {
    match Scan.Scanned(text)
    case Failure(e) => Failure(Lex(e))
    case Success(tokens) =>
      match Parse.ExpressionAt(tokens, 0)
      case Failure(e) => Failure(Syntax(e))
      case Success((tree, _)) => Success(tree)
  }

  /** parse_text: a Scanner over the text, then a Parser over its tokens. */
  method ParseText(text: string) returns (r: Result<Parse.Expr, TextError>)
    ensures r == ParsedText(text)
  {
    var scanner := new Scan.Scanner(text);
    var scanned := scanner.ScanTokens();
    if scanned.Failure? {
      return Failure(Lex(scanned.error));
    }
    var parser := new Parse.Parser(scanned.value);
    var tree := parser.Expression();
    if tree.Failure? {
      return Failure(Syntax(tree.error));
    }
    r := Success(tree.value);
  }

  // ---------------------------------------------------------------------
  // Worked cases: whole texts
  // ---------------------------------------------------------------------

  /** "2x": a numeral followed by a letter multiplies them. */
  lemma ImplicitProduct(text: string)
    requires text == "2x"
    ensures ParsedText(text) == Success(Parse.Product(Parse.Constant(2.0), Parse.Unknown("x")))
  {
    Scan.ScansImplicitProduct(text);
    Parse.ParseProduct(Scan.Scanned(text).value);
  }

  /** "(x+1)(x-1)": adjacent bracketed groups multiply. */
  lemma BracketProduct(text: string)
    requires text == "(x+1)(x-1)"
    ensures ParsedText(text) == Success(Parse.Product(
      Parse.Addition(Parse.Unknown("x"), Parse.Constant(1.0)),
      Parse.Subtraction(Parse.Unknown("x"), Parse.Constant(1.0))))
  {
    Scan.ScansBracketProduct(text);
    Parse.ParseBracketProduct(Scan.Scanned(text).value);
  }

  /** "a-b-c" is (a-b)-c. */
  lemma LeftAssociativeDifference(text: string)
    requires text == "a-b-c"
    ensures ParsedText(text) == Success(Parse.Subtraction(
      Parse.Subtraction(Parse.Unknown("a"), Parse.Unknown("b")), Parse.Unknown("c")))
  {
    Scan.ScansDifference(text);
    Parse.SubtractionLeftAssociative(Scan.Scanned(text).value);
  }

  /** "3+4*2" is 3+(4*2). */
  lemma ProductBeforeSum(text: string)
    requires text == "3+4*2"
    ensures ParsedText(text) == Success(Parse.Addition(
      Parse.Constant(3.0), Parse.Product(Parse.Constant(4.0), Parse.Constant(2.0))))
  {
    Scan.ScansSumOfProduct(text);
    Parse.ProductBindsTighter(Scan.Scanned(text).value);
  }

  /** "2^3^2" is 2^(3^2). */
  lemma RightAssociativePower(text: string)
    requires text == "2^3^2"
    ensures ParsedText(text) == Success(Parse.Power(
      Parse.Constant(2.0), Parse.Power(Parse.Constant(3.0), Parse.Constant(2.0))))
  {
    Scan.ScansTower(text);
    Parse.PowerRightAssociative(Scan.Scanned(text).value);
  }

  /** "xy": two adjacent letters are not multiplied; the tree is the first letter and the second is dropped. */
  lemma AdjacentLettersDropSecond(text: string)
    requires text == "xy"
    ensures ParsedText(text) == Success(Parse.Unknown("x"))
  {
    Scan.ScansTwoLetters(text);
    Parse.AdjacentLettersStop(Scan.Scanned(text).value);
  }

  /** ")": the parser's error. */
  lemma StrayCloseBracket(text: string)
    requires text == ")"
    ensures ParsedText(text) == Failure(Syntax(Parse.NoPrimary))
  {
    Scan.ScansCloseBracket(text);
    Parse.StrayCloseBracketFails(Scan.Scanned(text).value, 0);
  }

  /** The empty text: the parser's error. */
  lemma EmptyText()
    ensures ParsedText("") == Failure(Syntax(Parse.NoPrimary))
  {
    Scan.ScansEmpty();
    Parse.EmptyInputFails();
  }

  /** "1.2.3": the scanner's error. */
  lemma MalformedNumeral(text: string)
    requires text == "1.2.3"
    ensures ParsedText(text) == Failure(Lex(Scan.InvalidNumeral("1.2.3")))
  {
    Scan.MalformedNumeralFails(text);
  }
}
