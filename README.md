# math-parser, modelled in Dafny

math-parser reads arithmetic text such as `2x^2 + 3(x-1)` and turns it into a tree. A scanner (`scan.py`) turns the text into tokens. It emits one token per operator, bracket, letter or numeral. A second pass then inserts a `Multiply` token between exactly five kinds of adjacent pairs: numeral then letter, numeral then `(`, letter then `(`, `)` then letter, and `)` then `(`. So `2x` and `(x+1)(x-1)` are products, while `xy`, `x2` and `)2` get nothing inserted. A recursive-descent parser (`parse.py`) builds a binary tree from the tokens, with the usual precedence and with `^` right-associative. `parse_text` (`mathparser.py`) chains the two stages.

A separate list-based tree (`models.py`) carries three algorithms:
- `simplify`, which repeats a one-pass identity removal (`_simplify`) until the tree stops changing;
- `differentiate`, which applies the sum, product, power and quotient rules;
- `format`, which renders the tree as text, with brackets that depend on the parent node.

The project has five modules:

- `Wrappers` (`wrappers.dfy`): `Option`, `Result` and `Outcome`. These stand in for Python's exceptions.
- `Scan` (`scan.dfy`): the tokens and the scanner.
  - Pure functions specify the scanner: `ScanStep` (one `scan_token` call), `RawTokens` (the first pass), `ImplicitMultiply` (the second pass) and `Scanned` (the whole of `scan_tokens`). Lemmas state their properties.
  - The class `Scanner` has the source's fields (`text`, `start`, `current`, `tokens`). Its methods loop and update those fields. They are proved to compute the specification functions.
- `Parse` (`parse.dfy`): the parser's own binary tree `Expr`.
  - The grammar is written as mutually recursive functions of (token list, cursor): `ExpressionAt`, `TermAt`/`TermLoop`, `FactorAt`/`FactorLoop`, `ExponentAt`/`ExponentLoop` and `PrimaryAt`. Each returns the tree and the cursor after it, or the error raised.
  - The class `Parser` holds `tokens` and the cursor `current`. Its `while` loops are proved to compute those functions.
- `Models` (`models.dfy`): the list-based `MathObject`.
  - `Step` is `_simplify`. `Simplified` specifies `simplify`, and the method `Simplify` is its loop.
  - `Differentiate` is `differentiate`, and `Format` is `format`.
- `MathParser` (`mathparser.py`'s `parse_text`): `ParsedText` specifies it, and the method `ParseText` runs a `Scanner` and then a `Parser`.

## Modelling decisions

- Python's default values are made explicit. The dataclass field `term: str = "x"` of `Unknown` (`models.py:40`) has no default in `Models.Unknown(term)`, and `peek(n: int = 1)` (`scan.py:72`) is `Scanner.Peek(n)` with no default. No modelled path relies on the defaults: the parser always passes the letter it read, and the one modelled call to `peek` (`scan.py:138`) uses the default 1, which the model passes explicitly.
- Numbers are reals. `float(lexeme)` is `ParseFloat`, which gives the exact decimal value of a run of digits and dots. It gives `None` exactly where `float` raises: unless the lexeme has at most one dot and at least one digit. So more than one dot, a lone dot and the empty lexeme are rejected.
- The `:g` rendering of numbers in `format` is a parameter `g: real -> string` of `Format`.
- `str.isnumeric`, `str.isalpha` and `str.isspace` are restricted to ASCII digits, letters and whitespace.
- Python's exceptions become `Failure` values:
  - `InvalidNumeral` is `float()`'s `ValueError`.
  - `InvalidOperator`, `MissingCloseBracket` and `NoPrimary` are the parser's three `ValueError`s.
- An unknown character is printed in the source. Here it is skipped silently.
- `char()` takes exactly one letter, so `xy` scans to two `Char` tokens. Nothing is inserted between them, and `parse_text("xy")` is `Unknown("x")`, with `y` left unread (`MathParser.AdjacentLettersDropSecond`).
- `Sum([x, Constant(0)])` simplifies to the one-term `Sum([x])`, because a `Sum` is a list that `_simplify` never collapses (`Models.SimplifyDropsZeroTerm`).
- `float("1.2.3")` raises, so scanning `1.2.3` fails (`Scan.MalformedNumeralFails`).
- Exponents render as `^` followed by the `:g` text of the exponent.
- The grammar comment at `parse.py:30` reads `exponent -> (primary "^")* exponent`. The model follows the code at `parse.py:103-109`: a primary, then `^` and a recursive exponent.
- The parser builds `Addition` and `Subtraction`, which are not defined in `models.py`. It also builds `Product(left, right)` and `Power(left, right)` with an expression exponent, whereas `models.py` has a list-based `Product` and a numeric exponent. So the parser's tree is its own datatype, `Parse.Expr`, and no conversion into `Models.MathObject` is modelled.

## Model

| member | source | states |
|---|---|---|
| Scan.ParseFloat | scan.py:140 | The definition of `float()` on a numeral lexeme: its exact decimal value, or `None` where Python raises. Its domain is stated by `ParseFloatDefined`. |
| Scan.NumeralEnd | scan.py:137-139 | The numeral loop stops at the first character that is neither a digit nor '.'. Every character it passed is a digit or '.'. It never runs past the text. |
| Scan.ParseFloatDefined | scan.py:140 | `float()` accepts a digits-and-dots lexeme exactly when the lexeme has at most one dot and at least one digit (fewer dots than characters). |
| Scan.FirstDotCount | scan.py:140 | A lexeme whose first dot is at index d has one dot more than the part after d. |
| Scan.NumberStep | scan.py:137-140 | When it succeeds, `number()` emits exactly one `Numeric` token and leaves the cursor at the end of the maximal numeral. |
| Scan.NumberStepValue | scan.py:137-140 | The consumed lexeme holds only digits and dots. `number()` emits `Numeric` of exactly `float()`'s value on it, and fails with that lexeme exactly where `float()` raises. |
| Scan.NumeralLexeme | scan.py:137-139 | The lexeme the numeral loop consumes, from its first digit to where it stops, holds only digits and dots. |
| Scan.ScanStep | scan.py:108-132 | One `scan_token` call moves the cursor strictly forward, within the text, and emits at most one token. It fails only when the character is a digit. |
| Scan.OperatorToken | scan.py:110-124 | The definition of the seven one-character tokens `( ) + - * / ^`. `CharacterTokens` states what each yields. |
| Scan.CharacterTokens | scan.py:109-135 | Each of `( ) + - * / ^` yields exactly its own token. A letter yields a `Char` of exactly that letter. Whitespace, a '.' outside a numeral and any other unknown character yield nothing. In every case the cursor moves past that one character. |
| Scan.RawTokens | scan.py:86-88 | The first pass emits at most one token per character of the text. |
| Scan.RawTokensSymbols | scan.py:108-135 | Leaving numerals aside, the first pass emits exactly one token per operator, bracket and letter, in text order. |
| Scan.ScanFrom | scan.py:85-106 | The definition of `scan_tokens` from a given cursor and token list: the first pass, then the second pass. `ScanFromStep` and `Scanner.ScanTokens` are stated against it. |
| Scan.Scanned | scan.py:85-106 | The definition of `scan_tokens` on a fresh scanner. `ScanFailsOnlyOnNumerals`, `ScannedShort` and the worked `Scans` lemmas state its properties. |
| Scan.ScanFromStep | scan.py:86-88 | One iteration of the main loop takes the scan from one cursor to the next without changing its final result, or ends it with the step's error. |
| Scan.NumeralTotal | scan.py:137-140 | In a text with at most one dot, a numeral always converts and leaves at most one dot after it. |
| Scan.RawTokensTotal | scan.py:85-88 | The first pass succeeds on every text with at most one dot. |
| Scan.FailureHasDigit | scan.py:125-126 | A failing first pass has a digit at or after its starting point. |
| Scan.ScanFailsOnlyOnNumerals | scan.py:137-140 | A text with at most one dot always scans. A text that fails to scan contains a digit. |
| Scan.MalformedNumeralFails | scan.py:140 | `1.2.3` is one numeral lexeme, and `float()` rejects it, so scanning fails with that lexeme. |
| Scan.NeedsMultiply | scan.py:93-101 | The definition of the five (previous, current) patterns of the `match` that inserts a `Multiply`. |
| Scan.ImplicitMultiply | scan.py:90-106 | The definition of the second pass. `ImplicitMultiplyLength`, `ImplicitMultiplyAt`, `ImplicitMultiplyLayout` and `ImplicitMultiplyForward` state its properties. |
| Scan.ImplicitMultiplyLength | scan.py:90-106 | The second pass outputs as many tokens as it received, plus one per adjacent pair that needs a `Multiply`. |
| Scan.ImplicitMultiplyAt | scan.py:90-106 | Raw token i lands at its position in the output. Just before it is an inserted `Multiply` when the pair needs one, and the previous raw token otherwise. |
| Scan.ImplicitMultiplyLayout | scan.py:90-106 | Every raw token is kept, in order. A `Multiply` precedes a token exactly when its pair needs one, never before the first token. The length is the raw length plus the number of joints. |
| Scan.ImplicitMultiplySplit | scan.py:90-106 | The second pass over a concatenation is the pass over the front, then the front-to-back pass over the rest, starting from the front's last token. |
| Scan.ImplicitMultiplySnoc | scan.py:94-104 | Appending one raw token appends it to the output, after a `Multiply` exactly when its pair with the previous token needs one. |
| Scan.ImplicitMultiplyForward | scan.py:90-106 | The second pass equals Python's front-to-back loop that remembers the previous token. |
| Scan.NoJointsNoInsert | scan.py:92-105 | Where no adjacent pair needs a `Multiply`, the second pass changes nothing. |
| Scan.ImplicitMultiplyAfterSplit | scan.py:92-105 | The front-to-back pass splits at any index, carrying the previous token across the split. |
| Scan.OneJointOneInsert | scan.py:92-105 | Where exactly one pair needs a `Multiply`, exactly that one is inserted and every other token keeps its order. |
| Scan.RawTokensShort | scan.py:108-140 | When every numeral is a single digit, the first pass reads each character on its own. |
| Scan.ScannedShort | scan.py:85-106 | For such a text, scanning is the per-character reading followed by the second pass. |
| Scan.ScansImplicitProduct | scan.py:94-101 | `2x` scans to `Numeric(2), Multiply, Char(x)`. |
| Scan.ScansTwoLetters | scan.py:127-128 | `xy` scans to two `Char` tokens with nothing between them. |
| Scan.ScansCloseBracket | scan.py:113-114 | `)` scans to the single `CloseBracket` token. |
| Scan.ScansDifference | scan.py:117-118 | `a-b-c` scans to letters and `Minus` tokens, with nothing inserted. |
| Scan.ScansSumOfProduct | scan.py:115-126 | `3+4*2` scans to numerals and operators, with nothing inserted. |
| Scan.ScansTower | scan.py:123-126 | `2^3^2` scans to numerals and `Exponent` tokens, with nothing inserted. |
| Scan.ScansBracketProduct | scan.py:97-101 | `(x+1)(x-1)` scans with a `Multiply` between `)` and `(`, and only there. |
| Scan.ScansEmpty | scan.py:85-106 | The empty text scans to no tokens. |
| Scan.ParsesDecimal | scan.py:140 | `float("12.5")` is 12.5: the digits before the dot plus the digits after it over ten. |
| Scan.ReadsDecimalProduct | scan.py:86-88 | The first pass over `12.5x` reads the four-character numeral as one `Numeric(12.5)`, then the letter. |
| Scan.NumeralLetterJoint | scan.py:94-101 | The second pass puts one `Multiply` between a numeral and the letter after it, whatever the value and the letter. |
| Scan.ScansDecimalProduct | scan.py:85-140 | `12.5x` scans to `Numeric(12.5), Multiply, Char(x)`. |
| Scan.Scanner.constructor | scan.py:58-62 | A new scanner holds the text, with both cursors at 0 and no tokens. |
| Scan.Scanner.Advance | scan.py:68-70 | `advance` returns the character under the cursor and moves the cursor forward by one. |
| Scan.Scanner.Peek | scan.py:72-73 | `peek(n)` is the next n characters, fewer only at the end of the text. |
| Scan.Scanner.ScanTokens | scan.py:85-106 | `scan_tokens` returns what the specification `ScanFrom` gives for the scanner's cursor and tokens: the first pass over the rest of the text, then the second pass. On success the cursor is at the end of the text and `tokens` is the old tokens followed by the first pass's tokens. |
| Scan.InsertMultiplies | scan.py:90-105 | The second loop of `scan_tokens` returns exactly the second pass `ImplicitMultiply` of its input. |
| Scan.Scanner.ScanToken | scan.py:108-132 | `scan_token` appends exactly the tokens `ScanStep` emits and moves the cursor where `ScanStep` says, or fails with its error. |
| Scan.Scanner.CharToken | scan.py:134-135 | `char` appends the `Char` of the text between `start` and the cursor. |
| Scan.Scanner.Number | scan.py:137-140 | `number` consumes the maximal numeral, then appends its `Numeric` token or fails as `NumberStep` says. |
| Scan.Scanner.AddToken | scan.py:142-143 | `add_token` appends the token and changes nothing else. |
| Parse.BuildBinary | parse.py:34-49 | It succeeds exactly for the five operator tokens, and builds the node whose operator is that token, with left and right kept in place. Any other token fails with `InvalidOperator`. |
| Parse.ExpressionAt | parse.py:82-83 | The cursor moves only forward and stays in the list. No invalid operator is ever built. On success the next token is not `+` or `-`. |
| Parse.TermAt | parse.py:85-92 | The same facts for `term`: forward cursor, no invalid operator, and no `+`/`-` next on success. |
| Parse.TermLoop | parse.py:87-90 | The `while match(Plus, Minus)` loop stops only before a token that is not `+` or `-`. |
| Parse.FactorAt | parse.py:94-101 | On success `factor` leaves no `*` or `/` next, and its cursor moves forward. |
| Parse.FactorLoop | parse.py:96-99 | The `while match(Multiply, Divide)` loop stops only before a token that is not `*` or `/`. |
| Parse.ExponentAt | parse.py:103-109 | On success `exponent` leaves no `^` next. |
| Parse.ExponentLoop | parse.py:105-107 | The `while match(Exponent)` loop stops only before a token that is not `^`. |
| Parse.PrimaryAt | parse.py:111-128 | A successful `primary` consumes at least one token. It fails only with `MissingCloseBracket` or `NoPrimary`. |
| Parse.ExponentRightAssociative | parse.py:103-109 | After a primary and a `^`, the result is `Power(base, everything exponent() parses next)`, so the loop body never runs twice. Without `^`, the result is the primary itself. |
| Parse.BracketsAddNoNode | parse.py:122-126 | `( expression )` is the inner tree with no extra node. Without the closing bracket it fails with `MissingCloseBracket`. |
| Parse.LeafFactor | parse.py:111-120 | A numeral or letter not followed by `^`, `*` or `/` is a whole factor: `Constant(num)` or `Unknown(name)`. |
| Parse.LeafExponent | parse.py:103-120 | A numeral or letter not followed by `^` is a whole exponent: the leaf, with the cursor just after it. |
| Parse.WholeFactor | parse.py:82-92 | A factor not followed by `+` or `-` is the whole expression. |
| Parse.FailsAtPrimary | parse.py:82-128 | When `primary` fails at the first position, `expression` fails with that same error. |
| Parse.EmptyInputFails | parse.py:128 | An empty token list fails with `NoPrimary`. |
| Parse.StrayCloseBracketFails | parse.py:128 | An expression that starts at a `)`, at any position of any token list, fails with `NoPrimary`. |
| Parse.UnclosedBracketFails | parse.py:124-125 | `( x` with no `)` fails with `MissingCloseBracket`. |
| Parse.ParseProduct | parse.py:94-101 | The tokens of `2x` parse to `Product(Constant(2), Unknown(x))` and consume all three tokens. |
| Parse.SubtractionLeftAssociative | parse.py:85-92 | `a-b-c` parses to `Subtraction(Subtraction(a, b), c)`. |
| Parse.ProductBindsTighter | parse.py:85-101 | `3+4*2` parses to `Addition(3, Product(4, 2))`. |
| Parse.PowerRightAssociative | parse.py:103-109 | `2^3^2` parses to `Power(2, Power(3, 2))`. |
| Parse.BracketedBinomial | parse.py:122-126 | A bracketed `(v + n)` or `(v - n)` not followed by `^` parses to the single binary node. |
| Parse.ProductOfBinomials | parse.py:94-101 | Two bracketed binomials joined by `*` parse to their `Product`, consuming all eleven tokens. |
| Parse.ParseBracketProduct | parse.py:85-126 | The tokens of `(x+1)(x-1)` parse to `Product(Addition(x, 1), Subtraction(x, 1))`. |
| Parse.AdjacentLettersStop | parse.py:82-92 | Two `Char` tokens parse to the first letter, with the cursor after it and the second token left unread. |
| Parse.Parser.constructor | parse.py:53-55 | A new parser holds the tokens, with the cursor at 0. |
| Parse.Parser.Previous | parse.py:73-74 | `previous` is the token before the cursor, wrapping to the last token at cursor 0 as Python's index -1 does. |
| Parse.Parser.Check | parse.py:61-64 | `check` holds exactly when a next token exists and is of one of the kinds. So it is false at the end. |
| Parse.Parser.Advance | parse.py:66-68 | `advance` moves the cursor forward by one and returns the token it passed. |
| Parse.Parser.Match | parse.py:76-80 | `match` consumes the next token exactly when `check` holds, and reports whether it did. |
| Parse.Parser.Expression | parse.py:82-83 | `expression` returns the tree and moves the cursor exactly as `ExpressionAt` says, or raises its error. |
| Parse.Parser.Term | parse.py:85-92 | `term`'s loop computes `TermAt`: the left fold over `+`/`-`. |
| Parse.Parser.Factor | parse.py:94-101 | `factor`'s loop computes `FactorAt`: the left fold over `*`/`/`. |
| Parse.Parser.Exponent | parse.py:103-109 | `exponent` computes `ExponentAt`: right-recursive `^`. |
| Parse.Parser.Primary | parse.py:111-128 | `primary` computes `PrimaryAt`, including both errors. |
| Models.Step | models.py:53-129 | `_simplify` never increases the node count. When it keeps the count, it returns a tree equal to its input. This makes `simplify` terminate. |
| Models.StepTerms | models.py:53-74 | The filtering comprehension keeps one entry per term not equal to the skipped constant. When no term equals the skipped constant, entry i is term i simplified. It never grows the tree. |
| Models.StepTermsAppend | models.py:54 | The comprehension works term by term and in order: over a concatenation it is the concatenation of the results. |
| Models.StepTermsSingle | models.py:54 | A single term is dropped when it equals the skipped constant, and simplified otherwise. |
| Models.StepTermsKeeps | models.py:73 | Every term not equal to the skipped constant survives, simplified. |
| Models.ProductWithZeroFactor | models.py:72-74 | A product with a factor equal to 0 becomes `Constant(0)` in one pass, and simplifies to `Constant(0)`. |
| Models.Simplified | models.py:13-18 | The result of `simplify` is a fixed point of `_simplify` and no larger than its input. |
| Models.Simplify | models.py:13-18 | The `while a != b` loop returns `Simplified(e)`, and that tree is `Normal`. |
| Models.StepTermsFixed | models.py:53-74 | The comprehension returns its input exactly when no term equals the skipped constant and every term is a fixed point. |
| Models.SumFixedIffNormal | models.py:53-54 | A sum is a fixed point exactly when it is `Normal`, given that this holds for its terms. |
| Models.ProductFixedIffNormal | models.py:72-74 | A product is a fixed point exactly when it is `Normal`, given that this holds for its factors. |
| Models.FixedPointIffNormal | models.py:53-129 | `_simplify(e) == e` exactly when `e` holds no zero term in a sum, no zero or one factor in a product, and no power 1. |
| Models.SimplifiedIsNormal | models.py:13-18 | `simplify` leaves no identity anywhere in the tree, and is idempotent. |
| Models.SimplifyDropsZeroTerm | models.py:53-54 | `x + 0` simplifies to the one-term `Sum([x])`. |
| Models.Differentiate | models.py:31-140 | A leaf differentiates to a constant, and a sum or product to a sum of the same length. A power differentiates to a three-factor product, and a quotient to a quotient. |
| Models.LeafRules | models.py:31-43 | The derivative of every constant is `Constant(0)`, and of every unknown is `Constant(1)`. |
| Models.QuotientRuleExample | models.py:131-140 | The quotient rule on `x / 2` gives `(2•1 + -1•x•0) / 2^2`: the denominator times the numerator's derivative, minus the numerator times the denominator's derivative, over the denominator squared. |
| Models.SumRule | models.py:56-57 | Term i of a sum's derivative is the derivative of term i. |
| Models.ProductRule | models.py:76-88 | Term i of a product's derivative is the same factor list with only factor i replaced by its derivative. |
| Models.ProductTermMentions | models.py:76-88 | A product-rule term names only unknowns the product names, given that this holds for factor i. |
| Models.QuotientMentions | models.py:131-140 | The quotient rule names only unknowns the quotient names, given that this holds for both operands. |
| Models.DifferentiateMentions | models.py:31-140 | Differentiation introduces no unknown that the tree did not already mention. |
| Models.SquareDerivativeSimplifies | models.py:110-117 | The derivative of `x^2` is `2•x^1•1`, which simplifies to `2•x`. |
| Models.Format | models.py:34-143 | The definition of `format` for every node kind. `FormatInContext`, `PowerBracketsCompoundBase`, `FormatBracketing` and `FormatBalanced` state its properties. |
| Models.Join | models.py:60-91 | The definition of `str.join` as used at models.py:60 and models.py:91. `JoinedBalanced` states that it keeps brackets balanced. |
| Models.BracketWrap | models.py:5-6 | `bracket_wrap` adds exactly one `(` in front and one `)` behind, and keeps a balanced string balanced. |
| Models.FormatInContext | models.py:59-95 | Under a parent, a sum is bracketed exactly when the parent is neither a sum nor a quotient. A product is bracketed exactly when the parent is not a sum. Every other node renders as at the top level. |
| Models.PowerBracketsCompoundBase | models.py:119-120 | A power whose base is a sum or a product renders the base in brackets, then `^` and the exponent. |
| Models.FormatBracketing | models.py:59-120 | `(x + y)^2` keeps the sum's brackets. A product directly under a sum renders as `x•y` without brackets. |
| Models.JoinedBalanced | models.py:59-95 | A sum or product whose rendered terms are balanced renders balanced. |
| Models.PowerBalanced | models.py:119-120 | A power whose base renders balanced renders balanced, given that `g` renders no brackets for any number. |
| Models.QuotientBalanced | models.py:142-143 | `(numer) / (denom)` is balanced when both sides are. |
| Models.FormatBalanced | models.py:31-143 | `format`'s brackets always match, when names and rendered numbers hold none. |
| MathParser.ParsedText | mathparser.py:5-6 | The definition of `parse_text`: scan, then `expression` from token 0, with either stage's error. `ParseText` and the worked cases are stated against it. |
| MathParser.ParseText | mathparser.py:5-6 | `parse_text` scans the text, then parses an expression from token 0, and returns what `ParsedText` specifies. |
| MathParser.ImplicitProduct | mathparser.py:5-6 | `parse_text("2x")` is `Product(Constant(2), Unknown(x))`. |
| MathParser.BracketProduct | mathparser.py:5-6 | `parse_text("(x+1)(x-1)")` is `Product(Addition(x, 1), Subtraction(x, 1))`. |
| MathParser.LeftAssociativeDifference | mathparser.py:5-6 | `parse_text("a-b-c")` is `Subtraction(Subtraction(a, b), c)`. |
| MathParser.ProductBeforeSum | mathparser.py:5-6 | `parse_text("3+4*2")` is `Addition(3, Product(4, 2))`. |
| MathParser.RightAssociativePower | mathparser.py:5-6 | `parse_text("2^3^2")` is `Power(2, Power(3, 2))`. |
| MathParser.AdjacentLettersDropSecond | mathparser.py:5-6 | `parse_text("xy")` is `Unknown(x)`: no `Multiply` goes between two letters, and the second is never parsed. |
| MathParser.StrayCloseBracket | mathparser.py:5-6 | `parse_text(")")` fails in `primary`. |
| MathParser.EmptyText | mathparser.py:5-6 | `parse_text("")` fails in `primary`. |
| MathParser.MalformedNumeral | mathparser.py:5-6 | `parse_text("1.2.3")` fails in the scanner, before any parsing. |

## Left out

- The interactive loops are not modelled, because they are console I/O: `calculator.py`, `differentiator.py`, and the `__main__` blocks at `scan.py:146-150` and `parse.py:130-137`.
- The module-level demo at `models.py:166-185` is not modelled, because it only prints example trees when the module is imported.
- `evaluate`, `get_unknowns` and `MathExpression` are not part of this model. They are referenced by `calculator.py` and `mathparser.py:1`, but no file defines them.
- `Equation` (`models.py:146-152`) is not modelled. It is an unused pair of trees with a string conversion.
- Floating point: numbers are exact reals, so float64 rounding, infinities and NaN are not modelled.
- The `:g` rendering of numbers is not modelled. `Format` takes it as the parameter `g`, and `FormatBalanced` requires only that it produces no brackets.
- Non-ASCII digits, letters and whitespace that Python's `isnumeric`, `isalpha` and `isspace` accept are not modelled.
- The console message printed for an unknown character is not modelled. The character is skipped silently.
- `consume_while` and `consume_numeric` (`scan.py:75-83`) are not modelled, because nothing calls them.
- `Parser.is_at_end` and `Parser.peek` (`parse.py:57-59`, `parse.py:70-71`) appear only as the predicate `IsAtEnd` and the function `Peek` inside `Check`. They carry no contract of their own.
- `Scanner.is_at_end` (`scan.py:64-66`) is likewise only the predicate `IsAtEnd`, used as the loop guard of `ScanTokens`.
- Parse.Parser.Advance: requires a token under the cursor. Past the end, Python's `advance` raises `IndexError`, which no caller reaches, because `match` checks first.
- Scan.Scanner.Advance: requires a character under the cursor. Past the end, Python's `advance` raises `IndexError`, which no caller reaches, because both loops test the cursor first.
- Scan.Scanner.ScanTokens: on a `float()` error, the model returns the error. What Python leaves in the scanner's fields after the exception is not modelled.
- Python's recursion limit is not modelled. Each bracket level costs about five frames in `parse.py:82-128` (`primary`, `expression`, `term`, `factor`, `exponent`). Each `^` costs one further `exponent` frame, because `exponent` calls itself once per caret (`parse.py:105-106`), so a power chain needs about a thousand carets to reach the limit. `_simplify`, `differentiate` and `format` in `models.py` also recurse once per tree level. So a few hundred nested brackets, a very long power chain or a very deep tree raise `RecursionError` in Python, while the model returns the tree or the result.
- No conversion from the parser's tree `Parse.Expr` to `Models.MathObject` is modelled, because the source has none that works (see Modelling decisions).
