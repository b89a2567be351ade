/**
 * The expression tree of models.py: constants, unknowns, n-ary sums and
 * products, a power with a numeric exponent, and a quotient. It also defines
 * the tree's algorithms:
 * - one-step identity removal (_simplify);
 * - simplification to a fixed point (simplify);
 * - symbolic differentiation;
 * - rendering with bracketing that depends on the parent node (format).
 */
module Models {
  import opened Wrappers
  import Seqs

  datatype MathObject =
    | Constant(num: real)
    | Unknown(term: string)
    | Sum(terms: seq<MathObject>)
    | Product(terms: seq<MathObject>)
    | Power(child: MathObject, power: real)
    | Quotient(numer: MathObject, denom: MathObject)

  /** The number of nodes of a tree. */
  function Size(e: MathObject): (n: nat)
    ensures n >= 1
  {
    match e
    case Constant(_) => 1
    case Unknown(_) => 1
    case Sum(ts) => 1 + SizeAll(ts)
    case Product(ts) => 1 + SizeAll(ts)
    case Power(c, _) => 1 + Size(c)
    case Quotient(n, d) => 1 + Size(n) + Size(d)
  }

  function SizeAll(ts: seq<MathObject>): (n: nat)
    ensures n >= |ts|
  {
    if ts == [] then 0 else Size(ts[0]) + SizeAll(ts[1..])
  }

  // ---------------------------------------------------------------------
  // _simplify and simplify
  // ---------------------------------------------------------------------

  /**
   * _simplify: one pass of identity removal. A sum drops its terms equal to
   * 0, a product its factors equal to 1 (and becomes 0 if a simplified factor
   * is 0), and a power with exponent 1 becomes its base. The pass never adds
   * nodes, and a pass that removes none leaves the tree as it was; this is
   * why the loop in simplify terminates.
   */
  function Step(e: MathObject): (r: MathObject)
    ensures Size(r) <= Size(e)
    ensures Size(r) == Size(e) ==> r == e
  {
    match e
    case Constant(_) => e
    case Unknown(_) => e
    case Sum(ts) => Sum(StepTerms(ts, Constant(0.0)))
    case Product(ts) =>
      var p := StepTerms(ts, Constant(1.0));
      if Constant(0.0) in p then Constant(0.0) else Product(p)
    case Power(c, p) => if p == 1.0 then Step(c) else Power(Step(c), p)
    case Quotient(n, d) => Quotient(Step(n), Step(d))
  }

  /**
   * [t._simplify() for t in ts if t != skip]: one entry per term not equal
   * to skip, in order, and when no term equals skip, the i-th entry is the
   * i-th term simplified.
   */
  function StepTerms(ts: seq<MathObject>, skip: MathObject): (r: seq<MathObject>)
    ensures SizeAll(r) <= SizeAll(ts)
    ensures SizeAll(r) == SizeAll(ts) ==> r == ts
    ensures |r| == |ts| - multiset(ts)[skip]
    ensures skip !in ts ==> forall i :: 0 <= i < |ts| ==> r[i] == Step(ts[i])
  {
    if ts == [] then []
    else
      assert ts == [ts[0]] + ts[1..];
      var rest := StepTerms(ts[1..], skip);
      if ts[0] == skip then rest
      else
        var r := [Step(ts[0])] + rest;
        assert r[0] == Step(ts[0]) && r[1..] == rest;
        r
  }

  /** One unfolding of the comprehension: the first term, dropped or simplified, then the rest. */
  lemma StepTermsCons(ts: seq<MathObject>, skip: MathObject)
    requires ts != []
    ensures StepTerms(ts, skip) == (if ts[0] == skip then [] else [Step(ts[0])]) + StepTerms(ts[1..], skip)
  {
  }

  /** The comprehension over a concatenation is the concatenation of the two results, in order. */
  lemma {:induction false} StepTermsAppend(a: seq<MathObject>, b: seq<MathObject>, skip: MathObject)
    ensures StepTerms(a + b, skip) == StepTerms(a, skip) + StepTerms(b, skip)
  {
    if a == [] {
      assert a + b == b;
    } else {
      var ab := a + b;
      assert ab[0] == a[0] && ab[1..] == a[1..] + b;
      StepTermsAppend(a[1..], b, skip);
      StepTermsCons(ab, skip);
      StepTermsCons(a, skip);
      var head: seq<MathObject> := if a[0] == skip then [] else [Step(a[0])];
      Seqs.ConsSplit(StepTerms(ab, skip), head, StepTerms(ab[1..], skip),
        StepTerms(a, skip), StepTerms(a[1..], skip), StepTerms(b, skip));
    }
  }

  /** A single term is dropped when it equals skip and simplified otherwise. */
  lemma StepTermsSingle(t: MathObject, skip: MathObject)
    ensures StepTerms([t], skip) == if t == skip then [] else [Step(t)]
  {
    assert [t][1..] == [];
  }

  /** Every term not equal to skip survives, simplified. */
  lemma {:induction false} StepTermsKeeps(ts: seq<MathObject>, skip: MathObject, i: nat)
    requires i < |ts| && ts[i] != skip
    ensures Step(ts[i]) in StepTerms(ts, skip)
  {
    assert ts == [ts[0]] + ts[1..];
    if i > 0 {
      StepTermsKeeps(ts[1..], skip, i - 1);
      assert ts[1..][i - 1] == ts[i];
    }
  }

  /** A product with a factor equal to 0 becomes 0 in one pass, and so simplifies to 0. */
  lemma ProductWithZeroFactor(ts: seq<MathObject>, i: nat)
    requires i < |ts| && ts[i] == Constant(0.0)
    ensures Step(Product(ts)) == Constant(0.0)
    ensures Simplified(Product(ts)) == Constant(0.0)
  {
    StepTermsKeeps(ts, Constant(1.0), i);
  }

  /** The tree simplify() returns: _simplify applied until the tree stops changing. */
  function Simplified(e: MathObject): (r: MathObject)
    ensures Step(r) == r
    ensures Size(r) <= Size(e)
    decreases Size(e)
  {
    var s := Step(e);
    if s == e then e else Simplified(s)
  }

  /** MathObject.simplify: iterate _simplify until two consecutive trees are equal. */
  method Simplify(e: MathObject) returns (r: MathObject)
    ensures r == Simplified(e)
    ensures Normal(r)
  {
    var a := Step(e);
    var b := Step(a);
    while a != b
      invariant b == Step(a)
      invariant Simplified(a) == Simplified(e)
      decreases Size(a)
    {
      a, b := b, Step(b);
    }
    r := a;
    FixedPointIffNormal(r);
  }

  /** A tree holding no identity that _simplify removes: no 0 in a sum, no 0 or 1 in a product, no power 1. */
  predicate Normal(e: MathObject) {
    match e
    case Constant(_) => true
    case Unknown(_) => true
    case Sum(ts) => forall i :: 0 <= i < |ts| ==> ts[i] != Constant(0.0) && Normal(ts[i])
    case Product(ts) =>
      forall i :: 0 <= i < |ts| ==> ts[i] != Constant(0.0) && ts[i] != Constant(1.0) && Normal(ts[i])
    case Power(c, p) => p != 1.0 && Normal(c)
    case Quotient(n, d) => Normal(n) && Normal(d)
  }

  /** The comprehension returns its input exactly when no term equals skip and every term is a fixed point. */
  lemma StepTermsFixed(ts: seq<MathObject>, skip: MathObject)
    ensures StepTerms(ts, skip) == ts <==> skip !in ts && forall i :: 0 <= i < |ts| ==> Step(ts[i]) == ts[i]
  {
    if StepTerms(ts, skip) == ts {
      assert multiset(ts)[skip] == 0;
    }
  }

  /** A sum is a fixed point exactly when it is Normal, given that this holds for each of its terms. */
  lemma SumFixedIffNormal(ts: seq<MathObject>)
    requires forall i :: 0 <= i < |ts| ==> (Step(ts[i]) == ts[i] <==> Normal(ts[i]))
    ensures Step(Sum(ts)) == Sum(ts) <==> Normal(Sum(ts))
  {
    StepTermsFixed(ts, Constant(0.0));
  }

  /** A product is a fixed point exactly when it is Normal, given that this holds for each of its factors. */
  lemma ProductFixedIffNormal(ts: seq<MathObject>)
    requires forall i :: 0 <= i < |ts| ==> (Step(ts[i]) == ts[i] <==> Normal(ts[i]))
    ensures Step(Product(ts)) == Product(ts) <==> Normal(Product(ts))
  {
    StepTermsFixed(ts, Constant(1.0));
  }

  /** The fixed points of _simplify are exactly the trees with no identity left to remove. */
  lemma {:induction false} FixedPointIffNormal(e: MathObject)
    ensures Step(e) == e <==> Normal(e)
  {
    match e
    case Constant(_) =>
    case Unknown(_) =>
    case Sum(ts) =>
      forall i | 0 <= i < |ts| ensures Step(ts[i]) == ts[i] <==> Normal(ts[i]) {
        FixedPointIffNormal(ts[i]);
      }
      SumFixedIffNormal(ts);
    case Product(ts) =>
      forall i | 0 <= i < |ts| ensures Step(ts[i]) == ts[i] <==> Normal(ts[i]) {
        FixedPointIffNormal(ts[i]);
      }
      ProductFixedIffNormal(ts);
    case Power(c, p) =>
      FixedPointIffNormal(c);
      if p == 1.0 {
        assert Size(Step(e)) < Size(e);
      }
    case Quotient(n, d) =>
      FixedPointIffNormal(n);
      FixedPointIffNormal(d);
  }

  /** simplify leaves no identity anywhere in the tree, and simplifying again changes nothing. */
  lemma SimplifiedIsNormal(e: MathObject)
    ensures Normal(Simplified(e))
    ensures Simplified(Simplified(e)) == Simplified(e)
  {
    FixedPointIffNormal(Simplified(e));
  }

  /** "x + 0" simplifies to the one-term sum of x: the sum node itself stays. */
  lemma SimplifyDropsZeroTerm()
    ensures Simplified(Sum([Unknown("x"), Constant(0.0)])) == Sum([Unknown("x")])
  {
    var e := Sum([Unknown("x"), Constant(0.0)]);
    assert StepTerms([Constant(0.0)], Constant(0.0)) == [];
    assert Step(e) == Sum([Unknown("x")]);
    assert StepTerms([Unknown("x")], Constant(0.0)) == [Unknown("x")];
    assert Step(Sum([Unknown("x")])) == Sum([Unknown("x")]);
  }

  // ---------------------------------------------------------------------
  // differentiate
  // ---------------------------------------------------------------------

  /**
   * differentiate, with respect to the one implicit variable: every unknown
   * differentiates to 1. The result has the kind each method declares: a
   * constant for leaves, a sum of as many terms for a sum or a product, a
   * three-factor product for a power, and a quotient for a quotient.
   */
  function Differentiate(e: MathObject): (r: MathObject)
    ensures e.Constant? || e.Unknown? ==> r.Constant?
    ensures e.Sum? || e.Product? ==> r.Sum? && |r.terms| == |e.terms|
    ensures e.Power? ==> r.Product? && |r.terms| == 3
    ensures e.Quotient? ==> r.Quotient?
  {
    match e
    case Constant(_) => Constant(0.0)
    case Unknown(_) => Constant(1.0)
    case Sum(ts) => Sum(seq(|ts|, i requires 0 <= i < |ts| => Differentiate(ts[i])))
    case Product(ts) =>
      Sum(seq(|ts|, i requires 0 <= i < |ts| => Product(ts[..i] + [Differentiate(ts[i])] + ts[i + 1..])))
    case Power(c, p) => Product([Constant(p), Power(c, p - 1.0), Differentiate(c)])
    case Quotient(n, d) =>
      Quotient(
        Sum([Product([d, Differentiate(n)]), Product([Constant(-1.0), n, Differentiate(d)])]),
        Power(d, 2.0))
  }

  /** The constant rule and the rule for an unknown: the derivative of any constant is 0, and of any unknown is 1. */
  lemma LeafRules(c: real, term: string)
    ensures Differentiate(Constant(c)) == Constant(0.0)
    ensures Differentiate(Unknown(term)) == Constant(1.0)
  {
  }

  /** The quotient rule on x / 2: (2•1 + -1•x•0) / 2^2. */
  lemma QuotientRuleExample()
    ensures Differentiate(Quotient(Unknown("x"), Constant(2.0)))
      == Quotient(
           Sum([Product([Constant(2.0), Constant(1.0)]), Product([Constant(-1.0), Unknown("x"), Constant(0.0)])]),
           Power(Constant(2.0), 2.0))
  {
  }

  /** The sum rule: the i-th term of the derivative of a sum is the derivative of the i-th term. */
  lemma SumRule(ts: seq<MathObject>, i: nat)
    requires i < |ts|
    ensures Differentiate(Sum(ts)).terms[i] == Differentiate(ts[i])
  {
  }

  /**
   * The product rule: the i-th term of the derivative of a product is the
   * product of the same factors, with only the i-th replaced by its derivative.
   */
  lemma ProductRule(ts: seq<MathObject>, i: nat, j: nat)
    requires i < |ts| && j < |ts|
    ensures Differentiate(Product(ts)).terms[i].Product?
    ensures |Differentiate(Product(ts)).terms[i].terms| == |ts|
    ensures Differentiate(Product(ts)).terms[i].terms[j] == if j == i then Differentiate(ts[i]) else ts[j]
  {
    var f := ts[..i] + [Differentiate(ts[i])] + ts[i + 1..];
    assert Differentiate(Product(ts)).terms[i] == Product(f);
    if j < i {
      assert f[j] == ts[..i][j];
    } else if j > i {
      assert f[j] == ts[i + 1..][j - i - 1];
    }
  }

  /** The unknown called name occurs somewhere in the tree. */
  predicate Mentions(e: MathObject, name: string) {
    match e
    case Constant(_) => false
    case Unknown(t) => t == name
    case Sum(ts) => exists i :: 0 <= i < |ts| && Mentions(ts[i], name)
    case Product(ts) => exists i :: 0 <= i < |ts| && Mentions(ts[i], name)
    case Power(c, _) => Mentions(c, name)
    case Quotient(n, d) => Mentions(n, name) || Mentions(d, name)
  }

  /** The i-th term of a product's derivative mentions only what the product mentions, given that this holds for its i-th factor. */
  lemma ProductTermMentions(ts: seq<MathObject>, i: nat, name: string)
    requires i < |ts|
    requires Mentions(Differentiate(ts[i]), name) ==> Mentions(ts[i], name)
    ensures Mentions(Differentiate(Product(ts)).terms[i], name) ==> Mentions(Product(ts), name)
  {
    var f := ts[..i] + [Differentiate(ts[i])] + ts[i + 1..];
    assert Differentiate(Product(ts)).terms[i] == Product(f);
    if Mentions(Product(f), name) {
      var j :| 0 <= j < |f| && Mentions(f[j], name);
      if j < i {
        assert f[j] == ts[j];
      } else if j > i {
        assert f[j] == ts[i + 1..][j - i - 1] == ts[j];
      }
    }
  }

  /** A quotient's derivative mentions only what the quotient mentions, given that this holds for both operands. */
  lemma QuotientMentions(n: MathObject, d: MathObject, name: string)
    requires Mentions(Differentiate(n), name) ==> Mentions(n, name)
    requires Mentions(Differentiate(d), name) ==> Mentions(d, name)
    ensures Mentions(Differentiate(Quotient(n, d)), name) ==> Mentions(Quotient(n, d), name)
  {
    var r := Differentiate(Quotient(n, d));
    var top := r.numer;
    if Mentions(top, name) {
      var i :| 0 <= i < 2 && Mentions(top.terms[i], name);
      var j :| 0 <= j < |top.terms[i].terms| && Mentions(top.terms[i].terms[j], name);
    } else if Mentions(r.denom, name) {
      assert Mentions(d, name);
    }
  }

  /** Differentiation introduces no unknown that the tree did not already mention. */
  lemma {:induction false} DifferentiateMentions(e: MathObject, name: string)
    ensures Mentions(Differentiate(e), name) ==> Mentions(e, name)
  {
    var r := Differentiate(e);
    if Mentions(r, name) {
      match e
      case Constant(_) =>
      case Unknown(_) =>
      case Sum(ts) =>
        var i :| 0 <= i < |ts| && Mentions(r.terms[i], name);
        DifferentiateMentions(ts[i], name);
      case Product(ts) =>
        var i :| 0 <= i < |ts| && Mentions(r.terms[i], name);
        DifferentiateMentions(ts[i], name);
        ProductTermMentions(ts, i, name);
      case Power(c, p) =>
        var j :| 0 <= j < 3 && Mentions(r.terms[j], name);
        if j == 2 {
          DifferentiateMentions(c, name);
        }
      case Quotient(n, d) =>
        DifferentiateMentions(n, name);
        DifferentiateMentions(d, name);
        QuotientMentions(n, d, name);
    }
  }

  /** One pass over 2•x^1•1 removes the factor 1 and the exponent 1. */
  lemma SquareDerivativeStep(x: MathObject)
    requires x == Unknown("x")
    ensures Step(Product([Constant(2.0), Power(x, 1.0), Constant(1.0)])) == Product([Constant(2.0), x])
  {
    var d := Product([Constant(2.0), Power(x, 1.0), Constant(1.0)]);
    assert StepTerms([Constant(1.0)], Constant(1.0)) == [];
    assert StepTerms([Power(x, 1.0), Constant(1.0)], Constant(1.0)) == [x];
    assert StepTerms(d.terms, Constant(1.0)) == [Constant(2.0), x];
  }

  /** 2•x has nothing left to remove. */
  lemma TwoXFixed(x: MathObject)
    requires x == Unknown("x")
    ensures Step(Product([Constant(2.0), x])) == Product([Constant(2.0), x])
  {
    assert StepTerms([x], Constant(1.0)) == [x];
    assert StepTerms([Constant(2.0), x], Constant(1.0)) == [Constant(2.0), x];
  }

  /** The derivative of x^2 is 2•x^1•1, which simplifies to 2•x. */
  lemma SquareDerivativeSimplifies()
    ensures Differentiate(Power(Unknown("x"), 2.0))
      == Product([Constant(2.0), Power(Unknown("x"), 1.0), Constant(1.0)])
    ensures Simplified(Differentiate(Power(Unknown("x"), 2.0))) == Product([Constant(2.0), Unknown("x")])
  {
    var x := Unknown("x");
    SquareDerivativeStep(x);
    TwoXFixed(x);
  }

  // ---------------------------------------------------------------------
  // format
  // ---------------------------------------------------------------------

  /** bracket_wrap: the string in round brackets. */
  function BracketWrap(s: string): (r: string)
    ensures |r| == |s| + 2 && r[0] == '(' && r[|r| - 1] == ')' && r[1..|r| - 1] == s
    ensures Balanced(s) ==> Balanced(r)
  {
    BalancedWrap(s);
    "(" + s + ")"
  }

  /** str.join: the parts with sep between each two neighbours. */
  function Join(parts: seq<string>, sep: string): string {
    if |parts| == 0 then ""
    else if |parts| == 1 then parts[0]
    else parts[0] + sep + Join(parts[1..], sep)
  }

  /** The middle dot that joins the factors of a product. */
  const Dot: string := "\U{2022}"

  /**
   * format(parent): a tree as text. Numbers are rendered by g, the `:g`
   * format. A sum is bracketed under any parent but a sum or a quotient, a
   * product under any parent but a sum; a power renders its base with
   * itself as the parent, and a quotient brackets both sides.
   */
  function Format(e: MathObject, parent: Option<MathObject>, g: real -> string): string {
    match e
    case Constant(num) => g(num)
    case Unknown(term) => term
    case Sum(ts) =>
      var s := Join(seq(|ts|, i requires 0 <= i < |ts| => Format(ts[i], Some(e), g)), " + ");
      if parent.Some? && !(parent.value.Sum? || parent.value.Quotient?) then BracketWrap(s) else s
    case Product(ts) =>
      var s := Join(seq(|ts|, i requires 0 <= i < |ts| => Format(ts[i], Some(e), g)), Dot);
      if parent.Some? && !parent.value.Sum? then BracketWrap(s) else s
    case Power(c, p) => Format(c, Some(e), g) + "^" + g(p)
    case Quotient(n, d) => "(" + Format(n, Some(e), g) + ") / (" + Format(d, Some(e), g) + ")"
  }

  /** Which parents make a node bracket itself. */
  predicate NeedsBrackets(e: MathObject, parent: MathObject) {
    match e
    case Sum(_) => !(parent.Sum? || parent.Quotient?)
    case Product(_) => !parent.Sum?
    case _ => false
  }

  /** Under a parent, a node renders as it does at the top level, bracketed exactly when NeedsBrackets says so. */
  lemma FormatInContext(e: MathObject, parent: MathObject, g: real -> string)
    ensures Format(e, Some(parent), g)
      == if NeedsBrackets(e, parent) then BracketWrap(Format(e, None, g)) else Format(e, None, g)
  {
  }

  /** A power whose base is a sum or a product renders the base in brackets. */
  lemma PowerBracketsCompoundBase(c: MathObject, p: real, parent: Option<MathObject>, g: real -> string)
    requires c.Sum? || c.Product?
    ensures Format(Power(c, p), parent, g) == BracketWrap(Format(c, None, g)) + "^" + g(p)
  {
    FormatInContext(c, Power(c, p), g);
  }

  /** (x + y)^2: the sum under the power is bracketed; under a sum, the product x•y is not. */
  lemma FormatBracketing(g: real -> string)
    ensures Format(Power(Sum([Unknown("x"), Unknown("y")]), 2.0), None, g) == "(x + y)^" + g(2.0)
    ensures Format(Sum([Product([Unknown("x"), Unknown("y")]), Unknown("z")]), None, g) == "x" + Dot + "y + z"
  {
    var x, y, z := Unknown("x"), Unknown("y"), Unknown("z");
    var sum := Sum([x, y]);
    assert Join(["x", "y"], " + ") == "x + y";
    assert seq(2, i requires 0 <= i < 2 => Format([x, y][i], Some(sum), g)) == ["x", "y"];
    var prod := Product([x, y]);
    assert Join(["x", "y"], Dot) == "x" + Dot + "y";
    assert seq(2, i requires 0 <= i < 2 => Format([x, y][i], Some(prod), g)) == ["x", "y"];
    var top := Sum([prod, z]);
    assert Format(prod, Some(top), g) == "x" + Dot + "y";
    assert seq(2, i requires 0 <= i < 2 => Format([prod, z][i], Some(top), g)) == ["x" + Dot + "y", "z"];
    assert Join(["x" + Dot + "y", "z"], " + ") == "x" + Dot + "y + z";
  }

  // Bracket balance

  function Depth(s: string): int {
    if s == [] then 0
    else Depth(s[..|s| - 1]) + (if s[|s| - 1] == '(' then 1 else if s[|s| - 1] == ')' then -1 else 0)
  }

  /** Every ')' closes an earlier '(' and every '(' is closed. */
  predicate Balanced(s: string) {
    Depth(s) == 0 && forall k :: 0 <= k <= |s| ==> Depth(s[..k]) >= 0
  }

  predicate NoBrackets(s: string) {
    '(' !in s && ')' !in s
  }

  lemma {:induction false} DepthAppend(a: string, b: string)
    ensures Depth(a + b) == Depth(a) + Depth(b)
    decreases |b|
  {
    if b != [] {
      assert (a + b)[..|a + b| - 1] == a + b[..|b| - 1];
      DepthAppend(a, b[..|b| - 1]);
    } else {
      assert a + b == a;
    }
  }

  lemma BalancedAppend(a: string, b: string)
    requires Balanced(a) && Balanced(b)
    ensures Balanced(a + b)
  {
    DepthAppend(a, b);
    forall k | 0 <= k <= |a + b|
      ensures Depth((a + b)[..k]) >= 0
    {
      if k <= |a| {
        assert (a + b)[..k] == a[..k];
      } else {
        assert (a + b)[..k] == a + b[..k - |a|];
        DepthAppend(a, b[..k - |a|]);
      }
    }
  }

  lemma BalancedWrap(s: string)
    ensures Balanced(s) ==> Balanced("(" + s + ")")
  {
    if Balanced(s) {
      var w := "(" + s + ")";
      DepthAppend("(" + s, ")");
      DepthAppend("(", s);
      forall k | 0 <= k <= |w|
        ensures Depth(w[..k]) >= 0
      {
        if k == |w| {
          assert w[..k] == w;
        } else if k > 0 {
          assert w[..k] == "(" + s[..k - 1];
          DepthAppend("(", s[..k - 1]);
        }
      }
    }
  }

  lemma {:induction false} NoBracketsBalanced(s: string)
    requires NoBrackets(s)
    ensures Balanced(s)
    decreases |s|
  {
    if s != [] {
      var p := s[..|s| - 1];
      assert forall c :: c in p ==> c in s;
      NoBracketsBalanced(p);
      forall k | 0 <= k <= |s|
        ensures Depth(s[..k]) >= 0
      {
        if k < |s| {
          assert s[..k] == p[..k];
        } else {
          assert s[..k] == s;
        }
      }
    }
  }

  lemma {:induction false} JoinBalanced(parts: seq<string>, sep: string)
    requires forall i :: 0 <= i < |parts| ==> Balanced(parts[i])
    requires Balanced(sep)
    ensures Balanced(Join(parts, sep))
  {
    if |parts| == 0 {
      assert Depth("") == 0;
    } else if |parts| > 1 {
      JoinBalanced(parts[1..], sep);
      BalancedAppend(parts[0], sep);
      BalancedAppend(parts[0] + sep, Join(parts[1..], sep));
    }
  }

  /** No unknown's name contains a bracket. */
  predicate PlainNames(e: MathObject) {
    match e
    case Constant(_) => true
    case Unknown(t) => NoBrackets(t)
    case Sum(ts) => forall i :: 0 <= i < |ts| ==> PlainNames(ts[i])
    case Product(ts) => forall i :: 0 <= i < |ts| ==> PlainNames(ts[i])
    case Power(c, _) => PlainNames(c)
    case Quotient(n, d) => PlainNames(n) && PlainNames(d)
  }

  /** A sum or product whose rendered terms are balanced renders balanced. */
  lemma JoinedBalanced(e: MathObject, parent: Option<MathObject>, g: real -> string)
    requires e.Sum? || e.Product?
    requires forall i :: 0 <= i < |e.terms| ==> Balanced(Format(e.terms[i], Some(e), g))
    ensures Balanced(Format(e, parent, g))
  {
    var sep := if e.Sum? then " + " else Dot;
    var parts := seq(|e.terms|, i requires 0 <= i < |e.terms| => Format(e.terms[i], Some(e), g));
    NoBracketsBalanced(sep);
    JoinBalanced(parts, sep);
    assert Format(e, parent, g) == Join(parts, sep) || Format(e, parent, g) == BracketWrap(Join(parts, sep));
  }

  lemma PowerBalanced(e: MathObject, parent: Option<MathObject>, g: real -> string)
    requires e.Power? && Balanced(Format(e.child, Some(e), g))
    requires forall x :: NoBrackets(g(x))
    ensures Balanced(Format(e, parent, g))
  {
    var base := Format(e.child, Some(e), g);
    NoBracketsBalanced("^");
    NoBracketsBalanced(g(e.power));
    BalancedAppend(base, "^");
    BalancedAppend(base + "^", g(e.power));
  }

  lemma QuotientBalanced(e: MathObject, parent: Option<MathObject>, g: real -> string)
    requires e.Quotient? && Balanced(Format(e.numer, Some(e), g)) && Balanced(Format(e.denom, Some(e), g))
    ensures Balanced(Format(e, parent, g))
  {
    var left, right := Format(e.numer, Some(e), g), Format(e.denom, Some(e), g);
    BalancedWrap(left);
    BalancedWrap(right);
    NoBracketsBalanced(" / ");
    BalancedAppend("(" + left + ")", " / ");
    BalancedAppend("(" + left + ")" + " / ", "(" + right + ")");
    assert "(" + left + ") / (" + right + ")" == "(" + left + ")" + " / " + ("(" + right + ")");
  }

  /** format's brackets always match, provided names and rendered numbers carry none of their own. */
  lemma {:induction false} FormatBalanced(e: MathObject, parent: Option<MathObject>, g: real -> string)
    requires forall x :: NoBrackets(g(x))
    requires PlainNames(e)
    ensures Balanced(Format(e, parent, g))
  {
    match e
    case Constant(num) =>
      NoBracketsBalanced(g(num));
    case Unknown(t) =>
      NoBracketsBalanced(t);
    case Sum(ts) =>
      forall i | 0 <= i < |ts| {
        FormatBalanced(ts[i], Some(e), g);
      }
      JoinedBalanced(e, parent, g);
    case Product(ts) =>
      forall i | 0 <= i < |ts| {
        FormatBalanced(ts[i], Some(e), g);
      }
      JoinedBalanced(e, parent, g);
    case Power(c, p) =>
      FormatBalanced(c, Some(e), g);
      PowerBalanced(e, parent, g);
    case Quotient(n, d) =>
      FormatBalanced(n, Some(e), g);
      FormatBalanced(d, Some(e), g);
      QuotientBalanced(e, parent, g);
  }
}
