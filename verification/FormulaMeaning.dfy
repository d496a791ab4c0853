/**
 * What the parts of a formula mean, in arithmetic: its numbers, its names, its
 * operators and its functions, each function by its name and for every list of
 * values it can be given.
 */
module FormulaMeaning {
  import opened Wrappers
  import opened Text
  import opened Decimals
  import opened FormulaLexer
  import opened FormulaGrammar
  import opened FormulaEvaluator

  // ----- functions -----

  /** Some value of the list, and no smaller one in it. */
  predicate IsLeast(v: real, xs: seq<real>) {
    v in xs && forall x <- xs :: v <= x
  }

  predicate IsGreatest(v: real, xs: seq<real>) {
    v in xs && forall x <- xs :: x <= v
  }

  lemma {:induction false} SmallestIsLeast(xs: seq<real>)
    requires xs != []
    ensures IsLeast(SmallestOf(xs), xs)
  {
    if |xs| > 1 {
      SmallestIsLeast(xs[1..]);
      assert xs == [xs[0]] + xs[1..];
    }
  }

  lemma {:induction false} LargestIsGreatest(xs: seq<real>)
    requires xs != []
    ensures IsGreatest(LargestOf(xs), xs)
  {
    if |xs| > 1 {
      LargestIsGreatest(xs[1..]);
      assert xs == [xs[0]] + xs[1..];
    }
  }

  /** A call of `name` whose arguments have the values `xs`, in any case of its letters. */
  ghost predicate IsCall(t: Tree, name: string, scope: Scope, xs: seq<real>) {
    t.Call? && Lower(t.fn) == name && DenoteArgs(t.args, scope) == Ok(xs)
  }

  /** min is the least of its values, max the greatest, and neither goes without one. */
  lemma {:induction false} MinAndMaxMean(t: Tree, scope: Scope, xs: seq<real>)
    ensures IsCall(t, "min", scope, xs) ==>
              if xs == [] then Denote(t, scope) == Err(NeedsAValue)
              else exists v :: Denote(t, scope) == Ok(v) && IsLeast(v, xs)
    ensures IsCall(t, "max", scope, xs) ==>
              if xs == [] then Denote(t, scope) == Err(NeedsAValue)
              else exists v :: Denote(t, scope) == Ok(v) && IsGreatest(v, xs)
  {
    if xs != [] {
      SmallestIsLeast(xs);
      LargestIsGreatest(xs);
    }
  }

  /** The value the other functions take: their first, and 0 if there is none. */
  predicate IsFirst(x: real, xs: seq<real>) {
    if |xs| > 0 then x == xs[0] else x == 0.0
  }

  /** A whole number within a half of `x`, the one further from zero when two are as near. */
  predicate IsRounded(v: real, x: real) {
    && v == v.Floor as real
    && -0.5 <= v - x <= 0.5
    && (v - x == 0.5 ==> x > 0.0) && (v - x == -0.5 ==> x < 0.0)
  }

  /** floor, ceil, round and abs of the first value. */
  lemma {:induction false} RoundingsMean(t: Tree, scope: Scope, xs: seq<real>, x: real)
    requires IsFirst(x, xs)
    ensures IsCall(t, "floor", scope, xs) ==>
              exists v :: Denote(t, scope) == Ok(v) && v == v.Floor as real && v <= x < v + 1.0
    ensures IsCall(t, "ceil", scope, xs) ==>
              exists v :: Denote(t, scope) == Ok(v) && v == v.Floor as real && v - 1.0 < x <= v
    ensures IsCall(t, "round", scope, xs) ==> exists v :: Denote(t, scope) == Ok(v) && IsRounded(v, x)
    ensures IsCall(t, "abs", scope, xs) ==> exists v :: Denote(t, scope) == Ok(v) && v >= 0.0 && (v == x || v == -x)
  {
    RoundedIs(x);
    if IsCall(t, "ceil", scope, xs) {
      assert Denote(t, scope) == Ok(-((-x).Floor) as real);
    }
  }

  lemma {:induction false} RoundedIs(x: real)
    ensures IsRounded(RoundHalfUp(x) as real, x)
  {
  }

  // ----- operators -----

  /** The arithmetic of two operands that have values, and of one. */
  lemma {:induction false} OperatorsMean(l: Tree, r: Tree, scope: Scope, x: real, y: real)
    requires Denote(l, scope) == Ok(x) && Denote(r, scope) == Ok(y)
    ensures Denote(Sum('+', l, r), scope) == Ok(x + y) && Denote(Sum('-', l, r), scope) == Ok(x - y)
    ensures Denote(Signed('-', l), scope) == Ok(-x) && Denote(Signed('+', l), scope) == Ok(x) == Denote(Group(l), scope)
    ensures Denote(Product(Times, l, r), scope) == Denote(Product(Juxtaposed, l, r), scope) == Ok(Multiplied(x, y))
    ensures Denote(Product(Over, l, r), scope) == if y == 0.0 then Err(DivisionByZero) else Ok(Divided(x, y))
    ensures Multiplied(x, y) == x * y && (y != 0.0 ==> Divided(x, y) == x / y)
  {
    SumsMean(l, r, scope, x, y);
    SignMeans(l, scope, x);
    ProductsMean(l, r, scope, x, y);
    ProductIs(x, y);
  }

  lemma {:induction false} SumsMean(l: Tree, r: Tree, scope: Scope, x: real, y: real)
    requires Denote(l, scope) == Ok(x) && Denote(r, scope) == Ok(y)
    ensures Denote(Sum('+', l, r), scope) == Ok(x + y) && Denote(Sum('-', l, r), scope) == Ok(x - y)
  {
  }

  lemma {:induction false} SignMeans(t: Tree, scope: Scope, x: real)
    requires Denote(t, scope) == Ok(x)
    ensures Denote(Signed('-', t), scope) == Ok(-x) && Denote(Signed('+', t), scope) == Ok(x) == Denote(Group(t), scope)
  {
  }

  lemma {:induction false} ProductsMean(l: Tree, r: Tree, scope: Scope, x: real, y: real)
    requires Denote(l, scope) == Ok(x) && Denote(r, scope) == Ok(y)
    ensures Denote(Product(Times, l, r), scope) == Denote(Product(Juxtaposed, l, r), scope) == Ok(Multiplied(x, y))
    ensures Denote(Product(Over, l, r), scope) == if y == 0.0 then Err(DivisionByZero) else Ok(Divided(x, y))
  {
  }

  lemma {:induction false} ProductIs(x: real, y: real)
    ensures Multiplied(x, y) == x * y && (y != 0.0 ==> Divided(x, y) == x / y)
  {
  }

  /** An operand without a value is the first error met, from left to right. */
  lemma {:induction false} FirstErrorMeans(l: Tree, r: Tree, scope: Scope, op: char, kind: ProductKind)
    requires Denote(l, scope).Err? || Denote(r, scope).Err?
    ensures Denote(Sum(op, l, r), scope) == Denote(Product(kind, l, r), scope)
         == if Denote(l, scope).Err? then Denote(l, scope) else Denote(r, scope)
  {
  }

  /** A call's values are its arguments', in order. */
  lemma {:induction false} ArgsMean(args: seq<Tree>, scope: Scope, k: nat)
    requires k < |args| && DenoteArgs(args, scope).Ok?
    ensures |DenoteArgs(args, scope).value| == |args| && Denote(args[k], scope) == Ok(DenoteArgs(args, scope).value[k])
  {
    if |args| == 1 {
      assert DenoteArgs(args[1..], scope) == Ok([]);
    } else {
      ArgsMean(args[1..], scope, if k == 0 then 0 else k - 1);
    }
  }

  // ----- names and numbers -----

  /** Which variable each of the names stands for, in any case of its letters; any other is unknown. */
  lemma {:induction false} NamesMean(name: string, scope: Scope)
    ensures var lower := Lower(name);
            Denote(Name(name), scope)
            == if lower == "base" || lower == "baseprice" || lower == "base_price" || lower == "b" then Ok(ValueOf(scope(Base)))
               else if lower == "n" || lower == "stops" || lower == "floors" || lower == "l" || lower == "levels" then Ok(ValueOf(scope(N)))
               else if lower == "c" || lower == "capacity" || lower == "kg" || lower == "load" then Ok(ValueOf(scope(C)))
               else if lower == "perstop" || lower == "per_stop" || lower == "ratestop" then Ok(ValueOf(scope(PerStop)))
               else if lower == "perkg" || lower == "per_kg" || lower == "ratekg" then Ok(ValueOf(scope(PerKg)))
               else if lower == "refn" || lower == "ref_n" || lower == "basen" || lower == "base_n" || lower == "basestops" then Ok(ValueOf(scope(RefN)))
               else if lower == "refc" || lower == "ref_c" || lower == "basec" || lower == "base_c" || lower == "basecapacity" then Ok(ValueOf(scope(RefC)))
               else if lower == "kgstep" || lower == "kg_step" || lower == "step" then Ok(ValueOf(scope(KgStep)))
               else if lower == "rise" || lower == "travel" || lower == "height" || lower == "h" then Ok(ValueOf(scope(Rise)))
               else Err(UnknownName)
  {
  }

  // ----- what binds how -----

  /** A token list read as one tree: its value. */
  lemma {:induction false} ReadAs(ts: seq<Token>, t: Tree, scope: Scope)
    requires IsExpression(t) && Yield(t) == ts
    ensures Run(ts, scope) == Denote(t, scope)
  {
    RunIsMeaning(ts, scope);
  }

  /** A term that has a value. */
  predicate IsTermOf(t: Tree, v: real, scope: Scope) {
    IsTerm(t) && Denote(t, scope) == Ok(v)
  }

  /** A product of two parts is a term, and its value is the product or the quotient of theirs. */
  lemma {:induction false} PartsMean(kind: ProductKind, l: Tree, r: Tree, x: real, y: real, scope: Scope)
    requires IsTermOf(l, x, scope) && Denote(r, scope) == Ok(y)
    requires (if kind == Juxtaposed then IsPrimary(r) else IsUnary(r)) && (kind == Over ==> y != 0.0)
    ensures IsTermOf(Product(kind, l, r), if kind == Over then Divided(x, y) else Multiplied(x, y), scope)
    ensures IsExpression(Product(kind, l, r))
    ensures Yield(Product(kind, l, r)) == Yield(l) + ProductToken(kind) + Yield(r)
  {
    PartsMake(kind, l, r);
    ProductsMean(l, r, scope, x, y);
  }

  lemma {:induction false} PartsMake(kind: ProductKind, l: Tree, r: Tree)
    requires IsTerm(l) && if kind == Juxtaposed then IsPrimary(r) else IsUnary(r)
    ensures IsTerm(Product(kind, l, r)) && IsExpression(Product(kind, l, r))
    ensures Yield(Product(kind, l, r)) == Yield(l) + ProductToken(kind) + Yield(r)
  {
  }

  /** Two operators of one level are taken from the left, and side by side is a product like any other. */
  lemma {:induction false} FromTheLeft(
      first: ProductKind, second: ProductKind, x: Tree, y: Tree, z: Tree, u: real, v: real, w: real, scope: Scope)
    requires IsPrimary(x) && IsPrimary(y) && IsPrimary(z)
    requires Denote(x, scope) == Ok(u) && Denote(y, scope) == Ok(v) && Denote(z, scope) == Ok(w)
    requires (first == Over ==> v != 0.0) && (second == Over ==> w != 0.0)
    ensures Run(Yield(x) + ProductToken(first) + Yield(y) + ProductToken(second) + Yield(z), scope)
         == (var left := if first == Over then Divided(u, v) else Multiplied(u, v);
             Ok(if second == Over then Divided(left, w) else Multiplied(left, w)))
  {
    PrimaryIsTerm(x);
    PrimaryIsTerm(y);
    PrimaryIsTerm(z);
    var left := if first == Over then Divided(u, v) else Multiplied(u, v);
    PartsMean(first, x, y, u, v, scope);
    PartsMean(second, Product(first, x, y), z, left, w, scope);
    ReadAs(Yield(x) + ProductToken(first) + Yield(y) + ProductToken(second) + Yield(z),
      Product(second, Product(first, x, y), z), scope);
  }

  /** Differences are taken from the left, */
  lemma {:induction false} DifferencesMean(x: Tree, y: Tree, z: Tree, scope: Scope)
    requires IsPrimary(x) && IsPrimary(y) && IsPrimary(z)
    ensures Run(Yield(x) + [Op('-')] + Yield(y) + [Op('-')] + Yield(z), scope)
         == Denote(Sum('-', Sum('-', x, y), z), scope)
  {
    PrimaryIsTerm(x);
    PrimaryIsTerm(y);
    PrimaryIsTerm(z);
    DifferenceMakes(x, y);
    DifferenceMakes(Sum('-', x, y), z);
    ReadAs(Yield(x) + [Op('-')] + Yield(y) + [Op('-')] + Yield(z), Sum('-', Sum('-', x, y), z), scope);
  }

  lemma {:induction false} DifferenceMakes(l: Tree, r: Tree)
    requires IsExpression(l) && IsTerm(r)
    ensures IsExpression(Sum('-', l, r)) && Yield(Sum('-', l, r)) == Yield(l) + [Op('-')] + Yield(r)
  {
  }

  /** and after a product on either side. */
  lemma {:induction false} ProductsGoFirst(x: Tree, y: Tree, z: Tree, scope: Scope)
    requires IsPrimary(x) && IsPrimary(y) && IsPrimary(z)
    ensures Run(Yield(x) + [Op('-')] + (Yield(y) + [Op('*')] + Yield(z)), scope)
         == Denote(Sum('-', x, Product(Times, y, z)), scope)
    ensures Run(Yield(x) + [Op('*')] + Yield(y) + [Op('-')] + Yield(z), scope)
         == Denote(Sum('-', Product(Times, x, y), z), scope)
  {
    PrimaryIsTerm(x);
    PrimaryIsTerm(y);
    PrimaryIsTerm(z);
    PartsMake(Times, y, z);
    PartsMake(Times, x, y);
    DifferenceMakes(x, Product(Times, y, z));
    DifferenceMakes(Product(Times, x, y), z);
    ReadAs(Yield(x) + [Op('-')] + (Yield(y) + [Op('*')] + Yield(z)), Sum('-', x, Product(Times, y, z)), scope);
    ReadAs(Yield(x) + [Op('*')] + Yield(y) + [Op('-')] + Yield(z), Sum('-', Product(Times, x, y), z), scope);
  }

  /** A sign belongs to the one value after it, wherever it stands. */
  lemma {:induction false} SignsMean(sign: char, x: Tree, y: Tree, z: Tree, scope: Scope)
    requires sign == '-' || sign == '+'
    requires IsPrimary(x) && IsPrimary(y) && IsPrimary(z)
    ensures Run(Yield(x) + [Op('*')] + ([Op(sign)] + Yield(y)) + Yield(z), scope)
         == Denote(Product(Juxtaposed, Product(Times, x, Signed(sign, y)), z), scope)
  {
    PrimaryIsTerm(x);
    var signed := Signed(sign, y);
    assert IsUnary(y) && IsUnary(signed) && Yield(signed) == [Op(sign)] + Yield(y);
    PartsMake(Times, x, signed);
    PartsMake(Juxtaposed, Product(Times, x, signed), z);
    assert Yield(x) + [Op('*')] + Yield(signed) + [] + Yield(z) == Yield(x) + [Op('*')] + Yield(signed) + Yield(z);
    ReadAs(Yield(x) + [Op('*')] + Yield(signed) + Yield(z), Product(Juxtaposed, Product(Times, x, signed), z), scope);
  }

  // ----- what is refused as what -----

  /** A text of more than 500 characters is refused, and any other is what its tokens come to. */
  lemma {:induction false} LongTextsAreRefused(formula: string, scope: Scope)
    ensures |formula| > 500 ==> EvaluateFormula(formula, scope) == Err(TooLong)
    ensures |formula| <= 500 ==> EvaluateFormula(formula, scope)
                                 == if Tokens(formula).Ok? then Run(Tokens(formula).value, scope) else Err(Tokens(formula).error)
  {
  }

  /** Nothing at all, a bracket too many, one too few, and a sum without its last term. */
  lemma {:induction false} MalformedMeans(t: Tree, scope: Scope)
    requires IsExpression(t) && Denote(t, scope).Ok?
    ensures Run([], scope) == Err(EmptyFormula)
    ensures Run(Yield(t) + [Op(')')], scope) == Err(UnexpectedToken)
    ensures Run([Op('(')] + Yield(t), scope) == Err(MissingClosingBracket)
  {
    var v, closed, unclosed := Denote(t, scope).value, Yield(t) + [Op(')')], [Op('(')] + Yield(t);
    FindsExpression(t, [Op(')')]);
    ExpressionAgrees(closed, scope);
    assert Yield(t) + [] == Yield(t) && unclosed[1..] == Yield(t);
    FindsExpression(t, []);
    ExpressionAgrees(Yield(t), scope);
    FirstTokenOfExpression(t);
    assert RunPrimary(unclosed, scope) == Failed(MissingClosingBracket);
    assert RunUnary(unclosed, scope) == Failed(MissingClosingBracket);
    assert RunTerm(unclosed, scope) == Failed(MissingClosingBracket);
    assert RunExpression(unclosed, scope) == Failed(MissingClosingBracket);
  }
}
