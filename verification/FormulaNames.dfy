/**
 * What a formula's value depends on. Two token lists that agree token by token
 * (operators equal, calls of the same function, atoms of the same value)
 * evaluate alike. So a formula with no name for the rise is not affected by it.
 */
module FormulaNames {
  import opened Wrappers
  import opened Text
  import opened FormulaLexer
  import opened FormulaGrammar
  import opened FormulaEvaluator

  /** The value of a number or of a variable's name. */
  function AtomValue(t: Token, scope: Scope): Valued
    requires !t.Op?
  {
    match t
    case Num(d) => Ok(ValueOf(d))
    case Id(name) => NameValue(name, scope)
  }

  predicate SameToken(t: Token, s: Scope, t': Token, s': Scope) {
    if t.Op? || t'.Op? then t == t'
    else if IsFunctionToken(t) || IsFunctionToken(t') then
      t.Id? && t'.Id? && FunctionNamed(Lower(t.name)) == FunctionNamed(Lower(t'.name))
    else AtomValue(t, s) == AtomValue(t', s')
  }

  ghost predicate SameTokens(ts: seq<Token>, s: Scope, ts': seq<Token>, s': Scope) {
    |ts| == |ts'| && forall i :: 0 <= i < |ts| ==> SameToken(ts[i], s, ts'[i], s')
  }

  ghost predicate SameRan(r: Ran, s: Scope, r': Ran, s': Scope) {
    match (r, r')
    case (Ran(v, rest), Ran(v', rest')) => v == v' && SameTokens(rest, s, rest', s')
    case (Failed(e), Failed(e')) => e == e'
    case _ => false
  }

  ghost predicate SameRanArgs(r: RanArgs, s: Scope, r': RanArgs, s': Scope) {
    match (r, r')
    case (RanArgs(xs, rest), RanArgs(xs', rest')) => xs == xs' && SameTokens(rest, s, rest', s')
    case (FailedArgs(e), FailedArgs(e')) => e == e'
    case _ => false
  }

  lemma {:induction false} SameOpening(ts: seq<Token>, s: Scope, ts': seq<Token>, s': Scope, symbol: char)
    requires SameTokens(ts, s, ts', s')
    ensures OpensWith(ts, symbol) == OpensWith(ts', symbol)
    ensures OpensPrimary(ts) == OpensPrimary(ts')
    ensures ts != [] ==> SameTokens(ts[1..], s, ts'[1..], s')
  {
    if ts != [] {
      assert SameToken(ts[0], s, ts'[0], s');
    }
  }

  lemma {:induction false} SameExpression(ts: seq<Token>, s: Scope, ts': seq<Token>, s': Scope)
    requires SameTokens(ts, s, ts', s')
    ensures SameRan(RunExpression(ts, s), s, RunExpression(ts', s'), s')
    decreases |ts|, 6
  {
    SameTerm(ts, s, ts', s');
    var r, r' := RunTerm(ts, s), RunTerm(ts', s');
    if r.Ran? {
      SameSums(r.value, r.rest, s, r'.rest, s');
    }
  }

  lemma {:induction false} SameSums(left: real, ts: seq<Token>, s: Scope, ts': seq<Token>, s': Scope)
    requires SameTokens(ts, s, ts', s')
    ensures SameRan(RunSums(left, ts, s), s, RunSums(left, ts', s'), s')
    decreases |ts|, 5
  {
    SameOpening(ts, s, ts', s', '+');
    SameOpening(ts, s, ts', s', '-');
    if OpensWith(ts, '+') || OpensWith(ts, '-') {
      SameTerm(ts[1..], s, ts'[1..], s');
      var r, r' := RunTerm(ts[1..], s), RunTerm(ts'[1..], s');
      if r.Ran? {
        SameSums(Plus2(ts[0].symbol, left, r.value), r.rest, s, r'.rest, s');
      }
    }
  }

  lemma {:induction false} SameTerm(ts: seq<Token>, s: Scope, ts': seq<Token>, s': Scope)
    requires SameTokens(ts, s, ts', s')
    ensures SameRan(RunTerm(ts, s), s, RunTerm(ts', s'), s')
    decreases |ts|, 4
  {
    SameUnary(ts, s, ts', s');
    var r, r' := RunUnary(ts, s), RunUnary(ts', s');
    if r.Ran? {
      SameProducts(r.value, r.rest, s, r'.rest, s');
    }
  }

  lemma {:induction false} SameProducts(left: real, ts: seq<Token>, s: Scope, ts': seq<Token>, s': Scope)
    requires SameTokens(ts, s, ts', s')
    ensures SameRan(RunProducts(left, ts, s), s, RunProducts(left, ts', s'), s')
    decreases |ts|, 3
  {
    SameOpening(ts, s, ts', s', '*');
    SameOpening(ts, s, ts', s', '/');
    if OpensWith(ts, '*') || OpensWith(ts, '/') {
      var op := ts[0].symbol;
      ProductStep(left, ts, op, s);
      ProductStep(left, ts', op, s');
      SameUnary(ts[1..], s, ts'[1..], s');
      var r, r' := RunUnary(ts[1..], s), RunUnary(ts'[1..], s');
      if r.Ran? && !(op == '/' && r.value == 0.0) {
        var product := if op == '*' then Multiplied(left, r.value) else Divided(left, r.value);
        SameProducts(product, r.rest, s, r'.rest, s');
      }
    } else if OpensPrimary(ts) {
      JuxtaposedStep(left, ts, s);
      JuxtaposedStep(left, ts', s');
      SameUnary(ts, s, ts', s');
      var r, r' := RunUnary(ts, s), RunUnary(ts', s');
      if r.Ran? {
        SameProducts(Multiplied(left, r.value), r.rest, s, r'.rest, s');
      }
    }
  }

  lemma {:induction false} SameUnary(ts: seq<Token>, s: Scope, ts': seq<Token>, s': Scope)
    requires SameTokens(ts, s, ts', s')
    ensures SameRan(RunUnary(ts, s), s, RunUnary(ts', s'), s')
    decreases |ts|, 2
  {
    SameOpening(ts, s, ts', s', '-');
    SameOpening(ts, s, ts', s', '+');
    if OpensWith(ts, '-') || OpensWith(ts, '+') {
      SameUnary(ts[1..], s, ts'[1..], s');
    } else {
      SamePrimary(ts, s, ts', s');
    }
  }

  lemma {:induction false} SamePrimary(ts: seq<Token>, s: Scope, ts': seq<Token>, s': Scope)
    requires SameTokens(ts, s, ts', s')
    ensures SameRan(RunPrimary(ts, s), s, RunPrimary(ts', s'), s')
    decreases |ts|, 1
  {
    if ts != [] {
      SameOpening(ts, s, ts', s', '(');
      SameOpening(ts[1..], s, ts'[1..], s', '(');
      assert SameToken(ts[0], s, ts'[0], s');
      if ts[0] == Op('(') {
        SameExpression(ts[1..], s, ts'[1..], s');
        var r, r' := RunExpression(ts[1..], s), RunExpression(ts'[1..], s');
        if r.Ran? {
          SameOpening(r.rest, s, r'.rest, s', ')');
        }
      } else if IsFunctionToken(ts[0]) {
        FunctionsAreNotNames(ts[0].name);
        FunctionsAreNotNames(ts'[0].name);
        if OpensWith(ts[1..], '(') {
          SameCall(ts, s, ts', s');
        }
      }
    }
  }

  lemma {:induction false} SameCall(ts: seq<Token>, s: Scope, ts': seq<Token>, s': Scope)
    requires SameTokens(ts, s, ts', s')
    requires ts != [] && IsFunctionToken(ts[0]) && OpensWith(ts[1..], '(')
    ensures SameRan(RunPrimary(ts, s), s, RunPrimary(ts', s'), s')
    decreases |ts|, 0
  {
    assert SameToken(ts[0], s, ts'[0], s');
    SameOpening(ts[1..], s, ts'[1..], s', '(');
    assert SameTokens(ts[2..], s, ts'[2..], s');
    SameArgs(ts[2..], s, ts'[2..], s');
    var r, r' := RunArgs(ts[2..], s), RunArgs(ts'[2..], s');
    if r.RanArgs? {
      SameOpening(r.rest, s, r'.rest, s', ')');
    }
  }

  lemma {:induction false} SameArgs(ts: seq<Token>, s: Scope, ts': seq<Token>, s': Scope)
    requires SameTokens(ts, s, ts', s')
    ensures SameRanArgs(RunArgs(ts, s), s, RunArgs(ts', s'), s')
    decreases |ts|, 8
  {
    SameOpening(ts, s, ts', s', ')');
    if !OpensWith(ts, ')') {
      SameSomeArgs([], ts, s, ts', s');
    }
  }

  lemma {:induction false} SameSomeArgs(done: seq<real>, ts: seq<Token>, s: Scope, ts': seq<Token>, s': Scope)
    requires SameTokens(ts, s, ts', s')
    ensures SameRanArgs(RunSomeArgs(done, ts, s), s, RunSomeArgs(done, ts', s'), s')
    decreases |ts|, 7
  {
    SameExpression(ts, s, ts', s');
    var r, r' := RunExpression(ts, s), RunExpression(ts', s');
    if r.Ran? {
      SameOpening(r.rest, s, r'.rest, s', ',');
      if OpensWith(r.rest, ',') {
        SameSomeArgs(done + [r.value], r.rest[1..], s, r'.rest[1..], s');
      }
    }
  }

  /** Token lists that agree evaluate alike, errors included. */
  lemma {:induction false} SameRun(ts: seq<Token>, s: Scope, ts': seq<Token>, s': Scope)
    requires SameTokens(ts, s, ts', s')
    ensures Run(ts, s) == Run(ts', s')
  {
    SameExpression(ts, s, ts', s');
  }

  // ----- formulaUsesRise -----

  predicate NamesRise(t: Token) {
    t.Id? && Alias(Lower(t.name)) == Some(Rise)
  }

  /** A token scan; false for a formula that does not tokenize. */
  predicate FormulaUsesRise(formula: string) {
    var lexed := Tokens(formula);
    lexed.Ok? && exists t :: t in lexed.value && NamesRise(t)
  }

  /**
   * The token scan is a sound non-interference check: where it answers false,
   * no rise can change the value of the formula, or its error.
   */
  lemma {:induction false} RiseIsNotRead(formula: string, s: Scope, s': Scope)
    requires !FormulaUsesRise(formula)
    requires forall k :: k != Rise ==> s(k) == s'(k)
    ensures EvaluateFormula(formula, s) == EvaluateFormula(formula, s')
  {
    var lexed := Tokens(formula);
    if lexed.Ok? {
      var ts := lexed.value;
      forall i | 0 <= i < |ts|
        ensures SameToken(ts[i], s, ts[i], s')
      {
        assert ts[i] in ts;
      }
      SameRun(ts, s, ts, s');
    }
  }
}
