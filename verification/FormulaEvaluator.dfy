/**
 * The recursive-descent evaluator of src/common/formula.ts: parsing and
 * arithmetic in one pass over the tokens, no tree in between. `Run*` are its
 * levels as functions of the tokens left; class `Parser` is the source's
 * object with its `pos`, proved to compute them; `RunIsMeaning` connects them
 * with the grammar.
 */
module FormulaEvaluator {
  import opened Wrappers
  import opened Text
  import opened FormulaLexer
  import opened FormulaGrammar

  datatype Ran = Ran(value: real, rest: seq<Token>) | Failed(error: FormulaError)

  datatype RanArgs = RanArgs(values: seq<real>, rest: seq<Token>) | FailedArgs(error: FormulaError)

  function RunExpression(ts: seq<Token>, scope: Scope): (r: Ran)
    ensures r.Ran? ==> |r.rest| < |ts|
    decreases |ts|, 5
  {
    var first := RunTerm(ts, scope);
    if first.Failed? then first else RunSums(first.value, first.rest, scope)
  }

  function RunSums(left: real, ts: seq<Token>, scope: Scope): (r: Ran)
    ensures r.Ran? ==> |r.rest| <= |ts|
    decreases |ts|, 4
  {
    if OpensWith(ts, '+') || OpensWith(ts, '-') then
      var right := RunTerm(ts[1..], scope);
      if right.Failed? then right else RunSums(Plus2(ts[0].symbol, left, right.value), right.rest, scope)
    else Ran(left, ts)
  }

  function RunTerm(ts: seq<Token>, scope: Scope): (r: Ran)
    ensures r.Ran? ==> |r.rest| < |ts|
    decreases |ts|, 3
  {
    var first := RunUnary(ts, scope);
    if first.Failed? then first else RunProducts(first.value, first.rest, scope)
  }

  function RunProducts(left: real, ts: seq<Token>, scope: Scope): (r: Ran)
    ensures r.Ran? ==> |r.rest| <= |ts|
    decreases |ts|, 2
  {
    if OpensWith(ts, '*') || OpensWith(ts, '/') then
      var right := RunUnary(ts[1..], scope);
      if right.Failed? then right
      else if ts[0].symbol == '/' && right.value == 0.0 then Failed(DivisionByZero)
      else
        var product := if ts[0].symbol == '*' then Multiplied(left, right.value) else Divided(left, right.value);
        RunProducts(product, right.rest, scope)
    else if OpensPrimary(ts) then
      var right := RunUnary(ts, scope);
      if right.Failed? then right else RunProducts(Multiplied(left, right.value), right.rest, scope)
    else Ran(left, ts)
  }

  function RunUnary(ts: seq<Token>, scope: Scope): (r: Ran)
    ensures r.Ran? ==> |r.rest| < |ts|
    decreases |ts|, 1
  {
    if OpensWith(ts, '-') then
      var operand := RunUnary(ts[1..], scope);
      if operand.Failed? then operand else Ran(-operand.value, operand.rest)
    else if OpensWith(ts, '+') then RunUnary(ts[1..], scope)
    else RunPrimary(ts, scope)
  }

  function RunPrimary(ts: seq<Token>, scope: Scope): (r: Ran)
    ensures r.Ran? ==> |r.rest| < |ts|
    decreases |ts|, 0
  {
    if ts == [] then Failed(EndsTooEarly)
    else
      match ts[0]
      case Num(d) => Ran(ValueOf(d), ts[1..])
      case Op(c) =>
        if c != '(' then Failed(UnexpectedToken)
        else
          var inner := RunExpression(ts[1..], scope);
          if inner.Failed? then inner
          else if !OpensWith(inner.rest, ')') then Failed(MissingClosingBracket)
          else Ran(inner.value, inner.rest[1..])
      case Id(name) =>
        if IsFunction(name) && OpensWith(ts[1..], '(') then
          var args := RunArgs(ts[2..], scope);
          if args.FailedArgs? then Failed(args.error)
          else if !OpensWith(args.rest, ')') then Failed(MissingClosingBracket)
          else
            match ApplyNamed(name, args.values)
            case Ok(v) => Ran(v, args.rest[1..])
            case Err(e) => Failed(e)
        else
          match NameValue(name, scope)
          case Ok(v) => Ran(v, ts[1..])
          case Err(e) => Failed(e)
  }

  function RunArgs(ts: seq<Token>, scope: Scope): (r: RanArgs)
    ensures r.RanArgs? ==> |r.rest| <= |ts|
    decreases |ts|, 7
  {
    if OpensWith(ts, ')') then RanArgs([], ts) else RunSomeArgs([], ts, scope)
  }

  /** One argument, then one more after every comma; `done` are those before. */
  function RunSomeArgs(done: seq<real>, ts: seq<Token>, scope: Scope): (r: RanArgs)
    ensures r.RanArgs? ==> |r.rest| < |ts|
    decreases |ts|, 6
  {
    var next := RunExpression(ts, scope);
    if next.Failed? then FailedArgs(next.error)
    else if OpensWith(next.rest, ',') then RunSomeArgs(done + [next.value], next.rest[1..], scope)
    else RanArgs(done + [next.value], next.rest)
  }

  /** `parse()`: a whole token list. */
  function Run(ts: seq<Token>, scope: Scope): Valued {
    if ts == [] then Err(EmptyFormula)
    else
      match RunExpression(ts, scope)
      case Failed(e) => Err(e)
      case Ran(v, rest) => if rest == [] then Ok(v) else Err(UnexpectedToken)
  }

  const MAX_FORMULA_LENGTH := 500

  function EvaluateFormula(formula: string, scope: Scope): Valued {
    if |formula| > MAX_FORMULA_LENGTH then Err(TooLong)
    else var ts :- Tokens(formula); Run(ts, scope)
  }

  /** The arguments from a token after one of them: a comma, or the end. */
  function MoreArgs(done: seq<real>, ts: seq<Token>, scope: Scope): RanArgs {
    if OpensWith(ts, ',') then RunSomeArgs(done, ts[1..], scope) else RanArgs(done, ts)
  }

  lemma {:induction false} ArgStep(done: seq<real>, ts: seq<Token>, scope: Scope)
    ensures var next := RunExpression(ts, scope);
            RunSomeArgs(done, ts, scope)
            == if next.Failed? then FailedArgs(next.error) else MoreArgs(done + [next.value], next.rest, scope)
  {
  }

  lemma {:induction false} SumStep(left: real, ts: seq<Token>, op: char, scope: Scope)
    requires OpensWith(ts, op) && (op == '+' || op == '-')
    ensures var right := RunTerm(ts[1..], scope);
            RunSums(left, ts, scope)
            == if right.Failed? then right else RunSums(Plus2(op, left, right.value), right.rest, scope)
  {
  }

  lemma {:induction false} ProductStep(left: real, ts: seq<Token>, op: char, scope: Scope)
    requires OpensWith(ts, op) && (op == '*' || op == '/')
    ensures var right := RunUnary(ts[1..], scope);
            RunProducts(left, ts, scope)
            == if right.Failed? then right
               else if op == '/' && right.value == 0.0 then Failed(DivisionByZero)
               else RunProducts(if op == '*' then Multiplied(left, right.value) else Divided(left, right.value), right.rest, scope)
  {
  }

  lemma {:induction false} JuxtaposedStep(left: real, ts: seq<Token>, scope: Scope)
    requires OpensPrimary(ts)
    ensures var right := RunUnary(ts, scope);
            RunProducts(left, ts, scope)
            == if right.Failed? then right else RunProducts(Multiplied(left, right.value), right.rest, scope)
  {
  }

  // ----- the object -----

  class Parser {
    const tokens: seq<Token>
    const scope: Scope
    var pos: nat

    constructor (tokens: seq<Token>, scope: Scope)
      ensures this.tokens == tokens && this.scope == scope && pos == 0
    {
      this.tokens, this.scope, pos := tokens, scope, 0;
    }

    function Left(): seq<Token>
      reads this
    {
      if pos <= |tokens| then tokens[pos..] else []
    }

    /** What a level promises: the result it ran to and, unless it threw, where it left off. */
    ghost predicate Did(start: nat, ran: Ran, result: Valued)
      reads this
    {
      match ran
      case Ran(v, rest) => result == Ok(v) && start < pos <= |tokens| && Left() == rest
      case Failed(e) => result == Err(e)
    }

    predicate At(symbol: char)
      reads this
      ensures At(symbol) <==> OpensWith(Left(), symbol)
    {
      pos < |tokens| && tokens[pos] == Op(symbol)
    }

    method Parse() returns (r: Valued)
      requires pos == 0
      modifies this
      ensures r == Run(tokens, scope)
    {
      if |tokens| == 0 {
        return Err(EmptyFormula);
      }
      assert tokens[0..] == tokens;
      r := Expression();
      if r.Ok? && pos < |tokens| {
        return Err(UnexpectedToken);
      }
    }

    method Expression() returns (r: Valued)
      requires pos <= |tokens|
      modifies this
      ensures Did(old(pos), RunExpression(old(Left()), scope), r)
      decreases |tokens| - pos, 4
    {
      ghost var all := Left();
      r := Term();
      if r.Err? {
        return;
      }
      var left := r.value;
      while At('+') || At('-')
        invariant old(pos) < pos <= |tokens|
        invariant RunExpression(all, scope) == RunSums(left, Left(), scope)
        decreases |tokens| - pos
      {
        ghost var ts := Left();
        var op := tokens[pos].symbol;
        SumStep(left, ts, op, scope);
        pos := pos + 1;
        assert ts[1..] == Left();
        r := Term();
        if r.Err? {
          return;
        }
        left := Plus2(op, left, r.value);
      }
      r := Ok(left);
    }

    method Term() returns (r: Valued)
      requires pos <= |tokens|
      modifies this
      ensures Did(old(pos), RunTerm(old(Left()), scope), r)
      decreases |tokens| - pos, 3
    {
      ghost var all := Left();
      r := Unary();
      if r.Err? {
        return;
      }
      var left := r.value;
      while true
        invariant old(pos) < pos <= |tokens|
        invariant RunTerm(all, scope) == RunProducts(left, Left(), scope)
        decreases |tokens| - pos
      {
        ghost var ts := Left();
        if At('*') || At('/') {
          var op := tokens[pos].symbol;
          assert Left()[1..] == tokens[pos + 1..];
          pos := pos + 1;
          r := Unary();
          ProductStep(left, ts, op, scope);
          if r.Err? {
            return;
          }
          if op == '/' && r.value == 0.0 {
            return Err(DivisionByZero);
          }
          left := if op == '*' then Multiplied(left, r.value) else Divided(left, r.value);
        } else if pos < |tokens| && (tokens[pos].Num? || tokens[pos].Id? || tokens[pos] == Op('(')) {
          assert ts[0] == tokens[pos];
          JuxtaposedStep(left, ts, scope);
          r := Unary();
          if r.Err? {
            return;
          }
          left := Multiplied(left, r.value);
        } else {
          return Ok(left);
        }
      }
    }

    method Unary() returns (r: Valued)
      requires pos <= |tokens|
      modifies this
      ensures Did(old(pos), RunUnary(old(Left()), scope), r)
      decreases |tokens| - pos, 2
    {
      if At('-') {
        assert Left()[1..] == tokens[pos + 1..];
        pos := pos + 1;
        r := Unary();
        if r.Ok? {
          r := Ok(-r.value);
        }
      } else if At('+') {
        assert Left()[1..] == tokens[pos + 1..];
        pos := pos + 1;
        r := Unary();
      } else {
        r := Primary();
      }
    }

    method Primary() returns (r: Valued)
      requires pos <= |tokens|
      modifies this
      ensures Did(old(pos), RunPrimary(old(Left()), scope), r)
      decreases |tokens| - pos, 1
    {
      if pos == |tokens| {
        pos := pos + 1;
        return Err(EndsTooEarly);
      }
      ghost var ts := Left();
      var token := tokens[pos];
      pos := pos + 1;
      assert ts[0] == token && ts[1..] == Left();
      if token.Num? {
        return Ok(ValueOf(token.value));
      }
      if token == Op('(') {
        r := Expression();
        if r.Err? {
          return;
        }
        if !At(')') {
          return Err(MissingClosingBracket);
        }
        assert Left()[1..] == tokens[pos + 1..];
        pos := pos + 1;
        return;
      }
      if token.Id? {
        if IsFunction(token.name) && At('(') {
          pos := pos + 1;
          assert ts[2..] == Left();
          r := CallOf(token.name);
          return;
        }
        return NameValue(token.name, scope);
      }
      return Err(UnexpectedToken);
    }

    /** The rest of a call, after its "(". */
    method CallOf(name: string) returns (r: Valued)
      requires pos <= |tokens|
      modifies this
      ensures var args := RunArgs(old(Left()), scope);
              if args.FailedArgs? then r == Err(args.error)
              else if !OpensWith(args.rest, ')') then r == Err(MissingClosingBracket)
              else (r == ApplyNamed(name, args.values)
                    && (r.Ok? ==> old(pos) < pos <= |tokens| && Left() == args.rest[1..]))
      decreases |tokens| - pos, 5
    {
      ghost var all := Left();
      var args: seq<real> := [];
      if !At(')') {
        ArgStep(args, all, scope);
        r := Expression();
        if r.Err? {
          return;
        }
        args := args + [r.value];
        while At(',')
          invariant old(pos) < pos <= |tokens|
          invariant RunArgs(all, scope) == MoreArgs(args, Left(), scope)
          decreases |tokens| - pos
        {
          assert Left()[1..] == tokens[pos + 1..];
          pos := pos + 1;
          ArgStep(args, Left(), scope);
          r := Expression();
          if r.Err? {
            return;
          }
          args := args + [r.value];
        }
      }
      if !At(')') {
        return Err(MissingClosingBracket);
      }
      assert Left()[1..] == tokens[pos + 1..];
      pos := pos + 1;
      r := ApplyNamed(name, args);
    }
  }

  /** `evaluateFormula`, through the tokenizer loop and the parser object. */
  method Evaluate(formula: string, scope: Scope) returns (r: Valued)
    ensures r == EvaluateFormula(formula, scope)
  {
    if |formula| > MAX_FORMULA_LENGTH {
      return Err(TooLong);
    }
    var lexed := Tokenize(formula);
    if lexed.Err? {
      return Err(lexed.error);
    }
    var parser := new Parser(lexed.value, scope);
    r := parser.Parse();
  }

  // ----- one pass means what the tree means -----

  function Outcome(t: Tree, rest: seq<Token>, scope: Scope): Ran {
    match Denote(t, scope)
    case Ok(v) => Ran(v, rest)
    case Err(e) => Failed(e)
  }

  /** A level of the evaluator does what the same level of the grammar says. */
  ghost predicate Agree(r: Ran, p: Parsed, scope: Scope) {
    match p
    case Parsed(t, rest) => r == Outcome(t, rest, scope)
    case NoTree => r.Failed?
  }

  /** The same for a loop that has read `left`: an error in `left` is the error of the whole. */
  ghost predicate AgreeAfter(left: Tree, run: real -> Ran, p: Parsed, scope: Scope) {
    match Denote(left, scope)
    case Ok(v) => Agree(run(v), p, scope)
    case Err(e) => p.Parsed? ==> Denote(p.tree, scope) == Err(e)
  }

  lemma {:induction false} ExpressionAgrees(ts: seq<Token>, scope: Scope)
    ensures Agree(RunExpression(ts, scope), ParseExpression(ts), scope)
    decreases |ts|, 6
  {
    TermAgrees(ts, scope);
    var first := ParseTerm(ts);
    if first.Parsed? {
      SumsAgree(first.tree, first.rest, scope);
    }
  }

  lemma {:induction false} SumsAgree(left: Tree, ts: seq<Token>, scope: Scope)
    requires IsExpression(left)
    ensures AgreeAfter(left, v => RunSums(v, ts, scope), ParseSums(left, ts), scope)
    decreases |ts|, 5
  {
    if OpensWith(ts, '+') || OpensWith(ts, '-') {
      TermAgrees(ts[1..], scope);
      var right := ParseTerm(ts[1..]);
      if right.Parsed? {
        SumsAgree(Sum(ts[0].symbol, left, right.tree), right.rest, scope);
      }
    }
  }

  lemma {:induction false} TermAgrees(ts: seq<Token>, scope: Scope)
    ensures Agree(RunTerm(ts, scope), ParseTerm(ts), scope)
    decreases |ts|, 4
  {
    UnaryAgrees(ts, scope);
    var first := ParseUnary(ts);
    if first.Parsed? {
      ProductsAgree(first.tree, first.rest, scope);
    }
  }

  lemma {:induction false} ProductsAgree(left: Tree, ts: seq<Token>, scope: Scope)
    requires IsTerm(left)
    ensures AgreeAfter(left, v => RunProducts(v, ts, scope), ParseProducts(left, ts), scope)
    decreases |ts|, 3
  {
    if OpensWith(ts, '*') || OpensWith(ts, '/') {
      UnaryAgrees(ts[1..], scope);
      var right := ParseUnary(ts[1..]);
      if right.Parsed? {
        ProductsAgree(Product(if ts[0].symbol == '*' then Times else Over, left, right.tree), right.rest, scope);
      }
    } else if OpensPrimary(ts) {
      PrimaryAgrees(ts, scope);
      assert RunUnary(ts, scope) == RunPrimary(ts, scope);
      var right := ParsePrimary(ts);
      if Denote(left, scope).Ok? {
        JuxtaposedStep(Denote(left, scope).value, ts, scope);
      }
      if right.Parsed? {
        ProductsAgree(Product(Juxtaposed, left, right.tree), right.rest, scope);
      }
    }
  }

  lemma {:induction false} UnaryAgrees(ts: seq<Token>, scope: Scope)
    ensures Agree(RunUnary(ts, scope), ParseUnary(ts), scope)
    decreases |ts|, 2
  {
    if OpensWith(ts, '-') || OpensWith(ts, '+') {
      UnaryAgrees(ts[1..], scope);
    } else {
      PrimaryAgrees(ts, scope);
    }
  }

  lemma {:induction false} PrimaryAgrees(ts: seq<Token>, scope: Scope)
    ensures Agree(RunPrimary(ts, scope), ParsePrimary(ts), scope)
    decreases |ts|, 1
  {
    if ts != [] && ts[0] == Op('(') {
      ExpressionAgrees(ts[1..], scope);
    } else if ts != [] && ts[0].Id? {
      FunctionsAreNotNames(ts[0].name);
      if IsFunction(ts[0].name) && OpensWith(ts[1..], '(') {
        CallAgrees(ts, scope);
      }
    }
  }

  lemma {:induction false} CallAgrees(ts: seq<Token>, scope: Scope)
    requires ts != [] && ts[0].Id? && IsFunction(ts[0].name) && OpensWith(ts[1..], '(')
    ensures Agree(RunPrimary(ts, scope), ParsePrimary(ts), scope)
    decreases |ts|, 0
  {
    ArgsAgree(ts[2..], scope);
    var args := ParseArgs(ts[2..]);
    if args.ParsedArgs? && DenoteArgs(args.trees, scope).Ok? {
      var xs := DenoteArgs(args.trees, scope).value;
      assert [] + xs == xs;
    }
  }

  /** No name is both a function and a variable. */
  lemma {:induction false} FunctionsAreNotNames(name: string)
    ensures IsFunction(name) ==> Alias(Lower(name)) == None
  {
    var l := Lower(name);
    if l == "max" || l == "min" || l == "abs" {
      assert |l| == 3;
    } else if l == "round" || l == "floor" {
      assert |l| == 5 && (l[1] == 'o' || l[1] == 'l');
    } else if l == "ceil" {
      assert |l| == 4 && l[1] == 'e';
    }
  }

  ghost predicate AgreeArgs(done: seq<real>, r: RanArgs, p: ParsedArgs, scope: Scope) {
    match p
    case ParsedArgs(trees, rest) =>
      (match DenoteArgs(trees, scope)
       case Ok(xs) => r == RanArgs(done + xs, rest)
       case Err(e) => r == FailedArgs(e))
    case NoArgs => r.FailedArgs?
  }

  lemma {:induction false} ArgsAgree(ts: seq<Token>, scope: Scope)
    ensures AgreeArgs([], RunArgs(ts, scope), ParseArgs(ts), scope)
    decreases |ts|, 8
  {
    if !OpensWith(ts, ')') {
      SomeArgsAgree([], ts, scope);
    }
  }

  lemma {:induction false} SomeArgsAgree(done: seq<real>, ts: seq<Token>, scope: Scope)
    ensures AgreeArgs(done, RunSomeArgs(done, ts, scope), ParseSomeArgs(ts), scope)
    decreases |ts|, 7
  {
    ExpressionAgrees(ts, scope);
    var first := ParseExpression(ts);
    if first.Parsed? {
      var v := Denote(first.tree, scope);
      if OpensWith(first.rest, ',') {
        var others := ParseSomeArgs(first.rest[1..]);
        if v.Ok? {
          SomeArgsAgree(done + [v.value], first.rest[1..], scope);
        }
        if others.ParsedArgs? {
          assert ([first.tree] + others.trees)[1..] == others.trees;
          var xs := DenoteArgs(others.trees, scope);
          if v.Ok? && xs.Ok? {
            assert (done + [v.value]) + xs.value == done + ([v.value] + xs.value);
          }
        }
      } else if v.Ok? {
        assert [first.tree][1..] == [];
        assert [v.value] + [] == [v.value];
      }
    }
  }

  /**
   * The evaluator refines the grammar: it answers `v` exactly when the tokens
   * are written by a tree of the grammar whose value is `v`. So it throws
   * exactly when there is no such tree, or the tree's value is an error: an
   * unknown name, an empty max or min, a zero divisor.
   */
  lemma {:induction false} RunIsMeaning(ts: seq<Token>, scope: Scope)
    ensures forall t :: IsExpression(t) && Yield(t) == ts ==> Run(ts, scope) == Denote(t, scope)
    ensures Run(ts, scope).Ok? ==> exists t :: IsExpression(t) && Yield(t) == ts
  {
    ExpressionAgrees(ts, scope);
    forall t | IsExpression(t) && Yield(t) == ts
      ensures Run(ts, scope) == Denote(t, scope)
    {
      UniqueTree(ts, t);
      FirstTokenOfExpression(t);
    }
    if Run(ts, scope).Ok? {
      var t := TreeOf(ts).value;
      assert IsExpression(t) && Yield(t) == ts;
    }
  }

  /** The only errors a tree's value can be. */
  lemma {:induction false} ErrorsOfATree(t: Tree, scope: Scope)
    requires Denote(t, scope).Err?
    ensures var e := Denote(t, scope).error; e == UnknownName || e == NeedsAValue || e == DivisionByZero
  {
    match t {
      case Number(_) =>
      case Name(_) =>
      case Group(inner) => ErrorsOfATree(inner, scope);
      case Signed(_, operand) => ErrorsOfATree(operand, scope);
      case Call(fn, args) =>
        if DenoteArgs(args, scope).Err? {
          ErrorsOfArgs(args, scope);
        }
      case Product(_, left, right) =>
        if Denote(left, scope).Err? {
          ErrorsOfATree(left, scope);
        } else if Denote(right, scope).Err? {
          ErrorsOfATree(right, scope);
        }
      case Sum(_, left, right) =>
        if Denote(left, scope).Err? {
          ErrorsOfATree(left, scope);
        } else {
          ErrorsOfATree(right, scope);
        }
    }
  }

  lemma {:induction false} ErrorsOfArgs(args: seq<Tree>, scope: Scope)
    requires DenoteArgs(args, scope).Err?
    ensures var e := DenoteArgs(args, scope).error; e == UnknownName || e == NeedsAValue || e == DivisionByZero
  {
    if Denote(args[0], scope).Err? {
      ErrorsOfATree(args[0], scope);
    } else {
      ErrorsOfArgs(args[1..], scope);
    }
  }
}
