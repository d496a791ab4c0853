/**
 * What a formula means, independently of how it is evaluated: syntax trees,
 * the tokens each tree is written with, which trees the grammar allows, and
 * the value of a tree.
 *
 *   expression := term (('+' | '-') term)*                 left-associative
 *   term       := unary ('*' unary | '/' unary | primary)*  left-associative
 *   unary      := ('-' | '+') unary | primary
 *   primary    := number | name | '(' expression ')' | function '(' [expression (',' expression)*] ')'
 *
 * A function's name is only ever the head of a call.
 */
module FormulaGrammar {
  import opened Wrappers
  import opened Text
  import opened Decimals
  import opened FormulaLexer

  datatype Key = Base | N | C | PerStop | PerKg | RefN | RefC | KgStep | Rise

  /** The ALIASES table, keyed by the lower-case name. */
  function Alias(lower: string): Option<Key> {
    if lower == "base" || lower == "baseprice" || lower == "base_price" || lower == "b" then Some(Base)
    else if lower == "n" || lower == "stops" || lower == "floors" || lower == "l" || lower == "levels" then Some(N)
    else if lower == "c" || lower == "capacity" || lower == "kg" || lower == "load" then Some(C)
    else if lower == "perstop" || lower == "per_stop" || lower == "ratestop" then Some(PerStop)
    else if lower == "perkg" || lower == "per_kg" || lower == "ratekg" then Some(PerKg)
    else if lower == "refn" || lower == "ref_n" || lower == "basen" || lower == "base_n" || lower == "basestops" then Some(RefN)
    else if lower == "refc" || lower == "ref_c" || lower == "basec" || lower == "base_c" || lower == "basecapacity" then Some(RefC)
    else if lower == "kgstep" || lower == "kg_step" || lower == "step" then Some(KgStep)
    else if lower == "rise" || lower == "travel" || lower == "height" || lower == "h" then Some(Rise)
    else None
  }

  /** What each name stands for while a formula is evaluated. */
  type Scope = Key -> Decimal

  datatype ProductKind = Times | Over | Juxtaposed

  datatype Tree =
    | Number(literal: Decimal)
    | Name(name: string)
    | Call(fn: string, args: seq<Tree>)
    | Group(inner: Tree)
    | Signed(sign: char, operand: Tree)
    | Product(kind: ProductKind, left: Tree, right: Tree)
    | Sum(op: char, left: Tree, right: Tree)

  // ----- the grammar -----

  predicate IsPrimary(t: Tree)
    decreases t, 0
  {
    match t
    case Number(_) => true
    case Name(name) => !IsFunction(name)
    case Call(fn, args) => IsFunction(fn) && forall i :: 0 <= i < |args| ==> IsExpression(args[i])
    case Group(inner) => IsExpression(inner)
    case _ => false
  }

  predicate IsUnary(t: Tree): (b: bool)
    ensures b ==> !t.Product? && !t.Sum?
    decreases t, 1
  {
    match t
    case Signed(sign, operand) => (sign == '-' || sign == '+') && IsUnary(operand)
    case _ => IsPrimary(t)
  }

  predicate IsTerm(t: Tree): (b: bool)
    ensures b ==> !t.Sum?
    decreases t, 2
  {
    match t
    case Product(kind, left, right) =>
      IsTerm(left) && if kind == Juxtaposed then IsPrimary(right) else IsUnary(right)
    case _ => IsUnary(t)
  }

  predicate IsExpression(t: Tree)
    decreases t, 3
  {
    match t
    case Sum(op, left, right) => (op == '+' || op == '-') && IsExpression(left) && IsTerm(right)
    case _ => IsTerm(t)
  }

  /** A primary is an expression of every level. */
  lemma {:induction false} PrimaryIsTerm(t: Tree)
    requires IsPrimary(t)
    ensures IsTerm(t) && IsExpression(t)
  {
    assert IsUnary(t);
    assert IsTerm(t);
  }

  /** The tokens a tree is written with. */
  function Yield(t: Tree): seq<Token>
    decreases t, 0
  {
    match t
    case Number(d) => [Num(d)]
    case Name(name) => [Id(name)]
    case Call(fn, args) => [Id(fn), Op('(')] + (YieldArgs(args) + [Op(')')])
    case Group(inner) => [Op('(')] + (Yield(inner) + [Op(')')])
    case Signed(sign, operand) => [Op(sign)] + Yield(operand)
    case Product(kind, left, right) => Yield(left) + (ProductToken(kind) + Yield(right))
    case Sum(op, left, right) => Yield(left) + ([Op(op)] + Yield(right))
  }

  function ProductToken(kind: ProductKind): seq<Token> {
    match kind
    case Times => [Op('*')]
    case Over => [Op('/')]
    case Juxtaposed => []
  }

  function YieldArgs(args: seq<Tree>): seq<Token>
    decreases args, 1
  {
    if args == [] then []
    else if |args| == 1 then Yield(args[0])
    else Yield(args[0]) + ([Op(',')] + YieldArgs(args[1..]))
  }

  // ----- values -----

  type Valued = Result<real, FormulaError>

  function Larger(x: real, y: real): real {
    if x >= y then x else y
  }

  function Smaller(x: real, y: real): real {
    if x <= y then x else y
  }

  function LargestOf(xs: seq<real>): real
    requires xs != []
  {
    if |xs| == 1 then xs[0] else Larger(xs[0], LargestOf(xs[1..]))
  }

  function SmallestOf(xs: seq<real>): real
    requires xs != []
  {
    if |xs| == 1 then xs[0] else Smaller(xs[0], SmallestOf(xs[1..]))
  }

  /** ROUND_HALF_UP: halves go away from zero. */
  function RoundHalfUp(x: real): int {
    if x >= 0.0 then (x + 0.5).Floor else -((-x + 0.5).Floor)
  }

  /** The FUNCTIONS table: max and min need a value, the others read a missing one as 0. */
  function Apply(f: Function, xs: seq<real>): Valued {
    var first := if xs == [] then 0.0 else xs[0];
    match f
    case Max => if xs == [] then Err(NeedsAValue) else Ok(LargestOf(xs))
    case Min => if xs == [] then Err(NeedsAValue) else Ok(SmallestOf(xs))
    case Round => Ok(RoundHalfUp(first) as real)
    case Floor => Ok(first.Floor as real)
    case Ceil => Ok(-((-first).Floor) as real)
    case Abs => Ok(if first < 0.0 then -first else first)
  }

  function ApplyNamed(name: string, xs: seq<real>): Valued {
    match FunctionNamed(Lower(name))
    case Some(f) => Apply(f, xs)
    case None => Err(UnknownName)
  }

  function ValueOf(d: Decimal): real {
    if Canonical(d) then RealOf(d) else 0.0
  }

  function NameValue(name: string, scope: Scope): Valued {
    match Alias(Lower(name))
    case Some(key) => Ok(ValueOf(scope(key)))
    case None => Err(UnknownName)
  }

  function Multiplied(x: real, y: real): real {
    x * y
  }

  function Divided(x: real, y: real): real
    requires y != 0.0
  {
    x / y
  }

  function Times2(kind: ProductKind, x: real, y: real): Valued {
    if kind == Over then (if y == 0.0 then Err(DivisionByZero) else Ok(Divided(x, y))) else Ok(Multiplied(x, y))
  }

  function Plus2(op: char, x: real, y: real): real {
    if op == '+' then x + y else x - y
  }

  function Denote(t: Tree, scope: Scope): Valued
    decreases t, 0
  {
    match t
    case Number(d) => Ok(ValueOf(d))
    case Name(name) => NameValue(name, scope)
    case Call(fn, args) => (var xs :- DenoteArgs(args, scope); ApplyNamed(fn, xs))
    case Group(inner) => Denote(inner, scope)
    case Signed(sign, operand) => (var x :- Denote(operand, scope); Ok(if sign == '-' then -x else x))
    case Product(kind, left, right) =>
      (var x :- Denote(left, scope); var y :- Denote(right, scope); Times2(kind, x, y))
    case Sum(op, left, right) =>
      (var x :- Denote(left, scope); var y :- Denote(right, scope); Ok(Plus2(op, x, y)))
  }

  function DenoteArgs(args: seq<Tree>, scope: Scope): Result<seq<real>, FormulaError>
    decreases args, 1
  {
    if args == [] then Ok([])
    else
      var x :- Denote(args[0], scope);
      var xs :- DenoteArgs(args[1..], scope);
      Ok([x] + xs)
  }

  // ----- the tree of a token list, if there is one -----

  datatype Parsed = Parsed(tree: Tree, rest: seq<Token>) | NoTree

  datatype ParsedArgs = ParsedArgs(trees: seq<Tree>, rest: seq<Token>) | NoArgs

  predicate OpensWith(ts: seq<Token>, symbol: char) {
    ts != [] && ts[0] == Op(symbol)
  }

  /** A token that continues a term by juxtaposition. */
  predicate OpensPrimary(ts: seq<Token>) {
    ts != [] && (ts[0].Num? || ts[0].Id? || ts[0] == Op('('))
  }

  lemma {:induction false} JoinsSum(ts: seq<Token>, left: Tree, right: Tree, rest: seq<Token>)
    requires (OpensWith(ts, '+') || OpensWith(ts, '-')) && ts[1..] == Yield(right) + rest
    ensures Yield(left) + ts == Yield(Sum(ts[0].symbol, left, right)) + rest
  {
    assert ts == [Op(ts[0].symbol)] + ts[1..];
    assert ts == ([Op(ts[0].symbol)] + Yield(right)) + rest;
  }

  lemma {:induction false} JoinsProduct(ts: seq<Token>, left: Tree, right: Tree, rest: seq<Token>)
    requires (OpensWith(ts, '*') || OpensWith(ts, '/')) && ts[1..] == Yield(right) + rest
    ensures Yield(left) + ts == Yield(Product(if ts[0].symbol == '*' then Times else Over, left, right)) + rest
  {
    var kind := if ts[0].symbol == '*' then Times else Over;
    assert ts == [Op(ts[0].symbol)] + ts[1..];
    assert ts == (ProductToken(kind) + Yield(right)) + rest;
  }

  lemma {:induction false} JoinsJuxtaposed(ts: seq<Token>, left: Tree, right: Tree, rest: seq<Token>)
    requires ts == Yield(right) + rest
    ensures Yield(left) + ts == Yield(Product(Juxtaposed, left, right)) + rest
  {
    assert ProductToken(Juxtaposed) + Yield(right) == Yield(right);
  }

  lemma {:induction false} ClosesGroup(ts: seq<Token>, inner: Tree, rest: seq<Token>)
    requires OpensWith(ts, '(') && ts[1..] == Yield(inner) + rest && OpensWith(rest, ')')
    ensures ts == Yield(Group(inner)) + rest[1..]
  {
    assert ts == [Op('(')] + ts[1..];
    assert rest == [Op(')')] + rest[1..];
  }

  lemma {:induction false} ClosesCall(ts: seq<Token>, name: string, args: seq<Tree>, rest: seq<Token>)
    requires |ts| >= 2 && ts[0] == Id(name) && ts[1] == Op('(')
    requires ts[2..] == YieldArgs(args) + rest && OpensWith(rest, ')')
    ensures ts == Yield(Call(name, args)) + rest[1..]
  {
    assert ts == [Id(name), Op('(')] + ts[2..];
    assert rest == [Op(')')] + rest[1..];
  }

  function ParseExpression(ts: seq<Token>): (p: Parsed)
    ensures p.Parsed? ==> |p.rest| < |ts| && IsExpression(p.tree) && ts == Yield(p.tree) + p.rest
    decreases |ts|, 5
  {
    var first := ParseTerm(ts);
    if first.NoTree? then NoTree else ParseSums(first.tree, first.rest)
  }

  function ParseSums(left: Tree, ts: seq<Token>): (p: Parsed)
    requires IsExpression(left)
    ensures p.Parsed? ==> |p.rest| <= |ts| && IsExpression(p.tree) && Yield(left) + ts == Yield(p.tree) + p.rest
    decreases |ts|, 4
  {
    if OpensWith(ts, '+') || OpensWith(ts, '-') then
      var right := ParseTerm(ts[1..]);
      if right.NoTree? then NoTree
      else
        var sum := Sum(ts[0].symbol, left, right.tree);
        JoinsSum(ts, left, right.tree, right.rest);
        ParseSums(sum, right.rest)
    else Parsed(left, ts)
  }

  function ParseTerm(ts: seq<Token>): (p: Parsed)
    ensures p.Parsed? ==> |p.rest| < |ts| && IsTerm(p.tree) && ts == Yield(p.tree) + p.rest
    decreases |ts|, 3
  {
    var first := ParseUnary(ts);
    if first.NoTree? then NoTree else ParseProducts(first.tree, first.rest)
  }

  function ParseProducts(left: Tree, ts: seq<Token>): (p: Parsed)
    requires IsTerm(left)
    ensures p.Parsed? ==> |p.rest| <= |ts| && IsTerm(p.tree) && Yield(left) + ts == Yield(p.tree) + p.rest
    decreases |ts|, 2
  {
    if OpensWith(ts, '*') || OpensWith(ts, '/') then
      var right := ParseUnary(ts[1..]);
      if right.NoTree? then NoTree
      else
        var product := Product(if ts[0].symbol == '*' then Times else Over, left, right.tree);
        JoinsProduct(ts, left, right.tree, right.rest);
        ParseProducts(product, right.rest)
    else if OpensPrimary(ts) then
      var right := ParsePrimary(ts);
      if right.NoTree? then NoTree
      else
        var product := Product(Juxtaposed, left, right.tree);
        JoinsJuxtaposed(ts, left, right.tree, right.rest);
        ParseProducts(product, right.rest)
    else Parsed(left, ts)
  }

  function ParseUnary(ts: seq<Token>): (p: Parsed)
    ensures p.Parsed? ==> |p.rest| < |ts| && IsUnary(p.tree) && ts == Yield(p.tree) + p.rest
    decreases |ts|, 1
  {
    if OpensWith(ts, '-') || OpensWith(ts, '+') then
      var operand := ParseUnary(ts[1..]);
      assert ts == [Op(ts[0].symbol)] + ts[1..];
      if operand.NoTree? then NoTree else Parsed(Signed(ts[0].symbol, operand.tree), operand.rest)
    else ParsePrimary(ts)
  }

  function ParsePrimary(ts: seq<Token>): (p: Parsed)
    ensures p.Parsed? ==> |p.rest| < |ts| && IsPrimary(p.tree) && ts == Yield(p.tree) + p.rest
    decreases |ts|, 0
  {
    if ts == [] then NoTree
    else
      match ts[0]
      case Num(d) => (assert ts == [Num(d)] + ts[1..]; Parsed(Number(d), ts[1..]))
      case Op(c) =>
        if c == '(' then
          var inner := ParseExpression(ts[1..]);
          if inner.NoTree? || !OpensWith(inner.rest, ')') then NoTree
          else
            ClosesGroup(ts, inner.tree, inner.rest);
            Parsed(Group(inner.tree), inner.rest[1..])
        else NoTree
      case Id(name) =>
        if IsFunction(name) then
          if !OpensWith(ts[1..], '(') then NoTree
          else
            var args := ParseArgs(ts[2..]);
            if args.NoArgs? || !OpensWith(args.rest, ')') then NoTree
            else
              ClosesCall(ts, name, args.trees, args.rest);
              Parsed(Call(name, args.trees), args.rest[1..])
        else (assert ts == [Id(name)] + ts[1..]; Parsed(Name(name), ts[1..]))
  }

  /** The arguments after a function's "(", none if ")" follows at once. */
  function ParseArgs(ts: seq<Token>): (p: ParsedArgs)
    ensures p.ParsedArgs? ==> |p.rest| <= |ts| && ts == YieldArgs(p.trees) + p.rest
    ensures p.ParsedArgs? ==> forall i :: 0 <= i < |p.trees| ==> IsExpression(p.trees[i])
    decreases |ts|, 7
  {
    if OpensWith(ts, ')') then ParsedArgs([], ts) else ParseSomeArgs(ts)
  }

  function ParseSomeArgs(ts: seq<Token>): (p: ParsedArgs)
    ensures p.ParsedArgs? ==> p.trees != [] && |p.rest| < |ts| && ts == YieldArgs(p.trees) + p.rest
    ensures p.ParsedArgs? ==> forall i :: 0 <= i < |p.trees| ==> IsExpression(p.trees[i])
    decreases |ts|, 6
  {
    var first := ParseExpression(ts);
    if first.NoTree? then NoArgs
    else if OpensWith(first.rest, ',') then
      var others := ParseSomeArgs(first.rest[1..]);
      if others.NoArgs? then NoArgs
      else
        var trees := [first.tree] + others.trees;
        assert trees[1..] == others.trees;
        assert first.rest == [Op(',')] + first.rest[1..];
        assert ts == YieldArgs(trees) + others.rest;
        ParsedArgs(trees, others.rest)
    else (assert [first.tree][0] == first.tree; ParsedArgs([first.tree], first.rest))
  }

  /** The tree of a whole token list. */
  function TreeOf(ts: seq<Token>): (r: Option<Tree>)
    ensures r.Some? ==> IsExpression(r.value) && Yield(r.value) == ts
  {
    var p := ParseExpression(ts);
    if p.Parsed? && p.rest == [] then (assert Yield(p.tree) + [] == Yield(p.tree); Some(p.tree)) else None
  }

  // ----- every tree of the grammar is found again, so a token list has at most one -----

  /** Where a term stops: nothing that would continue it follows. */
  predicate EndsTerm(ts: seq<Token>) {
    !OpensWith(ts, '*') && !OpensWith(ts, '/') && !OpensPrimary(ts)
  }

  predicate EndsExpression(ts: seq<Token>) {
    EndsTerm(ts) && !OpensWith(ts, '+') && !OpensWith(ts, '-')
  }

  lemma {:induction false} FindsPrimary(t: Tree, rest: seq<Token>)
    requires IsPrimary(t)
    ensures OpensPrimary(Yield(t) + rest)
    ensures ParsePrimary(Yield(t) + rest) == Parsed(t, rest)
    decreases t, 1
  {
    var ts := Yield(t) + rest;
    match t {
      case Number(d) =>
        assert ts[1..] == rest;
      case Name(name) =>
        assert ts[1..] == rest;
      case Group(inner) =>
        assert ts[1..] == Yield(inner) + ([Op(')')] + rest);
        FindsExpression(inner, [Op(')')] + rest);
        assert ([Op(')')] + rest)[1..] == rest;
      case Call(fn, args) =>
        var after := [Op(')')] + rest;
        assert ts[1..] == [Op('(')] + (YieldArgs(args) + after);
        assert ts[2..] == YieldArgs(args) + after;
        FindsArgs(args, after);
        assert after[1..] == rest;
    }
  }

  lemma {:induction false} FindsArgs(args: seq<Tree>, after: seq<Token>)
    requires forall i :: 0 <= i < |args| ==> IsExpression(args[i])
    requires OpensWith(after, ')')
    ensures ParseArgs(YieldArgs(args) + after) == ParsedArgs(args, after)
    decreases args, 4
  {
    if args == [] {
      assert YieldArgs(args) + after == after;
    } else {
      FindsSomeArgs(args, after);
      FirstTokenOfExpression(args[0]);
      assert (YieldArgs(args) + after)[0] == Yield(args[0])[0];
    }
  }

  lemma {:induction false} FindsSomeArgs(args: seq<Tree>, after: seq<Token>)
    requires args != [] && forall i :: 0 <= i < |args| ==> IsExpression(args[i])
    requires OpensWith(after, ')')
    ensures ParseSomeArgs(YieldArgs(args) + after) == ParsedArgs(args, after)
    decreases args, 3
  {
    var first, more := args[0], args[1..];
    assert [first] + more == args;
    if more == [] {
      FindsExpression(first, after);
    } else {
      var others := [Op(',')] + (YieldArgs(more) + after);
      FindsExpression(first, others);
      FindsSomeArgs(more, after);
      assert others[1..] == YieldArgs(more) + after;
      ArgsWritten(first, more, after);
    }
  }

  lemma {:induction false} ArgsWritten(first: Tree, more: seq<Tree>, after: seq<Token>)
    requires more != []
    ensures YieldArgs([first] + more) + after == Yield(first) + ([Op(',')] + (YieldArgs(more) + after))
  {
    assert ([first] + more)[1..] == more;
  }

  /** No expression opens with a closing bracket. */
  lemma {:induction false} FirstTokenOfExpression(t: Tree)
    requires IsExpression(t)
    ensures Yield(t) != [] && Yield(t)[0] != Op(')')
  {
    match t {
      case Sum(_, left, _) => FirstTokenOfExpression(left);
      case Product(_, left, _) => FirstTokenOfExpression(left);
      case Signed(_, _) => assert IsUnary(t);
      case _ =>
    }
  }

  lemma {:induction false} FindsUnary(t: Tree, rest: seq<Token>)
    requires IsUnary(t)
    ensures ParseUnary(Yield(t) + rest) == Parsed(t, rest)
    decreases t, 2
  {
    if t.Signed? {
      assert (Yield(t) + rest)[1..] == Yield(t.operand) + rest;
      FindsUnary(t.operand, rest);
    } else {
      FindsPrimary(t, rest);
    }
  }

  /** Parsing past a term leaves the loop at that term, whatever follows it. */
  lemma {:induction false} FindsTerm(t: Tree, rest: seq<Token>)
    requires IsTerm(t)
    ensures ParseTerm(Yield(t) + rest) == ParseProducts(t, rest)
    decreases t, 3
  {
    if t.Product? {
      var tail := ProductToken(t.kind) + (Yield(t.right) + rest);
      assert Yield(t) + rest == Yield(t.left) + tail;
      FindsTerm(t.left, tail);
      if t.kind == Juxtaposed {
        assert tail == Yield(t.right) + rest;
        FindsPrimary(t.right, rest);
      } else {
        assert tail[1..] == Yield(t.right) + rest;
        FindsUnary(t.right, rest);
      }
    } else {
      FindsUnary(t, rest);
    }
  }

  lemma {:induction false} FindsSums(t: Tree, rest: seq<Token>)
    requires IsExpression(t) && EndsTerm(rest)
    ensures ParseExpression(Yield(t) + rest) == ParseSums(t, rest)
    decreases t, 4
  {
    if t.Sum? {
      var tail := [Op(t.op)] + (Yield(t.right) + rest);
      assert Yield(t) + rest == Yield(t.left) + tail;
      FindsSums(t.left, tail);
      assert tail[1..] == Yield(t.right) + rest;
      FindsTerm(t.right, rest);
    } else {
      FindsTerm(t, rest);
    }
  }

  lemma {:induction false} FindsExpression(t: Tree, rest: seq<Token>)
    requires IsExpression(t) && EndsExpression(rest)
    ensures ParseExpression(Yield(t) + rest) == Parsed(t, rest)
    decreases t, 5
  {
    FindsSums(t, rest);
  }

  /**
   * `TreeOf` decides the grammar: a token list has a tree exactly when
   * `TreeOf` finds one, and then no other tree is written with those tokens.
   */
  lemma {:induction false} UniqueTree(ts: seq<Token>, t: Tree)
    ensures IsExpression(t) && Yield(t) == ts <==> TreeOf(ts) == Some(t)
  {
    if IsExpression(t) && Yield(t) == ts {
      FindsExpression(t, []);
      assert Yield(t) + [] == ts;
    }
  }
}
