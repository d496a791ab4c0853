/**
 * A printed formula stays a formula. Which token lists have a tree is decided
 * from left to right, from the brackets open and whether an operand has just
 * ended; and what a figure reads back as, its sign and its groups, goes wherever
 * a number goes.
 */
module FormulaValidity {
  import opened Wrappers
  import opened Text
  import opened Decimals
  import opened FormulaLexer
  import opened FormulaGrammar
  import opened FormulaEvaluator
  import opened FormulaPrinter
  import opened FormulaRoundTrip

  // ----- deciding from left to right -----

  /** Between two tokens: before an operand, after one, after a function's name, after its "(". */
  datatype Place = Before | Ended | Named | Called

  datatype Spot = Spot(open: Brackets, place: Place) | Nowhere

  /** A token where an operand may begin. */
  function Begun(t: Token, open: Brackets): Spot {
    match t
    case Num(_) => Spot(open, Ended)
    case Id(name) => Spot(open, if IsFunction(name) then Named else Ended)
    case Op(c) =>
      if c == '(' then Spot(open + [false], Before)
      else if c == '+' || c == '-' then Spot(open, Before)
      else Nowhere
  }

  function Closed(open: Brackets): Spot {
    if open == [] then Nowhere else Spot(open[..|open| - 1], Ended)
  }

  function Moved(spot: Spot, t: Token): Spot {
    match spot
    case Nowhere => Nowhere
    case Spot(open, Before) => Begun(t, open)
    case Spot(open, Called) => if t == Op(')') then Closed(open) else Begun(t, open)
    case Spot(open, Named) => if t == Op('(') then Spot(open + [true], Called) else Nowhere
    case Spot(open, Ended) =>
      match t
      case Op(c) =>
        if c == ')' then Closed(open)
        else if c == ',' then if InArgs(open) then Spot(open, Before) else Nowhere
        else if c == '*' || c == '/' || c == '+' || c == '-' then Spot(open, Before)
        else Begun(t, open)
      case _ => Begun(t, open)
  }

  function MovedAll(spot: Spot, ts: seq<Token>): Spot
    decreases |ts|
  {
    if ts == [] then spot else MovedAll(Moved(spot, ts[0]), ts[1..])
  }

  predicate IsFormula(ts: seq<Token>) {
    MovedAll(Spot([], Before), ts) == Spot([], Ended)
  }

  lemma {:induction false} MovedConcat(spot: Spot, a: seq<Token>, b: seq<Token>)
    ensures MovedAll(spot, a + b) == MovedAll(MovedAll(spot, a), b)
    decreases |a|
  {
    if a == [] {
      assert a + b == b;
    } else {
      assert (a + b)[1..] == a[1..] + b;
      MovedConcat(Moved(spot, a[0]), a[1..], b);
    }
  }

  lemma {:induction false} MovedOne(spot: Spot, t: Token)
    ensures MovedAll(spot, [t]) == Moved(spot, t)
  {
  }

  lemma {:induction false} NowhereStays(ts: seq<Token>)
    ensures MovedAll(Nowhere, ts) == Nowhere
  {
    if ts != [] {
      NowhereStays(ts[1..]);
    }
  }

  // ----- every tree is accepted -----

  /** A primary may also stand right after an operand: that is juxtaposition. */
  lemma {:induction false} PrimaryEnds(t: Tree, open: Brackets, place: Place)
    requires IsPrimary(t) && place != Named
    ensures MovedAll(Spot(open, place), Yield(t)) == Spot(open, Ended)
    decreases t, 1
  {
    match t {
      case Number(d) => MovedOne(Spot(open, place), Num(d));
      case Name(name) => MovedOne(Spot(open, place), Id(name));
      case Group(inner) =>
        MovedConcat(Spot(open + [false], Before), Yield(inner), [Op(')')]);
        ExpressionEnds(inner, open + [false], Before);
        Closes(open, false, Ended);
      case Call(fn, args) =>
        var inner := YieldArgs(args);
        assert (Yield(t))[1..] == [Op('(')] + (inner + [Op(')')]);
        assert (Yield(t))[1..][1..] == inner + [Op(')')];
        MovedConcat(Spot(open + [true], Called), inner, [Op(')')]);
        if args == [] {
          Closes(open, true, Called);
        } else {
          ArgsEnd(args, open + [true], Called);
          Closes(open, true, Ended);
        }
    }
  }

  lemma {:induction false} Closes(open: Brackets, kind: bool, place: Place)
    requires place == Ended || place == Called
    ensures MovedAll(Spot(open + [kind], place), [Op(')')]) == Spot(open, Ended)
  {
    assert (open + [kind])[..|open|] == open;
    MovedOne(Spot(open + [kind], place), Op(')'));
  }

  lemma {:induction false} ArgsEnd(args: seq<Tree>, open: Brackets, place: Place)
    requires args != [] && InArgs(open) && (place == Before || place == Called)
    requires forall i :: 0 <= i < |args| ==> IsExpression(args[i])
    ensures MovedAll(Spot(open, place), YieldArgs(args)) == Spot(open, Ended)
    decreases args, 4
  {
    ExpressionEnds(args[0], open, place);
    if |args| > 1 {
      MovedConcat(Spot(open, place), Yield(args[0]), [Op(',')] + YieldArgs(args[1..]));
      MovedConcat(Spot(open, Ended), [Op(',')], YieldArgs(args[1..]));
      MovedOne(Spot(open, Ended), Op(','));
      ArgsEnd(args[1..], open, Before);
    }
  }

  lemma {:induction false} UnaryEnds(t: Tree, open: Brackets, place: Place)
    requires IsUnary(t) && (place == Before || place == Called)
    ensures MovedAll(Spot(open, place), Yield(t)) == Spot(open, Ended)
    decreases t, 2
  {
    if t.Signed? {
      MovedConcat(Spot(open, place), [Op(t.sign)], Yield(t.operand));
      MovedOne(Spot(open, place), Op(t.sign));
      UnaryEnds(t.operand, open, Before);
    } else {
      PrimaryEnds(t, open, place);
    }
  }

  lemma {:induction false} OperatorMoves(open: Brackets, c: char, after: seq<Token>)
    requires c == '+' || c == '-' || c == '*' || c == '/'
    ensures MovedAll(Spot(open, Ended), [Op(c)] + after) == MovedAll(Spot(open, Before), after)
  {
    MovedConcat(Spot(open, Ended), [Op(c)], after);
    MovedOne(Spot(open, Ended), Op(c));
  }

  lemma {:induction false} ExpressionEnds(t: Tree, open: Brackets, place: Place)
    requires IsExpression(t) && (place == Before || place == Called)
    ensures MovedAll(Spot(open, place), Yield(t)) == Spot(open, Ended)
    decreases t, 3
  {
    match t {
      case Sum(op, left, right) =>
        ExpressionEnds(left, open, place);
        MovedConcat(Spot(open, place), Yield(left), [Op(op)] + Yield(right));
        OperatorMoves(open, op, Yield(right));
        ExpressionEnds(right, open, Before);
      case Product(kind, left, right) =>
        ExpressionEnds(left, open, place);
        MovedConcat(Spot(open, place), Yield(left), ProductToken(kind) + Yield(right));
        if kind == Juxtaposed {
          assert ProductToken(kind) + Yield(right) == Yield(right);
          PrimaryEnds(right, open, Ended);
        } else {
          OperatorMoves(open, if kind == Times then '*' else '/', Yield(right));
          UnaryEnds(right, open, Before);
        }
      case _ => UnaryEnds(t, open, place);
    }
  }

  // ----- what is accepted has a tree -----

  /** From this spot the tokens lead to the end of a formula. */
  predicate Leads(spot: Spot, ts: seq<Token>) {
    MovedAll(spot, ts) == Spot([], Ended)
  }

  lemma {:induction false} LeadsOn(spot: Spot, ts: seq<Token>)
    requires Leads(spot, ts) && ts != []
    ensures Leads(Moved(spot, ts[0]), ts[1..]) && Moved(spot, ts[0]) != Nowhere
  {
    NowhereStays(ts[1..]);
  }

  /** Past an expression in brackets, only what closes or separates can follow. */
  lemma {:induction false} LeadsPast(t: Tree, rest: seq<Token>, ts: seq<Token>, open: Brackets, place: Place)
    requires IsExpression(t) && (place == Before || place == Called) && ts == Yield(t) + rest && Leads(Spot(open, place), ts)
    ensures Leads(Spot(open, Ended), rest)
  {
    ExpressionEnds(t, open, place);
    MovedConcat(Spot(open, place), Yield(t), rest);
  }

  lemma {:induction false} EndsInside(rest: seq<Token>, open: Brackets)
    requires Leads(Spot(open, Ended), rest) && EndsExpression(rest)
    ensures if open == [] then rest == [] else rest != [] && (rest[0] == Op(')') || (InArgs(open) && rest[0] == Op(',')))
  {
    if rest != [] {
      LeadsOn(Spot(open, Ended), rest);
    }
  }

  lemma {:induction false} ExpressionFound(ts: seq<Token>, open: Brackets, place: Place)
    requires Leads(Spot(open, place), ts) && (place == Before || (place == Called && !OpensWith(ts, ')')))
    ensures ParseExpression(ts).Parsed?
    ensures Leads(Spot(open, Ended), ParseExpression(ts).rest) && EndsExpression(ParseExpression(ts).rest)
    decreases |ts|, 6
  {
    TermFound(ts, open, place);
    var first := ParseTerm(ts);
    SumsFound(first.tree, first.rest, open);
    var p := ParseExpression(ts);
    LeadsPast(p.tree, p.rest, ts, open, place);
  }

  lemma {:induction false} SumsFound(left: Tree, ts: seq<Token>, open: Brackets)
    requires IsExpression(left) && Leads(Spot(open, Ended), ts) && EndsTerm(ts)
    ensures ParseSums(left, ts).Parsed? && EndsExpression(ParseSums(left, ts).rest)
    decreases |ts|, 5
  {
    if OpensWith(ts, '+') || OpensWith(ts, '-') {
      LeadsOn(Spot(open, Ended), ts);
      TermFound(ts[1..], open, Before);
      var right := ParseTerm(ts[1..]);
      JoinsSum(ts, left, right.tree, right.rest);
      SumsFound(Sum(ts[0].symbol, left, right.tree), right.rest, open);
    }
  }

  lemma {:induction false} TermFound(ts: seq<Token>, open: Brackets, place: Place)
    requires Leads(Spot(open, place), ts) && (place == Before || (place == Called && !OpensWith(ts, ')')))
    ensures ParseTerm(ts).Parsed? && Leads(Spot(open, Ended), ParseTerm(ts).rest) && EndsTerm(ParseTerm(ts).rest)
    decreases |ts|, 4
  {
    UnaryFound(ts, open, place);
    var first := ParseUnary(ts);
    ProductsFound(first.tree, first.rest, open);
  }

  lemma {:induction false} ProductsFound(left: Tree, ts: seq<Token>, open: Brackets)
    requires IsTerm(left) && Leads(Spot(open, Ended), ts)
    ensures var p := ParseProducts(left, ts); p.Parsed? && Leads(Spot(open, Ended), p.rest) && EndsTerm(p.rest)
    decreases |ts|, 3
  {
    if OpensWith(ts, '*') || OpensWith(ts, '/') {
      LeadsOn(Spot(open, Ended), ts);
      UnaryFound(ts[1..], open, Before);
      var right := ParseUnary(ts[1..]);
      JoinsProduct(ts, left, right.tree, right.rest);
      ProductsFound(Product(if ts[0].symbol == '*' then Times else Over, left, right.tree), right.rest, open);
    } else if OpensPrimary(ts) {
      PrimaryFound(ts, open, Ended);
      var right := ParsePrimary(ts);
      JoinsJuxtaposed(ts, left, right.tree, right.rest);
      ProductsFound(Product(Juxtaposed, left, right.tree), right.rest, open);
    }
  }

  lemma {:induction false} UnaryFound(ts: seq<Token>, open: Brackets, place: Place)
    requires Leads(Spot(open, place), ts) && (place == Before || (place == Called && !OpensWith(ts, ')')))
    ensures ParseUnary(ts).Parsed? && Leads(Spot(open, Ended), ParseUnary(ts).rest)
    decreases |ts|, 2
  {
    if OpensWith(ts, '-') || OpensWith(ts, '+') {
      LeadsOn(Spot(open, place), ts);
      UnaryFound(ts[1..], open, Before);
    } else {
      assert ts != [];
      LeadsOn(Spot(open, place), ts);
      PrimaryFound(ts, open, place);
    }
  }

  lemma {:induction false} PrimaryFound(ts: seq<Token>, open: Brackets, place: Place)
    requires Leads(Spot(open, place), ts) && OpensPrimary(ts) && place != Named
    ensures ParsePrimary(ts).Parsed? && Leads(Spot(open, Ended), ParsePrimary(ts).rest)
    decreases |ts|, 1
  {
    LeadsOn(Spot(open, place), ts);
    match ts[0] {
      case Num(_) =>
      case Op(_) =>
        ExpressionFound(ts[1..], open + [false], Before);
        var rest := ParseExpression(ts[1..]).rest;
        EndsInside(rest, open + [false]);
        ClosingLeads(rest, open, false, Ended);
      case Id(name) =>
        if IsFunction(name) {
          CallFound(ts, open, place);
        }
    }
  }

  lemma {:induction false} ClosingLeads(rest: seq<Token>, open: Brackets, kind: bool, place: Place)
    requires (place == Ended || place == Called) && Leads(Spot(open + [kind], place), rest) && OpensWith(rest, ')')
    ensures Leads(Spot(open, Ended), rest[1..])
  {
    assert (open + [kind])[..|open|] == open;
  }

  lemma {:induction false} CallFound(ts: seq<Token>, open: Brackets, place: Place)
    requires ts != [] && ts[0].Id? && IsFunction(ts[0].name) && Leads(Spot(open, Named), ts[1..])
    ensures ParsePrimary(ts).Parsed? && Leads(Spot(open, Ended), ParsePrimary(ts).rest)
    decreases |ts|, 0
  {
    assert ts[1..] != [];
    LeadsOn(Spot(open, Named), ts[1..]);
    assert ts[1..][1..] == ts[2..];
    if OpensWith(ts[2..], ')') {
      ClosingLeads(ts[2..], open, true, Called);
    } else {
      ArgsFound(ts[2..], open + [true], Called);
      ClosingLeads(ParseArgs(ts[2..]).rest, open, true, Ended);
    }
  }

  lemma {:induction false} ArgsFound(ts: seq<Token>, open: Brackets, place: Place)
    requires Leads(Spot(open, place), ts) && (place == Before || (place == Called && !OpensWith(ts, ')'))) && InArgs(open)
    ensures var p := ParseSomeArgs(ts); p.ParsedArgs? && Leads(Spot(open, Ended), p.rest) && OpensWith(p.rest, ')')
    decreases |ts|, 7
  {
    ExpressionFound(ts, open, place);
    var rest := ParseExpression(ts).rest;
    EndsInside(rest, open);
    if OpensWith(rest, ',') {
      LeadsOn(Spot(open, Ended), rest);
      ArgsFound(rest[1..], open, Before);
    }
  }

  /** Deciding from left to right is deciding by the grammar. */
  lemma {:induction false} IsFormulaIff(ts: seq<Token>)
    ensures IsFormula(ts) <==> TreeOf(ts).Some?
  {
    if IsFormula(ts) {
      ExpressionFound(ts, [], Before);
      EndsInside(ParseExpression(ts).rest, []);
    }
    if TreeOf(ts).Some? {
      ExpressionEnds(TreeOf(ts).value, [], Before);
    }
  }

  // ----- printing -----

  /** The groups of a figure among a function's arguments are as many arguments. */
  lemma {:induction false} GroupsEnd(whole: string, fraction: string, open: Brackets, place: Place)
    requires AllDigits(whole) && AllDigits(fraction) && whole != "" && InArgs(open) && place != Named
    ensures MovedAll(Spot(open, place), GroupTokens(whole, fraction)) == Spot(open, Ended)
    decreases |whole|
  {
    if |whole| <= 3 {
      MovedOne(Spot(open, place), Num(GroupNumber(whole, fraction)));
    } else {
      var head, last := whole[..|whole| - 3], Num(GroupNumber(whole[|whole| - 3..], fraction));
      GroupsEnd(head, "", open, place);
      MovedConcat(Spot(open, place), GroupTokens(head, ""), [Op(','), last]);
      assert [Op(','), last] == [Op(',')] + [last];
      MovedConcat(Spot(open, Ended), [Op(',')], [last]);
      MovedOne(Spot(open, Ended), Op(','));
      MovedOne(Spot(open, Before), last);
    }
  }

  lemma {:induction false} MagnitudeEnds(d: Decimal, open: Brackets, place: Place)
    requires Canonical(d) && place != Named
    ensures MovedAll(Spot(open, place), FigureTokens(d.(negative := false), InArgs(open))) == Spot(open, Ended)
  {
    if InArgs(open) {
      GroupsEnd(d.whole, d.fraction, open, place);
      assert FigureTokens(d.(negative := false), InArgs(open)) == GroupTokens(d.whole, d.fraction);
    } else {
      assert FigureTokens(d.(negative := false), InArgs(open)) == [Num(d.(negative := false))];
      MovedOne(Spot(open, place), Num(d.(negative := false)));
    }
  }

  lemma {:induction false} NamedRefuses(ts: seq<Token>, open: Brackets)
    requires ts != [] && ts[0] != Op('(')
    ensures MovedAll(Spot(open, Named), ts) == Nowhere
  {
    NowhereStays(ts[1..]);
  }

  lemma {:induction false} SignAndDigits(d: Decimal, inArgs: bool)
    requires Canonical(d)
    ensures var digits := FigureTokens(d.(negative := false), inArgs);
            && digits != [] && digits[0].Num?
            && FigureTokens(d, inArgs) == if d.negative then [Op('-')] + digits else digits
  {
    FirstGroup(d.whole, d.fraction);
    assert [] + GroupTokens(d.whole, d.fraction) == GroupTokens(d.whole, d.fraction);
  }

  /** A figure's tokens lead where a number would. */
  lemma {:induction false} FigureEnds(d: Decimal, open: Brackets, place: Place)
    requires Canonical(d)
    ensures MovedAll(Spot(open, place), FigureTokens(d, InArgs(open))) == if place == Named then Nowhere else Spot(open, Ended)
  {
    SignAndDigits(d, InArgs(open));
    if place == Named {
      NamedRefuses(FigureTokens(d, InArgs(open)), open);
    } else if d.negative {
      NegativeEnds(d, open, place);
    } else {
      MagnitudeEnds(d, open, place);
    }
  }

  lemma {:induction false} NegativeEnds(d: Decimal, open: Brackets, place: Place)
    requires Canonical(d) && place != Named
    ensures MovedAll(Spot(open, place), [Op('-')] + FigureTokens(d.(negative := false), InArgs(open))) == Spot(open, Ended)
  {
    MovedConcat(Spot(open, place), [Op('-')], FigureTokens(d.(negative := false), InArgs(open)));
    MovedOne(Spot(open, place), Op('-'));
    MagnitudeEnds(d, open, Before);
  }

  lemma {:induction false} FirstGroup(whole: string, fraction: string)
    requires AllDigits(whole) && AllDigits(fraction) && whole != ""
    ensures GroupTokens(whole, fraction) != [] && GroupTokens(whole, fraction)[0].Num?
    decreases |whole|
  {
    if |whole| > 3 {
      FirstGroup(whole[..|whole| - 3], "");
    }
  }

  /** A token and what it is printed as lead to the same spot. */
  lemma {:induction false} PieceMoves(t: Token, values: Values, open: Brackets, place: Place)
    requires ValidValues(values) && IsKnown(t)
    ensures MovedAll(Spot(open, place), PieceTokens(t, values, InArgs(open))) == Moved(Spot(open, place), t)
  {
    var f := Figure(t, values);
    if f.Some? {
      FigureEnds(f.value, open, place);
    } else {
      if t.Id? {
        FunctionsAreNotNames(t.name);
        if IsFunction(t.name) {
          FunctionNames(t.name);
        } else {
          LabelNames(Alias(Lower(t.name)).value);
        }
      }
      MovedOne(Spot(open, place), PieceTokens(t, values, InArgs(open))[0]);
    }
  }

  /** The spot keeps the brackets the tokenizer keeps. */
  lemma {:induction false} SameBrackets(t: Token, open: Brackets, place: Place)
    requires IsKnown(t) && Moved(Spot(open, place), t) != Nowhere
    ensures var next := Moved(Spot(open, place), t);
            next.open == Opened(t, open, place == Named) && (next.place == Named <==> IsFunctionToken(t))
  {
  }

  lemma {:induction false} RereadMoves(ts: seq<Token>, values: Values, open: Brackets, place: Place)
    requires ValidValues(values) && AllKnown(ts)
    ensures Leads(Spot(open, place), Reread(ts, values, open, place == Named)) <==> Leads(Spot(open, place), ts)
  {
    if ts != [] {
      var t, spot := ts[0], Spot(open, place);
      var rest := Reread(ts[1..], values, Opened(t, open, place == Named), IsFunctionToken(t));
      PieceMoves(t, values, open, place);
      MovedConcat(spot, PieceTokens(t, values, InArgs(open)), rest);
      if Moved(spot, t) == Nowhere {
        NowhereStays(rest);
        NowhereStays(ts[1..]);
      } else {
        SameBrackets(t, open, place);
        RereadMoves(ts[1..], values, Moved(spot, t).open, Moved(spot, t).place);
      }
    }
  }

  /** A printed text has a tree exactly when the formula has one. */
  lemma {:induction false} PrintedHasATreeIff(formula: string, values: Values)
    requires NamesKnown(formula) && ValidValues(values)
    ensures RenderFormula(formula, values).Ok? && Tokens(RenderFormula(formula, values).value).Ok?
    ensures TreeOf(Tokens(RenderFormula(formula, values).value).value).Some? <==> TreeOf(Tokens(formula).value).Some?
  {
    var ts := Tokens(formula).value;
    PrintedReadsAs(formula, values);
    RereadMoves(ts, values, [], Before);
    IsFormulaIff(ts);
    IsFormulaIff(Reread(ts, values, [], false));
  }
}
