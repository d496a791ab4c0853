/**
 * A printed formula read again. `PrintedReadsAs` says exactly which tokens the
 * printed text has; from it follow when printing keeps the token list, and that
 * it then keeps the value.
 */
module FormulaRoundTrip {
  import opened Wrappers
  import opened Text
  import opened Decimals
  import opened FormulaLexer
  import opened FormulaGrammar
  import opened FormulaEvaluator
  import opened FormulaNames
  import opened FormulaPrinter

  // ----- what follows a token in the printed text -----

  /** After a figure or a variable's name the text goes on with a space or a tight bracket or comma. */
  lemma {:induction false} TextAfterAtom(ts: seq<Token>, values: Values, prev: Token, base: string)
    requires !prev.Op? && !IsFunctionToken(prev)
    ensures EndsPiece(RenderFrom(ts, values, Some(prev), false, base))
  {
    if ts != [] && ts[0] == Op(',') {
      TextAfterComma(ts[1..], values, base);
    }
  }

  lemma {:induction false} TextAfterComma(ts: seq<Token>, values: Values, base: string)
    ensures var s := RenderFrom(ts, values, Some(Op(',')), false, base); s == "" || !IsDigit(s[0])
  {
  }

  lemma {:induction false} TextAfterFunction(ts: seq<Token>, values: Values, prev: Token, base: string)
    requires IsFunctionToken(prev)
    ensures var s := RenderFrom(ts, values, Some(prev), false, base); s == "" || !IsWord(s[0])
  {
  }

  // ----- reading one printed token -----

  lemma {:induction false} FunctionNames(name: string)
    requires IsFunction(name)
    ensures var l := Lower(name);
            && l != "" && IsNameStart(l[0]) && (forall i :: 0 <= i < |l| ==> IsWord(l[i]))
            && Lower(l) == l
  {
    var l := Lower(name);
    assert l == "max" || l == "min" || l == "round" || l == "floor" || l == "ceil" || l == "abs";
    assert forall i :: 0 <= i < |l| ==> 'a' <= l[i] <= 'z';
    assert Lower(l) == l;
  }

  /** A variable's label, once collapsed, is a word that reads as the same variable. */
  lemma {:induction false} LabelNames(key: Key)
    ensures var l := Label(key, "base");
            && l != "" && IsNameStart(l[0]) && (forall i :: 0 <= i < |l| ==> IsWord(l[i]))
            && !IsFunction(l) && Alias(Lower(l)) == Some(key)
  {
    LabelIsAlias(key);
    FunctionsAreNotNames(Label(key, "base"));
  }

  function LowerLabel(key: Key): string {
    match key
    case Base => "base"
    case N => "n"
    case C => "c"
    case PerStop => "perstop"
    case PerKg => "perkg"
    case RefN => "refn"
    case RefC => "refc"
    case KgStep => "kgstep"
    case Rise => "rise"
  }

  lemma {:induction false} LabelIsAlias(key: Key)
    ensures Lower(Label(key, "base")) == LowerLabel(key)
    ensures Alias(Lower(Label(key, "base"))) == Some(key)
  {
    AliasOfLabel(key);
  }

  lemma {:induction false} AliasOfLabel(key: Key)
    ensures Alias(LowerLabel(key)) == Some(key)
  {
  }

  lemma {:induction false} LexPiece(t: Token, values: Values, after: string, open: Brackets, afterFunction: bool)
    requires ValidValues(values) && IsKnown(t)
    requires if t.Op? then true
             else if IsFunctionToken(t) then after == "" || !IsWord(after[0])
             else EndsPiece(after)
    ensures Lex(TokenText(t, values, "base") + after, open, afterFunction)
         == Append(PieceTokens(t, values, InArgs(open)), Lex(after, Opened(t, open, afterFunction), IsFunctionToken(t)))
  {
    match t {
      case Op(c) =>
        LexOperator(c, after, open, afterFunction);
      case Num(d) =>
        LexFigure(d, after, open, afterFunction);
      case Id(name) =>
        if IsFunction(name) {
          FunctionNames(name);
          LexName(Lower(name), after, open, afterFunction);
        } else if Figure(t, values).Some? {
          LexFigure(Figure(t, values).value, after, open, afterFunction);
        } else {
          LabelNames(Alias(Lower(name)).value);
          LexName(Label(Alias(Lower(name)).value, "base"), after, open, afterFunction);
        }
    }
  }

  lemma {:induction false} LexRendered(ts: seq<Token>, values: Values, prev: Option<Token>, prevUnary: bool,
                                       open: Brackets, afterFunction: bool)
    requires ValidValues(values) && AllKnown(ts)
    ensures Lex(RenderFrom(ts, values, prev, prevUnary, "base"), open, afterFunction)
         == Ok(Reread(ts, values, open, afterFunction))
  {
    if ts != [] {
      var t, unary := ts[0], IsUnarySign(ts[0], prev);
      var after := RenderFrom(ts[1..], values, Some(t), unary, "base");
      if IsFunctionToken(t) {
        TextAfterFunction(ts[1..], values, t, "base");
      } else if !t.Op? {
        TextAfterAtom(ts[1..], values, t, "base");
      }
      var piece := TokenText(t, values, "base") + after;
      LexPiece(t, values, after, open, afterFunction);
      LexSpacing(Spacing(t, prev, prevUnary), piece, open, afterFunction);
      LexRendered(ts[1..], values, Some(t), unary, Opened(t, open, afterFunction), IsFunctionToken(t));
    }
  }

  lemma {:induction false} LexSpacing(spacing: string, piece: string, open: Brackets, afterFunction: bool)
    requires spacing == "" || spacing == " "
    ensures Lex(spacing + piece, open, afterFunction) == Lex(piece, open, afterFunction)
  {
    if spacing == "" {
      assert spacing + piece == piece;
    } else {
      LexSkips(spacing + piece, open, afterFunction);
      assert (spacing + piece)[1..] == piece;
    }
  }

  // ----- "Base price" collapses, and nothing else does -----

  lemma {:induction false} CollapseKeeps(piece: string, after: string)
    requires forall i :: 0 <= i < |piece| ==> LowerChar(piece[i]) != 'b'
    ensures CollapseBasePrice(piece + after) == piece + CollapseBasePrice(after)
  {
    if piece == "" {
      assert piece + after == after;
    } else {
      var s, head, tail := piece + after, [piece[0]], piece[1..];
      calc {
        CollapseBasePrice(s);
        { NoBasePrice(s); }
        [s[0]] + CollapseBasePrice(s[1..]);
        { assert s[1..] == tail + after && s[0] == piece[0]; }
        head + CollapseBasePrice(tail + after);
        { CollapseKeeps(tail, after); }
        head + (tail + CollapseBasePrice(after));
        { assert head + tail == piece; }
        piece + CollapseBasePrice(after);
      }
    }
  }

  lemma {:induction false} NoBasePrice(s: string)
    requires s != "" && (LowerChar(s[0]) != 'b' || |s| == 1 || LowerChar(s[1]) != 'a')
    ensures BasePriceSpan(s) == 0
    ensures CollapseBasePrice(s) == [s[0]] + CollapseBasePrice(s[1..])
  {
    assert |s| >= 4 ==> Lower(s[..4])[0] == LowerChar(s[0]) && Lower(s[..4])[1] == LowerChar(s[1]);
    assert "base"[0] == 'b' && "base"[1] == 'a';
  }

  lemma {:induction false} CollapseAbs(after: string)
    ensures CollapseBasePrice("abs" + after) == "abs" + CollapseBasePrice(after)
  {
    var bs, s := "bs" + after, "s" + after;
    calc {
      CollapseBasePrice("abs" + after);
      { assert "abs" + after == "a" + bs; }
      CollapseBasePrice("a" + bs);
      { CollapseKeeps("a", bs); }
      "a" + CollapseBasePrice(bs);
      { NoBasePrice(bs); assert bs[1..] == s; }
      "a" + ("b" + CollapseBasePrice(s));
      { CollapseKeeps("s", after); }
      "a" + ("b" + ("s" + CollapseBasePrice(after)));
      { assert "a" + ("b" + ("s" + CollapseBasePrice(after))) == "abs" + CollapseBasePrice(after); }
      "abs" + CollapseBasePrice(after);
    }
  }

  lemma {:induction false} CollapseLabel(after: string)
    ensures CollapseBasePrice(BASE_LABEL + after) == "base" + CollapseBasePrice(after)
  {
    var s := BASE_LABEL + after;
    assert Lower(s[..4]) == "base";
    var t := s[4..];
    assert t[0] == ' ' && !IsSpace(t[1]);
    assert SpaceSpan(t) == 1;
    assert Lower(s[5..][..5]) == "price";
    assert s[10..] == after;
  }

  lemma {:induction false} FigureHasNoLetter(whole: string)
    requires AllDigits(whole)
    ensures forall i :: 0 <= i < |Grouped(whole)| ==> IsDigit(Grouped(whole)[i]) || Grouped(whole)[i] == ','
    decreases |whole|
  {
    if |whole| > 3 {
      FigureHasNoLetter(whole[..|whole| - 3]);
    }
  }

  lemma {:induction false} CollapseFigure(d: Decimal, after: string)
    requires Canonical(d)
    ensures CollapseBasePrice(FormatValue(d) + after) == FormatValue(d) + CollapseBasePrice(after)
  {
    FigureHasNoLetter(d.whole);
    assert forall i :: 0 <= i < |FormatValue(d)| ==> !IsNameStart(FormatValue(d)[i]);
    CollapseKeeps(FormatValue(d), after);
  }

  predicate HasNoB(s: string) {
    forall i :: 0 <= i < |s| ==> LowerChar(s[i]) != 'b'
  }

  lemma {:induction false} FunctionHasNoB(name: string)
    requires IsFunction(name) && Lower(name) != "abs"
    ensures HasNoB(Lower(name))
  {
  }

  lemma {:induction false} LabelHasNoB(key: Key)
    requires key != Base
    ensures HasNoB(Label(key, BASE_LABEL)) && Label(key, BASE_LABEL) == Label(key, "base")
  {
  }

  lemma {:induction false} CollapsePiece(t: Token, values: Values, after: string)
    requires ValidValues(values) && IsKnown(t)
    ensures CollapseBasePrice(TokenText(t, values, BASE_LABEL) + after)
         == TokenText(t, values, "base") + CollapseBasePrice(after)
  {
    if Figure(t, values).Some? {
      CollapseFigure(Figure(t, values).value, after);
    } else if t.Op? {
      CollapseKeeps(OperatorText(t.symbol), after);
    } else if IsFunction(t.name) {
      CollapseFunction(t.name, after);
    } else {
      CollapseName(Alias(Lower(t.name)).value, after);
    }
  }

  lemma {:induction false} CollapseFunction(name: string, after: string)
    requires IsFunction(name)
    ensures CollapseBasePrice(Lower(name) + after) == Lower(name) + CollapseBasePrice(after)
  {
    if Lower(name) == "abs" {
      CollapseAbs(after);
    } else {
      FunctionHasNoB(name);
      CollapseKeeps(Lower(name), after);
    }
  }

  lemma {:induction false} CollapseName(key: Key, after: string)
    ensures CollapseBasePrice(Label(key, BASE_LABEL) + after) == Label(key, "base") + CollapseBasePrice(after)
  {
    if key == Base {
      CollapseLabel(after);
    } else {
      LabelHasNoB(key);
      CollapseKeeps(Label(key, BASE_LABEL), after);
    }
  }

  lemma {:induction false} CollapseRendered(ts: seq<Token>, values: Values, prev: Option<Token>, prevUnary: bool)
    requires ValidValues(values) && AllKnown(ts)
    ensures CollapseBasePrice(RenderFrom(ts, values, prev, prevUnary, BASE_LABEL))
         == RenderFrom(ts, values, prev, prevUnary, "base")
  {
    if ts != [] {
      var t, unary := ts[0], IsUnarySign(ts[0], prev);
      var after := RenderFrom(ts[1..], values, Some(t), unary, BASE_LABEL);
      CollapseKeeps(Spacing(t, prev, prevUnary), TokenText(t, values, BASE_LABEL) + after);
      CollapsePiece(t, values, after);
      CollapseRendered(ts[1..], values, Some(t), unary);
    }
  }

  // ----- the theorems -----

  /** A formula whose tokens are all known: numbers, operators, functions and the scope's names. */
  ghost predicate NamesKnown(formula: string) {
    Tokens(formula).Ok? && AllKnown(Tokens(formula).value)
  }

  /** The printed text always tokenizes, and these are its tokens. */
  lemma {:induction false} PrintedReadsAs(formula: string, values: Values)
    requires NamesKnown(formula) && ValidValues(values)
    ensures RenderFormula(formula, values).Ok?
    ensures Tokens(RenderFormula(formula, values).value)
         == Ok(Reread(Tokens(formula).value, values, [], false))
  {
    var ts := Tokens(formula).value;
    CollapseRendered(ts, values, None, false);
    LexRendered(ts, values, None, false, [], false);
  }

  /** A token with its name replaced by its figure, or by the name the printer gives it. */
  function Substituted(t: Token, values: Values): Token {
    match Figure(t, values)
    case Some(d) => Num(d)
    case None =>
      match t
      case Id(name) =>
        if IsFunction(name) then Id(Lower(name))
        else
          (match Alias(Lower(name))
           case Some(k) => Id(Label(k, "base"))
           case None => t)
      case _ => t
  }

  function SubstitutedAll(ts: seq<Token>, values: Values): (r: seq<Token>)
    ensures |r| == |ts| && forall i :: 0 <= i < |ts| ==> r[i] == Substituted(ts[i], values)
  {
    seq(|ts|, i requires 0 <= i < |ts| => Substituted(ts[i], values))
  }

  /**
   * Every printed figure is unsigned, and one directly inside a function's
   * arguments is below 1,000, so it prints no grouping comma there.
   */
  predicate FiguresPrintWhole(ts: seq<Token>, values: Values, open: Brackets, afterFunction: bool) {
    ts != [] ==>
      && (var f := Figure(ts[0], values);
          f.Some? ==> !f.value.negative && (InArgs(open) ==> |f.value.whole| <= 3))
      && FiguresPrintWhole(ts[1..], values, Opened(ts[0], open, afterFunction), IsFunctionToken(ts[0]))
  }

  lemma {:induction false} FigureIsOneToken(d: Decimal, inArgs: bool)
    requires Canonical(d)
    ensures |FigureTokens(d, inArgs)| >= 1
    ensures |FigureTokens(d, inArgs)| == 1 <==> !d.negative && (inArgs ==> |d.whole| <= 3)
    ensures |FigureTokens(d, inArgs)| == 1 ==> FigureTokens(d, inArgs) == [Num(d)]
  {
    GroupCount(d.whole, d.fraction);
    if |d.whole| <= 3 {
      SplitAtPoint(d.whole, d.fraction);
      assert GroupNumber(d.whole, d.fraction) == d.(negative := false);
    }
  }

  lemma {:induction false} GroupCount(whole: string, fraction: string)
    requires AllDigits(whole) && AllDigits(fraction) && whole != ""
    ensures |GroupTokens(whole, fraction)| >= 1
    ensures |GroupTokens(whole, fraction)| == 1 <==> |whole| <= 3
    decreases |whole|
  {
    if |whole| > 3 {
      GroupCount(whole[..|whole| - 3], "");
    }
  }

  lemma {:induction false} PieceKeeps(t: Token, values: Values, inArgs: bool)
    requires ValidValues(values) && IsKnown(t)
    ensures var f, piece := Figure(t, values), PieceTokens(t, values, inArgs);
            if f.Some? ==> !f.value.negative && (inArgs ==> |f.value.whole| <= 3) then piece == [Substituted(t, values)]
            else |piece| > 1
  {
    var f := Figure(t, values);
    if f.Some? {
      FigureIsOneToken(f.value, inArgs);
    }
  }

  lemma {:induction false} RereadKeeps(ts: seq<Token>, values: Values, open: Brackets, afterFunction: bool)
    requires ValidValues(values) && AllKnown(ts)
    ensures |Reread(ts, values, open, afterFunction)| >= |ts|
    ensures FiguresPrintWhole(ts, values, open, afterFunction)
            ==> Reread(ts, values, open, afterFunction) == SubstitutedAll(ts, values)
    ensures !FiguresPrintWhole(ts, values, open, afterFunction)
            ==> |Reread(ts, values, open, afterFunction)| > |ts|
  {
    if ts != [] {
      PieceKeeps(ts[0], values, InArgs(open));
      RereadKeeps(ts[1..], values, Opened(ts[0], open, afterFunction), IsFunctionToken(ts[0]));
      assert SubstitutedAll(ts, values) == [Substituted(ts[0], values)] + SubstitutedAll(ts[1..], values);
    }
  }

  /**
   * Printing keeps the token list, names replaced, exactly when no figure it
   * prints is negative and none of 1,000 or more sits directly in a function's
   * arguments.
   */
  lemma {:induction false} PrintingKeepsTokens(formula: string, values: Values)
    requires NamesKnown(formula) && ValidValues(values)
    ensures RenderFormula(formula, values).Ok?
    ensures Tokens(RenderFormula(formula, values).value) == Ok(SubstitutedAll(Tokens(formula).value, values))
       <==> FiguresPrintWhole(Tokens(formula).value, values, [], false)
  {
    PrintedReadsAs(formula, values);
    RereadKeeps(Tokens(formula).value, values, [], false);
  }

  ghost predicate AgreesWith(scope: Scope, values: Values) {
    forall k :: k in values ==> scope(k) == values[k]
  }

  lemma {:induction false} SubstitutedMeansTheSame(t: Token, values: Values, scope: Scope)
    requires AgreesWith(scope, values)
    ensures SameToken(t, scope, Substituted(t, values), scope)
  {
    if t.Id? {
      FunctionsAreNotNames(t.name);
      if IsFunction(t.name) {
        FunctionNames(t.name);
      } else if Alias(Lower(t.name)).Some? {
        LabelNames(Alias(Lower(t.name)).value);
      }
    }
  }

  lemma {:induction false} SubstitutedRunsTheSame(ts: seq<Token>, values: Values, scope: Scope)
    requires AgreesWith(scope, values)
    ensures Run(SubstitutedAll(ts, values), scope) == Run(ts, scope)
  {
    forall i | 0 <= i < |ts|
      ensures SameToken(ts[i], scope, SubstitutedAll(ts, values)[i], scope)
    {
      SubstitutedMeansTheSame(ts[i], values, scope);
    }
    SameRun(ts, scope, SubstitutedAll(ts, values), scope);
  }

  /** A tree with a value has no unknown name. */
  lemma {:induction false} ValueKnowsNames(t: Tree, scope: Scope)
    requires Denote(t, scope).Ok?
    ensures forall i :: 0 <= i < |Yield(t)| && Yield(t)[i].Id? ==> IsKnown(Yield(t)[i])
    decreases t, 0
  {
    match t {
      case Number(_) =>
      case Name(_) =>
      case Group(inner) => ValueKnowsNames(inner, scope);
      case Signed(_, operand) => ValueKnowsNames(operand, scope);
      case Call(_, args) => ArgsKnowNames(args, scope);
      case Product(_, left, right) =>
        ValueKnowsNames(left, scope);
        ValueKnowsNames(right, scope);
      case Sum(_, left, right) =>
        ValueKnowsNames(left, scope);
        ValueKnowsNames(right, scope);
    }
  }

  lemma {:induction false} ArgsKnowNames(args: seq<Tree>, scope: Scope)
    requires DenoteArgs(args, scope).Ok?
    ensures forall i :: 0 <= i < |YieldArgs(args)| && YieldArgs(args)[i].Id? ==> IsKnown(YieldArgs(args)[i])
    decreases args, 1
  {
    if args != [] {
      ValueKnowsNames(args[0], scope);
      ArgsKnowNames(args[1..], scope);
      var first, rest := Yield(args[0]), YieldArgs(args[1..]);
      forall i | 0 <= i < |YieldArgs(args)| && YieldArgs(args)[i].Id? ensures IsKnown(YieldArgs(args)[i]) {
        if |args| > 1 && i > |first| {
          assert YieldArgs(args)[i] == rest[i - |first| - 1];
        }
      }
    }
  }

  lemma {:induction false} RunningKnowsNames(ts: seq<Token>, scope: Scope)
    requires Run(ts, scope).Ok? && KnownButForNames(ts)
    ensures AllKnown(ts)
  {
    RunIsMeaning(ts, scope);
    var t :| IsExpression(t) && Yield(t) == ts;
    ValueKnowsNames(t, scope);
  }

  lemma {:induction false} EvaluatingKnowsNames(formula: string, scope: Scope)
    requires EvaluateFormula(formula, scope).Ok?
    ensures NamesKnown(formula)
  {
    LexMakesKnown(CollapseBasePrice(formula), [], false);
    assert KnownButForNames(Tokens(formula).value);
    RunningKnowsNames(Tokens(formula).value, scope);
  }

  /**
   * Printing preserves meaning: a formula with a value, printed with any of
   * its figures in, has the same value. The printed text can only be refused
   * for having grown past the length cap.
   */
  lemma {:induction false} PrintingKeepsTheValue(formula: string, values: Values, scope: Scope)
    requires EvaluateFormula(formula, scope).Ok?
    requires ValidValues(values) && AgreesWith(scope, values)
    requires FiguresPrintWhole(Tokens(formula).value, values, [], false)
    ensures RenderFormula(formula, values).Ok?
    ensures var printed := RenderFormula(formula, values).value;
            EvaluateFormula(printed, scope)
            == if |printed| <= MAX_FORMULA_LENGTH then EvaluateFormula(formula, scope) else Err(TooLong)
  {
    EvaluatingKnowsNames(formula, scope);
    PrintingKeepsTokens(formula, values);
    SubstitutedRunsTheSame(Tokens(formula).value, values, scope);
  }

  // ----- a formula the printer changes -----

  function Whole(digits: string): Decimal {
    Decimal(false, digits, "")
  }

  /** A call of max on one whole number. */
  function CallText(digits: string): string {
    "max" + (['('] + (digits + [')']))
  }

  function CallTokens(digits: string): seq<Token> {
    [Id("max"), Op('('), Num(Whole(digits)), Op(')')]
  }

  lemma {:induction false} CallReads(digits: string)
    requires Canonical(Whole(digits))
    ensures Tokens(CallText(digits)) == Ok(CallTokens(digits))
  {
    var text := CallText(digits);
    assert forall i :: 0 <= i < |digits| ==> IsDigit(digits[i]);
    CollapseKeeps(text, "");
    assert text + "" == text && CollapseBasePrice("") == "";
    assert Lower("max") == "max";
    CallLexes("max", digits);
  }

  lemma {:induction false} CallLexes(name: string, digits: string)
    requires IsFunction(name) && Lower(name) == name && Canonical(Whole(digits))
    ensures Lex(name + (['('] + (digits + [')'])), [], false)
         == Ok([Id(name), Op('('), Num(Whole(digits)), Op(')')])
  {
    FunctionNames(name);
    LexName(name, ['('] + (digits + [')']), [], false);
    LexSign('(', digits + [')'], [], true);
    ArgLexes(digits, [] + [true]);
    FourTokens(Id(name), Op('('), Num(Whole(digits)), Op(')'));
  }

  lemma {:induction false} FourTokens(a: Token, b: Token, c: Token, d: Token)
    ensures Prepend(a, Prepend(b, Ok([c, d]))) == Ok([a, b, c, d])
  {
    assert [b] + [c, d] == [b, c, d] && [a] + [b, c, d] == [a, b, c, d];
  }

  lemma {:induction false} ArgLexes(digits: string, open: Brackets)
    requires Canonical(Whole(digits)) && InArgs(open)
    ensures Lex(digits + [')'], open, false) == Ok([Num(Whole(digits)), Op(')')])
  {
    SplitAtPoint(digits, "");
    LexGroup(digits, "", [')'], open, false);
    assert [')'] + "" == [')'];
    LexSign(')', "", open, false);
    assert [Op(')')] + [] == [Op(')')];
    assert [Num(Whole(digits))] + [Op(')')] == [Num(Whole(digits)), Op(')')];
  }

  lemma {:induction false} CallPrints(digits: string)
    ensures RenderFrom(CallTokens(digits), map[], None, false, BASE_LABEL) == CallText(Grouped(digits))
  {
    var ts := CallTokens(digits);
    assert Lower("max") == "max";
    assert ts[1..][1..] == ts[2..] && ts[2..][1..] == ts[3..] && ts[3..][1..] == [];
    assert RenderFrom(ts[3..], map[], Some(ts[2]), false, BASE_LABEL) == ")";
    assert RenderFrom(ts[2..], map[], Some(ts[1]), false, BASE_LABEL) == Grouped(digits) + [')'];
    assert RenderFrom(ts[1..], map[], Some(ts[0]), false, BASE_LABEL) == ['('] + (Grouped(digits) + [')']);
  }

  lemma {:induction false} CallRereads(digits: string)
    requires Canonical(Whole(digits))
    ensures AllKnown(CallTokens(digits))
    ensures Reread(CallTokens(digits), map[], [], false)
         == [Id("max"), Op('(')] + (GroupTokens(digits, "") + [Op(')')])
  {
    assert Lower("max") == "max";
    ArgRereads(digits, [] + [true]);
    HeadRereads("max", [Num(Whole(digits))] + [Op(')')]);
    assert CallTokens(digits) == [Id("max"), Op('(')] + ([Num(Whole(digits))] + [Op(')')]);
  }

  lemma {:induction false} ArgRereads(digits: string, open: Brackets)
    requires Canonical(Whole(digits)) && InArgs(open)
    ensures AllKnown([Num(Whole(digits))] + [Op(')')])
    ensures Reread([Num(Whole(digits))] + [Op(')')], map[], open, false) == GroupTokens(digits, "") + [Op(')')]
  {
    RereadOne(Op(')'), [], open, false);
    assert [Op(')')] + [] == [Op(')')];
    RereadOne(Num(Whole(digits)), [Op(')')], open, false);
  }

  lemma {:induction false} HeadRereads(name: string, rest: seq<Token>)
    requires IsFunction(name) && Lower(name) == name && AllKnown(rest)
    ensures AllKnown([Id(name), Op('(')] + rest)
    ensures Reread([Id(name), Op('(')] + rest, map[], [], false)
         == [Id(name), Op('(')] + Reread(rest, map[], [] + [true], false)
  {
    RereadOne(Op('('), rest, [], true);
    RereadOne(Id(name), [Op('(')] + rest, [], false);
    CallOpens(name, rest);
    CallOpens(name, Reread(rest, map[], [] + [true], false));
  }

  lemma {:induction false} CallOpens(name: string, inside: seq<Token>)
    ensures [Id(name)] + ([Op('(')] + inside) == [Id(name), Op('(')] + inside
  {
    assert [Id(name)] + [Op('(')] == [Id(name), Op('(')];
  }

  lemma {:induction false} RereadOne(t: Token, ts: seq<Token>, open: Brackets, afterFunction: bool)
    requires IsKnown(t) && AllKnown(ts)
    ensures AllKnown([t] + ts)
    ensures Reread([t] + ts, map[], open, afterFunction)
         == PieceTokens(t, map[], InArgs(open)) + Reread(ts, map[], Opened(t, open, afterFunction), IsFunctionToken(t))
  {
    assert ([t] + ts)[1..] == ts;
  }

  /** The value of max on the whole numbers a call is written with. */
  lemma {:induction false} CallValue(args: seq<Tree>, xs: seq<real>, scope: Scope)
    requires forall i :: 0 <= i < |args| ==> args[i].Number?
    requires DenoteArgs(args, scope) == Ok(xs) && xs != []
    ensures Run([Id("max"), Op('(')] + (YieldArgs(args) + [Op(')')]), scope) == Ok(LargestOf(xs))
  {
    assert Lower("max") == "max";
    CallMeans("max", args, xs, scope);
  }

  lemma {:induction false} CallMeans(name: string, args: seq<Tree>, xs: seq<real>, scope: Scope)
    requires FunctionNamed(Lower(name)) == Some(Max)
    requires forall i :: 0 <= i < |args| ==> args[i].Number?
    requires DenoteArgs(args, scope) == Ok(xs) && xs != []
    ensures Run([Id(name), Op('(')] + (YieldArgs(args) + [Op(')')]), scope) == Ok(LargestOf(xs))
  {
    var t := Call(name, args);
    forall i | 0 <= i < |args|
      ensures IsExpression(args[i])
    {
      PrimaryIsTerm(args[i]);
    }
    PrimaryIsTerm(t);
    CallDenotes(name, args, xs, scope);
    RunOfTree(t, scope);
  }

  lemma {:induction false} CallDenotes(name: string, args: seq<Tree>, xs: seq<real>, scope: Scope)
    requires FunctionNamed(Lower(name)) == Some(Max)
    requires DenoteArgs(args, scope) == Ok(xs) && xs != []
    ensures Denote(Call(name, args), scope) == Ok(LargestOf(xs))
  {
  }

  lemma {:induction false} RunOfTree(t: Tree, scope: Scope)
    requires IsExpression(t)
    ensures Run(Yield(t), scope) == Denote(t, scope)
  {
    RunIsMeaning(Yield(t), scope);
  }

  lemma {:induction false} OneArg(x: Decimal, scope: Scope)
    ensures YieldArgs([Number(x)]) == [Num(x)]
    ensures DenoteArgs([Number(x)], scope) == Ok([ValueOf(x)])
  {
    assert [Number(x)][1..] == [] && [ValueOf(x)] + [] == [ValueOf(x)];
    assert DenoteArgs([], scope) == Ok([]);
  }

  lemma {:induction false} TwoArgs(x: Decimal, y: Decimal, scope: Scope)
    ensures YieldArgs([Number(x), Number(y)]) == [Num(x), Op(','), Num(y)]
    ensures DenoteArgs([Number(x), Number(y)], scope) == Ok([ValueOf(x), ValueOf(y)])
  {
    assert [Number(x), Number(y)][1..] == [Number(y)];
    OneArg(y, scope);
    assert [ValueOf(x)] + [ValueOf(y)] == [ValueOf(x), ValueOf(y)];
  }

  lemma {:induction false} ThousandCounts(digits: string)
    requires digits == "1000"
    ensures DigitsValue(digits) == 1000 && DigitsValue("1") == 1 && DigitsValue("0") == 0 && DigitsValue("") == 0
  {
    assert digits[..3] == "100" && "100"[..2] == "10" && "10"[..1] == "1" && "1"[..0] == "" && "0"[..0] == "";
    assert DigitsValue("1") == 1 && DigitsValue("10") == 10 && DigitsValue("100") == 100;
  }

  lemma {:induction false} Thousand(digits: string)
    requires digits == "1000"
    ensures Canonical(Whole(digits)) && ValueOf(Whole(digits)) == 1000.0
    ensures Grouped(digits) == "1,000"
    ensures ValueOf(Whole("1")) == 1.0 && ValueOf(Whole("0")) == 0.0
    ensures GroupTokens(digits, "") == [Num(Whole("1")), Op(','), Num(Whole("0"))]
  {
    assert digits[..1] == "1" && digits[1..] == "000";
    SplitAtPoint("1", "");
    SplitAtPoint("000", "");
    ThousandCounts(digits);
    assert "000"[1..] == "00" && "00"[1..] == "0" && DropLeadingZeros("000") == "0";
  }

  /**
   * The condition is needed: `max(1000)` is 1,000, but it prints as
   * `max(1,000)`, which is the larger of 1 and 0.
   */
  lemma {:induction false} GroupingCommaChangesTheValue(digits: string, scope: Scope)
    requires digits == "1000"
    ensures EvaluateFormula(CallText(digits), scope) == Ok(1000.0)
    ensures RenderFormula(CallText(digits), map[]) == Ok(CallText("1,000"))
    ensures EvaluateFormula(CallText("1,000"), scope) == Ok(1.0)
  {
    var d, one, zero := Whole(digits), Whole("1"), Whole("0");
    Thousand(digits);
    CallReads(digits);
    OneArg(d, scope);
    CallValue([Number(d)], [1000.0], scope);
    assert CallTokens(digits) == [Id("max"), Op('(')] + ([Num(d)] + [Op(')')]);

    CallPrints(digits);
    CallRereads(digits);
    PrintedReadsAs(CallText(digits), map[]);
    TwoArgs(one, zero, scope);
    assert [1.0, 0.0][1..] == [0.0];
    assert LargestOf([1.0, 0.0]) == 1.0;
    CallValue([Number(one), Number(zero)], [1.0, 0.0], scope);
  }
}
