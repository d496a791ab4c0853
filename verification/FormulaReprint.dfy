/**
 * A printed formula printed again. The second text is the first exactly when
 * printing keeps the tokens: a negative figure comes back as an operator and
 * its hyphen as a minus, and a grouped figure in a function's arguments comes
 * back as several, with a space after every comma.
 */
module FormulaReprint {
  import opened Wrappers
  import opened Text
  import opened Decimals
  import opened FormulaLexer
  import opened FormulaGrammar
  import opened FormulaEvaluator
  import opened FormulaPrinter
  import opened FormulaRoundTrip

  // ----- names and figures substituted -----

  lemma {:induction false} SubstitutedPrintsTheSame(t: Token, values: Values, base: string)
    requires IsKnown(t)
    ensures var t' := Substituted(t, values);
            && TokenText(t', values, base) == TokenText(t, values, base)
            && (t'.Op? <==> t.Op?) && (t.Op? ==> t' == t)
            && IsFunctionToken(t') == IsFunctionToken(t)
  {
    if t.Id? {
      FunctionsAreNotNames(t.name);
      if IsFunction(t.name) {
        FunctionNames(t.name);
      } else {
        LabelNames(Alias(Lower(t.name)).value);
      }
    }
  }

  lemma {:induction false} PrintsTheSame(ts: seq<Token>, values: Values, prev: Option<Token>, prevUnary: bool, base: string)
    requires AllKnown(ts) && (prev.Some? ==> IsKnown(prev.value))
    ensures var prev' := if prev.Some? then Some(Substituted(prev.value, values)) else None;
            RenderFrom(SubstitutedAll(ts, values), values, prev', prevUnary, base)
            == RenderFrom(ts, values, prev, prevUnary, base)
  {
    if ts != [] {
      SubstitutedPrintsTheSame(ts[0], values, base);
      if prev.Some? {
        SubstitutedPrintsTheSame(prev.value, values, base);
      }
      assert SubstitutedAll(ts, values)[1..] == SubstitutedAll(ts[1..], values);
      PrintsTheSame(ts[1..], values, Some(ts[0]), IsUnarySign(ts[0], prev), base);
    }
  }

  // ----- counting a character -----

  function Count(c: char, s: string): nat {
    if s == "" then 0 else (if s[0] == c then 1 else 0) + Count(c, s[1..])
  }

  lemma {:induction false} CountConcat(c: char, a: string, b: string)
    ensures Count(c, a + b) == Count(c, a) + Count(c, b)
  {
    if a == "" {
      assert a + b == b;
    } else {
      assert (a + b)[1..] == a[1..] + b;
      CountConcat(c, a[1..], b);
    }
  }

  lemma {:induction false} CountNone(c: char, s: string)
    requires forall i :: 0 <= i < |s| ==> s[i] != c
    ensures Count(c, s) == 0
  {
    if s != "" {
      CountNone(c, s[1..]);
    }
  }

  lemma {:induction false} CountRendered(c: char, ts: seq<Token>, values: Values, prev: Option<Token>, prevUnary: bool)
    requires ts != []
    ensures var t := ts[0];
            Count(c, RenderFrom(ts, values, prev, prevUnary, BASE_LABEL))
            == Count(c, Spacing(t, prev, prevUnary)) + Count(c, TokenText(t, values, BASE_LABEL))
               + Count(c, RenderFrom(ts[1..], values, Some(t), IsUnarySign(t, prev), BASE_LABEL))
  {
    var t := ts[0];
    var after := RenderFrom(ts[1..], values, Some(t), IsUnarySign(t, prev), BASE_LABEL);
    CountConcat(c, Spacing(t, prev, prevUnary), TokenText(t, values, BASE_LABEL) + after);
    CountConcat(c, TokenText(t, values, BASE_LABEL), after);
  }

  // ----- hyphens: only a negative figure prints one -----

  predicate NegativeFigure(t: Token, values: Values) {
    Figure(t, values).Some? && Figure(t, values).value.negative
  }

  ghost predicate AllUnsigned(ts: seq<Token>, values: Values) {
    forall i :: 0 <= i < |ts| ==> !NegativeFigure(ts[i], values)
  }

  /** A figure is printed with no space, and with a hyphen only if it is negative. */
  lemma {:induction false} FigureCounts(d: Decimal)
    requires Canonical(d)
    ensures Count(' ', FormatValue(d)) == 0
    ensures Count('-', FormatValue(d)) > 0 <==> d.negative
  {
    var unsigned := d.(negative := false);
    FigureHasNoLetter(d.whole);
    assert forall i :: 0 <= i < |FormatValue(unsigned)| ==> FormatValue(unsigned)[i] != ' ' && FormatValue(unsigned)[i] != '-';
    CountNone(' ', FormatValue(unsigned));
    CountNone('-', FormatValue(unsigned));
    if d.negative {
      assert FormatValue(d) == "-" + FormatValue(unsigned);
      assert FormatValue(d)[1..] == FormatValue(unsigned);
    }
  }

  lemma {:induction false} LabelHasNoHyphen(key: Key)
    ensures Count('-', Label(key, BASE_LABEL)) == 0
  {
    LabelNames(key);
    CountNone('-', Label(key, "base"));
    CountNone('-', BASE_LABEL);
  }

  lemma {:induction false} TokenHyphens(t: Token, values: Values)
    requires ValidValues(values) && IsKnown(t)
    ensures Count('-', TokenText(t, values, BASE_LABEL)) > 0 <==> NegativeFigure(t, values)
  {
    var f := Figure(t, values);
    if f.Some? {
      FigureCounts(f.value);
    } else if t.Op? {
      CountNone('-', OperatorText(t.symbol));
    } else if IsFunction(t.name) {
      FunctionNames(t.name);
      CountNone('-', Lower(t.name));
    } else {
      LabelHasNoHyphen(Alias(Lower(t.name)).value);
    }
  }

  lemma {:induction false} UnsignedIff(ts: seq<Token>, values: Values)
    requires ts != []
    ensures AllUnsigned(ts, values) <==> !NegativeFigure(ts[0], values) && AllUnsigned(ts[1..], values)
  {
    assert forall i :: 1 <= i < |ts| ==> ts[i] == ts[1..][i - 1];
  }

  lemma {:induction false} HyphensIff(ts: seq<Token>, values: Values, prev: Option<Token>, prevUnary: bool)
    requires ValidValues(values) && AllKnown(ts)
    ensures Count('-', RenderFrom(ts, values, prev, prevUnary, BASE_LABEL)) == 0 <==> AllUnsigned(ts, values)
  {
    if ts != [] {
      CountRendered('-', ts, values, prev, prevUnary);
      CountNone('-', Spacing(ts[0], prev, prevUnary));
      TokenHyphens(ts[0], values);
      HyphensIff(ts[1..], values, Some(ts[0]), IsUnarySign(ts[0], prev));
      UnsignedIff(ts, values);
    }
  }

  // ----- what is read back is known and unsigned -----

  lemma {:induction false} GroupsArePlain(whole: string, fraction: string, values: Values)
    requires AllDigits(whole) && AllDigits(fraction) && whole != ""
    requires fraction != "" ==> fraction[|fraction| - 1] != '0'
    ensures AllKnown(GroupTokens(whole, fraction)) && AllUnsigned(GroupTokens(whole, fraction), values)
    decreases |whole|
  {
    if |whole| <= 3 {
      GroupIsPlain(whole, fraction);
    } else {
      var head, tail := whole[..|whole| - 3], whole[|whole| - 3..];
      GroupsArePlain(head, "", values);
      GroupIsPlain(tail, fraction);
      PlainConcat(GroupTokens(head, ""), [Op(','), Num(GroupNumber(tail, fraction))], values);
    }
  }

  lemma {:induction false} PlainConcat(a: seq<Token>, b: seq<Token>, values: Values)
    requires AllKnown(a) && AllUnsigned(a, values) && AllKnown(b) && AllUnsigned(b, values)
    ensures AllKnown(a + b) && AllUnsigned(a + b, values)
  {
  }

  lemma {:induction false} GroupIsPlain(whole: string, fraction: string)
    requires AllDigits(whole) && AllDigits(fraction) && whole != ""
    requires fraction != "" ==> fraction[|fraction| - 1] != '0'
    ensures Canonical(GroupNumber(whole, fraction)) && !GroupNumber(whole, fraction).negative
  {
    SplitAtPoint(whole, fraction);
  }

  lemma {:induction false} FigureIsPlain(d: Decimal, values: Values, inArgs: bool)
    requires Canonical(d)
    ensures AllKnown(FigureTokens(d, inArgs)) && AllUnsigned(FigureTokens(d, inArgs), values)
  {
    var sign := if d.negative then [Op('-')] else [];
    if inArgs {
      GroupsArePlain(d.whole, d.fraction, values);
      PlainConcat(sign, GroupTokens(d.whole, d.fraction), values);
    } else {
      PlainConcat(sign, [Num(d.(negative := false))], values);
    }
  }

  lemma {:induction false} PieceIsPlain(t: Token, values: Values, inArgs: bool)
    requires ValidValues(values) && IsKnown(t)
    ensures AllKnown(PieceTokens(t, values, inArgs)) && AllUnsigned(PieceTokens(t, values, inArgs), values)
  {
    var f := Figure(t, values);
    if f.Some? {
      FigureIsPlain(f.value, values, inArgs);
    } else if t.Id? {
      FunctionsAreNotNames(t.name);
      if IsFunction(t.name) {
        FunctionNames(t.name);
      } else {
        LabelNames(Alias(Lower(t.name)).value);
      }
    }
  }

  lemma {:induction false} RereadIsPlain(ts: seq<Token>, values: Values, open: Brackets, afterFunction: bool)
    requires ValidValues(values) && AllKnown(ts)
    ensures var again := Reread(ts, values, open, afterFunction); AllKnown(again) && AllUnsigned(again, values)
  {
    if ts != [] {
      PieceIsPlain(ts[0], values, InArgs(open));
      RereadIsPlain(ts[1..], values, Opened(ts[0], open, afterFunction), IsFunctionToken(ts[0]));
    }
  }

  // ----- spaces: every comma read back from a group adds one -----

  /** What follows a token depends on it only as an operator or a function's name. */
  lemma {:induction false} SameAfter(ts: seq<Token>, values: Values, t: Token, t': Token, prevUnary: bool)
    requires (t.Op? || t'.Op? ==> t == t') && IsFunctionToken(t) == IsFunctionToken(t')
    ensures RenderFrom(ts, values, Some(t), prevUnary, BASE_LABEL) == RenderFrom(ts, values, Some(t'), prevUnary, BASE_LABEL)
  {
  }

  function Spaces(ts: seq<Token>, values: Values, prev: Option<Token>, prevUnary: bool): nat {
    Count(' ', RenderFrom(ts, values, prev, prevUnary, BASE_LABEL))
  }

  lemma {:induction false} FigureSpaces(t: Token, rest: seq<Token>, values: Values, prev: Option<Token>, prevUnary: bool)
    requires ValidValues(values) && IsKnown(t) && Figure(t, values).Some?
    ensures Spaces([t] + rest, values, prev, prevUnary)
         == Count(' ', Spacing(t, prev, prevUnary)) + Spaces(rest, values, Some(t), false)
  {
    CountRendered(' ', [t] + rest, values, prev, prevUnary);
    assert ([t] + rest)[1..] == rest;
    FigureCounts(Figure(t, values).value);
  }

  lemma {:induction false} CommaSpaces(rest: seq<Token>, values: Values, prev: Token)
    ensures Spaces([Op(',')] + rest, values, Some(prev), false) == Spaces(rest, values, Some(Op(',')), false)
  {
    CountRendered(' ', [Op(',')] + rest, values, Some(prev), false);
    assert ([Op(',')] + rest)[1..] == rest;
    CountNone(' ', OperatorText(','));
  }

  /** A further group: a comma, a space and a number. */
  lemma {:induction false} NextGroupSpaces(last: Token, rest: seq<Token>, values: Values, t: Token)
    requires ValidValues(values) && IsKnown(last) && last.Num? && !t.Op? && !IsFunctionToken(t)
    ensures Spaces([Op(',')] + ([last] + rest), values, Some(t), false) == 1 + Spaces(rest, values, Some(t), false)
  {
    CommaSpaces([last] + rest, values, t);
    FigureSpaces(last, rest, values, Some(Op(',')), false);
    SameAfter(rest, values, last, t, false);
    assert Count(' ', Spacing(last, Some(Op(',')), false)) == 1 by {
      assert " "[1..] == "";
    }
  }

  lemma {:induction false} MoreGroups(
    groups: seq<Token>, last: Token, rest: seq<Token>, values: Values, prev: Option<Token>, prevUnary: bool, t: Token)
    requires ValidValues(values) && IsKnown(last) && last.Num? && !t.Op? && !IsFunctionToken(t)
    ensures Spaces((groups + [Op(','), last]) + rest, values, prev, prevUnary)
         == Spaces(groups + ([Op(',')] + ([last] + rest)), values, prev, prevUnary)
    ensures Spaces([Op(',')] + ([last] + rest), values, Some(t), false) == 1 + Spaces(rest, values, Some(t), false)
  {
    assert (groups + [Op(','), last]) + rest == groups + ([Op(',')] + ([last] + rest));
    NextGroupSpaces(last, rest, values, t);
  }

  lemma {:induction false} GroupSpaces(
    whole: string, fraction: string, rest: seq<Token>, values: Values, prev: Option<Token>, prevUnary: bool, t: Token)
    requires AllDigits(whole) && AllDigits(fraction) && whole != "" && ValidValues(values)
    requires fraction != "" ==> fraction[|fraction| - 1] != '0'
    requires !t.Op? && !IsFunctionToken(t)
    ensures var groups := GroupTokens(whole, fraction);
            2 * Spaces(groups + rest, values, prev, prevUnary)
            == 2 * Count(' ', Spacing(t, prev, prevUnary)) + (|groups| - 1) + 2 * Spaces(rest, values, Some(t), false)
    decreases |whole|
  {
    if |whole| <= 3 {
      var last := Num(GroupNumber(whole, fraction));
      GroupIsPlain(whole, fraction);
      FigureSpaces(last, rest, values, prev, prevUnary);
      SameAfter(rest, values, last, t, false);
    } else {
      var head, tail := whole[..|whole| - 3], whole[|whole| - 3..];
      var last := Num(GroupNumber(tail, fraction));
      GroupIsPlain(tail, fraction);
      GroupSpaces(head, "", [Op(',')] + ([last] + rest), values, prev, prevUnary, t);
      MoreGroups(GroupTokens(head, ""), last, rest, values, prev, prevUnary, t);
    }
  }

  /** One figure, and what it reads back as. */
  lemma {:induction false} FigurePieceSpaces(
    t: Token, d: Decimal, rest: seq<Token>, values: Values, prev: Option<Token>, prevUnary: bool, inArgs: bool)
    requires ValidValues(values) && IsKnown(t) && Figure(t, values) == Some(d) && !d.negative
    ensures 2 * Spaces(FigureTokens(d, inArgs) + rest, values, prev, prevUnary)
         == 2 * Spaces([t] + rest, values, prev, prevUnary) + (|FigureTokens(d, inArgs)| - 1)
  {
    FigureSpaces(t, rest, values, prev, prevUnary);
    if inArgs {
      GroupSpaces(d.whole, d.fraction, rest, values, prev, prevUnary, t);
      assert FigureTokens(d, inArgs) == GroupTokens(d.whole, d.fraction);
    } else {
      assert d.(negative := false) == d && FigureTokens(d, inArgs) == [Num(d)];
      FigureSpaces(Num(d), rest, values, prev, prevUnary);
      SameAfter(rest, values, Num(d), t, false);
    }
  }

  lemma {:induction false} NamePieceSpaces(t: Token, rest: seq<Token>, values: Values, prev: Option<Token>, prevUnary: bool)
    requires ValidValues(values) && IsKnown(t) && Figure(t, values).None?
    ensures Spaces([Substituted(t, values)] + rest, values, prev, prevUnary) == Spaces([t] + rest, values, prev, prevUnary)
  {
    var t' := Substituted(t, values);
    SubstitutedPrintsTheSame(t, values, BASE_LABEL);
    CountRendered(' ', [t] + rest, values, prev, prevUnary);
    CountRendered(' ', [t'] + rest, values, prev, prevUnary);
    assert ([t] + rest)[1..] == rest && ([t'] + rest)[1..] == rest;
    SameAfter(rest, values, t, t', IsUnarySign(t, prev));
  }

  lemma {:induction false} PieceSpaces(t: Token, rest: seq<Token>, values: Values, prev: Option<Token>, prevUnary: bool, inArgs: bool)
    requires ValidValues(values) && IsKnown(t) && !NegativeFigure(t, values)
    ensures var piece := PieceTokens(t, values, inArgs);
            2 * Spaces(piece + rest, values, prev, prevUnary) == 2 * Spaces([t] + rest, values, prev, prevUnary) + (|piece| - 1)
  {
    var f := Figure(t, values);
    if f.Some? {
      FigurePieceSpaces(t, f.value, rest, values, prev, prevUnary, inArgs);
    } else {
      NamePieceSpaces(t, rest, values, prev, prevUnary);
    }
  }

  lemma {:induction false} SpacesGrow(
    ts: seq<Token>, values: Values, prev: Option<Token>, prevUnary: bool, open: Brackets, afterFunction: bool)
    requires ValidValues(values) && AllKnown(ts) && AllUnsigned(ts, values)
    ensures var again := Reread(ts, values, open, afterFunction);
            2 * Spaces(again, values, prev, prevUnary) == 2 * Spaces(ts, values, prev, prevUnary) + (|again| - |ts|)
  {
    if ts != [] {
      var t, inner := ts[0], Opened(ts[0], open, afterFunction);
      var again := Reread(ts[1..], values, inner, IsFunctionToken(t));
      SpacesGrow(ts[1..], values, Some(t), IsUnarySign(t, prev), inner, IsFunctionToken(t));
      PieceSpaces(t, again, values, prev, prevUnary, InArgs(open));
      CountRendered(' ', [t] + again, values, prev, prevUnary);
      CountRendered(' ', ts, values, prev, prevUnary);
      assert ([t] + again)[1..] == again;
    }
  }

  // ----- the theorem -----

  /** Printing a printed formula gives the same text exactly when its figures print whole. */
  lemma {:induction false} PrintingTwice(formula: string, values: Values)
    requires NamesKnown(formula) && ValidValues(values)
    ensures RenderFormula(formula, values).Ok?
    ensures RenderFormula(RenderFormula(formula, values).value, values) == RenderFormula(formula, values)
       <==> FiguresPrintWhole(Tokens(formula).value, values, [], false)
  {
    var ts := Tokens(formula).value;
    var again := Reread(ts, values, [], false);
    PrintedReadsAs(formula, values);
    RereadKeeps(ts, values, [], false);
    if FiguresPrintWhole(ts, values, [], false) {
      PrintsTheSame(ts, values, None, false, BASE_LABEL);
    } else if AllUnsigned(ts, values) {
      SpacesGrow(ts, values, None, false, [], false);
    } else {
      RereadIsPlain(ts, values, [], false);
      HyphensIff(ts, values, None, false);
      HyphensIff(again, values, None, false);
    }
  }

  // ----- a formula whose printed text is too long -----

  /** A product of `n` times the name `b`. */
  function BasesText(name: string, n: nat): string {
    if n == 0 then "" else name + (" " + BasesText(name, n - 1))
  }

  function BasesTokens(name: string, n: nat): seq<Token> {
    if n == 0 then [] else [Id(name)] + BasesTokens(name, n - 1)
  }

  function BasesTree(name: string, n: nat): Tree {
    if n == 0 then Name(name) else Product(Juxtaposed, BasesTree(name, n - 1), Name(name))
  }

  predicate IsB(name: string) {
    |name| == 1 && name[0] == 'b' && !IsFunction(name) && Alias(Lower(name)) == Some(Base)
  }

  lemma {:induction false} BIsB()
    ensures IsB("b")
  {
    assert Lower("b") == "b";
  }

  predicate HasNoA(s: string) {
    forall i :: 0 <= i < |s| ==> LowerChar(s[i]) != 'a'
  }

  lemma {:induction false} NothingCollapses(s: string)
    requires HasNoA(s)
    ensures CollapseBasePrice(s) == s
  {
    if s != "" {
      NoBasePrice(s);
      NothingCollapses(s[1..]);
    }
  }

  lemma {:induction false} BasesHaveNoA(name: string, n: nat)
    requires IsB(name)
    ensures HasNoA(BasesText(name, n))
  {
    if n > 0 {
      BasesHaveNoA(name, n - 1);
    }
  }

  lemma {:induction false} BasesLength(name: string, n: nat)
    requires |name| == 1
    ensures |BasesText(name, n)| == 2 * n
  {
    if n > 0 {
      BasesLength(name, n - 1);
    }
  }

  lemma {:induction false} BasesLex(name: string, n: nat)
    requires IsB(name)
    ensures Lex(BasesText(name, n), [], false) == Ok(BasesTokens(name, n))
  {
    if n > 0 {
      var rest := BasesText(name, n - 1);
      BasesLex(name, n - 1);
      LexName(name, " " + rest, [], false);
      LexSkips(" " + rest, [], false);
      assert (" " + rest)[1..] == rest;
    }
  }

  lemma {:induction false} BasesPrint(name: string, n: nat)
    requires IsB(name)
    ensures |RenderFrom(BasesTokens(name, n), map[], Some(Id(name)), false, BASE_LABEL)| == 11 * n
  {
    if n > 0 {
      BasesPrint(name, n - 1);
      assert BasesTokens(name, n)[1..] == BasesTokens(name, n - 1);
    }
  }

  lemma {:induction false} BasesMean(name: string, n: nat, scope: Scope)
    requires IsB(name)
    ensures IsTerm(BasesTree(name, n)) && Denote(BasesTree(name, n), scope).Ok?
    ensures Yield(BasesTree(name, n)) == BasesTokens(name, n + 1) == BasesTokens(name, n) + [Id(name)]
  {
    assert IsPrimary(Name(name));
    if n > 0 {
      BasesMean(name, n - 1, scope);
      assert BasesTokens(name, n + 1) == [Id(name)] + (BasesTokens(name, n - 1) + [Id(name)]);
    }
  }

  lemma {:induction false} BasesPrintLength(name: string, n: nat)
    requires IsB(name) && n > 0
    ensures |RenderFrom(BasesTokens(name, n), map[], None, false, BASE_LABEL)| == 11 * n - 1
  {
    BasesPrint(name, n - 1);
    assert BasesTokens(name, n)[1..] == BasesTokens(name, n - 1);
  }

  lemma {:induction false} BasesRun(name: string, n: nat, scope: Scope)
    requires IsB(name) && n > 0
    ensures Run(BasesTokens(name, n), scope).Ok?
  {
    BasesMean(name, n - 1, scope);
    RunIsMeaning(Yield(BasesTree(name, n - 1)), scope);
  }

  /** A product of 46 or more base prices fits into the limit, and its printed text does not. */
  lemma {:induction false} PrintedTooLong(name: string, n: nat, scope: Scope)
    requires IsB(name) && 46 <= n <= 250
    ensures var formula := BasesText(name, n);
            && |formula| <= MAX_FORMULA_LENGTH && EvaluateFormula(formula, scope).Ok?
            && RenderFormula(formula, map[]).Ok?
            && EvaluateFormula(RenderFormula(formula, map[]).value, scope) == Err(TooLong)
  {
    BasesLength(name, n);
    BasesHaveNoA(name, n);
    NothingCollapses(BasesText(name, n));
    BasesLex(name, n);
    BasesRun(name, n, scope);
    BasesPrintLength(name, n);
  }

  /** Such as with `b`, one of the names of the base price. */
  lemma {:induction false} BTooLong(n: nat, scope: Scope)
    requires 46 <= n <= 250
    ensures var formula := BasesText("b", n);
            && |formula| <= MAX_FORMULA_LENGTH && EvaluateFormula(formula, scope).Ok?
            && RenderFormula(formula, map[]).Ok?
            && EvaluateFormula(RenderFormula(formula, map[]).value, scope) == Err(TooLong)
  {
    BIsB();
    PrintedTooLong("b", n, scope);
  }
}
