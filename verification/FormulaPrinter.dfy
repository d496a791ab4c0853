/**
 * `renderFormula` of src/common/formula.ts, and what its output reads as when
 * it is tokenized again.
 */
module FormulaPrinter {
  import opened Wrappers
  import opened Text
  import opened Decimals
  import opened FormulaLexer
  import opened FormulaGrammar

  /** The names to print as figures. */
  type Values = map<Key, Decimal>

  ghost predicate ValidValues(values: Values) {
    forall k :: k in values ==> Canonical(values[k])
  }

  const BASE_LABEL := "Base price"

  /** NAME_LABELS, with the label of the base price as `base`. */
  function Label(key: Key, base: string): string {
    match key
    case Base => base
    case N => "N"
    case C => "C"
    case PerStop => "perStop"
    case PerKg => "perKg"
    case RefN => "refN"
    case RefC => "refC"
    case KgStep => "kgStep"
    case Rise => "Rise"
  }

  /** The figure a token is printed as, if it is printed as one. */
  function Figure(t: Token, values: Values): Option<Decimal> {
    match t
    case Num(d) => Some(d)
    case Id(name) =>
      if IsFunction(name) then None
      else
        (match Alias(Lower(name))
         case Some(k) => if k in values then Some(values[k]) else None
         case None => None)
    case Op(_) => None
  }

  function TokenText(t: Token, values: Values, base: string): string {
    match Figure(t, values)
    case Some(d) => FormatValue(d)
    case None =>
      match t
      case Id(name) =>
        if IsFunction(name) then Lower(name)
        else
          (match Alias(Lower(name))
           case Some(k) => Label(k, base)
           case None => name)
      case Op(c) => OperatorText(c)
      case Num(d) => ""
  }

  /** A sign with nothing, an operator or an opening bracket before it. */
  predicate IsUnarySign(t: Token, prev: Option<Token>) {
    && (t == Op('-') || t == Op('+'))
    && (prev.None? || (prev.value.Op? && prev.value != Op(')')))
  }

  /** Whether a token is printed without a space before it. */
  predicate IsTight(t: Token, prev: Option<Token>, prevUnary: bool) {
    || prev.None?
    || prevUnary
    || t == Op(')')
    || t == Op(',')
    || prev.value == Op('(')
    || (t == Op('(') && IsFunctionToken(prev.value))
    || IsUnarySign(t, prev)
  }

  /** The text of `ts` after the token `prev`. */
  function RenderFrom(ts: seq<Token>, values: Values, prev: Option<Token>, prevUnary: bool, base: string): string {
    if ts == [] then ""
    else
      Spacing(ts[0], prev, prevUnary)
      + (TokenText(ts[0], values, base)
         + RenderFrom(ts[1..], values, Some(ts[0]), IsUnarySign(ts[0], prev), base))
  }

  function Spacing(t: Token, prev: Option<Token>, prevUnary: bool): string {
    if IsTight(t, prev, prevUnary) then "" else " "
  }

  function RenderFormula(formula: string, values: Values): Result<string, FormulaError> {
    var ts :- Tokens(formula);
    Ok(RenderFrom(ts, values, None, false, BASE_LABEL))
  }

  /** The loop: one piece of text per token onto `out`. */
  method Render(formula: string, values: Values) returns (r: Result<string, FormulaError>)
    ensures r == RenderFormula(formula, values)
  {
    var lexed := Tokenize(formula);
    if lexed.Err? {
      return Err(lexed.error);
    }
    var ts := lexed.value;
    var out := "";
    var prev: Option<Token> := None;
    var prevUnary := false;
    var i := 0;
    assert ts[0..] == ts;
    while i < |ts|
      invariant 0 <= i <= |ts|
      invariant RenderFrom(ts, values, None, false, BASE_LABEL)
             == out + RenderFrom(ts[i..], values, prev, prevUnary, BASE_LABEL)
    {
      RenderOne(ts, i, values, prev, prevUnary, out);
      out := out + (Spacing(ts[i], prev, prevUnary) + TokenText(ts[i], values, BASE_LABEL));
      prev, prevUnary := Some(ts[i]), IsUnarySign(ts[i], prev);
      i := i + 1;
    }
    assert out + "" == out;
    r := Ok(out);
  }

  lemma {:induction false} RenderOne(ts: seq<Token>, i: nat, values: Values, prev: Option<Token>, prevUnary: bool, out: string)
    requires i < |ts|
    ensures out + RenderFrom(ts[i..], values, prev, prevUnary, BASE_LABEL)
         == out + (Spacing(ts[i], prev, prevUnary) + TokenText(ts[i], values, BASE_LABEL))
            + RenderFrom(ts[i + 1..], values, Some(ts[i]), IsUnarySign(ts[i], prev), BASE_LABEL)
  {
    assert ts[i..][1..] == ts[i + 1..];
  }

  // ----- which texts the printer can meet -----

  /** A token as the tokenizer makes them, its name known. */
  predicate IsKnown(t: Token) {
    match t
    case Num(d) => Canonical(d) && !d.negative
    case Id(name) => IsFunction(name) || Alias(Lower(name)).Some?
    case Op(c) => IsPlainOperator(c)
  }

  ghost predicate AllKnown(ts: seq<Token>) {
    forall i :: 0 <= i < |ts| ==> IsKnown(ts[i])
  }

  ghost predicate KnownButForNames(ts: seq<Token>) {
    forall i {:trigger ts[i]} :: 0 <= i < |ts| ==> ts[i].Id? || IsKnown(ts[i])
  }

  /** Every token the tokenizer makes is known, unless it is an unknown name. */
  lemma {:induction false} LexMakesKnown(s: string, open: Brackets, afterFunction: bool)
    ensures var r := Lex(s, open, afterFunction);
            r.Ok? ==> KnownButForNames(r.value)
    decreases |s|
  {
    if s != "" {
      match BiteOf(s, open, afterFunction) {
        case Skip => LexMakesKnown(s[1..], open, afterFunction);
        case Take(t, n, open') =>
          LexMakesKnown(s[n..], open', IsFunctionToken(t));
          BiteIsKnown(s, open, afterFunction);
          LexTakes(s, open, afterFunction, t, n, open');
        case Refuse(_) =>
      }
    }
  }

  lemma {:induction false} BiteIsKnown(s: string, open: Brackets, afterFunction: bool)
    requires s != "" && BiteOf(s, open, afterFunction).Take?
    ensures var t := BiteOf(s, open, afterFunction).token; t.Id? || IsKnown(t)
  {
  }

  // ----- what a printed figure reads back as -----

  /**
   * Directly inside a function's arguments the grouping commas are read as
   * argument separators, so the groups come back as numbers of their own.
   */
  function GroupTokens(whole: string, fraction: string): seq<Token>
    requires AllDigits(whole) && AllDigits(fraction) && whole != ""
    decreases |whole|
  {
    if |whole| <= 3 then [Num(GroupNumber(whole, fraction))]
    else GroupTokens(whole[..|whole| - 3], "") + [Op(','), Num(GroupNumber(whole[|whole| - 3..], fraction))]
  }

  function GroupText(whole: string, fraction: string): string {
    if fraction == "" then whole else whole + "." + fraction
  }

  function GroupNumber(whole: string, fraction: string): Decimal
    requires AllDigits(whole) && AllDigits(fraction) && whole != ""
  {
    SplitAtPoint(whole, fraction);
    Numeral(GroupText(whole, fraction))
  }

  function FigureTokens(d: Decimal, inArgs: bool): seq<Token>
    requires Canonical(d)
  {
    (if d.negative then [Op('-')] else [])
    + (if inArgs then GroupTokens(d.whole, d.fraction) else [Num(d.(negative := false))])
  }

  function PieceTokens(t: Token, values: Values, inArgs: bool): seq<Token>
    requires ValidValues(values) && IsKnown(t)
  {
    match Figure(t, values)
    case Some(d) => FigureTokens(d, inArgs)
    case None =>
      match t
      case Id(name) =>
        if IsFunction(name) then [Id(Lower(name))] else [Id(Label(Alias(Lower(name)).value, "base"))]
      case _ => [t]
  }

  /** The tokens the printed text of `ts` reads back as, inside the brackets `open`. */
  function Reread(ts: seq<Token>, values: Values, open: Brackets, afterFunction: bool): seq<Token>
    requires ValidValues(values) && AllKnown(ts)
  {
    if ts == [] then []
    else
      PieceTokens(ts[0], values, InArgs(open))
      + Reread(ts[1..], values, Opened(ts[0], open, afterFunction), IsFunctionToken(ts[0]))
  }

  /** The brackets open after a token. */
  function Opened(t: Token, open: Brackets, afterFunction: bool): Brackets {
    if t.Op? then AfterOperator(t.symbol, open, afterFunction) else open
  }

  /** What follows a printed figure or name: nothing, a space, a bracket or a comma before no digit. */
  predicate EndsPiece(s: string) {
    || s == ""
    || s[0] == ' ' || s[0] == ')'
    || (s[0] == ',' && (|s| > 1 ==> !IsDigit(s[1])))
  }

  // ----- tokenizing one piece -----

  lemma {:induction false} DigitsSpan(digits: string, after: string, inArgs: bool)
    requires forall i :: 0 <= i < |digits| ==> IsNumberChar(digits[i])
    ensures NumberSpan(digits + after, inArgs) == |digits| + NumberSpan(after, inArgs)
  {
    if digits == "" {
      assert digits + after == after;
    } else {
      assert (digits + after)[1..] == digits[1..] + after;
      DigitsSpan(digits[1..], after, inArgs);
    }
  }

  /** Outside arguments every grouping comma belongs to the number. */
  lemma {:induction false} GroupedSpan(whole: string, after: string)
    requires AllDigits(whole) && (after != "" ==> !IsDigit(after[0]))
    ensures NumberSpan(Grouped(whole) + after, false) == |Grouped(whole)| + NumberSpan(after, false)
    decreases |whole|
  {
    if |whole| <= 3 {
      DigitsSpan(whole, after, false);
    } else {
      var head, last := whole[..|whole| - 3], whole[|whole| - 3..];
      var tail := "," + (last + after);
      assert Grouped(whole) + after == Grouped(head) + tail;
      GroupedSpan(head, tail);
      assert tail[1..] == last + after;
      DigitsSpan(last, after, false);
    }
  }

  lemma {:induction false} NumberEnds(after: string, inArgs: bool)
    requires EndsPiece(after)
    ensures NumberSpan(after, inArgs) == 0 && UnitSpan(after) == 0
  {
    assert forall w: string :: StartsWith(after, w) && w != "" ==> LowerChar(after[0]) == w[0];
  }

  lemma {:induction false} MagnitudeSpan(d: Decimal, after: string)
    requires Canonical(d) && EndsPiece(after)
    ensures NumberSpan(Magnitude(d) + after, false) == |Magnitude(d)|
  {
    NumberEnds(after, false);
    if d.fraction == "" {
      GroupedSpan(d.whole, after);
    } else {
      var tail := "." + (d.fraction + after);
      assert Magnitude(d) + after == Grouped(d.whole) + tail;
      GroupedSpan(d.whole, tail);
      FractionSpan(d.fraction, after);
    }
  }

  lemma {:induction false} FractionSpan(fraction: string, after: string)
    requires AllDigits(fraction)
    ensures NumberSpan("." + (fraction + after), false) == 1 + |fraction| + NumberSpan(after, false)
  {
    DigitsSpan(fraction, after, false);
    assert ("." + (fraction + after))[1..] == fraction + after;
  }

  lemma {:induction false} GroupedOpens(whole: string)
    requires AllDigits(whole) && whole != ""
    ensures Grouped(whole) != "" && IsDigit(Grouped(whole)[0])
    decreases |whole|
  {
    if |whole| > 3 {
      GroupedOpens(whole[..|whole| - 3]);
    }
  }

  lemma {:induction false} NumberIsBitten(s: string, text: string, after: string, open: Brackets, afterFunction: bool)
    requires s == text + after && text != "" && IsNumberChar(text[0]) && IsNumeral(StripCommas(text))
    requires NumberSpan(s, InArgs(open)) == |text| && UnitSpan(after) == 0
    ensures BiteOf(s, open, afterFunction) == Take(Num(Numeral(StripCommas(text))), |text|, open)
  {
    assert s[..|text|] == text && s[|text|..] == after && s[0] == text[0];
    assert !IsSpace(s[0]);
  }

  /** A whole number's text is one token. */
  lemma {:induction false} LexNumber(text: string, after: string, open: Brackets, afterFunction: bool)
    requires text != "" && IsNumberChar(text[0]) && IsNumeral(StripCommas(text))
    requires NumberSpan(text + after, InArgs(open)) == |text| && UnitSpan(after) == 0
    ensures Lex(text + after, open, afterFunction)
         == Prepend(Num(Numeral(StripCommas(text))), Lex(after, open, false))
  {
    var s := text + after;
    NumberIsBitten(s, text, after, open, afterFunction);
    LexTakes(s, open, afterFunction, Num(Numeral(StripCommas(text))), |text|, open);
    assert s[|text|..] == after;
  }

  /** A figure printed outside arguments reads back as itself. */
  lemma {:induction false} LexMagnitude(d: Decimal, after: string, open: Brackets, afterFunction: bool)
    requires Canonical(d) && !InArgs(open) && EndsPiece(after)
    ensures Lex(Magnitude(d) + after, open, afterFunction)
         == Prepend(Num(d.(negative := false)), Lex(after, open, false))
  {
    GroupedOpens(d.whole);
    MagnitudeSpan(d, after);
    MagnitudeReadsBack(d);
    NumberEnds(after, false);
    LexNumber(Magnitude(d), after, open, afterFunction);
  }

  /** What follows a group inside arguments: a separating comma may open the next group. */
  predicate EndsGroup(s: string) {
    s == "" || s[0] == ' ' || s[0] == ')' || s[0] == ','
  }

  lemma {:induction false} GroupEnds(after: string)
    requires EndsGroup(after)
    ensures NumberSpan(after, true) == 0 && UnitSpan(after) == 0
  {
    assert forall w: string :: StartsWith(after, w) && w != "" ==> LowerChar(after[0]) == w[0];
  }

  /** One group of digits inside arguments. */
  lemma {:induction false} LexGroup(whole: string, fraction: string, after: string, open: Brackets, afterFunction: bool)
    requires AllDigits(whole) && AllDigits(fraction) && whole != ""
    requires InArgs(open) && EndsGroup(after)
    ensures Lex(GroupText(whole, fraction) + after, open, afterFunction)
         == Prepend(Num(GroupNumber(whole, fraction)), Lex(after, open, false))
  {
    var text := GroupText(whole, fraction);
    assert forall i :: 0 <= i < |text| ==> IsNumberChar(text[i]);
    DigitsSpan(text, after, true);
    GroupEnds(after);
    SplitAtPoint(whole, fraction);
    assert text[0] == whole[0] && StripCommas(text) == text;
    LexNumber(text, after, open, afterFunction);
  }

  lemma {:induction false} AppendAppend(a: seq<Token>, b: seq<Token>, rest: Lexed)
    ensures Append(a, Append(b, rest)) == Append(a + b, rest)
  {
    if rest.Ok? {
      assert a + (b + rest.value) == (a + b) + rest.value;
    }
  }

  /** A comma and the group after it. */
  lemma {:induction false} LexNextGroup(last: string, fraction: string, after: string, open: Brackets)
    requires AllDigits(last) && AllDigits(fraction) && last != ""
    requires InArgs(open) && EndsGroup(after)
    ensures Lex([','] + (GroupText(last, fraction) + after), open, false)
         == Append([Op(',')] + [Num(GroupNumber(last, fraction))], Lex(after, open, false))
  {
    LexGroup(last, fraction, after, open, false);
    LexSign(',', GroupText(last, fraction) + after, open, false);
    AppendAppend([Op(',')], [Num(GroupNumber(last, fraction))], Lex(after, open, false));
  }

  lemma {:induction false} LexGroups(whole: string, fraction: string, after: string, open: Brackets, afterFunction: bool)
    requires AllDigits(whole) && AllDigits(fraction) && whole != ""
    requires InArgs(open) && EndsGroup(after)
    ensures Lex(GroupText(Grouped(whole), fraction) + after, open, afterFunction)
         == Append(GroupTokens(whole, fraction), Lex(after, open, false))
    decreases |whole|
  {
    if |whole| <= 3 {
      LexGroup(whole, fraction, after, open, afterFunction);
    } else {
      var head, last := whole[..|whole| - 3], whole[|whole| - 3..];
      var tail := [','] + (GroupText(last, fraction) + after);
      assert GroupText(Grouped(whole), fraction) + after == GroupText(Grouped(head), "") + tail;
      LexGroups(head, "", tail, open, afterFunction);
      LexNextGroup(last, fraction, after, open);
      var number := Num(GroupNumber(last, fraction));
      AppendAppend(GroupTokens(head, ""), [Op(',')] + [number], Lex(after, open, false));
      assert [Op(',')] + [number] == [Op(','), number];
    }
  }

  lemma {:induction false} LexUnsigned(d: Decimal, after: string, open: Brackets, afterFunction: bool)
    requires Canonical(d) && EndsPiece(after)
    ensures Lex(Magnitude(d) + after, open, afterFunction)
         == Append(FigureTokens(d.(negative := false), InArgs(open)), Lex(after, open, false))
  {
    if InArgs(open) {
      assert Magnitude(d) == GroupText(Grouped(d.whole), d.fraction);
      LexGroups(d.whole, d.fraction, after, open, afterFunction);
      assert [] + GroupTokens(d.whole, d.fraction) == GroupTokens(d.whole, d.fraction);
    } else {
      LexMagnitude(d, after, open, afterFunction);
      assert [] + [Num(d.(negative := false))] == [Num(d.(negative := false))];
    }
  }

  lemma {:induction false} LexFigure(d: Decimal, after: string, open: Brackets, afterFunction: bool)
    requires Canonical(d) && EndsPiece(after)
    ensures Lex(FormatValue(d) + after, open, afterFunction)
         == Append(FigureTokens(d, InArgs(open)), Lex(after, open, false))
  {
    if d.negative {
      LexNegative(d, after, open, afterFunction);
    } else {
      LexUnsigned(d, after, open, afterFunction);
      assert d.(negative := false) == d;
    }
  }

  lemma {:induction false} LexNegative(d: Decimal, after: string, open: Brackets, afterFunction: bool)
    requires Canonical(d) && d.negative && EndsPiece(after)
    ensures Lex(FormatValue(d) + after, open, afterFunction)
         == Append(FigureTokens(d, InArgs(open)), Lex(after, open, false))
  {
    var digits := Magnitude(d) + after;
    var unsigned := FigureTokens(d.(negative := false), InArgs(open));
    assert FormatValue(d) + after == ['-'] + digits;
    LexUnsigned(d, after, open, false);
    LexSign('-', digits, open, afterFunction);
    AppendAppend([Op('-')], unsigned, Lex(after, open, false));
    MinusFigure(d, InArgs(open));
  }

  lemma {:induction false} MinusFigure(d: Decimal, inArgs: bool)
    requires Canonical(d) && d.negative
    ensures FigureTokens(d, inArgs) == [Op('-')] + FigureTokens(d.(negative := false), inArgs)
  {
  }

  /** A bracket, comma or ASCII sign is one token. */
  lemma {:induction false} LexSign(c: char, after: string, open: Brackets, afterFunction: bool)
    requires IsPlainOperator(c)
    ensures Lex([c] + after, open, afterFunction)
         == Prepend(Op(c), Lex(after, AfterOperator(c, open, afterFunction), false))
  {
    LexTakes([c] + after, open, afterFunction, Op(c), 1, AfterOperator(c, open, afterFunction));
    assert ([c] + after)[1..] == after;
  }

  lemma {:induction false} WordsSpan(word: string, after: string)
    requires forall i :: 0 <= i < |word| ==> IsWord(word[i])
    requires after != "" ==> !IsWord(after[0])
    ensures WordSpan(word + after) == |word|
  {
    var s := word + after;
    assert forall i :: 0 <= i < |word| ==> IsWord(s[i]);
    assert after != "" ==> s[|word|] == after[0] && !IsWord(s[|word|]);
    assert WordSpan(s) < |s| ==> !IsWord(s[WordSpan(s)]);
  }

  lemma {:induction false} LexName(name: string, after: string, open: Brackets, afterFunction: bool)
    requires name != "" && IsNameStart(name[0]) && forall i :: 0 <= i < |name| ==> IsWord(name[i])
    requires after != "" ==> !IsWord(after[0])
    ensures Lex(name + after, open, afterFunction) == Prepend(Id(name), Lex(after, open, IsFunction(name)))
  {
    var s := name + after;
    WordsSpan(name, after);
    assert s[0] == name[0] && s[..|name|] == name;
    LexTakes(s, open, afterFunction, Id(name), |name|, open);
    assert s[|name|..] == after;
  }

  /** How an operator is printed: × and −, never * and -. */
  function OperatorText(c: char): string {
    if c == '*' then "×" else if c == '-' then "−" else [c]
  }

  lemma {:induction false} LexOperator(c: char, after: string, open: Brackets, afterFunction: bool)
    requires IsPlainOperator(c)
    ensures Lex(OperatorText(c) + after, open, afterFunction)
         == Prepend(Op(c), Lex(after, AfterOperator(c, open, afterFunction), false))
  {
    if c == '*' || c == '-' {
      LexTakes(OperatorText(c) + after, open, afterFunction, Op(c), 1, open);
      assert (OperatorText(c) + after)[1..] == after;
    } else {
      LexSign(c, after, open, afterFunction);
    }
  }
}
