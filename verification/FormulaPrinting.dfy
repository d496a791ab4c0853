/**
 * What the printer prints, token by token: the text of each, and where a space
 * stands before it.
 */
module FormulaPrinting {
  import opened Wrappers
  import opened Text
  import opened Decimals
  import opened FormulaLexer
  import opened FormulaGrammar
  import opened FormulaPrinter

  // ----- figures -----

  /** The digits stand in groups of three from the right, a comma between. */
  lemma {:induction false} GroupsAreOfThree(whole: string, j: nat)
    requires AllDigits(whole) && j < |Grouped(whole)|
    ensures Grouped(whole)[|Grouped(whole)| - 1 - j] == ',' <==> j % 4 == 3
    ensures StripCommas(Grouped(whole)) == whole
    decreases |whole|
  {
    StripGrouped(whole);
    var n := |whole|;
    if n > 3 {
      var front := Grouped(whole[..n - 3]);
      assert Grouped(whole) == front + "," + whole[n - 3..];
      if j > 3 {
        GroupsAreOfThree(whole[..n - 3], j - 4);
        assert Grouped(whole)[|Grouped(whole)| - 1 - j] == front[|front| - 1 - (j - 4)];
      }
    }
  }

  /** A figure is its sign, its grouped digits, and a point and the rest if it is not whole. */
  lemma {:induction false} FiguresAre(d: Decimal)
    ensures FormatValue(d) == (if d.negative then "-" else "") + Grouped(d.whole) + (if d.fraction == "" then "" else "." + d.fraction)
  {
  }

  // ----- pieces -----

  /** The name a variable without a figure is printed by. */
  predicate IsLabel(text: string, key: Key) {
    match key
    case Base => text == "Base price"
    case N => text == "N"
    case C => text == "C"
    case PerStop => text == "perStop"
    case PerKg => text == "perKg"
    case RefN => text == "refN"
    case RefC => text == "refC"
    case KgStep => text == "kgStep"
    case Rise => text == "Rise"
  }

  /** The text of one token. */
  predicate IsPiece(text: string, t: Token, values: Values) {
    match t
    case Num(d) => text == FormatValue(d)
    case Op(c) => if c == '*' then text == "×" else if c == '-' then text == "−" else text == [c]
    case Id(name) =>
      var lower := Lower(name);
      if FunctionNamed(lower).Some? then text == lower
      else if Alias(lower).None? then text == name
      else if Alias(lower).value in values then text == FormatValue(values[Alias(lower).value])
      else IsLabel(text, Alias(lower).value)
  }

  lemma {:induction false} PieceIs(t: Token, values: Values)
    ensures IsPiece(TokenText(t, values, BASE_LABEL), t, values)
  {
  }

  // ----- spaces -----

  /** A sign before its operand: it is first, or after an operator or a bracket that opens. */
  predicate IsSignAt(ts: seq<Token>, k: nat)
    requires k < |ts|
  {
    (ts[k] == Op('+') || ts[k] == Op('-')) && (k == 0 || (ts[k - 1].Op? && ts[k - 1] != Op(')')))
  }

  /** A space stands before every token but the first, a closing bracket, a comma, a sign and what a sign, a bracket or a function's name opens. */
  predicate HasSpace(ts: seq<Token>, k: nat)
    requires k < |ts|
  {
    && k > 0 && ts[k] != Op(')') && ts[k] != Op(',') && !IsSignAt(ts, k)
    && ts[k - 1] != Op('(') && !IsSignAt(ts, k - 1)
    && !(ts[k] == Op('(') && ts[k - 1].Id? && FunctionNamed(Lower(ts[k - 1].name)).Some?)
  }

  /** The pieces from the `k`-th on, each with the space before it. */
  function Joined(ts: seq<Token>, texts: seq<string>, k: nat): string
    requires |texts| == |ts| && k <= |ts|
    decreases |ts| - k
  {
    if k == |ts| then "" else (if HasSpace(ts, k) then " " else "") + (texts[k] + Joined(ts, texts, k + 1))
  }

  lemma {:induction false} RenderJoins(ts: seq<Token>, values: Values, texts: seq<string>, k: nat)
    requires |texts| == |ts| && k <= |ts| && forall i :: 0 <= i < |ts| ==> texts[i] == TokenText(ts[i], values, BASE_LABEL)
    ensures var prev := if k == 0 then None else Some(ts[k - 1]);
            RenderFrom(ts[k..], values, prev, k > 0 && IsSignAt(ts, k - 1), BASE_LABEL) == Joined(ts, texts, k)
    decreases |ts| - k
  {
    if k < |ts| {
      assert ts[k..][1..] == ts[k + 1..];
      RenderJoins(ts, values, texts, k + 1);
    }
  }

  /** A formula is printed token by token: every one's own text, and the spaces between. */
  lemma {:induction false} PrintsPieces(formula: string, values: Values) returns (texts: seq<string>)
    requires Tokens(formula).Ok?
    ensures var ts := Tokens(formula).value;
            && |texts| == |ts| && (forall k :: 0 <= k < |ts| ==> IsPiece(texts[k], ts[k], values))
            && RenderFormula(formula, values) == Ok(Joined(ts, texts, 0))
  {
    var ts := Tokens(formula).value;
    texts := seq(|ts|, i requires 0 <= i < |ts| => TokenText(ts[i], values, BASE_LABEL));
    forall k | 0 <= k < |ts|
      ensures IsPiece(texts[k], ts[k], values)
    {
      PieceIs(ts[k], values);
    }
    RenderJoins(ts, values, texts, 0);
    assert ts[0..] == ts;
  }
}
