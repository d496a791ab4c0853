/**
 * DEFAULT_PRICING_FORMULA of src/common/formula.ts, the formula every tenant
 * begins with: its text, its tokens, and the prices it gives.
 */
module StarterFormula {
  import opened Wrappers
  import opened Text
  import opened Decimals
  import opened FormulaLexer
  import opened FormulaGrammar
  import opened FormulaEvaluator
  import opened FormulaPrinter
  import opened FormulaRoundTrip
  import opened Calculator

  // ----- what the formula means -----

  /** A tree that stands for one of the names, whatever that name's value. */
  ghost predicate StandsFor(t: Tree, key: Key) {
    IsPrimary(t) && forall scope: Scope :: Denote(t, scope) == Ok(ValueOf(scope(key)))
  }

  /** A name stands for the variable it is an alias of. */
  lemma {:induction false} NameStandsFor(name: string, key: Key)
    requires Alias(Lower(name)) == Some(key)
    ensures StandsFor(Name(name), key)
  {
    FunctionsAreNotNames(name);
    assert IsPrimary(Name(name));
  }

  /** The names the starter formula is written with. */
  datatype Names = Names(base: Tree, n: Tree, c: Tree, refN: Tree, refC: Tree, perStop: Tree, perKg: Tree, kgStep: Tree)

  ghost predicate AreNames(x: Names) {
    && StandsFor(x.base, Base) && StandsFor(x.n, N) && StandsFor(x.c, C) && StandsFor(x.refN, RefN)
    && StandsFor(x.refC, RefC) && StandsFor(x.perStop, PerStop) && StandsFor(x.perKg, PerKg) && StandsFor(x.kgStep, KgStep)
  }

  /** (N − refN) × perStop */
  function StopsTree(x: Names): Tree {
    Tree.Product(Times, Group(Sum('-', x.n, x.refN)), x.perStop)
  }

  /** ((C − refC) / kgStep) × perKg */
  function LoadTree(x: Names): Tree {
    Tree.Product(Times, Group(Tree.Product(Over, Group(Sum('-', x.c, x.refC)), x.kgStep)), x.perKg)
  }

  /** Base price + (N − refN) × perStop + ((C − refC) / kgStep) × perKg */
  function Starter(x: Names): Tree {
    Sum('+', Sum('+', x.base, StopsTree(x)), LoadTree(x))
  }

  /** A tree the grammar allows as a term, and its value. */
  predicate IsTermOf(t: Tree, scope: Scope, v: real) {
    IsTerm(t) && IsExpression(t) && Denote(t, scope) == Ok(v)
  }

  lemma {:induction false} NameMeans(t: Tree, key: Key, scope: Scope)
    requires StandsFor(t, key)
    ensures IsTermOf(t, scope, ValueOf(scope(key))) && IsPrimary(t)
  {
    PrimaryIsTerm(t);
  }

  lemma {:induction false} SumMeans(op: char, left: Tree, right: Tree, v: real, w: real, scope: Scope)
    requires op == '+' || op == '-'
    requires IsExpression(left) && Denote(left, scope) == Ok(v) && IsTermOf(right, scope, w)
    ensures IsExpression(Sum(op, left, right)) && Denote(Sum(op, left, right), scope) == Ok(Plus2(op, v, w))
  {
  }

  lemma {:induction false} GroupMeans(t: Tree, v: real, scope: Scope)
    requires IsExpression(t) && Denote(t, scope) == Ok(v)
    ensures IsTermOf(Group(t), scope, v)
  {
    PrimaryIsTerm(Group(t));
  }

  lemma {:induction false} ProductMeans(kind: ProductKind, left: Tree, right: Tree, v: real, w: real, scope: Scope)
    requires kind != Juxtaposed && (kind == Over ==> w != 0.0)
    requires IsTermOf(left, scope, v) && IsTermOf(right, scope, w) && IsPrimary(right)
    ensures IsTermOf(Tree.Product(kind, left, right), scope, if kind == Over then Divided(v, w) else Multiplied(v, w))
  {
  }

  lemma {:induction false} ExcessMeans(a: Tree, b: Tree, j: Key, k: Key, scope: Scope)
    requires StandsFor(a, j) && StandsFor(b, k)
    ensures IsTermOf(Group(Sum('-', a, b)), scope, ValueOf(scope(j)) - ValueOf(scope(k)))
  {
    var v, w := ValueOf(scope(j)), ValueOf(scope(k));
    NameMeans(a, j, scope);
    NameMeans(b, k, scope);
    SumMeans('-', a, b, v, w, scope);
    GroupMeans(Sum('-', a, b), v - w, scope);
  }

  /** What the stops add, and what the load adds, as the price list has them. */
  function StopsPart(scope: Scope): real {
    Multiplied(ValueOf(scope(N)) - ValueOf(scope(RefN)), ValueOf(scope(PerStop)))
  }

  function LoadPart(scope: Scope): real
    requires ValueOf(scope(KgStep)) != 0.0
  {
    Multiplied(Divided(ValueOf(scope(C)) - ValueOf(scope(RefC)), ValueOf(scope(KgStep))), ValueOf(scope(PerKg)))
  }

  lemma {:induction false} StopsMean(x: Names, scope: Scope)
    requires AreNames(x)
    ensures IsTermOf(StopsTree(x), scope, StopsPart(scope))
  {
    ExcessMeans(x.n, x.refN, N, RefN, scope);
    NameMeans(x.perStop, PerStop, scope);
    ProductMeans(Times, Group(Sum('-', x.n, x.refN)), x.perStop,
      ValueOf(scope(N)) - ValueOf(scope(RefN)), ValueOf(scope(PerStop)), scope);
  }

  lemma {:induction false} LoadMeans(x: Names, scope: Scope)
    requires AreNames(x) && ValueOf(scope(KgStep)) != 0.0
    ensures IsTermOf(LoadTree(x), scope, LoadPart(scope))
  {
    var excess, step := ValueOf(scope(C)) - ValueOf(scope(RefC)), ValueOf(scope(KgStep));
    var quotient := Tree.Product(Over, Group(Sum('-', x.c, x.refC)), x.kgStep);
    ExcessMeans(x.c, x.refC, C, RefC, scope);
    NameMeans(x.kgStep, KgStep, scope);
    ProductMeans(Over, Group(Sum('-', x.c, x.refC)), x.kgStep, excess, step, scope);
    GroupMeans(quotient, Divided(excess, step), scope);
    NameMeans(x.perKg, PerKg, scope);
    ProductMeans(Times, Group(quotient), x.perKg, Divided(excess, step), ValueOf(scope(PerKg)), scope);
  }

  lemma {:induction false} StarterMeans(x: Names, scope: Scope)
    requires AreNames(x) && ValueOf(scope(KgStep)) != 0.0
    ensures IsExpression(Starter(x))
    ensures Denote(Starter(x), scope) == Ok(ValueOf(scope(Base)) + StopsPart(scope) + LoadPart(scope))
  {
    var base := ValueOf(scope(Base));
    NameMeans(x.base, Base, scope);
    StopsMean(x, scope);
    LoadMeans(x, scope);
    SumMeans('+', x.base, StopsTree(x), base, StopsPart(scope), scope);
    SumMeans('+', Sum('+', x.base, StopsTree(x)), LoadTree(x), base + StopsPart(scope), LoadPart(scope), scope);
  }

  /** The starter formula's value: it divides by the load step. */
  function StarterValue(scope: Scope): Valued {
    if ValueOf(scope(KgStep)) == 0.0 then Err(DivisionByZero)
    else Ok(ValueOf(scope(Base)) + StopsPart(scope) + LoadPart(scope))
  }

  ghost predicate IsStarter(t: Tree) {
    IsExpression(t) && forall scope: Scope :: Denote(t, scope) == StarterValue(scope)
  }

  lemma {:induction false} StarterNeedsAStep(x: Names, scope: Scope)
    requires AreNames(x) && ValueOf(scope(KgStep)) == 0.0
    ensures Denote(Starter(x), scope) == Err(DivisionByZero)
  {
    NameMeans(x.base, Base, scope);
    StopsMean(x, scope);
    ExcessMeans(x.c, x.refC, C, RefC, scope);
    NameMeans(x.kgStep, KgStep, scope);
    var quotient := Tree.Product(Over, Group(Sum('-', x.c, x.refC)), x.kgStep);
    assert Denote(quotient, scope) == Err(DivisionByZero);
    assert Denote(Group(quotient), scope) == Err(DivisionByZero);
    assert Denote(Sum('+', x.base, StopsTree(x)), scope).Ok?;
  }

  lemma {:induction false} StarterIsStarter(x: Names)
    requires AreNames(x)
    ensures IsStarter(Starter(x))
  {
    var t := Starter(x);
    forall scope: Scope
      ensures Denote(t, scope) == StarterValue(scope)
    {
      if ValueOf(scope(KgStep)) == 0.0 {
        StarterNeedsAStep(x, scope);
      } else {
        StarterMeans(x, scope);
      }
    }
    StarterMeans(x, _ => Natural(1));
  }

  function StopsRate(product: Product, stops: nat): real {
    Multiplied(stops as real - product.refStops as real, ValueOf(product.perStopEtb))
  }

  function LoadRate(product: Product, capacityKg: nat): real
    requires product.kgStep > 0
  {
    Multiplied(Divided(capacityKg as real - product.refCapacityKg as real, product.kgStep as real), ValueOf(product.perKgEtb))
  }

  function ListPriceOf(product: Product, stops: nat, capacityKg: nat): Valued {
    if product.kgStep == 0 then Err(DivisionByZero)
    else Ok(ValueOf(product.basePriceEtb) + StopsRate(product, stops) + LoadRate(product, capacityKg))
  }

  /** The breakdown the price list asks for; a product without a load step has none. */
  function PartsOf(product: Product, stops: nat, capacityKg: nat): Result<ProductPrice, FormulaError> {
    if product.kgStep == 0 then Err(DivisionByZero)
    else Ok(ProductPrice(ValueOf(product.basePriceEtb), StopsRate(product, stops), LoadRate(product, capacityKg)))
  }

  lemma {:induction false} NaturalValue(n: nat)
    ensures ValueOf(Natural(n)) == n as real
  {
  }

  /** The names' values while a machine is priced. */
  predicate Prices(scope: Scope, product: Product, stops: nat, capacityKg: nat) {
    && scope(Base) == product.basePriceEtb && scope(PerStop) == product.perStopEtb && scope(PerKg) == product.perKgEtb
    && scope(N) == Natural(stops) && scope(RefN) == Natural(product.refStops)
    && scope(C) == Natural(capacityKg) && scope(RefC) == Natural(product.refCapacityKg)
    && scope(KgStep) == Natural(product.kgStep)
  }

  lemma {:induction false} PartsAreRates(scope: Scope, product: Product, stops: nat, capacityKg: nat)
    requires Prices(scope, product, stops, capacityKg)
    ensures StarterValue(scope) == ListPriceOf(product, stops, capacityKg)
  {
    NaturalValue(stops);
    NaturalValue(capacityKg);
    NaturalValue(product.refStops);
    NaturalValue(product.refCapacityKg);
    NaturalValue(product.kgStep);
  }

  lemma {:induction false} ScopePrices(product: Product, stops: nat, capacityKg: nat, travelHeightM: Decimal)
    ensures Prices(ScopeOf(product, stops, capacityKg, travelHeightM), product, stops, capacityKg)
  {
  }

  lemma {:induction false} Runs(t: Tree, formula: string, scope: Scope)
    requires IsExpression(t) && |formula| <= MAX_FORMULA_LENGTH && Tokens(formula) == Ok(Yield(t))
    ensures EvaluateFormula(formula, scope) == Denote(t, scope)
  {
    RunIsMeaning(Yield(t), scope);
  }

  lemma {:induction false} StarterRuns(
    product: Product, stops: nat, capacityKg: nat, travelHeightM: Decimal, t: Tree, formula: string)
    requires IsStarter(t) && |formula| <= MAX_FORMULA_LENGTH && Tokens(formula) == Ok(Yield(t))
    ensures EvaluateFormula(formula, ScopeOf(product, stops, capacityKg, travelHeightM))
         == ListPriceOf(product, stops, capacityKg)
  {
    var scope := ScopeOf(product, stops, capacityKg, travelHeightM);
    ScopePrices(product, stops, capacityKg, travelHeightM);
    PartsAreRates(scope, product, stops, capacityKg);
    Runs(t, formula, scope);
  }

  lemma {:induction false} ListSplits(product: Product, stops: nat, capacityKg: nat)
    ensures PriceOf(ValueOf(product.basePriceEtb), ListPriceOf(product, stops, capacityKg),
                    ListPriceOf(product, stops, product.refCapacityKg))
         == PartsOf(product, stops, capacityKg)
  {
    if product.kgStep > 0 {
      NoLoadRate(product);
    }
  }

  lemma {:induction false} NoLoadRate(product: Product)
    requires product.kgStep > 0
    ensures LoadRate(product, product.refCapacityKg) == 0.0
  {
  }

  /**
   * Under the starter formula, however its names are spelled, the breakdown is
   * the price list's own: the rate for every stop over the product's reference,
   * and the rate for every load step over its reference capacity.
   */
  lemma {:induction false} StarterPrices(
    product: Product, stops: nat, capacityKg: nat, travelHeightM: Decimal, x: Names, formula: string)
    requires AreNames(x) && |formula| <= MAX_FORMULA_LENGTH && Tokens(formula) == Ok(Yield(Starter(x)))
    ensures ComputeProductPrice(product, stops, capacityKg, travelHeightM, formula) == PartsOf(product, stops, capacityKg)
  {
    StarterIsStarter(x);
    StarterRuns(product, stops, capacityKg, travelHeightM, Starter(x), formula);
    StarterRuns(product, stops, product.refCapacityKg, travelHeightM, Starter(x), formula);
    ListSplits(product, stops, capacityKg);
  }

  // ----- its text -----

  /** The parts of a formula without calls: its variables, its signs and its brackets. */
  datatype Part = Of(key: Key) | Sign(symbol: char)

  predicate IsPart(part: Part) {
    part.Sign? ==> IsPlainOperator(part.symbol) && part.symbol != ','
  }

  function TokenOf(part: Part): Token {
    match part
    case Of(key) => Id(Label(key, "base"))
    case Sign(c) => Op(c)
  }

  function TextOf(part: Part): string {
    match part
    case Of(key) => Label(key, BASE_LABEL)
    case Sign(c) => OperatorText(c)
  }

  function TokensOf(parts: seq<Part>): seq<Token> {
    seq(|parts|, k requires 0 <= k < |parts| => TokenOf(parts[k]))
  }

  /** The parts with a space between, but none after an opening bracket and before a closing one. */
  function Spaced(parts: seq<Part>, tight: bool): string {
    if parts == [] then ""
    else
      (if tight || parts[0] == Sign(')') then "" else " ")
      + (TextOf(parts[0]) + Spaced(parts[1..], parts[0] == Sign('(')))
  }

  /** Every plus and minus stands between two operands. */
  predicate IsBinary(parts: seq<Part>, k: nat)
    requires k < |parts|
  {
    parts[k] == Sign('+') || parts[k] == Sign('-') ==> k > 0 && (parts[k - 1].Of? || parts[k - 1] == Sign(')'))
  }

  /** A part is a token that prints as itself. */
  lemma {:induction false} PartIsOwn(part: Part)
    requires IsPart(part)
    ensures var t := TokenOf(part);
            && IsKnown(t) && Figure(t, map[]).None? && Substituted(t, map[]) == t
            && TokenText(t, map[], BASE_LABEL) == TextOf(part) && !IsFunctionToken(t)
  {
    if part.Of? {
      LabelNames(part.key);
    }
  }

  lemma {:induction false} PrintsSpaced(parts: seq<Part>, k: nat)
    requires k <= |parts| && forall j :: 0 <= j < |parts| ==> IsPart(parts[j]) && IsBinary(parts, j)
    ensures var prev := if k == 0 then None else Some(TokenOf(parts[k - 1]));
            RenderFrom(TokensOf(parts)[k..], map[], prev, false, BASE_LABEL)
            == Spaced(parts[k..], k == 0 || parts[k - 1] == Sign('('))
    decreases |parts| - k
  {
    if k < |parts| {
      PartIsOwn(parts[k]);
      if k > 0 {
        PartIsOwn(parts[k - 1]);
      }
      assert IsBinary(parts, k);
      assert TokensOf(parts)[k..][1..] == TokensOf(parts)[k + 1..] && parts[k..][1..] == parts[k + 1..];
      PrintsSpaced(parts, k + 1);
    }
  }

  lemma {:induction false} PrintsWhole(ts: seq<Token>, open: Brackets, afterFunction: bool)
    requires forall i :: 0 <= i < |ts| ==> Figure(ts[i], map[]).None?
    ensures FiguresPrintWhole(ts, map[], open, afterFunction)
  {
    if ts != [] {
      PrintsWhole(ts[1..], Opened(ts[0], open, afterFunction), IsFunctionToken(ts[0]));
    }
  }

  /** Spaced parts read back as their tokens, and print as they are. */
  lemma {:induction false} SpacedReads(parts: seq<Part>)
    requires forall j :: 0 <= j < |parts| ==> IsPart(parts[j]) && IsBinary(parts, j)
    ensures Tokens(Spaced(parts, true)) == Ok(TokensOf(parts))
    ensures RenderFormula(Spaced(parts, true), map[]) == Ok(Spaced(parts, true))
  {
    var ts := TokensOf(parts);
    forall i | 0 <= i < |ts|
      ensures IsKnown(ts[i]) && Figure(ts[i], map[]).None? && Substituted(ts[i], map[]) == ts[i]
    {
      PartIsOwn(parts[i]);
    }
    assert ts[0..] == ts && parts[0..] == parts;
    PrintsSpaced(parts, 0);
    CollapseRendered(ts, map[], None, false);
    LexRendered(ts, map[], None, false, [], false);
    PrintsWhole(ts, [], false);
    RereadKeeps(ts, map[], [], false);
    assert SubstitutedAll(ts, map[]) == ts;
  }

  // ----- the stored text -----

  const STARTER_PARTS: seq<Part> :=
    [Of(Base), Sign('+'),
     Sign('('), Of(N), Sign('-'), Of(RefN), Sign(')'), Sign('*'), Of(PerStop), Sign('+'),
     Sign('('), Sign('('), Of(C), Sign('-'), Of(RefC), Sign(')'), Sign('/'), Of(KgStep), Sign(')'), Sign('*'), Of(PerKg)]

  /** Base price + (N − refN) × perStop + ((C − refC) / kgStep) × perKg */
  predicate IsDefaultFormula(formula: string, parts: seq<Part>) {
    parts == STARTER_PARTS && formula == Spaced(parts, true)
  }

  function NamesBy(name: Key -> string): Names {
    Names(Name(name(Base)), Name(name(N)), Name(name(C)), Name(name(RefN)), Name(name(RefC)),
          Name(name(PerStop)), Name(name(PerKg)), Name(name(KgStep)))
  }

  lemma {:induction false} StarterYields(name: Key -> string)
    ensures Yield(Starter(NamesBy(name)))
         == [Id(name(Base)), Op('+'),
             Op('('), Id(name(N)), Op('-'), Id(name(RefN)), Op(')'), Op('*'), Id(name(PerStop)), Op('+'),
             Op('('), Op('('), Id(name(C)), Op('-'), Id(name(RefC)), Op(')'), Op('/'), Id(name(KgStep)), Op(')'),
             Op('*'), Id(name(PerKg))]
  {
    var x := NamesBy(name);
    var stops, load := Group(Sum('-', x.n, x.refN)), Group(Sum('-', x.c, x.refC));
    assert Yield(Sum('-', x.n, x.refN)) == [Id(name(N)), Op('-'), Id(name(RefN))];
    assert Yield(Sum('-', x.c, x.refC)) == [Id(name(C)), Op('-'), Id(name(RefC))];
    assert Yield(StopsTree(x)) == Yield(stops) + [Op('*'), Id(name(PerStop))];
    assert Yield(Tree.Product(Over, load, x.kgStep)) == Yield(load) + [Op('/'), Id(name(KgStep))];
    assert Yield(LoadTree(x))
        == [Op('('), Op('('), Id(name(C)), Op('-'), Id(name(RefC)), Op(')'), Op('/'), Id(name(KgStep)), Op(')'),
            Op('*'), Id(name(PerKg))];
    assert Yield(Sum('+', x.base, StopsTree(x)))
        == [Id(name(Base)), Op('+'), Op('('), Id(name(N)), Op('-'), Id(name(RefN)), Op(')'), Op('*'), Id(name(PerStop))];
  }

  lemma {:induction false} StarterPartsAre(parts: seq<Part>)
    requires parts == STARTER_PARTS
    ensures forall j :: 0 <= j < |parts| ==> IsPart(parts[j]) && IsBinary(parts, j)
    ensures |parts| == 21
  {
  }

  /** Piece by piece the text is the source's. */
  lemma {:induction false} StarterSpells(parts: seq<Part>, k: nat)
    requires parts == STARTER_PARTS && k < |parts|
    ensures TextOf(parts[k])
         == ["Base price", "+", "(", "N", "−", "refN", ")", "×", "perStop", "+",
             "(", "(", "C", "−", "refC", ")", "/", "kgStep", ")", "×", "perKg"][k]
  {
  }

  lemma {:induction false} StarterTokens(parts: seq<Part>, name: Key -> string)
    requires parts == STARTER_PARTS && forall key :: name(key) == Label(key, "base")
    ensures TokensOf(parts) == Yield(Starter(NamesBy(name)))
  {
    StarterYields(name);
  }

  lemma {:induction false} SpacedIsShort(parts: seq<Part>, tight: bool)
    ensures |Spaced(parts, tight)| <= 11 * |parts|
  {
    if parts != [] {
      SpacedIsShort(parts[1..], parts[0] == Sign('('));
    }
  }

  /** The starter's text reads as its tree, and prints as itself. */
  lemma {:induction false} DefaultReads(formula: string, parts: seq<Part>, name: Key -> string)
    requires IsDefaultFormula(formula, parts) && forall key :: name(key) == Label(key, "base")
    ensures AreNames(NamesBy(name)) && Tokens(formula) == Ok(Yield(Starter(NamesBy(name))))
    ensures |formula| <= MAX_FORMULA_LENGTH && RenderFormula(formula, map[]) == Ok(formula)
  {
    forall key
      ensures StandsFor(Name(name(key)), key)
    {
      LabelNames(key);
      NameStandsFor(name(key), key);
    }
    StarterPartsAre(parts);
    StarterTokens(parts, name);
    SpacedReads(parts);
    SpacedIsShort(parts, true);
  }

  /**
   * Every product is priced from the starter formula as the price list says,
   * and one with no load step is refused for a division by zero.
   */
  lemma {:induction false} DefaultPrices(
    product: Product, stops: nat, capacityKg: nat, travelHeightM: Decimal, formula: string, parts: seq<Part>)
    requires IsDefaultFormula(formula, parts)
    ensures ComputeProductPrice(product, stops, capacityKg, travelHeightM, formula) == PartsOf(product, stops, capacityKg)
  {
    var name := (key: Key) => Label(key, "base");
    DefaultReads(formula, parts, name);
    StarterPrices(product, stops, capacityKg, travelHeightM, NamesBy(name), formula);
  }
}
