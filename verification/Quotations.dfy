/**
 * What a quotation says, told from the request, the lift the table picks, the
 * product and the settings: which figures the formula is given, which formula,
 * what is printed of the price and of the machine, and which requests get one.
 */
module Quotations {
  import opened Wrappers
  import opened Text
  import opened Decimals
  import opened Rounding
  import opened FormulaLexer
  import opened FormulaGrammar
  import opened FormulaEvaluator
  import opened FormulaNames
  import opened Calculator
  import opened StarterFormula

  // ----- the figures a formula is given -----

  /** The values of the names while this product is priced at these figures. */
  ghost predicate Gives(scope: Scope, product: Product, stops: nat, kg: nat, rise: real) {
    && ValueOf(scope(Base)) == ValueOf(product.basePriceEtb)
    && ValueOf(scope(PerStop)) == ValueOf(product.perStopEtb) && ValueOf(scope(PerKg)) == ValueOf(product.perKgEtb)
    && ValueOf(scope(RefN)) == product.refStops as real && ValueOf(scope(RefC)) == product.refCapacityKg as real
    && ValueOf(scope(KgStep)) == product.kgStep as real
    && ValueOf(scope(N)) == stops as real && ValueOf(scope(C)) == kg as real && ValueOf(scope(Rise)) == rise
  }

  /** Only the values of the names matter, and the rise's only where a name for it occurs. */
  lemma {:induction false} SameFigures(formula: string, s: Scope, s': Scope)
    requires forall k :: ValueOf(s(k)) == ValueOf(s'(k)) || (k == Rise && !FormulaUsesRise(formula))
    ensures EvaluateFormula(formula, s) == EvaluateFormula(formula, s')
  {
    var lexed := Tokens(formula);
    if lexed.Ok? {
      var ts := lexed.value;
      forall i | 0 <= i < |ts|
        ensures SameToken(ts[i], s, ts[i], s')
      {
        assert ts[i] in ts;
      }
      SameRun(ts, s, ts, s');
    }
  }

  predicate IsRiseName(name: string) {
    var lower := Lower(name);
    lower == "rise" || lower == "travel" || lower == "height" || lower == "h"
  }

  lemma {:induction false} RiseNames(lower: string)
    ensures Alias(lower) == Some(Rise) <==> lower == "rise" || lower == "travel" || lower == "height" || lower == "h"
  {
  }

  /** The formula uses the rise exactly when one of its names occurs in it. */
  lemma {:induction false} UsesRiseIff(formula: string)
    ensures FormulaUsesRise(formula) <==>
              Tokens(formula).Ok? && exists t <- Tokens(formula).value :: t.Id? && IsRiseName(t.name)
  {
    forall t: Token
      ensures NamesRise(t) <==> t.Id? && IsRiseName(t.name)
    {
      if t.Id? {
        RiseNames(Lower(t.name));
      }
    }
  }

  // ----- what a request is a machine of -----

  /** The product's own formula if it has one, else the tenant's. */
  predicate IsApplied(text: string, product: Product, settings: Settings) {
    if product.formula.Some? then product.formula.value == text else settings.formula == text
  }

  /**
   * The stops, the load and the rise that are priced. The shaft and the floors
   * of a standard request pick the lift; any other request types its figures, an
   * escalator no load, and only a formula on the rise is given a rise typed.
   */
  predicate Sells(r: CalcRequest, table: PassengerTable, text: string, stops: nat, kg: nat, rise: real) {
    if IsStandard(r) then
      && stops == r.floors.value && kg == table(r.shaftWidthMm.value, r.shaftDepthMm.value).loadKg
      && rise == 3.5 * stops as real
    else
      && r.stops == Some(stops)
      && (if r.productType == "ESCALATOR" then kg == 0 else r.capacityKg == Some(kg))
      && rise == if FormulaUsesRise(text) && r.travelHeightM.Some? then ValueOf(r.travelHeightM.value) else 3.5 * stops as real
  }

  /** A standard request: a passenger-class product, its shaft and its floors. */
  lemma {:induction false} IsStandardIff(r: CalcRequest)
    ensures var t := r.productType;
            IsStandard(r) <==>
              && (t == "PASSENGER" || t == "HOSPITAL" || t == "PANORAMIC" || t == "HOME" || t == "CARGO")
              && r.shaftWidthMm.Some? && r.shaftDepthMm.Some? && r.floors.Some?
  {
  }

  lemma {:induction false} OnlyEscalatorsHaveNoLoad(productType: string)
    ensures VehicleOf(productType).Some? && !VehicleOf(productType).value.ratedLoad <==> productType == "ESCALATOR"
  {
  }

  lemma {:induction false} FloorsTravelIs(stops: nat)
    ensures ValueOf(FloorsTravel(stops)) == 3.5 * stops as real
  {
    TravelIsThreeAndAHalf(stops);
  }

  lemma {:induction false} MachineSells(
    r: CalcRequest, table: PassengerTable, product: Product, settings: Settings, text: string, stops: nat, kg: nat, rise: real)
    requires IsApplied(text, product, settings) && MachineOf(r, table, product, settings).Ok? && Sells(r, table, text, stops, kg, rise)
    ensures var m := MachineOf(r, table, product, settings).value;
            m.stops == stops && m.pricedKg == kg && (FormulaUsesRise(text) ==> ValueOf(m.travelHeightM) == rise)
  {
    FloorsTravelIs(stops);
    OnlyEscalatorsHaveNoLoad(r.productType);
  }

  // ----- what is printed of the price -----

  /** The list price without the VAT in it, to the cent; the margin on that, and the tax on both. */
  datatype Marks = Marks(net: real, margin: real, tax: real)

  function MarksOf(list: real, settings: Settings, r: CalcRequest): Marks
    requires IsSettings(settings)
  {
    var vat := settings.priceListVatPercent;
    var net := if vat.None? || vat.value == 0.0 then list else Cents(list / (1.0 + vat.value / 100.0)) as real / 100.0;
    var margin := Multiplied(net, r.marginPercent / 100.0);
    Marks(net, margin, Multiplied(net + margin, r.taxPercent / 100.0))
  }

  /** The breakdown of a list price: its parts, the VAT in it, and its marks. */
  function Breakdown(base: real, atReference: real, list: real, marks: Marks, settings: Settings): Pricing {
    var Marks(net, margin, tax) := marks;
    var vat := settings.priceListVatPercent;
    Pricing(Cents(base), Cents(atReference - base), Cents(list - atReference),
            if vat.None? || vat.value == 0.0 then None else Some(Cents(list - net)),
            Cents(net), Cents(margin), Cents(net + margin), Cents(tax), Cents(net + margin + tax))
  }

  lemma {:induction false} BreaksDown(
    price: ProductPrice, settings: Settings, r: CalcRequest, base: real, atReference: real, list: real)
    requires IsSettings(settings)
    requires price.basePrice == base && base + price.stopsAdjustment == atReference && price.ListPrice() == list
    ensures PriceBreakdown(price, settings.priceListVatPercent, r.marginPercent, r.taxPercent)
         == Breakdown(base, atReference, list, MarksOf(list, settings, r), settings)
  {
  }

  // ----- the price of a request -----

  lemma {:induction false} ScopeGives(product: Product, stops: nat, kg: nat, travel: Decimal)
    ensures Gives(ScopeOf(product, stops, kg, travel), product, stops, kg, ValueOf(travel))
  {
    NaturalValue(stops);
    NaturalValue(kg);
    NaturalValue(product.refStops);
    NaturalValue(product.refCapacityKg);
    NaturalValue(product.kgStep);
  }

  lemma {:induction false} GivesTheSame(text: string, s: Scope, s': Scope, product: Product, stops: nat, kg: nat, rise: real, rise': real)
    requires Gives(s, product, stops, kg, rise) && Gives(s', product, stops, kg, rise') && (FormulaUsesRise(text) ==> rise == rise')
    ensures EvaluateFormula(text, s) == EvaluateFormula(text, s')
  {
    forall k
      ensures ValueOf(s(k)) == ValueOf(s'(k)) || (k == Rise && !FormulaUsesRise(text))
    {
    }
    SameFigures(text, s, s');
  }

  /** The machine's own scope gives the figures that are priced. */
  lemma {:induction false} MachineScope(
    product: Product, m: Machine, text: string, scope: Scope, stops: nat, kg: nat, rise: real)
    requires m.stops == stops && (FormulaUsesRise(text) ==> ValueOf(m.travelHeightM) == rise)
    requires Gives(scope, product, stops, kg, rise)
    ensures EvaluateFormula(text, ScopeOf(product, m.stops, kg, m.travelHeightM)) == EvaluateFormula(text, scope)
  {
    ScopeGives(product, stops, kg, m.travelHeightM);
    GivesTheSame(text, ScopeOf(product, stops, kg, m.travelHeightM), scope, product, stops, kg, ValueOf(m.travelHeightM), rise);
  }

  /** What the applied formula gives at these figures, and at the product's reference load. */
  lemma {:induction false} MachineIsPriced(
    r: CalcRequest, table: PassengerTable, product: Product, settings: Settings, text: string,
    stops: nat, kg: nat, rise: real, scope: Scope, reference: Scope)
    requires IsApplied(text, product, settings) && Sells(r, table, text, stops, kg, rise)
    requires Gives(scope, product, stops, kg, rise) && Gives(reference, product, stops, product.refCapacityKg, rise)
    requires MachineOf(r, table, product, settings).Ok?
    ensures var m := MachineOf(r, table, product, settings).value;
            ComputeProductPrice(product, m.stops, m.pricedKg, m.travelHeightM, AppliedFormula(product, settings))
            == PriceOf(ValueOf(product.basePriceEtb), EvaluateFormula(text, scope), EvaluateFormula(text, reference))
  {
    var m := MachineOf(r, table, product, settings).value;
    MachineSells(r, table, product, settings, text, stops, kg, rise);
    MachineScope(product, m, text, scope, stops, kg, rise);
    MachineScope(product, m, text, reference, stops, product.refCapacityKg, rise);
  }

  /** A list price can be quoted: the formula has values, and the machine's is not negative. */
  predicate IsQuotable(list: Valued, atReference: Valued) {
    list.Ok? && atReference.Ok? && list.value >= 0.0
  }

  lemma {:induction false} PriceOfIs(base: real, list: Valued, atReference: Valued)
    ensures PriceOf(base, list, atReference).Ok? <==> list.Ok? && atReference.Ok?
    ensures list.Ok? && atReference.Ok? ==>
              var price := PriceOf(base, list, atReference).value;
              && price.basePrice == base && price.basePrice + price.stopsAdjustment == atReference.value && price.ListPrice() == list.value
  {
  }

  lemma {:induction false} MachinePrints(r: CalcRequest, m: Machine, product: Product, settings: Settings, pricing: Pricing)
    requires IsSettings(settings) && PriceMachine(r, m, product, settings) == Ok(pricing)
    ensures var computed := ComputeProductPrice(product, m.stops, m.pricedKg, m.travelHeightM, AppliedFormula(product, settings));
            && computed.Ok? && computed.value.ListPrice() >= 0.0
            && pricing == PriceBreakdown(computed.value, settings.priceListVatPercent, r.marginPercent, r.taxPercent)
  {
  }

  lemma {:induction false} SpecsAre(r: CalcRequest, table: PassengerTable, product: Product, settings: Settings, c: CalcResult)
    requires IsSettings(settings) && CalculateSpecs(r, table, Some(product), settings) == Ok(c)
    ensures MachineOf(r, table, product, settings) == Ok(c.machine) && PriceMachine(r, c.machine, product, settings) == Ok(c.pricing)
  {
  }

  /** What is printed of two values of a formula. */
  lemma {:induction false} PrintsPrice(
    r: CalcRequest, table: PassengerTable, product: Product, settings: Settings, base: real, list: Valued, atReference: Valued,
    c: CalcResult)
    requires IsSettings(settings) && CalculateSpecs(r, table, Some(product), settings) == Ok(c)
    requires MachineOf(r, table, product, settings).Ok? ==>
               var m := MachineOf(r, table, product, settings).value;
               ComputeProductPrice(product, m.stops, m.pricedKg, m.travelHeightM, AppliedFormula(product, settings))
               == PriceOf(base, list, atReference)
    ensures IsQuotable(list, atReference)
    ensures c.pricing == Breakdown(base, atReference.value, list.value, MarksOf(list.value, settings, r), settings)
  {
    SpecsAre(r, table, product, settings, c);
    MachinePrints(r, c.machine, product, settings, c.pricing);
    PriceOfIs(base, list, atReference);
    BreaksDown(PriceOf(base, list, atReference).value, settings, r, base, atReference.value, list.value);
  }

  /**
   * A quotation prints the breakdown of what the applied formula gives for the
   * stops, the load and the rise of the machine sold, and of what it gives at the
   * product's reference load.
   */
  lemma {:induction false} QuotedAs(
    r: CalcRequest, table: PassengerTable, product: Product, settings: Settings, text: string,
    stops: nat, kg: nat, rise: real, scope: Scope, reference: Scope, c: CalcResult)
    requires IsSettings(settings) && IsApplied(text, product, settings) && Sells(r, table, text, stops, kg, rise)
    requires Gives(scope, product, stops, kg, rise) && Gives(reference, product, stops, product.refCapacityKg, rise)
    requires CalculateSpecs(r, table, Some(product), settings) == Ok(c)
    ensures IsQuotable(EvaluateFormula(text, scope), EvaluateFormula(text, reference))
    ensures var list := EvaluateFormula(text, scope).value;
            c.pricing == Breakdown(ValueOf(product.basePriceEtb), EvaluateFormula(text, reference).value, list,
                                   MarksOf(list, settings, r), settings)
  {
    if MachineOf(r, table, product, settings).Ok? {
      MachineIsPriced(r, table, product, settings, text, stops, kg, rise, scope, reference);
    }
    PrintsPrice(r, table, product, settings,
      ValueOf(product.basePriceEtb), EvaluateFormula(text, scope), EvaluateFormula(text, reference), c);
  }

  // ----- the starter formula's price -----

  /** base + (stops − refStops) × perStop, and then + (kg − refCapacityKg) / kgStep × perKg. */
  function AtReference(product: Product, stops: nat): real {
    ValueOf(product.basePriceEtb) + (stops as real - product.refStops as real) * ValueOf(product.perStopEtb)
  }

  function SheetPrice(product: Product, stops: nat, kg: nat): real
    requires product.kgStep > 0
  {
    AtReference(product, stops) + (kg as real - product.refCapacityKg as real) / product.kgStep as real * ValueOf(product.perKgEtb)
  }

  lemma {:induction false} StarterMachine(
    r: CalcRequest, table: PassengerTable, product: Product, settings: Settings, text: string, parts: seq<Part>,
    stops: nat, kg: nat, rise: real)
    requires IsApplied(text, product, settings) && IsDefaultFormula(text, parts) && Sells(r, table, text, stops, kg, rise)
    requires MachineOf(r, table, product, settings).Ok?
    ensures var m := MachineOf(r, table, product, settings).value;
            ComputeProductPrice(product, m.stops, m.pricedKg, m.travelHeightM, AppliedFormula(product, settings))
            == PartsOf(product, stops, kg)
  {
    var m := MachineOf(r, table, product, settings).value;
    MachineSells(r, table, product, settings, text, stops, kg, rise);
    DefaultPrices(product, m.stops, m.pricedKg, m.travelHeightM, text, parts);
  }

  /**
   * Under the starter formula a quotation's list price is the price list's: the
   * base, the rate for every stop over the product's own, and the rate for every
   * load step over its own load, at the floors and the load of the table's lift or
   * at the stops and the load typed.
   */
  lemma {:induction false} StarterQuotes(
    r: CalcRequest, table: PassengerTable, product: Product, settings: Settings, text: string, parts: seq<Part>,
    stops: nat, kg: nat, rise: real, c: CalcResult)
    requires IsSettings(settings) && IsApplied(text, product, settings) && IsDefaultFormula(text, parts)
    requires Sells(r, table, text, stops, kg, rise)
    requires CalculateSpecs(r, table, Some(product), settings) == Ok(c)
    ensures product.kgStep > 0 && SheetPrice(product, stops, kg) >= 0.0
    ensures c.pricing == Breakdown(ValueOf(product.basePriceEtb), AtReference(product, stops), SheetPrice(product, stops, kg),
                                   MarksOf(SheetPrice(product, stops, kg), settings, r), settings)
  {
    if MachineOf(r, table, product, settings).Ok? {
      StarterMachine(r, table, product, settings, text, parts, stops, kg, rise);
    }
    PrintsParts(r, table, product, settings, stops, kg, c);
  }

  lemma {:induction false} PrintsParts(
    r: CalcRequest, table: PassengerTable, product: Product, settings: Settings, stops: nat, kg: nat, c: CalcResult)
    requires IsSettings(settings) && CalculateSpecs(r, table, Some(product), settings) == Ok(c)
    requires MachineOf(r, table, product, settings).Ok? ==>
               var m := MachineOf(r, table, product, settings).value;
               ComputeProductPrice(product, m.stops, m.pricedKg, m.travelHeightM, AppliedFormula(product, settings))
               == PartsOf(product, stops, kg)
    ensures product.kgStep > 0 && SheetPrice(product, stops, kg) >= 0.0
    ensures c.pricing == Breakdown(ValueOf(product.basePriceEtb), AtReference(product, stops), SheetPrice(product, stops, kg),
                                   MarksOf(SheetPrice(product, stops, kg), settings, r), settings)
  {
    SheetIs(product, stops, kg);
    PrintsPrice(r, table, product, settings, ValueOf(product.basePriceEtb),
      ListPriceOf(product, stops, kg), ListPriceOf(product, stops, product.refCapacityKg), c);
  }

  /** The price list's own figures. */
  lemma {:induction false} SheetIs(product: Product, stops: nat, kg: nat)
    ensures PartsOf(product, stops, kg) == PriceOf(ValueOf(product.basePriceEtb), ListPriceOf(product, stops, kg),
                                                   ListPriceOf(product, stops, product.refCapacityKg))
    ensures product.kgStep == 0 ==> ListPriceOf(product, stops, kg).Err?
    ensures product.kgStep > 0 ==> ListPriceOf(product, stops, kg) == Ok(SheetPrice(product, stops, kg))
    ensures product.kgStep > 0 ==> ListPriceOf(product, stops, product.refCapacityKg) == Ok(AtReference(product, stops))
  {
    ListSplits(product, stops, kg);
    if product.kgStep > 0 {
      SheetPriceIs(product, stops, kg);
      SheetPriceIs(product, stops, product.refCapacityKg);
      AtReferenceIs(product, stops);
    }
  }

  lemma {:induction false} SheetPriceIs(product: Product, stops: nat, kg: nat)
    requires product.kgStep > 0
    ensures ListPriceOf(product, stops, kg) == Ok(SheetPrice(product, stops, kg))
  {
  }

  lemma {:induction false} AtReferenceIs(product: Product, stops: nat)
    requires product.kgStep > 0
    ensures SheetPrice(product, stops, product.refCapacityKg) == AtReference(product, stops)
  {
  }

  // ----- which requests get a quotation -----

  /** A whole car, typed or the table's: both its sides, and no height without them. */
  predicate IsWholeCar(r: CalcRequest, lift: PassengerLift) {
    var wide, deep := r.typed.carWidthMm.Some? || lift.carWidthMm.Some?, r.typed.carDepthMm.Some? || lift.carDepthMm.Some?;
    (wide <==> deep) && (r.typed.carHeightMm.Some? ==> wide)
  }

  predicate IsVehicle(productType: string) {
    || productType == "ESCALATOR" || productType == "CAR_LIFT" || productType == "CAR_STACKING_LIFT"
    || productType == "CAR_PLATFORM_LIFT"
  }

  /** Every figure a request without a standard lift has to give. */
  predicate GivesEverything(r: CalcRequest) {
    var t := r.productType;
    && r.stops.Some? && r.speedMs.Some?
    && (t != "ESCALATOR" ==> r.capacityKg.Some?)
    && (t != "ESCALATOR" && t != "CAR_STACKING_LIFT" ==> r.doorType.Some? && r.doorWidthMm.Some?)
    && (IsVehicle(t) ==> r.shaftWidthMm.Some? && (t != "ESCALATOR" ==> r.shaftDepthMm.Some?))
  }

  /** What the company's specification allows of the shaft, */
  predicate IsWideEnough(r: CalcRequest)
    requires GivesEverything(r)
  {
    var t := r.productType;
    && (t == "ESCALATOR" ==> r.shaftWidthMm.value >= 1000) && (t == "CAR_LIFT" ==> r.shaftWidthMm.value >= 3400)
    && (t == "CAR_STACKING_LIFT" || t == "CAR_PLATFORM_LIFT" ==> r.shaftWidthMm.value >= 2000)
  }

  predicate IsDeepEnough(r: CalcRequest)
    requires GivesEverything(r)
  {
    var t := r.productType;
    && (t == "CAR_LIFT" ==> r.shaftDepthMm.value >= 6500)
    && (t == "CAR_STACKING_LIFT" || t == "CAR_PLATFORM_LIFT" ==> r.shaftDepthMm.value >= 5000)
  }

  /** of the speed, */
  predicate IsInSpeed(r: CalcRequest)
    requires GivesEverything(r)
  {
    var t, v := r.productType, r.speedMs.value;
    && (t == "ESCALATOR" ==> 0.5 <= v <= 0.65) && (t == "CAR_LIFT" ==> 0.3 <= v <= 0.5)
    && (t == "CAR_STACKING_LIFT" ==> 0.08 <= v <= 0.15) && (t == "CAR_PLATFORM_LIFT" ==> 0.15 <= v <= 0.3)
  }

  /** and of the door. */
  predicate FitsItsDoor(r: CalcRequest)
    requires GivesEverything(r)
  {
    && (r.productType == "CAR_LIFT" ==> 2600 <= r.doorWidthMm.value <= 2800)
    && (r.productType == "CAR_PLATFORM_LIFT" ==> 2400 <= r.doorWidthMm.value <= 2800)
  }

  predicate IsSpecified(r: CalcRequest)
    requires GivesEverything(r)
  {
    IsWideEnough(r) && IsDeepEnough(r) && IsInSpeed(r) && FitsItsDoor(r)
  }

  /** The request names a machine the company sells. */
  predicate IsComplete(r: CalcRequest, table: PassengerTable) {
    if IsStandard(r) then IsWholeCar(r, table(r.shaftWidthMm.value, r.shaftDepthMm.value))
    else GivesEverything(r) && IsSpecified(r)
  }

  /** The load that is priced. */
  function LoadOf(r: CalcRequest, table: PassengerTable): nat {
    if IsStandard(r) then table(r.shaftWidthMm.value, r.shaftDepthMm.value).loadKg
    else if r.productType == "ESCALATOR" || r.capacityKg.None? then 0
    else r.capacityKg.value
  }

  lemma {:induction false} StandardIff(r: CalcRequest, table: PassengerTable, product: Product, settings: Settings)
    requires IsStandard(r)
    ensures VehicleOf(r.productType).None?
    ensures MachineOf(r, table, product, settings).Ok? <==> IsComplete(r, table)
    ensures IsComplete(r, table) ==> MachineOf(r, table, product, settings).value.pricedKg == LoadOf(r, table)
  {
    TableIsNoVehicle(r.productType);
  }

  /** The specification's bounds, as the vehicle's row has them. */
  lemma {:induction false} VehicleIs(r: CalcRequest)
    ensures GivesEverything(r) <==> !IsMissingFigures(r)
    ensures GivesEverything(r) ==>
              var vehicle := VehicleOf(r.productType);
              && (IsWideEnough(r) <==> vehicle.Some? ==> r.shaftWidthMm.value >= vehicle.value.minWidth)
              && (IsDeepEnough(r) <==> vehicle.Some? && vehicle.value.minDepth.Some? ==>
                    r.shaftDepthMm.value >= vehicle.value.minDepth.value)
              && (IsInSpeed(r) <==> vehicle.Some? ==> vehicle.value.speed.min <= r.speedMs.value <= vehicle.value.speed.max)
              && (FitsItsDoor(r) <==> vehicle.Some? && vehicle.value.door.Some? ==>
                    vehicle.value.door.value.min <= r.doorWidthMm.value <= vehicle.value.door.value.max)
  {
  }

  lemma {:induction false} ClassicIff(r: CalcRequest, table: PassengerTable, product: Product, settings: Settings)
    requires !IsStandard(r)
    ensures var m := MachineOf(r, table, product, settings);
            var light := product.minCapacityKg.Some? && LoadOf(r, table) < product.minCapacityKg.value;
            m.Ok? && Refusal(r, m.value, product).None? <==> IsComplete(r, table) && !light
  {
    VehicleIs(r);
    OnlyEscalatorsHaveNoLoad(r.productType);
  }

  lemma {:induction false} MachineIff(r: CalcRequest, table: PassengerTable, product: Product, settings: Settings)
    ensures var m := MachineOf(r, table, product, settings);
            var light := product.minCapacityKg.Some? && LoadOf(r, table) < product.minCapacityKg.value;
            m.Ok? && Refusal(r, m.value, product).None? <==> IsComplete(r, table) && !light
  {
    if IsStandard(r) {
      StandardIff(r, table, product, settings);
    } else {
      ClassicIff(r, table, product, settings);
    }
  }

  lemma {:induction false} SpecsIff(
    r: CalcRequest, table: PassengerTable, product: Product, settings: Settings, base: real, list: Valued, atReference: Valued)
    requires IsSettings(settings)
    requires MachineOf(r, table, product, settings).Ok? ==>
               var m := MachineOf(r, table, product, settings).value;
               ComputeProductPrice(product, m.stops, m.pricedKg, m.travelHeightM, AppliedFormula(product, settings))
               == PriceOf(base, list, atReference)
    ensures CalculateSpecs(r, table, Some(product), settings).Ok? <==>
            var m := MachineOf(r, table, product, settings);
            m.Ok? && Refusal(r, m.value, product).None? && IsQuotable(list, atReference)
  {
    PriceOfIs(base, list, atReference);
  }

  /**
   * A request is quoted exactly when it names a machine the company sells, no
   * lighter than the product is sold, and the applied formula has a value for it
   * that is not negative, and one at the product's reference load.
   */
  lemma {:induction false} QuotedIff(
    r: CalcRequest, table: PassengerTable, product: Product, settings: Settings, text: string,
    stops: nat, kg: nat, rise: real, scope: Scope, reference: Scope)
    requires IsSettings(settings) && IsApplied(text, product, settings)
    requires IsComplete(r, table) ==> Sells(r, table, text, stops, kg, rise)
    requires Gives(scope, product, stops, kg, rise) && Gives(reference, product, stops, product.refCapacityKg, rise)
    ensures CalculateSpecs(r, table, Some(product), settings).Ok? <==>
              && IsComplete(r, table) && (product.minCapacityKg.Some? ==> LoadOf(r, table) >= product.minCapacityKg.value)
              && IsQuotable(EvaluateFormula(text, scope), EvaluateFormula(text, reference))
    ensures CalculateSpecs(r, table, None, settings) == Err(UnknownProduct)
  {
    MachineIff(r, table, product, settings);
    if IsComplete(r, table) {
      if MachineOf(r, table, product, settings).Ok? {
        MachineIsPriced(r, table, product, settings, text, stops, kg, rise, scope, reference);
      }
      SpecsIff(r, table, product, settings, ValueOf(product.basePriceEtb), EvaluateFormula(text, scope), EvaluateFormula(text, reference));
    } else {
      RefusedIsRefused(r, table, product, settings);
    }
  }

  lemma {:induction false} RefusedIsRefused(r: CalcRequest, table: PassengerTable, product: Product, settings: Settings)
    requires IsSettings(settings)
    requires var m := MachineOf(r, table, product, settings); !(m.Ok? && Refusal(r, m.value, product).None?)
    ensures CalculateSpecs(r, table, Some(product), settings).Err?
  {
  }

  /** What a refusal says before anything is priced: the first thing in the way. */
  lemma {:induction false} RefusedAs(r: CalcRequest, table: PassengerTable, product: Product, settings: Settings)
    requires IsSettings(settings)
    requires !(IsComplete(r, table) && (product.minCapacityKg.Some? ==> LoadOf(r, table) >= product.minCapacityKg.value))
    ensures CalculateSpecs(r, table, Some(product), settings) == Err(
              if IsStandard(r) then
                (if IsComplete(r, table) then BelowMinimumCapacity else HalfACar)
              else if !GivesEverything(r) then MissingFigures
              else if !IsWideEnough(r) then ShaftTooNarrow
              else if !IsDeepEnough(r) then ShaftTooShallow
              else if product.minCapacityKg.Some? && LoadOf(r, table) < product.minCapacityKg.value then BelowMinimumCapacity
              else if !IsInSpeed(r) then SpeedOutside
              else DoorOutside)
  {
    if IsStandard(r) {
      StandardIff(r, table, product, settings);
    } else {
      VehicleIs(r);
      OnlyEscalatorsHaveNoLoad(r.productType);
    }
  }

  /** And what it says of the price: the formula's error, of the list price first, or that it is negative. */
  lemma {:induction false} UnpricedAs(
    r: CalcRequest, table: PassengerTable, product: Product, settings: Settings, text: string,
    stops: nat, kg: nat, rise: real, scope: Scope, reference: Scope)
    requires IsSettings(settings) && IsApplied(text, product, settings)
    requires IsComplete(r, table) && (product.minCapacityKg.Some? ==> LoadOf(r, table) >= product.minCapacityKg.value)
    requires Sells(r, table, text, stops, kg, rise)
    requires Gives(scope, product, stops, kg, rise) && Gives(reference, product, stops, product.refCapacityKg, rise)
    requires !IsQuotable(EvaluateFormula(text, scope), EvaluateFormula(text, reference))
    ensures var list, atReference := EvaluateFormula(text, scope), EvaluateFormula(text, reference);
            CalculateSpecs(r, table, Some(product), settings) == Err(
              if list.Err? then FormulaRefused(list.error)
              else if atReference.Err? then FormulaRefused(atReference.error)
              else NegativePrice)
  {
    MachineIff(r, table, product, settings);
    MachineIsPriced(r, table, product, settings, text, stops, kg, rise, scope, reference);
    UnpricedSays(r, table, product, settings, ValueOf(product.basePriceEtb), EvaluateFormula(text, scope), EvaluateFormula(text, reference));
  }

  lemma {:induction false} UnpricedSays(
    r: CalcRequest, table: PassengerTable, product: Product, settings: Settings, base: real, list: Valued, atReference: Valued)
    requires IsSettings(settings) && MachineOf(r, table, product, settings).Ok? && !IsQuotable(list, atReference)
    requires var m := MachineOf(r, table, product, settings).value;
             && Refusal(r, m, product).None?
             && ComputeProductPrice(product, m.stops, m.pricedKg, m.travelHeightM, AppliedFormula(product, settings))
                == PriceOf(base, list, atReference)
    ensures CalculateSpecs(r, table, Some(product), settings) == Err(
              if list.Err? then FormulaRefused(list.error)
              else if atReference.Err? then FormulaRefused(atReference.error)
              else NegativePrice)
  {
    PriceOfIs(base, list, atReference);
  }

  // ----- what is printed of the machine -----

  /** 1 m/s to ten floors, then 1.5 to fifteen, 1.75 to twenty, 2 to twenty-five and 2.5 beyond, but no more than the lift's own. */
  predicate IsTableSpeed(v: real, floors: nat, lift: PassengerLift) {
    && v <= lift.maxSpeedMs
    && (floors <= 10 ==> v <= 1.0) && (floors <= 15 ==> v <= 1.5) && (floors <= 20 ==> v <= 1.75) && (floors <= 25 ==> v <= 2.0)
    && v <= 2.5
    && (v < lift.maxSpeedMs ==>
          || (v == 2.5 && floors > 25) || (v == 2.0 && 20 < floors <= 25) || (v == 1.75 && 15 < floors <= 20)
          || (v == 1.5 && 10 < floors <= 15) || (v == 1.0 && floors <= 10))
  }

  function Typed<T>(typed: Option<T>, otherwise: T): T {
    if typed.Some? then typed.value else otherwise
  }

  /** A standard request prints the table's lift and what was typed over it, a head of 75 kg for a load typed. */
  lemma {:induction false} StandardPrints(
    r: CalcRequest, table: PassengerTable, product: Product, settings: Settings, m: Machine)
    requires IsStandard(r) && MachineOf(r, table, product, settings) == Ok(m)
    ensures var lift, floors, typed := table(r.shaftWidthMm.value, r.shaftDepthMm.value), r.floors.value, r.typed;
            && m.stops == floors && m.capacityKg == Typed(typed.capacityKg, lift.loadKg)
            && (typed.speedMs.Some? ==> m.speedMs == typed.speedMs.value)
            && (typed.speedMs.None? ==> IsTableSpeed(m.speedMs, floors, lift))
            && (typed.capacityPersons.Some? ==> m.capacityPersons == typed.capacityPersons)
            && (typed.capacityPersons.None? && typed.capacityKg.None? ==> m.capacityPersons == Some(lift.persons))
            && (typed.capacityPersons.None? && typed.capacityKg.Some? ==>
                  m.capacityPersons.Some? && 75 * m.capacityPersons.value <= typed.capacityKg.value < 75 * m.capacityPersons.value + 75)
            && (m.carWidthMm == if typed.carWidthMm.Some? then typed.carWidthMm else lift.carWidthMm)
            && (m.carDepthMm == if typed.carDepthMm.Some? then typed.carDepthMm else lift.carDepthMm)
            && m.carHeightMm == Some(Typed(typed.carHeightMm, 2400))
  {
    TableIsNoVehicle(r.productType);
  }

  /** Its door opens in the middle in a shaft wider than 1,550 mm, half of what 200 mm leave of it; else it swings and is the lift's. */
  lemma {:induction false} StandardDoor(r: CalcRequest, table: PassengerTable, product: Product, settings: Settings, m: Machine)
    requires IsStandard(r) && MachineOf(r, table, product, settings) == Ok(m)
    ensures var width := r.shaftWidthMm.value;
            if width > 1550 then m.doorType == CenterOpen && (2 * m.doorWidthMm == width - 200 || 2 * m.doorWidthMm + 1 == width - 200)
            else m.doorType == Swing && m.doorWidthMm == table(width, r.shaftDepthMm.value).doorWidthMm
  {
  }

  /** Any other request prints the figures it gives. */
  lemma {:induction false} ClassicPrints(
    r: CalcRequest, table: PassengerTable, product: Product, settings: Settings, m: Machine)
    requires !IsStandard(r) && MachineOf(r, table, product, settings) == Ok(m)
    ensures var t := r.productType;
            && r.stops == Some(m.stops) && r.speedMs == Some(m.speedMs)
            && (if t == "ESCALATOR" then m.capacityKg == 0 else r.capacityKg == Some(m.capacityKg))
            && (m.capacityPersons == if t == "ESCALATOR" then None else r.typed.capacityPersons)
  {
    OnlyEscalatorsHaveNoLoad(r.productType);
    VehicleIs(r);
  }

  /** Its door too, if the product has one, and no car. */
  lemma {:induction false} ClassicDoor(
    r: CalcRequest, table: PassengerTable, product: Product, settings: Settings, m: Machine)
    requires !IsStandard(r) && MachineOf(r, table, product, settings) == Ok(m)
    ensures var t := r.productType;
            && (if r.doorType.Some? then m.doorType == r.doorType.value else m.doorType == CenterOpen)
            && (if t == "ESCALATOR" || t == "CAR_STACKING_LIFT" then m.doorWidthMm == 0 else r.doorWidthMm == Some(m.doorWidthMm))
            && m.carWidthMm == None && m.carDepthMm == None && m.carHeightMm == None
  {
    DoorsAre(r.productType);
  }

  lemma {:induction false} DoorsAre(productType: string)
    ensures HasDoor(productType) <==> productType != "ESCALATOR" && productType != "CAR_STACKING_LIFT"
  {
  }

  /** The travel printed: what was typed over it, unless the formula is on the rise; else the machine's own. */
  lemma {:induction false} TravelPrints(
    r: CalcRequest, table: PassengerTable, product: Product, settings: Settings, text: string, m: Machine)
    requires IsApplied(text, product, settings) && MachineOf(r, table, product, settings) == Ok(m)
    ensures !FormulaUsesRise(text) && r.typed.travelHeightM.Some? ==> m.travelHeightM == r.typed.travelHeightM.value
    ensures FormulaUsesRise(text) && !IsStandard(r) && r.travelHeightM.Some? ==> m.travelHeightM == r.travelHeightM.value
    ensures (if FormulaUsesRise(text) then IsStandard(r) || r.travelHeightM.None? else r.typed.travelHeightM.None?) ==>
              ValueOf(m.travelHeightM) == 3.5 * m.stops as real
  {
    FloorsTravelIs(m.stops);
  }
}
