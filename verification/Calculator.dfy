/**
 * The pricing side of the elevator calculator: how a request is completed into
 * a machine, and what is priced of it. Typed overrides are printed, never priced.
 */
module Calculator {
  import opened Wrappers
  import opened Decimals
  import opened Rounding
  import opened FormulaLexer
  import opened FormulaGrammar
  import opened FormulaEvaluator
  import opened FormulaNames

  // ----- requests and products -----

  /** The seven figures a salesperson may type over what the calculator derives. */
  datatype Overrides = Overrides(
    capacityKg: Option<nat>,
    capacityPersons: Option<nat>,
    travelHeightM: Option<Decimal>,
    speedMs: Option<real>,
    carWidthMm: Option<nat>,
    carDepthMm: Option<nat>,
    carHeightMm: Option<nat>)

  datatype DoorType = CenterOpen | Telescopic | Swing

  datatype CalcRequest = CalcRequest(
    productType: string,
    marginPercent: real,
    taxPercent: real,
    shaftWidthMm: Option<nat>,
    shaftDepthMm: Option<nat>,
    floors: Option<nat>,
    capacityKg: Option<nat>,
    stops: Option<nat>,
    travelHeightM: Option<Decimal>,
    speedMs: Option<real>,
    doorType: Option<DoorType>,
    doorWidthMm: Option<nat>,
    typed: Overrides)

  datatype Product = Product(
    formula: Option<string>,
    basePriceEtb: Decimal,
    perStopEtb: Decimal,
    perKgEtb: Decimal,
    refStops: nat,
    refCapacityKg: nat,
    kgStep: nat,
    minCapacityKg: Option<nat>)

  /** The tenant's pricing settings; the percentage is one between 0 and 100. */
  datatype Settings = Settings(formula: string, priceListVatPercent: Option<real>)

  datatype Interval<T> = Interval(min: T, max: T)

  datatype VehicleSpec = VehicleSpec(
    speed: Interval<real>,
    door: Option<Interval<nat>>,
    minWidth: nat,
    minDepth: Option<nat>,
    ratedLoad: bool)

  function VehicleOf(productType: string): Option<VehicleSpec> {
    if productType == "ESCALATOR" then Some(VehicleSpec(Interval(0.5, 0.65), None, 1000, None, false))
    else if productType == "CAR_LIFT" then Some(VehicleSpec(Interval(0.3, 0.5), Some(Interval(2600, 2800)), 3400, Some(6500), true))
    else if productType == "CAR_STACKING_LIFT" then Some(VehicleSpec(Interval(0.08, 0.15), None, 2000, Some(5000), true))
    else if productType == "CAR_PLATFORM_LIFT" then
      Some(VehicleSpec(Interval(0.15, 0.3), Some(Interval(2400, 2800)), 2000, Some(5000), true))
    else None
  }

  predicate HasDoor(productType: string) {
    var vehicle := VehicleOf(productType);
    vehicle.None? || vehicle.value.door.Some?
  }

  predicate UsesPassengerTable(productType: string) {
    productType in ["PASSENGER", "HOSPITAL", "PANORAMIC", "HOME", "CARGO"]
  }

  /** A row of the company's table of standard lifts. */
  datatype PassengerLift = PassengerLift(
    persons: nat,
    loadKg: nat,
    maxSpeedMs: real,
    carWidthMm: Option<nat>,
    carDepthMm: Option<nat>,
    doorWidthMm: nat)

  /** The table: a lift for every shaft, by width and depth. */
  type PassengerTable = (nat, nat) -> PassengerLift

  const PASSENGER_CAR_HEIGHT_MM := 2400
  const CENTER_OPENING_ABOVE_MM := 1550

  function SpeedForFloors(floors: nat): real {
    if floors <= 10 then 1.0
    else if floors <= 15 then 1.5
    else if floors <= 20 then 1.75
    else if floors <= 25 then 2.0
    else 2.5
  }

  /** 3.5 metres a floor. */
  function FloorsTravel(floors: nat): Decimal {
    Decimal(false, Digits(7 * floors / 2), if floors % 2 == 1 then "5" else "")
  }

  /** Whole metres, and half a metre more. */
  lemma {:induction false} DecimalsOf(n: nat)
    ensures ValueOf(Decimal(false, Digits(n), "")) == n as real
    ensures ValueOf(Decimal(false, Digits(n), "5")) == n as real + 0.5
  {
    assert DigitsValue("5") == 5 by {
      assert "5"[..0] == "";
    }
    assert TenTo(1) == 10.0 * TenTo(0);
  }

  lemma {:induction false} Halved(floors: nat)
    ensures 7 * floors == 2 * (7 * floors / 2) + floors % 2
  {
    var half, odd, sevenfold := floors / 2, floors % 2, 7 * floors;
    assert sevenfold == 2 * (7 * half + 3 * odd) + odd;
    assert sevenfold / 2 == 7 * half + 3 * odd;
  }

  lemma {:induction false} TravelIsThreeAndAHalf(floors: nat)
    ensures 2.0 * ValueOf(FloorsTravel(floors)) == 7.0 * floors as real
  {
    var metres, odd := 7 * floors / 2, floors % 2;
    Halved(floors);
    assert ValueOf(FloorsTravel(floors)) == metres as real + (if odd == 1 then 0.5 else 0.0) by {
      DecimalsOf(metres);
    }
    Doubled(floors, metres, odd, ValueOf(FloorsTravel(floors)));
  }

  lemma {:induction false} Doubled(floors: nat, metres: nat, odd: nat, value: real)
    requires 7 * floors == 2 * metres + odd
    requires value == metres as real + (if odd == 1 then 0.5 else 0.0) && odd <= 1
    ensures 2.0 * value == 7.0 * floors as real
  {
    assert (7 * floors) as real == (2 * metres + odd) as real;
  }

  // ----- completing the request -----

  /** The machine a request stands for; `pricedKg` is the load of the machine sold. */
  datatype Machine = Machine(
    capacityKg: nat,
    capacityPersons: Option<nat>,
    stops: nat,
    travelHeightM: Decimal,
    speedMs: real,
    doorType: DoorType,
    doorWidthMm: nat,
    carWidthMm: Option<nat>,
    carDepthMm: Option<nat>,
    carHeightMm: Option<nat>,
    pricedKg: nat)

  datatype CalcError =
    | UnknownProduct
    | HalfACar
    | MissingFigures
    | ShaftTooNarrow
    | ShaftTooShallow
    | BelowMinimumCapacity
    | SpeedOutside
    | DoorOutside
    | FormulaRefused(cause: FormulaError)
    | NegativePrice

  function OrElse<T>(typed: Option<T>, derived: T): T {
    if typed.Some? then typed.value else derived
  }

  function OrIfNone<T>(typed: Option<T>, derived: Option<T>): Option<T> {
    if typed.Some? then typed else derived
  }

  function Lesser(a: real, b: real): real {
    if a <= b then a else b
  }

  /** A passenger-class request that gives the shaft and the floors. */
  predicate IsStandard(r: CalcRequest) {
    UsesPassengerTable(r.productType) && r.shaftWidthMm.Some? && r.shaftDepthMm.Some? && r.floors.Some?
  }

  /** The documents need a whole car: both sides, and no height without them. */
  predicate TypesHalfACar(r: CalcRequest, lift: PassengerLift) {
    var width, depth := OrIfNone(r.typed.carWidthMm, lift.carWidthMm), OrIfNone(r.typed.carDepthMm, lift.carDepthMm);
    width.None? != depth.None? || (width.None? && r.typed.carHeightMm.Some?)
  }

  function PassengerCapacity(capacityKg: nat): nat {
    capacityKg / 75
  }

  function ResolveStandard(r: CalcRequest, table: PassengerTable): Result<Machine, CalcError>
    requires IsStandard(r)
  {
    var lift, floors, typed := table(r.shaftWidthMm.value, r.shaftDepthMm.value), r.floors.value, r.typed;
    if TypesHalfACar(r, lift) then Err(HalfACar)
    else
      var wide := r.shaftWidthMm.value > CENTER_OPENING_ABOVE_MM;
      Ok(Machine(
        OrElse(typed.capacityKg, lift.loadKg),
        Some(if typed.capacityKg.Some? then PassengerCapacity(typed.capacityKg.value) else lift.persons),
        floors,
        FloorsTravel(floors),
        OrElse(typed.speedMs, Lesser(SpeedForFloors(floors), lift.maxSpeedMs)),
        if wide then CenterOpen else Swing,
        if wide then (r.shaftWidthMm.value - 200) / 2 else lift.doorWidthMm,
        OrIfNone(typed.carWidthMm, lift.carWidthMm),
        OrIfNone(typed.carDepthMm, lift.carDepthMm),
        Some(OrElse(typed.carHeightMm, PASSENGER_CAR_HEIGHT_MM)),
        lift.loadKg))
  }

  predicate IsMissingFigures(r: CalcRequest) {
    var vehicle := VehicleOf(r.productType);
    || r.stops.None? || r.speedMs.None?
    || (HasDoor(r.productType) && (r.doorType.None? || r.doorWidthMm.None?))
    || ((vehicle.None? || vehicle.value.ratedLoad) && r.capacityKg.None?)
    || (vehicle.Some? && r.shaftWidthMm.None?)
    || (vehicle.Some? && vehicle.value.minDepth.Some? && r.shaftDepthMm.None?)
  }

  /** Every figure typed; only a product priced on its rise keeps its own travel. */
  function ResolveClassic(r: CalcRequest, pricesOnRise: bool): Result<Machine, CalcError> {
    if IsMissingFigures(r) then Err(MissingFigures)
    else
      var vehicle := VehicleOf(r.productType);
      if vehicle.Some? && r.shaftWidthMm.value < vehicle.value.minWidth then Err(ShaftTooNarrow)
      else if vehicle.Some? && vehicle.value.minDepth.Some? && r.shaftDepthMm.value < vehicle.value.minDepth.value then
        Err(ShaftTooShallow)
      else
        var capacityKg := if vehicle.Some? && !vehicle.value.ratedLoad then 0 else r.capacityKg.value;
        Ok(Machine(
          capacityKg,
          None,
          r.stops.value,
          OrElse(if pricesOnRise then r.travelHeightM else None, FloorsTravel(r.stops.value)),
          r.speedMs.value,
          OrElse(r.doorType, CenterOpen),
          if HasDoor(r.productType) then r.doorWidthMm.value else 0,
          None, None, None,
          capacityKg))
  }

  function Resolve(r: CalcRequest, table: PassengerTable, pricesOnRise: bool): Result<Machine, CalcError> {
    if IsStandard(r) then ResolveStandard(r, table) else ResolveClassic(r, pricesOnRise)
  }

  /** The persons typed, on any product with a rated load. */
  function WithTypedPersons(r: CalcRequest, m: Machine): Machine {
    var vehicle := VehicleOf(r.productType);
    if r.typed.capacityPersons.None? || (vehicle.Some? && !vehicle.value.ratedLoad) then m
    else m.(capacityPersons := r.typed.capacityPersons)
  }

  /** The travel typed, on any product not priced on its rise. */
  function WithTypedTravel(r: CalcRequest, m: Machine, pricesOnRise: bool): Machine {
    if r.typed.travelHeightM.None? || pricesOnRise then m else m.(travelHeightM := r.typed.travelHeightM.value)
  }

  // ----- pricing the machine -----

  function AppliedFormula(product: Product, settings: Settings): string {
    OrElse(product.formula, settings.formula)
  }

  function ScopeOf(product: Product, stops: nat, capacityKg: nat, travelHeightM: Decimal): Scope {
    (k: Key) =>
      match k
      case Base => product.basePriceEtb
      case N => Natural(stops)
      case C => Natural(capacityKg)
      case PerStop => product.perStopEtb
      case PerKg => product.perKgEtb
      case RefN => Natural(product.refStops)
      case RefC => Natural(product.refCapacityKg)
      case KgStep => Natural(product.kgStep)
      case Rise => travelHeightM
  }

  /** What each part adds to the list price. */
  datatype ProductPrice = ProductPrice(basePrice: real, stopsAdjustment: real, capacityAdjustment: real) {
    function ListPrice(): real {
      basePrice + stopsAdjustment + capacityAdjustment
    }
  }

  function ComputeProductPrice(product: Product, stops: nat, capacityKg: nat, travelHeightM: Decimal, formula: string)
    : Result<ProductPrice, FormulaError>
  {
    PriceOf(
      ValueOf(product.basePriceEtb),
      EvaluateFormula(formula, ScopeOf(product, stops, capacityKg, travelHeightM)),
      EvaluateFormula(formula, ScopeOf(product, stops, product.refCapacityKg, travelHeightM)))
  }

  function PriceOf(basePrice: real, atCapacity: Valued, atReference: Valued): Result<ProductPrice, FormulaError> {
    var total :- atCapacity;
    var atReferenceCapacity :- atReference;
    Ok(ProductPrice(basePrice, atReferenceCapacity - basePrice, total - atReferenceCapacity))
  }

  /** The breakdown as printed, in cents. */
  datatype Pricing = Pricing(
    basePrice: int,
    stopsAdjustment: int,
    capacityAdjustment: int,
    listVatIncluded: Option<int>,
    totalBeforeMargin: int,
    marginAmount: int,
    subtotalWithMargin: int,
    taxAmount: int,
    totalPrice: int)

  /** The net of a gross list price: what the sheet says, divided by 1 + VAT, to the cent. */
  function NetOfList(listPrice: real, vatPercent: Option<real>): real
    requires vatPercent.Some? ==> vatPercent.value >= 0.0
  {
    if vatPercent.None? || vatPercent.value == 0.0 then listPrice
    else Cents(listPrice / (1.0 + vatPercent.value / 100.0)) as real / 100.0
  }

  function PriceBreakdown(price: ProductPrice, vatPercent: Option<real>, marginPercent: real, taxPercent: real): Pricing
    requires vatPercent.Some? ==> vatPercent.value >= 0.0
  {
    var list := price.ListPrice();
    var net := NetOfList(list, vatPercent);
    var margin := Multiplied(net, marginPercent / 100.0);
    var subtotal := net + margin;
    var tax := Multiplied(subtotal, taxPercent / 100.0);
    Pricing(
      Cents(price.basePrice), Cents(price.stopsAdjustment), Cents(price.capacityAdjustment),
      if vatPercent.None? || vatPercent.value == 0.0 then None else Some(Cents(list - net)),
      Cents(net), Cents(margin), Cents(subtotal), Cents(tax), Cents(subtotal + tax))
  }

  predicate IsSettings(settings: Settings) {
    settings.priceListVatPercent.Some? ==> 0.0 <= settings.priceListVatPercent.value <= 100.0
  }

  /** What is refused before pricing, once the machine is known. */
  function Refusal(r: CalcRequest, m: Machine, product: Product): Option<CalcError> {
    var vehicle := VehicleOf(r.productType);
    if product.minCapacityKg.Some? && m.pricedKg < product.minCapacityKg.value then Some(BelowMinimumCapacity)
    else if vehicle.Some? && !(vehicle.value.speed.min <= m.speedMs <= vehicle.value.speed.max) then Some(SpeedOutside)
    else if vehicle.Some? && vehicle.value.door.Some?
            && !(vehicle.value.door.value.min <= m.doorWidthMm <= vehicle.value.door.value.max) then Some(DoorOutside)
    else None
  }

  function PriceMachine(r: CalcRequest, m: Machine, product: Product, settings: Settings): Result<Pricing, CalcError>
    requires IsSettings(settings)
  {
    if Refusal(r, m, product).Some? then Err(Refusal(r, m, product).value)
    else
      var computed := ComputeProductPrice(product, m.stops, m.pricedKg, m.travelHeightM, AppliedFormula(product, settings));
      Offered(computed, settings, r.marginPercent, r.taxPercent)
  }

  function Offered(computed: Result<ProductPrice, FormulaError>, settings: Settings, marginPercent: real, taxPercent: real)
    : Result<Pricing, CalcError>
    requires IsSettings(settings)
  {
    match computed
    case Err(e) => Err(FormulaRefused(e))
    case Ok(price) =>
      if price.ListPrice() < 0.0 then Err(NegativePrice)
      else Ok(PriceBreakdown(price, settings.priceListVatPercent, marginPercent, taxPercent))
  }

  /** The machine `calculateSpecs` prices and prints. */
  function MachineOf(r: CalcRequest, table: PassengerTable, product: Product, settings: Settings): Result<Machine, CalcError> {
    var pricesOnRise := FormulaUsesRise(AppliedFormula(product, settings));
    var m :- Resolve(r, table, pricesOnRise);
    Ok(WithTypedTravel(r, WithTypedPersons(r, m), pricesOnRise))
  }

  datatype CalcResult = CalcResult(machine: Machine, pricing: Pricing)

  function CalculateSpecs(r: CalcRequest, table: PassengerTable, product: Option<Product>, settings: Settings)
    : Result<CalcResult, CalcError>
    requires IsSettings(settings)
  {
    if product.None? then Err(UnknownProduct)
    else
      var m :- MachineOf(r, table, product.value, settings);
      var pricing :- PriceMachine(r, m, product.value, settings);
      Ok(CalcResult(m, pricing))
  }

  // ----- overrides are never priced -----

  function Priced(c: Result<CalcResult, CalcError>): Result<Pricing, CalcError> {
    match c
    case Ok(result) => Ok(result.pricing)
    case Err(e) => Err(e)
  }

  /** Two machines that are one machine to the pricing. */
  predicate PricedAlike(a: Machine, b: Machine, vehicle: Option<VehicleSpec>, formula: string) {
    && a.stops == b.stops && a.pricedKg == b.pricedKg && a.doorWidthMm == b.doorWidthMm
    && (vehicle.Some? ==> a.speedMs == b.speedMs)
    && (FormulaUsesRise(formula) ==> a.travelHeightM == b.travelHeightM)
  }

  lemma {:induction false} TableIsNoVehicle(productType: string)
    requires UsesPassengerTable(productType)
    ensures VehicleOf(productType).None?
  {
    assert |"ESCALATOR"| == 9 && |"PASSENGER"| == 9 && "ESCALATOR"[0] != "PASSENGER"[0];
    assert |"CAR_LIFT"| == 8 && |"HOSPITAL"| == 8 && "CAR_LIFT"[0] != "HOSPITAL"[0];
    assert |"PANORAMIC"| == 9 && "ESCALATOR"[0] != "PANORAMIC"[0];
  }

  lemma {:induction false} ResolvesAlike(r: CalcRequest, typed: Overrides, table: PassengerTable, formula: string)
    ensures var a := Resolve(r, table, FormulaUsesRise(formula));
            var b := Resolve(r.(typed := typed), table, FormulaUsesRise(formula));
            a != Err(HalfACar) && b != Err(HalfACar) ==>
              && (a.Err? || b.Err? ==> a == b)
              && (a.Ok? && b.Ok? ==> a.value.travelHeightM == b.value.travelHeightM
                                     && PricedAlike(a.value, b.value, VehicleOf(r.productType), formula))
  {
    if IsStandard(r) {
      TableIsNoVehicle(r.productType);
    } else {
      assert ResolveClassic(r, FormulaUsesRise(formula)) == ResolveClassic(r.(typed := typed), FormulaUsesRise(formula));
    }
  }

  /** The two machines of requests that differ only in what was typed over them. */
  lemma {:induction false} MachinesAgree(r: CalcRequest, typed: Overrides, table: PassengerTable, product: Product, settings: Settings)
    ensures var a, b := MachineOf(r, table, product, settings), MachineOf(r.(typed := typed), table, product, settings);
            a != Err(HalfACar) && b != Err(HalfACar) ==>
              && (a.Err? || b.Err? ==> a == b)
              && (a.Ok? && b.Ok? ==>
                    PricedAlike(a.value, b.value, VehicleOf(r.productType), AppliedFormula(product, settings)))
  {
    ResolvesAlike(r, typed, table, AppliedFormula(product, settings));
  }

  /**
   * Typing over the machine never changes the price: two requests that differ
   * only in the seven overrides get the same breakdown, or the same refusal,
   * unless one of them types half a car.
   */
  lemma {:induction false} OverridesAreNeverPriced(r: CalcRequest, typed: Overrides, table: PassengerTable, product: Option<Product>, settings: Settings)
    requires IsSettings(settings)
    ensures var a := CalculateSpecs(r, table, product, settings);
            var b := CalculateSpecs(r.(typed := typed), table, product, settings);
            a != Err(HalfACar) && b != Err(HalfACar) ==> Priced(a) == Priced(b)
  {
    if product.Some? {
      MachinesAgree(r, typed, table, product.value, settings);
      var a := MachineOf(r, table, product.value, settings);
      var b := MachineOf(r.(typed := typed), table, product.value, settings);
      if a.Ok? && b.Ok? {
        SamePrice(r, typed, a.value, b.value, product.value, settings);
      }
    }
  }

  lemma {:induction false} SameValuesSamePrice(
    product: Product, stops: nat, kg: nat, rise: Decimal, rise': Decimal, formula: string)
    requires EvaluateFormula(formula, ScopeOf(product, stops, kg, rise))
          == EvaluateFormula(formula, ScopeOf(product, stops, kg, rise'))
    requires EvaluateFormula(formula, ScopeOf(product, stops, product.refCapacityKg, rise))
          == EvaluateFormula(formula, ScopeOf(product, stops, product.refCapacityKg, rise'))
    ensures ComputeProductPrice(product, stops, kg, rise, formula) == ComputeProductPrice(product, stops, kg, rise', formula)
  {
  }

  lemma {:induction false} SameProductPrice(product: Product, stops: nat, kg: nat, rise: Decimal, rise': Decimal, formula: string)
    requires FormulaUsesRise(formula) ==> rise == rise'
    ensures ComputeProductPrice(product, stops, kg, rise, formula) == ComputeProductPrice(product, stops, kg, rise', formula)
  {
    if !FormulaUsesRise(formula) {
      RiseIsNotRead(formula, ScopeOf(product, stops, kg, rise), ScopeOf(product, stops, kg, rise'));
      var atReference, atReference' :=
        ScopeOf(product, stops, product.refCapacityKg, rise), ScopeOf(product, stops, product.refCapacityKg, rise');
      RiseIsNotRead(formula, atReference, atReference');
      SameValuesSamePrice(product, stops, kg, rise, rise', formula);
    }
  }

  lemma {:induction false} SamePrice(r: CalcRequest, typed: Overrides, a: Machine, b: Machine, product: Product, settings: Settings)
    requires IsSettings(settings)
    requires PricedAlike(a, b, VehicleOf(r.productType), AppliedFormula(product, settings))
    ensures PriceMachine(r, a, product, settings) == PriceMachine(r.(typed := typed), b, product, settings)
  {
    var formula := AppliedFormula(product, settings);
    SameProductPrice(product, a.stops, a.pricedKg, a.travelHeightM, b.travelHeightM, formula);
    SameRefusal(r, typed, a, b, product);
  }

  lemma {:induction false} SameRefusal(r: CalcRequest, typed: Overrides, a: Machine, b: Machine, product: Product)
    requires a.pricedKg == b.pricedKg && a.doorWidthMm == b.doorWidthMm
    requires VehicleOf(r.productType).Some? ==> a.speedMs == b.speedMs
    ensures Refusal(r, a, product) == Refusal(r.(typed := typed), b, product)
  {
  }

  /** And exactly when a request is refused for its car: only where the table picks the lift. */
  lemma {:induction false} HalfACarIff(r: CalcRequest, table: PassengerTable, product: Product, settings: Settings)
    requires IsSettings(settings)
    ensures CalculateSpecs(r, table, Some(product), settings) == Err(HalfACar)
       <==> IsStandard(r) && TypesHalfACar(r, table(r.shaftWidthMm.value, r.shaftDepthMm.value))
  {
  }

  /** On a classic request the five overrides of the table's figures change nothing at all. */
  lemma {:induction false} TypedOnClassic(r: CalcRequest, typed: Overrides, table: PassengerTable, product: Option<Product>, settings: Settings)
    requires IsSettings(settings) && !IsStandard(r)
    requires typed.capacityPersons == r.typed.capacityPersons && typed.travelHeightM == r.typed.travelHeightM
    ensures CalculateSpecs(r.(typed := typed), table, product, settings) == CalculateSpecs(r, table, product, settings)
  {
    if product.Some? {
      var m, m' := MachineOf(r, table, product.value, settings), MachineOf(r.(typed := typed), table, product.value, settings);
      ClassicMachinesAgree(r, typed, table, product.value, settings);
      if m.Ok? {
        ClassicPricesAgree(r, typed, m.value, product.value, settings);
      }
    }
  }

  lemma {:induction false} ClassicMachinesAgree(r: CalcRequest, typed: Overrides, table: PassengerTable, product: Product, settings: Settings)
    requires !IsStandard(r)
    requires typed.capacityPersons == r.typed.capacityPersons && typed.travelHeightM == r.typed.travelHeightM
    ensures MachineOf(r.(typed := typed), table, product, settings) == MachineOf(r, table, product, settings)
  {
    var pricesOnRise := FormulaUsesRise(AppliedFormula(product, settings));
    assert ResolveClassic(r.(typed := typed), pricesOnRise) == ResolveClassic(r, pricesOnRise);
  }

  lemma {:induction false} ClassicPricesAgree(r: CalcRequest, typed: Overrides, m: Machine, product: Product, settings: Settings)
    requires IsSettings(settings)
    ensures PriceMachine(r.(typed := typed), m, product, settings) == PriceMachine(r, m, product, settings)
  {
    SameRefusal(r, typed, m, m, product);
  }

  // ----- what is printed -----

  lemma {:induction false} Positive(a: real, b: real)
    requires a > 0.0 && b > 0.0
    ensures a * b > 0.0
  {
  }

  lemma {:induction false} Shrinks(x: real, d: real)
    requires x >= 0.0 && d > 1.0
    ensures 0.0 <= x / d <= x && (x > 0.0 ==> x / d < x)
  {
    var q, e := x / d, d - 1.0;
    assert q * d == x && q * d == q * e + q && (-q) * d == -(q * d);
    if q < 0.0 {
      Positive(-q, d);
    } else if q > 0.0 {
      Positive(q, e);
    }
  }

  /**
   * The printed net and the printed VAT add up to the printed list price, to
   * the cent, and the net is within half a cent of the list divided by 1 + VAT.
   */
  lemma {:induction false} SheetFigureIsKept(price: ProductPrice, vatPercent: real, marginPercent: real, taxPercent: real)
    requires price.ListPrice() >= 0.0 && 0.0 < vatPercent <= 100.0
    ensures var p := PriceBreakdown(price, Some(vatPercent), marginPercent, taxPercent);
            && p.listVatIncluded.Some? && p.listVatIncluded.value >= 0
            && p.totalBeforeMargin + p.listVatIncluded.value == Cents(price.ListPrice())
            && -0.5 <= p.totalBeforeMargin as real - 100.0 * (price.ListPrice() / (1.0 + vatPercent / 100.0)) <= 0.5
  {
    NetAndVat(price.ListPrice(), vatPercent);
  }

  /**
   * The total is the net marked up by the margin and then by the tax, rounded
   * once, so no rounding of a line above it is carried into it.
   */
  lemma {:induction false} TotalIsMarkedUp(price: ProductPrice, vatPercent: Option<real>, marginPercent: real, taxPercent: real)
    requires vatPercent.Some? ==> 0.0 <= vatPercent.value
    ensures var p, net := PriceBreakdown(price, vatPercent, marginPercent, taxPercent), NetOfList(price.ListPrice(), vatPercent);
            var marked := Multiplied(net, 1.0 + marginPercent / 100.0);
            && p.subtotalWithMargin == Cents(marked)
            && p.totalPrice == Cents(Multiplied(marked, 1.0 + taxPercent / 100.0))
  {
    TwoMarkUps(NetOfList(price.ListPrice(), vatPercent), marginPercent / 100.0, taxPercent / 100.0);
  }

  lemma {:induction false} TwoMarkUps(net: real, m: real, t: real)
    ensures net + Multiplied(net, m) == Multiplied(net, 1.0 + m)
    ensures Multiplied(net, 1.0 + m) + Multiplied(Multiplied(net, 1.0 + m), t) == Multiplied(Multiplied(net, 1.0 + m), 1.0 + t)
  {
    MarkUp(net, m);
    MarkUp(Multiplied(net, 1.0 + m), t);
  }

  lemma {:induction false} MarkUp(x: real, m: real)
    ensures x + Multiplied(x, m) == Multiplied(x, 1.0 + m)
  {
  }

  lemma {:induction false} NetAndVat(list: real, vatPercent: real)
    requires list >= 0.0 && 0.0 < vatPercent
    ensures var net := NetOfList(list, Some(vatPercent));
            && Cents(list - net) >= 0 && Cents(net) + Cents(list - net) == Cents(list)
            && -0.5 <= Cents(net) as real - 100.0 * (list / (1.0 + vatPercent / 100.0)) <= 0.5
  {
    var share := list / (1.0 + vatPercent / 100.0);
    var cents := Cents(share);
    var net := NetOfList(list, Some(vatPercent));
    Shrinks(list, 1.0 + vatPercent / 100.0);
    RoundNearest(100.0 * share);
    assert 100.0 * net == cents as real;
    assert (cents as real).Floor == cents;
    RoundNearest(cents as real);
    RoundMonotone(100.0 * share, 100.0 * list);
    assert Cents(net) == cents;
    assert 100.0 * (list - net) == 100.0 * list + (-cents) as real;
    RoundShift(100.0 * list, -cents);
  }
}
