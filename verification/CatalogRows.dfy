/** From a catalog entry to the column values of its row. */
module CatalogRows {
  import opened Wrappers
  import opened Numeric
  import Text

  /** The passport columns that are copied word for word. */
  datatype PassportField =
    | Series | CoolingType | VoltageInput | OperatingTemp | DimensionsMm | Chip | Network
    | MaxHashrateNote | SourceUrl | Notes

  /** A whole number as JSON can give it; an infinite one cannot be converted. */
  datatype Whole = Whole(n: int) | InfiniteWhole

  /** One JSON object, its fields already parsed; a field that is missing, null or malformed is `None`. */
  datatype Entry = Entry(
    brand: string,
    modelName: string,
    variant: Option<string>,
    algorithm: Option<string>,
    coinFamily: Option<string>,
    hashrateUnit: Option<string>,
    dataQuality: Option<string>,
    hashrate: Option<Decimal>,
    powerW: Option<Whole>,
    releaseYear: Option<Whole>,
    efficiency: Option<Decimal>,
    noise: Option<Decimal>,
    weight: Option<Decimal>,
    passport: map<PassportField, string>)

  /** The column values of a row; a passport column without a value is NULL. */
  datatype Values = Values(
    brand: string,
    modelName: string,
    variant: Option<string>,
    algorithm: string,
    coinFamily: string,
    hashrateUnit: string,
    hashrate: real,
    powerW: int,
    releaseYear: Option<int>,
    dataQuality: string,
    isActive: bool,
    efficiency: Option<real>,
    noise: Option<real>,
    weight: Option<real>,
    passport: map<PassportField, string>)

  /** Precision and scale of a NUMERIC column. */
  datatype Column = Column(precision: nat, scale: nat)

  const HASHRATE := Column(12, 2)
  const EFFICIENCY := Column(12, 4)
  const NOISE := Column(6, 2)
  const WEIGHT := Column(8, 3)

  /** The field, or the default when it is missing or empty. */
  function OrElse(field: Option<string>, default: string): string {
    if field.Some? && field.value != "" then field.value else default
  }

  function LowerChar(c: char): char {
    if 'A' <= c <= 'Z' then c - 'A' + 'a' else c
  }

  function Lower(s: string): string {
    seq(|s|, i requires 0 <= i < |s| => LowerChar(s[i]))
  }

  /** Efficiency in joules per terahash means something only for such devices. */
  predicate IsThs(unit: string) {
    Lower(Text.Stripped(unit)) == "th/s"
  }

  /** A value that does not fit its column is dropped; one that cannot be checked raises. */
  function Sanitized(column: Column, value: Option<Decimal>, digits: nat): Result<Option<real>, ()>
    requires column.scale <= column.precision
  {
    if value.None? then Ok(None)
    else
      match FitsNumeric(value.value, column.precision, column.scale, digits)
      case None => Err(())
      case Some(fits) => Ok(if fits && value.value.Finite? then Some(value.value.value) else None)
  }

  datatype Figure = Figure(column: Column, value: Option<Decimal>) {
    predicate Sound() {
      column.scale <= column.precision && column.precision > 0
    }
  }

  /** Every figure sanitized in turn; the first one that raises stops the row. */
  function Clamped(figures: seq<Figure>, digits: nat): (r: Result<seq<Option<real>>, ()>)
    requires forall i :: 0 <= i < |figures| ==> figures[i].Sound()
    ensures r.Ok? ==> |r.value| == |figures|
  {
    if |figures| == 0 then Ok([])
    else
      var last := figures[|figures| - 1];
      assert last.Sound();
      var init := Clamped(figures[..|figures| - 1], digits);
      if init.Err? then Err(())
      else
        match Sanitized(last.column, last.value, digits)
        case Err(_) => Err(())
        case Ok(value) => Ok(init.value + [value])
  }

  function Unit(e: Entry): string {
    OrElse(e.hashrateUnit, "TH/s")
  }

  /** The figures that reach the column check, before it. */
  function RawHashrate(e: Entry): Decimal {
    if e.hashrate.Some? then e.hashrate.value else Finite(0.0)
  }

  function RawEfficiency(e: Entry): Option<Decimal> {
    if IsThs(Unit(e)) then e.efficiency else None
  }

  function Figures(e: Entry): (r: seq<Figure>)
    ensures |r| == 4 && forall i :: 0 <= i < 4 ==> r[i].Sound()
  {
    [Figure(HASHRATE, Some(RawHashrate(e))),
     Figure(EFFICIENCY, RawEfficiency(e)),
     Figure(NOISE, e.noise),
     Figure(WEIGHT, e.weight)]
  }

  predicate Infinitely(w: Option<Whole>) {
    w == Some(InfiniteWhole)
  }

  function RowValues(e: Entry, digits: nat): Result<Values, ()> {
    var clamped := Clamped(Figures(e), digits);
    if Infinitely(e.powerW) || Infinitely(e.releaseYear) || clamped.Err? then Err(())
    else
      Ok(Values(
        e.brand,
        e.modelName,
        e.variant,
        OrElse(e.algorithm, "SHA-256"),
        OrElse(e.coinFamily, "BTC"),
        Unit(e),
        if clamped.value[0].Some? then clamped.value[0].value else 0.0,
        if e.powerW.Some? then e.powerW.value.n else 0,
        if e.releaseYear.Some? then Some(e.releaseYear.value.n) else None,
        OrElse(e.dataQuality, "factory"),
        true,
        clamped.value[1],
        clamped.value[2],
        clamped.value[3],
        e.passport))
  }

  predicate Accepts(column: Column, value: real) {
    ColumnAccepts(value, column.precision, column.scale)
  }

  /** The value, when it is a number that the column takes. */
  function Fitting(column: Column, value: Option<Decimal>): Option<real> {
    if value.Some? && value.value.Finite? && Accepts(column, value.value.value) then Some(value.value.value) else None
  }

  /** What the column takes is kept as it is, and nothing else is kept. */
  lemma SanitizedKeepsWhatFits(f: Figure, digits: nat)
    requires f.Sound() && Sanitized(f.column, f.value, digits).Ok?
    ensures Sanitized(f.column, f.value, digits).value == Fitting(f.column, f.value)
  {
    if f.value.Some? {
      FitsNumericMirrorsColumn(f.value.value, f.column.precision, f.column.scale, digits);
    }
  }

  /** Not finite, or too long to be rounded to the column's scale with `digits` significant digits. */
  predicate Unroundable(f: Figure, digits: nat) {
    f.value.Some?
      && (!f.value.value.Finite? || Abs(Scaled(f.value.value.value, f.column.scale)) >= Pow10(digits) as real - 0.5)
  }

  lemma SanitizedRaisesIff(f: Figure, digits: nat)
    requires f.Sound() && digits > 0
    ensures Sanitized(f.column, f.value, digits).Err? <==> Unroundable(f, digits)
  {
    if f.value.Some? {
      FitsNumericRaisesIff(f.value.value, f.column.precision, f.column.scale, digits);
    }
  }

  lemma {:induction false} ClampedKeepsWhatFits(figures: seq<Figure>, digits: nat, i: nat)
    requires forall k :: 0 <= k < |figures| ==> figures[k].Sound()
    requires i < |figures| && Clamped(figures, digits).Ok?
    ensures Clamped(figures, digits).value[i] == Fitting(figures[i].column, figures[i].value)
  {
    if i < |figures| - 1 {
      ClampedKeepsWhatFits(figures[..|figures| - 1], digits, i);
    } else {
      SanitizedKeepsWhatFits(figures[i], digits);
    }
  }

  lemma {:induction false} ClampedRaisesIff(figures: seq<Figure>, digits: nat)
    requires digits > 0 && forall k :: 0 <= k < |figures| ==> figures[k].Sound()
    ensures Clamped(figures, digits).Err? <==> exists i :: 0 <= i < |figures| && Unroundable(figures[i], digits)
  {
    if |figures| > 0 {
      var init, last := figures[..|figures| - 1], figures[|figures| - 1];
      ClampedRaisesIff(init, digits);
      SanitizedRaisesIff(last, digits);
      if Clamped(init, digits).Err? {
        var i :| 0 <= i < |init| && Unroundable(init[i], digits);
        assert figures[i] == init[i];
      }
    }
  }

  lemma ZeroFits(column: Column)
    ensures Accepts(column, 0.0)
  {
    assert Scaled(0.0, column.scale) == 0.0;
  }

  function OrZero(value: Option<real>): Option<real> {
    if value.Some? then value else Some(0.0)
  }

  /** No NUMERIC column refuses the figure that the mapping gives it, and no figure that fits is lost. */
  lemma RowFitsColumns(e: Entry, digits: nat)
    requires RowValues(e, digits).Ok?
    ensures var v := RowValues(e, digits).value;
            && Some(v.hashrate) == OrZero(Fitting(HASHRATE, Some(RawHashrate(e))))
            && Accepts(HASHRATE, v.hashrate)
            && v.efficiency == Fitting(EFFICIENCY, RawEfficiency(e))
            && (v.efficiency.Some? ==> IsThs(v.hashrateUnit))
            && v.noise == Fitting(NOISE, e.noise)
            && v.weight == Fitting(WEIGHT, e.weight)
  {
    var figures := Figures(e);
    ClampedKeepsWhatFits(figures, digits, 0);
    ClampedKeepsWhatFits(figures, digits, 1);
    ClampedKeepsWhatFits(figures, digits, 2);
    ClampedKeepsWhatFits(figures, digits, 3);
    ZeroFits(HASHRATE);
  }

  /**
   Mapping an entry succeeds exactly when every figure of it that reaches the check is finite and short
   enough for the decimal context, and neither of its whole numbers is infinite.
   */
  lemma RowRaisesIff(e: Entry, digits: nat)
    requires digits > 0
    ensures RowValues(e, digits).Err? <==>
            || Infinitely(e.powerW) || Infinitely(e.releaseYear)
            || exists i :: 0 <= i < 4 && Unroundable(Figures(e)[i], digits)
  {
    ClampedRaisesIff(Figures(e), digits);
  }

  // ---------- what the database takes ----------

  /** The range of an INTEGER column. */
  predicate InInteger(n: int) {
    -0x8000_0000 <= n < 0x8000_0000
  }

  /** Text columns take everything but the character nought. */
  predicate Plain(s: string) {
    '\0' !in s
  }

  predicate WholesTaken(v: Values) {
    InInteger(v.powerW) && (v.releaseYear.Some? ==> InInteger(v.releaseYear.value))
  }

  predicate FiguresTaken(v: Values) {
    && Accepts(HASHRATE, v.hashrate)
    && (v.efficiency.Some? ==> Accepts(EFFICIENCY, v.efficiency.value))
    && (v.noise.Some? ==> Accepts(NOISE, v.noise.value))
    && (v.weight.Some? ==> Accepts(WEIGHT, v.weight.value))
  }

  predicate TextFits(s: Option<string>) {
    s.Some? ==> Plain(s.value)
  }

  predicate PassportFits(passport: map<PassportField, string>) {
    forall f :: f in passport ==> Plain(passport[f])
  }

  predicate TextsTaken(v: Values) {
    && Plain(v.brand) && Plain(v.modelName) && TextFits(v.variant)
    && Plain(v.algorithm) && Plain(v.coinFamily) && Plain(v.hashrateUnit) && Plain(v.dataQuality)
    && PassportFits(v.passport)
  }

  /** The column types take every value of the row. */
  predicate Taken(v: Values) {
    WholesTaken(v) && FiguresTaken(v) && TextsTaken(v)
  }

  predicate WholeFits(w: Option<Whole>) {
    w.Some? && w.value.Whole? ==> InInteger(w.value.n)
  }

  predicate TextsFit(e: Entry) {
    && Plain(e.brand) && Plain(e.modelName) && TextFits(e.variant)
    && TextFits(e.algorithm) && TextFits(e.coinFamily) && TextFits(e.hashrateUnit) && TextFits(e.dataQuality)
    && PassportFits(e.passport)
  }

  lemma DefaultsArePlain()
    ensures Plain("TH/s") && Plain("SHA-256") && Plain("BTC") && Plain("factory")
  {
  }

  lemma TextIsPlainIff(field: Option<string>, default: string)
    requires Plain(default)
    ensures Plain(OrElse(field, default)) <==> TextFits(field)
  {
  }

  lemma TextsTakenIff(e: Entry, digits: nat)
    requires RowValues(e, digits).Ok?
    ensures TextsTaken(RowValues(e, digits).value) <==> TextsFit(e)
  {
    DefaultsArePlain();
    TextIsPlainIff(e.algorithm, "SHA-256");
    TextIsPlainIff(e.coinFamily, "BTC");
    TextIsPlainIff(e.hashrateUnit, "TH/s");
    TextIsPlainIff(e.dataQuality, "factory");
  }

  lemma WholesTakenIff(e: Entry, digits: nat)
    requires RowValues(e, digits).Ok?
    ensures WholesTaken(RowValues(e, digits).value) <==> WholeFits(e.powerW) && WholeFits(e.releaseYear)
  {
  }

  lemma FiguresAreTaken(e: Entry, digits: nat)
    requires RowValues(e, digits).Ok?
    ensures FiguresTaken(RowValues(e, digits).value)
  {
    RowFitsColumns(e, digits);
  }

  /**
   The figures of a mapped row never get it refused; its whole numbers are not clamped, so that the row is taken
   exactly when these are in the range of an INTEGER and no text holds the character nought.
   */
  lemma RowTakenIff(e: Entry, digits: nat)
    requires RowValues(e, digits).Ok?
    ensures Taken(RowValues(e, digits).value) <==> WholeFits(e.powerW) && WholeFits(e.releaseYear) && TextsFit(e)
  {
    WholesTakenIff(e, digits);
    FiguresAreTaken(e, digits);
    TextsTakenIff(e, digits);
  }

  // ---------- every column holds its own field ----------

  /** The field as it is, or the default for a field that is missing or empty. */
  predicate TextHolds(column: string, field: Option<string>, default: string) {
    column == if field == None || field == Some("") then default else field.value
  }

  /** The number as it is, where there is one. */
  predicate WholeHolds(column: int, field: Option<Whole>) {
    match field
    case Some(Whole(n)) => column == n
    case _ => column == 0
  }

  /** The figure as it is, where the column takes it. */
  predicate FigureHolds(figure: Option<real>, field: Option<Decimal>, column: Column) {
    match field
    case Some(Finite(x)) => figure == if Accepts(column, x) then Some(x) else None
    case _ => figure == None
  }

  /** A hashrate that is counted in terahashes. */
  predicate InTerahashes(unit: string) {
    var t := Text.Stripped(unit);
    |t| == 4 && t[0] in "tT" && t[1] in "hH" && t[2] == '/' && t[3] in "sS"
  }

  predicate HoldsTexts(v: Values, e: Entry) {
    && v.brand == e.brand && v.modelName == e.modelName && v.variant == e.variant && v.passport == e.passport
    && TextHolds(v.algorithm, e.algorithm, "SHA-256") && TextHolds(v.coinFamily, e.coinFamily, "BTC")
    && TextHolds(v.hashrateUnit, e.hashrateUnit, "TH/s") && TextHolds(v.dataQuality, e.dataQuality, "factory")
  }

  predicate HoldsWholes(v: Values, e: Entry) {
    && WholeHolds(v.powerW, e.powerW)
    && (v.releaseYear.Some? <==> e.releaseYear.Some?)
    && (v.releaseYear.Some? ==> WholeHolds(v.releaseYear.value, e.releaseYear))
  }

  predicate HoldsFigures(v: Values, e: Entry) {
    && FigureHolds(if v.hashrate == 0.0 then None else Some(v.hashrate),
                   if e.hashrate == Some(Finite(0.0)) then None else e.hashrate, HASHRATE)
    && FigureHolds(v.noise, e.noise, NOISE) && FigureHolds(v.weight, e.weight, WEIGHT)
    && FigureHolds(v.efficiency, if InTerahashes(v.hashrateUnit) then e.efficiency else None, EFFICIENCY)
  }

  /** The row says of the device what the entry says of it, and that the device is in use. */
  predicate HoldsFields(v: Values, e: Entry) {
    HoldsTexts(v, e) && HoldsWholes(v, e) && HoldsFigures(v, e) && v.isActive
  }

  lemma LowerIff(c: char, low: char, high: char)
    requires 'a' <= low <= 'z' && high == low - 'a' + 'A'
    ensures LowerChar(c) == low <==> c == low || c == high
  {
  }

  /** Upper and lower case and white space around the unit make no difference, and nothing else is let through. */
  lemma IsThsIff(unit: string)
    ensures IsThs(unit) <==> InTerahashes(unit)
  {
    var t := Text.Stripped(unit);
    if |t| == 4 {
      LowerIff(t[0], 't', 'T');
      LowerIff(t[1], 'h', 'H');
      LowerIff(t[3], 's', 'S');
      var low := Lower(t);
      assert low == "th/s" <==> low[0] == 't' && low[1] == 'h' && low[2] == '/' && low[3] == 's';
    }
  }

  lemma TextsHold(e: Entry, digits: nat)
    requires RowValues(e, digits).Ok?
    ensures HoldsTexts(RowValues(e, digits).value, e)
  {
  }

  lemma WholesHold(e: Entry, digits: nat)
    requires RowValues(e, digits).Ok?
    ensures HoldsWholes(RowValues(e, digits).value, e) && RowValues(e, digits).value.isActive
  {
  }

  lemma FiguresHold(e: Entry, digits: nat)
    requires RowValues(e, digits).Ok?
    ensures HoldsFigures(RowValues(e, digits).value, e)
  {
    RowFitsColumns(e, digits);
    IsThsIff(Unit(e));
    ZeroFits(HASHRATE);
  }

  /** When mapping succeeds every column holds its own field. */
  lemma ColumnsHoldFields(e: Entry, digits: nat)
    requires RowValues(e, digits).Ok?
    ensures HoldsFields(RowValues(e, digits).value, e)
  {
    TextsHold(e, digits);
    WholesHold(e, digits);
    FiguresHold(e, digits);
  }

  /** An entry with a hashrate and a weight and nothing else. */
  function Bare(hashrate: Decimal, weight: Option<Decimal>): Entry {
    Entry("Bitmain", "S19", None, None, None, None, None, Some(hashrate), None, None, None, None, weight, map[])
  }

  /**
   With the usual 28 digits a hashrate of ten to the twenty-eighth, or a weight that is not a number, aborts
   the mapping.
   */
  lemma LongFigureRaises()
    ensures RowValues(Bare(Finite(Pow10(28) as real), None), 28).Err?
    ensures RowValues(Bare(Finite(95.0), Some(NaN)), 28).Err?
  {
    var long, nan := Bare(Finite(Pow10(28) as real), None), Bare(Finite(95.0), Some(NaN));
    assert Pow10(2) == 100;
    assert Scaled(Pow10(28) as real, 2) >= Pow10(28) as real;
    assert Unroundable(Figures(long)[0], 28);
    assert Unroundable(Figures(nan)[3], 28);
    RowRaisesIff(long, 28);
    RowRaisesIff(nan, 28);
  }

  /** The values that an entry brings to the table, unless mapping it raises or a column refuses one of them. */
  function Storable(e: Entry, digits: nat): Result<Values, ()> {
    var values := RowValues(e, digits);
    if values.Ok? && !Taken(values.value) then Err(()) else values
  }

  /** What makes an entry storable: conditions on its figures, whole numbers and texts alone. */
  lemma StorableIff(e: Entry, digits: nat)
    requires digits > 0
    ensures Storable(e, digits).Ok? <==>
            && (forall i :: 0 <= i < 4 ==> !Unroundable(Figures(e)[i], digits))
            && !Infinitely(e.powerW) && !Infinitely(e.releaseYear)
            && WholeFits(e.powerW) && WholeFits(e.releaseYear) && TextsFit(e)
  {
    RowRaisesIff(e, digits);
    if RowValues(e, digits).Ok? {
      RowTakenIff(e, digits);
    }
  }

  lemma HashrateIsShort()
    ensures !Unroundable(Figure(HASHRATE, Some(Finite(95.0))), 28)
  {
    Pow10Sum(5, 23);
    assert Pow10(5) == 100_000 && Pow10(2) == 100;
  }

  lemma OnlyHashrate(e: Entry, digits: nat)
    requires e.hashrate.Some? && e.efficiency.None? && e.noise.None? && e.weight.None?
    requires !Unroundable(Figure(HASHRATE, e.hashrate), digits)
    ensures forall i :: 0 <= i < 4 ==> !Unroundable(Figures(e)[i], digits)
  {
    assert Figures(e)[0] == Figure(HASHRATE, e.hashrate);
    assert Figures(e)[1].value.None? && Figures(e)[2].value.None? && Figures(e)[3].value.None?;
  }

  /** Three billion watts are mapped as they are and refused. */
  lemma LongWholeRefused()
    ensures var e := Bare(Finite(95.0), None).(powerW := Some(Whole(3_000_000_000)));
            RowValues(e, 28).Ok? && Storable(e, 28).Err?
  {
    var e := Bare(Finite(95.0), None).(powerW := Some(Whole(3_000_000_000)));
    HashrateIsShort();
    OnlyHashrate(e, 28);
    RowRaisesIff(e, 28);
    StorableIff(e, 28);
  }
}
