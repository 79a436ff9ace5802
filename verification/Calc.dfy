/** The profit calculator, over exact numbers. */
module Calc {
  import opened Numeric
  import opened Wrappers

  datatype Input = Input(hashrate: real, powerW: int, quantity: int, powerPrice: real, poolFeePct: real,
                         uptimePct: real, hardwareCost: Option<real>, hashMult: real)

  /** `usdPerHash` is the income of one hash a second over a day, where it is known directly. */
  datatype Market = Market(price: real, difficulty: real, reward: real, usdPerHash: Option<real>)

  datatype Outcome = Outcome(btc: real, gross: real, pool: real, powerCost: real, net: real, month: real, year: real,
                             roiDays: Option<real>, breakEven: Option<real>)

  datatype Delta = Delta(profit: real, power: int, powerCost: real, hashrate: real, efficiency: Option<real>)

  const TWO_POW_32 := 4_294_967_296.0
  const SECONDS_PER_DAY := 86_400.0

  function Uptime(inp: Input): real {
    inp.uptimePct / 100.0
  }

  function BtcPerUnit(inp: Input, market: Market): real
    requires market.difficulty > 0.0
  {
    inp.hashrate * inp.hashMult * SECONDS_PER_DAY * market.reward / (market.difficulty * TWO_POW_32)
  }

  /** A figure of one device at full uptime, for the fleet. */
  function Fleet(unit: real, inp: Input): real {
    unit * inp.quantity as real * Uptime(inp)
  }

  function Worth(amount: real, rate: real): real {
    amount * rate
  }

  function Coins(gross: real, price: real): real {
    if price > 0.0 then gross / price else 0.0
  }

  /** Coins and income of a day before the pool's fee; `None` when the difficulty is needed and is not positive. */
  function Income(inp: Input, market: Market): Option<(real, real)> {
    if market.usdPerHash.Some? then
      var gross := Worth(Fleet(inp.hashrate * inp.hashMult, inp), market.usdPerHash.value);
      Some((Coins(gross, market.price), gross))
    else if market.difficulty <= 0.0 then None
    else
      var btc := Fleet(BtcPerUnit(inp, market), inp);
      Some((btc, Worth(btc, market.price)))
  }

  function Kwh(inp: Input): real {
    inp.powerW as real * inp.quantity as real * 24.0 * Uptime(inp) / 1000.0
  }

  function AfterFee(gross: real, feePct: real): real {
    gross * (1.0 - feePct / 100.0)
  }

  function Calculate(inp: Input, market: Market): Option<Outcome> {
    var income := Income(inp, market);
    if income.None? then None
    else
      var (btc, gross) := income.value;
      var pool := AfterFee(gross, inp.poolFeePct);
      var powerCost := Kwh(inp) * inp.powerPrice;
      var net := pool - powerCost;
      Some(Outcome(btc, gross, pool, powerCost, net, net * 30.0, net * 365.0,
                   if inp.hardwareCost.Some? && net > 0.0 then Some(inp.hardwareCost.value / net) else None,
                   if Kwh(inp) > 0.0 then Some(pool / Kwh(inp)) else None))
  }

  /** The power that a unit of hashrate costs, to four decimals. */
  function Efficiency(powerW: int, hashrate: real): Option<real> {
    if hashrate <= 0.0 then None
    else Some(RoundHalfEven(powerW as real / hashrate * 10_000.0) as real / 10_000.0)
  }

  function Compare(base: Input, custom: Input, market: Market): Option<Delta> {
    var a, b := Calculate(base, market), Calculate(custom, market);
    if a.None? || b.None? then None
    else
      var before, after := Efficiency(base.powerW, base.hashrate), Efficiency(custom.powerW, custom.hashrate);
      Some(Delta(b.value.net - a.value.net, custom.powerW * custom.quantity - base.powerW * base.quantity,
                      b.value.powerCost - a.value.powerCost,
                      custom.hashrate * custom.quantity as real - base.hashrate * base.quantity as real,
                      if before.None? || after.None? then None else Some(after.value - before.value)))
  }

  // ---------- what a day brings and costs ----------

  lemma SharesOut(gross: real, pct: real)
    requires gross >= 0.0 && 0.0 <= pct <= 100.0
    ensures 0.0 <= gross * (1.0 - pct / 100.0) <= gross
  {
    var f := pct / 100.0;
    assert gross * f >= 0.0 && gross * (1.0 - f) >= 0.0;
    assert gross * (1.0 - f) == gross - gross * f;
  }

  lemma FeeSplits(gross: real, pct: real)
    ensures gross * (1.0 - pct / 100.0) + gross * pct / 100.0 == gross
  {
    assert gross * (1.0 - pct / 100.0) == gross - gross * (pct / 100.0);
  }

  /** What the pool keeps and what it pays out make up the income, and with a sensible fee neither is negative. */
  lemma FeeIsDeducted(inp: Input, market: Market)
    requires Calculate(inp, market).Some?
    ensures var r := Calculate(inp, market).value;
            && r.pool + r.gross * inp.poolFeePct / 100.0 == r.gross
            && (r.gross >= 0.0 && 0.0 <= inp.poolFeePct <= 100.0 ==> 0.0 <= r.pool <= r.gross)
  {
    var r := Calculate(inp, market).value;
    FeeSplits(r.gross, inp.poolFeePct);
    if r.gross >= 0.0 && 0.0 <= inp.poolFeePct <= 100.0 {
      SharesOut(r.gross, inp.poolFeePct);
    }
  }

  /**
   Profit and power cost make up what the pool pays out; a month is thirty days and a year 365; pay-back days are
   given exactly for a known cost and a positive profit; and coins are worth the income where they have a price.
   */
  lemma OutcomeAddsUp(inp: Input, market: Market)
    requires Calculate(inp, market).Some?
    ensures var r := Calculate(inp, market).value;
            && r.net + r.powerCost == r.pool && r.month == 30.0 * r.net && r.year == 365.0 * r.net
            && (r.roiDays.Some? <==> inp.hardwareCost.Some? && r.net > 0.0)
            && (market.price > 0.0 || market.usdPerHash.None? ==> r.btc * market.price == r.gross)
  {
    var r := Calculate(inp, market).value;
    if market.price > 0.0 && market.usdPerHash.Some? {
      assert r.gross / market.price * market.price == r.gross;
    }
  }

  lemma Blocks(h: real, d: real, reward: real)
    requires d > 0.0 && h * 600.0 == d
    ensures h * 86_400.0 * reward / d == 144.0 * reward
  {
    assert h * 86_400.0 == d * 144.0;
    assert d * 144.0 * reward == (144.0 * reward) * d;
  }

  /**
   A device with the hashrate of a whole network, which finds a block every ten minutes at its difficulty, earns the
   reward of 144 blocks a day.
   */
  lemma WholeNetworkEarnsAllBlocks(inp: Input, market: Market)
    requires market.usdPerHash.None? && market.difficulty > 0.0
    requires inp.hashrate * inp.hashMult * 600.0 == market.difficulty * 4_294_967_296.0
    requires inp.quantity == 1 && inp.uptimePct == 100.0
    ensures Calculate(inp, market).Some? && Calculate(inp, market).value.btc == 144.0 * market.reward
  {
    Blocks(inp.hashrate * inp.hashMult, market.difficulty * 4_294_967_296.0, market.reward);
    assert Fleet(BtcPerUnit(inp, market), inp) == BtcPerUnit(inp, market);
  }

  // ---------- break-even ----------

  lemma Positive(c: real, d: real)
    requires c > 0.0 && d > 0.0
    ensures c * d > 0.0
  {
  }

  lemma LessTimes(a: real, b: real, c: real)
    requires c > 0.0
    ensures c * a < c * b <==> a < b
  {
    assert c * b - c * a == c * (b - a);
    if a < b {
      Positive(c, b - a);
    } else {
      assert c * (a - b) >= 0.0;
    }
  }

  /** Where there is a break-even price, profit is positive exactly below it and nought exactly at it. */
  lemma ProfitableBelowBreakEven(inp: Input, market: Market)
    requires Calculate(inp, market).Some? && Calculate(inp, market).value.breakEven.Some?
    ensures var r := Calculate(inp, market).value;
            && (r.net > 0.0 <==> inp.powerPrice < r.breakEven.value)
            && (r.net == 0.0 <==> inp.powerPrice == r.breakEven.value)
  {
    var r, kwh := Calculate(inp, market).value, Kwh(inp);
    var price := r.breakEven.value;
    assert r.pool == kwh * price;
    assert r.net == kwh * price - kwh * inp.powerPrice;
    LessTimes(inp.powerPrice, price, kwh);
    LessTimes(price, inp.powerPrice, kwh);
  }

  /** What one device earns in a day of full uptime after the fee. */
  function UnitIncome(inp: Input, market: Market): Option<real> {
    var income := Income(inp.(quantity := 1, uptimePct := 100.0), market);
    if income.None? then None else Some(AfterFee(income.value.1, inp.poolFeePct))
  }

  lemma Shuffle(a: real, q: real, u: real, r: real)
    ensures a * q * u * r == (a * r) * (q * u)
  {
    assert a * q * u == a * (q * u);
    assert a * (q * u) * r == (a * r) * (q * u);
  }

  lemma ShufflePower(p: real, q: real, u: real)
    ensures p * q * 24.0 * u / 1000.0 == (p * 24.0 / 1000.0) * (q * u)
  {
    assert p * q * 24.0 * u == (p * 24.0) * (q * u) by {
      assert p * q * 24.0 == (p * 24.0) * q;
      assert (p * 24.0) * q * u == (p * 24.0) * (q * u);
    }
    var x, y := p * 24.0, q * u;
    assert x * y / 1000.0 == (x / 1000.0) * y;
  }

  lemma ShuffleFee(a: real, s: real, f: real)
    ensures (a * s) * f == (a * f) * s
  {
  }

  lemma FeeScales(gross: real, one: real, s: real, feePct: real)
    requires gross == one * s
    ensures AfterFee(gross, feePct) == AfterFee(one, feePct) * s
  {
    ShuffleFee(one, s, 1.0 - feePct / 100.0);
  }

  lemma FleetScales(unit: real, inp: Input, rate: real)
    ensures Worth(Fleet(unit, inp), rate) == (unit * rate) * (inp.quantity as real * Uptime(inp))
  {
    Shuffle(unit, inp.quantity as real, Uptime(inp), rate);
  }

  lemma GrossScales(inp: Input, market: Market)
    requires Income(inp, market).Some?
    ensures var one := Income(inp.(quantity := 1, uptimePct := 100.0), market);
            one.Some? && Income(inp, market).value.1 == one.value.1 * (inp.quantity as real * Uptime(inp))
  {
    var one := inp.(quantity := 1, uptimePct := 100.0);
    var unit, rate := if market.usdPerHash.Some? then inp.hashrate * inp.hashMult else BtcPerUnit(inp, market),
                      if market.usdPerHash.Some? then market.usdPerHash.value else market.price;
    FleetScales(unit, inp, rate);
    FleetScales(unit, one, rate);
    assert one.quantity as real * Uptime(one) == 1.0;
  }

  /** Income and energy both grow with the number of devices and their uptime. */
  lemma PoolScales(inp: Input, market: Market)
    requires Calculate(inp, market).Some?
    ensures UnitIncome(inp, market).Some?
    ensures Calculate(inp, market).value.pool ==
            UnitIncome(inp, market).value * (inp.quantity as real * (inp.uptimePct / 100.0))
  {
    GrossScales(inp, market);
    FeeScales(Income(inp, market).value.1, Income(inp.(quantity := 1, uptimePct := 100.0), market).value.1,
              inp.quantity as real * Uptime(inp), inp.poolFeePct);
  }

  /** The energy of a day in kilowatt-hours: 24 hours of each device's power, for the share of the time that it runs. */
  lemma EnergyScales(inp: Input)
    ensures Kwh(inp) == (inp.powerW as real * 24.0 / 1000.0) * (inp.quantity as real * (inp.uptimePct / 100.0))
  {
    ShufflePower(inp.powerW as real, inp.quantity as real, Uptime(inp));
  }

  lemma CancelScale(a: real, b: real, s: real)
    requires s != 0.0 && b != 0.0
    ensures b * s != 0.0 && (a * s) / (b * s) == a / b
  {
    var y := a / b;
    assert a == y * b;
    assert y * b * s == y * (b * s);
  }

  /** The break-even price is that of one device: neither the size of the fleet nor its uptime moves it. */
  lemma BreakEvenOfOneDevice(inp: Input, market: Market)
    requires Calculate(inp, market).Some? && Calculate(inp, market).value.breakEven.Some?
    ensures inp.powerW != 0
    ensures Calculate(inp, market).value.breakEven.value ==
            UnitIncome(inp, market).value / (inp.powerW as real * 24.0 / 1000.0)
  {
    PoolScales(inp, market);
    EnergyScales(inp);
    var scale, unit := inp.quantity as real * Uptime(inp), inp.powerW as real * 24.0 / 1000.0;
    assert unit * scale > 0.0;
    CancelScale(UnitIncome(inp, market).value, unit, scale);
  }

  lemma BreakEvenIgnoresFleet(inp: Input, market: Market, quantity: int, uptimePct: real)
    requires Calculate(inp, market).Some? && Calculate(inp, market).value.breakEven.Some?
    requires var other := Calculate(inp.(quantity := quantity, uptimePct := uptimePct), market);
             other.Some? && other.value.breakEven.Some?
    ensures Calculate(inp.(quantity := quantity, uptimePct := uptimePct), market).value.breakEven ==
            Calculate(inp, market).value.breakEven
  {
    var other := inp.(quantity := quantity, uptimePct := uptimePct);
    BreakEvenOfOneDevice(inp, market);
    BreakEvenOfOneDevice(other, market);
    assert other.(quantity := 1, uptimePct := 100.0) == inp.(quantity := 1, uptimePct := 100.0);
  }

  // ---------- the two ways of counting income ----------

  /** The income of one hash a second over a day that the difficulty and the price imply. */
  function ImpliedRate(market: Market): real
    requires market.difficulty > 0.0
  {
    SECONDS_PER_DAY * market.reward * market.price / (market.difficulty * TWO_POW_32)
  }

  lemma MoveDivision(h: real, s: real, w: real, p: real, d: real)
    requires d != 0.0
    ensures h * s * w / d * p == h * (s * w * p / d)
  {
    var x := s * w / d;
    assert s * w == x * d;
    assert h * s * w == h * (s * w) == h * (x * d) == (h * x) * d;
    assert h * s * w / d == h * x;
    assert s * w * p == (x * p) * d;
    assert s * w * p / d == x * p;
  }

  lemma Undo(x: real, y: real)
    requires y != 0.0
    ensures x * y / y == x
  {
  }

  lemma SameGross(inp: Input, market: Market)
    requires market.difficulty > 0.0
    ensures Worth(Fleet(inp.hashrate * inp.hashMult, inp), ImpliedRate(market))
            == Worth(Fleet(BtcPerUnit(inp, market), inp), market.price)
    ensures market.price > 0.0 ==>
            Coins(Worth(Fleet(BtcPerUnit(inp, market), inp), market.price), market.price)
            == Fleet(BtcPerUnit(inp, market), inp)
  {
    var h, a := inp.hashrate * inp.hashMult, BtcPerUnit(inp, market);
    MoveDivision(h, SECONDS_PER_DAY, market.reward, market.price, market.difficulty * TWO_POW_32);
    assert a * market.price == h * ImpliedRate(market);
    FleetScales(a, inp, market.price);
    FleetScales(h, inp, ImpliedRate(market));
    if market.price > 0.0 {
      Undo(Fleet(a, inp), market.price);
    }
  }

  lemma SameBtcPerUnit(inp: Input, market: Market)
    requires market.difficulty > 0.0
    ensures BtcPerUnit(inp, market.(usdPerHash := None)) == BtcPerUnit(inp, market)
  {
  }

  /**
   The income per hash and the difficulty give the same money when the one is what the other implies; they
   give the same coins exactly where the coin has a price, or where there are no coins.
   */
  lemma BranchesAgreeIff(inp: Input, market: Market)
    requires market.difficulty > 0.0
    ensures var direct := Calculate(inp, market.(usdPerHash := Some(ImpliedRate(market))));
            var mined := Calculate(inp, market.(usdPerHash := None));
            && direct.Some? && mined.Some?
            && direct.value.(btc := mined.value.btc) == mined.value
            && (direct == mined <==> market.price > 0.0 || Fleet(BtcPerUnit(inp, market), inp) == 0.0)
  {
    var direct, mined := market.(usdPerHash := Some(ImpliedRate(market))), market.(usdPerHash := None);
    SameBtcPerUnit(inp, market);
    SameGross(inp, market);
    var mine, rated := Income(inp, mined).value, Income(inp, direct).value;
    assert mine == (Fleet(BtcPerUnit(inp, market), inp), Worth(Fleet(BtcPerUnit(inp, market), inp), market.price));
    assert rated.1 == Worth(Fleet(inp.hashrate * inp.hashMult, inp), ImpliedRate(market)) == mine.1;
    assert rated.0 == Coins(mine.1, market.price);
  }

  /** A coin worth nothing: counted from the difficulty there are coins, counted from the income there are none. */
  lemma WorthlessCoinParts()
    ensures var inp := Input(100.0, 3250, 1, 0.05, 2.5, 100.0, None, 1.0);
            var market := Market(0.0, 1000.0, 3.125, None);
            && Calculate(inp, market).value.btc > 0.0
            && Calculate(inp, market.(usdPerHash := Some(ImpliedRate(market)))).value.btc == 0.0
  {
    var inp, market := Input(100.0, 3250, 1, 0.05, 2.5, 100.0, None, 1.0), Market(0.0, 1000.0, 3.125, None);
    assert BtcPerUnit(inp, market) == 27_000_000.0 / 4_294_967_296_000.0;
    assert Fleet(BtcPerUnit(inp, market), inp) == BtcPerUnit(inp, market);
  }

  // ---------- comparing ----------

  /**
   Compared with itself nothing changes, backwards everything changes sign, and along a chain the changes
   add up; that of the efficiency does where all three devices have one.
   */
  lemma DeltasAddUp(a: Input, b: Input, c: Input, market: Market)
    requires Calculate(a, market).Some?
    ensures Compare(a, b, market).Some? && Compare(b, c, market).Some?
    ensures Compare(a, c, market).Some? && Compare(b, a, market).Some?
    ensures var ab, bc := Compare(a, b, market).value, Compare(b, c, market).value;
            var ac, ba := Compare(a, c, market).value, Compare(b, a, market).value;
            && ac == Delta(ab.profit + bc.profit, ab.power + bc.power, ab.powerCost + bc.powerCost,
                           ab.hashrate + bc.hashrate, ac.efficiency)
            && (ab.efficiency.Some? && bc.efficiency.Some? ==>
                  ac.efficiency == Some(ab.efficiency.value + bc.efficiency.value))
            && ba == Delta(-ab.profit, -ab.power, -ab.powerCost, -ab.hashrate,
                           if ab.efficiency.Some? then Some(-ab.efficiency.value) else None)
  {
    assert Calculate(b, market).Some? && Calculate(c, market).Some?;
  }

  /** The first scenario and the differences together are the second scenario. */
  lemma DeltasLeadThere(a: Input, b: Input, market: Market)
    requires Calculate(a, market).Some?
    ensures Calculate(b, market).Some? && Compare(a, b, market).Some?
    ensures var d, ra, rb := Compare(a, b, market).value, Calculate(a, market).value, Calculate(b, market).value;
            && ra.net + d.profit == rb.net && ra.powerCost + d.powerCost == rb.powerCost
            && a.powerW * a.quantity + d.power == b.powerW * b.quantity
            && a.hashrate * a.quantity as real + d.hashrate == b.hashrate * b.quantity as real
  {
  }

  lemma EfficiencyIsNear(powerW: int, hashrate: real)
    requires hashrate > 0.0
    ensures Efficiency(powerW, hashrate).Some?
    ensures Abs(Efficiency(powerW, hashrate).value - powerW as real / hashrate) <= 0.00005
  {
    var exact := powerW as real / hashrate;
    RoundingIsNear(exact * 10_000.0);
  }

  /**
   The efficiency difference is there exactly if both devices hash, and rounding moves it by one last decimal
   at most.
   */
  lemma DeltaOfEfficiency(a: Input, b: Input, market: Market)
    requires Calculate(a, market).Some?
    ensures Compare(a, b, market).Some?
    ensures var delta := Compare(a, b, market).value.efficiency;
            && (delta.Some? <==> a.hashrate > 0.0 && b.hashrate > 0.0)
            && (delta.Some? ==>
                  Abs(delta.value - (b.powerW as real / b.hashrate - a.powerW as real / a.hashrate)) <= 0.0001)
  {
    assert Calculate(b, market).Some?;
    if a.hashrate > 0.0 && b.hashrate > 0.0 {
      EfficiencyIsNear(a.powerW, a.hashrate);
      EfficiencyIsNear(b.powerW, b.hashrate);
    }
  }

  lemma NotPositive(x: real, y: real)
    requires x >= 0.0 && y >= 0.0
    ensures -x * y <= 0.0
  {
    assert x * y >= 0.0;
  }

  /**
   What the fleet has earned after `days` days covers its cost from the day that is shown on, and never when
   none is.
   */
  lemma PaysBackFrom(inp: Input, market: Market, days: real)
    requires Calculate(inp, market).Some? && inp.hardwareCost.Some? && inp.hardwareCost.value > 0.0 && days >= 0.0
    ensures var r := Calculate(inp, market).value;
            r.net * days >= inp.hardwareCost.value <==> r.roiDays.Some? && days >= r.roiDays.value
  {
    var r, cost := Calculate(inp, market).value, inp.hardwareCost.value;
    if r.net > 0.0 {
      var roi := r.roiDays.value;
      assert r.net * roi == cost;
      LessTimes(days, roi, r.net);
    } else {
      NotPositive(-r.net, days);
    }
  }
}
