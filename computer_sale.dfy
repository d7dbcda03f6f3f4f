/** The interactive computer-sale accumulator: sale entries are read until
    "-1", each accepted entry is added to the monthly totals within the
    70/80/90 stock limits, and a tiered commission is paid at the end. */
module ComputerSale {
  import opened Wrappers

  const HostPrice := 25
  const DisplayPrice := 30
  const PeripheralPrice := 45
  const MaxHosts := 70
  const MaxDisplays := 80
  const MaxPeripherals := 90

  /** The commission rate for a sales amount: 10% up to 1000, 15% up to
      1800, 20% above. */
  function Rate(amount: real): (rate: real)
    ensures rate == 0.10 || rate == 0.15 || rate == 0.20
    ensures rate == 0.10 <==> amount <= 1000.0
    ensures rate == 0.20 <==> amount > 1800.0
  {
    if amount <= 1000.0 then 0.10 else if amount <= 1800.0 then 0.15 else 0.20
  }

  /** `calculate_commission(sales_amount)`. */
  function CalculateCommission(amount: real): real {
    amount * Rate(amount)
  }

  /** A larger sales amount never earns a smaller commission, across the
      tier boundaries too. */
  lemma CommissionMonotone(x: real, y: real)
    requires 0.0 <= x <= y
    ensures CalculateCommission(x) <= CalculateCommission(y)
  {
    assert x * Rate(x) <= y * Rate(x);
    assert y * Rate(x) <= y * Rate(y);
  }

  /** One attempt of the input loop, after the console text is read:
      the end marker "-1" for the hosts, a line `int()` rejects, or three
      counts. */
  datatype Entry = Stop | Unparsable | Counts(hosts: int, displays: int, peripherals: int)

  datatype Totals = Totals(hosts: int, displays: int, peripherals: int, sales: int)

  /** Totals within the monthly stock limits, as the loop keeps them. */
  predicate WithinLimits(t: Totals) {
    0 <= t.hosts <= MaxHosts && 0 <= t.displays <= MaxDisplays
    && 0 <= t.peripherals <= MaxPeripherals
    && t.sales == HostPrice * t.hosts + DisplayPrice * t.displays + PeripheralPrice * t.peripherals
  }

  /** Whether an entry of counts is accepted against the current totals:
      no negative count, and no cumulative limit exceeded. */
  predicate Acceptable(t: Totals, h: int, d: int, p: int) {
    h >= 0 && d >= 0 && p >= 0
    && t.hosts + h <= MaxHosts && t.displays + d <= MaxDisplays
    && t.peripherals + p <= MaxPeripherals
  }

  /** The effect of one non-final entry on the totals. */
  function Apply(t: Totals, e: Entry): (r: Totals)
    requires !e.Stop?
    ensures WithinLimits(t) ==> WithinLimits(r)
    ensures e.Counts? && Acceptable(t, e.hosts, e.displays, e.peripherals) ==>
      r == Totals(t.hosts + e.hosts, t.displays + e.displays, t.peripherals + e.peripherals,
                  t.sales + HostPrice * e.hosts + DisplayPrice * e.displays + PeripheralPrice * e.peripherals)
    ensures !(e.Counts? && Acceptable(t, e.hosts, e.displays, e.peripherals)) ==> r == t
  {
    match e
    case Unparsable => t
    case Counts(h, d, p) =>
      if h < 0 || d < 0 || p < 0 then t
      else if t.hosts + h > MaxHosts then t
      else if t.displays + d > MaxDisplays then t
      else if t.peripherals + p > MaxPeripherals then t
      else Totals(t.hosts + h, t.displays + d, t.peripherals + p,
                  t.sales + HostPrice * h + DisplayPrice * d + PeripheralPrice * p)
  }

  /** The totals after the entries up to the first `Stop`. */
  function Run(t: Totals, entries: seq<Entry>): Totals
    decreases |entries|
  {
    if entries == [] || entries[0].Stop? then t else Run(Apply(t, entries[0]), entries[1..])
  }

  /** The totals stay within the stock limits whatever is entered. */
  lemma {:induction false} RunWithinLimits(t: Totals, entries: seq<Entry>)
    requires WithinLimits(t)
    ensures WithinLimits(Run(t, entries))
    decreases |entries|
  {
    if entries != [] && !entries[0].Stop? {
      RunWithinLimits(Apply(t, entries[0]), entries[1..]);
    }
  }

  /** Entries after the end marker are never read. */
  lemma StopEndsInput(t: Totals, before: seq<Entry>, after: seq<Entry>)
    requires forall k :: 0 <= k < |before| ==> !before[k].Stop?
    ensures Run(t, before + [Stop] + after) == Run(t, before)
    decreases |before|
  {
    if before != [] {
      assert (before + [Stop] + after)[1..] == before[1..] + [Stop] + after;
      StopEndsInput(Apply(t, before[0]), before[1..], after);
    }
  }

  /** The end-of-month decision: a commission only when every kind of part
      sold at least once (and the amount is positive). */
  function Settle(t: Totals): Option<real> {
    if t.hosts >= 1 && t.displays >= 1 && t.peripherals >= 1 then
      if t.sales > 0 then Some(CalculateCommission(t.sales as real)) else None
    else None
  }

  /** With totals inside the limits, a commission is paid exactly when every
      part sold at least once, and it is then at least 10% of 100. */
  lemma SettleWhenComplete(t: Totals)
    requires WithinLimits(t)
    ensures Settle(t).Some? <==> t.hosts >= 1 && t.displays >= 1 && t.peripherals >= 1
    ensures Settle(t).Some? ==> Settle(t).value >= 10.0
  {
  }

  /** `main()` with the console replaced by the sequence of entries: the
      `while True` loop with its `continue`s and its `break`. */
  method MonthlySales(entries: seq<Entry>) returns (totals: Totals, commission: Option<real>)
    ensures totals == Run(Totals(0, 0, 0, 0), entries)
    ensures WithinLimits(totals)
    ensures commission == Settle(totals)
  {
    var totalSales := 0;
    var totalHosts := 0;
    var totalDisplays := 0;
    var totalPeripherals := 0;
    var i := 0;
    while i < |entries|
      invariant 0 <= i <= |entries|
      invariant forall k :: 0 <= k < i ==> !entries[k].Stop?
      invariant Run(Totals(0, 0, 0, 0), entries) ==
        Run(Totals(totalHosts, totalDisplays, totalPeripherals, totalSales), entries[i..])
      invariant WithinLimits(Totals(totalHosts, totalDisplays, totalPeripherals, totalSales))
    {
      var e := entries[i];
      i := i + 1;
      if e.Stop? {
        break;
      }
      assert entries[i - 1..][1..] == entries[i..];
      if e.Unparsable? {
        continue;
      }
      var h, d, p := e.hosts, e.displays, e.peripherals;
      if h < 0 || d < 0 || p < 0 {
        continue;
      }
      if totalHosts + h > MaxHosts {
        continue;
      }
      if totalDisplays + d > MaxDisplays {
        continue;
      }
      if totalPeripherals + p > MaxPeripherals {
        continue;
      }
      totalHosts := totalHosts + h;
      totalDisplays := totalDisplays + d;
      totalPeripherals := totalPeripherals + p;
      var currentSales := h * HostPrice + d * DisplayPrice + p * PeripheralPrice;
      totalSales := totalSales + currentSales;
    }
    totals := Totals(totalHosts, totalDisplays, totalPeripherals, totalSales);
    if totalHosts >= 1 && totalDisplays >= 1 && totalPeripherals >= 1 {
      if totalSales > 0 {
        commission := Some(CalculateCommission(totalSales as real));
      } else {
        commission := None;
      }
    } else {
      commission := None;
    }
  }
}
