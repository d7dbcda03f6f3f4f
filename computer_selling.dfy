/** The one-shot computer-selling exercise: validate one month's counts of
    hosts, monitors and peripherals and return the commission. */
module ComputerSelling {
  import ComputerSale

  const StartMessage := "系统开始统计月度销售额"
  const TooFew := "数据非法，各部件销售数量不能小于1"
  const TooManyHosts := "数据非法，主机销售数量不能超过70"
  const TooManyMonitors := "数据非法，显示器销售数量不能超过80"
  const TooManyPeripherals := "数据非法，外设销售数量不能超过90"

  /** A message, or the commission amount that the source prints with
      `str(...)`. */
  datatype Answer = Message(text: string) | Commission(amount: real)

  function TotalSales(host: int, monitor: int, peripheral: int): int {
    host * 25 + monitor * 30 + peripheral * 45
  }

  predicate ValidCounts(host: int, monitor: int, peripheral: int) {
    1 <= host <= 70 && 1 <= monitor <= 80 && 1 <= peripheral <= 90
  }

  /** `computer_selling(host, monitor, peripheral)`: the -1 start marker,
      then the lower bound on every count, then the upper bounds in the
      order hosts, monitors, peripherals; else the tiered commission. */
  function ComputerSelling(host: int, monitor: int, peripheral: int): (r: Answer)
    ensures host == -1 ==> r == Message(StartMessage)
    ensures host != -1 && (host <= 0 || monitor <= 0 || peripheral <= 0) ==> r == Message(TooFew)
    ensures r == Message(TooManyHosts) <==> host > 70 && monitor > 0 && peripheral > 0
    ensures r == Message(TooManyMonitors) <==> 0 < host <= 70 && monitor > 80 && peripheral > 0
    ensures r == Message(TooManyPeripherals) <==>
      0 < host <= 70 && 0 < monitor <= 80 && peripheral > 90
    ensures r.Commission? <==> ValidCounts(host, monitor, peripheral)
    ensures r.Commission? ==>
      var total := TotalSales(host, monitor, peripheral);
      100 <= total <= 8200 && r.amount == ComputerSale.CalculateCommission(total as real)
      && r.amount > 0.0
  {
    if host == -1 then Message(StartMessage)
    else if host <= 0 || monitor <= 0 || peripheral <= 0 then Message(TooFew)
    else if host > 70 then Message(TooManyHosts)
    else if monitor > 80 then Message(TooManyMonitors)
    else if peripheral > 90 then Message(TooManyPeripherals)
    else
      var total := TotalSales(host, monitor, peripheral);
      if total <= 1000 then Commission(total as real * 0.1)
      else if total <= 1800 then Commission(total as real * 0.15)
      else Commission(total as real * 0.2)
  }

  /** Selling more of any part never lowers the commission. */
  lemma MoreSalesMoreCommission(h: int, m: int, p: int, h2: int, m2: int, p2: int)
    requires ValidCounts(h, m, p) && ValidCounts(h2, m2, p2)
    requires h <= h2 && m <= m2 && p <= p2
    ensures ComputerSelling(h, m, p).amount <= ComputerSelling(h2, m2, p2).amount
  {
    ComputerSale.CommissionMonotone(TotalSales(h, m, p) as real, TotalSales(h2, m2, p2) as real);
  }
}
