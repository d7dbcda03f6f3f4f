/** The salesperson-commission exercise: annual sales, days of leave and the
    percentage of cash received give a commission. Arguments are untyped in
    the source and checked with `isinstance`. */
module SellerBonus {
  import opened PyValue

  const SalesError := "销售额必须为非负数"
  const LeaveError := "请假天数必须为整数，且在 0 到 366 之间"
  const CashError := "现金到账比例必须为 0 到 100 之间的数"

  /** A message, or the commission that the source rounds to two places. */
  datatype Answer = Message(text: string) | Amount(value: real)

  /** `isinstance(v, int)`: `bool` is a subclass of `int`. */
  predicate IsInt(v: Value) { v.PyBool? || v.PyInt? }

  predicate ValidSales(v: Value) { IsNumber(v) && NumValue(v) >= 0.0 }
  predicate ValidLeave(v: Value) { IsInt(v) && 0.0 <= NumValue(v) <= 366.0 }
  predicate ValidCash(v: Value) { IsNumber(v) && 0.0 <= NumValue(v) <= 100.0 }

  /** The divisor for valid arguments, or none when no commission is due
      (big seller, little leave, but under 60% cash received). */
  function Factor(sales: real, leave: real, cash: real): (f: int)
    ensures f in {0, 5, 6, 7}
    ensures f == 0 <==> sales > 200.0 && leave <= 10.0 && cash < 60.0
    ensures f == 7 <==> sales > 200.0 && leave <= 10.0 && cash >= 60.0
    ensures f == 6 <==> !(sales > 200.0 && leave <= 10.0) && cash <= 85.0
  {
    if sales > 200.0 && leave <= 10.0 then
      if cash >= 60.0 then 7 else 0
    else if cash <= 85.0 then 6 else 5
  }

  /** `calculate_commission(sales_amount, leave_days, cash_arrival_percent)`:
      the three checks in argument order, then sales divided by the factor. */
  function CalculateCommission(sales: Value, leave: Value, cash: Value): (r: Answer)
    ensures r == Message(SalesError) <==> !ValidSales(sales)
    ensures r == Message(LeaveError) <==> ValidSales(sales) && !ValidLeave(leave)
    ensures r == Message(CashError) <==> ValidSales(sales) && ValidLeave(leave) && !ValidCash(cash)
    ensures r.Amount? <==> ValidSales(sales) && ValidLeave(leave) && ValidCash(cash)
    ensures r.Amount? ==> 0.0 <= r.value <= NumValue(sales) / 5.0
    ensures r.Amount? ==>
      var f := Factor(NumValue(sales), NumValue(leave), NumValue(cash));
      r.value * (if f == 0 then 1 else f) as real == (if f == 0 then 0.0 else NumValue(sales))
  {
    if !IsNumber(sales) || NumValue(sales) < 0.0 then Message(SalesError)
    else if !IsInt(leave) || !(0.0 <= NumValue(leave) <= 366.0) then Message(LeaveError)
    else if !IsNumber(cash) || !(0.0 <= NumValue(cash) <= 100.0) then Message(CashError)
    else
      var s, l, c := NumValue(sales), NumValue(leave), NumValue(cash);
      if s > 200.0 && l <= 10.0 then
        if c >= 60.0 then Amount(s / 7.0) else Amount(0.0)
      else if c <= 85.0 then Amount(s / 6.0)
      else Amount(s / 5.0)
  }

  /** A float is not accepted as a number of days, even a whole one; a bool
      is, as 0 or 1. */
  lemma LeaveMustBeInt(r: real)
    requires 0.0 <= r <= 366.0
    ensures CalculateCommission(PyInt(100), PyFloat(r), PyInt(50)) == Message(LeaveError)
    ensures CalculateCommission(PyInt(100), PyBool(true), PyInt(50)) == Amount(100.0 / 6.0)
  {
  }
}
