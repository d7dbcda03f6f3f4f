/** The telephone-billing exercise: a monthly call duration and a count of
    late payments give the monthly fee, with a discount by duration band. */
module TelecomSystem {

  const DurationError := "通话时长数值越界"
  const CountError := "未按时缴费次数越界"

  /** The most minutes in a month: 31 days of 24 hours. */
  const MaxMinutes := 31 * 24 * 60

  /** Late payments tolerated in each band, bands numbered from 1. */
  const MaxLate: seq<int> := [1, 2, 3, 3, 6]

  /** A message, or the fee that the source prints rounded to cents. */
  datatype Answer = Message(text: string) | Fee(amount: real)

  /** The duration band, as the if/elif chain inside `telecom_system`
      assigns it. */
  function Level(t: int): (level: int)
    ensures 1 <= level <= 5
    ensures level == 1 <==> 0 < t <= 60
    ensures level == 2 <==> 60 < t <= 120
    ensures level == 3 <==> 120 < t <= 180
    ensures level == 4 <==> 180 < t <= 300
  {
    if t > 0 && t <= 60 then 1
    else if t > 60 && t <= 120 then 2
    else if t > 120 && t <= 180 then 3
    else if t > 180 && t <= 300 then 4
    else 5
  }

  /** The second copy of the banding, written as early returns. */
  function GetLevel(time: int): int {
    if time > 0 && time <= 60 then 1
    else if time > 60 && time <= 120 then 2
    else if time > 120 && time <= 180 then 3
    else if time > 180 && time <= 300 then 4
    else 5
  }

  /** Both copies band every duration alike. */
  lemma LevelsAgree(t: int)
    ensures Level(t) == GetLevel(t)
  {
  }

  /** The uncounted fee: 25 fixed plus 0.15 per minute. */
  function FullFee(t: int): real {
    25.0 + 0.15 * t as real
  }

  /** `telecom_system(calling_time, count)`: duration checked before the
      count; in range, the per-minute part is discounted by
      (level + 1) * 0.5% when the late count is within the band's limit. */
  function TelecomSystem(t: int, count: int): (r: Answer)
    ensures r == Message(DurationError) <==> t < 0 || t > MaxMinutes
    ensures r == Message(CountError) <==> 0 <= t <= MaxMinutes && (count < 0 || count > 11)
    ensures r.Fee? <==> 0 <= t <= MaxMinutes && 0 <= count <= 11
    ensures r.Fee? ==> 25.0 <= r.amount <= FullFee(t)
    ensures r.Fee? && t == 0 ==> r.amount == 25.0
    ensures r.Fee? && t > 0 ==> (r.amount < FullFee(t) <==> count <= MaxLate[Level(t) - 1])
  {
    if t < 0 || t > MaxMinutes then Message(DurationError)
    else if count < 0 || count > 11 then Message(CountError)
    else
      var level := Level(t);
      if count <= MaxLate[level - 1] then
        Fee(25.0 + 0.15 * t as real * (1.0 - (level + 1) as real * 0.005))
      else Fee(25.0 + 0.15 * t as real)
  }
}
