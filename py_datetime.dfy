/** `datetime` values and their `strftime("%Y-%m-%d %H:%M:%S")` text. */
module PyDateTime {
  import opened PyText

  datatype DateTime = DateTime(year: nat, month: nat, day: nat, hour: nat, minute: nat, second: nat)

  function Zeros(n: nat): (s: string)
    ensures |s| == n && AllDigits(s)
  {
    if n == 0 then [] else "0" + Zeros(n - 1)
  }

  /** A number in decimal, left-padded with zeros to `width` digits. */
  function Pad(n: nat, width: nat): (s: string)
    ensures AllDigits(s) && |s| >= width
    ensures |NatToString(n)| >= width ==> s == NatToString(n)
  {
    var d := NatToString(n);
    if |d| >= width then d else Zeros(width - |d|) + d
  }

  /** `dt.strftime("%Y-%m-%d %H:%M:%S")`. */
  function Format(dt: DateTime): string {
    Pad(dt.year, 4) + "-" + Pad(dt.month, 2) + "-" + Pad(dt.day, 2) + " "
    + Pad(dt.hour, 2) + ":" + Pad(dt.minute, 2) + ":" + Pad(dt.second, 2)
  }
}
