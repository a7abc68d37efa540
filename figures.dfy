/**
 * Figures as the formatters show them, and how a reader reads them back.
 * `(n / unit).toFixed(1)` is modelled on integers: the shown figure is a whole
 * number of tenths of `unit`.
 */
module Figures {
  import opened Wrappers
  import opened Text

  /**
   * The number of tenths of `unit` that `(n / unit).toFixed(1)` shows, rounding
   * to the nearest tenth: the shown value is within half a tenth of the true one.
   */
  function RoundedTenths(n: nat, unit: nat): (t: nat)
    requires unit == 1000 || unit == 1000000
    ensures t * unit <= 10 * n + unit / 2
    ensures 10 * n <= t * unit + unit / 2
  {
    if unit == 1000 then (n + 50) / 100 else (n + 50000) / 100000
  }

  /** A number of tenths written with one decimal place: 12 is "1.2", 10000 is "1000.0". */
  function Fixed1(tenths: nat): string {
    NatToString(tenths / 10) + "." + [DigitChar(tenths % 10)]
  }

  /** `(n / unit).toFixed(1)`. */
  function ToFixed1(n: nat, unit: nat): string
    requires unit == 1000 || unit == 1000000
  {
    Fixed1(RoundedTenths(n, unit))
  }

  /** Reads "<digits>.<digit>" back as a number of tenths. */
  function ReadFixed1(s: string): Option<nat> {
    if |s| >= 3 && s[|s| - 2] == '.' && IsDigit(s[|s| - 1]) && IsCanonical(s[..|s| - 2])
    then Some(10 * ParseDigits(s[..|s| - 2]) + DigitValue(s[|s| - 1]))
    else None
  }

  lemma Fixed1ReadsBack(tenths: nat)
    ensures ReadFixed1(Fixed1(tenths)) == Some(tenths)
  {
    var whole := NatToString(tenths / 10);
    var s := Fixed1(tenths);
    assert s[..|s| - 2] == whole;
    ParseNatToString(tenths / 10);
  }

  /** What a shown view figure says: a plain count, or tenths of a thousand or of a million. */
  datatype ViewsFigure = Plain(count: nat) | Thousands(tenths: nat) | Millions(tenths: nat)

  /** Reads a shown view figure ("999", "1.5K", "2.3M"). */
  function ReadViews(s: string): Option<ViewsFigure> {
    if s == [] then None
    else if s[|s| - 1] == 'M' then
      match ReadFixed1(s[..|s| - 1])
      case Some(t) => Some(Millions(t))
      case None => None
    else if s[|s| - 1] == 'K' then
      match ReadFixed1(s[..|s| - 1])
      case Some(t) => Some(Thousands(t))
      case None => None
    else if IsDigits(s) then Some(Plain(ParseDigits(s)))
    else None
  }

  /** The figure stands for `n`: exactly for a plain count, within half a shown tenth otherwise. */
  predicate Approximates(f: ViewsFigure, n: nat) {
    match f
    case Plain(c) => c == n
    case Thousands(t) => 10 * n <= t * 1000 + 500 && t * 1000 <= 10 * n + 500
    case Millions(t) => 10 * n <= t * 1000000 + 500000 && t * 1000000 <= 10 * n + 500000
  }

  /** `ToFixed1(n, unit)` followed by a suffix reads back as a figure close to `n`. */
  lemma ToFixed1ReadsBack(n: nat, unit: nat, suffix: char)
    requires unit == 1000 || unit == 1000000
    requires suffix == (if unit == 1000 then 'K' else 'M')
    ensures var f := ReadViews(ToFixed1(n, unit) + [suffix]);
      f.Some? && Approximates(f.value, n)
      && (f.value.Thousands? <==> unit == 1000) && (f.value.Millions? <==> unit == 1000000)
  {
    var t := RoundedTenths(n, unit);
    var s := ToFixed1(n, unit) + [suffix];
    assert s[..|s| - 1] == Fixed1(t);
    Fixed1ReadsBack(t);
  }

  /**
   * The number of seconds a colon-separated clock ("1:05", "1:2:03") stands for:
   * each field counts sixty of the field after it.
   */
  function ClockSeconds(fields: seq<string>): nat
    requires forall i :: 0 <= i < |fields| ==> IsDigits(fields[i])
  {
    if fields == [] then 0
    else 60 * ClockSeconds(fields[..|fields| - 1]) + ParseDigits(fields[|fields| - 1])
  }

  lemma ClockOfTwo(minutes: string, seconds: string)
    requires IsDigits(minutes) && IsDigits(seconds)
    ensures ClockSeconds([minutes, seconds]) == 60 * ParseDigits(minutes) + ParseDigits(seconds)
  {
    assert [minutes, seconds][..1] == [minutes] && [minutes][..0] == [];
    assert ClockSeconds([minutes]) == ParseDigits(minutes);
  }

  lemma ClockOfThree(hours: string, minutes: string, seconds: string)
    requires IsDigits(hours) && IsDigits(minutes) && IsDigits(seconds)
    ensures ClockSeconds([hours, minutes, seconds])
      == 3600 * ParseDigits(hours) + 60 * ParseDigits(minutes) + ParseDigits(seconds)
  {
    assert [hours, minutes, seconds][..2] == [hours, minutes];
    ClockOfTwo(hours, minutes);
  }
}
