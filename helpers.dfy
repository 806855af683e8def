/**
 * Display helpers: the date-input format `year-MM-DD`, the guards that
 * turn a missing date into an empty text or "not overdue", and the
 * priority colour and category icon mappings.
 */
module Helpers {
  import opened Wrappers
  import Text

  /** A date value is falsy when absent or empty. */
  predicate IsFalsy(date: Option<string>)
  {
    date.None? || date.value == ""
  }

  /** What the runtime's date object reports for a date: the full year,
      the zero-based month and the day of the month. */
  datatype DateParts = DateParts(year: int, month0: nat, day: nat)

  /** `String(n).padStart(2, '0')` for a non-negative number. */
  function TwoDigits(n: nat): (s: string)
    ensures n < 100 ==> |s| == 2
    ensures forall i :: 0 <= i < |s| ==> Text.IsDigit(s[i])
  {
    var digits := Text.NatToString(n);
    var padded := Text.PadStart(digits, 2, '0');
    assert n < 10 ==> padded == "0" + digits;
    padded
  }

  /** The padded numeral still reads as the number. */
  lemma TwoDigitsValue(n: nat)
    requires n < 100
    ensures Text.DigitsValue(TwoDigits(n)) == n
  {
    Text.NatToStringRoundTrip(n);
    if n < 10 {
      Text.LeadingZero(Text.NatToString(n));
      assert TwoDigits(n) == "0" + Text.NatToString(n);
    }
  }

  /**
   * The value for a date input. `parts` is what the runtime makes of the
   * date; it is used only when the date is present.
   */
  function FormatDateForInput(date: Option<string>, parts: DateParts): (r: string)
    ensures IsFalsy(date) <==> r == ""
  {
    if IsFalsy(date) then ""
    else
      Text.IntToString(parts.year) + "-" + TwoDigits(parts.month0 + 1) + "-" + TwoDigits(parts.day)
  }

  /** For a four-digit year and a real month and day the input value is
      the ten characters `YYYY-MM-DD`, whose fields read back as the year,
      the one-based month and the day. */
  lemma FormatDateForInputLayout(date: Option<string>, parts: DateParts)
    requires !IsFalsy(date)
    requires 1000 <= parts.year <= 9999 && parts.month0 <= 11 && 1 <= parts.day <= 31
    ensures var r := FormatDateForInput(date, parts);
      |r| == 10 && r[4] == '-' && r[7] == '-' &&
      (forall i :: 0 <= i < 10 && i != 4 && i != 7 ==> Text.IsDigit(r[i])) &&
      Text.DigitsValue(r[..4]) == parts.year &&
      Text.DigitsValue(r[5..7]) == parts.month0 + 1 &&
      Text.DigitsValue(r[8..]) == parts.day
  {
    var y := Text.NatToString(parts.year);
    var m := TwoDigits(parts.month0 + 1);
    var d := TwoDigits(parts.day);
    YearIsFourDigits(parts.year);
    var r := FormatDateForInput(date, parts);
    assert r == y + "-" + m + "-" + d;
    assert r[..4] == y && r[5..7] == m && r[8..] == d;
    Text.NatToStringRoundTrip(parts.year);
    TwoDigitsValue(parts.month0 + 1);
    TwoDigitsValue(parts.day);
  }

  lemma YearIsFourDigits(year: nat)
    requires 1000 <= year <= 9999
    ensures |Text.NatToString(year)| == 4
  {
    assert Text.NatToString(year) == Text.NatToString(year / 10) + [Text.DigitChar(year % 10)];
    assert Text.NatToString(year / 10) == Text.NatToString(year / 100) + [Text.DigitChar(year / 10 % 10)];
  }

  /** The display text: empty for a missing date, otherwise `rendered`,
      the runtime's locale rendering of it. */
  function FormatDate(date: Option<string>, rendered: string): (r: string)
    ensures IsFalsy(date) ==> r == ""
    ensures !IsFalsy(date) ==> r == rendered
  {
    if IsFalsy(date) then "" else rendered
  }

  /** A missing date is never overdue; a present one is when its instant
      lies before `now`, the current time. */
  function IsOverdue(date: Option<string>, instant: int, now: int): (overdue: bool)
    ensures overdue <==> !IsFalsy(date) && instant < now
  {
    if IsFalsy(date) then false else instant < now
  }

  function PriorityColor(priority: string): (c: string)
    ensures priority == "high" <==> c == "text-red-500"
    ensures priority == "medium" <==> c == "text-yellow-500"
    ensures priority == "low" <==> c == "text-green-500"
    ensures priority !in {"high", "medium", "low"} <==> c == "text-gray-500"
  {
    match priority
    case "high" => "text-red-500"
    case "medium" => "text-yellow-500"
    case "low" => "text-green-500"
    case _ => "text-gray-500"
  }

  /** Briefcase, bust, shopping cart, hospital, and a pushpin for any other
      category. */
  function CategoryIcon(category: string): (icon: string)
    ensures category == "work" <==> icon == "\U{1F4BC}"
    ensures category == "personal" <==> icon == "\U{1F464}"
    ensures category == "shopping" <==> icon == "\U{1F6D2}"
    ensures category == "health" <==> icon == "\U{1F3E5}"
    ensures category !in {"work", "personal", "shopping", "health"} <==> icon == "\U{1F4CC}"
  {
    match category
    case "work" => "\U{1F4BC}"
    case "personal" => "\U{1F464}"
    case "shopping" => "\U{1F6D2}"
    case "health" => "\U{1F3E5}"
    case _ => "\U{1F4CC}"
  }
}
