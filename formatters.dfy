/** The front end's display formatters: relative times, percentages, capitalising, truncating,
    phone numbers and status badge colours. */
module Formatters {
  import opened Wrappers
  import opened Text
  import opened Constants
  import Helpers

  // ---------------------------------------------------------------- relative time

  /** The units `timeAgo` tries, largest first, with their lengths in seconds. */
  const Units: seq<(string, nat)> := [
    ("year", 31536000), ("month", 2592000), ("week", 604800),
    ("day", 86400), ("hour", 3600), ("minute", 60)
  ]

  lemma UnitsDescending(i: nat, j: nat)
    requires i < j < |Units|
    ensures Units[i].1 > Units[j].1
  {
  }

  /** "3 days ago", "1 hour ago". */
  function Phrase(interval: nat, unit: string): string {
    NatToString(interval) + " " + unit + (if interval > 1 then "s" else "") + " ago"
  }

  /** The phrase for an age of `seconds`: the first unit of `units` that fits at least once. */
  function Ago(seconds: int, units: seq<(string, nat)>): string
    requires forall k :: 0 <= k < |units| ==> units[k].1 > 0
  {
    if units == [] then "Just now"
    else if seconds / units[0].1 >= 1 then Phrase(seconds / units[0].1, units[0].0)
    else Ago(seconds, units[1..])
  }

  /** The age in whole seconds of an instant, both in milliseconds (`Math.floor(ms / 1000)`). */
  function Seconds(now: int, date: int): int {
    (now - date) / 1000
  }

  /** `timeAgo`: nothing for a missing date or the instant 0 (both falsy); otherwise the loop
      over the units, returning at the first one that fits. */
  method TimeAgo(date: Option<int>, now: int) returns (text: string)
    ensures date.None? || date.value == 0 ==> text == ""
    ensures date.Some? && date.value != 0 ==> text == Ago(Seconds(now, date.value), Units)
  {
    if date.None? || date.value == 0 {
      return "";
    }
    var seconds := (now - date.value) / 1000;
    var i := 0;
    while i < |Units|
      invariant 0 <= i <= |Units|
      invariant Ago(seconds, Units) == Ago(seconds, Units[i..])
    {
      var (unit, secondsInUnit) := Units[i];
      var interval := seconds / secondsInUnit;
      if interval >= 1 {
        return Phrase(interval, unit);
      }
      assert Units[i..][1..] == Units[i + 1..];
      i := i + 1;
    }
    return "Just now";
  }

  /** The phrase names the largest unit the age reaches, counted in whole units. */
  lemma {:induction false} AgoPicksLargestUnit(seconds: int, units: seq<(string, nat)>, k: nat)
    requires forall j :: 0 <= j < |units| ==> units[j].1 > 0
    requires k < |units| && units[k].1 <= seconds
    requires forall j :: 0 <= j < k ==> seconds < units[j].1
    ensures Ago(seconds, units) == Phrase(seconds / units[k].1, units[k].0)
  {
    if k > 0 {
      DivBelowOne(seconds, units[0].1);
      AgoPicksLargestUnit(seconds, units[1..], k - 1);
    } else {
      DivAtLeastOne(seconds, units[0].1);
    }
  }

  lemma DivAtLeastOne(a: int, b: int)
    requires 0 < b <= a
    ensures a / b >= 1
  {
  }

  lemma DivBelowOne(a: int, b: int)
    requires 0 < b && a < b
    ensures a / b < 1
  {
  }

  /** An age below every unit is "Just now". */
  lemma {:induction false} AgoBelowAllUnits(seconds: int, units: seq<(string, nat)>)
    requires forall j :: 0 <= j < |units| ==> 0 < units[j].1 && seconds < units[j].1
    ensures Ago(seconds, units) == "Just now"
  {
    if units != [] {
      DivBelowOne(seconds, units[0].1);
      AgoBelowAllUnits(seconds, units[1..]);
    }
  }

  /** An age below a minute, a date in the future included, is "Just now". */
  lemma UnderAMinuteIsJustNow(seconds: int)
    requires seconds < 60
    ensures Ago(seconds, Units) == "Just now"
  {
    AgoBelowAllUnits(seconds, Units);
  }

  // ---------------------------------------------------------------- percentages

  /** `x.toFixed(d)`: the sign of a negative number, the whole units of the rounded magnitude
      and, for a positive number of decimals, a point and exactly that many fraction digits. */
  function FixedText(x: real, decimals: nat): string
  {
    var n, p := Helpers.ScaledRound(x, decimals), Pow10(decimals);
    (if x < 0.0 then "-" else "") + NatToString(Whole(n, p)) + (if decimals == 0 then "" else "." + PadNat(Fraction(n, p), decimals))
  }

  function Whole(n: nat, p: nat): nat
    requires p >= 1
  {
    n / p
  }

  function Fraction(n: nat, p: nat): (r: nat)
    requires p >= 1
    ensures r < p
  {
    n % p
  }

  lemma WholeAndFraction(n: nat, p: nat)
    requires p >= 1
    ensures Whole(n, p) * p + Fraction(n, p) == n
  {
  }

  /** The text reads back as the rounded value: its whole part and its `decimals` fraction
      digits make up the rounded magnitude. */
  lemma FixedTextReadsBack(x: real, decimals: nat)
    requires x >= 0.0 && decimals >= 1
    ensures var r, n := FixedText(x, decimals), Helpers.ScaledRound(x, decimals);
            var w := |r| - decimals - 1;
            0 <= w && r[w] == '.' &&
            DecimalValue(r[..w]) * Pow10(decimals) + DecimalValue(r[w + 1..]) == n
  {
    var n, p := Helpers.ScaledRound(x, decimals), Pow10(decimals);
    var whole, fraction := NatToString(Whole(n, p)), PadNat(Fraction(n, p), decimals);
    PadNatWidth(Fraction(n, p), decimals);
    NatToStringRoundTrip(Whole(n, p));
    PadNatRoundTrip(Fraction(n, p), decimals);
    WholeAndFraction(n, p);
    var r := FixedText(x, decimals);
    assert r == whole + "." + fraction;
    assert r[..|whole|] == whole && r[|whole| + 1..] == fraction;
  }

  /** `percentage`: "0%" of a zero total, otherwise the share to `decimals` places. */
  function Percentage(value: real, total: real, decimals: nat := 1): (r: string)
    ensures total == 0.0 ==> r == "0%"
    ensures |r| >= 2 && r[|r| - 1] == '%'
    ensures total != 0.0 ==> r[..|r| - 1] == FixedText(value / total * 100.0, decimals)
  {
    if total == 0.0 then "0%" else FixedText(value / total * 100.0, decimals) + "%"
  }

  // ---------------------------------------------------------------- strings

  /** `capitalize`: the first character upper-cased and the rest as it was. */
  function Capitalize(s: string): (r: string)
    ensures |r| == |s|
    ensures s != "" ==> r[0] == ToUpper(s[0]) && r[1..] == s[1..]
  {
    if s == "" then "" else [ToUpper(s[0])] + s[1..]
  }

  /** Capitalising twice is capitalising once. */
  lemma CapitalizeIdempotent(s: string)
    ensures Capitalize(Capitalize(s)) == Capitalize(s)
  {
    if s != "" {
      assert ToUpper(ToUpper(s[0])) == ToUpper(s[0]);
    }
  }

  /** `truncate`: an empty string, or one of at most `length` characters, as it is; otherwise
      its first `length` characters followed by "...". */
  function Truncate(s: string, length: int := 50): (r: string)
    ensures s == "" || |s| <= length ==> r == s
    ensures s != "" && |s| > length ==>
              var k := Max(length, 0);
              |r| == k + 3 && r[..k] == s[..k] && r[k..] == "..."
  {
    if s == "" || |s| <= length then s
    else
      var r := s[..Max(length, 0)] + "...";
      assert r[..Max(length, 0)] == s[..Max(length, 0)] && r[Max(length, 0)..] == "...";
      r
  }

  /** A truncated text is never longer than the limit plus the ellipsis. */
  lemma TruncateBounded(s: string, length: nat)
    ensures |Truncate(s, length)| <= length + 3
  {
  }

  /** The digits of a concatenation are the digits of each part. */
  lemma {:induction false} DigitsOfConcat(a: string, b: string)
    ensures DigitsOf(a + b) == DigitsOf(a) + DigitsOf(b)
  {
    if a != "" {
      var c := a[0];
      assert (a + b)[0] == c && (a + b)[1..] == a[1..] + b;
      DigitsOfConcat(a[1..], b);
      var d := if IsDigit(c) then [c] else "";
      assert DigitsOf(a + b) == d + DigitsOf(a[1..] + b);
      assert DigitsOf(a) == d + DigitsOf(a[1..]);
    } else {
      assert a + b == b;
    }
  }

  lemma {:induction false} DigitsOfDigits(s: string)
    requires forall i :: 0 <= i < |s| ==> IsDigit(s[i])
    ensures DigitsOf(s) == s
  {
    if s != "" {
      DigitsOfDigits(s[1..]);
    }
  }

  /** `phone`: a number with exactly ten digits, whatever separates them, as "(ddd) ddd-dddd";
      anything else as it is. */
  function Phone(phone: string): (r: string)
    ensures |DigitsOf(phone)| == 10 ==> |r| == 14 && r[0] == '(' && r[4..6] == ") " && r[9] == '-'
    ensures |DigitsOf(phone)| != 10 ==> r == phone
  {
    var cleaned := DigitsOf(phone);
    if |cleaned| == 10 then "(" + cleaned[..3] + ") " + cleaned[3..6] + "-" + cleaned[6..] else phone
  }

  /** Formatting keeps the digits: the formatted number has the same digits in the same order. */
  lemma PhoneKeepsDigits(phone: string)
    ensures DigitsOf(Phone(phone)) == DigitsOf(phone)
  {
    var c := DigitsOf(phone);
    if |c| == 10 {
      var a, b, d := c[..3], c[3..6], c[6..];
      assert c == a + b + d;
      DigitsOfDigits(a);
      DigitsOfDigits(b);
      DigitsOfDigits(d);
      var r1 := "(" + a;
      DigitsOfConcat("(", a);
      var r2 := r1 + ") ";
      DigitsOfConcat(r1, ") ");
      var r3 := r2 + b;
      DigitsOfConcat(r2, b);
      var r4 := r3 + "-";
      DigitsOfConcat(r3, "-");
      DigitsOfConcat(r4, d);
      SeparatorDigits();
      assert Phone(phone) == r4 + d;
    }
  }

  lemma SeparatorDigits()
    ensures DigitsOf("(") == "" && DigitsOf(") ") == "" && DigitsOf("-") == ""
  {
  }

  // ---------------------------------------------------------------- status badges

  /** `statusBadge`: the colour of the seven known statuses, grey for any other. */
  function StatusBadge(status: string): (colour: string)
    ensures colour in {"green", "red", "yellow", "orange", "blue", "gray"}
    ensures colour != "gray" ==> status in {"present", "absent", "late", "pending_review", "active", "scheduled"}
  {
    match status
    case "present" => "green"
    case "absent" => "red"
    case "late" => "yellow"
    case "pending_review" => "orange"
    case "active" => "green"
    case "completed" => "gray"
    case "scheduled" => "blue"
    case _ => "gray"
  }

  /** Present, absent, late and pending-review records get four different colours; a partial
      record, having no colour of its own, is grey. */
  lemma AttendanceBadges(s: AttendanceStatus, t: AttendanceStatus)
    requires s != Partial && t != Partial && s != t
    ensures StatusBadge(AttendanceStatusName(s)) != StatusBadge(AttendanceStatusName(t))
    ensures StatusBadge(AttendanceStatusName(Partial)) == "gray"
  {
  }
}
