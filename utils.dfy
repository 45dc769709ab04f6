/**
  The display and arithmetic helpers of lib/utils.ts. JavaScript numbers are
  modelled as `int` where the helper is meant for whole numbers (minutes,
  centimetres, string lengths) and as `real` where fractions matter
  (percentages, BMI, clamping); NaN and the infinities are not modelled.
*/
module Utils {
  import opened Wrappers
  import opened Numerals

  // ---------------------------------------------------------------------------
  // Rounding

  /** `Math.round`: the nearest integer, halves rounded up (towards +infinity). */
  function Round(x: real): (r: int)
    ensures r as real - 0.5 <= x < r as real + 0.5
  {
    (x + 0.5).Floor
  }

  // ---------------------------------------------------------------------------
  // formatDuration

  predicate EndsWith(s: string, suffix: string)
  {
    |suffix| <= |s| && s[|s| - |suffix|..] == suffix
  }

  /** Minutes as Swedish text: "45 min", "2 tim" or "1 tim 30 min". */
  function FormatDuration(minutes: int): (r: string)
    ensures minutes < 60 || minutes % 60 != 0 <==> EndsWith(r, " min")
    ensures minutes >= 60 && minutes % 60 == 0 <==> EndsWith(r, " tim")
    ensures minutes < 60 ==> r == IntToString(minutes) + " min"
    ensures minutes >= 60 && minutes % 60 == 0 ==> r == IntToString(minutes / 60) + " tim"
  {
    if minutes < 60 then
      IntToString(minutes) + " min"
    else
      var hours := minutes / 60;
      var remainingMinutes := minutes % 60;
      if remainingMinutes == 0 then
        IntToString(hours) + " tim"
      else
        IntToString(hours) + " tim " + IntToString(remainingMinutes) + " min"
  }

  /**
    Reads back the three shapes FormatDuration produces: "<m> min", "<h> tim"
    and "<h> tim <r> min".
  */
  function ParseDuration(s: string): Option<int>
  {
    var k := SpaceFreePrefix(s);
    match ParseInt(s[..k])
    case None => None
    case Some(a) => ParseUnits(a, s[k..])
  }

  /** What follows the leading number `a`. */
  function ParseUnits(a: int, rest: string): Option<int>
  {
    if rest == " min" then Some(a)
    else if rest == " tim" then Some(a * 60)
    else if |rest| > 5 && rest[..5] == " tim " then ParseRemainder(a, rest[5..])
    else None
  }

  /** What follows "<a> tim ": the remaining minutes. */
  function ParseRemainder(a: int, t: string): Option<int>
  {
    var k := SpaceFreePrefix(t);
    match ParseInt(t[..k])
    case None => None
    case Some(b) => if t[k..] == " min" then Some(a * 60 + b) else None
  }

  lemma NumberThenWord(n: int, t: string)
    requires |t| > 0 && t[0] == ' '
    ensures var s := IntToString(n) + t;
            var k := SpaceFreePrefix(s);
            k == |IntToString(n)| && s[..k] == IntToString(n) && s[k..] == t
  {
    SpaceFreePrefixOfWord(IntToString(n), t);
  }

  lemma ParseLeadingNumber(n: int, rest: string)
    requires |rest| > 0 && rest[0] == ' '
    ensures ParseDuration(IntToString(n) + rest) == ParseUnits(n, rest)
  {
    NumberThenWord(n, rest);
    ParseIntRoundTrip(n);
  }

  lemma ParseMinutesText(n: int)
    ensures ParseDuration(IntToString(n) + " min") == Some(n)
  {
    ParseLeadingNumber(n, " min");
  }

  lemma ParseHoursText(h: int)
    ensures ParseDuration(IntToString(h) + " tim") == Some(h * 60)
  {
    ParseLeadingNumber(h, " tim");
  }

  lemma ParseRemainderText(h: int, m: int)
    ensures ParseRemainder(h, IntToString(m) + " min") == Some(h * 60 + m)
  {
    NumberThenWord(m, " min");
    ParseIntRoundTrip(m);
  }

  lemma ParseHoursMinutesText(h: int, m: int)
    ensures ParseDuration(IntToString(h) + " tim " + IntToString(m) + " min") == Some(h * 60 + m)
  {
    var t := IntToString(m) + " min";
    var rest := " tim " + t;
    assert IntToString(h) + " tim " + IntToString(m) + " min" == IntToString(h) + rest;
    ParseLeadingNumber(h, rest);
    assert |rest| > 5 && rest[..5] == " tim " && rest[5..] == t;
    ParseRemainderText(h, m);
  }

  /** The formatted duration determines the number of minutes: no two durations share a text. */
  lemma FormatDurationRoundTrip(minutes: int)
    ensures ParseDuration(FormatDuration(minutes)) == Some(minutes)
  {
    if minutes < 60 {
      ParseMinutesText(minutes);
    } else if minutes % 60 == 0 {
      ParseHoursText(minutes / 60);
    } else {
      ParseHoursMinutesText(minutes / 60, minutes % 60);
    }
  }

  /**
    For a duration of an hour or more that is not a whole number of hours, the
    text names the unique split into hours and 1..59 remaining minutes.
  */
  lemma FormatDurationSplit(minutes: int, hours: int, rest: int)
    requires minutes >= 60 && hours * 60 + rest == minutes && 0 < rest < 60
    ensures FormatDuration(minutes) == IntToString(hours) + " tim " + IntToString(rest) + " min"
  {
    assert minutes / 60 == hours && minutes % 60 == rest by {
      var q, r := minutes / 60, minutes % 60;
      assert q * 60 + r == hours * 60 + rest;
      assert (q - hours) * 60 == rest - r;
    }
  }

  // ---------------------------------------------------------------------------
  // calculatePercentage

  /** `value` as a whole percentage of `total`; 0 when `total` is 0. */
  function CalculatePercentage(value: real, total: real): (r: int)
    ensures total == 0.0 ==> r == 0
    ensures total != 0.0 ==> r as real - 0.5 <= value / total * 100.0 < r as real + 0.5
  {
    if total == 0.0 then 0 else Round((value / total) * 100.0)
  }

  lemma PercentageOfWhole(total: real)
    requires total != 0.0
    ensures CalculatePercentage(total, total) == 100
  {
    assert total / total == 1.0;
  }

  lemma PercentageOfNothing(total: real)
    ensures CalculatePercentage(0.0, total) == 0
  {
  }

  /** Only a part of the whole gives a result in 0..100; the helper itself does not clamp. */
  lemma PercentageBounds(value: real, total: real)
    requires 0.0 <= value <= total && total > 0.0
    ensures 0 <= CalculatePercentage(value, total) <= 100
  {
    assert value / total <= 1.0 by {
      assert value / total * total == value;
    }
  }

  /** Outside 0 <= value <= total the result leaves 0..100: 150 of 100 is 150%, -50 of 100 is -50%. */
  lemma PercentageUnclamped()
    ensures CalculatePercentage(150.0, 100.0) == 150
    ensures CalculatePercentage(-50.0, 100.0) == -50
  {
  }

  // ---------------------------------------------------------------------------
  // clamp

  /** `Math.min(Math.max(value, min), max)`. */
  function Clamp(value: real, min: real, max: real): (r: real)
    ensures r <= max
    ensures min <= max ==> min <= r
    ensures min <= value <= max ==> r == value
    ensures value <= min <= max ==> r == min
    ensures max <= value ==> r == max
    ensures max < min ==> r == max
  {
    var atLeastMin := if value > min then value else min;
    if atLeastMin < max then atLeastMin else max
  }

  lemma ClampIdempotent(value: real, min: real, max: real)
    ensures Clamp(Clamp(value, min, max), min, max) == Clamp(value, min, max)
  {
  }

  // ---------------------------------------------------------------------------
  // truncate

  /**
    `str.slice(0, length) + '...'` when `str` is longer than `length`. A negative
    `length` makes `slice` count from the end of the string, as in JavaScript.
  */
  function Truncate(s: string, length: int): (r: string)
    ensures |s| <= length ==> r == s
    ensures |s| > length ==> EndsWith(r, "...")
    ensures |s| > length >= 0 ==> |r| == length + 3 && r[..length] == s[..length]
    ensures |s| > length && length < 0 ==>
              |r| == (if |s| + length > 0 then |s| + length else 0) + 3 && s[..|r| - 3] == r[..|r| - 3]
  {
    if |s| <= length then s
    else
      var end := if length >= 0 then length else if |s| + length > 0 then |s| + length else 0;
      s[..end] + "..."
  }

  lemma TruncateIdempotent(s: string, length: nat)
    ensures Truncate(Truncate(s, length), length) == Truncate(s, length)
  {
    var r := Truncate(s, length);
    if |s| > length {
      assert r[..length] == s[..length];
    }
  }

  // ---------------------------------------------------------------------------
  // capitalize

  predicate IsLowerAscii(c: char) { 'a' <= c <= 'z' }

  /** `toUpperCase` restricted to one ASCII character. */
  function UpperAscii(c: char): (u: char)
    ensures !IsLowerAscii(u)
    ensures IsLowerAscii(c) ==> 'A' <= u <= 'Z' && u as int - 'A' as int == c as int - 'a' as int
    ensures !IsLowerAscii(c) ==> u == c
  {
    if IsLowerAscii(c) then (c as int - 32) as char else c
  }

  /** First character upper-cased, the rest untouched; "" stays "". */
  function Capitalize(s: string): (r: string)
    ensures |r| == |s|
    ensures |s| > 0 ==> r[0] == UpperAscii(s[0]) && r[1..] == s[1..]
  {
    if s == [] then [] else [UpperAscii(s[0])] + s[1..]
  }

  lemma CapitalizeIdempotent(s: string)
    ensures Capitalize(Capitalize(s)) == Capitalize(s)
  {
  }

  // ---------------------------------------------------------------------------
  // getBMICategory

  /** The Swedish BMI class; every boundary belongs to the higher class. */
  function GetBMICategory(bmi: real): (r: string)
    ensures r == "Undervikt" <==> bmi < 18.5
    ensures r == "Normalvikt" <==> 18.5 <= bmi < 25.0
    ensures r == "Övervikt" <==> 25.0 <= bmi < 30.0
    ensures r == "Fetma" <==> 30.0 <= bmi
  {
    if bmi < 18.5 then "Undervikt"
    else if bmi < 25.0 then "Normalvikt"
    else if bmi < 30.0 then "Övervikt"
    else "Fetma"
  }

  /** The position of a BMI class on the scale from underweight to obese. */
  function BmiRank(category: string): nat
  {
    if category == "Undervikt" then 0
    else if category == "Normalvikt" then 1
    else if category == "Övervikt" then 2
    else 3
  }

  lemma BMICategoryMonotone(a: real, b: real)
    requires a <= b
    ensures BmiRank(GetBMICategory(a)) <= BmiRank(GetBMICategory(b))
  {
  }

  lemma BMICategoryBoundaries()
    ensures GetBMICategory(18.5) == "Normalvikt"
    ensures GetBMICategory(25.0) == "Övervikt"
    ensures GetBMICategory(30.0) == "Fetma"
  {
  }

  // ---------------------------------------------------------------------------
  // formatHeight, formatCalories, formatMacros

  /** `${height} cm`; the number can be read back from the text. */
  function FormatHeight(height: int): (r: string)
    ensures EndsWith(r, " cm") && ParseInt(r[..|r| - 3]) == Some(height)
    ensures r == IntToString(height) + " cm"
  {
    var digits := IntToString(height);
    ParseIntRoundTrip(height);
    assert (digits + " cm")[..|digits|] == digits;
    digits + " cm"
  }

  /** `${Math.round(calories)} kcal`. */
  function FormatCalories(calories: real): (r: string)
    ensures EndsWith(r, " kcal") && ParseInt(r[..|r| - 5]) == Some(Round(calories))
    ensures r == IntToString(Round(calories)) + " kcal"
  {
    var digits := IntToString(Round(calories));
    ParseIntRoundTrip(Round(calories));
    assert (digits + " kcal")[..|digits|] == digits;
    digits + " kcal"
  }

  /** `${Math.round(grams)}g`. */
  function FormatMacros(grams: real): (r: string)
    ensures EndsWith(r, "g") && ParseInt(r[..|r| - 1]) == Some(Round(grams))
    ensures r == IntToString(Round(grams)) + "g"
  {
    var digits := IntToString(Round(grams));
    ParseIntRoundTrip(Round(grams));
    assert (digits + "g")[..|digits|] == digits;
    digits + "g"
  }
}
