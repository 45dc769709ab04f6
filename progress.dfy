/**
  The arithmetic of components/ui/progress-bar.tsx: the clamped percentage shared
  by ProgressBar and CircularProgress, their indeterminate overrides and the
  text they show, and the value/variant choices of the pre-configured
  WeightProgress, CalorieProgress and MacroProgress bars. Values are `real`;
  `max` is required to be non-zero, which leaves JavaScript's NaN and Infinity
  out of the model.
*/
module Progress {
  import opened Wrappers
  import opened Numerals
  import Utils

  /** The colour variants a bar can take. */
  datatype Variant = Default | Success | Warning | Danger | Info

  const IndeterminateText := "Laddar..."

  /** ProgressBar's `percentage`: `value / max` as a percentage, clamped to [0, 100]; 0 while indeterminate. */
  function BarPercentage(value: real, max: real, indeterminate: bool): (p: real)
    requires max != 0.0
    ensures 0.0 <= p <= 100.0
    ensures indeterminate ==> p == 0.0
    ensures !indeterminate && value / max >= 1.0 ==> p == 100.0
    ensures !indeterminate && value / max <= 0.0 ==> p == 0.0
    ensures !indeterminate && 0.0 <= value / max <= 1.0 ==> p == value / max * 100.0
  {
    if indeterminate then 0.0 else Utils.Clamp((value / max) * 100.0, 0.0, 100.0)
  }

  /** `Math.round(percentage)` for a determinate bar. */
  function RoundedPercentage(value: real, max: real): (n: nat)
    requires max != 0.0
    ensures n <= 100
    ensures n as real - 0.5 <= BarPercentage(value, max, false) < n as real + 0.5
  {
    Utils.Round(BarPercentage(value, max, false))
  }

  /** ProgressBar's `displayValue`: "Laddar..." while indeterminate, otherwise "<n>%". */
  function DisplayValue(value: real, max: real, indeterminate: bool): (r: string)
    requires max != 0.0
    ensures indeterminate ==> r == IndeterminateText
    ensures !indeterminate ==>
              |r| >= 2 && r[|r| - 1] == '%' && ParseNat(r[..|r| - 1]) == Some(RoundedPercentage(value, max))
    ensures !indeterminate ==> r == NatToString(RoundedPercentage(value, max)) + "%"
  {
    if indeterminate then IndeterminateText
    else
      var digits := NatToString(RoundedPercentage(value, max));
      ParseNatRoundTrip(RoundedPercentage(value, max));
      assert (digits + "%")[..|digits|] == digits;
      digits + "%"
  }

  /** CircularProgress's `percentage`: a fixed quarter circle while indeterminate, otherwise ProgressBar's clamp. */
  function CirclePercentage(value: real, max: real, indeterminate: bool): (p: real)
    requires max != 0.0
    ensures 0.0 <= p <= 100.0
    ensures indeterminate ==> p == 25.0
    ensures !indeterminate ==> p == BarPercentage(value, max, false)
  {
    if indeterminate then 25.0 else Utils.Clamp((value / max) * 100.0, 0.0, 100.0)
  }

  /** The number shown in the middle of a CircularProgress: "..." while indeterminate, else the rounded percentage. */
  function CircleValueText(value: real, max: real, indeterminate: bool): (r: string)
    requires max != 0.0
    ensures |r| > 0 && r[|r| - 1] != '%'
    ensures indeterminate ==> r == "..."
    ensures !indeterminate ==> ParseNat(r) == Some(RoundedPercentage(value, max))
    ensures !indeterminate ==> r == NatToString(RoundedPercentage(value, max))
  {
    if indeterminate then "..."
    else
      ParseNatRoundTrip(RoundedPercentage(value, max));
      NatToString(RoundedPercentage(value, max))
  }

  /** CircleValueText followed by "%" whenever `showPercentage` is set, in the indeterminate case too. */
  function CircleCenterText(value: real, max: real, indeterminate: bool, showPercentage: bool): (r: string)
    requires max != 0.0
    ensures |r| > 0 && (showPercentage <==> r[|r| - 1] == '%')
    ensures showPercentage ==> r[..|r| - 1] == CircleValueText(value, max, indeterminate)
    ensures !showPercentage ==> r == CircleValueText(value, max, indeterminate)
  {
    var shown := CircleValueText(value, max, indeterminate);
    if showPercentage then
      assert (shown + "%")[..|shown|] == shown;
      shown + "%"
    else shown
  }

  /** An indeterminate ring that shows percentages reads "...%". */
  lemma IndeterminateCircleText(value: real, max: real)
    requires max != 0.0
    ensures CircleCenterText(value, max, true, true) == "...%"
  {
  }

  // ---------------------------------------------------------------------------
  // WeightProgress

  function Abs(x: real): (r: real)
    ensures r >= 0.0 && (r == x || r == -x)
  {
    if x < 0.0 then -x else x
  }

  /** The `value` WeightProgress hands to its bar: how much of the distance to the target is covered. */
  function WeightValue(current: real, target: real): (v: real)
    ensures v <= WeightMax(target)
    ensures v == WeightMax(target) <==> current == target
  {
    Abs(target) - Abs(current - target)
  }

  /** The `max` WeightProgress hands to its bar. */
  function WeightMax(target: real): (m: real)
    ensures m >= 0.0 && (m == 0.0 <==> target == 0.0)
  {
    Abs(target)
  }

  function WeightPercentage(current: real, target: real): (p: real)
    requires target != 0.0
    ensures 0.0 <= p <= 100.0
  {
    BarPercentage(WeightValue(current, target), WeightMax(target), false)
  }

  /** The weight bar is full exactly when the current weight is the target. */
  lemma WeightFullIffOnTarget(current: real, target: real)
    requires target != 0.0
    ensures WeightPercentage(current, target) == 100.0 <==> current == target
  {
    var v, m := WeightValue(current, target), WeightMax(target);
    if current == target {
      assert v / m == 1.0;
    } else {
      assert v < m;
      assert v / m < 1.0 by {
        assert v / m * m == v;
      }
    }
  }

  /** Once the distance to the target is at least the target itself, the weight bar is empty. */
  lemma WeightEmptyWhenFar(current: real, target: real)
    requires target != 0.0
    requires Abs(current - target) >= Abs(target)
    ensures WeightPercentage(current, target) == 0.0
  {
    var v, m := WeightValue(current, target), WeightMax(target);
    assert v <= 0.0 && m > 0.0;
    assert v / m <= 0.0 by {
      assert v / m * m == v;
    }
  }

  // ---------------------------------------------------------------------------
  // CalorieProgress

  /** The calorie ring's colour from `consumed / target * 100`. */
  function CalorieVariant(consumed: real, target: real): (v: Variant)
    requires target != 0.0
    ensures v == Danger <==> consumed / target * 100.0 > 110.0
    ensures v == Warning <==> 90.0 < consumed / target * 100.0 <= 110.0
    ensures v == Success <==> consumed / target * 100.0 <= 90.0
  {
    var percentage := (consumed / target) * 100.0;
    if percentage > 110.0 then Danger else if percentage > 90.0 then Warning else Success
  }

  /** How alarming a calorie colour is. */
  function Severity(v: Variant): nat
  {
    match v
    case Success => 0
    case Warning => 1
    case Danger => 2
    case _ => 0
  }

  /** Eating more against the same positive target never makes the calorie ring less alarming. */
  lemma CalorieVariantMonotone(c1: real, c2: real, target: real)
    requires target > 0.0 && c1 <= c2
    ensures Severity(CalorieVariant(c1, target)) <= Severity(CalorieVariant(c2, target))
  {
    assert c1 / target <= c2 / target by {
      assert c1 / target * target == c1;
      assert c2 / target * target == c2;
    }
  }

  // ---------------------------------------------------------------------------
  // MacroProgress

  datatype Macro = Protein | Carbs | Fat

  function MacroLabel(m: Macro): (r: string)
    ensures |r| > 0
  {
    match m
    case Protein => "Protein"
    case Carbs => "Kolhydrater"
    case Fat => "Fett"
  }

  /** Each macro has a colour of its own; none uses the default or the danger colour. */
  function MacroVariant(m: Macro): (r: Variant)
    ensures r != Default && r != Danger
  {
    match m
    case Protein => Success
    case Carbs => Warning
    case Fat => Info
  }

  /** The two lookup tables of MacroProgress, and that they tell the three macros apart. */
  lemma MacroTables(m: Macro, n: Macro)
    ensures MacroLabel(Protein) == "Protein" && MacroVariant(Protein) == Success
    ensures MacroLabel(Carbs) == "Kolhydrater" && MacroVariant(Carbs) == Warning
    ensures MacroLabel(Fat) == "Fett" && MacroVariant(Fat) == Info
    ensures m != n ==> MacroLabel(m) != MacroLabel(n) && MacroVariant(m) != MacroVariant(n)
  {
  }
}
