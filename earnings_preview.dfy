/** public/javascripts/work.js: the live earnings preview on the work-entry form. It reads the
    form's fields, looks up the selected project's rate and the checked pay-type radio, and shows,
    hides or leaves alone the preview panel. Unlike the server it applies no overnight wrap and
    estimates deductions with a bracket rate. The DOM is reduced to the values read and the panel's
    two pieces of state. */
module EarningsPreview {
  import opened Wrappers
  import opened Text
  import opened WorkEntryService
  import WorkEntrySchema

  /** A pay-type radio button: its value and whether it is checked. */
  datatype Radio = Radio(value: string, checked: bool)

  /** The `switch` on the checked radio's value. */
  function PayTypeMultiplier(value: string): (m: real)
    ensures m == 1.0 || m == 1.5 || m == 2.0
    ensures m == 1.5 <==> value == "overtime"
    ensures m == 2.0 <==> value == "double"
  {
    if value == "regular" then 1.0
    else if value == "overtime" then 1.5
    else if value == "double" then 2.0
    else 1.0
  }

  /** The position of the first checked radio, or |radios| when none is checked. */
  function FirstChecked(radios: seq<Radio>): (i: nat)
    ensures i <= |radios|
    ensures i < |radios| ==> radios[i].checked
    ensures forall j :: 0 <= j < i ==> !radios[j].checked
  {
    if radios == [] || radios[0].checked then 0 else 1 + FirstChecked(radios[1..])
  }

  /** The multiplier the radios select: the first checked one's, 1.0 when none is checked. */
  function SelectedMultiplierOf(radios: seq<Radio>): (m: real)
    ensures m == 1.0 || m == 1.5 || m == 2.0
    ensures (forall j :: 0 <= j < |radios| ==> !radios[j].checked) ==> m == 1.0
  {
    var i := FirstChecked(radios);
    if i < |radios| then PayTypeMultiplier(radios[i].value) else 1.0
  }

  /** The `for ... of` loop over the radios, which stops at the first checked one. */
  method SelectedMultiplier(radios: seq<Radio>) returns (m: real)
    ensures m == SelectedMultiplierOf(radios)
  {
    m := 1.0;
    var k := 0;
    while k < |radios|
      invariant 0 <= k <= |radios|
      invariant forall j :: 0 <= j < k ==> !radios[j].checked
      invariant m == 1.0
    {
      if radios[k].checked {
        m := PayTypeMultiplier(radios[k].value);
        break;
      }
      k := k + 1;
    }
  }

  /** Only the first checked radio counts: radios after it change nothing. */
  lemma LaterRadiosIgnored(radios: seq<Radio>, more: seq<Radio>)
    requires exists j :: 0 <= j < |radios| && radios[j].checked
    ensures SelectedMultiplierOf(radios + more) == SelectedMultiplierOf(radios)
  {
    var i := FirstChecked(radios);
    var k := FirstChecked(radios + more);
    assert (radios + more)[i] == radios[i];
    assert forall j :: 0 <= j < i ==> (radios + more)[j] == radios[j];
    assert k == i;
  }

  /** The selected `<option>` of the project list; `rate` is its `data-rate` attribute as read by
      `parseFloat`, None when the attribute is missing or empty. */
  datatype ProjectOption = ProjectOption(rate: Option<real>)

  /** `getSelectedHourlyRate`: the selected project's rate, 0 without a selection or a rate. */
  function SelectedHourlyRate(selected: Option<ProjectOption>): (rate: real)
    ensures selected.None? || selected.value.rate.None? ==> rate == 0.0
    ensures selected.Some? && selected.value.rate.Some? ==> rate == selected.value.rate.value
  {
    match selected
    case None => 0.0
    case Some(option) => option.rate.GetOr(0.0)
  }

  /** `new Date('2000-01-01 ' + value)` on a time input's value: the minutes into the day, None for
      an Invalid Date. A time input yields "H:MM" or "HH:MM" within the day. */
  function ClockReading(value: string): (minutes: Option<int>)
    ensures minutes.Some? <==> WorkEntrySchema.IsTimeString(value)
    ensures minutes.Some? ==> 0 <= minutes.value < MinutesPerDay && ParseTime(value) == minutes
  {
    if WorkEntrySchema.IsTimeString(value) then
      WorkEntrySchema.AcceptedTimeIsInDay(value);
      ParseTime(value)
    else None
  }

  /** `parseInt(breakTime?.value) || 0`: NaN, and a missing field, become 0. */
  function BreakMinutes(breakText: Option<string>): (minutes: int)
    ensures breakText.None? ==> minutes == 0
    ensures breakText.Some? && ParseIntPrefix(breakText.value).None? ==> minutes == 0
    ensures breakText.Some? && ParseIntPrefix(breakText.value).Some? ==> minutes == ParseIntPrefix(breakText.value).value
  {
    match breakText
    case None => 0
    case Some(text) => ParseIntPrefix(text).GetOr(0)
  }

  const ProvincialTaxRate: real := 0.0505
  const CppRate: real := 0.0595
  const EiRate: real := 0.0188
  const LowerBracketTop: real := 53359.0
  const LowerFederalRate: real := 0.15
  const UpperFederalRate: real := 0.205

  /** `hourlyRate * 40 * 52`: a full-time year at the base rate. */
  function EstimatedAnnualIncome(hourlyRate: real): real {
    hourlyRate * 40.0 * 52.0
  }

  /** `totalTaxRate`: the federal bracket rate, Ontario's base rate, and half the CPP and EI rates.
      It is 23.965 % up to the bracket and 29.465 % above it, and always more than the server's
      flat 14.6 %. The bracket is judged on the base rate, not the overtime rate. */
  function PreviewTaxRate(hourlyRate: real): (rate: real)
    ensures EstimatedAnnualIncome(hourlyRate) <= LowerBracketTop ==> rate == 0.23965
    ensures EstimatedAnnualIncome(hourlyRate) > LowerBracketTop ==> rate == 0.29465
    ensures TotalDeductionRate < rate
  {
    var federal := if EstimatedAnnualIncome(hourlyRate) <= LowerBracketTop then LowerFederalRate else UpperFederalRate;
    federal + ProvincialTaxRate + CppRate * 0.5 + EiRate * 0.5
  }

  /** The numbers the panel shows. */
  datatype Preview = Preview(
    hours: real,
    baseRate: real,
    multiplier: real,
    effectiveRate: real,
    grossEarnings: real,
    deductions: real,
    netEarnings: real)

  /** What one `updateCalculation` call does to the panel. */
  datatype PreviewUpdate = Hide | Keep | Show(preview: Preview)

  /** `hourlyRate * overtimeMultiplier`. */
  function ScaledRate(hourlyRate: real, multiplier: real): real {
    hourlyRate * multiplier
  }

  /** `grossEarnings * totalTaxRate`. */
  function EstimatedDeductions(grossEarnings: real, hourlyRate: real): real {
    grossEarnings * PreviewTaxRate(hourlyRate)
  }

  /** The preview of a same-day shift once the inputs are read (see PreviewArithmetic). */
  function MakePreview(start: int, end: int, breakMinutes: int, hourlyRate: real, multiplier: real): Preview {
    var totalMinutes := end - start - breakMinutes;
    var hours := RealMax(0.0, totalMinutes as real / 60.0);
    var effectiveRate := ScaledRate(hourlyRate, multiplier);
    var gross := CalculateGrossEarnings(hours, effectiveRate);
    var deductions := EstimatedDeductions(gross, hourlyRate);
    Preview(hours, hourlyRate, multiplier, effectiveRate, gross, deductions, gross - deductions)
  }

  /** The preview's hours are the shift less the break, clamped at 0 but not wrapped; the gross is
      hours at the overtime rate; the deductions apply the bracket rate of the base rate; net and
      deductions make up the gross. */
  lemma PreviewArithmetic(start: int, end: int, breakMinutes: int, hourlyRate: real, multiplier: real)
    ensures var p := MakePreview(start, end, breakMinutes, hourlyRate, multiplier);
            && p.hours >= 0.0
            && p.hours * 60.0 == (if end - start <= breakMinutes then 0.0 else (end - start - breakMinutes) as real)
            && p.baseRate == hourlyRate && p.multiplier == multiplier
            && p.effectiveRate == hourlyRate * multiplier
            && p.grossEarnings == p.hours * p.effectiveRate
            && p.deductions == EstimatedDeductions(p.grossEarnings, hourlyRate)
            && p.netEarnings + p.deductions == p.grossEarnings
  {
  }

  /** `updateCalculation`: hide the panel unless both times are filled in and the rate is
      positive; then show a preview when the end is later than the start, and otherwise (an
      unreadable time, or an end not after the start) leave the panel as it was. */
  function UpdateOf(startValue: string, endValue: string, breakText: Option<string>,
                    selected: Option<ProjectOption>, radios: seq<Radio>): (u: PreviewUpdate)
    ensures u.Hide? <==> startValue == "" || endValue == "" || SelectedHourlyRate(selected) <= 0.0
    ensures u.Show? <==> && startValue != "" && endValue != "" && SelectedHourlyRate(selected) > 0.0
                         && ClockReading(startValue).Some? && ClockReading(endValue).Some?
                         && ClockReading(startValue).value < ClockReading(endValue).value
    ensures u.Show? ==> u.preview.baseRate > 0.0 && u.preview.multiplier == SelectedMultiplierOf(radios)
    ensures u.Show? ==>
              u.preview == MakePreview(ClockReading(startValue).value, ClockReading(endValue).value,
                                       BreakMinutes(breakText), SelectedHourlyRate(selected),
                                       SelectedMultiplierOf(radios))
  {
    var hourlyRate := SelectedHourlyRate(selected);
    if startValue != "" && endValue != "" && hourlyRate > 0.0 then
      match (ClockReading(startValue), ClockReading(endValue))
      case (Some(start), Some(end)) =>
        if end > start then
          Show(MakePreview(start, end, BreakMinutes(breakText), hourlyRate, SelectedMultiplierOf(radios)))
        else Keep
      case _ => Keep
    else Hide
  }

  /** For a shift within one day the preview counts the same hours as the server's
      calculateTotalHours. */
  lemma PreviewHoursAgreeWithServer(startValue: string, endValue: string, breakText: Option<string>,
                                    selected: Option<ProjectOption>, radios: seq<Radio>)
    requires UpdateOf(startValue, endValue, breakText, selected, radios).Show?
    ensures CalculateTotalHours(startValue, endValue, BreakMinutes(breakText))
            == Some(UpdateOf(startValue, endValue, breakText, selected, radios).preview.hours)
  {
    var start, end := ClockReading(startValue).value, ClockReading(endValue).value;
    assert ShiftMinutes(start, end) == end - start;
  }

  /** An overnight shift gets no new preview (the panel keeps what it showed before), while the
      server counts it with the wrap: here 22:00 to 06:00. */
  lemma OvernightShiftNotPreviewed(selected: Option<ProjectOption>, radios: seq<Radio>)
    requires SelectedHourlyRate(selected) > 0.0
    ensures UpdateOf("22:00", "06:00", None, selected, radios) == Keep
    ensures CalculateTotalHours("22:00", "06:00", 0) == Some(8.0)
  {
    ParseTimePadded(22, 0);
    ParseTimePadded(6, 0);
    assert Pad2(22) + ":" + Pad2(0) == "22:00";
    assert Pad2(6) + ":" + Pad2(0) == "06:00";
    OvernightShiftExample();
  }

  /** On any positive gross the preview deducts more, and so promises less net pay, than the
      server will record. */
  lemma PreviewDeductsMoreThanServer(grossEarnings: real, hourlyRate: real)
    requires grossEarnings > 0.0
    ensures EstimatedDeductions(grossEarnings, hourlyRate) > CalculateDeductions(grossEarnings).totalDeductions
    ensures grossEarnings - EstimatedDeductions(grossEarnings, hourlyRate)
            < CalculateNetEarnings(grossEarnings, CalculateDeductions(grossEarnings).totalDeductions)
  {
    var r := PreviewTaxRate(hourlyRate);
    assert grossEarnings * r - grossEarnings * TotalDeductionRate == grossEarnings * (r - TotalDeductionRate);
    assert grossEarnings * (r - TotalDeductionRate) > 0.0;
  }

  /** The "Pay Type" line: shown only for a multiplier other than 1.0, naming "(Time & Half)" for
      1.5, "(Double Time)" for 2.0 and nothing otherwise. None when the line is not shown. */
  function PayTypeName(multiplier: real): Option<string> {
    if multiplier == 1.0 then None
    else Some(if multiplier == 1.5 then "(Time & Half)" else if multiplier == 2.0 then "(Double Time)" else "")
  }

  /** Whatever the radios select, the preview shows a pay-type line exactly when the server would
      label the multiplier as overtime other than 'Regular' pay, and names it as the server's label
      does; the unnamed case never arises. */
  lemma PayTypeNameMatchesServerLabel(radios: seq<Radio>, numberText: real -> string)
    ensures var m := SelectedMultiplierOf(radios);
            && (PayTypeName(m).None? <==> m == 1.0)
            && (PayTypeName(m).Some? ==>
                  PayTypeName(m).value == "(" + LabelText(GetOvertimeLabel(true, m), numberText) + ")")
  {
  }

  /** The preview's panel: whether it is displayed and the preview it last rendered. */
  class PreviewPanel {
    var visible: bool
    var shown: Option<Preview>

    /** A displayed panel has content. */
    predicate Valid()
      reads this
    {
      visible ==> shown.Some?
    }

    /** The panel as created: empty and `display: none`. */
    constructor ()
      ensures Valid() && !visible && shown == None
    {
      visible := false;
      shown := None;
    }

    /** `updateCalculation` against the panel. */
    method Update(startValue: string, endValue: string, breakText: Option<string>,
                  selected: Option<ProjectOption>, radios: seq<Radio>)
      requires Valid()
      modifies this
      ensures Valid()
      ensures UpdateOf(startValue, endValue, breakText, selected, radios).Hide? ==>
                !visible && shown == old(shown)
      ensures UpdateOf(startValue, endValue, breakText, selected, radios).Keep? ==>
                visible == old(visible) && shown == old(shown)
      ensures UpdateOf(startValue, endValue, breakText, selected, radios).Show? ==>
                visible && shown == Some(UpdateOf(startValue, endValue, breakText, selected, radios).preview)
    {
      ghost var u := UpdateOf(startValue, endValue, breakText, selected, radios);
      var hourlyRate := SelectedHourlyRate(selected);
      if startValue != "" && endValue != "" && hourlyRate > 0.0 {
        var start := ClockReading(startValue);
        var end := ClockReading(endValue);
        var breakMinutes := BreakMinutes(breakText);
        if start.Some? && end.Some? && end.value > start.value {
          var totalMinutes := end.value - start.value;
          totalMinutes := totalMinutes - breakMinutes;
          var hours := RealMax(0.0, totalMinutes as real / 60.0);
          var multiplier := SelectedMultiplier(radios);
          var effectiveRate := ScaledRate(hourlyRate, multiplier);
          var grossEarnings := CalculateGrossEarnings(hours, effectiveRate);
          var deductions := EstimatedDeductions(grossEarnings, hourlyRate);
          var netEarnings := grossEarnings - deductions;
          var preview := Preview(hours, hourlyRate, multiplier, effectiveRate, grossEarnings, deductions, netEarnings);
          assert preview == MakePreview(start.value, end.value, breakMinutes, hourlyRate, multiplier);
          assert u == Show(preview);
          shown := Some(preview);
          visible := true;
        } else {
          assert u == Keep;
        }
      } else {
        assert u == Hide;
        visible := false;
      }
    }
  }
}
