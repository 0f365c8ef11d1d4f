/** The earnings calculator of services/WorkEntryService.js: clock strings to minutes, minutes to
    hours (with the overnight wrap and the break), the overtime rate, gross pay, the flat 14.6 %
    deduction split four ways, and net pay. Every operation is a static, side-effect-free method
    in the source, so every one is a function here. Money and rates are exact reals. */
module WorkEntryService {
  import opened Wrappers
  import opened Text

  const MinutesPerDay: int := 24 * 60

  /** The composite deduction rate, and its split into federal tax, provincial tax, CPP and EI. */
  const TotalDeductionRate: real := 0.146
  const FederalShare: real := 0.40
  const ProvincialShare: real := 0.20
  const CppShare: real := 0.25
  const EiShare: real := 0.15

  /** The first two fields of `timeString.split(':')`: the text before the first colon and the
      text from there up to the next colon. None when there is no colon (no second field). */
  function ClockFields(timeString: string): Option<(string, string)> {
    var i := IndexOf(timeString, ':');
    if i == |timeString| then None
    else
      var rest := timeString[i + 1..];
      Some((timeString[..i], rest[..IndexOf(rest, ':')]))
  }

  lemma ClockFieldsOf(hours: string, mins: string)
    requires AllDigits(hours) && AllDigits(mins)
    ensures ClockFields(hours + ":" + mins) == Some((hours, mins))
  {
    var s := hours + ":" + mins;
    assert forall j :: 0 <= j < |hours| ==> hours[j] != ':';
    IndexOfAfter(hours, ':', mins);
    assert s[..|hours|] == hours;
    assert s[|hours| + 1..] == mins;
    NoColonInDigits(mins);
    assert mins[..|mins|] == mins;
  }

  lemma NoColonInDigits(s: string)
    requires AllDigits(s)
    ensures IndexOf(s, ':') == |s|
  {
    assert forall j :: 0 <= j < |s| ==> s[j] != ':';
  }

  /** `parseTime`: `timeString.split(':').map(Number)`, then hours * 60 + minutes. A field that
      is not a run of decimal digits, or a missing minutes field, makes `Number` yield NaN: that
      is None here. */
  function ParseTime(timeString: string): (minutes: Option<int>)
    ensures minutes.Some? ==> minutes.value >= 0
  {
    match ClockFields(timeString)
    case None => None
    case Some((hours, mins)) =>
      if AllDigits(hours) && AllDigits(mins) then Some(DigitsValue(hours) * 60 + DigitsValue(mins))
      else None
  }

  /** "H:MM" is read as H * 60 + MM, for digit fields of any length (leading zeros allowed). */
  lemma ParseTimeOfFields(hours: string, mins: string)
    requires AllDigits(hours) && AllDigits(mins)
    ensures ParseTime(hours + ":" + mins) == Some(DigitsValue(hours) * 60 + DigitsValue(mins))
  {
    ClockFieldsOf(hours, mins);
    ParseTimeOfClockFields(hours + ":" + mins, hours, mins);
  }

  lemma ParseTimeOfClockFields(timeString: string, hours: string, mins: string)
    requires AllDigits(hours) && AllDigits(mins)
    requires ClockFields(timeString) == Some((hours, mins))
    ensures ParseTime(timeString) == Some(DigitsValue(hours) * 60 + DigitsValue(mins))
  {
  }

  /** The text of any hour and minute count reads back as hours * 60 + minutes. */
  lemma ParseTimeOfClock(h: nat, m: nat)
    ensures ParseTime(NatStr(h) + ":" + NatStr(m)) == Some(h * 60 + m)
  {
    ParseTimeOfFields(NatStr(h), NatStr(m));
    NatStrRoundTrip(h);
    NatStrRoundTrip(m);
  }

  /** Zero-padded "HH:MM" text reads as hours * 60 + minutes. */
  lemma ParseTimePadded(h: nat, m: nat)
    requires h < 100 && m < 100
    ensures ParseTime(Pad2(h) + ":" + Pad2(m)) == Some(h * 60 + m)
  {
    ParseTimeOfFields(Pad2(h), Pad2(m));
  }

  /** `end - start`, plus a day when negative ("handle overnight work"). */
  function ShiftMinutes(start: int, end: int): int {
    if end - start < 0 then end - start + MinutesPerDay else end - start
  }

  /** For clock readings within one day the wrapped span is the distance from start forward to end
      on a 24-hour dial: the Euclidean remainder of end - start by 1440. */
  lemma ShiftMinutesOnDial(start: int, end: int)
    requires 0 <= start < MinutesPerDay && 0 <= end < MinutesPerDay
    ensures 0 <= ShiftMinutes(start, end) < MinutesPerDay
    ensures ShiftMinutes(start, end) == (end - start) % MinutesPerDay
    ensures (start + ShiftMinutes(start, end)) % MinutesPerDay == end
  {
  }

  function RealMax(a: real, b: real): real { if a < b then b else a }

  /** The arithmetic of `calculateTotalHours` once both clock strings are read:
      `Math.max(0, (wrapped span - break) / 60)`. */
  function WorkedHours(start: int, end: int, breakTime: int): (hours: real)
    ensures hours >= 0.0
    ensures hours == 0.0 <==> breakTime >= ShiftMinutes(start, end)
    ensures hours * 60.0 == if breakTime >= ShiftMinutes(start, end) then 0.0
                            else (ShiftMinutes(start, end) - breakTime) as real
  {
    var totalMinutes := ShiftMinutes(start, end) - breakTime;
    RealMax(0.0, totalMinutes as real / 60.0)
  }

  /** A longer break never yields more hours. */
  lemma BreakNeverAddsHours(start: int, end: int, shorter: int, longer: int)
    requires shorter <= longer
    ensures WorkedHours(start, end, longer) <= WorkedHours(start, end, shorter)
  {
  }

  /** `calculateTotalHours(startTime, endTime, breakTime)`; None when either string reads as NaN. */
  function CalculateTotalHours(startTime: string, endTime: string, breakTime: int): (hours: Option<real>)
    ensures hours.Some? <==> ParseTime(startTime).Some? && ParseTime(endTime).Some?
    ensures hours.Some? ==> hours.value >= 0.0
  {
    match (ParseTime(startTime), ParseTime(endTime))
    case (Some(start), Some(end)) => Some(WorkedHours(start, end, breakTime))
    case _ => None
  }

  /** calculateTotalHours on two readable clock strings is the arithmetic of WorkedHours. */
  lemma TotalHoursOfReadings(startTime: string, endTime: string, breakTime: int)
    requires ParseTime(startTime).Some? && ParseTime(endTime).Some?
    ensures CalculateTotalHours(startTime, endTime, breakTime)
            == Some(WorkedHours(ParseTime(startTime).value, ParseTime(endTime).value, breakTime))
  {
  }

  /** Example: 22:00 to 06:00 is an 8-hour overnight shift. */
  lemma OvernightShiftExample()
    ensures CalculateTotalHours("22:00", "06:00", 0) == Some(8.0)
  {
    ParseTimePadded(22, 0);
    ParseTimePadded(6, 0);
    assert Pad2(22) + ":" + Pad2(0) == "22:00";
    assert Pad2(6) + ":" + Pad2(0) == "06:00";
  }

  /** Example: a 30-minute break in a 15-minute span leaves zero hours, not a negative count. */
  lemma BreakLongerThanShiftExample()
    ensures CalculateTotalHours("09:00", "09:15", 30) == Some(0.0)
  {
    ParseTimePadded(9, 0);
    ParseTimePadded(9, 15);
    assert Pad2(9) + ":" + Pad2(0) == "09:00";
    assert Pad2(9) + ":" + Pad2(15) == "09:15";
  }

  /** `calculateEffectiveRate`: the multiplier applies only to overtime work and only when it is
      above 1.0; otherwise the base rate stands, even for overtime. */
  function CalculateEffectiveRate(baseRate: real, isOvertime: bool, overtimeMultiplier: real): (rate: real)
    ensures isOvertime && overtimeMultiplier > 1.0 ==> rate == baseRate * overtimeMultiplier
    ensures !(isOvertime && overtimeMultiplier > 1.0) ==> rate == baseRate
  {
    if isOvertime && overtimeMultiplier > 1.0 then baseRate * overtimeMultiplier else baseRate
  }

  /** Overtime never lowers a non-negative rate, and a multiplier capped at 3 at most triples it. */
  lemma EffectiveRateBounds(baseRate: real, isOvertime: bool, overtimeMultiplier: real)
    requires baseRate >= 0.0
    ensures baseRate <= CalculateEffectiveRate(baseRate, isOvertime, overtimeMultiplier)
    ensures overtimeMultiplier <= 3.0 ==>
              CalculateEffectiveRate(baseRate, isOvertime, overtimeMultiplier) <= 3.0 * baseRate
  {
    if isOvertime && overtimeMultiplier > 1.0 {
      assert baseRate * overtimeMultiplier - baseRate == baseRate * (overtimeMultiplier - 1.0);
      assert overtimeMultiplier <= 3.0 ==>
               3.0 * baseRate - baseRate * overtimeMultiplier == baseRate * (3.0 - overtimeMultiplier);
    }
  }

  /** `calculateGrossEarnings`: hours times the effective rate. */
  function CalculateGrossEarnings(totalHours: real, effectiveRate: real): (gross: real)
    ensures totalHours >= 0.0 && effectiveRate >= 0.0 ==> gross >= 0.0
  {
    totalHours * effectiveRate
  }

  datatype Deductions = Deductions(
    federalTax: real,
    provincialTax: real,
    cppContribution: real,
    eiContribution: real,
    totalDeductions: real)

  /** `calculateDeductions`: 14.6 % of gross, split 40/20/25/15. The four parts add up to the
      total exactly, and none is negative when gross is not. */
  function CalculateDeductions(grossEarnings: real): (d: Deductions)
    ensures d.totalDeductions == TotalDeductionRate * grossEarnings
    ensures d.federalTax + d.provincialTax + d.cppContribution + d.eiContribution == d.totalDeductions
    ensures d.federalTax == FederalShare * d.totalDeductions
    ensures d.provincialTax == ProvincialShare * d.totalDeductions
    ensures d.cppContribution == CppShare * d.totalDeductions
    ensures d.eiContribution == EiShare * d.totalDeductions
    ensures d.federalTax == 2.0 * d.provincialTax
    ensures grossEarnings >= 0.0 ==>
              && 0.0 <= d.federalTax <= grossEarnings && 0.0 <= d.provincialTax <= grossEarnings
              && 0.0 <= d.cppContribution <= grossEarnings && 0.0 <= d.eiContribution <= grossEarnings
              && 0.0 <= d.totalDeductions <= grossEarnings
  {
    var totalDeductions := grossEarnings * TotalDeductionRate;
    Deductions(
      totalDeductions * FederalShare,
      totalDeductions * ProvincialShare,
      totalDeductions * CppShare,
      totalDeductions * EiShare,
      totalDeductions)
  }

  /** `calculateNetEarnings`. */
  function CalculateNetEarnings(grossEarnings: real, totalDeductions: real): (net: real)
    ensures net + totalDeductions == grossEarnings
  {
    grossEarnings - totalDeductions
  }

  /** The input object of `calculateWorkEntry`; None stands for a property left undefined, which
      takes the destructuring default (break 0, not overtime, multiplier 1.0). */
  datatype WorkEntryData = WorkEntryData(
    startTime: string,
    endTime: string,
    breakTime: Option<int>,
    hourlyRate: real,
    isOvertime: Option<bool>,
    overtimeMultiplier: Option<real>)

  datatype WorkEntryCalculation = WorkEntryCalculation(
    totalHours: real,
    effectiveHourlyRate: real,
    grossEarnings: real,
    federalTax: real,
    provincialTax: real,
    cppContribution: real,
    eiContribution: real,
    totalDeductions: real,
    netEarnings: real,
    totalEarnings: real)

  /** `calculateWorkEntry`: hours, then rate, gross, deductions and net, in that order.
      None when a clock string reads as NaN. */
  function CalculateWorkEntry(data: WorkEntryData): (r: Option<WorkEntryCalculation>)
    ensures r.Some? <==> ParseTime(data.startTime).Some? && ParseTime(data.endTime).Some?
    ensures r.Some? ==>
              var c := r.value;
              && c.totalHours == CalculateTotalHours(data.startTime, data.endTime, data.breakTime.GetOr(0)).value
              && c.effectiveHourlyRate
                 == CalculateEffectiveRate(data.hourlyRate, data.isOvertime.GetOr(false), data.overtimeMultiplier.GetOr(1.0))
              && c.totalHours >= 0.0
              && Deductions(c.federalTax, c.provincialTax, c.cppContribution, c.eiContribution, c.totalDeductions)
                 == CalculateDeductions(c.grossEarnings)
              && c.grossEarnings == c.totalHours * c.effectiveHourlyRate
              && c.federalTax + c.provincialTax + c.cppContribution + c.eiContribution == c.totalDeductions
              && c.totalDeductions == TotalDeductionRate * c.grossEarnings
              && c.netEarnings == c.grossEarnings - c.totalDeductions
              && c.netEarnings == 0.854 * c.grossEarnings
              && c.totalEarnings == c.grossEarnings
              && (data.hourlyRate >= 0.0 ==> 0.0 <= c.netEarnings <= c.grossEarnings)
  {
    match CalculateTotalHours(data.startTime, data.endTime, data.breakTime.GetOr(0))
    case None => None
    case Some(totalHours) =>
      var effectiveHourlyRate := CalculateEffectiveRate(
        data.hourlyRate, data.isOvertime.GetOr(false), data.overtimeMultiplier.GetOr(1.0));
      var grossEarnings := CalculateGrossEarnings(totalHours, effectiveHourlyRate);
      var deductions := CalculateDeductions(grossEarnings);
      var netEarnings := CalculateNetEarnings(grossEarnings, deductions.totalDeductions);
      Some(WorkEntryCalculation(
        totalHours,
        effectiveHourlyRate,
        grossEarnings,
        deductions.federalTax,
        deductions.provincialTax,
        deductions.cppContribution,
        deductions.eiContribution,
        deductions.totalDeductions,
        netEarnings,
        grossEarnings))
  }

  lemma NineToFiveReadings()
    ensures ParseTime("09:00") == Some(540) && ParseTime("17:00") == Some(1020)
  {
    ParseTimePadded(9, 0);
    ParseTimePadded(17, 0);
    assert Pad2(9) + ":" + Pad2(0) == "09:00";
    assert Pad2(17) + ":" + Pad2(0) == "17:00";
  }

  /** A regular 09:00-17:00 day with a one-hour break at 25/h: 7 hours, 175 gross, 25.55 deducted
      (10.22 federal, 5.11 provincial, 6.3875 CPP, 3.8325 EI), 149.45 net. */
  lemma RegularDayExample()
    ensures CalculateWorkEntry(WorkEntryData("09:00", "17:00", Some(60), 25.0, Some(false), None))
            == Some(WorkEntryCalculation(7.0, 25.0, 175.0, 10.22, 5.11, 6.3875, 3.8325, 25.55, 149.45, 175.0))
  {
    NineToFiveReadings();
    assert CalculateTotalHours("09:00", "17:00", 60) == Some(7.0);
  }

  /** Eight overtime hours at 20/h and time and a half earn 240 at 30/h. */
  lemma OvertimeDayExample()
    ensures var r := CalculateWorkEntry(WorkEntryData("09:00", "17:00", None, 20.0, Some(true), Some(1.5)));
            r.Some? && r.value.totalHours == 8.0 && r.value.effectiveHourlyRate == 30.0
            && r.value.grossEarnings == 240.0
  {
    NineToFiveReadings();
    assert CalculateTotalHours("09:00", "17:00", 0) == Some(8.0);
  }

  /** JavaScript's `%` on integers: the remainder takes the sign of the dividend. */
  function JsRem(a: int, b: int): int
    requires b > 0
  {
    if a >= 0 then a % b else -((-a) % b)
  }

  /** `formatBreakTime`: "Hh Mm" from one hour up, "Mm" below. `Math.floor(b / 60)` is Dafny's
      division by a positive divisor. */
  function FormatBreakTime(breakTime: int): string {
    var hours := breakTime / 60;
    var minutes := JsRem(breakTime, 60);
    if hours > 0 then IntStr(hours) + "h " + IntStr(minutes) + "m" else IntStr(minutes) + "m"
  }

  /** A non-empty run of digits as a number. */
  function ReadDigits(s: string): Option<nat> {
    if s != [] && AllDigits(s) then Some(DigitsValue(s)) else None
  }

  /** Reads a break label back into minutes: the inverse of FormatBreakTime on non-negative breaks. */
  function ParseBreakLabel(text: string): Option<int> {
    if |text| == 0 || text[|text| - 1] != 'm' then None else ParseLabelBody(text[..|text| - 1])
  }

  /** A label without its final "m": "<minutes>" or "<hours>h <minutes>". */
  function ParseLabelBody(body: string): Option<int> {
    var i := IndexOf(body, 'h');
    if i == |body| then
      match ReadDigits(body)
      case Some(m) => Some(m)
      case None => None
    else if i + 2 <= |body| && body[i + 1] == ' ' then
      match (ReadDigits(body[..i]), ReadDigits(body[i + 2..]))
      case (Some(h), Some(m)) => Some(h * 60 + m)
      case _ => None
    else None
  }

  /** The first 'h' of "<digits>h <text>" is the one after the digits. */
  lemma HoursMarkFollowsDigits(hs: string, rest: string)
    requires AllDigits(hs)
    ensures IndexOf(hs + "h " + rest, 'h') == |hs|
  {
    assert forall j :: 0 <= j < |hs| ==> hs[j] != 'h';
    assert hs + "h " + rest == hs + ['h'] + (" " + rest);
    IndexOfAfter(hs, 'h', " " + rest);
  }

  /** ParseLabelBody on a body whose first 'h' is followed by a space, with digits on both sides. */
  lemma LabelBodyWithHours(body: string, i: nat, h: nat, m: nat)
    requires IndexOf(body, 'h') == i && i + 2 <= |body| && body[i + 1] == ' '
    requires ReadDigits(body[..i]) == Some(h) && ReadDigits(body[i + 2..]) == Some(m)
    ensures ParseLabelBody(body) == Some(h * 60 + m)
  {
  }

  /** The pieces of "<hs>h <ms>". */
  lemma LabelPieces(hs: string, ms: string)
    ensures var body := hs + "h " + ms;
            |body| == |hs| + 2 + |ms| && body[..|hs|] == hs && body[|hs| + 1] == ' ' && body[|hs| + 2..] == ms
  {
  }

  /** A label body "<digits>h <digits>" reads as the hours times 60 plus the minutes. */
  lemma HoursLabelParts(hs: string, ms: string, h: nat, m: nat)
    requires ReadDigits(hs) == Some(h) && ReadDigits(ms) == Some(m)
    ensures ParseLabelBody(hs + "h " + ms) == Some(h * 60 + m)
  {
    var body := hs + "h " + ms;
    HoursMarkFollowsDigits(hs, ms);
    LabelPieces(hs, ms);
    LabelBodyWithHours(body, |hs|, h, m);
  }

  /** An "Hh Mm" label reads back as its hours and minutes. */
  lemma HoursLabelReadsBack(hours: nat, minutes: nat)
    ensures ParseBreakLabel(NatStr(hours) + "h " + NatStr(minutes) + "m") == Some(hours * 60 + minutes)
  {
    var body := NatStr(hours) + "h " + NatStr(minutes);
    var text := body + "m";
    assert text[..|text| - 1] == body;
    NatStrRoundTrip(hours);
    NatStrRoundTrip(minutes);
    HoursLabelParts(NatStr(hours), NatStr(minutes), hours, minutes);
  }

  /** An "Mm" label reads back as its minutes. */
  lemma MinutesLabelReadsBack(minutes: nat)
    ensures ParseBreakLabel(NatStr(minutes) + "m") == Some(minutes)
    ensures 'h' !in NatStr(minutes) + "m"
  {
    var text := NatStr(minutes) + "m";
    assert text[..|text| - 1] == NatStr(minutes);
    assert forall j :: 0 <= j < |text| ==> text[j] != 'h';
    NatStrRoundTrip(minutes);
  }

  /** A break label names the break exactly: it reads back as the minutes it was made from, and it
      carries an hours part exactly when the break is an hour or more. */
  lemma {:induction false} BreakLabelRoundTrip(breakTime: nat)
    ensures ParseBreakLabel(FormatBreakTime(breakTime)) == Some(breakTime)
    ensures ('h' in FormatBreakTime(breakTime)) <==> breakTime >= 60
  {
    var hours, minutes := breakTime / 60, breakTime % 60;
    if hours > 0 {
      assert FormatBreakTime(breakTime) == NatStr(hours) + "h " + NatStr(minutes) + "m";
      HoursLabelReadsBack(hours, minutes);
      assert FormatBreakTime(breakTime)[|NatStr(hours)|] == 'h';
    } else {
      assert FormatBreakTime(breakTime) == NatStr(minutes) + "m";
      MinutesLabelReadsBack(minutes);
    }
  }

  /** `getOvertimeLabel`'s possible results; RateLabel carries the multiplier its text shows. */
  datatype OvertimeLabel = Regular | TimeAndHalf | DoubleTime | TripleTime | RateLabel(multiplier: real) {
    /** The multiplier a label announces. */
    function Multiplier(): real {
      match this
      case Regular => 1.0
      case TimeAndHalf => 1.5
      case DoubleTime => 2.0
      case TripleTime => 3.0
      case RateLabel(m) => m
    }
  }

  /** `getOvertimeLabel`: named labels for 1.5, 2.0 and 3.0, "<m>x Rate" for any other overtime
      multiplier, 'Regular' when not overtime. The label always announces the multiplier given. */
  function GetOvertimeLabel(isOvertime: bool, overtimeMultiplier: real): (result: OvertimeLabel)
    ensures result == Regular <==> !isOvertime
    ensures isOvertime ==> result.Multiplier() == overtimeMultiplier
    ensures isOvertime && overtimeMultiplier == 1.5 ==> result == TimeAndHalf
    ensures isOvertime && overtimeMultiplier == 2.0 ==> result == DoubleTime
    ensures isOvertime && overtimeMultiplier == 3.0 ==> result == TripleTime
    ensures result.RateLabel? ==> overtimeMultiplier != 1.5 && overtimeMultiplier != 2.0 && overtimeMultiplier != 3.0
  {
    if isOvertime then
      if overtimeMultiplier == 1.5 then TimeAndHalf
      else if overtimeMultiplier == 2.0 then DoubleTime
      else if overtimeMultiplier == 3.0 then TripleTime
      else RateLabel(overtimeMultiplier)
    else Regular
  }

  /** The text of a label; `numberText` is JavaScript's number-to-string, which the model does not
      reproduce. */
  function LabelText(l: OvertimeLabel, numberText: real -> string): string {
    match l
    case Regular => "Regular"
    case TimeAndHalf => "Time & Half"
    case DoubleTime => "Double Time"
    case TripleTime => "Triple Time"
    case RateLabel(m) => numberText(m) + "x Rate"
  }

  /** For overtime above 1.0 the label announces the multiplier the pay uses; at or below 1.0 the
      pay stays at the base rate whatever the label says. */
  lemma OvertimeLabelMatchesRate(baseRate: real, isOvertime: bool, overtimeMultiplier: real)
    ensures isOvertime && overtimeMultiplier > 1.0 ==>
              CalculateEffectiveRate(baseRate, isOvertime, overtimeMultiplier)
              == baseRate * GetOvertimeLabel(isOvertime, overtimeMultiplier).Multiplier()
    ensures !isOvertime ==>
              CalculateEffectiveRate(baseRate, isOvertime, overtimeMultiplier)
              == baseRate * GetOvertimeLabel(isOvertime, overtimeMultiplier).Multiplier()
  {
  }
}
