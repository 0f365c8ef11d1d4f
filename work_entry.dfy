/** models/WorkEntry.js: the schema's validators as predicates, and the document itself as a class
    whose `pre('save')` hook recomputes `totalHours` and `totalEarnings` in place. The hook reads
    the clock strings with the same `parseTime` as the service (WorkEntryService.ParseTime). */
module WorkEntrySchema {
  import opened Wrappers
  import opened Text
  import opened WorkEntryService

  /** `max` of breakTime: at most eight hours of break. */
  const MaxBreakTime: int := 480
  /** `maxlength` of description. */
  const MaxDescriptionLength: int := 500

  /** One alternative of `([0-1]?[0-9]|2[0-3])`: a single digit, 00-19, or 20-23. */
  predicate IsHourField(h: string) {
    || (|h| == 1 && IsDigit(h[0]))
    || (|h| == 2 && '0' <= h[0] <= '1' && IsDigit(h[1]))
    || (|h| == 2 && h[0] == '2' && '0' <= h[1] <= '3')
  }

  /** `[0-5][0-9]`: exactly two digits, 00-59. */
  predicate IsMinuteField(m: string) {
    |m| == 2 && '0' <= m[0] <= '5' && IsDigit(m[1])
  }

  /** The `match` on startTime and endTime, `^([0-1]?[0-9]|2[0-3]):[0-5][0-9]$`. */
  predicate IsTimeString(s: string) {
    || (|s| == 4 && IsHourField(s[..1]) && s[1] == ':' && IsMinuteField(s[2..]))
    || (|s| == 5 && IsHourField(s[..2]) && s[2] == ':' && IsMinuteField(s[3..]))
  }

  /** `min: 0, max: 480` of breakTime. */
  predicate IsBreakTime(b: int) {
    0 <= b <= MaxBreakTime
  }

  lemma TwoDigitValue(s: string)
    requires |s| == 2 && AllDigits(s)
    ensures DigitsValue(s) == 10 * DigitValue(s[0]) + DigitValue(s[1])
  {
    assert s[..1] == [s[0]];
    OneDigitValue(s[..1]);
  }

  lemma OneDigitValue(s: string)
    requires |s| == 1 && AllDigits(s)
    ensures DigitsValue(s) == DigitValue(s[0])
  {
    assert s[..0] == [];
  }

  /** Every accepted time string is a clock reading within one day: parseTime gives a minute
      count in [0, 1439]. */
  lemma AcceptedTimeIsInDay(s: string)
    requires IsTimeString(s)
    ensures ParseTime(s).Some?
    ensures 0 <= ParseTime(s).value < MinutesPerDay
  {
    var i := |s| - 3;
    var hours, mins := s[..i], s[i + 1..];
    assert s == hours + ":" + mins;
    ParseTimeOfFields(hours, mins);
    TwoDigitValue(mins);
    if i == 1 {
      OneDigitValue(hours);
    } else {
      TwoDigitValue(hours);
    }
  }

  /** calculateTotalHours on two accepted time strings is the arithmetic on their readings. */
  lemma AcceptedTimesAreRead(startTime: string, endTime: string, breakTime: int)
    requires IsTimeString(startTime) && IsTimeString(endTime)
    ensures ParseTime(startTime).Some? && ParseTime(endTime).Some?
    ensures CalculateTotalHours(startTime, endTime, breakTime)
            == Some(WorkedHours(ParseTime(startTime).value, ParseTime(endTime).value, breakTime))
  {
    AcceptedTimeIsInDay(startTime);
    AcceptedTimeIsInDay(endTime);
    TotalHoursOfReadings(startTime, endTime, breakTime);
  }

  /** The zero-padded "HH:MM" text of a minute of the day. */
  function ClockText(t: nat): string
    requires t < MinutesPerDay
  {
    Pad2(t / 60) + ":" + Pad2(t % 60)
  }

  /** Every minute of the day has an accepted time string that parseTime reads back as that minute,
      so the validator rejects no clock reading. */
  lemma EveryMinuteHasTimeString(t: nat)
    requires t < MinutesPerDay
    ensures IsTimeString(ClockText(t))
    ensures ParseTime(ClockText(t)) == Some(t)
  {
    var s := ClockText(t);
    ParseTimePadded(t / 60, t % 60);
    assert s[..2] == Pad2(t / 60) && s[3..] == Pad2(t % 60);
    TwoDigitValue(Pad2(t / 60));
    TwoDigitValue(Pad2(t % 60));
  }

  /** What the pattern admits and refuses: a one-digit hour, but neither hour 24, a one-digit
      minute nor minute 60. */
  lemma TimeStringExamples()
    ensures IsTimeString("9:05") && IsTimeString("09:05") && IsTimeString("23:59") && IsTimeString("0:00")
    ensures !IsTimeString("24:00") && !IsTimeString("9:5") && !IsTimeString("09:60") && !IsTimeString("")
  {
    assert "9:05"[..1] == "9" && "9:05"[2..] == "05";
    assert "09:05"[..2] == "09" && "09:05"[3..] == "05";
    assert "23:59"[..2] == "23" && "23:59"[3..] == "59";
    assert "0:00"[..1] == "0" && "0:00"[2..] == "00";
    assert "24:00"[..2] == "24";
    assert "09:60"[3..] == "60";
  }

  /** A work entry document. `user` stands for the owner's ObjectId and `date` for the work date
      as a timestamp; neither takes part in the arithmetic. */
  class WorkEntry {
    var user: string
    var date: int
    var startTime: string
    var endTime: string
    var breakTime: int
    var project: string
    var description: string
    var hourlyRate: real
    var totalHours: real
    var totalEarnings: real

    /** The schema's validators, which Mongoose runs before the save hooks: `required`, `match`,
        `min`, `max` and `maxlength` on each field. */
    predicate Valid()
      reads this
    {
      && IsTimeString(startTime)
      && IsTimeString(endTime)
      && IsBreakTime(breakTime)
      && project != ""
      && description != ""
      && |description| <= MaxDescriptionLength
      && hourlyRate >= 0.0
      && totalHours >= 0.0
      && totalEarnings >= 0.0
    }

    /** The hook's guard `this.startTime && this.endTime && this.hourlyRate`: all three truthy. */
    predicate Recomputes()
      reads this
    {
      startTime != "" && endTime != "" && hourlyRate != 0.0
    }

    /** A new document; an omitted breakTime takes the default 0, and the totals start at 0. */
    constructor (user: string, date: int, startTime: string, endTime: string, breakTime: Option<int>,
                 project: string, description: string, hourlyRate: real)
      ensures this.user == user && this.date == date
      ensures this.startTime == startTime && this.endTime == endTime
      ensures this.breakTime == breakTime.GetOr(0)
      ensures this.project == project && this.description == description
      ensures this.hourlyRate == hourlyRate
      ensures totalHours == 0.0 && totalEarnings == 0.0
    {
      this.user := user;
      this.date := date;
      this.startTime := startTime;
      this.endTime := endTime;
      this.breakTime := breakTime.GetOr(0);
      this.project := project;
      this.description := description;
      this.hourlyRate := hourlyRate;
      this.totalHours := 0.0;
      this.totalEarnings := 0.0;
    }

    /** The `pre('save')` hook. When the guard holds it sets totalHours to the service's hours for
        the same times and break, and totalEarnings to hours times the base rate: no overtime and
        no deductions. Otherwise (a rate of 0) both totals keep their values. Nothing else changes,
        and the document stays valid. */
    method PreSave()
      requires Valid()
      modifies this`totalHours, this`totalEarnings
      ensures Valid()
      ensures Recomputes() ==>
                && CalculateTotalHours(startTime, endTime, breakTime) == Some(totalHours)
                && totalEarnings == CalculateGrossEarnings(totalHours, hourlyRate)
      ensures !Recomputes() ==> totalHours == old(totalHours) && totalEarnings == old(totalEarnings)
    {
      if startTime != "" && endTime != "" && hourlyRate != 0.0 {
        AcceptedTimesAreRead(startTime, endTime, breakTime);
        TotalHoursOfReadings(startTime, endTime, breakTime);
        var start := ParseTime(startTime).value;
        var end := ParseTime(endTime).value;

        var totalMinutes := end - start;
        if totalMinutes < 0 {
          totalMinutes := totalMinutes + 24 * 60;
        }
        assert totalMinutes == ShiftMinutes(start, end);

        totalMinutes := totalMinutes - breakTime;
        var hours := RealMax(0.0, totalMinutes as real / 60.0);
        assert CalculateTotalHours(startTime, endTime, breakTime) == Some(hours);
        assert hours >= 0.0;
        totalHours := hours;
        // hours times the base rate: the product CalculateGrossEarnings names
        totalEarnings := CalculateGrossEarnings(totalHours, hourlyRate);
      }
    }
  }

  /** What the hook stores as totalEarnings is the service's gross pay for the same entry when it
      is not overtime, and the service's net pay is 85.4 % of it. */
  lemma HookEarningsAreServiceGrossWithoutOvertime(startTime: string, endTime: string, breakTime: int, hourlyRate: real)
    requires IsTimeString(startTime) && IsTimeString(endTime)
    ensures var hours := CalculateTotalHours(startTime, endTime, breakTime);
            var c := CalculateWorkEntry(WorkEntryData(startTime, endTime, Some(breakTime), hourlyRate, None, None));
            && hours.Some? && c.Some?
            && c.value.totalHours == hours.value
            && c.value.grossEarnings == CalculateGrossEarnings(hours.value, hourlyRate)
            && c.value.netEarnings == 0.854 * c.value.grossEarnings
  {
    AcceptedTimeIsInDay(startTime);
    AcceptedTimeIsInDay(endTime);
    var hours := CalculateTotalHours(startTime, endTime, breakTime);
    var c := CalculateWorkEntry(WorkEntryData(startTime, endTime, Some(breakTime), hourlyRate, None, None));
    assert c.value.totalHours == hours.value;
    assert c.value.effectiveHourlyRate == hourlyRate;
  }

  /** Positive hours at a rate scaled up by a multiplier above 1.0 earn more than at the rate. */
  lemma ScaledRateEarnsMore(hours: real, hourlyRate: real, multiplier: real, rate: real)
    requires hours > 0.0 && hourlyRate > 0.0 && multiplier > 1.0
    requires rate == hourlyRate * multiplier
    ensures hours * rate > hours * hourlyRate
  {
    assert rate - hourlyRate == hourlyRate * (multiplier - 1.0);
    assert hours * rate - hours * hourlyRate == hours * (rate - hourlyRate);
  }

  /** For overtime above 1.0 on a positive rate and positive hours, the service's gross exceeds
      what the hook stores: the hook ignores the multiplier. */
  lemma HookIgnoresOvertime(startTime: string, endTime: string, breakTime: int, hourlyRate: real, multiplier: real)
    requires hourlyRate > 0.0 && multiplier > 1.0
    requires CalculateTotalHours(startTime, endTime, breakTime).Some?
    requires CalculateTotalHours(startTime, endTime, breakTime).value > 0.0
    ensures var hours := CalculateTotalHours(startTime, endTime, breakTime).value;
            var c := CalculateWorkEntry(WorkEntryData(startTime, endTime, Some(breakTime), hourlyRate, Some(true), Some(multiplier)));
            c.Some? && c.value.grossEarnings > hours * hourlyRate
  {
    var hours := CalculateTotalHours(startTime, endTime, breakTime).value;
    var c := CalculateWorkEntry(WorkEntryData(startTime, endTime, Some(breakTime), hourlyRate, Some(true), Some(multiplier)));
    assert c.value.totalHours == hours;
    assert c.value.effectiveHourlyRate == hourlyRate * multiplier;
    ScaledRateEarnsMore(c.value.totalHours, hourlyRate, multiplier, c.value.effectiveHourlyRate);
  }
}
