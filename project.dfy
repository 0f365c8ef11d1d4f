/** models/Project.js: the schema's constraints (status enum, colour pattern, rate bound, lengths)
    and the `duration` and `formattedEndDate` virtuals, which compute text from the fields without
    changing them. Dates are millisecond timestamps; "now" is a parameter. */
module ProjectModel {
  import opened Wrappers
  import opened Text

  /** The `enum` of status. */
  datatype Status = Active | Completed | OnHold | Cancelled

  function StatusName(s: Status): string {
    match s
    case Active => "active"
    case Completed => "completed"
    case OnHold => "on-hold"
    case Cancelled => "cancelled"
  }

  const StatusNames: set<string> := {"active", "completed", "on-hold", "cancelled"}

  /** status `default`. */
  const DefaultStatus: Status := Active

  /** The enum validator: a stored status string names exactly one of the four statuses. */
  function ParseStatus(name: string): (r: Option<Status>)
    ensures r.Some? <==> name in StatusNames
    ensures r.Some? ==> StatusName(r.value) == name
  {
    if name == "active" then Some(Active)
    else if name == "completed" then Some(Completed)
    else if name == "on-hold" then Some(OnHold)
    else if name == "cancelled" then Some(Cancelled)
    else None
  }

  predicate IsHexDigit(c: char) {
    '0' <= c <= '9' || 'a' <= c <= 'f' || 'A' <= c <= 'F'
  }

  /** The colour `match`, `/^#[0-9A-F]{6}$/i`: '#' and six hexadecimal digits in either case. */
  predicate IsColor(s: string) {
    |s| == 7 && s[0] == '#' && forall i :: 1 <= i < 7 ==> IsHexDigit(s[i])
  }

  /** colour `default`. */
  const DefaultColor: string := "#667eea"

  lemma DefaultColorIsValid()
    ensures IsColor(DefaultColor)
  {
  }

  /** The `i` flag: a colour is accepted exactly when its lower-case form is. */
  lemma ColorIsCaseInsensitive(s: string)
    ensures IsColor(s) <==> IsColor(Lower(s))
  {
    if |s| == 7 {
      assert forall i :: 0 <= i < 7 ==> (IsHexDigit(s[i]) <==> IsHexDigit(Lower(s)[i]));
      assert (s[0] == '#') <==> (Lower(s)[0] == '#');
    }
  }

  const MaxNameLength: int := 100
  const MaxDescriptionLength: int := 500
  const MaxClientLength: int := 100

  /** A project document. `userId` stands for the owner's ObjectId. */
  datatype Project = Project(
    userId: string,
    name: string,
    description: string,
    hourlyRate: real,
    client: string,
    status: Status,
    startDate: int,
    endDate: Option<int>,
    color: string)

  /** The schema's validators: name required and at most 100 characters, description and client
      within their `maxlength`, rate at least 0, colour empty or matching the pattern (a `match`
      validator lets the empty string through; status is valid by its type, see ParseStatus). */
  predicate Valid(p: Project) {
    && p.name != ""
    && |p.name| <= MaxNameLength
    && |p.description| <= MaxDescriptionLength
    && |p.client| <= MaxClientLength
    && p.hourlyRate >= 0.0
    && (p.color == "" || IsColor(p.color))
  }

  /** A new project with the schema defaults: status 'active', start date now, colour '#667eea'.
      With the defaults, a project whose own fields are within bounds is valid. */
  function NewProject(userId: string, name: string, description: string, hourlyRate: real, client: string,
                      status: Option<Status>, startDate: Option<int>, endDate: Option<int>, color: Option<string>,
                      now: int): (p: Project)
    ensures p.status == status.GetOr(DefaultStatus) && p.startDate == startDate.GetOr(now)
    ensures p.userId == userId && p.name == name && p.description == description
    ensures p.hourlyRate == hourlyRate && p.client == client
    ensures p.endDate == endDate
    ensures p.color == color.GetOr(DefaultColor)
    ensures (color.None? && name != "" && |name| <= MaxNameLength && |description| <= MaxDescriptionLength
             && |client| <= MaxClientLength && hourlyRate >= 0.0) ==> Valid(p)
  {
    Project(userId, name, description, hourlyRate, client, status.GetOr(DefaultStatus),
            startDate.GetOr(now), endDate, color.GetOr(DefaultColor))
  }

  const MsPerDay: int := 1000 * 60 * 60 * 24

  function Abs(x: int): nat {
    if x < 0 then -x else x
  }

  /** `Math.ceil(Math.abs(end - start) / (1000 * 60 * 60 * 24))`: the least number of whole days
      that covers the time between the two dates, in either order. */
  function DiffDays(start: int, end: int): (days: nat)
    ensures days * MsPerDay >= Abs(end - start)
    ensures days > 0 ==> (days - 1) * MsPerDay < Abs(end - start)
    ensures days == DiffDaysOf(end, start)
  {
    DiffDaysOf(start, end)
  }

  function DiffDaysOf(start: int, end: int): nat {
    (Abs(end - start) + MsPerDay - 1) / MsPerDay
  }

  /** What the duration text announces: a count of days, of months, or of years and months. */
  datatype Span = Days(days: nat) | Months(months: nat) | Years(years: nat, months: nat)

  /** The number of days a span stands for, counting a month as 30 days and a year as 365. */
  function SpanDays(s: Span): nat {
    match s
    case Days(d) => d
    case Months(m) => 30 * m
    case Years(y, m) => 365 * y + 30 * m
  }

  /** The branches of the `duration` virtual: under 30 days as days; under a year as
      `floor(d / 30)` months; otherwise `floor(d / 365)` years and `floor((d mod 365) / 30)`
      months. The span never overstates the duration and understates it by under 30 days. */
  function SpanOf(diffDays: nat): (s: Span)
    ensures s.Days? <==> diffDays < 30
    ensures s.Days? ==> s.days == diffDays
    ensures s.Years? ==> 365 * s.years <= diffDays < 365 * (s.years + 1)
    ensures s.Months? <==> 30 <= diffDays < 365
    ensures s.Months? ==> 1 <= s.months <= 12
    ensures s.Years? ==> 1 <= s.years && s.months <= 12
    ensures SpanDays(s) <= diffDays < SpanDays(s) + 30
  {
    if diffDays < 30 then Days(diffDays)
    else if diffDays < 365 then Months(diffDays / 30)
    else Years(diffDays / 365, (diffDays % 365) / 30)
  }

  function Plural(n: nat): string {
    if n > 1 then "s" else ""
  }

  /** The number that leads a span's text. */
  function Lead(s: Span): nat {
    match s
    case Days(d) => d
    case Months(m) => m
    case Years(y, _) => y
  }

  /** The optional " M month(s)" after the years; omitted when M is 0. */
  function MonthsClause(m: nat): string {
    if m > 0 then " " + NatStr(m) + " month" + Plural(m) else ""
  }

  /** The text after the leading number: " days" (never singular), " month(s)", or " year(s)"
      and the months clause. */
  function Tail(s: Span): string {
    match s
    case Days(_) => " days"
    case Months(m) => " month" + Plural(m)
    case Years(y, m) => " year" + Plural(y) + MonthsClause(m)
  }

  function SpanText(s: Span): string {
    NatStr(Lead(s)) + Tail(s)
  }

  /** The `duration` virtual, given the day count. */
  function Duration(diffDays: nat): string {
    SpanText(SpanOf(diffDays))
  }

  /** `duration` of a project: from its start date to its end date, or to now when it has none. */
  function ProjectDuration(p: Project, now: int): string {
    Duration(DiffDays(p.startDate, p.endDate.GetOr(now)))
  }

  lemma AppendCancel(p: string, a: string, b: string)
    requires p + a == p + b
    ensures a == b
  {
    assert a == (p + a)[|p|..];
    assert b == (p + b)[|p|..];
  }

  /** The second character of a span's tail tells its kind: 'd', 'm' or 'y'. */
  function KindChar(s: Span): char {
    match s
    case Days(_) => 'd'
    case Months(_) => 'm'
    case Years(_, _) => 'y'
  }

  lemma TailStart(s: Span)
    ensures |Tail(s)| >= 2 && Tail(s)[0] == ' ' && Tail(s)[1] == KindChar(s)
  {
    match s
    case Days(_) =>
    case Months(m) =>
      assert Tail(s) == " month" + Plural(m);
    case Years(y, m) =>
      assert Tail(s) == " year" + (Plural(y) + MonthsClause(m));
  }

  lemma MonthsClauseInjective(m1: nat, m2: nat)
    requires MonthsClause(m1) == MonthsClause(m2)
    ensures m1 == m2
  {
    if m1 > 0 && m2 > 0 {
      var x1, x2 := " month" + Plural(m1), " month" + Plural(m2);
      assert MonthsClause(m1) == " " + (NatStr(m1) + x1);
      assert MonthsClause(m2) == " " + (NatStr(m2) + x2);
      AppendCancel(" ", NatStr(m1) + x1, NatStr(m2) + x2);
      assert x1[0] == ' ' && x2[0] == ' ';
      NatStrPrefixUnique(m1, x1, m2, x2);
    } else {
      assert |MonthsClause(m1)| == 0 <==> m1 == 0;
      assert |MonthsClause(m2)| == 0 <==> m2 == 0;
    }
  }

  /** Different spans have different texts. */
  lemma SpanTextInjective(a: Span, b: Span)
    requires SpanText(a) == SpanText(b)
    ensures a == b
  {
    TailStart(a);
    TailStart(b);
    NatStrPrefixUnique(Lead(a), Tail(a), Lead(b), Tail(b));
    assert KindChar(a) == KindChar(b);
    if a.Years? {
      AppendCancel(" year" + Plural(a.years), MonthsClause(a.months), MonthsClause(b.months));
      MonthsClauseInjective(a.months, b.months);
    }
  }

  /** Two day counts get the same duration text exactly when they fall in the same span: the text
      is an unambiguous reading of the span. */
  lemma DurationTextDeterminesSpan(d1: nat, d2: nat)
    ensures Duration(d1) == Duration(d2) <==> SpanOf(d1) == SpanOf(d2)
  {
    if Duration(d1) == Duration(d2) {
      SpanTextInjective(SpanOf(d1), SpanOf(d2));
    }
  }

  /** Day counts under a month, including the plural-less "1 days". */
  lemma DaysExamples()
    ensures Duration(0) == "0 days" && Duration(1) == "1 days"
  {
    assert NatStr(0) == "0" && NatStr(1) == "1";
  }

  /** Months, up to the "12 months" just short of a year. */
  lemma MonthsExamples()
    ensures Duration(45) == "1 month" && Duration(364) == "12 months"
  {
    assert NatStr(1) == "1";
    assert NatStr(12) == NatStr(1) + "2";
  }

  /** A whole year, with the months clause omitted. */
  lemma OneYearExample()
    ensures Duration(365) == "1 year"
  {
    assert NatStr(1) == "1";
  }

  /** Years and the months left over. */
  lemma YearsAndMonthsExample()
    ensures Duration(800) == "2 years 2 months"
  {
    assert SpanOf(800) == Years(2, 2);
    assert NatStr(2) == "2";
    assert MonthsClause(2) == " 2 months";
    assert Tail(Years(2, 2)) == " years 2 months";
  }

  /** The `formattedEndDate` virtual: 'Ongoing' without an end date, otherwise the date as the
      locale formatter (a parameter here) renders it. */
  function FormattedEndDate(endDate: Option<int>, formatDate: int -> string): (text: string)
    ensures endDate.None? ==> text == "Ongoing"
    ensures endDate.Some? ==> text == formatDate(endDate.value)
  {
    if endDate.None? then "Ongoing" else formatDate(endDate.value)
  }
}
