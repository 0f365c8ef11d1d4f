/** routes/reports.js: the reports dashboard and the chart-data API. Both read the user's work
    entries, total their hours and earnings with `reduce`, and group them in `forEach` loops into a
    per-project and a per-day dictionary. The database query becomes a filter over a sequence of
    stored entries. */
module Reports {
  import opened Wrappers
  import ProjectModel

  const MsPerDay := ProjectModel.MsPerDay

  /** A stored work entry as the report reads it. `owner` and `projectId` are the fields the
      queries match on, `date` is a millisecond timestamp, and `duration` (minutes) is the
      document's `duration` as read; `breakTime` None stands for a missing value. */
  datatype Entry = Entry(
    owner: string,
    projectId: string,
    project: string,
    date: int,
    duration: int,
    breakTime: Option<int>,
    hourlyRate: real)

  /** `entry.duration - (entry.breakTime || 0)`. */
  function WorkMinutes(e: Entry): int {
    e.duration - e.breakTime.GetOr(0)
  }

  /** `workMinutes / 60`; not clamped, so a break longer than the duration gives negative hours. */
  function EntryHours(e: Entry): real {
    WorkMinutes(e) as real / 60.0
  }

  /** `hours * entry.hourlyRate`. */
  function EntryEarnings(e: Entry): real {
    EntryHours(e) * e.hourlyRate
  }

  /** Unlike the server's calculateTotalHours, the report does not clamp: here a 30-minute entry
      with a 60-minute break counts -0.5 hours and -10 in earnings at 20 an hour. */
  lemma NegativeHoursExample()
    ensures var e := Entry("u", "p", "Site", 0, 30, Some(60), 20.0);
            EntryHours(e) == -0.5 && EntryEarnings(e) == -10.0
  {
  }

  /** `workEntries.reduce((sum, entry) => sum + hours, 0)`, folding from the left. */
  function TotalHours(es: seq<Entry>): real {
    if es == [] then 0.0 else TotalHours(es[..|es| - 1]) + EntryHours(es[|es| - 1])
  }

  /** `workEntries.reduce((sum, entry) => sum + hours * rate, 0)`. */
  function TotalEarnings(es: seq<Entry>): real {
    if es == [] then 0.0 else TotalEarnings(es[..|es| - 1]) + EntryEarnings(es[|es| - 1])
  }

  /** The totals of a concatenation are the sums of the totals: the fold does not depend on how
      the entries are split. */
  lemma {:induction false} TotalsAppend(a: seq<Entry>, b: seq<Entry>)
    ensures TotalHours(a + b) == TotalHours(a) + TotalHours(b)
    ensures TotalEarnings(a + b) == TotalEarnings(a) + TotalEarnings(b)
  {
    if b != [] {
      var b' := b[..|b| - 1];
      assert (a + b)[..|a + b| - 1] == a + b';
      TotalsAppend(a, b');
    } else {
      assert a + b == a;
    }
  }

  /** A `projectStats` value: hours, earnings and number of entries. */
  datatype Tally = Tally(hours: real, earnings: real, entries: nat) {
    function Plus(other: Tally): Tally {
      Tally(hours + other.hours, earnings + other.earnings, entries + other.entries)
    }
  }

  /** The zeros a key starts with on first sight. */
  const Zero: Tally := Tally(0.0, 0.0, 0)

  function TallyOf(e: Entry): Tally {
    Tally(EntryHours(e), EntryEarnings(e), 1)
  }

  /** The overall totals and the entry count of a list of entries. */
  function TotalTally(es: seq<Entry>): Tally {
    Tally(TotalHours(es), TotalEarnings(es), |es|)
  }

  /** Adding one entry at the end adds its tally. */
  lemma TotalTallySnoc(es: seq<Entry>, e: Entry)
    ensures TotalTally(es + [e]) == TotalTally(es).Plus(TallyOf(e))
  {
    assert (es + [e])[..|es|] == es;
  }

  /** One `forEach` step: create the key with zeros if it is new, then add the entry. */
  function Accumulate<K>(stats: map<K, Tally>, k: K, e: Entry): map<K, Tally> {
    var t := if k in stats then stats[k] else Zero;
    stats[k := t.Plus(TallyOf(e))]
  }

  /** The dictionary a grouping loop builds, keyed by `keyOf` (see GroupedKeys and
      GroupedPerKey). */
  function Grouped<K>(keyOf: Entry -> K, es: seq<Entry>): map<K, Tally> {
    if es == [] then map[]
    else Accumulate(Grouped(keyOf, es[..|es| - 1]), keyOf(es[|es| - 1]), es[|es| - 1])
  }

  /** The dictionary has a key for exactly the keys some entry has, and every key counts at least
      one entry. */
  lemma {:induction false} GroupedKeys<K>(keyOf: Entry -> K, es: seq<Entry>, k: K)
    ensures k in Grouped(keyOf, es) <==> exists i :: 0 <= i < |es| && keyOf(es[i]) == k
    ensures k in Grouped(keyOf, es) ==> Grouped(keyOf, es)[k].entries >= 1
  {
    if es != [] {
      var prefix := es[..|es| - 1];
      GroupedKeys(keyOf, prefix, k);
      assert forall i :: 0 <= i < |prefix| ==> prefix[i] == es[i];
      if k in Grouped(keyOf, es) && k !in Grouped(keyOf, prefix) {
        assert keyOf(es[|es| - 1]) == k;
      }
    }
  }

  /** The entries with key `k`, in order. */
  function Select<K(==)>(keyOf: Entry -> K, es: seq<Entry>, k: K): (sel: seq<Entry>)
    ensures forall i :: 0 <= i < |sel| ==> keyOf(sel[i]) == k
  {
    if es == [] then []
    else
      var rest := Select(keyOf, es[..|es| - 1], k);
      if keyOf(es[|es| - 1]) == k then rest + [es[|es| - 1]] else rest
  }

  /** Each key's tally is the totals and count of exactly the entries with that key. */
  lemma {:induction false} GroupedPerKey<K>(keyOf: Entry -> K, es: seq<Entry>, k: K)
    ensures k in Grouped(keyOf, es) ==> Grouped(keyOf, es)[k] == TotalTally(Select(keyOf, es, k))
    ensures k !in Grouped(keyOf, es) ==> Select(keyOf, es, k) == []
  {
    if es != [] {
      var prefix, last := es[..|es| - 1], es[|es| - 1];
      GroupedPerKey(keyOf, prefix, k);
      var rest := Select(keyOf, prefix, k);
      var before := Grouped(keyOf, prefix);
      if keyOf(last) == k {
        assert Select(keyOf, es, k) == rest + [last];
        TotalTallySnoc(rest, last);
        var t := if k in before then before[k] else Zero;
        assert t == TotalTally(rest);
        assert Grouped(keyOf, es)[k] == t.Plus(TallyOf(last));
      } else {
        assert Select(keyOf, es, k) == rest;
        assert k in Grouped(keyOf, es) <==> k in before;
      }
    }
  }

  /** The keys in order of first appearance, each once: the keys of `Grouped`. */
  function KeyOrder<K(==,!new)>(keyOf: Entry -> K, es: seq<Entry>): (ks: seq<K>)
    ensures forall i, j :: 0 <= i < j < |ks| ==> ks[i] != ks[j]
    ensures forall k :: k in ks <==> k in Grouped(keyOf, es)
  {
    if es == [] then []
    else
      var ks := KeyOrder(keyOf, es[..|es| - 1]);
      var k := keyOf(es[|es| - 1]);
      if k in ks then ks else ks + [k]
  }

  /** The sum of a dictionary's tallies over a list of its keys. */
  function TallySum<K>(stats: map<K, Tally>, ks: seq<K>): Tally
    requires forall k :: k in ks ==> k in stats
  {
    if ks == [] then Zero else TallySum(stats, ks[..|ks| - 1]).Plus(stats[ks[|ks| - 1]])
  }

  lemma {:induction false} SumOverAgree<K>(m1: map<K, Tally>, m2: map<K, Tally>, ks: seq<K>)
    requires forall k :: k in ks ==> k in m1 && k in m2 && m1[k] == m2[k]
    ensures TallySum(m1, ks) == TallySum(m2, ks)
  {
    if ks != [] {
      SumOverAgree(m1, m2, ks[..|ks| - 1]);
    }
  }

  /** Adding to the tally of one key, listed once, adds the same to the sum. */
  lemma {:induction false} SumOverAdd<K>(m: map<K, Tally>, ks: seq<K>, k: K, d: Tally)
    requires forall j :: j in ks ==> j in m
    requires forall i, j :: 0 <= i < j < |ks| ==> ks[i] != ks[j]
    requires k in ks
    ensures TallySum(m[k := m[k].Plus(d)], ks) == TallySum(m, ks).Plus(d)
  {
    var m' := m[k := m[k].Plus(d)];
    var prefix, last := ks[..|ks| - 1], ks[|ks| - 1];
    if last == k {
      assert forall j :: j in prefix ==> j != k;
      SumOverAgree(m', m, prefix);
    } else {
      assert k in prefix;
      SumOverAdd(m, prefix, k, d);
    }
  }

  /** The dictionary's tallies, summed over its keys, are the `reduce` totals and the entry count:
      no entry is lost or counted twice by the grouping. */
  lemma {:induction false} GroupedSumsToTotals<K(!new)>(keyOf: Entry -> K, es: seq<Entry>)
    ensures TallySum(Grouped(keyOf, es), KeyOrder(keyOf, es)) == TotalTally(es)
  {
    if es != [] {
      var prefix, last := es[..|es| - 1], es[|es| - 1];
      GroupedSumsToTotals(keyOf, prefix);
      var m, ks, k := Grouped(keyOf, prefix), KeyOrder(keyOf, prefix), keyOf(last);
      var g := Grouped(keyOf, es);
      assert TotalTally(es) == TotalTally(prefix).Plus(TallyOf(last));
      if k in m {
        assert g == m[k := m[k].Plus(TallyOf(last))];
        assert KeyOrder(keyOf, es) == ks;
        SumOverAdd(m, ks, k, TallyOf(last));
      } else {
        assert g == m[k := Zero.Plus(TallyOf(last))];
        assert KeyOrder(keyOf, es) == ks + [k];
        assert (ks + [k])[..|ks|] == ks;
        assert TallySum(g, ks + [k]) == TallySum(g, ks).Plus(g[k]);
        SumOverAgree(g, m, ks);
      }
    }
  }

  /** `entry.project || 'Unknown'`. */
  function ProjectKey(e: Entry): string {
    if e.project == "" then "Unknown" else e.project
  }

  /** `entry.date.toISOString().split('T')[0]`: the UTC calendar day, here as a day number since
      the epoch (the ISO text of a day determines it and is determined by it). */
  function DayKey(e: Entry): int {
    e.date / MsPerDay
  }

  /** The `projectStats` grouping loop. */
  method ProjectStats(entries: seq<Entry>) returns (projectStats: map<string, Tally>)
    ensures projectStats == Grouped(ProjectKey, entries)
  {
    projectStats := map[];
    for i := 0 to |entries|
      invariant projectStats == Grouped(ProjectKey, entries[..i])
    {
      var entry := entries[i];
      var projectName := ProjectKey(entry);
      if projectName !in projectStats {
        projectStats := projectStats[projectName := Tally(0.0, 0.0, 0)];
      }
      var hours := WorkMinutes(entry) as real / 60.0;
      var t := projectStats[projectName];
      projectStats := projectStats[projectName := Tally(t.hours + hours, t.earnings + EntryEarnings(entry), t.entries + 1)];
      assert entries[..i + 1][..i] == entries[..i];
    }
    assert entries[..|entries|] == entries;
  }

  /** The names a plain object `{}` already answers through `Object.prototype`. Looking one of
      them up gives a function, or for `__proto__` the prototype itself, and either is truthy. */
  const InheritedNames: set<string> := {
    "constructor", "hasOwnProperty", "isPrototypeOf", "propertyIsEnumerable", "toLocaleString",
    "toString", "valueOf", "__proto__", "__defineGetter__", "__defineSetter__", "__lookupGetter__",
    "__lookupSetter__"}

  /** The own keys the `projectStats` loop leaves, as written: for a project named like an
      inherited property the `!projectStats[projectName]` test finds the inherited value, so no
      key is created and the additions land on that value instead. */
  function ProjectStatsAsWritten(es: seq<Entry>): map<string, Tally> {
    if es == [] then map[]
    else
      var rest := ProjectStatsAsWritten(es[..|es| - 1]);
      var e := es[|es| - 1];
      if ProjectKey(e) in InheritedNames then rest else Accumulate(rest, ProjectKey(e), e)
  }

  /** As written, the dictionary is the intended grouping without the inherited names. */
  lemma {:induction false} AsWrittenDropsInheritedNames(es: seq<Entry>)
    ensures forall k :: k in ProjectStatsAsWritten(es) <==> k in Grouped(ProjectKey, es) && k !in InheritedNames
    ensures forall k :: k in ProjectStatsAsWritten(es) ==> ProjectStatsAsWritten(es)[k] == Grouped(ProjectKey, es)[k]
  {
    if es != [] {
      AsWrittenDropsInheritedNames(es[..|es| - 1]);
    }
  }

  /** One hour of work on a project named "toString": the intended dictionary has the project,
      the one as written is empty, so its figures no longer add up to the one hour in the total. */
  lemma InheritedProjectNameVanishes()
    ensures var es := [Entry("u", "p", "toString", 0, 60, None, 20.0)];
            && TotalHours(es) == 1.0
            && Grouped(ProjectKey, es) == map["toString" := Tally(1.0, 20.0, 1)]
            && ProjectStatsAsWritten(es) == map[]
  {
    var es := [Entry("u", "p", "toString", 0, 60, None, 20.0)];
    assert es[..0] == [];
  }

  /** A `dailyStats` value: hours and earnings only. */
  datatype DayTally = DayTally(hours: real, earnings: real)

  /** The per-day dictionary is the grouping by day without the counts. */
  function DayView<K>(stats: map<K, Tally>): map<K, DayTally> {
    map k | k in stats :: DayTally(stats[k].hours, stats[k].earnings)
  }

  /** One step of the day loop on the view is the view of one step of the grouping. */
  lemma DayViewAccumulate<K>(stats: map<K, Tally>, k: K, e: Entry)
    ensures var view := DayView(stats);
            var t := if k in view then view[k] else DayTally(0.0, 0.0);
            DayView(Accumulate(stats, k, e)) == view[k := DayTally(t.hours + EntryHours(e), t.earnings + EntryEarnings(e))]
  {
    var view := DayView(stats);
    var t := if k in view then view[k] else DayTally(0.0, 0.0);
    var lhs := DayView(Accumulate(stats, k, e));
    var rhs := view[k := DayTally(t.hours + EntryHours(e), t.earnings + EntryEarnings(e))];
    assert lhs.Keys == rhs.Keys;
    assert forall j :: j in lhs ==> lhs[j] == rhs[j];
  }

  /** The `dailyStats` grouping loop. */
  method DailyStats(entries: seq<Entry>) returns (dailyStats: map<int, DayTally>)
    ensures dailyStats == DayView(Grouped(DayKey, entries))
  {
    dailyStats := map[];
    for i := 0 to |entries|
      invariant dailyStats == DayView(Grouped(DayKey, entries[..i]))
    {
      var entry := entries[i];
      var dateKey := DayKey(entry);
      ghost var before := Grouped(DayKey, entries[..i]);
      DayViewAccumulate(before, dateKey, entry);
      if dateKey !in dailyStats {
        dailyStats := dailyStats[dateKey := DayTally(0.0, 0.0)];
      }
      var hours := WorkMinutes(entry) as real / 60.0;
      var t := dailyStats[dateKey];
      dailyStats := dailyStats[dateKey := DayTally(t.hours + hours, t.earnings + EntryEarnings(entry))];
      assert entries[..i + 1][..i] == entries[..i];
      assert Grouped(DayKey, entries[..i + 1]) == Accumulate(before, dateKey, entry);
    }
    assert entries[..|entries|] == entries;
  }

  /** The sum of the per-day values over a list of days. */
  function DaySum<K>(stats: map<K, DayTally>, ks: seq<K>): DayTally
    requires forall k :: k in ks ==> k in stats
  {
    if ks == [] then DayTally(0.0, 0.0)
    else
      var s := DaySum(stats, ks[..|ks| - 1]);
      var d := stats[ks[|ks| - 1]];
      DayTally(s.hours + d.hours, s.earnings + d.earnings)
  }

  lemma {:induction false} DaySumOfView<K>(stats: map<K, Tally>, ks: seq<K>)
    requires forall k :: k in ks ==> k in stats
    ensures DaySum(DayView(stats), ks) == DayTally(TallySum(stats, ks).hours, TallySum(stats, ks).earnings)
  {
    if ks != [] {
      DaySumOfView(stats, ks[..|ks| - 1]);
    }
  }

  /** The `summary` of the API, and the dashboard's totals and `entriesCount`. */
  datatype Summary = Summary(totalHours: real, totalEarnings: real, entriesCount: nat)

  datatype Report = Report(projectStats: map<string, Tally>, dailyStats: map<int, DayTally>, summary: Summary)

  /** What both routes compute from the entries they found. */
  function ReportOf(entries: seq<Entry>): Report {
    Report(Grouped(ProjectKey, entries), DayView(Grouped(DayKey, entries)),
           Summary(TotalHours(entries), TotalEarnings(entries), |entries|))
  }

  /** A report agrees with itself: the per-project tallies add up to the summary totals and count,
      and the per-day values to the same totals. */
  lemma ReportIsConsistent(entries: seq<Entry>)
    ensures var r := ReportOf(entries);
            && TallySum(r.projectStats, KeyOrder(ProjectKey, entries))
               == Tally(r.summary.totalHours, r.summary.totalEarnings, r.summary.entriesCount)
            && DaySum(r.dailyStats, KeyOrder(DayKey, entries))
               == DayTally(r.summary.totalHours, r.summary.totalEarnings)
  {
    GroupedSumsToTotals(ProjectKey, entries);
    GroupedSumsToTotals(DayKey, entries);
    DaySumOfView(Grouped(DayKey, entries), KeyOrder(DayKey, entries));
  }

  /** The aggregation both routes run over the entries found: the totals, then the two loops. */
  method BuildReport(entries: seq<Entry>) returns (report: Report)
    ensures report == ReportOf(entries)
  {
    var totalHours := TotalHours(entries);
    var totalEarnings := TotalEarnings(entries);
    var projectStats := ProjectStats(entries);
    var dailyStats := DailyStats(entries);
    report := Report(projectStats, dailyStats, Summary(totalHours, totalEarnings, |entries|));
  }

  /** The query: the owner, an optional inclusive date range, an optional project id. */
  datatype QueryFilter = QueryFilter(owner: string, dates: Option<(int, int)>, projectId: Option<string>)

  predicate Matches(f: QueryFilter, e: Entry) {
    && e.owner == f.owner
    && (f.dates.Some? ==> f.dates.value.0 <= e.date <= f.dates.value.1)
    && (f.projectId.Some? ==> e.projectId == f.projectId.value)
  }

  /** `WorkEntry.find(filter)` over the stored entries, keeping their order. */
  function Find(f: QueryFilter, stored: seq<Entry>): (found: seq<Entry>)
    ensures forall e :: e in found <==> e in stored && Matches(f, e)
    ensures forall e :: multiset(found)[e] == if Matches(f, e) then multiset(stored)[e] else 0
  {
    if stored == [] then []
    else
      var rest := Find(f, stored[..|stored| - 1]);
      var last := stored[|stored| - 1];
      assert stored == stored[..|stored| - 1] + [last];
      if Matches(f, last) then rest + [last] else rest
  }

  /** The dashboard's window: from 30 days before now up to now. */
  function DashboardFilter(owner: string, now: int): (f: QueryFilter)
    ensures forall e :: Matches(f, e) <==> e.owner == owner && now - 30 * MsPerDay <= e.date <= now
  {
    QueryFilter(owner, Some((now - 30 * MsPerDay, now)), None)
  }

  /** A query parameter is used only when present and non-empty. */
  predicate Truthy(param: Option<string>) {
    param.Some? && param.value != ""
  }

  /** The chart-data API's filter: the date range only when both dates are given, the project
      only when given and not 'all'. `parseDate` stands for `new Date(text)`. */
  function ChartDataFilter(owner: string, startDate: Option<string>, endDate: Option<string>,
                           projectId: Option<string>, parseDate: string -> int): (f: QueryFilter)
    ensures f.owner == owner
    ensures f.dates.Some? <==> Truthy(startDate) && Truthy(endDate)
    ensures f.dates.Some? ==> f.dates.value == (parseDate(startDate.value), parseDate(endDate.value))
    ensures f.projectId.Some? <==> Truthy(projectId) && projectId.value != "all"
    ensures f.projectId.Some? ==> f.projectId == projectId
  {
    var dates := if Truthy(startDate) && Truthy(endDate)
                 then Some((parseDate(startDate.value), parseDate(endDate.value))) else None;
    var project := if Truthy(projectId) && projectId.value != "all" then projectId else None;
    QueryFilter(owner, dates, project)
  }

  /** Asking for 'all' projects, or giving only one of the two dates, finds what giving neither
      finds: all of the owner's entries. */
  lemma UnfilteredChartData(owner: string, startDate: Option<string>, parseDate: string -> int, stored: seq<Entry>)
    ensures var f := ChartDataFilter(owner, startDate, None, Some("all"), parseDate);
            f == ChartDataFilter(owner, None, None, None, parseDate)
            && forall e :: e in Find(f, stored) <==> e in stored && e.owner == owner
  {
  }

  /** The dashboard route: the last 30 days' entries of the user, aggregated. */
  method Dashboard(stored: seq<Entry>, owner: string, now: int) returns (report: Report)
    ensures report == ReportOf(Find(DashboardFilter(owner, now), stored))
  {
    var workEntries := Find(DashboardFilter(owner, now), stored);
    report := BuildReport(workEntries);
  }

  /** The chart-data route. */
  method ChartData(stored: seq<Entry>, owner: string, startDate: Option<string>, endDate: Option<string>,
                   projectId: Option<string>, parseDate: string -> int) returns (report: Report)
    ensures report == ReportOf(Find(ChartDataFilter(owner, startDate, endDate, projectId, parseDate), stored))
  {
    var workEntries := Find(ChartDataFilter(owner, startDate, endDate, projectId, parseDate), stored);
    report := BuildReport(workEntries);
  }
}
