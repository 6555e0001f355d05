/**
 * The admin report page (`reports.js`): `generateReport` picks the stored
 * transactions inside the chosen date window, totals them for a sales, employee
 * or inventory report and appends the report; `deleteReport` filters reports out
 * by id. The employee report groups the window by employee name, counting and
 * summing each group, and ranks the groups by their sales, highest first.
 */
module Reports {
  import opened Common

  /** A stored transaction as the page reads it; `total` is taken to be a number. */
  datatype ReportTxn = ReportTxn(datetime: string, employeeName: string, total: real)

  /** The per-employee accumulator of the grouping loop. */
  datatype Stats = Stats(totalSales: real, transactions: nat)

  /** One entry of the employee ranking. */
  datatype EmployeeRow = EmployeeRow(name: string, totalSales: real, transactions: nat)

  /** A detail line: an amount (shown as money) or a tally. */
  datatype DetailValue = Money(amount: real) | Tally(count: nat)
  datatype Detail = Detail(title: string, value: DetailValue)

  /** The labelled lines of a sales or inventory report, or the employee ranking. */
  datatype Details = Lines(lines: seq<Detail>) | Ranking(rows: seq<EmployeeRow>)

  datatype Report = Report(id: string, kind: string, startDate: string, endDate: string,
                           dateGenerated: string, totalSales: real, totalTransactions: nat,
                           generatedBy: string, details: Details)

  /** What a press of the generate button leads to. */
  datatype Outcome = MissingDates | NoTransactions | Generated(report: Report)

  // ---------------------------------------------------------------------
  // The date window
  // ---------------------------------------------------------------------

  /**
   * `new Date(d) >= new Date(start) && new Date(d) <= new Date(end)`, where `timeOf`
   * is the time value `new Date` gives a text (None for an Invalid Date, which
   * compares false with everything).
   */
  predicate InWindow(timeOf: string -> Option<int>, startDate: string, endDate: string, t: ReportTxn) {
    var d := timeOf(t.datetime);
    var s := timeOf(startDate);
    var e := timeOf(endDate);
    d.Some? && s.Some? && e.Some? && s.value <= d.value <= e.value
  }

  function Within(timeOf: string -> Option<int>, startDate: string, endDate: string): ReportTxn -> bool {
    (t: ReportTxn) => InWindow(timeOf, startDate, endDate, t)
  }

  /** `filteredTransactions` */
  function Window(stored: seq<ReportTxn>, timeOf: string -> Option<int>, startDate: string, endDate: string): seq<ReportTxn> {
    Filter(stored, Within(timeOf, startDate, endDate))
  }

  // ---------------------------------------------------------------------
  // Sums and the grouping by employee
  // ---------------------------------------------------------------------

  function Total(t: ReportTxn): real { t.total }

  function RowSales(r: EmployeeRow): real { r.totalSales }

  /** A transaction's contribution to the sales of employee `n`. */
  function ShareOf(n: string): ReportTxn -> real {
    (t: ReportTxn) => if t.employeeName == n then t.total else 0.0
  }

  function ByName(n: string): ReportTxn -> bool {
    (t: ReportTxn) => t.employeeName == n
  }

  /** The sales of employee `n` in `ts`. */
  function SalesOf(ts: seq<ReportTxn>, n: string): real { SumReal(ts, ShareOf(n)) }

  /** The number of transactions of employee `n` in `ts`. */
  function CountOf(ts: seq<ReportTxn>, n: string): nat { Count(ts, ByName(n)) }

  /** The ranking entry of employee `n`. */
  function GroupRow(ts: seq<ReportTxn>, n: string): EmployeeRow {
    EmployeeRow(n, SalesOf(ts, n), CountOf(ts, n))
  }

  /** The employee names of `ts` in order of first appearance (the key order of `Object.entries`). */
  function Names(ts: seq<ReportTxn>): seq<string>
    decreases |ts|
  {
    if ts == [] then []
    else
      var prev := Names(ts[..|ts| - 1]);
      var n := ts[|ts| - 1].employeeName;
      if n in prev then prev else prev + [n]
  }

  ghost predicate Distinct(ns: seq<string>) {
    forall i, j :: 0 <= i < j < |ns| ==> ns[i] != ns[j]
  }

  ghost predicate NamesDistinct(rows: seq<EmployeeRow>) {
    forall i, j :: 0 <= i < j < |rows| ==> rows[i].name != rows[j].name
  }

  function RowsFor(names: seq<string>, ts: seq<ReportTxn>): (r: seq<EmployeeRow>)
    ensures |r| == |names|
    ensures forall j :: 0 <= j < |r| ==> r[j] == GroupRow(ts, names[j])
  {
    seq(|names|, j requires 0 <= j < |names| => GroupRow(ts, names[j]))
  }

  /** The entries built from `employeeStats`, before sorting. */
  function Groups(ts: seq<ReportTxn>): seq<EmployeeRow> { RowsFor(Names(ts), ts) }

  // ---------------------------------------------------------------------
  // The sort, highest sales first
  // ---------------------------------------------------------------------

  /** `x` goes before the first entry with smaller sales, so ties keep their order. */
  function InsertDesc(x: EmployeeRow, s: seq<EmployeeRow>): (r: seq<EmployeeRow>)
    ensures multiset(r) == multiset(s) + multiset{x}
    decreases |s|
  {
    if s == [] then [x]
    else if s[0].totalSales < x.totalSales then [x] + s
    else
      assert s == [s[0]] + s[1..];
      [s[0]] + InsertDesc(x, s[1..])
  }

  /** `.sort((a, b) => b.totalSales - a.totalSales)`, a stable sort. */
  function SortDesc(s: seq<EmployeeRow>): (r: seq<EmployeeRow>)
    ensures multiset(r) == multiset(s)
    decreases |s|
  {
    if s == [] then []
    else
      assert s == s[..|s| - 1] + [s[|s| - 1]];
      InsertDesc(s[|s| - 1], SortDesc(s[..|s| - 1]))
  }

  /** The employee ranking of a window. */
  function RankingOf(f: seq<ReportTxn>): seq<EmployeeRow> { SortDesc(Groups(f)) }

  ghost predicate SortedDesc(s: seq<EmployeeRow>) {
    forall i, j :: 0 <= i < j < |s| ==> s[i].totalSales >= s[j].totalSales
  }

  // ---------------------------------------------------------------------
  // The report
  // ---------------------------------------------------------------------

  /** `String(Date.now()).slice(-5)`: the last five characters, or all of a shorter text. */
  function Last5(s: string): string {
    if |s| <= 5 then s else s[|s| - 5..]
  }

  function ReportId(now: nat): string { "R" + Last5(NatToDec(now)) }

  const GeneratedBy: string := "Admin"

  /** The report for a non-empty window `f`; an unknown type has total 0 and no details. */
  function ReportOf(kind: string, startDate: string, endDate: string, f: seq<ReportTxn>,
                    now: nat, today: string): Report
  {
    var id := ReportId(now);
    if kind == "sales" then
      var total := SumReal(f, Total);
      Report(id, kind, startDate, endDate, today, total, |f|, GeneratedBy,
             Lines([Detail("Total Sales", Money(total)), Detail("Total Transactions", Tally(|f|))]))
    else if kind == "employee" then
      var rows := RankingOf(f);
      Report(id, kind, startDate, endDate, today, SumReal(rows, RowSales), |f|, GeneratedBy, Ranking(rows))
    else if kind == "inventory" then
      Report(id, kind, startDate, endDate, today, SumReal(f, Total), |f|, GeneratedBy,
             Lines([Detail("Total Inventory Movement", Tally(|f|))]))
    else
      Report(id, kind, startDate, endDate, today, 0.0, |f|, GeneratedBy, Lines([]))
  }

  /**
   * `generateReport` against the stored transactions; `timeOf` stands for `new Date`,
   * `now` for `Date.now()` and `today` for the locale date text.
   */
  function Generate(kind: string, startDate: string, endDate: string, stored: seq<ReportTxn>,
                    timeOf: string -> Option<int>, now: nat, today: string): Outcome
  {
    if startDate == "" || endDate == "" then MissingDates
    else
      var f := Window(stored, timeOf, startDate, endDate);
      if f == [] then NoTransactions else Generated(ReportOf(kind, startDate, endDate, f, now, today))
  }

  /** The grouping loop: one entry per employee name, in order of first appearance. */
  method EmployeeStats(ts: seq<ReportTxn>) returns (rows: seq<EmployeeRow>)
    ensures rows == Groups(ts)
  {
    var stats: map<string, Stats> := map[];
    var order: seq<string> := [];
    var i := 0;
    while i < |ts|
      invariant 0 <= i <= |ts|
      invariant order == Names(ts[..i])
      invariant forall n :: n in stats <==> n in order
      invariant forall n :: n in stats ==> stats[n] == Stats(SalesOf(ts[..i], n), CountOf(ts[..i], n))
    {
      var t := ts[i];
      assert ts[..i + 1] == ts[..i] + [t];
      assert ts[..i + 1][..i] == ts[..i];
      if t.employeeName !in stats {
        NamesMembers(ts[..i]);
        NoShareWithoutName(ts[..i], t.employeeName);
        stats := stats[t.employeeName := Stats(0.0, 0)];
        order := order + [t.employeeName];
      }
      var s := stats[t.employeeName];
      stats := stats[t.employeeName := Stats(s.totalSales + t.total, s.transactions + 1)];
      forall n | n in stats
        ensures stats[n] == Stats(SalesOf(ts[..i + 1], n), CountOf(ts[..i + 1], n))
      {
        ShareAppend(ts[..i], t, n);
      }
      i := i + 1;
    }
    assert ts[..i] == ts;
    rows := seq(|order|, j requires 0 <= j < |order| =>
                  EmployeeRow(order[j], stats[order[j]].totalSales, stats[order[j]].transactions));
  }

  /** The page's list of reports. */
  class ReportsPage {
    var reportsData: seq<Report>

    constructor()
      ensures reportsData == []
    {
      reportsData := [];
    }

    /** `loadReports`: the saved list, or none. */
    method LoadReports(saved: Option<seq<Report>>)
      modifies this`reportsData
      ensures reportsData == saved.GetOr([])
    {
      reportsData := saved.GetOr([]);
    }

    /** `generateReport`: a generated report is appended; otherwise nothing changes. */
    method GenerateReport(kind: string, startDate: string, endDate: string, stored: seq<ReportTxn>,
                          timeOf: string -> Option<int>, now: nat, today: string) returns (g: Outcome)
      modifies this`reportsData
      ensures g == Generate(kind, startDate, endDate, stored, timeOf, now, today)
      ensures reportsData == if g.Generated? then old(reportsData) + [g.report] else old(reportsData)
    {
      if startDate == "" || endDate == "" {
        return MissingDates;
      }
      var f := Window(stored, timeOf, startDate, endDate);
      if |f| == 0 {
        return NoTransactions;
      }
      var id := ReportId(now);
      var total := 0.0;
      var details := Lines([]);
      if kind == "sales" {
        total := SumReal(f, Total);
        details := Lines([Detail("Total Sales", Money(total)), Detail("Total Transactions", Tally(|f|))]);
      } else if kind == "employee" {
        var groups := EmployeeStats(f);
        var rows := SortDesc(groups);
        details := Ranking(rows);
        total := SumReal(rows, RowSales);
      } else if kind == "inventory" {
        total := SumReal(f, Total);
        details := Lines([Detail("Total Inventory Movement", Tally(|f|))]);
      }
      var report := Report(id, kind, startDate, endDate, today, total, |f|, GeneratedBy, details);
      reportsData := reportsData + [report];
      g := Generated(report);
    }

    /** `deleteReport`: when confirmed, every report with that id goes. */
    method DeleteReport(id: string, confirmed: bool)
      modifies this`reportsData
      ensures reportsData == if confirmed then Filter(old(reportsData), (r: Report) => r.id != id) else old(reportsData)
    {
      if !confirmed {
        return;
      }
      reportsData := Filter(reportsData, (r: Report) => r.id != id);
    }
  }

  // ---------------------------------------------------------------------
  // Facts about the grouping
  // ---------------------------------------------------------------------

  /** The names are exactly the employee names of `ts`, each once. */
  lemma {:induction false} NamesMembers(ts: seq<ReportTxn>)
    ensures forall n :: n in Names(ts) <==> exists i :: 0 <= i < |ts| && ts[i].employeeName == n
    ensures Distinct(Names(ts))
    decreases |ts|
  {
    if ts != [] {
      var init := ts[..|ts| - 1];
      NamesMembers(init);
      assert forall i :: 0 <= i < |init| ==> init[i] == ts[i];
    }
  }

  /** An employee without transactions in `ts` has no sales and no count there. */
  lemma {:induction false} NoShareWithoutName(ts: seq<ReportTxn>, n: string)
    requires forall i :: 0 <= i < |ts| ==> ts[i].employeeName != n
    ensures SalesOf(ts, n) == 0.0 && CountOf(ts, n) == 0
    decreases |ts|
  {
    if ts != [] {
      assert forall i :: 0 <= i < |ts[1..]| ==> ts[1..][i] == ts[i + 1];
      NoShareWithoutName(ts[1..], n);
    }
  }

  /** One more transaction adds to its own employee's figures only. */
  lemma ShareAppend(ts: seq<ReportTxn>, x: ReportTxn, n: string)
    ensures SalesOf(ts + [x], n) == SalesOf(ts, n) + (if x.employeeName == n then x.total else 0.0)
    ensures CountOf(ts + [x], n) == CountOf(ts, n) + (if x.employeeName == n then 1 else 0)
  {
    SumRealAppend(ts, x, ShareOf(n));
    CountAppend(ts, x, ByName(n));
  }

  lemma {:induction false} GroupSumAppend(names: seq<string>, ts: seq<ReportTxn>, x: ReportTxn)
    requires Distinct(names)
    ensures SumReal(RowsFor(names, ts + [x]), RowSales)
         == SumReal(RowsFor(names, ts), RowSales) + (if x.employeeName in names then x.total else 0.0)
    decreases |names|
  {
    if names != [] {
      var after := RowsFor(names, ts + [x]);
      var before := RowsFor(names, ts);
      assert after[1..] == RowsFor(names[1..], ts + [x]);
      assert before[1..] == RowsFor(names[1..], ts);
      assert Distinct(names[1..]) by {
        forall i, j | 0 <= i < j < |names[1..]| ensures names[1..][i] != names[1..][j] {
          assert names[1..][i] == names[i + 1] && names[1..][j] == names[j + 1];
        }
      }
      GroupSumAppend(names[1..], ts, x);
      ShareAppend(ts, x, names[0]);
      assert x.employeeName in names <==> x.employeeName == names[0] || x.employeeName in names[1..] by {
        assert names == [names[0]] + names[1..];
      }
      if x.employeeName == names[0] {
        assert x.employeeName !in names[1..] by {
          forall k | 0 <= k < |names[1..]| ensures names[1..][k] != names[0] {
            assert names[1..][k] == names[k + 1];
          }
        }
      }
    }
  }

  /** The entries' sales add up to the sales of all of `ts`. */
  lemma {:induction false} GroupsSum(ts: seq<ReportTxn>)
    ensures SumReal(Groups(ts), RowSales) == SumReal(ts, Total)
    decreases |ts|
  {
    if ts != [] {
      var init := ts[..|ts| - 1];
      var x := ts[|ts| - 1];
      assert ts == init + [x];
      var names := Names(init);
      GroupsSum(init);
      NamesMembers(init);
      SumRealAppend(init, x, Total);
      GroupSumAppend(names, init, x);
      if x.employeeName !in names {
        var n := x.employeeName;
        assert RowsFor(names + [n], ts) == RowsFor(names, ts) + [GroupRow(ts, n)];
        SumRealAppend(RowsFor(names, ts), GroupRow(ts, n), RowSales);
        NoShareWithoutName(init, n);
        ShareAppend(init, x, n);
      }
    }
  }

  lemma GroupsDistinct(ts: seq<ReportTxn>)
    ensures NamesDistinct(Groups(ts))
  {
    NamesMembers(ts);
  }

  // ---------------------------------------------------------------------
  // Facts about the sort
  // ---------------------------------------------------------------------

  predicate SalesAtLeast(a: EmployeeRow, b: EmployeeRow) { a.totalSales >= b.totalSales }
  predicate OtherName(a: EmployeeRow, b: EmployeeRow) { a.name != b.name }

  /** Every entry after an insertion is the inserted one or came from the sequence. */
  lemma InsertedFrom(x: EmployeeRow, s: seq<EmployeeRow>, k: nat)
    requires k < |InsertDesc(x, s)|
    ensures InsertDesc(x, s)[k] == x || exists m :: 0 <= m < |s| && s[m] == InsertDesc(x, s)[k]
  {
    var r := InsertDesc(x, s);
    assert r[k] in multiset(r);
  }

  lemma {:induction false} InsertKeepsSorted(x: EmployeeRow, s: seq<EmployeeRow>)
    requires SortedDesc(s)
    ensures SortedDesc(InsertDesc(x, s))
    decreases |s|
  {
    if s != [] && s[0].totalSales >= x.totalSales {
      var rest := InsertDesc(x, s[1..]);
      assert SortedDesc(s[1..]) by {
        assert forall k :: 0 <= k < |s| - 1 ==> s[1..][k] == s[k + 1];
      }
      InsertKeepsSorted(x, s[1..]);
      forall k | 0 <= k < |rest| ensures SalesAtLeast(s[0], rest[k]) {
        InsertedFrom(x, s[1..], k);
        if rest[k] != x {
          var m :| 0 <= m < |s[1..]| && s[1..][m] == rest[k];
          assert s[m + 1] == rest[k];
        }
      }
      assert Pairwise(rest, SalesAtLeast);
      ConsPairwise(s[0], rest, SalesAtLeast);
      assert InsertDesc(x, s) == [s[0]] + rest;
    }
  }

  lemma {:induction false} SortIsSorted(s: seq<EmployeeRow>)
    ensures SortedDesc(SortDesc(s))
    decreases |s|
  {
    if s != [] {
      SortIsSorted(s[..|s| - 1]);
      InsertKeepsSorted(s[|s| - 1], SortDesc(s[..|s| - 1]));
    }
  }

  lemma {:induction false} InsertSum(x: EmployeeRow, s: seq<EmployeeRow>)
    ensures SumReal(InsertDesc(x, s), RowSales) == x.totalSales + SumReal(s, RowSales)
    decreases |s|
  {
    if s != [] && s[0].totalSales >= x.totalSales {
      InsertSum(x, s[1..]);
      assert InsertDesc(x, s)[1..] == InsertDesc(x, s[1..]);
    }
  }

  lemma {:induction false} SortSum(s: seq<EmployeeRow>)
    ensures SumReal(SortDesc(s), RowSales) == SumReal(s, RowSales)
    decreases |s|
  {
    if s != [] {
      var init := s[..|s| - 1];
      SortSum(init);
      InsertSum(s[|s| - 1], SortDesc(init));
      SumRealPrefixStep(s, |s| - 1, RowSales);
      assert s[..|s|] == s;
    }
  }

  lemma {:induction false} InsertKeepsNamesDistinct(x: EmployeeRow, s: seq<EmployeeRow>)
    requires NamesDistinct(s)
    requires forall k :: 0 <= k < |s| ==> s[k].name != x.name
    ensures NamesDistinct(InsertDesc(x, s))
    decreases |s|
  {
    if s == [] {
    } else if s[0].totalSales < x.totalSales {
      ConsPairwise(x, s, OtherName);
    } else {
      var rest := InsertDesc(x, s[1..]);
      assert forall k :: 0 <= k < |s| - 1 ==> s[1..][k] == s[k + 1];
      InsertKeepsNamesDistinct(x, s[1..]);
      forall k | 0 <= k < |rest| ensures OtherName(s[0], rest[k]) {
        InsertedFrom(x, s[1..], k);
        if rest[k] != x {
          var m :| 0 <= m < |s[1..]| && s[1..][m] == rest[k];
          assert s[m + 1] == rest[k];
        }
      }
      assert Pairwise(rest, OtherName);
      ConsPairwise(s[0], rest, OtherName);
      assert InsertDesc(x, s) == [s[0]] + rest;
    }
  }

  lemma {:induction false} SortKeepsNamesDistinct(s: seq<EmployeeRow>)
    requires NamesDistinct(s)
    ensures NamesDistinct(SortDesc(s))
    decreases |s|
  {
    if s != [] {
      var init := s[..|s| - 1];
      var x := s[|s| - 1];
      var sorted := SortDesc(init);
      SortKeepsNamesDistinct(init);
      forall k | 0 <= k < |sorted| ensures sorted[k].name != x.name {
        assert sorted[k] in multiset(init);
        var m :| 0 <= m < |init| && init[m] == sorted[k];
        assert init[m] == s[m];
      }
      InsertKeepsNamesDistinct(x, sorted);
    }
  }

  // ---------------------------------------------------------------------
  // Properties of generateReport
  // ---------------------------------------------------------------------

  /** Without both dates there is no report. */
  lemma MissingDatesNoReport(kind: string, startDate: string, endDate: string, stored: seq<ReportTxn>,
                             timeOf: string -> Option<int>, now: nat, today: string)
    requires startDate == "" || endDate == ""
    ensures Generate(kind, startDate, endDate, stored, timeOf, now, today) == MissingDates
  {
  }

  /** A transaction is in the window exactly when its time lies between the two bounds, both included. */
  lemma WindowInclusive(stored: seq<ReportTxn>, timeOf: string -> Option<int>, startDate: string, endDate: string, t: ReportTxn)
    ensures t in Window(stored, timeOf, startDate, endDate) <==>
      (t in stored && timeOf(t.datetime).Some? && timeOf(startDate).Some? && timeOf(endDate).Some?
       && timeOf(startDate).value <= timeOf(t.datetime).value <= timeOf(endDate).value)
  {
  }

  /** The window keeps the stored order. */
  lemma WindowKeepsOrder(stored: seq<ReportTxn>, timeOf: string -> Option<int>, startDate: string, endDate: string)
    ensures SubseqOf(Window(stored, timeOf, startDate, endDate), stored)
  {
    FilterIsSubseq(stored, Within(timeOf, startDate, endDate));
  }

  /** When no stored transaction falls in the window, there is no report. */
  lemma EmptyWindowNoReport(kind: string, startDate: string, endDate: string, stored: seq<ReportTxn>,
                            timeOf: string -> Option<int>, now: nat, today: string)
    requires startDate != "" && endDate != ""
    requires forall k :: 0 <= k < |stored| ==> !InWindow(timeOf, startDate, endDate, stored[k])
    ensures Generate(kind, startDate, endDate, stored, timeOf, now, today) == NoTransactions
  {
    FilterKeepsNone(stored, Within(timeOf, startDate, endDate));
  }

  /**
   * Every report counts the window's transactions and carries the page's fields; a sales
   * or inventory report totals the window, and any other type but "employee" totals 0.
   */
  lemma GeneratedTotals(kind: string, startDate: string, endDate: string, stored: seq<ReportTxn>,
                        timeOf: string -> Option<int>, now: nat, today: string)
    requires Generate(kind, startDate, endDate, stored, timeOf, now, today).Generated?
    ensures var r := Generate(kind, startDate, endDate, stored, timeOf, now, today).report;
      var f := Window(stored, timeOf, startDate, endDate);
      f != [] && startDate != "" && endDate != ""
      && r.totalTransactions == |f| && r.id == ReportId(now) && r.kind == kind
      && r.startDate == startDate && r.endDate == endDate && r.dateGenerated == today
      && r.generatedBy == "Admin"
      && (kind == "sales" || kind == "inventory" ==> r.totalSales == SumReal(f, Total))
      && (kind == "sales" ==> r.details.Lines? && r.details.lines[0].value == Money(r.totalSales)
                               && r.details.lines[1].value == Tally(|f|))
      && (kind == "inventory" ==> r.details == Lines([Detail("Total Inventory Movement", Tally(|f|))]))
      && (kind != "sales" && kind != "employee" && kind != "inventory" ==> r.totalSales == 0.0 && r.details == Lines([]))
  {
  }

  /** The ranking is sorted, highest sales first, and its sales add up to the window's total. */
  lemma RankingSortedAndSummed(f: seq<ReportTxn>)
    ensures SortedDesc(RankingOf(f))
    ensures SumReal(RankingOf(f), RowSales) == SumReal(f, Total)
  {
    SortIsSorted(Groups(f));
    SortSum(Groups(f));
    GroupsSum(f);
  }

  /** The ranking has as many entries as there are distinct names, no name twice. */
  lemma RankingNamesDistinct(f: seq<ReportTxn>)
    ensures NamesDistinct(RankingOf(f)) && |RankingOf(f)| == |Names(f)|
  {
    var groups := Groups(f);
    GroupsDistinct(f);
    SortKeepsNamesDistinct(groups);
    assert |multiset(SortDesc(groups))| == |multiset(groups)|;
  }

  /** Each entry belongs to an employee of `f` and holds that employee's sales and count. */
  lemma RankingRowsAreGroups(f: seq<ReportTxn>)
    ensures forall k :: 0 <= k < |RankingOf(f)| ==>
      RankingOf(f)[k] == GroupRow(f, RankingOf(f)[k].name)
      && exists i :: 0 <= i < |f| && f[i].employeeName == RankingOf(f)[k].name
  {
    var groups := Groups(f);
    var rows := SortDesc(groups);
    NamesMembers(f);
    forall k | 0 <= k < |rows|
      ensures rows[k] == GroupRow(f, rows[k].name)
      ensures exists i :: 0 <= i < |f| && f[i].employeeName == rows[k].name
    {
      assert rows[k] in multiset(groups);
      var m :| 0 <= m < |groups| && groups[m] == rows[k];
      assert Names(f)[m] in Names(f);
    }
  }

  /** Every employee of `f` has an entry. */
  lemma RankingCoversNames(f: seq<ReportTxn>)
    ensures forall i :: 0 <= i < |f| ==>
      exists k :: 0 <= k < |RankingOf(f)| && RankingOf(f)[k].name == f[i].employeeName
  {
    var groups := Groups(f);
    var rows := RankingOf(f);
    assert multiset(rows) == multiset(groups);
    NamesMembers(f);
    forall i | 0 <= i < |f| ensures exists k :: 0 <= k < |rows| && rows[k].name == f[i].employeeName {
      assert f[i].employeeName in Names(f);
      var m :| 0 <= m < |Names(f)| && Names(f)[m] == f[i].employeeName;
      assert groups[m] in multiset(rows);
      var k :| 0 <= k < |rows| && rows[k] == groups[m];
      assert rows[k].name == f[i].employeeName;
    }
  }

  /**
   * The employee report ranks the window's employees: its details are the sorted entries
   * (see `RankingNamesDistinct`, `RankingRowsAreGroups` and `RankingCoversNames`), and its total is the window's total.
   */
  lemma EmployeeRanking(startDate: string, endDate: string, stored: seq<ReportTxn>,
                        timeOf: string -> Option<int>, now: nat, today: string)
    requires Generate("employee", startDate, endDate, stored, timeOf, now, today).Generated?
    ensures var r := Generate("employee", startDate, endDate, stored, timeOf, now, today).report;
      var f := Window(stored, timeOf, startDate, endDate);
      r.details == Ranking(RankingOf(f))
      && multiset(r.details.rows) == multiset(Groups(f))
      && SortedDesc(r.details.rows)
      && NamesDistinct(r.details.rows)
      && r.totalSales == SumReal(f, Total)
  {
    var f := Window(stored, timeOf, startDate, endDate);
    RankingSortedAndSummed(f);
    RankingNamesDistinct(f);
  }

  /** For the same window, the employee report and the sales report have the same total. */
  lemma EmployeeTotalIsSalesTotal(startDate: string, endDate: string, stored: seq<ReportTxn>,
                                  timeOf: string -> Option<int>, now: nat, today: string)
    requires Generate("sales", startDate, endDate, stored, timeOf, now, today).Generated?
    ensures Generate("employee", startDate, endDate, stored, timeOf, now, today).Generated?
    ensures Generate("employee", startDate, endDate, stored, timeOf, now, today).report.totalSales
         == Generate("sales", startDate, endDate, stored, timeOf, now, today).report.totalSales
  {
    var f := Window(stored, timeOf, startDate, endDate);
    SortSum(Groups(f));
    GroupsSum(f);
  }

  // ---------------------------------------------------------------------
  // Report ids and deletion
  // ---------------------------------------------------------------------

  /** The last `k` decimal digits of `n`, most significant first. */
  function LowDigits(n: nat, k: nat): string
    decreases k
  {
    if k == 0 then [] else LowDigits(n / 10, k - 1) + [DigitChar(n % 10)]
  }

  lemma {:induction false} LastDigits(n: nat, k: nat)
    requires k >= 1 && n >= Pow10(k - 1)
    ensures |NatToDec(n)| >= k && NatToDec(n)[|NatToDec(n)| - k..] == LowDigits(n, k)
    decreases k
  {
    var s := NatToDec(n);
    if k == 1 {
      if n < 10 {
        assert LowDigits(n, 1) == [DigitChar(n % 10)];
      }
    } else {
      assert n >= 10;
      LastDigits(n / 10, k - 1);
      var t := NatToDec(n / 10);
      assert s == t + [DigitChar(n % 10)];
      SuffixOfAppend(t, DigitChar(n % 10), k - 1);
    }
  }

  lemma {:induction false} LowDigitsPeriodic(n: nat, k: nat)
    ensures LowDigits(n + Pow10(k), k) == LowDigits(n, k)
    decreases k
  {
    if k > 0 {
      var p := Pow10(k - 1);
      assert n + Pow10(k) == n + 10 * p;
      assert (n + 10 * p) % 10 == n % 10;
      assert (n + 10 * p) / 10 == n / 10 + p;
      LowDigitsPeriodic(n / 10, k - 1);
    }
  }

  lemma Last5Digits(n: nat)
    requires n >= 10000
    ensures Last5(NatToDec(n)) == LowDigits(n, 5)
  {
    assert Pow10(4) == 10000;
    LastDigits(n, 5);
  }

  /**
   * Report ids repeat every 100000 ms: two reports generated 100 seconds apart get
   * the same id, so deleting one of them deletes both.
   */
  lemma ReportIdsRepeat(now: nat)
    requires now >= 10000
    ensures ReportId(now + 100000) == ReportId(now)
  {
    assert Last5(NatToDec(now)) == LowDigits(now, 5) by { Last5Digits(now); }
    assert Last5(NatToDec(now + 100000)) == LowDigits(now + 100000, 5) by { Last5Digits(now + 100000); }
    assert LowDigits(now + 100000, 5) == LowDigits(now, 5) by {
      assert Pow10(5) == 100000;
      LowDigitsPeriodic(now, 5);
    }
  }

  /** A confirmed delete keeps exactly the reports with another id, in their order; a declined one keeps all. */
  lemma DeleteRemovesThatId(reports: seq<Report>, id: string)
    ensures var after := Filter(reports, (r: Report) => r.id != id);
      (forall r :: r in after <==> r in reports && r.id != id) && SubseqOf(after, reports)
  {
    FilterIsSubseq(reports, (r: Report) => r.id != id);
  }
}
