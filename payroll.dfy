/** The payroll aggregation of the admin page: per-employee totals, the global
    totals shown on the dashboard, the monthly detail of one employee, and the
    employee and site filters of the detail view and of the attendance form. */
module Payroll {
  import opened Wrappers
  import opened Seqs
  import opened Text

  /** A month as `Date.prototype.getMonth` gives it: 0 is January. */
  type Month = m: int | 0 <= m < 12

  /** The local calendar fields of `new Date(log.date)`. */
  datatype LocalDate = LocalDate(year: int, month: Month, day: int)

  datatype Employee = Employee(id: string, name: string, currentSite: string, role: string)

  /** One work-day of one employee. `date` is `None` when the date string does not
      parse (an invalid `Date`, whose month is `NaN`); `earnings` is `None` when the
      row has none. */
  datatype AttendanceLog = AttendanceLog(
    empId: string, date: Option<LocalDate>, location: string, status: string, earnings: Option<int>)

  /** A cash movement to an employee; `kind` is the row's `type` column. */
  datatype TransactionLog = TransactionLog(
    empId: string, date: Option<LocalDate>, kind: string, amount: Option<int>)

  datatype PayrollStat = PayrollStat(
    id: string, name: string, totalEarnings: int, totalPaid: int, balance: int)

  /** `log.earnings || 0` */
  function EarningsOf(log: AttendanceLog): int
  {
    match log.earnings
    case Some(v) => v
    case None => 0
  }

  /** `log.amount || 0` */
  function AmountOf(t: TransactionLog): int
  {
    match t.amount
    case Some(v) => v
    case None => 0
  }

  /** `String(log.emp_id) === String(id)`, ids already being strings. */
  function IsLogOf(id: string): AttendanceLog -> bool
  {
    (log: AttendanceLog) => log.empId == id
  }

  function IsTransactionOf(id: string): TransactionLog -> bool
  {
    (t: TransactionLog) => t.empId == id
  }

  /** Sum of the earnings of the attendance logs of employee `id`. */
  function EarnedBy(logs: seq<AttendanceLog>, id: string): (e: int)
    ensures (forall log :: log in logs ==> log.empId != id) ==> e == 0
    ensures (forall log :: log in logs ==> log.empId == id) ==> e == Sum(logs, EarningsOf)
  {
    assert (forall log :: log in logs ==> log.empId != id) ==> Filter(logs, IsLogOf(id)) == [] by {
      if forall log :: log in logs ==> log.empId != id {
        FilterNone(logs, IsLogOf(id));
      }
    }
    assert (forall log :: log in logs ==> log.empId == id) ==> Filter(logs, IsLogOf(id)) == logs by {
      if forall log :: log in logs ==> log.empId == id {
        FilterAll(logs, IsLogOf(id));
      }
    }
    Sum(Filter(logs, IsLogOf(id)), EarningsOf)
  }

  /** Sum of the amounts of all transactions of employee `id`, of every type. */
  function PaidTo(txs: seq<TransactionLog>, id: string): (paid: int)
    ensures (forall t :: t in txs ==> t.empId != id) ==> paid == 0
    ensures (forall t :: t in txs ==> t.empId == id) ==> paid == Sum(txs, AmountOf)
  {
    assert (forall t :: t in txs ==> t.empId != id) ==> Filter(txs, IsTransactionOf(id)) == [] by {
      if forall t :: t in txs ==> t.empId != id {
        FilterNone(txs, IsTransactionOf(id));
      }
    }
    assert (forall t :: t in txs ==> t.empId == id) ==> Filter(txs, IsTransactionOf(id)) == txs by {
      if forall t :: t in txs ==> t.empId == id {
        FilterAll(txs, IsTransactionOf(id));
      }
    }
    Sum(Filter(txs, IsTransactionOf(id)), AmountOf)
  }

  function StatFor(e: Employee, logs: seq<AttendanceLog>, txs: seq<TransactionLog>): PayrollStat
  {
    var earned := EarnedBy(logs, e.id);
    var paid := PaidTo(txs, e.id);
    PayrollStat(e.id, e.name, earned, paid, earned - paid)
  }

  /** `payrollStats`: one entry per employee, in employee order. */
  function PayrollStats(employees: seq<Employee>, logs: seq<AttendanceLog>, txs: seq<TransactionLog>)
    : (stats: seq<PayrollStat>)
    ensures |stats| == |employees|
    ensures forall i :: 0 <= i < |employees| ==>
              && stats[i].id == employees[i].id
              && stats[i].name == employees[i].name
              && stats[i].totalEarnings == EarnedBy(logs, employees[i].id)
              && stats[i].totalPaid == PaidTo(txs, employees[i].id)
              && stats[i].balance == stats[i].totalEarnings - stats[i].totalPaid
  {
    if employees == [] then []
    else [StatFor(employees[0], logs, txs)] + PayrollStats(employees[1..], logs, txs)
  }

  function BalanceOf(s: PayrollStat): int { s.balance }
  function PaidOf(s: PayrollStat): int { s.totalPaid }
  function EarningsTotalOf(s: PayrollStat): int { s.totalEarnings }

  /** `totalDue`: the sum of all balances. */
  function TotalDue(stats: seq<PayrollStat>): int
  {
    Sum(stats, BalanceOf)
  }

  /** `totalPaid`: the sum of all `total_paid` values. */
  function TotalPaid(stats: seq<PayrollStat>): int
  {
    Sum(stats, PaidOf)
  }

  /** The two reductions of the dashboard, as the accumulator loops they are. */
  method ComputeGlobalTotals(stats: seq<PayrollStat>) returns (totalDue: int, totalPaid: int)
    ensures totalDue == TotalDue(stats)
    ensures totalPaid == TotalPaid(stats)
  {
    totalDue, totalPaid := 0, 0;
    for i := 0 to |stats|
      invariant totalDue == TotalDue(stats[..i])
      invariant totalPaid == TotalPaid(stats[..i])
    {
      assert stats[..i + 1] == stats[..i] + [stats[i]];
      SumConcat(stats[..i], [stats[i]], BalanceOf);
      SumConcat(stats[..i], [stats[i]], PaidOf);
      totalDue := totalDue + stats[i].balance;
      totalPaid := totalPaid + stats[i].totalPaid;
    }
    assert stats[..|stats|] == stats;
  }

  /** Adding one attendance log changes only its own employee's earnings, by its
      earnings. */
  lemma EarnedByInsert(before: seq<AttendanceLog>, log: AttendanceLog, after: seq<AttendanceLog>, id: string)
    ensures EarnedBy(before + [log] + after, id)
         == EarnedBy(before + after, id) + (if log.empId == id then EarningsOf(log) else 0)
  {
    FilterInsert(before, log, after, IsLogOf(id), EarningsOf);
  }

  /** Adding one transaction adds its amount to its own employee's total, whatever
      its type and date. */
  lemma PaidToInsert(before: seq<TransactionLog>, t: TransactionLog, after: seq<TransactionLog>, id: string)
    ensures PaidTo(before + [t] + after, id)
         == PaidTo(before + after, id) + (if t.empId == id then AmountOf(t) else 0)
  {
    FilterInsert(before, t, after, IsTransactionOf(id), AmountOf);
  }

  /** The ids of the employees, in order. */
  function Ids(employees: seq<Employee>): (ids: seq<string>)
    ensures |ids| == |employees|
    ensures forall i :: 0 <= i < |employees| ==> ids[i] == employees[i].id
  {
    seq(|employees|, i requires 0 <= i < |employees| => employees[i].id)
  }

  /** An attendance log whose employee id matches no employee changes no statistic. */
  lemma UnmatchedLogIgnored(
    employees: seq<Employee>, before: seq<AttendanceLog>, log: AttendanceLog,
    after: seq<AttendanceLog>, txs: seq<TransactionLog>)
    requires log.empId !in Ids(employees)
    ensures PayrollStats(employees, before + [log] + after, txs) == PayrollStats(employees, before + after, txs)
  {
    var s1, s2 := PayrollStats(employees, before + [log] + after, txs), PayrollStats(employees, before + after, txs);
    forall i | 0 <= i < |employees|
      ensures s1[i] == s2[i]
    {
      EarnedByInsert(before, log, after, employees[i].id);
    }
  }

  /** A transaction whose employee id matches no employee changes no statistic. */
  lemma UnmatchedTransactionIgnored(
    employees: seq<Employee>, logs: seq<AttendanceLog>, before: seq<TransactionLog>,
    t: TransactionLog, after: seq<TransactionLog>)
    requires t.empId !in Ids(employees)
    ensures PayrollStats(employees, logs, before + [t] + after) == PayrollStats(employees, logs, before + after)
  {
    var s1, s2 := PayrollStats(employees, logs, before + [t] + after), PayrollStats(employees, logs, before + after);
    forall i | 0 <= i < |employees|
      ensures s1[i] == s2[i]
    {
      PaidToInsert(before, t, after, employees[i].id);
    }
  }

  /** An employee without any log of either kind gets zero earnings, zero paid and
      a zero balance. */
  lemma NoLogsNoPay(employees: seq<Employee>, logs: seq<AttendanceLog>, txs: seq<TransactionLog>, i: nat)
    requires i < |employees|
    requires forall log :: log in logs ==> log.empId != employees[i].id
    requires forall t :: t in txs ==> t.empId != employees[i].id
    ensures PayrollStats(employees, logs, txs)[i]
         == PayrollStat(employees[i].id, employees[i].name, 0, 0, 0)
  {
    FilterNone(logs, IsLogOf(employees[i].id));
    FilterNone(txs, IsTransactionOf(employees[i].id));
  }

  /** Each balance is earnings minus paid, so the sum of the balances is the sum of
      the earnings minus the sum paid. */
  lemma {:induction false} TotalDueSplits(stats: seq<PayrollStat>)
    requires forall s :: s in stats ==> s.balance == s.totalEarnings - s.totalPaid
    ensures TotalDue(stats) == Sum(stats, EarningsTotalOf) - TotalPaid(stats)
  {
    if stats != [] {
      TotalDueSplits(stats[1..]);
    }
  }

  predicate DistinctIds(employees: seq<Employee>)
  {
    forall i, j :: 0 <= i < j < |employees| ==> employees[i].id != employees[j].id
  }

  function IsLogOfAny(ids: seq<string>): AttendanceLog -> bool
  {
    (log: AttendanceLog) => log.empId in ids
  }

  function IsTransactionOfAny(ids: seq<string>): TransactionLog -> bool
  {
    (t: TransactionLog) => t.empId in ids
  }

  /** The first employee's id, the ids of the others, and no overlap between them. */
  lemma IdsSplit(employees: seq<Employee>)
    requires employees != [] && DistinctIds(employees)
    ensures Ids(employees) == [employees[0].id] + Ids(employees[1..])
    ensures employees[0].id !in Ids(employees[1..])
    ensures DistinctIds(employees[1..])
  {
    var rest := employees[1..];
    forall k | 0 <= k < |rest|
      ensures Ids(rest)[k] != employees[0].id
    {
      assert rest[k] == employees[k + 1];
    }
  }

  lemma {:induction false} EarningsPartition(
    employees: seq<Employee>, logs: seq<AttendanceLog>, txs: seq<TransactionLog>)
    requires DistinctIds(employees)
    ensures Sum(PayrollStats(employees, logs, txs), EarningsTotalOf)
         == Sum(Filter(logs, IsLogOfAny(Ids(employees))), EarningsOf)
  {
    if employees == [] {
      FilterNone(logs, IsLogOfAny(Ids(employees)));
    } else {
      var e, rest := employees[0], employees[1..];
      IdsSplit(employees);
      EarningsPartition(rest, logs, txs);
      assert PayrollStats(employees, logs, txs)[1..] == PayrollStats(rest, logs, txs);
      SumFilterSplit(logs, IsLogOf(e.id), IsLogOfAny(Ids(rest)), IsLogOfAny(Ids(employees)), EarningsOf);
    }
  }

  lemma {:induction false} PaidPartition(
    employees: seq<Employee>, logs: seq<AttendanceLog>, txs: seq<TransactionLog>)
    requires DistinctIds(employees)
    ensures TotalPaid(PayrollStats(employees, logs, txs))
         == Sum(Filter(txs, IsTransactionOfAny(Ids(employees))), AmountOf)
  {
    if employees == [] {
      FilterNone(txs, IsTransactionOfAny(Ids(employees)));
    } else {
      var e, rest := employees[0], employees[1..];
      IdsSplit(employees);
      PaidPartition(rest, logs, txs);
      assert PayrollStats(employees, logs, txs)[1..] == PayrollStats(rest, logs, txs);
      SumFilterSplit(txs, IsTransactionOf(e.id), IsTransactionOfAny(Ids(rest)),
                     IsTransactionOfAny(Ids(employees)), AmountOf);
    }
  }

  /** With distinct employee ids the per-employee totals partition the logs that
      belong to some employee: the earnings column adds up to the earnings of those
      logs and the `totalPaid` figure to the amounts of those transactions, so
      `totalDue` is matched earnings minus `totalPaid`. */
  lemma GlobalTotalsPartition(
    employees: seq<Employee>, logs: seq<AttendanceLog>, txs: seq<TransactionLog>)
    requires DistinctIds(employees)
    ensures TotalPaid(PayrollStats(employees, logs, txs))
         == Sum(Filter(txs, IsTransactionOfAny(Ids(employees))), AmountOf)
    ensures TotalDue(PayrollStats(employees, logs, txs))
         == Sum(Filter(logs, IsLogOfAny(Ids(employees))), EarningsOf)
            - TotalPaid(PayrollStats(employees, logs, txs))
  {
    EarningsPartition(employees, logs, txs);
    PaidPartition(employees, logs, txs);
    TotalDueSplits(PayrollStats(employees, logs, txs));
  }

  /** The monthly detail of the selected employee. */
  datatype MonthlyStats = MonthlyStats(totalEarned: int, totalAdvance: int, logs: seq<AttendanceLog>)

  /** A log of employee `id` whose date falls in `month` of any year. */
  function InMonth(id: string, month: int): AttendanceLog -> bool
  {
    (log: AttendanceLog) => log.empId == id && log.date.Some? && log.date.value.month == month
  }

  /** `empStats`: nothing while no employee is selected; otherwise that employee's
      attendance logs of the chosen month, their earnings, and the sum of ALL of the
      employee's transactions (neither month nor type is checked). */
  function EmployeeMonth(selectedEmp: string, month: int, logs: seq<AttendanceLog>, txs: seq<TransactionLog>)
    : (r: Option<MonthlyStats>)
    ensures r.None? <==> selectedEmp == ""
    ensures r.Some? ==>
              && (forall log :: log in r.value.logs <==>
                    log in logs && log.empId == selectedEmp && log.date.Some? && log.date.value.month == month)
              && IsSubsequence(r.value.logs, logs)
              && r.value.totalEarned == Sum(r.value.logs, EarningsOf)
              && r.value.totalAdvance == PaidTo(txs, selectedEmp)
    ensures r.Some? ==>
              forall log :: multiset(r.value.logs)[log]
                         == if InMonth(selectedEmp, month)(log) then multiset(logs)[log] else 0
  {
    if selectedEmp == "" then None
    else
      var monthly := Filter(logs, InMonth(selectedEmp, month));
      Some(MonthlyStats(Sum(monthly, EarningsOf), PaidTo(txs, selectedEmp), monthly))
  }

  /** The "Net Payable" card. */
  function NetPayable(m: MonthlyStats): int
  {
    m.totalEarned - m.totalAdvance
  }

  /** When every attendance log of the employee falls in the chosen month, the
      "Net Payable" card shows the employee's balance from the payroll table. */
  lemma NetPayableIsBalanceForOneMonth(
    employees: seq<Employee>, logs: seq<AttendanceLog>, txs: seq<TransactionLog>, i: nat, month: int)
    requires i < |employees| && employees[i].id != ""
    requires forall log :: log in logs && log.empId == employees[i].id ==>
               log.date.Some? && log.date.value.month == month
    ensures EmployeeMonth(employees[i].id, month, logs, txs).Some?
    ensures NetPayable(EmployeeMonth(employees[i].id, month, logs, txs).value)
         == PayrollStats(employees, logs, txs)[i].balance
  {
    FilterExt(logs, InMonth(employees[i].id, month), IsLogOf(employees[i].id));
  }

  /** The monthly "Advances Taken" figure is the employee's lifetime `total_paid`
      from the payroll table, whatever month is chosen; so "Net Payable" is the
      month's earnings minus everything ever paid. */
  lemma MonthlyAdvanceIsLifetimePaid(
    employees: seq<Employee>, logs: seq<AttendanceLog>, txs: seq<TransactionLog>, i: nat, month: int)
    requires i < |employees| && employees[i].id != ""
    ensures EmployeeMonth(employees[i].id, month, logs, txs).Some?
    ensures EmployeeMonth(employees[i].id, month, logs, txs).value.totalAdvance
         == PayrollStats(employees, logs, txs)[i].totalPaid
    ensures NetPayable(EmployeeMonth(employees[i].id, month, logs, txs).value)
         == EmployeeMonth(employees[i].id, month, logs, txs).value.totalEarned
            - PayrollStats(employees, logs, txs)[i].totalPaid
  {
  }

  /** A worked case: earnings of 500 and 300 in March, an advance of 200 and a
      bonus of 100. The bonus counts towards `total_paid` (300, balance 500) and
      towards the monthly "Advances Taken" figure alike, which is therefore 300,
      not the 200 of the advance alone. */
  lemma BonusCountsAsAdvance()
    ensures var march := Some(LocalDate(2024, 2, 1));
            var emps := [Employee("1", "Ravi", "Site A", "Mason")];
            var logs := [AttendanceLog("1", march, "Site A", "Present", Some(500)),
                         AttendanceLog("1", march, "Site A", "Present", Some(300))];
            var txs := [TransactionLog("1", march, "Advance", Some(200)),
                        TransactionLog("1", march, "Bonus", Some(100))];
            && PayrollStats(emps, logs, txs) == [PayrollStat("1", "Ravi", 800, 300, 500)]
            && EmployeeMonth("1", 2, logs, txs).value.totalAdvance == 300
            && NetPayable(EmployeeMonth("1", 2, logs, txs).value) == 500
  {
    var march := Some(LocalDate(2024, 2, 1));
    var emps := [Employee("1", "Ravi", "Site A", "Mason")];
    var logs := [AttendanceLog("1", march, "Site A", "Present", Some(500)),
                 AttendanceLog("1", march, "Site A", "Present", Some(300))];
    var txs := [TransactionLog("1", march, "Advance", Some(200)),
                TransactionLog("1", march, "Bonus", Some(100))];
    FilterAll(logs, IsLogOf("1"));
    FilterAll(txs, IsTransactionOf("1"));
    FilterAll(logs, InMonth("1", 2));
    assert logs[1..][1..] == [] && txs[1..][1..] == [];
    assert Sum(logs[1..], EarningsOf) == 300;
    assert Sum(txs[1..], AmountOf) == 100;
    assert EarnedBy(logs, "1") == 800;
    assert PaidTo(txs, "1") == 300;
  }

  /** A log of employee `id` dated in a month before `k`. */
  function DatedBefore(id: string, k: int): AttendanceLog -> bool
  {
    (log: AttendanceLog) => log.empId == id && log.date.Some? && log.date.value.month < k
  }

  /** A log of employee `id` with a valid date. */
  function IsDatedLogOf(id: string): AttendanceLog -> bool
  {
    (log: AttendanceLog) => log.empId == id && log.date.Some?
  }

  /** The monthly earnings of months `0 .. k-1`, added up. */
  function EarnedInMonths(logs: seq<AttendanceLog>, id: string, k: nat): int
  {
    if k == 0 then 0
    else EarnedInMonths(logs, id, k - 1) + Sum(Filter(logs, InMonth(id, k - 1)), EarningsOf)
  }

  lemma {:induction false} EarnedInMonthsBefore(logs: seq<AttendanceLog>, id: string, k: nat)
    ensures EarnedInMonths(logs, id, k) == Sum(Filter(logs, DatedBefore(id, k)), EarningsOf)
  {
    if k == 0 {
      FilterNone(logs, DatedBefore(id, 0));
    } else {
      EarnedInMonthsBefore(logs, id, k - 1);
      SumFilterSplit(logs, DatedBefore(id, k - 1), InMonth(id, k - 1), DatedBefore(id, k), EarningsOf);
    }
  }

  /** The twelve monthly earnings figures of an employee add up to the earnings of
      all their logs with a valid date; when every one of their logs has one, to
      their `total_earnings`. */
  lemma MonthsPartitionEarnings(logs: seq<AttendanceLog>, txs: seq<TransactionLog>, id: string)
    requires id != ""
    ensures EarnedInMonths(logs, id, 12) == Sum(Filter(logs, IsDatedLogOf(id)), EarningsOf)
    ensures (forall log :: log in logs && log.empId == id ==> log.date.Some?) ==>
              EarnedInMonths(logs, id, 12) == EarnedBy(logs, id)
    ensures forall m :: 0 <= m < 12 ==>
              EmployeeMonth(id, m, logs, txs).value.totalEarned == Sum(Filter(logs, InMonth(id, m)), EarningsOf)
  {
    EarnedInMonthsBefore(logs, id, 12);
    FilterExt(logs, DatedBefore(id, 12), IsDatedLogOf(id));
    if forall log :: log in logs && log.empId == id ==> log.date.Some? {
      FilterExt(logs, IsDatedLogOf(id), IsLogOf(id));
    }
  }

  /** The month filter ignores the year: moving one log to another year changes no
      monthly figure. */
  lemma YearIgnored(
    selectedEmp: string, month: int, before: seq<AttendanceLog>, log: AttendanceLog,
    after: seq<AttendanceLog>, txs: seq<TransactionLog>, year: int)
    requires selectedEmp != "" && log.date.Some?
    ensures var moved := log.(date := Some(log.date.value.(year := year)));
            var r1 := EmployeeMonth(selectedEmp, month, before + [log] + after, txs).value;
            var r2 := EmployeeMonth(selectedEmp, month, before + [moved] + after, txs).value;
            r1.totalEarned == r2.totalEarned && |r1.logs| == |r2.logs| && r1.totalAdvance == r2.totalAdvance
  {
    var moved := log.(date := Some(log.date.value.(year := year)));
    var p := InMonth(selectedEmp, month);
    assert p(log) == p(moved);
    FilterInsert(before, log, after, p, EarningsOf);
    FilterInsert(before, moved, after, p, EarningsOf);
  }

  /** The site filter of the detail view: `'All'` or exactly the given site. */
  function AtSite(siteFilter: string): Employee -> bool
  {
    (e: Employee) => siteFilter == "All" || e.currentSite == siteFilter
  }

  /** `filteredEmployees` of the detail view. */
  function SiteFilter(employees: seq<Employee>, siteFilter: string): (r: seq<Employee>)
    ensures siteFilter == "All" ==> r == employees
    ensures forall e :: e in r <==> e in employees && (siteFilter == "All" || e.currentSite == siteFilter)
    ensures forall e :: multiset(r)[e] == if AtSite(siteFilter)(e) then multiset(employees)[e] else 0
    ensures IsSubsequence(r, employees)
  {
    assert siteFilter == "All" ==> Filter(employees, AtSite(siteFilter)) == employees by {
      if siteFilter == "All" {
        FilterAll(employees, AtSite(siteFilter));
      }
    }
    Filter(employees, AtSite(siteFilter))
  }

  /** The text search of the attendance form: the name, or a non-empty site,
      contains the query, both lower-cased. */
  function MatchesSearch(searchQuery: string): Employee -> bool
  {
    (e: Employee) => || Contains(ToLower(e.name), ToLower(searchQuery))
         || (e.currentSite != "" && Contains(ToLower(e.currentSite), ToLower(searchQuery)))
  }

  function AtSiteAndMatches(siteFilter: string, searchQuery: string): Employee -> bool
  {
    (e: Employee) => AtSite(siteFilter)(e) && MatchesSearch(searchQuery)(e)
  }

  /** `filteredEmployees` of the attendance form. */
  function FormFilter(employees: seq<Employee>, siteFilter: string, searchQuery: string): (r: seq<Employee>)
    ensures forall e :: e in r <==>
              && e in employees
              && (siteFilter == "All" || e.currentSite == siteFilter)
              && (|| Contains(ToLower(e.name), ToLower(searchQuery))
                  || (e.currentSite != "" && Contains(ToLower(e.currentSite), ToLower(searchQuery))))
    ensures forall e :: multiset(r)[e] == if AtSiteAndMatches(siteFilter, searchQuery)(e) then multiset(employees)[e] else 0
    ensures IsSubsequence(r, SiteFilter(employees, siteFilter))
  {
    FilterFilter(employees, AtSite(siteFilter), MatchesSearch(searchQuery), AtSiteAndMatches(siteFilter, searchQuery));
    Filter(employees, AtSiteAndMatches(siteFilter, searchQuery))
  }

  /** With an empty search box the form lists exactly the site matches. */
  lemma EmptySearchKeepsSiteMatches(employees: seq<Employee>, siteFilter: string)
    ensures FormFilter(employees, siteFilter, "") == SiteFilter(employees, siteFilter)
  {
    forall e: Employee
      ensures AtSiteAndMatches(siteFilter, "")(e) == AtSite(siteFilter)(e)
    {
      ContainsEmpty(ToLower(e.name));
    }
    FilterExt(employees, AtSiteAndMatches(siteFilter, ""), AtSite(siteFilter));
  }

  /** `e.current_site || 'Unassigned'` */
  function SiteLabel(e: Employee): string
  {
    if e.currentSite == "" then "Unassigned" else e.currentSite
  }

  function SiteLabels(employees: seq<Employee>): (labels: seq<string>)
    ensures |labels| == |employees|
    ensures forall i :: 0 <= i < |employees| ==> labels[i] == SiteLabel(employees[i])
  {
    seq(|employees|, i requires 0 <= i < |employees| => SiteLabel(employees[i]))
  }

  /** `uniqueSites` of the detail view: `'All'` followed by each site label once,
      in the order of first appearance among the employees. */
  function DetailSiteOptions(employees: seq<Employee>): (r: seq<string>)
    ensures |r| >= 1 && r[0] == "All"
    ensures forall s :: s in r[1..] <==> s in SiteLabels(employees)
    ensures Distinct(r[1..])
    ensures forall i, j :: 1 <= i < j < |r| ==>
              FirstIndex(SiteLabels(employees), r[i]) < FirstIndex(SiteLabels(employees), r[j])
  {
    var sites := Dedup(SiteLabels(employees));
    assert (["All"] + sites)[1..] == sites;
    ["All"] + sites
  }

  /** `uniqueSites` of the attendance form, with its early return for no employees. */
  function FormSiteOptions(employees: seq<Employee>): (r: seq<string>)
    ensures r == DetailSiteOptions(employees)
  {
    if |employees| == 0 then ["All"]
    else ["All"] + Dedup(SiteLabels(employees))
  }

  /** The `'Unassigned'` option lists the employees without a site, but choosing it
      keeps only employees whose site is literally `'Unassigned'`. */
  lemma UnassignedOptionSkipsUnsited(employees: seq<Employee>)
    ensures forall e :: e in employees && e.currentSite == "" ==> "Unassigned" in DetailSiteOptions(employees)[1..]
    ensures forall e :: e in SiteFilter(employees, "Unassigned") ==> e.currentSite != ""
  {
    forall e | e in employees && e.currentSite == ""
      ensures "Unassigned" in SiteLabels(employees)
    {
      var i :| 0 <= i < |employees| && employees[i] == e;
      assert SiteLabels(employees)[i] == "Unassigned";
    }
  }
}
