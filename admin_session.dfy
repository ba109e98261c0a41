/** The state of the admin page: the login flag and error message, the three
    record lists loaded from the back end, the memoised payroll table computed from
    them, and the selections of the employee detail view. The requests themselves
    are not modelled: each handler receives the outcome of its request. */
module AdminSession {
  import opened Wrappers
  import opened Payroll

  const InvalidPassword: string := "Invalid Password"
  const ConnectionFailed: string := "Connection Failed"

  class AdminPortal {
    var isAdmin: bool
    var error: string
    var employees: seq<Employee>
    var attendanceLogs: seq<AttendanceLog>
    var transactionLogs: seq<TransactionLog>
    /** The `useMemo` value: recomputed whenever one of the three lists changes. */
    var payrollStats: seq<PayrollStat>

    /** The memoised table is the table of the current lists. */
    predicate Valid()
      reads this
    {
      payrollStats == PayrollStats(employees, attendanceLogs, transactionLogs)
    }

    constructor ()
      ensures Valid()
      ensures !isAdmin && error == ""
      ensures employees == [] && attendanceLogs == [] && transactionLogs == []
      ensures payrollStats == []
    {
      isAdmin := false;
      error := "";
      employees := [];
      attendanceLogs := [];
      transactionLogs := [];
      payrollStats := [];
    }

    /** The login request answered: a `success` status opens the console (the data
        request it starts answers through `DataResponse`); any other status sets
        the "Invalid Password" message. An earlier message is not cleared. */
    method LoginResponse(success: bool)
      requires Valid()
      modifies this
      ensures Valid()
      ensures isAdmin == (old(isAdmin) || success)
      ensures error == if success then old(error) else InvalidPassword
      ensures employees == old(employees) && attendanceLogs == old(attendanceLogs)
      ensures transactionLogs == old(transactionLogs) && payrollStats == old(payrollStats)
    {
      if success {
        isAdmin := true;
      } else {
        error := InvalidPassword;
      }
    }

    /** The login request failed to complete. */
    method LoginConnectionFailed()
      requires Valid()
      modifies this
      ensures Valid()
      ensures error == ConnectionFailed && isAdmin == old(isAdmin)
      ensures employees == old(employees) && attendanceLogs == old(attendanceLogs)
      ensures transactionLogs == old(transactionLogs) && payrollStats == old(payrollStats)
    {
      error := ConnectionFailed;
    }

    /** The data request answered: on `success` the three lists are replaced and
        the payroll table recomputed; otherwise nothing changes. */
    method DataResponse(success: bool, emps: seq<Employee>, logs: seq<AttendanceLog>, txs: seq<TransactionLog>)
      requires Valid()
      modifies this
      ensures Valid()
      ensures isAdmin == old(isAdmin) && error == old(error)
      ensures if success then employees == emps && attendanceLogs == logs && transactionLogs == txs
              else employees == old(employees) && attendanceLogs == old(attendanceLogs)
                   && transactionLogs == old(transactionLogs) && payrollStats == old(payrollStats)
    {
      if !success {
        return;
      }
      employees, attendanceLogs, transactionLogs := emps, logs, txs;
      payrollStats := PayrollStats(emps, logs, txs);
    }

    /** LOGOUT: back to the login form; the loaded data stays in memory. */
    method Logout()
      requires Valid()
      modifies this
      ensures Valid()
      ensures !isAdmin && error == old(error)
      ensures employees == old(employees) && attendanceLogs == old(attendanceLogs)
      ensures transactionLogs == old(transactionLogs) && payrollStats == old(payrollStats)
    {
      isAdmin := false;
    }

    /** The quick-stats cards: active staff, total due and total paid. With
        distinct employee ids the total paid is the amount of every transaction
        that belongs to some employee, and the total due is the earnings of every
        log that belongs to some employee minus that. */
    method QuickStats() returns (activeStaff: nat, totalDue: int, totalPaid: int)
      requires Valid()
      ensures activeStaff == |employees|
      ensures totalDue == TotalDue(payrollStats) && totalPaid == TotalPaid(payrollStats)
      ensures DistinctIds(employees) ==>
                totalPaid == Seqs.Sum(Seqs.Filter(transactionLogs, IsTransactionOfAny(Ids(employees))), AmountOf)
      ensures DistinctIds(employees) ==>
                totalDue == Seqs.Sum(Seqs.Filter(attendanceLogs, IsLogOfAny(Ids(employees))), EarningsOf) - totalPaid
    {
      activeStaff := |employees|;
      totalDue, totalPaid := ComputeGlobalTotals(payrollStats);
      if DistinctIds(employees) {
        GlobalTotalsPartition(employees, attendanceLogs, transactionLogs);
      }
    }
  }

  /** The selections of the employee detail view. */
  class EmployeeDetailView {
    /** The chosen employee id; the empty string while none is chosen. */
    var selectedEmp: string
    var siteFilter: string
    var monthFilter: Month

    /** The view opens on every site, no employee, and the current month, which
        the caller reads from the clock. */
    constructor (currentMonth: Month)
      ensures selectedEmp == "" && siteFilter == "All" && monthFilter == currentMonth
    {
      selectedEmp := "";
      siteFilter := "All";
      monthFilter := currentMonth;
    }

    method SelectEmployee(id: string)
      modifies this
      ensures selectedEmp == id && siteFilter == old(siteFilter) && monthFilter == old(monthFilter)
    {
      selectedEmp := id;
    }

    method SelectSite(site: string)
      modifies this
      ensures siteFilter == site && selectedEmp == old(selectedEmp) && monthFilter == old(monthFilter)
    {
      siteFilter := site;
    }

    method SelectMonth(month: Month)
      modifies this
      ensures monthFilter == month && selectedEmp == old(selectedEmp) && siteFilter == old(siteFilter)
    {
      monthFilter := month;
    }

    /** The employees the view lists for the current site filter. */
    function Listed(employees: seq<Employee>): (r: seq<Employee>)
      reads this
      ensures r == SiteFilter(employees, siteFilter)
      ensures forall e :: e in r <==> e in employees && (siteFilter == "All" || e.currentSite == siteFilter)
    {
      SiteFilter(employees, siteFilter)
    }

    /** `empStats` for the current selections. */
    function Stats(logs: seq<AttendanceLog>, txs: seq<TransactionLog>): (r: Option<MonthlyStats>)
      reads this
      ensures r == EmployeeMonth(selectedEmp, monthFilter, logs, txs)
      ensures r.None? <==> selectedEmp == ""
      ensures r.Some? ==> r.value.totalAdvance == PaidTo(txs, selectedEmp)
    {
      EmployeeMonth(selectedEmp, monthFilter, logs, txs)
    }
  }
}
