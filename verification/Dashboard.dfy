/** The dashboard's finance figures and page totals, over an unbounded window.

    Each figure sums its kind of row in its own way: some take positive amounts only, some
    absolute values, one the raw amounts. */
module Dashboard {
  import opened Wrappers
  import opened Records
  import opened Totals
  import opened Money
  import opened Operations
  import Replay
  import CreditFloor

  // ---------- Finance ----------

  /** One group of the finance query: positive, absolute and raw sums. */
  datatype FinanceRow = FinanceRow(positive: int, absolute: int, raw: int)

  /** `rows` is what grouping the ledger by kind gives; kinds without a row have no group. */
  ghost predicate IsGroupedByKind(rows: map<Kind, FinanceRow>, log: seq<Tx>) {
    && (forall k: Kind :: k in rows <==> exists i :: 0 <= i < |log| && log[i].kind == k)
    && (forall k | k in rows ::
          rows[k] == FinanceRow(Total(log, Positive(k)), Total(log, Absolute(k)), Total(log, Raw(k))))
  }

  datatype Finance = Finance(recharged: int, spentOnPrint: int, refunded: int, adjustments: int,
                             expenses: int, productPurchases: int)

  function Group(rows: map<Kind, FinanceRow>, kind: Kind): FinanceRow {
    if kind in rows then rows[kind] else FinanceRow(0, 0, 0)
  }

  function Figures(rows: map<Kind, FinanceRow>): Finance {
    Finance(Group(rows, Recharge).positive, Group(rows, Print).absolute, Group(rows, Refund).positive,
            Group(rows, Adjustment).raw, Group(rows, Expense).absolute, Group(rows, ProductPurchase).absolute)
  }

  function SumBalances(accounts: seq<Account>): int {
    if accounts == [] then 0 else SumBalances(accounts[..|accounts| - 1]) + accounts[|accounts| - 1].balance
  }

  /** The balance total that the other figures imply. */
  function Implied(f: Finance): int {
    f.recharged - f.spentOnPrint + f.refunded + f.adjustments - f.productPurchases
  }

  ghost predicate Reconciles(s: State, rows: map<Kind, FinanceRow>) {
    SumBalances(s.accounts) == Implied(Figures(rows))
  }

  lemma {:induction false} KindAbsent(log: seq<Tx>, kind: Kind)
    requires forall i | 0 <= i < |log| :: log[i].kind != kind
    ensures Total(log, Positive(kind)) == Total(log, Absolute(kind)) == Total(log, Raw(kind)) == 0
  {
    if log != [] {
      KindAbsent(log[..|log| - 1], kind);
    }
  }

  lemma GroupIsTotal(rows: map<Kind, FinanceRow>, log: seq<Tx>, kind: Kind)
    requires IsGroupedByKind(rows, log)
    ensures Group(rows, kind)
            == FinanceRow(Total(log, Positive(kind)), Total(log, Absolute(kind)), Total(log, Raw(kind)))
  {
    if kind !in rows {
      KindAbsent(log, kind);
    }
  }

  /** The ledger's own figures; the finance query computes exactly these. */
  function LedgerFigures(log: seq<Tx>): Finance {
    Finance(Total(log, Positive(Recharge)), Total(log, Absolute(Print)), Total(log, Positive(Refund)),
            Total(log, Raw(Adjustment)), Total(log, Absolute(Expense)), Total(log, Absolute(ProductPurchase)))
  }

  lemma FiguresAreTotals(rows: map<Kind, FinanceRow>, log: seq<Tx>)
    requires IsGroupedByKind(rows, log)
    ensures Figures(rows) == LedgerFigures(log)
  {
    GroupIsTotal(rows, log, Recharge);
    GroupIsTotal(rows, log, Print);
    GroupIsTotal(rows, log, Refund);
    GroupIsTotal(rows, log, Adjustment);
    GroupIsTotal(rows, log, Expense);
    GroupIsTotal(rows, log, ProductPurchase);
  }

  lemma RowIsMoneyLessMisfit(row: Tx)
    ensures Part(row, Positive(Recharge)) - Part(row, Absolute(Print)) + Part(row, Positive(Refund))
            + Part(row, Raw(Adjustment)) - Part(row, Absolute(ProductPurchase))
            == Part(row, MoneyOfUsers) - Part(row, Misfit)
  {
  }

  /** The six aggregates together sum, row by row, to the users' money less the misfits. */
  lemma {:induction false} ImpliedIsMoneyLessMisfit(log: seq<Tx>)
    ensures Implied(LedgerFigures(log)) == Total(log, MoneyOfUsers) - Total(log, Misfit)
  {
    hide Part;
    if log != [] {
      ImpliedIsMoneyLessMisfit(log[..|log| - 1]);
      RowIsMoneyLessMisfit(log[|log| - 1]);
    }
  }

  // ---------- Summing by user is summing by row ----------

  function SumByUser(log: seq<Tx>, users: nat): int {
    if users == 0 then 0 else SumByUser(log, users - 1) + Total(log, MoneyOfUser(users - 1))
  }

  lemma {:induction false} SumByUserAppend(log: seq<Tx>, row: Tx, users: nat)
    ensures SumByUser(log + [row], users)
            == SumByUser(log, users)
               + if row.user.Some? && row.user.value < users then row.amount else 0
  {
    if users > 0 {
      SumByUserAppend(log, row, users - 1);
      TotalAppend(log, row);
      assert Total(log + [row], MoneyOfUser(users - 1))
          == Total(log, MoneyOfUser(users - 1)) + Part(row, MoneyOfUser(users - 1));
    }
  }

  lemma {:induction false} SumByUserEmpty(users: nat)
    ensures SumByUser([], users) == 0
  {
    if users > 0 {
      SumByUserEmpty(users - 1);
    }
  }

  lemma {:induction false} SumByUserIsSumByRow(log: seq<Tx>, users: nat)
    requires forall i | 0 <= i < |log| && log[i].user.Some? :: log[i].user.value < users
    ensures SumByUser(log, users) == Total(log, MoneyOfUsers)
  {
    if log == [] {
      SumByUserEmpty(users);
    } else {
      var before, row := log[..|log| - 1], log[|log| - 1];
      assert before + [row] == log;
      SumByUserIsSumByRow(before, users);
      SumByUserAppend(before, row, users);
    }
  }

  function SumOpenings(s: State, users: nat): int
    requires users <= |s.accounts|
  {
    if users == 0 then 0 else SumOpenings(s, users - 1) + Replay.Opening(s, users - 1)
  }

  lemma {:induction false} BalancesAreOpeningsAndMoney(s: State, users: nat)
    requires users <= |s.accounts|
    ensures SumBalances(s.accounts[..users]) == SumOpenings(s, users) + SumByUser(s.log, users)
  {
    if users > 0 {
      BalancesAreOpeningsAndMoney(s, users - 1);
      assert s.accounts[..users][..users - 1] == s.accounts[..users - 1];
    }
  }

  lemma {:induction false} NoOpenings(s: State, users: nat)
    requires users <= |s.accounts| && Replay.AllOpenAtZero(s)
    ensures SumOpenings(s, users) == 0
  {
    if users > 0 {
      NoOpenings(s, users - 1);
    }
  }

  // ---------- When the figures reconcile ----------

  /** Exactly expenses name no user, users exist, and a free reprint costs nothing. */
  predicate RowFits(row: Tx, users: nat) {
    && (row.user.None? <==> row.kind.Expense?)
    && (row.user.Some? ==> row.user.value < users)
    && (row.kind.FreeReprint? ==> row.amount == 0)
  }

  /** Prints and purchases take money, refunds give it. */
  predicate RowPriced(row: Tx) {
    && (row.kind.Print? || row.kind.ProductPurchase? ==> row.amount <= 0)
    && (row.kind.Refund? ==> row.amount >= 0)
  }

  ghost predicate RowsInOrder(s: State) {
    && (forall j | 0 <= j < |s.jobs| :: s.jobs[j].user < |s.accounts|)
    && (forall i | 0 <= i < |s.log| :: RowFits(s.log[i], |s.accounts|) && RowPriced(s.log[i]))
  }

  ghost predicate HasNegativeRecharge(log: seq<Tx>) {
    exists i :: 0 <= i < |log| && log[i].kind.Recharge? && log[i].amount < 0
  }

  lemma {:induction false} MisfitIsNegativeRecharges(log: seq<Tx>, users: nat)
    requires forall i | 0 <= i < |log| :: RowFits(log[i], users) && RowPriced(log[i])
    ensures Total(log, Misfit) <= 0
    ensures Total(log, Misfit) < 0 <==> HasNegativeRecharge(log)
  {
    if log != [] {
      var before, row := log[..|log| - 1], log[|log| - 1];
      MisfitIsNegativeRecharges(before, users);
      assert Part(row, Misfit) == if row.kind.Recharge? && row.amount < 0 then row.amount else 0;
      if HasNegativeRecharge(before) {
        var i :| 0 <= i < |before| && before[i].kind.Recharge? && before[i].amount < 0;
        assert log[i] == before[i];
      }
      if HasNegativeRecharge(log) {
        var i :| 0 <= i < |log| && log[i].kind.Recharge? && log[i].amount < 0;
        assert i < |before| ==> before[i] == log[i];
      }
    }
  }

  /** Whatever the ledger holds: how far the balances are from what the figures imply. */
  lemma GapIsMisfit(s: State, rows: map<Kind, FinanceRow>)
    requires IsGroupedByKind(rows, s.log)
    requires forall i | 0 <= i < |s.log| && s.log[i].user.Some? :: s.log[i].user.value < |s.accounts|
    ensures SumBalances(s.accounts) - Implied(Figures(rows))
            == SumOpenings(s, |s.accounts|) + Total(s.log, Misfit)
  {
    hide *;
    FiguresAreTotals(rows, s.log);
    ImpliedIsMoneyLessMisfit(s.log);
    SumByUserIsSumByRow(s.log, |s.accounts|);
    BalancesAreOpeningsAndMoney(s, |s.accounts|);
    assert s.accounts[..|s.accounts|] == s.accounts;
  }

  /** The figures reconcile with the balances exactly when no recharge in the ledger is negative. */
  lemma ReconcilesExactly(s: State, rows: map<Kind, FinanceRow>)
    requires IsGroupedByKind(rows, s.log) && RowsInOrder(s) && Replay.AllOpenAtZero(s)
    ensures Reconciles(s, rows) <==> !HasNegativeRecharge(s.log)
  {
    GapIsMisfit(s, rows);
    NoOpenings(s, |s.accounts|);
    MisfitIsNegativeRecharges(s.log, |s.accounts|);
  }

  // ---------- Over whole runs ----------

  /** No step carries a negative price; direct recharges may have any sign. */
  ghost predicate PricesFair(step: Step) {
    CreditFloor.Priced(step) || step.DirectRecharge? || step.UserEdit?
  }

  lemma StepStaysNonNegative(s: State, step: Step)
    requires CreditFloor.NonNegative(s) && PricesFair(step)
    ensures CreditFloor.NonNegative(Apply(s, step))
  {
    if CreditFloor.Priced(step) {
      CreditFloor.StepStaysNonNegative(s, step);
    }
  }

  lemma SettleKeepsRows(s: State, event: CollectionEvent)
    requires RowsInOrder(s)
    ensures RowsInOrder(Settle(s, event))
  {
  }

  lemma AddedRowKeeps(s: State, t: State, row: Tx)
    requires RowsInOrder(s) && t.log == s.log + [row] && |t.accounts| == |s.accounts|
    requires forall j | 0 <= j < |t.jobs| :: t.jobs[j].user < |s.accounts|
    requires RowFits(row, |s.accounts|) && RowPriced(row)
    ensures RowsInOrder(t)
  {
  }

  lemma SameRowsKeep(s: State, t: State)
    requires RowsInOrder(s) && t.log == s.log && |t.accounts| >= |s.accounts| && t.jobs == s.jobs
    ensures RowsInOrder(t)
  {
  }

  lemma PrintKeepsRows(s: State, step: Step)
    requires RowsInOrder(s) && step.PrintStep? && PricesFair(step)
    ensures RowsInOrder(Apply(s, step))
  {
    var t := Apply(s, step);
    CentsIsMonotone(0.0, step.cost);
    if t != s {
      AddedRowKeeps(s, t, t.log[|s.log|]);
    }
  }

  lemma BuyKeepsRows(s: State, step: Step)
    requires RowsInOrder(s) && CreditFloor.NonNegative(s) && step.Buy?
    ensures RowsInOrder(Apply(s, step))
  {
    var t := Apply(s, step);
    if t != s {
      CreditFloor.BuyStaysNonNegative(s, step);
      var total := t.purchases[|s.purchases|].total;
      assert total >= 0;
      assert t.log[|s.log|].amount == -total;
      AddedRowKeeps(s, t, t.log[|s.log|]);
    }
  }

  lemma PollKeepsRows(s: State, step: Step)
    requires RowsInOrder(s) && CreditFloor.NonNegative(s) && step.Poll?
    ensures RowsInOrder(Apply(s, step))
  {
    var t := Apply(s, step);
    if t.log != s.log {
      AddedRowKeeps(s, t, t.log[|s.log|]);
    }
  }

  /** The refund and purchase decisions: at most one positive row. */
  lemma DecisionKeepsRows(s: State, step: Step)
    requires RowsInOrder(s) && CreditFloor.NonNegative(s)
    requires step.RefundDecision? || step.RefundOverride? || step.PurchaseDecision?
    ensures RowsInOrder(Apply(s, step))
  {
    var t := Apply(s, step);
    if t.log != s.log {
      AddedRowKeeps(s, t, t.log[|s.log|]);
    } else {
      SameRowsKeep(s, t);
    }
  }

  /** The steps whose row, if there is one, may have either sign. */
  lemma OtherRowKeeps(s: State, step: Step)
    requires RowsInOrder(s)
    requires step.Reprint? || step.DirectRecharge? || step.Adjust? || step.RechargeDecision? || step.NewExpense?
    ensures RowsInOrder(Apply(s, step))
  {
    var t := Apply(s, step);
    if t.log != s.log {
      AddedRowKeeps(s, t, t.log[|s.log|]);
    }
  }

  lemma StepKeepsRows(s: State, step: Step)
    requires RowsInOrder(s) && CreditFloor.NonNegative(s) && PricesFair(step)
    ensures RowsInOrder(Apply(s, step))
  {
    if step.CollectStep? {
      SettleKeepsRows(s, CollectionEvent(step.superAdmin, step.admin, Total(s.log, UnsettledBy(step.admin)), FromAdmin));
    } else if step.PayStep? {
      SettleKeepsRows(s, CollectionEvent(step.superAdmin, step.admin, -Total(s.log, UnsettledBy(step.admin)), ToAdmin));
    } else if step.PrintStep? {
      PrintKeepsRows(s, step);
    } else if step.Buy? {
      BuyKeepsRows(s, step);
    } else if step.Poll? {
      PollKeepsRows(s, step);
    } else if step.RefundDecision? || step.RefundOverride? || step.PurchaseDecision? {
      DecisionKeepsRows(s, step);
    } else if step.Reprint? || step.DirectRecharge? || step.Adjust? || step.RechargeDecision? || step.NewExpense? {
      OtherRowKeeps(s, step);
    } else {
      SameRowsKeep(s, Apply(s, step));
    }
  }

  /** Every run with fair prices and no direct balance edit keeps the rows in order. */
  lemma {:induction false} RunKeepsRows(s: State, steps: seq<Step>)
    requires RowsInOrder(s) && CreditFloor.NonNegative(s)
    requires forall i | 0 <= i < |steps| :: PricesFair(steps[i])
    ensures RowsInOrder(Run(s, steps))
    decreases |steps|
  {
    if steps != [] {
      StepKeepsRows(s, steps[0]);
      StepStaysNonNegative(s, steps[0]);
      RunKeepsRows(Apply(s, steps[0]), steps[1..]);
    }
  }

  lemma EmptyIsInOrder()
    ensures RowsInOrder(EMPTY) && CreditFloor.NonNegative(EMPTY) && !HasNegativeRecharge(EMPTY.log)
  {
  }

  /** From an empty database, after any such run, the dashboard reconciles exactly when no
      negative recharge was recorded. */
  lemma RunReconcilesExactly(steps: seq<Step>, rows: map<Kind, FinanceRow>)
    requires forall i | 0 <= i < |steps| :: PricesFair(steps[i])
    requires Replay.AllAccounted(EMPTY, steps)
    requires IsGroupedByKind(rows, Run(EMPTY, steps).log)
    ensures Reconciles(Run(EMPTY, steps), rows) <==> !HasNegativeRecharge(Run(EMPTY, steps).log)
  {
    hide *;
    EmptyIsInOrder();
    Replay.EmptyIsConsistent();
    Replay.BalanceIsSumOfRows(EMPTY, steps);
    RunKeepsRows(EMPTY, steps);
    ReconcilesExactly(Run(EMPTY, steps), rows);
  }

  lemma StepAddsNoNegativeRecharge(s: State, step: Step)
    requires CreditFloor.NonNegative(s) && !HasNegativeRecharge(s.log)
    requires step.DirectRecharge? ==> step.amount >= 0.0
    ensures !HasNegativeRecharge(Apply(s, step).log)
  {
    if step.DirectRecharge? {
      CentsIsMonotone(0.0, step.amount);
    }
    if step.RechargeDecision? && step.request < |s.requests| {
      CentsIsMonotone(0.0, s.requests[step.request].amount);
    }
  }

  /** So with recharges that are not negative it reconciles after every run. */
  lemma {:induction false} RunAddsNoNegativeRecharge(s: State, steps: seq<Step>)
    requires CreditFloor.NonNegative(s) && !HasNegativeRecharge(s.log)
    requires forall i | 0 <= i < |steps| :: PricesFair(steps[i])
    requires forall i | 0 <= i < |steps| && steps[i].DirectRecharge? :: steps[i].amount >= 0.0
    ensures !HasNegativeRecharge(Run(s, steps).log)
    decreases |steps|
  {
    if steps != [] {
      StepAddsNoNegativeRecharge(s, steps[0]);
      StepStaysNonNegative(s, steps[0]);
      RunAddsNoNegativeRecharge(Apply(s, steps[0]), steps[1..]);
    }
  }

  lemma RunReconciles(steps: seq<Step>, rows: map<Kind, FinanceRow>)
    requires forall i | 0 <= i < |steps| :: PricesFair(steps[i])
    requires forall i | 0 <= i < |steps| && steps[i].DirectRecharge? :: steps[i].amount >= 0.0
    requires Replay.AllAccounted(EMPTY, steps)
    requires IsGroupedByKind(rows, Run(EMPTY, steps).log)
    ensures Reconciles(Run(EMPTY, steps), rows)
  {
    hide *;
    EmptyIsInOrder();
    RunAddsNoNegativeRecharge(EMPTY, steps);
    RunReconcilesExactly(steps, rows);
  }

  // ---------- Page totals ----------

  datatype Grouping = ByPrinter | ByUser

  datatype Column = Pages | BwPages | ColorPages | Cost | Jobs

  function KeyOf(job: Job, grouping: Grouping): Id {
    if grouping.ByPrinter? then job.printer else job.user
  }

  /** What one job adds to a column of the page statistics. */
  function Weight(job: Job, column: Column): int {
    match column
    case Pages => job.pages
    case BwPages => if job.color then 0 else job.pages
    case ColorPages => if job.color then job.pages else 0
    case Cost => job.cost
    case Jobs => 1
  }

  /** The column total of the completed jobs that pass the filter of one key, or of all keys. */
  function PageTotal(jobs: seq<Job>, grouping: Grouping, key: Option<Id>, column: Column): int {
    if jobs == [] then 0
    else
      var last := jobs[|jobs| - 1];
      PageTotal(jobs[..|jobs| - 1], grouping, key, column)
      + if last.status.Completed? && (key.None? || key.value == KeyOf(last, grouping)) then Weight(last, column) else 0
  }

  datatype PageRow = PageRow(key: Id, columns: map<Column, int>)

  /** `rows` is what grouping the completed jobs gives, in whatever order: one row for each key
      that a completed job has, holding that key's totals. */
  ghost predicate IsGroupedBy(rows: seq<PageRow>, jobs: seq<Job>, grouping: Grouping) {
    && (forall i, j | 0 <= i < j < |rows| :: rows[i].key != rows[j].key)
    && (forall j | 0 <= j < |jobs| && jobs[j].status.Completed? :: HasKey(rows, KeyOf(jobs[j], grouping)))
    && (forall i, c: Column | 0 <= i < |rows| ::
          c in rows[i].columns && rows[i].columns[c] == PageTotal(jobs, grouping, Some(rows[i].key), c))
  }

  ghost predicate HasKey(rows: seq<PageRow>, key: Id) {
    exists i :: 0 <= i < |rows| && rows[i].key == key
  }

  function SumKeys(rows: seq<PageRow>, jobs: seq<Job>, grouping: Grouping, column: Column): int {
    if rows == [] then 0
    else SumKeys(rows[..|rows| - 1], jobs, grouping, column) + PageTotal(jobs, grouping, Some(rows[|rows| - 1].key), column)
  }

  function SumColumn(rows: seq<PageRow>, column: Column): int
    requires forall i | 0 <= i < |rows| :: column in rows[i].columns
  {
    if rows == [] then 0 else SumColumn(rows[..|rows| - 1], column) + rows[|rows| - 1].columns[column]
  }

  lemma {:induction false} OneMoreJob(rows: seq<PageRow>, jobs: seq<Job>, job: Job, grouping: Grouping, column: Column)
    requires forall i, j | 0 <= i < j < |rows| :: rows[i].key != rows[j].key
    ensures SumKeys(rows, jobs + [job], grouping, column)
            == SumKeys(rows, jobs, grouping, column)
               + if job.status.Completed? && HasKey(rows, KeyOf(job, grouping)) then Weight(job, column) else 0
  {
    if rows != [] {
      var front, last := rows[..|rows| - 1], rows[|rows| - 1];
      OneMoreJob(front, jobs, job, grouping, column);
      assert (jobs + [job])[..|jobs|] == jobs;
      if HasKey(front, KeyOf(job, grouping)) {
        var i :| 0 <= i < |front| && front[i].key == KeyOf(job, grouping);
        assert rows[i] == front[i];
      } else if last.key != KeyOf(job, grouping) {
        assert !HasKey(rows, KeyOf(job, grouping)) by {
          assert forall i | 0 <= i < |rows| :: i < |front| ==> rows[i] == front[i];
        }
      } else {
        assert rows[|rows| - 1].key == KeyOf(job, grouping);
      }
    }
  }

  lemma {:induction false} NoJobs(rows: seq<PageRow>, grouping: Grouping, column: Column)
    ensures SumKeys(rows, [], grouping, column) == 0
  {
    if rows != [] {
      NoJobs(rows[..|rows| - 1], grouping, column);
    }
  }

  lemma {:induction false} SumKeysIsTotal(rows: seq<PageRow>, jobs: seq<Job>, grouping: Grouping, column: Column)
    requires forall i, j | 0 <= i < j < |rows| :: rows[i].key != rows[j].key
    requires forall j | 0 <= j < |jobs| && jobs[j].status.Completed? :: HasKey(rows, KeyOf(jobs[j], grouping))
    ensures SumKeys(rows, jobs, grouping, column) == PageTotal(jobs, grouping, None, column)
  {
    if jobs == [] {
      NoJobs(rows, grouping, column);
    } else {
      var before, job := jobs[..|jobs| - 1], jobs[|jobs| - 1];
      assert before + [job] == jobs;
      assert forall j | 0 <= j < |before| :: jobs[j] == before[j];
      SumKeysIsTotal(rows, before, grouping, column);
      OneMoreJob(rows, before, job, grouping, column);
    }
  }

  lemma {:induction false} ColumnIsSumKeys(rows: seq<PageRow>, jobs: seq<Job>, grouping: Grouping, column: Column)
    requires forall i | 0 <= i < |rows| ::
               column in rows[i].columns && rows[i].columns[column] == PageTotal(jobs, grouping, Some(rows[i].key), column)
    ensures SumColumn(rows, column) == SumKeys(rows, jobs, grouping, column)
  {
    if rows != [] {
      ColumnIsSumKeys(rows[..|rows| - 1], jobs, grouping, column);
    }
  }

  lemma {:induction false} GrandTotalIgnoresGrouping(jobs: seq<Job>, column: Column)
    ensures PageTotal(jobs, ByPrinter, None, column) == PageTotal(jobs, ByUser, None, column)
  {
    if jobs != [] {
      GrandTotalIgnoresGrouping(jobs[..|jobs| - 1], column);
    }
  }

  /** The rows per printer and the rows per user sum to the same total in every column. */
  lemma PageTotalsAgree(printers: seq<PageRow>, users: seq<PageRow>, jobs: seq<Job>, column: Column)
    requires IsGroupedBy(printers, jobs, ByPrinter) && IsGroupedBy(users, jobs, ByUser)
    ensures SumColumn(printers, column) == SumColumn(users, column) == PageTotal(jobs, ByPrinter, None, column)
  {
    SumKeysIsTotal(printers, jobs, ByPrinter, column);
    ColumnIsSumKeys(printers, jobs, ByPrinter, column);
    SumKeysIsTotal(users, jobs, ByUser, column);
    ColumnIsSumKeys(users, jobs, ByUser, column);
    GrandTotalIgnoresGrouping(jobs, column);
  }

  /** In every row, and so in every total, black-and-white and colour pages make up the pages. */
  lemma {:induction false} ColorsMakeUpPages(jobs: seq<Job>, grouping: Grouping, key: Option<Id>)
    ensures PageTotal(jobs, grouping, key, BwPages) + PageTotal(jobs, grouping, key, ColorPages) == PageTotal(jobs, grouping, key, Pages)
  {
    if jobs != [] {
      ColorsMakeUpPages(jobs[..|jobs| - 1], grouping, key);
    }
  }

  // ---------- What one row adds ----------

  /** A completed job counts towards its own printer's and its own user's rows and nobody else's; a
      job in any other state counts nowhere. */
  lemma JobCounts(jobs: seq<Job>, job: Job, key: Id)
    ensures var more := jobs + [job];
            var atPrinter := job.status == Completed && job.printer == key;
            var ofUser := job.status == Completed && job.user == key;
      && PageTotal(more, ByPrinter, Some(key), Pages)
         == PageTotal(jobs, ByPrinter, Some(key), Pages) + (if atPrinter then job.pages else 0)
      && PageTotal(more, ByUser, Some(key), Pages)
         == PageTotal(jobs, ByUser, Some(key), Pages) + (if ofUser then job.pages else 0)
      && PageTotal(more, ByPrinter, Some(key), ColorPages)
         == PageTotal(jobs, ByPrinter, Some(key), ColorPages) + (if atPrinter && job.color then job.pages else 0)
      && PageTotal(more, ByUser, Some(key), ColorPages)
         == PageTotal(jobs, ByUser, Some(key), ColorPages) + (if ofUser && job.color then job.pages else 0)
      && PageTotal(more, ByPrinter, Some(key), Cost)
         == PageTotal(jobs, ByPrinter, Some(key), Cost) + (if atPrinter then job.cost else 0)
      && PageTotal(more, ByPrinter, Some(key), Jobs)
         == PageTotal(jobs, ByPrinter, Some(key), Jobs) + (if atPrinter then 1 else 0)
  {
    assert (jobs + [job])[..|jobs|] == jobs;
  }

  /** Each ledger row moves the one figure of its kind, in that figure's own way. */
  lemma RowCounts(log: seq<Tx>, row: Tx)
    ensures var f, g := LedgerFigures(log), LedgerFigures(log + [row]);
            var magnitude := if row.amount < 0 then -row.amount else row.amount;
            var gain := if row.amount > 0 then row.amount else 0;
      && g.recharged == f.recharged + (if row.kind == Recharge then gain else 0)
      && g.spentOnPrint == f.spentOnPrint + (if row.kind == Print then magnitude else 0)
      && g.refunded == f.refunded + (if row.kind == Refund then gain else 0)
      && g.adjustments == f.adjustments + (if row.kind == Adjustment then row.amount else 0)
      && g.expenses == f.expenses + (if row.kind == Expense then magnitude else 0)
      && g.productPurchases == f.productPurchases + (if row.kind == ProductPurchase then magnitude else 0)
  {
    TotalAppend(log, row);
  }
}
