/** The database tables as mutable state, with the table-level operations of `src/db/crud`.

    A row's number is its place in its table, so a row "exists" when its number is in range. */
module Database {
  import opened Wrappers
  import opened Records
  import opened Totals
  import opened Money
  import opened Operations

  datatype BalanceUpdate = Updated(newBalance: int) | NoUser | InsufficientFunds

  class Database {
    var accounts: seq<Account>
    var jobs: seq<Job>
    var refunds: map<Id, RefundRequest>
    var nextRefund: Id
    var requests: seq<RechargeRequest>
    var products: seq<Product>
    var purchases: seq<Purchase>
    var items: seq<Item>
    var moves: seq<Movement>
    var expenses: seq<ExpenseRow>
    var log: seq<Tx>
    var events: seq<CollectionEvent>

    ghost function Contents(): State
      reads this
    {
      State(accounts, jobs, refunds, nextRefund, requests, products, purchases, items, moves, expenses, log, events)
    }

    constructor ()
      ensures Contents() == EMPTY
    {
      accounts, jobs, refunds, nextRefund, requests := [], [], map[], 0, [];
      products, purchases, items, moves, expenses, log, events := [], [], [], [], [], [], [];
    }

    // ---------- Users ----------

    method CreateUser() returns (user: Id)
      modifies this
      ensures user == |old(accounts)|
      ensures Contents() == Operations.CreateUser(old(Contents()))
    {
      user := |accounts|;
      accounts := accounts + [Account(0, 0)];
    }

    method UpdateUser(user: Id, balance: Option<real>, creditLimit: Option<real>) returns (ok: bool)
      modifies this
      ensures ok == (user < |old(accounts)|)
      ensures Contents() == EditUser(old(Contents()), user, balance, creditLimit)
    {
      if user >= |accounts| {
        return false;
      }
      var a := accounts[user];
      if balance.Some? {
        a := a.(balance := Cents(balance.value));
      }
      if creditLimit.Some? {
        a := a.(creditLimit := Cents(creditLimit.value));
      }
      accounts := accounts[user := a];
      return true;
    }

    /** `adjust_balance`: guard and write are one statement. The guard allows the sum of the stored
        values half a cent of slack. */
    method AdjustBalance(user: Id, delta: real, enforce: bool) returns (result: BalanceUpdate)
      modifies this
      ensures result.NoUser? <==> user >= |old(accounts)|
      ensures result.InsufficientFunds?
              <==> user < |old(accounts)| && enforce && !Covers(old(accounts)[user], Cents(delta))
      ensures result.Updated? ==> result.newBalance == old(accounts)[user].balance + Cents(delta)
      ensures Contents() == if !result.Updated? then old(Contents()) else
                old(Contents()).(accounts := old(accounts)[user := old(accounts)[user].(balance := result.newBalance)])
    {
      var cents := Cents(delta);
      if user >= |accounts| {
        return NoUser;
      }
      var a := accounts[user];
      EpsilonGuardIsExact(Amount(a.balance) + Amount(a.creditLimit) + Amount(cents), a.balance + a.creditLimit + cents);
      if enforce && !(Amount(a.balance) + Amount(a.creditLimit) + Amount(cents) >= -0.005) {
        return InsufficientFunds;
      }
      accounts := accounts[user := a.(balance := a.balance + cents)];
      return Updated(a.balance + cents);
    }

    method CreateTransaction(row: Tx)
      modifies this
      ensures Contents() == old(Contents()).(log := old(log) + [row])
    {
      log := log + [row];
    }

    // ---------- Jobs ----------

    method CreateJob(job: Job) returns (id: Id)
      modifies this
      ensures id == |old(jobs)|
      ensures Contents() == old(Contents()).(jobs := old(jobs) + [job])
    {
      id := |jobs|;
      jobs := jobs + [job];
    }

    method UpdateJobStatus(job: Id, status: JobStatus) returns (ok: bool)
      modifies this
      ensures ok == (job < |old(jobs)|)
      ensures Contents() == if !ok then old(Contents()) else
                old(Contents()).(jobs := old(jobs)[job := old(jobs)[job].(status := status)])
    {
      if job >= |jobs| {
        return false;
      }
      jobs := jobs[job := jobs[job].(status := status)];
      return true;
    }

    /** The jobs that are still in transit, each once. */
    method GetTransitoryStatusJobs() returns (ids: seq<Id>)
      ensures forall j: Id :: j in ids <==> j < |jobs| && InTransit(jobs[j].status)
      ensures forall i | 0 <= i < |ids| :: ids[i] < |jobs|
      ensures forall i, j | 0 <= i < j < |ids| :: ids[i] != ids[j]
    {
      ids := [];
      for j := 0 to |jobs|
        invariant forall i: Id :: i in ids <==> i < j && InTransit(jobs[i].status)
        invariant forall i | 0 <= i < |ids| :: ids[i] < |jobs|
        invariant forall i, k | 0 <= i < k < |ids| :: ids[i] != ids[k]
      {
        if InTransit(jobs[j].status) {
          ids := ids + [j];
        }
      }
    }

    // ---------- Refund requests ----------

    /** `get_refund_by_job_id`: some request for the job, if there is one. */
    method GetRefundByJobId(job: Id) returns (found: Option<Id>)
      ensures found.Some? <==> HasRefund(Contents(), job)
      ensures found.Some? ==> found.value in refunds && refunds[found.value].job == job
    {
      var left := refunds.Keys;
      while left != {}
        invariant left <= refunds.Keys
        invariant forall r | r in refunds.Keys - left :: refunds[r].job != job
        decreases |left|
      {
        var r :| r in left;
        if refunds[r].job == job {
          return Some(r);
        }
        left := left - {r};
      }
      return None;
    }

    method CreateRefundRequest(refund: RefundRequest) returns (id: Id)
      modifies this
      ensures id == old(nextRefund)
      ensures Contents() == AddRefund(old(Contents()), refund)
    {
      id := nextRefund;
      refunds := refunds[id := refund];
      nextRefund := nextRefund + 1;
    }

    method UpdateRefundRequest(refund: Id, status: RefundStatus) returns (ok: bool)
      modifies this
      ensures ok == (refund in old(refunds))
      ensures Contents() == if !ok then old(Contents()) else
                old(Contents()).(refunds := old(refunds)[refund := old(refunds)[refund].(status := status)])
    {
      if refund !in refunds {
        return false;
      }
      refunds := refunds[refund := refunds[refund].(status := status)];
      return true;
    }

    method DeleteRefundRequest(refund: Id) returns (ok: bool)
      modifies this
      ensures ok == (refund in old(refunds))
      ensures Contents() == old(Contents()).(refunds := old(refunds) - {refund})
    {
      ok := refund in refunds;
      refunds := refunds - {refund};
    }

    // ---------- Recharge requests and purchases ----------

    method CreateRechargeRequest(user: Id, amount: real) returns (reply: Reply)
      modifies this
      ensures Outcome(Contents(), reply) == Operations.CreateRechargeRequest(old(Contents()), user, amount)
    {
      if amount <= 0.0 {
        return Unprocessable;
      }
      if user >= |accounts| {
        return NotFound;
      }
      requests := requests + [RechargeRequest(user, amount, RequestStatus.Pending)];
      return Done;
    }

    method SetRequestStatus(request: Id, status: RequestStatus)
      requires request < |requests|
      modifies this
      ensures Contents()
              == old(Contents()).(requests := old(requests)[request := old(requests)[request].(status := status)])
    {
      requests := requests[request := requests[request].(status := status)];
    }

    method CreatePurchase(purchase: Purchase) returns (id: Id)
      modifies this
      ensures id == |old(purchases)|
      ensures Contents() == old(Contents()).(purchases := old(purchases) + [purchase])
    {
      id := |purchases|;
      purchases := purchases + [purchase];
    }

    method SetPurchaseStatus(purchase: Id, status: PurchaseStatus)
      requires purchase < |purchases|
      modifies this
      ensures Contents()
              == old(Contents()).(purchases := old(purchases)[purchase := old(purchases)[purchase].(status := status)])
    {
      purchases := purchases[purchase := purchases[purchase].(status := status)];
    }

    // ---------- Inventory ----------

    method CreateItem(name: int, category: Category, threshold: real, stock: real, printer: Option<Id>) returns (id: Id)
      modifies this
      ensures id == |old(items)|
      ensures Contents() == Operations.CreateItem(old(Contents()), name, category, threshold, stock, printer)
    {
      id := |items|;
      items := items + [Item(name, category, Cents(stock), Cents(threshold), printer, true)];
    }

    /** `update_item` sets the fields it is given one by one, and never the stock. */
    method UpdateItem(item: Id, name: Option<int>, category: Option<Category>, threshold: Option<real>,
                      printer: Option<Id>, active: Option<bool>)
      returns (ok: bool)
      modifies this
      ensures ok == (item < |old(items)|)
      ensures Contents() == Operations.UpdateItem(old(Contents()), item, name, category, threshold, printer, active)
    {
      hide Cents;
      if item >= |items| {
        return false;
      }
      var i := items[item];
      if name.Some? {
        i := i.(name := name.value);
      }
      if category.Some? {
        i := i.(category := category.value);
      }
      if threshold.Some? {
        i := i.(threshold := Cents(threshold.value));
      }
      if printer.Some? {
        i := i.(printer := printer);
      }
      if active.Some? {
        i := i.(active := active.value);
      }
      items := items[item := i];
      return true;
    }

    /** `record_movement`: stock and movement row change together. */
    method RecordMovement(item: Id, delta: real, reason: MovementReason, job: Option<Id>, product: Option<Id>)
      returns (newStock: Option<int>)
      modifies this
      ensures newStock.Some? <==> item < |old(items)|
      ensures newStock.Some? ==> newStock.value == old(items)[item].stock + Cents(delta)
      ensures Contents() == Operations.RecordMovement(old(Contents()), item, delta, reason, job, product)
    {
      var d := Cents(delta);
      if item >= |items| {
        return None;
      }
      items := items[item := items[item].(stock := items[item].stock + d)];
      moves := moves + [Movement(item, d, reason, job, product)];
      return Some(items[item].stock);
    }

    // ---------- Expenses and settlements ----------

    /** `create_expense`: the expense, and its mirror in the ledger charged to whoever paid. */
    method CreateExpense(amount: real, recorder: Id, payer: Option<Id>) returns (id: Id)
      modifies this
      ensures id == |old(expenses)|
      ensures Contents() == RecordExpense(old(Contents()), amount, recorder, payer)
    {
      var paidBy := if payer.Some? then payer.value else recorder;
      id := |expenses|;
      expenses := expenses + [ExpenseRow(Cents(amount), recorder, paidBy)];
      var magnitude := if amount < 0.0 then -amount else amount;
      CentsOfMagnitude(amount);
      CreateTransaction(Entry(Expense, Cents(-magnitude), Some(paidBy), ActorType.Admin).(expense := Some(id)));
    }

    /** `_locked_unsettled_rows`: the rows of one administrator that no event has settled. */
    method LockedUnsettledRows(admin: Id) returns (rows: seq<nat>)
      ensures forall i: nat :: i in rows <==> i < |log| && IsUnsettled(log[i], admin)
      ensures forall n | 0 <= n < |rows| :: rows[n] < |log|
      ensures SumOf(log, rows) == Total(log, UnsettledBy(admin))
    {
      rows := [];
      for i := 0 to |log|
        invariant forall r: nat :: r in rows <==> r < i && IsUnsettled(log[r], admin)
        invariant forall n | 0 <= n < |rows| :: rows[n] < i
        invariant SumOf(log, rows) == Total(log[..i], UnsettledBy(admin))
      {
        assert log[..i + 1][..i] == log[..i];
        if IsUnsettled(log[i], admin) {
          assert (rows + [i])[..|rows|] == rows;
          rows := rows + [i];
        }
      }
      assert log[..|log|] == log;
    }

    /** `_settle`: creates the event, then tags the rows one by one. */
    method SettleRows(superAdmin: Id, admin: Id, rows: seq<nat>, amount: int, direction: Direction)
      requires forall i: nat :: i in rows <==> i < |log| && IsUnsettled(log[i], admin)
      modifies this
      ensures Contents() == Settle(old(Contents()), CollectionEvent(superAdmin, admin, amount, direction))
    {
      var event := |events|;
      events := events + [CollectionEvent(superAdmin, admin, amount, direction)];
      for n := 0 to |rows|
        invariant Contents() == old(Contents()).(events := events, log := log)
        invariant events == old(events) + [CollectionEvent(superAdmin, admin, amount, direction)]
        invariant |log| == |old(log)|
        invariant forall i: nat | i < |log| ::
                    log[i] == if i in rows[..n] then old(log)[i].(event := Some(event)) else old(log)[i]
      {
        assert rows[n] in rows;
        assert rows[..n + 1] == rows[..n] + [rows[n]];
        log := log[rows[n] := log[rows[n]].(event := Some(event))];
      }
      assert rows[..|rows|] == rows;
      assert log == Tag(old(log), admin, event);
    }

    /** `collect_from_admin`. */
    method CollectFromAdmin(superAdmin: Id, admin: Id) returns (reply: Reply)
      modifies this
      ensures Outcome(Contents(), reply) == Collect(old(Contents()), superAdmin, admin)
    {
      var rows := LockedUnsettledRows(admin);
      if rows == [] {
        return Conflict;
      }
      var total := SumRows(log, rows);
      if total <= 0 {
        return Conflict;
      }
      SettleRows(superAdmin, admin, rows, total, FromAdmin);
      return Done;
    }

    /** `pay_admin_from_house`. */
    method PayAdminFromHouse(superAdmin: Id, admin: Id) returns (reply: Reply)
      modifies this
      ensures Outcome(Contents(), reply) == PayBack(old(Contents()), superAdmin, admin)
    {
      var rows := LockedUnsettledRows(admin);
      if rows == [] {
        return Conflict;
      }
      var total := SumRows(log, rows);
      if total >= 0 {
        return Conflict;
      }
      SettleRows(superAdmin, admin, rows, Abs(total), ToAdmin);
      return Done;
    }
  }

  lemma CentsOfMagnitude(amount: real)
    ensures Cents(-(if amount < 0.0 then -amount else amount)) == -Abs(Cents(amount))
  {
  }

  /** The amounts of the listed rows. */
  function SumOf(log: seq<Tx>, rows: seq<nat>): int
    requires forall i | 0 <= i < |rows| :: rows[i] < |log|
  {
    if rows == [] then 0 else SumOf(log, rows[..|rows| - 1]) + log[rows[|rows| - 1]].amount
  }

  method SumRows(log: seq<Tx>, rows: seq<nat>) returns (total: int)
    requires forall i | 0 <= i < |rows| :: rows[i] < |log|
    ensures total == SumOf(log, rows)
  {
    total := 0;
    for n := 0 to |rows|
      invariant total == SumOf(log, rows[..n])
    {
      assert rows[..n + 1][..n] == rows[..n];
      total := total + log[rows[n]].amount;
    }
    assert rows[..|rows|] == rows;
  }
}
