/** The service calls that move money, step by step as the code takes them.

    Each is proved against the net effect that `Operations` states, so everything proved about
    runs of those effects holds of runs of these calls. */
module Services {
  import opened Wrappers
  import opened Records
  import opened Totals
  import opened Money
  import opened Operations
  import opened Database
  import JobMoney
  import opened Outcomes

  // ---------- Ledger (src/core/ledger_service.py) ----------

  method RecordRecharge(db: Database, user: Id, amount: real, actor: Option<Id>, actorType: ActorType,
                        request: Option<Id>, enforce: bool)
    returns (result: BalanceUpdate)
    modifies db
    ensures var o := Operations.RecordRecharge(old(db.Contents()), user, amount, actor, actorType, request, enforce);
            db.Contents() == o.state && ReplyTo(result) == o.reply
    ensures result.Updated? ==> Some(result.newBalance) == db.log[|db.log| - 1].balanceAfter
  {
    hide Cents, Covers;
    var rounded := Amount(Cents(amount));
    CentsOfAmount(Cents(amount));
    result := db.AdjustBalance(user, rounded, enforce);
    if !result.Updated? {
      return;
    }
    db.CreateTransaction(Tx(Some(user), Recharge, Cents(rounded), Some(result.newBalance), actor, actorType,
                            request, None, None, None, None, None));
  }

  function ReplyTo(result: BalanceUpdate): Reply {
    match result
    case Updated(_) => Done
    case NoUser => NotFound
    case InsufficientFunds => PaymentRequired
  }

  method RecordAdjustment(db: Database, user: Id, target: real, current: Option<real>, actor: Option<Id>, actorType: ActorType)
    returns (result: BalanceUpdate)
    modifies db
    ensures var o := Operations.RecordAdjustment(old(db.Contents()), user, target, current, actor, actorType);
            db.Contents() == o.state && ReplyTo(result) == o.reply
    ensures result.Updated? ==> Some(result.newBalance) == db.log[|db.log| - 1].balanceAfter
  {
    hide Cents, Covers;
    var currentBalance: real;
    if current.Some? {
      currentBalance := current.value;
    } else {
      if user >= |db.accounts| {
        return NoUser;
      }
      currentBalance := Amount(db.accounts[user].balance);
      CentsOfAmount(db.accounts[user].balance);
    }
    var diff := Cents(Amount(Cents(target)) - Amount(Cents(currentBalance)));
    CentsOfDifference(Cents(target), Cents(currentBalance));
    CentsOfAmount(diff);
    result := db.AdjustBalance(user, Amount(diff), true);
    if !result.Updated? {
      return;
    }
    db.CreateTransaction(Tx(Some(user), Adjustment, diff, Some(result.newBalance), actor, actorType,
                            None, None, None, None, None, None));
  }

  // ---------- Recharge requests (src/core/recharge_request_service.py) ----------

  method ResolveRechargeRequest(db: Database, request: Id, approve: bool, actor: Id, actorType: ActorType)
    returns (reply: Reply)
    modifies db
    ensures Outcome(db.Contents(), reply) == ResolveRecharge(old(db.Contents()), request, approve, actor, actorType)
  {
    hide Cents, Covers;
    if request >= |db.requests| {
      return NotFound;
    }
    var r := db.requests[request];
    if !r.status.Pending? {
      return Conflict;
    }
    if approve {
      var result := RecordRecharge(db, r.user, r.amount, Some(actor), actorType, Some(request), false);
      if !result.Updated? {
        return NotFound;
      }
      db.SetRequestStatus(request, RequestStatus.Approved);
    } else {
      db.SetRequestStatus(request, RequestStatus.Rejected);
    }
    return Done;
  }

  // ---------- Printing (src/core/print_assistant.py) ----------

  /** `cups` is the number the print server gives the job, if it accepts it. */
  method SendPrintJob(db: Database, user: Id, printer: Id, pages: nat, color: bool, cost: real, cups: Option<int>)
    returns (reply: Reply)
    modifies db
    ensures Outcome(db.Contents(), reply) == SendPrint(old(db.Contents()), user, printer, pages, color, cost, cups)
  {
    hide Cents, Covers;
    CentsIsOdd(cost);
    var debit := db.AdjustBalance(user, -cost, true);
    if !debit.Updated? {
      return ReplyTo(debit);
    }
    if cups.None? {
      var compensation := db.AdjustBalance(user, cost, false);
      assert db.accounts == old(db.accounts);
      return Unavailable;
    }
    var job := db.CreateJob(Job(user, printer, pages, color, Cents(cost), JobStatus.Pending, cups.value, None));
    db.CreateTransaction(Tx(Some(user), Print, -Cents(cost), Some(debit.newBalance), Some(user), ActorType.User,
                            None, None, Some(job), None, None, None));
    return Done;
  }

  method SendFreeReprint(db: Database, original: Id, admin: Id, fileStored: bool, printerStored: bool, cups: Option<int>)
    returns (reply: Reply)
    modifies db
    ensures Outcome(db.Contents(), reply)
            == SendReprint(old(db.Contents()), original, admin, fileStored, printerStored, cups)
  {
    if original >= |db.jobs| {
      return NotFound;
    }
    var j := db.jobs[original];
    if !fileStored {
      return Conflict;
    }
    if !printerStored {
      return NotFound;
    }
    if cups.None? {
      return Unavailable;
    }
    var job := db.CreateJob(Job(j.user, j.printer, j.pages, j.color, 0, JobStatus.Pending, cups.value, None));
    db.jobs := db.jobs[job := db.jobs[job].(reprintOf := Some(original))];
    assert db.jobs == old(db.jobs) + [Job(j.user, j.printer, j.pages, j.color, 0, JobStatus.Pending, cups.value, Some(original))];
    db.CreateTransaction(Tx(Some(j.user), FreeReprint, 0, None, Some(admin), ActorType.Admin,
                            None, None, Some(job), None, None, None));
    return Done;
  }

  // ---------- Refunds (src/api/routes/refund.py) ----------

  /** `_credit_refund`; the scheduler credits an aborted job in the same two steps. */
  method CreditRefund(db: Database, job: Id, refund: Option<Id>, actor: Option<Id>, actorType: ActorType)
    returns (ok: bool)
    requires job < |db.jobs|
    modifies db
    ensures ok == (old(db.jobs)[job].user < |old(db.accounts)|)
    ensures db.Contents() == if ok then CreditJob(old(db.Contents()), job, refund, actor, actorType) else old(db.Contents())
  {
    hide Cents, Covers;
    var j := db.jobs[job];
    CentsOfAmount(j.cost);
    var result := db.AdjustBalance(j.user, Amount(j.cost), false);
    if !result.Updated? {
      return false;
    }
    db.CreateTransaction(Tx(Some(j.user), Refund, j.cost, Some(result.newBalance), actor, actorType,
                            None, refund, Some(job), None, None, None));
    return true;
  }

  /** `Outcomes.OneRequestPerJob` is all that these calls need, and every reachable state keeps it. */
  lemma ReachableHasOneRequestPerJob(s: State, steps: seq<Step>)
    requires JobMoney.JobsInOrder(s)
    ensures OneRequestPerJob(Run(s, steps))
  {
    JobMoney.RunRefundsOnce(s, steps);
  }

  /** The request that the query finds is the one that there is. */
  lemma FoundIsTheOne(s: State, job: Id, found: Id)
    requires OneRequestPerJob(s) && found in s.refunds && s.refunds[found].job == job
    ensures HasRefund(s, job) && RefundOf(s, job) == found
  {
  }

  method RequestRefund(db: Database, job: Id, requester: Id) returns (reply: Reply)
    requires OneRequestPerJob(db.Contents())
    modifies db
    ensures Outcome(db.Contents(), reply) == Operations.RequestRefund(old(db.Contents()), job, requester)
  {
    if job >= |db.jobs| {
      return NotFound;
    }
    if db.jobs[job].user != requester {
      return Forbidden;
    }
    if !db.jobs[job].status.Completed? {
      return Unprocessable;
    }
    var existing := db.GetRefundByJobId(job);
    if existing.Some? {
      FoundIsTheOne(db.Contents(), job, existing.value);
      if db.refunds[existing.value].status.Denied? {
        var deleted := db.DeleteRefundRequest(existing.value);
      } else {
        return Conflict;
      }
    }
    var created := db.CreateRefundRequest(RefundRequest(requester, job, RefundStatus.Pending, None));
    return Done;
  }

  method ResolveRefund(db: Database, refund: Id, status: RefundStatus, admin: Id) returns (reply: Reply)
    modifies db
    ensures Outcome(db.Contents(), reply) == Operations.ResolveRefund(old(db.Contents()), refund, status, admin)
  {
    if refund !in db.refunds {
      return NotFound;
    }
    var r := db.refunds[refund];
    if !r.status.Pending? {
      return Conflict;
    }
    if status.Pending? {
      return Unprocessable;
    }
    if status.Approved? {
      if r.job < |db.jobs| {
        var credited := CreditRefund(db, r.job, Some(refund), Some(admin), ActorType.Admin);
        if !credited {
          return NotFound;
        }
      }
    }
    var updated := db.UpdateRefundRequest(refund, status);
    return Done;
  }

  method OverrideRefund(db: Database, job: Id, admin: Id) returns (reply: Reply)
    requires OneRequestPerJob(db.Contents())
    modifies db
    ensures Outcome(db.Contents(), reply) == Operations.OverrideRefund(old(db.Contents()), job, admin)
  {
    hide CreditJob;
    if job >= |db.jobs| {
      return NotFound;
    }
    var j := db.jobs[job];
    if !j.status.Completed? {
      return Unprocessable;
    }
    var existing := db.GetRefundByJobId(job);
    if existing.Some? {
      FoundIsTheOne(db.Contents(), job, existing.value);
      if db.refunds[existing.value].status.Denied? {
        var deleted := db.DeleteRefundRequest(existing.value);
      } else {
        return Conflict;
      }
    }
    if admin >= |db.accounts| {
      return NotFound;
    }
    ghost var cleared := db.Contents();
    assert db.nextRefund !in db.refunds;
    var refund := db.CreateRefundRequest(RefundRequest(j.user, job, RefundStatus.Approved, Some(admin)));
    var credited := CreditRefund(db, job, Some(refund), Some(admin), ActorType.Admin);
    if !credited {
      var deleted := db.DeleteRefundRequest(refund);
      assert db.refunds == cleared.refunds;
      return NotFound;
    }
    return Done;
  }

  // ---------- Purchases (src/core/product_purchase_service.py) ----------

  /** `round_money(price * quantity)` rounds nothing away. */
  function PurchaseTotal(price: int, quantity: nat): (total: int)
    ensures total == price * quantity
  {
    WholePrice(price, quantity);
    Cents(Amount(price) * quantity as real)
  }

  lemma WholePrice(price: int, quantity: nat)
    ensures Cents(Amount(price) * quantity as real) == price * quantity
  {
    var total := price * quantity;
    assert total as real == price as real * quantity as real;
    assert Amount(price) * quantity as real == Amount(total);
    CentsOfAmount(total);
  }

  lemma DebitIsExact(total: int)
    ensures Cents(-Amount(total)) == -total
  {
    CentsOfAmount(-total);
  }

  method CreatePurchase(db: Database, product: Id, user: Id, quantity: nat) returns (reply: Reply)
    modifies db
    ensures Outcome(db.Contents(), reply) == BuyProduct(old(db.Contents()), product, user, quantity)
  {
    hide Cents, Amount;
    if product >= |db.products| {
      return NotFound;
    }
    var p := db.products[product];
    if !p.active {
      return Conflict;
    }
    var total := PurchaseTotal(p.price, quantity);
    DebitIsExact(total);
    var result := db.AdjustBalance(user, -Amount(total), true);
    if !result.Updated? {
      return ReplyTo(result);
    }
    var purchase := db.CreatePurchase(Purchase(user, product, quantity, total, PurchaseStatus.Pending));
    db.CreateTransaction(Tx(Some(user), ProductPurchase, -total, Some(result.newBalance), Some(user), ActorType.User,
                            None, None, None, None, Some(purchase), None));
    return Done;
  }

  method ResolvePurchase(db: Database, purchase: Id, fulfil: bool, actor: Id, actorType: ActorType) returns (reply: Reply)
    modifies db
    ensures Outcome(db.Contents(), reply)
            == Operations.ResolvePurchase(old(db.Contents()), purchase, fulfil, actor, actorType)
  {
    hide Cents, Covers;
    if purchase >= |db.purchases| {
      return NotFound;
    }
    var p := db.purchases[purchase];
    if !p.status.Pending? {
      return Conflict;
    }
    if fulfil {
      if p.product < |db.products| && db.products[p.product].item.Some? {
        var moved := db.RecordMovement(db.products[p.product].item.value, -(p.quantity as real), ProductSale,
                                       None, Some(p.product));
      }
      db.SetPurchaseStatus(purchase, PurchaseStatus.Fulfilled);
    } else {
      CentsOfAmount(p.total);
      var result := db.AdjustBalance(p.user, Amount(p.total), false);
      if !result.Updated? {
        return NotFound;
      }
      db.CreateTransaction(Tx(Some(p.user), Refund, p.total, Some(result.newBalance), Some(actor), actorType,
                              None, None, None, None, Some(purchase), None));
      db.SetPurchaseStatus(purchase, PurchaseStatus.Rejected);
    }
    return Done;
  }
}
