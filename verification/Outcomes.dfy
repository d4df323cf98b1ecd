/** What each call answers and what it changes, in terms of the values a caller can read: statuses,
    balances, stock and ledger rows, spelled out field by field. */
module Outcomes {
  import opened Wrappers
  import opened Records
  import opened Totals
  import opened Money
  import opened Operations
  import Stock

  /** One user's balance moves by `delta`; every other balance and every limit stays. */
  ghost predicate BalanceMoves(s: State, t: State, user: Id, delta: int) {
    && |t.accounts| == |s.accounts|
    && forall v | 0 <= v < |s.accounts| ::
         && t.accounts[v].balance == s.accounts[v].balance + (if v == user then delta else 0)
         && t.accounts[v].creditLimit == s.accounts[v].creditLimit
  }

  /** What is left of a user's balance and limit once `amount` is taken, or -1 for no such user. */
  function Spare(s: State, user: Id, amount: int): int {
    if user < |s.accounts| then s.accounts[user].balance + s.accounts[user].creditLimit - amount else -1
  }

  // ---------- Printing ----------

  /** A print job is refused exactly for want of a user, of credit or of the print server; a job
      that is sent holds what was asked for and costs what its row takes. */
  lemma PrintOutcome(s: State, user: Id, printer: Id, pages: nat, color: bool, cost: real, cups: Option<int>)
    ensures var o := SendPrint(s, user, printer, pages, color, cost, cups);
      && (o.reply.NotFound? <==> user >= |s.accounts|)
      && (o.reply.PaymentRequired? <==> user < |s.accounts| && Spare(s, user, Cents(cost)) < 0)
      && (o.reply.Unavailable? <==> Spare(s, user, Cents(cost)) >= 0 && user < |s.accounts| && cups.None?)
      && (o.reply.Done? <==> Spare(s, user, Cents(cost)) >= 0 && user < |s.accounts| && cups.Some?)
    ensures var o := SendPrint(s, user, printer, pages, color, cost, cups);
      o.reply.Done? ==>
        && BalanceMoves(s, o.state, user, -Cents(cost))
        && o.state.jobs == s.jobs + [Job(user, printer, pages, color, Cents(cost), JobStatus.Pending, cups.value, None)]
        && o.state.log == s.log + [Tx(Some(user), Print, -Cents(cost), Some(s.accounts[user].balance - Cents(cost)),
                                      Some(user), ActorType.User, None, None, Some(|s.jobs|), None, None, None)]
        && o.state == s.(accounts := o.state.accounts, jobs := o.state.jobs, log := o.state.log)
  {
    hide Cents;
  }

  /** A job that is sent and then completes takes exactly the pages that were asked for. */
  lemma PrintThenCompleteTakesPages(s: State, user: Id, printer: Id, pages: nat, color: bool, cost: real, cups: int)
    requires SendPrint(s, user, printer, pages, color, cost, Some(cups)).reply.Done?
    ensures var printed := SendPrint(s, user, printer, pages, color, cost, Some(cups)).state;
            var t := Apply(printed, Poll(|s.jobs|, Some(JobStatus.Completed)));
            var own := Stock.Stocked(s.items, Some(printer));
      if own || Stock.Stocked(s.items, None) then
        exists i: nat :: i < |s.items| && Stock.IsPaperOf(s.items[i], if own then Some(printer) else None)
          && t.items == s.items[i := s.items[i].(stock := s.items[i].stock - 100 * pages)]
          && t.moves == s.moves + [Movement(i, -100 * pages, PrintConsumption, Some(|s.jobs|), None)]
      else t.items == s.items && t.moves == s.moves
  {
    var printed := SendPrint(s, user, printer, pages, color, cost, Some(cups)).state;
    PrintOutcome(s, user, printer, pages, color, cost, Some(cups));
    Stock.CompletionTakesPaper(printed, |s.jobs|);
    hide Apply, SendPrint, PaperFor, Stock.Stocked, Stock.IsPaperOf;
  }

  /** A reprint copies the original's owner, printer, pages and colour, costs nothing, moves no
      balance and names the administrator who allowed it. */
  lemma ReprintOutcome(s: State, original: Id, admin: Id, fileStored: bool, printerStored: bool, cups: Option<int>)
    ensures var o := SendReprint(s, original, admin, fileStored, printerStored, cups);
      && (o.reply.NotFound? <==> original >= |s.jobs| || (fileStored && !printerStored))
      && (o.reply.Conflict? <==> original < |s.jobs| && !fileStored)
      && (o.reply.Unavailable? <==> original < |s.jobs| && fileStored && printerStored && cups.None?)
      && (o.reply.Done? <==> original < |s.jobs| && fileStored && printerStored && cups.Some?)
    ensures var o := SendReprint(s, original, admin, fileStored, printerStored, cups);
      o.reply.Done? ==>
        && var j := s.jobs[original];
        && o.state.jobs == s.jobs + [Job(j.user, j.printer, j.pages, j.color, 0, JobStatus.Pending, cups.value, Some(original))]
        && o.state.log == s.log + [Tx(Some(j.user), FreeReprint, 0, None, Some(admin), ActorType.Admin,
                                      None, None, Some(|s.jobs|), None, None, None)]
        && o.state == s.(jobs := o.state.jobs, log := o.state.log)
  {
  }

  // ---------- The scheduler's poll ----------

  /** Of the seven states, exactly two give a job's cost back: a job polled into CANCELLED or
      ABORTED is credited with one refund row, a poll into any other state moves no balance and
      writes no row. Only COMPLETED touches stock. */
  lemma PollOutcome(s: State, job: Id, status: JobStatus)
    requires job < |s.jobs| && s.jobs[job].user < |s.accounts|
    requires s.jobs[job].status in {JobStatus.Pending, Held, Printing, Stopped} && status != s.jobs[job].status
    ensures var t := Apply(s, Poll(job, Some(status)));
            var j := s.jobs[job];
            var failed := status == Cancelled || status == Aborted;
      && t.jobs == s.jobs[job := j.(status := status)]
      && BalanceMoves(s, t, j.user, if failed then j.cost else 0)
      && t.log == s.log + (if failed then
                             [Tx(Some(j.user), Refund, j.cost, Some(s.accounts[j.user].balance + j.cost), None, System,
                                 None, None, Some(job), None, None, None)]
                           else [])
      && (status != JobStatus.Completed ==> t.items == s.items && t.moves == s.moves)
      && t == s.(jobs := t.jobs, accounts := t.accounts, log := t.log, items := t.items, moves := t.moves)
  {
    hide Cents, PaperFor;
    if status == Cancelled || status == Aborted {
    } else {
      assert s.log + [] == s.log;
    }
  }

  /** Finished jobs are not polled any more, and an answer that says nothing new changes nothing. */
  lemma PollIgnores(s: State, job: Id, reported: Option<JobStatus>)
    requires job < |s.jobs| ==>
               || s.jobs[job].status in {JobStatus.Completed, Cancelled, Aborted}
               || reported.None? || reported == Some(s.jobs[job].status)
    ensures Apply(s, Poll(job, reported)) == s
  {
  }

  // ---------- Recharges ----------

  lemma RechargeOutcome(s: State, user: Id, amount: real, actor: Option<Id>, actorType: ActorType, request: Option<Id>, enforce: bool)
    ensures var o := RecordRecharge(s, user, amount, actor, actorType, request, enforce);
      && (o.reply.NotFound? <==> user >= |s.accounts|)
      && (o.reply.PaymentRequired? <==> user < |s.accounts| && enforce && Spare(s, user, -Cents(amount)) < 0)
      && (o.reply.Done? <==> user < |s.accounts| && (enforce ==> Spare(s, user, -Cents(amount)) >= 0))
    ensures var o := RecordRecharge(s, user, amount, actor, actorType, request, enforce);
      o.reply.Done? ==>
        && BalanceMoves(s, o.state, user, Cents(amount))
        && o.state.log == s.log + [Tx(Some(user), Recharge, Cents(amount), Some(s.accounts[user].balance + Cents(amount)),
                                      actor, actorType, request, None, None, None, None, None)]
        && o.state == s.(accounts := o.state.accounts, log := o.state.log)
  {
    hide Cents;
  }

  /** With the balance that the caller read beforehand, an adjustment moves by the difference to it. */
  lemma AdjustmentOutcome(s: State, user: Id, target: real, current: Option<real>, actor: Option<Id>, actorType: ActorType)
    ensures var o := RecordAdjustment(s, user, target, current, actor, actorType);
            var read := if current.Some? then Cents(current.value)
                        else if user < |s.accounts| then s.accounts[user].balance else 0;
            var moved := Cents(target) - read;
      && (o.reply.NotFound? <==> user >= |s.accounts|)
      && (o.reply.PaymentRequired? <==> user < |s.accounts| && Spare(s, user, -moved) < 0)
      && (o.reply.Done? <==> user < |s.accounts| && Spare(s, user, -moved) >= 0)
      && (o.reply.Done? ==>
            && BalanceMoves(s, o.state, user, moved)
            && o.state.log == s.log + [Tx(Some(user), Adjustment, moved, Some(s.accounts[user].balance + moved),
                                          actor, actorType, None, None, None, None, None, None)]
            && o.state == s.(accounts := o.state.accounts, log := o.state.log))
  {
    hide Cents;
  }

  lemma RechargeRequestOutcome(s: State, user: Id, amount: real)
    ensures var o := CreateRechargeRequest(s, user, amount);
      && (o.reply.Done? <==> amount > 0.0 && user < |s.accounts|)
      && (o.reply.Unprocessable? <==> amount <= 0.0)
      && (o.reply.NotFound? <==> amount > 0.0 && user >= |s.accounts|)
      && (o.reply.Done? ==> o.state == s.(requests := s.requests + [RechargeRequest(user, amount, RequestStatus.Pending)]))
  {
  }

  /** A decision is carried out only on a pending request, and leaves it approved or rejected as
      decided; only approval credits, by the rounded amount. */
  lemma RechargeDecisionOutcome(s: State, request: Id, approve: bool, actor: Id, actorType: ActorType)
    ensures var o := ResolveRecharge(s, request, approve, actor, actorType);
      && (o.reply.Done? <==>
            && request < |s.requests| && s.requests[request].status == RequestStatus.Pending
            && (approve ==> s.requests[request].user < |s.accounts|))
      && (o.reply.Conflict? <==> request < |s.requests| && s.requests[request].status != RequestStatus.Pending)
      && (o.reply.Done? ==>
            && var r := s.requests[request];
            && o.state.requests == s.requests[request :=
                 RechargeRequest(r.user, r.amount, if approve then RequestStatus.Approved else RequestStatus.Rejected)]
            && BalanceMoves(s, o.state, r.user, if approve then Cents(r.amount) else 0)
            && o.state.log == s.log + (if approve then
                                         [Tx(Some(r.user), Recharge, Cents(r.amount),
                                             Some(s.accounts[r.user].balance + Cents(r.amount)), Some(actor), actorType,
                                             Some(request), None, None, None, None, None)]
                                       else [])
            && o.state == s.(requests := o.state.requests, accounts := o.state.accounts, log := o.state.log))
  {
    hide Cents;
    var o := ResolveRecharge(s, request, approve, actor, actorType);
    if o.reply.Done? {
      var r := s.requests[request];
      if approve {
        RechargeOutcome(s, r.user, r.amount, Some(actor), actorType, Some(request), false);
      } else {
        assert s.log + [] == s.log;
      }
    }
  }

  // ---------- Refunds ----------

  /** The job has a request that was not denied. */
  ghost predicate HasLiveRequest(s: State, job: Id) {
    exists r :: r in s.refunds && s.refunds[r].job == job && s.refunds[r].status != RefundStatus.Denied
  }

  /** Request numbers are below the next one, and no job has two requests. */
  ghost predicate OneRequestPerJob(s: State) {
    && (forall r | r in s.refunds :: r < s.nextRefund)
    && (forall r, q | r in s.refunds && q in s.refunds && s.refunds[r].job == s.refunds[q].job :: r == q)
  }

  /** An owner's demand for a completed job succeeds exactly when the job has no request or a denied
      one, and then leaves one pending request of the owner's for it. Everything else is refused. */
  lemma DemandOutcome(s: State, job: Id, requester: Id)
    requires OneRequestPerJob(s)
    ensures var o := RequestRefund(s, job, requester);
      && (o.reply.NotFound? <==> job >= |s.jobs|)
      && (o.reply.Forbidden? <==> job < |s.jobs| && s.jobs[job].user != requester)
      && (o.reply.Unprocessable? <==>
            job < |s.jobs| && s.jobs[job].user == requester && s.jobs[job].status != JobStatus.Completed)
      && (o.reply.Done? <==>
            && job < |s.jobs| && s.jobs[job].user == requester && s.jobs[job].status == JobStatus.Completed
            && !HasLiveRequest(s, job))
      && (o.reply.Done? ==>
            && s.nextRefund in o.state.refunds
            && o.state.refunds[s.nextRefund] == RefundRequest(requester, job, RefundStatus.Pending, None)
            && (forall r | r != s.nextRefund ::
                  (r in o.state.refunds <==> r in s.refunds && s.refunds[r].job != job)
                  && (r in o.state.refunds ==> o.state.refunds[r] == s.refunds[r]))
            && o.state == s.(refunds := o.state.refunds, nextRefund := s.nextRefund + 1))
  {
    OneRequest(s, job);
  }

  lemma OneRequest(s: State, job: Id)
    requires OneRequestPerJob(s)
    ensures HasRefund(s, job) ==> (HasLiveRequest(s, job) <==> s.refunds[RefundOf(s, job)].status != RefundStatus.Denied)
    ensures !HasRefund(s, job) ==> !HasLiveRequest(s, job)
    ensures HasRefund(s, job) ==> forall r | r in s.refunds && s.refunds[r].job == job :: r == RefundOf(s, job)
  {
  }

  /** A decision is carried out only on a pending request, and leaves it approved or denied as
      decided; only approval credits, by the job's cost. */
  lemma RefundDecisionOutcome(s: State, refund: Id, status: RefundStatus, admin: Id)
    requires refund in s.refunds ==> s.refunds[refund].job < |s.jobs|
    ensures var o := ResolveRefund(s, refund, status, admin);
            var pending := refund in s.refunds && s.refunds[refund].status == RefundStatus.Pending;
            var ownerGone := pending && s.jobs[s.refunds[refund].job].user >= |s.accounts|;
      && (o.reply.NotFound? <==> refund !in s.refunds || (ownerGone && status == RefundStatus.Approved))
      && (o.reply.Conflict? <==> refund in s.refunds && !pending)
      && (o.reply.Unprocessable? <==> pending && status == RefundStatus.Pending)
      && (o.reply.Done? <==> pending && (status == RefundStatus.Denied || (status == RefundStatus.Approved && !ownerGone)))
      && (o.reply.Done? ==>
            && var r := s.refunds[refund];
            && var j := s.jobs[r.job];
            && var approved := status == RefundStatus.Approved;
            && o.state.refunds == s.refunds[refund := RefundRequest(r.user, r.job, status, r.initiatedBy)]
            && BalanceMoves(s, o.state, j.user, if approved then j.cost else 0)
            && o.state.log == s.log + (if approved then
                                         [Tx(Some(j.user), Refund, j.cost, Some(s.accounts[j.user].balance + j.cost),
                                             Some(admin), ActorType.Admin, None, Some(refund), Some(r.job), None, None, None)]
                                       else [])
            && o.state == s.(refunds := o.state.refunds, accounts := o.state.accounts, log := o.state.log))
  {
    var o := ResolveRefund(s, refund, status, admin);
    if o.reply.Done? && status.Denied? {
      assert s.log + [] == s.log;
    }
  }

  /** An override succeeds exactly for a completed job without a live request, given that the rows of
      the administrator and the owner exist; it leaves one approved
      request of the owner's that names the administrator, and credits the cost. */
  lemma OverrideOutcome(s: State, job: Id, admin: Id)
    requires OneRequestPerJob(s)
    ensures var o := OverrideRefund(s, job, admin);
            var open := job < |s.jobs| && s.jobs[job].status == JobStatus.Completed && !HasLiveRequest(s, job);
            var known := job < |s.jobs| && admin < |s.accounts| && s.jobs[job].user < |s.accounts|;
      && (o.reply.NotFound? <==> job >= |s.jobs| || (open && !known))
      && (o.reply.Unprocessable? <==> job < |s.jobs| && s.jobs[job].status != JobStatus.Completed)
      && (o.reply.Conflict? <==> job < |s.jobs| && s.jobs[job].status == JobStatus.Completed && HasLiveRequest(s, job))
      && (o.reply.Done? <==> open && known)
      && (o.reply.Done? ==>
            && var j := s.jobs[job];
            && s.nextRefund in o.state.refunds
            && o.state.refunds[s.nextRefund] == RefundRequest(j.user, job, RefundStatus.Approved, Some(admin))
            && (forall r | r != s.nextRefund ::
                  (r in o.state.refunds <==> r in s.refunds && s.refunds[r].job != job)
                  && (r in o.state.refunds ==> o.state.refunds[r] == s.refunds[r]))
            && BalanceMoves(s, o.state, j.user, j.cost)
            && o.state.log == s.log + [Tx(Some(j.user), Refund, j.cost, Some(s.accounts[j.user].balance + j.cost),
                                          Some(admin), ActorType.Admin, None, Some(s.nextRefund), Some(job), None, None, None)]
            && o.state == s.(refunds := o.state.refunds, nextRefund := s.nextRefund + 1,
                             accounts := o.state.accounts, log := o.state.log))
  {
    OneRequest(s, job);
  }

  // ---------- Purchases ----------

  lemma BuyOutcome(s: State, product: Id, user: Id, quantity: nat)
    ensures var o := BuyProduct(s, product, user, quantity);
            var total := if product < |s.products| then s.products[product].price * quantity else 0;
      && (o.reply.NotFound? <==> product >= |s.products| || (s.products[product].active && user >= |s.accounts|))
      && (o.reply.Conflict? <==> product < |s.products| && !s.products[product].active)
      && (o.reply.PaymentRequired? <==>
            product < |s.products| && s.products[product].active && user < |s.accounts| && Spare(s, user, total) < 0)
      && (o.reply.Done? <==>
            product < |s.products| && s.products[product].active && user < |s.accounts| && Spare(s, user, total) >= 0)
      && (o.reply.Done? ==>
            && BalanceMoves(s, o.state, user, -total)
            && o.state.purchases == s.purchases + [Purchase(user, product, quantity, total, PurchaseStatus.Pending)]
            && o.state.log == s.log + [Tx(Some(user), ProductPurchase, -total, Some(s.accounts[user].balance - total),
                                          Some(user), ActorType.User, None, None, None, None, Some(|s.purchases|), None)]
            && o.state == s.(accounts := o.state.accounts, purchases := o.state.purchases, log := o.state.log))
  {
    hide Cents;
  }

  /** A decision is carried out only on a pending purchase, and leaves it fulfilled or rejected as
      decided; only rejection pays back, by the total, and only fulfilment moves stock. */
  lemma PurchaseDecisionOutcome(s: State, purchase: Id, fulfil: bool, actor: Id, actorType: ActorType)
    ensures var o := ResolvePurchase(s, purchase, fulfil, actor, actorType);
      && (o.reply.Done? <==>
            && purchase < |s.purchases| && s.purchases[purchase].status == PurchaseStatus.Pending
            && (!fulfil ==> s.purchases[purchase].user < |s.accounts|))
      && (o.reply.Conflict? <==> purchase < |s.purchases| && s.purchases[purchase].status != PurchaseStatus.Pending)
      && (o.reply.Done? ==>
            && var p := s.purchases[purchase];
            && o.state.purchases == s.purchases[purchase :=
                 Purchase(p.user, p.product, p.quantity, p.total,
                          if fulfil then PurchaseStatus.Fulfilled else PurchaseStatus.Rejected)]
            && BalanceMoves(s, o.state, p.user, if fulfil then 0 else p.total)
            && o.state.log == s.log + (if fulfil then []
                                       else [Tx(Some(p.user), Refund, p.total, Some(s.accounts[p.user].balance + p.total),
                                                Some(actor), actorType, None, None, None, None, Some(purchase), None)])
            && (!fulfil ==> o.state.items == s.items && o.state.moves == s.moves)
            && o.state == s.(purchases := o.state.purchases, accounts := o.state.accounts, log := o.state.log,
                             items := o.state.items, moves := o.state.moves))
  {
    hide Cents;
    var o := ResolvePurchase(s, purchase, fulfil, actor, actorType);
    if o.reply.Done? && fulfil {
      assert s.log + [] == s.log;
    }
  }

  // ---------- Accounts, items and expenses ----------

  lemma AccountOutcome(s: State, user: Id, balance: Option<real>, creditLimit: Option<real>)
    ensures CreateUser(s) == s.(accounts := s.accounts + [Account(0, 0)])
    ensures var t := EditUser(s, user, balance, creditLimit);
      && |t.accounts| == |s.accounts| && t == s.(accounts := t.accounts)
      && (forall v | 0 <= v < |s.accounts| ::
            && t.accounts[v].balance
               == (if v == user && balance.Some? then Cents(balance.value) else s.accounts[v].balance)
            && t.accounts[v].creditLimit
               == (if v == user && creditLimit.Some? then Cents(creditLimit.value) else s.accounts[v].creditLimit))
  {
    hide Cents;
  }

  /** Editing an item never touches its stock, and moving its stock touches nothing else of it. */
  lemma ItemOutcome(s: State, item: Id, name: Option<int>, category: Option<Category>, threshold: Option<real>,
                    printer: Option<Id>, active: Option<bool>, delta: real, reason: MovementReason,
                    job: Option<Id>, product: Option<Id>)
    requires item < |s.items|
    ensures var t := UpdateItem(s, item, name, category, threshold, printer, active);
            var i := s.items[item];
      && t == s.(items := t.items) && |t.items| == |s.items|
      && (forall k | 0 <= k < |s.items| && k != item :: t.items[k] == s.items[k])
      && t.items[item].stock == i.stock
      && t.items[item].name == (if name.None? then i.name else name.value)
      && t.items[item].category == (if category.None? then i.category else category.value)
      && t.items[item].threshold == (if threshold.None? then i.threshold else Cents(threshold.value))
      && t.items[item].printer == (if printer.None? then i.printer else printer)
      && t.items[item].active == (if active.None? then i.active else active.value)
    ensures var t := RecordMovement(s, item, delta, reason, job, product);
      && t == s.(items := t.items, moves := t.moves)
      && t.items == s.items[item := s.items[item].(stock := s.items[item].stock + Cents(delta))]
      && t.moves == s.moves + [Movement(item, Cents(delta), reason, job, product)]
  {
    hide Cents;
  }

  lemma NewItemOutcome(s: State, name: int, category: Category, threshold: real, stock: real, printer: Option<Id>)
    ensures CreateItem(s, name, category, threshold, stock, printer)
            == s.(items := s.items + [Item(name, category, Cents(stock), Cents(threshold), printer, true)])
  {
    hide Cents;
  }

  /** An expense is kept as entered and mirrored as money out, charged to the payer if one is named
      and else to whoever recorded it. */
  lemma ExpenseOutcome(s: State, amount: real, recorder: Id, payer: Option<Id>)
    ensures var t := RecordExpense(s, amount, recorder, payer);
            var paidBy := match payer case Some(p) => p case None => recorder;
      && t.expenses == s.expenses + [ExpenseRow(Cents(amount), recorder, paidBy)]
      && t.log == s.log + [Tx(None, Expense, if Cents(amount) >= 0 then -Cents(amount) else Cents(amount), None,
                              Some(paidBy), ActorType.Admin, None, None, None, Some(|s.expenses|), None, None)]
      && t == s.(expenses := t.expenses, log := t.log)
  {
    hide Cents;
  }
}
