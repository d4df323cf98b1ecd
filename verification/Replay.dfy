/** Balances replay from the ledger.

    `Opening` is a user's balance minus everything the ledger says about that user. It is the
    balance the account was opened with, and no service call changes it except `update_user`. */
module Replay {
  import opened Wrappers
  import opened Records
  import opened Totals
  import opened Money
  import opened Operations

  function Opening(s: State, user: Id): int
    requires user < |s.accounts|
  {
    s.accounts[user].balance - Total(s.log, MoneyOfUser(user))
  }

  /** Every recorded balance is the opening balance plus the rows up to and including its own. */
  ghost predicate RecordedBalancesReplay(s: State) {
    forall i | 0 <= i < |s.log| && s.log[i].balanceAfter.Some? ::
      && s.log[i].user.Some?
      && s.log[i].user.value < |s.accounts|
      && s.log[i].balanceAfter.value
         == Opening(s, s.log[i].user.value) + Total(s.log[..i + 1], MoneyOfUser(s.log[i].user.value))
  }

  /** No row speaks of a user who does not exist yet. */
  ghost predicate NoRowsAhead(s: State) {
    forall u: Id | u >= |s.accounts| :: Total(s.log, MoneyOfUser(u)) == 0
  }

  ghost predicate Consistent(s: State) {
    NoRowsAhead(s) && RecordedBalancesReplay(s)
  }

  /** The step leaves the stored balance alone or accounts for its change in the ledger. */
  ghost predicate Accounted(s: State, step: Step) {
    step.UserEdit? && step.user < |s.accounts| && step.balance.Some? ==>
      Cents(step.balance.value) == s.accounts[step.user].balance
  }

  /** Same accounts in number, same openings: what every accounted step achieves. */
  ghost predicate SameOpenings(s: State, t: State) {
    && |s.accounts| <= |t.accounts|
    && (forall u | 0 <= u < |s.accounts| :: Opening(t, u) == Opening(s, u))
  }

  lemma PostKeeps(s: State, user: Id, row: Tx)
    requires Consistent(s) && user < |s.accounts|
    ensures Consistent(Post(s, user, row)) && SameOpenings(s, Post(s, user, row))
  {
    var t := Post(s, user, row);
    var added := t.log[|s.log|];
    TotalAppend(s.log, added);
    assert t.log == s.log + [added];
    forall i | 0 <= i < |t.log| && t.log[i].balanceAfter.Some?
      ensures && t.log[i].user.Some? && t.log[i].user.value < |t.accounts|
              && t.log[i].balanceAfter.value
                 == Opening(t, t.log[i].user.value) + Total(t.log[..i + 1], MoneyOfUser(t.log[i].user.value))
    {
      if i < |s.log| {
        assert t.log[..i + 1] == s.log[..i + 1];
      } else {
        assert t.log[..i + 1] == t.log;
      }
    }
  }

  lemma UntouchedKeeps(s: State, t: State)
    requires Consistent(s) && t.accounts == s.accounts && t.log == s.log
    ensures Consistent(t) && SameOpenings(s, t)
  {
  }

  /** A row that moves no user's money and records no balance: expenses and free reprints. */
  lemma SilentRowKeeps(s: State, t: State, row: Tx)
    requires Consistent(s) && t.accounts == s.accounts && t.log == s.log + [row]
    requires row.balanceAfter.None? && (row.user.None? || row.amount == 0)
    ensures Consistent(t) && SameOpenings(s, t)
  {
    TotalAppend(s.log, row);
    forall i | 0 <= i < |t.log| && t.log[i].balanceAfter.Some?
      ensures i < |s.log| && t.log[..i + 1] == s.log[..i + 1]
    {
    }
  }

  lemma TagKeepsMoney(log: seq<Tx>, admin: Id, event: Id, user: Id, n: nat)
    requires n <= |log|
    ensures Total(Tag(log, admin, event)[..n], MoneyOfUser(user)) == Total(log[..n], MoneyOfUser(user))
  {
    TotalAlike(Tag(log, admin, event)[..n], log[..n], MoneyOfUser(user));
  }

  lemma SettleKeeps(s: State, event: CollectionEvent)
    requires Consistent(s)
    ensures Consistent(Settle(s, event)) && SameOpenings(s, Settle(s, event))
  {
    var t := Settle(s, event);
    forall u: Id, n: nat | n <= |s.log|
      ensures Total(t.log[..n], MoneyOfUser(u)) == Total(s.log[..n], MoneyOfUser(u))
    {
      TagKeepsMoney(s.log, event.admin, |s.events|, u, n);
    }
    assert s.log[..|s.log|] == s.log && t.log[..|s.log|] == t.log;
  }

  lemma EditKeeps(s: State, user: Id, balance: Option<real>, creditLimit: Option<real>)
    requires Consistent(s) && user < |s.accounts|
    ensures var t := EditUser(s, user, balance, creditLimit);
      && (forall u | 0 <= u < |s.accounts| && u != user :: Opening(t, u) == Opening(s, u))
      && Opening(t, user) - Opening(s, user) == t.accounts[user].balance - s.accounts[user].balance
      && (t.accounts[user].balance == s.accounts[user].balance ==> Consistent(t))
  {
    var t := EditUser(s, user, balance, creditLimit);
    if t.accounts[user].balance == s.accounts[user].balance {
      forall i | 0 <= i < |t.log| && t.log[i].balanceAfter.Some?
        ensures t.log[i].user.Some? && t.log[i].user.value < |t.accounts|
      {
      }
    }
  }

  lemma AdjustReplays(s: State, user: Id, target: real, current: Option<real>, actor: Option<Id>, actorType: ActorType)
    requires Consistent(s)
    ensures var t := RecordAdjustment(s, user, target, current, actor, actorType).state;
            Consistent(t) && SameOpenings(s, t)
  {
    hide Cents, Consistent, Post;
    if user < |s.accounts| {
      var base := if current.Some? then Cents(current.value) else s.accounts[user].balance;
      PostKeeps(s, user, Entry(Adjustment, Cents(target) - base, actor, actorType));
    }
  }

  lemma DecisionReplays(s: State, request: Id, approve: bool, actor: Id, actorType: ActorType)
    requires Consistent(s)
    ensures var t := ResolveRecharge(s, request, approve, actor, actorType).state;
            Consistent(t) && SameOpenings(s, t)
  {
    hide Cents;
    var t := ResolveRecharge(s, request, approve, actor, actorType).state;
    if t != s && approve {
      var r := s.requests[request];
      var row := Entry(Recharge, Cents(r.amount), Some(actor), actorType).(request := Some(request));
      PostKeeps(s, r.user, row);
      UntouchedKeeps(Post(s, r.user, row), t);
    }
  }

  lemma CreditReplays(s: State, m: State, job: Id, refund: Option<Id>, actor: Option<Id>, actorType: ActorType)
    requires Consistent(s) && m.accounts == s.accounts && m.log == s.log
    requires job < |m.jobs| && m.jobs[job].user < |m.accounts|
    ensures var t := CreditJob(m, job, refund, actor, actorType); Consistent(t) && SameOpenings(s, t)
  {
    UntouchedKeeps(s, m);
    PostKeeps(m, m.jobs[job].user,
              Entry(Refund, m.jobs[job].cost, actor, actorType).(refund := refund, job := Some(job)));
  }

  lemma RefundReplays(s: State, refund: Id, status: RefundStatus, admin: Id)
    requires Consistent(s)
    ensures var t := ResolveRefund(s, refund, status, admin).state; Consistent(t) && SameOpenings(s, t)
  {
    var t := ResolveRefund(s, refund, status, admin).state;
    if t != s {
      var r := s.refunds[refund];
      if r.job < |s.jobs| && status.Approved? {
        var m := s.(refunds := s.refunds[refund := r.(status := status)]);
        CreditReplays(s, m, r.job, Some(refund), Some(admin), ActorType.Admin);
      } else {
        UntouchedKeeps(s, t);
      }
    }
  }

  lemma OverrideReplays(s: State, job: Id, admin: Id)
    requires Consistent(s)
    ensures var t := OverrideRefund(s, job, admin).state; Consistent(t) && SameOpenings(s, t)
  {
    var o := OverrideRefund(s, job, admin);
    if o.reply.Done? {
      var cleared := if HasRefund(s, job) then s.(refunds := s.refunds - {RefundOf(s, job)}) else s;
      var m := AddRefund(cleared, RefundRequest(s.jobs[job].user, job, RefundStatus.Approved, Some(admin)));
      CreditReplays(s, m, job, Some(s.nextRefund), Some(admin), ActorType.Admin);
    } else {
      UntouchedKeeps(s, o.state);
    }
  }

  lemma PollReplays(s: State, job: Id, status: Option<JobStatus>)
    requires Consistent(s) && job < |s.jobs|
    ensures var t := PollJob(s, job, status); Consistent(t) && SameOpenings(s, t)
  {
    var t := PollJob(s, job, status);
    if t.log == s.log {
      UntouchedKeeps(s, t);
    } else {
      var m := s.(jobs := s.jobs[job := s.jobs[job].(status := status.value)]);
      CreditReplays(s, m, job, None, None, System);
    }
  }

  lemma BuyReplays(s: State, product: Id, user: Id, quantity: nat)
    requires Consistent(s)
    ensures var t := BuyProduct(s, product, user, quantity).state; Consistent(t) && SameOpenings(s, t)
  {
    var o := BuyProduct(s, product, user, quantity);
    if o.reply.Done? {
      var total := s.products[product].price * quantity;
      var m := s.(purchases := s.purchases + [Purchase(user, product, quantity, total, PurchaseStatus.Pending)]);
      UntouchedKeeps(s, m);
      var row := Entry(ProductPurchase, -total, Some(user), ActorType.User).(purchase := Some(|s.purchases|));
      PostKeeps(m, user, row);
      assert o.state == Post(m, user, row);
    }
  }

  lemma PurchaseReplays(s: State, purchase: Id, fulfil: bool, actor: Id, actorType: ActorType)
    requires Consistent(s)
    ensures var t := ResolvePurchase(s, purchase, fulfil, actor, actorType).state;
            Consistent(t) && SameOpenings(s, t)
  {
    var o := ResolvePurchase(s, purchase, fulfil, actor, actorType);
    if o.reply.Done? && !fulfil {
      var p := s.purchases[purchase];
      var m := s.(purchases := s.purchases[purchase := p.(status := PurchaseStatus.Rejected)]);
      UntouchedKeeps(s, m);
      PostKeeps(m, p.user, Entry(Refund, p.total, Some(actor), actorType).(purchase := Some(purchase)));
    } else {
      UntouchedKeeps(s, o.state);
    }
  }

  lemma PrintReplays(s: State, user: Id, printer: Id, pages: nat, color: bool, cost: real, cups: Option<int>)
    requires Consistent(s)
    ensures var t := SendPrint(s, user, printer, pages, color, cost, cups).state;
            Consistent(t) && SameOpenings(s, t)
  {
    var o := SendPrint(s, user, printer, pages, color, cost, cups);
    if o.reply.Done? {
      var m := s.(jobs := s.jobs + [Job(user, printer, pages, color, Cents(cost), JobStatus.Pending, cups.value, None)]);
      UntouchedKeeps(s, m);
      PostKeeps(m, user, Entry(Print, -Cents(cost), Some(user), ActorType.User).(job := Some(|s.jobs|)));
    }
  }

  lemma RechargeReplays(s: State, user: Id, amount: real, actor: Option<Id>, actorType: ActorType, enforce: bool)
    requires Consistent(s)
    ensures var t := RecordRecharge(s, user, amount, actor, actorType, None, enforce).state;
            Consistent(t) && SameOpenings(s, t)
  {
    if RecordRecharge(s, user, amount, actor, actorType, None, enforce).reply.Done? {
      PostKeeps(s, user, Entry(Recharge, Cents(amount), actor, actorType));
    }
  }

  lemma NewUserReplays(s: State)
    requires Consistent(s)
    ensures Consistent(CreateUser(s)) && SameOpenings(s, CreateUser(s))
    ensures Opening(CreateUser(s), |s.accounts|) == 0
  {
    var t := CreateUser(s);
    forall i | 0 <= i < |t.log| && t.log[i].balanceAfter.Some?
      ensures t.log[i].user.Some? && Opening(t, t.log[i].user.value) == Opening(s, t.log[i].user.value)
    {
    }
  }

  /** The steps that concern neither accounts nor ledger rows. */
  predicate IsQuiet(step: Step) {
    || step.NewRechargeRequest? || step.RefundDemand? || step.NewItem? || step.ItemEdit?
    || step.StockMove? || step.ProductEdit?
  }

  lemma QuietStep(s: State, step: Step)
    requires IsQuiet(step)
    ensures Apply(s, step).accounts == s.accounts && Apply(s, step).log == s.log
  {
  }

  /** One step: recorded balances keep replaying, and openings do not move. */
  lemma StepReplays(s: State, step: Step)
    requires Consistent(s) && Accounted(s, step)
    ensures Consistent(Apply(s, step)) && SameOpenings(s, Apply(s, step))
  {
    if IsQuiet(step) {
      QuietStep(s, step);
      UntouchedKeeps(s, Apply(s, step));
    } else {
      LoudStepReplays(s, step);
    }
  }

  lemma LoudStepReplays(s: State, step: Step)
    requires Consistent(s) && Accounted(s, step) && !IsQuiet(step)
    ensures Consistent(Apply(s, step)) && SameOpenings(s, Apply(s, step))
  {
    hide Cents, Consistent, Covers;
    match step
    case NewUser => NewUserReplays(s);
    case UserEdit(u, b, l) => if u < |s.accounts| { EditKeeps(s, u, b, l); }
    case PrintStep(u, p, n, c, cost, cups) => PrintReplays(s, u, p, n, c, cost, cups);
    case Reprint(j, a, f, p, cups) =>
      var o := SendReprint(s, j, a, f, p, cups);
      if o.reply.Done? { SilentRowKeeps(s, o.state, o.state.log[|s.log|]); }
    case DirectRecharge(u, x, a, k, e) => RechargeReplays(s, u, x, a, k, e);
    case Adjust(u, x, c, a, k) => AdjustReplays(s, u, x, c, a, k);
    case RechargeDecision(r, ok, a, k) => DecisionReplays(s, r, ok, a, k);
    case RefundDecision(r, st, a) => RefundReplays(s, r, st, a);
    case RefundOverride(j, a) => OverrideReplays(s, j, a);
    case Poll(j, st) => if j < |s.jobs| { PollReplays(s, j, st); }
    case Buy(p, u, q) => BuyReplays(s, p, u, q);
    case PurchaseDecision(p, ok, a, k) => PurchaseReplays(s, p, ok, a, k);
    case NewExpense(x, r, p) =>
      var t := RecordExpense(s, x, r, p);
      SilentRowKeeps(s, t, t.log[|s.log|]);
    case CollectStep(sa, a) => SettleKeeps(s, CollectionEvent(sa, a, Total(s.log, UnsettledBy(a)), FromAdmin));
    case PayStep(sa, a) => SettleKeeps(s, CollectionEvent(sa, a, -Total(s.log, UnsettledBy(a)), ToAdmin));
  }

  /** The one call outside the ledger's discipline is `update_user` with a different balance:
      openings survive a step exactly when the step is accounted for. */
  lemma StepReplaysExactly(s: State, step: Step)
    requires Consistent(s)
    ensures SameOpenings(s, Apply(s, step)) <==> Accounted(s, step)
  {
    if Accounted(s, step) {
      StepReplays(s, step);
    } else {
      EditKeeps(s, step.user, step.balance, step.creditLimit);
    }
  }

  ghost predicate AllAccounted(s: State, steps: seq<Step>)
    decreases |steps|
  {
    steps == [] || (Accounted(s, steps[0]) && AllAccounted(Apply(s, steps[0]), steps[1..]))
  }

  /** Every run: balances replay from the ledger, and so does every recorded balance. */
  lemma {:induction false} RunReplays(s: State, steps: seq<Step>)
    requires Consistent(s) && AllAccounted(s, steps)
    ensures Consistent(Run(s, steps)) && SameOpenings(s, Run(s, steps))
    decreases |steps|
  {
    if steps != [] {
      StepReplays(s, steps[0]);
      RunReplays(Apply(s, steps[0]), steps[1..]);
    }
  }

  ghost predicate AllOpenAtZero(s: State) {
    forall u | 0 <= u < |s.accounts| :: Opening(s, u) == 0
  }

  lemma StepOpensAtZero(s: State, step: Step)
    requires Consistent(s) && Accounted(s, step) && AllOpenAtZero(s)
    ensures AllOpenAtZero(Apply(s, step))
  {
    StepReplays(s, step);
    if step.NewUser? {
      NewUserReplays(s);
    } else {
      OnlyNewUserAdds(s, step);
    }
  }

  lemma OnlyNewUserAdds(s: State, step: Step)
    requires !step.NewUser?
    ensures |Apply(s, step).accounts| == |s.accounts|
  {
  }

  /** From an empty database, a balance is the sum of its user's rows and nothing else. */
  lemma {:induction false} BalanceIsSumOfRows(s: State, steps: seq<Step>)
    requires Consistent(s) && AllAccounted(s, steps) && AllOpenAtZero(s)
    ensures AllOpenAtZero(Run(s, steps))
    decreases |steps|
  {
    if steps != [] {
      StepReplays(s, steps[0]);
      StepOpensAtZero(s, steps[0]);
      BalanceIsSumOfRows(Apply(s, steps[0]), steps[1..]);
    }
  }

  lemma EmptyIsConsistent()
    ensures Consistent(EMPTY) && AllOpenAtZero(EMPTY)
  {
  }
}
