/** What calls undo, and what a refused call leaves behind. */
module Effects {
  import opened Wrappers
  import opened Records
  import opened Totals
  import opened Money
  import opened Operations
  import JobMoney

  /** The outcome of a step that can be refused. */
  ghost function OutcomeOf(s: State, step: Step): Option<Outcome> {
    match step
    case PrintStep(u, p, n, c, cost, cups) => Some(SendPrint(s, u, p, n, c, cost, cups))
    case Reprint(j, a, f, p, cups) => Some(SendReprint(s, j, a, f, p, cups))
    case DirectRecharge(u, x, a, t, e) => Some(RecordRecharge(s, u, x, a, t, None, e))
    case Adjust(u, x, c, a, t) => Some(RecordAdjustment(s, u, x, c, a, t))
    case NewRechargeRequest(u, x) => Some(CreateRechargeRequest(s, u, x))
    case RechargeDecision(r, ok, a, t) => Some(ResolveRecharge(s, r, ok, a, t))
    case RefundDemand(j, u) => Some(RequestRefund(s, j, u))
    case RefundDecision(r, st, a) => Some(ResolveRefund(s, r, st, a))
    case RefundOverride(j, a) => Some(OverrideRefund(s, j, a))
    case Buy(p, u, q) => Some(BuyProduct(s, p, u, q))
    case PurchaseDecision(p, ok, a, t) => Some(ResolvePurchase(s, p, ok, a, t))
    case CollectStep(sa, a) => Some(Collect(s, sa, a))
    case PayStep(sa, a) => Some(PayBack(s, sa, a))
    case _ => None
  }

  /** An override that gets past its checks on the job but cannot be carried out, because the row of
      the administrator or of the job's owner is gone: the one refused call that could leave
      something behind. */
  ghost predicate LeavesTrace(s: State, step: Step) {
    && step.RefundOverride?
    && step.job < |s.jobs| && s.jobs[step.job].status.Completed?
    && (HasRefund(s, step.job) ==> s.refunds[RefundOf(s, step.job)].status.Denied?)
    && (if step.admin >= |s.accounts| then HasRefund(s, step.job) else s.jobs[step.job].user >= |s.accounts|)
  }

  /** In every reachable state, and for administrators whose rows exist, a refused call changes
      nothing at all. */
  lemma RefusedChangesNothing(s: State, steps: seq<Step>, step: Step)
    requires JobMoney.JobsInOrder(s)
    requires var t := Run(s, steps);
      && (step.RefundOverride? ==> step.admin < |t.accounts|)
      && OutcomeOf(t, step).Some? && !OutcomeOf(t, step).value.reply.Done?
    ensures Apply(Run(s, steps), step) == Run(s, steps)
  {
    JobMoney.RunRefundsOnce(s, steps);
    RefusedChangesNothingExactly(Run(s, steps), step);
  }

  /** Without those assumptions, a refused call changes the database if and only if it is an
      override that leaves that trace. */
  lemma RefusedChangesNothingExactly(s: State, step: Step)
    requires OutcomeOf(s, step).Some? && !OutcomeOf(s, step).value.reply.Done?
    ensures Apply(s, step) == OutcomeOf(s, step).value.state
    ensures Apply(s, step) == s <==> !LeavesTrace(s, step)
  {
    if step.RefundOverride? {
      OverrideTrace(s, step.job, step.admin);
    }
  }

  lemma OverrideTrace(s: State, job: Id, admin: Id)
    requires !OverrideRefund(s, job, admin).reply.Done?
    ensures OverrideRefund(s, job, admin).state == s <==> !LeavesTrace(s, RefundOverride(job, admin))
  {
    if HasRefund(s, job) {
      var cleared := s.refunds - {RefundOf(s, job)};
      assert RefundOf(s, job) !in cleared;
    }
  }

  // ---------- Undoing ----------

  lemma DebitCredit(accounts: seq<Account>, user: Id, amount: int)
    requires user < |accounts|
    ensures var debited := accounts[user := accounts[user].(balance := accounts[user].balance - amount)];
            debited[user := debited[user].(balance := debited[user].balance + amount)] == accounts
  {
  }

  /** Printing and then failing, or completing and being overridden, gives every balance back. */
  lemma PrintIsUndone(s: State, user: Id, printer: Id, pages: nat, color: bool, cost: real, cups: int,
                      status: JobStatus, admin: Id)
    requires SendPrint(s, user, printer, pages, color, cost, Some(cups)).reply.Done?
    requires InError(status) && admin < |s.accounts| && !HasRefund(s, |s.jobs|)
    ensures var printed := SendPrint(s, user, printer, pages, color, cost, Some(cups)).state;
            var failed := Apply(printed, Poll(|s.jobs|, Some(status)));
            var completed := Apply(printed, Poll(|s.jobs|, Some(Completed)));
            var o := OverrideRefund(completed, |s.jobs|, admin);
      && failed.accounts == s.accounts
      && o.reply.Done? && o.state.accounts == s.accounts
  {
    hide Cents, PaperFor;
    var printed := SendPrint(s, user, printer, pages, color, cost, Some(cups)).state;
    var completed := Apply(printed, Poll(|s.jobs|, Some(Completed)));
    CompletedShape(printed, |s.jobs|);
    assert !HasRefund(completed, |s.jobs|);
    DebitCredit(s.accounts, user, Cents(cost));
  }

  lemma CompletedShape(s: State, job: Id)
    requires job < |s.jobs| && s.jobs[job].status.Pending?
    ensures var t := Apply(s, Poll(job, Some(Completed)));
      && t.accounts == s.accounts && t.refunds == s.refunds && t.nextRefund == s.nextRefund
      && t.jobs == s.jobs[job := s.jobs[job].(status := Completed)]
  {
    hide Cents, PaperFor;
  }

  /** Buying and then being rejected gives every balance back and moves no stock. */
  lemma BuyThenRejectRestores(s: State, product: Id, user: Id, quantity: nat, actor: Id, actorType: ActorType)
    requires BuyProduct(s, product, user, quantity).reply.Done?
    ensures var o := ResolvePurchase(BuyProduct(s, product, user, quantity).state, |s.purchases|, false, actor, actorType);
      && o.reply.Done? && o.state.accounts == s.accounts && o.state.items == s.items && o.state.moves == s.moves
  {
    DebitCredit(s.accounts, user, s.products[product].price * quantity);
  }

  /** An adjustment that reads the balance itself succeeds exactly when the rounded target is
      within the user's limit, and then leaves exactly that balance; adjusting back undoes it. */
  lemma AdjustmentReachesTarget(s: State, user: Id, target: real, actor: Option<Id>, actorType: ActorType)
    ensures var o := RecordAdjustment(s, user, target, None, actor, actorType);
      && (o.reply.Done? <==> user < |s.accounts| && Cents(target) + s.accounts[user].creditLimit >= 0)
      && (o.reply.Done? ==> o.state.accounts == s.accounts[user := s.accounts[user].(balance := Cents(target))])
      && (o.reply.Done? && Covers(s.accounts[user], 0) ==>
            var back := RecordAdjustment(o.state, user, Amount(s.accounts[user].balance), None, actor, actorType);
            back.reply.Done? && back.state.accounts == s.accounts)
  {
    hide Cents;
    if user < |s.accounts| {
      CentsOfAmount(s.accounts[user].balance);
    }
  }

  /** Two recharges have the effect of one of their sum, but for at most one cent of rounding. */
  lemma RechargesAdd(s: State, user: Id, a: real, b: real, actor: Option<Id>, actorType: ActorType)
    requires user < |s.accounts|
    ensures var first := RecordRecharge(s, user, a, actor, actorType, None, false).state;
            var both := RecordRecharge(first, user, b, actor, actorType, None, false).state;
            var once := RecordRecharge(s, user, a + b, actor, actorType, None, false).state;
            -1 <= both.accounts[user].balance - once.accounts[user].balance <= 1
  {
    CentsIsHalfUp(a, Cents(a));
    CentsIsHalfUp(b, Cents(b));
    CentsIsHalfUp(a + b, Cents(a + b));
  }
}
