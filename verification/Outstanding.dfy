/** What makes an administrator owe, or be owed: exactly recharges taken and expenses fronted. */
module Outstanding {
  import opened Wrappers
  import opened Records
  import opened Totals
  import opened Money
  import opened Operations
  import opened Outcomes
  import Settlement

  predicate IsAdministrator(actorType: ActorType) {
    actorType == ActorType.Admin || actorType == SuperAdmin
  }

  /** How much more the administrator owes the house after a step. */
  function Owed(s: State, step: Step, admin: Id): int {
    match step
    case DirectRecharge(user, amount, actor, actorType, enforce) =>
      if actor == Some(admin) && IsAdministrator(actorType) && user < |s.accounts|
         && (enforce ==> Spare(s, user, -Cents(amount)) >= 0)
      then Cents(amount) else 0
    case RechargeDecision(request, approve, decidedBy, actorType) =>
      if approve && decidedBy == admin && IsAdministrator(actorType) && request < |s.requests|
         && s.requests[request].status == RequestStatus.Pending && s.requests[request].user < |s.accounts|
      then Cents(s.requests[request].amount) else 0
    case NewExpense(amount, recorder, payer) =>
      if (if payer.Some? then payer.value else recorder) == admin then
        (if Cents(amount) >= 0 then -Cents(amount) else Cents(amount))
      else 0
    case CollectStep(_, collected) =>
      if collected == admin && Net(s, admin) > 0 then -Net(s, admin) else 0
    case PayStep(_, paid) =>
      if paid == admin && Net(s, admin) < 0 then -Net(s, admin) else 0
    case _ => 0
  }

  /** `get_outstanding_for_admin`. */
  function Net(s: State, admin: Id): int {
    Total(s.log, UnsettledBy(admin))
  }

  lemma RowAdds(s: State, t: State, row: Tx, admin: Id)
    requires t.log == s.log + [row]
    ensures Net(t, admin)
            == Net(s, admin)
               + (if (row.kind == Recharge || row.kind == Expense) && IsAdministrator(row.actorType)
                     && row.actor == Some(admin) && row.event == None
                  then row.amount else 0)
  {
    TotalAppend(s.log, row);
  }

  lemma DirectRechargeOwes(s: State, step: Step, admin: Id)
    requires step.DirectRecharge?
    ensures Net(Apply(s, step), admin) == Net(s, admin) + Owed(s, step, admin)
  {
    RechargeOutcome(s, step.user, step.amount, step.actor, step.actorType, None, step.enforce);
    hide Cents;
    var t := Apply(s, step);
    if t.log != s.log {
      RowAdds(s, t, t.log[|s.log|], admin);
    }
  }

  lemma RechargeDecisionOwes(s: State, step: Step, admin: Id)
    requires step.RechargeDecision?
    ensures Net(Apply(s, step), admin) == Net(s, admin) + Owed(s, step, admin)
  {
    RechargeDecisionOutcome(s, step.request, step.approve, step.decidedBy, step.actorType);
    hide Cents;
    var t := Apply(s, step);
    if t.log != s.log {
      RowAdds(s, t, t.log[|s.log|], admin);
    }
  }

  lemma ExpenseOwes(s: State, step: Step, admin: Id)
    requires step.NewExpense?
    ensures Net(Apply(s, step), admin) == Net(s, admin) + Owed(s, step, admin)
  {
    ExpenseOutcome(s, step.amount, step.recorder, step.payer);
    hide Cents;
    RowAdds(s, Apply(s, step), Apply(s, step).log[|s.log|], admin);
  }

  lemma SettlementOwes(s: State, step: Step, admin: Id)
    requires Settlement.BooksInOrder(s) && (step.CollectStep? || step.PayStep?)
    ensures Net(Apply(s, step), admin) == Net(s, admin) + Owed(s, step, admin)
  {
    var net := Net(s, step.admin);
    var event := if step.CollectStep? then CollectionEvent(step.superAdmin, step.admin, net, FromAdmin)
                 else CollectionEvent(step.superAdmin, step.admin, -net, ToAdmin);
    if (step.CollectStep? && net > 0) || (step.PayStep? && net < 0) {
      assert Apply(s, step) == Settle(s, event);
      Settlement.TagTotals(s.log, step.admin, |s.events|);
    }
  }

  predicate IsRefundOrPoll(step: Step) {
    step.RefundDemand? || step.RefundDecision? || step.RefundOverride? || step.Poll?
  }

  /** Prints, reprints, refunds, polls, purchases and adjustments write rows of other kinds. */
  ghost predicate AddsOtherRow(s: State, t: State) {
    t.log == s.log
    || (|t.log| == |s.log| + 1 && t.log == s.log + [t.log[|s.log|]]
        && t.log[|s.log|].kind in {Print, FreeReprint, Refund, ProductPurchase, Adjustment})
  }

  lemma RefundAddsOtherRow(s: State, step: Step)
    requires IsRefundOrPoll(step)
    ensures AddsOtherRow(s, Apply(s, step))
  {
    hide Cents, PaperFor;
  }

  lemma OtherStepAddsOtherRow(s: State, step: Step)
    requires !step.DirectRecharge? && !step.RechargeDecision? && !step.NewExpense? && !step.CollectStep? && !step.PayStep?
    ensures AddsOtherRow(s, Apply(s, step))
  {
    hide Cents, Covers, Total;
    if IsRefundOrPoll(step) {
      hide Apply;
      RefundAddsOtherRow(s, step);
    }
  }

  /** Every step, and every administrator: a recharge taken adds its rounded amount to what its
      taker owes, an expense takes its amount off what its payer owes, a settlement clears it, and
      nothing else moves it. */
  lemma StepOwesExactly(s: State, step: Step, admin: Id)
    requires Settlement.BooksInOrder(s)
    ensures Net(Apply(s, step), admin) == Net(s, admin) + Owed(s, step, admin)
  {
    hide Apply, Net, Cents, Settlement.BooksInOrder;
    if step.DirectRecharge? {
      DirectRechargeOwes(s, step, admin);
    } else if step.RechargeDecision? {
      RechargeDecisionOwes(s, step, admin);
    } else if step.NewExpense? {
      ExpenseOwes(s, step, admin);
    } else if step.CollectStep? || step.PayStep? {
      SettlementOwes(s, step, admin);
    } else {
      OtherStepAddsOtherRow(s, step);
      OtherRowOwesNothing(s, Apply(s, step), admin);
    }
  }

  lemma OtherRowOwesNothing(s: State, t: State, admin: Id)
    requires AddsOtherRow(s, t)
    ensures Net(t, admin) == Net(s, admin)
  {
    if t.log != s.log {
      RowAdds(s, t, t.log[|s.log|], admin);
    }
  }

  ghost function OwedOver(s: State, steps: seq<Step>, admin: Id): int
    decreases |steps|
  {
    if steps == [] then 0 else Owed(s, steps[0], admin) + OwedOver(Apply(s, steps[0]), steps[1..], admin)
  }

  /** Every run: what an administrator owes at its end is what its steps made of it. */
  lemma {:induction false} RunOwesExactly(s: State, steps: seq<Step>, admin: Id)
    requires Settlement.BooksInOrder(s)
    ensures Net(Run(s, steps), admin) == Net(s, admin) + OwedOver(s, steps, admin)
    decreases |steps|
  {
    hide Apply, Net, Owed, Settlement.BooksInOrder;
    if steps != [] {
      Settlement.StepKeeps(s, steps[0]);
      StepOwesExactly(s, steps[0], admin);
      RunOwesExactly(Apply(s, steps[0]), steps[1..], admin);
    }
  }

  /** Taken on an even account, a recharge can be collected, in full and in one event. */
  lemma RechargeIsCollected(s: State, user: Id, amount: real, admin: Id, actorType: ActorType, superAdmin: Id)
    requires Settlement.BooksInOrder(s) && Net(s, admin) == 0
    requires user < |s.accounts| && IsAdministrator(actorType) && Cents(amount) > 0
    ensures var taken := Apply(s, DirectRecharge(user, amount, Some(admin), actorType, false));
            var o := Collect(taken, superAdmin, admin);
      && o.reply.Done?
      && o.state.events == s.events + [CollectionEvent(superAdmin, admin, Cents(amount), FromAdmin)]
      && Net(o.state, admin) == 0
  {
    hide Cents;
    var step := DirectRecharge(user, amount, Some(admin), actorType, false);
    Settlement.StepKeeps(s, step);
    StepOwesExactly(s, step, admin);
    SettlementOwes(Apply(s, step), CollectStep(superAdmin, admin), admin);
  }
}
