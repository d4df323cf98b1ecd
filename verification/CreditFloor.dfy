/** No account falls below its credit limit, and exactly which calls could push one there. */
module CreditFloor {
  import opened Wrappers
  import opened Records
  import opened Totals
  import opened Money
  import opened Operations

  ghost predicate Floor(s: State) {
    forall u | 0 <= u < |s.accounts| :: Covers(s.accounts[u], 0)
  }

  datatype Change = Change(user: Id, delta: int)

  /** The balance change a step makes without asking the credit limit, if it makes one. */
  function Unguarded(s: State, step: Step): (c: Option<Change>)
    ensures c.Some? ==> c.value.user < |s.accounts|
  {
    match step
    case DirectRecharge(u, x, _, _, e) =>
      if u >= |s.accounts| || e then None else Some(Change(u, Cents(x)))
    case RechargeDecision(r, ok, _, _) =>
      if !ok || r >= |s.requests| || !s.requests[r].status.Pending? || s.requests[r].user >= |s.accounts| then None
      else Some(Change(s.requests[r].user, Cents(s.requests[r].amount)))
    case RefundDecision(r, st, _) =>
      if r !in s.refunds || !s.refunds[r].status.Pending? || !st.Approved? then None
      else JobCredit(s, s.refunds[r].job)
    case PurchaseDecision(p, ok, _, _) =>
      if p >= |s.purchases| || !s.purchases[p].status.Pending? || ok || s.purchases[p].user >= |s.accounts| then None
      else Some(Change(s.purchases[p].user, s.purchases[p].total))
    case Poll(j, st) =>
      if j < |s.jobs| && InTransit(s.jobs[j].status) && st.Some? && InError(st.value) then JobCredit(s, j) else None
    case _ => None
  }

  function JobCredit(s: State, job: Id): (c: Option<Change>)
    ensures c.Some? ==> c.value.user < |s.accounts|
  {
    if job >= |s.jobs| || s.jobs[job].user >= |s.accounts| then None
    else Some(Change(s.jobs[job].user, s.jobs[job].cost))
  }

  /** The override passes every check of its route. */
  ghost predicate MayOverride(s: State, job: Id, admin: Id) {
    && job < |s.jobs| && s.jobs[job].status.Completed?
    && (HasRefund(s, job) ==> s.refunds[RefundOf(s, job)].status.Denied?)
    && admin < |s.accounts| && s.jobs[job].user < |s.accounts|
  }

  /** What a caller can check beforehand: the unguarded change, if any, fits the credit limit, and
      an edit leaves a balance and a limit that fit each other. */
  ghost predicate Solvent(s: State, step: Step) {
    if step.RefundOverride? then
      MayOverride(s, step.job, step.admin) ==> Covers(s.accounts[s.jobs[step.job].user], s.jobs[step.job].cost)
    else if step.UserEdit? then
      step.user < |s.accounts| ==>
        (if step.balance.Some? then Cents(step.balance.value) else s.accounts[step.user].balance)
        + (if step.creditLimit.Some? then Cents(step.creditLimit.value) else s.accounts[step.user].creditLimit) >= 0
    else
      Unguarded(s, step).Some? ==>
        Covers(s.accounts[Unguarded(s, step).value.user], Unguarded(s, step).value.delta)
  }

  /** The spare credit of every account but `user` is the same in both states. */
  ghost predicate OnlyTouches(s: State, t: State, user: Id, delta: int) {
    && user < |s.accounts| == |t.accounts|
    && (forall u | 0 <= u < |s.accounts| && u != user :: t.accounts[u] == s.accounts[u])
    && t.accounts[user].balance + t.accounts[user].creditLimit
       == s.accounts[user].balance + s.accounts[user].creditLimit + delta
  }

  lemma TouchedFloor(s: State, t: State, user: Id, delta: int)
    requires Floor(s) && OnlyTouches(s, t, user, delta)
    ensures Floor(t) <==> Covers(s.accounts[user], delta)
  {
    if Covers(s.accounts[user], delta) {
      assert Covers(t.accounts[user], 0);
    } else {
      assert !Covers(t.accounts[user], 0);
    }
  }

  lemma UnguardedTouches(s: State, step: Step)
    requires Unguarded(s, step).Some?
    ensures OnlyTouches(s, Apply(s, step), Unguarded(s, step).value.user, Unguarded(s, step).value.delta)
  {
  }

  lemma GuardedKeepsFloor(s: State, step: Step)
    requires Floor(s) && Unguarded(s, step).None? && !step.RefundOverride? && !step.UserEdit?
    ensures Floor(Apply(s, step))
  {
    hide Cents;
    var t := Apply(s, step);
    if step.PrintStep? {
      GuardedPost(s, t, step.user, -Cents(step.cost));
    } else if step.DirectRecharge? {
      GuardedPost(s, t, step.user, Cents(step.amount));
    } else if step.Adjust? {
      if step.user < |s.accounts| {
        var base := if step.current.Some? then Cents(step.current.value) else s.accounts[step.user].balance;
        GuardedPost(s, t, step.user, Cents(step.target) - base);
      }
    } else if step.Buy? {
      if step.product < |s.products| {
        GuardedPost(s, t, step.user, -(s.products[step.product].price * step.quantity));
      }
    }
  }

  lemma GuardedPost(s: State, t: State, user: Id, delta: int)
    requires Floor(s)
    requires t.accounts == s.accounts
             || (OnlyTouches(s, t, user, delta) && Covers(s.accounts[user], delta))
    ensures Floor(t)
  {
    if t.accounts != s.accounts {
      TouchedFloor(s, t, user, delta);
    }
  }

  lemma OverrideTouches(s: State, job: Id, admin: Id)
    requires Floor(s)
    ensures Floor(OverrideRefund(s, job, admin).state) <==> Solvent(s, RefundOverride(job, admin))
  {
    var o := OverrideRefund(s, job, admin);
    if MayOverride(s, job, admin) {
      TouchedFloor(s, o.state, s.jobs[job].user, s.jobs[job].cost);
    }
  }

  lemma EditTouches(s: State, step: Step)
    requires Floor(s) && step.UserEdit?
    ensures Floor(Apply(s, step)) <==> Solvent(s, step)
  {
    hide Cents;
    if step.user < |s.accounts| {
      var a, t := s.accounts[step.user], Apply(s, step);
      var delta := t.accounts[step.user].balance + t.accounts[step.user].creditLimit - a.balance - a.creditLimit;
      TouchedFloor(s, t, step.user, delta);
    }
  }

  /** One step keeps the floor exactly when its unguarded change is covered. */
  lemma StepKeepsFloorExactly(s: State, step: Step)
    requires Floor(s)
    ensures Floor(Apply(s, step)) <==> Solvent(s, step)
  {
    if step.RefundOverride? {
      OverrideTouches(s, step.job, step.admin);
    } else if step.UserEdit? {
      EditTouches(s, step);
    } else if Unguarded(s, step).Some? {
      UnguardedTouches(s, step);
      TouchedFloor(s, Apply(s, step), Unguarded(s, step).value.user, Unguarded(s, step).value.delta);
    } else {
      GuardedKeepsFloor(s, step);
    }
  }

  /** Prices, costs and requested amounts are never negative. */
  ghost predicate NonNegative(s: State) {
    && (forall j | 0 <= j < |s.jobs| :: s.jobs[j].cost >= 0)
    && (forall p | 0 <= p < |s.products| :: s.products[p].price >= 0)
    && (forall p | 0 <= p < |s.purchases| :: s.purchases[p].total >= 0)
    && (forall r | 0 <= r < |s.requests| :: s.requests[r].amount >= 0.0)
  }

  /** The step carries no negative price or recharge, and is not a direct edit of an account. */
  ghost predicate Priced(step: Step) {
    match step
    case PrintStep(_, _, _, _, cost, _) => cost >= 0.0
    case DirectRecharge(_, x, _, _, _) => x >= 0.0
    case ProductEdit(ps) => forall p | 0 <= p < |ps| :: ps[p].price >= 0
    case UserEdit(_, _, _) => false
    case _ => true
  }

  lemma StepStaysNonNegative(s: State, step: Step)
    requires NonNegative(s) && Priced(step)
    ensures NonNegative(Apply(s, step))
  {
    hide Cents;
    if step.PrintStep? {
      CentsIsMonotone(0.0, step.cost);
      ZeroCents();
    } else if step.Buy? {
      if step.product < |s.products| {
        BuyStaysNonNegative(s, step);
      }
    } else {
      OtherStaysNonNegative(s, step);
    }
  }

  lemma ZeroCents()
    ensures Cents(0.0) == 0
  {
  }

  /** The same prices and costs, and recharge requests whose amounts are the same. */
  lemma OtherStaysNonNegative(s: State, step: Step)
    requires NonNegative(s) && Priced(step) && !step.PrintStep? && !step.Buy?
    ensures NonNegative(Apply(s, step))
  {
    var t := Apply(s, step);
    if step.RefundDecision? || step.RefundOverride? || step.RefundDemand? || step.Poll? {
      JobsKeepCost(s, step);
    } else {
      hide Cents, Tag, Total, HasRefund, TakePaper;
    }
  }

  lemma JobsKeepCost(s: State, step: Step)
    requires step.RefundDecision? || step.RefundOverride? || step.RefundDemand? || step.Poll?
    ensures var t := Apply(s, step);
      && t.products == s.products && t.purchases == s.purchases && t.requests == s.requests
      && |t.jobs| == |s.jobs| && (forall j | 0 <= j < |s.jobs| :: t.jobs[j].cost == s.jobs[j].cost)
  {
    hide Cents, PaperFor;
  }

  lemma BuyStaysNonNegative(s: State, step: Step)
    requires NonNegative(s) && step.Buy? && step.product < |s.products|
    ensures NonNegative(Apply(s, step))
  {
    var price, quantity := s.products[step.product].price, step.quantity;
    assert price * quantity >= 0;
  }

  lemma PricedIsSolvent(s: State, step: Step)
    requires Floor(s) && NonNegative(s) && Priced(step)
    ensures Solvent(s, step)
  {
    match step
    case DirectRecharge(u, x, _, _, _) => CentsIsMonotone(0.0, x);
    case RechargeDecision(r, _, _, _) => if r < |s.requests| { CentsIsMonotone(0.0, s.requests[r].amount); }
    case _ =>
  }

  /** Every run without negative prices or recharges keeps every account above its limit. */
  lemma {:induction false} RunKeepsFloor(s: State, steps: seq<Step>)
    requires Floor(s) && NonNegative(s)
    requires forall i | 0 <= i < |steps| :: Priced(steps[i])
    ensures Floor(Run(s, steps)) && NonNegative(Run(s, steps))
    decreases |steps|
  {
    if steps != [] {
      PricedIsSolvent(s, steps[0]);
      StepKeepsFloorExactly(s, steps[0]);
      StepStaysNonNegative(s, steps[0]);
      RunKeepsFloor(Apply(s, steps[0]), steps[1..]);
    }
  }

  /** The Telegram recharge leaves the sign of the amount open and asks for no credit check, so
      one unit taken from a fresh account leaves it below its limit. */
  lemma NegativeRechargeBreaksFloor()
    ensures var s := EMPTY.(accounts := [Account(0, 0)]);
            Floor(s) && !Floor(Apply(s, DirectRecharge(0, -1.0, Some(0), ActorType.Admin, false)))
  {
    var s := EMPTY.(accounts := [Account(0, 0)]);
    CentsIsHalfUp(-1.0, -100);
    StepKeepsFloorExactly(s, DirectRecharge(0, -1.0, Some(0), ActorType.Admin, false));
  }
}
