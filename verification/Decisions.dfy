/** Purchases, recharge requests and refund requests are decided once. */
module Decisions {
  import opened Wrappers
  import opened Records
  import opened Money
  import opened Totals
  import opened Operations
  import opened Outcomes
  import Lifecycles

  // ---------- Purchases ----------

  /** 1 once the purchase exists and is not pending any more. */
  function PurchaseResolved(s: State, purchase: Id): int {
    if purchase < |s.purchases| && s.purchases[purchase].status != PurchaseStatus.Pending then 1 else 0
  }

  function PurchaseFulfilled(s: State, purchase: Id): int {
    if purchase < |s.purchases| && s.purchases[purchase].status == PurchaseStatus.Fulfilled then 1 else 0
  }

  predicate DecidesPurchase(s: State, step: Step, purchase: Id) {
    && step.PurchaseDecision? && step.purchase == purchase
    && ResolvePurchase(s, purchase, step.fulfil, step.decidedBy, step.actorType).reply.Done?
  }

  /** How many stock movements a decision of the purchase makes. */
  function StockRows(s: State, step: Step, purchase: Id): int {
    if step.PurchaseDecision? && step.purchase == purchase then
      |ResolvePurchase(s, purchase, step.fulfil, step.decidedBy, step.actorType).state.moves| - |s.moves|
    else 0
  }

  ghost function PurchaseDecisions(s: State, steps: seq<Step>, purchase: Id): nat
    decreases |steps|
  {
    if steps == [] then 0
    else
      (if DecidesPurchase(s, steps[0], purchase) then 1 else 0)
      + PurchaseDecisions(Apply(s, steps[0]), steps[1..], purchase)
  }

  ghost function StockRowsOver(s: State, steps: seq<Step>, purchase: Id): int
    decreases |steps|
  {
    if steps == [] then 0
    else StockRows(s, steps[0], purchase) + StockRowsOver(Apply(s, steps[0]), steps[1..], purchase)
  }

  lemma StepDecidesPurchase(s: State, step: Step, purchase: Id)
    ensures var t := Apply(s, step);
      && PurchaseResolved(t, purchase) - PurchaseResolved(s, purchase)
         == (if DecidesPurchase(s, step, purchase) then 1 else 0)
      && 0 <= StockRows(s, step, purchase) <= PurchaseFulfilled(t, purchase) - PurchaseFulfilled(s, purchase)
  {
    hide Cents, Covers, Total, ResolvePurchase;
    if step.PurchaseDecision? {
      PurchaseDecisionOutcome(s, step.purchase, step.fulfil, step.decidedBy, step.actorType);
      DecisionMovesOnce(s, step.purchase, step.fulfil, step.decidedBy, step.actorType);
    } else {
      OthersKeepPurchases(s, step);
    }
  }

  lemma OthersKeepPurchases(s: State, step: Step)
    requires !step.PurchaseDecision?
    ensures var t := Apply(s, step);
      t.purchases == s.purchases
      || (|t.purchases| == |s.purchases| + 1 && t.purchases == s.purchases + [t.purchases[|s.purchases|]]
          && t.purchases[|s.purchases|].status == PurchaseStatus.Pending)
  {
    hide Cents, Covers, Total, PaperFor;
  }

  lemma DecisionMovesOnce(s: State, purchase: Id, fulfil: bool, actor: Id, actorType: ActorType)
    ensures var o := ResolvePurchase(s, purchase, fulfil, actor, actorType);
      && (!o.reply.Done? ==> o.state == s)
      && |s.moves| <= |o.state.moves| <= |s.moves| + (if o.reply.Done? && fulfil then 1 else 0)
  {
    hide Cents;
  }

  /** Every run carries out at most one decision of a purchase, exactly one if the purchase leaves
      PENDING in it, and takes its stock at most once, and only if it ends fulfilled. */
  lemma {:induction false} PurchaseDecidedOnce(s: State, steps: seq<Step>, purchase: Id)
    ensures PurchaseDecisions(s, steps, purchase)
            == PurchaseResolved(Run(s, steps), purchase) - PurchaseResolved(s, purchase) <= 1
    ensures 0 <= StockRowsOver(s, steps, purchase)
            <= PurchaseFulfilled(Run(s, steps), purchase) - PurchaseFulfilled(s, purchase)
    decreases |steps|
  {
    hide Apply, DecidesPurchase, StockRows;
    if steps != [] {
      StepDecidesPurchase(s, steps[0], purchase);
      PurchaseDecidedOnce(Apply(s, steps[0]), steps[1..], purchase);
    }
  }

  // ---------- Recharge requests ----------

  function RequestResolved(s: State, request: Id): int {
    if request < |s.requests| && s.requests[request].status != RequestStatus.Pending then 1 else 0
  }

  predicate DecidesRequest(s: State, step: Step, request: Id) {
    && step.RechargeDecision? && step.request == request
    && ResolveRecharge(s, request, step.approve, step.decidedBy, step.actorType).reply.Done?
  }

  ghost function RequestDecisions(s: State, steps: seq<Step>, request: Id): nat
    decreases |steps|
  {
    if steps == [] then 0
    else
      (if DecidesRequest(s, steps[0], request) then 1 else 0) + RequestDecisions(Apply(s, steps[0]), steps[1..], request)
  }

  lemma OthersKeepRequests(s: State, step: Step)
    requires !step.RechargeDecision?
    ensures var t := Apply(s, step);
      t.requests == s.requests
      || (|t.requests| == |s.requests| + 1 && t.requests == s.requests + [t.requests[|s.requests|]]
          && t.requests[|s.requests|].status == RequestStatus.Pending)
  {
    hide Cents, Covers, Total, PaperFor;
  }

  lemma RefusedRechargeKeeps(s: State, request: Id, approve: bool, actor: Id, actorType: ActorType)
    ensures var o := ResolveRecharge(s, request, approve, actor, actorType); !o.reply.Done? ==> o.state == s
  {
    hide Cents;
  }

  lemma StepDecidesRequest(s: State, step: Step, request: Id)
    ensures RequestResolved(Apply(s, step), request) - RequestResolved(s, request)
            == (if DecidesRequest(s, step, request) then 1 else 0)
  {
    hide Cents, Covers, Total, ResolveRecharge;
    if step.RechargeDecision? {
      RechargeDecisionOutcome(s, step.request, step.approve, step.decidedBy, step.actorType);
      RefusedRechargeKeeps(s, step.request, step.approve, step.decidedBy, step.actorType);
    } else {
      OthersKeepRequests(s, step);
    }
  }

  /** Every run carries out at most one decision of a recharge request, approval or rejection, and
      exactly one if the request leaves PENDING in it. */
  lemma {:induction false} RequestDecidedOnce(s: State, steps: seq<Step>, request: Id)
    ensures RequestDecisions(s, steps, request)
            == RequestResolved(Run(s, steps), request) - RequestResolved(s, request) <= 1
    decreases |steps|
  {
    hide Apply, DecidesRequest;
    if steps != [] {
      StepDecidesRequest(s, steps[0], request);
      RequestDecidedOnce(Apply(s, steps[0]), steps[1..], request);
    }
  }

  // ---------- Refund requests ----------

  /** 1 once the request has been made and is not pending any more; denied ones may be gone. */
  function RefundResolved(s: State, refund: Id): int {
    if refund < s.nextRefund && !(refund in s.refunds && s.refunds[refund].status == RefundStatus.Pending) then 1 else 0
  }

  predicate DecidesRefund(s: State, step: Step, refund: Id) {
    && step.RefundDecision? && step.refund == refund
    && ResolveRefund(s, refund, step.status, step.admin).reply.Done?
  }

  /** The step makes the request already decided: an override. */
  ghost predicate MadeDecided(s: State, step: Step, refund: Id) {
    step.RefundOverride? && s.nextRefund == refund && OverrideRefund(s, step.job, step.admin).state.nextRefund == refund + 1
  }

  ghost function RefundDecisions(s: State, steps: seq<Step>, refund: Id): nat
    decreases |steps|
  {
    if steps == [] then 0
    else
      (if DecidesRefund(s, steps[0], refund) || MadeDecided(s, steps[0], refund) then 1 else 0)
      + RefundDecisions(Apply(s, steps[0]), steps[1..], refund)
  }

  lemma DecisionResolves(s: State, step: Step, refund: Id)
    requires Lifecycles.NumbersAhead(s) && step.RefundDecision?
    ensures RefundResolved(Apply(s, step), refund) - RefundResolved(s, refund)
            == (if DecidesRefund(s, step, refund) then 1 else 0)
  {
    hide Cents;
  }

  lemma OverrideResolves(s: State, step: Step, refund: Id)
    requires Lifecycles.NumbersAhead(s) && step.RefundOverride?
    ensures RefundResolved(Apply(s, step), refund) - RefundResolved(s, refund)
            == (if MadeDecided(s, step, refund) then 1 else 0)
  {
    hide Cents;
  }

  lemma DemandResolvesNothing(s: State, step: Step, refund: Id)
    requires Lifecycles.NumbersAhead(s) && step.RefundDemand?
    ensures RefundResolved(Apply(s, step), refund) == RefundResolved(s, refund)
  {
  }

  lemma PollKeepsRequests(s: State, step: Step)
    requires step.Poll?
    ensures Apply(s, step).refunds == s.refunds && Apply(s, step).nextRefund == s.nextRefund
  {
    hide Cents, PaperFor;
  }

  lemma StepDecidesRefund(s: State, step: Step, refund: Id)
    requires Lifecycles.NumbersAhead(s)
    ensures RefundResolved(Apply(s, step), refund) - RefundResolved(s, refund)
            == (if DecidesRefund(s, step, refund) || MadeDecided(s, step, refund) then 1 else 0)
  {
    hide Apply;
    if step.RefundDecision? {
      DecisionResolves(s, step, refund);
    } else if step.RefundOverride? {
      OverrideResolves(s, step, refund);
    } else if step.RefundDemand? {
      DemandResolvesNothing(s, step, refund);
    } else if step.Poll? {
      PollKeepsRequests(s, step);
    } else {
      Lifecycles.OtherStepKeeps(s, step);
    }
  }

  /** Every run decides a refund request at most once, be it approved, denied or made by an override,
      even if a denied one is deleted and the job's refund demanded again. */
  lemma {:induction false} RefundDecidedOnce(s: State, steps: seq<Step>, refund: Id)
    requires Lifecycles.NumbersAhead(s)
    ensures RefundDecisions(s, steps, refund)
            == RefundResolved(Run(s, steps), refund) - RefundResolved(s, refund) <= 1
    decreases |steps|
  {
    hide Apply, DecidesRefund, MadeDecided, Lifecycles.NumbersAhead;
    if steps != [] {
      Lifecycles.StepProgresses(s, steps[0]);
      StepDecidesRefund(s, steps[0], refund);
      RefundDecidedOnce(Apply(s, steps[0]), steps[1..], refund);
    }
  }
}
