/** A recharge request is credited exactly when it is approved, and only once. */
module RequestMoney {
  import opened Wrappers
  import opened Records
  import opened Totals
  import opened Money
  import opened Operations

  /** A request is approved exactly when one row refers to it, and that row recharges the
      requester by the requested amount rounded to cents. */
  ghost predicate Balanced(s: State, request: Id) {
    if request < |s.requests| then
      var r := s.requests[request];
      var credits := if r.status.Approved? then 1 else 0;
      && r.user < |s.accounts|
      && Total(s.log, RowsOfRequest(request)) == credits
      && Total(s.log, RechargesOfRequest(request, r.user, Cents(r.amount))) == credits
    else
      Total(s.log, RowsOfRequest(request)) == 0
  }

  ghost predicate RequestsInOrder(s: State) {
    && (forall r: Id :: Balanced(s, r))
    && (forall i | 0 <= i < |s.log| && s.log[i].request.Some? :: s.log[i].request.value < |s.requests|)
  }

  /** No row refers to a request that does not exist, so no recharge of one can be counted either. */
  lemma {:induction false} NoRechargesAhead(log: seq<Tx>, request: Id, user: Id, amount: int)
    requires forall i | 0 <= i < |log| :: log[i].request != Some(request)
    ensures Total(log, RechargesOfRequest(request, user, amount)) == 0
  {
    if log != [] {
      NoRechargesAhead(log[..|log| - 1], request, user, amount);
    }
  }

  lemma ElsewhereKeeps(s: State, t: State)
    requires RequestsInOrder(s) && t.requests == s.requests && |t.accounts| >= |s.accounts|
    requires forall i | 0 <= i < |t.log| && t.log[i].request.Some? ::
               i < |s.log| && t.log[i].request == s.log[i].request
    requires forall r: Id :: Total(t.log, RowsOfRequest(r)) == Total(s.log, RowsOfRequest(r))
    requires forall r: Id, u: Id, a: int ::
               Total(t.log, RechargesOfRequest(r, u, a)) == Total(s.log, RechargesOfRequest(r, u, a))
    ensures RequestsInOrder(t)
  {
    forall r: Id ensures Balanced(t, r) {
      assert Balanced(s, r);
    }
  }

  lemma UnlinkedRowKeeps(s: State, t: State, row: Tx)
    requires RequestsInOrder(s) && t.requests == s.requests && |t.accounts| >= |s.accounts|
    requires t.log == s.log + [row] && row.request.None?
    ensures RequestsInOrder(t)
  {
    TotalAppend(s.log, row);
    ElsewhereKeeps(s, t);
  }

  lemma SettleKeeps(s: State, event: CollectionEvent)
    requires RequestsInOrder(s)
    ensures RequestsInOrder(Settle(s, event))
  {
    var t := Settle(s, event);
    forall r: Id ensures Total(t.log, RowsOfRequest(r)) == Total(s.log, RowsOfRequest(r)) {
      TotalAlike(t.log, s.log, RowsOfRequest(r));
    }
    forall r: Id, u: Id, a: int
      ensures Total(t.log, RechargesOfRequest(r, u, a)) == Total(s.log, RechargesOfRequest(r, u, a))
    {
      TotalAlike(t.log, s.log, RechargesOfRequest(r, u, a));
    }
    ElsewhereKeeps(s, t);
  }

  lemma NewRequestKeeps(s: State, user: Id, amount: real)
    requires RequestsInOrder(s)
    ensures RequestsInOrder(CreateRechargeRequest(s, user, amount).state)
  {
    var o := CreateRechargeRequest(s, user, amount);
    if o.reply.Done? {
      NoRechargesAhead(s.log, |s.requests|, user, Cents(amount));
      forall r: Id ensures Balanced(o.state, r) {
        assert Balanced(s, r);
      }
    }
  }

  lemma DecisionKeeps(s: State, request: Id, approve: bool, actor: Id, actorType: ActorType)
    requires RequestsInOrder(s)
    ensures RequestsInOrder(ResolveRecharge(s, request, approve, actor, actorType).state)
  {
    var o := ResolveRecharge(s, request, approve, actor, actorType);
    if o.reply.Done? {
      if approve {
        TotalAppend(s.log, o.state.log[|s.log|]);
        assert o.state.log == s.log + [o.state.log[|s.log|]];
      }
      forall r: Id ensures Balanced(o.state, r) {
        assert Balanced(s, r);
      }
    }
  }

  predicate WritesNoRow(step: Step) {
    || step.NewUser? || step.UserEdit? || step.RefundDemand? || step.NewItem? || step.ItemEdit?
    || step.StockMove? || step.ProductEdit?
  }

  lemma NoRowStep(s: State, step: Step)
    requires RequestsInOrder(s) && WritesNoRow(step)
    ensures RequestsInOrder(Apply(s, step))
  {
    ElsewhereKeeps(s, Apply(s, step));
  }

  predicate WritesUnlinkedRow(step: Step) {
    || step.PrintStep? || step.Reprint? || step.DirectRecharge? || step.Adjust? || step.NewExpense?
    || step.RefundDecision? || step.RefundOverride? || step.Poll? || step.Buy? || step.PurchaseDecision?
  }

  lemma UnlinkedStepShape(s: State, step: Step)
    requires WritesUnlinkedRow(step)
    ensures AddsUnlinkedRow(s, Apply(s, step))
  {
    hide Cents, Covers, Total;
    if step.RefundDecision? || step.RefundOverride? || step.Poll? {
      RefundStepShape(s, step);
    }
  }

  ghost predicate AddsUnlinkedRow(s: State, t: State) {
    && t.requests == s.requests && |t.accounts| == |s.accounts|
    && (t.log == s.log
        || (|t.log| == |s.log| + 1 && t.log == s.log + [t.log[|s.log|]] && t.log[|s.log|].request.None?))
  }

  lemma RefundStepShape(s: State, step: Step)
    requires step.RefundDecision? || step.RefundOverride? || step.Poll?
    ensures AddsUnlinkedRow(s, Apply(s, step))
  {
    hide Cents, PaperFor;
  }

  lemma StepKeeps(s: State, step: Step)
    requires RequestsInOrder(s)
    ensures RequestsInOrder(Apply(s, step))
  {
    if WritesNoRow(step) {
      NoRowStep(s, step);
    } else if WritesUnlinkedRow(step) {
      UnlinkedStepShape(s, step);
      var t := Apply(s, step);
      if t.log == s.log {
        ElsewhereKeeps(s, t);
      } else {
        UnlinkedRowKeeps(s, t, t.log[|s.log|]);
      }
    } else {
      match step
      case NewRechargeRequest(u, x) => NewRequestKeeps(s, u, x);
      case RechargeDecision(r, ok, a, k) => DecisionKeeps(s, r, ok, a, k);
      case CollectStep(sa, a) => SettleKeeps(s, CollectionEvent(sa, a, Total(s.log, UnsettledBy(a)), FromAdmin));
      case PayStep(sa, a) => SettleKeeps(s, CollectionEvent(sa, a, -Total(s.log, UnsettledBy(a)), ToAdmin));
    }
  }

  lemma StepFreezes(s: State, step: Step, request: Id)
    requires request < |s.requests|
    ensures request < |Apply(s, step).requests|
    ensures !s.requests[request].status.Pending? ==> Apply(s, step).requests[request] == s.requests[request]
  {
  }

  /** Every run of web and Telegram decisions, in any order: approval and credit go together, and
      a resolved request never changes again. */
  lemma {:induction false} RunKeepsRequests(s: State, steps: seq<Step>)
    requires RequestsInOrder(s)
    ensures RequestsInOrder(Run(s, steps)) && |Run(s, steps).requests| >= |s.requests|
    ensures forall r | 0 <= r < |s.requests| && !s.requests[r].status.Pending? ::
              Run(s, steps).requests[r] == s.requests[r]
    decreases |steps|
  {
    if steps != [] {
      var t := Apply(s, steps[0]);
      StepKeeps(s, steps[0]);
      forall r | 0 <= r < |s.requests|
        ensures r < |t.requests|
        ensures !s.requests[r].status.Pending? ==> t.requests[r] == s.requests[r]
      {
        StepFreezes(s, steps[0], r);
      }
      assert |t.requests| >= |s.requests| by {
        if |s.requests| > 0 { StepFreezes(s, steps[0], |s.requests| - 1); }
      }
      RunKeepsRequests(t, steps[1..]);
    }
  }

  lemma EmptyIsInOrder()
    ensures RequestsInOrder(EMPTY)
  {
  }
}
