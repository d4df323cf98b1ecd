/** Admin cash reconciliation: recharges an administrator took, netted against expenses fronted. */
module Settlement {
  import opened Wrappers
  import opened Records
  import opened Totals
  import opened Money
  import opened Operations

  function Signed(event: CollectionEvent): int {
    if event.direction.FromAdmin? then event.amount else -event.amount
  }

  function Collected(events: seq<CollectionEvent>, admin: Id): int {
    if events == [] then 0
    else
      var e := events[|events| - 1];
      Collected(events[..|events| - 1], admin) + if e.admin == admin && e.direction.FromAdmin? then e.amount else 0
  }

  function PaidBack(events: seq<CollectionEvent>, admin: Id): int {
    if events == [] then 0
    else
      var e := events[|events| - 1];
      PaidBack(events[..|events| - 1], admin) + if e.admin == admin && e.direction.ToAdmin? then e.amount else 0
  }

  /** Everything ever netted is either still outstanding, or was collected, or was paid back. */
  ghost predicate Conserved(s: State, admin: Id) {
    Total(s.log, NettedBy(admin))
    == Total(s.log, UnsettledBy(admin)) + Collected(s.events, admin) - PaidBack(s.events, admin)
  }

  /** An event's amount is positive and, with its direction as sign, is the sum of its own rows. */
  ghost predicate EventAddsUp(s: State, event: Id) {
    if event < |s.events| then
      s.events[event].amount > 0 && Total(s.log, InEvent(event)) == Signed(s.events[event])
    else Total(s.log, InEvent(event)) == 0
  }

  /** A settled row belongs to an event of its own administrator. */
  ghost predicate RowsBelong(s: State) {
    forall i | 0 <= i < |s.log| && s.log[i].event.Some? ::
      s.log[i].event.value < |s.events| && IsNetted(s.log[i], s.events[s.log[i].event.value].admin)
  }

  ghost predicate BooksInOrder(s: State) {
    RowsBelong(s) && (forall a: Id :: Conserved(s, a)) && (forall e: Id :: EventAddsUp(s, e))
  }

  lemma NewRowKeeps(s: State, t: State, row: Tx)
    requires BooksInOrder(s) && t.events == s.events && t.log == s.log + [row] && row.event.None?
    ensures BooksInOrder(t)
  {
    TotalAppend(s.log, row);
    forall a: Id ensures Conserved(t, a) {
      assert Conserved(s, a);
    }
    forall e: Id ensures EventAddsUp(t, e) {
      assert EventAddsUp(s, e);
    }
  }

  /** What tagging does to each total: the administrator's outstanding sum moves into the event. */
  lemma {:induction false} TagTotals(log: seq<Tx>, admin: Id, event: Id)
    requires forall i | 0 <= i < |log| :: log[i].event != Some(event)
    ensures Total(Tag(log, admin, event), UnsettledBy(admin)) == 0
    ensures Total(Tag(log, admin, event), InEvent(event)) == Total(log, UnsettledBy(admin))
    ensures forall a: Id :: Total(Tag(log, admin, event), NettedBy(a)) == Total(log, NettedBy(a))
    ensures forall a: Id | a != admin :: Total(Tag(log, admin, event), UnsettledBy(a)) == Total(log, UnsettledBy(a))
    ensures forall e: Id | e != event :: Total(Tag(log, admin, event), InEvent(e)) == Total(log, InEvent(e))
  {
    if log != [] {
      var n := |log| - 1;
      TagTotals(log[..n], admin, event);
      var tagged := Tag(log, admin, event);
      assert tagged[..n] == Tag(log[..n], admin, event);
    }
  }

  lemma SettleKeeps(s: State, event: CollectionEvent)
    requires BooksInOrder(s)
    requires event.amount > 0 && Signed(event) == Total(s.log, UnsettledBy(event.admin))
    ensures BooksInOrder(Settle(s, event))
    ensures Total(Settle(s, event).log, UnsettledBy(event.admin)) == 0
  {
    var t := Settle(s, event);
    TagTotals(s.log, event.admin, |s.events|);
    assert t.events[..|s.events|] == s.events;
    forall a: Id ensures Conserved(t, a) {
      assert Conserved(s, a);
    }
    forall e: Id ensures EventAddsUp(t, e) {
      assert EventAddsUp(s, e);
    }
  }

  predicate IsSettlement(step: Step) {
    step.CollectStep? || step.PayStep?
  }

  /** Events stay, and at most one row is appended, which no event has settled. */
  ghost predicate AddsUnsettledRow(s: State, t: State) {
    && t.events == s.events
    && (t.log == s.log
        || (|t.log| == |s.log| + 1 && t.log == s.log + [t.log[|s.log|]] && t.log[|s.log|].event.None?))
  }

  predicate IsRefundOrPoll(step: Step) {
    step.RefundDemand? || step.RefundDecision? || step.RefundOverride? || step.Poll?
  }

  lemma RefundStepShape(s: State, step: Step)
    requires IsRefundOrPoll(step)
    ensures AddsUnsettledRow(s, Apply(s, step))
  {
    hide Cents, PaperFor;
  }

  lemma OtherStepShape(s: State, step: Step)
    requires !IsSettlement(step)
    ensures AddsUnsettledRow(s, Apply(s, step))
  {
    hide Cents, Covers, Total, PaperFor;
    if IsRefundOrPoll(step) {
      hide RequestRefund, ResolveRefund, OverrideRefund, PollJob;
      RefundStepShape(s, step);
    } else {
      PlainStepAddsRow(s, step);
    }
  }

  lemma PlainStepAddsRow(s: State, step: Step)
    requires !IsSettlement(step) && !IsRefundOrPoll(step)
    ensures AddsUnsettledRow(s, Apply(s, step))
  {
    hide Cents, Covers, Total;
  }

  lemma CollectKeeps(s: State, superAdmin: Id, admin: Id)
    requires BooksInOrder(s)
    ensures BooksInOrder(Collect(s, superAdmin, admin).state)
  {
    hide Settle, Total, BooksInOrder;
    var net := Total(s.log, UnsettledBy(admin));
    if net > 0 {
      SettleKeeps(s, CollectionEvent(superAdmin, admin, net, FromAdmin));
    }
  }

  lemma PayKeeps(s: State, superAdmin: Id, admin: Id)
    requires BooksInOrder(s)
    ensures BooksInOrder(PayBack(s, superAdmin, admin).state)
  {
    hide Settle, Total, BooksInOrder;
    var net := Total(s.log, UnsettledBy(admin));
    if net < 0 {
      SettleKeeps(s, CollectionEvent(superAdmin, admin, -net, ToAdmin));
    }
  }

  lemma StepKeeps(s: State, step: Step)
    requires BooksInOrder(s)
    ensures BooksInOrder(Apply(s, step))
  {
    hide BooksInOrder, Collect, PayBack, Cents;
    var t := Apply(s, step);
    if step.CollectStep? {
      CollectKeeps(s, step.superAdmin, step.admin);
    } else if step.PayStep? {
      PayKeeps(s, step.superAdmin, step.admin);
    } else {
      OtherStepShape(s, step);
      if t.log == s.log {
        UnchangedKeeps(s, t);
      } else {
        NewRowKeeps(s, t, t.log[|s.log|]);
      }
    }
  }

  lemma UnchangedKeeps(s: State, t: State)
    requires BooksInOrder(s) && t.events == s.events && t.log == s.log
    ensures BooksInOrder(t)
  {
    forall a: Id ensures Conserved(t, a) {
      assert Conserved(s, a);
    }
    forall e: Id ensures EventAddsUp(t, e) {
      assert EventAddsUp(s, e);
    }
  }

  /** Rows and events are append-only, except that an unsettled row may gain its one event. */
  ghost predicate OnlyGainsEvents(s: State, t: State) {
    && s.events <= t.events
    && |s.log| <= |t.log|
    && (forall i | 0 <= i < |s.log| ::
          t.log[i] == s.log[i] || (s.log[i].event.None? && t.log[i] == s.log[i].(event := t.log[i].event)))
  }

  lemma StepOnlyGainsEvents(s: State, step: Step)
    ensures OnlyGainsEvents(s, Apply(s, step))
  {
    if !IsSettlement(step) {
      OtherStepShape(s, step);
    }
  }

  /** Every run of every call: conservation, events that add up, and a ledger whose rows never
      change except to be settled once. */
  lemma {:induction false} RunConserves(s: State, steps: seq<Step>)
    requires BooksInOrder(s)
    ensures BooksInOrder(Run(s, steps)) && OnlyGainsEvents(s, Run(s, steps))
    decreases |steps|
  {
    if steps != [] {
      StepKeeps(s, steps[0]);
      StepOnlyGainsEvents(s, steps[0]);
      RunConserves(Apply(s, steps[0]), steps[1..]);
    }
  }

  // ---------- Who is listed, and what can be done about it ----------

  function Debtors(log: seq<Tx>): set<Id> {
    set i | 0 <= i < |log| && log[i].actor.Some? && IsUnsettled(log[i], log[i].actor.value) :: log[i].actor.value
  }

  /** `get_outstanding_by_admin`: one nonzero net per administrator with unsettled rows. */
  function OutstandingByAdmin(log: seq<Tx>): map<Id, int> {
    map a | a in Debtors(log) && Total(log, UnsettledBy(a)) != 0 :: Total(log, UnsettledBy(a))
  }

  lemma {:induction false} NoRowsNoDebt(log: seq<Tx>, admin: Id)
    requires forall i | 0 <= i < |log| :: !IsUnsettled(log[i], admin)
    ensures Total(log, UnsettledBy(admin)) == 0
  {
    if log != [] {
      NoRowsNoDebt(log[..|log| - 1], admin);
    }
  }

  lemma ListedIffNonzero(log: seq<Tx>, admin: Id)
    ensures admin in OutstandingByAdmin(log) <==> Total(log, UnsettledBy(admin)) != 0
  {
    if Total(log, UnsettledBy(admin)) != 0 {
      if forall i | 0 <= i < |log| :: !IsUnsettled(log[i], admin) {
        NoRowsNoDebt(log, admin);
      } else {
        var i :| 0 <= i < |log| && IsUnsettled(log[i], admin);
        assert log[i].actor.value in Debtors(log);
      }
    }
  }

  datatype Position = Owes | IsOwed | Even

  /** Each administrator is in exactly one position, and the list and both actions agree on it. */
  lemma ListAndActionsAgree(s: State, superAdmin: Id, admin: Id)
    ensures var listed := OutstandingByAdmin(s.log);
            var position := if admin !in listed then Even else if listed[admin] > 0 then Owes else IsOwed;
            var collect := Collect(s, superAdmin, admin);
            var pay := PayBack(s, superAdmin, admin);
      && (collect.reply.Done? <==> position.Owes?)
      && (pay.reply.Done? <==> position.IsOwed?)
      && (position.Owes? ==>
            collect.state.events == s.events + [CollectionEvent(superAdmin, admin, listed[admin], FromAdmin)])
      && (position.IsOwed? ==>
            pay.state.events == s.events + [CollectionEvent(superAdmin, admin, -listed[admin], ToAdmin)])
      && (collect.reply.Conflict? ==> collect.state == s)
      && (pay.reply.Conflict? ==> pay.state == s)
  {
    ListedIffNonzero(s.log, admin);
  }

  /** After a successful collection or payment the administrator is even. */
  lemma SettlingClears(s: State, superAdmin: Id, admin: Id)
    requires BooksInOrder(s)
    ensures Collect(s, superAdmin, admin).reply.Done? ==>
              admin !in OutstandingByAdmin(Collect(s, superAdmin, admin).state.log)
    ensures PayBack(s, superAdmin, admin).reply.Done? ==>
              admin !in OutstandingByAdmin(PayBack(s, superAdmin, admin).state.log)
  {
    var net := Total(s.log, UnsettledBy(admin));
    if net > 0 {
      SettleKeeps(s, CollectionEvent(superAdmin, admin, net, FromAdmin));
      ListedIffNonzero(Collect(s, superAdmin, admin).state.log, admin);
    } else if net < 0 {
      SettleKeeps(s, CollectionEvent(superAdmin, admin, -net, ToAdmin));
      ListedIffNonzero(PayBack(s, superAdmin, admin).state.log, admin);
    }
  }

  // ---------- Expenses ----------

  /** Every expense has its row, charged to whoever paid, never to a user's balance. */
  ghost predicate ExpensesMirrored(s: State) {
    && (forall x: Id :: Total(s.log, MoneyOfExpense(x))
                        == if x < |s.expenses| then -Abs(s.expenses[x].amount) else 0)
    && (forall i | 0 <= i < |s.log| && s.log[i].expense.Some? ::
          && s.log[i].expense.value < |s.expenses|
          && s.log[i].kind.Expense? && s.log[i].user.None?
          && IsNetted(s.log[i], s.expenses[s.log[i].expense.value].paidBy))
  }

  ghost predicate AddsNoExpense(s: State, t: State) {
    && t.expenses == s.expenses
    && (t.log == s.log
        || (|t.log| == |s.log| + 1 && t.log == s.log + [t.log[|s.log|]] && t.log[|s.log|].expense.None?))
  }

  lemma RefundAddsNoExpense(s: State, step: Step)
    requires IsRefundOrPoll(step)
    ensures AddsNoExpense(s, Apply(s, step))
  {
    hide Cents, PaperFor;
  }

  lemma PlainStepShape(s: State, step: Step)
    requires !IsSettlement(step) && !step.NewExpense?
    ensures AddsNoExpense(s, Apply(s, step))
  {
    hide Cents, Covers, Total;
    if IsRefundOrPoll(step) {
      hide RequestRefund, ResolveRefund, OverrideRefund, PollJob;
      RefundAddsNoExpense(s, step);
    }
  }

  lemma TagMirrors(s: State, t: State, admin: Id)
    requires ExpensesMirrored(s) && t.expenses == s.expenses && t.log == Tag(s.log, admin, |s.events|)
    ensures ExpensesMirrored(t)
  {
    forall x: Id ensures Total(t.log, MoneyOfExpense(x)) == Total(s.log, MoneyOfExpense(x)) {
      TotalAlike(t.log, s.log, MoneyOfExpense(x));
    }
  }

  lemma SettlementMirrorsExpenses(s: State, step: Step)
    requires ExpensesMirrored(s) && IsSettlement(step)
    ensures ExpensesMirrored(Apply(s, step))
  {
    var t := Apply(s, step);
    hide ExpensesMirrored, Tag, Total;
    if t != s {
      TagMirrors(s, t, step.admin);
    }
  }

  lemma ExpenseMirrorsExpenses(s: State, amount: real, recorder: Id, payer: Option<Id>)
    requires ExpensesMirrored(s)
    ensures ExpensesMirrored(RecordExpense(s, amount, recorder, payer))
  {
    hide Cents;
    var t := RecordExpense(s, amount, recorder, payer);
    TotalAppend(s.log, t.log[|s.log|]);
  }

  lemma PlainMirrorsExpenses(s: State, t: State)
    requires ExpensesMirrored(s) && t.expenses == s.expenses
    requires t.log == s.log
             || (|t.log| == |s.log| + 1 && t.log == s.log + [t.log[|s.log|]] && t.log[|s.log|].expense.None?)
    ensures ExpensesMirrored(t)
  {
    if t.log != s.log {
      TotalAppend(s.log, t.log[|s.log|]);
    }
  }

  lemma StepMirrorsExpenses(s: State, step: Step)
    requires ExpensesMirrored(s)
    ensures ExpensesMirrored(Apply(s, step))
  {
    hide ExpensesMirrored;
    if IsSettlement(step) {
      SettlementMirrorsExpenses(s, step);
    } else if step.NewExpense? {
      ExpenseMirrorsExpenses(s, step.amount, step.recorder, step.payer);
    } else {
      PlainStepShape(s, step);
      PlainMirrorsExpenses(s, Apply(s, step));
    }
  }

  lemma {:induction false} RunMirrorsExpenses(s: State, steps: seq<Step>)
    requires ExpensesMirrored(s)
    ensures ExpensesMirrored(Run(s, steps))
    decreases |steps|
  {
    if steps != [] {
      StepMirrorsExpenses(s, steps[0]);
      RunMirrorsExpenses(Apply(s, steps[0]), steps[1..]);
    }
  }

  lemma EmptyIsInOrder()
    ensures BooksInOrder(EMPTY) && ExpensesMirrored(EMPTY)
  {
  }
}
