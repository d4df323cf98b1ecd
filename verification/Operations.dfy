/** What each service call does to the database, taken as one atomic step.

    These are net effects: a call that fails leaves the state it should leave, whatever it did
    and undid on the way. `Services` holds the step-by-step code and proves it against them. */
module Operations {
  import opened Wrappers
  import opened Records
  import opened Totals
  import opened Money

  datatype Reply = Done | NotFound | Forbidden | Conflict | Unprocessable | PaymentRequired | Unavailable

  datatype Outcome = Outcome(state: State, reply: Reply)

  // ---------- Balance and ledger ----------

  /** The credit floor: may `delta` be applied to the account under its credit limit? */
  predicate Covers(account: Account, delta: int) {
    account.balance + account.creditLimit + delta >= 0
  }

  function Entry(kind: Kind, amount: int, actor: Option<Id>, actorType: ActorType): Tx {
    Tx(None, kind, amount, None, actor, actorType, None, None, None, None, None, None)
  }

  /** Applies the row's amount to a user's balance and appends the row with the balance it left. */
  function Post(s: State, user: Id, row: Tx): State
    requires user < |s.accounts|
  {
    var balance := s.accounts[user].balance + row.amount;
    s.(accounts := s.accounts[user := s.accounts[user].(balance := balance)],
       log := s.log + [row.(user := Some(user), balanceAfter := Some(balance))])
  }

  function CreateUser(s: State): State {
    s.(accounts := s.accounts + [Account(0, 0)])
  }

  /** `update_user`: overwrites the balance or the limit and leaves no row in the ledger. */
  function EditUser(s: State, user: Id, balance: Option<real>, creditLimit: Option<real>): State {
    if user >= |s.accounts| then s
    else
      var a := s.accounts[user];
      s.(accounts := s.accounts[user := Account(
           if balance.Some? then Cents(balance.value) else a.balance,
           if creditLimit.Some? then Cents(creditLimit.value) else a.creditLimit)])
  }

  // ---------- Printing ----------

  function SendPrint(s: State, user: Id, printer: Id, pages: nat, color: bool, cost: real, cups: Option<int>): Outcome {
    var c := Cents(cost);
    if user >= |s.accounts| then Outcome(s, NotFound)
    else if !Covers(s.accounts[user], -c) then Outcome(s, PaymentRequired)
    else if cups.None? then Outcome(s, Unavailable)
    else
      var job := Job(user, printer, pages, color, c, JobStatus.Pending, cups.value, None);
      Outcome(Post(s.(jobs := s.jobs + [job]), user,
                   Entry(Print, -c, Some(user), ActorType.User).(job := Some(|s.jobs|))),
              Done)
  }

  function SendReprint(s: State, original: Id, admin: Id, fileStored: bool, printerStored: bool, cups: Option<int>): Outcome {
    if original >= |s.jobs| then Outcome(s, NotFound)
    else if !fileStored then Outcome(s, Conflict)
    else if !printerStored then Outcome(s, NotFound)
    else if cups.None? then Outcome(s, Unavailable)
    else
      var j := s.jobs[original];
      var job := Job(j.user, j.printer, j.pages, j.color, 0, JobStatus.Pending, cups.value, Some(original));
      Outcome(s.(jobs := s.jobs + [job],
                 log := s.log + [Entry(FreeReprint, 0, Some(admin), ActorType.Admin)
                                 .(user := Some(j.user), job := Some(|s.jobs|))]),
              Done)
  }

  // ---------- Recharges and adjustments ----------

  function RecordRecharge(s: State, user: Id, amount: real, actor: Option<Id>, actorType: ActorType,
                          request: Option<Id>, enforce: bool): Outcome
  {
    var c := Cents(amount);
    if user >= |s.accounts| then Outcome(s, NotFound)
    else if enforce && !Covers(s.accounts[user], c) then Outcome(s, PaymentRequired)
    else Outcome(Post(s, user, Entry(Recharge, c, actor, actorType).(request := request)), Done)
  }

  /** `current` is the balance the caller read beforehand, when it passes one. */
  function RecordAdjustment(s: State, user: Id, target: real, current: Option<real>,
                            actor: Option<Id>, actorType: ActorType): Outcome
  {
    if user >= |s.accounts| then Outcome(s, NotFound)
    else
      var base := if current.Some? then Cents(current.value) else s.accounts[user].balance;
      var diff := Cents(target) - base;
      if !Covers(s.accounts[user], diff) then Outcome(s, PaymentRequired)
      else Outcome(Post(s, user, Entry(Adjustment, diff, actor, actorType)), Done)
  }

  /** Both request forms refuse an amount that is not positive. */
  function CreateRechargeRequest(s: State, user: Id, amount: real): Outcome {
    if amount <= 0.0 then Outcome(s, Unprocessable)
    else if user >= |s.accounts| then Outcome(s, NotFound)
    else Outcome(s.(requests := s.requests + [RechargeRequest(user, amount, RequestStatus.Pending)]), Done)
  }

  function ResolveRecharge(s: State, request: Id, approve: bool, actor: Id, actorType: ActorType): Outcome {
    if request >= |s.requests| then Outcome(s, NotFound)
    else
      var r := s.requests[request];
      if !r.status.Pending? then Outcome(s, Conflict)
      else if !approve then Outcome(s.(requests := s.requests[request := r.(status := RequestStatus.Rejected)]), Done)
      else
        var credited := RecordRecharge(s, r.user, r.amount, Some(actor), actorType, Some(request), false);
        if !credited.reply.Done? then Outcome(s, NotFound)
        else Outcome(credited.state.(requests := s.requests[request := r.(status := RequestStatus.Approved)]), Done)
  }

  // ---------- Refunds ----------

  ghost predicate HasRefund(s: State, job: Id) {
    exists r :: r in s.refunds && s.refunds[r].job == job
  }

  /** The refund request found for a job. Reachable states hold at most one. */
  ghost function RefundOf(s: State, job: Id): (r: Id)
    requires HasRefund(s, job)
    ensures r in s.refunds && s.refunds[r].job == job
  {
    var r :| r in s.refunds && s.refunds[r].job == job;
    r
  }

  /** Credits a job's cost back to its user (`_credit_refund`, and the scheduler's own refund). */
  function CreditJob(s: State, job: Id, refund: Option<Id>, actor: Option<Id>, actorType: ActorType): State
    requires job < |s.jobs| && s.jobs[job].user < |s.accounts|
  {
    Post(s, s.jobs[job].user,
         Entry(Refund, s.jobs[job].cost, actor, actorType).(refund := refund, job := Some(job)))
  }

  function AddRefund(s: State, refund: RefundRequest): State {
    s.(refunds := s.refunds[s.nextRefund := refund], nextRefund := s.nextRefund + 1)
  }

  ghost function RequestRefund(s: State, job: Id, requester: Id): Outcome {
    if job >= |s.jobs| then Outcome(s, NotFound)
    else if s.jobs[job].user != requester then Outcome(s, Forbidden)
    else if !s.jobs[job].status.Completed? then Outcome(s, Unprocessable)
    else if HasRefund(s, job) && !s.refunds[RefundOf(s, job)].status.Denied? then Outcome(s, Conflict)
    else
      var cleared := if HasRefund(s, job) then s.(refunds := s.refunds - {RefundOf(s, job)}) else s;
      Outcome(AddRefund(cleared, RefundRequest(requester, job, RefundStatus.Pending, None)), Done)
  }

  function ResolveRefund(s: State, refund: Id, status: RefundStatus, admin: Id): Outcome {
    if refund !in s.refunds then Outcome(s, NotFound)
    else
      var r := s.refunds[refund];
      if !r.status.Pending? then Outcome(s, Conflict)
      else if status.Pending? then Outcome(s, Unprocessable)
      else
        var resolved := s.(refunds := s.refunds[refund := r.(status := status)]);
        if status.Denied? || r.job >= |s.jobs| then Outcome(resolved, Done)
        else if s.jobs[r.job].user >= |s.accounts| then Outcome(s, NotFound)
        else Outcome(CreditJob(resolved, r.job, Some(refund), Some(admin), ActorType.Admin), Done)
  }

  /** A denied request is deleted before the administrator is looked up, so it is gone even when
      that lookup, or the credit, then fails. */
  ghost function OverrideRefund(s: State, job: Id, admin: Id): Outcome {
    if job >= |s.jobs| then Outcome(s, NotFound)
    else if !s.jobs[job].status.Completed? then Outcome(s, Unprocessable)
    else if HasRefund(s, job) && !s.refunds[RefundOf(s, job)].status.Denied? then Outcome(s, Conflict)
    else
      var cleared := if HasRefund(s, job) then s.(refunds := s.refunds - {RefundOf(s, job)}) else s;
      if admin >= |s.accounts| then Outcome(cleared, NotFound)
      else if s.jobs[job].user >= |s.accounts| then
        Outcome(cleared.(nextRefund := s.nextRefund + 1), NotFound)
      else
        var added := AddRefund(cleared, RefundRequest(s.jobs[job].user, job, RefundStatus.Approved, Some(admin)));
        Outcome(CreditJob(added, job, Some(s.nextRefund), Some(admin), ActorType.Admin), Done)
  }

  // ---------- Inventory ----------

  function CreateItem(s: State, name: int, category: Category, threshold: real, stock: real, printer: Option<Id>): State {
    s.(items := s.items + [Item(name, category, Cents(stock), Cents(threshold), printer, true)])
  }

  function UpdateItem(s: State, item: Id, name: Option<int>, category: Option<Category>, threshold: Option<real>,
                      printer: Option<Id>, active: Option<bool>): State
  {
    if item >= |s.items| then s
    else
      var i := s.items[item];
      s.(items := s.items[item := Item(
           if name.Some? then name.value else i.name,
           if category.Some? then category.value else i.category,
           i.stock,
           if threshold.Some? then Cents(threshold.value) else i.threshold,
           if printer.Some? then printer else i.printer,
           if active.Some? then active.value else i.active)])
  }

  function RecordMovement(s: State, item: Id, delta: real, reason: MovementReason,
                          job: Option<Id>, product: Option<Id>): State
  {
    if item >= |s.items| then s
    else
      var d := Cents(delta);
      s.(items := s.items[item := s.items[item].(stock := s.items[item].stock + d)],
         moves := s.moves + [Movement(item, d, reason, job, product)])
  }

  /** The first paper item, in name order, that is tied to `printer` (`None` for shared stock). */
  function FirstPaper(items: seq<Item>, printer: Option<Id>): (best: Option<Id>)
    ensures best.Some? ==> best.value < |items|
  {
    if items == [] then None
    else
      var n := |items| - 1;
      var best := FirstPaper(items[..n], printer);
      if items[n].category.Paper? && items[n].printer == printer
         && (best.None? || items[n].name < items[best.value].name) then Some(n)
      else best
  }

  /** The stock a completed job is taken from: its printer's own paper before shared paper. */
  function PaperFor(items: seq<Item>, printer: Id): Option<Id> {
    var own := FirstPaper(items, Some(printer));
    if own.Some? then own else FirstPaper(items, None)
  }

  function TakePaper(s: State, job: Id): State
    requires job < |s.jobs|
  {
    var item := PaperFor(s.items, s.jobs[job].printer);
    if item.None? then s
    else RecordMovement(s, item.value, -(s.jobs[job].pages as real), PrintConsumption, Some(job), None)
  }

  // ---------- The scheduler's poll of one job ----------

  /** `status` is what the print server reported, if it reported anything. */
  function PollJob(s: State, job: Id, status: Option<JobStatus>): State
    requires job < |s.jobs|
  {
    if status.None? || s.jobs[job].status == status.value then s
    else
      var t := s.(jobs := s.jobs[job := s.jobs[job].(status := status.value)]);
      if status.value.Completed? then TakePaper(t, job)
      else if InError(status.value) && s.jobs[job].user < |s.accounts| then
        CreditJob(t, job, None, None, System)
      else t
  }

  // ---------- Purchases ----------

  function BuyProduct(s: State, product: Id, user: Id, quantity: nat): Outcome {
    if product >= |s.products| then Outcome(s, NotFound)
    else if !s.products[product].active then Outcome(s, Conflict)
    else if user >= |s.accounts| then Outcome(s, NotFound)
    else
      var total := s.products[product].price * quantity;
      if !Covers(s.accounts[user], -total) then Outcome(s, PaymentRequired)
      else
        Outcome(Post(s.(purchases := s.purchases + [Purchase(user, product, quantity, total, PurchaseStatus.Pending)]),
                     user,
                     Entry(ProductPurchase, -total, Some(user), ActorType.User).(purchase := Some(|s.purchases|))),
                Done)
  }

  function ResolvePurchase(s: State, purchase: Id, fulfil: bool, actor: Id, actorType: ActorType): Outcome {
    if purchase >= |s.purchases| then Outcome(s, NotFound)
    else
      var p := s.purchases[purchase];
      if !p.status.Pending? then Outcome(s, Conflict)
      else if fulfil then
        var moved :=
          if p.product < |s.products| && s.products[p.product].item.Some? then
            RecordMovement(s, s.products[p.product].item.value, -(p.quantity as real), ProductSale, None, Some(p.product))
          else s;
        Outcome(moved.(purchases := s.purchases[purchase := p.(status := PurchaseStatus.Fulfilled)]), Done)
      else if p.user >= |s.accounts| then Outcome(s, NotFound)
      else
        Outcome(Post(s.(purchases := s.purchases[purchase := p.(status := PurchaseStatus.Rejected)]), p.user,
                     Entry(Refund, p.total, Some(actor), actorType).(purchase := Some(purchase))),
                Done)
  }

  // ---------- Expenses and settlements ----------

  function RecordExpense(s: State, amount: real, recorder: Id, payer: Option<Id>): State {
    var paidBy := if payer.Some? then payer.value else recorder;
    s.(expenses := s.expenses + [ExpenseRow(Cents(amount), recorder, paidBy)],
       log := s.log + [Entry(Expense, -Abs(Cents(amount)), Some(paidBy), ActorType.Admin)
                       .(expense := Some(|s.expenses|))])
  }

  /** Sets the event of every row of `admin` that no event has settled yet. */
  function Tag(log: seq<Tx>, admin: Id, event: Id): (tagged: seq<Tx>)
    ensures |tagged| == |log|
  {
    seq(|log|, i requires 0 <= i < |log| =>
      if IsUnsettled(log[i], admin) then log[i].(event := Some(event)) else log[i])
  }

  function Settle(s: State, event: CollectionEvent): State {
    s.(events := s.events + [event], log := Tag(s.log, event.admin, |s.events|))
  }

  function Collect(s: State, superAdmin: Id, admin: Id): Outcome {
    var net := Total(s.log, UnsettledBy(admin));
    if net <= 0 then Outcome(s, Conflict)
    else Outcome(Settle(s, CollectionEvent(superAdmin, admin, net, FromAdmin)), Done)
  }

  function PayBack(s: State, superAdmin: Id, admin: Id): Outcome {
    var net := Total(s.log, UnsettledBy(admin));
    if net >= 0 then Outcome(s, Conflict)
    else Outcome(Settle(s, CollectionEvent(superAdmin, admin, -net, ToAdmin)), Done)
  }

  // ---------- Runs ----------

  datatype Step =
    | NewUser
    | UserEdit(user: Id, balance: Option<real>, creditLimit: Option<real>)
    | PrintStep(user: Id, printer: Id, pages: nat, color: bool, cost: real, cups: Option<int>)
    | Reprint(job: Id, admin: Id, fileStored: bool, printerStored: bool, cups: Option<int>)
    | DirectRecharge(user: Id, amount: real, actor: Option<Id>, actorType: ActorType, enforce: bool)
    | Adjust(user: Id, target: real, current: Option<real>, actor: Option<Id>, actorType: ActorType)
    | NewRechargeRequest(user: Id, amount: real)
    | RechargeDecision(request: Id, approve: bool, decidedBy: Id, actorType: ActorType)
    | RefundDemand(job: Id, requester: Id)
    | RefundDecision(refund: Id, status: RefundStatus, admin: Id)
    | RefundOverride(job: Id, admin: Id)
    | Poll(job: Id, reported: Option<JobStatus>)
    | Buy(product: Id, user: Id, quantity: nat)
    | PurchaseDecision(purchase: Id, fulfil: bool, decidedBy: Id, actorType: ActorType)
    | NewExpense(amount: real, recorder: Id, payer: Option<Id>)
    | NewItem(name: int, category: Category, threshold: real, stock: real, printerScope: Option<Id>)
    | ItemEdit(item: Id, newName: Option<int>, newCategory: Option<Category>, newThreshold: Option<real>,
               newPrinter: Option<Id>, active: Option<bool>)
    | StockMove(item: Id, delta: real, reason: MovementReason)
    | ProductEdit(products: seq<Product>)
    | CollectStep(superAdmin: Id, admin: Id)
    | PayStep(superAdmin: Id, admin: Id)

  /** The state after one step. The scheduler polls a job only while it is in transit. */
  ghost function Apply(s: State, step: Step): State {
    match step
    case NewUser => CreateUser(s)
    case UserEdit(u, b, l) => EditUser(s, u, b, l)
    case PrintStep(u, p, n, c, cost, cups) => SendPrint(s, u, p, n, c, cost, cups).state
    case Reprint(j, a, f, p, cups) => SendReprint(s, j, a, f, p, cups).state
    case DirectRecharge(u, x, a, t, e) => RecordRecharge(s, u, x, a, t, None, e).state
    case Adjust(u, x, c, a, t) => RecordAdjustment(s, u, x, c, a, t).state
    case NewRechargeRequest(u, x) => CreateRechargeRequest(s, u, x).state
    case RechargeDecision(r, ok, a, t) => ResolveRecharge(s, r, ok, a, t).state
    case RefundDemand(j, u) => RequestRefund(s, j, u).state
    case RefundDecision(r, st, a) => ResolveRefund(s, r, st, a).state
    case RefundOverride(j, a) => OverrideRefund(s, j, a).state
    case Poll(j, st) => if j < |s.jobs| && InTransit(s.jobs[j].status) then PollJob(s, j, st) else s
    case Buy(p, u, q) => BuyProduct(s, p, u, q).state
    case PurchaseDecision(p, ok, a, t) => ResolvePurchase(s, p, ok, a, t).state
    case NewExpense(x, r, p) => RecordExpense(s, x, r, p)
    case NewItem(n, c, th, st, p) => CreateItem(s, n, c, th, st, p)
    case ItemEdit(i, n, c, th, p, a) => UpdateItem(s, i, n, c, th, p, a)
    case StockMove(i, d, r) => RecordMovement(s, i, d, r, None, None)
    case ProductEdit(ps) => s.(products := ps)
    case CollectStep(sa, a) => Collect(s, sa, a).state
    case PayStep(sa, a) => PayBack(s, sa, a).state
  }

  ghost function Run(s: State, steps: seq<Step>): State
    decreases |steps|
  {
    if steps == [] then s else Run(Apply(s, steps[0]), steps[1..])
  }
}
