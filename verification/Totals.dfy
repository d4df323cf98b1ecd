/** Sums over the ledger: each `Measure` says what one row contributes to a total. */
module Totals {
  import opened Wrappers
  import opened Records

  datatype Measure =
    | MoneyOfUser(user: Id)
    | MoneyOfUsers
    | MoneyOfJob(job: Id)
    | RefundsOfJob(job: Id)
    | MoneyOfPurchase(purchase: Id)
    | RefundsOfPurchase(purchase: Id)
    | RowsOfRequest(request: Id)
    | RechargesOfRequest(request: Id, user: Id, amount: int)
    | MoneyOfExpense(expense: Id)
    | Positive(kind: Kind)
    | Absolute(kind: Kind)
    | Raw(kind: Kind)
    | Misfit
    | NettedBy(admin: Id)
    | UnsettledBy(admin: Id)
    | InEvent(event: Id)

  function Abs(x: int): int {
    if x < 0 then -x else x
  }

  /** The rows that admin cash reconciliation nets: recharges taken and expenses fronted by `admin`. */
  predicate IsNetted(row: Tx, admin: Id) {
    && (row.kind.Recharge? || row.kind.Expense?)
    && (row.actorType.Admin? || row.actorType.SuperAdmin?)
    && row.actor == Some(admin)
  }

  predicate IsUnsettled(row: Tx, admin: Id) {
    IsNetted(row, admin) && row.event.None?
  }

  /** What a row adds to the balance that the dashboard's finance figures imply. */
  function Shown(row: Tx): int {
    match row.kind
    case Recharge => if row.amount > 0 then row.amount else 0
    case Print => -Abs(row.amount)
    case Refund => if row.amount > 0 then row.amount else 0
    case Adjustment => row.amount
    case ProductPurchase => -Abs(row.amount)
    case Expense => 0
    case FreeReprint => 0
  }

  function Part(row: Tx, m: Measure): int {
    match m
    case MoneyOfUser(u) => if row.user == Some(u) then row.amount else 0
    case MoneyOfUsers => if row.user.Some? then row.amount else 0
    case MoneyOfJob(j) => if row.job == Some(j) then row.amount else 0
    case RefundsOfJob(j) => if row.job == Some(j) && row.kind.Refund? then 1 else 0
    case MoneyOfPurchase(p) => if row.purchase == Some(p) then row.amount else 0
    case RefundsOfPurchase(p) => if row.purchase == Some(p) && row.kind.Refund? then 1 else 0
    case RowsOfRequest(r) => if row.request == Some(r) then 1 else 0
    case RechargesOfRequest(r, u, a) =>
      if row.request == Some(r) && row.kind.Recharge? && row.user == Some(u) && row.amount == a then 1 else 0
    case MoneyOfExpense(x) => if row.expense == Some(x) then row.amount else 0
    case Positive(k) => if row.kind == k && row.amount > 0 then row.amount else 0
    case Absolute(k) => if row.kind == k then Abs(row.amount) else 0
    case Raw(k) => if row.kind == k then row.amount else 0
    case Misfit => (if row.user.Some? then row.amount else 0) - Shown(row)
    case NettedBy(a) => if IsNetted(row, a) then row.amount else 0
    case UnsettledBy(a) => if IsUnsettled(row, a) then row.amount else 0
    case InEvent(e) => if row.event == Some(e) then row.amount else 0
  }

  function Total(log: seq<Tx>, m: Measure): int {
    if log == [] then 0 else Total(log[..|log| - 1], m) + Part(log[|log| - 1], m)
  }

  lemma TotalAppend(log: seq<Tx>, row: Tx)
    ensures forall m: Measure :: Total(log + [row], m) == Total(log, m) + Part(row, m)
  {
    assert (log + [row])[..|log|] == log;
  }

  /** Two ledgers whose rows contribute alike have the same total. */
  lemma {:induction false} TotalAlike(a: seq<Tx>, b: seq<Tx>, m: Measure)
    requires |a| == |b|
    requires forall i | 0 <= i < |a| :: Part(a[i], m) == Part(b[i], m)
    ensures Total(a, m) == Total(b, m)
  {
    if a != [] {
      var n := |a| - 1;
      TotalAlike(a[..n], b[..n], m);
    }
  }

  /** A stock item's, a job's or a product's share of the movement rows. */
  datatype StockMeasure = OfItem(item: Id) | OfJob(job: Id) | RowsOfJob(job: Id) | SalesOf(product: Id)

  function StockPart(row: Movement, m: StockMeasure): int {
    match m
    case OfItem(i) => if row.item == i then row.delta else 0
    case OfJob(j) => if row.job == Some(j) then row.delta else 0
    case RowsOfJob(j) => if row.job == Some(j) then 1 else 0
    case SalesOf(p) => if row.reason.ProductSale? && row.product == Some(p) then row.delta else 0
  }

  function StockTotal(moves: seq<Movement>, m: StockMeasure): int {
    if moves == [] then 0 else StockTotal(moves[..|moves| - 1], m) + StockPart(moves[|moves| - 1], m)
  }

  lemma StockTotalAppend(moves: seq<Movement>, row: Movement)
    ensures forall m: StockMeasure :: StockTotal(moves + [row], m) == StockTotal(moves, m) + StockPart(row, m)
  {
    assert (moves + [row])[..|moves|] == moves;
  }
}
