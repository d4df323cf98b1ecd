/** The tables of the print-credit database, as values. Money is in cents, stock in hundredths.

    Rows that are never deleted are numbered by their position in the table; refund requests,
    which can be deleted, live in a map and their numbers are never reused. */
module Records {
  import opened Wrappers

  type Id = nat

  datatype JobStatus = Pending | Held | Printing | Stopped | Completed | Cancelled | Aborted

  /** TRANSIT_STATUS: the states the scheduler keeps polling. */
  predicate InTransit(status: JobStatus) {
    status.Pending? || status.Held? || status.Printing? || status.Stopped?
  }

  /** ERROR_STATUS: the states in which a job is refunded automatically. */
  predicate InError(status: JobStatus) {
    status.Aborted? || status.Cancelled?
  }

  datatype RefundStatus = Pending | Approved | Denied

  datatype RequestStatus = Pending | Approved | Rejected

  datatype PurchaseStatus = Pending | Fulfilled | Rejected

  datatype Category = Paper | TonerBw | TonerColor | BindingSupply | Other

  datatype MovementReason = PurchaseOfStock | PrintConsumption | ManualAdjustment | ProductSale

  datatype Kind = Adjustment | Recharge | Refund | Print | Expense | ProductPurchase | FreeReprint

  datatype ActorType = User | Admin | SuperAdmin | System | TelegramBot

  datatype Direction = FromAdmin | ToAdmin

  datatype Account = Account(balance: int, creditLimit: int)

  datatype Job = Job(user: Id, printer: Id, pages: nat, color: bool, cost: int, status: JobStatus,
                     cupsId: int, reprintOf: Option<Id>)

  datatype RefundRequest = RefundRequest(user: Id, job: Id, status: RefundStatus, initiatedBy: Option<Id>)

  datatype RechargeRequest = RechargeRequest(user: Id, amount: real, status: RequestStatus)

  datatype Product = Product(price: int, active: bool, item: Option<Id>)

  datatype Purchase = Purchase(user: Id, product: Id, quantity: nat, total: int, status: PurchaseStatus)

  /** `name` is the item's place in the database's ordering of names. */
  datatype Item = Item(name: int, category: Category, stock: int, threshold: int, printer: Option<Id>, active: bool)

  datatype Movement = Movement(item: Id, delta: int, reason: MovementReason, job: Option<Id>, product: Option<Id>)

  datatype ExpenseRow = ExpenseRow(amount: int, recordedBy: Id, paidBy: Id)

  datatype CollectionEvent = CollectionEvent(superAdmin: Id, admin: Id, amount: int, direction: Direction)

  /** One row of the append-only ledger. Only `event` may be written after creation. */
  datatype Tx = Tx(user: Option<Id>, kind: Kind, amount: int, balanceAfter: Option<int>,
                   actor: Option<Id>, actorType: ActorType,
                   request: Option<Id>, refund: Option<Id>, job: Option<Id>, expense: Option<Id>,
                   purchase: Option<Id>, event: Option<Id>)

  datatype State = State(accounts: seq<Account>, jobs: seq<Job>,
                         refunds: map<Id, RefundRequest>, nextRefund: Id,
                         requests: seq<RechargeRequest>,
                         products: seq<Product>, purchases: seq<Purchase>,
                         items: seq<Item>, moves: seq<Movement>,
                         expenses: seq<ExpenseRow>, log: seq<Tx>, events: seq<CollectionEvent>)

  const EMPTY := State([], [], map[], 0, [], [], [], [], [], [], [], [])
}
