/** The rows the activity log draws from, and the entries it shows for them. */
module LogEntries {
  import opened Wrappers
  import opened Records

  /** A ledger row, refund request or purchase as one of the log's three queries reads it. */
  datatype Row =
    | TxRow(id: Id, kind: Kind, note: string, amount: int, balanceAfter: Option<int>, user: Id, time: int)
    | RefundRow(id: Id, decision: RefundStatus, message: Option<string>, user: Id, time: int)
    | PurchaseRow(id: Id, outcome: PurchaseStatus, text: string, user: Id, time: int)

  datatype Action = Recharged | Adjusted | RefundApproved | RefundDenied | PurchaseFulfilled | PurchaseRejected

  datatype Entry = Entry(id: Id, action: Action, user: Id, amount: Option<int>, balanceAfter: Option<int>,
                         note: Option<string>, createdAt: int)

  /** The `WHERE` clauses of the three queries. */
  predicate IsShown(row: Row) {
    match row
    case TxRow(_, kind, note, _, _, _, _) => (kind.Recharge? || kind.Adjustment?) && note != ""
    case RefundRow(_, decision, _, _, _) => !decision.Pending?
    case PurchaseRow(_, outcome, _, _, _) => !outcome.Pending?
  }

  function ToEntry(row: Row): Entry {
    match row
    case TxRow(id, kind, note, amount, balanceAfter, user, time) =>
      Entry(id, if kind.Recharge? then Recharged else Adjusted, user, Some(amount), balanceAfter, Some(note), time)
    case RefundRow(id, decision, message, user, time) =>
      Entry(id, if decision.Approved? then RefundApproved else RefundDenied, user, None, None, message, time)
    case PurchaseRow(id, outcome, text, user, time) =>
      Entry(id, if outcome.Fulfilled? then PurchaseFulfilled else PurchaseRejected, user, None, None, Some(text), time)
  }

  function Least(a: nat, b: nat): nat {
    if a < b then a else b
  }

  /** `s[offset:offset + limit]`, clipped to the list as Python does. */
  function Slice(s: seq<Entry>, offset: nat, limit: nat): seq<Entry> {
    s[Least(offset, |s|)..Least(offset + limit, |s|)]
  }

  function Top(s: seq<Entry>, n: nat): seq<Entry> {
    s[..Least(n, |s|)]
  }

  /** The entries of one query: its visible rows in the order the database returns them. */
  function Listing(rows: seq<Row>): seq<Entry> {
    if rows == [] then []
    else if IsShown(rows[0]) then [ToEntry(rows[0])] + Listing(rows[1..])
    else Listing(rows[1..])
  }
}
