/** The print route from the request to the debit, the job and the paper. */
module PrintRoute {
  import opened Wrappers
  import opened Records
  import opened Money
  import opened Operations
  import Charging
  import Outcomes

  /** `print_file`: a request that is priced is sent at that price; one that is not reaches nothing. */
  function Submit(s: State, user: Id, id: Id, printer: Charging.Printer, permits: seq<Charging.Permit>, groups: set<Id>,
                  options: Charging.Options, filePages: nat, cups: Option<int>): Option<Outcome>
    requires options.numberUp > 0
  {
    match Charging.PrintFile(id, printer, permits, groups, options, filePages)
    case Charged(pages, cost) => Some(SendPrint(s, user, id, pages, options.color, Amount(cost), cups))
    case _ => None
  }

  /** A request that is carried out takes the least sheets for every copy, at the price that applies,
      off the user's balance and credit, and puts a job of just those pages in the queue. */
  lemma RequestDebitsExactly(s: State, user: Id, id: Id, printer: Charging.Printer, permits: seq<Charging.Permit>,
                             groups: set<Id>, options: Charging.Options, filePages: nat, cups: Option<int>,
                             sheets: nat, price: real)
    requires options.numberUp > 0
    requires Charging.PrintFile(id, printer, permits, groups, options, filePages).Charged?
    requires Charging.Asked(options, filePages).Pages? ==>
               Charging.IsLeastRoom(sheets, Charging.Asked(options, filePages).count, options.numberUp)
    requires Charging.IsPrice(permits, groups, id, printer, options.color, price)
    ensures var o := Submit(s, user, id, printer, permits, groups, options, filePages, cups);
            var q := Charging.PrintFile(id, printer, permits, groups, options, filePages);
            var cost := q.cost;
      && q.pages == sheets * options.copies && Charging.IsPricedAt(q, price)
      && o.Some?
      && (o.value.reply.Done? <==> user < |s.accounts| && Outcomes.Spare(s, user, cost) >= 0 && cups.Some?)
      && (o.value.reply.Done? ==>
            && Outcomes.BalanceMoves(s, o.value.state, user, -cost)
            && o.value.state.jobs
               == s.jobs + [Job(user, id, q.pages, options.color, cost, JobStatus.Pending, cups.value, None)])
      && (!o.value.reply.Done? ==> o.value.state == s)
  {
    hide *;
    Charging.RouteChargesExactly(id, printer, permits, groups, options, filePages, sheets, price);
    SubmitSends(s, user, id, printer, permits, groups, options, filePages, cups);
    var q := Charging.PrintFile(id, printer, permits, groups, options, filePages);
    CentsOfAmount(q.cost);
    Outcomes.PrintOutcome(s, user, id, q.pages, options.color, Amount(q.cost), cups);
    RefusedPrintKeeps(s, user, id, q.pages, options.color, Amount(q.cost), cups);
  }

  lemma SubmitSends(s: State, user: Id, id: Id, printer: Charging.Printer, permits: seq<Charging.Permit>, groups: set<Id>,
                    options: Charging.Options, filePages: nat, cups: Option<int>)
    requires options.numberUp > 0 && Charging.PrintFile(id, printer, permits, groups, options, filePages).Charged?
    ensures var q := Charging.PrintFile(id, printer, permits, groups, options, filePages);
            Submit(s, user, id, printer, permits, groups, options, filePages, cups)
            == Some(SendPrint(s, user, id, q.pages, options.color, Amount(q.cost), cups))
  {
    hide Charging.PrintFile, SendPrint, Amount;
  }

  lemma RefusedPrintKeeps(s: State, user: Id, printer: Id, pages: nat, color: bool, cost: real, cups: Option<int>)
    ensures var o := SendPrint(s, user, printer, pages, color, cost, cups); !o.reply.Done? ==> o.state == s
  {
    hide Cents;
  }
}
