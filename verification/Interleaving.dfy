/** Balance operations cut at their commit points and interleaved in any order.

    A call first computes its delta (an adjustment reads the balance for that), then applies it in
    one guarded UPDATE, and only later records it in the ledger or, for a print job that the print
    server refused, compensates it. Between those commits any other call may run. */
module Interleaving {
  import opened Wrappers
  import opened Records
  import opened Totals
  import opened Money
  import opened Operations

  datatype Request =
    | Debit(cost: real)                    // a print job
    | Charge(total: int)                   // a product purchase
    | Credit(refunded: int)                // a refund, whichever route grants it
    | TopUp(amount: real, enforce: bool)   // a recharge
    | AdjustTo(target: real)               // a balance adjustment

  /** `row` holds what the ledger row will say besides its user, amount and balance. */
  datatype Call = Call(user: Id, request: Request, row: Tx)

  /** `place` is where a call's UPDATE came among all UPDATEs. */
  datatype Thread =
    | Started(call: Call)
    | Ready(call: Call, delta: int)
    | InFlight(call: Call, delta: int, balance: int, place: nat)
    | Ended

  datatype World = World(accounts: seq<Account>, log: seq<Tx>, threads: seq<Thread>, updates: nat)

  /** `submitted` is the print server's answer, for the one step that asks for it. */
  datatype Event = Join | Start(call: Call) | Move(thread: nat, submitted: bool)

  predicate IsGuarded(request: Request) {
    request.Debit? || request.Charge? || request.AdjustTo? || (request.TopUp? && request.enforce)
  }

  /** The delta a call applies, given the balance it read. */
  function Delta(request: Request, balance: int): int {
    match request
    case Debit(cost) => Cents(-cost)
    case Charge(total) => -total
    case Credit(cost) => cost
    case TopUp(amount, _) => Cents(amount)
    case AdjustTo(target) => Cents(target) - balance
  }

  /** The amount its ledger row states. */
  function Recorded(request: Request, delta: int): int {
    match request
    case Debit(cost) => -Cents(cost)
    case _ => delta
  }

  function Change(w: World, user: Id, delta: int): seq<Account>
    requires user < |w.accounts|
  {
    w.accounts[user := w.accounts[user].(balance := w.accounts[user].balance + delta)]
  }

  function Advance(w: World, t: nat, submitted: bool): World
    requires t < |w.threads|
  {
    match w.threads[t]
    case Started(c) =>
      if c.request.AdjustTo? && c.user >= |w.accounts| then w.(threads := w.threads[t := Ended])
      else
        var read := if c.user < |w.accounts| then w.accounts[c.user].balance else 0;
        w.(threads := w.threads[t := Ready(c, Delta(c.request, read))])
    case Ready(c, delta) =>
      if c.user >= |w.accounts| || (IsGuarded(c.request) && !Covers(w.accounts[c.user], delta)) then
        w.(threads := w.threads[t := Ended])
      else
        w.(accounts := Change(w, c.user, delta),
           threads := w.threads[t := InFlight(c, delta, w.accounts[c.user].balance + delta, w.updates)],
           updates := w.updates + 1)
    case InFlight(c, delta, balance, _) =>
      if c.request.Debit? && !submitted then
        if c.user >= |w.accounts| then w
        else w.(accounts := Change(w, c.user, Cents(c.request.cost)), threads := w.threads[t := Ended])
      else
        w.(log := w.log + [c.row.(user := Some(c.user), amount := Recorded(c.request, delta),
                                  balanceAfter := Some(balance))],
           threads := w.threads[t := Ended])
    case Ended => w
  }

  function Happen(w: World, e: Event): World {
    match e
    case Join => w.(accounts := w.accounts + [Account(0, 0)])
    case Start(call) => w.(threads := w.threads + [Started(call)])
    case Move(t, submitted) => if t < |w.threads| then Advance(w, t, submitted) else w
  }

  function After(w: World, events: seq<Event>): World
    decreases |events|
  {
    if events == [] then w else After(Happen(w, events[0]), events[1..])
  }

  // ---------- No update is ever lost ----------

  function Pending(thread: Thread, user: Id): int {
    if thread.InFlight? && thread.call.user == user then thread.delta else 0
  }

  /** What has been applied to a balance but neither recorded nor compensated yet. */
  function PendingTotal(threads: seq<Thread>, user: Id): int {
    if threads == [] then 0
    else PendingTotal(threads[..|threads| - 1], user) + Pending(threads[|threads| - 1], user)
  }

  lemma {:induction false} PendingReplaced(threads: seq<Thread>, t: nat, thread: Thread, user: Id)
    requires t < |threads|
    ensures PendingTotal(threads[t := thread], user)
            == PendingTotal(threads, user) - Pending(threads[t], user) + Pending(thread, user)
  {
    var n := |threads| - 1;
    if t == n {
      assert threads[t := thread][..n] == threads[..n];
    } else {
      PendingReplaced(threads[..n], t, thread, user);
      assert threads[t := thread][..n] == threads[..n][t := thread];
    }
  }

  lemma PendingStarted(threads: seq<Thread>, call: Call, user: Id)
    ensures PendingTotal(threads + [Started(call)], user) == PendingTotal(threads, user)
  {
    assert (threads + [Started(call)])[..|threads|] == threads;
  }

  function Balance(w: World, user: Id): int {
    if user < |w.accounts| then w.accounts[user].balance else 0
  }

  /** A balance less its recorded rows and its pending deltas; an account that has not been opened
      yet has the balance it will open with. */
  function Opening(w: World, user: Id): int {
    Balance(w, user) - Total(w.log, MoneyOfUser(user)) - PendingTotal(w.threads, user)
  }

  /** The delta of a call that is past computing it is the one its ledger row will state. */
  predicate IsSound(thread: Thread, users: nat) {
    match thread
    case Ready(c, delta) => Recorded(c.request, delta) == delta
    case InFlight(c, delta, _, _) => Recorded(c.request, delta) == delta && c.user < users
    case _ => true
  }

  ghost predicate Sound(w: World) {
    forall t | 0 <= t < |w.threads| :: IsSound(w.threads[t], |w.accounts|)
  }

  lemma RecordedIsApplied(request: Request, balance: int)
    ensures Recorded(request, Delta(request, balance)) == Delta(request, balance)
  {
    if request.Debit? {
      CentsIsOdd(request.cost);
    }
  }

  lemma EventKeepsSound(w: World, e: Event)
    requires Sound(w)
    ensures Sound(Happen(w, e)) && |Happen(w, e).accounts| >= |w.accounts|
  {
    hide Cents, Delta, Recorded;
    if e.Move? && e.thread < |w.threads| && w.threads[e.thread].Started? {
      var c := w.threads[e.thread].call;
      RecordedIsApplied(c.request, if c.user < |w.accounts| then w.accounts[c.user].balance else 0);
    }
  }

  /** One thread changes; what it gains or loses in flight, balance and ledger make up for. */
  lemma MoveKeepsOpening(w: World, n: World, t: nat, user: Id)
    requires t < |w.threads| && |n.threads| == |w.threads| && n.threads == w.threads[t := n.threads[t]]
    requires Balance(n, user) - Balance(w, user)
             == Total(n.log, MoneyOfUser(user)) - Total(w.log, MoneyOfUser(user))
                + Pending(n.threads[t], user) - Pending(w.threads[t], user)
    ensures Opening(n, user) == Opening(w, user)
  {
    PendingReplaced(w.threads, t, n.threads[t], user);
  }

  lemma FlightKeepsOpening(w: World, t: nat, submitted: bool, user: Id)
    requires t < |w.threads| && w.threads[t].InFlight? && IsSound(w.threads[t], |w.accounts|)
    ensures Opening(Advance(w, t, submitted), user) == Opening(w, user)
  {
    hide Cents;
    var n, thread := Advance(w, t, submitted), w.threads[t];
    if thread.call.request.Debit? {
      CentsIsOdd(thread.call.request.cost);
    }
    if n.log != w.log {
      TotalAppend(w.log, n.log[|w.log|]);
      assert n.log == w.log + [n.log[|w.log|]];
    }
    MoveKeepsOpening(w, n, t, user);
  }

  lemma EventKeepsOpening(w: World, e: Event, user: Id)
    requires Sound(w)
    ensures Opening(Happen(w, e), user) == Opening(w, user)
  {
    hide Cents, Delta, Covers, Total, Recorded;
    if e.Start? {
      PendingStarted(w.threads, e.call, user);
    } else if e.Move? && e.thread < |w.threads| {
      if w.threads[e.thread].InFlight? {
        FlightKeepsOpening(w, e.thread, e.submitted, user);
      } else if !w.threads[e.thread].Ended? {
        MoveKeepsOpening(w, Advance(w, e.thread, e.submitted), e.thread, user);
      }
    }
  }

  /** Every interleaving: a balance is its opening value plus the recorded rows plus the deltas
      still in flight, also for accounts opened on the way. */
  lemma {:induction false} NothingIsLost(w: World, events: seq<Event>, user: Id)
    requires Sound(w)
    ensures Sound(After(w, events)) && |After(w, events).accounts| >= |w.accounts|
    ensures Opening(After(w, events), user) == Opening(w, user)
    decreases |events|
  {
    if events != [] {
      EventKeepsSound(w, events[0]);
      EventKeepsOpening(w, events[0], user);
      NothingIsLost(Happen(w, events[0]), events[1..], user);
    }
  }

  lemma {:induction false} NothingPending(threads: seq<Thread>, user: Id)
    requires forall t | 0 <= t < |threads| :: !threads[t].InFlight?
    ensures PendingTotal(threads, user) == 0
  {
    if threads != [] {
      NothingPending(threads[..|threads| - 1], user);
    }
  }

  /** So once no call is in flight, the ledger explains every balance. */
  lemma QuiescentReplays(accounts: seq<Account>, log: seq<Tx>, events: seq<Event>, user: Id)
    requires var w := After(World(accounts, log, [], 0), events);
             forall t | 0 <= t < |w.threads| :: !w.threads[t].InFlight?
    ensures var start := World(accounts, log, [], 0);
            var w := After(start, events);
            Balance(w, user) - Total(w.log, MoneyOfUser(user)) == Balance(start, user) - Total(log, MoneyOfUser(user))
  {
    NothingIsLost(World(accounts, log, [], 0), events, user);
    NothingPending(After(World(accounts, log, [], 0), events).threads, user);
  }

  // ---------- The credit floor ----------

  ghost predicate Floor(w: World) {
    forall u | 0 <= u < |w.accounts| :: Covers(w.accounts[u], 0)
  }

  /** Prices and unguarded credits are not negative. */
  predicate IsFair(request: Request) {
    match request
    case Debit(cost) => cost >= 0.0
    case Credit(cost) => cost >= 0
    case TopUp(amount, enforce) => enforce || amount >= 0.0
    case _ => true
  }

  predicate ThreadFair(thread: Thread) {
    match thread
    case Started(c) => IsFair(c.request)
    case Ready(c, delta) => IsFair(c.request) && (IsGuarded(c.request) || delta >= 0)
    case InFlight(c, _, _, _) => IsFair(c.request)
    case Ended => true
  }

  ghost predicate Fair(w: World) {
    forall t | 0 <= t < |w.threads| :: ThreadFair(w.threads[t])
  }

  lemma FairDelta(request: Request, balance: int)
    requires IsFair(request) && !IsGuarded(request)
    ensures Delta(request, balance) >= 0
  {
  }

  lemma FairCompensation(request: Request)
    requires IsFair(request) && request.Debit?
    ensures Cents(request.cost) >= 0
  {
  }

  lemma EventKeepsFloor(w: World, e: Event)
    requires Floor(w) && Fair(w) && (e.Start? ==> IsFair(e.call.request))
    ensures Floor(Happen(w, e)) && Fair(Happen(w, e))
  {
    hide Cents, Delta, IsGuarded, IsFair;
    if e.Move? && e.thread < |w.threads| {
      var thread := w.threads[e.thread];
      assert ThreadFair(thread);
      if thread.Started? {
        var c := thread.call;
        if !IsGuarded(c.request) {
          FairDelta(c.request, if c.user < |w.accounts| then w.accounts[c.user].balance else 0);
        }
      } else if thread.InFlight? && thread.call.request.Debit? {
        FairCompensation(thread.call.request);
      }
    }
  }

  /** Every interleaving: because guard and write are one UPDATE, no balance falls below its
      credit limit, not even between the commits of a call. */
  lemma {:induction false} FloorHoldsThroughout(w: World, events: seq<Event>)
    requires Floor(w) && Fair(w)
    requires forall i | 0 <= i < |events| && events[i].Start? :: IsFair(events[i].call.request)
    ensures Floor(After(w, events)) && Fair(After(w, events))
    decreases |events|
  {
    if events != [] {
      EventKeepsFloor(w, events[0]);
      FloorHoldsThroughout(Happen(w, events[0]), events[1..]);
    }
  }

  // ---------- A call that runs alone ----------

  /** The events of one call that nothing interrupts. */
  function Uninterrupted(w: World, call: Call, submitted: bool): World {
    var t := |w.threads|;
    After(w, [Start(call), Move(t, submitted), Move(t, submitted), Move(t, submitted)])
  }

  lemma FourEvents(w: World, a: Event, b: Event, c: Event, d: Event)
    ensures After(w, [a, b, c, d]) == Happen(Happen(Happen(Happen(w, a), b), c), d)
  {
    assert [a, b, c, d][1..] == [b, c, d];
    assert [b, c, d][1..] == [c, d];
    assert [c, d][1..] == [d];
    assert [d][1..] == [];
    assert After(w, [a, b, c, d]) == After(Happen(w, a), [b, c, d]);
    assert After(Happen(w, a), [b, c, d]) == After(Happen(Happen(w, a), b), [c, d]);
    assert After(Happen(Happen(w, a), b), [c, d]) == After(Happen(Happen(Happen(w, a), b), c), [d]);
  }

  /** The net effect of a call that runs alone: all of it, or nothing. */
  lemma AloneIsAllOrNothing(w: World, call: Call, submitted: bool)
    ensures var r := Uninterrupted(w, call, submitted);
            var read := if call.user < |w.accounts| then w.accounts[call.user].balance else 0;
            var delta := Delta(call.request, read);
      if call.user < |w.accounts| && (IsGuarded(call.request) ==> Covers(w.accounts[call.user], delta))
         && (call.request.Debit? ==> submitted) then
        && r.accounts == Change(w, call.user, delta)
        && r.log == w.log + [call.row.(user := Some(call.user), amount := delta, balanceAfter := Some(read + delta))]
      else r.accounts == w.accounts && r.log == w.log
  {
    var t := |w.threads|;
    FourEvents(w, Start(call), Move(t, submitted), Move(t, submitted), Move(t, submitted));
    var read := if call.user < |w.accounts| then w.accounts[call.user].balance else 0;
    RecordedIsApplied(call.request, read);
    if call.request.Debit? {
      CentsIsOdd(call.request.cost);
    }
    AloneSteps(w, call, submitted);
  }

  lemma AloneSteps(w: World, call: Call, submitted: bool)
    requires call.request.Debit? ==> Cents(-call.request.cost) == -Cents(call.request.cost)
    ensures var t := |w.threads|;
            var w1 := Happen(w, Start(call));
            var w2 := Happen(w1, Move(t, submitted));
            var w3 := Happen(w2, Move(t, submitted));
            var r := Happen(w3, Move(t, submitted));
            var read := if call.user < |w.accounts| then w.accounts[call.user].balance else 0;
            var delta := Delta(call.request, read);
      if call.user < |w.accounts| && (IsGuarded(call.request) ==> Covers(w.accounts[call.user], delta))
         && (call.request.Debit? ==> submitted) then
        && r.accounts == Change(w, call.user, delta)
        && r.log == w.log + [call.row.(user := Some(call.user), amount := Recorded(call.request, delta),
                                       balanceAfter := Some(read + delta))]
      else r.accounts == w.accounts && r.log == w.log
  {
    hide Cents, Covers, Recorded;
  }

  /** An uninterrupted print, purchase, recharge or adjustment leaves the balances and the ledger
      that the atomic operation leaves. */
  lemma AloneIsPrint(s: State, threads: seq<Thread>, updates: nat, user: Id, printer: Id, pages: nat, color: bool, cost: real, cups: Option<int>)
    ensures var call := Call(user, Debit(cost), Entry(Print, 0, Some(user), ActorType.User).(job := Some(|s.jobs|)));
            var r := Uninterrupted(World(s.accounts, s.log, threads, updates), call, cups.Some?);
            var t := SendPrint(s, user, printer, pages, color, cost, cups).state;
            r.accounts == t.accounts && r.log == t.log
  {
    hide Cents, Uninterrupted;
    CentsIsOdd(cost);
    var call := Call(user, Debit(cost), Entry(Print, 0, Some(user), ActorType.User).(job := Some(|s.jobs|)));
    AloneIsAllOrNothing(World(s.accounts, s.log, threads, updates), call, cups.Some?);
  }

  lemma AloneIsRecharge(s: State, threads: seq<Thread>, updates: nat, user: Id, amount: real, actor: Option<Id>, actorType: ActorType,
                        request: Option<Id>, enforce: bool, submitted: bool)
    ensures var call := Call(user, TopUp(amount, enforce), Entry(Recharge, 0, actor, actorType).(request := request));
            var r := Uninterrupted(World(s.accounts, s.log, threads, updates), call, submitted);
            var t := RecordRecharge(s, user, amount, actor, actorType, request, enforce).state;
            r.accounts == t.accounts && r.log == t.log
  {
    hide Cents, Uninterrupted;
    var call := Call(user, TopUp(amount, enforce), Entry(Recharge, 0, actor, actorType).(request := request));
    AloneIsAllOrNothing(World(s.accounts, s.log, threads, updates), call, submitted);
  }

  lemma AloneIsAdjustment(s: State, threads: seq<Thread>, updates: nat, user: Id, target: real, actor: Option<Id>, actorType: ActorType,
                          submitted: bool)
    ensures var call := Call(user, AdjustTo(target), Entry(Adjustment, 0, actor, actorType));
            var r := Uninterrupted(World(s.accounts, s.log, threads, updates), call, submitted);
            var t := RecordAdjustment(s, user, target, None, actor, actorType).state;
            r.accounts == t.accounts && r.log == t.log
  {
    hide Cents, Uninterrupted;
    var call := Call(user, AdjustTo(target), Entry(Adjustment, 0, actor, actorType));
    AloneIsAllOrNothing(World(s.accounts, s.log, threads, updates), call, submitted);
  }

  lemma AloneIsRefund(s: State, threads: seq<Thread>, updates: nat, job: Id, refund: Option<Id>, actor: Option<Id>, actorType: ActorType,
                      submitted: bool)
    requires job < |s.jobs| && s.jobs[job].user < |s.accounts|
    ensures var call := Call(s.jobs[job].user, Credit(s.jobs[job].cost),
                             Entry(Refund, 0, actor, actorType).(refund := refund, job := Some(job)));
            var r := Uninterrupted(World(s.accounts, s.log, threads, updates), call, submitted);
            var t := CreditJob(s, job, refund, actor, actorType);
            r.accounts == t.accounts && r.log == t.log
  {
    hide Cents, Uninterrupted;
    var call := Call(s.jobs[job].user, Credit(s.jobs[job].cost),
                     Entry(Refund, 0, actor, actorType).(refund := refund, job := Some(job)));
    AloneIsAllOrNothing(World(s.accounts, s.log, threads, updates), call, submitted);
  }

  lemma AloneIsPurchase(s: State, threads: seq<Thread>, updates: nat, product: Id, user: Id, quantity: nat, submitted: bool)
    requires product < |s.products| && s.products[product].active
    ensures var call := Call(user, Charge(s.products[product].price * quantity),
                             Entry(ProductPurchase, 0, Some(user), ActorType.User).(purchase := Some(|s.purchases|)));
            var r := Uninterrupted(World(s.accounts, s.log, threads, updates), call, submitted);
            var t := BuyProduct(s, product, user, quantity).state;
            r.accounts == t.accounts && r.log == t.log
  {
    hide Cents, Uninterrupted;
    var call := Call(user, Charge(s.products[product].price * quantity),
                     Entry(ProductPurchase, 0, Some(user), ActorType.User).(purchase := Some(|s.purchases|)));
    AloneIsAllOrNothing(World(s.accounts, s.log, threads, updates), call, submitted);
  }

  lemma {:induction false} SplitEvents(w: World, a: seq<Event>, b: seq<Event>)
    ensures After(w, a + b) == After(After(w, a), b)
    decreases |a|
  {
    if a == [] {
      assert a + b == b;
    } else {
      assert (a + b)[1..] == a[1..] + b;
      SplitEvents(Happen(w, a[0]), a[1..], b);
    }
  }
}
