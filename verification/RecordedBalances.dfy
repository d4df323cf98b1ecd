/** When `balance_after` still is the sum of the rows up to its own, once calls interleave.

    A call takes down the balance its UPDATE left and writes it into the ledger only later. */
module RecordedBalances {
  import opened Wrappers
  import opened Records
  import opened Totals
  import opened Money
  import opened Operations
  import opened Interleaving

  predicate IsFlying(w: World, t: nat) {
    t < |w.threads| && w.threads[t].InFlight?
  }

  /** The event writes the row of a call in flight. */
  predicate IsRecording(w: World, e: Event) {
    e.Move? && IsFlying(w, e.thread) && (w.threads[e.thread].call.request.Debit? ==> e.submitted)
  }

  /** The event takes back the debit of a print job. */
  predicate IsCompensation(w: World, e: Event) {
    e.Move? && IsFlying(w, e.thread) && !IsRecording(w, e)
  }

  /** Row `i` records its user's opening balance plus the rows up to and including it. */
  ghost predicate RowReplays(w: World, i: nat)
    requires i < |w.log|
  {
    w.log[i].user.Some? && w.log[i].balanceAfter.Some? ==>
      w.log[i].balanceAfter.value
      == Opening(w, w.log[i].user.value) + Total(w.log[..i + 1], MoneyOfUser(w.log[i].user.value))
  }

  ghost predicate Replays(w: World) {
    forall i | 0 <= i < |w.log| :: RowReplays(w, i)
  }

  /** What has happened to the user's balance since the UPDATE of a call is just what the user's
      other calls in flight have done to it. */
  predicate IsTimely(w: World, t: nat)
    requires IsFlying(w, t)
  {
    var thread := w.threads[t];
    Balance(w, thread.call.user) - thread.balance == PendingTotal(w.threads, thread.call.user) - thread.delta
  }

  ghost predicate TimelyEvent(w: World, e: Event) {
    IsRecording(w, e) ==> IsTimely(w, e.thread)
  }

  lemma OlderRowsKept(w: World, e: Event, i: nat)
    requires Sound(w) && i < |w.log|
    ensures var n := Happen(w, e); i < |n.log| && (RowReplays(n, i) <==> RowReplays(w, i))
  {
    var n := Happen(w, e);
    LogGrows(w, e);
    assert n.log[..i + 1] == w.log[..i + 1];
    if w.log[i].user.Some? {
      EventKeepsOpening(w, e, w.log[i].user.value);
    }
  }

  lemma LogGrows(w: World, e: Event)
    ensures w.log <= Happen(w, e).log
    ensures |Happen(w, e).log| == |w.log| + if IsRecording(w, e) then 1 else 0
  {
    hide Cents, Covers;
  }

  lemma RecordReplaysExactly(w: World, e: Event)
    requires Sound(w) && IsRecording(w, e)
    ensures var n := Happen(w, e);
            |n.log| == |w.log| + 1 && (RowReplays(n, |w.log|) <==> IsTimely(w, e.thread))
  {
    hide Cents;
    var n, thread := Happen(w, e), w.threads[e.thread];
    var user := thread.call.user;
    assert IsSound(thread, |w.accounts|);
    EventKeepsOpening(w, e, user);
    TotalAppend(w.log, n.log[|w.log|]);
    assert n.log == w.log + [n.log[|w.log|]] && n.log[..|w.log| + 1] == n.log;
  }

  lemma EventReplaysExactly(w: World, e: Event)
    requires Sound(w)
    ensures Replays(Happen(w, e)) <==> Replays(w) && TimelyEvent(w, e)
  {
    var n := Happen(w, e);
    LogGrows(w, e);
    forall i: nat | i < |w.log| ensures RowReplays(n, i) <==> RowReplays(w, i) {
      OlderRowsKept(w, e, i);
    }
    if IsRecording(w, e) {
      RecordReplaysExactly(w, e);
    }
    hide RowReplays, IsTimely;
    if Replays(n) {
      assert forall i | 0 <= i < |w.log| :: RowReplays(n, i);
    }
  }

  ghost predicate AllTimely(w: World, events: seq<Event>)
    decreases |events|
  {
    events == [] || (TimelyEvent(w, events[0]) && AllTimely(Happen(w, events[0]), events[1..]))
  }

  /** Every interleaving: all recorded balances replay if and only if every row was recorded while
      its user's balance was off by just the other calls in flight. */
  lemma {:induction false} RunReplaysExactly(w: World, events: seq<Event>)
    requires Sound(w)
    ensures Replays(After(w, events)) <==> Replays(w) && AllTimely(w, events)
    decreases |events|
  {
    hide Sound, Replays, TimelyEvent;
    if events != [] {
      EventKeepsSound(w, events[0]);
      EventReplaysExactly(w, events[0]);
      RunReplaysExactly(Happen(w, events[0]), events[1..]);
    }
  }

  // ---------- Recording in the order of the UPDATEs ----------

  predicate SameUser(w: World, t: nat, s: nat) {
    IsFlying(w, t) && IsFlying(w, s) && w.threads[s].call.user == w.threads[t].call.user
  }

  /** A user's rows are recorded first come, first served, and a debit is taken back only while no
      later UPDATE of that user is in flight. */
  ghost predicate Orderly(w: World, e: Event) {
    && (IsRecording(w, e) ==>
          forall s: nat | SameUser(w, e.thread, s) && s != e.thread :: w.threads[e.thread].place < w.threads[s].place)
    && (IsCompensation(w, e) ==>
          forall s: nat | SameUser(w, e.thread, s) && s != e.thread :: w.threads[s].place < w.threads[e.thread].place)
  }

  function Later(thread: Thread, user: Id, place: int): int {
    if thread.InFlight? && thread.place > place then Interleaving.Pending(thread, user) else 0
  }

  /** What the user's calls in flight whose UPDATE came after `place` have applied. */
  function LaterTotal(threads: seq<Thread>, user: Id, place: int): int {
    if threads == [] then 0
    else LaterTotal(threads[..|threads| - 1], user, place) + Later(threads[|threads| - 1], user, place)
  }

  lemma {:induction false} LaterReplaced(threads: seq<Thread>, t: nat, thread: Thread, user: Id, place: int)
    requires t < |threads|
    ensures LaterTotal(threads[t := thread], user, place)
            == LaterTotal(threads, user, place) - Later(threads[t], user, place) + Later(thread, user, place)
  {
    var n := |threads| - 1;
    if t == n {
      assert threads[t := thread][..n] == threads[..n];
    } else {
      LaterReplaced(threads[..n], t, thread, user, place);
      assert threads[t := thread][..n] == threads[..n][t := thread];
    }
  }

  lemma LaterStarted(threads: seq<Thread>, call: Call, user: Id, place: int)
    ensures LaterTotal(threads + [Started(call)], user, place) == LaterTotal(threads, user, place)
  {
    assert (threads + [Started(call)])[..|threads|] == threads;
  }

  /** Nothing in flight comes after `place`, or everything of the user's does. */
  lemma {:induction false} NoneLater(threads: seq<Thread>, user: Id, place: int)
    requires forall t | 0 <= t < |threads| && threads[t].InFlight? :: threads[t].place <= place
    ensures LaterTotal(threads, user, place) == 0
  {
    if threads != [] {
      NoneLater(threads[..|threads| - 1], user, place);
    }
  }

  lemma {:induction false} AllLater(threads: seq<Thread>, user: Id, place: int)
    requires forall t | 0 <= t < |threads| && threads[t].InFlight? && threads[t].call.user == user :: threads[t].place > place
    ensures LaterTotal(threads, user, place) == PendingTotal(threads, user)
  {
    if threads != [] {
      AllLater(threads[..|threads| - 1], user, place);
    }
  }

  /** The balance a call took down is the current one without what came later. */
  ghost predicate StandsOn(w: World, t: nat)
    requires IsFlying(w, t)
  {
    var thread := w.threads[t];
    Balance(w, thread.call.user) - thread.balance == LaterTotal(w.threads, thread.call.user, thread.place)
  }

  ghost predicate Stacked(w: World) {
    && (forall t: nat | IsFlying(w, t) :: w.threads[t].place < w.updates && StandsOn(w, t))
    && (forall t: nat, s: nat | IsFlying(w, t) && IsFlying(w, s) && t != s :: w.threads[t].place != w.threads[s].place)
  }

  lemma FirstIsTimely(w: World, t: nat)
    requires Stacked(w) && IsFlying(w, t)
    requires forall s: nat | SameUser(w, t, s) && s != t :: w.threads[t].place < w.threads[s].place
    ensures IsTimely(w, t)
  {
    var thread := w.threads[t];
    var user, others := thread.call.user, w.threads[t := Ended];
    forall s | 0 <= s < |others| && others[s].InFlight? && others[s].call.user == user
      ensures others[s].place > thread.place
    {
      assert SameUser(w, t, s);
    }
    AllLater(others, user, thread.place);
    LaterReplaced(w.threads, t, Ended, user, thread.place);
    PendingReplaced(w.threads, t, Ended, user);
  }

  /** One thread changes: the others stand on what they stood on. */
  lemma OthersStand(w: World, n: World, t: nat, s: nat)
    requires t < |w.threads| && s != t && IsFlying(w, s) && StandsOn(w, s)
    requires |n.threads| == |w.threads| && n.threads == w.threads[t := n.threads[t]]
    requires var user, place := w.threads[s].call.user, w.threads[s].place;
             Balance(n, user) - Balance(w, user)
             == Later(n.threads[t], user, place) - Later(w.threads[t], user, place)
    ensures IsFlying(n, s) && StandsOn(n, s)
  {
    LaterReplaced(w.threads, t, n.threads[t], w.threads[s].call.user, w.threads[s].place);
  }

  lemma UpdateKeepsStack(w: World, n: World, t: nat)
    requires Stacked(w) && t < |w.threads| && w.threads[t].Ready?
    requires var thread := w.threads[t];
      && thread.call.user < |w.accounts|
      && n == w.(accounts := Change(w, thread.call.user, thread.delta),
                 threads := w.threads[t := InFlight(thread.call, thread.delta,
                                                    w.accounts[thread.call.user].balance + thread.delta, w.updates)],
                 updates := w.updates + 1)
    ensures Stacked(n)
  {
    forall s: nat | IsFlying(n, s) ensures n.threads[s].place < n.updates && StandsOn(n, s) {
      if s == t {
        NoneLater(n.threads, w.threads[t].call.user, w.updates);
      } else {
        assert IsFlying(w, s) && StandsOn(w, s);
        OthersStand(w, n, t, s);
      }
    }
    forall r: nat, s: nat | IsFlying(n, r) && IsFlying(n, s) && r != s
      ensures n.threads[r].place != n.threads[s].place
    {
      assert r != t ==> IsFlying(w, r);
      assert s != t ==> IsFlying(w, s);
    }
  }

  /** A thread that lands, or changes without having been in flight. */
  lemma LandingKeepsStack(w: World, n: World, t: nat)
    requires Stacked(w) && t < |w.threads| && n.updates == w.updates
    requires |n.threads| == |w.threads| && n.threads == w.threads[t := n.threads[t]] && !n.threads[t].InFlight?
    requires forall s: nat | IsFlying(w, s) && s != t ::
               Balance(n, w.threads[s].call.user) - Balance(w, w.threads[s].call.user)
               == -Later(w.threads[t], w.threads[s].call.user, w.threads[s].place)
    ensures Stacked(n)
  {
    forall s: nat | IsFlying(n, s) ensures n.threads[s].place < n.updates && StandsOn(n, s) {
      assert s != t && IsFlying(w, s);
      OthersStand(w, n, t, s);
    }
    forall r: nat, s: nat | IsFlying(n, r) && IsFlying(n, s) && r != s
      ensures n.threads[r].place != n.threads[s].place
    {
      assert IsFlying(w, r) && IsFlying(w, s);
    }
  }

  lemma RecordingKeepsStack(w: World, e: Event)
    requires Stacked(w) && Orderly(w, e) && IsRecording(w, e)
    ensures Stacked(Happen(w, e))
  {
    forall s: nat | IsFlying(w, s) && s != e.thread
      ensures Later(w.threads[e.thread], w.threads[s].call.user, w.threads[s].place) == 0
    {
      assert SameUser(w, e.thread, s) ==> w.threads[e.thread].place < w.threads[s].place;
    }
    hide Cents, Stacked;
    LandingKeepsStack(w, Happen(w, e), e.thread);
  }

  lemma CompensationKeepsStack(w: World, e: Event)
    requires Sound(w) && Stacked(w) && Orderly(w, e) && IsCompensation(w, e)
    ensures Stacked(Happen(w, e))
  {
    hide Cents;
    var thread, n := w.threads[e.thread], Happen(w, e);
    assert IsSound(thread, |w.accounts|);
    CentsIsOdd(thread.call.request.cost);
    assert Cents(thread.call.request.cost) == -thread.delta;
    forall s: nat | IsFlying(w, s) && s != e.thread
      ensures Balance(n, w.threads[s].call.user) - Balance(w, w.threads[s].call.user)
              == -Later(thread, w.threads[s].call.user, w.threads[s].place)
    {
      assert SameUser(w, e.thread, s) ==> w.threads[s].place < thread.place;
    }
    hide Stacked;
    LandingKeepsStack(w, n, e.thread);
  }

  lemma StartKeepsStack(w: World, e: Event)
    requires Sound(w) && Stacked(w) && !e.Move?
    ensures Stacked(Happen(w, e))
  {
    var n := Happen(w, e);
    forall s: nat | IsFlying(n, s) ensures n.threads[s].place < n.updates && StandsOn(n, s) {
      assert IsFlying(w, s) && StandsOn(w, s) && IsSound(w.threads[s], |w.accounts|);
      if e.Start? {
        LaterStarted(w.threads, e.call, w.threads[s].call.user, w.threads[s].place);
      }
    }
    forall r: nat, s: nat | IsFlying(n, r) && IsFlying(n, s) && r != s
      ensures n.threads[r].place != n.threads[s].place
    {
      assert IsFlying(w, r) && IsFlying(w, s);
    }
  }

  lemma MoveKeepsStack(w: World, e: Event)
    requires Stacked(w) && e.Move? && e.thread < |w.threads| && !IsFlying(w, e.thread)
    ensures Stacked(Happen(w, e))
  {
    hide Cents, Stacked, Delta, StandsOn, Covers, IsGuarded;
    var n, thread := Happen(w, e), w.threads[e.thread];
    if n.accounts == w.accounts && !n.threads[e.thread].InFlight? {
      if thread.Ended? {
        assert n == w;
      } else {
        LandingKeepsStack(w, n, e.thread);
      }
    } else {
      UpdateKeepsStack(w, n, e.thread);
    }
  }

  lemma EventKeepsStack(w: World, e: Event)
    requires Sound(w) && Stacked(w) && Orderly(w, e)
    ensures Stacked(Happen(w, e)) && TimelyEvent(w, e)
  {
    hide Stacked, Sound, IsTimely, Happen;
    if IsRecording(w, e) {
      FirstIsTimely(w, e.thread);
      RecordingKeepsStack(w, e);
    } else if IsCompensation(w, e) {
      CompensationKeepsStack(w, e);
    } else if !e.Move? {
      StartKeepsStack(w, e);
    } else if e.thread < |w.threads| {
      MoveKeepsStack(w, e);
    } else {
      assert Happen(w, e) == w by { IdleMove(w, e); }
    }
  }

  lemma IdleMove(w: World, e: Event)
    requires e.Move? && e.thread >= |w.threads|
    ensures Happen(w, e) == w
  {
  }

  ghost predicate AllOrderly(w: World, events: seq<Event>)
    decreases |events|
  {
    events == [] || (Orderly(w, events[0]) && AllOrderly(Happen(w, events[0]), events[1..]))
  }

  /** Every interleaving that records each user's rows in the order of their UPDATEs, and takes
      back only a user's latest UPDATE, leaves recorded balances that replay. Calls of different
      users may overtake each other freely. */
  lemma {:induction false} OrderlyRunReplays(w: World, events: seq<Event>)
    requires Sound(w) && Stacked(w) && Replays(w) && AllOrderly(w, events)
    ensures Replays(After(w, events))
    decreases |events|
  {
    hide Sound, Stacked, Replays, Orderly, TimelyEvent;
    if events != [] {
      EventKeepsSound(w, events[0]);
      EventKeepsStack(w, events[0]);
      EventReplaysExactly(w, events[0]);
      OrderlyRunReplays(Happen(w, events[0]), events[1..]);
    }
  }

  /** So it is from any accounts with an empty ledger and nothing in flight. */
  lemma OrderlyRunReplaysFromScratch(accounts: seq<Account>, events: seq<Event>)
    requires AllOrderly(World(accounts, [], [], 0), events)
    ensures Replays(After(World(accounts, [], [], 0), events))
  {
    OrderlyRunReplays(World(accounts, [], [], 0), events);
  }

  /** Out of order it can fail: two credits that record in the opposite order leave a row whose
      balance is not the sum of the rows up to it. */
  lemma RecordedBalancesCanOvertake(row: Tx)
    ensures var first, second := Call(0, Credit(1), row), Call(0, Credit(2), row);
            var events := [Start(first), Move(0, true), Move(0, true), Start(second)]
                          + [Move(1, true), Move(1, true), Move(1, true), Move(0, true)];
            var w := After(World([Account(0, 0)], [], [], 0), events);
      |w.log| == 2 && w.log[0].balanceAfter == Some(3) && Total(w.log[..1], MoneyOfUser(0)) == 2
  {
    hide After;
    var first, second := Call(0, Credit(1), row), Call(0, Credit(2), row);
    var w0 := World([Account(0, 0)], [], [], 0);
    var w4 := World([Account(1, 0)], [], [InFlight(first, 1, 1, 0), Started(second)], 1);
    SplitEvents(w0, [Start(first), Move(0, true), Move(0, true), Start(second)],
                [Move(1, true), Move(1, true), Move(1, true), Move(0, true)]);
    FourEvents(w0, Start(first), Move(0, true), Move(0, true), Start(second));
    assert Happen(Happen(Happen(Happen(w0, Start(first)), Move(0, true)), Move(0, true)), Start(second)) == w4;
    FourEvents(w4, Move(1, true), Move(1, true), Move(1, true), Move(0, true));
    Overtaking(first, second);
  }

  lemma Overtaking(first: Call, second: Call)
    requires first.user == second.user == 0 && first.request == Credit(1) && second.request == Credit(2)
    ensures var w4 := World([Account(1, 0)], [], [InFlight(first, 1, 1, 0), Started(second)], 1);
            var w := Happen(Happen(Happen(Happen(w4, Move(1, true)), Move(1, true)), Move(1, true)), Move(0, true));
      |w.log| == 2 && w.log[0].balanceAfter == Some(3) && Total(w.log[..1], MoneyOfUser(0)) == 2
  {
    var w4 := World([Account(1, 0)], [], [InFlight(first, 1, 1, 0), Started(second)], 1);
    var w6 := Happen(Happen(w4, Move(1, true)), Move(1, true));
    assert w6 == World([Account(3, 0)], [], [InFlight(first, 1, 1, 0), InFlight(second, 2, 3, 1)], 2);
    var w8 := Happen(Happen(w6, Move(1, true)), Move(0, true));
    var one := second.row.(user := Some(0), amount := 2, balanceAfter := Some(3));
    assert w8.log[..1] == [one];
    assert [one][..0] == [];
  }
}
