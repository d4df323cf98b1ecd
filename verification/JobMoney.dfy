/** A print job is paid once and refunded at most once, whichever of the three routes refunds it. */
module JobMoney {
  import opened Wrappers
  import opened Records
  import opened Totals
  import opened Money
  import opened Operations

  ghost predicate HasApproved(s: State, job: Id) {
    exists r :: r in s.refunds && s.refunds[r].job == job && s.refunds[r].status.Approved?
  }

  /** The job ended in an error status, or a refund request for it was approved. */
  ghost predicate Refunded(s: State, job: Id)
    requires job < |s.jobs|
  {
    InError(s.jobs[job].status) || HasApproved(s, job)
  }

  ghost predicate Balanced(s: State, job: Id) {
    if job < |s.jobs| then
      && Total(s.log, MoneyOfJob(job)) == (if Refunded(s, job) then 0 else -s.jobs[job].cost)
      && Total(s.log, RefundsOfJob(job)) == (if Refunded(s, job) then 1 else 0)
    else
      Total(s.log, MoneyOfJob(job)) == 0 && Total(s.log, RefundsOfJob(job)) == 0
  }

  /** Requests exist for completed jobs only, at most one per job, and belong to the job's owner;
      every row about a job is about its owner's money. */
  ghost predicate LinksInOrder(s: State) {
    && (forall j | 0 <= j < |s.jobs| :: s.jobs[j].user < |s.accounts|)
    && (forall r | r in s.refunds ::
          && r < s.nextRefund
          && s.refunds[r].job < |s.jobs|
          && s.jobs[s.refunds[r].job].status.Completed?
          && s.refunds[r].user == s.jobs[s.refunds[r].job].user)
    && (forall r, q | r in s.refunds && q in s.refunds && s.refunds[r].job == s.refunds[q].job :: r == q)
    && (forall i | 0 <= i < |s.log| && s.log[i].job.Some? ::
          s.log[i].job.value < |s.jobs| && s.log[i].user == Some(s.jobs[s.log[i].job.value].user))
  }

  ghost predicate JobsInOrder(s: State) {
    LinksInOrder(s) && forall j: Id :: Balanced(s, j)
  }

  /** The same jobs and requests, and a ledger that says the same about every job. */
  lemma ElsewhereKeeps(s: State, t: State)
    requires JobsInOrder(s)
    requires t.jobs == s.jobs && t.refunds == s.refunds && t.nextRefund == s.nextRefund
    requires |t.accounts| >= |s.accounts|
    requires forall i | 0 <= i < |t.log| && t.log[i].job.Some? ::
               i < |s.log| && t.log[i].job == s.log[i].job && t.log[i].user == s.log[i].user
    requires forall j: Id :: Total(t.log, MoneyOfJob(j)) == Total(s.log, MoneyOfJob(j))
    requires forall j: Id :: Total(t.log, RefundsOfJob(j)) == Total(s.log, RefundsOfJob(j))
    ensures JobsInOrder(t)
  {
    forall j: Id ensures Balanced(t, j) {
      assert Balanced(s, j);
      assert HasApproved(t, j) == HasApproved(s, j);
    }
  }

  lemma UnlinkedRowKeeps(s: State, t: State, row: Tx)
    requires JobsInOrder(s)
    requires t.jobs == s.jobs && t.refunds == s.refunds && t.nextRefund == s.nextRefund
    requires |t.accounts| >= |s.accounts| && t.log == s.log + [row] && row.job.None?
    ensures JobsInOrder(t)
  {
    TotalAppend(s.log, row);
    ElsewhereKeeps(s, t);
  }

  lemma SettleKeeps(s: State, event: CollectionEvent)
    requires JobsInOrder(s)
    ensures JobsInOrder(Settle(s, event))
  {
    var t := Settle(s, event);
    forall j: Id
      ensures Total(t.log, MoneyOfJob(j)) == Total(s.log, MoneyOfJob(j))
      ensures Total(t.log, RefundsOfJob(j)) == Total(s.log, RefundsOfJob(j))
    {
      TotalAlike(t.log, s.log, MoneyOfJob(j));
      TotalAlike(t.log, s.log, RefundsOfJob(j));
    }
    ElsewhereKeeps(s, t);
  }

  /** A new job arrives with the row that pays for it. */
  lemma NewJobKeeps(s: State, t: State, job: Job, row: Tx)
    requires JobsInOrder(s)
    requires t.jobs == s.jobs + [job] && t.refunds == s.refunds && t.nextRefund == s.nextRefund
    requires |t.accounts| == |s.accounts| && t.log == s.log + [row]
    requires job.user < |s.accounts| && job.status.Pending?
    requires row.job == Some(|s.jobs|) && row.user == Some(job.user)
    requires row.amount == -job.cost && !row.kind.Refund?
    ensures JobsInOrder(t)
  {
    TotalAppend(s.log, row);
    forall j: Id ensures Balanced(t, j) {
      assert Balanced(s, j);
      assert HasApproved(t, j) == HasApproved(s, j);
    }
  }

  /** A job that was not refunded becomes refunded together with the row that gives its cost back. */
  lemma RefundKeeps(s: State, t: State, job: Id, row: Tx)
    requires JobsInOrder(s) && LinksInOrder(t) && job < |s.jobs|
    requires |t.jobs| == |s.jobs| && t.log == s.log + [row]
    requires !Refunded(s, job) && Refunded(t, job)
    requires forall j | 0 <= j < |s.jobs| :: t.jobs[j].cost == s.jobs[j].cost
    requires forall j | 0 <= j < |s.jobs| && j != job :: Refunded(t, j) == Refunded(s, j)
    requires row.job == Some(job) && row.kind.Refund? && row.amount == s.jobs[job].cost
    ensures JobsInOrder(t)
  {
    TotalAppend(s.log, row);
    forall j: Id ensures Balanced(t, j) {
      assert Balanced(s, j);
    }
  }

  /** Jobs or requests change, but no job changes sides and no row is written. */
  lemma SameSidesKeep(s: State, t: State)
    requires JobsInOrder(s) && LinksInOrder(t) && t.log == s.log && |t.jobs| == |s.jobs|
    requires forall j | 0 <= j < |s.jobs| :: t.jobs[j].cost == s.jobs[j].cost && Refunded(t, j) == Refunded(s, j)
    ensures JobsInOrder(t)
  {
    forall j: Id ensures Balanced(t, j) {
      assert Balanced(s, j);
    }
  }

  /** Deleting a denied request puts no job on the other side. */
  lemma ClearKeeps(s: State, job: Id)
    requires JobsInOrder(s) && HasRefund(s, job) && s.refunds[RefundOf(s, job)].status.Denied?
    ensures var t := s.(refunds := s.refunds - {RefundOf(s, job)}); JobsInOrder(t) && !HasRefund(t, job)
  {
    var d := RefundOf(s, job);
    var t := s.(refunds := s.refunds - {d});
    forall j | 0 <= j < |s.jobs| ensures HasApproved(t, j) == HasApproved(s, j) {
      if HasApproved(s, j) {
        var r :| r in s.refunds && s.refunds[r].job == j && s.refunds[r].status.Approved?;
        assert r in t.refunds;
      }
    }
    SameSidesKeep(s, t);
  }

  lemma AddPendingKeeps(s: State, job: Id)
    requires JobsInOrder(s) && job < |s.jobs| && s.jobs[job].status.Completed? && !HasRefund(s, job)
    ensures JobsInOrder(AddRefund(s, RefundRequest(s.jobs[job].user, job, RefundStatus.Pending, None)))
  {
    var t := AddRefund(s, RefundRequest(s.jobs[job].user, job, RefundStatus.Pending, None));
    forall j | 0 <= j < |s.jobs| ensures HasApproved(t, j) == HasApproved(s, j) {
      if HasApproved(s, j) {
        var r :| r in s.refunds && s.refunds[r].job == j && s.refunds[r].status.Approved?;
        assert r in t.refunds && t.refunds[r] == s.refunds[r];
      }
    }
    SameSidesKeep(s, t);
  }

  lemma DemandKeeps(s: State, job: Id, requester: Id)
    requires JobsInOrder(s)
    ensures JobsInOrder(RequestRefund(s, job, requester).state)
  {
    if RequestRefund(s, job, requester).reply.Done? {
      if HasRefund(s, job) {
        ClearKeeps(s, job);
        AddPendingKeeps(s.(refunds := s.refunds - {RefundOf(s, job)}), job);
      } else {
        AddPendingKeeps(s, job);
      }
    }
  }

  /** Approving the one request of a job refunds that job and no other. */
  lemma DecidedRequest(s: State, refund: Id, status: RefundStatus)
    requires LinksInOrder(s) && refund in s.refunds && s.refunds[refund].status.Pending?
    ensures var t := s.(refunds := s.refunds[refund := s.refunds[refund].(status := status)]);
            var job := s.refunds[refund].job;
      && LinksInOrder(t)
      && !HasApproved(s, job)
      && (HasApproved(t, job) <==> status.Approved?)
      && (forall j | 0 <= j < |s.jobs| && j != job :: HasApproved(t, j) == HasApproved(s, j))
  {
    var r := s.refunds[refund];
    var t := s.(refunds := s.refunds[refund := r.(status := status)]);
    forall j | 0 <= j < |s.jobs| && j != r.job ensures HasApproved(t, j) == HasApproved(s, j) {
      if HasApproved(s, j) {
        var q :| q in s.refunds && s.refunds[q].job == j && s.refunds[q].status.Approved?;
        assert q in t.refunds && t.refunds[q] == s.refunds[q];
      }
    }
    assert refund in t.refunds && t.refunds[refund].job == r.job;
  }

  lemma DecisionKeeps(s: State, refund: Id, status: RefundStatus, admin: Id)
    requires JobsInOrder(s)
    ensures JobsInOrder(ResolveRefund(s, refund, status, admin).state)
  {
    hide Cents, HasApproved;
    var o := ResolveRefund(s, refund, status, admin);
    if o.reply.Done? {
      var r := s.refunds[refund];
      var t := s.(refunds := s.refunds[refund := r.(status := status)]);
      DecidedRequest(s, refund, status);
      if status.Denied? {
        SameSidesKeep(s, t);
      } else {
        CreditedRequest(t, o.state);
        RefundKeeps(s, o.state, r.job, o.state.log[|s.log|]);
      }
    }
  }

  lemma CreditedRequest(t: State, u: State)
    requires u.refunds == t.refunds && u.jobs == t.jobs
    ensures forall j :: HasApproved(u, j) == HasApproved(t, j)
  {
  }

  lemma OverrideKeeps(s: State, job: Id, admin: Id)
    requires JobsInOrder(s)
    ensures JobsInOrder(OverrideRefund(s, job, admin).state)
  {
    var o := OverrideRefund(s, job, admin);
    var found := HasRefund(s, job);
    if job < |s.jobs| && s.jobs[job].status.Completed? && (found ==> s.refunds[RefundOf(s, job)].status.Denied?) {
      var m := if found then s.(refunds := s.refunds - {RefundOf(s, job)}) else s;
      if found { ClearKeeps(s, job); }
      if admin < |s.accounts| {
        AddApprovedKeeps(m, job, admin);
      }
    }
  }

  lemma AddApprovedKeeps(s: State, job: Id, admin: Id)
    requires JobsInOrder(s) && job < |s.jobs| && s.jobs[job].status.Completed? && !HasRefund(s, job)
    ensures var added := AddRefund(s, RefundRequest(s.jobs[job].user, job, RefundStatus.Approved, Some(admin)));
            JobsInOrder(CreditJob(added, job, Some(s.nextRefund), Some(admin), ActorType.Admin))
  {
    var added := AddRefund(s, RefundRequest(s.jobs[job].user, job, RefundStatus.Approved, Some(admin)));
    var t := CreditJob(added, job, Some(s.nextRefund), Some(admin), ActorType.Admin);
    forall j | 0 <= j < |s.jobs| && j != job ensures HasApproved(t, j) == HasApproved(s, j) {
      if HasApproved(s, j) {
        var r :| r in s.refunds && s.refunds[r].job == j && s.refunds[r].status.Approved?;
        assert r in t.refunds && t.refunds[r] == s.refunds[r];
      }
    }
    assert s.nextRefund in t.refunds;
    RefundKeeps(s, t, job, t.log[|s.log|]);
  }

  lemma SameRequestsSameApproval(s: State, t: State)
    requires t.refunds == s.refunds
    ensures forall j :: HasApproved(t, j) == HasApproved(s, j)
  {
  }

  lemma ErrorPollKeeps(s: State, job: Id, status: JobStatus)
    requires JobsInOrder(s) && job < |s.jobs| && InTransit(s.jobs[job].status) && InError(status)
    ensures JobsInOrder(PollJob(s, job, Some(status)))
  {
    var t := PollJob(s, job, Some(status));
    assert !HasRefund(s, job);
    SameRequestsSameApproval(s, t);
    RefundKeeps(s, t, job, t.log[|s.log|]);
  }

  lemma PollShape(s: State, job: Id, status: JobStatus)
    requires job < |s.jobs| && status != s.jobs[job].status && !InError(status)
    ensures var t := PollJob(s, job, Some(status));
      && t.jobs == s.jobs[job := s.jobs[job].(status := status)] && t.refunds == s.refunds
      && t.nextRefund == s.nextRefund && t.log == s.log && t.accounts == s.accounts
  {
  }

  lemma PollKeeps(s: State, job: Id, status: Option<JobStatus>)
    requires JobsInOrder(s) && job < |s.jobs| && InTransit(s.jobs[job].status)
    ensures JobsInOrder(PollJob(s, job, status))
  {
    if status.Some? && status.value != s.jobs[job].status {
      if InError(status.value) {
        ErrorPollKeeps(s, job, status.value);
      } else {
        var t := PollJob(s, job, status);
        PollShape(s, job, status.value);
        assert !HasRefund(s, job);
        SameRequestsSameApproval(s, t);
        SameSidesKeep(s, t);
      }
    }
  }

  /** The steps that write no row and concern neither jobs nor requests for refunds. */
  predicate IsQuiet(step: Step) {
    || step.NewUser? || step.UserEdit? || step.NewRechargeRequest? || step.NewItem? || step.ItemEdit?
    || step.StockMove? || step.ProductEdit?
  }

  lemma QuietStep(s: State, step: Step)
    requires JobsInOrder(s) && IsQuiet(step)
    ensures JobsInOrder(Apply(s, step))
  {
    hide JobsInOrder, Cents;
    SameRowsKeep(s, Apply(s, step));
  }

  /** The steps that at most append one row that names no job. */
  predicate IsUnlinked(step: Step) {
    || step.DirectRecharge? || step.Adjust? || step.RechargeDecision? || step.Buy? || step.PurchaseDecision?
    || step.NewExpense?
  }

  lemma UnlinkedShape(s: State, step: Step)
    requires IsUnlinked(step)
    ensures var t := Apply(s, step);
      && t.jobs == s.jobs && t.refunds == s.refunds && t.nextRefund == s.nextRefund && |t.accounts| == |s.accounts|
      && (t.log == s.log
          || (|t.log| == |s.log| + 1 && t.log == s.log + [t.log[|s.log|]] && t.log[|s.log|].job.None?))
  {
    hide Cents, Covers;
  }

  lemma SameRowsKeep(s: State, t: State)
    requires JobsInOrder(s)
    requires t.jobs == s.jobs && t.refunds == s.refunds && t.nextRefund == s.nextRefund
    requires |t.accounts| >= |s.accounts| && t.log == s.log
    ensures JobsInOrder(t)
  {
    ElsewhereKeeps(s, t);
  }

  lemma UnlinkedStep(s: State, step: Step)
    requires JobsInOrder(s) && IsUnlinked(step)
    ensures JobsInOrder(Apply(s, step))
  {
    hide JobsInOrder;
    var t := Apply(s, step);
    UnlinkedShape(s, step);
    if t.log == s.log {
      SameRowsKeep(s, t);
    } else {
      UnlinkedRowKeeps(s, t, t.log[|s.log|]);
    }
  }

  lemma StepKeeps(s: State, step: Step)
    requires JobsInOrder(s)
    ensures JobsInOrder(Apply(s, step))
  {
    if IsQuiet(step) {
      QuietStep(s, step);
    } else if IsUnlinked(step) {
      UnlinkedStep(s, step);
    } else {
      JobStepKeeps(s, step);
    }
  }

  lemma JobStepKeeps(s: State, step: Step)
    requires JobsInOrder(s) && !IsQuiet(step) && !IsUnlinked(step)
    ensures JobsInOrder(Apply(s, step))
  {
    match step
    case PrintStep(u, p, n, c, cost, cups) =>
      var o := SendPrint(s, u, p, n, c, cost, cups);
      if o.reply.Done? { NewJobKeeps(s, o.state, o.state.jobs[|s.jobs|], o.state.log[|s.log|]); }
    case Reprint(j, a, f, p, cups) =>
      var o := SendReprint(s, j, a, f, p, cups);
      if o.reply.Done? { NewJobKeeps(s, o.state, o.state.jobs[|s.jobs|], o.state.log[|s.log|]); }
    case RefundDemand(j, u) => DemandKeeps(s, j, u);
    case RefundDecision(r, st, a) => DecisionKeeps(s, r, st, a);
    case RefundOverride(j, a) => OverrideKeeps(s, j, a);
    case Poll(j, st) => if j < |s.jobs| && InTransit(s.jobs[j].status) { PollKeeps(s, j, st); }
    case CollectStep(sa, a) => SettleKeeps(s, CollectionEvent(sa, a, Total(s.log, UnsettledBy(a)), FromAdmin));
    case PayStep(sa, a) => SettleKeeps(s, CollectionEvent(sa, a, -Total(s.log, UnsettledBy(a)), ToAdmin));
  }

  /** Every run: the rows of each job sum to minus its cost, or to zero exactly when it ended in
      an error status or has an approved request; and at most one of them is a refund. */
  lemma {:induction false} RunRefundsOnce(s: State, steps: seq<Step>)
    requires JobsInOrder(s)
    ensures JobsInOrder(Run(s, steps))
    decreases |steps|
  {
    if steps != [] {
      StepKeeps(s, steps[0]);
      RunRefundsOnce(Apply(s, steps[0]), steps[1..]);
    }
  }

  /** A job whose poll reports an error is terminal and paid back within that very poll. */
  lemma FailedPollRefunds(s: State, job: Id, status: JobStatus)
    requires JobsInOrder(s) && job < |s.jobs| && InTransit(s.jobs[job].status) && InError(status)
    ensures var t := Apply(s, Poll(job, Some(status)));
      && t.jobs[job].status == status && !InTransit(status)
      && Total(t.log, MoneyOfJob(job)) == 0
      && t.accounts[s.jobs[job].user].balance == s.accounts[s.jobs[job].user].balance + s.jobs[job].cost
  {
    var t := Apply(s, Poll(job, Some(status)));
    PollKeeps(s, job, Some(status));
    assert Balanced(t, job);
  }

  lemma EmptyIsInOrder()
    ensures JobsInOrder(EMPTY)
  {
  }
}
