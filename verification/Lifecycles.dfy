/** What never changes again: finished jobs and approved refund requests. */
module Lifecycles {
  import opened Records
  import opened Money
  import opened Totals
  import opened Operations

  /** The same job but for its state, which only a job in transit may change. */
  predicate JobMayBecome(before: Job, after: Job) {
    after == before.(status := after.status) && (after.status != before.status ==> InTransit(before.status))
  }

  /** A request keeps its user, job and author; only a pending one is decided. */
  predicate RequestMayBecome(before: RefundRequest, after: RefundRequest) {
    after == before.(status := after.status) && (after.status != before.status ==> before.status.Pending?)
  }

  /** What one step may do to jobs and requests: jobs are never dropped, only denied requests are,
      and numbers of requests are not used twice. */
  ghost predicate Progresses(s: State, t: State) {
    && |s.jobs| <= |t.jobs|
    && (forall j | 0 <= j < |s.jobs| :: JobMayBecome(s.jobs[j], t.jobs[j]))
    && s.nextRefund <= t.nextRefund
    && (forall r | r in t.refunds :: r in s.refunds || r >= s.nextRefund)
    && (forall r | r in s.refunds && r in t.refunds && r < s.nextRefund :: RequestMayBecome(s.refunds[r], t.refunds[r]))
    && (forall r | r in s.refunds && r !in t.refunds :: s.refunds[r].status.Denied?)
  }

  ghost predicate NumbersAhead(s: State) {
    forall r | r in s.refunds :: r < s.nextRefund
  }

  lemma DemandProgresses(s: State, job: Id, requester: Id)
    requires NumbersAhead(s)
    ensures var t := RequestRefund(s, job, requester).state; NumbersAhead(t) && Progresses(s, t)
  {
  }

  lemma DecisionProgresses(s: State, refund: Id, status: RefundStatus, admin: Id)
    requires NumbersAhead(s)
    ensures var t := ResolveRefund(s, refund, status, admin).state; NumbersAhead(t) && Progresses(s, t)
  {
  }

  lemma OverrideProgresses(s: State, job: Id, admin: Id)
    requires NumbersAhead(s)
    ensures var t := OverrideRefund(s, job, admin).state; NumbersAhead(t) && Progresses(s, t)
  {
  }

  lemma PollProgresses(s: State, step: Step)
    requires NumbersAhead(s) && step.Poll?
    ensures NumbersAhead(Apply(s, step)) && Progresses(s, Apply(s, step))
  {
    hide Cents, PaperFor;
  }

  lemma StepProgresses(s: State, step: Step)
    requires NumbersAhead(s)
    ensures NumbersAhead(Apply(s, step)) && Progresses(s, Apply(s, step))
  {
    hide Cents, Total, Covers, RequestRefund, ResolveRefund, OverrideRefund;
    if step.RefundDemand? {
      DemandProgresses(s, step.job, step.requester);
    } else if step.RefundDecision? {
      DecisionProgresses(s, step.refund, step.status, step.admin);
    } else if step.RefundOverride? {
      OverrideProgresses(s, step.job, step.admin);
    } else if step.Poll? {
      PollProgresses(s, step);
    } else {
      OtherStepKeeps(s, step);
    }
  }

  lemma OtherStepKeeps(s: State, step: Step)
    requires !step.RefundDemand? && !step.RefundDecision? && !step.RefundOverride? && !step.Poll?
    ensures Apply(s, step).refunds == s.refunds && Apply(s, step).nextRefund == s.nextRefund
    ensures |s.jobs| <= |Apply(s, step).jobs| && forall j | 0 <= j < |s.jobs| :: Apply(s, step).jobs[j] == s.jobs[j]
  {
    hide Cents, Total, Covers;
  }

  /** What can no longer change: a finished job, and an approved request. */
  ghost predicate Settled(s: State, t: State) {
    && |s.jobs| <= |t.jobs|
    && (forall j | 0 <= j < |s.jobs| && !InTransit(s.jobs[j].status) :: t.jobs[j] == s.jobs[j])
    && (forall j | 0 <= j < |s.jobs| :: t.jobs[j] == s.jobs[j].(status := t.jobs[j].status))
    && (forall r | r in s.refunds && s.refunds[r].status.Approved? :: r in t.refunds && t.refunds[r] == s.refunds[r])
    && (forall r | r in t.refunds && r < s.nextRefund :: r in s.refunds && t.refunds[r].job == s.refunds[r].job)
  }

  lemma SettledStep(s: State, t: State, u: State)
    requires NumbersAhead(s) && Progresses(s, t) && Settled(t, u)
    ensures Settled(s, u)
  {
    forall j | 0 <= j < |s.jobs|
      ensures u.jobs[j] == s.jobs[j].(status := u.jobs[j].status)
      ensures !InTransit(s.jobs[j].status) ==> u.jobs[j] == s.jobs[j]
    {
      assert JobMayBecome(s.jobs[j], t.jobs[j]);
    }
    forall r | r in s.refunds && s.refunds[r].status.Approved? ensures r in u.refunds && u.refunds[r] == s.refunds[r] {
      assert r in t.refunds && RequestMayBecome(s.refunds[r], t.refunds[r]);
    }
    forall r | r in u.refunds && r < s.nextRefund ensures r in s.refunds && u.refunds[r].job == s.refunds[r].job {
      assert r in t.refunds && r in s.refunds && RequestMayBecome(s.refunds[r], t.refunds[r]);
    }
  }

  /** Every run: finished jobs stay as they are, jobs change nothing but their state, approved
      requests are neither changed nor deleted, and no old request comes back for another job. */
  lemma {:induction false} RunSettles(s: State, steps: seq<Step>)
    requires NumbersAhead(s)
    ensures Settled(s, Run(s, steps)) && NumbersAhead(Run(s, steps))
    decreases |steps|
  {
    if steps != [] {
      var t := Apply(s, steps[0]);
      StepProgresses(s, steps[0]);
      RunSettles(t, steps[1..]);
      SettledStep(s, t, Run(t, steps[1..]));
    }
  }
}
