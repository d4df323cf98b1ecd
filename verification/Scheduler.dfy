/** The scheduler's pass over the jobs in transit: new states, paper, automatic refunds. */
module Scheduler {
  import opened Wrappers
  import opened Records
  import opened Totals
  import opened Money
  import opened Operations
  import opened Database
  import Services
  import CupsManager
  import JobMoney
  import opened Stock

  // ---------- Paper ----------

  /** Inserts item `n` after the items whose names do not come after its own. */
  function Insert(items: seq<Item>, ids: seq<Id>, n: Id): (inserted: seq<Id>)
    requires n < |items| && forall i | 0 <= i < |ids| :: ids[i] < |items|
    ensures forall i | 0 <= i < |inserted| :: inserted[i] < |items|
    ensures forall i :: i in inserted <==> i in ids || i == n
  {
    if ids == [] then [n]
    else if items[n].name < items[ids[0]].name then [n] + ids
    else
      assert ids == [ids[0]] + ids[1..];
      [ids[0]] + Insert(items, ids[1..], n)
  }

  /** `get_all_items`: all items in name order. */
  function ByName(items: seq<Item>, n: nat): (ids: seq<Id>)
    requires n <= |items|
    ensures forall i | 0 <= i < |ids| :: ids[i] < |items|
    ensures forall i: Id :: i in ids <==> i < n
  {
    if n == 0 then [] else Insert(items, ByName(items, n - 1), n - 1)
  }

  /** The first of the listed items that is paper for `printer`. */
  function FirstOf(items: seq<Item>, ids: seq<Id>, printer: Option<Id>): (first: Option<Id>)
    requires forall i | 0 <= i < |ids| :: ids[i] < |items|
    ensures first.Some? ==> first.value < |items|
  {
    if ids == [] then None
    else if IsPaperOf(items[ids[0]], printer) then Some(ids[0])
    else FirstOf(items, ids[1..], printer)
  }

  ghost predicate InNameOrder(items: seq<Item>, ids: seq<Id>) {
    && (forall i | 0 <= i < |ids| :: ids[i] < |items|)
    && (forall i, j | 0 <= i < j < |ids| :: items[ids[i]].name <= items[ids[j]].name)
  }

  lemma {:induction false} InsertKeepsOrder(items: seq<Item>, ids: seq<Id>, n: Id)
    requires n < |items| && InNameOrder(items, ids)
    ensures InNameOrder(items, Insert(items, ids, n))
  {
    if ids != [] && items[n].name >= items[ids[0]].name {
      InsertKeepsOrder(items, ids[1..], n);
      var rest := Insert(items, ids[1..], n);
      forall j | 0 <= j < |rest| ensures items[ids[0]].name <= items[rest[j]].name {
        assert rest[j] in rest;
        if rest[j] != n {
          var k :| 0 <= k < |ids[1..]| && ids[1..][k] == rest[j];
          assert ids[k + 1] == rest[j];
        }
      }
    }
  }

  lemma {:induction false} FirstOfInsert(items: seq<Item>, ids: seq<Id>, n: Id, printer: Option<Id>)
    requires n < |items| && InNameOrder(items, ids)
    ensures var before := FirstOf(items, ids, printer);
            FirstOf(items, Insert(items, ids, n), printer)
            == if IsPaperOf(items[n], printer) && (before.None? || items[n].name < items[before.value].name) then Some(n)
               else before
  {
    if ids != [] {
      if items[n].name < items[ids[0]].name {
        var inserted := Insert(items, ids, n);
        assert inserted[1..] == ids;
        FirstIsListed(items, ids, printer);
      } else {
        FirstOfInsert(items, ids[1..], n, printer);
        var inserted := Insert(items, ids, n);
        assert inserted[0] == ids[0] && inserted[1..] == Insert(items, ids[1..], n);
      }
    }
  }

  lemma {:induction false} FirstIsListed(items: seq<Item>, ids: seq<Id>, printer: Option<Id>)
    requires InNameOrder(items, ids) && ids != []
    ensures var first := FirstOf(items, ids, printer);
            first.Some? ==> items[ids[0]].name <= items[first.value].name
  {
    if !IsPaperOf(items[ids[0]], printer) && |ids| > 1 {
      FirstIsListed(items, ids[1..], printer);
      assert items[ids[0]].name <= items[ids[1]].name;
    }
  }

  lemma NothingToFind(items: seq<Item>, printer: Option<Id>)
    ensures InNameOrder(items, []) && FirstOf(items, [], printer).None?
  {
  }

  lemma {:induction false} ByNameFindsFirst(items: seq<Item>, n: nat, printer: Option<Id>)
    requires n <= |items|
    ensures InNameOrder(items, ByName(items, n))
    ensures FirstOf(items, ByName(items, n), printer) == FirstPaper(items[..n], printer)
  {
    hide FirstOf, Insert, InNameOrder;
    if n == 0 {
      NothingToFind(items, printer);
    } else {
      ByNameFindsFirst(items, n - 1, printer);
      InsertKeepsOrder(items, ByName(items, n - 1), n - 1);
      FirstOfInsert(items, ByName(items, n - 1), n - 1, printer);
      assert items[..n][..n - 1] == items[..n - 1];
    }
  }

  /** `next((i for i in items if i.printer_id == …), None)` over the paper items. */
  method FindPaper(items: seq<Item>, papers: seq<Id>, printer: Option<Id>) returns (found: Option<Id>)
    requires forall i | 0 <= i < |papers| :: papers[i] < |items| && items[papers[i]].category.Paper?
    ensures found == FirstOf(items, papers, printer)
  {
    for n := 0 to |papers|
      invariant FirstOf(items, papers, printer) == FirstOf(items, papers[n..], printer)
    {
      assert papers[n..][1..] == papers[n + 1..];
      if items[papers[n]].printer == printer {
        return Some(papers[n]);
      }
    }
    assert papers[|papers|..] == [];
    return None;
  }

  /** The paper items of a list, in its order. */
  method SelectPapers(items: seq<Item>, ids: seq<Id>) returns (papers: seq<Id>)
    requires forall i | 0 <= i < |ids| :: ids[i] < |items|
    ensures forall i | 0 <= i < |papers| :: papers[i] < |items| && items[papers[i]].category.Paper?
    ensures forall printer :: FirstOf(items, papers, printer) == FirstOf(items, ids, printer)
  {
    papers := [];
    var n := |ids|;
    while n > 0
      invariant 0 <= n <= |ids|
      invariant forall i | 0 <= i < |papers| :: papers[i] < |items| && items[papers[i]].category.Paper?
      invariant forall printer :: FirstOf(items, papers, printer) == FirstOf(items, ids[n..], printer)
    {
      n := n - 1;
      assert ids[n..][1..] == ids[n + 1..];
      if items[ids[n]].category.Paper? {
        assert ([ids[n]] + papers)[1..] == papers;
        papers := [ids[n]] + papers;
      }
    }
    assert ids[0..] == ids;
  }

  /** `_decrement_paper_stock`. */
  method DecrementPaperStock(db: Database, job: Id)
    requires job < |db.jobs|
    modifies db
    ensures db.Contents() == TakePaper(old(db.Contents()), job)
  {
    hide Cents, FirstOf, FirstPaper;
    var printer := db.jobs[job].printer;
    var ids := ByName(db.items, |db.items|);
    var papers := SelectPapers(db.items, ids);
    ByNameFindsFirst(db.items, |db.items|, Some(printer));
    ByNameFindsFirst(db.items, |db.items|, None);
    assert db.items[..|db.items|] == db.items;
    var item := FindPaper(db.items, papers, Some(printer));
    if item.None? {
      item := FindPaper(db.items, papers, None);
    }
    if item.None? {
      return;
    }
    var moved := db.RecordMovement(item.value, -(db.jobs[job].pages as real), PrintConsumption, Some(job), None);
  }

  // ---------- The pass ----------

  /** What a pass does: it polls the listed jobs in turn, and a state number that means nothing to
      it ends the pass there. `lookup` is what the print server answers about each job. */
  function Pass(s: State, counters: map<int, nat>, ids: seq<Id>, lookup: Id -> CupsManager.Lookup): (r: (State, map<int, nat>))
    requires forall i | 0 <= i < |ids| :: ids[i] < |s.jobs|
    ensures |r.0.jobs| == |s.jobs| && |r.0.accounts| == |s.accounts|
    decreases |ids|
  {
    if ids == [] then (s, counters)
    else
      var (next, answer) := CupsManager.Next(counters, s.jobs[ids[0]].cupsId, lookup(ids[0]));
      if answer.KeyError? then (s, next)
      else Pass(PollJob(s, ids[0], Reported(answer)), next, ids[1..], lookup)
  }

  function Reported(answer: CupsManager.Answer): Option<JobStatus> {
    if answer.Is? then Some(answer.status) else None
  }

  /** One iteration of the loop of `update_jobs_sync`, once the print server has answered. */
  method UpdateJob(db: Database, job: Id, status: JobStatus, answer: Option<JobStatus>)
    requires job < |db.jobs| && db.jobs[job].status == status
    modifies db
    ensures db.Contents() == PollJob(old(db.Contents()), job, answer)
  {
    hide TakePaper, Cents;
    if answer.None? {
      return;
    }
    var newStatus := answer.value;
    if status != newStatus {
      var updated := db.UpdateJobStatus(job, newStatus);
      if updated && newStatus.Completed? {
        DecrementPaperStock(db, job);
      }
      if updated && InError(newStatus) {
        var credited := Services.CreditRefund(db, job, None, None, System);
      }
    }
  }

  lemma PollTouchesOneJob(s: State, job: Id, status: Option<JobStatus>)
    requires job < |s.jobs|
    ensures |PollJob(s, job, status).jobs| == |s.jobs|
    ensures forall j | 0 <= j < |s.jobs| && j != job :: PollJob(s, job, status).jobs[j] == s.jobs[j]
    ensures PollJob(s, job, status).jobs[job].cupsId == s.jobs[job].cupsId
  {
  }

  /** `ids` are the jobs in transit, each once. */
  ghost predicate IsTransitList(jobs: seq<Job>, ids: seq<Id>) {
    && (forall j: Id :: j in ids <==> j < |jobs| && InTransit(jobs[j].status))
    && (forall i | 0 <= i < |ids| :: ids[i] < |jobs|)
    && (forall i, j | 0 <= i < j < |ids| :: ids[i] != ids[j])
  }

  /** `update_jobs_sync`; `raised` tells of the `KeyError` that ends a pass early. */
  method UpdateJobs(db: Database, cups: CupsManager.CupsManager, lookup: Id -> CupsManager.Lookup)
    returns (ids: seq<Id>, raised: bool)
    modifies db, cups`jobsWithError
    ensures IsTransitList(old(db.jobs), ids)
    ensures (db.Contents(), cups.jobsWithError) == Pass(old(db.Contents()), old(cups.jobsWithError), ids, lookup)
    ensures raised <==> |Polls(old(db.Contents()), old(cups.jobsWithError), ids, lookup)| < |ids|
  {
    hide PollJob, CupsManager.Next;
    var jobs := db.jobs;
    ids := db.GetTransitoryStatusJobs();
    raised := false;
    var n := 0;
    while n < |ids|
      invariant 0 <= n <= |ids|
      invariant |db.jobs| == |jobs|
      invariant forall i | n <= i < |ids| :: db.jobs[ids[i]] == jobs[ids[i]]
      invariant Pass(db.Contents(), cups.jobsWithError, ids[n..], lookup)
                == Pass(old(db.Contents()), old(cups.jobsWithError), ids, lookup)
      invariant n + |Polls(db.Contents(), cups.jobsWithError, ids[n..], lookup)|
                == |Polls(old(db.Contents()), old(cups.jobsWithError), ids, lookup)|
    {
      var job := ids[n];
      var answer := cups.GetJobStatus(jobs[job].cupsId, lookup(job));
      assert ids[n..][0] == job && ids[n..][1..] == ids[n + 1..];
      if answer.KeyError? {
        raised := true;
        return;
      }
      PollTouchesOneJob(db.Contents(), job, Reported(answer));
      UpdateJob(db, job, jobs[job].status, Reported(answer));
      n := n + 1;
    }
    assert ids[n..] == [];
  }

  // ---------- A pass is a run of polls ----------

  /** The polls that a pass performs. */
  function Polls(s: State, counters: map<int, nat>, ids: seq<Id>, lookup: Id -> CupsManager.Lookup): seq<Step>
    requires forall i | 0 <= i < |ids| :: ids[i] < |s.jobs|
    decreases |ids|
  {
    if ids == [] then []
    else
      var (next, answer) := CupsManager.Next(counters, s.jobs[ids[0]].cupsId, lookup(ids[0]));
      if answer.KeyError? then []
      else [Poll(ids[0], Reported(answer))] + Polls(PollJob(s, ids[0], Reported(answer)), next, ids[1..], lookup)
  }

  /** Whatever the print server answers, a pass over distinct jobs in transit is a run of poll
      steps, so every law of runs holds across passes. */
  lemma {:induction false} PassIsRun(s: State, counters: map<int, nat>, ids: seq<Id>, lookup: Id -> CupsManager.Lookup)
    requires forall i | 0 <= i < |ids| :: ids[i] < |s.jobs| && InTransit(s.jobs[ids[i]].status)
    requires forall i, j | 0 <= i < j < |ids| :: ids[i] != ids[j]
    ensures Pass(s, counters, ids, lookup).0 == Run(s, Polls(s, counters, ids, lookup))
    decreases |ids|
  {
    hide PollJob, CupsManager.Next;
    if ids != [] {
      var (next, answer) := CupsManager.Next(counters, s.jobs[ids[0]].cupsId, lookup(ids[0]));
      if !answer.KeyError? {
        var t := PollJob(s, ids[0], Reported(answer));
        PollTouchesOneJob(s, ids[0], Reported(answer));
        assert Apply(s, Poll(ids[0], Reported(answer))) == t;
        PassIsRun(t, next, ids[1..], lookup);
        var rest := Polls(t, next, ids[1..], lookup);
        assert ([Poll(ids[0], Reported(answer))] + rest)[1..] == rest;
      }
    }
  }

  lemma {:induction false} PassLeavesUnlisted(s: State, counters: map<int, nat>, ids: seq<Id>, lookup: Id -> CupsManager.Lookup,
                                              job: Id)
    requires forall i | 0 <= i < |ids| :: ids[i] < |s.jobs| && ids[i] != job
    requires job < |s.jobs|
    ensures Pass(s, counters, ids, lookup).0.jobs[job] == s.jobs[job]
    decreases |ids|
  {
    hide PollJob, CupsManager.Next;
    if ids != [] {
      var (next, answer) := CupsManager.Next(counters, s.jobs[ids[0]].cupsId, lookup(ids[0]));
      if !answer.KeyError? {
        PollTouchesOneJob(s, ids[0], Reported(answer));
        PassLeavesUnlisted(PollJob(s, ids[0], Reported(answer)), next, ids[1..], lookup, job);
      }
    }
  }

  /** The counters when a pass has polled the first `k` of its jobs. */
  function CountersAt(s: State, counters: map<int, nat>, ids: seq<Id>, lookup: Id -> CupsManager.Lookup, k: nat): map<int, nat>
    requires k <= |ids| && forall i | 0 <= i < |ids| :: ids[i] < |s.jobs|
  {
    if k == 0 then counters
    else
      CupsManager.Next(CountersAt(s, counters, ids, lookup, k - 1), s.jobs[ids[k - 1]].cupsId, lookup(ids[k - 1])).0
  }

  lemma {:induction false} CountersShift(s: State, t: State, counters: map<int, nat>, ids: seq<Id>,
                                         lookup: Id -> CupsManager.Lookup, k: nat)
    requires 0 < k <= |ids| && forall i | 0 <= i < |ids| :: ids[i] < |s.jobs|
    requires |t.jobs| == |s.jobs| && forall j | 0 <= j < |s.jobs| :: t.jobs[j].cupsId == s.jobs[j].cupsId
    ensures var next := CupsManager.Next(counters, s.jobs[ids[0]].cupsId, lookup(ids[0])).0;
            CountersAt(s, counters, ids, lookup, k) == CountersAt(t, next, ids[1..], lookup, k - 1)
  {
    hide CupsManager.Next;
    if k > 1 {
      CountersShift(s, t, counters, ids, lookup, k - 1);
      assert ids[1..][k - 2] == ids[k - 1];
    } else {
      assert CountersAt(s, counters, ids, lookup, 0) == counters;
    }
  }

  lemma PollKeepsNumbers(s: State, job: Id, status: Option<JobStatus>)
    requires job < |s.jobs|
    ensures |PollJob(s, job, status).jobs| == |s.jobs|
    ensures forall j | 0 <= j < |s.jobs| :: PollJob(s, job, status).jobs[j].cupsId == s.jobs[j].cupsId
  {
    PollTouchesOneJob(s, job, status);
  }

  /** The polls are those of the listed jobs in turn, each with the answer that the counters of the
      moment give it, up to the first lookup that raises. */
  lemma {:induction false} PollsAreAnswers(s: State, counters: map<int, nat>, ids: seq<Id>, lookup: Id -> CupsManager.Lookup,
                                           k: nat)
    requires forall i | 0 <= i < |ids| :: ids[i] < |s.jobs|
    ensures var polls := Polls(s, counters, ids, lookup);
      && |polls| <= |ids|
      && (k < |polls| ==>
            polls[k] == Poll(ids[k], Reported(CupsManager.Next(CountersAt(s, counters, ids, lookup, k),
                                                               s.jobs[ids[k]].cupsId, lookup(ids[k])).1)))
    decreases |ids|
  {
    hide CupsManager.Next, PollJob, Reported;
    if ids != [] {
      var (next, answer) := CupsManager.Next(counters, s.jobs[ids[0]].cupsId, lookup(ids[0]));
      if !answer.KeyError? {
        var t := PollJob(s, ids[0], Reported(answer));
        PollKeepsNumbers(s, ids[0], Reported(answer));
        PollsAreAnswers(t, next, ids[1..], lookup, if k > 0 then k - 1 else 0);
        if 0 < k < |ids| {
          CountersShift(s, t, counters, ids, lookup, k);
        }
      }
    }
  }

  /** A job polled into a state other than its own ends the pass in that state. */
  lemma {:induction false} PolledStays(s: State, counters: map<int, nat>, ids: seq<Id>, lookup: Id -> CupsManager.Lookup,
                                       job: Id, status: JobStatus)
    requires forall i | 0 <= i < |ids| :: ids[i] < |s.jobs|
    requires forall i, j | 0 <= i < j < |ids| :: ids[i] != ids[j]
    requires Poll(job, Some(status)) in Polls(s, counters, ids, lookup)
    ensures job in ids && Pass(s, counters, ids, lookup).0.jobs[job] == s.jobs[job].(status := status)
    decreases |ids|
  {
    hide CupsManager.Next;
    var (next, answer) := CupsManager.Next(counters, s.jobs[ids[0]].cupsId, lookup(ids[0]));
    var t := PollJob(s, ids[0], Reported(answer));
    PollTouchesOneJob(s, ids[0], Reported(answer));
    if Poll(job, Some(status)) in Polls(t, next, ids[1..], lookup) {
      hide PollJob;
      PolledStays(t, next, ids[1..], lookup, job, status);
    } else {
      assert job == ids[0] && Reported(answer) == Some(status);
      assert t.jobs[job] == s.jobs[job].(status := status);
      hide PollJob;
      PassLeavesUnlisted(t, next, ids[1..], lookup, job);
    }
  }

  /** Whatever made a pass poll a job into an error status, the print server or a retry counter
      that ran out: the job ends the pass in it, and is paid back in that very pass, once. */
  lemma ErrorIsRefunded(s: State, counters: map<int, nat>, ids: seq<Id>, lookup: Id -> CupsManager.Lookup,
                        job: Id, status: JobStatus)
    requires JobMoney.JobsInOrder(s) && IsTransitList(s.jobs, ids)
    requires Poll(job, Some(status)) in Polls(s, counters, ids, lookup) && InError(status)
    ensures var t := Pass(s, counters, ids, lookup).0;
      && job < |t.jobs| && t.jobs[job].status == status
      && Total(t.log, MoneyOfJob(job)) == 0 && Total(t.log, RefundsOfJob(job)) == 1
  {
    assert forall i | 0 <= i < |ids| :: ids[i] in ids;
    PolledStays(s, counters, ids, lookup, job, status);
    PassIsRun(s, counters, ids, lookup);
    JobMoney.RunRefundsOnce(s, Polls(s, counters, ids, lookup));
    assert JobMoney.Balanced(Pass(s, counters, ids, lookup).0, job);
  }

  /** In particular a job that the pass reaches with its retries used up and whose lookup fails. */
  lemma ExhaustedIsRefunded(s: State, counters: map<int, nat>, ids: seq<Id>, lookup: Id -> CupsManager.Lookup, k: nat)
    requires JobMoney.JobsInOrder(s) && IsTransitList(s.jobs, ids)
    requires k < |Polls(s, counters, ids, lookup)| && k < |ids| && lookup(ids[k]).Failed?
    requires CupsManager.Stored(CountersAt(s, counters, ids, lookup, k), s.jobs[ids[k]].cupsId) >= CupsManager.MAX_TRIES
    ensures var t := Pass(s, counters, ids, lookup).0;
      && t.jobs[ids[k]].status == Aborted
      && Total(t.log, MoneyOfJob(ids[k])) == 0 && Total(t.log, RefundsOfJob(ids[k])) == 1
  {
    PollsAreAnswers(s, counters, ids, lookup, k);
    assert Polls(s, counters, ids, lookup)[k] == Poll(ids[k], Some(Aborted));
    ErrorIsRefunded(s, counters, ids, lookup, ids[k], Aborted);
  }

  lemma {:induction false} PassKeepsRequests(s: State, counters: map<int, nat>, ids: seq<Id>, lookup: Id -> CupsManager.Lookup)
    requires forall i | 0 <= i < |ids| :: ids[i] < |s.jobs|
    ensures Pass(s, counters, ids, lookup).0.refunds == s.refunds
    decreases |ids|
  {
    hide CupsManager.Next, Cents, PaperFor;
    if ids != [] {
      var (next, answer) := CupsManager.Next(counters, s.jobs[ids[0]].cupsId, lookup(ids[0]));
      if !answer.KeyError? {
        PassKeepsRequests(PollJob(s, ids[0], Reported(answer)), next, ids[1..], lookup);
      }
    }
  }

  /** The job states of the print server, by number. */
  lemma StateNumbers(counters: map<int, nat>, job: int, number: int)
    ensures var answer := CupsManager.Next(counters, job, CupsManager.JobState(number)).1;
      && (number == 3 ==> answer == CupsManager.Is(JobStatus.Pending))
      && (number == 4 ==> answer == CupsManager.Is(Held))
      && (number == 5 ==> answer == CupsManager.Is(Printing))
      && (number == 6 ==> answer == CupsManager.Is(Stopped))
      && (number == 7 ==> answer == CupsManager.Is(Cancelled))
      && (number == 8 ==> answer == CupsManager.Is(Aborted))
      && (number == 9 ==> answer == CupsManager.Is(JobStatus.Completed))
      && (number < 3 || number > 9 ==> answer == CupsManager.KeyError)
  {
  }

  /** A pass goes no further than a lookup that raises. */
  lemma {:induction false} ReachedIsMapped(s: State, counters: map<int, nat>, ids: seq<Id>, lookup: Id -> CupsManager.Lookup,
                                           k: nat)
    requires forall i | 0 <= i < |ids| :: ids[i] < |s.jobs|
    requires k < |Polls(s, counters, ids, lookup)| && k < |ids|
    ensures !CupsManager.Next(CountersAt(s, counters, ids, lookup, k), s.jobs[ids[k]].cupsId, lookup(ids[k])).1.KeyError?
    decreases |ids|
  {
    hide CupsManager.Next, PollJob, Reported;
    var (next, answer) := CupsManager.Next(counters, s.jobs[ids[0]].cupsId, lookup(ids[0]));
    var t := PollJob(s, ids[0], Reported(answer));
    PollKeepsNumbers(s, ids[0], Reported(answer));
    if k > 0 {
      CountersShift(s, t, counters, ids, lookup, k);
      ReachedIsMapped(t, next, ids[1..], lookup, k - 1);
    }
  }

  /** What the rows of a polled job sum to at the end of the pass, by the state it was polled into. */
  lemma PolledMoney(s: State, counters: map<int, nat>, ids: seq<Id>, lookup: Id -> CupsManager.Lookup,
                    job: Id, status: JobStatus)
    requires JobMoney.JobsInOrder(s) && IsTransitList(s.jobs, ids)
    requires Poll(job, Some(status)) in Polls(s, counters, ids, lookup)
    ensures var t := Pass(s, counters, ids, lookup).0;
            var failed := status == Cancelled || status == Aborted;
      && job < |s.jobs| && t.jobs[job] == s.jobs[job].(status := status)
      && Total(t.log, MoneyOfJob(job)) == (if failed then 0 else -s.jobs[job].cost)
      && Total(t.log, RefundsOfJob(job)) == (if failed then 1 else 0)
  {
    assert forall i | 0 <= i < |ids| :: ids[i] in ids;
    PolledStays(s, counters, ids, lookup, job, status);
    assert InTransit(s.jobs[job].status);
    NotRequested(s, job);
    PassIsRun(s, counters, ids, lookup);
    PassKeepsRequests(s, counters, ids, lookup);
    JobMoney.RunRefundsOnce(s, Polls(s, counters, ids, lookup));
    BalancedIfOrdered(Pass(s, counters, ids, lookup).0, job);
  }

  lemma NotRequested(s: State, job: Id)
    requires JobMoney.JobsInOrder(s) && job < |s.jobs| && InTransit(s.jobs[job].status)
    ensures forall r | r in s.refunds :: s.refunds[r].job != job
  {
  }

  lemma BalancedIfOrdered(t: State, job: Id)
    requires JobMoney.JobsInOrder(t)
    ensures JobMoney.Balanced(t, job)
  {
  }

  /** A job that a pass reaches and whose lookup answers with a state number ends the pass in that
      state. Numbers 7 and 8, and no others, pay it back: its rows then sum to zero with one refund,
      and otherwise to minus its cost with none. */
  lemma StateNumberDecides(s: State, counters: map<int, nat>, ids: seq<Id>, lookup: Id -> CupsManager.Lookup,
                           k: nat, number: int)
    requires JobMoney.JobsInOrder(s) && IsTransitList(s.jobs, ids)
    requires k < |Polls(s, counters, ids, lookup)| && k < |ids| && lookup(ids[k]) == CupsManager.JobState(number)
    ensures var t := Pass(s, counters, ids, lookup).0;
            var failed := number == 7 || number == 8;
      && 3 <= number <= 9
      && t.jobs[ids[k]] == s.jobs[ids[k]].(status :=
           if number == 3 then JobStatus.Pending else if number == 4 then Held else if number == 5 then Printing
           else if number == 6 then Stopped else if number == 7 then Cancelled else if number == 8 then Aborted
           else JobStatus.Completed)
      && Total(t.log, MoneyOfJob(ids[k])) == (if failed then 0 else -s.jobs[ids[k]].cost)
      && Total(t.log, RefundsOfJob(ids[k])) == (if failed then 1 else 0)
  {
    hide Pass, CupsManager.Next, JobMoney.JobsInOrder;
    var polls := Polls(s, counters, ids, lookup);
    PollsAreAnswers(s, counters, ids, lookup, k);
    StateNumbers(CountersAt(s, counters, ids, lookup, k), s.jobs[ids[k]].cupsId, number);
    ReachedIsMapped(s, counters, ids, lookup, k);
    hide Polls;
    var status := polls[k].reported.value;
    assert polls[k] == Poll(ids[k], Some(status));
    PolledMoney(s, counters, ids, lookup, ids[k], status);
  }
}
