/** Stock replays from its movements, and a printed job takes its paper once. */
module Stock {
  import opened Wrappers
  import opened Records
  import opened Totals
  import opened Money
  import opened Operations

  /** An item's stock minus all its movements: the stock it was created with. */
  function InitialStock(s: State, item: Id): int
    requires item < |s.items|
  {
    s.items[item].stock - StockTotal(s.moves, OfItem(item))
  }

  /** A job has at most one movement; it has one only if it completed, and then for all its pages. */
  ghost predicate PaperTakenOnce(s: State, job: Id) {
    var rows := StockTotal(s.moves, RowsOfJob(job));
    && (rows == 0 || rows == 1)
    && (rows == 1 ==> job < |s.jobs| && s.jobs[job].status.Completed?)
    && StockTotal(s.moves, OfJob(job)) == (if rows == 1 then -100 * s.jobs[job].pages else 0)
  }

  ghost predicate StockInOrder(s: State) {
    && (forall i: Id | i >= |s.items| :: StockTotal(s.moves, OfItem(i)) == 0)
    && (forall j: Id :: PaperTakenOnce(s, j))
  }

  ghost predicate SameInitialStock(s: State, t: State) {
    && |s.items| <= |t.items|
    && (forall i | 0 <= i < |s.items| :: InitialStock(t, i) == InitialStock(s, i))
  }

  lemma UntouchedKeeps(s: State, t: State)
    requires StockInOrder(s) && t.moves == s.moves
    requires |t.items| == |s.items| && forall i | 0 <= i < |s.items| :: t.items[i].stock == s.items[i].stock
    requires |s.jobs| <= |t.jobs|
    requires forall j | 0 <= j < |s.jobs| ::
               t.jobs[j].pages == s.jobs[j].pages && (s.jobs[j].status.Completed? ==> t.jobs[j].status.Completed?)
    ensures StockInOrder(t) && SameInitialStock(s, t)
  {
    forall j: Id ensures PaperTakenOnce(t, j) {
      assert PaperTakenOnce(s, j);
    }
  }

  /** Any movement of an existing item replays; a job's movement must be its first. */
  lemma MovementKeeps(s: State, item: Id, delta: real, reason: MovementReason, job: Option<Id>, product: Option<Id>)
    requires StockInOrder(s)
    requires job.Some? ==>
               && job.value < |s.jobs| && s.jobs[job.value].status.Completed?
               && StockTotal(s.moves, RowsOfJob(job.value)) == 0
               && Cents(delta) == -100 * s.jobs[job.value].pages
    ensures var t := RecordMovement(s, item, delta, reason, job, product); StockInOrder(t) && SameInitialStock(s, t)
  {
    var t := RecordMovement(s, item, delta, reason, job, product);
    if item < |s.items| {
      StockTotalAppend(s.moves, t.moves[|s.moves|]);
      assert t.moves == s.moves + [t.moves[|s.moves|]];
      forall j: Id ensures PaperTakenOnce(t, j) {
        assert PaperTakenOnce(s, j);
      }
    }
  }

  lemma PagesInHundredths(pages: nat)
    ensures Cents(-(pages as real)) == -100 * pages
  {
    var hundredths: int := -100 * pages as int;
    assert Amount(hundredths) == -(pages as real);
    CentsOfAmount(hundredths);
  }

  lemma CompletionKeeps(s: State, m: State, job: Id)
    requires StockInOrder(s) && job < |s.jobs| && !s.jobs[job].status.Completed?
    requires m == s.(jobs := s.jobs[job := s.jobs[job].(status := Completed)])
    ensures StockInOrder(TakePaper(m, job)) && SameInitialStock(s, TakePaper(m, job))
  {
    hide StockInOrder, Cents, PaperFor;
    StatusKeeps(s, job, Completed);
    assert PaperTakenOnce(s, job) by { AllTakenOnce(s, job); }
    PagesInHundredths(s.jobs[job].pages);
    var item := PaperFor(m.items, m.jobs[job].printer);
    if item.Some? {
      MovementKeeps(m, item.value, -(m.jobs[job].pages as real), PrintConsumption, Some(job), None);
    }
  }

  lemma AllTakenOnce(s: State, job: Id)
    requires StockInOrder(s)
    ensures PaperTakenOnce(s, job)
  {
  }

  lemma StatusKeeps(s: State, job: Id, status: JobStatus)
    requires StockInOrder(s) && job < |s.jobs| && !s.jobs[job].status.Completed?
    ensures var t := s.(jobs := s.jobs[job := s.jobs[job].(status := status)]);
            StockInOrder(t) && SameInitialStock(s, t)
  {
    UntouchedKeeps(s, s.(jobs := s.jobs[job := s.jobs[job].(status := status)]));
  }

  lemma PollKeeps(s: State, job: Id, status: Option<JobStatus>)
    requires StockInOrder(s) && job < |s.jobs| && InTransit(s.jobs[job].status)
    ensures var t := PollJob(s, job, status); StockInOrder(t) && SameInitialStock(s, t)
  {
    hide TakePaper;
    var t := PollJob(s, job, status);
    if status.Some? && status.value != s.jobs[job].status && status.value.Completed? {
      CompletionKeeps(s, s.(jobs := s.jobs[job := s.jobs[job].(status := Completed)]), job);
    } else {
      UntouchedKeeps(s, t);
    }
  }

  lemma NewItemKeeps(s: State, name: int, category: Category, threshold: real, stock: real, printer: Option<Id>)
    requires StockInOrder(s)
    ensures var t := CreateItem(s, name, category, threshold, stock, printer);
            StockInOrder(t) && SameInitialStock(s, t) && InitialStock(t, |s.items|) == Cents(stock)
  {
    var t := CreateItem(s, name, category, threshold, stock, printer);
    forall j: Id ensures PaperTakenOnce(t, j) {
      assert PaperTakenOnce(s, j);
    }
  }

  predicate MovesStock(step: Step) {
    step.Poll? || step.PurchaseDecision? || step.NewItem? || step.StockMove?
  }

  lemma StillStep(s: State, step: Step)
    requires StockInOrder(s) && !MovesStock(step)
    ensures StockInOrder(Apply(s, step)) && SameInitialStock(s, Apply(s, step))
  {
    StillStepShape(s, step);
    UntouchedKeeps(s, Apply(s, step));
  }

  lemma StillStepShape(s: State, step: Step)
    requires !MovesStock(step)
    ensures var t := Apply(s, step);
      && t.moves == s.moves
      && |t.items| == |s.items| && (forall i | 0 <= i < |s.items| :: t.items[i].stock == s.items[i].stock)
      && |s.jobs| <= |t.jobs| && (forall j | 0 <= j < |s.jobs| :: t.jobs[j] == s.jobs[j])
  {
  }

  lemma DecisionKeeps(s: State, purchase: Id, fulfil: bool, actor: Id, actorType: ActorType)
    requires StockInOrder(s)
    ensures var t := ResolvePurchase(s, purchase, fulfil, actor, actorType).state;
            StockInOrder(t) && SameInitialStock(s, t)
  {
    var o := ResolvePurchase(s, purchase, fulfil, actor, actorType);
    if o.reply.Done? && fulfil {
      var p := s.purchases[purchase];
      if p.product < |s.products| && s.products[p.product].item.Some? {
        MovementKeeps(s, s.products[p.product].item.value, -(p.quantity as real), ProductSale, None, Some(p.product));
        var m := RecordMovement(s, s.products[p.product].item.value, -(p.quantity as real), ProductSale, None, Some(p.product));
        UntouchedKeeps(m, o.state);
      } else {
        UntouchedKeeps(s, o.state);
      }
    } else {
      UntouchedKeeps(s, o.state);
    }
  }

  lemma StepKeeps(s: State, step: Step)
    requires StockInOrder(s)
    ensures StockInOrder(Apply(s, step)) && SameInitialStock(s, Apply(s, step))
  {
    match step
    case Poll(j, st) => if j < |s.jobs| && InTransit(s.jobs[j].status) { PollKeeps(s, j, st); }
    case PurchaseDecision(p, ok, a, k) => DecisionKeeps(s, p, ok, a, k);
    case NewItem(n, c, th, st, p) => NewItemKeeps(s, n, c, th, st, p);
    case StockMove(i, d, r) => MovementKeeps(s, i, d, r, None, None);
    case _ => StillStep(s, step);
  }

  /** Every run: stock is what the item was created with plus its movements, and no job takes
      paper twice. */
  lemma {:induction false} RunReplaysStock(s: State, steps: seq<Step>)
    requires StockInOrder(s)
    ensures StockInOrder(Run(s, steps)) && SameInitialStock(s, Run(s, steps))
    decreases |steps|
  {
    if steps != [] {
      StepKeeps(s, steps[0]);
      RunReplaysStock(Apply(s, steps[0]), steps[1..]);
    }
  }

  predicate IsPaperOf(item: Item, printer: Option<Id>) {
    item.category.Paper? && item.printer == printer
  }

  /** The item chosen comes first in name order among the paper tied to `printer`; there is none
      exactly when no paper is. */
  lemma {:induction false} FirstPaperIsFirst(items: seq<Item>, printer: Option<Id>)
    ensures var best := FirstPaper(items, printer);
      if best.Some? then
        && IsPaperOf(items[best.value], printer)
        && (forall i | 0 <= i < |items| && IsPaperOf(items[i], printer) ::
              items[best.value].name < items[i].name || (items[best.value].name == items[i].name && best.value <= i))
      else forall i | 0 <= i < |items| :: !IsPaperOf(items[i], printer)
  {
    if items != [] {
      FirstPaperIsFirst(items[..|items| - 1], printer);
    }
  }

  ghost predicate Stocked(items: seq<Item>, printer: Option<Id>) {
    exists i :: 0 <= i < |items| && IsPaperOf(items[i], printer)
  }

  /** The choice looks at the printer's own paper first and at shared paper only without it. */
  lemma OwnPaperBeforeShared(items: seq<Item>, printer: Id)
    ensures var choice := PaperFor(items, printer);
            var own := Stocked(items, Some(printer));
      && (choice.Some? <==> own || Stocked(items, None))
      && (choice.Some? ==> choice.value < |items|
                           && IsPaperOf(items[choice.value], if own then Some(printer) else None))
  {
    FirstPaperIsFirst(items, Some(printer));
    FirstPaperIsFirst(items, None);
  }

  /** A job that completes takes all its pages from the item chosen for it, its printer's own paper
      before shared paper, and touches no other; where there is no paper, stock stays as it is. */
  lemma CompletionTakesPaper(s: State, job: Id)
    requires job < |s.jobs| && InTransit(s.jobs[job].status)
    ensures var t := Apply(s, Poll(job, Some(JobStatus.Completed)));
            var choice := PaperFor(s.items, s.jobs[job].printer);
            var taken := 100 * s.jobs[job].pages;
            var own := Stocked(s.items, Some(s.jobs[job].printer));
      && (choice.Some? <==> own || Stocked(s.items, None))
      && (choice.Some? ==> IsPaperOf(s.items[choice.value], if own then Some(s.jobs[job].printer) else None))
      && t.items == (if choice.None? then s.items
                     else s.items[choice.value := s.items[choice.value].(stock := s.items[choice.value].stock - taken)])
      && t.moves == (if choice.None? then s.moves
                     else s.moves + [Movement(choice.value, -taken, PrintConsumption, Some(job), None)])
  {
    hide FirstPaper, Cents;
    OwnPaperBeforeShared(s.items, s.jobs[job].printer);
    PagesInHundredths(s.jobs[job].pages);
  }

  lemma EmptyIsInOrder()
    ensures StockInOrder(EMPTY)
  {
  }
}
