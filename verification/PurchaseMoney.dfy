/** A purchase takes its price once, leaves PENDING once, and gives the price back only when rejected. */
module PurchaseMoney {
  import opened Wrappers
  import opened Records
  import opened Totals
  import opened Money
  import opened Operations

  ghost predicate Balanced(s: State, purchase: Id) {
    if purchase < |s.purchases| then
      var p := s.purchases[purchase];
      && p.user < |s.accounts|
      && Total(s.log, MoneyOfPurchase(purchase)) == (if p.status.Rejected? then 0 else -p.total)
      && Total(s.log, RefundsOfPurchase(purchase)) == (if p.status.Rejected? then 1 else 0)
    else
      Total(s.log, MoneyOfPurchase(purchase)) == 0 && Total(s.log, RefundsOfPurchase(purchase)) == 0
  }

  /** Every row about a purchase is about its buyer's money. */
  ghost predicate RowsNameBuyers(s: State) {
    forall i | 0 <= i < |s.log| && s.log[i].purchase.Some? ::
      && s.log[i].purchase.value < |s.purchases|
      && s.log[i].user == Some(s.purchases[s.log[i].purchase.value].user)
  }

  ghost predicate PurchasesInOrder(s: State) {
    RowsNameBuyers(s) && forall p: Id :: Balanced(s, p)
  }

  lemma ElsewhereKeeps(s: State, t: State)
    requires PurchasesInOrder(s) && t.purchases == s.purchases && |t.accounts| >= |s.accounts|
    requires forall i | 0 <= i < |t.log| && t.log[i].purchase.Some? ::
               i < |s.log| && t.log[i].purchase == s.log[i].purchase && t.log[i].user == s.log[i].user
    requires forall p: Id :: Total(t.log, MoneyOfPurchase(p)) == Total(s.log, MoneyOfPurchase(p))
    requires forall p: Id :: Total(t.log, RefundsOfPurchase(p)) == Total(s.log, RefundsOfPurchase(p))
    ensures PurchasesInOrder(t)
  {
    forall p: Id ensures Balanced(t, p) {
      assert Balanced(s, p);
    }
  }

  lemma UnlinkedRowKeeps(s: State, t: State, row: Tx)
    requires PurchasesInOrder(s) && t.purchases == s.purchases && |t.accounts| >= |s.accounts|
    requires t.log == s.log + [row] && row.purchase.None?
    ensures PurchasesInOrder(t)
  {
    TotalAppend(s.log, row);
    ElsewhereKeeps(s, t);
  }

  lemma SettleKeeps(s: State, event: CollectionEvent)
    requires PurchasesInOrder(s)
    ensures PurchasesInOrder(Settle(s, event))
  {
    var t := Settle(s, event);
    forall p: Id
      ensures Total(t.log, MoneyOfPurchase(p)) == Total(s.log, MoneyOfPurchase(p))
      ensures Total(t.log, RefundsOfPurchase(p)) == Total(s.log, RefundsOfPurchase(p))
    {
      TotalAlike(t.log, s.log, MoneyOfPurchase(p));
      TotalAlike(t.log, s.log, RefundsOfPurchase(p));
    }
    ElsewhereKeeps(s, t);
  }

  lemma BuyKeeps(s: State, product: Id, user: Id, quantity: nat)
    requires PurchasesInOrder(s)
    ensures PurchasesInOrder(BuyProduct(s, product, user, quantity).state)
  {
    var o := BuyProduct(s, product, user, quantity);
    if o.reply.Done? {
      TotalAppend(s.log, o.state.log[|s.log|]);
      assert o.state.log == s.log + [o.state.log[|s.log|]];
      forall p: Id ensures Balanced(o.state, p) {
        assert Balanced(s, p);
      }
    }
  }

  lemma DecisionKeeps(s: State, purchase: Id, fulfil: bool, actor: Id, actorType: ActorType)
    requires PurchasesInOrder(s)
    ensures PurchasesInOrder(ResolvePurchase(s, purchase, fulfil, actor, actorType).state)
  {
    var o := ResolvePurchase(s, purchase, fulfil, actor, actorType);
    if o.reply.Done? {
      if !fulfil {
        TotalAppend(s.log, o.state.log[|s.log|]);
        assert o.state.log == s.log + [o.state.log[|s.log|]];
      }
      forall p: Id ensures Balanced(o.state, p) {
        assert Balanced(s, p);
      }
    }
  }

  predicate WritesNoRow(step: Step) {
    || step.NewUser? || step.UserEdit? || step.NewRechargeRequest? || step.RefundDemand? || step.NewItem?
    || step.ItemEdit? || step.StockMove? || step.ProductEdit?
  }

  lemma NoRowStep(s: State, step: Step)
    requires PurchasesInOrder(s) && WritesNoRow(step)
    ensures PurchasesInOrder(Apply(s, step))
  {
    ElsewhereKeeps(s, Apply(s, step));
  }

  predicate WritesUnlinkedRow(step: Step) {
    || step.PrintStep? || step.Reprint? || step.DirectRecharge? || step.Adjust? || step.RechargeDecision?
    || step.NewExpense? || step.RefundDecision? || step.RefundOverride? || step.Poll?
  }

  /** Such a step appends nothing, or one row that names no purchase. */
  ghost predicate AddsUnlinkedRow(s: State, t: State) {
    && t.purchases == s.purchases && |t.accounts| == |s.accounts|
    && (t.log == s.log
        || (|t.log| == |s.log| + 1 && t.log == s.log + [t.log[|s.log|]] && t.log[|s.log|].purchase.None?))
  }

  lemma RefundStepShape(s: State, step: Step)
    requires step.RefundDecision? || step.RefundOverride? || step.Poll?
    ensures AddsUnlinkedRow(s, Apply(s, step))
  {
    hide Cents, PaperFor;
  }

  lemma UnlinkedStepShape(s: State, step: Step)
    requires WritesUnlinkedRow(step)
    ensures AddsUnlinkedRow(s, Apply(s, step))
  {
    hide Cents, Covers, Total;
    if step.RefundDecision? || step.RefundOverride? || step.Poll? {
      RefundStepShape(s, step);
    }
  }

  lemma StepKeeps(s: State, step: Step)
    requires PurchasesInOrder(s)
    ensures PurchasesInOrder(Apply(s, step))
  {
    if WritesNoRow(step) {
      NoRowStep(s, step);
    } else if WritesUnlinkedRow(step) {
      UnlinkedStepShape(s, step);
      var t := Apply(s, step);
      if t.log == s.log {
        ElsewhereKeeps(s, t);
      } else {
        UnlinkedRowKeeps(s, t, t.log[|s.log|]);
      }
    } else {
      match step
      case Buy(p, u, q) => BuyKeeps(s, p, u, q);
      case PurchaseDecision(p, ok, a, k) => DecisionKeeps(s, p, ok, a, k);
      case CollectStep(sa, a) => SettleKeeps(s, CollectionEvent(sa, a, Total(s.log, UnsettledBy(a)), FromAdmin));
      case PayStep(sa, a) => SettleKeeps(s, CollectionEvent(sa, a, -Total(s.log, UnsettledBy(a)), ToAdmin));
    }
  }

  lemma StepFreezes(s: State, step: Step, purchase: Id)
    requires purchase < |s.purchases|
    ensures purchase < |Apply(s, step).purchases|
    ensures !s.purchases[purchase].status.Pending? ==> Apply(s, step).purchases[purchase] == s.purchases[purchase]
    ensures var p := Apply(s, step).purchases[purchase]; p == s.purchases[purchase].(status := p.status)
  {
  }

  /** Every run: a purchase's rows sum to minus its total while pending or fulfilled and to zero
      once rejected, at most one of them gives money back, and a resolved purchase never changes. */
  lemma {:induction false} RunKeepsPurchases(s: State, steps: seq<Step>)
    requires PurchasesInOrder(s)
    ensures PurchasesInOrder(Run(s, steps)) && |Run(s, steps).purchases| >= |s.purchases|
    ensures forall p | 0 <= p < |s.purchases| && !s.purchases[p].status.Pending? ::
              Run(s, steps).purchases[p] == s.purchases[p]
    decreases |steps|
  {
    if steps != [] {
      var t := Apply(s, steps[0]);
      StepKeeps(s, steps[0]);
      forall p | 0 <= p < |s.purchases|
        ensures p < |t.purchases|
        ensures !s.purchases[p].status.Pending? ==> t.purchases[p] == s.purchases[p]
      {
        StepFreezes(s, steps[0], p);
      }
      assert |t.purchases| >= |s.purchases| by {
        if |s.purchases| > 0 { StepFreezes(s, steps[0], |s.purchases| - 1); }
      }
      RunKeepsPurchases(t, steps[1..]);
    }
  }

  /** The stock item a purchase is taken from, if its product is linked to one right now. */
  function LinkedItem(s: State, purchase: Id): Option<Id>
    requires purchase < |s.purchases|
  {
    var product := s.purchases[purchase].product;
    if product >= |s.products| || s.products[product].item.None? || s.products[product].item.value >= |s.items| then None
    else s.products[product].item
  }

  /** Resolving a pending purchase moves stock if and only if it is fulfilled while its product is
      linked to an item, and then by exactly the quantity bought, recorded in one movement. */
  lemma DecisionMovesStock(s: State, purchase: Id, fulfil: bool, actor: Id, actorType: ActorType)
    requires purchase < |s.purchases|
    ensures var t := ResolvePurchase(s, purchase, fulfil, actor, actorType).state;
            var link := LinkedItem(s, purchase);
      if fulfil && s.purchases[purchase].status.Pending? && link.Some? then
        && t.items[link.value].stock == s.items[link.value].stock - 100 * s.purchases[purchase].quantity
        && (forall i | 0 <= i < |s.items| && i != link.value :: t.items[i] == s.items[i])
        && t.moves == s.moves + [Movement(link.value, -100 * s.purchases[purchase].quantity, ProductSale,
                                          None, Some(s.purchases[purchase].product))]
      else t.items == s.items && t.moves == s.moves
  {
    var q: int := s.purchases[purchase].quantity;
    assert Amount(-100 * q) == -(q as real);
    CentsOfAmount(-100 * q);
  }

  /** How much of a product a step hands over from a linked stock item. */
  function Sold(s: State, step: Step, product: Id): nat {
    if step.PurchaseDecision? && step.fulfil && step.purchase < |s.purchases|
       && s.purchases[step.purchase].status.Pending? && s.purchases[step.purchase].product == product
       && LinkedItem(s, step.purchase).Some?
    then s.purchases[step.purchase].quantity else 0
  }

  ghost function SoldOver(s: State, steps: seq<Step>, product: Id): nat
    decreases |steps|
  {
    if steps == [] then 0 else Sold(s, steps[0], product) + SoldOver(Apply(s, steps[0]), steps[1..], product)
  }

  /** Other steps move stock at most once, and not for a product. */
  lemma OtherStepSellsNothing(s: State, step: Step)
    requires !step.PurchaseDecision?
    ensures var t := Apply(s, step);
      t.moves == s.moves
      || (|t.moves| == |s.moves| + 1 && t.moves == s.moves + [t.moves[|s.moves|]] && t.moves[|s.moves|].product.None?)
  {
    hide Cents, Covers, Total, PaperFor;
  }

  lemma StepMovesSales(s: State, step: Step, product: Id)
    ensures StockTotal(Apply(s, step).moves, SalesOf(product))
            == StockTotal(s.moves, SalesOf(product)) - 100 * Sold(s, step, product)
  {
    hide Cents, StockTotal;
    var t := Apply(s, step);
    if step.PurchaseDecision? {
      if step.purchase < |s.purchases| {
        DecisionMovesStock(s, step.purchase, step.fulfil, step.decidedBy, step.actorType);
        hide ResolvePurchase;
        if t.moves != s.moves {
          StockTotalAppend(s.moves, t.moves[|s.moves|]);
        }
      }
    } else {
      OtherStepSellsNothing(s, step);
      hide Apply;
      if t.moves != s.moves {
        StockTotalAppend(s.moves, t.moves[|s.moves|]);
      }
    }
  }

  /** Every run: the sale movements of a product sum to minus the quantities that were fulfilled
      while the product was linked to an item, in hundredths. */
  lemma {:induction false} RunMovesSales(s: State, steps: seq<Step>, product: Id)
    ensures StockTotal(Run(s, steps).moves, SalesOf(product))
            == StockTotal(s.moves, SalesOf(product)) - 100 * SoldOver(s, steps, product)
    decreases |steps|
  {
    if steps != [] {
      StepMovesSales(s, steps[0], product);
      RunMovesSales(Apply(s, steps[0]), steps[1..], product);
    }
  }

  lemma EmptyIsInOrder()
    ensures PurchasesInOrder(EMPTY)
  {
  }
}
