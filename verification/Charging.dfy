/** What a print job costs: pages, sheets, the price that applies, and rounding. */
module Charging {
  import opened Wrappers
  import opened Money
  import opened PageRange
  import opened Records

  // ---------- Sheets and cost ----------

  /** `ceil(pages / number_up)`. */
  function Sheets(pages: nat, numberUp: nat): nat
    requires numberUp > 0
  {
    (pages + numberUp - 1) / numberUp
  }

  /** Sheets are the least number whose room suffices for the pages. */
  lemma SheetsIsLeast(pages: nat, numberUp: nat, s: nat)
    requires numberUp > 0
    ensures s >= Sheets(pages, numberUp) <==> s * numberUp >= pages
  {
    var least := Sheets(pages, numberUp);
    var slack := (pages + numberUp - 1) % numberUp;
    assert least * numberUp + slack == pages + numberUp - 1;
    if s >= least {
      assert s * numberUp >= least * numberUp;
    } else {
      assert (s + 1) * numberUp <= least * numberUp;
      assert (s + 1) * numberUp == s * numberUp + numberUp;
    }
  }

  lemma SheetsAreMonotone(fewer: nat, more: nat, numberUp: nat)
    requires fewer <= more && numberUp > 0
    ensures Sheets(fewer, numberUp) <= Sheets(more, numberUp)
  {
    SheetsIsLeast(more, numberUp, Sheets(more, numberUp));
    SheetsIsLeast(fewer, numberUp, Sheets(more, numberUp));
  }

  lemma SheetsAreAntitone(pages: nat, fewerUp: nat, moreUp: nat)
    requires 0 < fewerUp <= moreUp
    ensures Sheets(pages, moreUp) <= Sheets(pages, fewerUp)
  {
    var s := Sheets(pages, fewerUp);
    SheetsIsLeast(pages, fewerUp, s);
    assert s * moreUp >= s * fewerUp;
    SheetsIsLeast(pages, moreUp, s);
  }

  /** The cost in cents. */
  function Cost(pages: nat, numberUp: nat, copies: nat, price: real): int
    requires numberUp > 0
  {
    SheetCost(Sheets(pages, numberUp) * copies, price)
  }

  function SheetCost(sheets: nat, price: real): int {
    Cents(sheets as real * price)
  }

  lemma CostIsNear(pages: nat, numberUp: nat, copies: nat, price: real)
    requires numberUp > 0
    ensures -0.005 <= Amount(Cost(pages, numberUp, copies, price))
                      - (Sheets(pages, numberUp) * copies) as real * price <= 0.005
  {
    CentsIsNear((Sheets(pages, numberUp) * copies) as real * price);
  }

  lemma ProductIsMonotone(a: int, b: int, p: real, q: real)
    requires 0 <= a <= b && 0.0 <= p <= q
    ensures a as real * p <= b as real * q
  {
    assert a as real * p <= b as real * p;
    assert b as real * p <= b as real * q;
  }

  lemma SheetCostIsMonotone(a: nat, b: nat, p: real, q: real)
    requires a <= b && 0.0 <= p <= q
    ensures SheetCost(a, p) <= SheetCost(b, q)
  {
    hide Cents;
    ProductIsMonotone(a, b, p, q);
    CentsIsMonotone(a as real * p, b as real * q);
  }

  lemma SheetsScale(a: nat, b: nat, copies: nat, moreCopies: nat)
    requires a <= b && copies <= moreCopies
    ensures a * copies <= b * moreCopies
  {
    assert a * copies <= b * copies <= b * moreCopies;
  }

  /** More pages, more copies or a higher price never cost less; more pages per sheet never cost more. */
  lemma CostIsMonotone(pages: nat, morePages: nat, numberUp: nat, fewerUp: nat, copies: nat, moreCopies: nat,
                       price: real, morePrice: real)
    requires pages <= morePages && 0 < fewerUp <= numberUp && copies <= moreCopies && 0.0 <= price <= morePrice
    ensures Cost(pages, numberUp, copies, price) <= Cost(morePages, fewerUp, moreCopies, morePrice)
  {
    SheetsAreMonotone(pages, morePages, numberUp);
    SheetsAreAntitone(morePages, fewerUp, numberUp);
    var s, t := Sheets(pages, numberUp), Sheets(morePages, fewerUp);
    hide Sheets, SheetCost;
    SheetsScale(s, t, copies, moreCopies);
    SheetCostIsMonotone(s * copies, t * moreCopies, price, morePrice);
  }

  // ---------- Prices ----------

  /** `None` means that the printer's own price applies. */
  datatype Permit = Permit(group: Id, printer: Id, bw: Option<real>, color: Option<real>)

  datatype Printer = Printer(active: bool, restricted: bool, admitsColor: bool, bw: real, color: real)

  function CustomPrice(permit: Permit, color: bool): Option<real> {
    if color then permit.color else permit.bw
  }

  predicate Applies(permit: Permit, groups: set<Id>, printer: Id) {
    permit.printer == printer && permit.group in groups
  }

  /** The custom prices that a user's permits for a printer offer. */
  function Offers(permits: seq<Permit>, groups: set<Id>, printer: Id, color: bool): (offers: seq<real>)
    ensures forall x :: x in offers <==> Offered(permits, groups, printer, color, x)
  {
    if permits == [] then []
    else
      var rest := Offers(permits[1..], groups, printer, color);
      var price := CustomPrice(permits[0], color);
      assert forall x :: Offered(permits, groups, printer, color, x)
                         <==> (Applies(permits[0], groups, printer) && price == Some(x))
                              || Offered(permits[1..], groups, printer, color, x) by {
        OfferedHere(permits, groups, printer, color);
      }
      if Applies(permits[0], groups, printer) && price.Some? then [price.value] + rest else rest
  }

  ghost predicate Offered(permits: seq<Permit>, groups: set<Id>, printer: Id, color: bool, x: real) {
    exists p :: p in permits && Applies(p, groups, printer) && CustomPrice(p, color) == Some(x)
  }

  lemma OfferedHere(permits: seq<Permit>, groups: set<Id>, printer: Id, color: bool)
    requires permits != []
    ensures forall x :: Offered(permits, groups, printer, color, x)
                        <==> (Applies(permits[0], groups, printer) && CustomPrice(permits[0], color) == Some(x))
                             || Offered(permits[1..], groups, printer, color, x)
  {
    assert permits == [permits[0]] + permits[1..];
  }

  function Least(xs: seq<real>): (m: real)
    requires xs != []
    ensures m in xs && forall x | x in xs :: m <= x
  {
    if |xs| == 1 then xs[0]
    else
      assert xs == [xs[0]] + xs[1..];
      var m := Least(xs[1..]);
      if xs[0] <= m then xs[0] else m
  }

  /** `get_effective_prices`, for one of its two results. */
  function EffectivePrice(permits: seq<Permit>, groups: set<Id>, printer: Id, color: bool): Option<real> {
    var offers := Offers(permits, groups, printer, color);
    if offers == [] then None else Some(Least(offers))
  }

  /** The effective price is the least that any applicable permit offers, in whatever order the
      permits come, and there is none exactly when nothing is offered. */
  lemma EffectivePriceIsLeast(permits: seq<Permit>, groups: set<Id>, printer: Id, color: bool, x: real)
    ensures EffectivePrice(permits, groups, printer, color) == Some(x)
            <==> Offered(permits, groups, printer, color, x)
                 && forall y | Offered(permits, groups, printer, color, y) :: x <= y
  {
    var offers := Offers(permits, groups, printer, color);
    if offers != [] {
      assert Offered(permits, groups, printer, color, Least(offers));
    }
  }

  lemma OrderDoesNotMatter(a: seq<Permit>, b: seq<Permit>, groups: set<Id>, printer: Id, color: bool)
    requires forall p :: p in a <==> p in b
    ensures EffectivePrice(a, groups, printer, color) == EffectivePrice(b, groups, printer, color)
  {
    assert forall x :: Offered(a, groups, printer, color, x) <==> Offered(b, groups, printer, color, x);
    NoPriceExactly(a, groups, printer, color);
    NoPriceExactly(b, groups, printer, color);
    var offers := Offers(a, groups, printer, color);
    if offers != [] {
      EffectivePriceIsLeast(a, groups, printer, color, Least(offers));
      EffectivePriceIsLeast(b, groups, printer, color, Least(offers));
    }
  }

  lemma NoPriceExactly(permits: seq<Permit>, groups: set<Id>, printer: Id, color: bool)
    ensures EffectivePrice(permits, groups, printer, color).None?
            <==> forall x :: !Offered(permits, groups, printer, color, x)
  {
    var offers := Offers(permits, groups, printer, color);
    if offers != [] {
      assert offers[0] in offers;
    }
  }

  /** Joining groups never loses a custom price, and never raises one. */
  lemma JoiningNeverRaisesCustom(permits: seq<Permit>, fewer: set<Id>, more: set<Id>, printer: Id, color: bool)
    requires fewer <= more
    ensures EffectivePrice(permits, fewer, printer, color).Some? ==>
              && EffectivePrice(permits, more, printer, color).Some?
              && EffectivePrice(permits, more, printer, color).value <= EffectivePrice(permits, fewer, printer, color).value
  {
    var before := EffectivePrice(permits, fewer, printer, color);
    if before.Some? {
      EffectivePriceIsLeast(permits, fewer, printer, color, before.value);
      assert Offered(permits, more, printer, color, before.value);
      var after := EffectivePrice(permits, more, printer, color);
      assert before.value in Offers(permits, more, printer, color);
      EffectivePriceIsLeast(permits, more, printer, color, after.value);
    }
  }

  function DefaultPrice(printer: Printer, color: bool): real {
    if color then printer.color else printer.bw
  }

  function FinalPrice(printer: Printer, custom: Option<real>, color: bool): real {
    if custom.Some? then custom.value else DefaultPrice(printer, color)
  }

  /** Joining groups raises what is paid per page exactly when no permit priced the printer before
      and every permit that now does asks more than the printer's own price. */
  lemma JoiningRaisesExactly(permits: seq<Permit>, fewer: set<Id>, more: set<Id>, id: Id, printer: Printer, color: bool)
    requires fewer <= more
    ensures FinalPrice(printer, EffectivePrice(permits, more, id, color), color)
            > FinalPrice(printer, EffectivePrice(permits, fewer, id, color), color)
            <==> && (forall x :: !Offered(permits, fewer, id, color, x))
                 && (exists x :: Offered(permits, more, id, color, x))
                 && (forall x | Offered(permits, more, id, color, x) :: x > DefaultPrice(printer, color))
  {
    JoiningNeverRaisesCustom(permits, fewer, more, id, color);
    var before, after := Offers(permits, fewer, id, color), Offers(permits, more, id, color);
    if before != [] {
      assert Offered(permits, fewer, id, color, before[0]);
    } else {
      assert forall x :: !Offered(permits, fewer, id, color, x);
      if after != [] {
        assert Offered(permits, more, id, color, Least(after));
      }
    }
  }

  // ---------- Access ----------

  predicate HasPermit(permits: seq<Permit>, groups: set<Id>, printer: Id) {
    exists i :: 0 <= i < |permits| && Applies(permits[i], groups, printer)
  }

  /** `get_accessible_printers`: the active printers that are open to all or permitted. */
  function AccessiblePrinters(printers: seq<Printer>, permits: seq<Permit>, groups: set<Id>): (ids: seq<Id>)
    ensures forall p: Id :: p in ids <==>
              p < |printers| && printers[p].active && (printers[p].restricted ==> HasPermit(permits, groups, p))
    ensures forall i, j | 0 <= i < j < |ids| :: ids[i] < ids[j]
  {
    if printers == [] then []
    else
      var n := |printers| - 1;
      var ids := AccessiblePrinters(printers[..n], permits, groups);
      assert forall i | 0 <= i < |ids| :: ids[i] in ids;
      if printers[n].active && (!printers[n].restricted || HasPermit(permits, groups, n)) then ids + [n] else ids
  }

  // ---------- A print request ----------

  datatype Options = Options(copies: nat, numberUp: nat, color: bool, pageRanges: string)

  datatype Quote = NoAccess | NoColor | BadRange | Raised | Charged(pages: nat, cost: int)

  function PageCount(options: Options, filePages: nat): Outcome {
    if options.pageRanges == "all" then Pages(filePages) else CountPages(options.pageRanges, Some(filePages))
  }

  /** `print_file` up to the call that sends the job. */
  function PrintFile(id: Id, printer: Printer, permits: seq<Permit>, groups: set<Id>, options: Options, filePages: nat): Quote
    requires options.numberUp > 0
  {
    if printer.restricted && !HasPermit(permits, groups, id) then NoAccess
    else if options.color && !printer.admitsColor then NoColor
    else
      var custom := EffectivePrice(permits, groups, id, options.color);
      var pages := PageCount(options, filePages);
      if !pages.Pages? then Raised
      else if pages.count == 0 then BadRange
      else
        Charged(Sheets(pages.count, options.numberUp) * options.copies,
                Cost(pages.count, options.numberUp, options.copies, FinalPrice(printer, custom, options.color)))
  }

  /** Choosing pages never costs more than printing the whole file. */
  lemma PartCostsNoMoreThanWhole(id: Id, printer: Printer, permits: seq<Permit>, groups: set<Id>, options: Options, filePages: nat)
    requires options.numberUp > 0 && filePages > 0
    requires FinalPrice(printer, EffectivePrice(permits, groups, id, options.color), options.color) >= 0.0
    ensures var part := PrintFile(id, printer, permits, groups, options, filePages);
            var whole := PrintFile(id, printer, permits, groups, options.(pageRanges := "all"), filePages);
            part.Charged? ==> whole.Charged? && 0 <= part.cost <= whole.cost && part.pages <= whole.pages
  {
    hide Cost, Sheets, EffectivePrice, CountPages, HasPermit;
    var price := FinalPrice(printer, EffectivePrice(permits, groups, id, options.color), options.color);
    var part := PrintFile(id, printer, permits, groups, options, filePages);
    if part.Charged? {
      var pages := PageCount(options, filePages).count;
      CountIsBounded(options.pageRanges, Some(filePages));
      assert pages <= filePages;
      CostIsMonotone(pages, filePages, options.numberUp, options.numberUp, options.copies, options.copies, price, price);
      SheetsAreMonotone(pages, filePages, options.numberUp);
      NothingIsFree(pages, options.numberUp, options.copies, price);
      SheetsScale(Sheets(pages, options.numberUp), Sheets(filePages, options.numberUp), options.copies, options.copies);
    }
  }

  lemma NothingIsFree(pages: nat, numberUp: nat, copies: nat, price: real)
    requires numberUp > 0 && price >= 0.0
    ensures Cost(pages, numberUp, copies, price) >= 0
  {
    var n: int := Sheets(pages, numberUp) * copies;
    ProductIsMonotone(0, n, price, price);
    CentsIsMonotone(0.0, n as real * price);
  }

  /** Of the active printers, exactly those a user is shown pass the access check. */
  lemma ListedIffAdmitted(printers: seq<Printer>, permits: seq<Permit>, groups: set<Id>, id: Id, options: Options, filePages: nat)
    requires options.numberUp > 0 && id < |printers| && printers[id].active
    ensures id in AccessiblePrinters(printers, permits, groups)
            <==> PrintFile(id, printers[id], permits, groups, options, filePages) != NoAccess
  {
  }

  /** A permit of one of the user's groups for the printer names this price for the mode asked. */
  ghost predicate IsOffer(permits: seq<Permit>, groups: set<Id>, id: Id, color: bool, x: real) {
    exists p :: p in permits && p.printer == id && p.group in groups && (if color then p.color else p.bw) == Some(x)
  }

  /** The price per page: the least offer, or the printer's own price if there is none. */
  ghost predicate IsPrice(permits: seq<Permit>, groups: set<Id>, id: Id, printer: Printer, color: bool, x: real) {
    if exists y :: IsOffer(permits, groups, id, color, y) then
      IsOffer(permits, groups, id, color, x) && forall y | IsOffer(permits, groups, id, color, y) :: x <= y
    else x == if color then printer.color else printer.bw
  }

  lemma PriceIsFinal(permits: seq<Permit>, groups: set<Id>, id: Id, printer: Printer, color: bool, x: real)
    ensures IsPrice(permits, groups, id, printer, color, x)
            <==> x == FinalPrice(printer, EffectivePrice(permits, groups, id, color), color)
  {
    forall y ensures IsOffer(permits, groups, id, color, y) <==> Offered(permits, groups, id, color, y) {
      if IsOffer(permits, groups, id, color, y) {
        var p :| p in permits && p.printer == id && p.group in groups && (if color then p.color else p.bw) == Some(y);
        assert Applies(p, groups, id) && CustomPrice(p, color) == Some(y);
      }
    }
    var custom := EffectivePrice(permits, groups, id, color);
    NoPriceExactly(permits, groups, id, color);
    if custom.Some? {
      EffectivePriceIsLeast(permits, groups, id, color, custom.value);
      EffectivePriceIsLeast(permits, groups, id, color, x);
    }
  }

  /** The pages that the request is about. */
  function Asked(options: Options, filePages: nat): Outcome {
    if options.pageRanges == "all" then Pages(filePages) else CountPages(options.pageRanges, Some(filePages))
  }

  predicate IsAdmitted(id: Id, printer: Printer, permits: seq<Permit>, groups: set<Id>) {
    !printer.restricted || exists i :: 0 <= i < |permits| && permits[i].printer == id && permits[i].group in groups
  }

  /** When the route refuses, and with what. */
  lemma RouteRefusesExactly(id: Id, printer: Printer, permits: seq<Permit>, groups: set<Id>, options: Options, filePages: nat)
    requires options.numberUp > 0
    ensures var q := PrintFile(id, printer, permits, groups, options, filePages);
            var admitted := IsAdmitted(id, printer, permits, groups);
            var served := admitted && !(options.color && !printer.admitsColor);
      && (q.NoAccess? <==> !admitted)
      && (q.NoColor? <==> admitted && options.color && !printer.admitsColor)
      && (q.Raised? <==> served && Asked(options, filePages).ValueError?)
      && (q.BadRange? <==> served && Asked(options, filePages) == Pages(0))
      && (q.Charged? <==> served && Asked(options, filePages).Pages? && Asked(options, filePages).count > 0)
  {
    hide CountPages, Cost, EffectivePrice;
    if IsAdmitted(id, printer, permits, groups) && printer.restricted {
      var i :| 0 <= i < |permits| && permits[i].printer == id && permits[i].group in groups;
      assert Applies(permits[i], groups, id);
    }
  }

  lemma ChargedByParts(id: Id, printer: Printer, permits: seq<Permit>, groups: set<Id>, options: Options, filePages: nat)
    requires options.numberUp > 0 && PrintFile(id, printer, permits, groups, options, filePages).Charged?
    ensures Asked(options, filePages).Pages?
    ensures var q := PrintFile(id, printer, permits, groups, options, filePages);
      && q.pages == Sheets(Asked(options, filePages).count, options.numberUp) * options.copies
      && q.cost == SheetCost(q.pages, FinalPrice(printer, EffectivePrice(permits, groups, id, options.color), options.color))
  {
    hide CountPages, Sheets, SheetCost, EffectivePrice, HasPermit;
  }

  /** The sheets have room for the pages, and no fewer sheets do. */
  ghost predicate IsLeastRoom(sheets: nat, pages: nat, numberUp: nat) {
    sheets * numberUp >= pages && forall fewer: nat | fewer * numberUp >= pages :: sheets <= fewer
  }

  lemma LeastIsSheets(pages: nat, numberUp: nat, sheets: nat)
    requires numberUp > 0 && IsLeastRoom(sheets, pages, numberUp)
    ensures sheets == Sheets(pages, numberUp)
  {
    SheetsIsLeast(pages, numberUp, Sheets(pages, numberUp));
    SheetsIsLeast(pages, numberUp, sheets);
    hide Sheets;
    assert Sheets(pages, numberUp) * numberUp >= pages;
  }

  lemma SheetCostIsNear(pages: nat, price: real)
    ensures -0.005 <= SheetCost(pages, price) as real / 100.0 - pages as real * price <= 0.005
    ensures SheetCost(pages, price) == Cents(pages as real * price)
  {
    CentsIsNear(pages as real * price);
  }

  /** The quoted cost is the quoted pages at this price, rounded to the nearest cent. */
  ghost predicate IsPricedAt(q: Quote, price: real) {
    && q.Charged?
    && q.cost == Cents(q.pages as real * price)
    && -0.005 <= q.cost as real / 100.0 - q.pages as real * price <= 0.005
  }

  lemma SheetCostOfPages(q: Quote, sheets: nat, copies: nat, price: real)
    requires q.Charged? && q.pages == sheets * copies && q.cost == SheetCost(q.pages, price)
    ensures IsPricedAt(q, price)
  {
    SheetCostIsNear(q.pages, price);
  }

  lemma ChargedAtPrice(id: Id, printer: Printer, permits: seq<Permit>, groups: set<Id>, options: Options, filePages: nat,
                       sheets: nat, price: real)
    requires options.numberUp > 0 && PrintFile(id, printer, permits, groups, options, filePages).Charged?
    requires Asked(options, filePages).Pages? ==> IsLeastRoom(sheets, Asked(options, filePages).count, options.numberUp)
    requires IsPrice(permits, groups, id, printer, options.color, price)
    ensures var q := PrintFile(id, printer, permits, groups, options, filePages);
            q.pages == sheets * options.copies && q.cost == SheetCost(q.pages, price)
  {
    hide *;
    ChargedByParts(id, printer, permits, groups, options, filePages);
    LeastIsSheets(Asked(options, filePages).count, options.numberUp, sheets);
    PriceIsFinal(permits, groups, id, printer, options.color, price);
  }

  /** What the route charges: for every copy the least number of sheets that holds the pages asked,
      at the price that applies, rounded to within half a cent. */
  lemma RouteChargesExactly(id: Id, printer: Printer, permits: seq<Permit>, groups: set<Id>, options: Options, filePages: nat,
                            sheets: nat, price: real)
    requires options.numberUp > 0 && PrintFile(id, printer, permits, groups, options, filePages).Charged?
    requires Asked(options, filePages).Pages? ==> IsLeastRoom(sheets, Asked(options, filePages).count, options.numberUp)
    requires IsPrice(permits, groups, id, printer, options.color, price)
    ensures var q := PrintFile(id, printer, permits, groups, options, filePages);
            q.pages == sheets * options.copies && IsPricedAt(q, price)
  {
    hide *;
    ChargedAtPrice(id, printer, permits, groups, options, filePages, sheets, price);
    SheetCostOfPages(PrintFile(id, printer, permits, groups, options, filePages), sheets, options.copies, price);
  }
}
