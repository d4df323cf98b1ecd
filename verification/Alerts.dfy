/** The scheduler's low-stock and toner alerts, with the state they keep between runs. */
module Alerts {
  import opened Wrappers
  import opened Records
  import opened Debounce
  import MarkerHistory

  const LOW_STOCK_ALERT_INTERVAL_HOURS := 24

  type Marker = MarkerHistory.Marker

  predicate IsLowStock(item: Item) {
    item.stock <= item.threshold
  }

  predicate IsLowMarker(m: Marker) {
    m.level != -1 && m.level < m.lowLevel
  }

  /** A lookup that fails or reports no markers counts as nothing being low. */
  predicate IsLowReading(reading: Option<seq<Marker>>) {
    reading.Some? && exists i :: 0 <= i < |reading.value| && IsLowMarker(reading.value[i])
  }

  function LowMarkers(markers: seq<Marker>): (low: seq<Marker>)
    ensures forall m :: m in low <==> m in markers && IsLowMarker(m)
  {
    if markers == [] then []
    else
      var n := |markers| - 1;
      if IsLowMarker(markers[n]) then LowMarkers(markers[..n]) + [markers[n]] else LowMarkers(markers[..n])
  }

  lemma LowReadingHasMarkers(markers: seq<Marker>)
    ensures LowMarkers(markers) != [] <==> IsLowReading(Some(markers))
  {
    if LowMarkers(markers) != [] {
      var m := LowMarkers(markers)[0];
      assert m in LowMarkers(markers);
    } else {
      assert forall i | 0 <= i < |markers| :: markers[i] in markers;
    }
  }

  /** What a low-stock check amounts to: skipped when nobody is to be told. */
  function LowStockCheck(items: seq<Item>, chats: nat, now: int): Check<Id> {
    if chats == 0 then Skipped
    else Check.Completed(now, LOW_STOCK_ALERT_INTERVAL_HOURS * HOUR, set i: Id | i < |items| && IsLowStock(items[i]))
  }

  function TonerInterval(hours: int): int {
    (if hours > 1 then hours else 1) * HOUR
  }

  /** What a toner check amounts to: skipped while disabled or when no administrator has an address. */
  function TonerCheck(enabled: bool, hours: int, emails: nat, printers: seq<string>,
                      readings: map<string, seq<Marker>>, now: int): Check<string>
  {
    if !enabled || emails == 0 then Skipped
    else Check.Completed(now, TonerInterval(hours), set p | p in printers && IsLowReading(Lookup(readings, p)))
  }

  /** What the print server answered about a printer, if it answered. */
  function Lookup(readings: map<string, seq<Marker>>, printer: string): Option<seq<Marker>> {
    if printer in readings then Some(readings[printer]) else None
  }

  datatype StockAlert = StockAlert(item: Id, stock: int, threshold: int)

  datatype TonerAlert = TonerAlert(printer: string, markers: seq<Marker>)

  class AlertState {
    var lowStock: map<Id, int>
    var toner: map<string, int>

    constructor ()
      ensures lowStock == map[] && toner == map[]
    {
      lowStock, toner := map[], map[];
    }

    /** `check_low_stock_sync`. `lowItems` is what the low-stock query returned, in its order. */
    method CheckLowStock(items: seq<Item>, lowItems: seq<Id>, chats: nat, now: int)
      returns (alerts: seq<StockAlert>)
      requires forall i: Id :: i in lowItems <==> i < |items| && IsLowStock(items[i])
      requires forall i, j | 0 <= i < j < |lowItems| :: lowItems[i] != lowItems[j]
      modifies this
      ensures lowStock == NextState(old(lowStock), LowStockCheck(items, chats, now))
      ensures toner == old(toner)
      ensures forall a :: a in alerts <==>
                IsDue(old(lowStock), LowStockCheck(items, chats, now), a.item)
                && a == StockAlert(a.item, items[a.item].stock, items[a.item].threshold)
      ensures forall i, j | 0 <= i < j < |alerts| :: alerts[i] != alerts[j]
    {
      ghost var check := LowStockCheck(items, chats, now);
      alerts := [];
      if chats == 0 {
        return;
      }
      var newState: map<Id, int> := map[];
      for n := 0 to |lowItems|
        invariant forall i :: i in newState <==> i in lowItems[..n]
        invariant forall i | i in newState :: i in check.low && newState[i] == Renewed(lowStock, check, i)
        invariant forall a :: a in alerts <==>
                    a.item in lowItems[..n] && IsDue(lowStock, check, a.item)
                    && a == StockAlert(a.item, items[a.item].stock, items[a.item].threshold)
        invariant forall i, j | 0 <= i < j < |alerts| :: alerts[i] != alerts[j]
      {
        var item := lowItems[n];
        assert lowItems[..n + 1] == lowItems[..n] + [item];
        assert item in lowItems && item !in lowItems[..n];
        var shouldNotify := item !in lowStock || now - lowStock[item] >= LOW_STOCK_ALERT_INTERVAL_HOURS * HOUR;
        newState := newState[item := if shouldNotify then now else lowStock[item]];
        if shouldNotify {
          alerts := alerts + [StockAlert(item, items[item].stock, items[item].threshold)];
        }
      }
      assert lowItems[..|lowItems|] == lowItems;
      lowStock := newState;
    }

    /** `check_toner_alerts_sync`. */
    method CheckTonerAlerts(enabled: bool, hours: int, emails: nat, printers: seq<string>,
                            readings: map<string, seq<Marker>>, now: int)
      returns (alerts: seq<TonerAlert>)
      modifies this
      ensures toner == NextState(old(toner), TonerCheck(enabled, hours, emails, printers, readings, now))
      ensures lowStock == old(lowStock)
      ensures forall a :: a in alerts <==>
                IsDue(old(toner), TonerCheck(enabled, hours, emails, printers, readings, now), a.printer)
                && a == TonerAlert(a.printer, LowMarkers(readings[a.printer]))
    {
      ghost var check := TonerCheck(enabled, hours, emails, printers, readings, now);
      alerts := [];
      if !enabled || emails == 0 {
        return;
      }
      var interval := if hours > 1 then hours else 1;
      var newState: map<string, int> := map[];
      for n := 0 to |printers|
        invariant lowStock == old(lowStock) && toner == old(toner)
        invariant forall p :: p in newState <==> p in printers[..n] && p in check.low
        invariant forall p | p in newState :: newState[p] == Renewed(toner, check, p)
        invariant forall a :: a in alerts <==>
                    a.printer in printers[..n] && IsDue(toner, check, a.printer)
                    && a == TonerAlert(a.printer, LowMarkers(readings[a.printer]))
      {
        var name := printers[n];
        assert printers[..n + 1] == printers[..n] + [name];
        assert name in printers;
        if name !in readings || readings[name] == [] {
          continue;
        }
        var lowMarkers := LowMarkers(readings[name]);
        LowReadingHasMarkers(readings[name]);
        if lowMarkers == [] {
          continue;
        }
        var shouldNotify := name !in toner || now - toner[name] >= interval * HOUR;
        newState := newState[name := if shouldNotify then now else toner[name]];
        if shouldNotify {
          alerts := alerts + [TonerAlert(name, lowMarkers)];
        }
      }
      assert printers[..|printers|] == printers;
      toner := newState;
    }
  }

  /** One completed low-stock check after another, as a run of the shared debouncing. */
  function StockRun(items: seq<seq<Item>>, chats: seq<nat>, times: seq<int>): seq<Check<Id>>
    requires |items| == |chats| == |times|
  {
    seq(|items|, i requires 0 <= i < |items| => LowStockCheck(items[i], chats[i], times[i]))
  }

  /** Two low-stock notices about an item are a day apart unless a check in between found enough. */
  lemma StockNoticesAreADayApart(items: seq<seq<Item>>, chats: seq<nat>, times: seq<int>, i: nat, j: nat, item: Id)
    requires |items| == |chats| == |times| && i < j < |items|
    requires Notifies(StockRun(items, chats, times), i, item) && Notifies(StockRun(items, chats, times), j, item)
    requires forall m | i <= m < j && chats[m] > 0 :: item < |items[m]| && IsLowStock(items[m][item])
    ensures times[j] - times[i] >= 24 * HOUR
  {
    var run := StockRun(items, chats, times);
    NoticesAreSpaced(run, i, j, item);
  }

  datatype TonerArguments = TonerArguments(enabled: bool, hours: int, emails: nat, printers: seq<string>,
                                           readings: map<string, seq<Marker>>, now: int)

  function TonerRun(args: seq<TonerArguments>): seq<Check<string>> {
    seq(|args|, i requires 0 <= i < |args| =>
      TonerCheck(args[i].enabled, args[i].hours, args[i].emails, args[i].printers, args[i].readings, args[i].now))
  }

  /** Two toner notices about a printer are the later check's interval apart, and at least an hour,
      unless a check in between was not answered with a low marker. */
  lemma TonerNoticesAreSpaced(args: seq<TonerArguments>, i: nat, j: nat, printer: string)
    requires i < j < |args|
    requires Notifies(TonerRun(args), i, printer) && Notifies(TonerRun(args), j, printer)
    requires forall m | i <= m < j && args[m].enabled && args[m].emails > 0 ::
               printer in args[m].printers && IsLowReading(Lookup(args[m].readings, printer))
    ensures args[j].now - args[i].now >= HOUR && args[j].now - args[i].now >= args[j].hours * HOUR
  {
    var run := TonerRun(args);
    NoticesAreSpaced(run, i, j, printer);
  }

  /** The check is made, and does not find a low marker: the printer is fine, or not listed any
      more, or its lookup fails or answers with no markers. */
  predicate ClosesEpisode(args: TonerArguments, printer: string) {
    && args.enabled && args.emails > 0
    && !(printer in args.printers && IsLowReading(Lookup(args.readings, printer)))
  }

  /** After a toner notice, and until the next one, a check that finds a low marker notifies exactly
      when a check in between closed the episode or the configured hours, at least one, have
      passed. So notices come too early exactly when such a check lies between them. */
  lemma NextTonerNoticeExactly(args: seq<TonerArguments>, i: nat, j: nat, printer: string)
    requires i < j < |args| && Notifies(TonerRun(args), i, printer)
    requires forall m | i < m < j :: !Notifies(TonerRun(args), m, printer)
    requires args[j].enabled && args[j].emails > 0
    requires printer in args[j].printers && IsLowReading(Lookup(args[j].readings, printer))
    ensures Notifies(TonerRun(args), j, printer)
            <==> (exists m :: i < m < j && ClosesEpisode(args[m], printer))
                 || args[j].now - args[i].now >= TonerInterval(args[j].hours)
  {
    var run := TonerRun(args);
    forall m | 0 <= m < |args| ensures IsFine(run[m], printer) <==> ClosesEpisode(args[m], printer) {
    }
    NextNoticeExactly(run, i, j, printer);
    if exists m :: i < m < j && IsFine(run[m], printer) {
      var m :| i < m < j && IsFine(run[m], printer);
      assert ClosesEpisode(args[m], printer);
    }
    if exists m :: i < m < j && ClosesEpisode(args[m], printer) {
      var m :| i < m < j && ClosesEpisode(args[m], printer);
      assert IsFine(run[m], printer);
    }
  }

  /** The toner law needs every lookup to answer: one failed lookup between two low readings
      drops the remembered notice, so the second notice comes an hour after the first instead of
      a day. */
  lemma FailedLookupForgets(printer: string, marker: Marker)
    requires IsLowMarker(marker)
    ensures var low := map[printer := [marker]];
            var run := [TonerCheck(true, 24, 1, [printer], low, 0),
                        TonerCheck(true, 24, 1, [printer], map[], HOUR / 2),
                        TonerCheck(true, 24, 1, [printer], low, HOUR)];
            Notifies(run, 0, printer) && Notifies(run, 2, printer)
  {
    var low := map[printer := [marker]];
    var run := [TonerCheck(true, 24, 1, [printer], low, 0),
                TonerCheck(true, 24, 1, [printer], map[], HOUR / 2),
                TonerCheck(true, 24, 1, [printer], low, HOUR)];
    assert [marker][0] == marker;
    assert printer in [printer] && IsLowReading(Lookup(low, printer));
    FirstOfEpisodeNotifies(run, 0, printer);
    RecoveryResets(run, 1, 2, printer);
  }

  /** A toner check keeps a printer's episode open exactly when it is skipped, or the printer is
      listed and its lookup answers with some marker low. */
  lemma EpisodeStaysOpenExactly(state: map<string, int>, enabled: bool, hours: int, emails: nat, printers: seq<string>,
                                readings: map<string, seq<Marker>>, now: int, printer: string)
    requires printer in state
    ensures printer in NextState(state, TonerCheck(enabled, hours, emails, printers, readings, now))
            <==> !enabled || emails == 0
                 || (printer in printers && printer in readings
                     && exists i :: 0 <= i < |readings[printer]| && IsLowMarker(readings[printer][i]))
  {
  }

  /** A low-stock check alerts about exactly the items at or below their threshold that have not been
      notified within the last day, and remembers exactly the items at or below it. */
  lemma StockAlertExactly(state: map<Id, int>, items: seq<Item>, chats: nat, now: int, item: Id)
    ensures var check := LowStockCheck(items, chats, now);
      && (IsDue(state, check, item) <==>
            && chats > 0 && item < |items| && items[item].stock <= items[item].threshold
            && (item !in state || now - state[item] >= 86_400_000_000))
      && (chats > 0 ==>
            (item in NextState(state, check) <==> item < |items| && items[item].stock <= items[item].threshold))
      && (chats == 0 ==> NextState(state, check) == state)
  {
  }

  /** A toner check alerts about exactly the listed printers that answer with a marker whose level is
      known and below its low level and that have not been notified within the configured hours,
      at least one. */
  lemma TonerAlertExactly(state: map<string, int>, enabled: bool, hours: int, emails: nat, printers: seq<string>,
                          readings: map<string, seq<Marker>>, now: int, printer: string)
    ensures IsDue(state, TonerCheck(enabled, hours, emails, printers, readings, now), printer)
            <==> && enabled && emails > 0 && printer in printers && printer in readings
                 && (exists m :: m in readings[printer] && m.level != -1 && m.level < m.lowLevel)
                 && (printer !in state || now - state[printer] >= (if hours > 1 then hours else 1) * 3_600_000_000)
  {
    if printer in readings {
      LowMarkerListed(readings[printer]);
    }
  }

  lemma LowMarkerListed(markers: seq<Marker>)
    ensures IsLowReading(Some(markers)) <==> exists m :: m in markers && m.level != -1 && m.level < m.lowLevel
    ensures forall m :: m in LowMarkers(markers) <==> m in markers && m.level != -1 && m.level < m.lowLevel
  {
    if IsLowReading(Some(markers)) {
      var i :| 0 <= i < |markers| && IsLowMarker(markers[i]);
      assert markers[i] in markers;
    }
  }
}
