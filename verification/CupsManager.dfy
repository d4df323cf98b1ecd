/** The print-server client: its persistent toner-marker cache and its lookup retry counter. */
module CupsManager {
  import opened Wrappers
  import opened Records
  import opened MarkerHistory

  type Rows = map<(string, nat), Marker>

  /** The rows of one printer, by position. */
  ghost function OfPrinter(rows: Rows, printer: string): map<nat, Marker> {
    map key | key in rows && key.0 == printer :: key.1 := rows[key]
  }

  ghost predicate SameForOthers(rows: Rows, others: Rows, printer: string) {
    forall key: (string, nat) | key.0 != printer ::
      (key in rows <==> key in others) && (key in rows ==> rows[key] == others[key])
  }

  lemma OfPrinterAt(rows: Rows, printer: string, i: nat)
    ensures i in OfPrinter(rows, printer) <==> (printer, i) in rows
    ensures (printer, i) in rows ==> OfPrinter(rows, printer)[i] == rows[(printer, i)]
  {
    if (printer, i) in rows {
      assert (printer, i).1 == i;
    }
  }

  lemma UpsertRow(rows: Rows, printer: string, i: nat, m: Marker)
    ensures OfPrinter(rows[(printer, i) := m], printer) == OfPrinter(rows, printer)[i := m]
    ensures SameForOthers(rows[(printer, i) := m], rows, printer)
  {
    var after, expected := OfPrinter(rows[(printer, i) := m], printer), OfPrinter(rows, printer)[i := m];
    forall k: nat ensures k in after <==> k in expected {
      OfPrinterAt(rows, printer, k);
      OfPrinterAt(rows[(printer, i) := m], printer, k);
    }
    forall k: nat | k in after ensures after[k] == expected[k] {
      OfPrinterAt(rows, printer, k);
      OfPrinterAt(rows[(printer, i) := m], printer, k);
    }
  }

  /** One row per printer and marker position, as in the cache's SQLite table. */
  class MarkerCache {
    var rows: Rows

    constructor ()
      ensures rows == map[]
    {
      rows := map[];
    }

    ghost function Of(printer: string): map<nat, Marker>
      reads this
    {
      OfPrinter(rows, printer)
    }

    method GetAll(printer: string) returns (cache: map<nat, Marker>)
      ensures cache == Of(printer)
    {
      cache := map key | key in rows && key.0 == printer :: key.1 := rows[key];
    }

    /** Upserts the markers one by one; a later pair with the same position wins. */
    method SetMany(printer: string, indexed: seq<(nat, Marker)>)
      modifies this
      ensures Of(printer) == Upserted(old(Of(printer)), indexed)
      ensures SameForOthers(rows, old(rows), printer)
    {
      hide OfPrinter;
      for i := 0 to |indexed|
        invariant Of(printer) == Upserted(old(Of(printer)), indexed[..i])
        invariant SameForOthers(rows, old(rows), printer)
      {
        UpsertRow(rows, printer, indexed[i].0, indexed[i].1);
        rows := rows[(printer, indexed[i].0) := indexed[i].1];
        assert indexed[..i + 1][..i] == indexed[..i];
      }
      assert indexed[..|indexed|] == indexed;
    }

    method DeleteAll(printer: string)
      modifies this
      ensures Of(printer) == map[] && Agrees(Of(printer), [])
      ensures SameForOthers(rows, old(rows), printer)
    {
      rows := map key | key in rows && key.0 != printer :: rows[key];
    }
  }

  ghost function Upserted(cache: map<nat, Marker>, indexed: seq<(nat, Marker)>): map<nat, Marker> {
    if indexed == [] then cache
    else
      var last := indexed[|indexed| - 1];
      Upserted(cache, indexed[..|indexed| - 1])[last.0 := last.1]
  }

  /** The list of pairs handed to the cache for the first `n` markers of a poll. */
  function Persisted(cache: map<nat, Marker>, raw: Poll, n: nat): seq<(nat, Marker)>
    requires n <= |raw|
  {
    if n == 0 then []
    else if IsPersisted(cache, raw, n - 1) then Persisted(cache, raw, n - 1) + [(n - 1, raw[n - 1])]
    else Persisted(cache, raw, n - 1)
  }

  ghost function UpdatedBelow(cache: map<nat, Marker>, raw: Poll, n: nat): map<nat, Marker>
    requires n <= |raw|
  {
    cache + map i: nat | 0 <= i < n && IsPersisted(cache, raw, i) :: raw[i]
  }

  lemma UpdatedBelowStep(cache: map<nat, Marker>, raw: Poll, n: nat)
    requires n < |raw|
    ensures UpdatedBelow(cache, raw, n + 1)
            == if IsPersisted(cache, raw, n) then UpdatedBelow(cache, raw, n)[n := raw[n]] else UpdatedBelow(cache, raw, n)
  {
  }

  lemma UpsertedLast(cache: map<nat, Marker>, indexed: seq<(nat, Marker)>, i: nat, m: Marker)
    ensures Upserted(cache, indexed + [(i, m)]) == Upserted(cache, indexed)[i := m]
  {
    assert (indexed + [(i, m)])[..|indexed|] == indexed;
  }

  lemma {:induction false} PersistedIsUpdate(cache: map<nat, Marker>, raw: Poll, n: nat)
    requires n <= |raw|
    ensures Upserted(cache, Persisted(cache, raw, n)) == UpdatedBelow(cache, raw, n)
  {
    hide IsPersisted, Upserted, UpdatedBelow;
    if n == 0 {
      assert Persisted(cache, raw, 0) == [];
      EmptyUpdate(cache, raw);
    } else {
      PersistedIsUpdate(cache, raw, n - 1);
      UpdatedBelowStep(cache, raw, n - 1);
      UpsertedLast(cache, Persisted(cache, raw, n - 1), n - 1, raw[n - 1]);
    }
  }

  lemma EmptyUpdate(cache: map<nat, Marker>, raw: Poll)
    ensures Upserted(cache, []) == cache == UpdatedBelow(cache, raw, 0)
  {
  }

  /** The positions from `low` up to `high`. */
  ghost function Positions(low: nat, high: nat): (s: set<nat>)
    ensures forall i: nat :: i in s <==> low <= i < high
    ensures low <= high ==> |s| == high - low
    decreases high
  {
    if high <= low then {} else Positions(low, high - 1) + {(high - 1) as nat}
  }

  /** `merged` lists the markers of positions a poll leaves out, in the order `order`. */
  ghost predicate ListsAbsent(merged: seq<Marker>, order: seq<nat>, history: seq<Poll>, covered: nat) {
    && |merged| == covered + |order|
    && (forall k | 0 <= k < |order| :: Remembered(history, order[k]) == Some(merged[covered + k]))
    && (forall j, k | 0 <= j < k < |order| :: order[j] != order[k])
    && (forall i: nat :: i in order <==> covered <= i < Longest(history))
  }

  /** What the print server answers about a job: nothing at all, an error, or a state number. */
  datatype Lookup = NoConnection | Failed | JobState(state: int)

  /** What a lookup tells the scheduler; an unmapped state number raises `KeyError`. */
  datatype Answer = Unknown | Is(status: JobStatus) | KeyError

  const MAX_TRIES := 3

  function MapState(state: int): Answer {
    match state
    case 3 => Is(JobStatus.Pending)
    case 4 => Is(Held)
    case 5 => Is(Printing)
    case 6 => Is(Stopped)
    case 7 => Is(Cancelled)
    case 8 => Is(Aborted)
    case 9 => Is(Completed)
    case _ => KeyError
  }

  function Stored(counters: map<int, nat>, job: int): nat {
    if job in counters then counters[job] else 0
  }

  /** The counters and the answer after one lookup of `job`. */
  function Next(counters: map<int, nat>, job: int, lookup: Lookup): (map<int, nat>, Answer) {
    match lookup
    case NoConnection => (counters, Unknown)
    case JobState(state) => (counters, MapState(state))
    case Failed =>
      var tries := Stored(counters, job) + 1;
      if tries > MAX_TRIES then (counters - {job}, Is(Aborted)) else (counters[job := tries], Unknown)
  }

  class CupsManager {
    const markerCache: MarkerCache
    var jobsWithError: map<int, nat>

    constructor ()
      ensures fresh(markerCache) && markerCache.rows == map[] && jobsWithError == map[]
    {
      markerCache := new MarkerCache();
      jobsWithError := map[];
    }

    /** `_merge_with_cache`. `history` is every poll of this printer since its rows were deleted;
        the order of the markers that the poll leaves out is the cache's own and not specified. */
    method MergeWithCache(printer: string, raw: Poll, ghost history: seq<Poll>)
      returns (merged: seq<Marker>, ghost order: seq<nat>)
      requires Agrees(markerCache.Of(printer), history)
      modifies markerCache
      ensures Agrees(markerCache.Of(printer), history + [raw])
      ensures SameForOthers(markerCache.rows, old(markerCache.rows), printer)
      ensures |merged| == Longest(history + [raw])
      ensures forall i | 0 <= i < |raw| :: merged[i] == Reported(history, raw, i)
      ensures ListsAbsent(merged, order, history + [raw], |raw|)
    {
      hide OfPrinter, Reported, Remembered, ListsAbsent, Persisted, Upserted, SameForOthers;
      var printerCache := markerCache.GetAll(printer);
      ghost var before := printerCache;

      var toPersist: seq<(nat, Marker)> := SelectPersisted(printerCache, raw);
      PersistedIsUpdate(before, raw, |raw|);
      UpdateAgrees(before, history, raw);
      if toPersist != [] {
        markerCache.SetMany(printer, toPersist);
        printerCache := Overlay(printerCache, toPersist);
      } else {
        NothingToPersist(before, markerCache.rows, printer);
      }
      assert printerCache == Updated(before, raw) == markerCache.Of(printer);

      var shown := ShowPoll(printerCache, raw, before, history);
      LastPoll(history, raw);
      merged, order := AppendAbsent(printerCache, shown, history + [raw]);
    }

    /** Re-inserts the cached markers of the positions beyond the poll, in any order. */
    method AppendAbsent(cache: map<nat, Marker>, shown: seq<Marker>, ghost history: seq<Poll>)
      returns (merged: seq<Marker>, ghost order: seq<nat>)
      requires Agrees(cache, history) && |shown| <= Longest(history)
      ensures shown <= merged && |merged| == Longest(history)
      ensures ListsAbsent(merged, order, history, |shown|)
    {
      hide Remembered, Longest;
      merged, order := shown, [];
      var left := set i | i in cache && i >= |shown|;
      assert left == Positions(|shown|, Longest(history));
      while left != {}
        invariant left <= cache.Keys && |order| + |left| == Longest(history) - |shown|
        invariant shown <= merged && |merged| == |shown| + |order|
        invariant forall k | 0 <= k < |order| :: Remembered(history, order[k]) == Some(merged[|shown| + k])
        invariant forall j, k | 0 <= j < k < |order| :: order[j] != order[k]
        invariant forall i: nat :: i in order || i in left <==> |shown| <= i < Longest(history)
        invariant forall i | i in order :: i !in left
        decreases |left|
      {
        var i :| i in left;
        merged := merged + [cache[i]];
        order := order + [i];
        left := left - {i};
      }
    }

    /** `get_job_status`. */
    method GetJobStatus(job: int, lookup: Lookup) returns (answer: Answer)
      modifies this`jobsWithError
      ensures (jobsWithError, answer) == Next(old(jobsWithError), job, lookup)
    {
      match lookup
      case NoConnection => return Unknown;
      case Failed =>
        if job !in jobsWithError {
          jobsWithError := jobsWithError[job := 0];
        }
        jobsWithError := jobsWithError[job := jobsWithError[job] + 1];
        if jobsWithError[job] > MAX_TRIES {
          jobsWithError := jobsWithError - {job};
          assert jobsWithError == old(jobsWithError) - {job};
          return Is(Aborted);
        }
        assert jobsWithError == old(jobsWithError)[job := Stored(old(jobsWithError), job) + 1];
        return Unknown;
      case JobState(state) =>
        answer := MapState(state);
    }
  }

  /** The first loop of the merge: which markers to write. */
  method SelectPersisted(cache: map<nat, Marker>, raw: Poll) returns (toPersist: seq<(nat, Marker)>)
    ensures toPersist == Persisted(cache, raw, |raw|)
  {
    toPersist := [];
    for i := 0 to |raw|
      invariant toPersist == Persisted(cache, raw, i)
    {
      if IsValid(raw[i]) {
        toPersist := toPersist + [(i, raw[i])];
      } else if i !in cache {
        toPersist := toPersist + [(i, raw[i])];
      }
    }
  }

  lemma NothingToPersist(cache: map<nat, Marker>, rows: Rows, printer: string)
    ensures Upserted(cache, []) == cache && SameForOthers(rows, rows, printer)
  {
  }

  /** The second loop of the merge: what to show at the positions the poll covers. `cache` holds
      what was cached `before` this poll, updated with the poll itself. */
  method ShowPoll(cache: map<nat, Marker>, raw: Poll, ghost before: map<nat, Marker>, ghost history: seq<Poll>)
    returns (merged: seq<Marker>)
    requires Agrees(before, history) && cache == Updated(before, raw)
    ensures |merged| == |raw|
    ensures forall i | 0 <= i < |raw| :: merged[i] == Reported(history, raw, i)
  {
    hide Agrees, Reported;
    merged := [];
    for i := 0 to |raw|
      invariant |merged| == i
      invariant forall k | 0 <= k < i :: merged[k] == Reported(history, raw, k)
    {
      ShownIsReported(before, history, raw, i);
      if IsValid(raw[i]) {
        merged := merged + [raw[i]];
      } else {
        var cached := cache[i];
        merged := merged + [if IsValid(cached) then cached else raw[i]];
      }
    }
  }

  /** Writes the pairs into an in-memory copy of the cache, one by one. */
  method Overlay(cache: map<nat, Marker>, indexed: seq<(nat, Marker)>) returns (updated: map<nat, Marker>)
    ensures updated == Upserted(cache, indexed)
  {
    updated := cache;
    for i := 0 to |indexed|
      invariant updated == Upserted(cache, indexed[..i])
    {
      updated := updated[indexed[i].0 := indexed[i].1];
      assert indexed[..i + 1][..i] == indexed[..i];
    }
    assert indexed[..|indexed|] == indexed;
  }

  // ---------- The retry law ----------

  /** One lookup of one job, in a run of lookups of any jobs. */
  datatype Event = Event(job: int, lookup: Lookup)

  function CountersAfter(run: seq<Event>): map<int, nat> {
    if run == [] then map[]
    else Next(CountersAfter(run[..|run| - 1]), run[|run| - 1].job, run[|run| - 1].lookup).0
  }

  function FailedLookups(run: seq<Event>, job: int): nat {
    if run == [] then 0
    else
      var e := run[|run| - 1];
      FailedLookups(run[..|run| - 1], job) + if e.job == job && e.lookup.Failed? then 1 else 0
  }

  /** How often the retry counter, and not the print server, reported the job aborted. */
  function AbortsReported(run: seq<Event>, job: int): nat {
    if run == [] then 0
    else
      var before, e := run[..|run| - 1], run[|run| - 1];
      AbortsReported(before, job)
      + if e.job == job && e.lookup.Failed? && Next(CountersAfter(before), job, e.lookup).1 == Is(Aborted) then 1 else 0
  }

  /** Any run: every fourth failure of a job is reported as an abort, whatever happens in between. */
  lemma {:induction false} EveryFourthFailureAborts(run: seq<Event>, job: int)
    ensures FailedLookups(run, job) == 4 * AbortsReported(run, job) + Stored(CountersAfter(run), job)
    ensures Stored(CountersAfter(run), job) <= MAX_TRIES
  {
    if run != [] {
      EveryFourthFailureAborts(run[..|run| - 1], job);
    }
  }

  /** A lookup that gets through never touches the counter, so failures need not be consecutive. */
  lemma SuccessKeepsCounter(run: seq<Event>, job: int, state: int)
    ensures CountersAfter(run + [Event(job, JobState(state))]) == CountersAfter(run)
  {
    var longer := run + [Event(job, JobState(state))];
    assert longer[..|run|] == run && longer[|run|] == Event(job, JobState(state));
  }
}
