/** The toner markers a printer has reported, and what is remembered of each position. */
module MarkerHistory {
  import opened Wrappers

  /** One marker of one poll; level -1 means the driver cannot report a value. */
  datatype Marker = Marker(name: string, color: Option<string>, level: int, lowLevel: int, highLevel: int, kind: Option<string>)

  type Poll = seq<Marker>

  predicate IsValid(m: Marker) {
    m.level != -1
  }

  function Longest(history: seq<Poll>): nat {
    if history == [] then 0
    else
      var last, before := |history[|history| - 1]|, Longest(history[..|history| - 1]);
      if last > before then last else before
  }

  /** The most recent poll that covers position `i` with a valid reading. */
  function LatestValid(history: seq<Poll>, i: nat): Option<Marker> {
    if history == [] then None
    else
      var last := history[|history| - 1];
      if i < |last| && IsValid(last[i]) then Some(last[i]) else LatestValid(history[..|history| - 1], i)
  }

  /** The earliest poll that covers position `i` at all. */
  function FirstReading(history: seq<Poll>, i: nat): Option<Marker> {
    if history == [] then None
    else
      var before := FirstReading(history[..|history| - 1], i);
      var last := history[|history| - 1];
      if before.Some? then before else if i < |last| then Some(last[i]) else None
  }

  /** What should be remembered of position `i`: its latest valid reading, or else its first one. */
  function Remembered(history: seq<Poll>, i: nat): Option<Marker> {
    if LatestValid(history, i).Some? then LatestValid(history, i) else FirstReading(history, i)
  }

  /** What a poll should report at a position it covers: the latest valid reading counting this
      poll, or the raw reading if there never was one. */
  function Reported(history: seq<Poll>, raw: Poll, i: nat): Marker
    requires i < |raw|
  {
    var valid := LatestValid(history + [raw], i);
    if valid.Some? then valid.value else raw[i]
  }

  lemma {:induction false} KnownBelowLongest(history: seq<Poll>, i: nat)
    ensures FirstReading(history, i).Some? <==> i < Longest(history)
    ensures LatestValid(history, i).Some? ==> i < Longest(history)
    ensures LatestValid(history, i).Some? ==> IsValid(LatestValid(history, i).value)
    ensures LatestValid(history, i).None? ==> (FirstReading(history, i).Some? ==> !IsValid(FirstReading(history, i).value))
  {
    if history != [] {
      KnownBelowLongest(history[..|history| - 1], i);
    }
  }

  lemma LastPoll(history: seq<Poll>, raw: Poll)
    ensures (history + [raw])[..|history|] == history && (history + [raw])[|history|] == raw
  {
  }

  /** A cache agrees with a history when it holds, for exactly the positions below the longest
      poll, what should be remembered of each. */
  ghost predicate Agrees(cache: map<nat, Marker>, history: seq<Poll>) {
    && (forall i: nat :: i in cache <==> i < Longest(history))
    && (forall i: nat | i in cache :: Remembered(history, i) == Some(cache[i]))
  }

  /** The positions of a poll that are written to the cache. */
  predicate IsPersisted(cache: map<nat, Marker>, raw: Poll, i: nat) {
    i < |raw| && (IsValid(raw[i]) || i !in cache)
  }

  function Updated(cache: map<nat, Marker>, raw: Poll): map<nat, Marker> {
    cache + map i: nat | 0 <= i < |raw| && IsPersisted(cache, raw, i) :: raw[i]
  }

  /** One poll keeps the cache in agreement with the history. */
  lemma UpdateAgrees(cache: map<nat, Marker>, history: seq<Poll>, raw: Poll)
    requires Agrees(cache, history)
    ensures Agrees(Updated(cache, raw), history + [raw])
  {
    var longer := history + [raw];
    var updated := Updated(cache, raw);
    LastPoll(history, raw);
    assert Longest(longer) == if |raw| > Longest(history) then |raw| else Longest(history);
    forall i: nat ensures i in updated <==> i < Longest(longer) {
    }
    forall i: nat | i in updated ensures Remembered(longer, i) == Some(updated[i]) {
      KnownBelowLongest(history, i);
    }
  }

  function CacheAfter(history: seq<Poll>): map<nat, Marker> {
    if history == [] then map[] else Updated(CacheAfter(history[..|history| - 1]), history[|history| - 1])
  }

  /** Whatever the polls were, the cache they leave behind is the function of the whole history. */
  lemma {:induction false} CacheRefinesHistory(history: seq<Poll>)
    ensures Agrees(CacheAfter(history), history)
  {
    if history != [] {
      var before, last := history[..|history| - 1], history[|history| - 1];
      CacheRefinesHistory(before);
      UpdateAgrees(CacheAfter(before), before, last);
      assert before + [last] == history;
    }
  }

  /** What a merge shows at a position the poll covers, read from the cache as it was before. */
  lemma ShownIsReported(cache: map<nat, Marker>, history: seq<Poll>, raw: Poll, i: nat)
    requires Agrees(cache, history) && i < |raw|
    ensures Reported(history, raw, i)
            == if IsValid(raw[i]) then raw[i]
               else if i in cache && IsValid(cache[i]) then cache[i]
               else raw[i]
  {
    LastPoll(history, raw);
    KnownBelowLongest(history, i);
  }

  /** Only a level of -1 is replaced. Any other reading, zero included, is shown and remembered as it
      is; a level of -1 stays one exactly if no earlier poll read anything else at its position. */
  lemma OnlyMinusOneIsReplaced(history: seq<Poll>, raw: Poll, i: nat)
    requires i < |raw|
    ensures raw[i].level != -1 ==>
              Reported(history, raw, i) == raw[i] && Remembered(history + [raw], i) == Some(raw[i])
    ensures raw[i].level == -1 ==>
              (Reported(history, raw, i).level == -1
               <==> forall k | 0 <= k < |history| && i < |history[k]| :: history[k][i].level == -1)
  {
    LastPoll(history, raw);
    NeverValid(history, i);
    KnownBelowLongest(history, i);
  }

  lemma {:induction false} NeverValid(history: seq<Poll>, i: nat)
    ensures LatestValid(history, i).None?
            <==> forall k | 0 <= k < |history| && i < |history[k]| :: history[k][i].level == -1
  {
    if history != [] {
      var before, n := history[..|history| - 1], |history| - 1;
      NeverValid(before, i);
      assert forall k | 0 <= k < n :: history[k] == before[k];
      if i < |history[n]| && history[n][i].level != -1 {
        assert LatestValid(history, i).Some?;
      }
    }
  }

  /** The latest reading that is not -1, and the first reading of all, by their polls. */
  lemma {:induction false} LatestValidIs(history: seq<Poll>, i: nat, k: nat)
    requires k < |history| && i < |history[k]| && history[k][i].level != -1
    requires forall m | k < m < |history| && i < |history[m]| :: history[m][i].level == -1
    ensures LatestValid(history, i) == Some(history[k][i])
  {
    if k < |history| - 1 {
      LatestValidIs(history[..|history| - 1], i, k);
    }
  }

  lemma {:induction false} FirstReadingIs(history: seq<Poll>, i: nat, k: nat)
    requires k < |history| && i < |history[k]|
    requires forall m | 0 <= m < k :: |history[m]| <= i
    ensures FirstReading(history, i) == Some(history[k][i])
  {
    var before := history[..|history| - 1];
    if k < |history| - 1 {
      FirstReadingIs(before, i, k);
    } else {
      NeverCovered(before, i);
    }
  }

  lemma {:induction false} NeverCovered(history: seq<Poll>, i: nat)
    requires forall m | 0 <= m < |history| :: |history[m]| <= i
    ensures FirstReading(history, i).None?
  {
    if history != [] {
      NeverCovered(history[..|history| - 1], i);
    }
  }
}
