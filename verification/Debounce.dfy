/** The debouncing that the low-stock and toner alerts share: notify once per low episode, again
    after an interval while it lasts, and forget the episode as soon as it ends.

    Times are in microseconds, as finely as the clock tells them. */
module Debounce {
  const HOUR: int := 3_600_000_000

  /** One run of a check: skipped before it looks at anything, or completed at a time with the
      keys it found low. */
  datatype Check<K(==)> = Skipped | Completed(now: int, interval: int, low: set<K>)

  /** `state` holds, per key of an open episode, when it was last notified. */
  predicate IsDue<K>(state: map<K, int>, check: Check<K>, key: K) {
    check.Completed? && key in check.low && (key !in state || check.now - state[key] >= check.interval)
  }

  function Renewed<K>(state: map<K, int>, check: Check<K>, key: K): int
    requires check.Completed? && key in check.low
  {
    if IsDue(state, check, key) then check.now else state[key]
  }

  function NextState<K>(state: map<K, int>, check: Check<K>): map<K, int> {
    if check.Skipped? then state
    else map k | k in check.low :: Renewed(state, check, k)
  }

  function StateAfter<K>(run: seq<Check<K>>): map<K, int> {
    if run == [] then map[] else NextState(StateAfter(run[..|run| - 1]), run[|run| - 1])
  }

  /** The `j`-th check of a run notifies about `key`. */
  predicate Notifies<K>(run: seq<Check<K>>, j: nat, key: K) {
    j < |run| && IsDue(StateAfter(run[..j]), run[j], key)
  }

  predicate IsLow<K>(check: Check<K>, key: K) {
    check.Completed? && key in check.low
  }

  predicate IsFine<K>(check: Check<K>, key: K) {
    check.Completed? && key !in check.low
  }

  /** No completed check from `i` on and before `j` found the key above its threshold. */
  ghost predicate StaysLow<K>(run: seq<Check<K>>, i: nat, j: nat, key: K) {
    forall m | i <= m < j && m < |run| :: !IsFine(run[m], key)
  }

  /** The `j`-th check is the first of its episode to find the key low. */
  ghost predicate StartsEpisode<K>(run: seq<Check<K>>, j: nat, key: K) {
    && j < |run| && IsLow(run[j], key)
    && forall m | 0 <= m < j && IsLow(run[m], key) :: !StaysLow(run, m, j, key)
  }

  /** The latest check before `j` that notified in the episode still open at `j`. */
  ghost predicate LastNotice<K>(run: seq<Check<K>>, i: nat, j: nat, key: K) {
    && i < j <= |run| && Notifies(run, i, key) && StaysLow(run, i, j, key)
    && forall m | i < m < j :: !Notifies(run, m, key)
  }

  lemma StateStep<K>(run: seq<Check<K>>, j: nat)
    requires j < |run|
    ensures StateAfter(run[..j + 1]) == NextState(StateAfter(run[..j]), run[j])
  {
    assert run[..j + 1][..j] == run[..j];
  }

  /** The remembered time of an open episode is the time of its latest notification. */
  lemma {:induction false} NoticeIsRemembered<K>(run: seq<Check<K>>, i: nat, j: nat, key: K)
    requires LastNotice(run, i, j, key)
    ensures key in StateAfter(run[..j]) && StateAfter(run[..j])[key] == run[i].now
    decreases j
  {
    StateStep(run, j - 1);
    if i < j - 1 {
      assert LastNotice(run, i, j - 1, key);
      NoticeIsRemembered(run, i, j - 1, key);
      assert !Notifies(run, j - 1, key);
    }
  }

  /** Something is remembered of a key exactly when its episode is open. */
  lemma {:induction false} RememberedWhileLow<K>(run: seq<Check<K>>, j: nat, key: K)
    requires j <= |run|
    ensures key in StateAfter(run[..j])
            <==> exists m :: 0 <= m < j && IsLow(run[m], key) && StaysLow(run, m, j, key)
  {
    if j == 0 {
      assert run[..0] == [];
    } else {
      RememberedWhileLow(run, j - 1, key);
      StateStep(run, j - 1);
      if IsLow(run[j - 1], key) {
        assert StaysLow(run, j - 1, j, key);
      } else if !IsFine(run[j - 1], key) {
        forall m | 0 <= m < j ensures StaysLow(run, m, j, key) <==> StaysLow(run, m, j - 1, key) {
          if StaysLow(run, m, j, key) {
            assert forall n | m <= n < j - 1 && n < |run| :: !IsFine(run[n], key);
          }
        }
      } else {
        forall m | 0 <= m < j ensures !StaysLow(run, m, j, key) {
          assert m <= j - 1 < j && j - 1 < |run| && IsFine(run[j - 1], key);
        }
      }
    }
  }

  lemma {:induction false} OpenEpisodeHasNotice<K>(run: seq<Check<K>>, j: nat, key: K) returns (i: nat)
    requires j <= |run| && key in StateAfter(run[..j])
    ensures LastNotice(run, i, j, key)
    decreases j
  {
    StateStep(run, j - 1);
    if Notifies(run, j - 1, key) {
      i := j - 1;
    } else {
      i := OpenEpisodeHasNotice(run, j - 1, key);
      forall m | i <= m < j && m < |run| ensures !IsFine(run[m], key) {
        if m < j - 1 { assert StaysLow(run, i, j - 1, key); }
      }
    }
  }

  /** The first check of every episode notifies. */
  lemma FirstOfEpisodeNotifies<K>(run: seq<Check<K>>, j: nat, key: K)
    requires StartsEpisode(run, j, key)
    ensures Notifies(run, j, key)
  {
    RememberedWhileLow(run, j, key);
  }

  /** Within an episode a check that finds the key low notifies exactly when its interval has
      passed since the latest notification. */
  lemma NotifiesAgainExactly<K>(run: seq<Check<K>>, i: nat, j: nat, key: K)
    requires LastNotice(run, i, j, key) && j < |run| && IsLow(run[j], key)
    ensures Notifies(run, j, key) <==> run[j].now - run[i].now >= run[j].interval
  {
    NoticeIsRemembered(run, i, j, key);
  }

  /** Any notification either starts an episode or follows a latest one. */
  lemma NoticeHasCause<K>(run: seq<Check<K>>, j: nat, key: K)
    requires Notifies(run, j, key)
    ensures StartsEpisode(run, j, key) || exists i :: LastNotice(run, i, j, key)
  {
    if key in StateAfter(run[..j]) {
      var i := OpenEpisodeHasNotice(run, j, key);
    } else {
      RememberedWhileLow(run, j, key);
    }
  }

  ghost predicate IntervalsPositive<K>(run: seq<Check<K>>) {
    forall m | 0 <= m < |run| && run[m].Completed? :: run[m].interval >= 0
  }

  /** Two notifications within one episode are at least the later check's interval apart. */
  lemma {:induction false} NoticesAreSpaced<K>(run: seq<Check<K>>, i: nat, j: nat, key: K)
    requires IntervalsPositive(run) && i < j
    requires Notifies(run, i, key) && Notifies(run, j, key) && StaysLow(run, i, j, key)
    ensures run[j].now - run[i].now >= run[j].interval
    decreases j
  {
    RememberedWhileLow(run, j, key);
    assert 0 <= i < j && IsLow(run[i], key) && StaysLow(run, i, j, key);
    var last := OpenEpisodeHasNotice(run, j, key);
    NotifiesAgainExactly(run, last, j, key);
    if i < last {
      assert StaysLow(run, i, last, key);
      NoticesAreSpaced(run, i, last, key);
    }
  }

  /** If the key stays low, the first check at or past the interval after a notification notifies
      again, and none before it does. */
  lemma {:induction false} FirstDueCheckNotifies<K>(run: seq<Check<K>>, i: nat, j: nat, key: K)
    requires Notifies(run, i, key) && i < j < |run| && StaysLow(run, i, j, key) && IsLow(run[j], key)
    requires forall m | i < m < j && run[m].Completed? :: run[m].now - run[i].now < run[m].interval
    requires run[j].now - run[i].now >= run[j].interval
    ensures Notifies(run, j, key)
    ensures forall m | i < m < j :: !Notifies(run, m, key)
  {
    NoneEarlier(run, i, j, key);
    NotifiesAgainExactly(run, i, j, key);
  }

  lemma {:induction false} NoneEarlier<K>(run: seq<Check<K>>, i: nat, j: nat, key: K)
    requires Notifies(run, i, key) && i < j < |run| && StaysLow(run, i, j, key)
    requires forall m | i < m < j && run[m].Completed? :: run[m].now - run[i].now < run[m].interval
    ensures forall m | i < m < j :: !Notifies(run, m, key)
    decreases j
  {
    if i < j - 1 {
      assert StaysLow(run, i, j - 1, key);
      NoneEarlier(run, i, j - 1, key);
      if IsLow(run[j - 1], key) {
        NotifiesAgainExactly(run, i, j - 1, key);
      }
    }
  }

  /** After a notice, and until the next one, a check that finds the key low notifies exactly when
      the key was found fine in between or the check's interval has passed. */
  lemma NextNoticeExactly<K>(run: seq<Check<K>>, i: nat, j: nat, key: K)
    requires Notifies(run, i, key) && i < j < |run| && IsLow(run[j], key)
    requires forall m | i < m < j :: !Notifies(run, m, key)
    ensures Notifies(run, j, key)
            <==> (exists m :: i < m < j && IsFine(run[m], key)) || run[j].now - run[i].now >= run[j].interval
  {
    if StaysLow(run, i, j, key) {
      NotifiesAgainExactly(run, i, j, key);
    } else {
      var fine :| i <= fine < j && fine < |run| && IsFine(run[fine], key);
      if key in StateAfter(run[..j]) {
        var last := OpenEpisodeHasNotice(run, j, key);
        assert false;
      }
    }
  }

  /** A check that finds the key fine closes the episode: the next low one notifies. */
  lemma RecoveryResets<K>(run: seq<Check<K>>, i: nat, j: nat, key: K)
    requires i < j < |run| && IsFine(run[i], key) && IsLow(run[j], key)
    requires forall m | i < m < j :: !IsLow(run[m], key)
    ensures Notifies(run, j, key)
  {
    forall m | 0 <= m < j && IsLow(run[m], key) ensures !StaysLow(run, m, j, key) {
      assert m < i;
    }
    FirstOfEpisodeNotifies(run, j, key);
  }
}
