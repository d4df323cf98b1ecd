/** Stable newest-first sorting: what `list.sort(key=lambda e: e.created_at, reverse=True)` does. */
module NewestFirstSort {
  import opened LogEntries

  ghost predicate NewestFirst(s: seq<Entry>) {
    forall i, j | 0 <= i < j < |s| :: s[i].createdAt >= s[j].createdAt
  }

  /** How many elements are newer than `k`. */
  function CountNewer(s: seq<Entry>, k: int): (n: nat)
    ensures n <= |s|
  {
    if s == [] then 0 else if s[0].createdAt > k then 1 + CountNewer(s[1..], k) else CountNewer(s[1..], k)
  }

  /** Puts `x` in front of the entries that are not newer. */
  function Insert(x: Entry, s: seq<Entry>): seq<Entry> {
    var m := CountNewer(s, x.createdAt);
    s[..m] + [x] + s[m..]
  }

  function Sort(s: seq<Entry>): (r: seq<Entry>)
    ensures |r| == |s|
  {
    if s == [] then [] else Insert(s[0], Sort(s[1..]))
  }

  /** The entries of time `k`, in their order in `s`. */
  function AtTime(s: seq<Entry>, k: int): seq<Entry> {
    if s == [] then [] else if s[0].createdAt == k then [s[0]] + AtTime(s[1..], k) else AtTime(s[1..], k)
  }

  lemma {:induction false} CountNewerConcat(a: seq<Entry>, b: seq<Entry>, k: int)
    ensures CountNewer(a + b, k) == CountNewer(a, k) + CountNewer(b, k)
  {
    if a == [] {
      assert a + b == b;
    } else {
      assert (a + b)[1..] == a[1..] + b;
      CountNewerConcat(a[1..], b, k);
    }
  }

  lemma {:induction false} AtTimeConcat(a: seq<Entry>, b: seq<Entry>, k: int)
    ensures AtTime(a + b, k) == AtTime(a, k) + AtTime(b, k)
  {
    if a == [] {
      assert a + b == b;
    } else {
      assert (a + b)[1..] == a[1..] + b;
      AtTimeConcat(a[1..], b, k);
    }
  }

  /** In a newest-first list the entries newer than `k` are a prefix. */
  lemma {:induction false} NewerIsPrefix(s: seq<Entry>, k: int)
    requires NewestFirst(s)
    ensures forall i | 0 <= i < |s| :: s[i].createdAt > k <==> i < CountNewer(s, k)
  {
    if s != [] {
      NewerIsPrefix(s[1..], k);
      forall i | 0 <= i < |s| ensures s[i].createdAt > k <==> i < CountNewer(s, k) {
        if i > 0 {
          assert s[i] == s[1..][i - 1];
          if s[0].createdAt <= k && |s[1..]| > 0 {
            assert s[1].createdAt <= k && s[1] == s[1..][0];
          }
        }
      }
    }
  }

  lemma {:induction false} NoneAtTime(s: seq<Entry>, k: int)
    requires forall i | 0 <= i < |s| :: s[i].createdAt != k
    ensures AtTime(s, k) == []
  {
    if s != [] {
      NoneAtTime(s[1..], k);
    }
  }

  lemma InsertKeepsOrder(x: Entry, s: seq<Entry>)
    requires NewestFirst(s)
    ensures NewestFirst(Insert(x, s))
  {
    NewerIsPrefix(s, x.createdAt);
  }

  lemma InsertKeepsTies(x: Entry, s: seq<Entry>, k: int)
    requires NewestFirst(s)
    ensures AtTime(Insert(x, s), k) == AtTime([x], k) + AtTime(s, k)
  {
    var m := CountNewer(s, x.createdAt);
    var above, rest := s[..m], s[m..];
    NewerIsPrefix(s, x.createdAt);
    if x.createdAt == k {
      NoneAtTime(above, k);
    } else {
      NoneAtTime([x], k);
    }
    hide AtTime, CountNewer, NewestFirst;
    assert s == above + rest && Insert(x, s) == above + [x] + rest;
    TiesConcat(above, [x], rest, k);
  }

  lemma TiesConcat(a: seq<Entry>, b: seq<Entry>, c: seq<Entry>, k: int)
    ensures AtTime(a + b + c, k) == AtTime(a, k) + AtTime(b, k) + AtTime(c, k)
    ensures AtTime(a + c, k) == AtTime(a, k) + AtTime(c, k)
  {
    AtTimeConcat(a + b, c, k);
    AtTimeConcat(a, b, k);
    AtTimeConcat(a, c, k);
  }

  /** The result is newest first and keeps ties in their original order. */
  lemma {:induction false} SortIsStable(s: seq<Entry>)
    ensures NewestFirst(Sort(s))
    ensures forall k :: AtTime(Sort(s), k) == AtTime(s, k)
  {
    if s != [] {
      SortIsStable(s[1..]);
      InsertKeepsOrder(s[0], Sort(s[1..]));
      assert s == [s[0]] + s[1..];
      forall k ensures AtTime(Sort(s), k) == AtTime(s, k) {
        AtTimeConcat([s[0]], s[1..], k);
        InsertKeepsTies(s[0], Sort(s[1..]), k);
      }
    }
  }

  lemma AtTimeOfTail(s: seq<Entry>, k: int)
    requires s != []
    ensures AtTime(s[1..], k)
            == if s[0].createdAt == k then AtTime(s, k)[1..] else AtTime(s, k)
  {
  }

  lemma HeadIsMatched(a: seq<Entry>, b: seq<Entry>)
    requires NewestFirst(b) && a != []
    requires AtTime(a, a[0].createdAt) == AtTime(b, a[0].createdAt)
    ensures b != [] && b[0].createdAt >= a[0].createdAt
  {
    if forall i | 0 <= i < |b| :: b[i].createdAt != a[0].createdAt {
      NoneAtTime(b, a[0].createdAt);
    } else {
      var i :| 0 <= i < |b| && b[i].createdAt == a[0].createdAt;
    }
  }

  /** Nothing else is a stable newest-first sort: the two properties determine the list. */
  lemma {:induction false} StableSortIsUnique(a: seq<Entry>, b: seq<Entry>)
    requires NewestFirst(a) && NewestFirst(b)
    requires forall k :: AtTime(a, k) == AtTime(b, k)
    ensures a == b
  {
    if b != [] {
      HeadIsMatched(b, a);
    }
    if a != [] {
      HeadIsMatched(a, b);
      assert AtTime(a, a[0].createdAt)[0] == a[0] && AtTime(b, b[0].createdAt)[0] == b[0];
      forall k ensures AtTime(a[1..], k) == AtTime(b[1..], k) {
        AtTimeOfTail(a, k);
        AtTimeOfTail(b, k);
      }
      StableSortIsUnique(a[1..], b[1..]);
    }
  }

  lemma InsertKeepsElements(x: Entry, s: seq<Entry>, m: nat)
    requires m <= |s|
    ensures multiset(s[..m] + [x] + s[m..]) == multiset{x} + multiset(s)
  {
    assert s == s[..m] + s[m..];
  }

  /** Sorting keeps every element as often as it occurred. */
  lemma {:induction false} SortKeepsElements(s: seq<Entry>)
    ensures multiset(Sort(s)) == multiset(s)
  {
    if s != [] {
      var t := Sort(s[1..]);
      SortKeepsElements(s[1..]);
      InsertKeepsElements(s[0], t, CountNewer(t, s[0].createdAt));
      assert s == [s[0]] + s[1..];
    }
  }

  lemma {:induction false} CountNewerSort(s: seq<Entry>, k: int)
    ensures CountNewer(Sort(s), k) == CountNewer(s, k)
  {
    if s != [] {
      var t := Sort(s[1..]);
      CountNewerSort(s[1..], k);
      var m := CountNewer(t, s[0].createdAt);
      assert t == t[..m] + t[m..];
      CountNewerConcat(t[..m], t[m..], k);
      CountNewerConcat(t[..m] + [s[0]], t[m..], k);
      CountNewerConcat(t[..m], [s[0]], k);
    }
  }

  lemma {:induction false} CountNewerAntitone(s: seq<Entry>, low: int, high: int)
    requires low <= high
    ensures CountNewer(s, high) <= CountNewer(s, low)
  {
    if s != [] {
      CountNewerAntitone(s[1..], low, high);
    }
  }

  /** Where `x` ends up: behind the earlier entries that are not older and the later ones that
      are newer. */
  function Rank(p: seq<Entry>, x: Entry, q: seq<Entry>): (r: nat)
    ensures r <= |p| + |q|
  {
    CountNewer(p, x.createdAt - 1) + CountNewer(q, x.createdAt)
  }

  function PutAt(s: seq<Entry>, m: nat, x: Entry): (r: seq<Entry>)
    requires m <= |s|
    ensures |r| == |s| + 1 && r[m] == x
    ensures forall i | 0 <= i < m :: r[i] == s[i]
    ensures forall i | m < i <= |s| :: r[i] == s[i - 1]
  {
    s[..m] + [x] + s[m..]
  }

  lemma PutBoth(rest: seq<Entry>, x: Entry, y: Entry, r: nat, m: nat)
    requires m <= r <= |rest|
    ensures PutAt(PutAt(rest, r, x), m, y) == PutAt(PutAt(rest, m, y), r + 1, x)
  {
    hide PutAt;
    var a, b := PutAt(PutAt(rest, r, x), m, y), PutAt(PutAt(rest, m, y), r + 1, x);
    assert forall i | 0 <= i < |a| :: a[i] == b[i];
  }

  /** Inserting `y` at `m` and `x` at `r` commutes, up to the shift of the later position. */
  lemma PositionsCommute(rest: seq<Entry>, x: Entry, y: Entry, r: nat, m: nat)
    requires r <= |rest| && m <= |rest|
    ensures var with := rest[..r] + [x] + rest[r..];
            var all := rest[..m] + [y] + rest[m..];
      && (m <= r ==> with[..m] + [y] + with[m..] == all[..r + 1] + [x] + all[r + 1..])
      && (r <= m ==> with[..m + 1] + [y] + with[m + 1..] == all[..r] + [x] + all[r..])
  {
    if m <= r {
      PutBoth(rest, x, y, r, m);
    }
    if r <= m {
      PutBoth(rest, y, x, m, r);
    }
  }

  /** Adding `x` raises the count exactly when it is newer. */
  lemma CountWith(rest: seq<Entry>, x: Entry, r: nat, k: int)
    requires r <= |rest|
    ensures CountNewer(rest[..r] + [x] + rest[r..], k)
            == CountNewer(rest, k) + if x.createdAt > k then 1 else 0
  {
    assert rest == rest[..r] + rest[r..];
    CountNewerConcat(rest[..r], rest[r..], k);
    CountNewerConcat(rest[..r] + [x], rest[r..], k);
    CountNewerConcat(rest[..r], [x], k);
  }

  lemma CountPrepend(y: Entry, p: seq<Entry>, k: int)
    ensures CountNewer([y] + p, k) == CountNewer(p, k) + if y.createdAt > k then 1 else 0
  {
    assert ([y] + p)[1..] == p;
  }

  lemma CountInSorted(p: seq<Entry>, q: seq<Entry>, k: int)
    ensures CountNewer(Sort(p + q), k) == CountNewer(p, k) + CountNewer(q, k)
  {
    CountNewerSort(p + q, k);
    CountNewerConcat(p, q, k);
  }

  /** The newer of the two is placed first, and so shifts the other position by one. */
  lemma RanksCompare(y: Entry, x: Entry, p: seq<Entry>, q: seq<Entry>, m: nat)
    requires m == CountNewer(p, y.createdAt) + CountNewer(q, y.createdAt)
    ensures y.createdAt >= x.createdAt ==> m <= Rank(p, x, q) && Rank([y] + p, x, q) == Rank(p, x, q) + 1
    ensures y.createdAt < x.createdAt ==> Rank(p, x, q) <= m && Rank([y] + p, x, q) == Rank(p, x, q)
  {
    var kx, ky := x.createdAt, y.createdAt;
    CountPrepend(y, p, kx - 1);
    if ky >= kx {
      CountNewerAntitone(p, kx - 1, ky);
      CountNewerAntitone(q, kx, ky);
    } else {
      CountNewerAntitone(p, ky, kx - 1);
      CountNewerAntitone(q, ky, kx);
    }
  }

  /** Putting `x` at its rank commutes with inserting an earlier entry `y`. */
  lemma InsertCommutes(y: Entry, x: Entry, p: seq<Entry>, q: seq<Entry>, rest: seq<Entry>, r: nat)
    requires r == Rank(p, x, q) && |rest| == |p| + |q|
    requires CountNewer(rest, y.createdAt) == CountNewer(p, y.createdAt) + CountNewer(q, y.createdAt)
    ensures var r' := Rank([y] + p, x, q);
            r' <= |rest| + 1
            && Insert(y, rest[..r] + [x] + rest[r..]) == Insert(y, rest)[..r'] + [x] + Insert(y, rest)[r'..]
  {
    hide CountNewer, Rank;
    var m := CountNewer(rest, y.createdAt);
    CountWith(rest, x, r, y.createdAt);
    PositionsCommute(rest, x, y, r, m);
    RanksCompare(y, x, p, q, m);
  }

  lemma SortInsertsFirst(x: Entry, q: seq<Entry>)
    ensures Sort([x] + q) == Sort(q)[..Rank([], x, q)] + [x] + Sort(q)[Rank([], x, q)..]
  {
    assert ([x] + q)[1..] == q;
    CountNewerSort(q, x.createdAt);
  }

  /** Sorting with one more element is sorting without it and putting it at its rank. */
  lemma {:induction false} SortInserts(p: seq<Entry>, x: Entry, q: seq<Entry>)
    ensures Sort(p + [x] + q) == Sort(p + q)[..Rank(p, x, q)] + [x] + Sort(p + q)[Rank(p, x, q)..]
  {
    hide *;
    if p == [] {
      assert p + [x] + q == [x] + q && p + q == q;
      SortInsertsFirst(x, q);
    } else {
      SortInserts(p[1..], x, q);
      SortUnfolds(p, [x] + q);
      SortUnfolds(p, q);
      assert p + [x] + q == p + ([x] + q) && p[1..] + [x] + q == p[1..] + ([x] + q);
      CountInSorted(p[1..], q, p[0].createdAt);
      InsertCommutes(p[0], x, p[1..], q, Sort(p[1..] + q), Rank(p[1..], x, q));
      assert [p[0]] + p[1..] == p;
    }
  }

  lemma SortUnfolds(p: seq<Entry>, q: seq<Entry>)
    requires p != []
    ensures Sort(p + q) == Insert(p[0], Sort(p[1..] + q))
  {
    assert (p + q)[1..] == p[1..] + q;
  }
}
