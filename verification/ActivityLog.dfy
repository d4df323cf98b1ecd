/** The admin activity log: one page of three merged sources, from the newest rows of each. */
module ActivityLog {
  import opened Wrappers
  import opened Records
  import opened LogEntries
  import opened NewestFirstSort

  lemma {:induction false} AllNewer(s: seq<Entry>, k: int)
    requires forall i | 0 <= i < |s| :: s[i].createdAt > k
    ensures CountNewer(s, k) == |s|
  {
    if s != [] {
      AllNewer(s[1..], k);
    }
  }

  /** In a newest-first source, whatever stands before the oldest entry ranks before it. */
  lemma OldestRanksLast(before: seq<Entry>, kept: seq<Entry>, x: Entry, after: seq<Entry>)
    requires NewestFirst(kept + [x])
    ensures Rank(before + kept, x, after) >= |kept|
  {
    forall i | 0 <= i < |kept| ensures kept[i].createdAt > x.createdAt - 1 {
      assert (kept + [x])[i] == kept[i] && (kept + [x])[|kept|] == x;
    }
    AllNewer(kept, x.createdAt - 1);
    CountNewerConcat(before, kept, x.createdAt - 1);
  }

  lemma TopIgnoresLater(s: seq<Entry>, x: Entry, r: nat, n: nat)
    requires n <= r <= |s|
    ensures Top(s[..r] + [x] + s[r..], n) == Top(s, n)
  {
  }

  /** The oldest entry of a source that already has `n` newer ones never reaches the top `n`. */
  lemma DropOldest(before: seq<Entry>, kept: seq<Entry>, x: Entry, after: seq<Entry>, n: nat)
    requires NewestFirst(kept + [x]) && |kept| >= n
    ensures Top(Sort(before + kept + [x] + after), n) == Top(Sort(before + kept + after), n)
  {
    SortInserts(before + kept, x, after);
    OldestRanksLast(before, kept, x, after);
    TopIgnoresLater(Sort(before + kept + after), x, Rank(before + kept, x, after), n);
  }

  lemma {:induction false} TrimSource(before: seq<Entry>, source: seq<Entry>, after: seq<Entry>, n: nat)
    requires NewestFirst(source)
    ensures Top(Sort(before + source + after), n) == Top(Sort(before + Top(source, n) + after), n)
    decreases |source|
  {
    if |source| <= n {
      assert Top(source, n) == source;
    } else {
      var kept, x := source[..|source| - 1], source[|source| - 1];
      assert kept + [x] == source;
      assert before + source + after == before + kept + [x] + after;
      DropOldest(before, kept, x, after, n);
      TrimSource(before, kept, after, n);
      assert Top(kept, n) == Top(source, n);
    }
  }

  /** The bound behind the log: the newest `n` rows of each source decide the newest `n` of all,
      ties included. */
  lemma TopOfTopsIsTop(a: seq<Entry>, b: seq<Entry>, c: seq<Entry>, n: nat)
    requires NewestFirst(a) && NewestFirst(b) && NewestFirst(c)
    ensures Top(Sort(Top(a, n) + Top(b, n) + Top(c, n)), n) == Top(Sort(a + b + c), n)
  {
    TrimFirst(a, b, c, n);
    TrimSource(Top(a, n), b, c, n);
    TrimLast(Top(a, n), Top(b, n), c, n);
  }

  lemma TrimFirst(a: seq<Entry>, b: seq<Entry>, c: seq<Entry>, n: nat)
    requires NewestFirst(a)
    ensures Top(Sort(a + b + c), n) == Top(Sort(Top(a, n) + b + c), n)
  {
    TrimSource([], a, b + c, n);
    assert [] + a + (b + c) == a + b + c;
    assert [] + Top(a, n) + (b + c) == Top(a, n) + b + c;
  }

  lemma TrimLast(a: seq<Entry>, b: seq<Entry>, c: seq<Entry>, n: nat)
    requires NewestFirst(c)
    ensures Top(Sort(a + b + c), n) == Top(Sort(a + b + Top(c, n)), n)
  {
    TrimSource(a + b, c, [], n);
    assert a + b + c + [] == a + b + c;
    assert a + b + Top(c, n) + [] == a + b + Top(c, n);
  }

  /** A page only looks at the first `offset + limit` elements. */
  lemma SliceOfTop(s: seq<Entry>, t: seq<Entry>, offset: nat, limit: nat)
    requires Top(s, offset + limit) == Top(t, offset + limit)
    ensures Slice(s, offset, limit) == Slice(t, offset, limit)
  {
    assert Slice(s, offset, limit) == Slice(Top(s, offset + limit), offset, limit);
    assert Slice(t, offset, limit) == Slice(Top(t, offset + limit), offset, limit);
  }

  /** Every page, for every offset and limit, is the page of the full merge. */
  lemma PageIsExact(a: seq<Entry>, b: seq<Entry>, c: seq<Entry>, offset: nat, limit: nat)
    requires NewestFirst(a) && NewestFirst(b) && NewestFirst(c)
    ensures Slice(Sort(Top(a, offset + limit) + Top(b, offset + limit) + Top(c, offset + limit)), offset, limit)
            == Slice(Sort(a + b + c), offset, limit)
  {
    hide *;
    var n := offset + limit;
    TopOfTopsIsTop(a, b, c, n);
    SliceOfTop(Sort(Top(a, n) + Top(b, n) + Top(c, n)), Sort(a + b + c), offset, limit);
  }

  /** The page a reader should see: everything visible, merged newest first, then sliced. */
  function ActivityPage(txs: seq<Row>, refunds: seq<Row>, purchases: seq<Row>, offset: nat, limit: nat): seq<Entry> {
    Slice(Sort(Listing(txs) + Listing(refunds) + Listing(purchases)), offset, limit)
  }

  /** What `ORDER BY ... DESC` promises of a table's rows; ties come in any order. */
  ghost predicate RowsNewestFirst(rows: seq<Row>) {
    forall i, j | 0 <= i < j < |rows| :: rows[i].time >= rows[j].time
  }

  lemma {:induction false} ListingIsOlder(rows: seq<Row>, time: int)
    requires forall i | 0 <= i < |rows| :: rows[i].time <= time
    ensures forall i | 0 <= i < |Listing(rows)| :: Listing(rows)[i].createdAt <= time
  {
    if rows != [] {
      ListingIsOlder(rows[1..], time);
    }
  }

  lemma {:induction false} ListingIsNewestFirst(rows: seq<Row>)
    requires RowsNewestFirst(rows)
    ensures NewestFirst(Listing(rows))
  {
    if rows != [] {
      ListingIsNewestFirst(rows[1..]);
      ListingIsOlder(rows[1..], rows[0].time);
    }
  }

  lemma ListingAppend(rows: seq<Row>, row: Row)
    ensures Listing(rows + [row]) == Listing(rows) + if IsShown(row) then [ToEntry(row)] else []
  {
    if rows == [] {
      assert rows + [row] == [row];
    } else {
      assert (rows + [row])[1..] == rows[1..] + [row];
      ListingAppend(rows[1..], row);
    }
  }

  lemma {:induction false} ListingPrefix(rows: seq<Row>, n: nat)
    requires n <= |rows|
    ensures Listing(rows[..n]) <= Listing(rows)
    decreases |rows| - n
  {
    if n < |rows| {
      ListingPrefix(rows, n + 1);
      assert rows[..n + 1] == rows[..n] + [rows[n]];
      ListingAppend(rows[..n], rows[n]);
      hide *;
    } else {
      assert rows[..n] == rows;
    }
  }

  /** One query and its loop: the visible rows, at most `cap` of them, appended as entries. */
  method AppendNewest(entries: seq<Entry>, rows: seq<Row>, cap: nat) returns (longer: seq<Entry>)
    ensures longer == entries + Top(Listing(rows), cap)
  {
    longer := entries;
    var i, fetched := 0, 0;
    while i < |rows| && fetched < cap
      invariant 0 <= i <= |rows| && fetched <= cap
      invariant fetched == |Listing(rows[..i])|
      invariant longer == entries + Listing(rows[..i])
    {
      assert rows[..i + 1] == rows[..i] + [rows[i]];
      ListingAppend(rows[..i], rows[i]);
      if IsShown(rows[i]) {
        longer := longer + [ToEntry(rows[i])];
        fetched := fetched + 1;
      }
      i := i + 1;
    }
    ListingPrefix(rows, i);
    if i == |rows| {
      assert rows[..i] == rows;
    }
  }

  lemma MergedPageIsExact(txs: seq<Row>, refunds: seq<Row>, purchases: seq<Row>, offset: nat, limit: nat, entries: seq<Entry>)
    requires RowsNewestFirst(txs) && RowsNewestFirst(refunds) && RowsNewestFirst(purchases)
    requires var cap := offset + limit;
             entries == [] + Top(Listing(txs), cap) + Top(Listing(refunds), cap) + Top(Listing(purchases), cap)
    ensures Slice(Sort(entries), offset, limit) == ActivityPage(txs, refunds, purchases, offset, limit)
  {
    hide Top, Listing, Sort, Slice, RowsNewestFirst;
    var cap := offset + limit;
    assert [] + Top(Listing(txs), cap) == Top(Listing(txs), cap);
    ListingIsNewestFirst(txs);
    ListingIsNewestFirst(refunds);
    ListingIsNewestFirst(purchases);
    PageIsExact(Listing(txs), Listing(refunds), Listing(purchases), offset, limit);
  }

  /** What a page holds, position by position: the entries from `offset` on, `limit` of them or as
      many as there are. */
  lemma PageHolds(all: seq<Entry>, offset: nat, limit: nat)
    ensures var page := Slice(all, offset, limit);
      && |page| == (if offset >= |all| then 0 else if |all| - offset < limit then |all| - offset else limit)
      && forall i | 0 <= i < |page| :: page[i] == all[offset + i]
  {
  }

  /** The first `count` pages one after the other. */
  function Pages(txs: seq<Row>, refunds: seq<Row>, purchases: seq<Row>, limit: nat, count: nat): seq<Entry> {
    if count == 0 then []
    else
      Pages(txs, refunds, purchases, limit, count - 1)
      + ActivityPage(txs, refunds, purchases, (count - 1) * limit, limit)
  }

  /** Consecutive pages are the listing itself: nothing is skipped and nothing is shown twice. */
  lemma {:induction false} PagesAreListing(txs: seq<Row>, refunds: seq<Row>, purchases: seq<Row>, limit: nat, count: nat)
    ensures var all := Sort(Listing(txs) + Listing(refunds) + Listing(purchases));
            Pages(txs, refunds, purchases, limit, count)
            == if count * limit <= |all| then all[..count * limit] else all
  {
    var all := Sort(Listing(txs) + Listing(refunds) + Listing(purchases));
    if count > 0 {
      PagesAreListing(txs, refunds, purchases, limit, count - 1);
      NextPage(all, (count - 1) * limit, limit);
      assert (count - 1) * limit + limit == count * limit;
    }
  }

  lemma NextPage(all: seq<Entry>, offset: nat, limit: nat)
    ensures (if offset <= |all| then all[..offset] else all) + Slice(all, offset, limit)
            == if offset + limit <= |all| then all[..offset + limit] else all
  {
  }

  /** What each query shows: recharges and adjustments with a note, and decided refund requests and
      purchases, each with its own action and time. */
  lemma TransactionsListed(id: Id, kind: Kind, note: string, amount: int, balanceAfter: Option<int>, user: Id, time: int)
    ensures Listing([TxRow(id, kind, note, amount, balanceAfter, user, time)])
            == if note != "" && kind == Recharge then
                 [Entry(id, Recharged, user, Some(amount), balanceAfter, Some(note), time)]
               else if note != "" && kind == Adjustment then
                 [Entry(id, Adjusted, user, Some(amount), balanceAfter, Some(note), time)]
               else []
  {
  }

  lemma RefundsListed(id: Id, decision: RefundStatus, message: Option<string>, user: Id, time: int)
    ensures Listing([RefundRow(id, decision, message, user, time)])
            == if decision == RefundStatus.Approved then [Entry(id, RefundApproved, user, None, None, message, time)]
               else if decision == RefundStatus.Denied then [Entry(id, RefundDenied, user, None, None, message, time)]
               else []
  {
  }

  lemma PurchasesListed(id: Id, outcome: PurchaseStatus, text: string, user: Id, time: int)
    ensures Listing([PurchaseRow(id, outcome, text, user, time)])
            == if outcome == PurchaseStatus.Fulfilled then [Entry(id, PurchaseFulfilled, user, None, None, Some(text), time)]
               else if outcome == PurchaseStatus.Rejected then [Entry(id, PurchaseRejected, user, None, None, Some(text), time)]
               else []
  {
  }

  /** And row by row: a table lists what its rows list, in its order. */
  lemma ListingIsRowByRow(rows: seq<Row>, more: seq<Row>)
    ensures Listing(rows + more) == Listing(rows) + Listing(more)
  {
    if rows == [] {
      assert rows + more == more;
    } else {
      assert (rows + more)[1..] == rows[1..] + more;
      ListingIsRowByRow(rows[1..], more);
    }
  }

  /** `get_activity_log`: three capped queries appended to one list, sorted, then sliced. */
  method GetActivityLog(txs: seq<Row>, refunds: seq<Row>, purchases: seq<Row>, offset: nat, limit: nat)
    returns (page: seq<Entry>)
    requires RowsNewestFirst(txs) && RowsNewestFirst(refunds) && RowsNewestFirst(purchases)
    ensures page == ActivityPage(txs, refunds, purchases, offset, limit)
    ensures var all := Sort(Listing(txs) + Listing(refunds) + Listing(purchases));
      && |page| == (if offset >= |all| then 0 else if |all| - offset < limit then |all| - offset else limit)
      && forall i | 0 <= i < |page| :: page[i] == all[offset + i]
  {
    PageHolds(Sort(Listing(txs) + Listing(refunds) + Listing(purchases)), offset, limit);
    ghost var whole := ActivityPage(txs, refunds, purchases, offset, limit);
    assert whole == Slice(Sort(Listing(txs) + Listing(refunds) + Listing(purchases)), offset, limit);
    hide *;
    var fetchCap := offset + limit;
    var entries := AppendNewest([], txs, fetchCap);
    entries := AppendNewest(entries, refunds, fetchCap);
    entries := AppendNewest(entries, purchases, fetchCap);
    MergedPageIsExact(txs, refunds, purchases, offset, limit, entries);
    entries := Sort(entries);
    page := Slice(entries, offset, limit);
  }
}
