/** Counting the pages of a page range (`count_pages_in_range`). */
module PageRange {
  import opened Wrappers
  import opened Digits
  import opened PageRangeSyntax

  datatype Interval = Interval(low: nat, high: nat)

  /** The pages asked for, or the `ValueError` that `int` raises on an over-long numeral. */
  datatype Outcome = Pages(count: nat) | ValueError

  /** The interval a stripped part denotes, unless one of its numerals is too long for `int`. */
  function ReadRange(core: string): Option<Interval>
    requires IsRange(core)
  {
    var h := Find(core, '-');
    if h == |core| then
      var page := ParseInt(core);
      if page.Some? then Some(Interval(page.value, page.value)) else None
    else
      var low, high := ParseInt(core[..h]), ParseInt(core[h + 1..]);
      if low.Some? && high.Some? then Some(Interval(low.value, high.value)) else None
  }

  /** Ordered, from page one on, and within the document when its length is known. */
  predicate IsWithin(range: Interval, total: nat) {
    1 <= range.low <= range.high && (total == 0 || range.high <= total)
  }

  /** `range(low, high + 1)`. */
  function Between(low: nat, high: nat): (pages: set<nat>)
    ensures forall n :: n in pages <==> low <= n <= high
    decreases high + 1 - low
  {
    if low > high then {} else {low} + Between(low + 1, high)
  }

  function PagesOf(range: Interval): set<nat> {
    Between(range.low, range.high)
  }

  /** Python takes both `None` and 0 to mean that the length is unknown. */
  function Bound(total: Option<nat>): nat {
    if total.Some? then total.value else 0
  }

  /** What each part reads as. */
  function Readings(parts: seq<string>): (ranges: seq<Option<Interval>>)
    requires AllRanges(parts)
    ensures |ranges| == |parts|
    ensures forall i | 0 <= i < |parts| :: ranges[i] == ReadRange(Strip(parts[i]))
  {
    seq(|parts|, i requires 0 <= i < |parts| => ReadRange(Strip(parts[i])))
  }

  /** What the loop returns for the parts still to be read, given the pages already seen. */
  function CountFrom(ranges: seq<Option<Interval>>, total: nat, seen: set<nat>): Outcome {
    if ranges == [] then Pages(|seen|)
    else if ranges[0].None? then ValueError
    else if !IsWithin(ranges[0].value, total) then Pages(0)
    else CountFrom(ranges[1..], total, seen + PagesOf(ranges[0].value))
  }

  function CountPages(s: string, total: Option<nat>): Outcome {
    if !Accepts(s) then Pages(0) else CountFrom(Readings(Split(s)), Bound(total), {})
  }

  lemma CountFromUnfolds(ranges: seq<Option<Interval>>, i: nat, total: nat, seen: set<nat>)
    requires i < |ranges|
    ensures CountFrom(ranges[i..], total, seen)
            == if ranges[i].None? then ValueError
               else if !IsWithin(ranges[i].value, total) then Pages(0)
               else CountFrom(ranges[i + 1..], total, seen + PagesOf(ranges[i].value))
  {
    assert ranges[i..][1..] == ranges[i + 1..];
  }

  /** `count_pages_in_range`. */
  method CountPagesInRange(pageRange: string, total: Option<nat>) returns (result: Outcome)
    ensures result == CountPages(pageRange, total)
  {
    hide CountFrom, Strip, Split;
    if !Accepts(pageRange) {
      return Pages(0);
    }
    var parts := Split(pageRange);
    ghost var ranges := Readings(parts);
    var pageNumbers: set<nat> := {};
    var i := 0;
    assert ranges[0..] == ranges;
    while i < |parts|
      invariant 0 <= i <= |parts|
      invariant CountFrom(ranges[i..], Bound(total), pageNumbers) == CountPages(pageRange, total)
    {
      CountFromUnfolds(ranges, i, Bound(total), pageNumbers);
      var part := Strip(parts[i]);
      var hyphen := Find(part, '-');
      if hyphen < |part| {
        var start, end := ParseInt(part[..hyphen]), ParseInt(part[hyphen + 1..]);
        if start.None? || end.None? {
          return ValueError;
        }
        if start.value > end.value || start.value < 1 || end.value < 1 {
          return Pages(0);
        }
        if total.Some? && total.value != 0 && end.value > total.value {
          return Pages(0);
        }
        pageNumbers := pageNumbers + Between(start.value, end.value);
      } else {
        var page := ParseInt(part);
        if page.None? {
          return ValueError;
        }
        if page.value < 1 {
          return Pages(0);
        }
        if total.Some? && total.value != 0 && page.value > total.value {
          return Pages(0);
        }
        assert Between(page.value, page.value) == {page.value};
        pageNumbers := pageNumbers + {page.value};
      }
      i := i + 1;
    }
    NothingLeft(Bound(total), pageNumbers);
    assert ranges[i..] == [];
    return Pages(|pageNumbers|);
  }

  lemma NothingLeft(total: nat, seen: set<nat>)
    ensures CountFrom([], total, seen) == Pages(|seen|)
  {
  }

  // ---------- What the result means ----------

  ghost predicate PartIsWithin(range: Option<Interval>, total: nat) {
    range.Some? && IsWithin(range.value, total)
  }

  ghost predicate AllWithin(ranges: seq<Option<Interval>>, total: nat) {
    forall i | 0 <= i < |ranges| :: PartIsWithin(ranges[i], total)
  }

  ghost predicate AllReadable(ranges: seq<Option<Interval>>) {
    forall i | 0 <= i < |ranges| :: ranges[i].Some?
  }

  /** The pages that any of the parts asks for. */
  ghost function Union(ranges: seq<Option<Interval>>): set<nat> {
    set i, n | 0 <= i < |ranges| && ranges[i].Some? && n in PagesOf(ranges[i].value) :: n
  }

  lemma UnionCons(ranges: seq<Option<Interval>>)
    requires ranges != [] && ranges[0].Some?
    ensures Union(ranges) == PagesOf(ranges[0].value) + Union(ranges[1..])
  {
    hide PagesOf;
    var tail := ranges[1..];
    forall n | n in Union(ranges) ensures n in PagesOf(ranges[0].value) + Union(tail) {
      var i :| 0 <= i < |ranges| && ranges[i].Some? && n in PagesOf(ranges[i].value);
      if i > 0 {
        assert tail[i - 1] == ranges[i];
      }
    }
    forall n | n in Union(tail) ensures n in Union(ranges) {
      var i :| 0 <= i < |tail| && tail[i].Some? && n in PagesOf(tail[i].value);
      assert tail[i] == ranges[i + 1];
    }
  }

  lemma AllWithinCons(ranges: seq<Option<Interval>>, total: nat)
    requires ranges != []
    ensures AllWithin(ranges, total) <==> PartIsWithin(ranges[0], total) && AllWithin(ranges[1..], total)
  {
    hide PartIsWithin;
    var tail := ranges[1..];
    assert forall i | 0 <= i < |tail| :: tail[i] == ranges[i + 1];
  }

  lemma {:induction false} CountFromIsUnion(ranges: seq<Option<Interval>>, total: nat, seen: set<nat>)
    requires AllReadable(ranges)
    ensures CountFrom(ranges, total, seen)
            == Pages(if AllWithin(ranges, total) then |seen + Union(ranges)| else 0)
  {
    hide IsWithin, PagesOf;
    if ranges == [] {
      assert seen + Union(ranges) == seen;
    } else {
      AllWithinCons(ranges, total);
      if PartIsWithin(ranges[0], total) {
        UnionCons(ranges);
        CountFromIsUnion(ranges[1..], total, seen + PagesOf(ranges[0].value));
        assert seen + PagesOf(ranges[0].value) + Union(ranges[1..]) == seen + Union(ranges);
      }
    }
  }

  /** For every accepted string without over-long numerals: the size of the union of the listed
      intervals when all are ordered and within the document, and 0 otherwise. */
  lemma CountIsUnion(s: string, total: Option<nat>)
    requires Accepts(s) && AllReadable(Readings(Split(s)))
    ensures var ranges := Readings(Split(s));
            CountPages(s, total) == Pages(if AllWithin(ranges, Bound(total)) then |Union(ranges)| else 0)
  {
    var ranges := Readings(Split(s));
    CountFromIsUnion(ranges, Bound(total), {});
    assert {} + Union(ranges) == Union(ranges);
  }

  /** The first part that is not a proper range of the document cannot even be read. */
  ghost predicate StopsUnread(ranges: seq<Option<Interval>>, total: nat, i: int) {
    0 <= i < |ranges| && ranges[i].None? && AllWithin(ranges[..i], total)
  }

  ghost predicate StopsSomewhere(ranges: seq<Option<Interval>>, total: nat) {
    exists i :: StopsUnread(ranges, total, i)
  }

  lemma StopShifts(ranges: seq<Option<Interval>>, total: nat, i: int)
    requires ranges != [] && i >= 1
    ensures StopsUnread(ranges, total, i) <==> PartIsWithin(ranges[0], total) && StopsUnread(ranges[1..], total, i - 1)
  {
    hide PartIsWithin, AllWithin;
    if i < |ranges| {
      AllWithinCons(ranges[..i], total);
      assert ranges[..i][1..] == ranges[1..][..i - 1];
    }
  }

  lemma {:induction false} CountFromRaises(ranges: seq<Option<Interval>>, total: nat, seen: set<nat>)
    ensures CountFrom(ranges, total, seen).ValueError? <==> StopsSomewhere(ranges, total)
  {
    hide IsWithin, PagesOf, AllWithin;
    if ranges != [] {
      assert AllWithin([], total) by { EmptyIsWithin(total); }
      assert ranges[..0] == [];
      assert StopsUnread(ranges, total, 0) <==> ranges[0].None?;
      forall i | i >= 1 ensures StopsUnread(ranges, total, i)
                                <==> PartIsWithin(ranges[0], total) && StopsUnread(ranges[1..], total, i - 1)
      {
        StopShifts(ranges, total, i);
      }
      if PartIsWithin(ranges[0], total) {
        CountFromRaises(ranges[1..], total, seen + PagesOf(ranges[0].value));
        if i :| StopsUnread(ranges[1..], total, i) {
          assert StopsUnread(ranges[1..], total, i + 1 - 1);
          assert StopsUnread(ranges, total, i + 1);
        }
      }
    }
  }

  lemma EmptyIsWithin(total: nat)
    ensures AllWithin([], total)
  {
  }

  /** Splitting, stripping and converting fail on no accepted string except this one way: the
      first part that is not a proper range holds a numeral `int` refuses for its length. */
  lemma RaisesExactly(s: string, total: Option<nat>)
    ensures CountPages(s, total).ValueError? <==>
              Accepts(s) && StopsSomewhere(Readings(Split(s)), Bound(total))
  {
    if Accepts(s) {
      CountFromRaises(Readings(Split(s)), Bound(total), {});
    }
  }

  lemma {:induction false} NinesAreDigits(n: nat)
    ensures AllDigits(seq(n, _ => '9'))
  {
    AsciiDigitIsDigit(9);
    assert AsciiDigit(9) == '9';
  }

  /** A number of 4301 nines is accepted by the expression and makes the count raise. */
  lemma LongNumeralRaises(total: Option<nat>)
    ensures var s := seq(4301, _ => '9');
            Matches(PAGE_RANGE, s) && CountPages(s, total).ValueError?
  {
    var s: string := seq(4301, _ => '9');
    NinesAreDigits(4301);
    KindsAreDisjoint('-');
    NumeralHasNone(s, '-');
    assert IsRange(s);
    assert [] + s + [] == s;
    SplitAfter([], s, [], []);
    AllRangesOne(s);
    RegexIsParts(s);
    assert Readings(Split(s))[0].None?;
  }

  lemma SubsetOfPages(pages: set<nat>, total: nat)
    requires forall n | n in pages :: 1 <= n <= total
    ensures |pages| <= total
    decreases total
  {
    if total == 0 {
      assert pages == {};
    } else {
      SubsetOfPages(pages - {total}, total - 1);
      if total in pages {
        assert |pages - {total}| == |pages| - 1;
      } else {
        assert pages - {total} == pages;
      }
    }
  }

  lemma {:induction false} CountFromIsBounded(ranges: seq<Option<Interval>>, total: nat, seen: set<nat>)
    requires total > 0 && forall n | n in seen :: 1 <= n <= total
    ensures CountFrom(ranges, total, seen).Pages? ==> CountFrom(ranges, total, seen).count <= total
  {
    if ranges == [] {
      SubsetOfPages(seen, total);
    } else if PartIsWithin(ranges[0], total) {
      CountFromIsBounded(ranges[1..], total, seen + PagesOf(ranges[0].value));
    }
  }

  /** A document is never asked for more pages than it has. */
  lemma CountIsBounded(s: string, total: Option<nat>)
    requires Bound(total) > 0
    ensures CountPages(s, total).Pages? ==> CountPages(s, total).count <= Bound(total)
  {
    if Accepts(s) {
      CountFromIsBounded(Readings(Split(s)), Bound(total), {});
    }
  }

  // ---------- Writing a page range and reading it back ----------

  /** One written part: a page or a span, with the spaces around it. */
  datatype Written = Page(left: string, page: nat, right: string)
                   | Span(left: string, low: nat, high: nat, right: string)

  function Core(w: Written): string {
    match w
    case Page(_, page, _) => Numeral(page)
    case Span(_, low, high, _) => Numeral(low) + "-" + Numeral(high)
  }

  function Denoted(w: Written): Interval {
    match w
    case Page(_, page, _) => Interval(page, page)
    case Span(_, low, high, _) => Interval(low, high)
  }

  ghost predicate IsWritable(w: Written) {
    && AllSpace(w.left) && AllSpace(w.right)
    && |Numeral(Denoted(w).low)| <= MAX_INT_DIGITS && |Numeral(Denoted(w).high)| <= MAX_INT_DIGITS
  }

  function Write(ws: seq<Written>): string
    requires ws != []
  {
    var first := ws[0].left + Core(ws[0]) + ws[0].right;
    if |ws| == 1 then first else first + "," + Write(ws[1..])
  }

  lemma PageReadsBack(page: nat)
    requires |Numeral(page)| <= MAX_INT_DIGITS
    ensures IsRange(Numeral(page)) && ReadRange(Numeral(page)) == Some(Interval(page, page))
  {
    KindsAreDisjoint('-');
    NumeralRoundTrip(page);
    hide Numeral, Value, AllDigits, Find, IsDigit;
    NumeralHasNone(Numeral(page), '-');
  }

  lemma SpanReadsBack(low: nat, high: nat)
    requires |Numeral(low)| <= MAX_INT_DIGITS && |Numeral(high)| <= MAX_INT_DIGITS
    ensures var core := Numeral(low) + "-" + Numeral(high);
            IsRange(core) && ReadRange(core) == Some(Interval(low, high))
  {
    var core := Numeral(low) + "-" + Numeral(high);
    KindsAreDisjoint('-');
    NumeralRoundTrip(low);
    NumeralRoundTrip(high);
    hide Numeral, Value, Find, IsDigit;
    FindIs(core, '-', |Numeral(low)|);
    assert core[..|Numeral(low)|] == Numeral(low) && core[|Numeral(low)| + 1..] == Numeral(high);
  }

  lemma CoreReadsBack(w: Written)
    requires IsWritable(w)
    ensures IsRange(Core(w)) && ReadRange(Core(w)) == Some(Denoted(w))
  {
    hide IsRange, ReadRange, Numeral;
    match w
    case Page(_, page, _) => PageReadsBack(page);
    case Span(_, low, high, _) => SpanReadsBack(low, high);
  }

  ghost predicate AllWritable(ws: seq<Written>) {
    forall i | 0 <= i < |ws| :: IsWritable(ws[i])
  }

  function Denotations(ws: seq<Written>): (ranges: seq<Option<Interval>>)
    ensures |ranges| == |ws|
  {
    if ws == [] then [] else [Some(Denoted(ws[0]))] + Denotations(ws[1..])
  }

  lemma ReadingsCons(part: string, rest: seq<string>)
    requires AllRanges([part] + rest)
    ensures AllRanges(rest) && IsRange(Strip(part))
    ensures Readings([part] + rest) == [ReadRange(Strip(part))] + Readings(rest)
  {
    AllRangesCons(part, rest);
    hide Strip, IsRange, ReadRange, AllRanges;
    assert forall i | 0 <= i < |rest| :: ([part] + rest)[i + 1] == rest[i];
  }

  /** The written string splits into its parts, and each part reads back as what it denotes. */
  lemma {:induction false} PartsReadBack(ws: seq<Written>)
    requires ws != [] && AllWritable(ws)
    ensures Accepts(Write(ws)) && Readings(Split(Write(ws))) == Denotations(ws)
  {
    CoreReadsBack(ws[0]);
    var left, core, right := ws[0].left, Core(ws[0]), ws[0].right;
    var first := left + core + right;
    assert AllSpace(left) && AllSpace(right);
    hide Strip, Split, IsRange, ReadRange, Core, Denoted, AllRanges, AllSpace, IsWritable;
    if |ws| == 1 {
      SplitAfter(left, core, right, []);
      AllRangesOne(first);
      assert ws[1..] == [];
    } else {
      PartsReadBack(ws[1..]);
      SplitAfter(left, core, right, Write(ws[1..]));
      AllRangesCons(first, Split(Write(ws[1..])));
      ReadingsCons(first, Split(Write(ws[1..])));
    }
  }

  lemma {:induction false} DenotationsAreReadable(ws: seq<Written>)
    ensures AllReadable(Denotations(ws))
  {
    if ws != [] {
      DenotationsAreReadable(ws[1..]);
    }
  }

  /** Round trip: any list of pages and spans, written with any spaces around the commas, is
      accepted and counts the union of what it lists. */
  lemma WriteThenCount(ws: seq<Written>, total: Option<nat>)
    requires ws != [] && AllWritable(ws)
    ensures Matches(PAGE_RANGE, Write(ws))
    ensures var ranges := Denotations(ws);
            CountPages(Write(ws), total) == Pages(if AllWithin(ranges, Bound(total)) then |Union(ranges)| else 0)
  {
    PartsReadBack(ws);
    DenotationsAreReadable(ws);
    RegexIsParts(Write(ws));
    CountIsUnion(Write(ws), total);
  }

  /** The page is one that the written part asks for. */
  predicate Asks(w: Written, n: nat) {
    if w.Page? then n == w.page else w.low <= n <= w.high
  }

  /** The written part stays within a document of `total` pages, or of unknown length. */
  predicate Fits(w: Written, total: Option<nat>) {
    var last := if w.Page? then w.page else w.high;
    && (if w.Page? then 1 <= w.page else 1 <= w.low <= w.high)
    && (total == None || total == Some(0) || last <= total.value)
  }

  ghost predicate AskedFor(ws: seq<Written>, n: nat) {
    exists i :: 0 <= i < |ws| && Asks(ws[i], n)
  }

  predicate AllFit(ws: seq<Written>, total: Option<nat>) {
    forall i | 0 <= i < |ws| :: Fits(ws[i], total)
  }

  lemma AskedIsUnion(ws: seq<Written>, asked: set<nat>)
    requires forall n: nat :: n in asked <==> AskedFor(ws, n)
    ensures Union(Denotations(ws)) == asked
  {
    hide AskedFor, Union, Denotations;
    forall n: nat ensures n in Union(Denotations(ws)) <==> n in asked {
      AskedInUnion(ws, n);
    }
  }

  lemma {:induction false} DenotationsAt(ws: seq<Written>, i: nat)
    requires i < |ws|
    ensures Denotations(ws)[i] == Some(Denoted(ws[i]))
  {
    if i > 0 {
      DenotationsAt(ws[1..], i - 1);
    }
  }

  lemma WithinIsFits(ws: seq<Written>, total: Option<nat>)
    ensures AllWithin(Denotations(ws), Bound(total)) <==> AllFit(ws, total)
  {
    var ranges := Denotations(ws);
    forall i | 0 <= i < |ws| ensures PartIsWithin(ranges[i], Bound(total)) <==> Fits(ws[i], total) {
      DenotationsAt(ws, i);
    }
    if AllWithin(ranges, Bound(total)) {
      assert forall i | 0 <= i < |ws| :: PartIsWithin(ranges[i], Bound(total));
    }
  }

  /** The same, number by number: if every page and span is ordered, starts at one or above and
      ends within the document, the result is how many pages are asked for, and otherwise 0. */
  lemma WriteThenCountPages(ws: seq<Written>, total: Option<nat>, asked: set<nat>)
    requires ws != [] && AllWritable(ws)
    requires forall n: nat :: n in asked <==> AskedFor(ws, n)
    ensures CountPages(Write(ws), total) == Pages(if AllFit(ws, total) then |asked| else 0)
  {
    WriteThenCount(ws, total);
    WithinIsFits(ws, total);
    AskedIsUnion(ws, asked);
    hide *;
  }

  lemma AskedInUnion(ws: seq<Written>, n: nat)
    ensures n in Union(Denotations(ws)) <==> AskedFor(ws, n)
  {
    var ranges := Denotations(ws);
    forall i | 0 <= i < |ws| ensures ranges[i] == Some(Denoted(ws[i])) && (n in PagesOf(Denoted(ws[i])) <==> Asks(ws[i], n)) {
      DenotationsAt(ws, i);
    }
    if exists i :: 0 <= i < |ws| && Asks(ws[i], n) {
      var i :| 0 <= i < |ws| && Asks(ws[i], n);
      assert n in PagesOf(ranges[i].value);
    }
  }

  /** Any other string counts no pages. */
  lemma OthersCountNothing(s: string, total: Option<nat>)
    requires !Matches(PAGE_RANGE, s)
    ensures CountPages(s, total) == Pages(0)
  {
    RegexIsParts(s);
  }
}
