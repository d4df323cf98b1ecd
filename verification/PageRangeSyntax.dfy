/** The regular expression that page ranges must match, and the comma-separated parts it stands for. */
module PageRangeSyntax {
  import opened Wrappers
  import opened Digits

  // ---------- Regular expressions ----------

  datatype Re = Space | Digit | Lit(c: char) | Cat(first: Re, second: Re) | Star(body: Re) | Opt(body: Re)

  /** Does the expression match the whole string? */
  ghost predicate Matches(re: Re, s: string)
    decreases re, |s|
  {
    match re
    case Space => |s| == 1 && IsSpace(s[0])
    case Digit => |s| == 1 && IsDigit(s[0])
    case Lit(c) => s == [c]
    case Cat(a, b) => exists k | 0 <= k <= |s| :: Matches(a, s[..k]) && Matches(b, s[k..])
    case Star(a) => s == [] || exists k | 0 < k <= |s| :: Matches(a, s[..k]) && Matches(re, s[k..])
    case Opt(a) => s == [] || Matches(a, s)
  }

  const DIGITS := Cat(Digit, Star(Digit))
  const RANGE := Cat(DIGITS, Opt(Cat(Lit('-'), DIGITS)))
  const MORE := Cat(Star(Space), Cat(Lit(','), Cat(Star(Space), RANGE)))
  /** `$` also matches just before a newline that ends the string. */
  const END := Cat(Star(Space), Opt(Lit('\n')))
  const TAIL := Cat(Star(MORE), END)
  const PAGE_RANGE := Cat(Star(Space), Cat(RANGE, TAIL))

  lemma CatIntro(a: Re, b: Re, x: string, y: string)
    requires Matches(a, x) && Matches(b, y)
    ensures Matches(Cat(a, b), x + y)
  {
    assert (x + y)[..|x|] == x && (x + y)[|x|..] == y;
  }

  lemma CatElim(a: Re, b: Re, s: string) returns (x: string, y: string)
    requires Matches(Cat(a, b), s)
    ensures s == x + y && Matches(a, x) && Matches(b, y)
  {
    var k :| 0 <= k <= |s| && Matches(a, s[..k]) && Matches(b, s[k..]);
    x, y := s[..k], s[k..];
  }

  lemma OptIntro(a: Re, x: string)
    requires Matches(a, x)
    ensures Matches(Opt(a), x)
  {
  }

  lemma StarIntro(a: Re, x: string, y: string)
    requires x != [] && Matches(a, x) && Matches(Star(a), y)
    ensures Matches(Star(a), x + y)
  {
    assert (x + y)[..|x|] == x && (x + y)[|x|..] == y;
  }

  lemma StarElim(a: Re, s: string) returns (x: string, y: string)
    requires s != [] && Matches(Star(a), s)
    ensures s == x + y && x != [] && Matches(a, x) && Matches(Star(a), y)
  {
    var k :| 0 < k <= |s| && Matches(a, s[..k]) && Matches(Star(a), s[k..]);
    x, y := s[..k], s[k..];
  }

  // ---------- What the pieces match ----------

  predicate AllSpace(s: string) {
    forall i | 0 <= i < |s| :: IsSpace(s[i])
  }

  predicate IsNumeral(s: string) {
    s != [] && AllDigits(s)
  }

  lemma {:induction false} SpacesMatch(s: string)
    ensures Matches(Star(Space), s) <==> AllSpace(s)
    decreases |s|
  {
    if s != [] {
      if Matches(Star(Space), s) {
        var x, y := StarElim(Space, s);
        SpacesMatch(y);
      }
      if AllSpace(s) {
        SpacesMatch(s[1..]);
        StarIntro(Space, s[..1], s[1..]);
        assert s[..1] + s[1..] == s;
      }
    }
  }

  lemma {:induction false} DigitStarMatches(s: string)
    ensures Matches(Star(Digit), s) <==> AllDigits(s)
    decreases |s|
  {
    if s != [] {
      if Matches(Star(Digit), s) {
        var x, y := StarElim(Digit, s);
        DigitStarMatches(y);
      }
      if AllDigits(s) {
        DigitStarMatches(s[1..]);
        StarIntro(Digit, s[..1], s[1..]);
        assert s[..1] + s[1..] == s;
      }
    }
  }

  lemma NumeralMatches(s: string)
    ensures Matches(DIGITS, s) <==> IsNumeral(s)
  {
    if Matches(DIGITS, s) {
      var x, y := CatElim(Digit, Star(Digit), s);
      DigitStarMatches(y);
    }
    if IsNumeral(s) {
      DigitStarMatches(s[1..]);
      CatIntro(Digit, Star(Digit), s[..1], s[1..]);
      assert s[..1] + s[1..] == s;
    }
  }

  /** The first position of `c` in `s`, or the length of `s`. */
  function Find(s: string, c: char): (i: nat)
    ensures i <= |s| && (i < |s| ==> s[i] == c)
    ensures forall k | 0 <= k < i :: s[k] != c
  {
    if s == [] || s[0] == c then 0
    else
      var i := Find(s[1..], c);
      assert forall k | 0 < k < i + 1 :: s[k] == s[1..][k - 1];
      i + 1
  }

  lemma FindIs(s: string, c: char, i: nat)
    requires i <= |s| && (i < |s| ==> s[i] == c)
    requires forall k | 0 <= k < i :: s[k] != c
    ensures Find(s, c) == i
  {
    var f := Find(s, c);
    assert !(f < i) && !(i < f);
  }

  /** A number, or two numbers around a hyphen. */
  predicate IsRange(s: string) {
    var h := Find(s, '-');
    if h == |s| then IsNumeral(s) else IsNumeral(s[..h]) && IsNumeral(s[h + 1..])
  }

  lemma NumeralHasNone(s: string, c: char)
    requires AllDigits(s) && !IsDigit(c)
    ensures Find(s, c) == |s|
  {
    FindIs(s, c, |s|);
  }

  lemma RangeFromMatch(s: string)
    requires Matches(RANGE, s)
    ensures IsRange(s)
  {
    KindsAreDisjoint('-');
    var x, y := CatElim(DIGITS, Opt(Cat(Lit('-'), DIGITS)), s);
    NumeralMatches(x);
    if y == [] {
      NumeralHasNone(s, '-');
    } else {
      var dash, z := CatElim(Lit('-'), DIGITS, y);
      NumeralMatches(z);
      FindIs(s, '-', |x|);
      assert s[..|x|] == x && s[|x| + 1..] == z;
    }
  }

  lemma PageMatches(page: string)
    requires IsNumeral(page)
    ensures Matches(RANGE, page)
  {
    NumeralMatches(page);
    assert Matches(Opt(Cat(Lit('-'), DIGITS)), []);
    hide Matches, IsNumeral;
    CatIntro(DIGITS, Opt(Cat(Lit('-'), DIGITS)), page, []);
    assert page + [] == page;
  }

  lemma SpanMatches(low: string, high: string)
    requires IsNumeral(low) && IsNumeral(high)
    ensures Matches(RANGE, low + ("-" + high))
  {
    NumeralMatches(low);
    NumeralMatches(high);
    assert Matches(Lit('-'), "-");
    hide Matches, IsNumeral;
    CatIntro(Lit('-'), DIGITS, "-", high);
    OptIntro(Cat(Lit('-'), DIGITS), "-" + high);
    CatIntro(DIGITS, Opt(Cat(Lit('-'), DIGITS)), low, "-" + high);
  }

  lemma MatchFromRange(s: string)
    requires IsRange(s)
    ensures Matches(RANGE, s)
  {
    hide Matches, IsNumeral;
    var h := Find(s, '-');
    if h == |s| {
      assert s[..h] == s;
      PageMatches(s);
    } else {
      SpanMatches(s[..h], s[h + 1..]);
      assert s == s[..h] + ("-" + s[h + 1..]);
    }
  }

  lemma EndMatches(s: string)
    ensures Matches(END, s) <==> AllSpace(s)
  {
    if Matches(END, s) {
      var x, y := CatElim(Star(Space), Opt(Lit('\n')), s);
      SpacesMatch(x);
    }
    if AllSpace(s) {
      SpacesMatch(s);
      CatIntro(Star(Space), Opt(Lit('\n')), s, []);
      assert s + [] == s;
    }
  }

  // ---------- Splitting and stripping ----------

  /** `s.split(',')`. */
  function Split(s: string): (parts: seq<string>)
    ensures parts != []
    decreases |s|
  {
    var c := Find(s, ',');
    if c == |s| then [s] else [s[..c]] + Split(s[c + 1..])
  }

  function StripLeft(s: string): string {
    if s != [] && IsSpace(s[0]) then StripLeft(s[1..]) else s
  }

  function StripRight(s: string): string {
    if s != [] && IsSpace(s[|s| - 1]) then StripRight(s[..|s| - 1]) else s
  }

  /** `s.strip()`. */
  function Strip(s: string): string {
    StripRight(StripLeft(s))
  }

  lemma {:induction false} StripLeftOf(pad: string, s: string)
    requires AllSpace(pad) && (s != [] ==> !IsSpace(s[0]))
    ensures StripLeft(pad + s) == s
  {
    if pad == [] {
      assert pad + s == s;
    } else {
      assert (pad + s)[1..] == pad[1..] + s;
      StripLeftOf(pad[1..], s);
    }
  }

  lemma {:induction false} StripRightOf(s: string, pad: string)
    requires AllSpace(pad) && s != [] && !IsSpace(s[|s| - 1])
    ensures StripRight(s + pad) == s
  {
    if pad == [] {
      assert s + pad == s;
    } else {
      assert (s + pad)[..|s + pad| - 1] == s + pad[..|pad| - 1];
      StripRightOf(s, pad[..|pad| - 1]);
    }
  }

  lemma StripOf(left: string, core: string, right: string)
    requires AllSpace(left) && AllSpace(right) && core != []
    requires !IsSpace(core[0]) && !IsSpace(core[|core| - 1])
    ensures Strip(left + core + right) == core
  {
    assert left + core + right == left + (core + right);
    StripLeftOf(left, core + right);
    StripRightOf(core, right);
  }

  lemma {:induction false} StripLeftPads(s: string) returns (pad: string)
    ensures AllSpace(pad) && s == pad + StripLeft(s)
  {
    if s != [] && IsSpace(s[0]) {
      var rest := StripLeftPads(s[1..]);
      pad := [s[0]] + rest;
    } else {
      pad := [];
    }
  }

  lemma {:induction false} StripRightPads(s: string) returns (pad: string)
    ensures AllSpace(pad) && s == StripRight(s) + pad
  {
    if s != [] && IsSpace(s[|s| - 1]) {
      var rest := StripRightPads(s[..|s| - 1]);
      pad := rest + [s[|s| - 1]];
    } else {
      pad := [];
    }
  }

  lemma RangeEnds(s: string)
    requires IsRange(s)
    ensures s != [] && IsDigit(s[0]) && IsDigit(s[|s| - 1])
    ensures Find(s, ',') == |s|
  {
    KindsAreDisjoint(',');
    var h := Find(s, '-');
    hide IsDigit, Find;
    if h < |s| {
      var low, high := s[..h], s[h + 1..];
      assert s == low + "-" + high;
      assert s[0] == low[0] && s[|s| - 1] == high[|high| - 1];
      assert forall k | 0 <= k < |s| :: s[k] == if k < h then low[k] else if k == h then '-' else high[k - h - 1];
    }
    FindIs(s, ',', |s|);
  }

  /** Every part, stripped, is a range: what the loop over the parts relies on. */
  predicate AllRanges(parts: seq<string>) {
    forall i | 0 <= i < |parts| :: IsRange(Strip(parts[i]))
  }

  predicate Accepts(s: string) {
    AllRanges(Split(s))
  }

  lemma AllRangesOne(part: string)
    ensures AllRanges([part]) <==> IsRange(Strip(part))
  {
    hide Strip, IsRange;
    assert [part][0] == part;
  }

  lemma AllRangesCons(part: string, rest: seq<string>)
    ensures AllRanges([part] + rest) <==> IsRange(Strip(part)) && AllRanges(rest)
  {
    hide Strip, IsRange;
    assert forall i | 0 <= i < |rest| :: ([part] + rest)[i + 1] == rest[i];
    assert ([part] + rest)[0] == part;
  }

  // ---------- The regular expression is the list of parts ----------

  lemma PageElim(s: string) returns (left: string, core: string, tail: string)
    requires Matches(PAGE_RANGE, s)
    ensures s == left + core + tail && AllSpace(left) && IsRange(core) && Matches(TAIL, tail)
  {
    hide Matches, IsRange, AllSpace;
    var t;
    left, t := CatElim(Star(Space), Cat(RANGE, TAIL), s);
    core, tail := CatElim(RANGE, TAIL, t);
    SpacesMatch(left);
    RangeFromMatch(core);
  }

  lemma PageIntro(left: string, core: string, tail: string)
    requires AllSpace(left) && IsRange(core) && Matches(TAIL, tail)
    ensures Matches(PAGE_RANGE, left + core + tail)
  {
    hide Matches, IsRange, AllSpace;
    SpacesMatch(left);
    MatchFromRange(core);
    CatIntro(RANGE, TAIL, core, tail);
    CatIntro(Star(Space), Cat(RANGE, TAIL), left, core + tail);
    assert left + (core + tail) == left + core + tail;
  }

  lemma CommaMatches(x: string)
    requires Matches(Lit(','), x)
    ensures x == ","
  {
  }

  lemma MoreElim(s: string) returns (right: string, left: string, core: string)
    requires Matches(MORE, s)
    ensures s == right + "," + left + core && AllSpace(right) && AllSpace(left) && IsRange(core)
  {
    hide IsRange, AllSpace;
    hide Matches;
    var t;
    right, t := CatElim(Star(Space), Cat(Lit(','), Cat(Star(Space), RANGE)), s);
    var comma, u := CatElim(Lit(','), Cat(Star(Space), RANGE), t);
    left, core := CatElim(Star(Space), RANGE, u);
    CommaMatches(comma);
    assert right + ("," + (left + core)) == right + "," + left + core;
    SpacesMatch(right);
    SpacesMatch(left);
    RangeFromMatch(core);
  }

  lemma MoreIntro(right: string, left: string, core: string)
    requires AllSpace(right) && AllSpace(left) && IsRange(core)
    ensures Matches(MORE, right + "," + left + core)
  {
    hide IsRange, AllSpace;
    assert Matches(Lit(','), ",");
    hide Matches;
    SpacesMatch(right);
    SpacesMatch(left);
    MatchFromRange(core);
    CatIntro(Star(Space), RANGE, left, core);
    CatIntro(Lit(','), Cat(Star(Space), RANGE), ",", left + core);
    CatIntro(Star(Space), Cat(Lit(','), Cat(Star(Space), RANGE)), right, "," + (left + core));
    assert right + ("," + (left + core)) == right + "," + left + core;
  }

  lemma TailIntro(x: string, y: string)
    requires x != [] && Matches(MORE, x) && Matches(TAIL, y)
    ensures Matches(TAIL, x + y)
  {
    hide Matches;
    var u, v := CatElim(Star(MORE), END, y);
    StarIntro(MORE, x, u);
    CatIntro(Star(MORE), END, x + u, v);
    assert x + u + v == x + y;
  }

  lemma TailEnds(s: string)
    requires AllSpace(s)
    ensures Matches(TAIL, s)
  {
    EndMatches(s);
    assert Matches(Star(MORE), []);
    hide Matches;
    CatIntro(Star(MORE), END, [], s);
    assert [] + s == s;
  }

  lemma TailElim(s: string) returns (x: string, y: string)
    requires Matches(TAIL, s)
    ensures AllSpace(s) || (s == x + y && x != [] && Matches(MORE, x) && Matches(TAIL, y))
  {
    hide Matches;
    var u, v := CatElim(Star(MORE), END, s);
    EndMatches(v);
    if u == [] {
      assert s == v;
      x, y := [], [];
    } else {
      var w;
      x, w := StarElim(MORE, u);
      y := w + v;
      CatIntro(Star(MORE), END, w, v);
      assert x + y == s;
    }
  }

  /** A padded range followed by a comma is the first part of the string. */
  lemma SplitAfter(left: string, core: string, right: string, rest: string)
    requires AllSpace(left) && AllSpace(right) && IsRange(core)
    ensures Split(left + core + right + "," + rest) == [left + core + right] + Split(rest)
    ensures Split(left + core + right) == [left + core + right]
    ensures Strip(left + core + right) == core
  {
    var part := left + core + right;
    RangeEnds(core);
    KindsAreDisjoint(core[0]);
    KindsAreDisjoint(core[|core| - 1]);
    StripOf(left, core, right);
    forall k | 0 <= k < |part| ensures part[k] != ',' {
      KindsAreDisjoint(part[k]);
    }
    FindIs(part, ',', |part|);
    var s := part + "," + rest;
    FindIs(s, ',', |part|);
    assert s[..|part|] == part && s[|part| + 1..] == rest;
  }

  lemma {:induction false} PartsFromMatch(s: string)
    requires Matches(PAGE_RANGE, s)
    ensures Accepts(s)
    decreases |s|
  {
    hide Matches, Split, Strip, IsRange, AllSpace, AllRanges;
    var left, core, tail := PageElim(s);
    var x, y := TailElim(tail);
    if AllSpace(tail) {
      SplitAfter(left, core, tail, []);
      AllRangesOne(s);
    } else {
      var right, left', core' := MoreElim(x);
      var rest := left' + core' + y;
      PageIntro(left', core', y);
      assert s == left + core + right + "," + rest;
      PartsFromMatch(rest);
      SplitAfter(left, core, right, rest);
      AllRangesCons(left + core + right, Split(rest));
    }
  }

  lemma StripPads(part: string) returns (left: string, right: string)
    ensures AllSpace(left) && AllSpace(right) && part == left + Strip(part) + right
  {
    left := StripLeftPads(part);
    right := StripRightPads(StripLeft(part));
  }

  lemma SplitUnfolds(s: string)
    ensures var c := Find(s, ',');
      && (c == |s| ==> Split(s) == [s] && s[..c] == s)
      && (c < |s| ==> Split(s) == [s[..c]] + Split(s[c + 1..]))
  {
    hide Find;
  }

  lemma AroundComma(s: string, c: nat)
    requires c < |s| && s[c] == ','
    ensures s == s[..c] + "," + s[c + 1..]
  {
  }

  lemma AcceptsHead(s: string)
    requires Accepts(s)
    ensures var c := Find(s, ',');
            IsRange(Strip(s[..c])) && (c < |s| ==> Accepts(s[c + 1..]))
  {
    hide Split, Strip, IsRange, Find, AllRanges;
    SplitUnfolds(s);
    var c := Find(s, ',');
    if c == |s| {
      AllRangesOne(s);
    } else {
      AllRangesCons(s[..c], Split(s[c + 1..]));
    }
  }

  lemma {:induction false} MatchFromParts(s: string)
    requires Accepts(s)
    ensures Matches(PAGE_RANGE, s)
    decreases |s|
  {
    hide Matches, Split, Strip, IsRange, Accepts, AllSpace;
    AcceptsHead(s);
    var c := Find(s, ',');
    var core := Strip(s[..c]);
    var left, right := StripPads(s[..c]);
    if c == |s| {
      TailEnds(right);
      PageIntro(left, core, right);
      assert left + core + right == s;
    } else {
      var rest := s[c + 1..];
      MatchFromParts(rest);
      TailFromRest(right, rest);
      PageIntro(left, core, right + "," + rest);
      AroundComma(s, c);
      assert left + core + (right + "," + rest) == left + core + right + "," + rest;
    }
  }

  lemma TailFromRest(right: string, rest: string)
    requires AllSpace(right) && Matches(PAGE_RANGE, rest)
    ensures Matches(TAIL, right + "," + rest)
  {
    hide Matches, IsRange, AllSpace;
    var left, core, tail := PageElim(rest);
    MoreIntro(right, left, core);
    TailIntro(right + "," + left + core, tail);
    assert right + "," + left + core + tail == right + "," + rest;
  }

  /** The expression accepts exactly the strings whose comma-separated parts are all ranges. */
  lemma RegexIsParts(s: string)
    ensures Matches(PAGE_RANGE, s) <==> Accepts(s)
  {
    if Matches(PAGE_RANGE, s) { PartsFromMatch(s); }
    if Accepts(s) { MatchFromParts(s); }
  }
}
