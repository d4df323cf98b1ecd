/** Where an uploaded file is stored: the first free name beside the files already there. */
module FreshName {
  import opened Wrappers
  import opened Digits

  /** A path: the components above it, and its own name. */
  datatype Path = Path(parent: seq<string>, name: string)

  function Components(p: Path): seq<string> {
    p.parent + [p.name]
  }

  /** The place of the last `c` in `s`, or -1. */
  function RFind(s: string, c: char): (i: int)
    ensures -1 <= i < |s| && (i >= 0 ==> s[i] == c)
    ensures forall k | i < k < |s| :: s[k] != c
  {
    if s == [] then -1
    else if s[|s| - 1] == c then |s| - 1
    else RFind(s[..|s| - 1], c)
  }

  /** `Path(s).name`: the last component that is neither empty nor a dot. */
  function BaseName(s: string): string {
    var i := RFind(s, '/');
    var tail := s[i + 1..];
    if tail != "" && tail != "." then tail
    else if i <= 0 then ""
    else BaseName(s[..i])
  }

  /** A suffix starts at the last dot, unless that dot is the first or the last character. */
  predicate HasSuffix(name: string) {
    0 < RFind(name, '.') < |name| - 1
  }

  function Stem(name: string): string {
    if HasSuffix(name) then name[..RFind(name, '.')] else name
  }

  function Suffix(name: string): string {
    if HasSuffix(name) then name[RFind(name, '.')..] else ""
  }

  /** `dirpath / name`: joining the empty name gives the directory itself. */
  function Join(dir: Path, name: string): Path {
    if name == "" then dir else Path(Components(dir), name)
  }

  function Mark(k: nat): string {
    "_(" + Numeral(k) + ")"
  }

  /** The names tried in turn: the name itself, then its stem marked 1, 2, and so on. */
  function Candidate(p: Path, k: nat): Path {
    if k == 0 then p else Path(p.parent, Stem(p.name) + Mark(k) + Suffix(p.name))
  }

  /** A file name keeps no directory of the uploaded name. */
  lemma {:induction false} BaseNameHasNoDirectory(s: string)
    ensures '/' !in BaseName(s) && BaseName(s) != "."
    decreases |s|
  {
    var i := RFind(s, '/');
    var tail := s[i + 1..];
    if tail != "" && tail != "." {
      assert forall k | 0 <= k < |tail| :: tail[k] == s[i + 1 + k];
    } else if i > 0 {
      BaseNameHasNoDirectory(s[..i]);
    }
  }

  lemma RFindIs(s: string, c: char, i: int)
    requires -1 <= i < |s| && (i >= 0 ==> s[i] == c)
    requires forall k | i < k < |s| :: s[k] != c
    ensures RFind(s, c) == i
  {
    var f := RFind(s, c);
    assert !(f < i) && !(i < f);
  }

  /** A name without a slash, other than a dot, is its own base name. */
  lemma PlainNameIsKept(s: string)
    requires '/' !in s && s != "."
    ensures BaseName(s) == s
  {
    RFindIs(s, '/', -1);
  }

  /** The base name is the last component that says something, whatever stands before it and however
      many slashes and dots come after it. */
  lemma LastComponentIsKept(before: string, name: string)
    requires '/' !in name && name != "" && name != "."
    ensures BaseName(before + "/" + name) == name
  {
    var s := before + "/" + name;
    assert s[|before|] == '/' && s[|before| + 1..] == name;
    assert forall k | |before| < k < |s| :: s[k] == name[k - |before| - 1] && name[k - |before| - 1] in name;
    RFindIs(s, '/', |before|);
  }

  lemma EmptyTailIsIgnored(before: string, tail: string)
    requires tail == "" || tail == "."
    ensures BaseName(before + "/" + tail) == BaseName(before)
  {
    var s := before + "/" + tail;
    assert s[|before|] == '/' && s[|before| + 1..] == tail && s[..|before|] == before;
    assert forall k | |before| < k < |s| :: s[k] == tail[k - |before| - 1] != '/';
    RFindIs(s, '/', |before|);
    hide RFind;
    if before == "" {
      assert BaseName(before) == "" by { NoBaseNameOfNothing(); }
    }
  }

  lemma NoBaseNameOfNothing()
    ensures BaseName("") == ""
  {
  }

  lemma StemAndSuffix(name: string)
    ensures Stem(name) + Suffix(name) == name
  {
  }

  lemma CandidatesDiffer(p: Path, j: nat, k: nat)
    requires j < k
    ensures Candidate(p, j) != Candidate(p, k)
  {
    StemAndSuffix(p.name);
    var stem, suffix := Stem(p.name), Suffix(p.name);
    if j == 0 {
      assert |stem + Mark(k) + suffix| > |p.name|;
    } else if Candidate(p, j) == Candidate(p, k) {
      var a, b := stem + Mark(j) + suffix, stem + Mark(k) + suffix;
      assert |Mark(j)| == |Mark(k)|;
      assert Mark(j) == a[|stem|..|stem| + |Mark(j)|] == b[|stem|..|stem| + |Mark(k)|] == Mark(k);
      assert Numeral(j) == Mark(j)[2..|Mark(j)| - 1] == Mark(k)[2..|Mark(k)| - 1] == Numeral(k);
      NumeralIsInjective(j, k);
    }
  }

  lemma DotIsNoDigit()
    ensures !IsDigit('.')
  {
    Gaps();
    NoDigitsIn('.' as int, 0x0, 0x2f, 0);
  }

  lemma MarkHasNoDot(k: nat)
    ensures |Mark(k)| > 2 && forall i | 0 <= i < |Mark(k)| :: Mark(k)[i] != '.'
  {
    DotIsNoDigit();
    NumeralRoundTrip(k);
    var n := Numeral(k);
    hide IsDigit, Numeral;
    forall i | 0 <= i < |Mark(k)| ensures Mark(k)[i] != '.' {
      if 2 <= i < 2 + |n| {
        assert Mark(k)[i] == n[i - 2];
        assert IsDigit(n[i - 2]);
      }
    }
  }

  lemma SuffixDots(name: string)
    requires HasSuffix(name)
    ensures forall i | 0 < i < |Suffix(name)| :: Suffix(name)[i] != '.'
  {
    var dot := RFind(name, '.');
    assert forall i | 0 < i < |Suffix(name)| :: Suffix(name)[i] == name[dot + i];
  }

  /** Where the last dot is once a mark without dots is put before the suffix. */
  lemma MarkedDot(name: string, mark: string)
    requires |mark| > 2 && forall i | 0 <= i < |mark| :: mark[i] != '.'
    ensures RFind(Stem(name) + mark + Suffix(name), '.')
            == if HasSuffix(name) then |Stem(name)| + |mark| else RFind(name, '.')
  {
    var stem, suffix := Stem(name), Suffix(name);
    var marked := stem + mark + suffix;
    var dot := RFind(name, '.');
    hide RFind;
    if HasSuffix(name) {
      var at := |stem| + |mark|;
      assert marked[at] == suffix[0] == '.';
      SuffixDots(name);
      forall i | at < i < |marked| ensures marked[i] != '.' {
        assert marked[i] == suffix[i - at];
      }
      RFindIs(marked, '.', at);
    } else {
      forall i | dot < i < |marked| ensures marked[i] != '.' {
        assert marked[i] == if i < |name| then name[i] else mark[i - |name|];
      }
      assert dot >= 0 ==> marked[dot] == name[dot];
      RFindIs(marked, '.', dot);
    }
  }

  /** A numbered name keeps the suffix of the name asked for, unless that name ends in a dot
      other than its first character. */
  lemma SuffixKeptExactly(p: Path, k: nat)
    requires k > 0
    ensures Suffix(Candidate(p, k).name) == Suffix(p.name)
            <==> !(|p.name| > 1 && p.name[|p.name| - 1] == '.')
  {
    var name, mark := p.name, Mark(k);
    MarkHasNoDot(k);
    MarkedDot(name, mark);
    hide Mark, Numeral, RFind;
    var marked := Stem(name) + mark + Suffix(name);
    assert Candidate(p, k).name == marked;
    if HasSuffix(name) {
      assert marked[|Stem(name)| + |mark|..] == Suffix(name);
    }
  }

  /** An upload; its file name is changed along with the path. */
  class UploadFile {
    var filename: Option<string>

    constructor (filename: Option<string>)
      ensures this.filename == filename
    {
      this.filename := filename;
    }
  }

  /** The name before numbering. `stamped` is the name made from the clock and the content type,
      for an upload that brings none. */
  function RequestedName(filename: Option<string>, stamped: string): string {
    if filename.None? then stamped else BaseName(filename.value)
  }

  /** `generate_file_path`, over the finite set of paths that exist; the directory itself exists
      once it has been made. The loop ends because the candidates are all different, so each one
      found taken is one existing path fewer. */
  method GenerateFilePath(dirpath: Path, file: UploadFile, stamped: string, existing: set<Path>)
    returns (newPath: Path, ghost k: nat)
    requires dirpath in existing
    modifies file
    ensures newPath == Candidate(Join(dirpath, RequestedName(old(file.filename), stamped)), k)
    ensures newPath !in existing
    ensures forall j | 0 <= j < k :: Candidate(Join(dirpath, RequestedName(old(file.filename), stamped)), j) in existing
    ensures file.filename == Some(newPath.name)
  {
    if file.filename.None? {
      file.filename := Some(stamped);
    } else {
      file.filename := Some(BaseName(file.filename.value));
    }
    ghost var requested := RequestedName(old(file.filename), stamped);
    var path := Join(dirpath, file.filename.value);
    var counter: nat := 1;
    newPath, k := path, 0;
    ghost var left := existing;
    while newPath in existing
      invariant newPath == Candidate(path, k) && counter == k + 1
      invariant path == Join(dirpath, requested)
      invariant file.filename == if k == 0 then Some(requested) else Some(newPath.name)
      invariant forall j | 0 <= j < k :: Candidate(path, j) in existing
      invariant left <= existing
      invariant forall j | j >= k :: Candidate(path, j) in existing ==> Candidate(path, j) in left
      decreases |left|
    {
      forall j | j > k ensures Candidate(path, j) != newPath {
        CandidatesDiffer(path, k, j);
      }
      left := left - {newPath};
      file.filename := Some(Stem(path.name) + Mark(counter) + Suffix(path.name));
      newPath := Path(path.parent, Stem(path.name) + Mark(counter) + Suffix(path.name));
      counter := counter + 1;
      k := k + 1;
    }
    assert k == 0 ==> requested != "";
  }

  /** Every component of the name is empty or a dot. */
  predicate IsBlankName(s: string) {
    && (forall i | 0 <= i < |s| :: s[i] == '/' || s[i] == '.')
    && (forall i | 0 < i < |s| :: s[i - 1] == '/' || s[i] == '/')
  }

  lemma BlankAroundSlash(s: string, i: nat)
    requires i < |s| && s[i] == '/'
    ensures IsBlankName(s) <==> IsBlankName(s[..i]) && IsBlankName(s[i + 1..])
  {
    var left, right := s[..i], s[i + 1..];
    if IsBlankName(left) && IsBlankName(right) {
      forall k | 0 <= k < |s| ensures s[k] == '/' || s[k] == '.' {
        assert s[k] == if k < i then left[k] else if k == i then '/' else right[k - i - 1];
      }
      forall k | 0 < k < |s| ensures s[k - 1] == '/' || s[k] == '/' {
        if k < i {
          assert s[k - 1] == left[k - 1] && s[k] == left[k];
        } else if k > i + 1 {
          assert s[k - 1] == right[k - i - 2] && s[k] == right[k - i - 1];
        }
      }
    }
  }

  lemma BlankComponent(tail: string)
    requires forall k | 0 <= k < |tail| :: tail[k] != '/'
    ensures IsBlankName(tail) <==> tail == "" || tail == "."
  {
    if |tail| > 1 {
      assert tail[0] != '/' && tail[1] != '/';
    }
  }

  lemma BlankBefore(s: string, i: nat, tail: string)
    requires i < |s| && s[i] == '/' && tail == s[i + 1..] && forall k | 0 <= k < |tail| :: tail[k] != '/'
    ensures IsBlankName(s) <==> (tail == "" || tail == ".") && IsBlankName(s[..i])
  {
    BlankAroundSlash(s, i);
    BlankComponent(tail);
  }

  lemma WithoutSlash(s: string)
    requires RFind(s, '/') == -1
    ensures BaseName(s) == "" <==> IsBlankName(s)
  {
    BlankComponent(s);
    hide IsBlankName;
    assert s[0..] == s;
  }

  lemma BaseNameAt(s: string, i: nat, tail: string)
    requires i == RFind(s, '/') && tail == s[i + 1..]
    ensures BaseName(s) == if tail != "" && tail != "." then tail else if i == 0 then "" else BaseName(s[..i])
    ensures s[i] == '/' && forall k | 0 <= k < |tail| :: tail[k] != '/'
  {
  }

  lemma WithSlash(s: string, i: nat)
    requires i == RFind(s, '/')
    requires i > 0 ==> (BaseName(s[..i]) == "" <==> IsBlankName(s[..i]))
    ensures BaseName(s) == "" <==> IsBlankName(s)
  {
    hide *;
    var tail := s[i + 1..];
    BaseNameAt(s, i, tail);
    BlankBefore(s, i, tail);
    if i == 0 {
      assert s[..i] == "";
      NothingIsBlank();
    }
  }

  lemma NothingIsBlank()
    ensures IsBlankName("")
  {
  }

  lemma {:induction false} NoBaseNameExactly(s: string)
    ensures BaseName(s) == "" <==> IsBlankName(s)
    decreases |s|
  {
    hide *;
    var i := RFind(s, '/');
    if i >= 0 {
      if i > 0 {
        NoBaseNameExactly(s[..i]);
      }
      WithSlash(s, i);
    } else {
      WithoutSlash(s);
    }
  }

  lemma PlaceOfCandidate(dirpath: Path, name: string, k: nat)
    ensures Candidate(Join(dirpath, name), k).parent == if name == "" then dirpath.parent else Components(dirpath)
  {
  }

  /** The chosen path lies directly in the directory, unless every component of the uploaded name
      is empty or a dot: then it lies beside the directory. */
  lemma LandsInDirectoryExactly(dirpath: Path, filename: Option<string>, stamped: string, k: nat)
    requires stamped != ""
    ensures var place := Candidate(Join(dirpath, RequestedName(filename, stamped)), k).parent;
      && (place == Components(dirpath) <==> filename.None? || !IsBlankName(filename.value))
      && (place != Components(dirpath) ==> place == dirpath.parent)
  {
    if filename.Some? {
      NoBaseNameExactly(filename.value);
    }
    PlaceOfCandidate(dirpath, RequestedName(filename, stamped), k);
    assert |Components(dirpath)| == |dirpath.parent| + 1;
  }

  /** An upload named "/" is stored beside the directory. */
  lemma SlashLandsBeside(dirpath: Path, stamped: string, k: nat)
    requires stamped != ""
    ensures BaseName("/") == ""
    ensures Candidate(Join(dirpath, RequestedName(Some("/"), stamped)), k).parent == dirpath.parent
  {
    NoBaseNameExactly("/");
    LandsInDirectoryExactly(dirpath, Some("/"), stamped, k);
    assert |Components(dirpath)| == |dirpath.parent| + 1;
  }

  lemma ExtensionIsSuffix(stem: string, extension: string)
    requires stem != "" && extension != "" && '.' !in extension
    ensures Stem(stem + "." + extension) == stem && Suffix(stem + "." + extension) == "." + extension
  {
    var name := stem + "." + extension;
    assert name[|stem|] == '.';
    assert forall i | |stem| < i < |name| :: name[i] == extension[i - |stem| - 1] && extension[i - |stem| - 1] in extension;
    RFindIs(name, '.', |stem|);
    hide RFind;
    assert name[..|stem|] == stem && name[|stem|..] == "." + extension;
  }

  lemma NoDotNoSuffix(name: string)
    requires '.' !in name
    ensures Stem(name) == name && Suffix(name) == ""
  {
    RFindIs(name, '.', -1);
  }

  /** Numbering puts the mark before the extension, or at the end of a name without one. */
  lemma NumberedName(parent: seq<string>, stem: string, extension: string, k: nat)
    requires k > 0 && stem != "" && extension != "" && '.' !in extension
    ensures Candidate(Path(parent, stem + "." + extension), k)
            == Path(parent, stem + ("_(" + Numeral(k) + ")") + ("." + extension))
    ensures '.' !in stem ==> Candidate(Path(parent, stem), k) == Path(parent, stem + ("_(" + Numeral(k) + ")"))
  {
    ExtensionIsSuffix(stem, extension);
    hide Numeral, Stem, Suffix;
    if '.' !in stem {
      NoDotNoSuffix(stem);
      assert stem + Mark(k) + "" == stem + Mark(k);
    }
  }
}
