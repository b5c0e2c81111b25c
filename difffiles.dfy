/**
  The live part of diffparser.py: the `Change` and `File` records, the
  `File` representation, and `get_files`, which turns the text printed by
  `svn diff` into one `File` per `Index: ` line.

  `get_files` as it stands extracts no revisions, builds no `Change` records
  and classifies nothing: every file it returns is of type "mod" with no
  changes.  The model keeps exactly that.
 */
module DiffFiles {
  import opened PyText

  /** The type tags of diffparser.py (TYPE_UNMODIFIED ... TYPE_MOVED). */
  datatype ChangeType = Unmodified | Added | Removed | Modified | Copied | Moved {
    function Tag(): string {
      match this
      case Unmodified => "unmod"
      case Added => "added"
      case Removed => "removed"
      case Modified => "mod"
      case Copied => "cp"
      case Moved => "mv"
    }
  }

  /** One line of diff content and its type. */
  datatype Change = Change(line: string, kind: ChangeType)

  /** One file of a diff; `changes` is a value of its own, never shared between files. */
  datatype File = File(kind: ChangeType, path: string, url: string, changes: seq<Change>)

  const INDEX: string := "Index: "

  /** `File.__repr__` (and `__str__`): "File <path> (<type>)". */
  function Repr(f: File): string {
    "File " + f.path + " (" + f.kind.Tag() + ")"
  }

  /** The closing part " (<type>)" of a representation. */
  function TagSuffix(t: ChangeType): string {
    " (" + t.Tag() + ")"
  }

  /** Reads a representation back: the path and the type it names. */
  function ParseRepr(s: string): Option<(string, ChangeType)> {
    if !StartsWith(s, "File ") then None
    else FindTag(s, [Unmodified, Added, Removed, Modified, Copied, Moved])
  }

  function FindTag(s: string, candidates: seq<ChangeType>): Option<(string, ChangeType)> {
    if candidates == [] then None
    else
      var t := candidates[0];
      var suffix := TagSuffix(t);
      if |s| >= 5 + |suffix| && EndsWith(s, suffix) then Some((s[5..|s| - |suffix|], t))
      else FindTag(s, candidates[1..])
  }

  /** Only the first character of a closing part is a space. */
  lemma SpaceOnlyFirst(t: ChangeType, k: nat)
    requires k < |TagSuffix(t)| && TagSuffix(t)[k] == ' '
    ensures k == 0
  {
    match t
    case Unmodified =>
    case Added =>
    case Removed =>
    case Modified =>
    case Copied =>
    case Moved =>
  }

  /** A closing part that ends another one is that one: the tags cannot be confused. */
  lemma {:induction false} SuffixDeterminesType(t: ChangeType, u: ChangeType)
    requires EndsWith(TagSuffix(t), TagSuffix(u))
    ensures t == u
  {
    var a, b := TagSuffix(t), TagSuffix(u);
    var d := |a| - |b|;
    assert a[d] == a[d..][0] == b[0] == ' ';
    SpaceOnlyFirst(t, d);
    assert a == b;
    assert t.Tag() == a[2..|a| - 1] == u.Tag();
  }

  lemma {:induction false} EndsWithBoth(s: string, a: string, b: string)
    requires EndsWith(s, a) && EndsWith(s, b) && |b| <= |a|
    ensures EndsWith(a, b)
  {
    assert a[|a| - |b|..] == s[|s| - |b|..];
  }

  /** The representation of a File ends in the closing part of its own type only. */
  lemma {:induction false} ReprTagSuffix(f: File, t: ChangeType)
    requires EndsWith(Repr(f), TagSuffix(t))
    ensures t == f.kind
  {
    var s := Repr(f);
    var own := TagSuffix(f.kind);
    assert s == "File " + f.path + own;
    assert EndsWith(s, own) by { assert s[|s| - |own|..] == own; }
    var other := TagSuffix(t);
    if |other| <= |own| {
      EndsWithBoth(s, own, other);
      SuffixDeterminesType(f.kind, t);
    } else {
      EndsWithBoth(s, other, own);
      SuffixDeterminesType(t, f.kind);
    }
  }

  lemma {:induction false} FindTagFinds(f: File, candidates: seq<ChangeType>)
    requires f.kind in candidates
    ensures FindTag(Repr(f), candidates) == Some((f.path, f.kind))
  {
    var s := Repr(f);
    var own := TagSuffix(f.kind);
    assert s == "File " + f.path + own;
    var t := candidates[0];
    if t == f.kind {
      assert s[|s| - |own|..] == own;
      assert s[5..|s| - |own|] == f.path;
    } else {
      if EndsWith(s, TagSuffix(t)) {
        ReprTagSuffix(f, t);
      }
      FindTagFinds(f, candidates[1..]);
    }
  }

  /** The representation names the path and the type unambiguously. */
  lemma ReprRoundTrip(f: File)
    ensures ParseRepr(Repr(f)) == Some((f.path, f.kind))
  {
    assert StartsWith(Repr(f), "File ");
    FindTagFinds(f, [Unmodified, Added, Removed, Modified, Copied, Moved]);
  }

  /** `base_url` with at most one trailing "/" removed. */
  function StripSlash(baseUrl: string): (r: string)
    ensures baseUrl == r || baseUrl == r + "/"
    ensures EndsWith(baseUrl, "/") <==> baseUrl == r + "/"
  {
    if EndsWith(baseUrl, "/") then baseUrl[..|baseUrl| - 1] else baseUrl
  }

  /** The record built for one "Index: <path>" line. */
  function FileFor(line: string, base: string): File
    requires StartsWith(line, INDEX)
  {
    var path := line[|INDEX|..];
    File(Modified, path, base + "/" + path, [])
  }

  /** What `get_files` has collected after the given lines, `base` already stripped. */
  function FilesOf(lines: seq<string>, base: string): seq<File> {
    if lines == [] then []
    else
      var last := lines[|lines| - 1];
      FilesOf(lines[..|lines| - 1], base) + (if StartsWith(last, INDEX) then [FileFor(last, base)] else [])
  }

  /** `get_files(diff, base_url)` */
  method GetFiles(diff: string, baseUrl: string) returns (files: seq<File>)
    ensures files == FilesOf(SplitLines(diff), StripSlash(baseUrl))
  {
    var base := baseUrl;
    if EndsWith(base, "/") {
      base := base[..|base| - 1];
    }
    var lines := SplitLines(diff);
    files := [];
    for i := 0 to |lines|
      invariant files == FilesOf(lines[..i], base)
    {
      var line := lines[i];
      assert lines[..i + 1][..i] == lines[..i];
      if StartsWith(line, INDEX) {
        var filePath := line[|INDEX|..];
        files := files + [File(Modified, filePath, base + "/" + filePath, [])];
      }
    }
    assert lines[..|lines|] == lines;
  }

  /** The positions of the "Index: " lines, in increasing order. */
  function IndexPositions(lines: seq<string>): seq<nat> {
    if lines == [] then []
    else
      var n := |lines| - 1;
      IndexPositions(lines[..n]) + (if StartsWith(lines[n], INDEX) then [n] else [])
  }

  predicate Increasing(ps: seq<nat>) {
    forall a, b :: 0 <= a < b < |ps| ==> ps[a] < ps[b]
  }

  /**
    IndexPositions lists every position whose line starts with "Index: ", and
    nothing else, in increasing order.
   */
  lemma {:induction false} IndexPositionsExact(lines: seq<string>)
    ensures Increasing(IndexPositions(lines))
    ensures forall k :: 0 <= k < |IndexPositions(lines)| ==> IndexPositions(lines)[k] < |lines|
    ensures forall j :: 0 <= j < |lines| ==> (StartsWith(lines[j], INDEX) <==> j in IndexPositions(lines))
  {
    if lines != [] {
      var n := |lines| - 1;
      var init := lines[..n];
      IndexPositionsExact(init);
      assert forall j :: 0 <= j < n ==> init[j] == lines[j];
    }
  }

  /**
    `get_files` yields exactly one File per "Index: " line, in input order:
    the k-th File is the one built from the k-th such line.
   */
  lemma {:induction false} FilesMatchIndexLines(lines: seq<string>, base: string)
    ensures |FilesOf(lines, base)| == |IndexPositions(lines)|
    ensures forall k :: 0 <= k < |IndexPositions(lines)| ==>
      IndexPositions(lines)[k] < |lines| &&
      StartsWith(lines[IndexPositions(lines)[k]], INDEX) &&
      FilesOf(lines, base)[k] == FileFor(lines[IndexPositions(lines)[k]], base)
  {
    if lines != [] {
      var n := |lines| - 1;
      var init := lines[..n];
      FilesMatchIndexLines(init, base);
      IndexPositionsExact(init);
      assert forall j :: 0 <= j < n ==> init[j] == lines[j];
    }
  }

  /** Collecting over two stretches of lines is collecting over each in turn. */
  lemma {:induction false} FilesOfAppend(a: seq<string>, b: seq<string>, base: string)
    ensures FilesOf(a + b, base) == FilesOf(a, base) + FilesOf(b, base)
    decreases |b|
  {
    if b == [] {
      assert a + b == a;
    } else {
      var n := |b| - 1;
      assert (a + b)[..|a + b| - 1] == a + b[..n];
      FilesOfAppend(a, b[..n], base);
    }
  }

  /**
    Every File of `get_files` is of type "mod", has no changes, takes its path
    from an "Index: " line without the 7-character prefix, and links to
    the stripped base URL, "/" and the path.
   */
  lemma {:induction false} FilesAreUnclassified(lines: seq<string>, base: string)
    ensures forall k :: 0 <= k < |FilesOf(lines, base)| ==>
      var f := FilesOf(lines, base)[k];
      && f.kind == Modified && f.changes == []
      && f.url == base + "/" + f.path
      && INDEX + f.path in lines
  {
    if lines != [] {
      var n := |lines| - 1;
      FilesAreUnclassified(lines[..n], base);
      var last := lines[n];
      if StartsWith(last, INDEX) {
        assert INDEX + last[|INDEX|..] == last;
      }
      assert forall l :: l in lines[..n] ==> l in lines;
    }
  }

  /** A line that does not start with "Index: " contributes nothing. */
  lemma OtherLinesIgnored(lines: seq<string>, line: string, base: string)
    requires !StartsWith(line, INDEX)
    ensures FilesOf(lines + [line], base) == FilesOf(lines, base)
  {
    assert (lines + [line])[..|lines|] == lines;
  }

  /** An empty diff has no files. */
  lemma EmptyDiff(baseUrl: string)
    ensures FilesOf(SplitLines(""), StripSlash(baseUrl)) == []
  {
  }

  /** Lines none of which starts with "Index: " yield no files. */
  lemma {:induction false} NoIndexLines(lines: seq<string>, base: string)
    requires forall j :: 0 <= j < |lines| ==> !StartsWith(lines[j], INDEX)
    ensures FilesOf(lines, base) == []
  {
    if lines != [] {
      NoIndexLines(lines[..|lines| - 1], base);
    }
  }

  lemma NotIndexLine(line: string)
    requires line == [] || line[0] != 'I'
    ensures !StartsWith(line, INDEX)
  {
    if |line| >= |INDEX| {
      assert line[..|INDEX|][0] == line[0];
    }
  }

  /** A single "Index: " line yields its own File. */
  lemma IndexLine(line: string, base: string)
    requires StartsWith(line, INDEX)
    ensures FilesOf([line], base) == [FileFor(line, base)]
  {
    assert [line][..0] == [];
  }

  /** The file of an index line: the path after "Index: " and its url under `base`. */
  lemma FileForIndex(path: string, base: string)
    ensures StartsWith(INDEX + path, INDEX)
    ensures FileFor(INDEX + path, base) == File(Modified, path, base + "/" + path, [])
  {
    assert (INDEX + path)[..|INDEX|] == INDEX && (INDEX + path)[|INDEX|..] == path;
  }
}
