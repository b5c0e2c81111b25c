/**
  The body of one hunk, as the parse of `_diff_to_hdf` reads it: which
  counter each line advances, where its text goes, when a new block
  starts, and that a hunk whose lines match the counts of its header is
  read exactly, with the base lines of its group being the context and
  removed lines in order, and its changed lines the context and added
  lines in order.
 */
module UnifiedDiffHunks {
  import opened PyText
  import opened UnifiedDiff

  /** The command of a hunk line: its first character, an empty line counting as context. */
  function Command(line: string): char {
    if line == [] then ' ' else line[0]
  }

  /** The text of a hunk line after its command. */
  function LineText(line: string): string {
    if line == [] then line else line[1..]
  }

  /** A context, removed or added line (an empty line is context). */
  predicate IsHunkLine(line: string) {
    Command(line) == ' ' || Command(line) == '+' || Command(line) == '-'
  }

  /** A "\" line, which belongs to the side of the last '+' or '-' line. */
  predicate IsNote(line: string) {
    line != [] && line[0] == '\\'
  }

  /** What a context, removed or added line gives the base side: its text, unless it is added. */
  function BaseText(line: string): seq<string> {
    if Command(line) != '+' then [LineText(line)] else []
  }

  /** What a context, removed or added line gives the changed side: its text, unless it is removed. */
  function ChangedText(line: string): seq<string> {
    if Command(line) != '-' then [LineText(line)] else []
  }

  /** The base-side texts of a run of hunk lines, in order. */
  function BaseTexts(run: seq<string>): seq<string>
    decreases |run|
  {
    if run == [] then [] else BaseTexts(run[..|run| - 1]) + BaseText(run[|run| - 1])
  }

  /** The changed-side texts of a run of hunk lines, in order. */
  function ChangedTexts(run: seq<string>): seq<string>
    decreases |run|
  {
    if run == [] then [] else ChangedTexts(run[..|run| - 1]) + ChangedText(run[|run| - 1])
  }

  /** The base lines of the blocks of a group, one block after the other. */
  function BaseLinesOf(g: seq<Block>): seq<string>
    decreases |g|
  {
    if g == [] then [] else BaseLinesOf(g[..|g| - 1]) + g[|g| - 1].baseLines
  }

  /** The changed lines of the blocks of a group, one block after the other. */
  function ChangedLinesOf(g: seq<Block>): seq<string>
    decreases |g|
  {
    if g == [] then [] else ChangedLinesOf(g[..|g| - 1]) + g[|g| - 1].changedLines
  }

  lemma TextsSnoc(run: seq<string>, line: string)
    ensures BaseTexts(run + [line]) == BaseTexts(run) + BaseText(line)
    ensures ChangedTexts(run + [line]) == ChangedTexts(run) + ChangedText(line)
  {
    assert (run + [line])[..|run|] == run;
  }

  lemma BaseSnoc(g: seq<Block>, b: Block)
    ensures BaseLinesOf(g + [b]) == BaseLinesOf(g) + b.baseLines
  {
    assert (g + [b])[..|g|] == g;
  }

  lemma ChangedSnoc(g: seq<Block>, b: Block)
    ensures ChangedLinesOf(g + [b]) == ChangedLinesOf(g) + b.changedLines
  {
    assert (g + [b])[..|g|] == g;
  }

  /**
    Where the parse stands inside a hunk: the closed blocks of the group,
    the open block (none before the hunk's first line), the two line
    counters, and the side of the last '+' or '-' line.
   */
  datatype Reading = Reading(closed: seq<Block>, open: Option<Block>, from: int, to: int, side: Option<Side>)

  /** The blocks of the group so far. */
  function Blocks(r: Reading): seq<Block> {
    Group(r.closed, r.open)
  }

  /** The parse at line `i` of a hunk whose counters end at `fromEnd` and `toEnd`, standing at `r`. */
  function At(lines: seq<string>, i: nat, file: FileDiff, r: Reading, fromEnd: int, toEnd: int, extra: bool,
              changes: seq<FileDiff>): Outcome
    requires i < |lines|
  {
    HunkLines(lines, i, file, r.closed, r.open, r.from, fromEnd, r.to, toEnd, extra, changes, r.side)
  }

  /**
    What one context, removed or added line of a hunk does, stated
    directly: it starts a new block exactly when it is the hunk's first
    line or its type (context or not) differs from the open block's; a new
    block is "unmod" exactly when the line is context, and starts at the
    current line numbers minus one.  The text goes to the base side unless
    the line is added and to the changed side unless it is removed, each
    counter advancing by the lines its side got; a '+' or '-' line sets the
    side a later "\" line goes to.
   */
  function Step(r: Reading, line: string): Reading {
    var c := Command(line);
    var starts := r.open.None? || (r.open.value.kind == Unmod) != (c == ' ');
    var block :=
      if starts then Block(if c == ' ' then Unmod else Mod, r.from - 1, BaseText(line), r.to - 1, ChangedText(line))
      else r.open.value.(baseLines := r.open.value.baseLines + BaseText(line),
                         changedLines := r.open.value.changedLines + ChangedText(line));
    Reading(if starts then Blocks(r) else r.closed, Some(block),
            r.from + |BaseText(line)|, r.to + |ChangedText(line)|,
            if c == '+' then Some(Changed) else if c == '-' then Some(Base) else r.side)
  }

  /** What the parse builds from one context, removed or added line is what `Step` gives. */
  lemma FeedStep(r: Reading, line: string)
    requires IsHunkLine(line)
    ensures var c := Command(line);
      var starts := r.open.None? || (r.open.value.kind == Unmod) != (c == ' ');
      var b := if starts then NewBlock(c == ' ', r.from, r.to) else r.open.value;
      var t := Feed(b, r.from, r.to, SidesOf(c, r.side).value, LineText(line));
      var s := Step(r, line);
      t.block == s.open.value && t.from == s.from && t.to == s.to
  {
    var c := Command(line);
    var starts := r.open.None? || (r.open.value.kind == Unmod) != (c == ' ');
    var b := if starts then NewBlock(c == ' ', r.from, r.to) else r.open.value;
    var s := Step(r, line);
    if c == ' ' {
      assert b.baseLines + [LineText(line)] == s.open.value.baseLines;
      assert b.changedLines + [LineText(line)] == s.open.value.changedLines;
    } else if c == '+' {
      assert b.changedLines + [LineText(line)] == s.open.value.changedLines;
      assert b.baseLines == s.open.value.baseLines;
    } else {
      assert b.baseLines + [LineText(line)] == s.open.value.baseLines;
      assert b.changedLines == s.open.value.changedLines;
    }
  }

  /** The parse reads one context, removed or added line of a hunk as `Step` says. */
  lemma HunkLineCounts(lines: seq<string>, i: nat, file: FileDiff, r: Reading, fromEnd: int, toEnd: int,
                       extra: bool, changes: seq<FileDiff>)
    requires i + 1 < |lines| && (r.from < fromEnd || r.to < toEnd || extra) && IsHunkLine(lines[i])
    ensures At(lines, i, file, r, fromEnd, toEnd, extra, changes)
         == At(lines, i + 1, file, Step(r, lines[i]), fromEnd, toEnd, IsNote(lines[i + 1]), changes)
  {
    var line := lines[i];
    var c := Command(line);
    var starts := r.open.None? || (r.open.value.kind == Unmod) != (c == ' ');
    var b := if starts then NewBlock(c == ' ', r.from, r.to) else r.open.value;
    var t := Feed(b, r.from, r.to, SidesOf(c, r.side).value, LineText(line));
    FeedStep(r, line);
    assert t.block == Step(r, line).open.value;
  }

  /**
    The last line of the input, a context, removed or added line met while
    a counter is short: the parse reads it as `Step` says, and the input
    ending there, the group built so far is added to the file and the parse
    is over.
   */
  lemma LastLine(lines: seq<string>, i: nat, file: FileDiff, r: Reading, fromEnd: int, toEnd: int,
                 extra: bool, changes: seq<FileDiff>)
    requires i + 1 == |lines| && (r.from < fromEnd || r.to < toEnd || extra) && IsHunkLine(lines[i])
    ensures At(lines, i, file, r, fromEnd, toEnd, extra, changes)
         == Parsed(changes + [WithGroup(file, Blocks(Step(r, lines[i])))])
  {
    var line := lines[i];
    var c := Command(line);
    var starts := r.open.None? || (r.open.value.kind == Unmod) != (c == ' ');
    var b := if starts then NewBlock(c == ' ', r.from, r.to) else r.open.value;
    var t := Feed(b, r.from, r.to, SidesOf(c, r.side).value, LineText(line));
    FeedStep(r, line);
    assert t.block == Step(r, line).open.value;
  }

  /** The "\" flag the parse holds at line `k` of a run that started at line `i` with flag `extra`. */
  function FlagAt(lines: seq<string>, i: nat, k: nat, extra: bool): bool
    requires k < |lines|
  {
    if k == i then extra else IsNote(lines[k])
  }

  /** Where a run of hunk lines leaves the parse: `Step` for each line in order. */
  function Run(r: Reading, run: seq<string>): Reading
    decreases |run|
  {
    if run == [] then r else Step(Run(r, run[..|run| - 1]), run[|run| - 1])
  }

  /** `Run` over lines `i` to `k` of `lines`. */
  function RunTo(r: Reading, lines: seq<string>, i: nat, k: nat): Reading
    requires i <= k <= |lines|
  {
    Run(r, lines[i..k])
  }

  /** Reading lines `i` to `j` is reading up to the last of them and then that one. */
  lemma RunLast(r: Reading, lines: seq<string>, i: nat, j: nat)
    requires i < j <= |lines|
    ensures RunTo(r, lines, i, j) == Step(RunTo(r, lines, i, j - 1), lines[j - 1])
  {
    assert lines[i..j][..j - 1 - i] == lines[i..j - 1];
  }

  /** Reading no lines leaves the parse where it was. */
  lemma RunFirst(r: Reading, lines: seq<string>, i: nat)
    requires i <= |lines|
    ensures RunTo(r, lines, i, i) == r
  {
    assert lines[i..i] == [];
  }

  /**
    Chaining a step property: when `f` at each line `k` of a run equals `f`
    at the next line, one line further into the run, `f` at the start of
    the run equals `f` after the whole run.
   */
  lemma {:induction false} Chain(f: (nat, Reading, bool) -> Outcome, lines: seq<string>, i: nat, j: nat,
                                 r: Reading, extra: bool)
    requires i < j < |lines|
    requires forall k :: i <= k < j ==>
      f(k, RunTo(r, lines, i, k), FlagAt(lines, i, k, extra))
      == f(k + 1, RunTo(r, lines, i, k + 1), IsNote(lines[k + 1]))
    ensures f(i, r, extra) == f(j, RunTo(r, lines, i, j), IsNote(lines[j]))
    decreases j - i
  {
    var k := j - 1;
    var now := f(k, RunTo(r, lines, i, k), FlagAt(lines, i, k, extra));
    assert now == f(j, RunTo(r, lines, i, j), IsNote(lines[j]));
    if k > i {
      Chain(f, lines, i, k, r, extra);
      assert FlagAt(lines, i, k, extra) == IsNote(lines[k]);
    } else {
      RunFirst(r, lines, i);
    }
  }

  /**
    A run of context, removed and added lines, each met while a counter is
    still short of its end: the parse reads them all, line by line as
    `Run` says, and stands after them at the next line.
   */
  lemma HunkRun(lines: seq<string>, i: nat, j: nat, file: FileDiff, r: Reading,
                fromEnd: int, toEnd: int, extra: bool, changes: seq<FileDiff>)
    requires i < j < |lines|
    requires forall k :: i <= k < j ==> IsHunkLine(lines[k])
    requires forall k :: i <= k < j ==> RunTo(r, lines, i, k).from < fromEnd || RunTo(r, lines, i, k).to < toEnd
    ensures At(lines, i, file, r, fromEnd, toEnd, extra, changes)
         == At(lines, j, file, RunTo(r, lines, i, j), fromEnd, toEnd, IsNote(lines[j]), changes)
  {
    var f := (k: nat, s: Reading, e: bool) =>
      if k < |lines| then At(lines, k, file, s, fromEnd, toEnd, e, changes) else Unparsable;
    forall k | i <= k < j
      ensures f(k, RunTo(r, lines, i, k), FlagAt(lines, i, k, extra))
           == f(k + 1, RunTo(r, lines, i, k + 1), IsNote(lines[k + 1]))
    {
      HunkLineCounts(lines, k, file, RunTo(r, lines, i, k), fromEnd, toEnd, FlagAt(lines, i, k, extra), changes);
      RunLast(r, lines, i, k + 1);
    }
    Chain(f, lines, i, j, r, extra);
  }

  /** After a run, each counter has advanced by the texts its side got. */
  lemma {:induction false} RunCounters(r: Reading, run: seq<string>)
    ensures Run(r, run).from == r.from + |BaseTexts(run)|
    ensures Run(r, run).to == r.to + |ChangedTexts(run)|
    decreases |run|
  {
    if run != [] {
      RunCounters(r, run[..|run| - 1]);
    }
  }

  /** A run adds, in order, the base-side texts of its lines after the base lines so far: none lost, none repeated. */
  lemma {:induction false} RunBaseLines(r: Reading, run: seq<string>)
    ensures BaseLinesOf(Blocks(Run(r, run))) == BaseLinesOf(Blocks(r)) + BaseTexts(run)
    decreases |run|
  {
    if run != [] {
      var before := run[..|run| - 1];
      RunBaseLines(r, before);
      StepBaseLines(Run(r, before), run[|run| - 1]);
    }
  }

  /** A run adds, in order, the changed-side texts of its lines after the changed lines so far. */
  lemma {:induction false} RunChangedLines(r: Reading, run: seq<string>)
    ensures ChangedLinesOf(Blocks(Run(r, run))) == ChangedLinesOf(Blocks(r)) + ChangedTexts(run)
    decreases |run|
  {
    if run != [] {
      var before := run[..|run| - 1];
      RunChangedLines(r, before);
      StepChangedLines(Run(r, before), run[|run| - 1]);
    }
  }

  /** One line adds its base-side text after the base lines of the blocks so far. */
  lemma StepBaseLines(r: Reading, line: string)
    ensures BaseLinesOf(Blocks(Step(r, line))) == BaseLinesOf(Blocks(r)) + BaseText(line)
  {
    var s := Step(r, line);
    BaseSnoc(s.closed, s.open.value);
    if s.closed == r.closed && r.open.Some? {
      BaseSnoc(r.closed, r.open.value);
      var x, y, z := BaseLinesOf(r.closed), r.open.value.baseLines, BaseText(line);
      assert x + (y + z) == (x + y) + z;
    }
  }

  /** One line adds its changed-side text after the changed lines of the blocks so far. */
  lemma StepChangedLines(r: Reading, line: string)
    ensures ChangedLinesOf(Blocks(Step(r, line))) == ChangedLinesOf(Blocks(r)) + ChangedText(line)
  {
    var s := Step(r, line);
    ChangedSnoc(s.closed, s.open.value);
    if s.closed == r.closed && r.open.Some? {
      ChangedSnoc(r.closed, r.open.value);
      var x, y, z := ChangedLinesOf(r.closed), r.open.value.changedLines, ChangedText(line);
      assert x + (y + z) == (x + y) + z;
    }
  }

  /** A later point of a run of hunk lines has advanced a counter further. */
  lemma {:induction false} RunGrows(run: seq<string>, m: nat, n: nat)
    requires m < n <= |run|
    requires forall k :: 0 <= k < |run| ==> IsHunkLine(run[k])
    ensures |BaseTexts(run[..m])| <= |BaseTexts(run[..n])| && |ChangedTexts(run[..m])| <= |ChangedTexts(run[..n])|
    ensures |BaseTexts(run[..m])| + |ChangedTexts(run[..m])| < |BaseTexts(run[..n])| + |ChangedTexts(run[..n])|
    decreases n - m
  {
    if n > m + 1 {
      RunGrows(run, m, n - 1);
    }
    assert run[..n] == run[..n - 1] + [run[n - 1]];
    TextsSnoc(run[..n - 1], run[n - 1]);
  }

  /** Before the end of a run of hunk lines, a counter is still short of what the whole run gives it. */
  lemma RunShort(run: seq<string>, m: nat)
    requires m < |run|
    requires forall k :: 0 <= k < |run| ==> IsHunkLine(run[k])
    ensures |BaseTexts(run[..m])| < |BaseTexts(run)| || |ChangedTexts(run[..m])| < |ChangedTexts(run)|
  {
    RunGrows(run, m, |run|);
    assert run[..|run|] == run;
  }

  /** Once both counters reach their ends and the line is not a "\" line, the hunk is over. */
  lemma HunkEnds(lines: seq<string>, i: nat, file: FileDiff, r: Reading, fromEnd: int, toEnd: int,
                 changes: seq<FileDiff>)
    requires i < |lines| && r.from >= fromEnd && r.to >= toEnd
    ensures At(lines, i, file, r, fromEnd, toEnd, false, changes)
         == Hunks(lines, i, WithGroup(file, Blocks(r)), changes, r.side)
  {
  }

  /** A prefix of a slice is a shorter slice. */
  lemma PrefixOfSlice(lines: seq<string>, i: nat, j: nat, k: nat)
    requires i <= k <= j <= |lines|
    ensures lines[i..j][..k - i] == lines[i..k]
  {
  }

  /** Inside a run of hunk lines that brings neither counter past its end, one of them is still short. */
  lemma RunShortTo(r: Reading, lines: seq<string>, i: nat, j: nat, fromEnd: int, toEnd: int)
    requires i < j <= |lines|
    requires forall k :: i <= k < j ==> IsHunkLine(lines[k])
    requires r.from + |BaseTexts(lines[i..j])| <= fromEnd && r.to + |ChangedTexts(lines[i..j])| <= toEnd
    ensures forall k :: i <= k < j ==> RunTo(r, lines, i, k).from < fromEnd || RunTo(r, lines, i, k).to < toEnd
  {
    var run := lines[i..j];
    forall k | i <= k < j
      ensures RunTo(r, lines, i, k).from < fromEnd || RunTo(r, lines, i, k).to < toEnd
    {
      RunShort(run, k - i);
      PrefixOfSlice(lines, i, j, k);
      RunCounters(r, lines[i..k]);
    }
  }

  /** Where the parse stands before the first line of a hunk with header `h`. */
  function HunkStart(h: HunkHeader, lastSide: Option<Side>): Reading {
    Reading([], None, h.oldStart, h.newStart, lastSide)
  }

  /** The counters a hunk header sets and the line the hunk starts on. */
  lemma EnterHunkAt(lines: seq<string>, i: nat, file: FileDiff, changes: seq<FileDiff>, side: Option<Side>,
                    h: HunkHeader)
    requires i + 1 < |lines| && lines[i] != [] && ParseHunkHeader(lines[i]) == Some(h)
    ensures Hunks(lines, i, file, changes, side)
         == At(lines, i + 1, file, HunkStart(h, side),
               h.oldStart + h.oldLen, h.newStart + h.newLen, false, changes)
  {
    EnterHunk(lines, i, file, changes, side);
    assert h.oldLen + h.oldStart == h.oldStart + h.oldLen && h.newLen + h.newStart == h.newStart + h.newLen;
  }

  /**
    Lines `i` to `j` of a hunk, all context, removed or added lines, that
    bring both counters exactly to their ends and are followed by a line
    that is not a "\" line: the parse reads them all and stands at line
    `j` with the "\" flag down.
   */
  lemma HunkBody(lines: seq<string>, i: nat, j: nat, file: FileDiff, r: Reading, fromEnd: int, toEnd: int,
                 changes: seq<FileDiff>)
    requires i < j < |lines| && !IsNote(lines[j])
    requires forall k :: i <= k < j ==> IsHunkLine(lines[k])
    requires r.from + |BaseTexts(lines[i..j])| == fromEnd && r.to + |ChangedTexts(lines[i..j])| == toEnd
    ensures RunTo(r, lines, i, j).from == fromEnd && RunTo(r, lines, i, j).to == toEnd
    ensures At(lines, i, file, r, fromEnd, toEnd, false, changes)
         == At(lines, j, file, RunTo(r, lines, i, j), fromEnd, toEnd, false, changes)
  {
    RunCounters(r, lines[i..j]);
    RunShortTo(r, lines, i, j, fromEnd, toEnd);
    HunkRun(lines, i, j, file, r, fromEnd, toEnd, false, changes);
    assert IsNote(lines[j]) == false;
  }

  /**
    From the first line of a hunk: lines that bring the counters exactly to
    their ends, followed by a line that is not a "\" line (when there are
    any), are read as `Run` says, and the group is added to the file.
   */
  lemma HunkRest(lines: seq<string>, first: nat, j: nat, file: FileDiff, r: Reading, fromEnd: int, toEnd: int,
                 changes: seq<FileDiff>)
    requires first <= j < |lines|
    requires forall k :: first <= k < j ==> IsHunkLine(lines[k])
    requires r.from + |BaseTexts(lines[first..j])| == fromEnd && r.to + |ChangedTexts(lines[first..j])| == toEnd
    requires j > first ==> !IsNote(lines[j])
    ensures var rj := RunTo(r, lines, first, j);
      At(lines, first, file, r, fromEnd, toEnd, false, changes) == Hunks(lines, j, WithGroup(file, Blocks(rj)), changes, rj.side)
  {
    var rj := RunTo(r, lines, first, j);
    if j > first {
      HunkBody(lines, first, j, file, r, fromEnd, toEnd, changes);
    } else {
      assert lines[first..j] == [];
      RunFirst(r, lines, first);
    }
    HunkEnds(lines, j, file, rj, fromEnd, toEnd, changes);
  }

  /**
    The lines of a hunk with header `h`, read from the line after the
    header: the parse goes on from the line after them with the group `Run`
    builds from those lines.
   */
  lemma HunkTail(lines: seq<string>, i: nat, j: nat, file: FileDiff, changes: seq<FileDiff>, lastSide: Option<Side>,
                 h: HunkHeader)
    requires i < j < |lines|
    requires forall k :: i < k < j ==> IsHunkLine(lines[k])
    requires |BaseTexts(lines[i + 1..j])| == h.oldLen && |ChangedTexts(lines[i + 1..j])| == h.newLen
    requires j > i + 1 ==> !IsNote(lines[j])
    ensures var rj := RunTo(HunkStart(h, lastSide), lines, i + 1, j);
      At(lines, i + 1, file, HunkStart(h, lastSide), h.oldStart + h.oldLen, h.newStart + h.newLen, false, changes)
      == Hunks(lines, j, WithGroup(file, Blocks(rj)), changes, rj.side)
  {
    HunkRest(lines, i + 1, j, file, HunkStart(h, lastSide), h.oldStart + h.oldLen, h.newStart + h.newLen, changes);
  }

  /**
    The parse of a hunk whose lines match the lengths of its header `h`
    reads them all and goes on from the line after them, with the group
    `Run` builds from those lines.
   */
  lemma HunkReads(lines: seq<string>, i: nat, j: nat, file: FileDiff, changes: seq<FileDiff>, lastSide: Option<Side>,
                  h: HunkHeader)
    requires i < j < |lines| && lines[i] != [] && ParseHunkHeader(lines[i]) == Some(h)
    requires forall k :: i < k < j ==> IsHunkLine(lines[k])
    requires |BaseTexts(lines[i + 1..j])| == h.oldLen && |ChangedTexts(lines[i + 1..j])| == h.newLen
    requires j > i + 1 ==> !IsNote(lines[j])
    ensures var rj := RunTo(HunkStart(h, lastSide), lines, i + 1, j);
      Hunks(lines, i, file, changes, lastSide) == Hunks(lines, j, WithGroup(file, Blocks(rj)), changes, rj.side)
  {
    EnterHunkAt(lines, i, file, changes, lastSide, h);
    HunkTail(lines, i, j, file, changes, lastSide, h);
  }

  /**
    A hunk is read line for line as its header announces: when the
    context, removed and added lines after the header give the base side
    as many lines as the header's first length and the changed side as
    many as its second, and the line after them is not a "\" line, the
    parse takes exactly those lines into one new group and goes on with the
    next hunk from the line after them.  The group's base lines are the
    texts of the context and removed lines, its changed lines those of the
    context and added lines, each in input order: no line is lost, none
    is repeated.
   */
  lemma WholeHunk(lines: seq<string>, i: nat, j: nat, file: FileDiff, changes: seq<FileDiff>, lastSide: Option<Side>)
    returns (group: seq<Block>, side: Option<Side>)
    requires i < j < |lines| && lines[i] != [] && ParseHunkHeader(lines[i]).Some?
    requires forall k :: i < k < j ==> IsHunkLine(lines[k])
    requires |BaseTexts(lines[i + 1..j])| == ParseHunkHeader(lines[i]).value.oldLen
    requires |ChangedTexts(lines[i + 1..j])| == ParseHunkHeader(lines[i]).value.newLen
    requires j > i + 1 ==> !IsNote(lines[j])
    ensures Hunks(lines, i, file, changes, lastSide) == Hunks(lines, j, WithGroup(file, group), changes, side)
    ensures BaseLinesOf(group) == BaseTexts(lines[i + 1..j])
    ensures ChangedLinesOf(group) == ChangedTexts(lines[i + 1..j])
  {
    var h := ParseHunkHeader(lines[i]).value;
    var r0 := HunkStart(h, lastSide);
    var rj := RunTo(r0, lines, i + 1, j);
    HunkReads(lines, i, j, file, changes, lastSide, h);
    RunBaseLines(r0, lines[i + 1..j]);
    RunChangedLines(r0, lines[i + 1..j]);
    group, side := Blocks(rj), rj.side;
  }

  /** `LastLine` at the end of a run that started at line `first`. */
  lemma LastLineAt(lines: seq<string>, first: nat, m: nat, file: FileDiff, r: Reading, fromEnd: int, toEnd: int,
                   extra: bool, changes: seq<FileDiff>)
    requires first <= m && m + 1 == |lines| && IsHunkLine(lines[m])
    requires RunTo(r, lines, first, m).from < fromEnd || RunTo(r, lines, first, m).to < toEnd
    ensures At(lines, m, file, RunTo(r, lines, first, m), fromEnd, toEnd, extra, changes)
         == Parsed(changes + [WithGroup(file, Blocks(RunTo(r, lines, first, m + 1)))])
  {
    LastLine(lines, m, file, RunTo(r, lines, first, m), fromEnd, toEnd, extra, changes);
    RunLast(r, lines, first, m + 1);
  }

  /**
    A run of context, removed and added lines that ends the input, each
    met while a counter is short: the parse reads them all and ends with
    the group `Run` builds from them added to the file.
   */
  lemma LastRun(lines: seq<string>, first: nat, m: nat, file: FileDiff, r: Reading, fromEnd: int, toEnd: int,
                changes: seq<FileDiff>)
    requires first < m < |lines|
    requires forall k :: first <= k < m ==> IsHunkLine(lines[k])
    requires forall k :: first <= k < m ==> RunTo(r, lines, first, k).from < fromEnd || RunTo(r, lines, first, k).to < toEnd
    requires m + 1 == |lines| && IsHunkLine(lines[m])
    requires RunTo(r, lines, first, m).from < fromEnd || RunTo(r, lines, first, m).to < toEnd
    ensures At(lines, first, file, r, fromEnd, toEnd, false, changes)
         == Parsed(changes + [WithGroup(file, Blocks(RunTo(r, lines, first, m + 1)))])
  {
    HunkRun(lines, first, m, file, r, fromEnd, toEnd, false, changes);
    LastLineAt(lines, first, m, file, r, fromEnd, toEnd, IsNote(lines[m]), changes);
  }

  /**
    The lines of a hunk that ends the input, from its first line: context,
    removed and added lines that bring neither counter past its end are
    read as `Run` says, and when the input runs out the group is added to
    the file and the parse is over.
   */
  lemma LastRest(lines: seq<string>, first: nat, j: nat, file: FileDiff, r: Reading, fromEnd: int, toEnd: int,
                 changes: seq<FileDiff>)
    requires first < j == |lines|
    requires forall k :: first <= k < j ==> IsHunkLine(lines[k])
    requires r.from + |BaseTexts(lines[first..j])| <= fromEnd && r.to + |ChangedTexts(lines[first..j])| <= toEnd
    ensures At(lines, first, file, r, fromEnd, toEnd, false, changes)
         == Parsed(changes + [WithGroup(file, Blocks(RunTo(r, lines, first, j)))])
  {
    var m := j - 1;
    RunShortTo(r, lines, first, j, fromEnd, toEnd);
    if m > first {
      LastRun(lines, first, m, file, r, fromEnd, toEnd, changes);
    } else {
      RunFirst(r, lines, first);
      LastLineAt(lines, first, m, file, r, fromEnd, toEnd, false, changes);
    }
  }

  /**
    The lines of a hunk with header `h` that ends the input, read from the
    line after the header: the parse ends with the group `Run` builds from
    those lines added to the file.
   */
  lemma LastTail(lines: seq<string>, i: nat, j: nat, file: FileDiff, changes: seq<FileDiff>, lastSide: Option<Side>,
                 h: HunkHeader)
    requires i + 1 < j == |lines|
    requires forall k :: i < k < j ==> IsHunkLine(lines[k])
    requires |BaseTexts(lines[i + 1..j])| <= h.oldLen && |ChangedTexts(lines[i + 1..j])| <= h.newLen
    ensures At(lines, i + 1, file, HunkStart(h, lastSide), h.oldStart + h.oldLen, h.newStart + h.newLen, false, changes)
         == Parsed(changes + [WithGroup(file, Blocks(RunTo(HunkStart(h, lastSide), lines, i + 1, j)))])
  {
    LastRest(lines, i + 1, j, file, HunkStart(h, lastSide), h.oldStart + h.oldLen, h.newStart + h.newLen, changes);
  }

  /**
    The parse of a hunk with header `h` that ends the input, its lines
    bringing neither counter past the header's lengths, ends with the group
    `Run` builds from those lines added to the file.
   */
  lemma LastReads(lines: seq<string>, i: nat, j: nat, file: FileDiff, changes: seq<FileDiff>, lastSide: Option<Side>,
                  h: HunkHeader)
    requires i < j == |lines| && lines[i] != [] && ParseHunkHeader(lines[i]) == Some(h)
    requires forall k :: i < k < j ==> IsHunkLine(lines[k])
    requires |BaseTexts(lines[i + 1..j])| <= h.oldLen && |ChangedTexts(lines[i + 1..j])| <= h.newLen
    ensures Hunks(lines, i, file, changes, lastSide)
         == Parsed(changes + [WithGroup(file, Blocks(RunTo(HunkStart(h, lastSide), lines, i + 1, j)))])
  {
    if j == i + 1 {
      RunFirst(HunkStart(h, lastSide), lines, i + 1);
    } else {
      EnterHunkAt(lines, i, file, changes, lastSide, h);
      LastTail(lines, i, j, file, changes, lastSide, h);
    }
  }

  /**
    A hunk that ends the input is kept: when the context, removed and added
    lines after its header give neither side more lines than the header's
    lengths (fewer when the input is cut short), the parse ends there with
    those lines taken into one new group of the file.  The group's base
    lines are the texts of the context and removed lines, its changed lines
    those of the context and added lines, each in input order.
   */
  lemma LastHunk(lines: seq<string>, i: nat, j: nat, file: FileDiff, changes: seq<FileDiff>, lastSide: Option<Side>)
    returns (group: seq<Block>)
    requires i < j == |lines| && lines[i] != [] && ParseHunkHeader(lines[i]).Some?
    requires forall k :: i < k < j ==> IsHunkLine(lines[k])
    requires |BaseTexts(lines[i + 1..j])| <= ParseHunkHeader(lines[i]).value.oldLen
    requires |ChangedTexts(lines[i + 1..j])| <= ParseHunkHeader(lines[i]).value.newLen
    ensures Hunks(lines, i, file, changes, lastSide) == Parsed(changes + [WithGroup(file, group)])
    ensures BaseLinesOf(group) == BaseTexts(lines[i + 1..j])
    ensures ChangedLinesOf(group) == ChangedTexts(lines[i + 1..j])
  {
    var h := ParseHunkHeader(lines[i]).value;
    var r0 := HunkStart(h, lastSide);
    LastReads(lines, i, j, file, changes, lastSide, h);
    RunBaseLines(r0, lines[i + 1..j]);
    RunChangedLines(r0, lines[i + 1..j]);
    group := Blocks(RunTo(r0, lines, i + 1, j));
  }
}
