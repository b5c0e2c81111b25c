/**
  The parsing core of `_diff_to_hdf` in diffparser.py: it reads the lines of
  a unified diff (as printed by `svn diff`) and builds, per file, the
  comment lines that precede it, the two "---"/"+++" header lines, and the
  hunk groups, each a list of blocks; a block is a run of context lines
  ("unmod") or a run of removed and added lines ("mod").  A second pass
  re-types each "mod" block whose base side is empty as "add" and whose
  changed side is empty as "rem".

  The source reads the lines through an iterator and gives up at the first
  `StopIteration`, keeping what it has built so far.  Here the iterator is
  an index into the sequence of lines, and every place where the source
  asks for the next line checks for the end of the input.  The source also
  hands out the group and block objects before it fills them; the model
  keeps the file, the group and the blocks being filled in local variables
  and puts them in place at every exit, which yields the same values.
 */
module UnifiedDiff {
  import opened PyText

  /** Which side of a block a diff line belongs to ('base' / 'changed'). */
  datatype Side = Base | Changed

  /** The block types: "unmod", "mod", and after re-typing "add" and "rem". */
  datatype BlockKind = Unmod | Mod | Add | Rem

  /** A block: its type and, per side, the offset of its first line and its lines. */
  datatype Block = Block(kind: BlockKind, baseOffset: int, baseLines: seq<string>,
                         changedOffset: int, changedLines: seq<string>)

  /**
    What a "---" or "+++" line says: the file name (the second word, the one
    the source hands to its display-name heuristic) and the revision text
    (everything after the first word, words joined by one space).
   */
  datatype Revision = Revision(path: string, rev: string)

  /** One file of the diff: its comments, its two header lines, its hunk groups. */
  datatype FileDiff = FileDiff(comments: string, base: Revision, changed: Revision, diffs: seq<seq<Block>>)

  /**
    The three ways `_diff_to_hdf` ends: with the list of files, with `None`
    because the diff cannot be parsed, or with an exception (see Files).
   */
  datatype Outcome = Parsed(changes: seq<FileDiff>) | Unparsable | Raised

  /** The four numbers of "@@ -a,b +c,d @@". */
  datatype HunkHeader = HunkHeader(oldStart: nat, oldLen: nat, newStart: nat, newLen: nat)

  const INDEX: string := "Index: "
  const BASE_MARK: string := "--- "
  const CHANGED_MARK: string := "+++ "

  /** `line == '=' * 67`: the rule `svn diff` prints under every "Index: " line. */
  predicate IsRule(line: string) {
    |line| == 67 && forall i :: 0 <= i < |line| ==> line[i] == '='
  }

  lemma IsRuleRepeat(line: string)
    ensures IsRule(line) <==> line == Repeat('=', 67)
  {
  }

  // ---------------------------------------------------------------------
  // hunk headers: "@@ -", a start and an optional comma and length for the
  // old side, " +", the same for the new side, then " @@"; read from the
  // start of the line, with whatever follows left alone

  /** A number read from a line, and the position just after it. */
  datatype Number = Number(value: nat, end: nat)

  /** The run of digits of `s` from position `p` on: its value, read onto `acc`, and where it ends. */
  function NumberAt(s: string, p: nat, acc: nat): (r: Number)
    requires p <= |s|
    ensures p <= r.end <= |s|
    decreases |s| - p
  {
    if p < |s| && IsDigit(s[p]) then NumberAt(s, p + 1, 10 * acc + DigitValue(s[p])) else Number(acc, p)
  }

  /** `(?:,(\d+))?` at position `p`: the length (1 when absent) and where it ends. */
  function LengthAt(s: string, p: nat): (r: Number)
    requires p <= |s|
    ensures p <= r.end <= |s|
  {
    if p < |s| && s[p] == ',' && NumberAt(s, p + 1, 0).end > p + 1 then NumberAt(s, p + 1, 0)
    else Number(1, p)
  }

  /** The four numbers of a hunk header, a missing length being 1 (`int(x or 1)`). */
  function ParseHunkHeader(line: string): Option<HunkHeader> {
    if !StartsWith(line, "@@ -") then None
    else
      var oldStart := NumberAt(line, 4, 0);
      if oldStart.end == 4 then None
      else
        var oldLen := LengthAt(line, oldStart.end);
        if !MarkAt(line, oldLen.end, " +") then None
        else
          var newStart := NumberAt(line, oldLen.end + 2, 0);
          if newStart.end == oldLen.end + 2 then None
          else
            var newLen := LengthAt(line, newStart.end);
            if !MarkAt(line, newLen.end, " @@") then None
            else Some(HunkHeader(oldStart.value, oldLen.value, newStart.value, newLen.value))
  }

  // ---------------------------------------------------------------------
  // the parse, as functions

  /** The file name and revision text of `line.split(None, 2)`. */
  function RevisionOf(info: seq<string>): Revision {
    if |info| > 1 then Revision(info[1], Join(" ", info[1..])) else Revision("", "")
  }

  /** The block started when the line type changes, at the current line numbers minus one. */
  function NewBlock(context: bool, from: int, to: int): Block {
    Block(if context then Unmod else Mod, from - 1, [], to - 1, [])
  }

  /** Appends `text` to one side of a block. */
  function AddLine(b: Block, side: Side, text: string): Block {
    if side == Base then b.(baseLines := b.baseLines + [text]) else b.(changedLines := b.changedLines + [text])
  }

  /** The blocks of a group so far: the closed ones, then the open one if there is one. */
  function Group(closed: seq<Block>, open: Option<Block>): seq<Block> {
    if open.Some? then closed + [open.value] else closed
  }

  /** The sides a line goes to, after its command character; None makes the parse fail. */
  function SidesOf(command: char, lastSide: Option<Side>): (r: Option<seq<Side>>)
    ensures r.Some? <==> command == ' ' || command == '+' || command == '-' || (command == '\\' && lastSide.Some?)
    ensures r.Some? ==> 0 < |r.value| <= 2 && (|r.value| == 2 ==> r.value[0] != r.value[1])
    ensures r.Some? ==>
      (Base in r.value <==> command == ' ' || command == '-' || (command == '\\' && lastSide == Some(Base)))
    ensures r.Some? ==>
      (Changed in r.value <==> command == ' ' || command == '+' || (command == '\\' && lastSide == Some(Changed)))
  {
    if command == ' ' then Some([Base, Changed])
    else if command == '+' then Some([Changed])
    else if command == '-' then Some([Base])
    else if command == '\\' && lastSide.Some? then Some([lastSide.value])
    else None
  }

  /** The open block and the two line counters. */
  datatype Tally = Tally(block: Block, from: int, to: int)

  /** One pass of `for side in sides`: the line goes to `side`, whose counter goes up by one. */
  function FeedOne(t: Tally, side: Side, text: string): Tally {
    Tally(AddLine(t.block, side, text),
          if side == Base then t.from + 1 else t.from,
          if side == Changed then t.to + 1 else t.to)
  }

  /** `for side in sides`, for the one or two sides a line can go to. */
  function Feed(block: Block, from: int, to: int, sides: seq<Side>, text: string): Tally
    requires |sides| <= 2
  {
    var t0 := Tally(block, from, to);
    var t1 := if |sides| > 0 then FeedOne(t0, sides[0], text) else t0;
    if |sides| > 1 then FeedOne(t1, sides[1], text) else t1
  }

  /** `file` with one more group of blocks. */
  function WithGroup(file: FileDiff, group: seq<Block>): FileDiff {
    file.(diffs := file.diffs + [group])
  }

  // The parse is written as three functions, one per loop of the source;
  // each stands at line `i` and also carries the files `changes` finished so
  // far and `lastSide`, the side of the last "+" or "-" line of the whole
  // call.  The source never binds `last_side` before such a line, so a "\"
  // line ahead of every "+" and "-" line raises an exception (Raised).  The
  // input running out (`StopIteration`) keeps everything built so far, the
  // unfinished file and group included.

  /**
    The outer loop: lines before a "---" line are comments (except
    "Index: " lines and the rule); a "---" line must be followed by a "+++"
    line, and the two open a new file.
   */
  function Files(lines: seq<string>, i: nat, comments: seq<string>, changes: seq<FileDiff>,
                 lastSide: Option<Side>): Outcome
    requires i < |lines|
    decreases |lines| - i, 0
  {
    var line := lines[i];
    if !StartsWith(line, BASE_MARK) then
      var comments' := if !StartsWith(line, INDEX) && !IsRule(line) then comments + [line] else comments;
      if i + 1 == |lines| then Parsed(changes)
      else Files(lines, i + 1, comments', changes, lastSide)
    else if i + 1 == |lines| then Parsed(changes)
    else if !StartsWith(lines[i + 1], CHANGED_MARK) then Unparsable
    else
      var file := FileDiff(Join("\n", comments), RevisionOf(SplitWords(line, 2)),
                           RevisionOf(SplitWords(lines[i + 1], 2)), []);
      if i + 2 == |lines| then Parsed(changes + [file])
      else Hunks(lines, i + 2, file, changes, lastSide)
  }

  /**
    The loop over the hunks of `file`: a hunk header opens a new group; any
    other line (an empty one included) ends the file, and the outer loop
    goes on from that line.
   */
  function Hunks(lines: seq<string>, i: nat, file: FileDiff, changes: seq<FileDiff>,
                 lastSide: Option<Side>): Outcome
    requires i < |lines|
    decreases |lines| - i, 1
  {
    var line := lines[i];
    var header := if line == [] then None else ParseHunkHeader(line);
    if header.None? then Files(lines, i, [], changes + [file], lastSide)
    else
      var h := header.value;
      if i + 1 == |lines| then Parsed(changes + [WithGroup(file, [])])
      else HunkLines(lines, i + 1, file, [], None, h.oldStart, h.oldLen + h.oldStart,
                     h.newStart, h.newLen + h.newStart, false, changes, lastSide)
  }

  /**
    The loop over the lines of a hunk, while a counter is short of its end
    or the line is a "\" line.  The group built so far is
    `Group(closed, open)`: the source appends each line to the last block
    of the group, kept apart here as `open`; a line whose type (context or
    not) differs from the open block's, or the first line, opens a new one.
   */
  function HunkLines(lines: seq<string>, i: nat, file: FileDiff, closed: seq<Block>, open: Option<Block>,
                     from: int, fromEnd: int, to: int, toEnd: int, extra: bool,
                     changes: seq<FileDiff>, lastSide: Option<Side>): Outcome
    requires i < |lines|
    decreases |lines| - i, 2
  {
    if !(from < fromEnd || to < toEnd || extra) then
      Hunks(lines, i, WithGroup(file, Group(closed, open)), changes, lastSide)
    else
      var line := lines[i];
      var command := if line == [] then ' ' else line[0];
      var text := if line == [] then line else line[1..];
      var context := command == ' ';
      var starts := open.None? || (open.value.kind == Unmod) != context;
      var closed' := if starts then Group(closed, open) else closed;
      var block := if starts then NewBlock(context, from, to) else open.value;
      match SidesOf(command, lastSide)
      case None => if command == '\\' then Raised else Unparsable
      case Some(sides) =>
        var lastSide' := if command == '+' then Some(Changed) else if command == '-' then Some(Base) else lastSide;
        var t := Feed(block, from, to, sides, text);
        if i + 1 == |lines| then Parsed(changes + [WithGroup(file, closed' + [t.block])])
        else
          var next := lines[i + 1];
          HunkLines(lines, i + 1, file, closed', Some(t.block), t.from, fromEnd, t.to, toEnd,
                    next != [] && next[0] == '\\', changes, lastSide')
  }

  /** The parse before re-typing; no lines at all give no files. */
  function Parse(lines: seq<string>): Outcome {
    if lines == [] then Parsed([]) else Files(lines, 0, [], [], None)
  }

  // ---------------------------------------------------------------------
  // re-typing the "mod" blocks

  /** A "mod" block with no base lines is "add", one with no changed lines is "rem". */
  function Retyped(b: Block): Block {
    if b.kind == Mod && |b.baseLines| == 0 then b.(kind := Add)
    else if b.kind == Mod && |b.changedLines| == 0 then b.(kind := Rem)
    else b
  }

  /** Every block of every group of every file re-typed, all else kept. */
  ghost predicate RetypedFrom(r: seq<FileDiff>, changes: seq<FileDiff>) {
    && |r| == |changes|
    && (forall i :: 0 <= i < |r| ==> r[i] == changes[i].(diffs := r[i].diffs))
    && (forall i :: 0 <= i < |r| ==> |r[i].diffs| == |changes[i].diffs|)
    && (forall i, g :: 0 <= i < |r| && 0 <= g < |r[i].diffs| ==> |r[i].diffs[g]| == |changes[i].diffs[g]|)
    && (forall i, g, b :: 0 <= i < |r| && 0 <= g < |r[i].diffs| && 0 <= b < |r[i].diffs[g]| ==>
          r[i].diffs[g][b] == Retyped(changes[i].diffs[g][b]))
  }

  /** The result of `_diff_to_hdf`: the parse, with blocks re-typed when it succeeds. */
  ghost function DiffToHdfSpec(lines: seq<string>): Outcome {
    match Parse(lines)
    case Parsed(changes) => Parsed(RetypeAll(changes))
    case other => other
  }

  function RetypeGroup(group: seq<Block>): (r: seq<Block>)
    ensures |r| == |group| && forall b :: 0 <= b < |r| ==> r[b] == Retyped(group[b])
  {
    seq(|group|, b requires 0 <= b < |group| => Retyped(group[b]))
  }

  function RetypeAll(changes: seq<FileDiff>): (r: seq<FileDiff>)
    ensures RetypedFrom(r, changes)
  {
    seq(|changes|, i requires 0 <= i < |changes| =>
      changes[i].(diffs := seq(|changes[i].diffs|, g requires 0 <= g < |changes[i].diffs| =>
        RetypeGroup(changes[i].diffs[g]))))
  }

  /** The loops over files, groups and blocks that re-type the blocks. */
  method MarkBlockTypes(changes: seq<FileDiff>) returns (r: seq<FileDiff>)
    ensures RetypedFrom(r, changes)
  {
    r := [];
    for i := 0 to |changes|
      invariant |r| == i
      invariant forall i' :: 0 <= i' < i ==> r[i'] == changes[i'].(diffs := RetypeAll(changes)[i'].diffs)
    {
      var o := changes[i];
      var groups: seq<seq<Block>> := [];
      for g := 0 to |o.diffs|
        invariant |groups| == g
        invariant forall g' :: 0 <= g' < g ==> groups[g'] == RetypeGroup(o.diffs[g'])
      {
        var group := o.diffs[g];
        var blocks: seq<Block> := [];
        for b := 0 to |group|
          invariant |blocks| == b
          invariant forall b' :: 0 <= b' < b ==> blocks[b'] == Retyped(group[b'])
        {
          var block := group[b];
          if block.kind == Mod {
            if |block.baseLines| == 0 {
              block := block.(kind := Add);
            } else if |block.changedLines| == 0 {
              block := block.(kind := Rem);
            }
          }
          blocks := blocks + [block];
        }
        assert blocks == RetypeGroup(group);
        groups := groups + [blocks];
      }
      assert groups == RetypeAll(changes)[i].diffs;
      r := r + [o.(diffs := groups)];
    }
    assert r == RetypeAll(changes);
  }

  // ---------------------------------------------------------------------
  // the parse, as the source writes it

  /**
    Where a loop of the parse hands over to the loop around it: at line
    `next`, with the file built so far and the side of the last "+" or "-"
    line; or with the parse decided (the input ran out, or it failed).
   */
  datatype Handover =
    | Resume(next: nat, file: FileDiff, lastSide: Option<Side>)
    | Decided(outcome: Outcome)

  /** `_diff_to_hdf(difflines, tabwidth)`, up to the HTML conversion of the lines. */
  method DiffToHdf(lines: seq<string>) returns (r: Outcome)
    ensures r == DiffToHdfSpec(lines)
  {
    if |lines| == 0 {
      // the first `lines.next()` stops the iteration at once
      return Parsed([]);
    }
    ghost var goal := Parse(lines);
    var comments: seq<string> := [];
    var changes: seq<FileDiff> := [];
    var lastSide: Option<Side> := None;
    var parsed: seq<FileDiff>;
    var i := 0;
    while true
      invariant i < |lines|
      invariant Files(lines, i, comments, changes, lastSide) == goal
      decreases |lines| - i
    {
      var line := lines[i];
      if !StartsWith(line, BASE_MARK) {
        if !StartsWith(line, INDEX) && !IsRule(line) {
          comments := comments + [line];
        }
        if i + 1 == |lines| {
          parsed := changes;
          break;
        }
        i := i + 1;
        continue;
      }
      var oldInfo := SplitWords(line, 2);
      if i + 1 == |lines| {
        parsed := changes;
        break;
      }
      i := i + 1;
      line := lines[i];
      if !StartsWith(line, CHANGED_MARK) {
        return Unparsable;
      }
      var newInfo := SplitWords(line, 2);
      var file := FileDiff(Join("\n", comments), RevisionOf(oldInfo), RevisionOf(newInfo), []);
      comments := [];
      if i + 1 == |lines| {
        parsed := changes + [file];
        break;
      }
      var hunks := ReadHunks(lines, i + 1, file, changes, lastSide);
      if hunks.Decided? {
        if hunks.outcome.Parsed? {
          parsed := hunks.outcome.changes;
          break;
        }
        return hunks.outcome;
      }
      i, changes, lastSide := hunks.next, changes + [hunks.file], hunks.lastSide;
    }
    var marked := MarkBlockTypes(parsed);
    assert marked == RetypeAll(parsed) by {
      RetypedUnique(marked, RetypeAll(parsed), parsed);
    }
    r := Parsed(marked);
  }

  /**
    The loop over the hunks of file `file`, from line `j` on: it ends at the
    first line that is not a hunk header, where the outer loop goes on.
   */
  method ReadHunks(lines: seq<string>, j: nat, file: FileDiff, changes: seq<FileDiff>,
                   side: Option<Side>) returns (e: Handover)
    requires j < |lines|
    ensures e.Decided? ==> e.outcome == Hunks(lines, j, file, changes, side)
    ensures e.Resume? ==> j <= e.next < |lines|
    ensures e.Resume? ==>
      Files(lines, e.next, [], changes + [e.file], e.lastSide) == Hunks(lines, j, file, changes, side)
  {
    ghost var goal := Hunks(lines, j, file, changes, side);
    var i, fd, lastSide := j, file, side;
    var line := lines[i];
    while line != []
      invariant j <= i < |lines| && line == lines[i]
      invariant Hunks(lines, i, fd, changes, lastSide) == goal
      decreases |lines| - i
    {
      // a header with both lengths given, or with either left out
      var header := ParseHunkHeader(line);
      if header.None? {
        break;
      }
      var fromline, fromend, toline, toend :=
        header.value.oldStart, header.value.oldLen, header.value.newStart, header.value.newLen;
      fromend := fromend + fromline;
      toend := toend + toline;
      if i + 1 == |lines| {
        return Decided(Parsed(changes + [WithGroup(fd, [])]));
      }
      EnterHunk(lines, i, fd, changes, lastSide);
      var hunk := ReadHunkLines(lines, i + 1, fd, changes, fromline, fromend, toline, toend, lastSide, goal);
      if hunk.Decided? {
        return hunk;
      }
      i, fd, lastSide := hunk.next, hunk.file, hunk.lastSide;
      line := lines[i];
    }
    return Resume(i, fd, lastSide);
  }

  /** A hunk header opens a hunk on the next line, with counters from the header. */
  lemma EnterHunk(lines: seq<string>, i: nat, file: FileDiff, changes: seq<FileDiff>, side: Option<Side>)
    requires i + 1 < |lines| && lines[i] != [] && ParseHunkHeader(lines[i]).Some?
    ensures var h := ParseHunkHeader(lines[i]).value;
      Hunks(lines, i, file, changes, side) ==
      HunkLines(lines, i + 1, file, [], None, h.oldStart, h.oldLen + h.oldStart,
                h.newStart, h.newLen + h.newStart, false, changes, side)
  {
  }

  /**
    The loop over the lines of one hunk of file `file`, from line `k` on:
    the blocks of a new group are built until both counters reach their
    ends and the line is not a "\" line.  The source appends each line to
    the last block of the group; here that block is kept apart, in `open`,
    until the next one starts.
   */
  method ReadHunkLines(lines: seq<string>, k: nat, file: FileDiff, changes: seq<FileDiff>,
                       from: int, fromEnd: int, to: int, toEnd: int, side: Option<Side>,
                       ghost goal: Outcome)
    returns (e: Handover)
    requires k < |lines|
    requires HunkLines(lines, k, file, [], None, from, fromEnd, to, toEnd, false, changes, side) == goal
    ensures e.Decided? ==> e.outcome == goal
    ensures e.Resume? ==> k <= e.next < |lines|
    ensures e.Resume? ==> Hunks(lines, e.next, e.file, changes, e.lastSide) == goal
  {
    var i := k;
    var line := lines[i];
    var closed: seq<Block> := [];
    var open: Option<Block> := None;
    var fromline, fromend, toline, toend, lastSide := from, fromEnd, to, toEnd, side;
    var lastType: Option<bool> := None;
    var extra := false;
    while fromline < fromend || toline < toend || extra
      invariant k <= i < |lines| && line == lines[i]
      invariant lastType == if open.None? then None else Some(open.value.kind == Unmod)
      invariant HunkLines(lines, i, file, closed, open, fromline, fromend, toline, toend, extra,
                          changes, lastSide) == goal
      decreases |lines| - i
    {
      // the first character is the command
      var command := ' ';
      if line != [] {
        command, line := line[0], line[1..];
      }
      var block: Block;
      if Some(command == ' ') != lastType {
        // a new block
        lastType := Some(command == ' ');
        closed := Group(closed, open);
        block := NewBlock(command == ' ', fromline, toline);
      } else {
        block := open.value;
      }
      var sides: seq<Side>;
      if command == ' ' {
        sides := [Base, Changed];
      } else if command == '+' {
        lastSide := Some(Changed);
        sides := [Changed];
      } else if command == '-' {
        lastSide := Some(Base);
        sides := [Base];
      } else if command == '\\' && lastSide.Some? {
        sides := [lastSide.value];
      } else if command == '\\' {
        // `last_side` has never been bound in this call
        return Decided(Raised);
      } else {
        return Decided(Unparsable);
      }
      block, fromline, toline := FeedSides(block, fromline, toline, sides, line);
      open := Some(block);
      if i + 1 == |lines| {
        return Decided(Parsed(changes + [WithGroup(file, closed + [block])]));
      }
      i := i + 1;
      line := lines[i];
      extra := line != [] && line[0] == '\\';
    }
    return Resume(i, WithGroup(file, Group(closed, open)), lastSide);
  }

  /** `for side in sides`: appends `text` to each side of the open block and counts it. */
  method FeedSides(block: Block, from: int, to: int, sides: seq<Side>, text: string)
    returns (block': Block, from': int, to': int)
    requires |sides| <= 2
    ensures Tally(block', from', to') == Feed(block, from, to, sides, text)
  {
    block', from', to' := block, from, to;
    for s := 0 to |sides|
      invariant Tally(block', from', to') == Feed(block, from, to, sides[..s], text)
    {
      if sides[s] == Base {
        from' := from' + 1;
      } else {
        to' := to' + 1;
      }
      block' := AddLine(block', sides[s], text);
    }
    assert sides[..|sides|] == sides;
  }

  /** RetypedFrom determines the re-typed files. */
  lemma RetypedUnique(r1: seq<FileDiff>, r2: seq<FileDiff>, changes: seq<FileDiff>)
    requires RetypedFrom(r1, changes) && RetypedFrom(r2, changes)
    ensures r1 == r2
  {
    forall i | 0 <= i < |r1| ensures r1[i] == r2[i] {
      forall g | 0 <= g < |r1[i].diffs| ensures r1[i].diffs[g] == r2[i].diffs[g] {
      }
    }
  }
}
