/**
  What the parse of `_diff_to_hdf` promises about its result: the hunk
  header reads back the numbers written into it, every group it builds is a
  run of blocks that alternate between context and changes and that follow
  each other line by line on both sides, and the re-typing leaves "add" and
  "rem" blocks with exactly one empty side.
 */
module UnifiedDiffFacts {
  import opened PyText
  import opened UnifiedDiff

  // ---------------------------------------------------------------------
  // hunk headers

  /** How a range is written in a header: "a,b", or just "a" when the length is left out. */
  function RangeText(start: nat, len: Option<nat>): string {
    NatToString(start) + (if len.Some? then "," + NatToString(len.value) else "")
  }

  /** "@@ -a,b +c,d @@", each length optional. */
  function HeaderLine(oldStart: nat, oldLen: Option<nat>, newStart: nat, newLen: Option<nat>): string {
    "@@ -" + RangeText(oldStart, oldLen) + " +" + RangeText(newStart, newLen) + " @@"
  }

  /** The length a header states, 1 when it leaves it out. */
  function LengthOr1(len: Option<nat>): nat {
    if len.Some? then len.value else 1
  }

  /** A range spelled with the digit strings `start` and, if present, `len`. */
  function RangeDigits(start: string, len: Option<string>): string {
    start + (if len.Some? then "," + len.value else "")
  }

  predicate IsNumeral(d: string) {
    d != [] && AllDigits(d)
  }

  /** Reading on from inside a run of digits ends where the run ends, with the run's value. */
  lemma {:induction false} NumberAtRun(s: string, p: nat, k: nat, e: nat)
    requires p <= k <= e <= |s| && forall j :: p <= j < e ==> IsDigit(s[j])
    requires e < |s| ==> !IsDigit(s[e])
    ensures NumberAt(s, k, DigitsValue(s[p..k])) == Number(DigitsValue(s[p..e]), e)
    decreases e - k
  {
    if k < e {
      assert s[p..k + 1][..k - p] == s[p..k];
      NumberAtRun(s, p, k + 1, e);
    }
  }

  /** Reading a numeral written at `p`, when no digit follows it, gives its value. */
  lemma NumberAtNumeral(s: string, p: nat, d: string)
    requires IsNumeral(d) && p + |d| <= |s| && s[p..p + |d|] == d
    requires p + |d| < |s| ==> !IsDigit(s[p + |d|])
    ensures NumberAt(s, p, 0) == Number(DigitsValue(d), p + |d|)
  {
    assert s[p..p] == [];
    assert forall j :: p <= j < p + |d| ==> s[j] == d[j - p];
    NumberAtRun(s, p, p, p + |d|);
  }

  /** The pieces of a string written at position `p`. */
  lemma SliceParts(s: string, p: nat, x: string, n: nat)
    requires p + |x| <= |s| && s[p..p + |x|] == x && n <= |x|
    ensures s[p..p + n] == x[..n] && s[p + n..p + |x|] == x[n..]
  {
    assert s[p..p + n] == s[p..p + |x|][..n];
    assert s[p + n..p + |x|] == s[p..p + |x|][n..];
  }

  /** ",b" read as a length. */
  lemma LengthAtComma(s: string, c: nat, d: string)
    requires IsNumeral(d) && c + 1 + |d| <= |s| && s[c] == ',' && s[c + 1..c + 1 + |d|] == d
    requires c + 1 + |d| < |s| ==> !IsDigit(s[c + 1 + |d|])
    ensures LengthAt(s, c) == Number(DigitsValue(d), c + 1 + |d|)
  {
    NumberAtNumeral(s, c + 1, d);
  }

  /** A range written at `p` and followed by a space reads back as its start and its length. */
  lemma ReadRange(s: string, p: nat, r: string, start: string, len: Option<string>)
    requires IsNumeral(start) && (len.Some? ==> IsNumeral(len.value)) && r == RangeDigits(start, len)
    requires p + |r| < |s| && s[p..p + |r|] == r && s[p + |r|] == ' '
    ensures NumberAt(s, p, 0) == Number(DigitsValue(start), p + |start|)
    ensures LengthAt(s, p + |start|) == Number(if len.Some? then DigitsValue(len.value) else 1, p + |r|)
  {
    if len.Some? {
      assert r == start + "," + len.value;
      ReadRangeWithLength(s, p, start, len.value);
    } else {
      assert r == start;
      ReadRangeStartOnly(s, p, start);
    }
  }

  /** "a" followed by a space. */
  lemma ReadRangeStartOnly(s: string, p: nat, start: string)
    requires IsNumeral(start) && p + |start| < |s| && s[p..p + |start|] == start && s[p + |start|] == ' '
    ensures NumberAt(s, p, 0) == Number(DigitsValue(start), p + |start|)
    ensures LengthAt(s, p + |start|) == Number(1, p + |start|)
  {
    NumberAtNumeral(s, p, start);
    LengthAtAbsent(s, p + |start|);
  }

  /** "a,b" followed by a space. */
  lemma ReadRangeWithLength(s: string, p: nat, start: string, d: string)
    requires IsNumeral(start) && IsNumeral(d)
    requires p + |start + "," + d| < |s| && s[p..p + |start + "," + d|] == start + "," + d
    requires s[p + |start + "," + d|] == ' '
    ensures NumberAt(s, p, 0) == Number(DigitsValue(start), p + |start|)
    ensures LengthAt(s, p + |start|) == Number(DigitsValue(d), p + |start + "," + d|)
  {
    var c := p + |start|;
    RangePieces(s, p, start, d);
    assert c + 1 + |d| == p + |start + "," + d|;
    ReadFields(s, p, start, d);
  }

  /** Where the numbers and the comma of "a,b" sit. */
  lemma RangePieces(s: string, p: nat, start: string, d: string)
    requires p + |start + "," + d| <= |s| && s[p..p + |start + "," + d|] == start + "," + d
    ensures var c := p + |start|;
      && c + 1 + |d| <= |s| && s[p..c] == start && s[c] == ',' && s[c + 1..c + 1 + |d|] == d
  {
    var r := start + "," + d;
    var tail := "," + d;
    var c := p + |start|;
    assert r == start + tail;
    ConcatParts(start, tail);
    SliceParts(s, p, r, |start|);
    SliceParts(s, c, tail, 1);
    ConcatParts(",", d);
  }

  /** The two numbers of "a,b", read where they sit. */
  lemma ReadFields(s: string, p: nat, start: string, d: string)
    requires IsNumeral(start) && IsNumeral(d)
    requires var c := p + |start|;
      && c + 1 + |d| < |s| && s[p..c] == start && s[c] == ',' && s[c + 1..c + 1 + |d|] == d
      && !IsDigit(s[c + 1 + |d|])
    ensures NumberAt(s, p, 0) == Number(DigitsValue(start), p + |start|)
    ensures LengthAt(s, p + |start|) == Number(DigitsValue(d), p + |start| + 1 + |d|)
  {
    LengthAtComma(s, p + |start|, d);
    NumberAtNumeral(s, p, start);
  }

  /** The two parts of a concatenation, taken back apart. */
  lemma ConcatParts<T>(x: seq<T>, y: seq<T>)
    ensures (x + y)[..|x|] == x && (x + y)[|x|..] == y
  {
  }

  /** No comma: the length is left out and read as 1. */
  lemma LengthAtAbsent(s: string, c: nat)
    requires c < |s| && s[c] != ','
    ensures LengthAt(s, c) == Number(1, c)
  {
  }

  /** The header parse from what it reads at each position of the line; `p` is the position after "@@ -". */
  lemma HeaderFromFields(line: string, p: nat, oldStart: nat, oldStartEnd: nat, oldLen: nat, oldLenEnd: nat,
                         newStart: nat, newStartEnd: nat, newLen: nat, newLenEnd: nat)
    requires p == 4 && StartsWith(line, "@@ -")
    requires p < oldStartEnd <= |line| && NumberAt(line, p, 0) == Number(oldStart, oldStartEnd)
    requires LengthAt(line, oldStartEnd) == Number(oldLen, oldLenEnd) && MarkAt(line, oldLenEnd, " +")
    requires oldLenEnd + 2 < newStartEnd <= |line| && NumberAt(line, oldLenEnd + 2, 0) == Number(newStart, newStartEnd)
    requires LengthAt(line, newStartEnd) == Number(newLen, newLenEnd) && MarkAt(line, newLenEnd, " @@")
    ensures ParseHunkHeader(line) == Some(HunkHeader(oldStart, oldLen, newStart, newLen))
  {
  }

  /** The header parse of "@@ -" + r1 + " +" + r2 + " @@" + rest, for ranges spelled in digits. */
  lemma HeaderOfPieces(line: string, p: nat, r1: string, a: string, b: Option<string>,
                       r2: string, c: string, d: Option<string>)
    requires p == 4
    requires IsNumeral(a) && (b.Some? ==> IsNumeral(b.value)) && r1 == RangeDigits(a, b)
    requires IsNumeral(c) && (d.Some? ==> IsNumeral(d.value)) && r2 == RangeDigits(c, d)
    requires p + |r1| + 2 + |r2| + 3 <= |line|
    requires line[..p] == "@@ -"
    requires line[p..p + |r1|] == r1
    requires line[p + |r1|..p + |r1| + 2] == " +"
    requires line[p + |r1| + 2..p + |r1| + 2 + |r2|] == r2
    requires line[p + |r1| + 2 + |r2|..p + |r1| + 2 + |r2| + 3] == " @@"
    ensures ParseHunkHeader(line) == Some(HunkHeader(DigitsValue(a), if b.Some? then DigitsValue(b.value) else 1,
                                                     DigitsValue(c), if d.Some? then DigitsValue(d.value) else 1))
  {
    HeaderMarks(line, p, r1, r2);
    HeaderRanges(line, p, r1, a, b, r2, c, d);
    HeaderFromRanges(line, p, r1, a, b, r2, c, d);
  }

  /** The header parse once the fixed parts and the two ranges have been read. */
  lemma HeaderFromRanges(line: string, p: nat, r1: string, a: string, b: Option<string>,
                         r2: string, c: string, d: Option<string>)
    requires p == 4
    requires IsNumeral(a) && (b.Some? ==> IsNumeral(b.value)) && IsNumeral(c) && (d.Some? ==> IsNumeral(d.value))
    requires p + |r1| + 2 + |r2| + 3 <= |line|
    requires p + |a| <= p + |r1| && p + |r1| + 2 + |c| <= p + |r1| + 2 + |r2|
    requires StartsWith(line, "@@ -")
    requires MarkAt(line, p + |r1|, " +")
    requires MarkAt(line, p + |r1| + 2 + |r2|, " @@")
    requires NumberAt(line, p, 0) == Number(DigitsValue(a), p + |a|)
    requires LengthAt(line, p + |a|) == Number(if b.Some? then DigitsValue(b.value) else 1, p + |r1|)
    requires NumberAt(line, p + |r1| + 2, 0) == Number(DigitsValue(c), p + |r1| + 2 + |c|)
    requires LengthAt(line, p + |r1| + 2 + |c|) == Number(if d.Some? then DigitsValue(d.value) else 1, p + |r1| + 2 + |r2|)
    ensures ParseHunkHeader(line) == Some(HunkHeader(DigitsValue(a), if b.Some? then DigitsValue(b.value) else 1,
                                                     DigitsValue(c), if d.Some? then DigitsValue(d.value) else 1))
  {
    HeaderFromFields(line, p, DigitsValue(a), p + |a|, if b.Some? then DigitsValue(b.value) else 1, p + |r1|,
                     DigitsValue(c), p + |r1| + 2 + |c|, if d.Some? then DigitsValue(d.value) else 1, p + |r1| + 2 + |r2|);
  }

  /** The two ranges of a header line, each read where it sits: the first at `p`, the second after " +". */
  lemma HeaderRanges(line: string, p: nat, r1: string, a: string, b: Option<string>,
                     r2: string, c: string, d: Option<string>)
    requires IsNumeral(a) && (b.Some? ==> IsNumeral(b.value)) && r1 == RangeDigits(a, b)
    requires IsNumeral(c) && (d.Some? ==> IsNumeral(d.value)) && r2 == RangeDigits(c, d)
    requires p + |r1| + 2 + |r2| < |line|
    requires line[p..p + |r1|] == r1 && line[p + |r1|] == ' '
    requires line[p + |r1| + 2..p + |r1| + 2 + |r2|] == r2 && line[p + |r1| + 2 + |r2|] == ' '
    ensures NumberAt(line, p, 0) == Number(DigitsValue(a), p + |a|)
    ensures LengthAt(line, p + |a|) == Number(if b.Some? then DigitsValue(b.value) else 1, p + |r1|)
    ensures NumberAt(line, p + |r1| + 2, 0) == Number(DigitsValue(c), p + |r1| + 2 + |c|)
    ensures LengthAt(line, p + |r1| + 2 + |c|) == Number(if d.Some? then DigitsValue(d.value) else 1, p + |r1| + 2 + |r2|)
  {
    ReadRange(line, p, r1, a, b);
    ReadRange(line, p + |r1| + 2, r2, c, d);
  }

  /** The fixed parts of a header line, from where they sit. */
  lemma HeaderMarks(line: string, p: nat, r1: string, r2: string)
    requires p == 4 && p + |r1| + 2 + |r2| + 3 <= |line|
    requires line[..p] == "@@ -"
    requires line[p + |r1|..p + |r1| + 2] == " +"
    requires line[p + |r1| + 2 + |r2|..p + |r1| + 2 + |r2| + 3] == " @@"
    ensures StartsWith(line, "@@ -")
    ensures MarkAt(line, p + |r1|, " +") && line[p + |r1|] == ' '
    ensures MarkAt(line, p + |r1| + 2 + |r2|, " @@") && line[p + |r1| + 2 + |r2|] == ' '
  {
    var e1 := p + |r1|;
    var e2 := e1 + 2 + |r2|;
    assert line[e1] == line[e1..e1 + 2][0];
    assert line[e2] == line[e2..e2 + 3][0];
  }

  /** The digits of a range as `str` writes them. */
  function Numerals(len: Option<nat>): Option<string> {
    if len.Some? then Some(NatToString(len.value)) else None
  }

  lemma RangeTextDigits(start: nat, len: Option<nat>)
    ensures RangeText(start, len) == RangeDigits(NatToString(start), Numerals(len))
    ensures DigitsValue(NatToString(start)) == start
    ensures len.Some? ==> DigitsValue(NatToString(len.value)) == len.value
  {
    DigitsValueOfNat(start);
    if len.Some? {
      DigitsValueOfNat(len.value);
    }
  }

  /** The header of a hunk reads back the four numbers written into it, a left-out length as 1. */
  lemma HeaderRoundTrip(oldStart: nat, oldLen: Option<nat>, newStart: nat, newLen: Option<nat>, rest: string)
    ensures ParseHunkHeader(HeaderLine(oldStart, oldLen, newStart, newLen) + rest)
         == Some(HunkHeader(oldStart, LengthOr1(oldLen), newStart, LengthOr1(newLen)))
  {
    var r1 := RangeText(oldStart, oldLen);
    var r2 := RangeText(newStart, newLen);
    assert HeaderLine(oldStart, oldLen, newStart, newLen) + rest == "@@ -" + r1 + " +" + r2 + " @@" + rest;
    RangeTextDigits(oldStart, oldLen);
    RangeTextDigits(newStart, newLen);
    ParsePieces(r1, NatToString(oldStart), Numerals(oldLen), r2, NatToString(newStart), Numerals(newLen), rest);
  }

  /** The header parse of a line written from digit strings. */
  lemma ParsePieces(r1: string, a: string, b: Option<string>, r2: string, c: string, d: Option<string>, rest: string)
    requires IsNumeral(a) && (b.Some? ==> IsNumeral(b.value)) && r1 == RangeDigits(a, b)
    requires IsNumeral(c) && (d.Some? ==> IsNumeral(d.value)) && r2 == RangeDigits(c, d)
    ensures ParseHunkHeader("@@ -" + r1 + " +" + r2 + " @@" + rest)
         == Some(HunkHeader(DigitsValue(a), if b.Some? then DigitsValue(b.value) else 1,
                            DigitsValue(c), if d.Some? then DigitsValue(d.value) else 1))
  {
    HeaderPieces(r1, r2, rest);
    HeaderOfPieces("@@ -" + r1 + " +" + r2 + " @@" + rest, 4, r1, a, b, r2, c, d);
  }

  /** Where the pieces of a header line sit. */
  lemma HeaderPieces(r1: string, r2: string, rest: string)
    ensures var line := "@@ -" + r1 + " +" + r2 + " @@" + rest;
      && 4 + |r1| + 2 + |r2| + 3 <= |line|
      && line[..4] == "@@ -"
      && line[4..4 + |r1|] == r1
      && line[4 + |r1|..4 + |r1| + 2] == " +"
      && line[4 + |r1| + 2..4 + |r1| + 2 + |r2|] == r2
      && line[4 + |r1| + 2 + |r2|..4 + |r1| + 2 + |r2| + 3] == " @@"
  {
    var line := "@@ -" + r1 + " +" + r2 + " @@" + rest;
    var e1 := 4 + |r1|;
    var e2 := e1 + 2 + |r2|;
    var w := line[..e2 + 3];
    assert w == "@@ -" + r1 + " +" + r2 + " @@";
    SliceParts(line, 0, w, 4);
    SliceParts(line, 4, w[4..], |r1|);
    SliceParts(line, e1, w[e1..], 2);
    SliceParts(line, e1 + 2, w[e1 + 2..], |r2|);
    assert w[..4] == "@@ -";
    assert w[4..][..|r1|] == r1;
    assert w[e1..][..2] == " +";
    assert w[e1 + 2..][..|r2|] == r2;
    assert w[e2..] == " @@";
  }

  /** A line that does not start with "@@ -" and a digit is not a hunk header. */
  lemma HeaderNeedsStart(line: string)
    requires ParseHunkHeader(line).Some?
    ensures StartsWith(line, "@@ -") && |line| > 4 && IsDigit(line[4])
  {
  }

  // ---------------------------------------------------------------------
  // the shape of the groups built by the parse

  /**
    A block as the parse builds it: a context ("unmod") block holds the same
    nonempty lines on both sides; a "mod" block holds at least one line.
   */
  predicate BlockShape(b: Block) {
    if b.kind == Unmod then b.baseLines == b.changedLines && b.baseLines != []
    else b.kind == Mod && (b.baseLines != [] || b.changedLines != [])
  }

  /** Block `b` starts, on both sides, on the line after the last line of block `a`. */
  predicate Follows(a: Block, b: Block) {
    && b.baseOffset == a.baseOffset + |a.baseLines|
    && b.changedOffset == a.changedOffset + |a.changedLines|
  }

  /** A group: well-built blocks, context and changes taking turns, each following the one before. */
  predicate GroupShape(g: seq<Block>) {
    && (forall k :: 0 <= k < |g| ==> BlockShape(g[k]))
    && (forall k :: 0 < k < |g| ==> (g[k - 1].kind == Unmod) != (g[k].kind == Unmod))
    && (forall k :: 0 < k < |g| ==> Follows(g[k - 1], g[k]))
  }

  predicate FileShape(f: FileDiff) {
    forall g :: 0 <= g < |f.diffs| ==> GroupShape(f.diffs[g])
  }

  predicate FilesShape(changes: seq<FileDiff>) {
    forall f :: 0 <= f < |changes| ==> FileShape(changes[f])
  }

  /**
    The group being built: well shaped so far, and the open block ends, on
    each side, just before the line the counter stands at.
   */
  predicate OpenShape(closed: seq<Block>, open: Option<Block>, from: int, to: int) {
    && GroupShape(Group(closed, open))
    && (open.None? ==> closed == [])
    && (open.Some? ==> open.value.baseOffset + |open.value.baseLines| == from - 1)
    && (open.Some? ==> open.value.changedOffset + |open.value.changedLines| == to - 1)
  }

  lemma GroupShapeSnoc(g: seq<Block>, b: Block)
    requires GroupShape(g) && BlockShape(b)
    requires g != [] ==> (g[|g| - 1].kind == Unmod) != (b.kind == Unmod) && Follows(g[|g| - 1], b)
    ensures GroupShape(g + [b])
  {
    var g' := g + [b];
    forall k | 0 < k < |g'| ensures (g'[k - 1].kind == Unmod) != (g'[k].kind == Unmod) && Follows(g'[k - 1], g'[k]) {
      if k < |g| {
        assert g'[k - 1] == g[k - 1] && g'[k] == g[k];
      }
    }
  }

  lemma GroupShapePrefix(g: seq<Block>, b: Block)
    requires GroupShape(g + [b])
    ensures GroupShape(g)
  {
    assert forall k :: 0 <= k < |g| ==> (g + [b])[k] == g[k];
  }

  lemma FilesShapeSnoc(changes: seq<FileDiff>, file: FileDiff)
    requires FilesShape(changes) && FileShape(file)
    ensures FilesShape(changes + [file])
  {
    assert forall f :: 0 <= f < |changes| ==> (changes + [file])[f] == changes[f];
  }

  lemma FileShapeWithGroup(file: FileDiff, group: seq<Block>)
    requires FileShape(file) && GroupShape(group)
    ensures FileShape(WithGroup(file, group))
  {
    assert forall g :: 0 <= g < |file.diffs| ==> WithGroup(file, group).diffs[g] == file.diffs[g];
  }

  /** One line of a hunk keeps the group being built in shape. */
  lemma StepShape(closed: seq<Block>, open: Option<Block>, from: int, to: int,
                  command: char, text: string, sides: seq<Side>)
    requires OpenShape(closed, open, from, to)
    requires sides == [Base, Changed] || sides == [Base] || sides == [Changed]
    requires (command == ' ') == (sides == [Base, Changed])
    ensures
      var context := command == ' ';
      var starts := open.None? || (open.value.kind == Unmod) != context;
      var closed' := if starts then Group(closed, open) else closed;
      var block := if starts then NewBlock(context, from, to) else open.value;
      var t := Feed(block, from, to, sides, text);
      OpenShape(closed', Some(t.block), t.from, t.to)
  {
    var context := command == ' ';
    var starts := open.None? || (open.value.kind == Unmod) != context;
    var closed' := if starts then Group(closed, open) else closed;
    var block := if starts then NewBlock(context, from, to) else open.value;
    var t := Feed(block, from, to, sides, text);
    if starts {
      GroupShapeSnoc(closed', t.block);
    } else {
      var g := Group(closed, open);
      GroupShapePrefix(closed, open.value);
      assert g[|closed|] == open.value && BlockShape(g[|closed|]);
      if closed != [] {
        assert g[|closed| - 1] == closed[|closed| - 1];
        assert Follows(g[|closed| - 1], g[|closed|]);
        assert (g[|closed| - 1].kind == Unmod) != (g[|closed|].kind == Unmod);
      }
      GroupShapeSnoc(closed, t.block);
    }
  }

  /** The outer loop hands on only well-shaped files. */
  lemma {:induction false} FilesKeepShape(lines: seq<string>, i: nat, comments: seq<string>,
                                          changes: seq<FileDiff>, lastSide: Option<Side>)
    requires i < |lines| && FilesShape(changes)
    ensures Files(lines, i, comments, changes, lastSide).Parsed? ==>
      FilesShape(Files(lines, i, comments, changes, lastSide).changes)
    decreases |lines| - i, 0
  {
    var line := lines[i];
    if !StartsWith(line, BASE_MARK) {
      var comments' := if !StartsWith(line, INDEX) && !IsRule(line) then comments + [line] else comments;
      if i + 1 < |lines| {
        FilesKeepShape(lines, i + 1, comments', changes, lastSide);
      }
    } else if i + 1 < |lines| && StartsWith(lines[i + 1], CHANGED_MARK) {
      var file := FileDiff(Join("\n", comments), RevisionOf(SplitWords(line, 2)),
                           RevisionOf(SplitWords(lines[i + 1], 2)), []);
      if i + 2 == |lines| {
        FilesShapeSnoc(changes, file);
      } else {
        HunksKeepShape(lines, i + 2, file, changes, lastSide);
      }
    }
  }

  /** The loop over the hunks of a file adds only well-shaped groups. */
  lemma {:induction false} HunksKeepShape(lines: seq<string>, i: nat, file: FileDiff,
                                          changes: seq<FileDiff>, lastSide: Option<Side>)
    requires i < |lines| && FilesShape(changes) && FileShape(file)
    ensures Hunks(lines, i, file, changes, lastSide).Parsed? ==>
      FilesShape(Hunks(lines, i, file, changes, lastSide).changes)
    decreases |lines| - i, 1
  {
    var line := lines[i];
    var header := if line == [] then None else ParseHunkHeader(line);
    if header.None? {
      FilesShapeSnoc(changes, file);
      FilesKeepShape(lines, i, [], changes + [file], lastSide);
    } else if i + 1 == |lines| {
      FileShapeWithGroup(file, []);
      FilesShapeSnoc(changes, WithGroup(file, []));
    } else {
      var h := header.value;
      HunkLinesKeepShape(lines, i + 1, file, [], None, h.oldStart, h.oldLen + h.oldStart,
                         h.newStart, h.newLen + h.newStart, false, changes, lastSide);
    }
  }

  /** The loop over the lines of a hunk builds a well-shaped group. */
  lemma {:induction false} HunkLinesKeepShape(lines: seq<string>, i: nat, file: FileDiff,
                                              closed: seq<Block>, open: Option<Block>,
                                              from: int, fromEnd: int, to: int, toEnd: int, extra: bool,
                                              changes: seq<FileDiff>, lastSide: Option<Side>)
    requires i < |lines| && FilesShape(changes) && FileShape(file)
    requires OpenShape(closed, open, from, to)
    ensures HunkLines(lines, i, file, closed, open, from, fromEnd, to, toEnd, extra, changes, lastSide).Parsed? ==>
      FilesShape(HunkLines(lines, i, file, closed, open, from, fromEnd, to, toEnd, extra, changes, lastSide).changes)
    decreases |lines| - i, 2
  {
    if !(from < fromEnd || to < toEnd || extra) {
      FileShapeWithGroup(file, Group(closed, open));
      HunksKeepShape(lines, i, WithGroup(file, Group(closed, open)), changes, lastSide);
    } else {
      var line := lines[i];
      var command := if line == [] then ' ' else line[0];
      var text := if line == [] then line else line[1..];
      var context := command == ' ';
      var starts := open.None? || (open.value.kind == Unmod) != context;
      var closed' := if starts then Group(closed, open) else closed;
      var block := if starts then NewBlock(context, from, to) else open.value;
      match SidesOf(command, lastSide)
      case None =>
      case Some(sides) =>
        var lastSide' := if command == '+' then Some(Changed) else if command == '-' then Some(Base) else lastSide;
        assert sides == [Base, Changed] || sides == [Base] || sides == [Changed] by {
          if command == '\\' {
            assert sides == [lastSide.value];
            assert lastSide.value == Base || lastSide.value == Changed;
          }
        }
        StepShape(closed, open, from, to, command, text, sides);
        var t := Feed(block, from, to, sides, text);
        if i + 1 == |lines| {
          FileShapeWithGroup(file, closed' + [t.block]);
          FilesShapeSnoc(changes, WithGroup(file, closed' + [t.block]));
        } else {
          var next := lines[i + 1];
          HunkLinesKeepShape(lines, i + 1, file, closed', Some(t.block), t.from, fromEnd, t.to, toEnd,
                             next != [] && next[0] == '\\', changes, lastSide');
        }
    }
  }

  /** Every group of every file the parse yields is well shaped. */
  lemma ParseShape(lines: seq<string>)
    ensures Parse(lines).Parsed? ==> FilesShape(Parse(lines).changes)
  {
    if lines != [] {
      FilesKeepShape(lines, 0, [], [], None);
    }
  }

  // ---------------------------------------------------------------------
  // after re-typing

  /**
    A block of the result: context blocks as before; an "add" block only
    has changed lines, a "rem" block only base lines, and a "mod" block has
    lines on both sides.
   */
  predicate TypedShape(b: Block) {
    match b.kind
    case Unmod => b.baseLines == b.changedLines && b.baseLines != []
    case Mod => b.baseLines != [] && b.changedLines != []
    case Add => b.baseLines == [] && b.changedLines != []
    case Rem => b.baseLines != [] && b.changedLines == []
  }

  /** A group of the result: typed blocks, context and changes taking turns, each following the one before. */
  predicate TypedGroupShape(g: seq<Block>) {
    && (forall k :: 0 <= k < |g| ==> TypedShape(g[k]))
    && (forall k :: 0 < k < |g| ==> (g[k - 1].kind == Unmod) != (g[k].kind == Unmod))
    && (forall k :: 0 < k < |g| ==> Follows(g[k - 1], g[k]))
  }

  /** Re-typing keeps the lines and offsets of a block and settles its type by which sides are empty. */
  lemma RetypedShape(b: Block)
    requires BlockShape(b)
    ensures TypedShape(Retyped(b))
    ensures Retyped(b).(kind := b.kind) == b
    ensures (Retyped(b).kind == Unmod) == (b.kind == Unmod)
  {
  }

  lemma RetypedGroupShape(g: seq<Block>)
    requires GroupShape(g)
    ensures TypedGroupShape(RetypeGroup(g))
  {
    var r := RetypeGroup(g);
    forall k | 0 <= k < |r| ensures TypedShape(r[k]) && (r[k].kind == Unmod) == (g[k].kind == Unmod) {
      RetypedShape(g[k]);
    }
  }

  /**
    Every group `_diff_to_hdf` yields is a run of blocks that alternate
    between context ("unmod") and changes ("mod", "add", "rem"), each
    starting on both sides where the one before ends; "add" blocks have no
    base lines, "rem" blocks no changed lines, "mod" blocks lines on both
    sides, and context blocks the same lines on both sides.
   */
  lemma DiffToHdfShape(lines: seq<string>)
    requires DiffToHdfSpec(lines).Parsed?
    ensures forall f, g :: 0 <= f < |DiffToHdfSpec(lines).changes| && 0 <= g < |DiffToHdfSpec(lines).changes[f].diffs| ==>
      TypedGroupShape(DiffToHdfSpec(lines).changes[f].diffs[g])
  {
    ParseShape(lines);
    var changes := Parse(lines).changes;
    var r := RetypeAll(changes);
    forall f, g | 0 <= f < |r| && 0 <= g < |r[f].diffs| ensures TypedGroupShape(r[f].diffs[g]) {
      assert GroupShape(changes[f].diffs[g]);
      assert r[f].diffs[g] == RetypeGroup(changes[f].diffs[g]);
      RetypedGroupShape(changes[f].diffs[g]);
    }
  }

  // ---------------------------------------------------------------------
  // inputs without files

  /** Lines before the first "---" line are only comments: with none, the outer loop finds no file. */
  lemma {:induction false} FilesWithoutHeaders(lines: seq<string>, i: nat, comments: seq<string>,
                                               changes: seq<FileDiff>, lastSide: Option<Side>)
    requires i < |lines|
    requires forall k :: i <= k < |lines| ==> !StartsWith(lines[k], BASE_MARK)
    ensures Files(lines, i, comments, changes, lastSide) == Parsed(changes)
    decreases |lines| - i
  {
    if i + 1 < |lines| {
      var line := lines[i];
      var comments' := if !StartsWith(line, INDEX) && !IsRule(line) then comments + [line] else comments;
      FilesWithoutHeaders(lines, i + 1, comments', changes, lastSide);
    }
  }

  /** A diff with no "---" line, the empty one included, has no files. */
  lemma NoHeadersNoFiles(lines: seq<string>)
    requires forall k :: 0 <= k < |lines| ==> !StartsWith(lines[k], BASE_MARK)
    ensures DiffToHdfSpec(lines) == Parsed([])
  {
    if lines != [] {
      FilesWithoutHeaders(lines, 0, [], [], None);
    }
  }

  // ---------------------------------------------------------------------
  // where the parse gives up

  /** The outer loop reaches the first "---" line of the input unchanged but for its comments. */
  lemma {:induction false} FilesUnpaired(lines: seq<string>, i: nat, k: nat, comments: seq<string>,
                                         changes: seq<FileDiff>, lastSide: Option<Side>)
    requires i <= k && k + 1 < |lines|
    requires forall j :: i <= j < k ==> !StartsWith(lines[j], BASE_MARK)
    requires StartsWith(lines[k], BASE_MARK) && !StartsWith(lines[k + 1], CHANGED_MARK)
    ensures Files(lines, i, comments, changes, lastSide) == Unparsable
    decreases k - i
  {
    if i < k {
      var line := lines[i];
      var comments' := if !StartsWith(line, INDEX) && !IsRule(line) then comments + [line] else comments;
      FilesUnpaired(lines, i + 1, k, comments', changes, lastSide);
    }
  }

  /** A first "---" line not followed by a "+++" line makes `_diff_to_hdf` return None. */
  lemma UnpairedHeader(lines: seq<string>, k: nat)
    requires k + 1 < |lines|
    requires forall j :: 0 <= j < k ==> !StartsWith(lines[j], BASE_MARK)
    requires StartsWith(lines[k], BASE_MARK) && !StartsWith(lines[k + 1], CHANGED_MARK)
    ensures DiffToHdfSpec(lines) == Unparsable
  {
    FilesUnpaired(lines, 0, k, [], [], None);
  }

  /**
    A hunk line whose first character is none of ' ', '+', '-' and '\'
    makes the parse return None; a '\' line before any '+' or '-' line of
    the call raises, `last_side` being unbound.
   */
  lemma BadCommand(lines: seq<string>, i: nat, file: FileDiff, closed: seq<Block>, open: Option<Block>,
                   from: int, fromEnd: int, to: int, toEnd: int, extra: bool,
                   changes: seq<FileDiff>, lastSide: Option<Side>)
    requires i < |lines| && (from < fromEnd || to < toEnd || extra) && lines[i] != []
    ensures lines[i][0] !in {' ', '+', '-', '\\'} ==>
      HunkLines(lines, i, file, closed, open, from, fromEnd, to, toEnd, extra, changes, lastSide) == Unparsable
    ensures lines[i][0] == '\\' && lastSide.None? ==>
      HunkLines(lines, i, file, closed, open, from, fromEnd, to, toEnd, extra, changes, lastSide) == Raised
  {
  }
}
