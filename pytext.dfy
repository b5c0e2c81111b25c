/**
  The Python 2 string built-ins that the diff parser and the template engine
  rely on, written out over `string` (= `seq<char>`): prefix tests,
  `splitlines`, `strip`, `split`, `join`, `replace`, and decimal digits.
  The source works on 8-bit `str` values, so a line break is `\n` or `\r`
  (with `\r\n` counted once) and whitespace is the six ASCII space characters.
 */
module PyText {

  datatype Option<T> = None | Some(value: T)

  predicate StartsWith(s: string, prefix: string) {
    |prefix| <= |s| && s[..|prefix|] == prefix
  }

  /** `mark` is written in `s` at position `p`. */
  predicate MarkAt(s: string, p: nat, mark: string) {
    p + |mark| <= |s| && s[p..p + |mark|] == mark
  }

  predicate EndsWith(s: string, suffix: string) {
    |suffix| <= |s| && s[|s| - |suffix|..] == suffix
  }

  /** `s.find(sub) >= 0`: `sub` occurs somewhere in `s`. */
  predicate Contains(s: string, sub: string)
    decreases |s|
  {
    StartsWith(s, sub) || (s != [] && Contains(s[1..], sub))
  }

  lemma {:induction false} ContainsAt(s: string, sub: string, i: nat)
    requires i + |sub| <= |s| && s[i..i + |sub|] == sub
    ensures Contains(s, sub)
  {
    if i > 0 {
      assert s[1..][i - 1..i - 1 + |sub|] == sub;
      ContainsAt(s[1..], sub, i - 1);
    } else {
      assert s[..|sub|] == sub;
    }
  }

  lemma {:induction false} ContainsWitness(s: string, sub: string) returns (i: nat)
    requires Contains(s, sub)
    ensures i + |sub| <= |s| && s[i..i + |sub|] == sub
    decreases |s|
  {
    if StartsWith(s, sub) {
      i := 0;
    } else {
      var j := ContainsWitness(s[1..], sub);
      i := j + 1;
      assert s[i..i + |sub|] == s[1..][j..j + |sub|];
    }
  }

  // ---------------------------------------------------------------------
  // str.splitlines()

  predicate IsLineBreak(c: char) {
    c == '\n' || c == '\r'
  }

  predicate NoLineBreak(s: string) {
    forall i :: 0 <= i < |s| ==> !IsLineBreak(s[i])
  }

  /** Position of the first line break in `s`, or `|s|` when there is none. */
  function LineEnd(s: string): (k: nat)
    ensures k <= |s| && NoLineBreak(s[..k])
    ensures k < |s| ==> IsLineBreak(s[k])
  {
    if s == [] || IsLineBreak(s[0]) then 0
    else
      var k := 1 + LineEnd(s[1..]);
      assert s[..k] == [s[0]] + s[1..][..k - 1];
      k
  }

  /**
    `s.splitlines()`: the lines of `s` without their terminators; a final
    terminator does not open an empty last line, and "" has no lines.
   */
  function SplitLines(s: string): (lines: seq<string>)
    ensures forall i :: 0 <= i < |lines| ==> NoLineBreak(lines[i])
    ensures s == [] <==> lines == []
    decreases |s|
  {
    if s == [] then []
    else
      var k := LineEnd(s);
      if k == |s| then [s]
      else
        var width := if s[k] == '\r' && k + 1 < |s| && s[k + 1] == '\n' then 2 else 1;
        [s[..k]] + SplitLines(s[k + width..])
  }

  /** Every line followed by "\n": the text that appending `"%s\n" % line` line by line builds. */
  function JoinLines(lines: seq<string>): string {
    if lines == [] then "" else lines[0] + "\n" + JoinLines(lines[1..])
  }

  lemma {:induction false} JoinLinesSnoc(lines: seq<string>, line: string)
    ensures JoinLines(lines + [line]) == JoinLines(lines) + line + "\n"
  {
    if lines != [] {
      assert (lines + [line])[1..] == lines[1..] + [line];
      JoinLinesSnoc(lines[1..], line);
    }
  }

  lemma {:induction false} LineEndOf(a: string, rest: string)
    requires NoLineBreak(a) && rest != [] && IsLineBreak(rest[0])
    ensures LineEnd(a + rest) == |a|
  {
    if a != [] {
      assert (a + rest)[1..] == a[1..] + rest;
      LineEndOf(a[1..], rest);
    }
  }

  /** Splitting what JoinLines built gives the lines back. */
  lemma {:induction false} SplitJoinLines(lines: seq<string>)
    requires forall i :: 0 <= i < |lines| ==> NoLineBreak(lines[i])
    ensures SplitLines(JoinLines(lines)) == lines
  {
    if lines != [] {
      var s := JoinLines(lines);
      var rest := "\n" + JoinLines(lines[1..]);
      assert s == lines[0] + rest;
      LineEndOf(lines[0], rest);
      assert s[..|lines[0]|] == lines[0];
      assert s[|lines[0]| + 1..] == JoinLines(lines[1..]);
      SplitJoinLines(lines[1..]);
    }
  }

  /** Splitting lines joined by "\n", the last one not empty, gives the lines back. */
  lemma {:induction false} SplitJoin(lines: seq<string>)
    requires |lines| > 0 && lines[|lines| - 1] != []
    requires forall i :: 0 <= i < |lines| ==> NoLineBreak(lines[i])
    ensures SplitLines(Join("\n", lines)) == lines
  {
    var s := Join("\n", lines);
    if |lines| == 1 {
      assert s == lines[0];
      assert LineEnd(s) == |s|;
    } else {
      var rest := "\n" + Join("\n", lines[1..]);
      assert s == lines[0] + rest;
      LineEndOf(lines[0], rest);
      assert s[..|lines[0]|] == lines[0];
      assert s[|lines[0]| + 1..] == Join("\n", lines[1..]);
      SplitJoin(lines[1..]);
      assert [lines[0]] + lines[1..] == lines;
    }
  }

  /** Text joined end to end holds a line break exactly when one of its parts does. */
  lemma NoBreakAppend(a: string, b: string)
    ensures NoLineBreak(a + b) <==> NoLineBreak(a) && NoLineBreak(b)
  {
    assert forall i :: 0 <= i < |a| ==> (a + b)[i] == a[i];
    assert forall i :: 0 <= i < |b| ==> (a + b)[|a| + i] == b[i];
  }

  // ---------------------------------------------------------------------
  // str.strip()

  /** `c * n` for a one-character string `c`. */
  function Repeat(c: char, n: nat): (r: string)
    ensures |r| == n && forall i :: 0 <= i < n ==> r[i] == c
  {
    if n == 0 then [] else [c] + Repeat(c, n - 1)
  }

  predicate IsSpace(c: char) {
    c == ' ' || c == '\t' || c == '\n' || c == '\r' || c == '\U{0B}' || c == '\U{0C}'
  }

  predicate AllSpace(s: string) {
    forall i :: 0 <= i < |s| ==> IsSpace(s[i])
  }

  /** Number of whitespace characters that `s` starts with. */
  function LeadingSpaces(s: string): (n: nat)
    ensures n <= |s| && AllSpace(s[..n]) && (n < |s| ==> !IsSpace(s[n]))
  {
    if s != [] && IsSpace(s[0]) then
      var n := 1 + LeadingSpaces(s[1..]);
      assert s[..n] == [s[0]] + s[1..][..n - 1];
      n
    else 0
  }

  /** Number of whitespace characters that `s` ends with. */
  function TrailingSpaces(s: string): (n: nat)
    ensures n <= |s| && AllSpace(s[|s| - n..]) && (n < |s| ==> !IsSpace(s[|s| - n - 1]))
  {
    if s != [] && IsSpace(s[|s| - 1]) then
      var n := 1 + TrailingSpaces(s[..|s| - 1]);
      assert s[|s| - n..] == s[..|s| - 1][|s| - n..] + [s[|s| - 1]];
      n
    else 0
  }

  /** `s.lstrip()` */
  function TrimStart(s: string): string {
    s[LeadingSpaces(s)..]
  }

  /** `s.strip()`: `s` without its leading and trailing whitespace. */
  function Strip(s: string): (r: string)
    ensures exists i, j :: 0 <= i <= j <= |s| && r == s[i..j] && AllSpace(s[..i]) && AllSpace(s[j..])
    ensures r == [] || (!IsSpace(r[0]) && !IsSpace(r[|r| - 1]))
  {
    var i := LeadingSpaces(s);
    var j := i + |s[i..]| - TrailingSpaces(s[i..]);
    StripCuts(s, i, j);
    s[i..j]
  }

  /** Where `strip` cuts: after the leading and before the trailing whitespace. */
  lemma StripCuts(s: string, i: nat, j: int)
    requires i == LeadingSpaces(s) && j == i + |s[i..]| - TrailingSpaces(s[i..])
    ensures i <= j <= |s| && AllSpace(s[..i]) && AllSpace(s[j..])
    ensures i < j ==> !IsSpace(s[i]) && !IsSpace(s[j - 1])
  {
    var t := s[i..];
    var n := TrailingSpaces(t);
    assert t[|t| - n..] == s[j..];
    if i < j {
      assert t[0] == s[i] && t[|t| - n - 1] == s[j - 1];
    }
  }

  // ---------------------------------------------------------------------
  // sep.join(parts), s.split(sep), s.split(None, maxsplit)

  function Join(sep: string, parts: seq<string>): string {
    if parts == [] then ""
    else if |parts| == 1 then parts[0]
    else parts[0] + sep + Join(sep, parts[1..])
  }

  /** Position of the first `c` in `s`, or `|s|`. */
  function IndexOf(s: string, c: char): (k: nat)
    ensures k <= |s| && forall j :: 0 <= j < k ==> s[j] != c
    ensures k < |s| ==> s[k] == c
  {
    if s == [] || s[0] == c then 0 else 1 + IndexOf(s[1..], c)
  }

  /** `s.split(sep)` for a one-character separator: never empty, pieces hold no `sep`. */
  function SplitOn(s: string, sep: char): (parts: seq<string>)
    ensures |parts| >= 1
    ensures forall i :: 0 <= i < |parts| ==> sep !in parts[i]
    decreases |s|
  {
    var k := IndexOf(s, sep);
    if k == |s| then [s] else [s[..k]] + SplitOn(s[k + 1..], sep)
  }

  /** Joining the pieces with the separator restores the text. */
  lemma {:induction false} JoinSplitOn(s: string, sep: char)
    ensures Join([sep], SplitOn(s, sep)) == s
    decreases |s|
  {
    var k := IndexOf(s, sep);
    if k < |s| {
      var rest := SplitOn(s[k + 1..], sep);
      var parts := [s[..k]] + rest;
      assert SplitOn(s, sep) == parts;
      assert parts[1..] == rest;
      assert Join([sep], parts) == s[..k] + [sep] + Join([sep], rest);
      JoinSplitOn(s[k + 1..], sep);
      assert s == s[..k] + [sep] + s[k + 1..];
    }
  }

  /** IndexOf finds the first occurrence. */
  lemma {:induction false} IndexOfIs(s: string, c: char, k: nat)
    requires k < |s| && s[k] == c && forall j :: 0 <= j < k ==> s[j] != c
    ensures IndexOf(s, c) == k
  {
    if k > 0 {
      IndexOfIs(s[1..], c, k - 1);
    }
  }

  /** Splitting `a + sep + b` gives the pieces of `a` followed by those of `b`. */
  lemma {:induction false} SplitOnConcat(a: string, sep: char, b: string)
    ensures SplitOn(a + [sep] + b, sep) == SplitOn(a, sep) + SplitOn(b, sep)
    decreases |a|
  {
    var k := IndexOf(a, sep);
    if k == |a| {
      SplitOnFirst(a, sep, b);
    } else {
      SplitOnConcat(a[k + 1..], sep, b);
      SplitOnStep(a, sep, b, k);
    }
  }

  /** The step of SplitOnConcat: the first piece of `a`, then the rest as the induction hypothesis has it. */
  lemma SplitOnStep(a: string, sep: char, b: string, k: nat)
    requires k == IndexOf(a, sep) < |a|
    requires SplitOn(a[k + 1..] + [sep] + b, sep) == SplitOn(a[k + 1..], sep) + SplitOn(b, sep)
    ensures SplitOn(a + [sep] + b, sep) == SplitOn(a, sep) + SplitOn(b, sep)
  {
    SplitOnAt(a, sep, b, k);
    ConsConcat(a[..k], SplitOn(a[k + 1..], sep), SplitOn(b, sep));
  }

  lemma ConsConcat<T>(x: T, p: seq<T>, q: seq<T>)
    ensures [x] + (p + q) == [x] + p + q
  {
  }

  /** Splitting `a + sep + b` when `a` holds no `sep`. */
  lemma SplitOnFirst(a: string, sep: char, b: string)
    requires IndexOf(a, sep) == |a|
    ensures SplitOn(a + [sep] + b, sep) == [a] + SplitOn(b, sep)
    ensures SplitOn(a, sep) == [a]
  {
    var s := a + [sep] + b;
    var k := |a|;
    assert s[..k] == a;
    IndexOfIs(s, sep, k);
    assert s[k + 1..] == b;
  }

  /** Splitting `a + sep + b` at the first `sep` of `a`. */
  lemma SplitOnAt(a: string, sep: char, b: string, k: nat)
    requires k == IndexOf(a, sep) < |a|
    ensures SplitOn(a + [sep] + b, sep) == [a[..k]] + SplitOn(a[k + 1..] + [sep] + b, sep)
    ensures SplitOn(a, sep) == [a[..k]] + SplitOn(a[k + 1..], sep)
  {
    var s := a + [sep] + b;
    assert s[..k] == a[..k];
    IndexOfIs(s, sep, k);
    assert s[k + 1..] == a[k + 1..] + [sep] + b;
  }

  /** Position just after the run of non-space characters that starts `s`. */
  function WordEnd(s: string): (k: nat)
    ensures k <= |s| && (k < |s| ==> IsSpace(s[k]))
    ensures s != [] && !IsSpace(s[0]) ==> k > 0
  {
    if s == [] || IsSpace(s[0]) then 0 else 1 + WordEnd(s[1..])
  }

  lemma {:induction false} WordEndWord(s: string)
    requires s != [] && !IsSpace(s[0])
    ensures IsWord(s[..WordEnd(s)])
  {
    var k := WordEnd(s);
    if k > 1 {
      WordEndWord(s[1..]);
      assert s[..k] == [s[0]] + s[1..][..k - 1];
    }
  }

  predicate IsWord(w: string) {
    w != [] && forall i :: 0 <= i < |w| ==> !IsSpace(w[i])
  }

  /**
    `s.split(None, maxsplit)`: at most `maxsplit` whitespace-separated words,
    then, if text is left, the rest with its leading whitespace removed.
   */
  function SplitWords(s: string, maxsplit: nat): (parts: seq<string>)
    decreases |s|
  {
    var t := TrimStart(s);
    if t == [] then []
    else if maxsplit == 0 then [t]
    else
      var w := WordEnd(t);
      [t[..w]] + SplitWords(t[w..], maxsplit - 1)
  }

  /** A word, a run of spaces and a remainder: the word comes off first. */
  lemma SplitWordsHead(word: string, gap: string, rest: string, maxsplit: nat)
    requires IsWord(word)
    requires gap != [] && AllSpace(gap)
    requires maxsplit > 0
    ensures SplitWords(word + gap + rest, maxsplit) == [word] + SplitWords(rest, maxsplit - 1)
  {
    var tail := gap + rest;
    var s := word + tail;
    assert word + gap + rest == s;
    assert s[0] == word[0];
    assert TrimStart(s) == s;
    assert tail[0] == gap[0];
    WordEndOf(word, tail);
    assert s[..|word|] == word;
    assert s[|word|..] == tail;
    TrimStartSpaces(gap, rest);
  }

  lemma {:induction false} WordEndOf(word: string, rest: string)
    requires forall i :: 0 <= i < |word| ==> !IsSpace(word[i])
    requires rest != [] && IsSpace(rest[0])
    ensures WordEnd(word + rest) == |word|
    decreases |word|
  {
    if word != [] {
      assert (word + rest)[1..] == word[1..] + rest;
      WordEndOf(word[1..], rest);
    }
  }

  lemma {:induction false} TrimStartSpaces(gap: string, rest: string)
    requires AllSpace(gap)
    ensures TrimStart(gap + rest) == TrimStart(rest)
  {
    if gap == [] {
      assert gap + rest == rest;
    } else {
      var s := gap + rest;
      assert s[0] == gap[0] && IsSpace(s[0]);
      assert s[1..] == gap[1..] + rest;
      assert TrimStart(s) == TrimStart(s[1..]);
      TrimStartSpaces(gap[1..], rest);
    }
  }

  // ---------------------------------------------------------------------
  // str.replace(target, repl)

  /** `s.replace(target, repl)`: every non-overlapping occurrence, scanning from the left. */
  function Replace(s: string, target: string, repl: string): string
    requires target != []
    decreases |s|
  {
    if |s| < |target| then s
    else if s[..|target|] == target then repl + Replace(s[|target|..], target, repl)
    else [s[0]] + Replace(s[1..], target, repl)
  }

  /** Text before an occurrence can only be copied when it does not hold the first character of `target`. */
  lemma {:induction false} ReplaceSkip(a: string, rest: string, target: string, repl: string)
    requires target != [] && target[0] !in a
    ensures Replace(a + rest, target, repl) == a + Replace(rest, target, repl)
    decreases |a|
  {
    if a == [] {
      assert a + rest == rest;
    } else {
      var s := a + rest;
      assert s[1..] == a[1..] + rest;
      if |s| < |target| {
        ReplaceShort(s, target, repl);
        ReplaceShort(rest, target, repl);
      } else {
        assert s[..|target|][0] == a[0] && a[0] in a;
        assert s[..|target|] != target;
        ReplaceSkip(a[1..], rest, target, repl);
      }
    }
  }

  lemma {:induction false} ReplaceShort(s: string, target: string, repl: string)
    requires target != [] && |s| < |target|
    ensures Replace(s, target, repl) == s
  {
  }

  /** An occurrence at the front is replaced and the scan goes on after it. */
  lemma ReplaceHead(rest: string, target: string, repl: string)
    requires target != []
    ensures Replace(target + rest, target, repl) == repl + Replace(rest, target, repl)
  {
    assert (target + rest)[..|target|] == target;
    assert (target + rest)[|target|..] == rest;
  }

  // ---------------------------------------------------------------------
  // decimal digits: int('123') and str(123)

  predicate IsDigit(c: char) {
    '0' <= c <= '9'
  }

  predicate AllDigits(s: string) {
    forall i :: 0 <= i < |s| ==> IsDigit(s[i])
  }

  function DigitValue(c: char): nat
    requires IsDigit(c)
  {
    (c as int) - ('0' as int)
  }

  function DigitChar(d: nat): (c: char)
    requires d < 10
    ensures IsDigit(c) && DigitValue(c) == d
  {
    ('0' as int + d) as char
  }

  /** `int(s)` for a string of decimal digits. */
  function DigitsValue(s: string): nat
    requires AllDigits(s)
  {
    if s == [] then 0 else 10 * DigitsValue(s[..|s| - 1]) + DigitValue(s[|s| - 1])
  }

  /** `str(n)` for a natural number: its decimal digits, without leading zeros. */
  function NatToString(n: nat): (s: string)
    ensures s != [] && AllDigits(s)
    ensures |s| > 1 ==> s[0] != '0'
  {
    if n < 10 then [DigitChar(n)] else NatToString(n / 10) + [DigitChar(n % 10)]
  }

  /** Reading back the digits of `str(n)` gives `n`. */
  lemma {:induction false} DigitsValueOfNat(n: nat)
    ensures DigitsValue(NatToString(n)) == n
  {
    if n >= 10 {
      var s := NatToString(n);
      assert s[..|s| - 1] == NatToString(n / 10);
      DigitsValueOfNat(n / 10);
    }
  }

  /** `str(i)` for any integer. */
  function IntToString(i: int): (s: string)
    ensures s != []
    ensures i < 0 <==> s[0] == '-'
  {
    if i < 0 then "-" + NatToString(-i) else NatToString(i)
  }
}
