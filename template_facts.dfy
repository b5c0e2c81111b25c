/**
  What `render` of template.py does with the lines it is given: plain text is
  copied, `${path}` is replaced by the value of the path, a true `#if` passes
  its lines through, a false one drops what follows, and a `#for` renders
  its body once per element of the collection, nested loops included.
 */
module TemplateFacts {
  import opened PyText
  import opened TemplateValues
  import opened Template

  // ---------------------------------------------------------------------
  // scanning

  /**
    A line that `render` copies as it stands: none of the four directive
    tests fires on it and `findall` finds no expression in it.
   */
  predicate Plain(line: string) {
    !Contains(line, END_FOR) && ForSearch(line).None? && IfSearch(line).None?
    && !Contains(line, END_IF) && FindExprs(line) == []
  }

  /** Text with neither `#` nor `$`; the pieces around an expression in the lemmas below. */
  predicate Bare(line: string) {
    '#' !in line && '$' !in line
  }

  /** Both directive searches pass over text without `#`. */
  lemma {:induction false} SearchSkip(a: string, t: string)
    requires '#' !in a
    ensures ForSearch(a + t) == ForSearch(t) && IfSearch(a + t) == IfSearch(t)
  {
    if a != [] {
      var s := a + t;
      assert s[0] == a[0];
      NotMarkAt(s, "#for", 0);
      NotMarkAt(s, "#if", 0);
      assert s[1..] == a[1..] + t;
      SearchSkip(a[1..], t);
    } else {
      assert a + t == t;
    }
  }

  /** A mark is not found in text without its first character. */
  lemma {:induction false} NoMark(s: string, mark: string)
    requires mark != [] && mark[0] !in s
    ensures !Contains(s, mark)
  {
    if s != [] {
      NotMarkAt(s, mark, 0);
      NoMark(s[1..], mark);
    }
  }

  /** Text without the first character of a mark can be skipped when looking for it. */
  lemma {:induction false} ContainsSkip(a: string, t: string, mark: string)
    requires mark != [] && mark[0] !in a
    ensures Contains(a + t, mark) == Contains(t, mark)
  {
    if a != [] {
      var s := a + t;
      assert s[0] == a[0];
      NotMarkAt(s, mark, 0);
      assert s[1..] == a[1..] + t;
      ContainsSkip(a[1..], t, mark);
    } else {
      assert a + t == t;
    }
  }

  /** Neither directive is found in a line without `#`. */
  lemma NoDirective(s: string)
    requires '#' !in s
    ensures ForSearch(s).None? && IfSearch(s).None?
    ensures !Contains(s, END_FOR) && !Contains(s, END_IF)
  {
    SearchSkip(s, []);
    assert s + [] == s;
    NoMark(s, END_FOR);
    NoMark(s, END_IF);
  }

  /** `findall` passes over text without `$`. */
  lemma {:induction false} FindSkip(a: string, t: string)
    requires '$' !in a
    ensures FindExprs(a + t) == FindExprs(t)
  {
    if a != [] {
      var s := a + t;
      assert s[0] == a[0];
      NotMarkAt(s, "${", 0);
      assert s[1..] == a[1..] + t;
      FindSkip(a[1..], t);
    } else {
      assert a + t == t;
    }
  }

  /** A run of path characters read to its end. */
  lemma {:induction false} PathEndRun(s: string, p: nat, e: nat)
    requires p <= e < |s| && !IsPathChar(s[e])
    requires forall k :: p <= k < e ==> IsPathChar(s[k])
    ensures PathEnd(s, p) == e
    decreases e - p
  {
    if p < e {
      PathEndRun(s, p + 1, e);
    }
  }

  /** A run of word characters read to its end. */
  lemma {:induction false} NameEndRun(s: string, p: nat, e: nat)
    requires p <= e < |s| && !IsWordChar(s[e])
    requires forall k :: p <= k < e ==> IsWordChar(s[k])
    ensures NameEnd(s, p) == e
    decreases e - p
  {
    if p < e {
      NameEndRun(s, p + 1, e);
    }
  }

  /** A run of spaces read to its end. */
  lemma {:induction false} BlanksEndRun(s: string, p: nat, e: nat)
    requires p <= e < |s| && s[e] != ' '
    requires forall k :: p <= k < e ==> s[k] == ' '
    ensures BlanksEnd(s, p) == e
    decreases e - p
  {
    if p < e {
      BlanksEndRun(s, p + 1, e);
    }
  }

  /** A mark is not written where one of its characters differs. */
  lemma NotMarkAt(s: string, mark: string, k: nat)
    requires k < |mark| && k < |s| && s[k] != mark[k]
    ensures !MarkAt(s, 0, mark) && !StartsWith(s, mark)
  {
    if |mark| <= |s| {
      assert s[..|mark|][k] == s[k];
      assert s[0..|mark|][k] == s[k];
    }
  }

  // ---------------------------------------------------------------------
  // `${path}` expressions

  /** `EXPR_SUBST_RE` matches `${path}` at the start of a text. */
  lemma ExprAtForm(path: string, b: string)
    requires IsPath(path)
    ensures ExprAt("${" + path + "}" + b) == Some(|path| + 3)
  {
    var s := "${" + path + "}" + b;
    var e := 2 + |path|;
    assert s[0..2] == "${";
    assert forall k :: 2 <= k < e ==> s[k] == path[k - 2];
    assert s[e] == '}';
    PathEndRun(s, 2, e);
  }

  /** The expressions `findall` gives for a line holding one `${path}` and no other `$`. */
  lemma FindOne(a: string, e: string, b: string, path: string)
    requires IsPath(path) && e == "${" + path + "}" && '$' !in a && '$' !in b
    ensures FindExprs(a + e + b) == [e]
  {
    var t := e + b;
    assert a + e + b == a + t;
    FindSkip(a, t);
    ExprAtForm(path, b);
    assert t[..|e|] == e && t[|e|..] == b;
    FindSkip(b, []);
    assert b + [] == b;
  }

  /** The one occurrence of `target` in a text replaced. */
  lemma ReplaceOnly(a: string, target: string, b: string, repl: string)
    requires target != [] && target[0] !in a && target[0] !in b
    ensures Replace(a + target + b, target, repl) == a + repl + b
  {
    assert a + target + b == a + (target + b);
    ReplaceSkip(a, target + b, target, repl);
    ReplaceHead(b, target, repl);
    ReplaceSkip(b, [], target, repl);
    assert b + [] == b;
  }

  /**
    A line holding one `${path}` and no other `$` has the expression
    replaced by `str()` of the value of the path, or fails as the
    evaluation does.
   */
  lemma SubstituteOne(a: string, path: string, b: string, vars: map<string, Value>)
    requires IsPath(path) && '$' !in a && '$' !in b
    ensures Eval(path, vars).Ok? ==>
              Substitute(a + "${" + path + "}" + b, FindExprs(a + "${" + path + "}" + b), vars)
                == Ok(a + Str(Eval(path, vars).value) + b)
    ensures Eval(path, vars).Err? ==>
              Substitute(a + "${" + path + "}" + b, FindExprs(a + "${" + path + "}" + b), vars)
                == Err(Eval(path, vars).error)
  {
    SubstituteAt(a + "${" + path + "}" + b, a, "${" + path + "}", b, path, vars);
  }

  /** SubstituteOne on the line cut into its three pieces. */
  lemma SubstituteAt(line: string, a: string, e: string, b: string, path: string, vars: map<string, Value>)
    requires IsPath(path) && '$' !in a && '$' !in b
    requires e == "${" + path + "}" && line == a + e + b
    ensures FindExprs(line) == [e]
    ensures Eval(path, vars).Ok? ==> Substitute(line, [e], vars) == Ok(a + Str(Eval(path, vars).value) + b)
    ensures Eval(path, vars).Err? ==> Substitute(line, [e], vars) == Err(Eval(path, vars).error)
  {
    FindOne(a, e, b, path);
    assert ExprPath(e) == path;
    match Eval(path, vars)
    case Err(_) =>
    case Ok(v) =>
      ReplaceOnly(a, e, b, Str(v));
      assert Substitute(line, [e], vars) == Substitute(a + Str(v) + b, [], vars);
  }

  // ---------------------------------------------------------------------
  // the kinds of line, as the loop of `render` tells them apart

  /** A `#if` line with the given path. */
  predicate IfLineOf(line: string, path: string) {
    !Contains(line, END_FOR) && ForSearch(line).None? && IfSearch(line) == Some(path)
  }

  /** An `#endif` line. */
  predicate EndIfLine(line: string) {
    !Contains(line, END_FOR) && ForSearch(line).None? && IfSearch(line).None? && Contains(line, END_IF)
  }

  /** A `#for` line with the given loop variable and collection. */
  predicate ForLineOf(line: string, fm: ForMatch) {
    !Contains(line, END_FOR) && ForSearch(line) == Some(fm)
  }

  /** In a line whose one `#` follows `a`, both searches come down to a match there. */
  lemma OneHash(a: string, u: string)
    requires '#' !in a && '#' !in u
    ensures ForSearch(a + "#" + u) == ForAt("#" + u)
    ensures IfSearch(a + "#" + u) == IfAt("#" + u)
  {
    assert a + "#" + u == a + ("#" + u);
    SearchSkip(a, "#" + u);
    assert ("#" + u)[1..] == u;
    NoDirective(u);
  }

  /** A mark starting with `#` is found in such a line only where the `#` is. */
  lemma OneHashMark(a: string, u: string, mark: string)
    requires '#' !in a && '#' !in u
    requires mark != [] && mark[0] == '#' && !StartsWith("#" + u, mark)
    ensures !Contains(a + "#" + u, mark)
  {
    assert a + "#" + u == a + ("#" + u);
    ContainsSkip(a, "#" + u, mark);
    assert ("#" + u)[1..] == u;
    NoMark(u, mark);
  }

  /** `IF_RE` matched at the start: `#if`, spaces up to `q`, then `(path)` ending at `e`. */
  lemma IfAtPieces(s: string, q: nat, e: nat, path: string)
    requires 3 <= q < e < |s| && MarkAt(s, 0, "#if")
    requires forall k :: 3 <= k < q ==> s[k] == ' '
    requires s[q] == '(' && IsPath(path) && s[q + 1..e] == path && s[e] == ')'
    ensures IfAt(s) == Some(path)
  {
    assert forall k :: q + 1 <= k < e ==> s[k] == path[k - q - 1];
    BlanksEndRun(s, 3, q);
    PathEndRun(s, q + 1, e);
  }

  /** The text of an `#if` line after its `#`. */
  function IfTail(n: nat, path: string): string {
    "if" + Repeat(' ', n) + "(" + path + ")"
  }

  lemma IfLineTail(n: nat, path: string)
    requires IsPath(path)
    ensures IfAt("#" + IfTail(n, path)) == Some(path)
    ensures '#' !in IfTail(n, path)
  {
    var t := "#" + IfTail(n, path);
    var q := 3 + n;
    var e := q + 1 + |path|;
    assert forall k :: 3 <= k < q ==> t[k] == ' ' by {
      assert t[3..q] == Repeat(' ', n);
      assert forall k :: 3 <= k < q ==> t[k] == t[3..q][k - 3];
    }
    assert t[0..3] == "#if" && t[q] == '(' && t[q + 1..e] == path && t[e] == ')';
    IfAtPieces(t, q, e, path);
  }

  lemma IfLineHash(a: string, n: nat, path: string)
    requires '#' !in a && IsPath(path)
    ensures IfLineOf(a + "#" + IfTail(n, path), path)
  {
    var u := IfTail(n, path);
    IfLineTail(n, path);
    OneHash(a, u);
    NoLoopHash(a, u);
  }

  /** A line whose one `#` starts `#i...` is neither a `#for` nor an `#endfor` line. */
  lemma NoLoopHash(a: string, u: string)
    requires '#' !in a && '#' !in u && u != [] && u[0] == 'i'
    ensures ForSearch(a + "#" + u).None? && !Contains(a + "#" + u, END_FOR)
  {
    OneHash(a, u);
    var t := "#" + u;
    assert t[1] == 'i';
    NotMarkAt(t, "#for", 1);
    NotMarkAt(t, END_FOR, 1);
    OneHashMark(a, u, END_FOR);
  }

  /** `#if (path)`, after text without `#`, with any number of spaces before the parenthesis. */
  lemma IfLineForm(a: string, n: nat, path: string)
    requires '#' !in a && IsPath(path)
    ensures IfLineOf(a + "#if" + Repeat(' ', n) + "(" + path + ")", path)
  {
    assert a + "#if" + Repeat(' ', n) + "(" + path + ")" == a + "#" + IfTail(n, path);
    IfLineHash(a, n, path);
  }

  /** `#endif`, between texts without `#`. */
  lemma EndIfLineForm(a: string, b: string)
    requires '#' !in a && '#' !in b
    ensures EndIfLine(a + END_IF + b)
  {
    var u := "endif" + b;
    assert a + END_IF + b == a + "#" + u;
    EndIfHash(a, u);
    assert (a + END_IF + b)[|a|..|a| + 6] == END_IF;
    ContainsAt(a + END_IF + b, END_IF, |a|);
  }

  /** A line whose one `#` starts `#endi...` is no other directive line. */
  lemma EndIfHash(a: string, u: string)
    requires '#' !in a && '#' !in u && |u| >= 4 && u[..4] == "endi"
    ensures ForSearch(a + "#" + u).None? && IfSearch(a + "#" + u).None? && !Contains(a + "#" + u, END_FOR)
  {
    OneHash(a, u);
    var t := "#" + u;
    assert t[1] == u[..4][0] && t[4] == u[..4][3];
    NotMarkAt(t, "#for", 1);
    NotMarkAt(t, "#if", 1);
    NotMarkAt(t, END_FOR, 4);
    OneHashMark(a, u, END_FOR);
  }

  /** `#endfor`, anywhere in a line. */
  lemma EndForLineForm(a: string, b: string)
    ensures Contains(a + END_FOR + b, END_FOR)
  {
    var s := a + END_FOR + b;
    assert s[|a|..|a| + 7] == END_FOR;
    ContainsAt(s, END_FOR, |a|);
  }

  /** The text after `in` in a `#for` line: spaces, the path and `)`. */
  function ForCollectionText(n2: nat, path: string): string {
    Repeat(' ', n2) + path + ")"
  }

  /** The text after the parenthesis of a `#for` line: `name`, spaces, `in`, then the collection. */
  function ForGroupsText(name: string, n1: nat, n2: nat, path: string): string {
    name + Repeat(' ', n1) + "in" + ForCollectionText(n2, path)
  }

  /** The text of a `#for` line after its `#`: `for`, spaces, `(`, then the groups. */
  function ForTail(m: nat, name: string, n1: nat, n2: nat, path: string): string {
    "for" + Repeat(' ', m) + "(" + ForGroupsText(name, n1, n2, path)
  }

  /** `n` spaces written in `s` from `p` on. */
  lemma SpacesAt(s: string, p: nat, n: nat)
    requires p + n <= |s| && s[p..p + n] == Repeat(' ', n)
    ensures forall k :: p <= k < p + n ==> s[k] == ' '
  {
    assert forall k :: p <= k < p + n ==> s[k] == s[p..p + n][k - p];
  }

  lemma ForCollectionRead(n2: nat, path: string)
    requires IsPath(path) && n2 > 0
    ensures ForCollection(ForCollectionText(n2, path)) == Some(path)
  {
    var s := ForCollectionText(n2, path);
    var e := n2 + |path|;
    assert s[0..n2] == Repeat(' ', n2) && s[n2..e] == path && s[e] == ')';
    SpacesAt(s, 0, n2);
    assert forall k :: n2 <= k < e ==> s[k] == path[k - n2];
    BlanksEndRun(s, 0, n2);
    PathEndRun(s, n2, e);
  }

  lemma ForGroupsRead(name: string, n1: nat, n2: nat, path: string)
    requires IsName(name) && IsPath(path) && n1 > 0 && n2 > 0
    ensures ForGroups(ForGroupsText(name, n1, n2, path)) == Some(ForMatch(name, path))
  {
    var c := ForCollectionText(n2, path);
    var s := ForGroupsText(name, n1, n2, path);
    var n := |name|;
    var g := n + n1;
    assert s[0..n] == name && s[n..g] == Repeat(' ', n1) && s[g..g + 2] == "in" && s[g + 2..] == c;
    SpacesAt(s, n, n1);
    assert forall k :: 0 <= k < n ==> s[k] == name[k];
    ForCollectionRead(n2, path);
    ForGroupsPieces(s, n, g, name, c, path);
  }

  /** The groups read off a text holding `name`, spaces from `n` to `g`, `in` and the collection text. */
  lemma ForGroupsPieces(s: string, n: nat, g: nat, name: string, c: string, path: string)
    requires IsName(name) && n == |name| && n < g && g + 2 <= |s|
    requires forall k :: 0 <= k < n ==> s[k] == name[k]
    requires forall k :: n <= k < g ==> s[k] == ' '
    requires s[g..g + 2] == "in" && s[g + 2..] == c && ForCollection(c) == Some(path)
    ensures ForGroups(s) == Some(ForMatch(name, path))
  {
    assert s[g] == 'i';
    NameEndRun(s, 0, n);
    BlanksEndRun(s, n, g);
    assert s[..n] == name;
  }

  lemma NameNoHash(s: string)
    requires IsName(s)
    ensures '#' !in s && '$' !in s
  {
  }

  lemma PathNoHash(s: string)
    requires IsPath(s)
    ensures '#' !in s && '$' !in s
  {
  }

  lemma SpacesNoHash(n: nat)
    ensures '#' !in Repeat(' ', n)
  {
  }

  lemma ForLineTail(m: nat, name: string, n1: nat, n2: nat, path: string)
    requires IsName(name) && IsPath(path) && n1 > 0 && n2 > 0
    ensures ForAt("#" + ForTail(m, name, n1, n2, path)) == Some(ForMatch(name, path))
    ensures '#' !in ForTail(m, name, n1, n2, path)
  {
    var w := ForGroupsText(name, n1, n2, path);
    var t := "#" + ForTail(m, name, n1, n2, path);
    var q := 4 + m;
    assert t == "#for" + Repeat(' ', m) + "(" + w;
    assert t[0..4] == "#for" && t[4..q] == Repeat(' ', m) && t[q] == '(' && t[q + 1..] == w;
    SpacesAt(t, 4, m);
    BlanksEndRun(t, 4, q);
    ForGroupsRead(name, n1, n2, path);
    ForTailNoHash(m, name, n1, n2, path);
  }

  lemma ForTailNoHash(m: nat, name: string, n1: nat, n2: nat, path: string)
    requires IsName(name) && IsPath(path)
    ensures '#' !in ForTail(m, name, n1, n2, path)
  {
    NameNoHash(name);
    PathNoHash(path);
    SpacesNoHash(m);
    SpacesNoHash(n1);
    SpacesNoHash(n2);
    assert '#' !in ForCollectionText(n2, path);
    assert '#' !in ForGroupsText(name, n1, n2, path);
  }

  /**
    A `#for` line, after text without `#`: `#for`, any number of spaces,
    `(name`, at least one space, `in`, at least one space, `path)`.
   */
  lemma ForLineForm(a: string, m: nat, name: string, n1: nat, n2: nat, path: string)
    requires '#' !in a && IsName(name) && IsPath(path) && n1 > 0 && n2 > 0
    ensures ForLineOf(a + "#" + ForTail(m, name, n1, n2, path), ForMatch(name, path))
  {
    ForLineTail(m, name, n1, n2, path);
    assert ForTail(m, name, n1, n2, path)[0] == 'f';
    ForLineHash(a, ForTail(m, name, n1, n2, path), ForMatch(name, path));
  }

  /** A line whose one `#` starts a match of `FOR_RE`. */
  lemma ForLineHash(a: string, u: string, fm: ForMatch)
    requires '#' !in a && '#' !in u && u != [] && u[0] == 'f' && ForAt("#" + u) == Some(fm)
    ensures ForLineOf(a + "#" + u, fm)
  {
    OneHash(a, u);
    var t := "#" + u;
    assert t[1] == 'f';
    NotMarkAt(t, END_FOR, 1);
    OneHashMark(a, u, END_FOR);
  }

  // ---------------------------------------------------------------------
  // plain lines and `${path}`

  /** `findall` finds nothing in text without `$`. */
  lemma NoExprs(s: string)
    requires '$' !in s
    ensures FindExprs(s) == []
  {
    FindSkip(s, []);
    assert s + [] == s;
  }

  /** What `render` keeps of the if stack: nothing is being skipped. */
  predicate Shown(st: RenderState) {
    st.ifStack == [] || Truthy(st.ifStack[|st.ifStack| - 1])
  }

  /** Plain lines outside a loop and not skipped are copied to the output, each followed by "\n". */
  lemma {:induction false} PlainRun(lines: seq<string>, i: nat, j: nat, vars: map<string, Value>, st: RenderState)
    requires i <= j <= |lines| && Sound(st, i) && st.forMatch.None? && Shown(st)
    requires forall k :: i <= k < j ==> Plain(lines[k])
    ensures RenderFrom(lines, i, vars, st)
         == RenderFrom(lines, j, vars, st.(result := st.result + JoinLines(lines[i..j])))
    decreases j - i
  {
    if i == j {
      assert st.result + JoinLines(lines[i..j]) == st.result;
      assert st.(result := st.result) == st;
    } else {
      var st' := st.(result := st.result + lines[i] + "\n");
      PlainStep(lines, i, vars, st);
      PlainRun(lines, i + 1, j, vars, st');
      JoinLinesFirst(st.result, lines, i, j);
    }
  }

  /** One plain line copied. */
  lemma PlainStep(lines: seq<string>, i: nat, vars: map<string, Value>, st: RenderState)
    requires i < |lines| && Sound(st, i) && st.forMatch.None? && Shown(st) && Plain(lines[i])
    ensures RenderFrom(lines, i, vars, st) == RenderFrom(lines, i + 1, vars, st.(result := st.result + lines[i] + "\n"))
  {
  }

  /** Text with neither `#` nor `$` is plain. */
  lemma BareIsPlain(line: string)
    requires Bare(line)
    ensures Plain(line)
  {
    NoDirective(line);
    NoExprs(line);
  }

  /** Output followed by the joined lines i..j, the first one taken apart. */
  lemma JoinLinesFirst(out: string, lines: seq<string>, i: nat, j: nat)
    requires i < j <= |lines|
    ensures out + lines[i] + "\n" + JoinLines(lines[i + 1..j]) == out + JoinLines(lines[i..j])
  {
    assert lines[i..j][0] == lines[i] && lines[i..j][1..] == lines[i + 1..j];
  }

  /** A template of plain lines renders as its text, stripped. */
  lemma PlainText(lines: seq<string>, vars: map<string, Value>)
    requires forall k :: 0 <= k < |lines| ==> Plain(lines[k])
    ensures RenderLines(lines, vars) == Ok(Strip(JoinLines(lines)))
  {
    PlainRun(lines, 0, |lines|, vars, START);
    assert lines[0..|lines|] == lines;
    var st := START.(result := "" + JoinLines(lines));
    assert "" + JoinLines(lines) == JoinLines(lines);
    assert RenderFrom(lines, |lines|, vars, st) == Ok(JoinLines(lines));
  }

  /** The same for the text of the template, lines without line breaks joined by "\n". */
  lemma PlainTemplate(lines: seq<string>, vars: map<string, Value>)
    requires forall k :: 0 <= k < |lines| ==> Plain(lines[k]) && NoLineBreak(lines[k])
    ensures RenderText(JoinLines(lines), vars) == Ok(Strip(JoinLines(lines)))
  {
    SplitJoinLines(lines);
    PlainText(lines, vars);
  }

  /** A line with one `${path}` holds no `#`. */
  lemma ExprLineNoHash(a: string, path: string, b: string)
    requires IsPath(path) && Bare(a) && Bare(b)
    ensures '#' !in a + "${" + path + "}" + b
  {
    PathNoHash(path);
  }

  /**
    A line holding one `${path}` between plain texts renders as the line
    with `str()` of the path's value in place of the expression; an
    evaluation that fails makes `render` fail with it.
   */
  lemma ExprLine(a: string, path: string, b: string, vars: map<string, Value>)
    requires IsPath(path) && Bare(a) && Bare(b)
    ensures Eval(path, vars).Ok? ==>
              RenderLines([a + "${" + path + "}" + b], vars) == Ok(Strip(a + Str(Eval(path, vars).value) + b + "\n"))
    ensures Eval(path, vars).Err? ==>
              RenderLines([a + "${" + path + "}" + b], vars) == Err(Eval(path, vars).error)
  {
    var line := a + "${" + path + "}" + b;
    ExprLineNoHash(a, path, b);
    SubstituteOne(a, path, b, vars);
    OneLine(line, vars);
  }

  /** A template of one line without `#` renders as the line with its expressions substituted. */
  lemma OneLine(line: string, vars: map<string, Value>)
    requires '#' !in line
    ensures Substitute(line, FindExprs(line), vars).Err? ==>
              RenderLines([line], vars) == Err(Substitute(line, FindExprs(line), vars).error)
    ensures Substitute(line, FindExprs(line), vars).Ok? ==>
              RenderLines([line], vars) == Ok(Strip(Substitute(line, FindExprs(line), vars).value + "\n"))
  {
    NoDirective(line);
    var lines := [line];
    match Substitute(line, FindExprs(line), vars)
    case Err(e) =>
      assert RenderFrom(lines, 0, vars, START) == Err(e);
    case Ok(text) =>
      var st := START.(result := "" + text + "\n");
      assert RenderFrom(lines, 0, vars, START) == RenderFrom(lines, 1, vars, st);
      assert "" + text + "\n" == text + "\n";
  }

  // ---------------------------------------------------------------------
  // #if blocks

  /**
    A true `#if` passes the plain lines up to its `#endif` through, and
    neither directive line is output.
   */
  lemma TrueIf(lines: seq<string>, i: nat, j: nat, vars: map<string, Value>, st: RenderState, path: string, v: Value)
    requires i < j < |lines| && Sound(st, i) && st.forMatch.None? && Shown(st)
    requires IfLineOf(lines[i], path) && Eval(path, vars) == Ok(v) && Truthy(v)
    requires forall k :: i < k < j ==> Plain(lines[k])
    requires EndIfLine(lines[j])
    ensures RenderFrom(lines, i, vars, st)
         == RenderFrom(lines, j + 1, vars, st.(result := st.result + JoinLines(lines[i + 1..j])))
  {
    var st1 := st.(ifStack := st.ifStack + [v]);
    IfStep(lines, i, vars, st, path, v);
    PlainRun(lines, i + 1, j, vars, st1);
    EndIfStep(lines, j, vars, st, v, st.result + JoinLines(lines[i + 1..j]));
  }

  /** A `#if` line outside a loop and not skipped pushes the value of its path. */
  lemma IfStep(lines: seq<string>, i: nat, vars: map<string, Value>, st: RenderState, path: string, v: Value)
    requires i < |lines| && Sound(st, i) && st.forMatch.None? && Shown(st)
    requires IfLineOf(lines[i], path) && Eval(path, vars) == Ok(v)
    ensures RenderFrom(lines, i, vars, st) == RenderFrom(lines, i + 1, vars, st.(ifStack := st.ifStack + [v]))
  {
  }

  /** An `#endif` line under a true top of the if stack pops it. */
  lemma EndIfStep(lines: seq<string>, j: nat, vars: map<string, Value>, st: RenderState, v: Value, out: string)
    requires j < |lines| && Sound(st, j) && st.forMatch.None? && Truthy(v)
    requires EndIfLine(lines[j])
    ensures RenderFrom(lines, j, vars, st.(ifStack := st.ifStack + [v], result := out))
         == RenderFrom(lines, j + 1, vars, st.(result := out))
  {
    var st2 := st.(ifStack := st.ifStack + [v], result := out);
    assert st2.ifStack[..|st2.ifStack| - 1] == st.ifStack;
  }

  /** While the top of the if stack is false, every line is dropped up to the end or the next loop line. */
  lemma {:induction false} FalseTopDrops(lines: seq<string>, i: nat, vars: map<string, Value>, st: RenderState)
    requires i <= |lines| && Sound(st, i) && st.forMatch.None? && !Shown(st)
    requires forall k :: i <= k < |lines| ==> !Contains(lines[k], END_FOR) && ForSearch(lines[k]).None?
    ensures RenderFrom(lines, i, vars, st) == Ok(st.result)
    decreases |lines| - i
  {
    if i < |lines| {
      FalseTopDrops(lines, i + 1, vars, st);
    }
  }

  /**
    A false `#if` drops every later line, its own `#endif` included: the
    `#endif` is not looked at while the top of the stack is false, so the
    stack is never popped.  Only loop lines are still acted on.
   */
  lemma FalseIf(lines: seq<string>, i: nat, vars: map<string, Value>, st: RenderState, path: string, v: Value)
    requires i < |lines| && Sound(st, i) && st.forMatch.None? && Shown(st)
    requires IfLineOf(lines[i], path) && Eval(path, vars) == Ok(v) && !Truthy(v)
    requires forall k :: i < k < |lines| ==> !Contains(lines[k], END_FOR) && ForSearch(lines[k]).None?
    ensures RenderFrom(lines, i, vars, st) == Ok(st.result)
  {
    var st1 := st.(ifStack := st.ifStack + [v]);
    assert RenderFrom(lines, i, vars, st) == RenderFrom(lines, i + 1, vars, st1);
    FalseTopDrops(lines, i + 1, vars, st1);
  }

  // ---------------------------------------------------------------------
  // #for blocks

  /** The `#for` depth count after one more line: `#endfor` lowers it, a `#for` line raises it. */
  function Step(d: int, line: string): int {
    if Contains(line, END_FOR) then d - 1
    else if ForSearch(line).Some? then d + 1
    else d
  }

  /** The depth count after the lines of `body`, from `d`. */
  function DepthAfter(d: int, body: seq<string>): int
    decreases |body|
  {
    if body == [] then d else DepthAfter(Step(d, body[0]), body[1..])
  }

  /** No `#endfor` of `body` is met with the count at 1: the loop stays open through `body`. */
  predicate StaysOpen(d: int, body: seq<string>)
    decreases |body|
  {
    body == [] || ((Contains(body[0], END_FOR) ==> d != 1) && StaysOpen(Step(d, body[0]), body[1..]))
  }

  /** Inside an open loop, lines are collected into its body, the count going up and down with nested loops. */
  lemma {:induction false} CollectBody(lines: seq<string>, i: nat, j: nat, vars: map<string, Value>, st: RenderState)
    requires i <= j <= |lines| && Sound(st, i) && st.forMatch.Some?
    requires StaysOpen(st.forCount, lines[i..j])
    ensures RenderFrom(lines, i, vars, st)
         == RenderFrom(lines, j, vars, st.(body := st.body + lines[i..j], forCount := DepthAfter(st.forCount, lines[i..j])))
    decreases j - i
  {
    if i == j {
      assert st.body + lines[i..j] == st.body;
      assert st.(body := st.body, forCount := st.forCount) == st;
    } else {
      var line := lines[i];
      assert lines[i..j][0] == line && lines[i..j][1..] == lines[i + 1..j];
      var st' := st.(body := st.body + [line], forCount := Step(st.forCount, line));
      assert RenderFrom(lines, i, vars, st) == RenderFrom(lines, i + 1, vars, st');
      CollectBody(lines, i + 1, j, vars, st');
      assert st.body + [line] + lines[i + 1..j] == st.body + lines[i..j];
    }
  }

  /**
    A `#for` line outside any loop opens one whose body runs to the
    `#endfor` met with the count back at 1; the body is then rendered once
    per element of the collection and the loop state reset.  A collection
    path that fails to evaluate, or a value that cannot be iterated, makes
    `render` fail.
   */
  lemma ForBlock(lines: seq<string>, i: nat, j: nat, vars: map<string, Value>, st: RenderState, fm: ForMatch)
    requires i < j < |lines| && Sound(st, i) && st.forMatch.None? && st.forCount == 0 && st.body == []
    requires ForLineOf(lines[i], fm)
    requires StaysOpen(1, lines[i + 1..j]) && DepthAfter(1, lines[i + 1..j]) == 1 && Contains(lines[j], END_FOR)
    ensures Eval(fm.collection, vars).Err? ==> RenderFrom(lines, i, vars, st) == Err(Eval(fm.collection, vars).error)
    ensures Eval(fm.collection, vars).Ok? && Iterate(Eval(fm.collection, vars).value).None? ==>
              RenderFrom(lines, i, vars, st) == Err(NotIterable)
    ensures Eval(fm.collection, vars).Ok? && Iterate(Eval(fm.collection, vars).value).Some? ==>
              RenderFrom(lines, i, vars, st)
                == match ForEach(lines[i + 1..j], Iterate(Eval(fm.collection, vars).value).value, 0, vars, fm.name, st.result)
                   case Err(e) => Err(e)
                   case Ok(r) => RenderFrom(lines, j + 1, vars, RenderState(r, st.ifStack, None, [], 0))
  {
    var st1 := st.(forMatch := Some(fm), forCount := 1);
    assert RenderFrom(lines, i, vars, st) == RenderFrom(lines, i + 1, vars, st1);
    CollectBody(lines, i + 1, j, vars, st1);
    assert [] + lines[i + 1..j] == lines[i + 1..j];
  }

  /** The passes of a loop that all succeed: each rendered body followed by "\n", in order. */
  lemma {:induction false} ForEachOk(body: seq<string>, elems: seq<Value>, k: nat, vars: map<string, Value>, name: string,
                                     acc: string, texts: seq<string>)
    requires k <= |elems| == |texts|
    requires forall n :: k <= n < |elems| ==> RenderLines(body, Bind(vars, name, elems[n], n)) == Ok(texts[n])
    ensures ForEach(body, elems, k, vars, name, acc) == Ok(acc + JoinLines(texts[k..]))
    decreases |elems| - k
  {
    if k == |elems| {
      ForEachDone(body, elems, k, vars, name, acc, texts);
    } else {
      assert RenderLines(body, Bind(vars, name, elems[k], k)) == Ok(texts[k]);
      ForEachStep(body, elems, k, vars, name, acc);
      ForEachOk(body, elems, k + 1, vars, name, acc + texts[k] + "\n", texts);
      JoinLinesFrom(acc, texts, k);
    }
  }

  lemma ForEachDone(body: seq<string>, elems: seq<Value>, k: nat, vars: map<string, Value>, name: string,
                    acc: string, texts: seq<string>)
    requires k == |elems| == |texts|
    ensures ForEach(body, elems, k, vars, name, acc) == Ok(acc + JoinLines(texts[k..]))
  {
    assert texts[k..] == [];
    assert acc + JoinLines(texts[k..]) == acc + "";
    assert acc + "" == acc;
  }

  lemma JoinLinesFrom(acc: string, texts: seq<string>, k: nat)
    requires k < |texts|
    ensures acc + texts[k] + "\n" + JoinLines(texts[k + 1..]) == acc + JoinLines(texts[k..])
  {
    assert texts[k..][0] == texts[k] && texts[k..][1..] == texts[k + 1..];
  }

  /** A pass sees the element under the loop variable, its index under `name + "_index"`, and every other name as before. */
  lemma BindSees(vars: map<string, Value>, name: string, elem: Value, index: nat)
    ensures Lookup(Bind(vars, name, elem, index), name) == elem
    ensures Lookup(Bind(vars, name, elem, index), name + "_index") == Integer(index)
    ensures forall x :: x != name && x != name + "_index" ==> Lookup(Bind(vars, name, elem, index), x) == Lookup(vars, x)
  {
    assert |name + "_index"| != |name|;
  }

  /**
    A loop over one line showing `${name}` between plain texts: each
    element is shown in its own pass, `str()` of it in place of the
    expression, the passes in the order of the collection.
   */
  lemma ForEachShown(a: string, name: string, b: string, elems: seq<Value>, vars: map<string, Value>, acc: string)
    requires IsName(name) && Bare(a) && Bare(b)
    ensures ForEach([a + "${" + name + "}" + b], elems, 0, vars, name, acc)
         == Ok(acc + JoinLines(seq(|elems|, n requires 0 <= n < |elems| => Strip(a + Str(elems[n]) + b + "\n"))))
  {
    var texts := seq(|elems|, n requires 0 <= n < |elems| => Strip(a + Str(elems[n]) + b + "\n"));
    assert IsPath(name);
    NameNoHash(name);
    forall n | 0 <= n < |elems|
      ensures RenderLines([a + "${" + name + "}" + b], Bind(vars, name, elems[n], n)) == Ok(texts[n])
    {
      var bound := Bind(vars, name, elems[n], n);
      BindSees(vars, name, elems[n], n);
      EvalName(name, bound);
      ExprLine(a, name, b, bound);
    }
    ForEachOk([a + "${" + name + "}" + b], elems, 0, vars, name, acc, texts);
    assert texts[0..] == texts;
  }
}
