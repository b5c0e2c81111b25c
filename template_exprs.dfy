/**
  Lines holding any number of `${path}` expressions: `render` replaces
  each by `str()` of its path's value, left to right, the same expression
  written twice included, or fails with the first expression whose path
  does not evaluate.
 */
module TemplateExprs {
  import opened PyText
  import opened TemplateValues
  import opened Template
  import opened TemplateFacts

  /** The expression that shows `path`. */
  function Expr(path: string): string {
    "${" + path + "}"
  }

  /** The expressions of `paths`, in order. */
  function Exprs(paths: seq<string>): seq<string> {
    seq(|paths|, k requires 0 <= k < |paths| => Expr(paths[k]))
  }

  /** `pieces[0] + fills[0] + pieces[1] + ... + fills[n - 1] + pieces[n]`. */
  function Weave(pieces: seq<string>, fills: seq<string>): string
    requires |pieces| == |fills| + 1
    decreases |fills|
  {
    if fills == [] then pieces[0] else pieces[0] + fills[0] + Weave(pieces[1..], fills[1..])
  }

  /** What an evaluation shows when it succeeds (nothing when it fails). */
  function ValueText(r: Result<Value>): string {
    if r.Ok? then Str(r.value) else ""
  }

  /** What each path shows. */
  function Texts(paths: seq<string>, vars: map<string, Value>): seq<string> {
    seq(|paths|, k requires 0 <= k < |paths| => ValueText(Eval(paths[k], vars)))
  }

  /** The index of the first path that does not evaluate; `|paths|` when every one does. */
  function FirstFailing(paths: seq<string>, vars: map<string, Value>): (r: nat)
    ensures r <= |paths|
    ensures forall k :: 0 <= k < r ==> Eval(paths[k], vars).Ok?
    ensures r < |paths| ==> Eval(paths[r], vars).Err?
  {
    if paths == [] || Eval(paths[0], vars).Err? then 0 else 1 + FirstFailing(paths[1..], vars)
  }

  /** Pieces of text without `$` between the expressions of a line. */
  predicate NoDollar(pieces: seq<string>) {
    forall k :: 0 <= k < |pieces| ==> '$' !in pieces[k]
  }

  /** Paths, each made of `[.\w]` characters. */
  predicate Paths(paths: seq<string>) {
    forall k :: 0 <= k < |paths| ==> IsPath(paths[k])
  }

  /** Paths whose values, where they evaluate, are shown without a `$`. */
  predicate PlainValues(paths: seq<string>, vars: map<string, Value>) {
    forall k :: 0 <= k < |paths| ==> '$' !in ValueText(Eval(paths[k], vars))
  }

  // ---------------------------------------------------------------------
  // findall

  lemma WeaveFirst(pieces: seq<string>, fills: seq<string>)
    requires |pieces| == |fills| + 1 && fills != []
    ensures Weave(pieces, fills) == pieces[0] + (fills[0] + Weave(pieces[1..], fills[1..]))
  {
  }

  lemma ExprsRest(paths: seq<string>)
    requires paths != []
    ensures Exprs(paths)[0] == Expr(paths[0]) && Exprs(paths)[1..] == Exprs(paths[1..])
  {
  }

  /** `findall` on a woven line finds exactly the expressions, in order. */
  lemma {:induction false} FindWoven(pieces: seq<string>, paths: seq<string>)
    requires |pieces| == |paths| + 1 && NoDollar(pieces) && Paths(paths)
    ensures FindExprs(Weave(pieces, Exprs(paths))) == Exprs(paths)
    decreases |paths|
  {
    if paths == [] {
      NoExprs(pieces[0]);
    } else {
      var fills := Exprs(paths);
      var e := Expr(paths[0]);
      var rest := Weave(pieces[1..], fills[1..]);
      ExprsRest(paths);
      WeaveFirst(pieces, fills);
      FindSkip(pieces[0], e + rest);
      ExprAtForm(paths[0], rest);
      var s := e + rest;
      assert s[..|e|] == e && s[|e|..] == rest;
      assert FindExprs(s) == [e] + FindExprs(rest);
      FindWoven(pieces[1..], paths[1..]);
    }
  }

  // ---------------------------------------------------------------------
  // str.replace

  /** `fills` with `e` replaced by `t` wherever it stands whole. */
  function Swap(fills: seq<string>, e: string, t: string): seq<string> {
    seq(|fills|, k requires 0 <= k < |fills| => if fills[k] == e then t else fills[k])
  }

  lemma {:induction false} ExprNoDollar(f: string)
    requires IsExpr(f)
    ensures '$' !in f[1..]
  {
    forall k | 1 <= k < |f|
      ensures f[k] != '$'
    {
      if 2 <= k < |f| - 1 {
        assert IsPathChar(f[k]);
      }
    }
  }

  /** Another expression never starts where an expression does: the scan steps over it. */
  lemma ExprNotAt(f: string, e: string, rest: string)
    requires IsExpr(f) && IsExpr(e) && f != e && |f + rest| >= |e|
    ensures (f + rest)[..|e|] != e
  {
    var s := f + rest;
    if |e| < |f| {
      assert s[|e| - 1] == f[|e| - 1] && IsPathChar(f[|e| - 1]);
    } else if |e| == |f| {
      assert s[..|e|] == f;
    } else {
      assert s[|f| - 1] == '}' && IsPathChar(e[|f| - 1]);
    }
  }

  /** A different expression is copied whole by `replace`. */
  lemma ExprSkip(f: string, rest: string, e: string, t: string)
    requires IsExpr(f) && IsExpr(e) && f != e
    ensures Replace(f + rest, e, t) == f + Replace(rest, e, t)
  {
    var s := f + rest;
    if |s| < |e| {
      ReplaceShort(s, e, t);
      ReplaceShort(rest, e, t);
    } else {
      ExprNotAt(f, e, rest);
      assert s[1..] == f[1..] + rest;
      ExprNoDollar(f);
      ReplaceSkip(f[1..], rest, e, t);
      assert [s[0]] + (f[1..] + Replace(rest, e, t)) == f + Replace(rest, e, t);
    }
  }

  /** What one fill becomes in front of the rest of a line. */
  lemma FillStep(f: string, rest: string, e: string, t: string)
    requires IsExpr(e) && ('$' !in f || IsExpr(f))
    ensures Replace(f + rest, e, t) == (if f == e then t else f) + Replace(rest, e, t)
  {
    if f == e {
      ReplaceHead(rest, e, t);
    } else if '$' !in f {
      ReplaceSkip(f, rest, e, t);
    } else {
      ExprSkip(f, rest, e, t);
    }
  }

  /**
    `replace` of one expression in a woven line: the pieces stay, each
    fill that is the expression becomes the replacement, every other fill
    stays.
   */
  lemma {:induction false} ReplaceWoven(pieces: seq<string>, fills: seq<string>, e: string, t: string)
    requires |pieces| == |fills| + 1 && NoDollar(pieces) && IsExpr(e)
    requires forall k :: 0 <= k < |fills| ==> '$' !in fills[k] || IsExpr(fills[k])
    ensures Replace(Weave(pieces, fills), e, t) == Weave(pieces, Swap(fills, e, t))
    decreases |fills|
  {
    var swapped := Swap(fills, e, t);
    if fills == [] {
      ReplaceSkip(pieces[0], [], e, t);
      assert pieces[0] + [] == pieces[0];
    } else {
      var rest := Weave(pieces[1..], fills[1..]);
      WeaveFirst(pieces, fills);
      ReplaceSkip(pieces[0], fills[0] + rest, e, t);
      FillStep(fills[0], rest, e, t);
      ReplaceWoven(pieces[1..], fills[1..], e, t);
      assert swapped[1..] == Swap(fills[1..], e, t);
      WeaveFirst(pieces, swapped);
    }
  }

  // ---------------------------------------------------------------------
  // substitution

  /** The fills after the first `m` expressions are substituted: their paths' texts, and the rest still expressions. */
  function Filled(paths: seq<string>, m: nat, vars: map<string, Value>): seq<string>
    requires m <= |paths|
  {
    seq(|paths|, k requires 0 <= k < |paths| =>
      if paths[k] in paths[..m] then ValueText(Eval(paths[k], vars)) else Expr(paths[k]))
  }

  lemma ExprInjective(p: string, q: string)
    requires Expr(p) == Expr(q)
    ensures p == q
  {
    assert p == Expr(p)[2..|Expr(p)| - 1];
  }

  lemma ExprIs(p: string)
    requires IsPath(p)
    ensures IsExpr(Expr(p)) && ExprPath(Expr(p)) == p && '$' in Expr(p)
  {
    assert Expr(p)[0] == '$';
  }

  /** Substituting expression `m` takes the fills from `Filled(m)` to `Filled(m + 1)`. */
  lemma FilledSwap(paths: seq<string>, m: nat, vars: map<string, Value>)
    requires m < |paths| && Paths(paths) && PlainValues(paths, vars)
    ensures Swap(Filled(paths, m, vars), Expr(paths[m]), ValueText(Eval(paths[m], vars))) == Filled(paths, m + 1, vars)
  {
    var before, after := Filled(paths, m, vars), Filled(paths, m + 1, vars);
    var swapped := Swap(before, Expr(paths[m]), ValueText(Eval(paths[m], vars)));
    assert paths[..m + 1] == paths[..m] + [paths[m]];
    forall k | 0 <= k < |paths|
      ensures swapped[k] == after[k]
    {
      ExprIs(paths[m]);
      if paths[k] in paths[..m] {
        assert '$' !in before[k];
      } else if before[k] == Expr(paths[m]) {
        ExprInjective(paths[k], paths[m]);
      } else {
        assert paths[k] != paths[m];
      }
    }
  }

  /** Every fill is either a text without `$` or an expression. */
  lemma FilledForm(paths: seq<string>, m: nat, vars: map<string, Value>)
    requires m <= |paths| && Paths(paths) && PlainValues(paths, vars)
    ensures forall k :: 0 <= k < |paths| ==> '$' !in Filled(paths, m, vars)[k] || IsExpr(Filled(paths, m, vars)[k])
  {
    forall k | 0 <= k < |paths|
      ensures '$' !in Filled(paths, m, vars)[k] || IsExpr(Filled(paths, m, vars)[k])
    {
      ExprIs(paths[k]);
    }
  }

  lemma ExprsAt(paths: seq<string>, m: nat)
    requires m < |paths|
    ensures Exprs(paths)[m..][0] == Expr(paths[m]) && Exprs(paths)[m..][1..] == Exprs(paths)[m + 1..]
  {
  }

  lemma FilledAll(paths: seq<string>, vars: map<string, Value>)
    ensures Filled(paths, |paths|, vars) == Texts(paths, vars)
  {
    assert paths[..|paths|] == paths;
  }

  lemma FilledNone(paths: seq<string>, vars: map<string, Value>)
    ensures Filled(paths, 0, vars) == Exprs(paths)
  {
  }

  /**
    The substitution of the expressions from `m` on, in a line whose first
    `m` expressions evaluated and were substituted: the line fully
    substituted when no path fails, else the error of the first path that
    fails.
   */
  lemma {:induction false} SubstituteFrom(pieces: seq<string>, paths: seq<string>, m: nat, vars: map<string, Value>)
    requires |pieces| == |paths| + 1 && NoDollar(pieces) && Paths(paths) && PlainValues(paths, vars)
    requires m <= FirstFailing(paths, vars)
    ensures FirstFailing(paths, vars) == |paths| ==>
              Substitute(Weave(pieces, Filled(paths, m, vars)), Exprs(paths)[m..], vars) == Ok(Weave(pieces, Texts(paths, vars)))
    ensures FirstFailing(paths, vars) < |paths| ==>
              Substitute(Weave(pieces, Filled(paths, m, vars)), Exprs(paths)[m..], vars)
                == Err(Eval(paths[FirstFailing(paths, vars)], vars).error)
    decreases |paths| - m
  {
    var exprs := Exprs(paths)[m..];
    var line := Weave(pieces, Filled(paths, m, vars));
    if m == |paths| {
      FilledAll(paths, vars);
      assert exprs == [];
    } else {
      if Eval(paths[m], vars).Err? {
        SubstituteFails(pieces, paths, m, vars);
      } else {
        SubstituteStep(pieces, paths, m, vars);
        SubstituteFrom(pieces, paths, m + 1, vars);
      }
    }
  }

  /** Expression `m`, when its path does not evaluate, stops the substitution with that path's error. */
  lemma SubstituteFails(pieces: seq<string>, paths: seq<string>, m: nat, vars: map<string, Value>)
    requires |pieces| == |paths| + 1 && Paths(paths)
    requires m < |paths| && Eval(paths[m], vars).Err?
    ensures Substitute(Weave(pieces, Filled(paths, m, vars)), Exprs(paths)[m..], vars) == Err(Eval(paths[m], vars).error)
  {
    ExprsAt(paths, m);
    ExprIs(paths[m]);
  }

  /** Expression `m`, when its path evaluates, is replaced wherever it stands and the rest follow. */
  lemma SubstituteStep(pieces: seq<string>, paths: seq<string>, m: nat, vars: map<string, Value>)
    requires |pieces| == |paths| + 1 && NoDollar(pieces) && Paths(paths) && PlainValues(paths, vars)
    requires m < |paths| && Eval(paths[m], vars).Ok?
    ensures Substitute(Weave(pieces, Filled(paths, m, vars)), Exprs(paths)[m..], vars)
         == Substitute(Weave(pieces, Filled(paths, m + 1, vars)), Exprs(paths)[m + 1..], vars)
  {
    var v := Eval(paths[m], vars).value;
    ExprsAt(paths, m);
    ExprIs(paths[m]);
    FilledForm(paths, m, vars);
    ReplaceWoven(pieces, Filled(paths, m, vars), Expr(paths[m]), Str(v));
    FilledSwap(paths, m, vars);
  }

  /**
    A line of pieces without `$` and `${path}` expressions: `findall` finds
    the expressions in order and the substitution gives the line with each
    expression replaced by what its path shows (an expression written
    twice shows the same text twice), or, when a path does not evaluate,
    the error of the first such path.
   */
  lemma SubstituteWoven(pieces: seq<string>, paths: seq<string>, vars: map<string, Value>)
    requires |pieces| == |paths| + 1 && NoDollar(pieces) && Paths(paths) && PlainValues(paths, vars)
    ensures FindExprs(Weave(pieces, Exprs(paths))) == Exprs(paths)
    ensures FirstFailing(paths, vars) == |paths| ==>
              Substitute(Weave(pieces, Exprs(paths)), Exprs(paths), vars) == Ok(Weave(pieces, Texts(paths, vars)))
    ensures FirstFailing(paths, vars) < |paths| ==>
              Substitute(Weave(pieces, Exprs(paths)), Exprs(paths), vars)
                == Err(Eval(paths[FirstFailing(paths, vars)], vars).error)
  {
    FindWoven(pieces, paths);
    FilledNone(paths, vars);
    SubstituteFrom(pieces, paths, 0, vars);
    assert Exprs(paths)[0..] == Exprs(paths);
  }

  // ---------------------------------------------------------------------
  // render

  /** Pieces without `#`, woven with expressions, give a line without `#`. */
  lemma {:induction false} WovenNoHash(pieces: seq<string>, paths: seq<string>)
    requires |pieces| == |paths| + 1 && Paths(paths)
    requires forall k :: 0 <= k < |pieces| ==> '#' !in pieces[k]
    ensures '#' !in Weave(pieces, Exprs(paths))
    decreases |paths|
  {
    if paths != [] {
      ExprsRest(paths);
      PathNoHash(paths[0]);
      WovenNoHash(pieces[1..], paths[1..]);
      WeaveFirst(pieces, Exprs(paths));
    }
  }

  /**
    A template of one line of pieces without `#` or `$` and any number of
    `${path}` expressions renders as the line with every expression
    replaced by what its path shows; when a path does not evaluate,
    `render` fails with the error of the first such path.
   */
  lemma ExprsLine(pieces: seq<string>, paths: seq<string>, vars: map<string, Value>)
    requires |pieces| == |paths| + 1 && Paths(paths) && PlainValues(paths, vars)
    requires forall k :: 0 <= k < |pieces| ==> '#' !in pieces[k] && '$' !in pieces[k]
    ensures FirstFailing(paths, vars) == |paths| ==>
              RenderLines([Weave(pieces, Exprs(paths))], vars) == Ok(Strip(Weave(pieces, Texts(paths, vars)) + "\n"))
    ensures FirstFailing(paths, vars) < |paths| ==>
              RenderLines([Weave(pieces, Exprs(paths))], vars) == Err(Eval(paths[FirstFailing(paths, vars)], vars).error)
  {
    SubstituteWoven(pieces, paths, vars);
    WovenNoHash(pieces, paths);
    OneLine(Weave(pieces, Exprs(paths)), vars);
  }

  /**
    A loop over one such line: each pass shows the line with every
    expression replaced by what its path shows with the loop variable bound
    to the element, the passes in the order of the collection.
   */
  lemma ForEachExprs(pieces: seq<string>, paths: seq<string>, name: string, elems: seq<Value>,
                     vars: map<string, Value>, acc: string)
    requires |pieces| == |paths| + 1 && Paths(paths)
    requires forall k :: 0 <= k < |pieces| ==> '#' !in pieces[k] && '$' !in pieces[k]
    requires forall n :: 0 <= n < |elems| ==>
      PlainValues(paths, Bind(vars, name, elems[n], n)) && FirstFailing(paths, Bind(vars, name, elems[n], n)) == |paths|
    ensures ForEach([Weave(pieces, Exprs(paths))], elems, 0, vars, name, acc)
         == Ok(acc + JoinLines(seq(|elems|, n requires 0 <= n < |elems| =>
                                 Strip(Weave(pieces, Texts(paths, Bind(vars, name, elems[n], n))) + "\n"))))
  {
    var line := Weave(pieces, Exprs(paths));
    var texts := seq(|elems|, n requires 0 <= n < |elems| =>
                   Strip(Weave(pieces, Texts(paths, Bind(vars, name, elems[n], n))) + "\n"));
    forall n | 0 <= n < |elems|
      ensures RenderLines([line], Bind(vars, name, elems[n], n)) == Ok(texts[n])
    {
      ExprsLine(pieces, paths, Bind(vars, name, elems[n], n));
    }
    ForEachOk([line], elems, 0, vars, name, acc, texts);
    assert texts[0..] == texts;
  }
}
