/**
  `render` of template.py: a line-based template engine.  A template line
  is one of
    - a `#for (v in path)` line, opening a loop whose body runs to the
      matching `#endfor` line (nested loops are matched by a depth count);
    - a `#if (path)` line, pushing the value of `path` on the if stack, and
      an `#endif` line, popping it; while the top of the stack is false,
      every other line is dropped;
    - any other line, copied to the output with each `${path}` replaced by
      `str()` of the value of `path`.
  The output is every copied line followed by "\n", stripped at the end.

  The three regular expressions of the source are written out as
  recognisers: a "path" is a nonempty run of letters, digits, '_' and '.',
  a "name" the same without '.'.
 */
module Template {
  import opened PyText
  import opened TemplateValues

  const END_FOR: string := "#endfor"
  const END_IF: string := "#endif"

  // ---------------------------------------------------------------------
  // the regular expressions

  /** `\w` of a byte-string pattern. */
  predicate IsWordChar(c: char) {
    'a' <= c <= 'z' || 'A' <= c <= 'Z' || '0' <= c <= '9' || c == '_'
  }

  /** `[.\w]` */
  predicate IsPathChar(c: char) {
    c == '.' || IsWordChar(c)
  }

  predicate IsPath(s: string) {
    s != [] && forall k :: 0 <= k < |s| ==> IsPathChar(s[k])
  }

  predicate IsName(s: string) {
    s != [] && forall k :: 0 <= k < |s| ==> IsWordChar(s[k])
  }

  /** End of the run of spaces of `s` from `p` on (` *`, ` +`). */
  function BlanksEnd(s: string, p: nat): (r: nat)
    requires p <= |s|
    ensures p <= r <= |s| && (r < |s| ==> s[r] != ' ')
    ensures forall k :: p <= k < r ==> s[k] == ' '
    decreases |s| - p
  {
    if p < |s| && s[p] == ' ' then BlanksEnd(s, p + 1) else p
  }

  /** End of the run of `\w` characters of `s` from `p` on. */
  function NameEnd(s: string, p: nat): (r: nat)
    requires p <= |s|
    ensures p <= r <= |s| && (r < |s| ==> !IsWordChar(s[r]))
    ensures forall k :: p <= k < r ==> IsWordChar(s[k])
    decreases |s| - p
  {
    if p < |s| && IsWordChar(s[p]) then NameEnd(s, p + 1) else p
  }

  /** End of the run of `[.\w]` characters of `s` from `p` on. */
  function PathEnd(s: string, p: nat): (r: nat)
    requires p <= |s|
    ensures p <= r <= |s| && (r < |s| ==> !IsPathChar(s[r]))
    ensures forall k :: p <= k < r ==> IsPathChar(s[k])
    decreases |s| - p
  {
    if p < |s| && IsPathChar(s[p]) then PathEnd(s, p + 1) else p
  }

  /** The if pattern at the start of `s`: `#if`, any blanks, then a path in parentheses, which it returns. */
  function IfAt(s: string): (r: Option<string>)
    ensures r.Some? ==> IsPath(r.value)
  {
    if !MarkAt(s, 0, "#if") then None
    else
      var q := BlanksEnd(s, 3);
      if !(q < |s| && s[q] == '(') then None
      else
        var e := PathEnd(s, q + 1);
        if e > q + 1 && e < |s| && s[e] == ')' then Some(s[q + 1..e]) else None
  }

  /** `IF_RE.search(s)`: the match at the first position where the pattern matches. */
  function IfSearch(s: string): (r: Option<string>)
    ensures r.Some? ==> IsPath(r.value)
  {
    if IfAt(s).Some? then IfAt(s)
    else if s != [] then IfSearch(s[1..])
    else None
  }

  /** What the for pattern captures: the loop variable and the path of the collection. */
  datatype ForMatch = ForMatch(name: string, collection: string)

  /** The for pattern at the start of `s`: `#for`, any blanks, then an opening parenthesis and what `ForGroups` reads. */
  function ForAt(s: string): (r: Option<ForMatch>)
    ensures r.Some? ==> IsName(r.value.name) && IsPath(r.value.collection)
  {
    if !MarkAt(s, 0, "#for") then None
    else
      var q := BlanksEnd(s, 4);
      if q < |s| && s[q] == '(' then ForGroups(s[q + 1..]) else None
  }

  /** After the parenthesis: a name, at least one blank, `in`, then what `ForCollection` reads. */
  function ForGroups(s: string): (m: Option<ForMatch>)
    ensures m.Some? ==> IsName(m.value.name) && IsPath(m.value.collection)
  {
    var n := NameEnd(s, 0);
    var g := BlanksEnd(s, n);
    if !(n > 0 && g > n && MarkAt(s, g, "in")) then None
    else
      match ForCollection(s[g + 2..])
      case Some(c) => Some(ForMatch(s[..n], c))
      case None => None
  }

  /** After `in`: at least one blank, a path and a closing parenthesis; the path is the collection's. */
  function ForCollection(s: string): (c: Option<string>)
    ensures c.Some? ==> IsPath(c.value)
  {
    var h := BlanksEnd(s, 0);
    var e := PathEnd(s, h);
    if h > 0 && e > h && e < |s| && s[e] == ')' then Some(s[h..e]) else None
  }

  /** `FOR_RE.search(s)` */
  function ForSearch(s: string): (r: Option<ForMatch>)
    ensures r.Some? ==> IsName(r.value.name) && IsPath(r.value.collection)
  {
    if ForAt(s).Some? then ForAt(s)
    else if s != [] then ForSearch(s[1..])
    else None
  }

  /** A `${path}` expression as EXPR_SUBST_RE finds it. */
  predicate IsExpr(e: string) {
    && |e| >= 4 && e[0] == '$' && e[1] == '{' && e[|e| - 1] == '}'
    && forall k :: 2 <= k < |e| - 1 ==> IsPathChar(e[k])
  }

  /** `expr[2:-1]`: the path inside `${...}`. */
  function ExprPath(e: string): (r: string)
    requires IsExpr(e)
    ensures IsPath(r) && e == "${" + r + "}"
  {
    e[2..|e| - 1]
  }

  /** The length of the expression `s` starts with: "${", a non-empty path of word characters and dots, then "}". */
  function ExprAt(s: string): (r: Option<nat>)
    ensures r.Some? ==> 0 < r.value <= |s| && IsExpr(s[..r.value])
  {
    if !MarkAt(s, 0, "${") then None
    else
      var e := PathEnd(s, 2);
      if e > 2 && e < |s| && s[e] == '}' then
        assert s[0] == s[..2][0] && s[1] == s[..2][1];
        var r := s[..e + 1];
        assert forall k :: 0 <= k < |r| ==> r[k] == s[k];
        Some(e + 1)
      else None
  }

  /** `EXPR_SUBST_RE.findall(s)`: the matches, left to right, not overlapping. */
  function FindExprs(s: string): (r: seq<string>)
    ensures forall k :: 0 <= k < |r| ==> IsExpr(r[k])
  {
    if s == [] then []
    else
      match ExprAt(s)
      case Some(e) => [s[..e]] + FindExprs(s[e..])
      case None => FindExprs(s[1..])
  }

  /**
    The expressions taken in the order found; each one's path evaluated in
    the context and every occurrence of the expression, in the line as the
    earlier replacements left it, replaced by the value's text.
   */
  function Substitute(line: string, exprs: seq<string>, vars: map<string, Value>): Result<string>
    requires forall k :: 0 <= k < |exprs| ==> IsExpr(exprs[k])
    decreases |exprs|
  {
    if exprs == [] then Ok(line)
    else
      match Eval(ExprPath(exprs[0]), vars)
      case Err(e) => Err(e)
      case Ok(v) => Substitute(Replace(line, exprs[0], Str(v)), exprs[1..], vars)
  }

  // ---------------------------------------------------------------------
  // render, as functions

  /**
    The locals of `render` between two lines: the text so far, the if
    stack, the pending `#for` match, the lines of the loop body collected so
    far (`for_sub_template` is these lines, each followed by "\n"), and the
    `#for` depth count.
   */
  datatype RenderState = RenderState(result: string, ifStack: seq<Value>, forMatch: Option<ForMatch>,
                                     body: seq<string>, forCount: int)

  const START: RenderState := RenderState("", [], None, [], 0)

  /**
    What holds of the locals after `i` lines: the body holds some of those
    lines, not the `#for` line that opened it; and no loop is pending only
    while the depth count is at most 0, so the count reaches 1 only with a
    loop pending.
   */
  predicate Sound(st: RenderState, i: nat) {
    && |st.body| <= i
    && (st.forMatch.Some? ==> |st.body| < i)
    && (st.forMatch.None? ==> st.forCount <= 0)
  }

  /** The context of one pass of a loop: a copy of `vars` with the element and its index bound. */
  function Bind(vars: map<string, Value>, name: string, elem: Value, index: nat): map<string, Value> {
    vars[name := elem][name + "_index" := Integer(index)]
  }

  /** `render(template, context)` on the lines of the template. */
  function RenderLines(lines: seq<string>, vars: map<string, Value>): Result<string>
    decreases |lines|, 2, 0
  {
    match RenderFrom(lines, 0, vars, START)
    case Ok(r) => Ok(Strip(r))
    case Err(e) => Err(e)
  }

  /** `render(template, context)` on the text of the template. */
  function RenderText(template: string, vars: map<string, Value>): Result<string> {
    RenderLines(SplitLines(template), vars)
  }

  /** The passes of a loop from element `k` on, each rendered body followed by "\n". */
  function ForEach(body: seq<string>, elems: seq<Value>, k: nat, vars: map<string, Value>, name: string,
                   acc: string): Result<string>
    decreases |body|, 3, |elems| - k
  {
    if k >= |elems| then Ok(acc)
    else
      match RenderLines(body, Bind(vars, name, elems[k], k))
      case Err(e) => Err(e)
      case Ok(t) => ForEach(body, elems, k + 1, vars, name, acc + t + "\n")
  }

  /** The loop of `render` over the lines, from line `i` on; the result is not yet stripped. */
  function RenderFrom(lines: seq<string>, i: nat, vars: map<string, Value>, st: RenderState): Result<string>
    requires i <= |lines| && Sound(st, i)
    decreases |lines|, 1, |lines| - i
  {
    if i == |lines| then Ok(st.result)
    else
      var line := lines[i];
      if Contains(line, END_FOR) then
        if st.forCount == 1 then
          // the matching #endfor: render the body once per element
          var fm := st.forMatch.value;
          match Eval(fm.collection, vars)
          case Err(e) => Err(e)
          case Ok(collection) =>
            match Iterate(collection)
            case None => Err(NotIterable)
            case Some(elems) =>
              match ForEach(st.body, elems, 0, vars, fm.name, st.result)
              case Err(e) => Err(e)
              case Ok(result) => RenderFrom(lines, i + 1, vars, RenderState(result, st.ifStack, None, [], 0))
        else
          RenderFrom(lines, i + 1, vars, st.(body := st.body + [line], forCount := st.forCount - 1))
      else
        var m := ForSearch(line);
        var count := if m.Some? then st.forCount + 1 else st.forCount;
        if st.forMatch.Some? then
          // inside a loop body
          RenderFrom(lines, i + 1, vars, st.(body := st.body + [line], forCount := count))
        else if m.Some? then
          // a #for line opens a loop
          RenderFrom(lines, i + 1, vars, st.(forMatch := m, forCount := count))
        else if |st.ifStack| > 0 && !Truthy(st.ifStack[|st.ifStack| - 1]) then
          RenderFrom(lines, i + 1, vars, st)
        else
          match IfSearch(line)
          case Some(path) =>
            (match Eval(path, vars)
             case Err(e) => Err(e)
             case Ok(v) => RenderFrom(lines, i + 1, vars, st.(ifStack := st.ifStack + [v])))
          case None =>
            if Contains(line, END_IF) then
              if st.ifStack == [] then Err(EmptyIfStack)
              else RenderFrom(lines, i + 1, vars, st.(ifStack := st.ifStack[..|st.ifStack| - 1]))
            else
              match Substitute(line, FindExprs(line), vars)
              case Err(e) => Err(e)
              case Ok(text) => RenderFrom(lines, i + 1, vars, st.(result := st.result + text + "\n"))
  }

  // ---------------------------------------------------------------------
  // render, as the source writes it

  /** `render(template, context)` */
  method Render(template: string, context: Context) returns (r: Result<string>)
    ensures r == RenderText(template, context.vars)
    decreases |SplitLines(template)|, 1, 0
  {
    var lines := SplitLines(template);
    ghost var goal := RenderFrom(lines, 0, context.vars, START);
    var result := "";
    var ifStack: seq<Value> := [];  // evaluated expressions from the context
    var forMatch: Option<ForMatch> := None;
    var forSubTemplate := "";
    ghost var body: seq<string> := [];
    var forCount := 0;
    for i := 0 to |lines|
      invariant Sound(RenderState(result, ifStack, forMatch, body, forCount), i)
      invariant forSubTemplate == JoinLines(body)
      invariant forall b :: 0 <= b < |body| ==> NoLineBreak(body[b])
      invariant RenderFrom(lines, i, context.vars, RenderState(result, ifStack, forMatch, body, forCount)) == goal
    {
      var line := lines[i];
      // found #endfor: render the loop body
      if Contains(line, END_FOR) {
        if forCount == 1 {
          var varName := forMatch.value.name;
          var collection := EvalExpr(forMatch.value.collection, context);
          if collection.Err? {
            return Err(collection.error);
          }
          var elems := Iterate(collection.value);
          if elems.None? {
            return Err(NotIterable);
          }
          SplitJoinLines(body);
          var passes := RenderPasses(forSubTemplate, body, varName, elems.value, context, result);
          if passes.Err? {
            return passes;
          }
          result := passes.value;
          // reset the loop state
          forMatch, forSubTemplate, forCount := None, "", 0;
          body := [];
        } else {
          JoinLinesSnoc(body, line);
          forSubTemplate := forSubTemplate + line + "\n";
          body := body + [line];
          forCount := forCount - 1;
        }
        continue;
      }
      var m := ForSearch(line);
      if m.Some? {
        forCount := forCount + 1;
      }
      // collect the loop body
      if forMatch.Some? {
        JoinLinesSnoc(body, line);
        forSubTemplate := forSubTemplate + line + "\n";
        body := body + [line];
        continue;
      }
      if m.Some? {
        forMatch := m;
        continue;
      }
      // #if and #endif
      if |ifStack| > 0 && !Truthy(ifStack[|ifStack| - 1]) {
        continue;
      }
      var ifMatch := IfSearch(line);
      if ifMatch.Some? {
        var value := EvalExpr(ifMatch.value, context);
        if value.Err? {
          assert RenderFrom(lines, i, context.vars, RenderState(result, ifStack, forMatch, body, forCount)) == Err(value.error);
          return Err(value.error);
        }
        ifStack := ifStack + [value.value];
        continue;
      }
      if Contains(line, END_IF) {
        if ifStack == [] {
          return Err(EmptyIfStack);
        }
        ifStack := ifStack[..|ifStack| - 1];
        continue;
      }
      // ${...} expressions
      var text := SubstituteExprs(line, context);
      if text.Err? {
        assert RenderFrom(lines, i, context.vars, RenderState(result, ifStack, forMatch, body, forCount)) == Err(text.error);
        return Err(text.error);
      }
      result := result + text.value + "\n";
    }
    return Ok(Strip(result));
  }

  /**
    `for (index, elem) in enumerate(collection)`: the body rendered once per
    element, in a copy of the context with the element and its index bound,
    each pass followed by "\n".
   */
  method RenderPasses(subTemplate: string, ghost body: seq<string>, varName: string, elems: seq<Value>,
                      context: Context, acc: string) returns (r: Result<string>)
    requires SplitLines(subTemplate) == body
    ensures r == ForEach(body, elems, 0, context.vars, varName, acc)
    decreases |body|, 2, 0
  {
    var forContext := new Context(map[]);
    forContext.Update(context);
    var result := acc;
    for index := 0 to |elems|
      invariant ForEach(body, elems, index, context.vars, varName, result) == ForEach(body, elems, 0, context.vars, varName, acc)
      invariant index == 0 ==> forContext.vars == context.vars
      invariant index > 0 ==> forContext.vars == Bind(context.vars, varName, elems[index - 1], index - 1)
    {
      if index > 0 {
        Rebind(context.vars, varName, elems[index - 1], index - 1, elems[index], index);
      }
      var sub := RenderPass(subTemplate, body, varName, elems[index], index, forContext);
      ForEachStep(body, elems, index, context.vars, varName, result);
      if sub.Err? {
        return sub;
      }
      result := result + sub.value + "\n";
    }
    return Ok(result);
  }

  /** One pass of the loop: the element and its index bound, then the body rendered. */
  method RenderPass(subTemplate: string, ghost body: seq<string>, varName: string, elem: Value, index: nat,
                    forContext: Context) returns (r: Result<string>)
    requires SplitLines(subTemplate) == body
    modifies forContext
    ensures forContext.vars == old(forContext.vars)[varName := elem][varName + "_index" := Integer(index)]
    ensures r == RenderLines(body, forContext.vars)
    decreases |body|, 1, 1
  {
    forContext.Set(varName, elem);
    forContext.Set(varName + "_index", Integer(index));
    r := Render(subTemplate, forContext);
  }

  /** One element of the loop: its pass rendered, then the rest. */
  lemma ForEachStep(body: seq<string>, elems: seq<Value>, k: nat, vars: map<string, Value>, name: string, acc: string)
    requires k < |elems|
    ensures RenderLines(body, Bind(vars, name, elems[k], k)).Err? ==>
              ForEach(body, elems, k, vars, name, acc) == RenderLines(body, Bind(vars, name, elems[k], k))
    ensures RenderLines(body, Bind(vars, name, elems[k], k)).Ok? ==>
              ForEach(body, elems, k, vars, name, acc)
                == ForEach(body, elems, k + 1, vars, name, acc + RenderLines(body, Bind(vars, name, elems[k], k)).value + "\n")
  {
  }

  /** Binding the loop variable again replaces the previous element and index. */
  lemma Rebind(vars: map<string, Value>, name: string, e: Value, k: nat, e': Value, k': nat)
    ensures Bind(vars, name, e, k)[name := e'][name + "_index" := Integer(k')] == Bind(vars, name, e', k')
  {
  }

  /** The `${...}` expressions of a line replaced, one after the other. */
  method SubstituteExprs(line: string, context: Context) returns (r: Result<string>)
    ensures r == Substitute(line, FindExprs(line), context.vars)
  {
    var exprs := FindExprs(line);
    var text := line;
    for j := 0 to |exprs|
      invariant Substitute(text, exprs[j..], context.vars) == Substitute(line, exprs, context.vars)
    {
      assert exprs[j..][1..] == exprs[j + 1..];
      var value := EvalExpr(ExprPath(exprs[j]), context);
      if value.Err? {
        return Err(value.error);
      }
      text := Replace(text, exprs[j], Str(value.value));
    }
    return Ok(text);
  }
}
