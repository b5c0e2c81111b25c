/**
  The values a template is rendered with, and `eval_expr` of template.py,
  which looks up a dotted path such as "var.upper.lower" in the context.

  The source works on arbitrary Python objects through `getattr`,
  `callable`, `str()` and truth testing; here a value is one of the kinds
  the templates of this program are rendered with: None, strings, booleans,
  integers, sequences (lists and tuples) and objects whose attributes are
  plain values or methods taking no arguments.  Sequences and objects carry
  the text `str()` gives for them.
 */
module TemplateValues {
  import opened PyText

  datatype Value =
    | NoneValue
    | Text(s: string)
    | Truth(b: bool)
    | Integer(n: int)
    | Items(elems: seq<Value>, shown: string)
    | Record(members: map<string, Member>, shown: string)

  /** An attribute: a plain value, or a method taking no arguments and what a call returns. */
  datatype Member = Field(value: Value) | Method(result: Value)

  /** The exceptions rendering can raise. */
  datatype Error =
    | NoAttribute(name: string)  // AttributeError from getattr
    | NotIterable                // TypeError from enumerate
    | EmptyIfStack               // IndexError from if_stack.pop()

  datatype Result<T> = Ok(value: T) | Err(error: Error)

  // ---------------------------------------------------------------------
  // str.upper() and str.lower() on 8-bit strings

  function UpperChar(c: char): char {
    if 'a' <= c <= 'z' then (c as int - 32) as char else c
  }

  function LowerChar(c: char): char {
    if 'A' <= c <= 'Z' then (c as int + 32) as char else c
  }

  /** `s.upper()`: ASCII letters to upper case, every other character kept. */
  function Upper(s: string): (r: string)
    ensures |r| == |s|
    ensures forall k :: 0 <= k < |s| ==> (r[k] != s[k] <==> 'a' <= s[k] <= 'z')
    ensures forall k :: 0 <= k < |s| ==> !('a' <= r[k] <= 'z')
  {
    seq(|s|, k requires 0 <= k < |s| => UpperChar(s[k]))
  }

  /** `s.lower()`: ASCII letters to lower case, every other character kept. */
  function Lower(s: string): (r: string)
    ensures |r| == |s|
    ensures forall k :: 0 <= k < |s| ==> (r[k] != s[k] <==> 'A' <= s[k] <= 'Z')
    ensures forall k :: 0 <= k < |s| ==> !('A' <= r[k] <= 'Z')
  {
    seq(|s|, k requires 0 <= k < |s| => LowerChar(s[k]))
  }

  /** Lower-casing forgets an upper-casing: `s.upper().lower() == s.lower()`. */
  lemma LowerUpper(s: string)
    ensures Lower(Upper(s)) == Lower(s)
  {
    forall k | 0 <= k < |s| ensures Lower(Upper(s))[k] == Lower(s)[k] {
      assert Upper(s)[k] == UpperChar(s[k]);
    }
  }

  // ---------------------------------------------------------------------
  // getattr, callable, str() and truth

  /** `getattr(value, name)`: the attribute, or None where Python raises AttributeError. */
  function GetAttr(v: Value, name: string): (m: Option<Member>)
    ensures v.Record? ==> (m.Some? <==> name in v.members)
    ensures v.Text? ==> (m.Some? <==> name == "upper" || name == "lower")
    ensures !v.Record? && !v.Text? ==> m.None?
  {
    match v
    case Text(s) =>
      if name == "upper" then Some(Method(Text(Upper(s))))
      else if name == "lower" then Some(Method(Text(Lower(s))))
      else None
    case Record(members, _) => if name in members then Some(members[name]) else None
    case _ => None
  }

  /** `if callable(value): value = value()`: a method is called, a plain value kept. */
  function Call(m: Member): Value {
    match m
    case Field(v) => v
    case Method(r) => r
  }

  /** `str(value)` */
  function Str(v: Value): string {
    match v
    case NoneValue => "None"
    case Text(s) => s
    case Truth(b) => if b then "True" else "False"
    case Integer(n) => IntToString(n)
    case Items(_, shown) => shown
    case Record(_, shown) => shown
  }

  /** Python's truth test: None, False, 0 and empty strings and sequences are false. */
  predicate Truthy(v: Value) {
    match v
    case NoneValue => false
    case Text(s) => s != []
    case Truth(b) => b
    case Integer(n) => n != 0
    case Items(elems, _) => elems != []
    case Record(_, _) => true
  }

  /** What `enumerate(value)` walks through: the elements of a sequence, the characters of a string. */
  function Iterate(v: Value): (r: Option<seq<Value>>)
    ensures v.Items? ==> r == Some(v.elems)
    ensures v.Text? ==> r.Some? && |r.value| == |v.s|
    ensures v.Text? ==> forall k :: 0 <= k < |v.s| ==> r.value[k] == Text([v.s[k]])
    ensures !v.Items? && !v.Text? ==> r.None?
  {
    match v
    case Items(elems, _) => Some(elems)
    case Text(s) => Some(seq(|s|, k requires 0 <= k < |s| => Text([s[k]])))
    case _ => None
  }

  // ---------------------------------------------------------------------
  // the context dictionary

  /** A template context: a dictionary from names to values. */
  class Context {
    var vars: map<string, Value>

    constructor (vars: map<string, Value>)
      ensures this.vars == vars
    {
      this.vars := vars;
    }

    /** `context.get(name, None)` */
    function Get(name: string): (v: Value)
      reads this
      ensures name !in vars ==> v == NoneValue
      ensures name in vars ==> v == vars[name]
    {
      Lookup(vars, name)
    }

    /** `context[name] = v` */
    method Set(name: string, v: Value)
      modifies this
      ensures vars == old(vars)[name := v]
    {
      vars := vars[name := v];
    }

    /** `context.update(other)`: every entry of `other` copied in, replacing an entry with its name. */
    method Update(other: Context)
      modifies this
      ensures vars == old(vars) + old(other.vars)
    {
      vars := vars + other.vars;
    }
  }

  /** `context.get(name, None)` on the dictionary's entries. */
  function Lookup(vars: map<string, Value>, name: string): Value {
    if name in vars then vars[name] else NoneValue
  }

  // ---------------------------------------------------------------------
  // eval_expr

  /**
    The loop of `eval_expr` from part `i` on: while the value is not None,
    look up the next part as an attribute and call it if it is a method.
   */
  function Walk(v: Value, parts: seq<string>, i: nat): Result<Value>
    decreases |parts| - i
  {
    if v == NoneValue || i >= |parts| then Ok(v)
    else
      match GetAttr(v, parts[i])
      case None => Err(NoAttribute(parts[i]))
      case Some(m) => Walk(Call(m), parts, i + 1)
  }

  /** `eval_expr(expr, context)`: the first name from the context, the later ones as attributes. */
  function Eval(expr: string, vars: map<string, Value>): Result<Value> {
    var parts := SplitOn(expr, '.');
    Walk(Lookup(vars, parts[0]), parts, 1)
  }

  /** `eval_expr` as the source writes it. */
  method EvalExpr(expr: string, context: Context) returns (r: Result<Value>)
    ensures r == Eval(expr, context.vars)
  {
    var parts := SplitOn(expr, '.');
    var value := context.Get(parts[0]);
    var i := 1;
    while value != NoneValue && i < |parts|
      invariant 1 <= i <= |parts|
      invariant Walk(value, parts, i) == Eval(expr, context.vars)
      decreases |parts| - i
    {
      var attr := GetAttr(value, parts[i]);
      if attr.None? {
        return Err(NoAttribute(parts[i]));
      }
      var member := attr.value;
      if member.Method? {
        // callable(value): call it
        value := member.result;
      } else {
        value := member.value;
      }
      i := i + 1;
    }
    return Ok(value);
  }

  /** One more path part after a value has been reached: what `eval_expr` does with it. */
  function Then(r: Result<Value>, name: string): Result<Value> {
    match r
    case Err(e) => Err(e)
    case Ok(v) =>
      if v == NoneValue then Ok(NoneValue)
      else
        match GetAttr(v, name)
        case None => Err(NoAttribute(name))
        case Some(m) => Ok(Call(m))
  }

  lemma {:induction false} WalkSnoc(v: Value, parts: seq<string>, i: nat, name: string)
    requires 1 <= i <= |parts|
    ensures Walk(v, parts + [name], i) == Then(Walk(v, parts, i), name)
    decreases |parts| - i
  {
    var parts' := parts + [name];
    if v != NoneValue && i < |parts| {
      assert parts'[i] == parts[i];
      match GetAttr(v, parts[i])
      case None =>
      case Some(m) => WalkSnoc(Call(m), parts, i + 1, name);
    } else if v != NoneValue {
      assert parts'[i] == name;
      match GetAttr(v, name)
      case None =>
      case Some(m) =>
        assert Walk(Call(m), parts', i + 1) == Ok(Call(m));
    }
  }

  /** A name without a dot is split into itself. */
  lemma SplitOnNoSep(s: string, sep: char)
    requires sep !in s
    ensures SplitOn(s, sep) == [s]
  {
    assert s[..|s|] == s;
  }

  /**
    A dotted path is evaluated from the left, one attribute at a time:
    `eval_expr(e + "." + name)` is `eval_expr(e)` followed by looking up
    `name` on its value (and calling it if it is a method), None staying None.
   */
  lemma EvalDot(expr: string, name: string, vars: map<string, Value>)
    requires '.' !in name
    ensures Eval(expr + "." + name, vars) == Then(Eval(expr, vars), name)
  {
    SplitOnConcat(expr, '.', name);
    SplitOnNoSep(name, '.');
    var parts := SplitOn(expr, '.');
    assert expr + "." + name == expr + ['.'] + name;
    assert SplitOn(expr + "." + name, '.') == parts + [name];
    assert (parts + [name])[0] == parts[0];
    WalkSnoc(Lookup(vars, parts[0]), parts, 1, name);
  }

  /** A name without a dot evaluates to its entry in the context, None when it has none. */
  lemma EvalName(name: string, vars: map<string, Value>)
    requires '.' !in name
    ensures Eval(name, vars) == Ok(Lookup(vars, name))
    ensures name !in vars ==> Eval(name, vars) == Ok(NoneValue)
  {
    SplitOnNoSep(name, '.');
  }

  /**
    A path through a string's methods: `eval_expr("var.upper.lower", {'var': s})`
    is `s.lower()`, for any variable name.
   */
  lemma EvalUpperLower(name: string, s: string)
    requires '.' !in name
    ensures Eval(name + ".upper.lower", map[name := Text(s)]) == Ok(Text(Lower(s)))
  {
    var vars := map[name := Text(s)];
    EvalName(name, vars);
    EvalDot(name, "upper", vars);
    assert name + "." + "upper" == name + ".upper";
    assert Eval(name + ".upper", vars) == Ok(Text(Upper(s)));
    EvalDot(name + ".upper", "lower", vars);
    assert name + ".upper" + "." + "lower" == name + ".upper.lower";
    assert Eval(name + ".upper.lower", vars) == Ok(Text(Lower(Upper(s))));
    LowerUpper(s);
  }

  /** `eval_expr("var.prop", {})` is None: a missing first name ends the walk, whatever follows. */
  lemma EvalMissingFirst(name: string, prop: string, vars: map<string, Value>)
    requires '.' !in name && '.' !in prop && name !in vars
    ensures Eval(name + "." + prop, vars) == Ok(NoneValue)
  {
    EvalName(name, vars);
    EvalDot(name, prop, vars);
  }
}
