/** The Dialect evaluator (outdated/mcp-server/src/dialect.rs).  The functions a host
    registers are opaque: each takes the host's data and one argument object, and
    gives new data and a value or an error. */
module DialectEval {
  import opened SortedMap
  import opened DialectAst

  /** JSON, without fractions. */
  datatype Value =
    | Null
    | Bool(b: bool)
    | Number(n: int)
    | Text(s: string)
    | List(items: seq<Value>)
    | Map(members: seq<Entry<Value>>)

  datatype Failure =
    | UnknownFunction(name: string)
    | TooManyArguments(name: string, expected: nat, got: nat)
    | Failed(reason: string)

  datatype Result<+T> = Ok(value: T) | Err(error: Failure)

  /** Data and result after something has run. */
  datatype Ran<S, +T> = Ran(state: S, result: Result<T>)

  datatype Function<!U> = Function(parameters: seq<string>, run: (U, Value) -> Ran<U, Value>)

  /** One call of a host function: its key, its argument, what came out. */
  datatype Invocation = Invocation(key: string, argument: Value, result: Result<Value>)

  /** The host's data, and every call made so far. */
  datatype State<U> = State(userdata: U, log: seq<Invocation>)

  type Table<!U> = map<string, Function<U>>

  function LowerChar(c: char): char {
    if 'A' <= c <= 'Z' then (c as int + 32) as char else c
  }

  /** `to_ascii_lowercase`. */
  function Lower(s: string): (r: string)
    ensures |r| == |s| && forall k :: 0 <= k < |s| ==> r[k] == LowerChar(s[k])
  {
    seq(|s|, k requires 0 <= k < |s| => LowerChar(s[k]))
  }

  /** Positional arguments under the names of the parameters. */
  function Zip<V>(keys: seq<string>, values: seq<V>): (r: seq<Entry<V>>)
    requires |values| <= |keys|
    ensures |r| == |values| && forall k :: 0 <= k < |r| ==> r[k] == Entry(keys[k], values[k])
  {
    seq(|values|, k requires 0 <= k < |values| => Entry(keys[k], values[k]))
  }

  function Keys<V>(fields: seq<Entry<V>>): (r: seq<string>)
    ensures |r| == |fields| && forall k :: 0 <= k < |r| ==> r[k] == fields[k].key
  {
    seq(|fields|, k requires 0 <= k < |fields| => fields[k].key)
  }

  /** `call_function_positional`. */
  function Invoke<U>(fs: Table<U>, st: State<U>, name: string, args: seq<Value>): Ran<State<U>, Value> {
    var key := Lower(name);
    if key !in fs then Ran(st, Err(UnknownFunction(name)))
    else
      var f := fs[key];
      if |args| > |f.parameters| then
        Ran(st, Err(TooManyArguments(name, |f.parameters|, |f.parameters| + 1)))
      else
        var argument := Map(InsertAll(Zip(f.parameters, args)));
        var out := f.run(st.userdata, argument);
        Ran(State(out.state, st.log + [Invocation(key, argument, out.result)]), out.result)
  }

  function Cons<T>(head: T, tail: Result<seq<T>>): Result<seq<T>> {
    match tail
    case Ok(rest) => Ok([head] + rest)
    case Err(e) => Err(e)
  }

  /** `evaluate_ast`. */
  function Eval<U>(fs: Table<U>, st: State<U>, a: Ast): Ran<State<U>, Value>
    decreases a, 1
  {
    match a
    case Call(name, args) =>
      var out := EvalAll(fs, st, args);
      if out.result.Err? then Ran(out.state, Err(out.result.error))
      else Invoke(fs, out.state, name, out.result.value)
    case Int(n) => Ran(st, Ok(Number(n)))
    case Str(s) => Ran(st, Ok(Text(s)))
    case Boolean(b) => Ran(st, Ok(Bool(b)))
    case Array(elements) =>
      var out := EvalAll(fs, st, elements);
      Ran(out.state, if out.result.Err? then Err(out.result.error) else Ok(List(out.result.value)))
    case Object(fields) =>
      var out := EvalFields(fs, st, fields);
      Ran(out.state, if out.result.Err? then Err(out.result.error) else Ok(Map(InsertAll(out.result.value))))
  }

  /** Left to right, up to the first error. */
  function EvalAll<U>(fs: Table<U>, st: State<U>, xs: seq<Ast>): (r: Ran<State<U>, seq<Value>>)
    ensures r.result.Ok? ==> |r.result.value| == |xs|
    decreases xs, 0
  {
    if xs == [] then Ran(st, Ok([]))
    else
      var out := Eval(fs, st, xs[0]);
      if out.result.Err? then Ran(out.state, Err(out.result.error))
      else
        var rest := EvalAll(fs, out.state, xs[1..]);
        Ran(rest.state, Cons(out.result.value, rest.result))
  }

  function EvalFields<U>(fs: Table<U>, st: State<U>, xs: seq<Entry<Ast>>): Ran<State<U>, seq<Entry<Value>>>
    decreases xs, 0
  {
    if xs == [] then Ran(st, Ok([]))
    else
      var out := Eval(fs, st, xs[0].value);
      if out.result.Err? then Ran(out.state, Err(out.result.error))
      else
        var rest := EvalFields(fs, out.state, xs[1..]);
        Ran(rest.state, Cons(Entry(xs[0].key, out.result.value), rest.result))
  }

  // ----- the evaluator as it runs -----

  function Prefixed<T>(xs: seq<T>, r: Result<seq<T>>): Result<seq<T>> {
    match r
    case Ok(ys) => Ok(xs + ys)
    case Err(e) => Err(e)
  }

  lemma PrefixedCons<T>(xs: seq<T>, y: T, r: Result<seq<T>>)
    ensures Prefixed(xs, Cons(y, r)) == Prefixed(xs + [y], r)
  {
    if r.Ok? {
      assert xs + ([y] + r.value) == (xs + [y]) + r.value;
    }
  }

  lemma PrefixedNothing<T>(r: Result<seq<T>>)
    ensures Prefixed([], r) == r
  {
    if r.Ok? {
      assert [] + r.value == r.value;
    }
  }

  class DialectInterpreter<U> {
    var functions: Table<U>
    var userdata: U
    ghost var invoked: seq<Invocation>

    ghost function Now(): State<U>
      reads this
    {
      State(userdata, invoked)
    }

    constructor (data: U)
      ensures functions == map[] && Now() == State(data, [])
    {
      functions := map[];
      userdata := data;
      invoked := [];
    }

    /** `add_function_with_name`: the name is taken as it is. */
    method AddFunctionWithName(name: string, f: Function<U>)
      modifies this`functions
      ensures functions == old(functions)[name := f]
    {
      functions := functions[name := f];
    }

    /** `add_function`: under the lower-cased name of the type. */
    method AddFunction(typeName: string, f: Function<U>)
      modifies this`functions
      ensures functions == old(functions)[Lower(typeName) := f]
    {
      AddFunctionWithName(Lower(typeName), f);
    }

    method EvaluateAst(a: Ast) returns (r: Result<Value>)
      modifies this
      ensures functions == old(functions)
      ensures Ran(Now(), r) == Eval(functions, old(Now()), a)
      decreases a
    {
      match a {
        case Int(n) => return Ok(Number(n));
        case Str(s) => return Ok(Text(s));
        case Boolean(b) => return Ok(Bool(b));
        case Call(name, args) =>
          var evaluatedArgs: seq<Value> := [];
          ghost var spec := EvalAll(functions, Now(), args);
          PrefixedNothing(spec.result);
          for i := 0 to |args|
            invariant functions == old(functions)
            invariant |evaluatedArgs| == i
            invariant spec.state == EvalAll(functions, Now(), args[i..]).state
            invariant spec.result == Prefixed(evaluatedArgs, EvalAll(functions, Now(), args[i..]).result)
          {
            ghost var before := Now();
            var arg := EvaluateAst(args[i]);
            assert args[i..][0] == args[i] && args[i..][1..] == args[i + 1..];
            if arg.Err? {
              return arg;
            }
            PrefixedCons(evaluatedArgs, arg.value, EvalAll(functions, Now(), args[i + 1..]).result);
            evaluatedArgs := evaluatedArgs + [arg.value];
          }
          assert evaluatedArgs + [] == evaluatedArgs;
          r := CallFunctionPositional(name, evaluatedArgs);
        case Array(elements) =>
          var results: seq<Value> := [];
          ghost var spec := EvalAll(functions, Now(), elements);
          PrefixedNothing(spec.result);
          for i := 0 to |elements|
            invariant functions == old(functions)
            invariant |results| == i
            invariant spec.state == EvalAll(functions, Now(), elements[i..]).state
            invariant spec.result == Prefixed(results, EvalAll(functions, Now(), elements[i..]).result)
          {
            var element := EvaluateAst(elements[i]);
            assert elements[i..][0] == elements[i] && elements[i..][1..] == elements[i + 1..];
            if element.Err? {
              return element;
            }
            PrefixedCons(results, element.value, EvalAll(functions, Now(), elements[i + 1..]).result);
            results := results + [element.value];
          }
          assert results + [] == results;
          return Ok(List(results));
        case Object(fields) =>
          var resultMap: seq<Entry<Value>> := [];
          ghost var inserted: seq<Entry<Value>> := [];
          ghost var spec := EvalFields(functions, Now(), fields);
          PrefixedNothing(spec.result);
          for i := 0 to |fields|
            invariant functions == old(functions)
            invariant resultMap == InsertAll(inserted)
            invariant spec.state == EvalFields(functions, Now(), fields[i..]).state
            invariant spec.result == Prefixed(inserted, EvalFields(functions, Now(), fields[i..]).result)
          {
            var value := EvaluateAst(fields[i].value);
            assert fields[i..][0] == fields[i] && fields[i..][1..] == fields[i + 1..];
            if value.Err? {
              return value;
            }
            ghost var entry := Entry(fields[i].key, value.value);
            PrefixedCons(inserted, entry, EvalFields(functions, Now(), fields[i + 1..]).result);
            assert (inserted + [entry])[..|inserted|] == inserted;
            resultMap := Insert(resultMap, Entry(fields[i].key, value.value));
            inserted := inserted + [entry];
          }
          assert inserted + [] == inserted;
          return Ok(Map(resultMap));
      }
    }

    method CallFunctionPositional(name: string, args: seq<Value>) returns (r: Result<Value>)
      modifies this
      ensures functions == old(functions)
      ensures Ran(Now(), r) == Invoke(functions, old(Now()), name, args)
    {
      var key := Lower(name);
      if key !in functions {
        return Err(UnknownFunction(name));
      }
      var f := functions[key];
      var argObject: seq<Entry<Value>> := [];
      for i := 0 to |args|
        invariant i <= |f.parameters|
        invariant argObject == InsertAll(Zip(f.parameters, args[..i]))
      {
        if i >= |f.parameters| {
          return Err(TooManyArguments(name, |f.parameters|, i + 1));
        }
        assert Zip(f.parameters, args[..i + 1])[..i] == Zip(f.parameters, args[..i]);
        argObject := Insert(argObject, Entry(f.parameters[i], args[i]));
      }
      assert args[..|args|] == args;
      var out := f.run(userdata, Map(argObject));
      userdata, r := out.state, out.result;
      invoked := invoked + [Invocation(key, Map(argObject), r)];
    }
  }
}
