/** What evaluating a Dialect program does to its host: which functions it calls, in
    which order, where it stops, and what the result then is. */
module DialectEvalOrder {
  import Collections
  import opened SortedMap
  import opened DialectAst
  import opened DialectEval

  // ----- the calls of a program, in order -----

  /** The `Call` nodes, children before parents, left to right. */
  function Calls(a: Ast): seq<Ast>
    decreases a, 1
  {
    match a
    case Call(_, args) => CallsAll(args) + [a]
    case Array(elements) => CallsAll(elements)
    case Object(fields) => CallsFields(fields)
    case _ => []
  }

  function CallsAll(xs: seq<Ast>): seq<Ast>
    decreases xs, 0
  {
    if xs == [] then [] else Calls(xs[0]) + CallsAll(xs[1..])
  }

  function CallsFields(xs: seq<Entry<Ast>>): seq<Ast>
    decreases xs, 0
  {
    if xs == [] then [] else Calls(xs[0].value) + CallsFields(xs[1..])
  }

  /** The function exists and takes that many arguments. */
  predicate Callable<U>(fs: Table<U>, node: Ast)
    requires node.Call?
  {
    Lower(node.name) in fs && |node.args| <= |fs[Lower(node.name)].parameters|
  }

  /** Entry of the log for a call node. */
  predicate Matches<U>(fs: Table<U>, inv: Invocation, node: Ast) {
    node.Call? && inv.key == Lower(node.name) && Callable(fs, node)
  }

  /** Why evaluation stopped after `log` of the calls. */
  predicate StopsAt<U>(fs: Table<U>, calls: seq<Ast>, log: seq<Invocation>, e: Failure) {
    var n := |log|;
    if n > 0 && log[n - 1].result.Err? then log[n - 1].result == Err(e)
    else
      && n < |calls|
      && calls[n].Call?
      && var key := Lower(calls[n].name);
         match e
         case UnknownFunction(name) => name == calls[n].name && key !in fs
         case TooManyArguments(name, expected, got) =>
           && name == calls[n].name && key in fs
           && expected == |fs[key].parameters| && got == expected + 1 <= |calls[n].args|
         case Failed(_) => false
  }

  /** `log` is what evaluating nodes with these calls may add: a prefix of the calls,
      none failing but the last, and all of them when the result is a value. */
  predicate Trace<U, T>(fs: Table<U>, calls: seq<Ast>, log: seq<Invocation>, r: Result<T>) {
    && |log| <= |calls|
    && (forall k :: 0 <= k < |log| ==> Matches(fs, log[k], calls[k]))
    && (forall k :: 0 <= k < |log| - 1 ==> log[k].result.Ok?)
    && (r.Ok? ==> |log| == |calls| && forall k :: 0 <= k < |log| ==> log[k].result.Ok?)
    && (r.Err? ==> StopsAt(fs, calls, log, r.error))
  }

  lemma TraceStopped<U, T>(fs: Table<U>, calls: seq<Ast>, more: seq<Ast>, log: seq<Invocation>, r: Result<T>)
    requires Trace(fs, calls, log, r) && r.Err?
    ensures Trace(fs, calls + more, log, r)
  {
  }

  lemma TraceAppend<U, S, T>(fs: Table<U>, calls: seq<Ast>, log: seq<Invocation>, done: Result<S>,
                             calls': seq<Ast>, log': seq<Invocation>, r: Result<T>)
    requires Trace(fs, calls, log, done) && done.Ok? && Trace(fs, calls', log', r)
    ensures Trace(fs, calls + calls', log + log', r)
  {
    var all, whole := calls + calls', log + log';
    forall k | 0 <= k < |whole|
      ensures Matches(fs, whole[k], all[k]) && (k < |whole| - 1 || r.Ok? ==> whole[k].result.Ok?)
    {
      if k >= |log| {
        assert whole[k] == log'[k - |log|] && all[k] == calls'[k - |log|];
      }
    }
  }

  /** The data after a list of invocations, each applied to what the one before left. */
  function Replay<U>(fs: Table<U>, data: U, log: seq<Invocation>): U {
    if log == [] then data
    else
      var last := log[|log| - 1];
      var before := Replay(fs, data, log[..|log| - 1]);
      if last.key in fs then fs[last.key].run(before, last.argument).state else before
  }

  lemma {:induction false} ReplayAppend<U>(fs: Table<U>, data: U, a: seq<Invocation>, b: seq<Invocation>)
    ensures Replay(fs, data, a + b) == Replay(fs, Replay(fs, data, a), b)
    decreases |b|
  {
    if b == [] {
      assert a + b == a;
    } else {
      assert (a + b)[..|a + b| - 1] == a + b[..|b| - 1];
      ReplayAppend(fs, data, a, b[..|b| - 1]);
    }
  }

  /** `after` is `before` with the invocations `log` made on it. */
  predicate Replays<U(==)>(fs: Table<U>, before: State<U>, log: seq<Invocation>, after: State<U>) {
    after.log == before.log + log && after.userdata == Replay(fs, before.userdata, log)
  }

  lemma ReplaysAppend<U>(fs: Table<U>, s0: State<U>, a: seq<Invocation>, s1: State<U>, b: seq<Invocation>, s2: State<U>)
    requires Replays(fs, s0, a, s1) && Replays(fs, s1, b, s2)
    ensures Replays(fs, s0, a + b, s2)
  {
    ReplayAppend(fs, s0.userdata, a, b);
    assert s0.log + (a + b) == s0.log + a + b;
  }

  // ----- every evaluation is traced by its calls -----

  lemma InvokeTrace<U>(fs: Table<U>, st: State<U>, node: Ast, args: seq<Value>) returns (log: seq<Invocation>)
    requires node.Call? && |args| == |node.args|
    ensures var out := Invoke(fs, st, node.name, args);
            Trace(fs, [node], log, out.result) && Replays(fs, st, log, out.state)
  {
    var out := Invoke(fs, st, node.name, args);
    log := out.state.log[|st.log|..];
    if log == [] {
      assert st.log + [] == st.log;
    } else {
      assert log[..0] == [];
      assert Replay(fs, st.userdata, log[..0]) == st.userdata;
    }
  }

  lemma {:induction false} EvalTrace<U>(fs: Table<U>, st: State<U>, a: Ast) returns (log: seq<Invocation>)
    ensures var out := Eval(fs, st, a);
            Trace(fs, Calls(a), log, out.result) && Replays(fs, st, log, out.state)
    decreases a, 1
  {
    match a
    case Call(name, args) =>
      log := EvalAllTrace(fs, st, args);
      var out := EvalAll(fs, st, args);
      if out.result.Err? {
        TraceStopped(fs, CallsAll(args), [a], log, out.result);
      } else {
        var last := InvokeTrace(fs, out.state, a, out.result.value);
        var r := Invoke(fs, out.state, name, out.result.value);
        TraceAppend(fs, CallsAll(args), log, out.result, [a], last, r.result);
        ReplaysAppend(fs, st, log, out.state, last, r.state);
        log := log + last;
      }
    case Array(elements) => log := EvalAllTrace(fs, st, elements);
    case Object(fields) => log := EvalFieldsTrace(fs, st, fields);
    case _ =>
      log := [];
      assert st.log + [] == st.log;
  }

  lemma {:induction false} EvalAllTrace<U>(fs: Table<U>, st: State<U>, xs: seq<Ast>) returns (log: seq<Invocation>)
    ensures var out := EvalAll(fs, st, xs);
            Trace(fs, CallsAll(xs), log, out.result) && Replays(fs, st, log, out.state)
    decreases xs, 0
  {
    if xs == [] {
      log := [];
      assert st.log + [] == st.log;
    } else {
      log := EvalTrace(fs, st, xs[0]);
      var out := Eval(fs, st, xs[0]);
      if out.result.Err? {
        TraceStopped(fs, Calls(xs[0]), CallsAll(xs[1..]), log, out.result);
      } else {
        var more := EvalAllTrace(fs, out.state, xs[1..]);
        var r := EvalAll(fs, out.state, xs[1..]);
        TraceAppend(fs, Calls(xs[0]), log, out.result, CallsAll(xs[1..]), more, r.result);
        ReplaysAppend(fs, st, log, out.state, more, r.state);
        log := log + more;
      }
    }
  }

  lemma {:induction false} EvalFieldsTrace<U>(fs: Table<U>, st: State<U>, xs: seq<Entry<Ast>>)
    returns (log: seq<Invocation>)
    ensures var out := EvalFields(fs, st, xs);
            Trace(fs, CallsFields(xs), log, out.result) && Replays(fs, st, log, out.state)
    decreases xs, 0
  {
    if xs == [] {
      log := [];
      assert st.log + [] == st.log;
    } else {
      log := EvalTrace(fs, st, xs[0].value);
      var out := Eval(fs, st, xs[0].value);
      if out.result.Err? {
        TraceStopped(fs, Calls(xs[0].value), CallsFields(xs[1..]), log, out.result);
      } else {
        var more := EvalFieldsTrace(fs, out.state, xs[1..]);
        var r := EvalFields(fs, out.state, xs[1..]);
        TraceAppend(fs, Calls(xs[0].value), log, out.result, CallsFields(xs[1..]), more, r.result);
        ReplaysAppend(fs, st, log, out.state, more, r.state);
        log := log + more;
      }
    }
  }

  /** The calls an evaluation makes. */
  function Made<U>(fs: Table<U>, st: State<U>, a: Ast): seq<Invocation> {
    var log := Eval(fs, st, a).state.log;
    if |st.log| <= |log| then log[|st.log|..] else []
  }

  /** The calls made are a prefix of the program's calls in post-order, all of them
      when there is a value; an error says which call comes next or failed last; and
      nothing but these calls, in this order, touches the host's data. */
  lemma EvaluationOrder<U>(fs: Table<U>, st: State<U>, a: Ast)
    ensures Trace(fs, Calls(a), Made(fs, st, a), Eval(fs, st, a).result)
    ensures Replays(fs, st, Made(fs, st, a), Eval(fs, st, a).state)
  {
    var log := EvalTrace(fs, st, a);
    assert (st.log + log)[|st.log|..] == log;
  }

  /** A value comes out exactly when every call of the program names a function that
      takes its arguments, and no call made fails. */
  lemma SucceedsIff<U>(fs: Table<U>, st: State<U>, a: Ast)
    ensures Eval(fs, st, a).result.Ok? <==>
      && (forall node :: node in Calls(a) ==> node.Call? && Callable(fs, node))
      && (forall made :: made in Made(fs, st, a) ==> made.result.Ok?)
  {
    EvaluationOrder(fs, st, a);
    var calls, made := Calls(a), Made(fs, st, a);
    if Eval(fs, st, a).result.Ok? {
      forall node | node in calls ensures node.Call? && Callable(fs, node) {
        var k :| 0 <= k < |calls| && calls[k] == node;
        assert Matches(fs, made[k], calls[k]);
      }
    } else if made == [] || made[|made| - 1].result.Ok? {
      assert calls[|made|] in calls && !Callable(fs, calls[|made|]);
    } else {
      assert made[|made| - 1] in made;
    }
  }

  /** Arguments are bound to the parameters at their positions. */
  lemma ArgumentsByPosition(parameters: seq<string>, args: seq<Value>)
    requires |args| <= |parameters|
    requires forall i, j :: 0 <= i < j < |parameters| ==> parameters[i] != parameters[j]
    ensures var members := InsertAll(Zip(parameters, args));
            && Ascending(members)
            && forall x :: x in members <==> exists k :: 0 <= k < |args| && x == Entry(parameters[k], args[k])
  {
    var zipped := Zip(parameters, args);
    InsertAllAscending(zipped);
    forall x: Entry<Value>
      ensures Latest(zipped, x.key) == Collections.Some(x.value) <==>
              exists k :: 0 <= k < |args| && x == Entry(parameters[k], args[k])
    {
      LatestOfDistinct(parameters, args, x);
    }
  }

  lemma {:induction false} LatestOfDistinct(parameters: seq<string>, args: seq<Value>, x: Entry<Value>)
    requires |args| <= |parameters|
    requires forall i, j :: 0 <= i < j < |parameters| ==> parameters[i] != parameters[j]
    ensures Latest(Zip(parameters, args), x.key) == Collections.Some(x.value) <==>
            exists k :: 0 <= k < |args| && x == Entry(parameters[k], args[k])
    decreases |args|
  {
    if args != [] {
      var n := |args| - 1;
      assert Zip(parameters, args)[..n] == Zip(parameters, args[..n]);
      LatestOfDistinct(parameters, args[..n], x);
      if x.key == parameters[n] {
      } else if Latest(Zip(parameters, args), x.key) == Collections.Some(x.value) {
        var k :| 0 <= k < n && x == Entry(parameters[k], args[..n][k]);
        assert x == Entry(parameters[k], args[k]);
      } else {
        forall k | 0 <= k < |args| ensures x != Entry(parameters[k], args[k]) {
          assert k < n ==> args[..n][k] == args[k];
        }
      }
    }
  }

  // ----- programs without calls -----

  /** The same value, as JSON. */
  function Json(a: Ast): Value
    decreases a, 1
  {
    match a
    case Call(_, _) => Null
    case Int(n) => Number(n)
    case Str(s) => Text(s)
    case Boolean(b) => Bool(b)
    case Array(elements) => List(JsonAll(elements))
    case Object(fields) => Map(JsonFields(fields))
  }

  function JsonAll(xs: seq<Ast>): seq<Value>
    decreases xs, 0
  {
    if xs == [] then [] else [Json(xs[0])] + JsonAll(xs[1..])
  }

  function JsonFields(xs: seq<Entry<Ast>>): (r: seq<Entry<Value>>)
    ensures |r| == |xs| && forall k :: 0 <= k < |r| ==> r[k].key == xs[k].key
    decreases xs, 0
  {
    if xs == [] then [] else [Entry(xs[0].key, Json(xs[0].value))] + JsonFields(xs[1..])
  }

  /** A program without calls always has a value, the structurally identical JSON,
      and leaves the host alone. */
  lemma {:induction false} CallFree<U>(fs: Table<U>, st: State<U>, a: Ast)
    requires WellFormed(a) && Calls(a) == []
    ensures Eval(fs, st, a) == Ran(st, Ok(Json(a)))
    decreases a, 1
  {
    match a
    case Array(elements) => CallFreeAll(fs, st, elements);
    case Object(fields) =>
      CallFreeFields(fs, st, fields);
      InsertAllSorted(JsonFields(fields));
    case _ =>
  }

  lemma {:induction false} CallFreeAll<U>(fs: Table<U>, st: State<U>, xs: seq<Ast>)
    requires (forall k :: 0 <= k < |xs| ==> WellFormed(xs[k])) && CallsAll(xs) == []
    ensures EvalAll(fs, st, xs) == Ran(st, Ok(JsonAll(xs)))
    decreases xs, 0
  {
    if xs != [] {
      CallFree(fs, st, xs[0]);
      CallFreeAll(fs, st, xs[1..]);
    }
  }

  lemma {:induction false} CallFreeFields<U>(fs: Table<U>, st: State<U>, xs: seq<Entry<Ast>>)
    requires (forall k :: 0 <= k < |xs| ==> WellFormed(xs[k].value)) && CallsFields(xs) == []
    ensures EvalFields(fs, st, xs) == Ran(st, Ok(JsonFields(xs)))
    decreases xs, 0
  {
    if xs != [] {
      CallFree(fs, st, xs[0].value);
      CallFreeFields(fs, st, xs[1..]);
    }
  }

  // ----- letter case -----

  /** The same program, but for the letter case of function names. */
  predicate SameButCase(a: Ast, b: Ast)
    decreases a
  {
    match a
    case Call(name, args) =>
      b.Call? && Lower(name) == Lower(b.name) && |args| == |b.args|
      && forall k :: 0 <= k < |args| ==> SameButCase(args[k], b.args[k])
    case Array(elements) =>
      b.Array? && |elements| == |b.elements|
      && forall k :: 0 <= k < |elements| ==> SameButCase(elements[k], b.elements[k])
    case Object(fields) =>
      b.Object? && |fields| == |b.fields|
      && forall k :: 0 <= k < |fields| ==>
           fields[k].key == b.fields[k].key && SameButCase(fields[k].value, b.fields[k].value)
    case _ => a == b
  }

  predicate SameError(e: Failure, f: Failure) {
    match e
    case UnknownFunction(name) => f.UnknownFunction? && Lower(name) == Lower(f.name)
    case TooManyArguments(name, expected, got) =>
      f.TooManyArguments? && Lower(name) == Lower(f.name) && expected == f.expected && got == f.got
    case Failed(_) => e == f
  }

  predicate SameOutcome<S(==), T(==)>(x: Ran<S, T>, y: Ran<S, T>) {
    x.state == y.state
    && match x.result
       case Ok(v) => y.result == Ok(v)
       case Err(e) => y.result.Err? && SameError(e, y.result.error)
  }

  /** Programs that differ in the case of function names do and give the same. */
  lemma {:induction false} CaseInsensitive<U>(fs: Table<U>, st: State<U>, a: Ast, b: Ast)
    requires SameButCase(a, b)
    ensures SameOutcome(Eval(fs, st, a), Eval(fs, st, b))
    decreases a, 1
  {
    match a
    case Call(_, args) => CaseInsensitiveAll(fs, st, args, b.args);
    case Array(elements) => CaseInsensitiveAll(fs, st, elements, b.elements);
    case Object(fields) => CaseInsensitiveFields(fs, st, fields, b.fields);
    case _ =>
  }

  lemma {:induction false} CaseInsensitiveAll<U>(fs: Table<U>, st: State<U>, xs: seq<Ast>, ys: seq<Ast>)
    requires |xs| == |ys| && forall k :: 0 <= k < |xs| ==> SameButCase(xs[k], ys[k])
    ensures SameOutcome(EvalAll(fs, st, xs), EvalAll(fs, st, ys))
    decreases xs, 0
  {
    if xs != [] {
      CaseInsensitive(fs, st, xs[0], ys[0]);
      CaseInsensitiveAll(fs, Eval(fs, st, xs[0]).state, xs[1..], ys[1..]);
    }
  }

  lemma {:induction false} CaseInsensitiveFields<U>(fs: Table<U>, st: State<U>, xs: seq<Entry<Ast>>,
                                                    ys: seq<Entry<Ast>>)
    requires |xs| == |ys|
    requires forall k :: 0 <= k < |xs| ==> xs[k].key == ys[k].key && SameButCase(xs[k].value, ys[k].value)
    ensures SameOutcome(EvalFields(fs, st, xs), EvalFields(fs, st, ys))
    decreases xs, 0
  {
    if xs != [] {
      CaseInsensitive(fs, st, xs[0].value, ys[0].value);
      CaseInsensitiveFields(fs, Eval(fs, st, xs[0].value).state, xs[1..], ys[1..]);
    }
  }
}
