/** What a Dialect program evaluates to, given what its calls returned, and what the calls
    were given (outdated/mcp-server/src/dialect.rs). */
module DialectValues {
  import Collections
  import opened SortedMap
  import opened DialectAst
  import opened DialectEval
  import opened DialectEvalOrder

  /** The JSON of a program whose calls, in post-order, have returned `results`: a call
      stands for what it returned itself, and that comes last. */
  function Filled(a: Ast, results: seq<Value>): Value
    requires |results| == |Calls(a)|
    decreases a, 1
  {
    match a
    case Call(_, _) => results[|results| - 1]
    case Int(n) => Number(n)
    case Str(s) => Text(s)
    case Boolean(b) => Bool(b)
    case Array(elements) => List(FilledAll(elements, results))
    case Object(fields) => Map(FilledFields(fields, results))
  }

  function FilledAll(xs: seq<Ast>, results: seq<Value>): (r: seq<Value>)
    requires |results| == |CallsAll(xs)|
    ensures |r| == |xs|
    decreases xs, 0
  {
    if xs == [] then []
    else
      var n := |Calls(xs[0])|;
      [Filled(xs[0], results[..n])] + FilledAll(xs[1..], results[n..])
  }

  function FilledFields(xs: seq<Entry<Ast>>, results: seq<Value>): (r: seq<Entry<Value>>)
    requires |results| == |CallsFields(xs)|
    ensures |r| == |xs| && forall k :: 0 <= k < |r| ==> r[k].key == xs[k].key
    decreases xs, 0
  {
    if xs == [] then []
    else
      var n := |Calls(xs[0].value)|;
      [Entry(xs[0].key, Filled(xs[0].value, results[..n]))] + FilledFields(xs[1..], results[n..])
  }

  /** What invocations returned; a failed one, after which nothing is called, as null. */
  function Results(log: seq<Invocation>): (r: seq<Value>)
    ensures |r| == |log| && forall k :: 0 <= k < |r| && log[k].result.Ok? ==> r[k] == log[k].result.value
  {
    seq(|log|, k requires 0 <= k < |log| => if log[k].result.Ok? then log[k].result.value else Null)
  }

  /** An object that holds, under each parameter with an argument, the argument at its
      position; of parameters with the same name the last counts. */
  ghost predicate Binds(argument: Value, parameters: seq<string>, args: seq<Value>) {
    && argument.Map? && Ascending(argument.members) && |args| <= |parameters|
    && forall x :: x in argument.members <==>
         exists i :: 0 <= i < |args| && x == Entry(parameters[i], args[i]) && LastNamed(parameters, |args|, i)
  }

  predicate LastNamed(parameters: seq<string>, n: nat, i: nat)
    requires i < n <= |parameters|
  {
    forall j :: i < j < n ==> parameters[j] != parameters[i]
  }

  /** The `k`-th call made is given the values of its own arguments: its arguments' calls
      are those just before it. */
  ghost predicate Given<U>(fs: Table<U>, calls: seq<Ast>, log: seq<Invocation>, k: nat)
    requires k < |log| <= |calls|
  {
    && calls[k].Call?
    && Lower(calls[k].name) in fs
    && var n := |CallsAll(calls[k].args)|;
       && n <= k
       && Binds(log[k].argument, fs[Lower(calls[k].name)].parameters,
                FilledAll(calls[k].args, Results(log[k - n..k])))
  }

  ghost predicate AllGiven<U>(fs: Table<U>, calls: seq<Ast>, log: seq<Invocation>) {
    |log| <= |calls| && forall k :: 0 <= k < |log| ==> Given(fs, calls, log, k)
  }

  /** The `k`-th call made returns what the function of its name gives for its argument, on
      the data the calls before it have left. */
  predicate Answered<U>(fs: Table<U>, data: U, log: seq<Invocation>, k: nat)
    requires k < |log|
  {
    log[k].key in fs && log[k].result == fs[log[k].key].run(Replay(fs, data, log[..k]), log[k].argument).result
  }

  ghost predicate AllAnswered<U>(fs: Table<U>, data: U, log: seq<Invocation>) {
    forall k :: 0 <= k < |log| ==> Answered(fs, data, log, k)
  }

  // ----- arguments -----

  lemma {:induction false} LatestIsLastNamed(parameters: seq<string>, args: seq<Value>, x: Entry<Value>)
    requires |args| <= |parameters|
    ensures Latest(Zip(parameters, args), x.key) == Collections.Some(x.value) <==>
            exists i :: 0 <= i < |args| && x == Entry(parameters[i], args[i]) && LastNamed(parameters, |args|, i)
    decreases |args|
  {
    if args != [] {
      var n := |args| - 1;
      assert Zip(parameters, args)[..n] == Zip(parameters, args[..n]);
      LatestIsLastNamed(parameters, args[..n], x);
      if x.key == parameters[n] {
        assert LastNamed(parameters, |args|, n);
      } else {
        forall i | 0 <= i < n && x.key == parameters[i]
          ensures LastNamed(parameters, n, i) <==> LastNamed(parameters, |args|, i)
        {
        }
      }
    }
  }

  lemma InsertedBinds(parameters: seq<string>, args: seq<Value>)
    requires |args| <= |parameters|
    ensures Binds(Map(InsertAll(Zip(parameters, args))), parameters, args)
  {
    InsertAllAscending(Zip(parameters, args));
    forall x: Entry<Value>
      ensures x in InsertAll(Zip(parameters, args)) <==>
              exists i :: 0 <= i < |args| && x == Entry(parameters[i], args[i]) && LastNamed(parameters, |args|, i)
    {
      LatestIsLastNamed(parameters, args, x);
    }
  }

  // ----- evaluation -----

  /** What an evaluation does: calls made in order, each given its arguments' values and
      answered by its function. */
  ghost predicate Story<U>(fs: Table<U>, before: State<U>, calls: seq<Ast>, log: seq<Invocation>, after: State<U>) {
    Replays(fs, before, log, after) && AllGiven(fs, calls, log) && AllAnswered(fs, before.userdata, log)
  }

  lemma StoryStopped<U>(fs: Table<U>, before: State<U>, calls: seq<Ast>, more: seq<Ast>, log: seq<Invocation>,
                        after: State<U>)
    requires Story(fs, before, calls, log, after)
    ensures Story(fs, before, calls + more, log, after)
  {
    forall k | 0 <= k < |log| ensures Given(fs, calls + more, log, k) {
      assert Given(fs, calls, log, k);
    }
  }

  lemma GivenAppend<U>(fs: Table<U>, calls: seq<Ast>, log: seq<Invocation>, calls': seq<Ast>, log': seq<Invocation>)
    requires AllGiven(fs, calls, log) && |log| == |calls| && AllGiven(fs, calls', log')
    ensures AllGiven(fs, calls + calls', log + log')
  {
    var all, whole := calls + calls', log + log';
    forall k | 0 <= k < |whole| ensures Given(fs, all, whole, k) {
      if k < |log| {
        assert Given(fs, calls, log, k);
        var n := |CallsAll(calls[k].args)|;
        assert whole[k - n..k] == log[k - n..k];
      } else {
        var j := k - |log|;
        assert Given(fs, calls', log', j);
        var n := |CallsAll(calls'[j].args)|;
        assert whole[k - n..k] == log'[j - n..j];
      }
    }
  }

  lemma AnsweredAppend<U>(fs: Table<U>, data: U, log: seq<Invocation>, log': seq<Invocation>)
    requires AllAnswered(fs, data, log) && AllAnswered(fs, Replay(fs, data, log), log')
    ensures AllAnswered(fs, data, log + log')
  {
    var whole := log + log';
    forall k | 0 <= k < |whole| ensures Answered(fs, data, whole, k) {
      if k < |log| {
        assert Answered(fs, data, log, k);
        assert whole[..k] == log[..k];
      } else {
        var j := k - |log|;
        assert Answered(fs, Replay(fs, data, log), log', j);
        assert whole[..k] == log + log'[..j];
        ReplayAppend(fs, data, log, log'[..j]);
      }
    }
  }

  lemma StoryAppend<U>(fs: Table<U>, s0: State<U>, calls: seq<Ast>, log: seq<Invocation>, s1: State<U>,
                       calls': seq<Ast>, log': seq<Invocation>, s2: State<U>)
    requires Story(fs, s0, calls, log, s1) && |log| == |calls| && Story(fs, s1, calls', log', s2)
    ensures Story(fs, s0, calls + calls', log + log', s2)
  {
    ReplaysAppend(fs, s0, log, s1, log', s2);
    GivenAppend(fs, calls, log, calls', log');
    AnsweredAppend(fs, s0.userdata, log, log');
  }

  lemma ResultsAppend(log: seq<Invocation>, log': seq<Invocation>)
    ensures Results(log + log')[..|log|] == Results(log) && Results(log + log')[|log|..] == Results(log')
  {
  }

  /** A call, after its arguments. */
  lemma InvokeStory<U>(fs: Table<U>, before: State<U>, node: Ast, log: seq<Invocation>, st: State<U>,
                       args: seq<Value>)
    returns (whole: seq<Invocation>)
    requires node.Call? && Story(fs, before, CallsAll(node.args), log, st) && |log| == |CallsAll(node.args)|
    requires args == FilledAll(node.args, Results(log))
    ensures var out := Invoke(fs, st, node.name, args);
            && Story(fs, before, Calls(node), whole, out.state)
            && (out.result.Ok? ==> |whole| == |Calls(node)| && out.result == Ok(Filled(node, Results(whole))))
  {
    var key := Lower(node.name);
    var out := Invoke(fs, st, node.name, args);
    if key !in fs || |args| > |fs[key].parameters| {
      whole := log;
      StoryStopped(fs, before, CallsAll(node.args), [node], log, st);
    } else {
      var made := out.state.log[|st.log|];
      whole := log + [made];
      assert out.state.log == before.log + whole;
      assert whole[..|log|] == log && whole[|log| - |log|..|log|] == log;
      InsertedBinds(fs[key].parameters, args);
      forall k | 0 <= k < |whole| ensures Given(fs, Calls(node), whole, k) {
        if k < |log| {
          assert Given(fs, CallsAll(node.args), log, k);
          var n := |CallsAll(Calls(node)[k].args)|;
          assert whole[k - n..k] == log[k - n..k];
        }
      }
      forall k | 0 <= k < |whole| ensures Answered(fs, before.userdata, whole, k) {
        if k < |log| {
          assert Answered(fs, before.userdata, log, k) && whole[..k] == log[..k];
        }
      }
    }
  }

  lemma {:induction false} EvalStory<U>(fs: Table<U>, st: State<U>, a: Ast) returns (log: seq<Invocation>)
    requires WellFormed(a)
    ensures var out := Eval(fs, st, a);
            && Story(fs, st, Calls(a), log, out.state)
            && (out.result.Ok? ==> |log| == |Calls(a)| && out.result == Ok(Filled(a, Results(log))))
    decreases a, 1
  {
    match a
    case Call(name, args) =>
      log := EvalAllStory(fs, st, args);
      var out := EvalAll(fs, st, args);
      if out.result.Err? {
        StoryStopped(fs, st, CallsAll(args), [a], log, out.state);
      } else {
        log := InvokeStory(fs, st, a, log, out.state, out.result.value);
      }
    case Array(elements) => log := EvalAllStory(fs, st, elements);
    case Object(fields) =>
      log := EvalFieldsStory(fs, st, fields);
      if EvalFields(fs, st, fields).result.Ok? {
        InsertAllSorted(FilledFields(fields, Results(log)));
      }
    case _ =>
      log := [];
      assert st.log + [] == st.log;
  }

  lemma {:induction false} EvalAllStory<U>(fs: Table<U>, st: State<U>, xs: seq<Ast>) returns (log: seq<Invocation>)
    requires forall k :: 0 <= k < |xs| ==> WellFormed(xs[k])
    ensures var out := EvalAll(fs, st, xs);
            && Story(fs, st, CallsAll(xs), log, out.state)
            && (out.result.Ok? ==> |log| == |CallsAll(xs)| && out.result == Ok(FilledAll(xs, Results(log))))
    decreases xs, 0
  {
    if xs == [] {
      log := [];
      assert st.log + [] == st.log;
    } else {
      log := EvalStory(fs, st, xs[0]);
      var out := Eval(fs, st, xs[0]);
      if out.result.Err? {
        StoryStopped(fs, st, Calls(xs[0]), CallsAll(xs[1..]), log, out.state);
      } else {
        var more := EvalAllStory(fs, out.state, xs[1..]);
        StoryAppend(fs, st, Calls(xs[0]), log, out.state, CallsAll(xs[1..]), more,
                    EvalAll(fs, out.state, xs[1..]).state);
        ResultsAppend(log, more);
        log := log + more;
      }
    }
  }

  lemma {:induction false} EvalFieldsStory<U>(fs: Table<U>, st: State<U>, xs: seq<Entry<Ast>>)
    returns (log: seq<Invocation>)
    requires forall k :: 0 <= k < |xs| ==> WellFormed(xs[k].value)
    ensures var out := EvalFields(fs, st, xs);
            && Story(fs, st, CallsFields(xs), log, out.state)
            && (out.result.Ok? ==> |log| == |CallsFields(xs)| && out.result == Ok(FilledFields(xs, Results(log))))
    decreases xs, 0
  {
    if xs == [] {
      log := [];
      assert st.log + [] == st.log;
    } else {
      log := EvalStory(fs, st, xs[0].value);
      var out := Eval(fs, st, xs[0].value);
      if out.result.Err? {
        StoryStopped(fs, st, Calls(xs[0].value), CallsFields(xs[1..]), log, out.state);
      } else {
        var more := EvalFieldsStory(fs, out.state, xs[1..]);
        StoryAppend(fs, st, Calls(xs[0].value), log, out.state, CallsFields(xs[1..]), more,
                    EvalFields(fs, out.state, xs[1..]).state);
        ResultsAppend(log, more);
        log := log + more;
      }
    }
  }

  /** A value is the program with each call replaced by what it returned. */
  lemma ValueIsFilled<U>(fs: Table<U>, st: State<U>, a: Ast)
    requires WellFormed(a) && Eval(fs, st, a).result.Ok?
    ensures var made := Made(fs, st, a);
            |made| == |Calls(a)| && Eval(fs, st, a).result == Ok(Filled(a, Results(made)))
  {
    var log := EvalStory(fs, st, a);
    assert (st.log + log)[|st.log|..] == log;
  }

  /** Whether or not there is a value: each call made is given the values of the arguments
      at the positions of its parameters, and its result is what the function registered
      under its lower-cased name gives for them on the data left by the calls before. */
  lemma CallsGivenAndAnswered<U>(fs: Table<U>, st: State<U>, a: Ast)
    requires WellFormed(a)
    ensures AllGiven(fs, Calls(a), Made(fs, st, a)) && AllAnswered(fs, st.userdata, Made(fs, st, a))
  {
    var log := EvalStory(fs, st, a);
    assert (st.log + log)[|st.log|..] == log;
  }
}
