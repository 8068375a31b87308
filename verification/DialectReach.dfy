/** What of the language survives being written again, and which names of host
    functions a text can call at all. */
module DialectReach {
  import opened DialectAst
  import opened SortedMap
  import opened DialectLexer
  import opened DialectSpelling
  import opened DialectParser
  import opened DialectGrammar
  import opened DialectPrinter
  import opened DialectEvalOrder
  import DialectEval

  // ----- what was parsed can be written -----

  ghost predicate AllWritable(u: Unicode, ks: seq<TokenKind>) {
    forall k :: k in ks ==> Writable(u, k)
  }

  /** Texts have only tokens that can be written, so their trees can be, too. */
  lemma {:induction false} TreePrintable(u: Unicode, c: Cst)
    requires AllWritable(u, Yield(c))
    ensures Printable(u, Erase(c))
    decreases c, 1
  {
    match c
    case CInt(n) => assert Integer(n) in Yield(c);
    case CCall(name, args) =>
      assert Ident(name) in Yield(c);
      ItemsPrintable(u, args);
    case CArray(items) => ItemsPrintable(u, items);
    case CObject(fields) =>
      FieldsPrintable(u, fields);
      ObjectPrintable(u, EraseFields(fields));
    case _ =>
  }

  lemma {:induction false} ItemsPrintable(u: Unicode, items: Items)
    requires AllWritable(u, YieldItems(items))
    ensures forall k :: 0 <= k < |EraseItems(items)| ==> Printable(u, EraseItems(items)[k])
    decreases items, 0
  {
    if items.Item? {
      TreePrintable(u, items.elem);
      ItemsPrintable(u, items.rest);
    }
  }

  lemma {:induction false} FieldsPrintable(u: Unicode, fields: Fields)
    requires AllWritable(u, YieldFields(fields))
    ensures forall e :: e in EraseFields(fields) ==> Printable(u, e.value)
    decreases fields, 0
  {
    if fields.Field? {
      TreePrintable(u, fields.elem);
      FieldsPrintable(u, fields.rest);
    }
  }

  lemma ObjectPrintable(u: Unicode, fields: seq<Entry<Ast>>)
    requires forall e :: e in fields ==> Printable(u, e.value)
    ensures Printable(u, Object(InsertAll(fields)))
  {
    var m := InsertAll(fields);
    InsertAllAscending(fields);
    forall k | 0 <= k < |m| ensures Printable(u, m[k].value) {
      assert m[k] in m;
      LatestIsIn(fields, m[k]);
    }
  }

  lemma LaidOutWritable(u: Unicode, words: seq<Word>)
    requires Standard(u) && LaidOut(u, words)
    ensures AllWritable(u, Kinds(words))
  {
    forall kind | kind in Kinds(words) ensures Writable(u, kind) {
      var k :| 0 <= k < |words| && Kinds(words)[k] == kind;
      assert WordOk(u, words, k);
    }
  }

  /** Whatever was parsed is a value the language can express. */
  lemma ParsedIsPrintable(u: Unicode, input: string)
    requires Standard(u) && Parse(u, input).Ok?
    ensures Printable(u, Parse(u, input).value)
  {
    var a := Parse(u, input).value;
    ParsesIffLaidOutTree(u, input, a);
    var lead, words, c :|
      Blank(u, lead) && LaidOut(u, words) && input == lead + Text(words) && Kinds(words) == Yield(c) && Erase(c) == a;
    LaidOutWritable(u, words);
    TreePrintable(u, c);
  }

  /** Whatever was parsed can be printed, in each quote style, and parsed again, to the
      same value. */
  lemma ParsedSurvives(u: Unicode, quote: char, input: string)
    requires Standard(u) && IsQuote(quote) && Parse(u, input).Ok?
    ensures Parse(u, Print(quote, Parse(u, input).value)) == Parse(u, input)
  {
    ParsedIsWellFormed(u, input);
    ParsedIsPrintable(u, input);
    ParseUndoesPrint(u, quote, Parse(u, input).value);
  }

  // ----- which functions can be called -----

  /** The name of every call is one that can be written. */
  lemma {:induction false} CallsSpelled(u: Unicode, a: Ast, node: Ast)
    requires Printable(u, a) && node in Calls(a)
    ensures node.Call? && Spells(u, node.name, Ident(node.name))
    decreases a, 1
  {
    match a
    case Call(_, args) => if node != a { CallsAllSpelled(u, args, node); }
    case Array(elements) => CallsAllSpelled(u, elements, node);
    case Object(fields) => CallsFieldsSpelled(u, fields, node);
  }

  lemma {:induction false} CallsAllSpelled(u: Unicode, xs: seq<Ast>, node: Ast)
    requires (forall k :: 0 <= k < |xs| ==> Printable(u, xs[k])) && node in CallsAll(xs)
    ensures node.Call? && Spells(u, node.name, Ident(node.name))
    decreases xs, 0
  {
    if node in Calls(xs[0]) {
      CallsSpelled(u, xs[0], node);
    } else {
      CallsAllSpelled(u, xs[1..], node);
    }
  }

  lemma {:induction false} CallsFieldsSpelled(u: Unicode, xs: seq<Entry<Ast>>, node: Ast)
    requires (forall k :: 0 <= k < |xs| ==> Printable(u, xs[k].value)) && node in CallsFields(xs)
    ensures node.Call? && Spells(u, node.name, Ident(node.name))
    decreases xs, 0
  {
    if node in Calls(xs[0].value) {
      CallsSpelled(u, xs[0].value, node);
    } else {
      CallsFieldsSpelled(u, xs[1..], node);
    }
  }

  /** Made of letters, none of them an upper-case ASCII letter. */
  predicate LowerWord(u: Unicode, s: string) {
    s != "" && AllLetters(u, s) && forall k :: 0 <= k < |s| ==> !('A' <= s[k] <= 'Z')
  }

  lemma LoweredIsLowerWord(u: Unicode, name: string)
    requires Standard(u) && Spells(u, name, Ident(name))
    ensures LowerWord(u, DialectEval.Lower(name))
  {
    var low := DialectEval.Lower(name);
    forall k | 0 <= k < |low| ensures u.alphabetic(low[k]) && !('A' <= low[k] <= 'Z') {
      assert u.alphabetic(name[k]);
      if 'A' <= name[k] <= 'Z' {
        Ascii(u, low[k]);
      }
    }
  }

  /** A way to write a call of a lower-case word: the literals need a capital letter. */
  function Spelling(registered: string): string {
    if registered == "true" then "True" else if registered == "false" then "False" else registered
  }

  lemma SpellingCalls(u: Unicode, registered: string)
    requires Standard(u) && LowerWord(u, registered)
    ensures Spells(u, Spelling(registered), Ident(Spelling(registered)))
    ensures DialectEval.Lower(Spelling(registered)) == registered
  {
    var name := Spelling(registered);
    forall k | 0 <= k < |name| ensures u.alphabetic(name[k]) {
      if registered == "true" || registered == "false" {
        Ascii(u, name[k]);
      }
    }
    assert DialectEval.Lower(name) == registered;
  }

  /** Evaluating the text of a program makes the host run the function registered
      under the name. */
  ghost predicate Runs<U>(u: Unicode, fs: DialectEval.Table<U>, st: DialectEval.State<U>, input: string,
                          registered: string)
  {
    var r := Parse(u, input);
    r.Ok? && exists made :: made in Made(fs, st, r.value) && made.key == registered
  }

  lemma RunsOnlyLowerWords<U>(u: Unicode, fs: DialectEval.Table<U>, st: DialectEval.State<U>, input: string,
                              registered: string)
    requires Standard(u) && Runs(u, fs, st, input, registered)
    ensures LowerWord(u, registered)
  {
    var a := Parse(u, input).value;
    var log := Made(fs, st, a);
    EvaluationOrder(fs, st, a);
    var k :| 0 <= k < |log| && log[k].key == registered;
    assert Matches(fs, log[k], Calls(a)[k]);
    ParsedIsPrintable(u, input);
    CallsSpelled(u, a, Calls(a)[k]);
    LoweredIsLowerWord(u, Calls(a)[k].name);
  }

  lemma LowerWordRuns<U>(u: Unicode, fs: DialectEval.Table<U>, st: DialectEval.State<U>, registered: string)
    returns (input: string)
    requires Standard(u) && LowerWord(u, registered) && registered in fs
    ensures Runs(u, fs, st, input, registered)
  {
    var a := Call(Spelling(registered), []);
    input := Print('"', a);
    SpellingCalls(u, registered);
    ParseUndoesPrint(u, '"', a);
    var out := DialectEval.Invoke(fs, st, a.name, []);
    assert DialectEval.Eval(fs, st, a) == out;
    assert out.state.log[|st.log|..] == [out.state.log[|st.log|]];
    assert out.state.log[|st.log|] in Made(fs, st, a);
  }

  /** Some program text makes the host run a registered function exactly when the name
      it is registered under is a word of letters without an upper-case ASCII letter. */
  lemma ReachableIffLowerWord<U>(u: Unicode, fs: DialectEval.Table<U>, st: DialectEval.State<U>, registered: string)
    requires Standard(u) && registered in fs
    ensures (exists input :: Runs(u, fs, st, input, registered)) <==> LowerWord(u, registered)
  {
    if LowerWord(u, registered) {
      var input := LowerWordRuns(u, fs, st, registered);
    }
    forall input | Runs(u, fs, st, input, registered) ensures LowerWord(u, registered) {
      RunsOnlyLowerWords(u, fs, st, input, registered);
    }
  }
}
