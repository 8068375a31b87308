/** Collecting the symbols of a workspace, up to a limit
    (vscode-extension/src/workspaceFileIndex.ts). */
module SymbolIndex {
  import opened Collections

  const MAX_CONTEXT_SYMBOLS: nat := 5000

  const BATCH_SIZE: nat := 10

  /** What the collector takes over of a symbol as it is. */
  datatype Place = Place(kind: nat, range: (nat, nat, nat, nat), selectionRange: (nat, nat, nat, nat))

  datatype DocumentSymbol = DocumentSymbol(name: string, place: Place, children: seq<DocumentSymbol>)

  datatype ContextSymbol = ContextSymbol(name: string, place: Place, location: string, containerName: Option<string>)

  /** A file and its symbols; `None` when no provider answered for it. */
  datatype SourceFile = SourceFile(path: string, symbols: Option<seq<DocumentSymbol>>)

  // ----- what is to be collected -----

  function Take<T>(xs: seq<T>, n: nat): seq<T> {
    if |xs| <= n then xs else xs[..n]
  }

  /** Names joined by `::`. */
  function JoinNames(names: seq<string>): string {
    if names == [] then ""
    else if |names| == 1 then names[0]
    else JoinNames(names[..|names| - 1]) + "::" + names[|names| - 1]
  }

  function DropEmpty(names: seq<string>): (r: seq<string>)
    ensures r != [] ==> r[0] != ""
  {
    if names != [] && names[0] == "" then DropEmpty(names[1..]) else names
  }

  /** The container of a symbol: its ancestors joined by `::`, outermost first.  Nameless
      outermost ancestors are left out, as an empty parent name is false to JavaScript. */
  function Label(ancestors: seq<string>): Option<string> {
    if ancestors == [] then None else Some(JoinNames(DropEmpty(ancestors)))
  }

  /** The symbols of a forest from tree `k` on, parents before children. */
  function Preorder(syms: seq<DocumentSymbol>, k: nat, path: string, ancestors: seq<string>): seq<ContextSymbol>
    requires k <= |syms|
    decreases syms, |syms| - k
  {
    if k == |syms| then []
    else
      [ContextSymbol(syms[k].name, syms[k].place, path, Label(ancestors))]
      + Preorder(syms[k].children, 0, path, ancestors + [syms[k].name])
      + Preorder(syms, k + 1, path, ancestors)
  }

  /** The symbols of the files from `k` on. */
  function AllSymbols(files: seq<SourceFile>, k: nat): seq<ContextSymbol>
    requires k <= |files|
    decreases |files| - k
  {
    if k == |files| then []
    else Preorder(files[k].symbols.GetOr([]), 0, files[k].path, []) + AllSymbols(files, k + 1)
  }

  // ----- labels -----

  /** The parent name the collector passes down. */
  function ChildParent(parentName: Option<string>, name: string): string {
    if parentName.Some? && parentName.value != "" then parentName.value + "::" + name else name
  }

  /** Passing names down builds the label: one name behind the label above it, or alone
      where that is empty or there is none. */
  lemma {:induction false} ChildLabel(ancestors: seq<string>, name: string)
    ensures Label(ancestors + [name]) == Some(ChildParent(Label(ancestors), name))
    ensures Label(ancestors + [name])
         == Some(if Label(ancestors).GetOr("") != "" then Label(ancestors).value + "::" + name else name)
    ensures Label([]) == None
  {
    var kept := DropEmpty(ancestors);
    DropEmptyAppend(ancestors, name);
    if kept != [] {
      assert (kept + [name])[..|kept|] == kept;
      JoinNotEmpty(kept);
    }
  }

  lemma {:induction false} DropEmptyAppend(names: seq<string>, name: string)
    ensures DropEmpty(names + [name])
         == if DropEmpty(names) == [] then (if name == "" then [] else [name]) else DropEmpty(names) + [name]
  {
    if names != [] && names[0] == "" {
      assert (names + [name])[1..] == names[1..] + [name];
      DropEmptyAppend(names[1..], name);
    } else if names == [] {
      assert [name][1..] == [] && names + [name] == [name];
    }
  }

  lemma {:induction false} JoinNotEmpty(names: seq<string>)
    requires names != [] && names[0] != ""
    ensures JoinNames(names) != ""
  {
  }

  // ----- taking up to the limit -----

  function Kept(xs: seq<ContextSymbol>): seq<ContextSymbol> { Take(xs, MAX_CONTEXT_SYMBOLS) }

  lemma KeptTwice(xs: seq<ContextSymbol>, ys: seq<ContextSymbol>)
    ensures Kept(Kept(xs) + ys) == Kept(xs + ys)
  {
  }

  lemma KeptNothing(xs: seq<ContextSymbol>)
    requires |xs| <= MAX_CONTEXT_SYMBOLS
    ensures Kept(xs + []) == xs
  {
  }

  lemma Associate(a: seq<ContextSymbol>, b: seq<ContextSymbol>, c: seq<ContextSymbol>, d: seq<ContextSymbol>)
    ensures a + (b + c + d) == (a + b + c) + d
  {
  }

  // ----- the collector as it runs -----

  /** `output`, shared by all the recursive calls. */
  class Output {
    var symbols: seq<ContextSymbol>

    constructor ()
      ensures symbols == []
    {
      symbols := [];
    }

    method CollectSymbols(syms: seq<DocumentSymbol>, relativePath: string, parentName: Option<string>,
                          ghost ancestors: seq<string>)
      requires |symbols| <= MAX_CONTEXT_SYMBOLS && parentName == Label(ancestors)
      modifies this
      ensures symbols == Kept(old(symbols) + Preorder(syms, 0, relativePath, ancestors))
      decreases syms
    {
      for k := 0 to |syms|
        invariant |symbols| <= MAX_CONTEXT_SYMBOLS
        invariant Kept(symbols + Preorder(syms, k, relativePath, ancestors))
               == Kept(old(symbols) + Preorder(syms, 0, relativePath, ancestors))
      {
        if |symbols| >= MAX_CONTEXT_SYMBOLS {
          return;
        }
        var sym := syms[k];
        var own := ContextSymbol(sym.name, sym.place, relativePath, parentName);
        ghost var start := symbols;
        ghost var below := Preorder(sym.children, 0, relativePath, ancestors + [sym.name]);
        ghost var after := Preorder(syms, k + 1, relativePath, ancestors);
        symbols := symbols + [own];
        if |sym.children| > 0 {
          var childParent := ChildParent(parentName, sym.name);
          ChildLabel(ancestors, sym.name);
          CollectSymbols(sym.children, relativePath, Some(childParent), ancestors + [sym.name]);
        } else {
          KeptNothing(symbols);
        }
        KeptTwice(start + [own] + below, after);
        Associate(start, [own], below, after);
      }
      KeptNothing(symbols);
    }

    /** The inner loop, over the results of one batch. */
    method CollectBatch(files: seq<SourceFile>, from: nat, end: nat, ghost all: seq<ContextSymbol>)
      requires from <= end <= |files| && |symbols| <= MAX_CONTEXT_SYMBOLS
      requires Kept(symbols + AllSymbols(files, from)) == all
      modifies this
      ensures |symbols| <= MAX_CONTEXT_SYMBOLS && Kept(symbols + AllSymbols(files, end)) == all
    {
      for j := from to end
        invariant |symbols| <= MAX_CONTEXT_SYMBOLS
        invariant Kept(symbols + AllSymbols(files, j)) == all
      {
        CollectFile(files, j, all);
        if |symbols| >= MAX_CONTEXT_SYMBOLS {
          KeptFull(symbols, AllSymbols(files, j + 1));
          KeptFull(symbols, AllSymbols(files, end));
          return;
        }
      }
    }

    method CollectFile(files: seq<SourceFile>, j: nat, ghost all: seq<ContextSymbol>)
      requires j < |files| && |symbols| <= MAX_CONTEXT_SYMBOLS
      requires Kept(symbols + AllSymbols(files, j)) == all
      modifies this
      ensures |symbols| <= MAX_CONTEXT_SYMBOLS && Kept(symbols + AllSymbols(files, j + 1)) == all
    {
      var file := files[j];
      ghost var start, rest := symbols, AllSymbols(files, j + 1);
      ghost var own := Preorder(file.symbols.GetOr([]), 0, file.path, []);
      assert start + (own + rest) == start + own + rest;
      KeptTwice(start + own, rest);
      if file.symbols.Some? && |file.symbols.value| > 0 {
        CollectSymbols(file.symbols.value, file.path, None, []);
      } else {
        KeptNothing(start);
      }
    }
  }

  /** `#fetchWorkspaceSymbols`: batches of files, left as soon as the limit is reached. */
  method FetchWorkspaceSymbols(sourceFiles: seq<SourceFile>) returns (contextSymbols: seq<ContextSymbol>)
    ensures contextSymbols == Take(AllSymbols(sourceFiles, 0), MAX_CONTEXT_SYMBOLS)
  {
    var output := new Output();
    ghost var all := Kept(AllSymbols(sourceFiles, 0));
    var i := 0;
    assert [] + AllSymbols(sourceFiles, 0) == AllSymbols(sourceFiles, 0);
    while i < |sourceFiles|
      invariant i <= |sourceFiles|
      invariant |output.symbols| <= MAX_CONTEXT_SYMBOLS
      invariant Kept(output.symbols + AllSymbols(sourceFiles, i)) == all
    {
      if |output.symbols| >= MAX_CONTEXT_SYMBOLS {
        KeptFull(output.symbols, AllSymbols(sourceFiles, i));
        return output.symbols;
      }
      var end := if i + BATCH_SIZE <= |sourceFiles| then i + BATCH_SIZE else |sourceFiles|;
      output.CollectBatch(sourceFiles, i, end, all);
      i := end;
    }
    KeptNothing(output.symbols);
    return output.symbols;
  }

  /** Once the limit is reached nothing more comes in. */
  lemma KeptFull(xs: seq<ContextSymbol>, ys: seq<ContextSymbol>)
    requires |xs| == MAX_CONTEXT_SYMBOLS
    ensures Kept(xs + ys) == xs
  {
  }
}
