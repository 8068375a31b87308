/** Which symbols a workspace has and in which order they are collected, by their positions
    (vscode-extension/src/workspaceFileIndex.ts). */
module SymbolOrder {
  import opened SymbolIndex

  /** Where a symbol is: which tree of the forest, which child of its root, and so on. */
  type Position = seq<nat>

  predicate At(syms: seq<DocumentSymbol>, p: Position) {
    p != [] && p[0] < |syms| && (|p| == 1 || At(syms[p[0]].children, p[1..]))
  }

  function SymbolAt(syms: seq<DocumentSymbol>, p: Position): DocumentSymbol
    requires At(syms, p)
  {
    if |p| == 1 then syms[p[0]] else SymbolAt(syms[p[0]].children, p[1..])
  }

  /** The names of the ancestors, outermost first. */
  function Above(syms: seq<DocumentSymbol>, p: Position): seq<string>
    requires At(syms, p)
  {
    if |p| == 1 then [] else [syms[p[0]].name] + Above(syms[p[0]].children, p[1..])
  }

  /** An ancestor comes before its descendants, and what is left of another before it. */
  predicate Earlier(p: Position, q: Position) {
    q != [] && (p == [] || p[0] < q[0] || (p[0] == q[0] && Earlier(p[1..], q[1..])))
  }

  predicate Sorted(ps: seq<Position>) { forall i, j :: 0 <= i < j < |ps| ==> Earlier(ps[i], ps[j]) }

  /** The symbol at a position, as it is to be collected from a file. */
  function Collected(syms: seq<DocumentSymbol>, p: Position, path: string, ancestors: seq<string>): ContextSymbol
    requires At(syms, p)
  {
    var sym := SymbolAt(syms, p);
    ContextSymbol(sym.name, sym.place, path, Label(ancestors + Above(syms, p)))
  }

  /** `out` are the symbols at the positions `ps`, and those are all from tree `k` on, sorted. */
  ghost predicate Lists(syms: seq<DocumentSymbol>, k: nat, path: string, ancestors: seq<string>,
                        out: seq<ContextSymbol>, ps: seq<Position>)
  {
    && |out| == |ps| && Sorted(ps)
    && (forall p :: p in ps <==> At(syms, p) && p[0] >= k)
    && (forall i :: 0 <= i < |ps| ==> At(syms, ps[i]) && out[i] == Collected(syms, ps[i], path, ancestors))
  }

  function Below(k: nat, ps: seq<Position>): (r: seq<Position>)
    ensures |r| == |ps| && forall i :: 0 <= i < |r| ==> r[i] == [k] + ps[i]
  {
    seq(|ps|, i requires 0 <= i < |ps| => [k] + ps[i])
  }

  lemma EarlierBelow(k: nat, p: Position, q: Position)
    ensures Earlier([k] + p, [k] + q) <==> Earlier(p, q)
    ensures p != [] ==> Earlier([k], [k] + p)
  {
    assert ([k] + p)[1..] == p && ([k] + q)[1..] == q && [k][1..] == [];
  }

  lemma CollectedBelow(syms: seq<DocumentSymbol>, k: nat, p: Position, path: string, ancestors: seq<string>)
    requires k < |syms| && At(syms[k].children, p)
    ensures At(syms, [k] + p)
    ensures Collected(syms, [k] + p, path, ancestors)
         == Collected(syms[k].children, p, path, ancestors + [syms[k].name])
  {
    assert ([k] + p)[1..] == p;
    var above := Above(syms[k].children, p);
    assert ancestors + ([syms[k].name] + above) == ancestors + [syms[k].name] + above;
  }

  lemma CollectedRoot(syms: seq<DocumentSymbol>, k: nat, path: string, ancestors: seq<string>)
    requires k < |syms|
    ensures At(syms, [k])
    ensures Collected(syms, [k], path, ancestors) == ContextSymbol(syms[k].name, syms[k].place, path, Label(ancestors))
  {
    assert ancestors + [] == ancestors;
  }

  lemma SortedTree(k: nat, below: seq<Position>, after: seq<Position>)
    requires Sorted(below) && Sorted(after)
    requires (forall p :: p in below ==> p != []) && (forall p :: p in after ==> p != [] && p[0] > k)
    ensures Sorted([[k]] + Below(k, below) + after)
  {
    var all := [[k]] + Below(k, below) + after;
    forall i, j | 0 <= i < j < |all| ensures Earlier(all[i], all[j]) {
      if j <= |below| {
        assert below[j - 1] in below;
        EarlierBelow(k, if i == 0 then [] else below[i - 1], below[j - 1]);
      } else {
        assert after[j - 1 - |below|] in after;
      }
    }
  }

  lemma InBelow(k: nat, ps: seq<Position>, p: Position)
    ensures p in Below(k, ps) <==> p != [] && p[0] == k && p[1..] in ps
  {
    var r := Below(k, ps);
    if p != [] && p[0] == k && p[1..] in ps {
      var i :| 0 <= i < |ps| && ps[i] == p[1..];
      assert r[i] == p;
    }
    if p in r {
      var i :| 0 <= i < |r| && r[i] == p;
      assert p[1..] == ps[i];
    }
  }

  /** The positions from tree `k` on are its own, those below it, and those after it. */
  lemma PositionsFrom(syms: seq<DocumentSymbol>, k: nat, below: seq<Position>, after: seq<Position>, p: Position)
    requires k < |syms|
    requires p != [] ==> (p[1..] in below <==> At(syms[k].children, p[1..]))
    requires p in after <==> At(syms, p) && p[0] >= k + 1
    ensures p in [[k]] + Below(k, below) + after <==> At(syms, p) && p[0] >= k
  {
    InBelow(k, below, p);
    assert p in [[k]] + Below(k, below) + after <==> p == [k] || p in Below(k, below) || p in after;
  }

  /** The preorder lists every symbol once, by position. */
  lemma {:induction false} PreorderLists(syms: seq<DocumentSymbol>, k: nat, path: string, ancestors: seq<string>)
    returns (ps: seq<Position>)
    requires k <= |syms|
    ensures Lists(syms, k, path, ancestors, Preorder(syms, k, path, ancestors), ps)
    decreases syms, |syms| - k
  {
    if k == |syms| {
      ps := [];
    } else {
      var below := PreorderLists(syms[k].children, 0, path, ancestors + [syms[k].name]);
      var after := PreorderLists(syms, k + 1, path, ancestors);
      ps := [[k]] + Below(k, below) + after;
      ListsTree(syms, k, path, ancestors, below, after);
    }
  }

  lemma ListsTree(syms: seq<DocumentSymbol>, k: nat, path: string, ancestors: seq<string>, below: seq<Position>,
                  after: seq<Position>)
    requires k < |syms|
    requires var names := ancestors + [syms[k].name];
             Lists(syms[k].children, 0, path, names, Preorder(syms[k].children, 0, path, names), below)
    requires Lists(syms, k + 1, path, ancestors, Preorder(syms, k + 1, path, ancestors), after)
    ensures Lists(syms, k, path, ancestors, Preorder(syms, k, path, ancestors), [[k]] + Below(k, below) + after)
  {
    var ps, out := [[k]] + Below(k, below) + after, Preorder(syms, k, path, ancestors);
    SortedTree(k, below, after);
    forall p ensures p in ps <==> At(syms, p) && p[0] >= k {
      PositionsFrom(syms, k, below, after, p);
    }
    forall i | 0 <= i < |ps| ensures At(syms, ps[i]) && out[i] == Collected(syms, ps[i], path, ancestors) {
      if i == 0 {
        CollectedRoot(syms, k, path, ancestors);
      } else if i <= |below| {
        CollectedBelow(syms, k, below[i - 1], path, ancestors);
      }
    }
  }

  // ----- all files -----

  function Forest(f: SourceFile): seq<DocumentSymbol> { f.symbols.GetOr([]) }

  /** A file, and a position in it. */
  predicate InFiles(files: seq<SourceFile>, p: Position) {
    p != [] && p[0] < |files| && At(Forest(files[p[0]]), p[1..])
  }

  function OfFile(files: seq<SourceFile>, p: Position): ContextSymbol
    requires InFiles(files, p)
  {
    Collected(Forest(files[p[0]]), p[1..], files[p[0]].path, [])
  }

  /** The symbols listed by these positions, one by one. */
  predicate Shows(files: seq<SourceFile>, out: seq<ContextSymbol>, ps: seq<Position>) {
    |out| == |ps| && forall i :: 0 <= i < |ps| ==> InFiles(files, ps[i]) && out[i] == OfFile(files, ps[i])
  }

  /** `out` are the symbols at the positions `ps`, those of all files from `k` on, sorted. */
  ghost predicate ListsFiles(files: seq<SourceFile>, k: nat, out: seq<ContextSymbol>, ps: seq<Position>) {
    Sorted(ps) && (forall p :: p in ps <==> InFiles(files, p) && p[0] >= k) && Shows(files, out, ps)
  }

  lemma SortedFile(k: nat, own: seq<Position>, after: seq<Position>)
    requires Sorted(own) && Sorted(after) && forall p :: p in after ==> p != [] && p[0] > k
    ensures Sorted(Below(k, own) + after)
  {
    var all := Below(k, own) + after;
    forall i, j | 0 <= i < j < |all| ensures Earlier(all[i], all[j]) {
      if j < |own| {
        EarlierBelow(k, own[i], own[j]);
      } else {
        assert after[j - |own|] in after;
      }
    }
  }

  lemma FilePositions(files: seq<SourceFile>, k: nat, own: seq<Position>, after: seq<Position>, p: Position)
    requires k < |files|
    requires p != [] ==> (p[1..] in own <==> At(Forest(files[k]), p[1..]))
    requires p in after <==> InFiles(files, p) && p[0] >= k + 1
    ensures p in Below(k, own) + after <==> InFiles(files, p) && p[0] >= k
  {
    InBelow(k, own, p);
    assert p in Below(k, own) + after <==> p in Below(k, own) || p in after;
  }

  lemma OwnSymbol(files: seq<SourceFile>, k: nat, p: Position)
    requires k < |files| && At(Forest(files[k]), p)
    ensures InFiles(files, [k] + p) && OfFile(files, [k] + p) == Collected(Forest(files[k]), p, files[k].path, [])
  {
    assert ([k] + p)[1..] == p;
  }

  lemma OwnSymbols(files: seq<SourceFile>, k: nat, own: seq<Position>, out: seq<ContextSymbol>)
    requires k < |files| && |out| == |own|
    requires var f := files[k];
             forall i :: 0 <= i < |own| ==> At(Forest(f), own[i]) && out[i] == Collected(Forest(f), own[i], f.path, [])
    ensures Shows(files, out, Below(k, own))
  {
    forall i | 0 <= i < |own|
      ensures InFiles(files, Below(k, own)[i]) && out[i] == OfFile(files, Below(k, own)[i])
    {
      OwnSymbol(files, k, own[i]);
    }
  }

  lemma ShowsBoth(files: seq<SourceFile>, out: seq<ContextSymbol>, ps: seq<Position>, out': seq<ContextSymbol>,
                  ps': seq<Position>)
    requires Shows(files, out, ps) && Shows(files, out', ps')
    ensures Shows(files, out + out', ps + ps')
  {
  }

  lemma FileLists(files: seq<SourceFile>, k: nat, own: seq<Position>, after: seq<Position>)
    requires k < |files|
    requires var f := files[k]; Lists(Forest(f), 0, f.path, [], Preorder(Forest(f), 0, f.path, []), own)
    requires ListsFiles(files, k + 1, AllSymbols(files, k + 1), after)
    ensures ListsFiles(files, k, AllSymbols(files, k), Below(k, own) + after)
  {
    var ps, out := Below(k, own) + after, Preorder(Forest(files[k]), 0, files[k].path, []);
    SortedFile(k, own, after);
    forall p ensures p in ps <==> InFiles(files, p) && p[0] >= k {
      FilePositions(files, k, own, after, p);
    }
    OwnSymbols(files, k, own, out);
    ShowsBoth(files, out, Below(k, own), AllSymbols(files, k + 1), after);
  }

  /** The symbols of the files from `k` on: each once, file by file and by position, with its
      name, its place, the path of its file and the label of its ancestors. */
  lemma {:induction false} AllSymbolsListed(files: seq<SourceFile>, k: nat) returns (ps: seq<Position>)
    requires k <= |files|
    ensures ListsFiles(files, k, AllSymbols(files, k), ps)
    decreases |files| - k
  {
    if k == |files| {
      ps := [];
    } else {
      var f := files[k];
      var own := PreorderLists(Forest(f), 0, f.path, []);
      var after := AllSymbolsListed(files, k + 1);
      ps := Below(k, own) + after;
      FileLists(files, k, own, after);
    }
  }
}
