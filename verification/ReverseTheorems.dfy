/** The diff as collected and the text as rebuilt, end to end. */
module ReverseTheorems {
  import Collections
  import opened Splitting
  import opened DiffLines
  import opened Trimming
  import opened DiffBuilder
  import opened ReverseDiff
  import opened ReversePatch

  // ----- the diff as it is, before the collector trims it -----

  /** A line's text: its content without the line end. */
  function Chomp(content: string): string {
    if content != "" && content[|content| - 1] == '\n' then content[..|content| - 1] else content
  }

  function VerbatimLine(l: RawLine): DiffLine {
    DiffLine(LineTypeOf(l.origin), Chomp(l.content), l.oldNumber, l.newNumber)
  }

  function VerbatimLines(ls: seq<RawLine>): (r: seq<DiffLine>)
    ensures |r| == |ls| && forall k :: 0 <= k < |r| ==> r[k] == VerbatimLine(ls[k])
  {
    seq(|ls|, k requires 0 <= k < |ls| => VerbatimLine(ls[k]))
  }

  function Verbatim(hs: seq<RawHunk>): (r: seq<DiffHunk>)
    ensures |r| == |hs|
    ensures forall k :: 0 <= k < |r| ==>
              r[k] == DiffHunk(hs[k].oldStart, hs[k].oldLines, hs[k].newStart, hs[k].newLines,
                               VerbatimLines(hs[k].lines))
  {
    seq(|hs|, k requires 0 <= k < |hs| =>
      DiffHunk(hs[k].oldStart, hs[k].oldLines, hs[k].newStart, hs[k].newLines, VerbatimLines(hs[k].lines)))
  }

  lemma {:induction false} BuildLinesAt(ws: char -> bool, ls: seq<RawLine>)
    ensures |BuildLines(ws, ls)| == |ls| && forall k :: 0 <= k < |ls| ==> BuildLines(ws, ls)[k] == BuildLine(ws, ls[k])
  {
    if ls != [] {
      BuildLinesAt(ws, ls[..|ls| - 1]);
    }
  }

  lemma {:induction false} BuildHunksAt(ws: char -> bool, hs: seq<RawHunk>)
    ensures |BuildHunks(ws, hs)| == |hs| && forall k :: 0 <= k < |hs| ==> BuildHunks(ws, hs)[k] == BuildHunk(ws, hs[k])
  {
    if hs != [] {
      BuildHunksAt(ws, hs[..|hs| - 1]);
    }
  }

  lemma TrimChomp(ws: char -> bool, content: string)
    requires ws('\n')
    ensures TrimEnd(ws, content) == TrimEnd(ws, Chomp(content))
  {
  }

  /** `built` is `ls` with its contents trimmed. */
  predicate TrimmedLines(ws: char -> bool, ls: seq<DiffLine>, built: seq<DiffLine>) {
    && |built| == |ls|
    && forall k :: 0 <= k < |ls| ==>
         built[k].lineType == ls[k].lineType && built[k].content == TrimEnd(ws, ls[k].content)
  }

  /** The sides of trimmed lines are the sides, trimmed. */
  lemma {:induction false} TrimmedOld(ws: char -> bool, ls: seq<DiffLine>, built: seq<DiffLine>, j: nat)
    requires j <= |ls| && TrimmedLines(ws, ls, built)
    ensures OldFrom(built, j) == TrimAll(ws, OldFrom(ls, j))
    decreases |ls| - j
  {
    if j < |ls| {
      TrimmedOld(ws, ls, built, j + 1);
      if !ls[j].lineType.Added? {
        TrimAllCons(ws, ls[j].content, OldFrom(ls, j + 1));
      }
    }
  }

  lemma {:induction false} TrimmedNew(ws: char -> bool, ls: seq<DiffLine>, built: seq<DiffLine>, j: nat)
    requires j <= |ls| && TrimmedLines(ws, ls, built)
    ensures |NewFrom(built, j)| == |NewFrom(ls, j)|
    decreases |ls| - j
  {
    if j < |ls| {
      TrimmedNew(ws, ls, built, j + 1);
    }
  }

  lemma TrimAllCons(ws: char -> bool, line: string, lines: seq<string>)
    ensures TrimAll(ws, [line] + lines) == [TrimEnd(ws, line)] + TrimAll(ws, lines)
  {
  }

  lemma BuiltLines(ws: char -> bool, ls: seq<RawLine>)
    requires ws('\n')
    ensures TrimmedLines(ws, VerbatimLines(ls), BuildLines(ws, ls))
  {
    BuildLinesAt(ws, ls);
    forall k | 0 <= k < |ls| ensures BuildLine(ws, ls[k]).content == TrimEnd(ws, VerbatimLine(ls[k]).content) {
      TrimChomp(ws, ls[k].content);
    }
  }

  lemma BuiltIsTrimmed(ws: char -> bool, hs: seq<RawHunk>)
    requires ws('\n')
    ensures Trimmed(ws, Verbatim(hs), BuildHunks(ws, hs))
  {
    BuildHunksAt(ws, hs);
    forall k | 0 <= k < |hs| ensures TrimmedHunk(ws, Verbatim(hs)[k], BuildHunks(ws, hs)[k]) {
      BuiltLines(ws, hs[k].lines);
      TrimmedOld(ws, VerbatimLines(hs[k].lines), BuildLines(ws, hs[k].lines), 0);
      TrimmedNew(ws, VerbatimLines(hs[k].lines), BuildLines(ws, hs[k].lines), 0);
    }
  }

  // ----- text -----

  function Lines(s: string): seq<string> { Split('\n', s) }

  function Text(lines: seq<string>): string { Join('\n', lines) }

  predicate OneLine(s: string) { OnePart('\n', s) }

  ghost predicate AllOneLine(lines: seq<string>) { forall line :: line in lines ==> OneLine(line) }

  /** The rebuilt lines are lines. */
  lemma {:induction false} ReverseLines(hs: seq<DiffHunk>, k: nat, modified: seq<string>, i: nat)
    requires k <= |hs|
    requires forall j :: 0 <= j < |modified| ==> OneLine(modified[j])
    requires forall j :: k <= j < |hs| ==> AllOneLine(OldSide(hs[j].lines))
    ensures AllOneLine(Reverse(hs, k, modified, i))
    decreases |hs| - k
  {
    if k < |hs| {
      ReverseLines(hs, k + 1, modified, ContextEnd(modified, i, hs[k].newStart) + |NewSide(hs[k].lines)|);
    }
  }

  /** Old sides are lines of the original. */
  lemma {:induction false} OldSidesInOriginal(hs: seq<DiffHunk>, k: nat, original: seq<string>, o: nat,
                                              modified: seq<string>, n: nat)
    requires k <= |hs| && Relates(hs, k, original, o, modified, n)
    ensures forall j :: k <= j < |hs| ==> forall line :: line in OldSide(hs[j].lines) ==> line in original
    decreases |hs| - k
  {
    if k < |hs| {
      OldSidesInOriginal(hs, k + 1, original, OldEnd(hs[k]), modified, NewEnd(hs[k]));
    }
  }

  /** A file's diff, as libgit2 reports it, between two texts. */
  predicate DiffOf(f: RawFile, original: string, modified: string) {
    Relates(Verbatim(f.hunks), 0, Lines(original), 0, Lines(modified), 0) && Separated(Verbatim(f.hunks))
  }

  lemma TrimmedOneLines(ws: char -> bool, h: DiffHunk, built: DiffHunk)
    requires TrimmedHunk(ws, h, built) && AllOneLine(OldSide(h.lines))
    ensures AllOneLine(OldSide(built.lines))
  {
    forall line | line in OldSide(built.lines) ensures OneLine(line) {
      var m :| 0 <= m < |OldSide(built.lines)| && OldSide(built.lines)[m] == line;
      assert OldSide(h.lines)[m] in OldSide(h.lines);
      assert line == TrimEnd(ws, OldSide(h.lines)[m]);
    }
  }

  /** The old sides of the hunks as collected are lines. */
  lemma BuiltOneLines(ws: char -> bool, raw: seq<RawHunk>, original: seq<string>, modified: seq<string>, j: nat)
    requires ws('\n') && Relates(Verbatim(raw), 0, original, 0, modified, 0) && AllOneLine(original) && j < |raw|
    ensures j < |BuildHunks(ws, raw)| && AllOneLine(OldSide(BuildHunks(ws, raw)[j].lines))
  {
    BuiltIsTrimmed(ws, raw);
    OldSidesInOriginal(Verbatim(raw), 0, original, 0, modified, 0);
    TrimmedOneLines(ws, Verbatim(raw)[j], BuildHunks(ws, raw)[j]);
  }

  lemma RebuiltOneLines(ws: char -> bool, raw: seq<RawHunk>, original: seq<string>, modified: seq<string>)
    requires ws('\n') && Relates(Verbatim(raw), 0, original, 0, modified, 0)
    requires AllOneLine(original) && forall k :: 0 <= k < |modified| ==> OneLine(modified[k])
    ensures AllOneLine(Reverse(BuildHunks(ws, raw), 0, modified, 0))
  {
    BuildHunksAt(ws, raw);
    forall j | 0 <= j < |raw| ensures AllOneLine(OldSide(BuildHunks(ws, raw)[j].lines)) {
      BuiltOneLines(ws, raw, original, modified, j);
    }
    ReverseLines(BuildHunks(ws, raw), 0, modified, 0);
  }

  lemma LinesOfReverse(ws: char -> bool, f: RawFile, original: string, modified: string)
    requires ws('\n') && DiffOf(f, original, modified)
    ensures AllOneLine(Reverse(BuildFile(ws, f).hunks, 0, Lines(modified), 0))
  {
    SplitParts('\n', original);
    SplitParts('\n', modified);
    RebuiltOneLines(ws, f.hunks, Lines(original), Lines(modified));
  }

  /** The text rebuilt from the collected diff is the original exactly when trimming
      took nothing from the lines the hunks hold of it, and no hunk without new lines,
      below the top, removes anything but copies of the line before it. */
  lemma RebuiltIffFaithful(ws: char -> bool, f: RawFile, original: string, modified: string)
    requires ws('\n') && DiffOf(f, original, modified)
    ensures Text(Reverse(BuildFile(ws, f).hunks, 0, Lines(modified), 0)) == original
       <==> forall k :: 0 <= k < |f.hunks| ==> Faithful(ws, Lines(modified), Verbatim(f.hunks)[k])
  {
    var hs, built := Verbatim(f.hunks), BuildHunks(ws, f.hunks);
    var r := Reverse(built, 0, Lines(modified), 0);
    BuiltIsTrimmed(ws, f.hunks);
    ReverseExact(ws, hs, built, 0, Lines(original), 0, Lines(modified), 0);
    assert Lines(original)[0..] == Lines(original);
    LinesOfReverse(ws, f, original, modified);
    TextIs(r, original);
  }

  /** Lines make up a text exactly when they are its lines. */
  lemma TextIs(lines: seq<string>, s: string)
    requires lines != [] && AllOneLine(lines)
    ensures Text(lines) == s <==> lines == Lines(s)
  {
    JoinSplit('\n', s);
    assert forall k :: 0 <= k < |lines| ==> lines[k] in lines;
    SplitJoin('\n', lines);
  }

  /** The number of lines always comes out right, and the counters account for it. */
  lemma RebuiltLength(ws: char -> bool, f: RawFile, original: string, modified: string)
    requires ws('\n') && DiffOf(f, original, modified)
    ensures var change := BuildFile(ws, f);
            && |Reverse(change.hunks, 0, Lines(modified), 0)| == |Lines(original)|
            && |Lines(original)| == |Lines(modified)| - change.additions + change.deletions
  {
    var hs, built := Verbatim(f.hunks), BuildHunks(ws, f.hunks);
    BuiltIsTrimmed(ws, f.hunks);
    ReverseExact(ws, hs, built, 0, Lines(original), 0, Lines(modified), 0);
    LengthsDiffer(ws, hs, built, 0, Lines(original), 0, Lines(modified), 0);
  }

  lemma {:induction false} LengthsDiffer(ws: char -> bool, hs: seq<DiffHunk>, built: seq<DiffHunk>, k: nat,
                                         original: seq<string>, o: nat, modified: seq<string>, n: nat)
    requires k <= |hs| && Relates(hs, k, original, o, modified, n) && Trimmed(ws, hs, built)
    ensures o <= |original| && n <= |modified|
    ensures |original| - o == |modified| - n - CountAllFrom(built, k, Added) + CountAllFrom(built, k, Removed)
    decreases |hs| - k
  {
    if k < |hs| {
      var h := hs[k];
      assert TrimmedHunk(ws, h, built[k]);
      SidesDiffer(built[k].lines, 0);
      LengthsDiffer(ws, hs, built, k + 1, original, OldEnd(h), modified, NewEnd(h));
      assert |original[o..OldPos(h)]| == |modified[n..NewPos(h)]|;
    }
  }

  /** The hunk has a line of the new text, or stands above its first line, as the hunk
      that removes a whole text does. */
  predicate Anchored(h: RawHunk) { h.newLines > 0 || h.newStart == 0 }

  /** When every hunk has a new line or is at the top, and no old line ends in white
      space, applying the patch and rebuilding gives back the original. */
  lemma ReverseUndoesApply(ws: char -> bool, f: RawFile, original: string, modified: string)
    requires ws('\n') && DiffOf(f, original, modified)
    requires forall k :: 0 <= k < |f.hunks| ==> Anchored(f.hunks[k])
    requires forall line :: line in Lines(original) ==> TrimEnd(ws, line) == line
    ensures Apply(Verbatim(f.hunks), 0, Lines(original), 0) == Lines(modified)
    ensures Text(Reverse(BuildFile(ws, f).hunks, 0, Apply(Verbatim(f.hunks), 0, Lines(original), 0), 0)) == original
  {
    var hs := Verbatim(f.hunks);
    RelatedIsApplied(hs, 0, Lines(original), 0, Lines(modified), 0);
    assert Lines(modified)[0..] == Lines(modified);
    OldSidesInOriginal(hs, 0, Lines(original), 0, Lines(modified), 0);
    RebuiltIffFaithful(ws, f, original, modified);
  }

  // ----- diffs with context -----

  /** The text rebuilt from anchored hunks is the original exactly when no line they hold
      of it ends in white space: nothing is misplaced. */
  lemma RebuiltWhenAnchored(ws: char -> bool, f: RawFile, original: string, modified: string)
    requires ws('\n') && DiffOf(f, original, modified)
    requires forall k :: 0 <= k < |f.hunks| ==> Anchored(f.hunks[k])
    ensures Text(Reverse(BuildFile(ws, f).hunks, 0, Lines(modified), 0)) == original
       <==> forall k :: 0 <= k < |f.hunks| ==>
              forall line :: line in OldSide(Verbatim(f.hunks)[k].lines) ==> TrimEnd(ws, line) == line
  {
    RebuiltIffFaithful(ws, f, original, modified);
  }

  /** What asking for context lines gives: the hunk begins with an unchanged line, unless
      there is no line before it. */
  predicate LedByContext(h: RawHunk) {
    || (h.newLines == 0 && h.newStart == 0)
    || (h.newLines > 0 && h.newStart == 1)
    || (h.lines != [] && LineTypeOf(h.lines[0].origin) == Context)
  }

  lemma LedIsAnchored(h: RawHunk, verbatim: DiffHunk, original: seq<string>, o: nat, modified: seq<string>, n: nat)
    requires LedByContext(h) && verbatim.newStart == h.newStart && verbatim.newLines == h.newLines
    requires verbatim.lines == VerbatimLines(h.lines) && HunkAt(original, o, modified, n, verbatim)
    ensures Anchored(h)
  {
    if h.newStart > 1 {
      assert NewSide(verbatim.lines) != [];
    }
  }

  /** Diffs generated with context have only anchored hunks: new files and texts written
      anew, whose hunks hold no unchanged line, as well. */
  lemma {:induction false} ContextAnchors(raw: seq<RawHunk>, k: nat, original: seq<string>, o: nat,
                                          modified: seq<string>, n: nat)
    requires k <= |raw| && Relates(Verbatim(raw), k, original, o, modified, n)
    requires forall j :: 0 <= j < |raw| ==> LedByContext(raw[j])
    ensures forall j :: k <= j < |raw| ==> Anchored(raw[j])
    decreases |raw| - k
  {
    if k < |raw| {
      var h := Verbatim(raw)[k];
      LedIsAnchored(raw[k], h, original, o, modified, n);
      ContextAnchors(raw, k + 1, original, OldEnd(h), modified, NewEnd(h));
    }
  }

  /** With context lines, as diffs are generated, the text rebuilt is the original exactly
      when no line the hunks hold of it ends in white space. */
  lemma RebuiltWithContext(ws: char -> bool, f: RawFile, original: string, modified: string)
    requires ws('\n') && DiffOf(f, original, modified)
    requires forall k :: 0 <= k < |f.hunks| ==> LedByContext(f.hunks[k])
    ensures Text(Reverse(BuildFile(ws, f).hunks, 0, Lines(modified), 0)) == original
       <==> forall k :: 0 <= k < |f.hunks| ==>
              forall line :: line in OldSide(Verbatim(f.hunks)[k].lines) ==> TrimEnd(ws, line) == line
  {
    ContextAnchors(f.hunks, 0, Lines(original), 0, Lines(modified), 0);
    RebuiltWhenAnchored(ws, f, original, modified);
  }

  // ----- the condition is needed -----

  function Removing(line: string, oldStart: nat, newStart: nat): RawFile {
    var l := RawLine('-', line + "\n", Collections.Some(oldStart), Collections.None);
    RawFile(Collections.Some("f"), Collections.Some("f"), DeltaModified, [RawHunk(oldStart, 1, newStart, 0, [l])])
  }

  lemma RemovingLines(line: string, oldStart: nat, newStart: nat)
    ensures var h := Verbatim(Removing(line, oldStart, newStart).hunks)[0];
            OldSide(h.lines) == [line] && NewSide(h.lines) == []
  {
    var h := Verbatim(Removing(line, oldStart, newStart).hunks)[0];
    assert Chomp(line + "\n") == line;
    assert OldFrom(h.lines, 1) == [] && NewFrom(h.lines, 1) == [];
  }

  /** The function taken alone: for a diff without context lines, which the collector
      does not ask for, a removed last line is put back one line too early. */
  lemma DeletionWithoutContextIsMisplaced(ws: char -> bool)
    requires ws('\n') && !ws('a') && !ws('b')
    ensures var f := Removing("b", 2, 1);
            DiffOf(f, "a\nb", "a") && Text(Reverse(BuildFile(ws, f).hunks, 0, Lines("a"), 0)) != "a\nb"
  {
    var f := Removing("b", 2, 1);
    var hs := Verbatim(f.hunks);
    SplitTwo('\n', "a", "b");
    assert "a" + ['\n'] + "b" == "a\nb";
    SplitOnePart('\n', "a");
    RemovingLines("b", 2, 1);
    assert ["a", "b"][0..1] == ["a"][0..1] && ["a", "b"][1..2] == ["b"];
    assert Relates(hs, 1, ["a", "b"], 2, ["a"], 1);
    RebuiltIffFaithful(ws, f, "a\nb", "a");
    assert "b" in OldSide(hs[0].lines);
    assert !Faithful(ws, ["a"], hs[0]);
  }

  /** `line` removed above "b", with "b" as context. */
  function RemovingAbove(line: string): RawFile {
    var removed := RawLine('-', line + "\n", Collections.Some(1), Collections.None);
    var kept := RawLine(' ', "b\n", Collections.Some(2), Collections.Some(1));
    RawFile(Collections.Some("f"), Collections.Some("f"), DeltaModified, [RawHunk(1, 2, 1, 1, [removed, kept])])
  }

  lemma RemovingAboveLines(line: string)
    ensures var h := Verbatim(RemovingAbove(line).hunks)[0];
            OldSide(h.lines) == [line, "b"] && NewSide(h.lines) == ["b"] && LedByContext(RemovingAbove(line).hunks[0])
  {
    var raw := RemovingAbove(line).hunks[0];
    var h := Verbatim(RemovingAbove(line).hunks)[0];
    assert Chomp(line + "\n") == line && Chomp("b\n") == "b";
    assert OldFrom(h.lines, 2) == [] && NewFrom(h.lines, 2) == [];
    assert OldFrom(h.lines, 1) == ["b"] && NewFrom(h.lines, 1) == ["b"];
    assert LineTypeOf(raw.lines[1].origin) == Context;
  }

  lemma RemovingAboveTexts()
    ensures Lines("a \nb\n") == ["a ", "b", ""] && Lines("b\n") == ["b", ""]
  {
    SplitFirst('\n', "b", "");
    SplitFirst('\n', "a ", "b\n");
    assert "a " + ['\n'] + "b\n" == "a \nb\n" && "b" + ['\n'] + "" == "b\n";
  }

  lemma RemovingAboveIsDiff()
    ensures DiffOf(RemovingAbove("a "), "a \nb\n", "b\n")
  {
    var hs := Verbatim(RemovingAbove("a ").hunks);
    var was, now := ["a ", "b", ""], ["b", ""];
    RemovingAboveTexts();
    RemovingAboveLines("a ");
    assert HunkAt(was, 0, now, 0, hs[0]) by {
      assert was[0..0] == now[0..0] && was[0..2] == ["a ", "b"] && now[0..1] == ["b"];
    }
    assert Relates(hs, 1, was, 2, now, 1) by {
      assert was[2..] == now[1..];
    }
  }

  /** A removed line that ends in white space comes back without it. */
  lemma TrailingSpaceIsLost(ws: char -> bool)
    requires ws('\n') && ws(' ')
    ensures var f := RemovingAbove("a ");
            && LedByContext(f.hunks[0]) && DiffOf(f, "a \nb\n", "b\n")
            && Text(Reverse(BuildFile(ws, f).hunks, 0, Lines("b\n"), 0)) != "a \nb\n"
  {
    var f := RemovingAbove("a ");
    RemovingAboveIsDiff();
    RemovingAboveLines("a ");
    RebuiltWithContext(ws, f, "a \nb\n", "b\n");
    assert "a " in OldSide(Verbatim(f.hunks)[0].lines);
    assert TrimEnd(ws, "a ") != "a ";
  }
}
