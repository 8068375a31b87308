/** Rebuilding the text before a change from the text after it and the hunks of the
    diff (outdated/vscode-extension/src/walkthroughWebview.ts, `generateOriginalContent`),
    against an independent meaning of a patch. */
module ReverseDiff {
  import opened Splitting
  import opened DiffLines

  /** How far copying the lines before a hunk goes. */
  function ContextEnd(modified: seq<string>, i: nat, newStart: nat): (c: nat)
    ensures i <= c && (i <= |modified| ==> c <= |modified|)
  {
    if i < newStart - 1 && i < |modified| then (if newStart - 1 <= |modified| then newStart - 1 else |modified|) else i
  }

  function Between(modified: seq<string>, i: nat, j: nat): seq<string> {
    if i <= j <= |modified| then modified[i..j] else []
  }

  /** The lines rebuilt from hunk `k` and line index `i` on. */
  function Reverse(hs: seq<DiffHunk>, k: nat, modified: seq<string>, i: nat): seq<string>
    requires k <= |hs|
    decreases |hs| - k
  {
    if k == |hs| then Between(modified, i, |modified|)
    else
      var c := ContextEnd(modified, i, hs[k].newStart);
      Between(modified, i, c) + OldSide(hs[k].lines) + Reverse(hs, k + 1, modified, c + |NewSide(hs[k].lines)|)
  }

  lemma Regroup<T>(done: seq<T>, a: seq<T>, b: seq<T>, rest: seq<T>)
    ensures done + (a + b + rest) == done + a + b + rest
  {
  }

  /** One turn of the outer loop, after `done`. */
  lemma HunkStep(hs: seq<DiffHunk>, k: nat, modified: seq<string>, i: nat, done: seq<string>)
    requires k < |hs|
    ensures var c := ContextEnd(modified, i, hs[k].newStart);
            done + Reverse(hs, k, modified, i)
            == done + Between(modified, i, c) + OldSide(hs[k].lines)
               + Reverse(hs, k + 1, modified, c + |NewSide(hs[k].lines)|)
  {
    var c := ContextEnd(modified, i, hs[k].newStart);
    Regroup(done, Between(modified, i, c), OldSide(hs[k].lines),
            Reverse(hs, k + 1, modified, c + |NewSide(hs[k].lines)|));
  }

  method GenerateOriginalContent(fileChange: FileChange, modifiedContent: string) returns (original: string)
    ensures original == Join('\n', Reverse(fileChange.hunks, 0, Split('\n', modifiedContent), 0))
  {
    var modifiedLines := Split('\n', modifiedContent);
    var originalLines := ReverseHunks(fileChange.hunks, modifiedLines);
    original := Join('\n', originalLines);
  }

  /** The loop over the hunks, and what follows it. */
  method ReverseHunks(hs: seq<DiffHunk>, modifiedLines: seq<string>) returns (originalLines: seq<string>)
    ensures originalLines == Reverse(hs, 0, modifiedLines, 0)
  {
    var modifiedIndex: nat := 0;
    originalLines := [];
    ghost var all := Reverse(hs, 0, modifiedLines, 0);
    assert [] + all == all;
    for k := 0 to |hs|
      invariant originalLines + Reverse(hs, k, modifiedLines, modifiedIndex) == all
    {
      HunkStep(hs, k, modifiedLines, modifiedIndex, originalLines);
      originalLines, modifiedIndex := ReverseHunk(hs[k], modifiedLines, originalLines, modifiedIndex);
    }
    originalLines := CopyRest(modifiedLines, originalLines, modifiedIndex);
  }

  /** One turn of it: the unchanged lines before a hunk, and the hunk. */
  method ReverseHunk(h: DiffHunk, modifiedLines: seq<string>, lines: seq<string>, from: nat)
    returns (originalLines: seq<string>, modifiedIndex: nat)
    ensures var c := ContextEnd(modifiedLines, from, h.newStart);
            && originalLines == lines + Between(modifiedLines, from, c) + OldSide(h.lines)
            && modifiedIndex == c + |NewSide(h.lines)|
  {
    originalLines, modifiedIndex := CopyContext(modifiedLines, h.newStart - 1, lines, from);
    originalLines, modifiedIndex := ReplayHunk(h.lines, originalLines, modifiedIndex);
  }

  /** The loop after the last hunk. */
  method CopyRest(modifiedLines: seq<string>, lines: seq<string>, from: nat) returns (originalLines: seq<string>)
    ensures originalLines == lines + Between(modifiedLines, from, |modifiedLines|)
  {
    originalLines := lines;
    var modifiedIndex := from;
    while modifiedIndex < |modifiedLines|
      invariant from <= modifiedIndex
      invariant from < modifiedIndex ==> modifiedIndex <= |modifiedLines|
      invariant originalLines == lines + Between(modifiedLines, from, modifiedIndex)
    {
      originalLines := originalLines + [modifiedLines[modifiedIndex]];
      modifiedIndex := modifiedIndex + 1;
    }
  }

  /** The loop over the unchanged lines before a hunk. */
  method CopyContext(modifiedLines: seq<string>, contextStart: int, lines: seq<string>, from: nat)
    returns (originalLines: seq<string>, modifiedIndex: nat)
    requires -1 <= contextStart
    ensures modifiedIndex == ContextEnd(modifiedLines, from, contextStart + 1)
    ensures originalLines == lines + Between(modifiedLines, from, modifiedIndex)
  {
    originalLines, modifiedIndex := lines, from;
    while modifiedIndex < contextStart && modifiedIndex < |modifiedLines|
      invariant from <= modifiedIndex
      invariant from < modifiedIndex ==> modifiedIndex <= contextStart && modifiedIndex <= |modifiedLines|
      invariant originalLines == lines + Between(modifiedLines, from, modifiedIndex)
    {
      originalLines := originalLines + [modifiedLines[modifiedIndex]];
      modifiedIndex := modifiedIndex + 1;
    }
  }

  /** The loop over the lines of a hunk. */
  method ReplayHunk(hunk: seq<DiffLine>, lines: seq<string>, from: nat)
    returns (originalLines: seq<string>, modifiedIndex: nat)
    ensures originalLines == lines + OldSide(hunk)
    ensures modifiedIndex == from + |NewSide(hunk)|
  {
    originalLines, modifiedIndex := lines, from;
    for j := 0 to |hunk|
      invariant originalLines + OldFrom(hunk, j) == lines + OldSide(hunk)
      invariant modifiedIndex + |NewFrom(hunk, j)| == from + |NewSide(hunk)|
    {
      var line := hunk[j];
      assert originalLines + [line.content] + OldFrom(hunk, j + 1)
          == originalLines + ([line.content] + OldFrom(hunk, j + 1));
      match line.lineType {
        case Context =>
          originalLines := originalLines + [line.content];
          modifiedIndex := modifiedIndex + 1;
        case Removed =>
          originalLines := originalLines + [line.content];
        case Added =>
          modifiedIndex := modifiedIndex + 1;
      }
    }
  }
}
