/** The entities of a diff
    (outdated/mcp-server/src/git/git_service.rs,
    outdated/vscode-extension/src/walkthroughWebview.ts). */
module DiffLines {
  import opened Collections

  datatype LineType = Context | Added | Removed

  datatype DiffLine = DiffLine(lineType: LineType, content: string, oldNumber: Option<nat>, newNumber: Option<nat>)

  datatype DiffHunk = DiffHunk(oldStart: nat, oldLines: nat, newStart: nat, newLines: nat, lines: seq<DiffLine>)

  datatype ChangeStatus = AddedFile | DeletedFile | ModifiedFile

  datatype FileChange =
    FileChange(path: string, status: ChangeStatus, additions: nat, deletions: nat, hunks: seq<DiffHunk>)

  /** The lines before the change, of a hunk from line `j` on. */
  function OldFrom(lines: seq<DiffLine>, j: nat): seq<string>
    requires j <= |lines|
    decreases |lines| - j
  {
    if j == |lines| then []
    else if lines[j].lineType.Added? then OldFrom(lines, j + 1)
    else [lines[j].content] + OldFrom(lines, j + 1)
  }

  function OldSide(lines: seq<DiffLine>): seq<string> { OldFrom(lines, 0) }

  /** The lines after the change, of a hunk from line `j` on. */
  function NewFrom(lines: seq<DiffLine>, j: nat): seq<string>
    requires j <= |lines|
    decreases |lines| - j
  {
    if j == |lines| then []
    else if lines[j].lineType.Removed? then NewFrom(lines, j + 1)
    else [lines[j].content] + NewFrom(lines, j + 1)
  }

  function NewSide(lines: seq<DiffLine>): seq<string> { NewFrom(lines, 0) }

  /** Lines of one type, from line `j` on. */
  function CountFrom(lines: seq<DiffLine>, j: nat, t: LineType): nat
    requires j <= |lines|
    decreases |lines| - j
  {
    if j == |lines| then 0 else (if lines[j].lineType == t then 1 else 0) + CountFrom(lines, j + 1, t)
  }

  function Count(lines: seq<DiffLine>, t: LineType): nat { CountFrom(lines, 0, t) }

  /** Lines of one type in all hunks from `k` on. */
  function CountAllFrom(hs: seq<DiffHunk>, k: nat, t: LineType): nat
    requires k <= |hs|
    decreases |hs| - k
  {
    if k == |hs| then 0 else Count(hs[k].lines, t) + CountAllFrom(hs, k + 1, t)
  }

  function CountAll(hs: seq<DiffHunk>, t: LineType): nat { CountAllFrom(hs, 0, t) }

  lemma {:induction false} SidesDiffer(lines: seq<DiffLine>, j: nat)
    requires j <= |lines|
    ensures |OldFrom(lines, j)| + CountFrom(lines, j, Added) == |NewFrom(lines, j)| + CountFrom(lines, j, Removed)
    decreases |lines| - j
  {
    if j < |lines| {
      SidesDiffer(lines, j + 1);
    }
  }
}
