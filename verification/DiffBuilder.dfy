/** Collecting a diff through the callbacks of `diff.foreach`
    (outdated/mcp-server/src/git/git_service.rs). */
module DiffBuilder {
  import opened Collections
  import opened DiffLines
  import opened Trimming

  datatype Delta = DeltaAdded | DeltaDeleted | DeltaModified | DeltaRenamed | DeltaCopied | DeltaOther

  /** What libgit2 hands to the callbacks. */
  datatype RawLine = RawLine(origin: char, content: string, oldNumber: Option<nat>, newNumber: Option<nat>)

  datatype RawHunk = RawHunk(oldStart: nat, oldLines: nat, newStart: nat, newLines: nat, lines: seq<RawLine>)

  datatype RawFile = RawFile(oldPath: Option<string>, newPath: Option<string>, delta: Delta, hunks: seq<RawHunk>)

  function LineTypeOf(origin: char): LineType {
    if origin == '+' then Added else if origin == '-' then Removed else Context
  }

  function BuildLine(ws: char -> bool, l: RawLine): DiffLine {
    var t := LineTypeOf(l.origin);
    DiffLine(t, TrimEnd(ws, l.content),
             if t.Added? then None else if t.Removed? then Some(l.oldNumber.GetOr(0)) else l.oldNumber,
             if t.Added? then Some(l.newNumber.GetOr(0)) else if t.Removed? then None else l.newNumber)
  }

  function BuildLines(ws: char -> bool, ls: seq<RawLine>): seq<DiffLine> {
    if ls == [] then [] else BuildLines(ws, ls[..|ls| - 1]) + [BuildLine(ws, ls[|ls| - 1])]
  }

  function BuildHunk(ws: char -> bool, h: RawHunk): DiffHunk {
    DiffHunk(h.oldStart, h.oldLines, h.newStart, h.newLines, BuildLines(ws, h.lines))
  }

  function BuildHunks(ws: char -> bool, hs: seq<RawHunk>): seq<DiffHunk> {
    if hs == [] then [] else BuildHunks(ws, hs[..|hs| - 1]) + [BuildHunk(ws, hs[|hs| - 1])]
  }

  function StatusOf(f: RawFile): ChangeStatus {
    if f.oldPath.Some? && f.newPath.Some? then
      if f.delta.DeltaAdded? || f.delta.DeltaCopied? then AddedFile
      else if f.delta.DeltaDeleted? then DeletedFile
      else ModifiedFile
    else if f.newPath.Some? then AddedFile
    else DeletedFile
  }

  /** The file change collected for a file: its hunks, and as many additions and
      deletions as they hold. */
  function BuildFile(ws: char -> bool, f: RawFile): FileChange {
    var hs := BuildHunks(ws, f.hunks);
    FileChange(f.newPath.GetOr(f.oldPath.GetOr("")), StatusOf(f), CountAll(hs, Added), CountAll(hs, Removed), hs)
  }

  /** A delta that names no file. */
  predicate Pathless(f: RawFile) { f.oldPath.None? && f.newPath.None? }

  /** A file change with more hunks, counted. */
  function Extend(ws: char -> bool, file: FileChange, hs: seq<RawHunk>): FileChange {
    var built := BuildHunks(ws, hs);
    file.(hunks := file.hunks + built,
          additions := file.additions + CountAll(built, Added),
          deletions := file.deletions + CountAll(built, Removed))
  }

  /** The callbacks of one delta: hunks go to the last file there is, and without one
      the callback panics. */
  function Collect(ws: char -> bool, files: seq<FileChange>, f: RawFile): Option<seq<FileChange>> {
    var files' := if Pathless(f) then files else files + [BuildFile(ws, f.(hunks := []))];
    if f.hunks == [] then Some(files')
    else if files' == [] then None
    else Some(files'[..|files'| - 1] + [Extend(ws, files'[|files'| - 1], f.hunks)])
  }

  /** The callbacks of all deltas; nothing when one of them panics. */
  function BuildFiles(ws: char -> bool, fs: seq<RawFile>): Option<seq<FileChange>> {
    if fs == [] then Some([])
    else
      match BuildFiles(ws, fs[..|fs| - 1])
      case None => None
      case Some(files) => Collect(ws, files, fs[|fs| - 1])
  }

  lemma {:induction false} CountAppend(ls: seq<DiffLine>, l: DiffLine, t: LineType, j: nat)
    requires j <= |ls|
    ensures CountFrom(ls + [l], j, t) == CountFrom(ls, j, t) + if l.lineType == t then 1 else 0
    decreases |ls| - j
  {
    if j < |ls| {
      CountAppend(ls, l, t, j + 1);
    } else {
      assert CountFrom(ls + [l], j + 1, t) == 0;
    }
  }

  lemma {:induction false} CountAllAppend(hs: seq<DiffHunk>, h: DiffHunk, t: LineType, k: nat)
    requires k <= |hs|
    ensures CountAllFrom(hs + [h], k, t) == CountAllFrom(hs, k, t) + Count(h.lines, t)
    decreases |hs| - k
  {
    if k < |hs| {
      CountAllAppend(hs, h, t, k + 1);
    } else {
      assert CountAllFrom(hs + [h], k + 1, t) == 0;
    }
  }

  /** A file change with one more hunk, counted. */
  function WithHunk(file: FileChange, h: DiffHunk): FileChange {
    file.(hunks := file.hunks + [h],
          additions := file.additions + Count(h.lines, Added),
          deletions := file.deletions + Count(h.lines, Removed))
  }

  /** A file change with one more line in its last hunk, counted. */
  function WithLine(file: FileChange, line: DiffLine): FileChange
    requires file.hunks != []
  {
    var m := |file.hunks| - 1;
    file.(hunks := file.hunks[m := file.hunks[m].(lines := file.hunks[m].lines + [line])],
          additions := file.additions + (if line.lineType == Added then 1 else 0),
          deletions := file.deletions + (if line.lineType == Removed then 1 else 0))
  }

  lemma WithHunkLine(file: FileChange, h: DiffHunk, line: DiffLine)
    ensures WithLine(WithHunk(file, h), line) == WithHunk(file, h.(lines := h.lines + [line]))
  {
    CountAppend(h.lines, line, Added, 0);
    CountAppend(h.lines, line, Removed, 0);
  }

  lemma BuildHunkLine(ws: char -> bool, h: RawHunk, j: nat)
    requires j < |h.lines|
    ensures var built := BuildHunk(ws, h.(lines := h.lines[..j]));
            BuildHunk(ws, h.(lines := h.lines[..j + 1])) == built.(lines := built.lines + [BuildLine(ws, h.lines[j])])
  {
    assert h.lines[..j + 1][..j] == h.lines[..j];
  }

  /** A file change with the first `i` hunks added. */
  function ExtendPart(ws: char -> bool, file: FileChange, hs: seq<RawHunk>, i: nat): FileChange
    requires i <= |hs|
  {
    Extend(ws, file, hs[..i])
  }

  lemma ExtendPartEnds(ws: char -> bool, file: FileChange, hs: seq<RawHunk>)
    ensures ExtendPart(ws, file, hs, 0) == file
    ensures ExtendPart(ws, file, hs, |hs|) == Extend(ws, file, hs)
  {
    assert hs[..0] == [] && hs[..|hs|] == hs;
    assert file.hunks + [] == file.hunks;
  }

  lemma ExtendPartHunk(ws: char -> bool, file: FileChange, hs: seq<RawHunk>, i: nat)
    requires i < |hs|
    ensures WithHunk(ExtendPart(ws, file, hs, i), BuildHunk(ws, hs[i])) == ExtendPart(ws, file, hs, i + 1)
  {
    assert hs[..i + 1][..i] == hs[..i];
    var built := BuildHunks(ws, hs[..i]);
    CountAllAppend(built, BuildHunk(ws, hs[i]), Added, 0);
    CountAllAppend(built, BuildHunk(ws, hs[i]), Removed, 0);
    assert file.hunks + built + [BuildHunk(ws, hs[i])] == file.hunks + (built + [BuildHunk(ws, hs[i])]);
  }

  /** A named file is collected with its own hunks and no others. */
  lemma CollectNamed(ws: char -> bool, files: seq<FileChange>, f: RawFile)
    requires !Pathless(f)
    ensures Collect(ws, files, f) == Some(files + [BuildFile(ws, f)])
  {
    var empty := BuildFile(ws, f.(hunks := []));
    assert Extend(ws, empty, f.hunks) == BuildFile(ws, f);
    assert (files + [empty])[..|files|] == files;
    if f.hunks == [] {
      assert f.(hunks := []) == f;
    }
  }

  /** When every delta names a file, the result is one file change for each, in order. */
  lemma {:induction false} BuildFilesNamed(ws: char -> bool, fs: seq<RawFile>)
    requires forall k :: 0 <= k < |fs| ==> !Pathless(fs[k])
    ensures var r := BuildFiles(ws, fs);
            r.Some? && |r.value| == |fs| && forall k :: 0 <= k < |fs| ==> r.value[k] == BuildFile(ws, fs[k])
  {
    if fs != [] {
      var n := |fs| - 1;
      BuildFilesNamed(ws, fs[..n]);
      CollectNamed(ws, BuildFiles(ws, fs[..n]).value, fs[n]);
    }
  }

  /** Hunks before any file that has a name. */
  ghost predicate Homeless(fs: seq<RawFile>, i: nat)
    requires i < |fs|
  {
    fs[i].hunks != [] && forall j :: 0 <= j <= i ==> Pathless(fs[j])
  }

  /** The callbacks panic exactly when hunks come before any file that has a name;
      until one has come, nothing is collected. */
  lemma {:induction false} PanicsIffHomeless(ws: char -> bool, fs: seq<RawFile>)
    ensures BuildFiles(ws, fs).None? <==> exists i :: 0 <= i < |fs| && Homeless(fs, i)
    ensures BuildFiles(ws, fs).Some? ==>
              (BuildFiles(ws, fs).value == [] <==> forall j :: 0 <= j < |fs| ==> Pathless(fs[j]))
  {
    if fs != [] {
      var n := |fs| - 1;
      PanicsIffHomeless(ws, fs[..n]);
      assert forall i :: 0 <= i < n ==> (Homeless(fs, i) <==> Homeless(fs[..n], i));
      if BuildFiles(ws, fs).None? && BuildFiles(ws, fs[..n]).Some? {
        assert forall j :: 0 <= j < n ==> Pathless(fs[..n][j]);
        assert Homeless(fs, n);
      }
    }
  }

  /** The state the three callbacks share. */
  class Collector {
    const whitespace: char -> bool
    var fileChanges: seq<FileChange>

    constructor (whitespace: char -> bool)
      ensures this.whitespace == whitespace && fileChanges == []
    {
      this.whitespace := whitespace;
      fileChanges := [];
    }

    method OnFile(f: RawFile)
      modifies this
      ensures fileChanges == if Pathless(f) then old(fileChanges)
                             else old(fileChanges) + [BuildFile(whitespace, f.(hunks := []))]
    {
      var path, status;
      match (f.oldPath, f.newPath) {
        case (Some(_), Some(newPath)) =>
          path := newPath;
          match f.delta {
            case DeltaAdded => status := AddedFile;
            case DeltaDeleted => status := DeletedFile;
            case DeltaModified => status := ModifiedFile;
            case DeltaRenamed => status := ModifiedFile;
            case DeltaCopied => status := AddedFile;
            case DeltaOther => status := ModifiedFile;
          }
        case (None, Some(newPath)) => path, status := newPath, AddedFile;
        case (Some(oldPath), None) => path, status := oldPath, DeletedFile;
        case (None, None) => return;
      }
      fileChanges := fileChanges + [FileChange(path, status, 0, 0, [])];
    }

    /** Start a hunk of the current file. */
    method OnHunk(h: RawHunk)
      requires fileChanges != []
      modifies this
      ensures var n := |old(fileChanges)| - 1;
              fileChanges == old(fileChanges)[..n]
                             + [WithHunk(old(fileChanges)[n],
                                         DiffHunk(h.oldStart, h.oldLines, h.newStart, h.newLines, []))]
    {
      var n := |fileChanges| - 1;
      var file := fileChanges[n];
      var hunk := DiffHunk(h.oldStart, h.oldLines, h.newStart, h.newLines, []);
      fileChanges := fileChanges[n := file.(hunks := file.hunks + [hunk])];
    }

    /** Add a line to the current hunk, and count it. */
    method OnLine(l: RawLine)
      requires fileChanges != [] && fileChanges[|fileChanges| - 1].hunks != []
      modifies this
      ensures var n := |old(fileChanges)| - 1;
              fileChanges == old(fileChanges)[..n] + [WithLine(old(fileChanges)[n], BuildLine(whitespace, l))]
    {
      var n := |fileChanges| - 1;
      var file := fileChanges[n];
      var lineType;
      match l.origin {
        case '+' => lineType := Added;
        case '-' => lineType := Removed;
        case ' ' => lineType := Context;
        case _ => lineType := Context;
      }
      var content := TrimEnd(whitespace, l.content);
      var oldNumber, newNumber := l.oldNumber, l.newNumber;
      match lineType {
        case Added =>
          oldNumber, newNumber := None, Some(l.newNumber.GetOr(0));
          file := file.(additions := file.additions + 1);
        case Removed =>
          oldNumber, newNumber := Some(l.oldNumber.GetOr(0)), None;
          file := file.(deletions := file.deletions + 1);
        case Context =>
      }
      var m := |file.hunks| - 1;
      var hunk := file.hunks[m];
      hunk := hunk.(lines := hunk.lines + [DiffLine(lineType, content, oldNumber, newNumber)]);
      fileChanges := fileChanges[n := file.(hunks := file.hunks[m := hunk])];
    }

    /** `diff.foreach`: the callbacks of each delta, in the order libgit2 makes them.
        `panicked` tells that a callback unwrapped nothing. */
    method Foreach(fs: seq<RawFile>) returns (panicked: bool)
      requires fileChanges == []
      modifies this
      ensures match BuildFiles(whitespace, fs)
              case Some(files) => !panicked && fileChanges == files
              case None => panicked
    {
      panicked := false;
      for i := 0 to |fs|
        invariant !panicked && BuildFiles(whitespace, fs[..i]) == Some(fileChanges)
      {
        assert fs[..i + 1][..i] == fs[..i];
        panicked := OnDelta(fs[i]);
        if panicked {
          PanicStays(whitespace, fs, i + 1);
          return;
        }
      }
      assert fs[..|fs|] == fs;
    }

    method OnDelta(f: RawFile) returns (panicked: bool)
      modifies this
      ensures match Collect(whitespace, old(fileChanges), f)
              case Some(files) => !panicked && fileChanges == files
              case None => panicked
    {
      OnFile(f);
      if f.hunks == [] {
        return false;
      }
      if fileChanges == [] {
        return true;
      }
      OnHunks(f.hunks);
      return false;
    }

    method OnHunks(hs: seq<RawHunk>)
      requires fileChanges != []
      modifies this
      ensures var n := |old(fileChanges)| - 1;
              fileChanges == old(fileChanges)[..n] + [Extend(whitespace, old(fileChanges)[n], hs)]
    {
      ghost var others, file := fileChanges[..|fileChanges| - 1], fileChanges[|fileChanges| - 1];
      ExtendPartEnds(whitespace, file, hs);
      for i := 0 to |hs|
        invariant fileChanges == others + [ExtendPart(whitespace, file, hs, i)]
      {
        OnHunkWithLines(hs[i]);
        ExtendPartHunk(whitespace, file, hs, i);
      }
    }

    method OnHunkWithLines(h: RawHunk)
      requires fileChanges != []
      modifies this
      ensures var n := |old(fileChanges)| - 1;
              fileChanges == old(fileChanges)[..n] + [WithHunk(old(fileChanges)[n], BuildHunk(whitespace, h))]
    {
      ghost var others, file := fileChanges[..|fileChanges| - 1], fileChanges[|fileChanges| - 1];
      OnHunk(h);
      for j := 0 to |h.lines|
        invariant fileChanges == others + [WithHunk(file, BuildHunk(whitespace, h.(lines := h.lines[..j])))]
      {
        ghost var hunk := BuildHunk(whitespace, h.(lines := h.lines[..j]));
        WithHunkLine(file, hunk, BuildLine(whitespace, h.lines[j]));
        BuildHunkLine(whitespace, h, j);
        OnLine(h.lines[j]);
      }
      assert h.lines[..|h.lines|] == h.lines;
    }
  }

  /** Once a callback has panicked there is no result. */
  lemma {:induction false} PanicStays(ws: char -> bool, fs: seq<RawFile>, i: nat)
    requires i <= |fs| && BuildFiles(ws, fs[..i]).None?
    ensures BuildFiles(ws, fs).None?
    decreases |fs|
  {
    if i < |fs| {
      var n := |fs| - 1;
      assert fs[..n][..i] == fs[..i];
      PanicStays(ws, fs[..n], i);
    } else {
      assert fs[..i] == fs;
    }
  }
}
