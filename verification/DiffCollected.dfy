/** What the collected diff says of each file, hunk and line libgit2 has handed over
    (outdated/mcp-server/src/git/git_service.rs). */
module DiffCollected {
  import opened Collections
  import opened DiffLines
  import opened DiffBuilder

  /** The text without white space at its end. */
  predicate TrimmedAtEnd(ws: char -> bool, text: string, r: string) {
    r <= text && (r != "" ==> !ws(r[|r| - 1])) && forall k :: |r| <= k < |text| ==> ws(text[k])
  }

  /** A line is added or removed as its origin says and else unchanged; an added one has
      only a number in the new text, a removed one only in the old, an unchanged one what it
      was given. */
  predicate LineIs(ws: char -> bool, raw: RawLine, line: DiffLine) {
    && (line.lineType == Added <==> raw.origin == '+')
    && (line.lineType == Removed <==> raw.origin == '-')
    && TrimmedAtEnd(ws, raw.content, line.content)
    && (line.lineType == Added ==> line.oldNumber == None && line.newNumber == Some(raw.newNumber.GetOr(0)))
    && (line.lineType == Removed ==> line.newNumber == None && line.oldNumber == Some(raw.oldNumber.GetOr(0)))
    && (line.lineType == Context ==> line.oldNumber == raw.oldNumber && line.newNumber == raw.newNumber)
  }

  predicate HunkIs(ws: char -> bool, raw: RawHunk, hunk: DiffHunk) {
    && hunk.oldStart == raw.oldStart && hunk.oldLines == raw.oldLines
    && hunk.newStart == raw.newStart && hunk.newLines == raw.newLines
    && |hunk.lines| == |raw.lines| && forall j :: 0 <= j < |raw.lines| ==> LineIs(ws, raw.lines[j], hunk.lines[j])
  }

  /** A file that is only on one side is new or gone; of one on both sides the delta tells. */
  predicate StatusIs(raw: RawFile, status: ChangeStatus) {
    && (status == AddedFile <==>
          raw.newPath.Some? && (raw.oldPath.None? || raw.delta == DeltaAdded || raw.delta == DeltaCopied))
    && (status == DeletedFile <==> raw.newPath.None? || (raw.oldPath.Some? && raw.delta == DeltaDeleted))
  }

  /** The path is the new one if there is one. */
  predicate FileIs(ws: char -> bool, raw: RawFile, file: FileChange) {
    && (raw.newPath.Some? ==> file.path == raw.newPath.value)
    && (raw.newPath.None? && raw.oldPath.Some? ==> file.path == raw.oldPath.value)
    && StatusIs(raw, file.status)
    && file.additions == CountAll(file.hunks, Added) && file.deletions == CountAll(file.hunks, Removed)
    && |file.hunks| == |raw.hunks| && forall j :: 0 <= j < |raw.hunks| ==> HunkIs(ws, raw.hunks[j], file.hunks[j])
  }

  lemma {:induction false} LinesAre(ws: char -> bool, ls: seq<RawLine>)
    ensures var r := BuildLines(ws, ls);
            |r| == |ls| && forall j :: 0 <= j < |ls| ==> LineIs(ws, ls[j], r[j])
  {
    if ls != [] {
      LinesAre(ws, ls[..|ls| - 1]);
    }
  }

  lemma {:induction false} HunksAre(ws: char -> bool, hs: seq<RawHunk>)
    ensures var r := BuildHunks(ws, hs);
            |r| == |hs| && forall j :: 0 <= j < |hs| ==> HunkIs(ws, hs[j], r[j])
  {
    if hs != [] {
      HunksAre(ws, hs[..|hs| - 1]);
      LinesAre(ws, hs[|hs| - 1].lines);
    }
  }

  // ----- whose hunks they are -----

  /** The deltas that name a file, each with its own hunks and those of the nameless deltas
      behind it. */
  function Merged(fs: seq<RawFile>): seq<RawFile> {
    if fs == [] then []
    else
      var n := |fs| - 1;
      var before, f := Merged(fs[..n]), fs[n];
      if !Pathless(f) then before + [f]
      else if before == [] then []
      else
        var m := |before| - 1;
        before[m := before[m].(hunks := before[m].hunks + f.hunks)]
  }

  lemma {:induction false} HunksAppend(ws: char -> bool, a: seq<RawHunk>, b: seq<RawHunk>)
    ensures BuildHunks(ws, a + b) == BuildHunks(ws, a) + BuildHunks(ws, b)
    decreases |b|
  {
    if b == [] {
      assert a + b == a;
    } else {
      assert (a + b)[..|a + b| - 1] == a + b[..|b| - 1];
      HunksAppend(ws, a, b[..|b| - 1]);
    }
  }

  lemma {:induction false} CountBoth(a: seq<DiffHunk>, b: seq<DiffHunk>, t: LineType)
    ensures CountAll(a + b, t) == CountAll(a, t) + CountAll(b, t)
    decreases |b|
  {
    if b == [] {
      assert a + b == a;
    } else {
      var n := |b| - 1;
      assert b == b[..n] + [b[n]] && a + b == a + b[..n] + [b[n]];
      CountBoth(a, b[..n], t);
      CountAllAppend(a + b[..n], b[n], t, 0);
      CountAllAppend(b[..n], b[n], t, 0);
    }
  }

  /** More hunks for a file. */
  lemma ExtendBuilt(ws: char -> bool, f: RawFile, hs: seq<RawHunk>)
    ensures Extend(ws, BuildFile(ws, f), hs) == BuildFile(ws, f.(hunks := f.hunks + hs))
  {
    HunksAppend(ws, f.hunks, hs);
    CountBoth(BuildHunks(ws, f.hunks), BuildHunks(ws, hs), Added);
    CountBoth(BuildHunks(ws, f.hunks), BuildHunks(ws, hs), Removed);
  }

  /** File changes of deltas, one for each. */
  predicate BuiltFrom(ws: char -> bool, fs: seq<RawFile>, files: seq<FileChange>) {
    |files| == |fs| && forall k :: 0 <= k < |fs| ==> files[k] == BuildFile(ws, fs[k])
  }

  lemma {:induction false} BuildMerged(ws: char -> bool, fs: seq<RawFile>)
    requires BuildFiles(ws, fs).Some?
    ensures BuiltFrom(ws, Merged(fs), BuildFiles(ws, fs).value)
  {
    if fs != [] {
      var n := |fs| - 1;
      var before, f, files := Merged(fs[..n]), fs[n], BuildFiles(ws, fs[..n]).value;
      BuildMerged(ws, fs[..n]);
      if !Pathless(f) {
        CollectNamed(ws, files, f);
      } else if before != [] {
        var m := |before| - 1;
        ExtendBuilt(ws, before[m], f.hunks);
        assert before[m].hunks + [] == before[m].hunks;
      }
    }
  }

  /** Unless a callback panics, there is one file change for each delta that names a file,
      as it was given, with its hunks and lines and those of nameless deltas behind it. */
  lemma CollectedAsGiven(ws: char -> bool, fs: seq<RawFile>)
    requires BuildFiles(ws, fs).Some?
    ensures var files, given := BuildFiles(ws, fs).value, Merged(fs);
            |files| == |given| && forall k :: 0 <= k < |given| ==> FileIs(ws, given[k], files[k])
  {
    var given := Merged(fs);
    BuildMerged(ws, fs);
    forall k | 0 <= k < |given| ensures FileIs(ws, given[k], BuildFile(ws, given[k])) {
      HunksAre(ws, given[k].hunks);
    }
  }
}
