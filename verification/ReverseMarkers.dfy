/** What the markers for a missing newline at the end of a file do to the text rebuilt:
    the collector takes them for unchanged lines
    (outdated/mcp-server/src/git/git_service.rs). */
module ReverseMarkers {
  import Collections
  import opened Splitting
  import opened DiffLines
  import opened Trimming
  import opened DiffBuilder
  import opened ReverseDiff
  import opened ReversePatch
  import opened ReverseTheorems

  /** What libgit2 passes as the content of a marker. */
  const MARKER := "\n\\ No newline at end of file\n"

  predicate IsMarker(l: RawLine) { l.origin == '<' || l.origin == '>' || l.origin == '=' }

  function Markers(ls: seq<RawLine>): nat {
    if ls == [] then 0 else Markers(ls[..|ls| - 1]) + if IsMarker(ls[|ls| - 1]) then 1 else 0
  }

  /** The lines without the markers. */
  function Unmarked(ls: seq<RawLine>): seq<RawLine> {
    if ls == [] then []
    else Unmarked(ls[..|ls| - 1]) + if IsMarker(ls[|ls| - 1]) then [] else [ls[|ls| - 1]]
  }

  /** A file's diff as it is handed to the callbacks, `last` being its last hunk. */
  function Marked(f: RawFile, last: RawHunk): RawFile { f.(hunks := f.hunks + [last]) }

  /** The same without markers. */
  function Clean(f: RawFile, last: RawHunk): RawFile { Marked(f, last.(lines := Unmarked(last.lines))) }

  function Rebuilt(ws: char -> bool, f: RawFile, modified: string): seq<string> {
    Reverse(BuildFile(ws, f).hunks, 0, Lines(modified), 0)
  }

  function Drop<T>(xs: seq<T>, n: nat): seq<T> { if n <= |xs| then xs[n..] else [] }

  // ----- the last hunk -----

  /** The line of the new text reached before the last hunk. */
  function Reached(hs: seq<DiffHunk>, k: nat, modified: seq<string>, i: nat): nat
    requires k <= |hs|
    decreases |hs| - k
  {
    if k == |hs| then i
    else Reached(hs, k + 1, modified, ContextEnd(modified, i, hs[k].newStart) + |NewSide(hs[k].lines)|)
  }

  /** The lines rebuilt up to there, behind `done`. */
  function Front(hs: seq<DiffHunk>, k: nat, modified: seq<string>, i: nat, done: seq<string>): seq<string>
    requires k <= |hs|
    decreases |hs| - k
  {
    if k == |hs| then done
    else
      var c := ContextEnd(modified, i, hs[k].newStart);
      Front(hs, k + 1, modified, c + |NewSide(hs[k].lines)|, done + Between(modified, i, c) + OldSide(hs[k].lines))
  }

  /** What the last hunk gives, and what follows it. */
  function Back(modified: seq<string>, i: nat, newStart: nat, side: seq<string>, taken: nat): seq<string> {
    var c := ContextEnd(modified, i, newStart);
    Between(modified, i, c) + side + Between(modified, c + taken, |modified|)
  }

  lemma LastHunk(hs: seq<DiffHunk>, last: DiffHunk, modified: seq<string>, i: nat)
    ensures Reverse(hs + [last], |hs|, modified, i)
         == Back(modified, i, last.newStart, OldSide(last.lines), |NewSide(last.lines)|)
  {
    var all := hs + [last];
    var c := ContextEnd(modified, i, last.newStart);
    assert all[|hs|] == last;
    assert Reverse(all, |hs| + 1, modified, c + |NewSide(last.lines)|)
        == Between(modified, c + |NewSide(last.lines)|, |modified|);
  }

  /** One hunk that is not the last. */
  lemma SplitFront(h: DiffHunk, hs: seq<DiffHunk>, k: nat, modified: seq<string>, i: nat, j: nat, done: seq<string>)
    requires k < |hs| && hs[k] == h && j == ContextEnd(modified, i, h.newStart) + |NewSide(h.lines)|
    ensures Front(hs, k, modified, i, done)
         == Front(hs, k + 1, modified, j,
                  done + Between(modified, i, ContextEnd(modified, i, h.newStart)) + OldSide(h.lines))
    ensures Reached(hs, k, modified, i) == Reached(hs, k + 1, modified, j)
  {
  }

  lemma {:induction false} ReverseSplit(hs: seq<DiffHunk>, all: seq<DiffHunk>, k: nat, modified: seq<string>, i: nat,
                                        done: seq<string>)
    requires k <= |hs| < |all| && all[..|hs|] == hs
    ensures done + Reverse(all, k, modified, i)
         == Front(hs, k, modified, i, done) + Reverse(all, |hs|, modified, Reached(hs, k, modified, i))
    decreases |hs| - k
  {
    if k < |hs| {
      var h, c := hs[k], ContextEnd(modified, i, hs[k].newStart);
      var j := c + |NewSide(h.lines)|;
      assert all[k] == all[..|hs|][k];
      HunkStep(all, k, modified, i, done);
      SplitFront(h, hs, k, modified, i, j, done);
      ReverseSplit(hs, all, k + 1, modified, j, done + Between(modified, i, c) + OldSide(h.lines));
    }
  }

  // ----- a hunk with markers -----

  lemma {:induction false} OldSnoc(ls: seq<DiffLine>, l: DiffLine, j: nat)
    requires j <= |ls|
    ensures OldFrom(ls + [l], j) == OldFrom(ls, j) + if l.lineType.Added? then [] else [l.content]
    decreases |ls| - j
  {
    if j < |ls| {
      OldSnoc(ls, l, j + 1);
    } else {
      assert OldFrom(ls + [l], j + 1) == [];
    }
  }

  lemma {:induction false} NewSnoc(ls: seq<DiffLine>, l: DiffLine, j: nat)
    requires j <= |ls|
    ensures NewFrom(ls + [l], j) == NewFrom(ls, j) + if l.lineType.Removed? then [] else [l.content]
    decreases |ls| - j
  {
    if j < |ls| {
      NewSnoc(ls, l, j + 1);
    } else {
      assert NewFrom(ls + [l], j + 1) == [];
    }
  }

  /** How many lines the pieces make once they are joined and split again. */
  function LinesIn(pieces: seq<string>): nat {
    if pieces == [] then 0 else LinesIn(pieces[..|pieces| - 1]) + |Lines(pieces[|pieces| - 1])|
  }

  lemma LinesInSnoc(pieces: seq<string>, s: string)
    ensures LinesIn(pieces + [s]) == LinesIn(pieces) + |Lines(s)|
  {
    assert (pieces + [s])[..|pieces|] == pieces;
  }

  /** A marker's content without the line end. */
  const SHOWN := "\n\\ No newline at end of file"

  lemma ShownLines()
    ensures |Lines(SHOWN)| == 2
  {
    assert SHOWN == "" + ['\n'] + SHOWN[1..];
    SplitTwo('\n', "", SHOWN[1..]);
  }

  lemma TrimOne(ws: char -> bool, s: string)
    requires s != "" && ws('\n') && !ws(s[|s| - 1])
    ensures TrimEnd(ws, s + "\n") == s
  {
    assert (s + "\n")[..|s|] == s;
  }

  /** A marker as collected: two lines of text, as an unchanged line. */
  lemma BuiltMarker(ws: char -> bool, l: RawLine)
    requires IsMarker(l) && l.content == MARKER && ws('\n') && !ws('e')
    ensures BuildLine(ws, l).lineType == Context && BuildLine(ws, l).content == SHOWN
  {
    assert MARKER == SHOWN + "\n" && SHOWN[|SHOWN| - 1] == 'e';
    TrimOne(ws, SHOWN);
  }

  ghost predicate MarkersAs(ls: seq<RawLine>) {
    forall k :: 0 <= k < |ls| && IsMarker(ls[k]) ==> ls[k].content == MARKER
  }

  /** Each marker is one more line of the old side, two in the text, and takes up one line
      of the new text. */
  lemma {:induction false} MarkedSides(ws: char -> bool, ls: seq<RawLine>)
    requires MarkersAs(ls) && ws('\n') && !ws('e')
    ensures var built, plain := BuildLines(ws, ls), BuildLines(ws, Unmarked(ls));
            && |OldSide(built)| == |OldSide(plain)| + Markers(ls)
            && LinesIn(OldSide(built)) == LinesIn(OldSide(plain)) + 2 * Markers(ls)
            && |NewSide(built)| == |NewSide(plain)| + Markers(ls)
  {
    if ls != [] {
      var n := |ls| - 1;
      MarkedSides(ws, ls[..n]);
      MarkedSnoc(ws, ls[..n], ls[n]);
    }
  }

  /** One more line in a hunk. */
  lemma SideSnoc(ws: char -> bool, ls: seq<RawLine>, l: RawLine)
    ensures var was, now, line := BuildLines(ws, ls), BuildLines(ws, ls + [l]), BuildLine(ws, l);
            && OldSide(now) == OldSide(was) + (if line.lineType.Added? then [] else [line.content])
            && NewSide(now) == NewSide(was) + (if line.lineType.Removed? then [] else [line.content])
            && LinesIn(OldSide(now))
               == LinesIn(OldSide(was)) + if line.lineType.Added? then 0 else |Lines(line.content)|
  {
    assert (ls + [l])[..|ls|] == ls;
    OldSnoc(BuildLines(ws, ls), BuildLine(ws, l), 0);
    NewSnoc(BuildLines(ws, ls), BuildLine(ws, l), 0);
    LinesInSnoc(OldSide(BuildLines(ws, ls)), BuildLine(ws, l).content);
    assert OldSide(BuildLines(ws, ls)) + [] == OldSide(BuildLines(ws, ls));
  }

  lemma MarkedSnoc(ws: char -> bool, ls: seq<RawLine>, l: RawLine)
    requires (IsMarker(l) ==> l.content == MARKER) && ws('\n') && !ws('e')
    requires var built, plain := BuildLines(ws, ls), BuildLines(ws, Unmarked(ls));
             && |OldSide(built)| == |OldSide(plain)| + Markers(ls)
             && LinesIn(OldSide(built)) == LinesIn(OldSide(plain)) + 2 * Markers(ls)
             && |NewSide(built)| == |NewSide(plain)| + Markers(ls)
    ensures var built, plain := BuildLines(ws, ls + [l]), BuildLines(ws, Unmarked(ls + [l]));
            && |OldSide(built)| == |OldSide(plain)| + Markers(ls + [l])
            && LinesIn(OldSide(built)) == LinesIn(OldSide(plain)) + 2 * Markers(ls + [l])
            && |NewSide(built)| == |NewSide(plain)| + Markers(ls + [l])
  {
    assert (ls + [l])[..|ls|] == ls;
    SideSnoc(ws, ls, l);
    if IsMarker(l) {
      BuiltMarker(ws, l);
      ShownLines();
      assert Unmarked(ls + [l]) == Unmarked(ls);
    } else {
      SideSnoc(ws, Unmarked(ls), l);
    }
  }

  lemma MarkedNewSide(ws: char -> bool, ls: seq<RawLine>)
    requires MarkersAs(ls) && ws('\n') && !ws('e')
    ensures |NewSide(BuildLines(ws, ls))| == |NewSide(BuildLines(ws, Unmarked(ls)))| + Markers(ls)
  {
    MarkedSides(ws, ls);
  }

  // ----- the whole file -----

  lemma BuildLast(ws: char -> bool, f: RawFile, last: RawHunk)
    ensures BuildFile(ws, Marked(f, last)).hunks == BuildHunks(ws, f.hunks) + [BuildHunk(ws, last)]
  {
    assert (f.hunks + [last])[..|f.hunks|] == f.hunks;
  }

  lemma BetweenDrop(ls: seq<string>, end: nat, m: nat)
    ensures Drop(Between(ls, end, |ls|), m) == Between(ls, end + m, |ls|)
  {
  }

  /** The last hunk's part, when `m` more lines are taken than are behind `after`. */
  lemma BackTaken(front: seq<string>, ls: seq<string>, i: nat, c: nat, newStart: nat, side: seq<string>, end: nat,
                  m: nat)
    requires c == ContextEnd(ls, i, newStart) && end >= c
    ensures front + Back(ls, i, newStart, side, end - c + m)
         == front + Between(ls, i, c) + side + Drop(Between(ls, end, |ls|), m)
  {
    BetweenDrop(ls, end, m);
    var tail := Between(ls, end + m, |ls|);
    assert Back(ls, i, newStart, side, end - c + m) == Between(ls, i, c) + side + tail;
    Regroup(front, Between(ls, i, c), side, tail);
  }

  /** The lines rebuilt before the last hunk. */
  function BeforeLast(hs: seq<DiffHunk>, newStart: nat, ls: seq<string>): seq<string> {
    var i := Reached(hs, 0, ls, 0);
    Front(hs, 0, ls, 0, []) + Between(ls, i, ContextEnd(ls, i, newStart))
  }

  /** The lines of the new text behind the last hunk, when it takes up `taken`. */
  function AfterLast(hs: seq<DiffHunk>, newStart: nat, taken: nat, ls: seq<string>): seq<string> {
    Between(ls, ContextEnd(ls, Reached(hs, 0, ls, 0), newStart) + taken, |ls|)
  }

  lemma LastReverse(hs: seq<DiffHunk>, b: DiffHunk, ls: seq<string>, taken: nat, m: nat)
    requires |NewSide(b.lines)| == taken + m
    ensures Reverse(hs + [b], 0, ls, 0)
         == BeforeLast(hs, b.newStart, ls) + OldSide(b.lines) + Drop(AfterLast(hs, b.newStart, taken, ls), m)
  {
    var i := Reached(hs, 0, ls, 0);
    var c := ContextEnd(ls, i, b.newStart);
    assert (hs + [b])[..|hs|] == hs;
    ReverseSplit(hs, hs + [b], 0, ls, 0, []);
    LastHunk(hs, b, ls, i);
    BackTaken(Front(hs, 0, ls, 0, []), ls, i, c, b.newStart, OldSide(b.lines), c + taken, m);
    assert [] + Reverse(hs + [b], 0, ls, 0) == Reverse(hs + [b], 0, ls, 0);
  }

  function Before(ws: char -> bool, f: RawFile, last: RawHunk, modified: string): seq<string> {
    BeforeLast(BuildHunks(ws, f.hunks), last.newStart, Lines(modified))
  }

  function After(ws: char -> bool, f: RawFile, last: RawHunk, modified: string): seq<string> {
    AfterLast(BuildHunks(ws, f.hunks), last.newStart, |NewSide(BuildLines(ws, Unmarked(last.lines)))|, Lines(modified))
  }

  lemma RebuiltLast(ws: char -> bool, f: RawFile, last: RawHunk, modified: string, taken: nat, m: nat)
    requires |NewSide(BuildLines(ws, last.lines))| == taken + m
    ensures Rebuilt(ws, Marked(f, last), modified)
         == Before(ws, f, last, modified) + OldSide(BuildLines(ws, last.lines))
            + Drop(AfterLast(BuildHunks(ws, f.hunks), last.newStart, taken, Lines(modified)), m)
  {
    BuildLast(ws, f, last);
    LastReverse(BuildHunks(ws, f.hunks), BuildHunk(ws, last), Lines(modified), taken, m);
  }

  /** Before the last hunk the same lines are rebuilt with markers as without; in it each
      marker comes back as a line; after it one line of the new text is missing for each. */
  lemma MarkersShift(ws: char -> bool, f: RawFile, last: RawHunk, modified: string)
    requires MarkersAs(last.lines) && ws('\n') && !ws('e')
    ensures var before, after := Before(ws, f, last, modified), After(ws, f, last, modified);
            && Rebuilt(ws, Clean(f, last), modified)
               == before + OldSide(BuildLines(ws, Unmarked(last.lines))) + after
            && Rebuilt(ws, Marked(f, last), modified)
               == before + OldSide(BuildLines(ws, last.lines)) + Drop(after, Markers(last.lines))
  {
    var taken := |NewSide(BuildLines(ws, Unmarked(last.lines)))|;
    MarkedNewSide(ws, last.lines);
    RebuiltLast(ws, f, last, modified, taken, Markers(last.lines));
    RebuiltLast(ws, f, last.(lines := Unmarked(last.lines)), modified, taken, 0);
  }

  lemma {:induction false} LinesInAppend(a: seq<string>, b: seq<string>)
    ensures LinesIn(a + b) == LinesIn(a) + LinesIn(b)
    decreases |b|
  {
    if b == [] {
      assert a + b == a;
    } else {
      var n := |b| - 1;
      assert (a + b)[..|a + b| - 1] == a + b[..n];
      LinesInAppend(a, b[..n]);
    }
  }

  lemma {:induction false} LinesInOne(pieces: seq<string>)
    requires AllOneLine(pieces)
    ensures LinesIn(pieces) == |pieces|
  {
    if pieces != [] {
      var n := |pieces| - 1;
      assert pieces[n] in pieces;
      SplitOnePart('\n', pieces[n]);
      LinesInOne(pieces[..n]);
    }
  }

  lemma {:induction false} SplitAppend(sep: char, a: string, b: string)
    ensures |Split(sep, a + [sep] + b)| == |Split(sep, a)| + |Split(sep, b)|
  {
    var s := a + [sep] + b;
    if a == "" {
      assert s[1..] == b;
    } else {
      assert s[1..] == a[1..] + [sep] + b;
      SplitAppend(sep, a[1..], b);
    }
  }

  /** Joining keeps the number of lines. */
  lemma {:induction false} LinesOfText(pieces: seq<string>)
    requires pieces != []
    ensures |Lines(Text(pieces))| == LinesIn(pieces)
    decreases |pieces|
  {
    if |pieces| == 1 {
      LinesInSnoc([], pieces[0]);
      assert [] + [pieces[0]] == pieces;
    } else {
      LinesOfText(pieces[1..]);
      SplitAppend('\n', pieces[0], Text(pieces[1..]));
      LinesInAppend([pieces[0]], pieces[1..]);
      LinesInSnoc([], pieces[0]);
      assert [] + [pieces[0]] == [pieces[0]];
      assert [pieces[0]] + pieces[1..] == pieces;
    }
  }

  // ----- texts with and without a newline at their end -----

  /** The text ends with a line feed, or is empty. */
  predicate Ended(s: string) { Lines(s)[|Lines(s)| - 1] == "" }

  /** The lines as a diff sees them. */
  function Whole(s: string): seq<string> { if Ended(s) then Lines(s)[..|Lines(s)| - 1] else Lines(s) }

  /** What splitting at line feeds finds behind them. */
  function Rest(s: string): seq<string> { if Ended(s) then [""] else [] }

  lemma WholeLines(s: string)
    ensures Whole(s) + Rest(s) == Lines(s)
    ensures forall k :: 0 <= k < |Whole(s)| ==> OneLine(Whole(s)[k])
    ensures forall k :: 0 <= k < |Lines(s)| ==> OneLine(Lines(s)[k])
  {
    SplitParts('\n', s);
  }

  /** The last line of the new text is one of the hunk's. */
  predicate AtEnd(h: DiffHunk, lines: seq<string>) { h.newLines > 0 && NewEnd(h) == |lines| }

  /** A file's diff between two texts of which each may or may not end with a line feed:
      without its markers it relates their lines; where only one text ends with one, a
      marker tells; and a line feed taken away changes the last line. */
  predicate EndDiff(f: RawFile, last: RawHunk, original: string, modified: string) {
    var hs := Verbatim(Clean(f, last).hunks);
    && Relates(hs, 0, Whole(original), 0, Whole(modified), 0) && Separated(hs)
    && (Ended(original) != Ended(modified) ==> Markers(last.lines) > 0)
    && (Ended(original) && !Ended(modified) ==> AtEnd(hs[|f.hunks|], Whole(modified)))
  }

  /** The same lines behind both texts change nothing. */
  lemma {:induction false} RelatesBehind(hs: seq<DiffHunk>, k: nat, original: seq<string>, o: nat,
                                         modified: seq<string>, n: nat, more: seq<string>)
    requires k <= |hs| && Relates(hs, k, original, o, modified, n)
    ensures Relates(hs, k, original + more, o, modified + more, n)
    decreases |hs| - k
  {
    if k == |hs| {
      assert (original + more)[o..] == original[o..] + more && (modified + more)[n..] == modified[n..] + more;
    } else {
      RelatesBehind(hs, k + 1, original, OldEnd(hs[k]), modified, NewEnd(hs[k]), more);
      HunkBehind(original, o, modified, n, hs[k], more);
    }
  }

  lemma HunkBehind(original: seq<string>, o: nat, modified: seq<string>, n: nat, h: DiffHunk, more: seq<string>)
    requires HunkAt(original, o, modified, n, h)
    ensures HunkAt(original + more, o, modified + more, n, h)
  {
    SliceBefore(original, more, o, OldPos(h));
    SliceBefore(modified, more, n, NewPos(h));
    SliceBefore(original, more, OldPos(h), OldEnd(h));
    SliceBefore(modified, more, NewPos(h), NewEnd(h));
  }

  lemma SliceBefore<T>(xs: seq<T>, more: seq<T>, i: nat, j: nat)
    requires i <= j <= |xs|
    ensures (xs + more)[i..j] == xs[i..j]
  {
  }

  /** The last hunk is reached from no further than where it stands. */
  lemma {:induction false} ReachedBelow(ws: char -> bool, all: seq<DiffHunk>, built: seq<DiffHunk>, k: nat,
                                        original: seq<string>, o: nat, modified: seq<string>, n: nat, i: nat)
    returns (m: nat)
    requires k < |all| && Relates(all, k, original, o, modified, n) && Separated(all)
    requires Ahead(n, all, k) && Trimmed(ws, all, built) && i <= n
    ensures Fits(modified, m, all[|all| - 1]) && Reached(built[..|built| - 1], k, modified, i) <= m
    decreases |all| - k
  {
    RelatesFits(all, k, original, o, modified, n);
    if k == |all| - 1 {
      m := n;
    } else {
      BuiltFits(ws, all, built, k, modified, n);
      var c := NextBelow(modified, n, i, built[k]);
      m := ReachedBelow(ws, all, built, k + 1, original, OldEnd(all[k]), modified, NewEnd(all[k]), c);
    }
  }

  /** A hunk started at or before its place is left at or before its end. */
  lemma NextBelow(modified: seq<string>, n: nat, i: nat, h: DiffHunk) returns (j: nat)
    requires Fits(modified, n, h) && i <= n
    ensures j == ContextEnd(modified, i, h.newStart) + |NewSide(h.lines)| <= NewEnd(h)
  {
    ContextOf(modified, i, h);
    j := ContextEnd(modified, i, h.newStart) + |NewSide(h.lines)|;
  }

  /** A hunk at the end, reached from no further than its place, takes up the rest. */
  lemma TakesRest(lines: seq<string>, i: nat, m: nat, h: DiffHunk)
    requires Fits(lines, m, h) && i <= m && AtEnd(h, lines)
    ensures Between(lines, ContextEnd(lines, i, h.newStart) + h.newLines, |lines|) == []
  {
    ContextOf(lines, m, h);
  }

  /** The last hunk is at the end, and reached from no further than its place. */
  lemma LastFits(ws: char -> bool, f: RawFile, last: RawHunk, original: seq<string>, ls: seq<string>) returns (m: nat)
    requires ws('\n') && Relates(Verbatim(Marked(f, last).hunks), 0, original, 0, ls, 0)
    requires Separated(Verbatim(Marked(f, last).hunks)) && AtEnd(Verbatim(Marked(f, last).hunks)[|f.hunks|], ls)
    ensures Fits(ls, m, BuildHunk(ws, last)) && AtEnd(BuildHunk(ws, last), ls)
    ensures Reached(BuildHunks(ws, f.hunks), 0, ls, 0) <= m
  {
    var hs, built := Verbatim(Marked(f, last).hunks), BuildHunks(ws, Marked(f, last).hunks);
    BuiltIsTrimmed(ws, Marked(f, last).hunks);
    BuildLast(ws, f, last);
    m := ReachedBelow(ws, hs, built, 0, original, 0, ls, 0, 0);
    assert built[..|built| - 1] == BuildHunks(ws, f.hunks);
    BuiltFits(ws, hs, built, |f.hunks|, ls, m);
  }

  /** Behind a hunk at the end there is nothing. */
  lemma NothingAfter(ws: char -> bool, f: RawFile, last: RawHunk, original: seq<string>, modified: string)
    requires ws('\n') && Relates(Verbatim(Clean(f, last).hunks), 0, original, 0, Lines(modified), 0)
    requires Separated(Verbatim(Clean(f, last).hunks))
    requires AtEnd(Verbatim(Clean(f, last).hunks)[|f.hunks|], Lines(modified))
    ensures After(ws, f, last, modified) == []
  {
    var clean, ls := last.(lines := Unmarked(last.lines)), Lines(modified);
    var m := LastFits(ws, f, clean, original, ls);
    TakesRest(ls, Reached(BuildHunks(ws, f.hunks), 0, ls, 0), m, BuildHunk(ws, clean));
  }

  // ----- how many lines are rebuilt -----

  /** Without its markers the diff also relates the lines with what is behind the new text. */
  lemma CleanRelates(f: RawFile, last: RawHunk, original: string, modified: string)
    requires EndDiff(f, last, original, modified)
    ensures Relates(Verbatim(Clean(f, last).hunks), 0, Whole(original) + Rest(modified), 0, Lines(modified), 0)
  {
    WholeLines(modified);
    RelatesBehind(Verbatim(Clean(f, last).hunks), 0, Whole(original), 0, Whole(modified), 0, Rest(modified));
  }

  lemma WholeOneLines(original: string, modified: string)
    ensures AllOneLine(Whole(original) + Rest(modified))
  {
    WholeLines(original);
    var lines := Whole(original) + Rest(modified);
    forall line | line in lines ensures OneLine(line) {
      var k :| 0 <= k < |lines| && lines[k] == line;
      assert k < |Whole(original)| ==> lines[k] == Whole(original)[k];
    }
  }

  /** Without markers as many lines are rebuilt as the original has, and what is behind
      the new text. */
  lemma CleanLength(ws: char -> bool, f: RawFile, last: RawHunk, original: string, modified: string)
    requires ws('\n') && EndDiff(f, last, original, modified)
    ensures |Rebuilt(ws, Clean(f, last), modified)| == |Whole(original)| + |Rest(modified)|
  {
    var raw := Clean(f, last).hunks;
    CleanRelates(f, last, original, modified);
    BuiltIsTrimmed(ws, raw);
    ReverseExact(ws, Verbatim(raw), BuildHunks(ws, raw), 0, Whole(original) + Rest(modified), 0, Lines(modified), 0);
  }

  lemma CleanOneLines(ws: char -> bool, f: RawFile, last: RawHunk, original: string, modified: string)
    requires ws('\n') && EndDiff(f, last, original, modified)
    ensures AllOneLine(Rebuilt(ws, Clean(f, last), modified))
  {
    CleanRelates(f, last, original, modified);
    WholeOneLines(original, modified);
    WholeLines(modified);
    RebuiltOneLines(ws, Clean(f, last).hunks, Whole(original) + Rest(modified), Lines(modified));
  }

  lemma CleanAfter(ws: char -> bool, f: RawFile, last: RawHunk, original: string, modified: string)
    requires ws('\n') && EndDiff(f, last, original, modified) && Ended(original) && !Ended(modified)
    ensures After(ws, f, last, modified) == []
  {
    CleanRelates(f, last, original, modified);
    NothingAfter(ws, f, last, Whole(original) + Rest(modified), modified);
  }

  /** How many lines the text rebuilt has: two more for each marker, less those missing at
      the end of the new text. */
  lemma MarkedLines(ws: char -> bool, f: RawFile, last: RawHunk, original: string, modified: string) returns (lost: nat)
    requires MarkersAs(last.lines) && ws('\n') && !ws('e') && EndDiff(f, last, original, modified)
    requires Rebuilt(ws, Marked(f, last), modified) != []
    ensures lost <= Markers(last.lines) && (Ended(original) && !Ended(modified) ==> lost == 0)
    ensures |Lines(Text(Rebuilt(ws, Marked(f, last), modified)))| + lost
         == |Whole(original)| + |Rest(modified)| + 2 * Markers(last.lines)
  {
    MarkersShift(ws, f, last, modified);
    var before, after := Before(ws, f, last, modified), After(ws, f, last, modified);
    var m := Markers(last.lines);
    var side, plain := OldSide(BuildLines(ws, last.lines)), OldSide(BuildLines(ws, Unmarked(last.lines)));
    lost := if m <= |after| then m else |after|;
    CleanLength(ws, f, last, original, modified);
    CleanOneLines(ws, f, last, original, modified);
    if Ended(original) && !Ended(modified) {
      CleanAfter(ws, f, last, original, modified);
    }
    OneLinesEach(before, plain, after, m);
    MarkedSides(ws, last.lines);
    LinesInAppend(before, side);
    LinesInAppend(before + side, Drop(after, m));
    LinesOfText(before + side + Drop(after, m));
  }

  lemma OneLinesEach(before: seq<string>, plain: seq<string>, after: seq<string>, m: nat)
    requires AllOneLine(before + plain + after)
    ensures LinesIn(before) == |before| && LinesIn(plain) == |plain| && LinesIn(Drop(after, m)) == |Drop(after, m)|
  {
    assert forall s :: s in Drop(after, m) ==> s in before + plain + after;
    LinesInOne(before);
    LinesInOne(plain);
    LinesInOne(Drop(after, m));
  }

  /** With markers the text rebuilt always has more lines than the original. */
  lemma MarkedNeverOriginal(ws: char -> bool, f: RawFile, last: RawHunk, original: string, modified: string)
    requires MarkersAs(last.lines) && ws('\n') && !ws('e') && EndDiff(f, last, original, modified)
    requires Markers(last.lines) > 0
    ensures |Lines(Text(Rebuilt(ws, Marked(f, last), modified)))| > |Lines(original)|
  {
    MarkersShift(ws, f, last, modified);
    MarkedSides(ws, last.lines);
    var lost := MarkedLines(ws, f, last, original, modified);
    WholeLines(original);
  }

  /** A text is rebuilt from its diff exactly when the diff has no marker and every hunk is
      faithful. */
  lemma RebuiltIffUnmarked(ws: char -> bool, f: RawFile, last: RawHunk, original: string, modified: string)
    requires MarkersAs(last.lines) && ws('\n') && !ws('e') && EndDiff(f, last, original, modified)
    ensures Text(Rebuilt(ws, Marked(f, last), modified)) == original <==>
            && Markers(last.lines) == 0
            && forall k :: 0 <= k < |f.hunks| + 1 ==>
                 Faithful(ws, Lines(modified), Verbatim(Clean(f, last).hunks)[k])
  {
    if Markers(last.lines) > 0 {
      MarkedNeverOriginal(ws, f, last, original, modified);
    } else {
      NoMarkers(last.lines);
      UnmarkedDiff(f, last, original, modified);
      RebuiltIffFaithful(ws, Clean(f, last), original, modified);
    }
  }

  lemma UnmarkedDiff(f: RawFile, last: RawHunk, original: string, modified: string)
    requires EndDiff(f, last, original, modified) && Ended(original) == Ended(modified)
    ensures DiffOf(Clean(f, last), original, modified)
  {
    WholeLines(original);
    WholeLines(modified);
    RelatesBehind(Verbatim(Clean(f, last).hunks), 0, Whole(original), 0, Whole(modified), 0, Rest(modified));
  }

  lemma {:induction false} NoMarkers(ls: seq<RawLine>)
    requires Markers(ls) == 0
    ensures Unmarked(ls) == ls
  {
    if ls != [] {
      NoMarkers(ls[..|ls| - 1]);
    }
  }

  // ----- a diff with a marker -----

  const NO_HUNKS := RawFile(Collections.Some("f"), Collections.Some("f"), DeltaModified, [])

  /** The newline at the end of a one-line file is taken away. */
  const UNENDING := RawHunk(1, 1, 1, 1, [
    RawLine('-', "a\n", Collections.Some(1), Collections.None),
    RawLine('+', "a", Collections.None, Collections.Some(1)),
    RawLine('<', MARKER, Collections.None, Collections.None)])

  lemma UnendingLines()
    ensures Unmarked(UNENDING.lines) == UNENDING.lines[..2] && Markers(UNENDING.lines) == 1
  {
    var ls := UNENDING.lines;
    assert ls[..2][..1] == ls[..1] && ls[..1][..0] == [];
    assert Unmarked(ls[..1]) == [ls[0]] && Unmarked(ls[..2]) == [ls[0]] + [ls[1]];
    assert Markers(ls[..1]) == 0 && Markers(ls[..2]) == 0;
  }

  lemma UnendingSides()
    ensures var h := Verbatim(Clean(NO_HUNKS, UNENDING).hunks)[0];
            OldSide(h.lines) == ["a"] && NewSide(h.lines) == ["a"]
  {
    UnendingLines();
    var h := Verbatim(Clean(NO_HUNKS, UNENDING).hunks)[0];
    assert Chomp("a\n") == "a" && Chomp("a") == "a";
    assert OldFrom(h.lines, 2) == [] && NewFrom(h.lines, 2) == [];
    assert OldFrom(h.lines, 1) == [] && NewFrom(h.lines, 1) == ["a"];
  }

  lemma UnendingTexts()
    ensures Ended("a\n") && !Ended("a") && Whole("a\n") == Whole("a") == ["a"]
  {
    SplitOnePart('\n', "a");
    SplitFirst('\n', "a", "");
    assert "a" + ['\n'] + "" == "a\n";
    assert Lines("a\n") == ["a", ""];
  }

  /** A diff that only takes away the newline at the end, from which the text before is not
      rebuilt. */
  lemma MarkerComesBack(ws: char -> bool)
    requires ws('\n') && !ws('e')
    ensures EndDiff(NO_HUNKS, UNENDING, "a\n", "a")
    ensures Text(Rebuilt(ws, Marked(NO_HUNKS, UNENDING), "a")) != "a\n"
  {
    UnendingLines();
    UnendingSides();
    UnendingTexts();
    var hs := Verbatim(Clean(NO_HUNKS, UNENDING).hunks);
    assert HunkAt(["a"], 0, ["a"], 0, hs[0]) by {
      assert ["a"][0..0] == [] && ["a"][0..1] == ["a"];
    }
    assert Relates(hs, 1, ["a"], 1, ["a"], 1);
    RebuiltIffUnmarked(ws, NO_HUNKS, UNENDING, "a\n", "a");
  }
}
