/** When reverse-applying the hunks of a diff gives back the original: the meaning of a
    patch, and the exact condition for the reconstruction to invert it. */
module ReversePatch {
  import opened DiffLines
  import opened Trimming
  import opened ReverseDiff

  // ----- what a patch means -----

  /** Index of the first line of a hunk's side.  By the convention of unified diffs a
      side without lines names the line before it. */
  function OldPos(h: DiffHunk): int { if h.oldLines == 0 then h.oldStart else h.oldStart - 1 }

  function NewPos(h: DiffHunk): int { if h.newLines == 0 then h.newStart else h.newStart - 1 }

  function OldEnd(h: DiffHunk): int { OldPos(h) + h.oldLines }

  function NewEnd(h: DiffHunk): int { NewPos(h) + h.newLines }

  /** The hunk's sides are where it says, at or after lines `o` and `n`, and the lines
      before them are equal. */
  predicate HunkAt(original: seq<string>, o: nat, modified: seq<string>, n: nat, h: DiffHunk) {
    && o <= OldPos(h) && OldEnd(h) <= |original| && n <= NewPos(h) && NewEnd(h) <= |modified|
    && original[o..OldPos(h)] == modified[n..NewPos(h)]
    && OldSide(h.lines) == original[OldPos(h)..OldEnd(h)]
    && NewSide(h.lines) == modified[NewPos(h)..NewEnd(h)]
  }

  /** The hunks from `k` on relate `original` from line `o` on to `modified` from `n` on. */
  predicate Relates(hs: seq<DiffHunk>, k: nat, original: seq<string>, o: nat, modified: seq<string>, n: nat)
    requires k <= |hs|
    decreases |hs| - k
  {
    if k == |hs| then
      o <= |original| && n <= |modified| && original[o..] == modified[n..]
    else
      && HunkAt(original, o, modified, n, hs[k])
      && Relates(hs, k + 1, original, OldEnd(hs[k]), modified, NewEnd(hs[k]))
  }

  /** At least one unchanged line between hunks, as adjacent hunks are one hunk. */
  predicate Separated(hs: seq<DiffHunk>) {
    forall j, k :: 0 <= j < k < |hs| ==> NewEnd(hs[j]) < NewPos(hs[k])
  }

  /** Applying a patch, by its old positions alone. */
  function Apply(hs: seq<DiffHunk>, k: nat, original: seq<string>, o: nat): seq<string>
    requires k <= |hs|
    decreases |hs| - k
  {
    if k == |hs| then Between(original, o, |original|)
    else if OldPos(hs[k]) < 0 then []
    else Between(original, o, OldPos(hs[k])) + NewSide(hs[k].lines) + Apply(hs, k + 1, original, OldEnd(hs[k]))
  }

  /** The relation is the graph of application. */
  lemma {:induction false} RelatedIsApplied(hs: seq<DiffHunk>, k: nat, original: seq<string>, o: nat,
                                            modified: seq<string>, n: nat)
    requires k <= |hs| && Relates(hs, k, original, o, modified, n)
    ensures n <= |modified| && Apply(hs, k, original, o) == modified[n..]
    decreases |hs| - k
  {
    if k < |hs| {
      RelatedIsApplied(hs, k + 1, original, OldEnd(hs[k]), modified, NewEnd(hs[k]));
      ThreeParts(modified, n, NewPos(hs[k]), NewEnd(hs[k]));
    }
  }

  lemma ThreeParts<T>(xs: seq<T>, i: nat, j: nat, k: nat)
    requires i <= j <= k <= |xs|
    ensures xs[i..] == xs[i..j] + xs[j..k] + xs[k..]
  {
  }

  // ----- trimmed hunks -----

  function TrimAll(ws: char -> bool, lines: seq<string>): (r: seq<string>)
    ensures |r| == |lines| && forall k :: 0 <= k < |r| ==> r[k] == TrimEnd(ws, lines[k])
  {
    seq(|lines|, k requires 0 <= k < |lines| => TrimEnd(ws, lines[k]))
  }

  /** `built` is a hunk whose line contents have been trimmed. */
  predicate TrimmedHunk(ws: char -> bool, h: DiffHunk, built: DiffHunk) {
    && built.oldStart == h.oldStart && built.oldLines == h.oldLines
    && built.newStart == h.newStart && built.newLines == h.newLines
    && OldSide(built.lines) == TrimAll(ws, OldSide(h.lines))
    && |NewSide(built.lines)| == |NewSide(h.lines)|
  }

  predicate Trimmed(ws: char -> bool, hs: seq<DiffHunk>, built: seq<DiffHunk>) {
    |built| == |hs| && forall k :: 0 <= k < |hs| ==> TrimmedHunk(ws, hs[k], built[k])
  }

  // ----- the exact condition -----

  /** The copying of unchanged lines stops one line before the hunk's place. */
  predicate Early(h: DiffHunk) { h.newLines == 0 && h.newStart > 0 }

  /** A hunk is reversed faithfully: trimming took nothing from its old lines, and if it
      has no new line and is not at the top, where the copying stops one line early, it
      only removes copies of the line before it. */
  predicate Faithful(ws: char -> bool, modified: seq<string>, h: DiffHunk) {
    forall line :: line in OldSide(h.lines) ==>
      TrimEnd(ws, line) == line && (Early(h) && h.newStart <= |modified| ==> line == modified[h.newStart - 1])
  }

  /** Lines moved over one other line, and trimmed: nothing changes only if all are that
      line, and trimmed already. */
  lemma MovedOver(ws: char -> bool, w: seq<string>, x: string)
    ensures TrimAll(ws, w) + [x] == [x] + w <==> forall line :: line in w ==> line == x && TrimEnd(ws, line) == line
  {
    var left, right := TrimAll(ws, w) + [x], [x] + w;
    if left == right && w != [] {
      var n := |w| - 1;
      assert left[n + 1] == right[n + 1];
      assert left[0] == right[0];
      TrimEndTwice(ws, w[0]);
      AllLast(ws, w, x, 0);
    }
    if forall line :: line in w ==> line == x && TrimEnd(ws, line) == line {
      forall k | 0 <= k < |left| ensures left[k] == right[k] {
        assert forall j :: 0 <= j < |w| ==> w[j] in w;
      }
    }
  }

  lemma TrimEndTwice(ws: char -> bool, s: string)
    ensures TrimEnd(ws, TrimEnd(ws, s)) == TrimEnd(ws, s)
  {
  }

  lemma {:induction false} AllLast(ws: char -> bool, w: seq<string>, x: string, k: nat)
    requires k < |w| && TrimAll(ws, w) + [x] == [x] + w && TrimEnd(ws, x) == x
    ensures forall j :: k <= j < |w| ==> w[j] == x
    decreases |w| - k
  {
    var left, right := TrimAll(ws, w) + [x], [x] + w;
    assert left[k + 1] == right[k + 1];
    if k + 1 < |w| {
      AllLast(ws, w, x, k + 1);
    }
  }

  lemma SameParts<T>(a: seq<T>, b: seq<T>, a': seq<T>, b': seq<T>)
    requires |a| == |a'|
    ensures a + b == a' + b' <==> a == a' && b == b'
  {
    if a + b == a' + b' {
      assert a == (a + b)[..|a|] && a' == (a' + b')[..|a|];
      assert b == (a + b)[|a|..] && b' == (a' + b')[|a|..];
    }
  }

  lemma TakeOver<T>(r: seq<T>, a: seq<T>, b: seq<T>, early: seq<T>, x: T, rest: seq<T>)
    requires r == a + b + early && early == [x] + rest
    ensures r == a + b + [x] + rest
  {
  }

  lemma PutBefore<T>(r: seq<T>, longer: seq<T>, a: seq<T>, a': seq<T>, b: seq<T>, rest: seq<T>, x: T)
    requires r == a + b + rest && longer == a' + b + rest && a' == [x] + a
    ensures longer == [x] + r
  {
  }

  lemma SliceOne<T>(xs: seq<T>, n: nat, c: nat)
    requires 0 < n <= c <= |xs|
    ensures xs[n - 1..c] == [xs[n - 1]] + xs[n..c]
  {
  }

  // ----- what one hunk contributes -----

  /** A hunk's new side is where it says, at or after line `n`. */
  predicate Fits(modified: seq<string>, n: nat, h: DiffHunk) {
    && |NewSide(h.lines)| == h.newLines
    && n <= NewPos(h) && NewEnd(h) <= |modified|
    && (Early(h) ==> n < NewPos(h))
  }

  lemma ContextOf(modified: seq<string>, n: nat, h: DiffHunk)
    requires Fits(modified, n, h)
    ensures ContextEnd(modified, n, h.newStart) == if Early(h) then NewPos(h) - 1 else NewPos(h)
  {
  }

  /** The lines up to a hunk, its old lines, and what follows from line `end` on. */
  lemma ReverseFrom(hs: seq<DiffHunk>, k: nat, modified: seq<string>, n: nat, c: nat, end: nat)
    requires k < |hs| && n <= c <= |modified| && c == ContextEnd(modified, n, hs[k].newStart)
    requires end == c + |NewSide(hs[k].lines)|
    ensures Reverse(hs, k, modified, n) == modified[n..c] + OldSide(hs[k].lines) + Reverse(hs, k + 1, modified, end)
  {
  }

  lemma FromOneEarlier(hs: seq<DiffHunk>, k: nat, modified: seq<string>, n: nat, c: nat)
    requires k < |hs| && 0 < n <= c <= |modified|
    requires c == ContextEnd(modified, n, hs[k].newStart) == ContextEnd(modified, n - 1, hs[k].newStart)
    ensures Reverse(hs, k, modified, n - 1) == [modified[n - 1]] + Reverse(hs, k, modified, n)
  {
    var end := c + |NewSide(hs[k].lines)|;
    ReverseFrom(hs, k, modified, n, c, end);
    ReverseFrom(hs, k, modified, n - 1, c, end);
    SliceOne(modified, n, c);
    PutBefore(Reverse(hs, k, modified, n), Reverse(hs, k, modified, n - 1), modified[n..c], modified[n - 1..c],
              OldSide(hs[k].lines), Reverse(hs, k + 1, modified, end), modified[n - 1]);
  }

  /** Starting to copy one line early just copies that line. */
  lemma OneLineEarly(hs: seq<DiffHunk>, k: nat, modified: seq<string>, n: nat)
    requires k <= |hs| && 0 < n <= |modified| && (k < |hs| ==> Fits(modified, n, hs[k]) && n < NewPos(hs[k]))
    ensures Reverse(hs, k, modified, n - 1) == [modified[n - 1]] + Reverse(hs, k, modified, n)
  {
    if k == |hs| {
      SliceOne(modified, n, |modified|);
    } else {
      ContextOf(modified, n, hs[k]);
      ContextOf(modified, n - 1, hs[k]);
      FromOneEarlier(hs, k, modified, n, ContextEnd(modified, n, hs[k].newStart));
    }
  }

  /** The unchanged lines before a hunk and then its old lines, or, when the copying
      stops a line early, the other way round for that line. */
  function Given(modified: seq<string>, n: nat, ns: int, early: bool, kept: seq<string>): seq<string>
    requires n <= ns <= |modified| && (early ==> n < ns)
  {
    if early then modified[n..ns - 1] + kept + [modified[ns - 1]] else modified[n..ns] + kept
  }

  lemma ReverseHunk(hs: seq<DiffHunk>, k: nat, modified: seq<string>, n: nat)
    requires k < |hs| && Fits(modified, n, hs[k])
    requires k + 1 < |hs| ==> Fits(modified, NewEnd(hs[k]), hs[k + 1]) && NewEnd(hs[k]) < NewPos(hs[k + 1])
    ensures var h := hs[k];
            Reverse(hs, k, modified, n)
            == Given(modified, n, NewPos(h), Early(h), OldSide(h.lines)) + Reverse(hs, k + 1, modified, NewEnd(h))
  {
    if Early(hs[k]) {
      ReverseEarly(hs, k, modified, n);
    } else {
      ReverseLate(hs, k, modified, n);
    }
  }

  lemma ReverseLate(hs: seq<DiffHunk>, k: nat, modified: seq<string>, n: nat)
    requires k < |hs| && Fits(modified, n, hs[k]) && !Early(hs[k])
    ensures Reverse(hs, k, modified, n)
         == Given(modified, n, NewPos(hs[k]), false, OldSide(hs[k].lines)) + Reverse(hs, k + 1, modified, NewEnd(hs[k]))
  {
    ContextOf(modified, n, hs[k]);
    LateHunk(hs, k, modified, n, NewPos(hs[k]), NewEnd(hs[k]));
  }

  lemma ReverseEarly(hs: seq<DiffHunk>, k: nat, modified: seq<string>, n: nat)
    requires k < |hs| && Fits(modified, n, hs[k]) && Early(hs[k])
    requires k + 1 < |hs| ==> Fits(modified, NewEnd(hs[k]), hs[k + 1]) && NewEnd(hs[k]) < NewPos(hs[k + 1])
    ensures Reverse(hs, k, modified, n)
         == Given(modified, n, NewPos(hs[k]), true, OldSide(hs[k].lines)) + Reverse(hs, k + 1, modified, NewEnd(hs[k]))
  {
    ContextOf(modified, n, hs[k]);
    OneLineEarly(hs, k + 1, modified, NewPos(hs[k]));
    EarlyHunk(hs, k, modified, n, NewPos(hs[k]));
  }

  lemma LateHunk(hs: seq<DiffHunk>, k: nat, modified: seq<string>, n: nat, ns: nat, end: nat)
    requires k < |hs| && n <= ns <= |modified| && ns == ContextEnd(modified, n, hs[k].newStart)
    requires end == ns + |NewSide(hs[k].lines)|
    ensures Reverse(hs, k, modified, n)
         == Given(modified, n, ns, false, OldSide(hs[k].lines)) + Reverse(hs, k + 1, modified, end)
  {
    ReverseFrom(hs, k, modified, n, ns, end);
  }

  lemma EarlyGiven(all: seq<string>, modified: seq<string>, n: nat, ns: nat, w: seq<string>, early: seq<string>,
                   rest: seq<string>)
    requires n < ns <= |modified| && all == modified[n..ns - 1] + w + early && early == [modified[ns - 1]] + rest
    ensures all == Given(modified, n, ns, true, w) + rest
  {
    TakeOver(all, modified[n..ns - 1], w, early, modified[ns - 1], rest);
  }

  lemma EarlyHunk(hs: seq<DiffHunk>, k: nat, modified: seq<string>, n: nat, ns: nat)
    requires k < |hs| && n < ns <= |modified| && NewSide(hs[k].lines) == []
    requires ns - 1 == ContextEnd(modified, n, hs[k].newStart)
    requires Reverse(hs, k + 1, modified, ns - 1) == [modified[ns - 1]] + Reverse(hs, k + 1, modified, ns)
    ensures Reverse(hs, k, modified, n)
         == Given(modified, n, ns, true, OldSide(hs[k].lines)) + Reverse(hs, k + 1, modified, ns)
  {
    ReverseFrom(hs, k, modified, n, ns - 1, ns - 1);
    EarlyGiven(Reverse(hs, k, modified, n), modified, n, ns, OldSide(hs[k].lines),
               Reverse(hs, k + 1, modified, ns - 1), Reverse(hs, k + 1, modified, ns));
  }

  /** What a faithful hunk is, when the copying stops early and when it does not. */
  lemma FaithfulIs(ws: char -> bool, modified: seq<string>, h: DiffHunk)
    ensures Early(h) && h.newStart <= |modified| ==>
              (Faithful(ws, modified, h) <==>
               forall line :: line in OldSide(h.lines) ==>
                 TrimEnd(ws, line) == line && line == modified[h.newStart - 1])
    ensures !Early(h) ==>
              (Faithful(ws, modified, h) <==> forall line :: line in OldSide(h.lines) ==> TrimEnd(ws, line) == line)
  {
  }

  lemma LastApart<T>(xs: seq<T>, i: nat, j: nat)
    requires i < j <= |xs|
    ensures xs[i..j] == xs[i..j - 1] + [xs[j - 1]]
  {
  }

  lemma EarlyHunkExact(ws: char -> bool, modified: seq<string>, n: nat, h: DiffHunk)
    requires Fits(modified, n, h) && Early(h)
    ensures var w, ns := OldSide(h.lines), NewPos(h);
            modified[n..ns - 1] + TrimAll(ws, w) + [modified[ns - 1]] == modified[n..ns] + w
            <==> Faithful(ws, modified, h)
  {
    FaithfulIs(ws, modified, h);
    EarlyExact(ws, modified[n..NewPos(h) - 1], modified[NewPos(h) - 1], OldSide(h.lines));
    LastApart(modified, n, NewPos(h));
  }

  lemma LateHunkExact(ws: char -> bool, modified: seq<string>, n: nat, h: DiffHunk)
    requires Fits(modified, n, h) && !Early(h)
    ensures var w := OldSide(h.lines);
            modified[n..NewPos(h)] + TrimAll(ws, w) == modified[n..NewPos(h)] + w <==> Faithful(ws, modified, h)
  {
    FaithfulIs(ws, modified, h);
    LateExact(ws, modified[n..NewPos(h)], OldSide(h.lines));
  }

  /** One hunk is given back unchanged exactly when it is faithful. */
  lemma HunkExact(ws: char -> bool, modified: seq<string>, n: nat, h: DiffHunk)
    requires Fits(modified, n, h)
    ensures var w, kept := OldSide(h.lines), TrimAll(ws, OldSide(h.lines));
            var given := Given(modified, n, NewPos(h), Early(h), kept);
            && |given| == NewPos(h) - n + |w|
            && (given == modified[n..NewPos(h)] + w <==> Faithful(ws, modified, h))
  {
    if Early(h) {
      EarlyHunkExact(ws, modified, n, h);
    } else {
      LateHunkExact(ws, modified, n, h);
    }
  }

  lemma EarlyExact(ws: char -> bool, a: seq<string>, x: string, w: seq<string>)
    ensures a + TrimAll(ws, w) + [x] == a + [x] + w <==>
            forall line :: line in w ==> TrimEnd(ws, line) == line && line == x
  {
    MovedPart(a, TrimAll(ws, w), x, w);
    MovedOver(ws, w, x);
  }

  lemma LateExact(ws: char -> bool, a: seq<string>, w: seq<string>)
    ensures a + TrimAll(ws, w) == a + w <==> forall line :: line in w ==> TrimEnd(ws, line) == line
  {
    var kept := TrimAll(ws, w);
    SameParts(a, kept, a, w);
    if kept == w {
      forall line | line in w ensures TrimEnd(ws, line) == line {
        var k :| 0 <= k < |w| && w[k] == line;
        assert kept[k] == w[k];
      }
    } else {
      var k :| 0 <= k < |w| && kept[k] != w[k];
      assert w[k] in w;
    }
  }

  lemma MovedPart<T>(a: seq<T>, kept: seq<T>, x: T, w: seq<T>)
    requires |kept| == |w|
    ensures a + kept + [x] == a + [x] + w <==> kept + [x] == [x] + w
  {
    assert a + kept + [x] == a + (kept + [x]) && a + [x] + w == a + ([x] + w);
    SameParts(a, kept + [x], a, [x] + w);
  }

  // ----- the whole patch -----

  lemma RelatesFits(hs: seq<DiffHunk>, k: nat, original: seq<string>, o: nat, modified: seq<string>, n: nat)
    requires k < |hs| && Relates(hs, k, original, o, modified, n) && Ahead(n, hs, k)
    ensures var h := hs[k];
            && Fits(modified, n, h) && o <= OldEnd(h) <= |original|
            && original[o..] == modified[n..NewPos(h)] + OldSide(h.lines) + original[OldEnd(h)..]
  {
    ThreeParts(original, o, OldPos(hs[k]), OldEnd(hs[k]));
  }

  predicate Ahead(n: nat, hs: seq<DiffHunk>, k: nat) { k < |hs| && Early(hs[k]) ==> n < NewPos(hs[k]) }

  /** The built hunks stand where the hunks do. */
  lemma BuiltFits(ws: char -> bool, hs: seq<DiffHunk>, built: seq<DiffHunk>, k: nat, modified: seq<string>, n: nat)
    requires k < |hs| && Trimmed(ws, hs, built) && Fits(modified, n, hs[k])
    ensures Fits(modified, n, built[k])
    ensures NewPos(built[k]) == NewPos(hs[k]) && NewEnd(built[k]) == NewEnd(hs[k]) && Early(built[k]) == Early(hs[k])
    ensures OldSide(built[k].lines) == TrimAll(ws, OldSide(hs[k].lines))
  {
    assert TrimmedHunk(ws, hs[k], built[k]);
  }

  lemma JoinExact<T>(r: seq<T>, given: seq<T>, rest: seq<T>, all: seq<T>, was: seq<T>, tail: seq<T>)
    requires r == given + rest && all == was + tail && |given| == |was| && |rest| == |tail|
    ensures |r| == |all| && (r == all <==> given == was && rest == tail)
  {
    SameParts(given, rest, was, tail);
  }

  predicate AllFaithful(ws: char -> bool, modified: seq<string>, hs: seq<DiffHunk>, k: nat) {
    forall j :: k <= j < |hs| ==> Faithful(ws, modified, hs[j])
  }

  lemma FaithfulNext(ws: char -> bool, modified: seq<string>, hs: seq<DiffHunk>, k: nat)
    requires k < |hs|
    ensures AllFaithful(ws, modified, hs, k) <==> Faithful(ws, modified, hs[k]) && AllFaithful(ws, modified, hs, k + 1)
  {
  }

  /** The reconstruction from the trimmed hunks has the original's length, and is the
      original exactly when every hunk is faithful. */
  lemma {:induction false} ReverseExact(ws: char -> bool, hs: seq<DiffHunk>, built: seq<DiffHunk>, k: nat,
                                        original: seq<string>, o: nat, modified: seq<string>, n: nat)
    requires k <= |hs| && Relates(hs, k, original, o, modified, n) && Separated(hs)
    requires Ahead(n, hs, k) && Trimmed(ws, hs, built)
    ensures o <= |original| && |Reverse(built, k, modified, n)| == |original| - o
    ensures Reverse(built, k, modified, n) == original[o..] <==> AllFaithful(ws, modified, hs, k)
    decreases |hs| - k
  {
    if k < |hs| {
      var h := hs[k];
      var end := NewEnd(h);
      BuiltHunk(ws, hs, built, k, original, o, modified, n);
      ReverseExact(ws, hs, built, k + 1, original, OldEnd(h), modified, end);
      HunkExact(ws, modified, n, h);
      FaithfulNext(ws, modified, hs, k);
      JoinExact(Reverse(built, k, modified, n),
                Given(modified, n, NewPos(h), Early(h), TrimAll(ws, OldSide(h.lines))),
                Reverse(built, k + 1, modified, end),
                original[o..], modified[n..NewPos(h)] + OldSide(h.lines), original[OldEnd(h)..]);
    }
  }

  /** The original and the reconstruction, each up to the end of a hunk and after it. */
  lemma BuiltHunk(ws: char -> bool, hs: seq<DiffHunk>, built: seq<DiffHunk>, k: nat,
                  original: seq<string>, o: nat, modified: seq<string>, n: nat)
    requires k < |hs| && Relates(hs, k, original, o, modified, n) && Separated(hs)
    requires Ahead(n, hs, k) && Trimmed(ws, hs, built)
    ensures var h := hs[k];
            && Fits(modified, n, h) && o <= OldEnd(h) <= |original|
            && original[o..] == modified[n..NewPos(h)] + OldSide(h.lines) + original[OldEnd(h)..]
            && Reverse(built, k, modified, n)
               == Given(modified, n, NewPos(h), Early(h), TrimAll(ws, OldSide(h.lines)))
                  + Reverse(built, k + 1, modified, NewEnd(h))
  {
    RelatesFits(hs, k, original, o, modified, n);
    BuiltFits(ws, hs, built, k, modified, n);
    if k + 1 < |hs| {
      RelatesFits(hs, k + 1, original, OldEnd(hs[k]), modified, NewEnd(hs[k]));
      BuiltFits(ws, hs, built, k + 1, modified, NewEnd(hs[k]));
    }
    ReverseHunk(built, k, modified, n);
  }
}
