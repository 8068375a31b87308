/** Trimming white space, for a notion of white space. */
module Trimming {
  import opened Numerals

  function TrimStart(ws: char -> bool, s: string): string { s[LeadingRun(ws, s)..] }

  /** `trim_end`. */
  function TrimEnd(ws: char -> bool, s: string): (r: string)
    ensures r <= s && (r != "" ==> !ws(r[|r| - 1]))
    ensures forall k :: |r| <= k < |s| ==> ws(s[k])
  {
    if s != "" && ws(s[|s| - 1]) then TrimEnd(ws, s[..|s| - 1]) else s
  }

  /** `trim`. */
  function Trim(ws: char -> bool, s: string): string { TrimEnd(ws, TrimStart(ws, s)) }

  /** White space up to `i` and from `j` on, and none at the ends of what is between. */
  lemma TrimIs(ws: char -> bool, s: string, i: nat, j: nat)
    requires i < j <= |s| && !ws(s[i]) && !ws(s[j - 1])
    requires (forall k :: 0 <= k < i ==> ws(s[k])) && (forall k :: j <= k < |s| ==> ws(s[k]))
    ensures Trim(ws, s) == s[i..j]
  {
    LeadingRunUnique(ws, s, i);
    var t := s[i..];
    var r := TrimEnd(ws, t);
    assert t[j - 1 - i] == s[j - 1];
    assert r == t[..j - i];
  }

  lemma TrimClean(ws: char -> bool, s: string)
    requires s != "" ==> !ws(s[0]) && !ws(s[|s| - 1])
    ensures Trim(ws, s) == s
  {
    if s != "" {
      TrimIs(ws, s, 0, |s|);
    }
  }

  lemma TrimmedEnds(ws: char -> bool, s: string)
    requires Trim(ws, s) == s
    ensures s != "" ==> !ws(s[0]) && !ws(s[|s| - 1])
  {
  }

  /** One blank before, or after, is trimmed away. */
  lemma TrimBlank(ws: char -> bool, s: string)
    requires ws(' ') && s != "" && !ws(s[0]) && !ws(s[|s| - 1])
    ensures Trim(ws, " " + s) == s && Trim(ws, s + " ") == s
  {
    TrimIs(ws, " " + s, 1, |s| + 1);
    TrimIs(ws, s + " ", 0, |s|);
  }
}
