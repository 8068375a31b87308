/** Splitting text at a separator, and joining it again. */
module Splitting {

  /** `s.split(sep)`. */
  function Split(sep: char, s: string): (parts: seq<string>)
    ensures parts != []
  {
    if s == "" then [""]
    else
      var rest := Split(sep, s[1..]);
      if s[0] == sep then [""] + rest else [[s[0]] + rest[0]] + rest[1..]
  }

  /** `parts.join(sep)`. */
  function Join(sep: char, parts: seq<string>): string {
    if parts == [] then "" else if |parts| == 1 then parts[0] else parts[0] + [sep] + Join(sep, parts[1..])
  }

  lemma {:induction false} JoinSplit(sep: char, s: string)
    ensures Join(sep, Split(sep, s)) == s
  {
    if s != "" {
      var rest := Split(sep, s[1..]);
      JoinSplit(sep, s[1..]);
      assert s == [s[0]] + s[1..];
      if s[0] == sep {
        assert Split(sep, s)[1..] == rest;
      } else {
        JoinFirst(sep, s[0], rest);
      }
    }
  }

  lemma JoinFirst(sep: char, c: char, parts: seq<string>)
    requires parts != []
    ensures Join(sep, [[c] + parts[0]] + parts[1..]) == [c] + Join(sep, parts)
  {
    var longer := [[c] + parts[0]] + parts[1..];
    if |parts| > 1 {
      assert longer[1..] == parts[1..];
      assert [c] + parts[0] + [sep] + Join(sep, parts[1..]) == [c] + (parts[0] + [sep] + Join(sep, parts[1..]));
    }
  }

  predicate OnePart(sep: char, s: string) { sep !in s }

  lemma {:induction false} SplitOnePart(sep: char, s: string)
    requires OnePart(sep, s)
    ensures Split(sep, s) == [s]
  {
    if s != "" {
      SplitOnePart(sep, s[1..]);
      assert s == [s[0]] + s[1..];
    }
  }

  lemma {:induction false} SplitFirst(sep: char, part: string, rest: string)
    requires OnePart(sep, part)
    ensures Split(sep, part + [sep] + rest) == [part] + Split(sep, rest)
  {
    var s := part + [sep] + rest;
    if part == "" {
      assert s[1..] == rest && s[0] == sep;
    } else {
      assert s[1..] == part[1..] + [sep] + rest && s[0] == part[0];
      SplitFirst(sep, part[1..], rest);
      assert part == [part[0]] + part[1..];
    }
  }

  lemma SplitTwo(sep: char, a: string, b: string)
    requires OnePart(sep, a) && OnePart(sep, b)
    ensures Split(sep, a + [sep] + b) == [a, b]
  {
    SplitFirst(sep, a, b);
    SplitOnePart(sep, b);
  }

  lemma {:induction false} SplitJoin(sep: char, parts: seq<string>)
    requires parts != [] && forall k :: 0 <= k < |parts| ==> OnePart(sep, parts[k])
    ensures Split(sep, Join(sep, parts)) == parts
  {
    if |parts| == 1 {
      SplitOnePart(sep, parts[0]);
    } else {
      SplitJoin(sep, parts[1..]);
      SplitFirst(sep, parts[0], Join(sep, parts[1..]));
      assert parts == [parts[0]] + parts[1..];
    }
  }

  lemma {:induction false} SplitParts(sep: char, s: string)
    ensures forall k :: 0 <= k < |Split(sep, s)| ==> OnePart(sep, Split(sep, s)[k])
  {
    if s != "" {
      SplitParts(sep, s[1..]);
      var rest := Split(sep, s[1..]);
      forall k | 0 <= k < |Split(sep, s)| ensures OnePart(sep, Split(sep, s)[k]) {
        if k == 0 {
          assert OnePart(sep, rest[0]);
        }
      }
    }
  }
}
