/** A `BTreeMap` with string keys: the list of its entries in ascending key order. */
module SortedMap {
  import opened Collections

  datatype Entry<V> = Entry(key: string, value: V)

  /** `Ord` on strings: lexicographic by code point. */
  predicate Before(a: string, b: string) {
    b != [] && (a == [] || a[0] < b[0] || (a[0] == b[0] && Before(a[1..], b[1..])))
  }

  lemma {:induction false} BeforeTrichotomy(a: string, b: string)
    ensures Before(a, b) || a == b || Before(b, a)
    ensures !(Before(a, b) && Before(b, a)) && !Before(a, a)
  {
    if a != [] {
      BeforeTrichotomy(a[1..], a[1..]);
      if b != [] && a[0] == b[0] {
        BeforeTrichotomy(a[1..], b[1..]);
        assert a == [a[0]] + a[1..] && b == [b[0]] + b[1..];
      }
    }
  }

  lemma {:induction false} BeforeTransitive(a: string, b: string, c: string)
    requires Before(a, b) && Before(b, c)
    ensures Before(a, c)
  {
    if a != [] && a[0] == b[0] == c[0] {
      BeforeTransitive(a[1..], b[1..], c[1..]);
    }
  }

  /** Keys strictly ascending. */
  predicate Ascending<V>(fields: seq<Entry<V>>) {
    forall i, j :: 0 <= i < j < |fields| ==> Before(fields[i].key, fields[j].key)
  }

  /** `BTreeMap::insert`: replaces the value of an existing key. */
  function Insert<V>(fields: seq<Entry<V>>, e: Entry<V>): seq<Entry<V>> {
    if fields == [] then [e]
    else if e.key == fields[0].key then [e] + fields[1..]
    else if Before(e.key, fields[0].key) then [e] + fields
    else [fields[0]] + Insert(fields[1..], e)
  }

  /** All insertions of a list of fields, first to last. */
  function InsertAll<V>(fields: seq<Entry<V>>): seq<Entry<V>> {
    if fields == [] then [] else Insert(InsertAll(fields[..|fields| - 1]), fields[|fields| - 1])
  }

  /** The value written last under a key. */
  function Latest<V>(fields: seq<Entry<V>>, key: string): Option<V> {
    if fields == [] then None
    else
      var n := |fields| - 1;
      if fields[n].key == key then Some(fields[n].value) else Latest(fields[..n], key)
  }

  /** What comes after the head of an ascending list is behind its key. */
  lemma HeadFirst<V(!new)>(fields: seq<Entry<V>>)
    requires fields != [] && Ascending(fields)
    ensures Ascending(fields[1..])
    ensures forall x :: x in fields[1..] ==> Before(fields[0].key, x.key) && x.key != fields[0].key
    ensures forall x :: x in fields <==> x == fields[0] || x in fields[1..]
  {
    assert fields == [fields[0]] + fields[1..];
    forall x | x in fields[1..] ensures x.key != fields[0].key {
      BeforeTrichotomy(fields[0].key, x.key);
    }
  }

  lemma AscendingCons<V(!new)>(first: Entry<V>, rest: seq<Entry<V>>)
    requires Ascending(rest) && forall x :: x in rest ==> Before(first.key, x.key)
    ensures Ascending([first] + rest)
  {
    var fields := [first] + rest;
    forall i, j | 0 <= i < j < |fields| ensures Before(fields[i].key, fields[j].key) {
      assert fields[j] == rest[j - 1] && fields[j] in rest;
    }
  }

  lemma {:induction false} InsertAscending<V(!new)>(fields: seq<Entry<V>>, e: Entry<V>)
    requires Ascending(fields)
    ensures Ascending(Insert(fields, e))
    ensures forall x :: x in Insert(fields, e) <==> x == e || (x in fields && x.key != e.key)
  {
    if fields != [] {
      var first, rest := fields[0], fields[1..];
      HeadFirst(fields);
      BeforeTrichotomy(e.key, first.key);
      if e.key == first.key {
        AscendingCons(e, rest);
      } else if Before(e.key, first.key) {
        forall x | x in fields ensures Before(e.key, x.key) && x.key != e.key {
          if x != first {
            BeforeTransitive(e.key, first.key, x.key);
          }
          BeforeTrichotomy(e.key, x.key);
        }
        AscendingCons(e, fields);
      } else {
        InsertAscending(rest, e);
        AscendingCons(first, Insert(rest, e));
      }
    }
  }

  /** Whatever the order and repetition of keys, the object is ascending and holds,
      for each key, the value written last. */
  lemma {:induction false} InsertAllAscending<V(!new)>(fields: seq<Entry<V>>)
    ensures Ascending(InsertAll(fields))
    ensures forall x :: x in InsertAll(fields) <==> Latest(fields, x.key) == Some(x.value)
  {
    if fields != [] {
      var n := |fields| - 1;
      InsertAllAscending(fields[..n]);
      InsertAscending(InsertAll(fields[..n]), fields[n]);
    }
  }

  /** An ascending list of fields is already the object it builds. */
  lemma {:induction false} InsertAllSorted<V(!new)>(fields: seq<Entry<V>>)
    requires Ascending(fields)
    ensures InsertAll(fields) == fields
  {
    if fields != [] {
      var n := |fields| - 1;
      InsertAllSorted(fields[..n]);
      InsertLast(fields[..n], fields[n]);
      assert fields == fields[..n] + [fields[n]];
    }
  }

  lemma {:induction false} InsertLast<V(!new)>(fields: seq<Entry<V>>, e: Entry<V>)
    requires forall k :: 0 <= k < |fields| ==> Before(fields[k].key, e.key)
    ensures Insert(fields, e) == fields + [e]
  {
    if fields != [] {
      BeforeTrichotomy(fields[0].key, e.key);
      InsertLast(fields[1..], e);
      assert fields == [fields[0]] + fields[1..];
    }
  }
}
