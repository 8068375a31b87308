/** Abstract syntax of the Dialect language (outdated/mcp-server/src/dialect/parser.rs). */
module DialectAst {
  import opened SortedMap

  /** An object is its list of fields in ascending key order, as a `BTreeMap` is. */
  datatype Ast =
    | Call(name: string, args: seq<Ast>)
    | Int(n: nat)
    | Str(s: string)
    | Boolean(b: bool)
    | Array(elements: seq<Ast>)
    | Object(fields: seq<Entry<Ast>>)

  /** Every object inside has its keys in ascending order: the values of the
      source's type, in which objects are `BTreeMap`s. */
  predicate WellFormed(a: Ast)
    decreases a
  {
    match a
    case Call(_, args) => forall k :: 0 <= k < |args| ==> WellFormed(args[k])
    case Array(elements) => forall k :: 0 <= k < |elements| ==> WellFormed(elements[k])
    case Object(fields) => Ascending(fields) && forall k :: 0 <= k < |fields| ==> WellFormed(fields[k].value)
    case _ => true
  }
}
