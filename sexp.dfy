/** Ruby S-expressions as ruby_parser builds them, e.g.
    `s(:call, s(:lvar, :map), :connect, s(:arglist, s(:str, ":controller/:action/:id")))`,
    and the accessors the lint rules use to look inside a node.

    Every accessor is total: on a node that is too short or of the wrong shape it
    answers `None` (or an empty sequence) instead of failing. */
module SExps {

  datatype Option<T> = None | Some(value: T)

  datatype SExp =
    | Sym(name: string)       // a Ruby symbol, :call is Sym("call")
    | Str(text: string)       // a raw Ruby String, as inside s(:str, "...")
    | Int(value: int)         // an integer literal
    | Nil                     // Ruby nil, e.g. the absent receiver of `match ...`
    | List(items: seq<SExp>)  // s(item, ...)

  /** Element `i` of a node: Ruby's `node[i]` when that element exists. */
  function Element(node: SExp, i: nat): (r: Option<SExp>)
    ensures r.Some? <==> node.List? && i < |node.items|
    ensures r.Some? ==> r.value == node.items[i]
  {
    if node.List? && i < |node.items| then Some(node.items[i]) else None
  }

  /** The node type: the symbol heading a node, `:call` for `s(:call, ...)`. */
  function NodeType(node: SExp): (r: Option<string>)
    ensures r.Some? <==> node.List? && |node.items| > 0 && node.items[0].Sym?
    ensures r.Some? ==> node.items[0] == Sym(r.value)
  {
    match Element(node, 0)
    case Some(Sym(kind)) => Some(kind)
    case _ => None
  }

  predicate HasType(node: SExp, kind: string) {
    NodeType(node) == Some(kind)
  }

  /** The receiver of a call, element 1 (Nil for an implicit receiver). */
  function Subject(node: SExp): (r: Option<SExp>)
    ensures r.Some? <==> node.List? && |node.items| > 1
    ensures r.Some? ==> r.value == node.items[1]
  {
    Element(node, 1)
  }

  /** The method name of a call, element 2, when it is a symbol. */
  function Message(node: SExp): (r: Option<string>)
    ensures r.Some? ==> Element(node, 2) == Some(Sym(r.value))
    ensures r.None? <==> !(Element(node, 2).Some? && Element(node, 2).value.Sym?)
  {
    match Element(node, 2)
    case Some(Sym(m)) => Some(m)
    case _ => None
  }

  /** The argument list of a call, element 3, itself `s(:arglist, args...)`. */
  function Arguments(node: SExp): (r: Option<SExp>)
    ensures r.Some? <==> node.List? && |node.items| > 3
    ensures r.Some? ==> r.value == node.items[3]
  {
    Element(node, 3)
  }

  /** The child nodes of a node: those of its elements that are S-expressions
      themselves (symbols, strings, numbers and nil are not children). */
  function Children(node: SExp): (r: seq<SExp>)
    ensures forall c :: c in r <==> node.List? && c in node.items && c.List?
  {
    if node.List? then SubLists(node.items) else []
  }

  function SubLists(items: seq<SExp>): (r: seq<SExp>)
    ensures |r| <= |items|
    ensures forall c :: c in r <==> c in items && c.List?
  {
    if items == [] then []
    else
      assert items == [items[0]] + items[1..];
      (if items[0].List? then [items[0]] else []) + SubLists(items[1..])
  }
}
