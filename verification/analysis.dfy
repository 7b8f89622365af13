/** The analysis host as seen by the JSON generator: a list of named crate roots,
    each the root of a finite tree of definitions.  Looking a definition up and
    enumerating its children are total here, because the tree carries both. */
module Analysis {
  import opened Wrappers

  /** The symbol-kind vocabulary of the analysis index. */
  datatype DefKind =
    | Enum | TupleVariant | StructVariant | Tuple | Struct | Union | Trait
    | Function | Method | Macro | Mod | Type | Local | Static | Const | Field
    | ExternType

  /** The metadata `get_def` returns for one identifier. */
  datatype Def = Def(kind: DefKind, qualname: string, name: string, docs: string)

  /** A definition together with the definitions `for_each_child_def` enumerates
      under it, in enumeration order. */
  datatype Node = Node(def: Def, children: seq<Node>)

  /** One entry of `def_roots`: the crate's name and its root definition. */
  datatype Root = Root(name: string, tree: Node)

  datatype Host = Host(roots: seq<Root>)

  /** Number of definitions in the tree rooted at `n`, `n` included. */
  function Size(n: Node): nat
    decreases n
  {
    1 + Total(n.children)
  }

  /** Number of definitions in all the trees of `q`. */
  function Total(q: seq<Node>): nat
    decreases q
  {
    if q == [] then 0 else Size(q[0]) + Total(q[1..])
  }

  lemma {:induction false} TotalAppend(a: seq<Node>, b: seq<Node>)
    ensures Total(a + b) == Total(a) + Total(b)
    decreases |a|
  {
    if a == [] {
      assert a + b == b;
    } else {
      assert (a + b)[0] == a[0];
      assert (a + b)[1..] == a[1..] + b;
      TotalAppend(a[1..], b);
    }
  }

  /** The position of the first root whose name is `name`, as `Iterator::find`
      returns it, or `None` when no root has that name. */
  function FindRoot(roots: seq<Root>, name: string): (r: Option<nat>)
    ensures r.None? <==> forall i :: 0 <= i < |roots| ==> roots[i].name != name
    ensures r.Some? ==> r.value < |roots| && roots[r.value].name == name
    ensures r.Some? ==> forall j :: 0 <= j < r.value ==> roots[j].name != name
  {
    if roots == [] then None
    else if roots[0].name == name then Some(0)
    else
      match FindRoot(roots[1..], name)
      case None => None
      case Some(i) => Some(i + 1)
  }
}
