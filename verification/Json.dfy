/** JSON trees as the Python code holds them, and the paths into them. */
module Json {
  import opened Options

  /** One step of a path: an integer, which is a list index, or a string, which is a dict key. */
  datatype Part = Index(i: int) | Name(s: string)
  type Path = seq<Part>

  /** A dict keeps its keys in insertion order and may, in Python, have integer keys; a sequence is a list or a tuple;
      `Other` is a number, a boolean or null. */
  datatype Json =
    | Obj(order: seq<Part>, fields: map<Part, Json>)
    | Arr(items: seq<Json>)
    | Tup(items: seq<Json>)
    | Str(text: string)
    | Other(repr: string)

  predicate Listed(node: Json) {
    node.Arr? || node.Tup?
  }

  predicate Has(node: Json, p: Part) {
    (node.Obj? && p in node.fields) || (Listed(node) && p.Index? && 0 <= p.i < |node.items|)
  }

  function At(node: Json, p: Part): (r: Json)
    requires Has(node, p)
    ensures r < node
  {
    if node.Obj? then node.fields[p] else node.items[p.i]
  }

  /** The node once its child at `p` has become `v`, by `node[p] = v` or, in a tuple, by a change inside the child. */
  function Put(node: Json, p: Part, v: Json): (r: Json)
    requires Has(node, p)
    ensures SameFrame(node, r) && At(r, p) == v
    ensures forall q :: Has(node, q) && q != p ==> At(r, q) == At(node, q)
  {
    if node.Obj? then node.(fields := node.fields[p := v]) else node.(items := node.items[p.i := v])
  }

  /** Dict keys are listed once each, at every level. */
  ghost predicate Proper(node: Json) {
    && (node.Obj? ==> (forall k :: k in node.order <==> k in node.fields)
                      && (forall i, j :: 0 <= i < j < |node.order| ==> node.order[i] != node.order[j]))
    && forall p :: Has(node, p) ==> Proper(At(node, p))
  }

  /** JSON proper: every dict key is a string. */
  ghost predicate StringKeys(node: Json) {
    (node.Obj? ==> forall k :: k in node.fields ==> k.Name?) && forall p :: Has(node, p) ==> StringKeys(At(node, p))
  }

  /** The same kind of node with the same children, whatever the children hold. */
  predicate SameFrame(a: Json, b: Json) {
    match a
    case Obj(order, fields) => b.Obj? && b.order == order && b.fields.Keys == fields.Keys
    case Arr(items) => b.Arr? && |b.items| == |items|
    case Tup(items) => b.Tup? && |b.items| == |items|
    case _ => a == b
  }

  function Lookup(node: Json, path: Path): Option<Json> {
    if path == [] then Some(node)
    else if Has(node, path[0]) then Lookup(At(node, path[0]), path[1..])
    else None
  }

  /** A container whose children are all equal is the same container. */
  lemma SameChildren(a: Json, b: Json)
    requires SameFrame(a, b) && forall p :: Has(a, p) ==> At(a, p) == At(b, p)
    ensures a == b
  {
    match a
    case Obj(order, fields) =>
      forall k | k in fields ensures fields[k] == b.fields[k] {
        assert Has(a, k) && At(a, k) == fields[k];
      }
      assert fields == b.fields;
    case Arr(items) => SameItems(a, b);
    case Tup(items) => SameItems(a, b);
    case _ =>
  }

  lemma SameItems(a: Json, b: Json)
    requires Listed(a) && SameFrame(a, b) && forall p :: Has(a, p) ==> At(a, p) == At(b, p)
    ensures a.items == b.items
  {
    forall i | 0 <= i < |a.items| ensures a.items[i] == b.items[i] {
      assert Has(a, Index(i)) && At(a, Index(i)) == a.items[i];
    }
  }

  lemma PutCommutes(node: Json, p: Part, v: Json, q: Part, w: Json)
    requires Has(node, p) && Has(node, q) && p != q
    ensures Put(Put(node, p, v), q, w) == Put(Put(node, q, w), p, v)
  {
    SameChildren(Put(Put(node, p, v), q, w), Put(Put(node, q, w), p, v));
  }

  lemma PutTwice(node: Json, p: Part, v: Json, w: Json)
    requires Has(node, p)
    ensures Put(Put(node, p, v), p, w) == Put(node, p, w)
    ensures Put(node, p, At(node, p)) == node
  {
    SameChildren(Put(Put(node, p, v), p, w), Put(node, p, w));
    SameChildren(Put(node, p, At(node, p)), node);
  }

  lemma {:induction false} LookupConcat(node: Json, a: Path, b: Path)
    ensures Lookup(node, a + b) == if Lookup(node, a).Some? then Lookup(Lookup(node, a).value, b) else None
    decreases |a|
  {
    if a == [] {
      assert a + b == b;
    } else {
      assert (a + b)[1..] == a[1..] + b && (a + b)[0] == a[0];
      if Has(node, a[0]) {
        LookupConcat(At(node, a[0]), a[1..], b);
      }
    }
  }

  /** Absent stays absent, a leaf keeps its value, a container its kind and its children's names. */
  predicate Kept(was: Option<Json>, now: Option<Json>) {
    was.Some? == now.Some? && (was.Some? ==> SameFrame(was.value, now.value))
  }

  predicate TupleAt(node: Json, path: Path) {
    Lookup(node, path).Some? && Lookup(node, path).value.Tup?
  }

  /** Some step of the path is taken inside a tuple. */
  predicate CrossesTuple(node: Json, path: Path) {
    exists k :: 0 <= k < |path| && TupleAt(node, path[..k])
  }

  /** It is the first step, or a later one. */
  lemma CrossesStep(node: Json, path: Path)
    requires path != [] && Has(node, path[0])
    ensures CrossesTuple(node, path) <==> node.Tup? || CrossesTuple(At(node, path[0]), path[1..])
  {
    assert path[..0] == [];
    assert node.Tup? ==> TupleAt(node, path[..0]);
    forall k | 0 < k < |path| ensures TupleAt(node, path[..k]) <==> TupleAt(At(node, path[0]), path[1..][..k - 1]) {
      assert path[..k][1..] == path[1..][..k - 1];
    }
    forall j | 0 <= j < |path[1..]| && TupleAt(At(node, path[0]), path[1..][..j]) ensures CrossesTuple(node, path) {
      assert TupleAt(node, path[..j + 1]);
    }
  }
}
