/** Python's ordering of path tuples. */
module PathOrder {
  import opened Options
  import opened Json

  predicate StrLeq(a: string, b: string) {
    a == "" || (b != "" && if a[0] == b[0] then StrLeq(a[1..], b[1..]) else a[0] < b[0])
  }

  /** `x < y` for two parts.  Python refuses an index against a key; see `Incomparable`. */
  predicate PartLess(x: Part, y: Part) {
    match (x, y)
    case (Index(i), Index(j)) => i < j
    case (Name(s), Name(t)) => s != t && StrLeq(s, t)
    case (Index(_), Name(_)) => true
    case (Name(_), Index(_)) => false
  }

  predicate PathLeq(a: Path, b: Path) {
    a == [] || (b != [] && if a[0] == b[0] then PathLeq(a[1..], b[1..]) else PartLess(a[0], b[0]))
  }

  /** Comparing the tuples raises: their first difference is an index against a key. */
  predicate Incomparable(a: Path, b: Path) {
    a != [] && b != [] && if a[0] == b[0] then Incomparable(a[1..], b[1..]) else a[0].Index? != b[0].Index?
  }

  /** No dict mixes integer and string keys. */
  ghost predicate Uniform(node: Json) {
    (forall p, q :: Has(node, p) && Has(node, q) ==> p.Index? == q.Index?) && forall p :: Has(node, p) ==>
        Uniform(At(node, p))
  }

  /** JSON is uniform. */
  lemma {:induction false} StringKeysAreUniform(node: Json)
    requires StringKeys(node)
    ensures Uniform(node)
    decreases node
  {
    forall p | Has(node, p) ensures Uniform(At(node, p)) {
      StringKeysAreUniform(At(node, p));
    }
  }

  /** Two paths into one uniform tree are always comparable: where they part, they part at one container. */
  lemma {:induction false} OneTreeIsComparable(node: Json, a: Path, b: Path)
    requires Uniform(node) && Lookup(node, a).Some? && Lookup(node, b).Some?
    ensures !Incomparable(a, b)
    decreases |a|
  {
    if a != [] && b != [] && a[0] == b[0] {
      OneTreeIsComparable(At(node, a[0]), a[1..], b[1..]);
    }
  }

  /** And in any other tree some two paths are not. */
  lemma {:induction false} MixedTreeHasClash(node: Json) returns (a: Path, b: Path)
    requires !Uniform(node)
    ensures Lookup(node, a).Some? && Lookup(node, b).Some? && Incomparable(a, b)
    decreases node
  {
    if p, q :| Has(node, p) && Has(node, q) && p.Index? != q.Index? {
      a, b := [p], [q];
      assert Lookup(At(node, p), []).Some? && Lookup(At(node, q), []).Some?;
    } else {
      var p :| Has(node, p) && !Uniform(At(node, p));
      var x, y := MixedTreeHasClash(At(node, p));
      a, b := [p] + x, [p] + y;
      assert a[1..] == x && b[1..] == y;
    }
  }

  lemma {:induction false} StrOrder(a: string, b: string, c: string)
    ensures StrLeq(a, b) || StrLeq(b, a)
    ensures StrLeq(a, b) && StrLeq(b, a) ==> a == b
    ensures StrLeq(a, b) && StrLeq(b, c) ==> StrLeq(a, c)
    decreases |a| + |b| + |c|
  {
    var tail := (s: string) => if s == "" then "" else s[1..];
    if a != "" || b != "" || c != "" {
      StrOrder(tail(a), tail(b), tail(c));
    }
    if a != "" && b != "" {
      assert a == [a[0]] + a[1..] && b == [b[0]] + b[1..];
    }
  }

  lemma PartOrder(x: Part, y: Part, z: Part)
    ensures x == y || PartLess(x, y) || PartLess(y, x)
    ensures !(PartLess(x, y) && PartLess(y, x))
    ensures PartLess(x, y) && PartLess(y, z) ==> PartLess(x, z)
  {
    if x.Name? && y.Name? {
      StrOrder(x.s, y.s, if z.Name? then z.s else "");
    }
  }

  lemma {:induction false} PathOrdered(a: Path, b: Path, c: Path)
    ensures PathLeq(a, b) || PathLeq(b, a)
    ensures PathLeq(a, b) && PathLeq(b, a) ==> a == b
    ensures PathLeq(a, b) && PathLeq(b, c) ==> PathLeq(a, c)
    decreases |a| + |b| + |c|
  {
    var tail := (s: Path) => if s == [] then [] else s[1..];
    if a != [] || b != [] || c != [] {
      PathOrdered(tail(a), tail(b), tail(c));
    }
    if a != [] && b != [] {
      assert a == [a[0]] + a[1..] && b == [b[0]] + b[1..];
      PartOrder(a[0], b[0], if c != [] then c[0] else a[0]);
    }
  }
}
