/** `_set_at_path`: Python's subscripting and assignment along a path, on any tree and any path. */
module PathAssign {
  import opened Options
  import opened Json

  // ---------------------------------------------------------------- the code

  /** A negative index of a list or tuple counts from the end. */
  function Canon(node: Json, p: Part): Part {
    if Listed(node) && p.Index? && -|node.items| <= p.i < 0 then Index(p.i + |node.items|) else p
  }

  /** `node[p]` succeeds.  A step into a string yields a character, into which nothing can be assigned, so that such a
      path raises at its end; it counts as not succeeding. */
  predicate Reads(node: Json, p: Part) {
    Has(node, Canon(node, p))
  }

  /** Stored over a value, inserted as a new dict key, or an exception. */
  datatype Outcome = Stored(tree: Json) | Inserted(tree: Json) | Raised

  /** `node[p] = v`; a tuple does not take assignments. */
  function Assign(node: Json, p: Part, v: Json): Outcome {
    if node.Tup? then Raised
    else if Reads(node, p) then Stored(Put(node, Canon(node, p), v))
    else if node.Obj? then Inserted(Obj(node.order + [p], node.fields[p := v]))
    else Raised
  }

  /** The same container with the child replaced, as the assignment below it ended. */
  function Within(node: Json, p: Part, below: Outcome): Outcome
    requires Reads(node, p)
  {
    match below
    case Stored(t) => Stored(Put(node, Canon(node, p), t))
    case Inserted(t) => Inserted(Put(node, Canon(node, p), t))
    case Raised => Raised
  }

  function SetAtPath(node: Json, path: Path, v: Json): Outcome
    decreases |path|
  {
    if path == [] then Stored(node)
    else if |path| == 1 then Assign(node, path[0], v)
    else if Reads(node, path[0]) then Within(node, path[0], SetAtPath(At(node, Canon(node, path[0])), path[1..], v))
    else Raised
  }

  // ---------------------------------------------------------------- which outcome

  /** Where Python gets along a path. */
  function Follow(node: Json, path: Path): Option<Json>
    decreases |path|
  {
    if path == [] then Some(node)
    else if Reads(node, path[0]) then Follow(At(node, Canon(node, path[0])), path[1..])
    else None
  }

  /** The same path with its negative indices resolved. */
  function CanonPath(node: Json, path: Path): Path
    requires Follow(node, path).Some?
    decreases |path|
  {
    if path == [] then [] else [Canon(node, path[0])] + CanonPath(At(node, Canon(node, path[0])), path[1..])
  }

  /** One step: a dict leads on by its keys,
      a list or tuple by its indices and by the same indices counted back from the
      end, and nothing else leads on. */
  lemma StepsLead(node: Json, p: Part)
    ensures Follow(node, [p]) ==
        if node.Obj? && p in node.fields then Some(node.fields[p])
        else if Listed(node) && p.Index? && 0 <= p.i < |node.items| then Some(node.items[p.i])
        else if Listed(node) && p.Index? && -|node.items| <= p.i < 0 then Some(node.items[|node.items| + p.i])
        else None
  {
    assert Reads(node, p) ==> Follow(node, [p]) == Follow(At(node, Canon(node, p)), [p][1..]);
  }

  lemma {:induction false} FollowIsLookup(node: Json, path: Path)
    requires Follow(node, path).Some?
    ensures Lookup(node, CanonPath(node, path)) == Follow(node, path)
    decreases |path|
  {
    if path != [] {
      FollowIsLookup(At(node, Canon(node, path[0])), path[1..]);
      assert CanonPath(node, path)[1..] == CanonPath(At(node, Canon(node, path[0])), path[1..]);
    }
  }

  /** Exactly when it raises, when it inserts and when it stores: decided by the container that the path without its
      last step leads to. */
  lemma {:induction false} OutcomeExactly(node: Json, path: Path, v: Json)
    requires path != []
    ensures var parent, last := Follow(node, path[..|path| - 1]), path[|path| - 1];
            var r := SetAtPath(node, path, v);
            && (r.Raised? <==> parent.None? || parent.value.Tup? || !(parent.value.Obj? || Reads(parent.value, last)))
            && (r.Inserted? <==> parent.Some? && parent.value.Obj? && !Reads(parent.value, last))
            && (r.Stored? <==> Follow(node, path).Some? && parent.Some? && !parent.value.Tup?)
    decreases |path|
  {
    if |path| == 1 {
      assert path[..0] == [];
      assert Reads(node, path[0]) ==> Follow(node, path) == Follow(At(node, Canon(node, path[0])), []);
    } else {
      assert path[..|path| - 1][1..] == path[1..][..|path| - 2];
      if Reads(node, path[0]) {
        OutcomeExactly(At(node, Canon(node, path[0])), path[1..], v);
      }
    }
  }

  /** The documented error for an unresolved path is not raised for a missing last dict key: it is inserted. */
  lemma MissingKeyIsInserted(k: string, v: Json)
    ensures var empty := Obj([], map[]);
            && Follow(empty, [Name(k)]) == None
            && SetAtPath(empty, [Name(k)], v) == Inserted(Obj([Name(k)], map[Name(k) := v]))
  {
    assert [] + [Name(k)] == [Name(k)];
  }

  /** A string directly in a tuple is found by its path and cannot be replaced. */
  lemma TupleItemRaises(k: string, text: string, v: Json)
    ensures var node, path := Obj([Name(k)], map[Name(k) := Tup([Str(text)])]), [Name(k), Index(0)];
            Lookup(node, path) == Some(Str(text)) && SetAtPath(node, path, v) == Raised
  {
    assert [Name(k), Index(0)][1..] == [Index(0)] && [Index(0)][1..] == [];
    assert Lookup(Tup([Str(text)]), [Index(0)]) == Lookup(Str(text), []);
  }

  // ---------------------------------------------------------------- what changes

  /** The tree with one location replaced. */
  function ReplaceAt(node: Json, path: Path, v: Json): Json
    requires Lookup(node, path).Some?
    decreases |path|
  {
    if path == [] then v else Put(node, path[0], ReplaceAt(At(node, path[0]), path[1..], v))
  }

  /** Every location afterwards: the new value and what it holds below, and everything else as it was. */
  lemma {:induction false} LookupReplace(node: Json, a: Path, v: Json, q: Path)
    requires Lookup(node, a).Some?
    ensures a <= q ==> Lookup(ReplaceAt(node, a, v), q) == Lookup(v, q[|a|..])
    ensures !(a <= q) && !(q < a) ==> Lookup(ReplaceAt(node, a, v), q) == Lookup(node, q)
    ensures q < a ==> Kept(Lookup(node, q), Lookup(ReplaceAt(node, a, v), q))
    decreases |a|
  {
    if a == [] {
      assert q[0..] == q;
    } else if q != [] {
      var out := ReplaceAt(node, a, v);
      assert Has(out, q[0]) <==> Has(node, q[0]);
      if q[0] == a[0] {
        LookupReplace(At(node, a[0]), a[1..], v, q[1..]);
        assert a <= q <==> a[1..] <= q[1..];
        assert q < a <==> q[1..] < a[1..];
        assert a <= q ==> q[|a|..] == q[1..][|a| - 1..];
        assert q < a ==> Lookup(node, q) == Lookup(At(node, a[0]), q[1..]);
      }
    }
  }

  /** What a stored assignment changes: the location that the path leads to. */
  lemma {:induction false} StoredReplaces(node: Json, path: Path, v: Json)
    requires path != [] && SetAtPath(node, path, v).Stored?
    ensures Follow(node, path).Some? && Lookup(node, CanonPath(node, path)).Some?
    ensures SetAtPath(node, path, v) == Stored(ReplaceAt(node, CanonPath(node, path), v))
    decreases |path|
  {
    OutcomeExactly(node, path, v);
    FollowIsLookup(node, path);
    var p := Canon(node, path[0]);
    assert CanonPath(node, path)[0] == p && CanonPath(node, path)[1..] == CanonPath(At(node, p), path[1..]);
    if |path| == 1 {
      assert CanonPath(At(node, p), path[1..]) == [];
    } else {
      StoredReplaces(At(node, p), path[1..], v);
    }
  }

  /** What an inserting assignment changes: the dict gains the key, last in order. */
  lemma {:induction false} InsertedExtends(node: Json, path: Path, v: Json)
    requires path != [] && SetAtPath(node, path, v).Inserted?
    ensures var init, last := path[..|path| - 1], path[|path| - 1];
            && Follow(node, init).Some? && Follow(node, init).value.Obj? && Lookup(node, CanonPath(node, init)).Some?
            && var dict := Follow(node, init).value;
            SetAtPath(node, path, v)
                == Inserted(ReplaceAt(node, CanonPath(node, init), Obj(dict.order + [last], dict.fields[last := v])))
    decreases |path|
  {
    OutcomeExactly(node, path, v);
    var init := path[..|path| - 1];
    FollowIsLookup(node, init);
    if |path| > 1 {
      var p := Canon(node, path[0]);
      assert init[0] == path[0] && init[1..] == path[1..][..|path| - 2];
      InsertedExtends(At(node, p), path[1..], v);
      assert CanonPath(node, init)[0] == p && CanonPath(node, init)[1..] == CanonPath(At(node, p), init[1..]);
    }
  }

  /** A path that resolves as it stands leads where it says. */
  lemma {:induction false} ResolvedPathIsCanonical(node: Json, path: Path)
    requires Lookup(node, path).Some?
    ensures Follow(node, path) == Lookup(node, path) && CanonPath(node, path) == path
    decreases |path|
  {
    if path != [] {
      assert Canon(node, path[0]) == path[0];
      ResolvedPathIsCanonical(At(node, path[0]), path[1..]);
      assert path == [path[0]] + path[1..];
    }
  }
}
