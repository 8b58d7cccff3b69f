/** Numeric-string keys in metadata: the writer's guard, the walker that lists them, and what the guard buys
    when a path is flattened to text. */
module MetadataKeys {
  import opened Options
  import opened Json
  import opened ObjectKeys

  // ---------------------------------------------------------------- the code

  /** The lister's test on one dict key; `numeric` is `^\d+$`. */
  function Numeric(numeric: string -> bool): Part -> bool {
    (k: Part) => k.Name? && numeric(k.s)
  }

  /** The guard's test: it refuses non-string keys as well. */
  function Refused(numeric: string -> bool): Part -> bool {
    (k: Part) => k.Index? || numeric(k.s)
  }

  predicate IsInteger(k: Part) {
    k.Index?
  }

  /** `has_numeric_string_keys` for a test on keys; it walks dicts, lists and tuples. */
  function BadKeys(bad: Part -> bool, path: Path, node: Json): seq<Path>
    decreases node, 1, 0
  {
    match node
    case Obj(order, _) => BadInFields(bad, path, node, order)
    case Arr(_) => BadInItems(bad, path, node, 0)
    case Tup(_) => BadInItems(bad, path, node, 0)
    case _ => []
  }

  function BadInFields(bad: Part -> bool, path: Path, node: Json, keys: seq<Part>): seq<Path>
    decreases node, 0, |keys|
  {
    if keys == [] then []
    else
      (if bad(keys[0]) then [path + [keys[0]]] else [])
      + (if Has(node, keys[0]) then BadKeys(bad, path + [keys[0]], At(node, keys[0])) else [])
      + BadInFields(bad, path, node, keys[1..])
  }

  function BadInItems(bad: Part -> bool, path: Path, node: Json, i: nat): seq<Path>
    requires Listed(node) && i <= |node.items|
    decreases node, 0, |node.items| - i
  {
    if i == |node.items| then []
    else BadKeys(bad, path + [Index(i)], At(node, Index(i))) + BadInItems(bad, path, node, i + 1)
  }

  /** `_validate_no_numeric_string_keys` for a test on keys: the path it raises with, if it raises.  It walks dicts and
      lists, but not tuples. */
  function Validate(bad: Part -> bool, path: Path, node: Json): Option<Path>
    decreases node, 1, 0
  {
    match node
    case Obj(order, _) => ValidateFields(bad, path, node, order)
    case Arr(_) => ValidateItems(bad, path, node, 0)
    case _ => None
  }

  function ValidateFields(bad: Part -> bool, path: Path, node: Json, keys: seq<Part>): Option<Path>
    decreases node, 0, |keys|
  {
    if keys == [] then None
    else if bad(keys[0]) then Some(path + [keys[0]])
    else
      var below := if Has(node, keys[0]) then Validate(bad, path + [keys[0]], At(node, keys[0])) else None;
      if below.Some? then below else ValidateFields(bad, path, node, keys[1..])
  }

  function ValidateItems(bad: Part -> bool, path: Path, node: Json, i: nat): Option<Path>
    requires node.Arr? && i <= |node.items|
    decreases node, 0, |node.items| - i
  {
    if i == |node.items| then None
    else
      var below := Validate(bad, path + [Index(i)], At(node, Index(i)));
      if below.Some? then below else ValidateItems(bad, path, node, i + 1)
  }

  // ---------------------------------------------------------------- the two walkers

  function FirstOf(paths: seq<Path>): Option<Path> {
    if paths == [] then None else Some(paths[0])
  }

  /** `q` leads from `path` into `node` without a step inside a tuple. */
  predicate InSight(node: Json, path: Path, q: Path) {
    path <= q && !CrossesTuple(node, q[|path|..])
  }

  /** The paths that do. */
  function Outside(node: Json, path: Path, qs: seq<Path>): seq<Path> {
    if qs == [] then [] else (if InSight(node, path, qs[0]) then [qs[0]] else []) + Outside(node, path, qs[1..])
  }

  lemma {:induction false} OutsideConcat(node: Json, path: Path, a: seq<Path>, b: seq<Path>)
    ensures Outside(node, path, a + b) == Outside(node, path, a) + Outside(node, path, b)
  {
    if a == [] {
      assert a + b == b;
    } else {
      assert (a + b)[1..] == a[1..] + b && (a + b)[0] == a[0];
      OutsideConcat(node, path, a[1..], b);
      var head := if InSight(node, path, a[0]) then [a[0]] else [];
      assert Outside(node, path, a + b) == head + (Outside(node, path, a[1..]) + Outside(node, path, b));
    }
  }

  lemma {:induction false} OutsideMember(node: Json, path: Path, qs: seq<Path>, q: Path)
    ensures q in Outside(node, path, qs) <==> q in qs && InSight(node, path, q)
  {
    if qs != [] {
      OutsideMember(node, path, qs[1..], q);
    }
  }

  ghost predicate AllBelow(path: Path, qs: seq<Path>) {
    forall q :: q in qs ==> path < q
  }

  /** Seen from a dict or list, a child's paths are those seen from the child; a tuple hides them all. */
  lemma {:induction false} OutsideChild(node: Json, path: Path, p: Part, qs: seq<Path>)
    requires Has(node, p) && AllBelow(path + [p], qs)
    ensures Outside(node, path, qs) == if node.Tup? then [] else Outside(At(node, p), path + [p], qs)
  {
    if qs != [] {
      assert qs[0] in qs;
      assert forall q :: q in qs[1..] ==> q in qs;
      InSightStep(node, path, p, qs[0]);
      OutsideChild(node, path, p, qs[1..]);
    }
  }

  lemma InSightStep(node: Json, path: Path, p: Part, q: Path)
    requires Has(node, p) && path + [p] < q
    ensures InSight(node, path, q) <==> !node.Tup? && InSight(At(node, p), path + [p], q)
  {
    var rest := q[|path|..];
    assert (path + [p])[|path|] == q[|path|] && path <= q;
    assert rest[0] == p && rest[1..] == q[|path + [p]|..];
    CrossesStep(node, rest);
  }

  lemma {:induction false} BadKeysAreBelow(bad: Part -> bool, path: Path, node: Json)
    ensures AllBelow(path, BadKeys(bad, path, node))
    decreases node, 1, 0
  {
    match node
    case Obj(order, _) => BadInFieldsAreBelow(bad, path, node, order);
    case Arr(_) => BadInItemsAreBelow(bad, path, node, 0);
    case Tup(_) => BadInItemsAreBelow(bad, path, node, 0);
    case _ =>
  }

  lemma {:induction false} BadInFieldsAreBelow(bad: Part -> bool, path: Path, node: Json, keys: seq<Part>)
    ensures AllBelow(path, BadInFields(bad, path, node, keys))
    decreases node, 0, |keys|
  {
    if keys != [] {
      if Has(node, keys[0]) {
        BadKeysAreBelow(bad, path + [keys[0]], At(node, keys[0]));
        BelowFurther(path, keys[0], BadKeys(bad, path + [keys[0]], At(node, keys[0])));
      }
      BadInFieldsAreBelow(bad, path, node, keys[1..]);
    }
  }

  lemma {:induction false} BadInItemsAreBelow(bad: Part -> bool, path: Path, node: Json, i: nat)
    requires Listed(node) && i <= |node.items|
    ensures AllBelow(path, BadInItems(bad, path, node, i))
    decreases node, 0, |node.items| - i
  {
    if i < |node.items| {
      BadKeysAreBelow(bad, path + [Index(i)], At(node, Index(i)));
      BelowFurther(path, Index(i), BadKeys(bad, path + [Index(i)], At(node, Index(i))));
      BadInItemsAreBelow(bad, path, node, i + 1);
    }
  }

  lemma BelowFurther(path: Path, p: Part, qs: seq<Path>)
    requires AllBelow(path + [p], qs)
    ensures AllBelow(path, qs)
  {
    forall q | q in qs ensures path < q {
      assert path + [p] < q && path < path + [p];
    }
  }

  /** With one test, the guard raises exactly when the lister lists a path that crosses no tuple, and with the first
      such path. */
  lemma {:induction false} WalkersAgree(bad: Part -> bool, path: Path, node: Json)
    ensures Validate(bad, path, node) == FirstOf(Outside(node, path, BadKeys(bad, path, node)))
    decreases node, 1, 0
  {
    match node
    case Obj(order, _) => FieldWalkersAgree(bad, path, node, order);
    case Arr(_) => ItemWalkersAgree(bad, path, node, 0);
    case Tup(_) => TupleIsHidden(bad, path, node, 0);
    case _ =>
  }

  lemma {:induction false} FieldWalkersAgree(bad: Part -> bool, path: Path, node: Json, keys: seq<Part>)
    requires node.Obj?
    ensures ValidateFields(bad, path, node, keys) == FirstOf(Outside(node, path, BadInFields(bad, path, node, keys)))
    decreases node, 0, |keys|
  {
    if keys != [] {
      var k := keys[0];
      var own := if bad(k) then [path + [k]] else [];
      var below := if Has(node, k) then BadKeys(bad, path + [k], At(node, k)) else [];
      var rest := BadInFields(bad, path, node, keys[1..]);
      OutsideConcat(node, path, own + below, rest);
      OutsideConcat(node, path, own, below);
      KeyInSight(node, path, k);
      if Has(node, k) {
        WalkersAgree(bad, path + [k], At(node, k));
        BadKeysAreBelow(bad, path + [k], At(node, k));
        OutsideChild(node, path, k, below);
      }
      FieldWalkersAgree(bad, path, node, keys[1..]);
    }
  }

  lemma KeyInSight(node: Json, path: Path, k: Part)
    requires node.Obj?
    ensures InSight(node, path, path + [k]) && Outside(node, path, [path + [k]]) == [path + [k]]
  {
    assert (path + [k])[|path|..] == [k] && [k][..0] == [];
    assert [path + [k]][1..] == [];
  }

  lemma {:induction false} ItemWalkersAgree(bad: Part -> bool, path: Path, node: Json, i: nat)
    requires node.Arr? && i <= |node.items|
    ensures ValidateItems(bad, path, node, i) == FirstOf(Outside(node, path, BadInItems(bad, path, node, i)))
    decreases node, 0, |node.items| - i
  {
    if i < |node.items| {
      var p := Index(i);
      var below, rest := BadKeys(bad, path + [p], At(node, p)), BadInItems(bad, path, node, i + 1);
      OutsideConcat(node, path, below, rest);
      FirstOfConcat(Outside(node, path, below), Outside(node, path, rest));
      WalkersAgree(bad, path + [p], At(node, p));
      BadKeysAreBelow(bad, path + [p], At(node, p));
      OutsideChild(node, path, p, below);
      ItemWalkersAgree(bad, path, node, i + 1);
      assert BadInItems(bad, path, node, i) == below + rest;
    }
  }

  lemma FirstOfConcat(a: seq<Path>, b: seq<Path>)
    ensures FirstOf(a + b) == if FirstOf(a).Some? then FirstOf(a) else FirstOf(b)
  {
  }

  lemma {:induction false} TupleIsHidden(bad: Part -> bool, path: Path, node: Json, i: nat)
    requires node.Tup? && i <= |node.items|
    ensures Outside(node, path, BadInItems(bad, path, node, i)) == []
    decreases |node.items| - i
  {
    if i < |node.items| {
      var p := Index(i);
      var below, rest := BadKeys(bad, path + [p], At(node, p)), BadInItems(bad, path, node, i + 1);
      OutsideConcat(node, path, below, rest);
      BadKeysAreBelow(bad, path + [p], At(node, p));
      OutsideChild(node, path, p, below);
      TupleIsHidden(bad, path, node, i + 1);
    }
  }

  // ---------------------------------------------------------------- the list is exact

  /** `q` leads, from `path` down into `node`, to a dict key that fails the test. */
  predicate Offends(bad: Part -> bool, path: Path, node: Json, q: Path) {
    && path < q && Lookup(node, q[|path|..]).Some?
    && var parent := Lookup(node, q[|path|..|q| - 1]);
    parent.Some? && parent.value.Obj? && bad(q[|q| - 1])
  }

  /** One step down: the child itself, or something below it. */
  lemma OffendsStep(bad: Part -> bool, path: Path, node: Json, p: Part, q: Path)
    requires Has(node, p) && path < q && q[|path|] == p
    ensures Offends(bad, path, node, q) <==>
              (q == path + [p] && node.Obj? && bad(p)) || Offends(bad, path + [p], At(node, p), q)
  {
    var rest := q[|path|..];
    assert rest[1..] == q[|path| + 1..];
    if |q| == |path| + 1 {
      assert q == path + [p];
      assert rest == [p] && Lookup(node, rest) == Lookup(At(node, p), []);
      assert q[|path|..|q| - 1] == [];
    } else {
      assert path + [p] < q;
      assert q[|path|..|q| - 1][1..] == q[|path| + 1..|q| - 1];
    }
  }

  lemma OffendsElsewhere(bad: Part -> bool, path: Path, node: Json, p: Part, q: Path)
    requires Has(node, p) && !(path < q && q[|path|] == p)
    ensures q != path + [p] && !Offends(bad, path + [p], At(node, p), q)
  {
  }

  /** The lister finds every offending key, at any depth, and nothing else. */
  lemma {:induction false} BadKeysExact(bad: Part -> bool, path: Path, node: Json, q: Path)
    requires Proper(node)
    ensures q in BadKeys(bad, path, node) <==> Offends(bad, path, node, q)
    decreases node, 1, 0
  {
    match node
    case Obj(order, _) => FieldsExact(bad, path, node, order, q);
    case Arr(_) => ItemsExact(bad, path, node, 0, q);
    case Tup(_) => ItemsExact(bad, path, node, 0, q);
    case _ =>
  }

  lemma {:induction false} FieldsExact(bad: Part -> bool, path: Path, node: Json, keys: seq<Part>, q: Path)
    requires Proper(node) && node.Obj? && forall k :: k in keys ==> k in node.fields
    ensures q in BadInFields(bad, path, node, keys) <==> Offends(bad, path, node, q) && q[|path|] in keys
    decreases node, 0, |keys|
  {
    if keys != [] {
      var p := keys[0];
      assert Has(node, p);
      BadKeysExact(bad, path + [p], At(node, p), q);
      FieldsExact(bad, path, node, keys[1..], q);
      if path < q && q[|path|] == p {
        OffendsStep(bad, path, node, p, q);
      } else {
        OffendsElsewhere(bad, path, node, p, q);
      }
    }
  }

  lemma {:induction false} ItemsExact(bad: Part -> bool, path: Path, node: Json, i: nat, q: Path)
    requires Proper(node) && Listed(node) && i <= |node.items|
    ensures q in BadInItems(bad, path, node, i) <==> Offends(bad, path, node, q) && q[|path|].Index? && i <= q[|path|].i
    decreases node, 0, |node.items| - i
  {
    if i < |node.items| {
      var p := Index(i);
      assert Has(node, p);
      BadKeysExact(bad, path + [p], At(node, p), q);
      ItemsExact(bad, path, node, i + 1, q);
      if path < q && q[|path|] == p {
        OffendsStep(bad, path, node, p, q);
      } else {
        OffendsElsewhere(bad, path, node, p, q);
      }
    }
  }

  /** The guard passes if and only if every offending key, numeric or not a string, lies below a tuple. */
  lemma GuardPassesExactly(numeric: string -> bool, node: Json)
    requires Proper(node)
    ensures Validate(Refused(numeric), [], node) == None <==>
              && (forall q :: q in BadKeys(Numeric(numeric), [], node) ==> CrossesTuple(node, q))
              && (forall q :: q in BadKeys(IsInteger, [], node) ==> CrossesTuple(node, q))
  {
    var refused := BadKeys(Refused(numeric), [], node);
    var seen := Outside(node, [], refused);
    WalkersAgree(Refused(numeric), [], node);
    forall q ensures q in refused <==> q in BadKeys(Numeric(numeric), [], node) || q in BadKeys(IsInteger, [], node) {
      BadKeysExact(Refused(numeric), [], node, q);
      BadKeysExact(Numeric(numeric), [], node, q);
      BadKeysExact(IsInteger, [], node, q);
    }
    forall q ensures q in seen <==> q in refused && !CrossesTuple(node, q) {
      OutsideMember(node, [], refused, q);
      assert q[0..] == q;
    }
    if seen != [] {
      assert seen[0] in seen;
    }
  }

  /** A tuple hides a numeric key from the guard and not from the lister: `{"fields": ({"0": v},)}`. */
  lemma TupleHidesKey(numeric: string -> bool, v: string)
    requires numeric("0") && !numeric("fields")
    ensures var inner := Obj([Name("0")], map[Name("0") := Str(v)]);
            var node := Obj([Name("fields")], map[Name("fields") := Tup([inner])]);
            && Validate(Refused(numeric), [], node) == None
            && BadKeys(Numeric(numeric), [], node) == [[Name("fields"), Index(0), Name("0")]]
  {
    var inner := Obj([Name("0")], map[Name("0") := Str(v)]);
    OneKey(Refused(numeric), [], Name("fields"), Tup([inner]));
    OneKey(Numeric(numeric), [], Name("fields"), Tup([inner]));
    OneItem(Numeric(numeric), [] + [Name("fields")], inner);
    OneKey(Numeric(numeric), [] + [Name("fields")] + [Index(0)], Name("0"), Str(v));
    assert [] + [Name("fields")] + [Index(0)] + [Name("0")] == [Name("fields"), Index(0), Name("0")];
  }

  /** Both walkers on a dict with one key. */
  lemma OneKey(bad: Part -> bool, path: Path, k: Part, child: Json)
    ensures var node := Obj([k], map[k := child]);
            && Validate(bad, path, node) == (if bad(k) then Some(path + [k]) else Validate(bad, path + [k], child))
            && BadKeys(bad, path, node) == (if bad(k) then [path + [k]] else []) + BadKeys(bad, path + [k], child)
  {
    var node := Obj([k], map[k := child]);
    assert [k][1..] == [] && Has(node, k) && At(node, k) == child;
    assert BadInFields(bad, path, node, []) == [] && ValidateFields(bad, path, node, []) == None;
  }

  /** The lister on a tuple with one item. */
  lemma OneItem(bad: Part -> bool, path: Path, item: Json)
    ensures BadKeys(bad, path, Tup([item])) == BadKeys(bad, path + [Index(0)], item)
  {
    assert BadInItems(bad, path, Tup([item]), 1) == [];
  }

  // ---------------------------------------------------------------- flattening

  function TextOf(p: Part): string {
    match p
    case Index(i) => if i < 0 then "-" + Decimal(-i) else Decimal(i)
    case Name(s) => s
  }

  lemma IndexText(i: int)
    ensures var text := TextOf(Index(i));
            && text != "" && (text[0] == '-' <==> i < 0)
            && Value(if i < 0 then text[1..] else text) == if i < 0 then -i else i
  {
    var n: nat := if i < 0 then -i else i;
    var digits := Decimal(n);
    DecimalRoundTrip(n);
    assert '0' <= digits[0] <= '9';
    assert ("-" + digits)[1..] == digits;
  }

  /** Integers have different texts, negative ones included. */
  lemma IndexTextsDiffer(i: int, j: int)
    requires TextOf(Index(i)) == TextOf(Index(j))
    ensures i == j
  {
    IndexText(i);
    IndexText(j);
  }

  /** `path_to_jsonb_set_text_array`. */
  function TextArray(path: Path): seq<string> {
    seq(|path|, i requires 0 <= i < |path| => TextOf(path[i]))
  }

  /** The test takes every plain decimal number. */
  ghost predicate TakesDecimals(numeric: string -> bool) {
    forall n: nat :: numeric(Decimal(n))
  }

  /** In metadata that the guard lets through, no step of a path that crosses no tuple is a numeric key. */
  lemma GuardedStep(numeric: string -> bool, node: Json, path: Path, k: nat)
    requires Proper(node) && Validate(Refused(numeric), [], node) == None
    requires Lookup(node, path).Some? && !CrossesTuple(node, path) && k < |path|
    ensures path[k].Name? ==> !numeric(path[k].s)
    ensures path[k].Index? ==> path[k].i >= 0
  {
    var q := path[..k + 1];
    assert path == q + path[k + 1..];
    LookupConcat(node, q, path[k + 1..]);
    assert q == path[..k] + [path[k]];
    LookupConcat(node, path[..k], [path[k]]);
    var parent := Lookup(node, path[..k]).value;
    assert Has(parent, path[k]);
    if parent.Obj? {
      NoCrossingPrefix(node, path, k + 1);
      GuardedKey(numeric, node, path[..k], path[k]);
    }
  }

  lemma NoCrossingPrefix(node: Json, path: Path, n: nat)
    requires n <= |path| && !CrossesTuple(node, path)
    ensures !CrossesTuple(node, path[..n])
  {
    forall k | 0 <= k < n ensures !TupleAt(node, path[..n][..k]) {
      assert path[..n][..k] == path[..k];
    }
  }

  lemma GuardedKey(numeric: string -> bool, node: Json, path: Path, k: Part)
    requires Proper(node) && Validate(Refused(numeric), [], node) == None
    requires Lookup(node, path).Some? && Lookup(node, path).value.Obj? && Has(Lookup(node, path).value, k)
    requires !CrossesTuple(node, path + [k])
    ensures k.Name? && !numeric(k.s)
  {
    var q := path + [k];
    LookupConcat(node, path, [k]);
    assert [k][1..] == [];
    WalkersAgree(Refused(numeric), [], node);
    BadKeysExact(Refused(numeric), [], node, q);
    OutsideMember(node, [], BadKeys(Refused(numeric), [], node), q);
    assert q[0..] == q && q[0..|q| - 1] == path;
  }

  lemma SameTextSamePart(numeric: string -> bool, p: Part, q: Part)
    requires TakesDecimals(numeric) && TextOf(p) == TextOf(q)
    requires (p.Name? ==> !numeric(p.s)) && (q.Name? ==> !numeric(q.s))
    requires (p.Index? ==> p.i >= 0) && (q.Index? ==> q.i >= 0)
    ensures p == q
  {
    if p.Index? {
      DecimalRoundTrip(p.i);
      assert numeric(Decimal(p.i));
    }
    if q.Index? {
      DecimalRoundTrip(q.i);
      assert numeric(Decimal(q.i));
    }
  }

  /** What the guard is for: paths into guarded metadata, even of different rows, flatten without loss, as long as they
      cross no tuple. */
  lemma GuardedPathsFlattenApart(numeric: string -> bool, a: Json, p: Path, b: Json, q: Path)
    requires TakesDecimals(numeric) && Proper(a) && Proper(b)
    requires Validate(Refused(numeric), [], a) == None && Validate(Refused(numeric), [], b) == None
    requires Lookup(a, p).Some? && Lookup(b, q).Some? && !CrossesTuple(a, p) && !CrossesTuple(b, q)
    ensures TextArray(p) == TextArray(q) <==> p == q
  {
    if TextArray(p) == TextArray(q) {
      assert |p| == |TextArray(p)| == |q|;
      forall k | 0 <= k < |p| ensures p[k] == q[k] {
        assert TextArray(p)[k] == TextOf(p[k]) && TextArray(q)[k] == TextOf(q[k]);
        GuardedStep(numeric, a, p, k);
        GuardedStep(numeric, b, q, k);
        SameTextSamePart(numeric, p[k], q[k]);
      }
    }
  }

  /** Without the guard a numeric key and a list index flatten alike. */
  lemma UnguardedPathsCollide(k: string, i: nat)
    ensures TextArray([Name(k), Name(Decimal(i))]) == TextArray([Name(k), Index(i)])
  {
  }

  /** Below a tuple they collide although both rows pass the guard: `{"f": ({"0": v},)}` and `{"f": ([v],)}`. */
  lemma GuardedTuplesCollide(numeric: string -> bool, v: string)
    requires TakesDecimals(numeric) && !numeric("f")
    ensures var a := Obj([Name("f")], map[Name("f") := Tup([Obj([Name("0")], map[Name("0") := Str(v)])])]);
            var b := Obj([Name("f")], map[Name("f") := Tup([Arr([Str(v)])])]);
            var p, q := [Name("f"), Index(0), Name("0")], [Name("f"), Index(0), Index(0)];
            && Validate(Refused(numeric), [], a) == None && Validate(Refused(numeric), [], b) == None
            && Lookup(a, p) == Some(Str(v)) && Lookup(b, q) == Some(Str(v))
            && p != q && TextArray(p) == TextArray(q)
  {
    var dict, list := Obj([Name("0")], map[Name("0") := Str(v)]), Arr([Str(v)]);
    BehindTuple(numeric, "f", dict, Name("0"), Str(v));
    BehindTuple(numeric, "f", list, Index(0), Str(v));
    assert Decimal(0) == "0";
  }

  /** What lies behind `{"f": (inner,)}`: the guard does not look, the path leads there. */
  lemma BehindTuple(numeric: string -> bool, f: string, inner: Json, k: Part, v: Json)
    requires !numeric(f) && Has(inner, k) && At(inner, k) == v
    ensures var node := Obj([Name(f)], map[Name(f) := Tup([inner])]);
            Validate(Refused(numeric), [], node) == None && Lookup(node, [Name(f), Index(0), k]) == Some(v)
  {
    var node := Obj([Name(f)], map[Name(f) := Tup([inner])]);
    OneKey(Refused(numeric), [], Name(f), Tup([inner]));
    assert [Name(f), Index(0), k][1..] == [Index(0), k] && [Index(0), k][1..] == [k] && [k][1..] == [];
    assert Lookup(inner, [k]) == Lookup(v, []);
    assert Lookup(Tup([inner]), [Index(0), k]) == Lookup(inner, [k]);
  }
}
