/** `redact_outbox_payload`: dotted-path redaction of an event payload. */
module Redaction {
  import opened Options
  import opened Json

  const MARK: Json := Str("<redacted>")

  // ---------------------------------------------------------------- the code

  /** `str.split(".")`: never empty. */
  function Split(text: string): (parts: seq<string>)
    ensures |parts| >= 1
  {
    if text == "" then [""]
    else
      var rest := Split(text[1..]);
      if text[0] == '.' then [""] + rest else [[text[0]] + rest[0]] + rest[1..]
  }

  /** `int(head)` where it parses, the text otherwise; `parse` is Python's `int`. */
  function PartOf(parse: string -> Option<int>, word: string): Part {
    match parse(word)
    case Some(i) => Index(i)
    case None => Name(word)
  }

  function PathOf(parse: string -> Option<int>, field: string): Path {
    var words := Split(field);
    seq(|words|, i requires 0 <= i < |words| => PartOf(parse, words[i]))
  }

  /** `_contains_path_part`: dict keys and list indices, but no tuples. */
  predicate Contains(node: Json, p: Part) {
    !node.Tup? && Has(node, p)
  }

  /** Where the redaction gets along a path. */
  function Reach(node: Json, path: Path): Option<Json> {
    if path == [] then Some(node)
    else if Contains(node, path[0]) then Reach(At(node, path[0]), path[1..])
    else None
  }

  function RedactPath(node: Json, path: Path): Json
    decreases |path|
  {
    if path == [] then node
    else if |path| > 1 then
      if Contains(node, path[0]) then Put(node, path[0], RedactPath(At(node, path[0]), path[1..])) else node
    else if Contains(node, path[0]) then Put(node, path[0], MARK)
    else node
  }

  function RedactAll(node: Json, paths: seq<Path>): Json {
    if paths == [] then node else RedactPath(RedactAll(node, paths[..|paths| - 1]), paths[|paths| - 1])
  }

  function PathsOf(parse: string -> Option<int>, fields: seq<string>): seq<Path> {
    seq(|fields|, i requires 0 <= i < |fields| => PathOf(parse, fields[i]))
  }

  method RedactOutboxPayload(parse: string -> Option<int>, payload: Json, fields: seq<string>) returns (out: Json)
    ensures out == RedactAll(payload, PathsOf(parse, fields))
  {
    out := payload;
    var paths := PathsOf(parse, fields);
    for i := 0 to |fields|
      invariant out == RedactAll(payload, paths[..i])
    {
      assert paths[..i + 1][..i] == paths[..i];
      out := RedactPath(out, PathOf(parse, fields[i]));
    }
    assert paths[..|fields|] == paths;
  }

  // ---------------------------------------------------------------- one path

  lemma MarkIsFinal(path: Path)
    ensures RedactPath(MARK, path) == MARK
  {
  }

  /** Redactions commute. */
  lemma {:induction false} RedactCommutes(node: Json, a: Path, b: Path)
    ensures RedactPath(RedactPath(node, a), b) == RedactPath(RedactPath(node, b), a)
    decreases |a|
  {
    if a != [] && b != [] && Contains(node, a[0]) && Contains(node, b[0]) {
      var p, q := a[0], b[0];
      var v := if |a| == 1 then MARK else RedactPath(At(node, p), a[1..]);
      var w := if |b| == 1 then MARK else RedactPath(At(node, q), b[1..]);
      if p == q {
        MarkIsFinal(a[1..]);
        MarkIsFinal(b[1..]);
        RedactCommutes(At(node, p), a[1..], b[1..]);
        RedactTwice(node, a, b);
        RedactTwice(node, b, a);
      } else {
        PutCommutes(node, p, v, q, w);
      }
    }
  }

  /** Two redactions that start alike: the second works on what the first left in the child. */
  lemma RedactTwice(node: Json, a: Path, b: Path)
    requires a != [] && b != [] && a[0] == b[0] && Contains(node, a[0])
    ensures var v := if |a| == 1 then MARK else RedactPath(At(node, a[0]), a[1..]);
            RedactPath(RedactPath(node, a), b) == Put(node, a[0], if |b| == 1 then MARK else RedactPath(v, b[1..]))
  {
    var v := if |a| == 1 then MARK else RedactPath(At(node, a[0]), a[1..]);
    PutTwice(node, a[0], v, if |b| == 1 then MARK else RedactPath(v, b[1..]));
  }

  /** A path absorbs its extensions. */
  lemma {:induction false} PrefixAbsorbs(node: Json, a: Path, b: Path)
    requires a != [] && a <= b
    ensures RedactPath(RedactPath(node, b), a) == RedactPath(node, a)
    ensures RedactPath(RedactPath(node, a), b) == RedactPath(node, a)
    decreases |a|
  {
    RedactCommutes(node, a, b);
    if Contains(node, a[0]) {
      var w := if |b| == 1 then MARK else RedactPath(At(node, b[0]), b[1..]);
      if |a| > 1 {
        PrefixAbsorbs(At(node, a[0]), a[1..], b[1..]);
      }
      PutTwice(node, a[0], w, if |a| == 1 then MARK else RedactPath(w, a[1..]));
    }
  }

  /** Only resolved locations change. */
  lemma {:induction false} UnresolvedIsNoOp(node: Json, a: Path)
    requires a == [] || Reach(node, a) == None
    ensures RedactPath(node, a) == node
    decreases |a|
  {
    if |a| > 1 && Contains(node, a[0]) {
      UnresolvedIsNoOp(At(node, a[0]), a[1..]);
      PutTwice(node, a[0], node, node);
    }
  }

  /** What every location holds after one redaction. */
  lemma {:induction false} LookupRedact(node: Json, a: Path, q: Path)
    requires a != [] && Reach(node, a).Some?
    ensures a == q ==> Lookup(RedactPath(node, a), q) == Some(Str("<redacted>"))
    ensures a < q ==> Lookup(RedactPath(node, a), q) == None
    ensures !(a <= q) ==> Kept(Lookup(node, q), Lookup(RedactPath(node, a), q))
    decreases |a|
  {
    var out := RedactPath(node, a);
    if q != [] {
      if q[0] == a[0] {
        if |a| > 1 {
          assert a <= q <==> a[1..] <= q[1..];
          LookupRedact(At(node, a[0]), a[1..], q[1..]);
        } else {
          assert Lookup(MARK, q[1..]) == if |q| == 1 then Some(MARK) else None;
        }
      } else {
        assert Has(out, q[0]) <==> Has(node, q[0]);
      }
    }
  }

  // ---------------------------------------------------------------- the whole list

  /** A path is reached iff it leads somewhere without stepping into a tuple. */
  lemma {:induction false} ReachExactly(node: Json, path: Path)
    ensures Reach(node, path).Some? <==> Lookup(node, path).Some? && !CrossesTuple(node, path)
    decreases |path|
  {
    if path != [] && Has(node, path[0]) {
      ReachExactly(At(node, path[0]), path[1..]);
      CrossesStep(node, path);
    }
    if path != [] {
      assert path[..0] == [];
    }
  }

  /** Some requested path that is reached in the payload is at or above `q`. */
  ghost predicate Hit(node: Json, paths: seq<Path>, q: Path) {
    exists p :: p in paths && p != [] && p <= q && Reach(node, p).Some?
  }

  /** One strictly above. */
  ghost predicate HitAbove(node: Json, paths: seq<Path>, q: Path) {
    exists p :: p in paths && p != [] && p < q && Reach(node, p).Some?
  }

  /** The output at `q`, from the payload and the set of paths alone. */
  ghost predicate Redacted(node: Json, paths: seq<Path>, q: Path, now: Option<Json>) {
    if HitAbove(node, paths, q) then now == None
    else if Hit(node, paths, q) then now == Some(Str("<redacted>"))
    else Kept(Lookup(node, q), now)
  }

  lemma HitSnoc(node: Json, before: seq<Path>, p: Path, q: Path)
    ensures Hit(node, before + [p], q) <==> Hit(node, before, q) || (p != [] && p <= q && Reach(node, p).Some?)
    ensures HitAbove(node, before + [p], q) <==>
              HitAbove(node, before, q) || (p != [] && p < q && Reach(node, p).Some?)
  {
    if Hit(node, before, q) {
      var x :| x in before && x != [] && x <= q && Reach(node, x).Some?;
      assert x in before + [p];
    }
    if HitAbove(node, before, q) {
      var x :| x in before && x != [] && x < q && Reach(node, x).Some?;
      assert x in before + [p];
    }
    assert p in before + [p];
  }

  /** A location below a hit is gone, so a location that is there has the frames above it that it had. */
  lemma FramesAbove(node: Json, paths: seq<Path>, out: Json, q: Path)
    requires forall r :: Redacted(node, paths, r, Lookup(out, r))
    requires !HitAbove(node, paths, q)
    ensures CrossesTuple(out, q) <==> CrossesTuple(node, q)
  {
    forall k | 0 <= k < |q| ensures TupleAt(out, q[..k]) <==> TupleAt(node, q[..k]) {
      assert Redacted(node, paths, q[..k], Lookup(out, q[..k]));
    }
  }

  /** A path is reached after some redactions iff it was before and nothing above it was redacted. */
  lemma ReachAfter(node: Json, paths: seq<Path>, out: Json, p: Path)
    requires forall r :: Redacted(node, paths, r, Lookup(out, r))
    ensures Reach(out, p).Some? <==> Reach(node, p).Some? && !HitAbove(node, paths, p)
  {
    assert Redacted(node, paths, p, Lookup(out, p));
    ReachExactly(node, p);
    ReachExactly(out, p);
    if !HitAbove(node, paths, p) {
      FramesAbove(node, paths, out, p);
      if Hit(node, paths, p) {
        var x :| x in paths && x != [] && x <= p && Reach(node, x).Some?;
        assert x == p;
      }
    }
  }

  /** The output, location by location: what is below a redacted location is gone, a requested location that is
      reached holds the mark, and everything else is as it was. */
  lemma {:induction false} RedactAllExact(node: Json, paths: seq<Path>, q: Path)
    ensures Redacted(node, paths, q, Lookup(RedactAll(node, paths), q))
    decreases |paths|
  {
    if paths != [] {
      var before, p := paths[..|paths| - 1], paths[|paths| - 1];
      assert paths == before + [p];
      forall r ensures Redacted(node, before, r, Lookup(RedactAll(node, before), r)) {
        RedactAllExact(node, before, r);
      }
      RedactOneMore(node, before, p, q);
    }
  }

  lemma RedactOneMore(node: Json, before: seq<Path>, p: Path, q: Path)
    requires forall r :: Redacted(node, before, r, Lookup(RedactAll(node, before), r))
    ensures Redacted(node, before + [p], q, Lookup(RedactPath(RedactAll(node, before), p), q))
  {
    var node' := RedactAll(node, before);
    assert Redacted(node, before, q, Lookup(node', q));
    HitSnoc(node, before, p, q);
    ReachAfter(node, before, node', p);
    if p == [] || Reach(node', p) == None {
      UnresolvedIsNoOp(node', p);
      if p != [] && p <= q && HitAbove(node, before, p) {
        var x :| x in before && x != [] && x < p && Reach(node, x).Some?;
        assert x < q;
      }
    } else {
      LookupRedact(node', p, q);
      if p <= q && HitAbove(node, before, q) {
        HitAboveExtends(node, before, p, q);
      }
    }
  }

  /** Above an extension of `p` a hit is above `p` or at or below it. */
  lemma HitAboveExtends(node: Json, paths: seq<Path>, p: Path, q: Path)
    requires p <= q && HitAbove(node, paths, q) && !HitAbove(node, paths, p)
    ensures p < q
  {
    var x :| x in paths && x != [] && x < q && Reach(node, x).Some?;
    assert x < p || p <= x;
  }

  /** Redacting again something already redacted changes nothing. */
  lemma {:induction false} AlreadyRedacted(node: Json, paths: seq<Path>, p: Path)
    requires p in paths
    ensures RedactPath(RedactAll(node, paths), p) == RedactAll(node, paths)
    decreases |paths|
  {
    var before, z := paths[..|paths| - 1], paths[|paths| - 1];
    var node' := RedactAll(node, before);
    if p == z {
      if p != [] {
        PrefixAbsorbs(node', p, p);
      }
    } else {
      AlreadyRedacted(node, before, p);
      RedactCommutes(node', z, p);
    }
  }

  lemma {:induction false} RedactAllConcat(node: Json, a: seq<Path>, b: seq<Path>)
    ensures RedactAll(node, a + b) == RedactAll(RedactAll(node, a), b)
    decreases |b|
  {
    if b == [] {
      assert a + b == a;
    } else {
      assert (a + b)[..|a + b| - 1] == a + b[..|b| - 1];
      RedactAllConcat(node, a, b[..|b| - 1]);
    }
  }

  /** A single path can be moved in front of a list. */
  lemma {:induction false} RedactFirstOrLast(node: Json, paths: seq<Path>, p: Path)
    ensures RedactPath(RedactAll(node, paths), p) == RedactAll(RedactPath(node, p), paths)
    decreases |paths|
  {
    if paths != [] {
      var before, z := paths[..|paths| - 1], paths[|paths| - 1];
      RedactFirstOrLast(node, before, p);
      RedactCommutes(RedactAll(node, before), z, p);
    }
  }

  lemma {:induction false} RedactListsCommute(node: Json, a: seq<Path>, b: seq<Path>)
    ensures RedactAll(RedactAll(node, a), b) == RedactAll(RedactAll(node, b), a)
    decreases |b|
  {
    if b != [] {
      var before, z := b[..|b| - 1], b[|b| - 1];
      RedactListsCommute(node, a, before);
      RedactFirstOrLast(RedactAll(node, before), a, z);
    }
  }

  lemma {:induction false} SublistAdds(node: Json, a: seq<Path>, b: seq<Path>)
    requires forall p :: p in b ==> p in a
    ensures RedactAll(RedactAll(node, a), b) == RedactAll(node, a)
    decreases |b|
  {
    if b != [] {
      SublistAdds(node, a, b[..|b| - 1]);
      AlreadyRedacted(node, a, b[|b| - 1]);
    }
  }

  /** Order and repetition of the field list do not matter: the same set of paths gives the same payload. */
  lemma OrderDoesNotMatter(node: Json, a: seq<Path>, b: seq<Path>)
    requires forall p :: p in a <==> p in b
    ensures RedactAll(node, a) == RedactAll(node, b)
  {
    SublistAdds(node, a, b);
    SublistAdds(node, b, a);
    RedactListsCommute(node, a, b);
  }

  /** Any permutation of the field list gives the same payload, and running the redaction twice changes nothing. */
  lemma PermutationAndRerun(parse: string -> Option<int>, node: Json, fields: seq<string>, shuffled: seq<string>)
    requires multiset(fields) == multiset(shuffled)
    ensures RedactAll(node, PathsOf(parse, shuffled)) == RedactAll(node, PathsOf(parse, fields))
    ensures RedactAll(RedactAll(node, PathsOf(parse, fields)), PathsOf(parse, fields))
        == RedactAll(node, PathsOf(parse, fields))
  {
    var a, b := PathsOf(parse, fields), PathsOf(parse, shuffled);
    PathsFollowFields(parse, fields, shuffled);
    PathsFollowFields(parse, shuffled, fields);
    OrderDoesNotMatter(node, b, a);
    SublistAdds(node, a, a);
  }

  lemma PathsFollowFields(parse: string -> Option<int>, fields: seq<string>, others: seq<string>)
    requires multiset(fields) == multiset(others)
    ensures forall p :: p in PathsOf(parse, fields) ==> p in PathsOf(parse, others)
  {
    forall p | p in PathsOf(parse, fields) ensures p in PathsOf(parse, others) {
      var i :| 0 <= i < |fields| && PathOf(parse, fields[i]) == p;
      assert fields[i] in multiset(fields);
      assert fields[i] in others;
      var j :| 0 <= j < |others| && others[j] == fields[i];
      assert PathsOf(parse, others)[j] == p;
    }
  }

  // ---------------------------------------------------------------- which locations a field can name

  function Join(words: seq<string>): string
    requires words != []
  {
    if |words| == 1 then words[0] else words[0] + "." + Join(words[1..])
  }

  lemma {:induction false} SplitHasNoDots(text: string)
    ensures forall w :: w in Split(text) ==> '.' !in w
    ensures Join(Split(text)) == text
  {
    if text != "" {
      SplitHasNoDots(text[1..]);
      var rest := Split(text[1..]);
      if text[0] == '.' {
        assert ([""] + rest)[1..] == rest;
      } else {
        assert ([[text[0]] + rest[0]] + rest[1..])[1..] == rest[1..];
      }
    }
  }

  lemma {:induction false} SplitJoin(words: seq<string>)
    requires words != [] && forall w :: w in words ==> '.' !in w
    ensures Split(Join(words)) == words
    decreases |words|, |words[0]|
  {
    var w, text := words[0], Join(words);
    if w != "" {
      var shorter := [w[1..]] + words[1..];
      assert forall c :: c in w[1..] ==> c in w;
      SplitJoin(shorter);
      assert text[1..] == Join(shorter);
      assert [text[0]] + w[1..] == w;
      assert text[0] in w;
    } else if |words| > 1 {
      SplitJoin(words[1..]);
      assert text[1..] == Join(words[1..]);
    } else {
      assert words == [""];
    }
  }

  /** A part some dotless word stands for. */
  ghost predicate Spelled(parse: string -> Option<int>, part: Part) {
    exists w: string :: '.' !in w && PartOf(parse, w) == part
  }

  /** A field can name a location if and only if every step is spelled by a dotless word: a dict key that reads as
      a number, or that holds a dot, is out of reach. */
  lemma NameableExactly(parse: string -> Option<int>, q: Path)
    ensures (exists field :: PathOf(parse, field) == q) <==> q != [] && forall part :: part in q ==>
        Spelled(parse, part)
    ensures forall k :: Spelled(parse, Name(k)) <==> '.' !in k && parse(k) == None
  {
    if field :| PathOf(parse, field) == q {
      SplitHasNoDots(field);
      forall part | part in q ensures Spelled(parse, part) {
        var i :| 0 <= i < |q| && q[i] == part;
        assert Split(field)[i] in Split(field);
      }
    }
    if q != [] && forall part :: part in q ==> Spelled(parse, part) {
      var field := Spell(parse, q);
      assert PathOf(parse, field) == q;
    }
    forall k ensures Spelled(parse, Name(k)) <==> '.' !in k && parse(k) == None {
      if '.' !in k && parse(k) == None {
        assert PartOf(parse, k) == Name(k);
      }
    }
  }

  lemma Spell(parse: string -> Option<int>, q: Path) returns (field: string)
    requires q != [] && forall part :: part in q ==> Spelled(parse, part)
    ensures PathOf(parse, field) == q
  {
    var words := SpellWords(parse, q);
    SplitJoin(words);
    field := Join(words);
  }

  lemma {:induction false} SpellWords(parse: string -> Option<int>, q: Path) returns (words: seq<string>)
    requires forall part :: part in q ==> Spelled(parse, part)
    ensures |words| == |q| && (forall w :: w in words ==> '.' !in w)
    ensures forall i :: 0 <= i < |q| ==> PartOf(parse, words[i]) == q[i]
  {
    words := [];
    if q != [] {
      assert q[0] in q;
      var w: string :| '.' !in w && PartOf(parse, w) == q[0];
      var rest := SpellWords(parse, q[1..]);
      words := [w] + rest;
    }
  }

  /** A numeric key out of reach: field `0` leaves the payload `{"0": v}` as it is. */
  lemma NumericKeyEscapes(parse: string -> Option<int>, v: Json)
    requires parse("0") == Some(0)
    ensures var payload := Obj([Name("0")], map[Name("0") := v]);
            RedactAll(payload, PathsOf(parse, ["0"])) == payload
  {
    var payload := Obj([Name("0")], map[Name("0") := v]);
    SplitJoin(["0"]);
    assert PathOf(parse, "0") == [Index(0)];
    assert PathsOf(parse, ["0"]) == [[Index(0)]];
    assert [[Index(0)]][..0] == [];
    assert !Has(payload, Index(0));
  }

  /** A tuple is out of reach as well: field `a.0` leaves the payload `{"a": (v,)}` as it is. */
  lemma TupleEscapes(parse: string -> Option<int>, v: Json)
    requires parse("a") == None && parse("0") == Some(0)
    ensures var payload := Obj([Name("a")], map[Name("a") := Tup([v])]);
            RedactAll(payload, PathsOf(parse, ["a.0"])) == payload
  {
    var payload := Obj([Name("a")], map[Name("a") := Tup([v])]);
    SplitJoin(["a", "0"]);
    assert Join(["a", "0"]) == "a.0" by {
      assert ["a", "0"][1..] == ["0"];
    }
    assert PathOf(parse, "a.0") == [Name("a"), Index(0)];
    assert PathsOf(parse, ["a.0"]) == [[Name("a"), Index(0)]];
    assert [[Name("a"), Index(0)]][..0] == [];
    assert [Name("a"), Index(0)][1..] == [Index(0)];
    assert Reach(payload, [Name("a"), Index(0)]) == Reach(Tup([v]), [Index(0)]);
    UnresolvedIsNoOp(payload, [Name("a"), Index(0)]);
  }
}
