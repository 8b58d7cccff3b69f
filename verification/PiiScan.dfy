/** `_scan_string`, `_walk` and `find_pii_in_metadata`: every match of every string leaf, with its path. */
module PiiScan {
  import opened Options
  import opened Json

  datatype Span = Span(start: nat, end: nat)
  datatype Finding = Finding(path: Path, pattern: string, matched: string, span: Span, full: string)

  /** `finditer` of the named pattern over a text. */
  type Matcher = (string, string) -> seq<Span>

  const PATTERNS: seq<string> := ["email", "name"]

  /** Matches are non-empty slices of the text, left to right, never overlapping. */
  ghost predicate IsFinder(m: Matcher) {
    forall pattern, text ::
      var spans := m(pattern, text);
      && (forall i :: 0 <= i < |spans| ==> spans[i].start < spans[i].end <= |text|)
      && (forall i, j :: 0 <= i < j < |spans| ==> spans[i].end <= spans[j].start)
  }

  // ---------------------------------------------------------------- the code

  function MatchesOf(path: Path, pattern: string, full: string, spans: seq<Span>): seq<Finding> {
    if spans == [] then []
    else
      var s := spans[0];
      [Finding(path, pattern, if s.start <= s.end <= |full| then full[s.start..s.end] else "", s, full)]
      + MatchesOf(path, pattern, full, spans[1..])
  }

  function ScanString(m: Matcher, path: Path, full: string): seq<Finding> {
    MatchesOf(path, PATTERNS[0], full, m(PATTERNS[0], full)) + MatchesOf(path, PATTERNS[1], full, m(PATTERNS[1], full))
  }

  function Walk(m: Matcher, path: Path, value: Json): seq<Finding>
    decreases value, 1, 0
  {
    match value
    case Str(text) => ScanString(m, path, text)
    case Obj(order, _) => WalkFields(m, path, value, order)
    case Arr(_) => WalkItems(m, path, value, 0)
    case Tup(_) => WalkItems(m, path, value, 0)
    case Other(_) => []
  }

  function WalkFields(m: Matcher, path: Path, node: Json, keys: seq<Part>): seq<Finding>
    decreases node, 0, |keys|
  {
    if keys == [] then []
    else
      (if Has(node, keys[0]) then Walk(m, path + [keys[0]], At(node, keys[0])) else [])
      + WalkFields(m, path, node, keys[1..])
  }

  function WalkItems(m: Matcher, path: Path, node: Json, i: nat): seq<Finding>
    requires Listed(node) && i <= |node.items|
    decreases node, 0, |node.items| - i
  {
    if i == |node.items| then [] else Walk(m, path + [Index(i)], At(node, Index(i))) + WalkItems(m, path, node, i + 1)
  }

  predicate Skipped(key: Part, skip: set<string>) {
    key.Name? && key.s in skip
  }

  function Unskipped(keys: seq<Part>, skip: set<string>): seq<Part> {
    if keys == [] then []
    else (if Skipped(keys[0], skip) then [] else [keys[0]]) + Unskipped(keys[1..], skip)
  }

  /** The findings of a metadata dict, outside the skipped top-level keys. */
  function FindAll(m: Matcher, metadata: Json, skip: set<string>): seq<Finding>
    requires metadata.Obj?
  {
    WalkFields(m, [], metadata, Unskipped(metadata.order, skip))
  }

  // ---------------------------------------------------------------- the walker

  /** Every child is there for the walk. */
  ghost predicate ProperKey(node: Json, p: Part) {
    Has(node, p) && Proper(At(node, p))
  }

  lemma ProperKeys(node: Json)
    requires Proper(node)
    ensures node.Obj? ==> forall k :: k in node.order ==> ProperKey(node, k)
    ensures Listed(node) ==> forall i :: 0 <= i < |node.items| ==> ProperKey(node, Index(i))
  {
  }

  method WalkInto(m: Matcher, path: Path, value: Json, found: seq<Finding>) returns (out: seq<Finding>)
    requires Proper(value)
    ensures out == found + Walk(m, path, value)
    decreases value, 1
  {
    ProperKeys(value);
    match value
    case Str(text) => out := found + ScanString(m, path, text);
    case Obj(order, _) => out := WalkFieldsInto(m, path, value, order, found);
    case Arr(_) => out := WalkItemsInto(m, path, value, found);
    case Tup(_) => out := WalkItemsInto(m, path, value, found);
    case Other(_) => out := found;
  }

  method WalkFieldsInto(m: Matcher, path: Path, node: Json, keys: seq<Part>, found: seq<Finding>)
    returns (out: seq<Finding>)
    requires forall k :: k in keys ==> ProperKey(node, k)
    ensures out == found + WalkFields(m, path, node, keys)
    decreases node, 0
  {
    out := found;
    for i := 0 to |keys|
      invariant out == found + WalkFields(m, path, node, keys[..i])
    {
      assert ProperKey(node, keys[i]);
      WalkFieldsSnoc(m, path, node, keys[..i], keys[i]);
      assert keys[..i + 1] == keys[..i] + [keys[i]];
      out := WalkInto(m, path + [keys[i]], At(node, keys[i]), out);
    }
    assert keys[..|keys|] == keys;
  }

  method WalkItemsInto(m: Matcher, path: Path, node: Json, found: seq<Finding>) returns (out: seq<Finding>)
    requires Listed(node) && forall i :: 0 <= i < |node.items| ==> ProperKey(node, Index(i))
    ensures out == found + WalkItems(m, path, node, 0)
    decreases node, 0
  {
    out := found;
    for i := 0 to |node.items|
      invariant out + WalkItems(m, path, node, i) == found + WalkItems(m, path, node, 0)
    {
      assert ProperKey(node, Index(i));
      out := WalkInto(m, path + [Index(i)], At(node, Index(i)), out);
    }
  }

  /** One top-level key. */
  method WalkKey(m: Matcher, metadata: Json, k: Part, skip: set<string>, found: seq<Finding>)
    returns (out: seq<Finding>)
    requires ProperKey(metadata, k)
    ensures out == found + if Skipped(k, skip) then [] else Walk(m, [k], At(metadata, k))
  {
    if Skipped(k, skip) {
      return found;
    }
    out := WalkInto(m, [k], At(metadata, k), found);
  }

  lemma {:induction false} UnskippedSnoc(keys: seq<Part>, k: Part, skip: set<string>)
    ensures Unskipped(keys + [k], skip) == Unskipped(keys, skip) + if Skipped(k, skip) then [] else [k]
  {
    if keys == [] {
      assert keys + [k] == [k];
    } else {
      assert (keys + [k])[1..] == keys[1..] + [k] && (keys + [k])[0] == keys[0];
      UnskippedSnoc(keys[1..], k, skip);
      var head, last := if Skipped(keys[0], skip) then [] else [keys[0]], if Skipped(k, skip) then [] else [k];
      assert Unskipped(keys + [k], skip) == head + (Unskipped(keys[1..], skip) + last);
    }
  }

  lemma {:induction false} WalkFieldsSnoc(m: Matcher, path: Path, node: Json, keys: seq<Part>, k: Part)
    requires Has(node, k)
    ensures WalkFields(m, path, node, keys + [k]) == WalkFields(m, path, node, keys) + Walk(m, path + [k], At(node, k))
    decreases |keys|
  {
    if keys == [] {
      assert keys + [k] == [k];
    } else {
      assert (keys + [k])[1..] == keys[1..] + [k] && (keys + [k])[0] == keys[0];
      WalkFieldsSnoc(m, path, node, keys[1..], k);
      var head := if Has(node, keys[0]) then Walk(m, path + [keys[0]], At(node, keys[0])) else [];
      FindingsAssoc(head, WalkFields(m, path, node, keys[1..]), Walk(m, path + [k], At(node, k)));
    }
  }

  lemma FindingsAssoc(a: seq<Finding>, b: seq<Finding>, c: seq<Finding>)
    ensures a + (b + c) == (a + b) + c
  {
  }

  lemma KeySnoc(m: Matcher, metadata: Json, keys: seq<Part>, k: Part, skip: set<string>)
    requires Has(metadata, k)
    ensures WalkFields(m, [], metadata, Unskipped(keys + [k], skip))
         == WalkFields(m, [], metadata, Unskipped(keys, skip)) + if Skipped(k, skip) then []
             else Walk(m, [k], At(metadata, k))
  {
    UnskippedSnoc(keys, k, skip);
    if Skipped(k, skip) {
      assert Unskipped(keys + [k], skip) == Unskipped(keys, skip);
    } else {
      WalkFieldsSnoc(m, [], metadata, Unskipped(keys, skip), k);
      assert [] + [k] == [k];
    }
  }

  method FindPiiInMetadata(m: Matcher, metadata: Json, skip: set<string>) returns (out: seq<Finding>)
    requires metadata.Obj? && Proper(metadata)
    ensures out == FindAll(m, metadata, skip)
  {
    ProperKeys(metadata);
    out := WalkUnskipped(m, metadata, metadata.order, skip);
  }

  method WalkUnskipped(m: Matcher, metadata: Json, keys: seq<Part>, skip: set<string>) returns (out: seq<Finding>)
    requires forall k :: k in keys ==> ProperKey(metadata, k)
    ensures out == WalkFields(m, [], metadata, Unskipped(keys, skip))
  {
    out := [];
    for i := 0 to |keys|
      invariant out == WalkFields(m, [], metadata, Unskipped(keys[..i], skip))
    {
      assert ProperKey(metadata, keys[i]);
      out := WalkKey(m, metadata, keys[i], skip, out);
      assert keys[..i + 1] == keys[..i] + [keys[i]];
      KeySnoc(m, metadata, keys[..i], keys[i], skip);
    }
    assert keys[..|keys|] == keys;
  }

  // ---------------------------------------------------------------- what the walk finds

  /** The findings of one path, in order. */
  function GroupOf(findings: seq<Finding>, path: Path): seq<Finding> {
    if findings == [] then []
    else (if findings[0].path == path then [findings[0]] else []) + GroupOf(findings[1..], path)
  }

  /** What a complete scan of `value`, found at `path`, holds for location `q`. */
  function Expected(m: Matcher, path: Path, value: Json, q: Path): seq<Finding> {
    if path <= q && Lookup(value, q[|path|..]).Some? && Lookup(value, q[|path|..]).value.Str?
    then ScanString(m, q, Lookup(value, q[|path|..]).value.text)
    else []
  }

  lemma {:induction false} GroupConcat(a: seq<Finding>, b: seq<Finding>, q: Path)
    ensures GroupOf(a + b, q) == GroupOf(a, q) + GroupOf(b, q)
  {
    if a == [] {
      assert a + b == b;
    } else {
      assert (a + b)[1..] == a[1..] + b && (a + b)[0] == a[0];
      GroupConcat(a[1..], b, q);
      var head := if a[0].path == q then [a[0]] else [];
      assert GroupOf(a + b, q) == head + (GroupOf(a[1..], q) + GroupOf(b, q));
    }
  }

  lemma {:induction false} GroupOfMatches(path: Path, pattern: string, full: string, spans: seq<Span>, q: Path)
    ensures var all := MatchesOf(path, pattern, full, spans); GroupOf(all, q) == if path == q then all else []
  {
    if spans != [] {
      GroupOfMatches(path, pattern, full, spans[1..], q);
    }
  }

  lemma {:induction false} MatchesInOrder(path: Path, pattern: string, full: string, spans: seq<Span>)
    requires forall i :: 0 <= i < |spans| ==> spans[i].start <= spans[i].end <= |full|
    ensures var found := MatchesOf(path, pattern, full, spans);
            && |found| == |spans|
            && forall i :: 0 <= i < |spans| ==>
                 found[i] == Finding(path, pattern, full[spans[i].start..spans[i].end], spans[i], full)
  {
    if spans != [] {
      MatchesInOrder(path, pattern, full, spans[1..]);
    }
  }

  /** One string yields the matches of the e-mail pattern and then those of the name pattern, in order, each with the
      text that it matched. */
  lemma ScanStringExactly(m: Matcher, path: Path, full: string)
    requires IsFinder(m)
    ensures var emails, names, found := m("email", full), m("name", full), ScanString(m, path, full);
            && |found| == |emails| + |names|
            && (forall i :: 0 <= i < |emails| ==>
                 && emails[i].start < emails[i].end <= |full|
                 && found[i] == Finding(path, "email", full[emails[i].start..emails[i].end], emails[i], full))
            && (forall i :: 0 <= i < |names| ==>
                 && names[i].start < names[i].end <= |full|
                 && found[|emails| + i] == Finding(path, "name", full[names[i].start..names[i].end], names[i], full))
  {
    MatchesInOrder(path, "email", full, m("email", full));
    MatchesInOrder(path, "name", full, m("name", full));
  }

  /** One step down: a child holds the findings of the locations below it and no others. */
  lemma ExpectedStep(m: Matcher, path: Path, node: Json, p: Part, q: Path)
    requires Has(node, p)
    ensures Expected(m, path + [p], At(node, p), q) == if path < q && q[|path|] == p
        then Expected(m, path, node, q) else []
  {
    StepPrefix(path, p, q);
    if path < q && q[|path|] == p {
      assert Lookup(node, q[|path|..]) == Lookup(At(node, p), q[|path|..][1..]);
      assert q[|path|..][1..] == q[|path + [p]|..];
    }
  }

  lemma StepPrefix(path: Path, p: Part, q: Path)
    ensures path + [p] <= q <==> path < q && q[|path|] == p
  {
    if path < q && q[|path|] == p {
      assert q[..|path| + 1] == path + [p];
    }
  }

  /** The walk finds each match of each string leaf exactly as scanning that leaf does, and nothing else. */
  lemma {:induction false} WalkIsComplete(m: Matcher, path: Path, value: Json, q: Path)
    requires Proper(value)
    ensures GroupOf(Walk(m, path, value), q) == Expected(m, path, value, q)
    decreases value, 1, 0
  {
    match value
    case Str(text) =>
      GroupOfScan(m, path, text, q);
      assert path == q <==> path <= q && q[|path|..] == [];
    case Obj(order, fields) =>
      FieldsAreComplete(m, path, value, order, q);
    case Arr(_) =>
      ItemsAreComplete(m, path, value, 0, q);
    case Tup(_) =>
      ItemsAreComplete(m, path, value, 0, q);
    case Other(_) =>
  }

  lemma GroupOfScan(m: Matcher, path: Path, text: string, q: Path)
    ensures GroupOf(ScanString(m, path, text), q) == if path == q then ScanString(m, path, text) else []
  {
    var a, b := MatchesOf(path, PATTERNS[0], text, m(PATTERNS[0], text)),
        MatchesOf(path, PATTERNS[1], text, m(PATTERNS[1], text));
    GroupConcat(a, b, q);
    GroupOfMatches(path, PATTERNS[0], text, m(PATTERNS[0], text), q);
    GroupOfMatches(path, PATTERNS[1], text, m(PATTERNS[1], text), q);
  }

  lemma {:induction false} FieldsAreComplete(m: Matcher, path: Path, node: Json, keys: seq<Part>, q: Path)
    requires Proper(node) && node.Obj? && (forall k :: k in keys ==> k in node.fields)
    requires forall i, j :: 0 <= i < j < |keys| ==> keys[i] != keys[j]
    ensures GroupOf(WalkFields(m, path, node, keys), q)
         == if path < q && q[|path|] in keys then Expected(m, path, node, q) else []
    decreases node, 0, |keys|
  {
    if keys != [] {
      var p := keys[0];
      assert Has(node, p);
      WalkIsComplete(m, path + [p], At(node, p), q);
      ExpectedStep(m, path, node, p, q);
      FieldsAreComplete(m, path, node, keys[1..], q);
      GroupConcat(Walk(m, path + [p], At(node, p)), WalkFields(m, path, node, keys[1..]), q);
    }
  }

  lemma {:induction false} ItemsAreComplete(m: Matcher, path: Path, node: Json, i: nat, q: Path)
    requires Proper(node) && Listed(node) && i <= |node.items|
    ensures GroupOf(WalkItems(m, path, node, i), q)
         == if path < q && q[|path|].Index? && i <= q[|path|].i < |node.items| then Expected(m, path, node, q) else []
    decreases node, 0, |node.items| - i
  {
    if i < |node.items| {
      var p := Index(i);
      assert Has(node, p);
      WalkIsComplete(m, path + [p], At(node, p), q);
      ExpectedStep(m, path, node, p, q);
      ItemsAreComplete(m, path, node, i + 1, q);
      var first, rest := Walk(m, path + [p], At(node, p)), WalkItems(m, path, node, i + 1);
      GroupConcat(first, rest, q);
      assert WalkItems(m, path, node, i) == first + rest;
      assert path < q && q[|path|] == p ==> GroupOf(rest, q) == [];
      assert !(path < q && q[|path|] == p) ==> GroupOf(first, q) == [];
    }
  }

  lemma {:induction false} UnskippedFacts(keys: seq<Part>, skip: set<string>)
    requires forall i, j :: 0 <= i < j < |keys| ==> keys[i] != keys[j]
    ensures var kept := Unskipped(keys, skip);
            && (forall k :: k in kept <==> k in keys && !Skipped(k, skip))
            && (forall i, j :: 0 <= i < j < |kept| ==> kept[i] != kept[j])
  {
    if keys != [] {
      UnskippedFacts(keys[1..], skip);
    }
  }

  /** The location is a string that a scan looks at. */
  predicate Scanned(metadata: Json, skip: set<string>, q: Path) {
    && q != [] && !(q[0].Name? && q[0].s in skip)
    && Lookup(metadata, q).Some? && Lookup(metadata, q).value.Str?
  }

  /** A scan holds, for each location outside the skipped keys, exactly the matches of its string. */
  lemma ScanIsComplete(m: Matcher, metadata: Json, skip: set<string>, q: Path)
    requires metadata.Obj? && Proper(metadata)
    ensures GroupOf(FindAll(m, metadata, skip), q)
         == if Scanned(metadata, skip, q) then ScanString(m, q, Lookup(metadata, q).value.text) else []
  {
    UnskippedFacts(metadata.order, skip);
    FieldsAreComplete(m, [], metadata, Unskipped(metadata.order, skip), q);
    assert q[0..] == q;
  }
}
