/** `scrub_in_python`: replacing findings in a metadata tree. */
module PiiScrub {
  import opened Options
  import opened Json
  import opened PathOrder
  import opened Sorting
  import opened PiiScan
  import opened PathAssign
  import opened PiiSplice

  // ---------------------------------------------------------------- the code

  /** Sort key `(path, span)`. */
  predicate KeyLeq(a: Finding, b: Finding) {
    if a.path == b.path then SpanLeq(a.span, b.span) else PathLeq(a.path, b.path)
  }

  /** How many findings at the front share the first one's path. */
  function FirstRun(sorted: seq<Finding>): (n: nat)
    ensures n <= |sorted| && (sorted != [] ==> n > 0)
    ensures forall k :: 0 <= k < n ==> sorted[k].path == sorted[0].path
    ensures n < |sorted| ==> sorted[n].path != sorted[0].path
  {
    if |sorted| <= 1 then |sorted|
    else if sorted[1].path != sorted[0].path then 1
    else 1 + FirstRun(sorted[1..])
  }

  /** The groups of a sorted list in turn; None is an exception. */
  function ScrubGroups(node: Json, sorted: seq<Finding>): Option<Json>
    decreases |sorted|
  {
    if sorted == [] then Some(node)
    else
      var n := FirstRun(sorted);
      var outcome := SetAtPath(node, sorted[0].path, Str(GroupText(sorted[..n])));
      if outcome.Raised? then None else ScrubGroups(outcome.tree, sorted[n..])
  }

  /** What the callers hand in: findings of a scan of this metadata, all or some, in any order. */
  ghost predicate FromScan(metadata: Json, findings: seq<Finding>) {
    forall f :: f in findings ==>
        f.path != [] && f.span.start < f.span.end <= |f.full| && Lookup(metadata, f.path) == Some(Str(f.full))
  }

  // ---------------------------------------------------------------- the tree

  /** Replacing a string by a string changes that location and nothing else. */
  lemma LeafReplace(node: Json, a: Path, v: string, q: Path)
    requires Lookup(node, a).Some? && Lookup(node, a).value.Str?
    ensures Lookup(ReplaceAt(node, a, Str(v)), a) == Some(Str(v))
    ensures q != a ==> Kept(Lookup(node, q), Lookup(ReplaceAt(node, a, Str(v)), q))
  {
    LookupReplace(node, a, Str(v), a);
    LookupReplace(node, a, Str(v), q);
    if a < q {
      LookupConcat(node, a, q[|a|..]);
      assert q == a + q[|a|..];
    }
  }

  /** The tree once the findings of the paths in `done` are replaced. */
  ghost predicate Replaced(metadata: Json, findings: seq<Finding>, done: set<Path>, out: Json) {
    forall q :: ReplacedAt(metadata, findings, done, out, q)
  }

  ghost predicate ReplacedAt(metadata: Json, findings: seq<Finding>, done: set<Path>, out: Json, q: Path) {
    if q in done && GroupOf(findings, q) != [] then Lookup(out, q) == Some(Str(GroupText(GroupOf(findings, q))))
    else Kept(Lookup(metadata, q), Lookup(out, q))
  }

  lemma {:induction false} GroupFacts(findings: seq<Finding>, q: Path)
    ensures forall f :: f in GroupOf(findings, q) <==> f in findings && f.path == q
    ensures GroupOf(findings, q) == [] <==> forall f :: f in findings ==> f.path != q
    ensures (forall f :: f in findings ==> f.path == q) ==> GroupOf(findings, q) == findings
  {
    if findings != [] {
      GroupFacts(findings[1..], q);
      assert findings == [findings[0]] + findings[1..];
    }
  }

  lemma ReplaceOne(metadata: Json, findings: seq<Finding>, done: set<Path>, out: Json, p: Path)
    requires FromScan(metadata, findings) && Replaced(metadata, findings, done, out)
    requires p !in done && GroupOf(findings, p) != []
    ensures Lookup(out, p).Some? && p != []
    ensures Replaced(metadata, findings, done + {p}, ReplaceAt(out, p, Str(GroupText(GroupOf(findings, p)))))
  {
    FoundIsString(metadata, findings, done, out, p);
    var v := GroupText(GroupOf(findings, p));
    forall q ensures ReplacedAt(metadata, findings, done + {p}, ReplaceAt(out, p, Str(v)), q) {
      assert ReplacedAt(metadata, findings, done, out, q);
      LeafReplace(out, p, v, q);
    }
  }

  /** What was found and not yet replaced is a string in both trees. */
  lemma FoundIsString(metadata: Json, findings: seq<Finding>, done: set<Path>, out: Json, p: Path)
    requires FromScan(metadata, findings) && Replaced(metadata, findings, done, out)
    requires p !in done && GroupOf(findings, p) != []
    ensures p != [] && Lookup(metadata, p).Some? && Lookup(metadata, p).value.Str?
    ensures Lookup(out, p) == Lookup(metadata, p)
  {
    var g := GroupOf(findings, p);
    GroupFacts(findings, p);
    assert g[0] in g;
    assert ReplacedAt(metadata, findings, done, out, p);
  }

  // ---------------------------------------------------------------- grouping by sorting

  lemma KeyOrder()
    ensures TotalOrder(KeyLeq)
  {
    forall a, b ensures KeyLeq(a, b) || KeyLeq(b, a) {
      PathOrdered(a.path, b.path, a.path);
    }
    forall a, b, c | KeyLeq(a, b) && KeyLeq(b, c) ensures KeyLeq(a, c) {
      PathOrdered(a.path, b.path, c.path);
      PathOrdered(b.path, a.path, c.path);
      PathOrdered(c.path, b.path, a.path);
    }
  }

  /** In a sorted list, a maximal stretch of one path holds all findings of that path. */
  lemma StretchIsAll(sorted: seq<Finding>, i: nat, j: nat)
    requires Sorted(KeyLeq, sorted) && Stretch(sorted, i, j)
    ensures forall f :: f in sorted[..i] || f in sorted[j..] ==> f.path != sorted[i].path
  {
    var p := sorted[i].path;
    forall k | 0 <= k < i ensures sorted[k].path != p {
      assert KeyLeq(sorted[i - 1], sorted[i]);
      assert k < i - 1 ==> KeyLeq(sorted[k], sorted[i - 1]);
      PathOrdered(sorted[i - 1].path, p, p);
    }
    forall k | j <= k < |sorted| ensures sorted[k].path != p {
      assert KeyLeq(sorted[i], sorted[j]);
      assert k > j ==> KeyLeq(sorted[j], sorted[k]);
      PathOrdered(p, sorted[j].path, p);
    }
  }

  /** A maximal stretch of one path, as `groupby` cuts it. */
  predicate Stretch(sorted: seq<Finding>, i: nat, j: nat) {
    && i < j <= |sorted|
    && (forall k :: i <= k < j ==> sorted[k].path == sorted[i].path)
    && (i > 0 ==> sorted[i - 1].path != sorted[i].path)
    && (j < |sorted| ==> sorted[j].path != sorted[i].path)
  }

  lemma MiddleIsGroup(a: seq<Finding>, b: seq<Finding>, c: seq<Finding>, p: Path)
    requires (forall f :: f in b ==> f.path == p) && (forall f :: f in a || f in c ==> f.path != p)
    ensures GroupOf(a + (b + c), p) == b
  {
    GroupConcat(a, b + c, p);
    GroupConcat(b, c, p);
    GroupFacts(a, p);
    GroupFacts(b, p);
    GroupFacts(c, p);
  }

  lemma StretchIsGroup(sorted: seq<Finding>, i: nat, j: nat)
    requires Sorted(KeyLeq, sorted) && Stretch(sorted, i, j)
    ensures GroupOf(sorted, sorted[i].path) == sorted[i..j]
    ensures sorted[i].path !in PathsIn(sorted[..i]) && PathsIn(sorted[..j]) == PathsIn(sorted[..i]) + {sorted[i].path}
  {
    StretchIsAll(sorted, i, j);
    StretchCut(sorted, i, j);
  }

  lemma StretchCut(sorted: seq<Finding>, i: nat, j: nat)
    requires Stretch(sorted, i, j) && forall f :: f in sorted[..i] || f in sorted[j..] ==> f.path != sorted[i].path
    ensures GroupOf(sorted, sorted[i].path) == sorted[i..j]
    ensures sorted[i].path !in PathsIn(sorted[..i]) && PathsIn(sorted[..j]) == PathsIn(sorted[..i]) + {sorted[i].path}
  {
    assert sorted == sorted[..i] + sorted[i..j] + sorted[j..] && sorted[..j] == sorted[..i] + sorted[i..j];
    CutOut(sorted, sorted[..i], sorted[i..j], sorted[j..], sorted[i].path);
  }

  lemma CutOut(all: seq<Finding>, a: seq<Finding>, b: seq<Finding>, c: seq<Finding>, p: Path)
    requires all == a + b + c && b != [] && (forall f :: f in b ==> f.path == p)
    requires (forall f :: f in a || f in c ==> f.path != p)
    ensures GroupOf(all, p) == b && p !in PathsIn(a) && PathsIn(a + b) == PathsIn(a) + {p}
  {
    assert a + b + c == a + (b + c);
    MiddleIsGroup(a, b, c, p);
    PathsConcat(a, b);
    OnePath(b, p);
  }

  lemma OnePath(b: seq<Finding>, p: Path)
    requires b != [] && forall f :: f in b ==> f.path == p
    ensures PathsIn(b) == {p}
  {
    assert b[0] in b;
  }

  function PathsIn(fs: seq<Finding>): set<Path> {
    set f | f in fs :: f.path
  }

  lemma PathsConcat(a: seq<Finding>, b: seq<Finding>)
    ensures PathsIn(a + b) == PathsIn(a) + PathsIn(b)
  {
    forall p | p in PathsIn(a) + PathsIn(b) ensures p in PathsIn(a + b) {
      var f :| (f in a || f in b) && f.path == p;
      assert f in a + b;
    }
  }

  // ---------------------------------------------------------------- the whole scrub

  /** `ms` is the findings of `q` arranged left to right; there is one just when they do not overlap. */
  ghost predicate Arranges(findings: seq<Finding>, q: Path, text: string, ms: seq<Finding>) {
    multiset(ms) == multiset(GroupOf(findings, q)) && InOrder(0, |text|, ms)
  }

  /** Location `q` afterwards: untouched when nothing was found there; otherwise still a string, its text with the
      spans overlaid, which is all of them replaced at once whenever they do not overlap. */
  ghost predicate Scrubbed(metadata: Json, findings: seq<Finding>, q: Path, now: Option<Json>) {
    if forall f :: f in findings ==> f.path != q then Kept(Lookup(metadata, q), now)
    else
      && Lookup(metadata, q).Some? && Lookup(metadata, q).value.Str?
      && var text := Lookup(metadata, q).value.text;
      && now == Some(Str(Overlaid(text, 0, ByAscendingStart(GroupOf(SortBy(KeyLeq, findings), q)))))
      && forall ms :: Arranges(findings, q, text, ms) ==> now == Some(Str(Substitute(text, 0, ms)))
  }

  lemma {:induction false} GroupCounts(findings: seq<Finding>, q: Path, f: Finding)
    ensures multiset(GroupOf(findings, q))[f] == if f.path == q then multiset(findings)[f] else 0
  {
    if findings != [] {
      assert findings == [findings[0]] + findings[1..];
      GroupCounts(findings[1..], q, f);
    }
  }

  lemma GroupPermutes(findings: seq<Finding>, sorted: seq<Finding>, q: Path)
    requires multiset(sorted) == multiset(findings)
    ensures multiset(GroupOf(sorted, q)) == multiset(GroupOf(findings, q))
  {
    forall f ensures multiset(GroupOf(sorted, q))[f] == multiset(GroupOf(findings, q))[f] {
      GroupCounts(sorted, q, f);
      GroupCounts(findings, q, f);
    }
  }

  /** The group of a path, whatever its arrangement. */
  lemma GroupIsSubstituted(findings: seq<Finding>, g: seq<Finding>, q: Path, text: string)
    requires multiset(g) == multiset(GroupOf(findings, q)) && g != [] && g[0].full == text
    ensures forall ms :: Arranges(findings, q, text, ms) ==> GroupText(g) == Substitute(text, 0, ms)
  {
    forall ms | Arranges(findings, q, text, ms) ensures GroupText(g) == Substitute(text, 0, ms) {
      GroupTextIsSubstitute(g, ms);
    }
  }

  lemma GroupSpansFit(metadata: Json, sorted: seq<Finding>, q: Path)
    requires FromScan(metadata, sorted) && GroupOf(sorted, q) != []
    ensures var g := GroupOf(sorted, q);
            && Lookup(metadata, q) == Some(Str(g[0].full)) && g[0] in sorted
            && forall f :: f in g ==> f.span.start <= |g[0].full|
  {
    var g := GroupOf(sorted, q);
    GroupFacts(sorted, q);
    assert g[0] in g;
    forall f | f in g ensures f.full == g[0].full {
      assert f in sorted && g[0] in sorted;
    }
  }

  /** Sorting first changes neither which findings a path has nor, therefore, the outcome. */
  lemma ReplacedIsScrubbed(metadata: Json, findings: seq<Finding>, out: Json, q: Path)
    requires FromScan(metadata, findings) && FromScan(metadata, SortBy(KeyLeq, findings))
    requires multiset(SortBy(KeyLeq, findings)) == multiset(findings)
    requires ReplacedAt(metadata, SortBy(KeyLeq, findings), PathsIn(SortBy(KeyLeq, findings)), out, q)
    ensures Scrubbed(metadata, findings, q, Lookup(out, q))
  {
    var sorted := SortBy(KeyLeq, findings);
    var g := GroupOf(sorted, q);
    SameMembers(sorted, findings);
    GroupFacts(sorted, q);
    if g != [] {
      GroupSpansFit(metadata, sorted, q);
      assert g[0] in g && q in PathsIn(sorted);
      GroupPermutes(findings, sorted, q);
      GroupIsSubstituted(findings, g, q, g[0].full);
      GroupTextIsOverlaid(g);
    }
  }

  /** The groups before `i` are replaced, and `i` starts a group. */
  ghost predicate AtGroup(metadata: Json, sorted: seq<Finding>, i: nat, out: Json) {
    && i <= |sorted| && (0 < i < |sorted| ==> sorted[i - 1].path != sorted[i].path)
    && Replaced(metadata, sorted, PathsIn(sorted[..i]), out)
  }

  /** The string lies directly in a tuple, which takes no assignment. */
  predicate InTuple(metadata: Json, path: Path) {
    path != [] && TupleAt(metadata, path[..|path| - 1])
  }

  /** The container of a found string is still what it was. */
  lemma ParentIsKept(metadata: Json, findings: seq<Finding>, done: set<Path>, out: Json, p: Path)
    requires FromScan(metadata, findings) && Replaced(metadata, findings, done, out)
    requires p != [] && Lookup(metadata, p).Some?
    ensures var init := p[..|p| - 1];
            Lookup(metadata, init).Some? && Kept(Lookup(metadata, init), Lookup(out, init))
  {
    var init, last := p[..|p| - 1], p[|p| - 1];
    assert p == init + [last];
    LookupConcat(metadata, init, [last]);
    assert ReplacedAt(metadata, findings, done, out, init);
    GroupFacts(findings, init);
    assert forall f :: f in findings ==> f.path != init;
  }

  lemma ReplaceGroup(metadata: Json, sorted: seq<Finding>, i: nat, j: nat, out: Json)
    requires FromScan(metadata, sorted) && Sorted(KeyLeq, sorted)
    requires AtGroup(metadata, sorted, i, out) && Stretch(sorted, i, j)
    ensures var outcome := SetAtPath(out, sorted[i].path, Str(GroupText(sorted[i..j])));
            if InTuple(metadata, sorted[i].path) then outcome.Raised?
            else outcome.Stored? && AtGroup(metadata, sorted, j, outcome.tree)
  {
    var p, v := sorted[i].path, Str(GroupText(sorted[i..j]));
    assert sorted[i] in sorted;
    StretchIsGroup(sorted, i, j);
    ReplaceOne(metadata, sorted, PathsIn(sorted[..i]), out, p);
    ParentIsKept(metadata, sorted, PathsIn(sorted[..i]), out, p);
    AssignAtResolved(out, p, v);
  }

  /** Assigning at a path that resolves raises iff its container is a tuple, and otherwise replaces. */
  lemma AssignAtResolved(node: Json, p: Path, v: Json)
    requires p != [] && Lookup(node, p).Some?
    ensures SetAtPath(node, p, v) == if InTuple(node, p) then Raised else Stored(ReplaceAt(node, p, v))
  {
    var init, last := p[..|p| - 1], p[|p| - 1];
    assert p == init + [last];
    LookupConcat(node, init, [last]);
    ResolvedPathIsCanonical(node, p);
    ResolvedPathIsCanonical(node, init);
    OutcomeExactly(node, p, v);
    if !InTuple(node, p) {
      StoredReplaces(node, p, v);
    }
  }

  /** The end of the group that starts at `i`. */
  method GroupEnd(sorted: seq<Finding>, i: nat) returns (j: nat)
    requires i < |sorted|
    ensures j == i + FirstRun(sorted[i..])
  {
    j := i + 1;
    while j < |sorted| && sorted[j].path == sorted[i].path
      invariant i < j <= |sorted|
      invariant forall k :: i <= k < j ==> sorted[k].path == sorted[i].path
    {
      j := j + 1;
    }
    RunIsExact(sorted[i..], j - i);
  }

  lemma {:induction false} RunIsExact(sorted: seq<Finding>, n: nat)
    requires 0 < n <= |sorted| && (forall k :: 0 <= k < n ==> sorted[k].path == sorted[0].path)
    requires n < |sorted| ==> sorted[n].path != sorted[0].path
    ensures FirstRun(sorted) == n
    decreases n
  {
    if n > 1 {
      assert sorted[1].path == sorted[0].path;
      RunIsExact(sorted[1..], n - 1);
    }
  }

  ghost predicate NoneInTuple(metadata: Json, findings: seq<Finding>) {
    forall f :: f in findings ==> !InTuple(metadata, f.path)
  }

  /** What the loop over the groups keeps. */
  ghost predicate Scrubbing(metadata: Json, findings: seq<Finding>, i: nat, tree: Json) {
    var sorted := SortBy(KeyLeq, findings);
    && i <= |sorted|
    && ScrubGroups(tree, sorted[i..]) == ScrubGroups(metadata, sorted)
    && (FromScan(metadata, findings) ==> AtGroup(metadata, sorted, i, tree) && NoneInTuple(metadata, sorted[..i]))
  }

  lemma StartScrub(metadata: Json, findings: seq<Finding>)
    ensures Scrubbing(metadata, findings, 0, metadata)
  {
    var sorted := SortBy(KeyLeq, findings);
    assert sorted[0..] == sorted;
    if FromScan(metadata, findings) {
      SortedFindings(metadata, findings);
      NothingReplaced(metadata, sorted);
    }
  }

  lemma ScrubTurn(metadata: Json, findings: seq<Finding>, i: nat, j: nat, tree: Json)
    requires Scrubbing(metadata, findings, i, tree) && i < |SortBy(KeyLeq, findings)|
    requires j == i + FirstRun(SortBy(KeyLeq, findings)[i..])
    ensures var sorted := SortBy(KeyLeq, findings);
            var outcome := SetAtPath(tree, sorted[i].path, Str(GroupText(sorted[i..j])));
            if outcome.Raised?
            then ScrubGroups(metadata, sorted) == None
              && (FromScan(metadata, findings) ==> !NoneInTuple(metadata, findings))
            else Scrubbing(metadata, findings, j, outcome.tree)
  {
    var sorted := SortBy(KeyLeq, findings);
    GroupsUnfold(tree, sorted, i, j);
    if FromScan(metadata, findings) {
      ScanTurn(metadata, findings, i, j, tree);
    }
  }

  /** One turn on the findings of a scan. */
  lemma ScanTurn(metadata: Json, findings: seq<Finding>, i: nat, j: nat, tree: Json)
    requires FromScan(metadata, findings) && i < |SortBy(KeyLeq, findings)|
    requires AtGroup(metadata, SortBy(KeyLeq, findings), i, tree)
    requires NoneInTuple(metadata, SortBy(KeyLeq, findings)[..i])
    requires j == i + FirstRun(SortBy(KeyLeq, findings)[i..])
    ensures var sorted := SortBy(KeyLeq, findings);
            var outcome := SetAtPath(tree, sorted[i].path, Str(GroupText(sorted[i..j])));
            if outcome.Raised? then !NoneInTuple(metadata, findings)
            else AtGroup(metadata, sorted, j, outcome.tree) && NoneInTuple(metadata, sorted[..j])
  {
    var sorted := SortBy(KeyLeq, findings);
    SortedFindings(metadata, findings);
    RunIsStretch(sorted, i, j);
    ReplaceGroup(metadata, sorted, i, j, tree);
    if InTuple(metadata, sorted[i].path) {
      SameMembers(sorted, findings);
      assert sorted[i] in sorted;
    } else {
      GroupSharesTuple(metadata, sorted, i, j);
    }
  }

  lemma GroupSharesTuple(metadata: Json, sorted: seq<Finding>, i: nat, j: nat)
    requires Stretch(sorted, i, j) && NoneInTuple(metadata, sorted[..i]) && !InTuple(metadata, sorted[i].path)
    ensures NoneInTuple(metadata, sorted[..j])
  {
    forall f | f in sorted[..j] ensures !InTuple(metadata, f.path) {
      var k :| 0 <= k < j && sorted[k] == f;
      assert k < i ==> sorted[..i][k] == f;
    }
  }

  lemma GroupsUnfold(tree: Json, sorted: seq<Finding>, i: nat, j: nat)
    requires i < |sorted| && j == i + FirstRun(sorted[i..])
    ensures var outcome := SetAtPath(tree, sorted[i].path, Str(GroupText(sorted[i..j])));
            ScrubGroups(tree, sorted[i..]) == if outcome.Raised? then None else ScrubGroups(outcome.tree, sorted[j..])
  {
    assert sorted[i..][..j - i] == sorted[i..j] && sorted[i..][j - i..] == sorted[j..] && sorted[i..][0] == sorted[i];
  }

  lemma EndScrub(metadata: Json, findings: seq<Finding>, tree: Json)
    requires Scrubbing(metadata, findings, |SortBy(KeyLeq, findings)|, tree)
    ensures ScrubGroups(metadata, SortBy(KeyLeq, findings)) == Some(tree)
    ensures FromScan(metadata, findings) ==>
              NoneInTuple(metadata, findings) && forall q :: Scrubbed(metadata, findings, q, Lookup(tree, q))
  {
    var sorted := SortBy(KeyLeq, findings);
    assert sorted[..|sorted|] == sorted;
    if FromScan(metadata, findings) {
      SortedFindings(metadata, findings);
      SameMembers(sorted, findings);
      AllGroupsReplaced(metadata, findings, tree);
    }
  }

  /** Whatever the findings, as long as their paths can be sorted, the groups are assigned in order and the first
      exception ends it; for findings of a scan it raises iff some found string lies directly in a tuple, and
      otherwise every location is scrubbed. */
  method ScrubInPython(metadata: Json, findings: seq<Finding>) returns (out: Option<Json>)
    requires forall f, g :: f in findings && g in findings ==> !Incomparable(f.path, g.path)
    ensures out == ScrubGroups(metadata, SortBy(KeyLeq, findings))
    ensures FromScan(metadata, findings) ==> (out.Some? <==> NoneInTuple(metadata, findings))
    ensures FromScan(metadata, findings) && out.Some? ==>
              forall q :: Scrubbed(metadata, findings, q, Lookup(out.value, q))
  {
    var sorted, tree, i := SortBy(KeyLeq, findings), metadata, 0;
    StartScrub(metadata, findings);
    while i < |sorted|
      invariant Scrubbing(metadata, findings, i, tree)
    {
      var j := GroupEnd(sorted, i);
      ScrubTurn(metadata, findings, i, j, tree);
      var outcome := SetAtPath(tree, sorted[i].path, Str(GroupText(sorted[i..j])));
      if outcome.Raised? {
        return None;
      }
      tree, i := outcome.tree, j;
    }
    EndScrub(metadata, findings, tree);
    return Some(tree);
  }

  lemma RunIsStretch(sorted: seq<Finding>, i: nat, j: nat)
    requires i < |sorted| && j == i + FirstRun(sorted[i..]) && (i > 0 ==> sorted[i - 1].path != sorted[i].path)
    ensures Stretch(sorted, i, j)
  {
    forall k | i <= k < j ensures sorted[k].path == sorted[i].path {
      assert sorted[i..][k - i] == sorted[k];
    }
  }

  lemma SortedFindings(metadata: Json, findings: seq<Finding>)
    requires FromScan(metadata, findings)
    ensures var sorted := SortBy(KeyLeq, findings);
            multiset(sorted) == multiset(findings) && Sorted(KeyLeq, sorted) && FromScan(metadata, sorted)
  {
    KeyOrder();
    SortFacts(KeyLeq, findings);
    SameMembers(SortBy(KeyLeq, findings), findings);
  }

  lemma NothingReplaced(metadata: Json, sorted: seq<Finding>)
    ensures AtGroup(metadata, sorted, 0, metadata)
  {
    assert sorted[..0] == [];
    forall q ensures ReplacedAt(metadata, sorted, PathsIn(sorted[..0]), metadata, q) {
    }
  }

  lemma AllGroupsReplaced(metadata: Json, findings: seq<Finding>, out: Json)
    requires FromScan(metadata, findings)
    requires var sorted := SortBy(KeyLeq, findings); AtGroup(metadata, sorted, |sorted|, out)
    ensures forall q :: Scrubbed(metadata, findings, q, Lookup(out, q))
  {
    var sorted := SortBy(KeyLeq, findings);
    SortedFindings(metadata, findings);
    assert sorted[..|sorted|] == sorted;
    forall q ensures Scrubbed(metadata, findings, q, Lookup(out, q)) {
      assert ReplacedAt(metadata, sorted, PathsIn(sorted), out, q);
      ReplacedIsScrubbed(metadata, findings, out, q);
    }
  }

  // ---------------------------------------------------------------- when the findings can be arranged

  predicate Disjoint(a: Span, b: Span) {
    a.end <= b.start || b.end <= a.start
  }

  /** No finding twice and no two that overlap. */
  ghost predicate Apart(fs: seq<Finding>) {
    && (forall a, b :: a in fs && b in fs && a != b ==> Disjoint(a.span, b.span))
    && (forall a :: multiset(fs)[a] <= 1)
  }

  predicate SpanAscends(a: Finding, b: Finding) {
    SpanLeq(a.span, b.span)
  }

  lemma {:induction false} InOrderIsApart(from: nat, until: nat, ms: seq<Finding>)
    requires InOrder(from, until, ms)
    ensures Apart(ms) && forall f :: f in ms ==> from <= f.span.start < f.span.end
    decreases |ms|
  {
    if ms != [] {
      InOrderIsApart(ms[0].span.end, until, ms[1..]);
      assert ms == [ms[0]] + ms[1..];
      assert ms[0] !in ms[1..];
      assert forall f :: f in ms ==> f == ms[0] || f in ms[1..];
      assert multiset(ms) == multiset{ms[0]} + multiset(ms[1..]);
    }
  }

  lemma {:induction false} ApartIsInOrder(from: nat, until: nat, ms: seq<Finding>)
    requires Apart(ms) && Sorted(SpanAscends, ms)
    requires forall f :: f in ms ==> from <= f.span.start < f.span.end <= until
    ensures InOrder(from, until, ms)
    decreases |ms|
  {
    if ms != [] {
      var x, rest := ms[0], ms[1..];
      assert ms == [x] + rest;
      assert multiset(ms) == multiset{x} + multiset(rest);
      assert Apart(rest) by {
        forall a ensures multiset(rest)[a] <= 1 {
          assert multiset(ms)[a] <= 1;
        }
      }
      forall f | f in rest ensures x.span.end <= f.span.start {
        assert f in ms && x in ms;
        assert f != x by {
          assert multiset(ms)[x] <= 1;
        }
        var k :| 0 < k < |ms| && ms[k] == f;
        assert SpanAscends(ms[0], ms[k]);
      }
      ApartIsInOrder(x.span.end, until, rest);
    }
  }

  /** The findings of a path can be arranged left to right if and only if they do not overlap. */
  lemma ArrangedExactly(metadata: Json, findings: seq<Finding>, q: Path, text: string)
    requires FromScan(metadata, findings) && Lookup(metadata, q) == Some(Str(text))
    ensures (exists ms :: Arranges(findings, q, text, ms)) <==> Apart(GroupOf(findings, q))
  {
    var g := GroupOf(findings, q);
    GroupFacts(findings, q);
    if ms :| Arranges(findings, q, text, ms) {
      InOrderIsApart(0, |text|, ms);
      SameMembers(ms, g);
    }
    if Apart(g) {
      var ms := SortBy(SpanAscends, g);
      assert TotalOrder(SpanAscends);
      SortFacts(SpanAscends, g);
      SameMembers(ms, g);
      ApartIsInOrder(0, |text|, ms);
      assert Arranges(findings, q, text, ms);
    }
  }

  // ---------------------------------------------------------------- scan, then scrub

  lemma {:induction false} MatchesAreSlices(path: Path, pattern: string, full: string, spans: seq<Span>)
    requires forall i :: 0 <= i < |spans| ==> spans[i].start < spans[i].end <= |full|
    ensures forall f :: f in MatchesOf(path, pattern, full, spans) ==>
              f.path == path && f.full == full && f.span.start < f.span.end <= |full|
                && f.matched == full[f.span.start..f.span.end]
  {
    if spans != [] {
      MatchesAreSlices(path, pattern, full, spans[1..]);
    }
  }

  /** A scan, or any selection from it, is what the scrub asks for, and its paths can always be sorted. */
  lemma ScanFeedsScrub(m: Matcher, metadata: Json, skip: set<string>, chosen: seq<Finding>)
    requires IsFinder(m) && metadata.Obj? && Proper(metadata)
    requires forall f :: f in chosen ==> f in FindAll(m, metadata, skip)
    ensures FromScan(metadata, chosen)
    ensures Uniform(metadata) ==> forall f, g :: f in chosen && g in chosen ==> !Incomparable(f.path, g.path)
  {
    forall f | f in chosen
      ensures f.path != [] && f.span.start < f.span.end <= |f.full| && Lookup(metadata, f.path) == Some(Str(f.full)) {
      ScanIsComplete(m, metadata, skip, f.path);
      GroupFacts(FindAll(m, metadata, skip), f.path);
      assert f in GroupOf(FindAll(m, metadata, skip), f.path);
      var text := Lookup(metadata, f.path).value.text;
      MatchesAreSlices(f.path, PATTERNS[0], text, m(PATTERNS[0], text));
      MatchesAreSlices(f.path, PATTERNS[1], text, m(PATTERNS[1], text));
    }
    forall f, g | Uniform(metadata) && f in chosen && g in chosen ensures !Incomparable(f.path, g.path) {
      OneTreeIsComparable(metadata, f.path, g.path);
    }
  }

  /** Scrubbing the full scan: a string outside the skipped keys whose matches do not overlap has exactly those
      matches replaced, every other leaf and every container stays. */
  lemma FullScrub(m: Matcher, metadata: Json, skip: set<string>, out: Json, q: Path)
    requires IsFinder(m) && metadata.Obj? && Proper(metadata)
    requires Scrubbed(metadata, FindAll(m, metadata, skip), q, Lookup(out, q))
    ensures if !Scanned(metadata, skip, q) || ScanString(m, q, Lookup(metadata, q).value.text) == []
            then Kept(Lookup(metadata, q), Lookup(out, q))
            else
              var text := Lookup(metadata, q).value.text;
              Apart(ScanString(m, q, text)) ==>
                exists ms :: multiset(ms) == multiset(ScanString(m, q, text)) && InOrder(0, |text|, ms)
                             && Lookup(out, q) == Some(Str(Substitute(text, 0, ms)))
  {
    var all := FindAll(m, metadata, skip);
    ScanIsComplete(m, metadata, skip, q);
    GroupFacts(all, q);
    if GroupOf(all, q) != [] && Apart(GroupOf(all, q)) {
      var text := Lookup(metadata, q).value.text;
      ScanFeedsScrub(m, metadata, skip, all);
      ArrangedExactly(metadata, all, q, text);
      var ms :| Arranges(all, q, text, ms);
    }
  }

  /** Scrubbing the full scan raises iff some scanned string with a match lies directly in a tuple. */
  lemma FullScrubRaisesExactly(m: Matcher, metadata: Json, skip: set<string>)
    requires metadata.Obj? && Proper(metadata)
    ensures !NoneInTuple(metadata, FindAll(m, metadata, skip)) <==>
              exists q :: && Scanned(metadata, skip, q) && InTuple(metadata, q)
                          && ScanString(m, q, Lookup(metadata, q).value.text) != []
  {
    var all := FindAll(m, metadata, skip);
    if f :| f in all && InTuple(metadata, f.path) {
      ScanIsComplete(m, metadata, skip, f.path);
      GroupFacts(all, f.path);
      assert f in GroupOf(all, f.path);
      assert Scanned(metadata, skip, f.path);
    }
    if q :| && Scanned(metadata, skip, q) && InTuple(metadata, q)
            && ScanString(m, q, Lookup(metadata, q).value.text) != [] {
      ScanIsComplete(m, metadata, skip, q);
      GroupFacts(all, q);
      assert GroupOf(all, q)[0] in GroupOf(all, q);
    }
  }

  /** The least example: `{"a": (text,)}` with one match cannot be scrubbed with its own scan. */
  lemma TupleStringRaises(m: Matcher, text: string, s: Span)
    requires IsFinder(m) && m(PATTERNS[0], text) == [s] && m(PATTERNS[1], text) == []
    ensures var metadata := Obj([Name("a")], map[Name("a") := Tup([Str(text)])]);
            var fs := FindAll(m, metadata, {});
            |fs| == 1 && fs[0].path == [Name("a"), Index(0)] && ScrubGroups(metadata, SortBy(KeyLeq, fs)) == None
  {
    var tuple := Tup([Str(text)]);
    var metadata := Obj([Name("a")], map[Name("a") := tuple]);
    var path := [Name("a"), Index(0)];
    OneTupleScan(m, metadata, text);
    var fs := ScanString(m, path, text);
    assert MatchesOf(path, PATTERNS[0], text, []) == [] && [s][1..] == [];
    assert |MatchesOf(path, PATTERNS[0], text, [s])| == 1;
    assert fs == MatchesOf(path, PATTERNS[0], text, [s]);
    assert fs[1..] == [] && SortBy(KeyLeq, []) == [];
    assert SortBy(KeyLeq, fs) == fs;
    TupleItemRaises("a", text, Str(GroupText(fs)));
    assert FirstRun(fs) == 1 && fs[..1] == fs;
  }

  lemma OneTupleScan(m: Matcher, metadata: Json, text: string)
    requires metadata == Obj([Name("a")], map[Name("a") := Tup([Str(text)])])
    ensures FindAll(m, metadata, {}) == ScanString(m, [Name("a"), Index(0)], text)
  {
    var tuple := Tup([Str(text)]);
    assert [] + [Name("a")] == [Name("a")] && [Name("a")] + [Index(0)] == [Name("a"), Index(0)];
    assert WalkItems(m, [Name("a")], tuple, 1) == [];
    assert Walk(m, [Name("a")], tuple) == Walk(m, [Name("a"), Index(0)], Str(text));
    assert [Name("a")][1..] == [] && Unskipped([], {}) == [] && Unskipped([Name("a")], {}) == [Name("a")];
    assert WalkFields(m, [], metadata, []) == [];
    assert WalkFields(m, [], metadata, [Name("a")]) == Walk(m, [Name("a")], tuple);
  }

  // ---------------------------------------------------------------- an overlap that a scan does find

  const CONTACT := "John Doe@x.com"
  const NAME_SPAN := Span(0, 8)
  const EMAIL_SPAN := Span(5, 14)

  /** What the two patterns find in `CONTACT`, and nothing elsewhere. */
  function ContactMatcher(pattern: string, text: string): seq<Span> {
    if text != CONTACT then [] else if pattern == PATTERNS[0] then [EMAIL_SPAN] else if pattern == PATTERNS[1]
        then [NAME_SPAN] else []
  }

  /** A receivable text with overlapping findings: they cannot be arranged, and the scrub leaves the name's marker
      and the email's marker without its first three characters. */
  lemma OverlapGarbles()
    ensures var path := [Name("note")];
            var metadata := Obj(path, map[path[0] := Str(CONTACT)]);
            var fs := FindAll(ContactMatcher, metadata, {});
            && IsFinder(ContactMatcher) && Proper(metadata) && FromScan(metadata, fs)
            && !Apart(GroupOf(fs, path)) && !(exists ms :: Arranges(fs, path, CONTACT, ms))
            && GroupText(GroupOf(fs, path)) == Marker("name") + Marker("email")[3..]
  {
    var path := [Name("note")];
    var metadata := Obj(path, map[path[0] := Str(CONTACT)]);
    ContactScan(path, metadata);
    var fs := FindAll(ContactMatcher, metadata, {});
    var email, name := ContactFinding(path, "email", EMAIL_SPAN), ContactFinding(path, "name", NAME_SPAN);
    ScanFeedsScrub(ContactMatcher, metadata, {}, fs);
    assert email in [email, name] && name in [email, name] && !Disjoint(email.span, name.span);
    NoteLookup(path[0], Str(CONTACT));
    ArrangedExactly(metadata, fs, path, CONTACT);
    ContactText(path);
  }

  function ContactFinding(path: Path, pattern: string, s: Span): Finding {
    Finding(path, pattern, if s.start <= s.end <= |CONTACT| then CONTACT[s.start..s.end] else "", s, CONTACT)
  }

  lemma ContactScan(path: Path, metadata: Json)
    requires path == [Name("note")] && metadata == Obj(path, map[path[0] := Str(CONTACT)])
    ensures IsFinder(ContactMatcher) && Proper(metadata)
    ensures GroupOf(FindAll(ContactMatcher, metadata, {}), path)
         == [ContactFinding(path, "email", EMAIL_SPAN), ContactFinding(path, "name", NAME_SPAN)]
  {
    ContactIsFinder();
    NoteIsProper(path[0], Str(CONTACT));
    ScanIsComplete(ContactMatcher, metadata, {}, path);
    NoteLookup(path[0], Str(CONTACT));
    ContactString(path);
  }

  lemma ContactIsFinder()
    ensures IsFinder(ContactMatcher)
  {
  }

  lemma NoteIsProper(k: Part, leaf: Json)
    requires leaf.Str?
    ensures Proper(Obj([k], map[k := leaf]))
  {
    assert Proper(leaf);
    assert forall p :: Has(Obj([k], map[k := leaf]), p) ==> p == k;
  }

  lemma NoteLookup(k: Part, leaf: Json)
    ensures Lookup(Obj([k], map[k := leaf]), [k]) == Some(leaf)
  {
    assert [k][1..] == [];
    assert Lookup(leaf, []) == Some(leaf);
  }

  lemma ContactString(path: Path)
    ensures ScanString(ContactMatcher, path, CONTACT)
         == [ContactFinding(path, "email", EMAIL_SPAN), ContactFinding(path, "name", NAME_SPAN)]
  {
    assert PATTERNS[0] == "email" && PATTERNS[1] == "name" && PATTERNS[0] != PATTERNS[1];
    OneMatch(path, "email", EMAIL_SPAN);
    OneMatch(path, "name", NAME_SPAN);
  }

  lemma OneMatch(path: Path, pattern: string, s: Span)
    ensures MatchesOf(path, pattern, CONTACT, [s]) == [ContactFinding(path, pattern, s)]
  {
    assert [s][1..] == [];
  }

  lemma ContactText(path: Path)
    ensures var email, name := ContactFinding(path, "email", EMAIL_SPAN), ContactFinding(path, "name", NAME_SPAN);
            GroupText([email, name]) == Marker("name") + Marker("email")[3..]
  {
    var email, name := ContactFinding(path, "email", EMAIL_SPAN), ContactFinding(path, "name", NAME_SPAN);
    PairAscends(name, email);
    GroupTextIsOverlaid([email, name]);
    PairOverlaid(CONTACT, name, email);
  }

  lemma PairAscends(a: Finding, b: Finding)
    requires SpanGeq(b, a)
    ensures ByAscendingStart([b, a]) == [a, b]
  {
    assert [b, a][1..] == [a] && [a][1..] == [];
    assert SortBy(SpanGeq, [a]) == Insert(SpanGeq, a, []);
    assert SortBy(SpanGeq, [b, a]) == [b, a];
    assert Reverse([a]) == Reverse([]) + [a];
    assert Reverse([b, a]) == Reverse([a]) + [b];
  }

  /** Two spans that share a part: the later marker, and then what follows it, loses it. */
  lemma PairOverlaid(text: string, a: Finding, b: Finding)
    requires a.span.start < b.span.start < a.span.end && b.span.start <= b.span.end == |text|
    ensures Overlaid(text, 0, [a, b])
        == text[..a.span.start] + Marker(a.pattern) + Drop(Marker(b.pattern), a.span.end - b.span.start)
  {
    assert [a, b][1..] == [b] && [b][1..] == [];
    assert Overlaid(text, b.span.end, []) == "";
    assert Marker(b.pattern) + "" == Marker(b.pattern);
    assert Overlaid(text, a.span.end, [b]) == Drop(Marker(b.pattern), a.span.end - b.span.start);
    assert text[0..a.span.start] == text[..a.span.start];
  }
}
