/** Replacing the findings of one string: last span first, as the scrub does it, against replacing them all at once. */
module PiiSplice {
  import opened Options
  import opened Json
  import opened Sorting
  import opened PiiScan

  // ---------------------------------------------------------------- the code

  function Marker(pattern: string): string {
    "[REDACTED:Art.17:" + pattern + "]"
  }

  lemma MarkerText()
    ensures Marker("email") == "[REDACTED:Art.17:email]" && Marker("name") == "[REDACTED:Art.17:name]"
  {
  }

  function Clamp(i: nat, n: nat): (r: nat)
    ensures r <= n && (i <= n ==> r == i)
  {
    if i <= n then i else n
  }

  /** `text[:start] + marker + text[end:]`, with Python's slice bounds. */
  function Splice(text: string, f: Finding): string {
    text[..Clamp(f.span.start, |text|)] + Marker(f.pattern) + text[Clamp(f.span.end, |text|)..]
  }

  function SpliceAll(text: string, fs: seq<Finding>): string
    decreases |fs|
  {
    if fs == [] then text else SpliceAll(Splice(text, fs[0]), fs[1..])
  }

  predicate SpanLeq(a: Span, b: Span) {
    a.start < b.start || (a.start == b.start && a.end <= b.end)
  }

  predicate SpanGeq(a: Finding, b: Finding) {
    SpanLeq(b.span, a.span)
  }

  /** The new text of one path: its findings spliced in, last span first. */
  function GroupText(fs: seq<Finding>): string
    requires fs != []
  {
    SpliceAll(fs[0].full, SortBy(SpanGeq, fs))
  }

  // ---------------------------------------------------------------- simultaneous substitution

  /** Left to right: the text between the spans, each span replaced by its marker. */
  function Substitute(text: string, from: nat, ms: seq<Finding>): string
    requires from <= |text| && InOrder(from, |text|, ms)
    decreases |ms|
  {
    if ms == [] then text[from..]
    else text[from..ms[0].span.start] + Marker(ms[0].pattern) + Substitute(text, ms[0].span.end, ms[1..])
  }

  /** Spans that follow one another without overlap inside `[from, until)`. */
  predicate InOrder(from: nat, until: nat, ms: seq<Finding>)
    decreases |ms|
  {
    ms == [] || (from <= ms[0].span.start < ms[0].span.end <= until && InOrder(ms[0].span.end, until, ms[1..]))
  }

  lemma {:induction false} InOrderSnoc(from: nat, until: nat, ms: seq<Finding>)
    requires ms != [] && InOrder(from, until, ms)
    ensures var init, z := ms[..|ms| - 1], ms[|ms| - 1];
            && from <= z.span.start < z.span.end <= until
            && InOrder(from, z.span.start, init)
            && (forall f :: f in init ==> f.span.end <= z.span.start && f.span.start < z.span.start)
    decreases |ms|
  {
    if |ms| > 1 {
      var init, z := ms[..|ms| - 1], ms[|ms| - 1];
      InOrderSnoc(ms[0].span.end, until, ms[1..]);
      assert ms[1..][..|ms| - 2] == init[1..];
      assert init == [ms[0]] + init[1..];
    }
  }

  /** In descending order, the first finding is the last span of any arrangement left to right. */
  lemma DescendingStartsLast(ds: seq<Finding>, from: nat, until: nat, ms: seq<Finding>)
    requires (forall f :: f in ds <==> f in ms) && Sorted(SpanGeq, ds) && InOrder(from, until, ms) && ms != []
    ensures ds != [] && ds[0] == ms[|ms| - 1]
  {
    var init, z := ms[..|ms| - 1], ms[|ms| - 1];
    InOrderSnoc(from, until, ms);
    assert z in ms;
    var k :| 0 <= k < |ds| && ds[k] == z;
    assert k > 0 ==> SpanGeq(ds[0], ds[k]);
    assert ms == init + [z] && ds[0] in ms;
  }

  lemma DropSame(ds: seq<Finding>, ms: seq<Finding>)
    requires multiset(ds) == multiset(ms) && ds != [] && ms != [] && ds[0] == ms[|ms| - 1]
    ensures multiset(ds[1..]) == multiset(ms[..|ms| - 1])
  {
    assert ds == [ds[0]] + ds[1..] && ms == ms[..|ms| - 1] + [ms[|ms| - 1]];
    assert multiset(ds) == multiset{ds[0]} + multiset(ds[1..]);
    assert multiset(ms) == multiset(ms[..|ms| - 1]) + multiset{ds[0]};
    assert multiset(ds[1..]) == multiset(ds) - multiset{ds[0]};
  }

  lemma SameMembers(ds: seq<Finding>, ms: seq<Finding>)
    requires multiset(ds) == multiset(ms)
    ensures forall f :: f in ds <==> f in ms
  {
    assert forall f :: f in ds <==> f in multiset(ds);
  }

  /** The descending order of any arrangement is that arrangement from its end. */
  lemma {:induction false} DescendingIsReverse(ds: seq<Finding>, from: nat, until: nat, ms: seq<Finding>)
    requires multiset(ds) == multiset(ms) && Sorted(SpanGeq, ds) && InOrder(from, until, ms)
    ensures ds == Reverse(ms)
    decreases |ms|
  {
    SameLength(ds, ms);
    if ms != [] {
      PeelLast(ds, from, until, ms);
      DescendingIsReverse(ds[1..], from, until, ms[..|ms| - 1]);
      assert ms == ms[..|ms| - 1] + [ms[|ms| - 1]];
      ReverseSnoc(ms[..|ms| - 1], ms[|ms| - 1]);
    }
  }

  lemma SameLength(ds: seq<Finding>, ms: seq<Finding>)
    requires multiset(ds) == multiset(ms)
    ensures |ds| == |ms|
  {
    assert |ds| == |multiset(ds)| && |ms| == |multiset(ms)|;
  }

  lemma PeelLast(ds: seq<Finding>, from: nat, until: nat, ms: seq<Finding>)
    requires multiset(ds) == multiset(ms) && Sorted(SpanGeq, ds) && InOrder(from, until, ms) && ms != []
    ensures ds != [] && ds == [ms[|ms| - 1]] + ds[1..] && multiset(ds[1..]) == multiset(ms[..|ms| - 1])
    ensures Sorted(SpanGeq, ds[1..]) && InOrder(from, until, ms[..|ms| - 1])
  {
    SameMembers(ds, ms);
    DescendingStartsLast(ds, from, until, ms);
    DropSame(ds, ms);
    InOrderInit(from, until, ms);
  }

  lemma {:induction false} InOrderInit(from: nat, until: nat, ms: seq<Finding>)
    requires ms != [] && InOrder(from, until, ms)
    ensures InOrder(from, until, ms[..|ms| - 1])
    decreases |ms|
  {
    if |ms| > 1 {
      InOrderInit(ms[0].span.end, until, ms[1..]);
      assert ms[..|ms| - 1][1..] == ms[1..][..|ms| - 2];
    }
  }

  /** Spans in order are overlaid without loss. */
  lemma {:induction false} InOrderOverlays(text: string, from: nat, ms: seq<Finding>)
    requires from <= |text| && InOrder(from, |text|, ms)
    ensures Overlaid(text, from, ms) == Substitute(text, from, ms)
    decreases |ms|
  {
    if ms != [] {
      InOrderOverlays(text, ms[0].span.end, ms[1..]);
      assert text[from..ms[0].span.start] + (Marker(ms[0].pattern) + Substitute(text, ms[0].span.end, ms[1..]))
          == Substitute(text, from, ms);
    }
  }

  lemma {:induction false} InOrderByStart(from: nat, until: nat, ms: seq<Finding>)
    requires InOrder(from, until, ms)
    ensures ByStart(ms) && forall f :: f in ms ==> from <= f.span.start <= until
    decreases |ms|
  {
    if ms != [] {
      InOrderByStart(ms[0].span.end, until, ms[1..]);
      assert ms == [ms[0]] + ms[1..];
      forall j | 0 < j < |ms| ensures ms[0].span.start <= ms[j].span.start {
        assert ms[j] == ms[1..][j - 1] && ms[j] in ms[1..];
      }
    }
  }

  /** Splicing in descending order is simultaneous substitution. */
  lemma SpliceIsSubstitute(text: string, ds: seq<Finding>, ms: seq<Finding>)
    requires multiset(ds) == multiset(ms) && Sorted(SpanGeq, ds) && InOrder(0, |text|, ms)
    ensures SpliceAll(text, ds) == Substitute(text, 0, ms)
  {
    DescendingIsReverse(ds, 0, |text|, ms);
    InOrderByStart(0, |text|, ms);
    SpliceIsOverlaid(text, ms);
    InOrderOverlays(text, 0, ms);
  }

  lemma GroupTextIsSubstitute(fs: seq<Finding>, ms: seq<Finding>)
    requires fs != [] && multiset(ms) == multiset(fs) && InOrder(0, |fs[0].full|, ms)
    ensures GroupText(fs) == Substitute(fs[0].full, 0, ms)
  {
    assert TotalOrder(SpanGeq);
    SortFacts(SpanGeq, fs);
    SpliceIsSubstitute(fs[0].full, SortBy(SpanGeq, fs), ms);
  }

  // ---------------------------------------------------------------- any spans, overlapping or not

  function Drop(text: string, n: nat): string {
    text[Clamp(n, |text|)..]
  }

  function Reverse(fs: seq<Finding>): seq<Finding> {
    if fs == [] then [] else Reverse(fs[1..]) + [fs[0]]
  }

  /** The text from position `from` on, with the spans of `ms`, by ascending start, replaced.  A span that starts
      before `from` lies partly under its predecessor: its marker, and then what follows, loses the overlap. */
  function Overlaid(text: string, from: nat, ms: seq<Finding>): string
    decreases |ms|
  {
    if ms == [] then Drop(text, from)
    else
      var rest := Marker(ms[0].pattern) + Overlaid(text, ms[0].span.end, ms[1..]);
      var start := Clamp(ms[0].span.start, |text|);
      if from <= start then text[from..start] + rest else Drop(rest, from - start)
  }

  /** Starts ascend. */
  ghost predicate ByStart(ms: seq<Finding>) {
    forall i, j :: 0 <= i < j < |ms| ==> ms[i].span.start <= ms[j].span.start
  }

  lemma OverlaidDrops(text: string, from: nat, ms: seq<Finding>)
    ensures Overlaid(text, from, ms) == Drop(Overlaid(text, 0, ms), from)
  {
    if ms != [] {
      var rest := Marker(ms[0].pattern) + Overlaid(text, ms[0].span.end, ms[1..]);
      var start := Clamp(ms[0].span.start, |text|);
      assert text[0..start] == text[..start];
      if from <= start {
        assert (text[..start] + rest)[from..] == text[from..start] + rest;
      } else {
        CutTail(text[..start], rest, from);
      }
    }
  }

  lemma CutTail(head: string, tail: string, end: nat)
    requires |head| <= end
    ensures Drop(head + tail, end) == Drop(tail, end - |head|)
  {
  }

  lemma OverlaidPrefix(text: string, n: nat, ms: seq<Finding>)
    requires n <= |text| && (ms != [] ==> n <= ms[0].span.start)
    ensures n <= |Overlaid(text, 0, ms)| && Overlaid(text, 0, ms)[..n] == text[..n]
  {
  }

  lemma SpliceAllSnoc(text: string, ds: seq<Finding>, x: Finding)
    ensures SpliceAll(text, ds + [x]) == Splice(SpliceAll(text, ds), x)
    decreases |ds|
  {
    if ds == [] {
      assert ds + [x] == [x] && [x][1..] == [];
      assert SpliceAll(text, [x]) == SpliceAll(Splice(text, x), []);
    } else {
      assert (ds + [x])[1..] == ds[1..] + [x];
      SpliceAllSnoc(Splice(text, ds[0]), ds[1..], x);
    }
  }

  /** One more span in front of spans that are already overlaid. */
  lemma OverlayOne(text: string, x: Finding, rest: seq<Finding>)
    requires x.span.start <= |text| && (rest != [] ==> x.span.start <= rest[0].span.start)
    ensures Splice(Overlaid(text, 0, rest), x) == Overlaid(text, 0, [x] + rest)
  {
    var below := Overlaid(text, 0, rest);
    OverlaidPrefix(text, x.span.start, rest);
    OverlaidDrops(text, x.span.end, rest);
    assert ([x] + rest)[1..] == rest;
    assert Splice(below, x) == below[..x.span.start] + Marker(x.pattern) + Drop(below, x.span.end);
    assert text[0..x.span.start] == text[..x.span.start];
    assert Overlaid(text, 0, [x] + rest) == text[..x.span.start] + (Marker(x.pattern) + Drop(below, x.span.end));
  }

  /** Splicing from the last span to the first, whatever the overlaps. */
  lemma {:induction false} SpliceIsOverlaid(text: string, ms: seq<Finding>)
    requires ByStart(ms) && forall f :: f in ms ==> f.span.start <= |text|
    ensures SpliceAll(text, Reverse(ms)) == Overlaid(text, 0, ms)
    decreases |ms|
  {
    if ms != [] {
      var x, rest := ms[0], ms[1..];
      assert ms == [x] + rest && x in ms;
      SpliceIsOverlaid(text, rest);
      SpliceAllSnoc(text, Reverse(rest), x);
      OverlayOne(text, x, rest);
    }
  }

  lemma {:induction false} ReverseIndex(fs: seq<Finding>)
    ensures |Reverse(fs)| == |fs|
    ensures forall i :: 0 <= i < |fs| ==> Reverse(fs)[i] == fs[|fs| - 1 - i]
  {
    if fs != [] {
      ReverseIndex(fs[1..]);
    }
  }

  lemma ReverseTwice(fs: seq<Finding>)
    ensures Reverse(Reverse(fs)) == fs
  {
    ReverseIndex(fs);
    ReverseIndex(Reverse(fs));
  }

  lemma {:induction false} ReversePermutes(fs: seq<Finding>)
    ensures multiset(Reverse(fs)) == multiset(fs)
  {
    if fs != [] {
      ReversePermutes(fs[1..]);
      assert fs == [fs[0]] + fs[1..];
    }
  }

  lemma {:induction false} ReverseSnoc(fs: seq<Finding>, x: Finding)
    ensures Reverse(fs + [x]) == [x] + Reverse(fs)
  {
    if fs == [] {
      assert fs + [x] == [x] && Reverse([x]) == Reverse([]) + [x];
    } else {
      assert (fs + [x])[1..] == fs[1..] + [x];
      ReverseSnoc(fs[1..], x);
    }
  }

  /** The findings of a group by ascending start, ties in the order in which they are overlaid. */
  function ByAscendingStart(fs: seq<Finding>): seq<Finding> {
    Reverse(SortBy(SpanGeq, fs))
  }

  /** What a group's text becomes, for any group. */
  lemma GroupTextIsOverlaid(fs: seq<Finding>)
    requires fs != [] && forall f :: f in fs ==> f.span.start <= |fs[0].full|
    ensures GroupText(fs) == Overlaid(fs[0].full, 0, ByAscendingStart(fs))
    ensures ByStart(ByAscendingStart(fs)) && multiset(ByAscendingStart(fs)) == multiset(fs)
  {
    var ds := SortBy(SpanGeq, fs);
    assert TotalOrder(SpanGeq);
    SortFacts(SpanGeq, fs);
    ReverseIndex(ds);
    ReverseTwice(ds);
    ReversePermutes(ds);
    SameMembers(ByAscendingStart(fs), fs);
    forall i, j | 0 <= i < j < |ds| ensures Reverse(ds)[i].span.start <= Reverse(ds)[j].span.start {
      assert SpanGeq(ds[|ds| - 1 - j], ds[|ds| - 1 - i]);
    }
    SpliceIsOverlaid(fs[0].full, ByAscendingStart(fs));
  }
}
