/** The paged XRANGE walks of the orphan finder and of the outbox reconciler, over a stream that other writers
    keep appending to, trimming and deleting from while the walk is under way. */
module StreamScan {
  import opened Options
  import opened RedisIds

  datatype Item<V> = Item(id: Id, value: V)

  /** Stream order: ids are valid, above 0-0 (which XADD refuses) and strictly increase. */
  ghost predicate Ascending<V>(s: seq<Item<V>>) {
    && (forall i :: 0 <= i < |s| ==> ValidId(s[i].id) && Before(ZERO, s[i].id))
    && (forall i, j :: 0 <= i < j < |s| ==> Before(s[i].id, s[j].id))
  }

  /** The ids that XRANGE selects. */
  function Range<V>(s: seq<Item<V>>, min: Id, max: Id): seq<Item<V>> {
    if s == [] then []
    else if AtMost(min, s[0].id) && AtMost(s[0].id, max) then [s[0]] + Range(s[1..], min, max)
    else Range(s[1..], min, max)
  }

  /** The unpaged answers: the first and all of the wanted ids at or above a bound. */
  function FirstFrom<V>(s: seq<Item<V>>, lower: Id, wanted: V -> bool): Option<Id> {
    if s == [] then None
    else if AtMost(lower, s[0].id) && wanted(s[0].value) then Some(s[0].id)
    else FirstFrom(s[1..], lower, wanted)
  }

  function AllFrom<V>(s: seq<Item<V>>, lower: Id, wanted: V -> bool): seq<Id> {
    if s == [] then []
    else if AtMost(lower, s[0].id) && wanted(s[0].value) then [s[0].id] + AllFrom(s[1..], lower, wanted)
    else AllFrom(s[1..], lower, wanted)
  }

  /** The item is one that a walk from `lower` looks for. */
  predicate Sought<V>(it: Item<V>, lower: Id, wanted: V -> bool) {
    AtMost(lower, it.id) && wanted(it.value)
  }

  // ---------------------------------------------------------------- what the answers mean

  /** AllFrom lists exactly the wanted ids at or above the bound. */
  lemma {:induction false} AllFromIsComplete<V>(s: seq<Item<V>>, lower: Id, wanted: V -> bool, id: Id)
    ensures id in AllFrom(s, lower, wanted) <==> exists it :: it in s && it.id == id && Sought(it, lower, wanted)
  {
    if s != [] {
      AllFromIsComplete(s[1..], lower, wanted, id);
      assert forall it :: it in s <==> it == s[0] || it in s[1..];
    }
  }

  /** FirstFrom is the least of them, and absent only when there are none. */
  lemma {:induction false} FirstFromIsLeast<V>(s: seq<Item<V>>, lower: Id, wanted: V -> bool)
    requires Ascending(s)
    ensures var r := FirstFrom(s, lower, wanted);
            && (r.None? <==> forall it :: it in s ==> !Sought(it, lower, wanted))
            && (r.Some? ==> exists it :: it in s && it.id == r.value && Sought(it, lower, wanted))
            && (r.Some? ==> forall it :: it in s && Sought(it, lower, wanted) ==> AtMost(r.value, it.id))
  {
    if s != [] {
      FirstFromIsLeast(s[1..], lower, wanted);
      assert forall it :: it in s <==> it == s[0] || it in s[1..];
      HeadIsFirst(s);
    }
  }

  lemma HeadIsFirst<V>(s: seq<Item<V>>)
    requires Ascending(s) && s != []
    ensures forall it :: it in s[1..] ==> Before(s[0].id, it.id)
  {
    forall it | it in s[1..] ensures Before(s[0].id, it.id) {
      var i :| 0 <= i < |s[1..]| && s[1..][i] == it;
      assert s[i + 1] == it;
    }
  }

  lemma {:induction false} RangeMember<V>(s: seq<Item<V>>, min: Id, max: Id, it: Item<V>)
    ensures it in Range(s, min, max) <==> it in s && AtMost(min, it.id) && AtMost(it.id, max)
  {
    if s != [] {
      RangeMember(s[1..], min, max, it);
      assert it in s <==> it == s[0] || it in s[1..];
    }
  }

  lemma {:induction false} RangeAscends<V>(s: seq<Item<V>>, min: Id, max: Id)
    requires Ascending(s)
    ensures Ascending(Range(s, min, max))
  {
    if s != [] {
      RangeAscends(s[1..], min, max);
      HeadIsFirst(s);
      var rest := Range(s[1..], min, max);
      forall i | 0 <= i < |rest| ensures Before(s[0].id, rest[i].id) {
        assert rest[i] in rest;
        RangeMember(s[1..], min, max, rest[i]);
      }
    }
  }

  ghost predicate AscendingIds(ids: seq<Id>) {
    forall i, j :: 0 <= i < j < |ids| ==> Before(ids[i], ids[j])
  }

  lemma {:induction false} AllFromAscends<V>(s: seq<Item<V>>, lower: Id, wanted: V -> bool)
    requires Ascending(s)
    ensures AscendingIds(AllFrom(s, lower, wanted))
  {
    if s != [] {
      AllFromAscends(s[1..], lower, wanted);
      HeadIsFirst(s);
      var rest := AllFrom(s[1..], lower, wanted);
      forall i | 0 <= i < |rest| ensures Before(s[0].id, rest[i]) {
        assert rest[i] in rest;
        AllFromIsComplete(s[1..], lower, wanted, rest[i]);
      }
    }
  }

  /** Two ascending lists of the same ids are one list. */
  lemma {:induction false} SameIdsSameList(a: seq<Id>, b: seq<Id>)
    requires AscendingIds(a) && AscendingIds(b) && (forall id :: id in a <==> id in b)
    ensures a == b
  {
    if a != [] {
      NonEmptyToo(a, b);
    }
    if b != [] {
      NonEmptyToo(b, a);
    }
    if a != [] {
      assert a[0] in b && b[0] in a;
      assert a[0] == b[0];
      TailIds(a);
      TailIds(b);
      SameIdsSameList(a[1..], b[1..]);
      assert a == [a[0]] + a[1..] && b == [b[0]] + b[1..];
    }
  }

  lemma NonEmptyToo(a: seq<Id>, b: seq<Id>)
    requires a != [] && (forall id :: id in a ==> id in b)
    ensures b != []
  {
    assert a[0] in a;
  }

  lemma TailIds(a: seq<Id>)
    requires AscendingIds(a) && a != []
    ensures AscendingIds(a[1..]) && forall id :: id in a[1..] <==> id in a && id != a[0]
  {
    assert a == [a[0]] + a[1..];
    forall id | id in a[1..] ensures id != a[0] {
      var i :| 0 <= i < |a[1..]| && a[1..][i] == id;
      assert a[i + 1] == id;
    }
  }

  // ---------------------------------------------------------------- the stream

  /** A live stream and the last id it ever generated. */
  datatype Stream<V> = Stream(items: seq<Item<V>>, last: Id)

  ghost predicate WellFormed<V>(s: Stream<V>) {
    Ascending(s.items) && ValidId(s.last) && forall it :: it in s.items ==> AtMost(it.id, s.last)
  }

  /** What time may do to a stream: entries go, and new ones get ids above everything so far. */
  ghost predicate Evolves<V>(a: Stream<V>, b: Stream<V>) {
    && WellFormed(b) && AtMost(a.last, b.last)
    && forall it :: it in b.items ==> it in a.items || Before(a.last, it.id)
  }

  /** Redis as one client sees it: `future` is what the stream has become at each later command. */
  class RedisStream<V> {
    var now: Stream<V>
    var future: seq<Stream<V>>

    ghost predicate Valid()
      reads this
    {
      WellFormed(now) && Unfolds(now, future)
    }

    constructor (now: Stream<V>, future: seq<Stream<V>>)
      requires WellFormed(now) && Unfolds(now, future)
      ensures Valid() && this.now == now && this.future == future
    {
      this.now, this.future := now, future;
    }

    /** Other clients act between two commands of this one. */
    method Tick()
      requires Valid()
      modifies this
      ensures Valid() && Evolves(old(now), now)
    {
      if future != [] {
        now, future := future[0], future[1..];
      }
    }

    /** XINFO STREAM, last entry. */
    method LastEntry() returns (last: Option<Id>)
      requires Valid()
      modifies this
      ensures Valid() && Evolves(old(now), now)
      ensures last == if now.items == [] then None else Some(now.items[|now.items| - 1].id)
    {
      Tick();
      last := if now.items == [] then None else Some(now.items[|now.items| - 1].id);
    }

    /** XRANGE min max COUNT count. */
    method XRange(min: Id, max: Id, count: nat) returns (page: seq<Item<V>>)
      requires Valid()
      modifies this
      ensures Valid() && Evolves(old(now), now)
      ensures page == if |Range(now.items, min, max)| <= count then Range(now.items, min, max)
          else Range(now.items, min, max)[..count]
    {
      Tick();
      var selected := Range(now.items, min, max);
      page := if |selected| <= count then selected else selected[..count];
    }
  }

  ghost predicate Unfolds<V>(now: Stream<V>, future: seq<Stream<V>>)
    decreases |future|
  {
    future == [] || (Evolves(now, future[0]) && Unfolds(future[0], future[1..]))
  }

  // ---------------------------------------------------------------- pages

  /** A page holds items of the range in order; what it leaves out of the range lies behind its last item. */
  ghost predicate PageOf<V>(page: seq<Item<V>>, items: seq<Item<V>>, min: Id, max: Id) {
    && Ascending(page)
    && (forall it :: it in page ==> it in items && AtMost(min, it.id) && AtMost(it.id, max))
    && (forall it :: it in items && AtMost(min, it.id) && AtMost(it.id, max) ==>
          it in page || (page != [] && Before(page[|page| - 1].id, it.id)))
  }

  /** XRANGE keeps order and selects exactly the items within its bounds. */
  lemma RangeIsPage<V>(items: seq<Item<V>>, min: Id, max: Id)
    requires Ascending(items)
    ensures PageOf(Range(items, min, max), items, min, max)
  {
    RangeAscends(items, min, max);
    forall it ensures it in Range(items, min, max) <==> it in items && AtMost(min, it.id) && AtMost(it.id, max) {
      RangeMember(items, min, max, it);
    }
  }

  /** A count keeps the first of them. */
  lemma CutPage<V>(page: seq<Item<V>>, n: nat, items: seq<Item<V>>, min: Id, max: Id)
    requires PageOf(page, items, min, max) && 0 < n < |page|
    ensures PageOf(page[..n], items, min, max)
  {
    CutIsPrefix(page, n);
    assert Before(page[n - 1].id, page[|page| - 1].id);
  }

  lemma PrefixIsPage<V>(items: seq<Item<V>>, min: Id, max: Id, count: nat)
    requires Ascending(items) && count >= 1
    ensures var selected := Range(items, min, max);
            PageOf(if |selected| <= count then selected else selected[..count], items, min, max)
  {
    RangeIsPage(items, min, max);
    if |Range(items, min, max)| > count {
      CutPage(Range(items, min, max), count, items, min, max);
    }
  }

  lemma CutIsPrefix<V>(s: seq<Item<V>>, n: nat)
    requires Ascending(s) && 0 < n < |s|
    ensures Ascending(s[..n]) && (forall it :: it in s[..n] ==> it in s)
    ensures forall it :: it in s ==> it in s[..n] || Before(s[..n][n - 1].id, it.id)
  {
    forall it | it in s ensures it in s[..n] || Before(s[n - 1].id, it.id) {
      var i :| 0 <= i < |s| && s[i] == it;
      if i < n {
        assert s[..n][i] == it;
      }
    }
  }

  /** One XRANGE of a walk; `captured` is the stream at the walk's start. */
  method NextPage<V>(stream: RedisStream<V>, ghost captured: Stream<V>, cursor: Id, upper: Id, pageSize: nat)
    returns (page: seq<Item<V>>)
    requires stream.Valid() && pageSize >= 1 && Evolves(captured, stream.now)
    modifies stream
    ensures stream.Valid() && Evolves(captured, stream.now) && Evolves(old(stream.now), stream.now)
    ensures PageOf(page, stream.now.items, cursor, upper)
  {
    page := stream.XRange(cursor, upper, pageSize);
    EvolvesOn(captured, old(stream.now), stream.now);
    PrefixIsPage(stream.now.items, cursor, upper, pageSize);
  }

  lemma EvolvesOn<V>(a: Stream<V>, b: Stream<V>, c: Stream<V>)
    requires Evolves(a, b) && Evolves(b, c)
    ensures Evolves(a, c)
  {
  }

  /** The cursor after a page lies just behind its last item. */
  lemma CursorAdvances<V>(page: seq<Item<V>>, cursor: Id)
    requires Ascending(page) && page != [] && forall it :: it in page ==> AtMost(cursor, it.id)
    ensures var next := Increment(page[|page| - 1].id);
            && Before(cursor, next) && ValidId(next)
            && forall id :: ValidId(id) && Before(id, next) ==> AtMost(id, page[|page| - 1].id)
  {
    IncrementIsSuccessor(page[|page| - 1].id);
    assert page[|page| - 1] in page;
  }

  /** How far a cursor has to go. */
  function Distance(cursor: Id, upper: Id): nat {
    if upper.ms < cursor.ms then 0 else upper.ms - cursor.ms + 1
  }

  function Room(cursor: Id): nat {
    if cursor.sn < SEQ_LIMIT then SEQ_LIMIT - cursor.sn else 0
  }

  // ---------------------------------------------------------------- collecting all matches

  /** The walk has passed `cursor`: it found only ids of captured items, and every sought item that is still there
      below the cursor. */
  ghost predicate Collected<V>(captured: Stream<V>, now: Stream<V>, upper: Id, lower: Id, wanted: V -> bool, cursor: Id,
                               found: seq<Id>) {
    && AscendingIds(found)
    && (forall id :: id in found ==>
        Before(id, cursor) && exists it :: it in captured.items && it.id == id && Sought(it, lower, wanted))
    && (forall it :: it in now.items && AtMost(it.id, upper) && Before(it.id, cursor) && Sought(it, lower, wanted) ==>
        it.id in found)
  }

  /** Time alone does not undo it. */
  lemma CollectedStays<V>(captured: Stream<V>, a: Stream<V>, b: Stream<V>, upper: Id, lower: Id, wanted: V -> bool,
                          cursor: Id, found: seq<Id>)
    requires Collected(captured, a, upper, lower, wanted, cursor, found) && Evolves(a, b) && AtMost(upper, a.last)
    ensures Collected(captured, b, upper, lower, wanted, cursor, found)
  {
  }

  /** The matches of a page are sought ids of the captured stream between the old cursor and the new one. */
  lemma PageMatches<V>(captured: Stream<V>, now: Stream<V>, upper: Id, lower: Id, wanted: V -> bool, cursor: Id,
                       page: seq<Item<V>>)
    requires Evolves(captured, now) && AtMost(upper, captured.last) && PageOf(page, now.items, cursor, upper)
    requires page != []
    ensures forall id :: id in AllFrom(page, lower, wanted) ==>
              && AtMost(cursor, id) && Before(id, Increment(page[|page| - 1].id))
              && exists it :: it in captured.items && it.id == id && Sought(it, lower, wanted)
  {
    CursorAdvances(page, cursor);
    forall id | id in AllFrom(page, lower, wanted)
      ensures AtMost(cursor, id) && Before(id, Increment(page[|page| - 1].id))
      ensures exists it :: it in captured.items && it.id == id && Sought(it, lower, wanted)
    {
      AllFromIsComplete(page, lower, wanted, id);
      var it :| it in page && it.id == id && Sought(it, lower, wanted);
      LastIsGreatest(page, it);
      assert it in captured.items;
    }
  }

  /** A sought item below the new cursor was below the old one or is on the page. */
  lemma PageCovers<V>(now: Stream<V>, upper: Id, lower: Id, wanted: V -> bool, cursor: Id, page: seq<Item<V>>,
                      it: Item<V>)
    requires WellFormed(now) && PageOf(page, now.items, cursor, upper) && page != []
    requires it in now.items && AtMost(it.id, upper) && Before(it.id, Increment(page[|page| - 1].id))
    requires Sought(it, lower, wanted)
    ensures Before(it.id, cursor) || it.id in AllFrom(page, lower, wanted)
  {
    CursorAdvances(page, cursor);
    assert ValidId(it.id);
    if !Before(it.id, cursor) {
      assert it in page;
      AllFromIsComplete(page, lower, wanted, it.id);
    }
  }

  lemma AppendIds(a: seq<Id>, b: seq<Id>, cursor: Id)
    requires AscendingIds(a) && AscendingIds(b) && (forall id :: id in a ==> Before(id, cursor))
    requires (forall id :: id in b ==> AtMost(cursor, id))
    ensures AscendingIds(a + b)
  {
    forall i, j | 0 <= i < |a| && 0 <= j < |b| ensures Before(a[i], b[j]) {
      assert a[i] in a && b[j] in b;
    }
  }

  lemma PageCollected<V>(captured: Stream<V>, now: Stream<V>, upper: Id, lower: Id, wanted: V -> bool, cursor: Id,
                         found: seq<Id>, page: seq<Item<V>>)
    requires Collected(captured, now, upper, lower, wanted, cursor, found) && Evolves(captured, now)
    requires AtMost(upper, captured.last)
    requires PageOf(page, now.items, cursor, upper) && page != []
    ensures Collected(captured, now, upper, lower, wanted, Increment(page[|page| - 1].id),
        found + AllFrom(page, lower, wanted))
  {
    var more, next := AllFrom(page, lower, wanted), Increment(page[|page| - 1].id);
    PageMatches(captured, now, upper, lower, wanted, cursor, page);
    CursorAdvances(page, cursor);
    AllFromAscends(page, lower, wanted);
    AppendIds(found, more, cursor);
    forall it | it in now.items && AtMost(it.id, upper) && Before(it.id, next) && Sought(it, lower, wanted)
        ensures it.id in found + more {
      PageCovers(now, upper, lower, wanted, cursor, page, it);
    }
  }

  lemma LastIsGreatest<V>(page: seq<Item<V>>, it: Item<V>)
    requires Ascending(page) && it in page
    ensures AtMost(it.id, page[|page| - 1].id)
  {
    var i :| 0 <= i < |page| && page[i] == it;
  }

  /** What a finished walk gives: sought ids of the captured stream, among them every one that is still there. */
  ghost predicate FoundAll<V>(captured: Stream<V>, now: Stream<V>, upper: Id, lower: Id, wanted: V -> bool,
                              found: seq<Id>) {
    && AscendingIds(found)
    && (forall id :: id in found ==> id in AllFrom(captured.items, lower, wanted))
    && (forall it :: it in now.items && AtMost(it.id, upper) && Sought(it, lower, wanted) ==> it.id in found)
  }

  lemma CollectingEnds<V>(captured: Stream<V>, now: Stream<V>, upper: Id, lower: Id, wanted: V -> bool, cursor: Id,
                          found: seq<Id>)
    requires Collected(captured, now, upper, lower, wanted, cursor, found)
    requires forall it :: it in now.items && AtMost(cursor, it.id) ==> !AtMost(it.id, upper)
    ensures FoundAll(captured, now, upper, lower, wanted, found)
  {
    forall id | id in found ensures id in AllFrom(captured.items, lower, wanted) {
      AllFromIsComplete(captured.items, lower, wanted, id);
    }
  }

  /** When nothing the walk looked at was deleted meanwhile, the answer is that of one full scan. */
  lemma FoundAllIsFullScan<V>(captured: Stream<V>, now: Stream<V>, upper: Id, lower: Id, wanted: V -> bool,
                              found: seq<Id>)
    requires WellFormed(captured) && FoundAll(captured, now, upper, lower, wanted, found)
    requires forall it :: it in captured.items ==> it in now.items && AtMost(it.id, upper)
    ensures found == AllFrom(captured.items, lower, wanted)
  {
    AllFromAscends(captured.items, lower, wanted);
    forall id | id in AllFrom(captured.items, lower, wanted) ensures id in found {
      AllFromIsComplete(captured.items, lower, wanted, id);
    }
    SameIdsSameList(found, AllFrom(captured.items, lower, wanted));
  }

  /** The greatest id of the captured stream, or 0-0. */
  function Tail<V>(s: Stream<V>): Id {
    if s.items == [] then ZERO else s.items[|s.items| - 1].id
  }

  lemma TailIsGreatest<V>(s: Stream<V>)
    requires WellFormed(s)
    ensures AtMost(Tail(s), s.last) && forall it :: it in s.items ==> AtMost(it.id, Tail(s))
  {
    forall it | it in s.items ensures AtMost(it.id, Tail(s)) {
      LastIsGreatest(s.items, it);
    }
  }

  /** The walk of `_reconcile_unindexed_xadd` over the stream as captured at its start. */
  method FindAll<V>(stream: RedisStream<V>, lower: Id, wanted: V -> bool, pageSize: nat)
    returns (found: seq<Id>, ghost captured: Stream<V>)
    requires stream.Valid() && pageSize >= 1
    modifies stream
    ensures stream.Valid() && Evolves(old(stream.now), captured) && Evolves(captured, stream.now)
    ensures FoundAll(captured, stream.now, Tail(captured), lower, wanted, found)
  {
    found := [];
    var last := stream.LastEntry();
    captured := stream.now;
    TailIsGreatest(captured);
    if last.None? {
      return;
    }
    var upper, cursor := last.value, lower;
    while Compare(cursor, upper) <= 0
      invariant stream.Valid() && Evolves(captured, stream.now) && AtMost(lower, cursor)
      invariant Collected(captured, stream.now, upper, lower, wanted, cursor, found)
      decreases Distance(cursor, upper), Room(cursor)
    {
      ghost var before := stream.now;
      var page := NextPage(stream, captured, cursor, upper, pageSize);
      CollectedStays(captured, before, stream.now, upper, lower, wanted, cursor, found);
      if page == [] {
        break;
      }
      CursorAdvances(page, cursor);
      PageCollected(captured, stream.now, upper, lower, wanted, cursor, found, page);
      found, cursor := found + AllFrom(page, lower, wanted), Increment(page[|page| - 1].id);
    }
    CollectingEnds(captured, stream.now, upper, lower, wanted, cursor, found);
  }

  // ---------------------------------------------------------------- finding the first match

  /** The walk has passed `cursor` without a match that is still there. */
  ghost predicate NoneBelow<V>(now: Stream<V>, upper: Id, lower: Id, wanted: V -> bool, cursor: Id) {
    forall it :: it in now.items && AtMost(it.id, upper) && Before(it.id, cursor) ==> !Sought(it, lower, wanted)
  }

  lemma NoneBelowStays<V>(a: Stream<V>, b: Stream<V>, upper: Id, lower: Id, wanted: V -> bool, cursor: Id)
    requires NoneBelow(a, upper, lower, wanted, cursor) && Evolves(a, b) && AtMost(upper, a.last)
    ensures NoneBelow(b, upper, lower, wanted, cursor)
  {
  }

  /** Past the upper bound, or with nothing left up to it, the walk has its answer. */
  lemma NoneLeft<V>(captured: Stream<V>, now: Stream<V>, upper: Id, lower: Id, wanted: V -> bool, cursor: Id)
    requires NoneBelow(now, upper, lower, wanted, cursor)
    requires Before(upper, cursor) || PageOf([], now.items, cursor, upper)
    ensures FoundFirst(captured, now, upper, lower, wanted, None)
  {
  }

  lemma PagePassed<V>(now: Stream<V>, upper: Id, lower: Id, wanted: V -> bool, cursor: Id, page: seq<Item<V>>)
    requires WellFormed(now) && NoneBelow(now, upper, lower, wanted, cursor) && PageOf(page, now.items, cursor, upper)
    requires page != []
    requires forall it :: it in page ==> !wanted(it.value)
    ensures NoneBelow(now, upper, lower, wanted, Increment(page[|page| - 1].id))
  {
    CursorAdvances(page, cursor);
    forall it | it in now.items && AtMost(it.id, upper) && Before(it.id, Increment(page[|page| - 1].id))
        ensures !Sought(it, lower, wanted) {
      assert ValidId(it.id);
    }
  }

  /** The answer of a finished walk: a sought id of the captured stream below which no sought entry is left, or no
      sought entry left at all. */
  ghost predicate FoundFirst<V>(captured: Stream<V>, now: Stream<V>, upper: Id, lower: Id, wanted: V -> bool,
                                found: Option<Id>) {
    match found
    case None => forall it :: it in now.items && AtMost(it.id, upper) ==> !Sought(it, lower, wanted)
    case Some(id) =>
      && id in AllFrom(captured.items, lower, wanted)
      && forall it :: it in now.items && AtMost(it.id, upper) && Sought(it, lower, wanted) ==> AtMost(id, it.id)
  }

  lemma HitIsFirst<V>(captured: Stream<V>, now: Stream<V>, upper: Id, lower: Id, wanted: V -> bool, cursor: Id,
                      page: seq<Item<V>>, hit: nat)
    requires Evolves(captured, now) && AtMost(upper, captured.last) && AtMost(lower, cursor)
    requires NoneBelow(now, upper, lower, wanted, cursor) && PageOf(page, now.items, cursor, upper)
    requires hit < |page| && wanted(page[hit].value) && forall j :: 0 <= j < hit ==> !wanted(page[j].value)
    ensures FoundFirst(captured, now, upper, lower, wanted, Some(page[hit].id))
  {
    assert page[hit] in page && page[hit] in captured.items;
    AllFromIsComplete(captured.items, lower, wanted, page[hit].id);
    forall it | it in now.items && AtMost(it.id, upper) && Sought(it, lower, wanted)
        ensures AtMost(page[hit].id, it.id) {
      if it in page {
        var j :| 0 <= j < |page| && page[j] == it;
      } else {
        LastIsGreatest(page, page[hit]);
      }
    }
  }

  /** When nothing the walk looked at was deleted meanwhile, the answer is the first match of one full scan. */
  lemma FoundFirstIsFullScan<V>(captured: Stream<V>, now: Stream<V>, upper: Id, lower: Id, wanted: V -> bool,
                                found: Option<Id>)
    requires WellFormed(captured) && FoundFirst(captured, now, upper, lower, wanted, found)
    requires forall it :: it in captured.items ==> it in now.items && AtMost(it.id, upper)
    ensures found == FirstFrom(captured.items, lower, wanted)
  {
    FirstFromIsLeast(captured.items, lower, wanted);
    if found.Some? {
      AllFromIsComplete(captured.items, lower, wanted, found.value);
    }
  }

  method FirstInPage<V>(page: seq<Item<V>>, wanted: V -> bool) returns (hit: nat)
    ensures hit <= |page|
    ensures forall j :: 0 <= j < hit ==> !wanted(page[j].value)
    ensures hit < |page| ==> wanted(page[hit].value)
  {
    hit := 0;
    while hit < |page| && !wanted(page[hit].value)
      invariant hit <= |page|
      invariant forall j :: 0 <= j < hit ==> !wanted(page[j].value)
    {
      hit := hit + 1;
    }
  }

  /** `find_orphan_in_deadletter_stream`, for every page size and whatever happens to the stream meanwhile. */
  method FindOrphan<V>(stream: RedisStream<V>, lower: Id, wanted: V -> bool, pageSize: nat)
    returns (found: Option<Id>, ghost captured: Stream<V>)
    requires stream.Valid() && pageSize >= 1
    modifies stream
    ensures stream.Valid() && Evolves(old(stream.now), captured) && Evolves(captured, stream.now)
    ensures FoundFirst(captured, stream.now, Tail(captured), lower, wanted, found)
  {
    var last := stream.LastEntry();
    captured := stream.now;
    TailIsGreatest(captured);
    if last.None? {
      return None, captured;
    }
    var upper, cursor := last.value, lower;
    assert upper != ZERO;  // no entry has the id 0-0, so the guard on it never fires
    while true
      invariant stream.Valid() && Evolves(captured, stream.now) && AtMost(lower, cursor)
      invariant NoneBelow(stream.now, upper, lower, wanted, cursor)
      decreases Distance(cursor, upper), Room(cursor)
    {
      ghost var before := stream.now;
      var page := NextPage(stream, captured, cursor, upper, pageSize);
      NoneBelowStays(before, stream.now, upper, lower, wanted, cursor);
      if page == [] {
        NoneLeft(captured, stream.now, upper, lower, wanted, cursor);
        return None, captured;
      }
      var hit := FirstInPage(page, wanted);
      if hit < |page| {
        HitIsFirst(captured, stream.now, upper, lower, wanted, cursor, page, hit);
        return Some(page[hit].id), captured;
      }
      PagePassed(stream.now, upper, lower, wanted, cursor, page);
      CursorAdvances(page, cursor);
      cursor := Increment(page[|page| - 1].id);
      if Compare(cursor, upper) > 0 {
        NoneLeft(captured, stream.now, upper, lower, wanted, cursor);
        return None, captured;
      }
    }
  }
}
