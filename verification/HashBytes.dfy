/** The byte strings behind `ObservationIn.payload_hash` and `_compute_batch_hash`. */
module HashBytes {
  import opened Options
  import opened Sorting

  type Byte = x: int | 0 <= x < 256
  type Bytes = seq<Byte>

  const TWO_TO_32 := 0x1_0000_0000
  const TWO_TO_64 := 0x1_0000_0000_0000_0000

  /** `aslan-core/observation/v1` and a zero byte. */
  const DOMAIN: Bytes := [97, 115, 108, 97, 110, 45, 99, 111, 114, 101, 47, 111, 98, 115, 101, 114, 118, 97, 116, 105,
                          111, 110, 47, 118, 49, 0]

  /** The bit pattern of a binary64. */
  type Bits = n: int | 0 <= n < 0x1_0000_0000_0000_0000

  /** A payload: the 64 bits of the value, the NFC-normalised UTF-8 of the text, the flag and the canonical metadata. */
  datatype Payload = Payload(value: Option<Bits>, text: Option<Bytes>, flag: int, metadata: Bytes)

  // ---------------------------------------------------------------- numbers and blocks

  function Power(k: nat): nat {
    if k == 0 then 1 else 256 * Power(k - 1)
  }

  /** `k` bytes, big-endian. */
  function BigEndian(n: nat, k: nat): (r: Bytes)
    ensures |r| == k
  {
    if k == 0 then [] else BigEndian(n / 256, k - 1) + [n % 256]
  }

  function Number(bytes: Bytes): nat {
    if bytes == [] then 0 else 256 * Number(bytes[..|bytes| - 1]) + bytes[|bytes| - 1]
  }

  lemma {:induction false} NumberOfBigEndian(n: nat, k: nat)
    requires n < Power(k)
    ensures Number(BigEndian(n, k)) == n
  {
    if k > 0 {
      NumberOfBigEndian(n / 256, k - 1);
      assert BigEndian(n, k)[..k - 1] == BigEndian(n / 256, k - 1);
    }
  }

  lemma {:induction false} BigEndianOfNumber(bytes: Bytes)
    ensures Number(bytes) < Power(|bytes|) && BigEndian(Number(bytes), |bytes|) == bytes
  {
    if bytes != [] {
      BigEndianOfNumber(bytes[..|bytes| - 1]);
    }
  }

  lemma Powers()
    ensures Power(4) == TWO_TO_32 && Power(8) == TWO_TO_64
  {
    assert Power(2) == 256 * 256;
    assert Power(4) == 256 * (256 * Power(2));
    assert Power(6) == 256 * (256 * Power(4));
  }

  /** A four-byte length and the bytes. */
  function Block(b: Bytes): Bytes {
    BigEndian(|b|, 4) + b
  }

  /** Reading a block back: its bytes and what follows. */
  function TakeBlock(input: Bytes): Option<(Bytes, Bytes)> {
    if |input| < 4 || |input| - 4 < Number(input[..4]) then None
    else Some((input[4..4 + Number(input[..4])], input[4 + Number(input[..4])..]))
  }

  lemma BlockReadsBack(b: Bytes, rest: Bytes)
    requires |b| < TWO_TO_32
    ensures TakeBlock(Block(b) + rest) == Some((b, rest))
  {
    Powers();
    NumberOfBigEndian(|b|, 4);
    var input := Block(b) + rest;
    assert input[..4] == BigEndian(|b|, 4);
  }

  lemma OnlyBlocksRead(input: Bytes)
    requires TakeBlock(input).Some?
    ensures var (b, rest) := TakeBlock(input).value; |b| < TWO_TO_32 && input == Block(b) + rest
  {
    Powers();
    BigEndianOfNumber(input[..4]);
  }

  // ---------------------------------------------------------------- the payload encoding

  function ValueBytes(value: Option<Bits>): Bytes {
    match value
    case Some(bits) => [86] + BigEndian(bits, 8)
    case None => [118]
  }

  function TextBytes(text: Option<Bytes>): Bytes {
    match text
    case Some(t) => [84] + Block(t)
    case None => [116]
  }

  /** Two's complement in four bytes. */
  function FlagBytes(flag: int): Bytes
    requires -TWO_TO_32 <= 2 * flag < TWO_TO_32
  {
    [81] + BigEndian(if flag < 0 then flag + TWO_TO_32 else flag, 4)
  }

  /** What fits the fixed-width fields; anything else raises. */
  predicate Fits(p: Payload) {
    && (p.text.Some? ==> |p.text.value| < TWO_TO_32)
    && -TWO_TO_32 <= 2 * p.flag < TWO_TO_32
    && |p.metadata| < TWO_TO_32
  }

  function PayloadBytes(p: Payload): Bytes
    requires Fits(p)
  {
    DOMAIN + (ValueBytes(p.value) + (TextBytes(p.text) + (FlagBytes(p.flag) + ([77] + Block(p.metadata)))))
  }

  function TakeValue(input: Bytes): Option<(Option<Bits>, Bytes)> {
    if input == [] then None
    else if input[0] == 86 && |input| >= 9 then
      Powers();
      BigEndianOfNumber(input[1..9]);
      Some((Some(Number(input[1..9])), input[9..]))
    else if input[0] == 118 then Some((None, input[1..]))
    else None
  }

  function TakeText(input: Bytes): Option<(Option<Bytes>, Bytes)> {
    if input == [] then None
    else if input[0] == 84 && TakeBlock(input[1..]).Some? then
      var (t, rest) := TakeBlock(input[1..]).value;
      Some((Some(t), rest))
    else if input[0] == 116 then Some((None, input[1..]))
    else None
  }

  function TakeFlag(input: Bytes): Option<(int, Bytes)> {
    if |input| < 5 || input[0] != 81 then None
    else
      var n := Number(input[1..5]);
      Some((if 2 * n < TWO_TO_32 then n else n - TWO_TO_32, input[5..]))
  }

  function TakeMetadata(input: Bytes): Option<Bytes> {
    if input == [] || input[0] != 77 || TakeBlock(input[1..]).None? then None
    else
      var (b, rest) := TakeBlock(input[1..]).value;
      if rest == [] then Some(b) else None
  }

  /** The reader of payload encodings. */
  function DecodePayload(input: Bytes): Option<Payload> {
    if !(DOMAIN <= input) then None
    else
      var v := TakeValue(input[|DOMAIN|..]);
      if v.None? then None
      else
        var t := TakeText(v.value.1);
        if t.None? then None
        else
          var q := TakeFlag(t.value.1);
          if q.None? then None
          else
            var m := TakeMetadata(q.value.1);
            if m.None? then None else Some(Payload(v.value.0, t.value.0, q.value.0, m.value))
  }

  lemma ValueReadsBack(value: Option<Bits>, rest: Bytes)
    ensures TakeValue(ValueBytes(value) + rest) == Some((value, rest))
  {
    Powers();
    var input := ValueBytes(value) + rest;
    if value.Some? {
      NumberOfBigEndian(value.value, 8);
      assert input[1..9] == BigEndian(value.value, 8);
    }
  }

  lemma OnlyValuesRead(input: Bytes)
    requires TakeValue(input).Some?
    ensures var (v, rest) := TakeValue(input).value; input == ValueBytes(v) + rest
  {
    Powers();
    if input[0] == 86 && |input| >= 9 {
      BigEndianOfNumber(input[1..9]);
    }
  }

  lemma TextReadsBack(text: Option<Bytes>, rest: Bytes)
    requires text.Some? ==> |text.value| < TWO_TO_32
    ensures TakeText(TextBytes(text) + rest) == Some((text, rest))
  {
    var input := TextBytes(text) + rest;
    if text.Some? {
      var tail := Block(text.value) + rest;
      BlockReadsBack(text.value, rest);
      Assoc([84], Block(text.value), rest);
      assert input[0] == 84 && input[1..] == tail;
      assert TakeBlock(input[1..]) == Some((text.value, rest));
    } else {
      assert input[0] == 116 && input[1..] == rest;
    }
  }

  lemma OnlyTextsRead(input: Bytes)
    requires TakeText(input).Some?
    ensures var (t, rest) := TakeText(input).value; (t.Some? ==> |t.value| < TWO_TO_32) && input == TextBytes(t) + rest
  {
    if input[0] == 84 && TakeBlock(input[1..]).Some? {
      OnlyBlocksRead(input[1..]);
    }
  }

  lemma FlagReadsBack(flag: int, rest: Bytes)
    requires -TWO_TO_32 <= 2 * flag < TWO_TO_32
    ensures TakeFlag(FlagBytes(flag) + rest) == Some((flag, rest))
  {
    Powers();
    var n := if flag < 0 then flag + TWO_TO_32 else flag;
    NumberOfBigEndian(n, 4);
    var input := FlagBytes(flag) + rest;
    assert input[1..5] == BigEndian(n, 4);
  }

  lemma OnlyFlagsRead(input: Bytes)
    requires TakeFlag(input).Some?
    ensures var (flag, rest) := TakeFlag(input).value;
            && -TWO_TO_32 <= 2 * flag < TWO_TO_32
            && input == FlagBytes(flag) + rest
  {
    Powers();
    BigEndianOfNumber(input[1..5]);
  }

  /** The encoding reads back: it determines the value bits, the text, the flag and the metadata bytes. */
  lemma PayloadReadsBack(p: Payload)
    requires Fits(p)
    ensures DecodePayload(PayloadBytes(p)) == Some(p)
  {
    var m := [77] + Block(p.metadata);
    var q := FlagBytes(p.flag) + m;
    var t := TextBytes(p.text) + q;
    var v := ValueBytes(p.value) + t;
    assert PayloadBytes(p)[|DOMAIN|..] == v;
    ValueReadsBack(p.value, t);
    TextReadsBack(p.text, q);
    FlagReadsBack(p.flag, m);
    assert m[1..] == Block(p.metadata) + [];
    BlockReadsBack(p.metadata, []);
  }

  lemma OnlyTailsRead(input: Bytes)
    requires TakeFlag(input).Some? && TakeMetadata(TakeFlag(input).value.1).Some?
    ensures var (flag, rest) := TakeFlag(input).value;
            var m := TakeMetadata(rest).value;
            -TWO_TO_32 <= 2 * flag < TWO_TO_32 && |m| < TWO_TO_32 && input == FlagBytes(flag) + ([77] + Block(m))
  {
    OnlyFlagsRead(input);
    var rest := TakeFlag(input).value.1;
    OnlyBlocksRead(rest[1..]);
    var m := TakeMetadata(rest).value;
    assert rest == [77] + rest[1..];
    assert Block(m) + [] == Block(m);
  }

  /** And nothing else reads: every byte string the reader takes is the encoding of what it returns. */
  lemma OnlyPayloadsRead(input: Bytes)
    requires DecodePayload(input).Some?
    ensures Fits(DecodePayload(input).value) && PayloadBytes(DecodePayload(input).value) == input
  {
    var v := input[|DOMAIN|..];
    OnlyValuesRead(v);
    var t := TakeValue(v).value.1;
    OnlyTextsRead(t);
    var q := TakeText(t).value.1;
    OnlyTailsRead(q);
    assert input == DOMAIN + v;
  }

  // ---------------------------------------------------------------- the batch encoding

  /** A timezone-aware time: the instant, which orders it, and the offset it is written with. */
  datatype Time = Time(instant: int, offset: int)
  datatype Row = Row(ts: Time, asOf: Time, hash: Bytes)

  /** Sort key `(ts, as_of)`. */
  predicate RowLeq(a: Row, b: Row) {
    a.ts.instant < b.ts.instant || (a.ts.instant == b.ts.instant && a.asOf.instant <= b.asOf.instant)
  }

  function RowBytes(iso: Time -> Bytes, r: Row): Bytes {
    Block(iso(r.ts)) + (Block(iso(r.asOf)) + Block(r.hash))
  }

  function RowsBytes(iso: Time -> Bytes, rows: seq<Row>): Bytes {
    if rows == [] then [] else RowsBytes(iso, rows[..|rows| - 1]) + RowBytes(iso, rows[|rows| - 1])
  }

  predicate RowFits(iso: Time -> Bytes, r: Row) {
    |iso(r.ts)| < TWO_TO_32 && |iso(r.asOf)| < TWO_TO_32 && |r.hash| < TWO_TO_32
  }

  predicate BatchFits(iso: Time -> Bytes, series: int, rows: seq<Row>) {
    0 <= series < TWO_TO_64 && forall r :: r in rows ==> RowFits(iso, r)
  }

  function BatchBytes(iso: Time -> Bytes, series: int, rows: seq<Row>): Bytes
    requires series >= 0
  {
    BigEndian(series, 8) + RowsBytes(iso, SortBy(RowLeq, rows))
  }

  predicate SameKey(a: Row, b: Row) {
    a.ts.instant == b.ts.instant && a.asOf.instant == b.asOf.instant
  }

  /** Deduplicated rows: no two different ones at one `(ts, as_of)`. */
  ghost predicate OneRowPerKey(rows: seq<Row>) {
    forall a, b :: a in rows && b in rows && SameKey(a, b) ==> a == b
  }

  lemma {:induction false} RowsConcat(iso: Time -> Bytes, a: seq<Row>, b: seq<Row>)
    ensures RowsBytes(iso, a + b) == RowsBytes(iso, a) + RowsBytes(iso, b)
  {
    if b == [] {
      assert a + b == a;
    } else {
      var init, z := b[..|b| - 1], b[|b| - 1];
      assert (a + b)[..|a + b| - 1] == a + init && (a + b)[|a + b| - 1] == z;
      RowsConcat(iso, a, init);
      Assoc(RowsBytes(iso, a), RowsBytes(iso, init), RowBytes(iso, z));
    }
  }

  lemma Assoc(a: Bytes, b: Bytes, c: Bytes)
    ensures (a + b) + c == a + (b + c)
  {
  }

  lemma RowsHead(iso: Time -> Bytes, rows: seq<Row>)
    requires rows != []
    ensures RowsBytes(iso, rows) == RowBytes(iso, rows[0]) + RowsBytes(iso, rows[1..])
  {
    assert rows == [rows[0]] + rows[1..];
    RowsConcat(iso, [rows[0]], rows[1..]);
    assert [rows[0]][..0] == [];
    assert RowsBytes(iso, [rows[0]]) == RowsBytes(iso, []) + RowBytes(iso, rows[0]);
  }

  /** One row read off the front is that row, and the rest is the rest. */
  lemma RowReadsBack(iso: Time -> Bytes, r: Row, rest: Bytes)
    requires RowFits(iso, r)
    ensures var a := TakeBlock(RowBytes(iso, r) + rest);
            && a.Some? && a.value.0 == iso(r.ts)
            && var b := TakeBlock(a.value.1);
            && b.Some? && b.value.0 == iso(r.asOf)
            && TakeBlock(b.value.1) == Some((r.hash, rest))
  {
    var c := Block(r.hash) + rest;
    var b := Block(iso(r.asOf)) + c;
    assert RowBytes(iso, r) + rest == Block(iso(r.ts)) + b;
    BlockReadsBack(iso(r.ts), b);
    BlockReadsBack(iso(r.asOf), c);
    BlockReadsBack(r.hash, rest);
  }

  ghost predicate Injective(iso: Time -> Bytes) {
    forall s, t :: iso(s) == iso(t) ==> s == t
  }

  /** Equal streams of two rows and what follows: equal rows, equal rests. */
  lemma HeadRowsEqual(iso: Time -> Bytes, a: Row, restA: Bytes, b: Row, restB: Bytes)
    requires Injective(iso) && RowFits(iso, a) && RowFits(iso, b)
    requires RowBytes(iso, a) + restA == RowBytes(iso, b) + restB
    ensures a == b && restA == restB
  {
    RowReadsBack(iso, a, restA);
    RowReadsBack(iso, b, restB);
  }

  lemma RowsNonEmpty(iso: Time -> Bytes, a: seq<Row>)
    requires a != []
    ensures RowsBytes(iso, a) != []
  {
    assert |RowBytes(iso, a[|a| - 1])| >= 4;
  }

  /** The row stream determines the rows. */
  lemma {:induction false} RowsDetermined(iso: Time -> Bytes, a: seq<Row>, b: seq<Row>)
    requires Injective(iso) && (forall r :: r in a || r in b ==> RowFits(iso, r))
    requires RowsBytes(iso, a) == RowsBytes(iso, b)
    ensures a == b
    decreases |a|
  {
    if a != [] {
      RowsNonEmpty(iso, a);
    }
    if b != [] {
      RowsNonEmpty(iso, b);
    }
    if a != [] {
      FirstRowsEqual(iso, a, b);
      RowsDetermined(iso, a[1..], b[1..]);
      assert a == [a[0]] + a[1..] && b == [b[0]] + b[1..];
    }
  }

  lemma FirstRowsEqual(iso: Time -> Bytes, a: seq<Row>, b: seq<Row>)
    requires Injective(iso) && a != [] && b != [] && RowFits(iso, a[0]) && RowFits(iso, b[0])
    requires RowsBytes(iso, a) == RowsBytes(iso, b)
    ensures a[0] == b[0] && RowsBytes(iso, a[1..]) == RowsBytes(iso, b[1..])
  {
    RowsHead(iso, a);
    RowsHead(iso, b);
    HeadRowsEqual(iso, a[0], RowsBytes(iso, a[1..]), b[0], RowsBytes(iso, b[1..]));
  }

  /** Two sorted lists of the same rows start alike. */
  lemma HeadsAgree(a: seq<Row>, b: seq<Row>)
    requires (forall r :: r in a <==> r in b) && Sorted(RowLeq, a) && Sorted(RowLeq, b) && OneRowPerKey(a) && a != []
    ensures b != [] && a[0] == b[0]
  {
    assert a[0] in b;
    var i :| 0 <= i < |b| && b[i] == a[0];
    assert b[0] in a;
    var j :| 0 <= j < |a| && a[j] == b[0];
    assert i > 0 ==> RowLeq(b[0], b[i]);
    assert j > 0 ==> RowLeq(a[0], a[j]);
    assert SameKey(a[0], b[0]);
  }

  lemma DropHeads(a: seq<Row>, b: seq<Row>)
    requires multiset(a) == multiset(b) && a != [] && b != [] && a[0] == b[0]
    ensures multiset(a[1..]) == multiset(b[1..])
  {
    assert a == [a[0]] + a[1..] && b == [b[0]] + b[1..];
    assert multiset(a[1..]) == multiset(a) - multiset{a[0]};
    assert multiset(b[1..]) == multiset(b) - multiset{a[0]};
  }

  /** Two sorted lists of the same rows, one per key, are one list. */
  lemma {:induction false} SortedIsUnique(a: seq<Row>, b: seq<Row>)
    requires multiset(a) == multiset(b) && Sorted(RowLeq, a) && Sorted(RowLeq, b) && OneRowPerKey(a)
    ensures a == b
    decreases |a|
  {
    assert |a| == |multiset(a)| == |b|;
    if a != [] {
      SameRows(a, b);
      HeadsAgree(a, b);
      DropHeads(a, b);
      SortedIsUnique(a[1..], b[1..]);
      assert a == [a[0]] + a[1..] && b == [b[0]] + b[1..];
    }
  }

  /** The batch encoding of deduplicated rows is equal if and only if the series and the set of rows are: input
      order does not show, and everything else does. */
  lemma BatchDetermined(iso: Time -> Bytes, s1: int, a: seq<Row>, s2: int, b: seq<Row>)
    requires Injective(iso) && BatchFits(iso, s1, a) && BatchFits(iso, s2, b) && OneRowPerKey(a)
    ensures BatchBytes(iso, s1, a) == BatchBytes(iso, s2, b) <==> s1 == s2 && multiset(a) == multiset(b)
  {
    var sa, sb := SortBy(RowLeq, a), SortBy(RowLeq, b);
    assert TotalOrder(RowLeq);
    SortFacts(RowLeq, a);
    SortFacts(RowLeq, b);
    SameRows(a, sa);
    SameRows(b, sb);
    if multiset(a) == multiset(b) {
      SortedIsUnique(sa, sb);
    }
    if BatchBytes(iso, s1, a) == BatchBytes(iso, s2, b) {
      assert BatchBytes(iso, s1, a)[..8] == BigEndian(s1, 8) && BatchBytes(iso, s2, b)[..8] == BigEndian(s2, 8);
      assert BatchBytes(iso, s1, a)[8..] == RowsBytes(iso, sa) && BatchBytes(iso, s2, b)[8..] == RowsBytes(iso, sb);
      Powers();
      NumberOfBigEndian(s1, 8);
      NumberOfBigEndian(s2, 8);
      RowsDetermined(iso, sa, sb);
    }
  }

  /** The rows are encoded in ascending order of `ts`, and of `as_of` where the `ts` are the same instant. */
  lemma BatchInOrder(iso: Time -> Bytes, series: nat, rows: seq<Row>) returns (sorted: seq<Row>)
    ensures multiset(sorted) == multiset(rows)
    ensures forall i, j :: 0 <= i < j < |sorted| ==>
        || sorted[i].ts.instant < sorted[j].ts.instant
        || (sorted[i].ts.instant == sorted[j].ts.instant && sorted[i].asOf.instant <= sorted[j].asOf.instant)
    ensures BatchBytes(iso, series, rows) == BigEndian(series, 8) + RowsBytes(iso, sorted)
  {
    assert TotalOrder(RowLeq);
    SortFacts(RowLeq, rows);
    sorted := SortBy(RowLeq, rows);
  }

  lemma SameRows(a: seq<Row>, b: seq<Row>)
    requires multiset(a) == multiset(b)
    ensures forall r :: r in a <==> r in b
  {
    assert forall r :: r in a <==> r in multiset(a);
  }

  /** Exchanging the payload hashes of two keys changes the bytes, unless the hashes are equal. */
  lemma SwapShows(iso: Time -> Bytes, series: int, rows: seq<Row>, i: nat, j: nat)
    requires Injective(iso) && BatchFits(iso, series, rows) && OneRowPerKey(rows) && i < j < |rows|
    requires rows[i].hash != rows[j].hash
    ensures BatchBytes(iso, series, Swapped(rows, i, j)) != BatchBytes(iso, series, rows)
  {
    var other := Swapped(rows, i, j);
    var r := rows[i].(hash := rows[j].hash);
    assert other[i] == r && rows[i] in rows && rows[j] in rows && SameKey(r, rows[i]);
    assert r in multiset(other) && r !in multiset(rows);
    assert BatchFits(iso, series, other) by {
      forall x | x in other ensures RowFits(iso, x) {
        var k :| 0 <= k < |other| && other[k] == x;
        assert rows[k] in rows;
      }
    }
    BatchDetermined(iso, series, rows, series, other);
  }

  function Swapped(rows: seq<Row>, i: nat, j: nat): seq<Row>
    requires i < j < |rows|
  {
    rows[i := rows[i].(hash := rows[j].hash)][j := rows[j].(hash := rows[i].hash)]
  }

  // ---------------------------------------------------------------- the hashers

  /** An incremental hash object: what it was fed. */
  class Hasher {
    var fed: Bytes

    constructor ()
      ensures fed == []
    {
      fed := [];
    }

    method Update(b: Bytes)
      modifies this
      ensures fed == old(fed) + b
    {
      fed := fed + b;
    }

    /** A length and the bytes; a length that does not fit raises. */
    method UpdateBlock(b: Bytes) returns (ok: bool)
      modifies this
      ensures ok <==> |b| < TWO_TO_32
      ensures ok ==> fed == old(fed) + Block(b)
    {
      ok := |b| < TWO_TO_32;
      if ok {
        Update(BigEndian(|b|, 4));
        Update(b);
        assert fed == old(fed) + BigEndian(|b|, 4) + b;
      }
    }

    method UpdateValue(value: Option<Bits>)
      modifies this
      ensures fed == old(fed) + ValueBytes(value)
    {
      if value.Some? {
        Update([86]);
        Update(BigEndian(value.value, 8));
        assert fed == old(fed) + [86] + BigEndian(value.value, 8);
      } else {
        Update([118]);
      }
    }

    method UpdateText(text: Option<Bytes>) returns (ok: bool)
      modifies this
      ensures ok <==> text.None? || |text.value| < TWO_TO_32
      ensures ok ==> fed == old(fed) + TextBytes(text)
    {
      ok := true;
      if text.Some? {
        Update([84]);
        ok := UpdateBlock(text.value);
        assert ok ==> fed == old(fed) + [84] + Block(text.value);
      } else {
        Update([116]);
      }
    }

    /** `to_bytes(4, "big", signed=True)`. */
    method UpdateFlag(flag: int) returns (ok: bool)
      modifies this
      ensures ok <==> -TWO_TO_32 <= 2 * flag < TWO_TO_32
      ensures ok ==> fed == old(fed) + FlagBytes(flag)
    {
      ok := -TWO_TO_32 <= 2 * flag < TWO_TO_32;
      Update([81]);
      if ok {
        var bytes := BigEndian(if flag < 0 then flag + TWO_TO_32 else flag, 4);
        Update(bytes);
        assert fed == old(fed) + [81] + bytes;
      }
    }
  }

  /** `payload_hash`, up to the digest function; a field too large for its width raises. */
  method PayloadHash(digest: Bytes -> string, p: Payload) returns (hex: Option<string>)
    ensures hex == if Fits(p) then Some(digest(PayloadBytes(p))) else None
  {
    var h := new Hasher();
    h.Update(DOMAIN);
    assert h.fed == DOMAIN;
    h.UpdateValue(p.value);
    var ok := h.UpdateText(p.text);
    if !ok {
      return None;
    }
    ok := h.UpdateFlag(p.flag);
    if !ok {
      return None;
    }
    h.Update([77]);
    ok := h.UpdateBlock(p.metadata);
    if !ok {
      return None;
    }
    Regroup(DOMAIN, ValueBytes(p.value), TextBytes(p.text), FlagBytes(p.flag), [77], Block(p.metadata));
    assert h.fed == PayloadBytes(p);
    hex := Some(digest(h.fed));
  }

  lemma Regroup(a: Bytes, b: Bytes, c: Bytes, d: Bytes, e: Bytes, f: Bytes)
    ensures a + b + c + d + e + f == a + (b + (c + (d + (e + f))))
  {
  }

  /** One row of a batch. */
  method UpdateRow(h: Hasher, iso: Time -> Bytes, r: Row) returns (ok: bool)
    modifies h
    ensures ok <==> RowFits(iso, r)
    ensures ok ==> h.fed == old(h.fed) + RowBytes(iso, r)
  {
    ok := h.UpdateBlock(iso(r.ts));
    if !ok {
      return;
    }
    ok := h.UpdateBlock(iso(r.asOf));
    if !ok {
      return;
    }
    ok := h.UpdateBlock(r.hash);
    assert ok ==> h.fed == old(h.fed) + Block(iso(r.ts)) + Block(iso(r.asOf)) + Block(r.hash);
  }

  method UpdateRows(h: Hasher, iso: Time -> Bytes, rows: seq<Row>) returns (ok: bool)
    modifies h
    ensures ok <==> forall r :: r in rows ==> RowFits(iso, r)
    ensures ok ==> h.fed == old(h.fed) + RowsBytes(iso, rows)
  {
    for i := 0 to |rows|
      invariant h.fed == old(h.fed) + RowsBytes(iso, rows[..i])
      invariant forall k :: 0 <= k < i ==> RowFits(iso, rows[k])
    {
      ok := UpdateRow(h, iso, rows[i]);
      if !ok {
        return;
      }
      RowsSnoc(iso, rows, i, old(h.fed));
    }
    assert rows[..|rows|] == rows;
    ok := true;
  }

  lemma RowsSnoc(iso: Time -> Bytes, rows: seq<Row>, i: nat, fed: Bytes)
    requires i < |rows|
    ensures fed + RowsBytes(iso, rows[..i]) + RowBytes(iso, rows[i]) == fed + RowsBytes(iso, rows[..i + 1])
  {
    assert rows[..i + 1][..i] == rows[..i];
    Assoc(fed, RowsBytes(iso, rows[..i]), RowBytes(iso, rows[i]));
  }

  /** `_compute_batch_hash`, up to the digest function. */
  method ComputeBatchHash(digest: Bytes -> string, iso: Time -> Bytes, series: int, rows: seq<Row>)
    returns (hex: Option<string>)
    ensures hex == if BatchFits(iso, series, rows) then Some(digest(BatchBytes(iso, series, rows))) else None
  {
    if !(0 <= series < TWO_TO_64) {
      return None;
    }
    var h := new Hasher();
    h.Update(BigEndian(series, 8));
    assert h.fed == BigEndian(series, 8);
    SortFacts(RowLeq, rows);
    SameRows(rows, SortBy(RowLeq, rows));
    var ok := UpdateRows(h, iso, SortBy(RowLeq, rows));
    hex := if ok then Some(digest(h.fed)) else None;
  }
}
