/** Redis stream names, stream ids `<unix_ms>-<seq>` and the two helpers that walk the ids. */
module RedisIds {

  datatype StreamName = StreamName(text: string)

  const SEQ_LIMIT: nat := 0x1_0000_0000_0000_0000

  /** The two halves of an id; the sequence half is an unsigned 64-bit number. */
  datatype Id = Id(ms: nat, sn: nat)

  const ZERO: Id := Id(0, 0)

  predicate ValidId(a: Id) {
    a.sn < SEQ_LIMIT
  }

  predicate Before(a: Id, b: Id) {
    a.ms < b.ms || (a.ms == b.ms && a.sn < b.sn)
  }

  predicate AtMost(a: Id, b: Id) {
    a == b || Before(a, b)
  }

  /** `redis_id_compare`. */
  function Compare(a: Id, b: Id): (r: int)
    ensures r == -1 <==> Before(a, b)
    ensures r == 0 <==> a == b
    ensures r == 1 <==> Before(b, a)
  {
    if a.ms != b.ms then (if a.ms < b.ms then -1 else 1)
    else if a.sn != b.sn then (if a.sn < b.sn then -1 else 1)
    else 0
  }

  /** `redis_id_increment`: the carry into the millisecond half happens at 2^64 - 1. */
  function Increment(a: Id): Id {
    if a.sn < SEQ_LIMIT - 1 then Id(a.ms, a.sn + 1) else Id(a.ms + 1, 0)
  }

  /** Increment is the exact successor: nothing fits between an id and its increment. */
  lemma IncrementIsSuccessor(a: Id)
    requires ValidId(a)
    ensures ValidId(Increment(a)) && Before(a, Increment(a))
    ensures forall b :: ValidId(b) ==> (Before(a, b) <==> AtMost(Increment(a), b))
  {
  }
}
