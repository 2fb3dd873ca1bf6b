/** The ids by which Java names open clients, and where the next one comes from. */
module Handles {
  import opened Options

  const SEQUENCES: nat := 0x1_0000_0000              // two to the number of sequence bits
  const TAG_MASK: nat := 0x7FFF_FFFF
  const I64_MAX: nat := 0x7FFF_FFFF_FFFF_FFFF
  const TWO_64: nat := 0x1_0000_0000_0000_0000

  type I64 = x: int | -0x8000_0000_0000_0000 <= x <= I64_MAX

  type U64 = x: int | 0 <= x < TWO_64

  type U32 = x: int | 0 <= x <= U32_MAX

  /** The low 64 bits, in two's complement. */
  function Wrapped(n: int): I64 {
    var low := n % TWO_64;
    if low <= I64_MAX then low else low - TWO_64
  }

  /** What Java handed over, accepted as an id. */
  function New(raw: I64): Option<I64> { if raw > 0 then Some(raw) else None }

  /** The tag shifted above the sequence bits; zero is no id. */
  function FromParts(tag: I64, sequence: U32): Option<I64> {
    var raw := Wrapped(tag * SEQUENCES + sequence);
    if raw == 0 then None else Some(raw)
  }

  function TagOf(id: I64): int { id / SEQUENCES }

  function SequenceOf(id: I64): int { id % SEQUENCES }

  lemma {:induction false} Composed(tag: I64, sequence: U32)
    requires 1 <= tag <= TAG_MASK
    ensures var raw := tag * SEQUENCES + sequence;
            && SEQUENCES <= raw <= I64_MAX
            && FromParts(tag, sequence) == Some(raw)
            && raw / SEQUENCES == tag && raw % SEQUENCES == sequence
  {
    assert tag * SEQUENCES <= TAG_MASK * SEQUENCES;
  }

  /** An id made from a tag in range survives the trip through a signed `long` and keeps both its
      parts. */
  lemma {:induction false} IdsRoundTrip(tag: I64, sequence: U32)
    requires 1 <= tag <= TAG_MASK
    ensures FromParts(tag, sequence).Some?
    ensures var id := FromParts(tag, sequence).value;
            New(id) == Some(id) && TagOf(id) == tag && SequenceOf(id) == sequence
  {
    Composed(tag, sequence);
  }

  lemma {:induction false} HighBit(tag: I64, sequence: U32)
    ensures var t := tag % SEQUENCES;
            Wrapped(tag * SEQUENCES + sequence) ==
            if t <= TAG_MASK then t * SEQUENCES + sequence else t * SEQUENCES + sequence - TWO_64
  {
    var t, q := tag % SEQUENCES, tag / SEQUENCES;
    assert tag == q * SEQUENCES + t;
    var low := t * SEQUENCES + sequence;
    assert tag * SEQUENCES + sequence == q * TWO_64 + low;
    assert 0 <= low < TWO_64;
    Remainder(q, low);
  }

  lemma {:induction false} Remainder(q: int, low: int)
    requires 0 <= low < TWO_64
    ensures (q * TWO_64 + low) % TWO_64 == low
  {
  }

  /** Java can quote back every id of a tag, counting sequences from one, exactly when the tag, cut to
      its field, stays clear of the sign bit; and none of them is one a bare counter would have
      issued exactly when the tag is not zero there either, which together are what the debug check
      asks of tags that fit. */
  lemma {:induction false} TagsThatWork(tag: I64)
    ensures (forall sequence: U32 | sequence > 0 ::
               FromParts(tag, sequence).Some? && New(FromParts(tag, sequence).value).Some?)
            <==> tag % SEQUENCES <= TAG_MASK
    ensures (forall sequence: U32 | sequence > 0 ::
               FromParts(tag, sequence).Some? && FromParts(tag, sequence).value >= SEQUENCES)
            <==> 1 <= tag % SEQUENCES <= TAG_MASK
  {
    HighBit(tag, 1);
    forall sequence: U32 | sequence > 0 && tag % SEQUENCES <= TAG_MASK
      ensures FromParts(tag, sequence) == Some(tag % SEQUENCES * SEQUENCES + sequence)
    {
      HighBit(tag, sequence);
    }
    hide Wrapped;
    if tag % SEQUENCES > TAG_MASK {
      assert !New(FromParts(tag, 1).value).Some?;
    } else if tag % SEQUENCES == 0 {
      assert FromParts(tag, 1).value == 1;
    }
  }

  /** Zero, which an uninitialised Java field holds, and every negative number are refused, and nothing
      else is. */
  lemma {:induction false} RefusesNoId(raw: I64)
    ensures New(raw).None? <==> raw <= 0
    ensures New(raw).Some? ==> New(raw).value == raw
  {
  }

  /** The tag drawn from a 64-bit hash: its low 31 bits, and one if they are all clear; so every tag
      can be drawn. */
  function ProcessTag(hash: U64): (tag: I64)
    ensures 1 <= tag <= TAG_MASK
    ensures hash % 0x8000_0000 > 0 ==> tag == hash % 0x8000_0000
  {
    var low := hash % (TAG_MASK + 1);
    if low < 1 then 1 else low
  }

  // ---- the counter

  datatype Count = Unstarted | Next(tag: I64, sequence: U32) | Spent {

    /** The counter advanced, and the id. `hash` is used the first time only. */
    function Taken(hash: U64): (Count, Option<I64>) {
      match this
      case Spent => (Spent, None)
      case Unstarted => Composing(ProcessTag(hash), 1)
      case Next(tag, sequence) => Composing(tag, sequence)
    }

    static function Composing(tag: I64, sequence: U32): (Count, Option<I64>) {
      var id := FromParts(tag, sequence);
      (if id.Some? && sequence < U32_MAX then Next(tag, sequence + 1) else Spent, id)
    }
  }

  class Counter {
    var state: Count

    method TakeNext(hash: U64) returns (id: Option<I64>)
      modifies this
      ensures (state, id) == old(state).Taken(hash)
    {
      var tag: I64, sequence: U32;
      match state {
        case Unstarted => tag, sequence := ProcessTag(hash), 1;
        case Next(t, s) => tag, sequence := t, s;
        case Spent => return None;
      }
      id := FromParts(tag, sequence);
      if id.Some? && sequence < U32_MAX {
        state := Next(tag, sequence + 1);
      } else {
        state := Spent;
      }
    }
  }

  /** The counter after as many takes as there are hashes, and the ids they gave. */
  function Run(count: Count, hashes: seq<U64>): (Count, seq<Option<I64>>)
    decreases |hashes|
  {
    if hashes == [] then (count, [])
    else
      var (before, ids) := Run(count, hashes[..|hashes| - 1]);
      var (after, id) := before.Taken(hashes[|hashes| - 1]);
      (after, ids + [id])
  }

  /** A process's ids in full: its tag over the numbers from one to the last that fits, and then
      nothing ever after. */
  function Nth(tag: I64, i: nat): Option<int> {
    if i < U32_MAX then Some(tag * SEQUENCES + i + 1) else None
  }

  /** Where a counter started with `tag` is after `n` takes. */
  function Started(tag: I64, n: nat): Count
    requires n > 0
  {
    if n < U32_MAX then Next(tag, n + 1) else Spent
  }

  lemma {:induction false} TakeOne(tag: I64, n: nat, hash: U64)
    requires 1 <= tag <= TAG_MASK && (n == 0 ==> tag == ProcessTag(hash))
    ensures var count := if n == 0 then Unstarted else Started(tag, n);
            count.Taken(hash) == (Started(tag, n + 1), Nth(tag, n))
  {
    if n < U32_MAX {
      Composed(tag, n + 1);
    }
  }

  lemma {:induction false} IdsInFull(hashes: seq<U64>)
    requires hashes != []
    ensures var tag := ProcessTag(hashes[0]);
            var (count, ids) := Run(Unstarted, hashes);
            && count == Started(tag, |hashes|) && |ids| == |hashes|
            && forall i | 0 <= i < |ids| :: ids[i] == Nth(tag, i)
    decreases |hashes|
  {
    var n := |hashes| - 1;
    var tag := ProcessTag(hashes[0]);
    TakeOne(tag, n, hashes[n]);
    hide FromParts, Count.Taken, ProcessTag, Started, Nth;
    if n > 0 {
      IdsInFull(hashes[..n]);
      assert hashes[..n][0] == hashes[0];
    }
  }

  /** So every id is positive, each is greater than the one before, none is ever issued again, and
      once they run out they stay out. */
  lemma {:induction false} IdsNeverReturn(hashes: seq<U64>, i: nat, j: nat)
    requires i < j < |hashes|
    ensures var ids := Run(Unstarted, hashes).1;
            && |ids| == |hashes|
            && (ids[j].Some? ==> ids[i].Some? && 0 < ids[i].value < ids[j].value && New(ids[j].value) == ids[j])
            && (ids[i].None? ==> ids[j].None?)
  {
    IdsInFull(hashes);
    hide Run, ProcessTag;
  }
}
