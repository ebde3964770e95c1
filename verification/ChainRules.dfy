/** The parent-timestamp rule, and the search for the first Jade block that rests on it. */
module ChainRules {
  import opened Blocks

  /** A child may not be older than its parent, and may share its timestamp only after Emerald. */
  predicate TimestampOk(child: nat, parent: nat, emeraldTime: nat) {
    !(child < parent || (child == parent && child < emeraldTime))
  }

  /** The timestamps of the headers below the head; a header may be missing. */
  type Timestamps = nat -> Option<nat>

  datatype Tip = Tip(number: nat, timestamp: nat)

  function TimestampAt(chain: Timestamps, head: Tip, n: nat): Option<nat> {
    if n == head.number then Some(head.timestamp) else chain(n)
  }

  predicate AllPresent(chain: Timestamps, head: Tip) {
    forall n: nat | n <= head.number :: TimestampAt(chain, head, n).Some?
  }

  /** Every header up to the head is there and passes the rule against its parent. */
  predicate Accepted(chain: Timestamps, head: Tip, emeraldTime: nat) {
    && AllPresent(chain, head)
    && forall n: nat | n < head.number ::
         TimestampOk(TimestampAt(chain, head, n + 1).value, TimestampAt(chain, head, n).value, emeraldTime)
  }

  predicate JadeAt(chain: Timestamps, head: Tip, jadeTime: nat, n: nat) {
    TimestampAt(chain, head, n).Some? && TimestampAt(chain, head, n).value >= jadeTime
  }

  lemma {:induction false} AcceptedIsMonotone(chain: Timestamps, head: Tip, emeraldTime: nat, a: nat, b: nat)
    requires Accepted(chain, head, emeraldTime) && a <= b <= head.number
    ensures TimestampAt(chain, head, a).value <= TimestampAt(chain, head, b).value
  {
    if a < b {
      AcceptedIsMonotone(chain, head, emeraldTime, a, b - 1);
      assert TimestampOk(TimestampAt(chain, head, b - 1 + 1).value, TimestampAt(chain, head, b - 1).value, emeraldTime);
    }
  }

  datatype Search = Found(number: nat) | NotActive | MissingHeader(number: nat)

  /** Binary search for the first block whose timestamp activates Jade. The answer is the lowest such
      block on every accepted chain; the probes stay below the head, so nothing overflows. */
  method ResolveJadeFirstBlock(chain: Timestamps, head: Tip, jadeTime: nat, ghost emeraldTime: nat) returns (r: Search)
    ensures r.NotActive? <==> head.timestamp < jadeTime
    ensures r.MissingHeader? ==> r.number < head.number && chain(r.number).None?
    ensures r.Found? ==> r.number <= head.number && JadeAt(chain, head, jadeTime, r.number)
    ensures r.Found? && r.number > 0 ==> chain(r.number - 1).Some? && !JadeAt(chain, head, jadeTime, r.number - 1)
    ensures Accepted(chain, head, emeraldTime) && head.timestamp >= jadeTime ==>
              r.Found? && forall n: nat | n <= head.number :: JadeAt(chain, head, jadeTime, n) <==> n >= r.number
  {
    if head.timestamp < jadeTime {
      return NotActive;
    }
    var low, high := 0, head.number;
    while low < high
      invariant 0 <= low <= high <= head.number && JadeAt(chain, head, jadeTime, high)
      invariant low > 0 ==> chain(low - 1).Some? && !JadeAt(chain, head, jadeTime, low - 1)
    {
      var middle := low + (high - low) / 2;
      var timestamp := chain(middle);
      if timestamp.None? {
        assert TimestampAt(chain, head, middle).None?;
        return MissingHeader(middle);
      }
      if timestamp.value < jadeTime {
        low := middle + 1;
      } else {
        high := middle;
      }
    }
    if Accepted(chain, head, emeraldTime) {
      LowestJade(chain, head, emeraldTime, jadeTime, low);
    }
    return Found(low);
  }

  /** On an accepted chain a block that activates Jade after one that does not separates the chain. */
  lemma LowestJade(chain: Timestamps, head: Tip, emeraldTime: nat, jadeTime: nat, first: nat)
    requires Accepted(chain, head, emeraldTime) && first <= head.number && JadeAt(chain, head, jadeTime, first)
    requires first > 0 ==> !JadeAt(chain, head, jadeTime, first - 1)
    ensures forall n: nat | n <= head.number :: JadeAt(chain, head, jadeTime, n) <==> n >= first
  {
    forall n: nat | n <= head.number ensures JadeAt(chain, head, jadeTime, n) <==> n >= first {
      if n >= first {
        AcceptedIsMonotone(chain, head, emeraldTime, first, n);
      } else {
        AcceptedIsMonotone(chain, head, emeraldTime, n, first - 1);
      }
    }
  }
}
