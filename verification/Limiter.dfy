/** The rate limiter: a ring of 24 hourly buckets, the hour its window starts, and a cap.
    `Admit` is the specification on values; the class runs the same algorithm on an
    array, with the source's loops and machine arithmetic. */
module Limiter {
  import opened Common

  const SLOTS := 24
  const SECONDS_PER_HOUR := 3600

  type Slots = s: seq<u64> | |s| == SLOTS witness seq(SLOTS, _ => 0)

  datatype Ring = Ring(limit: u64, oldest: u32, hourly: Slots)

  /** A limiter that starts now, with nothing transferred. */
  function Fresh(hour: u32, limit: u64): Ring {
    Ring(limit, hour, seq(SLOTS, _ => 0))
  }

  /** The stored account: its labels and its ring. */
  datatype ChainTokenLimiter =
    ChainTokenLimiter(isInitialized: bool, chainId: u8, tokenId: u8, ring: Ring)

  /** A newly created account: all its bytes are zero. */
  const BLANK: ChainTokenLimiter := ChainTokenLimiter(false, 0, 0, Fresh(0, 0))

  /** A fresh account starts with the current hour and an empty ring; an existing one changes
      only its cap. */
  function Updated(l: ChainTokenLimiter, chainId: u8, tokenId: u8, limit: u64, hour: u32)
    : ChainTokenLimiter {
    if l.isInitialized then l.(ring := l.ring.(limit := limit))
    else ChainTokenLimiter(true, chainId, tokenId, Fresh(hour, limit))
  }

  /** The cast of the signed clock value to u32 keeps its low 32 bits. */
  function CurrentHour(unixTimestamp: int): (h: u32) {
    unixTimestamp % (U32_MAX + 1) / SECONDS_PER_HOUR
  }

  /** An hour is 3600 seconds. */
  lemma HourIsSeconds(t: u32)
    ensures CurrentHour(t) == t / 3600
    ensures 3600 * CurrentHour(t) <= t < 3600 * (CurrentHour(t) + 1)
  {
  }

  /** The clock is read modulo 2^32 seconds. */
  lemma ClockWraps(t: int)
    ensures CurrentHour(t + 0x1_0000_0000) == CurrentHour(t)
  {
    assert (t + 0x1_0000_0000) % 0x1_0000_0000 == t % 0x1_0000_0000;
  }

  function WrappingSub(a: u32, b: u32): u32 { (a - b) % (U32_MAX + 1) }

  function WrappingAdd(a: u32, b: u32): u32 { (a + b) % (U32_MAX + 1) }

  function Total(s: seq<u64>): (t: nat) {
    if s == [] then 0 else Total(s[..|s| - 1]) + s[|s| - 1]
  }

  /** Whether slot `k` is among the `count` slots that start at `start` and wrap around. */
  predicate InSpan(k: nat, start: nat, count: nat)
    requires k < SLOTS && start < SLOTS
  {
    (k - start) % SLOTS < count
  }

  function Cleared(hourly: Slots, start: nat, count: nat): Slots
    requires start < SLOTS
  {
    seq(SLOTS, k requires 0 <= k < SLOTS => if InSpan(k, start, count) then 0 else hourly[k])
  }

  function SlotsToClear(r: Ring, hour: u32): (n: nat)
    ensures n <= SLOTS
  {
    Min(WrappingSub(hour, r.oldest), SLOTS)
  }

  /** The clear step: empties the slots that fell out and moves the start forward. */
  function Advance(r: Ring, hour: u32): Ring {
    var n := SlotsToClear(r, hour);
    r.(hourly := Cleared(r.hourly, r.oldest % SLOTS, n), oldest := WrappingAdd(r.oldest, n))
  }

  function Admit(r: Ring, hour: u32, amount: u64): Result<Ring> {
    var a := Advance(r, hour);
    var total := Total(a.hourly);
    var _ :- Need(total <= U64_MAX, Panicked(RingSum));
    var _ :- Need(total + amount <= U64_MAX, Panicked(LimitAdd));
    var _ :- Need(total + amount <= a.limit, TransferLimitExceeded);
    var slot := hour % SLOTS;
    var _ :- Need(a.hourly[slot] + amount <= U64_MAX, Panicked(SlotAdd));
    Ok(a.(hourly := a.hourly[slot := a.hourly[slot] + amount]))
  }

  lemma {:induction false} PrefixTotal(s: seq<u64>, i: nat)
    requires i <= |s|
    ensures Total(s[..i]) <= Total(s)
    decreases |s| - i
  {
    if i == |s| {
      assert s[..i] == s;
    } else {
      PrefixTotal(s, i + 1);
      assert s[..i + 1][..i] == s[..i];
    }
  }

  /** The account in memory while a handler runs. A handler that fails leaves its changes
      here, and the transaction drops them. */
  class LimiterAccount {
    var isInitialized: bool
    var chainId: u8
    var tokenId: u8
    var totalLimit: u64
    var oldestHour: u32
    const hourlyTransfers: array<u64>

    ghost predicate Valid()
      reads this
    {
      hourlyTransfers.Length == SLOTS
    }

    function View(): (v: ChainTokenLimiter)
      requires Valid()
      reads this, hourlyTransfers
    {
      ChainTokenLimiter(isInitialized, chainId, tokenId,
                        Ring(totalLimit, oldestHour, hourlyTransfers[..]))
    }

    constructor Load(v: ChainTokenLimiter)
      ensures Valid() && fresh(hourlyTransfers)
      ensures View() == v
    {
      isInitialized, chainId, tokenId := v.isInitialized, v.chainId, v.tokenId;
      totalLimit, oldestHour := v.ring.limit, v.ring.oldest;
      var ring := v.ring.hourly;
      hourlyTransfers := new u64[SLOTS](i requires 0 <= i < SLOTS reads {} => ring[i]);
      new;
      assert hourlyTransfers[..] == ring;
    }

    /** A committee update: opens an account that is not initialised, or changes only the cap. */
    method SetLimit(msgChainId: u8, msgTokenId: u8, limit: u64, currentH: u32)
      requires Valid()
      modifies this, hourlyTransfers
      ensures Valid()
      ensures View() == Updated(old(View()), msgChainId, msgTokenId, limit, currentH)
    {
      if !isInitialized {
        isInitialized, chainId, tokenId := true, msgChainId, msgTokenId;
        totalLimit, oldestHour := limit, currentH;
        forall i | 0 <= i < SLOTS {
          hourlyTransfers[i] := 0;
        }
        assert hourlyTransfers[..] == Fresh(currentH, limit).hourly;
      } else {
        totalLimit := limit;
      }
    }

    /** A call at `currentH` ends as the specification says; on failure only the clear step
        has touched the account. */
    method CheckTransfer(currentH: u32, amount: u64) returns (r: Result<()>)
      requires Valid()
      modifies this, hourlyTransfers
      ensures Valid()
      ensures var spec := Admit(old(View()).ring, currentH, amount);
              if spec.Ok? then r == Ok(()) && View() == old(View()).(ring := spec.value)
              else r == Err(spec.error)
                   && View() == old(View()).(ring := Advance(old(View()).ring, currentH))
    {
      ghost var before := View();
      var hoursPassed := WrappingSub(currentH, oldestHour);
      if hoursPassed > 0 {
        ClearAndAdvance(currentH);
      } else {
        assert Cleared(before.ring.hourly, oldestHour % SLOTS, 0) == before.ring.hourly;
      }
      assert View() == before.(ring := Advance(before.ring, currentH));

      var currentSlot := currentH % SLOTS;
      var total :- SumSlots();
      if total + amount > U64_MAX {
        return Err(Panicked(LimitAdd));
      }
      if total + amount > totalLimit {
        return Err(TransferLimitExceeded);
      }
      if hourlyTransfers[currentSlot] + amount > U64_MAX {
        return Err(Panicked(SlotAdd));
      }
      hourlyTransfers[currentSlot] := hourlyTransfers[currentSlot] + amount;
      return Ok(());
    }

    /** The checked sum of the 24 buckets: it aborts exactly when the sum leaves u64. */
    method SumSlots() returns (r: Result<u64>)
      requires Valid()
      ensures r == if Total(hourlyTransfers[..]) <= U64_MAX then Ok(Total(hourlyTransfers[..]))
                   else Err(Panicked(RingSum))
    {
      var total: u64 := 0;
      for i := 0 to SLOTS
        invariant total == Total(hourlyTransfers[..i])
      {
        assert hourlyTransfers[..i + 1][..i] == hourlyTransfers[..i];
        if total + hourlyTransfers[i] > U64_MAX {
          PrefixTotal(hourlyTransfers[..], i + 1);
          assert hourlyTransfers[..][..i + 1] == hourlyTransfers[..i + 1];
          return Err(Panicked(RingSum));
        }
        total := total + hourlyTransfers[i];
      }
      assert hourlyTransfers[..SLOTS] == hourlyTransfers[..];
      return Ok(total);
    }

    method ClearAndAdvance(currentH: u32)
      requires Valid() && WrappingSub(currentH, oldestHour) > 0
      modifies this`oldestHour, hourlyTransfers
      ensures View() == old(View()).(ring := Advance(old(View()).ring, currentH))
    {
      ghost var before: Slots := hourlyTransfers[..];
      ghost var ring := View().ring;
      var slotsToClear := Min(WrappingSub(currentH, oldestHour), SLOTS);
      var startIdx := oldestHour % SLOTS;
      for i := 0 to slotsToClear
        invariant oldestHour == ring.oldest
        invariant hourlyTransfers[..] == Cleared(before, startIdx, i)
      {
        var idx := (startIdx + i) % SLOTS;
        SpanGrows(startIdx, i);
        hourlyTransfers[idx] := 0;
      }
      assert hourlyTransfers[..] == Advance(ring, currentH).hourly;
      oldestHour := WrappingAdd(oldestHour, slotsToClear);
    }
  }

  /** One more iteration of the clear loop adds exactly the slot it writes. */
  lemma SpanGrows(start: nat, i: nat)
    requires start < SLOTS && i < SLOTS
    ensures forall k: nat | k < SLOTS ::
              InSpan(k, start, i + 1) <==> InSpan(k, start, i) || k == (start + i) % SLOTS
  {
  }
}
