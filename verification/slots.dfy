/** Slot arithmetic of the command scheduler. All times are milliseconds; slot k of a
    window is windowStart + k * interval. */
module Slots {
  import opened Arithmetic

  const TOLERANCE_MS := 2000

  // Next execution slot strictly after `after`, counted from the window start.
  function NextSlot(windowStart: int, interval: int, after: int): int {
    if interval <= 0 then after + 3600 * 1000
    else if after <= windowStart then windowStart + interval
    else windowStart + ((after - windowStart) / interval + 1) * interval
  }

  // The expression of the SQL rebase, which divides before it adds one.
  function SqlNextSlot(windowStart: int, interval: int, now: int): int
    requires interval > 0
  {
    windowStart + interval * ((now - windowStart) / interval + 1)
  }

  ghost predicate IsSlot(windowStart: int, interval: int, t: int)
    requires interval > 0
  {
    windowStart <= t && (t - windowStart) % interval == 0
  }

  ghost predicate IsLeastSlotAfter(windowStart: int, interval: int, after: int, s: int)
    requires interval > 0
  {
    && IsSlot(windowStart, interval, s)
    && after < s
    && forall t :: IsSlot(windowStart, interval, t) && after < t ==> s <= t
  }

  // Number of whole intervals between the window start and t.
  ghost function SlotIndex(windowStart: int, interval: int, t: int): int
    requires interval > 0
  {
    (t - windowStart) / interval
  }

  // ----- what NextSlot computes -----

  // From inside the window NextSlot lands exactly one interval index further on.
  lemma NextSlotIndex(windowStart: int, interval: int, after: int)
    requires interval > 0 && windowStart <= after
    ensures IsSlot(windowStart, interval, NextSlot(windowStart, interval, after))
    ensures SlotIndex(windowStart, interval, NextSlot(windowStart, interval, after))
         == SlotIndex(windowStart, interval, after) + 1
    ensures after < NextSlot(windowStart, interval, after) <= after + interval
  {
    var k := (after - windowStart) / interval;
    Floor(after - windowStart, interval, k);
    Floor(0, interval, 0);
    assert (k + 1) * interval == k * interval + interval;
    assert NextSlot(windowStart, interval, after) == windowStart + (k + 1) * interval;
    MultipleOf(k + 1, interval);
  }

  // The header comment promises the next slot strictly after `after`. That is the least
  // slot exactly when `after` is not before the window: from before it, slot 0 is skipped.
  lemma NextSlotIsLeastIff(windowStart: int, interval: int, after: int)
    requires interval > 0
    ensures IsLeastSlotAfter(windowStart, interval, after, NextSlot(windowStart, interval, after))
       <==> windowStart <= after
  {
    if windowStart <= after {
      NextSlotIndex(windowStart, interval, after);
      forall t | IsSlot(windowStart, interval, t) && after < t
        ensures NextSlot(windowStart, interval, after) <= t
      {
        NextSlotBelowSlot(windowStart, interval, after, t);
      }
    } else {
      MultipleOf(0, interval);
      assert IsSlot(windowStart, interval, windowStart);
    }
  }

  lemma NextSlotBelowSlot(windowStart: int, interval: int, after: int, t: int)
    requires interval > 0 && windowStart <= after < t && IsSlot(windowStart, interval, t)
    ensures NextSlot(windowStart, interval, after) <= t
  {
    var k, j := (after - windowStart) / interval, (t - windowStart) / interval;
    Floor(after - windowStart, interval, k);
    Floor(t - windowStart, interval, j);
    Floor(0, interval, 0);
    ProductOrder(k, j, interval);
    assert (k + 1) * interval == k * interval + interval;
    assert NextSlot(windowStart, interval, after) == windowStart + (k + 1) * interval;
  }

  // The SQL rebase and the C++ function agree wherever the UPDATE can reach.
  lemma SqlAgrees(windowStart: int, interval: int, now: int)
    requires interval > 0 && windowStart <= now
    ensures SqlNextSlot(windowStart, interval, now) == NextSlot(windowStart, interval, now)
  {
    Floor(0, interval, 0);
    var k := (now - windowStart) / interval;
    assert interval * (k + 1) == (k + 1) * interval;
  }

  // A claim of `slot` made at `now` moves next_run forward exactly when no slot boundary
  // lies in (now, slot]; a claim made at or after its slot always does.
  lemma ClaimAdvancesIff(windowStart: int, interval: int, now: int, slot: int)
    requires interval > 0 && windowStart <= now
    ensures slot < NextSlot(windowStart, interval, now)
       <==> SlotIndex(windowStart, interval, slot) <= SlotIndex(windowStart, interval, now)
    ensures slot <= now ==> slot < NextSlot(windowStart, interval, now)
  {
    var next := NextSlot(windowStart, interval, now);
    NextSlotIndex(windowStart, interval, now);
    var k, j := (next - windowStart) / interval, (slot - windowStart) / interval;
    Floor(next - windowStart, interval, k);
    Floor(slot - windowStart, interval, j);
    ProductOrder(j, k, interval);
  }

  // A due claim writes back the value it read, leaving the slot claimable again, exactly
  // when the slot is aligned and the claim is early.
  lemma ClaimRepeatsIff(windowStart: int, interval: int, now: int, slot: int)
    requires interval > TOLERANCE_MS && windowStart <= now
    requires now - TOLERANCE_MS <= slot <= now + TOLERANCE_MS
    ensures NextSlot(windowStart, interval, now) == slot
       <==> now < slot && IsSlot(windowStart, interval, slot)
  {
    NextSlotIndex(windowStart, interval, now);
    if now < slot && IsSlot(windowStart, interval, slot) {
      var next := NextSlot(windowStart, interval, now);
      NextSlotBelowSlot(windowStart, interval, now, slot);
      var k, j := (next - windowStart) / interval, (slot - windowStart) / interval;
      Floor(next - windowStart, interval, k);
      Floor(slot - windowStart, interval, j);
      ProductOrder(k, j, interval);
    }
  }
}
