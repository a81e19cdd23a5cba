/** The volume limiter both bridge programs share: a counter that starts over once more than a day's
    slots have passed since it last did. */
module RateLimiter {
  import opened Numbers

  const WINDOW_SLOTS: nat := 216_000

  /** Two resets are at least this far apart. */
  const RESET_GAP: nat := WINDOW_SLOTS + 1

  datatype Limiter = Limiter(used: u64, lastReset: u64)

  datatype LimitError = Overflow | LimitExceeded

  /** The counter after a request in `slot`; a slot before the last reset counts as no time passed. */
  function Refreshed(l: Limiter, slot: u64): Limiter {
    if slot > l.lastReset + WINDOW_SLOTS then Limiter(0, slot) else l
  }

  function Admit(l: Limiter, slot: u64, amount: u64, limit: u64): Result<Limiter, LimitError> {
    var fresh' := Refreshed(l, slot);
    :- Need(fresh'.used + amount <= U64_MAX, Overflow);
    :- Need(fresh'.used + amount <= limit, LimitExceeded);
    Ok(fresh'.(used := fresh'.used + amount))
  }

  /** What counts against the limit in a slot: nothing, once more than 216,000 slots have passed since the last
      reset. */
  function Carried(l: Limiter, slot: u64): u64 {
    if slot > l.lastReset + 216_000 then 0 else l.used
  }

  /** A transfer is admitted exactly while it and what is carried stay within the limit, and is then counted. */
  lemma AdmitsExactlyWhen(l: Limiter, slot: u64, amount: u64, limit: u64)
    ensures Admit(l, slot, amount, limit).Ok? <==> Carried(l, slot) + amount <= limit
    ensures Admit(l, slot, amount, limit).Ok? ==>
              var l' := Admit(l, slot, amount, limit).value;
              && l'.used == Carried(l, slot) + amount
              && l'.lastReset == if slot > l.lastReset + 216_000 then slot else l.lastReset
  {
  }

  datatype Transfer = Transfer(slot: u64, amount: u64)

  /** The transfers, in slot order from `from` on, were all admitted under one constant limit. */
  ghost predicate Admitted(l: Limiter, limit: u64, from: nat, ts: seq<Transfer>)
    decreases |ts|
  {
    ts == [] ||
    (var t := ts[0];
     var r := Admit(l, t.slot, t.amount, limit);
     t.slot >= from && r.Ok? && Admitted(r.value, limit, t.slot, ts[1..]))
  }

  /** The volume moved in the slots from `a` to `b`. */
  function Volume(ts: seq<Transfer>, a: nat, b: nat): nat {
    if ts == [] then 0 else
      (if a <= ts[0].slot <= b then ts[0].amount else 0) + Volume(ts[1..], a, b)
  }

  /** One limit for every further window that can begin by slot `b` after a reset in slot `a`. */
  ghost function Allowance(limit: nat, a: nat, b: nat): nat
    decreases b - a
  {
    if b < a + RESET_GAP then 0 else limit + Allowance(limit, a + RESET_GAP, b)
  }

  lemma {:induction false} AllowanceShrinks(limit: nat, a: nat, later: nat, b: nat)
    requires a <= later
    ensures Allowance(limit, later, b) <= Allowance(limit, a, b)
    decreases b - a
  {
    if b >= later + RESET_GAP {
      AllowanceShrinks(limit, a + RESET_GAP, later + RESET_GAP, b);
    }
  }

  lemma {:induction false} AllowanceCounts(limit: nat, a: nat, b: nat)
    requires a <= b
    ensures Allowance(limit, a, b) == limit * ((b - a) / RESET_GAP)
    decreases b - a
  {
    if b >= a + RESET_GAP {
      AllowanceCounts(limit, a + RESET_GAP, b);
      var n := (b - a - RESET_GAP) / RESET_GAP;
      DivUnique(b - a, RESET_GAP, n + 1);
      MulNext(limit, n);
    }
  }

  lemma MulNext(x: nat, n: nat)
    ensures x * (n + 1) == x * n + x
  {
  }

  lemma VolumeFromLater(ts: seq<Transfer>, l: Limiter, limit: u64, from: nat, a: nat, b: nat)
    requires Admitted(l, limit, from, ts) && from > b
    ensures Volume(ts, a, b) == 0
    decreases |ts|
  {
    if ts != [] {
      VolumeFromLater(ts[1..], Admit(l, ts[0].slot, ts[0].amount, limit).value, limit, ts[0].slot, a, b);
    }
  }

  /** From a counter that was reset at a known slot: what is left of its window and one limit for every
      further window that can begin. */
  lemma {:induction false} VolumeSinceReset(ts: seq<Transfer>, l: Limiter, limit: u64, from: nat, a: nat, b: nat)
    requires Admitted(l, limit, from, ts) && l.used <= limit && l.lastReset <= from
    ensures Volume(ts, a, b) <= (limit - l.used) + Allowance(limit, l.lastReset, b)
    decreases |ts|
  {
    if ts != [] {
      var t := ts[0];
      var l' := Admit(l, t.slot, t.amount, limit).value;
      VolumeSinceReset(ts[1..], l', limit, t.slot, a, b);
      if t.slot > b {
        VolumeFromLater(ts[1..], l', limit, t.slot, a, b);
      } else if t.slot > l.lastReset + WINDOW_SLOTS {
        AllowanceShrinks(limit, l.lastReset + RESET_GAP, t.slot, b);
      }
    }
  }

  /** From slot `a` on, whatever the counter held: the rest of one window, the window of the first reset,
      and those that can follow it by `b`. */
  lemma {:induction false} VolumeFrom(ts: seq<Transfer>, l: Limiter, limit: u64, from: nat, a: nat, b: nat)
    requires Admitted(l, limit, from, ts) && l.used <= limit && a <= from && a <= b
    ensures Volume(ts, a, b) <= (limit - l.used) + limit + Allowance(limit, a, b)
    decreases |ts|
  {
    if ts != [] {
      var t := ts[0];
      var l' := Admit(l, t.slot, t.amount, limit).value;
      if t.slot > b {
        VolumeFromLater(ts[1..], l', limit, t.slot, a, b);
      } else if t.slot > l.lastReset + WINDOW_SLOTS {
        VolumeSinceReset(ts[1..], l', limit, t.slot, a, b);
        AllowanceShrinks(limit, a, t.slot, b);
      } else {
        VolumeFrom(ts[1..], l', limit, t.slot, a, b);
      }
    }
  }

  /** The bound a resetting window really gives, over any interval of slots and any admitted run. */
  lemma {:induction false} SlidingWindowBound(ts: seq<Transfer>, l: Limiter, limit: u64, from: nat, a: nat, b: nat)
    requires Admitted(l, limit, from, ts) && l.used <= limit && a <= b
    ensures Volume(ts, a, b) <= limit * (2 + (b - a) / RESET_GAP)
    decreases |ts|
  {
    if ts != [] {
      var t := ts[0];
      if t.slot < a {
        SlidingWindowBound(ts[1..], Admit(l, t.slot, t.amount, limit).value, limit, t.slot, a, b);
      } else {
        VolumeFrom(ts, l, limit, t.slot, a, b);
        AllowanceCounts(limit, a, b);
        MulNext(limit, (b - a) / RESET_GAP);
        MulNext(limit, (b - a) / RESET_GAP + 1);
      }
    }
  }

  /** Over n windows' worth of slots at most n + 1 limits; over a day at most two. */
  lemma VolumeOverWindows(ts: seq<Transfer>, l: Limiter, limit: u64, from: nat, a: nat, b: nat, n: nat)
    requires Admitted(l, limit, from, ts) && l.used <= limit && a <= b
    requires n > 0 && b - a <= n * RESET_GAP - 1
    ensures Volume(ts, a, b) <= (n + 1) * limit
  {
    SlidingWindowBound(ts, l, limit, from, a, b);
    MulMono(limit, 2 + (b - a) / RESET_GAP, n + 1);
  }

  /** Two full limits really can fall within two neighbouring slots, one on each side of a reset. */
  lemma TwoLimitsCanMeet(limit: u64, reset: u64)
    requires reset + RESET_GAP <= U64_MAX
    ensures var ts := [Transfer(reset + WINDOW_SLOTS, limit), Transfer(reset + RESET_GAP, limit)];
            && Admitted(Limiter(0, reset), limit, reset, ts)
            && Volume(ts, reset + WINDOW_SLOTS, reset + RESET_GAP) == 2 * limit
  {
    var first, second := Transfer(reset + WINDOW_SLOTS, limit), Transfer(reset + RESET_GAP, limit);
    var ts := [first, second];
    assert ts[1..] == [second] && ts[1..][1..] == [];
    assert Volume(ts[1..], reset + WINDOW_SLOTS, reset + RESET_GAP) == limit;
    assert Admit(Limiter(0, reset), first.slot, limit, limit) == Ok(Limiter(limit, reset));
    assert Admitted(Limiter(limit, reset), limit, first.slot, [second]) by {
      assert Admit(Limiter(limit, reset), second.slot, limit, limit) == Ok(Limiter(limit, second.slot));
      assert [second][1..] == [];
    }
  }
}
