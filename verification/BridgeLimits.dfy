/** The limiters at work: what any run moves through the bridge within any stretch of slots. */
module BridgeLimits {
  import opened Numbers
  import opened RateLimiter
  import opened BridgeSystem

  /** Deposits into L1 and releases on L2 each have a limiter of their own. */
  datatype Side = Deposits | Releases

  function LimiterOf(w: World, side: Side): Limiter {
    if side.Deposits? then w.l1.limiter else w.l2.limiter
  }

  function DailyLimit(w: World, side: Side): u64 {
    if side.Deposits? then w.l1.limits.daily else w.l2.limits.daily
  }

  predicate KeepsLimit(c: Command, side: Side, limit: u64) {
    if side.Deposits? then c.ConfigureL1? ==> c.limitsL1.daily == limit
    else c.ConfigureL2? ==> c.limitsL2.daily == limit
  }

  /** The commands that run in a slot of the side's own chain. */
  predicate HasSlot(c: Command, side: Side) {
    if side.Deposits? then c.Deposit? || c.DepositSol? else c.Release? || c.RelayDeposit?
  }

  /** Slots of that chain do not go back; nothing is said of the other's. */
  predicate Timed(cs: seq<Command>, side: Side, from: nat)
    decreases |cs|
  {
    cs == [] || (if HasSlot(cs[0], side) then cs[0].slot >= from && Timed(cs[1..], side, cs[0].slot)
                 else Timed(cs[1..], side, from))
  }

  /** What one step moved, read off the accounts before and after it. */
  function MovedHere(w: World, c: Command, side: Side): seq<Transfer> {
    if !HasSlot(c, side) then []
    else
      var w' := Perform(w, c);
      if side.Deposits? && w'.l1.depositNonce > w.l1.depositNonce && w.l1.depositNonce in w'.l1.deposits then
        [Transfer(c.slot, w'.l1.deposits[w.l1.depositNonce].amount)]
      else if side.Releases? && w'.l2.totalReleased > w.l2.totalReleased then
        [Transfer(c.slot, w'.l2.totalReleased - w.l2.totalReleased)]
      else []
  }

  function Moved(w: World, cs: seq<Command>, side: Side): seq<Transfer>
    decreases |cs|
  {
    if cs == [] then [] else MovedHere(w, cs[0], side) + Moved(Perform(w, cs[0]), cs[1..], side)
  }

  /** A step moves nothing and leaves the limiter alone, or moves one amount the limiter admits. */
  ghost predicate Metered(w: World, c: Command, side: Side) {
    var w' := Perform(w, c);
    if MovedHere(w, c, side) == [] then LimiterOf(w', side) == LimiterOf(w, side)
    else
      && |MovedHere(w, c, side)| == 1 && HasSlot(c, side) && MovedHere(w, c, side)[0].slot == c.slot
      && Admit(LimiterOf(w, side), c.slot, MovedHere(w, c, side)[0].amount, DailyLimit(w, side))
         == Ok(LimiterOf(w', side))
  }

  lemma DepositsAreMetered(w: World, c: Command)
    ensures Metered(w, c, Deposits)
  {
  }

  lemma RelayIsMetered(w: World, c: Command)
    requires c.RelayDeposit?
    ensures Metered(w, c, Releases) && Perform(w, c).l2.limits == w.l2.limits
  {
    ForwardingReleases(w, c.line, c.signature, c.confirmed, c.intoReserve, c.slot, c.rentMinimum);
  }

  lemma OthersReleaseNothing(w: World, c: Command)
    requires !c.RelayDeposit?
    ensures Metered(w, c, Releases)
  {
  }

  lemma LimitStays(w: World, c: Command, side: Side)
    requires KeepsLimit(c, side, DailyLimit(w, side))
    ensures DailyLimit(Perform(w, c), side) == DailyLimit(w, side)
  {
    if c.RelayDeposit? {
      RelayIsMetered(w, c);
    }
  }

  /** Every run hands its limiter an admitted sequence of transfers. */
  lemma {:induction false} RunIsAdmitted(w: World, cs: seq<Command>, side: Side, from: nat)
    requires Timed(cs, side, from) && forall c | c in cs :: KeepsLimit(c, side, DailyLimit(w, side))
    ensures Admitted(LimiterOf(w, side), DailyLimit(w, side), from, Moved(w, cs, side))
    decreases |cs|
  {
    if cs != [] {
      var c, rest := cs[0], cs[1..];
      var later := if HasSlot(c, side) then c.slot else from;
      DepositsAreMetered(w, c);
      if c.RelayDeposit? { RelayIsMetered(w, c); } else { OthersReleaseNothing(w, c); }
      LimitStays(w, c, side);
      RunIsAdmitted(Perform(w, c), rest, side, later);
      AdmittedNext(w, c, side, Moved(Perform(w, c), rest, side), from, later);
    }
  }

  lemma AdmittedNext(w: World, c: Command, side: Side, rest: seq<Transfer>, from: nat, later: nat)
    requires Metered(w, c, side) && from <= later && later == (if HasSlot(c, side) then c.slot else from)
    requires Admitted(LimiterOf(Perform(w, c), side), DailyLimit(w, side), later, rest)
    ensures Admitted(LimiterOf(w, side), DailyLimit(w, side), from, MovedHere(w, c, side) + rest)
  {
    var here := MovedHere(w, c, side);
    if here == [] {
      assert here + rest == rest;
      AdmittedEarlier(LimiterOf(w, side), DailyLimit(w, side), from, later, rest);
    } else {
      assert (here + rest)[1..] == rest && (here + rest)[0] == here[0];
    }
  }

  lemma AdmittedEarlier(l: Limiter, limit: u64, from: nat, later: nat, ts: seq<Transfer>)
    requires Admitted(l, limit, later, ts) && from <= later
    ensures Admitted(l, limit, from, ts)
  {
  }

  /** Over any n days' worth of slots, no run under a constant limit moves more than n + 1 limits through
      either side, wherever the stretch begins, however the two chains' slots relate and the relayer behaves. */
  lemma SlidingWindow(w: World, cs: seq<Command>, side: Side, from: nat, a: nat, b: nat, n: nat)
    requires LimiterOf(w, side).used <= DailyLimit(w, side)
    requires Timed(cs, side, from) && forall c | c in cs :: KeepsLimit(c, side, DailyLimit(w, side))
    requires n > 0 && a <= b && b - a <= n * RESET_GAP - 1
    ensures Volume(Moved(w, cs, side), a, b) <= (n + 1) * DailyLimit(w, side)
  {
    RunIsAdmitted(w, cs, side, from);
    VolumeOverWindows(Moved(w, cs, side), LimiterOf(w, side), DailyLimit(w, side), from, a, b, n);
  }
}
