/** What each instruction of the reserve program asks for and what it does to the accounts. */
module BridgeL2Effects {
  import opened Numbers
  import opened HexCodec
  import opened RateLimiter
  import opened BridgeL2

  lemma FundingEffect(s: State, amount: u64, funds: nat)
    ensures var r := FundReserve(s, amount, funds);
            && (r.Ok? <==> 0 < amount <= funds && s.reserve + amount <= U64_MAX)
            && (r.Ok? ==> r.value.reserve - s.reserve == amount && r.value == s.(reserve := r.value.reserve))
  {
  }

  /** A release is granted for these reasons and no other: to the relayer, of an amount its digest and the limits
      admit, out of a reserve that keeps its rent, once for each nonce. */
  lemma ReleaseSucceedsExactlyWhen(s: State, caller: Key, nonce: u64, d: Release, signature: seq<byte>, digest: Digest,
                                   intoReserve: bool, slot: u64, rentMinimum: u64)
    ensures ReleaseBridged(s, caller, nonce, d, signature, digest, intoReserve, slot, rentMinimum).Ok?
            <==> && 0 < d.amount && !s.paused && caller == s.relayer
                 && digest == Sha256(signature, nonce, d.amount, d.recipient)
                 && s.limits.min <= d.amount <= s.limits.max
                 && Carried(s.limiter, slot) + d.amount <= s.limits.daily
                 && s.reserve - d.amount >= rentMinimum
                 && nonce !in s.processed && s.totalReleased + d.amount <= U64_MAX
  {
    AdmitsExactlyWhen(s.limiter, slot, d.amount, s.limits.daily);
  }

  /** It leaves the reserve, unless it goes back in there, and is entered under its nonce. */
  lemma ReleaseEffect(s: State, caller: Key, nonce: u64, d: Release, signature: seq<byte>, digest: Digest,
                      intoReserve: bool, slot: u64, rentMinimum: u64)
    requires ReleaseBridged(s, caller, nonce, d, signature, digest, intoReserve, slot, rentMinimum).Ok?
    ensures var s' := ReleaseBridged(s, caller, nonce, d, signature, digest, intoReserve, slot, rentMinimum).value;
            && s.reserve - s'.reserve == (if intoReserve then 0 else d.amount)
            && s'.totalReleased - s.totalReleased == d.amount
            && nonce in s'.processed && s'.processed[nonce] == d && s'.processed - {nonce} == s.processed
            && s'.limiter.used == Carried(s.limiter, slot) + d.amount
            && s'.limiter.lastReset == (if slot > s.limiter.lastReset + 216_000 then slot else s.limiter.lastReset)
            && s' == s.(reserve := s'.reserve, totalReleased := s'.totalReleased, processed := s'.processed,
                        limiter := s'.limiter)
  {
    AdmitsExactlyWhen(s.limiter, slot, d.amount, s.limits.daily);
  }

  /** A burn is of whole L1 units, enters the reserve and is logged under the next nonce. */
  lemma BurnEffect(s: State, b: Burn, funds: nat)
    ensures var r := BridgeToL1(s, b, funds);
            && (r.Ok? <==> && 0 < b.amount <= funds && (exists units: nat :: b.amount == 1_000 * units) && !s.paused
                           && s.reserve + b.amount <= U64_MAX && s.totalReceived + b.amount <= U64_MAX
                           && s.withdrawNonce < 0xFFFF_FFFF_FFFF_FFFF)
            && (r.Ok? ==>
                  && r.value.reserve - s.reserve == r.value.totalReceived - s.totalReceived == b.amount
                  && r.value.withdrawNonce - s.withdrawNonce == 1
                  && r.value.burns == s.burns[s.withdrawNonce as nat := b]
                  && r.value == s.(reserve := r.value.reserve, totalReceived := r.value.totalReceived,
                                   withdrawNonce := r.value.withdrawNonce, burns := r.value.burns))
  {
    if b.amount % 1_000 == 0 {
      assert b.amount == 1_000 * (b.amount / 1_000);
    }
  }

  lemma InitialEffect(relayer: Key)
    ensures var s := Initialize(relayer);
            && s.relayer == relayer && !s.paused
            && s.limits == Limits(10_000_000, 1_000_000_000_000, 10_000_000_000_000)
            && s.limiter.used == s.limiter.lastReset == s.reserve == s.withdrawNonce == 0
            && s.totalReleased == s.totalReceived == |s.processed| == |s.burns| == 0
  {
  }

  // ---------- Refusals ----------

  /** No refusal names a cause that is not there. */
  lemma ReleaseRefusalsAreTrue(s: State, caller: Key, nonce: u64, d: Release, signature: seq<byte>,
                               digest: Digest, intoReserve: bool, slot: u64, rentMinimum: u64)
    ensures var r := ReleaseBridged(s, caller, nonce, d, signature, digest, intoReserve, slot, rentMinimum);
            && (r == Err(ZeroAmount) <==> d.amount == 0)
            && (r == Err(BridgePaused) <==> d.amount > 0 && s.paused)
            && (r == Err(InvalidRelayer) ==> caller != s.relayer)
            && (r == Err(DepositHashMismatch) ==> digest != Sha256(signature, nonce, d.amount, d.recipient))
            && (r == Err(AmountBelowMinRelease) ==> d.amount < s.limits.min)
            && (r == Err(AmountAboveMaxRelease) ==> d.amount > s.limits.max)
            && (r == Err(DailyReleaseLimitExceeded) ==>
                  Carried(s.limiter, slot) + d.amount > s.limits.daily)
            && (r == Err(InsufficientReserve) ==> d.amount + rentMinimum > s.reserve)
            && (r == Err(DepositAlreadyProcessed) ==> nonce in s.processed)
  {
  }

  lemma BurnRefusalsAreTrue(s: State, b: Burn, funds: nat)
    ensures var r := BridgeToL1(s, b, funds);
            && (r == Err(ZeroAmount) <==> b.amount == 0)
            && (r == Err(IndivisibleAmount) <==> b.amount % 1_000 != 0)
            && (r == Err(BridgePaused) ==> s.paused)
            && (r == Err(TransferFailed) ==> b.amount > funds || s.reserve + b.amount > U64_MAX)
  {
  }
}
