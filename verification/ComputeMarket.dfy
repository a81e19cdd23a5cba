/** The compute market: a job's escrow, its lease and at most one dispute, and the provider that serves it. */
module ComputeMarket {
  import opened Numbers

  const BPS_DENOMINATOR: nat := 10_000
  const DISPUTE_WINDOW_SLOTS: u64 := 50
  const DEFAULT_DISPUTE_DEADLINE_SLOTS: u64 := 216_000
  const DISPUTE_AUTO_RESOLVE_SLOTS: nat := 648_000
  const MAX_JOB_METADATA: nat := 1_024
  const MAX_PROOF_DATA: nat := 1_024

  type Key = nat

  datatype MarketError =
    | AccountMissing | MetadataTooLarge | ProgramPaused | Overflow | TransferFailed | Unauthorized | ProviderNotActive
    | InvalidRequestStatus | SpecsInsufficient | PriceExceedsMax | ProofTooLarge | InvalidLeaseStatus
    | DisputeWindowOpen | DisputeWindowExpired | DisputeDeadlinePassed | DisputeExists | LeaseNotTimedOut
    | JobNotCloseable | CounterAlreadySubmitted

  datatype Config = Config(admin: Key, feeBps: u16, window: u64, paused: bool)

  datatype Specs = Specs(vram: u16, cores: u16, ram: u16)

  datatype Provider = Provider(
    specs: Specs, price: u64, stake: u64, activeLeases: u32, completed: u32, slashes: u32, active: bool)

  datatype RequestStatus = Open | Matched | Completed | Cancelled

  datatype Request = Request(
    requester: Key, specs: Specs, hours: u32, maxPrice: u64, escrowed: u64, status: RequestStatus,
    deadline: u64)

  datatype LeaseStatus = Active | ProofSubmitted | Disputed | Slashed | Done

  /** `proofAt` is a time stamp in seconds, zero until the proof is in. */
  datatype Lease = Lease(
    provider: Key, requester: Key, price: u64, start: i64, end: i64, status: LeaseStatus, proofAt: i64)

  datatype Dispute = Dispute(createdSlot: u64, countered: bool, resolved: bool, providerAtFault: bool)

  /** The accounts whose addresses are derived from one request: each exists at most once. A closed request
      is gone; `vault` is the balance of its escrow account. */
  datatype Job = Job(request: Option<Request>, lease: Option<Lease>, dispute: Option<Dispute>, vault: u64)

  datatype Market = Market(config: Config, nonce: u64, jobs: map<nat, Job>, providers: map<Key, Provider>)

  type Step = Result<Market, MarketError>

  function Initialize(admin: Key, feeBps: u16): Market {
    Market(Config(admin, feeBps, DISPUTE_WINDOW_SLOTS, false), 0, map[], map[])
  }

  function RequestCompute(m: Market, who: Key, specs: Specs, hours: u32, maxPrice: u64,
                          metadata: nat, funds: nat): Step {
    if metadata > MAX_JOB_METADATA then Err(MetadataTooLarge) else
    :- Need(!m.config.paused, ProgramPaused);
    var escrow: nat := maxPrice * hours;
    :- Need(escrow <= U64_MAX, Overflow);
    :- Need(escrow <= funds, TransferFailed);
    :- Need(m.nonce < U64_MAX, Overflow);
    Ok(m.(nonce := m.nonce + 1,
          jobs := m.jobs[m.nonce := Job(Some(Request(who, specs, hours, maxPrice, escrow, Open,
                                                     DEFAULT_DISPUTE_DEADLINE_SLOTS)),
                                      None, None, escrow)]))
  }

  /** The GPU a request asks for is not compared. */
  predicate Suffices(p: Specs, wanted: Specs) {
    p.vram >= wanted.vram && p.cores >= wanted.cores && p.ram >= wanted.ram
  }

  function AcceptJob(m: Market, who: Key, n: nat, now: i64): Step {
    if who !in m.providers || n !in m.jobs || m.jobs[n].request.None? then Err(AccountMissing) else
    var p, q := m.providers[who], m.jobs[n].request.value;
    :- Need(p.active, ProviderNotActive);
    :- Need(q.status.Open?, InvalidRequestStatus);
    :- Need(Suffices(p.specs, q.specs), SpecsInsufficient);
    :- Need(p.price <= q.maxPrice, PriceExceedsMax);
    :- Need(m.jobs[n].lease.None?, AccountMissing);
    :- Need(now + 3_600 * q.hours <= I64_MAX, Overflow);
    :- Need(p.activeLeases < U32_MAX, Overflow);
    var lease := Lease(who, q.requester, p.price, now, now + 3_600 * q.hours, Active, 0);
    Ok(m.(jobs := m.jobs[n := m.jobs[n].(lease := Some(lease), request := Some(q.(status := Matched)))],
          providers := m.providers[who := p.(activeLeases := p.activeLeases + 1)]))
  }

  function SubmitProof(m: Market, who: Key, n: nat, proof: nat, now: i64): Step {
    if proof > MAX_PROOF_DATA then Err(ProofTooLarge) else
    :- Need(n in m.jobs && m.jobs[n].lease.Some?, AccountMissing);
    var l := m.jobs[n].lease.value;
    :- Need(l.provider == who, Unauthorized);
    :- Need(l.status.Active?, InvalidLeaseStatus);
    Ok(m.(jobs := m.jobs[n := m.jobs[n].(lease := Some(l.(status := ProofSubmitted, proofAt := now)))]))
  }

  // ---------- Settlement ----------

  datatype Payout = Payout(provider: u64, foundation: u64, burn: u64, refund: u64)

  /** A signed 64-bit number read as an unsigned one. */
  function AsUnsigned(t: i64): u64 {
    if t < 0 then t + 0x1_0000_0000_0000_0000 else t
  }

  /** The age of a proof as the handlers compute it: a slot number less a time stamp, or zero. */
  function SlotsSinceProof(l: Lease, slot: u64): u64 {
    if slot < AsUnsigned(l.proofAt) then 0 else slot - AsUnsigned(l.proofAt)
  }

  /** Whole hours of a lease, rounded up. The difference saturates as a signed number and is then read as an
      unsigned one. */
  function LeaseHours(l: Lease): Result<nat, MarketError> {
    var signed := if l.end - l.start > I64_MAX then I64_MAX
                  else if l.end - l.start < -0x8000_0000_0000_0000 then -0x8000_0000_0000_0000
                  else l.end - l.start;
    var seconds := AsUnsigned(signed);
    :- Need(seconds + 3_599 <= U64_MAX, Overflow);
    Ok((seconds + 3_599) / 3_600)
  }

  function Cost(l: Lease, escrowed: u64): Result<u64, MarketError> {
    var hours :- LeaseHours(l);
    var cost: nat := l.price * hours;
    :- Need(cost <= U64_MAX, Overflow);
    Ok(Min(cost, escrowed))
  }

  /** How an escrow is divided: the protocol fee comes out of the cost, a tenth of it for the foundation and
      the rest burned; the requester gets back what the cost leaves. */
  function Settlement(l: Lease, escrowed: u64, feeBps: u16): Result<Payout, MarketError> {
    var cost :- Cost(l, escrowed);
    var scaled: nat := cost * feeBps;
    :- Need(scaled <= U64_MAX, Overflow);
    var fee := scaled / BPS_DENOMINATOR;
    :- Need(fee <= cost, Overflow);
    Ok(Payout(cost - fee, fee / 10, fee - fee / 10, escrowed - cost))
  }

  function Released(p: Provider): Result<Provider, MarketError> {
    if p.completed >= U32_MAX then Err(Overflow) else
    Ok(p.(activeLeases := if p.activeLeases > 0 then p.activeLeases - 1 else 0, completed := p.completed + 1))
  }

  /** The escrow account after the four payments. */
  function PaidFrom(vault: u64, pay: Payout, burnIntoVault: bool): Result<u64, MarketError> {
    if pay.provider + pay.foundation + pay.burn > vault then Err(TransferFailed) else
    var left := vault - pay.provider - pay.foundation - if burnIntoVault then 0 else pay.burn;
    :- Need(pay.refund <= left, TransferFailed);
    Ok(left - pay.refund)
  }

  /** The account that is sent the burned part is not checked: it can be the escrow itself. */
  function VerifyAndRelease(m: Market, n: nat, slot: u64, burnIntoVault: bool): Step {
    if n !in m.jobs || m.jobs[n].lease.None? || m.jobs[n].request.None? then Err(AccountMissing) else
    var j, l, q := m.jobs[n], m.jobs[n].lease.value, m.jobs[n].request.value;
    :- Need(l.provider in m.providers, AccountMissing);
    :- Need(l.status.ProofSubmitted?, InvalidLeaseStatus);
    :- Need(SlotsSinceProof(l, slot) >= m.config.window, DisputeWindowOpen);
    var pay :- Settlement(l, q.escrowed, m.config.feeBps);
    var vault :- PaidFrom(j.vault, pay, burnIntoVault);
    var p :- Released(m.providers[l.provider]);
    Ok(m.(jobs := m.jobs[n := j.(lease := Some(l.(status := Done)),
                                 request := Some(q.(status := Completed, escrowed := 0)),
                                 vault := vault)],
          providers := m.providers[l.provider := p]))
  }

  function DisputeLease(m: Market, who: Key, n: nat, slot: u64): Step {
    if n !in m.jobs || m.jobs[n].lease.None? || m.jobs[n].request.None? then Err(AccountMissing) else
    var j, l, q := m.jobs[n], m.jobs[n].lease.value, m.jobs[n].request.value;
    :- Need(who == l.requester || who == m.config.admin, Unauthorized);
    :- Need(l.status.ProofSubmitted?, InvalidLeaseStatus);
    :- Need(SlotsSinceProof(l, slot) <= m.config.window, DisputeWindowExpired);
    :- Need(q.deadline == 0 || SlotsSinceProof(l, slot) <= q.deadline, DisputeDeadlinePassed);
    :- Need(j.dispute.None?, DisputeExists);
    Ok(m.(jobs := m.jobs[n := j.(lease := Some(l.(status := Disputed)),
                                 dispute := Some(Dispute(slot, false, false, false)))]))
  }

  function ProviderCounter(m: Market, who: Key, n: nat): Step {
    if n !in m.jobs || m.jobs[n].lease.None? || m.jobs[n].dispute.None? then Err(AccountMissing) else
    var j, l, d := m.jobs[n], m.jobs[n].lease.value, m.jobs[n].dispute.value;
    :- Need(l.provider == who, Unauthorized);
    :- Need(l.status.Disputed? && !d.resolved, InvalidLeaseStatus);
    :- Need(!d.countered, CounterAlreadySubmitted);
    Ok(m.(jobs := m.jobs[n := j.(dispute := Some(d.(countered := true)))]))
  }

  /** Half the stake is struck off. */
  function Penalized(p: Provider): Result<Provider, MarketError> {
    if p.slashes >= U32_MAX then Err(Overflow) else
    Ok(p.(stake := p.stake - p.stake / 2, slashes := p.slashes + 1))
  }

  function Idle(p: Provider): Provider {
    p.(activeLeases := if p.activeLeases > 0 then p.activeLeases - 1 else 0)
  }

  /** The administrator decides; after a long silence anyone may call it, and the requester wins. A dispute
      found frivolous reopens the lease for release, and yet the provider's count of leases drops. */
  function ResolveDispute(m: Market, caller: Key, n: nat, slot: u64, atFault: bool): Step {
    if n !in m.jobs || m.jobs[n].lease.None? || m.jobs[n].request.None? || m.jobs[n].dispute.None?
    then Err(AccountMissing) else
    var j, l, q, d := m.jobs[n], m.jobs[n].lease.value, m.jobs[n].request.value, m.jobs[n].dispute.value;
    :- Need(l.provider in m.providers, AccountMissing);
    :- Need(!d.resolved, InvalidLeaseStatus);
    :- Need(slot >= d.createdSlot, Overflow);
    var auto := slot - d.createdSlot >= DISPUTE_AUTO_RESOLVE_SLOTS;
    :- Need(auto || caller == m.config.admin, Unauthorized);
    :- Need(l.status.Disputed?, InvalidLeaseStatus);
    if auto || atFault then
      var p :- Penalized(m.providers[l.provider]);
      :- Need(q.escrowed <= j.vault, TransferFailed);
      Ok(m.(jobs := m.jobs[n := Job(Some(q.(escrowed := 0)), Some(l.(status := Slashed)),
                                    Some(d.(resolved := true, providerAtFault := true)), j.vault - q.escrowed)],
            providers := m.providers[l.provider := Idle(p)]))
    else
      Ok(m.(jobs := m.jobs[n := j.(lease := Some(l.(status := ProofSubmitted)),
                                   dispute := Some(d.(resolved := true, providerAtFault := false)))],
            providers := m.providers[l.provider := Idle(m.providers[l.provider])]))
  }

  /** Anyone may strike a provider whose lease ran out an hour ago without a proof. */
  function SlashProvider(m: Market, n: nat, now: i64): Step {
    if n !in m.jobs || m.jobs[n].lease.None? || m.jobs[n].request.None? then Err(AccountMissing) else
    var j, l, q := m.jobs[n], m.jobs[n].lease.value, m.jobs[n].request.value;
    :- Need(l.status.Active?, InvalidLeaseStatus);
    :- Need(l.provider in m.providers, AccountMissing);
    :- Need(l.end + 3_600 <= I64_MAX, Overflow);
    :- Need(now > l.end + 3_600, LeaseNotTimedOut);
    var p :- Penalized(m.providers[l.provider]);
    :- Need(q.escrowed <= j.vault, TransferFailed);
    Ok(m.(jobs := m.jobs[n := j.(request := Some(q.(escrowed := 0, status := Cancelled)),
                                 lease := Some(l.(status := Slashed)), vault := j.vault - q.escrowed)],
          providers := m.providers[l.provider := Idle(p).(active := false)]))
  }

  function CloseJob(m: Market, who: Key, n: nat): Step {
    if n !in m.jobs || m.jobs[n].request.None? then Err(AccountMissing) else
    var q := m.jobs[n].request.value;
    :- Need(q.requester == who, Unauthorized);
    :- Need(q.status.Completed? && q.escrowed == 0, JobNotCloseable);
    Ok(m.(jobs := m.jobs[n := m.jobs[n].(request := None)]))
  }

  /** A provider registers, or changes its offer or its standing; leases keep the price they were taken at. */
  function SetProvider(m: Market, who: Key, p: Provider): Step {
    Ok(m.(providers := m.providers[who := p]))
  }

  // ---------- Arithmetic of a settlement ----------

  /** The round-up gives back exactly the hours that were asked for. */
  lemma HoursComeBack(l: Lease, hours: u32)
    requires l.end == l.start + 3_600 * hours
    ensures LeaseHours(l) == Ok(hours)
  {
    DivUnique(3_600 * hours + 3_599, 3_600, hours);
  }

  lemma PriceTimesHours(price: nat, max: nat, hours: nat)
    requires price <= max
    ensures price * hours <= max * hours
  {
    MulMono(hours, price, max);
  }

  /** For a lease taken at no more than the maximum price, the cost is exactly price times hours: the escrow
      always covers it, so that the cap on the cost never bites and the product never overflows. */
  lemma CostIsExact(l: Lease, hours: u32, maxPrice: u64, escrowed: u64)
    requires l.end == l.start + 3_600 * hours && l.price <= maxPrice && escrowed == maxPrice * hours
    ensures Cost(l, escrowed) == Ok(l.price * hours)
  {
    HoursComeBack(l, hours);
    PriceTimesHours(l.price, maxPrice, hours);
  }

  /** A settlement hands out the escrow to the last unit. */
  lemma SettlementIsExact(l: Lease, hours: u32, maxPrice: u64, escrowed: u64, feeBps: u16)
    requires l.end == l.start + 3_600 * hours && l.price <= maxPrice && escrowed == maxPrice * hours
    ensures var cost := l.price * hours;
            && (Settlement(l, escrowed, feeBps).Ok? <==> cost * feeBps <= U64_MAX && cost * feeBps / 10_000 <= cost)
            && (Settlement(l, escrowed, feeBps).Ok? ==>
                  var pay := Settlement(l, escrowed, feeBps).value;
                  && pay.provider + pay.foundation + pay.burn == cost
                  && pay.refund == (maxPrice - l.price) * hours
                  && pay.provider + pay.foundation + pay.burn + pay.refund == escrowed
                  && 10_000 * (pay.foundation + pay.burn) <= cost * feeBps
                     < 10_000 * (pay.foundation + pay.burn) + 10_000
                  && 10 * pay.foundation <= pay.foundation + pay.burn < 10 * pay.foundation + 10)
  {
    CostIsExact(l, hours, maxPrice, escrowed);
    PriceTimesHours(l.price, maxPrice, hours);
    Spread(maxPrice, l.price, hours);
    var scaled: nat := l.price * hours * feeBps;
    DivBounds(scaled, 10_000);
  }

  lemma Spread(max: nat, price: nat, hours: nat)
    ensures (max - price) * hours == max * hours - price * hours
  {
  }

  /** No fee of at most the whole cost can make the subtraction fail; one of twice the cost always does. */
  lemma FeeFits(cost: nat, feeBps: u16)
    ensures feeBps <= 10_000 ==> cost * feeBps / 10_000 <= cost
    ensures feeBps >= 20_000 && cost > 0 ==> cost * feeBps / 10_000 > cost
  {
    if feeBps <= 10_000 {
      MulMono(cost, feeBps, 10_000);
      DivMono(cost * feeBps, cost * 10_000, 10_000, 10_000);
      DivCancel(cost, 10_000);
    } else if feeBps >= 20_000 {
      MulMono(cost, 20_000, feeBps);
      DivMono(cost * 2 * 10_000, cost * feeBps, 10_000, 10_000);
      DivCancel(cost * 2, 10_000);
    }
  }
}
