/** What each instruction of the compute market asks for and what it does to its job and its provider. */
module ComputeEffects {
  import opened Numbers
  import opened ComputeMarket
  import opened ComputeMarketRuns

  /** One job is what is said of it; the others are as they were. */
  ghost predicate OnlyJob(m: Market, m': Market, n: nat) {
    && m'.config == m.config && m'.nonce == m.nonce && n in m'.jobs && m'.jobs - {n} == m.jobs - {n}
  }

  ghost predicate OnlyProvider(m: Market, m': Market, who: Key) {
    who in m'.providers && m'.providers - {who} == m.providers - {who}
  }

  /** A provider has one lease less, unless it had none. */
  predicate OneLeaseLess(p: Provider, p': Provider) {
    if p.activeLeases == 0 then p'.activeLeases == 0 else p.activeLeases - p'.activeLeases == 1
  }

  /** Half of the stake, rounded down, is gone, and the blow is counted. */
  predicate Struck(p: Provider, p': Provider) {
    var lost := p.stake - p'.stake;
    2 * lost <= p.stake <= 2 * lost + 1 && p'.slashes - p.slashes == 1
  }

  // ---------- Offering a job, and taking it ----------

  /** A request pays the whole of its maximum price for all its hours into an escrow of its own. */
  lemma RequestEffect(m: Market, who: Key, specs: Specs, hours: u32, maxPrice: u64, metadata: nat, funds: nat)
    ensures var r := RequestCompute(m, who, specs, hours, maxPrice, metadata, funds);
            && (r.Ok? <==> && metadata <= 1_024 && !m.config.paused && maxPrice * hours <= U64_MAX
                           && maxPrice * hours <= funds && m.nonce < 0xFFFF_FFFF_FFFF_FFFF)
            && (r.Ok? ==>
                  && r.value == m.(nonce := r.value.nonce, jobs := r.value.jobs)
                  && r.value.nonce - m.nonce == 1
                  && m.nonce in r.value.jobs && r.value.jobs - {m.nonce} == m.jobs - {m.nonce}
                  && var j := r.value.jobs[m.nonce];
                     && j.vault == maxPrice * hours && j.lease.None? && j.dispute.None? && j.request.Some?
                     && var q := j.request.value;
                        && q.requester == who && q.specs == specs && q.hours == hours && q.maxPrice == maxPrice
                        && q.escrowed == maxPrice * hours && q.status.Open? && q.deadline == 216_000)
  {
  }

  /** An active provider that is good enough and cheap enough takes an open request at its own price, for the hours
      asked for, from now on. */
  lemma AcceptEffect(m: Market, who: Key, n: nat, now: i64)
    ensures var r := AcceptJob(m, who, n, now);
            && (r.Ok? <==>
                  && who in m.providers && n in m.jobs && m.jobs[n].request.Some? && m.jobs[n].lease.None?
                  && var p, q := m.providers[who], m.jobs[n].request.value;
                     && p.active && p.activeLeases < 0xFFFF_FFFF && q.status.Open? && p.price <= q.maxPrice
                     && p.specs.vram >= q.specs.vram && p.specs.cores >= q.specs.cores && p.specs.ram >= q.specs.ram
                     && now + 60 * 60 * q.hours <= 0x7FFF_FFFF_FFFF_FFFF)
            && (r.Ok? ==>
                  && OnlyJob(m, r.value, n) && OnlyProvider(m, r.value, who)
                  && var j, q, p := r.value.jobs[n], m.jobs[n].request.value, m.providers[who];
                     && j.request == Some(q.(status := Matched)) && j.dispute == m.jobs[n].dispute
                     && j.vault == m.jobs[n].vault && j.lease.Some?
                     && j.lease.value.provider == who && j.lease.value.requester == q.requester
                     && j.lease.value.price == p.price && j.lease.value.start == now
                     && j.lease.value.end - now == 60 * 60 * q.hours
                     && j.lease.value.status.Active? && j.lease.value.proofAt == 0
                     && r.value.providers[who] == p.(activeLeases := r.value.providers[who].activeLeases)
                     && r.value.providers[who].activeLeases - p.activeLeases == 1)
  {
  }

  /** The lease's own provider hands in a proof once, and its time is noted. */
  lemma ProofEffect(m: Market, who: Key, n: nat, proof: nat, now: i64)
    ensures var r := SubmitProof(m, who, n, proof, now);
            && (r.Ok? <==> && proof <= 1_024 && n in m.jobs && m.jobs[n].lease.Some?
                           && m.jobs[n].lease.value.provider == who && m.jobs[n].lease.value.status.Active?)
            && (r.Ok? ==>
                  && OnlyJob(m, r.value, n) && r.value.providers == m.providers
                  && r.value.jobs[n] == m.jobs[n].(lease := Some(m.jobs[n].lease.value.(status := ProofSubmitted,
                                                                                       proofAt := now))))
  {
  }

  // ---------- Payment ----------

  /** The protocol's part of the cost, and the tenth of that which the foundation gets, both rounded down. */
  predicate IsFee(cost: int, bps: nat, fee: nat, foundation: nat) {
    && 10_000 * fee <= cost * bps < 10_000 * fee + 10_000
    && 10 * foundation <= fee < 10 * foundation + 10
  }

  /** A release divides the whole escrow: the fee comes out of the cost, a tenth of it for the foundation and the rest
      burned; the provider gets what is left of the cost, and the requester what the cost left. */
  lemma ReleaseEffect(w: World, n: nat, slot: u64, burnIntoVault: bool, fee: nat, foundation: nat)
    requires Good(w) && VerifyAndRelease(w.m, n, slot, burnIntoVault).Ok?
    requires IsFee(w.m.jobs[n].lease.value.price * w.trails[n].hours, w.m.config.feeBps, fee, foundation)
    ensures var m', t, t' := VerifyAndRelease(w.m, n, slot, burnIntoVault).value, w.trails[n],
                             Perform(w, Release(n, slot, burnIntoVault)).trails[n];
            var j, l := w.m.jobs[n], w.m.jobs[n].lease.value;
            var cost := l.price * t.hours;
            && OnlyJob(w.m, m', n) && OnlyProvider(w.m, m', l.provider)
            && m'.jobs[n] == j.(lease := Some(l.(status := Done)), vault := m'.jobs[n].vault,
                                request := Some(j.request.value.(status := Completed, escrowed := 0)))
            && t'.toProvider - t.toProvider == cost - fee
            && t'.toFoundation - t.toFoundation == foundation
            && t'.burned - t.burned == fee - foundation
            && t'.toRequester - t.toRequester == (t.maxPrice - l.price) * t.hours
            && j.vault - m'.jobs[n].vault == t.paidIn - (if burnIntoVault then fee - foundation else 0)
            && var p, p' := w.m.providers[l.provider], m'.providers[l.provider];
               && OneLeaseLess(p, p') && p'.completed - p.completed == 1
               && p' == p.(activeLeases := p'.activeLeases, completed := p'.completed)
  {
    var j, t := w.m.jobs[n], w.trails[n];
    assert JobGood(j, t);
    SettlementIsExact(j.lease.value, t.hours, t.maxPrice, j.request.value.escrowed, w.m.config.feeBps);
    var pay := Settlement(j.lease.value, j.request.value.escrowed, w.m.config.feeBps).value;
    FeeIsUnique(j.lease.value.price * t.hours, w.m.config.feeBps, fee, foundation, pay.foundation + pay.burn,
                pay.foundation);
    PaymentEffect(w.m, n, slot, burnIntoVault, pay);
  }

  lemma FeeIsUnique(cost: int, bps: nat, fee: nat, foundation: nat, other: nat, share: nat)
    requires IsFee(cost, bps, fee, foundation) && IsFee(cost, bps, other, share)
    ensures other == fee && share == foundation
  {
  }

  lemma PaymentEffect(m: Market, n: nat, slot: u64, burnIntoVault: bool, pay: Payout)
    requires VerifyAndRelease(m, n, slot, burnIntoVault).Ok?
    requires Settlement(m.jobs[n].lease.value, m.jobs[n].request.value.escrowed, m.config.feeBps) == Ok(pay)
    ensures var m' := VerifyAndRelease(m, n, slot, burnIntoVault).value;
            var j, l := m.jobs[n], m.jobs[n].lease.value;
            && OnlyJob(m, m', n) && OnlyProvider(m, m', l.provider)
            && m'.jobs[n] == j.(lease := Some(l.(status := Done)), vault := m'.jobs[n].vault,
                                request := Some(j.request.value.(status := Completed, escrowed := 0)))
            && j.vault - m'.jobs[n].vault
               == pay.provider + pay.foundation + pay.refund + (if burnIntoVault then 0 else pay.burn)
            && var p, p' := m.providers[l.provider], m'.providers[l.provider];
               && OneLeaseLess(p, p') && p'.completed - p.completed == 1
               && p' == p.(activeLeases := p'.activeLeases, completed := p'.completed)
  {
  }

  /** Every lease has its whole hours, rounded up, but for one that ends less than an hour before it begins: an end
      before the beginning is read as one far in the future. */
  lemma HoursRoundUp(l: Lease)
    ensures LeaseHours(l).Ok? <==> !(-3_600 < l.end - l.start < 0)
    ensures LeaseHours(l).Ok? ==>
              var hours, length := LeaseHours(l).value, l.end - l.start;
              && (0 <= length <= 0x7FFF_FFFF_FFFF_FFFF ==> 3_600 * hours - 3_600 < length <= 3_600 * hours)
              && (length > 0x7FFF_FFFF_FFFF_FFFF ==> 3_600 * hours - 3_600 < 0x7FFF_FFFF_FFFF_FFFF <= 3_600 * hours)
              && (-0x8000_0000_0000_0000 <= length < 0 ==>
                    3_600 * hours - 3_600 < 0x1_0000_0000_0000_0000 + length <= 3_600 * hours)
              && (length < -0x8000_0000_0000_0000 ==> 3_600 * hours - 3_600 < 0x8000_0000_0000_0000 <= 3_600 * hours)
  {
  }

  /** The cost is the price of those hours, or the escrow if that is less. */
  lemma CostIsCapped(l: Lease, escrowed: u64, hours: nat)
    requires LeaseHours(l) == Ok(hours)
    ensures Cost(l, escrowed).Ok? <==> l.price * hours <= U64_MAX
    ensures Cost(l, escrowed).Ok? ==>
              var cost := Cost(l, escrowed).value;
              && cost <= l.price * hours && cost <= escrowed && (cost == l.price * hours || cost == escrowed)
  {
  }

  /** The escrow can make its four payments exactly if it holds them; a burned part that comes back in is there for the
      refund. */
  lemma PaymentsFitExactlyWhen(vault: u64, pay: Payout, burnIntoVault: bool)
    ensures var r := PaidFrom(vault, pay, burnIntoVault);
            && (r.Ok? <==>
                  && pay.provider + pay.foundation + pay.burn <= vault
                  && pay.provider + pay.foundation + pay.refund + (if burnIntoVault then 0 else pay.burn) <= vault)
            && (r.Ok? ==>
                  vault - r.value
                  == pay.provider + pay.foundation + pay.refund + (if burnIntoVault then 0 else pay.burn))
  {
  }

  /** The age of a proof is the slot number less its time stamp, where the slot number has outgrown it; a time stamp
      before 1970 counts as one beyond every signed number. */
  lemma AgeOfAProof(l: Lease, slot: u64)
    ensures var age, outgrown := SlotsSinceProof(l, slot),
                                 slot - l.proofAt - (if l.proofAt < 0 then 0x1_0000_0000_0000_0000 else 0);
            if outgrown > 0 then age == outgrown else age == 0
  {
  }

  /** Release waits for fifty slot numbers past the time stamp of the proof, and a dispute comes at the latest with
      them: only in that one slot are both open. */
  lemma ReleaseAndDisputeMeetOnce(w: World, n: nat, slot: u64, who: Key, burnIntoVault: bool)
    requires Good(w) && n in w.m.jobs && w.m.jobs[n].lease.Some? && w.m.jobs[n].lease.value.proofAt >= 0
    ensures var proofAt := w.m.jobs[n].lease.value.proofAt;
            && (VerifyAndRelease(w.m, n, slot, burnIntoVault).Ok? ==> slot >= proofAt + 50)
            && (DisputeLease(w.m, who, n, slot).Ok? ==> slot <= proofAt + 50)
  {
    assert JobGood(w.m.jobs[n], w.trails[n]);
  }

  // ---------- Disputes ----------

  /** The requester or the administrator can dispute a lease with its proof in, once, while the proof is no older than
      the window and than the request's own deadline, if it has one. */
  lemma DisputeSucceedsExactlyWhen(m: Market, who: Key, n: nat, slot: u64)
    ensures DisputeLease(m, who, n, slot).Ok?
            <==> && n in m.jobs && m.jobs[n].lease.Some? && m.jobs[n].request.Some? && m.jobs[n].dispute.None?
                 && var l, deadline := m.jobs[n].lease.value, m.jobs[n].request.value.deadline;
                    && (who == l.requester || who == m.config.admin) && l.status.ProofSubmitted?
                    && SlotsSinceProof(l, slot) <= m.config.window
                    && (deadline > 0 ==> SlotsSinceProof(l, slot) <= deadline)
  {
  }

  lemma DisputeEffect(m: Market, who: Key, n: nat, slot: u64)
    requires DisputeLease(m, who, n, slot).Ok?
    ensures var m' := DisputeLease(m, who, n, slot).value;
            && OnlyJob(m, m', n) && m'.providers == m.providers
            && m'.jobs[n] == m.jobs[n].(lease := Some(m.jobs[n].lease.value.(status := Disputed)),
                                        dispute := m'.jobs[n].dispute)
            && m'.jobs[n].dispute.Some?
            && var d := m'.jobs[n].dispute.value;
               d.createdSlot == slot && !d.countered && !d.resolved && !d.providerAtFault
  {
  }

  /** The provider of a disputed lease can answer once. */
  lemma CounterEffect(m: Market, who: Key, n: nat)
    ensures var r := ProviderCounter(m, who, n);
            && (r.Ok? <==> && n in m.jobs && m.jobs[n].lease.Some? && m.jobs[n].dispute.Some?
                           && m.jobs[n].lease.value.provider == who && m.jobs[n].lease.value.status.Disputed?
                           && !m.jobs[n].dispute.value.resolved && !m.jobs[n].dispute.value.countered)
            && (r.Ok? ==>
                  && OnlyJob(m, r.value, n) && r.value.providers == m.providers
                  && r.value.jobs[n] == m.jobs[n].(dispute := r.value.jobs[n].dispute)
                  && r.value.jobs[n].dispute == Some(m.jobs[n].dispute.value.(countered := true))
                  && ProviderCounter(r.value, who, n).Err?)
  {
  }

  /** What a verdict needs before anybody is judged. */
  predicate Triable(m: Market, n: nat, slot: u64) {
    && n in m.jobs && m.jobs[n].lease.Some? && m.jobs[n].request.Some? && m.jobs[n].dispute.Some?
    && m.jobs[n].lease.value.provider in m.providers && m.jobs[n].lease.value.status.Disputed?
    && !m.jobs[n].dispute.value.resolved && slot >= m.jobs[n].dispute.value.createdSlot
  }

  /** The dispute has been open for 648,000 slots. */
  predicate Overdue(m: Market, n: nat, slot: u64)
    requires Triable(m, n, slot)
  {
    slot >= m.jobs[n].dispute.value.createdSlot + 648_000
  }

  /** Whom a verdict is given against: the provider, if the administrator says so or the dispute is overdue. */
  predicate AgainstProvider(m: Market, n: nat, slot: u64, atFault: bool)
    requires Triable(m, n, slot)
  {
    Overdue(m, n, slot) || atFault
  }

  /** A dispute is decided by the administrator, or by anyone once it is overdue. */
  lemma ResolveSucceedsExactlyWhen(m: Market, caller: Key, n: nat, slot: u64, atFault: bool)
    ensures ResolveDispute(m, caller, n, slot, atFault).Ok?
            <==> && Triable(m, n, slot) && (Overdue(m, n, slot) || caller == m.config.admin)
                 && (AgainstProvider(m, n, slot, atFault) ==>
                       && m.providers[m.jobs[n].lease.value.provider].slashes < 0xFFFF_FFFF
                       && m.jobs[n].request.value.escrowed <= m.jobs[n].vault)
  {
  }

  /** Against the provider, the whole escrow goes back, the lease is over and the stake is halved; for the provider,
      the lease is open for release again, with the escrow in place. Either way the provider has one lease less. */
  lemma ResolveEffect(m: Market, caller: Key, n: nat, slot: u64, atFault: bool)
    requires ResolveDispute(m, caller, n, slot, atFault).Ok?
    ensures var m' := ResolveDispute(m, caller, n, slot, atFault).value;
            var j, j' := m.jobs[n], m'.jobs[n];
            var who := j.lease.value.provider;
            var p, p' := m.providers[who], m'.providers[who];
            && OnlyJob(m, m', n) && OnlyProvider(m, m', who)
            && j'.dispute == Some(j.dispute.value.(resolved := true,
                                                   providerAtFault := AgainstProvider(m, n, slot, atFault)))
            && OneLeaseLess(p, p')
            && if AgainstProvider(m, n, slot, atFault) then
                 && j'.lease == Some(j.lease.value.(status := LeaseStatus.Slashed))
                 && j'.request == Some(j.request.value.(escrowed := 0))
                 && j.vault - j'.vault == j.request.value.escrowed
                 && Struck(p, p') && p' == p.(activeLeases := p'.activeLeases, stake := p'.stake, slashes := p'.slashes)
               else
                 && j'.lease == Some(j.lease.value.(status := ProofSubmitted))
                 && j'.request == j.request && j'.vault == j.vault
                 && p' == p.(activeLeases := p'.activeLeases)
  {
  }

  // ---------- Endings without a verdict ----------

  /** More than an hour after the end of a lease without a proof anyone may strike its provider: the escrow goes back,
      and the provider is struck and out of business. */
  lemma SlashEffect(m: Market, n: nat, now: i64)
    ensures var r := SlashProvider(m, n, now);
            && (r.Ok? <==>
                  && n in m.jobs && m.jobs[n].lease.Some? && m.jobs[n].request.Some?
                  && var l, q := m.jobs[n].lease.value, m.jobs[n].request.value;
                     && l.status.Active? && l.provider in m.providers && now > l.end + 60 * 60
                     && m.providers[l.provider].slashes < 0xFFFF_FFFF && q.escrowed <= m.jobs[n].vault)
            && (r.Ok? ==>
                  var j, j', l := m.jobs[n], r.value.jobs[n], m.jobs[n].lease.value;
                  var p, p' := m.providers[l.provider], r.value.providers[l.provider];
                  && OnlyJob(m, r.value, n) && OnlyProvider(m, r.value, l.provider)
                  && j'.lease == Some(l.(status := LeaseStatus.Slashed)) && j'.dispute == j.dispute
                  && j'.request == Some(j.request.value.(escrowed := 0, status := Cancelled))
                  && j.vault - j'.vault == j.request.value.escrowed
                  && Struck(p, p') && OneLeaseLess(p, p') && !p'.active
                  && p' == p.(activeLeases := p'.activeLeases, stake := p'.stake, slashes := p'.slashes,
                               active := false))
  {
  }

  lemma CloseEffect(m: Market, who: Key, n: nat)
    ensures var r := CloseJob(m, who, n);
            && (r.Ok? <==> && n in m.jobs && m.jobs[n].request.Some?
                           && var q := m.jobs[n].request.value;
                              q.requester == who && q.status.Completed? && q.escrowed == 0)
            && (r.Ok? ==>
                  && OnlyJob(m, r.value, n) && r.value.providers == m.providers
                  && r.value.jobs[n].request.None? && r.value.jobs[n] == m.jobs[n].(request := None))
  {
  }

  /** A market opens with a window of fifty slots and nothing in it. */
  lemma InitialEffect(admin: Key, feeBps: u16)
    ensures var m := Initialize(admin, feeBps);
            && m.config.admin == admin && m.config.feeBps == feeBps && m.config.window == 50 && !m.config.paused
            && m.nonce == |m.jobs| == |m.providers| == 0
  {
  }

  lemma SettingsEffect(m: Market, who: Key, p: Provider, paused: bool)
    ensures Execute(m, Enlist(who, p)).Ok? && Execute(m, Pause(paused)).Ok?
    ensures var m' := Execute(m, Enlist(who, p)).value;
            OnlyProvider(m, m', who) && m'.providers[who] == p && m' == m.(providers := m'.providers)
    ensures var m' := Execute(m, Pause(paused)).value;
            m'.config.paused == paused && m' == m.(config := m.config.(paused := m'.config.paused))
  {
  }

  // ---------- Refusals ----------

  /** What must be the case when an instruction reports an error. */
  predicate MarketCause(m: Market, c: Command, e: MarketError) {
    match e
    case AccountMissing => AboutJob(c)
    case MetadataTooLarge => c.Ask? && c.metadata > 1_024
    case ProgramPaused => c.Ask? && m.config.paused
    case Unauthorized => c.Prove? || c.Contest? || c.Counter? || (c.Resolve? && c.who != m.config.admin) || c.Close?
    case ProviderNotActive => c.Accept? && c.who in m.providers && !m.providers[c.who].active
    case InvalidRequestStatus =>
      c.Accept? && c.n in m.jobs && m.jobs[c.n].request.Some? && !m.jobs[c.n].request.value.status.Open?
    case SpecsInsufficient => c.Accept?
    case PriceExceedsMax =>
      && c.Accept? && c.who in m.providers && c.n in m.jobs && m.jobs[c.n].request.Some?
      && m.providers[c.who].price > m.jobs[c.n].request.value.maxPrice
    case ProofTooLarge => c.Prove? && c.proof > 1_024
    case InvalidLeaseStatus =>
      && (c.Prove? || c.Release? || c.Contest? || c.Counter? || c.Resolve? || c.Slash?)
      && c.n in m.jobs && m.jobs[c.n].lease.Some?
      && var s := m.jobs[c.n].lease.value.status;
         && (c.Prove? || c.Slash? ==> !s.Active?) && (c.Release? || c.Contest? ==> !s.ProofSubmitted?)
         && (c.Counter? || c.Resolve? ==>
               s.Disputed? ==> m.jobs[c.n].dispute.Some? && m.jobs[c.n].dispute.value.resolved)
    case DisputeWindowOpen => c.Release?
    case DisputeWindowExpired => c.Contest?
    case DisputeDeadlinePassed => c.Contest?
    case DisputeExists => c.Contest? && c.n in m.jobs && m.jobs[c.n].dispute.Some?
    case LeaseNotTimedOut =>
      c.Slash? && c.n in m.jobs && m.jobs[c.n].lease.Some? && c.now <= m.jobs[c.n].lease.value.end + 3_600
    case JobNotCloseable => c.Close?
    case CounterAlreadySubmitted =>
      c.Counter? && c.n in m.jobs && m.jobs[c.n].dispute.Some? && m.jobs[c.n].dispute.value.countered
    case TransferFailed =>
      if c.Ask? then c.maxPrice * c.hours > c.funds
      else if c.Resolve? || c.Slash? then
        c.n in m.jobs && m.jobs[c.n].request.Some? && m.jobs[c.n].request.value.escrowed > m.jobs[c.n].vault
      else c.Release? || c.Tip?
    case Overflow => c.Ask? || c.Accept? || c.Release? || c.Resolve? || c.Slash?
  }

  /** No refusal names a cause that is not there. */
  lemma MarketRefusalsAreTrue(m: Market, c: Command)
    requires Execute(m, c).Err?
    ensures MarketCause(m, c, Execute(m, c).error)
  {
    match c {
      case Release(_, _, _) => ReleasingRefusalsAreTrue(m, c);
      case Contest(_, _, _) => DisputeRefusalsAreTrue(m, c);
      case Counter(_, _) => DisputeRefusalsAreTrue(m, c);
      case Resolve(_, _, _, _) => VerdictRefusalsAreTrue(m, c);
      case Slash(_, _) => VerdictRefusalsAreTrue(m, c);
      case _ => JobRefusalsAreTrue(m, c);
    }
  }

  lemma ReleasingRefusalsAreTrue(m: Market, c: Command)
    requires c.Release? && Execute(m, c).Err?
    ensures MarketCause(m, c, Execute(m, c).error)
  {
  }

  lemma DisputeRefusalsAreTrue(m: Market, c: Command)
    requires (c.Contest? || c.Counter?) && Execute(m, c).Err?
    ensures MarketCause(m, c, Execute(m, c).error)
  {
  }

  lemma VerdictRefusalsAreTrue(m: Market, c: Command)
    requires (c.Resolve? || c.Slash?) && Execute(m, c).Err?
    ensures MarketCause(m, c, Execute(m, c).error)
  {
  }

  lemma JobRefusalsAreTrue(m: Market, c: Command)
    requires !c.Release? && !c.Contest? && !c.Counter? && !c.Resolve? && !c.Slash? && Execute(m, c).Err?
    ensures MarketCause(m, c, Execute(m, c).error)
  {
  }
}
