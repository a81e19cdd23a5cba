/** The compute market over accounts updated in place. The handlers leave the accounts as their specifications say;
    the entry point dispatches to them and keeps every job's escrow accounted for. */
module ComputeProgram {
  import opened Numbers
  import opened ComputeMarket
  import opened ComputeMarketRuns

  function Verdict(step: Step): Outcome<MarketError> {
    if step.Ok? then Pass else Fail(step.error)
  }

  function After(m: Market, step: Step): Market {
    if step.Ok? then step.value else m
  }

  class Program {
    var config: Config
    var nonce: u64
    var jobs: map<nat, Job>
    var providers: map<Key, Provider>

    ghost var trails: map<nat, Trail>

    /** Every job is where its trail says, and its escrow untouched or paid out once. */
    ghost predicate Valid()
      reads this
    {
      Good(World(View(), trails))
    }

    function View(): Market
      reads this
    {
      Market(config, nonce, jobs, providers)
    }

    constructor (admin: Key, feeBps: u16)
      ensures View() == Initialize(admin, feeBps) && trails == map[] && Valid()
    {
      config, nonce, jobs, providers := Config(admin, feeBps, DISPUTE_WINDOW_SLOTS, false), 0, map[], map[];
      trails := map[];
    }

    method ProcessRequestCompute(who: Key, specs: Specs, hours: u32, maxPrice: u64, metadata: nat, funds: nat)
      returns (r: Outcome<MarketError>)
      modifies this`config, this`nonce, this`jobs, this`providers
      ensures r == Verdict(RequestCompute(old(View()), who, specs, hours, maxPrice, metadata, funds))
      ensures View() == After(old(View()), RequestCompute(old(View()), who, specs, hours, maxPrice, metadata, funds))
    {
      if metadata > MAX_JOB_METADATA { return Fail(MetadataTooLarge); }
      if config.paused { return Fail(ProgramPaused); }
      var escrow: nat := maxPrice * hours;
      if escrow > U64_MAX { return Fail(Overflow); }
      if escrow > funds { return Fail(TransferFailed); }
      if nonce == U64_MAX { return Fail(Overflow); }
      jobs := jobs[nonce := Job(Some(Request(who, specs, hours, maxPrice, escrow, Open,
                                             DEFAULT_DISPUTE_DEADLINE_SLOTS)),
                               None, None, escrow)];
      nonce := nonce + 1;
      r := Pass;
    }

    method ProcessAcceptJob(who: Key, n: nat, now: i64) returns (r: Outcome<MarketError>)
      modifies this`config, this`nonce, this`jobs, this`providers
      ensures r == Verdict(AcceptJob(old(View()), who, n, now))
      ensures View() == After(old(View()), AcceptJob(old(View()), who, n, now))
    {
      if who !in providers || n !in jobs || jobs[n].request.None? { return Fail(AccountMissing); }
      var p, j, q := providers[who], jobs[n], jobs[n].request.value;
      if !p.active { return Fail(ProviderNotActive); }
      if !q.status.Open? { return Fail(InvalidRequestStatus); }
      if p.specs.vram < q.specs.vram || p.specs.cores < q.specs.cores || p.specs.ram < q.specs.ram {
        return Fail(SpecsInsufficient);
      }
      if p.price > q.maxPrice { return Fail(PriceExceedsMax); }
      if j.lease.Some? { return Fail(AccountMissing); }
      if now + 3_600 * q.hours > I64_MAX { return Fail(Overflow); }
      if p.activeLeases == U32_MAX { return Fail(Overflow); }
      j := j.(lease := Some(Lease(who, q.requester, p.price, now, now + 3_600 * q.hours, Active, 0)));
      q := q.(status := Matched);
      jobs := jobs[n := j.(request := Some(q))];
      providers := providers[who := p.(activeLeases := p.activeLeases + 1)];
      r := Pass;
    }

    method ProcessSubmitProof(who: Key, n: nat, proof: nat, now: i64) returns (r: Outcome<MarketError>)
      modifies this`jobs
      ensures r == Verdict(SubmitProof(old(View()), who, n, proof, now))
      ensures View() == After(old(View()), SubmitProof(old(View()), who, n, proof, now))
    {
      if proof > MAX_PROOF_DATA { return Fail(ProofTooLarge); }
      if n !in jobs || jobs[n].lease.None? { return Fail(AccountMissing); }
      var l := jobs[n].lease.value;
      if l.provider != who { return Fail(Unauthorized); }
      if !l.status.Active? { return Fail(InvalidLeaseStatus); }
      jobs := jobs[n := jobs[n].(lease := Some(l.(status := ProofSubmitted, proofAt := now)))];
      r := Pass;
    }

    method ProcessVerifyAndRelease(n: nat, slot: u64, burnIntoVault: bool) returns (r: Outcome<MarketError>)
      modifies this`config, this`nonce, this`jobs, this`providers
      ensures r == Verdict(VerifyAndRelease(old(View()), n, slot, burnIntoVault))
      ensures View() == After(old(View()), VerifyAndRelease(old(View()), n, slot, burnIntoVault))
    {
      if n !in jobs || jobs[n].lease.None? || jobs[n].request.None? { return Fail(AccountMissing); }
      var l, q, vault := jobs[n].lease.value, jobs[n].request.value, jobs[n].vault;
      if l.provider !in providers { return Fail(AccountMissing); }
      var p := providers[l.provider];
      if !l.status.ProofSubmitted? { return Fail(InvalidLeaseStatus); }
      var since := SlotsSinceProof(l, slot);
      if since < config.window { return Fail(DisputeWindowOpen); }
      var settled := Settlement(l, q.escrowed, config.feeBps);
      if settled.Err? { return Fail(settled.error); }
      var pay := settled.value;
      var paid := PaidFrom(vault, pay, burnIntoVault);
      if paid.Err? { return Fail(paid.error); }
      var active: u32 := if p.activeLeases > 0 then p.activeLeases - 1 else 0;
      if p.completed == U32_MAX { return Fail(Overflow); }
      jobs := jobs[n := jobs[n].(lease := Some(l.(status := Done)),
                                 request := Some(q.(status := Completed, escrowed := 0)), vault := paid.value)];
      providers := providers[l.provider := p.(activeLeases := active, completed := p.completed + 1)];
      r := Pass;
    }

    method ProcessDisputeLease(who: Key, n: nat, slot: u64) returns (r: Outcome<MarketError>)
      modifies this`jobs
      ensures r == Verdict(DisputeLease(old(View()), who, n, slot))
      ensures View() == After(old(View()), DisputeLease(old(View()), who, n, slot))
    {
      if n !in jobs || jobs[n].lease.None? || jobs[n].request.None? { return Fail(AccountMissing); }
      var j, l, q := jobs[n], jobs[n].lease.value, jobs[n].request.value;
      if l.requester != who && config.admin != who { return Fail(Unauthorized); }
      if !l.status.ProofSubmitted? { return Fail(InvalidLeaseStatus); }
      var since := SlotsSinceProof(l, slot);
      if since > config.window { return Fail(DisputeWindowExpired); }
      if q.deadline > 0 && since > q.deadline { return Fail(DisputeDeadlinePassed); }
      if j.dispute.Some? { return Fail(DisputeExists); }
      j := j.(dispute := Some(Dispute(slot, false, false, false)));
      jobs := jobs[n := j.(lease := Some(l.(status := Disputed)))];
      r := Pass;
    }

    method ProcessResolveDispute(caller: Key, n: nat, slot: u64, atFault: bool) returns (r: Outcome<MarketError>)
      modifies this`config, this`nonce, this`jobs, this`providers
      ensures r == Verdict(ResolveDispute(old(View()), caller, n, slot, atFault))
      ensures View() == After(old(View()), ResolveDispute(old(View()), caller, n, slot, atFault))
    {
      if n !in jobs || jobs[n].lease.None? || jobs[n].request.None? || jobs[n].dispute.None? {
        return Fail(AccountMissing);
      }
      var j, l, q, d := jobs[n], jobs[n].lease.value, jobs[n].request.value, jobs[n].dispute.value;
      if l.provider !in providers { return Fail(AccountMissing); }
      var p := providers[l.provider];
      if d.resolved { return Fail(InvalidLeaseStatus); }
      if slot < d.createdSlot { return Fail(Overflow); }
      var auto := slot - d.createdSlot >= DISPUTE_AUTO_RESOLVE_SLOTS;
      if !auto && caller != config.admin { return Fail(Unauthorized); }
      if !l.status.Disputed? { return Fail(InvalidLeaseStatus); }
      var fault := auto || atFault;
      d := d.(resolved := true, providerAtFault := fault);
      if fault {
        if p.slashes == U32_MAX { return Fail(Overflow); }
        p := p.(stake := p.stake - p.stake / 2, slashes := p.slashes + 1);
        if q.escrowed > j.vault { return Fail(TransferFailed); }
        j := j.(vault := j.vault - q.escrowed);
        q := q.(escrowed := 0);
        l := l.(status := Slashed);
      } else {
        l := l.(status := ProofSubmitted);
      }
      jobs := jobs[n := Job(Some(q), Some(l), Some(d), j.vault)];
      providers := providers[l.provider := p.(activeLeases := if p.activeLeases > 0 then p.activeLeases - 1 else 0)];
      r := Pass;
    }

    method ProcessSlashProvider(n: nat, now: i64) returns (r: Outcome<MarketError>)
      modifies this`config, this`nonce, this`jobs, this`providers
      ensures r == Verdict(SlashProvider(old(View()), n, now))
      ensures View() == After(old(View()), SlashProvider(old(View()), n, now))
    {
      if n !in jobs || jobs[n].lease.None? || jobs[n].request.None? { return Fail(AccountMissing); }
      var j, l, q := jobs[n], jobs[n].lease.value, jobs[n].request.value;
      if !l.status.Active? { return Fail(InvalidLeaseStatus); }
      if l.provider !in providers { return Fail(AccountMissing); }
      var p := providers[l.provider];
      if l.end + 3_600 > I64_MAX { return Fail(Overflow); }
      if now <= l.end + 3_600 { return Fail(LeaseNotTimedOut); }
      if p.slashes == U32_MAX { return Fail(Overflow); }
      p := p.(stake := p.stake - p.stake / 2, slashes := p.slashes + 1, active := false,
              activeLeases := if p.activeLeases > 0 then p.activeLeases - 1 else 0);
      if q.escrowed > j.vault { return Fail(TransferFailed); }
      j := j.(vault := j.vault - q.escrowed, request := Some(q.(escrowed := 0, status := Cancelled)));
      jobs := jobs[n := j.(lease := Some(l.(status := Slashed)))];
      providers := providers[l.provider := p];
      r := Pass;
    }

    method ProcessProviderCounter(who: Key, n: nat) returns (r: Outcome<MarketError>)
      modifies this`jobs
      ensures r == Verdict(ProviderCounter(old(View()), who, n))
      ensures View() == After(old(View()), ProviderCounter(old(View()), who, n))
    {
      if n !in jobs || jobs[n].lease.None? || jobs[n].dispute.None? { return Fail(AccountMissing); }
      var l, d := jobs[n].lease.value, jobs[n].dispute.value;
      if l.provider != who { return Fail(Unauthorized); }
      if !l.status.Disputed? || d.resolved { return Fail(InvalidLeaseStatus); }
      if d.countered { return Fail(CounterAlreadySubmitted); }
      jobs := jobs[n := jobs[n].(dispute := Some(d.(countered := true)))];
      r := Pass;
    }

    method ProcessCloseJob(who: Key, n: nat) returns (r: Outcome<MarketError>)
      modifies this`jobs
      ensures r == Verdict(CloseJob(old(View()), who, n))
      ensures View() == After(old(View()), CloseJob(old(View()), who, n))
    {
      if n !in jobs || jobs[n].request.None? { return Fail(AccountMissing); }
      var q := jobs[n].request.value;
      if q.requester != who { return Fail(Unauthorized); }
      if !q.status.Completed? || q.escrowed != 0 { return Fail(JobNotCloseable); }
      jobs := jobs[n := jobs[n].(request := None)];
      r := Pass;
    }
  
    method Dispatch(c: Command) returns (r: Outcome<MarketError>)
      modifies this`config, this`nonce, this`jobs, this`providers
      ensures r == Verdict(Execute(old(View()), c)) && View() == After(old(View()), Execute(old(View()), c))
    {
      match c {
        case Ask(who, specs, hours, maxPrice, metadata, funds) =>
          r := ProcessRequestCompute(who, specs, hours, maxPrice, metadata, funds);
        case Accept(who, n, now) => r := ProcessAcceptJob(who, n, now);
        case Prove(who, n, proof, now) => r := ProcessSubmitProof(who, n, proof, now);
        case Release(n, slot, burnIntoVault) => r := ProcessVerifyAndRelease(n, slot, burnIntoVault);
        case Contest(who, n, slot) => r := ProcessDisputeLease(who, n, slot);
        case Counter(who, n) => r := ProcessProviderCounter(who, n);
        case Resolve(who, n, slot, atFault) => r := ProcessResolveDispute(who, n, slot, atFault);
        case Slash(n, now) => r := ProcessSlashProvider(n, now);
        case Close(who, n) => r := ProcessCloseJob(who, n);
        case Enlist(who, p) =>
          providers := providers[who := p];
          r := Pass;
        case Tip(n, amount) =>
          if n !in jobs || jobs[n].vault + amount > U64_MAX { return Fail(TransferFailed); }
          jobs := jobs[n := jobs[n].(vault := jobs[n].vault + amount)];
          r := Pass;
        case Pause(paused) =>
          config := config.(paused := paused);
          r := Pass;
      }
    }

    /** The trails after a command about to run. */
    ghost method Note(c: Command)
      requires Valid()
      modifies this`trails
      ensures World(After(View(), Execute(View(), c)), trails) == Perform(World(View(), old(trails)), c)
      ensures Good(World(After(View(), Execute(View(), c)), trails))
    {
      PerformKeepsGood(World(View(), trails), c);
      trails := Perform(World(View(), trails), c).trails;
    }

    /** The entry point. Every instruction is entered in the trails; afterwards every escrow account holds what its
        trail says was paid in and not paid out, and no job was paid out twice. */
    method ProcessInstruction(c: Command) returns (r: Outcome<MarketError>)
      requires Valid()
      modifies this
      ensures r == Verdict(Execute(old(View()), c))
      ensures World(View(), trails) == Perform(World(old(View()), old(trails)), c)
      ensures forall n | n in jobs :: n in trails && trails[n].payouts <= 1
      ensures forall n | n in jobs ::
                n in trails && jobs[n].vault + PaidOut(trails[n]) == trails[n].paidIn + trails[n].tips
      ensures Valid()
    {
      Note(c);
      r := Dispatch(c);
      assert forall n | n in jobs :: n in trails && JobGood(jobs[n], trails[n]);
    }
  }
}
