/** Every job of the market over whole runs: where its escrow went, and how often its lease moved. */
module ComputeMarketRuns {
  import opened Numbers
  import opened ComputeMarket

  datatype Command =
    | Ask(who: Key, specs: Specs, hours: u32, maxPrice: u64, metadata: nat, funds: nat)
    | Accept(who: Key, n: nat, now: i64)
    | Prove(who: Key, n: nat, proof: nat, now: i64)
    | Release(n: nat, slot: u64, burnIntoVault: bool)
    | Contest(who: Key, n: nat, slot: u64)
    | Counter(who: Key, n: nat)
    | Resolve(who: Key, n: nat, slot: u64, atFault: bool)
    | Slash(n: nat, now: i64)
    | Close(who: Key, n: nat)
    | Enlist(who: Key, p: Provider)
    | Tip(n: nat, amount: u64)
    | Pause(paused: bool)

  function Execute(m: Market, c: Command): Step {
    match c
    case Ask(who, specs, hours, maxPrice, metadata, funds) =>
      RequestCompute(m, who, specs, hours, maxPrice, metadata, funds)
    case Accept(who, n, now) => AcceptJob(m, who, n, now)
    case Prove(who, n, proof, now) => SubmitProof(m, who, n, proof, now)
    case Release(n, slot, burnIntoVault) => VerifyAndRelease(m, n, slot, burnIntoVault)
    case Contest(who, n, slot) => DisputeLease(m, who, n, slot)
    case Counter(who, n) => ProviderCounter(m, who, n)
    case Resolve(who, n, slot, atFault) => ResolveDispute(m, who, n, slot, atFault)
    case Slash(n, now) => SlashProvider(m, n, now)
    case Close(who, n) => CloseJob(m, who, n)
    case Enlist(who, p) => SetProvider(m, who, p)
    case Tip(n, amount) =>
      // Anyone can send lamports to an escrow account.
      if n in m.jobs && m.jobs[n].vault + amount <= U64_MAX
      then Ok(m.(jobs := m.jobs[n := m.jobs[n].(vault := m.jobs[n].vault + amount)])) else Err(TransferFailed)
    case Pause(paused) => Ok(m.(config := m.config.(paused := paused)))
  }

  /** What happened to one job: its terms, what went into and out of its escrow account, how many payouts
      there were and how often its lease changed status. */
  datatype Trail = Trail(
    hours: u32, maxPrice: u64, paidIn: nat, tips: nat,
    toProvider: nat, toFoundation: nat, burned: nat, toRequester: nat, payouts: nat, moves: nat)

  function Refunded(t: Trail, amount: nat): Trail {
    t.(toRequester := t.toRequester + amount, payouts := t.payouts + 1, moves := t.moves + 1)
  }

  /** A burned part sent back into the escrow is there like a tip. */
  function Settled(t: Trail, pay: Payout, burnIntoVault: bool): Trail {
    Refunded(t, pay.refund).(toProvider := t.toProvider + pay.provider, toFoundation := t.toFoundation + pay.foundation,
                             burned := t.burned + pay.burn, tips := t.tips + if burnIntoVault then pay.burn else 0)
  }

  datatype World = World(m: Market, trails: map<nat, Trail>)

  /** The commands about one existing job. */
  predicate AboutJob(c: Command) {
    !c.Ask? && !c.Enlist? && !c.Pause?
  }

  /** The trail of job n after a command about it that succeeded. */
  function Follow(m: Market, c: Command, n: nat, t: Trail): Trail
    requires Execute(m, c).Ok? && AboutJob(c) && c.n == n
  {
    match c
    case Release(_, _, burnIntoVault) =>
      Settled(t, Settlement(m.jobs[n].lease.value, m.jobs[n].request.value.escrowed, m.config.feeBps).value,
              burnIntoVault)
    case Slash(_, _) => Refunded(t, m.jobs[n].request.value.escrowed)
    case Resolve(_, _, _, _) =>
      if Execute(m, c).value.jobs[n].lease.value.status.Slashed? then Refunded(t, m.jobs[n].request.value.escrowed)
      else t.(moves := t.moves + 1)
    case Prove(_, _, _, _) => t.(moves := t.moves + 1)
    case Contest(_, _, _) => t.(moves := t.moves + 1)
    case Tip(_, amount) => t.(tips := t.tips + amount)
    case _ => t
  }

  function Perform(w: World, c: Command): World {
    var step := Execute(w.m, c);
    if step.Err? then w
    else if c.Enlist? || c.Pause? then w.(m := step.value)
    else if c.Ask? then
      World(step.value, w.trails[w.m.nonce := Trail(c.hours, c.maxPrice, c.maxPrice * c.hours, 0, 0, 0, 0, 0, 0, 0)])
    else if c.n in w.trails then World(step.value, w.trails[c.n := Follow(w.m, c, c.n, w.trails[c.n])])
    else w.(m := step.value)
  }

  function Run(w: World, cs: seq<Command>): World
    decreases |cs|
  {
    if cs == [] then w else Perform(Run(w, cs[..|cs| - 1]), cs[|cs| - 1])
  }

  function Opened(admin: Key, feeBps: u16): World {
    World(Initialize(admin, feeBps), map[])
  }

  // ---------- One job ----------

  function PaidOut(t: Trail): nat {
    t.toProvider + t.toFoundation + t.burned + t.toRequester
  }

  /** Where a lease stands determines how often it has moved: disputed at most once, settled at most once. */
  predicate OnPath(l: Lease, d: Option<Dispute>, moves: nat) {
    match l.status
    case Active => d.None? && moves == 0
    case ProofSubmitted => if d.None? then moves == 1 else d.value.resolved && !d.value.providerAtFault && moves == 3
    case Disputed => d.Some? && !d.value.resolved && moves == 2
    case Done => if d.None? then moves == 2 else d.value.resolved && !d.value.providerAtFault && moves == 4
    case Slashed => if d.None? then moves == 1 else d.value.resolved && d.value.providerAtFault && moves == 3
  }

  /** The terms a lease was taken on. */
  predicate OnTerms(l: Lease, t: Trail) {
    l.end == l.start + 3_600 * t.hours && l.price <= t.maxPrice
  }

  /** A request keeps its terms, and all of its escrow until the lease is settled. */
  predicate RequestMatches(q: Request, t: Trail) {
    && q.hours == t.hours && q.maxPrice == t.maxPrice && q.deadline == DEFAULT_DISPUTE_DEADLINE_SLOTS
    && q.escrowed == (if t.payouts == 0 then t.paidIn else 0)
  }

  predicate Underway(s: LeaseStatus) {
    s.Active? || s.ProofSubmitted? || s.Disputed?
  }

  /** The payouts so far are those of the lease's status: none; price times hours to the provider's side and
      the rest back; or all of it back. */
  predicate Accounted(l: Lease, t: Trail) {
    if Underway(l.status) then t.payouts == 0 && PaidOut(t) == 0
    else if l.status.Done? then
      && t.payouts == 1 && PaidOut(t) == t.paidIn
      && t.toProvider + t.toFoundation + t.burned == l.price * t.hours
      && t.toRequester == (t.maxPrice - l.price) * t.hours
    else t.payouts == 1 && t.toRequester == t.paidIn && t.toProvider + t.toFoundation + t.burned == 0
  }

  predicate StatusMatches(q: Request, l: Lease, d: Option<Dispute>) {
    match l.status
    case Done => q.status.Completed?
    case Slashed => if d.None? then q.status.Cancelled? else q.status.Matched?
    case _ => q.status.Matched?
  }

  predicate JobGood(j: Job, t: Trail) {
    && t.paidIn == t.maxPrice * t.hours
    && j.vault + PaidOut(t) == t.paidIn + t.tips
    && (j.request.Some? ==> RequestMatches(j.request.value, t))
    && if j.lease.None? then
         j.request.Some? && j.request.value.status.Open? && j.dispute.None? && t.payouts == t.moves == PaidOut(t) == 0
       else
         var l := j.lease.value;
         && OnTerms(l, t) && OnPath(l, j.dispute, t.moves) && Accounted(l, t)
         && (j.request.None? ==> l.status.Done?)
         && (j.request.Some? ==> StatusMatches(j.request.value, l, j.dispute))
  }

  ghost predicate Good(w: World) {
    && w.m.config.window == DISPUTE_WINDOW_SLOTS
    && w.trails.Keys == w.m.jobs.Keys
    && (forall n | n in w.m.jobs :: n < w.m.nonce)
    && (forall n {:trigger w.trails[n]} | n in w.m.jobs :: JobGood(w.m.jobs[n], w.trails[n]))
  }

  lemma AcceptKeepsJob(m: Market, c: Command, t: Trail)
    requires c.Accept? && Execute(m, c).Ok? && JobGood(m.jobs[c.n], t)
    ensures JobGood(Execute(m, c).value.jobs[c.n], Follow(m, c, c.n, t))
  {
  }

  lemma ProofKeepsJob(m: Market, c: Command, t: Trail)
    requires (c.Prove? || c.Contest? || c.Counter?) && Execute(m, c).Ok? && JobGood(m.jobs[c.n], t)
    ensures JobGood(Execute(m, c).value.jobs[c.n], Follow(m, c, c.n, t))
  {
  }

  lemma ReleaseKeepsJob(m: Market, c: Command, t: Trail)
    requires c.Release? && Execute(m, c).Ok? && JobGood(m.jobs[c.n], t)
    ensures JobGood(Execute(m, c).value.jobs[c.n], Follow(m, c, c.n, t))
  {
    var l, q := m.jobs[c.n].lease.value, m.jobs[c.n].request.value;
    SettlementIsExact(l, t.hours, t.maxPrice, q.escrowed, m.config.feeBps);
  }

  lemma VerdictKeepsJob(m: Market, c: Command, t: Trail)
    requires (c.Resolve? || c.Slash?) && Execute(m, c).Ok? && JobGood(m.jobs[c.n], t)
    ensures JobGood(Execute(m, c).value.jobs[c.n], Follow(m, c, c.n, t))
  {
  }

  lemma CloseKeepsJob(m: Market, c: Command, t: Trail)
    requires (c.Close? || c.Tip?) && Execute(m, c).Ok? && JobGood(m.jobs[c.n], t)
    ensures JobGood(Execute(m, c).value.jobs[c.n], Follow(m, c, c.n, t))
  {
  }

  /** A command about job n leaves every other job alone. */
  lemma OthersUntouched(m: Market, c: Command)
    requires Execute(m, c).Ok? && AboutJob(c)
    ensures c.n in m.jobs && c.n in Execute(m, c).value.jobs
    ensures var m' := Execute(m, c).value;
            m'.jobs == m.jobs[c.n := m'.jobs[c.n]] && m'.nonce == m.nonce && m'.config == m.config
  {
  }

  /** The world after a command: that job and its trail change, or no job does but for a new one. */
  lemma PerformTouches(w: World, c: Command, n: nat)
    requires Good(w) && n in w.m.jobs
    ensures var w' := Perform(w, c);
            && n in w'.m.jobs && n in w'.trails && w'.m.config.feeBps == w.m.config.feeBps
            && if Execute(w.m, c).Ok? && AboutJob(c) && c.n == n then
                 w'.m.jobs[n] == Execute(w.m, c).value.jobs[n] && w'.trails[n] == Follow(w.m, c, n, w.trails[n])
               else
                 w'.m.jobs[n] == w.m.jobs[n] && w'.trails[n] == w.trails[n]
  {
    if Execute(w.m, c).Ok? && AboutJob(c) {
      OthersUntouched(w.m, c);
    }
  }

  lemma JobPutKeepsGood(w: World, m: Market, n: nat, t: Trail)
    requires Good(w) && n in w.m.jobs && n in m.jobs && m.jobs == w.m.jobs[n := m.jobs[n]]
    requires m.nonce == w.m.nonce && m.config == w.m.config && JobGood(m.jobs[n], t)
    ensures Good(World(m, w.trails[n := t]))
  {
  }

  lemma AskKeepsGood(w: World, c: Command)
    requires Good(w) && c.Ask?
    ensures Good(Perform(w, c))
  {
  }

  lemma AboutJobKeepsGood(w: World, c: Command)
    requires Good(w) && AboutJob(c) && Execute(w.m, c).Ok?
    ensures c.n in w.trails && Good(World(Execute(w.m, c).value, w.trails[c.n := Follow(w.m, c, c.n, w.trails[c.n])]))
  {
    OthersUntouched(w.m, c);
    JobStaysGood(w.m, c, w.trails[c.n]);
    JobPutKeepsGood(w, Execute(w.m, c).value, c.n, Follow(w.m, c, c.n, w.trails[c.n]));
  }

  lemma PerformKeepsGood(w: World, c: Command)
    requires Good(w)
    ensures Good(Perform(w, c))
  {
    if c.Ask? {
      AskKeepsGood(w, c);
    } else if AboutJob(c) && Execute(w.m, c).Ok? {
      AboutJobKeepsGood(w, c);
    }
  }

  lemma JobStaysGood(m: Market, c: Command, t: Trail)
    requires Execute(m, c).Ok? && AboutJob(c) && c.n in m.jobs && JobGood(m.jobs[c.n], t)
    ensures c.n in Execute(m, c).value.jobs && JobGood(Execute(m, c).value.jobs[c.n], Follow(m, c, c.n, t))
  {
    match c {
      case Accept(_, _, _) => AcceptKeepsJob(m, c, t);
      case Release(_, _, _) => ReleaseKeepsJob(m, c, t);
      case Resolve(_, _, _, _) => VerdictKeepsJob(m, c, t);
      case Slash(_, _) => VerdictKeepsJob(m, c, t);
      case Close(_, _) => CloseKeepsJob(m, c, t);
      case Tip(_, _) => CloseKeepsJob(m, c, t);
      case _ => ProofKeepsJob(m, c, t);
    }
  }

  lemma {:induction false} RunKeepsGood(w: World, cs: seq<Command>)
    requires Good(w)
    ensures Good(Run(w, cs))
    decreases |cs|
  {
    if cs != [] {
      RunKeepsGood(w, cs[..|cs| - 1]);
      PerformKeepsGood(Run(w, cs[..|cs| - 1]), cs[|cs| - 1]);
    }
  }

  /** What was paid into the escrow is still there or has been paid out, all at once and only once; a settled lease
      paid exactly price times hours and returned the rest, any other ending returned everything; and the lease has
      changed status at most four times. */
  predicate EscrowLeftOnce(j: Job, t: Trail) {
    && t.paidIn == t.maxPrice * t.hours
    && t.moves <= 4 && t.payouts <= 1
    && (t.payouts == 0 ==> j.vault == t.paidIn + t.tips && PaidOut(t) == 0)
    && (t.payouts == 1 ==> j.vault == t.tips && PaidOut(t) == t.paidIn)
    && (t.payouts == 1 <==> j.lease.Some? && (j.lease.value.status.Done? || j.lease.value.status.Slashed?))
    && (j.lease.Some? && j.lease.value.status.Done? ==>
          && t.toProvider + t.toFoundation + t.burned == j.lease.value.price * t.hours
          && t.toRequester == (t.maxPrice - j.lease.value.price) * t.hours)
    && (j.lease.Some? && j.lease.value.status.Slashed? ==> t.toRequester == t.paidIn)
  }

  lemma GoodJobsLeaveOnce(j: Job, t: Trail)
    requires JobGood(j, t)
    ensures EscrowLeftOnce(j, t)
  {
  }

  /** So it is for every job after any run. */
  lemma EscrowLeavesExactlyOnce(admin: Key, feeBps: u16, cs: seq<Command>, n: nat)
    ensures var w := Run(Opened(admin, feeBps), cs);
            n in w.m.jobs ==> n in w.trails && EscrowLeftOnce(w.m.jobs[n], w.trails[n])
  {
    RunKeepsGood(Opened(admin, feeBps), cs);
    var w := Run(Opened(admin, feeBps), cs);
    if n in w.m.jobs {
      GoodJobsLeaveOnce(w.m.jobs[n], w.trails[n]);
    }
  }

  /** The vault never falls short: in a reachable market a release is refused for exactly these reasons. */
  lemma ReleaseSucceedsExactlyWhen(w: World, n: nat, slot: u64, burnIntoVault: bool)
    requires Good(w) && n in w.m.jobs && w.m.jobs[n].lease.Some? && w.m.jobs[n].request.Some?
    requires w.m.jobs[n].lease.value.provider in w.m.providers
    ensures var l, fee := w.m.jobs[n].lease.value, w.m.config.feeBps;
            var cost := l.price * w.trails[n].hours;
            VerifyAndRelease(w.m, n, slot, burnIntoVault).Ok?
            <==> && l.status.ProofSubmitted? && SlotsSinceProof(l, slot) >= w.m.config.window
                 && cost * fee <= U64_MAX && cost * fee / 10_000 <= cost
                 && w.m.providers[l.provider].completed < U32_MAX
  {
    var j, t := w.m.jobs[n], w.trails[n];
    assert JobGood(j, t);
    if j.lease.value.status.ProofSubmitted? {
      SettlementIsExact(j.lease.value, t.hours, t.maxPrice, j.request.value.escrowed, w.m.config.feeBps);
    }
  }

  /** The window is measured from a time stamp to a slot number. A dispute is refused for exactly these reasons;
      the request's own deadline is none of them, being the longer of the two. */
  lemma ContestSucceedsExactlyWhen(w: World, n: nat, who: Key, slot: u64)
    requires Good(w) && n in w.m.jobs && w.m.jobs[n].lease.Some? && w.m.jobs[n].request.Some?
    ensures var l := w.m.jobs[n].lease.value;
            DisputeLease(w.m, who, n, slot).Ok?
            <==> && (who == l.requester || who == w.m.config.admin) && l.status.ProofSubmitted?
                 && slot <= AsUnsigned(l.proofAt) + DISPUTE_WINDOW_SLOTS && w.m.jobs[n].dispute.None?
  {
    assert JobGood(w.m.jobs[n], w.trails[n]);
  }

  /** Before the slot number has outgrown the time stamp of the proof by the window, nobody is paid. */
  lemma ReleaseWaitsForTheSlotNumber(w: World, n: nat, slot: u64, burnIntoVault: bool)
    requires Good(w) && n in w.m.jobs && w.m.jobs[n].lease.Some?
    requires slot < AsUnsigned(w.m.jobs[n].lease.value.proofAt) + DISPUTE_WINDOW_SLOTS
    ensures VerifyAndRelease(w.m, n, slot, burnIntoVault).Err?
  {
  }

  /** Only a released job can ever be closed: one that ended in a refund keeps its request account. */
  lemma CloseSucceedsExactlyWhen(w: World, n: nat, who: Key)
    requires Good(w) && n in w.m.jobs
    ensures var j := w.m.jobs[n];
            CloseJob(w.m, who, n).Ok?
            <==> j.request.Some? && j.request.value.requester == who && j.lease.Some? && j.lease.value.status.Done?
  {
    assert JobGood(w.m.jobs[n], w.trails[n]);
  }

  lemma EndedJobStays(m: Market, c: Command, t: Trail)
    requires Execute(m, c).Ok? && AboutJob(c) && c.n in m.jobs && c.n in Execute(m, c).value.jobs
             && JobGood(m.jobs[c.n], t)
    requires m.jobs[c.n].lease.Some? && !Underway(m.jobs[c.n].lease.value.status)
    ensures Execute(m, c).value.jobs[c.n].lease == m.jobs[c.n].lease
  {
  }

  /** A lease that ended stays as it ended. */
  lemma {:induction false} EndedStays(w: World, cs: seq<Command>, n: nat)
    requires Good(w) && n in w.m.jobs && w.m.jobs[n].lease.Some? && !Underway(w.m.jobs[n].lease.value.status)
    ensures n in Run(w, cs).m.jobs && Run(w, cs).m.jobs[n].lease == w.m.jobs[n].lease
    decreases |cs|
  {
    if cs != [] {
      EndedStays(w, cs[..|cs| - 1], n);
      RunKeepsGood(w, cs[..|cs| - 1]);
      EndedStep(Run(w, cs[..|cs| - 1]), cs[|cs| - 1], n);
    }
  }

  lemma EndedStep(w: World, c: Command, n: nat)
    requires Good(w) && n in w.m.jobs && w.m.jobs[n].lease.Some? && !Underway(w.m.jobs[n].lease.value.status)
    ensures n in Perform(w, c).m.jobs && Perform(w, c).m.jobs[n].lease == w.m.jobs[n].lease
  {
    PerformTouches(w, c, n);
    if Execute(w.m, c).Ok? && AboutJob(c) && c.n == n {
      assert JobGood(w.m.jobs[n], w.trails[n]);
      EndedJobStays(w.m, c, w.trails[n]);
    }
  }

  // ---------- A fee nobody can be paid with ----------

  /** The fee does not fit the cost of a taken job. */
  predicate Unpayable(w: World, n: nat) {
    && n in w.m.jobs && n in w.trails && w.m.jobs[n].lease.Some?
    && var cost, fee := w.m.jobs[n].lease.value.price * w.trails[n].hours, w.m.config.feeBps;
    cost * fee > U64_MAX || cost * fee / 10_000 > cost
  }

  lemma LeaseKeepsPrice(m: Market, c: Command)
    requires Execute(m, c).Ok? && AboutJob(c) && c.n in m.jobs && m.jobs[c.n].lease.Some?
    requires c.n in Execute(m, c).value.jobs
    ensures var lease := Execute(m, c).value.jobs[c.n].lease;
            lease.Some? && lease.value.price == m.jobs[c.n].lease.value.price
  {
  }

  lemma TrailKeepsHours(m: Market, c: Command, t: Trail)
    requires Execute(m, c).Ok? && AboutJob(c)
    ensures Follow(m, c, c.n, t).hours == t.hours
  {
  }

  lemma TermsStay(w: World, c: Command, n: nat)
    requires Good(w) && n in w.m.jobs && w.m.jobs[n].lease.Some?
    ensures var w' := Perform(w, c);
            && n in w'.m.jobs && w'.m.jobs[n].lease.Some? && w'.m.config.feeBps == w.m.config.feeBps
            && w'.m.jobs[n].lease.value.price == w.m.jobs[n].lease.value.price
            && n in w'.trails && w'.trails[n].hours == w.trails[n].hours
  {
    PerformTouches(w, c, n);
    if Execute(w.m, c).Ok? && AboutJob(c) && c.n == n {
      LeaseKeepsPrice(w.m, c);
      TrailKeepsHours(w.m, c, w.trails[n]);
    }
  }

  /** The rate and the price stay, and so does the refusal. */
  lemma {:induction false} UnpayableFeeIsNeverReleased(w: World, cs: seq<Command>, n: nat, slot: u64,
                                                     burnIntoVault: bool)
    requires Good(w) && Unpayable(w, n)
    ensures Unpayable(Run(w, cs), n) && VerifyAndRelease(Run(w, cs).m, n, slot, burnIntoVault).Err?
    decreases |cs|
  {
    var last := Run(w, cs);
    if cs != [] {
      UnpayableFeeIsNeverReleased(w, cs[..|cs| - 1], n, slot, burnIntoVault);
      RunKeepsGood(w, cs[..|cs| - 1]);
      TermsStay(Run(w, cs[..|cs| - 1]), cs[|cs| - 1], n);
    }
    RunKeepsGood(w, cs);
    if last.m.jobs[n].request.Some? && last.m.jobs[n].lease.value.provider in last.m.providers {
      ReleaseSucceedsExactlyWhen(last, n, slot, burnIntoVault);
    }
  }

  // ---------- A request nobody takes ----------

  /** An open request with its escrow in place. */
  predicate Waiting(w: World, n: nat) {
    && n in w.m.jobs && n in w.trails
    && w.m.jobs[n].request.Some? && w.m.jobs[n].request.value.status.Open? && w.m.jobs[n].lease.None?
    && w.m.jobs[n].vault == w.trails[n].paidIn + w.trails[n].tips && PaidOut(w.trails[n]) == 0
  }

  /** The command is not a provider's successful acceptance of request n. */
  predicate LeavesOpen(w: World, c: Command, n: nat) {
    !(c.Accept? && c.n == n && Execute(w.m, c).Ok?)
  }

  lemma OnlyTipsReachOpenRequests(m: Market, c: Command)
    requires Execute(m, c).Ok? && AboutJob(c) && c.n in m.jobs
    requires m.jobs[c.n].request.Some? && m.jobs[c.n].request.value.status.Open? && m.jobs[c.n].lease.None?
    ensures c.Accept? || c.Tip?
  {
  }

  lemma WaitingGoesOn(w: World, c: Command, n: nat)
    requires Good(w) && Waiting(w, n) && LeavesOpen(w, c, n)
    ensures Waiting(Perform(w, c), n)
    ensures Perform(w, c).trails[n].paidIn == w.trails[n].paidIn
            && Perform(w, c).m.jobs[n].request == w.m.jobs[n].request
  {
    PerformTouches(w, c, n);
    if Execute(w.m, c).Ok? && AboutJob(c) && c.n == n {
      OnlyTipsReachOpenRequests(w.m, c);
    }
  }

  /** Acceptance is the only way out: until a provider takes it, a request keeps its escrow, and no sequence of
      commands, the requester's and the administrator's included, returns any of it. */
  lemma {:induction false} UntakenEscrowStays(w: World, cs: seq<Command>, n: nat)
    requires Good(w) && Waiting(w, n)
    requires forall i | 0 <= i < |cs| :: LeavesOpen(Run(w, cs[..i]), cs[i], n)
    ensures var end := Run(w, cs);
            && Waiting(end, n) && end.trails[n].paidIn == w.trails[n].paidIn
            && end.m.jobs[n].request == w.m.jobs[n].request
    decreases |cs|
  {
    if cs != [] {
      var before := cs[..|cs| - 1];
      assert forall i | 0 <= i < |before| :: before[..i] == cs[..i];
      UntakenEscrowStays(w, before, n);
      RunKeepsGood(w, before);
      WaitingGoesOn(Run(w, before), cs[|cs| - 1], n);
    }
  }

  // ---------- Runs in which a job gets stuck ----------

  const OFFER: Provider := Provider(Specs(0, 0, 0), 10, 0, 0, 0, 0, true)

  /** One hour at ten a unit, asked for by key 2, taken by key 1, and proved at the given time. */
  function OneJob(provedAt: i64): seq<Command> {
    [Enlist(1, OFFER), Ask(2, Specs(0, 0, 0), 1, 10, 0, 10), Accept(1, 0, 0), Prove(1, 0, 0, provedAt)]
  }

  lemma RunThree(w: World, a: Command, b: Command, c: Command)
    ensures Run(w, [a, b, c]) == Perform(Perform(Perform(w, a), b), c)
  {
    assert [a, b, c][..2] == [a, b] && [a, b][..1] == [a] && [a][..0] == [];
    assert Run(w, [a]) == Perform(Run(w, []), a);
    assert Run(w, [a, b]) == Perform(Run(w, [a]), b);
  }

  const ASKED: Request := Request(2, Specs(0, 0, 0), 1, 10, 10, Open, DEFAULT_DISPUTE_DEADLINE_SLOTS)

  const TAKEN: Lease := Lease(1, 2, 10, 0, 3_600, Active, 0)

  /** A market with that job at some stage, and its provider's account. */
  predicate Stage(m: Market, feeBps: u16, job: Job, p: Provider) {
    && m.config == Config(0, feeBps, DISPUTE_WINDOW_SLOTS, false)
    && m.jobs == map[0 := job] && m.providers == map[1 := p]
  }

  lemma JobAsked(feeBps: u16)
    ensures var w := Perform(Perform(Opened(0, feeBps), OneJob(0)[0]), OneJob(0)[1]);
            Stage(w.m, feeBps, Job(Some(ASKED), None, None, 10), OFFER)
  {
  }

  lemma Accepting(w: World, feeBps: u16)
    requires Stage(w.m, feeBps, Job(Some(ASKED), None, None, 10), OFFER)
    ensures Stage(Perform(w, Accept(1, 0, 0)).m, feeBps, Job(Some(ASKED.(status := Matched)), Some(TAKEN), None, 10),
                  OFFER.(activeLeases := 1))
  {
  }

  lemma JobTaken(feeBps: u16)
    ensures Stage(Run(Opened(0, feeBps), OneJob(0)[..3]).m, feeBps,
                  Job(Some(ASKED.(status := Matched)), Some(TAKEN), None, 10), OFFER.(activeLeases := 1))
  {
    var cs := OneJob(0);
    assert cs[..3] == [cs[0], cs[1], cs[2]];
    RunThree(Opened(0, feeBps), cs[0], cs[1], cs[2]);
    JobAsked(feeBps);
    Accepting(Perform(Perform(Opened(0, feeBps), cs[0]), cs[1]), feeBps);
  }

  lemma JobProved(feeBps: u16, provedAt: i64)
    ensures Stage(Run(Opened(0, feeBps), OneJob(provedAt)).m, feeBps,
                  Job(Some(ASKED.(status := Matched)), Some(TAKEN.(status := ProofSubmitted, proofAt := provedAt)),
                      None, 10),
                  OFFER.(activeLeases := 1))
  {
    JobTaken(feeBps);
    assert OneJob(provedAt)[..3] == OneJob(0)[..3];
  }

  lemma JobSlashed()
    ensures var m := Perform(Run(Opened(0, 0), OneJob(0)[..3]), Slash(0, 7_201)).m;
            0 in m.jobs && m.jobs[0].lease == Some(TAKEN.(status := LeaseStatus.Slashed))
  {
    JobTaken(0);
  }

  /** Initialization does not bound the fee. At a hundred per cent a proved job is released once the window is over; at
      twice that it never is, whatever follows the proof. */
  lemma FeeAboveTheCostIsNeverReleased(cs: seq<Command>, slot: u64, burnIntoVault: bool)
    ensures VerifyAndRelease(Run(Run(Opened(0, 20_000), OneJob(0)), cs).m, 0, slot, burnIntoVault).Err?
    ensures slot >= DISPUTE_WINDOW_SLOTS ==>
              VerifyAndRelease(Run(Opened(0, 10_000), OneJob(0)).m, 0, slot, burnIntoVault).Ok?
  {
    JobProved(20_000, 0);
    JobProved(10_000, 0);
    var w := Run(Opened(0, 20_000), OneJob(0));
    RunKeepsGood(Opened(0, 20_000), OneJob(0));
    assert JobGood(w.m.jobs[0], w.trails[0]);
    UnpayableFeeIsNeverReleased(w, cs, 0, slot, burnIntoVault);
    HoursComeBack(Run(Opened(0, 10_000), OneJob(0)).m.jobs[0].lease.value, 1);
  }

  /** A proof handed in at the present time stays unpaid, and open to a dispute, in every slot whose number has not
      yet caught up with the time stamp. */
  lemma SlotsLagBehindTimeStamps(slot: u64)
    requires slot < 1_700_000_000
    ensures VerifyAndRelease(Run(Opened(0, 100), OneJob(1_700_000_000)).m, 0, slot, false).Err?
    ensures DisputeLease(Run(Opened(0, 100), OneJob(1_700_000_000)).m, 2, 0, slot).Ok?
  {
    JobProved(100, 1_700_000_000);
  }

  /** A lease that timed out leaves a request that can never be closed. */
  lemma SlashedJobIsNeverClosed(cs: seq<Command>, who: Key)
    ensures var slashed := Perform(Run(Opened(0, 0), OneJob(0)[..3]), Slash(0, 7_201));
            && 0 in slashed.m.jobs && slashed.m.jobs[0].lease == Some(TAKEN.(status := LeaseStatus.Slashed))
            && CloseJob(Run(slashed, cs).m, who, 0).Err?
  {
    JobSlashed();
    RunKeepsGood(Opened(0, 0), OneJob(0)[..3]);
    PerformKeepsGood(Run(Opened(0, 0), OneJob(0)[..3]), Slash(0, 7_201));
    var slashed := Perform(Run(Opened(0, 0), OneJob(0)[..3]), Slash(0, 7_201));
    RunKeepsGood(slashed, cs);
    EndedStays(slashed, cs, 0);
    CloseSucceedsExactlyWhen(Run(slashed, cs), 0, who);
  }
}
