/** The challenge period over whole runs of the bridge: nothing is paid before it is over, and until then every pending
    withdrawal can be challenged. */
module BridgeDeadlines {
  import opened Numbers
  import opened HexCodec
  import L1 = BridgeL1
  import L2 = BridgeL2
  import R = Relayer
  import E = BridgeL1Effects
  import opened BridgeSystem

  /** A command that asks for the payout of a withdrawal. */
  predicate AsksToPay(c: Command, nonce: nat) {
    (c.Finalize? || c.FinalizeSol?) && c.nonce == nonce
  }

  /** What one step can do to a withdrawal: open it, with a deadline one challenge period later, when a burn line is
      relayed, or pay it, at the request of someone whose time is not before its deadline. The deadline stays. */
  ghost predicate TermsKept(w: World, c: Command, w': World) {
    && w'.l1.challengePeriod == w.l1.challengePeriod && w'.l1.sequencer == w.l1.sequencer
    && (forall n | n in w.l1.withdrawals ::
          && n in w'.l1.withdrawals && w'.l1.withdrawals[n].deadline == w.l1.withdrawals[n].deadline
          && w'.l1.withdrawals[n].amount == w.l1.withdrawals[n].amount)
    && (forall n | n in w.l1.withdrawals && w'.l1.withdrawals[n].status != w.l1.withdrawals[n].status ::
          && w.l1.withdrawals[n].status.Pending?
          && (w'.l1.withdrawals[n].status.Finalized? ==> AsksToPay(c, n) && c.now >= w.l1.withdrawals[n].deadline))
    && (forall n | n in w'.l1.withdrawals && n !in w.l1.withdrawals ::
          && c.RelayBurn? && c.line.nonce == n && w'.l1.withdrawals[n].status.Pending?
          && w'.l1.withdrawals[n].deadline == c.now + w.l1.challengePeriod)
  }

  lemma OtherStepsKeepTerms(w: World, c: Command)
    requires !c.RelayDeposit? && !c.RelayBurn? && !c.Challenge? && !c.Finalize? && !c.FinalizeSol?
    requires !c.ConfigureL2? && !c.Release? && !c.Restart?
    ensures Perform(w, c).l1.withdrawals == w.l1.withdrawals && Perform(w, c).l1.bonds == w.l1.bonds
    ensures Perform(w, c).l1.challengePeriod == w.l1.challengePeriod
    ensures Perform(w, c).l1.sequencer == w.l1.sequencer
  {
  }

  lemma BurnLineKeepsTerms(w: World, c: Command)
    requires c.RelayBurn?
    ensures TermsKept(w, c, Perform(w, c)) && Perform(w, c).l1.bonds == w.l1.bonds
  {
    var p := R.Handle(R.Poll(w.lastBurn, [], 0, false), R.Burns, c.line, c.confirmed);
    if p.requests != [] {
      var q := p.requests[0];
      E.InitiationEffect(w.l1, w.l1.sequencer, q.nonce, q.recipient, q.amount, L1.Myth, c.now);
    }
  }

  lemma StatusStepKeepsTerms(w: World, c: Command)
    requires c.Challenge? || c.Finalize? || c.FinalizeSol?
    ensures TermsKept(w, c, Perform(w, c))
  {
  }

  lemma StepKeepsTerms(w: World, c: Command)
    ensures TermsKept(w, c, Perform(w, c))
  {
    if c.RelayDeposit? {
      ForwardingReleases(w, c.line, c.signature, c.confirmed, c.intoReserve, c.slot, c.rentMinimum);
    } else if c.RelayBurn? {
      BurnLineKeepsTerms(w, c);
    } else if c.Challenge? || c.Finalize? || c.FinalizeSol? {
      StatusStepKeepsTerms(w, c);
    } else if c.ConfigureL2? || c.Release? || c.Restart? {
      SettingStepIsQuiet(w, c);
    } else {
      OtherStepsKeepTerms(w, c);
    }
  }

  // ---------- No payout before the period is over ----------

  /** The command that opened a withdrawal in a run: a burn line relayed one challenge period before the deadline. */
  predicate OpenedBy(cs: seq<Command>, j: int, nonce: nat, deadline: int, period: int) {
    0 <= j < |cs| && cs[j].RelayBurn? && cs[j].line.nonce == nonce && deadline == cs[j].now + period
  }

  /** The command that paid it: later in the run, and not before that deadline. */
  predicate PaidBy(cs: seq<Command>, i: int, nonce: nat, deadline: int) {
    0 <= i < |cs| && AsksToPay(cs[i], nonce) && cs[i].now >= deadline
  }

  ghost predicate History(w: World, cs: seq<Command>, n: nat)
    requires n in w.l1.withdrawals
  {
    exists j :: && OpenedBy(cs, j, n, w.l1.withdrawals[n].deadline, w.l1.challengePeriod)
                && (w.l1.withdrawals[n].status.Finalized? ==>
                      exists i :: j < i && PaidBy(cs, i, n, w.l1.withdrawals[n].deadline))
  }

  lemma HistoryGoesOn(w: World, cs: seq<Command>, c: Command, n: nat)
    requires n in w.l1.withdrawals && History(w, cs, n)
    ensures History(Perform(w, c), cs + [c], n)
  {
    StepKeepsTerms(w, c);
    var w', all := Perform(w, c), cs + [c];
    var d := w.l1.withdrawals[n].deadline;
    var j :| && OpenedBy(cs, j, n, d, w.l1.challengePeriod)
             && (w.l1.withdrawals[n].status.Finalized? ==> exists i :: j < i && PaidBy(cs, i, n, d));
    assert all[j] == cs[j] && OpenedBy(all, j, n, d, w'.l1.challengePeriod);
    if w'.l1.withdrawals[n].status.Finalized? {
      if w.l1.withdrawals[n].status.Finalized? {
        var i :| j < i && PaidBy(cs, i, n, d);
        assert all[i] == cs[i] && PaidBy(all, i, n, d);
      } else {
        assert all[|cs|] == c && PaidBy(all, |cs|, n, d);
      }
    }
  }

  lemma HistoryBegins(w: World, cs: seq<Command>, c: Command, n: nat)
    requires n !in w.l1.withdrawals && n in Perform(w, c).l1.withdrawals
    ensures History(Perform(w, c), cs + [c], n)
  {
    StepKeepsTerms(w, c);
    var w' := Perform(w, c);
    assert OpenedBy(cs + [c], |cs|, n, w'.l1.withdrawals[n].deadline, w'.l1.challengePeriod);
  }

  /** In every run from the start, every withdrawal was opened by a relayed burn line, its deadline is one challenge
      period after that, and if it is paid then someone asked for it at or after that deadline. */
  lemma {:induction false} NothingIsPaidBeforeItsPeriodIsOver(
      sequencer: Key, period: i64, relayer: Key, cs: seq<Command>, n: nat)
    requires n in Run(Start(sequencer, period, relayer), cs).l1.withdrawals
    ensures History(Run(Start(sequencer, period, relayer), cs), cs, n)
    decreases |cs|
  {
    if cs != [] {
      var front, c := cs[..|cs| - 1], cs[|cs| - 1];
      var w := Run(Start(sequencer, period, relayer), front);
      assert cs == front + [c];
      if n in w.l1.withdrawals {
        NothingIsPaidBeforeItsPeriodIsOver(sequencer, period, relayer, front, n);
        HistoryGoesOn(w, front, c, n);
      } else {
        HistoryBegins(w, front, c, n);
      }
    }
  }

  /** The challenge period never changes. */
  lemma {:induction false} PeriodNeverChanges(w: World, cs: seq<Command>)
    ensures Run(w, cs).l1.challengePeriod == w.l1.challengePeriod
    decreases |cs|
  {
    if cs != [] {
      PeriodNeverChanges(w, cs[..|cs| - 1]);
      StepKeepsTerms(Run(w, cs[..|cs| - 1]), cs[|cs| - 1]);
    }
  }

  // ---------- What was opened waits ----------

  /** A withdrawal not paid, its deadline still to come. */
  ghost predicate Waits(w: World, nonce: nat, until: int) {
    && nonce in w.l1.withdrawals && w.l1.withdrawals[nonce].deadline == until
    && !w.l1.withdrawals[nonce].status.Finalized? && nonce !in w.b1.paid
  }

  lemma OpeningWaits(w: World, c: Command)
    requires Kept(w) && c.RelayBurn? && Perform(w, c) != w
    ensures Kept(Perform(w, c)) && Waits(Perform(w, c), c.line.nonce, c.now + w.l1.challengePeriod)
  {
    PerformKeeps(w, c);
    var p := R.Handle(R.Poll(w.lastBurn, [], 0, false), R.Burns, c.line, c.confirmed);
    if p.requests != [] {
      var q := p.requests[0];
      E.InitiationEffect(w.l1, w.l1.sequencer, q.nonce, q.recipient, q.amount, L1.Myth, c.now);
    }
  }

  /** Whatever anyone does whose payout requests for it come before its deadline, it is not paid. */
  lemma {:induction false} WaitGoesOn(w: World, nonce: nat, until: int, cs: seq<Command>)
    requires Kept(w) && Waits(w, nonce, until)
    requires forall i | 0 <= i < |cs| && AsksToPay(cs[i], nonce) :: cs[i].now < until
    ensures Waits(Run(w, cs), nonce, until)
    decreases |cs|
  {
    if cs != [] {
      var front, c := cs[..|cs| - 1], cs[|cs| - 1];
      assert forall i | 0 <= i < |front| :: front[i] == cs[i];
      WaitGoesOn(w, nonce, until, front);
      RunKeeps(w, front);
      StepKeepsTerms(Run(w, front), c);
      PerformKeeps(Run(w, front), c);
    }
  }

  /** So after a burn line is relayed at some time, no run pays what it opened before a challenge period has passed. */
  lemma NoRunPaysEarly(w: World, c: Command, cs: seq<Command>)
    requires Kept(w) && c.RelayBurn? && Perform(w, c) != w
    requires forall i | 0 <= i < |cs| && AsksToPay(cs[i], c.line.nonce) :: cs[i].now < c.now + w.l1.challengePeriod
    ensures Waits(Run(Perform(w, c), cs), c.line.nonce, c.now + w.l1.challengePeriod)
  {
    OpeningWaits(w, c);
    WaitGoesOn(Perform(w, c), c.line.nonce, c.now + w.l1.challengePeriod, cs);
  }

  // ---------- Until then it can be challenged ----------

  /** Only a challenge posts a bond, and it ends the wait. */
  ghost predicate BondsAreChallenges(w: World) {
    forall n | n in w.l1.bonds :: n in w.l1.withdrawals && !w.l1.withdrawals[n].status.Pending?
  }

  lemma StepKeepsBonds(w: World, c: Command)
    requires BondsAreChallenges(w)
    ensures BondsAreChallenges(Perform(w, c))
  {
    StepKeepsTerms(w, c);
    if c.RelayDeposit? {
      ForwardingReleases(w, c.line, c.signature, c.confirmed, c.intoReserve, c.slot, c.rentMinimum);
    } else if c.RelayBurn? {
      BurnLineKeepsTerms(w, c);
    } else if c.Challenge? {
      ChallengeKeepsBonds(w, c);
    } else if c.ConfigureL2? || c.Release? || c.Restart? {
      SettingStepIsQuiet(w, c);
    } else if !c.Finalize? && !c.FinalizeSol? {
      OtherStepsKeepTerms(w, c);
    }
  }

  lemma ChallengeKeepsBonds(w: World, c: Command)
    requires BondsAreChallenges(w) && c.Challenge?
    ensures BondsAreChallenges(Perform(w, c))
  {
  }

  lemma {:induction false} RunKeepsBonds(w: World, cs: seq<Command>)
    requires BondsAreChallenges(w)
    ensures BondsAreChallenges(Run(w, cs))
    decreases |cs|
  {
    if cs != [] {
      RunKeepsBonds(w, cs[..|cs| - 1]);
      StepKeepsBonds(Run(w, cs[..|cs| - 1]), cs[|cs| - 1]);
    }
  }

  /** After any run, a withdrawal not yet paid or challenged can be challenged exactly until one challenge period after
      its burn line was relayed, by anyone with a proof and the bond. */
  lemma PendingIsChallengeableUntilTheDeadline(sequencer: Key, period: i64, relayer: Key, cs: seq<Command>,
                                               nonce: u64, now: i64, proofEmpty: bool, funds: nat, bond: nat)
    requires nonce in Run(Start(sequencer, period, relayer), cs).l1.withdrawals
    requires Run(Start(sequencer, period, relayer), cs).l1.withdrawals[nonce].status.Pending?
    requires E.IsBond(Run(Start(sequencer, period, relayer), cs).l1.withdrawals[nonce].amount, bond)
    ensures var w := Run(Start(sequencer, period, relayer), cs);
            exists j :: && OpenedBy(cs, j, nonce, w.l1.withdrawals[nonce].deadline, w.l1.challengePeriod)
                        && (L1.ChallengeWithdrawal(w.l1, nonce, proofEmpty, now, funds).Ok?
                            <==> && now < cs[j].now + w.l1.challengePeriod && !proofEmpty && bond <= funds
                                 && 1_000 * w.l1.withdrawals[nonce].amount <= U64_MAX)
  {
    var w := Run(Start(sequencer, period, relayer), cs);
    NothingIsPaidBeforeItsPeriodIsOver(sequencer, period, relayer, cs, nonce);
    RunKeepsBonds(Start(sequencer, period, relayer), cs);
    E.ChallengeEffect(w.l1, nonce, proofEmpty, now, funds, bond);
    var j :| OpenedBy(cs, j, nonce, w.l1.withdrawals[nonce].deadline, w.l1.challengePeriod);
    assert cs[j].now + w.l1.challengePeriod == w.l1.withdrawals[nonce].deadline;
  }
}
