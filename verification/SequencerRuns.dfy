/** Whole-run accounting of the sequencer tile, whatever arrives and whenever blocks are due. */
module SequencerRuns {
  import opened Numbers
  import opened FeeHeap
  import opened Sequencer

  datatype Event = Arrive(frag: seq<Byte>, priority: u64, now: int) | Drop | Produce(block: seq<Txn>)

  /** The queue entry of an arrival. */
  function Entry(e: Event): Txn
    requires e.Arrive?
  {
    TxnOf(e.frag, e.priority, e.now)
  }

  /** What the callbacks of a tile with room for `cap` transactions can do. */
  ghost predicate Step(cfg: Cfg, cap: nat, v: View, e: Event, v': View)
    requires cfg.epochLengthSlots > 0
  {
    match e
    case Arrive(_, _, _) => |v.queue| < cap && Enqueues(v, v', Entry(e))
    case Drop => |v.queue| >= cap && v' == v
    case Produce(block) => Produces(cfg, v, v', block)
  }

  lemma ArrivalSteps(cfg: Cfg, cap: nat, v: View, e: Event, v': View)
    requires cfg.epochLengthSlots > 0
    requires e.Arrive? || e.Drop?
    requires if e.Arrive? then |v.queue| < cap && Enqueues(v, v', Entry(e)) else |v.queue| >= cap && v' == v
    ensures Step(cfg, cap, v, e, v')
  {
  }

  const OPENING := View(multiset{}, Clock(0, 0, 0), 0, 0)

  /** `vs` are the states of a run and `es` the events between them. */
  ghost predicate Execution(cfg: Cfg, cap: nat, vs: seq<View>, es: seq<Event>)
    requires cfg.epochLengthSlots > 0
    decreases |es|
  {
    && |vs| == |es| + 1
    && if es == [] then vs[0] == OPENING else
         && Execution(cfg, cap, vs[..|es|], Init(es))
         && Step(cfg, cap, vs[|es| - 1], Last(es), vs[|es|])
  }

  /** A run goes on with any step from where it is. */
  lemma ExecutionGrows(cfg: Cfg, cap: nat, vs: seq<View>, es: seq<Event>, e: Event, v: View)
    requires cfg.epochLengthSlots > 0 && Execution(cfg, cap, vs, es) && Step(cfg, cap, vs[|es|], e, v)
    ensures Execution(cfg, cap, vs + [v], es + [e])
  {
    assert (vs + [v])[..|es| + 1] == vs && Init(es + [e]) == es;
  }

  // ---------- What a run's events add up to ----------

  function Last(es: seq<Event>): Event
    requires es != []
  {
    es[|es| - 1]
  }

  function Init(es: seq<Event>): seq<Event>
    requires es != []
  {
    es[..|es| - 1]
  }

  function Accepted(es: seq<Event>): multiset<Txn> {
    if es == [] then multiset{} else
      Accepted(Init(es)) + (if Last(es).Arrive? then multiset{Entry(Last(es))} else multiset{})
  }

  function Packed(es: seq<Event>): multiset<Txn> {
    if es == [] then multiset{} else
      Packed(Init(es)) + (if Last(es).Produce? then multiset(Last(es).block) else multiset{})
  }

  function Arrived(e: Event): nat {
    if e.Arrive? then 1 else 0
  }

  function FeesIn(e: Event): nat {
    if e.Produce? then SumFees(e.block) else 0
  }

  function PackedFees(es: seq<Event>): nat {
    if es == [] then 0 else
      PackedFees(Init(es)) + FeesIn(Last(es))
  }

  function Arrivals(es: seq<Event>): nat {
    if es == [] then 0 else Arrivals(Init(es)) + Arrived(Last(es))
  }

  function SlotsIn(e: Event): nat {
    if e.Produce? then 1 else 0
  }

  function Slots(es: seq<Event>): nat {
    if es == [] then 0 else Slots(Init(es)) + SlotsIn(Last(es))
  }

  // ---------- Main results ----------

  /** Every accepted transaction is queued or in exactly one block; the lifetime counter counts the
      accepted ones and the fee total sums up the packed fees, up to 64-bit wrap-around. */
  lemma EveryTransactionIsAccountedFor(cfg: Cfg, cap: nat, vs: seq<View>, es: seq<Event>)
    requires cfg.epochLengthSlots > 0 && Execution(cfg, cap, vs, es)
    ensures var v := vs[|es|];
            && v.queue + Packed(es) == Accepted(es)
            && |v.queue| <= cap && |v.queue| + |Packed(es)| == Arrivals(es)
            && v.txns == Wrap64(Arrivals(es))
            && v.fees == Wrap64(PackedFees(es))
  {
    QueuedOrPacked(cfg, cap, vs, es);
    ExecutionCounts(cfg, cap, vs, es);
    TxnsCountArrivals(vs, es);
    FeesCountPacked(vs, es);
    ArrivalsCountAccepted(es);
  }

  lemma {:induction false} ArrivalsCountAccepted(es: seq<Event>)
    ensures |Accepted(es)| == Arrivals(es)
  {
    if es != [] {
      ArrivalsCountAccepted(Init(es));
    }
  }

  lemma {:induction false} QueuedOrPacked(cfg: Cfg, cap: nat, vs: seq<View>, es: seq<Event>)
    requires cfg.epochLengthSlots > 0 && Execution(cfg, cap, vs, es)
    ensures vs[|es|].queue + Packed(es) == Accepted(es) && |vs[|es|].queue| <= cap
    decreases |es|
  {
    if es != [] {
      var n := |es| - 1;
      QueuedOrPacked(cfg, cap, vs[..|es|], Init(es));
      if es[n].Produce? {
        DrainedConserves(vs[n].queue, es[n].block, vs[n + 1].queue);
      }
    }
  }

  lemma DrainedConserves(queue: multiset<Txn>, block: seq<Txn>, rest: multiset<Txn>)
    requires Drained(queue, block, rest)
    ensures rest + multiset(block) == queue && |rest| <= |queue|
  {
    DrainedIsSelected(queue, block, rest);
    assert |rest| + |multiset(block)| == |queue|;
  }

  lemma WrapStep(total: nat, step: nat, before: u64, after: u64)
    requires before == Wrap64(total) && after == Wrap64(before + step)
    ensures after == Wrap64(total + step)
  {
    WrapSum(total, step);
  }

  /** How one event moves the counters. */
  ghost predicate Counts(v: View, e: Event, v': View) {
    && v'.txns == Wrap64(v.txns + Arrived(e)) && v'.fees == Wrap64(v.fees + FeesIn(e))
    && v'.clock.slot == Wrap64(v.clock.slot + SlotsIn(e)) && v'.clock.blocks == Wrap64(v.clock.blocks + SlotsIn(e))
  }

  ghost predicate AllCount(vs: seq<View>, es: seq<Event>) {
    && |vs| == |es| + 1 && vs[0] == OPENING
    && forall i | 0 <= i < |es| :: Counts(vs[i], es[i], vs[i + 1])
  }

  lemma StepCounts(cfg: Cfg, cap: nat, v: View, e: Event, v': View)
    requires cfg.epochLengthSlots > 0 && Step(cfg, cap, v, e, v')
    ensures Counts(v, e, v')
  {
  }

  lemma {:induction false} ExecutionCounts(cfg: Cfg, cap: nat, vs: seq<View>, es: seq<Event>)
    requires cfg.epochLengthSlots > 0 && Execution(cfg, cap, vs, es)
    ensures AllCount(vs, es)
    decreases |es|
  {
    if es != [] {
      ExecutionCounts(cfg, cap, vs[..|es|], Init(es));
      StepCounts(cfg, cap, vs[|es| - 1], Last(es), vs[|es|]);
    }
  }

  lemma {:induction false} TxnsCountArrivals(vs: seq<View>, es: seq<Event>)
    requires AllCount(vs, es)
    ensures vs[|es|].txns == Wrap64(Arrivals(es))
    decreases |es|
  {
    if es != [] {
      TxnsCountArrivals(vs[..|es|], Init(es));
      WrapStep(Arrivals(Init(es)), Arrived(Last(es)), vs[|es| - 1].txns, vs[|es|].txns);
    }
  }

  lemma {:induction false} FeesCountPacked(vs: seq<View>, es: seq<Event>)
    requires AllCount(vs, es)
    ensures vs[|es|].fees == Wrap64(PackedFees(es))
    decreases |es|
  {
    if es != [] {
      FeesCountPacked(vs[..|es|], Init(es));
      WrapStep(PackedFees(Init(es)), FeesIn(Last(es)), vs[|es| - 1].fees, vs[|es|].fees);
    }
  }

  lemma {:induction false} SlotsWrap(vs: seq<View>, es: seq<Event>)
    requires AllCount(vs, es)
    ensures vs[|es|].clock.slot == vs[|es|].clock.blocks == Wrap64(Slots(es))
    decreases |es|
  {
    if es != [] {
      var before, after := vs[|es| - 1].clock, vs[|es|].clock;
      SlotsWrap(vs[..|es|], Init(es));
      WrapStep(Slots(Init(es)), SlotsIn(Last(es)), before.slot, after.slot);
    }
  }

  /** Blocks and slots advance together, and the epoch is the slot divided by the epoch length. */
  lemma {:induction false} ClockCountsBlocks(cfg: Cfg, cap: nat, vs: seq<View>, es: seq<Event>)
    requires cfg.epochLengthSlots > 0 && Execution(cfg, cap, vs, es) && Slots(es) <= U64_MAX
    ensures var c := vs[|es|].clock;
            && c.slot == c.blocks == Slots(es)
            && c.epoch == c.slot / cfg.epochLengthSlots
    decreases |es|
  {
    if es != [] {
      var n := |es| - 1;
      ClockCountsBlocks(cfg, cap, vs[..|es|], Init(es));
      if es[n].Produce? {
        NextQuotient(Slots(Init(es)), cfg.epochLengthSlots);
        WrapNext(vs[n].clock.slot);
        WrapNext(vs[n].clock.epoch);
      }
    } else {
      DivUnique(0, cfg.epochLengthSlots, 0);
    }
  }

  /** Counting up, the quotient steps exactly at the multiples. */
  lemma NextQuotient(n: nat, d: nat)
    requires d > 0
    ensures (n + 1) / d == n / d + (if (n + 1) % d == 0 then 1 else 0)
    ensures (n + 1) / d <= n + 1
  {
    DivBounds(n, d);
    DivBounds(n + 1, d);
    var q, q' := n / d, (n + 1) / d;
    assert n + 1 == d * q' + (n + 1) % d;
    if (n + 1) % d == 0 {
      DivUnique(n, d, q' - 1);
    } else {
      DivUnique(n, d, q');
    }
    DivMono(n + 1, n + 1, d, 1);
  }

  lemma {:induction false} StepAt(cfg: Cfg, cap: nat, vs: seq<View>, es: seq<Event>, i: nat)
    requires cfg.epochLengthSlots > 0 && Execution(cfg, cap, vs, es) && i < |es|
    ensures Step(cfg, cap, vs[i], es[i], vs[i + 1])
    decreases |es|
  {
    if i < |es| - 1 {
      StepAt(cfg, cap, vs[..|es|], Init(es), i);
    }
  }

  /** Every block takes, in order, exactly the fees that a full sort of the queue would put first, and
      as many of them as fit. */
  lemma EveryBlockTakesTheTopFees(
      cfg: Cfg, cap: nat, vs: seq<View>, es: seq<Event>, i: nat, queue: seq<Txn>, rest: seq<Txn>)
    requires cfg.epochLengthSlots > 0 && Execution(cfg, cap, vs, es)
    requires i < |es| && es[i].Produce?
    requires multiset(queue) == vs[i].queue && multiset(rest) == vs[i + 1].queue
    ensures var block := es[i].block;
            && |block| == Min(BlockLimit(cfg), |queue|)
            && Selected(multiset(queue), block, multiset(rest))
            && Fees(block) == SortDescending(Fees(queue))[..|block|]
  {
    StepAt(cfg, cap, vs, es, i);
    var block := es[i].block;
    assert |queue| == |multiset(queue)|;
    DrainedIsSelected(multiset(queue), block, multiset(rest));
    SelectedTakesTheTopFees(queue, block, rest);
  }

  // ---------- Priorities ----------

  /** What a staged priority is worth in the queue: a transaction without one ranks as the base fee. */
  function Rank(priority: u64): u64 {
    if priority == 0 then 5_000 else priority
  }

  /** In every block, an entry staged with the higher priority stands before one staged with the lower, and it is
      not left in the queue while the lower one is taken. */
  lemma HigherPriorityGoesFirst(cfg: Cfg, cap: nat, vs: seq<View>, es: seq<Event>, k: nat, high: Event, low: Event)
    requires cfg.epochLengthSlots > 0 && Execution(cfg, cap, vs, es) && k < |es| && es[k].Produce?
    requires high.Arrive? && low.Arrive? && Rank(high.priority) > Rank(low.priority)
    ensures forall t, u, x, y | && Carries(t, high.frag, high.priority, high.now)
                                && Carries(u, low.frag, low.priority, low.now)
                                && 0 <= x < |es[k].block| && 0 <= y < |es[k].block|
                                && es[k].block[x] == t && es[k].block[y] == u :: x < y
    ensures forall t, u | && Carries(t, high.frag, high.priority, high.now)
                          && Carries(u, low.frag, low.priority, low.now)
                          && t in vs[k + 1].queue :: u !in es[k].block
  {
    StepAt(cfg, cap, vs, es, k);
    DrainedIsSelected(vs[k].queue, es[k].block, vs[k + 1].queue);
    var fees := Fees(es[k].block);
    assert Descending(fees);
  }

  /** Whatever a block packs, or the queue still holds, was staged: it carries one arrival's fragment and priority. */
  lemma EveryEntryWasStaged(cfg: Cfg, cap: nat, vs: seq<View>, es: seq<Event>, t: Txn)
    requires cfg.epochLengthSlots > 0 && Execution(cfg, cap, vs, es)
    requires t in vs[|es|].queue || t in Packed(es)
    ensures exists i | 0 <= i < |es| ::
              es[i].Arrive? && Carries(t, es[i].frag, es[i].priority, es[i].now)
  {
    QueuedOrPacked(cfg, cap, vs, es);
    assert t in Accepted(es);
    AcceptedWasStaged(es, t);
  }

  lemma {:induction false} AcceptedWasStaged(es: seq<Event>, t: Txn)
    requires t in Accepted(es)
    ensures exists i | 0 <= i < |es| ::
              es[i].Arrive? && Carries(t, es[i].frag, es[i].priority, es[i].now)
  {
    var e := Last(es);
    if e.Arrive? && t == Entry(e) {
      EntryCarriesTheFragment(e.frag, e.priority, e.now);
      assert es[|es| - 1] == e;
    } else {
      AcceptedWasStaged(Init(es), t);
      var i :| && 0 <= i < |Init(es)|
               && Init(es)[i].Arrive? && Carries(t, Init(es)[i].frag, Init(es)[i].priority, Init(es)[i].now);
      assert es[i] == Init(es)[i];
    }
  }

  /** Slot and block counters count the blocks modulo the register width, however long the run. */
  lemma CountersWrap(cfg: Cfg, cap: nat, vs: seq<View>, es: seq<Event>)
    requires cfg.epochLengthSlots > 0 && Execution(cfg, cap, vs, es)
    ensures var v := vs[|es|];
            && v.clock.slot == v.clock.blocks == Slots(es) % 0x1_0000_0000_0000_0000
            && v.txns == Arrivals(es) % 0x1_0000_0000_0000_0000
            && v.fees == PackedFees(es) % 0x1_0000_0000_0000_0000
  {
    ExecutionCounts(cfg, cap, vs, es);
    SlotsWrap(vs, es);
    TxnsCountArrivals(vs, es);
    FeesCountPacked(vs, es);
    Wrap64IsRemainder(Slots(es));
    Wrap64IsRemainder(Arrivals(es));
    Wrap64IsRemainder(PackedFees(es));
  }

  /** The epoch number moves, by one, exactly when a block's new slot number is a multiple of the epoch length. */
  lemma EpochsTurnAtMultiples(cfg: Cfg, cap: nat, vs: seq<View>, es: seq<Event>, k: nat)
    requires cfg.epochLengthSlots > 0 && Execution(cfg, cap, vs, es) && k < |es|
    ensures var before, after := vs[k].clock, vs[k + 1].clock;
            after.epoch == if es[k].Produce? && after.slot != 0 && after.slot % cfg.epochLengthSlots == 0
                           then (before.epoch + 1) % 0x1_0000_0000_0000_0000 else before.epoch
  {
    StepAt(cfg, cap, vs, es, k);
    EpochTurns(cfg, vs[k].clock);
  }

  lemma EpochTurns(cfg: Cfg, c: Clock)
    requires cfg.epochLengthSlots > 0
    ensures var after := Advanced(cfg, c);
            after.epoch == if after.slot != 0 && after.slot % cfg.epochLengthSlots == 0
                           then (c.epoch + 1) % 0x1_0000_0000_0000_0000 else c.epoch
  {
    Wrap64IsRemainder(c.epoch + 1);
  }
}
