/** What the sequencer tile does, seen from outside: the queue as a multiset, its counters and its clock. */
module Sequencer {
  import opened Numbers
  import opened FeeHeap

  const QUEUE_MAX := 65536
  const BLOCK_MAX := 10000
  const TXN_MTU := 1232
  const BASE_FEE: u64 := 5000

  datatype Cfg = Cfg(blockTimeNs: u64, maxTxnsPerBlock: u64, epochLengthSlots: u64)

  /** The counters of a tile and the transactions it holds. */
  datatype View = View(queue: multiset<Txn>, clock: Clock, txns: u64, fees: u64)

  datatype Clock = Clock(slot: u64, epoch: u64, blocks: u64)

  /** The first `n` stack slots of a block are what the caller gets. */
  function BlockLimit(cfg: Cfg): nat {
    Min(cfg.maxTxnsPerBlock, BLOCK_MAX)
  }

  /** Memory as a queue entry finds it: every byte zero. */
  function Zeroed(n: nat): (bytes: seq<Byte>)
    ensures |bytes| == n && forall k | 0 <= k < n :: bytes[k] == 0
  {
    if n == 0 then [] else [0] + Zeroed(n - 1)
  }

  /** The entry a staged fragment becomes: the link's priority is the fee, or the base fee without one. */
  function TxnOf(frag: seq<Byte>, priority: u64, now: int): (t: Txn)
  {
    Txn(frag, if priority > 0 then priority else BASE_FEE, now, if |frag| >= 65 then frag[1..65] else Zeroed(64))
  }

  /** What the entry of a staged fragment must carry, whatever computes it. */
  ghost predicate Carries(t: Txn, frag: seq<Byte>, priority: u64, now: int) {
    && t.payload == frag && t.receivedTicks == now
    && t.fee == (if priority > 0 then priority else 5_000)
    && |t.sig| == 64
    && forall k | 0 <= k < 64 :: t.sig[k] == (if |frag| < 65 then 0 else frag[k + 1])
  }

  lemma EntryCarriesTheFragment(frag: seq<Byte>, priority: u64, now: int)
    ensures Carries(TxnOf(frag, priority, now), frag, priority, now)
    ensures forall t | Carries(t, frag, priority, now) :: t == TxnOf(frag, priority, now)
  {
    var entry := TxnOf(frag, priority, now);
    forall t | Carries(t, frag, priority, now)
      ensures t == entry
    {
      assert t.sig == entry.sig;
    }
  }

  /** A block has room for what the configuration says, but never for more than 10,000 transactions. */
  lemma BlockLimitIsClamped(cfg: Cfg)
    ensures BlockLimit(cfg) <= cfg.maxTxnsPerBlock && BlockLimit(cfg) <= 10_000
    ensures BlockLimit(cfg) == cfg.maxTxnsPerBlock || BlockLimit(cfg) == 10_000
  {
  }

  ghost predicate Enqueues(v: View, v': View, t: Txn) {
    v' == v.(queue := v.queue + multiset{t}, txns := Wrap64(v.txns + 1))
  }

  /** The next slot, and the next epoch when that slot is a multiple of the epoch length. */
  function Advanced(cfg: Cfg, c: Clock): Clock
    requires cfg.epochLengthSlots > 0
  {
    var slot := Wrap64(c.slot + 1);
    Clock(slot,
          if slot > 0 && slot % cfg.epochLengthSlots == 0 then Wrap64(c.epoch + 1) else c.epoch,
          Wrap64(c.blocks + 1))
  }

  /** The dearest transactions, up to the limit, leave the queue and their fees are counted. */
  ghost predicate Takes(cfg: Cfg, v: View, v': View, block: seq<Txn>) {
    && |block| == Min(BlockLimit(cfg), |v.queue|)
    && Drained(v.queue, block, v'.queue)
    && v'.fees == Wrap64(v.fees + SumFees(block))
    && v'.txns == v.txns && v'.clock == v.clock
  }

  /** One block taken, and the clock moved on. */
  ghost predicate Produces(cfg: Cfg, v: View, v': View, block: seq<Txn>)
    requires cfg.epochLengthSlots > 0
  {
    && Takes(cfg, v, v'.(clock := v.clock), block)
    && v'.clock == Advanced(cfg, v.clock)
  }
}
