/** The sequencer tile over its array: the heap, block building, and the callbacks that drive them. */
module SequencerTile {
  import opened Numbers
  import opened FeeHeap
  import opened Sequencer
  import opened SequencerRuns

  const CFG_DEFAULT := Cfg(400_000_000, 10_000, 432_000)
  const TXN_SIZE: nat := TXN_MTU + 8 + 8 + 8 + 64
  const TILE_SIZE: nat := 1472
  const SCRATCH_FOOTPRINT: nat := 0x40_0000

  /** The scratch space a tile and its queue take up. */
  const REQUIRED: nat := TILE_SIZE + QUEUE_MAX * TXN_SIZE

  class Tile {
    const cfg: Cfg
    const txQueue: array<Txn>
    var txQueueCnt: nat
    var currentSlot: u64
    var currentEpoch: u64
    var blockCount: u64
    var txnCount: u64
    var feeTotal: u64
    var blockStartTicks: int
    var fragBuf: seq<Byte>

    ghost var queue: seq<Txn>  // the used part of the array

    ghost var vs: seq<View>    // the states since the start
    ghost var es: seq<Event>   // the events between them

    /** The array holds the queue in heap order. */
    ghost predicate Intact()
      reads this, txQueue
    {
      && txQueueCnt == |queue| <= txQueue.Length
      && txQueue[..txQueueCnt] == queue
      && Heap(queue)
      && cfg.epochLengthSlots > 0
    }

    ghost function Now(): View
      reads this
    {
      View(multiset(queue), Clock(currentSlot, currentEpoch, blockCount), txnCount, feeTotal)
    }

    /** The tile is where the run of its events led. */
    ghost predicate Valid()
      reads this, txQueue
    {
      Intact() && Execution(cfg, txQueue.Length, vs, es) && vs[|es|] == Now()
    }

    /** What Valid means for the transactions: each one accepted is in the queue or in one block, and the counters
        are those of the events. */
    lemma Accounts()
      requires Valid()
      ensures multiset(queue) + Packed(es) == Accepted(es) && txQueueCnt + |Packed(es)| == Arrivals(es)
      ensures txnCount == Wrap64(Arrivals(es)) && feeTotal == Wrap64(PackedFees(es))
    {
      EveryTransactionIsAccountedFor(cfg, txQueue.Length, vs, es);
      assert |multiset(queue)| == txQueueCnt;
    }

    /** And for the clock. */
    lemma SlotsAndEpochs()
      requires Valid() && Slots(es) <= U64_MAX
      ensures currentSlot == blockCount == Slots(es) && currentEpoch == currentSlot / cfg.epochLengthSlots
    {
      ClockCountsBlocks(cfg, txQueue.Length, vs, es);
    }

    constructor (cfg: Cfg, ticks: int)
      requires cfg.epochLengthSlots > 0
      ensures fresh(txQueue) && this.cfg == cfg && txQueue.Length == 65_536 && blockStartTicks == ticks
      ensures Now() == OPENING && es == [] && fragBuf == [] && Valid()
    {
      this.cfg := cfg;
      txQueue := new Txn[QUEUE_MAX](_ => Txn([], 0, 0, []));
      txQueueCnt := 0;
      currentSlot, currentEpoch, blockCount, txnCount, feeTotal := 0, 0, 0, 0, 0;
      blockStartTicks := ticks;
      fragBuf := [];
      queue := [];
      vs, es := [OPENING], [];
    }

    /** Scratch space too small for the queue is refused, and so is all that the tile's own footprint asks for. */
    static method UnprivilegedInit(scratchSz: u64, ticks: int) returns (tile: Tile?)
      ensures tile == null <==> scratchSz < 1_472 + 65_536 * (1_232 + 3 * 8 + 64)
      ensures scratchSz <= 4 * 1_048_576 ==> tile == null
      ensures tile != null ==>
                && fresh(tile) && fresh(tile.txQueue) && tile.txQueue.Length == 65_536
                && tile.cfg == Cfg(400_000_000, 10_000, 432_000) && tile.es == [] && tile.Valid()
    {
      if scratchSz < REQUIRED { return null; }
      tile := new Tile(CFG_DEFAULT, ticks);
    }

    /** One more event, which led to the present state. */
    ghost method Enter(e: Event)
      requires Intact() && Execution(cfg, txQueue.Length, vs, es) && Step(cfg, txQueue.Length, vs[|es|], e, Now())
      modifies this`vs, this`es
      ensures es == old(es) + [e] && vs == old(vs) + [Now()] && Valid()
    {
      ExecutionGrows(cfg, txQueue.Length, vs, es, e, Now());
      vs, es := vs + [Now()], es + [e];
    }

    /** Append and sift up. Refused only when the array is full. */
    method Push(txn: Txn) returns (ok: bool)
      requires Intact()
      modifies this`txQueueCnt, this`queue, txQueue
      ensures Intact()
      ensures ok <==> old(txQueueCnt) < txQueue.Length
      ensures ok ==> multiset(queue) == old(multiset(queue)) + multiset{txn}
      ensures !ok ==> queue == old(queue)
    {
      if txQueueCnt >= txQueue.Length { return false; }
      var idx := txQueueCnt;
      txQueueCnt := txQueueCnt + 1;
      txQueue[idx] := txn;
      queue := queue + [txn];
      while idx > 0
        invariant 0 <= idx < txQueueCnt == |queue| <= txQueue.Length
        invariant txQueue[..txQueueCnt] == queue
        invariant HeapButUp(queue, idx)
        invariant multiset(queue) == old(multiset(queue)) + multiset{txn}
      {
        var parent := Parent(idx);
        if txQueue[parent].fee >= txQueue[idx].fee { break; }
        SiftUpStep(queue, idx);
        SwapEntries(idx, parent);
        idx := parent;
      }
      ok := true;
    }

    /** Take the first entry, move the last one there and sift it down. */
    method Pop() returns (ok: bool, out: Txn)
      requires Intact()
      modifies this`txQueueCnt, this`queue, txQueue
      ensures Intact()
      ensures ok <==> old(txQueueCnt) > 0
      ensures ok ==> multiset(queue) + multiset{out} == old(multiset(queue))
      ensures ok ==> forall t: Txn | t in multiset(queue) :: out.fee >= t.fee
      ensures ok ==> txQueueCnt == old(txQueueCnt) - 1
      ensures !ok ==> queue == old(queue)
    {
      if txQueueCnt == 0 { return false, Txn([], 0, 0, []); }
      out := txQueue[0];
      ghost var before := queue;
      RootIsHighest(before);
      txQueueCnt := txQueueCnt - 1;
      if txQueueCnt > 0 {
        MoveLastToFront();
        MovedLastToFront(before, queue);
        SiftDown();
      } else {
        queue := [];
        assert before == [out];
      }
      ok := true;
    }

    method MoveLastToFront()
      requires 0 < txQueueCnt == |queue| - 1 < txQueue.Length && txQueue[..txQueueCnt + 1] == queue
      modifies this`queue, txQueue
      ensures queue == [old(queue)[txQueueCnt]] + old(queue)[1..txQueueCnt] && txQueue[..txQueueCnt] == queue
    {
      queue := [queue[txQueueCnt]] + queue[1..txQueueCnt];
      txQueue[0] := txQueue[txQueueCnt];
    }

    method SwapEntries(i: nat, j: nat)
      requires txQueueCnt == |queue| <= txQueue.Length && txQueue[..txQueueCnt] == queue
      requires i < txQueueCnt && j < txQueueCnt
      modifies this`queue, txQueue
      ensures txQueue[..txQueueCnt] == queue == Swap(old(queue), i, j)
      ensures multiset(queue) == old(multiset(queue))
    {
      SwapPermutes(queue, i, j);
      var tmp := txQueue[i];
      txQueue[i] := txQueue[j];
      txQueue[j] := tmp;
      queue := Swap(queue, i, j);
    }

    method SiftDown()
      requires 0 < txQueueCnt == |queue| <= txQueue.Length && txQueue[..txQueueCnt] == queue
      requires HeapButDown(queue, 0) && cfg.epochLengthSlots > 0
      modifies this`queue, txQueue
      ensures Intact() && multiset(queue) == old(multiset(queue))
    {
      var idx := 0;
      while true
        invariant 0 <= idx < txQueueCnt == |queue| <= txQueue.Length
        invariant txQueue[..txQueueCnt] == queue
        invariant HeapButDown(queue, idx)
        invariant multiset(queue) == old(multiset(queue))
        decreases txQueueCnt - idx
      {
        var left, right, best := 2 * idx + 1, 2 * idx + 2, idx;
        if left < txQueueCnt && txQueue[left].fee > txQueue[best].fee { best := left; }
        if right < txQueueCnt && txQueue[right].fee > txQueue[best].fee { best := right; }
        if best == idx {
          SiftDownDone(queue, idx);
          break;
        }
        SiftDownStep(queue, idx, best);
        SwapEntries(idx, best);
        idx := best;
      }
    }

    /** Pop up to `maxTxns` transactions (truncated to 32 bits) into the caller's buffer. */
    method BuildBlock(txnsOut: array<Txn>, maxTxns: u64) returns (n: nat)
      requires Intact() && txnsOut != txQueue && Wrap32(maxTxns) <= txnsOut.Length
      modifies this`txQueueCnt, this`queue, this`feeTotal, txQueue, txnsOut
      ensures Intact()
      ensures n == Min(Wrap32(maxTxns), old(txQueueCnt)) && txQueueCnt == old(txQueueCnt) - n
      ensures n <= txnsOut.Length
      ensures Drained(old(multiset(queue)), txnsOut[..n], multiset(queue))
      ensures feeTotal == Wrap64(old(feeTotal) + SumFees(txnsOut[..n]))
    {
      n := DrainInto(txnsOut, Wrap32(maxTxns));
      AccumulateFees(txnsOut, n);
    }

    method DrainInto(txnsOut: array<Txn>, limit: nat) returns (n: nat)
      requires Intact() && txnsOut != txQueue && limit <= txnsOut.Length
      modifies this`txQueueCnt, this`queue, txQueue, txnsOut
      ensures Intact()
      ensures n == Min(limit, old(txQueueCnt)) && txQueueCnt == old(txQueueCnt) - n
      ensures Drained(old(multiset(queue)), txnsOut[..n], multiset(queue))
    {
      n := 0;
      while n < limit
        invariant Intact() && 0 <= n <= limit
        invariant txQueueCnt == old(txQueueCnt) - n
        invariant Drained(old(multiset(queue)), txnsOut[..n], multiset(queue))
      {
        var ok := PopInto(txnsOut, n, old(multiset(queue)));
        if !ok { break; }
        n := n + 1;
      }
    }

    /** Pop into the caller's buffer, behind what was drained from `all` before. */
    method PopInto(txnsOut: array<Txn>, n: nat, ghost all: multiset<Txn>) returns (ok: bool)
      requires Intact() && txnsOut != txQueue && n < txnsOut.Length && Drained(all, txnsOut[..n], multiset(queue))
      modifies this`txQueueCnt, this`queue, txQueue, txnsOut
      ensures ok <==> old(txQueueCnt) > 0
      ensures txQueueCnt == old(txQueueCnt) - if ok then 1 else 0
      ensures Drained(all, if ok then txnsOut[..n + 1] else txnsOut[..n], multiset(queue))
      ensures Intact()
    {
      ghost var before, block := multiset(queue), txnsOut[..n];
      var txn;
      ok, txn := Pop();
      if ok {
        txnsOut[n] := txn;
        assert txnsOut[..n + 1] == block + [txn];
        DrainNext(all, block, txn, multiset(queue));
      }
    }

    method AccumulateFees(txnsOut: array<Txn>, n: nat)
      requires n <= txnsOut.Length
      modifies this`feeTotal
      ensures feeTotal == Wrap64(old(feeTotal) + SumFees(txnsOut[..n]))
    {
      var i := 0;
      while i < n
        invariant 0 <= i <= n
        invariant feeTotal == Wrap64(old(feeTotal) + SumFees(txnsOut[..i]))
      {
        assert txnsOut[..i + 1][..i] == txnsOut[..i];
        WrapSum(old(feeTotal) + SumFees(txnsOut[..i]), txnsOut[i].fee);
        feeTotal := Wrap64(feeTotal + txnsOut[i].fee);
        i := i + 1;
      }
    }

    /** A block in a buffer on the stack, its size clamped to what fits there. */
    method BuildClamped() returns (block: seq<Txn>)
      requires Intact()
      modifies this`txQueueCnt, this`queue, this`feeTotal, txQueue
      ensures Intact() && Takes(cfg, old(Now()), Now(), block)
    {
      var maxTxns := cfg.maxTxnsPerBlock;
      if maxTxns > BLOCK_MAX { maxTxns := BLOCK_MAX; }
      assert Wrap32(maxTxns) == maxTxns == BlockLimit(cfg);
      assert |multiset(queue)| == txQueueCnt;
      var txnsOut := NewBlockBuffer();
      var n := BuildBlock(txnsOut, maxTxns);
      block := txnsOut[..n];
    }

    method NewBlockBuffer() returns (txnsOut: array<Txn>)
      ensures fresh(txnsOut) && txnsOut.Length == BLOCK_MAX
    {
      txnsOut := new Txn[BLOCK_MAX](_ => Txn([], 0, 0, []));
    }

    method AdvanceSlot() returns (newEpoch: bool)
      requires Intact()
      modifies this`currentSlot, this`currentEpoch, this`blockCount
      ensures Intact() && Now().clock == Advanced(cfg, old(Now().clock))
      ensures newEpoch <==> currentEpoch != old(currentEpoch)
    {
      WrapNext(currentEpoch);
      currentSlot := Wrap64(currentSlot + 1);
      blockCount := Wrap64(blockCount + 1);
      newEpoch := false;
      if currentSlot > 0 && currentSlot % cfg.epochLengthSlots == 0 {
        currentEpoch := Wrap64(currentEpoch + 1);
        newEpoch := true;
      }
    }

    /** Stage a fragment; an oversized one clears the staging buffer. */
    method DuringFrag(payload: seq<Byte>)
      requires Valid()
      modifies this`fragBuf
      ensures fragBuf == if |payload| > 1_232 then [] else payload
      ensures Valid()
    {
      if |payload| > TXN_MTU {
        fragBuf := [];
        return;
      }
      fragBuf := payload;
    }

    /** The entry that the staged fragment becomes. */
    method StagedTxn(priority: u64, now: int) returns (txn: Txn)
      ensures txn == TxnOf(fragBuf, priority, now)
    {
      txn := Txn(fragBuf, BASE_FEE, now, Zeroed(64));
      if |txn.payload| >= 65 {
        txn := txn.(sig := txn.payload[1..65]);
      }
      if priority > 0 {
        txn := txn.(fee := priority);
      }
    }

    /** Enqueue the staged fragment; with the queue full it is dropped and not counted. */
    method AfterFrag(priority: u64, now: int)
      requires Valid()
      modifies this, txQueue
      ensures fragBuf == [] && blockStartTicks == old(blockStartTicks)
      ensures es == old(es) + if old(fragBuf) == [] then []
                              else if old(txQueueCnt) == txQueue.Length then [Drop]
                              else [Arrive(old(fragBuf), priority, now)]
      ensures if old(fragBuf) == [] || old(txQueueCnt) == txQueue.Length
              then queue == old(queue)
              else exists t :: && Carries(t, old(fragBuf), priority, now)
                               && multiset(queue) == old(multiset(queue)) + multiset{t}
      ensures Valid()
    {
      if |fragBuf| == 0 { return; }
      assert |multiset(queue)| == txQueueCnt;
      EntryCarriesTheFragment(fragBuf, priority, now);
      ghost var before, frag := Now(), fragBuf;
      var txn := StagedTxn(priority, now);
      var ok := Enqueue(txn);
      fragBuf := [];
      ghost var e := if ok then Arrive(frag, priority, now) else Drop;
      ArrivalSteps(cfg, txQueue.Length, before, e, Now());
      Enter(e);
    }

    /** Push the staged entry and count it. */
    method Enqueue(txn: Txn) returns (ok: bool)
      requires Intact()
      modifies this`txQueueCnt, this`queue, this`txnCount, txQueue
      ensures ok <==> old(txQueueCnt) < txQueue.Length
      ensures if ok then Enqueues(old(Now()), Now(), txn) else queue == old(queue) && Now() == old(Now())
      ensures Intact()
    {
      ok := Push(txn);
      if ok {
        txnCount := Wrap64(txnCount + 1);
      }
    }

    /** Once the block time has passed: build a block, advance the slot, restart the timer. */
    method DuringHousekeeping(now: int) returns (produced: bool, block: seq<Txn>)
      requires Valid()
      modifies this, txQueue
      ensures produced <==> (if now < old(blockStartTicks) then 0 else now - old(blockStartTicks)) >= cfg.blockTimeNs
      ensures es == old(es) + if produced then [Produce(block)] else []
      ensures blockStartTicks == if produced then now else old(blockStartTicks)
      ensures fragBuf == old(fragBuf)
      ensures Valid()
    {
      var elapsed := now - blockStartTicks;
      if elapsed < 0 { elapsed := 0; }
      if elapsed < cfg.blockTimeNs { return false, []; }
      block := ProduceBlock();
      blockStartTicks := now;
      Enter(Produce(block));
      produced := true;
    }

    /** Build a block and advance the slot. */
    method ProduceBlock() returns (block: seq<Txn>)
      requires Intact()
      modifies this`txQueueCnt, this`queue, this`feeTotal, this`currentSlot, this`currentEpoch, this`blockCount, txQueue
      ensures Produces(cfg, old(Now()), Now(), block)
      ensures Intact()
    {
      block := BuildClamped();
      ghost var taken := Now();
      var newEpoch := AdvanceSlot();
      assert Now().(clock := old(Now().clock)) == taken;
    }

    /** The block of a valid tile is the top of a full sort of what was queued when it was built. */
    lemma BlocksTakeTheTopFees(i: nat, queued: seq<Txn>, rest: seq<Txn>)
      requires Valid() && i < |es| && es[i].Produce?
      requires multiset(queued) == vs[i].queue && multiset(rest) == vs[i + 1].queue
      ensures var block := es[i].block;
              && |block| == Min(BlockLimit(cfg), |queued|)
              && Fees(block) == SortDescending(Fees(queued))[..|block|]
    {
      EveryBlockTakesTheTopFees(cfg, txQueue.Length, vs, es, i, queued, rest);
    }
  }

  /** Moving the last entry over the removed first one keeps heap order below the root. */
  lemma MovedLastToFront(before: seq<Txn>, q: seq<Txn>)
    requires Heap(before) && |before| > 1 && |q| == |before| - 1
    requires q == [before[|before| - 1]] + before[1..|before| - 1]
    ensures HeapButDown(q, 0)
    ensures multiset(q) + multiset{before[0]} == multiset(before)
  {
    assert before == [before[0]] + before[1..|before| - 1] + [before[|before| - 1]];
  }
}
