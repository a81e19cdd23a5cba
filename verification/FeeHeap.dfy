/** The fee-ordered heap on sequences: heap order, the two sift steps, and the order a drained heap yields. */
module FeeHeap {
  import opened Numbers

  type Byte = bv8

  datatype Txn = Txn(payload: seq<Byte>, fee: u64, receivedTicks: int, sig: seq<Byte>)

  function Parent(i: int): int {
    (i - 1) / 2
  }

  /** Every entry's fee is at most its parent's. */
  predicate Heap(q: seq<Txn>) {
    forall i {:trigger Parent(i)} | 0 < i < |q| :: q[Parent(i)].fee >= q[i].fee
  }

  /** Heap order but for entry `i` against its parent; its children already fit under that parent. */
  predicate HeapButUp(q: seq<Txn>, i: int) {
    && (forall j {:trigger Parent(j)} | 0 < j < |q| && j != i :: q[Parent(j)].fee >= q[j].fee)
    && (forall j {:trigger Parent(j)} | 0 < i < j < |q| && Parent(j) == i :: q[Parent(i)].fee >= q[j].fee)
  }

  /** Heap order but for entry `i` against its children; they already fit under its parent. */
  predicate HeapButDown(q: seq<Txn>, i: int) {
    && (forall j {:trigger Parent(j)} | 0 < j < |q| && Parent(j) != i :: q[Parent(j)].fee >= q[j].fee)
    && (forall j {:trigger Parent(j)} | 0 < i < j < |q| && Parent(j) == i :: q[Parent(i)].fee >= q[j].fee)
  }

  function Swap(q: seq<Txn>, i: nat, j: nat): seq<Txn>
    requires i < |q| && j < |q|
  {
    q[i := q[j]][j := q[i]]
  }

  lemma SwapPermutes(q: seq<Txn>, i: nat, j: nat)
    requires i < |q| && j < |q|
    ensures multiset(Swap(q, i, j)) == multiset(q)
  {
  }

  lemma SiftUpStep(q: seq<Txn>, i: nat)
    requires HeapButUp(q, i) && 0 < i < |q| && q[Parent(i)].fee < q[i].fee
    ensures HeapButUp(Swap(q, i, Parent(i)), Parent(i))
  {
  }

  lemma SiftDownStep(q: seq<Txn>, i: nat, best: nat)
    requires HeapButDown(q, i) && best < |q| && Parent(best) == i < best && q[best].fee > q[i].fee
    requires 2 * i + 1 < |q| ==> q[best].fee >= q[2 * i + 1].fee
    requires 2 * i + 2 < |q| ==> q[best].fee >= q[2 * i + 2].fee
    ensures HeapButDown(Swap(q, i, best), best)
  {
  }

  /** A fit entry with both children below it completes the heap. */
  lemma SiftDownDone(q: seq<Txn>, i: nat)
    requires HeapButDown(q, i)
    requires 2 * i + 1 < |q| ==> q[i].fee >= q[2 * i + 1].fee
    requires 2 * i + 2 < |q| ==> q[i].fee >= q[2 * i + 2].fee
    ensures Heap(q)
  {
  }

  lemma {:induction false} RootAbove(q: seq<Txn>, j: nat)
    requires Heap(q) && j < |q|
    ensures q[0].fee >= q[j].fee
  {
    if j > 0 {
      RootAbove(q, Parent(j));
    }
  }

  /** The first entry of a heap has the highest fee. */
  lemma RootIsHighest(q: seq<Txn>)
    requires Heap(q) && q != []
    ensures forall t | t in multiset(q) :: q[0].fee >= t.fee
  {
    forall t | t in multiset(q)
      ensures q[0].fee >= t.fee
    {
      assert t in q;
      var j :| 0 <= j < |q| && q[j] == t;
      RootAbove(q, j);
    }
  }

  // ---------- Blocks ----------

  predicate Descending(s: seq<int>) {
    forall i, j | 0 <= i < j < |s| :: s[i] >= s[j]
  }

  function Fees(ts: seq<Txn>): (fees: seq<int>)
    ensures |fees| == |ts| && forall i | 0 <= i < |ts| :: fees[i] == ts[i].fee
  {
    if ts == [] then [] else [ts[0].fee] + Fees(ts[1..])
  }

  function SumFees(ts: seq<Txn>): nat {
    if ts == [] then 0 else SumFees(ts[..|ts| - 1]) + ts[|ts| - 1].fee
  }

  /** A block takes the highest fees first and leaves nothing dearer behind. */
  ghost predicate Selected(queue: multiset<Txn>, block: seq<Txn>, rest: multiset<Txn>) {
    && queue == multiset(block) + rest
    && Descending(Fees(block))
    && forall t, i | t in rest && 0 <= i < |block| :: block[i].fee >= t.fee
  }

  /** Repeated removal of a highest-fee transaction: the order in which a heap is drained. */
  ghost predicate Drained(queue: multiset<Txn>, block: seq<Txn>, rest: multiset<Txn>) {
    if block == [] then rest == queue else
      var t := block[|block| - 1];
      && Drained(queue, block[..|block| - 1], rest + multiset{t})
      && forall u | u in rest :: t.fee >= u.fee
  }

  lemma {:induction false} DrainedIsSelected(queue: multiset<Txn>, block: seq<Txn>, rest: multiset<Txn>)
    requires Drained(queue, block, rest)
    ensures Selected(queue, block, rest)
  {
    if block != [] {
      var init, t := block[..|block| - 1], block[|block| - 1];
      DrainedIsSelected(queue, init, rest + multiset{t});
      SelectLast(queue, block, rest);
    }
  }

  lemma {:induction false} SelectLast(queue: multiset<Txn>, block: seq<Txn>, rest: multiset<Txn>)
    requires block != []
    requires var t := block[|block| - 1];
             Selected(queue, block[..|block| - 1], rest + multiset{t}) && forall u | u in rest :: t.fee >= u.fee
    ensures Selected(queue, block, rest)
  {
    SelectNext(queue, block[..|block| - 1], block[|block| - 1], rest);
    assert block == block[..|block| - 1] + [block[|block| - 1]];
  }

  lemma DrainNext(queue: multiset<Txn>, block: seq<Txn>, t: Txn, rest: multiset<Txn>)
    requires Drained(queue, block, rest + multiset{t})
    requires forall u | u in rest :: t.fee >= u.fee
    ensures Drained(queue, block + [t], rest)
  {
    assert (block + [t])[..|block|] == block;
  }

  lemma {:induction false} FeesOfConcat(a: seq<Txn>, b: seq<Txn>)
    ensures Fees(a + b) == Fees(a) + Fees(b)
  {
  }

  lemma {:induction false} ConcatDescends(a: seq<int>, b: seq<int>)
    requires Descending(a) && Descending(b)
    requires forall i, x | 0 <= i < |a| && x in b :: a[i] >= x
    ensures Descending(a + b)
  {
    forall i, j | 0 <= i < j < |a + b|
      ensures (a + b)[i] >= (a + b)[j]
    {
      if i < |a| <= j {
        assert b[j - |a|] in b;
      }
    }
  }

  lemma {:induction false} CheapestLast(block: seq<Txn>, t: Txn)
    requires Descending(Fees(block)) && forall i | 0 <= i < |block| :: block[i].fee >= t.fee
    ensures Descending(Fees(block + [t]))
  {
    var all, fees := block + [t], Fees(block + [t]);
    forall i, j | 0 <= i < j < |fees|
      ensures fees[i] >= fees[j]
    {
      assert fees[i] == all[i].fee && fees[j] == all[j].fee;
      if j < |block| {
        assert Fees(block)[i] >= Fees(block)[j];
      }
    }
  }

  /** Taking the highest remaining fee extends a selected block. */
  lemma {:induction false} SelectNext(queue: multiset<Txn>, block: seq<Txn>, t: Txn, rest: multiset<Txn>)
    requires Selected(queue, block, rest + multiset{t})
    requires forall u | u in rest :: t.fee >= u.fee
    ensures Selected(queue, block + [t], rest)
  {
    assert t in rest + multiset{t};
    CheapestLast(block, t);
    assert multiset(block + [t]) + rest == multiset(block) + (rest + multiset{t});
    forall u, i | u in rest && 0 <= i < |block + [t]|
      ensures (block + [t])[i].fee >= u.fee
    {
      assert u in rest + multiset{t};
    }
  }

  // ---------- Reference: sort all fees, take the first n ----------

  function Insert(x: int, s: seq<int>): (r: seq<int>)
    ensures |r| == |s| + 1
  {
    if s == [] || x >= s[0] then [x] + s else [s[0]] + Insert(x, s[1..])
  }

  function SortDescending(s: seq<int>): (r: seq<int>)
    ensures |r| == |s|
  {
    if s == [] then [] else Insert(s[0], SortDescending(s[1..]))
  }

  lemma {:induction false} InsertPermutes(x: int, s: seq<int>)
    ensures multiset(Insert(x, s)) == multiset(s) + multiset{x}
  {
    if s != [] && x < s[0] {
      InsertPermutes(x, s[1..]);
      assert s == [s[0]] + s[1..];
    }
  }

  lemma {:induction false} InsertSorts(x: int, s: seq<int>)
    requires Descending(s)
    ensures Descending(Insert(x, s))
  {
    if s != [] && x < s[0] {
      var r := Insert(x, s[1..]);
      InsertSorts(x, s[1..]);
      InsertPermutes(x, s[1..]);
      forall j | 0 <= j < |r|
        ensures s[0] >= r[j]
      {
        assert r[j] in multiset(r);
        assert r[j] == x || r[j] in s[1..];
      }
    }
  }

  lemma {:induction false} SortSorts(s: seq<int>)
    ensures Descending(SortDescending(s)) && multiset(SortDescending(s)) == multiset(s)
  {
    if s != [] {
      SortSorts(s[1..]);
      InsertSorts(s[0], SortDescending(s[1..]));
      InsertPermutes(s[0], SortDescending(s[1..]));
      assert s == [s[0]] + s[1..];
    }
  }

  lemma SameSize<T>(s: seq<T>, t: seq<T>)
    requires multiset(s) == multiset(t)
    ensures |s| == |t|
  {
    assert |s| == |multiset(s)| && |t| == |multiset(t)|;
  }

  lemma TailMultiset<T>(s: seq<T>)
    requires s != []
    ensures multiset(s[1..]) == multiset(s) - multiset{s[0]}
  {
    assert s == [s[0]] + s[1..];
  }

  lemma SameHead(s: seq<int>, t: seq<int>)
    requires Descending(s) && Descending(t) && multiset(s) == multiset(t) && s != [] && t != []
    ensures s[0] == t[0]
  {
    assert s[0] in multiset(s) && t[0] in multiset(t);
    assert s[0] in t && t[0] in s;
  }

  /** A descending arrangement is unique. */
  lemma {:induction false} DescendingIsUnique(s: seq<int>, t: seq<int>)
    requires Descending(s) && Descending(t) && multiset(s) == multiset(t)
    ensures s == t
  {
    SameSize(s, t);
    if s != [] {
      SameHead(s, t);
      TailMultiset(s);
      TailMultiset(t);
      DescendingIsUnique(s[1..], t[1..]);
    }
  }

  /** How many transactions of a multiset carry a given fee. */
  ghost function CountFee(m: multiset<Txn>, fee: int): nat
    decreases |m|
  {
    if m == multiset{} then 0 else
      var t :| t in m;
      CountFee(m - multiset{t}, fee) + (if t.fee == fee then 1 else 0)
  }

  lemma RemovalCommutes(m: multiset<Txn>, t: Txn, u: Txn)
    requires t in m && u in m && t != u
    ensures m - multiset{t} - multiset{u} == m - multiset{u} - multiset{t}
    ensures u in m - multiset{t} && t in m - multiset{u}
    ensures |m - multiset{t}| < |m| && |m - multiset{u}| < |m|
  {
  }

  lemma {:induction false} CountFeeRemove(m: multiset<Txn>, t: Txn, fee: int)
    requires t in m
    ensures CountFee(m, fee) == CountFee(m - multiset{t}, fee) + (if t.fee == fee then 1 else 0)
    decreases |m|
  {
    var t0 :| t0 in m && CountFee(m, fee) == CountFee(m - multiset{t0}, fee) + (if t0.fee == fee then 1 else 0);
    if t0 != t {
      RemovalCommutes(m, t0, t);
      CountFeeRemove(m - multiset{t0}, t, fee);
      CountFeeRemove(m - multiset{t}, t0, fee);
    }
  }

  lemma {:induction false} CountFeeOfSequence(ts: seq<Txn>, fee: int)
    ensures CountFee(multiset(ts), fee) == multiset(Fees(ts))[fee]
  {
    if ts != [] {
      TailMultiset(ts);
      CountFeeOfSequence(ts[1..], fee);
      assert ts[0] in multiset(ts);
      CountFeeRemove(multiset(ts), ts[0], fee);
    }
  }

  /** Rearranging transactions rearranges their fees. */
  lemma FeesOfPermutation(a: seq<Txn>, b: seq<Txn>)
    requires multiset(a) == multiset(b)
    ensures multiset(Fees(a)) == multiset(Fees(b))
  {
    forall fee: int
      ensures multiset(Fees(a))[fee] == multiset(Fees(b))[fee]
    {
      CountFeeOfSequence(a, fee);
      CountFeeOfSequence(b, fee);
    }
  }

  lemma FeeOfSome(ts: seq<Txn>, x: int)
    requires x in SortDescending(Fees(ts))
    ensures exists t :: t in multiset(ts) && t.fee == x
  {
    SortSorts(Fees(ts));
    assert x in multiset(SortDescending(Fees(ts)));
    assert x in Fees(ts);
    var m :| 0 <= m < |ts| && Fees(ts)[m] == x;
    assert ts[m] in multiset(ts);
  }

  /** Whatever ties the heap breaks, a selected block carries exactly the fees a full sort of the queue
      would put first. */
  lemma SelectedTakesTheTopFees(queue: seq<Txn>, block: seq<Txn>, rest: seq<Txn>)
    requires Selected(multiset(queue), block, multiset(rest))
    ensures |block| <= |queue|
    ensures Fees(block) == SortDescending(Fees(queue))[..|block|]
  {
    assert |block| == |multiset(block)| <= |multiset(queue)| == |queue|;
    var tail := SortDescending(Fees(rest));
    SortSorts(Fees(rest));
    SortSorts(Fees(queue));
    assert multiset(block + rest) == multiset(queue);
    assert |block + rest| == |multiset(block + rest)| == |multiset(queue)| == |queue|;
    FeesOfPermutation(block + rest, queue);
    FeesOfConcat(block, rest);
    var all := Fees(block) + tail;
    assert multiset(all) == multiset(Fees(queue));
    forall i, x | 0 <= i < |block| && x in tail
      ensures Fees(block)[i] >= x
    {
      FeeOfSome(rest, x);
    }
    ConcatDescends(Fees(block), tail);
    DescendingIsUnique(all, SortDescending(Fees(queue)));
  }
}
