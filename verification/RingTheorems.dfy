/**
 What the invariant means for every run of one queue: descriptor ownership, refinement of a plain
 FIFO, and what the sender's two -EAGAIN results say.
*/
module RingTheorems {
  import opened Basics
  import opened RingQueue
  import opened RingInvariant

  /** The state after a run: any interleaving is a sequence of actions. */
  function Exec(c: Config, s: State, acts: seq<Action>): (r: State)
    requires Shaped(c, s)
    ensures Shaped(c, r)
    decreases |acts|
  {
    if acts == [] then s
    else
      ShapedNext(c, s, acts[0]);
      Exec(c, Next(c, s, acts[0]), acts[1..])
  }

  lemma {:induction false} ExecConcat(c: Config, s: State, a: seq<Action>, b: seq<Action>)
    requires Shaped(c, s)
    ensures Exec(c, s, a + b) == Exec(c, Exec(c, s, a), b)
    decreases |a|
  {
    hide Shaped, Next;
    if a == [] {
      assert a + b == b;
    } else {
      ShapedNext(c, s, a[0]);
      ExecConcat(c, Next(c, s, a[0]), a[1..], b);
      assert (a + b)[1..] == a[1..] + b;
    }
  }

  lemma {:induction false} ExecKeeps(c: Config, s: State, acts: seq<Action>)
    requires Inv(c, s) && Divides(c)
    ensures Inv(c, Exec(c, s, acts))
    decreases |acts|
  {
    hide Shaped, Next, Divides;
    if acts != [] {
      NextKeeps(c, s, acts[0]);
      hide Inv;
      ExecKeeps(c, Next(c, s, acts[0]), acts[1..]);
    }
  }

  /** Every run from a freshly set up queue keeps the invariant when desc_num divides 2^16. */
  lemma ReachableInv(c: Config, acts: seq<Action>)
    requires ValidConfig(c) && Divides(c)
    ensures Inv(c, Init(c)) && Inv(c, Exec(c, Init(c), acts))
  {
    InitInv(c);
    ExecKeeps(c, Init(c), acts);
  }

  // Ownership: where each descriptor is.

  function TakenUpTo(s: State): (r: nat) {
    s.h.returned + (if Holding(s) then 1 else 0)
  }

  datatype Places = Places(free: set<nat>, filling: set<nat>, avail: set<nat>, copying: set<nat>, used: set<nat>)

  lemma HoldingIsInside(c: Config, s: State)
    requires Inv(c, s)
    ensures TakenUpTo(s) <= |s.h.ids|
  {
    hide Shaped, AvailWindow, UsedWindow, Payload, TxOk, Fifo, Wrap, Slot, Dist, Bitmap;
  }

  /** The five places, read off the bitmap, the program counters and the two ring windows. */
  ghost function PlacesOf(c: Config, s: State): (p: Places)
    requires Inv(c, s)
  {
    HoldingIsInside(c, s);
    Places(Range(c.n) - s.tx.inflight,
           Filling(s),
           Window(s.h.ids, TakenUpTo(s), |s.h.ids|),
           Window(s.h.ids, s.h.returned, TakenUpTo(s)),
           Window(s.h.ids, s.h.reclaimed, s.h.returned))
  }

  lemma WindowSplits(ids: seq<nat>, lo: nat, mid: nat, hi: nat)
    requires lo <= mid <= hi <= |ids|
    ensures Window(ids, lo, hi) == Window(ids, lo, mid) + Window(ids, mid, hi)
    ensures (forall i, j :: lo <= i < j < hi ==> ids[i] != ids[j]) ==> Window(ids, lo, mid) !! Window(ids, mid, hi)
  {
  }

  lemma Partition<T>(all: set<T>, busy: set<T>, fill: set<T>, out: set<T>, rest: set<T>,
                     used: set<T>, copy: set<T>, avail: set<T>)
    requires busy <= all && busy == out + fill && fill !! out
    requires out == used + rest && used !! rest && rest == copy + avail && copy !! avail
    ensures (all - busy) !! fill !! avail !! copy !! used
    ensures (all - busy) + fill + avail + copy + used == all
  {
  }

  lemma WindowsPartition(n: nat, ids: seq<nat>, lo: nat, mid: nat, taken: nat, tx: Tx, fill: set<nat>)
    requires lo <= mid <= taken <= |ids| && Bitmap(n, ids, lo, tx, fill)
    ensures var avail, copy, used := Window(ids, taken, |ids|), Window(ids, mid, taken), Window(ids, lo, mid);
      && (Range(n) - tx.inflight) !! fill !! avail !! copy !! used
      && (Range(n) - tx.inflight) + fill + avail + copy + used == Range(n)
  {
    WindowSplits(ids, lo, mid, |ids|);
    WindowSplits(ids, mid, taken, |ids|);
    BitmapBooks(n, ids, lo, tx, fill);
    hide Window, Range;
    Partition(Range(n), tx.inflight, fill, Window(ids, lo, |ids|), Window(ids, mid, |ids|),
              Window(ids, lo, mid), Window(ids, mid, taken), Window(ids, taken, |ids|));
  }

  /** Each descriptor is in exactly one place. */
  lemma OnePlace(c: Config, s: State)
    requires Inv(c, s)
    ensures var p := PlacesOf(c, s);
      && p.free !! p.filling !! p.avail !! p.copying !! p.used
      && p.free + p.filling + p.avail + p.copying + p.used == Range(c.n)
  {
    hide Shaped, AvailWindow, UsedWindow, Payload, TxOk, RxOk, Fifo, Wrap, Slot, Dist, Bitmap, Window, Range;
    HoldingIsInside(c, s);
    WindowsPartition(c.n, s.h.ids, s.h.reclaimed, s.h.returned, TakenUpTo(s), s.tx, Filling(s));
  }

  /** In every reachable state each descriptor is in exactly one place. */
  lemma ReachableOnePlace(c: Config, acts: seq<Action>)
    requires ValidConfig(c) && Divides(c)
    ensures Inv(c, Exec(c, Init(c), acts))
    ensures var p := PlacesOf(c, Exec(c, Init(c), acts));
      && p.free !! p.filling !! p.avail !! p.copying !! p.used
      && p.free + p.filling + p.avail + p.copying + p.used == Range(c.n)
  {
    ReachableInv(c, acts);
    hide Inv;
    OnePlace(c, Exec(c, Init(c), acts));
  }

  lemma WritesAreTheSenders(c: Config, s: State, a: Action, s': State, id: nat)
    requires Shaped(c, s) && s' == Next(c, s, a) && Shaped(c, s') && id < c.n
    requires s'.sh.data[id] != s.sh.data[id] || s'.sh.len[id] != s.sh.len[id]
    ensures Filling(s) == {id}
  {
    hide Wrap, SlotOf, FirstZero;
    assert a.TxTick?;
  }

  /** A step that changes a data slot or a length works on a descriptor that no message occupies. */
  lemma WritesOnlyWhatItFills(c: Config, s: State, a: Action, s': State, id: nat)
    requires Inv(c, s) && s' == Next(c, s, a) && Shaped(c, s') && id < c.n
    requires s'.sh.data[id] != s.sh.data[id] || s'.sh.len[id] != s.sh.len[id]
    ensures PlacesOf(c, s).filling == {id}
    ensures id !in PlacesOf(c, s).avail && id !in PlacesOf(c, s).copying
  {
    WritesAreTheSenders(c, s, a, s', id);
    OnePlace(c, s);
    hide Inv, Next, Shaped, Window, Range;
  }

  // Refinement of a FIFO.

  datatype Queue = Queue(waiting: seq<Msg>, out: seq<Msg>)

  datatype Label = Silent | Enqueue(m: Msg) | Dequeue(m: Msg) | Drop(m: Msg)

  /** A FIFO that may lose its head instead of handing it over. */
  predicate QueueStep(q: Queue, l: Label, q': Queue) {
    match l
    case Silent => q' == q
    case Enqueue(m) => q' == Queue(q.waiting + [m], q.out)
    case Dequeue(m) => q.waiting != [] && m == q.waiting[0] && q' == Queue(q.waiting[1..], q.out + [m])
    case Drop(m) => q.waiting != [] && m == q.waiting[0] && q' == Queue(q.waiting[1..], q.out)
  }

  function Abs(s: State): (q: Queue)
    requires |s.h.kept| <= |s.h.accepted|
  {
    Queue(s.h.accepted[|s.h.kept|..], s.h.delivered)
  }

  /** The FIFO operation a step performs: publishing enqueues, the receive path dequeues. */
  function LabelOf(c: Config, s: State, a: Action): (l: Label) {
    if a.TxTick? && s.tx.pc.TxPublish? then Enqueue(s.tx.pc.msg)
    else if a.RxTick? && s.rx.pc.RxCopy? && |s.rx.pc.buf| >= s.rx.pc.len then Dequeue(s.rx.pc.buf)
    else if a.RxTick? && s.rx.pc.RxAlloc? && !a.alloc && |s.h.kept| < |s.h.accepted| then
      Drop(s.h.accepted[|s.h.kept|])
    else Silent
  }

  lemma TxRefinesFifo(c: Config, s: State)
    requires Inv(c, s)
    ensures |TxNext(c, s).h.kept| <= |TxNext(c, s).h.accepted|
    ensures QueueStep(Abs(s), LabelOf(c, s, TxTick), Abs(TxNext(c, s)))
  {
    hide Bitmap, AvailWindow, UsedWindow, Payload, Wrap, SlotOf, Fifo, Dist, Window, FirstZero, TxOk, RxOk;
    if s.tx.pc.TxPublish? {
      assert TxNext(c, s).h.accepted[|s.h.kept|..] == s.h.accepted[|s.h.kept|..] + [s.tx.pc.msg];
    }
  }

  lemma RxTakeRefinesFifo(c: Config, s: State, alloc: bool)
    requires Inv(c, s) && (s.rx.pc.RxCopy? || s.rx.pc.RxAlloc?)
    ensures |RxNext(c, s, alloc).h.kept| <= |RxNext(c, s, alloc).h.accepted|
    ensures QueueStep(Abs(s), LabelOf(c, s, RxTick(alloc)), Abs(RxNext(c, s, alloc)))
  {
    hide Bitmap, AvailWindow, UsedWindow, Payload, Wrap, SlotOf, Fifo, Dist, Window, TxOk, Kept;
    var k, acc := |s.h.kept|, s.h.accepted;
    assert k == s.h.returned < |acc|;
    assert acc[k..][1..] == acc[k + 1..];
    assert acc[k][..|acc[k]|] == acc[k];
  }

  /** The receiver holds the descriptor of the oldest message not yet returned, with that message's length in place. */
  lemma ReceiverHoldsOldest(c: Config, s: State)
    requires Inv(c, s) && s.rx.pc.RxLen?
    ensures s.h.returned < |s.h.ids| == |s.h.accepted| && s.rx.pc.id == s.h.ids[s.h.returned] < c.n
    ensures s.sh.len[s.rx.pc.id] == |s.h.accepted[s.h.returned]| <= c.msgSize
  {
    hide Bitmap, AvailWindow, UsedWindow, Wrap, SlotOf, Fifo, Dist, Window, TxOk;
    assert Holds(c, s.sh, s.h.ids[s.h.returned], s.h.accepted[s.h.returned]);
  }

  lemma RxSilent(c: Config, s: State, alloc: bool)
    requires Shaped(c, s) && !s.rx.pc.RxCopy? && !s.rx.pc.RxAlloc?
    requires s.rx.pc.RxLen? ==> s.rx.pc.id < c.n
    ensures var h := RxNext(c, s, alloc).h;
      h.kept == s.h.kept && h.accepted == s.h.accepted && h.delivered == s.h.delivered
  {
    hide Wrap, SlotOf;
  }

  lemma RxRefinesFifo(c: Config, s: State, alloc: bool)
    requires Inv(c, s)
    ensures |RxNext(c, s, alloc).h.kept| <= |RxNext(c, s, alloc).h.accepted|
    ensures QueueStep(Abs(s), LabelOf(c, s, RxTick(alloc)), Abs(RxNext(c, s, alloc)))
  {
    if s.rx.pc.RxLen? { ReceiverHoldsOldest(c, s); }
    if s.rx.pc.RxCopy? || s.rx.pc.RxAlloc? {
      RxTakeRefinesFifo(c, s, alloc);
    } else {
      RxSilent(c, s, alloc);
      hide Shaped, Bitmap, AvailWindow, UsedWindow, Payload, Wrap, SlotOf, Fifo, TxOk, RxOk, RxNext;
    }
  }

  /** Every step of the queue is a step of the FIFO; in particular what is dequeued is its head, byte for byte. */
  lemma RefinesFifo(c: Config, s: State, a: Action)
    requires Inv(c, s)
    ensures |Next(c, s, a).h.kept| <= |Next(c, s, a).h.accepted|
    ensures QueueStep(Abs(s), LabelOf(c, s, a), Abs(Next(c, s, a)))
  {
    hide Bitmap, AvailWindow, UsedWindow, Payload, Wrap, SlotOf, Fifo, Dist, Window, FirstZero, Holds;
    if a.TxTick? {
      TxRefinesFifo(c, s);
    } else if a.RxTick? {
      RxRefinesFifo(c, s, a.alloc);
    }
  }

  /** Every step of every run is a step of the FIFO. */
  lemma RunsRefineFifo(c: Config, acts: seq<Action>, a: Action)
    requires ValidConfig(c) && Divides(c)
    ensures Inv(c, Exec(c, Init(c), acts))
    ensures var s := Exec(c, Init(c), acts);
      && |s.h.kept| <= |s.h.accepted| && |Next(c, s, a).h.kept| <= |Next(c, s, a).h.accepted|
      && QueueStep(Abs(s), LabelOf(c, s, a), Abs(Next(c, s, a)))
  {
    ReachableInv(c, acts);
    hide Bitmap, AvailWindow, UsedWindow, Payload, TxOk, RxOk, Counters, Exec, Next, QueueStep, LabelOf, Shaped;
    RefinesFifo(c, Exec(c, Init(c), acts), a);
  }

  /**
   In every run a data slot or length changes only while its descriptor is being filled, so no
   message on its way is touched.
  */
  lemma NeverOverwritten(c: Config, acts: seq<Action>, a: Action, id: nat)
    requires ValidConfig(c) && Divides(c) && id < c.n
    ensures Inv(c, Exec(c, Init(c), acts))
    ensures var s := Exec(c, Init(c), acts);
      Shaped(c, Next(c, s, a)) &&
      var p, sh, sh' := PlacesOf(c, s), s.sh, Next(c, s, a).sh;
      id in p.avail || id in p.copying ==> sh'.data[id] == sh.data[id] && sh'.len[id] == sh.len[id]
  {
    ReachableInv(c, acts);
    var s := Exec(c, Init(c), acts);
    ShapedNext(c, s, a);
    var s' := Next(c, s, a);
    if s'.sh.data[id] != s.sh.data[id] || s'.sh.len[id] != s.sh.len[id] {
      hide Inv, Next, Exec;
      WritesOnlyWhatItFills(c, s, a, s', id);
    }
  }

  /** Over whole runs: what was handed over is what was accepted, in order, once each, less the failed allocations. */
  lemma DeliversInOrder(c: Config, acts: seq<Action>)
    requires ValidConfig(c) && Divides(c)
    ensures var h := Exec(c, Init(c), acts).h;
      |h.kept| <= |h.accepted| && h.delivered == Kept(h.accepted, h.kept)
  {
    ReachableInv(c, acts);
  }

  // The sender's bookkeeping.

  /**
   -EAGAIN is returned exactly when all desc_num descriptors are in flight and none of them was
   returned before the sender looked.
  */
  lemma AgainMeansFull(c: Config, s: State)
    requires Inv(c, s) && s.tx.pc.TxReclaim? && s.tx.lastUsed == s.tx.pc.used
    ensures var s' := TxNext(c, s);
      && (s'.tx.pc.TxIdle? <==> s.tx.inflight == Range(c.n))
      && (s'.tx.pc.TxIdle? <==> |s.h.ids| - s.h.reclaimed == c.n)
      && (s'.tx.pc.TxIdle? ==> s'.h.results == s.h.results + [AgainNoFree])
      && (!s'.tx.pc.TxIdle? ==>
            s'.tx.pc.id !in s.tx.inflight && forall x: nat :: x < s'.tx.pc.id ==> x in s.tx.inflight)
  {
    BitmapBooks(c.n, s.h.ids, s.h.reclaimed, s.tx, {});
    FreeMeansZeroBit(c.n, s.tx);
    hide Shaped, Books, AvailWindow, UsedWindow, Payload, RxOk, Wrap, Slot, Fifo, Dist, Window;
  }

  /**
   Each round of the reclaim loop frees the oldest returned descriptor and brings the index one
   closer to the value read.
  */
  lemma ReclaimProgress(c: Config, s: State)
    requires Shaped(c, s) && Inv(c, s) && s.tx.pc.TxReclaim? && s.tx.lastUsed != s.tx.pc.used
    ensures var s' := TxNext(c, s);
      && s'.tx.pc == s.tx.pc
      && Dist(s'.tx.lastUsed, s'.tx.pc.used) == Dist(s.tx.lastUsed, s.tx.pc.used) - 1
      && s'.tx.inflight == s.tx.inflight - {s.h.ids[s.h.reclaimed]}
      && s'.tx.freeCnt == s.tx.freeCnt + 1
  {
    hide Inv, Wrap, SlotOf, Dist, FirstZero;
    ReclaimSeesInflight(c, s);
    DistStep(s.tx.lastUsed, s.tx.pc.used);
  }
}
