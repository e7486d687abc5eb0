/**
 One side running alone: a whole mkring_tx_enqueue call and a whole mkring_process_rx_queue call,
 each as the iteration of its own steps.  Both finish, and their effect on the queue is exact.
*/
module RingSolo {
  import opened Basics
  import opened RingQueue
  import opened RingInvariant
  import opened RingTheorems

  // The sender.

  function TxRank(pc: TxPc): (r: nat) {
    match pc
    case TxIdle => 0
    case TxPublish(_, _, _) => 1
    case TxSlot(_, _, _) => 2
    case TxReadAvail(_, _) => 3
    case TxCopy(_, _, _) => 4
    case TxReclaim(_, _) => 5
    case TxReadUsed(_) => 6
  }

  function TxLeft(s: State): (r: nat) {
    match s.tx.pc
    case TxReclaim(_, used) => Dist(s.tx.lastUsed, used)
    case TxCopy(m, _, k) => if k <= |m| then |m| - k else 0
    case _ => 0
  }

  /**
   Every step of a running sender leads closer to the end of its call; the loops are bounded by the
   mod-2^16 distance and the length.
  */
  lemma TxProgress(c: Config, s: State)
    requires Shaped(c, s) && !s.tx.pc.TxIdle?
    ensures var s' := TxNext(c, s);
      TxRank(s'.tx.pc) < TxRank(s.tx.pc) || (TxRank(s'.tx.pc) == TxRank(s.tx.pc) && TxLeft(s') < TxLeft(s))
  {
    if s.tx.pc.TxReclaim? && s.tx.lastUsed != s.tx.pc.used {
      DistStep(s.tx.lastUsed, s.tx.pc.used);
    }
    hide Dist, Wrap, SlotOf, FirstZero;
  }

  /** The sender alone, up to the point where it is about to write the avail ring (or has given up). */
  function TxToSlot(c: Config, s: State): (r: State)
    requires Shaped(c, s) && !s.tx.pc.TxPublish?
    ensures Shaped(c, r)
    ensures r.tx.pc.TxIdle? || r.tx.pc.TxSlot?
    decreases TxRank(s.tx.pc), TxLeft(s)
  {
    if s.tx.pc.TxIdle? || s.tx.pc.TxSlot? then s
    else
      ShapedNext(c, s, TxTick);
      TxProgress(c, s);
      TxToSlot(c, TxNext(c, s))
  }

  lemma ToSlotStep(c: Config, s: State)
    requires Shaped(c, s) && !s.tx.pc.TxPublish? && !s.tx.pc.TxIdle? && !s.tx.pc.TxSlot?
    ensures var s' := TxNext(c, s);
      Shaped(c, s') && !s'.tx.pc.TxPublish? && TxToSlot(c, s) == TxToSlot(c, s')
  {
    ShapedNext(c, s, TxTick);
    TxProgress(c, s);
    assert !TxNext(c, s).tx.pc.TxPublish?;
    hide Shaped, TxNext, TxLeft, TxRank;
  }

  lemma ToSlotDone(c: Config, s: State)
    requires Shaped(c, s) && (s.tx.pc.TxIdle? || s.tx.pc.TxSlot?)
    ensures TxToSlot(c, s) == s
  {
  }

  /** A whole mkring_tx_enqueue(m) call. */
  function TxCall(c: Config, s: State, m: Msg): (r: State)
    requires Shaped(c, s) && s.tx.pc.TxIdle? && |m| <= c.msgSize
  {
    ShapedNext(c, s, Send(m));
    var t := TxToSlot(c, Next(c, s, Send(m)));
    if t.tx.pc.TxIdle? then t
    else
      ShapedNext(c, t, TxTick);
      TxNext(c, TxNext(c, t))
  }

  lemma {:induction false} TxToSlotIsRun(c: Config, s: State) returns (acts: seq<Action>)
    requires Shaped(c, s) && !s.tx.pc.TxPublish?
    ensures Exec(c, s, acts) == TxToSlot(c, s)
    ensures forall a :: a in acts ==> a.TxTick?
    decreases TxRank(s.tx.pc), TxLeft(s)
  {
    if s.tx.pc.TxIdle? || s.tx.pc.TxSlot? {
      acts := [];
    } else {
      ShapedNext(c, s, TxTick);
      assert !TxNext(c, s).tx.pc.TxPublish?;
      hide Shaped, TxNext, TxLeft, TxRank;
      TxProgress(c, s);
      var rest := TxToSlotIsRun(c, TxNext(c, s));
      acts := [TxTick] + rest;
      assert acts[0] == TxTick && acts[1..] == rest;
    }
  }

  lemma {:induction false} ExecThen(c: Config, s: State, acts: seq<Action>, a: Action)
    requires Shaped(c, s)
    ensures Exec(c, s, acts + [a]) == Next(c, Exec(c, s, acts), a)
    decreases |acts|
  {
    hide Shaped, Next;
    if acts == [] {
      ShapedNext(c, s, a);
    } else {
      ShapedNext(c, s, acts[0]);
      ExecThen(c, Next(c, s, acts[0]), acts[1..], a);
      assert (acts + [a])[0] == acts[0] && (acts + [a])[1..] == acts[1..] + [a];
    }
  }

  /** A whole send is a run of the sender's own steps. */
  lemma TxCallIsRun(c: Config, s: State, m: Msg) returns (acts: seq<Action>)
    requires Shaped(c, s) && s.tx.pc.TxIdle? && |m| <= c.msgSize
    ensures Shaped(c, Next(c, s, Send(m))) && Exec(c, Next(c, s, Send(m)), acts) == TxCall(c, s, m)
    ensures forall a :: a in acts ==> a.TxTick?
  {
    var s0 := Next(c, s, Send(m));
    ShapedNext(c, s, Send(m));
    assert !s0.tx.pc.TxPublish?;
    hide Shaped, TxNext;
    acts := TxToSlotIsRun(c, s0);
    var t := TxToSlot(c, s0);
    if !t.tx.pc.TxIdle? {
      ShapedNext(c, t, TxTick);
      ExecThen(c, s0, acts, TxTick);
      ExecThen(c, s0, acts + [TxTick], TxTick);
      acts := acts + [TxTick] + [TxTick];
    }
  }

  /** How far the reclaim loop of this call will get. */
  function ReclaimTarget(s: State): (r: nat) {
    match s.tx.pc
    case TxReadUsed(_) => s.h.returned
    case TxReclaim(_, used) => s.h.reclaimed + Dist(s.tx.lastUsed, used)
    case _ => s.h.reclaimed
  }

  predicate SameForReceiver(s: State, s': State) {
    && s'.rx == s.rx
    && s'.sh.availIdx == s.sh.availIdx && s'.sh.usedIdx == s.sh.usedIdx
    && s'.h.accepted == s.h.accepted && s'.h.ids == s.h.ids && s'.h.kept == s.h.kept
    && s'.h.delivered == s.h.delivered && s'.h.returned == s.h.returned
  }

  /** The message fits when a descriptor is already claimed or one will be free after reclaiming. */
  predicate WillFit(c: Config, s: State) {
    Filling(s) != {} || |s.h.ids| < ReclaimTarget(s) + c.n
  }

  /** What one step of a send does to the outcome of the whole call. */
  predicate StepOutcome(c: Config, s: State, s': State)
    requires !s.tx.pc.TxIdle?
  {
    && SameForReceiver(s, s')
    && (s'.tx.pc.TxIdle? ==> !WillFit(c, s) && s'.h.results == s.h.results + [AgainNoFree])
    && (!s'.tx.pc.TxIdle? ==>
          s'.tx.pc.msg == s.tx.pc.msg && WillFit(c, s') == WillFit(c, s) && s'.h.results == s.h.results)
  }

  lemma TxLookOutcome(c: Config, s: State)
    requires Shaped(c, s) && Inv(c, s) && s.tx.pc.TxReadUsed?
    ensures StepOutcome(c, s, TxNext(c, s))
  {
    hide Wrap, Dist, SlotOf, FirstZero, Bitmap, AvailWindow, UsedWindow, Payload, RxOk, Fifo;
    DistOfCounts(s.h.reclaimed, s.h.returned);
  }

  lemma TxReclaimOutcome(c: Config, s: State)
    requires Shaped(c, s) && Inv(c, s) && s.tx.pc.TxReclaim? && s.tx.lastUsed != s.tx.pc.used
    ensures StepOutcome(c, s, TxNext(c, s))
  {
    hide Wrap, Dist, SlotOf, FirstZero, Bitmap, AvailWindow, UsedWindow, Payload, RxOk, Fifo, Inv;
    ReclaimProgress(c, s);
  }

  lemma BitmapBound(c: Config, s: State)
    requires Shaped(c, s) && Inv(c, s)
    ensures s.h.reclaimed <= |s.h.ids| <= s.h.reclaimed + c.n
  {
    hide Shaped, Wrap, SlotOf, FirstZero, Bitmap, AvailWindow, UsedWindow, Payload, RxOk, TxOk, Fifo;
  }

  lemma TxClaimOutcome(c: Config, s: State)
    requires Shaped(c, s) && Inv(c, s) && s.tx.pc.TxReclaim? && s.tx.lastUsed == s.tx.pc.used
    ensures StepOutcome(c, s, TxNext(c, s))
  {
    hide Wrap, SlotOf, FirstZero, Bitmap, AvailWindow, UsedWindow, Payload, RxOk, TxOk, Fifo;
    AgainMeansFull(c, s);
    BitmapBound(c, s);
  }

  lemma TxStepOutcome(c: Config, s: State)
    requires Shaped(c, s) && Inv(c, s) && !s.tx.pc.TxIdle? && !s.tx.pc.TxSlot? && !s.tx.pc.TxPublish?
    ensures StepOutcome(c, s, TxNext(c, s))
  {
    hide Inv, Dist, Wrap, SlotOf, FirstZero;
    if s.tx.pc.TxReadUsed? {
      TxLookOutcome(c, s);
    } else if s.tx.pc.TxReclaim? {
      if s.tx.lastUsed == s.tx.pc.used { TxClaimOutcome(c, s); } else { TxReclaimOutcome(c, s); }
    }
  }

  predicate CallOutcome(c: Config, s: State, r: State)
    requires !s.tx.pc.TxIdle?
  {
    && SameForReceiver(s, r)
    && (if WillFit(c, s)
        then r.tx.pc.TxSlot? && r.tx.pc.msg == s.tx.pc.msg && r.h.results == s.h.results
        else r.tx.pc.TxIdle? && r.h.results == s.h.results + [AgainNoFree])
  }

  lemma {:induction false} TxToSlotEffect(c: Config, s: State)
    requires Shaped(c, s) && Inv(c, s) && !s.tx.pc.TxIdle? && !s.tx.pc.TxPublish?
    ensures Inv(c, TxToSlot(c, s)) && CallOutcome(c, s, TxToSlot(c, s))
    decreases TxRank(s.tx.pc), TxLeft(s)
  {
    hide Inv, Dist, Wrap, FirstZero, SlotOf;
    if !s.tx.pc.TxSlot? {
      var s' := TxNext(c, s);
      ShapedNext(c, s, TxTick);
      assert !s'.tx.pc.TxPublish?;
      hide TxNext, TxLeft, TxRank, WillFit, Shaped;
      TxKeeps(c, s);
      TxStepOutcome(c, s);
      TxProgress(c, s);
      if !s'.tx.pc.TxIdle? {
        TxToSlotEffect(c, s');
      }
    }
  }

  /** The two steps that put a claimed and filled descriptor into the queue. */
  lemma TxTwoSteps(c: Config, t: State)
    requires Shaped(c, t) && t.tx.pc.TxSlot?
    ensures Shaped(c, TxNext(c, t)) && TxNext(c, t).tx.pc.TxPublish?
    ensures var r := TxNext(c, TxNext(c, t));
      && r.tx.pc.TxIdle? && r.rx == t.rx
      && r.h == t.h.(accepted := t.h.accepted + [t.tx.pc.msg], ids := t.h.ids + [t.tx.pc.id],
                     results := t.h.results + [Accepted])
  {
    ShapedNext(c, t, TxTick);
    hide Wrap, SlotOf;
  }

  lemma TxPublishes(c: Config, t: State)
    requires Shaped(c, t) && Inv(c, t) && t.tx.pc.TxSlot?
    requires Divides(c) || |t.h.ids| < IDX
    ensures Shaped(c, TxNext(c, t)) && Inv(c, TxNext(c, TxNext(c, t)))
  {
    hide Inv, Divides, TxNext, Shaped;
    TxTwoSteps(c, t);
    TxKeeps(c, t);
    TxKeeps(c, TxNext(c, t));
  }

  /**
   A whole send: -EAGAIN exactly when desc_num messages are not yet returned, otherwise the message
   joins the queue.
  */
  lemma TxCallEffect(c: Config, s: State, m: Msg)
    requires Shaped(c, s) && Inv(c, s) && s.tx.pc.TxIdle? && |m| <= c.msgSize
    requires Divides(c) || |s.h.ids| < IDX
    ensures var r := TxCall(c, s, m);
      && Inv(c, r) && r.tx.pc.TxIdle? && r.rx == s.rx
      && r.h.kept == s.h.kept && r.h.delivered == s.h.delivered && r.h.returned == s.h.returned
      && (if |s.h.ids| < s.h.returned + c.n
          then r.h.accepted == s.h.accepted + [m] && r.h.results == s.h.results + [Accepted]
          else r.h.accepted == s.h.accepted && r.h.results == s.h.results + [AgainNoFree])
  {
    var s0 := Next(c, s, Send(m));
    ShapedNext(c, s, Send(m));
    assert WillFit(c, s0) <==> |s.h.ids| < s.h.returned + c.n;
    hide Inv, Divides, TxNext, WillFit, Shaped;
    EnterKeeps(c, s, Send(m));
    TxToSlotEffect(c, s0);
    var t := TxToSlot(c, s0);
    if t.tx.pc.TxSlot? {
      TxTwoSteps(c, t);
      TxPublishes(c, t);
    }
  }

  // The receiver.

  /** Nobody publishes meanwhile, so what the receiver read as the avail index still is. */
  predicate RxAlone(s: State) {
    && (s.rx.pc.RxLoop? ==> s.rx.pc.avail == s.sh.availIdx)
    && (Holding(s) ==> s.rx.lastAvail != s.sh.availIdx)
  }

  function RxRank(pc: RxPc): (r: nat) {
    match pc
    case RxIdle => 0
    case RxPublish(_, _, _) => 1
    case RxElem(_, _, _) => 2
    case RxReadUsed(_, _) => 3
    case RxCopy(_, _, _) => 4
    case RxAlloc(_, _) => 5
    case RxLen(_) => 6
    case RxLoop(_) => 7
    case RxReadAvail => 8
  }

  function RxLeft(s: State): (r: nat) {
    if s.rx.pc.RxCopy? && |s.rx.pc.buf| <= s.rx.pc.len then s.rx.pc.len - |s.rx.pc.buf| else 0
  }

  function RxMessagesLeft(s: State): (r: nat) {
    Dist(s.rx.lastAvail, s.sh.availIdx)
  }

  lemma RxProgress(c: Config, s: State, alloc: bool)
    requires Shaped(c, s) && RxAlone(s) && !s.rx.pc.RxIdle?
    ensures var s' := RxNext(c, s, alloc);
      && Shaped(c, s') && RxAlone(s')
      && (|| RxMessagesLeft(s') < RxMessagesLeft(s)
          || (RxMessagesLeft(s') == RxMessagesLeft(s) && RxRank(s'.rx.pc) < RxRank(s.rx.pc))
          || (RxMessagesLeft(s') == RxMessagesLeft(s) && RxRank(s'.rx.pc) == RxRank(s.rx.pc) && RxLeft(s') < RxLeft(s)))
  {
    ShapedNext(c, s, RxTick(alloc));
    if s.rx.pc.RxPublish? {
      DistStep(s.rx.lastAvail, s.sh.availIdx);
    }
    hide Dist, Wrap, SlotOf;
  }

  /** The receiver alone, until it has nothing left; `alloc(i)` says whether the buffer for message `i` can be had. */
  function RxDrain(c: Config, s: State, alloc: nat -> bool): (r: State)
    requires Shaped(c, s) && RxAlone(s)
    decreases RxMessagesLeft(s), RxRank(s.rx.pc), RxLeft(s)
  {
    if s.rx.pc.RxIdle? then s
    else
      RxProgress(c, s, alloc(|s.h.kept|));
      RxDrain(c, RxNext(c, s, alloc(|s.h.kept|)), alloc)
  }

  lemma DrainStep(c: Config, s: State, alloc: nat -> bool)
    requires Shaped(c, s) && RxAlone(s) && !s.rx.pc.RxIdle?
    ensures var s' := RxNext(c, s, alloc(|s.h.kept|));
      Shaped(c, s') && RxAlone(s') && RxDrain(c, s, alloc) == RxDrain(c, s', alloc)
  {
    ShapedNext(c, s, RxTick(alloc(|s.h.kept|)));
    RxProgress(c, s, alloc(|s.h.kept|));
    hide Shaped, RxNext, RxLeft, RxRank, RxMessagesLeft, RxAlone;
  }

  lemma {:induction false} DrainEndsIdle(c: Config, s: State, alloc: nat -> bool)
    requires Shaped(c, s) && RxAlone(s)
    ensures Shaped(c, RxDrain(c, s, alloc)) && RxDrain(c, s, alloc).rx.pc.RxIdle?
    decreases RxMessagesLeft(s), RxRank(s.rx.pc), RxLeft(s)
  {
    if !s.rx.pc.RxIdle? {
      DrainStep(c, s, alloc);
      RxProgress(c, s, alloc(|s.h.kept|));
      hide Shaped, RxNext, RxLeft, RxRank, RxMessagesLeft, RxAlone, RxDrain;
      DrainEndsIdle(c, RxNext(c, s, alloc(|s.h.kept|)), alloc);
    }
  }

  /** The state after a held descriptor has been put into the used ring and the avail index read again. */
  function AfterReturn(c: Config, s: State): State
    requires Shaped(c, s) && s.rx.pc.RxReadUsed?
  {
    s.(sh := s.sh.(usedRing := s.sh.usedRing[SlotOf(c, s.sh.usedIdx) := UsedElem(s.rx.pc.id, s.rx.pc.len)],
                   usedIdx := Wrap(s.sh.usedIdx + 1)),
       rx := Rx(RxLoop(s.sh.availIdx), Wrap(s.rx.lastAvail + 1)),
       h := s.h.(returned := s.h.returned + 1))
  }

  lemma DrainReturn(c: Config, s: State, alloc: nat -> bool)
    requires Shaped(c, s) && RxAlone(s) && s.rx.pc.RxReadUsed?
    ensures var r := AfterReturn(c, s); Shaped(c, r) && RxAlone(r) && RxDrain(c, s, alloc) == RxDrain(c, r, alloc)
  {
    hide Wrap, SlotOf, Dist, RxDrain;
    var ok := alloc(|s.h.kept|);
    DrainStep(c, s, alloc);
    var s1 := RxNext(c, s, ok);
    DrainStep(c, s1, alloc);
    var s2 := RxNext(c, s1, ok);
    DrainStep(c, s2, alloc);
    var s3 := RxNext(c, s2, ok);
    DrainStep(c, s3, alloc);
    assert RxNext(c, s3, ok) == AfterReturn(c, s);
  }

  lemma DrainIdle(c: Config, s: State, alloc: nat -> bool)
    requires Shaped(c, s) && s.rx.pc.RxIdle?
    ensures RxDrain(c, s, alloc) == s
  {
  }

  /** A whole mkring_process_rx_queue call. */
  function RxCall(c: Config, s: State, alloc: nat -> bool): (r: State)
    requires Shaped(c, s) && s.rx.pc.RxIdle?
  {
    ShapedNext(c, s, RxStart);
    RxDrain(c, Next(c, s, RxStart), alloc)
  }

  lemma {:induction false} RxDrainIsRun(c: Config, s: State, alloc: nat -> bool) returns (acts: seq<Action>)
    requires Shaped(c, s) && RxAlone(s)
    ensures Exec(c, s, acts) == RxDrain(c, s, alloc)
    ensures forall a :: a in acts ==> a.RxTick?
    decreases RxMessagesLeft(s), RxRank(s.rx.pc), RxLeft(s)
  {
    hide Shaped, RxNext, RxLeft, RxRank, RxMessagesLeft, RxAlone;
    if s.rx.pc.RxIdle? {
      acts := [];
    } else {
      var a := alloc(|s.h.kept|);
      ShapedNext(c, s, RxTick(a));
      RxProgress(c, s, a);
      var rest := RxDrainIsRun(c, RxNext(c, s, a), alloc);
      acts := [RxTick(a)] + rest;
      assert acts[0] == RxTick(a) && acts[1..] == rest;
    }
  }

  predicate SameForSender(s: State, s': State) {
    && s'.tx == s.tx && s'.sh.availIdx == s.sh.availIdx
    && s'.h.accepted == s.h.accepted && s'.h.ids == s.h.ids
    && s'.h.reclaimed == s.h.reclaimed && s'.h.results == s.h.results
  }

  /** The flags added between two states are the allocator's answers. */
  ghost predicate KeptGrows(s: State, s': State, alloc: nat -> bool) {
    && |s.h.kept| <= |s'.h.kept| && s'.h.kept[..|s.h.kept|] == s.h.kept
    && forall i :: |s.h.kept| <= i < |s'.h.kept| ==>
         s'.h.kept[i] == (alloc(i) || (i == |s.h.kept| && s.rx.pc.RxCopy?))
  }

  lemma RxStepEffect(c: Config, s: State, alloc: nat -> bool)
    requires Shaped(c, s) && !s.rx.pc.RxIdle? && (s.rx.pc.RxLen? ==> s.rx.pc.id < c.n)
    ensures var s' := RxNext(c, s, alloc(|s.h.kept|));
      && SameForSender(s, s') && KeptGrows(s, s', alloc)
      && (s.rx.pc.RxCopy? ==> s'.rx.pc.RxCopy? || s'.h.kept == s.h.kept + [true])
      && (s'.rx.pc.RxCopy? ==> s'.h.kept == s.h.kept && (s.rx.pc.RxCopy? || alloc(|s.h.kept|)))
  {
    hide Wrap, SlotOf, Dist;
  }

  lemma RxIdleMeansEmpty(c: Config, s: State)
    requires Inv(c, s) && s.rx.pc.RxLoop? && RxAlone(s) && s.rx.lastAvail == s.rx.pc.avail
    ensures s.h.returned == |s.h.ids|
  {
    DistOfCounts(s.h.returned, |s.h.ids|);
    hide Shaped, Wrap, SlotOf, Bitmap, AvailWindow, UsedWindow, Payload, TxOk, RxOk, Fifo;
  }

  lemma HoldingBelow(c: Config, s: State)
    requires Inv(c, s) && Holding(s)
    ensures s.h.returned < |s.h.ids|
  {
    hide Shaped, Wrap, SlotOf, Bitmap, AvailWindow, UsedWindow, Payload, TxOk, Fifo, Dist;
  }

  lemma KeptGrowsOn(s: State, s': State, r: State, alloc: nat -> bool)
    requires KeptGrows(s, s', alloc) && KeptGrows(s', r, alloc)
    requires s'.rx.pc.RxCopy? ==> s'.h.kept == s.h.kept && (s.rx.pc.RxCopy? || alloc(|s.h.kept|))
    requires s.rx.pc.RxCopy? ==> s'.rx.pc.RxCopy? || s'.h.kept == s.h.kept + [true]
    ensures KeptGrows(s, r, alloc)
  {
    var k, k' := |s.h.kept|, |s'.h.kept|;
    assert r.h.kept[..k] == r.h.kept[..k'][..k];
    forall i | k <= i < |r.h.kept|
      ensures r.h.kept[i] == (alloc(i) || (i == k && s.rx.pc.RxCopy?))
    {
      if i < k' { assert r.h.kept[i] == r.h.kept[..k'][i]; }
    }
  }

  /** The receiver alone takes every message that is in the queue and returns every descriptor. */
  lemma {:induction false} RxDrainEffect(c: Config, s: State, alloc: nat -> bool)
    requires Shaped(c, s) && Inv(c, s) && RxAlone(s) && !s.rx.pc.RxIdle?
    requires Divides(c) || |s.h.ids| <= IDX
    ensures var r := RxDrain(c, s, alloc);
      Inv(c, r) && SameForSender(s, r) && KeptGrows(s, r, alloc) && r.h.returned == |r.h.ids|
    decreases RxMessagesLeft(s), RxRank(s.rx.pc), RxLeft(s)
  {
    hide Inv, Dist, Wrap, SlotOf, Divides;
    var a := alloc(|s.h.kept|);
    var s' := RxNext(c, s, a);
    ShapedNext(c, s, RxTick(a));
    if s.rx.pc.RxLen? { ReceiverHoldsOldest(c, s); }
    RxStepEffect(c, s, alloc);
    if s'.rx.pc.RxIdle? {
      assert s.rx.pc.RxLoop? && s.rx.lastAvail == s.rx.pc.avail && s'.h.returned == s.h.returned;
    }
    hide RxNext, RxLeft, RxRank, RxMessagesLeft, RxAlone, Shaped, KeptGrows;
    if s.rx.pc.RxElem? { HoldingBelow(c, s); }
    RxKeeps(c, s, a);
    RxProgress(c, s, a);
    if s'.rx.pc.RxIdle? {
      RxIdleMeansEmpty(c, s);
    } else {
      RxDrainEffect(c, s', alloc);
      KeptGrowsOn(s, s', RxDrain(c, s', alloc), alloc);
    }
  }

  lemma StartsAlone(c: Config, s: State)
    requires Shaped(c, s) && s.rx.pc.RxIdle?
    ensures var s' := Next(c, s, RxStart);
      Shaped(c, s') && s'.h == s.h && s'.tx == s.tx && s'.sh == s.sh && RxAlone(s') && s'.rx.pc.RxReadAvail?
  {
    ShapedNext(c, s, RxStart);
    hide Shaped;
  }

  lemma DeliveredExact(c: Config, s: State)
    requires Inv(c, s) && s.rx.pc.RxIdle?
    ensures |s.h.kept| == s.h.returned <= |s.h.accepted| == |s.h.ids|
    ensures s.h.delivered == Kept(s.h.accepted, s.h.kept)
  {
    hide Shaped, Wrap, SlotOf, Bitmap, AvailWindow, UsedWindow, Payload, TxOk, RxOk, Dist;
  }

  /** A whole receive pass over an idle receiver. */
  lemma RxCallEffect(c: Config, s: State, alloc: nat -> bool)
    requires Shaped(c, s) && Inv(c, s) && s.rx.pc.RxIdle?
    requires Divides(c) || |s.h.ids| <= IDX
    ensures var r := RxCall(c, s, alloc);
      && Inv(c, r) && r.rx.pc.RxIdle? && SameForSender(s, r)
      && r.h.returned == |r.h.kept| == |r.h.ids|
      && r.h.kept[..|s.h.kept|] == s.h.kept
      && (forall i :: |s.h.kept| <= i < |r.h.kept| ==> r.h.kept[i] == alloc(i))
      && r.h.delivered == Kept(s.h.accepted, r.h.kept)
  {
    hide Inv, Shaped, Divides, RxDrain, Kept, Next, RxAlone;
    var s0 := Next(c, s, RxStart);
    StartsAlone(c, s);
    EnterKeeps(c, s, RxStart);
    RxDrainEffect(c, s0, alloc);
    DrainEndsIdle(c, s0, alloc);
    DeliveredExact(c, RxCall(c, s, alloc));
  }

  // From anywhere to an empty queue.

  /** Everything accepted has been taken out, nothing new was accepted, and no allocation failed on the way. */
  ghost predicate Emptied(s: State, r: State) {
    && r.h.accepted == s.h.accepted && r.tx == s.tx
    && |s.h.kept| <= |r.h.kept| == |r.h.accepted| && r.h.kept[..|s.h.kept|] == s.h.kept
    && forall i :: |s.h.kept| <= i < |r.h.kept| ==> r.h.kept[i]
  }

  lemma HoldingIsAlone(c: Config, s: State)
    requires Inv(c, s) && Holding(s)
    ensures RxAlone(s)
  {
    HoldingBelow(c, s);
    DistOfCounts(s.h.returned, |s.h.ids|);
    hide Shaped, SlotOf, Bitmap, AvailWindow, UsedWindow, Payload, TxOk, RxOk, Fifo, Wrap;
  }

  lemma DrainRun(c: Config, s: State) returns (acts: seq<Action>)
    requires Shaped(c, s) && Inv(c, s) && RxAlone(s) && !s.rx.pc.RxIdle?
    requires Divides(c) || |s.h.ids| <= IDX
    ensures Inv(c, Exec(c, s, acts)) && Emptied(s, Exec(c, s, acts))
    ensures forall a :: a in acts ==> a.RxTick?
  {
    hide Inv, Shaped, Divides, RxDrain, RxAlone, Exec;
    var yes := (i: nat) => true;
    acts := RxDrainIsRun(c, s, yes);
    RxDrainEffect(c, s, yes);
    DrainEndsIdle(c, s, yes);
    DeliveredExact(c, RxDrain(c, s, yes));
  }

  lemma RunCons(c: Config, s: State, a: Action, rest: seq<Action>)
    requires Shaped(c, s)
    ensures Shaped(c, Next(c, s, a)) && Exec(c, s, [a] + rest) == Exec(c, Next(c, s, a), rest)
  {
    ShapedNext(c, s, a);
    hide Shaped, Next;
    assert ([a] + rest)[1..] == rest;
  }

  lemma LooksOrStops(c: Config, s: State)
    requires Shaped(c, s) && s.rx.pc.RxLoop?
    ensures var s' := Next(c, s, RxTick(true));
      Shaped(c, s') && s'.h == s.h && s'.tx == s.tx && (s'.rx.pc.RxIdle? || Holding(s'))
  {
    ShapedNext(c, s, RxTick(true));
    hide Shaped, SlotOf;
  }

  lemma EmptiedFrom(s: State, s': State, r: State)
    requires s'.h == s.h && s'.tx == s.tx && Emptied(s', r)
    ensures Emptied(s, r)
  {
  }

  lemma LoopKeeps(c: Config, s: State)
    requires Inv(c, s) && s.rx.pc.RxLoop?
    ensures Inv(c, Next(c, s, RxTick(true)))
  {
    assert Next(c, s, RxTick(true)) == RxNext(c, s, true);
    hide Inv, Next, RxNext;
    RxKeeps(c, s, true);
  }

  lemma IdleReachesEmpty(c: Config, s: State) returns (acts: seq<Action>)
    requires Shaped(c, s) && Inv(c, s) && s.rx.pc.RxIdle?
    requires Divides(c) || |s.h.ids| <= IDX
    ensures Inv(c, Exec(c, s, acts)) && Emptied(s, Exec(c, s, acts))
    ensures forall a :: a in acts ==> a.RxStart? || a.RxTick?
  {
    hide Inv, Shaped, Divides, Exec, Next, RxAlone;
    var s0 := Next(c, s, RxStart);
    StartsAlone(c, s);
    EnterKeeps(c, s, RxStart);
    var rest := DrainRun(c, s0);
    acts := [RxStart] + rest;
    RunCons(c, s, RxStart, rest);
  }

  lemma LoopReachesEmpty(c: Config, s: State) returns (acts: seq<Action>)
    requires Shaped(c, s) && Inv(c, s) && s.rx.pc.RxLoop?
    requires Divides(c) || |s.h.ids| <= IDX
    ensures Inv(c, Exec(c, s, acts)) && Emptied(s, Exec(c, s, acts))
    ensures forall a :: a in acts ==> a.RxStart? || a.RxTick?
  {
    hide Inv, Shaped, Divides, Exec, Next, RxAlone, Emptied, Holding;
    var s1 := Next(c, s, RxTick(true));
    LooksOrStops(c, s);
    LoopKeeps(c, s);
    var rest: seq<Action>;
    if s1.rx.pc.RxIdle? {
      rest := IdleReachesEmpty(c, s1);
    } else {
      HoldingIsAlone(c, s1);
      rest := DrainRun(c, s1);
    }
    acts := [RxTick(true)] + rest;
    RunCons(c, s, RxTick(true), rest);
    EmptiedFrom(s, s1, Exec(c, s1, rest));
  }

  /**
   From every state with the invariant the receiver's own steps, with successful allocations, take
   out everything accepted.
  */
  lemma ReachesEmpty(c: Config, s: State) returns (acts: seq<Action>)
    requires Shaped(c, s) && Inv(c, s)
    requires Divides(c) || |s.h.ids| <= IDX
    ensures Inv(c, Exec(c, s, acts)) && Emptied(s, Exec(c, s, acts))
    ensures forall a :: a in acts ==> a.RxStart? || a.RxTick?
  {
    hide Inv, Shaped, Divides, Exec, Emptied;
    if s.rx.pc.RxIdle? {
      acts := IdleReachesEmpty(c, s);
    } else if s.rx.pc.RxLoop? {
      acts := LoopReachesEmpty(c, s);
    } else {
      if Holding(s) { HoldingIsAlone(c, s); }
      acts := DrainRun(c, s);
    }
  }
}
