/**
 The queue as the driver keeps it: rings, lengths and data slots are arrays written in place, and
 mkring_tx_enqueue, mkring_process_rx_queue and mkring_recv are loops over them.

 Each whole call is proved to do to the abstract state exactly what its steps do one by one, so
 everything known about the step machine holds of these loops.
*/
module RingDriver {
  import opened Basics
  import opened RingQueue
  import opened RingInvariant
  import opened RingTheorems
  import opened RingSolo

  datatype Recv = Received(m: Msg) | Truncated(prefix: Msg, len: nat) | Empty

  class Driver {
    const c: Config
    const availRing: array<nat>
    const usedRing: array<UsedElem>
    const len: array<nat>
    const data: array<seq<byte>>
    var availIdx: nat
    var usedIdx: nat
    var inflight: set<nat>
    var freeCnt: int
    var lastUsed: nat
    var lastAvail: nat
    var rxMsgs: seq<Msg>
    var rxPending: nat
    var h: History

    /** The abstract state, with the two program counters supplied by whoever is running. */
    function At(t: TxPc, r: RxPc): State
      reads this, availRing, usedRing, len, data
    {
      State(Shared(availIdx, availRing[..], usedIdx, usedRing[..], len[..], data[..]),
            Tx(t, inflight, freeCnt, lastUsed), Rx(r, lastAvail), h)
    }

    /** Arrays of equal type are distinct and everything has its configured size. */
    ghost predicate Laid(t: TxPc, r: RxPc)
      reads this, availRing, usedRing, len, data
    {
      && availRing != len
      && Shaped(c, At(t, r))
      && rxPending == |rxMsgs|
    }

    constructor (c: Config)
      requires ValidConfig(c)
      ensures this.c == c && Laid(TxIdle, RxIdle) && At(TxIdle, RxIdle) == Init(c)
      ensures Inv(c, At(TxIdle, RxIdle)) && rxMsgs == []
      ensures fresh(availRing) && fresh(usedRing) && fresh(len) && fresh(data)
    {
      this.c := c;
      availRing := new nat[c.n](i => 0);
      usedRing := new UsedElem[c.n](i => UsedElem(0, 0));
      len := new nat[c.n](i => c.msgSize);
      data := new seq<byte>[c.n](i => seq(c.msgSize, j => 0));
      availIdx, usedIdx, lastUsed, lastAvail := 0, 0, 0, 0;
      inflight, freeCnt := {}, c.n;
      rxMsgs, rxPending := [], 0;
      h := History([], [], [], [], 0, 0, []);
      new;
      assert At(TxIdle, RxIdle).sh == Init(c).sh;
      InitInv(c);
    }

    /** mkring_tx_reclaim_locked: take back what the receiver returned. */
    method Reclaim(m: Msg, ghost r: RxPc)
      requires Laid(TxReadUsed(m), r)
      modifies this`inflight, this`freeCnt, this`lastUsed, this`h
      ensures Laid(TxReclaim(m, usedIdx), r) && lastUsed == usedIdx
      ensures h == old(h).(reclaimed := h.reclaimed)
      ensures TxToSlot(c, At(TxReclaim(m, usedIdx), r)) == TxToSlot(c, old(At(TxReadUsed(m), r)))
    {
      hide FirstZero, Dist, Wrap, SlotOf, TxToSlot;
      var used := usedIdx;
      assert TxNext(c, At(TxReadUsed(m), r)) == At(TxReclaim(m, used), r);
      ToSlotStep(c, At(TxReadUsed(m), r));
      while lastUsed != used
        invariant usedIdx == used && h == old(h).(reclaimed := h.reclaimed)
        invariant Laid(TxReclaim(m, used), r)
        invariant TxToSlot(c, At(TxReclaim(m, used), r)) == TxToSlot(c, old(At(TxReadUsed(m), r)))
        decreases Dist(lastUsed, used)
      {
        ghost var before := At(TxReclaim(m, used), r);
        DistStep(lastUsed, used);
        var id := usedRing[SlotOf(c, lastUsed)].id;
        if id < c.n && id in inflight {
          inflight, freeCnt := inflight - {id}, freeCnt + 1;
        }
        lastUsed := Wrap(lastUsed + 1);
        h := h.(reclaimed := h.reclaimed + 1);
        assert TxNext(c, before) == At(TxReclaim(m, used), r);
        ToSlotStep(c, before);
      }
    }

    /** The memcpy into the claimed data slot, and the length. */
    method Fill(m: Msg, id: nat, ghost r: RxPc)
      requires Laid(TxCopy(m, id, 0), r)
      modifies len, data
      ensures Laid(TxReadAvail(m, id), r)
      ensures TxToSlot(c, At(TxReadAvail(m, id), r)) == TxToSlot(c, old(At(TxCopy(m, id, 0), r)))
    {
      hide FirstZero, Dist, Wrap, SlotOf, TxToSlot;
      for k := 0 to |m|
        invariant Laid(TxCopy(m, id, k), r)
        invariant TxToSlot(c, At(TxCopy(m, id, k), r)) == TxToSlot(c, old(At(TxCopy(m, id, 0), r)))
      {
        ghost var before := At(TxCopy(m, id, k), r);
        data[id] := data[id][k := m[k]];
        assert TxNext(c, before) == At(TxCopy(m, id, k + 1), r);
        ToSlotStep(c, before);
      }
      ghost var before := At(TxCopy(m, id, |m|), r);
      len[id] := |m|;
      assert TxNext(c, before) == At(TxReadAvail(m, id), r);
      ToSlotStep(c, before);
    }

    /** The avail slot, then the avail index. */
    method Publish(m: Msg, id: nat, ghost r: RxPc)
      requires Laid(TxSlot(m, id, availIdx), r)
      modifies this`availIdx, this`h, availRing
      ensures Laid(TxIdle, r)
      ensures var t := old(At(TxSlot(m, id, availIdx), r));
        Shaped(c, TxNext(c, t)) && At(TxIdle, r) == TxNext(c, TxNext(c, t))
    {
      hide FirstZero, Dist, Wrap, SlotOf, TxToSlot;
      var avail := availIdx;
      ghost var t := At(TxSlot(m, id, avail), r);
      availRing[SlotOf(c, avail)] := id;
      ghost var t' := At(TxPublish(m, id, avail), r);
      assert TxNext(c, t) == t';
      ShapedNext(c, t, TxTick);
      availIdx := Wrap(avail + 1);
      h := h.(accepted := h.accepted + [m], ids := h.ids + [id], results := h.results + [Accepted]);
      assert TxNext(c, t') == At(TxIdle, r);
      ShapedNext(c, t', TxTick);
    }

    method FillAndPublish(m: Msg, id: nat, ghost r: RxPc)
      requires Laid(TxCopy(m, id, 0), r)
      modifies this`availIdx, this`h, availRing, len, data
      ensures Laid(TxIdle, r) && h.results == old(h.results) + [Accepted]
      ensures var t := TxToSlot(c, old(At(TxCopy(m, id, 0), r)));
        !t.tx.pc.TxIdle? && Shaped(c, t) && Shaped(c, TxNext(c, t)) && At(TxIdle, r) == TxNext(c, TxNext(c, t))
    {
      hide FirstZero, Dist, Wrap, SlotOf, TxToSlot;
      Fill(m, id, r);
      assert TxNext(c, At(TxReadAvail(m, id), r)) == At(TxSlot(m, id, availIdx), r);
      ToSlotStep(c, At(TxReadAvail(m, id), r));
      ToSlotDone(c, At(TxSlot(m, id, availIdx), r));
      Publish(m, id, r);
    }

    /** mkring_tx_enqueue, with the receiver stopped anywhere. */
    method Enqueue(m: Msg, ghost r: RxPc) returns (res: SendResult)
      requires Laid(TxIdle, r) && |m| <= c.msgSize
      modifies this`inflight, this`freeCnt, this`lastUsed, this`availIdx, this`h, availRing, len, data
      ensures Laid(TxIdle, r)
      ensures At(TxIdle, r) == TxCall(c, old(At(TxIdle, r)), m)
      ensures h.results == old(h.results) + [res]
    {
      hide FirstZero, Dist, Wrap, SlotOf, TxToSlot;
      assert Next(c, At(TxIdle, r), Send(m)) == At(TxReadUsed(m), r);
      Reclaim(m, r);
      ghost var before := At(TxReclaim(m, usedIdx), r);
      ToSlotStep(c, before);
      if freeCnt == 0 {
        res := AgainNoFree;
        h := h.(results := h.results + [res]);
        assert TxNext(c, before) == At(TxIdle, r);
        ToSlotDone(c, At(TxIdle, r));
        return;
      }
      var id := FirstZero(inflight, c.n, 0);
      if id >= c.n {
        res := AgainNoBit;
        h := h.(results := h.results + [res]);
        assert TxNext(c, before) == At(TxIdle, r);
        ToSlotDone(c, At(TxIdle, r));
        return;
      }
      inflight, freeCnt := inflight + {id}, freeCnt - 1;
      assert TxNext(c, before) == At(TxCopy(m, id, 0), r);
      res := Accepted;
      FillAndPublish(m, id, r);
    }

    /** The local list grew by exactly what the history counts as delivered. */
    ghost predicate Handed(oldMsgs: seq<Msg>, oldDelivered: seq<Msg>)
      reads this
    {
      && oldDelivered <= h.delivered
      && rxMsgs == oldMsgs + h.delivered[|oldDelivered|..]
    }

    /** mkring_rx_enqueue_local: copy the message out of its slot and append it to the local list. */
    method TakeLocal(id: nat, n: nat, alloc: nat -> bool, ghost t: TxPc)
      requires Laid(t, RxAlloc(id, n)) && lastAvail != availIdx
      modifies this`rxMsgs, this`rxPending, this`h
      ensures Laid(t, RxReadUsed(id, n))
      ensures RxDrain(c, At(t, RxReadUsed(id, n)), alloc) == RxDrain(c, old(At(t, RxAlloc(id, n))), alloc)
      ensures Handed(old(rxMsgs), old(h.delivered))
    {
      hide Dist, Wrap, SlotOf, RxDrain;
      ghost var before := At(t, RxAlloc(id, n));
      var ok := alloc(|h.kept|);
      DrainStep(c, before, alloc);
      if !ok {
        h := h.(kept := h.kept + [false]);
        assert RxNext(c, before, ok) == At(t, RxReadUsed(id, n));
        assert h.delivered[|old(h.delivered)|..] == [];
        return;
      }
      var buf: seq<byte> := [];
      assert RxNext(c, before, ok) == At(t, RxCopy(id, n, buf));
      while |buf| < n
        invariant |buf| <= n && Laid(t, RxCopy(id, n, buf))
        invariant h == old(h) && rxMsgs == old(rxMsgs) && rxPending == old(rxPending)
        invariant RxDrain(c, At(t, RxCopy(id, n, buf)), alloc) == RxDrain(c, before, alloc)
        decreases n - |buf|
      {
        ghost var at := At(t, RxCopy(id, n, buf));
        DrainStep(c, at, alloc);
        buf := buf + [data[id][|buf|]];
        assert RxNext(c, at, ok) == At(t, RxCopy(id, n, buf));
      }
      ghost var at := At(t, RxCopy(id, n, buf));
      DrainStep(c, at, alloc);
      rxMsgs, rxPending := rxMsgs + [buf], rxPending + 1;
      h := h.(kept := h.kept + [true], delivered := h.delivered + [buf]);
      assert RxNext(c, at, ok) == At(t, RxReadUsed(id, n));
      assert h.delivered[|old(h.delivered)|..] == [buf];
    }

    /** The used element, the used index, the receive cursor. */
    method PutUsed(id: nat, n: nat, ghost t: TxPc)
      requires Laid(t, RxReadUsed(id, n))
      modifies this`usedIdx, this`lastAvail, this`h, usedRing
      ensures lastAvail == Wrap(old(lastAvail) + 1)
      ensures At(t, RxLoop(availIdx)) == AfterReturn(c, old(At(t, RxReadUsed(id, n))))
    {
      hide Wrap, SlotOf;
      var used := usedIdx;
      usedRing[SlotOf(c, used)] := UsedElem(id, n);
      usedIdx, lastAvail := Wrap(used + 1), Wrap(lastAvail + 1);
      h := h.(returned := h.returned + 1);
    }

    /** The descriptor goes back and the loop looks for the next one. */
    method ReturnDescriptor(id: nat, n: nat, alloc: nat -> bool, ghost t: TxPc)
      requires Laid(t, RxReadUsed(id, n)) && lastAvail != availIdx
      modifies this`usedIdx, this`lastAvail, this`h, usedRing
      ensures Laid(t, RxLoop(availIdx)) && h.delivered == old(h.delivered)
      ensures Dist(lastAvail, availIdx) < Dist(old(lastAvail), availIdx)
      ensures RxDrain(c, At(t, RxLoop(availIdx)), alloc) == RxDrain(c, old(At(t, RxReadUsed(id, n))), alloc)
    {
      DistStep(lastAvail, availIdx);
      ghost var s0 := At(t, RxReadUsed(id, n));
      DrainReturn(c, s0, alloc);
      assert AfterReturn(c, s0).h.delivered == s0.h.delivered;
      hide Dist, Wrap, SlotOf, RxDrain, Shaped, AfterReturn, RxAlone;
      PutUsed(id, n, t);
    }

    /** One round of the receive loop. */
    method TakeOne(alloc: nat -> bool, ghost t: TxPc)
      requires Laid(t, RxLoop(availIdx)) && lastAvail != availIdx
      modifies this`usedIdx, this`lastAvail, this`rxMsgs, this`rxPending, this`h, usedRing
      ensures Laid(t, RxLoop(availIdx))
      ensures Dist(lastAvail, availIdx) < Dist(old(lastAvail), availIdx)
      ensures RxDrain(c, At(t, RxLoop(availIdx)), alloc) == RxDrain(c, old(At(t, RxLoop(availIdx))), alloc)
      ensures Handed(old(rxMsgs), old(h.delivered))
    {
      hide Dist, Wrap, SlotOf, RxDrain;
      ghost var ok := alloc(|h.kept|);
      ghost var s1 := At(t, RxLoop(availIdx));
      var id := availRing[SlotOf(c, lastAvail)];
      ghost var s2 := At(t, RxLen(id));
      assert RxNext(c, s1, ok) == s2;
      DrainStep(c, s1, alloc);
      DrainStep(c, s2, alloc);
      var n := 0;
      if id < c.n {
        n := if len[id] > c.msgSize then c.msgSize else len[id];
        assert RxNext(c, s2, ok) == At(t, RxAlloc(id, n));
        TakeLocal(id, n, alloc, t);
      } else {
        h := h.(kept := h.kept + [false]);
        assert RxNext(c, s2, ok) == At(t, RxReadUsed(id, n));
        assert h.delivered[|old(h.delivered)|..] == [];
      }
      ReturnDescriptor(id, n, alloc, t);
    }

    /** mkring_process_rx_queue, with the sender stopped anywhere. */
    method Process(alloc: nat -> bool, ghost t: TxPc)
      requires Laid(t, RxIdle)
      modifies this`usedIdx, this`lastAvail, this`rxMsgs, this`rxPending, this`h, usedRing
      ensures Laid(t, RxIdle)
      ensures At(t, RxIdle) == RxCall(c, old(At(t, RxIdle)), alloc)
      ensures Handed(old(rxMsgs), old(h.delivered))
    {
      hide Dist, Wrap, SlotOf, RxDrain;
      ghost var s0 := At(t, RxReadAvail);
      assert Next(c, At(t, RxIdle), RxStart) == s0;
      assert RxNext(c, s0, alloc(|h.kept|)) == At(t, RxLoop(availIdx));
      DrainStep(c, s0, alloc);
      while lastAvail != availIdx
        invariant Laid(t, RxLoop(availIdx))
        invariant RxDrain(c, At(t, RxLoop(availIdx)), alloc) == RxDrain(c, s0, alloc)
        invariant Handed(old(rxMsgs), old(h.delivered))
        decreases Dist(lastAvail, availIdx)
      {
        TakeOne(alloc, t);
      }
      DrainStep(c, At(t, RxLoop(availIdx)), alloc);
      assert RxNext(c, At(t, RxLoop(availIdx)), alloc(|h.kept|)) == At(t, RxIdle);
      DrainIdle(c, At(t, RxIdle), alloc);
    }

    /** mkring_recv once a message is pending: the head leaves the list even if the buffer is too small for it. */
    method Receive(bufLen: nat) returns (res: Recv)
      requires rxPending == |rxMsgs|
      modifies this`rxMsgs, this`rxPending
      ensures rxPending == |rxMsgs|
      ensures res.Empty? <==> old(rxMsgs) == []
      ensures res.Empty? ==> rxMsgs == old(rxMsgs)
      ensures !res.Empty? ==> old(rxMsgs) == [old(rxMsgs)[0]] + rxMsgs
      ensures res.Received? ==> res.m == old(rxMsgs)[0] && |res.m| <= bufLen
      ensures res.Truncated? ==> res.len == |old(rxMsgs)[0]| > bufLen && res.prefix == old(rxMsgs)[0][..bufLen]
    {
      if |rxMsgs| == 0 {
        return Empty;
      }
      var m := rxMsgs[0];
      rxMsgs, rxPending := rxMsgs[1..], rxPending - 1;
      if |m| > bufLen {
        res := Truncated(m[..bufLen], |m|);
      } else {
        res := Received(m);
      }
    }
  }

  // What whole calls do to a queue that is used as the driver uses it.

  datatype SendOutcome = Sent | BadDestination | TooLong | NotReady | NoNotify | QueueFull | NotifyFailed

  lemma BoundOfQueue(c: Config, s: State)
    requires Inv(c, s)
    ensures |s.h.accepted| == |s.h.ids| && |s.h.ids| <= s.h.returned + c.n
  {
    hide Shaped, Wrap, SlotOf, Bitmap, AvailWindow, UsedWindow, Payload, TxOk, RxOk, Fifo;
  }

  /** mkring_send: the checks in the source's order, the enqueue, then the notification whose result is returned. */
  method MkringSend(q: Driver, m: Msg, dstOk: bool, dstReady: bool, notifySet: bool, notifyOk: bool, ghost r: RxPc)
      returns (out: SendOutcome)
    requires q.Laid(TxIdle, r) && Inv(q.c, q.At(TxIdle, r))
    requires Divides(q.c) || |q.h.ids| < IDX
    modifies q, q.availRing, q.len, q.data
    ensures q.Laid(TxIdle, r) && Inv(q.c, q.At(TxIdle, r))
    ensures q.h.delivered == old(q.h.delivered) && q.rxMsgs == old(q.rxMsgs)
    ensures out.Sent? || out.NotifyFailed? ==> q.h.accepted == old(q.h.accepted) + [m]
    ensures !(out.Sent? || out.NotifyFailed?) ==> q.h.accepted == old(q.h.accepted)
    ensures out.BadDestination? <==> !dstOk
    ensures out.TooLong? <==> dstOk && |m| > q.c.msgSize
    ensures out.NotReady? <==> dstOk && |m| <= q.c.msgSize && !dstReady
    ensures out.NoNotify? <==> dstOk && |m| <= q.c.msgSize && dstReady && !notifySet
    ensures out.QueueFull? <==> dstOk && |m| <= q.c.msgSize && dstReady && notifySet
                                && old(|q.h.accepted|) == old(q.h.returned) + q.c.n
    ensures out.Sent? <==> dstOk && |m| <= q.c.msgSize && dstReady && notifySet && notifyOk
                           && old(|q.h.accepted|) < old(q.h.returned) + q.c.n
  {
    hide Inv, Shaped, TxCall;
    BoundOfQueue(q.c, q.At(TxIdle, r));
    if !dstOk { return BadDestination; }
    if |m| > q.c.msgSize { return TooLong; }
    if !dstReady { return NotReady; }
    if !notifySet { return NoNotify; }
    TxCallEffect(q.c, q.At(TxIdle, r), m);
    var res := q.Enqueue(m, r);
    assert q.h.results[old(|q.h.results|)] == res;
    if res != Accepted { return QueueFull; }
    if !notifyOk { return NotifyFailed; }
    return Sent;
  }

  lemma {:induction false} KeptSuffix(msgs: seq<Msg>, flags: seq<bool>, k: nat)
    requires k <= |flags| <= |msgs|
    requires forall i :: k <= i < |flags| ==> flags[i]
    ensures Kept(msgs, flags) == Kept(msgs, flags[..k]) + msgs[k..|flags|]
    decreases |flags|
  {
    if k == |flags| {
      assert flags[..k] == flags;
    } else {
      var n := |flags| - 1;
      KeptSuffix(msgs, flags[..n], k);
      assert flags[..n][..k] == flags[..k];
      assert msgs[k..n] + [msgs[n]] == msgs[k..|flags|];
    }
  }

  /** A receive pass over a queue in which every allocation succeeds appends everything that was waiting. */
  method MkringDrain(q: Driver, ghost t: TxPc)
    requires q.Laid(t, RxIdle) && Inv(q.c, q.At(t, RxIdle))
    requires Divides(q.c) || |q.h.ids| <= IDX
    modifies q, q.usedRing
    ensures q.Laid(t, RxIdle) && Inv(q.c, q.At(t, RxIdle))
    ensures q.h.accepted == old(q.h.accepted) && q.h.returned == |q.h.accepted|
    ensures old(q.h.returned) <= old(|q.h.accepted|)
    ensures q.rxMsgs == old(q.rxMsgs) + old(q.h.accepted[q.h.returned..])
  {
    hide Inv, Shaped, RxCall;
    var yes := (i: nat) => true;
    ghost var before := q.At(t, RxIdle);
    DeliveredExact(q.c, before);
    RxCallEffect(q.c, before, yes);
    q.Process(yes, t);
    DeliveredExact(q.c, q.At(t, RxIdle));
    KeptSuffix(q.h.accepted, q.h.kept, before.h.returned);
  }
}
