/**
 Exactly when the queue is a FIFO for every run: when desc_num divides 2^16.

 Initialisation accepts any non-zero desc_num.  For every other value there is a run in which the
 avail index wraps, a slot of an unread message is written again, and a message is overtaken.
*/
module RingWrap {
  import opened Basics
  import opened RingQueue
  import opened RingInvariant
  import opened RingTheorems
  import opened RingSolo

  ghost predicate Reachable(c: Config, s: State)
    requires ValidConfig(c)
  {
    exists acts: seq<Action> :: Exec(c, Init(c), acts) == s
  }

  predicate InOrder(s: State) {
    Fifo(s.h.accepted, s.h.kept, s.h.delivered)
  }

  /** The property a user of the queue relies on. */
  ghost predicate AlwaysFifo(c: Config)
    requires ValidConfig(c)
  {
    forall acts: seq<Action> :: InOrder(Exec(c, Init(c), acts))
  }

  lemma ReachMore(c: Config, s: State, acts: seq<Action>)
    requires ValidConfig(c) && Shaped(c, s) && Reachable(c, s)
    ensures Reachable(c, Exec(c, s, acts))
  {
    assert Shaped(c, Init(c));
    hide Shaped, ValidConfig, Init;
    var before :| Exec(c, Init(c), before) == s;
    ExecConcat(c, Init(c), before, acts);
  }

  lemma ReachNext(c: Config, s: State, a: Action)
    requires ValidConfig(c) && Shaped(c, s) && Reachable(c, s)
    ensures Shaped(c, Next(c, s, a)) && Reachable(c, Next(c, s, a))
  {
    ShapedNext(c, s, a);
    ReachMore(c, s, [a]);
    hide Shaped, Reachable, Next;
    assert [a][1..] == [];
    assert Exec(c, s, [a]) == Next(c, s, a);
  }

  lemma ReachTxToSlot(c: Config, s: State)
    requires ValidConfig(c) && Shaped(c, s) && Reachable(c, s) && !s.tx.pc.TxPublish?
    ensures Reachable(c, TxToSlot(c, s))
  {
    var acts := TxToSlotIsRun(c, s);
    ReachMore(c, s, acts);
  }

  /** Both sides idle, `k` messages published and `p` of them taken out and returned. */
  ghost predicate Quiet(c: Config, s: State, p: nat, k: nat) {
    && ValidConfig(c) && Shaped(c, s) && Inv(c, s) && Reachable(c, s)
    && s.tx.pc.TxIdle? && s.rx.pc.RxIdle?
    && s.h.returned == p && |s.h.ids| == |s.h.accepted| == k
  }

  lemma QuietStart(c: Config)
    requires ValidConfig(c)
    ensures Quiet(c, Init(c), 0, 0)
  {
    InitInv(c);
    assert Exec(c, Init(c), []) == Init(c);
  }

  lemma ReachTxCall(c: Config, s: State, m: Msg)
    requires ValidConfig(c) && Shaped(c, s) && Reachable(c, s) && s.tx.pc.TxIdle? && |m| <= c.msgSize
    ensures Reachable(c, TxCall(c, s, m))
  {
    hide Reachable, TxToSlot;
    ReachNext(c, s, Send(m));
    var t := TxToSlot(c, Next(c, s, Send(m)));
    ReachTxToSlot(c, Next(c, s, Send(m)));
    if t.tx.pc.TxSlot? {
      ReachNext(c, t, TxTick);
      ReachNext(c, TxNext(c, t), TxTick);
    }
  }

  lemma BothLengths(c: Config, s: State)
    requires Inv(c, s)
    ensures Shaped(c, s) && |s.h.ids| == |s.h.accepted|
  {
    hide Bitmap, AvailWindow, UsedWindow, Payload, TxOk, RxOk, Fifo, Wrap;
  }

  lemma QuietSend(c: Config, s: State, p: nat, k: nat) returns (r: State)
    requires Quiet(c, s, p, k) && k < IDX && k < p + c.n
    ensures Quiet(c, r, p, k + 1) && r.h.accepted == s.h.accepted + [[]]
  {
    hide Inv, Shaped, Reachable, TxCall, Divides;
    r := TxCall(c, s, []);
    TxCallEffect(c, s, []);
    ReachTxCall(c, s, []);
    BothLengths(c, r);
  }

  lemma QuietDrain(c: Config, s: State, p: nat, k: nat) returns (r: State)
    requires Quiet(c, s, p, k) && k <= IDX
    ensures Quiet(c, r, k, k) && r.h.accepted == s.h.accepted
  {
    hide Inv, Reachable, RxDrain, Divides;
    var yes := (i: nat) => true;
    r := RxCall(c, s, yes);
    RxCallEffect(c, s, yes);
    ReachNext(c, s, RxStart);
    var s0 := Next(c, s, RxStart);
    var acts := RxDrainIsRun(c, s0, yes);
    ReachMore(c, s0, acts);
    BothLengths(c, r);
  }

  /** `k` messages have passed through, for any `k` up to the first wrap. */
  lemma {:induction false} Rounds(c: Config, k: nat) returns (r: State)
    requires ValidConfig(c) && k <= IDX
    ensures Quiet(c, r, k, k)
    decreases k
  {
    if k == 0 {
      QuietStart(c);
      r := Init(c);
    } else {
      var s := Rounds(c, k - 1);
      hide Quiet;
      var t := QuietSend(c, s, k - 1, k - 1);
      r := QuietDrain(c, t, k - 1, k);
    }
  }

  /** `j` further messages are waiting, the first of them empty. */
  lemma {:induction false} Backlog(c: Config, s: State, p: nat, j: nat) returns (r: State)
    requires Quiet(c, s, p, p) && p + j <= IDX && j <= c.n
    ensures Quiet(c, r, p, p + j)
    ensures j > 0 ==> p < |r.h.accepted| && r.h.accepted[p] == []
    decreases j
  {
    hide Inv, Shaped, Reachable;
    if j == 0 {
      r := s;
    } else {
      var t := Backlog(c, s, p, j - 1);
      r := QuietSend(c, t, p, p + j - 1);
    }
  }

  predicate SlotZeroReused(c: Config, s: State, t: State) {
    && ValidConfig(c) && Shaped(c, t) && t.rx == s.rx && t.sh.availIdx == 1
    && t.sh.availRing[0] < c.n
    && t.sh.len[t.sh.availRing[0]] == 1 && t.sh.data[t.sh.availRing[0]][0] == 1
    && t.h.accepted == s.h.accepted + [[1]]
    && t.h.kept == s.h.kept && t.h.delivered == s.h.delivered
  }

  lemma WritesSlotZero(c: Config, s: State, u: State)
    requires Shaped(c, u) && u.tx.pc.TxSlot? && u.tx.pc.msg == [1] && u.tx.pc.avail == 0
    requires u.sh.len[u.tx.pc.id] == 1 && u.sh.data[u.tx.pc.id][0] == 1 && SameForReceiver(s, u)
    ensures Shaped(c, TxNext(c, u)) && SlotZeroReused(c, s, TxNext(c, TxNext(c, u)))
  {
    ShapedNext(c, u, TxTick);
    ShapedNext(c, TxNext(c, u), TxTick);
    assert SlotOf(c, 0) == 0;
    hide SlotOf;
  }

  lemma AboutToWriteSlotZero(c: Config, u: State)
    requires Inv(c, u) && u.tx.pc.TxSlot? && u.tx.pc.msg == [1] && |u.h.ids| == IDX
    ensures Shaped(c, u) && u.tx.pc.avail == 0 && u.tx.pc.id < c.n
    ensures u.sh.len[u.tx.pc.id] == 1 && u.sh.data[u.tx.pc.id][0] == 1
  {
    assert Holds(c, u.sh, u.tx.pc.id, [1]);
    assert u.sh.data[u.tx.pc.id][..1][0] == 1;
    hide Bitmap, AvailWindow, UsedWindow, Payload, RxOk, Fifo;
  }

  /** With `IDX` messages published and slot 0 still unread, one more send writes slot 0 again. */
  lemma LastSend(c: Config, s: State, p: nat) returns (t: State)
    requires Quiet(c, s, p, IDX) && IDX < p + c.n
    ensures SlotZeroReused(c, s, t) && Reachable(c, t)
  {
    hide Inv, Reachable, TxToSlot, TxNext, TxCall, SlotZeroReused;
    var s0 := Next(c, s, Send([1]));
    ReachNext(c, s, Send([1]));
    EnterKeeps(c, s, Send([1]));
    assert WillFit(c, s0);
    TxToSlotEffect(c, s0);
    var u := TxToSlot(c, s0);
    AboutToWriteSlotZero(c, u);
    WritesSlotZero(c, s, u);
    ReachTxToSlot(c, s0);
    ReachNext(c, u, TxTick);
    ReachNext(c, TxNext(c, u), TxTick);
    t := TxNext(c, TxNext(c, u));
  }

  lemma TakesOneByte(c: Config, r2: State, id: nat) returns (r: State)
    requires ValidConfig(c) && Shaped(c, r2) && Reachable(c, r2) && r2.rx.pc == RxLen(id) && id < c.n
    requires r2.sh.len[id] == 1 && r2.sh.data[id][0] == 1
    ensures Shaped(c, r) && Reachable(c, r)
    ensures r.h.accepted == r2.h.accepted
    ensures r.h.kept == r2.h.kept + [true] && r.h.delivered == r2.h.delivered + [[1]]
  {
    hide Reachable, SlotOf;
    var a := RxTick(true);
    var r3 := Next(c, r2, a);
    ReachNext(c, r2, a);
    assert r3 == r2.(rx := r2.rx.(pc := RxAlloc(id, 1)));
    var r4 := Next(c, r3, a);
    ReachNext(c, r3, a);
    var r5 := Next(c, r4, a);
    ReachNext(c, r4, a);
    assert r5 == r2.(rx := r2.rx.(pc := RxCopy(id, 1, [1])));
    r := Next(c, r5, a);
    ReachNext(c, r5, a);
  }

  /** The receiver, looking for the oldest waiting message, is handed the newest one. */
  lemma TakesTheNewest(c: Config, t: State) returns (r: State)
    requires ValidConfig(c) && Shaped(c, t) && Reachable(c, t) && t.rx.pc.RxIdle?
    requires SlotOf(c, t.rx.lastAvail) == 0 && t.rx.lastAvail != t.sh.availIdx
    requires t.sh.availRing[0] < c.n
    requires t.sh.len[t.sh.availRing[0]] == 1 && t.sh.data[t.sh.availRing[0]][0] == 1
    ensures Shaped(c, r) && Reachable(c, r)
    ensures r.h.accepted == t.h.accepted
    ensures r.h.kept == t.h.kept + [true] && r.h.delivered == t.h.delivered + [[1]]
  {
    hide Reachable, SlotOf;
    var id := t.sh.availRing[0];
    var r0 := Next(c, t, RxStart);
    ReachNext(c, t, RxStart);
    var r1 := Next(c, r0, RxTick(true));
    ReachNext(c, r0, RxTick(true));
    var r2 := Next(c, r1, RxTick(true));
    ReachNext(c, r1, RxTick(true));
    assert r2 == t.(rx := t.rx.(pc := RxLen(id)));
    r := TakesOneByte(c, r2, id);
  }

  lemma NotInOrder(s: State, r: State)
    requires |s.h.kept| < |s.h.accepted| && s.h.accepted[|s.h.kept|] == []
    requires r.h.accepted == s.h.accepted + [[1]] && r.h.kept == s.h.kept + [true]
    requires Fifo(s.h.accepted, s.h.kept, s.h.delivered) && r.h.delivered == s.h.delivered + [[1]]
    ensures !InOrder(r)
  {
    KeptAppend(r.h.accepted, s.h.kept, true);
    KeptIgnoresTail(s.h.accepted, [1], s.h.kept);
    var good := Kept(r.h.accepted, r.h.kept);
    assert good == s.h.delivered + [[]];
    assert good[|s.h.delivered|] != r.h.delivered[|s.h.delivered|];
  }

  lemma SomeRunReaches(c: Config, r: State)
    requires ValidConfig(c) && Reachable(c, r) && !InOrder(r)
    ensures !AlwaysFifo(c)
  {
    hide InOrder;
    var acts :| Exec(c, Init(c), acts) == r;
    assert !InOrder(Exec(c, Init(c), acts));
  }

  lemma QuietFacts(c: Config, s: State, p: nat, k: nat)
    requires Quiet(c, s, p, k)
    ensures s.rx.lastAvail == Wrap(p) && s.rx.pc.RxIdle? && |s.h.kept| == p && |s.h.accepted| == k
    ensures Fifo(s.h.accepted, s.h.kept, s.h.delivered)
  {
    hide Bitmap, AvailWindow, UsedWindow, Payload, TxOk, RxOk, Fifo, Wrap, Reachable;
  }

  /** For every accepted desc_num that does not divide 2^16 some run overtakes a message. */
  lemma Overtaken(c: Config)
    requires ValidConfig(c) && !Divides(c)
    ensures !AlwaysFifo(c)
  {
    hide Quiet, Shaped, InOrder, Init, Reachable;
    var rest := IDX % c.n;
    var p: nat := IDX - rest;
    assert SlotOf(c, p) == 0 by { QuotientUnique(c.n, IDX / c.n, 0, p); }
    var s0 := Rounds(c, p);
    var s := Backlog(c, s0, p, rest);
    var t := LastSend(c, s, p);
    QuietFacts(c, s, p, IDX);
    assert Wrap(p) == p;
    hide SlotOf;
    var r := TakesTheNewest(c, t);
    NotInOrder(s, r);
    SomeRunReaches(c, r);
  }

  /** Order survives every run if and only if desc_num divides 2^16; initialisation does not check it. */
  lemma FifoIffDivides(c: Config)
    requires ValidConfig(c)
    ensures AlwaysFifo(c) <==> IDX % c.n == 0
  {
    if Divides(c) {
      forall acts: seq<Action>
        ensures InOrder(Exec(c, Init(c), acts))
      {
        DeliversInOrder(c, acts);
      }
    } else {
      Overtaken(c);
    }
  }
}
