/**
 What every interleaving of sender and receiver steps keeps: who owns each descriptor, where each
 counter stands, and what the rings and data slots hold for every message still on its way.
*/
module RingInvariant {
  import opened Basics
  import opened RingQueue

  /** desc_num divides 2^16: the slot of a counter value survives the wrap of the 16-bit index. */
  predicate Divides(c: Config) {
    c.n > 0 && IDX % c.n == 0
  }

  /** The ring slot used for the message at position `i`. */
  function Slot(c: Config, i: nat): (r: nat)
    requires c.n > 0
    ensures r < c.n
  {
    SlotOf(c, Wrap(i))
  }

  lemma SlotsDiffer(c: Config, i: nat, j: nat)
    requires ValidConfig(c) && i < j < i + c.n
    requires Divides(c) || j < IDX
    ensures Slot(c, i) != Slot(c, j)
  {
    if Divides(c) {
      RemainderOfRemainder(c.n, IDX, i);
      RemainderOfRemainder(c.n, IDX, j);
    }
    RemaindersDiffer(c.n, i, j);
  }

  /** The messages of `msgs` whose flag is set, oldest first; the unflagged rest is still queued. */
  function Kept(msgs: seq<Msg>, flags: seq<bool>): (r: seq<Msg>)
    requires |flags| <= |msgs|
    decreases |flags|
  {
    if flags == [] then []
    else
      var i := |flags| - 1;
      Kept(msgs, flags[..i]) + (if flags[i] then [msgs[i]] else [])
  }

  lemma {:induction false} KeptIgnoresTail(msgs: seq<Msg>, m: Msg, flags: seq<bool>)
    requires |flags| <= |msgs|
    ensures Kept(msgs + [m], flags) == Kept(msgs, flags)
    decreases |flags|
  {
    if flags != [] {
      KeptIgnoresTail(msgs, m, flags[..|flags| - 1]);
    }
  }

  /** What reached the local list is what was accepted, in order, less the failed allocations. */
  predicate Fifo(accepted: seq<Msg>, kept: seq<bool>, delivered: seq<Msg>) {
    |kept| <= |accepted| && delivered == Kept(accepted, kept)
  }

  lemma FifoAccepts(accepted: seq<Msg>, m: Msg, kept: seq<bool>, delivered: seq<Msg>)
    requires Fifo(accepted, kept, delivered)
    ensures Fifo(accepted + [m], kept, delivered)
  {
    KeptIgnoresTail(accepted, m, kept);
  }

  lemma KeptAppend(msgs: seq<Msg>, flags: seq<bool>, b: bool)
    requires |flags| < |msgs|
    ensures Kept(msgs, flags + [b]) == Kept(msgs, flags) + (if b then [msgs[|flags|]] else [])
  {
    assert (flags + [b])[..|flags|] == flags;
  }

  lemma FifoHands(accepted: seq<Msg>, kept: seq<bool>, delivered: seq<Msg>, b: bool)
    requires Fifo(accepted, kept, delivered) && |kept| < |accepted|
    ensures Fifo(accepted, kept + [b], delivered + (if b then [accepted[|kept|]] else []))
  {
    KeptAppend(accepted, kept, b);
  }

  /** The descriptors published at positions `lo..hi`. */
  function Window(ids: seq<nat>, lo: nat, hi: nat): (r: set<nat>)
    requires lo <= hi <= |ids|
    ensures forall i :: lo <= i < hi ==> ids[i] in r
    ensures forall x :: x in r ==> exists i :: lo <= i < hi && ids[i] == x
  {
    set i | lo <= i < hi :: ids[i]
  }

  /** The descriptor claimed by the sender and not yet published. */
  function Filling(s: State): (r: set<nat>) {
    match s.tx.pc
    case TxCopy(_, id, _) => {id}
    case TxReadAvail(_, id) => {id}
    case TxSlot(_, id, _) => {id}
    case TxPublish(_, id, _) => {id}
    case _ => {}
  }

  /** The receiver has handed its message over but not yet returned the descriptor. */
  predicate Handed(s: State) {
    s.rx.pc.RxReadUsed? || s.rx.pc.RxElem? || s.rx.pc.RxPublish?
  }

  /** The receiver is working on the message at position `returned`. */
  predicate Holding(s: State) {
    Handed(s) || s.rx.pc.RxLen? || s.rx.pc.RxAlloc? || s.rx.pc.RxCopy?
  }

  predicate Counters(c: Config, s: State) {
    var h := s.h;
    && |h.accepted| == |h.ids|
    && h.reclaimed <= h.returned <= |h.kept| <= |h.ids|
    && |h.kept| == h.returned + (if Handed(s) then 1 else 0)
    && |h.ids| + |Filling(s)| <= h.reclaimed + c.n
    && s.sh.availIdx == Wrap(|h.ids|)
    && s.sh.usedIdx == Wrap(h.returned)
    && s.tx.lastUsed == Wrap(h.reclaimed)
    && s.rx.lastAvail == Wrap(h.returned)
  }

  /** The in-flight bitmap and the free count describe the same descriptors. */
  ghost predicate Books(n: nat, tx: Tx) {
    tx.inflight <= Range(n) && tx.freeCnt + |tx.inflight| == n
  }

  /** The in-flight bits are the published and unreclaimed descriptors and the one being filled. */
  ghost predicate Bitmap(n: nat, ids: seq<nat>, lo: nat, tx: Tx, fill: set<nat>)
    requires lo <= |ids|
  {
    && (forall i :: lo <= i < |ids| ==> ids[i] < n)
    && (forall x :: x in fill ==> x < n)
    && (forall i, j :: lo <= i < j < |ids| ==> ids[i] != ids[j])
    && fill !! Window(ids, lo, |ids|)
    && tx.inflight == Window(ids, lo, |ids|) + fill
    && |tx.inflight| == |ids| - lo + |fill|
    && tx.freeCnt + |tx.inflight| == n
  }

  predicate AvailWindow(c: Config, ring: seq<nat>, ids: seq<nat>, lo: nat)
    requires |ring| == c.n > 0
  {
    forall i :: lo <= i < |ids| ==> ring[Slot(c, i)] == ids[i]
  }

  predicate UsedWindow(c: Config, ring: seq<UsedElem>, ids: seq<nat>, lo: nat, hi: nat)
    requires |ring| == c.n > 0 && hi <= |ids|
  {
    forall i :: lo <= i < hi ==> ring[Slot(c, i)].id == ids[i]
  }

  /** Descriptor `id` holds exactly the message `m`. */
  predicate Holds(c: Config, sh: Shared, id: nat, m: Msg) {
    && |m| <= c.msgSize && id < |sh.len| && id < |sh.data| && |m| <= |sh.data[id]|
    && sh.len[id] == |m| && sh.data[id][..|m|] == m
  }

  predicate Payload(c: Config, sh: Shared, ids: seq<nat>, accepted: seq<Msg>, lo: nat)
    requires |ids| == |accepted|
  {
    forall i :: lo <= i < |ids| ==> Holds(c, sh, ids[i], accepted[i])
  }

  predicate TxOk(c: Config, s: State)
    requires Shaped(c, s) && Counters(c, s)
  {
    match s.tx.pc
    case TxReclaim(_, used) => s.h.reclaimed + Dist(s.tx.lastUsed, used) <= s.h.returned
    case TxCopy(m, id, k) => s.sh.data[id][..k] == m[..k]
    case TxReadAvail(m, id) => Holds(c, s.sh, id, m)
    case TxSlot(m, id, avail) => Holds(c, s.sh, id, m) && avail == s.sh.availIdx
    case TxPublish(m, id, avail) =>
      && Holds(c, s.sh, id, m) && avail == s.sh.availIdx
      && s.sh.availRing[Slot(c, |s.h.ids|)] == id
    case _ => true
  }

  predicate RxOk(c: Config, s: State)
    requires Shaped(c, s) && Counters(c, s)
  {
    var p := s.h.returned;
    && (s.rx.pc.RxLoop? ==> p + Dist(s.rx.lastAvail, s.rx.pc.avail) <= |s.h.ids|)
    && (Holding(s) ==> p < |s.h.ids| && s.rx.pc.id == s.h.ids[p])
    && (s.rx.pc.RxAlloc? ==> s.rx.pc.len == |s.h.accepted[p]|)
    && (s.rx.pc.RxCopy? ==>
          && s.rx.pc.len == |s.h.accepted[p]|
          && s.rx.pc.buf == s.h.accepted[p][..|s.rx.pc.buf|])
    && (s.rx.pc.RxElem? ==> s.rx.pc.used == s.sh.usedIdx)
    && (s.rx.pc.RxPublish? ==>
          s.rx.pc.used == s.sh.usedIdx && s.sh.usedRing[Slot(c, p)].id == s.rx.pc.id)
  }

  ghost predicate Inv(c: Config, s: State) {
    && Shaped(c, s)
    && Counters(c, s)
    && Bitmap(c.n, s.h.ids, s.h.reclaimed, s.tx, Filling(s))
    && AvailWindow(c, s.sh.availRing, s.h.ids, s.h.returned)
    && UsedWindow(c, s.sh.usedRing, s.h.ids, s.h.reclaimed, s.h.returned)
    && Payload(c, s.sh, s.h.ids, s.h.accepted, s.h.returned)
    && TxOk(c, s)
    && RxOk(c, s)
    && Fifo(s.h.accepted, s.h.kept, s.h.delivered)
  }

  lemma InitInv(c: Config)
    requires ValidConfig(c)
    ensures Inv(c, Init(c))
  {
  }

  // Sender steps.

  lemma BitmapIgnoresPc(n: nat, ids: seq<nat>, lo: nat, tx: Tx, tx': Tx, fill: set<nat>)
    requires lo <= |ids| && Bitmap(n, ids, lo, tx, fill)
    requires tx'.inflight == tx.inflight && tx'.freeCnt == tx.freeCnt
    ensures Bitmap(n, ids, lo, tx', fill)
  {
  }

  lemma TxReadUsedKeeps(c: Config, s: State)
    requires Inv(c, s) && s.tx.pc.TxReadUsed?
    ensures Inv(c, TxNext(c, s))
  {
    hide Dist, Wrap, Slot, Bitmap, AvailWindow, UsedWindow, Payload, Fifo;
    DistOfCounts(s.h.reclaimed, s.h.returned);
    BitmapIgnoresPc(c.n, s.h.ids, s.h.reclaimed, s.tx, TxNext(c, s).tx, {});
  }

  /** Every identifier the sender meets in the used ring is one of its own in-flight descriptors. */
  lemma ReclaimSeesInflight(c: Config, s: State)
    requires Inv(c, s) && s.tx.pc.TxReclaim? && s.tx.lastUsed != s.tx.pc.used
    ensures s.h.reclaimed < s.h.returned
    ensures s.sh.usedRing[SlotOf(c, s.tx.lastUsed)].id == s.h.ids[s.h.reclaimed]
    ensures s.h.ids[s.h.reclaimed] in s.tx.inflight && s.h.ids[s.h.reclaimed] < c.n
  {
    DistStep(s.tx.lastUsed, s.tx.pc.used);
    hide Dist, Wrap, SlotOf;
    assert s.sh.usedRing[Slot(c, s.h.reclaimed)].id == s.h.ids[s.h.reclaimed];
  }

  lemma BitmapReclaims(n: nat, ids: seq<nat>, lo: nat, tx: Tx, tx': Tx)
    requires lo < |ids| && Bitmap(n, ids, lo, tx, {})
    requires tx'.inflight == tx.inflight - {ids[lo]} && tx'.freeCnt == tx.freeCnt + 1
    ensures Bitmap(n, ids, lo + 1, tx', {})
  {
    assert Window(ids, lo + 1, |ids|) == Window(ids, lo, |ids|) - {ids[lo]};
  }

  lemma TxReclaimKeeps(c: Config, s: State)
    requires Inv(c, s) && s.tx.pc.TxReclaim? && s.tx.lastUsed != s.tx.pc.used
    ensures Inv(c, TxNext(c, s))
  {
    hide Dist, Wrap, Slot, SlotOf, Bitmap, AvailWindow, Payload, Fifo;
    ReclaimSeesInflight(c, s);
    DistStep(s.tx.lastUsed, s.tx.pc.used);
    WrapStep(s.h.reclaimed);
    BitmapReclaims(c.n, s.h.ids, s.h.reclaimed, s.tx, TxNext(c, s).tx);
  }

  lemma BitmapBooks(n: nat, ids: seq<nat>, lo: nat, tx: Tx, fill: set<nat>)
    requires lo <= |ids| && Bitmap(n, ids, lo, tx, fill)
    ensures Books(n, tx)
  {
  }

  /** A free count above zero is a clear bit, so the search below desc_num finds one. */
  lemma FreeMeansZeroBit(n: nat, tx: Tx)
    requires Books(n, tx)
    ensures tx.freeCnt == 0 <==> tx.inflight == Range(n)
    ensures tx.freeCnt != 0 ==> FirstZero(tx.inflight, n, 0) < n
  {
    RangeSize(n);
    SubsetSize(tx.inflight, Range(n));
    if FirstZero(tx.inflight, n, 0) == n {
      assert Range(n) <= tx.inflight;
      SubsetSize(Range(n), tx.inflight);
    }
  }

  lemma BitmapClaims(n: nat, ids: seq<nat>, lo: nat, tx: Tx, tx': Tx, id: nat)
    requires lo <= |ids| && Bitmap(n, ids, lo, tx, {}) && id < n && id !in tx.inflight
    requires tx'.inflight == tx.inflight + {id} && tx'.freeCnt == tx.freeCnt - 1
    ensures Bitmap(n, ids, lo, tx', {id})
    ensures |ids| + 1 <= lo + n
  {
    RangeSize(n);
    SubsetSize(tx'.inflight, Range(n));
  }

  lemma TxRefuseKeeps(c: Config, s: State)
    requires Inv(c, s) && s.tx.pc.TxReclaim? && s.tx.freeCnt == 0
    ensures Inv(c, TxClaim(c, s))
  {
    hide Dist, Wrap, Slot, SlotOf, Bitmap, AvailWindow, UsedWindow, Payload, Fifo, FirstZero;
    BitmapIgnoresPc(c.n, s.h.ids, s.h.reclaimed, s.tx, TxClaim(c, s).tx, {});
  }

  lemma TxTakeBitKeeps(c: Config, s: State)
    requires Inv(c, s) && s.tx.pc.TxReclaim? && s.tx.freeCnt != 0
    ensures Inv(c, TxClaim(c, s))
  {
    hide Dist, Wrap, Slot, SlotOf, Bitmap, AvailWindow, UsedWindow, Payload, Fifo, Books, FirstZero, Range;
    BitmapBooks(c.n, s.h.ids, s.h.reclaimed, s.tx, {});
    FreeMeansZeroBit(c.n, s.tx);
    var s' := TxClaim(c, s);
    BitmapClaims(c.n, s.h.ids, s.h.reclaimed, s.tx, s'.tx, s'.tx.pc.id);
  }

  lemma TxClaimKeeps(c: Config, s: State)
    requires Inv(c, s) && s.tx.pc.TxReclaim? && s.tx.lastUsed == s.tx.pc.used
    ensures Inv(c, TxNext(c, s))
  {
    assert TxNext(c, s) == TxClaim(c, s);
    hide Inv, TxNext, TxClaim;
    if s.tx.freeCnt == 0 {
      TxRefuseKeeps(c, s);
    } else {
      TxTakeBitKeeps(c, s);
    }
  }

  /** Writes to the descriptor being filled leave every message on its way untouched. */
  lemma PayloadKeepsOthers(c: Config, sh: Shared, sh': Shared, ids: seq<nat>, accepted: seq<Msg>,
                           lo: nat, hi: nat, tx: Tx, id: nat)
    requires lo <= hi <= |ids| == |accepted| && Payload(c, sh, ids, accepted, hi)
    requires Bitmap(c.n, ids, lo, tx, {id})
    requires |sh'.len| == |sh.len| && |sh'.data| == |sh.data|
    requires forall x :: 0 <= x < |sh.len| && x != id ==> sh'.len[x] == sh.len[x]
    requires forall x :: 0 <= x < |sh.data| && x != id ==> sh'.data[x] == sh.data[x]
    ensures Payload(c, sh', ids, accepted, hi)
  {
  }

  lemma TxCopyKeeps(c: Config, s: State)
    requires Inv(c, s) && s.tx.pc.TxCopy?
    ensures Inv(c, TxNext(c, s))
  {
    hide Dist, Wrap, Slot, SlotOf, Bitmap, AvailWindow, UsedWindow, Payload, Fifo;
    var s' := TxNext(c, s);
    var TxCopy(m, id, k) := s.tx.pc;
    BitmapIgnoresPc(c.n, s.h.ids, s.h.reclaimed, s.tx, s'.tx, {id});
    PayloadKeepsOthers(c, s.sh, s'.sh, s.h.ids, s.h.accepted, s.h.reclaimed, s.h.returned, s.tx, id);
    if k < |m| {
      assert s'.sh.data[id][..k + 1] == m[..k + 1];
    } else {
      assert m[..k] == m;
    }
  }

  lemma TxReadAvailKeeps(c: Config, s: State)
    requires Inv(c, s) && s.tx.pc.TxReadAvail?
    ensures Inv(c, TxNext(c, s))
  {
    hide Dist, Wrap, Slot, SlotOf, Bitmap, AvailWindow, UsedWindow, Payload, Fifo;
    BitmapIgnoresPc(c.n, s.h.ids, s.h.reclaimed, s.tx, TxNext(c, s).tx, {s.tx.pc.id});
  }

  lemma AvailWindowKeepsOthers(c: Config, ring: seq<nat>, ids: seq<nat>, lo: nat, id: nat)
    requires ValidConfig(c) && |ring| == c.n && AvailWindow(c, ring, ids, lo)
    requires |ids| < lo + c.n && (Divides(c) || |ids| < IDX)
    ensures AvailWindow(c, ring[Slot(c, |ids|) := id], ids, lo)
  {
    hide SlotOf, Wrap, Divides;
    forall i | lo <= i < |ids|
      ensures Slot(c, i) != Slot(c, |ids|)
    {
      SlotsDiffer(c, i, |ids|);
    }
  }

  lemma PayloadIgnoresRings(c: Config, sh: Shared, sh': Shared, ids: seq<nat>, accepted: seq<Msg>, lo: nat)
    requires |ids| == |accepted| && Payload(c, sh, ids, accepted, lo)
    requires sh'.len == sh.len && sh'.data == sh.data
    ensures Payload(c, sh', ids, accepted, lo)
  {
  }

  lemma TxSlotKeeps(c: Config, s: State)
    requires Inv(c, s) && s.tx.pc.TxSlot?
    requires Divides(c) || |s.h.ids| < IDX
    ensures Inv(c, TxNext(c, s))
  {
    hide Dist, Wrap, SlotOf, Bitmap, AvailWindow, UsedWindow, Payload, Fifo, Divides;
    AvailWindowKeepsOthers(c, s.sh.availRing, s.h.ids, s.h.returned, s.tx.pc.id);
    BitmapIgnoresPc(c.n, s.h.ids, s.h.reclaimed, s.tx, TxNext(c, s).tx, {s.tx.pc.id});
    PayloadIgnoresRings(c, s.sh, TxNext(c, s).sh, s.h.ids, s.h.accepted, s.h.returned);
  }

  lemma WindowGrows(ids: seq<nat>, id: nat, lo: nat)
    requires lo <= |ids|
    ensures Window(ids + [id], lo, |ids| + 1) == Window(ids, lo, |ids|) + {id}
  {
    var ids' := ids + [id];
    assert ids'[|ids|] == id;
    forall x | x in Window(ids, lo, |ids|)
      ensures x in Window(ids', lo, |ids'|)
    {
      var i :| lo <= i < |ids| && ids[i] == x;
      assert ids'[i] == x;
    }
  }

  lemma IdsGrow(n: nat, ids: seq<nat>, lo: nat, id: nat)
    requires lo <= |ids| && id < n && id !in Window(ids, lo, |ids|)
    requires forall i :: lo <= i < |ids| ==> ids[i] < n
    requires forall i, j :: lo <= i < j < |ids| ==> ids[i] != ids[j]
    ensures var ids' := ids + [id];
      && (forall i :: lo <= i < |ids'| ==> ids'[i] < n)
      && (forall i, j :: lo <= i < j < |ids'| ==> ids'[i] != ids'[j])
  {
    var ids' := ids + [id];
    forall i, j | lo <= i < j < |ids'|
      ensures ids'[i] != ids'[j]
    {
      assert ids'[i] == ids[i];
      assert ids[i] in Window(ids, lo, |ids|);
    }
  }

  lemma BitmapPublishes(n: nat, ids: seq<nat>, lo: nat, tx: Tx, tx': Tx, id: nat)
    requires lo <= |ids| && Bitmap(n, ids, lo, tx, {id})
    requires tx'.inflight == tx.inflight && tx'.freeCnt == tx.freeCnt
    ensures Bitmap(n, ids + [id], lo, tx', {})
  {
    hide Window;
    assert id in {id};
    WindowGrows(ids, id, lo);
    IdsGrow(n, ids, lo, id);
  }

  /** The messages on their way gain the published one; its slot and its descriptor already hold it. */
  lemma WindowsPublish(c: Config, s: State, id: nat, m: Msg)
    requires |s.sh.availRing| == c.n > 0 && |s.h.ids| == |s.h.accepted|
    requires s.h.returned <= |s.h.ids|
    requires AvailWindow(c, s.sh.availRing, s.h.ids, s.h.returned)
    requires Payload(c, s.sh, s.h.ids, s.h.accepted, s.h.returned)
    requires s.sh.availRing[Slot(c, |s.h.ids|)] == id && Holds(c, s.sh, id, m)
    ensures AvailWindow(c, s.sh.availRing, s.h.ids + [id], s.h.returned)
    ensures Payload(c, s.sh, s.h.ids + [id], s.h.accepted + [m], s.h.returned)
  {
    hide Slot, Holds;
  }

  lemma UsedWindowIgnoresTail(c: Config, ring: seq<UsedElem>, ids: seq<nat>, id: nat, lo: nat, hi: nat)
    requires |ring| == c.n > 0 && hi <= |ids| && UsedWindow(c, ring, ids, lo, hi)
    ensures UsedWindow(c, ring, ids + [id], lo, hi)
  {
    hide Slot;
  }

  lemma TxPublishKeeps(c: Config, s: State)
    requires Inv(c, s) && s.tx.pc.TxPublish?
    ensures Inv(c, TxNext(c, s))
  {
    hide Dist, Wrap, Slot, SlotOf, Bitmap, AvailWindow, UsedWindow, Payload, Fifo;
    hide Kept, Holds;
    var s' := TxNext(c, s);
    var TxPublish(m, id, _) := s.tx.pc;
    WrapStep(|s.h.ids|);
    BitmapPublishes(c.n, s.h.ids, s.h.reclaimed, s.tx, s'.tx, id);
    WindowsPublish(c, s, id, m);
    UsedWindowIgnoresTail(c, s.sh.usedRing, s.h.ids, id, s.h.reclaimed, s.h.returned);
    PayloadIgnoresRings(c, s.sh, s'.sh, s'.h.ids, s'.h.accepted, s.h.returned);
    FifoAccepts(s.h.accepted, m, s.h.kept, s.h.delivered);
  }

  lemma TxIdleKeeps(c: Config, s: State)
    requires Inv(c, s) && s.tx.pc.TxIdle?
    ensures TxNext(c, s) == s
  {
  }

  lemma TxKeeps(c: Config, s: State)
    requires Inv(c, s)
    requires s.tx.pc.TxSlot? ==> Divides(c) || |s.h.ids| < IDX
    ensures Inv(c, TxNext(c, s))
  {
    hide Inv, Divides, TxNext;
    match s.tx.pc
    case TxIdle => TxIdleKeeps(c, s);
    case TxReadUsed(_) => TxReadUsedKeeps(c, s);
    case TxReclaim(_, used) =>
      if s.tx.lastUsed != used { TxReclaimKeeps(c, s); } else { TxClaimKeeps(c, s); }
    case TxCopy(_, _, _) => TxCopyKeeps(c, s);
    case TxReadAvail(_, _) => TxReadAvailKeeps(c, s);
    case TxSlot(_, _, _) => TxSlotKeeps(c, s);
    case TxPublish(_, _, _) => TxPublishKeeps(c, s);
  }

  // Receiver steps.

  lemma RxReadAvailKeeps(c: Config, s: State, alloc: bool)
    requires Inv(c, s) && s.rx.pc.RxReadAvail?
    ensures Inv(c, RxNext(c, s, alloc))
  {
    hide Dist, Wrap, Slot, SlotOf, Bitmap, AvailWindow, UsedWindow, Payload, Fifo;
    DistOfCounts(s.h.returned, |s.h.ids|);
  }

  lemma RxLoopKeeps(c: Config, s: State, alloc: bool)
    requires Inv(c, s) && s.rx.pc.RxLoop?
    ensures Inv(c, RxNext(c, s, alloc))
  {
    hide Dist, Wrap, SlotOf, Bitmap, UsedWindow, Payload, Fifo;
    if s.rx.lastAvail != s.rx.pc.avail {
      DistStep(s.rx.lastAvail, s.rx.pc.avail);
      assert s.sh.availRing[Slot(c, s.h.returned)] == s.h.ids[s.h.returned];
    }
  }

  lemma RxTakeKeeps(c: Config, s: State, alloc: bool)
    requires Inv(c, s) && (s.rx.pc.RxLen? || s.rx.pc.RxAlloc? || s.rx.pc.RxCopy?)
    ensures Inv(c, RxNext(c, s, alloc))
  {
    hide Dist, Wrap, Slot, SlotOf, Bitmap, AvailWindow, UsedWindow, Fifo;
    var p := s.h.returned;
    var m := s.h.accepted[p];
    assert Holds(c, s.sh, s.h.ids[p], m);
    FifoHands(s.h.accepted, s.h.kept, s.h.delivered, true);
    FifoHands(s.h.accepted, s.h.kept, s.h.delivered, false);
    hide Payload;
    assert s.h.delivered + [] == s.h.delivered;
    if s.rx.pc.RxCopy? {
      var buf := s.rx.pc.buf;
      if |buf| < |m| {
        assert s.sh.data[s.rx.pc.id][|buf|] == s.sh.data[s.rx.pc.id][..|m|][|buf|];
      } else {
        assert m[..|buf|] == m;
      }
    }
  }

  lemma RxReadUsedKeeps(c: Config, s: State, alloc: bool)
    requires Inv(c, s) && s.rx.pc.RxReadUsed?
    ensures Inv(c, RxNext(c, s, alloc))
  {
    hide Dist, Wrap, Slot, SlotOf, Bitmap, AvailWindow, UsedWindow, Payload, Fifo;
  }

  lemma UsedWindowKeepsOthers(c: Config, ring: seq<UsedElem>, ids: seq<nat>, lo: nat, hi: nat, e: UsedElem)
    requires ValidConfig(c) && |ring| == c.n && hi <= |ids| && UsedWindow(c, ring, ids, lo, hi)
    requires hi < lo + c.n && (Divides(c) || hi < IDX)
    ensures UsedWindow(c, ring[Slot(c, hi) := e], ids, lo, hi)
  {
    hide SlotOf, Wrap, Divides;
    forall i | lo <= i < hi
      ensures Slot(c, i) != Slot(c, hi)
    {
      SlotsDiffer(c, i, hi);
    }
  }

  lemma RxElemKeeps(c: Config, s: State, alloc: bool)
    requires Inv(c, s) && s.rx.pc.RxElem?
    requires Divides(c) || s.h.returned < IDX
    ensures Inv(c, RxNext(c, s, alloc))
  {
    hide Dist, Wrap, SlotOf, Bitmap, AvailWindow, UsedWindow, Payload, Fifo, Divides;
    UsedWindowKeepsOthers(c, s.sh.usedRing, s.h.ids, s.h.reclaimed, s.h.returned,
                          UsedElem(s.rx.pc.id, s.rx.pc.len));
    PayloadIgnoresRings(c, s.sh, RxNext(c, s, alloc).sh, s.h.ids, s.h.accepted, s.h.returned);
  }

  lemma RxPublishKeeps(c: Config, s: State, alloc: bool)
    requires Inv(c, s) && s.rx.pc.RxPublish?
    ensures Inv(c, RxNext(c, s, alloc))
  {
    hide Dist, Wrap, Slot, SlotOf, Bitmap, Fifo;
    WrapStep(s.h.returned);
    PayloadIgnoresRings(c, s.sh, RxNext(c, s, alloc).sh, s.h.ids, s.h.accepted, s.h.returned);
  }

  lemma RxIdleKeeps(c: Config, s: State, alloc: bool)
    requires Inv(c, s) && s.rx.pc.RxIdle?
    ensures RxNext(c, s, alloc) == s
  {
  }

  lemma RxKeeps(c: Config, s: State, alloc: bool)
    requires Inv(c, s)
    requires s.rx.pc.RxElem? ==> Divides(c) || s.h.returned < IDX
    ensures Inv(c, RxNext(c, s, alloc))
  {
    hide Inv, Divides, RxNext;
    match s.rx.pc
    case RxIdle => RxIdleKeeps(c, s, alloc);
    case RxReadAvail => RxReadAvailKeeps(c, s, alloc);
    case RxLoop(_) => RxLoopKeeps(c, s, alloc);
    case RxReadUsed(_, _) => RxReadUsedKeeps(c, s, alloc);
    case RxElem(_, _, _) => RxElemKeeps(c, s, alloc);
    case RxPublish(_, _, _) => RxPublishKeeps(c, s, alloc);
    case _ => RxTakeKeeps(c, s, alloc);
  }

  lemma EnterKeeps(c: Config, s: State, a: Action)
    requires Inv(c, s) && (a.Send? || a.RxStart?)
    ensures Inv(c, Next(c, s, a))
  {
    hide Dist, Wrap, Slot, SlotOf, Bitmap, AvailWindow, UsedWindow, Payload, Fifo;
    var s' := Next(c, s, a);
    if a.Send? && s' != s {
      BitmapIgnoresPc(c.n, s.h.ids, s.h.reclaimed, s.tx, s'.tx, {});
    }
  }

  /** Every step of either side keeps the invariant, as long as no slot is reused across a wrap. */
  lemma NextKeeps(c: Config, s: State, a: Action)
    requires Inv(c, s)
    requires Divides(c) || |s.h.ids| < IDX
    ensures Inv(c, Next(c, s, a))
  {
    if a.TxTick? {
      hide Inv, Divides;
      TxKeeps(c, s);
    } else if a.RxTick? {
      assert s.rx.pc.RxElem? ==> Divides(c) || s.h.returned < IDX;
      hide Inv, Divides;
      RxKeeps(c, s, a.alloc);
    } else {
      hide Inv, Divides;
      EnterKeeps(c, s, a);
    }
  }
}
