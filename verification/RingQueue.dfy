/**
 One directional mkring queue, as the two kernels on its ends run it.

 The sender (mkring_tx_enqueue under tx_lock) and the receiver (mkring_process_rx_queue under
 proc_lock) are two programs over one shared area.  A step performs at most one access to the
 shared area: the read or write of an index, of one ring slot, of one descriptor length, or of a
 single payload byte.  Memory is sequentially consistent; indices are 16 bits wide and wrap.
*/
module RingQueue {
  import opened Basics

  type Msg = seq<byte>

  datatype Config = Config(n: nat, msgSize: nat)

  /** What mkring_init accepts for the two parameters that matter here (desc_num is a u16). */
  predicate ValidConfig(c: Config) {
    0 < c.n < IDX && 0 < c.msgSize
  }

  datatype UsedElem = UsedElem(id: nat, len: nat)

  /** The area both kernels map: avail ring, used ring, descriptor lengths, data slots. */
  datatype Shared = Shared(
    availIdx: nat, availRing: seq<nat>,
    usedIdx: nat, usedRing: seq<UsedElem>,
    len: seq<nat>, data: seq<seq<byte>>)

  /** Where mkring_tx_enqueue is. */
  datatype TxPc =
    | TxIdle
    | TxReadUsed(msg: Msg)
    | TxReclaim(msg: Msg, used: nat)
    | TxCopy(msg: Msg, id: nat, k: nat)
    | TxReadAvail(msg: Msg, id: nat)
    | TxSlot(msg: Msg, id: nat, avail: nat)
    | TxPublish(msg: Msg, id: nat, avail: nat)

  /** Where mkring_process_rx_queue is. */
  datatype RxPc =
    | RxIdle
    | RxReadAvail
    | RxLoop(avail: nat)
    | RxLen(id: nat)
    | RxAlloc(id: nat, len: nat)
    | RxCopy(id: nat, len: nat, buf: seq<byte>)
    | RxReadUsed(id: nat, len: nat)
    | RxElem(id: nat, len: nat, used: nat)
    | RxPublish(id: nat, len: nat, used: nat)

  datatype Tx = Tx(pc: TxPc, inflight: set<nat>, freeCnt: int, lastUsed: nat)
  datatype Rx = Rx(pc: RxPc, lastAvail: nat)

  datatype SendResult = Accepted | AgainNoFree | AgainNoBit

  /**
   What happened so far; no step reads it.  `accepted` and `ids` list the published messages and
   their descriptors, `kept` says of each message taken out whether its buffer could be allocated,
   `delivered` is what reached the local list, `returned` and `reclaimed` count descriptors put
   into the used ring and taken back from it.
  */
  datatype History = History(
    accepted: seq<Msg>, ids: seq<nat>, kept: seq<bool>, delivered: seq<Msg>,
    returned: nat, reclaimed: nat, results: seq<SendResult>)

  datatype State = State(sh: Shared, tx: Tx, rx: Rx, h: History)

  datatype Action =
    | Send(msg: Msg)        // a caller enters mkring_send
    | TxTick                // the sender takes its next step
    | RxStart               // an interrupt enters mkring_process_rx_queue
    | RxTick(alloc: bool)   // the receiver takes its next step; kmalloc may fail

  function Init(c: Config): State {
    State(
      Shared(0, seq(c.n, i => 0), 0, seq(c.n, i => UsedElem(0, 0)),
             seq(c.n, i => c.msgSize), seq(c.n, i => seq(c.msgSize, j => 0))),
      Tx(TxIdle, {}, c.n, 0),
      Rx(RxIdle, 0),
      History([], [], [], [], 0, 0, []))
  }

  /** The ring slot of a 16-bit index. */
  function SlotOf(c: Config, idx: nat): (r: nat)
    requires c.n > 0
    ensures r < c.n
  {
    idx % c.n
  }

  /** find_first_zero_bit(inflight, n), starting at `from`. */
  function FirstZero(inflight: set<nat>, n: nat, from: nat): (r: nat)
    requires from <= n
    ensures from <= r <= n
    ensures r < n ==> r !in inflight
    ensures forall x: nat :: from <= x < r ==> x in inflight
    decreases n - from
  {
    if from == n || from !in inflight then from else FirstZero(inflight, n, from + 1)
  }

  /** The shapes memory accesses rely on: array bounds, nothing more. */
  predicate Shaped(c: Config, s: State) {
    && ValidConfig(c)
    && |s.sh.availRing| == |s.sh.usedRing| == |s.sh.len| == |s.sh.data| == c.n
    && (forall i :: 0 <= i < c.n ==> |s.sh.data[i]| == c.msgSize)
    && s.sh.availIdx < IDX && s.sh.usedIdx < IDX && s.tx.lastUsed < IDX && s.rx.lastAvail < IDX
    && (match s.tx.pc
        case TxIdle => true
        case TxReadUsed(m) => |m| <= c.msgSize
        case TxReclaim(m, used) => |m| <= c.msgSize && used < IDX
        case TxCopy(m, id, k) => |m| <= c.msgSize && id < c.n && k <= |m|
        case TxReadAvail(m, id) => |m| <= c.msgSize && id < c.n
        case TxSlot(m, id, avail) => |m| <= c.msgSize && id < c.n && avail < IDX
        case TxPublish(m, id, avail) => |m| <= c.msgSize && id < c.n && avail < IDX)
    && (match s.rx.pc
        case RxLoop(avail) => avail < IDX
        case RxAlloc(id, len) => id < c.n && len <= c.msgSize
        case RxCopy(id, len, buf) => id < c.n && |buf| <= len <= c.msgSize
        case RxElem(_, _, used) => used < IDX
        case RxPublish(_, _, used) => used < IDX
        case _ => true)
  }

  function TxReclaimOne(c: Config, s: State): State
    requires Shaped(c, s) && s.tx.pc.TxReclaim?
  {
    var id := s.sh.usedRing[SlotOf(c, s.tx.lastUsed)].id;
    var tx := if id < c.n && id in s.tx.inflight
              then s.tx.(inflight := s.tx.inflight - {id}, freeCnt := s.tx.freeCnt + 1)
              else s.tx;
    s.(tx := tx.(lastUsed := Wrap(s.tx.lastUsed + 1)),
       h := s.h.(reclaimed := s.h.reclaimed + 1))
  }

  function TxClaim(c: Config, s: State): State
    requires Shaped(c, s) && s.tx.pc.TxReclaim?
  {
    if s.tx.freeCnt == 0 then
      s.(tx := s.tx.(pc := TxIdle), h := s.h.(results := s.h.results + [AgainNoFree]))
    else
      var id := FirstZero(s.tx.inflight, c.n, 0);
      if id >= c.n then
        s.(tx := s.tx.(pc := TxIdle), h := s.h.(results := s.h.results + [AgainNoBit]))
      else
        s.(tx := Tx(TxCopy(s.tx.pc.msg, id, 0), s.tx.inflight + {id}, s.tx.freeCnt - 1, s.tx.lastUsed))
  }

  /** One step of mkring_tx_enqueue. */
  function TxNext(c: Config, s: State): (s': State)
    requires Shaped(c, s)
  {
    match s.tx.pc
    case TxIdle => s
    case TxReadUsed(m) => s.(tx := s.tx.(pc := TxReclaim(m, s.sh.usedIdx)))
    case TxReclaim(m, used) =>
      if s.tx.lastUsed != used then TxReclaimOne(c, s) else TxClaim(c, s)
    case TxCopy(m, id, k) =>
      if k < |m| then
        s.(sh := s.sh.(data := s.sh.data[id := s.sh.data[id][k := m[k]]]),
           tx := s.tx.(pc := TxCopy(m, id, k + 1)))
      else
        s.(sh := s.sh.(len := s.sh.len[id := |m|]), tx := s.tx.(pc := TxReadAvail(m, id)))
    case TxReadAvail(m, id) => s.(tx := s.tx.(pc := TxSlot(m, id, s.sh.availIdx)))
    case TxSlot(m, id, avail) =>
      s.(sh := s.sh.(availRing := s.sh.availRing[SlotOf(c, avail) := id]),
         tx := s.tx.(pc := TxPublish(m, id, avail)))
    case TxPublish(m, id, avail) =>
      s.(sh := s.sh.(availIdx := Wrap(avail + 1)),
         tx := s.tx.(pc := TxIdle),
         h := s.h.(accepted := s.h.accepted + [m], ids := s.h.ids + [id],
                   results := s.h.results + [Accepted]))
  }

  /** One step of mkring_process_rx_queue and of the mkring_rx_enqueue_local it calls. */
  function RxNext(c: Config, s: State, alloc: bool): (s': State)
    requires Shaped(c, s)
  {
    match s.rx.pc
    case RxIdle => s
    case RxReadAvail => s.(rx := s.rx.(pc := RxLoop(s.sh.availIdx)))
    case RxLoop(avail) =>
      if s.rx.lastAvail == avail then s.(rx := s.rx.(pc := RxIdle))
      else s.(rx := s.rx.(pc := RxLen(s.sh.availRing[SlotOf(c, s.rx.lastAvail)])))
    case RxLen(id) =>
      if id < c.n then
        var len := s.sh.len[id];
        s.(rx := s.rx.(pc := RxAlloc(id, if len > c.msgSize then c.msgSize else len)))
      else
        s.(rx := s.rx.(pc := RxReadUsed(id, 0)), h := s.h.(kept := s.h.kept + [false]))
    case RxAlloc(id, len) =>
      if alloc then s.(rx := s.rx.(pc := RxCopy(id, len, [])))
      else s.(rx := s.rx.(pc := RxReadUsed(id, len)), h := s.h.(kept := s.h.kept + [false]))
    case RxCopy(id, len, buf) =>
      if |buf| < len then s.(rx := s.rx.(pc := RxCopy(id, len, buf + [s.sh.data[id][|buf|]])))
      else s.(rx := s.rx.(pc := RxReadUsed(id, len)),
              h := s.h.(kept := s.h.kept + [true], delivered := s.h.delivered + [buf]))
    case RxReadUsed(id, len) => s.(rx := s.rx.(pc := RxElem(id, len, s.sh.usedIdx)))
    case RxElem(id, len, used) =>
      s.(sh := s.sh.(usedRing := s.sh.usedRing[SlotOf(c, used) := UsedElem(id, len)]),
         rx := s.rx.(pc := RxPublish(id, len, used)))
    case RxPublish(id, len, used) =>
      s.(sh := s.sh.(usedIdx := Wrap(used + 1)),
         rx := Rx(RxReadAvail, Wrap(s.rx.lastAvail + 1)),
         h := s.h.(returned := s.h.returned + 1))
  }

  /** Every action is always possible; a caller that finds the lock taken or its message too long changes nothing. */
  function Next(c: Config, s: State, a: Action): (s': State)
    requires Shaped(c, s)
  {
    match a
    case Send(m) =>
      if s.tx.pc.TxIdle? && |m| <= c.msgSize then s.(tx := s.tx.(pc := TxReadUsed(m))) else s
    case TxTick => TxNext(c, s)
    case RxStart => if s.rx.pc.RxIdle? then s.(rx := s.rx.(pc := RxReadAvail)) else s
    case RxTick(alloc) => RxNext(c, s, alloc)
  }

  lemma TxShaped(c: Config, s: State)
    requires Shaped(c, s)
    ensures Shaped(c, TxNext(c, s))
  {
    hide FirstZero, SlotOf;
  }

  lemma RxShaped(c: Config, s: State, alloc: bool)
    requires Shaped(c, s)
    ensures Shaped(c, RxNext(c, s, alloc))
  {
    hide SlotOf;
  }

  lemma ShapedNext(c: Config, s: State, a: Action)
    requires Shaped(c, s)
    ensures Shaped(c, Next(c, s, a))
  {
    match a {
      case TxTick => TxShaped(c, s);
      case RxTick(alloc) => RxShaped(c, s, alloc);
      case _ =>
    }
  }
}
