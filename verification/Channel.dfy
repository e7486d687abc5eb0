/**
 The channel layer over the rings: the transport syscall's send and receive, the demultiplexer
 between a ring's receive path and the channel handlers, and the per-channel queues.
*/
module Channel {
  import opened Basics

  type Msg = seq<byte>

  const MAX_MESSAGE := 1024
  const PREFIX := 6
  const CONTAINER := 1
  const STREAM := 3
  const NET := 4

  /** The 32-bit little-endian magic 0x4d4b434e, the version byte and the channel byte every message starts with. */
  predicate HasPrefix(m: Msg) {
    |m| >= PREFIX && m[..4] == [0x4e, 0x43, 0x4b, 0x4d] && m[4] == 1
  }

  function ChannelOf(m: Msg): (ch: nat) {
    if |m| >= PREFIX then m[5] else 0
  }

  predicate Supported(ch: nat) {
    ch == CONTAINER || ch == STREAM || ch == NET
  }

  /** mkct_valid_message. */
  predicate ValidMessage(m: Msg) {
    |m| <= MAX_MESSAGE && HasPrefix(m) && Supported(ChannelOf(m))
  }

  datatype Node = Node(peer: nat, m: Msg)

  /**
   One kernel's end: its id and the number of kernels, the channels with a registered handler, the
   queues with their pending counts, and the counters.  `got` is what mkct_recv has returned so far.
  */
  datatype End = End(
    kernels: nat, local: nat, handlers: set<nat>,
    queues: map<nat, seq<Node>>, pending: map<nat, int>,
    rxOk: nat, rxBad: nat, got: map<nat, seq<Node>>)

  function Started(kernels: nat, local: nat): (e: End) {
    End(kernels, local, {CONTAINER, STREAM, NET},
        map[CONTAINER := [], STREAM := [], NET := []], map[CONTAINER := 0, STREAM := 0, NET := 0],
        0, 0, map[CONTAINER := [], STREAM := [], NET := []])
  }

  predicate ValidPeer(e: End, peer: nat) {
    peer < e.kernels && peer != e.local
  }

  ghost predicate Opened(e: End) {
    forall ch :: Supported(ch) ==> ch in e.queues && ch in e.pending && ch in e.got
  }

  /** Every pending count is the length of its queue. */
  ghost predicate PendingExact(e: End) {
    Opened(e) && forall ch :: Supported(ch) ==> e.pending[ch] == |e.queues[ch]|
  }

  function QueueMessage(e: End, ch: nat, n: Node): (r: End)
    requires Opened(e) && Supported(ch)
  {
    e.(queues := e.queues[ch := e.queues[ch] + [n]], pending := e.pending[ch := e.pending[ch] + 1])
  }

  /** mkct_demux_rx: the handler registered for all three channels. */
  function HandlerRx(e: End, src: nat, m: Msg, alloc: bool): (r: End)
    requires Opened(e)
  {
    if !ValidPeer(e, src) || !ValidMessage(m) then e.(rxBad := e.rxBad + 1)
    else if !alloc then e.(rxBad := e.rxBad + 1)
    else QueueMessage(e.(rxOk := e.rxOk + 1), ChannelOf(m), Node(src, m))
  }

  /** mkring_demux_rx_cb: what the ring's receive path calls with every message it takes out. */
  function DemuxRx(e: End, src: nat, m: Msg, alloc: bool): (r: End)
    requires Opened(e)
  {
    if !HasPrefix(m) || ChannelOf(m) == 0 || !ValidPeer(e, src) then e
    else if ChannelOf(m) !in e.handlers then e
    else if !ValidMessage(m) then e
    else HandlerRx(e, src, m, alloc)
  }

  /** mkct_recv on a channel whose wait is over. */
  function PopMessage(e: End, ch: nat): (r: (Option<Node>, End))
    requires Opened(e) && Supported(ch)
  {
    if e.queues[ch] == [] then (None, e)
    else
      var n := e.queues[ch][0];
      (Some(n), e.(queues := e.queues[ch := e.queues[ch][1..]], pending := e.pending[ch := e.pending[ch] - 1],
                   got := e.got[ch := e.got[ch] + [n]]))
  }

  datatype SendCheck = Pass | Invalid | BadSize | BadProto

  /** The checks of mkct_send, in the source's order. */
  function CheckSend(e: End, dst: nat, ch: nat, m: Msg): (r: SendCheck)
    ensures r.Pass? <==> ValidPeer(e, dst) && ValidMessage(m) && ch == ChannelOf(m)
    ensures r.BadSize? <==> ValidPeer(e, dst) && Supported(ch) && !(0 < |m| <= MAX_MESSAGE)
    ensures r.BadProto? <==> ValidPeer(e, dst) && Supported(ch) && 0 < |m| <= MAX_MESSAGE && !ValidMessage(m)
  {
    if !ValidPeer(e, dst) then Invalid
    else if !Supported(ch) then Invalid
    else if |m| == 0 || |m| > MAX_MESSAGE then BadSize
    else if !ValidMessage(m) then BadProto
    else if ChannelOf(m) != ch then Invalid
    else Pass
  }

  /** What one end lets through, an end that is started always takes in: the receiver's checks are implied. */
  lemma AcceptedIsQueued(e: End, src: nat, m: Msg, alloc: bool)
    requires PendingExact(e) && ValidPeer(e, src) && ValidMessage(m)
    requires e.handlers == {CONTAINER, STREAM, NET}
    ensures var e' := DemuxRx(e, src, m, alloc);
      && PendingExact(e') && e'.handlers == e.handlers && e'.got == e.got
      && e'.kernels == e.kernels && e'.local == e.local
      && (if alloc
          then e'.queues == e.queues[ChannelOf(m) := e.queues[ChannelOf(m)] + [Node(src, m)]]
               && e'.rxOk == e.rxOk + 1 && e'.rxBad == e.rxBad
          else e'.queues == e.queues && e'.rxOk == e.rxOk && e'.rxBad == e.rxBad + 1)
  {
  }

  /** Anything else, or a channel without a handler, is ignored: nothing is queued and nothing is counted. */
  lemma RefusedIsIgnored(e: End, src: nat, m: Msg, alloc: bool)
    requires Opened(e) && !(ValidPeer(e, src) && ValidMessage(m) && ChannelOf(m) in e.handlers)
    ensures DemuxRx(e, src, m, alloc) == e
  {
  }

  /** mkct_recv returns the oldest message of the channel, if there is one, and that one leaves the queue. */
  lemma PopHead(e: End, ch: nat)
    requires Opened(e) && Supported(ch)
    ensures var (n, e') := PopMessage(e, ch);
      && (n.None? <==> e.queues[ch] == [])
      && (n.None? ==> e' == e)
      && (n.Some? ==>
            && Opened(e')
            && e.queues[ch] == [n.value] + e'.queues[ch] && e'.got[ch] == e.got[ch] + [n.value]
            && (forall c :: Supported(c) && c != ch ==> e'.queues[c] == e.queues[c] && e'.got[c] == e.got[c]))
  {
    if e.queues[ch] != [] {
      assert e.queues[ch] == [e.queues[ch][0]] + e.queues[ch][1..];
    }
  }

  lemma PopKeeps(e: End, ch: nat)
    requires PendingExact(e) && Supported(ch)
    ensures var e' := PopMessage(e, ch).1;
      PendingExact(e') && forall c :: Supported(c) ==> e'.got[c] + e'.queues[c] == e.got[c] + e.queues[c]
  {
    var e' := PopMessage(e, ch).1;
    if e.queues[ch] != [] {
      assert e.queues[ch] == [e.queues[ch][0]] + e.queues[ch][1..];
      assert e'.got[ch] + e'.queues[ch] == e.got[ch] + e.queues[ch];
    }
  }

  // The state as the two source files keep it.

  class Transport {
    const kernels: nat
    const local: nat
    var handlers: set<nat>
    var queues: map<nat, seq<Node>>
    var pending: map<nat, int>
    var rxOk: nat
    var rxBad: nat
    ghost var got: map<nat, seq<Node>>

    ghost function View(): End
      reads this
    {
      End(kernels, local, handlers, queues, pending, rxOk, rxBad, got)
    }

    /** Queues initialised, no handler registered yet. */
    constructor (kernels: nat, local: nat)
      ensures View() == Started(kernels, local).(handlers := {}) && PendingExact(View())
    {
      this.kernels, this.local := kernels, local;
      handlers := {};
      queues := map[CONTAINER := [], STREAM := [], NET := []];
      pending := map[CONTAINER := 0, STREAM := 0, NET := 0];
      rxOk, rxBad := 0, 0;
      got := map[CONTAINER := [], STREAM := [], NET := []];
    }

    /** mkring_demux_register_channel: refused for channel 0 and for a channel already taken. */
    method RegisterChannel(ch: nat) returns (ok: bool)
      modifies this`handlers
      ensures ok <==> ch != 0 && ch !in old(handlers)
      ensures handlers == if ok then old(handlers) + {ch} else old(handlers)
    {
      if ch == 0 || ch in handlers {
        return false;
      }
      handlers := handlers + {ch};
      return true;
    }

    method UnregisterChannel(ch: nat)
      modifies this`handlers
      ensures handlers == if ch == 0 then old(handlers) else old(handlers) - {ch}
    {
      if ch == 0 {
        return;
      }
      handlers := handlers - {ch};
    }

    /** mkct_register_demux: all three channels or none; a failure leaves the table as it was. */
    method RegisterDemux() returns (ok: bool)
      modifies this`handlers
      ensures ok <==> old(handlers) !! {CONTAINER, STREAM, NET}
      ensures handlers == if ok then old(handlers) + {CONTAINER, STREAM, NET} else old(handlers)
    {
      ok := RegisterChannel(CONTAINER);
      if !ok {
        return;
      }
      ok := RegisterChannel(STREAM);
      if !ok {
        UnregisterChannel(CONTAINER);
        return;
      }
      ok := RegisterChannel(NET);
      if !ok {
        UnregisterChannel(STREAM);
        UnregisterChannel(CONTAINER);
        return;
      }
    }

    method Deliver(src: nat, m: Msg, alloc: bool)
      requires Opened(View())
      modifies this`queues, this`pending, this`rxOk, this`rxBad
      ensures View() == DemuxRx(old(View()), src, m, alloc)
    {
      if !HasPrefix(m) || ChannelOf(m) == 0 || !(src < kernels && src != local) {
        return;
      }
      if ChannelOf(m) !in handlers || !ValidMessage(m) {
        return;
      }
      if !alloc {
        rxBad := rxBad + 1;
        return;
      }
      rxOk := rxOk + 1;
      var ch := ChannelOf(m);
      queues := queues[ch := queues[ch] + [Node(src, m)]];
      pending := pending[ch := pending[ch] + 1];
    }

    method Receive(ch: nat) returns (n: Option<Node>)
      requires Opened(View()) && Supported(ch)
      modifies this`queues, this`pending, this`got
      ensures (n, View()) == PopMessage(old(View()), ch)
      ensures n.None? <==> old(queues[ch]) == []
      ensures n.None? ==> queues == old(queues) && got == old(got)
      ensures n.Some? ==> old(queues[ch]) == [n.value] + queues[ch] && got[ch] == old(got[ch]) + [n.value]
    {
      PopHead(View(), ch);
      if queues[ch] == [] {
        return None;
      }
      n := Some(queues[ch][0]);
      got := got[ch := got[ch] + [queues[ch][0]]];
      queues := queues[ch := queues[ch][1..]];
      pending := pending[ch := pending[ch] - 1];
    }
  }
}
