/**
 Any number of kernels, a ring for every ordered pair of them, and the channel layer at every
 kernel.  A step is a mkct_send entering a ring, one fine-grained step of one ring (the step that
 hands a message over runs the receive callback), or a mkct_recv.
*/
module ChannelSystem {
  import opened Basics
  import opened Channel
  import R = RingQueue
  import I = RingInvariant

  /** `nodes` remembers of every message a ring handed over whether the channel layer could allocate its node. */
  datatype System = System(
    rings: map<(nat, nat), R.State>, ends: map<nat, End>, nodes: map<(nat, nat), seq<bool>>)

  datatype Action =
    | Submit(src: nat, dst: nat, ch: nat, m: Msg)
    | RingStep(src: nat, dst: nat, a: R.Action, node: bool)
    | Receive(dst: nat, ch: nat)

  function Pairs(kernels: nat): (ps: set<(nat, nat)>)
    ensures forall i: nat, j: nat :: (i, j) in ps <==> i < kernels && j < kernels && i != j
  {
    set i: nat, j: nat | i < kernels && j < kernels && i != j :: (i, j)
  }

  function Init(kernels: nat, c: R.Config): System {
    System(map p | p in Pairs(kernels) :: R.Init(c),
           map i: nat | i < kernels :: Started(kernels, i),
           map p | p in Pairs(kernels) :: [])
  }

  ghost predicate EndShaped(kernels: nat, i: nat, e: End) {
    && Opened(e)
    && e.kernels == kernels
    && e.local == i
    && e.handlers == {CONTAINER, STREAM, NET}
  }

  ghost predicate Shaped(kernels: nat, c: R.Config, s: System) {
    && (forall i: nat :: i < kernels ==> i in s.ends && EndShaped(kernels, i, s.ends[i]))
    && (forall p :: p in Pairs(kernels) ==> p in s.rings && p in s.nodes && R.Shaped(c, s.rings[p]))
  }

  /** What the callback of the ring `p` does to the end it runs at: nothing unless a message was handed over. */
  function Handed(e: End, src: nat, before: seq<Msg>, after: seq<Msg>, node: bool): (e': End)
    requires Opened(e)
  {
    if |before| < |after| then DemuxRx(e, src, after[|after| - 1], node) else e
  }

  function RingNext(kernels: nat, c: R.Config, s: System, p: (nat, nat), a: R.Action, node: bool): (s': System)
    requires Shaped(kernels, c, s) && p in Pairs(kernels)
  {
    var r := s.rings[p];
    var r' := R.Next(c, r, a);
    System(s.rings[p := r'],
           s.ends[p.1 := Handed(s.ends[p.1], p.0, r.h.delivered, r'.h.delivered, node)],
           if |r.h.delivered| < |r'.h.delivered| then s.nodes[p := s.nodes[p] + [node]] else s.nodes)
  }

  function SubmitNext(kernels: nat, c: R.Config, s: System, src: nat, dst: nat, ch: nat, m: Msg): (s': System)
    requires Shaped(kernels, c, s)
  {
    if src < kernels && CheckSend(s.ends[src], dst, ch, m).Pass?
    then s.(rings := s.rings[(src, dst) := R.Next(c, s.rings[(src, dst)], R.Send(m))])
    else s
  }

  function ReceiveNext(kernels: nat, c: R.Config, s: System, dst: nat, ch: nat): (s': System)
    requires Shaped(kernels, c, s)
  {
    if dst < kernels && Supported(ch) then s.(ends := s.ends[dst := PopMessage(s.ends[dst], ch).1]) else s
  }

  function Next(kernels: nat, c: R.Config, s: System, a: Action): (s': System)
    requires Shaped(kernels, c, s)
  {
    match a
    case Submit(src, dst, ch, m) => SubmitNext(kernels, c, s, src, dst, ch, m)
    case RingStep(src, dst, ra, node) =>
      if (src, dst) in Pairs(kernels) && !ra.Send? then RingNext(kernels, c, s, (src, dst), ra, node) else s
    case Receive(dst, ch) => ReceiveNext(kernels, c, s, dst, ch)
  }

  // Views of a queue and of a ring's history.

  /** The messages of one source in a list of nodes. */
  function FromPeer(ns: seq<Node>, src: nat): (r: seq<Msg>) {
    if ns == [] then []
    else
      var i := |ns| - 1;
      FromPeer(ns[..i], src) + (if ns[i].peer == src then [ns[i].m] else [])
  }

  /** The messages of one channel. */
  function OnChannel(ms: seq<Msg>, ch: nat): (r: seq<Msg>) {
    if ms == [] then []
    else
      var i := |ms| - 1;
      OnChannel(ms[..i], ch) + (if ChannelOf(ms[i]) == ch then [ms[i]] else [])
  }

  lemma FromPeerAppend(ns: seq<Node>, n: Node, src: nat)
    ensures FromPeer(ns + [n], src) == FromPeer(ns, src) + (if n.peer == src then [n.m] else [])
  {
    assert (ns + [n])[..|ns|] == ns;
  }

  lemma OnChannelAppend(ms: seq<Msg>, m: Msg, ch: nat)
    ensures OnChannel(ms + [m], ch) == OnChannel(ms, ch) + (if ChannelOf(m) == ch then [m] else [])
  {
    assert (ms + [m])[..|ms|] == ms;
  }

  lemma {:induction false} FromPeerPrefix(a: seq<Node>, b: seq<Node>, src: nat)
    ensures FromPeer(a, src) <= FromPeer(a + b, src)
    decreases |b|
  {
    if b == [] {
      assert a + b == a;
    } else {
      var i := |b| - 1;
      FromPeerPrefix(a, b[..i], src);
      assert a + b == (a + b[..i]) + [b[i]];
      FromPeerAppend(a + b[..i], b[i], src);
    }
  }

  lemma {:induction false} OnChannelPrefix(a: seq<Msg>, b: seq<Msg>, ch: nat)
    ensures OnChannel(a, ch) <= OnChannel(a + b, ch)
    decreases |b|
  {
    if b == [] {
      assert a + b == a;
    } else {
      var i := |b| - 1;
      OnChannelPrefix(a, b[..i], ch);
      assert a + b == (a + b[..i]) + [b[i]];
      OnChannelAppend(a + b[..i], b[i], ch);
    }
  }

  lemma {:induction false} KeptAll(ms: seq<Msg>, flags: seq<bool>)
    requires |flags| <= |ms| && forall i :: 0 <= i < |flags| ==> flags[i]
    ensures I.Kept(ms, flags) == ms[..|flags|]
    decreases |flags|
  {
    if flags != [] {
      KeptAll(ms, flags[..|flags| - 1]);
    }
  }

  lemma {:induction false} KeptMember(ms: seq<Msg>, flags: seq<bool>)
    requires |flags| <= |ms|
    ensures forall m :: m in I.Kept(ms, flags) ==> m in ms
    decreases |flags|
  {
    if flags != [] {
      KeptMember(ms, flags[..|flags| - 1]);
    }
  }

  // The invariant.

  ghost predicate AllValid(ms: seq<Msg>) {
    forall m :: m in ms ==> ValidMessage(m)
  }

  /** Everything a ring accepted, or is in the middle of accepting, passed the checks of mkct_send. */
  ghost predicate CarriesValid(r: R.State) {
    AllValid(r.h.accepted) && (!r.tx.pc.TxIdle? ==> ValidMessage(r.tx.pc.msg))
  }

  ghost predicate NodesOk(kernels: nat, i: nat, ch: nat, ns: seq<Node>) {
    forall n :: n in ns ==> n.peer < kernels && n.peer != i && ValidMessage(n.m) && ChannelOf(n.m) == ch
  }

  function Log(e: End, ch: nat): seq<Node>
    requires Opened(e) && Supported(ch)
  {
    e.got[ch] + e.queues[ch]
  }

  ghost predicate EndOk(kernels: nat, i: nat, e: End) {
    && EndShaped(kernels, i, e)
    && PendingExact(e)
    && (forall ch :: Supported(ch) ==> NodesOk(kernels, i, ch, Log(e, ch)))
  }

  /** What an end received from `src` on each channel is what the ring handed over, less failed allocations. */
  ghost predicate Matches(e: End, src: nat, delivered: seq<Msg>, flags: seq<bool>) {
    && Opened(e)
    && |flags| == |delivered|
    && forall ch :: Supported(ch) ==> FromPeer(Log(e, ch), src) == OnChannel(I.Kept(delivered, flags), ch)
  }

  ghost predicate Inv(kernels: nat, c: R.Config, s: System) {
    && (forall i: nat :: i < kernels ==> i in s.ends && EndOk(kernels, i, s.ends[i]))
    && (forall p :: p in Pairs(kernels) ==> p in s.rings && p in s.nodes)
    && (forall p :: p in Pairs(kernels) ==> I.Inv(c, s.rings[p]) && CarriesValid(s.rings[p]))
    && (forall p :: p in Pairs(kernels) ==> Matches(s.ends[p.1], p.0, s.rings[p].h.delivered, s.nodes[p]))
  }

  /** What holds whatever the rings hand over: every access is in bounds and every queue is well formed. */
  ghost predicate Sound(kernels: nat, c: R.Config, s: System) {
    && Shaped(kernels, c, s)
    && (forall i: nat :: i < kernels ==> EndOk(kernels, i, s.ends[i]))
  }

  lemma InvShaped(kernels: nat, c: R.Config, s: System)
    requires Inv(kernels, c, s)
    ensures Shaped(kernels, c, s)
  {
    hide R.Shaped;
  }

  // One ring step.

  lemma HandsAtMostOne(c: R.Config, r: R.State, a: R.Action)
    requires R.Shaped(c, r)
    ensures var d, d' := r.h.delivered, R.Next(c, r, a).h.delivered;
      if |d| < |d'| then d' == d + [d'[|d'| - 1]] else d' == d
  {
  }

  lemma CarriesNext(c: R.Config, r: R.State, a: R.Action)
    requires R.Shaped(c, r) && CarriesValid(r)
    requires a.Send? ==> ValidMessage(a.msg)
    ensures CarriesValid(R.Next(c, r, a))
  {
    hide ValidMessage;
    var r' := R.Next(c, r, a);
    if r.tx.pc.TxPublish? && a.TxTick? {
      assert r'.h.accepted == r.h.accepted + [r.tx.pc.msg];
    } else {
      assert r'.h.accepted == r.h.accepted;
    }
  }

  lemma DeliveredValid(c: R.Config, r: R.State)
    requires I.Inv(c, r) && CarriesValid(r)
    ensures AllValid(r.h.delivered)
  {
    KeptMember(r.h.accepted, r.h.kept);
  }

  /** The end after the callback ran on a message that came through the ring of `src`. */
  lemma HandedKeeps(kernels: nat, i: nat, e: End, src: nat, m: Msg, node: bool)
    requires EndOk(kernels, i, e) && src < kernels && src != i && ValidMessage(m)
    ensures var e' := DemuxRx(e, src, m, node);
      && EndOk(kernels, i, e')
      && forall ch :: Supported(ch) ==>
           Log(e', ch) == Log(e, ch) + (if node && ChannelOf(m) == ch then [Node(src, m)] else [])
  {
    var e' := DemuxRx(e, src, m, node);
    AcceptedIsQueued(e, src, m, node);
    hide ValidMessage, DemuxRx, PendingExact;
    forall ch | Supported(ch)
      ensures Log(e', ch) == Log(e, ch) + (if node && ChannelOf(m) == ch then [Node(src, m)] else [])
      ensures NodesOk(kernels, i, ch, Log(e', ch))
    {
      assert NodesOk(kernels, i, ch, Log(e, ch));
    }
  }

  lemma MatchesHanded(e: End, e': End, src: nat, m: Msg, node: bool, x: nat, d: seq<Msg>, flags: seq<bool>)
    requires Opened(e) && Opened(e') && Matches(e, x, d, flags)
    requires forall ch :: Supported(ch) ==>
      Log(e', ch) == Log(e, ch) + (if node && ChannelOf(m) == ch then [Node(src, m)] else [])
    ensures if x == src then Matches(e', x, d + [m], flags + [node]) else Matches(e', x, d, flags)
  {
    forall ch | Supported(ch)
      ensures FromPeer(Log(e', ch), x)
           == FromPeer(Log(e, ch), x) + (if node && ChannelOf(m) == ch && x == src then [m] else [])
    {
      if node && ChannelOf(m) == ch {
        FromPeerAppend(Log(e, ch), Node(src, m), x);
      } else {
        assert Log(e', ch) == Log(e, ch);
      }
    }
    I.KeptIgnoresTail(d, m, flags);
    I.KeptAppend(d + [m], flags, node);
    assert I.Kept(d + [m], flags + [node]) == if node then I.Kept(d, flags) + [m] else I.Kept(d, flags);
    forall ch | Supported(ch) && x == src
      ensures FromPeer(Log(e', ch), x) == OnChannel(I.Kept(d + [m], flags + [node]), ch)
    {
      OnChannelAppend(I.Kept(d, flags), m, ch);
    }
  }

  /** The callback's own checks keep the end well formed whatever message comes from another kernel. */
  lemma EndStep(kernels: nat, i: nat, e: End, src: nat, d: seq<Msg>, d': seq<Msg>, node: bool)
    requires EndOk(kernels, i, e) && src < kernels && src != i
    ensures EndOk(kernels, i, Handed(e, src, d, d', node))
  {
    if |d| < |d'| && ValidMessage(d'[|d'| - 1]) {
      hide ValidMessage, EndOk, DemuxRx;
      HandedKeeps(kernels, i, e, src, d'[|d'| - 1], node);
    }
  }

  lemma PairStep(kernels: nat, i: nat, e: End, src: nat, d: seq<Msg>, d': seq<Msg>, node: bool,
                 x: nat, dx: seq<Msg>, flags: seq<bool>)
    requires EndOk(kernels, i, e) && src < kernels && src != i
    requires if |d| < |d'| then d' == d + [d'[|d'| - 1]] else d' == d
    requires AllValid(d')
    requires Matches(e, x, dx, flags) && (x == src ==> dx == d)
    ensures EndOk(kernels, i, Handed(e, src, d, d', node))
    ensures Matches(Handed(e, src, d, d', node), x, if x == src then d' else dx,
                    if x == src && |d| < |d'| then flags + [node] else flags)
  {
    EndStep(kernels, i, e, src, d, d', node);
    if |d| < |d'| {
      var m := d'[|d'| - 1];
      assert m in d';
      HandedKeeps(kernels, i, e, src, m, node);
      hide ValidMessage, EndOk, DemuxRx, Matches;
      MatchesHanded(e, DemuxRx(e, src, m, node), src, m, node, x, dx, flags);
    }
  }

  lemma RingKeeps(c: R.Config, r: R.State, a: R.Action)
    requires I.Inv(c, r) && CarriesValid(r) && I.Divides(c)
    requires a.Send? ==> ValidMessage(a.msg)
    ensures I.Inv(c, R.Next(c, r, a)) && CarriesValid(R.Next(c, r, a)) && AllValid(R.Next(c, r, a).h.delivered)
    ensures var d, d' := r.h.delivered, R.Next(c, r, a).h.delivered;
      if |d| < |d'| then d' == d + [d'[|d'| - 1]] else d' == d
  {
    assert R.Shaped(c, r);
    hide R.Shaped, R.Next, I.Inv, CarriesValid, ValidMessage, I.Divides;
    I.NextKeeps(c, r, a);
    CarriesNext(c, r, a);
    DeliveredValid(c, R.Next(c, r, a));
    HandsAtMostOne(c, r, a);
  }

  lemma RingNextKeeps(kernels: nat, c: R.Config, s: System, p: (nat, nat), a: R.Action, node: bool)
    requires Shaped(kernels, c, s) && Inv(kernels, c, s) && I.Divides(c) && p in Pairs(kernels) && !a.Send?
    ensures Inv(kernels, c, RingNext(kernels, c, s, p, a, node))
  {
    hide R.Shaped, R.Next, I.Inv, CarriesValid, EndOk, Matches, AllValid, Handed, I.Divides, EndShaped, Opened;
    var s' := RingNext(kernels, c, s, p, a, node);
    var d, d' := s.rings[p].h.delivered, R.Next(c, s.rings[p], a).h.delivered;
    RingKeeps(c, s.rings[p], a);
    EndStep(kernels, p.1, s.ends[p.1], p.0, d, d', node);
    forall q | q in Pairs(kernels)
      ensures I.Inv(c, s'.rings[q]) && CarriesValid(s'.rings[q])
      ensures Matches(s'.ends[q.1], q.0, s'.rings[q].h.delivered, s'.nodes[q])
    {
      if q.1 == p.1 {
        PairStep(kernels, p.1, s.ends[p.1], p.0, d, d', node, q.0, s.rings[q].h.delivered, s.nodes[q]);
        assert q.0 == p.0 ==> q == p;
      }
    }
  }

  lemma SubmitKeeps(kernels: nat, c: R.Config, s: System, src: nat, dst: nat, ch: nat, m: Msg)
    requires Shaped(kernels, c, s) && Inv(kernels, c, s) && I.Divides(c)
    ensures Inv(kernels, c, SubmitNext(kernels, c, s, src, dst, ch, m))
  {
    hide R.Shaped, I.Inv, CarriesValid, EndOk, Matches, AllValid, I.Divides, Opened, ValidMessage, CheckSend;
    if src < kernels && CheckSend(s.ends[src], dst, ch, m).Pass? {
      assert (src, dst) in Pairs(kernels);
      var r := s.rings[(src, dst)];
      assert R.Next(c, r, R.Send(m)).h == r.h;
      hide R.Next;
      RingKeeps(c, r, R.Send(m));
    }
  }

  lemma PopMatches(e: End, ch: nat, src: nat, d: seq<Msg>, flags: seq<bool>)
    requires PendingExact(e) && Supported(ch) && Matches(e, src, d, flags)
    ensures Matches(PopMessage(e, ch).1, src, d, flags)
  {
    PopKeeps(e, ch);
  }

  lemma PopEndOk(kernels: nat, i: nat, e: End, ch: nat)
    requires EndOk(kernels, i, e) && Supported(ch)
    ensures EndOk(kernels, i, PopMessage(e, ch).1)
  {
    PopKeeps(e, ch);
    var e' := PopMessage(e, ch).1;
    forall x | Supported(x)
      ensures NodesOk(kernels, i, x, Log(e', x))
    {
      assert NodesOk(kernels, i, x, Log(e, x));
      assert Log(e', x) == Log(e, x);
    }
  }

  lemma ReceiveKeeps(kernels: nat, c: R.Config, s: System, dst: nat, ch: nat)
    requires Shaped(kernels, c, s) && Inv(kernels, c, s)
    ensures Inv(kernels, c, ReceiveNext(kernels, c, s, dst, ch))
  {
    if !(dst < kernels && Supported(ch)) {
      return;
    }
    assert EndOk(kernels, dst, s.ends[dst]);
    assert PendingExact(s.ends[dst]);
    hide R.Shaped, I.Inv, CarriesValid, EndOk, Matches, PopMessage, PendingExact, EndShaped, Opened;
    PopEndOk(kernels, dst, s.ends[dst], ch);
    forall q | q in Pairs(kernels) && q.1 == dst
      ensures Matches(PopMessage(s.ends[dst], ch).1, q.0, s.rings[q].h.delivered, s.nodes[q])
    {
      PopMatches(s.ends[dst], ch, q.0, s.rings[q].h.delivered, s.nodes[q]);
    }
  }

  lemma RingNextSound(kernels: nat, c: R.Config, s: System, p: (nat, nat), a: R.Action, node: bool)
    requires Sound(kernels, c, s) && p in Pairs(kernels)
    ensures Sound(kernels, c, RingNext(kernels, c, s, p, a, node))
  {
    hide R.Shaped, R.Next, NodesOk, PendingExact, Handed, Opened;
    R.ShapedNext(c, s.rings[p], a);
    var d, d' := s.rings[p].h.delivered, R.Next(c, s.rings[p], a).h.delivered;
    EndStep(kernels, p.1, s.ends[p.1], p.0, d, d', node);
  }

  lemma SubmitSound(kernels: nat, c: R.Config, s: System, src: nat, dst: nat, ch: nat, m: Msg)
    requires Sound(kernels, c, s)
    ensures Sound(kernels, c, SubmitNext(kernels, c, s, src, dst, ch, m))
  {
    hide R.Shaped, R.Next, EndOk, ValidMessage, Opened;
    if src < kernels && CheckSend(s.ends[src], dst, ch, m).Pass? {
      assert (src, dst) in Pairs(kernels);
      R.ShapedNext(c, s.rings[(src, dst)], R.Send(m));
    }
  }

  lemma ReceiveSound(kernels: nat, c: R.Config, s: System, dst: nat, ch: nat)
    requires Sound(kernels, c, s)
    ensures Sound(kernels, c, ReceiveNext(kernels, c, s, dst, ch))
  {
    hide R.Shaped, NodesOk, PendingExact, PopMessage, Opened;
    if dst < kernels && Supported(ch) {
      PopEndOk(kernels, dst, s.ends[dst], ch);
    }
  }

  lemma NextSound(kernels: nat, c: R.Config, s: System, a: Action)
    requires Sound(kernels, c, s)
    ensures Sound(kernels, c, Next(kernels, c, s, a))
  {
    assert Shaped(kernels, c, s);
    hide Sound, Shaped, SubmitNext, ReceiveNext, RingNext;
    match a {
      case Submit(src, dst, ch, m) => SubmitSound(kernels, c, s, src, dst, ch, m);
      case RingStep(src, dst, ra, node) =>
        if (src, dst) in Pairs(kernels) && !ra.Send? {
          RingNextSound(kernels, c, s, (src, dst), ra, node);
        }
      case Receive(dst, ch) => ReceiveSound(kernels, c, s, dst, ch);
    }
  }

  lemma NextKeeps(kernels: nat, c: R.Config, s: System, a: Action)
    requires Shaped(kernels, c, s) && Inv(kernels, c, s) && I.Divides(c)
    ensures Inv(kernels, c, Next(kernels, c, s, a)) && Shaped(kernels, c, Next(kernels, c, s, a))
  {
    hide Inv, Shaped, SubmitNext, ReceiveNext, RingNext, I.Divides;
    match a {
      case Submit(src, dst, ch, m) => SubmitKeeps(kernels, c, s, src, dst, ch, m);
      case RingStep(src, dst, ra, node) =>
        if (src, dst) in Pairs(kernels) && !ra.Send? {
          RingNextKeeps(kernels, c, s, (src, dst), ra, node);
        }
      case Receive(dst, ch) => ReceiveKeeps(kernels, c, s, dst, ch);
    }
    InvShaped(kernels, c, Next(kernels, c, s, a));
  }

  lemma StartedOk(kernels: nat, i: nat, src: nat)
    ensures EndOk(kernels, i, Started(kernels, i)) && Matches(Started(kernels, i), src, [], [])
  {
  }

  lemma InitInv(kernels: nat, c: R.Config)
    requires R.ValidConfig(c)
    ensures Inv(kernels, c, Init(kernels, c)) && Shaped(kernels, c, Init(kernels, c))
  {
    I.InitInv(c);
    assert CarriesValid(R.Init(c)) && R.Init(c).h.delivered == [];
    hide I.Inv, R.Shaped, EndOk, Matches, Started, R.Init, CarriesValid, Shaped;
    var s := Init(kernels, c);
    forall i: nat | i < kernels
      ensures EndOk(kernels, i, s.ends[i])
    {
      StartedOk(kernels, i, i);
    }
    forall p | p in Pairs(kernels)
      ensures Matches(s.ends[p.1], p.0, s.rings[p].h.delivered, s.nodes[p])
    {
      StartedOk(kernels, p.1, p.0);
    }
    InvShaped(kernels, c, Init(kernels, c));
  }

  ghost function Exec(kernels: nat, c: R.Config, acts: seq<Action>): (s: System)
    requires R.ValidConfig(c)
    ensures Sound(kernels, c, s) && Shaped(kernels, c, s)
  {
    hide Shaped, Next, EndOk, I.Inv, CarriesValid, Matches;
    if acts == [] then
      InitInv(kernels, c);
      Init(kernels, c)
    else
      var i := |acts| - 1;
      var s := Exec(kernels, c, acts[..i]);
      NextSound(kernels, c, s, acts[i]);
      Next(kernels, c, s, acts[i])
  }

  lemma {:induction false} ExecInv(kernels: nat, c: R.Config, acts: seq<Action>)
    requires R.ValidConfig(c) && I.Divides(c)
    ensures Inv(kernels, c, Exec(kernels, c, acts))
    decreases |acts|
  {
    hide Inv, Sound, Shaped, I.Divides, Next;
    if acts == [] {
      InitInv(kernels, c);
    } else {
      var i := |acts| - 1;
      ExecInv(kernels, c, acts[..i]);
      NextKeeps(kernels, c, Exec(kernels, c, acts[..i]), acts[i]);
    }
  }

  // The end-to-end statements.

  /**
   In every run, what mkct_recv returned from `src` on a channel, followed by what is still queued
   there, is exactly what the ring accepted from `src` for that channel, in order and byte for byte,
   less the messages lost to a failed allocation.
  */
  lemma EndToEnd(kernels: nat, c: R.Config, acts: seq<Action>, src: nat, dst: nat, ch: nat)
    requires R.ValidConfig(c) && I.Divides(c)
    requires src < kernels && dst < kernels && src != dst && Supported(ch)
    ensures var s := Exec(kernels, c, acts);
      var h, e, flags := s.rings[(src, dst)].h, s.ends[dst], s.nodes[(src, dst)];
      && |h.kept| <= |h.accepted| && |flags| == |I.Kept(h.accepted, h.kept)|
      && FromPeer(e.got[ch] + e.queues[ch], src) == OnChannel(I.Kept(I.Kept(h.accepted, h.kept), flags), ch)
      && FromPeer(e.got[ch], src) <= FromPeer(e.got[ch] + e.queues[ch], src)
  {
    var s := Exec(kernels, c, acts);
    ExecInv(kernels, c, acts);
    assert (src, dst) in Pairs(kernels);
    assert I.Inv(c, s.rings[(src, dst)]);
    assert Matches(s.ends[dst], src, s.rings[(src, dst)].h.delivered, s.nodes[(src, dst)]);
    assert Log(s.ends[dst], ch) == s.ends[dst].got[ch] + s.ends[dst].queues[ch];
    FromPeerPrefix(s.ends[dst].got[ch], s.ends[dst].queues[ch], src);
  }

  lemma NothingLost(accepted: seq<Msg>, kept: seq<bool>, flags: seq<bool>, ch: nat)
    requires |kept| <= |accepted| && false !in kept && false !in flags
    requires |flags| == |I.Kept(accepted, kept)|
    ensures OnChannel(I.Kept(I.Kept(accepted, kept), flags), ch) == OnChannel(accepted[..|kept|], ch)
    ensures OnChannel(accepted[..|kept|], ch) <= OnChannel(accepted, ch)
  {
    hide I.Kept, OnChannel;
    assert forall i :: 0 <= i < |kept| ==> kept[i] in kept;
    assert forall i :: 0 <= i < |flags| ==> flags[i] in flags;
    KeptAll(accepted, kept);
    KeptAll(accepted[..|kept|], flags);
    assert accepted[..|kept|][..|flags|] == accepted[..|kept|];
    OnChannelPrefix(accepted[..|kept|], accepted[|kept|..], ch);
    assert accepted[..|kept|] + accepted[|kept|..] == accepted;
  }

  /** With no failed allocation nothing is lost: every accepted message the receiver has got to arrives. */
  lemma Lossless(kernels: nat, c: R.Config, acts: seq<Action>, src: nat, dst: nat, ch: nat)
    requires R.ValidConfig(c) && I.Divides(c)
    requires src < kernels && dst < kernels && src != dst && Supported(ch)
    ensures var s := Exec(kernels, c, acts);
      var h, e := s.rings[(src, dst)].h, s.ends[dst];
      false !in h.kept && false !in s.nodes[(src, dst)] ==>
        && |h.kept| <= |h.accepted|
        && FromPeer(e.got[ch] + e.queues[ch], src) == OnChannel(h.accepted[..|h.kept|], ch)
        && FromPeer(e.got[ch], src) <= OnChannel(h.accepted, ch)
  {
    EndToEnd(kernels, c, acts, src, dst, ch);
    hide Exec, Sound, Shaped, FromPeer;
    var s := Exec(kernels, c, acts);
    var h := s.rings[(src, dst)].h;
    if false !in h.kept && false !in s.nodes[(src, dst)] {
      NothingLost(h.accepted, h.kept, s.nodes[(src, dst)], ch);
    }
  }

  /**
   In every run, for every desc_num mkring_init accepts, each queue holds only messages of its own
   channel from other kernels, and pending is its length.
  */
  lemma QueuesWellFormed(kernels: nat, c: R.Config, acts: seq<Action>, dst: nat, ch: nat)
    requires R.ValidConfig(c) && dst < kernels && Supported(ch)
    ensures var e := Exec(kernels, c, acts).ends[dst];
      && e.pending[ch] == |e.queues[ch]|
      && forall n :: n in e.got[ch] + e.queues[ch] ==>
           n.peer < kernels && n.peer != dst && ValidMessage(n.m) && ChannelOf(n.m) == ch
  {
    var e := Exec(kernels, c, acts).ends[dst];
    assert EndOk(kernels, dst, e);
    assert NodesOk(kernels, dst, ch, Log(e, ch));
  }
}
