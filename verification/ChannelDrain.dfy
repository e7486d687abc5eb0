/** Nothing accepted is stuck: from every reachable state the receivers alone can return every message. */
module ChannelDrain {
  import opened Basics
  import opened Channel
  import opened ChannelSystem
  import R = RingQueue
  import I = RingInvariant
  import T = RingTheorems
  import Z = RingSolo

  /** The steps of one ring as steps of the system, with every node allocation successful. */
  function Lifted(p: (nat, nat), acts: seq<R.Action>): (r: seq<Action>)
    ensures |r| == |acts| && forall i :: 0 <= i < |acts| ==> r[i] == RingStep(p.0, p.1, acts[i], true)
  {
    seq(|acts|, i requires 0 <= i < |acts| => RingStep(p.0, p.1, acts[i], true))
  }

  /** `flags` gained only successes. */
  ghost predicate GrewTrue(flags: seq<bool>, flags': seq<bool>) {
    |flags| <= |flags'| && flags'[..|flags|] == flags && forall i :: |flags| <= i < |flags'| ==> flags'[i]
  }

  lemma ExecSnoc(kernels: nat, c: R.Config, acts: seq<Action>, a: Action)
    requires R.ValidConfig(c)
    ensures Exec(kernels, c, acts + [a]) == Next(kernels, c, Exec(kernels, c, acts), a)
  {
    assert (acts + [a])[..|acts|] == acts;
  }

  lemma OneRingStep(kernels: nat, c: R.Config, s: System, p: (nat, nat), a: R.Action)
    requires Shaped(kernels, c, s) && p in Pairs(kernels) && !a.Send?
    ensures var s' := Next(kernels, c, s, RingStep(p.0, p.1, a, true));
      && p in s'.rings && s'.rings[p] == R.Next(c, s.rings[p], a)
      && p in s'.nodes && GrewTrue(s.nodes[p], s'.nodes[p])
  {
    hide R.Next, R.Shaped, Handed;
  }

  lemma GrewTwice(a: seq<bool>, b: seq<bool>, d: seq<bool>)
    requires GrewTrue(a, b) && GrewTrue(b, d)
    ensures GrewTrue(a, d)
  {
    assert d[..|a|] == d[..|b|][..|a|];
    forall i | |a| <= i < |d|
      ensures d[i]
    {
      if i < |b| { assert d[i] == d[..|b|][i]; }
    }
  }

  /** Running a ring inside the system is running the ring. */
  lemma {:induction false} RingRun(kernels: nat, c: R.Config, acts: seq<Action>, p: (nat, nat), ring: seq<R.Action>)
    requires R.ValidConfig(c) && p in Pairs(kernels)
    requires forall a :: a in ring ==> !a.Send?
    ensures var s, s' := Exec(kernels, c, acts), Exec(kernels, c, acts + Lifted(p, ring));
      && R.Shaped(c, s.rings[p])
      && s'.rings[p] == T.Exec(c, s.rings[p], ring)
      && GrewTrue(s.nodes[p], s'.nodes[p])
    decreases |ring|
  {
    hide Sound, Exec, Next, R.Shaped, R.Next;
    var s := Exec(kernels, c, acts);
    if ring == [] {
      assert acts + Lifted(p, ring) == acts;
    } else {
      var step := RingStep(p.0, p.1, ring[0], true);
      assert ring[0] in ring && forall a :: a in ring[1..] ==> a in ring;
      ExecSnoc(kernels, c, acts, step);
      OneRingStep(kernels, c, s, p, ring[0]);
      R.ShapedNext(c, s.rings[p], ring[0]);
      RingRun(kernels, c, acts + [step], p, ring[1..]);
      assert acts + Lifted(p, ring) == acts + [step] + Lifted(p, ring[1..]);
      GrewTwice(s.nodes[p], Exec(kernels, c, acts + [step]).nodes[p],
                Exec(kernels, c, acts + Lifted(p, ring)).nodes[p]);
    }
  }

  function Receives(dst: nat, ch: nat, n: nat): (r: seq<Action>)
    ensures |r| == n && forall i :: 0 <= i < n ==> r[i] == Receive(dst, ch)
  {
    seq(n, i => Receive(dst, ch))
  }

  lemma OneReceive(kernels: nat, c: R.Config, s: System, dst: nat, ch: nat)
    requires Shaped(kernels, c, s) && dst < kernels && Supported(ch) && s.ends[dst].queues[ch] != []
    ensures var s' := Next(kernels, c, s, Receive(dst, ch));
      && s'.rings == s.rings && s'.nodes == s.nodes && dst in s'.ends && Opened(s'.ends[dst])
      && s'.ends[dst].queues[ch] == s.ends[dst].queues[ch][1..]
  {
    hide R.Shaped;
  }

  /** As many receives as there are queued messages empty the queue and touch no ring. */
  lemma {:induction false} ReceiveAll(kernels: nat, c: R.Config, acts: seq<Action>, dst: nat, ch: nat, n: nat)
    requires R.ValidConfig(c) && dst < kernels && Supported(ch)
    requires n == |Exec(kernels, c, acts).ends[dst].queues[ch]|
    ensures var s, s' := Exec(kernels, c, acts), Exec(kernels, c, acts + Receives(dst, ch, n));
      s'.rings == s.rings && s'.nodes == s.nodes && s'.ends[dst].queues[ch] == []
    decreases n
  {
    hide Sound, Exec, Next, R.Shaped;
    if n == 0 {
      assert acts + Receives(dst, ch, n) == acts;
    } else {
      var step := Receive(dst, ch);
      ExecSnoc(kernels, c, acts, step);
      OneReceive(kernels, c, Exec(kernels, c, acts), dst, ch);
      ReceiveAll(kernels, c, acts + [step], dst, ch, n - 1);
      assert acts + Receives(dst, ch, n) == acts + [step] + Receives(dst, ch, n - 1);
    }
  }

  /**
   Nothing is waiting in the ring or in the channel's queue, nothing was added, and no allocation
   failed on the way.
  */
  ghost predicate Returned(h: R.History, h': R.History, flags: seq<bool>, flags': seq<bool>, queue: seq<Node>) {
    && h'.accepted == h.accepted && |h'.kept| == |h'.accepted| && GrewTrue(h.kept, h'.kept)
    && GrewTrue(flags, flags')
    && queue == []
  }

  lemma AllTrue(flags: seq<bool>, flags': seq<bool>)
    requires GrewTrue(flags, flags') && false !in flags
    ensures false !in flags'
  {
    forall i | 0 <= i < |flags'|
      ensures flags'[i]
    {
      if i < |flags| { assert flags'[i] == flags'[..|flags|][i] && flags[i] in flags; }
    }
  }

  lemma EmptiedIsReturned(r: R.State, r': R.State, flags: seq<bool>, flags': seq<bool>)
    requires Z.Emptied(r, r') && GrewTrue(flags, flags')
    ensures Returned(r.h, r'.h, flags, flags', [])
  {
  }

  /** The receiver's steps that empty the ring, inside the system. */
  lemma CanEmptyRing(kernels: nat, c: R.Config, acts: seq<Action>, p: (nat, nat)) returns (more: seq<Action>)
    requires R.ValidConfig(c) && I.Divides(c) && p in Pairs(kernels)
    ensures forall a :: a in more ==> !a.Submit?
    ensures var s, s' := Exec(kernels, c, acts), Exec(kernels, c, acts + more);
      Returned(s.rings[p].h, s'.rings[p].h, s.nodes[p], s'.nodes[p], [])
  {
    var s := Exec(kernels, c, acts);
    ExecInv(kernels, c, acts);
    assert I.Inv(c, s.rings[p]) && R.Shaped(c, s.rings[p]);
    hide Inv, Sound, I.Inv, I.Divides, Exec, R.Shaped, T.Exec, Z.Emptied, GrewTrue, Returned;
    var ring := Z.ReachesEmpty(c, s.rings[p]);
    RingRun(kernels, c, acts, p, ring);
    more := Lifted(p, ring);
    EmptiedIsReturned(s.rings[p], T.Exec(c, s.rings[p], ring), s.nodes[p], Exec(kernels, c, acts + more).nodes[p]);
  }

  /** From every reachable state the receiver alone, with successful allocations, empties ring and queue. */
  lemma CanReturnAll(kernels: nat, c: R.Config, acts: seq<Action>, src: nat, dst: nat, ch: nat)
      returns (more: seq<Action>)
    requires R.ValidConfig(c) && I.Divides(c)
    requires src < kernels && dst < kernels && src != dst && Supported(ch)
    ensures forall a :: a in more ==> !a.Submit?
    ensures var s, s', p := Exec(kernels, c, acts), Exec(kernels, c, acts + more), (src, dst);
      Returned(s.rings[p].h, s'.rings[p].h, s.nodes[p], s'.nodes[p], s'.ends[dst].queues[ch])
  {
    hide Sound, I.Divides, Exec, R.Shaped, GrewTrue;
    var first := CanEmptyRing(kernels, c, acts, (src, dst));
    var mid := acts + first;
    var n := |Exec(kernels, c, mid).ends[dst].queues[ch]|;
    ReceiveAll(kernels, c, mid, dst, ch, n);
    more := first + Receives(dst, ch, n);
    assert acts + more == mid + Receives(dst, ch, n);
  }

  lemma WholeChannel(h: R.History, h': R.History, flags: seq<bool>, flags': seq<bool>, got: seq<Node>, queue: seq<Node>,
                     src: nat, ch: nat)
    requires Returned(h, h', flags, flags', queue)
    requires false !in h'.kept && false !in flags' ==>
      |h'.kept| <= |h'.accepted| && FromPeer(got + queue, src) == OnChannel(h'.accepted[..|h'.kept|], ch)
    ensures h'.accepted == h.accepted
    ensures false !in h.kept && false !in flags ==> FromPeer(got, src) == OnChannel(h.accepted, ch)
  {
    hide FromPeer, OnChannel, GrewTrue;
    if false !in h.kept && false !in flags {
      AllTrue(h.kept, h'.kept);
      AllTrue(flags, flags');
      assert got + queue == got && h'.accepted[..|h'.kept|] == h'.accepted;
    }
  }

  /**
   From every reachable state without failed allocations some run of receiver steps and receives makes
   mkct_recv return, in order and byte for byte, every message accepted from `src` for the channel.
  */
  lemma EverythingArrives(kernels: nat, c: R.Config, acts: seq<Action>, src: nat, dst: nat, ch: nat)
      returns (more: seq<Action>)
    requires R.ValidConfig(c) && I.Divides(c)
    requires src < kernels && dst < kernels && src != dst && Supported(ch)
    ensures forall a :: a in more ==> !a.Submit?
    ensures var s, s' := Exec(kernels, c, acts), Exec(kernels, c, acts + more);
      var h, h' := s.rings[(src, dst)].h, s'.rings[(src, dst)].h;
      && h'.accepted == h.accepted
      && (false !in h.kept && false !in s.nodes[(src, dst)] ==>
            FromPeer(s'.ends[dst].got[ch], src) == OnChannel(h.accepted, ch))
  {
    hide Sound, Exec, R.Shaped, I.Divides, FromPeer, OnChannel, Returned;
    more := CanReturnAll(kernels, c, acts, src, dst, ch);
    Lossless(kernels, c, acts + more, src, dst, ch);
    var s, s', p := Exec(kernels, c, acts), Exec(kernels, c, acts + more), (src, dst);
    WholeChannel(s.rings[p].h, s'.rings[p].h, s.nodes[p], s'.nodes[p],
                 s'.ends[dst].got[ch], s'.ends[dst].queues[ch], src, ch);
  }

  lemma SubmitEnters(kernels: nat, c: R.Config, s: System, src: nat, dst: nat, m: Msg)
    requires Shaped(kernels, c, s) && (src, dst) in Pairs(kernels) && ValidMessage(m)
    ensures var s' := Next(kernels, c, s, Submit(src, dst, ChannelOf(m), m));
      && (src, dst) in s'.rings && s'.rings[(src, dst)] == R.Next(c, s.rings[(src, dst)], R.Send(m))
      && s'.nodes == s.nodes
  {
    hide R.Next, R.Shaped, ValidMessage;
  }

  /** A mkct_send that passes the checks, followed by the sender's own steps, is a whole call of mkring_send. */
  lemma SendIsCall(kernels: nat, c: R.Config, acts: seq<Action>, src: nat, dst: nat, m: Msg) returns (more: seq<Action>)
    requires R.ValidConfig(c) && (src, dst) in Pairs(kernels) && ValidMessage(m) && |m| <= c.msgSize
    requires Exec(kernels, c, acts).rings[(src, dst)].tx.pc.TxIdle?
    ensures forall a :: a in more ==> !a.Submit?
    ensures var p, sent := (src, dst), acts + [Submit(src, dst, ChannelOf(m), m)];
      var s, s' := Exec(kernels, c, acts), Exec(kernels, c, sent + more);
      && R.Shaped(c, s.rings[p]) && s'.rings[p] == Z.TxCall(c, s.rings[p], m)
      && GrewTrue(s.nodes[p], s'.nodes[p])
  {
    var s, p, step := Exec(kernels, c, acts), (src, dst), Submit(src, dst, ChannelOf(m), m);
    SubmitEnters(kernels, c, s, src, dst, m);
    ExecSnoc(kernels, c, acts, step);
    hide Sound, Exec, Next, R.Next, R.Shaped, Z.TxCall, ValidMessage;
    assert R.Shaped(c, s.rings[p]);
    var ring := Z.TxCallIsRun(c, s.rings[p], m);
    RingRun(kernels, c, acts + [step], p, ring);
    more := Lifted(p, ring);
    hide GrewTrue;
  }

  lemma SendAccepted(c: R.Config, r: R.State, m: Msg)
    requires R.Shaped(c, r) && I.Inv(c, r) && I.Divides(c) && r.tx.pc.TxIdle? && |m| <= c.msgSize
    requires |r.h.accepted| < r.h.returned + c.n
    ensures var r' := Z.TxCall(c, r, m); r'.h.accepted == r.h.accepted + [m] && r'.h.kept == r.h.kept
  {
    assert |r.h.accepted| == |r.h.ids|;
    hide I.Inv, I.Divides, R.Shaped, Z.TxCall;
    Z.TxCallEffect(c, r, m);
  }

  /** The message joins what the ring has accepted, and no allocation fails on the way. */
  lemma SendJoins(kernels: nat, c: R.Config, acts: seq<Action>, src: nat, dst: nat, m: Msg) returns (more: seq<Action>)
    requires R.ValidConfig(c) && I.Divides(c) && (src, dst) in Pairs(kernels) && ValidMessage(m) && |m| <= c.msgSize
    requires var r := Exec(kernels, c, acts).rings[(src, dst)];
      r.tx.pc.TxIdle? && |r.h.accepted| < r.h.returned + c.n
    ensures forall a :: a in more ==> !a.Submit?
    ensures var p := (src, dst);
      var s, s' := Exec(kernels, c, acts), Exec(kernels, c, acts + [Submit(src, dst, ChannelOf(m), m)] + more);
      && s'.rings[p].h.accepted == s.rings[p].h.accepted + [m] && s'.rings[p].h.kept == s.rings[p].h.kept
      && GrewTrue(s.nodes[p], s'.nodes[p])
  {
    var s, p := Exec(kernels, c, acts), (src, dst);
    ExecInv(kernels, c, acts);
    assert I.Inv(c, s.rings[p]) && R.Shaped(c, s.rings[p]);
    hide Sound, Inv, I.Inv, I.Divides, Exec, R.Shaped, GrewTrue, Z.TxCall, ValidMessage;
    more := SendIsCall(kernels, c, acts, src, dst, m);
    SendAccepted(c, s.rings[p], m);
  }

  lemma Regroup(a: seq<Action>, b: seq<Action>, d: seq<Action>)
    ensures a + (b + d) == a + b + d
    ensures (forall x :: x in b ==> !x.Submit?) && (forall x :: x in d ==> !x.Submit?) ==>
      forall x :: x in b + d ==> !x.Submit?
  {
  }

  /**
   From every reachable state without failed allocations in which the sender is idle and fewer than
   desc_num messages are unreturned, one mkct_send of a valid message and steps of the two ends make
   mkct_recv return everything accepted before and then this message.
  */
  lemma SentArrives(kernels: nat, c: R.Config, acts: seq<Action>, src: nat, dst: nat, m: Msg)
      returns (more: seq<Action>)
    requires R.ValidConfig(c) && I.Divides(c) && src < kernels && dst < kernels && src != dst
    requires ValidMessage(m) && |m| <= c.msgSize
    requires var r, nodes := Exec(kernels, c, acts).rings[(src, dst)], Exec(kernels, c, acts).nodes[(src, dst)];
      && r.tx.pc.TxIdle? && |r.h.accepted| < r.h.returned + c.n
      && false !in r.h.kept && false !in nodes
    ensures forall a :: a in more ==> !a.Submit?
    ensures var ch := ChannelOf(m);
      var s, s' := Exec(kernels, c, acts), Exec(kernels, c, acts + [Submit(src, dst, ch, m)] + more);
      FromPeer(s'.ends[dst].got[ch], src) == OnChannel(s.rings[(src, dst)].h.accepted, ch) + [m]
  {
    var s, p, ch := Exec(kernels, c, acts), (src, dst), ChannelOf(m);
    assert Supported(ch);
    hide Sound, R.Shaped, I.Divides, Exec, GrewTrue, FromPeer, OnChannel, ValidMessage, ChannelOf;
    var sent := acts + [Submit(src, dst, ch, m)];
    var first := SendJoins(kernels, c, acts, src, dst, m);
    AllTrue(s.nodes[p], Exec(kernels, c, sent + first).nodes[p]);
    var mid := sent + first;
    var second := EverythingArrives(kernels, c, mid, src, dst, ch);
    OnChannelAppend(s.rings[p].h.accepted, m, ch);
    more := first + second;
    Regroup(sent, first, second);
  }
}
