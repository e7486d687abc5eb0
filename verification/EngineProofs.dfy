/** What every interleaving of RunPod, StopPod and RemovePod keeps. */
module EngineProofs {
  import opened Basics
  import opened Allocators
  import opened Engine

  lemma InitInv(peers: Pool, ips: Pool)
    requires peers == Fresh(peers.lo, peers.hi) && ips == Fresh(ips.lo, ips.hi)
    ensures Core(Init(peers, ips)) && (Fits(peers, ips) ==> PeersExact(Init(peers, ips)))
  {
  }

  // Frames: what a step that leaves a resource alone keeps.

  ghost predicate OnlyCall(s: State, s': State, cid: nat) {
    forall c :: c != cid ==> (c in s'.calls <==> c in s.calls) && (c in s.calls ==> s'.calls[c] == s.calls[c])
  }

  function PeerAt(s: State, cid: nat): (r: Option<int>) {
    if cid in s.calls then HeldPeer(s.calls[cid]) else None
  }

  function IpAt(s: State, cid: nat): (r: Option<int>) {
    if cid in s.calls then HeldIp(s.calls[cid]) else None
  }

  lemma PeersFrame(s: State, s': State, cid: nat)
    requires PeersOwned(s) && OnlyCall(s, s', cid) && PeerAt(s', cid) == PeerAt(s, cid)
    requires s'.peers.used == s.peers.used && s'.peerOwner == s.peerOwner && s'.t.kernels == s.t.kernels
    ensures PeersOwned(s')
  {
    hide HeldPeer;
  }

  lemma IpsFrame(s: State, s': State, cid: nat)
    requires IpsOwned(s) && OnlyCall(s, s', cid) && IpAt(s', cid) == IpAt(s, cid)
    requires s'.ips.used == s.ips.used && s'.ipOwner == s.ipOwner && s'.t.pods == s.t.pods
    ensures IpsOwned(s')
  {
    hide HeldIp;
  }

  lemma PodsFrame(s: State, s': State)
    requires PodsOk(s) && s'.t.kernels == s.t.kernels && s'.t.pods == s.t.pods
    requires s'.dropped == s.dropped && s.nextId <= s'.nextId
    ensures PodsOk(s')
  {
  }

  /** The call keeps its kind, its id and its plan. */
  predicate Moves(c: Call, c': Call) {
    && IsRun(c') == IsRun(c)
    && (IsRun(c) ==> c'.id == c.id)
    && (!IsRun(c) ==> c'.plan == c.plan && (BeforeDrop(c') ==> BeforeDrop(c)))
  }

  lemma CallsFrame(s: State, s': State, cid: nat)
    requires CallsOk(s) && cid in s.calls && cid in s'.calls && OnlyCall(s, s', cid)
    requires Moves(s.calls[cid], s'.calls[cid])
    requires s'.t.kernels == s.t.kernels && s'.t.pods == s.t.pods && s'.t.cleanup == s.t.cleanup
    requires s'.dropped == s.dropped && s'.nextId == s.nextId && s'.marker == s.marker
    ensures CallsOk(s')
  {
    hide IsRun, BeforeDrop;
  }

  /** A call that moves on without gaining or giving up anything. */
  lemma MoveKeeps(s: State, cid: nat, c: Call)
    requires Core(s) && cid in s.calls && Moves(s.calls[cid], c)
    requires HeldPeer(c) == HeldPeer(s.calls[cid]) && HeldIp(c) == HeldIp(s.calls[cid])
    ensures Core(Goto(s, cid, c)) && (PeersExact(s) ==> PeersExact(Goto(s, cid, c)))
  {
    hide Partitioned, PeersOwned, IpsOwned, PodsOk, CallsOk, Moves;
    var s' := Goto(s, cid, c);
    if PeersExact(s) { PeersFrame(s, s', cid); }
    IpsFrame(s, s', cid);
    PodsFrame(s, s');
    CallsFrame(s, s', cid);
  }

  // RunPod.

  /** A call comes to hold a peer id that nobody held. */
  lemma PeersGain(s: State, s': State, cid: nat, peer: int)
    requires PeersOwned(s) && OnlyCall(s, s', cid) && PeerAt(s, cid) == None && PeerAt(s', cid) == Some(peer)
    requires peer !in s.peers.used && s'.peers.used == s.peers.used + {peer}
    requires s'.peerOwner == s.peerOwner[peer := OfCall(cid)] && s'.t.kernels == s.t.kernels
    ensures PeersOwned(s')
  {
    hide HeldPeer;
  }

  lemma RunJoins(s: State, s': State, cid: nat)
    requires CallsOk(s) && PodsOk(s) && cid !in s.calls && cid in s'.calls && OnlyCall(s, s', cid)
    requires IsRun(s'.calls[cid]) && s'.calls[cid].id == s.nextId && s'.nextId == s.nextId + 1
    requires s'.t == s.t && s'.dropped == s.dropped && s'.marker == s.marker
    ensures CallsOk(s')
  {
    hide IsRun, BeforeDrop;
  }

  lemma StartRunKeeps(s: State, cid: nat)
    requires Core(s) && cid !in s.calls
    ensures Core(StartRun(s, cid)) && (PeersExact(s) ==> PeersExact(StartRun(s, cid)))
  {
    hide Partitioned, Take, Full, PeersOwned, IpsOwned, PodsOk, CallsOk;
    TakeExact(s.peers);
    var s' := StartRun(s, cid);
    if s' != s {
      var peer := s'.calls[cid].peer;
      if PeersExact(s) { PeersGain(s, s', cid, peer); }
      IpsFrame(s, s', cid);
      PodsFrame(s, s');
      RunJoins(s, s', cid);
    }
  }

  lemma IpsGain(s: State, s': State, cid: nat, ip: int)
    requires IpsOwned(s) && OnlyCall(s, s', cid) && IpAt(s, cid) == None && IpAt(s', cid) == Some(ip)
    requires ip !in s.ips.used && s'.ips.used == s.ips.used + {ip}
    requires s'.ipOwner == s.ipOwner[ip := OfCall(cid)] && s'.t.pods == s.t.pods
    ensures IpsOwned(s')
  {
    hide HeldIp;
  }

  lemma TakeAddressKeeps(s: State, cid: nat, id: nat, peer: int)
    requires Core(s) && cid in s.calls && s.calls[cid] == RunAddress(id, peer)
    ensures Core(TakeAddress(s, cid, id, peer)) && (PeersExact(s) ==> PeersExact(TakeAddress(s, cid, id, peer)))
  {
    hide Partitioned, Take, Full, PeersOwned, IpsOwned, PodsOk, CallsOk;
    TakeExact(s.ips);
    var s' := TakeAddress(s, cid, id, peer);
    if PeersExact(s) { PeersFrame(s, s', cid); }
    PodsFrame(s, s');
    CallsFrame(s, s', cid);
    if s'.calls[cid].RunRecord? {
      IpsGain(s, s', cid, s'.calls[cid].ip);
    } else {
      IpsFrame(s, s', cid);
    }
  }

  /** A recorded peer id is the one that was issued. */
  lemma EchoExact(s: State, cid: nat)
    requires Core(s) && PeersExact(s) && cid in s.calls && s.calls[cid].RunRecord?
    ensures Echoed(s.calls[cid].peer) == s.calls[cid].peer
  {
    var c := s.calls[cid];
    assert HeldPeer(c) == Some(c.peer) && HeldIp(c) == Some(c.ip);
    assert c.peer in s.peers.used && c.ip in s.ips.used;
    hide PodsOk, CallsOk;
  }

  lemma RunIsNew(s: State, cid: nat)
    requires CallsOk(s) && PodsOk(s) && cid in s.calls && IsRun(s.calls[cid])
    ensures var id := s.calls[cid].id; id !in s.t.pods && id !in s.t.kernels && id !in s.dropped && id < s.nextId
  {
  }

  lemma PeersToKernel(s: State, s': State, cid: nat, id: nat, peer: int)
    requires PeersOwned(s) && OnlyCall(s, s', cid) && PeerAt(s, cid) == Some(peer) && PeerAt(s', cid) == None
    requires id !in s.t.kernels && s'.t.kernels == s.t.kernels[id := peer]
    requires s'.peers == s.peers && s'.peerOwner == s.peerOwner[peer := OfKernel(id)]
    ensures PeersOwned(s')
  {
    hide HeldPeer;
  }

  lemma IpsToPod(s: State, s': State, cid: nat, id: nat, ip: int)
    requires IpsOwned(s) && OnlyCall(s, s', cid) && IpAt(s, cid) == Some(ip) && IpAt(s', cid) == None
    requires id !in s.t.pods && s'.t.pods == s.t.pods[id := Pod(Ready, id, Some(ip))]
    requires s'.ips == s.ips && s'.ipOwner == s.ipOwner[ip := OfPod(id)]
    ensures IpsOwned(s')
  {
    hide HeldIp;
  }

  lemma PodsGain(s: State, s': State, id: nat, ip: int)
    requires PodsOk(s) && id !in s.t.pods && id < s.nextId && id !in s.dropped
    requires s'.t.pods == s.t.pods[id := Pod(Ready, id, Some(ip))]
    requires s'.t.kernels.Keys == s.t.kernels.Keys + {id}
    requires s'.dropped == s.dropped && s'.nextId == s.nextId
    ensures PodsOk(s')
  {
  }

  lemma RunLeaves(s: State, s': State, cid: nat, id: nat)
    requires CallsOk(s) && cid in s.calls && IsRun(s.calls[cid]) && s.calls[cid].id == id
    requires cid !in s'.calls && OnlyCall(s, s', cid)
    requires s'.t.pods.Keys <= s.t.pods.Keys + {id} && s'.t.kernels.Keys <= s.t.kernels.Keys + {id}
    requires s.t.pods.Keys <= s'.t.pods.Keys && s.t.kernels.Keys <= s'.t.kernels.Keys
    requires forall p :: p in s.t.pods && p != id ==> s'.t.pods[p] == s.t.pods[p]
    requires s'.t.cleanup == s.t.cleanup && s'.marker == s.marker
    requires s'.dropped == s.dropped && s'.nextId == s.nextId
    ensures CallsOk(s')
  {
    hide BeforeDrop;
  }

  lemma RecordKeeps(s: State, cid: nat, id: nat, peer: int, ip: int)
    requires Core(s) && cid in s.calls && s.calls[cid] == RunRecord(id, peer, ip)
    ensures Core(Record(s, cid, id, peer, ip)) && (PeersExact(s) ==> PeersExact(Record(s, cid, id, peer, ip)))
  {
    hide Partitioned, Echoed, PeersOwned, IpsOwned, PodsOk, CallsOk;
    var s' := Record(s, cid, id, peer, ip);
    RunIsNew(s, cid);
    if PeersExact(s) {
      EchoExact(s, cid);
      PeersToKernel(s, s', cid, id, peer);
    }
    IpsToPod(s, s', cid, id, ip);
    PodsGain(s, s', id, ip);
    RunLeaves(s, s', cid, id);
  }

  /** A call gives its peer id back to the pool. */
  lemma PeersLose(s: State, s': State, cid: nat, peer: int)
    requires PeersOwned(s) && OnlyCall(s, s', cid) && PeerAt(s, cid) == Some(peer) && PeerAt(s', cid) == None
    requires s'.peers.used == s.peers.used - {peer}
    requires s'.peerOwner == s.peerOwner - {peer} && s'.t.kernels == s.t.kernels
    ensures PeersOwned(s')
  {
    hide HeldPeer;
  }

  lemma ReleaseKeeps(s: State, cid: nat, id: nat, peer: int)
    requires Core(s) && cid in s.calls && s.calls[cid] == RunRelease(id, peer)
    ensures Core(Finish(FreePeer(s, peer), cid)) && (PeersExact(s) ==> PeersExact(Finish(FreePeer(s, peer), cid)))
  {
    hide Partitioned, Give, PeersOwned, IpsOwned, PodsOk, CallsOk;
    GiveExact(s.peers, peer);
    var s' := Finish(FreePeer(s, peer), cid);
    if PeersExact(s) { PeersLose(s, s', cid, peer); }
    IpsFrame(s, s', cid);
    PodsFrame(s, s');
    RunLeaves(s, s', cid, id);
  }

  // StopPod and RemovePod.

  lemma CleanupJoins(s: State, s': State, cid: nat, pod: nat, plan: Plan)
    requires CallsOk(s) && PodsOk(s) && cid !in s.calls && pod !in s.t.cleanup && OnlyCall(s, s', cid)
    requires cid in s'.calls && s'.calls[cid] == CleanContainers(plan) && plan.pod == pod && pod in s.t.pods
    requires plan.kernelId == s.t.pods[pod].kernelId && plan.ip == s.t.pods[pod].ip
    requires plan.stopKernel == (plan.kernelId in s.t.kernels)
    requires s'.t == s.t.(cleanup := s.t.cleanup + {pod}) && s'.marker == s.marker[pod := cid]
    requires s'.dropped == s.dropped && s'.nextId == s.nextId
    ensures CallsOk(s')
  {
    assert s.t.pods[pod].kernelId == pod;
    hide PodsOk;
  }

  lemma StartCleanupKeeps(s: State, cid: nat, pod: nat, remove: bool)
    requires Core(s) && cid !in s.calls && pod !in s.t.cleanup
    ensures Core(StartCleanup(s, cid, pod, remove)) && (PeersExact(s) ==> PeersExact(StartCleanup(s, cid, pod, remove)))
  {
    hide Partitioned, PeersOwned, IpsOwned, CallsOk, PodsOk;
    var s' := StartCleanup(s, cid, pod, remove);
    if s' != s {
      if PeersExact(s) { PeersFrame(s, s', cid); }
      IpsFrame(s, s', cid);
      PodsFrame(s, s');
      CleanupJoins(s, s', cid, pod, s'.calls[cid].plan);
    }
  }

  lemma CleanPeerKeeps(s: State, cid: nat, plan: Plan, peer: int)
    requires Core(s) && cid in s.calls && s.calls[cid] == CleanPeer(plan, peer)
    ensures Core(Goto(FreePeer(s, peer), cid, CleanAddress(plan)))
    ensures PeersExact(s) ==> PeersExact(Goto(FreePeer(s, peer), cid, CleanAddress(plan)))
  {
    hide Partitioned, Give, PeersOwned, IpsOwned, PodsOk, CallsOk;
    GiveExact(s.peers, peer);
    var s' := Goto(FreePeer(s, peer), cid, CleanAddress(plan));
    if PeersExact(s) { PeersLose(s, s', cid, peer); }
    IpsFrame(s, s', cid);
    PodsFrame(s, s');
    CallsFrame(s, s', cid);
  }

  lemma IpsLose(s: State, s': State, cid: nat, ip: int)
    requires IpsOwned(s) && OnlyCall(s, s', cid) && IpAt(s, cid) == Some(ip) && IpAt(s', cid) == None
    requires s'.ips.used == s.ips.used - {ip}
    requires s'.ipOwner == s.ipOwner - {ip} && s'.t.pods == s.t.pods
    ensures IpsOwned(s')
  {
    hide HeldIp;
  }

  lemma CleanAddressKeeps(s: State, cid: nat, plan: Plan)
    requires Core(s) && cid in s.calls && s.calls[cid] == CleanAddress(plan)
    ensures Core(Goto(FreeIp(s, plan.ip), cid, CleanEnd(plan)))
    ensures PeersExact(s) ==> PeersExact(Goto(FreeIp(s, plan.ip), cid, CleanEnd(plan)))
  {
    hide Partitioned, Give, PeersOwned, IpsOwned, PodsOk, CallsOk;
    if plan.ip.Some? { GiveExact(s.ips, plan.ip.value); }
    var s' := Goto(FreeIp(s, plan.ip), cid, CleanEnd(plan));
    if PeersExact(s) { PeersFrame(s, s', cid); }
    PodsFrame(s, s');
    CallsFrame(s, s', cid);
    if plan.ip.Some? {
      IpsLose(s, s', cid, plan.ip.value);
    } else {
      IpsFrame(s, s', cid);
    }
  }

  /** What the call found in its first section is still so when it drops the pod. */
  lemma PlanStillHolds(s: State, cid: nat, plan: Plan)
    requires CallsOk(s) && PodsOk(s) && cid in s.calls && s.calls[cid] == CleanDrop(plan)
    ensures plan.kernelId == plan.pod && plan.pod in s.t.pods && s.t.pods[plan.pod].ip == plan.ip
    ensures plan.pod in s.t.kernels <==> plan.ip.Some?
    ensures plan.pod in s.marker && s.marker[plan.pod] == cid
  {
  }

  predicate DropsPod(t: Tables, t': Tables, plan: Plan) {
    && t'.kernels == t.kernels - {plan.pod} && t'.cleanup == t.cleanup
    && t'.pods.Keys == (if plan.remove then t.pods.Keys - {plan.pod} else t.pods.Keys)
    && (forall p :: p in t'.pods && p != plan.pod ==> t'.pods[p] == t.pods[p])
    && (plan.pod in t'.pods && plan.pod in t.pods ==>
          t'.pods[plan.pod] == t.pods[plan.pod].(state := NotReady, ip := None))
  }

  lemma DropShape(t: Tables, plan: Plan)
    requires plan.kernelId == plan.pod && plan.pod in t.pods
    ensures DropsPod(t, Drop(t, plan).0, plan) && Drop(t, plan).0.kernels == t.kernels - {plan.pod}
    ensures plan.pod !in t.kernels ==> Drop(t, plan).0.kernels == t.kernels
    ensures Drop(t, plan).1 == if plan.pod in t.kernels then Some(t.kernels[plan.pod]) else None
  {
  }

  lemma PodsDrop(s: State, s': State, plan: Plan)
    requires PodsOk(s) && DropsPod(s.t, s'.t, plan) && plan.pod in s.t.pods && s'.nextId == s.nextId
    requires s'.dropped == if plan.pod in s.t.kernels then s.dropped + {plan.pod} else s.dropped
    ensures PodsOk(s')
  {
  }

  lemma CallsDrop(s: State, s': State, cid: nat, plan: Plan)
    requires CallsOk(s) && cid in s.calls && s.calls[cid] == CleanDrop(plan) && OnlyCall(s, s', cid)
    requires cid in s'.calls && !IsRun(s'.calls[cid]) && !BeforeDrop(s'.calls[cid]) && s'.calls[cid].plan == plan
    requires DropsPod(s.t, s'.t, plan) && plan.pod in s.t.pods && s'.nextId == s.nextId && s'.marker == s.marker
    requires s'.dropped <= s.dropped + {plan.pod}
    ensures CallsOk(s')
  {
    hide BeforeDrop;
  }

  lemma PeersFromKernel(s: State, s': State, cid: nat, k: nat)
    requires PeersOwned(s) && OnlyCall(s, s', cid) && k in s.t.kernels
    requires PeerAt(s, cid) == None && PeerAt(s', cid) == Some(s.t.kernels[k])
    requires s'.t.kernels == s.t.kernels - {k} && s'.peers == s.peers
    requires s'.peerOwner == s.peerOwner[s.t.kernels[k] := OfCall(cid)]
    ensures PeersOwned(s')
  {
    hide HeldPeer;
  }

  lemma IpsFromPod(s: State, s': State, cid: nat, plan: Plan)
    requires IpsOwned(s) && OnlyCall(s, s', cid) && plan.pod in s.t.pods && s.t.pods[plan.pod].ip == plan.ip
    requires IpAt(s, cid) == None && IpAt(s', cid) == plan.ip && DropsPod(s.t, s'.t, plan)
    requires s'.ips == s.ips
    requires s'.ipOwner == if plan.ip.Some? then s.ipOwner[plan.ip.value := OfCall(cid)] else s.ipOwner
    ensures IpsOwned(s')
  {
    hide HeldIp;
  }

  lemma DropKeeps(s: State, cid: nat, plan: Plan)
    requires Core(s) && cid in s.calls && s.calls[cid] == CleanDrop(plan)
    ensures Core(DropStep(s, cid, plan)) && (PeersExact(s) ==> PeersExact(DropStep(s, cid, plan)))
  {
    hide Partitioned, PeersOwned, IpsOwned, PodsOk, CallsOk, Drop, DropsPod;
    var s' := DropStep(s, cid, plan);
    PlanStillHolds(s, cid, plan);
    DropShape(s.t, plan);
    assert OnlyCall(s, s', cid);
    hide OnlyCall;
    PodsDrop(s, s', plan);
    CallsDrop(s, s', cid, plan);
    IpsFromPod(s, s', cid, plan);
    if PeersExact(s) {
      if plan.pod in s.t.kernels {
        PeersFromKernel(s, s', cid, plan.pod);
      } else {
        PeersFrame(s, s', cid);
      }
    }
  }

  lemma CallsEnd(s: State, cid: nat, plan: Plan)
    requires CallsOk(s) && cid in s.calls && s.calls[cid] == CleanEnd(plan)
    ensures CallsOk(EndCleanup(s, cid, plan))
  {
    hide BeforeDrop;
  }

  lemma EndKeeps(s: State, cid: nat, plan: Plan)
    requires Core(s) && cid in s.calls && s.calls[cid] == CleanEnd(plan)
    ensures Core(EndCleanup(s, cid, plan)) && (PeersExact(s) ==> PeersExact(EndCleanup(s, cid, plan)))
  {
    CallsEnd(s, cid, plan);
    hide Partitioned, PeersOwned, IpsOwned, PodsOk, CallsOk;
    var s' := EndCleanup(s, cid, plan);
    if PeersExact(s) { PeersFrame(s, s', cid); }
    IpsFrame(s, s', cid);
    PodsFrame(s, s');
  }

  lemma AdvanceKeeps(s: State, cid: nat, ok: bool, skipReady: bool)
    requires Core(s) && cid in s.calls
    ensures Core(AdvanceCall(s, cid, ok, skipReady))
    ensures PeersExact(s) ==> PeersExact(AdvanceCall(s, cid, ok, skipReady))
  {
    hide Core, PeersExact;
    match s.calls[cid]
    case RunAddress(id, peer) => TakeAddressKeeps(s, cid, id, peer);
    case RunRecord(id, peer, ip) => RecordKeeps(s, cid, id, peer, ip);
    case RunRelease(id, peer) => ReleaseKeeps(s, cid, id, peer);
    case CleanDrop(plan) => DropKeeps(s, cid, plan);
    case CleanPeer(plan, peer) => CleanPeerKeeps(s, cid, plan, peer);
    case CleanAddress(plan) => CleanAddressKeeps(s, cid, plan);
    case CleanEnd(plan) => EndKeeps(s, cid, plan);
    case _ => MoveKeeps(s, cid, AdvanceCall(s, cid, ok, skipReady).calls[cid]);
  }

  /** Every step of any call, with any external result, keeps the invariant. */
  lemma NextKeeps(s: State, a: Action)
    requires Core(s)
    ensures Core(Next(s, a)) && (PeersExact(s) ==> PeersExact(Next(s, a)))
  {
    hide Core, PeersExact, AdvanceCall, StartRun, StartCleanup;
    match a
    case RunPod(cid) => if cid !in s.calls { StartRunKeeps(s, cid); }
    case Cleanup(cid, pod, remove) =>
      if cid !in s.calls && pod !in s.t.cleanup { StartCleanupKeeps(s, cid, pod, remove); }
    case Advance(cid, ok, skipReady) => if cid in s.calls { AdvanceKeeps(s, cid, ok, skipReady); }
  }

  lemma {:induction false} ExecKeeps(s: State, acts: seq<Action>)
    requires Core(s)
    ensures Core(Exec(s, acts)) && (PeersExact(s) ==> PeersExact(Exec(s, acts)))
    decreases |acts|
  {
    hide Core, PeersExact, Next;
    if acts != [] {
      NextKeeps(s, acts[0]);
      ExecKeeps(Next(s, acts[0]), acts[1..]);
    }
  }
}
