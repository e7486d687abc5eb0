/**
 The runtime engine's pods and kernels under concurrent RunPod, StopPod and RemovePod calls.

 A step is one section under the engine's lock, one call of an allocator, or one call out of the
 engine (starting, awaiting or stopping a kernel, stopping or removing a container), whose result is
 free.  Any number of calls on any pods interleave.
*/
module Engine {
  import opened Basics
  import opened Allocators

  datatype PodState = Ready | NotReady

  datatype Pod = Pod(state: PodState, kernelId: nat, ip: Option<int>)

  /** The maps that the engine's lock protects; a recorded kernel is represented by its peer id. */
  datatype Tables = Tables(kernels: map<nat, int>, pods: map<nat, Pod>, cleanup: set<nat>)

  /** What a StopPod or RemovePod call remembers from its first section. */
  datatype Plan = Plan(pod: nat, kernelId: nat, ip: Option<int>, stopKernel: bool, remove: bool)

  /** The first section of StopPod and RemovePod, entered when the pod has no cleanup mark. */
  function BeginCleanup(t: Tables, pod: nat, remove: bool): (r: Option<Plan>) {
    if pod !in t.pods then None
    else
      var p := t.pods[pod];
      var stopKernel := p.kernelId in t.kernels;
      if !remove && !stopKernel && p.state == NotReady && p.ip == None then None
      else Some(Plan(pod, p.kernelId, p.ip, stopKernel, remove))
  }

  /** The section that forgets the kernel and the address, and for RemovePod the pod. */
  function Drop(t: Tables, plan: Plan): (r: (Tables, Option<int>)) {
    var pods :=
      if plan.remove then t.pods - {plan.pod}
      else if plan.pod in t.pods then t.pods[plan.pod := t.pods[plan.pod].(state := NotReady, ip := None)]
      else t.pods;
    if plan.kernelId in t.kernels then
      (t.(pods := pods, kernels := t.kernels - {plan.kernelId}), Some(t.kernels[plan.kernelId]))
    else
      (t.(pods := pods), None)
  }

  /** The section in which RunPod records its kernel and its pod. */
  function Recorded(t: Tables, id: nat, peer: int, ip: int): (r: Tables) {
    t.(kernels := t.kernels[id := peer], pods := t.pods[id := Pod(Ready, id, Some(ip))])
  }

  /** beginPodCleanupLocked and endPodCleanupLocked. */
  function Marked(t: Tables, pod: nat): (r: Tables) {
    t.(cleanup := t.cleanup + {pod})
  }

  function Unmarked(t: Tables, pod: nat): (r: Tables) {
    t.(cleanup := t.cleanup - {pod})
  }

  /** The engine's maps as the locked sections change them. */
  class Locked {
    var kernels: map<nat, int>
    var pods: map<nat, Pod>
    var podCleanup: set<nat>

    function View(): Tables
      reads this
    {
      Tables(kernels, pods, podCleanup)
    }

    constructor ()
      ensures View() == Tables(map[], map[], {})
    {
      kernels, pods, podCleanup := map[], map[], {};
    }

    method RecordPod(id: nat, peer: int, ip: int)
      modifies this
      ensures View() == Recorded(old(View()), id, peer, ip)
    {
      kernels := kernels[id := peer];
      pods := pods[id := Pod(Ready, id, Some(ip))];
    }

    /** Called once waitForPodCleanupLocked has returned, that is, with no mark on the pod. */
    method Begin(pod: nat, remove: bool) returns (plan: Option<Plan>)
      requires pod !in podCleanup
      modifies this`podCleanup
      ensures plan == BeginCleanup(old(View()), pod, remove)
      ensures View() == if plan.Some? then Marked(old(View()), pod) else old(View())
    {
      if pod !in pods {
        return None;
      }
      var p := pods[pod];
      var stopKernel := p.kernelId in kernels;
      if !remove && !stopKernel && p.state == NotReady && p.ip == None {
        return None;
      }
      podCleanup := podCleanup + {pod};
      return Some(Plan(pod, p.kernelId, p.ip, stopKernel, remove));
    }

    method DropPod(plan: Plan) returns (peer: Option<int>)
      modifies this`pods, this`kernels
      ensures (View(), peer) == Drop(old(View()), plan)
    {
      if plan.remove {
        pods := pods - {plan.pod};
      } else if plan.pod in pods {
        pods := pods[plan.pod := pods[plan.pod].(state := NotReady, ip := None)];
      }
      if plan.kernelId in kernels {
        peer := Some(kernels[plan.kernelId]);
        kernels := kernels - {plan.kernelId};
      } else {
        peer := None;
      }
    }

    method End(pod: nat)
      modifies this`podCleanup
      ensures View() == Unmarked(old(View()), pod)
    {
      podCleanup := podCleanup - {pod};
    }
  }

  /** Where a call is.  RunPod draws one id for its pod and its kernel. */
  datatype Call =
    | RunStart(id: nat, peer: int)
    | RunWait(id: nat, peer: int)
    | RunAddress(id: nat, peer: int)
    | RunRecord(id: nat, peer: int, ip: int)
    | RunUndo(id: nat, peer: int)
    | RunRelease(id: nat, peer: int)
    | CleanContainers(plan: Plan)
    | CleanKernel(plan: Plan)
    | CleanDrop(plan: Plan)
    | CleanPeer(plan: Plan, peer: int)
    | CleanAddress(plan: Plan)
    | CleanEnd(plan: Plan)

  datatype Owner = OfKernel(id: nat) | OfPod(id: nat) | OfCall(cid: nat)

  /**
   The engine, its allocators and the calls in flight.  `marker`, `peerOwner`, `ipOwner`, `dropped`
   and `nextId` are observations: which call set a cleanup mark, who holds each issued id, which
   kernels cleanup has dropped, and the next id that util.NewID has not returned yet.
  */
  datatype State = State(
    t: Tables, peers: Pool, ips: Pool, calls: map<nat, Call>,
    nextId: nat, marker: map<nat, nat>, peerOwner: map<int, Owner>, ipOwner: map<int, Owner>, dropped: set<nat>)

  datatype Action =
    | RunPod(cid: nat)
    | Cleanup(cid: nat, pod: nat, remove: bool)
    | Advance(cid: nat, ok: bool, skipReady: bool)

  function Init(peers: Pool, ips: Pool): (s: State) {
    State(Tables(map[], map[], {}), peers, ips, map[], 0, map[], map[], map[], {})
  }

  /** What RunPod records as peer id: the manager echoes the 16-bit value it was given. */
  function Echoed(peer: int): (r: int) {
    peer % 65536
  }

  function Goto(s: State, cid: nat, c: Call): (r: State) {
    s.(calls := s.calls[cid := c])
  }

  function Finish(s: State, cid: nat): (r: State) {
    s.(calls := s.calls - {cid})
  }

  function StartRun(s: State, cid: nat): (r: State) {
    var peer, peers := Take(s.peers).0, Take(s.peers).1;
    if peer.None? then s
    else
      Goto(s, cid, RunStart(s.nextId, peer.value))
      .(peers := peers, nextId := s.nextId + 1, peerOwner := s.peerOwner[peer.value := OfCall(cid)])
  }

  function StartCleanup(s: State, cid: nat, pod: nat, remove: bool): (r: State) {
    var plan := BeginCleanup(s.t, pod, remove);
    if plan.None? then s
    else
      Goto(s, cid, CleanContainers(plan.value))
      .(t := Marked(s.t, pod), marker := s.marker[pod := cid])
  }

  function TakeAddress(s: State, cid: nat, id: nat, peer: int): (r: State) {
    var ip, ips := Take(s.ips).0, Take(s.ips).1;
    if ip.None? then Goto(s, cid, RunUndo(id, peer))
    else Goto(s, cid, RunRecord(id, peer, ip.value)).(ips := ips, ipOwner := s.ipOwner[ip.value := OfCall(cid)])
  }

  function Record(s: State, cid: nat, id: nat, peer: int, ip: int): (r: State) {
    Finish(s, cid)
    .(t := Recorded(s.t, id, Echoed(peer), ip),
      peerOwner := s.peerOwner[Echoed(peer) := OfKernel(id)], ipOwner := s.ipOwner[ip := OfPod(id)])
  }

  function FreePeer(s: State, peer: int): (r: State) {
    s.(peers := Give(s.peers, peer), peerOwner := s.peerOwner - {peer})
  }

  function FreeIp(s: State, ip: Option<int>): (r: State) {
    if ip.None? then s else s.(ips := Give(s.ips, ip.value), ipOwner := s.ipOwner - {ip.value})
  }

  function DropStep(s: State, cid: nat, plan: Plan): (r: State) {
    var t', peer := Drop(s.t, plan).0, Drop(s.t, plan).1;
    var s' := s.(t := t', ipOwner := if plan.ip.Some? then s.ipOwner[plan.ip.value := OfCall(cid)] else s.ipOwner);
    if peer.Some? then
      Goto(s', cid, CleanPeer(plan, peer.value))
      .(peerOwner := s.peerOwner[peer.value := OfCall(cid)], dropped := s.dropped + {plan.kernelId})
    else Goto(s', cid, CleanAddress(plan))
  }

  function EndCleanup(s: State, cid: nat, plan: Plan): (r: State) {
    Finish(s, cid).(t := Unmarked(s.t, plan.pod), marker := s.marker - {plan.pod})
  }

  function AdvanceCall(s: State, cid: nat, ok: bool, skipReady: bool): (r: State)
    requires cid in s.calls
  {
    match s.calls[cid]
    case RunStart(id, peer) =>
      Goto(s, cid, if !ok then RunRelease(id, peer) else if skipReady then RunAddress(id, peer) else RunWait(id, peer))
    case RunWait(id, peer) => Goto(s, cid, if ok then RunAddress(id, peer) else RunUndo(id, peer))
    case RunAddress(id, peer) => TakeAddress(s, cid, id, peer)
    case RunRecord(id, peer, ip) => Record(s, cid, id, peer, ip)
    case RunUndo(id, peer) => Goto(s, cid, RunRelease(id, peer))
    case RunRelease(id, peer) => Finish(FreePeer(s, peer), cid)
    case CleanContainers(plan) => Goto(s, cid, if ok then CleanKernel(plan) else CleanEnd(plan))
    case CleanKernel(plan) =>
      Goto(s, cid, if plan.stopKernel && !ok && !plan.remove then CleanEnd(plan) else CleanDrop(plan))
    case CleanDrop(plan) => DropStep(s, cid, plan)
    case CleanPeer(plan, peer) => Goto(FreePeer(s, peer), cid, CleanAddress(plan))
    case CleanAddress(plan) => Goto(FreeIp(s, plan.ip), cid, CleanEnd(plan))
    case CleanEnd(plan) => EndCleanup(s, cid, plan)
  }

  /** Any action at any time; a cleanup of a marked pod waits, that is, changes nothing. */
  function Next(s: State, a: Action): (r: State) {
    match a
    case RunPod(cid) => if cid in s.calls then s else StartRun(s, cid)
    case Cleanup(cid, pod, remove) =>
      if cid in s.calls || pod in s.t.cleanup then s else StartCleanup(s, cid, pod, remove)
    case Advance(cid, ok, skipReady) => if cid in s.calls then AdvanceCall(s, cid, ok, skipReady) else s
  }

  function Exec(s: State, acts: seq<Action>): (r: State)
    decreases |acts|
  {
    if acts == [] then s else Exec(Next(s, acts[0]), acts[1..])
  }

  // Who holds what.

  predicate IsRun(c: Call) {
    c.RunStart? || c.RunWait? || c.RunAddress? || c.RunRecord? || c.RunUndo? || c.RunRelease?
  }

  function HeldPeer(c: Call): (r: Option<int>) {
    if IsRun(c) || c.CleanPeer? then Some(c.peer) else None
  }

  function HeldIp(c: Call): (r: Option<int>) {
    if c.RunRecord? then Some(c.ip)
    else if c.CleanPeer? || c.CleanAddress? then c.plan.ip
    else None
  }

  /** The pod and the kernel are still as the call found them. */
  predicate BeforeDrop(c: Call) {
    c.CleanContainers? || c.CleanKernel? || c.CleanDrop?
  }

  /**
   The calls' own peers and addresses, the kernels' peers and the pods' addresses are exactly what
   the pools have issued, each held once.
  */
  predicate PeersOwned(s: State) {
    && s.peerOwner.Keys == s.peers.used
    && (forall x :: x in s.peerOwner ==>
          match s.peerOwner[x]
          case OfKernel(k) => k in s.t.kernels && s.t.kernels[k] == x
          case OfCall(c) => c in s.calls && HeldPeer(s.calls[c]) == Some(x)
          case OfPod(_) => false)
    && (forall k :: k in s.t.kernels ==> s.t.kernels[k] in s.peerOwner && s.peerOwner[s.t.kernels[k]] == OfKernel(k))
    && (forall c :: c in s.calls && HeldPeer(s.calls[c]).Some? ==>
          HeldPeer(s.calls[c]).value in s.peerOwner && s.peerOwner[HeldPeer(s.calls[c]).value] == OfCall(c))
  }

  predicate IpsOwned(s: State) {
    && s.ipOwner.Keys == s.ips.used
    && (forall x :: x in s.ipOwner ==>
          match s.ipOwner[x]
          case OfPod(p) => p in s.t.pods && s.t.pods[p].ip == Some(x)
          case OfCall(c) => c in s.calls && HeldIp(s.calls[c]) == Some(x)
          case OfKernel(_) => false)
    && (forall p :: p in s.t.pods && s.t.pods[p].ip.Some? ==>
          s.t.pods[p].ip.value in s.ipOwner && s.ipOwner[s.t.pods[p].ip.value] == OfPod(p))
    && (forall c :: c in s.calls && HeldIp(s.calls[c]).Some? ==>
          HeldIp(s.calls[c]).value in s.ipOwner && s.ipOwner[HeldIp(s.calls[c]).value] == OfCall(c))
  }

  /** A pod is READY exactly when it has an address and exactly when its kernel is recorded. */
  predicate PodsOk(s: State) {
    && (forall p :: p in s.t.pods ==>
          && s.t.pods[p].kernelId == p && p < s.nextId
          && (s.t.pods[p].state == Ready <==> s.t.pods[p].ip.Some?)
          && (s.t.pods[p].ip.Some? <==> p in s.t.kernels))
    && (forall k :: k in s.t.kernels ==> k in s.t.pods && k !in s.dropped)
    && (forall k :: k in s.dropped ==> k < s.nextId)
  }

  predicate CallsOk(s: State) {
    && s.marker.Keys == s.t.cleanup
    && (forall c :: c in s.calls && IsRun(s.calls[c]) ==>
          var id := s.calls[c].id;
          && id < s.nextId && id !in s.t.pods && id !in s.dropped
          && (forall c' :: c' in s.calls && IsRun(s.calls[c']) && s.calls[c'].id == id ==> c' == c))
    && (forall c :: c in s.calls && !IsRun(s.calls[c]) ==>
          var plan := s.calls[c].plan;
          && plan.kernelId == plan.pod
          && plan.pod in s.marker && s.marker[plan.pod] == c
          && (BeforeDrop(s.calls[c]) ==>
                && plan.pod in s.t.pods && s.t.pods[plan.pod].ip == plan.ip
                && (plan.stopKernel <==> plan.pod in s.t.kernels)))
    && (forall p :: p in s.marker ==>
          s.marker[p] in s.calls && !IsRun(s.calls[s.marker[p]]) && s.calls[s.marker[p]].plan.pod == p)
  }

  /** Every peer id survives the conversion to 16 bits, or no pod can ever get an address. */
  predicate Fits(peers: Pool, ips: Pool) {
    peers.lo >= 0 && (peers.hi < 65536 || ips.hi < ips.lo)
  }

  /** What every configuration keeps: pods, addresses and calls. */
  ghost predicate Core(s: State) {
    Partitioned(s.peers) && Partitioned(s.ips) && IpsOwned(s) && PodsOk(s) && CallsOk(s)
  }

  /** What it takes a fitting configuration to keep: peer ids. */
  ghost predicate PeersExact(s: State) {
    Fits(s.peers, s.ips) && PeersOwned(s)
  }
}
