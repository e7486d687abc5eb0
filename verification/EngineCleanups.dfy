/**
 What one StopPod or RemovePod call does from its first step to its last, with the steps of any
 number of other calls in between.
*/
module EngineCleanups {
  import opened Basics
  import opened Allocators
  import opened Engine
  import opened EngineProofs
  import opened EngineTheorems
  import opened EngineCalls

  /**
   The container was stopped or removed, and the kernel was stopped or had not to be; RemovePod
   does not ask what stopping the kernel returned.
  */
  predicate CleanupSucceeds(r: seq<Seen>, stopKernel: bool, remove: bool) {
    |r| > 1 && r[0].ok && (remove || !stopKernel || r[1].ok)
  }

  /** The stage of a cleanup that has seen `r`, or None if it has returned; `peer` is that of its kernel, if any. */
  function CleanStage(r: seq<Seen>, plan: Plan, peer: Option<int>): (c: Option<Call>) {
    if |r| == 0 then Some(CleanContainers(plan))
    else if |r| == 1 then Some(if r[0].ok then CleanKernel(plan) else CleanEnd(plan))
    else if !CleanupSucceeds(r, plan.stopKernel, plan.remove) then
      if |r| == 2 && r[0].ok then Some(CleanEnd(plan)) else None
    else if |r| == 2 then Some(CleanDrop(plan))
    else
      var k := if peer.Some? then |r| else |r| + 1;
      if k == 3 then Some(CleanPeer(plan, if peer.Some? then peer.value else 0))
      else if k == 4 then Some(CleanAddress(plan))
      else if k == 5 then Some(CleanEnd(plan))
      else None
  }

  /** The pod and its kernel as two tables have them. */
  ghost predicate SameAt(t: Tables, t': Tables, pod: nat) {
    && (pod in t.pods <==> pod in t'.pods) && (pod in t.pods ==> t'.pods[pod] == t.pods[pod])
    && (pod in t.kernels <==> pod in t'.kernels) && (pod in t.kernels ==> t'.kernels[pod] == t.kernels[pod])
  }

  /** The pod is cleaned up: removed, or NOT_READY without address; its kernel is forgotten. */
  ghost predicate DroppedAt(t: Tables, pod: nat, remove: bool) {
    && pod !in t.kernels
    && (if remove then pod !in t.pods else pod in t.pods && t.pods[pod] == Pod(NotReady, pod, None))
  }

  /** The pod's id was drawn by a RunPod that has recorded it. */
  ghost predicate Settled(s: State, pod: nat) {
    pod < s.nextId && forall c :: c in s.calls && IsRun(s.calls[c]) ==> s.calls[c].id != pod
  }

  // Other calls leave the pod alone.

  lemma OtherCleanup(s: State, cid: nat, pod: nat, c: nat)
    requires CallsOk(s) && cid in s.calls && !IsRun(s.calls[cid]) && s.calls[cid].plan.pod == pod
    requires c in s.calls && c != cid && !IsRun(s.calls[c])
    ensures s.calls[c].plan.pod != pod && s.calls[c].plan.kernelId != pod
  {
  }

  lemma DropElsewhere(t: Tables, plan: Plan, pod: nat)
    requires plan.pod != pod && plan.kernelId != pod
    ensures SameAt(t, Drop(t, plan).0, pod)
  {
  }

  lemma RunsElsewhere(s: State, a: Action, pod: nat)
    requires a.Advance? && a.cid in s.calls && IsRun(s.calls[a.cid]) && s.calls[a.cid].id != pod
    ensures SameAt(s.t, Next(s, a).t, pod)
  {
    hide Take, Give;
  }

  lemma DropEffect(s: State, cid: nat, plan: Plan)
    ensures var s' := DropStep(s, cid, plan);
      && s'.t == Drop(s.t, plan).0 && s'.peers == s.peers && s'.ips == s.ips && s'.nextId == s.nextId
      && cid in s'.calls
      && s'.calls[cid] == (if plan.kernelId in s.t.kernels then CleanPeer(plan, s.t.kernels[plan.kernelId])
                           else CleanAddress(plan))
  {
  }

  lemma CleansElsewhere(s: State, a: Action, pod: nat)
    requires a.Advance? && a.cid in s.calls && !IsRun(s.calls[a.cid])
    requires s.calls[a.cid].plan.pod != pod && s.calls[a.cid].plan.kernelId != pod
    ensures SameAt(s.t, Next(s, a).t, pod)
  {
    DropElsewhere(s.t, s.calls[a.cid].plan, pod);
    DropEffect(s, a.cid, s.calls[a.cid].plan);
    hide Give, Drop, DropStep;
  }

  lemma OthersLeavePod(s: State, a: Action, cid: nat, pod: nat)
    requires CallsOk(s) && cid in s.calls && !IsRun(s.calls[cid]) && s.calls[cid].plan.pod == pod && Settled(s, pod)
    requires !Own(a, cid)
    ensures SameAt(s.t, Next(s, a).t, pod)
  {
    hide CallsOk, Take, AdvanceCall, BeginCleanup;
    if a.Advance? && a.cid in s.calls {
      if IsRun(s.calls[a.cid]) {
        RunsElsewhere(s, a, pod);
      } else {
        OtherCleanup(s, cid, pod, a.cid);
        CleansElsewhere(s, a, pod);
      }
    }
  }

  lemma RunKeepsId(s: State, a: Action)
    requires a.Advance? && a.cid in s.calls && IsRun(s.calls[a.cid])
    ensures Next(s, a).nextId == s.nextId
    ensures a.cid in Next(s, a).calls ==> var c := Next(s, a).calls[a.cid]; IsRun(c) && c.id == s.calls[a.cid].id
  {
    hide Take, Give;
  }

  lemma CleanKeepsPlan(s: State, a: Action)
    requires a.Advance? && a.cid in s.calls && !IsRun(s.calls[a.cid])
    ensures Next(s, a).nextId == s.nextId
    ensures a.cid in Next(s, a).calls ==> var c := Next(s, a).calls[a.cid]; !IsRun(c) && c.plan == s.calls[a.cid].plan
  {
    DropEffect(s, a.cid, s.calls[a.cid].plan);
    hide Give, Drop, DropStep;
  }

  lemma StaysSettled(s: State, a: Action, pod: nat)
    requires Settled(s, pod)
    ensures Settled(Next(s, a), pod)
  {
    hide Take, BeginCleanup;
    if a.Advance? && a.cid in s.calls {
      if IsRun(s.calls[a.cid]) {
        RunMovesOne(s, a.cid, a.ok, a.skipReady);
        RunKeepsId(s, a);
      } else {
        CleanMovesOne(s, a.cid, a.ok, a.skipReady);
        CleanKeepsPlan(s, a);
      }
      hide AdvanceCall;
    }
  }

  // The call's own steps.

  /** The peer id of the pod's kernel, if one is recorded. */
  function KernelPeer(t: Tables, pod: nat): (r: Option<int>) {
    if pod in t.kernels then Some(t.kernels[pod]) else None
  }

  /** The section that forgets pod and kernel is behind the call. */
  predicate PastDrop(r: seq<Seen>, plan: Plan) {
    CleanupSucceeds(r, plan.stopKernel, plan.remove) && |r| > 2
  }

  lemma CleanStageStep(r: seq<Seen>, x: Seen, plan: Plan, peer: Option<int>)
    requires CleanStage(r, plan, peer).Some?
    ensures var c := CleanStage(r + [x], plan, peer);
      match CleanStage(r, plan, peer).value
      case CleanContainers(_) => c == Some(if x.ok then CleanKernel(plan) else CleanEnd(plan))
      case CleanKernel(_) =>
        c == Some(if plan.remove || !plan.stopKernel || x.ok then CleanDrop(plan) else CleanEnd(plan))
      case CleanDrop(_) => c == Some(if peer.Some? then CleanPeer(plan, peer.value) else CleanAddress(plan))
      case CleanPeer(_, _) => c == Some(CleanAddress(plan))
      case CleanAddress(_) => c == Some(CleanEnd(plan))
      case CleanEnd(_) => c == None
      case _ => false
  {
    var r' := r + [x];
    assert forall i :: 0 <= i < |r| ==> r'[i] == r[i];
  }

  lemma PastDropStep(r: seq<Seen>, x: Seen, plan: Plan, peer: Option<int>)
    requires CleanStage(r, plan, peer).Some?
    ensures var c := CleanStage(r, plan, peer).value;
      && !IsRun(c) && c.plan == plan
      && (PastDrop(r + [x], plan) <==> PastDrop(r, plan) || c.CleanDrop?)
      && (c.CleanDrop? ==> !PastDrop(r, plan))
  {
    var r' := r + [x];
    assert forall i :: 0 <= i < |r| ==> r'[i] == r[i];
  }

  lemma CleanAdvances(s: State, a: Action, cid: nat, r: seq<Seen>, plan: Plan, peer: Option<int>)
    requires cid in s.calls && Own(a, cid) && CleanStage(r, plan, peer) == Some(s.calls[cid])
    requires !PastDrop(r, plan) ==> peer == KernelPeer(s.t, plan.kernelId)
    ensures var s' := Next(s, a);
      CleanStage(r + [Saw(s, a)], plan, peer) == if cid in s'.calls then Some(s'.calls[cid]) else None
  {
    CleanStageStep(r, Saw(s, a), plan, peer);
    PastDropStep(r, Saw(s, a), plan, peer);
    DropEffect(s, cid, plan);
    hide Give, Take, Drop, DropStep, CleanStage, PastDrop;
  }

  /** What the call knows of its pod: untouched until the drop, dropped from then on. */
  ghost predicate PodIs(t0: Tables, t: Tables, r: seq<Seen>, plan: Plan) {
    if PastDrop(r, plan) then DroppedAt(t, plan.pod, plan.remove) else SameAt(t0, t, plan.pod)
  }

  lemma DropsHere(t: Tables, plan: Plan)
    requires plan.pod in t.pods && t.pods[plan.pod].kernelId == plan.pod == plan.kernelId
    ensures DroppedAt(Drop(t, plan).0, plan.pod, plan.remove)
  {
  }

  lemma CleanTables(s: State, a: Action, cid: nat)
    requires cid in s.calls && Own(a, cid) && !IsRun(s.calls[cid])
    ensures var t, t', c := s.t, Next(s, a).t, s.calls[cid];
      && t'.pods == (if c.CleanDrop? then Drop(t, c.plan).0.pods else t.pods)
      && t'.kernels == (if c.CleanDrop? then Drop(t, c.plan).0.kernels else t.kernels)
  {
    DropEffect(s, cid, s.calls[cid].plan);
    hide Give, Drop, DropStep;
  }

  lemma PodStep(s: State, a: Action, cid: nat, r: seq<Seen>, plan: Plan, peer: Option<int>, t0: Tables)
    requires Core(s) && cid in s.calls && Own(a, cid) && CleanStage(r, plan, peer) == Some(s.calls[cid])
    requires PodIs(t0, s.t, r, plan)
    ensures PodIs(t0, Next(s, a).t, r + [Saw(s, a)], plan)
  {
    PastDropStep(r, Saw(s, a), plan, peer);
    CleanTables(s, a, cid);
    hide CleanStage, PastDrop, Next, Drop, Partitioned, IpsOwned;
    if s.calls[cid].CleanDrop? {
      assert plan.pod in s.t.pods && s.t.pods[plan.pod].kernelId == plan.pod == plan.kernelId;
      DropsHere(s.t, plan);
    }
  }

  // What it gives back.

  function Members(x: Option<int>): (r: set<int>) {
    if x.Some? then {x.value} else {}
  }

  predicate PeerBack(r: seq<Seen>, plan: Plan, peer: Option<int>) {
    PastDrop(r, plan) && peer.Some? && |r| > 3
  }

  predicate AddressBack(r: seq<Seen>, plan: Plan, peer: Option<int>) {
    PastDrop(r, plan) && (if peer.Some? then |r| > 4 else |r| > 3)
  }

  ghost predicate CleanBooks(l: Ledger, r: seq<Seen>, plan: Plan, peer: Option<int>, fits: bool) {
    && l.peersTaken == {} && l.ipsTaken == {}
    && l.ipsFreed == (if AddressBack(r, plan, peer) then Members(plan.ip) else {})
    && l.peersFreed <= (if PeerBack(r, plan, peer) then Members(peer) else {})
    && (fits && PeerBack(r, plan, peer) ==> l.peersFreed == Members(peer))
  }

  lemma BackStep(r: seq<Seen>, x: Seen, plan: Plan, peer: Option<int>)
    requires CleanStage(r, plan, peer).Some?
    ensures var c := CleanStage(r, plan, peer).value;
      && (PeerBack(r + [x], plan, peer) <==> PeerBack(r, plan, peer) || c.CleanPeer?)
      && (AddressBack(r + [x], plan, peer) <==> AddressBack(r, plan, peer) || c.CleanAddress?)
      && (c.CleanPeer? ==> !PeerBack(r, plan, peer) && Some(c.peer) == peer)
      && (c.CleanAddress? ==> !AddressBack(r, plan, peer))
  {
    var r' := r + [x];
    assert forall i :: 0 <= i < |r| ==> r'[i] == r[i];
  }

  lemma CleanPools(s: State, a: Action, cid: nat)
    requires cid in s.calls && Own(a, cid) && !IsRun(s.calls[cid])
    ensures var s', c := Next(s, a), s.calls[cid];
      && s'.peers == (if c.CleanPeer? then Give(s.peers, c.peer) else s.peers)
      && s'.ips == (if c.CleanAddress? && c.plan.ip.Some? then Give(s.ips, c.plan.ip.value) else s.ips)
  {
    DropEffect(s, cid, s.calls[cid].plan);
    hide Give, Drop, DropStep;
  }

  lemma AddressHeld(s: State, cid: nat)
    requires IpsOwned(s) && cid in s.calls && s.calls[cid].CleanAddress? && s.calls[cid].plan.ip.Some?
    ensures s.calls[cid].plan.ip.value in s.ips.used
  {
    assert HeldIp(s.calls[cid]) == s.calls[cid].plan.ip;
  }

  lemma PeerBooked(l: Ledger, s: State, s': State, x: int)
    requires Partitioned(s.peers) && s'.peers == Give(s.peers, x) && s'.ips == s.ips
    ensures Booked(l, s, s') == l.(peersFreed := l.peersFreed + s.peers.used * {x})
  {
    GiveExact(s.peers, x);
    hide Give;
  }

  lemma AddressReturned(l: Ledger, s: State, s': State, x: int)
    requires Partitioned(s.ips) && s'.ips == Give(s.ips, x) && s'.peers == s.peers && x in s.ips.used
    ensures Booked(l, s, s') == l.(ipsFreed := l.ipsFreed + {x})
  {
    GiveExact(s.ips, x);
    hide Give;
  }

  lemma PeerBackBooks(l: Ledger, r: seq<Seen>, r': seq<Seen>, plan: Plan, peer: Option<int>,
                      fits: bool, freed: set<int>)
    requires CleanBooks(l, r, plan, peer, fits) && !PeerBack(r, plan, peer) && PeerBack(r', plan, peer)
    requires AddressBack(r', plan, peer) == AddressBack(r, plan, peer)
    requires freed <= Members(peer) && (fits ==> freed == Members(peer))
    ensures CleanBooks(l.(peersFreed := l.peersFreed + freed), r', plan, peer, fits)
  {
    hide PeerBack, AddressBack, Members;
  }

  lemma AddressBackBooks(l: Ledger, r: seq<Seen>, r': seq<Seen>, plan: Plan, peer: Option<int>, fits: bool)
    requires CleanBooks(l, r, plan, peer, fits) && !AddressBack(r, plan, peer) && AddressBack(r', plan, peer)
    requires PeerBack(r', plan, peer) == PeerBack(r, plan, peer)
    ensures CleanBooks(l.(ipsFreed := l.ipsFreed + Members(plan.ip)), r', plan, peer, fits)
  {
    hide PeerBack, AddressBack, Members;
  }

  lemma SameBackBooks(l: Ledger, r: seq<Seen>, r': seq<Seen>, plan: Plan, peer: Option<int>, fits: bool)
    requires CleanBooks(l, r, plan, peer, fits)
    requires AddressBack(r', plan, peer) == AddressBack(r, plan, peer)
    requires PeerBack(r', plan, peer) == PeerBack(r, plan, peer)
    ensures CleanBooks(l, r', plan, peer, fits)
  {
    hide PeerBack, AddressBack, Members;
  }

  lemma CleanBooksStep(s: State, a: Action, cid: nat, r: seq<Seen>, plan: Plan, peer: Option<int>,
                       l: Ledger, fits: bool)
    requires Core(s) && cid in s.calls && Own(a, cid) && CleanStage(r, plan, peer) == Some(s.calls[cid])
    requires CleanBooks(l, r, plan, peer, fits) && (fits ==> PeersExact(s))
    ensures CleanBooks(Booked(l, s, Next(s, a)), r + [Saw(s, a)], plan, peer, fits)
  {
    var s', c, r' := Next(s, a), s.calls[cid], r + [Saw(s, a)];
    PastDropStep(r, Saw(s, a), plan, peer);
    BackStep(r, Saw(s, a), plan, peer);
    CleanPools(s, a, cid);
    assert Partitioned(s.peers) && Partitioned(s.ips) && IpsOwned(s);
    hide Next, Give, CleanStage, PastDrop, PeerBack, AddressBack, PeersExact, Booked, Partitioned, IpsOwned, Core, Saw;
    hide CleanBooks;
    if c.CleanPeer? {
      if fits { HolderIsUsed(s, cid); }
      PeerBooked(l, s, s', c.peer);
      PeerBackBooks(l, r, r', plan, peer, fits, s.peers.used * {c.peer});
    } else if c.CleanAddress? {
      AddressBackBooks(l, r, r', plan, peer, fits);
      if plan.ip.Some? {
        AddressHeld(s, cid);
        AddressReturned(l, s, s', plan.ip.value);
      } else {
        SameBooks(l, s, s');
        assert l.ipsFreed + {} == l.ipsFreed;
      }
    } else {
      SameBooks(l, s, s');
      SameBackBooks(l, r, r', plan, peer, fits);
    }
  }

  // Whole calls.

  /** All that is known of a cleanup in flight that has seen `r`. */
  ghost predicate CleanIs(s: State, cid: nat, r: seq<Seen>, l: Ledger, plan: Plan, t0: Tables, fits: bool) {
    && cid in s.calls && CleanStage(r, plan, KernelPeer(t0, plan.pod)) == Some(s.calls[cid])
    && Settled(s, plan.pod)
    && PodIs(t0, s.t, r, plan)
    && CleanBooks(l, r, plan, KernelPeer(t0, plan.pod), fits)
  }

  lemma OwnStep(s: State, a: Action, cid: nat, r: seq<Seen>, l: Ledger, plan: Plan, t0: Tables, fits: bool)
    requires Core(s) && CleanIs(s, cid, r, l, plan, t0, fits) && Own(a, cid) && (fits ==> PeersExact(s))
    requires plan.kernelId == plan.pod
    ensures var s', r', peer := Next(s, a), r + [Saw(s, a)], KernelPeer(t0, plan.pod);
      && CleanStage(r', plan, peer) == (if cid in s'.calls then Some(s'.calls[cid]) else None)
      && Settled(s', plan.pod) && PodIs(t0, s'.t, r', plan)
      && CleanBooks(Booked(l, s, s'), r', plan, peer, fits)
      && (cid in s'.calls ==> CleanIs(s', cid, r', Booked(l, s, s'), plan, t0, fits))
  {
    var peer := KernelPeer(t0, plan.pod);
    assert !PastDrop(r, plan) ==> peer == KernelPeer(s.t, plan.kernelId);
    hide Core, PeersExact, CleanStage, Settled, PodIs, CleanBooks, Next, Saw, Booked, PastDrop;
    CleanAdvances(s, a, cid, r, plan, peer);
    PodStep(s, a, cid, r, plan, peer, t0);
    CleanBooksStep(s, a, cid, r, plan, peer, l, fits);
    StaysSettled(s, a, plan.pod);
  }

  lemma SameThrough(t0: Tables, t: Tables, t': Tables, r: seq<Seen>, plan: Plan)
    requires PodIs(t0, t, r, plan) && SameAt(t, t', plan.pod)
    ensures PodIs(t0, t', r, plan)
  {
  }

  lemma StageIsClean(r: seq<Seen>, plan: Plan, peer: Option<int>)
    ensures CleanStage(r, plan, peer).Some? ==>
      !IsRun(CleanStage(r, plan, peer).value) && CleanStage(r, plan, peer).value.plan == plan
  {
  }

  lemma OtherStep(s: State, a: Action, cid: nat, r: seq<Seen>, l: Ledger, plan: Plan, t0: Tables, fits: bool)
    requires Core(s) && CleanIs(s, cid, r, l, plan, t0, fits) && !Own(a, cid)
    ensures CleanIs(Next(s, a), cid, r, l, plan, t0, fits)
  {
    StageIsClean(r, plan, KernelPeer(t0, plan.pod));
    hide Partitioned, IpsOwned, PodsOk, CallsOk, CleanStage, Settled, PodIs, CleanBooks, Next;
    OthersLeaveCall(s, a, cid);
    OthersLeavePod(s, a, cid, plan.pod);
    StaysSettled(s, a, plan.pod);
    SameThrough(t0, s.t, Next(s, a).t, r, plan);
  }

  lemma CleanInFlight(s: State, cid: nat, r: seq<Seen>, l: Ledger, plan: Plan, t0: Tables, fits: bool)
    requires CleanIs(s, cid, r, l, plan, t0, fits)
    ensures cid in s.calls && |r| <= 5
  {
    hide Settled, PodIs, CleanBooks;
  }

  lemma {:induction false} CleanTrace(s: State, acts: seq<Action>, cid: nat, plan: Plan, t0: Tables)
    requires Core(s) && CleanIs(s, cid, [], NOTHING, plan, t0, PeersExact(s)) && plan.kernelId == plan.pod
    requires Running(s, acts, cid)
    ensures CleanIs(Exec(s, acts), cid, Trace(s, acts, cid), Books(s, acts, cid), plan, t0, PeersExact(s))
    decreases |acts|
  {
    if acts == [] {
      hide Core, Running, CleanIs, PeersExact;
      assert Exec(s, acts) == s && Trace(s, acts, cid) == [] && Books(s, acts, cid) == NOTHING;
    } else {
      hide Exec, Core, PeersExact, Running, Next, Booked, Saw, CleanIs, CleanStage, Settled, PodIs, CleanBooks;
      var i := |acts| - 1;
      var u := Exec(s, acts[..i]);
      RunningPrefix(s, acts, cid);
      RunningHere(s, acts, cid);
      CleanTrace(s, acts[..i], cid, plan, t0);
      ExecKeeps(s, acts[..i]);
      ExecSnoc(s, acts);
      var r, l := Trace(s, acts[..i], cid), Books(s, acts[..i], cid);
      CleanInFlight(u, cid, r, l, plan, t0, PeersExact(s));
      if Own(acts[i], cid) {
        OwnStep(u, acts[i], cid, r, l, plan, t0, PeersExact(s));
      } else {
        OtherStep(u, acts[i], cid, r, l, plan, t0, PeersExact(s));
        assert r + [] == r;
      }
    }
  }

  lemma StartsCleanup(s: State, cid: nat, pod: nat, remove: bool)
    requires Core(s) && cid !in s.calls
    ensures var s' := Next(s, Cleanup(cid, pod, remove));
      && (cid in s'.calls <==>
            pod !in s.t.cleanup && pod in s.t.pods && (remove || s.t.pods[pod].state == Ready))
      && (cid !in s'.calls ==> s' == s)
      && (cid in s'.calls ==>
            && s'.t == s.t.(cleanup := s.t.cleanup + {pod}) && s'.peers == s.peers && s'.ips == s.ips
            && CleanIs(s', cid, [], NOTHING, Plan(pod, pod, s.t.pods[pod].ip, pod in s.t.kernels, remove), s.t,
                       PeersExact(s')))
  {
    hide Partitioned, IpsOwned;
  }

  /**
   In every reachable state RemovePod begins on every pod that is not being cleaned up, and StopPod on
   every such pod that is READY; beginning marks the pod and does nothing else, and otherwise nothing
   happens.
  */
  lemma CleanupStarts(peers: Pool, ips: Pool, before: seq<Action>, cid: nat, pod: nat, remove: bool)
    requires FreshPools(peers, ips) && cid !in Exec(Init(peers, ips), before).calls
    ensures var s := Exec(Init(peers, ips), before);
      var s' := Next(s, Cleanup(cid, pod, remove));
      && (cid in s'.calls <==>
            pod !in s.t.cleanup && pod in s.t.pods && (remove || s.t.pods[pod].state == Ready))
      && (cid !in s'.calls ==> s' == s)
      && (cid in s'.calls ==>
            s'.t == s.t.(cleanup := s.t.cleanup + {pod}) && s'.peers == s.peers && s'.ips == s.ips)
  {
    ReachableInv(peers, ips, before);
    hide Exec, Init, Next, Core, CleanIs;
    StartsCleanup(Exec(Init(peers, ips), before), cid, pod, remove);
  }

  /** What a finished cleanup leaves behind. */
  ghost predicate CleanupOutcome(t0: Tables, t: Tables, pod: nat, remove: bool, r: seq<Seen>, books: Ledger, fits: bool)
    requires pod in t0.pods
  {
    if CleanupSucceeds(r, pod in t0.kernels, remove) then
      && pod !in t.kernels
      && (if remove then pod !in t.pods else pod in t.pods && t.pods[pod] == Pod(NotReady, pod, None))
      && books == Ledger({}, books.peersFreed, {}, Members(t0.pods[pod].ip))
      && books.peersFreed <= Members(KernelPeer(t0, pod))
      && (fits ==> books.peersFreed == Members(KernelPeer(t0, pod)))
    else
      && pod in t.pods && t.pods[pod] == t0.pods[pod]
      && (pod in t.kernels <==> pod in t0.kernels)
      && (pod in t.kernels ==> t.kernels[pod] == t0.kernels[pod])
      && books == NOTHING
  }

  lemma Finished(r: seq<Seen>, plan: Plan, peer: Option<int>)
    requires CleanStage(r, plan, peer).None?
    ensures var ok := CleanupSucceeds(r, plan.stopKernel, plan.remove);
      && PastDrop(r, plan) == ok
      && AddressBack(r, plan, peer) == ok
      && PeerBack(r, plan, peer) == (ok && peer.Some?)
  {
  }

  lemma OutcomeOf(t0: Tables, t: Tables, plan: Plan, r: seq<Seen>, books: Ledger, fits: bool)
    requires plan.pod in t0.pods && plan.ip == t0.pods[plan.pod].ip && plan.stopKernel == (plan.pod in t0.kernels)
    requires CleanStage(r, plan, KernelPeer(t0, plan.pod)).None? && PodIs(t0, t, r, plan)
    requires CleanBooks(books, r, plan, KernelPeer(t0, plan.pod), fits)
    ensures CleanupOutcome(t0, t, plan.pod, plan.remove, r, books, fits)
  {
    Finished(r, plan, KernelPeer(t0, plan.pod));
    hide CleanStage, PastDrop, AddressBack, PeerBack, CleanupSucceeds;
  }

  lemma CleanReturns(s: State, acts: seq<Action>, cid: nat, plan: Plan, t0: Tables)
    requires Core(s) && CleanIs(s, cid, [], NOTHING, plan, t0, PeersExact(s)) && Returns(s, acts, cid)
    requires plan.kernelId == plan.pod && plan.pod in t0.pods && plan.ip == t0.pods[plan.pod].ip
    requires plan.stopKernel == (plan.pod in t0.kernels)
    ensures CleanupOutcome(t0, Exec(s, acts).t, plan.pod, plan.remove, Trace(s, acts, cid), Books(s, acts, cid),
                           PeersExact(s))
  {
    var i := |acts| - 1;
    var u := Exec(s, acts[..i]);
    RunningPrefix(s, acts, cid);
    CleanTrace(s, acts[..i], cid, plan, t0);
    ExecKeeps(s, acts[..i]);
    ExecSnoc(s, acts);
    hide Exec, Core, PeersExact, Running, Next, Booked, Saw, CleanIs, CleanStage, Settled, PodIs, CleanBooks,
         CleanupOutcome;
    var r, l := Trace(s, acts[..i], cid), Books(s, acts[..i], cid);
    CleanInFlight(u, cid, r, l, plan, t0, PeersExact(s));
    if Own(acts[i], cid) {
      OwnStep(u, acts[i], cid, r, l, plan, t0, PeersExact(s));
      OutcomeOf(t0, Exec(s, acts).t, plan, Trace(s, acts, cid), Books(s, acts, cid), PeersExact(s));
    } else {
      OthersLeaveCall(u, acts[i], cid);
    }
  }

  lemma CleanupOutcomeMonotone(t0: Tables, t: Tables, pod: nat, remove: bool, r: seq<Seen>, books: Ledger,
                               fits: bool, more: bool)
    requires pod in t0.pods && CleanupOutcome(t0, t, pod, remove, r, books, more) && (fits ==> more)
    ensures CleanupOutcome(t0, t, pod, remove, r, books, fits)
  {
  }

  /**
   StopPod and RemovePod as a whole, from any reachable state and with any other calls in between.
   StopPod leaves its pod NOT_READY without address and its kernel unrecorded, with peer id and
   address given back, if and only if its container call succeeded and StopKernel succeeded or was
   not needed.  RemovePod removes the pod and the kernel whatever StopKernel returned.  Otherwise pod
   and kernel are as the call found them, and it has given nothing back.
  */
  lemma CleanupEffect(peers: Pool, ips: Pool, before: seq<Action>, cid: nat, pod: nat, remove: bool, acts: seq<Action>)
    requires FreshPools(peers, ips) && cid !in Exec(Init(peers, ips), before).calls
    requires Returns(Next(Exec(Init(peers, ips), before), Cleanup(cid, pod, remove)), acts, cid)
    ensures var s0 := Exec(Init(peers, ips), before);
      var s1 := Next(s0, Cleanup(cid, pod, remove));
      && pod in s0.t.pods
      && CleanupOutcome(s0.t, Exec(s1, acts).t, pod, remove, Trace(s1, acts, cid), Books(s1, acts, cid),
                        Fits(peers, ips))
  {
    var s0 := Exec(Init(peers, ips), before);
    var s1 := Next(s0, Cleanup(cid, pod, remove));
    ReachableInv(peers, ips, before);
    StartsCleanup(s0, cid, pod, remove);
    NextKeeps(s0, Cleanup(cid, pod, remove));
    assert acts[..0] == [] && Exec(s1, []) == s1;
    hide Exec, Init, Next, Core, PeersExact, CleanupOutcome, CleanIs;
    CleanReturns(s1, acts, cid, Plan(pod, pod, s0.t.pods[pod].ip, pod in s0.t.kernels, remove), s0.t);
    CleanupOutcomeMonotone(s0.t, Exec(s1, acts).t, pod, remove, Trace(s1, acts, cid), Books(s1, acts, cid),
                           Fits(peers, ips), PeersExact(s1));
  }

  /** Until its own drop a cleanup in flight has changed nothing, and it returns with its sixth step at the latest. */
  lemma CleanupInFlight(peers: Pool, ips: Pool, before: seq<Action>, cid: nat, pod: nat, remove: bool,
                        acts: seq<Action>)
    requires FreshPools(peers, ips) && cid !in Exec(Init(peers, ips), before).calls
    requires Running(Next(Exec(Init(peers, ips), before), Cleanup(cid, pod, remove)), acts, cid)
    ensures var s0 := Exec(Init(peers, ips), before);
      var s1 := Next(s0, Cleanup(cid, pod, remove));
      var s, r := Exec(s1, acts), Trace(s1, acts, cid);
      && pod in s0.t.pods && |r| <= 5
      && (if CleanupSucceeds(r, pod in s0.t.kernels, remove) && |r| > 2 then DroppedAt(s.t, pod, remove)
          else SameAt(s0.t, s.t, pod) && Books(s1, acts, cid) == NOTHING)
  {
    var s0 := Exec(Init(peers, ips), before);
    var s1 := Next(s0, Cleanup(cid, pod, remove));
    ReachableInv(peers, ips, before);
    StartsCleanup(s0, cid, pod, remove);
    NextKeeps(s0, Cleanup(cid, pod, remove));
    assert acts[..0] == [] && Exec(s1, []) == s1;
    var plan := Plan(pod, pod, s0.t.pods[pod].ip, pod in s0.t.kernels, remove);
    hide Exec, Init, Next, Core, PeersExact, Settled, CleanStage, DroppedAt, SameAt, Running;
    CleanTrace(s1, acts, cid, plan, s0.t);
    CleanInFlight(Exec(s1, acts), cid, Trace(s1, acts, cid), Books(s1, acts, cid), plan, s0.t, PeersExact(s1));
  }
}
