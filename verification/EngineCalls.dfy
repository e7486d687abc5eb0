/**
 What one RunPod, StopPod or RemovePod call does from its first step to its last, with the steps of
 any number of other calls in between.  The outcomes are stated on the results of the call's own
 steps: what StartKernel, WaitReady, StopKernel and the container calls returned, and whether an
 address was free when it was asked for.
*/
module EngineCalls {
  import opened Basics
  import opened Allocators
  import opened Engine
  import opened EngineProofs
  import opened EngineTheorems

  /** One step of a call: the result of the call out, and the address the pool would have given then. */
  datatype Seen = Seen(ok: bool, skip: bool, address: Option<int>)

  /** What the steps of one call, and no others, took out of the pools and put back. */
  datatype Ledger = Ledger(peersTaken: set<int>, peersFreed: set<int>, ipsTaken: set<int>, ipsFreed: set<int>)

  const NOTHING := Ledger({}, {}, {}, {})

  predicate Own(a: Action, cid: nat) {
    a.Advance? && a.cid == cid
  }

  function Saw(s: State, a: Action): (r: Seen)
    requires a.Advance?
  {
    Seen(a.ok, a.skipReady, Take(s.ips).0)
  }

  /** The results of the call's own steps, in order. */
  function Trace(s: State, acts: seq<Action>, cid: nat): (r: seq<Seen>) {
    if acts == [] then []
    else
      var i := |acts| - 1;
      Trace(s, acts[..i], cid) + (if Own(acts[i], cid) then [Saw(Exec(s, acts[..i]), acts[i])] else [])
  }

  function Booked(l: Ledger, s: State, s': State): (r: Ledger) {
    Ledger(l.peersTaken + (s'.peers.used - s.peers.used), l.peersFreed + (s.peers.used - s'.peers.used),
           l.ipsTaken + (s'.ips.used - s.ips.used), l.ipsFreed + (s.ips.used - s'.ips.used))
  }

  function Books(s: State, acts: seq<Action>, cid: nat): (r: Ledger) {
    if acts == [] then NOTHING
    else
      var i := |acts| - 1;
      var l, before := Books(s, acts[..i], cid), Exec(s, acts[..i]);
      if Own(acts[i], cid) then Booked(l, before, Next(before, acts[i])) else l
  }

  /** The call is in flight in `s` and still is after every action of the run. */
  ghost predicate Running(s: State, acts: seq<Action>, cid: nat) {
    forall k :: 0 <= k <= |acts| ==> cid in Exec(s, acts[..k]).calls
  }

  /** The call is in flight in `s` and returns with the last action of the run. */
  ghost predicate Returns(s: State, acts: seq<Action>, cid: nat) {
    && acts != []
    && (forall k :: 0 <= k < |acts| ==> cid in Exec(s, acts[..k]).calls)
    && cid !in Exec(s, acts).calls
  }

  lemma {:induction false} ExecSnoc(s: State, acts: seq<Action>)
    requires acts != []
    ensures Exec(s, acts) == Next(Exec(s, acts[..|acts| - 1]), acts[|acts| - 1])
    decreases |acts|
  {
    hide Next;
    var i := |acts| - 1;
    if i > 0 {
      ExecSnoc(Next(s, acts[0]), acts[1..]);
      assert acts[1..][..i - 1] == acts[..i][1..];
    }
  }

  lemma RunningPrefix(s: State, acts: seq<Action>, cid: nat)
    requires acts != [] && (Running(s, acts, cid) || Returns(s, acts, cid))
    ensures Running(s, acts[..|acts| - 1], cid)
  {
    hide Exec;
    var p := acts[..|acts| - 1];
    assert forall k :: 0 <= k <= |p| ==> p[..k] == acts[..k];
  }

  lemma RunningHere(s: State, acts: seq<Action>, cid: nat)
    requires Running(s, acts, cid)
    ensures cid in Exec(s, acts).calls
  {
    assert acts[..|acts|] == acts;
  }

  lemma HelpersMoveOne(s: State, cid: nat, id: nat, peer: int, ip: int, free: Option<int>, plan: Plan)
    ensures OnlyCall(s, TakeAddress(s, cid, id, peer), cid) && OnlyCall(s, Record(s, cid, id, peer, ip), cid)
    ensures FreePeer(s, peer).calls == s.calls && FreeIp(s, free).calls == s.calls
    ensures OnlyCall(s, EndCleanup(s, cid, plan), cid)
  {
    hide Take, Give;
  }

  lemma DropMovesOne(s: State, cid: nat, plan: Plan)
    ensures OnlyCall(s, DropStep(s, cid, plan), cid)
  {
    hide Drop;
  }

  lemma MoveOnly(s: State, u: State, cid: nat, c: Call)
    requires u.calls == s.calls
    ensures OnlyCall(s, Goto(u, cid, c), cid) && OnlyCall(s, Finish(u, cid), cid)
  {
  }

  lemma RunMovesOne(s: State, cid: nat, ok: bool, skipReady: bool)
    requires cid in s.calls && IsRun(s.calls[cid])
    ensures OnlyCall(s, AdvanceCall(s, cid, ok, skipReady), cid)
  {
    hide TakeAddress, Record, FreePeer, OnlyCall, Goto, Finish;
    var c := s.calls[cid];
    HelpersMoveOne(s, cid, c.id, c.peer, if c.RunRecord? then c.ip else 0, None, Plan(0, 0, None, false, false));
    match c
    case RunStart(id, peer) =>
      MoveOnly(s, s, cid,
               if !ok then RunRelease(id, peer) else if skipReady then RunAddress(id, peer) else RunWait(id, peer));
    case RunWait(id, peer) => MoveOnly(s, s, cid, if ok then RunAddress(id, peer) else RunUndo(id, peer));
    case RunUndo(id, peer) => MoveOnly(s, s, cid, RunRelease(id, peer));
    case RunRelease(id, peer) => MoveOnly(s, FreePeer(s, peer), cid, c);
    case _ =>
  }

  lemma CleanMovesOne(s: State, cid: nat, ok: bool, skipReady: bool)
    requires cid in s.calls && !IsRun(s.calls[cid])
    ensures OnlyCall(s, AdvanceCall(s, cid, ok, skipReady), cid)
  {
    hide FreePeer, FreeIp, DropStep, EndCleanup, OnlyCall, Goto;
    var c := s.calls[cid];
    HelpersMoveOne(s, cid, 0, if c.CleanPeer? then c.peer else 0, 0, c.plan.ip, c.plan);
    match c
    case CleanContainers(plan) => MoveOnly(s, s, cid, if ok then CleanKernel(plan) else CleanEnd(plan));
    case CleanKernel(plan) =>
      MoveOnly(s, s, cid, if plan.stopKernel && !ok && !plan.remove then CleanEnd(plan) else CleanDrop(plan));
    case CleanDrop(plan) => DropMovesOne(s, cid, plan);
    case CleanPeer(plan, peer) => MoveOnly(s, FreePeer(s, peer), cid, CleanAddress(plan));
    case CleanAddress(plan) => MoveOnly(s, FreeIp(s, plan.ip), cid, CleanEnd(plan));
    case CleanEnd(_) =>
  }

  /** Nobody else moves a call. */
  lemma OthersLeaveCall(s: State, a: Action, cid: nat)
    requires cid in s.calls && !Own(a, cid)
    ensures cid in Next(s, a).calls && Next(s, a).calls[cid] == s.calls[cid]
  {
    if a.Advance? && a.cid in s.calls {
      if IsRun(s.calls[a.cid]) {
        RunMovesOne(s, a.cid, a.ok, a.skipReady);
      } else {
        CleanMovesOne(s, a.cid, a.ok, a.skipReady);
      }
    }
    hide Take, Give, AdvanceCall, BeginCleanup;
  }

  // RunPod.

  predicate GuestReady(r: seq<Seen>) {
    |r| > 0 && r[0].ok && (r[0].skip || (|r| > 1 && r[1].ok))
  }

  /** The position of the step that asks for an address, if the call gets there. */
  function AddressAt(r: seq<Seen>): (k: nat)
    requires |r| > 0
  {
    if r[0].skip then 1 else 2
  }

  /** StartKernel succeeded, WaitReady succeeded or was skipped, and an address was free. */
  predicate RunSucceeds(r: seq<Seen>) {
    GuestReady(r) && |r| > AddressAt(r) && r[AddressAt(r)].address.Some?
  }

  /** Stopping the kernel, then releasing the peer id. */
  function UndoStage(n: nat, id: nat, peer: int): (c: Option<Call>) {
    if n == 0 then Some(RunUndo(id, peer)) else if n == 1 then Some(RunRelease(id, peer)) else None
  }

  /** The stage of a RunPod that has seen `r`, or None if it has returned. */
  function RunStage(r: seq<Seen>, id: nat, peer: int): (c: Option<Call>) {
    if |r| == 0 then Some(RunStart(id, peer))
    else if !r[0].ok then if |r| == 1 then Some(RunRelease(id, peer)) else None
    else if |r| == 1 then Some(if r[0].skip then RunAddress(id, peer) else RunWait(id, peer))
    else if !GuestReady(r) then UndoStage(|r| - 2, id, peer)
    else
      var k := AddressAt(r);
      if |r| <= k then Some(RunAddress(id, peer))
      else if r[k].address.None? then UndoStage(|r| - k - 1, id, peer)
      else if |r| == k + 1 then Some(RunRecord(id, peer, r[k].address.value))
      else None
  }

  lemma RunAdvances(s: State, a: Action, cid: nat, r: seq<Seen>, id: nat, peer: int)
    requires cid in s.calls && Own(a, cid) && RunStage(r, id, peer) == Some(s.calls[cid])
    ensures var s' := Next(s, a);
      RunStage(r + [Saw(s, a)], id, peer) == if cid in s'.calls then Some(s'.calls[cid]) else None
  {
    var r' := r + [Saw(s, a)];
    assert forall i :: 0 <= i < |r| ==> r'[i] == r[i];
    assert r'[|r|] == Saw(s, a);
  }

  /** What a RunPod that has seen `r` has booked: the address, once it has one. */
  function RunBooks(r: seq<Seen>, freed: set<int>): (l: Ledger) {
    Ledger({}, freed, if RunSucceeds(r) then {r[AddressAt(r)].address.value} else {}, {})
  }

  lemma SameBooks(l: Ledger, s: State, s': State)
    requires s'.peers == s.peers && s'.ips == s.ips
    ensures Booked(l, s, s') == l
  {
  }

  lemma AddressBooked(s: State, s': State, r: seq<Seen>, r': seq<Seen>)
    requires Partitioned(s.ips) && s'.ips == Take(s.ips).1 && s'.peers == s.peers
    requires !RunSucceeds(r) && GuestReady(r') && |r'| > AddressAt(r') && r'[AddressAt(r')].address == Take(s.ips).0
    ensures Booked(RunBooks(r, {}), s, s') == RunBooks(r', {})
  {
    TakeExact(s.ips);
    hide Take;
  }

  lemma SucceedsStep(r: seq<Seen>, x: Seen, id: nat, peer: int)
    requires RunStage(r, id, peer).Some?
    ensures var c, r' := RunStage(r, id, peer).value, r + [x];
      if c.RunAddress? then !RunSucceeds(r) && GuestReady(r') && AddressAt(r') == |r| && r'[|r|] == x
      else if c.RunRecord? then RunSucceeds(r) && RunSucceeds(r') && r'[AddressAt(r')] == r[AddressAt(r)]
      else !RunSucceeds(r) && !RunSucceeds(r')
  {
    var r' := r + [x];
    assert forall i :: 0 <= i < |r| ==> r'[i] == r[i];
  }

  /** Of a RunPod's steps only two touch a pool. */
  lemma RunPools(s: State, a: Action, cid: nat)
    requires cid in s.calls && Own(a, cid) && IsRun(s.calls[cid])
    ensures var s', c := Next(s, a), s.calls[cid];
      && s'.ips == (if c.RunAddress? then Take(s.ips).1 else s.ips)
      && s'.peers == (if c.RunRelease? then Give(s.peers, c.peer) else s.peers)
      && (c.RunRecord? || c.RunRelease? <==> cid !in s'.calls)
  {
    if s.calls[cid].RunAddress? && Take(s.ips).0.None? { assert Take(s.ips).1 == s.ips; }
    hide Take, Give;
  }

  lemma StageIsRun(r: seq<Seen>, id: nat, peer: int)
    ensures RunStage(r, id, peer).Some? ==>
      var c := RunStage(r, id, peer).value; IsRun(c) && c.id == id && c.peer == peer
  {
  }

  lemma RunBooksStep(s: State, a: Action, cid: nat, r: seq<Seen>, id: nat, peer: int)
    requires Core(s) && cid in s.calls && Own(a, cid) && RunStage(r, id, peer) == Some(s.calls[cid])
    ensures var s' := Next(s, a);
      var r' := r + [Saw(s, a)];
      Booked(RunBooks(r, {}), s, s')
      == RunBooks(r', if cid in s'.calls || RunSucceeds(r') then {} else s.peers.used * {peer})
  {
    var r', s' := r + [Saw(s, a)], Next(s, a);
    StageIsRun(r, id, peer);
    SucceedsStep(r, Saw(s, a), id, peer);
    RunPools(s, a, cid);
    hide Next, Take, Give, RunStage, IpsOwned, PodsOk, CallsOk, Partitioned;
    if s.calls[cid].RunAddress? {
      AddressBooked(s, s', r, r');
    } else if s.calls[cid].RunRelease? {
      GiveExact(s.peers, peer);
    } else {
      SameBooks(RunBooks(r, {}), s, s');
    }
  }

  lemma {:induction false} RunTrace(s: State, acts: seq<Action>, cid: nat, id: nat, peer: int)
    requires Core(s) && cid in s.calls && s.calls[cid] == RunStart(id, peer) && Running(s, acts, cid)
    ensures cid in Exec(s, acts).calls && RunStage(Trace(s, acts, cid), id, peer) == Some(Exec(s, acts).calls[cid])
    ensures Books(s, acts, cid) == RunBooks(Trace(s, acts, cid), {})
    decreases |acts|
  {
    if acts == [] {
      hide Core, Running;
    } else {
      hide Exec, Core, Running, RunStage, RunBooks, Next, PeersExact, Booked, Take;
      RunningHere(s, acts, cid);
      var i := |acts| - 1;
      var u := Exec(s, acts[..i]);
      RunningPrefix(s, acts, cid);
      RunTrace(s, acts[..i], cid, id, peer);
      ExecKeeps(s, acts[..i]);
      ExecSnoc(s, acts);
      if Own(acts[i], cid) {
        RunAdvances(u, acts[i], cid, Trace(s, acts[..i], cid), id, peer);
        RunBooksStep(u, acts[i], cid, Trace(s, acts[..i], cid), id, peer);
      } else {
        OthersLeaveCall(u, acts[i], cid);
      }
    }
  }

  lemma RecordedAddress(r: seq<Seen>, id: nat, peer: int)
    requires RunStage(r, id, peer).Some? && RunStage(r, id, peer).value.RunRecord?
    ensures RunSucceeds(r) && r[AddressAt(r)].address == Some(RunStage(r, id, peer).value.ip)
  {
  }

  /** What the last step of a RunPod leaves behind. */
  lemma RunEnds(s: State, a: Action, cid: nat, r: seq<Seen>, id: nat, peer: int)
    requires Core(s) && cid in s.calls && Own(a, cid) && RunStage(r, id, peer) == Some(s.calls[cid])
    requires cid !in Next(s, a).calls
    ensures var s', r' := Next(s, a), r + [Saw(s, a)];
      if RunSucceeds(r') then
        && id in s'.t.pods && s'.t.pods[id] == Pod(Ready, id, r'[AddressAt(r')].address)
        && id in s'.t.kernels && s'.t.kernels[id] == Echoed(peer)
      else
        id !in s'.t.pods && id !in s'.t.kernels && peer !in s'.peers.used
  {
    StageIsRun(r, id, peer);
    SucceedsStep(r, Saw(s, a), id, peer);
    RunPools(s, a, cid);
    if s.calls[cid].RunRecord? { RecordedAddress(r, id, peer); }
    GiveExact(s.peers, peer);
    hide RunStage, RunSucceeds, Take, Give, IpsOwned, Partitioned;
  }

  lemma HolderIsUsed(s: State, cid: nat)
    requires PeersExact(s) && cid in s.calls && HeldPeer(s.calls[cid]).Some?
    ensures HeldPeer(s.calls[cid]).value in s.peers.used
  {
  }

  lemma StartsRun(s: State, cid: nat)
    requires Core(s) && cid !in s.calls
    ensures var s' := Next(s, RunPod(cid));
      && s'.t == s.t && s'.ips == s.ips
      && (cid in s'.calls <==> !Full(s.peers))
      && (cid !in s'.calls ==> s' == s)
      && (cid in s'.calls ==>
            && Take(s.peers).0.Some? && s'.calls[cid] == RunStart(s.nextId, Take(s.peers).0.value)
            && s'.peers.used == s.peers.used + {Take(s.peers).0.value}
            && Take(s.peers).0.value !in s.peers.used
            && s.nextId !in s.t.pods && s.nextId !in s.t.kernels)
  {
    TakeExact(s.peers);
    hide Take, Full, Partitioned, IpsOwned, CallsOk;
  }

  /** In every reachable state RunPod starts exactly if a peer id is unused; it takes it and touches nothing else. */
  lemma RunPodStarts(peers: Pool, ips: Pool, before: seq<Action>, cid: nat)
    requires FreshPools(peers, ips) && cid !in Exec(Init(peers, ips), before).calls
    ensures var s := Exec(Init(peers, ips), before);
      var s' := Next(s, RunPod(cid));
      && s'.t == s.t && s'.ips == s.ips
      && (cid in s'.calls <==> !Full(s.peers))
      && (cid !in s'.calls ==> s' == s)
      && (cid in s'.calls ==> exists peer ::
            peer !in s.peers.used && s.peers.lo <= peer <= s.peers.hi && s'.peers.used == s.peers.used + {peer})
  {
    var s := Exec(Init(peers, ips), before);
    ReachableInv(peers, ips, before);
    TakeExact(s.peers);
    hide Exec, Init, Take, Full, Partitioned, IpsOwned, PodsOk, CallsOk, Next;
    StartsRun(s, cid);
  }

  ghost predicate RunOutcome(s: State, id: nat, peer: int, r: seq<Seen>, books: Ledger, fits: bool) {
    if RunSucceeds(r) then
      && id in s.t.pods && s.t.pods[id] == Pod(Ready, id, r[AddressAt(r)].address)
      && id in s.t.kernels && s.t.kernels[id] == Echoed(peer)
      && books == Ledger({}, {}, {r[AddressAt(r)].address.value}, {})
    else
      && id !in s.t.pods && id !in s.t.kernels && peer !in s.peers.used
      && books.peersFreed <= {peer} && books == Ledger({}, books.peersFreed, {}, {})
      && (fits ==> books.peersFreed == {peer})
  }

  lemma RunLastStep(u: State, a: Action, cid: nat, r: seq<Seen>, id: nat, peer: int)
    requires Core(u) && cid in u.calls && Own(a, cid) && RunStage(r, id, peer) == Some(u.calls[cid])
    requires cid !in Next(u, a).calls
    ensures RunOutcome(Next(u, a), id, peer, r + [Saw(u, a)], Booked(RunBooks(r, {}), u, Next(u, a)), PeersExact(u))
  {
    RunEnds(u, a, cid, r, id, peer);
    RunBooksStep(u, a, cid, r, id, peer);
    StageIsRun(r, id, peer);
    if PeersExact(u) { HolderIsUsed(u, cid); }
    hide Next, Core, PeersExact, RunStage, RunSucceeds;
  }

  lemma OutcomeMonotone(s: State, id: nat, peer: int, r: seq<Seen>, books: Ledger, fits: bool, more: bool)
    requires RunOutcome(s, id, peer, r, books, more) && (fits ==> more)
    ensures RunOutcome(s, id, peer, r, books, fits)
  {
  }

  lemma RunReturns(s: State, acts: seq<Action>, cid: nat, id: nat, peer: int)
    requires Core(s) && cid in s.calls && s.calls[cid] == RunStart(id, peer) && Returns(s, acts, cid)
    ensures RunOutcome(Exec(s, acts), id, peer, Trace(s, acts, cid), Books(s, acts, cid), PeersExact(s))
  {
    var i := |acts| - 1;
    var u := Exec(s, acts[..i]);
    RunningPrefix(s, acts, cid);
    RunTrace(s, acts[..i], cid, id, peer);
    ExecKeeps(s, acts[..i]);
    ExecSnoc(s, acts);
    hide Exec, Core, PeersExact, Running, RunStage, RunBooks, Next, Booked, RunOutcome;
    if !Own(acts[i], cid) {
      OthersLeaveCall(u, acts[i], cid);
    } else {
      RunLastStep(u, acts[i], cid, Trace(s, acts[..i], cid), id, peer);
      OutcomeMonotone(Exec(s, acts), id, peer, Trace(s, acts, cid), Books(s, acts, cid), PeersExact(s), PeersExact(u));
    }
  }

  /**
   RunPod as a whole, from any reachable state and with any other calls in between.  It ends with its
   pod READY at the address it was given and its kernel recorded if and only if StartKernel
   succeeded, WaitReady succeeded or was skipped, and an address was free when it asked; otherwise
   it ends with neither, and its peer id is back in the pool.
  */
  lemma RunPodOutcome(peers: Pool, ips: Pool, before: seq<Action>, cid: nat, acts: seq<Action>)
    requires FreshPools(peers, ips) && cid !in Exec(Init(peers, ips), before).calls
    requires Returns(Next(Exec(Init(peers, ips), before), RunPod(cid)), acts, cid)
    ensures var s0 := Exec(Init(peers, ips), before);
      var s1 := Next(s0, RunPod(cid));
      && Take(s0.peers).0.Some?
      && RunOutcome(Exec(s1, acts), s0.nextId, Take(s0.peers).0.value, Trace(s1, acts, cid), Books(s1, acts, cid),
                    Fits(peers, ips))
  {
    var s0 := Exec(Init(peers, ips), before);
    var s1 := Next(s0, RunPod(cid));
    ReachableInv(peers, ips, before);
    StartsRun(s0, cid);
    NextKeeps(s0, RunPod(cid));
    assert acts[..0] == [] && Exec(s1, []) == s1;
    hide Exec, Init, Next, Core, PeersExact, RunOutcome;
    RunReturns(s1, acts, cid, s0.nextId, Take(s0.peers).0.value);
    OutcomeMonotone(Exec(s1, acts), s0.nextId, Take(s0.peers).0.value, Trace(s1, acts, cid), Books(s1, acts, cid),
                    Fits(peers, ips), PeersExact(s1));
  }

  lemma InFlightFacts(s: State, cid: nat, r: seq<Seen>, id: nat, peer: int)
    requires Core(s) && cid in s.calls && RunStage(r, id, peer) == Some(s.calls[cid])
    ensures |r| <= 4 && id !in s.t.pods && id !in s.t.kernels
  {
    StageIsRun(r, id, peer);
    hide Partitioned, IpsOwned;
  }

  /** A RunPod in flight has recorded nothing, has given nothing back, and returns with its fifth step at the latest. */
  lemma RunPodInFlight(peers: Pool, ips: Pool, before: seq<Action>, cid: nat, acts: seq<Action>)
    requires FreshPools(peers, ips) && cid !in Exec(Init(peers, ips), before).calls
    requires Running(Next(Exec(Init(peers, ips), before), RunPod(cid)), acts, cid)
    ensures var s0 := Exec(Init(peers, ips), before);
      var s1 := Next(s0, RunPod(cid));
      var s := Exec(s1, acts);
      && |Trace(s1, acts, cid)| <= 4
      && s0.nextId !in s.t.pods && s0.nextId !in s.t.kernels
      && Books(s1, acts, cid).peersFreed == {} && Books(s1, acts, cid).ipsFreed == {}
  {
    var s0 := Exec(Init(peers, ips), before);
    var s1 := Next(s0, RunPod(cid));
    ReachableInv(peers, ips, before);
    StartsRun(s0, cid);
    NextKeeps(s0, RunPod(cid));
    assert acts[..0] == [] && Exec(s1, []) == s1;
    hide Exec, Init, Next, Take, Core, PeersExact, RunStage, Running;
    RunTrace(s1, acts, cid, s0.nextId, Take(s0.peers).0.value);
    ExecKeeps(s1, acts);
    InFlightFacts(Exec(s1, acts), cid, Trace(s1, acts, cid), s0.nextId, Take(s0.peers).0.value);
  }
}
