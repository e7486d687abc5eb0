/** The engine's promises, for every run from the start. */
module EngineTheorems {
  import opened Basics
  import opened Allocators
  import opened Engine
  import opened EngineProofs

  /** Some recorded kernel or some call in flight has peer id `x`. */
  ghost predicate PeerHeld(s: State, x: int) {
    || (exists k :: k in s.t.kernels && s.t.kernels[k] == x)
    || (exists c :: c in s.calls && HeldPeer(s.calls[c]) == Some(x))
  }

  ghost predicate IpHeld(s: State, x: int) {
    || (exists p :: p in s.t.pods && s.t.pods[p].ip == Some(x))
    || (exists c :: c in s.calls && HeldIp(s.calls[c]) == Some(x))
  }

  /** Exactly the held peer ids are marked used, and no two holders share one. */
  ghost predicate PeersConserved(s: State) {
    && (forall x :: x in s.peers.used <==> PeerHeld(s, x))
    && (forall k, k' :: k in s.t.kernels && k' in s.t.kernels && k != k' ==> s.t.kernels[k] != s.t.kernels[k'])
    && (forall c, c' :: c in s.calls && c' in s.calls && c != c' && HeldPeer(s.calls[c]).Some? ==>
          HeldPeer(s.calls[c]) != HeldPeer(s.calls[c']))
    && (forall k, c :: k in s.t.kernels && c in s.calls ==> HeldPeer(s.calls[c]) != Some(s.t.kernels[k]))
  }

  ghost predicate IpsConserved(s: State) {
    && (forall x :: x in s.ips.used <==> IpHeld(s, x))
    && (forall p, p' :: p in s.t.pods && p' in s.t.pods && p != p' && s.t.pods[p].ip.Some? ==>
          s.t.pods[p].ip != s.t.pods[p'].ip)
    && (forall c, c' :: c in s.calls && c' in s.calls && c != c' && HeldIp(s.calls[c]).Some? ==>
          HeldIp(s.calls[c]) != HeldIp(s.calls[c']))
    && (forall p, c :: p in s.t.pods && c in s.calls && s.t.pods[p].ip.Some? ==> HeldIp(s.calls[c]) != s.t.pods[p].ip)
  }

  lemma PeersOwnedMeans(s: State)
    requires PeersOwned(s)
    ensures PeersConserved(s)
  {
    hide HeldPeer;
    forall x
      ensures x in s.peers.used <==> PeerHeld(s, x)
    {
      if x in s.peers.used {
        assert x in s.peerOwner;
      }
    }
  }

  lemma IpsOwnedMeans(s: State)
    requires IpsOwned(s)
    ensures IpsConserved(s)
  {
    hide HeldIp;
    forall x
      ensures x in s.ips.used <==> IpHeld(s, x)
    {
      if x in s.ips.used {
        assert x in s.ipOwner;
      }
    }
  }

  predicate FreshPools(peers: Pool, ips: Pool) {
    peers == Fresh(peers.lo, peers.hi) && ips == Fresh(ips.lo, ips.hi) && 0 <= peers.lo <= peers.hi
  }

  lemma ReachableInv(peers: Pool, ips: Pool, acts: seq<Action>)
    requires FreshPools(peers, ips)
    ensures Core(Exec(Init(peers, ips), acts))
    ensures Fits(peers, ips) ==> PeersExact(Exec(Init(peers, ips), acts))
  {
    InitInv(peers, ips);
    ExecKeeps(Init(peers, ips), acts);
  }

  /**
   Addresses are conserved over every run of every configuration, and so are peer ids if they fit 16
   bits: none leaks, none is held twice.
  */
  lemma ResourcesConserved(peers: Pool, ips: Pool, acts: seq<Action>)
    requires FreshPools(peers, ips)
    ensures IpsConserved(Exec(Init(peers, ips), acts))
    ensures Fits(peers, ips) ==> PeersConserved(Exec(Init(peers, ips), acts))
  {
    ReachableInv(peers, ips, acts);
    hide PeersConserved, IpsConserved, Exec, Init;
    var s := Exec(Init(peers, ips), acts);
    IpsOwnedMeans(s);
    if Fits(peers, ips) { PeersOwnedMeans(s); }
  }

  /** Every release is of an id that is marked used at that moment, so nothing is released twice. */
  lemma ReleasesAreOfUsedIds(peers: Pool, ips: Pool, acts: seq<Action>, cid: nat)
    requires FreshPools(peers, ips) && cid in Exec(Init(peers, ips), acts).calls
    ensures var s := Exec(Init(peers, ips), acts);
      s.calls[cid].CleanAddress? && s.calls[cid].plan.ip.Some? ==> s.calls[cid].plan.ip.value in s.ips.used
    ensures var s := Exec(Init(peers, ips), acts);
      Fits(peers, ips) && (s.calls[cid].RunRelease? || s.calls[cid].CleanPeer?) ==> s.calls[cid].peer in s.peers.used
  {
    ReachableInv(peers, ips, acts);
    hide Partitioned, PodsOk, CallsOk, Exec, Init;
    var s := Exec(Init(peers, ips), acts);
    assert HeldIp(s.calls[cid]).Some? ==> HeldIp(s.calls[cid]).value in s.ipOwner;
    if Fits(peers, ips) {
      assert HeldPeer(s.calls[cid]).Some? ==> HeldPeer(s.calls[cid]).value in s.peerOwner;
    }
  }

  /** In every reachable state a pod is READY exactly when it has an address and exactly when its kernel is recorded. */
  lemma ReadyExactly(peers: Pool, ips: Pool, acts: seq<Action>)
    requires FreshPools(peers, ips)
    ensures var s := Exec(Init(peers, ips), acts);
      forall p :: p in s.t.pods ==>
        && (s.t.pods[p].state == Ready <==> s.t.pods[p].ip.Some?)
        && (s.t.pods[p].state == Ready <==> s.t.pods[p].kernelId in s.t.kernels)
  {
    ReachableInv(peers, ips, acts);
  }

  /** The call is inside the cleanup of the pod. */
  predicate Cleans(s: State, c: nat, pod: nat) {
    c in s.calls && !IsRun(s.calls[c]) && s.calls[c].plan.pod == pod
  }

  /** In every reachable state the marked pods are exactly those being cleaned up, each by one call. */
  lemma OneCleanupPerPod(peers: Pool, ips: Pool, acts: seq<Action>)
    requires FreshPools(peers, ips)
    ensures var s := Exec(Init(peers, ips), acts);
      && (forall p :: p in s.t.cleanup <==> exists c :: Cleans(s, c, p))
      && (forall c, c', p :: Cleans(s, c, p) && Cleans(s, c', p) ==> c == c')
  {
    ReachableInv(peers, ips, acts);
    hide IsRun, Exec, Init;
    var s := Exec(Init(peers, ips), acts);
    forall p
      ensures p in s.t.cleanup <==> exists c :: Cleans(s, c, p)
    {
      if p in s.t.cleanup {
        assert p in s.marker && Cleans(s, s.marker[p], p);
      }
    }
  }

  lemma EndFrees(s: State, a: Action)
    requires CallsOk(s) && a.Advance? && a.cid in s.calls && s.calls[a.cid].CleanEnd?
    ensures var s', pod := Next(s, a), s.calls[a.cid].plan.pod;
      && s.t.cleanup == s'.t.cleanup + {pod} && pod !in s'.t.cleanup && (forall c :: !Cleans(s', c, pod))
      && s'.t.pods == s.t.pods && s'.t.kernels == s.t.kernels
  {
    var plan := s.calls[a.cid].plan;
    assert Next(s, a) == EndCleanup(s, a.cid, plan);
    hide Next, AdvanceCall, BeforeDrop;
  }

  /**
   In every run the end of a cleanup frees its pod for the next one: nobody cleans it, and no other
   mark or table changes.
  */
  lemma EndReopensPod(peers: Pool, ips: Pool, acts: seq<Action>, a: Action)
    requires FreshPools(peers, ips)
    requires var s := Exec(Init(peers, ips), acts); a.Advance? && a.cid in s.calls && s.calls[a.cid].CleanEnd?
    ensures var s := Exec(Init(peers, ips), acts);
      var s', pod := Next(s, a), s.calls[a.cid].plan.pod;
      && s.t.cleanup == s'.t.cleanup + {pod} && pod !in s'.t.cleanup && (forall c :: !Cleans(s', c, pod))
      && s'.t.pods == s.t.pods && s'.t.kernels == s.t.kernels
  {
    ReachableInv(peers, ips, acts);
    hide Exec, Init, PodsOk, IpsOwned, PeersExact, Partitioned, CallsOk, Next, Cleans;
    EndFrees(Exec(Init(peers, ips), acts), a);
  }

  /** The step in which a cleanup calls StopKernel. */
  predicate StopsKernel(s: State, a: Action) {
    a.Advance? && a.cid in s.calls && s.calls[a.cid].CleanKernel? && s.calls[a.cid].plan.stopKernel
  }

  /** No cleanup ever stops a kernel that a cleanup has already dropped. */
  lemma NeverStopsDropped(peers: Pool, ips: Pool, acts: seq<Action>, a: Action)
    requires FreshPools(peers, ips)
    requires StopsKernel(Exec(Init(peers, ips), acts), a)
    ensures var s := Exec(Init(peers, ips), acts);
      s.calls[a.cid].plan.kernelId in s.t.kernels && s.calls[a.cid].plan.kernelId !in s.dropped
  {
    ReachableInv(peers, ips, acts);
    hide Exec, Init;
  }

  lemma DropRemembers(s: State, cid: nat, plan: Plan)
    ensures s.dropped <= DropStep(s, cid, plan).dropped
    ensures forall k :: k in s.t.kernels && k !in DropStep(s, cid, plan).t.kernels ==>
      k in DropStep(s, cid, plan).dropped
  {
  }

  /** Dropping is remembered forever, so NeverStopsDropped covers the whole rest of the run. */
  lemma DroppedStays(s: State, a: Action)
    ensures s.dropped <= Next(s, a).dropped
    ensures forall k :: k in s.t.kernels && k !in Next(s, a).t.kernels ==> k in Next(s, a).dropped
  {
    hide Take, Give, BeginCleanup, Echoed, DropStep;
    if a.Advance? && a.cid in s.calls && s.calls[a.cid].CleanDrop? {
      DropRemembers(s, a.cid, s.calls[a.cid].plan);
    } else {
      assert s.t.kernels.Keys <= Next(s, a).t.kernels.Keys && Next(s, a).dropped == s.dropped;
    }
  }

  // The 16-bit peer ids.

  /** What the candidates for a configuration must guarantee. */
  ghost predicate AlwaysConserved(peers: Pool, ips: Pool) {
    forall acts: seq<Action> :: PeersConserved(Exec(Init(peers, ips), acts))
  }

  lemma {:induction false} ExecConcat(s: State, a: seq<Action>, b: seq<Action>)
    ensures Exec(s, a + b) == Exec(Exec(s, a), b)
    decreases |a|
  {
    hide Next;
    if a == [] {
      assert a + b == b;
    } else {
      ExecConcat(Next(s, a[0]), a[1..], b);
      assert (a + b)[1..] == a[1..] + b;
    }
  }

  /** `n` RunPod calls have each just been given a peer id, in order. */
  ghost predicate Starting(s: State, peers: Pool, ips: Pool, n: nat) {
    && s == Init(peers, ips).(peers := s.peers, calls := s.calls, nextId := n, peerOwner := s.peerOwner)
    && s.peers.lo == peers.lo && s.peers.hi == peers.hi && s.peers.next == peers.lo + n && s.peers.free == []
    && (forall i: nat :: i in s.calls <==> i < n)
    && (forall i: nat :: i < n ==> s.calls[i] == RunStart(i, peers.lo + i))
    && (forall x :: x in s.peers.used <==> peers.lo <= x < peers.lo + n)
  }

  lemma OneMoreStarts(s: State, peers: Pool, ips: Pool, n: nat)
    requires Starting(s, peers, ips, n) && peers.lo + n <= peers.hi
    ensures Starting(Next(s, RunPod(n)), peers, ips, n + 1)
  {
  }

  lemma {:induction false} ManyStart(peers: Pool, ips: Pool, n: nat) returns (acts: seq<Action>)
    requires FreshPools(peers, ips) && peers.lo + n <= peers.hi + 1
    ensures Starting(Exec(Init(peers, ips), acts), peers, ips, n)
    decreases n
  {
    if n == 0 {
      acts := [];
    } else {
      hide Next, Starting, Init;
      var before := ManyStart(peers, ips, n - 1);
      var s := Exec(Init(peers, ips), before);
      acts := before + [RunPod(n - 1)];
      ExecConcat(Init(peers, ips), before, [RunPod(n - 1)]);
      assert Exec(s, [RunPod(n - 1)]) == Next(s, RunPod(n - 1)) by {
        assert [RunPod(n - 1)][1..] == [];
      }
      OneMoreStarts(s, peers, ips, n - 1);
    }
  }

  lemma ThreeSteps(s: State, a: Action)
    ensures Exec(s, [a, a, a]) == Next(Next(Next(s, a), a), a)
  {
    hide Next;
    assert [a, a, a][1..] == [a, a] && [a, a][1..] == [a] && [a][1..] == [];
    assert Exec(s, [a, a, a]) == Exec(Next(s, a), [a, a]);
    assert Exec(Next(s, a), [a, a]) == Exec(Next(Next(s, a), a), [a]);
    assert Exec(Next(Next(s, a), a), [a]) == Exec(Next(Next(Next(s, a), a), a), []);
  }

  lemma AboutToRecord(s: State, peers: Pool, ips: Pool, n: nat, s2: State)
    requires FreshPools(peers, ips) && ips.lo <= ips.hi && n > 0 && Starting(s, peers, ips, n)
    requires var go := Advance(n - 1, true, true); s2 == Next(Next(s, go), go)
    ensures n - 1 in s2.calls && s2.calls[n - 1] == RunRecord(n - 1, peers.lo + n - 1, ips.lo)
    ensures peers.lo + n - 1 in s2.peers.used && s2.t.kernels == map[]
    ensures forall c :: c in s2.calls && c != n - 1 ==> HeldPeer(s2.calls[c]) != Some(peers.lo + n - 1)
  {
    var go := Advance(n - 1, true, true);
    assert Next(s, go).calls[n - 1] == RunAddress(n - 1, peers.lo + n - 1);
  }

  lemma RecordedElsewhere(s: State, cid: nat, x: int, ip: int)
    requires x >= 65536 && x in s.peers.used && s.t.kernels == map[]
    requires forall c :: c in s.calls && c != cid ==> HeldPeer(s.calls[c]) != Some(x)
    ensures !PeersConserved(Record(s, cid, cid, x, ip))
  {
    var s' := Record(s, cid, cid, x, ip);
    assert s'.t.kernels == map[cid := x % 65536];
    assert !PeerHeld(s', x);
  }

  lemma RecordStep(s: State, cid: nat, id: nat, peer: int, ip: int)
    requires cid in s.calls && s.calls[cid] == RunRecord(id, peer, ip)
    ensures Next(s, Advance(cid, true, true)) == Record(s, cid, id, peer, ip)
  {
  }

  lemma RecordsWrongId(s: State, peers: Pool, ips: Pool, n: nat, s3: State)
    requires FreshPools(peers, ips) && ips.lo <= ips.hi && n > 0 && Starting(s, peers, ips, n)
    requires peers.lo + n - 1 >= 65536
    requires var go := Advance(n - 1, true, true); s3 == Next(Next(Next(s, go), go), go)
    ensures !PeersConserved(s3)
  {
    hide Starting, FreshPools, Next, Record, PeersConserved;
    var x := peers.lo + n - 1;
    var go := Advance(n - 1, true, true);
    var s2 := Next(Next(s, go), go);
    AboutToRecord(s, peers, ips, n, s2);
    RecordStep(s2, n - 1, n - 1, x, ips.lo);
    RecordedElsewhere(s2, n - 1, x, ips.lo);
  }

  /** A pod whose peer id does not fit 16 bits is recorded under another id; its own is never released. */
  lemma LeaksWideId(peers: Pool, ips: Pool)
    requires FreshPools(peers, ips) && peers.hi >= 65536 && ips.lo <= ips.hi
    ensures !AlwaysConserved(peers, ips)
  {
    hide Next, PeersConserved, Starting;
    var n: nat := if peers.lo >= 65536 then 1 else 65536 - peers.lo + 1;
    var before := ManyStart(peers, ips, n);
    var s := Exec(Init(peers, ips), before);
    var cid := n - 1;
    var go := Advance(cid, true, true);
    var s1 := Next(s, go);
    var s2 := Next(s1, go);
    var s3 := Next(s2, go);
    var acts := before + [go, go, go];
    ExecConcat(Init(peers, ips), before, [go, go, go]);
    ThreeSteps(s, go);
    RecordsWrongId(s, peers, ips, n, s3);
    assert Exec(Init(peers, ips), acts) == s3;
  }

  /**
   Conservation holds over every run if and only if peer ids fit 16 bits (or no pod can be given an
   address at all).
  */
  lemma ConservedIffFits(peers: Pool, ips: Pool)
    requires FreshPools(peers, ips)
    ensures AlwaysConserved(peers, ips) <==> peers.hi <= 65535 || ips.hi < ips.lo
  {
    if peers.hi <= 65535 || ips.hi < ips.lo {
      forall acts: seq<Action>
        ensures PeersConserved(Exec(Init(peers, ips), acts))
      {
        ResourcesConserved(peers, ips, acts);
      }
    } else {
      LeaksWideId(peers, ips);
    }
  }
}
