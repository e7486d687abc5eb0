/**
 The engine's container tables.  Each locked section is one step, remote calls happen in between, and
 any number of CreateContainer, StopContainer, RemoveContainer and RemovePod calls interleave.
*/
module Containers {
  import opened Basics

  type Id = nat
  type Pod = nat

  /** Where a call is between its two locked sections. */
  datatype Call =
    | Creating(pod: Pod)            // CreateContainer has seen the pod without a container
    | Removing(id: Id, pod: Pod)    // RemoveContainer has looked its container up
    | Forgetting(pod: Pod)          // RemovePod is past its container
    | Stopping(id: Id)              // StopContainer holds the stop mark

  datatype Tables = Tables(containers: map<Id, Pod>, byPod: map<Pod, Id>, stops: set<Id>)

  datatype State = State(t: Tables, calls: map<nat, Call>)

  datatype Action =
    | BeginCreate(call: nat, pod: Pod)
    | FinishCreate(call: nat, id: Id)
    | BeginRemove(call: nat, id: Id)
    | FinishRemove(call: nat, partOfRemovePod: bool)
    | BeginForget(call: nat, pod: Pod)
    | FinishForget(call: nat)
    | BeginStop(call: nat, id: Id)
    | EndStop(call: nat)
    | Fail(call: nat)               // a remote error ends a create before its second section

  function Init(): State {
    State(Tables(map[], map[], {}), map[])
  }

  // The locked sections.

  function Inserted(t: Tables, id: Id, pod: Pod): Tables {
    t.(containers := t.containers[id := pod], byPod := t.byPod[pod := id])
  }

  function Removed(t: Tables, id: Id, pod: Pod): Tables {
    t.(containers := t.containers - {id}, byPod := t.byPod - {pod})
  }

  function Forgotten(t: Tables, pod: Pod): Tables {
    t.(byPod := t.byPod - {pod})
  }

  /** beginContainerStopLocked and endContainerStopLocked. */
  function Marked(t: Tables, id: Id): Tables {
    t.(stops := t.stops + {id})
  }

  function Unmarked(t: Tables, id: Id): Tables {
    t.(stops := t.stops - {id})
  }

  function Next(s: State, a: Action): (s': State) {
    match a
    case BeginCreate(c, pod) =>
      if c !in s.calls && pod !in s.t.byPod then s.(calls := s.calls[c := Creating(pod)]) else s
    case FinishCreate(c, id) =>
      if c in s.calls && s.calls[c].Creating? then State(Inserted(s.t, id, s.calls[c].pod), s.calls - {c}) else s
    case BeginRemove(c, id) =>
      if c !in s.calls && id in s.t.containers then s.(calls := s.calls[c := Removing(id, s.t.containers[id])]) else s
    case FinishRemove(c, more) =>
      if c in s.calls && s.calls[c].Removing? then
        State(Removed(s.t, s.calls[c].id, s.calls[c].pod),
              if more then s.calls[c := Forgetting(s.calls[c].pod)] else s.calls - {c})
      else s
    case BeginForget(c, pod) =>
      if c !in s.calls && pod !in s.t.byPod then s.(calls := s.calls[c := Forgetting(pod)]) else s
    case FinishForget(c) =>
      if c in s.calls && s.calls[c].Forgetting? then State(Forgotten(s.t, s.calls[c].pod), s.calls - {c}) else s
    case BeginStop(c, id) =>
      if c !in s.calls && id in s.t.containers && id !in s.t.stops
      then State(Marked(s.t, id), s.calls[c := Stopping(id)]) else s
    case EndStop(c) =>
      if c in s.calls && s.calls[c].Stopping?
      then State(Unmarked(s.t, s.calls[c].id), s.calls - {c}) else s
    case Fail(c) =>
      if c in s.calls && s.calls[c].Creating? then s.(calls := s.calls - {c}) else s
  }

  function Exec(s: State, acts: seq<Action>): (s': State)
    decreases |acts|
  {
    if acts == [] then s else Next(Exec(s, acts[..|acts| - 1]), acts[|acts| - 1])
  }

  // Stop marks.

  ghost predicate Holds(calls: map<nat, Call>, c: nat, id: Id) {
    c in calls && calls[c] == Stopping(id)
  }

  ghost predicate MarksExact(s: State) {
    && (forall id :: id in s.t.stops <==> exists c :: Holds(s.calls, c, id))
    && (forall c, d, id :: Holds(s.calls, c, id) && Holds(s.calls, d, id) ==> c == d)
  }

  lemma HoldersNext(s: State, a: Action, c: nat, id: Id)
    ensures Holds(Next(s, a).calls, c, id)
       <==> if a.BeginStop? && c == a.call && c !in s.calls && a.id in s.t.containers && a.id !in s.t.stops
            then id == a.id
            else Holds(s.calls, c, id) && !(a.EndStop? && c == a.call)
  {
  }

  lemma NextMarks(s: State, a: Action)
    requires MarksExact(s)
    ensures MarksExact(Next(s, a))
  {
    var s' := Next(s, a);
    forall c, id
      ensures Holds(s'.calls, c, id)
         <==> if a.BeginStop? && c == a.call && c !in s.calls && a.id in s.t.containers && a.id !in s.t.stops
              then id == a.id
              else Holds(s.calls, c, id) && !(a.EndStop? && c == a.call)
    {
      HoldersNext(s, a, c, id);
    }
    assert s'.t.stops == if a.BeginStop? && a.call !in s.calls && a.id in s.t.containers && a.id !in s.t.stops
                         then s.t.stops + {a.id}
                         else if a.EndStop? && a.call in s.calls && s.calls[a.call].Stopping?
                         then s.t.stops - {s.calls[a.call].id} else s.t.stops;
    assert a.EndStop? && a.call in s.calls && s.calls[a.call].Stopping? ==> Holds(s.calls, a.call, s.calls[a.call].id);
    hide Next;
    forall id
      ensures id in s'.t.stops <==> exists c :: Holds(s'.calls, c, id)
    {
      if id in s'.t.stops && id in s.t.stops {
        var c :| Holds(s.calls, c, id);
        assert Holds(s'.calls, c, id);
      } else if id in s'.t.stops {
        assert Holds(s'.calls, a.call, id);
      }
    }
  }

  /** In every run the stop marks are exactly the containers being stopped, each by one call. */
  lemma {:induction false} OneStopPerContainer(acts: seq<Action>)
    ensures MarksExact(Exec(Init(), acts))
    decreases |acts|
  {
    if acts != [] {
      OneStopPerContainer(acts[..|acts| - 1]);
      NextMarks(Exec(Init(), acts[..|acts| - 1]), acts[|acts| - 1]);
    }
  }

  /**
   In every run the end of a stop frees its container for the next one: nobody is stopping it, and no
   other mark changes.
  */
  lemma EndStopReopens(acts: seq<Action>, c: nat)
    requires var s := Exec(Init(), acts); c in s.calls && s.calls[c].Stopping?
    ensures var s := Exec(Init(), acts);
      var s', id := Next(s, EndStop(c)), s.calls[c].id;
      && s.t.stops == s'.t.stops + {id} && id !in s'.t.stops && (forall d :: !Holds(s'.calls, d, id))
      && s'.t.containers == s.t.containers && s'.t.byPod == s.t.byPod
  {
    OneStopPerContainer(acts);
    var s := Exec(Init(), acts);
    assert Holds(s.calls, c, s.calls[c].id);
    forall d
      ensures !Holds(Next(s, EndStop(c)).calls, d, s.calls[c].id)
    {
      HoldersNext(s, EndStop(c), d, s.calls[c].id);
    }
  }

  // One container per pod.

  ghost predicate OneToOne(t: Tables) {
    && (forall id :: id in t.containers ==> t.containers[id] in t.byPod && t.byPod[t.containers[id]] == id)
    && (forall p :: p in t.byPod ==> t.byPod[p] in t.containers && t.containers[t.byPod[p]] == p)
  }

  /** The second section meets tables that the first one did not see: the recheck the code leaves out would fail. */
  predicate Stale(s: State, a: Action) {
    match a
    case FinishCreate(c, id) =>
      c in s.calls && s.calls[c].Creating? &&
      var pod := s.calls[c].pod;
      (pod in s.t.byPod && s.t.byPod[pod] != id) || (id in s.t.containers && s.t.containers[id] != pod)
    case FinishRemove(c, _) =>
      c in s.calls && s.calls[c].Removing? &&
      var id, pod := s.calls[c].id, s.calls[c].pod;
      if id in s.t.containers then s.t.containers[id] != pod else pod in s.t.byPod
    case FinishForget(c) =>
      c in s.calls && s.calls[c].Forgetting? && s.calls[c].pod in s.t.byPod
    case _ => false
  }

  lemma InsertIff(t: Tables, id: Id, pod: Pod)
    requires OneToOne(t)
    ensures OneToOne(Inserted(t, id, pod))
       <==> (pod in t.byPod ==> t.byPod[pod] == id) && (id in t.containers ==> t.containers[id] == pod)
  {
    var u := Inserted(t, id, pod);
    if pod in t.byPod && t.byPod[pod] != id {
      var other := t.byPod[pod];
      assert other in u.containers && u.containers[other] == pod && u.byPod[pod] == id;
    } else if id in t.containers && t.containers[id] != pod {
      var other := t.containers[id];
      assert other in u.byPod && u.byPod[other] == id && u.containers[id] == pod;
    } else {
      assert forall x :: x in t.containers && x != id ==> t.containers[x] != pod;
    }
  }

  lemma RemoveIff(t: Tables, id: Id, pod: Pod)
    requires OneToOne(t)
    ensures OneToOne(Removed(t, id, pod)) <==> if id in t.containers then t.containers[id] == pod else pod !in t.byPod
  {
    var u := Removed(t, id, pod);
    if id in t.containers && t.containers[id] != pod {
      var other := t.containers[id];
      assert other in u.byPod && u.byPod[other] == id && id !in u.containers;
    } else if id !in t.containers && pod in t.byPod {
      var other := t.byPod[pod];
      assert other in u.containers && u.containers[other] == pod && pod !in u.byPod;
    } else {
      assert forall x :: x in t.containers && x != id ==> t.containers[x] != pod;
      assert forall p :: p in t.byPod && p != pod ==> t.byPod[p] != id;
    }
  }

  lemma ForgetIff(t: Tables, pod: Pod)
    requires OneToOne(t)
    ensures OneToOne(Forgotten(t, pod)) <==> pod !in t.byPod
  {
    var u := Forgotten(t, pod);
    if pod in t.byPod {
      assert u.containers[t.byPod[pod]] == pod && pod !in u.byPod;
    } else {
      assert u.byPod == t.byPod;
    }
  }

  lemma StopsApart(s: State, a: Action)
    requires !a.FinishCreate? || a.call !in s.calls || !s.calls[a.call].Creating?
    requires !a.FinishRemove? || a.call !in s.calls || !s.calls[a.call].Removing?
    requires !a.FinishForget? || a.call !in s.calls || !s.calls[a.call].Forgetting?
    ensures OneToOne(Next(s, a).t) <==> OneToOne(s.t)
  {
  }

  /** A step keeps one container per pod exactly if it is not stale. */
  lemma KeptIffFresh(s: State, a: Action)
    requires OneToOne(s.t)
    ensures OneToOne(Next(s, a).t) <==> !Stale(s, a)
  {
    hide OneToOne, Inserted, Removed, Forgotten;
    if a.FinishCreate? && a.call in s.calls && s.calls[a.call].Creating? {
      InsertIff(s.t, a.id, s.calls[a.call].pod);
    } else if a.FinishRemove? && a.call in s.calls && s.calls[a.call].Removing? {
      RemoveIff(s.t, s.calls[a.call].id, s.calls[a.call].pod);
    } else if a.FinishForget? && a.call in s.calls && s.calls[a.call].Forgetting? {
      ForgetIff(s.t, s.calls[a.call].pod);
    } else {
      StopsApart(s, a);
    }
  }

  /** No two calls that create, remove or forget are on the same pod at once. */
  ghost predicate Exclusive(calls: map<nat, Call>) {
    forall c, d :: c in calls && d in calls && c != d && !calls[c].Stopping? && !calls[d].Stopping? ==>
      calls[c].pod != calls[d].pod
  }

  /** Every state of the run is exclusive, and a create gets an id that is not in use. */
  ghost predicate Orderly(acts: seq<Action>)
    decreases |acts|
  {
    if acts == [] then true
    else
      var i := |acts| - 1;
      var s := Exec(Init(), acts[..i]);
      && Orderly(acts[..i])
      && Exclusive(Next(s, acts[i]).calls)
      && (acts[i].FinishCreate? ==> acts[i].id !in s.t.containers)
  }

  ghost predicate SeenStillHolds(t: Tables, c: Call) {
    match c
    case Creating(pod) => pod !in t.byPod
    case Removing(id, pod) => id in t.containers && t.containers[id] == pod
    case Forgetting(pod) => pod !in t.byPod
    case Stopping(_) => true
  }

  ghost predicate Undisturbed(s: State) {
    OneToOne(s.t) && Exclusive(s.calls) && forall c :: c in s.calls ==> SeenStillHolds(s.t, s.calls[c])
  }

  lemma NeverStale(s: State, a: Action)
    requires Undisturbed(s) && (a.FinishCreate? ==> a.id !in s.t.containers)
    ensures !Stale(s, a)
  {
    if a.call in s.calls {
      assert SeenStillHolds(s.t, s.calls[a.call]);
    }
  }

  lemma OthersUndisturbed(s: State, a: Action, c: nat)
    requires Undisturbed(s) && (a.FinishCreate? ==> a.id !in s.t.containers)
    requires c in Next(s, a).calls
    ensures SeenStillHolds(Next(s, a).t, Next(s, a).calls[c])
  {
    if c in s.calls {
      assert SeenStillHolds(s.t, s.calls[c]);
    }
    if a.call in s.calls && a.call != c {
      assert SeenStillHolds(s.t, s.calls[a.call]);
    }
  }

  /** If calls on one pod never overlap, every pod has at most one container and the two tables mirror each other. */
  lemma {:induction false} OneContainerPerPod(acts: seq<Action>)
    requires Orderly(acts)
    ensures Undisturbed(Exec(Init(), acts))
    decreases |acts|
  {
    if acts != [] {
      var i := |acts| - 1;
      OneContainerPerPod(acts[..i]);
      var s := Exec(Init(), acts[..i]);
      NeverStale(s, acts[i]);
      KeptIffFresh(s, acts[i]);
      forall c | c in Next(s, acts[i]).calls
        ensures SeenStillHolds(Next(s, acts[i]).t, Next(s, acts[i]).calls[c])
      {
        OthersUndisturbed(s, acts[i], c);
      }
    }
  }

  /** Two overlapping creates on one pod leave it with two containers. */
  lemma OverlappingCreates()
    ensures var t := Exec(Init(), [BeginCreate(0, 7), BeginCreate(1, 7), FinishCreate(0, 10), FinishCreate(1, 11)]).t;
      t.containers == map[10 := 7, 11 := 7] && t.byPod == map[7 := 11] && !OneToOne(t)
  {
    var acts := [BeginCreate(0, 7), BeginCreate(1, 7), FinishCreate(0, 10), FinishCreate(1, 11)];
    var s1 := Next(Init(), acts[0]);
    var s2 := Next(s1, acts[1]);
    var s3 := Next(s2, acts[2]);
    assert acts[..3][..2] == acts[..2] && acts[..2][..1] == acts[..1] && acts[..1][..0] == [];
    assert Exec(Init(), acts[..1]) == s1;
    assert Exec(Init(), acts[..2]) == s2;
    assert Exec(Init(), acts[..3]) == s3;
    assert s3.t.containers == map[10 := 7] && s3.t.byPod == map[7 := 10];
    var t := Next(s3, acts[3]).t;
    assert Exec(Init(), acts).t == t;
    assert 10 in t.containers && t.containers[10] == 7 && t.byPod[7] == 11;
  }

  // Which calls are in flight and which containers are recorded, read off the run.

  /** The step enters `call` between its sections, with what its first section looked up. */
  predicate Enters(s: State, a: Action, c: nat, call: Call) {
    match call
    case Creating(pod) => a == BeginCreate(c, pod) && c !in s.calls && pod !in s.t.byPod
    case Removing(id, pod) =>
      a == BeginRemove(c, id) && c !in s.calls && id in s.t.containers && s.t.containers[id] == pod
    case Forgetting(pod) =>
      || (a == BeginForget(c, pod) && c !in s.calls && pod !in s.t.byPod)
      || (a == FinishRemove(c, true) && c in s.calls && s.calls[c].Removing? && s.calls[c].pod == pod)
    case Stopping(id) => a == BeginStop(c, id) && c !in s.calls && id in s.t.containers && id !in s.t.stops
  }

  /** The step is the one with which `call` goes on to its second section. */
  predicate Finishes(a: Action, c: nat, call: Call) {
    match call
    case Creating(_) => (a.FinishCreate? || a.Fail?) && a.call == c
    case Removing(_, _) => a.FinishRemove? && a.call == c
    case Forgetting(_) => a == FinishForget(c)
    case Stopping(_) => a == EndStop(c)
  }

  /** Step `i` entered the call, and no later step finished it. */
  ghost predicate EnteredAt(acts: seq<Action>, i: nat, c: nat, call: Call) {
    && i < |acts| && Enters(Exec(Init(), acts[..i]), acts[i], c, call)
    && forall j :: i < j < |acts| ==> !Finishes(acts[j], c, call)
  }

  lemma InFlightStep(s: State, a: Action, c: nat, call: Call)
    ensures c in Next(s, a).calls && Next(s, a).calls[c] == call
       <==> Enters(s, a, c, call) || (c in s.calls && s.calls[c] == call && !Finishes(a, c, call))
  {
  }

  lemma EnteredBefore(acts: seq<Action>, i: nat, c: nat, call: Call)
    requires i + 1 < |acts|
    ensures EnteredAt(acts, i, c, call)
       <==> EnteredAt(acts[..|acts| - 1], i, c, call) && !Finishes(acts[|acts| - 1], c, call)
  {
    hide Exec, Enters, Finishes;
    var before := acts[..|acts| - 1];
    assert acts[..i] == before[..i];
    assert forall j :: 0 <= j < |before| ==> acts[j] == before[j];
  }

  lemma EnteredLast(acts: seq<Action>, c: nat, call: Call)
    requires acts != []
    ensures var n := |acts| - 1;
      && (EnteredAt(acts, n, c, call) <==> Enters(Exec(Init(), acts[..n]), acts[n], c, call))
      && (forall i: nat :: EnteredAt(acts, i, c, call) ==> i <= n)
      && (forall i: nat :: EnteredAt(acts[..n], i, c, call) ==> i < n)
  {
    hide Exec, Enters, Finishes;
  }

  /** In every run a call is in flight exactly if a step entered it and none has finished it since. */
  lemma {:induction false} InFlightIff(acts: seq<Action>, c: nat, call: Call)
    ensures c in Exec(Init(), acts).calls && Exec(Init(), acts).calls[c] == call
       <==> exists i :: EnteredAt(acts, i, c, call)
    decreases |acts|
  {
    if acts != [] {
      var n := |acts| - 1;
      var before := acts[..n];
      InFlightIff(before, c, call);
      InFlightStep(Exec(Init(), before), acts[n], c, call);
      hide Next, Enters, Finishes, EnteredAt;
      EnteredLast(acts, c, call);
      forall i: nat | i < n
        ensures EnteredAt(acts, i, c, call) <==> EnteredAt(before, i, c, call) && !Finishes(acts[n], c, call)
      {
        EnteredBefore(acts, i, c, call);
      }
    }
  }

  /** The step records the container under the pod its call was for. */
  predicate Creates(s: State, a: Action, id: Id, pod: Pod) {
    a.FinishCreate? && a.id == id && a.call in s.calls && s.calls[a.call] == Creating(pod)
  }

  /** The step takes the container out, or records it under another pod. */
  predicate Displaces(s: State, a: Action, id: Id, pod: Pod) {
    && a.call in s.calls
    && if a.FinishCreate? then a.id == id && s.calls[a.call].Creating? && s.calls[a.call].pod != pod
       else a.FinishRemove? && s.calls[a.call].Removing? && s.calls[a.call].id == id
  }

  ghost predicate CreatedAt(acts: seq<Action>, i: nat, id: Id, pod: Pod) {
    && i < |acts| && Creates(Exec(Init(), acts[..i]), acts[i], id, pod)
    && forall j :: i < j < |acts| ==> !Displaces(Exec(Init(), acts[..j]), acts[j], id, pod)
  }

  lemma RecordedStep(s: State, a: Action, id: Id, pod: Pod)
    ensures id in Next(s, a).t.containers && Next(s, a).t.containers[id] == pod
       <==> Creates(s, a, id, pod) || (id in s.t.containers && s.t.containers[id] == pod && !Displaces(s, a, id, pod))
  {
  }

  lemma CreatedBefore(acts: seq<Action>, i: nat, id: Id, pod: Pod)
    requires i + 1 < |acts|
    ensures var n := |acts| - 1;
      CreatedAt(acts, i, id, pod)
      <==> CreatedAt(acts[..n], i, id, pod) && !Displaces(Exec(Init(), acts[..n]), acts[n], id, pod)
  {
    hide Exec, Creates, Displaces;
    var before := acts[..|acts| - 1];
    assert forall j :: 0 <= j < |before| ==> acts[..j] == before[..j] && acts[j] == before[j];
  }

  lemma CreatedLast(acts: seq<Action>, id: Id, pod: Pod)
    requires acts != []
    ensures var n := |acts| - 1;
      && (CreatedAt(acts, n, id, pod) <==> Creates(Exec(Init(), acts[..n]), acts[n], id, pod))
      && (forall i: nat :: CreatedAt(acts, i, id, pod) ==> i <= n)
      && (forall i: nat :: CreatedAt(acts[..n], i, id, pod) ==> i < n)
  {
    hide Exec, Creates, Displaces;
  }

  /**
   In every run a container is recorded for a pod exactly if a create recorded it there and nothing
   took it out since.
  */
  lemma {:induction false} RecordedIff(acts: seq<Action>, id: Id, pod: Pod)
    ensures id in Exec(Init(), acts).t.containers && Exec(Init(), acts).t.containers[id] == pod
       <==> exists i :: CreatedAt(acts, i, id, pod)
    decreases |acts|
  {
    if acts != [] {
      var n := |acts| - 1;
      var before := acts[..n];
      RecordedIff(before, id, pod);
      RecordedStep(Exec(Init(), before), acts[n], id, pod);
      hide Next, Creates, Displaces, CreatedAt;
      CreatedLast(acts, id, pod);
      forall i: nat | i < n
        ensures CreatedAt(acts, i, id, pod)
           <==> CreatedAt(before, i, id, pod) && !Displaces(Exec(Init(), before), acts[n], id, pod)
      {
        CreatedBefore(acts, i, id, pod);
      }
    }
  }

  // The tables as the engine keeps them.

  class Engine {
    var containers: map<Id, Pod>
    var podToContainer: map<Pod, Id>
    var containerStop: set<Id>

    function View(): Tables
      reads this
    {
      Tables(containers, podToContainer, containerStop)
    }

    constructor ()
      ensures View() == Init().t && OneToOne(View())
    {
      containers, podToContainer, containerStop := map[], map[], {};
    }

    method Insert(id: Id, pod: Pod)
      modifies this
      ensures View() == Inserted(old(View()), id, pod)
    {
      containers := containers[id := pod];
      podToContainer := podToContainer[pod := id];
    }

    method Remove(id: Id, pod: Pod)
      modifies this
      ensures View() == Removed(old(View()), id, pod)
    {
      containers := containers - {id};
      podToContainer := podToContainer - {pod};
    }

    method ForgetPod(pod: Pod)
      modifies this
      ensures View() == Forgotten(old(View()), pod)
    {
      podToContainer := podToContainer - {pod};
    }

    /** The wait for the mark is over when this section runs; the container's pod and kernel may be gone. */
    method BeginContainerStop(id: Id, kernelKnown: bool) returns (ok: bool)
      requires id !in containerStop
      modifies this
      ensures ok <==> id in old(containers) && kernelKnown
      ensures View() == if ok then Marked(old(View()), id) else old(View())
    {
      if id !in containers || !kernelKnown {
        return false;
      }
      containerStop := containerStop + {id};
      return true;
    }

    method EndContainerStop(id: Id)
      modifies this
      ensures View() == Unmarked(old(View()), id)
    {
      containerStop := containerStop - {id};
    }
  }
}
