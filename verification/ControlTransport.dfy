/**
 The host's request/response transport: RoundTrip callers, the receive loop, and the pending table
 between them.  A step is one section under the transport's lock, one channel operation, or one call
 out (send, receive, timeout) with a free result.
*/
module ControlTransport {
  import opened Basics

  datatype Key = Key(peer: nat, requestId: nat)

  /** The header fields of a response that matching depends on; the body travels along unread. */
  datatype Response = Response(peer: nat, requestId: nat, op: nat, body: seq<byte>)

  datatype Result = Got(r: Response) | ReceiverFailed

  datatype Outcome = Success(r: Response) | Duplicate | SendFailed | TimedOut | BadResponse | NoReceiver

  datatype Stage = Sending | Waiting | Leaving(out: Outcome) | Returned(out: Outcome)

  /** One RoundTrip call.  Its channel has room for one result. */
  datatype Caller = Caller(stage: Stage, key: Key, op: nat, chan: seq<Result>)

  datatype Receiver = Receiving | Delivering(cid: nat, r: Response) | Failing(todo: set<nat>) | Stopped

  /**
   `sent` and `failed` are observations: everything ever sent on each caller's channel, and the
   callers that were in the pending table when the receiver failed.
  */
  datatype State = State(
    pending: map<Key, nat>, recvErr: bool, ready: set<nat>, callers: map<nat, Caller>, receiver: Receiver,
    sent: map<nat, seq<Result>>, failed: set<nat>)

  const INIT := State(map[], false, {}, map[], Receiving, map[], {})

  datatype Choice = TakeResult | SeeReceiverDone | SeeTimeout

  datatype Action =
    | Begin(cid: nat, key: Key, op: nat)           // registerPending
    | SendDone(cid: nat, ok: bool)                 // uapi.Send and the timeout context
    | Select(cid: nat, choice: Choice)
    | Leave(cid: nat)                              // the deferred unregisterPending
    | Inbound(r: Response)                         // a response arrives
    | InboundReady(peer: nat)                      // a READY message arrives
    | Push                                         // ch <- result in completePending
    | Fail                                         // the locked part of failReceiver
    | PushFailure(cid: nat)                        // ch <- err in failReceiver

  function SetStage(s: State, cid: nat, stage: Stage): (r: State)
    requires cid in s.callers
  {
    s.(callers := s.callers[cid := s.callers[cid].(stage := stage)])
  }

  /** decodeEnvelopeMessage: the response must carry the caller's own request id and operation. */
  function Decode(c: Caller, res: Result): (o: Outcome) {
    match res
    case ReceiverFailed => NoReceiver
    case Got(r) => if r.requestId == c.key.requestId && r.op == c.op then Success(r) else BadResponse
  }

  function BeginStep(s: State, cid: nat, key: Key, op: nat): (r: State) {
    if cid in s.callers then s
    else if s.recvErr then
      s.(callers := s.callers[cid := Caller(Returned(NoReceiver), key, op, [])], sent := s.sent[cid := []])
    else if key in s.pending then
      s.(callers := s.callers[cid := Caller(Returned(Duplicate), key, op, [])], sent := s.sent[cid := []])
    else
      s.(pending := s.pending[key := cid],
         callers := s.callers[cid := Caller(Sending, key, op, [])], sent := s.sent[cid := []])
  }

  function SelectStep(s: State, cid: nat, choice: Choice): (r: State)
    requires cid in s.callers && s.callers[cid].stage == Waiting
  {
    var c := s.callers[cid];
    match choice
    case TakeResult =>
      if c.chan == [] then s
      else s.(callers := s.callers[cid := c.(stage := Leaving(Decode(c, c.chan[0])), chan := c.chan[1..])])
    case SeeReceiverDone => if s.recvErr then SetStage(s, cid, Leaving(NoReceiver)) else s
    case SeeTimeout => SetStage(s, cid, Leaving(TimedOut))
  }

  /** A send on a full channel would block, that is, change nothing. */
  function ChannelSend(s: State, cid: nat, res: Result): (r: State) {
    if cid !in s.callers || cid !in s.sent || |s.callers[cid].chan| >= 1 then s
    else s.(callers := s.callers[cid := s.callers[cid].(chan := s.callers[cid].chan + [res])],
            sent := s.sent[cid := s.sent[cid] + [res]])
  }

  predicate CanSend(s: State, cid: nat) {
    cid in s.callers && cid in s.sent && s.callers[cid].chan == []
  }

  function InboundStep(s: State, r: Response): (r': State) {
    var key := Key(r.peer, r.requestId);
    if r.requestId == 0 || key !in s.pending then s
    else s.(pending := s.pending - {key}, receiver := Delivering(s.pending[key], r))
  }

  function FailStep(s: State): (r: State) {
    var todo := s.pending.Values;
    s.(recvErr := true, pending := map[], failed := todo, receiver := if todo == {} then Stopped else Failing(todo))
  }

  function Next(s: State, a: Action): (r: State) {
    match a
    case Begin(cid, key, op) => BeginStep(s, cid, key, op)
    case SendDone(cid, ok) =>
      if cid in s.callers && s.callers[cid].stage == Sending
      then SetStage(s, cid, if ok then Waiting else Leaving(SendFailed)) else s
    case Select(cid, choice) =>
      if cid in s.callers && s.callers[cid].stage == Waiting then SelectStep(s, cid, choice) else s
    case Leave(cid) =>
      if cid in s.callers && s.callers[cid].stage.Leaving?
      then SetStage(s, cid, Returned(s.callers[cid].stage.out)).(pending := s.pending - {s.callers[cid].key}) else s
    case Inbound(r) => if s.receiver == Receiving then InboundStep(s, r) else s
    case InboundReady(peer) => if s.receiver == Receiving then s.(ready := s.ready + {peer}) else s
    case Push =>
      if s.receiver.Delivering? && CanSend(s, s.receiver.cid)
      then ChannelSend(s, s.receiver.cid, Got(s.receiver.r)).(receiver := Receiving) else s
    case Fail => if s.receiver == Receiving then FailStep(s) else s
    case PushFailure(cid) =>
      if s.receiver.Failing? && cid in s.receiver.todo && CanSend(s, cid)
      then ChannelSend(s, cid, ReceiverFailed)
           .(receiver := if s.receiver.todo == {cid} then Stopped else Failing(s.receiver.todo - {cid}))
      else s
  }

  function Exec(s: State, acts: seq<Action>): (r: State)
    decreases |acts|
  {
    if acts == [] then s else Exec(Next(s, acts[0]), acts[1..])
  }

  // Invariant.

  /** Nothing was ever sent on this caller's channel. */
  predicate Untouched(s: State, cid: nat) {
    cid in s.callers && cid in s.sent && s.sent[cid] == [] && s.callers[cid].chan == []
  }

  predicate PendingOk(s: State) {
    && (forall k :: k in s.pending ==>
          && Untouched(s, s.pending[k]) && s.callers[s.pending[k]].key == k
          && !s.callers[s.pending[k]].stage.Returned?)
    && (s.recvErr ==> s.pending == map[])
    && (s.recvErr <==> s.receiver.Failing? || s.receiver.Stopped?)
  }

  predicate ReceiverOk(s: State) {
    && (s.receiver.Delivering? ==>
          && Untouched(s, s.receiver.cid)
          && s.callers[s.receiver.cid].key == Key(s.receiver.r.peer, s.receiver.r.requestId)
          && (forall k :: k in s.pending ==> s.pending[k] != s.receiver.cid))
    && (s.receiver.Failing? ==> forall c :: c in s.receiver.todo ==> Untouched(s, c) && c in s.failed)
    && (s.recvErr ==> forall c :: c in s.failed ==>
          && c in s.callers && c in s.sent
          && (s.sent[c] == [ReceiverFailed] || (s.receiver.Failing? && c in s.receiver.todo)))
  }

  /** A result that may travel on this caller's channel. */
  predicate Fitting(c: Caller, res: Result) {
    res.Got? ==> Key(res.r.peer, res.r.requestId) == c.key
  }

  predicate Answered(c: Caller, out: Outcome) {
    out.Success? ==> Key(out.r.peer, out.r.requestId) == c.key && out.r.op == c.op
  }

  predicate CallerOk(s: State, cid: nat)
    requires cid in s.callers
  {
    var c := s.callers[cid];
    && cid in s.sent && |s.sent[cid]| <= 1 && |c.chan| <= |s.sent[cid]|
    && (forall i :: 0 <= i < |c.chan| ==> Fitting(c, c.chan[i]))
    && (c.stage.Leaving? ==> Answered(c, c.stage.out))
    && (c.stage.Returned? ==> Answered(c, c.stage.out))
  }

  predicate CallersOk(s: State) {
    forall cid :: cid in s.callers ==> CallerOk(s, cid)
  }

  predicate Inv(s: State) {
    PendingOk(s) && ReceiverOk(s) && CallersOk(s)
  }

  lemma CallersFrame(s: State, s': State, cid: nat)
    requires CallersOk(s) && cid in s'.callers && CallerOk(s', cid)
    requires s'.callers.Keys == s.callers.Keys + {cid}
    requires forall c :: c in s.callers && c != cid ==> s'.callers[c] == s.callers[c]
    requires forall c :: c in s.sent && c != cid ==> c in s'.sent && s'.sent[c] == s.sent[c]
    ensures CallersOk(s')
  {
  }

  lemma BeginKeepsPending(s: State, cid: nat, key: Key, op: nat)
    requires PendingOk(s)
    ensures PendingOk(BeginStep(s, cid, key, op))
  {
  }

  lemma BeginKeepsReceiver(s: State, cid: nat, key: Key, op: nat)
    requires ReceiverOk(s)
    ensures ReceiverOk(BeginStep(s, cid, key, op))
  {
  }

  lemma BeginKeeps(s: State, cid: nat, key: Key, op: nat)
    requires Inv(s)
    ensures Inv(BeginStep(s, cid, key, op))
  {
    BeginKeepsPending(s, cid, key, op);
    BeginKeepsReceiver(s, cid, key, op);
    hide CallersOk, PendingOk, ReceiverOk;
    var s' := BeginStep(s, cid, key, op);
    if s' != s { CallersFrame(s, s', cid); }
  }

  lemma StageKeeps(s: State, cid: nat, stage: Stage)
    requires Inv(s) && cid in s.callers && !s.callers[cid].stage.Returned? && !stage.Returned?
    requires stage.Leaving? ==> Answered(s.callers[cid], stage.out)
    ensures Inv(SetStage(s, cid, stage))
  {
    assert CallerOk(s, cid);
    hide CallersOk;
    CallersFrame(s, SetStage(s, cid, stage), cid);
  }

  lemma TakeKeeps(s: State, cid: nat)
    requires Inv(s) && cid in s.callers && s.callers[cid].stage == Waiting
    ensures Inv(SelectStep(s, cid, TakeResult))
  {
    assert CallerOk(s, cid);
    hide CallersOk;
    var s' := SelectStep(s, cid, TakeResult);
    if s' != s { CallersFrame(s, s', cid); }
  }

  lemma LeaveKeeps(s: State, cid: nat)
    requires Inv(s) && cid in s.callers && s.callers[cid].stage.Leaving?
    ensures Inv(Next(s, Leave(cid)))
  {
    assert CallerOk(s, cid);
    hide CallersOk;
    CallersFrame(s, Next(s, Leave(cid)), cid);
  }

  lemma CallersSame(s: State, s': State)
    requires CallersOk(s) && s'.callers == s.callers && s'.sent == s.sent
    ensures CallersOk(s')
  {
  }

  lemma InboundKeeps(s: State, r: Response)
    requires Inv(s) && s.receiver == Receiving
    ensures Inv(InboundStep(s, r))
  {
    hide CallersOk;
    CallersSame(s, InboundStep(s, r));
  }

  lemma FailKeeps(s: State)
    requires Inv(s) && s.receiver == Receiving
    ensures Inv(FailStep(s))
  {
    hide CallersOk;
    CallersSame(s, FailStep(s));
  }

  lemma SendKeeps(s: State, cid: nat, res: Result)
    requires CallersOk(s) && Untouched(s, cid) && Fitting(s.callers[cid], res)
    ensures CallersOk(ChannelSend(s, cid, res))
  {
    assert CallerOk(s, cid);
    CallersFrame(s, ChannelSend(s, cid, res), cid);
  }

  lemma PushKeeps(s: State)
    requires Inv(s) && s.receiver.Delivering?
    ensures CanSend(s, s.receiver.cid) && Inv(Next(s, Push))
  {
    hide CallersOk;
    SendKeeps(s, s.receiver.cid, Got(s.receiver.r));
    CallersSame(ChannelSend(s, s.receiver.cid, Got(s.receiver.r)), Next(s, Push));
  }

  lemma PushFailureKeeps(s: State, cid: nat)
    requires Inv(s) && s.receiver.Failing? && cid in s.receiver.todo
    ensures CanSend(s, cid) && Inv(Next(s, PushFailure(cid)))
  {
    hide CallersOk;
    SendKeeps(s, cid, ReceiverFailed);
    CallersSame(ChannelSend(s, cid, ReceiverFailed), Next(s, PushFailure(cid)));
  }

  lemma ReadyKeeps(s: State, peer: nat)
    requires Inv(s)
    ensures Inv(s.(ready := s.ready + {peer}))
  {
    hide CallersOk;
    CallersSame(s, s.(ready := s.ready + {peer}));
  }

  lemma NextKeeps(s: State, a: Action)
    requires Inv(s)
    ensures Inv(Next(s, a))
  {
    hide Inv;
    match a
    case Begin(cid, key, op) => BeginKeeps(s, cid, key, op);
    case SendDone(cid, ok) =>
      if cid in s.callers && s.callers[cid].stage == Sending {
        StageKeeps(s, cid, if ok then Waiting else Leaving(SendFailed));
      }
    case Select(cid, choice) =>
      if cid in s.callers && s.callers[cid].stage == Waiting {
        TakeKeeps(s, cid);
        StageKeeps(s, cid, Leaving(NoReceiver));
        StageKeeps(s, cid, Leaving(TimedOut));
      }
    case Leave(cid) =>
      if cid in s.callers && s.callers[cid].stage.Leaving? { LeaveKeeps(s, cid); }
    case Inbound(r) => if s.receiver == Receiving { InboundKeeps(s, r); }
    case InboundReady(peer) => ReadyKeeps(s, peer);
    case Push => if s.receiver.Delivering? { PushKeeps(s); }
    case Fail => if s.receiver == Receiving { FailKeeps(s); }
    case PushFailure(cid) =>
      if s.receiver.Failing? && cid in s.receiver.todo { PushFailureKeeps(s, cid); }
  }

  lemma {:induction false} ExecKeeps(s: State, acts: seq<Action>)
    requires Inv(s)
    ensures Inv(Exec(s, acts))
    decreases |acts|
  {
    hide Inv, Next;
    if acts != [] {
      NextKeeps(s, acts[0]);
      ExecKeeps(Next(s, acts[0]), acts[1..]);
    }
  }

  // Promises over every run.

  lemma ReachableInv(acts: seq<Action>)
    ensures Inv(Exec(INIT, acts))
  {
    ExecKeeps(INIT, acts);
  }

  /** The receive loop never blocks: whenever it is about to send on a channel, that channel has room. */
  lemma ReceiverNeverBlocks(acts: seq<Action>)
    ensures var s := Exec(INIT, acts);
      && (s.receiver.Delivering? ==> CanSend(s, s.receiver.cid))
      && (s.receiver.Failing? ==> forall c :: c in s.receiver.todo ==> CanSend(s, c))
  {
    ReachableInv(acts);
    hide Exec;
  }

  /** At most one result is ever sent on a caller's channel. */
  lemma AtMostOneSend(acts: seq<Action>, cid: nat)
    requires cid in Exec(INIT, acts).callers
    ensures cid in Exec(INIT, acts).sent && |Exec(INIT, acts).sent[cid]| <= 1
  {
    ReachableInv(acts);
    hide Exec;
    assert CallerOk(Exec(INIT, acts), cid);
  }

  /** A RoundTrip that succeeds returns a response of its own peer, with its own request id and operation. */
  lemma SuccessIsOwnResponse(acts: seq<Action>, cid: nat)
    requires var s := Exec(INIT, acts);
      cid in s.callers && s.callers[cid].stage.Returned? && s.callers[cid].stage.out.Success?
    ensures var c := Exec(INIT, acts).callers[cid];
      && c.stage.out.r.peer == c.key.peer
      && c.stage.out.r.requestId == c.key.requestId
      && c.stage.out.r.op == c.op
  {
    ReachableInv(acts);
    hide Exec;
    assert CallerOk(Exec(INIT, acts), cid);
  }

  /**
   Once the receiver has failed the pending table stays empty; when it has stopped, every caller that
   was pending has been sent the error, and nothing else.
  */
  lemma FailureReachesEveryone(acts: seq<Action>)
    ensures var s := Exec(INIT, acts);
      && (s.recvErr ==> s.pending == map[])
      && (s.receiver.Stopped? ==> forall c :: c in s.failed ==> c in s.sent && s.sent[c] == [ReceiverFailed])
  {
    ReachableInv(acts);
    hide Exec;
  }

  /** READY and the failure of the receiver are never undone. */
  lemma {:induction false} ReadyIsMonotone(s: State, acts: seq<Action>)
    requires Inv(s)
    ensures s.ready <= Exec(s, acts).ready
    ensures s.recvErr ==> Exec(s, acts).recvErr && Exec(s, acts).failed == s.failed
    decreases |acts|
  {
    if acts != [] {
      NextKeeps(s, acts[0]);
      var s' := Next(s, acts[0]);
      assert s.ready <= s'.ready && (s.recvErr ==> s'.recvErr && s'.failed == s.failed) by {
        hide CallersOk, ReceiverOk;
      }
      hide Inv, Next;
      ReadyIsMonotone(s', acts[1..]);
    }
  }

  lemma {:induction false} ExecSnoc(s: State, acts: seq<Action>)
    requires acts != []
    ensures Exec(s, acts) == Next(Exec(s, acts[..|acts| - 1]), acts[|acts| - 1])
    decreases |acts|
  {
    hide Next;
    var i := |acts| - 1;
    if i > 0 {
      ExecSnoc(Next(s, acts[0]), acts[1..]);
      assert acts[1..][..i - 1] == acts[..i][1..];
    }
  }

  /** Step `i` of the run takes in a READY message of `peer`. */
  ghost predicate TakesReady(acts: seq<Action>, i: nat, peer: nat) {
    i < |acts| && acts[i] == InboundReady(peer) && Exec(INIT, acts[..i]).receiver == Receiving
  }

  lemma ReadyStep(s: State, a: Action, peer: nat)
    ensures peer in Next(s, a).ready <==> peer in s.ready || (a == InboundReady(peer) && s.receiver == Receiving)
  {
  }

  /** In every run the ready peers are exactly those whose READY message the receive loop has taken in. */
  lemma {:induction false} ReadyIff(acts: seq<Action>, peer: nat)
    ensures peer in Exec(INIT, acts).ready <==> exists i :: TakesReady(acts, i, peer)
    decreases |acts|
  {
    if acts != [] {
      var n := |acts| - 1;
      var before := acts[..n];
      ReadyIff(before, peer);
      ExecSnoc(INIT, acts);
      ReadyStep(Exec(INIT, before), acts[n], peer);
      hide Exec, Next;
      forall i | 0 <= i < n
        ensures TakesReady(acts, i, peer) <==> TakesReady(before, i, peer)
      {
        assert acts[..i] == before[..i];
      }
      if acts[n] == InboundReady(peer) && Exec(INIT, before).receiver == Receiving {
        assert TakesReady(acts, n, peer);
      }
      if i: nat :| TakesReady(before, i, peer) {
        assert TakesReady(acts, i, peer);
      }
    }
  }

  /** The call has come to this outcome; it may still have to unregister. */
  predicate Ended(s: State, cid: nat, out: Outcome) {
    cid in s.callers && (s.callers[cid].stage == Leaving(out) || s.callers[cid].stage == Returned(out))
  }

  predicate Selects(s: State, a: Action, cid: nat, choice: Choice) {
    a == Select(cid, choice) && cid in s.callers && s.callers[cid].stage == Waiting
  }

  /** The call takes `res` from its channel. */
  predicate Takes(s: State, a: Action, cid: nat, res: Result) {
    Selects(s, a, cid, TakeResult) && s.callers[cid].chan != [] && s.callers[cid].chan[0] == res
  }

  predicate Begins(s: State, a: Action, cid: nat) {
    a.Begin? && a.cid == cid && cid !in s.callers
  }

  /** The step that settles a call, for each of the errors and for success. */
  ghost predicate Decides(s: State, a: Action, cid: nat, out: Outcome) {
    match out
    case Success(r) =>
      Takes(s, a, cid, Got(r)) && r.requestId == s.callers[cid].key.requestId && r.op == s.callers[cid].op
    case BadResponse =>
      exists r ::
        Takes(s, a, cid, Got(r)) && !(r.requestId == s.callers[cid].key.requestId && r.op == s.callers[cid].op)
    case TimedOut => Selects(s, a, cid, SeeTimeout)
    case SendFailed => a == SendDone(cid, false) && cid in s.callers && s.callers[cid].stage == Sending
    case Duplicate => Begins(s, a, cid) && !s.recvErr && a.key in s.pending
    case NoReceiver =>
      || (Begins(s, a, cid) && s.recvErr)
      || (Selects(s, a, cid, SeeReceiverDone) && s.recvErr)
      || Takes(s, a, cid, ReceiverFailed)
  }

  lemma OthersKeepStage(s: State, a: Action, cid: nat)
    requires cid in s.callers
    requires !((a.SendDone? || a.Select? || a.Leave?) && a.cid == cid)
    ensures cid in Next(s, a).callers && Next(s, a).callers[cid].stage == s.callers[cid].stage
  {
  }

  lemma TakeEnds(s: State, a: Action, cid: nat, out: Outcome)
    requires Selects(s, a, cid, TakeResult)
    ensures Ended(Next(s, a), cid, out) <==> Ended(s, cid, out) || Decides(s, a, cid, out)
  {
    if s.callers[cid].chan != [] && s.callers[cid].chan[0].Got? {
      assert forall r :: Takes(s, a, cid, Got(r)) ==> r == s.callers[cid].chan[0].r;
      assert Takes(s, a, cid, Got(s.callers[cid].chan[0].r));
    }
  }

  lemma OwnStepEnds(s: State, a: Action, cid: nat, out: Outcome)
    requires cid in s.callers && (a.SendDone? || a.Select? || a.Leave?) && a.cid == cid
    requires !Selects(s, a, cid, TakeResult)
    ensures Ended(Next(s, a), cid, out) <==> Ended(s, cid, out) || Decides(s, a, cid, out)
  {
  }

  lemma OnlyBeginEnters(s: State, a: Action, cid: nat)
    requires cid !in s.callers && !Begins(s, a, cid)
    ensures cid !in Next(s, a).callers
  {
  }

  lemma BeginEnds(s: State, a: Action, cid: nat, out: Outcome)
    requires Begins(s, a, cid)
    ensures Ended(Next(s, a), cid, out) <==> Decides(s, a, cid, out)
  {
  }

  lemma FirstStepEnds(s: State, a: Action, cid: nat, out: Outcome)
    requires cid !in s.callers
    ensures Ended(Next(s, a), cid, out) <==> Decides(s, a, cid, out)
  {
    hide Next;
    if Begins(s, a, cid) {
      BeginEnds(s, a, cid, out);
    } else {
      OnlyBeginEnters(s, a, cid);
    }
  }

  lemma StepEnds(s: State, a: Action, cid: nat, out: Outcome)
    ensures Ended(Next(s, a), cid, out) <==> Ended(s, cid, out) || Decides(s, a, cid, out)
  {
    hide Next;
    if cid !in s.callers {
      FirstStepEnds(s, a, cid, out);
    } else if Selects(s, a, cid, TakeResult) {
      TakeEnds(s, a, cid, out);
    } else if (a.SendDone? || a.Select? || a.Leave?) && a.cid == cid {
      OwnStepEnds(s, a, cid, out);
    } else {
      OthersKeepStage(s, a, cid);
    }
  }

  /** Step `i` of the run settles the call. */
  ghost predicate DecidedAt(acts: seq<Action>, i: nat, cid: nat, out: Outcome) {
    i < |acts| && Decides(Exec(INIT, acts[..i]), acts[i], cid, out)
  }

  lemma DecidedSplit(acts: seq<Action>, cid: nat, out: Outcome)
    requires acts != []
    ensures var n := |acts| - 1;
      (exists i :: DecidedAt(acts, i, cid, out))
      <==> (exists i :: DecidedAt(acts[..n], i, cid, out)) || Decides(Exec(INIT, acts[..n]), acts[n], cid, out)
  {
    hide Exec, Decides;
    var n := |acts| - 1;
    forall i: nat | i < n
      ensures DecidedAt(acts, i, cid, out) <==> DecidedAt(acts[..n], i, cid, out)
    {
      assert acts[..i] == acts[..n][..i];
    }
    assert DecidedAt(acts, n, cid, out) <==> Decides(Exec(INIT, acts[..n]), acts[n], cid, out);
  }

  /** In every run a call has an outcome exactly if one of the run's steps decided on it. */
  lemma {:induction false} OutcomeIff(acts: seq<Action>, cid: nat, out: Outcome)
    ensures Ended(Exec(INIT, acts), cid, out) <==> exists i :: DecidedAt(acts, i, cid, out)
    decreases |acts|
  {
    if acts != [] {
      var before := acts[..|acts| - 1];
      OutcomeIff(before, cid, out);
      ExecSnoc(INIT, acts);
      hide Exec, Next, Decides, Ended, DecidedAt;
      StepEnds(Exec(INIT, before), acts[|acts| - 1], cid, out);
      DecidedSplit(acts, cid, out);
    }
  }

  /**
   Whoever is in the pending table when the receiver fails has been sent the error, and nothing else,
   once the receiver has stopped, whatever happens in between; the table stays empty from then on.
  */
  lemma PendingAtFailureGetError(acts: seq<Action>, more: seq<Action>)
    requires Exec(INIT, acts).receiver == Receiving
    ensures var s := Exec(INIT, acts);
      var s' := Exec(Next(s, Fail), more);
      && s'.recvErr && s'.pending == map[]
      && (s'.receiver.Stopped? ==>
            forall k :: k in s.pending ==> s.pending[k] in s'.sent && s'.sent[s.pending[k]] == [ReceiverFailed])
  {
    var s := Exec(INIT, acts);
    ReachableInv(acts);
    NextKeeps(s, Fail);
    ExecKeeps(Next(s, Fail), more);
    ReadyIsMonotone(Next(s, Fail), more);
    hide Exec, CallersOk;
    assert forall k :: k in s.pending ==> s.pending[k] in s.pending.Values;
  }

  // Who can be forgotten.

  /** The caller can still be answered: it is in the pending table, or its result is sent or being sent. */
  predicate Remembered(s: State, cid: nat)
    requires cid in s.callers
  {
    || (s.callers[cid].key in s.pending && s.pending[s.callers[cid].key] == cid)
    || (cid in s.sent && s.sent[cid] != [])
    || (s.receiver.Delivering? && s.receiver.cid == cid)
    || (s.receiver.Failing? && cid in s.receiver.todo)
  }

  predicate Expecting(c: Caller) {
    c.stage == Sending || c.stage == Waiting
  }

  /** No call that is sending or waiting has been forgotten. */
  predicate NoneForgotten(s: State) {
    forall cid :: cid in s.callers && Expecting(s.callers[cid]) ==> Remembered(s, cid)
  }

  /** The deferred unregisterPending of one call finds another call, still expecting its answer, under its key. */
  predicate EvictsOther(s: State, a: Action) {
    && a.Leave? && a.cid in s.callers && s.callers[a.cid].stage.Leaving?
    && s.callers[a.cid].key in s.pending
    && var other := s.pending[s.callers[a.cid].key];
       other != a.cid && other in s.callers && Expecting(s.callers[other])
  }

  predicate KeysExclusive(s: State) {
    forall c, c' ::
      (c in s.callers && c' in s.callers && c != c'
       && !s.callers[c].stage.Returned? && !s.callers[c'].stage.Returned?) ==> s.callers[c].key != s.callers[c'].key
  }

  lemma BeginForgetsNobody(s: State, cid: nat, key: Key, op: nat)
    requires PendingOk(s) && NoneForgotten(s)
    ensures NoneForgotten(BeginStep(s, cid, key, op))
  {
  }

  /** A caller that changes its own stage and channel leaves the others as remembered as they were. */
  lemma OthersStayRemembered(s: State, s': State, cid: nat)
    requires NoneForgotten(s) && cid in s.callers && cid in s'.callers
    requires s'.callers.Keys == s.callers.Keys
    requires forall c :: c in s.callers && c != cid ==> s'.callers[c] == s.callers[c]
    requires s'.callers[cid].key == s.callers[cid].key
    requires s'.pending == s.pending && s'.sent == s.sent && s'.receiver == s.receiver
    requires Expecting(s'.callers[cid]) ==> Expecting(s.callers[cid])
    ensures NoneForgotten(s')
  {
    hide Expecting;
    forall c | c in s'.callers && Expecting(s'.callers[c])
      ensures Remembered(s', c)
    {
      assert Remembered(s, c);
    }
  }

  lemma SendDoneForgetsNobody(s: State, cid: nat, ok: bool)
    requires NoneForgotten(s)
    ensures NoneForgotten(Next(s, SendDone(cid, ok)))
  {
    hide NoneForgotten;
    if cid in s.callers && s.callers[cid].stage == Sending {
      OthersStayRemembered(s, Next(s, SendDone(cid, ok)), cid);
    }
  }

  lemma SelectForgetsNobody(s: State, cid: nat, choice: Choice)
    requires NoneForgotten(s)
    ensures NoneForgotten(Next(s, Select(cid, choice)))
  {
    hide NoneForgotten, Decode;
    if cid in s.callers && s.callers[cid].stage == Waiting {
      OthersStayRemembered(s, SelectStep(s, cid, choice), cid);
    }
  }

  lemma ReceiverForgetsNobody(s: State, a: Action)
    requires PendingOk(s) && NoneForgotten(s) && !a.Begin? && !a.SendDone? && !a.Select? && !a.Leave?
    ensures NoneForgotten(Next(s, a))
  {
  }

  lemma OthersForgetNobody(s: State, a: Action)
    requires Inv(s) && NoneForgotten(s) && !a.Leave?
    ensures NoneForgotten(Next(s, a))
  {
    hide CallersOk, ReceiverOk, NoneForgotten;
    if a.Begin? {
      BeginForgetsNobody(s, a.cid, a.key, a.op);
    } else if a.SendDone? {
      SendDoneForgetsNobody(s, a.cid, a.ok);
    } else if a.Select? {
      SelectForgetsNobody(s, a.cid, a.choice);
    } else {
      ReceiverForgetsNobody(s, a);
    }
  }

  lemma LeaveForgetsNobody(s: State, cid: nat)
    requires Inv(s) && NoneForgotten(s) && !EvictsOther(s, Leave(cid))
    ensures NoneForgotten(Next(s, Leave(cid)))
  {
    hide CallersOk, ReceiverOk;
  }

  lemma EvictionForgets(s: State, a: Action)
    requires Inv(s) && EvictsOther(s, a)
    ensures !NoneForgotten(Next(s, a))
  {
    hide CallersOk;
    var other := s.pending[s.callers[a.cid].key];
    var s' := Next(s, a);
    assert Expecting(s'.callers[other]) && !Remembered(s', other);
  }

  /** A step makes the transport forget an expecting call if and only if it is such an unregistration. */
  lemma ForgetsExactlyByEviction(s: State, a: Action)
    requires Inv(s) && NoneForgotten(s)
    ensures NoneForgotten(Next(s, a)) <==> !EvictsOther(s, a)
  {
    hide Inv, NoneForgotten, Next;
    if EvictsOther(s, a) {
      EvictionForgets(s, a);
    } else if a.Leave? {
      LeaveForgetsNobody(s, a.cid);
    } else {
      OthersForgetNobody(s, a);
    }
  }

  /** Overlapping calls with distinct keys never evict one another. */
  lemma {:induction false} ExclusiveKeysNeverForget(s: State, acts: seq<Action>)
    requires Inv(s) && NoneForgotten(s)
    requires forall n: nat :: n <= |acts| ==> KeysExclusive(Exec(s, acts[..n]))
    ensures NoneForgotten(Exec(s, acts))
    decreases |acts|
  {
    if acts != [] {
      var a, s' := acts[0], Next(s, acts[0]);
      assert Exec(s, acts[..0]) == s;
      assert KeysExclusive(s) && !EvictsOther(s, a) by {
        hide CallersOk, ReceiverOk, Next;
      }
      NextKeeps(s, a);
      ForgetsExactlyByEviction(s, a);
      hide Inv, Next, NoneForgotten, KeysExclusive;
      forall n: nat | n <= |acts[1..]|
        ensures KeysExclusive(Exec(s', acts[1..][..n]))
      {
        assert acts[..n + 1][1..] == acts[1..][..n];
        assert Exec(s, acts[..n + 1]) == Exec(s', acts[1..][..n]);
      }
      ExclusiveKeysNeverForget(s', acts[1..]);
    }
  }

  const REUSED := Key(1, 1)

  lemma FirstCallDelivered(r: Response) returns (s3: State)
    requires r == Response(1, 1, 6, [])
    ensures s3 == Next(Next(Next(INIT, Begin(0, REUSED, 6)), SendDone(0, true)), Inbound(r))
    ensures s3.pending == map[] && s3.receiver == Delivering(0, r) && !s3.recvErr
    ensures s3.callers == map[0 := Caller(Waiting, REUSED, 6, [])] && 0 in s3.sent
  {
    var s2 := Next(Next(INIT, Begin(0, REUSED, 6)), SendDone(0, true));
    assert s2.pending == map[REUSED := 0];
    s3 := Next(s2, Inbound(r));
    assert s3.pending == map[];
  }

  lemma FirstCallTakes(s3: State, r: Response)
    requires r == Response(1, 1, 6, [])
    requires s3.pending == map[] && s3.receiver == Delivering(0, r) && !s3.recvErr
    requires s3.callers == map[0 := Caller(Waiting, REUSED, 6, [])] && 0 in s3.sent
    ensures var s5 := Next(Next(s3, Push), Select(0, TakeResult));
      && s5.pending == map[] && s5.receiver == Receiving && !s5.recvErr
      && s5.callers == map[0 := Caller(Leaving(Success(r)), REUSED, 6, [])]
  {
    var s4 := Next(s3, Push);
    assert s3.callers[0].chan + [Got(r)] == [Got(r)];
    assert s4.callers == s3.callers[0 := Caller(Waiting, REUSED, 6, [Got(r)])];
    assert [Got(r)][1..] == [];
  }

  /** The first call has its answer and is about to return; its key is free again. */
  lemma FirstCallAnswered(r: Response) returns (s5: State)
    requires r == Response(1, 1, 6, [])
    ensures s5 == Next(Next(Next(Next(Next(INIT, Begin(0, REUSED, 6)), SendDone(0, true)), Inbound(r)), Push),
                       Select(0, TakeResult))
    ensures s5.pending == map[] && s5.receiver == Receiving && !s5.recvErr
    ensures s5.callers == map[0 := Caller(Leaving(Success(r)), REUSED, 6, [])]
  {
    var s3 := FirstCallDelivered(r);
    s5 := Next(Next(s3, Push), Select(0, TakeResult));
    FirstCallTakes(s3, r);
    hide Next;
  }

  lemma SecondCallForgotten(s5: State, r: Response)
    requires s5.pending == map[] && s5.receiver == Receiving && !s5.recvErr
    requires s5.callers == map[0 := Caller(Leaving(Success(r)), REUSED, 6, [])]
    ensures !NoneForgotten(Next(Next(Next(s5, Begin(1, REUSED, 6)), SendDone(1, true)), Leave(0)))
  {
    var s7 := Next(Next(s5, Begin(1, REUSED, 6)), SendDone(1, true));
    assert s7.pending == map[REUSED := 1] && s7.callers[1] == Caller(Waiting, REUSED, 6, []);
    var s8 := Next(s7, Leave(0));
    assert Expecting(s8.callers[1]) && !Remembered(s8, 1);
  }

  lemma TwoSteps(s: State, acts: seq<Action>)
    requires |acts| >= 2
    ensures Exec(s, acts) == Exec(Next(Next(s, acts[0]), acts[1]), acts[2..])
  {
    hide Next;
    assert acts[1..][1..] == acts[2..];
    assert Exec(s, acts) == Exec(Next(s, acts[0]), acts[1..]);
  }

  lemma FourSteps(s: State, acts: seq<Action>)
    requires |acts| >= 4
    ensures Exec(s, acts) == Exec(Next(Next(Next(Next(s, acts[0]), acts[1]), acts[2]), acts[3]), acts[4..])
  {
    hide Next;
    TwoSteps(s, acts);
    TwoSteps(Next(Next(s, acts[0]), acts[1]), acts[2..]);
    assert acts[2..][2..] == acts[4..];
  }

  lemma EightSteps(s: State, acts: seq<Action>, s8: State)
    requires |acts| == 8
    requires s8 == Next(Next(Next(Next(Next(Next(Next(Next(
                     s, acts[0]), acts[1]), acts[2]), acts[3]), acts[4]), acts[5]), acts[6]), acts[7])
    ensures Exec(s, acts) == s8
  {
    hide Next;
    var s4 := Next(Next(Next(Next(s, acts[0]), acts[1]), acts[2]), acts[3]);
    FourSteps(s, acts);
    FourSteps(s4, acts[4..]);
    assert acts[4..][4..] == [];
  }

  /** A second call that reuses the key between the first call's answer and its return is forgotten. */
  lemma ReusedKeyIsForgotten()
    ensures exists acts: seq<Action> :: !NoneForgotten(Exec(INIT, acts))
  {
    var r := Response(1, 1, 6, []);
    var acts := [Begin(0, REUSED, 6), SendDone(0, true), Inbound(r), Push, Select(0, TakeResult),
                 Begin(1, REUSED, 6), SendDone(1, true), Leave(0)];
    var s5 := FirstCallAnswered(r);
    SecondCallForgotten(s5, r);
    hide Next, NoneForgotten;
    EightSteps(INIT, acts, Next(Next(Next(s5, acts[5]), acts[6]), acts[7]));
  }

  // The pending table by itself: what the locked sections and channel sends of the machine do to it.

  datatype Table = Table(pending: map<Key, nat>, recvErr: bool, chans: map<nat, seq<Result>>)

  function TableOf(s: State): (t: Table) {
    Table(s.pending, s.recvErr, map c | c in s.callers :: s.callers[c].chan)
  }

  function Registered(t: Table, key: Key, cid: nat): (r: (Option<Outcome>, Table)) {
    var u := t.(chans := t.chans[cid := []]);
    if t.recvErr then (Some(NoReceiver), u)
    else if key in t.pending then (Some(Duplicate), u)
    else (None, u.(pending := t.pending[key := cid]))
  }

  function Unregistered(t: Table, key: Key): (u: Table) {
    t.(pending := t.pending - {key})
  }

  function SentAll(t: Table, to: set<nat>, res: Result): (u: Table) {
    t.(chans := map c | c in t.chans :: if c in to then t.chans[c] + [res] else t.chans[c])
  }

  function Completed(t: Table, key: Key, res: Result): (u: Table) {
    if key in t.pending then SentAll(Unregistered(t, key), {t.pending[key]}, res) else t
  }

  function Failed(t: Table): (u: Table) {
    if t.recvErr then t else SentAll(Table(map[], true, t.chans), t.pending.Values, ReceiverFailed)
  }

  /** Entering RoundTrip is registerPending: the caller goes on to send exactly if that succeeded. */
  lemma BeginIsRegister(s: State, cid: nat, key: Key, op: nat)
    requires cid !in s.callers
    ensures var s' := Next(s, Begin(cid, key, op));
      var (r, t) := Registered(TableOf(s), key, cid);
      && TableOf(s') == t
      && s'.callers[cid].stage == if r.None? then Sending else Returned(r.value)
  {
  }

  /** Leaving RoundTrip is unregisterPending of the caller's own key, whoever holds it by then. */
  lemma LeaveIsUnregister(s: State, cid: nat)
    requires cid in s.callers && s.callers[cid].stage.Leaving?
    ensures TableOf(Next(s, Leave(cid))) == Unregistered(TableOf(s), s.callers[cid].key)
  {
    assert TableOf(Next(s, Leave(cid))).chans == TableOf(s).chans;
  }

  /**
   A response taken in and pushed is completePending, in every reachable state without blocking; one
   with request id 0 is ignored.
  */
  lemma DeliveryIsComplete(acts: seq<Action>, r: Response)
    requires Exec(INIT, acts).receiver == Receiving
    ensures var s := Exec(INIT, acts);
      var s' := Next(Next(s, Inbound(r)), Push);
      && TableOf(s') == (if r.requestId == 0 then TableOf(s)
                         else Completed(TableOf(s), Key(r.peer, r.requestId), Got(r)))
      && s'.receiver == Receiving
  {
    var s := Exec(INIT, acts);
    ReachableInv(acts);
    hide Exec, CallersOk;
    var key := Key(r.peer, r.requestId);
    if r.requestId != 0 && key in s.pending {
      assert CanSend(s, s.pending[key]);
      assert TableOf(Next(Next(s, Inbound(r)), Push)).chans == Completed(TableOf(s), key, Got(r)).chans;
    }
  }

  function Pushes(order: seq<nat>): (acts: seq<Action>)
    ensures |acts| == |order| && forall i :: 0 <= i < |order| ==> acts[i] == PushFailure(order[i])
  {
    seq(|order|, i requires 0 <= i < |order| => PushFailure(order[i]))
  }

  function Members(order: seq<nat>): (r: set<nat>) {
    set c | c in order
  }

  lemma PushOne(s: State, cid: nat)
    requires s.receiver.Failing? && cid in s.receiver.todo && CanSend(s, cid)
    ensures var s' := Next(s, PushFailure(cid));
      && TableOf(s') == SentAll(TableOf(s), {cid}, ReceiverFailed)
      && s'.receiver == (if s.receiver.todo == {cid} then Stopped else Failing(s.receiver.todo - {cid}))
      && forall c :: c != cid && CanSend(s, c) ==> CanSend(s', c)
  {
  }

  lemma SentAllJoins(t: Table, cid: nat, rest: set<nat>)
    requires cid !in rest
    ensures SentAll(SentAll(t, {cid}, ReceiverFailed), rest, ReceiverFailed) == SentAll(t, {cid} + rest, ReceiverFailed)
  {
  }

  lemma FirstOf(order: seq<nat>)
    requires order != [] && forall i, j :: 0 <= i < j < |order| ==> order[i] != order[j]
    ensures var cid, rest := order[0], order[1..];
      && Pushes(order)[0] == PushFailure(cid) && Pushes(order)[1..] == Pushes(rest)
      && cid in Members(order) && cid !in Members(rest)
      && Members(order) == {cid} + Members(rest) && Members(order) - {cid} == Members(rest)
      && (Members(order) == {cid} <==> rest == [])
      && forall c :: c in rest ==> c != cid && c in order
  {
    var cid, rest := order[0], order[1..];
    assert order == [cid] + rest;
    assert rest != [] ==> rest[0] in Members(rest);
  }

  /** The pushes of failReceiver in any order. */
  lemma {:induction false} PushesSendAll(s: State, order: seq<nat>)
    requires forall i, j :: 0 <= i < j < |order| ==> order[i] != order[j]
    requires s.receiver == if order == [] then Stopped else Failing(Members(order))
    requires forall c :: c in order ==> CanSend(s, c)
    ensures TableOf(Exec(s, Pushes(order))) == SentAll(TableOf(s), Members(order), ReceiverFailed)
    ensures Exec(s, Pushes(order)).receiver == Stopped
    decreases |order|
  {
    if order == [] {
      assert Members(order) == {} && SentAll(TableOf(s), {}, ReceiverFailed).chans == TableOf(s).chans;
    } else {
      hide Next, CanSend, SentAll, TableOf, Members, Pushes;
      var cid, rest := order[0], order[1..];
      FirstOf(order);
      PushOne(s, cid);
      PushesSendAll(Next(s, PushFailure(cid)), rest);
      SentAllJoins(TableOf(s), cid, Members(rest));
    }
  }

  /** From every reachable state, failing and then pushing the error in any order is failReceiver. */
  lemma FailureIsFailReceiver(acts: seq<Action>, order: seq<nat>)
    requires Exec(INIT, acts).receiver == Receiving
    requires Members(order) == Exec(INIT, acts).pending.Values
    requires forall i, j :: 0 <= i < j < |order| ==> order[i] != order[j]
    ensures var s := Exec(INIT, acts);
      TableOf(Exec(Next(s, Fail), Pushes(order))) == Failed(TableOf(s))
  {
    var s := Exec(INIT, acts);
    ReachableInv(acts);
    hide CallersOk, Exec;
    var s' := Next(s, Fail);
    assert order != [] ==> order[0] in s.pending.Values;
    forall c | c in order
      ensures CanSend(s', c)
    {
      assert c in Members(order);
      var k :| k in s.pending && s.pending[k] == c;
    }
    PushesSendAll(s', order);
  }

  // The table as the transport keeps it.

  class PendingTable {
    var pending: map<Key, nat>
    var recvErr: bool
    var chans: map<nat, seq<Result>>

    ghost function View(): Table
      reads this
    {
      Table(pending, recvErr, chans)
    }

    /** Registered callers have empty channels of their own. */
    ghost predicate Valid()
      reads this
    {
      && (forall k :: k in pending ==> pending[k] in chans && chans[pending[k]] == [])
      && (forall k, k' :: k in pending && k' in pending && k != k' ==> pending[k] != pending[k'])
      && (recvErr ==> pending == map[])
    }

    constructor ()
      ensures Valid() && View() == TableOf(INIT)
    {
      pending, recvErr, chans := map[], false, map[];
    }

    /** registerPending with a channel just made for this call. */
    method Register(key: Key, cid: nat) returns (r: Option<Outcome>)
      requires Valid() && cid !in chans
      modifies this
      ensures Valid() && (r, View()) == Registered(old(View()), key, cid)
      ensures r.None? <==> !recvErr && key !in old(pending)
    {
      chans := chans[cid := []];
      if recvErr {
        return Some(NoReceiver);
      }
      if key in pending {
        return Some(Duplicate);
      }
      pending := pending[key := cid];
      return None;
    }

    method Unregister(key: Key)
      requires Valid()
      modifies this`pending
      ensures Valid() && View() == Unregistered(old(View()), key)
    {
      pending := pending - {key};
    }

    /** completePending: the entry leaves the table, then its channel gets the result. */
    method Complete(key: Key, res: Result) returns (ok: bool)
      requires Valid()
      modifies this`pending, this`chans
      ensures Valid() && View() == Completed(old(View()), key, res)
      ensures ok <==> key in old(pending)
      ensures ok ==> key !in pending && chans[old(pending)[key]] == [res]
    {
      ok := key in pending;
      if ok {
        var ch := pending[key];
        assert chans[ch] + [res] == [res];
        pending := pending - {key};
        chans := chans[ch := chans[ch] + [res]];
        assert chans == Completed(old(View()), key, res).chans;
      }
    }

    /** The unlocked loop of failReceiver. */
    method SendFailure(all: set<nat>)
      requires all <= chans.Keys && forall c :: c in all ==> chans[c] == []
      modifies this`chans
      ensures View() == SentAll(old(View()), all, ReceiverFailed)
      ensures forall c :: c in all ==> chans[c] == [ReceiverFailed]
    {
      var todo := all;
      while todo != {}
        invariant todo <= all && chans.Keys == old(chans.Keys)
        invariant forall c :: c in chans ==> chans[c] == if c in all - todo then [ReceiverFailed] else old(chans)[c]
        decreases |todo|
      {
        var ch :| ch in todo;
        chans := chans[ch := chans[ch] + [ReceiverFailed]];
        todo := todo - {ch};
      }
      assert forall c :: c in all ==> old(chans)[c] + [ReceiverFailed] == [ReceiverFailed];
      assert chans == SentAll(old(View()), all, ReceiverFailed).chans;
    }

    /** failReceiver: the table is emptied at once, then every channel that was in it gets the error. */
    method FailReceiver()
      requires Valid()
      modifies this
      ensures Valid() && recvErr && View() == Failed(old(View()))
      ensures !old(recvErr) ==> forall k :: k in old(pending) ==> chans[old(pending)[k]] == [ReceiverFailed]
    {
      if recvErr {
        return;
      }
      recvErr := true;
      var all := pending.Values;
      pending := map[];
      SendFailure(all);
      assert forall k :: k in old(pending) ==> old(pending)[k] in all;
    }
  }
}
