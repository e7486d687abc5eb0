/** Where the layers meet: what one of them produces is what the next one accepts. */
module Stack {
  import opened Basics
  import opened CText
  import Channel
  import D = ChannelDrain
  import O = ChannelOrder
  import S = ChannelSystem
  import I = RingInvariant
  import R = RingQueue
  import F = WireFormat
  import Q = WireRequest
  import A = WireResponse
  import W = WireRoundTrip
  import B = WireDecoding
  import LogSync
  import Metadata
  import PendingEnv

  lemma MagicBytes()
    ensures F.LE(4, F.MAGIC) == [0x4e, 0x43, 0x4b, 0x4d]
  {
    assert F.LE(4, F.MAGIC) == [0x4e] + F.LE(3, 0x4d4b43);
    assert F.LE(3, 0x4d4b43) == [0x43] + F.LE(2, 0x4d4b);
    assert F.LE(2, 0x4d4b) == [0x4b] + F.LE(1, 0x4d);
    assert F.LE(1, 0x4d) == [0x4d] + F.LE(0, 0);
  }

  lemma PackStarts(fs: seq<Str>)
    requires |fs| >= 3 && |fs[0]| == 4 && |fs[1]| == 1 && |fs[2]| == 1
    ensures |F.Pack(fs)| >= 6 && F.Pack(fs)[..4] == fs[0] && F.Pack(fs)[4] == fs[1][0] && F.Pack(fs)[5] == fs[2][0]
  {
    var t := fs[1..];
    var u := t[1..];
    assert F.Pack(u) == u[0] + F.Pack(u[1..]);
    assert F.Pack(t) == t[0] + F.Pack(u);
    assert F.Pack(fs) == fs[0] + F.Pack(t);
  }

  /** A control message carries the prefix the transport checks, on the container channel. */
  lemma MessageIsTransportable(h: F.Header, payload: Str)
    requires |payload| <= F.PAYLOAD && h.magic == F.MAGIC && h.version == 1 && h.channel == 1
    ensures Channel.ValidMessage(F.Message(h, payload))
    ensures Channel.ChannelOf(F.Message(h, payload)) == Channel.CONTAINER
  {
    var m := F.Message(h, payload);
    var fs := F.HeaderFields(h);
    MagicBytes();
    PackStarts(fs);
    assert m[..4] == F.Pack(fs)[..4] && m[4] == F.Pack(fs)[4] && m[5] == F.Pack(fs)[5];
  }

  lemma {:induction false} BytesOfNumber(b: Str)
    ensures F.LE(|b|, F.FromLE(b)) == b
    decreases |b|
  {
    if b != [] {
      BytesOfNumber(b[1..]);
      assert F.FromLE(b) % 256 == b[0] && F.FromLE(b) / 256 == F.FromLE(b[1..]);
    }
  }

  lemma MagicIff(b: Str)
    requires |b| == 4
    ensures F.FromLE(b) == F.MAGIC <==> b == [0x4e, 0x43, 0x4b, 0x4d]
  {
    MagicBytes();
    BytesOfNumber(b);
    F.Ranges();
    hide F.LE, F.FromLE, F.Range256;
    F.NumberReadBack(4, F.MAGIC);
  }

  lemma PrefixOffsets()
    ensures var ws := F.GuestHeaderWidths();
      && |ws| == 10 && ws[0] == 4 && ws[1] == 1 && ws[2] == 1
      && F.Sum(ws[..0]) == 0 && F.Sum(ws[..1]) == 4 && F.Sum(ws[..2]) == 5
  {
    var ws := F.GuestHeaderWidths();
    assert ws == [4, 1, 1, 1, 1, 2, 2, 8, 4, 4];
    assert ws[..0] == [] && ws[..1] == [4] && ws[..2] == [4, 1];
    assert [4, 1][1..] == [1] && [1][1..] == [];
    assert F.Sum([1]) == 1 && F.Sum([4, 1]) == 4 + F.Sum([1]);
  }

  lemma PrefixFields(m: Str)
    requires |m| == F.MESSAGE
    ensures var f := F.Split(F.GuestHeaderWidths(), m); f[0] == m[..4] && f[1] == m[4..5] && f[2] == m[5..6]
  {
    F.HeadersAgree();
    PrefixOffsets();
    hide F.Sum, F.Split, F.GuestHeaderWidths;
    var ws := F.GuestHeaderWidths();
    B.FieldAt(ws, m, 0);
    B.FieldAt(ws, m, 1);
    B.FieldAt(ws, m, 2);
  }

  /** On messages of the control size the transport's check of the prefix is a check of the header the guest reads. */
  lemma PrefixIsHeader(m: Str)
    requires |m| == F.MESSAGE
    ensures var h := F.GuestHeader(m);
      && Channel.ChannelOf(m) == h.channel
      && (Channel.ValidMessage(m) <==> h.magic == F.MAGIC && h.version == 1 && h.channel in [1, 3, 4])
  {
    PrefixFields(m);
    MagicIff(m[..4]);
    hide F.Split, F.FromLE;
  }

  /** Every request the host encodes passes the checks of mkct_send, the demultiplexer and the receive handler. */
  lemma RequestPassesChannel(h: Q.HostRequest, id: F.u64)
    requires Q.EncodeRequest(h, id).Some?
    ensures var m := Q.EncodeRequest(h, id).value;
      Channel.ValidMessage(m) && Channel.ChannelOf(m) == Channel.CONTAINER
  {
    var r := Q.Flattened(h);
    Q.FieldsFit(r);
    var fs := Q.Fields(r).value;
    Q.LayoutsAgree(Q.Op(r));
    F.FieldsReadBack(Q.HostWidths(Q.Op(r)), fs, []);
    hide Q.Fields, Q.Flattened, F.Message, Channel.ValidMessage, Q.HostSize, Q.HostWidths;
    MessageIsTransportable(F.Header(F.MAGIC, 1, 1, 2, Q.Op(r), id, 0, Q.HostSize(Q.Op(r))), F.Pack(fs));
  }

  /** A request and the id the host's transport gave it. */
  datatype Call = Call(h: Q.HostRequest, id: F.u64)

  ghost predicate Encodes(calls: seq<Call>, ms: seq<Str>) {
    |ms| == |calls| && forall i :: 0 <= i < |ms| ==> Q.EncodeRequest(calls[i].h, calls[i].id) == Some(ms[i])
  }

  /** What the guest makes of a message is the call it was encoded from, with every string as its field carries it. */
  ghost predicate DecodesTo(m: Str, c: Call) {
    Q.DecodeRequest(m) == Some((c.id, Q.Delivered(Q.Flattened(c.h))))
  }

  lemma EncodedDecodes(calls: seq<Call>, ms: seq<Str>, i: nat)
    requires Encodes(calls, ms) && i < |ms|
    ensures |calls| == |ms| && DecodesTo(ms[i], calls[i])
  {
    W.RequestRoundTrip(calls[i].h, calls[i].id);
  }

  /**
   In every run in which `src` sends only encoded requests to `dst` on the container channel, what
   mkct_recv returns there decodes to requests that were sent, in the order they were sent in and
   none of them twice.
  */
  lemma RequestsArriveInOrder(kernels: nat, c: R.Config, acts: seq<S.Action>, src: nat, dst: nat, calls: seq<Call>)
      returns (at: seq<nat>)
    requires R.ValidConfig(c) && I.Divides(c) && src < kernels && dst < kernels && src != dst
    requires Encodes(calls, O.Submitted(acts, src, dst, Channel.CONTAINER))
    ensures var got := S.FromPeer(S.Exec(kernels, c, acts).ends[dst].got[Channel.CONTAINER], src);
      && |at| == |got|
      && (forall j :: 0 <= j < |got| ==> at[j] < |calls| && DecodesTo(got[j], calls[at[j]]))
      && (forall i, j :: 0 <= i < j < |at| ==> at[i] < at[j])
  {
    hide S.Exec, S.Sound, I.Divides, S.FromPeer, O.Submitted, Encodes, DecodesTo;
    at := O.ReturnedWereSubmitted(kernels, c, acts, src, dst, Channel.CONTAINER);
    var sent := O.Submitted(acts, src, dst, Channel.CONTAINER);
    forall k: nat | k < |sent|
      ensures k < |calls| && DecodesTo(sent[k], calls[k])
    {
      EncodedDecodes(calls, sent, k);
    }
  }

  /**
   And from every reachable state without failed allocations the receiver alone can make mkct_recv
   return every request the ring accepted, decoded, in order, none missing.
  */
  lemma AllRequestsArrive(kernels: nat, c: R.Config, acts: seq<S.Action>, src: nat, dst: nat, calls: seq<Call>)
      returns (more: seq<S.Action>)
    requires R.ValidConfig(c) && I.Divides(c) && src < kernels && dst < kernels && src != dst
    requires var s := S.Exec(kernels, c, acts);
      && Encodes(calls, S.OnChannel(s.rings[(src, dst)].h.accepted, Channel.CONTAINER))
      && false !in s.rings[(src, dst)].h.kept && false !in s.nodes[(src, dst)]
    ensures forall a :: a in more ==> !a.Submit?
    ensures var got := S.FromPeer(S.Exec(kernels, c, acts + more).ends[dst].got[Channel.CONTAINER], src);
      |got| == |calls| && forall j :: 0 <= j < |got| ==> DecodesTo(got[j], calls[j])
  {
    var accepted := S.OnChannel(S.Exec(kernels, c, acts).rings[(src, dst)].h.accepted, Channel.CONTAINER);
    assert |accepted| == |calls|;
    hide S.Exec, S.Sound, I.Divides, S.FromPeer, S.OnChannel, Encodes, DecodesTo;
    more := D.EverythingArrives(kernels, c, acts, src, dst, Channel.CONTAINER);
    var got := S.FromPeer(S.Exec(kernels, c, acts + more).ends[dst].got[Channel.CONTAINER], src);
    forall j | 0 <= j < |got|
      ensures DecodesTo(got[j], calls[j])
    {
      EncodedDecodes(calls, got, j);
    }
  }

  lemma FramedIsTransportable(op: byte, id: F.u64, status: F.i32, ws: seq<nat>, fs: seq<Str>)
    requires F.Fits(ws, fs) && F.Sum(ws) <= F.PAYLOAD
    ensures var m := A.Framed(op, id, status, ws, fs);
      Channel.ValidMessage(m) && Channel.ChannelOf(m) == Channel.CONTAINER
  {
    F.FieldsReadBack(ws, fs, []);
    hide F.Message, Channel.ValidMessage;
    MessageIsTransportable(F.Header(F.MAGIC, 1, 1, 3, op, id, status, F.Sum(ws)), F.Pack(fs));
  }

  /** And so does every response of the guest. */
  lemma ResponsePassesChannel(r: A.Response)
    requires A.EncodeResponse(r).Some?
    ensures var m := A.EncodeResponse(r).value;
      Channel.ValidMessage(m) && Channel.ChannelOf(m) == Channel.CONTAINER
  {
    A.LayoutsAgree(r.op);
    hide A.Framed, Channel.ValidMessage, A.Fields, A.ErrorFields, A.GuestWidths, F.Sum;
    if r.error.Some? {
      FramedIsTransportable(r.op, r.id, 0 - A.Errno(r.error.value.code), [4, 128], A.ErrorFields(r.error.value));
    } else {
      FramedIsTransportable(r.op, r.id, 0, A.GuestWidths(r.op), A.Fields(r.op, r.result));
    }
  }

  /** The response the guest builds from what its log reader returned: the data in a zeroed 384-byte array. */
  function LogResponse(id: F.u64, c: LogSync.Chunk, rest: A.Union): (r: A.Response)
    requires c.next < 0x1_0000_0000_0000_0000 && |c.data| <= A.CHUNK
  {
    var data: A.Chunk := c.data + Zeros(A.CHUNK - |c.data|);
    A.Response(6, id, None, rest.(log := A.LogResult(c.next, |c.data|, c.eof, data)))
  }

  lemma LogDelivered(id: F.u64, c: LogSync.Chunk, rest: A.Union)
    requires c.next < 0x1_0000_0000_0000_0000 && |c.data| <= A.CHUNK
    ensures var r := LogResponse(id, c, rest);
      r.op == 6 && r.id == id && r.error.None? && A.Delivered(6, r.result) == Some(A.Log(c.next, c.eof, c.data))
  {
    var data := LogResponse(id, c, rest).result.log.data;
    assert data[..|c.data|] == c.data;
  }

  /** Whatever the guest's reader returns reaches the host's loop as it is: the length check never refuses it. */
  lemma LogChunkArrives(o: LogSync.Observation, offset: nat, maxBytes: nat, id: F.u64, rest: A.Union)
    requires LogSync.ReadLog(o, offset, maxBytes).next < 0x1_0000_0000_0000_0000 && id != 0
    ensures var c := LogSync.ReadLog(o, offset, maxBytes);
      var m := A.EncodeResponse(LogResponse(id, c, rest));
      m.Some? && A.DecodeResponse(6, id, m.value) == Some(A.Log(c.next, c.eof, c.data))
  {
    hide LogSync.ReadLog, A.EncodeResponse, A.DecodeResponse, LogResponse;
    var c := LogSync.ReadLog(o, offset, maxBytes);
    LogDelivered(id, c, rest);
    A.ResponseRoundTrip(LogResponse(id, c, rest));
    hide A.Delivered;
  }

  lemma {:induction false} SelectedFits(t: PendingEnv.Table, pod: Str, name: Str)
    requires forall e :: e in t ==> PendingEnv.Holdable(e)
    ensures forall v :: v in PendingEnv.Selected(t, pod, name) ==> |v.key| < Metadata.KEY && |v.value| < Metadata.VALUE
    decreases |t|
  {
    if t != [] {
      var i := |t| - 1;
      assert t[i] in t;
      SelectedFits(t[..i], pod, name);
    }
  }

  /**
   In every run of configure_env and create, the environment a container is created with is the one
   read back from its metadata file when it is started, exactly if no value holds a newline and none
   that fills its line buffer is followed by what the spilled line would displace.
  */
  lemma ConfiguredEnvSurvives(calls: seq<PendingEnv.Call>, pod: Str, name: Str, image: Str, argv: seq<Str>)
    requires PendingEnv.AllHoldable(calls)
    requires forall v :: v in PendingEnv.Selected(PendingEnv.Run(calls), pod, name) ==> 0 !in v.key && 0 !in v.value
    requires Metadata.Holdable(Metadata.Meta(image, argv, []))
    ensures var applied := PendingEnv.Apply(PendingEnv.Run(calls), pod, name);
      var m := Metadata.Meta(image, argv, applied.env);
      && applied.ok
      && applied.env == PendingEnv.Selected(PendingEnv.Run(calls), pod, name)
      && (Metadata.Read(Metadata.Written(m)) == Some(m) <==> Metadata.OneLine(m) && Metadata.KeepsStep(m))
  {
    var t := PendingEnv.Run(calls);
    PendingEnv.CreateAlwaysApplies(calls, pod, name);
    PendingEnv.LatestWins(calls, PendingEnv.Key(pod, name, []));
    SelectedFits(t, pod, name);
    hide Metadata.Read, Metadata.Written, Metadata.OneLine, Metadata.KeepsStep, PendingEnv.Run;
    Metadata.RoundTripIff(Metadata.Meta(image, argv, PendingEnv.Selected(t, pod, name)));
  }
}
