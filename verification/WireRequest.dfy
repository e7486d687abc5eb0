/** Requests on the control channel: the host's encoder (Go) and the guest's decoder (C). */
module WireRequest {
  import opened Basics
  import opened CText
  import opened WireFormat

  const MAX_ARGV := 4
  const ARG := 64
  const MAX_ENDPOINTS := 16
  const MAX_PORTS := 32

  datatype Endpoint = Endpoint(ip: Str, peer: u16)

  /** A request as the guest holds it. */
  datatype Request =
    | Create(kernel: Str, pod: Str, name: Str, image: Str, logPath: Str, argv: seq<Str>)
    | Start(kernel: Str, container: Str, timeout: i64)
    | Stop(kernel: Str, container: Str, timeout: i64)
    | Remove(kernel: Str, container: Str, timeout: i64)
    | Status(kernel: Str, container: Str, timeout: i64)
    | ReadLog(kernel: Str, container: Str, offset: u64, maxBytes: u32)
    | ExecPrepare(kernel: Str, container: Str, argv: seq<Str>, tty: byte, stdin: byte, stdout: byte, stderr: byte)
    | ExecStart(kernel: Str, session: Str)
    | ExecResize(kernel: Str, session: Str, width: u32, height: u32)
    | ExecClose(kernel: Str, session: Str)
    | Network(kernel: Str, pod: Str, podIP: Str, podCIDR: Str, mode: Str, endpoints: seq<Endpoint>, ports: seq<u16>)
    | Env(kernel: Str, pod: Str, name: Str, key: Str, value: Str)

  /** A request as the host's callers build it; all but two operations carry their payload as it is. */
  datatype HostRequest =
    | CreateContainer(kernel: Str, pod: Str, name: Str, image: Str, logPath: Str, command: seq<Str>, args: seq<Str>)
    | PrepareExec(kernel: Str, container: Str, command: seq<Str>, tty: bool, stdin: bool, stdout: bool, stderr: bool)
    | Other(request: Request)

  function BoolToU8(b: bool): (r: byte) {
    if b then 1 else 0
  }

  /** flattenArgv and boolToU8. */
  function Flattened(h: HostRequest): (r: Request) {
    match h
    case CreateContainer(k, p, n, i, l, command, args) => Create(k, p, n, i, l, command + args)
    case PrepareExec(k, c, command, tty, stdin, stdout, stderr) =>
      ExecPrepare(k, c, command, BoolToU8(tty), BoolToU8(stdin), BoolToU8(stdout), BoolToU8(stderr))
    case Other(r) => r
  }

  /** operationToUAPI. */
  function Op(r: Request): (op: byte)
    ensures 1 <= op <= 12
  {
    match r
    case Create(_, _, _, _, _, _) => 1
    case Start(_, _, _) => 2
    case Stop(_, _, _) => 3
    case Remove(_, _, _) => 4
    case Status(_, _, _) => 5
    case ReadLog(_, _, _, _) => 6
    case ExecPrepare(_, _, _, _, _, _, _) => 7
    case ExecStart(_, _) => 8
    case ExecResize(_, _, _, _) => 9
    case ExecClose(_, _) => 10
    case Network(_, _, _, _, _, _, _) => 11
    case Env(_, _, _, _, _) => 12
  }

  /** The request structs as the host (Go) declares them. */
  function HostWidths(op: nat): (ws: seq<nat>) {
    if op == 1 then [64, 64, 64, 256, 256, 4, 4, 256]
    else if 2 <= op <= 5 then [64, 64, 8]
    else if op == 6 then [64, 64, 8, 4]
    else if op == 7 then [64, 64, 4, 1, 1, 1, 1, 256]
    else if op == 8 || op == 10 then [64, 64]
    else if op == 9 then [64, 64, 4, 4]
    else if op == 11 then [64, 64, 16, 24, 16, 4, 4, 320, 64]
    else [64, 64, 64, 64, 256]
  }

  /** The sizes the host writes into payload_len. */
  function HostSize(op: nat): (n: nat)
    ensures n <= PAYLOAD
  {
    if op == 1 then 968
    else if 2 <= op <= 5 then 136
    else if op == 6 then 140
    else if op == 7 then 392
    else if op == 8 || op == 10 then 128
    else if op == 9 then 136
    else if op == 11 then 576
    else 512
  }

  // The C header's field sizes.
  const MAX_ID := 64
  const MAX_NAME := 64
  const MAX_IMAGE := 256
  const MAX_LOG_PATH := 256
  const MAX_IP := 16
  const MAX_CIDR := 24
  const MAX_MODE := 16
  const MAX_ENV_KEY := 64
  const MAX_ENV_VALUE := 256

  /** The packed request structs as the guest (C) declares them. */
  function GuestWidths(op: nat): (ws: seq<nat>) {
    match op
    case 1 => [MAX_ID, MAX_ID, MAX_NAME, MAX_IMAGE, MAX_LOG_PATH, 4, 4, MAX_ARGV * ARG]
    case 2 => [MAX_ID, MAX_ID, 8]
    case 3 => [MAX_ID, MAX_ID, 8]
    case 4 => [MAX_ID, MAX_ID, 8]
    case 5 => [MAX_ID, MAX_ID, 8]
    case 6 => [MAX_ID, MAX_ID, 8, 4]
    case 7 => [MAX_ID, MAX_ID, 4, 1, 1, 1, 1, MAX_ARGV * ARG]
    case 8 => [MAX_ID, MAX_ID]
    case 9 => [MAX_ID, MAX_ID, 4, 4]
    case 10 => [MAX_ID, MAX_ID]
    case 11 => [MAX_ID, MAX_ID, MAX_IP, MAX_CIDR, MAX_MODE, 4, 4, MAX_ENDPOINTS * (MAX_IP + 2 + 2), MAX_PORTS * 2]
    case _ => [MAX_ID, MAX_ID, MAX_NAME, MAX_ENV_KEY, MAX_ENV_VALUE]
  }

  /** sizeof, which the guest compares payload_len with. */
  function GuestSize(op: nat): (n: nat) {
    Sum(GuestWidths(op))
  }

  lemma LongSums()
    ensures Sum([64, 64, 64, 256, 256, 4, 4, 256]) == 968
    ensures Sum([64, 64, 4, 1, 1, 1, 1, 256]) == 392
  {
  }

  lemma NetworkSum()
    ensures Sum([64, 64, 16, 24, 16, 4, 4, 320, 64]) == 576
  {
  }

  lemma ShortSums()
    ensures Sum([64, 64, 64, 64, 256]) == 512
    ensures Sum([64, 64, 8]) == 136 && Sum([64, 64, 8, 4]) == 140 && Sum([64, 64]) == 128 && Sum([64, 64, 4, 4]) == 136
  {
  }

  /** Both sides declare the same structs, and the host's size constants are the C structs' sizes. */
  lemma LayoutsAgree(op: nat)
    ensures HostWidths(op) == GuestWidths(op) && HostSize(op) == GuestSize(op) == Sum(HostWidths(op))
  {
    hide Sum;
    LongSums();
    NetworkSum();
    ShortSums();
  }

  // The host's side.

  function CStrings(w: nat, ss: seq<Str>): (r: Option<seq<Str>>)
    ensures r.Some? <==> forall s :: s in ss ==> |s| <= w
    ensures r.Some? ==> |r.value| == |ss| && forall i :: 0 <= i < |ss| ==> CString(w, ss[i]) == Some(r.value[i])
  {
    if ss == [] then Some([])
    else
      var head :- CString(w, ss[0]);
      var tail :- CStrings(w, ss[1..]);
      assert forall s :: s in ss ==> s == ss[0] || s in ss[1..];
      Some([head] + tail)
  }

  lemma {:induction false} BlockIsPack(n: nat, w: nat, fs: seq<Str>)
    requires |fs| <= n
    ensures Block(n, w, fs) == Pack(fs) + Zeros((n - |fs|) * w)
    decreases n
  {
    if fs != [] {
      BlockIsPack(n - 1, w, fs[1..]);
    }
  }

  lemma {:induction false} PackAppend(fs: seq<Str>, f: Str)
    ensures Pack(fs + [f]) == Pack(fs) + f
    decreases |fs|
  {
    if fs == [] {
      assert [f][1..] == [];
    } else {
      PackAppend(fs[1..], f);
      assert (fs + [f])[1..] == fs[1..] + [f];
    }
  }

  /** One field behind those already packed, in a buffer that is still zero there. */
  method AppendArg(block: array<byte>, at: nat, arg: Str, ghost fs: seq<Str>) returns (ok: bool)
    requires at + ARG <= block.Length && block[..at] == Pack(fs) && block[at..] == Zeros(block.Length - at)
    modifies block
    ensures ok <==> CString(ARG, arg).Some?
    ensures ok ==> block[..at + ARG] == Pack(fs + [CString(ARG, arg).value])
    ensures ok ==> block[at + ARG..] == Zeros(block.Length - at - ARG)
  {
    assert forall k :: at <= k < at + ARG ==> block[k] == block[at..][k - at];
    assert block[at + ARG..] == block[at..][ARG..];
    hide Pack, CString;
    ok := CopyCString(block, at, ARG, arg);
    if ok {
      PackAppend(fs, block[at..at + ARG]);
      assert block[..at + ARG] == block[..at] + block[at..at + ARG];
    }
  }

  lemma FieldsOf(argv: seq<Str>, fs: seq<Str>)
    requires |argv| <= MAX_ARGV && |fs| == |argv|
    requires forall k :: 0 <= k < |argv| ==> CString(ARG, argv[k]) == Some(fs[k])
    ensures CStrings(ARG, argv) == Some(fs) && Block(MAX_ARGV, ARG, fs) == Pack(fs) + Zeros(256 - 64 * |argv|)
  {
    BlockIsPack(MAX_ARGV, ARG, fs);
    forall s | s in argv
      ensures |s| <= ARG
    {
      var k :| 0 <= k < |argv| && argv[k] == s;
    }
    assert fs == CStrings(ARG, argv).value;
  }

  /** The loop that fills the argv array of a request, one field of 64 bytes after the other. */
  method EncodeArgv(argv: seq<Str>) returns (ok: bool, block: array<byte>)
    requires |argv| <= MAX_ARGV
    ensures ok <==> forall s :: s in argv ==> |s| <= ARG
    ensures ok ==> block[..] == Block(MAX_ARGV, ARG, CStrings(ARG, argv).value)
  {
    block := new byte[MAX_ARGV * ARG](i => 0);
    var at := 0;
    ghost var fs: seq<Str> := [];
    assert Pack(fs) == [];
    hide Pack, Block, CStrings, CString, Zeros;
    for i := 0 to |argv|
      invariant at == 64 * i
      invariant |fs| == i && forall k :: 0 <= k < i ==> CString(ARG, argv[k]) == Some(fs[k])
      invariant block[..at] == Pack(fs) && block[at..] == Zeros(256 - at)
    {
      ok := AppendArg(block, at, argv[i], fs);
      if !ok {
        assert argv[i] in argv;
        return;
      }
      fs := fs + [CString(ARG, argv[i]).value];
      at := at + ARG;
    }
    ok := true;
    FieldsOf(argv, fs);
    assert block[..] == block[..at] + block[at..];
  }

  function EndpointField(e: Endpoint): (r: Option<Str>)
    ensures r.Some? <==> |e.ip| <= 16
    ensures r.Some? ==> |r.value| == 20
  {
    var ip :- CString(16, e.ip);
    Some(ip + LE(2, e.peer) + LE(2, 0))
  }

  function EndpointFields(es: seq<Endpoint>): (r: Option<seq<Str>>)
    ensures r.Some? <==> forall e :: e in es ==> |e.ip| <= 16
    ensures r.Some? ==> |r.value| == |es| && forall i :: 0 <= i < |es| ==> EndpointField(es[i]) == Some(r.value[i])
  {
    if es == [] then Some([])
    else
      var head :- EndpointField(es[0]);
      var tail :- EndpointFields(es[1..]);
      assert forall e :: e in es ==> e == es[0] || e in es[1..];
      Some([head] + tail)
  }

  function PortFields(ports: seq<u16>): (r: seq<Str>)
    ensures |r| == |ports| && forall f :: f in r ==> |f| == 2
  {
    seq(|ports|, i requires 0 <= i < |ports| => LE(2, ports[i]))
  }

  function CreateFields(r: Request): (fs: Option<seq<Str>>)
    requires r.Create?
  {
    if |r.argv| > MAX_ARGV then None
    else
      var kernel :- CString(64, r.kernel);
      var pod :- CString(64, r.pod);
      var name :- CString(64, r.name);
      var image :- CString(256, r.image);
      var logPath :- CString(256, r.logPath);
      var argv :- CStrings(ARG, r.argv);
      Some([kernel, pod, name, image, logPath, LE(4, |r.argv|), LE(4, 0), Block(MAX_ARGV, ARG, argv)])
  }

  function ControlFields(k: Str, c: Str, timeout: i64): (fs: Option<seq<Str>>) {
    var kernel :- CString(64, k);
    var container :- CString(64, c);
    Some([kernel, container, LE(8, Unsigned(8, timeout))])
  }

  function ExecPrepareFields(r: Request): (fs: Option<seq<Str>>)
    requires r.ExecPrepare?
  {
    if |r.argv| > MAX_ARGV then None
    else
      var kernel :- CString(64, r.kernel);
      var container :- CString(64, r.container);
      var argv :- CStrings(ARG, r.argv);
      Some([kernel, container, LE(4, |r.argv|), [r.tty], [r.stdin], [r.stdout], [r.stderr],
            Block(MAX_ARGV, ARG, argv)])
  }

  function NetworkFields(r: Request): (fs: Option<seq<Str>>)
    requires r.Network?
  {
    if |r.endpoints| > MAX_ENDPOINTS || |r.ports| > MAX_PORTS then None
    else
      var kernel :- CString(64, r.kernel);
      var pod :- CString(64, r.pod);
      var podIP :- CString(16, r.podIP);
      var podCIDR :- CString(24, r.podCIDR);
      var mode :- CString(16, r.mode);
      var endpoints :- EndpointFields(r.endpoints);
      Some([kernel, pod, podIP, podCIDR, mode, LE(4, |r.endpoints|), LE(4, |r.ports|),
            Block(MAX_ENDPOINTS, 20, endpoints), Block(MAX_PORTS, 2, PortFields(r.ports))])
  }

  function SessionFields(k: Str, s: Str, tail: seq<Str>): (fs: Option<seq<Str>>) {
    var kernel :- CString(64, k);
    var session :- CString(64, s);
    Some([kernel, session] + tail)
  }

  function Fields(r: Request): (fs: Option<seq<Str>>) {
    match r
    case Create(_, _, _, _, _, _) => CreateFields(r)
    case Start(k, c, t) => ControlFields(k, c, t)
    case Stop(k, c, t) => ControlFields(k, c, t)
    case Remove(k, c, t) => ControlFields(k, c, t)
    case Status(k, c, t) => ControlFields(k, c, t)
    case ReadLog(k, c, offset, maxBytes) => SessionFields(k, c, [LE(8, offset), LE(4, maxBytes)])
    case ExecPrepare(_, _, _, _, _, _, _) => ExecPrepareFields(r)
    case ExecStart(k, s) => SessionFields(k, s, [])
    case ExecResize(k, s, w, h) => SessionFields(k, s, [LE(4, w), LE(4, h)])
    case ExecClose(k, s) => SessionFields(k, s, [])
    case Network(_, _, _, _, _, _, _) => NetworkFields(r)
    case Env(k, p, n, key, value) =>
      var kernel :- CString(64, k);
      var pod :- CString(64, p);
      var name :- CString(64, n);
      var keyField :- CString(64, key);
      var valueField :- CString(256, value);
      Some([kernel, pod, name, keyField, valueField])
  }

  function Framed(op: byte, id: u64, fs: seq<Str>): (m: Str)
    requires 1 <= op <= 12 && Fits(HostWidths(op), fs)
    ensures |m| == MESSAGE
  {
    LayoutsAgree(op);
    FieldsReadBack(HostWidths(op), fs, []);
    Message(Header(MAGIC, 1, 1, 2, op, id, 0, HostSize(op)), Pack(fs))
  }

  lemma CreateFit(r: Request)
    requires r.Create? && CreateFields(r).Some?
    ensures Fits(HostWidths(1), CreateFields(r).value)
  {
    hide LE, Zeros, CString, CStrings, Block;
    var argv := CStrings(ARG, r.argv).value;
    assert forall f :: f in argv ==> |f| == ARG;
    BlockLength(MAX_ARGV, ARG, argv);
  }

  lemma ExecPrepareFit(r: Request)
    requires r.ExecPrepare? && ExecPrepareFields(r).Some?
    ensures Fits(HostWidths(7), ExecPrepareFields(r).value)
  {
    hide LE, Zeros, CString, CStrings, Block;
    var argv := CStrings(ARG, r.argv).value;
    assert forall f :: f in argv ==> |f| == ARG;
    BlockLength(MAX_ARGV, ARG, argv);
  }

  lemma NetworkFit(r: Request)
    requires r.Network? && NetworkFields(r).Some?
    ensures Fits(HostWidths(11), NetworkFields(r).value)
  {
    hide LE, Zeros, CString, EndpointFields, EndpointField, PortFields, Block;
    var es := EndpointFields(r.endpoints).value;
    assert forall f :: f in es ==> |f| == 20;
    BlockLength(MAX_ENDPOINTS, 20, es);
    BlockLength(MAX_PORTS, 2, PortFields(r.ports));
  }

  lemma FieldsFit(r: Request)
    requires Fields(r).Some?
    ensures Fits(HostWidths(Op(r)), Fields(r).value)
  {
    hide LE, CString, Block, CreateFields, ExecPrepareFields, NetworkFields;
    if r.Create? {
      CreateFit(r);
    } else if r.ExecPrepare? {
      ExecPrepareFit(r);
    } else if r.Network? {
      NetworkFit(r);
    }
  }

  /** encodeRequestMessage with the request id filled in: 996 bytes, or an error. */
  function EncodeRequest(h: HostRequest, id: u64): (m: Option<Str>)
    ensures m.Some? ==> |m.value| == MESSAGE
  {
    var r := Flattened(h);
    var fs :- Fields(r);
    FieldsFit(r);
    Some(Framed(Op(r), id, fs))
  }

  // The guest's side.

  function ReadStrings(count: nat, w: nat, b: Str): (r: seq<Str>)
    requires w > 0
    ensures |r| == count
  {
    seq(count, i requires 0 <= i < count => Arrives(w, Elements(count, w, b)[i]))
  }

  function ReadEndpoint(b: Str): (e: Endpoint) {
    if |b| >= 18 then Endpoint(Arrives(16, b[..16]), U16(b[16..18])) else Endpoint([], 0)
  }

  function ReadEndpoints(count: nat, b: Str): (r: seq<Endpoint>)
    ensures |r| == count
  {
    seq(count, i requires 0 <= i < count => ReadEndpoint(Elements(count, 20, b)[i]))
  }

  function ReadPorts(count: nat, b: Str): (r: seq<u16>)
    ensures |r| == count
  {
    seq(count, i requires 0 <= i < count =>
      var e := Elements(count, 2, b)[i]; if |e| == 2 then U16(e) else 0)
  }

  function ReadCreate(f: seq<Str>): (r: Option<Request>)
    requires Fits(GuestWidths(1), f)
  {
    if U32(f[5]) > MAX_ARGV then None
    else Some(Create(Arrives(64, f[0]), Arrives(64, f[1]), Arrives(64, f[2]), Arrives(256, f[3]), Arrives(256, f[4]),
                     ReadStrings(U32(f[5]), ARG, f[7])))
  }

  function ReadExecPrepare(f: seq<Str>): (r: Option<Request>)
    requires Fits(GuestWidths(7), f)
  {
    if U32(f[2]) > MAX_ARGV then None
    else Some(ExecPrepare(Arrives(64, f[0]), Arrives(64, f[1]), ReadStrings(U32(f[2]), ARG, f[7]),
                          f[3][0], f[4][0], f[5][0], f[6][0]))
  }

  function ReadNetwork(f: seq<Str>): (r: Option<Request>)
    requires Fits(GuestWidths(11), f)
  {
    if U32(f[5]) > MAX_ENDPOINTS || U32(f[6]) > MAX_PORTS then None
    else Some(Network(Arrives(64, f[0]), Arrives(64, f[1]), Arrives(16, f[2]), Arrives(24, f[3]), Arrives(16, f[4]),
                      ReadEndpoints(U32(f[5]), f[7]), ReadPorts(U32(f[6]), f[8])))
  }

  function ReadFields(op: nat, f: seq<Str>): (r: Option<Request>)
    requires 1 <= op <= 12 && Fits(GuestWidths(op), f)
  {
    if op == 1 then ReadCreate(f)
    else if op == 2 then Some(Start(Arrives(64, f[0]), Arrives(64, f[1]), I64(f[2])))
    else if op == 3 then Some(Stop(Arrives(64, f[0]), Arrives(64, f[1]), I64(f[2])))
    else if op == 4 then Some(Remove(Arrives(64, f[0]), Arrives(64, f[1]), I64(f[2])))
    else if op == 5 then Some(Status(Arrives(64, f[0]), Arrives(64, f[1]), I64(f[2])))
    else if op == 6 then Some(ReadLog(Arrives(64, f[0]), Arrives(64, f[1]), U64(f[2]), U32(f[3])))
    else if op == 7 then ReadExecPrepare(f)
    else if op == 8 then Some(ExecStart(Arrives(64, f[0]), Arrives(64, f[1])))
    else if op == 9 then Some(ExecResize(Arrives(64, f[0]), Arrives(64, f[1]), U32(f[2]), U32(f[3])))
    else if op == 10 then Some(ExecClose(Arrives(64, f[0]), Arrives(64, f[1])))
    else if op == 11 then ReadNetwork(f)
    else Some(Env(Arrives(64, f[0]), Arrives(64, f[1]), Arrives(64, f[2]), Arrives(64, f[3]), Arrives(256, f[4])))
  }

  /** mkga_decode_request_message: the request id and the request, or -EINVAL. */
  function DecodeRequest(m: Str): (r: Option<(u64, Request)>) {
    if |m| != MESSAGE then None
    else
      var h := GuestHeader(m);
      if h.magic != MAGIC || h.version != 1 || h.channel == 0 || h.payloadLen > PAYLOAD then None
      else if h.channel != 1 || h.kind != 2 then None
      else if !(1 <= h.op <= 12) || h.payloadLen != GuestSize(h.op) then None
      else
        LayoutsAgree(h.op);
        SplitFits(GuestWidths(h.op), m[28..]);
        var r :- ReadFields(h.op, Split(GuestWidths(h.op), m[28..]));
        Some((h.id, r))
  }

  // What arrives.

  function Strings(w: nat, ss: seq<Str>): (r: seq<(nat, Str)>)
    ensures |r| == |ss| && forall i :: 0 <= i < |ss| ==> r[i] == (w, ss[i])
  {
    seq(|ss|, i requires 0 <= i < |ss| => (w, ss[i]))
  }

  function Ips(es: seq<Endpoint>): (r: seq<(nat, Str)>)
    ensures |r| == |es| && forall i :: 0 <= i < |es| ==> r[i] == (16, es[i].ip)
  {
    seq(|es|, i requires 0 <= i < |es| => (16, es[i].ip))
  }

  /** Every string of a request with the width of its field. */
  function AllStrings(r: Request): (ss: seq<(nat, Str)>)
  {
    match r
    case Create(k, p, n, i, l, argv) => [(64, k), (64, p), (64, n), (256, i), (256, l)] + Strings(ARG, argv)
    case Start(k, c, _) => [(64, k), (64, c)]
    case Stop(k, c, _) => [(64, k), (64, c)]
    case Remove(k, c, _) => [(64, k), (64, c)]
    case Status(k, c, _) => [(64, k), (64, c)]
    case ReadLog(k, c, _, _) => [(64, k), (64, c)]
    case ExecPrepare(k, c, argv, _, _, _, _) => [(64, k), (64, c)] + Strings(ARG, argv)
    case ExecStart(k, s) => [(64, k), (64, s)]
    case ExecResize(k, s, _, _) => [(64, k), (64, s)]
    case ExecClose(k, s) => [(64, k), (64, s)]
    case Network(k, p, ip, cidr, mode, es, _) => [(64, k), (64, p), (16, ip), (24, cidr), (16, mode)] + Ips(es)
    case Env(k, p, n, key, value) => [(64, k), (64, p), (64, n), (64, key), (256, value)]
  }

  /** No list is longer than its array. */
  predicate CountsFit(r: Request) {
    match r
    case Create(_, _, _, _, _, argv) => |argv| <= MAX_ARGV
    case ExecPrepare(_, _, argv, _, _, _, _) => |argv| <= MAX_ARGV
    case Network(_, _, _, _, _, es, ports) => |es| <= MAX_ENDPOINTS && |ports| <= MAX_PORTS
    case _ => true
  }

  ghost predicate Within(ss: seq<(nat, Str)>) {
    forall p :: p in ss ==> |p.1| <= p.0
  }

  ghost predicate Short(ss: seq<(nat, Str)>) {
    forall p :: p in ss ==> |p.1| < p.0 && 0 !in p.1
  }

  ghost predicate Acceptable(r: Request) {
    CountsFit(r) && Within(AllStrings(r))
  }

  /** Strings without NUL, each strictly shorter than its field. */
  ghost predicate Clean(r: Request) {
    Short(AllStrings(r))
  }

  function ArriveAll(w: nat, ss: seq<Str>): (r: seq<Str>)
    requires w > 0
    ensures |r| == |ss| && forall i :: 0 <= i < |ss| ==> r[i] == Arrives(w, ss[i])
  {
    seq(|ss|, i requires 0 <= i < |ss| => Arrives(w, ss[i]))
  }

  function ArriveEndpoints(es: seq<Endpoint>): (r: seq<Endpoint>)
    ensures |r| == |es| && forall i :: 0 <= i < |es| ==> r[i] == es[i].(ip := Arrives(16, es[i].ip))
  {
    seq(|es|, i requires 0 <= i < |es| => es[i].(ip := Arrives(16, es[i].ip)))
  }

  /** Numbers as they were, every string up to its NUL and cut to its field less one byte. */
  function Delivered(r: Request): (d: Request) {
    match r
    case Create(k, p, n, i, l, argv) =>
      Create(Arrives(64, k), Arrives(64, p), Arrives(64, n), Arrives(256, i), Arrives(256, l), ArriveAll(ARG, argv))
    case Start(k, c, t) => Start(Arrives(64, k), Arrives(64, c), t)
    case Stop(k, c, t) => Stop(Arrives(64, k), Arrives(64, c), t)
    case Remove(k, c, t) => Remove(Arrives(64, k), Arrives(64, c), t)
    case Status(k, c, t) => Status(Arrives(64, k), Arrives(64, c), t)
    case ReadLog(k, c, offset, maxBytes) => ReadLog(Arrives(64, k), Arrives(64, c), offset, maxBytes)
    case ExecPrepare(k, c, argv, tty, stdin, stdout, stderr) =>
      ExecPrepare(Arrives(64, k), Arrives(64, c), ArriveAll(ARG, argv), tty, stdin, stdout, stderr)
    case ExecStart(k, s) => ExecStart(Arrives(64, k), Arrives(64, s))
    case ExecResize(k, s, w, h) => ExecResize(Arrives(64, k), Arrives(64, s), w, h)
    case ExecClose(k, s) => ExecClose(Arrives(64, k), Arrives(64, s))
    case Network(k, p, ip, cidr, mode, es, ports) =>
      Network(Arrives(64, k), Arrives(64, p), Arrives(16, ip), Arrives(24, cidr), Arrives(16, mode),
              ArriveEndpoints(es), ports)
    case Env(k, p, n, key, value) =>
      Env(Arrives(64, k), Arrives(64, p), Arrives(64, n), Arrives(64, key), Arrives(256, value))
  }
}
