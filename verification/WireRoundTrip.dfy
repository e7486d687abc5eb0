/** The guest's decoder undoes the host's encoder, for every operation. */
module WireRoundTrip {
  import opened Basics
  import opened CText
  import opened WireFormat
  import opened WireRequest

  lemma StringsReadBack(n: nat, w: nat, ss: seq<Str>)
    requires w > 0 && |ss| <= n && CStrings(w, ss).Some?
    ensures ReadStrings(|ss|, w, Block(n, w, CStrings(w, ss).value)) == ArriveAll(w, ss)
  {
    var fs := CStrings(w, ss).value;
    BlockReadBack(n, w, fs);
    hide Block, Elements, CStrings, Arrives, CString;
    forall i | 0 <= i < |ss|
      ensures Arrives(w, fs[i]) == Arrives(w, ss[i])
    {
      assert ss[i] in ss;
      CStringArrives(w, ss[i]);
    }
  }

  lemma EndpointReadBack(e: Endpoint)
    requires |e.ip| <= 16
    ensures ReadEndpoint(EndpointField(e).value) == e.(ip := Arrives(16, e.ip))
  {
    var f := EndpointField(e).value;
    assert f[..16] == CString(16, e.ip).value;
    assert f[16..18] == LE(2, e.peer);
    NumbersReadBack();
    CStringArrives(16, e.ip);
  }

  lemma EndpointsReadBack(es: seq<Endpoint>)
    requires |es| <= MAX_ENDPOINTS && EndpointFields(es).Some?
    ensures ReadEndpoints(|es|, Block(MAX_ENDPOINTS, 20, EndpointFields(es).value)) == ArriveEndpoints(es)
  {
    var fs := EndpointFields(es).value;
    BlockReadBack(MAX_ENDPOINTS, 20, fs);
    hide Block, Elements, EndpointFields, EndpointField, ReadEndpoint, Arrives;
    forall i | 0 <= i < |es|
      ensures ReadEndpoint(fs[i]) == es[i].(ip := Arrives(16, es[i].ip))
    {
      assert es[i] in es;
      EndpointReadBack(es[i]);
    }
  }

  lemma PortsReadBack(ports: seq<u16>)
    requires |ports| <= MAX_PORTS
    ensures ReadPorts(|ports|, Block(MAX_PORTS, 2, PortFields(ports))) == ports
  {
    BlockReadBack(MAX_PORTS, 2, PortFields(ports));
    NumbersReadBack();
  }

  lemma CreateReadBack(r: Request)
    requires r.Create? && CreateFields(r).Some? && Fits(GuestWidths(1), CreateFields(r).value)
    ensures ReadCreate(CreateFields(r).value) == Some(Delivered(r))
  {
    hide Arrives, CString, CStrings, Block, LE, ReadStrings, U32, ArriveAll;
    NumbersReadBack();
    CStringArrives(64, r.kernel);
    CStringArrives(64, r.pod);
    CStringArrives(64, r.name);
    CStringArrives(256, r.image);
    CStringArrives(256, r.logPath);
    StringsReadBack(MAX_ARGV, ARG, r.argv);
  }

  lemma ExecPrepareReadBack(r: Request)
    requires r.ExecPrepare? && ExecPrepareFields(r).Some? && Fits(GuestWidths(7), ExecPrepareFields(r).value)
    ensures ReadExecPrepare(ExecPrepareFields(r).value) == Some(Delivered(r))
  {
    hide Arrives, CString, CStrings, Block, LE, ReadStrings, U32, ArriveAll;
    NumbersReadBack();
    CStringArrives(64, r.kernel);
    CStringArrives(64, r.container);
    StringsReadBack(MAX_ARGV, ARG, r.argv);
  }

  lemma NetworkReadBack(r: Request)
    requires r.Network? && NetworkFields(r).Some? && Fits(GuestWidths(11), NetworkFields(r).value)
    ensures ReadNetwork(NetworkFields(r).value) == Some(Delivered(r))
  {
    hide Arrives, CString, EndpointFields, PortFields, Block, LE, ReadEndpoints, ReadPorts, U32, ArriveEndpoints;
    NumbersReadBack();
    CStringArrives(64, r.kernel);
    CStringArrives(64, r.pod);
    CStringArrives(16, r.podIP);
    CStringArrives(24, r.podCIDR);
    CStringArrives(16, r.mode);
    EndpointsReadBack(r.endpoints);
    PortsReadBack(r.ports);
  }

  lemma EnvReadBack(r: Request)
    requires r.Env? && Fields(r).Some? && Fits(GuestWidths(12), Fields(r).value)
    ensures ReadFields(12, Fields(r).value) == Some(Delivered(r))
  {
    hide Arrives, CString;
    CStringArrives(64, r.kernel);
    CStringArrives(64, r.pod);
    CStringArrives(64, r.name);
    CStringArrives(64, r.key);
    CStringArrives(256, r.value);
  }

  lemma ControlReadBack(r: Request)
    requires r.Start? || r.Stop? || r.Remove? || r.Status?
    requires Fields(r).Some? && Fits(GuestWidths(Op(r)), Fields(r).value)
    ensures ReadFields(Op(r), Fields(r).value) == Some(Delivered(r))
  {
    hide Arrives, CString, LE, I64, Unsigned;
    NumbersReadBack();
    CStringArrives(64, r.kernel);
    CStringArrives(64, r.container);
  }

  lemma ReadLogReadBack(r: Request)
    requires r.ReadLog? && Fields(r).Some? && Fits(GuestWidths(6), Fields(r).value)
    ensures ReadFields(6, Fields(r).value) == Some(Delivered(r))
  {
    hide Arrives, CString, LE, U32, U64;
    NumbersReadBack();
    CStringArrives(64, r.kernel);
    CStringArrives(64, r.container);
  }

  lemma SessionReadBack(r: Request)
    requires r.ExecStart? || r.ExecResize? || r.ExecClose?
    requires Fields(r).Some? && Fits(GuestWidths(Op(r)), Fields(r).value)
    ensures ReadFields(Op(r), Fields(r).value) == Some(Delivered(r))
  {
    hide Arrives, CString, LE, U32;
    NumbersReadBack();
    CStringArrives(64, r.kernel);
    CStringArrives(64, r.session);
  }

  lemma FieldsArrive(r: Request)
    requires Fields(r).Some? && Fits(GuestWidths(Op(r)), Fields(r).value)
    ensures ReadFields(Op(r), Fields(r).value) == Some(Delivered(r))
  {
    hide Delivered, CreateFields, ExecPrepareFields, NetworkFields, ReadCreate, ReadExecPrepare, ReadNetwork;
    if r.Create? {
      CreateReadBack(r);
    } else if r.ExecPrepare? {
      ExecPrepareReadBack(r);
    } else if r.Network? {
      NetworkReadBack(r);
    } else if r.Env? {
      EnvReadBack(r);
    } else if r.ReadLog? {
      ReadLogReadBack(r);
    } else if r.ExecStart? || r.ExecResize? || r.ExecClose? {
      SessionReadBack(r);
    } else {
      ControlReadBack(r);
    }
  }

  lemma FramedReadBack(op: byte, id: u64, fs: seq<Str>)
    requires 1 <= op <= 12 && Fits(HostWidths(op), fs)
    ensures GuestHeader(Framed(op, id, fs)) == Header(MAGIC, 1, 1, 2, op, id, 0, HostSize(op))
    ensures Split(GuestWidths(op), Framed(op, id, fs)[28..]) == fs
  {
    hide HostWidths, GuestWidths, Pack, Split, Zeros, Message, GuestHeader, HostSize, Fits;
    LayoutsAgree(op);
    FieldsReadBack(HostWidths(op), fs, []);
    HeaderReadBack(Header(MAGIC, 1, 1, 2, op, id, 0, HostSize(op)), Pack(fs));
    FieldsReadBack(GuestWidths(op), fs, Zeros(PAYLOAD - |Pack(fs)|));
  }

  lemma FramedDecodes(op: byte, id: u64, fs: seq<Str>)
    requires 1 <= op <= 12 && Fits(HostWidths(op), fs) && Fits(GuestWidths(op), fs)
    ensures DecodeRequest(Framed(op, id, fs))
         == if ReadFields(op, fs).Some? then Some((id, ReadFields(op, fs).value)) else None
  {
    hide HostWidths, GuestWidths, Split, Framed, GuestHeader, ReadFields, Fits, HostSize, GuestSize;
    LayoutsAgree(op);
    FramedReadBack(op, id, fs);
  }

  /**
   Whatever the host's encoder accepts, the guest decodes to the same request id, operation and
   numbers, with command and args as one list, and every string up to its NUL and cut to its field
   less one byte.
  */
  lemma RequestRoundTrip(h: HostRequest, id: u64)
    ensures EncodeRequest(h, id).Some? ==>
      DecodeRequest(EncodeRequest(h, id).value) == Some((id, Delivered(Flattened(h))))
  {
    var r := Flattened(h);
    hide Fields, Flattened, Delivered, ReadFields, HostWidths, GuestWidths, Framed, DecodeRequest, Fits;
    if Fields(r).Some? {
      FieldsFit(r);
      LayoutsAgree(Op(r));
      FramedDecodes(Op(r), id, Fields(r).value);
      FieldsArrive(r);
    }
  }

  // The two operations whose payload the host builds, on the host's own fields.

  /**
   An accepted CreateContainer is decoded as Create with every field in its place and the arguments
   of the command first, then those of args.
  */
  lemma CreateArrives(h: HostRequest, id: u64)
    requires h.CreateContainer? && EncodeRequest(h, id).Some?
    ensures var d := DecodeRequest(EncodeRequest(h, id).value);
      && d.Some? && d.value.0 == id && d.value.1.Create?
      && var r := d.value.1;
      && r.kernel == Arrives(64, h.kernel) && r.pod == Arrives(64, h.pod) && r.name == Arrives(64, h.name)
      && r.image == Arrives(256, h.image) && r.logPath == Arrives(256, h.logPath)
      && |r.argv| == |h.command| + |h.args|
      && (forall i :: 0 <= i < |h.command| ==> r.argv[i] == Arrives(ARG, h.command[i]))
      && (forall i :: |h.command| <= i < |r.argv| ==> r.argv[i] == Arrives(ARG, h.args[i - |h.command|]))
  {
    hide EncodeRequest, DecodeRequest, Arrives;
    RequestRoundTrip(h, id);
  }

  /** An accepted PrepareExec is decoded as ExecPrepare; a flag is 1 exactly if the host's is true, and else 0. */
  lemma PrepareExecArrives(h: HostRequest, id: u64)
    requires h.PrepareExec? && EncodeRequest(h, id).Some?
    ensures var d := DecodeRequest(EncodeRequest(h, id).value);
      && d.Some? && d.value.0 == id && d.value.1.ExecPrepare?
      && var r := d.value.1;
      && r.kernel == Arrives(64, h.kernel) && r.container == Arrives(64, h.container)
      && |r.argv| == |h.command|
      && (forall i :: 0 <= i < |h.command| ==> r.argv[i] == Arrives(ARG, h.command[i]))
      && (r.tty == 1 <==> h.tty) && (r.stdin == 1 <==> h.stdin)
      && (r.stdout == 1 <==> h.stdout) && (r.stderr == 1 <==> h.stderr)
      && r.tty < 2 && r.stdin < 2 && r.stdout < 2 && r.stderr < 2
  {
    hide EncodeRequest, DecodeRequest, Arrives;
    RequestRoundTrip(h, id);
  }

  // Which requests are accepted, and which arrive unchanged.

  lemma ListWithin(w: nat, ss: seq<Str>)
    ensures Within(Strings(w, ss)) <==> forall s :: s in ss ==> |s| <= w
  {
    forall i | 0 <= i < |ss|
      ensures Strings(w, ss)[i] in Strings(w, ss) && ss[i] in ss
    {
    }
  }

  lemma IpsWithin(es: seq<Endpoint>)
    ensures Within(Ips(es)) <==> forall e :: e in es ==> |e.ip| <= 16
  {
    forall i | 0 <= i < |es|
      ensures Ips(es)[i] in Ips(es) && es[i] in es
    {
    }
  }

  lemma AppendWithin(a: seq<(nat, Str)>, b: seq<(nat, Str)>)
    ensures Within(a + b) <==> Within(a) && Within(b)
    ensures Short(a + b) <==> Short(a) && Short(b)
  {
    assert forall p :: p in a + b <==> p in a || p in b;
  }

  lemma FiveWithin(a: (nat, Str), b: (nat, Str), c: (nat, Str), d: (nat, Str), e: (nat, Str))
    ensures Within([a, b, c, d, e])
       <==> |a.1| <= a.0 && |b.1| <= b.0 && |c.1| <= c.0 && |d.1| <= d.0 && |e.1| <= e.0
  {
    var five := [a, b, c, d, e];
    assert five[0] in five && five[1] in five && five[2] in five && five[3] in five && five[4] in five;
  }

  lemma TwoWithin(a: (nat, Str), b: (nat, Str))
    ensures Within([a, b]) <==> |a.1| <= a.0 && |b.1| <= b.0
  {
    var two := [a, b];
    assert two[0] in two && two[1] in two;
  }

  lemma CreateIff(r: Request)
    requires r.Create?
    ensures CreateFields(r).Some? <==> |r.argv| <= MAX_ARGV && Within(AllStrings(r))
  {
    hide LE, Block, CString, CStrings, Strings, Within;
    ListWithin(ARG, r.argv);
    FiveWithin((64, r.kernel), (64, r.pod), (64, r.name), (256, r.image), (256, r.logPath));
    AppendWithin([(64, r.kernel), (64, r.pod), (64, r.name), (256, r.image), (256, r.logPath)], Strings(ARG, r.argv));
  }

  lemma ExecPrepareIff(r: Request)
    requires r.ExecPrepare?
    ensures ExecPrepareFields(r).Some? <==> |r.argv| <= MAX_ARGV && Within(AllStrings(r))
  {
    hide LE, Block, CString, CStrings, Strings, Within;
    ListWithin(ARG, r.argv);
    TwoWithin((64, r.kernel), (64, r.container));
    AppendWithin([(64, r.kernel), (64, r.container)], Strings(ARG, r.argv));
  }

  lemma NetworkIff(r: Request)
    requires r.Network?
    ensures NetworkFields(r).Some?
       <==> |r.endpoints| <= MAX_ENDPOINTS && |r.ports| <= MAX_PORTS && Within(AllStrings(r))
  {
    hide LE, Block, CString, EndpointFields, PortFields, Ips, Within;
    IpsWithin(r.endpoints);
    FiveWithin((64, r.kernel), (64, r.pod), (16, r.podIP), (24, r.podCIDR), (16, r.mode));
    AppendWithin([(64, r.kernel), (64, r.pod), (16, r.podIP), (24, r.podCIDR), (16, r.mode)], Ips(r.endpoints));
  }

  lemma EnvIff(r: Request)
    requires r.Env?
    ensures Fields(r).Some? <==> Within(AllStrings(r))
  {
    hide CString, Within;
    FiveWithin((64, r.kernel), (64, r.pod), (64, r.name), (64, r.key), (256, r.value));
  }

  /** The eight operations whose strings are two names. */
  lemma TwoNamesIff(r: Request)
    requires !r.Create? && !r.ExecPrepare? && !r.Network? && !r.Env?
    ensures Fields(r).Some? <==> Acceptable(r)
  {
    hide CString, LE, Unsigned, Within;
    var l := AllStrings(r);
    assert Within(l) <==> |l[0].1| <= l[0].0 && |l[1].1| <= l[1].0 by { TwoWithin(l[0], l[1]); }
  }

  lemma FieldsIff(r: Request)
    ensures Fields(r).Some? <==> Acceptable(r)
  {
    if r.Create? {
      hide CreateFields, AllStrings;
      CreateIff(r);
    } else if r.ExecPrepare? {
      hide ExecPrepareFields, AllStrings;
      ExecPrepareIff(r);
    } else if r.Network? {
      hide NetworkFields, AllStrings;
      NetworkIff(r);
    } else if r.Env? {
      hide Fields, AllStrings;
      EnvIff(r);
    } else {
      hide Fields, Acceptable;
      TwoNamesIff(r);
    }
  }

  /** The encoder accepts a request exactly if its lists fit their arrays and no string is longer than its field. */
  lemma AcceptedIff(h: HostRequest, id: u64)
    ensures EncodeRequest(h, id).Some? <==> Acceptable(Flattened(h))
  {
    FieldsIff(Flattened(h));
  }

  lemma ListUnchanged(w: nat, ss: seq<Str>)
    requires w > 0
    ensures ArriveAll(w, ss) == ss <==> Short(Strings(w, ss))
  {
    forall i | 0 <= i < |ss|
      ensures Strings(w, ss)[i] in Strings(w, ss)
      ensures ArriveAll(w, ss)[i] == ss[i] <==> |ss[i]| < w && 0 !in ss[i]
    {
      ArrivesIff(w, ss[i]);
    }
  }

  lemma IpsUnchanged(es: seq<Endpoint>)
    ensures ArriveEndpoints(es) == es <==> Short(Ips(es))
  {
    forall i | 0 <= i < |es|
      ensures Ips(es)[i] in Ips(es)
      ensures ArriveEndpoints(es)[i] == es[i] <==> |es[i].ip| < 16 && 0 !in es[i].ip
    {
      ArrivesIff(16, es[i].ip);
    }
  }

  lemma PairsUnchanged(k: Str, s: Str)
    ensures Arrives(64, k) == k && Arrives(64, s) == s <==> Short([(64, k), (64, s)])
  {
    ArrivesIff(64, k);
    ArrivesIff(64, s);
    assert (64, k) in [(64, k), (64, s)] && (64, s) in [(64, k), (64, s)];
  }

  lemma FiveUnchanged(a: (nat, Str), b: (nat, Str), c: (nat, Str), d: (nat, Str), e: (nat, Str))
    requires a.0 > 0 && b.0 > 0 && c.0 > 0 && d.0 > 0 && e.0 > 0
    ensures (Arrives(a.0, a.1) == a.1 && Arrives(b.0, b.1) == b.1 && Arrives(c.0, c.1) == c.1
             && Arrives(d.0, d.1) == d.1 && Arrives(e.0, e.1) == e.1)
       <==> Short([a, b, c, d, e])
  {
    ArrivesIff(a.0, a.1);
    ArrivesIff(b.0, b.1);
    ArrivesIff(c.0, c.1);
    ArrivesIff(d.0, d.1);
    ArrivesIff(e.0, e.1);
    var l := [a, b, c, d, e];
    assert l[0] in l && l[1] in l && l[2] in l && l[3] in l && l[4] in l;
  }

  /** A request arrives unchanged exactly if every string is NUL-free and strictly shorter than its field. */
  lemma UnchangedIffClean(r: Request)
    ensures Delivered(r) == r <==> Clean(r)
  {
    hide Arrives, ArriveAll, ArriveEndpoints, Strings, Ips, Short;
    match r {
      case Create(k, p, n, i, l, argv) =>
        FiveUnchanged((64, k), (64, p), (64, n), (256, i), (256, l));
        ListUnchanged(ARG, argv);
        AppendWithin([(64, k), (64, p), (64, n), (256, i), (256, l)], Strings(ARG, argv));
      case ExecPrepare(k, c, argv, _, _, _, _) =>
        PairsUnchanged(k, c);
        ListUnchanged(ARG, argv);
        AppendWithin([(64, k), (64, c)], Strings(ARG, argv));
      case Network(k, p, ip, cidr, mode, es, _) =>
        FiveUnchanged((64, k), (64, p), (16, ip), (24, cidr), (16, mode));
        IpsUnchanged(es);
        AppendWithin([(64, k), (64, p), (16, ip), (24, cidr), (16, mode)], Ips(es));
      case Env(k, p, n, key, value) => FiveUnchanged((64, k), (64, p), (64, n), (64, key), (256, value));
      case ExecStart(k, s) => PairsUnchanged(k, s);
      case ExecResize(k, s, _, _) => PairsUnchanged(k, s);
      case ExecClose(k, s) => PairsUnchanged(k, s);
      case _ => PairsUnchanged(r.kernel, r.container);
    }
  }

  /** Clean requests within the array sizes make the whole trip unchanged, and only they do. */
  lemma RequestExact(h: HostRequest, id: u64)
    requires EncodeRequest(h, id).Some?
    ensures DecodeRequest(EncodeRequest(h, id).value) == Some((id, Flattened(h))) <==> Clean(Flattened(h))
  {
    hide EncodeRequest, DecodeRequest, Flattened, Delivered, Clean;
    RequestRoundTrip(h, id);
    UnchangedIffClean(Flattened(h));
  }

  /** A kernel id that fills its 64-byte field is accepted by the host and reaches the guest without its last byte. */
  lemma FullFieldLosesByte(id: u64)
    ensures var kernel: Str := seq(64, i => 107);
      var h := Other(Start(kernel, [99], 0));
      && EncodeRequest(h, id).Some?
      && DecodeRequest(EncodeRequest(h, id).value) == Some((id, Start(kernel[..63], [99], 0)))
      && Some((id, Start(kernel[..63], [99], 0))) != Some((id, Flattened(h)))
  {
    var kernel: Str := seq(64, i => 107);
    var h := Other(Start(kernel, [99], 0));
    var l := AllStrings(Flattened(h));
    assert l == [(64, kernel), (64, [99])];
    hide EncodeRequest, DecodeRequest;
    AcceptedIff(h, id);
    RequestRoundTrip(h, id);
    CutUnique(kernel, kernel);
    CutUnique([99], [99]);
  }
}
