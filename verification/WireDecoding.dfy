/** What the guest makes of any message at all, encoded by the host or not. */
module WireDecoding {
  import opened Basics
  import opened CText
  import opened WireFormat
  import opened WireRequest
  import opened WireRoundTrip
  import A = WireResponse

  lemma SliceOfDrop(b: Str, k: nat, at: nat, n: nat)
    requires k + at + n <= |b|
    ensures b[k..][at..at + n] == b[k + at..k + at + n]
  {
  }

  lemma TailOffset(ws: seq<nat>, i: nat)
    requires 0 < i < |ws|
    ensures Sum(ws) == ws[0] + Sum(ws[1..]) && Sum(ws[..i]) == ws[0] + Sum(ws[1..][..i - 1])
  {
    assert ws[..i][1..] == ws[1..][..i - 1];
  }

  lemma TailField(ws: seq<nat>, b: Str, i: nat)
    requires 0 < i < |ws| && ws[0] <= |b|
    ensures Split(ws, b)[i] == Split(ws[1..], b[ws[0]..])[i - 1]
  {
  }

  /** Field `i` of a struct is the bytes behind the fields before it. */
  lemma {:induction false} FieldAt(ws: seq<nat>, b: Str, i: nat)
    requires i < |ws| && Sum(ws) <= |b|
    ensures Sum(ws[..i]) + ws[i] <= Sum(ws)
    ensures Split(ws, b)[i] == b[Sum(ws[..i])..Sum(ws[..i]) + ws[i]]
    decreases |ws|
  {
    if i == 0 {
      assert ws[..i] == [];
    } else {
      TailOffset(ws, i);
      hide Split, Sum;
      TailField(ws, b, i);
      FieldAt(ws[1..], b[ws[0]..], i - 1);
      SliceOfDrop(b, ws[0], Sum(ws[1..][..i - 1]), ws[i]);
    }
  }

  lemma CountOffsets()
    ensures Sum(GuestWidths(1)[..5]) == 704 && Sum(GuestWidths(7)[..2]) == 128
    ensures Sum(GuestWidths(11)[..5]) == 184 && Sum(GuestWidths(11)[..6]) == 188
  {
    assert GuestWidths(1)[..5] == [64, 64, 64, 256, 256];
    assert Sum([64, 64, 64, 256, 256]) == 704;
    assert GuestWidths(7)[..2] == [64, 64];
    assert GuestWidths(11)[..5] == [64, 64, 16, 24, 16];
    assert Sum([64, 64, 16, 24, 16]) == 184;
    assert GuestWidths(11)[..6] == [64, 64, 16, 24, 16, 4];
    assert Sum([64, 64, 16, 24, 16, 4]) == 188;
  }

  /** The list counts in the payload of a request do not exceed their arrays. */
  predicate CountsInside(op: nat, m: Str)
    requires |m| == MESSAGE
  {
    match op
    case 1 => U32(m[732..736]) <= 4
    case 7 => U32(m[156..160]) <= 4
    case 11 => U32(m[212..216]) <= 16 && U32(m[216..220]) <= 32
    case _ => true
  }

  lemma CountField(op: nat, m: Str, i: nat, at: nat)
    requires |m| == MESSAGE && i < |GuestWidths(op)| && Sum(GuestWidths(op)) <= PAYLOAD
    requires Sum(GuestWidths(op)[..i]) == at && GuestWidths(op)[i] == 4 && at + 4 <= PAYLOAD
    ensures Split(GuestWidths(op), m[28..])[i] == m[28 + at..32 + at]
  {
    FieldAt(GuestWidths(op), m[28..], i);
    assert m[28..][at..at + 4] == m[28 + at..32 + at];
  }

  lemma FieldsReadIff(op: nat, m: Str)
    requires |m| == MESSAGE && 1 <= op <= 12 && Fits(GuestWidths(op), Split(GuestWidths(op), m[28..]))
    ensures ReadFields(op, Split(GuestWidths(op), m[28..])).Some? <==> CountsInside(op, m)
  {
    CountOffsets();
    LayoutsAgree(op);
    hide Split, Sum, Arrives, ReadStrings, ReadEndpoints, ReadPorts, U32, U64, I64;
    if op == 1 {
      CountField(1, m, 5, 704);
    } else if op == 7 {
      CountField(7, m, 2, 128);
    } else if op == 11 {
      CountField(11, m, 5, 184);
      CountField(11, m, 6, 188);
    }
  }

  /**
   The guest accepts a message exactly if it has the size of the C struct, its header is that of a
   container request for a known operation with the payload size of that operation, and its list
   counts do not exceed their arrays.
  */
  lemma DecodedIff(m: Str)
    ensures DecodeRequest(m).Some?
       <==> && |m| == MESSAGE
            && var h := GuestHeader(m);
               && h.magic == MAGIC && h.version == 1 && h.channel == 1 && h.kind == 2
               && 1 <= h.op <= 12 && h.payloadLen == GuestSize(h.op)
               && CountsInside(h.op, m)
  {
    if |m| == MESSAGE {
      var h := GuestHeader(m);
      LayoutsAgree(h.op);
      SplitFits(GuestWidths(h.op), m[28..]);
      hide GuestHeader, Split, GuestWidths, ReadFields, CountsInside, Sum;
      if 1 <= h.op <= 12 {
        FieldsReadIff(h.op, m);
      }
    }
  }

  lemma ListShort(w: nat, ss: seq<Str>)
    requires forall i :: 0 <= i < |ss| ==> |ss[i]| < w && 0 !in ss[i]
    ensures Short(Strings(w, ss))
  {
  }

  lemma IpsShort(es: seq<Endpoint>)
    requires forall i :: 0 <= i < |es| ==> |es[i].ip| < 16 && 0 !in es[i].ip
    ensures Short(Ips(es))
  {
  }

  predicate Text(p: (nat, Str)) {
    |p.1| < p.0 && 0 !in p.1
  }

  lemma TwoShort(a: (nat, Str), b: (nat, Str))
    requires Text(a) && Text(b)
    ensures Short([a, b])
  {
  }

  lemma FiveShort(a: (nat, Str), b: (nat, Str), c: (nat, Str), d: (nat, Str), e: (nat, Str))
    requires Text(a) && Text(b) && Text(c) && Text(d) && Text(e)
    ensures Short([a, b, c, d, e])
  {
  }

  lemma CreateClean(f: seq<Str>)
    requires Fits(GuestWidths(1), f) && ReadCreate(f).Some?
    ensures var r := ReadCreate(f).value; Clean(r) && CountsFit(r) && Op(r) == 1
  {
    hide Arrives, U32, Elements, Short;
    var r := ReadCreate(f).value;
    ListShort(ARG, r.argv);
    FiveShort((64, r.kernel), (64, r.pod), (64, r.name), (256, r.image), (256, r.logPath));
    AppendWithin([(64, r.kernel), (64, r.pod), (64, r.name), (256, r.image), (256, r.logPath)], Strings(ARG, r.argv));
  }

  lemma ExecPrepareClean(f: seq<Str>)
    requires Fits(GuestWidths(7), f) && ReadExecPrepare(f).Some?
    ensures var r := ReadExecPrepare(f).value; Clean(r) && CountsFit(r) && Op(r) == 7
  {
    hide Arrives, U32, Elements, Short;
    var r := ReadExecPrepare(f).value;
    ListShort(ARG, r.argv);
    TwoShort((64, r.kernel), (64, r.container));
    AppendWithin([(64, r.kernel), (64, r.container)], Strings(ARG, r.argv));
  }

  lemma NetworkClean(f: seq<Str>)
    requires Fits(GuestWidths(11), f) && ReadNetwork(f).Some?
    ensures var r := ReadNetwork(f).value; Clean(r) && CountsFit(r) && Op(r) == 11
  {
    hide Arrives, U32, U16, Elements, Short;
    var r := ReadNetwork(f).value;
    IpsShort(r.endpoints);
    FiveShort((64, r.kernel), (64, r.pod), (16, r.podIP), (24, r.podCIDR), (16, r.mode));
    AppendWithin([(64, r.kernel), (64, r.pod), (16, r.podIP), (24, r.podCIDR), (16, r.mode)], Ips(r.endpoints));
  }

  lemma NamesClean(op: nat, f: seq<Str>)
    requires 1 <= op <= 12 && op != 1 && op != 7 && op != 11 && Fits(GuestWidths(op), f) && ReadFields(op, f).Some?
    ensures var r := ReadFields(op, f).value; Clean(r) && CountsFit(r) && Op(r) == op
  {
    hide Arrives, U32, U64, I64, Short;
    var r := ReadFields(op, f).value;
    if op == 12 {
      FiveShort((64, r.kernel), (64, r.pod), (64, r.name), (64, r.key), (256, r.value));
    } else {
      TwoShort((64, r.kernel), (64, if op == 8 || op == 9 || op == 10 then r.session else r.container));
    }
  }

  lemma FieldsClean(op: nat, f: seq<Str>)
    requires 1 <= op <= 12 && Fits(GuestWidths(op), f) && ReadFields(op, f).Some?
    ensures var r := ReadFields(op, f).value; Clean(r) && CountsFit(r) && Op(r) == op
  {
    hide GuestWidths, ReadCreate, ReadExecPrepare, ReadNetwork, Clean, CountsFit, Op;
    if op == 1 {
      CreateClean(f);
    } else if op == 7 {
      ExecPrepareClean(f);
    } else if op == 11 {
      NetworkClean(f);
    } else {
      NamesClean(op, f);
    }
  }

  /**
   Whatever bytes arrive, the request the guest takes from them is clean: every string is NUL-free and
   strictly shorter than its field, every list fits its array, and operation and id are the header's.
  */
  lemma DecodedIsClean(m: Str)
    requires DecodeRequest(m).Some?
    ensures var (id, r) := DecodeRequest(m).value;
      Clean(r) && CountsFit(r) && id == GuestHeader(m).id && Op(r) == GuestHeader(m).op
  {
    var op := GuestHeader(m).op;
    LayoutsAgree(op);
    SplitFits(GuestWidths(op), m[28..]);
    var f := Split(GuestWidths(op), m[28..]);
    hide GuestHeader, Split, GuestWidths, ReadFields, Clean, CountsFit, Sum, Op;
    FieldsClean(op, f);
  }

  lemma CleanIsAcceptable(r: Request)
    requires Clean(r) && CountsFit(r)
    ensures Acceptable(r)
  {
    hide AllStrings;
  }

  /** So passing a decoded request on changes nothing more: encoded again, it is accepted and decodes to itself. */
  lemma PassedOnUnchanged(m: Str)
    requires DecodeRequest(m).Some?
    ensures var (id, r) := DecodeRequest(m).value;
      var again := EncodeRequest(Other(r), id);
      again.Some? && DecodeRequest(again.value) == Some((id, r))
  {
    DecodedIsClean(m);
    var (id, r) := DecodeRequest(m).value;
    hide DecodeRequest, EncodeRequest, Clean, Acceptable, CountsFit;
    CleanIsAcceptable(r);
    AcceptedIff(Other(r), id);
    RequestExact(Other(r), id);
  }

  // And the host of any answer.

  lemma LogLength(m: Str)
    requires |m| == MESSAGE
    ensures |Split(A.HostWidths(6), m[28..])| == 5 && Split(A.HostWidths(6), m[28..])[1] == m[36..40]
  {
    A.LayoutsAgree(6);
    FieldAt(A.HostWidths(6), m[28..], 1);
    assert A.HostWidths(6)[..1] == [8];
    assert Sum([8]) == 8 + Sum([]);
    assert m[28..][8..12] == m[36..40];
  }

  /** The header of a response to that request. */
  predicate Answers(h: Header, op: byte, id: u64) {
    && h.id == id && h.op == op && h.magic == MAGIC && h.version == 1 && h.channel == 1 && h.kind == 3
    && h.payloadLen <= PAYLOAD
  }

  /** The payload of a successful response: of the operation's size, with no overlong log chunk. */
  predicate Sized(op: byte, payloadLen: nat, m: Str)
    requires |m| == MESSAGE
  {
    1 <= op <= 12 && payloadLen == A.HostSize(op) && (op == 6 ==> U32(m[36..40]) <= 384)
  }

  lemma ReadIff(op: byte, m: Str)
    requires |m| == MESSAGE && Fits(A.HostWidths(op), Split(A.HostWidths(op), m[28..]))
    ensures A.ReadFields(op, Split(A.HostWidths(op), m[28..])).None? <==> op == 6 && U32(m[36..40]) > 384
  {
    hide Split, Cut, U32, U64, I32, A.StateOf, Sum;
    if op == 6 {
      LogLength(m);
    }
  }

  /**
   A waiting caller accepts a message exactly if it is a response to its own request and operation,
   with an error status, or with the payload size of the operation and no overlong log chunk.
  */
  lemma RepliedIff(op: byte, id: u64, m: Str)
    ensures A.DecodeResponse(op, id, m).Some?
       <==> && |m| == MESSAGE && Answers(HostHeader(m), op, id)
            && (HostHeader(m).status != 0 || Sized(op, HostHeader(m).payloadLen, m))
  {
    if |m| == MESSAGE {
      A.LayoutsAgree(op);
      SplitFits(A.HostWidths(op), m[28..]);
      hide HostHeader, Split, A.DecodeError, Sum, A.ReadFields, A.HostWidths, A.HostSize, U32;
      ReadIff(op, m);
    }
  }

  /** And an answer with an error status is an error to it, whatever its payload. */
  lemma StatusIsError(op: byte, id: u64, m: Str)
    requires A.DecodeResponse(op, id, m).Some?
    ensures HostHeader(m).status != 0 <==> A.DecodeResponse(op, id, m).value.Failed?
  {
    hide HostHeader, Split, Sum, Cut, U32, U64, I32, A.StateOf;
  }

  lemma ErrorFieldsAt(m: Str)
    requires |m| == MESSAGE
    ensures Split([4, 128], m[28..]) == [m[28..32], m[32..160]]
  {
    A.LayoutsAgree(0);
    FieldAt([4, 128], m[28..], 0);
    FieldAt([4, 128], m[28..], 1);
    assert [4, 128][..0] == [] && [4, 128][..1] == [4];
    assert Sum([4]) == 4 + Sum([]);
    assert m[28..][0..4] == m[28..32] && m[28..][4..132] == m[32..160];
  }

  function ErrorNumber(m: Str): (n: int)
    requires |m| == MESSAGE
  {
    I32(m[28..32])
  }

  function ErrorText(m: Str): (t: Str)
    requires |m| == MESSAGE
  {
    Cut(m[32..160])
  }

  lemma TakenAsError(op: byte, id: u64, m: Str)
    requires |m| == MESSAGE && HostHeader(m).status != 0 && A.DecodeResponse(op, id, m).Some?
    ensures A.DecodeResponse(op, id, m).value == A.DecodeError(HostHeader(m).payloadLen, m[28..], HostHeader(m).status)
  {
    hide HostHeader, A.DecodeError, A.ReadFields, Split, Sum;
  }

  lemma ErrorRead(m: Str, payloadLen: nat, status: int)
    requires |m| == MESSAGE
    ensures var e := A.DecodeError(payloadLen, m[28..], status);
      var full := payloadLen == 132;
      && e.Failed?
      && e.code == A.StatusCode(if full && ErrorNumber(m) != 0 then ErrorNumber(m) else status)
      && e.message == if full && ErrorText(m) != [] then ErrorText(m)
                      else Ascii("remote error: status=") + Decimal(status)
  {
    ErrorFieldsAt(m);
    hide Split, Sum, Cut, I32, Ascii, Decimal, A.StatusCode;
  }

  /**
   The error a caller sees: the number in an error payload if there is one and it is not zero, else
   the header's status; the payload's text if there is one, else one made from the status.
  */
  lemma ErrorExact(op: byte, id: u64, m: Str)
    requires |m| == MESSAGE && HostHeader(m).status != 0 && A.DecodeResponse(op, id, m).Some?
    ensures var h, e := HostHeader(m), A.DecodeResponse(op, id, m).value;
      var full := h.payloadLen == 132;
      var n := if full && ErrorNumber(m) != 0 then ErrorNumber(m) else h.status;
      && e.Failed?
      && e.code == (if n == -0x8000_0000 then Ascii("errno_") + ([45] + Digits(0x8000_0000))
                    else if n < 0 then Ascii("errno_") + Digits(0 - n)
                    else Ascii("status_") + Digits(n))
      && e.message == if full && ErrorText(m) != [] then ErrorText(m)
                      else Ascii("remote error: status=") + Decimal(h.status)
  {
    hide HostHeader, A.DecodeResponse, A.DecodeError, ErrorNumber, ErrorText, Ascii, Digits;
    TakenAsError(op, id, m);
    ErrorRead(m, HostHeader(m).payloadLen, HostHeader(m).status);
  }
}
