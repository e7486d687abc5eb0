/** Responses on the control channel: the guest's encoder (C) and the host's decoder (Go). */
module WireResponse {
  import opened Basics
  import opened CText
  import opened WireFormat

  const CHUNK := 384
  const ERROR_SIZE := 132

  type Chunk = d: seq<byte> | |d| == CHUNK witness Zeros(CHUNK)

  datatype Error = Error(code: Str, message: Str)

  datatype StatusResult = StatusResult(state: u32, exitCode: i32, pid: i32, started: u64, finished: u64, message: Str)

  datatype LogResult = LogResult(nextOffset: u64, dataLen: u32, eof: bool, data: Chunk)

  /** The members of the guest's response union; the operation says which one is meant. */
  datatype Union = Union(
    container: Str, imageRef: Str, exitCode: i32, status: StatusResult, log: LogResult, session: Str)

  datatype Response = Response(op: byte, id: u64, error: Option<Error>, result: Union)

  datatype State = UnknownState | CreatedState | Running | Exited

  /** What the host's caller gets. */
  datatype Reply =
    | Failed(code: Str, message: Str)
    | Created(container: Str, imageRef: Str)
    | Done
    | Stopped(exitCode: i32)
    | Status(state: State, exitCode: i32, pid: i32, started: u64, finished: u64, message: Str)
    | Log(nextOffset: u64, eof: bool, data: seq<byte>)
    | Prepared(session: Str)

  // The guest's side.

  /** mkga_errno_from_code: EINVAL, ENOENT, ENOSPC, ENOSYS, and EIO for everything else. */
  function Errno(code: Str): (n: i32)
    ensures n > 0
  {
    var c := Cut(code);
    if c == Ascii("invalid_argument") then 22
    else if c == Ascii("not_found") then 2
    else if c == Ascii("resource_exhausted") then 28
    else if c == Ascii("not_implemented") then 38
    else 5
  }

  /** The packed response structs as the guest (C) declares them; the other operations answer with none. */
  function GuestWidths(op: nat): (ws: seq<nat>) {
    match op
    case 1 => [64, 256]
    case 3 => [4]
    case 5 => [4, 4, 4, 8, 8, 128]
    case 6 => [8, 4, 1, 3, CHUNK]
    case 7 => [64]
    case _ => []
  }

  /** The response structs as the host (Go) declares them. */
  function HostWidths(op: nat): (ws: seq<nat>) {
    if op == 1 then [64, 256]
    else if op == 3 then [4]
    else if op == 5 then [4, 4, 4, 8, 8, 128]
    else if op == 6 then [8, 4, 1, 3, 384]
    else if op == 7 then [64]
    else []
  }

  /** The sizes the host compares payload_len with. */
  function HostSize(op: nat): (n: nat)
    ensures n <= PAYLOAD
  {
    if op == 1 then 320
    else if op == 3 then 4
    else if op == 5 then 156
    else if op == 6 then 400
    else if op == 7 then 64
    else 0
  }

  lemma Sums()
    ensures Sum([64, 256]) == 320 && Sum([4]) == 4 && Sum([64]) == 64 && Sum([]) == 0 && Sum([4, 128]) == ERROR_SIZE
    ensures Sum([4, 4, 4, 8, 8, 128]) == 156 && Sum([8, 4, 1, 3, 384]) == 400
  {
  }

  /** Both sides declare the same structs, and the host's size constants are the C structs' sizes. */
  lemma LayoutsAgree(op: nat)
    ensures GuestWidths(op) == HostWidths(op) && Sum(GuestWidths(op)) == HostSize(op)
    ensures Sum([4, 128]) == ERROR_SIZE
  {
    hide Sum;
    Sums();
  }

  function Fields(op: nat, u: Union): (fs: seq<Str>)
    ensures Fits(GuestWidths(op), fs)
  {
    if op == 1 then [Stored(64, u.container), Stored(256, u.imageRef)]
    else if op == 3 then [LE(4, Unsigned(4, u.exitCode))]
    else if op == 5 then
      [LE(4, u.status.state), LE(4, Unsigned(4, u.status.exitCode)), LE(4, Unsigned(4, u.status.pid)),
       LE(8, u.status.started), LE(8, u.status.finished), Stored(128, u.status.message)]
    else if op == 6 then
      [LE(8, u.log.nextOffset), LE(4, u.log.dataLen), [if u.log.eof then 1 else 0], Zeros(3), u.log.data]
    else if op == 7 then [Stored(64, u.session)]
    else []
  }

  function ErrorFields(e: Error): (fs: seq<Str>)
    ensures Fits([4, 128], fs)
  {
    [LE(4, Unsigned(4, 0 - Errno(e.code))), Stored(128, e.message)]
  }

  function Framed(op: byte, id: u64, status: i32, ws: seq<nat>, fs: seq<Str>): (m: Str)
    requires Fits(ws, fs) && Sum(ws) <= PAYLOAD
    ensures |m| == MESSAGE
  {
    FieldsReadBack(ws, fs, []);
    Message(Header(MAGIC, 1, 1, 3, op, id, status, Sum(ws)), Pack(fs))
  }

  /** mkga_encode_response_message: -EINVAL for no operation or request id 0. */
  function EncodeResponse(r: Response): (m: Option<Str>)
    ensures m.Some? <==> 1 <= r.op <= 12 && r.id != 0
    ensures m.Some? ==> |m.value| == MESSAGE
  {
    LayoutsAgree(r.op);
    if !(1 <= r.op <= 12) || r.id == 0 then None
    else if r.error.Some? then
      Some(Framed(r.op, r.id, 0 - Errno(r.error.value.code), [4, 128], ErrorFields(r.error.value)))
    else Some(Framed(r.op, r.id, 0, GuestWidths(r.op), Fields(r.op, r.result)))
  }

  // The host's side.

  /** Negation of an int32: the least one is its own negative. */
  function Negated(x: int): (r: int) {
    if x == -0x8000_0000 then x else 0 - x
  }

  /** statusCodeString. */
  function StatusCode(status: int): (r: Str) {
    if status < 0 then Ascii("errno_") + Decimal(Negated(status)) else Ascii("status_") + Decimal(status)
  }

  function StateOf(n: nat): (s: State) {
    if n == 1 then CreatedState else if n == 2 then Running else if n == 3 then Exited else UnknownState
  }

  /** decodeErrorEnvelope. */
  function DecodeError(payloadLen: nat, payload: Str, status: int): (r: Reply)
    requires |payload| == PAYLOAD
  {
    var fallback := Ascii("remote error: status=") + Decimal(status);
    if payloadLen == ERROR_SIZE then
      LayoutsAgree(0);
      SplitFits([4, 128], payload);
      var f := Split([4, 128], payload);
      Failed(StatusCode(if I32(f[0]) != 0 then I32(f[0]) else status),
             if Cut(f[1]) != [] then Cut(f[1]) else fallback)
    else Failed(StatusCode(status), fallback)
  }

  function ReadFields(op: nat, f: seq<Str>): (r: Option<Reply>)
    requires Fits(HostWidths(op), f)
  {
    if op == 1 then Some(Created(Cut(f[0]), Cut(f[1])))
    else if op == 3 then Some(Stopped(I32(f[0])))
    else if op == 5 then
      Some(Status(StateOf(U32(f[0])), I32(f[1]), I32(f[2]), U64(f[3]), U64(f[4]), Cut(f[5])))
    else if op == 6 then
      if U32(f[1]) > CHUNK then None else Some(Log(U64(f[0]), f[2][0] != 0, f[4][..U32(f[1])]))
    else if op == 7 then Some(Prepared(Cut(f[0])))
    else Some(Done)
  }

  /** The checks and decoding a waiting caller does for its request (operation `op`, transport id `id`). */
  function DecodeResponse(op: byte, id: u64, m: Str): (r: Option<Reply>) {
    if |m| != MESSAGE then None
    else
      var h := HostHeader(m);
      if h.id != id then None
      else if h.magic != MAGIC || h.version != 1 || h.channel != 1 || h.kind != 3 then None
      else if h.op != op || h.payloadLen > PAYLOAD then None
      else if h.status != 0 then Some(DecodeError(h.payloadLen, m[28..], h.status))
      else if !(1 <= op <= 12) || h.payloadLen != HostSize(op) then None
      else
        LayoutsAgree(op);
        SplitFits(HostWidths(op), m[28..]);
        ReadFields(op, Split(HostWidths(op), m[28..]))
  }

  // What arrives.

  /** The same result, strings cut to their field less one byte, the log chunk cut to its length. */
  function Delivered(op: nat, u: Union): (r: Option<Reply>) {
    if op == 1 then Some(Created(Arrives(64, u.container), Arrives(256, u.imageRef)))
    else if op == 3 then Some(Stopped(u.exitCode))
    else if op == 5 then
      Some(Status(StateOf(u.status.state), u.status.exitCode, u.status.pid, u.status.started, u.status.finished,
                  Arrives(128, u.status.message)))
    else if op == 6 then
      if u.log.dataLen > CHUNK then None
      else Some(Log(u.log.nextOffset, u.log.eof, u.log.data[..u.log.dataLen]))
    else if op == 7 then Some(Prepared(Arrives(64, u.session)))
    else Some(Done)
  }

  function DeliveredError(e: Error): (r: Reply) {
    var text := Arrives(128, e.message);
    Failed(Ascii("errno_") + Digits(Errno(e.code)),
           if text != [] then text else Ascii("remote error: status=") + Decimal(0 - Errno(e.code)))
  }

  lemma FieldsArrive(op: nat, u: Union)
    ensures ReadFields(op, Fields(op, u)) == Delivered(op, u)
  {
    hide LE, Unsigned, U32, U64, I32, Stored, Arrives, Cut;
    NumbersReadBack();
    StoredReadBack(64, u.container);
    StoredReadBack(256, u.imageRef);
    StoredReadBack(128, u.status.message);
    StoredReadBack(64, u.session);
  }

  lemma FramedReadBack(op: byte, id: u64, status: i32, ws: seq<nat>, fs: seq<Str>)
    requires Fits(ws, fs) && Sum(ws) <= PAYLOAD
    ensures HostHeader(Framed(op, id, status, ws, fs)) == Header(MAGIC, 1, 1, 3, op, id, status, Sum(ws))
    ensures Split(ws, Framed(op, id, status, ws, fs)[28..]) == fs
  {
    hide Pack, Split, Zeros, Message, HostHeader, Fits;
    FieldsReadBack(ws, fs, []);
    HeaderReadBack(Header(MAGIC, 1, 1, 3, op, id, status, Sum(ws)), Pack(fs));
    FieldsReadBack(ws, fs, Zeros(PAYLOAD - |Pack(fs)|));
  }

  lemma ErrorArrives(e: Error, payload: Str)
    requires |payload| == PAYLOAD && Split([4, 128], payload) == ErrorFields(e)
    ensures DecodeError(ERROR_SIZE, payload, 0 - Errno(e.code)) == DeliveredError(e)
  {
    hide LE, Unsigned, I32, Stored, Arrives, Cut, Ascii, Digits, Split, Errno;
    NumbersReadBack();
    StoredReadBack(128, e.message);
  }

  /**
   Every response the guest encodes is decoded by the caller it answers: to the mapped errno and the
   cut text if an error is present, to the same result otherwise.  The one refusal is a log chunk
   that claims more than its 384 bytes.
  */
  lemma ResponseRoundTrip(r: Response)
    requires EncodeResponse(r).Some?
    ensures DecodeResponse(r.op, r.id, EncodeResponse(r).value)
         == if r.error.Some? then Some(DeliveredError(r.error.value)) else Delivered(r.op, r.result)
  {
    hide Framed, HostHeader, Split, Delivered, DeliveredError, Errno, HostSize, DecodeError, ErrorFields,
         GuestWidths, HostWidths, ReadFields, Fields, Sum;
    LayoutsAgree(r.op);
    if r.error.Some? {
      var e := r.error.value;
      FramedReadBack(r.op, r.id, 0 - Errno(e.code), [4, 128], ErrorFields(e));
      ErrorArrives(e, Framed(r.op, r.id, 0 - Errno(e.code), [4, 128], ErrorFields(e))[28..]);
    } else {
      FramedReadBack(r.op, r.id, 0, GuestWidths(r.op), Fields(r.op, r.result));
      FieldsArrive(r.op, r.result);
    }
  }

  lemma CodeLengths()
    ensures |Ascii("invalid_argument")| == 16 && |Ascii("not_found")| == 9
    ensures |Ascii("resource_exhausted")| == 18 && |Ascii("not_implemented")| == 15
  {
    hide Ascii;
  }

  lemma ErrnoDigits()
    ensures Digits(22) == [50, 50] && Digits(28) == [50, 56] && Digits(38) == [51, 56]
    ensures Digits(2) == [50] && Digits(5) == [53]
  {
    assert Digits(22 / 10) == [] + [50] && Digits(38 / 10) == [] + [51];
    assert [50] + [50] == [50, 50] && [50] + [56] == [50, 56] && [51] + [56] == [51, 56];
  }

  /** The error codes the guest knows arrive as errno_22, errno_2, errno_28 and errno_38, every other one as errno_5. */
  lemma ErrorCodesArrive(e: Error)
    ensures DeliveredError(e).code[..6] == Ascii("errno_")
    ensures var c, number := Cut(e.code), DeliveredError(e).code[6..];
      && (c == Ascii("invalid_argument") <==> number == [50, 50])
      && (c == Ascii("not_found") <==> number == [50])
      && (c == Ascii("resource_exhausted") <==> number == [50, 56])
      && (c == Ascii("not_implemented") <==> number == [51, 56])
      && (c !in [Ascii("invalid_argument"), Ascii("not_found"), Ascii("resource_exhausted"), Ascii("not_implemented")]
          <==> number == [53])
  {
    hide Ascii, Cut, Digits, Arrives;
    CodeLengths();
    ErrnoDigits();
    var code := DeliveredError(e).code;
    assert code == Ascii("errno_") + Digits(Errno(e.code)) && |Ascii("errno_")| == 6;
    assert code[6..] == Digits(Errno(e.code));
  }

  /** The guest's numbers for a container's state. */
  function StateNumber(s: State): (n: u32) {
    match s
    case UnknownState => 0
    case CreatedState => 1
    case Running => 2
    case Exited => 3
  }

  /** The host reads each state the guest sends; any other number is an unknown state. */
  lemma StatesAgree(s: State, n: nat)
    ensures StateOf(StateNumber(s)) == s
    ensures StateOf(n) == UnknownState || StateNumber(StateOf(n)) == n
  {
  }

  /** A response is refused by the caller it answers exactly if it is a log chunk longer than 384 bytes. */
  lemma RefusedIff(r: Response)
    requires EncodeResponse(r).Some?
    ensures DecodeResponse(r.op, r.id, EncodeResponse(r).value).None?
       <==> r.error.None? && r.op == 6 && r.result.log.dataLen > CHUNK
  {
    hide EncodeResponse, DecodeResponse;
    ResponseRoundTrip(r);
  }

  /** No caller takes a response meant for another operation or another request. */
  lemma OnlyItsOwn(r: Response, op: byte, id: u64)
    requires EncodeResponse(r).Some?
    ensures DecodeResponse(op, id, EncodeResponse(r).value).Some? ==> op == r.op && id == r.id
  {
    hide Framed, HostHeader, Split, Errno, DecodeError, ErrorFields, GuestWidths, HostWidths, ReadFields, Fields, Sum;
    LayoutsAgree(r.op);
    if r.error.Some? {
      FramedReadBack(r.op, r.id, 0 - Errno(r.error.value.code), [4, 128], ErrorFields(r.error.value));
    } else {
      FramedReadBack(r.op, r.id, 0, GuestWidths(r.op), Fields(r.op, r.result));
    }
  }
}
