/** Packed little-endian structs: numbers, fields side by side, arrays, and the 28-byte message header. */
module WireFormat {
  import opened Basics
  import opened CText

  const PAYLOAD := 968
  const MESSAGE := 996
  const MAGIC := 0x4d4b434e

  type u16 = x: int | 0 <= x < 0x1_0000
  type u32 = x: int | 0 <= x < 0x1_0000_0000
  type u64 = x: int | 0 <= x < 0x1_0000_0000_0000_0000
  type i32 = x: int | -0x8000_0000 <= x < 0x8000_0000
  type i64 = x: int | -0x8000_0000_0000_0000 <= x < 0x8000_0000_0000_0000

  // Numbers.

  function LE(w: nat, v: nat): (r: Str)
    ensures |r| == w
  {
    if w == 0 then [] else [v % 256] + LE(w - 1, v / 256)
  }

  function FromLE(b: Str): (v: nat) {
    if b == [] then 0 else b[0] + 256 * FromLE(b[1..])
  }

  function Range256(w: nat): (r: nat)
    ensures r > 0
  {
    if w == 0 then 1 else 256 * Range256(w - 1)
  }

  lemma Ranges()
    ensures Range256(1) == 256 && Range256(2) == 0x1_0000 && Range256(4) == 0x1_0000_0000
    ensures Range256(8) == 0x1_0000_0000_0000_0000
  {
    assert Range256(4) == 256 * Range256(3);
    assert Range256(6) == 256 * (256 * Range256(4));
    assert Range256(8) == 256 * (256 * Range256(6));
  }

  lemma {:induction false} NumberReadBack(w: nat, v: nat)
    requires v < Range256(w)
    ensures FromLE(LE(w, v)) == v
  {
    if w > 0 {
      NumberReadBack(w - 1, v / 256);
      assert LE(w, v)[1..] == LE(w - 1, v / 256);
    }
  }

  /** Two's complement in `w` bytes. */
  function Unsigned(w: nat, v: int): (r: nat)
    ensures r < Range256(w)
  {
    v % Range256(w)
  }

  function Signed(w: nat, r: nat): (v: int) {
    if 2 * r < Range256(w) then r else r - Range256(w)
  }

  lemma TwosComplement(n: nat, v: int)
    requires n > 0 && 0 - n <= 2 * v < n
    ensures v % n == if v < 0 then v + n else v
  {
    if v < 0 {
      QuotientUnique(n, -1, v + n, v);
    } else {
      QuotientUnique(n, 0, v, v);
    }
  }

  lemma SignedReadBack(w: nat, v: int)
    requires w > 0 && 0 - Range256(w) <= 2 * v < Range256(w)
    ensures Signed(w, FromLE(LE(w, Unsigned(w, v)))) == v
  {
    NumberReadBack(w, Unsigned(w, v));
    TwosComplement(Range256(w), v);
  }

  lemma {:induction false} NumberBounded(b: Str)
    ensures FromLE(b) < Range256(|b|)
  {
    if b != [] {
      NumberBounded(b[1..]);
    }
  }

  function U16(b: Str): (v: u16)
    requires |b| == 2
  {
    NumberBounded(b);
    Ranges();
    FromLE(b)
  }

  function U32(b: Str): (v: u32)
    requires |b| == 4
  {
    NumberBounded(b);
    Ranges();
    FromLE(b)
  }

  function U64(b: Str): (v: u64)
    requires |b| == 8
  {
    NumberBounded(b);
    Ranges();
    FromLE(b)
  }

  function I32(b: Str): (v: i32)
    requires |b| == 4
  {
    NumberBounded(b);
    Ranges();
    Signed(4, FromLE(b))
  }

  function I64(b: Str): (v: i64)
    requires |b| == 8
  {
    NumberBounded(b);
    Ranges();
    Signed(8, FromLE(b))
  }

  lemma NumbersReadBack()
    ensures forall v: u16 :: U16(LE(2, v)) == v
    ensures forall v: u32 :: U32(LE(4, v)) == v
    ensures forall v: u64 :: U64(LE(8, v)) == v
    ensures forall v: i32 :: I32(LE(4, Unsigned(4, v))) == v
    ensures forall v: i64 :: I64(LE(8, Unsigned(8, v))) == v
  {
    Ranges();
    hide LE, FromLE, Unsigned, Signed, Range256;
    forall v: u16 { NumberReadBack(2, v); }
    forall v: u32 { NumberReadBack(4, v); }
    forall v: u64 { NumberReadBack(8, v); }
    forall v: i32 { SignedReadBack(4, v); }
    forall v: i64 { SignedReadBack(8, v); }
  }

  // Fields side by side.

  function Sum(ws: seq<nat>): (n: nat) {
    if ws == [] then 0 else ws[0] + Sum(ws[1..])
  }

  ghost predicate Fits(ws: seq<nat>, fs: seq<Str>) {
    |ws| == |fs| && forall i :: 0 <= i < |ws| ==> |fs[i]| == ws[i]
  }

  function Pack(fs: seq<Str>): (r: Str) {
    if fs == [] then [] else fs[0] + Pack(fs[1..])
  }

  function Split(ws: seq<nat>, b: Str): (fs: seq<Str>)
    ensures |fs| == |ws|
    decreases |ws|
  {
    if ws == [] then []
    else if ws[0] <= |b| then [b[..ws[0]]] + Split(ws[1..], b[ws[0]..])
    else [b] + Split(ws[1..], [])
  }

  /** Reading a struct field by field returns the fields it was written from, whatever follows it. */
  lemma {:induction false} FieldsReadBack(ws: seq<nat>, fs: seq<Str>, rest: Str)
    requires Fits(ws, fs)
    ensures |Pack(fs)| == Sum(ws)
    ensures Split(ws, Pack(fs) + rest) == fs
    decreases |ws|
  {
    if ws != [] {
      FieldsReadBack(ws[1..], fs[1..], rest);
      var b := Pack(fs) + rest;
      assert b[..ws[0]] == fs[0];
      assert b[ws[0]..] == Pack(fs[1..]) + rest;
    }
  }

  lemma {:induction false} SplitFits(ws: seq<nat>, b: Str)
    requires Sum(ws) <= |b|
    ensures Fits(ws, Split(ws, b))
    decreases |ws|
  {
    if ws != [] {
      SplitFits(ws[1..], b[ws[0]..]);
    }
  }

  // Arrays of `n` elements of `w` bytes, of which the first few are in use.

  function Block(n: nat, w: nat, fs: seq<Str>): (r: Str)
    requires |fs| <= n
    decreases n
  {
    if fs == [] then Zeros(n * w) else fs[0] + Block(n - 1, w, fs[1..])
  }

  lemma {:induction false} BlockLength(n: nat, w: nat, fs: seq<Str>)
    requires |fs| <= n && forall f :: f in fs ==> |f| == w
    ensures |Block(n, w, fs)| == n * w
    decreases n
  {
    if fs != [] {
      assert fs[0] in fs && forall f :: f in fs[1..] ==> f in fs;
      BlockLength(n - 1, w, fs[1..]);
      assert n * w == (n - 1) * w + w;
    }
  }

  function Elements(count: nat, w: nat, b: Str): (fs: seq<Str>)
    ensures |fs| == count
    decreases count
  {
    if count == 0 then []
    else if w <= |b| then [b[..w]] + Elements(count - 1, w, b[w..])
    else [b] + Elements(count - 1, w, [])
  }

  lemma {:induction false} BlockReadBack(n: nat, w: nat, fs: seq<Str>)
    requires |fs| <= n && forall f :: f in fs ==> |f| == w
    ensures Elements(|fs|, w, Block(n, w, fs)) == fs
    decreases n
  {
    if fs != [] {
      BlockReadBack(n - 1, w, fs[1..]);
      var b := Block(n, w, fs);
      assert fs[0] in fs;
      assert b[..w] == fs[0] && b[w..] == Block(n - 1, w, fs[1..]);
    }
  }

  // The header.

  datatype Header = Header(magic: u32, version: byte, channel: byte, kind: byte, op: byte,
                           id: u64, status: i32, payloadLen: u32)

  /** The Go struct. */
  function HostHeaderWidths(): (ws: seq<nat>) {
    [4, 1, 1, 1, 1, 2, 2, 8, 4, 4]
  }

  /**
   The packed C struct: u32 magic; u8 version, channel, kind, operation; u16 twice; u64 id; s32
   status; u32 length.
  */
  function GuestHeaderWidths(): (ws: seq<nat>) {
    [4] + [1, 1, 1, 1] + [2, 2] + [8] + [4, 4]
  }

  lemma HeadersAgree()
    ensures HostHeaderWidths() == GuestHeaderWidths() && Sum(HostHeaderWidths()) == 28
  {
  }

  function HeaderFields(h: Header): (fs: seq<Str>)
    ensures Fits(HostHeaderWidths(), fs)
  {
    [LE(4, h.magic), [h.version], [h.channel], [h.kind], [h.op], LE(2, 0), LE(2, 0), LE(8, h.id),
     LE(4, Unsigned(4, h.status)), LE(4, h.payloadLen)]
  }

  function HeaderOf(f: seq<Str>): (h: Header)
    requires Fits(HostHeaderWidths(), f)
  {
    Header(U32(f[0]), f[1][0], f[2][0], f[3][0], f[4][0], U64(f[7]), I32(f[8]), U32(f[9]))
  }

  /** The header as the Go struct reader sees it. */
  function HostHeader(b: Str): (h: Header)
    requires |b| >= 28
  {
    HeadersAgree();
    SplitFits(HostHeaderWidths(), b);
    HeaderOf(Split(HostHeaderWidths(), b))
  }

  /** The header as the C struct overlay sees it. */
  function GuestHeader(b: Str): (h: Header)
    requires |b| >= 28
  {
    HeadersAgree();
    SplitFits(GuestHeaderWidths(), b);
    HeaderOf(Split(GuestHeaderWidths(), b))
  }

  function Message(h: Header, payload: Str): (m: Str)
    requires |payload| <= PAYLOAD
    ensures |m| == MESSAGE
  {
    HeadersAgree();
    FieldsReadBack(HostHeaderWidths(), HeaderFields(h), []);
    Pack(HeaderFields(h)) + payload + Zeros(PAYLOAD - |payload|)
  }

  lemma HeaderReadBack(h: Header, payload: Str)
    requires |payload| <= PAYLOAD
    ensures HostHeader(Message(h, payload)) == h && GuestHeader(Message(h, payload)) == h
    ensures Message(h, payload)[28..] == payload + Zeros(PAYLOAD - |payload|)
  {
    var rest := payload + Zeros(PAYLOAD - |payload|);
    assert Message(h, payload) == Pack(HeaderFields(h)) + rest;
    HeadersAgree();
    FieldsReadBack(HostHeaderWidths(), HeaderFields(h), rest);
    NumbersReadBack();
  }
}
