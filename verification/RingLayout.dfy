/** Where the parts of a queue and the queues of all kernel pairs lie in the shared area. */
module RingLayout {
  import opened Basics

  const U32_RANGE := 0x1_0000_0000
  const U64_RANGE := 0x1_0000_0000_0000_0000
  const PAGE := 4096
  const HDR_LEN := 64
  const MAX_KERNELS := 32

  /** ALIGN on a u32 to a power of two: the addition wraps, then the low bits are cleared. */
  function Align(x: nat, a: nat): (r: nat)
    requires a > 0
  {
    var y := (x + a - 1) % U32_RANGE;
    y - y % a
  }

  /** The products of the layout. */
  function Times(a: nat, b: nat): (r: nat) {
    a * b
  }

  datatype Layout = Layout(
    descOff: nat, availOff: nat, availRing: nat, availEvent: nat,
    usedOff: nat, usedRing: nat, usedEvent: nat, dataOff: nat, queueSize: nat)

  datatype Result<T> = Ok(value: T) | Invalid | Overflow | OutOfRange

  /** mkring_calc_layout for a u16 count and a u32 payload. */
  function CalcLayout(n: nat, payload: nat): (r: Result<Layout>)
    requires n < 0x1_0000 && payload < U32_RANGE
  {
    hide Align, Times;
    if n == 0 || payload == 0 then Invalid
    else
      var availOff := Align(16 * n, 2);
      var usedOff := Align(availOff + (2 * n + 6), 4);
      var dataOff := Align(usedOff + (8 * n + 6), 64);
      var dataBytes := Times(n, payload);
      if dataBytes >= U32_RANGE || dataOff + dataBytes >= U32_RANGE then Overflow
      else Ok(Layout(0, availOff, availOff + 4, availOff + 4 + 2 * n, usedOff, usedOff + 4, usedOff + 4 + 8 * n,
                     dataOff, Align(dataOff + dataBytes, PAGE)))
  }

  datatype Params = Params(shmSize: nat, kernels: nat, local: nat, n: nat, msgSize: nat)

  predicate InTypes(p: Params) {
    p.shmSize < U64_RANGE && p.kernels < 0x1_0000 && p.local < 0x1_0000 && p.n < 0x1_0000 && p.msgSize < U32_RANGE
  }

  /** The size checks of mkring_init and mkring_prepare_shared. */
  function Prepare(p: Params): (r: Result<Layout>)
    requires InTypes(p)
  {
    if p.shmSize == 0 || p.kernels == 0 || p.kernels > MAX_KERNELS || p.local >= p.kernels || p.n == 0 || p.msgSize == 0
    then Invalid
    else
      match CalcLayout(p.n, p.msgSize)
      case Ok(l) =>
        var required := HDR_LEN + Times(Times(p.kernels, p.kernels), l.queueSize);
        if p.shmSize < required then Invalid
        else if required >= U32_RANGE then Overflow
        else Ok(l)
      case Invalid => Invalid
      case Overflow => Overflow
      case OutOfRange => OutOfRange
  }

  function QIndex(kernels: nat, src: nat, dst: nat): (q: nat) {
    Times(src, kernels) + dst
  }

  /** mkring_queue_setup: the offset of a queue, or -ERANGE. */
  function QueueOffset(p: Params, l: Layout, src: nat, dst: nat): (r: Result<nat>) {
    var off := HDR_LEN + Times(QIndex(p.kernels, src, dst), l.queueSize);
    if off + l.queueSize > p.shmSize then OutOfRange else Ok(off)
  }

  /** The bytes a queue really uses. */
  function End(p: Params, l: Layout): (e: nat) {
    l.dataOff + Times(p.n, p.msgSize)
  }

  // Products.

  lemma Distribute(a: nat, b: nat, m: nat)
    ensures (a + b) * m == a * m + b * m
  {
  }

  lemma NoNegativeProduct(a: nat, m: nat)
    ensures a * m >= 0
  {
  }

  lemma Scale(a: nat, b: nat, m: nat)
    requires a < b
    ensures Times(a, m) + m <= Times(b, m)
  {
    var d: nat := b - a - 1;
    Distribute(a + 1, d, m);
    Distribute(a, 1, m);
    NoNegativeProduct(d, m);
  }

  lemma ZeroTimes(a: nat)
    ensures Times(a, 0) == 0 && Times(0, a) == 0
  {
  }

  // Inside a queue.

  lemma SmallRemainder(x: nat)
    requires x < U32_RANGE
    ensures x % U32_RANGE == x
  {
  }

  lemma RoundedDown(y: nat, a: nat)
    requires a > 0
    ensures (y - y % a) % a == 0 && y - a < y - y % a <= y
  {
    assert y == (y / a) * a + y % a;
    QuotientUnique(a, y / a, 0, y - y % a);
  }

  lemma AlignUp(x: nat, a: nat)
    requires a > 0 && x + a - 1 < U32_RANGE
    ensures Align(x, a) % a == 0 && x <= Align(x, a) < x + a
  {
    var y := x + a - 1;
    SmallRemainder(y);
    RoundedDown(y, a);
  }

  /** The four areas lie one after the other, each aligned for what it holds, and end below 2^32. */
  predicate Areas(l: Layout, n: nat, payload: nat) {
    && l.descOff == 0 && l.descOff + 16 * n == l.availOff
    && l.availOff + 4 == l.availRing && l.availRing + 2 * n == l.availEvent
    && l.availEvent + 2 <= l.usedOff < l.availEvent + 6
    && l.usedOff + 4 == l.usedRing && l.usedRing + 8 * n == l.usedEvent
    && l.usedEvent + 2 <= l.dataOff < l.usedEvent + 66
    && l.availOff % 2 == 0 && l.usedOff % 4 == 0 && l.usedRing % 4 == 0 && l.dataOff % 64 == 0
    && l.dataOff + Times(n, payload) < U32_RANGE
  }

  lemma EvenPlus(x: nat, k: nat)
    requires x % 2 == 0
    ensures (x + 2 * k) % 2 == 0
  {
  }

  lemma FourPlus(x: nat, k: nat)
    requires x % 4 == 0
    ensures (x + 4 * k) % 4 == 0
  {
  }

  lemma AlignEven(n: nat)
    requires n < 0x1_0000
    ensures Align(16 * n, 2) == 16 * n && (16 * n) % 2 == 0
  {
    AlignUp(16 * n, 2);
  }

  lemma AreasSound(n: nat, payload: nat)
    requires n < 0x1_0000 && payload < U32_RANGE && CalcLayout(n, payload).Ok?
    ensures Areas(CalcLayout(n, payload).value, n, payload)
  {
    hide Align, Times;
    AlignEven(n);
    var usedOff := Align(16 * n + (2 * n + 6), 4);
    AlignUp(16 * n + (2 * n + 6), 4);
    AlignUp(usedOff + (8 * n + 6), 64);
    FourPlus(usedOff, 1);
  }

  lemma PageRounding(end: nat)
    requires end < U32_RANGE
    ensures if end <= U32_RANGE - PAGE then end <= Align(end, PAGE) < end + PAGE && Align(end, PAGE) % PAGE == 0
            else Align(end, PAGE) == 0
  {
    if end <= U32_RANGE - PAGE {
      AlignUp(end, PAGE);
    }
  }

  /** The queue size is the end rounded up to a page exactly if that does not wrap; past that it is zero. */
  lemma QueueSizeExact(n: nat, payload: nat)
    requires n < 0x1_0000 && payload < U32_RANGE && CalcLayout(n, payload).Ok?
    ensures var l := CalcLayout(n, payload).value;
      var end := l.dataOff + Times(n, payload);
      if end <= U32_RANGE - PAGE then end <= l.queueSize < end + PAGE && l.queueSize % PAGE == 0 else l.queueSize == 0
  {
    hide Align, Times;
    PageRounding(CalcLayout(n, payload).value.dataOff + Times(n, payload));
  }

  // Which parameters are accepted, without the wrap-around of the calculation.

  /** The least multiple of `a` that is not below `x`. */
  function RoundUp(x: nat, a: nat): (r: nat)
    requires a > 0
  {
    if x % a == 0 then x else x + a - x % a
  }

  lemma MultiplesApart(a: nat, x: nat, y: nat)
    requires a > 0 && x % a == 0 && y % a == 0 && x <= y < x + a
    ensures x == y
  {
    assert x == (x / a) * a && y == (y / a) * a;
    QuotientUnique(a, x / a, y - x, y);
  }

  lemma RoundUpIs(x: nat, a: nat)
    requires a > 0
    ensures RoundUp(x, a) % a == 0 && x <= RoundUp(x, a) < x + a
  {
    if x % a != 0 {
      assert x == (x / a) * a + x % a;
      assert x + a - x % a == (x / a + 1) * a;
      QuotientUnique(a, x / a + 1, 0, x + a - x % a);
    }
  }

  lemma AlignIsRoundUp(x: nat, a: nat)
    requires a > 0 && x + a - 1 < U32_RANGE
    ensures Align(x, a) == RoundUp(x, a)
  {
    AlignUp(x, a);
    RoundUpIs(x, a);
    hide Align, RoundUp;
    if Align(x, a) <= RoundUp(x, a) {
      MultiplesApart(a, Align(x, a), RoundUp(x, a));
    } else {
      MultiplesApart(a, RoundUp(x, a), Align(x, a));
    }
  }

  /** Descriptors, avail ring and used ring of `n` entries, with the data behind them on a multiple of 64. */
  function DataStart(n: nat): (r: nat) {
    RoundUp(RoundUp(18 * n + 6, 4) + 8 * n + 6, 64)
  }

  /** What a queue that ends at `end` is given: whole pages, or nothing once rounding up would pass 2^32. */
  function PageSize(end: nat): (r: nat) {
    if end <= U32_RANGE - PAGE then RoundUp(end, PAGE) else 0
  }

  lemma LayoutIff(n: nat, payload: nat)
    requires n < 0x1_0000 && payload < U32_RANGE
    ensures var end := DataStart(n) + Times(n, payload);
      && (CalcLayout(n, payload).Ok? <==> n > 0 && payload > 0 && end < U32_RANGE)
      && (CalcLayout(n, payload).Overflow? <==> n > 0 && payload > 0 && end >= U32_RANGE)
      && !CalcLayout(n, payload).OutOfRange?
      && (CalcLayout(n, payload).Ok? ==>
            var l := CalcLayout(n, payload).value; l.dataOff == DataStart(n) && l.queueSize == PageSize(end))
  {
    var end := DataStart(n) + Times(n, payload);
    AlignEven(n);
    RoundUpIs(18 * n + 6, 4);
    AlignIsRoundUp(16 * n + (2 * n + 6), 4);
    AlignIsRoundUp(RoundUp(18 * n + 6, 4) + (8 * n + 6), 64);
    if end < U32_RANGE {
      PageRounding(end);
      if end <= U32_RANGE - PAGE { AlignIsRoundUp(end, PAGE); }
    }
    hide Align, RoundUp, Times;
  }

  predicate Sensible(p: Params) {
    p.shmSize > 0 && 0 < p.kernels <= MAX_KERNELS && p.local < p.kernels && p.n > 0 && p.msgSize > 0
  }

  /** What the queues of all pairs and the header take. */
  function Required(p: Params): (r: nat) {
    HDR_LEN + Times(Times(p.kernels, p.kernels), PageSize(DataStart(p.n) + Times(p.n, p.msgSize)))
  }

  /** A parameter set is accepted exactly if it is sensible, one queue ends below 2^32, and all of them fit the area. */
  lemma PreparedIff(p: Params)
    requires InTypes(p)
    ensures var end := DataStart(p.n) + Times(p.n, p.msgSize);
      && (Prepare(p).Ok? <==> Sensible(p) && end < U32_RANGE && Required(p) <= p.shmSize && Required(p) < U32_RANGE)
      && (Prepare(p).Overflow? <==>
            Sensible(p) && (end >= U32_RANGE || (Required(p) <= p.shmSize && Required(p) >= U32_RANGE)))
      && !Prepare(p).OutOfRange?
  {
    LayoutIff(p.n, p.msgSize);
    hide CalcLayout, DataStart, PageSize, Times;
  }

  // What the pointer helpers compute, in u32 arithmetic.

  function DescPtr(l: Layout, id: nat): nat {
    l.descOff + 16 * id
  }

  function AvailRingPtr(l: Layout, slot: nat): nat {
    l.availRing + 2 * slot
  }

  function UsedElemPtr(l: Layout, slot: nat): nat {
    l.usedRing + 8 * slot
  }

  function DataPtr(l: Layout, msgSize: nat, id: nat): nat {
    (l.dataOff + Times(id, msgSize)) % U32_RANGE
  }

  /** What the helpers return for `i` lies wholly inside its area, aligned, and the 32-bit data address did not wrap. */
  ghost predicate Inside(l: Layout, n: nat, payload: nat, i: nat) {
    && l.descOff <= DescPtr(l, i) && DescPtr(l, i) + 16 <= l.availOff
    && l.availRing <= AvailRingPtr(l, i) && AvailRingPtr(l, i) + 2 <= l.availEvent && AvailRingPtr(l, i) % 2 == 0
    && l.usedRing <= UsedElemPtr(l, i) && UsedElemPtr(l, i) + 8 <= l.usedEvent && UsedElemPtr(l, i) % 4 == 0
    && l.dataOff <= DataPtr(l, payload, i) && DataPtr(l, payload, i) + payload <= l.dataOff + Times(n, payload)
  }

  /** What they return for two different ids shares no byte. */
  ghost predicate Apart(l: Layout, payload: nat, i: nat, j: nat) {
    && DescPtr(l, i) + 16 <= DescPtr(l, j)
    && AvailRingPtr(l, i) + 2 <= AvailRingPtr(l, j)
    && UsedElemPtr(l, i) + 8 <= UsedElemPtr(l, j)
    && DataPtr(l, payload, i) + payload <= DataPtr(l, payload, j)
  }

  lemma DataAddress(l: Layout, n: nat, payload: nat, i: nat)
    requires l.dataOff + Times(n, payload) < U32_RANGE && i < n
    ensures DataPtr(l, payload, i) == l.dataOff + Times(i, payload)
    ensures Times(i, payload) + payload <= Times(n, payload)
  {
    hide Times;
    Scale(i, n, payload);
    SmallRemainder(l.dataOff + Times(i, payload));
  }

  lemma AreaInside(l: Layout, n: nat, payload: nat, i: nat)
    requires Areas(l, n, payload) && i < n
    ensures Inside(l, n, payload, i)
  {
    hide Times, DataPtr;
    EvenPlus(l.availOff, 2 + i);
    FourPlus(l.usedRing, 2 * i);
    DataAddress(l, n, payload, i);
  }

  lemma AreaApart(l: Layout, n: nat, payload: nat, i: nat, j: nat)
    requires Areas(l, n, payload) && i < j < n
    ensures Apart(l, payload, i, j)
  {
    hide Times, DataPtr;
    DataAddress(l, n, payload, i);
    DataAddress(l, n, payload, j);
    Scale(i, j, payload);
  }

  /**
   For every layout the calculation returns, every pointer helper stays in its area, and different
   ids do not meet.
  */
  lemma PointersInside(n: nat, payload: nat, i: nat)
    requires n < 0x1_0000 && payload < U32_RANGE && CalcLayout(n, payload).Ok? && i < n
    ensures Inside(CalcLayout(n, payload).value, n, payload, i)
    ensures forall j: nat :: i < j < n ==> Apart(CalcLayout(n, payload).value, payload, i, j)
  {
    hide CalcLayout, Areas, Inside, Apart;
    AreasSound(n, payload);
    var l := CalcLayout(n, payload).value;
    AreaInside(l, n, payload, i);
    forall j: nat | i < j < n
      ensures Apart(l, payload, i, j)
    {
      AreaApart(l, n, payload, i, j);
    }
  }

  // The queues of all kernel pairs.

  lemma QIndexInjective(kernels: nat, s: nat, d: nat, s': nat, d': nat)
    requires s < kernels && d < kernels && s' < kernels && d' < kernels
    ensures QIndex(kernels, s, d) == QIndex(kernels, s', d') <==> s == s' && d == d'
    ensures QIndex(kernels, s, d) < Times(kernels, kernels)
  {
    hide Times;
    Scale(s, kernels, kernels);
    if s < s' {
      Scale(s, s', kernels);
    } else if s' < s {
      Scale(s', s, kernels);
    }
  }

  predicate IsPair(p: Params, x: (nat, nat)) {
    x.0 < p.kernels && x.1 < p.kernels
  }

  /** The bytes of the queue `x` start here; `End` says how many it uses. */
  function Start(p: Params, l: Layout, x: (nat, nat)): nat {
    HDR_LEN + Times(QIndex(p.kernels, x.0, x.1), l.queueSize)
  }

  lemma StartBelow(p: Params, l: Layout, x: (nat, nat))
    requires IsPair(p, x)
    ensures Start(p, l, x) + l.queueSize <= HDR_LEN + Times(Times(p.kernels, p.kernels), l.queueSize)
  {
    QIndexInjective(p.kernels, x.0, x.1, x.0, x.1);
    hide Times, QIndex;
    Scale(QIndex(p.kernels, x.0, x.1), Times(p.kernels, p.kernels), l.queueSize);
  }

  /** -ERANGE never happens once initialisation has accepted the sizes. */
  lemma NeverOutOfRange(p: Params, x: (nat, nat))
    requires InTypes(p) && Prepare(p).Ok? && IsPair(p, x)
    ensures QueueOffset(p, Prepare(p).value, x.0, x.1) == Ok(Start(p, Prepare(p).value, x))
  {
    hide Times, QIndex, CalcLayout;
    StartBelow(p, Prepare(p).value, x);
  }

  predicate Disjoint(p: Params, l: Layout, x: (nat, nat), y: (nat, nat)) {
    Start(p, l, x) + End(p, l) <= Start(p, l, y) || Start(p, l, y) + End(p, l) <= Start(p, l, x)
  }

  ghost predicate QueuesSound(p: Params, l: Layout) {
    && (forall x :: IsPair(p, x) ==> Start(p, l, x) + End(p, l) <= p.shmSize)
    && (forall x, y :: IsPair(p, x) && IsPair(p, y) && x != y ==> Disjoint(p, l, x, y))
  }

  lemma Separate(p: Params, l: Layout, x: (nat, nat), y: (nat, nat))
    requires IsPair(p, x) && IsPair(p, y) && x != y && End(p, l) <= l.queueSize
    ensures Disjoint(p, l, x, y)
  {
    var a, b := QIndex(p.kernels, x.0, x.1), QIndex(p.kernels, y.0, y.1);
    QIndexInjective(p.kernels, x.0, x.1, y.0, y.1);
    hide QIndex, Times, End;
    if a < b {
      Scale(a, b, l.queueSize);
    } else {
      Scale(b, a, l.queueSize);
    }
  }

  lemma RoomForAll(p: Params, l: Layout)
    requires End(p, l) <= l.queueSize && HDR_LEN + Times(Times(p.kernels, p.kernels), l.queueSize) <= p.shmSize
    ensures QueuesSound(p, l)
  {
    hide Times, End, Start, Disjoint, IsPair;
    forall x | IsPair(p, x)
      ensures Start(p, l, x) + End(p, l) <= p.shmSize
    {
      StartBelow(p, l, x);
    }
    forall x, y | IsPair(p, x) && IsPair(p, y) && x != y
      ensures Disjoint(p, l, x, y)
    {
      Separate(p, l, x, y);
    }
  }

  lemma AtHeader(p: Params, l: Layout, x: (nat, nat))
    requires l.queueSize == 0
    ensures Start(p, l, x) == HDR_LEN
  {
    hide Times, QIndex;
    ZeroTimes(QIndex(p.kernels, x.0, x.1));
  }

  /** A size that wrapped to zero puts every queue at the same place. */
  lemma AllAtStart(p: Params, l: Layout)
    requires l.queueSize == 0 && 0 < p.kernels && 0 < End(p, l)
    ensures QueuesSound(p, l) <==> p.kernels == 1 && HDR_LEN + End(p, l) <= p.shmSize
  {
    hide Times, QIndex, End, Start;
    var x: (nat, nat), y: (nat, nat) := (0, 0), (0, 1);
    forall z: (nat, nat)
      ensures Start(p, l, z) == HDR_LEN
    {
      AtHeader(p, l, z);
    }
    assert IsPair(p, x);
    if p.kernels > 1 {
      assert IsPair(p, y) && x != y && !Disjoint(p, l, x, y);
    } else {
      assert forall z :: IsPair(p, z) ==> z == x;
    }
  }

  lemma PreparedFacts(p: Params)
    requires InTypes(p) && Prepare(p).Ok?
    ensures var l := Prepare(p).value;
      && 0 < p.kernels && 0 < End(p, l)
      && HDR_LEN + Times(Times(p.kernels, p.kernels), l.queueSize) <= p.shmSize
      && (if End(p, l) <= U32_RANGE - PAGE then End(p, l) <= l.queueSize else l.queueSize == 0)
  {
    hide CalcLayout, Times;
    QueueSizeExact(p.n, p.msgSize);
    AreasSound(p.n, p.msgSize);
  }

  /**
   For every accepted parameter set the queues lie inside the shared area without overlapping exactly
   if the unrounded end leaves room for the page rounding; the only other case is a single kernel,
   whose one queue then sits at the start of an area that happens to be large enough.
  */
  lemma QueuesSoundIff(p: Params)
    requires InTypes(p) && Prepare(p).Ok?
    ensures var l := Prepare(p).value;
      QueuesSound(p, l) <==>
        End(p, l) <= U32_RANGE - PAGE || (p.kernels == 1 && HDR_LEN + End(p, l) <= p.shmSize)
  {
    hide Prepare, CalcLayout, Times, End, QueuesSound;
    var l := Prepare(p).value;
    PreparedFacts(p);
    if End(p, l) <= U32_RANGE - PAGE {
      RoomForAll(p, l);
    } else {
      AllAtStart(p, l);
    }
  }

  /** Such parameters exist: one descriptor of 2^32 - 164 bytes ends 100 bytes below 2^32 and gets queue size 0. */
  lemma WrappedSizeAccepted()
    ensures var p := Params(64, 2, 0, 1, U32_RANGE - 164);
      Prepare(p).Ok? && Prepare(p).value.queueSize == 0 && !QueuesSound(p, Prepare(p).value)
  {
    var p := Params(64, 2, 0, 1, U32_RANGE - 164);
    assert CalcLayout(1, U32_RANGE - 164).Ok?;
    QueueSizeExact(1, U32_RANGE - 164);
    AreasSound(1, U32_RANGE - 164);
    ZeroTimes(Times(2, 2));
    QueuesSoundIff(p);
  }
}
