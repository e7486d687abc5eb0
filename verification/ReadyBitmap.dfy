/** The ready bitmap of the shared area: kernels join and leave with compare-and-swap retry loops. */
module ReadyBitmap {

  type Word = bv32

  datatype KernelId = KernelId(id: bv32)

  /** Kernel ids are below MKRING_MAX_KERNELS. */
  type Kernel = k: KernelId | k.id < 32 witness KernelId(0)

  /** BIT(k). */
  function BitOf(k: Kernel): Word {
    1 << k.id
  }

  function And(a: Word, b: Word): Word {
    a & b
  }

  function Or(a: Word, b: Word): Word {
    a | b
  }

  function AndNot(a: Word, b: Word): Word {
    a & !b
  }

  predicate Has(w: Word, k: Kernel) {
    And(w, BitOf(k)) != 0
  }

  function Update(w: Word, k: Kernel, join: bool): (r: Word) {
    if join then Or(w, BitOf(k)) else AndNot(w, BitOf(k))
  }

  lemma SameMask(w: Word, b: Word)
    ensures And(Or(w, b), b) == b && And(AndNot(w, b), b) == 0
  {
  }

  lemma MaskedOut(w: Word, b: Word, c: Word)
    requires b & c == 0
    ensures (w | b) & c == w & c
    ensures (w & !b) & c == w & c
  {
  }

  lemma OtherMask(w: Word, b: Word, c: Word)
    requires And(b, c) == 0
    ensures And(Or(w, b), c) == And(w, c)
    ensures And(AndNot(w, b), c) == And(w, c)
  {
    MaskedOut(w, b, c);
  }

  lemma BitsDiffer(k: Kernel, j: Kernel)
    requires k != j
    ensures And(BitOf(k), BitOf(j)) == 0
  {
  }

  lemma BitNotZero(k: Kernel)
    ensures BitOf(k) != 0
  {
  }

  /** One update changes one bit. */
  lemma UpdateBits(w: Word, k: Kernel, join: bool, j: Kernel)
    ensures Has(Update(w, k, join), j) <==> if j == k then join else Has(w, j)
  {
    hide BitOf, And, Or, AndNot;
    if j == k {
      BitNotZero(k);
      SameMask(w, BitOf(k));
    } else {
      BitsDiffer(k, j);
      OtherMask(w, BitOf(k), BitOf(j));
    }
  }

  datatype Pc = Idle | Read(join: bool) | Swap(join: bool, seen: Word)

  /**
   `done` is the last completed join (true) or leave (false) of each kernel; no step reads it.  A
   kernel that is in neither map is idle and has never completed anything.
  */
  datatype State = State(word: Word, pcs: map<Kernel, Pc>, done: map<Kernel, bool>)

  datatype Action = Begin(k: Kernel, join: bool) | Tick(k: Kernel)

  /** The area as the initialiser leaves it: nobody has joined. */
  const INIT := State(0, map[], map[])

  function PcOf(s: State, k: Kernel): Pc {
    if k in s.pcs then s.pcs[k] else Idle
  }

  function Joined(done: map<Kernel, bool>, k: Kernel): bool {
    k in done && done[k]
  }

  function TickOf(s: State, k: Kernel): (s': State) {
    match PcOf(s, k)
    case Idle => s
    case Read(join) => s.(pcs := s.pcs[k := Swap(join, s.word)])
    case Swap(join, seen) =>
      if s.word == seen
      then State(Update(seen, k, join), s.pcs[k := Idle], s.done[k := join])
      else s.(pcs := s.pcs[k := Read(join)])
  }

  function Next(s: State, a: Action): (s': State) {
    match a
    case Begin(k, join) => if PcOf(s, k).Idle? then s.(pcs := s.pcs[k := Read(join)]) else s
    case Tick(k) => TickOf(s, k)
  }

  function Exec(s: State, acts: seq<Action>): (s': State)
    decreases |acts|
  {
    if acts == [] then s else Next(Exec(s, acts[..|acts| - 1]), acts[|acts| - 1])
  }

  /** Each kernel's bit is its own last completed join or leave. */
  ghost predicate Matches(w: Word, done: map<Kernel, bool>) {
    forall k: Kernel :: Has(w, k) == Joined(done, k)
  }

  lemma ZeroHasNone(b: Word)
    ensures And(0, b) == 0
  {
  }

  lemma InitMatches()
    ensures Matches(INIT.word, INIT.done)
  {
    forall k: Kernel
      ensures !Has(0, k)
    {
      ZeroHasNone(BitOf(k));
    }
  }

  lemma SwapMatches(w: Word, done: map<Kernel, bool>, k: Kernel, join: bool)
    requires Matches(w, done)
    ensures Matches(Update(w, k, join), done[k := join])
  {
    hide Has, Update;
    forall j: Kernel
      ensures Has(Update(w, k, join), j) == Joined(done[k := join], j)
    {
      UpdateBits(w, k, join, j);
    }
  }

  lemma NextMatches(s: State, a: Action)
    requires Matches(s.word, s.done)
    ensures Matches(Next(s, a).word, Next(s, a).done)
  {
    hide Matches, Update;
    if a.Tick? && PcOf(s, a.k).Swap? && s.word == PcOf(s, a.k).seen {
      SwapMatches(s.word, s.done, a.k, PcOf(s, a.k).join);
    }
  }

  lemma {:induction false} ExecMatches(s: State, acts: seq<Action>)
    requires Matches(s.word, s.done)
    ensures Matches(Exec(s, acts).word, Exec(s, acts).done)
    decreases |acts|
  {
    hide Matches, Next;
    if acts != [] {
      ExecMatches(s, acts[..|acts| - 1]);
      NextMatches(Exec(s, acts[..|acts| - 1]), acts[|acts| - 1]);
    }
  }

  /** In every interleaving of any number of joins and leaves each bit is its kernel's last completed one. */
  lemma NoUpdateLost(acts: seq<Action>)
    ensures Matches(Exec(INIT, acts).word, Exec(INIT, acts).done)
  {
    InitMatches();
    hide Matches;
    ExecMatches(INIT, acts);
  }

  /** The last join (true) or leave (false) that `k` has begun in the run; a kernel starts out as not joined. */
  function LastBegun(acts: seq<Action>, k: Kernel): (join: bool) {
    if acts == [] then false
    else
      var i := |acts| - 1;
      if acts[i].Begin? && acts[i].k == k && PcOf(Exec(INIT, acts[..i]), k).Idle? then acts[i].join
      else LastBegun(acts[..i], k)
  }

  /** A kernel at work is at its last begun update; an idle one has completed it. */
  predicate AtLastBegun(s: State, k: Kernel, join: bool) {
    if PcOf(s, k).Idle? then Joined(s.done, k) == join else PcOf(s, k).join == join
  }

  lemma BegunStep(s: State, a: Action, k: Kernel, join: bool)
    requires AtLastBegun(s, k, join)
    ensures AtLastBegun(Next(s, a), k, if a.Begin? && a.k == k && PcOf(s, k).Idle? then a.join else join)
  {
    hide Update;
  }

  lemma {:induction false} BegunIsKept(acts: seq<Action>, k: Kernel)
    ensures AtLastBegun(Exec(INIT, acts), k, LastBegun(acts, k))
    decreases |acts|
  {
    if acts != [] {
      var i := |acts| - 1;
      BegunIsKept(acts[..i], k);
      hide AtLastBegun, Next;
      BegunStep(Exec(INIT, acts[..i]), acts[i], k, LastBegun(acts[..i], k));
    }
  }

  /** In every interleaving no begun update is given up: the bit of an idle kernel is its last begun join or leave. */
  lemma IdleMeansDone(acts: seq<Action>, k: Kernel)
    ensures PcOf(Exec(INIT, acts), k).Idle? ==> Has(Exec(INIT, acts).word, k) == LastBegun(acts, k)
  {
    NoUpdateLost(acts);
    BegunIsKept(acts, k);
    hide Exec, LastBegun, Has;
  }

  /** A loop left to run alone completes: read, swap. */
  lemma UncontendedCompletes(s: State, k: Kernel, join: bool)
    requires PcOf(s, k).Idle?
    ensures var s' := Exec(s, [Begin(k, join), Tick(k), Tick(k)]);
      PcOf(s', k).Idle? && Joined(s'.done, k) == join && s'.word == Update(s.word, k, join)
  {
    var acts := [Begin(k, join), Tick(k), Tick(k)];
    assert acts[..2] == [Begin(k, join), Tick(k)];
    assert acts[..2][..1] == [Begin(k, join)];
    assert acts[..2][..1][..0] == [];
    var s1 := Next(s, Begin(k, join));
    var s2 := Next(s1, Tick(k));
    assert Exec(s, acts[..2][..1]) == s1 && PcOf(s1, k) == Read(join);
    assert Exec(s, acts[..2]) == s2 && PcOf(s2, k) == Swap(join, s.word);
    assert Exec(s, acts) == Next(s2, Tick(k));
  }
}
