/**
 What the queue keeps for every desc_num that initialisation accepts, dividing 2^16 or not: the
 sender's bookkeeping adds up, and the receiver's range check and length clamp never act.
*/
module RingSafety {
  import opened Basics
  import opened RingQueue
  import opened RingInvariant
  import T = RingTheorems

  predicate InRange(c: Config, sh: Shared, rx: RxPc) {
    && (forall i :: 0 <= i < |sh.availRing| ==> sh.availRing[i] < c.n)
    && (forall i :: 0 <= i < |sh.len| ==> sh.len[i] <= c.msgSize)
    && (rx.RxLen? ==> rx.id < c.n)
  }

  ghost predicate Safe(c: Config, s: State) {
    Shaped(c, s) && Books(c.n, s.tx) && InRange(c, s.sh, s.rx.pc) && AgainNoBit !in s.h.results
  }

  lemma InitSafe(c: Config)
    requires ValidConfig(c)
    ensures Safe(c, Init(c))
  {
  }

  lemma BooksMove(n: nat, tx: Tx, tx': Tx, id: nat)
    requires Books(n, tx) && id < n
    requires
      || (tx'.inflight == tx.inflight && tx'.freeCnt == tx.freeCnt)
      || (id in tx.inflight && tx'.inflight == tx.inflight - {id} && tx'.freeCnt == tx.freeCnt + 1)
      || (id !in tx.inflight && tx'.inflight == tx.inflight + {id} && tx'.freeCnt == tx.freeCnt - 1)
    ensures Books(n, tx')
  {
  }

  lemma ReclaimKeepsBooks(c: Config, s: State)
    requires Shaped(c, s) && s.tx.pc.TxReclaim? && Books(c.n, s.tx)
    ensures Books(c.n, TxReclaimOne(c, s).tx) && TxReclaimOne(c, s).h.results == s.h.results
  {
    var id := s.sh.usedRing[SlotOf(c, s.tx.lastUsed)].id;
    assert c.n > 0;
    hide Shaped, Wrap, SlotOf, Books;
    BooksMove(c.n, s.tx, TxReclaimOne(c, s).tx, if id < c.n then id else 0);
  }

  lemma ClaimKeepsBooks(c: Config, s: State)
    requires Shaped(c, s) && s.tx.pc.TxReclaim? && Books(c.n, s.tx)
    ensures Books(c.n, TxClaim(c, s).tx)
    ensures TxClaim(c, s).h.results == s.h.results || TxClaim(c, s).h.results == s.h.results + [AgainNoFree]
  {
    assert c.n > 0;
    hide Shaped, FirstZero, Books;
    FreeMeansZeroBit(c.n, s.tx);
    BooksMove(c.n, s.tx, TxClaim(c, s).tx, if s.tx.freeCnt == 0 then 0 else FirstZero(s.tx.inflight, c.n, 0));
  }

  lemma TxKeepsBooks(c: Config, s: State)
    requires Safe(c, s)
    ensures Books(c.n, TxNext(c, s).tx) && AgainNoBit !in TxNext(c, s).h.results
  {
    if s.tx.pc.TxReclaim? {
      hide InRange, Books, TxReclaimOne, TxClaim;
      if s.tx.lastUsed != s.tx.pc.used {
        ReclaimKeepsBooks(c, s);
      } else {
        ClaimKeepsBooks(c, s);
      }
    } else {
      assert c.n > 0;
      hide Shaped, InRange, Wrap, Books, TxReclaimOne, TxClaim;
      BooksMove(c.n, s.tx, TxNext(c, s).tx, 0);
    }
  }

  lemma TxKeepsRange(c: Config, s: State)
    requires Shaped(c, s) && InRange(c, s.sh, s.rx.pc)
    ensures InRange(c, TxNext(c, s).sh, TxNext(c, s).rx.pc)
  {
    hide Wrap, FirstZero;
  }

  lemma RxKeepsRange(c: Config, s: State, alloc: bool)
    requires Shaped(c, s) && InRange(c, s.sh, s.rx.pc)
    ensures InRange(c, RxNext(c, s, alloc).sh, RxNext(c, s, alloc).rx.pc)
    ensures RxNext(c, s, alloc).tx == s.tx && RxNext(c, s, alloc).h.results == s.h.results
  {
    hide Wrap;
  }

  lemma NextSafe(c: Config, s: State, a: Action)
    requires Safe(c, s)
    ensures Safe(c, Next(c, s, a))
  {
    ShapedNext(c, s, a);
    hide Shaped, TxNext, RxNext;
    match a {
      case TxTick =>
        TxKeepsBooks(c, s);
        TxKeepsRange(c, s);
      case RxTick(alloc) => RxKeepsRange(c, s, alloc);
      case _ =>
    }
  }

  lemma {:induction false} ExecSafe(c: Config, s: State, acts: seq<Action>)
    requires Shaped(c, s) && Safe(c, s)
    ensures Safe(c, T.Exec(c, s, acts))
    decreases |acts|
  {
    hide Safe, Next, Shaped;
    if acts != [] {
      NextSafe(c, s, acts[0]);
      ShapedNext(c, s, acts[0]);
      ExecSafe(c, Next(c, s, acts[0]), acts[1..]);
    }
  }

  lemma ReachableSafe(c: Config, acts: seq<Action>)
    requires ValidConfig(c)
    ensures Safe(c, T.Exec(c, Init(c), acts))
  {
    InitSafe(c);
    ExecSafe(c, Init(c), acts);
  }

  /** In no reachable state does the receiver meet an identifier out of range or a length the clamp would change. */
  lemma ClampNeverActs(c: Config, acts: seq<Action>)
    requires ValidConfig(c)
    ensures var s := T.Exec(c, Init(c), acts);
      s.rx.pc.RxLen? ==> s.rx.pc.id < c.n && s.sh.len[s.rx.pc.id] <= c.msgSize
  {
    ReachableSafe(c, acts);
  }

  /** In every reachable state the free count and the in-flight bits add up, and the second -EAGAIN never happened. */
  lemma FreeCountExact(c: Config, acts: seq<Action>)
    requires ValidConfig(c)
    ensures var s := T.Exec(c, Init(c), acts);
      s.tx.inflight <= Range(c.n) && s.tx.freeCnt + |s.tx.inflight| == c.n && AgainNoBit !in s.h.results
  {
    ReachableSafe(c, acts);
  }

  /**
   In every run a sender that has reclaimed is refused exactly if every descriptor's bit is set;
   otherwise it claims a clear one.
  */
  lemma RefusedMeansAllInFlight(c: Config, acts: seq<Action>)
    requires ValidConfig(c)
    requires var s := T.Exec(c, Init(c), acts); s.tx.pc.TxReclaim? && s.tx.lastUsed == s.tx.pc.used
    ensures var s := T.Exec(c, Init(c), acts);
      var s' := TxNext(c, s);
      && (s'.tx.pc.TxIdle? <==> s.tx.inflight == Range(c.n))
      && (s'.tx.pc.TxIdle? ==> s'.h.results == s.h.results + [AgainNoFree])
      && (!s'.tx.pc.TxIdle? ==> s'.tx.pc.id < c.n && s'.tx.pc.id !in s.tx.inflight)
  {
    ReachableSafe(c, acts);
    hide T.Exec, Init, Shaped, InRange, FirstZero;
    FreeMeansZeroBit(c.n, T.Exec(c, Init(c), acts).tx);
  }
}
