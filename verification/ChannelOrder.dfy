/** What mkct_recv returns, against what was submitted: nothing invented, doubled or reordered. */
module ChannelOrder {
  import opened Basics
  import opened Channel
  import opened ChannelSystem
  import R = RingQueue
  import I = RingInvariant

  /** `a` is `b` with some messages left out; `at` says where each message of `a` stands in `b`. */
  ghost predicate Picks(at: seq<nat>, a: seq<Msg>, b: seq<Msg>) {
    && |at| == |a|
    && (forall j :: 0 <= j < |at| ==> at[j] < |b| && a[j] == b[at[j]])
    && (forall i, j :: 0 <= i < j < |at| ==> at[i] < at[j])
  }

  lemma PicksPrefix(at: seq<nat>, a: seq<Msg>, b: seq<Msg>, a': seq<Msg>) returns (r: seq<nat>)
    requires Picks(at, a, b) && a' <= a
    ensures Picks(r, a', b)
  {
    r := at[..|a'|];
  }

  lemma PicksWider(at: seq<nat>, a: seq<Msg>, b: seq<Msg>, b': seq<Msg>)
    requires Picks(at, a, b) && b <= b'
    ensures Picks(at, a, b')
  {
  }

  lemma PicksBoth(at: seq<nat>, a: seq<Msg>, b: seq<Msg>, m: Msg)
    requires Picks(at, a, b)
    ensures Picks(at + [|b|], a + [m], b + [m])
  {
  }

  /** Picking twice, and then only the first messages, is picking. */
  lemma PicksThrough(at: seq<nat>, a: seq<Msg>, via: seq<nat>, b: seq<Msg>, d: seq<Msg>, a': seq<Msg>)
      returns (r: seq<nat>)
    requires Picks(at, a, b) && Picks(via, b, d) && a' <= a
    ensures Picks(r, a', d)
  {
    r := seq(|a'|, j requires 0 <= j < |a'| => via[at[j]]);
    forall j | 0 <= j < |a'|
      ensures r[j] < |d| && a'[j] == d[r[j]]
    {
      assert a'[j] == a[j] == b[at[j]] && b[at[j]] == d[via[at[j]]];
    }
  }

  // From the ring's accepted messages to mkct_recv.

  lemma {:induction false} KeptPicks(ms: seq<Msg>, flags: seq<bool>, ch: nat) returns (at: seq<nat>)
    requires |flags| <= |ms|
    ensures Picks(at, OnChannel(I.Kept(ms, flags), ch), OnChannel(ms[..|flags|], ch))
    decreases |flags|
  {
    if flags == [] {
      at := [];
    } else {
      var i := |flags| - 1;
      at := KeptPicks(ms, flags[..i], ch);
      var kept, seen := I.Kept(ms, flags[..i]), ms[..i];
      assert ms[..i + 1] == seen + [ms[i]];
      OnChannelAppend(seen, ms[i], ch);
      OnChannelAppend(kept, ms[i], ch);
      assert kept + [] == kept;
      hide OnChannel, Picks;
      if ChannelOf(ms[i]) == ch && flags[i] {
        PicksBoth(at, OnChannel(kept, ch), OnChannel(seen, ch), ms[i]);
        at := at + [|OnChannel(seen, ch)|];
      } else {
        PicksWider(at, OnChannel(kept, ch), OnChannel(seen, ch), OnChannel(ms[..i + 1], ch));
      }
    }
  }

  lemma KeptPicksAll(ms: seq<Msg>, flags: seq<bool>, ch: nat) returns (at: seq<nat>)
    requires |flags| <= |ms|
    ensures Picks(at, OnChannel(I.Kept(ms, flags), ch), OnChannel(ms, ch))
  {
    hide OnChannel, Picks;
    at := KeptPicks(ms, flags, ch);
    assert ms[..|flags|] + ms[|flags|..] == ms;
    OnChannelPrefix(ms[..|flags|], ms[|flags|..], ch);
    PicksWider(at, OnChannel(I.Kept(ms, flags), ch), OnChannel(ms[..|flags|], ch), OnChannel(ms, ch));
  }

  lemma GotWereAccepted(kernels: nat, c: R.Config, acts: seq<Action>, src: nat, dst: nat, ch: nat)
      returns (at: seq<nat>)
    requires R.ValidConfig(c) && I.Divides(c)
    requires src < kernels && dst < kernels && src != dst && Supported(ch)
    ensures var s := Exec(kernels, c, acts);
      Picks(at, FromPeer(s.ends[dst].got[ch], src), OnChannel(s.rings[(src, dst)].h.accepted, ch))
  {
    EndToEnd(kernels, c, acts, src, dst, ch);
    hide Exec, Sound, R.Shaped, I.Divides, FromPeer, OnChannel, Picks, I.Kept;
    var s := Exec(kernels, c, acts);
    var h, flags := s.rings[(src, dst)].h, s.nodes[(src, dst)];
    var delivered := I.Kept(h.accepted, h.kept);
    var via := KeptPicksAll(h.accepted, h.kept, ch);
    at := KeptPicksAll(delivered, flags, ch);
    var log := OnChannel(I.Kept(delivered, flags), ch);
    at := PicksThrough(at, log, via, OnChannel(delivered, ch), OnChannel(h.accepted, ch),
                       FromPeer(s.ends[dst].got[ch], src));
  }

  // From mkct_send to the ring's accepted messages.

  /** The messages of every call mkct_send(dst, ch, m) of `src`, accepted or refused. */
  function Submitted(acts: seq<Action>, src: nat, dst: nat, ch: nat): (r: seq<Msg>) {
    if acts == [] then []
    else
      var i := |acts| - 1;
      var a := acts[i];
      Submitted(acts[..i], src, dst, ch)
      + (if a.Submit? && a.src == src && a.dst == dst && a.ch == ch then [a.m] else [])
  }

  /** What the ring accepted, and the message it is about to accept or refuse. */
  function Entered(r: R.State): (ms: seq<Msg>) {
    r.h.accepted + (if r.tx.pc.TxIdle? then [] else [r.tx.pc.msg])
  }

  lemma EnteredNext(c: R.Config, r: R.State, a: R.Action)
    requires R.Shaped(c, r)
    ensures var t, t' := Entered(r), Entered(R.Next(c, r, a));
      t' <= t || (a.Send? && t' == t + [a.msg])
  {
    var r' := R.Next(c, r, a);
    if r.tx.pc.TxIdle? {
      assert Entered(r) == r.h.accepted && r'.h.accepted == r.h.accepted;
    }
  }

  lemma EnteredStep(kernels: nat, c: R.Config, s: System, a: Action, src: nat, dst: nat)
    requires Shaped(kernels, c, s) && (src, dst) in Pairs(kernels) && (src, dst) in Next(kernels, c, s, a).rings
    ensures var t, t' := Entered(s.rings[(src, dst)]), Entered(Next(kernels, c, s, a).rings[(src, dst)]);
      t' <= t || (a.Submit? && a.src == src && a.dst == dst && a.ch == ChannelOf(a.m) && t' == t + [a.m])
  {
    hide R.Shaped, R.Next, Entered, Handed, EndShaped, ValidMessage;
    var r := s.rings[(src, dst)];
    match a {
      case Submit(x, y, ch, m) => EnteredNext(c, r, R.Send(m));
      case RingStep(x, y, ra, _) => EnteredNext(c, r, ra);
      case Receive(_, _) =>
    }
  }

  lemma PicksStep(at: seq<nat>, t: seq<Msg>, t': seq<Msg>, acts: seq<Action>, src: nat, dst: nat, ch: nat)
      returns (r: seq<nat>)
    requires acts != [] && var i := |acts| - 1; var a := acts[i];
      && Picks(at, OnChannel(t, ch), Submitted(acts[..i], src, dst, ch))
      && (t' <= t || (a.Submit? && a.src == src && a.dst == dst && a.ch == ChannelOf(a.m) && t' == t + [a.m]))
    ensures Picks(r, OnChannel(t', ch), Submitted(acts, src, dst, ch))
  {
    hide Picks, OnChannel;
    var before, after := Submitted(acts[..|acts| - 1], src, dst, ch), Submitted(acts, src, dst, ch);
    if t' <= t {
      OnChannelPrefix(t', t[|t'|..], ch);
      assert t' + t[|t'|..] == t;
      r := PicksPrefix(at, OnChannel(t, ch), before, OnChannel(t', ch));
      PicksWider(r, OnChannel(t', ch), before, after);
    } else {
      var m := acts[|acts| - 1].m;
      OnChannelAppend(t, m, ch);
      if ChannelOf(m) == ch {
        PicksBoth(at, OnChannel(t, ch), before, m);
        r := at + [|before|];
      } else {
        assert after == before && OnChannel(t', ch) == OnChannel(t, ch);
        r := at;
      }
    }
  }

  lemma {:induction false} EnteredWereSubmitted(kernels: nat, c: R.Config, acts: seq<Action>,
                                                src: nat, dst: nat, ch: nat) returns (at: seq<nat>)
    requires R.ValidConfig(c) && (src, dst) in Pairs(kernels)
    ensures Picks(at, OnChannel(Entered(Exec(kernels, c, acts).rings[(src, dst)]), ch), Submitted(acts, src, dst, ch))
    decreases |acts|
  {
    if acts == [] {
      at := [];
    } else {
      var i := |acts| - 1;
      at := EnteredWereSubmitted(kernels, c, acts[..i], src, dst, ch);
      var s, s' := Exec(kernels, c, acts[..i]), Exec(kernels, c, acts);
      hide Sound, Entered, Picks, OnChannel, R.Shaped, Next;
      EnteredStep(kernels, c, s, acts[i], src, dst);
      at := PicksStep(at, Entered(s.rings[(src, dst)]), Entered(s'.rings[(src, dst)]), acts, src, dst, ch);
    }
  }

  /**
   In every run what mkct_recv returned from `src` on a channel is what mkct_send of `src` was called
   with for that kernel and channel, in the order of those calls, each call at most once.
  */
  lemma ReturnedWereSubmitted(kernels: nat, c: R.Config, acts: seq<Action>, src: nat, dst: nat, ch: nat)
      returns (at: seq<nat>)
    requires R.ValidConfig(c) && I.Divides(c)
    requires src < kernels && dst < kernels && src != dst && Supported(ch)
    ensures Picks(at, FromPeer(Exec(kernels, c, acts).ends[dst].got[ch], src), Submitted(acts, src, dst, ch))
  {
    hide Exec, Sound, I.Divides, FromPeer, OnChannel, Picks, Submitted;
    var r := Exec(kernels, c, acts).rings[(src, dst)];
    var first := GotWereAccepted(kernels, c, acts, src, dst, ch);
    var second := EnteredWereSubmitted(kernels, c, acts, src, dst, ch);
    OnChannelPrefix(r.h.accepted, Entered(r)[|r.h.accepted|..], ch);
    assert r.h.accepted + Entered(r)[|r.h.accepted|..] == Entered(r);
    var got := FromPeer(Exec(kernels, c, acts).ends[dst].got[ch], src);
    PicksWider(first, got, OnChannel(r.h.accepted, ch), OnChannel(Entered(r), ch));
    at := PicksThrough(first, got, second, OnChannel(Entered(r), ch), Submitted(acts, src, dst, ch), got);
  }
}
