/** Copying a guest's container log to the host: the guest's bounded reader and the host's polling loop. */
module LogSync {
  import opened Basics

  const CHUNK := 384
  const READS := 128
  const PER_CALL := 49152

  type Bytes = seq<byte>

  datatype Outcome =
    | Reply(nread: nat)        // pread returned (at most) this many bytes
    | NoReply                  // the client returned no chunk and no error
    | ReadError                // the request failed
    | WriteError(done: nat)    // the host's file took this many bytes and then failed

  /**
   What one read meets: the state the guest looked up before it opened the file, the log file as it
   was when its size was taken, and how the read went.
  */
  datatype Observation = Observation(exited: bool, present: bool, log: Bytes, outcome: Outcome)

  datatype Chunk = Chunk(next: nat, data: Bytes, eof: bool)

  /** mkga_containerd_read_log. */
  function ReadLog(o: Observation, offset: nat, maxBytes: nat): (c: Chunk)
    ensures |c.data| <= CHUNK
  {
    if !o.present then Chunk(offset, [], o.exited)
    else
      var from := if offset > |o.log| then |o.log| else offset;
      var limit := if maxBytes == 0 || maxBytes > CHUNK then CHUNK else maxBytes;
      var toRead := if |o.log| - from > limit then limit else |o.log| - from;
      var nread := if o.outcome.Reply? && o.outcome.nread < toRead then o.outcome.nread else toRead;
      Chunk(from + nread, o.log[from..from + nread], from + nread >= |o.log| && o.exited)
  }

  function Min(a: nat, b: nat): nat {
    if a < b then a else b
  }

  /**
   The slice of the log that ends at the next offset: all that is left, cut to what was asked for, to
   384 bytes and to what pread returned.
  */
  lemma ReadLogExact(o: Observation, offset: nat, maxBytes: nat)
    ensures var c := ReadLog(o, offset, maxBytes);
      && (o.present ==>
            var asked := if maxBytes == 0 then CHUNK else Min(maxBytes, CHUNK);
            var whole := Min(|o.log| - Min(offset, |o.log|), asked);
            |c.data| == if o.outcome.Reply? then Min(whole, o.outcome.nread) else whole)
      && |c.data| <= CHUNK && (0 < maxBytes ==> |c.data| <= maxBytes)
      && (o.present ==> |c.data| <= c.next <= |o.log| && c.data == o.log[c.next - |c.data|..c.next])
      && (o.present ==> (c.eof <==> o.exited && c.next == |o.log|))
      && (offset <= |o.log| ==> c.next == offset + |c.data|)
      && (!o.present ==> c == Chunk(offset, [], o.exited))
  {
  }

  datatype Pass = Done(file: Bytes, cur: nat, eof: bool) | Failed(file: Bytes)

  /** The polling loop of SyncContainerLogs, one read per observation. */
  function Loop(file: Bytes, cur: nat, eof: bool, obs: seq<Observation>): (r: Pass)
    decreases |obs|
  {
    if obs == [] || obs[0].outcome.NoReply? then Done(file, cur, eof)
    else if obs[0].outcome.ReadError? then Failed(file)
    else
      var c := ReadLog(obs[0], cur, CHUNK);
      if obs[0].outcome.WriteError? && c.data != [] then
        Failed(file + c.data[..if obs[0].outcome.done < |c.data| then obs[0].outcome.done else |c.data|])
      else if !(c.next > cur) || c.data == [] || c.eof then Done(file + c.data, c.next, c.eof)
      else Loop(file + c.data, c.next, c.eof, obs[1..])
  }

  /** The host's file with the saved offset and end mark; `extra` counts what failing calls had appended. */
  datatype Host = Host(file: Bytes, offset: nat, eof: bool, extra: nat)

  function Fresh(): Host {
    Host([], 0, false, 0)
  }

  /** One call of SyncContainerLogs; a failure returns without saving the offset. */
  function Sync(h: Host, obs: seq<Observation>): (h': Host) {
    if h.eof then h
    else
      match Loop(h.file, h.offset, false, obs)
      case Done(file, cur, eof) => Host(file, cur, eof, h.extra)
      case Failed(file) => h.(file := file, extra := if |file| > |h.file| then h.extra + |file| - |h.file| else h.extra)
  }

  function Run(calls: seq<seq<Observation>>): (h: Host) {
    if calls == [] then Fresh() else Sync(Run(calls[..|calls| - 1]), calls[|calls| - 1])
  }

  // What the guest promises of the log.

  /** An append-only log that starts at `base` and has become `last` by the end of the call. */
  predicate Grows(base: Bytes, obs: seq<Observation>, last: Bytes)
    decreases |obs|
  {
    if obs == [] then base <= last
    else base <= obs[0].log && (!obs[0].present ==> obs[0].log == []) && Grows(obs[0].log, obs[1..], last)
  }

  /** The same over a whole run of non-overlapping calls. */
  ghost predicate GrowsOver(calls: seq<seq<Observation>>, last: Bytes)
    decreases |calls|
  {
    if calls == [] then true
    else
      var i := |calls| - 1;
      var before, call := calls[..i], calls[i];
      exists mid :: GrowsOver(before, mid) && Grows(mid, call, last)
  }

  /** EXITED was recorded only once the log was what it finally is. */
  predicate ExitsLast(obs: seq<Observation>, final: Bytes) {
    forall o :: o in obs && o.exited ==> o.log == final
  }

  lemma {:induction false} GrowsPrefix(base: Bytes, obs: seq<Observation>, last: Bytes)
    requires Grows(base, obs, last)
    ensures base <= last
    decreases |obs|
  {
    if obs != [] {
      GrowsPrefix(obs[0].log, obs[1..], last);
    }
  }

  lemma ReadIsSlice(o: Observation, cur: nat, base: Bytes, last: Bytes)
    requires cur <= |base| && base <= o.log <= last && (!o.present ==> o.log == [])
    ensures var c := ReadLog(o, cur, CHUNK);
      && cur <= c.next <= |o.log|
      && c.data == last[cur..c.next]
      && (c.eof ==> o.exited && c.next == |o.log|)
  {
  }

  lemma Slices(file: Bytes, log: Bytes, a: nat, b: nat, c: nat)
    requires a <= b <= c <= |log|
    ensures file + log[a..b] + log[b..c] == file + log[a..c]
  {
    assert log[a..c] == log[a..b] + log[b..c];
  }

  /** A pass that finishes has appended exactly the log between the two offsets; one that fails only appends. */
  lemma {:induction false} LoopCopies(file: Bytes, cur: nat, eof: bool, obs: seq<Observation>, base: Bytes, last: Bytes)
    requires Grows(base, obs, last) && cur <= |base|
    ensures var r := Loop(file, cur, eof, obs);
      && base <= last
      && file <= r.file
      && (r.Done? ==> cur <= r.cur <= |last| && r.file == file + last[cur..r.cur])
    decreases |obs|
  {
    GrowsPrefix(base, obs, last);
    if obs != [] && !obs[0].outcome.NoReply? && !obs[0].outcome.ReadError? {
      GrowsPrefix(obs[0].log, obs[1..], last);
      ReadIsSlice(obs[0], cur, base, last);
      hide ReadLog;
      var c := ReadLog(obs[0], cur, CHUNK);
      var failed := obs[0].outcome.WriteError? && c.data != [];
      if !failed && c.next > cur && c.data != [] && !c.eof {
        LoopCopies(file + c.data, c.next, c.eof, obs[1..], obs[0].log, last);
        var r := Loop(file + c.data, c.next, c.eof, obs[1..]);
        assert Loop(file, cur, eof, obs) == r;
        hide Loop;
        if r.Done? {
          Slices(file, last, cur, c.next, r.cur);
        }
      }
    }
  }

  /** The read that ends the pass with the end mark, if one does, sees the final log. */
  predicate MarkFinal(cur: nat, obs: seq<Observation>, final: Bytes)
    decreases |obs|
  {
    if obs == [] || obs[0].outcome.NoReply? || obs[0].outcome.ReadError? then true
    else
      var c := ReadLog(obs[0], cur, CHUNK);
      if obs[0].outcome.WriteError? && c.data != [] then true
      else if c.eof then obs[0].log == final
      else if !(c.next > cur) || c.data == [] then true
      else MarkFinal(c.next, obs[1..], final)
  }

  lemma {:induction false} LoopMark(file: Bytes, cur: nat, obs: seq<Observation>, base: Bytes, final: Bytes)
    requires Grows(base, obs, final) && cur <= |base|
    ensures var r := Loop(file, cur, false, obs);
      r.Done? && r.eof ==> (r.cur == |final| <==> MarkFinal(cur, obs, final))
    decreases |obs|
  {
    if obs != [] && !obs[0].outcome.NoReply? && !obs[0].outcome.ReadError? {
      GrowsPrefix(obs[0].log, obs[1..], final);
      ReadIsSlice(obs[0], cur, base, final);
      hide ReadLog;
      var c := ReadLog(obs[0], cur, CHUNK);
      if !(obs[0].outcome.WriteError? && c.data != []) && c.next > cur && c.data != [] && !c.eof {
        LoopMark(file + c.data, c.next, obs[1..], obs[0].log, final);
      }
    }
  }

  /** Bytes were appended and a failed read, or a write that failed after some bytes, comes before the loop stops. */
  predicate Tears(cur: nat, appended: bool, obs: seq<Observation>)
    decreases |obs|
  {
    if obs == [] || obs[0].outcome.NoReply? then false
    else if obs[0].outcome.ReadError? then appended
    else
      var c := ReadLog(obs[0], cur, CHUNK);
      if obs[0].outcome.WriteError? && c.data != [] then appended || obs[0].outcome.done > 0
      else if !(c.next > cur) || c.data == [] || c.eof then false
      else Tears(c.next, true, obs[1..])
  }

  lemma {:induction false} TearsIff(file: Bytes, cur: nat, eof: bool, obs: seq<Observation>, before: Bytes)
    requires |before| <= |file|
    ensures var r := Loop(file, cur, eof, obs);
      Tears(cur, |before| < |file|, obs) <==> r.Failed? && |before| < |r.file|
    decreases |obs|
  {
    if obs != [] && !obs[0].outcome.NoReply? && !obs[0].outcome.ReadError? {
      hide ReadLog;
      var c := ReadLog(obs[0], cur, CHUNK);
      if !(obs[0].outcome.WriteError? && c.data != []) && c.next > cur && c.data != [] && !c.eof {
        TearsIff(file + c.data, c.next, c.eof, obs[1..], before);
      }
    }
  }

  ghost predicate Consistent(h: Host, log: Bytes) {
    && h.offset <= |log|
    && |h.file| == h.offset + h.extra
    && (h.extra == 0 ==> h.file == log[..h.offset])
  }

  lemma PrefixAgrees(base: Bytes, last: Bytes, n: nat)
    requires base <= last && n <= |base|
    ensures base[..n] == last[..n]
  {
  }

  lemma SyncConsistent(h: Host, obs: seq<Observation>, base: Bytes, last: Bytes)
    requires Consistent(h, base) && Grows(base, obs, last)
    ensures Consistent(Sync(h, obs), last)
  {
    hide Loop, Grows;
    LoopCopies(h.file, h.offset, false, obs, base, last);
    PrefixAgrees(base, last, h.offset);
    var r := Loop(h.file, h.offset, false, obs);
    if r.Done? {
      Slices([], last, 0, h.offset, r.cur);
      assert last[0..h.offset] == last[..h.offset] && last[0..r.cur] == last[..r.cur];
    }
  }

  lemma {:induction false} RunConsistent(calls: seq<seq<Observation>>, log: Bytes)
    requires GrowsOver(calls, log)
    ensures Consistent(Run(calls), log)
    decreases |calls|
  {
    if calls != [] {
      var mid :| GrowsOver(calls[..|calls| - 1], mid) && Grows(mid, calls[|calls| - 1], log);
      RunConsistent(calls[..|calls| - 1], mid);
      SyncConsistent(Run(calls[..|calls| - 1]), calls[|calls| - 1], mid, log);
    }
  }

  /** No call of the run, started at the offset saved before it, tears. */
  predicate NeverTorn(calls: seq<seq<Observation>>)
    decreases |calls|
  {
    if calls == [] then true
    else
      var i := |calls| - 1;
      var h := Run(calls[..i]);
      NeverTorn(calls[..i]) && (h.eof || !Tears(h.offset, false, calls[i]))
  }

  lemma {:induction false} ExtraCountsTears(calls: seq<seq<Observation>>)
    ensures Run(calls).extra == 0 <==> NeverTorn(calls)
    decreases |calls|
  {
    if calls != [] {
      var i := |calls| - 1;
      ExtraCountsTears(calls[..i]);
      var h := Run(calls[..i]);
      TearsIff(h.file, h.offset, false, calls[i], h.file);
      hide Loop, Tears;
    }
  }

  /** After any run the file is the log up to the saved offset exactly if no call of the run tears. */
  lemma FileIsLogIff(calls: seq<seq<Observation>>, log: Bytes)
    requires GrowsOver(calls, log)
    ensures var h := Run(calls);
      h.offset <= |log| && (h.file == log[..h.offset] <==> NeverTorn(calls))
  {
    RunConsistent(calls, log);
    ExtraCountsTears(calls);
  }

  lemma TwoCalls(a: seq<Observation>, b: seq<Observation>)
    ensures Run([a, b]) == Sync(Sync(Fresh(), a), b)
  {
    var first: seq<seq<Observation>> := [a];
    var both := [a, b];
    assert both[..1] == first && first[..0] == [];
    assert Run(first) == Sync(Run(first[..0]), first[0]);
    assert Run(both) == Sync(Run(both[..1]), both[1]);
  }

  /** One failed read after a good one already leaves bytes that the next call appends again. */
  lemma FailureDuplicates(log: Bytes)
    requires CHUNK < |log| <= 2 * CHUNK
    ensures var broken := [Observation(false, true, log, Reply(CHUNK)), Observation(false, true, log, ReadError)];
      var good := [Observation(false, true, log, Reply(CHUNK)), Observation(false, true, log, Reply(CHUNK))];
      var h := Run([broken, good]);
      h.offset == |log| && |h.file| == |log| + CHUNK
  {
    var full := Observation(false, true, log, Reply(CHUNK));
    var broken := [full, Observation(false, true, log, ReadError)];
    var good := [full, full];
    var data := log[..CHUNK];
    assert ReadLog(full, 0, CHUNK) == Chunk(CHUNK, data, false);
    assert ReadLog(full, CHUNK, CHUNK) == Chunk(|log|, log[CHUNK..], false);
    hide ReadLog;
    assert broken[1..][0].outcome.ReadError? && good[1..] == [full] && [full][1..] == [];
    assert Loop([], 0, false, broken) == Loop([] + data, CHUNK, false, broken[1..]) == Failed([] + data);
    var twice := [] + data + data;
    assert Loop([] + data, 0, false, good) == Loop(twice, CHUNK, false, [full]);
    assert Loop(twice, CHUNK, false, [full]) == Loop(twice + log[CHUNK..], |log|, false, []);
    hide Loop;
    TwoCalls(broken, good);
  }

  /** The call that saved the end mark, if one did, read it from the final log. */
  predicate MarkFinalOver(calls: seq<seq<Observation>>, final: Bytes)
    decreases |calls|
  {
    if calls == [] then true
    else
      var i := |calls| - 1;
      var h := Run(calls[..i]);
      if h.eof then MarkFinalOver(calls[..i], final) else MarkFinal(h.offset, calls[i], final)
  }

  lemma {:induction false} GrowsExtends(base: Bytes, obs: seq<Observation>, last: Bytes, final: Bytes)
    requires Grows(base, obs, last) && last <= final
    ensures Grows(base, obs, final)
    decreases |obs|
  {
    if obs != [] {
      GrowsExtends(obs[0].log, obs[1..], last, final);
    }
  }

  lemma {:induction false} MarkIsEnd(calls: seq<seq<Observation>>, last: Bytes, final: Bytes)
    requires GrowsOver(calls, last) && last <= final
    ensures Run(calls).eof ==> (Run(calls).offset == |final| <==> MarkFinalOver(calls, final))
    decreases |calls|
  {
    if calls != [] {
      var i := |calls| - 1;
      var mid :| GrowsOver(calls[..i], mid) && Grows(mid, calls[i], last);
      GrowsPrefix(mid, calls[i], last);
      MarkIsEnd(calls[..i], mid, final);
      RunConsistent(calls[..i], mid);
      GrowsExtends(mid, calls[i], last, final);
      var h := Run(calls[..i]);
      if !h.eof {
        LoopMark(h.file, h.offset, calls[i], mid, final);
      }
    }
  }

  /**
   Once the end mark is saved, the whole final log was read exactly if the read that set the mark saw
   the final log; and then, without a torn call, the file is the final log.
  */
  lemma EofMeansWholeIff(calls: seq<seq<Observation>>, final: Bytes)
    requires GrowsOver(calls, final)
    ensures var h := Run(calls);
      h.eof ==>
        && (h.offset == |final| <==> MarkFinalOver(calls, final))
        && (NeverTorn(calls) ==> (h.file == final <==> MarkFinalOver(calls, final)))
  {
    MarkIsEnd(calls, final, final);
    RunConsistent(calls, final);
    ExtraCountsTears(calls);
    assert final[..|final|] == final;
  }

  /** EXITED is recorded only after the log is final, over a whole run. */
  ghost predicate ExitsLastOver(calls: seq<seq<Observation>>, final: Bytes) {
    forall i :: 0 <= i < |calls| ==> ExitsLast(calls[i], final)
  }

  lemma {:induction false} ExitsLastMarks(cur: nat, obs: seq<Observation>, final: Bytes)
    requires ExitsLast(obs, final)
    ensures MarkFinal(cur, obs, final)
    decreases |obs|
  {
    if obs != [] && !obs[0].outcome.NoReply? && !obs[0].outcome.ReadError? {
      ExitsLastMarks(ReadLog(obs[0], cur, CHUNK).next, obs[1..], final);
    }
  }

  lemma {:induction false} ExitsLastMarksOver(calls: seq<seq<Observation>>, final: Bytes)
    requires ExitsLastOver(calls, final)
    ensures MarkFinalOver(calls, final)
    decreases |calls|
  {
    if calls != [] {
      var i := |calls| - 1;
      ExitsLastMarksOver(calls[..i], final);
      ExitsLastMarks(Run(calls[..i]).offset, calls[i], final);
    }
  }

  /** In particular, if EXITED is recorded only once the log is final, the end mark means the whole log was read. */
  lemma EofMeansWhole(calls: seq<seq<Observation>>, final: Bytes)
    requires GrowsOver(calls, final) && ExitsLastOver(calls, final)
    ensures var h := Run(calls);
      h.eof ==> h.offset == |final| && (h.file == final <==> NeverTorn(calls))
  {
    EofMeansWholeIff(calls, final);
    ExitsLastMarksOver(calls, final);
    FileIsLogIff(calls, final);
    assert final[..|final|] == final;
  }

  /** Without that order the end mark can be saved while bytes are still missing, and no later call fetches them. */
  lemma EarlyExitLoses()
    ensures var early: seq<Observation> := [Observation(true, true, [1], Reply(CHUNK))];
      var later: seq<Observation> := [Observation(true, true, [1, 2], Reply(CHUNK))];
      GrowsOver([early, later], [1, 2]) && Run([early, later]) == Host([1], 1, true, 0)
  {
    var early: seq<Observation> := [Observation(true, true, [1], Reply(CHUNK))];
    var later: seq<Observation> := [Observation(true, true, [1, 2], Reply(CHUNK))];
    var both := [early, later];
    var first: seq<seq<Observation>> := [early];
    assert both[..1] == first && first[..0] == [];
    assert GrowsOver(first[..0], []) && Grows([], early, [1]);
    assert GrowsOver(first, [1]) && Grows([1], later, [1, 2]);
    TwoCalls(early, later);
    assert Loop([], 0, false, early) == Done([] + [1], 1, true);
  }

  // How many calls a finished container's log takes.

  function FullRead(log: Bytes): Observation {
    Observation(true, true, log, Reply(CHUNK))
  }

  function FullCall(log: Bytes): (obs: seq<Observation>)
    ensures |obs| == READS
  {
    seq(READS, i => FullRead(log))
  }

  lemma {:induction false} FullReads(file: Bytes, cur: nat, eof: bool, log: Bytes, obs: seq<Observation>)
    requires cur < |log| && obs != [] && forall i :: 0 <= i < |obs| ==> obs[i] == FullRead(log)
    ensures var r := Loop(file, cur, eof, obs);
      var end := Min(|log|, cur + CHUNK * |obs|);
      r == Done(file + log[cur..end], end, end == |log|)
    decreases |obs|
  {
    var c := ReadLog(obs[0], cur, CHUNK);
    assert c == Chunk(Min(|log|, cur + CHUNK), log[cur..Min(|log|, cur + CHUNK)], cur + CHUNK >= |log|);
    hide ReadLog;
    assert Loop(file, cur, eof, obs)
        == if c.next == |log| then Done(file + c.data, c.next, true) else Loop(file + c.data, c.next, false, obs[1..]);
    if c.next < |log| && |obs| > 1 {
      FullReads(file + c.data, c.next, false, log, obs[1..]);
      hide Loop;
      Slices(file, log, cur, c.next, Min(|log|, cur + CHUNK * |obs|));
    }
  }

  function Repeat(log: Bytes, k: nat): (calls: seq<seq<Observation>>) {
    seq(k, i => FullCall(log))
  }

  lemma NextCall(log: Bytes, mid: nat)
    requires mid <= |log|
    ensures var end := Min(|log|, mid + PER_CALL);
      Sync(Host(log[..mid], mid, mid == |log|, 0), FullCall(log)) == Host(log[..end], end, end == |log|, 0)
  {
    if mid < |log| {
      FullReads(log[..mid], mid, false, log, FullCall(log));
      hide Loop, FullCall;
      var end := Min(|log|, mid + PER_CALL);
      assert log[..end] == log[..mid] + log[mid..end];
    }
  }

  lemma FirstCall(log: Bytes)
    ensures var end := Min(|log|, PER_CALL);
      Sync(Fresh(), FullCall(log)) == Host(log[..end], end, end == |log|, 0)
  {
    if log != [] {
      NextCall(log, 0);
      assert log[..0] == [];
    } else {
      assert Loop([], 0, false, FullCall(log)) == Done([], 0, true);
    }
  }

  lemma {:induction false} AfterCalls(log: Bytes, k: nat)
    requires k > 0
    ensures var end := Min(|log|, PER_CALL * k);
      Run(Repeat(log, k)) == Host(log[..end], end, end == |log|, 0)
  {
    var calls := Repeat(log, k);
    assert calls[..k - 1] == Repeat(log, k - 1);
    var end := Min(|log|, PER_CALL * k);
    assert calls[k - 1] == FullCall(log);
    if k == 1 {
      FirstCall(log);
    } else {
      AfterCalls(log, k - 1);
      hide Run, Loop, FullCall, Repeat;
      NextCall(log, Min(|log|, PER_CALL * (k - 1)));
    }
  }

  /** With full reads a final log of n bytes is marked complete after exactly max(1, ceil(n / 49152)) calls. */
  lemma CallsNeeded(log: Bytes, k: nat)
    ensures Run(Repeat(log, k)).eof <==> k >= 1 && k >= (|log| + PER_CALL - 1) / PER_CALL
  {
    if k > 0 {
      AfterCalls(log, k);
    } else {
      assert Repeat(log, 0) == [];
    }
  }

  // The loop as the source runs it.

  class Synced {
    var file: Bytes
    var offset: nat
    var eof: bool
    ghost var extra: nat

    ghost function View(): Host
      reads this
    {
      Host(file, offset, eof, extra)
    }

    constructor ()
      ensures View() == Fresh()
    {
      file, offset, eof, extra := [], 0, false, 0;
    }

    method SyncContainerLogs(obs: seq<Observation>) returns (ok: bool)
      requires |obs| == READS
      modifies this
      ensures View() == Sync(old(View()), obs)
      ensures ok <==> old(eof) || Loop(old(file), old(offset), false, obs).Done?
    {
      if eof {
        return true;
      }
      ghost var whole := Loop(file, offset, false, obs);
      var cur, end := offset, false;
      var i := 0;
      while i < READS
        invariant 0 <= i <= READS
        invariant Loop(file, cur, end, obs[i..]) == whole
        invariant offset == old(offset) && eof == old(eof) && extra == old(extra)
        decreases READS - i
      {
        var o := obs[i];
        assert obs[i..][1..] == obs[i + 1..];
        if o.outcome.ReadError? {
          extra := if |file| > |old(file)| then extra + |file| - |old(file)| else extra;
          return false;
        }
        if o.outcome.NoReply? {
          break;
        }
        var c := ReadLog(o, cur, CHUNK);
        if |c.data| > 0 {
          if o.outcome.WriteError? {
            file := file + c.data[..if o.outcome.done < |c.data| then o.outcome.done else |c.data|];
            extra := if |file| > |old(file)| then extra + |file| - |old(file)| else extra;
            return false;
          }
          file := file + c.data;
        } else {
          assert file + c.data == file;
        }
        end := c.eof;
        var advanced := c.next > cur;
        cur := c.next;
        i := i + 1;
        if !advanced || |c.data| == 0 || end {
          assert whole == Done(file, cur, end);
          offset, eof := cur, end;
          return true;
        }
      }
      offset, eof := cur, end;
      return true;
    }
  }
}
