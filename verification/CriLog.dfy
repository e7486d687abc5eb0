/** Cutting a container's output into CRI log records. */
module CriLog {
  import opened Basics

  const BUFFER := 4096
  const NL: byte := 10

  type Bytes = seq<byte>

  datatype Tag = P | F
  datatype Record = Record(tag: Tag, payload: Bytes)

  /** One stream: the records written so far and the bytes held back. */
  datatype Stream = Stream(records: seq<Record>, pending: Bytes)

  /** mkga_cri_log_flush_pending; nothing is written for an empty buffer. */
  function Flush(st: Stream, tag: Tag): (r: Stream) {
    if st.pending == [] then st else Stream(st.records + [Record(tag, st.pending)], [])
  }

  function Feed(st: Stream, ch: byte): (r: Stream) {
    if ch == NL then Flush(st, F)
    else
      var s := if |st.pending| >= BUFFER then Flush(st, P) else st;
      s.(pending := s.pending + [ch])
  }

  /** mkga_cri_log_append_chunk. */
  function FeedAll(st: Stream, bytes: Bytes): (r: Stream)
    decreases |bytes|
  {
    if bytes == [] then st else FeedAll(Feed(st, bytes[0]), bytes[1..])
  }

  function FeedChunks(st: Stream, chunks: seq<Bytes>): (r: Stream)
    decreases |chunks|
  {
    if chunks == [] then st else FeedChunks(FeedAll(st, chunks[0]), chunks[1..])
  }

  /** Every record of a stream that arrived in these chunks and then ended. */
  function Emitted(chunks: seq<Bytes>): (rs: seq<Record>) {
    Flush(FeedChunks(Stream([], []), chunks), F).records
  }

  function Concat(chunks: seq<Bytes>): (b: Bytes) {
    if chunks == [] then [] else chunks[0] + Concat(chunks[1..])
  }

  // Lines, and the records of a line.

  function LinesFrom(cur: Bytes, s: Bytes): (ls: seq<Bytes>)
    decreases |s|
  {
    if s == [] then (if cur == [] then [] else [cur])
    else if s[0] == NL then (if cur == [] then [] else [cur]) + LinesFrom([], s[1..])
    else LinesFrom(cur + [s[0]], s[1..])
  }

  function NonEmptyLines(s: Bytes): (ls: seq<Bytes>) {
    LinesFrom([], s)
  }

  /** What is already written of an unfinished line, and what is held back. */
  function Blocks(line: Bytes): (r: seq<Record>) {
    if |line| <= BUFFER then [] else [Record(P, line[..BUFFER])] + Blocks(line[BUFFER..])
  }

  function Tail(line: Bytes): (r: Bytes)
    ensures |r| <= BUFFER && (line != [] ==> r != [])
  {
    if |line| <= BUFFER then line else Tail(line[BUFFER..])
  }

  function LineRecords(line: Bytes): (rs: seq<Record>) {
    Blocks(line) + [Record(F, Tail(line))]
  }

  function AllRecords(lines: seq<Bytes>): (rs: seq<Record>) {
    if lines == [] then [] else LineRecords(lines[0]) + AllRecords(lines[1..])
  }

  /** Joining P records to the F record that closes them. */
  function Join(acc: Bytes, rs: seq<Record>): (ls: seq<Bytes>)
    decreases |rs|
  {
    if rs == [] then []
    else if rs[0].tag.P? then Join(acc + rs[0].payload, rs[1..])
    else [acc + rs[0].payload] + Join([], rs[1..])
  }

  /** The line splitter: it cuts at newlines and forgets empty lines. */
  lemma {:induction false} SplitsAtNewlines(cur: Bytes, a: Bytes, b: Bytes)
    requires NL !in a
    ensures LinesFrom(cur, a + [NL] + b) == (if cur + a == [] then [] else [cur + a]) + NonEmptyLines(b)
    ensures LinesFrom(cur, a) == if cur + a == [] then [] else [cur + a]
    decreases |a|
  {
    var s := a + [NL] + b;
    if a == [] {
      assert s[1..] == b && cur + a == cur;
    } else {
      SplitsAtNewlines(cur + [a[0]], a[1..], b);
      assert s[1..] == a[1..] + [NL] + b;
      assert cur + [a[0]] + a[1..] == cur + a;
      assert a[0] in a;
    }
  }

  lemma {:induction false} GrowLine(line: Bytes, ch: byte)
    ensures if |Tail(line)| < BUFFER
            then Blocks(line + [ch]) == Blocks(line) && Tail(line + [ch]) == Tail(line) + [ch]
            else Blocks(line + [ch]) == Blocks(line) + [Record(P, Tail(line))] && Tail(line + [ch]) == [ch]
    decreases |line|
  {
    var longer := line + [ch];
    if |line| > BUFFER {
      assert longer[..BUFFER] == line[..BUFFER] && longer[BUFFER..] == line[BUFFER..] + [ch];
      GrowLine(line[BUFFER..], ch);
    } else if |line| == BUFFER {
      assert longer[..BUFFER] == line && longer[BUFFER..] == [ch];
      assert Blocks([ch]) == [] && Blocks(longer) == [Record(P, line)] + [];
    }
  }

  lemma LineEnds(done: seq<Record>, cur: Bytes, rest: seq<Bytes>)
    ensures var st := Flush(Stream(done + Blocks(cur), Tail(cur)), F);
      && st.pending == []
      && st.records + AllRecords(rest) == done + AllRecords((if cur == [] then [] else [cur]) + rest)
      && AllRecords([]) == [] && st.records + [] == st.records
  {
    if cur == [] {
      assert [] + rest == rest && done + [] == done;
    } else {
      var lines := [cur] + rest;
      assert lines[0] == cur && lines[1..] == rest;
      assert done + Blocks(cur) + [Record(F, Tail(cur))] == done + LineRecords(cur);
    }
  }

  /** The stream in the middle of a line `cur`, after records `done`. */
  lemma {:induction false} FeedsLines(done: seq<Record>, cur: Bytes, s: Bytes)
    ensures Flush(FeedAll(Stream(done + Blocks(cur), Tail(cur)), s), F).records == done + AllRecords(LinesFrom(cur, s))
    decreases |s|
  {
    var st := Stream(done + Blocks(cur), Tail(cur));
    if s == [] {
      LineEnds(done, cur, []);
    } else if s[0] == NL {
      LineEnds(done, cur, LinesFrom([], s[1..]));
      FeedsLines(Flush(st, F).records, [], s[1..]);
      assert Flush(st, F).records + Blocks([]) == Flush(st, F).records;
    } else {
      GrowLine(cur, s[0]);
      assert done + Blocks(cur) + [Record(P, Tail(cur))] == done + (Blocks(cur) + [Record(P, Tail(cur))]);
      assert [] + [s[0]] == [s[0]];
      assert Feed(st, s[0]) == Stream(done + Blocks(cur + [s[0]]), Tail(cur + [s[0]]));
      FeedsLines(done, cur + [s[0]], s[1..]);
    }
  }

  lemma {:induction false} FeedConcat(st: Stream, a: Bytes, b: Bytes)
    ensures FeedAll(st, a + b) == FeedAll(FeedAll(st, a), b)
    decreases |a|
  {
    if a == [] {
      assert a + b == b;
    } else {
      assert (a + b)[1..] == a[1..] + b;
      FeedConcat(Feed(st, a[0]), a[1..], b);
    }
  }

  lemma {:induction false} ChunksConcat(st: Stream, chunks: seq<Bytes>)
    ensures FeedChunks(st, chunks) == FeedAll(st, Concat(chunks))
    decreases |chunks|
  {
    if chunks != [] {
      ChunksConcat(FeedAll(st, chunks[0]), chunks[1..]);
      FeedConcat(st, chunks[0], Concat(chunks[1..]));
    }
  }

  /** However the bytes arrive, the records written are those of the non-empty lines, line by line. */
  lemma RecordsOfLines(chunks: seq<Bytes>)
    ensures Emitted(chunks) == AllRecords(NonEmptyLines(Concat(chunks)))
  {
    ChunksConcat(Stream([], []), chunks);
    FeedsLines([], [], Concat(chunks));
    assert [] + Blocks([]) == [];
    assert [] + AllRecords(NonEmptyLines(Concat(chunks))) == AllRecords(NonEmptyLines(Concat(chunks)));
  }

  /** The records depend on the bytes only, not on the chunks they came in. */
  lemma ChunkingInvisible(a: seq<Bytes>, b: seq<Bytes>)
    requires Concat(a) == Concat(b)
    ensures Emitted(a) == Emitted(b)
  {
    RecordsOfLines(a);
    RecordsOfLines(b);
  }

  lemma {:induction false} JoinLine(acc: Bytes, line: Bytes, rest: seq<Record>)
    ensures Join(acc, LineRecords(line) + rest) == [acc + line] + Join([], rest)
    decreases |line|
  {
    var rs := LineRecords(line) + rest;
    if |line| <= BUFFER {
      assert rs == [Record(F, line)] + rest;
    } else {
      JoinLine(acc + line[..BUFFER], line[BUFFER..], rest);
      assert rs[1..] == LineRecords(line[BUFFER..]) + rest;
      assert acc + line[..BUFFER] + line[BUFFER..] == acc + line;
    }
  }

  lemma {:induction false} JoinAll(lines: seq<Bytes>)
    ensures Join([], AllRecords(lines)) == lines
    decreases |lines|
  {
    if lines != [] {
      JoinLine([], lines[0], AllRecords(lines[1..]));
      JoinAll(lines[1..]);
      assert [] + lines[0] == lines[0];
    }
  }

  /** Joining every P record to the F record that closes it gives back exactly the non-empty lines, in order. */
  lemma JoinedAreLines(chunks: seq<Bytes>)
    ensures Join([], Emitted(chunks)) == NonEmptyLines(Concat(chunks))
  {
    RecordsOfLines(chunks);
    JoinAll(NonEmptyLines(Concat(chunks)));
  }

  lemma {:induction false} LineShape(line: Bytes)
    requires line != []
    ensures |LineRecords(line)| == (|line| + BUFFER - 1) / BUFFER
    ensures forall r :: r in LineRecords(line) ==> if r.tag.P? then |r.payload| == BUFFER else 0 < |r.payload| <= BUFFER
    decreases |line|
  {
    if |line| > BUFFER {
      LineShape(line[BUFFER..]);
      assert LineRecords(line) == [Record(P, line[..BUFFER])] + LineRecords(line[BUFFER..]);
    }
  }

  lemma {:induction false} LinesNotEmpty(cur: Bytes, s: Bytes)
    ensures forall l :: l in LinesFrom(cur, s) ==> l != [] && (NL !in cur ==> NL !in l)
    decreases |s|
  {
    if s != [] {
      LinesNotEmpty([], s[1..]);
      LinesNotEmpty(cur + [s[0]], s[1..]);
    }
  }

  lemma {:induction false} AllShapes(lines: seq<Bytes>)
    requires forall l :: l in lines ==> l != []
    ensures forall r :: r in AllRecords(lines) ==> if r.tag.P? then |r.payload| == BUFFER else 0 < |r.payload| <= BUFFER
    decreases |lines|
  {
    if lines != [] {
      assert lines[0] in lines;
      LineShape(lines[0]);
      assert forall l :: l in lines[1..] ==> l in lines;
      AllShapes(lines[1..]);
    }
  }

  /** Every P payload is a full buffer, every F payload is not empty and fits one. */
  lemma RecordShapes(chunks: seq<Bytes>)
    ensures forall r :: r in Emitted(chunks) ==> if r.tag.P? then |r.payload| == BUFFER else 0 < |r.payload| <= BUFFER
  {
    RecordsOfLines(chunks);
    LinesNotEmpty([], Concat(chunks));
    AllShapes(NonEmptyLines(Concat(chunks)));
  }

  // The stream as the source keeps it.

  class LogStream {
    const pending: array<byte>
    var pendingLen: nat
    var records: seq<Record>

    ghost predicate Valid()
      reads this
    {
      pending.Length == BUFFER && pendingLen <= BUFFER
    }

    ghost function View(): Stream
      requires Valid()
      reads this, pending
    {
      Stream(records, pending[..pendingLen])
    }

    constructor ()
      ensures Valid() && fresh(pending) && View() == Stream([], [])
    {
      pending := new byte[BUFFER];
      pendingLen := 0;
      records := [];
    }

    method FlushPending(tag: Tag)
      requires Valid()
      modifies this
      ensures Valid() && View() == Flush(old(View()), tag)
    {
      if pendingLen == 0 {
        return;
      }
      records := records + [Record(tag, pending[..pendingLen])];
      pendingLen := 0;
    }

    method AppendChunk(chunk: Bytes)
      requires Valid()
      modifies this, pending
      ensures Valid() && View() == FeedAll(old(View()), chunk)
    {
      var i := 0;
      while i < |chunk|
        invariant 0 <= i <= |chunk| && Valid()
        invariant FeedAll(View(), chunk[i..]) == FeedAll(old(View()), chunk)
      {
        var ch := chunk[i];
        ghost var before := View();
        assert chunk[i..][1..] == chunk[i + 1..];
        if ch == NL {
          FlushPending(F);
        } else {
          if pendingLen >= BUFFER {
            FlushPending(P);
          }
          pending[pendingLen] := ch;
          pendingLen := pendingLen + 1;
        }
        assert View() == Feed(before, ch);
        i := i + 1;
      }
    }
  }
}
