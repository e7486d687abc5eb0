/** The guest's container metadata file: one value per line, written with fprintf and read back with fgets. */
module Metadata {
  import opened Basics
  import opened CText

  const IMAGE := 256
  const ARG := 64
  const KEY := 64
  const VALUE := 256
  const ENTRY := 322
  const MAX_ARGV := 4
  const MAX_ENV := 128
  const COUNT_LINE := 32
  const NL: byte := 10

  datatype Var = Var(key: Str, value: Str)
  datatype Meta = Meta(image: Str, argv: seq<Str>, env: seq<Var>)

  // Writing.

  function Line(s: Str): (r: Str) {
    s + [NL]
  }

  function ArgLines(argv: seq<Str>): (r: Str) {
    if argv == [] then [] else Line(argv[0]) + ArgLines(argv[1..])
  }

  function EnvLines(env: seq<Var>): (r: Str) {
    if env == [] then [] else Line(env[0].key) + (Line(env[0].value) + EnvLines(env[1..]))
  }

  function EnvPart(env: seq<Var>): (r: Str) {
    Line(Digits(|env|)) + EnvLines(env)
  }

  function ArgPart(argv: seq<Str>, env: seq<Var>): (r: Str) {
    Line(Digits(|argv|)) + (ArgLines(argv) + EnvPart(env))
  }

  /** mkga_containerd_write_metadata. */
  function Written(m: Meta): (file: Str) {
    Line(m.image) + ArgPart(m.argv, m.env)
  }

  // Reading.

  /** How many bytes fgets takes when it may take `max`: up to and including the first newline. */
  function Taken(file: Str, max: nat): (n: nat)
    ensures n <= |file| && n <= max
    decreases max
  {
    if max == 0 || file == [] then 0
    else if file[0] == NL then 1
    else 1 + Taken(file[1..], max - 1)
  }

  predicate Plain(s: Str) {
    NL !in s && 0 !in s
  }

  /** The text of a line buffer: up to its newline or NUL. */
  function Text(line: Str): (r: Str)
    ensures |r| <= |line|
  {
    if line == [] || line[0] == NL || line[0] == 0 then [] else [line[0]] + Text(line[1..])
  }

  /** fgets into a buffer of `size` bytes: the line with its newline if that fitted, and what is left of the file. */
  function Fgets(file: Str, size: nat): (r: Option<(Str, Str)>)
    requires size > 1
    ensures r.Some? ==> |r.value.1| < |file| && |r.value.0| < size
  {
    if file == [] then None
    else
      var n := Taken(file, size - 1);
      Some((file[..n], file[n..]))
  }

  predicate Space(c: byte) {
    c == 32 || 9 <= c <= 13
  }

  function SkipSpace(s: Str): (r: Str) {
    if s != [] && Space(s[0]) then SkipSpace(s[1..]) else s
  }

  function Number(s: Str, acc: nat): (v: nat)
    decreases |s|
  {
    if s != [] && 48 <= s[0] <= 57 then Number(s[1..], 10 * acc + (s[0] - 48)) else acc
  }

  const ULONG_MAX := 0xffff_ffff_ffff_ffff

  /** (uint32_t)strtoul(line, NULL, 10): saturating, then cut to 32 bits. */
  function Count(line: Str): (v: nat)
    ensures v < 0x1_0000_0000
  {
    var s := SkipSpace(line);
    var signed := s != [] && (s[0] == 43 || s[0] == 45);
    var v := Number(if signed then s[1..] else s, 0);
    var u := if v > ULONG_MAX then ULONG_MAX
             else if signed && s[0] == 45 then (0 - v) % (ULONG_MAX + 1) else v;
    u % 0x1_0000_0000
  }

  function ReadArgs(k: nat, file: Str): (r: Option<(seq<Str>, Str)>)
    ensures r.Some? ==> |r.value.0| == k
    decreases k
  {
    if k == 0 then Some(([], file))
    else
      var line :- Fgets(file, ARG);
      var rest :- ReadArgs(k - 1, line.1);
      Some(([Text(line.0)] + rest.0, rest.1))
  }

  /** mkga_containerd_set_env_entry refuses an empty key and an entry that does not fit. */
  function ReadEnv(k: nat, file: Str): (r: Option<seq<Var>>)
    ensures r.Some? ==> |r.value| == k
    decreases k
  {
    if k == 0 then Some([])
    else
      var key :- Fgets(file, KEY);
      var value :- Fgets(key.1, VALUE);
      if Text(key.0) == [] || |Text(key.0)| + 1 + |Text(value.0)| >= ENTRY then None
      else
        var rest :- ReadEnv(k - 1, value.1);
        Some([Var(Text(key.0), Text(value.0))] + rest)
  }

  /** The environment part is optional in the file. */
  function ReadEnvPart(file: Str): (r: Option<seq<Var>>) {
    if file == [] then Some([])
    else
      var count :- Fgets(file, COUNT_LINE);
      if Count(count.0) > MAX_ENV then None else ReadEnv(Count(count.0), count.1)
  }

  function ReadArgPart(image: Str, file: Str): (r: Option<Meta>) {
    var count :- Fgets(file, COUNT_LINE);
    if Count(count.0) > MAX_ARGV then None
    else
      var args :- ReadArgs(Count(count.0), count.1);
      var env :- ReadEnvPart(args.1);
      Some(Meta(image, args.0, env))
  }

  /** mkga_containerd_read_metadata. */
  function Read(file: Str): (r: Option<Meta>) {
    var image :- Fgets(file, IMAGE);
    ReadArgPart(Text(image.0), image.1)
  }

  // The line reader and lines.

  lemma {:induction false} TakesLine(s: Str, rest: Str, max: nat)
    requires Plain(s) && |s| <= max
    ensures Taken(Line(s) + rest, max) == if |s| < max then |s| + 1 else |s|
    decreases |s|
  {
    var file := Line(s) + rest;
    if s != [] {
      assert file[0] == s[0] && s[0] in s;
      assert file[1..] == Line(s[1..]) + rest;
      TakesLine(s[1..], rest, max - 1);
    }
  }

  lemma {:induction false} TextOfLine(s: Str)
    requires Plain(s)
    ensures Text(s) == s && Text(Line(s)) == s
  {
    if s != [] {
      assert s[0] in s && Line(s)[0] == s[0];
      assert Line(s)[1..] == Line(s[1..]);
      TextOfLine(s[1..]);
    }
  }

  /** A line that fits with its newline is read whole; one that fills the buffer leaves its newline behind. */
  lemma ReadsLine(s: Str, rest: Str, size: nat)
    requires Plain(s) && 1 < size && |s| < size
    ensures var r := Fgets(Line(s) + rest, size);
      && r.Some? && Text(r.value.0) == s
      && r.value.0 == (if |s| < size - 1 then Line(s) else s)
      && r.value.1 == if |s| < size - 1 then rest else Line([]) + rest
  {
    var file := Line(s) + rest;
    TakesLine(s, rest, size - 1);
    TextOfLine(s);
    assert file[..|s|] == s && file[..|s| + 1] == Line(s);
    assert file[|s|..] == Line([]) + rest && file[|s| + 1..] == rest;
  }

  // Counts.

  lemma {:induction false} NumberReadsDigits(n: nat, tail: Str)
    ensures Number(Digits(n) + tail, 0) == Number(tail, n)
  {
    var last: Str := [48 + n % 10];
    assert (last + tail)[1..] == tail;
    if n < 10 {
      assert Digits(n) + tail == last + tail;
    } else {
      NumberReadsDigits(n / 10, last + tail);
      assert Digits(n) + tail == Digits(n / 10) + (last + tail);
    }
  }

  lemma ShortDigits(n: nat)
    requires n < 1000
    ensures |Digits(n)| <= 3
  {
    assert n >= 10 ==> |Digits(n)| == |Digits(n / 10)| + 1;
    assert n >= 100 ==> |Digits(n / 10)| == |Digits(n / 10 / 10)| + 1;
    assert |Digits(n / 10 / 10)| == 1;
  }

  lemma CountReadsDigits(n: nat)
    requires n <= MAX_ENV
    ensures Count(Line(Digits(n))) == n && |Digits(n)| <= 3
  {
    ShortDigits(n);
    NumberReadsDigits(n, [NL]);
    assert Number([NL], n) == n;
    var s := Line(Digits(n));
    assert s[0] in Digits(n);
    hide Digits, Number;
    assert SkipSpace(s) == s;
  }

  /** Taking a 64-bit word modulo 2^32 is taking the number modulo 2^32. */
  lemma WordCut(n: nat)
    requires n <= ULONG_MAX
    ensures (0 - n) % (ULONG_MAX + 1) % 0x1_0000_0000 == (0 - n) % 0x1_0000_0000
  {
  }

  lemma {:induction false} SkipsSpaces(spaces: Str, rest: Str)
    requires (forall i :: 0 <= i < |spaces| ==> Space(spaces[i])) && (rest == [] || !Space(rest[0]))
    ensures SkipSpace(spaces + rest) == rest
    decreases |spaces|
  {
    if spaces == [] {
      assert spaces + rest == rest;
    } else {
      SkipsSpaces(spaces[1..], rest);
      assert (spaces + rest)[1..] == spaces[1..] + rest;
    }
  }

  lemma DigitsAhead(n: nat, tail: Str)
    requires tail == [] || !(48 <= tail[0] <= 57)
    ensures Number(Digits(n) + tail, 0) == n
    ensures Digits(n) != [] && 48 <= Digits(n)[0] <= 57
  {
    NumberReadsDigits(n, tail);
  }

  /**
   A count of any size, with blanks and a sign in front and anything behind it, as strtoul and the
   cast to 32 bits read it.
  */
  lemma CountExact(spaces: Str, sign: Str, n: nat, tail: Str)
    requires forall i :: 0 <= i < |spaces| ==> Space(spaces[i])
    requires sign == [] || sign == [43] || sign == [45]
    requires tail == [] || !(48 <= tail[0] <= 57)
    ensures Count(spaces + (sign + (Digits(n) + tail)))
         == if n > ULONG_MAX then 0xffff_ffff
            else (if sign == [45] then 0 - n else n) % 0x1_0000_0000
  {
    var number := Digits(n) + tail;
    DigitsAhead(n, tail);
    assert number[0] == Digits(n)[0];
    var rest := sign + number;
    assert sign != [] ==> rest[0] == sign[0] && rest[1..] == number;
    assert sign == [] ==> rest == number;
    hide Digits, Number;
    SkipsSpaces(spaces, rest);
    hide SkipSpace;
    if n <= ULONG_MAX { WordCut(n); }
  }

  lemma CountOfEmpty()
    ensures Count(Line([])) == 0
  {
    assert SkipSpace([NL]) == [];
  }

  lemma ReadsCount(n: nat, rest: Str)
    requires n <= MAX_ENV
    ensures var r := Fgets(Line(Digits(n)) + rest, COUNT_LINE);
      r.Some? && Count(r.value.0) == n && r.value.1 == rest
  {
    CountReadsDigits(n);
    assert Plain(Digits(n));
    hide Digits, Count, Fgets;
    ReadsLine(Digits(n), rest, COUNT_LINE);
  }

  lemma ReadsEmptyCount(rest: Str)
    ensures var r := Fgets(Line([]) + rest, COUNT_LINE);
      r.Some? && Count(r.value.0) == 0 && r.value.1 == rest
  {
    CountOfEmpty();
    hide Count, Fgets;
    ReadsLine([], rest, COUNT_LINE);
  }

  // Exactly which metadata survives.

  ghost predicate PlainEnv(env: seq<Var>) {
    forall i :: 0 <= i < |env| ==>
      Plain(env[i].key) && |env[i].key| < KEY && Plain(env[i].value) && |env[i].value| < VALUE
  }

  /** What the C structs can hold, with no newline in any value: the values a line can carry. */
  ghost predicate PlainMeta(m: Meta) {
    && Plain(m.image) && |m.image| < IMAGE
    && |m.argv| <= MAX_ARGV && (forall i :: 0 <= i < |m.argv| ==> Plain(m.argv[i]) && |m.argv[i]| < ARG)
    && |m.env| <= MAX_ENV && PlainEnv(m.env)
  }

  /** An argument that fills its buffer may only be followed by empty arguments. */
  ghost predicate ArgsKeepStep(argv: seq<Str>) {
    forall i, j :: 0 <= i < j < |argv| && |argv[i]| == ARG - 1 ==> argv[j] == []
  }

  ghost predicate SomeArgFills(argv: seq<Str>) {
    exists i :: 0 <= i < |argv| && |argv[i]| == ARG - 1
  }

  /** Keys are not empty; a key or value that fills its buffer is the last thing written (an empty value may follow). */
  ghost predicate EnvKeepsStep(env: seq<Var>) {
    forall i :: 0 <= i < |env| ==>
      && env[i].key != []
      && (|env[i].key| == KEY - 1 ==> i == |env| - 1 && env[i].value == [])
      && (|env[i].value| == VALUE - 1 ==> i == |env| - 1)
  }

  ghost predicate KeepsStep(m: Meta) {
    && (|m.image| == IMAGE - 1 ==> m.argv == [] && m.env == [])
    && ArgsKeepStep(m.argv)
    && (SomeArgFills(m.argv) ==> m.env == [])
    && EnvKeepsStep(m.env)
  }

  ghost function PrependArg(a: Str, r: Option<(seq<Str>, Str)>): Option<(seq<Str>, Str)> {
    if r.None? then None else Some(([a] + r.value.0, r.value.1))
  }

  /** The arguments did not come back as they were. */
  ghost predicate Lost(r: Option<(seq<Str>, Str)>, argv: seq<Str>) {
    r.Some? ==> r.value.0 != argv
  }

  lemma PrependArgExact(a: Str, argv: seq<Str>, r: Option<(seq<Str>, Str)>)
    requires argv != []
    ensures a != argv[0] || Lost(r, argv[1..]) ==> Lost(PrependArg(a, r), argv)
    ensures a == argv[0] && r.Some? && r.value.0 == argv[1..] ==> PrependArg(a, r) == Some((argv, r.value.1))
  {
    assert argv == [argv[0]] + argv[1..];
    assert r.Some? ==> ([a] + r.value.0)[0] == a && ([a] + r.value.0)[1..] == r.value.0;
  }

  lemma ReadArgsStep(k: nat, a: Str, rest: Str)
    requires k > 0 && Plain(a) && |a| < ARG
    ensures ReadArgs(k, Line(a) + rest)
         == PrependArg(a, ReadArgs(k - 1, if |a| < ARG - 1 then rest else Line([]) + rest))
  {
    hide Fgets, Text, Line;
    ReadsLine(a, rest, ARG);
  }

  lemma ArgLinesStep(argv: seq<Str>, tail: Str)
    requires argv != []
    ensures ArgLines(argv) + tail == Line(argv[0]) + (ArgLines(argv[1..]) + tail)
  {
  }

  ghost predicate AllEmpty(argv: seq<Str>) {
    forall i :: 0 <= i < |argv| ==> argv[i] == []
  }

  lemma AllEmptyStep(argv: seq<Str>)
    requires argv != []
    ensures AllEmpty(argv) <==> argv[0] == [] && AllEmpty(argv[1..])
  {
    assert forall i :: 1 <= i < |argv| ==> argv[i] == argv[1..][i - 1];
  }

  /** One stray newline in front of the argument lines. */
  lemma {:induction false} ShiftedArgs(argv: seq<Str>, tail: Str)
    requires forall i :: 0 <= i < |argv| ==> Plain(argv[i])
    ensures var r := ReadArgs(|argv|, Line([]) + (ArgLines(argv) + tail));
      if AllEmpty(argv) then r == Some((argv, Line([]) + tail)) else Lost(r, argv)
    decreases |argv|
  {
    if argv == [] {
      assert ArgLines(argv) + tail == tail;
    } else {
      var rest := ArgLines(argv) + tail;
      ArgLinesStep(argv, tail);
      hide Line, ArgLines, AllEmpty, ReadArgs, PrependArg, Lost;
      ReadArgsStep(|argv|, [], rest);
      AllEmptyStep(argv);
      PrependArgExact([], argv, ReadArgs(|argv| - 1, rest));
      if argv[0] == [] {
        ShiftedArgs(argv[1..], tail);
      }
    }
  }

  lemma ArgsTail(argv: seq<Str>)
    requires argv != [] && |argv[0]| < ARG - 1
    ensures ArgsKeepStep(argv) <==> ArgsKeepStep(argv[1..])
    ensures SomeArgFills(argv) <==> SomeArgFills(argv[1..])
  {
    var t := argv[1..];
    if ArgsKeepStep(t) {
      forall i, j | 0 <= i < j < |argv| && |argv[i]| == ARG - 1
        ensures argv[j] == []
      {
        assert t[i - 1] == argv[i] && t[j - 1] == argv[j];
      }
    }
    if SomeArgFills(argv) {
      var i :| 0 <= i < |argv| && |argv[i]| == ARG - 1;
      assert t[i - 1] == argv[i];
    }
  }

  lemma FilledHead(argv: seq<Str>)
    requires argv != [] && |argv[0]| == ARG - 1
    ensures SomeArgFills(argv)
    ensures ArgsKeepStep(argv) <==> AllEmpty(argv[1..])
  {
    var t := argv[1..];
    if ArgsKeepStep(argv) {
      forall i | 0 <= i < |t|
        ensures t[i] == []
      {
        assert argv[i + 1] == t[i];
      }
    }
    if AllEmpty(t) {
      forall i, j | 0 <= i < j < |argv| && |argv[i]| == ARG - 1
        ensures argv[j] == []
      {
        assert t[j - 1] == argv[j];
      }
    }
  }

  lemma NoArgs(tail: Str)
    ensures ReadArgs(0, ArgLines([]) + tail) == Some(([], tail))
    ensures ArgsKeepStep([]) && !SomeArgFills([])
  {
    assert ArgLines([]) + tail == tail;
  }

  lemma {:induction false} ArgsExact(argv: seq<Str>, tail: Str)
    requires forall i :: 0 <= i < |argv| ==> Plain(argv[i]) && |argv[i]| < ARG
    ensures var r := ReadArgs(|argv|, ArgLines(argv) + tail);
      if ArgsKeepStep(argv)
      then r == Some((argv, if SomeArgFills(argv) then Line([]) + tail else tail))
      else Lost(r, argv)
    decreases |argv|
  {
    hide Line, ArgLines, ArgsKeepStep, SomeArgFills, AllEmpty, ReadArgs, PrependArg, Lost, Plain;
    if argv == [] {
      NoArgs(tail);
    } else {
      var t := argv[1..];
      var rest := ArgLines(t) + tail;
      ArgLinesStep(argv, tail);
      ReadArgsStep(|argv|, argv[0], rest);
      if |argv[0]| < ARG - 1 {
        ArgsExact(t, tail);
        ArgsTail(argv);
        PrependArgExact(argv[0], argv, ReadArgs(|t|, rest));
      } else {
        ShiftedArgs(t, tail);
        FilledHead(argv);
        PrependArgExact(argv[0], argv, ReadArgs(|t|, Line([]) + rest));
      }
    }
  }

  /** A stray newline where a key should be is an empty key. */
  lemma EmptyKeyFails(k: nat, rest: Str)
    requires k > 0
    ensures ReadEnv(k, Line([]) + rest) == None
  {
    ReadsLine([], rest, KEY);
  }

  ghost function Prepend(v: Var, r: Option<seq<Var>>): Option<seq<Var>> {
    if r.None? then None else Some([v] + r.value)
  }

  lemma EnvStep(k: nat, key: Str, value: Str, rest: Str)
    requires k > 0 && Plain(key) && |key| < KEY && Plain(value) && |value| < VALUE
    ensures ReadEnv(k, Line(key) + (Line(value) + rest))
         == if key == [] then None
            else if |key| == KEY - 1 then Prepend(Var(key, []), ReadEnv(k - 1, Line(value) + rest))
            else if |value| == VALUE - 1 then Prepend(Var(key, value), ReadEnv(k - 1, Line([]) + rest))
            else Prepend(Var(key, value), ReadEnv(k - 1, rest))
  {
    hide Fgets, Text, Line;
    ReadsLine(key, Line(value) + rest, KEY);
    if |key| < KEY - 1 {
      ReadsLine(value, rest, VALUE);
    } else {
      ReadsLine([], Line(value) + rest, VALUE);
    }
  }

  lemma EnvUnroll(env: seq<Var>)
    requires env != []
    ensures EnvKeepsStep(env)
       <==> && env[0].key != []
            && (|env[0].key| == KEY - 1 ==> |env| == 1 && env[0].value == [])
            && (|env[0].value| == VALUE - 1 ==> |env| == 1)
            && EnvKeepsStep(env[1..])
  {
    var t := env[1..];
    assert forall i :: 0 <= i < |t| ==> t[i] == env[i + 1];
    assert forall i :: 0 < i < |env| ==> env[i] == t[i - 1];
  }

  lemma PrependExact(v: Var, w: Var, r: Option<seq<Var>>, t: seq<Var>)
    ensures Prepend(v, r) == Some([w] + t) <==> v == w && r == Some(t)
  {
    if r.Some? && Prepend(v, r) == Some([w] + t) {
      assert ([v] + r.value)[1..] == r.value && ([w] + t)[1..] == t;
    }
  }

  /** The four ways the first variable can be read, whatever the rest of the file gives. */
  lemma EnvCases(env: seq<Var>, long: Option<seq<Var>>, spilled: Option<seq<Var>>, rest: Option<seq<Var>>)
    requires env != []
    requires rest == Some(env[1..]) <==> EnvKeepsStep(env[1..])
    requires |env| == 1 ==> long == Some([]) && spilled == Some([])
    requires |env| > 1 ==> spilled == None && (env[0].value == [] ==> long == None)
    ensures var key, value := env[0].key, env[0].value;
      var all := if key == [] then None
                 else if |key| == KEY - 1 then Prepend(Var(key, []), long)
                 else if |value| == VALUE - 1 then Prepend(env[0], spilled)
                 else Prepend(env[0], rest);
      all == Some(env) <==> EnvKeepsStep(env)
  {
    var key, value, t := env[0].key, env[0].value, env[1..];
    assert env == [env[0]] + t && Var(key, value) == env[0];
    EnvUnroll(env);
    hide EnvKeepsStep, Prepend;
    PrependExact(Var(key, []), env[0], long, t);
    PrependExact(env[0], env[0], spilled, t);
    PrependExact(env[0], env[0], rest, t);
  }

  lemma EnvFirst(env: seq<Var>)
    requires env != [] && PlainEnv(env)
    ensures EnvLines(env) == Line(env[0].key) + (Line(env[0].value) + EnvLines(env[1..])) && PlainEnv(env[1..])
    ensures Plain(env[0].key) && |env[0].key| < KEY && Plain(env[0].value) && |env[0].value| < VALUE
    ensures forall file :: ReadEnv(0, file) == Some([])
  {
  }

  lemma {:induction false} EnvExact(env: seq<Var>)
    requires PlainEnv(env)
    ensures ReadEnv(|env|, EnvLines(env)) == Some(env) <==> EnvKeepsStep(env)
    decreases |env|
  {
    if env != [] {
      hide ReadEnv, Line, EnvLines, PlainEnv, EnvKeepsStep, Prepend, Plain;
      var key, value, t := env[0].key, env[0].value, env[1..];
      var rest := EnvLines(t);
      EnvFirst(env);
      EnvStep(|env|, key, value, rest);
      EnvExact(t);
      if t != [] {
        EmptyKeyFails(|t|, rest);
      }
      EnvCases(env, ReadEnv(|t|, Line(value) + rest), ReadEnv(|t|, Line([]) + rest), ReadEnv(|t|, rest));
    }
  }

  /** The environment part behind a stray newline is taken for an empty one. */
  lemma EnvPartExact(env: seq<Var>)
    requires PlainEnv(env) && |env| <= MAX_ENV
    ensures ReadEnvPart(EnvPart(env)) == Some(env) <==> EnvKeepsStep(env)
    ensures ReadEnvPart(Line([]) + EnvPart(env)) == Some([])
  {
    hide Fgets, Line, Count, EnvLines;
    ReadsCount(|env|, EnvLines(env));
    ReadsEmptyCount(EnvPart(env));
    EnvExact(env);
  }

  lemma EmptyKeeps()
    ensures ArgsKeepStep([]) && !SomeArgFills([]) && EnvKeepsStep([])
  {
  }

  lemma ArgPartExact(image: Str, argv: seq<Str>, env: seq<Var>)
    requires PlainMeta(Meta([], argv, env))
    ensures ReadArgPart(image, ArgPart(argv, env)) == Some(Meta(image, argv, env))
       <==> ArgsKeepStep(argv) && (SomeArgFills(argv) ==> env == []) && EnvKeepsStep(env)
  {
    hide Fgets, Line, Count, ReadArgs, ReadEnvPart, ArgsKeepStep, SomeArgFills, EnvKeepsStep, EnvPart, ArgLines;
    ReadsCount(|argv|, ArgLines(argv) + EnvPart(env));
    ArgsExact(argv, EnvPart(env));
    EnvPartExact(env);
    EmptyKeeps();
  }

  lemma NotEmpty(file: Str, s: Str, rest: Str)
    requires file == Line(s) + rest
    ensures file != []
  {
  }

  /** Behind a stray newline there are no arguments, and the argument count is read as the environment's. */
  lemma ShiftedArgPart(image: Str, argv: seq<Str>, env: seq<Var>)
    requires |argv| <= MAX_ARGV
    ensures ReadArgPart(image, Line([]) + ArgPart(argv, env)) == Some(Meta(image, argv, env))
       <==> argv == [] && env == []
  {
    hide Fgets, Line, Count, ArgLines, EnvPart, Digits;
    ReadsEmptyCount(ArgPart(argv, env));
    ReadsCount(|argv|, ArgLines(argv) + EnvPart(env));
    NotEmpty(ArgPart(argv, env), Digits(|argv|), ArgLines(argv) + EnvPart(env));
  }

  lemma PlainRoundTrip(m: Meta)
    requires PlainMeta(m)
    ensures Read(Written(m)) == Some(m) <==> KeepsStep(m)
  {
    hide Fgets, Line, ReadArgPart, ArgPart, EnvKeepsStep, ArgsKeepStep, SomeArgFills;
    ReadsLine(m.image, ArgPart(m.argv, m.env), IMAGE);
    ArgPartExact(m.image, m.argv, m.env);
    ShiftedArgPart(m.image, m.argv, m.env);
    EmptyKeeps();
  }

  /** What the C structs can hold: strings shorter than their arrays, lists that fit theirs. */
  ghost predicate Holdable(m: Meta) {
    && 0 !in m.image && |m.image| < IMAGE
    && |m.argv| <= MAX_ARGV && (forall i :: 0 <= i < |m.argv| ==> 0 !in m.argv[i] && |m.argv[i]| < ARG)
    && |m.env| <= MAX_ENV
    && (forall i :: 0 <= i < |m.env| ==>
          0 !in m.env[i].key && |m.env[i].key| < KEY && 0 !in m.env[i].value && |m.env[i].value| < VALUE)
  }

  ghost predicate OneLine(m: Meta) {
    && NL !in m.image
    && (forall i :: 0 <= i < |m.argv| ==> NL !in m.argv[i])
    && (forall i :: 0 <= i < |m.env| ==> NL !in m.env[i].key && NL !in m.env[i].value)
  }

  // No field that is read back can hold a newline.

  lemma {:induction false} TextOneLine(line: Str)
    ensures NL !in Text(line)
  {
    if line != [] && line[0] != NL && line[0] != 0 {
      TextOneLine(line[1..]);
    }
  }

  lemma {:induction false} ReadArgsOneLine(k: nat, file: Str)
    ensures ReadArgs(k, file).Some? ==> forall a :: a in ReadArgs(k, file).value.0 ==> NL !in a
    decreases k
  {
    hide Fgets, Text;
    if k > 0 && Fgets(file, ARG).Some? {
      var line := Fgets(file, ARG).value;
      TextOneLine(line.0);
      ReadArgsOneLine(k - 1, line.1);
    }
  }

  lemma {:induction false} ReadEnvOneLine(k: nat, file: Str)
    ensures ReadEnv(k, file).Some? ==> forall v :: v in ReadEnv(k, file).value ==> NL !in v.key && NL !in v.value
    decreases k
  {
    hide Fgets, Text;
    if k > 0 && Fgets(file, KEY).Some? && Fgets(Fgets(file, KEY).value.1, VALUE).Some? {
      var key := Fgets(file, KEY).value;
      var value := Fgets(key.1, VALUE).value;
      TextOneLine(key.0);
      TextOneLine(value.0);
      ReadEnvOneLine(k - 1, value.1);
    }
  }

  lemma ReadEnvPartOneLine(file: Str)
    ensures ReadEnvPart(file).Some? ==> forall v :: v in ReadEnvPart(file).value ==> NL !in v.key && NL !in v.value
  {
    hide Fgets, Count, ReadEnv;
    if Fgets(file, COUNT_LINE).Some? {
      var count := Fgets(file, COUNT_LINE).value;
      ReadEnvOneLine(Count(count.0), count.1);
    }
  }

  lemma ReadIsOneLine(file: Str)
    ensures Read(file).Some? ==> OneLine(Read(file).value)
  {
    hide Fgets, Text, Count, ReadArgs, ReadEnvPart;
    if Read(file).Some? {
      var image := Fgets(file, IMAGE).value;
      var count := Fgets(image.1, COUNT_LINE).value;
      var args := ReadArgs(Count(count.0), count.1).value;
      TextOneLine(image.0);
      ReadArgsOneLine(Count(count.0), count.1);
      ReadEnvPartOneLine(args.1);
    }
  }

  // Nor does anything read back exceed what the structs hold.

  lemma {:induction false} TextNoNul(line: Str)
    ensures 0 !in Text(line)
  {
    if line != [] && line[0] != NL && line[0] != 0 {
      TextNoNul(line[1..]);
    }
  }

  lemma {:induction false} ReadArgsFit(k: nat, file: Str)
    ensures ReadArgs(k, file).Some? ==>
      |ReadArgs(k, file).value.0| == k && forall a :: a in ReadArgs(k, file).value.0 ==> 0 !in a && |a| < ARG
    decreases k
  {
    hide Text;
    if k > 0 && Fgets(file, ARG).Some? {
      var line := Fgets(file, ARG).value;
      hide Fgets;
      TextNoNul(line.0);
      ReadArgsFit(k - 1, line.1);
    }
  }

  ghost predicate VarFits(v: Var) {
    v.key != [] && 0 !in v.key && |v.key| < KEY && 0 !in v.value && |v.value| < VALUE
  }

  lemma {:induction false} ReadEnvFits(k: nat, file: Str)
    ensures ReadEnv(k, file).Some? ==>
      |ReadEnv(k, file).value| == k && forall v :: v in ReadEnv(k, file).value ==> VarFits(v)
    decreases k
  {
    hide Text, Fgets;
    if k > 0 && Fgets(file, KEY).Some? && Fgets(Fgets(file, KEY).value.1, VALUE).Some? {
      var key := Fgets(file, KEY).value;
      var value := Fgets(key.1, VALUE).value;
      TextNoNul(key.0);
      TextNoNul(value.0);
      assert Text(key.0) != [] ==> VarFits(Var(Text(key.0), Text(value.0)));
      hide VarFits;
      ReadEnvFits(k - 1, value.1);
    }
  }

  lemma ReadEnvPartFits(file: Str)
    ensures ReadEnvPart(file).Some? ==>
      |ReadEnvPart(file).value| <= MAX_ENV && forall v :: v in ReadEnvPart(file).value ==> VarFits(v)
  {
    hide Fgets, Count, ReadEnv, VarFits;
    if Fgets(file, COUNT_LINE).Some? {
      var count := Fgets(file, COUNT_LINE).value;
      ReadEnvFits(Count(count.0), count.1);
    }
  }

  /** Whatever the file holds, what is read from it fits the structs, and no variable has an empty name. */
  lemma ReadFits(file: Str)
    ensures Read(file).Some? ==> Holdable(Read(file).value) && forall v :: v in Read(file).value.env ==> v.key != []
  {
    hide Text, Count, ReadArgs, ReadEnvPart;
    if Read(file).Some? {
      var image := Fgets(file, IMAGE).value;
      var count := Fgets(image.1, COUNT_LINE).value;
      var args := ReadArgs(Count(count.0), count.1).value;
      hide Fgets;
      TextNoNul(image.0);
      ReadArgsFit(Count(count.0), count.1);
      ReadEnvPartFits(args.1);
      var m := Read(file).value;
      assert forall i :: 0 <= i < |m.argv| ==> m.argv[i] in m.argv;
      assert forall i :: 0 <= i < |m.env| ==> m.env[i] in m.env;
    }
  }

  /**
   Reading back what was written returns the same image, arguments and environment exactly if no value
   contains a newline and every value that fills its line buffer stands where the line it spills
   cannot be seen.
  */
  lemma RoundTripIff(m: Meta)
    requires Holdable(m)
    ensures Read(Written(m)) == Some(m) <==> OneLine(m) && KeepsStep(m)
  {
    hide Read, Written, KeepsStep;
    ReadIsOneLine(Written(m));
    if OneLine(m) {
      PlainRoundTrip(m);
    }
  }

  /**
   Values at least two bytes shorter than their line buffers survive exactly if they are newline-free
   and no key is empty.
  */
  lemma ShortValuesSurvive(m: Meta)
    requires Holdable(m)
    requires |m.image| < IMAGE - 1
    requires forall i :: 0 <= i < |m.argv| ==> |m.argv[i]| < ARG - 1
    requires forall i :: 0 <= i < |m.env| ==> |m.env[i].key| < KEY - 1 && |m.env[i].value| < VALUE - 1
    ensures Read(Written(m)) == Some(m) <==> OneLine(m) && forall i :: 0 <= i < |m.env| ==> m.env[i].key != []
  {
    hide Read, Written;
    RoundTripIff(m);
  }

  lemma OneArgPart(arg: Str)
    ensures ArgPart([arg], []) == Line(Digits(1)) + (Line(arg) + (Line([48]) + []))
  {
    assert ArgLines([arg]) == Line(arg) + ArgLines([]);
    assert Digits(0) == [48];
    assert ArgLines([arg]) + EnvPart([]) == Line(arg) + (Line([48]) + []);
  }

  lemma ArgumentAsVariable(arg: Str)
    requires Plain(arg) && 0 < |arg| < KEY - 1
    ensures ReadEnvPart(ArgPart([arg], [])) == Some([Var(arg, [48])])
  {
    OneArgPart(arg);
    var tail := Line(arg) + (Line([48]) + []);
    hide Fgets, Line, Text, Count, ArgPart, Digits;
    NotEmpty(ArgPart([arg], []), Digits(1), tail);
    ReadsCount(1, tail);
    EnvStep(1, arg, [48], []);
    assert ReadEnv(0, []) == Some([]);
    assert [Var(arg, [48])] + [] == [Var(arg, [48])];
  }

  /**
   A failing input: behind an image name of 255 bytes the only argument of a container is gone, and
   an environment variable of that name with the value 0 is there instead.
  */
  lemma FilledImageMisread(image: Str, arg: Str)
    requires Plain(image) && |image| == IMAGE - 1
    requires Plain(arg) && 0 < |arg| < KEY - 1
    ensures Read(Written(Meta(image, [arg], []))) == Some(Meta(image, [], [Var(arg, [48])]))
  {
    ArgumentAsVariable(arg);
    hide Fgets, Line, Count, ArgPart, ReadEnvPart;
    ReadsLine(image, ArgPart([arg], []), IMAGE);
    ReadsEmptyCount(ArgPart([arg], []));
  }

  // The two functions as the source runs them.

  method WriteArgs(argv: seq<Str>) returns (text: Str)
    ensures text == ArgLines(argv)
  {
    text := [];
    for i := 0 to |argv|
      invariant text + ArgLines(argv[i..]) == ArgLines(argv)
    {
      ghost var rest := argv[i..];
      assert rest[1..] == argv[i + 1..];
      assert ArgLines(rest) == Line(argv[i]) + ArgLines(argv[i + 1..]);
      text := text + Line(argv[i]);
    }
  }

  lemma Joined(a: Str, b: Str, c: Str, d: Str)
    ensures a + (b + (c + d)) == a + b + c + d
  {
  }

  method WriteVars(env: seq<Var>) returns (text: Str)
    ensures text == EnvLines(env)
  {
    hide Line;
    text := [];
    for i := 0 to |env|
      invariant text + EnvLines(env[i..]) == EnvLines(env)
    {
      ghost var rest := env[i..];
      assert rest[1..] == env[i + 1..];
      Joined(text, Line(env[i].key), Line(env[i].value), EnvLines(env[i + 1..]));
      text := text + Line(env[i].key) + Line(env[i].value);
    }
  }

  method WriteMetadata(m: Meta) returns (file: Str)
    ensures file == Written(m)
  {
    var args := WriteArgs(m.argv);
    var vars := WriteVars(m.env);
    file := Line(m.image) + (Line(Digits(|m.argv|)) + (args + (Line(Digits(|m.env|)) + vars)));
  }

  ghost function AfterArgs(argv: seq<Str>, t: Option<(seq<Str>, Str)>): Option<(seq<Str>, Str)> {
    if t.None? then None else Some((argv + t.value.0, t.value.1))
  }

  lemma ArgsStep(argv: seq<Str>, k: nat, file: Str)
    ensures AfterArgs([], ReadArgs(k, file)) == ReadArgs(k, file)
    ensures AfterArgs(argv, ReadArgs(0, file)) == Some((argv, file))
    ensures k > 0 ==>
      var line := Fgets(file, ARG);
      AfterArgs(argv, ReadArgs(k, file))
        == if line.None? then None
           else AfterArgs(argv + [Text(line.value.0)], ReadArgs(k - 1, line.value.1))
  {
    hide Fgets, Text;
    var all := ReadArgs(k, file);
    assert all.Some? ==> [] + all.value.0 == all.value.0;
    assert argv + [] == argv;
    if k > 0 && Fgets(file, ARG).Some? {
      var line := Fgets(file, ARG).value;
      var t := ReadArgs(k - 1, line.1);
      assert t.Some? ==> argv + ([Text(line.0)] + t.value.0) == argv + [Text(line.0)] + t.value.0;
    }
  }

  method ReadArgv(count: nat, start: Str) returns (r: Option<(seq<Str>, Str)>)
    ensures r == ReadArgs(count, start)
  {
    hide ReadArgs, Fgets, Text, AfterArgs;
    var argv, rest := [], start;
    ArgsStep(argv, count, rest);
    for i := 0 to count
      invariant ReadArgs(count, start) == AfterArgs(argv, ReadArgs(count - i, rest))
    {
      ArgsStep(argv, count - i, rest);
      var line := Fgets(rest, ARG);
      if line.None? {
        return None;
      }
      argv, rest := argv + [Text(line.value.0)], line.value.1;
    }
    ArgsStep(argv, 0, rest);
    return Some((argv, rest));
  }

  ghost function AfterVars(env: seq<Var>, t: Option<seq<Var>>): Option<seq<Var>> {
    if t.None? then None else Some(env + t.value)
  }

  function ReadVar(file: Str): (r: Option<(Var, Str)>) {
    var key :- Fgets(file, KEY);
    var value :- Fgets(key.1, VALUE);
    if Text(key.0) == [] || |Text(key.0)| + 1 + |Text(value.0)| >= ENTRY then None
    else Some((Var(Text(key.0), Text(value.0)), value.1))
  }

  lemma VarsStep(env: seq<Var>, k: nat, file: Str)
    ensures AfterVars([], ReadEnv(k, file)) == ReadEnv(k, file)
    ensures AfterVars(env, ReadEnv(0, file)) == Some(env)
    ensures k > 0 ==>
      var v := ReadVar(file);
      AfterVars(env, ReadEnv(k, file))
        == if v.None? then None else AfterVars(env + [v.value.0], ReadEnv(k - 1, v.value.1))
  {
    hide Fgets, Text;
    var all := ReadEnv(k, file);
    assert all.Some? ==> [] + all.value == all.value;
    assert env + [] == env;
    if k > 0 && ReadVar(file).Some? {
      var (v, rest) := ReadVar(file).value;
      var t := ReadEnv(k - 1, rest);
      assert t.Some? ==> env + ([v] + t.value) == env + [v] + t.value;
    }
  }

  method ReadVars(count: nat, start: Str) returns (r: Option<seq<Var>>)
    ensures r == ReadEnv(count, start)
  {
    hide ReadEnv, Fgets, Text, AfterVars;
    var rest, env := start, [];
    VarsStep(env, count, rest);
    for i := 0 to count
      invariant ReadEnv(count, start) == AfterVars(env, ReadEnv(count - i, rest))
    {
      VarsStep(env, count - i, rest);
      var key := Fgets(rest, KEY);
      if key.None? {
        return None;
      }
      var value := Fgets(key.value.1, VALUE);
      if value.None? {
        return None;
      }
      var v := Var(Text(key.value.0), Text(value.value.0));
      if v.key == [] || |v.key| + 1 + |v.value| >= ENTRY {
        return None;
      }
      env, rest := env + [v], value.value.1;
    }
    VarsStep(env, 0, rest);
    return Some(env);
  }

  method ReadMetadata(file: Str) returns (r: Option<Meta>)
    ensures r == Read(file)
  {
    var line := Fgets(file, IMAGE);
    if line.None? {
      return None;
    }
    var image := Text(line.value.0);
    line := Fgets(line.value.1, COUNT_LINE);
    if line.None? || Count(line.value.0) > MAX_ARGV {
      return None;
    }
    var args := ReadArgv(Count(line.value.0), line.value.1);
    if args.None? {
      return None;
    }
    line := Fgets(args.value.1, COUNT_LINE);
    if line.None? {
      return Some(Meta(image, args.value.0, []));
    }
    if Count(line.value.0) > MAX_ENV {
      return None;
    }
    var env := ReadVars(Count(line.value.0), line.value.1);
    return if env.None? then None else Some(Meta(image, args.value.0, env.value));
  }
}
