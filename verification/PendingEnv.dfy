/** Environment variables configured ahead of the container they are for. */
module PendingEnv {
  import opened Basics
  import opened CText
  import Metadata

  const MAX := 128

  datatype Entry = Entry(kernel: Str, pod: Str, name: Str, key: Str, value: Str)

  datatype Key = Key(pod: Str, name: Str, key: Str)

  type Table = seq<Entry>

  function KeyOf(e: Entry): Key {
    Key(e.pod, e.name, e.key)
  }

  /** What the fixed-size fields of a configure_env request can hold. */
  predicate Holdable(e: Entry) {
    |e.kernel| < 64 && |e.pod| < 64 && |e.name| < 64 && |e.key| < 64 && |e.value| < 256
  }

  predicate For(e: Entry, pod: Str, name: Str) {
    e.pod == pod && e.name == name
  }

  // configure_env.

  function Find(t: Table, k: Key): (i: nat)
    ensures i <= |t| && (i < |t| ==> KeyOf(t[i]) == k)
    ensures forall j :: 0 <= j < i ==> KeyOf(t[j]) != k
    decreases |t|
  {
    if t == [] || KeyOf(t[0]) == k then 0 else 1 + Find(t[1..], k)
  }

  datatype Result = Ok | Invalid | NoSpace

  /** mkga_containerd_configure_env: replace in place, or append. */
  function Configure(t: Table, e: Entry): (r: (Result, Table)) {
    if e.pod == [] || e.name == [] || e.key == [] then (Invalid, t)
    else
      var i := Find(t, KeyOf(e));
      if i < |t| then (Ok, t[i := e])
      else if |t| >= MAX then (NoSpace, t)
      else (Ok, t + [e])
  }

  // apply_pending_env.

  /** `ok`, the environment collected so far, and the table's array contents. */
  datatype Applied = Applied(ok: bool, env: seq<Metadata.Var>, table: Table)

  /** The loop from entry `i` on, with `kept` compacted into the front of the array. */
  function ApplyFrom(t: Table, pod: Str, name: Str, i: nat, kept: Table, env: seq<Metadata.Var>): (r: Applied)
    requires |kept| <= i <= |t|
    decreases |t| - i
  {
    if i == |t| then Applied(true, env, kept)
    else if !For(t[i], pod, name) then ApplyFrom(t, pod, name, i + 1, kept + [t[i]], env)
    else if |env| >= MAX || t[i].key == [] || |t[i].key| + 1 + |t[i].value| >= Metadata.ENTRY
    then Applied(false, env, kept + t[|kept|..])
    else ApplyFrom(t, pod, name, i + 1, kept, env + [Metadata.Var(t[i].key, t[i].value)])
  }

  function Apply(t: Table, pod: Str, name: Str): (r: Applied) {
    ApplyFrom(t, pod, name, 0, [], [])
  }

  function Others(t: Table, pod: Str, name: Str): (r: Table)
    ensures |r| <= |t|
  {
    if t == [] then []
    else
      var i := |t| - 1;
      Others(t[..i], pod, name) + (if For(t[i], pod, name) then [] else [t[i]])
  }

  function Selected(t: Table, pod: Str, name: Str): (r: seq<Metadata.Var>)
    ensures |r| <= |t|
  {
    if t == [] then []
    else
      var i := |t| - 1;
      Selected(t[..i], pod, name) + (if For(t[i], pod, name) then [Metadata.Var(t[i].key, t[i].value)] else [])
  }

  // The table is an insertion-ordered map.

  ghost predicate Unique(t: Table) {
    forall i, j :: 0 <= i < j < |t| ==> KeyOf(t[i]) != KeyOf(t[j])
  }

  ghost predicate Sound(t: Table) {
    && |t| <= MAX
    && Unique(t)
    && forall e :: e in t ==> Holdable(e) && e.pod != [] && e.name != [] && e.key != []
  }

  function Keys(t: Table): (ks: seq<Key>)
    ensures |ks| == |t| && forall i :: 0 <= i < |t| ==> ks[i] == KeyOf(t[i])
  {
    seq(|t|, i requires 0 <= i < |t| => KeyOf(t[i]))
  }

  function Lookup(t: Table, k: Key): (r: Option<Entry>) {
    if Find(t, k) < |t| then Some(t[Find(t, k)]) else None
  }

  lemma LookupIsMember(t: Table, e: Entry)
    requires Unique(t)
    ensures Lookup(t, KeyOf(e)) == Some(e) <==> e in t
  {
    if e in t {
      var i :| 0 <= i < |t| && t[i] == e;
    }
  }

  lemma ReplaceSound(t: Table, e: Entry, i: nat)
    requires Sound(t) && Holdable(e) && e.pod != [] && e.name != [] && e.key != []
    requires i < |t| && KeyOf(t[i]) == KeyOf(e)
    ensures Sound(t[i := e]) && Keys(t[i := e]) == Keys(t)
  {
  }

  lemma AppendSound(t: Table, e: Entry)
    requires Sound(t) && Holdable(e) && e.pod != [] && e.name != [] && e.key != []
    requires |t| < MAX && KeyOf(e) !in Keys(t)
    ensures Sound(t + [e]) && Keys(t + [e]) == Keys(t) + [KeyOf(e)]
  {
    assert forall i :: 0 <= i < |t| ==> KeyOf(t[i]) == Keys(t)[i];
  }

  lemma FindsKey(t: Table, k: Key)
    ensures Find(t, k) < |t| <==> k in Keys(t)
  {
    if Find(t, k) < |t| {
      assert Keys(t)[Find(t, k)] == k;
    }
  }

  lemma SameKeysFind(t: Table, u: Table, k: Key)
    requires Keys(t) == Keys(u)
    ensures Find(t, k) == Find(u, k)
  {
    var i, j := Find(t, k), Find(u, k);
    assert forall n :: 0 <= n < |t| ==> KeyOf(t[n]) == Keys(t)[n] == KeyOf(u[n]);
  }

  lemma FindAppend(t: Table, e: Entry, k: Key)
    ensures Find(t + [e], k) == if Find(t, k) < |t| then Find(t, k) else if KeyOf(e) == k then |t| else |t| + 1
  {
    var i := Find(t + [e], k);
    assert forall n :: 0 <= n < |t| ==> (t + [e])[n] == t[n];
    assert (t + [e])[|t|] == e;
  }

  /** An accepted entry becomes the value of its key, at the key's old place or at the end; nothing else changes. */
  lemma ConfigureIsInsert(t: Table, e: Entry, k: Key)
    requires Sound(t) && Holdable(e)
    ensures var (r, t') := Configure(t, e);
      && Sound(t')
      && (r.Ok? <==> e.pod != [] && e.name != [] && e.key != [] && (KeyOf(e) in Keys(t) || |t| < MAX))
      && (r.Invalid? <==> e.pod == [] || e.name == [] || e.key == [])
      && (!r.Ok? ==> t' == t)
      && (r.Ok? ==> Keys(t') == if KeyOf(e) in Keys(t) then Keys(t) else Keys(t) + [KeyOf(e)])
      && Lookup(t', k) == if r.Ok? && k == KeyOf(e) then Some(e) else Lookup(t, k)
  {
    if e.pod == [] || e.name == [] || e.key == [] {
      return;
    }
    assert |t| <= MAX;
    hide Sound, Keys, Holdable;
    var i := Find(t, KeyOf(e));
    FindsKey(t, KeyOf(e));
    if i < |t| {
      ReplaceSound(t, e, i);
      SameKeysFind(t, t[i := e], k);
    } else if |t| < MAX {
      AppendSound(t, e);
      FindAppend(t, e, k);
    }
  }

  lemma {:induction false} OthersMembers(t: Table, pod: Str, name: Str)
    ensures forall e :: e in Others(t, pod, name) <==> e in t && !For(e, pod, name)
    decreases |t|
  {
    if t != [] {
      var i := |t| - 1;
      OthersMembers(t[..i], pod, name);
      assert t == t[..i] + [t[i]];
    }
  }

  lemma {:induction false} OthersUnique(t: Table, pod: Str, name: Str)
    requires Unique(t)
    ensures Unique(Others(t, pod, name))
    decreases |t|
  {
    if t != [] {
      var i := |t| - 1;
      OthersUnique(t[..i], pod, name);
      OthersMembers(t[..i], pod, name);
      var r := Others(t[..i], pod, name);
      forall j | 0 <= j < |r|
        ensures KeyOf(r[j]) != KeyOf(t[i])
      {
        assert r[j] in t[..i];
      }
    }
  }

  /** Applying takes out exactly the entries of that container; the others keep their values and their order. */
  lemma OthersKept(t: Table, pod: Str, name: Str, k: Key)
    requires Sound(t)
    ensures Sound(Others(t, pod, name))
    ensures Lookup(Others(t, pod, name), k) == if k.pod == pod && k.name == name then None else Lookup(t, k)
  {
    var u := Others(t, pod, name);
    OthersUnique(t, pod, name);
    OthersMembers(t, pod, name);
    var i, j := Find(t, k), Find(u, k);
    if j < |u| {
      assert u[j] in u;
      LookupIsMember(t, u[j]);
    } else if i < |t| && !(k.pod == pod && k.name == name) {
      assert t[i] in u;
      LookupIsMember(u, t[i]);
    }
  }

  /** What set_env_entry takes. */
  predicate Presentable(e: Entry) {
    e.key != [] && |e.key| + 1 + |e.value| < Metadata.ENTRY
  }

  lemma SelectStep(t: Table, pod: Str, name: Str, i: nat)
    requires i < |t|
    ensures Others(t[..i + 1], pod, name)
         == if For(t[i], pod, name) then Others(t[..i], pod, name) else Others(t[..i], pod, name) + [t[i]]
    ensures Selected(t[..i + 1], pod, name)
         == if For(t[i], pod, name)
            then Selected(t[..i], pod, name) + [Metadata.Var(t[i].key, t[i].value)] else Selected(t[..i], pod, name)
  {
    assert t[..i + 1][..i] == t[..i];
    var kept, env := Others(t[..i], pod, name), Selected(t[..i], pod, name);
    assert kept + [] == kept && env + [] == env;
  }

  lemma {:induction false} ApplyLoop(t: Table, pod: Str, name: Str, i: nat)
    requires i <= |t| <= MAX && forall e :: e in t ==> Presentable(e)
    ensures ApplyFrom(t, pod, name, i, Others(t[..i], pod, name), Selected(t[..i], pod, name))
         == Applied(true, Selected(t, pod, name), Others(t, pod, name))
    decreases |t| - i
  {
    if i == |t| {
      assert t[..i] == t;
    } else {
      hide Others, Selected;
      assert t[i] in t;
      SelectStep(t, pod, name, i);
      ApplyLoop(t, pod, name, i + 1);
    }
  }

  /** In a sound table the error returns are unreachable, and the result is the matching entries in order. */
  lemma ApplyExact(t: Table, pod: Str, name: Str)
    requires Sound(t)
    ensures Apply(t, pod, name) == Applied(true, Selected(t, pod, name), Others(t, pod, name))
  {
    ApplyLoop(t, pod, name, 0);
  }

  // Whole runs.

  datatype Call = ConfigureEnv(e: Entry) | Create(pod: Str, name: Str)

  function Step(t: Table, c: Call): (t': Table) {
    match c
    case ConfigureEnv(e) => Configure(t, e).1
    case Create(pod, name) => Apply(t, pod, name).table
  }

  function Run(calls: seq<Call>): (t: Table) {
    if calls == [] then [] else Step(Run(calls[..|calls| - 1]), calls[|calls| - 1])
  }

  ghost predicate AllHoldable(calls: seq<Call>) {
    forall i :: 0 <= i < |calls| && calls[i].ConfigureEnv? ==> Holdable(calls[i].e)
  }

  /** The last accepted value of a key since its container was last created, if any. */
  function Latest(calls: seq<Call>, k: Key): (r: Option<Entry>) {
    if calls == [] then None
    else
      var i := |calls| - 1;
      match calls[i]
      case ConfigureEnv(e) =>
        if KeyOf(e) == k && Configure(Run(calls[..i]), e).0.Ok? then Some(e) else Latest(calls[..i], k)
      case Create(pod, name) =>
        if k.pod == pod && k.name == name then None else Latest(calls[..i], k)
  }

  /** In every run the table stays sound and holds, for each key, its latest value. */
  lemma {:induction false} LatestWins(calls: seq<Call>, k: Key)
    requires AllHoldable(calls)
    ensures Sound(Run(calls)) && Lookup(Run(calls), k) == Latest(calls, k)
    decreases |calls|
  {
    if calls != [] {
      var i := |calls| - 1;
      LatestWins(calls[..i], k);
      var t := Run(calls[..i]);
      match calls[i]
      case ConfigureEnv(e) => ConfigureIsInsert(t, e, k);
      case Create(pod, name) =>
        ApplyExact(t, pod, name);
        OthersKept(t, pod, name, k);
    }
  }

  /** In every run, creating a container succeeds and hands it its pending variables in insertion order. */
  lemma CreateAlwaysApplies(calls: seq<Call>, pod: Str, name: Str)
    requires AllHoldable(calls)
    ensures var t := Run(calls);
      Apply(t, pod, name) == Applied(true, Selected(t, pod, name), Others(t, pod, name))
  {
    LatestWins(calls, Key(pod, name, []));
    ApplyExact(Run(calls), pod, name);
  }

  // The array as the source keeps it.

  class Pending {
    const slots: array<Entry>
    var count: nat

    ghost predicate Valid()
      reads this
    {
      slots.Length == MAX && count <= MAX
    }

    ghost function View(): Table
      requires Valid()
      reads this, slots
    {
      slots[..count]
    }

    constructor ()
      ensures Valid() && fresh(slots) && View() == []
    {
      slots := new Entry[MAX](i => Entry([], [], [], [], []));
      count := 0;
    }

    method ConfigureEnv(e: Entry) returns (r: Result)
      requires Valid()
      modifies this, slots
      ensures Valid() && (r, View()) == Configure(old(View()), e)
    {
      if e.pod == [] || e.name == [] || e.key == [] {
        return Invalid;
      }
      var slot := 0;
      while slot < count && !(slots[slot].pod == e.pod && slots[slot].name == e.name && slots[slot].key == e.key)
        invariant 0 <= slot <= count
        invariant forall j :: 0 <= j < slot ==> KeyOf(View()[j]) != KeyOf(e)
      {
        slot := slot + 1;
      }
      assert slot == Find(View(), KeyOf(e)) by {
        assert slot < count ==> KeyOf(View()[slot]) == KeyOf(e);
      }
      ghost var before := View();
      if slot == count {
        if count >= MAX {
          return NoSpace;
        }
        count := count + 1;
        slots[slot] := e;
        assert View() == before + [e];
        return Ok;
      }
      slots[slot] := e;
      assert View() == before[slot := e];
      return Ok;
    }

    /** In place: entries of other containers move down over those taken out. */
    method ApplyPendingEnv(pod: Str, name: Str) returns (ok: bool, env: seq<Metadata.Var>)
      requires Valid()
      modifies this, slots
      ensures Valid() && Applied(ok, env, View()) == Apply(old(View()), pod, name)
    {
      env := [];
      var writeIdx := 0;
      ghost var t := View();
      for i := 0 to count
        invariant Valid() && count == |t| && writeIdx <= i
        invariant forall j :: writeIdx <= j < count ==> slots[j] == t[j]
        invariant ApplyFrom(t, pod, name, i, slots[..writeIdx], env) == Apply(t, pod, name)
      {
        var e := slots[i];
        if e.pod != pod || e.name != name {
          ghost var kept := slots[..writeIdx];
          if writeIdx != i {
            slots[writeIdx] := e;
          }
          assert slots[..writeIdx + 1] == kept + [e];
          writeIdx := writeIdx + 1;
        } else {
          if |env| >= MAX || e.key == [] || |e.key| + 1 + |e.value| >= Metadata.ENTRY {
            assert View() == slots[..writeIdx] + t[writeIdx..];
            return false, env;
          }
          env := env + [Metadata.Var(e.key, e.value)];
        }
      }
      count := writeIdx;
      return true, env;
    }
  }
}
