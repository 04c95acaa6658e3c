// What least recently used means, said without a list: every key carries the
// moment it was last used, and the one used longest ago makes room. The list
// policy of a shard (cache/cache.go:263-350) is this, over every run.
module Recency {
  import opened Encoding
  import opened Lru

  datatype Stamped<V> = Stamped(entry: Held<V>, used: nat)

  datatype Clocked<V> = Clocked(held: map<string, Stamped<V>>, tick: nat)

  datatype Op<V> =
    | Get(key: string, now: Instant)
    | Put(entry: Held<V>)
    | Remove(key: string)
    | Clear

  // What the caller of an operation sees.
  datatype Answer<V> = Found(val: Option<V>) | Stored(evicted: bool) | Done

  // ---- The reference.

  ghost predicate Oldest<V>(c: Clocked<V>, key: string) {
    key in c.held && forall k :: k in c.held && k != key ==> c.held[key].used < c.held[k].used
  }

  ghost predicate Full<V>(c: Clocked<V>, cap: nat, key: string) {
    key !in c.held && |c.held| >= cap
  }

  function Use<V>(held: map<string, Stamped<V>>, tick: nat, h: Held<V>): Clocked<V> {
    Clocked(held[h.key := Stamped(h, tick)], tick + 1)
  }

  ghost function RefStep<V>(c: Clocked<V>, cap: nat, op: Op<V>): Clocked<V> {
    match op
    case Get(key, now) =>
      if key !in c.held then c
      else if Live(c.held[key].entry, now) then Use(c.held, c.tick, c.held[key].entry)
      else c.(held := c.held - {key})
    case Put(h) =>
      Use(if Full(c, cap, h.key) then map k | k in c.held && !Oldest(c, k) :: c.held[k] else c.held, c.tick, h)
    case Remove(key) => c.(held := c.held - {key})
    case Clear => c.(held := map[])
  }

  ghost function RefAnswer<V>(c: Clocked<V>, cap: nat, op: Op<V>): Answer<V> {
    match op
    case Get(key, now) =>
      Found(if key in c.held && Live(c.held[key].entry, now) then Some(c.held[key].entry.val) else None)
    case Put(h) => Stored(Full(c, cap, h.key))
    case Remove(_) => Done
    case Clear => Done
  }

  // ---- The list, as the shard keeps it.

  function Step<V>(s: seq<Held<V>>, cap: nat, op: Op<V>): seq<Held<V>> {
    match op
    case Get(key, now) => AfterGet(s, key, now)
    case Put(h) => AfterPut(s, cap, h)
    case Remove(key) => Without(s, key)
    case Clear => []
  }

  function AnswerOf<V>(s: seq<Held<V>>, cap: nat, op: Op<V>): Answer<V> {
    match op
    case Get(key, now) => Found(GetResult(s, key, now))
    case Put(h) => Stored(Evicts(s, cap, h.key))
    case Remove(_) => Done
    case Clear => Done
  }

  ghost function Keys<V>(s: seq<Held<V>>): set<string> {
    set i | 0 <= i < |s| :: s[i].key
  }

  // The stamp of the entry at each place of the list falls from front to back.
  ghost predicate Falling<V>(s: seq<Held<V>>, c: Clocked<V>)
    requires Keys(s) <= c.held.Keys
  {
    forall i, j :: 0 <= i < j < |s| ==> Stamp(s, c, j) < Stamp(s, c, i)
  }

  function Stamp<V>(s: seq<Held<V>>, c: Clocked<V>, i: nat): nat
    requires i < |s| && s[i].key in c.held
  {
    c.held[s[i].key].used
  }

  // The same entries, the list in order of use.
  ghost predicate Same<V>(s: seq<Held<V>>, c: Clocked<V>) {
    && Keys(s) == c.held.Keys
    && (forall i :: 0 <= i < |s| ==> c.held[s[i].key].entry == s[i] && Stamp(s, c, i) < c.tick)
    && Falling(s, c)
  }

  lemma SameUnique<V>(s: seq<Held<V>>, c: Clocked<V>)
    requires Same(s, c)
    ensures Unique(s)
  {
    forall i, j | 0 <= i < j < |s| ensures s[i].key != s[j].key { assert Stamp(s, c, j) < Stamp(s, c, i); }
  }

  lemma KeysCons<V>(h: Held<V>, s: seq<Held<V>>)
    ensures Keys([h] + s) == {h.key} + Keys(s)
  {
    var t := [h] + s;
    assert t[0].key in Keys(t);
    forall i | 0 <= i < |s| ensures s[i].key in Keys(t) { assert t[i + 1] == s[i]; }
  }

  lemma KeysCut<V>(s: seq<Held<V>>, i: nat)
    requires Unique(s) && i < |s|
    ensures Keys(Cut(s, i)) == Keys(s) - {s[i].key}
  {
    var t := Cut(s, i);
    forall j | 0 <= j < |t| ensures t[j].key in Keys(s) - {s[i].key} { assert t[j] == s[if j < i then j else j + 1]; }
    forall j | 0 <= j < |s| && j != i ensures s[j].key in Keys(t) { assert s[j] == t[if j < i then j else j - 1]; }
  }

  lemma {:induction false} KeysSize<V>(s: seq<Held<V>>)
    requires Unique(s)
    ensures |Keys(s)| == |s|
  {
    if s == [] {
      assert Keys(s) == {};
    } else {
      KeysSize(s[1..]);
      KeysCons(s[0], s[1..]);
      assert s == [s[0]] + s[1..];
      assert s[0].key !in Keys(s[1..]);
    }
  }

  // What a key finds in the list is what the reference holds under it.
  lemma LookupIs<V>(s: seq<Held<V>>, c: Clocked<V>, key: string)
    requires Same(s, c)
    ensures Lookup(s, key) == if key in c.held then Some(c.held[key].entry) else None
    ensures key in c.held ==> c.held[key].entry.key == key
    ensures key in c.held ==>
          IndexOf(s, key) < |s| && s[IndexOf(s, key)].key == key && Without(s, key) == Cut(s, IndexOf(s, key))
    ensures key !in c.held ==> Without(s, key) == s
  {
    hide Falling, Stamp, IndexOf;
    var i := IndexOf(s, key);
    if i < |s| {
      assert s[i].key in Keys(s);
    } else {
      assert key !in Keys(s);
    }
  }

  // Taking the entry at one place away from both.
  lemma CutBoth<V>(s: seq<Held<V>>, c: Clocked<V>, i: nat)
    requires Same(s, c) && i < |s|
    ensures Same(Cut(s, i), c.(held := c.held - {s[i].key}))
  {
    SameUnique(s, c);
    KeysCut(s, i);
    var t, d := Cut(s, i), c.(held := c.held - {s[i].key});
    forall j | 0 <= j < |t| ensures d.held[t[j].key].entry == t[j] && Stamp(t, d, j) < d.tick {
      assert t[j] == s[if j < i then j else j + 1];
    }
    forall j, k | 0 <= j < k < |t| ensures Stamp(t, d, k) < Stamp(t, d, j) {
      var a, b := if j < i then j else j + 1, if k < i then k else k + 1;
      assert Stamp(s, c, b) < Stamp(s, c, a);
    }
  }

  lemma DropKey<V>(s: seq<Held<V>>, c: Clocked<V>, key: string)
    requires Same(s, c)
    ensures Same(Without(s, key), c.(held := c.held - {key}))
    ensures |Without(s, key)| == if key in c.held then |s| - 1 else |s|
  {
    hide Same, IndexOf, Without;
    LookupIs(s, c, key);
    if key in c.held {
      CutBoth(s, c, IndexOf(s, key));
    } else {
      assert c.held - {key} == c.held;
    }
  }

  // Using an entry that is in neither puts it first in both.
  lemma UseKey<V>(s: seq<Held<V>>, c: Clocked<V>, h: Held<V>)
    requires Same(s, c) && h.key !in c.held
    ensures Same([h] + s, Use(c.held, c.tick, h))
  {
    hide Keys, Stamp, Use;
    var t, d := [h] + s, Use(c.held, c.tick, h);
    KeysCons(h, s);
    assert d.held.Keys == {h.key} + c.held.Keys by { UseKeys(c, h); }
    forall j | 0 <= j < |t| ensures t[j].key in d.held && d.held[t[j].key].entry == t[j] && Stamp(t, d, j) < d.tick {
      StampCons(s, c, h, j);
    }
    forall j, k | 0 <= j < k < |t| ensures Stamp(t, d, k) < Stamp(t, d, j) {
      StampCons(s, c, h, j);
      StampCons(s, c, h, k);
      assert j > 0 ==> Stamp(s, c, k - 1) < Stamp(s, c, j - 1);
    }
  }

  lemma UseKeys<V>(c: Clocked<V>, h: Held<V>)
    ensures Use(c.held, c.tick, h).held.Keys == {h.key} + c.held.Keys
  {
  }

  // The stamps behind a new front are those there were.
  lemma StampCons<V>(s: seq<Held<V>>, c: Clocked<V>, h: Held<V>, j: nat)
    requires Same(s, c) && h.key !in c.held && j <= |s|
    ensures var t, d := [h] + s, Use(c.held, c.tick, h);
            && t[j].key in d.held && d.held[t[j].key].entry == t[j] && d.tick == c.tick + 1
            && (j == 0 ==> Stamp(t, d, j) == c.tick)
            && (j > 0 ==> s[j - 1].key in c.held && Stamp(t, d, j) == Stamp(s, c, j - 1) < c.tick)
  {
    assert j > 0 ==> ([h] + s)[j] == s[j - 1] && s[j - 1].key in Keys(s);
  }

  // The back of the list is the key used longest ago, and the only one.
  lemma BackIsOldest<V>(s: seq<Held<V>>, c: Clocked<V>)
    requires Same(s, c) && s != []
    ensures var last := s[|s| - 1].key;
            Oldest(c, last) && (forall k :: Oldest(c, k) ==> k == last)
  {
    var n := |s| - 1;
    assert s[n].key in Keys(s);
    forall k | k in c.held && k != s[n].key ensures c.held[s[n].key].used < c.held[k].used {
      assert k in Keys(s);
      var i :| 0 <= i < |s| && s[i].key == k;
      assert Stamp(s, c, n) < Stamp(s, c, i);
    }
  }

  // One operation on the list is the same operation on the reference, and the
  // shard stays within its capacity.
  lemma StepAgrees<V>(s: seq<Held<V>>, c: Clocked<V>, cap: nat, op: Op<V>)
    requires Same(s, c) && |s| <= cap && 1 <= cap
    ensures Same(Step(s, cap, op), RefStep(c, cap, op)) && |Step(s, cap, op)| <= cap
    ensures AnswerOf(s, cap, op) == RefAnswer(c, cap, op)
  {
    hide Same, IndexOf, Lookup, Without, Oldest, Unique, Keys;
    match op
    case Clear => NothingHeld(c);
    case Remove(key) => DropKey(s, c, key);
    case Get(key, now) =>
      LookupIs(s, c, key);
      DropKey(s, c, key);
      if key in c.held {
        GetStep(s, c, key);
      }
    case Put(h) =>
      LookupIs(s, c, h.key);
      PutStep(s, c, cap, h);
  }

  lemma NothingHeld<V>(c: Clocked<V>)
    ensures Same([], c.(held := map[]))
  {
  }

  lemma GetStep<V>(s: seq<Held<V>>, c: Clocked<V>, key: string)
    requires Same(s, c) && key in c.held
    ensures Same([c.held[key].entry] + Without(s, key), Use(c.held, c.tick, c.held[key].entry))
    ensures |Without(s, key)| == |s| - 1
  {
    hide Same, IndexOf, Without, Unique, Oldest;
    LookupIs(s, c, key);
    DropKey(s, c, key);
    var h := c.held[key].entry;
    UseKey(Without(s, key), c.(held := c.held - {key}), h);
    assert (c.held - {key})[key := Stamped(h, c.tick)] == c.held[key := Stamped(h, c.tick)];
  }

  // A put of a key that is already there, or that there is room for.
  lemma PutInPlace<V>(s: seq<Held<V>>, c: Clocked<V>, h: Held<V>)
    requires Same(s, c)
    ensures Same([h] + Without(s, h.key), Use(c.held, c.tick, h))
    ensures |Without(s, h.key)| == if h.key in c.held then |s| - 1 else |s|
  {
    hide Same, IndexOf, Without, Unique, Oldest;
    DropKey(s, c, h.key);
    UseKey(Without(s, h.key), c.(held := c.held - {h.key}), h);
    assert (c.held - {h.key})[h.key := Stamped(h, c.tick)] == c.held[h.key := Stamped(h, c.tick)];
  }

  // A put of a new key into a full shard.
  lemma PutOverOldest<V>(s: seq<Held<V>>, c: Clocked<V>, h: Held<V>)
    requires Same(s, c) && s != [] && h.key !in c.held
    ensures Same([h] + s[..|s| - 1], Use(map k | k in c.held && !Oldest(c, k) :: c.held[k], c.tick, h))
  {
    hide Same, IndexOf, Unique, Oldest;
    BackIsOldest(s, c);
    CutBoth(s, c, |s| - 1);
    var last := s[|s| - 1].key;
    assert c.held - {last} == map k | k in c.held && !Oldest(c, k) :: c.held[k];
    assert Cut(s, |s| - 1) == s[..|s| - 1];
    assert h.key !in c.held - {last};
    UseKey(s[..|s| - 1], c.(held := c.held - {last}), h);
  }

  lemma PutStep<V>(s: seq<Held<V>>, c: Clocked<V>, cap: nat, h: Held<V>)
    requires Same(s, c) && |s| <= cap && 1 <= cap
    ensures Same(AfterPut(s, cap, h), RefStep(c, cap, Put(h))) && |AfterPut(s, cap, h)| <= cap
    ensures Evicts(s, cap, h.key) == Full(c, cap, h.key)
  {
    hide Same, IndexOf, Lookup, Without, Oldest, Unique;
    Sizes(s, c);
    LookupIs(s, c, h.key);
    PutInPlace(s, c, h);
    if Evicts(s, cap, h.key) {
      PutOverOldest(s, c, h);
      assert ([h] + s)[..|s|] == [h] + s[..|s| - 1];
    }
  }

  lemma Sizes<V>(s: seq<Held<V>>, c: Clocked<V>)
    requires Same(s, c)
    ensures |c.held| == |s|
  {
    SameUnique(s, c);
    KeysSize(s);
    assert |c.held| == |c.held.Keys|;
  }

  // ---- Whole runs.

  function Run<V>(cap: nat, ops: seq<Op<V>>): seq<Held<V>> {
    if ops == [] then [] else Step(Run(cap, ops[..|ops| - 1]), cap, ops[|ops| - 1])
  }

  ghost function RefRun<V>(cap: nat, ops: seq<Op<V>>): Clocked<V> {
    if ops == [] then Clocked(map[], 0) else RefStep(RefRun(cap, ops[..|ops| - 1]), cap, ops[|ops| - 1])
  }

  // After any run the list answers the next operation as the reference does.
  lemma {:induction false} RunsAgree<V>(cap: nat, ops: seq<Op<V>>, next: Op<V>)
    requires 1 <= cap
    ensures Same(Run(cap, ops), RefRun(cap, ops)) && |Run(cap, ops)| <= cap
    ensures AnswerOf(Run(cap, ops), cap, next) == RefAnswer(RefRun(cap, ops), cap, next)
  {
    hide Same, Step, RefStep, AnswerOf, RefAnswer;
    if ops == [] {
      NothingHeld<V>(Clocked(map[], 0));
    } else {
      RunsAgree(cap, ops[..|ops| - 1], ops[|ops| - 1]);
      StepAgrees(Run(cap, ops[..|ops| - 1]), RefRun(cap, ops[..|ops| - 1]), cap, ops[|ops| - 1]);
    }
    StepAgrees(Run(cap, ops), RefRun(cap, ops), cap, next);
  }

  // The last value stored under a key that nothing has removed since.
  function Latest<V>(ops: seq<Op<V>>, key: string): Option<Held<V>> {
    if ops == [] then None
    else
      var before := Latest(ops[..|ops| - 1], key);
      match ops[|ops| - 1]
      case Get(_, _) => before
      case Put(h) => if h.key == key then Some(h) else before
      case Remove(k) => if k == key then None else before
      case Clear => None
  }

  // Everything a shard holds is the last value stored under its key.
  lemma {:induction false} HoldsTheLatest<V>(cap: nat, ops: seq<Op<V>>, i: nat)
    requires 1 <= cap && i < |Run(cap, ops)|
    ensures Latest(ops, Run(cap, ops)[i].key) == Some(Run(cap, ops)[i])
  {
    var before, op := Run(cap, ops[..|ops| - 1]), ops[|ops| - 1];
    var h := Run(cap, ops)[i];
    RunsAgree(cap, ops[..|ops| - 1], op);
    StepSource(before, cap, op, i);
    if h in before {
      var j :| 0 <= j < |before| && before[j] == h;
      HoldsTheLatest(cap, ops[..|ops| - 1], j);
    }
  }

  // Where an entry of the next list comes from.
  lemma StepSource<V>(s: seq<Held<V>>, cap: nat, op: Op<V>, i: nat)
    requires Unique(s) && i < |Step(s, cap, op)|
    ensures var h := Step(s, cap, op)[i];
            && !op.Clear?
            && (op.Remove? ==> h.key != op.key)
            && (h in s || (op.Put? && h == op.entry))
            && (op.Put? && h.key == op.entry.key ==> h == op.entry)
  {
    hide IndexOf, Without, Lookup, Unique;
    if op.Put? {
      WithoutGone(s, op.entry.key);
    } else if !op.Clear? {
      WithoutGone(s, op.key);
      LookupIn(s, op.key);
    }
  }

  lemma LookupIn<V>(s: seq<Held<V>>, key: string)
    ensures Lookup(s, key).Some? ==> Lookup(s, key).value in s
  {
  }

  lemma WithoutGone<V>(s: seq<Held<V>>, key: string)
    requires Unique(s)
    ensures forall i :: 0 <= i < |Without(s, key)| ==> Without(s, key)[i].key != key && Without(s, key)[i] in s
  {
  }

  // A get that answers gives the last value stored under the key, alive now.
  lemma GetGivesTheLatest<V>(cap: nat, ops: seq<Op<V>>, key: string, now: Instant)
    requires 1 <= cap && GetResult(Run(cap, ops), key, now).Some?
    ensures var h := Latest(ops, key);
            h.Some? && Live(h.value, now) && GetResult(Run(cap, ops), key, now) == Some(h.value.val)
  {
    HoldsTheLatest(cap, ops, IndexOf(Run(cap, ops), key));
  }
}
