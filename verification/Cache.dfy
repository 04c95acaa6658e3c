// cache/cache.go: sixteen shards, each its own list, and the counters.
//
// One call at a time. What happens when calls overlap is module Flight.
module Cache {
  import opened Encoding
  import opened Lru

  const SHARDS := 16

  // No caching at all, and no expiry.
  const OFF := 0
  const FOREVER := -1

  // What a producing call comes back with.
  datatype Outcome<+V> = Good(val: V) | Bad(error: string)

  function Expiry(ttl: int, now: Instant): Option<Instant> {
    if ttl == FOREVER then None else Some(now + ttl)
  }

  function PerShard(capacity: int): nat {
    if (capacity + SHARDS - 1) / SHARDS < 1 then 1 else (capacity + SHARDS - 1) / SHARDS
  }

  function Slot(hash: string -> nat, key: string): (i: nat)
    ensures i < SHARDS
  {
    hash(key) % SHARDS
  }

  // ---- The whole cache as a value: what each shard's list holds.

  type ShardLists<V> = seq<seq<Held<V>>>

  ghost predicate Sound<V(!new)>(cs: ShardLists<V>, hash: string -> nat, per: nat) {
    && |cs| == SHARDS
    && (forall i :: 0 <= i < SHARDS ==> Unique(cs[i]) && |cs[i]| <= per)
    && (forall i, j :: 0 <= i < SHARDS && 0 <= j < |cs[i]| ==> Slot(hash, cs[i][j].key) == i)
  }

  function Hit<V>(cs: ShardLists<V>, hash: string -> nat, key: string, now: Instant): Option<V>
    requires |cs| == SHARDS
  {
    GetResult(cs[Slot(hash, key)], key, now)
  }

  function Looked<V>(cs: ShardLists<V>, hash: string -> nat, key: string, now: Instant): ShardLists<V>
    requires |cs| == SHARDS
  {
    cs[Slot(hash, key) := AfterGet(cs[Slot(hash, key)], key, now)]
  }

  function Kept<V>(cs: ShardLists<V>, hash: string -> nat, per: nat, h: Held<V>): ShardLists<V>
    requires |cs| == SHARDS
  {
    cs[Slot(hash, h.key) := AfterPut(cs[Slot(hash, h.key)], per, h)]
  }

  function Dropped<V>(cs: ShardLists<V>, hash: string -> nat, keys: seq<string>): (r: ShardLists<V>)
    requires |cs| == SHARDS
    ensures |r| == SHARDS
  {
    if keys == [] then cs
    else
      var before := Dropped(cs, hash, keys[..|keys| - 1]);
      var key := keys[|keys| - 1];
      before[Slot(hash, key) := Without(before[Slot(hash, key)], key)]
  }

  // The lists after a Do that found or did not find, and what it hands back.
  function AfterDo<V>(cs: ShardLists<V>, hash: string -> nat, per: nat, ttl: int, key: string, fn: Outcome<V>,
                      now: Instant, later: Instant): ShardLists<V>
    requires |cs| == SHARDS
  {
    if ttl == OFF then cs
    else
      var looked := Looked(cs, hash, key, now);
      if Hit(cs, hash, key, now).None? && fn.Good? then Kept(looked, hash, per, Held(key, fn.val, Expiry(ttl, later)))
      else looked
  }

  function Found<V>(cs: ShardLists<V>, hash: string -> nat, ttl: int, key: string, now: Instant): Option<V>
    requires |cs| == SHARDS
  {
    if ttl == OFF then None else Hit(cs, hash, key, now)
  }

  ghost predicate Holds<V(!new)>(cs: ShardLists<V>, h: Held<V>) {
    exists i :: 0 <= i < |cs| && h in cs[i]
  }

  // ---- What the operations keep, and what a key still finds.

  lemma GetKeeps<V(!new)>(s: seq<Held<V>>, key: string, now: Instant)
    requires Unique(s)
    ensures Unique(AfterGet(s, key, now)) && |AfterGet(s, key, now)| <= |s|
    ensures forall i :: 0 <= i < |AfterGet(s, key, now)| ==> AfterGet(s, key, now)[i] in s
  {
    WithoutKeeps(s, key);
  }

  lemma PutKeeps<V(!new)>(s: seq<Held<V>>, cap: nat, h: Held<V>)
    requires Unique(s) && |s| <= cap && 1 <= cap
    ensures Unique(AfterPut(s, cap, h)) && |AfterPut(s, cap, h)| <= cap
    ensures forall i :: 0 <= i < |AfterPut(s, cap, h)| ==>
              AfterPut(s, cap, h)[i] == h || (AfterPut(s, cap, h)[i] in s && AfterPut(s, cap, h)[i].key != h.key)
    ensures h in AfterPut(s, cap, h)
  {
    WithoutKeeps(s, h.key);
    assert AfterPut(s, cap, h)[0] == h;
  }

  lemma WithoutKeeps<V(!new)>(s: seq<Held<V>>, key: string)
    requires Unique(s)
    ensures Unique(Without(s, key)) && |Without(s, key)| <= |s|
    ensures IndexOf(s, key) < |s| ==> |Without(s, key)| == |s| - 1
    ensures forall i :: 0 <= i < |Without(s, key)| ==> Without(s, key)[i] in s && Without(s, key)[i].key != key
    ensures forall h :: h in s && h.key != key ==> h in Without(s, key)
  {
    hide IndexOf;
    var i, t := IndexOf(s, key), Without(s, key);
    if i < |s| {
      forall j | 0 <= j < |t| ensures t[j] == s[if j < i then j else j + 1] {}
      forall h | h in s && h.key != key ensures h in t {
        var j :| 0 <= j < |s| && s[j] == h;
        assert t[if j < i then j else j - 1] == h;
      }
    }
  }

  lemma LookedSound<V(!new)>(cs: ShardLists<V>, hash: string -> nat, per: nat, key: string, now: Instant)
    requires Sound(cs, hash, per)
    ensures |Looked(cs, hash, key, now)| == SHARDS && Sound(Looked(cs, hash, key, now), hash, per)
    ensures forall h :: Holds(Looked(cs, hash, key, now), h) ==> Holds(cs, h)
  {
    hide AfterGet;
    GetKeeps(cs[Slot(hash, key)], key, now);
  }

  lemma KeptSound<V(!new)>(cs: ShardLists<V>, hash: string -> nat, per: nat, h: Held<V>)
    requires Sound(cs, hash, per) && 1 <= per
    ensures Sound(Kept(cs, hash, per, h), hash, per)
    ensures forall g :: Holds(Kept(cs, hash, per, h), g) ==> g == h || (Holds(cs, g) && g.key != h.key)
    ensures Holds(Kept(cs, hash, per, h), h)
  {
    hide AfterPut;
    var i, t := Slot(hash, h.key), Kept(cs, hash, per, h);
    PutKeeps(cs[i], per, h);
    assert h in t[i];
    forall g | Holds(t, g) ensures g == h || (Holds(cs, g) && g.key != h.key) {
      var j :| 0 <= j < |t| && g in t[j];
      assert j != i ==> g in cs[j];
    }
  }

  // A delete takes away the named keys and nothing else.
  lemma {:induction false} DroppedIff<V(!new)>(cs: ShardLists<V>, hash: string -> nat, per: nat, keys: seq<string>)
    requires Sound(cs, hash, per)
    ensures Sound(Dropped(cs, hash, keys), hash, per)
    ensures forall h :: Holds(Dropped(cs, hash, keys), h) <==> Holds(cs, h) && h.key !in keys
  {
    if keys != [] {
      var n := |keys| - 1;
      DroppedIff(cs, hash, per, keys[..n]);
      DropOne(Dropped(cs, hash, keys[..n]), hash, per, keys[n]);
      assert keys == keys[..n] + [keys[n]];
    }
  }

  lemma DropOne<V(!new)>(cs: ShardLists<V>, hash: string -> nat, per: nat, key: string)
    requires Sound(cs, hash, per)
    ensures var t := cs[Slot(hash, key) := Without(cs[Slot(hash, key)], key)];
            Sound(t, hash, per) && forall h :: Holds(t, h) <==> Holds(cs, h) && h.key != key
  {
    hide Without;
    var i := Slot(hash, key);
    var t := cs[i := Without(cs[i], key)];
    WithoutKeeps(cs[i], key);
    forall h | Holds(cs, h) && h.key != key ensures Holds(t, h) {
      var j :| 0 <= j < |cs| && h in cs[j];
      assert h in t[j];
    }
    forall h | Holds(t, h) ensures Holds(cs, h) && h.key != key {
      var j :| 0 <= j < |t| && h in t[j];
      assert h in cs[j];
    }
  }

  // A hit is a live entry held under that key, and a live entry is a hit.
  lemma HitIff<V(!new)>(cs: ShardLists<V>, hash: string -> nat, per: nat, key: string, now: Instant, v: V)
    requires Sound(cs, hash, per)
    ensures Hit(cs, hash, key, now) == Some(v) <==>
          exists h :: Holds(cs, h) && h.key == key && h.val == v && Live(h, now)
  {
    var s := cs[Slot(hash, key)];
    var i := IndexOf(s, key);
    if Hit(cs, hash, key, now) == Some(v) {
      assert s[i] in s;
      assert Holds(cs, s[i]) && s[i].key == key && s[i].val == v;
    }
    if h :| Holds(cs, h) && h.key == key && h.val == v && Live(h, now) {
      var a :| 0 <= a < |cs| && h in cs[a];
      var b :| 0 <= b < |cs[a]| && cs[a][b] == h;
      assert a == Slot(hash, key);
      assert b == i;
    }
  }

  // What a Do finds was held, and what it leaves held was held or is what it
  // just produced.
  lemma DoKeeps<V(!new)>(cs: ShardLists<V>, hash: string -> nat, per: nat, ttl: int, key: string, fn: Outcome<V>,
                   now: Instant, later: Instant)
    requires |cs| == SHARDS && Sound(cs, hash, per) && 1 <= per
    ensures Found(cs, hash, ttl, key, now).Some? ==>
              exists h :: Holds(cs, h) && h.key == key && h.val == Found(cs, hash, ttl, key, now).value
    ensures forall h | Holds(AfterDo(cs, hash, per, ttl, key, fn, now, later), h) ::
              Holds(cs, h) || (fn.Good? && h.key == key && h.val == fn.val)
  {
    hide Looked, Kept, Hit, Sound, Holds;
    LookedSound(cs, hash, per, key, now);
    if Found(cs, hash, ttl, key, now).Some? {
      HitIff(cs, hash, per, key, now, Found(cs, hash, ttl, key, now).value);
    } else if ttl != OFF && fn.Good? {
      KeptSound(Looked(cs, hash, key, now), hash, per, Held(key, fn.val, Expiry(ttl, later)));
    }
  }

  // ---- Sizes.

  function Entries<V>(cs: ShardLists<V>): nat {
    if cs == [] then 0 else Entries(cs[..|cs| - 1]) + |cs[|cs| - 1]|
  }

  lemma {:induction false} EntriesBound<V(!new)>(cs: ShardLists<V>, per: nat)
    requires forall i :: 0 <= i < |cs| ==> |cs[i]| <= per
    ensures Entries(cs) <= |cs| * per
  {
    if cs != [] {
      EntriesBound(cs[..|cs| - 1], per);
      assert |cs| * per == (|cs| - 1) * per + per;
    }
  }

  lemma NothingSound<V(!new)>(hash: string -> nat, per: nat)
    ensures Sound<V>(seq(SHARDS, i => []), hash, per)
  {
  }

  // What a cache asked for so many entries can come to hold.
  lemma CapacityHolds<V(!new)>(cs: ShardLists<V>, hash: string -> nat, capacity: int)
    requires Sound(cs, hash, PerShard(capacity))
    ensures Entries(cs) <= SHARDS * PerShard(capacity)
    ensures capacity >= 1 ==> capacity <= 16 * PerShard(capacity) && Entries(cs) <= capacity + 15
    ensures capacity < 1 ==> PerShard(capacity) == 1 && Entries(cs) <= 16
  {
    EntriesBound(cs, PerShard(capacity));
  }

  // ---- The cache, as written.

  datatype Stats = Stats(hits: nat, misses: nat, evictions: nat, entries: nat)

  class Cache<V(!new)> {
    const hash: string -> nat
    const ttl: int
    const per: nat
    const shards: seq<Shard<V>>
    var hits: nat
    var misses: nat
    var evictions: nat
    ghost var lists: ShardLists<V>
    ghost var Repr: set<object>

    // Each shard is whole, and no two share an entry.
    ghost predicate Parts()
      reads this, Repr
    {
      && this in Repr && |shards| == SHARDS && |lists| == SHARDS && 1 <= per
      && (forall i :: 0 <= i < SHARDS ==> shards[i] in Repr && shards[i].Repr() <= Repr && this !in shards[i].Repr())
      && (forall i :: 0 <= i < SHARDS ==> shards[i].Valid() && shards[i].cap == per && shards[i].Contents() == lists[i])
      && (forall i, j :: 0 <= i < j < SHARDS ==> shards[i].Repr() !! shards[j].Repr())
    }

    ghost predicate Valid()
      reads this, Repr
    {
      Parts() && this in Repr && 1 <= per && |lists| == SHARDS && Sound(lists, hash, per)
    }

    constructor (hash: string -> nat, capacity: int, ttl: int)
      ensures Valid() && fresh(Repr)
      ensures this.hash == hash && this.ttl == ttl && per == PerShard(capacity)
      ensures lists == seq(SHARDS, i => []) && hits == 0 && misses == 0 && evictions == 0
    {
      hide Sound, Shard.Valid, Shard.Repr, Shard.Contents;
      NothingSound<V>(hash, PerShard(capacity));
      var made: seq<Shard<V>> := [];
      ghost var repr: set<object> := {};
      while |made| < SHARDS
        invariant |made| <= SHARDS && fresh(repr)
        invariant forall i :: 0 <= i < |made| ==> made[i] in repr && made[i].Repr() <= repr
        invariant forall i :: 0 <= i < |made| ==>
                    made[i].Valid() && made[i].cap == PerShard(capacity) && made[i].Contents() == []
        invariant forall i, j :: 0 <= i < j < |made| ==> made[i].Repr() !! made[j].Repr()
      {
        var s := new Shard<V>(PerShard(capacity));
        repr := repr + s.Repr();
        made := made + [s];
      }
      this.hash, this.ttl, per, shards := hash, ttl, PerShard(capacity), made;
      hits, misses, evictions := 0, 0, 0;
      lists := seq(SHARDS, i => []);
      Repr := {this} + repr;
    }

    lemma Part(i: nat)
      requires Parts() && i < SHARDS
      ensures |shards| == SHARDS && |lists| == SHARDS && 1 <= per && this in Repr
      ensures shards[i] in Repr && shards[i].Repr() <= Repr && this !in shards[i].Repr()
      ensures shards[i].Valid() && shards[i].cap == per && shards[i].Contents() == lists[i]
    {
    }

    // Work in one shard is no business of the others.
    twostate lemma Apart(i: nat)
      requires old(Parts()) && i < SHARDS == |shards| == |lists| && lists == old(lists)[i := lists[i]]
      requires forall o :: o in old(Repr) && o != this && o !in old(shards[i].Repr()) ==> unchanged(o)
      requires shards[i].Valid() && shards[i].cap == per && shards[i].Contents() == lists[i]
      requires fresh(shards[i].Repr() - old(shards[i].Repr())) && Repr == old(Repr) + shards[i].Repr()
      ensures Parts() && fresh(Repr - old(Repr))
    {
      hide Shard.Valid, Shard.Repr, Shard.Contents;
      forall j | 0 <= j < SHARDS && j != i
        ensures shards[j].Valid() && shards[j].Contents() == lists[j] && shards[j].Repr() == old(shards[j].Repr())
      {
        assert shards[j].Repr() !! old(shards[i].Repr());
        assert forall o :: o in old(shards[j].Repr()) ==> unchanged(o);
      }
    }

    method Get(key: string, now: Instant) returns (found: Option<V>)
      requires Valid()
      modifies Repr
      ensures Valid() && fresh(Repr - old(Repr))
      ensures found == Found(old(lists), hash, ttl, key, now)
      ensures lists == if ttl == OFF then old(lists) else Looked(old(lists), hash, key, now)
      ensures hits == old(hits) + if found.Some? then 1 else 0
      ensures misses == old(misses) + if found.None? && ttl != OFF then 1 else 0
      ensures evictions == old(evictions)
    {
      hide Parts, Sound, GetResult, AfterGet, Shard.Valid, Shard.Repr, Shard.Contents;
      if ttl == OFF { return None; }
      var i := Slot(hash, key);
      Part(i);
      LookedSound(lists, hash, per, key, now);
      found := shards[i].Get(key, now);
      lists, Repr := Looked(lists, hash, key, now), Repr + shards[i].Repr();
      if found.Some? { hits := hits + 1; } else { misses := misses + 1; }
      Apart(i);
    }

    method Put(key: string, v: V, now: Instant)
      requires Valid()
      modifies Repr
      ensures Valid() && fresh(Repr - old(Repr))
      ensures lists == if ttl == OFF then old(lists) else Kept(old(lists), hash, per, Held(key, v, Expiry(ttl, now)))
      ensures hits == old(hits) && misses == old(misses)
      ensures evictions == old(evictions) +
                           if ttl != OFF && Evicts(old(lists)[Slot(hash, key)], per, key) then 1 else 0
    {
      hide Parts, Sound, Evicts, AfterPut, Shard.Valid, Shard.Repr, Shard.Contents;
      if ttl == OFF { return; }
      var i, h := Slot(hash, key), Held(key, v, Expiry(ttl, now));
      Part(i);
      KeptSound(lists, hash, per, h);
      var evicted := shards[i].Put(key, v, Expiry(ttl, now));
      lists, Repr := Kept(lists, hash, per, h), Repr + shards[i].Repr();
      if evicted { evictions := evictions + 1; }
      Apart(i);
    }

    // fn is what the producing call would come back with; the clock is read
    // once before it and once after.
    method Do(key: string, fn: Outcome<V>, now: Instant, later: Instant) returns (r: Outcome<V>, called: bool)
      requires Valid()
      modifies Repr
      ensures Valid() && fresh(Repr - old(Repr))
      ensures var hit := Found(old(lists), hash, ttl, key, now);
              && called == hit.None? && r == (if called then fn else Good(hit.value))
              && hits == old(hits) + (if called then 0 else 1)
              && misses == old(misses) + (if called && ttl != OFF then 1 else 0)
      ensures lists == AfterDo(old(lists), hash, per, ttl, key, fn, now, later)
      ensures evictions == old(evictions) +
                           if called && fn.Good? && ttl != OFF
                              && Evicts(Looked(old(lists), hash, key, now)[Slot(hash, key)], per, key) then 1 else 0
    {
      hide Parts, Sound, Evicts, AfterPut, GetResult, AfterGet;
      if ttl == OFF { return fn, true; }
      var found := Get(key, now);
      if found.Some? { return Good(found.value), false; }
      if fn.Good? {
        Put(key, fn.val, later);
      }
      return fn, true;
    }

    method Delete(keys: seq<string>)
      requires Valid()
      modifies Repr
      ensures Valid() && fresh(Repr - old(Repr))
      ensures lists == Dropped(old(lists), hash, keys)
      ensures hits == old(hits) && misses == old(misses) && evictions == old(evictions)
    {
      hide Parts, Sound, Without;
      assert keys[..0] == [];
      for n := 0 to |keys|
        invariant Valid() && fresh(Repr - old(Repr))
        invariant lists == Dropped(old(lists), hash, keys[..n])
        invariant hits == old(hits) && misses == old(misses) && evictions == old(evictions)
      {
        Drop(keys[n]);
        assert keys[..n + 1][..n] == keys[..n];
      }
      assert keys[..|keys|] == keys;
    }

    method Drop(key: string)
      requires Valid()
      modifies Repr
      ensures Valid() && fresh(Repr - old(Repr))
      ensures lists == old(lists)[Slot(hash, key) := Without(old(lists)[Slot(hash, key)], key)]
      ensures hits == old(hits) && misses == old(misses) && evictions == old(evictions)
    {
      hide Parts, Sound, Without, Shard.Valid, Shard.Repr, Shard.Contents;
      var i := Slot(hash, key);
      Part(i);
      DropOne(lists, hash, per, key);
      shards[i].Remove(key);
      lists, Repr := lists[i := Without(lists[i], key)], Repr + shards[i].Repr();
      Apart(i);
    }

    method Clear()
      requires Valid()
      modifies Repr
      ensures Valid() && fresh(Repr - old(Repr))
      ensures lists == seq(SHARDS, i => [])
      ensures hits == old(hits) && misses == old(misses) && evictions == old(evictions)
    {
      hide Parts, Sound;
      for n := 0 to SHARDS
        invariant Valid() && fresh(Repr - old(Repr)) && |lists| == SHARDS
        invariant forall i :: 0 <= i < n ==> lists[i] == []
        invariant hits == old(hits) && misses == old(misses) && evictions == old(evictions)
      {
        Empty(n);
      }
    }

    method Empty(i: nat)
      requires Valid() && i < SHARDS
      modifies Repr
      ensures Valid() && fresh(Repr - old(Repr))
      ensures lists == old(lists)[i := []]
      ensures hits == old(hits) && misses == old(misses) && evictions == old(evictions)
    {
      hide Parts, Shard.Valid, Shard.Repr, Shard.Contents;
      Part(i);
      shards[i].Clear();
      lists, Repr := lists[i := []], Repr + shards[i].Repr();
      Apart(i);
    }

    method Report() returns (s: Stats)
      requires Valid()
      ensures s == Stats(hits, misses, evictions, Entries(lists)) && s.entries <= SHARDS * per
    {
      var entries := 0;
      assert lists[..0] == [];
      for n := 0 to SHARDS
        invariant entries == Entries(lists[..n])
      {
        entries := entries + |shards[n].ll|;
        assert |shards[n].Contents()| == |lists[n]|;
        assert lists[..n + 1][..n] == lists[..n];
      }
      assert lists[..SHARDS] == lists;
      EntriesBound(lists, per);
      return Stats(hits, misses, evictions, entries);
    }
  }
}
