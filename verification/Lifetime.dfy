// cache/cache.go: for how long a value is answered with, in numbers.
module Lifetime {
  import opened Encoding
  import C = Cache
  import L = Lru

  // ---- One value.

  // A value put at t answers at u exactly until t + ttl.
  method PutThenGet<V(!new)>(c: C.Cache<V>, key: string, v: V, t: L.Instant, u: L.Instant) returns (found: Option<V>)
    requires c.Valid()
    modifies c.Repr
    ensures c.Valid() && fresh(c.Repr - old(c.Repr))
    ensures found == if c.ttl != C.OFF && (c.ttl == C.FOREVER || u < t + c.ttl) then Some(v) else None
  {
    hide C.Cache.Parts, C.Sound, C.Kept, C.Hit, C.Holds, C.Looked;
    ghost var cs := c.lists;
    if c.ttl != C.OFF {
      KeptAnswers(cs, c.hash, c.per, c.ttl, key, v, t, u);
    }
    c.Put(key, v, t);
    found := c.Get(key, u);
  }

  // So does one that a Do produced and stored at `later`.
  method DoThenGet<V(!new)>(c: C.Cache<V>, key: string, fn: C.Outcome<V>, now: L.Instant, later: L.Instant,
                            u: L.Instant)
    returns (called: bool, found: Option<V>)
    requires c.Valid()
    modifies c.Repr
    ensures c.Valid() && fresh(c.Repr - old(c.Repr))
    ensures called && fn.Good? ==>
              found == if c.ttl != C.OFF && (c.ttl == C.FOREVER || u < later + c.ttl) then Some(fn.val) else None
  {
    hide C.Cache.Parts, C.Sound, C.Kept, C.Hit, C.Holds, C.Looked;
    ghost var cs := c.lists;
    C.LookedSound(cs, c.hash, c.per, key, now);
    if c.ttl != C.OFF && fn.Good? {
      KeptAnswers(C.Looked(cs, c.hash, key, now), c.hash, c.per, c.ttl, key, fn.val, later, u);
    }
    var r;
    r, called := c.Do(key, fn, now, later);
    found := c.Get(key, u);
  }

  lemma KeptAnswers<V(!new)>(cs: C.ShardLists<V>, hash: string -> nat, per: nat, ttl: int, key: string, v: V,
                             t: L.Instant, u: L.Instant)
    requires |cs| == C.SHARDS && C.Sound(cs, hash, per) && 1 <= per
    ensures var after := C.Kept(cs, hash, per, L.Held(key, v, C.Expiry(ttl, t)));
            |after| == C.SHARDS && C.Hit(after, hash, key, u) == if ttl == C.FOREVER || u < t + ttl then Some(v)
                else None
  {
    hide C.Sound, C.Kept, C.Hit, C.Holds;
    var h := L.Held(key, v, C.Expiry(ttl, t));
    var after := C.Kept(cs, hash, per, h);
    C.KeptSound(cs, hash, per, h);
    SoundShape(after, hash, per);
    C.HitIff(after, hash, per, key, u, v);
    if C.Hit(after, hash, key, u).Some? {
      C.HitIff(after, hash, per, key, u, C.Hit(after, hash, key, u).value);
    }
  }

  lemma SoundShape<V(!new)>(cs: C.ShardLists<V>, hash: string -> nat, per: nat)
    requires C.Sound(cs, hash, per)
    ensures |cs| == C.SHARDS
  {
  }

  // ---- Any run of a cache.

  datatype Op<V> =
    | Put(key: string, v: V, at: L.Instant)
    | Get(key: string, at: L.Instant)
    | Do(key: string, fn: C.Outcome<V>, at: L.Instant, later: L.Instant)
    | Delete(keys: seq<string>)
    | Clear

  // What a Get or a Do was answered from the cache, and whether a Do called fn.
  datatype Reply<V> = Reply(found: Option<V>, called: bool)

  ghost predicate Stores<V(!new)>(ttl: int, op: Op<V>, reply: Reply<V>, key: string, v: V, t: L.Instant) {
    match op
    case Put(k, w, at) => ttl != C.OFF && k == key && w == v && at == t
    case Do(k, fn, _, later) => ttl != C.OFF && reply.called && fn == C.Good(v) && k == key && later == t
    case _ => false
  }

  // It leaves something else under the key, or nothing.
  predicate Touches<V>(ttl: int, op: Op<V>, reply: Reply<V>, key: string) {
    match op
    case Put(k, _, _) => ttl != C.OFF && k == key
    case Get(_, _) => false
    case Do(k, fn, _, _) => ttl != C.OFF && reply.called && fn.Good? && k == key
    case Delete(keys) => key in keys
    case Clear => true
  }

  // Operation j stored this at t, and none since has touched the key.
  ghost predicate Since<V(!new)>(ttl: int, ops: seq<Op<V>>, replies: seq<Reply<V>>, j: nat, t: L.Instant, key: string,
                                 v: V) {
    && j < |replies| <= |ops| && Stores(ttl, ops[j], replies[j], key, v, t)
    && forall m :: j < m < |replies| ==> !Touches(ttl, ops[m], replies[m], key)
  }

  // The value under the key is the last one stored there, and its time is not up.
  ghost predicate InTime<V(!new)>(ttl: int, ops: seq<Op<V>>, replies: seq<Reply<V>>, key: string, v: V, u: L.Instant) {
    exists j, t :: Since(ttl, ops, replies, j, t, key, v) && (ttl == C.FOREVER || u < t + ttl)
  }

  ghost predicate Asks<V(!new)>(op: Op<V>, key: string, u: L.Instant) {
    (op.Get? || op.Do?) && op.key == key && op.at == u
  }

  ghost predicate Traced<V(!new)>(ttl: int, ops: seq<Op<V>>, replies: seq<Reply<V>>, h: L.Held<V>) {
    exists j, t ::
      && Since(ttl, ops, replies, j, t, h.key, h.val)
      && (if ttl == C.FOREVER then h.expires == None else h.expires == Some(t + ttl))
  }

  ghost predicate AllTraced<V(!new)>(ttl: int, ops: seq<Op<V>>, replies: seq<Reply<V>>, cs: C.ShardLists<V>) {
    forall h | C.Holds(cs, h) :: Traced(ttl, ops, replies, h)
  }

  // Whatever is answered from the cache, at whatever moment of whatever run, is the
  // last value stored under its key and not taken away since, within its time.
  method Replay<V(!new)>(c: C.Cache<V>, ops: seq<Op<V>>) returns (replies: seq<Reply<V>>)
    requires c.Valid() && c.lists == seq(C.SHARDS, i => [])
    modifies c.Repr
    ensures |replies| == |ops|
    ensures forall i, key, u | 0 <= i < |ops| && Asks(ops[i], key, u) && replies[i].found.Some? ::
              InTime(c.ttl, ops, replies[..i], key, replies[i].found.value, u)
  {
    hide C.Cache.Valid, C.Holds, InTime, AllTraced, Asks;
    replies := [];
    NothingTraced(c.ttl, ops);
    Shape(c);
    for n := 0 to |ops|
      invariant c.Valid() && fresh(c.Repr - old(c.Repr)) && |replies| == n
      invariant AllTraced(c.ttl, ops, replies, c.lists)
      invariant forall i, key, u | 0 <= i < n && Asks(ops[i], key, u) && replies[i].found.Some? ::
                  InTime(c.ttl, ops, replies[..i], key, replies[i].found.value, u)
    {
      var reply := Step(c, ops, replies);
      assert (replies + [reply])[..n] == replies;
      assert forall i :: 0 <= i < n ==> (replies + [reply])[..i] == replies[..i];
      replies := replies + [reply];
    }
  }

  method Step<V(!new)>(c: C.Cache<V>, ops: seq<Op<V>>, replies: seq<Reply<V>>) returns (reply: Reply<V>)
    requires c.Valid() && |replies| < |ops| && AllTraced(c.ttl, ops, replies, c.lists)
    modifies c.Repr
    ensures c.Valid() && fresh(c.Repr - old(c.Repr))
    ensures AllTraced(c.ttl, ops, replies + [reply], c.lists)
    ensures forall key, u | Asks(ops[|replies|], key, u) && reply.found.Some? ::
              InTime(c.ttl, ops, replies, key, reply.found.value, u)
  {
    hide C.Cache.Parts, C.Sound, C.Holds, C.Kept, C.Looked, C.Hit, C.Dropped, InTime, AllTraced;
    ghost var cs, hash, per, ttl := c.lists, c.hash, c.per, c.ttl;
    var op := ops[|replies|];
    match op
    case Put(key, v, at) =>
      if ttl != C.OFF {
        C.KeptSound(cs, hash, per, L.Held(key, v, C.Expiry(ttl, at)));
      }
      c.Put(key, v, at);
      reply := Reply(None, false);
      Onward(ttl, ops, replies, reply, cs, c.lists, v, at);
    case Get(key, at) =>
      C.LookedSound(cs, hash, per, key, at);
      FoundInTime(ttl, ops, replies, cs, hash, per, key, at);
      var found := c.Get(key, at);
      reply := Reply(found, false);
      SameOnward(ttl, ops, replies, reply, cs, c.lists);
    case Do(key, fn, at, later) =>
      C.LookedSound(cs, hash, per, key, at);
      FoundInTime(ttl, ops, replies, cs, hash, per, key, at);
      if ttl != C.OFF && fn.Good? {
        C.KeptSound(C.Looked(cs, hash, key, at), hash, per, L.Held(key, fn.val, C.Expiry(ttl, later)));
      }
      var r, called := c.Do(key, fn, at, later);
      reply := Reply(if called || r.Bad? then None else Some(r.val), called);
      if fn.Good? {
        Onward(ttl, ops, replies, reply, cs, c.lists, fn.val, later);
      } else {
        SameOnward(ttl, ops, replies, reply, cs, c.lists);
      }
    case Delete(keys) =>
      C.DroppedIff(cs, hash, per, keys);
      c.Delete(keys);
      reply := Reply(None, false);
      SameOnward(ttl, ops, replies, reply, cs, c.lists);
    case Clear =>
      c.Clear();
      reply := Reply(None, false);
      NoneHeld<V>();
      SameOnward(ttl, ops, replies, reply, cs, c.lists);
  }

  lemma Shape<V(!new)>(c: C.Cache<V>)
    requires c.Valid()
    ensures |c.lists| == C.SHARDS
  {
  }

  lemma NoneHeld<V(!new)>()
    ensures var none: C.ShardLists<V> := seq(C.SHARDS, i => []);
            forall h :: !C.Holds(none, h)
  {
  }

  lemma NothingTraced<V(!new)>(ttl: int, ops: seq<Op<V>>)
    ensures AllTraced(ttl, ops, [], seq(C.SHARDS, i => []))
  {
    NoneHeld<V>();
  }

  // What is held after an operation was held before and not touched, or is what
  // the operation stored.
  lemma Onward<V(!new)>(ttl: int, ops: seq<Op<V>>, replies: seq<Reply<V>>, reply: Reply<V>,
                        cs: C.ShardLists<V>, cs': C.ShardLists<V>, v: V, t: L.Instant)
    requires |replies| < |ops| && AllTraced(ttl, ops, replies, cs)
    requires forall h | C.Holds(cs', h) ::
               || (C.Holds(cs, h) && !Touches(ttl, ops[|replies|], reply, h.key))
               || (Stores(ttl, ops[|replies|], reply, h.key, v, t) && h == L.Held(h.key, v, C.Expiry(ttl, t)))
    ensures AllTraced(ttl, ops, replies + [reply], cs')
  {
    hide C.Holds, Touches, Stores;
    var more := replies + [reply];
    forall h | C.Holds(cs', h) ensures Traced(ttl, ops, more, h) {
      if C.Holds(cs, h) && !Touches(ttl, ops[|replies|], reply, h.key) {
        StillTraced(ttl, ops, replies, reply, h);
      } else {
        assert Since(ttl, ops, more, |replies|, t, h.key, h.val);
      }
    }
  }

  lemma StillTraced<V(!new)>(ttl: int, ops: seq<Op<V>>, replies: seq<Reply<V>>, reply: Reply<V>, h: L.Held<V>)
    requires |replies| < |ops| && Traced(ttl, ops, replies, h) && !Touches(ttl, ops[|replies|], reply, h.key)
    ensures Traced(ttl, ops, replies + [reply], h)
  {
    hide Touches, Stores;
    var j, t :| Since(ttl, ops, replies, j, t, h.key, h.val)
                && (if ttl == C.FOREVER then h.expires == None else h.expires == Some(t + ttl));
    assert Since(ttl, ops, replies + [reply], j, t, h.key, h.val);
  }

  lemma SameOnward<V(!new)>(ttl: int, ops: seq<Op<V>>, replies: seq<Reply<V>>, reply: Reply<V>,
                            cs: C.ShardLists<V>, cs': C.ShardLists<V>)
    requires |replies| < |ops| && AllTraced(ttl, ops, replies, cs)
    requires forall h | C.Holds(cs', h) :: C.Holds(cs, h) && !Touches(ttl, ops[|replies|], reply, h.key)
    ensures AllTraced(ttl, ops, replies + [reply], cs')
  {
    hide C.Holds, Touches, Stores;
    forall h | C.Holds(cs', h) ensures Traced(ttl, ops, replies + [reply], h) {
      StillTraced(ttl, ops, replies, reply, h);
    }
  }

  lemma FoundInTime<V(!new)>(ttl: int, ops: seq<Op<V>>, replies: seq<Reply<V>>, cs: C.ShardLists<V>,
                             hash: string -> nat, per: nat, key: string, u: L.Instant)
    requires |cs| == C.SHARDS && C.Sound(cs, hash, per) && AllTraced(ttl, ops, replies, cs)
    ensures var hit := C.Hit(cs, hash, key, u);
            hit.Some? ==> InTime(ttl, ops, replies, key, hit.value, u)
  {
    hide C.Holds, C.Hit, C.Sound, Since;
    var hit := C.Hit(cs, hash, key, u);
    if hit.Some? {
      C.HitIff(cs, hash, per, key, u, hit.value);
      var h :| C.Holds(cs, h) && h.key == key && h.val == hit.value && L.Live(h, u);
      assert Traced(ttl, ops, replies, h);
      var j, t :| Since(ttl, ops, replies, j, t, h.key, h.val)
                  && (if ttl == C.FOREVER then h.expires == None else h.expires == Some(t + ttl));
    }
  }
}
