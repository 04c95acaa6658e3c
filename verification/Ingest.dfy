// ingest/ingest.go: the pipeline, as written. Any write to the store or of a
// checkpoint may fail, and one that failed may have been done all the same.
module Ingest {
  import opened Encoding
  import opened Acl
  import opened Retrieve
  import opened Changes
  import opened Recovery

  lemma EmptyWrites(s: Scope, docs: Store)
    ensures PutAll(docs, []) == docs && DeleteAll(docs, []) == docs && SetAll(s, docs, map[]) == docs
  {
  }

  lemma SetOne(s: Scope, docs: Store, done: map<string, Permissions>, id: string, p: Permissions)
    requires id !in done
    ensures SetPermission(s, SetAll(s, docs, done), id, p) == SetAll(s, docs, done[id := p])
  {
  }

  // What outlives the process, and whether the times are steady: then no write
  // fails, nobody cancels and no source breaks off. Otherwise anything may, at any
  // moment. A process that dies is one whose writes all fail from some moment on.
  class World {
    var docs: Store
    var checkpoint: Cursor
    var steady: bool

    constructor (docs: Store, checkpoint: Cursor, steady: bool)
      ensures this.docs == docs && this.checkpoint == checkpoint && this.steady == steady
    {
      this.docs, this.checkpoint, this.steady := docs, checkpoint, steady;
    }

    // Whether the next thing that may fail does.
    method Fails() returns (fails: bool)
      ensures steady ==> !fails
    {
      fails := *;
      fails := fails && !steady;
    }

    // The first `n` documents were written.
    method Put(ds: seq<Document>) returns (ok: bool, ghost n: nat)
      modifies this`docs
      ensures n <= |ds| && docs == PutAll(old(docs), ds[..n])
      ensures (ok ==> n == |ds|) && (steady ==> ok)
    {
      n := 0;
      for i := 0 to |ds|
        invariant n == i && docs == PutAll(old(docs), ds[..i])
      {
        var fails := Fails();
        if fails {
          return false, n;
        }
        docs := docs[ds[i].id := ds[i]];
        assert ds[..i + 1][..i] == ds[..i];
        n := n + 1;
      }
      var fails := Fails();
      ok := !fails;
    }

    method Delete(ids: seq<string>) returns (ok: bool, ghost n: nat)
      modifies this`docs
      ensures n <= |ids| && docs == DeleteAll(old(docs), ids[..n])
      ensures (ok ==> n == |ids|) && (steady ==> ok)
    {
      n := 0;
      for i := 0 to |ids|
        invariant n == i && docs == DeleteAll(old(docs), ids[..i])
      {
        var fails := Fails();
        if fails {
          return false, n;
        }
        docs := docs - {ids[i]};
        n := n + 1;
      }
      var fails := Fails();
      ok := !fails;
    }

    // Map order, so the permissions that got in are any of them.
    method SetPermissions(s: Scope, perms: map<string, Permissions>)
        returns (ok: bool, changed: nat, ghost done: map<string, Permissions>)
      modifies this`docs
      ensures done.Keys <= perms.Keys && (forall id :: id in done ==> done[id] == perms[id])
      ensures docs == SetAll(s, old(docs), done)
      ensures (ok ==> done == perms) && (steady ==> ok)
    {
      hide SetAll, SetPermission;
      changed, done := 0, map[];
      EmptyWrites(s, docs);
      var left := perms.Keys;
      while left != {}
        invariant left <= perms.Keys && done.Keys == perms.Keys - left
        invariant forall id :: id in done ==> done[id] == perms[id]
        invariant docs == SetAll(s, old(docs), done)
      {
        var id :| id in left;
        var fails := Fails();
        if fails {
          return false, changed, done;
        }
        left := left - {id};
        if id in docs && docs[id].tenant == s.tenant {
          changed := changed + 1;
        }
        SetOne(s, old(docs), done, id, perms[id]);
        docs := SetPermission(s, docs, id, perms[id]);
        done := done[id := perms[id]];
      }
      assert done == perms;
      var fails := Fails();
      ok := !fails;
    }

    method Save(c: Cursor) returns (ok: bool)
      modifies this`checkpoint
      ensures checkpoint == old(checkpoint) || checkpoint == c
      ensures (ok ==> checkpoint == c) && (steady ==> ok)
    {
      var fails := Fails();
      ok := !fails;
      var wrote: bool := *;
      if ok || wrote {
        checkpoint := c;
      }
    }
  }

  datatype Error = Canceled | Refused | StoreFailed | SaveFailed | SourceFailed | EmptyTenant

  function Queryables(ds: seq<Document>): nat {
    if ds == [] then 0
    else Queryables(ds[..|ds| - 1]) + (if Queryable(ds[|ds| - 1]) then 1 else 0)
  }

  // What one call into a run may have done to the world. `waiting` is what was
  // buffered and not yet stored when the call wrote anything.
  ghost predicate Wrote(s: Scope, waiting: seq<Change>, pending: Cursor,
                        docs: Store, checkpoint: Cursor, docs': Store, checkpoint': Cursor, stored: bool) {
    if stored then
      docs' == Flushed(s, docs, waiting) && (checkpoint' == checkpoint || (pending != 0 && checkpoint' == pending))
    else
      PartOfFlush(s, docs, waiting, docs') && checkpoint' == checkpoint
  }

  lemma WroteAs(s: Scope, waiting: seq<Change>, pending: Cursor, docs: Store, checkpoint: Cursor)
    ensures forall docs' :: PartOfFlush(s, docs, waiting, docs') ==>
              Wrote(s, waiting, pending, docs, checkpoint, docs', checkpoint, false)
    ensures var docs' := Flushed(s, docs, waiting);
            && Wrote(s, waiting, pending, docs, checkpoint, docs', checkpoint, true)
            && (pending != 0 ==> Wrote(s, waiting, pending, docs, checkpoint, docs', pending, true))
  {
    hide PartOfFlush, Flushed;
  }

  lemma NothingWritten(s: Scope, waiting: seq<Change>, docs: Store)
    ensures PartOfFlush(s, docs, waiting, docs)
  {
    hide Documents, Deletes, Perms;
    var none: map<string, Permissions> := map[];
    assert Documents(s, waiting)[..0] == [] && Deletes(waiting)[..0] == [];
    assert PutAll(docs, []) == docs && DeleteAll(docs, []) == docs && SetAll(s, docs, none) == docs;
    assert docs == SetAll(s, DeleteAll(PutAll(docs, Documents(s, waiting)[..0]), Deletes(waiting)[..0]), none);
  }

  lemma PartWritten(s: Scope, waiting: seq<Change>, docs: Store, i: nat, j: nat, done: map<string, Permissions>)
    requires i <= |Documents(s, waiting)| && j <= |Deletes(waiting)| && done.Keys <= Perms(waiting).Keys
    requires forall id :: id in done ==> done[id] == Perms(waiting)[id]
    ensures PartOfFlush(s, docs, waiting, SetAll(s, DeleteAll(PutAll(docs, Documents(s, waiting)[..i]),
                                                              Deletes(waiting)[..j]), done))
  {
  }

  lemma FlushOfNothing(s: Scope, docs: Store, waiting: seq<Change>)
    requires Documents(s, waiting) == [] && Deletes(waiting) == [] && Perms(waiting) == map[]
    ensures Flushed(s, docs, waiting) == docs
  {
    EmptyWrites(s, docs);
  }

  lemma WholeFlush(s: Scope, docs: Store, waiting: seq<Change>, docs': Store)
    requires docs' == SetAll(s, DeleteAll(PutAll(docs, Documents(s, waiting)), Deletes(waiting)), Perms(waiting))
    ensures docs' == Flushed(s, docs, waiting)
  {
  }

  lemma BuffersOfNothing(s: Scope)
    ensures Documents(s, []) == [] && Deletes([]) == [] && Perms([]) == map[]
  {
  }

  // How one more change moves the buffers.
  lemma OneMoreBuffered(s: Scope, chs: seq<Change>, ch: Change)
    ensures Documents(s, chs + [ch]) == Documents(s, chs) + (if IsPut(ch) then [Stamp(s, ch.doc)] else [])
    ensures Deletes(chs + [ch]) == Deletes(chs) + (if IsDelete(ch) then [ch.doc.id] else [])
    ensures Perms(chs + [ch]) == if IsPermissions(ch) then Perms(chs)[ch.doc.id := ch.doc.permissions] else Perms(chs)
    ensures Queryables(Documents(s, chs + [ch])) ==
            Queryables(Documents(s, chs)) + (if IsPut(ch) && Queryable(Stamp(s, ch.doc)) then 1 else 0)
  {
    assert (chs + [ch])[..|chs|] == chs;
    var before := Documents(s, chs);
    assert forall d: Document :: (before + [d])[..|before|] == before;
    assert before + [] == before;
  }

  // One sync's mutable state.
  class Run {
    const world: World
    const scope: Scope
    const batchSize: nat
    const maintains: bool

    var batch: seq<Document>
    var deletes: seq<string>
    var perms: map<string, Permissions>
    var pending: Cursor
    var cursor: Cursor
    var indexed: nat
    var quarantined: nat
    var deleted: nat
    var skipped: nat
    var repermissioned: nat
    var batches: nat

    // Every change taken so far, and how many of them are in the store.
    ghost var emitted: seq<Change>
    ghost var stored: nat

    ghost function Waiting(): seq<Change>
      requires stored <= |emitted|
      reads this
    {
      emitted[stored..]
    }

    // What maybeFlush compares with the batch size.
    function Held(): nat
      reads this
    {
      |batch| + |deletes| + |perms|
    }

    ghost predicate Valid()
      reads this
    {
      && stored <= |emitted|
      && batch == Documents(scope, Waiting()) && deletes == Deletes(Waiting()) && perms == Perms(Waiting())
      && indexed + quarantined == |Documents(scope, emitted)| && indexed == Queryables(Documents(scope, emitted))
      && deleted == |Deletes(emitted)|
    }

    // Room for one more change.
    ghost predicate Ready()
      reads this
    {
      Valid() && Held() < batchSize
    }

    constructor (world: World, scope: Scope, batchSize: nat, maintains: bool, from: Cursor)
      requires batchSize > 0
      ensures this.world == world && this.scope == scope && this.batchSize == batchSize && this.maintains == maintains
      ensures Ready() && emitted == [] && stored == 0 && pending == 0 && deleted == 0 && cursor == from
    {
      this.world, this.scope, this.batchSize, this.maintains := world, scope, batchSize, maintains;
      batch, deletes, perms, pending, cursor := [], [], map[], 0, from;
      indexed, quarantined, deleted, skipped, repermissioned, batches := 0, 0, 0, 0, 0, 0;
      emitted, stored := [], 0;
    }

    // The three store writes of a flush, in their fixed order.
    method WriteBatch(ghost waiting: seq<Change>) returns (ok: bool)
      requires batch == Documents(scope, waiting) && deletes == Deletes(waiting) && perms == Perms(waiting)
      modifies this`repermissioned, world`docs
      ensures ok ==> world.docs == Flushed(scope, old(world.docs), waiting)
      ensures !ok ==> PartOfFlush(scope, old(world.docs), waiting, world.docs)
      ensures world.steady ==> ok
    {
      hide Documents, Deletes, Perms, PutAll, DeleteAll, SetAll, PartOfFlush, Flushed;
      ghost var docs, n, m, done := world.docs, 0, 0, map[];
      EmptyWrites(scope, docs);
      ok := true;
      if batch != [] {
        ok, n := world.Put(batch);
      }
      assert batch[..0] == [] && deletes[..0] == [] && (batch == [] ==> batch[..n] == []);
      assert world.docs == PutAll(docs, batch[..n]);
      EmptyWrites(scope, world.docs);
      if !ok {
        PartWritten(scope, waiting, docs, n, 0, map[]);
        return;
      }
      assert batch[..n] == batch;
      if deletes != [] {
        ok, m := world.Delete(deletes);
      }
      assert deletes == [] ==> deletes[..m] == deletes;
      assert world.docs == DeleteAll(PutAll(docs, batch), deletes[..m]);
      EmptyWrites(scope, world.docs);
      if !ok {
        PartWritten(scope, waiting, docs, n, m, map[]);
        return;
      }
      assert deletes[..m] == deletes;
      if perms != map[] {
        var changed;
        ok, changed, done := world.SetPermissions(scope, perms);
        if !ok {
          PartWritten(scope, waiting, docs, n, m, done);
          return;
        }
        repermissioned := repermissioned + changed;
      }
      WholeFlush(scope, docs, waiting, world.docs);
    }

    // Writes what is buffered and then the checkpoint that covers it.
    method Flush() returns (err: Option<Error>)
      requires Valid()
      modifies this, world
      ensures Valid() && emitted == old(emitted) && pending == old(pending)
      ensures indexed == old(indexed) && quarantined == old(quarantined) && deleted == old(deleted)
      ensures stored == old(stored) || stored == |emitted|
      ensures Wrote(scope, old(Waiting()), pending, old(world.docs), old(world.checkpoint),
                    world.docs, world.checkpoint, stored == |emitted|)
      ensures err.None? ==> stored == |emitted| && batch == [] && deletes == [] && perms == map[]
      ensures err in {None, Some(StoreFailed), Some(SaveFailed)}
      ensures world.steady == old(world.steady)
      ensures world.steady ==>
                err.None? && world.checkpoint == if old(Held()) > 0 && pending != 0 then pending
                    else old(world.checkpoint)
    {
      hide Documents, Deletes, Perms, PartOfFlush, Flushed, Queryables, ApplyAll, Buffered, Wrote;
      ghost var waiting, docs, checkpoint := Waiting(), world.docs, world.checkpoint;
      BuffersOfNothing(scope);
      WroteAs(scope, waiting, pending, docs, checkpoint);
      if Held() == 0 {
        assert batch == [] && deletes == [] && perms == map[];
        FlushOfNothing(scope, world.docs, waiting);
        stored := |emitted|;
        assert Waiting() == [];
        return None;
      }
      assert waiting != [];
      var ok := WriteBatch(waiting);
      if !ok {
        return Some(StoreFailed);
      }
      batches := batches + 1;
      batch, deletes, perms := [], [], map[];
      stored := |emitted|;
      assert Waiting() == [];
      if pending != 0 {
        ok := world.Save(pending);
        if !ok {
          return Some(SaveFailed);
        }
        cursor := pending;
      }
      return None;
    }

    // What becomes of the next change. `canceled` says its context has ended.
    method Emit(ch: Change, canceled: bool) returns (err: Option<Error>)
      requires Ready()
      modifies this, world
      ensures Valid()
      ensures canceled ==> err == Some(Canceled)
      ensures err == Some(Canceled) ==>
            canceled && emitted == old(emitted) && stored == old(stored) && pending == old(pending)
                                        && world.docs == old(world.docs) && world.checkpoint == old(world.checkpoint)
      ensures err == Some(Refused) <==> !canceled && IsPermissions(ch) && !maintains
      ensures err == Some(Refused) ==> emitted == old(emitted) && stored == old(stored)
                                       && world.docs == old(world.docs) && world.checkpoint == old(world.checkpoint)
      ensures world.steady == old(world.steady)
      ensures err != Some(Canceled) ==> pending == if ch.cursor != 0 then ch.cursor else old(pending)
      ensures err !in {Some(Canceled), Some(Refused)} ==>
                && emitted == old(emitted) + [ch]
                && (stored == old(stored) || stored == |emitted|)
                && Buffered(scope, emitted[old(stored)..]) <= batchSize
                && (world.steady ==>
                      err.None? && stored == if Buffered(scope, emitted[old(stored)..]) >= batchSize then |emitted|
                          else old(stored))
                && Wrote(scope, emitted[old(stored)..], pending, old(world.docs), old(world.checkpoint),
                         world.docs, world.checkpoint, stored == |emitted|)
      ensures err.None? ==> Ready()
    {
      hide Documents, Deletes, Perms, Queryables, Wrote;
      if canceled {
        return Some(Canceled);
      }
      if ch.cursor != 0 {
        pending := ch.cursor;
      }
      if IsPermissions(ch) && !maintains {
        return Some(Refused);
      }
      Take(ch);
      err := MaybeFlush();
    }

    // The buffering half of emit.
    method Take(ch: Change)
      requires Ready()
      modifies this
      ensures Valid() && emitted == old(emitted) + [ch] && stored == old(stored) && pending == old(pending)
      ensures Held() <= batchSize
    {
      hide Documents, Deletes, Perms, Queryables;
      OneMoreBuffered(scope, emitted, ch);
      OneMoreBuffered(scope, Waiting(), ch);
      assert (emitted + [ch])[stored..] == Waiting() + [ch];
      var d := Stamp(scope, ch.doc);
      if d.id == "" {
        skipped := skipped + 1;
      } else if ch.deleted {
        deletes := deletes + [d.id];
        deleted := deleted + 1;
      } else if ch.permissionsOnly {
        perms := perms[d.id := d.permissions];
      } else {
        if Queryable(d) {
          indexed := indexed + 1;
        } else {
          quarantined := quarantined + 1;
        }
        batch := batch + [d];
      }
      emitted := emitted + [ch];
    }

    method MaybeFlush() returns (err: Option<Error>)
      requires Valid() && batchSize > 0 && stored < |emitted|
      modifies this, world
      ensures Valid() && emitted == old(emitted) && pending == old(pending)
      ensures indexed == old(indexed) && quarantined == old(quarantined) && deleted == old(deleted)
      ensures stored == old(stored) || stored == |emitted|
      ensures Wrote(scope, old(Waiting()), pending, old(world.docs), old(world.checkpoint),
                    world.docs, world.checkpoint, stored == |emitted|)
      ensures err.None? ==> Ready()
      ensures err in {None, Some(StoreFailed), Some(SaveFailed)}
      ensures world.steady == old(world.steady)
      ensures world.steady ==> err.None? && stored == if old(Held()) >= batchSize then |emitted| else old(stored)
    {
      hide Documents, Deletes, Perms, PutAll, DeleteAll, SetAll, PartOfFlush, Flushed, Queryables;
      if Held() < batchSize {
        NothingWritten(scope, Waiting(), world.docs);
        return None;
      }
      err := Flush();
    }
  }

  // ---- A sync, and any number of them.

  // A cursor covers no change that comes later than its own.
  ghost predicate Honest(stream: seq<Change>) {
    forall i :: 0 <= i < |stream| ==> stream[i].cursor <= i + 1
  }

  // No stretch of the stream short enough to be one batch puts an id again after
  // deleting it or overtaking its permissions.
  ghost predicate Calm(s: Scope, stream: seq<Change>, batchSize: nat) {
    forall i, j :: 0 <= i <= j <= |stream| && Buffered(s, stream[i..j]) <= batchSize ==> InFlushOrder(s, stream[i..j])
  }

  // One call's writes, seen from the whole stream.
  lemma Advances(plan: Plan, reach: nat, from: nat, to: nat, pending: Cursor,
                 docs: Store, checkpoint: Cursor, docs': Store, checkpoint': Cursor, done: bool)
    requires Safe(plan, docs, from, reach) && from <= to <= |plan.stream|
    requires InFlushOrder(plan.scope, plan.stream[from..to])
    requires Wrote(plan.scope, plan.stream[from..to], pending, docs, checkpoint, docs', checkpoint', done)
    ensures Safe(plan, docs', if done then to else from, Max(reach, to))
    ensures checkpoint <= from && pending <= to ==> checkpoint' <= if done then to else from
  {
    hide Safe, InFlushOrder, PartOfFlush, Flushed;
    if done {
      SafeFlush(plan, docs, from, reach, to);
    } else {
      SafePart(plan, docs, from, reach, to, docs');
    }
  }

  // A run that was given no cursor saves none.
  lemma WithoutCursor(s: Scope, waiting: seq<Change>, pending: Cursor,
                      docs: Store, checkpoint: Cursor, docs': Store, checkpoint': Cursor, done: bool)
    requires Wrote(s, waiting, pending, docs, checkpoint, docs', checkpoint', done)
    ensures pending == 0 ==> checkpoint' == checkpoint
  {
    hide Flushed, PartOfFlush;
  }

  // Safe, if the stream's batches are in the order a flush writes them.
  ghost predicate Sound(plan: Plan, batchSize: nat, docs: Store, from: nat, reach: nat) {
    from <= reach <= |plan.stream| && (Calm(plan.scope, plan.stream, batchSize) ==> Safe(plan, docs, from, reach))
  }

  lemma SoundAdvances(plan: Plan, batchSize: nat, reach: nat, from: nat, to: nat, pending: Cursor,
                      docs: Store, checkpoint: Cursor, docs': Store, checkpoint': Cursor, done: bool)
    requires Sound(plan, batchSize, docs, from, reach) && from <= to <= |plan.stream|
    requires Buffered(plan.scope, plan.stream[from..to]) <= batchSize
    requires Wrote(plan.scope, plan.stream[from..to], pending, docs, checkpoint, docs', checkpoint', done)
    ensures Sound(plan, batchSize, docs', if done then to else from, Max(reach, to))
    ensures checkpoint <= from && pending <= to ==> checkpoint' <= if done then to else from
    ensures checkpoint' == checkpoint || (done && checkpoint' == pending != 0)
  {
    hide Safe, Calm, InFlushOrder, Buffered, PartOfFlush, Flushed;
    if Calm(plan.scope, plan.stream, batchSize) {
      CalmHere(plan.scope, plan.stream, batchSize, from, to);
      Advances(plan, reach, from, to, pending, docs, checkpoint, docs', checkpoint', done);
    }
  }

  lemma SoundResume(plan: Plan, batchSize: nat, docs: Store, from: nat, reach: nat, checkpoint: nat)
    requires Sound(plan, batchSize, docs, from, reach) && checkpoint <= from
    ensures Sound(plan, batchSize, docs, checkpoint, reach)
  {
    hide Safe, Calm;
    if Calm(plan.scope, plan.stream, batchSize) {
      SafeResume(plan, docs, from, reach, checkpoint);
    }
  }

  lemma SoundHere(plan: Plan, batchSize: nat, docs: Store, k: nat)
    requires Sound(plan, batchSize, docs, k, k) && Calm(plan.scope, plan.stream, batchSize)
    ensures docs == ApplyAll(plan.scope, plan.init, plan.stream[..k])
  {
    hide Calm;
    assert plan.stream[k..k] == [];
    NothingApplied(plan.scope, docs);
  }

  // A run that resumed at `base` and has taken everything up to `k`.
  ghost predicate Underway(run: Run, plan: Plan, base: nat, k: nat, reach: nat)
    reads run, run.world
  {
    && base <= k <= |plan.stream| && run.scope == plan.scope
    && run.Valid() && run.emitted == plan.stream[base..k]
    && Buffered(run.scope, run.Waiting()) <= run.batchSize
    && Sound(plan, run.batchSize, run.world.docs, base + run.stored, reach)
  }

  // The checkpoint, and the one about to be saved, pass nothing that is not stored.
  ghost predicate Behind(run: Run, base: nat, k: nat)
    reads run, run.world
  {
    run.pending <= k && run.world.checkpoint <= base + run.stored
  }

  lemma CalmHere(s: Scope, stream: seq<Change>, batchSize: nat, i: nat, j: nat)
    requires Calm(s, stream, batchSize) && i <= j <= |stream|
    ensures Buffered(s, stream[i..j]) <= batchSize ==> InFlushOrder(s, stream[i..j])
  {
  }

  // One change of the stream. A change that is cancelled or refused is not taken;
  // a refused one has moved the pending cursor all the same.
  method EmitNext(run: Run, ch: Change, canceled: bool, ghost plan: Plan, ghost base: nat, ghost k: nat,
                  ghost reach: nat)
    returns (err: Option<Error>, ghost reach': nat)
    requires k < |plan.stream| && ch == plan.stream[k] && Underway(run, plan, base, k, reach) && run.Ready()
    modifies run, run.world
    ensures var k' := if err == Some(Canceled) || err == Some(Refused) then k else k + 1;
            && Underway(run, plan, base, k', reach') && (err != Some(Refused) ==> reach' <= Max(reach, k'))
            && (old(Behind(run, base, k)) && ch.cursor <= k + 1 && err != Some(Refused) ==> Behind(run, base, k'))
    ensures old(run.pending) == 0 && ch.cursor == 0 ==>
          run.pending == 0 && run.world.checkpoint == old(run.world.checkpoint)
    ensures err.None? ==> run.Ready()
    ensures err == Some(Canceled) <==> canceled
    ensures err == Some(Refused) <==> !canceled && IsPermissions(ch) && !run.maintains
    ensures err == Some(Refused) ==>
              && run.pending == (if ch.cursor != 0 then ch.cursor else old(run.pending)) && reach' == reach
              && run.stored == old(run.stored) && run.world.checkpoint == old(run.world.checkpoint)
    ensures run.world.steady == old(run.world.steady)
    ensures run.world.steady && err != Some(Canceled) && err != Some(Refused) ==>
              && err.None?
              && base + run.stored == (if Buffered(run.scope, plan.stream[base + old(run.stored)..k + 1])
                                          >= run.batchSize
                                       then k + 1
                                       else base + old(run.stored))
  {
    hide Sound, Documents, Deletes, Perms, Wrote, Queryables, Buffered, IsPermissions;
    ghost var stored, docs, checkpoint := run.stored, run.world.docs, run.world.checkpoint;
    reach' := reach;
    err := run.Emit(ch, canceled);
    if !Taken(err) {
      return;
    }
    assert plan.stream[base..k + 1] == plan.stream[base..k] + [plan.stream[k]];
    assert run.emitted[stored..] == plan.stream[base + stored..k + 1];
    SoundAdvances(plan, run.batchSize, reach, base + stored, k + 1, run.pending, docs, checkpoint, run.world.docs,
                  run.world.checkpoint, run.stored == |run.emitted|);
    WithoutCursor(plan.scope, plan.stream[base + stored..k + 1], run.pending, docs, checkpoint, run.world.docs,
                  run.world.checkpoint, run.stored == |run.emitted|);
    reach' := Max(reach, k + 1);
    NoneWaiting(run.scope, run.emitted);
  }

  predicate Taken(err: Option<Error>) {
    err !in {Some(Canceled), Some(Refused)}
  }

  // The flush on the way out. The checkpoint stays, or moves to the pending cursor
  // with everything taken in the store.
  method FlushRest(run: Run, ghost plan: Plan, ghost base: nat, ghost k: nat, ghost reach: nat)
    returns (err: Option<Error>, ghost reach': nat)
    requires Underway(run, plan, base, k, reach)
    modifies run, run.world
    ensures reach' == Max(reach, k) && old(run.stored) <= run.stored <= k - base
    ensures Sound(plan, run.batchSize, run.world.docs, base + run.stored, reach')
    ensures run.world.checkpoint == old(run.world.checkpoint)
        || (run.world.checkpoint == run.pending != 0 && base + run.stored == k)
    ensures old(Behind(run, base, k)) ==> Sound(plan, run.batchSize, run.world.docs, run.world.checkpoint, reach')
    ensures err.None? ==> Sound(plan, run.batchSize, run.world.docs, k, reach')
    ensures run.emitted == old(run.emitted) && run.pending == old(run.pending) && run.Valid()
    ensures run.indexed == old(run.indexed) && run.quarantined == old(run.quarantined)
        && run.deleted == old(run.deleted)
    ensures err in {None, Some(StoreFailed), Some(SaveFailed)} && run.world.steady == old(run.world.steady)
    ensures run.world.steady ==>
              && err.None?
              && run.world.checkpoint == (if Buffered(run.scope, plan.stream[base + old(run.stored)..k]) > 0
                                          && run.pending != 0
                                          then run.pending else old(run.world.checkpoint))
  {
    hide Sound, Documents, Deletes, Perms, Queryables, Wrote;
    ghost var stored, docs, checkpoint := run.stored, run.world.docs, run.world.checkpoint;
    assert run.emitted[stored..] == plan.stream[base + stored..k];
    err := run.Flush();
    SoundAdvances(plan, run.batchSize, reach, base + stored, k, run.pending, docs, checkpoint, run.world.docs,
                  run.world.checkpoint, run.stored == |run.emitted|);
    reach' := Max(reach, k);
    if run.world.checkpoint <= base + run.stored {
      SoundResume(plan, run.batchSize, run.world.docs, base + run.stored, reach', run.world.checkpoint);
    }
  }

  // ---- Where a run that nothing disturbs has got to.

  // How much of stream[..k] is in the store once everything up to k is taken.
  function StoredBy(s: Scope, stream: seq<Change>, batchSize: nat, base: nat, k: nat): (r: nat)
    requires base <= k <= |stream|
    ensures base <= r <= k
  {
    if k == base then base
    else
      var before := StoredBy(s, stream, batchSize, base, k - 1);
      if Buffered(s, stream[before..k]) >= batchSize then k else before
  }

  // The first permission change from `base` on that a store without Maintenance meets.
  predicate FirstRefused(stream: seq<Change>, maintains: bool, base: nat, p: nat) {
    && !maintains && base <= p < |stream| && IsPermissions(stream[p])
    && forall i :: base <= i < p ==> !IsPermissions(stream[i])
  }

  predicate AnyRefused(stream: seq<Change>, maintains: bool, base: nat) {
    !maintains && exists i :: base <= i < |stream| && IsPermissions(stream[i])
  }

  lemma RefusalSays(stream: seq<Change>, maintains: bool, base: nat, p: nat)
    ensures FirstRefused(stream, maintains, base, p) <==>
              && !maintains && base <= p < |stream| && IsPermissions(stream[p])
              && forall i :: base <= i < p ==> !IsPermissions(stream[i])
    ensures AnyRefused(stream, maintains, base) <==>
              !maintains && exists i :: base <= i < |stream| && IsPermissions(stream[i])
  {
  }

  // It carries its own cursor, and something is waiting to be written when it comes.
  predicate Skipped(s: Scope, stream: seq<Change>, batchSize: nat, base: nat, p: nat)
    requires base <= p < |stream|
  {
    stream[p].cursor == p + 1 && Buffered(s, stream[StoredBy(s, stream, batchSize, base, p)..p]) > 0
  }

  function Min(a: nat, b: nat): nat {
    if a <= b then a else b
  }

  // Run: resume from the checkpoint, take what the connector emits until it stops
  // or something fails, flush what is in hand either way, and only after a clean
  // end save the connector's own final cursor. `at` is where it was refused.
  method Sync(world: World, scope: Scope, batchSize: nat, maintains: bool, stream: seq<Change>, final: Cursor,
              ghost plan: Plan, ghost reach: nat)
    returns (err: Option<Error>, ghost reach': nat, ghost at: nat)
    requires batchSize > 0 && plan.scope == scope && plan.stream == stream && final <= |stream|
    requires Honest(stream) && Sound(plan, batchSize, world.docs, world.checkpoint, reach)
    modifies world
    ensures world.steady == old(world.steady)
    ensures err != Some(Refused) ==> Sound(plan, batchSize, world.docs, world.checkpoint, reach')
    ensures err.None? && Calm(scope, stream, batchSize) ==> world.docs == ApplyAll(scope, plan.init, stream)
    ensures err.None? && final != 0 ==> world.checkpoint == final
    ensures err == Some(Refused) ==>
              && !maintains && old(world.checkpoint) <= at < |stream| && IsPermissions(stream[at])
              && (forall i :: old(world.checkpoint) <= i < at ==> !IsPermissions(stream[i]))
              && world.checkpoint <= at + 1
              && Sound(plan, batchSize, world.docs, Min(world.checkpoint, at), reach')
    ensures world.steady && scope.tenant != "" ==>
              (err == None || err == Some(Refused))
              && (err == Some(Refused) <==>
                    !maintains && exists i :: old(world.checkpoint) <= i < |stream| && IsPermissions(stream[i]))
    ensures world.steady && err == Some(Refused) ==>
              && (world.checkpoint > at <==> Skipped(scope, stream, batchSize, old(world.checkpoint), at))
              && (reach <= at && Calm(scope, stream, batchSize) ==>
                  world.docs == ApplyAll(scope, plan.init, stream[..at]))
  {
    hide Safe, Calm, Progress, ApplyAll, StoredBy, FirstRefused, Skipped, AnyRefused;
    reach', at := reach, 0;
    if scope.tenant == "" {
      return Some(EmptyTenant), reach', 0;
    }
    var base := world.checkpoint;
    var run := new Run(world, scope, batchSize, maintains, base);
    Begins(run, plan, base, reach);
    var k := base;
    err := None;
    while k < |stream| && err.None?
      invariant fresh(run) && run.world == world && run.scope == scope && run.batchSize == batchSize
          && run.maintains == maintains
      invariant base <= k <= |stream| && Progress(run, plan, base, k, reach, reach', err)
          && world.steady == old(world.steady)
      decreases |stream| - k, err.None?
    {
      err, k, reach' := TakeNext(run, stream[k], plan, base, k, reach, reach');
    }
    at := k;
    RefusalSays(stream, maintains, base, at);
    var flushErr;
    flushErr, reach' := WindUp(run, err, plan, base, k, reach, reach');
    if err.Some? || flushErr.Some? {
      err := if err.Some? then err else flushErr;
      return;
    }
    if Calm(scope, stream, batchSize) {
      SafeDone(plan, world.docs);
    }
    if final != 0 {
      var ok := world.Save(final);
      SoundResume(plan, batchSize, world.docs, at, reach', final);
      if !ok {
        return Some(SaveFailed), reach', at;
      }
    }
  }

  // A run that started at `base` with everything safe up to `reach`, has taken
  // stream[base..k] and stopped at k if there is an error.
  ghost predicate Progress(run: Run, plan: Plan, base: nat, k: nat, reach: nat, reach': nat, err: Option<Error>)
    reads run, run.world
  {
    && base <= k <= |plan.stream| && Underway(run, plan, base, k, reach') && reach' <= Max(reach, k)
    && (err.None? ==> run.Ready())
    && (if err == Some(Refused) then
          FirstRefused(plan.stream, run.maintains, base, k) && OneAhead(run, plan.stream, base, k)
        else
          Behind(run, base, k) && NoneRefused(plan.stream, run.maintains, base, k))
    && (run.world.steady ==>
          && err in {None, Some(Refused)}
          && base + run.stored == StoredBy(plan.scope, plan.stream, run.batchSize, base, k))
  }

  predicate NoneRefused(stream: seq<Change>, maintains: bool, base: nat, k: nat)
    requires k <= |stream|
  {
    maintains || forall i :: base <= i < k ==> !IsPermissions(stream[i])
  }

  // The next change is refused, or none has been so far.
  lemma NextRefused(stream: seq<Change>, maintains: bool, base: nat, k: nat)
    requires base <= k < |stream| && NoneRefused(stream, maintains, base, k)
    ensures if !maintains && IsPermissions(stream[k]) then FirstRefused(stream, maintains, base, k)
            else NoneRefused(stream, maintains, base, k + 1)
  {
    hide IsPermissions;
  }

  lemma Begins(run: Run, plan: Plan, base: nat, reach: nat)
    requires run.Ready() && run.emitted == [] && run.stored == 0 && run.pending == 0 && run.scope == plan.scope
    requires Sound(plan, run.batchSize, run.world.docs, base, reach) && run.world.checkpoint == base
    ensures Progress(run, plan, base, base, reach, reach, None)
  {
    hide Safe, Calm;
    FreshRun(run, plan, base, reach);
  }

  lemma CursorAt(stream: seq<Change>, k: nat)
    requires Honest(stream) && k < |stream|
    ensures stream[k].cursor <= k + 1
  {
  }

  lemma Underneath(run: Run, plan: Plan, base: nat, k: nat, reach: nat, reach': nat)
    requires Progress(run, plan, base, k, reach, reach', None)
    ensures base <= k <= |plan.stream| && Underway(run, plan, base, k, reach') && reach' <= Max(reach, k) && run.Ready()
    ensures Behind(run, base, k) && NoneRefused(plan.stream, run.maintains, base, k)
    ensures run.world.steady ==> base + run.stored == StoredBy(plan.scope, plan.stream, run.batchSize, base, k)
  {
    hide Underway, Behind, NoneRefused, StoredBy, FirstRefused, OneAhead;
  }

  lemma Onward(run: Run, plan: Plan, base: nat, k: nat, reach: nat, reach': nat, err: Option<Error>)
    requires base <= k <= |plan.stream| && Underway(run, plan, base, k, reach') && reach' <= Max(reach, k)
    requires err != Some(Refused) && (err.None? ==> run.Ready())
    requires Behind(run, base, k) && NoneRefused(plan.stream, run.maintains, base, k)
    requires run.world.steady ==>
               err.None? && base + run.stored == StoredBy(plan.scope, plan.stream, run.batchSize, base, k)
    ensures Progress(run, plan, base, k, reach, reach', err)
  {
    hide Underway, Behind, NoneRefused, StoredBy, FirstRefused, OneAhead;
  }

  lemma Stuck(run: Run, plan: Plan, base: nat, k: nat, reach: nat, reach': nat)
    requires base <= k < |plan.stream| && Underway(run, plan, base, k, reach') && reach' <= Max(reach, k)
    requires FirstRefused(plan.stream, run.maintains, base, k) && OneAhead(run, plan.stream, base, k)
    requires run.world.steady ==> base + run.stored == StoredBy(plan.scope, plan.stream, run.batchSize, base, k)
    ensures Progress(run, plan, base, k, reach, reach', Some(Refused))
  {
    hide Underway, Behind, NoneRefused, StoredBy, FirstRefused, OneAhead;
  }

  // One turn of the connector: it breaks off, or offers the next change.
  method TakeNext(run: Run, ch: Change, ghost plan: Plan, ghost base: nat, k: nat, ghost reach: nat, ghost reached: nat)
    returns (err: Option<Error>, k': nat, ghost reached': nat)
    requires k < |plan.stream| && ch == plan.stream[k] && Progress(run, plan, base, k, reach, reached, None)
    requires Honest(plan.stream)
    modifies run, run.world
    ensures k <= k' <= k + 1 && run.world.steady == old(run.world.steady)
    ensures Progress(run, plan, base, k', reach, reached', err)
    ensures k' == k ==> err.Some?
  {
    hide Progress, Underway, StoredBy, Buffered, IsPermissions, Honest, FirstRefused, NoneRefused, Run.Ready, Run.Valid;
    Underneath(run, plan, base, k, reach, reached);
    NextRefused(plan.stream, run.maintains, base, k);
    StoredNext(plan.scope, plan.stream, run.batchSize, base, k);
    SameScope(run, plan, base, k, reached);
    CursorAt(plan.stream, k);
    reached' := reached;
    var broken := run.world.Fails();
    if broken {
      Onward(run, plan, base, k, reach, reached, Some(SourceFailed));
      return Some(SourceFailed), k, reached;
    }
    var canceled := run.world.Fails();
    err, reached' := EmitNext(run, ch, canceled, plan, base, k, reached);
    k' := if err == Some(Canceled) || err == Some(Refused) then k else k + 1;
    if err == Some(Refused) {
      Stuck(run, plan, base, k, reach, reached');
    } else {
      Onward(run, plan, base, k', reach, reached', err);
    }
  }

  lemma SameScope(run: Run, plan: Plan, base: nat, k: nat, reach: nat)
    requires Underway(run, plan, base, k, reach)
    ensures run.scope == plan.scope && base + run.stored <= k
  {
  }

  // The flush on the way out, whether or not the connector ended cleanly.
  method WindUp(run: Run, err: Option<Error>, ghost plan: Plan, ghost base: nat, ghost k: nat, ghost reach: nat,
                ghost reached: nat)
    returns (flushErr: Option<Error>, ghost reached': nat)
    requires Progress(run, plan, base, k, reach, reached, err)
    modifies run, run.world
    ensures run.world.steady == old(run.world.steady) && flushErr != Some(Refused)
    ensures err != Some(Refused) ==> Sound(plan, run.batchSize, run.world.docs, run.world.checkpoint, reached')
    ensures flushErr.None? ==> Sound(plan, run.batchSize, run.world.docs, k, reached')
    ensures err == Some(Refused) ==>
              && FirstRefused(plan.stream, run.maintains, base, k) && run.world.checkpoint <= k + 1
              && Sound(plan, run.batchSize, run.world.docs, Min(run.world.checkpoint, k), reached')
    ensures err.None? && k == |plan.stream| ==> !AnyRefused(plan.stream, run.maintains, base)
    ensures err == Some(Refused) ==> AnyRefused(plan.stream, run.maintains, base)
    ensures run.world.steady ==> flushErr.None? && err in {None, Some(Refused)}
    ensures run.world.steady && err == Some(Refused) ==>
              && (run.world.checkpoint > k <==> Skipped(plan.scope, plan.stream, run.batchSize, base, k))
              && (reach <= k && Calm(plan.scope, plan.stream, run.batchSize) ==>
                    run.world.docs == ApplyAll(plan.scope, plan.init, plan.stream[..k]))
  {
    hide Sound, Calm, Underway, StoredBy, Buffered, IsPermissions, ApplyAll;
    SameScope(run, plan, base, k, reached);
    flushErr, reached' := FlushRest(run, plan, base, k, reached);
    if err == Some(Refused) {
      SoundResume(plan, run.batchSize, run.world.docs, base + run.stored, reached', Min(run.world.checkpoint, k));
      if run.world.steady && reach <= k && Calm(plan.scope, plan.stream, run.batchSize) {
        SoundHere(plan, run.batchSize, run.world.docs, k);
      }
    }
  }

  // A run that has been refused stream[k]: only the pending cursor may be past it.
  ghost predicate OneAhead(run: Run, stream: seq<Change>, base: nat, k: nat)
    requires k < |stream|
    reads run, run.world
  {
    run.world.checkpoint <= base + run.stored && run.pending <= k + 1
        && (run.pending == k + 1 <==> stream[k].cursor == k + 1)
  }

  lemma StoredAtBase(s: Scope, stream: seq<Change>, batchSize: nat, base: nat)
    requires base <= |stream|
    ensures StoredBy(s, stream, batchSize, base, base) == base
  {
  }

  lemma StoredNext(s: Scope, stream: seq<Change>, batchSize: nat, base: nat, k: nat)
    requires base <= k < |stream|
    ensures var before := StoredBy(s, stream, batchSize, base, k);
            StoredBy(s, stream, batchSize, base, k + 1) == if Buffered(s, stream[before..k + 1]) >= batchSize
                then k + 1 else before
  {
  }

  lemma FreshRun(run: Run, plan: Plan, base: nat, reach: nat)
    requires run.Ready() && run.emitted == [] && run.stored == 0 && run.pending == 0 && run.scope == plan.scope
    requires Sound(plan, run.batchSize, run.world.docs, base, reach)
    ensures Underway(run, plan, base, base, reach)
  {
    hide Safe, Calm;
    assert run.Waiting() == [];
    BuffersOfNothing(run.scope);
  }

  lemma SafeBounds(plan: Plan, docs: Store, from: nat, reach: nat)
    requires Safe(plan, docs, from, reach)
    ensures from <= reach <= |plan.stream|
  {
  }

  lemma NoneWaiting(s: Scope, emitted: seq<Change>)
    ensures Buffered(s, emitted[|emitted|..]) == 0
  {
    BuffersOfNothing(s);
    assert emitted[|emitted|..] == [];
  }

  // Any number of syncs, resuming from whatever checkpoint the last one left. The
  // first `disturbed` of them may die anywhere. The first that ends cleanly leaves
  // the store holding the whole stream, one that is not disturbed does, and at
  // every moment before that the checkpoint is safe.
  method Restarts(world: World, scope: Scope, batchSize: nat, maintains: bool, stream: seq<Change>, final: Cursor,
                  times: nat, disturbed: nat, ghost init: Store)
    returns (clean: bool, ghost reach: nat)
    requires batchSize > 0 && final <= |stream|
    requires Honest(stream) && Calm(scope, stream, batchSize) && !AnyRefused(stream, maintains, 0)
    requires world.docs == init && world.checkpoint == 0
    modifies world
    ensures Safe(Plan(scope, stream, init), world.docs, world.checkpoint, reach)
    ensures ApplyAll(scope, world.docs, stream[world.checkpoint..]) == ApplyAll(scope, init, stream)
    ensures clean ==> world.docs == ApplyAll(scope, init, stream)
    ensures disturbed < times && scope.tenant != "" ==> clean
  {
    hide Safe, Calm, Honest, ApplyAll;
    ghost var plan := Plan(scope, stream, init);
    SafeStart(plan);
    clean, reach := false, 0;
    var i := 0;
    while i < times && !clean
      invariant Safe(plan, world.docs, world.checkpoint, reach)
      invariant clean ==> world.docs == ApplyAll(scope, init, stream)
      invariant clean || i <= disturbed || scope.tenant == ""
      decreases times - i
    {
      world.steady := i >= disturbed;
      SafeBounds(plan, world.docs, world.checkpoint, reach);
      var err;
      ghost var at;
      err, reach, at := Sync(world, scope, batchSize, maintains, stream, final, plan, reach);
      clean, i := err.None?, i + 1;
    }
    SafeBounds(plan, world.docs, world.checkpoint, reach);
    SafeRecovers(plan, world.docs, world.checkpoint, reach, world.checkpoint);
  }

  // ---- What it costs to skip a permission change.

  lemma NothingApplied(s: Scope, docs: Store)
    ensures ApplyAll(s, docs, []) == docs
  {
  }

  lemma {:induction false} SumOfOthers(s: Scope, chs: seq<Change>, id: string)
    requires id != ""
    ensures Sum(s, chs, id) == Keep(None) <==> forall i :: 0 <= i < |chs| ==> chs[i].doc.id != id
  {
    if chs != [] {
      SumOfOthers(s, chs[..|chs| - 1], id);
    }
  }

  lemma SumOfOne(s: Scope, ch: Change, id: string)
    ensures Sum(s, [ch], id) == OutcomeOf(s, ch, id)
  {
    assert [ch][..0] == [];
    assert Sum(s, [ch], id) == Then(Sum(s, [], id), OutcomeOf(s, ch, id));
    ThenLaws(s, OutcomeOf(s, ch, id), Keep(None), Keep(None), None);
  }

  // The document is there under other permissions, and nothing later names it.
  predicate Matters(s: Scope, docs: Store, ch: Change, rest: seq<Change>) {
    && ch.doc.id in docs && docs[ch.doc.id].tenant == s.tenant && docs[ch.doc.id].permissions != ch.doc.permissions
    && forall i :: 0 <= i < |rest| ==> rest[i].doc.id != ch.doc.id
  }

  // Reading on past a permission change is as good as applying it unless it matters.
  lemma SkippedIsLostIff(s: Scope, docs: Store, ch: Change, rest: seq<Change>)
    requires IsPermissions(ch)
    ensures ApplyAll(s, docs, rest) != ApplyAll(s, docs, [ch] + rest) <==> Matters(s, docs, ch, rest)
  {
    hide ApplyAll, Sum;
    forall id ensures At(ApplyAll(s, docs, rest), id) != At(ApplyAll(s, docs, [ch] + rest), id) <==>
                      id == ch.doc.id && Matters(s, docs, ch, rest)
    {
      AppliedAt(s, docs, rest, id);
      AppliedAt(s, docs, [ch] + rest, id);
      SumConcat(s, [ch], rest, id);
      SumOfOne(s, ch, id);
      SumOfOthers(s, rest, ch.doc.id);
    }
    if Matters(s, docs, ch, rest) {
      assert At(ApplyAll(s, docs, rest), ch.doc.id) != At(ApplyAll(s, docs, [ch] + rest), ch.doc.id);
    } else {
      SameAt(ApplyAll(s, docs, rest), ApplyAll(s, docs, [ch] + rest));
    }
  }

  // What Maintenance is needed for. With nothing at all failing, a
  // document and its revocation in one batch leave the checkpoint behind the
  // revocation, which was never applied and never will be.
  method RefusalIsSkipped(world: World, s: Scope, batchSize: nat, d: Document, revoked: Permissions)
    requires world.docs == map[] && world.checkpoint == 0 && world.steady && s.tenant != ""
    requires batchSize > 1 && d.id != "" && d.permissions != revoked
    modifies world
    ensures var stream := [Change(d, false, false, 1), Change(d.(permissions := revoked), false, true, 2)];
            && world.checkpoint == 2
            && ApplyAll(s, world.docs, stream[2..]) != ApplyAll(s, map[], stream)
  {
    hide Safe, Calm, ApplyAll, Matters;
    var put, revoke := Change(d, false, false, 1), Change(d.(permissions := revoked), false, true, 2);
    var stream := [put, revoke];
    ghost var plan := Plan(s, stream, map[]);
    SafeStart(plan);
    PutThenRevoke(s, put, revoke, batchSize);
    var err;
    ghost var reach, at;
    err, reach, at := Sync(world, s, batchSize, false, stream, 0, plan, 0);
    assert IsPermissions(stream[1]);
    assert at == 1 && stream[2..] == [] && stream[..1] == [put];
    RevocationMatters(s, put, revoke);
  }

  lemma PutThenRevoke(s: Scope, put: Change, revoke: Change, batchSize: nat)
    requires IsPut(put) && IsPermissions(revoke) && batchSize > 1
    ensures Calm(s, [put, revoke], batchSize)
    ensures put.cursor == 1 && revoke.cursor == 2 ==> Skipped(s, [put, revoke], batchSize, 0, 1)
  {
    hide Buffered, InFlushOrder;
    var stream := [put, revoke];
    forall i, j | 0 <= i <= j <= |stream| ensures InFlushOrder(s, stream[i..j]) {
      PutsComeFirst(s, stream[i..j]);
    }
    OneBuffered(s, put);
    assert stream[0..1] == [put];
    StoredAtBase(s, stream, batchSize, 0);
    StoredNext(s, stream, batchSize, 0, 0);
  }

  lemma OneBuffered(s: Scope, put: Change)
    requires IsPut(put)
    ensures Buffered(s, [put]) == 1
  {
    hide Documents, Deletes, Perms;
    BuffersOfNothing(s);
    OneMoreBuffered(s, [], put);
    assert [] + [put] == [put];
  }

  lemma PutsComeFirst(s: Scope, chs: seq<Change>)
    requires forall p :: 0 < p < |chs| ==> !IsPut(chs[p])
    ensures InFlushOrder(s, chs)
  {
    hide Deletes, Perms, LastPut;
    BuffersOfNothing(s);
    assert |chs| > 0 ==> chs[..0] == [];
  }

  lemma RevocationMatters(s: Scope, put: Change, revoke: Change)
    requires IsPut(put) && IsPermissions(revoke) && put.doc.id == revoke.doc.id
    requires put.doc.permissions != revoke.doc.permissions
    ensures ApplyAll(s, ApplyAll(s, map[], [put]), []) != ApplyAll(s, map[], [put, revoke])
  {
    var docs := ApplyAll(s, map[], [put]);
    assert [put][..0] == [];
    NothingApplied(s, map[]);
    assert docs == Apply(s, map[], put);
    SkippedIsLostIff(s, docs, revoke, []);
    assert [revoke] + [] == [revoke] && [put, revoke][..1] == [put];
    assert [revoke][..0] == [];
    NothingApplied(s, docs);
    assert ApplyAll(s, docs, [revoke]) == Apply(s, docs, revoke);
  }
}
