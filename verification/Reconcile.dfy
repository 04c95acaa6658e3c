// ingest/reconcile.go: the sweep. It sorts every id into missing, stale, extra,
// held or fine, and feeds the first four to the pipeline of module Ingest.
module Reconcile {
  import opened Order
  import opened Encoding
  import opened Acl
  import opened Retrieve
  import opened Changes
  import opened Recovery
  import opened Ingest

  const SAMPLE_SIZE := 20

  // An enumeration yields ids and versions, no contents.
  datatype Item = Item(id: string, version: string)

  datatype Fetched = Fetched(doc: Document) | Gone | Unreadable

  // A connector: what it lists, whether the listing failed part of the way, and
  // what it answers for one id, if it can answer that at all.
  datatype Source = Source(items: seq<Item>, enumerates: bool, fetch: Option<string -> Fetched>)

  datatype Discrepancies = Discrepancies(count: nat, ids: seq<string>)

  datatype Report = Report(
    sourceItems: nat, indexItems: nat, missing: Discrepancies, stale: Discrepancies, extra: Discrepancies,
    held: Discrepancies, repaired: nat, released: nat, deleted: nat)

  function Drift(r: Report): nat {
    r.missing.count + r.stale.count + r.extra.count
  }

  datatype Problem = NotEnumerated | NotFetched(id: string) | NotStored(error: Error)

  // ---- What the categories mean.

  // The last version the source listed for an id; items without one are ignored.
  function Listed(items: seq<Item>): map<string, string> {
    if items == [] then map[]
    else
      var before := Listed(items[..|items| - 1]);
      var it := items[|items| - 1];
      if it.id != "" then before[it.id := it.version] else before
  }

  ghost predicate Indexed(s: Scope, docs: Store, id: string) {
    id in docs && docs[id].tenant == s.tenant && docs[id].source == s.source
  }

  ghost predicate IsMissing(s: Scope, docs: Store, listed: map<string, string>, id: string) {
    id in listed && !Indexed(s, docs, id)
  }

  ghost predicate IsExtra(s: Scope, docs: Store, listed: map<string, string>, id: string) {
    Indexed(s, docs, id) && id !in listed
  }

  ghost predicate IsStale(s: Scope, docs: Store, listed: map<string, string>, id: string) {
    Indexed(s, docs, id) && id in listed && listed[id] != "" && listed[id] != docs[id].sourceUpdate
  }

  ghost predicate IsHeld(s: Scope, docs: Store, listed: map<string, string>, id: string) {
    Indexed(s, docs, id) && id in listed && !IsStale(s, docs, listed, id) && !Queryable(docs[id])
  }

  // The four sorted lists a sweep works from: exact, and no id in two of them.
  datatype Found = Found(missing: seq<string>, stale: seq<string>, extra: seq<string>, held: seq<string>)

  ghost predicate Classified(s: Scope, docs: Store, listed: map<string, string>, f: Found) {
    && Strict(StrLess, f.missing) && (forall id :: id in f.missing <==> IsMissing(s, docs, listed, id))
    && Strict(StrLess, f.stale) && (forall id :: id in f.stale <==> IsStale(s, docs, listed, id))
    && Strict(StrLess, f.extra) && (forall id :: id in f.extra <==> IsExtra(s, docs, listed, id))
    && Strict(StrLess, f.held) && (forall id :: id in f.held <==> IsHeld(s, docs, listed, id))
  }

  // ---- The comparison.

  // The inventory callback, run over the index in map order. An id
  // still in `items` at the end is missing.
  method Inventory(s: Scope, docs: Store, listed: map<string, string>)
    returns (items: map<string, string>, stale: seq<string>, extra: seq<string>, held: seq<string>, indexItems: nat)
    ensures forall id :: id in items <==> IsMissing(s, docs, listed, id)
    ensures Distinct(stale) && forall id :: id in stale <==> IsStale(s, docs, listed, id)
    ensures Distinct(extra) && forall id :: id in extra <==> IsExtra(s, docs, listed, id)
    ensures Distinct(held) && forall id :: id in held <==> IsHeld(s, docs, listed, id)
    ensures indexItems == |IndexedIds(s, docs, {})|
  {
    items, stale, extra, held, indexItems := listed, [], [], [], 0;
    var left := docs.Keys;
    assert IndexedIds(s, docs, left) == {};
    while left != {}
      invariant left <= docs.Keys
      invariant forall id :: id in items <==> id in listed && !(Indexed(s, docs, id) && id !in left)
      invariant Distinct(stale) && forall id :: id in stale <==> id !in left && IsStale(s, docs, listed, id)
      invariant Distinct(extra) && forall id :: id in extra <==> id !in left && IsExtra(s, docs, listed, id)
      invariant Distinct(held) && forall id :: id in held <==> id !in left && IsHeld(s, docs, listed, id)
      invariant indexItems == |IndexedIds(s, docs, left)|
    {
      var id :| id in left;
      OneMoreIndexed(s, docs, left, id);
      left := left - {id};
      var d := docs[id];
      if d.tenant != s.tenant || d.source != s.source {
        continue;
      }
      indexItems := indexItems + 1;
      if id !in listed {
        extra := extra + [id];
      } else if listed[id] != "" && listed[id] != d.sourceUpdate {
        stale := stale + [id];
      } else if !Queryable(d) {
        held := held + [id];
      }
      items := items - {id};
    }
  }

  method Keys(items: map<string, string>) returns (out: seq<string>)
    ensures Distinct(out) && forall id :: id in out <==> id in items
  {
    out := [];
    var left := items.Keys;
    while left != {}
      invariant left <= items.Keys && Distinct(out) && forall id :: id in out <==> id in items && id !in left
    {
      var id :| id in left;
      left := left - {id};
      out := out + [id];
    }
  }

  lemma Sorts(ids: seq<string>)
    requires Distinct(ids)
    ensures Strict(StrLess, Sort(StrLess, ids)) && forall id :: id in Sort(StrLess, ids) <==> id in ids
  {
    hide StrLess;
    StringsOrdered();
    SortLists(StrLess, ids, Elements(ids));
  }

  method Compare(s: Scope, docs: Store, listed: map<string, string>) returns (f: Found, indexItems: nat)
    ensures Classified(s, docs, listed, f)
    ensures indexItems == |IndexedIds(s, docs, {})|
  {
    hide StrLess, Sort, Strict, Distinct, IsMissing, IsStale, IsExtra, IsHeld, IndexedIds;
    var items, stale, extra, held;
    items, stale, extra, held, indexItems := Inventory(s, docs, listed);
    var missing := Keys(items);
    Sorts(missing);
    Sorts(stale);
    Sorts(extra);
    Sorts(held);
    f := Found(Sort(StrLess, missing), Sort(StrLess, stale), Sort(StrLess, extra), Sort(StrLess, held));
  }

  // What the index holds of a source, but for the ids still to be looked at.
  ghost function IndexedIds(s: Scope, docs: Store, left: set<string>): set<string> {
    set id | id in docs && Indexed(s, docs, id) && id !in left
  }

  lemma OneMoreIndexed(s: Scope, docs: Store, left: set<string>, id: string)
    requires id in left && id in docs
    ensures |IndexedIds(s, docs, left - {id})| == |IndexedIds(s, docs, left)| + (if Indexed(s, docs, id) then 1 else 0)
  {
    assert IndexedIds(s, docs, left - {id}) ==
      if Indexed(s, docs, id) then IndexedIds(s, docs, left) + {id} else IndexedIds(s, docs, left);
  }

  // Discrepancies.add over a list: an exact count and the first few ids.
  method Summarise(ids: seq<string>) returns (d: Discrepancies)
    ensures d.count == |ids| && d.ids == if |ids| < 20 then ids else ids[..20]
  {
    d := Discrepancies(0, []);
    for i := 0 to |ids|
      invariant d.count == i && d.ids == if i < SAMPLE_SIZE then ids[..i] else ids[..SAMPLE_SIZE]
    {
      d := d.(count := d.count + 1);
      if |d.ids| < SAMPLE_SIZE {
        d := d.(ids := d.ids + [ids[i]]);
      }
    }
  }

  // ---- The repair, as the changes it emits.

  const BLANK := Document("", "", "", "", "", Person("", Ref("", ""), "", ""), Person("", Ref("", ""), "", ""), 0, [],
                          "", "",
                          Permissions(ModeUnknown, Ref("", ""), [], [], [], []))

  function Removal(id: string): Change {
    Change(BLANK.(id := id), true, false, 0)
  }

  function Refetch(fetch: string -> Fetched, id: string): Change {
    match fetch(id)
    case Fetched(d) => Change(d.(id := id), false, false, 0)
    case _ => Removal(id)
  }

  function Removals(ids: seq<string>): seq<Change> {
    seq(|ids|, i requires 0 <= i < |ids| => Removal(ids[i]))
  }

  function Refetches(fetch: string -> Fetched, ids: seq<string>): seq<Change> {
    seq(|ids|, i requires 0 <= i < |ids| => Refetch(fetch, ids[i]))
  }

  function Repairs(fetch: Option<string -> Fetched>, f: Found): seq<Change> {
    Removals(f.extra) + (if fetch.Some? then Refetches(fetch.value, f.missing + f.stale + f.held) else [])
  }

  function RepairIds(fetch: Option<string -> Fetched>, f: Found): seq<string> {
    f.extra + (if fetch.Some? then f.missing + f.stale + f.held else [])
  }

  lemma RepairAt(fetch: Option<string -> Fetched>, f: Found, k: nat)
    requires k < |Repairs(fetch, f)|
    ensures |Repairs(fetch, f)| == |RepairIds(fetch, f)|
    ensures var ch, id := Repairs(fetch, f)[k], RepairIds(fetch, f)[k];
            && ch.cursor == 0 && ch.doc.id == id && !ch.permissionsOnly
            && ch == if k < |f.extra| then Removal(id) else Refetch(fetch.value, id)
  {
  }

  // The four categories are disjoint, so a repair touches each id once.
  lemma RepairsDistinct(s: Scope, docs: Store, listed: map<string, string>, f: Found, fetch: Option<string -> Fetched>)
    requires Classified(s, docs, listed, f)
    ensures Distinct(RepairIds(fetch, f))
    ensures "" !in docs && "" !in listed ==> "" !in RepairIds(fetch, f)
  {
    hide StrLess;
    StringsOrdered();
    var a, b, c, d := f.extra, f.missing, f.stale, f.held;
    assert Distinct(a) && Distinct(b) && Distinct(c) && Distinct(d);
    Disjoint(a, b);
    Disjoint(b, c);
    Disjoint(b + c, d);
    Disjoint(a, b + c + d);
  }

  lemma Disjoint(a: seq<string>, b: seq<string>)
    ensures Distinct(a) && Distinct(b) && (forall x :: x in a ==> x !in b) ==> Distinct(a + b)
  {
    if Distinct(a) && Distinct(b) && forall x :: x in a ==> x !in b {
      forall i, j | 0 <= i < j < |a + b| ensures (a + b)[i] != (a + b)[j] {
        assert i < |a| <= j ==> a[i] in a && b[j - |a|] in b;
      }
    }
  }

  // A stream that changes no id twice is faithful in any batches.
  lemma OnceEachIsCalm(s: Scope, chs: seq<Change>, batchSize: nat)
    requires forall i, j :: 0 <= i < j < |chs| ==> chs[i].doc.id != chs[j].doc.id
    ensures Calm(s, chs, batchSize)
  {
    hide InOrder;
    forall i, j | 0 <= i <= j <= |chs| ensures InFlushOrder(s, chs[i..j]) {
      forall id ensures InOrder(s, chs[i..j], id) { OnceInOrder(s, chs[i..j], id); }
    }
  }

  lemma OnceInOrder(s: Scope, chs: seq<Change>, id: string)
    requires forall i, j :: 0 <= i < j < |chs| ==> chs[i].doc.id != chs[j].doc.id
    ensures InOrder(s, chs, id)
  {
    hide HasDelete, LastPermissions, LastPut;
    forall p | 0 <= p < |chs| && IsPut(chs[p]) && chs[p].doc.id == id
      ensures !HasDelete(chs[..p], id) && LastPermissions(chs[..p], id).None?
    {
      NoChangeNoBuffer(chs[..p], id);
    }
  }

  lemma {:induction false} NoChangeNoBuffer(chs: seq<Change>, id: string)
    requires forall i :: 0 <= i < |chs| ==> chs[i].doc.id != id
    ensures !HasDelete(chs, id) && LastPermissions(chs, id).None?
  {
    if chs != [] { NoChangeNoBuffer(chs[..|chs| - 1], id); }
  }

  lemma {:induction false} NoChangeNoSum(s: Scope, chs: seq<Change>, id: string)
    requires forall i :: 0 <= i < |chs| ==> chs[i].doc.id != id
    ensures Sum(s, chs, id) == Keep(None)
  {
    if chs != [] { NoChangeNoSum(s, chs[..|chs| - 1], id); }
  }

  lemma OnceSum(s: Scope, chs: seq<Change>, k: nat)
    requires k < |chs| && forall i, j :: 0 <= i < j < |chs| ==> chs[i].doc.id != chs[j].doc.id
    ensures Sum(s, chs, chs[k].doc.id) == OutcomeOf(s, chs[k], chs[k].doc.id)
  {
    hide OutcomeOf;
    var id := chs[k].doc.id;
    assert chs == chs[..k] + ([chs[k]] + chs[k + 1..]);
    SumConcat(s, chs[..k], [chs[k]] + chs[k + 1..], id);
    SumConcat(s, [chs[k]], chs[k + 1..], id);
    NoChangeNoSum(s, chs[..k], id);
    NoChangeNoSum(s, chs[k + 1..], id);
    assert [chs[k]][..0] == [];
    assert Sum(s, [chs[k]], id) == Then(Sum(s, [], id), OutcomeOf(s, chs[k], id));
    ThenLaws(s, OutcomeOf(s, chs[k], id), Keep(None), Keep(None), None);
  }

  lemma {:induction false} BuffersSplit(s: Scope, a: seq<Change>, b: seq<Change>)
    ensures Documents(s, a + b) == Documents(s, a) + Documents(s, b)
    ensures Queryables(Documents(s, a + b)) == Queryables(Documents(s, a)) + Queryables(Documents(s, b))
    ensures |Deletes(a + b)| == |Deletes(a)| + |Deletes(b)|
  {
    hide Documents, Deletes, Queryables, Queryable;
    BuffersOfNothing(s);
    if b == [] {
      assert a + b == a;
      NoQueryables();
    } else {
      var init, last := b[..|b| - 1], b[|b| - 1];
      assert a + b == (a + init) + [last] && b == init + [last];
      BuffersSplit(s, a, init);
      OneMoreBuffered(s, a + init, last);
      OneMoreBuffered(s, init, last);
    }
  }

  lemma NoQueryables()
    ensures Queryables([]) == 0
  {
  }

  lemma {:induction false} EveryChangeCounts(s: Scope, chs: seq<Change>)
    requires forall i :: 0 <= i < |chs| ==> chs[i].doc.id != "" && !chs[i].permissionsOnly
    ensures |Documents(s, chs)| + |Deletes(chs)| == |chs|
  {
    if chs != [] { EveryChangeCounts(s, chs[..|chs| - 1]); }
  }

  lemma PlainChanges(fetch: string -> Fetched, id: string)
    ensures Refetch(fetch, id).cursor == 0 && !IsPermissions(Refetch(fetch, id))
    ensures Removal(id).cursor == 0 && !IsPermissions(Removal(id))
  {
  }

  // Emits the refetched form of some ids, starting at the k-th repair.
  method RefetchAll(run: Run, fetch: string -> Fetched, ids: seq<string>, ghost plan: Plan, ghost k: nat,
                    ghost reach: nat)
    returns (problem: Option<Problem>, ghost reach': nat)
    requires Underway(run, plan, 0, k, reach) && run.Ready() && run.pending == 0
        && Calm(run.scope, plan.stream, run.batchSize)
    requires k + |ids| <= |plan.stream| && forall i :: 0 <= i < |ids| ==> plan.stream[k + i] == Refetch(fetch, ids[i])
    modifies run, run.world
    ensures run.pending == 0 && run.world.checkpoint == old(run.world.checkpoint)
    ensures problem.None? ==> Underway(run, plan, 0, k + |ids|, reach') && run.Ready()
    ensures problem.None? ==> forall id :: id in ids ==> fetch(id) != Unreadable
    ensures run.world.steady == old(run.world.steady)
    ensures run.world.steady && (forall id :: id in ids ==> fetch(id) != Unreadable) ==> problem.None?
  {
    hide *;
    reach' := reach;
    for i := 0 to |ids|
      invariant Underway(run, plan, 0, k + i, reach') && run.Ready()
      invariant run.pending == 0 && run.world.checkpoint == old(run.world.checkpoint)
          && run.world.steady == old(run.world.steady)
      invariant forall j :: 0 <= j < i ==> fetch(ids[j]) != Unreadable
    {
      if fetch(ids[i]) == Unreadable {
        return Some(NotFetched(ids[i])), reach';
      }
      var canceled := run.world.Fails();
      var err;
      PlainChanges(fetch, ids[i]);
      err, reach' := EmitNext(run, Refetch(fetch, ids[i]), canceled, plan, 0, k + i, reach');
      if err.Some? {
        return Some(NotStored(err.value)), reach';
      }
    }
    return None, reach';
  }

  method RemoveAll(run: Run, ids: seq<string>, ghost plan: Plan, ghost reach: nat)
    returns (problem: Option<Problem>, ghost reach': nat)
    requires Underway(run, plan, 0, 0, reach) && run.Ready() && run.pending == 0
        && Calm(run.scope, plan.stream, run.batchSize)
    requires |ids| <= |plan.stream| && forall i :: 0 <= i < |ids| ==> plan.stream[i] == Removal(ids[i])
    modifies run, run.world
    ensures run.pending == 0 && run.world.checkpoint == old(run.world.checkpoint)
    ensures problem.None? ==> Underway(run, plan, 0, |ids|, reach') && run.Ready()
    ensures run.world.steady == old(run.world.steady) && (run.world.steady ==> problem.None?)
  {
    hide *;
    reach' := reach;
    for i := 0 to |ids|
      invariant Underway(run, plan, 0, i, reach') && run.Ready()
      invariant run.pending == 0 && run.world.checkpoint == old(run.world.checkpoint)
          && run.world.steady == old(run.world.steady)
    {
      var canceled := run.world.Fails();
      var err;
      PlainChanges(_ => Unreadable, ids[i]);
      err, reach' := EmitNext(run, Removal(ids[i]), canceled, plan, 0, i, reach');
      if err.Some? {
        return Some(NotStored(err.value)), reach';
      }
    }
    return None, reach';
  }

  // Nothing that has to be fetched is refused by the source.
  ghost predicate AllReadable(fetch: Option<string -> Fetched>, f: Found) {
    fetch.Some? ==> forall id :: id in f.missing + f.stale + f.held ==> fetch.value(id) != Unreadable
  }

  lemma ReadableParts(fetch: string -> Fetched, f: Found)
    ensures AllReadable(Some(fetch), f) <==>
            forall id :: id in f.missing + f.stale || id in f.held ==> fetch(id) != Unreadable
  {
    assert forall id :: id in f.missing + f.stale || id in f.held <==> id in f.missing + f.stale + f.held;
  }

  lemma NothingToRead(f: Found)
    ensures AllReadable(None, f)
  {
  }

  // The removals, then what is missing or stale, then, counted apart, what is held.
  method EmitRepairs(run: Run, fetch: Option<string -> Fetched>, f: Found, ghost plan: Plan)
    returns (problem: Option<Problem>, before: nat, ghost reach: nat)
    requires plan.stream == Repairs(fetch, f) && Calm(run.scope, plan.stream, run.batchSize)
    requires Underway(run, plan, 0, 0, 0) && run.Ready() && run.pending == 0
    modifies run, run.world
    ensures run.pending == 0 && run.world.checkpoint == old(run.world.checkpoint)
    ensures problem.None? ==> Underway(run, plan, 0, |plan.stream|, reach)
    ensures problem.None? && fetch.Some? ==> before == Queryables(Documents(plan.scope, BeforeHeld(fetch.value, f)))
    ensures problem.None? ==> AllReadable(fetch, f)
    ensures run.world.steady == old(run.world.steady) && (run.world.steady && AllReadable(fetch, f) ==> problem.None?)
  {
    hide *;
    RepairShape(fetch, f);
    NothingToRead(f);
    before, reach := 0, 0;
    problem, reach := RemoveAll(run, f.extra, plan, reach);
    if problem.Some? || fetch.None? {
      return;
    }
    ReadableParts(fetch.value, f);
    problem, reach := RefetchAll(run, fetch.value, f.missing + f.stale, plan, |f.extra|, reach);
    if problem.Some? {
      return;
    }
    CountedSoFar(run, plan, |f.extra| + |f.missing + f.stale|, reach);
    before := run.indexed;
    problem, reach := RefetchAll(run, fetch.value, f.held, plan, |f.extra| + |f.missing + f.stale|, reach);
  }

  // What is emitted before the held documents are.
  function BeforeHeld(fetch: string -> Fetched, f: Found): seq<Change> {
    Removals(f.extra) + Refetches(fetch, f.missing + f.stale)
  }

  lemma RepairShape(fetch: Option<string -> Fetched>, f: Found)
    ensures var stream, e, m := Repairs(fetch, f), |f.extra|, |f.missing + f.stale|;
            && (forall i :: 0 <= i < e ==> stream[i] == Removal(f.extra[i]))
            && |stream| == e + (if fetch.Some? then m + |f.held| else 0)
            && (fetch.None? ==> stream == Removals(f.extra))
            && (fetch.Some? ==>
                 && (forall i :: 0 <= i < m ==> stream[e + i] == Refetch(fetch.value, (f.missing + f.stale)[i]))
                 && (forall i :: 0 <= i < |f.held| ==> stream[e + m + i] == Refetch(fetch.value, f.held[i]))
                 && stream[..e + m] == BeforeHeld(fetch.value, f)
                 && stream == BeforeHeld(fetch.value, f) + Refetches(fetch.value, f.held))
  {
    hide Removal, Refetch;
    if fetch.Some? {
      RefetchesSplit(fetch.value, f.missing + f.stale, f.held);
      assert Repairs(fetch, f) == BeforeHeld(fetch.value, f) + Refetches(fetch.value, f.held);
    }
  }

  lemma RefetchesSplit(fetch: string -> Fetched, a: seq<string>, b: seq<string>)
    ensures Refetches(fetch, a + b) == Refetches(fetch, a) + Refetches(fetch, b)
  {
    hide Refetch;
  }

  // A repair is one run of the pipeline over the stream of its changes.
  method Repair(world: World, s: Scope, batchSize: nat, fetch: Option<string -> Fetched>, f: Found,
                ghost listed: map<string, string>)
    returns (problem: Option<Problem>, repaired: nat, released: nat, deleted: nat)
    requires batchSize > 0 && Classified(s, world.docs, listed, f) && "" !in world.docs && "" !in listed
    modifies world
    ensures world.checkpoint == old(world.checkpoint)
    ensures problem.None? ==> world.docs == ApplyAll(s, old(world.docs), Repairs(fetch, f))
    ensures problem.None? && fetch.Some? ==> repaired + deleted == |f.missing| + |f.stale| + |f.extra| + |f.held|
    ensures problem.None? && fetch.Some? ==> released == Queryables(Documents(s, Refetches(fetch.value, f.held)))
    ensures problem.None? && fetch.None? ==> repaired == released == 0 && deleted == |f.extra|
    ensures problem.None? ==> AllReadable(fetch, f)
    ensures world.steady == old(world.steady) && (world.steady && AllReadable(fetch, f) ==> problem.None?)
  {
    hide *;
    ghost var stream := Repairs(fetch, f);
    RepairStream(s, world.docs, listed, f, fetch, batchSize);
    ghost var plan := Plan(s, stream, world.docs);
    SoundStart(plan, batchSize);
    repaired, released, deleted := 0, 0, 0;
    var run := new Run(world, s, batchSize, true, 0);
    FreshRun(run, plan, 0, 0);
    var before: nat;
    ghost var reach: nat;
    problem, before, reach := EmitRepairs(run, fetch, f, plan);
    if problem.Some? {
      return;
    }
    var err := FlushRepairs(run, plan, reach);
    if err.Some? {
      return Some(NotStored(err.value)), repaired, released, deleted;
    }
    repaired, released, deleted := Tally(run, fetch, f, before);
  }

  // The last flush of a repair, which has no cursor to save.
  method FlushRepairs(run: Run, ghost plan: Plan, ghost reach: nat) returns (err: Option<Error>)
    requires Underway(run, plan, 0, |plan.stream|, reach) && run.pending == 0
    requires Calm(plan.scope, plan.stream, run.batchSize)
    modifies run, run.world
    ensures run.world.checkpoint == old(run.world.checkpoint)
    ensures run.indexed == old(run.indexed) && run.quarantined == old(run.quarantined)
        && run.deleted == old(run.deleted)
    ensures run.indexed == Queryables(Documents(plan.scope, plan.stream))
    ensures run.indexed + run.quarantined == |Documents(plan.scope, plan.stream)|
        && run.deleted == |Deletes(plan.stream)|
    ensures err.None? ==> run.world.docs == ApplyAll(plan.scope, plan.init, plan.stream)
    ensures run.world.steady == old(run.world.steady) && (run.world.steady ==> err.None?)
  {
    hide *;
    CountedSoFar(run, plan, |plan.stream|, reach);
    assert plan.stream[..|plan.stream|] == plan.stream;
    ghost var reach';
    err, reach' := FlushRest(run, plan, 0, |plan.stream|, reach);
    if err.None? {
      SoundDone(plan, run.batchSize, run.world.docs, reach');
    }
  }

  lemma SoundStart(plan: Plan, batchSize: nat)
    ensures Sound(plan, batchSize, plan.init, 0, 0)
  {
    hide Calm, Safe;
    SafeStart(plan);
  }

  lemma SoundDone(plan: Plan, batchSize: nat, docs: Store, reach: nat)
    requires Sound(plan, batchSize, docs, |plan.stream|, reach) && Calm(plan.scope, plan.stream, batchSize)
    ensures docs == ApplyAll(plan.scope, plan.init, plan.stream)
  {
    hide Calm, Safe;
    SafeDone(plan, docs);
  }

  // What the counters of a finished repair come to.
  method Tally(run: Run, fetch: Option<string -> Fetched>, f: Found, before: nat)
    returns (repaired: nat, released: nat, deleted: nat)
    requires var stream := Repairs(fetch, f);
             && |Documents(run.scope, stream)| + |Deletes(stream)| == |stream|
             && run.indexed == Queryables(Documents(run.scope, stream)) && run.deleted == |Deletes(stream)|
             && run.indexed + run.quarantined == |Documents(run.scope, stream)|
    requires fetch.Some? ==> before == Queryables(Documents(run.scope, BeforeHeld(fetch.value, f)))
    ensures fetch.Some? ==> repaired + deleted == |f.missing| + |f.stale| + |f.extra| + |f.held|
    ensures fetch.Some? ==> released == Queryables(Documents(run.scope, Refetches(fetch.value, f.held)))
    ensures fetch.None? ==> repaired == released == 0 && deleted == |f.extra|
  {
    hide *;
    RepairShape(fetch, f);
    repaired, released, deleted := 0, 0, run.deleted;
    if fetch.Some? {
      BuffersSplit(run.scope, BeforeHeld(fetch.value, f), Refetches(fetch.value, f.held));
      repaired := run.indexed + run.quarantined;
      released := run.indexed - before;
    } else {
      RemovalsCount(run.scope, f.extra);
    }
  }

  // What the repair stream is: one change per id, none without a name, each where
  // its category puts it.
  lemma RepairStream(s: Scope, docs: Store, listed: map<string, string>, f: Found, fetch: Option<string -> Fetched>,
                     batchSize: nat)
    requires Classified(s, docs, listed, f) && "" !in docs && "" !in listed
    ensures var stream := Repairs(fetch, f);
            && Calm(s, stream, batchSize)
            && |Documents(s, stream)| + |Deletes(stream)| == |stream|
  {
    hide Classified, Documents, Deletes, Calm, Repairs;
    StreamIds(s, docs, listed, f, fetch);
    EveryChangeCounts(s, Repairs(fetch, f));
    OnceEachIsCalm(s, Repairs(fetch, f), batchSize);
  }

  lemma RemovalsCount(s: Scope, ids: seq<string>)
    ensures |Documents(s, Removals(ids))| == 0
    decreases |ids|
  {
    if ids != [] {
      var n := |ids| - 1;
      assert Removals(ids) == Removals(ids[..n]) + [Removal(ids[n])];
      RemovalsCount(s, ids[..n]);
      OneMoreBuffered(s, Removals(ids[..n]), Removal(ids[n]));
    }
  }

  lemma CountedSoFar(run: Run, plan: Plan, k: nat, reach: nat)
    requires Underway(run, plan, 0, k, reach)
    ensures k <= |plan.stream| && run.indexed == Queryables(Documents(plan.scope, plan.stream[..k]))
    ensures run.indexed + run.quarantined == |Documents(plan.scope, plan.stream[..k])|
    ensures run.deleted == |Deletes(plan.stream[..k])|
  {
    assert plan.stream[0..k] == plan.stream[..k];
  }

  lemma {:induction false} ListedNames(items: seq<Item>)
    ensures "" !in Listed(items)
  {
    if items != [] { ListedNames(items[..|items| - 1]); }
  }

  // The sweep. Nothing at all is written after a walk of the source that failed
  // part of the way, and the sync's own checkpoint is never moved. A store holds no
  // document without an id.
  method Sweep(world: World, s: Scope, batchSize: nat, source: Source)
      returns (r: Report, problem: Option<Problem>, ghost f: Found)
    requires batchSize > 0 && "" !in world.docs
    modifies world
    ensures world.steady == old(world.steady)
    ensures world.steady && source.enumerates && Readable(source) ==> problem.None?
    ensures world.checkpoint == old(world.checkpoint)
    ensures !source.enumerates ==> problem == Some(NotEnumerated) && world.docs == old(world.docs)
    ensures source.enumerates ==>
              && Classified(s, old(world.docs), Listed(source.items), f)
              && r.missing.count == |f.missing| && r.stale.count == |f.stale| && r.extra.count == |f.extra|
              && r.held.count == |f.held|
              && r.sourceItems == |Listed(source.items)| && r.indexItems == |IndexedIds(s, old(world.docs), {})|
    ensures source.enumerates ==> (Drift(r) == 0 <==> Mirrors(s, old(world.docs), source.items))
    ensures problem.None? && source.fetch.Some? && Answers(source.items, source.fetch.value) ==>
              && Mirrors(s, world.docs, source.items) && "" !in world.docs
              && Undisturbed(s, old(world.docs), world.docs, source.items)
              && Refreshed(s, old(world.docs), world.docs, source.items, source.fetch.value)
    ensures problem.None? ==> AllReadable(source.fetch, f)
    ensures problem.None? ==> source.enumerates && world.docs == ApplyAll(s, old(world.docs), Repairs(source.fetch, f))
    ensures problem.None? && source.fetch.Some? ==>
              && r.repaired + r.deleted == r.missing.count + r.stale.count + r.extra.count + r.held.count
              && r.released == Queryables(Documents(s, Refetches(source.fetch.value, f.held)))
    ensures problem.None? && source.fetch.None? ==> r.repaired == r.released == 0 && r.deleted == r.extra.count
  {
    hide *;
    var none := Discrepancies(0, []);
    r := Report(0, 0, none, none, none, none, 0, 0, 0);
    f := Found([], [], [], []);
    if !source.enumerates {
      return r, Some(NotEnumerated), f;
    }
    var listed := Listed(source.items);
    ListedNames(source.items);
    var found, indexItems := Compare(s, world.docs, listed);
    f := found;
    var missing := Summarise(found.missing);
    var stale := Summarise(found.stale);
    var extra := Summarise(found.extra);
    var held := Summarise(found.held);
    r := Report(|listed|, indexItems, missing, stale, extra, held, 0, 0, 0);
    DriftIs(s, world.docs, source.items, found, r);
    if source.fetch.Some? {
      SweptMirrors(s, world.docs, source.items, source.fetch.value, found);
    }
    var repaired, released, deleted;
    ReadableIsEnough(s, world.docs, source, found);
    problem, repaired, released, deleted := Repair(world, s, batchSize, source.fetch, found, listed);
    if problem.None? {
      r := r.(repaired := repaired, released := released, deleted := deleted);
    }
  }

  lemma DriftIs(s: Scope, docs: Store, items: seq<Item>, f: Found, r: Report)
    requires Classified(s, docs, Listed(items), f)
    requires r.missing.count == |f.missing| && r.stale.count == |f.stale| && r.extra.count == |f.extra|
    ensures forall t: Report :: t.missing == r.missing && t.stale == r.stale && t.extra == r.extra ==>
              (Drift(t) == 0 <==> Mirrors(s, docs, items))
  {
    hide Classified, Listed, Mirrors, InSync;
    MirrorsIff(s, docs, items);
    InSyncIff(s, docs, Listed(items), f);
  }

  lemma SweptMirrors(s: Scope, docs: Store, items: seq<Item>, fetch: string -> Fetched, f: Found)
    requires Classified(s, docs, Listed(items), f) && "" !in docs
    ensures var docs' := ApplyAll(s, docs, Repairs(Some(fetch), f));
            Answers(items, fetch) ==>
              && Mirrors(s, docs', items) && "" !in docs'
              && Undisturbed(s, docs, docs', items) && Refreshed(s, docs, docs', items, fetch)
  {
    hide Classified, Listed, Mirrors, InSync, Answers, Fetchable, ApplyAll, Repairs, Undisturbed, Refreshed;
    var docs' := ApplyAll(s, docs, Repairs(Some(fetch), f));
    ListedNames(items);
    FetchableIff(items, fetch);
    if Answers(items, fetch) {
      RepairConverges(s, docs, Listed(items), f, fetch);
      MirrorsIff(s, docs', items);
      LeavesRest(s, docs, items, f, fetch);
    }
  }

  // ---- What a sweep is for, in terms of what the source listed.

  // The last item listed of this id gives this version.
  ghost predicate Says(items: seq<Item>, id: string, version: string) {
    && id != ""
    && exists i :: 0 <= i < |items| && items[i] == Item(id, version) && forall j :: i < j < |items| ==>
          items[j].id != id
  }

  // Every id listed is in the index, of this tenant and source, and at the version
  // listed where one was; and the index holds no other document of theirs.
  ghost predicate Mirrors(s: Scope, docs: Store, items: seq<Item>) {
    && (forall id, version :: Says(items, id, version) ==>
          && id in docs && docs[id].tenant == s.tenant && docs[id].source == s.source
          && (version != "" ==> docs[id].sourceUpdate == version))
    && (forall id :: id in docs && docs[id].tenant == s.tenant && docs[id].source == s.source ==>
          exists version :: Says(items, id, version))
  }

  // The source answers for everything it lists, at the version it listed.
  ghost predicate Answers(items: seq<Item>, fetch: string -> Fetched) {
    forall id, version :: Says(items, id, version) ==>
      fetch(id).Fetched? && (version == "" || fetch(id).doc.sourceUpdate == version)
  }

  // Nothing a sweep should touch: a document of another tenant or source whose id
  // is not listed, or a queryable one of theirs, listed without a version or at its
  // own.
  ghost predicate Fine(s: Scope, docs: Store, items: seq<Item>, id: string) {
    && id in docs
    && if docs[id].tenant == s.tenant && docs[id].source == s.source then
         && docs[id].id != "" && docs[id].tenant != "" && docs[id].permissions.mode != ModeUnknown
         && exists version :: Says(items, id, version) && (version == "" || version == docs[id].sourceUpdate)
       else
         forall version :: !Says(items, id, version)
  }

  ghost predicate Undisturbed(s: Scope, docs: Store, docs': Store, items: seq<Item>) {
    forall id :: Fine(s, docs, items, id) ==> id in docs' && docs'[id] == docs[id]
  }

  // Whatever else is listed is the source's own now, but for the id, the tenant and
  // the source it is filed under.
  ghost predicate Refreshed(s: Scope, docs: Store, docs': Store, items: seq<Item>, fetch: string -> Fetched) {
    forall id, version :: Says(items, id, version) && !Fine(s, docs, items, id) ==>
      && fetch(id).Fetched? && id in docs'
      && docs'[id] == fetch(id).doc.(id := id, tenant := s.tenant, source := s.source)
  }

  lemma {:induction false} ListedIs(items: seq<Item>, id: string, version: string)
    ensures Says(items, id, version) <==> id in Listed(items) && Listed(items)[id] == version
  {
    if items != [] {
      var init, last := items[..|items| - 1], items[|items| - 1];
      ListedIs(init, id, version);
      if last.id == id {
        if id != "" && last.version == version { assert items[|items| - 1] == Item(id, version); }
      } else {
        if Says(init, id, version) {
          var i :| 0 <= i < |init| && init[i] == Item(id, version) && forall j :: i < j < |init| ==> init[j].id != id;
          assert items[i] == Item(id, version);
        }
        if Says(items, id, version) {
          var i :| 0 <= i < |items| && items[i] == Item(id, version) && forall j :: i < j < |items| ==>
                items[j].id != id;
          assert init[i] == Item(id, version);
        }
      }
    }
  }

  lemma ListedAll(items: seq<Item>)
    ensures forall id, version :: Says(items, id, version) <==> id in Listed(items) && Listed(items)[id] == version
    ensures forall id :: id in Listed(items) ==> Says(items, id, Listed(items)[id])
  {
    hide Says, Listed;
    forall id, version ensures Says(items, id, version) <==> id in Listed(items) && Listed(items)[id] == version {
      ListedIs(items, id, version);
    }
  }

  lemma MirrorsIff(s: Scope, docs: Store, items: seq<Item>)
    ensures Mirrors(s, docs, items) <==> InSync(s, docs, Listed(items))
  {
    hide Listed, Says;
    ListedAll(items);
    var listed := Listed(items);
    if Mirrors(s, docs, items) {
      forall id ensures !IsMissing(s, docs, listed, id) && !IsStale(s, docs, listed, id)
          && !IsExtra(s, docs, listed, id) {
        if id in listed { assert Says(items, id, listed[id]); }
      }
    }
    if InSync(s, docs, listed) {
      forall id, version | Says(items, id, version)
        ensures id in docs && docs[id].tenant == s.tenant && docs[id].source == s.source
        ensures version != "" ==> docs[id].sourceUpdate == version
      {
        assert !IsMissing(s, docs, listed, id) && !IsStale(s, docs, listed, id);
      }
      forall id | id in docs && docs[id].tenant == s.tenant && docs[id].source == s.source
        ensures exists version :: Says(items, id, version)
      {
        assert !IsExtra(s, docs, listed, id);
      }
    }
  }

  lemma FetchableIff(items: seq<Item>, fetch: string -> Fetched)
    ensures Answers(items, fetch) <==> Fetchable(Listed(items), fetch)
  {
    hide Listed, Says;
    ListedAll(items);
  }

  lemma LeavesRest(s: Scope, docs: Store, items: seq<Item>, f: Found, fetch: string -> Fetched)
    requires Classified(s, docs, Listed(items), f) && "" !in docs && "" !in Listed(items)
    requires Fetchable(Listed(items), fetch)
    ensures Undisturbed(s, docs, ApplyAll(s, docs, Repairs(Some(fetch), f)), items)
    ensures Refreshed(s, docs, ApplyAll(s, docs, Repairs(Some(fetch), f)), items, fetch)
  {
    hide Classified, Listed, Says, ApplyAll, Repairs;
    ListedAll(items);
    forall id, version | Says(items, id, version) && !Fine(s, docs, items, id)
      ensures At(ApplyAll(s, docs, Repairs(Some(fetch), f)), id) ==
              Some(fetch(id).doc.(id := id, tenant := s.tenant, source := s.source))
    {
      RepairedAt(s, docs, Listed(items), f, fetch, id);
    }
    forall id | Fine(s, docs, items, id)
      ensures At(ApplyAll(s, docs, Repairs(Some(fetch), f)), id) == Some(docs[id])
    {
      RepairedAt(s, docs, Listed(items), f, fetch, id);
    }
  }

  // Nothing the source lists is withheld when it is fetched.
  ghost predicate Readable(source: Source) {
    source.fetch.Some? ==> forall id :: id in Listed(source.items) ==> source.fetch.value(id) != Unreadable
  }

  lemma ReadableIsEnough(s: Scope, docs: Store, source: Source, f: Found)
    requires Classified(s, docs, Listed(source.items), f)
    ensures Readable(source) ==> AllReadable(source.fetch, f)
  {
    hide Strict, StrLess, Listed;
  }

  // ---- Convergence.

  // A source that answers for everything it lists, at the version it listed.
  ghost predicate Fetchable(listed: map<string, string>, fetch: string -> Fetched) {
    forall id :: id in listed ==> fetch(id).Fetched? && (listed[id] == "" || fetch(id).doc.sourceUpdate == listed[id])
  }

  ghost predicate InSync(s: Scope, docs: Store, listed: map<string, string>) {
    forall id :: !IsMissing(s, docs, listed, id) && !IsStale(s, docs, listed, id) && !IsExtra(s, docs, listed, id)
  }

  // What a finished repair makes of one document.
  lemma RepairedAt(s: Scope, docs: Store, listed: map<string, string>, f: Found, fetch: string -> Fetched, id: string)
    requires Classified(s, docs, listed, f) && "" !in docs && "" !in listed && Fetchable(listed, fetch)
    ensures At(ApplyAll(s, docs, Repairs(Some(fetch), f)), id) ==
            if IsExtra(s, docs, listed, id) then None
            else if IsMissing(s, docs, listed, id) || IsStale(s, docs, listed, id) || IsHeld(s, docs, listed, id) then
              Some(Stamp(s, fetch(id).doc.(id := id)))
            else At(docs, id)
  {
    hide Classified, Fetchable, ApplyAll, Sum, Become, Repairs, RepairIds, IsMissing, IsStale, IsExtra, IsHeld, At,
        Stamp;
    var stream, ids := Repairs(Some(fetch), f), RepairIds(Some(fetch), f);
    RepairedAtAny(s, docs, stream, id);
    Categories(s, docs, listed, f, fetch, id);
    StreamIds(s, docs, listed, f, Some(fetch));
    if id in ids {
      var k :| 0 <= k < |ids| && ids[k] == id;
      OnceSum(s, stream, k);
      RepairAt(Some(fetch), f, k);
      RepairMakes(s, docs, listed, f, fetch, k);
    } else {
      NoChangeNoSum(s, stream, id);
      BecomeKeep(s, At(docs, id));
    }
  }

  lemma StreamIds(s: Scope, docs: Store, listed: map<string, string>, f: Found, fetch: Option<string -> Fetched>)
    requires Classified(s, docs, listed, f) && "" !in docs && "" !in listed
    ensures var stream, ids := Repairs(fetch, f), RepairIds(fetch, f);
            && |stream| == |ids|
            && (forall k :: 0 <= k < |stream| ==> stream[k].doc.id == ids[k] != "" && !stream[k].permissionsOnly)
            && (forall i, j :: 0 <= i < j < |stream| ==> stream[i].doc.id != stream[j].doc.id)
  {
    hide Classified;
    var stream, ids := Repairs(fetch, f), RepairIds(fetch, f);
    RepairsDistinct(s, docs, listed, f, fetch);
    forall k | 0 <= k < |stream| ensures stream[k].doc.id == ids[k] != "" && !stream[k].permissionsOnly {
      RepairAt(fetch, f, k);
      assert ids[k] in ids;
    }
    assert |stream| == |ids|;
    forall i, j | 0 <= i < j < |stream| ensures stream[i].doc.id != stream[j].doc.id { assert ids[i] != ids[j]; }
  }

  // The categories in the order the repair takes them.
  lemma Categories(s: Scope, docs: Store, listed: map<string, string>, f: Found, fetch: string -> Fetched, id: string)
    requires Classified(s, docs, listed, f)
    ensures id in f.extra <==> IsExtra(s, docs, listed, id)
    ensures id in f.missing + f.stale + f.held <==>
            IsMissing(s, docs, listed, id) || IsStale(s, docs, listed, id) || IsHeld(s, docs, listed, id)
    ensures id in RepairIds(Some(fetch), f) <==> id in f.extra || id in f.missing + f.stale + f.held
    ensures id in f.extra ==> id !in f.missing + f.stale + f.held
  {
    hide Strict, StrLess;
  }

  lemma RepairMakes(s: Scope, docs: Store, listed: map<string, string>, f: Found, fetch: string -> Fetched, k: nat)
    requires Classified(s, docs, listed, f) && Fetchable(listed, fetch)
    requires k < |RepairIds(Some(fetch), f)| == |Repairs(Some(fetch), f)| && RepairIds(Some(fetch), f)[k] != ""
    ensures RepairIds(Some(fetch), f)[k] !in f.extra ==> fetch(RepairIds(Some(fetch), f)[k]).Fetched?
    ensures var id, ch := RepairIds(Some(fetch), f)[k], Repairs(Some(fetch), f)[k];
            Become(s, OutcomeOf(s, ch, id), At(docs, id)) ==
            if id in f.extra then None else Some(Stamp(s, fetch(id).doc.(id := id)))
  {
    hide Repairs, Strict, StrLess, Classified, Fetchable, At, Stamp;
    var id := RepairIds(Some(fetch), f)[k];
    RepairAt(Some(fetch), f, k);
    Categories(s, docs, listed, f, fetch, id);
    assert k < |f.extra| ==> id == f.extra[k];
    assert k >= |f.extra| ==> id == (f.missing + f.stale + f.held)[k - |f.extra|];
    if id !in f.extra {
      FetchedIs(s, docs, listed, fetch, id);
    }
  }

  lemma FetchedIs(s: Scope, docs: Store, listed: map<string, string>, fetch: string -> Fetched, id: string)
    requires Fetchable(listed, fetch)
    requires IsMissing(s, docs, listed, id) || IsStale(s, docs, listed, id) || IsHeld(s, docs, listed, id)
    ensures fetch(id).Fetched?
  {
  }

  lemma BecomeKeep(s: Scope, v: Option<Document>)
    ensures Become(s, Keep(None), v) == v
  {
  }

  lemma RepairedAtAny(s: Scope, docs: Store, stream: seq<Change>, id: string)
    ensures At(ApplyAll(s, docs, stream), id) == Become(s, Sum(s, stream, id), At(docs, id))
  {
    AppliedAt(s, docs, stream, id);
  }

  // One repair against a source that can be fetched leaves nothing to repair.
  lemma RepairConverges(s: Scope, docs: Store, listed: map<string, string>, f: Found, fetch: string -> Fetched)
    requires Classified(s, docs, listed, f) && "" !in docs && "" !in listed && Fetchable(listed, fetch)
    ensures InSync(s, ApplyAll(s, docs, Repairs(Some(fetch), f)), listed)
    ensures "" !in ApplyAll(s, docs, Repairs(Some(fetch), f))
  {
    hide ApplyAll, Repairs, Classified;
    var docs' := ApplyAll(s, docs, Repairs(Some(fetch), f));
    forall id ensures !IsMissing(s, docs', listed, id) && !IsStale(s, docs', listed, id)
        && !IsExtra(s, docs', listed, id) {
      RepairedAt(s, docs, listed, f, fetch, id);
    }
    RepairedAt(s, docs, listed, f, fetch, "");
  }

  lemma InSyncIff(s: Scope, docs: Store, listed: map<string, string>, f: Found)
    requires Classified(s, docs, listed, f)
    ensures InSync(s, docs, listed) <==> f.missing == [] && f.stale == [] && f.extra == []
  {
    EmptyIff(f.missing);
    EmptyIff(f.stale);
    EmptyIff(f.extra);
  }

  lemma AnswersIsReadable(source: Source)
    requires source.fetch.Some? && Answers(source.items, source.fetch.value)
    ensures Readable(source)
  {
    hide Listed;
    FetchableIff(source.items, source.fetch.value);
  }

  // Two sweeps of an unchanged source: both finish if nothing fails, the index then
  // mirrors the source, and the second reports no drift.
  method SweepTwice(world: World, s: Scope, batchSize: nat, source: Source)
      returns (second: Report, problem: Option<Problem>)
    requires batchSize > 0 && "" !in world.docs
    requires source.fetch.Some? && Answers(source.items, source.fetch.value)
    modifies world
    ensures world.steady == old(world.steady) && world.checkpoint == old(world.checkpoint)
    ensures world.steady && source.enumerates ==> problem.None?
    ensures problem.None? ==> Drift(second) == 0 && Mirrors(s, world.docs, source.items)
  {
    hide *;
    AnswersIsReadable(source);
    ghost var f;
    second, problem, f := Sweep(world, s, batchSize, source);
    if problem.None? {
      second, problem, f := Sweep(world, s, batchSize, source);
    }
  }
}
