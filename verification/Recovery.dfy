// ingest/ingest.go: what a store may hold at any moment of any number of runs
// that broke off, stated so that every write keeps it and a replay repairs it.
module Recovery {
  import opened Encoding
  import opened Acl
  import opened Retrieve
  import opened Changes

  // The whole change stream of one source, and what the store held before any of it.
  datatype Plan = Plan(scope: Scope, stream: seq<Change>, init: Store)

  function Max(a: nat, b: nat): nat {
    if a >= b then a else b
  }

  // Everything before `from` has been stored, nothing from `reach` on has been
  // touched, and resuming anywhere up to `from` and reading on to any point past
  // `reach` gives what the stream means there.
  ghost predicate Safe(plan: Plan, docs: Store, from: nat, reach: nat) {
    && from <= reach <= |plan.stream|
    && forall c, m :: 0 <= c <= from && reach <= m <= |plan.stream| ==>
         ApplyAll(plan.scope, docs, plan.stream[c..m]) == ApplyAll(plan.scope, plan.init, plan.stream[..m])
  }

  lemma SafeStart(plan: Plan)
    ensures Safe(plan, plan.init, 0, 0)
  {
    forall m | 0 <= m <= |plan.stream|
      ensures ApplyAll(plan.scope, plan.init, plan.stream[0..m]) == ApplyAll(plan.scope, plan.init, plan.stream[..m])
    {
      assert plan.stream[0..m] == plan.stream[..m];
    }
  }

  // A checkpoint may always be behind.
  lemma SafeResume(plan: Plan, docs: Store, from: nat, reach: nat, checkpoint: nat)
    requires Safe(plan, docs, from, reach) && checkpoint <= from
    ensures Safe(plan, docs, checkpoint, reach)
  {
  }

  // From a checkpoint no newer than `from`, the rest of the stream completes the
  // store: nothing has been skipped.
  lemma SafeRecovers(plan: Plan, docs: Store, from: nat, reach: nat, checkpoint: nat)
    requires Safe(plan, docs, from, reach) && checkpoint <= from
    ensures ApplyAll(plan.scope, docs, plan.stream[checkpoint..]) == ApplyAll(plan.scope, plan.init, plan.stream)
  {
    var n := |plan.stream|;
    assert plan.stream[checkpoint..n] == plan.stream[checkpoint..] && plan.stream[..n] == plan.stream;
  }

  lemma SafeDone(plan: Plan, docs: Store)
    requires Safe(plan, docs, |plan.stream|, |plan.stream|)
    ensures docs == ApplyAll(plan.scope, plan.init, plan.stream)
  {
    SafeRecovers(plan, docs, |plan.stream|, |plan.stream|, |plan.stream|);
    assert plan.stream[|plan.stream|..] == [];
  }

  // ---- A flush that stopped somewhere.

  // What a partly written batch may have left of a document, by what the batch
  // does to it: nothing new if it leaves it alone, other permissions if that is
  // all it sets, anything if it settles what the document is.
  ghost predicate Reworked(s: Scope, b: Outcome, v: Option<Document>, u: Option<Document>) {
    match b
    case Keep(None) => u == v
    case Keep(Some(_)) =>
      || u == v
      || (v.Some? && v.value.tenant == s.tenant && exists p :: u == Some(v.value.(permissions := p)))
    case _ => true
  }

  // Replaying the batch, with anything before it and after it, erases the difference.
  lemma ReplayErases(s: Scope, x: Outcome, b: Outcome, y: Outcome, v: Option<Document>, u: Option<Document>)
    requires Reworked(s, b, v, u)
    ensures Become(s, Then(Then(x, b), y), u) == Become(s, Then(Then(x, b), y), v)
  {
  }

  lemma PartReworks(s: Scope, st: Store, chs: seq<Change>, st': Store, id: string)
    requires PartOfFlush(s, st, chs, st')
    ensures Reworked(s, Sum(s, chs, id), At(st, id), At(st', id))
  {
    hide Sum, PutAll, Documents, Deletes, Perms;
    SumWithPut(s, chs, id);
    if Sum(s, chs, id).Keep? {
      SumWithoutPut(s, chs, id);
      var i: nat, j: nat, done: map<string, Permissions> :|
        && i <= |Documents(s, chs)| && j <= |Deletes(chs)| && done.Keys <= Perms(chs).Keys
        && st' == SetAll(s, DeleteAll(PutAll(st, Documents(s, chs)[..i]), Deletes(chs)[..j]), done);
      if LastOf(Documents(s, chs)[..i], id).Some? { LastOfPrefix(Documents(s, chs), i, id); }
      DocumentsAt(s, chs, id);
      Untouched(s, st, Documents(s, chs)[..i], Deletes(chs)[..j], done, id);
    }
  }

  // A document neither put nor deleted has at most had its permissions set.
  lemma Untouched(s: Scope, st: Store, docs: seq<Document>, ids: seq<string>, done: map<string, Permissions>,
                  id: string)
    requires LastOf(docs, id).None? && id !in ids
    ensures var st' := SetAll(s, DeleteAll(PutAll(st, docs), ids), done);
            if id in done && id in st && st[id].tenant == s.tenant
                then At(st', id) == Some(st[id].(permissions := done[id]))
            else At(st', id) == At(st, id)
  {
    hide PutAll;
    PutAllAt(st, docs, id);
    var put := PutAll(st, docs);
    assert At(put, id) == At(st, id);
    assert id in put <==> id in st;
  }

  lemma SafePart(plan: Plan, docs: Store, from: nat, reach: nat, to: nat, docs': Store)
    requires Safe(plan, docs, from, reach) && from <= to <= |plan.stream|
    requires PartOfFlush(plan.scope, docs, plan.stream[from..to], docs')
    ensures Safe(plan, docs', from, Max(reach, to))
  {
    hide PartOfFlush, Sum, ApplyAll, Become, Then, Reworked;
    var s, stream := plan.scope, plan.stream;
    forall c, m | 0 <= c <= from && Max(reach, to) <= m <= |stream|
      ensures ApplyAll(s, docs', stream[c..m]) == ApplyAll(s, plan.init, stream[..m])
    {
      assert ApplyAll(s, docs, stream[c..m]) == ApplyAll(s, plan.init, stream[..m]);
      forall id ensures At(ApplyAll(s, docs', stream[c..m]), id) == At(ApplyAll(s, docs, stream[c..m]), id) {
        PartReworks(s, docs, stream[from..to], docs', id);
        ThreeParts(s, stream, c, from, to, m, id);
        ReplayErases(s, Sum(s, stream[c..from], id), Sum(s, stream[from..to], id), Sum(s, stream[to..m], id),
                     At(docs, id), At(docs', id));
        AppliedAt(s, docs, stream[c..m], id);
        AppliedAt(s, docs', stream[c..m], id);
      }
      SameAt(ApplyAll(s, docs', stream[c..m]), ApplyAll(s, docs, stream[c..m]));
    }
  }

  lemma ThreeParts(s: Scope, stream: seq<Change>, a: nat, b: nat, c: nat, d: nat, id: string)
    requires a <= b <= c <= d <= |stream|
    ensures Sum(s, stream[a..d], id) == Then(Then(Sum(s, stream[a..b], id), Sum(s, stream[b..c], id)),
                                             Sum(s, stream[c..d], id))
  {
    hide Sum, Then;
    assert stream[a..d] == stream[a..c] + stream[c..d];
    assert stream[a..c] == stream[a..b] + stream[b..c];
    SumConcat(s, stream[a..c], stream[c..d], id);
    SumConcat(s, stream[a..b], stream[b..c], id);
  }

  // ---- A flush that finished.

  lemma WholeFlushIsPart(s: Scope, st: Store, chs: seq<Change>)
    ensures PartOfFlush(s, st, chs, Flushed(s, st, chs))
  {
    hide Documents, Deletes, Perms, PutAll, DeleteAll, SetAll;
    var i, j, done := |Documents(s, chs)|, |Deletes(chs)|, Perms(chs);
    assert Documents(s, chs)[..i] == Documents(s, chs) && Deletes(chs)[..j] == Deletes(chs);
    assert Flushed(s, st, chs) == SetAll(s, DeleteAll(PutAll(st, Documents(s, chs)[..i]), Deletes(chs)[..j]), done);
  }

  // What one document is after q has been applied and then is replayed.
  lemma ReplayTwice(s: Scope, p: Outcome, q: Outcome, y: Outcome, v: Option<Document>)
    requires InScope(s, p) && InScope(s, q)
    ensures Become(s, Then(q, y), Become(s, Then(p, q), v)) == Become(s, Then(Then(p, q), y), v)
  {
    ThenLaws(s, p, q, Then(q, y), v);
    ThenLaws(s, q, q, y, v);
    ThenLaws(s, p, q, y, v);
    ThenLaws(s, Then(p, q), Then(q, y), y, v);
    assert InScope(s, Then(p, q));
  }

  lemma SafeFlush(plan: Plan, docs: Store, from: nat, reach: nat, to: nat)
    requires Safe(plan, docs, from, reach) && from <= to <= |plan.stream|
    requires InFlushOrder(plan.scope, plan.stream[from..to])
    ensures Safe(plan, Flushed(plan.scope, docs, plan.stream[from..to]), to, Max(reach, to))
  {
    hide PartOfFlush, Sum, ApplyAll, Become, Then, Flushed, InFlushOrder;
    var s, stream := plan.scope, plan.stream;
    var docs' := Flushed(s, docs, stream[from..to]);
    WholeFlushIsPart(s, docs, stream[from..to]);
    SafePart(plan, docs, from, reach, to, docs');
    FlushIsApplyIff(s, docs, stream[from..to]);
    forall c, m | from < c <= to && Max(reach, to) <= m <= |stream|
      ensures ApplyAll(s, docs', stream[c..m]) == ApplyAll(s, plan.init, stream[..m])
    {
      assert ApplyAll(s, docs, stream[from..m]) == ApplyAll(s, plan.init, stream[..m]);
      forall id ensures At(ApplyAll(s, docs', stream[c..m]), id) == At(ApplyAll(s, docs, stream[from..m]), id) {
        var p, q, y := Sum(s, stream[from..c], id), Sum(s, stream[c..to], id), Sum(s, stream[to..m], id);
        AppliedAt(s, docs', stream[c..m], id);
        AppliedAt(s, docs, stream[from..to], id);
        AppliedAt(s, docs, stream[from..m], id);
        assert stream[from..to] == stream[from..c] + stream[c..to] && stream[c..m] == stream[c..to] + stream[to..m];
        SumConcat(s, stream[from..c], stream[c..to], id);
        SumConcat(s, stream[c..to], stream[to..m], id);
        ThreeParts(s, stream, from, c, to, m, id);
        SumInScope(s, stream[from..c], id);
        SumInScope(s, stream[c..to], id);
        ReplayTwice(s, p, q, y, At(docs, id));
      }
      SameAt(ApplyAll(s, docs', stream[c..m]), ApplyAll(s, docs, stream[from..m]));
    }
  }

  // Any part of a flush, and then the whole of it: the whole of it.
  lemma PartThenWhole(s: Scope, st: Store, chs: seq<Change>, st': Store)
    requires PartOfFlush(s, st, chs, st') && InFlushOrder(s, chs)
    ensures Flushed(s, st', chs) == Flushed(s, st, chs)
  {
    hide PartOfFlush, Sum, ApplyAll, Become, Flushed, InFlushOrder, Reworked;
    FlushIsApplyIff(s, st, chs);
    FlushIsApplyIff(s, st', chs);
    forall id ensures At(ApplyAll(s, st', chs), id) == At(ApplyAll(s, st, chs), id) {
      PartReworks(s, st, chs, st', id);
      var b := Sum(s, chs, id);
      ReplayErases(s, Keep(None), b, Keep(None), At(st, id), At(st', id));
      ThenLaws(s, b, b, b, None);
      AppliedAt(s, st, chs, id);
      AppliedAt(s, st', chs, id);
    }
    SameAt(ApplyAll(s, st', chs), ApplyAll(s, st, chs));
  }
}
