// ingest/ingest.go: what a stream of changes means, what one flush of a batch
// does instead, and when the two agree.
module Changes {
  import opened Encoding
  import opened Acl
  import opened Retrieve

  type Store = map<string, Document>

  // A connector's cursor is opaque; all that matters of it is where in the stream
  // it resumes. Zero is the beginning, and no cursor at all.
  type Cursor = nat

  datatype Change = Change(doc: Document, deleted: bool, permissionsOnly: bool, cursor: Cursor)

  // Whose corpus a run writes into, and which connector it is.
  datatype Scope = Scope(tenant: string, source: string)

  function Stamp(s: Scope, d: Document): Document {
    d.(tenant := s.tenant, source := s.source)
  }

  // It says whose the document is, and changes nothing else about it.
  lemma StampSays(s: Scope, d: Document)
    ensures Stamp(s, d).tenant == s.tenant && Stamp(s, d).source == s.source
    ensures Stamp(s, d).(tenant := d.tenant, source := d.source) == d
  {
  }

  predicate IsPut(ch: Change) {
    ch.doc.id != "" && !ch.deleted && !ch.permissionsOnly
  }

  predicate IsDelete(ch: Change) {
    ch.doc.id != "" && ch.deleted
  }

  predicate IsPermissions(ch: Change) {
    ch.doc.id != "" && !ch.deleted && ch.permissionsOnly
  }

  // ---- The meaning of a stream: its changes applied one at a time, in order.

  function SetPermission(s: Scope, st: Store, id: string, p: Permissions): Store {
    if id in st && st[id].tenant == s.tenant then st[id := st[id].(permissions := p)] else st
  }

  function Apply(s: Scope, st: Store, ch: Change): Store {
    if IsPut(ch) then st[ch.doc.id := Stamp(s, ch.doc)]
    else if IsDelete(ch) then st - {ch.doc.id}
    else if IsPermissions(ch) then SetPermission(s, st, ch.doc.id, ch.doc.permissions)
    else st
  }

  function ApplyAll(s: Scope, st: Store, chs: seq<Change>): Store {
    if chs == [] then st else Apply(s, ApplyAll(s, st, chs[..|chs| - 1]), chs[|chs| - 1])
  }

  // A change touches the one document it names: removes it, gives it permissions if
  // it is there and the tenant's, or puts it under the run's tenant and source.
  lemma ApplySays(s: Scope, st: Store, ch: Change, id: string)
    ensures var after := Apply(s, st, ch);
            if ch.doc.id == "" || ch.doc.id != id then
              (id in after <==> id in st) && (id in st ==> after[id] == st[id])
            else if ch.deleted then
              id !in after
            else if ch.permissionsOnly then
              && (id in after <==> id in st)
              && (id in st ==>
                    if st[id].tenant == s.tenant then after[id] == st[id].(permissions := ch.doc.permissions)
                    else after[id] == st[id])
            else
              && id in after && after[id].tenant == s.tenant && after[id].source == s.source
              && after[id].(tenant := ch.doc.tenant, source := ch.doc.source) == ch.doc
  {
  }

  // ---- One document's share of it.

  // What a run of changes does to one id whatever it held before: leaves it, but
  // for its permissions; removes it; or puts exactly this.
  datatype Outcome = Keep(permissions: Option<Permissions>) | Gone | Puts(doc: Document)

  function At(st: Store, id: string): Option<Document> {
    if id in st then Some(st[id]) else None
  }

  function Become(s: Scope, o: Outcome, v: Option<Document>): Option<Document> {
    match o
    case Gone => None
    case Puts(d) => Some(d)
    case Keep(None) => v
    case Keep(Some(p)) => if v.Some? && v.value.tenant == s.tenant then Some(v.value.(permissions := p)) else v
  }

  function Then(a: Outcome, b: Outcome): Outcome {
    match b
    case Keep(None) => a
    case Keep(Some(p)) =>
      (match a
       case Keep(_) => b
       case Gone => Gone
       case Puts(d) => Puts(d.(permissions := p)))
    case _ => b
  }

  function OutcomeOf(s: Scope, ch: Change, id: string): Outcome {
    if ch.doc.id != id || id == "" then Keep(None)
    else if ch.deleted then Gone
    else if ch.permissionsOnly then Keep(Some(ch.doc.permissions))
    else Puts(Stamp(s, ch.doc))
  }

  function Sum(s: Scope, chs: seq<Change>, id: string): Outcome {
    if chs == [] then Keep(None) else Then(Sum(s, chs[..|chs| - 1], id), OutcomeOf(s, chs[|chs| - 1], id))
  }

  ghost predicate InScope(s: Scope, o: Outcome) {
    o.Puts? ==> o.doc.tenant == s.tenant
  }

  lemma ThenLaws(s: Scope, a: Outcome, b: Outcome, c: Outcome, v: Option<Document>)
    ensures Then(Then(a, b), c) == Then(a, Then(b, c))
    ensures Then(a, a) == a
    ensures Then(Keep(None), a) == a && Then(a, Keep(None)) == a
    ensures InScope(s, a) ==> Become(s, Then(a, b), v) == Become(s, b, Become(s, a, v))
  {
  }

  lemma {:induction false} SumInScope(s: Scope, chs: seq<Change>, id: string)
    ensures InScope(s, Sum(s, chs, id))
  {
    if chs != [] { SumInScope(s, chs[..|chs| - 1], id); }
  }

  lemma {:induction false} SumConcat(s: Scope, a: seq<Change>, b: seq<Change>, id: string)
    ensures Sum(s, a + b, id) == Then(Sum(s, a, id), Sum(s, b, id))
  {
    hide Become, OutcomeOf, Then;
    if b == [] {
      assert a + b == a;
      ThenLaws(s, Sum(s, a, id), Keep(None), Keep(None), None);
    } else {
      var init, last := b[..|b| - 1], b[|b| - 1];
      assert (a + b)[..|a + b| - 1] == a + init;
      SumConcat(s, a, init, id);
      ThenLaws(s, Sum(s, a, id), Sum(s, init, id), OutcomeOf(s, last, id), None);
    }
  }

  // The stream, one document at a time.
  lemma {:induction false} AppliedAt(s: Scope, st: Store, chs: seq<Change>, id: string)
    ensures At(ApplyAll(s, st, chs), id) == Become(s, Sum(s, chs, id), At(st, id))
  {
    if chs != [] {
      var init, last := chs[..|chs| - 1], chs[|chs| - 1];
      AppliedAt(s, st, init, id);
      SumInScope(s, init, id);
      ThenLaws(s, Sum(s, init, id), OutcomeOf(s, last, id), Keep(None), At(st, id));
    }
  }

  lemma SameAt(a: Store, b: Store)
    requires forall id :: At(a, id) == At(b, id)
    ensures a == b
  {
    forall id ensures id in a <==> id in b { assert At(a, id) == At(b, id); }
    forall id | id in a ensures a[id] == b[id] { assert At(a, id) == At(b, id); }
  }

  // ---- What a batch becomes: three buffers, written puts first, then deletes,
  // ---- then permissions, whatever order they arrived in.

  function Documents(s: Scope, chs: seq<Change>): seq<Document> {
    if chs == [] then []
    else
      var ch := chs[|chs| - 1];
      Documents(s, chs[..|chs| - 1]) + (if IsPut(ch) then [Stamp(s, ch.doc)] else [])
  }

  function Deletes(chs: seq<Change>): seq<string> {
    if chs == [] then []
    else
      var ch := chs[|chs| - 1];
      Deletes(chs[..|chs| - 1]) + (if IsDelete(ch) then [ch.doc.id] else [])
  }

  function Perms(chs: seq<Change>): map<string, Permissions> {
    if chs == [] then map[]
    else
      var ch := chs[|chs| - 1];
      var before := Perms(chs[..|chs| - 1]);
      if IsPermissions(ch) then before[ch.doc.id := ch.doc.permissions] else before
  }

  // What maybeFlush compares with the batch size.
  function Buffered(s: Scope, chs: seq<Change>): nat {
    |Documents(s, chs)| + |Deletes(chs)| + |Perms(chs)|
  }

  // ---- The three writes.

  function PutAll(st: Store, docs: seq<Document>): Store {
    if docs == [] then st
    else
      var d := docs[|docs| - 1];
      PutAll(st, docs[..|docs| - 1])[d.id := d]
  }

  function DeleteAll(st: Store, ids: seq<string>): Store {
    st - (set id | id in ids)
  }

  function SetAll(s: Scope, st: Store, perms: map<string, Permissions>): Store {
    map id | id in st ::
      if id in perms && st[id].tenant == s.tenant then st[id].(permissions := perms[id]) else st[id]
  }

  function Flushed(s: Scope, st: Store, chs: seq<Change>): Store {
    SetAll(s, DeleteAll(PutAll(st, Documents(s, chs)), Deletes(chs)), Perms(chs))
  }

  // Where a flush that died may have got to: some of the puts, some of the
  // deletes, some of the permissions.
  ghost predicate PartOfFlush(s: Scope, st: Store, chs: seq<Change>, st': Store) {
    exists i: nat, j: nat, done: map<string, Permissions> ::
      && i <= |Documents(s, chs)| && j <= |Deletes(chs)| && done.Keys <= Perms(chs).Keys
      && (forall id :: id in done ==> done[id] == Perms(chs)[id])
      && st' == SetAll(s, DeleteAll(PutAll(st, Documents(s, chs)[..i]), Deletes(chs)[..j]), done)
  }

  // ---- The same, one document at a time.

  function LastPut(s: Scope, chs: seq<Change>, id: string): Option<Document> {
    if chs == [] then None
    else
      var ch := chs[|chs| - 1];
      if IsPut(ch) && ch.doc.id == id then Some(Stamp(s, ch.doc)) else LastPut(s, chs[..|chs| - 1], id)
  }

  predicate HasDelete(chs: seq<Change>, id: string) {
    id in Deletes(chs)
  }

  function LastPermissions(chs: seq<Change>, id: string): Option<Permissions> {
    if id in Perms(chs) then Some(Perms(chs)[id]) else None
  }

  function LastOf(docs: seq<Document>, id: string): Option<Document> {
    if docs == [] then None
    else if docs[|docs| - 1].id == id then Some(docs[|docs| - 1])
    else LastOf(docs[..|docs| - 1], id)
  }

  lemma {:induction false} PutAllAt(st: Store, docs: seq<Document>, id: string)
    ensures At(PutAll(st, docs), id) == if LastOf(docs, id).Some? then LastOf(docs, id) else At(st, id)
  {
    if docs != [] { PutAllAt(st, docs[..|docs| - 1], id); }
  }

  lemma {:induction false} DocumentsAt(s: Scope, chs: seq<Change>, id: string)
    ensures LastOf(Documents(s, chs), id) == LastPut(s, chs, id)
  {
    if chs != [] {
      DocumentsAt(s, chs[..|chs| - 1], id);
      var before := Documents(s, chs[..|chs| - 1]);
      assert forall d :: (before + [d])[..|before|] == before;
      assert before + [] == before;
    }
  }

  lemma {:induction false} LastOfPrefix(docs: seq<Document>, i: nat, id: string)
    requires i <= |docs| && LastOf(docs[..i], id).Some?
    ensures LastOf(docs, id).Some?
  {
    if i < |docs| {
      assert docs[..|docs| - 1][..i] == docs[..i];
      LastOfPrefix(docs[..|docs| - 1], i, id);
    } else {
      assert docs[..i] == docs;
    }
  }

  // What the flush of a batch makes of one document.
  function FlushOutcome(s: Scope, chs: seq<Change>, id: string): Outcome {
    if HasDelete(chs, id) then Gone
    else
      match (LastPut(s, chs, id), LastPermissions(chs, id))
      case (None, p) => Keep(p)
      case (Some(d), None) => Puts(d)
      case (Some(d), Some(p)) => Puts(d.(permissions := p))
  }

  lemma {:induction false} LastPutInScope(s: Scope, chs: seq<Change>, id: string)
    ensures LastPut(s, chs, id).Some? ==> LastPut(s, chs, id).value.tenant == s.tenant
  {
    if chs != [] { LastPutInScope(s, chs[..|chs| - 1], id); }
  }

  lemma FlushedAt(s: Scope, st: Store, chs: seq<Change>, id: string)
    ensures At(Flushed(s, st, chs), id) == Become(s, FlushOutcome(s, chs, id), At(st, id))
  {
    hide Documents, Deletes, Perms, LastPut, PutAll;
    PutAllAt(st, Documents(s, chs), id);
    DocumentsAt(s, chs, id);
    LastPutInScope(s, chs, id);
  }

  // ---- When the buffers and the order agree.

  // For the last put of an id in a batch: either it is deleted again afterwards,
  // or nothing deleted it before and its permissions were not overtaken by a
  // change that came before it.
  ghost predicate InOrder(s: Scope, chs: seq<Change>, id: string) {
    forall p :: 0 <= p < |chs| && IsPut(chs[p]) && chs[p].doc.id == id && LastPut(s, chs[p + 1..], id).None? ==>
      || HasDelete(chs[p + 1..], id)
      || (&& !HasDelete(chs[..p], id)
          && (|| LastPermissions(chs[p + 1..], id).Some?
              || LastPermissions(chs[..p], id).None?
              || LastPermissions(chs[..p], id).value == chs[p].doc.permissions))
  }

  ghost predicate InFlushOrder(s: Scope, chs: seq<Change>) {
    forall id :: InOrder(s, chs, id)
  }

  // A batch that never puts an id: deleting is final, and the last permissions win.
  lemma {:induction false} SumWithoutPut(s: Scope, chs: seq<Change>, id: string)
    requires LastPut(s, chs, id).None?
    ensures Sum(s, chs, id) == if HasDelete(chs, id) then Gone else Keep(LastPermissions(chs, id))
  {
    if chs != [] { SumWithoutPut(s, chs[..|chs| - 1], id); }
  }

  lemma {:induction false} SumWithPut(s: Scope, chs: seq<Change>, id: string)
    ensures Sum(s, chs, id).Keep? <==> LastPut(s, chs, id).None? && !HasDelete(chs, id)
  {
    if chs != [] { SumWithPut(s, chs[..|chs| - 1], id); }
  }

  lemma {:induction false} FindLastPut(s: Scope, chs: seq<Change>, id: string) returns (p: nat)
    requires LastPut(s, chs, id).Some?
    ensures p < |chs| && IsPut(chs[p]) && chs[p].doc.id == id && LastPut(s, chs[p + 1..], id).None?
  {
    var last := |chs| - 1;
    if IsPut(chs[last]) && chs[last].doc.id == id {
      p := last;
      assert chs[p + 1..] == [];
    } else {
      p := FindLastPut(s, chs[..last], id);
      assert chs[p + 1..][..|chs[p + 1..]| - 1] == chs[..last][p + 1..];
    }
  }

  lemma {:induction false} BuffersConcat(s: Scope, a: seq<Change>, b: seq<Change>, id: string)
    ensures LastPut(s, a + b, id) == if LastPut(s, b, id).Some? then LastPut(s, b, id) else LastPut(s, a, id)
    ensures HasDelete(a + b, id) <==> HasDelete(a, id) || HasDelete(b, id)
    ensures LastPermissions(a + b, id) == if LastPermissions(b, id).Some? then LastPermissions(b, id)
        else LastPermissions(a, id)
  {
    if b == [] {
      assert a + b == a;
    } else {
      BuffersConcat(s, a, b[..|b| - 1], id);
      assert (a + b)[..|a + b| - 1] == a + b[..|b| - 1];
    }
  }

  lemma OnePut(s: Scope, ch: Change, id: string)
    requires IsPut(ch) && ch.doc.id == id
    ensures Sum(s, [ch], id) == Puts(Stamp(s, ch.doc)) && LastPut(s, [ch], id) == Some(Stamp(s, ch.doc))
    ensures !HasDelete([ch], id) && LastPermissions([ch], id).None?
  {
    assert [ch][..0] == [];
    assert Deletes([ch]) == Deletes([]) && Perms([ch]) == Perms([])
        && Sum(s, [ch], id) == Then(Sum(s, [], id), OutcomeOf(s, ch, id));
  }

  // The batch around the last put of an id.
  lemma AroundPut(s: Scope, chs: seq<Change>, id: string, p: nat)
    requires p < |chs| && IsPut(chs[p]) && chs[p].doc.id == id && LastPut(s, chs[p + 1..], id).None?
    ensures var a, b, d := chs[..p], chs[p + 1..], Stamp(s, chs[p].doc);
            && Sum(s, chs, id) == (if HasDelete(b, id) then Gone
                                   else if LastPermissions(b, id).Some?
                                       then Puts(d.(permissions := LastPermissions(b, id).value))
                                   else Puts(d))
            && FlushOutcome(s, chs, id) == (if HasDelete(a, id) || HasDelete(b, id) then Gone
                                            else if LastPermissions(b, id).Some?
                                                then Puts(d.(permissions := LastPermissions(b, id).value))
                                            else if LastPermissions(a, id).Some?
                                                then Puts(d.(permissions := LastPermissions(a, id).value))
                                            else Puts(d))
  {
    hide Sum, HasDelete, LastPermissions, LastPut;
    var a, c, b := chs[..p], [chs[p]], chs[p + 1..];
    assert chs == a + (c + b);
    SumConcat(s, a, c + b, id);
    SumConcat(s, c, b, id);
    SumWithoutPut(s, b, id);
    BuffersConcat(s, a, c + b, id);
    BuffersConcat(s, c, b, id);
    OnePut(s, chs[p], id);
  }

  lemma OutcomesAgree(s: Scope, chs: seq<Change>, id: string)
    ensures FlushOutcome(s, chs, id) == Sum(s, chs, id) <==> InOrder(s, chs, id)
    ensures FlushOutcome(s, chs, id) != Sum(s, chs, id) ==> !FlushOutcome(s, chs, id).Keep? && !Sum(s, chs, id).Keep?
  {
    hide Sum, FlushOutcome, HasDelete, LastPermissions;
    if LastPut(s, chs, id).None? {
      SumWithoutPut(s, chs, id);
      NoPutAnywhere(s, chs, id);
      FlushWithoutPut(s, chs, id);
    } else {
      var p := FindLastPut(s, chs, id);
      AroundPut(s, chs, id, p);
      forall q | 0 <= q < |chs| && IsPut(chs[q]) && chs[q].doc.id == id && LastPut(s, chs[q + 1..], id).None?
          ensures q == p {
        LaterPut(s, chs, id, q, p);
        LaterPut(s, chs, id, p, q);
      }
    }
  }

  lemma FlushWithoutPut(s: Scope, chs: seq<Change>, id: string)
    requires LastPut(s, chs, id).None?
    ensures FlushOutcome(s, chs, id) == if HasDelete(chs, id) then Gone else Keep(LastPermissions(chs, id))
  {
  }

  lemma {:induction false} NoPutAnywhere(s: Scope, chs: seq<Change>, id: string)
    requires LastPut(s, chs, id).None?
    ensures forall p :: 0 <= p < |chs| && IsPut(chs[p]) ==> chs[p].doc.id != id
  {
    if chs != [] {
      NoPutAnywhere(s, chs[..|chs| - 1], id);
    }
  }

  lemma LaterPut(s: Scope, chs: seq<Change>, id: string, p: nat, q: nat)
    requires p < |chs| && q < |chs| && IsPut(chs[q]) && chs[q].doc.id == id && LastPut(s, chs[p + 1..], id).None?
    ensures q <= p
  {
    NoPutAnywhere(s, chs[p + 1..], id);
    assert forall k :: p < k < |chs| ==> chs[k] == chs[p + 1..][k - p - 1];
  }

  // One flush is the changes applied in order exactly when no id is put again, in
  // one batch, after being deleted or after being given other permissions.
  lemma FlushIsApplyIff(s: Scope, st: Store, chs: seq<Change>)
    ensures Flushed(s, st, chs) == ApplyAll(s, st, chs) <==> InFlushOrder(s, chs)
  {
    hide Flushed, ApplyAll, InOrder, Sum, FlushOutcome;
    forall id ensures At(Flushed(s, st, chs), id) == At(ApplyAll(s, st, chs), id) <==> InOrder(s, chs, id) {
      FlushedAt(s, st, chs, id);
      AppliedAt(s, st, chs, id);
      OutcomesAgree(s, chs, id);
    }
    if InFlushOrder(s, chs) {
      SameAt(Flushed(s, st, chs), ApplyAll(s, st, chs));
    }
  }

  // The shortest batch that is not: delete a document, then put it back.
  lemma RecreatedIsLost(s: Scope, st: Store, d: Document)
    requires d.id != ""
    ensures var chs := [Change(d, true, false, 0), Change(d, false, false, 0)];
            d.id in ApplyAll(s, st, chs) && d.id !in Flushed(s, st, chs)
  {
    var chs := [Change(d, true, false, 0), Change(d, false, false, 0)];
    assert chs[..1] == [chs[0]] && chs[..1][..0] == [];
    assert chs == [chs[0]] + [chs[1]];
    assert ApplyAll(s, st, chs) == Apply(s, ApplyAll(s, st, chs[..1]), chs[1]);
    assert HasDelete(chs, d.id);
    FlushedAt(s, st, chs, d.id);
  }
}
