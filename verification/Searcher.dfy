// index/cache.go, index/score.go and index/index.go: a searcher reading through
// three caches. What it answers does not depend on them.
//
// A write and the Invalidate it is followed by are one step here; module Flight
// takes them apart.
module Searcher {
  import opened Order
  import opened Encoding
  import opened Acl
  import opened Retrieve
  import opened RequestKey
  import opened SearchKey
  import C = Cache
  import L = Lru

  type Store = map<string, Document>

  // The documents worth ranking, and whatever else the driver says of a request:
  // the total, the counts, and what a score is computed from.
  datatype Ordering<R> = Ordering(candidates: seq<string>, rest: R)

  // A query, before its text is analysed: `filters` brings no terms of its own.
  datatype Query = Query(text: string, filters: Request, recent: bool, limit: int, offset: int)

  // What the searcher is given. Ranking, counting, scoring, the analyzer, the
  // vocabulary and the rewriter are whatever they are. The driver sees what the
  // principal may read, or the tenant's documents, and what the request asks.
  datatype Driver<!R, !S> = Driver(
    rank: (Store, Request, Selection) -> Ordering<R>,
    stats: (Store, seq<string>) -> S,
    before: (Ordering<R>, S, Query, L.Instant) -> (string, string) -> bool,
    words: string -> seq<string>,
    runes: string -> nat,
    frequency: (S, string) -> nat,
    near: (Store, string) -> Option<string>,
    rewrite: (string, map<string, string>) -> string)

  // The order and the repetition of a request's values mean nothing to the
  // driver, and it ranks only what it was shown.
  ghost predicate Truthful<R(!new), S(!new)>(d: Driver<R, S>) {
    && (forall st, r, u, sel :: SameRequest(r, u) ==> d.rank(st, r, sel) == d.rank(st, u, sel))
    && (forall st, a, b :: Elements(a) == Elements(b) ==> d.stats(st, a) == d.stats(st, b))
    && (forall st, r, sel, id :: id in d.rank(st, r, sel).candidates ==> id in st)
  }

  function TenantOf(st: Store, tenant: string): Store {
    map id | id in st && st[id].tenant == tenant :: st[id]
  }

  // ---- The answers of a searcher with no cache.

  function Ranked<R(!new), S(!new)>(d: Driver<R, S>, st: Store, p: Principal, r: Request, sel: Selection): Ordering<R> {
    d.rank(Visible(st, p), r, sel)
  }

  function Counted<R(!new), S(!new)>(d: Driver<R, S>, st: Store, p: Principal, terms: seq<string>): S {
    d.stats(TenantOf(st, p.tenant), terms)
  }

  function Read(st: Store, p: Principal, ids: seq<string>): Store {
    map id | id in ids && id in Visible(st, p) :: st[id]
  }

  // ---- What a query asks for, and what is shown of it.

  const DEFAULT_LIMIT := 20
  const MAX_LIMIT := 200
  const MAX_MATCHES := 100_000
  const CANDIDATE_FLOOR := 500
  const CANDIDATE_FACTOR := 10
  const FACET_POOL := 2 * CANDIDATE_FLOOR
  const CORRECTION_WORDS := 4
  const CORRECTION_SHORTEST := 3

  function Least(a: int, b: int): int {
    if a < b then a else b
  }

  function Limit(q: Query): nat {
    Least(if q.limit <= 0 then DEFAULT_LIMIT else q.limit, MAX_LIMIT)
  }

  function CandidatePool(offset: int, limit: int): int {
    var wanted := (offset + limit) * CANDIDATE_FACTOR;
    Least(if wanted < CANDIDATE_FLOOR then CANDIDATE_FLOOR else wanted, MAX_MATCHES)
  }

  function Asked<R(!new), S(!new)>(d: Driver<R, S>, q: Query): Request {
    q.filters.(terms := d.words(q.text))
  }

  function Chosen(q: Query): Selection {
    Selection(CandidatePool(q.offset, Limit(q)), q.recent, true, FACET_POOL)
  }

  // The page of a sorted list.
  function Cut(all: seq<string>, offset: int, limit: nat): seq<string> {
    if offset < 0 || offset >= |all| then [] else all[offset..Least(offset + limit, |all|)]
  }

  function Window<R(!new), S(!new)>(d: Driver<R, S>, found: Ordering<R>, corpus: S, q: Query,
                                    now: L.Instant): seq<string> {
    Cut(Sort(d.before(found, corpus, q, now), found.candidates), q.offset, Limit(q))
  }

  // The rows of a page, of those documents that were read.
  function Shown(bodies: Store, window: seq<string>): seq<Document> {
    if window == [] then []
    else
      var id := window[|window| - 1];
      Shown(bodies, window[..|window| - 1]) + if id in bodies then [bodies[id]] else []
  }

  // In no document, and of three runes or more.
  predicate Unknown<R(!new), S(!new)>(d: Driver<R, S>, corpus: S, word: string) {
    d.frequency(corpus, word) == 0 && d.runes(word) >= CORRECTION_SHORTEST
  }

  function Swap<R(!new), S(!new)>(d: Driver<R, S>, vocabulary: Store, corpus: S,
                                  words: seq<string>): map<string, string> {
    map w | w in words && Unknown(d, corpus, w) && d.near(vocabulary, w).Some? :: d.near(vocabulary, w).value
  }

  // The text a correction would offer; the query's own text when there is none.
  function Respelled<R(!new), S(!new)>(d: Driver<R, S>, vocabulary: Store, corpus: S, q: Query): string {
    var words := d.words(q.text);
    var swap := Swap(d, vocabulary, corpus, words);
    if q.text == "" || words == [] || |words| > CORRECTION_WORDS || swap == map[] then q.text
        else d.rewrite(q.text, swap)
  }

  // It is offered only to somebody it finds something for.
  function Correction<R(!new), S(!new)>(d: Driver<R, S>, st: Store, p: Principal, q: Query, corpus: S): string {
    var text := Respelled(d, TenantOf(st, p.tenant), corpus, q);
    if text == q.text || Ranked(d, st, p, Asked(d, q.(text := text)), CONFIRM).candidates == [] then "" else text
  }

  const CONFIRM := Selection(1, false, false, 0)

  datatype Page<R, S> = Page(found: Ordering<R>, corpus: S, hits: seq<Document>, correction: string)

  function Answer<R(!new), S(!new)>(d: Driver<R, S>, st: Store, p: Principal, q: Query, now: L.Instant): Page<R, S> {
    var r := Asked(d, q);
    var found, corpus := Ranked(d, st, p, r, Chosen(q)), Counted(d, st, p, r.terms);
    if found.candidates == [] then Page(found, corpus, [], Correction(d, st, p, q, corpus))
    else
      var window := Window(d, found, corpus, q, now);
      Page(found, corpus, Shown(Read(st, p, window), window), "")
  }

  // ---- What every entry of each layer is.

  function Gen(gen: map<string, nat>, tenant: string): nat {
    if tenant in gen then gen[tenant] else 0
  }

  // An ordering is of a generation there has been, and if it is of this one, it
  // is what the driver would say now.
  ghost predicate OrderingOf<R(!new), S(!new)>(d: Driver<R, S>, digest: string -> string, st: Store,
                                               gen: map<string, nat>,
                                   key: string, val: Ordering<R>) {
    forall g: nat, p, r, sel | Bounded(r) && key == ResultKey(digest, g, p, r, sel) ::
      g <= Gen(gen, p.tenant) && (g == Gen(gen, p.tenant) ==> val == Ranked(d, st, p, r, sel))
  }

  ghost predicate CountOf<R(!new), S(!new)>(d: Driver<R, S>, st: Store, gen: map<string, nat>, key: string, val: S) {
    forall g: nat, t, terms | Plain(t) && AllPlain(terms) && key == CorpusKey(g, t, terms) ::
      g <= Gen(gen, t) && (g == Gen(gen, t) ==> val == d.stats(TenantOf(st, t), terms))
  }

  ghost predicate CopyOf(st: Store, key: string, val: Document) {
    key in st && st[key] == val
  }

  // What the driver just said is filed under a key that says so.
  lemma FreshOrdering<R(!new), S(!new)>(d: Driver<R, S>, digest: string -> string, st: Store, gen: map<string, nat>,
                            p: Principal, r: Request, sel: Selection)
    requires Truthful(d) && Digests(digest) && Bounded(r)
    ensures OrderingOf(d, digest, st, gen, ResultKey(digest, Gen(gen, p.tenant), p, r, sel), Ranked(d, st, p, r, sel))
  {
    hide SameRequest, SameView, ResultKey, Bounded, Digests, Visible;
    var key := ResultKey(digest, Gen(gen, p.tenant), p, r, sel);
    forall g: nat, q, u, t | Bounded(u) && key == ResultKey(digest, g, q, u, t)
      ensures g == Gen(gen, q.tenant) && Ranked(d, st, p, r, sel) == Ranked(d, st, q, u, t)
    {
      ResultKeyIff(digest, Gen(gen, p.tenant), p, r, sel, g, q, u, t);
      SameViewSees(st, p, q);
    }
  }

  lemma FreshCount<R(!new), S(!new)>(d: Driver<R, S>, st: Store, gen: map<string, nat>, t: string, terms: seq<string>)
    requires Truthful(d) && Plain(t) && AllPlain(terms)
    ensures CountOf(d, st, gen, CorpusKey(Gen(gen, t), t, terms), d.stats(TenantOf(st, t), terms))
  {
    hide CorpusKey, AllPlain, Plain, Elements;
    var key := CorpusKey(Gen(gen, t), t, terms);
    forall g: nat, u, more | Plain(u) && AllPlain(more) && key == CorpusKey(g, u, more)
      ensures g == Gen(gen, u) && d.stats(TenantOf(st, t), terms) == d.stats(TenantOf(st, u), more)
    {
      CorpusKeyIff(Gen(gen, t), t, terms, g, u, more);
    }
  }

  lemma OrderingNow<R(!new), S(!new)>(d: Driver<R, S>, digest: string -> string, st: Store, gen: map<string, nat>,
                                      p: Principal, r: Request, sel: Selection, val: Ordering<R>)
    requires Bounded(r)
    ensures OrderingOf(d, digest, st, gen, ResultKey(digest, Gen(gen, p.tenant), p, r, sel), val) ==>
              val == Ranked(d, st, p, r, sel)
  {
  }

  lemma CountNow<R(!new), S(!new)>(d: Driver<R, S>, st: Store, gen: map<string, nat>, t: string, terms: seq<string>,
                                   val: S)
    requires Plain(t) && AllPlain(terms) && CountOf(d, st, gen, CorpusKey(Gen(gen, t), t, terms), val)
    ensures val == d.stats(TenantOf(st, t), terms)
  {
  }

  // ---- One tenant's write.

  function Written(st: Store, ids: seq<string>, after: Store): Store {
    map id | id in st.Keys + after.Keys && (id in after || id !in ids) :: if id in after then after[id] else st[id]
  }

  // A change names every document it wrote or removed, all of one tenant.
  ghost predicate OneTenant(st: Store, tenant: string, ids: seq<string>, after: Store) {
    && (forall id :: id in after ==> id in ids && after[id].tenant == tenant)
    && (forall id :: id in ids && id in st ==> st[id].tenant == tenant)
  }

  function Bumped(gen: map<string, nat>, tenant: string): map<string, nat> {
    gen[tenant := Gen(gen, tenant) + 1]
  }

  lemma AllNamed(st: Store, tenant: string, ids: seq<string>, after: Store)
    requires OneTenant(st, tenant, ids, after)
    ensures forall id :: id in after ==> id in ids
  {
  }

  lemma OthersUnmoved(st: Store, tenant: string, ids: seq<string>, after: Store, p: Principal)
    requires OneTenant(st, tenant, ids, after) && p.tenant != tenant
    ensures Visible(Written(st, ids, after), p) == Visible(st, p)
    ensures TenantOf(Written(st, ids, after), p.tenant) == TenantOf(st, p.tenant)
  {
    hide Visible, Written, TenantOf;
    OtherTenant(st, tenant, ids, after, p.tenant);
    VisibleOfTenant(st, p);
    VisibleOfTenant(Written(st, ids, after), p);
  }

  lemma OtherTenant(st: Store, tenant: string, ids: seq<string>, after: Store, other: string)
    requires OneTenant(st, tenant, ids, after) && other != tenant
    ensures TenantOf(Written(st, ids, after), other) == TenantOf(st, other)
  {
    var st' := Written(st, ids, after);
    forall id ensures (id in st' && st'[id].tenant == other) <==> (id in st && st[id].tenant == other) {}
    forall id | id in st && st[id].tenant == other ensures st'[id] == st[id] {}
  }

  // What a principal may read is of their tenant's documents.
  lemma VisibleOfTenant(st: Store, p: Principal)
    ensures Visible(st, p) == Visible(TenantOf(st, p.tenant), p)
  {
    hide Readable;
    var ours := TenantOf(st, p.tenant);
    forall id | id in st ensures Readable(p, st[id]) ==> st[id].tenant == p.tenant { TenantFirst(p, st[id]); }
    forall id ensures id in Visible(st, p) <==> id in Visible(ours, p) {}
  }

  lemma TenantFirst(p: Principal, d: Document)
    ensures Readable(p, d) ==> d.tenant == p.tenant
  {
    hide Allows;
  }

  lemma OrderingOutlives<R(!new), S(!new)>(d: Driver<R, S>, digest: string -> string, st: Store, gen: map<string, nat>,
                               key: string, val: Ordering<R>, tenant: string, ids: seq<string>, after: Store)
    requires OneTenant(st, tenant, ids, after) && OrderingOf(d, digest, st, gen, key, val)
    ensures OrderingOf(d, digest, Written(st, ids, after), Bumped(gen, tenant), key, val)
  {
    hide ResultKey, Visible, Bounded, Written, OneTenant;
    var st', gen' := Written(st, ids, after), Bumped(gen, tenant);
    forall g: nat, p, r, sel | Bounded(r) && key == ResultKey(digest, g, p, r, sel)
      ensures g <= Gen(gen', p.tenant) && (g == Gen(gen', p.tenant) ==> val == Ranked(d, st', p, r, sel))
    {
      if p.tenant != tenant {
        OthersUnmoved(st, tenant, ids, after, p);
      }
    }
  }

  lemma CountOutlives<R(!new), S(!new)>(d: Driver<R, S>, st: Store, gen: map<string, nat>,
                            key: string, val: S, tenant: string, ids: seq<string>, after: Store)
    requires OneTenant(st, tenant, ids, after) && CountOf(d, st, gen, key, val)
    ensures CountOf(d, Written(st, ids, after), Bumped(gen, tenant), key, val)
  {
    hide CorpusKey, AllPlain, Plain, Written, OneTenant, TenantOf;
    var st', gen' := Written(st, ids, after), Bumped(gen, tenant);
    forall g: nat, t, terms | Plain(t) && AllPlain(terms) && key == CorpusKey(g, t, terms)
      ensures g <= Gen(gen', t) && (g == Gen(gen', t) ==> val == d.stats(TenantOf(st', t), terms))
    {
      if t != tenant {
        OthersUnmoved(st, tenant, ids, after, Principal(t, "", KindUser, [], GroupSet(0, []), [], ""));
      }
    }
  }

  // ---- The layers as they stand.

  ghost predicate OrderingsOf<R(!new), S(!new)>(d: Driver<R, S>, digest: string -> string, st: Store,
                                                gen: map<string, nat>, cs: C.ShardLists<Ordering<R>>) {
    forall h | C.Holds(cs, h) :: OrderingOf(d, digest, st, gen, h.key, h.val)
  }

  ghost predicate CountsOf<R(!new), S(!new)>(d: Driver<R, S>, st: Store, gen: map<string, nat>, cs: C.ShardLists<S>) {
    forall h | C.Holds(cs, h) :: CountOf(d, st, gen, h.key, h.val)
  }

  ghost predicate CopiesOf(st: Store, cs: C.ShardLists<Document>) {
    forall h | C.Holds(cs, h) :: CopyOf(st, h.key, h.val)
  }

  lemma NothingHeld<R(!new), S(!new)>(d: Driver<R, S>, digest: string -> string, st: Store, gen: map<string, nat>)
    ensures OrderingsOf(d, digest, st, gen, seq(C.SHARDS, i => []))
    ensures CountsOf(d, st, gen, seq(C.SHARDS, i => []))
    ensures CopiesOf(st, seq(C.SHARDS, i => []))
  {
    hide OrderingOf, CountOf, CopyOf;
  }

  // What the document layer holds it hands to anybody.
  function Served(st: Store, p: Principal, ids: seq<string>, hit: set<string>): Store {
    map id | id in ids && id in st && (id in hit || Readable(p, st[id])) :: st[id]
  }

  // It is the direct read exactly when the principal may read every id that was
  // asked for and held, which is what asking only for what the ordering named
  // guarantees.
  lemma ServedIff(st: Store, p: Principal, ids: seq<string>, hit: set<string>)
    requires forall id :: id in hit ==> id in st
    ensures Served(st, p, ids, hit) == Read(st, p, ids) <==> forall id :: id in ids && id in hit ==> Readable(p, st[id])
  {
    hide Readable;
    if id :| id in ids && id in hit && !Readable(p, st[id]) {
      assert id in Served(st, p, ids, hit) && id !in Read(st, p, ids);
    }
  }

  // A live copy was held.
  ghost predicate Had(cs: C.ShardLists<Document>, id: string, now: L.Instant) {
    exists h :: C.Holds(cs, h) && h.key == id && L.Live(h, now)
  }

  // Every id so far is at hand, as the store has it, or to be asked for.
  ghost predicate Gathered(st: Store, cs: C.ShardLists<Document>, ids: seq<string>, now: L.Instant, have: Store,
                           missing: seq<string>) {
    && (forall id :: id in have ==> id in ids && id in st && have[id] == st[id] && Had(cs, id, now))
    && (forall id :: id in ids ==> id in have || id in missing)
    && (forall id :: id in missing ==> id in ids)
  }

  lemma GatherNone(st: Store, cs: C.ShardLists<Document>, now: L.Instant)
    ensures Gathered(st, cs, [], now, map[], [])
  {
  }

  lemma GatherOne(st: Store, cs: C.ShardLists<Document>, ids: seq<string>, now: L.Instant, have: Store,
                  missing: seq<string>,
                  id: string, d: Option<Document>)
    requires Gathered(st, cs, ids, now, have, missing)
    requires d.Some? ==> id in st && d.value == st[id] && Had(cs, id, now)
    ensures Gathered(st, cs, ids + [id], now, if d.Some? then have[id := d.value] else have,
                     if d.Some? then missing else missing + [id])
  {
    hide Had;
  }

  lemma {:induction false} LookedAllHolds(cs: C.ShardLists<Document>, hash: string -> nat, per: nat, ids: seq<string>,
                                          now: L.Instant)
    requires |cs| == C.SHARDS && C.Sound(cs, hash, per)
    ensures C.Sound(LookedAll(cs, hash, ids, now), hash, per)
    ensures forall h :: C.Holds(LookedAll(cs, hash, ids, now), h) ==> C.Holds(cs, h)
  {
    hide C.Sound, C.Holds, C.Looked;
    if ids != [] {
      LookedAllHolds(cs, hash, per, ids[..|ids| - 1], now);
      C.LookedSound(LookedAll(cs, hash, ids[..|ids| - 1], now), hash, per, ids[|ids| - 1], now);
    }
  }

  lemma HadBefore(cs: C.ShardLists<Document>, hash: string -> nat, per: nat, ids: seq<string>, now: L.Instant,
                  cur: C.ShardLists<Document>, id: string)
    requires C.Sound(cs, hash, per) && IsLooked(cs, hash, ids, now, cur) && Had(cur, id, now)
    ensures Had(cs, id, now)
  {
    hide C.Sound, C.Holds, LookedAll;
    LookedAllHolds(cs, hash, per, ids, now);
  }

  ghost predicate IsLooked(cs: C.ShardLists<Document>, hash: string -> nat, ids: seq<string>, now: L.Instant,
                           cur: C.ShardLists<Document>) {
    |cs| == C.SHARDS && cur == LookedAll(cs, hash, ids, now)
  }

  lemma LookedNone(cs: C.ShardLists<Document>, hash: string -> nat, now: L.Instant)
    requires |cs| == C.SHARDS
    ensures IsLooked(cs, hash, [], now, cs)
  {
  }

  lemma LookedOne(cs: C.ShardLists<Document>, hash: string -> nat, ids: seq<string>, id: string, now: L.Instant,
                  cur: C.ShardLists<Document>, next: C.ShardLists<Document>)
    requires IsLooked(cs, hash, ids, now, cur) && |cur| == C.SHARDS && next == C.Looked(cur, hash, id, now)
    ensures IsLooked(cs, hash, ids + [id], now, next)
  {
    assert (ids + [id])[..|ids|] == ids;
  }

  ghost predicate IsKept(cs: C.ShardLists<Document>, hash: string -> nat, per: nat, order: seq<string>, st: Store,
                         cur: C.ShardLists<Document>) {
    |cs| == C.SHARDS && (forall id :: id in order ==> id in st) && cur == KeptAll(cs, hash, per, order, st)
  }

  lemma DistinctOne(order: seq<string>, id: string)
    ensures Distinct<string>([])
    ensures Distinct(order) && id !in order ==> Distinct(order + [id])
  {
  }

  lemma KeptNone(cs: C.ShardLists<Document>, hash: string -> nat, per: nat, st: Store)
    requires |cs| == C.SHARDS
    ensures IsKept(cs, hash, per, [], st, cs)
  {
  }

  lemma KeptOne(cs: C.ShardLists<Document>, hash: string -> nat, per: nat, order: seq<string>, id: string, st: Store,
                cur: C.ShardLists<Document>, next: C.ShardLists<Document>)
    requires IsKept(cs, hash, per, order, st, cur) && |cur| == C.SHARDS && id in st
    requires next == C.Kept(cur, hash, per, L.Held(id, st[id], None))
    ensures IsKept(cs, hash, per, order + [id], st, next)
  {
    assert (order + [id])[..|order|] == order;
  }

  // What is held and what is read for the rest are what is served.
  lemma ServedFrom(st: Store, p: Principal, ids: seq<string>, have: Store, missing: seq<string>)
    requires forall id :: id in have ==> id in ids && id in st && have[id] == st[id]
    requires forall id :: id in ids ==> id in have || id in missing
    requires forall id :: id in missing ==> id in ids
    ensures have + Read(st, p, missing) == Served(st, p, ids, have.Keys)
    ensures forall id :: id in Read(st, p, missing) ==> id in ids && id in st && Read(st, p, missing)[id] == st[id]
    ensures missing == [] ==> Read(st, p, missing) == map[] && have == Served(st, p, ids, have.Keys)
  {
    hide Readable;
  }

  lemma GatheredServes(st: Store, p: Principal, cs: C.ShardLists<Document>, ids: seq<string>, now: L.Instant,
                       have: Store, missing: seq<string>)
    requires Gathered(st, cs, ids, now, have, missing)
    ensures have + Read(st, p, missing) == Served(st, p, ids, have.Keys)
    ensures forall id :: id in Read(st, p, missing) ==> id in ids && id in st && Read(st, p, missing)[id] == st[id]
    ensures missing == [] ==> have == Served(st, p, ids, have.Keys)
    ensures forall id :: id in have ==> id in ids && id in st && Had(cs, id, now)
    ensures (forall id :: id in ids ==> id in Visible(st, p)) ==> Served(st, p, ids, have.Keys) == Read(st, p, ids)
  {
    hide Had, Readable;
    ServedFrom(st, p, ids, have, missing);
    ServedIff(st, p, ids, have.Keys);
  }

  lemma CopyOutlives(st: Store, tenant: string, ids: seq<string>, after: Store, key: string, val: Document)
    requires OneTenant(st, tenant, ids, after) && CopyOf(st, key, val) && key !in ids
    ensures CopyOf(Written(st, ids, after), key, val)
  {
  }

  // The bounds the key tells apart, and names with no bar in them.
  ghost predicate Asks<R(!new), S(!new)>(d: Driver<R, S>, p: Principal, q: Query) {
    Bounded(q.filters) && Plain(p.tenant) && AllPlain(d.words(q.text))
  }

  lemma AsksIs<R(!new), S(!new)>(d: Driver<R, S>, p: Principal, q: Query)
    requires Asks(d, p, q)
    ensures Bounded(Asked(d, q)) && Bounded(q.filters) && Plain(p.tenant) && AllPlain(Asked(d, q).terms)
    ensures Asked(d, q).terms == d.words(q.text)
  {
    hide Plain, AllPlain;
  }

  lemma AnswerIs<R(!new), S(!new)>(d: Driver<R, S>, st: Store, p: Principal, q: Query, now: L.Instant)
    ensures var page, found := Answer(d, st, p, q, now), Ranked(d, st, p, Asked(d, q), Chosen(q));
            var corpus := Counted(d, st, p, Asked(d, q).terms);
            var window := Window(d, found, corpus, q, now);
            && page.found == found && page.corpus == corpus
            && page.hits == (if found.candidates == [] then [] else Shown(Read(st, p, window), window))
            && page.correction == (if found.candidates == [] then Correction(d, st, p, q, corpus) else "")
  {
  }

  // A page is cut from what the principal may read, so nothing on it is dropped.
  lemma WindowVisible<R(!new), S(!new)>(d: Driver<R, S>, st: Store, p: Principal, q: Query, now: L.Instant)
    requires Truthful(d)
    ensures var found := Ranked(d, st, p, Asked(d, q), Chosen(q));
            var corpus := Counted(d, st, p, d.words(q.text));
            var window := Window(d, found, corpus, q, now);
            && |window| <= Limit(q) && (forall id :: id in window ==> id in Visible(st, p))
            && AllThere(st, window, Shown(Read(st, p, window), window))
  {
    hide *;
    var found := Ranked(d, st, p, Asked(d, q), Chosen(q));
    var corpus := Counted(d, st, p, d.words(q.text));
    RankedVisible(d, st, p, Asked(d, q), Chosen(q));
    WindowOf(d, found, corpus, q, now);
    var window := Window(d, found, corpus, q, now);
    ReadAll(st, p, window);
    ShownAll(st, Read(st, p, window), window);
  }

  lemma RankedVisible<R(!new), S(!new)>(d: Driver<R, S>, st: Store, p: Principal, r: Request, sel: Selection)
    requires Truthful(d)
    ensures forall id :: id in Ranked(d, st, p, r, sel).candidates ==> id in Visible(st, p)
  {
    hide Visible, SameRequest;
  }

  lemma WindowOf<R(!new), S(!new)>(d: Driver<R, S>, found: Ordering<R>, corpus: S, q: Query, now: L.Instant)
    ensures forall id :: id in Window(d, found, corpus, q, now) ==> id in found.candidates
    ensures |Window(d, found, corpus, q, now)| <= Limit(q)
  {
    hide Limit, Sort;
    SortMembers(d.before(found, corpus, q, now), found.candidates);
  }

  lemma ReadAll(st: Store, p: Principal, ids: seq<string>)
    requires forall id :: id in ids ==> id in Visible(st, p)
    ensures forall id :: id in ids ==> id in st && id in Read(st, p, ids) && Read(st, p, ids)[id] == st[id]
  {
    hide Readable;
  }

  // A row for every id, with the store's own document.
  ghost predicate AllThere(st: Store, ids: seq<string>, rows: seq<Document>) {
    |rows| == |ids| && forall i :: 0 <= i < |ids| ==> ids[i] in st && rows[i] == st[ids[i]]
  }

  lemma {:induction false} ShownAll(st: Store, bodies: Store, window: seq<string>)
    requires forall id :: id in window ==> id in st && id in bodies && bodies[id] == st[id]
    ensures AllThere(st, window, Shown(bodies, window))
  {
    if window != [] {
      ShownAll(st, bodies, window[..|window| - 1]);
    }
  }

  // With scores that tell documents apart, the page shows exactly the candidates
  // that as many come before as were skipped, and fewer than fill the page.
  lemma WindowIff(less: (string, string) -> bool, candidates: seq<string>, offset: nat, limit: nat, id: string)
    requires StrictTotal(less) && Distinct(candidates)
    ensures var rank := |Before(less, Elements(candidates), id)|;
            id in Cut(Sort(less, candidates), offset, limit) <==> id in candidates && offset <= rank < offset + limit
    ensures Strict(less, Cut(Sort(less, candidates), offset, limit))
  {
    hide Before, StrictTotal, Sort, Cut, Strict, Distinct;
    var all, sorted := Elements(candidates), Sort(less, candidates);
    SortLists(less, candidates, all);
    TopIff(less, sorted, all, offset, id);
    TopIff(less, sorted, all, offset + limit, id);
    CutApart(less, sorted, offset, limit, id);
  }

  lemma CutApart(less: (string, string) -> bool, s: seq<string>, offset: nat, limit: nat, id: string)
    requires StrictTotal(less) && Strict(less, s)
    ensures id in Cut(s, offset, limit) <==>
              && id in (if offset + limit < |s| then s[..offset + limit] else s)
              && id !in (if offset < |s| then s[..offset] else s)
    ensures Strict(less, Cut(s, offset, limit))
  {
    if offset < |s| {
      StrictDistinct(less, s);
      var first, upto := s[..offset], if offset + limit < |s| then s[..offset + limit] else s;
      assert upto == first + Cut(s, offset, limit);
      forall i, j | 0 <= i < |first| && 0 <= j < |Cut(s, offset, limit)| ensures first[i] != Cut(s, offset, limit)[j] {
        assert first[i] == s[i] && Cut(s, offset, limit)[j] == s[offset + j];
      }
    }
  }

  lemma StrictDistinct(less: (string, string) -> bool, s: seq<string>)
    requires StrictTotal(less) && Strict(less, s)
    ensures Distinct(s)
  {
    forall i, j | 0 <= i < j < |s| ensures s[i] != s[j] {
      assert less(s[i], s[j]);
    }
  }

  // ---- What a page is, without the functions it is computed by.

  // The documents the rule lets this principal read.
  ghost predicate Grants(p: Principal, d: Document) {
    d.id != "" && d.tenant != "" && d.tenant == p.tenant && Allows(d.permissions, Some(p))
  }

  ghost predicate Lets(st: Store, p: Principal, granted: Store) {
    && (forall id :: id in granted <==> id in st && Grants(p, st[id]))
    && (forall id :: id in granted ==> granted[id] == st[id])
  }

  ghost predicate Owns(st: Store, tenant: string, ours: Store) {
    && (forall id :: id in ours <==> id in st && st[id].tenant == tenant)
    && (forall id :: id in ours ==> ours[id] == st[id])
  }

  // Twenty rows unless asked for up to two hundred.
  ghost predicate Rows(q: Query, limit: nat) {
    if q.limit <= 0 then limit == 20 else if q.limit <= 200 then limit == q.limit else limit == 200
  }

  // Ten candidates to a row, from the first page to the last row wanted, but no
  // fewer than five hundred and no more than a hundred thousand.
  ghost predicate Pool(q: Query, limit: nat, pool: int) {
    && 500 <= pool <= 100_000
    && (pool == 10 * (q.offset + limit) || (pool == 500 && 10 * (q.offset + limit) <= 500)
        || (pool == 100_000 && 10 * (q.offset + limit) >= 100_000))
  }

  // The candidates in their order from `offset` on, as many as fit the page.
  ghost predicate RowsAre(granted: Store, sorted: seq<string>, offset: int, limit: nat, hits: seq<Document>) {
    && |hits| <= limit
    && (offset < 0 || offset >= |sorted| ==> hits == [])
    && (0 <= offset < |sorted| ==>
          && offset + |hits| <= |sorted| && (|hits| == limit || offset + |hits| == |sorted|)
          && forall i :: 0 <= i < |hits| ==> sorted[offset + i] in granted && hits[i] == granted[sorted[offset + i]])
  }

  // A short query respelled in each word that no document has, which then finds
  // this principal something.
  ghost predicate Offers<R(!new), S(!new)>(d: Driver<R, S>, granted: Store, ours: Store, corpus: S, q: Query,
                                           text: string) {
    && q.text != "" && text != q.text && 1 <= |d.words(q.text)| <= 4
    && d.rank(granted, q.filters.(terms := d.words(text)), Selection(1, false, false, 0)).candidates != []
    && exists swap: map<string, string> ::
         swap != map[] && text == d.rewrite(q.text, swap) && Respells(d, ours, corpus, d.words(q.text), swap)
  }

  ghost predicate Lawful<R(!new), S(!new)>(d: Driver<R, S>, st: Store, p: Principal, q: Query, now: L.Instant,
                                           page: Page<R, S>) {
    && (forall i :: 0 <= i < |page.hits| ==> Grants(p, page.hits[i]))
    && forall granted, ours, limit: nat, pool: int |
         Lets(st, p, granted) && Owns(st, p.tenant, ours) && Rows(q, limit) && Pool(q, limit, pool) ::
         Told(d, granted, ours, limit, pool, q, now, page)
  }

  ghost predicate Told<R(!new), S(!new)>(d: Driver<R, S>, granted: Store, ours: Store, limit: nat, pool: int, q: Query,
                                         now: L.Instant, page: Page<R, S>) {
    && page.found == d.rank(granted, q.filters.(terms := d.words(q.text)), Selection(pool, q.recent, true, 1000))
    && page.corpus == d.stats(ours, d.words(q.text))
    && RowsAre(granted, Sort(d.before(page.found, page.corpus, q, now), page.found.candidates), q.offset, limit,
               page.hits)
    && (forall text :: text != "" ==>
          (page.correction == text <==>
             page.found.candidates == [] && Offers(d, granted, ours, page.corpus, q, text)))
  }

  lemma SeesWhatIsLet(st: Store, p: Principal, granted: Store, ours: Store)
    requires Lets(st, p, granted) && Owns(st, p.tenant, ours)
    ensures granted == Visible(st, p) && ours == TenantOf(st, p.tenant)
  {
    hide Grants, Readable;
    forall id | id in st ensures Grants(p, st[id]) <==> Readable(p, st[id]) {
      GrantsIff(p, st[id]);
    }
  }

  // The driver's own rule leaves out documents nobody may be shown; the permission
  // rule already denies those.
  lemma GrantsIff(p: Principal, d: Document)
    ensures Grants(p, d) <==> Readable(p, d)
  {
    hide Allows;
    AllowsIff(d.permissions, p);
  }

  lemma LetsAndOwns(st: Store, p: Principal)
    ensures Lets(st, p, Visible(st, p)) && Owns(st, p.tenant, TenantOf(st, p.tenant))
  {
    hide Grants, Readable;
    forall id | id in st ensures Grants(p, st[id]) <==> Readable(p, st[id]) {
      GrantsIff(p, st[id]);
    }
  }

  lemma NumbersAre(q: Query, limit: nat, pool: int)
    requires Rows(q, limit) && Pool(q, limit, pool)
    ensures limit == Limit(q) && pool == CandidatePool(q.offset, limit)
  {
  }

  // The words respelled are fixed by what is said of them.
  ghost predicate Respells<R(!new), S(!new)>(d: Driver<R, S>, ours: Store, corpus: S, words: seq<string>,
                                             swap: map<string, string>) {
    && (forall w :: w in swap <==>
          w in words && d.frequency(corpus, w) == 0 && d.runes(w) >= 3 && d.near(ours, w).Some?)
    && (forall w :: w in swap ==> d.near(ours, w) == Some(swap[w]))
  }

  lemma RespellsIff<R(!new), S(!new)>(d: Driver<R, S>, ours: Store, corpus: S, words: seq<string>,
                                      swap: map<string, string>)
    ensures Respells(d, ours, corpus, words, swap) <==> swap == Swap(d, ours, corpus, words)
  {
    var s := Swap(d, ours, corpus, words);
    assert Respells(d, ours, corpus, words, s);
    if Respells(d, ours, corpus, words, swap) {
      assert forall w :: w in s <==> w in swap;
    }
  }

  lemma OfferIs<R(!new), S(!new)>(d: Driver<R, S>, st: Store, p: Principal, q: Query, corpus: S, text: string)
    requires text != ""
    ensures Correction(d, st, p, q, corpus) == text <==>
            Offers(d, Visible(st, p), TenantOf(st, p.tenant), corpus, q, text)
  {
    hide Visible, TenantOf, Swap, Respells;
    var ours := TenantOf(st, p.tenant);
    var swap := Swap(d, ours, corpus, d.words(q.text));
    RespellsIff(d, ours, corpus, d.words(q.text), swap);
    if Offers(d, Visible(st, p), ours, corpus, q, text) {
      var s: map<string, string> :| s != map[] && text == d.rewrite(q.text, s)
          && Respells(d, ours, corpus, d.words(q.text), s);
      RespellsIff(d, ours, corpus, d.words(q.text), s);
    }
  }

  lemma RowsShown(granted: Store, st: Store, sorted: seq<string>, offset: int, limit: nat, hits: seq<Document>)
    requires AllThere(st, Cut(sorted, offset, limit), hits)
    requires forall id :: id in Cut(sorted, offset, limit) ==> id in granted && id in st && granted[id] == st[id]
    ensures RowsAre(granted, sorted, offset, limit, hits)
  {
    var window := Cut(sorted, offset, limit);
    if 0 <= offset < |sorted| {
      forall i | 0 <= i < |hits| ensures sorted[offset + i] in granted && hits[i] == granted[sorted[offset + i]] {
        assert window[i] == sorted[offset + i];
      }
    }
  }

  // What the functions come to is what is said of it.
  lemma AnswerIsLawful<R(!new), S(!new)>(d: Driver<R, S>, st: Store, p: Principal, q: Query, now: L.Instant)
    requires Truthful(d)
    ensures Lawful(d, st, p, q, now, Answer(d, st, p, q, now))
  {
    hide Visible, TenantOf, Truthful, Limit, CandidatePool, Window, Correction, Offers, RowsAre, Lets, Owns, Rows,
      Pool, Sort, AllThere, Read, Shown;
    var page := Answer(d, st, p, q, now);
    AnswerRows(d, st, p, q, now);
    forall granted, ours, limit: nat, pool: int |
      Lets(st, p, granted) && Owns(st, p.tenant, ours) && Rows(q, limit) && Pool(q, limit, pool)
      ensures Told(d, granted, ours, limit, pool, q, now, page)
    {
      SeesWhatIsLet(st, p, granted, ours);
      NumbersAre(q, limit, pool);
      forall text | text != ""
        ensures page.correction == text <==>
                page.found.candidates == [] && Offers(d, granted, ours, page.corpus, q, text)
      {
        OfferIs(d, st, p, q, page.corpus, text);
      }
    }
  }

  lemma AnswerRows<R(!new), S(!new)>(d: Driver<R, S>, st: Store, p: Principal, q: Query, now: L.Instant)
    requires Truthful(d)
    ensures var page := Answer(d, st, p, q, now);
            && RowsAre(Visible(st, p), Sort(d.before(page.found, page.corpus, q, now), page.found.candidates), q.offset,
                       Limit(q), page.hits)
            && forall i :: 0 <= i < |page.hits| ==> Grants(p, page.hits[i])
  {
    hide Visible, TenantOf, Truthful, Limit, CandidatePool, Correction, Sort, AllThere, Read, Shown, RowsAre, Grants;
    var page := Answer(d, st, p, q, now);
    var sorted := Sort(d.before(page.found, page.corpus, q, now), page.found.candidates);
    SortMembers(d.before(page.found, page.corpus, q, now), page.found.candidates);
    WindowVisible(d, st, p, q, now);
    VisibleIsGranted(st, p);
    if page.found.candidates == [] {
      EmptyRows(Visible(st, p), sorted, q.offset, Limit(q));
    } else {
      RowsShown(Visible(st, p), st, sorted, q.offset, Limit(q), page.hits);
      RowsGranted(st, p, Cut(sorted, q.offset, Limit(q)), page.hits);
    }
  }

  lemma EmptyRows(granted: Store, sorted: seq<string>, offset: int, limit: nat)
    requires sorted == []
    ensures RowsAre(granted, sorted, offset, limit, [])
  {
  }

  lemma VisibleIsGranted(st: Store, p: Principal)
    ensures forall id :: id in Visible(st, p) ==> id in st && Visible(st, p)[id] == st[id] && Grants(p, st[id])
  {
    hide Grants, Readable;
    forall id | id in st ensures Grants(p, st[id]) <==> Readable(p, st[id]) {
      GrantsIff(p, st[id]);
    }
  }

  lemma RowsGranted(st: Store, p: Principal, window: seq<string>, hits: seq<Document>)
    requires AllThere(st, window, hits) && forall id :: id in window ==> id in st && Grants(p, st[id])
    ensures forall i :: 0 <= i < |hits| ==> Grants(p, hits[i])
  {
    hide Grants;
    forall i | 0 <= i < |hits| ensures Grants(p, hits[i]) {
      assert window[i] in window;
    }
  }

  // The document layer after ids were looked up one after the other.
  function LookedAll(cs: C.ShardLists<Document>, hash: string -> nat, ids: seq<string>,
                     now: L.Instant): (r: C.ShardLists<Document>)
    requires |cs| == C.SHARDS
    ensures |r| == C.SHARDS
  {
    if ids == [] then cs else C.Looked(LookedAll(cs, hash, ids[..|ids| - 1], now), hash, ids[|ids| - 1], now)
  }

  // And after documents were put, in some order.
  function KeptAll(cs: C.ShardLists<Document>, hash: string -> nat, per: nat, order: seq<string>,
                   fetched: Store): (r: C.ShardLists<Document>)
    requires |cs| == C.SHARDS && forall id :: id in order ==> id in fetched
    ensures |r| == C.SHARDS
  {
    if order == [] then cs
    else
      var id := order[|order| - 1];
      C.Kept(KeptAll(cs, hash, per, order[..|order| - 1], fetched), hash, per, L.Held(id, fetched[id], None))
  }

  // The loop of Cache.document, over the document layer alone.
  method Gather(docs: C.Cache<Document>, ids: seq<string>, now: L.Instant, ghost st: Store)
      returns (have: Store, missing: seq<string>)
    requires docs.Valid() && docs.ttl == C.FOREVER && CopiesOf(st, docs.lists)
    modifies docs.Repr
    ensures docs.Valid() && fresh(docs.Repr - old(docs.Repr)) && CopiesOf(st, docs.lists)
    ensures Gathered(st, old(docs.lists), ids, now, have, missing)
    ensures IsLooked(old(docs.lists), docs.hash, ids, now, docs.lists)
  {
    hide Gathered, C.Sound, C.Looked, Had, IsLooked, CopiesOf, C.Cache.Parts;
    ghost var cs := docs.lists;
    have, missing := map[], [];
    assert ids[..0] == [];
    GatherNone(st, cs, now);
    LookedNone(cs, docs.hash, now);
    for i := 0 to |ids|
      invariant docs.Valid() && fresh(docs.Repr - old(docs.Repr)) && CopiesOf(st, docs.lists)
      invariant IsLooked(cs, docs.hash, ids[..i], now, docs.lists)
      invariant Gathered(st, cs, ids[..i], now, have, missing)
    {
      ghost var cur := docs.lists;
      var d := docs.Get(ids[i], now);
      Copied(st, cur, docs.hash, docs.per, ids[i], now);
      LookedOne(cs, docs.hash, ids[..i], ids[i], now, cur, docs.lists);
      if d.Some? {
        HadBefore(cs, docs.hash, docs.per, ids[..i], now, cur, ids[i]);
      }
      GatherOne(st, cs, ids[..i], now, have, missing, ids[i], d);
      assert ids[..i + 1] == ids[..i] + [ids[i]];
      if d.Some? {
        have := have[ids[i] := d.value];
      } else {
        missing := missing + [ids[i]];
      }
    }
    assert ids[..|ids|] == ids;
  }

  // A hit in a layer of copies is the store's own document, and was held.
  lemma Copied(st: Store, cs: C.ShardLists<Document>, hash: string -> nat, per: nat, id: string, now: L.Instant)
    requires |cs| == C.SHARDS && C.Sound(cs, hash, per) && CopiesOf(st, cs)
    ensures CopiesOf(st, C.Looked(cs, hash, id, now))
    ensures var d := C.Hit(cs, hash, id, now); d.Some? ==> id in st && d.value == st[id] && Had(cs, id, now)
  {
    hide C.Looked, C.Hit, C.Holds, C.Sound, L.Live;
    C.LookedSound(cs, hash, per, id, now);
    var d := C.Hit(cs, hash, id, now);
    if d.Some? {
      C.HitIff(cs, hash, per, id, now, d.value);
    }
  }

  // The loop of Cache.putDocuments, in whatever order the map is walked.
  method Keep(docs: C.Cache<Document>, fetched: Store, now: L.Instant, ghost st: Store)
      returns (ghost order: seq<string>)
    requires docs.Valid() && docs.ttl == C.FOREVER && CopiesOf(st, docs.lists)
    requires forall id :: id in fetched ==> id in st && fetched[id] == st[id]
    modifies docs.Repr
    ensures docs.Valid() && fresh(docs.Repr - old(docs.Repr)) && CopiesOf(st, docs.lists)
    ensures Distinct(order) && forall id :: id in order <==> id in fetched
    ensures IsKept(old(docs.lists), docs.hash, docs.per, order, st, docs.lists)
  {
    hide C.Sound, C.Kept, IsKept, Distinct, CopiesOf, C.Cache.Parts;
    ghost var cs := docs.lists;
    var rest := fetched.Keys;
    order := [];
    KeptNone(cs, docs.hash, docs.per, st);
    DistinctOne([], "");
    while rest != {}
      invariant docs.Valid() && fresh(docs.Repr - old(docs.Repr)) && CopiesOf(st, docs.lists)
      invariant rest <= fetched.Keys && Distinct(order) && forall id :: id in order <==> id in fetched.Keys - rest
      invariant IsKept(cs, docs.hash, docs.per, order, st, docs.lists)
      decreases rest
    {
      var id :| id in rest;
      ghost var cur := docs.lists;
      docs.Put(id, fetched[id], now);
      StillCopies(st, cur, docs.hash, docs.per, L.Held(id, fetched[id], None));
      KeptOne(cs, docs.hash, docs.per, order, id, st, cur, docs.lists);
      DistinctOne(order, id);
      rest, order := rest - {id}, order + [id];
    }
  }

  lemma StillCopies(st: Store, cs: C.ShardLists<Document>, hash: string -> nat, per: nat, h: L.Held<Document>)
    requires |cs| == C.SHARDS && C.Sound(cs, hash, per) && 1 <= per && CopiesOf(st, cs) && CopyOf(st, h.key, h.val)
    ensures CopiesOf(st, C.Kept(cs, hash, per, h))
  {
    hide C.Kept, C.Holds, C.Sound;
    C.KeptSound(cs, hash, per, h);
  }

  // ---- A run.

  datatype Op =
    | Ask(p: Principal, q: Query, down: bool, now: L.Instant, later: L.Instant)
    | Change(tenant: string, ids: seq<string>, after: Store)
    | Sweep

  function Next(st: Store, op: Op): Store {
    if op.Change? then Written(st, op.ids, op.after) else st
  }

  function StoreAfter(st: Store, ops: seq<Op>): Store {
    if ops == [] then st else Next(StoreAfter(st, ops[..|ops| - 1]), ops[|ops| - 1])
  }

  ghost predicate Allowed<R(!new), S(!new)>(d: Driver<R, S>, st: Store, op: Op) {
    match op
    case Ask(p, q, _, _, _) => Asks(d, p, q)
    case Change(tenant, ids, after) => OneTenant(st, tenant, ids, after)
    case Sweep => true
  }

  ghost predicate Legal<R(!new), S(!new)>(d: Driver<R, S>, st: Store, ops: seq<Op>) {
    forall n :: 0 <= n < |ops| ==> Allowed(d, StoreAfter(st, ops[..n]), ops[n])
  }

  lemma LegalAt<R(!new), S(!new)>(d: Driver<R, S>, st: Store, ops: seq<Op>, n: nat)
    requires Legal(d, st, ops) && n < |ops|
    ensures Allowed(d, StoreAfter(st, ops[..n]), ops[n])
  {
    hide Allowed, StoreAfter;
  }

  lemma AfterNone(st: Store, ops: seq<Op>)
    ensures StoreAfter(st, ops[..0]) == st
  {
  }

  lemma AfterNext(st: Store, ops: seq<Op>, n: nat)
    requires n < |ops|
    ensures StoreAfter(st, ops[..n + 1]) == Next(StoreAfter(st, ops[..n]), ops[n])
  {
    assert ops[..n + 1][..n] == ops[..n];
  }

  // An answer is the store's own, and there is none only where the driver failed.
  ghost predicate Agrees<R(!new), S(!new)>(d: Driver<R, S>, st: Store, op: Op, answer: Option<C.Outcome<Page<R, S>>>) {
    op.Ask? ==>
      && answer.Some?
      && (answer.value.Good? ==>
            answer.value.val == Answer(d, st, op.p, op.q, op.now)
                && Lawful(d, st, op.p, op.q, op.now, answer.value.val))
      && (answer.value.Bad? ==> op.down)
  }

  class Searcher<R(!new), S(!new)> {
    const driver: Driver<R, S>
    const digest: string -> string
    const results: C.Cache<Ordering<R>>
    const corpus: C.Cache<S>
    const docs: C.Cache<Document>
    var store: Store
    var gen: map<string, nat>

    ghost function Repr(): set<object>
      reads this, results, corpus, docs
    {
      {this as object} + results.Repr + corpus.Repr + docs.Repr
    }

    // Three caches that share nothing, and nothing in them that is not so.
    ghost predicate Valid()
      reads this, results, corpus, docs, Repr()
    {
      && Truthful(driver) && Digests(digest)
      && this !in results.Repr + corpus.Repr + docs.Repr
      && results.Repr !! corpus.Repr && results.Repr !! docs.Repr && corpus.Repr !! docs.Repr
      && results.Valid() && corpus.Valid() && docs.Valid()
      && corpus.ttl == C.FOREVER && docs.ttl == C.FOREVER
      && OrderingsOf(driver, digest, store, gen, results.lists)
      && CountsOf(driver, store, gen, corpus.lists)
      && CopiesOf(store, docs.lists)
    }

    constructor (driver: Driver<R, S>, digest: string -> string, hash: string -> nat, store: Store,
                 resultExpiry: int, capacities: (int, int, int))
      requires Truthful(driver) && Digests(digest)
      ensures Valid() && fresh(Repr())
      ensures this.driver == driver && this.digest == digest && this.store == store
    {
      hide Truthful, Digests, C.Sound, C.Cache.Parts, OrderingsOf, CountsOf, CopiesOf;
      NothingHeld(driver, digest, store, map[]);
      this.driver, this.digest, this.store, gen := driver, digest, store, map[];
      results := new C.Cache<Ordering<R>>(hash, capacities.0, resultExpiry);
      corpus := new C.Cache<S>(hash, capacities.1, C.FOREVER);
      docs := new C.Cache<Document>(hash, capacities.2, C.FOREVER);
    }

    // Searcher.collect over Cache.ranked. `down` is the driver failing this call.
    method Collect(p: Principal, r: Request, sel: Selection, down: bool, now: L.Instant, later: L.Instant)
      returns (found: C.Outcome<Ordering<R>>, called: bool)
      requires Valid() && Bounded(r)
      modifies Repr()
      ensures Valid() && fresh(Repr() - old(Repr())) && store == old(store) && gen == old(gen)
      ensures found.Good? ==> found.val == Ranked(driver, store, p, r, sel)
      ensures found.Bad? <==> called && down
      ensures var key := ResultKey(digest, Gen(gen, p.tenant), p, r, sel);
              && (called <==> C.Found(old(results.lists), results.hash, results.ttl, key, now).None?)
              && (var call := if down then C.Bad("down") else C.Good(Ranked(driver, store, p, r, sel));
                  results.lists == C.AfterDo(old(results.lists), results.hash, results.per, results.ttl, key, call,
                                             now, later))
      ensures corpus.lists == old(corpus.lists) && docs.lists == old(docs.lists)
    {
      hide Truthful, Digests, OrderingOf, C.AfterDo, C.Found, C.Holds, C.Sound, C.Cache.Parts, CountsOf, CopiesOf,
        Ranked, ResultKey, Bounded;
      FreshOrdering(driver, digest, store, gen, p, r, sel);
      var key := WriteResultKey(digest, Gen(gen, p.tenant), p, r, sel);
      var call := if down then C.Bad("down") else C.Good(Ranked(driver, store, p, r, sel));
      C.DoKeeps(results.lists, results.hash, results.per, results.ttl, key, call, now, later);
      found, called := results.Do(key, call, now, later);
      if found.Good? {
        OrderingNow(driver, digest, store, gen, p, r, sel, found.val);
      }
    }

    // Searcher.statistics over Cache.corpusStats.
    method Statistics(p: Principal, terms: seq<string>, down: bool, now: L.Instant, later: L.Instant)
      returns (counted: C.Outcome<S>, called: bool)
      requires Valid() && Plain(p.tenant) && AllPlain(terms)
      modifies Repr()
      ensures Valid() && fresh(Repr() - old(Repr())) && store == old(store) && gen == old(gen)
      ensures counted.Good? ==> counted.val == Counted(driver, store, p, terms)
      ensures counted.Bad? <==> called && down
      ensures var key := CorpusKey(Gen(gen, p.tenant), p.tenant, terms);
              && (called <==> C.Found(old(corpus.lists), corpus.hash, corpus.ttl, key, now).None?)
              && (var call := if down then C.Bad("down") else C.Good(Counted(driver, store, p, terms));
                  corpus.lists == C.AfterDo(old(corpus.lists), corpus.hash, corpus.per, corpus.ttl, key, call, now,
                                            later))
      ensures results.lists == old(results.lists) && docs.lists == old(docs.lists)
    {
      hide Truthful, Digests, CountOf, C.AfterDo, C.Found, C.Holds, C.Sound, C.Cache.Parts, OrderingsOf, CopiesOf,
        TenantOf, CorpusKey, Plain, AllPlain;
      FreshCount(driver, store, gen, p.tenant, terms);
      var key := WriteCorpusKey(Gen(gen, p.tenant), p.tenant, terms);
      var call := if down then C.Bad("down") else C.Good(Counted(driver, store, p, terms));
      C.DoKeeps(corpus.lists, corpus.hash, corpus.per, corpus.ttl, key, call, now, later);
      counted, called := corpus.Do(key, call, now, later);
      if counted.Good? {
        CountNow(driver, store, gen, p.tenant, terms, counted.val);
      }
    }

    // Cache.document: what is held, and what is left to ask the driver for.
    method Document(ids: seq<string>, now: L.Instant) returns (have: Store, missing: seq<string>)
      requires Valid()
      modifies Repr()
      ensures Valid() && fresh(Repr() - old(Repr())) && store == old(store) && gen == old(gen)
      ensures Gathered(store, old(docs.lists), ids, now, have, missing)
      ensures IsLooked(old(docs.lists), docs.hash, ids, now, docs.lists)
    {
      hide Truthful, Digests, C.Sound, C.Cache.Parts, OrderingsOf, CountsOf, CopiesOf, Gathered, IsLooked;
      have, missing := Gather(docs, ids, now, store);
    }

    lemma Shaped()
      requires Valid()
      ensures |docs.lists| == C.SHARDS && C.Sound(docs.lists, docs.hash, docs.per)
    {
    }

    // Cache.putDocuments.
    method PutDocuments(fetched: Store, now: L.Instant) returns (ghost order: seq<string>)
      requires Valid() && forall id :: id in fetched ==> id in store && fetched[id] == store[id]
      modifies Repr()
      ensures Valid() && fresh(Repr() - old(Repr())) && store == old(store) && gen == old(gen)
      ensures Distinct(order) && forall id :: id in order <==> id in fetched
      ensures IsKept(old(docs.lists), docs.hash, docs.per, order, store, docs.lists)
    {
      hide Truthful, Digests, C.Sound, C.Cache.Parts, OrderingsOf, CountsOf, CopiesOf, IsKept, Distinct;
      order := Keep(docs, fetched, now, store);
    }

    // Searcher.fetch. `hit` is what the document layer answered for.
    method Fetch(p: Principal, ids: seq<string>, down: bool, now: L.Instant, later: L.Instant)
      returns (bodies: C.Outcome<Store>, ghost hit: set<string>, ghost looked: C.ShardLists<Document>,
               ghost order: seq<string>)
      requires Valid()
      modifies Repr()
      ensures Valid() && fresh(Repr() - old(Repr())) && store == old(store) && gen == old(gen)
      ensures bodies.Good? ==> bodies.val == Served(store, p, ids, hit)
      ensures !down ==> bodies.Good?
      ensures Distinct(order) && forall id :: id in order ==> id in ids && id in store
      ensures bodies.Good? ==> forall id :: id in bodies.val && id !in hit ==> id in order
      ensures IsLooked(old(docs.lists), docs.hash, ids, now, looked)
      ensures IsKept(looked, docs.hash, docs.per, order, store, docs.lists)
      ensures forall id :: id in hit ==> id in ids && id in store && Had(old(docs.lists), id, now)
      ensures (forall id :: id in ids ==> id in Visible(store, p)) && bodies.Good? ==> bodies.val == Read(store, p, ids)
    {
      hide Valid, Had, Read, Served, C.Sound, IsLooked, IsKept, Distinct, Gathered, Visible;
      Shaped();
      if ids == [] {
        DistinctOne([], "");
        KeptNone(docs.lists, docs.hash, docs.per, store);
        ServedFrom(store, p, [], map[], []);
        ServedIff(store, p, ids, {});
        LookedNone(docs.lists, docs.hash, now);
        return C.Good(map[]), {}, docs.lists, [];
      }
      ghost var cs := docs.lists;
      var have, missing := Document(ids, now);
      hit, looked := have.Keys, docs.lists;
      GatheredServes(store, p, cs, ids, now, have, missing);
      bodies, order := FetchMissing(p, ids, have, missing, down, later, cs, now);
    }

    // The rest of it: what the layer did not hold is read, and put into it.
    method FetchMissing(p: Principal, ghost ids: seq<string>, have: Store, missing: seq<string>, down: bool,
                        later: L.Instant,
                        ghost cs: C.ShardLists<Document>, ghost now: L.Instant)
      returns (bodies: C.Outcome<Store>, ghost order: seq<string>)
      requires Valid() && Gathered(store, cs, ids, now, have, missing)
      modifies Repr()
      ensures Valid() && fresh(Repr() - old(Repr())) && store == old(store) && gen == old(gen)
      ensures bodies.Good? ==> bodies.val == Served(store, p, ids, have.Keys)
      ensures !down ==> bodies.Good?
      ensures Distinct(order) && forall id :: id in order ==> id in ids && id in store
      ensures bodies.Good? ==> forall id :: id in bodies.val && id !in have ==> id in order
      ensures IsKept(old(docs.lists), docs.hash, docs.per, order, store, docs.lists)
    {
      hide Valid, Had, Read, Served, C.Sound, IsKept, Distinct, Gathered, Visible;
      Shaped();
      order := [];
      DistinctOne([], "");
      KeptNone(docs.lists, docs.hash, docs.per, store);
      GatheredServes(store, p, cs, ids, now, have, missing);
      if missing == [] { return C.Good(have), []; }
      if down { return C.Bad("down"), []; }
      var fetched := Read(store, p, missing);
      order := PutDocuments(fetched, later);
      return C.Good(have + fetched), order;
    }

    // A committed write of one tenant's documents, and Cache.Invalidate.
    method Write(tenant: string, ids: seq<string>, after: Store)
      requires Valid() && OneTenant(store, tenant, ids, after)
      modifies Repr()
      ensures Valid() && fresh(Repr() - old(Repr())) && store == Written(old(store), ids, after)
      ensures forall id :: id in after ==> id in store && store[id] == after[id]
      ensures forall id :: id in ids && id !in after ==> id !in store
      ensures forall id :: id !in ids ==>
            (id in store <==> id in old(store)) && (id in store ==> store[id] == old(store)[id])
      ensures gen == Bumped(old(gen), tenant) && docs.lists == C.Dropped(old(docs.lists), docs.hash, ids)
      ensures results.lists == old(results.lists) && corpus.lists == old(corpus.lists)
    {
      hide Truthful, Digests, C.Dropped, C.Holds, C.Sound, C.Cache.Parts, OrderingOf, CountOf, OneTenant;
      forall h | C.Holds(results.lists, h)
        ensures OrderingOf(driver, digest, Written(store, ids, after), Bumped(gen, tenant), h.key, h.val)
      {
        OrderingOutlives(driver, digest, store, gen, h.key, h.val, tenant, ids, after);
      }
      forall h | C.Holds(corpus.lists, h)
        ensures CountOf(driver, Written(store, ids, after), Bumped(gen, tenant), h.key, h.val)
      {
        CountOutlives(driver, store, gen, h.key, h.val, tenant, ids, after);
      }
      forall h | C.Holds(docs.lists, h) && h.key !in ids ensures CopyOf(Written(store, ids, after), h.key, h.val) {
        CopyOutlives(store, tenant, ids, after, h.key, h.val);
      }
      C.DroppedIff(docs.lists, docs.hash, docs.per, ids);
      AllNamed(store, tenant, ids, after);
      store := Written(store, ids, after);
      docs.Delete(ids);
      gen := Bumped(gen, tenant);
    }

    method Clear()
      requires Valid()
      modifies Repr()
      ensures Valid() && fresh(Repr() - old(Repr())) && store == old(store) && gen == old(gen)
      ensures results.lists == seq(C.SHARDS, i => []) && corpus.lists == seq(C.SHARDS, i => [])
      ensures docs.lists == seq(C.SHARDS, i => [])
    {
      hide Truthful, Digests, C.Sound, C.Cache.Parts, OrderingsOf, CountsOf, CopiesOf;
      NothingHeld(driver, digest, store, gen);
      results.Clear();
      corpus.Clear();
      docs.Clear();
    }

    // The loop of Searcher.correct: a near word for each one the corpus lacks.
    method Respell(p: Principal, corpus: S, words: seq<string>, down: bool)
        returns (swap: C.Outcome<map<string, string>>)
      requires Valid()
      ensures swap.Good? ==> swap.val == Swap(driver, TenantOf(store, p.tenant), corpus, words)
      ensures !down ==> swap.Good?
    {
      hide Valid, Unknown, TenantOf;
      var vocabulary := TenantOf(store, p.tenant);
      var near: map<string, string> := map[];
      for i := 0 to |words|
        invariant near == Swap(driver, vocabulary, corpus, words[..i])
      {
        assert words[..i + 1] == words[..i] + [words[i]];
        if Unknown(driver, corpus, words[i]) {
          if down { return C.Bad("down"); }
          var found := driver.near(vocabulary, words[i]);
          if found.Some? {
            near := near[words[i] := found.value];
          }
        }
      }
      assert words[..|words|] == words;
      return C.Good(near);
    }

    // Searcher.correct: respell, then search for one row in this principal's name.
    method Correct(p: Principal, q: Query, corpus: S, down: bool, now: L.Instant, later: L.Instant)
      returns (text: C.Outcome<string>)
      requires Valid() && Bounded(q.filters)
      modifies Repr()
      ensures Valid() && fresh(Repr() - old(Repr())) && store == old(store) && gen == old(gen)
      ensures text.Good? ==> text.val == Correction(driver, store, p, q, corpus)
      ensures !down ==> text.Good?
    {
      hide Valid, Ranked, Swap, TenantOf, Gen, ResultKey, C.Found, C.Holds;
      var words := driver.words(q.text);
      if q.text == "" || words == [] || |words| > CORRECTION_WORDS { return C.Good(""); }
      var swap := Respell(p, corpus, words, down);
      if swap.Bad? { return C.Bad(swap.error); }
      if swap.val == map[] { return C.Good(""); }
      var offer := driver.rewrite(q.text, swap.val);
      if offer == q.text { return C.Good(""); }
      var found, called := Collect(p, Asked(driver, q.(text := offer)), CONFIRM, down, now, later);
      if found.Bad? { return C.Bad(found.error); }
      return C.Good(if found.val.candidates == [] then "" else offer);
    }

    // The rows of a page whose documents came back.
    method Show(bodies: Store, window: seq<string>) returns (hits: seq<Document>)
      ensures hits == Shown(bodies, window)
    {
      hits := [];
      for i := 0 to |window|
        invariant hits == Shown(bodies, window[..i])
      {
        assert window[..i + 1][..i] == window[..i];
        if window[i] in bodies {
          hits := hits + [bodies[window[i]]];
        }
      }
      assert window[..|window|] == window;
    }

    // Searcher.Search, up to what the page is made of.
    method Search(p: Principal, q: Query, down: bool, now: L.Instant, later: L.Instant)
      returns (page: C.Outcome<Page<R, S>>)
      requires Valid() && Asks(driver, p, q)
      modifies Repr()
      ensures Valid() && fresh(Repr() - old(Repr())) && store == old(store) && gen == old(gen)
      ensures page.Good? ==> page.val == Answer(driver, store, p, q, now) && Lawful(driver, store, p, q, now, page.val)
      ensures !down ==> page.Good?
    {
      hide Valid, Lawful, Answer, Asks, Asked, Bounded, Plain, AllPlain, Ranked, Counted, Gen, ResultKey, CorpusKey,
        Chosen, C.AfterDo, C.Found, C.Holds;
      AsksIs(driver, p, q);
      var r := Asked(driver, q);
      var found, ranks := Collect(p, r, Chosen(q), down, now, later);
      if found.Bad? { return C.Bad(found.error); }
      var counted, counts := Statistics(p, r.terms, down, now, later);
      if counted.Bad? { return C.Bad(counted.error); }
      page := Present(p, q, found.val, counted.val, down, now, later);
    }

    // Its second half: the rows of the page, or a correction where there are none.
    method Present(p: Principal, q: Query, found: Ordering<R>, corpus: S, down: bool, now: L.Instant, later: L.Instant)
      returns (page: C.Outcome<Page<R, S>>)
      requires Valid() && Bounded(q.filters) && found == Ranked(driver, store, p, Asked(driver, q), Chosen(q))
      requires corpus == Counted(driver, store, p, Asked(driver, q).terms)
      modifies Repr()
      ensures Valid() && fresh(Repr() - old(Repr())) && store == old(store) && gen == old(gen)
      ensures page.Good? ==> page.val == Answer(driver, store, p, q, now) && Lawful(driver, store, p, q, now, page.val)
      ensures !down ==> page.Good?
    {
      hide Valid, Lawful, Answer, Bounded, Visible, Read, Shown, Ranked, Counted, Window, Correction, Had, Served,
        AllThere, Chosen, IsLooked, IsKept, Distinct, Limit;
      Trusted();
      AnswerIs(driver, store, p, q, now);
      AnswerIsLawful(driver, store, p, q, now);
      if found.candidates == [] {
        var offer := Correct(p, q, corpus, down, now, later);
        if offer.Bad? { return C.Bad(offer.error); }
        return C.Good(Page(found, corpus, [], offer.val));
      }
      WindowVisible(driver, store, p, q, now);
      var window := Window(driver, found, corpus, q, now);
      var bodies, hit, looked, order := Fetch(p, window, down, now, later);
      if bodies.Bad? { return C.Bad(bodies.error); }
      var hits := Show(bodies.val, window);
      return C.Good(Page(found, corpus, hits, ""));
    }

    // Any run: searches by anybody, writes, sweeps, entries expiring and being
    // evicted in between. Every answer is the one the store gives directly.
    method Run(ops: seq<Op>) returns (answers: seq<Option<C.Outcome<Page<R, S>>>>)
      requires Valid() && Legal(driver, store, ops)
      modifies Repr()
      ensures Valid() && fresh(Repr() - old(Repr())) && store == StoreAfter(old(store), ops)
      ensures |answers| == |ops|
      ensures forall i :: 0 <= i < |ops| ==> Agrees(driver, StoreAfter(old(store), ops[..i]), ops[i], answers[i])
    {
      hide Valid, Legal, Allowed, Agrees, StoreAfter, Next;
      answers := [];
      AfterNone(store, ops);
      for n := 0 to |ops|
        invariant Valid() && fresh(Repr() - old(Repr())) && store == StoreAfter(old(store), ops[..n])
        invariant |answers| == n
        invariant forall i :: 0 <= i < n ==> Agrees(driver, StoreAfter(old(store), ops[..i]), ops[i], answers[i])
      {
        LegalAt(driver, old(store), ops, n);
        AfterNext(old(store), ops, n);
        var answer := One(ops[n]);
        answers := answers + [answer];
      }
      assert ops[..|ops|] == ops;
    }

    method One(op: Op) returns (answer: Option<C.Outcome<Page<R, S>>>)
      requires Valid() && Allowed(driver, store, op)
      modifies Repr()
      ensures Valid() && fresh(Repr() - old(Repr())) && store == Next(old(store), op)
      ensures Agrees(driver, old(store), op, answer)
    {
      hide Valid, Asks, OneTenant, Answer, Written, Lawful;
      match op
      case Ask(p, q, down, now, later) =>
        var page := Search(p, q, down, now, later);
        return Some(page);
      case Change(tenant, ids, after) =>
        Write(tenant, ids, after);
        return None;
      case Sweep =>
        Clear();
        return None;
    }

    lemma Trusted()
      requires Valid()
      ensures Truthful(driver)
    {
    }
  }
}
