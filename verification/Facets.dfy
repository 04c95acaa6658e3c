// index/score.go: the walk that counts a sidebar and a total in one pass, for a
// driver that can only be scanned.
module Facets {
  import opened Order
  import opened Encoding
  import opened Retrieve

  const MAX_MATCHES := 100_000
  const MAX_FACET_VALUES := 50

  // ---- The simple definition: four separately filtered counts and a total.

  ghost function Total(r: Request, docs: seq<Document>): nat {
    if docs == [] then 0
    else Total(r, docs[..|docs| - 1]) + (if Matches(r, docs[|docs| - 1]) then 1 else 0)
  }

  ghost function Count(r: Request, f: Field, v: string, docs: seq<Document>): nat {
    if docs == [] then 0
    else
      var d := docs[|docs| - 1];
      Count(r, f, v, docs[..|docs| - 1]) + (if Matches(r, d) && ValueOf(f, d) == v then 1 else 0)
  }

  // What ticking `v` alone in field `f` would find.
  ghost function DrillCount(r: Request, f: Field, v: string, docs: seq<Document>): nat {
    Count(Without(r, f), f, v, docs)
  }

  lemma {:induction false} PrefixCounts(r: Request, f: Field, v: string, docs: seq<Document>, n: nat)
    requires n <= |docs|
    ensures Total(r, docs[..n]) <= Total(r, docs)
    ensures DrillCount(r, f, v, docs[..n]) <= DrillCount(r, f, v, docs)
    decreases |docs|
  {
    if n < |docs| {
      PrefixCounts(r, f, v, docs[..|docs| - 1], n);
      assert docs[..|docs| - 1][..n] == docs[..n];
    } else {
      assert docs[..n] == docs;
    }
  }

  lemma NotInBase(r: Request, d: Document)
    requires !Matches(WithoutFacets(r), d)
    ensures !Matches(r, d) && forall f :: !Matches(Without(r, f), d)
  {
    hide Matches, Passes;
    MatchesApart(r, Source, d);
    forall f ensures !Matches(Without(r, f), d) { MatchesApart(r, f, d); }
  }

  // ---- One pass over the documents.

  function At(counts: map<string, int>, v: string): int {
    if v in counts then counts[v] else 0
  }

  function Bump(counts: map<string, int>, v: string): (r: map<string, int>)
    ensures forall w :: At(r, w) == At(counts, w) + (if v == w then 1 else 0)
    ensures forall w :: w in r <==> w in counts || w == v
  {
    counts[v := At(counts, v) + 1]
  }

  // The counts are the simple definition's over `docs`, and hold no zero.
  ghost predicate Tallies(counts: map<Field, map<string, int>>, r: Request, docs: seq<Document>) {
    && (forall f: Field :: f in counts)
    && (forall f: Field, v :: At(counts[f], v) == DrillCount(r, f, v, docs))
    && (forall f: Field, v :: v in counts[f] ==> At(counts[f], v) > 0)
  }

  class Drill {
    const r: Request
    var counts: map<Field, map<string, int>>

    constructor (r: Request)
      ensures this.r == r && Tallies(counts, r, [])
    {
      this.r := r;
      counts := map f: Field | f in FACET_FIELDS :: map[];
      new;
      EveryField();
    }

    // Tallies one more document that passes the base request. A match raises all
    // four fields, a near miss by one field raises that field, anything else none.
    // `docs` is what came before it.
    method Add(d: Document, ghost docs: seq<Document>) returns (matched: bool)
      requires Tallies(counts, r, docs) && Matches(WithoutFacets(r), d)
      modifies this`counts
      ensures Tallies(counts, r, docs + [d])
      ensures matched == Matches(r, d)
    {
      AllPresent(counts, r, docs);
      hide Matches, Passes, WithoutFacets, Tallies, Bump;
      var missing, twice := Missing(r, d);
      if twice {
        TallyNone(counts, r, docs, d);
        return false;
      }
      if missing.Some? {
        var field := missing.value;
        OnlyShortOf(r, d, field);
        TallyOne(counts, r, docs, d, field);
        counts := counts[field := Bump(counts[field], ValueOf(field, d))];
        return false;
      }
      NothingShort(r, d);
      var bumped := BumpAll(counts, d);
      TallyAll(counts, bumped, r, docs, d);
      counts := bumped;
      return true;
    }
  }

  lemma AllPresent(counts: map<Field, map<string, int>>, r: Request, docs: seq<Document>)
    requires Tallies(counts, r, docs)
    ensures forall f: Field :: f in counts
  {
  }

  lemma TallyNone(counts: map<Field, map<string, int>>, r: Request, docs: seq<Document>, d: Document)
    requires Tallies(counts, r, docs) && forall f :: !Matches(Without(r, f), d)
    ensures Tallies(counts, r, docs + [d])
  {
    hide Matches, DrillCount;
    forall f: Field, v { Counted(r, f, v, docs, d); }
  }

  lemma TallyOne(counts: map<Field, map<string, int>>, r: Request, docs: seq<Document>, d: Document, field: Field)
    requires Tallies(counts, r, docs) && forall f :: Matches(Without(r, f), d) <==> f == field
    ensures Tallies(counts[field := Bump(counts[field], ValueOf(field, d))], r, docs + [d])
  {
    hide Matches, DrillCount, Bump;
    forall f: Field, v { Counted(r, f, v, docs, d); }
  }

  lemma TallyAll(counts: map<Field, map<string, int>>, bumped: map<Field, map<string, int>>, r: Request,
                 docs: seq<Document>, d: Document)
    requires Tallies(counts, r, docs) && forall f :: Matches(Without(r, f), d)
    requires forall f: Field :: f in bumped && bumped[f] == Bump(counts[f], ValueOf(f, d))
    ensures Tallies(bumped, r, docs + [d])
  {
    hide Matches, DrillCount, Bump;
    forall f: Field, v { Counted(r, f, v, docs, d); }
  }

  method BumpAll(counts: map<Field, map<string, int>>, d: Document) returns (out: map<Field, map<string, int>>)
    requires forall f: Field :: f in counts
    ensures forall f: Field :: f in out && out[f] == Bump(counts[f], ValueOf(f, d))
  {
    EveryField();
    out := map[];
    for i := 0 to |FACET_FIELDS|
      invariant out.Keys == Elements(FACET_FIELDS[..i])
      invariant forall f :: f in out ==> out[f] == Bump(counts[f], ValueOf(f, d))
    {
      var field := FACET_FIELDS[i];
      out := out[field := Bump(counts[field], ValueOf(field, d))];
    }
    assert FACET_FIELDS[..|FACET_FIELDS|] == FACET_FIELDS;
  }

  // The loop at the head of add: the one constraint a document fails, unless it
  // fails none, or fails two and is reachable by no single change.
  method Missing(r: Request, d: Document) returns (missing: Option<Field>, twice: bool)
    ensures twice ==> !Matches(r, d) && forall f :: !Matches(Without(r, f), d)
    ensures !twice ==> forall g :: Passes(r, g, d) <==> missing != Some(g)
  {
    hide Matches, Passes;
    EveryField();
    missing := None;
    for i := 0 to |FACET_FIELDS|
      invariant missing.Some? ==> !Passes(r, missing.value, d) && missing.value in FACET_FIELDS[..i]
      invariant forall j :: 0 <= j < i && missing != Some(FACET_FIELDS[j]) ==> Passes(r, FACET_FIELDS[j], d)
    {
      var field := FACET_FIELDS[i];
      if Passes(r, field, d) {
        continue;
      }
      if missing.Some? {
        ShortOf(r, d, missing.value, field);
        return missing, true;
      }
      missing := Some(field);
    }
    forall g: Field | missing != Some(g) ensures Passes(r, g, d) {
      assert g in FACET_FIELDS;
      var j :| 0 <= j < |FACET_FIELDS| && FACET_FIELDS[j] == g;
    }
    return missing, false;
  }

  // What one more document adds to a count.
  lemma Counted(r: Request, f: Field, v: string, docs: seq<Document>, d: Document)
    ensures DrillCount(r, f, v, docs + [d]) ==
            DrillCount(r, f, v, docs) + (if Matches(Without(r, f), d) && ValueOf(f, d) == v then 1 else 0)
  {
    assert (docs + [d])[..|docs|] == docs;
  }

  lemma ShortOf(r: Request, d: Document, a: Field, b: Field)
    requires a != b && !Passes(r, a, d) && !Passes(r, b, d)
    ensures forall f :: !Matches(Without(r, f), d)
    ensures !Matches(r, d)
  {
    hide Matches, Passes;
    forall f ensures !Matches(Without(r, f), d) {
      MatchesApart(r, f, d);
      assert f != a || f != b;
    }
    MatchesApart(r, a, d);
  }

  lemma OnlyShortOf(r: Request, d: Document, m: Field)
    requires Matches(WithoutFacets(r), d) && !Passes(r, m, d) && forall g :: g != m ==> Passes(r, g, d)
    ensures forall f :: Matches(Without(r, f), d) <==> f == m
    ensures !Matches(r, d)
  {
    hide Matches, Passes;
    forall f ensures Matches(Without(r, f), d) <==> f == m { MatchesApart(r, f, d); }
    MatchesApart(r, m, d);
  }

  lemma NothingShort(r: Request, d: Document)
    requires Matches(WithoutFacets(r), d) && forall g :: Passes(r, g, d)
    ensures forall f :: Matches(Without(r, f), d)
    ensures Matches(r, d)
  {
    hide Matches, Passes;
    forall f ensures Matches(Without(r, f), d) { MatchesApart(r, f, d); }
    MatchesApart(r, Source, d);
  }

  // ---- The sidebar.

  datatype Facet = Facet(value: string, count: int)

  predicate FacetLess(a: Facet, b: Facet) {
    if a.count != b.count then a.count > b.count else StrLess(a.value, b.value)
  }

  lemma FacetsOrdered()
    ensures StrictTotal(FacetLess)
  {
    StringsOrdered();
    forall a, b: Facet | a != b ensures FacetLess(a, b) || FacetLess(b, a) {
      if a.count == b.count { StrLessTotal(a.value, b.value); }
    }
    forall a, b, c | FacetLess(a, b) && FacetLess(b, c) ensures FacetLess(a, c) {
      if a.count == b.count == c.count { StrLessTransitive(a.value, b.value, c.value); }
    }
  }

  ghost function Shown(counts: map<string, int>): set<Facet> {
    set v | v in counts && v != "" :: Facet(v, counts[v])
  }

  // The largest counts first, the value settling a tie, cut at fifty.
  ghost predicate TopOf(all: set<Facet>, out: seq<Facet>) {
    exists listing: seq<Facet> :: Lists(FacetLess, listing, all) &&
      out == if |listing| > MAX_FACET_VALUES then listing[..MAX_FACET_VALUES] else listing
  }

  // Larger counts stand before smaller ones, equal ones by name, and what is left off
  // a full list counts for no more than anything on it.
  lemma TopShows(all: set<Facet>, out: seq<Facet>)
    requires TopOf(all, out)
    ensures |out| <= 50 && forall f :: f in out ==> f in all
    ensures forall i, j :: 0 <= i < j < |out| ==>
              out[i].count > out[j].count || (out[i].count == out[j].count && StrLess(out[i].value, out[j].value))
    ensures forall f, g :: f in all && f !in out && g in out ==>
              |out| == 50 && (g.count > f.count || (g.count == f.count && StrLess(g.value, f.value)))
    ensures |out| < 50 ==> forall f :: f in all ==> f in out
  {
    hide StrLess;
    var listing: seq<Facet> :| Lists(FacetLess, listing, all)
                               && out == if |listing| > MAX_FACET_VALUES then listing[..MAX_FACET_VALUES] else listing;
    forall f, g | f in all && f !in out && g in out
      ensures |out| == 50 && (g.count > f.count || (g.count == f.count && StrLess(g.value, f.value)))
    {
      var k :| 0 <= k < |listing| && listing[k] == f;
      var j :| 0 <= j < |out| && out[j] == g;
      assert forall i :: 0 <= i < |out| ==> out[i] == listing[i] && out[i] in out;
      assert FacetLess(listing[j], listing[k]);
    }
  }

  method SortedFacets(counts: map<string, int>) returns (out: seq<Facet>)
    ensures TopOf(Shown(counts), out)
  {
    out := [];
    var left := counts.Keys;
    while left != {}
      invariant left <= counts.Keys
      invariant Distinct(out)
      invariant forall f :: f in out <==>
            f.value in counts && f.value !in left && f.value != "" && f.count == counts[f.value]
    {
      var v :| v in left;
      left := left - {v};
      if v == "" {
        continue;
      }
      out := out + [Facet(v, counts[v])];
    }
    forall f ensures f in out <==> f in Shown(counts) { }
    FacetsOrdered();
    SortLists(FacetLess, out, Shown(counts));
    out := Sort(FacetLess, out);
    assert Lists(FacetLess, out, Shown(counts));
    if |out| > MAX_FACET_VALUES {
      out := out[..MAX_FACET_VALUES];
    }
  }

  // The values worth showing for a field, with their counts, by the simple
  // definition.
  ghost function Sidebar(r: Request, f: Field, docs: seq<Document>): set<Facet> {
    set d | d in docs && ValueOf(f, d) != "" && DrillCount(r, f, ValueOf(f, d), docs) > 0
      :: Facet(ValueOf(f, d), DrillCount(r, f, ValueOf(f, d), docs))
  }

  lemma {:induction false} CountedIsThere(r: Request, f: Field, v: string, docs: seq<Document>) returns (d: Document)
    requires Count(r, f, v, docs) > 0
    ensures d in docs && ValueOf(f, d) == v
  {
    d := docs[|docs| - 1];
    if !(Matches(r, d) && ValueOf(f, d) == v) {
      d := CountedIsThere(r, f, v, docs[..|docs| - 1]);
    }
  }

  lemma ShownIsSidebar(dr: Drill, f: Field, docs: seq<Document>)
    requires Tallies(dr.counts, dr.r, docs)
    ensures Shown(dr.counts[f]) == Sidebar(dr.r, f, docs)
  {
    var r, counts := dr.r, dr.counts[f];
    forall facet ensures facet in Shown(counts) <==> facet in Sidebar(r, f, docs) {
      assert At(counts, facet.value) == DrillCount(r, f, facet.value, docs);
      if facet in Shown(counts) {
        var d := CountedIsThere(Without(r, f), f, facet.value, docs);
        assert facet == Facet(ValueOf(f, d), DrillCount(r, f, ValueOf(f, d), docs));
      }
    }
  }

  method AllFacets(dr: Drill, ghost docs: seq<Document>) returns (out: map<Field, seq<Facet>>)
    requires Tallies(dr.counts, dr.r, docs)
    ensures forall f: Field :: f in out && TopOf(Sidebar(dr.r, f, docs), out[f])
  {
    hide TopOf, Sidebar, Shown;
    EveryField();
    out := map[];
    for i := 0 to |FACET_FIELDS|
      invariant out.Keys == Elements(FACET_FIELDS[..i])
      invariant forall f :: f in out ==> TopOf(Sidebar(dr.r, f, docs), out[f])
    {
      var field := FACET_FIELDS[i];
      var sorted := SortedFacets(dr.counts[field]);
      ShownIsSidebar(dr, field, docs);
      out := out[field := sorted];
    }
    assert FACET_FIELDS[..|FACET_FIELDS|] == FACET_FIELDS;
  }

  // ---- The walk.

  datatype Pool = Pool(ids: seq<string>, total: int, truncated: bool, facets: map<Field, seq<Facet>>, approximate: bool)

  ghost function MatchingIds(r: Request, docs: seq<Document>): seq<string> {
    if docs == [] then []
    else
      var d := docs[|docs| - 1];
      MatchingIds(r, docs[..|docs| - 1]) + (if Matches(r, d) then [d.id] else [])
  }

  // `pool` is what the simple definition says of the first `n` documents.
  ghost predicate Describes(pool: Pool, r: Request, limit: int, docs: seq<Document>) {
    && pool.total == Total(r, docs)
    && pool.ids == (if limit > 0 then MatchingIds(r, docs) else [])
    && (forall f: Field :: f in pool.facets && TopOf(Sidebar(r, f, docs), pool.facets[f]))
  }

  lemma WalkStep(r: Request, docs: seq<Document>, i: nat)
    requires i < |docs|
    ensures docs[..i + 1] == docs[..i] + [docs[i]]
    ensures Total(r, docs[..i + 1]) == Total(r, docs[..i]) + (if Matches(r, docs[i]) then 1 else 0)
    ensures MatchingIds(r, docs[..i + 1]) ==
            MatchingIds(r, docs[..i]) + (if Matches(r, docs[i]) then [docs[i].id] else [])
  {
    hide Matches;
    assert docs[..i + 1][..i] == docs[..i];
  }

  // The branch of collect for a driver that cannot rank: `docs` is what the store
  // yields, in its own order.
  method Collect(docs: seq<Document>, r: Request, limit: int) returns (pool: Pool, ghost walked: nat)
    ensures walked <= |docs| && Describes(pool, r, limit, docs[..walked])
    ensures pool.truncated == pool.approximate == (Total(WithoutFacets(r), docs) > MAX_MATCHES)
    ensures !pool.truncated ==> walked == |docs|
    ensures pool.truncated ==> Total(WithoutFacets(r), docs[..walked]) == MAX_MATCHES
  {
    assert docs[..0] == [] && docs[..|docs|] == docs;
    assert Total(r, []) == Total(WithoutFacets(r), []) == 0 && MatchingIds(r, []) == [];
    hide Matches, WithoutFacets, Tallies, TopOf, Sidebar, Total, MatchingIds, Describes;
    var base := WithoutFacets(r);
    var counts := new Drill(r);
    var seen: seq<string> := [];
    var matched: nat, count, truncated := 0, 0, false;
    walked := 0;
    var i := 0;
    while i < |docs|
      invariant 0 <= i <= |docs|
      invariant !truncated && walked == i && counts.r == r && fresh(counts)
      invariant count == Total(base, docs[..i]) <= MAX_MATCHES
      invariant Tallies(counts.counts, r, docs[..i])
      invariant matched == Total(r, docs[..i])
      invariant seen == if limit > 0 then MatchingIds(r, docs[..i]) else []
    {
      var d := docs[i];
      WalkStep(r, docs, i);
      WalkStep(base, docs, i);
      if !Matches(base, d) {
        NotInBase(r, d);
        TallyNone(counts.counts, r, docs[..i], d);
        i, walked := i + 1, i + 1;
        continue;
      }
      if count >= MAX_MATCHES {
        truncated := true;
        PrefixCounts(base, Source, "", docs, i + 1);
        break;
      }
      count := count + 1;
      matched, seen := Take(counts, docs, i, r, limit, matched, seen);
      i, walked := i + 1, i + 1;
    }
    assert !truncated ==> docs[..walked] == docs;
    var facets := AllFacets(counts, docs[..walked]);
    pool := Pool(seen, matched, truncated, facets, truncated);
    Described(pool, r, limit, docs[..walked]);
  }

  lemma Described(pool: Pool, r: Request, limit: int, docs: seq<Document>)
    requires pool.total == Total(r, docs) && pool.ids == if limit > 0 then MatchingIds(r, docs) else []
    requires forall f: Field :: f in pool.facets && TopOf(Sidebar(r, f, docs), pool.facets[f])
    ensures Describes(pool, r, limit, docs)
  {
    hide TopOf, Sidebar, Total, MatchingIds;
  }

  // What take does with a document that is counted.
  method Take(counts: Drill, docs: seq<Document>, i: nat, r: Request, limit: int, matched: nat, seen: seq<string>)
    returns (matched': nat, seen': seq<string>)
    requires i < |docs| && counts.r == r && Tallies(counts.counts, r, docs[..i]) && Matches(WithoutFacets(r), docs[i])
    requires matched == Total(r, docs[..i]) && seen == if limit > 0 then MatchingIds(r, docs[..i]) else []
    modifies counts
    ensures Tallies(counts.counts, r, docs[..i + 1])
    ensures matched' == Total(r, docs[..i + 1]) && seen' == if limit > 0 then MatchingIds(r, docs[..i + 1]) else []
  {
    hide Matches, WithoutFacets, Tallies, Total, MatchingIds;
    WalkStep(r, docs, i);
    matched', seen' := matched, seen;
    var hit := counts.Add(docs[i], docs[..i]);
    if hit {
      matched' := matched + 1;
      if limit > 0 {
        seen' := seen + [docs[i].id];
      }
    }
  }

  // A walk cut short never overstates.
  lemma TruncatedIsLowerBound(pool: Pool, r: Request, limit: int, docs: seq<Document>, n: nat, f: Field, facet: Facet)
    requires n <= |docs| && Describes(pool, r, limit, docs[..n]) && facet in pool.facets[f]
    ensures pool.total <= Total(r, docs)
    ensures facet.count <= DrillCount(r, f, facet.value, docs)
  {
    PrefixCounts(r, f, facet.value, docs, n);
    assert TopOf(Sidebar(r, f, docs[..n]), pool.facets[f]);
    assert facet in Sidebar(r, f, docs[..n]);
  }
}
