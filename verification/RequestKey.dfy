// index/cache.go: how a request is written into the key of an ordering, and when
// two requests are written alike.
module RequestKey {
  import opened Order
  import opened Encoding
  import opened Retrieve

  datatype Selection = Selection(limit: int, recent: bool, counts: bool, facets: int)

  // ---- time.Time.UnixNano is an int64, and wraps outside the years 1678 to 2262.

  const INT64 := 0x1_0000_0000_0000_0000

  function UnixNano(t: Time): int {
    (t + INT64 / 2) % INT64 - INT64 / 2
  }

  lemma UnixNanoIff(t: Time, u: Time)
    ensures UnixNano(t) == UnixNano(u) <==> (t - u) % INT64 == 0
  {
    var a, b := t + INT64 / 2, u + INT64 / 2;
    var qa, ra := a / INT64, a % INT64;
    var qb, rb := b / INT64, b % INT64;
    assert t - u == (qa - qb) * INT64 + (ra - rb);
    ModOf(qa - qb, ra - rb);
  }

  lemma ModOf(q: int, r: int)
    requires -INT64 < r < INT64
    ensures (q * INT64 + r) % INT64 == 0 <==> r == 0
  {
    var n := q * INT64 + r;
    if n % INT64 == 0 {
      var m := n / INT64;
      assert n == m * INT64;
      assert (m - q) * INT64 == r;
    }
  }

  // The instants the key tells apart: unbounded, or representable and not the
  // one instant of 1754 that unbounded wraps onto.
  predicate Faithful(t: Time) {
    t == ZERO_TIME || (-INT64 / 2 <= t < INT64 / 2 && t != UnixNano(ZERO_TIME))
  }

  lemma FaithfulTimes(t: Time, u: Time)
    requires Faithful(t) && Faithful(u)
    ensures UnixNano(t) == UnixNano(u) <==> t == u
  {
  }

  // ---- The key.

  function Bool(b: bool): string {
    if b then "true" else "false"
  }

  function Items(list: seq<string>): string {
    if list == [] then "" else Prefixed(list[0]) + "," + Items(list[1..])
  }

  function Part(list: seq<string>): string {
    Items(Canonical(list)) + "|"
  }

  function ValueLists(r: Request): seq<seq<string>> {
    [r.terms, r.sources, r.kinds, r.containers, r.authors, r.owners]
  }

  function Parts(lists: seq<seq<string>>): string {
    if lists == [] then "" else Part(lists[0]) + Parts(lists[1..])
  }

  function Tail(r: Request, sel: Selection): string {
    Decimal(UnixNano(r.since)) + "|" + (Decimal(UnixNano(r.until)) + "|" + (Decimal(sel.limit) + "|" + (
      Bool(sel.recent) + "|" + (Bool(sel.counts) + "|" + Decimal(sel.facets)))))
  }

  function Key(r: Request, sel: Selection): string {
    Parts(ValueLists(r)) + Tail(r, sel)
  }

  method WriteList(start: string, list: seq<string>) returns (key: string)
    ensures key == start + Part(list)
  {
    hide Prefixed, Canonical;
    var sorted := Canonical(list);
    key := start;
    for i := 0 to |sorted|
      invariant key + Items(sorted[i..]) == start + Items(sorted)
    {
      assert sorted[i..][1..] == sorted[i + 1..];
      assert key + Items(sorted[i..]) == key + Prefixed(sorted[i]) + "," + Items(sorted[i + 1..]);
      key := key + Prefixed(sorted[i]) + ",";
    }
    assert key + Items(sorted[|sorted|..]) == key;
    key := key + "|";
  }

  lemma PartsStep(lists: seq<seq<string>>, n: nat)
    requires n < |lists|
    ensures Parts(lists[n..]) == Part(lists[n]) + Parts(lists[n + 1..])
  {
    assert lists[n..][1..] == lists[n + 1..];
  }

  lemma PartsEnd(lists: seq<seq<string>>)
    ensures Parts(lists[|lists|..]) == ""
  {
  }

  method WriteRequest(start: string, r: Request, sel: Selection) returns (key: string)
    ensures key == start + Key(r, sel)
  {
    hide Part, Parts, Decimal, Bool, UnixNano;
    var lists := ValueLists(r);
    key := start;
    for n := 0 to |lists|
      invariant key + Parts(lists[n..]) == start + Parts(lists)
    {
      PartsStep(lists, n);
      assert key + Parts(lists[n..]) == key + Part(lists[n]) + Parts(lists[n + 1..]);
      key := WriteList(key, lists[n]);
    }
    PartsEnd(lists);
    assert key + "" == key;
    key := key + Decimal(UnixNano(r.since)) + "|";
    key := key + Decimal(UnixNano(r.until)) + "|";
    key := key + Decimal(sel.limit) + "|";
    key := key + Bool(sel.recent) + "|";
    key := key + Bool(sel.counts) + "|";
    key := key + Decimal(sel.facets);
  }

  // ---- Reading it back.

  lemma {:induction false} ItemsSplit(a: seq<string>, r: string, b: seq<string>, q: string)
    requires Items(a) + "|" + r == Items(b) + "|" + q
    ensures a == b && r == q
  {
    hide Prefixed;
    var left, right := Items(a) + "|" + r, Items(b) + "|" + q;
    ItemsStart(a, r);
    ItemsStart(b, q);
    if a == [] {
      assert r == left[1..] && q == right[1..];
    } else {
      assert left == Prefixed(a[0]) + ("," + (Items(a[1..]) + "|" + r));
      assert right == Prefixed(b[0]) + ("," + (Items(b[1..]) + "|" + q));
      PrefixedSplit(a[0], "," + (Items(a[1..]) + "|" + r), b[0], "," + (Items(b[1..]) + "|" + q));
      assert Items(a[1..]) + "|" + r == ("," + (Items(a[1..]) + "|" + r))[1..];
      assert Items(b[1..]) + "|" + q == ("," + (Items(b[1..]) + "|" + q))[1..];
      ItemsSplit(a[1..], r, b[1..], q);
      assert a == [a[0]] + a[1..] && b == [b[0]] + b[1..];
    }
  }

  lemma ItemsStart(a: seq<string>, r: string)
    ensures (Items(a) + "|" + r)[0] == '|' <==> a == []
  {
    if a != [] {
      ItoaDigits(|a[0]|);
      assert Prefixed(a[0])[0] == Itoa(|a[0]|)[0];
      assert Items(a)[0] == Prefixed(a[0])[0];
    }
  }

  lemma {:induction false} PartsSplit(a: seq<seq<string>>, r: string, b: seq<seq<string>>, q: string)
    requires |a| == |b| && Parts(a) + r == Parts(b) + q
    ensures r == q
    ensures forall i :: 0 <= i < |a| ==> Elements(a[i]) == Elements(b[i])
  {
    hide Items, Canonical;
    if a == [] {
      assert Parts(a) + r == r && Parts(b) + q == q;
    } else {
      assert Parts(a) + r == Items(Canonical(a[0])) + "|" + (Parts(a[1..]) + r);
      assert Parts(b) + q == Items(Canonical(b[0])) + "|" + (Parts(b[1..]) + q);
      ItemsSplit(Canonical(a[0]), Parts(a[1..]) + r, Canonical(b[0]), Parts(b[1..]) + q);
      CanonicalIff(a[0], b[0]);
      PartsSplit(a[1..], r, b[1..], q);
      assert forall i :: 0 < i < |a| ==> a[i] == a[1..][i - 1] && b[i] == b[1..][i - 1];
    }
  }

  lemma {:induction false} PartsBySet(a: seq<seq<string>>, b: seq<seq<string>>)
    requires |a| == |b| && forall i :: 0 <= i < |a| ==> Elements(a[i]) == Elements(b[i])
    ensures Parts(a) == Parts(b)
  {
    hide Items, Canonical, Elements;
    if a != [] {
      CanonicalIff(a[0], b[0]);
      PartsBySet(a[1..], b[1..]);
    }
  }

  lemma BoolSplit(b: bool, r: string, c: bool, q: string)
    requires Bool(b) + "|" + r == Bool(c) + "|" + q
    ensures b == c && r == q
  {
    assert (Bool(b) + "|" + r)[0] == Bool(b)[0] && (Bool(c) + "|" + q)[0] == Bool(c)[0];
    var n := |Bool(b)| + 1;
    assert r == (Bool(b) + "|" + r)[n..] && q == (Bool(c) + "|" + q)[n..];
  }

  lemma TailSplit(r: Request, s: Selection, q: Request, t: Selection)
    requires Tail(r, s) == Tail(q, t)
    ensures UnixNano(r.since) == UnixNano(q.since) && UnixNano(r.until) == UnixNano(q.until) && s == t
  {
    hide Decimal, UnixNano;
    var r5, q5 := Decimal(s.facets), Decimal(t.facets);
    var r4, q4 := Bool(s.counts) + "|" + r5, Bool(t.counts) + "|" + q5;
    var r3, q3 := Bool(s.recent) + "|" + r4, Bool(t.recent) + "|" + q4;
    var r2, q2 := Decimal(s.limit) + "|" + r3, Decimal(t.limit) + "|" + q3;
    var r1, q1 := Decimal(UnixNano(r.until)) + "|" + r2, Decimal(UnixNano(q.until)) + "|" + q2;
    DecimalSplit(UnixNano(r.since), r1, UnixNano(q.since), q1, '|');
    DecimalSplit(UnixNano(r.until), r2, UnixNano(q.until), q2, '|');
    DecimalSplit(s.limit, r3, t.limit, q3, '|');
    BoolSplit(s.recent, r4, t.recent, q4);
    BoolSplit(s.counts, r5, t.counts, q5);
    DecimalInjective(s.facets, t.facets);
  }

  ghost predicate SameLists(r: Request, q: Request) {
    && Elements(r.terms) == Elements(q.terms) && Elements(r.sources) == Elements(q.sources)
    && Elements(r.kinds) == Elements(q.kinds) && Elements(r.containers) == Elements(q.containers)
    && Elements(r.authors) == Elements(q.authors) && Elements(r.owners) == Elements(q.owners)
  }

  // Two requests share a key exactly when each list holds the same values, the
  // bounds differ by whole turns of an int64, and the selections are equal.
  lemma KeyIff(r: Request, s: Selection, q: Request, t: Selection)
    ensures Key(r, s) == Key(q, t) <==>
            && SameLists(r, q) && s == t
            && (r.since - q.since) % INT64 == 0 && (r.until - q.until) % INT64 == 0
  {
    hide UnixNano, Parts, Decimal, Elements;
    UnixNanoIff(r.since, q.since);
    UnixNanoIff(r.until, q.until);
    if Key(r, s) == Key(q, t) {
      PartsSplit(ValueLists(r), Tail(r, s), ValueLists(q), Tail(q, t));
      assert forall i :: 0 <= i < 6 ==> Elements(ValueLists(r)[i]) == Elements(ValueLists(q)[i]);
      assert ValueLists(r)[0] == r.terms && ValueLists(r)[1] == r.sources && ValueLists(r)[2] == r.kinds;
      assert ValueLists(r)[3] == r.containers && ValueLists(r)[4] == r.authors && ValueLists(r)[5] == r.owners;
      TailSplit(r, s, q, t);
    } else if SameLists(r, q) {
      PartsBySet(ValueLists(r), ValueLists(q));
    }
  }

  // ---- What sharing a key means for the answer.

  ghost predicate SameRequest(r: Request, q: Request) {
    SameLists(r, q) && r.since == q.since && r.until == q.until
  }

  lemma SetPredicates(a: seq<string>, b: seq<string>, p: Person, needle: string)
    requires Elements(a) == Elements(b)
    ensures a == [] <==> b == []
    ensures needle in a <==> needle in b
    ensures ContainsFold(a, needle) <==> ContainsFold(b, needle)
    ensures MatchesPerson(a, p) <==> MatchesPerson(b, p)
  {
    hide NamesPerson, Fold;
    EmptyIff(a);
    EmptyIff(b);
    assert forall x :: x in a <==> x in Elements(b);
    ContainsFoldBySet(a, b, needle);
    ContainsFoldBySet(b, a, needle);
    MatchesPersonBySet(a, b, p);
    MatchesPersonBySet(b, a, p);
  }

  lemma ContainsFoldBySet(a: seq<string>, b: seq<string>, needle: string)
    requires forall x :: x in a <==> x in b
    ensures ContainsFold(a, needle) ==> ContainsFold(b, needle)
  {
    hide Fold;
    if ContainsFold(a, needle) {
      var i :| 0 <= i < |a| && a[i] != "" && Fold(a[i]) == Fold(needle);
      assert a[i] in b;
    }
  }

  lemma MatchesPersonBySet(a: seq<string>, b: seq<string>, p: Person)
    requires forall x :: x in a <==> x in b
    ensures MatchesPerson(a, p) ==> MatchesPerson(b, p)
  {
    hide NamesPerson, Fold;
    if MatchesPerson(a, p) {
      var i :| 0 <= i < |a| && a[i] != "" && NamesPerson(p, Fold(a[i]));
      assert a[i] in b;
    }
  }

  lemma SameRequestMatches(r: Request, q: Request, d: Document)
    requires SameRequest(r, q)
    ensures Matches(r, d) <==> Matches(q, d)
  {
    hide ContainsFold, MatchesPerson, Elements;
    SetPredicates(r.sources, q.sources, d.author, d.source);
    SetPredicates(r.kinds, q.kinds, d.author, d.kind);
    SetPredicates(r.containers, q.containers, d.author, d.container);
    SetPredicates(r.authors, q.authors, d.author, "");
    SetPredicates(r.owners, q.owners, d.owner, "");
    forall t ensures t in r.terms <==> t in q.terms { SetPredicates(r.terms, q.terms, d.author, t); }
    SetPredicates(r.terms, q.terms, d.author, "");
    assert MatchesTerms(r, d) <==> MatchesTerms(q, d);
  }

  // With bounds the key tells apart, one key is one match set.
  lemma KeyIsTheMatchSet(r: Request, s: Selection, q: Request, t: Selection)
    requires Faithful(r.since) && Faithful(r.until) && Faithful(q.since) && Faithful(q.until)
    ensures Key(r, s) == Key(q, t) <==> SameRequest(r, q) && s == t
    ensures Key(r, s) == Key(q, t) ==> forall d :: Matches(r, d) <==> Matches(q, d)
  {
    hide Key, Matches, SameLists, UnixNano;
    KeyIff(r, s, q, t);
    UnixNanoIff(r.since, q.since);
    UnixNanoIff(r.until, q.until);
    FaithfulTimes(r.since, q.since);
    FaithfulTimes(r.until, q.until);
    if SameRequest(r, q) {
      forall d ensures Matches(r, d) <==> Matches(q, d) { SameRequestMatches(r, q, d); }
    }
  }

  // And without: no lower bound, and a lower bound of 30 August 1754, 22:43:41 and
  // 128654848 nanoseconds, are one key and two match sets.
  lemma UnboundedCollides(d: Document, s: Selection)
    requires d.modifiedAt == UnixNano(ZERO_TIME) - 1
    ensures var any := Request([], [], [], [], [], [], ZERO_TIME, ZERO_TIME);
            var since := any.(since := UnixNano(ZERO_TIME));
            Key(any, s) == Key(since, s) && Matches(any, d) && !Matches(since, d)
  {
    var any := Request([], [], [], [], [], [], ZERO_TIME, ZERO_TIME);
    var since := any.(since := UnixNano(ZERO_TIME));
    assert Key(any, s) == Key(since, s) by {
      hide Key;
      KeyIff(any, s, since, s);
    }
    hide Key;
    assert MatchesTerms(any, d) && Filters(any, d) && !Filters(since, d);
  }

  // Nor is there a wider set of bounds the key could tell apart: whatever is left
  // out shares its key with one that is in, and some document tells them apart.
  function BoundedBy(lower: bool, t: Time): Request {
    var any := Request([], [], [], [], [], [], ZERO_TIME, ZERO_TIME);
    if lower then any.(since := t) else any.(until := t)
  }

  function Between(lower: bool, t: Time, u: Time): Time {
    if u == ZERO_TIME then (if lower then t - 1 else t + 1)
    else if (t < u) == lower then t else u
  }

  lemma FaithfulIsWidest(lower: bool, t: Time, d: Document, s: Selection) returns (u: Time)
    requires !Faithful(t)
    ensures Faithful(u) && u != t && Key(BoundedBy(lower, t), s) == Key(BoundedBy(lower, u), s)
    ensures var e := d.(modifiedAt := Between(lower, t, u));
            Matches(BoundedBy(lower, u), e) <==> !Matches(BoundedBy(lower, t), e)
  {
    hide Key;
    u := if UnixNano(t) == UnixNano(ZERO_TIME) then ZERO_TIME else UnixNano(t);
    KeyIff(BoundedBy(lower, t), s, BoundedBy(lower, u), s);
    UnixNanoIff(t, u);
  }
}
