// index/cache.go: the keys the derived layers are filed under, and what two
// requests that share one have in common.
module SearchKey {
  import opened Order
  import opened Encoding
  import opened Acl
  import opened Retrieve
  import opened RequestKey

  // The digest a fingerprint is printed as: hex, and no two inputs alike.
  ghost predicate Digests(digest: string -> string) {
    && (forall a, b :: digest(a) == digest(b) ==> a == b)
    && (forall a :: '|' !in digest(a))
  }

  function ResultKey(digest: string -> string, gen: nat, p: Principal, r: Request, sel: Selection): string {
    Decimal(gen) + "|" + (digest(Stream(p)) + "|" + Key(r, sel))
  }

  // Cache.ranked, up to the call of Do.
  method WriteResultKey(digest: string -> string, gen: nat, p: Principal, r: Request, sel: Selection)
    returns (key: string)
    ensures key == ResultKey(digest, gen, p, r, sel)
  {
    hide Decimal, Stream, Key;
    var written := Fingerprint(Some(p));
    var fp := digest(written.value);
    key := Decimal(gen) + "|";
    key := key + fp + "|";
    key := WriteRequest(key, r, sel);
    assert key == Decimal(gen) + "|" + (fp + "|" + Key(r, sel));
  }

  predicate Bounded(r: Request) {
    Faithful(r.since) && Faithful(r.until)
  }

  // Every bound between the end of 1754 and the spring of 2262 will do, and none.
  lemma BoundedSays(r: Request)
    requires r.since == ZERO_TIME || UnixNano(ZERO_TIME) < r.since < 0x8000_0000_0000_0000
    requires r.until == ZERO_TIME || UnixNano(ZERO_TIME) < r.until < 0x8000_0000_0000_0000
    ensures Bounded(r)
  {
  }

  // What a principal may read, as the driver applies the rule.
  predicate Readable(p: Principal, d: Document) {
    Queryable(d) && d.tenant == p.tenant && Allows(d.permissions, Some(p))
  }

  function Visible(st: map<string, Document>, p: Principal): map<string, Document> {
    map id | id in st && Readable(p, st[id]) :: st[id]
  }

  // One key is one generation of one tenant, one set of groups and keys, one
  // match set and one selection.
  lemma ResultKeyIff(digest: string -> string, g: nat, p: Principal, r: Request, s: Selection,
                     h: nat, q: Principal, u: Request, t: Selection)
    requires Digests(digest) && Bounded(r) && Bounded(u)
    ensures ResultKey(digest, g, p, r, s) == ResultKey(digest, h, q, u, t) <==>
            && g == h && p.tenant == q.tenant && p.groups.version == q.groups.version && SameView(p, q)
            && SameRequest(r, u) && s == t
  {
    hide Decimal, Stream, Key, SameRequest, SameView;
    var a, b := digest(Stream(p)), digest(Stream(q));
    FingerprintIsTheView(p, q);
    KeyIsTheMatchSet(r, s, u, t);
    if ResultKey(digest, g, p, r, s) == ResultKey(digest, h, q, u, t) {
      DecimalSplit(g, a + "|" + Key(r, s), h, b + "|" + Key(u, t), '|');
      SplitAt(a, Key(r, s), b, Key(u, t), '|');
    }
  }

  lemma SameViewSees(st: map<string, Document>, p: Principal, q: Principal)
    requires p.tenant == q.tenant && SameView(p, q)
    ensures Visible(st, p) == Visible(st, q)
  {
    hide Decide;
    forall d ensures Readable(p, d) <==> Readable(q, d) {
      assert Decide(d.permissions, Some(p)) == Decide(d.permissions, Some(q));
    }
  }

  // ---- The corpus statistics.

  function Joined(terms: seq<string>): string {
    if terms == [] then "" else "|" + terms[0] + Joined(terms[1..])
  }

  function CorpusKey(gen: nat, tenant: string, terms: seq<string>): string {
    Decimal(gen) + "|" + tenant + Joined(Canonical(terms))
  }

  method WriteCorpusKey(gen: nat, tenant: string, terms: seq<string>) returns (key: string)
    ensures key == CorpusKey(gen, tenant, terms)
  {
    hide Canonical, Decimal;
    var sorted := Canonical(terms);
    key := Decimal(gen) + "|" + tenant;
    for i := 0 to |sorted|
      invariant key + Joined(sorted[i..]) == Decimal(gen) + "|" + tenant + Joined(sorted)
    {
      assert sorted[i..][1..] == sorted[i + 1..];
      assert key + Joined(sorted[i..]) == key + "|" + sorted[i] + Joined(sorted[i + 1..]);
      key := key + "|" + sorted[i];
    }
    assert key + Joined(sorted[|sorted|..]) == key;
  }

  // A name with no bar in it.
  predicate Plain(s: string) {
    '|' !in s
  }

  ghost predicate AllPlain(list: seq<string>) {
    forall x :: x in list ==> Plain(x)
  }

  lemma {:induction false} JoinedSplit(t: string, a: seq<string>, u: string, b: seq<string>)
    requires Plain(t) && Plain(u) && AllPlain(a) && AllPlain(b)
    requires t + Joined(a) == u + Joined(b)
    ensures t == u && a == b
    decreases |a|
  {
    BarIff(t, a);
    BarIff(u, b);
    if a == [] {
      assert t + "" == t && u + "" == u;
    } else {
      var ra, rb := a[0] + Joined(a[1..]), b[0] + Joined(b[1..]);
      assert t + Joined(a) == t + ['|'] + ra && u + Joined(b) == u + ['|'] + rb;
      SplitAt(t, ra, u, rb, '|');
      JoinedSplit(a[0], a[1..], b[0], b[1..]);
      assert a == [a[0]] + a[1..] && b == [b[0]] + b[1..];
    }
  }

  lemma BarIff(t: string, a: seq<string>)
    requires Plain(t)
    ensures '|' in t + Joined(a) <==> a != []
  {
    if a != [] {
      assert (t + Joined(a))[|t|] == '|';
    }
  }

  // With no bars in the names, one key is one generation of one tenant and one
  // set of terms.
  lemma CorpusKeyIff(g: nat, t: string, a: seq<string>, h: nat, u: string, b: seq<string>)
    requires Plain(t) && Plain(u) && AllPlain(a) && AllPlain(b)
    ensures CorpusKey(g, t, a) == CorpusKey(h, u, b) <==> g == h && t == u && Elements(a) == Elements(b)
  {
    hide Canonical, Decimal, Joined, Elements, Plain;
    CanonicalIff(a, b);
    if CorpusKey(g, t, a) == CorpusKey(h, u, b) {
      var ra, rb := t + Joined(Canonical(a)), u + Joined(Canonical(b));
      assert CorpusKey(g, t, a) == Decimal(g) + "|" + ra && CorpusKey(h, u, b) == Decimal(h) + "|" + rb;
      DecimalSplit(g, ra, h, rb, '|');
      CanonicalPlain(a);
      CanonicalPlain(b);
      JoinedSplit(t, Canonical(a), u, Canonical(b));
    }
  }

  lemma CanonicalPlain(list: seq<string>)
    requires AllPlain(list)
    ensures AllPlain(Canonical(list))
  {
    hide Canonical;
    CanonicalLists(list);
    forall x | x in Canonical(list) ensures Plain(x) {
      assert x in Elements(Canonical(list));
      assert x in Elements(list);
    }
  }

  // A list in canonical form is its own canonical form, and so is every prefix.
  lemma CanonicalPrefix(list: seq<string>, n: nat)
    requires n <= |Canonical(list)|
    ensures Canonical(Canonical(list)[..n]) == Canonical(list)[..n]
  {
    hide Canonical, StrLess;
    StringsOrdered();
    var part := Canonical(list)[..n];
    CanonicalLists(list);
    CanonicalLists(part);
    assert forall i :: 0 <= i < n ==> part[i] == Canonical(list)[i];
    ListingUnique(StrLess, Canonical(part), part);
  }

  lemma JoinedStep(list: seq<string>)
    requires list != []
    ensures Joined(list) == "|" + (list[0] + Joined(list[1..]))
  {
    assert "|" + (list[0] + Joined(list[1..])) == "|" + list[0] + Joined(list[1..]);
  }

  lemma JoinedStart(list: seq<string>)
    ensures if list == [] then Joined(list) == "" else |Joined(list)| > 0 && Joined(list)[0] == '|'
  {
  }

  // Where one text is the other and more, what is more is some of its terms.
  lemma {:induction false} JoinedCut(x: string, a: seq<string>, b: seq<string>) returns (n: nat)
    requires AllPlain(a) && AllPlain(b) && x + Joined(a) == Joined(b)
    ensures n <= |b| && x == Joined(b[..n])
    decreases |b|
  {
    hide Joined;
    JoinedStart([]);
    n := 0;
    assert b[..0] == [];
    if x != "" {
      JoinedStart(b);
      JoinedStep(b);
      var rest := b[0] + Joined(b[1..]);
      assert x[0] == (x + Joined(a))[0] && x == "|" + x[1..];
      assert x[1..] + Joined(a) == (x + Joined(a))[1..] == rest;
      CutTerm(x[1..], a, b[0], b[1..]);
      var tail := x[1..][|b[0]|..];
      n := JoinedCut(tail, a, b[1..]);
      JoinedStep(b[..n + 1]);
      assert b[..n + 1][0] == b[0] && b[..n + 1][1..] == b[1..][..n];
      n := n + 1;
    }
  }

  lemma CutTerm(y: string, a: seq<string>, t: string, b: seq<string>)
    requires Plain(t) && AllPlain(a) && y + Joined(a) == t + Joined(b)
    ensures |t| <= |y| && y == t + y[|t|..] && y[|t|..] + Joined(a) == Joined(b)
  {
    hide Joined;
    JoinedStart(a);
    var whole := y + Joined(a);
    assert a != [] ==> whole[|y|] == '|';
    assert forall k :: 0 <= k < |t| ==> whole[k] == t[k] != '|';
    assert t == whole[..|t|] == y[..|t|];
    assert y[|t|..] + Joined(a) == whole[|t|..] == Joined(b);
  }

  // A tenant's name that is another's with the terms of some query behind it.
  ghost predicate Extends(t: string, u: string, terms: seq<string>) {
    AllPlain(terms) && t == u + Joined(Canonical(terms))
  }

  ghost predicate Shares(g: nat, t: string, a: seq<string>, h: nat, u: string, b: seq<string>) {
    AllPlain(a) && AllPlain(b) && CorpusKey(g, t, a) == CorpusKey(h, u, b)
  }

  // Two tenants share some key, at any generations and for terms without bars,
  // exactly when one name is the other with the joined terms of a query behind it,
  // none at all being the same tenant.
  lemma TenantsShareIff(t: string, u: string)
    ensures (exists g, a, h, b :: Shares(g, t, a, h, u, b)) <==> (exists c :: Extends(t, u, c) || Extends(u, t, c))
  {
    hide Canonical, Decimal, Joined, AllPlain;
    NothingPlain();
    if g, a, h, b :| Shares(g, t, a, h, u, b) {
      CanonicalPlain(a);
      CanonicalPlain(b);
      SharedTail(g, t, Canonical(a), h, u, Canonical(b));
      if |u| <= |t| {
        TailExtends(t, a, u, b);
      } else {
        TailExtends(u, b, t, a);
      }
    }
    if c :| Extends(t, u, c) || Extends(u, t, c) {
      if Extends(t, u, c) {
        assert t + "" == t;
        assert Shares(0, t, [], 0, u, c);
      } else {
        assert u + "" == u;
        assert Shares(0, t, c, 0, u, []);
      }
    }
  }

  lemma NothingPlain()
    ensures AllPlain([]) && Canonical([]) == [] && Joined([]) == ""
  {
  }

  lemma SharedTail(g: nat, t: string, a: seq<string>, h: nat, u: string, b: seq<string>)
    requires Decimal(g) + "|" + t + Joined(a) == Decimal(h) + "|" + u + Joined(b)
    ensures t + Joined(a) == u + Joined(b)
  {
    hide Decimal, Joined;
    assert Decimal(g) + "|" + t + Joined(a) == Decimal(g) + ['|'] + (t + Joined(a));
    assert Decimal(h) + "|" + u + Joined(b) == Decimal(h) + ['|'] + (u + Joined(b));
    DecimalSplit(g, t + Joined(a), h, u + Joined(b), '|');
  }

  lemma TailExtends(t: string, a: seq<string>, u: string, b: seq<string>)
    requires |u| <= |t| && AllPlain(a) && AllPlain(b) && t + Joined(Canonical(a)) == u + Joined(Canonical(b))
    ensures exists c :: Extends(t, u, c)
  {
    hide Canonical, Joined;
    CanonicalPlain(a);
    CanonicalPlain(b);
    var x, whole := t[|u|..], t + Joined(Canonical(a));
    assert u == whole[..|u|] == t[..|u|] && t == u + x;
    assert x + Joined(Canonical(a)) == whole[|u|..] == Joined(Canonical(b));
    var n := JoinedCut(x, Canonical(a), Canonical(b));
    CanonicalPrefix(b, n);
    assert Extends(t, u, Canonical(b)[..n]);
  }

  // So every tenant whose name holds a bar shares a key with another.
  lemma BarCollides(gen: nat, t: string) returns (u: string, term: string)
    requires !Plain(t)
    ensures u != t && Plain(term) && CorpusKey(gen, t, []) == CorpusKey(gen, u, [term])
  {
    var i := LastBar(t);
    u, term := t[..i], t[i + 1..];
    assert t == u + ("|" + term);
    CanonicalOne(term);
    assert Joined([term]) == "|" + term + Joined([]);
    assert Joined([term]) == "|" + term && t + "" == t;
  }

  lemma {:induction false} LastBar(t: string) returns (i: nat)
    requires !Plain(t)
    ensures i < |t| && t[i] == '|' && Plain(t[i + 1..])
  {
    var n := |t| - 1;
    if t[n] == '|' {
      i := n;
      assert t[i + 1..] == "";
    } else {
      assert t == t[..n] + [t[n]];
      i := LastBar(t[..n]);
      assert t[i + 1..] == t[..n][i + 1..] + [t[n]];
    }
  }

  lemma CanonicalOne(term: string)
    ensures Canonical([]) == [] && Canonical([term]) == [term]
  {
    assert Insert(StrLess, term, []) == [term];
    assert [term][1..] == [];
  }
}
