// doc/doc.go and store/retrieve.go: the document, and the definition of a match
// set that every driver is held to.
module Retrieve {
  import opened Encoding
  import opened Acl

  // Nanoseconds since the Unix epoch, unbounded; the zero time is the first
  // instant of the year 1.
  type Time = int
  const ZERO_TIME: Time := -62135596800 * 1_000_000_000

  datatype Person = Person(subject: string, identity: Ref, name: string, email: string)

  // `terms` is what the analyzer makes of the title and then of the body.
  datatype Document = Document(
    id: string, tenant: string, source: string, kind: string, container: string,
    author: Person, owner: Person, modifiedAt: Time, terms: seq<string>, body: string,
    sourceUpdate: string, permissions: Permissions)

  predicate Queryable(d: Document) {
    d.id != "" && d.tenant != "" && d.permissions.mode != ModeUnknown
  }

  datatype Request = Request(
    terms: seq<string>, sources: seq<string>, kinds: seq<string>, containers: seq<string>,
    authors: seq<string>, owners: seq<string>, since: Time, until: Time)

  // What can be ticked, from top to bottom.
  datatype Field = Source | Kind | Container | Author

  const FACET_FIELDS: seq<Field> := [Source, Kind, Container, Author]

  function Without(r: Request, f: Field): Request {
    match f
    case Source => r.(sources := [])
    case Kind => r.(kinds := [])
    case Container => r.(containers := [])
    case Author => r.(authors := [])
  }

  function Lift(r: Request, fields: seq<Field>): Request
    decreases |fields|
  {
    if fields == [] then r else Lift(Without(r, fields[0]), fields[1..])
  }

  function WithoutFacets(r: Request): Request {
    Lift(r, FACET_FIELDS)
  }

  // ---- Comparing text.

  function Fold(s: string): string {
    Lower(s)
  }

  predicate ContainsFold(haystack: seq<string>, needle: string) {
    needle != "" && exists i :: 0 <= i < |haystack| && haystack[i] != "" && Fold(haystack[i]) == Fold(needle)
  }

  method ScanFold(haystack: seq<string>, needle: string) returns (found: bool)
    ensures found == ContainsFold(haystack, needle)
  {
    if needle == "" {
      return false;
    }
    var folded := Fold(needle);
    for i := 0 to |haystack|
      invariant forall k :: 0 <= k < i ==> haystack[k] == "" || Fold(haystack[k]) != folded
    {
      if haystack[i] != "" && Fold(haystack[i]) == folded {
        return true;
      }
    }
    return false;
  }

  // strings.Cut at the first "@", and what stands before it.
  function LocalPart(email: string): string {
    if email == "" || email[0] == '@' then "" else [email[0]] + LocalPart(email[1..])
  }

  function Handles(p: Person): seq<string> {
    [p.subject, p.email, p.name, p.identity.value] + (if '@' in p.email then [LocalPart(p.email)] else [])
  }

  // One of the names somebody has in mind, folded.
  predicate NamesPerson(p: Person, key: string) {
    exists i :: 0 <= i < |Handles(p)| && Handles(p)[i] != "" && Fold(Handles(p)[i]) == key
  }

  method PersonKeys(p: Person) returns (out: seq<string>)
    ensures forall k :: k in out <==> NamesPerson(p, k)
    ensures forall i, j :: 0 <= i < j < |out| ==> out[i] != out[j]
  {
    out := [];
    var candidates := Handles(p);
    for i := 0 to |candidates|
      invariant forall k :: k in out <==> exists j :: 0 <= j < i && candidates[j] != "" && Fold(candidates[j]) == k
      invariant forall i, j :: 0 <= i < j < |out| ==> out[i] != out[j]
    {
      if candidates[i] == "" {
        continue;
      }
      var k := Fold(candidates[i]);
      if k !in out {
        out := out + [k];
      }
    }
  }

  predicate MatchesPerson(values: seq<string>, p: Person) {
    exists i :: 0 <= i < |values| && values[i] != "" && NamesPerson(p, Fold(values[i]))
  }

  // ---- The match set.

  predicate MatchesTerms(r: Request, d: Document) {
    r.terms == [] || exists i :: 0 <= i < |d.terms| && d.terms[i] in r.terms
  }

  predicate Filters(r: Request, d: Document) {
    && (r.sources != [] ==> d.source in r.sources)
    && (r.kinds != [] ==> d.kind in r.kinds)
    && (r.containers != [] ==> ContainsFold(r.containers, d.container))
    && (r.authors != [] ==> MatchesPerson(r.authors, d.author))
    && (r.owners != [] ==> MatchesPerson(r.owners, d.owner))
    && (r.since != ZERO_TIME ==> d.modifiedAt >= r.since)
    && (r.until != ZERO_TIME ==> d.modifiedAt <= r.until)
  }

  predicate Matches(r: Request, d: Document) {
    Filters(r, d) && MatchesTerms(r, d)
  }

  // A person goes by their subject, address, name or identity, and by what stands
  // before the first @ of the address.
  ghost predicate IsName(p: Person, name: string) {
    || name in {p.subject, p.email, p.name, p.identity.value}
    || ('@' !in name && exists rest :: p.email == name + "@" + rest)
  }

  ghost predicate GoesBy(p: Person, value: string) {
    value != "" && exists name :: name != "" && IsName(p, name) && OneSpelling(value, name)
  }

  // A request's meaning: any one of the terms; and of each list that is not empty
  // the very source and kind, the container and the people in any case; and the
  // bounds, both included, where there are any.
  lemma MatchSays(r: Request, d: Document)
    ensures Matches(r, d) <==>
      && (r.terms == [] || exists t :: t in r.terms && t in d.terms)
      && (r.sources == [] || d.source in r.sources) && (r.kinds == [] || d.kind in r.kinds)
      && (r.containers == [] ||
          exists c :: c in r.containers && c != "" && d.container != "" && OneSpelling(c, d.container))
      && (r.authors == [] || exists v :: v in r.authors && GoesBy(d.author, v))
      && (r.owners == [] || exists v :: v in r.owners && GoesBy(d.owner, v))
      && (r.since == ZERO_TIME || r.since <= d.modifiedAt) && (r.until == ZERO_TIME || d.modifiedAt <= r.until)
  {
    hide ContainsFold, MatchesPerson, GoesBy, OneSpelling;
    ContainsSays(r.containers, d.container);
    PersonSays(r.authors, d.author);
    PersonSays(r.owners, d.owner);
    if t :| t in r.terms && t in d.terms {
      var i :| 0 <= i < |d.terms| && d.terms[i] == t;
    }
  }

  lemma ContainsSays(haystack: seq<string>, needle: string)
    ensures ContainsFold(haystack, needle) <==>
            exists c :: c in haystack && c != "" && needle != "" && OneSpelling(c, needle)
  {
    hide Lower, OneSpelling;
    forall c ensures Fold(c) == Fold(needle) <==> OneSpelling(c, needle) { LowerIff(c, needle); }
    if c :| c in haystack && c != "" && needle != "" && OneSpelling(c, needle) {
      var i :| 0 <= i < |haystack| && haystack[i] == c;
    }
  }

  lemma PersonSays(values: seq<string>, p: Person)
    ensures MatchesPerson(values, p) <==> exists v :: v in values && GoesBy(p, v)
  {
    hide GoesBy, NamesPerson;
    forall v ensures v != "" && NamesPerson(p, Fold(v)) <==> GoesBy(p, v) { NameSays(p, v); }
    if v :| v in values && GoesBy(p, v) {
      var i :| 0 <= i < |values| && values[i] == v;
    }
  }

  lemma NameSays(p: Person, v: string)
    ensures v != "" && NamesPerson(p, Fold(v)) <==> GoesBy(p, v)
  {
    hide Lower, OneSpelling, Handles, IsName;
    forall n ensures Fold(n) == Fold(v) <==> OneSpelling(v, n) { LowerIff(v, n); }
    forall n | n != "" ensures n in Handles(p) <==> IsName(p, n) { HandleSays(p, n); }
    if GoesBy(p, v) {
      var n :| n != "" && IsName(p, n) && OneSpelling(v, n);
      assert n in Handles(p);
      var i :| 0 <= i < |Handles(p)| && Handles(p)[i] == n;
    }
    if v != "" && NamesPerson(p, Fold(v)) {
      var i :| 0 <= i < |Handles(p)| && Handles(p)[i] != "" && Fold(Handles(p)[i]) == Fold(v);
      assert Handles(p)[i] in Handles(p);
    }
  }

  lemma HandleSays(p: Person, n: string)
    requires n != ""
    ensures n in Handles(p) <==> IsName(p, n)
  {
    hide LocalPart;
    LocalIs(p.email);
    if '@' in p.email {
      var local := LocalPart(p.email);
      if rest :| '@' !in n && p.email == n + "@" + rest {
        var back := p.email[|local| + 1..];
        SplitAt(n, rest, local, back, '@');
      }
      assert Handles(p)[4] == local;
      assert p.email == local + "@" + p.email[|local| + 1..];
    }
    assert Handles(p)[0] == p.subject && Handles(p)[1] == p.email && Handles(p)[2] == p.name;
    assert Handles(p)[3] == p.identity.value;
  }

  lemma {:induction false} LocalIs(email: string)
    ensures '@' !in LocalPart(email) && |LocalPart(email)| <= |email|
    ensures '@' in email ==>
              |LocalPart(email)| < |email| && email == LocalPart(email) + "@" + email[|LocalPart(email)| + 1..]
  {
    if email != "" && email[0] != '@' {
      LocalIs(email[1..]);
      assert email == [email[0]] + email[1..];
    }
  }

  // The name shown of a person: the name, or failing that the address, or failing
  // that the identity.
  lemma DisplaySays(p: Person)
    ensures p.name != "" ==> Display(p) == p.name
    ensures p.name == "" && p.email != "" ==> Display(p) == p.email
    ensures p.name == "" && p.email == "" ==> Display(p) == p.identity.value
  {
  }

  // The document has a ticked value of this field, or nothing is ticked there.
  predicate Passes(r: Request, f: Field, d: Document) {
    match f
    case Source => r.sources == [] || d.source in r.sources
    case Kind => r.kinds == [] || d.kind in r.kinds
    case Container => r.containers == [] || ContainsFold(r.containers, d.container)
    case Author => r.authors == [] || MatchesPerson(r.authors, d.author)
  }

  function ValueOf(f: Field, d: Document): string {
    match f
    case Source => d.source
    case Kind => d.kind
    case Container => d.container
    case Author => Display(d.author)
  }

  function Display(p: Person): string {
    if p.name != "" then p.name else if p.email != "" then p.email else p.identity.value
  }

  lemma WithoutFacetsLifts(r: Request)
    ensures WithoutFacets(r) == r.(sources := [], kinds := [], containers := [], authors := [])
  {
    var r1, r2, r3 := Without(r, Source), Without(Without(r, Source), Kind),
        r.(sources := [], kinds := [], containers := []);
    assert FACET_FIELDS[1..] == [Kind, Container, Author];
    assert Lift(r, FACET_FIELDS) == Lift(r1, [Kind, Container, Author]);
    assert [Kind, Container, Author][1..] == [Container, Author];
    assert Lift(r1, [Kind, Container, Author]) == Lift(r2, [Container, Author]);
    assert [Container, Author][1..] == [Author];
    assert Lift(r2, [Container, Author]) == Lift(r3, [Author]);
    assert [Author][1..] == [];
  }

  lemma EveryField()
    ensures forall f: Field :: f in FACET_FIELDS
    ensures forall i, j :: 0 <= i < j < |FACET_FIELDS| ==> FACET_FIELDS[i] != FACET_FIELDS[j]
  {
    forall f: Field ensures f in FACET_FIELDS {
      match f
      case Source => assert FACET_FIELDS[0] == f;
      case Kind => assert FACET_FIELDS[1] == f;
      case Container => assert FACET_FIELDS[2] == f;
      case Author => assert FACET_FIELDS[3] == f;
    }
  }

  // Filters taken apart: a request matches when the base does and every facet
  // constraint passes, and with one field lifted when the others pass.
  lemma MatchesApart(r: Request, f: Field, d: Document)
    ensures Matches(r, d) <==> Matches(WithoutFacets(r), d) && forall g :: Passes(r, g, d)
    ensures Matches(Without(r, f), d) <==>
            Matches(WithoutFacets(r), d) && forall g :: g != f ==> Passes(r, g, d)
  {
    WithoutFacetsLifts(r);
    assert (forall g :: Passes(r, g, d)) <==>
      Passes(r, Source, d) && Passes(r, Kind, d) && Passes(r, Container, d) && Passes(r, Author, d);
    assert (forall g :: g != f ==> Passes(r, g, d)) <==>
      && (f != Source ==> Passes(r, Source, d)) && (f != Kind ==> Passes(r, Kind, d))
      && (f != Container ==> Passes(r, Container, d)) && (f != Author ==> Passes(r, Author, d));
  }
}
