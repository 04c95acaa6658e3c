// acl/acl.go, acl/ref.go and acl/fingerprint.go: the permission rule, and how a
// cache key names one principal's view. A Go string is a sequence
// of bytes, one char each.
module Acl {
  import opened Order
  import opened Encoding

  datatype Ref = Ref(source: string, value: string)

  datatype GroupSet = GroupSet(version: nat, members: seq<string>)

  datatype PrincipalKind = KindUser | KindService | KindAgent

  datatype Principal = Principal(
    tenant: string, subject: string, kind: PrincipalKind, identities: seq<Ref>,
    groups: GroupSet, roles: seq<string>, onBehalfOf: string)

  // Stored permissions may hold any number here, not only the four that mean
  // something.
  datatype Mode = ModeUnknown | ModeACL | ModePublicToTenant | ModeOwnerOnly | Unrecognised(code: nat)

  datatype Permissions = Permissions(
    mode: Mode, owner: Ref, allowUsers: seq<Ref>, allowGroups: seq<Ref>,
    denyUsers: seq<Ref>, denyGroups: seq<Ref>)

  datatype Rule = NoPrincipal | Unresolved | Denied | Owner | OwnerOnly | Tenant | Listed | NotListed

  const NOBODY := Ref("", "")

  datatype Decision = Decision(allowed: bool, rule: Rule, ref: Ref)

  // ---- Keys: the strings both sides of the rule compare.

  function Lower(s: string): string {
    seq(|s|, i requires 0 <= i < |s| => if 'A' <= s[i] <= 'Z' then ((s[i] as int) + 32) as char else s[i])
  }

  function UserKey(r: Ref): string {
    if r.source == "" then r.value else Lower(r.source) + ":" + r.value
  }

  function GroupKey(r: Ref): string {
    if r.source == "" then r.value else r.source + ":" + r.value
  }

  // Two spellings fold to one exactly when they differ at most in the case of
  // letters.
  lemma LowerIff(a: string, b: string)
    ensures Lower(a) == Lower(b) <==> OneSpelling(a, b)
  {
    if Lower(a) == Lower(b) {
      assert |a| == |Lower(a)| == |b|;
      forall i | 0 <= i < |a| ensures a[i] == b[i] || OneLetter(a[i], b[i]) || OneLetter(b[i], a[i]) {
        assert Lower(a)[i] == Lower(b)[i];
      }
    }
  }

  ghost predicate OneSpelling(a: string, b: string) {
    |a| == |b| && forall i :: 0 <= i < |a| ==> a[i] == b[i] || OneLetter(a[i], b[i]) || OneLetter(b[i], a[i])
  }

  // A capital and its small letter.
  predicate OneLetter(upper: char, lower: char) {
    'A' <= upper <= 'Z' && lower as int == upper as int + 32
  }

  // Between sources with names, and no colon in them, two users are one exactly when
  // the values are equal and the sources but for case; two groups when both are.
  lemma KeysTell(a: Ref, b: Ref)
    requires a.source != "" && b.source != "" && ':' !in a.source && ':' !in b.source
    ensures UserKey(a) == UserKey(b) <==> Lower(a.source) == Lower(b.source) && a.value == b.value
    ensures GroupKey(a) == GroupKey(b) <==> a == b
  {
    if GroupKey(a) == GroupKey(b) {
      SplitAt(a.source, a.value, b.source, b.value, ':');
    }
    if UserKey(a) == UserKey(b) {
      assert ':' !in Lower(a.source) && ':' !in Lower(b.source) by { NoColon(a.source); NoColon(b.source); }
      SplitAt(Lower(a.source), a.value, Lower(b.source), b.value, ':');
    }
  }

  lemma NoColon(s: string)
    requires ':' !in s
    ensures ':' !in Lower(s)
  {
    forall i | 0 <= i < |s| ensures Lower(s)[i] != ':' {
      assert s[i] in s;
    }
  }

  function AddKeys(keys: seq<string>, ids: seq<Ref>): seq<string>
    decreases |ids|
  {
    if ids == [] then keys
    else
      var k := UserKey(ids[0]);
      AddKeys(if k != "" && k !in keys then keys + [k] else keys, ids[1..])
  }

  function UserKeys(p: Principal): seq<string> {
    AddKeys(if p.subject != "" then [p.subject] else [], p.identities)
  }

  function GroupKeys(p: Principal): seq<string> {
    p.groups.members
  }

  method CollectUserKeys(p: Option<Principal>) returns (keys: seq<string>)
    ensures keys == if p.None? then [] else UserKeys(p.value)
  {
    if p.None? {
      return [];
    }
    keys := [];
    if p.value.subject != "" {
      keys := keys + [p.value.subject];
    }
    ghost var start := if p.value.subject != "" then [p.value.subject] else [];
    assert keys == start;
    var ids := p.value.identities;
    for i := 0 to |ids|
      invariant AddKeys(keys, ids[i..]) == AddKeys(start, ids)
    {
      assert ids[i..][1..] == ids[i + 1..];
      var k := UserKey(ids[i]);
      if k != "" && k !in keys {
        keys := keys + [k];
      }
    }
    assert ids[|ids|..] == [];
  }

  // A principal's user keys: the subject, first, and every identity's key, none empty
  // and none twice.
  lemma UserKeysHold(p: Principal, k: string)
    ensures k in UserKeys(p) <==>
            k != "" && (k == p.subject || exists i :: 0 <= i < |p.identities| && UserKey(p.identities[i]) == k)
    ensures Distinct(UserKeys(p)) && (p.subject != "" ==> UserKeys(p) != [] && UserKeys(p)[0] == p.subject)
  {
    hide UserKey, AddKeys;
    AddKeysHold(if p.subject != "" then [p.subject] else [], p.identities, k);
    AddKeysExtend(if p.subject != "" then [p.subject] else [], p.identities);
  }

  lemma {:induction false} AddKeysExtend(keys: seq<string>, ids: seq<Ref>)
    ensures keys <= AddKeys(keys, ids)
    decreases |ids|
  {
    if ids != [] {
      var k := UserKey(ids[0]);
      AddKeysExtend(if k != "" && k !in keys then keys + [k] else keys, ids[1..]);
    }
  }

  lemma {:induction false} AddKeysHold(keys: seq<string>, ids: seq<Ref>, k: string)
    requires Distinct(keys) && "" !in keys
    ensures k in AddKeys(keys, ids) <==> k in keys || (k != "" && exists i :: 0 <= i < |ids| && UserKey(ids[i]) == k)
    ensures Distinct(AddKeys(keys, ids)) && "" !in AddKeys(keys, ids)
    decreases |ids|
  {
    if ids != [] {
      var first := UserKey(ids[0]);
      AddKeysHold(if first != "" && first !in keys then keys + [first] else keys, ids[1..], k);
      if k != "" && k == first { assert UserKey(ids[0]) == k; }
      forall i | 0 <= i < |ids[1..]| ensures ids[1..][i] == ids[i + 1] { }
    }
  }

  // ---- The rule.

  function First(keys: seq<string>, refs: seq<Ref>, key: Ref -> string): Option<Ref> {
    if refs == [] then None
    else if key(refs[0]) in keys then Some(refs[0])
    else First(keys, refs[1..], key)
  }

  method MatchesKey(keys: seq<string>, refs: seq<Ref>, key: Ref -> string) returns (found: Ref, ok: bool)
    ensures First(keys, refs, key) == if ok then Some(found) else None
    ensures !ok ==> found == NOBODY
  {
    for i := 0 to |refs|
      invariant First(keys, refs, key) == First(keys, refs[i..], key)
    {
      assert refs[i..][1..] == refs[i + 1..];
      if key(refs[i]) in keys {
        return refs[i], true;
      }
    }
    return NOBODY, false;
  }

  function MatchesUser(p: Principal, refs: seq<Ref>): Option<Ref> {
    First(UserKeys(p), refs, UserKey)
  }

  function MatchesGroup(p: Principal, refs: seq<Ref>): Option<Ref> {
    First(GroupKeys(p), refs, GroupKey)
  }

  function IsOwner(perm: Permissions, p: Principal): bool {
    perm.owner.value != "" && MatchesUser(p, [perm.owner]).Some?
  }

  function Decide(perm: Permissions, asking: Option<Principal>): Decision {
    if asking.None? then Decision(false, NoPrincipal, NOBODY)
    else
      var p := asking.value;
      if perm.mode == ModeUnknown then Decision(false, Unresolved, NOBODY)
      else if MatchesUser(p, perm.denyUsers).Some? then
        Decision(false, Denied, MatchesUser(p, perm.denyUsers).value)
      else if MatchesGroup(p, perm.denyGroups).Some? then
        Decision(false, Denied, MatchesGroup(p, perm.denyGroups).value)
      else if IsOwner(perm, p) then Decision(true, Owner, perm.owner)
      else
        match perm.mode
        case ModeOwnerOnly => Decision(false, OwnerOnly, NOBODY)
        case ModePublicToTenant => Decision(true, Tenant, NOBODY)
        case ModeACL =>
          if MatchesUser(p, perm.allowUsers).Some? then
            Decision(true, Listed, MatchesUser(p, perm.allowUsers).value)
          else if MatchesGroup(p, perm.allowGroups).Some? then
            Decision(true, Listed, MatchesGroup(p, perm.allowGroups).value)
          else Decision(false, NotListed, NOBODY)
        case _ => Decision(false, NotListed, NOBODY)
  }

  function Allows(perm: Permissions, asking: Option<Principal>): bool {
    Decide(perm, asking).allowed
  }

  ghost predicate Names(keys: seq<string>, refs: seq<Ref>, key: Ref -> string) {
    exists i :: 0 <= i < |refs| && key(refs[i]) in keys
  }

  lemma {:induction false} FirstIffNames(keys: seq<string>, refs: seq<Ref>, key: Ref -> string)
    ensures First(keys, refs, key).Some? <==> Names(keys, refs, key)
  {
    if refs != [] {
      FirstIffNames(keys, refs[1..], key);
      if key(refs[0]) !in keys && Names(keys, refs, key) {
        var i :| 0 <= i < |refs| && key(refs[i]) in keys;
        assert refs[1..][i - 1] == refs[i];
      }
    }
  }

  // The rule without its order: resolved, not denied, and owned, public or
  // listed. A deny beats every allow, and an unresolved mode beats both.
  lemma AllowsIff(perm: Permissions, p: Principal)
    ensures Allows(perm, Some(p)) <==>
      && perm.mode != ModeUnknown
      && !Names(UserKeys(p), perm.denyUsers, UserKey) && !Names(GroupKeys(p), perm.denyGroups, GroupKey)
      && (|| (perm.owner.value != "" && UserKey(perm.owner) in UserKeys(p))
          || perm.mode == ModePublicToTenant
          || (perm.mode == ModeACL && (|| Names(UserKeys(p), perm.allowUsers, UserKey)
                                       || Names(GroupKeys(p), perm.allowGroups, GroupKey))))
  {
    FirstIffNames(UserKeys(p), perm.denyUsers, UserKey);
    FirstIffNames(GroupKeys(p), perm.denyGroups, GroupKey);
    FirstIffNames(UserKeys(p), perm.allowUsers, UserKey);
    FirstIffNames(GroupKeys(p), perm.allowGroups, GroupKey);
    FirstIffNames(UserKeys(p), [perm.owner], UserKey);
    assert UserKey([perm.owner][0]) == UserKey(perm.owner);
  }

  // The first of some references that is held.
  ghost predicate FirstHeld(keys: seq<string>, refs: seq<Ref>, key: Ref -> string, ref: Ref) {
    exists i :: 0 <= i < |refs| && refs[i] == ref && key(ref) in keys && forall j :: 0 <= j < i ==>
          key(refs[j]) !in keys
  }

  lemma {:induction false} FirstIs(keys: seq<string>, refs: seq<Ref>, key: Ref -> string)
    ensures First(keys, refs, key).Some? ==> FirstHeld(keys, refs, key, First(keys, refs, key).value)
  {
    if refs != [] {
      if key(refs[0]) in keys {
        assert refs[0] == First(keys, refs, key).value;
      } else if First(keys, refs, key).Some? {
        var ref := First(keys, refs, key).value;
        FirstIs(keys, refs[1..], key);
        var i :| 0 <= i < |refs[1..]| && refs[1..][i] == ref && key(ref) in keys
                 && forall j :: 0 <= j < i ==> key(refs[1..][j]) !in keys;
        assert refs[i + 1] == ref;
        forall j | 0 <= j < i + 1 ensures key(refs[j]) !in keys {
          if j > 0 { assert refs[1..][j - 1] == refs[j]; }
        }
      }
    }
  }

  // Of users, or failing that of groups, the first that is held.
  ghost predicate Settles(p: Principal, users: seq<Ref>, groups: seq<Ref>, ref: Ref) {
    || FirstHeld(UserKeys(p), users, UserKey, ref)
    || (!Names(UserKeys(p), users, UserKey) && FirstHeld(GroupKeys(p), groups, GroupKey, ref))
  }

  // Every decision names the rule that made it, and the reference that settled it.
  lemma DecisionSays(perm: Permissions, p: Principal)
    ensures var d := Decide(perm, Some(p));
            var owner := perm.owner.value != "" && UserKey(perm.owner) in UserKeys(p);
            match d.rule
            case NoPrincipal => false
            case Unresolved => !d.allowed && perm.mode == ModeUnknown
            case Denied => !d.allowed && perm.mode != ModeUnknown && Settles(p, perm.denyUsers, perm.denyGroups, d.ref)
            case Owner => d.allowed && owner && d.ref == perm.owner
            case Tenant => d.allowed && !owner && perm.mode == ModePublicToTenant
            case Listed => d.allowed && !owner && perm.mode == ModeACL
                && Settles(p, perm.allowUsers, perm.allowGroups, d.ref)
            case OwnerOnly => !d.allowed && !owner && perm.mode == ModeOwnerOnly
            case NotListed =>
              && !d.allowed && !owner && (perm.mode == ModeACL || perm.mode.Unrecognised?)
              && (perm.mode == ModeACL ==> !Names(UserKeys(p), perm.allowUsers, UserKey)
                                           && !Names(GroupKeys(p), perm.allowGroups, GroupKey))
    ensures Decide(perm, Some(p)).rule in {Unresolved, Tenant, OwnerOnly, NotListed} ==>
          Decide(perm, Some(p)).ref == NOBODY
    ensures Decide(perm, None) == Decision(false, NoPrincipal, NOBODY)
  {
    hide UserKeys, GroupKeys, UserKey, GroupKey, FirstHeld, Names;
    FirstIffNames(UserKeys(p), perm.denyUsers, UserKey);
    FirstIffNames(GroupKeys(p), perm.denyGroups, GroupKey);
    FirstIffNames(UserKeys(p), perm.allowUsers, UserKey);
    FirstIffNames(GroupKeys(p), perm.allowGroups, GroupKey);
    FirstIs(UserKeys(p), perm.denyUsers, UserKey);
    FirstIs(GroupKeys(p), perm.denyGroups, GroupKey);
    FirstIs(UserKeys(p), perm.allowUsers, UserKey);
    FirstIs(GroupKeys(p), perm.allowGroups, GroupKey);
    OwnerIs(perm, p);
  }

  lemma OwnerIs(perm: Permissions, p: Principal)
    ensures IsOwner(perm, p) <==> perm.owner.value != "" && UserKey(perm.owner) in UserKeys(p)
  {
    hide UserKeys, UserKey;
    assert First(UserKeys(p), [perm.owner], UserKey).Some? <==> UserKey([perm.owner][0]) in UserKeys(p);
  }

  // ---- The fingerprint.

  // What is written for one list of keys: how many, then each.
  function KeyStream(keys: seq<string>): string {
    Prefixed(Decimal(|Canonical(keys)|)) + AllPrefixed(Canonical(keys))
  }

  // Every byte that reaches the hash for a principal.
  function Stream(p: Principal): string {
    Prefixed(p.tenant) + Prefixed(Decimal(p.groups.version)) + KeyStream(UserKeys(p)) + KeyStream(GroupKeys(p))
  }

  // The loop over one sorted list of keys.
  method WriteKeys(h: string, keys: seq<string>) returns (h': string)
    ensures h' == h + KeyStream(keys)
  {
    hide Prefixed;
    var sorted := Canonical(keys);
    h' := h + Prefixed(Decimal(|sorted|));
    ghost var counted := h';
    for i := 0 to |sorted|
      invariant h' + AllPrefixed(sorted[i..]) == counted + AllPrefixed(sorted)
    {
      assert sorted[i..][1..] == sorted[i + 1..];
      assert h' + AllPrefixed(sorted[i..]) == h' + Prefixed(sorted[i]) + AllPrefixed(sorted[i + 1..]);
      h' := h' + Prefixed(sorted[i]);
    }
    assert AllPrefixed(sorted[|sorted|..]) == "" && h' + "" == h';
    assert counted + AllPrefixed(sorted) == h + KeyStream(keys);
  }

  // The hash state is the bytes written to it. What follows the last write, a
  // truncated SHA-256 in hex, is a function of these bytes and nothing else; nil
  // writes nothing and names nobody.
  method Fingerprint(asking: Option<Principal>) returns (written: Option<string>)
    ensures written == if asking.None? then None else Some(Stream(asking.value))
  {
    hide Prefixed, AllPrefixed, KeyStream;
    if asking.None? {
      return None;
    }
    var p := asking.value;
    var h := Prefixed(p.tenant);
    h := h + Prefixed(Decimal(p.groups.version));
    var userKeys := CollectUserKeys(asking);
    h := WriteKeys(h, userKeys);
    h := WriteKeys(h, GroupKeys(p));
    return Some(h);
  }

  lemma KeyStreamSplit(a: seq<string>, r: string, b: seq<string>, s: string)
    requires KeyStream(a) + r == KeyStream(b) + s
    ensures Elements(a) == Elements(b) && r == s
  {
    hide Prefixed, AllPrefixed, Canonical, Decimal;
    var ca, cb := Canonical(a), Canonical(b);
    assert KeyStream(a) + r == Prefixed(Decimal(|ca|)) + (AllPrefixed(ca) + r);
    assert KeyStream(b) + s == Prefixed(Decimal(|cb|)) + (AllPrefixed(cb) + s);
    PrefixedSplit(Decimal(|ca|), AllPrefixed(ca) + r, Decimal(|cb|), AllPrefixed(cb) + s);
    DecimalInjective(|ca|, |cb|);
    AllPrefixedSplit(ca, r, cb, s);
    CanonicalIff(a, b);
  }

  ghost predicate SameKeys(p: Principal, q: Principal) {
    Elements(UserKeys(p)) == Elements(UserKeys(q)) && Elements(GroupKeys(p)) == Elements(GroupKeys(q))
  }

  // The bytes are uniquely decodable, up to the order and repetition of keys
  // that the rule does not see either.
  lemma StreamIff(p: Principal, q: Principal)
    ensures Stream(p) == Stream(q) <==>
            p.tenant == q.tenant && p.groups.version == q.groups.version && SameKeys(p, q)
  {
    hide Prefixed, Decimal, UserKeys, GroupKeys, Canonical, AllPrefixed, Elements;
    CanonicalIff(UserKeys(p), UserKeys(q));
    CanonicalIff(GroupKeys(p), GroupKeys(q));
    StreamSplit(p, q);
  }

  lemma StreamSplit(p: Principal, q: Principal)
    ensures Stream(p) == Stream(q) ==> p.tenant == q.tenant && p.groups.version == q.groups.version && SameKeys(p, q)
  {
    hide Prefixed, Decimal, UserKeys, GroupKeys, KeyStream, Elements;
    if Stream(p) != Stream(q) { return; }
    var vp, vq := Decimal(p.groups.version), Decimal(q.groups.version);
    var up, uq := KeyStream(UserKeys(p)), KeyStream(UserKeys(q));
    var gp, gq := KeyStream(GroupKeys(p)), KeyStream(GroupKeys(q));
    assert Stream(p) == Prefixed(p.tenant) + (Prefixed(vp) + (up + gp));
    assert Stream(q) == Prefixed(q.tenant) + (Prefixed(vq) + (uq + gq));
    PrefixedSplit(p.tenant, Prefixed(vp) + (up + gp), q.tenant, Prefixed(vq) + (uq + gq));
    PrefixedSplit(vp, up + gp, vq, uq + gq);
    DecimalInjective(p.groups.version, q.groups.version);
    KeyStreamSplit(UserKeys(p), gp, UserKeys(q), gq);
    assert gp + "" == gp && gq + "" == gq;
    KeyStreamSplit(GroupKeys(p), "", GroupKeys(q), "");
  }

  lemma {:induction false} FirstBySet(a: seq<string>, b: seq<string>, refs: seq<Ref>, key: Ref -> string)
    requires Elements(a) == Elements(b)
    ensures First(a, refs, key) == First(b, refs, key)
  {
    if refs != [] {
      assert key(refs[0]) in a <==> key(refs[0]) in Elements(b);
      FirstBySet(a, b, refs[1..], key);
    }
  }

  lemma DecideBySet(perm: Permissions, p: Principal, q: Principal)
    requires SameKeys(p, q)
    ensures Decide(perm, Some(p)) == Decide(perm, Some(q))
  {
    FirstBySet(UserKeys(p), UserKeys(q), perm.denyUsers, UserKey);
    FirstBySet(GroupKeys(p), GroupKeys(q), perm.denyGroups, GroupKey);
    FirstBySet(UserKeys(p), UserKeys(q), [perm.owner], UserKey);
    FirstBySet(UserKeys(p), UserKeys(q), perm.allowUsers, UserKey);
    FirstBySet(GroupKeys(p), GroupKeys(q), perm.allowGroups, GroupKey);
  }

  // A document only the holder of one user key, or one group key, may read.
  function OnlyUser(k: string): Permissions {
    Permissions(ModeACL, NOBODY, [Ref("", k)], [], [], [])
  }

  function OnlyGroup(k: string): Permissions {
    Permissions(ModeACL, NOBODY, [], [Ref("", k)], [], [])
  }

  lemma OnlyDecides(p: Principal, k: string)
    ensures Decide(OnlyUser(k), Some(p)).allowed <==> k in UserKeys(p)
    ensures Decide(OnlyGroup(k), Some(p)).allowed <==> k in GroupKeys(p)
  {
    assert First(UserKeys(p), [Ref("", k)], UserKey).Some? <==> k in UserKeys(p);
    assert First(GroupKeys(p), [Ref("", k)], GroupKey).Some? <==> k in GroupKeys(p);
  }

  ghost predicate SameView(p: Principal, q: Principal) {
    forall perm :: Decide(perm, Some(p)) == Decide(perm, Some(q))
  }

  lemma SameViewIff(p: Principal, q: Principal)
    ensures SameView(p, q) <==> SameKeys(p, q)
  {
    if SameKeys(p, q) {
      forall perm ensures Decide(perm, Some(p)) == Decide(perm, Some(q)) { DecideBySet(perm, p, q); }
    }
    if SameView(p, q) {
      forall k ensures k in UserKeys(p) <==> k in UserKeys(q) {
        OnlyDecides(p, k);
        OnlyDecides(q, k);
        assert Decide(OnlyUser(k), Some(p)) == Decide(OnlyUser(k), Some(q));
      }
      forall k ensures k in GroupKeys(p) <==> k in GroupKeys(q) {
        OnlyDecides(p, k);
        OnlyDecides(q, k);
        assert Decide(OnlyGroup(k), Some(p)) == Decide(OnlyGroup(k), Some(q));
      }
      assert Elements(UserKeys(p)) == Elements(UserKeys(q));
      assert Elements(GroupKeys(p)) == Elements(GroupKeys(q));
    }
  }

  // One stream, one view: equal streams mean one tenant, one group version and one
  // decision on each possible descriptor, with the same rule and reference behind
  // it. The converse holds too.
  lemma FingerprintIsTheView(p: Principal, q: Principal)
    ensures Stream(p) == Stream(q) <==>
            p.tenant == q.tenant && p.groups.version == q.groups.version && SameView(p, q)
  {
    StreamIff(p, q);
    SameViewIff(p, q);
  }
}
