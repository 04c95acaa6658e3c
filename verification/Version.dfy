// directory/expand.go, fingerprint: what goes into the version of an expansion.
module Version {
  import opened Order
  import opened Encoding

  const NUL := '\0'

  function Terminated(names: seq<string>): string {
    if names == [] then "" else Terminated(names[..|names| - 1]) + names[|names| - 1] + [NUL]
  }

  // Every group with its revision, in order.
  function Pairs(ids: seq<string>, revisions: map<string, string>): (r: seq<string>)
    requires forall g :: g in ids ==> g in revisions
    ensures |r| == 2 * |ids|
    ensures forall i :: 0 <= i < |ids| ==> r[2 * i] == ids[i] && r[2 * i + 1] == revisions[ids[i]]
  {
    if ids == [] then []
    else
      var last := ids[|ids| - 1];
      Pairs(ids[..|ids| - 1], revisions) + [last, revisions[last]]
  }

  // Everything that is hashed.
  function Names(source: string, subject: string, ids: seq<string>, revisions: map<string, string>): seq<string>
    requires forall g :: g in ids ==> g in revisions
  {
    [source, subject] + Pairs(ids, revisions)
  }

  // The digest of what is written; but zero is kept for no version at all.
  predicate Stamps(hash: string -> nat, names: seq<string>, version: nat) {
    var digest := hash(Terminated(names));
    version != 0 && (version == digest || (digest == 0 && version == 1))
  }

  // Two versions are equal exactly when the digests are, or are the two that come
  // out as one.
  lemma SameVersionIff(hash: string -> nat, a: seq<string>, v: nat, b: seq<string>, w: nat)
    requires Stamps(hash, a, v) && Stamps(hash, b, w)
    ensures var g, h := hash(Terminated(a)), hash(Terminated(b));
            v == w <==> g == h || {g, h} == {0, 1}
  {
    var g, h := hash(Terminated(a)), hash(Terminated(b));
    assert {g, h} == {0, 1} <==> (g == 0 && h == 1) || (g == 1 && h == 0) by {
      if {g, h} == {0, 1} {
        assert g in {0, 1} && h in {0, 1} && 0 in {g, h} && 1 in {g, h};
      }
    }
  }

  lemma TerminatedMore(names: seq<string>, name: string)
    ensures Terminated(names + [name]) == Terminated(names) + name + [NUL]
  {
    assert (names + [name])[..|names|] == names;
  }

  method Fingerprint(hash: string -> nat, source: string, subject: string, ids: seq<string>,
                     revisions: map<string, string>)
    returns (version: nat)
    requires forall g :: g in ids ==> g in revisions
    ensures Stamps(hash, Names(source, subject, ids, revisions), version)
  {
    hide Terminated;
    var written := source + [NUL] + subject + [NUL];
    ghost var names := [source, subject];
    assert written == Terminated(names) by { TwoNames(source, subject); }
    for i := 0 to |ids|
      invariant names == Names(source, subject, ids[..i], revisions) && written == Terminated(names)
    {
      assert ids[..i + 1][..i] == ids[..i];
      TerminatedMore(names, ids[i]);
      TerminatedMore(names + [ids[i]], revisions[ids[i]]);
      assert names + [ids[i]] + [revisions[ids[i]]] == names + [ids[i], revisions[ids[i]]];
      names := names + [ids[i], revisions[ids[i]]];
      written := written + ids[i] + [NUL] + revisions[ids[i]] + [NUL];
    }
    assert ids[..|ids|] == ids;
    version := hash(written);
    if version == 0 {
      version := 1;
    }
  }

  // Two answers get one version exactly when what is written for them has one
  // digest, or the two digests that come out as one.
  method TwoVersions(hash: string -> nat,
                     source: string, subject: string, ids: seq<string>, revisions: map<string, string>,
                     source': string, subject': string, ids': seq<string>, revisions': map<string, string>)
    returns (v: nat, w: nat)
    requires (forall g :: g in ids ==> g in revisions) && (forall g :: g in ids' ==> g in revisions')
    ensures var g := hash(Terminated(Names(source, subject, ids, revisions)));
            var h := hash(Terminated(Names(source', subject', ids', revisions')));
            v != 0 && w != 0 && (v == w <==> g == h || {g, h} == {0, 1})
  {
    v := Fingerprint(hash, source, subject, ids, revisions);
    w := Fingerprint(hash, source', subject', ids', revisions');
    SameVersionIff(hash, Names(source, subject, ids, revisions), v, Names(source', subject', ids', revisions'), w);
  }

  lemma TwoNames(source: string, subject: string)
    ensures Terminated([source, subject]) == source + [NUL] + subject + [NUL]
  {
    TerminatedMore([], source);
    TerminatedMore([source], subject);
    assert [] + [source] == [source] && [source] + [subject] == [source, subject];
    assert Terminated([]) + source + [NUL] == source + [NUL];
  }

  // ---- When two answers are hashed alike.

  predicate Whole(name: string) {
    NUL !in name
  }

  // A name taken apart at its NULs.
  function Split(name: string): (r: seq<string>)
    ensures |r| >= 1 && forall i :: 0 <= i < |r| ==> Whole(r[i])
  {
    if name == "" then [""]
    else
      var init, last := Split(name[..|name| - 1]), name[|name| - 1];
      if last == NUL then init + [""]
      else init[..|init| - 1] + [init[|init| - 1] + [last]]
  }

  function Apart(names: seq<string>): (r: seq<string>)
    ensures forall i :: 0 <= i < |r| ==> Whole(r[i])
  {
    if names == [] then [] else Apart(names[..|names| - 1]) + Split(names[|names| - 1])
  }

  lemma {:induction false} SplitWhole(name: string)
    requires Whole(name)
    ensures Split(name) == [name]
  {
    if name != "" {
      var rest, last := name[..|name| - 1], name[|name| - 1];
      assert name == rest + [last];
      SplitWhole(rest);
      assert [rest][..0] == [] && [] + [rest + [last]] == [name];
    }
  }

  lemma {:induction false} ApartWhole(names: seq<string>)
    requires forall i :: 0 <= i < |names| ==> Whole(names[i])
    ensures Apart(names) == names
  {
    if names != [] {
      ApartWhole(names[..|names| - 1]);
      SplitWhole(names[|names| - 1]);
    }
  }

  lemma {:induction false} TerminatedConcat(a: seq<string>, b: seq<string>)
    ensures Terminated(a + b) == Terminated(a) + Terminated(b)
  {
    if b == [] {
      assert a + b == a && Terminated(b) == "";
    } else {
      hide Terminated;
      var init, last := b[..|b| - 1], b[|b| - 1];
      TerminatedConcat(a, init);
      assert b == init + [last];
      ConcatMore(a, init, last);
    }
  }

  lemma ConcatMore(a: seq<string>, b: seq<string>, last: string)
    requires Terminated(a + b) == Terminated(a) + Terminated(b)
    ensures Terminated(a + (b + [last])) == Terminated(a) + Terminated(b + [last])
  {
    hide Terminated;
    TerminatedMore(a + b, last);
    TerminatedMore(b, last);
    assert a + b + [last] == a + (b + [last]);
    Regroup(Terminated(a), Terminated(b), last);
  }

  lemma Regroup(a: string, b: string, c: string)
    ensures a + b + c + [NUL] == a + (b + c + [NUL])
  {
  }

  lemma {:induction false} SplitTerminated(name: string)
    ensures Terminated(Split(name)) == name + [NUL]
  {
    hide Terminated;
    TerminatedMore([], "");
    if name == "" {
      assert Terminated([]) == "" by { Nothing(); }
      assert [] + [""] == [""];
    } else {
      var rest, last := name[..|name| - 1], name[|name| - 1];
      SplitTerminated(rest);
      assert name == rest + [last];
      if last == NUL {
        TerminatedMore(Split(rest), "");
      } else {
        LastLonger(Split(rest), rest, last);
      }
    }
  }

  lemma Nothing()
    ensures Terminated([]) == ""
  {
  }

  lemma LastLonger(init: seq<string>, rest: string, last: char)
    requires init != [] && Terminated(init) == rest + [NUL]
    ensures Terminated(init[..|init| - 1] + [init[|init| - 1] + [last]]) == rest + [last] + [NUL]
  {
    hide Terminated;
    var k := |init| - 1;
    TerminatedMore(init[..k], init[k]);
    assert init[..k] + [init[k]] == init;
    TerminatedMore(init[..k], init[k] + [last]);
    var body := Terminated(init[..k]) + init[k];
    assert body == rest by { assert (body + [NUL])[..|body|] == (rest + [NUL])[..|rest|]; }
    assert Terminated(init[..k]) + (init[k] + [last]) == body + [last];
  }

  // Taking names apart does not change what is hashed.
  lemma {:induction false} ApartSame(names: seq<string>)
    ensures Terminated(Apart(names)) == Terminated(names)
  {
    hide Split;
    if names != [] {
      var n := |names| - 1;
      ApartSame(names[..n]);
      SplitTerminated(names[n]);
      TerminatedConcat(Apart(names[..n]), Split(names[n]));
      assert Terminated(names[..n]) + (names[n] + [NUL]) == Terminated(names[..n]) + names[n] + [NUL];
    }
  }

  lemma {:induction false} Unread(a: seq<string>, b: seq<string>)
    requires (forall i :: 0 <= i < |a| ==> Whole(a[i])) && (forall i :: 0 <= i < |b| ==> Whole(b[i]))
    requires Terminated(a) == Terminated(b)
    ensures a == b
  {
    if a != [] && b != [] {
      TerminatedConcat([a[0]], a[1..]);
      TerminatedConcat([b[0]], b[1..]);
      assert [a[0]] + a[1..] == a && [b[0]] + b[1..] == b;
      TerminatedMore([], a[0]);
      TerminatedMore([], b[0]);
      assert [] + [a[0]] == [a[0]] && [] + [b[0]] == [b[0]];
      assert Terminated(a) == a[0] + [NUL] + Terminated(a[1..]);
      assert Terminated(b) == b[0] + [NUL] + Terminated(b[1..]);
      SplitAt(a[0], Terminated(a[1..]), b[0], Terminated(b[1..]), NUL);
      Unread(a[1..], b[1..]);
    }
  }

  // Two lists of names are hashed as one exactly when they are one once every
  // name is taken apart at its NULs.
  lemma HashedAlikeIff(a: seq<string>, b: seq<string>)
    ensures Terminated(a) == Terminated(b) <==> Apart(a) == Apart(b)
  {
    hide Apart, Terminated, Whole;
    ApartSame(a);
    ApartSame(b);
    if Terminated(a) == Terminated(b) {
      Unread(Apart(a), Apart(b));
    }
  }

  // So with no NUL in any name, one stream is one source, one revision of the
  // subject, one closure and one revision of each group in it.
  lemma OneAnswer(source: string, subject: string, ids: seq<string>, revisions: map<string, string>,
                  source': string, subject': string, ids': seq<string>, revisions': map<string, string>)
    requires Lists(StrLess, ids, revisions.Keys) && Lists(StrLess, ids', revisions'.Keys)
    requires forall i :: 0 <= i < 2 + 2 * |ids| ==> Whole(Names(source, subject, ids, revisions)[i])
    requires forall i :: 0 <= i < 2 + 2 * |ids'| ==> Whole(Names(source', subject', ids', revisions')[i])
    ensures Terminated(Names(source, subject, ids, revisions)) ==
            Terminated(Names(source', subject', ids', revisions')) <==>
            source == source' && subject == subject' && revisions == revisions'
  {
    hide Terminated, StrLess, Apart;
    var a, b := Names(source, subject, ids, revisions), Names(source', subject', ids', revisions');
    HashedAlikeIff(a, b);
    ApartWhole(a);
    ApartWhole(b);
    if a == b {
      SamePairs(ids, revisions, ids', revisions') by {
        assert Pairs(ids, revisions) == a[2..] && Pairs(ids', revisions') == b[2..];
      }
      assert a[0] == b[0] && a[1] == b[1];
    }
    if revisions == revisions' {
      StringsOrdered();
      ListingUnique(StrLess, ids, ids');
    }
  }

  // No digest is zero or two inputs' own.
  ghost predicate Collisionless(hash: string -> nat) {
    (forall a, b :: hash(a) == hash(b) ==> a == b) && forall a :: hash(a) != 0
  }

  ghost predicate AllWhole(source: string, subject: string, revisions: map<string, string>) {
    Whole(source) && Whole(subject) && forall g :: g in revisions ==> Whole(g) && Whole(revisions[g])
  }

  lemma OneVersion(hash: string -> nat,
                   source: string, subject: string, ids: seq<string>, revisions: map<string, string>, v: nat,
                   source': string, subject': string, ids': seq<string>, revisions': map<string, string>, w: nat)
    requires Collisionless(hash) && AllWhole(source, subject, revisions) && AllWhole(source', subject', revisions')
    requires Lists(StrLess, ids, revisions.Keys) && Lists(StrLess, ids', revisions'.Keys)
    requires Stamps(hash, Names(source, subject, ids, revisions), v)
    requires Stamps(hash, Names(source', subject', ids', revisions'), w)
    ensures v == w <==> source == source' && subject == subject' && revisions == revisions'
  {
    hide StrLess, Terminated, Stamps, Whole;
    NamesWhole(source, subject, ids, revisions);
    NamesWhole(source', subject', ids', revisions');
    OneAnswer(source, subject, ids, revisions, source', subject', ids', revisions');
    SameVersionIff(hash, Names(source, subject, ids, revisions), v, Names(source', subject', ids', revisions'), w);
  }

  lemma NamesWhole(source: string, subject: string, ids: seq<string>, revisions: map<string, string>)
    requires AllWhole(source, subject, revisions) && forall g :: g in ids ==> g in revisions
    ensures forall i :: 0 <= i < 2 + 2 * |ids| ==> Whole(Names(source, subject, ids, revisions)[i])
  {
    hide Whole;
    forall i | 0 <= i < 2 + 2 * |ids| ensures Whole(Names(source, subject, ids, revisions)[i]) {
      if i >= 2 {
        var k := (i - 2) / 2;
        assert ids[k] in ids && (i == 2 + 2 * k || i == 2 + (2 * k + 1));
      }
    }
  }

  lemma SamePairs(ids: seq<string>, revisions: map<string, string>, ids': seq<string>, revisions': map<string, string>)
    requires Lists(StrLess, ids, revisions.Keys) && Lists(StrLess, ids', revisions'.Keys)
    requires Pairs(ids, revisions) == Pairs(ids', revisions')
    ensures revisions == revisions'
  {
    hide StrLess;
    var pairs := Pairs(ids, revisions);
    assert |ids| == |ids'|;
    forall i | 0 <= i < |ids| ensures ids[i] == ids'[i] && revisions[ids[i]] == revisions'[ids[i]] {
      assert pairs[2 * i] == ids[i] && pairs[2 * i + 1] == revisions[ids[i]];
    }
    assert ids == ids';
  }

  // And with one it need not be: whatever the answer of two or more groups, moving
  // the last group into the revision of the one before it leaves the same bytes.
  function Merged(ids: seq<string>, revisions: map<string, string>): map<string, string>
    requires |ids| >= 2 && forall g :: g in ids ==> g in revisions
  {
    var g, h := ids[|ids| - 2], ids[|ids| - 1];
    (revisions - {h})[g := revisions[g] + [NUL] + h + [NUL] + revisions[h]]
  }

  lemma NulCollides(source: string, subject: string, ids: seq<string>, revisions: map<string, string>)
    requires |ids| >= 2 && Lists(StrLess, ids, revisions.Keys)
    ensures var fewer := ids[..|ids| - 1];
            && Lists(StrLess, fewer, Merged(ids, revisions).Keys) && Merged(ids, revisions) != revisions
            && Terminated(Names(source, subject, fewer, Merged(ids, revisions))) ==
               Terminated(Names(source, subject, ids, revisions))
  {
    hide StrLess, Terminated, Pairs, Lists, Merged;
    Listed(ids, revisions);
    var n, fewer, merged := |ids| - 2, ids[..|ids| - 1], Merged(ids, revisions);
    var g, h, start := ids[n], ids[n + 1], [source, subject] + Pairs(ids[..n], revisions);
    MergedLists(ids, revisions);
    LastPairs(ids, revisions);
    assert Names(source, subject, ids, revisions) == start + [g, revisions[g], h, revisions[h]];
    assert Names(source, subject, fewer, merged) == start + [g, merged[g]];
    Four(start, g, revisions[g], h, revisions[h]);
  }

  lemma Listed(ids: seq<string>, revisions: map<string, string>)
    requires Lists(StrLess, ids, revisions.Keys)
    ensures forall g :: g in ids ==> g in revisions
  {
    hide StrLess;
  }

  lemma MergedLists(ids: seq<string>, revisions: map<string, string>)
    requires |ids| >= 2 && Lists(StrLess, ids, revisions.Keys)
    ensures Lists(StrLess, ids[..|ids| - 1], Merged(ids, revisions).Keys) && Merged(ids, revisions) != revisions
    ensures forall g :: g in ids[..|ids| - 1] ==> g in Merged(ids, revisions)
    ensures var g, h := ids[|ids| - 2], ids[|ids| - 1];
            Merged(ids, revisions)[g] == revisions[g] + [NUL] + h + [NUL] + revisions[h]
  {
    hide StrLess;
    LastApart(ids, revisions);
    assert ids[|ids| - 1] in revisions && ids[|ids| - 1] !in Merged(ids, revisions);
  }

  lemma LastPairs(ids: seq<string>, revisions: map<string, string>)
    requires |ids| >= 2 && Lists(StrLess, ids, revisions.Keys)
    ensures forall g :: g in ids[..|ids| - 1] ==> g in Merged(ids, revisions)
    ensures var n, merged := |ids| - 2, Merged(ids, revisions);
            var g, h, start := ids[n], ids[n + 1], Pairs(ids[..n], revisions);
            && Pairs(ids, revisions) == start + [g, revisions[g], h, revisions[h]]
            && Pairs(ids[..n + 1], merged) == start + [g, merged[g]]
  {
    hide StrLess, Lists;
    Listed(ids, revisions);
    var n, merged := |ids| - 2, Merged(ids, revisions);
    MergedLists(ids, revisions);
    LastApart(ids, revisions);
    assert ids[..n + 1][..n] == ids[..n];
    assert forall x :: x in ids[..n] ==> x in ids && x in ids[..n + 1];
    SamePairsOf(ids[..n], revisions, merged);
  }

  // The last two of a listing are apart, and are not among the others.
  lemma LastApart(ids: seq<string>, revisions: map<string, string>)
    requires |ids| >= 2 && Lists(StrLess, ids, revisions.Keys)
    ensures Lists(StrLess, ids[..|ids| - 1], revisions.Keys - {ids[|ids| - 1]})
    ensures ids[|ids| - 2] !in ids[..|ids| - 2] && ids[|ids| - 1] !in ids[..|ids| - 1]
  {
    hide StrLess;
    StringsOrdered();
    assert ids == ids[..|ids| - 1] + [ids[|ids| - 1]];
    assert forall i, j :: 0 <= i < j < |ids| ==> ids[i] != ids[j];
  }

  lemma SamePairsOf(ids: seq<string>, a: map<string, string>, b: map<string, string>)
    requires forall g :: g in ids ==> g in a && g in b && a[g] == b[g]
    ensures Pairs(ids, a) == Pairs(ids, b)
  {
    assert forall k :: 0 <= k < 2 * |ids| ==> k == 2 * (k / 2) + k % 2;
    forall k | 0 <= k < 2 * |ids| ensures Pairs(ids, a)[k] == Pairs(ids, b)[k] {
      if k % 2 == 0 { assert k == 2 * (k / 2); } else { assert k == 2 * (k / 2) + 1; }
    }
  }

  lemma Four(start: seq<string>, a: string, b: string, c: string, d: string)
    ensures Terminated(start + [a, b, c, d]) == Terminated(start + [a, b + [NUL] + c + [NUL] + d])
  {
    hide Terminated;
    TerminatedMore(start, a);
    TerminatedMore(start + [a], b);
    TerminatedMore(start + [a] + [b], c);
    TerminatedMore(start + [a] + [b] + [c], d);
    TerminatedMore(start + [a], b + [NUL] + c + [NUL] + d);
    assert start + [a] + [b] + [c] + [d] == start + [a, b, c, d];
    assert start + [a] + [b + [NUL] + c + [NUL] + d] == start + [a, b + [NUL] + c + [NUL] + d];
    var t := Terminated(start + [a]);
    assert t + b + [NUL] + c + [NUL] + d + [NUL] == t + (b + [NUL] + c + [NUL] + d) + [NUL];
  }
}
