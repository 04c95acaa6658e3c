// cache/cache.go, shard: a map into a list that is kept in order of use.
module Lru {
  import opened Encoding

  // An instant, and an expiry that may be never.
  type Instant = int

  datatype Held<V> = Held(key: string, val: V, expires: Option<Instant>)

  predicate Live<V>(h: Held<V>, now: Instant) {
    h.expires.None? || now < h.expires.value
  }

  // ---- The policy on a list, most recently used first.

  function IndexOf<V>(s: seq<Held<V>>, key: string): (i: nat)
    ensures i <= |s| && (i < |s| ==> s[i].key == key) && forall j :: 0 <= j < i ==> s[j].key != key
  {
    if s == [] || s[0].key == key then 0 else 1 + IndexOf(s[1..], key)
  }

  function Lookup<V>(s: seq<Held<V>>, key: string): Option<Held<V>> {
    if IndexOf(s, key) < |s| then Some(s[IndexOf(s, key)]) else None
  }

  function Without<V>(s: seq<Held<V>>, key: string): seq<Held<V>> {
    var i := IndexOf(s, key);
    if i < |s| then s[..i] + s[i + 1..] else s
  }

  function GetResult<V>(s: seq<Held<V>>, key: string, now: Instant): Option<V> {
    match Lookup(s, key)
    case None => None
    case Some(h) => if Live(h, now) then Some(h.val) else None
  }

  function AfterGet<V>(s: seq<Held<V>>, key: string, now: Instant): seq<Held<V>> {
    match Lookup(s, key)
    case None => s
    case Some(h) => if Live(h, now) then [h] + Without(s, key) else Without(s, key)
  }

  predicate Evicts<V>(s: seq<Held<V>>, cap: nat, key: string) {
    Lookup(s, key).None? && |s| >= cap
  }

  function AfterPut<V>(s: seq<Held<V>>, cap: nat, h: Held<V>): seq<Held<V>> {
    var t := [h] + Without(s, h.key);
    if Evicts(s, cap, h.key) then t[..|t| - 1] else t
  }

  ghost predicate Unique<V>(s: seq<Held<V>>) {
    forall i, j :: 0 <= i < j < |s| ==> s[i].key != s[j].key
  }

  // ---- The shard, as written.

  // A list element, shared by the map and the list.
  class Entry<V> {
    const key: string
    var val: V
    var expires: Option<Instant>

    constructor (key: string, val: V, expires: Option<Instant>)
      ensures this.key == key && this.val == val && this.expires == expires
    {
      this.key, this.val, this.expires := key, val, expires;
    }
  }

  // The map and the list hold the same elements, each under its own key, once.
  ghost predicate Linked<V>(items: map<string, Entry<V>>, ll: seq<Entry<V>>) {
    && (forall i, j :: 0 <= i < j < |ll| ==> ll[i].key != ll[j].key)
    && (forall i :: 0 <= i < |ll| ==> ll[i].key in items && items[ll[i].key] == ll[i])
    && (forall k :: k in items ==> items[k].key == k && exists i :: 0 <= i < |ll| && ll[i] == items[k])
  }

  function Cut<T>(s: seq<T>, i: nat): seq<T>
    requires i < |s|
  {
    s[..i] + s[i + 1..]
  }

  ghost function Objects<V>(ll: seq<Entry<V>>): set<object> {
    set i | 0 <= i < |ll| :: ll[i] as object
  }

  lemma CutObjects<V>(ll: seq<Entry<V>>, i: nat)
    requires i < |ll|
    ensures Objects(Cut(ll, i)) <= Objects(ll) && Objects([ll[i]] + Cut(ll, i)) == Objects(ll) && ll[i] in Objects(ll)
  {
    var cut := Cut(ll, i);
    var moved := [ll[i]] + cut;
    forall j | 0 <= j < |cut|
        ensures cut[j] as object in Objects(ll) { assert cut[j] == ll[if j < i then j else j + 1]; }
    assert ll[i] as object in Objects(ll);
    forall j | 0 <= j < |ll| ensures ll[j] as object in Objects(moved) {
      assert ll[j] == moved[if j < i then j + 1 else if j == i then 0 else j];
    }
    forall j | 0 <= j < |moved| ensures moved[j] as object in Objects(ll) {
      assert j > 0 ==> moved[j] == cut[j - 1];
    }
  }

  lemma PushObjects<V>(ll: seq<Entry<V>>, el: Entry<V>)
    ensures Objects([el] + ll) == {el as object} + Objects(ll)
  {
    var pushed := [el] + ll;
    forall j | 0 <= j < |ll| ensures ll[j] as object in Objects(pushed) { assert pushed[j + 1] == ll[j]; }
    assert pushed[0] as object in Objects(pushed);
  }

  lemma Finds<V>(items: map<string, Entry<V>>, ll: seq<Entry<V>>, key: string) returns (i: nat)
    requires Linked(items, ll) && key in items
    ensures i < |ll| && ll[i] == items[key] && ll[i].key == key && forall j :: 0 <= j < |ll| && ll[j].key == key ==>
          j == i
  {
    i :| 0 <= i < |ll| && ll[i] == items[key];
  }

  lemma Misses<V>(items: map<string, Entry<V>>, ll: seq<Entry<V>>, key: string)
    requires Linked(items, ll) && key !in items
    ensures forall j :: 0 <= j < |ll| ==> ll[j].key != key
  {
  }

  lemma Unlinks<V>(items: map<string, Entry<V>>, ll: seq<Entry<V>>, i: nat)
    requires Linked(items, ll) && i < |ll|
    ensures Linked(items - {ll[i].key}, Cut(ll, i))
  {
    var cut, rest := Cut(ll, i), items - {ll[i].key};
    forall k | k in rest ensures exists j :: 0 <= j < |cut| && cut[j] == rest[k] {
      var j :| 0 <= j < |ll| && ll[j] == items[k];
      assert cut[if j < i then j else j - 1] == rest[k];
    }
  }

  lemma Pushes<V>(items: map<string, Entry<V>>, ll: seq<Entry<V>>, el: Entry<V>)
    requires Linked(items, ll) && el.key !in items
    ensures Linked(items[el.key := el], [el] + ll)
  {
    var pushed, more := [el] + ll, items[el.key := el];
    Misses(items, ll, el.key);
    forall k | k in more ensures exists j :: 0 <= j < |pushed| && pushed[j] == more[k] {
      if k == el.key {
        assert pushed[0] == more[k];
      } else {
        var j :| 0 <= j < |ll| && ll[j] == items[k];
        assert pushed[j + 1] == more[k];
      }
    }
  }

  lemma MovesToFront<V>(items: map<string, Entry<V>>, ll: seq<Entry<V>>, i: nat)
    requires Linked(items, ll) && i < |ll|
    ensures Linked(items, [ll[i]] + Cut(ll, i))
  {
    Unlinks(items, ll, i);
    Pushes(items - {ll[i].key}, Cut(ll, i), ll[i]);
    assert (items - {ll[i].key})[ll[i].key := ll[i]] == items;
  }

  lemma IndexIs<V>(s: seq<Held<V>>, key: string, i: nat)
    requires i < |s| && forall j :: 0 <= j < |s| && s[j].key == key ==> j == i
    requires s[i].key == key
    ensures IndexOf(s, key) == i && Lookup(s, key) == Some(s[i]) && Without(s, key) == Cut(s, i)
  {
  }

  lemma IndexNone<V>(s: seq<Held<V>>, key: string)
    requires forall j :: 0 <= j < |s| ==> s[j].key != key
    ensures IndexOf(s, key) == |s| && Lookup(s, key) == None && Without(s, key) == s
  {
  }

  class Shard<V> {
    const cap: nat
    var items: map<string, Entry<V>>
    var ll: seq<Entry<V>>

    ghost predicate Valid()
      reads this
    {
      1 <= cap && |ll| <= cap && Linked(items, ll)
    }

    ghost function Repr(): (r: set<object>)
      reads this
      ensures this in r
    {
      {this as object} + Objects(ll)
    }

    ghost function Contents(): seq<Held<V>>
      reads Repr()
    {
      seq(|ll|, i requires 0 <= i < |ll| reads this, ll => Held(ll[i].key, ll[i].val, ll[i].expires))
    }

    constructor (capacity: nat)
      requires capacity >= 1
      ensures Valid() && Contents() == [] && cap == capacity && fresh(Repr())
    {
      cap, items, ll := capacity, map[], [];
    }

    // An element knows its place in the list.
    method Place(key: string) returns (i: nat)
      requires Valid() && key in items
      ensures i < |ll| && ll[i] == items[key] && ll[i].key == key && ll[i] in Objects(ll)
      ensures forall j :: 0 <= j < |ll| && ll[j] == ll[i] ==> j == i
      ensures Lookup(Contents(), key) == Some(Contents()[i]) && Without(Contents(), key) == Cut(Contents(), i)
    {
      hide IndexOf, Linked, Lookup, Without, Objects;
      ghost var at := Finds(items, ll, key);
      assert ll[at] == items[key];
      i :| 0 <= i < |ll| && ll[i] == items[key];
      IndexIs(Contents(), key, i);
      CutObjects(ll, i);
    }

    // ll.Remove and the delete beside it.
    method Unlink(i: nat)
      requires Valid() && i < |ll|
      modifies this`items, this`ll
      ensures Valid() && Repr() <= old(Repr())
      ensures Contents() == Cut(old(Contents()), i)
    {
      hide Linked, Objects;
      ghost var was := Contents();
      Unlinks(items, ll, i);
      CutObjects(ll, i);
      items := items - {ll[i].key};
      ll := Cut(ll, i);
      assert Contents() == Cut(was, i);
    }

    method MoveToFront(i: nat)
      requires Valid() && i < |ll|
      modifies this`ll
      ensures Valid() && Repr() == old(Repr())
      ensures Contents() == [old(Contents())[i]] + Cut(old(Contents()), i)
    {
      hide Linked, Objects;
      ghost var was := Contents();
      MovesToFront(items, ll, i);
      CutObjects(ll, i);
      ll := [ll[i]] + Cut(ll, i);
      assert Contents() == [was[i]] + Cut(was, i);
    }

    // A dead entry found here goes away.
    method Get(key: string, now: Instant) returns (found: Option<V>)
      requires Valid()
      modifies this`items, this`ll
      ensures Valid() && Repr() <= old(Repr())
      ensures found == GetResult(old(Contents()), key, now)
      ensures Contents() == AfterGet(old(Contents()), key, now)
    {
      hide IndexOf, Linked, Lookup, Without, Cut;
      if key !in items {
        Misses(items, ll, key);
        IndexNone(Contents(), key);
        return None;
      }
      var i := Place(key);
      var el := items[key];
      if el.expires.Some? && !(now < el.expires.value) {
        Unlink(i);
        return None;
      }
      found := Some(el.val);
      MoveToFront(i);
    }

    method Put(key: string, v: V, expires: Option<Instant>) returns (evicted: bool)
      requires Valid()
      modifies Repr()
      ensures Valid() && fresh(Repr() - old(Repr()))
      ensures evicted == Evicts(old(Contents()), cap, key)
      ensures Contents() == AfterPut(old(Contents()), cap, Held(key, v, expires))
    {
      hide IndexOf, Linked, Lookup, Without, Cut;
      if key in items {
        var i := Place(key);
        SetValue(i, v, expires);
        MoveToFront(i);
        return false;
      }
      Misses(items, ll, key);
      IndexNone(Contents(), key);
      evicted := Insert(key, v, expires);
    }

    // A new value in the element that is already there.
    method SetValue(i: nat, v: V, expires: Option<Instant>)
      requires Valid() && i < |ll| && ll[i] in Objects(ll)
      requires forall j :: 0 <= j < |ll| && ll[j] == ll[i] ==> j == i
      modifies ll[i]
      ensures Contents() == old(Contents())[i := Held(ll[i].key, v, expires)]
      ensures Cut(Contents(), i) == Cut(old(Contents()), i)
    {
      ghost var was := Contents();
      ll[i].val, ll[i].expires := v, expires;
      assert Contents() == was[i := Held(ll[i].key, v, expires)];
    }

    // Put of a new key: in at the front, and out at the back if that is one too many.
    method Insert(key: string, v: V, expires: Option<Instant>) returns (evicted: bool)
      requires Valid() && key !in items
      modifies this`items, this`ll
      ensures Valid() && fresh(Repr() - old(Repr()))
      ensures evicted == (|old(ll)| >= cap)
      ensures var t := [Held(key, v, expires)] + old(Contents());
              Contents() == if evicted then t[..|t| - 1] else t
    {
      hide Linked, Objects;
      ghost var was := Contents();
      var el := new Entry(key, v, expires);
      Pushes(items, ll, el);
      PushObjects(ll, el);
      ll := [el] + ll;
      items := items[key := el];
      assert Contents() == [Held(key, v, expires)] + was;
      if |ll| <= cap {
        return false;
      }
      var back := ll[|ll| - 1];
      Unlinks(items, ll, |ll| - 1);
      CutObjects(ll, |ll| - 1);
      assert Cut(ll, |ll| - 1) == ll[..|ll| - 1];
      ll := ll[..|ll| - 1];
      items := items - {back.key};
      assert Contents() == ([Held(key, v, expires)] + was)[..|was|];
      return true;
    }

    method Remove(key: string)
      requires Valid()
      modifies this`items, this`ll
      ensures Valid() && Repr() <= old(Repr())
      ensures Contents() == Without(old(Contents()), key)
    {
      hide IndexOf, Linked, Lookup, Without, Cut;
      if key !in items {
        Misses(items, ll, key);
        IndexNone(Contents(), key);
        return;
      }
      var i := Place(key);
      Unlink(i);
    }

    method Clear()
      requires Valid()
      modifies this`items, this`ll
      ensures Valid() && Repr() <= old(Repr())
      ensures Contents() == []
    {
      items, ll := map[], [];
    }
  }
}
