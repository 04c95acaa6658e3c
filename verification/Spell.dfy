// store/spell.go: the bounded edit distance behind a spelling correction, and
// how candidates are ranked by it. A term is its sequence of runes.
module Spell {
  import opened Order

  // ---- What the distance means: the cheapest way to type one word as the other.

  datatype Op = Keep | Replace | Insert | Delete | Swap

  // `script` turns the first i runes of x into the first j runes of y, its last
  // operation first from the right. Swap exchanges two neighbours, and neither
  // may be edited again.
  ghost predicate Transforms(script: seq<Op>, x: string, y: string, i: nat, j: nat)
    requires i <= |x| && j <= |y|
    decreases |script|
  {
    if script == [] then i == 0 && j == 0
    else
      var init := script[..|script| - 1];
      match script[|script| - 1]
      case Keep => i > 0 && j > 0 && x[i-1] == y[j-1] && Transforms(init, x, y, i - 1, j - 1)
      case Replace => i > 0 && j > 0 && Transforms(init, x, y, i - 1, j - 1)
      case Insert => j > 0 && Transforms(init, x, y, i, j - 1)
      case Delete => i > 0 && Transforms(init, x, y, i - 1, j)
      case Swap =>
        i > 1 && j > 1 && x[i-1] == y[j-2] && x[i-2] == y[j-1] && Transforms(init, x, y, i - 2, j - 2)
  }

  ghost function Cost(script: seq<Op>): nat {
    if script == [] then 0
    else Cost(script[..|script| - 1]) + (if script[|script| - 1] == Keep then 0 else 1)
  }

  // ---- The full matrix, with no bound, no swap of arguments and no reused rows.

  function Min(a: int, b: int): int {
    if a <= b then a else b
  }

  function Swapped(x: string, y: string, i: nat, j: nat): bool
    requires i <= |x| && j <= |y|
  {
    i > 1 && j > 1 && x[i-1] == y[j-2] && x[i-2] == y[j-1]
  }

  // One step of the recurrence from the cells it reads.
  function Relax(x: string, y: string, i: nat, j: nat, above: nat, left: nat, diagonal: nat, far: nat): nat
    requires 0 < i <= |x| && 0 < j <= |y|
  {
    var cost := if x[i-1] == y[j-1] then 0 else 1;
    var d := Min(Min(above + 1, left + 1), diagonal + cost);
    if Swapped(x, y, i, j) then Min(d, far + 1) else d
  }

  function Cell(x: string, y: string, i: nat, j: nat): nat
    requires i <= |x| && j <= |y|
    decreases i + j
  {
    if i == 0 then j
    else if j == 0 then i
    else
      Relax(x, y, i, j, Cell(x, y, i, j - 1), Cell(x, y, i - 1, j), Cell(x, y, i - 1, j - 1),
            if Swapped(x, y, i, j) then Cell(x, y, i - 2, j - 2) else 0)
  }

  lemma CellStep(x: string, y: string, i: nat, j: nat)
    requires 0 < i <= |x| && 0 < j <= |y|
    ensures Cell(x, y, i, j) ==
            Relax(x, y, i, j, Cell(x, y, i, j - 1), Cell(x, y, i - 1, j), Cell(x, y, i - 1, j - 1),
                  if Swapped(x, y, i, j) then Cell(x, y, i - 2, j - 2) else 0)
  {
  }

  lemma CellEdges(x: string, y: string)
    ensures forall k: nat :: k <= |x| ==> Cell(x, y, k, 0) == k
    ensures forall k: nat :: k <= |y| ==> Cell(x, y, 0, k) == k
  {
  }

  // Optimal string alignment: the restricted Damerau distance. It is not a
  // metric, so nothing below leans on the triangle inequality.
  function Osa(a: string, b: string): nat {
    Cell(a, b, |a|, |b|)
  }

  // No script is cheaper than the matrix says.
  lemma {:induction false} CellIsLowerBound(script: seq<Op>, x: string, y: string, i: nat, j: nat)
    requires i <= |x| && j <= |y| && Transforms(script, x, y, i, j)
    ensures Cell(x, y, i, j) <= Cost(script)
    decreases |script|
  {
    hide Cell;
    CellEdges(x, y);
    if script != [] {
      if i > 0 && j > 0 { CellStep(x, y, i, j); }
      var init := script[..|script| - 1];
      match script[|script| - 1]
      case Keep => CellIsLowerBound(init, x, y, i - 1, j - 1);
      case Replace => CellIsLowerBound(init, x, y, i - 1, j - 1);
      case Insert => CellIsLowerBound(init, x, y, i, j - 1);
      case Delete => CellIsLowerBound(init, x, y, i - 1, j);
      case Swap => CellIsLowerBound(init, x, y, i - 2, j - 2);
    }
  }

  lemma Extend(script: seq<Op>, op: Op)
    ensures (script + [op])[..|script|] == script
    ensures Cost(script + [op]) == Cost(script) + (if op == Keep then 0 else 1)
  {
    assert (script + [op])[..|script|] == script;
  }

  // Some script costs exactly what the matrix says.
  lemma {:induction false} CellIsAttained(x: string, y: string, i: nat, j: nat) returns (script: seq<Op>)
    requires i <= |x| && j <= |y|
    ensures Transforms(script, x, y, i, j) && Cost(script) == Cell(x, y, i, j)
    decreases i + j
  {
    hide Cell;
    CellEdges(x, y);
    if i > 0 && j > 0 { CellStep(x, y, i, j); }
    var init: seq<Op>, op: Op := [], Keep;
    if i == 0 && j == 0 {
      return [];
    } else if i == 0 || (j > 0 && Cell(x, y, i, j) == Cell(x, y, i, j - 1) + 1) {
      init := CellIsAttained(x, y, i, j - 1);
      op := Insert;
    } else if j == 0 || Cell(x, y, i, j) == Cell(x, y, i - 1, j) + 1 {
      init := CellIsAttained(x, y, i - 1, j);
      op := Delete;
    } else if Swapped(x, y, i, j) && Cell(x, y, i, j) == Cell(x, y, i - 2, j - 2) + 1 {
      init := CellIsAttained(x, y, i - 2, j - 2);
      op := Swap;
    } else {
      init := CellIsAttained(x, y, i - 1, j - 1);
      op := if x[i-1] == y[j-1] then Keep else Replace;
    }
    Extend(init, op);
    script := init + [op];
  }

  // The recurrence is the minimum over all the ways of typing b as a.
  lemma OsaIsCheapestScript(a: string, b: string)
    ensures exists script :: Transforms(script, a, b, |a|, |b|) && Cost(script) == Osa(a, b)
    ensures forall script :: Transforms(script, a, b, |a|, |b|) ==> Osa(a, b) <= Cost(script)
  {
    var best := CellIsAttained(a, b, |a|, |b|);
    forall script | Transforms(script, a, b, |a|, |b|) ensures Osa(a, b) <= Cost(script) {
      CellIsLowerBound(script, a, b, |a|, |b|);
    }
  }

  // ---- Why each shortcut is sound.

  lemma {:induction false} CellSymmetric(x: string, y: string, i: nat, j: nat)
    requires i <= |x| && j <= |y|
    ensures Cell(x, y, i, j) == Cell(y, x, j, i)
    decreases i + j
  {
    hide Cell;
    CellEdges(x, y);
    CellEdges(y, x);
    if i > 0 && j > 0 {
      CellStep(x, y, i, j);
      CellStep(y, x, j, i);
      CellSymmetric(x, y, i - 1, j);
      CellSymmetric(x, y, i, j - 1);
      CellSymmetric(x, y, i - 1, j - 1);
      if i > 1 && j > 1 { CellSymmetric(x, y, i - 2, j - 2); }
    }
  }

  lemma {:induction false} LengthGap(x: string, y: string, i: nat, j: nat)
    requires i <= |x| && j <= |y|
    ensures i - j <= Cell(x, y, i, j) && j - i <= Cell(x, y, i, j)
    decreases i + j
  {
    hide Cell;
    CellEdges(x, y);
    if i > 0 && j > 0 {
      CellStep(x, y, i, j);
      LengthGap(x, y, i - 1, j);
      LengthGap(x, y, i, j - 1);
      LengthGap(x, y, i - 1, j - 1);
      if i > 1 && j > 1 { LengthGap(x, y, i - 2, j - 2); }
    }
  }

  lemma AboveIsClose(x: string, y: string, i: nat, j: nat)
    requires i <= |x| && 0 < j <= |y|
    ensures Cell(x, y, i, j) <= Cell(x, y, i, j - 1) + 1
  {
    hide Cell;
    CellEdges(x, y);
    if i > 0 { CellStep(x, y, i, j); }
  }

  // The early exit: once every cell of row j is at least m, so is every cell of
  // every later row. A swap is read off row j - 1, where a cell may be below m; it
  // is no cheaper all the same, as no cell exceeds its upper neighbour by over one.
  lemma {:induction false} LaterRows(x: string, y: string, j: nat, m: int, i: nat, k: nat)
    requires j <= k <= |y| && i <= |x|
    requires forall c: nat :: c <= |x| ==> m <= Cell(x, y, c, j)
    ensures m <= Cell(x, y, i, k)
    decreases k, i
  {
    hide Cell;
    CellEdges(x, y);
    assert m <= Cell(x, y, 0, j);
    if k > j && i > 0 {
      CellStep(x, y, i, k);
      LaterRows(x, y, j, m, i, k - 1);
      LaterRows(x, y, j, m, i - 1, k);
      LaterRows(x, y, j, m, i - 1, k - 1);
      if Swapped(x, y, i, k) {
        if k - 2 >= j {
          LaterRows(x, y, j, m, i - 2, k - 2);
        } else {
          AboveIsClose(x, y, i - 2, j);
          assert m <= Cell(x, y, i - 2, j);
        }
      }
    }
  }

  lemma {:induction false} OsaZeroOnlyOnEqual(x: string, y: string, i: nat, j: nat)
    requires i <= |x| && j <= |y|
    ensures Cell(x, y, i, j) == 0 <==> x[..i] == y[..j]
    decreases i + j
  {
    hide Cell;
    CellEdges(x, y);
    if i > 0 && j > 0 {
      CellStep(x, y, i, j);
      OsaZeroOnlyOnEqual(x, y, i - 1, j - 1);
      assert x[..i] == x[..i-1] + [x[i-1]] && y[..j] == y[..j-1] + [y[j-1]];
    }
  }

  // ---- Edits, as written: three buffers rotated through one loop.

  ghost predicate IsRow(buffer: array<int>, upTo: int, x: string, y: string, j: nat)
    requires j <= |y|
    reads buffer
  {
    buffer.Length == |x| + 1 && forall k :: 0 <= k < upTo && k <= |x| ==> buffer[k] == Cell(x, y, k, j)
  }

  lemma RowAt(buffer: array<int>, upTo: int, x: string, y: string, j: nat, k: nat)
    requires j <= |y| && IsRow(buffer, upTo, x, y, j)
    ensures buffer.Length == |x| + 1
    ensures k < upTo && k <= |x| ==> buffer[k] == Cell(x, y, k, j)
  {
    hide Cell;
  }

  // One more cell of a row.
  method SetCell(buffer: array<int>, i: nat, d: int, x: string, y: string, j: nat)
    requires j <= |y| && i <= |x| && buffer.Length == |x| + 1 && d == Cell(x, y, i, j)
    requires i > 0 ==> IsRow(buffer, i, x, y, j)
    modifies buffer
    ensures IsRow(buffer, i + 1, x, y, j)
  {
    hide Cell;
    buffer[i] := d;
  }

  // The inner loop of Edits: one row from the two above it, and its minimum.
  method FillRow(x: string, y: string, j: nat, before: array<int>, prev: array<int>, cur: array<int>)
    returns (best: int)
    requires 1 <= j <= |y| && cur != prev && cur != before && cur.Length == |x| + 1
    requires IsRow(prev, |x| + 1, x, y, j - 1)
    requires j > 1 ==> IsRow(before, |x| + 1, x, y, j - 2)
    modifies cur
    ensures IsRow(cur, |x| + 1, x, y, j)
    ensures forall k: nat :: k <= |x| ==> best <= Cell(x, y, k, j)
  {
    hide Cell, IsRow;
    CellEdges(x, y);
    SetCell(cur, 0, j, x, y, j);
    best := j;
    var i := 1;
    while i <= |x|
      invariant 1 <= i <= |x| + 1
      invariant IsRow(prev, |x| + 1, x, y, j - 1)
      invariant j > 1 ==> IsRow(before, |x| + 1, x, y, j - 2)
      invariant IsRow(cur, i, x, y, j)
      invariant forall k: nat :: k < i ==> best <= Cell(x, y, k, j)
    {
      CellStep(x, y, i, j);
      RowAt(prev, |x| + 1, x, y, j - 1, i);
      RowAt(prev, |x| + 1, x, y, j - 1, i - 1);
      RowAt(cur, i, x, y, j, i - 1);
      if i > 1 && j > 1 { RowAt(before, |x| + 1, x, y, j - 2, i - 2); }
      var cost := 1;
      if x[i-1] == y[j-1] {
        cost := 0;
      }
      var d := Min(Min(prev[i] + 1, cur[i-1] + 1), prev[i-1] + cost);
      if i > 1 && j > 1 && x[i-1] == y[j-2] && x[i-2] == y[j-1] {
        d := Min(d, before[i-2] + 1);
      }
      SetCell(cur, i, d, x, y, j);
      best := Min(best, d);
      i := i + 1;
    }
  }

  method Edits(a: string, b: string, bound: int) returns (dist: int)
    ensures bound >= 0 ==> dist == Min(Osa(a, b), bound + 1)
    ensures bound < 0 ==> dist == if a == b then 0 else bound + 1
  {
    hide Cell;
    OsaZeroOnlyOnEqual(a, b, |a|, |b|);
    assert a[..|a|] == a && b[..|b|] == b;
    if a == b {
      return 0;
    }
    var x, y := a, b;
    var d := |x| - |y|;
    if d > bound || -d > bound {
      LengthGap(a, b, |a|, |b|);
      return bound + 1;
    }
    if |x| > |y| {
      CellSymmetric(a, b, |a|, |b|);
      x, y := y, x;
    }
    assert Osa(x, y) == Osa(a, b);
    CellEdges(x, y);

    var prev, cur, before := new int[|x| + 1], new int[|x| + 1], new int[|x| + 1];
    for i := 0 to |x| + 1
      invariant IsRow(prev, i, x, y, 0)
    {
      prev[i] := i;
    }
    var j := 1;
    while j <= |y|
      invariant 1 <= j <= |y| + 1
      invariant cur.Length == before.Length == |x| + 1
      invariant prev != cur && prev != before && cur != before
      invariant fresh(prev) && fresh(cur) && fresh(before)
      invariant IsRow(prev, |x| + 1, x, y, j - 1)
      invariant j > 1 ==> IsRow(before, |x| + 1, x, y, j - 2)
    {
      var best := FillRow(x, y, j, before, prev, cur);
      if best > bound {
        LaterRows(x, y, j, best, |x|, |y|);
        return bound + 1;
      }
      before, prev, cur := prev, cur, before;
      j := j + 1;
    }
    if prev[|x|] > bound {
      return bound + 1;
    }
    return prev[|x|];
  }

  // ---- Ranking the candidates.

  function MaxEdits(term: string): nat {
    if |term| <= 4 then 1 else 2
  }

  datatype Scored = Scored(term: string, docs: int, dist: int)

  // By distance, then by documents from most to fewest, then by spelling.
  predicate Ranks(a: Scored, b: Scored) {
    if a.dist != b.dist then a.dist < b.dist
    else if a.docs != b.docs then a.docs > b.docs
    else StrLess(a.term, b.term)
  }

  lemma RanksTotal()
    ensures StrictTotal(Ranks)
  {
    StringsOrdered();
    forall a, b: Scored | a != b ensures Ranks(a, b) || Ranks(b, a) {
      if a.dist == b.dist && a.docs == b.docs { StrLessTotal(a.term, b.term); }
    }
    forall a, b, c | Ranks(a, b) && Ranks(b, c) ensures Ranks(a, c) {
      if a.dist == b.dist == c.dist && a.docs == b.docs == c.docs {
        StrLessTransitive(a.term, b.term, c.term);
      }
    }
  }

  ghost predicate Eligible(term: string, candidates: map<string, int>, c: string) {
    c in candidates && c != term && candidates[c] > 0 && Osa(term, c) <= MaxEdits(term)
  }

  // One edit is allowed in a word of up to four letters and two in a longer one.
  lemma EligibleSays(term: string, candidates: map<string, int>, c: string)
    ensures Eligible(term, candidates, c) <==>
            && c in candidates && c != term && candidates[c] > 0
            && (Osa(term, c) <= 1 || (Osa(term, c) == 2 && |term| > 4))
  {
    hide Osa;
  }

  // Everything within reach of the term, measured by the distance itself.
  ghost function Near(term: string, candidates: map<string, int>): set<Scored> {
    set c | c in candidates && Eligible(term, candidates, c) :: Scored(c, candidates[c], Osa(term, c))
  }

  function Terms(s: seq<Scored>): seq<string> {
    seq(|s|, i requires 0 <= i < |s| => s[i].term)
  }

  // The first `limit` of the candidates within reach, best first.
  ghost predicate Offered(term: string, candidates: map<string, int>, limit: int, out: seq<string>) {
    if limit <= 0 || term == "" then out == []
    else exists ranking: seq<Scored> ::
      && Lists(Ranks, ranking, Near(term, candidates))
      && out == Terms(if limit < |ranking| then ranking[..limit] else ranking)
  }

  // The candidates arrive in map order, which is no order at all; `:|` leaves it
  // open, and the answer is the same for every choice.
  method Nearest(term: string, candidates: map<string, int>, limit: int) returns (out: seq<string>)
    ensures Offered(term, candidates, limit, out)
  {
    if limit <= 0 || term == "" {
      return [];
    }
    var bound := MaxEdits(term);
    var near: seq<Scored> := [];
    var left := candidates.Keys;
    while left != {}
      invariant left <= candidates.Keys
      invariant Distinct(near)
      invariant forall s :: s in near <==>
        s.term !in left && Eligible(term, candidates, s.term)
            && s == Scored(s.term, candidates[s.term], Osa(term, s.term))
    {
      var cand :| cand in left;
      left := left - {cand};
      if cand == term || candidates[cand] <= 0 {
        continue;
      }
      var d := Edits(term, cand, bound);
      if d > bound {
        continue;
      }
      near := near + [Scored(cand, candidates[cand], d)];
    }
    forall s ensures s in near <==> s in Near(term, candidates) {
      if s in near { assert s.term in candidates && Eligible(term, candidates, s.term); }
    }
    RanksTotal();
    SortLists(Ranks, near, Near(term, candidates));
    var sorted := Sort(Ranks, near);
    out := Terms(if limit < |sorted| then sorted[..limit] else sorted);
  }

  // One term, one vocabulary, one answer: map order never shows.
  lemma NearestDeterministic(term: string, candidates: map<string, int>, limit: int, a: seq<string>, b: seq<string>)
    requires Offered(term, candidates, limit, a) && Offered(term, candidates, limit, b)
    ensures a == b
  {
    if limit > 0 && term != "" {
      var all := Near(term, candidates);
      var ra: seq<Scored> :| Lists(Ranks, ra, all) && a == Terms(if limit < |ra| then ra[..limit] else ra);
      var rb: seq<Scored> :| Lists(Ranks, rb, all) && b == Terms(if limit < |rb| then rb[..limit] else rb);
      RanksTotal();
      ListingUnique(Ranks, ra, rb);
    }
  }

  // Whoever is offered outranks whoever is not: nearer, or as near and in more
  // documents, or equal in both and spelled first. The same holds along the list.
  ghost predicate Outranks(term: string, candidates: map<string, int>, a: string, b: string) {
    a in candidates && b in candidates
    && (|| Osa(term, a) < Osa(term, b)
        || (Osa(term, a) == Osa(term, b) && candidates[a] > candidates[b])
        || (Osa(term, a) == Osa(term, b) && candidates[a] == candidates[b] && StrLess(a, b)))
  }

  lemma OfferedOutranks(term: string, candidates: map<string, int>, limit: int, out: seq<string>)
    requires Offered(term, candidates, limit, out) && limit > 0 && term != ""
    ensures |out| <= limit && forall i, j :: 0 <= i < j < |out| ==> Outranks(term, candidates, out[i], out[j])
    ensures forall a, b :: a in out && b !in out && Eligible(term, candidates, b) ==>
              |out| == limit && Outranks(term, candidates, a, b)
    ensures |out| < limit ==> forall b :: Eligible(term, candidates, b) ==> b in out
  {
    hide Osa, Outranks, Eligible, Ranked;
    var ranking: seq<Scored> :| Lists(Ranks, ranking, Near(term, candidates))
                                && out == Terms(if limit < |ranking| then ranking[..limit] else ranking);
    RankedAll(term, candidates, ranking);
    forall i, j | 0 <= i < j < |ranking| ensures Outranks(term, candidates, ranking[i].term, ranking[j].term) {
      RanksOutranks(term, candidates, ranking, i, j);
    }
    forall b | Eligible(term, candidates, b) && b !in out
      ensures |out| == limit && forall a :: a in out ==> Outranks(term, candidates, a, b)
    {
      var k := Placed(term, candidates, ranking, b);
      assert forall i :: 0 <= i < |out| ==> out[i] == ranking[i].term && out[i] in out;
    }
  }

  ghost predicate Ranked(term: string, candidates: map<string, int>, s: Scored) {
    Eligible(term, candidates, s.term) && s.docs == candidates[s.term] && s.dist == Osa(term, s.term)
  }

  lemma RankedAll(term: string, candidates: map<string, int>, ranking: seq<Scored>)
    requires Lists(Ranks, ranking, Near(term, candidates))
    ensures forall i :: 0 <= i < |ranking| ==> Ranked(term, candidates, ranking[i])
  {
    hide Osa, Ranks;
    forall i | 0 <= i < |ranking| ensures Ranked(term, candidates, ranking[i]) {
      assert ranking[i] in ranking;
    }
  }

  lemma RanksOutranks(term: string, candidates: map<string, int>, ranking: seq<Scored>, i: nat, j: nat)
    requires i < j < |ranking| && Lists(Ranks, ranking, Near(term, candidates))
    requires Ranked(term, candidates, ranking[i]) && Ranked(term, candidates, ranking[j])
    ensures Outranks(term, candidates, ranking[i].term, ranking[j].term)
  {
    hide Osa, StrLess, Near;
    assert Ranks(ranking[i], ranking[j]);
  }

  lemma Placed(term: string, candidates: map<string, int>, ranking: seq<Scored>, b: string) returns (k: nat)
    requires Lists(Ranks, ranking, Near(term, candidates)) && Eligible(term, candidates, b)
    ensures k < |ranking| && ranking[k].term == b
  {
    hide Osa, Ranks;
    var s := Scored(b, candidates[b], Osa(term, b));
    assert s in Near(term, candidates) && s in ranking;
    k :| 0 <= k < |ranking| && ranking[k] == s;
  }

  lemma TermListed(term: string, candidates: map<string, int>, cut: seq<Scored>, c: string)
    requires forall s :: s in cut ==> s in Near(term, candidates)
    ensures c in Terms(cut) <==>
            Eligible(term, candidates, c) && Scored(c, candidates[c], Osa(term, c)) in cut
  {
    hide Cell;
    if c in Terms(cut) {
      var i :| 0 <= i < |cut| && Terms(cut)[i] == c;
      assert cut[i] in Near(term, candidates);
    }
    if Eligible(term, candidates, c) && Scored(c, candidates[c], Osa(term, c)) in cut {
      var i :| 0 <= i < |cut| && cut[i] == Scored(c, candidates[c], Osa(term, c));
      assert Terms(cut)[i] == c;
    }
  }

  // Which terms are offered, without mentioning sorting: the ones within reach
  // that fewer than `limit` others beat.
  lemma OfferedIff(term: string, candidates: map<string, int>, limit: int, out: seq<string>, c: string)
    requires Offered(term, candidates, limit, out) && limit > 0 && term != ""
    ensures c in out <==>
            && Eligible(term, candidates, c)
            && |Before(Ranks, Near(term, candidates), Scored(c, candidates[c], Osa(term, c)))| < limit
  {
    hide Cell, Ranks, StrLess, Before;
    var all := Near(term, candidates);
    var r: seq<Scored> :| Lists(Ranks, r, all) && out == Terms(if limit < |r| then r[..limit] else r);
    TermListed(term, candidates, if limit < |r| then r[..limit] else r, c);
    if Eligible(term, candidates, c) {
      RanksTotal();
      TopIff(Ranks, r, all, limit, Scored(c, candidates[c], Osa(term, c)));
    }
  }
}
