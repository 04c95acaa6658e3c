// index/cache.go: what reading by generation is worth, said of the steps of a run
// alone: which came before which, and how many commits there had been.
module Freshness {
  import opened Encoding
  import opened Flight

  function Commits(steps: seq<Step>, t: string): nat {
    if steps == [] then 0 else Commits(steps[..|steps| - 1], t) + if steps[|steps| - 1] == Commit(t) then 1 else 0
  }

  lemma RunUpTo(steps: seq<Step>, i: nat)
    requires Run(steps) && i <= |steps|
    ensures Run(steps[..i])
    decreases |steps|
  {
    hide Can;
    if i < |steps| {
      RunUpTo(steps[..|steps| - 1], i);
      assert steps[..|steps| - 1][..i] == steps[..i];
    } else {
      assert steps[..i] == steps;
    }
  }

  lemma StepAt(steps: seq<Step>, i: nat)
    requires Run(steps) && i < |steps|
    ensures Run(steps[..i]) && Run(steps[..i + 1])
    ensures Can(End(steps[..i]), steps[i]) && End(steps[..i + 1]) == Next(End(steps[..i]), steps[i])
  {
    hide Can, Next;
    RunUpTo(steps, i);
    RunUpTo(steps, i + 1);
    assert steps[..i + 1][..i] == steps[..i];
  }

  lemma LastStep(steps: seq<Step>)
    requires steps != [] && Run(steps)
    ensures var init, step := steps[..|steps| - 1], steps[|steps| - 1];
            Run(init) && Can(End(init), step) && End(steps) == Next(End(init), step)
  {
    hide Can, Next;
  }

  lemma NothingYet()
    ensures Run([]) && End([]) == START
  {
  }

  // ---- What stays as it was.

  ghost predicate SameWrites(s: State, t: State) {
    && |s.writes| <= |t.writes|
    && forall w :: 0 <= w < |s.writes| ==>
         && t.writes[w].tenant == s.writes[w].tenant && t.writes[w].number == s.writes[w].number
         && (s.writes[w].dropped.Some? ==> t.writes[w].dropped == s.writes[w].dropped)
  }

  ghost predicate SameCallers(s: State, t: State) {
    && |s.callers| <= |t.callers|
    && forall i :: 0 <= i < |s.callers| ==>
          t.callers[i].tenant == s.callers[i].tenant && t.callers[i].floor == s.callers[i].floor
  }

  ghost predicate Later(s: State, t: State) {
    && SameWrites(s, t) && SameCallers(s, t) && |s.calls| <= |t.calls|
    && forall x :: Count(s.gen, x) <= Count(t.gen, x)
  }

  lemma StepLater(s: State, step: Step)
    requires Can(s, step)
    ensures Later(s, Next(s, step))
  {
    hide SameWrites, SameCallers, Next, Can, Count;
    WritesStay(s, step);
    CallersStay(s, step);
    CallsStay(s, step);
    forall x ensures Count(s.gen, x) <= Count(Next(s, step).gen, x) { GenGrows(s, step, x); }
  }

  lemma WritesStay(s: State, step: Step)
    requires Can(s, step)
    ensures SameWrites(s, Next(s, step))
  {
    hide Count;
  }

  lemma CallersStay(s: State, step: Step)
    requires Can(s, step)
    ensures SameCallers(s, Next(s, step))
  {
    hide Count, Committed, Invalidated, LookedUp, Tallied, SetCall, Stores, SameCallers;
    match step
    case Start(t, rest) => OneStarts(s, t, rest);
    case ReadGen(i) => OneMoved(s, Next(s, step), i);
    case LookUp(i) =>
      LookUpMoves(s, i);
      OneMoved(s, Next(s, step), i);
    case Tally(i) =>
      TallyMoves(s, i);
      OneMoved(s, Next(s, step), i);
    case Return(i) => OneMoved(s, Next(s, step), i);
    case _ => NoneMoved(s, Next(s, step));
  }

  lemma LookUpMoves(s: State, i: nat)
    requires Can(s, LookUp(i))
    ensures var t := Next(s, LookUp(i));
            |t.callers| == |s.callers| && t.callers == s.callers[i := s.callers[i].(at := t.callers[i].at)]
  {
    hide Count;
  }

  lemma TallyMoves(s: State, i: nat)
    requires Can(s, Tally(i))
    ensures var t := Next(s, Tally(i));
            |t.callers| == |s.callers| && t.callers == s.callers[i := s.callers[i].(at := t.callers[i].at)]
  {
    hide Count;
  }

  lemma OneStarts(s: State, t: string, rest: string)
    ensures SameCallers(s, Next(s, Start(t, rest)))
  {
    hide Count;
  }

  lemma OneMoved(s: State, t: State, i: nat)
    requires i < |s.callers| == |t.callers| && t.callers == s.callers[i := s.callers[i].(at := t.callers[i].at)]
    ensures SameCallers(s, t)
  {
  }

  lemma NoneMoved(s: State, t: State)
    requires t.callers == s.callers
    ensures SameCallers(s, t)
  {
  }

  lemma CallsStay(s: State, step: Step)
    requires Can(s, step)
    ensures |s.calls| <= |Next(s, step).calls|
  {
    hide Count;
  }

  lemma {:induction false} LaterOn(steps: seq<Step>, i: nat, j: nat)
    requires Run(steps) && i <= j <= |steps|
    ensures Run(steps[..i]) && Run(steps[..j]) && Later(End(steps[..i]), End(steps[..j]))
    decreases j
  {
    hide Run, End, Can, Next, Later;
    RunUpTo(steps, i);
    RunUpTo(steps, j);
    if i < j {
      LaterOn(steps, i, j - 1);
      StepAt(steps, j - 1);
      StepLater(End(steps[..j - 1]), steps[j - 1]);
      LaterTwice(End(steps[..i]), End(steps[..j - 1]), End(steps[..j]));
    } else {
      LaterSelf(End(steps[..i]));
    }
  }

  lemma LaterTwice(s: State, t: State, u: State)
    requires Later(s, t) && Later(t, u)
    ensures Later(s, u)
  {
    hide Count;
    forall x ensures Count(s.gen, x) <= Count(u.gen, x) {
      assert Count(s.gen, x) <= Count(t.gen, x) <= Count(u.gen, x);
    }
  }

  lemma LaterSelf(s: State)
    ensures Later(s, s)
  {
  }

  // ---- Where the numbers come from.

  lemma {:induction false} CommitsAre(steps: seq<Step>, t: string)
    requires Run(steps)
    ensures Count(End(steps).commits, t) == Commits(steps, t)
  {
    hide Run, End, Can, Next, Count;
    if steps == [] {
      NothingYet();
      assert Count(START.commits, t) == 0 by { NoCommits(t); }
    } else {
      LastStep(steps);
      CommitsAre(steps[..|steps| - 1], t);
      CommitStep(End(steps[..|steps| - 1]), steps[|steps| - 1], t);
    }
  }

  lemma NoCommits(t: string)
    ensures Count(START.commits, t) == 0
  {
  }

  lemma CommitStep(s: State, step: Step, t: string)
    requires Can(s, step)
    ensures Count(Next(s, step).commits, t) == Count(s.commits, t) + if step == Commit(t) then 1 else 0
  {
  }

  // The step that began a producing call.
  lemma {:induction false} CallMade(steps: seq<Step>, c: nat) returns (n: nat)
    requires Run(steps) && c < |End(steps).calls|
    ensures n < |steps| && steps[n].LookUp? && Run(steps[..n]) && Run(steps[..n + 1])
    ensures |End(steps[..n]).calls| == c && |End(steps[..n + 1]).calls| == c + 1
    ensures End(steps).calls[c].began == Count(End(steps[..n]).gen, End(steps).calls[c].key.tenant)
  {
    hide Run, End, Can, Next, Count;
    if steps == [] {
      NothingYet();
    } else {
      var init, last := steps[..|steps| - 1], |steps| - 1;
      LastStep(steps);
      CallStep(End(init), steps[last], c);
      if c < |End(init).calls| {
        n := CallMade(init, c);
        assert init[..n] == steps[..n] && init[..n + 1] == steps[..n + 1];
      } else {
        n := last;
        assert steps[..n + 1] == steps;
      }
    }
  }

  lemma CallStep(s: State, step: Step, c: nat)
    requires Can(s, step) && c < |Next(s, step).calls|
    ensures var d := Next(s, step).calls[c];
            if c < |s.calls| then
              d.began == s.calls[c].began && d.key == s.calls[c].key
            else
              && step.LookUp? && c == |s.calls| && |Next(s, step).calls| == c + 1
              && d.began == Count(s.gen, d.key.tenant)
  {
    hide Count;
  }

  // The step at which it came back, and what it had read by then.
  lemma {:induction false} OutMade(steps: seq<Step>, c: nat, v: Value) returns (r: nat)
    requires Run(steps) && c < |End(steps).calls| && End(steps).calls[c].out == Some(Good(v))
    ensures r < |steps| && steps[r] == Compute(c, true) && Run(steps[..r]) && c < |End(steps[..r]).calls|
    ensures v.version == Count(End(steps[..r]).commits, End(steps).calls[c].key.tenant)
  {
    hide Run, End, Can, Next, Count;
    if steps == [] {
      NothingYet();
    } else {
      var init, last := steps[..|steps| - 1], |steps| - 1;
      LastStep(steps);
      CallStep(End(init), steps[last], c);
      OutStep(End(init), steps[last], c, v);
      if c < |End(init).calls| && End(init).calls[c].out == Some(Good(v)) {
        r := OutMade(init, c, v);
        assert init[..r] == steps[..r];
      } else {
        r := last;
      }
    }
  }

  lemma OutStep(s: State, step: Step, c: nat, v: Value)
    requires Can(s, step) && c < |Next(s, step).calls| && Next(s, step).calls[c].out == Some(Good(v))
    ensures c < |s.calls|
    ensures s.calls[c].out == Some(Good(v))
            || (step == Compute(c, true) && v.version == Count(s.commits, s.calls[c].key.tenant))
  {
    hide Count;
  }

  // ---- The promise.

  // A write of the tenant is committed at step m and its Invalidate returns at step
  // a; at step b somebody starts. If they are answered well, with whatever was
  // found, joined or produced, its production began after a, and it read the corpus
  // later still, with every commit until then.
  lemma FreshAfter(steps: seq<Step>, m: nat, a: nat, b: nat, w: nat, i: nat) returns (n: nat, r: nat)
    requires Run(steps) && m < a < b < |steps| && Run(steps[..m]) && Run(steps[..b])
    requires steps[m].Commit? && w == |End(steps[..m]).writes| && steps[a] == Invalidate(w)
    requires steps[b].Start? && steps[b].tenant == steps[m].tenant && i == |End(steps[..b]).callers|
    requires i < |End(steps).callers| && End(steps).callers[i].at.Back? && End(steps).callers[i].at.result.Good?
    ensures var v := End(steps).callers[i].at.result.val;
            && a < n < r < |steps| && steps[n].LookUp? && steps[r] == Compute(v.call, true)
            && Run(steps[..n]) && |End(steps[..n]).calls| == v.call
            && Run(steps[..n + 1]) && |End(steps[..n + 1]).calls| == v.call + 1
            && v.version == Commits(steps[..r], steps[m].tenant)
  {
    hide Run, End, Can, Next, Inv, Commits, Later, Count;
    var t, s := steps[m].tenant, End(steps);
    assert steps[..|steps|] == steps;
    WriteOfCommit(steps, m, w);
    LaterOn(steps, m + 1, a);
    WrittenSoFar(End(steps[..m + 1]), End(steps[..a]), w);
    var g := Dropping(steps, a, w);
    LaterOn(steps, a + 1, |steps|);
    WrittenSoFar(End(steps[..a + 1]), s, w);
    Starting(steps, b, i);
    LaterOn(steps, b + 1, |steps|);
    CalledSoFar(End(steps[..b + 1]), s, i);
    LaterOn(steps, a + 1, b);
    GenSoFar(End(steps[..a + 1]), End(steps[..b]), t);
    Fresh(steps, i, w);
    var v := s.callers[i].at.result.val;
    AnswerIsOut(steps, i);
    n := CallMade(steps, v.call);
    r := OutMade(steps, v.call, v);
    CommitsAre(steps[..r], t);
    After(steps, a, n, t, g);
    LaterCalls(steps, n, r, v.call);
  }

  lemma WriteOfCommit(steps: seq<Step>, m: nat, w: nat)
    requires Run(steps) && m < |steps| && steps[m].Commit? && Run(steps[..m]) && w == |End(steps[..m]).writes|
    ensures Run(steps[..m + 1]) && w < |End(steps[..m + 1]).writes|
    ensures End(steps[..m + 1]).writes[w].tenant == steps[m].tenant
  {
    hide Run, End, Count;
    StepAt(steps, m);
  }

  lemma WrittenSoFar(s: State, t: State, w: nat)
    requires Later(s, t) && w < |s.writes|
    ensures w < |t.writes| && t.writes[w].tenant == s.writes[w].tenant
    ensures s.writes[w].dropped.Some? ==> t.writes[w].dropped == s.writes[w].dropped
  {
    hide Count;
  }

  lemma CalledSoFar(s: State, t: State, i: nat)
    requires Later(s, t) && i < |s.callers|
    ensures i < |t.callers| && t.callers[i].tenant == s.callers[i].tenant && t.callers[i].floor == s.callers[i].floor
  {
    hide Count;
  }

  lemma GenSoFar(s: State, t: State, x: string)
    requires Later(s, t)
    ensures Count(s.gen, x) <= Count(t.gen, x)
  {
    hide Count;
  }

  // What an Invalidate moves the tenant's generation to.
  lemma Dropping(steps: seq<Step>, a: nat, w: nat) returns (g: nat)
    requires Run(steps) && a < |steps| && steps[a] == Invalidate(w) && Run(steps[..a]) && w < |End(steps[..a]).writes|
    ensures Run(steps[..a + 1]) && w < |End(steps[..a + 1]).writes|
    ensures var x := End(steps[..a]).writes[w].tenant;
            && End(steps[..a + 1]).writes[w].tenant == x && End(steps[..a + 1]).writes[w].dropped == Some(g)
            && g == Count(End(steps[..a]).gen, x) + 1 == Count(End(steps[..a + 1]).gen, x)
  {
    hide Run, End;
    StepAt(steps, a);
    g := Count(End(steps[..a]).gen, End(steps[..a]).writes[w].tenant) + 1;
  }

  lemma Starting(steps: seq<Step>, b: nat, i: nat)
    requires Run(steps) && b < |steps| && steps[b].Start? && Run(steps[..b]) && i == |End(steps[..b]).callers|
    ensures Run(steps[..b + 1]) && i < |End(steps[..b + 1]).callers|
    ensures End(steps[..b + 1]).callers[i].tenant == steps[b].tenant
    ensures End(steps[..b + 1]).callers[i].floor == Count(End(steps[..b]).gen, steps[b].tenant)
  {
    hide Run, End, Count;
    StepAt(steps, b);
  }

  lemma AnswerIsOut(steps: seq<Step>, i: nat)
    requires Run(steps) && i < |End(steps).callers| && End(steps).callers[i].at.Back?
    requires End(steps).callers[i].at.result.Good?
    ensures var s, v := End(steps), End(steps).callers[i].at.result.val;
            v.call < |s.calls| && s.calls[v.call].key.tenant == s.callers[i].tenant
                && s.calls[v.call].out == Some(Good(v))
  {
    hide Run, End, Flights, Outcomes, Entries, Led, Numbered, Begun, Counted;
    Always(steps);
    assert PlaceOf(End(steps), End(steps).callers[i]);
  }

  lemma After(steps: seq<Step>, a: nat, n: nat, t: string, g: nat)
    requires Run(steps) && a < |steps| && n < |steps| && Run(steps[..a]) && Run(steps[..n])
    requires steps[a].Invalidate? && steps[n].LookUp?
    requires Count(End(steps[..a]).gen, t) < g <= Count(End(steps[..n]).gen, t)
    ensures a < n
  {
    hide Run, End, Count;
    if n < a {
      LaterOn(steps, n, a);
      GenSoFar(End(steps[..n]), End(steps[..a]), t);
    }
  }

  lemma LaterCalls(steps: seq<Step>, n: nat, r: nat, c: nat)
    requires Run(steps) && n < |steps| && r < |steps| && Run(steps[..n]) && Run(steps[..r])
    requires steps[n].LookUp? && steps[r].Compute? && |End(steps[..n]).calls| == c < |End(steps[..r]).calls|
    ensures n < r
  {
    hide Run, End, Count;
    if r < n {
      LaterOn(steps, r, n);
    }
  }

  // ---- And with nothing left to invalidate.

  // The write committed at m was invalidated before b.
  ghost predicate DroppedBefore(steps: seq<Step>, m: nat, b: nat)
    requires Run(steps) && m < |steps| && Run(steps[..m])
  {
    exists a :: m < a < b && a < |steps| && steps[a] == Invalidate(|End(steps[..m]).writes|)
  }

  // If every write of the tenant there is was invalidated before somebody started,
  // a good answer to them has read every commit of the run.
  lemma CurrentAfter(steps: seq<Step>, b: nat, i: nat)
    requires Run(steps) && b < |steps| && steps[b].Start? && Run(steps[..b]) && i == |End(steps[..b]).callers|
    requires i < |End(steps).callers| && End(steps).callers[i].at.Back? && End(steps).callers[i].at.result.Good?
    requires forall m: nat :: m < |steps| && steps[m] == Commit(steps[b].tenant) ==>
               Run(steps[..m]) && DroppedBefore(steps, m, b)
    ensures End(steps).callers[i].at.result.val.version == Commits(steps, steps[b].tenant)
  {
    hide Run, End, Can, Next, Count;
    var t := steps[b].tenant;
    var m := LastCommit(steps, t);
    if m < 0 {
      var v := End(steps).callers[i].at.result.val;
      AnswerIsOut(steps, i);
      var r := OutMade(steps, v.call, v);
      Starting(steps, b, i);
      LaterOn(steps, b + 1, |steps|);
      assert steps[..|steps|] == steps;
      CommitsAre(steps[..r], t);
      SameCommits(steps, r, t);
    } else {
      var a :| m < a < b && a < |steps| && steps[a] == Invalidate(|End(steps[..m]).writes|);
      var n, r := FreshAfter(steps, m, a, b, |End(steps[..m]).writes|, i);
      SameCommits(steps, r, t);
    }
  }

  lemma {:induction false} LastCommit(steps: seq<Step>, t: string) returns (m: int)
    ensures -1 <= m < |steps| && (m >= 0 ==> steps[m] == Commit(t)) && forall k :: m < k < |steps| ==>
          steps[k] != Commit(t)
  {
    if steps == [] {
      m := -1;
    } else if steps[|steps| - 1] == Commit(t) {
      m := |steps| - 1;
    } else {
      m := LastCommit(steps[..|steps| - 1], t);
    }
  }

  lemma {:induction false} SameCommits(steps: seq<Step>, r: nat, t: string)
    requires r <= |steps| && forall k :: r <= k < |steps| ==> steps[k] != Commit(t)
    ensures Commits(steps[..r], t) == Commits(steps, t)
  {
    if r < |steps| {
      var init := steps[..|steps| - 1];
      SameCommits(init, r, t);
      assert init[..r] == steps[..r];
    } else {
      assert steps[..r] == steps;
    }
  }

  // ---- A value stored stays to be found.

  // From its store on, until something drops it, a good value's key is held, and
  // whoever looks it up answers with what is held.
  lemma {:induction false} HeldUntilDropped(steps: seq<Step>, r: nat, n: nat)
    requires Run(steps) && r < n <= |steps| && steps[r].Store? && Run(steps[..r]) && Run(steps[..n])
    requires Can(End(steps[..r]), steps[r])
    requires End(steps[..r]).calls[steps[r].c].out.Some? && End(steps[..r]).calls[steps[r].c].out.value.Good?
    requires forall k :: r < k < n ==> steps[k] != Clear && steps[k] != Drop(End(steps[..r]).calls[steps[r].c].key)
    ensures End(steps[..r]).calls[steps[r].c].key in End(steps[..n]).cached
    decreases n
  {
    hide Run, End, Next;
    StepAt(steps, n - 1);
    var key := End(steps[..r]).calls[steps[r].c].key;
    if r == n - 1 {
      StoreHolds(End(steps[..r]), steps[r].c);
    } else {
      HeldUntilDropped(steps, r, n - 1);
      StillHeld(End(steps[..n - 1]), steps[n - 1], key);
    }
  }

  lemma StoreHolds(s: State, c: nat)
    requires Can(s, Store(c)) && s.calls[c].out.Some? && s.calls[c].out.value.Good?
    ensures s.calls[c].key in Next(s, Store(c)).cached
  {
  }

  lemma StillHeld(s: State, step: Step, key: Key)
    requires Can(s, step) && key in s.cached && step != Clear && step != Drop(key)
    ensures key in Next(s, step).cached
  {
  }

  // ---- Whatever has happened so far, a call can be made and come back.

  lemma More(steps: seq<Step>, step: Step)
    requires Run(steps) && Can(End(steps), step)
    ensures Run(steps + [step]) && End(steps + [step]) == Next(End(steps), step)
  {
    hide Can, Next;
    assert (steps + [step])[..|steps|] == steps;
  }

  // Nobody has met a generation that is still to come.
  lemma NewGeneration(s: State, key: Key)
    requires Inv(s) && Count(s.gen, key.tenant) < key.gen
    ensures key !in s.cached && key !in s.inflight
  {
    hide Placed, Led, Numbered, Counted, Count, Outcomes, Producer;
    forall k | k in s.cached ensures k.gen <= Count(s.gen, k.tenant) {
      assert From(s, k, Good(s.cached[k]));
      assert BegunAt(s, s.calls[Producer(Good(s.cached[k]))]);
    }
    forall k | k in s.inflight ensures k.gen <= Count(s.gen, k.tenant) {
      assert BegunAt(s, s.calls[s.inflight[k]]);
    }
  }

  // A write, its Invalidate and a call after it, at any moment of any run: the call
  // can come back, and with the corpus the write left.
  lemma FreshHappens(steps: seq<Step>, t: string, rest: string) returns (more: seq<Step>)
    requires Run(steps)
    ensures |more| >= 3 && more[0] == Commit(t) && more[1] == Invalidate(|End(steps).writes|)
        && more[2] == Start(t, rest)
    ensures Run(steps + more)
    ensures var i, s := |End(steps).callers|, End(steps + more);
            && i < |s.callers| && s.callers[i].at.Back? && s.callers[i].at.result.Good?
            && s.callers[i].at.result.val.version == Commits(steps + more, t)
  {
    hide Run, End, Commits, Inv;
    var s, w, i, c := End(steps), |End(steps).writes|, |End(steps).callers|, |End(steps).calls|;
    Always(steps);
    NewGeneration(s, Key(t, Count(s.gen, t) + 1, rest));
    var a := steps + [Commit(t)] + [Invalidate(w)] + [Start(t, rest)];
    More(steps, Commit(t));
    More(steps + [Commit(t)], Invalidate(w));
    More(steps + [Commit(t)] + [Invalidate(w)], Start(t, rest));
    Prepared(s, t, rest);
    var b := Answered(a, i, c, Key(t, Count(s.gen, t) + 1, rest));
    more := [Commit(t), Invalidate(w), Start(t, rest)] + b;
    assert steps + more == a + b;
    CommitsAre(steps + more, t);
  }

  lemma Prepared(s: State, t: string, rest: string)
    ensures Can(s, Commit(t))
    ensures var s1, w := Next(s, Commit(t)), |s.writes|;
            Can(s1, Invalidate(w)) && var u := Next(Next(s1, Invalidate(w)), Start(t, rest));
            && |u.callers| == |s.callers| + 1 && u.callers[|s.callers|].at.Starting? && |u.calls| == |s.calls|
            && u.callers[|s.callers|].tenant == t && u.callers[|s.callers|].rest == rest
            && Count(u.gen, t) == Count(s.gen, t) + 1 && u.cached == s.cached && u.inflight == s.inflight
  {
  }

  // A caller at work on a call it started, and the call.
  ghost predicate Producing(s: State, i: nat, c: nat, key: Key, counted: bool, stage: Stage, out: Option<Result>) {
    && i < |s.callers| && s.callers[i].at == Leading(key, c, counted)
    && c < |s.calls| && s.calls[c].key == key && s.calls[c].leader == i && s.calls[c].stage == stage
    && s.calls[c].out == out
  }

  lemma Begins(s: State, i: nat, key: Key)
    requires i < |s.callers| && s.callers[i].at.Starting? && key !in s.cached && key !in s.inflight
    requires key == Key(s.callers[i].tenant, Count(s.gen, s.callers[i].tenant), s.callers[i].rest)
    ensures Can(s, ReadGen(i)) && Can(Next(s, ReadGen(i)), LookUp(i))
    ensures var t := Next(Next(s, ReadGen(i)), LookUp(i));
            Producing(t, i, |s.calls|, key, false, Running, None) && t.commits == s.commits
  {
  }

  lemma Produces(s: State, i: nat, c: nat, key: Key)
    requires Producing(s, i, c, key, false, Running, None)
    ensures Can(s, Tally(i)) && Can(Next(s, Tally(i)), Compute(c, true))
    ensures var t, v := Next(Next(s, Tally(i)), Compute(c, true)), Value(c, Count(s.commits, key.tenant));
            Producing(t, i, c, key, true, Returned, Some(Good(v))) && t.commits == s.commits
  {
    hide Count;
  }

  lemma HandsOver(s: State, i: nat, c: nat, key: Key, v: Value)
    requires Producing(s, i, c, key, true, Returned, Some(Good(v)))
    ensures Can(s, Store(c)) && Can(Next(s, Store(c)), Release(c))
    ensures var t := Next(Next(s, Store(c)), Release(c));
            Producing(t, i, c, key, true, Released, Some(Good(v))) && t.commits == s.commits
  {
    hide Count;
  }

  lemma Returns(s: State, i: nat, c: nat, key: Key, v: Value)
    requires Producing(s, i, c, key, true, Released, Some(Good(v)))
    ensures Can(s, Return(i))
    ensures var t := Next(s, Return(i));
            && i < |t.callers| && t.callers[i].at.Back? && t.callers[i].at.result == Good(v) && t.commits == s.commits
  {
    hide Count;
  }

  lemma TwoMore(steps: seq<Step>, x: Step, y: Step)
    requires Run(steps) && Can(End(steps), x) && Can(Next(End(steps), x), y)
    ensures Run(steps + [x, y]) && End(steps + [x, y]) == Next(Next(End(steps), x), y)
  {
    hide Run, End, Can, Next;
    More(steps, x);
    More(steps + [x], y);
    assert steps + [x] + [y] == steps + [x, y];
  }

  // A caller who finds nothing and nobody under its key produces its own answer.
  lemma Answered(steps: seq<Step>, i: nat, c: nat, key: Key) returns (more: seq<Step>)
    requires Run(steps) && i < |End(steps).callers| && c == |End(steps).calls|
    requires var s, a := End(steps), End(steps).callers[i];
             && a.at.Starting? && key == Key(a.tenant, Count(s.gen, a.tenant), a.rest)
             && key !in s.cached && key !in s.inflight
    ensures Run(steps + more)
    ensures var s := End(steps + more);
            && i < |s.callers| && s.callers[i].at.Back? && s.callers[i].at.result.Good?
            && s.commits == End(steps).commits
            && s.callers[i].at.result.val.version == Count(s.commits, key.tenant)
  {
    hide Run, End, Can, Next, Producing, Count;
    var v := Value(c, Count(End(steps).commits, key.tenant));
    Begins(End(steps), i, key);
    TwoMore(steps, ReadGen(i), LookUp(i));
    var s1 := steps + [ReadGen(i), LookUp(i)];
    Produces(End(s1), i, c, key);
    TwoMore(s1, Tally(i), Compute(c, true));
    var s2 := s1 + [Tally(i), Compute(c, true)];
    HandsOver(End(s2), i, c, key, v);
    TwoMore(s2, Store(c), Release(c));
    var s3 := s2 + [Store(c), Release(c)];
    Returns(End(s3), i, c, key, v);
    More(s3, Return(i));
    more := [ReadGen(i), LookUp(i), Tally(i), Compute(c, true), Store(c), Release(c), Return(i)];
    assert steps + more == s3 + [Return(i)];
  }

  // How far a caller is from coming back.
  function ToGo(s: State, i: nat): nat
    requires i < |s.callers|
  {
    match s.callers[i].at
    case Starting => 12
    case Keyed(_) => 11
    case Holding(_, _) => 1
    case Joined(_, c, counted) => (if counted then 0 else 1) + Stages(s, c)
    case Leading(_, c, counted) => (if counted then 0 else 1) + Stages(s, c)
    case Back(_, _, _) => 0
  }

  function Stages(s: State, c: nat): nat {
    if c >= |s.calls| then 6
    else
      match s.calls[c].stage
      case Running =>
        if s.calls[c].leader < |s.callers| && s.callers[s.calls[c].leader].at == Leading(s.calls[c].key, c, true)
            then 5 else 6
      case Returned => 4
      case Stored => 3
      case Released => 2
  }

  // The step somebody is not stranded by brings them nearer.
  lemma Nearer(s: State, i: nat) returns (step: Step)
    requires Inv(s) && i < |s.callers| && !s.callers[i].at.Back?
    ensures Can(s, step) && i < |Next(s, step).callers| && ToGo(Next(s, step), i) < ToGo(s, i)
  {
    hide Can, Next, Count, Inv, ToGo, Outcomes, Placed, Led;
    InvParts(s);
    var at := s.callers[i].at;
    match at
    case Starting => step := ReadGen(i); NearerReading(s, i);
    case Keyed(_) => step := LookUp(i); NearerLooking(s, i);
    case Holding(_, _) => step := Tally(i); NearerTally(s, i);
    case Joined(_, c, counted) =>
      CallOf(s, i, c);
      if counted { step := NearerCall(s, i, c); } else { step := Tally(i); NearerTally(s, i); }
    case Leading(_, c, counted) =>
      CallOf(s, i, c);
      if counted { step := NearerCall(s, i, c); } else { step := Tally(i); NearerTally(s, i); }
  }

  lemma CallOf(s: State, i: nat, c: nat)
    requires Placed(s) && i < |s.callers| && (s.callers[i].at.Joined? || s.callers[i].at.Leading?)
        && s.callers[i].at.call == c
    ensures c < |s.calls|
  {
    hide Count;
    assert PlaceOf(s, s.callers[i]);
  }

  lemma NearerReading(s: State, i: nat)
    requires i < |s.callers| && s.callers[i].at.Starting?
    ensures Can(s, ReadGen(i)) && i < |Next(s, ReadGen(i)).callers| && ToGo(Next(s, ReadGen(i)), i) < ToGo(s, i)
  {
    hide Count;
  }

  lemma NearerLooking(s: State, i: nat)
    requires i < |s.callers| && s.callers[i].at.Keyed?
    ensures Can(s, LookUp(i)) && i < |Next(s, LookUp(i)).callers| && ToGo(Next(s, LookUp(i)), i) < ToGo(s, i)
  {
    hide Count;
  }

  lemma NearerTally(s: State, i: nat)
    requires i < |s.callers|
    requires var at := s.callers[i].at; at.Holding? || (at.Joined? && !at.counted) || (at.Leading? && !at.counted)
    ensures Can(s, Tally(i)) && i < |Next(s, Tally(i)).callers| && ToGo(Next(s, Tally(i)), i) < ToGo(s, i)
  {
    hide Count;
  }

  lemma InvParts(s: State)
    requires Inv(s)
    ensures Outcomes(s) && Placed(s) && Led(s)
  {
    hide Flights, Outcomes, Entries, Placed, Led, Numbered, Begun, Counted;
  }

  lemma NearerCall(s: State, i: nat, c: nat) returns (step: Step)
    requires Outcomes(s) && Led(s) && i < |s.callers| && c < |s.calls|
    requires (s.callers[i].at.Joined? || s.callers[i].at.Leading?) && s.callers[i].at.counted
        && s.callers[i].at.call == c
    ensures Can(s, step) && i < |Next(s, step).callers| && ToGo(Next(s, step), i) < ToGo(s, i)
  {
    hide Count, Can, Next, ToGo, Outcomes, Led;
    assert OutcomeOf(s, c) by { OutcomeHere(s, c); }
    match s.calls[c].stage
    case Running =>
      LeaderHere(s, c);
      var l := s.calls[c].leader;
      if s.callers[l].at.counted {
        step := Compute(c, true);
        NearerStage(s, i, c, step);
      } else {
        step := Tally(l);
        NearerLeader(s, i, c, l);
      }
    case Returned => step := Store(c); NearerStage(s, i, c, step);
    case Stored => step := Release(c); NearerStage(s, i, c, step);
    case Released => step := Return(i); NearerReturn(s, i, c);
  }

  lemma OutcomeHere(s: State, c: nat)
    requires Outcomes(s) && c < |s.calls|
    ensures OutcomeOf(s, c)
  {
    hide OutcomeOf;
  }

  lemma LeaderHere(s: State, c: nat)
    requires Led(s) && c < |s.calls| && s.calls[c].stage.Running?
    ensures s.calls[c].leader < |s.callers|
    ensures s.callers[s.calls[c].leader].at.Leading? && s.callers[s.calls[c].leader].at.key == s.calls[c].key
    ensures s.callers[s.calls[c].leader].at.call == c
  {
    assert LedAt(s, c);
  }

  ghost predicate Waits(s: State, i: nat, c: nat) {
    && i < |s.callers| && c < |s.calls| && (s.callers[i].at.Joined? || s.callers[i].at.Leading?)
    && s.callers[i].at.counted && s.callers[i].at.call == c
  }

  lemma NearerStage(s: State, i: nat, c: nat, step: Step)
    requires Waits(s, i, c)
    requires || (step == Compute(c, true) && s.calls[c].stage.Running? && s.calls[c].leader < |s.callers|
                 && s.callers[s.calls[c].leader].at == Leading(s.calls[c].key, c, true))
             || (step == Store(c) && s.calls[c].stage.Returned?) || (step == Release(c) && s.calls[c].stage.Stored?)
    ensures Can(s, step) && i < |Next(s, step).callers| && ToGo(Next(s, step), i) < ToGo(s, i)
  {
    hide Count;
    var t := Next(s, step);
    assert t.callers == s.callers && |t.calls| == |s.calls| && t.calls[c].leader == s.calls[c].leader;
  }

  lemma NearerLeader(s: State, i: nat, c: nat, l: nat)
    requires Waits(s, i, c) && s.calls[c].stage.Running? && s.calls[c].leader == l && l < |s.callers|
    requires s.callers[l].at == Leading(s.calls[c].key, c, false)
    ensures Can(s, Tally(l)) && i < |Next(s, Tally(l)).callers| && ToGo(Next(s, Tally(l)), i) < ToGo(s, i)
  {
    hide Count;
    var t := Next(s, Tally(l));
    assert t.calls == s.calls && t.callers[i] == s.callers[i] && t.callers[l].at == Leading(s.calls[c].key, c, true);
  }

  lemma NearerReturn(s: State, i: nat, c: nat)
    requires Waits(s, i, c) && s.calls[c].stage.Released? && s.calls[c].out.Some?
    ensures Can(s, Return(i)) && i < |Next(s, Return(i)).callers| && ToGo(Next(s, Return(i)), i) < ToGo(s, i)
  {
    hide Count;
  }

  // Whoever is not back yet can come back.
  lemma {:induction false} AnyoneComesBack(steps: seq<Step>, i: nat) returns (more: seq<Step>)
    requires Run(steps) && i < |End(steps).callers|
    ensures Run(steps + more) && i < |End(steps + more).callers| && End(steps + more).callers[i].at.Back?
    decreases ToGo(End(steps), i)
  {
    hide Run, End, Can, Next, Inv, ToGo;
    if End(steps).callers[i].at.Back? {
      more := [];
      assert steps + [] == steps;
    } else {
      Always(steps);
      var step := Nearer(End(steps), i);
      More(steps, step);
      var rest := AnyoneComesBack(steps + [step], i);
      more := [step] + rest;
      assert steps + [step] + rest == steps + more;
    }
  }
}
