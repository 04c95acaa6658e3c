// directory/expand.go, level: one breadth first level looked up by concurrent
// workers. The scheduler is the loop: at every turn it picks any worker that can
// move and lets it take one step on the shared state.
module Level {
  import opened Encoding

  datatype Failure = Canceled | Outage(message: string)

  // A group with its revision and its parents, or no such group.
  datatype Answer = Found(version: string, memberOf: seq<string>) | Absent

  datatype Lookup = Answered(answer: Answer) | Failed(failure: Failure)

  type Groups = string -> Lookup

  // The answer a slot holds before anything is written to it, and what a skipped
  // lookup would pass off as a group in no groups.
  const ZERO := Found("", [])

  datatype LevelError = LevelError(id: string, failure: Failure)

  // Where a worker is: before the semaphore, inside it with the flag unread,
  // waiting on the directory, between writing its error and raising the flag,
  // between raising the flag and cancelling, about to leave, gone.
  datatype Phase = Waiting | Entered | Asking | Recorded | Raised | Leaving | Done

  predicate Holds(p: Phase) {
    p != Waiting && p != Done
  }

  function Rank(p: Phase): nat {
    match p
    case Waiting => 6
    case Entered => 5
    case Asking => 4
    case Recorded => 3
    case Raised => 2
    case Leaving => 1
    case Done => 0
  }

  ghost function Work(phases: seq<Phase>): nat {
    if phases == [] then 0 else Work(phases[..|phases| - 1]) + Rank(phases[|phases| - 1])
  }

  lemma {:induction false} WorkStep(phases: seq<Phase>, i: nat, p: Phase)
    requires i < |phases|
    ensures Work(phases[i := p]) == Work(phases) - Rank(phases[i]) + Rank(p)
  {
    var n := |phases| - 1;
    if i < n {
      WorkStep(phases[..n], i, p);
      assert phases[i := p][..n] == phases[..n][i := p];
    } else {
      assert phases[i := p][..n] == phases[..n];
    }
  }

  ghost function Holders(phases: seq<Phase>): set<int> {
    set i | 0 <= i < |phases| && Holds(phases[i])
  }

  predicate CanMove(phases: seq<Phase>, held: nat, slots: nat, i: int) {
    0 <= i < |phases| && phases[i] != Done && (phases[i] == Waiting ==> held < slots)
  }

  // A level that is not finished can always move: nobody waits for a slot that
  // nobody holds.
  lemma NoDeadlock(phases: seq<Phase>, held: nat, slots: nat, j: nat)
    requires slots > 0 && held == |Holders(phases)| && j < |phases| && phases[j] != Done
    ensures exists i :: CanMove(phases, held, slots, i)
  {
    if Holders(phases) == {} {
      assert held == 0;
      assert CanMove(phases, held, slots, j);
    } else {
      var i :| i in Holders(phases);
      assert CanMove(phases, held, slots, i);
    }
  }

  // A recorded failure is the directory's own, or a lookup that noticed it had
  // been cancelled.
  ghost predicate Recordable(groups: Groups, id: string, err: Option<Failure>) {
    err.Some? ==> groups(id) == Failed(err.value) || err.value == Canceled
  }

  ghost predicate Own(groups: Groups, ids: seq<string>, errs: seq<Option<Failure>>, j: int) {
    0 <= j < |ids| && j < |errs| && errs[j].Some? && groups(ids[j]) == Failed(errs[j].value)
  }

  ghost predicate HasOwn(groups: Groups, ids: seq<string>, errs: seq<Option<Failure>>) {
    exists j :: Own(groups, ids, errs, j)
  }

  ghost predicate HasError(errs: seq<Option<Failure>>) {
    exists j :: 0 <= j < |errs| && errs[j].Some?
  }

  // Everything the workers of one level share.
  datatype Shared = Shared(phases: seq<Phase>, out: seq<Answer>, errs: seq<Option<Failure>>, fail: bool, canceled: bool)

  // One step of worker i. `got` is what its lookup came back with, on the step
  // where it does.
  function Step(s: Shared, i: nat, got: Lookup): Shared
    requires i < |s.phases| == |s.out| == |s.errs|
  {
    match s.phases[i]
    case Waiting => s.(phases := s.phases[i := Entered])
    case Entered => s.(phases := s.phases[i := if s.fail then Leaving else Asking])
    case Asking =>
      (match got
       case Answered(a) => s.(phases := s.phases[i := Leaving], out := s.out[i := a])
       case Failed(f) => s.(phases := s.phases[i := Recorded], errs := s.errs[i := Some(f)]))
    case Recorded => s.(phases := s.phases[i := Raised], fail := true)
    case Raised => s.(phases := s.phases[i := Leaving], canceled := true)
    case Leaving => s.(phases := s.phases[i := Done])
    case Done => s
  }

  // What every interleaving keeps. The flag goes up only after an error is in its
  // slot, so a worker that skips its lookup leaves a level that will be refused.
  ghost predicate Consistent(groups: Groups, ids: seq<string>, s: Shared, callerCancels: bool) {
    && |s.phases| == |s.out| == |s.errs| == |ids|
    && (forall i :: 0 <= i < |ids| ==> Recordable(groups, ids[i], s.errs[i]))
    && (forall i :: 0 <= i < |ids| ==> InPhase(groups, ids[i], s.phases[i], s.out[i], s.errs[i], s.fail))
    && (s.fail ==> HasError(s.errs))
    && (s.canceled ==> s.fail)
    && (!callerCancels && HasError(s.errs) ==> HasOwn(groups, ids, s.errs))
  }

  // What one slot holds, by where its worker is.
  ghost predicate InPhase(groups: Groups, id: string, phase: Phase, out: Answer, err: Option<Failure>, fail: bool) {
    match phase
    case Waiting => err.None?
    case Entered => err.None?
    case Asking => err.None?
    case Recorded => err.Some?
    case Raised => err.Some? && fail
    case _ => err.Some? || fail || groups(id) == Answered(out)
  }

  lemma StepKeeps(groups: Groups, ids: seq<string>, s: Shared, callerCancels: bool, i: nat, got: Lookup)
    requires Consistent(groups, ids, s, callerCancels) && i < |ids|
    requires s.phases[i] == Asking ==>
               got == groups(ids[i]) || ((s.canceled || callerCancels) && got == Failed(Canceled))
    ensures Consistent(groups, ids, Step(s, i, got), callerCancels)
  {
    hide HasError, HasOwn, Own;
    if s.phases[i] == Asking && got.Failed? {
      ErrorAt(s.errs[i := Some(got.failure)], i);
      OwnWith(groups, ids, s.errs, i, got.failure);
    } else if s.phases[i] == Recorded {
      ErrorAt(s.errs, i);
    }
  }

  lemma ErrorAt(errs: seq<Option<Failure>>, i: nat)
    requires i < |errs| && errs[i].Some?
    ensures HasError(errs)
  {
  }

  // One more failure in an empty slot: somebody's own, or after somebody's own.
  lemma OwnWith(groups: Groups, ids: seq<string>, errs: seq<Option<Failure>>, i: nat, f: Failure)
    requires i < |ids| == |errs| && errs[i].None?
    ensures groups(ids[i]) == Failed(f) || HasOwn(groups, ids, errs) ==> HasOwn(groups, ids, errs[i := Some(f)])
  {
    if groups(ids[i]) == Failed(f) {
      assert Own(groups, ids, errs[i := Some(f)], i);
    } else if HasOwn(groups, ids, errs) {
      var j :| Own(groups, ids, errs, j);
      assert Own(groups, ids, errs[i := Some(f)], j);
    }
  }

  lemma MoveHolds(phases: seq<Phase>, i: nat, p: Phase)
    requires i < |phases|
    ensures |Holders(phases[i := p])| ==
            |Holders(phases)| + (if Holds(p) then 1 else 0) - (if Holds(phases[i]) then 1 else 0)
  {
    var was, now := Holders(phases), Holders(phases[i := p]);
    assert now - {i} == was - {i};
    assert now == if Holds(p) then (was - {i}) + {i} else was - {i};
    assert |was| == |was - {i}| + (if i in was then 1 else 0);
  }

  // How a step moves the semaphore, and that it is one step nearer the end.
  lemma StepHolds(s: Shared, i: nat, got: Lookup)
    requires i < |s.phases| == |s.out| == |s.errs|
    ensures |Step(s, i, got).phases| == |s.phases|
    ensures s.phases[i] != Done ==> Work(Step(s, i, got).phases) < Work(s.phases)
    ensures |Holders(Step(s, i, got).phases)| ==
            |Holders(s.phases)| + (if s.phases[i] == Waiting then 1 else if s.phases[i] == Leaving then -1 else 0)
  {
    hide Holders, Work;
    var t := Step(s, i, got);
    assert t.phases == s.phases[i := t.phases[i]];
    WorkStep(s.phases, i, t.phases[i]);
    MoveHolds(s.phases, i, t.phases[i]);
  }

  // One worker's lookup. A cancelled context may or may not be noticed.
  method Ask(groups: Groups, id: string, canceled: bool) returns (got: Lookup)
    ensures got == groups(id) || (canceled && got == Failed(Canceled))
  {
    var notices: bool := *;
    got := if canceled && notices then Failed(Canceled) else groups(id);
  }

  // The first error that passes, in the order of the slots.
  function FirstWhere(ids: seq<string>, errs: seq<Option<Failure>>, passes: Failure -> bool): (r: Option<LevelError>)
    requires |ids| == |errs|
    ensures r.None? <==> forall i :: 0 <= i < |errs| && errs[i].Some? ==> !passes(errs[i].value)
    ensures r.Some? ==> exists i :: IsFirst(ids, errs, passes, i, r.value)
    decreases |errs|
  {
    if errs == [] then None
    else if errs[0].Some? && passes(errs[0].value) then
      assert IsFirst(ids, errs, passes, 0, LevelError(ids[0], errs[0].value));
      Some(LevelError(ids[0], errs[0].value))
    else
      var r := FirstWhere(ids[1..], errs[1..], passes);
      assert forall i, e :: IsFirst(ids[1..], errs[1..], passes, i, e) ==> IsFirst(ids, errs, passes, i + 1, e);
      assert forall i :: 0 < i < |errs| ==> errs[i] == errs[1..][i - 1];
      r
  }

  ghost predicate IsFirst(ids: seq<string>, errs: seq<Option<Failure>>, passes: Failure -> bool, i: int,
                          e: LevelError) {
    && 0 <= i < |ids| && i < |errs| && ids[i] == e.id && errs[i] == Some(e.failure) && passes(e.failure)
    && forall j :: 0 <= j < i && errs[j].Some? ==> !passes(errs[j].value)
  }

  // What a level reports: the first failure that is no cancellation, or failing
  // that the first cancellation.
  function ErrorOf(ids: seq<string>, errs: seq<Option<Failure>>): Option<LevelError>
    requires |ids| == |errs|
  {
    var own := FirstWhere(ids, errs, f => f != Canceled);
    if own.Some? then own else FirstWhere(ids, errs, _ => true)
  }

  // One of the two loops over the errors.
  method Search(ids: seq<string>, errs: seq<Option<Failure>>, passes: Failure -> bool) returns (err: Option<LevelError>)
    requires |ids| == |errs|
    ensures err == FirstWhere(ids, errs, passes)
  {
    hide FirstWhere;
    for i := 0 to |errs|
      invariant forall j :: 0 <= j < i && errs[j].Some? ==> !passes(errs[j].value)
    {
      if errs[i].Some? && passes(errs[i].value) {
        OnlyFirst(ids, errs, passes, i);
        return Some(LevelError(ids[i], errs[i].value));
      }
    }
    return None;
  }

  lemma OnlyFirst(ids: seq<string>, errs: seq<Option<Failure>>, passes: Failure -> bool, i: nat)
    requires |ids| == |errs| && i < |errs| && errs[i].Some? && passes(errs[i].value)
    requires forall j :: 0 <= j < i && errs[j].Some? ==> !passes(errs[j].value)
    ensures FirstWhere(ids, errs, passes) == Some(LevelError(ids[i], errs[i].value))
  {
    hide FirstWhere;
    var k :| IsFirst(ids, errs, passes, k, FirstWhere(ids, errs, passes).value);
    assert k == i;
  }

  // The errors in order, a real failure before a cancellation.
  method FirstError(ids: seq<string>, errs: seq<Option<Failure>>) returns (err: Option<LevelError>)
    requires |ids| == |errs|
    ensures err == ErrorOf(ids, errs)
  {
    err := Search(ids, errs, f => f != Canceled);
    if err.None? {
      err := Search(ids, errs, _ => true);
    }
  }

  // What the error reported says of the errors recorded.
  lemma ErrorIs(ids: seq<string>, errs: seq<Option<Failure>>)
    requires |ids| == |errs|
    ensures var e := ErrorOf(ids, errs);
            && (e.None? <==> !HasError(errs))
            && (e.Some? ==> exists i :: 0 <= i < |ids| && ids[i] == e.value.id && errs[i] == Some(e.value.failure))
            && (e.Some? && e.value.failure == Canceled ==> forall i :: 0 <= i < |errs| && errs[i].Some? ==>
                errs[i].value == Canceled)
  {
    hide FirstWhere;
    var own, any := FirstWhere(ids, errs, f => f != Canceled), FirstWhere(ids, errs, _ => true);
    if own.Some? {
      var i :| IsFirst(ids, errs, f => f != Canceled, i, own.value);
    } else if any.Some? {
      var i :| IsFirst(ids, errs, _ => true, i, any.value);
    }
  }

  // ---- Whole schedules.

  // One turn of the scheduler: a worker, and what its lookup comes back with if it
  // is waiting for one.
  datatype Turn = Turn(i: nat, got: Lookup)

  function Slots(ids: seq<string>, width: nat): nat {
    if width < |ids| then width else |ids|
  }

  ghost predicate May(groups: Groups, ids: seq<string>, width: nat, callerCancels: bool, s: Shared, t: Turn) {
    && t.i < |ids| == |s.phases| == |s.out| == |s.errs|
    && CanMove(s.phases, |Holders(s.phases)|, Slots(ids, width), t.i)
    && (s.phases[t.i] == Asking ==>
          t.got == groups(ids[t.i]) || ((s.canceled || callerCancels) && t.got == Failed(Canceled)))
  }

  function Begin(ids: seq<string>): Shared {
    Shared(seq(|ids|, _ => Waiting), seq(|ids|, _ => ZERO), seq(|ids|, _ => None), false, false)
  }

  ghost predicate Run(groups: Groups, ids: seq<string>, width: nat, callerCancels: bool, turns: seq<Turn>)
    decreases |turns|, 0
  {
    turns == [] ||
    (&& Run(groups, ids, width, callerCancels, turns[..|turns| - 1])
     && May(groups, ids, width, callerCancels, End(groups, ids, width, callerCancels, turns[..|turns| - 1]),
            turns[|turns| - 1]))
  }

  ghost function End(groups: Groups, ids: seq<string>, width: nat, callerCancels: bool, turns: seq<Turn>): Shared
    requires Run(groups, ids, width, callerCancels, turns)
    decreases |turns|, 1
  {
    if turns == [] then Begin(ids)
    else
      var t := turns[|turns| - 1];
      Step(End(groups, ids, width, callerCancels, turns[..|turns| - 1]), t.i, t.got)
  }

  predicate AllDone(s: Shared) {
    forall i :: 0 <= i < |s.phases| ==> s.phases[i] == Done
  }

  lemma Extend(groups: Groups, ids: seq<string>, width: nat, callerCancels: bool, turns: seq<Turn>, t: Turn)
    requires Run(groups, ids, width, callerCancels, turns)
    requires May(groups, ids, width, callerCancels, End(groups, ids, width, callerCancels, turns), t)
    ensures Run(groups, ids, width, callerCancels, turns + [t])
    ensures End(groups, ids, width, callerCancels, turns + [t]) ==
            Step(End(groups, ids, width, callerCancels, turns), t.i, t.got)
  {
    hide Step, May;
    assert (turns + [t])[..|turns|] == turns;
  }

  lemma {:induction false} RunKeeps(groups: Groups, ids: seq<string>, width: nat, callerCancels: bool, turns: seq<Turn>)
    requires Run(groups, ids, width, callerCancels, turns)
    ensures Consistent(groups, ids, End(groups, ids, width, callerCancels, turns), callerCancels)
  {
    hide Step, Consistent, Holders;
    if turns == [] {
      Start(groups, ids, Begin(ids), callerCancels);
    } else {
      var t := turns[|turns| - 1];
      RunKeeps(groups, ids, width, callerCancels, turns[..|turns| - 1]);
      StepKeeps(groups, ids, End(groups, ids, width, callerCancels, turns[..|turns| - 1]), callerCancels, t.i, t.got);
    }
  }

  // `callerCancels` says the caller's own context may be cancelled at any moment
  // of the level; `peak` is the most lookups there ever were in flight, and `turns`
  // the schedule, which may be any.
  method LookUp(groups: Groups, ids: seq<string>, width: nat, callerCancels: bool)
    returns (out: seq<Answer>, err: Option<LevelError>, peak: nat, ghost turns: seq<Turn>)
    requires width > 0
    ensures Run(groups, ids, width, callerCancels, turns)
    ensures var s := End(groups, ids, width, callerCancels, turns);
            AllDone(s) && |s.errs| == |ids| && err == ErrorOf(ids, s.errs) && out == s.out
    ensures err.None? ==> |out| == |ids| && forall i :: 0 <= i < |ids| ==> groups(ids[i]) == Answered(out[i])
    ensures !callerCancels && (forall id :: id in ids ==> groups(id).Answered?) ==> err.None?
    ensures err.Some? ==> err.value.id in ids
    ensures err.Some? && err.value.failure != Canceled ==> groups(err.value.id) == Failed(err.value.failure)
    ensures err.Some? && err.value.failure == Canceled && !callerCancels ==>
              exists id :: id in ids && groups(id) == Failed(Canceled)
    ensures peak <= width && peak <= |ids|
  {
    hide Consistent, Work, Holders, Step, ErrorOf, Run, End;
    var n := |ids|;
    var slots := if width < n then width else n;
    var s := Shared(seq(n, _ => Waiting), seq(n, _ => ZERO), seq(n, _ => None), false, false);
    Start(groups, ids, s, callerCancels);
    turns := [];
    RunNothing(groups, ids, width, callerCancels);
    var held := 0;
    peak := 0;
    while exists j :: 0 <= j < n && s.phases[j] != Done
      invariant |s.phases| == |s.out| == |s.errs| == n
      invariant Consistent(groups, ids, s, callerCancels)
      invariant Run(groups, ids, width, callerCancels, turns) && s == End(groups, ids, width, callerCancels, turns)
      invariant held == |Holders(s.phases)| <= slots && peak <= slots
      decreases Work(s.phases)
    {
      ghost var j :| 0 <= j < n && s.phases[j] != Done;
      NoDeadlock(s.phases, held, slots, j);
      var i :| CanMove(s.phases, held, slots, i);
      var got := Answered(ZERO);
      if s.phases[i] == Asking {
        got := Ask(groups, ids[i], s.canceled || callerCancels);
      }
      StepKeeps(groups, ids, s, callerCancels, i, got);
      StepHolds(s, i, got);
      Shape(groups, ids, Step(s, i, got), callerCancels);
      Extend(groups, ids, width, callerCancels, turns, Turn(i, got));
      turns := turns + [Turn(i, got)];
      held := held + (if s.phases[i] == Waiting then 1 else if s.phases[i] == Leaving then -1 else 0);
      if held > peak { peak := held; }
      s := Step(s, i, got);
    }
    Finish(groups, ids, s, callerCancels);
    err := FirstError(ids, s.errs);
    out := s.out;
    ErrorIs(ids, s.errs);
    Verdict(groups, ids, s.errs, callerCancels);
  }

  lemma RunNothing(groups: Groups, ids: seq<string>, width: nat, callerCancels: bool)
    ensures Run(groups, ids, width, callerCancels, []) && End(groups, ids, width, callerCancels, []) == Begin(ids)
  {
  }

  // With the caller's context alive, a recorded failure means the directory
  // itself failed somewhere, and if every recorded one is a cancellation then
  // that is what the directory answered.
  lemma Verdict(groups: Groups, ids: seq<string>, errs: seq<Option<Failure>>, callerCancels: bool)
    requires |ids| == |errs| && (!callerCancels && HasError(errs) ==> HasOwn(groups, ids, errs))
    ensures !callerCancels && HasError(errs) ==> exists id :: id in ids && groups(id).Failed?
    ensures !callerCancels && HasError(errs) && (forall i :: 0 <= i < |errs| && errs[i].Some? ==>
                                                 errs[i].value == Canceled) ==>
              exists id :: id in ids && groups(id) == Failed(Canceled)
  {
    if !callerCancels && HasError(errs) {
      var j :| Own(groups, ids, errs, j);
      assert ids[j] in ids;
    }
  }

  lemma Start(groups: Groups, ids: seq<string>, s: Shared, callerCancels: bool)
    requires s == Shared(seq(|ids|, _ => Waiting), seq(|ids|, _ => ZERO), seq(|ids|, _ => None), false, false)
    ensures Consistent(groups, ids, s, callerCancels) && Holders(s.phases) == {}
  {
  }

  lemma Shape(groups: Groups, ids: seq<string>, s: Shared, callerCancels: bool)
    requires Consistent(groups, ids, s, callerCancels)
    ensures |s.phases| == |s.out| == |s.errs| == |ids|
  {
  }

  // Every worker gone: either an error is in some slot, or every slot holds the
  // directory's own answer.
  lemma Finish(groups: Groups, ids: seq<string>, s: Shared, callerCancels: bool)
    requires Consistent(groups, ids, s, callerCancels)
    requires forall i :: 0 <= i < |s.phases| ==> s.phases[i] == Done
    ensures forall i :: 0 <= i < |ids| ==> Recordable(groups, ids[i], s.errs[i])
    ensures HasError(s.errs) || forall i :: 0 <= i < |ids| ==> groups(ids[i]) == Answered(s.out[i])
    ensures !callerCancels && HasError(s.errs) ==> HasOwn(groups, ids, s.errs)
  {
  }

  // ---- Whether the message depends on the schedule.

  ghost predicate Fails(groups: Groups, ids: seq<string>, i: nat) {
    i < |ids| && groups(ids[i]).Failed?
  }

  // Every finished schedule of a live caller reports this.
  ghost predicate AlwaysReports(groups: Groups, ids: seq<string>, width: nat, e: Option<LevelError>) {
    forall turns | Run(groups, ids, width, false, turns) && AllDone(End(groups, ids, width, false, turns)) ::
      |End(groups, ids, width, false, turns).errs| == |ids|
          && ErrorOf(ids, End(groups, ids, width, false, turns).errs) == e
  }

  // The lookup that fails, if any does, is the one reported, unless it is itself a
  // cancellation that others may have noticed.
  lemma OneFailureReports(groups: Groups, ids: seq<string>, s: Shared, p: nat)
    requires Consistent(groups, ids, s, false) && AllDone(s)
    requires forall i: nat :: Fails(groups, ids, i) ==> i == p
    requires Fails(groups, ids, p) && groups(ids[p]) == Failed(Canceled) ==> p == 0 || OwnOnly(groups, ids, s.errs)
    ensures |s.errs| == |ids|
    ensures ErrorOf(ids, s.errs) == if Fails(groups, ids, p) then Some(LevelError(ids[p], groups(ids[p]).failure))
        else None
  {
    hide FirstWhere;
    Finish(groups, ids, s, false);
    ErrorIs(ids, s.errs);
    if HasError(s.errs) {
      var j :| Own(groups, ids, s.errs, j);
      assert Fails(groups, ids, j);
      forall k | 0 <= k < |ids| && k != p && s.errs[k].Some? ensures s.errs[k].value == Canceled {
        assert Recordable(groups, ids[k], s.errs[k]) && !Fails(groups, ids, k);
      }
      if groups(ids[p]) != Failed(Canceled) {
        OnlyFirst(ids, s.errs, f => f != Canceled, p);
      } else {
        forall k | 0 <= k < p ensures s.errs[k].None? { assert !Fails(groups, ids, k); }
        OnlyFirst(ids, s.errs, _ => true, p);
      }
    }
  }

  // Every failure recorded is the directory's own.
  ghost predicate OwnOnly(groups: Groups, ids: seq<string>, errs: seq<Option<Failure>>) {
    |errs| == |ids| && forall i :: 0 <= i < |ids| && errs[i].Some? ==> groups(ids[i]) == Failed(errs[i].value)
  }

  // ---- One lookup at a time: nobody is left to notice a cancellation.

  ghost predicate Lone(groups: Groups, ids: seq<string>, s: Shared) {
    && |s.phases| == |s.out| == |s.errs| == |ids| && |Holders(s.phases)| <= 1 && OwnOnly(groups, ids, s.errs)
    && (s.canceled ==> forall j :: 0 <= j < |ids| ==> s.phases[j] != Asking)
  }

  lemma OneHolder(phases: seq<Phase>, i: nat, j: nat)
    requires i < |phases| && j < |phases| && i != j && Holds(phases[i]) && Holds(phases[j])
    ensures |Holders(phases)| >= 2
  {
    assert {i as int, j as int} <= Holders(phases);
    Fewer({i as int, j as int}, Holders(phases));
  }

  lemma Fewer(a: set<int>, b: set<int>)
    requires a <= b
    ensures |a| <= |b|
  {
    assert b == a + (b - a);
  }

  lemma LoneKept(groups: Groups, ids: seq<string>, s: Shared, t: Turn)
    requires Lone(groups, ids, s) && Consistent(groups, ids, s, false) && May(groups, ids, 1, false, s, t)
    ensures Lone(groups, ids, Step(s, t.i, t.got))
  {
    hide Holders, HasError, HasOwn;
    StepHolds(s, t.i, t.got);
    if s.phases[t.i] == Raised {
      forall j | 0 <= j < |ids| && j != t.i ensures s.phases[j] != Asking {
        if s.phases[j] == Asking { OneHolder(s.phases, t.i, j); }
      }
    }
  }

  lemma {:induction false} LoneAlways(groups: Groups, ids: seq<string>, turns: seq<Turn>)
    requires Run(groups, ids, 1, false, turns)
    ensures Lone(groups, ids, End(groups, ids, 1, false, turns))
  {
    hide Step, May, Lone, Consistent;
    if turns == [] {
      assert Lone(groups, ids, Begin(ids)) by { LoneStarts(groups, ids); }
    } else {
      LoneAlways(groups, ids, turns[..|turns| - 1]);
      RunKeeps(groups, ids, 1, false, turns[..|turns| - 1]);
      LoneKept(groups, ids, End(groups, ids, 1, false, turns[..|turns| - 1]), turns[|turns| - 1]);
    }
  }

  lemma LoneStarts(groups: Groups, ids: seq<string>)
    ensures Lone(groups, ids, Begin(ids))
  {
    assert Holders(Begin(ids).phases) == {};
  }

  // ---- Schedules with one lookup failing alone.

  // The state in which worker i has failed alone.
  ghost function Solo(groups: Groups, ids: seq<string>, i: nat): Shared
    requires Fails(groups, ids, i)
  {
    Shared(
      seq(|ids|, m => if m == i then Done else Waiting), seq(|ids|, _ => ZERO),
      seq(|ids|, m => if m == i then Some(groups(ids[i]).failure) else None), true, true)
  }

  // A worker may always take its turn when nobody else holds a slot.
  lemma MayAlone(groups: Groups, ids: seq<string>, width: nat, s: Shared, t: Turn)
    requires t.i < |ids| == |s.phases| == |s.out| == |s.errs| && width > 0 && s.phases[t.i] != Done
    requires forall j :: 0 <= j < |ids| && j != t.i ==> !Holds(s.phases[j])
    requires s.phases[t.i] == Asking ==> t.got == groups(ids[t.i])
    ensures May(groups, ids, width, false, s, t)
  {
    if s.phases[t.i] == Waiting {
      assert Holders(s.phases) == {};
    }
  }

  // One more turn of worker i, alone.
  lemma AloneNext(groups: Groups, ids: seq<string>, width: nat, turns: seq<Turn>, i: nat, phase: Phase)
      returns (turns': seq<Turn>)
    requires width > 0 && i < |ids| && Run(groups, ids, width, false, turns)
    requires var s := End(groups, ids, width, false, turns);
             && |ids| == |s.phases| == |s.out| == |s.errs| && s.phases[i] == phase != Done
             && forall j :: 0 <= j < |ids| && j != i ==> !Holds(s.phases[j])
    ensures Run(groups, ids, width, false, turns')
    ensures End(groups, ids, width, false, turns') == Step(End(groups, ids, width, false, turns), i, groups(ids[i]))
  {
    hide Run, End, Step, May;
    MayAlone(groups, ids, width, End(groups, ids, width, false, turns), Turn(i, groups(ids[i])));
    Extend(groups, ids, width, false, turns, Turn(i, groups(ids[i])));
    turns' := turns + [Turn(i, groups(ids[i]))];
  }

  lemma FailAlone(groups: Groups, ids: seq<string>, width: nat, i: nat) returns (turns: seq<Turn>)
    requires width > 0 && Fails(groups, ids, i)
    ensures Run(groups, ids, width, false, turns) && End(groups, ids, width, false, turns) == Solo(groups, ids, i)
  {
    hide Run, End;
    RunNothing(groups, ids, width, false);
    turns := AloneNext(groups, ids, width, [], i, Waiting);
    turns := AloneNext(groups, ids, width, turns, i, Entered);
    turns := AloneNext(groups, ids, width, turns, i, Asking);
    turns := AloneNext(groups, ids, width, turns, i, Recorded);
    turns := AloneNext(groups, ids, width, turns, i, Raised);
    turns := AloneNext(groups, ids, width, turns, i, Leaving);
  }

  // With the flag up, whoever has not entered yet looks at it and leaves.
  ghost function Cleared(s: Shared, k: nat): Shared {
    s.(phases := seq(|s.phases|, m requires 0 <= m < |s.phases| => if m < k then Done else s.phases[m]))
  }

  lemma Drain(groups: Groups, ids: seq<string>, width: nat, turns: seq<Turn>) returns (turns': seq<Turn>)
    requires width > 0 && Run(groups, ids, width, false, turns)
    requires var s := End(groups, ids, width, false, turns);
             && |ids| == |s.phases| == |s.out| == |s.errs| && s.fail
             && forall m :: 0 <= m < |ids| ==> s.phases[m] == Waiting || s.phases[m] == Done
    ensures Run(groups, ids, width, false, turns') && AllDone(End(groups, ids, width, false, turns'))
    ensures End(groups, ids, width, false, turns').errs == End(groups, ids, width, false, turns).errs
  {
    hide Run, End;
    var s := End(groups, ids, width, false, turns);
    turns' := turns;
    assert s == Cleared(s, 0);
    for k := 0 to |ids|
      invariant Run(groups, ids, width, false, turns') && End(groups, ids, width, false, turns') == Cleared(s, k)
    {
      if s.phases[k] == Done {
        assert Cleared(s, k) == Cleared(s, k + 1);
      } else {
        turns' := AloneNext(groups, ids, width, turns', k, Waiting);
        turns' := AloneNext(groups, ids, width, turns', k, Entered);
        turns' := AloneNext(groups, ids, width, turns', k, Leaving);
        assert End(groups, ids, width, false, turns') == Cleared(s, k + 1);
      }
    }
  }

  // Any failure can be the one that is reported: its worker goes first.
  lemma AnyCanBeFirst(groups: Groups, ids: seq<string>, width: nat, i: nat) returns (turns: seq<Turn>)
    requires width > 0 && Fails(groups, ids, i)
    ensures Run(groups, ids, width, false, turns)
    ensures var s := End(groups, ids, width, false, turns);
            AllDone(s) && |s.errs| == |ids| && ErrorOf(ids, s.errs) == Some(LevelError(ids[i], groups(ids[i]).failure))
  {
    hide Run, End, FirstWhere;
    turns := FailAlone(groups, ids, width, i);
    turns := Drain(groups, ids, width, turns);
    var errs := Solo(groups, ids, i).errs;
    if groups(ids[i]).failure != Canceled {
      OnlyFirst(ids, errs, f => f != Canceled, i);
    } else {
      OnlyFirst(ids, errs, _ => true, i);
    }
  }

  // ---- And with a lookup before it in the list overlapping.

  // Workers 0 and p are under way, and nobody else is.
  ghost predicate Pair(ids: seq<string>, s: Shared, p: nat, a: Phase, b: Phase,
                       ea: Option<Failure>, eb: Option<Failure>, fail: bool, canceled: bool) {
    && 0 < p < |ids| == |s.phases| == |s.out| == |s.errs|
    && s.phases[0] == a && s.phases[p] == b && s.errs[0] == ea && s.errs[p] == eb
    && s.fail == fail && s.canceled == canceled
    && forall m :: 0 < m < |ids| && m != p ==> s.phases[m] == Waiting && s.errs[m].None?
  }

  function PhaseAfter(phase: Phase, fail: bool, got: Lookup): Phase {
    match phase
    case Waiting => Entered
    case Entered => if fail then Leaving else Asking
    case Asking => if got.Failed? then Recorded else Leaving
    case Recorded => Raised
    case Raised => Leaving
    case _ => Done
  }

  function ErrAfter(phase: Phase, err: Option<Failure>, got: Lookup): Option<Failure> {
    if phase == Asking && got.Failed? then Some(got.failure) else err
  }

  lemma PairIs(ids: seq<string>, s: Shared, p: nat, a: Phase, b: Phase, ea: Option<Failure>, eb: Option<Failure>,
               fail: bool, canceled: bool)
    requires Pair(ids, s, p, a, b, ea, eb, fail, canceled)
    ensures 0 < p < |ids| == |s.phases| == |s.out| == |s.errs|
    ensures s.phases[0] == a && s.phases[p] == b && s.canceled == canceled
    ensures forall m :: 0 <= m < |ids| && m != 0 && m != p ==> s.phases[m] == Waiting
  {
  }

  lemma PairStep(ids: seq<string>, s: Shared, p: nat, first: bool, got: Lookup,
                 a: Phase, b: Phase, ea: Option<Failure>, eb: Option<Failure>, fail: bool, canceled: bool)
    requires Pair(ids, s, p, a, b, ea, eb, fail, canceled) && (if first then a else b) != Done
    ensures |s.phases| == |s.out| == |s.errs| == |ids| > p
    ensures var phase, s' := if first then a else b, Step(s, if first then 0 else p, got);
            Pair(ids, s', p,
                 if first then PhaseAfter(a, fail, got) else a, if first then b else PhaseAfter(b, fail, got),
                 if first then ErrAfter(a, ea, got) else ea, if first then eb else ErrAfter(b, eb, got),
                 fail || phase == Recorded, canceled || phase == Raised)
  {
  }

  lemma MayOfTwo(groups: Groups, ids: seq<string>, width: nat, s: Shared, t: Turn, other: nat)
    requires t.i < |ids| == |s.phases| == |s.out| == |s.errs| && width >= 2 && other < |ids| && other != t.i
    requires s.phases[t.i] != Done
    requires forall m :: 0 <= m < |ids| && m != t.i && m != other ==> s.phases[m] == Waiting
    requires s.phases[t.i] == Asking ==> t.got == groups(ids[t.i]) || (s.canceled && t.got == Failed(Canceled))
    ensures May(groups, ids, width, false, s, t)
  {
    if s.phases[t.i] == Waiting {
      assert Holders(s.phases) <= {other as int};
      Fewer(Holders(s.phases), {other as int});
    }
  }

  // One turn of worker 0, or of worker p.
  lemma PairNext(groups: Groups, ids: seq<string>, width: nat, turns: seq<Turn>, p: nat, first: bool, got: Lookup,
                 a: Phase, b: Phase, ea: Option<Failure>, eb: Option<Failure>, fail: bool, canceled: bool)
      returns (turns': seq<Turn>)
    requires width >= 2 && Run(groups, ids, width, false, turns)
    requires Pair(ids, End(groups, ids, width, false, turns), p, a, b, ea, eb, fail, canceled)
    requires var phase := if first then a else b;
             && phase != Done
             && (phase == Asking ==>
                   got == groups(ids[if first then 0 else p]) || (canceled && got == Failed(Canceled)))
    ensures Run(groups, ids, width, false, turns')
    ensures var phase, s := if first then a else b, End(groups, ids, width, false, turns');
            Pair(ids, s, p,
                 if first then PhaseAfter(a, fail, got) else a, if first then b else PhaseAfter(b, fail, got),
                 if first then ErrAfter(a, ea, got) else ea, if first then eb else ErrAfter(b, eb, got),
                 fail || phase == Recorded, canceled || phase == Raised)
  {
    hide Run, End, May, Step, Pair, PhaseAfter, ErrAfter;
    var s := End(groups, ids, width, false, turns);
    var t := Turn(if first then 0 else p, got);
    PairIs(ids, s, p, a, b, ea, eb, fail, canceled);
    MayOfTwo(groups, ids, width, s, t, if first then p else 0);
    PairStep(ids, s, p, first, got, a, b, ea, eb, fail, canceled);
    Extend(groups, ids, width, false, turns, t);
    turns' := turns + [t];
  }

  // Worker p fails with a cancellation of its own while worker 0 is asking, and
  // worker 0, cancelled, is the one reported.
  lemma Overtaken(groups: Groups, ids: seq<string>, width: nat, p: nat) returns (turns: seq<Turn>)
    requires width >= 2 && 0 < p < |ids| && groups(ids[p]) == Failed(Canceled)
    ensures Run(groups, ids, width, false, turns)
    ensures var s := End(groups, ids, width, false, turns);
            AllDone(s) && |s.errs| == |ids| && ErrorOf(ids, s.errs) == Some(LevelError(ids[0], Canceled))
  {
    hide Run, End, FirstWhere, May, Pair;
    var ctx, c := Failed(Canceled), Some(Canceled);
    RunNothing(groups, ids, width, false);
    PairStarts(ids, p);
    turns := PairNext(groups, ids, width, [], p, true, ctx, Waiting, Waiting, None, None, false, false);
    turns := PairNext(groups, ids, width, turns, p, true, ctx, Entered, Waiting, None, None, false, false);
    turns := PairNext(groups, ids, width, turns, p, false, ctx, Asking, Waiting, None, None, false, false);
    turns := PairNext(groups, ids, width, turns, p, false, ctx, Asking, Entered, None, None, false, false);
    turns := PairNext(groups, ids, width, turns, p, false, ctx, Asking, Asking, None, None, false, false);
    turns := PairNext(groups, ids, width, turns, p, false, ctx, Asking, Recorded, None, c, false, false);
    turns := PairNext(groups, ids, width, turns, p, false, ctx, Asking, Raised, None, c, true, false);
    turns := PairNext(groups, ids, width, turns, p, false, ctx, Asking, Leaving, None, c, true, true);
    turns := PairNext(groups, ids, width, turns, p, true, ctx, Asking, Done, None, c, true, true);
    turns := PairNext(groups, ids, width, turns, p, true, ctx, Recorded, Done, c, c, true, true);
    turns := PairNext(groups, ids, width, turns, p, true, ctx, Raised, Done, c, c, true, true);
    turns := PairNext(groups, ids, width, turns, p, true, ctx, Leaving, Done, c, c, true, true);
    PairDone(ids, End(groups, ids, width, false, turns), p);
    turns := Drain(groups, ids, width, turns);
    OnlyFirst(ids, End(groups, ids, width, false, turns).errs, _ => true, 0);
  }

  lemma PairStarts(ids: seq<string>, p: nat)
    requires 0 < p < |ids|
    ensures Pair(ids, Begin(ids), p, Waiting, Waiting, None, None, false, false)
  {
  }

  lemma PairDone(ids: seq<string>, s: Shared, p: nat)
    requires Pair(ids, s, p, Done, Done, Some(Canceled), Some(Canceled), true, true)
    ensures |ids| == |s.phases| == |s.out| == |s.errs| && s.fail
    ensures forall m :: 0 <= m < |ids| ==> s.phases[m] == Waiting || s.phases[m] == Done
    ensures s.errs[0] == Some(Canceled) && forall m :: 0 <= m < |ids| && s.errs[m].Some? ==> s.errs[m].value == Canceled
  {
  }

  // The same directory gives one message under every schedule exactly when at most
  // one of the level's lookups fails, and that one, if it is itself a cancellation,
  // has no lookup before it in the list to be mistaken for: it is the first, or
  // lookups are made one at a time.
  lemma SameMessageIff(groups: Groups, ids: seq<string>, width: nat)
    requires width > 0 && (forall i, j :: 0 <= i < j < |ids| ==> ids[i] != ids[j])
    ensures (exists e :: AlwaysReports(groups, ids, width, e)) <==>
            && (forall i: nat, j: nat :: Fails(groups, ids, i) && Fails(groups, ids, j) ==> i == j)
            && (forall i: nat :: Fails(groups, ids, i) && groups(ids[i]) == Failed(Canceled) ==> i == 0 || width == 1)
  {
    hide Run, End, ErrorOf, AllDone, Consistent, OwnOnly;
    if e :| AlwaysReports(groups, ids, width, e) {
      forall i: nat, j: nat | Fails(groups, ids, i) && Fails(groups, ids, j) ensures i == j {
        var first := AnyCanBeFirst(groups, ids, width, i);
        var second := AnyCanBeFirst(groups, ids, width, j);
      }
      forall i: nat | Fails(groups, ids, i) && groups(ids[i]) == Failed(Canceled) ensures i == 0 || width == 1 {
        if i > 0 && width > 1 {
          var own := AnyCanBeFirst(groups, ids, width, i);
          var other := Overtaken(groups, ids, width, i);
        }
      }
    }
    if && (forall i: nat, j: nat :: Fails(groups, ids, i) && Fails(groups, ids, j) ==> i == j)
       && (forall i: nat :: Fails(groups, ids, i) && groups(ids[i]) == Failed(Canceled) ==> i == 0 || width == 1)
    {
      var p: nat := 0;
      if i: nat :| Fails(groups, ids, i) { p := i; }
      var e := if Fails(groups, ids, p) then Some(LevelError(ids[p], groups(ids[p]).failure)) else None;
      forall turns | Run(groups, ids, width, false, turns) && AllDone(End(groups, ids, width, false, turns))
        ensures var s := End(groups, ids, width, false, turns); |s.errs| == |ids| && ErrorOf(ids, s.errs) == e
      {
        RunKeeps(groups, ids, width, false, turns);
        if width == 1 { LoneAlways(groups, ids, turns); }
        OneFailureReports(groups, ids, End(groups, ids, width, false, turns), p);
      }
      assert AlwaysReports(groups, ids, width, e);
    }
  }
}
