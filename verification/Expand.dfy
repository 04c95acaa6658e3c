// directory/expand.go: a subject's memberships followed upwards, through a graph
// that may have cycles or no end, until nothing new turns up or there is too much.
module Expand {
  import opened Order
  import opened Encoding
  import opened Acl
  import opened Level
  import V = Version

  datatype Subject = Subject(id: string, disabled: bool, memberOf: seq<string>, version: string)

  datatype SubjectLookup = Holds(subject: Subject) | NoSubject | SubjectFailed(failure: Failure)

  datatype Directory = Directory(name: string, subjects: string -> SubjectLookup, groups: Groups)

  datatype Expansion = Expansion(
    subject: Subject, version: nat, members: seq<string>, revisions: map<string, string>,
    unknown: seq<string>, lookups: nat, depth: nat)

  datatype ExpandError =
    | Stopped                       // the context is done
    | Missing | Outage(failure: Failure) | Disabled
    | TooManyGroups
    | GroupFailed(error: LevelError)

  datatype Result = Ok(expansion: Expansion) | Err(error: ExpandError)

  // ---- What the closure is: the groups some chain of memberships leads to.

  ghost function Parents(groups: Groups, g: string): seq<string> {
    match groups(g)
    case Answered(Found(_, up)) => up
    case _ => []
  }

  ghost predicate Chain(groups: Groups, roots: seq<string>, path: seq<string>) {
    && path != [] && path[0] in roots && "" !in path
    && forall i :: 0 < i < |path| ==> path[i] in Parents(groups, path[i - 1])
  }

  ghost predicate Reachable(groups: Groups, roots: seq<string>, g: string) {
    exists path :: Chain(groups, roots, path) && path[|path| - 1] == g
  }

  // ---- How it is walked: everything within k steps, for k = 0, 1, 2 and so on.

  ghost function Above(groups: Groups, some: set<string>): set<string> {
    set g, up | g in some && up in Parents(groups, g) && up != "" :: up
  }

  ghost function Within(groups: Groups, roots: seq<string>, k: nat): set<string> {
    if k == 0 then set g | g in roots && g != ""
    else Within(groups, roots, k - 1) + Above(groups, Within(groups, roots, k - 1))
  }

  // The k-th breadth first level.
  ghost function LevelAt(groups: Groups, roots: seq<string>, k: nat): set<string> {
    Within(groups, roots, k) - (if k == 0 then {} else Within(groups, roots, k - 1))
  }

  lemma {:induction false} ChainWithin(groups: Groups, roots: seq<string>, path: seq<string>)
    requires Chain(groups, roots, path)
    ensures path[|path| - 1] in Within(groups, roots, |path| - 1)
  {
    if |path| == 1 {
      assert path[0] != "" by { assert path[0] in path; }
    } else {
      var init, last := path[..|path| - 1], path[|path| - 1];
      ChainWithin(groups, roots, init);
      assert last in Parents(groups, init[|init| - 1]) && last in path;
    }
  }

  lemma {:induction false} WithinChain(groups: Groups, roots: seq<string>, k: nat, g: string)
      returns (path: seq<string>)
    requires g in Within(groups, roots, k)
    ensures Chain(groups, roots, path) && path[|path| - 1] == g
  {
    hide *;
    if k == 0 {
      path := [g];
      Alone(groups, roots, g);
    } else if g in Within(groups, roots, k - 1) {
      path := WithinChain(groups, roots, k - 1, g);
    } else {
      var below := StepBack(groups, roots, k, g);
      path := WithinChain(groups, roots, k - 1, below);
      Longer(groups, roots, path, g);
      path := path + [g];
    }
  }

  lemma StepBack(groups: Groups, roots: seq<string>, k: nat, g: string) returns (below: string)
    requires k > 0
    ensures g in Within(groups, roots, k) && g !in Within(groups, roots, k - 1) ==>
              below in Within(groups, roots, k - 1) && g in Parents(groups, below) && g != ""
  {
    hide Parents;
    if g in Within(groups, roots, k) && g !in Within(groups, roots, k - 1) {
      assert g in Above(groups, Within(groups, roots, k - 1));
      below :| below in Within(groups, roots, k - 1) && g in Parents(groups, below);
    } else {
      below := g;
    }
  }

  lemma Alone(groups: Groups, roots: seq<string>, g: string)
    requires g in Within(groups, roots, 0)
    ensures Chain(groups, roots, [g])
  {
  }

  lemma Longer(groups: Groups, roots: seq<string>, path: seq<string>, g: string)
    requires Chain(groups, roots, path) && g != "" && g in Parents(groups, path[|path| - 1])
    ensures Chain(groups, roots, path + [g])
  {
  }

  lemma WithinReachable(groups: Groups, roots: seq<string>, k: nat)
    ensures forall g :: g in Within(groups, roots, k) ==> Reachable(groups, roots, g)
  {
    forall g | g in Within(groups, roots, k) ensures Reachable(groups, roots, g) {
      var path := WithinChain(groups, roots, k, g);
    }
  }

  lemma {:induction false} Closed(groups: Groups, roots: seq<string>, k: nat, n: nat)
    requires Above(groups, Within(groups, roots, k)) <= Within(groups, roots, k)
    ensures Within(groups, roots, n) <= Within(groups, roots, k)
  {
    hide Above;
    if n > k {
      Closed(groups, roots, k, n - 1);
      Rises(groups, Within(groups, roots, n - 1), Within(groups, roots, k));
    } else if n < k {
      Grows(groups, roots, n, k);
    }
  }

  lemma Rises(groups: Groups, a: set<string>, b: set<string>)
    requires a <= b
    ensures Above(groups, a) <= Above(groups, b)
  {
  }

  lemma {:induction false} Grows(groups: Groups, roots: seq<string>, n: nat, k: nat)
    requires n <= k
    ensures Within(groups, roots, n) <= Within(groups, roots, k)
  {
    hide Above;
    if n < k { Grows(groups, roots, n, k - 1); }
  }

  // A level that adds nothing ends the walk with the whole closure in hand.
  lemma WithinIsClosure(groups: Groups, roots: seq<string>, k: nat)
    requires Above(groups, Within(groups, roots, k)) <= Within(groups, roots, k)
    ensures forall g :: Reachable(groups, roots, g) <==> g in Within(groups, roots, k)
  {
    WithinReachable(groups, roots, k);
    forall g | Reachable(groups, roots, g) ensures g in Within(groups, roots, k) {
      var path :| Chain(groups, roots, path) && path[|path| - 1] == g;
      ChainWithin(groups, roots, path);
      Closed(groups, roots, k, |path| - 1);
    }
  }

  // ---- The walk, as written.

  // In the order of first appearance: what stands before a name in the result
  // stands before every place of it in the input.
  ghost predicate Orderly(input: seq<string>, out: seq<string>) {
    forall a, b, k :: 0 <= a < b < |out| && 0 <= k < |input| && input[k] == out[b] ==> out[a] in input[..k]
  }

  method Dedupe(input: seq<string>) returns (out: seq<string>)
    ensures Distinct(out) && forall g :: g in out <==> g in input && g != ""
    ensures Orderly(input, out)
  {
    out := [];
    for i := 0 to |input|
      invariant Distinct(out) && forall g :: g in out <==> g in input[..i] && g != ""
      invariant Orderly(input, out)
    {
      if input[i] == "" || input[i] in out {
        continue;
      }
      ghost var before := out;
      forall a, k | 0 <= a < |before| && 0 <= k < |input| && input[k] == input[i] ensures before[a] in input[..k] {
        FirstHere(input, i, k, before[a]);
      }
      out := out + [input[i]];
    }
  }

  // What came before the first place of a name came before all its places.
  lemma FirstHere(input: seq<string>, i: nat, k: nat, earlier: string)
    requires i < |input| && k < |input| && input[k] == input[i] && input[i] !in input[..i] && earlier in input[..i]
    ensures earlier in input[..k]
  {
    assert k >= i by {
      assert forall m :: 0 <= m < i ==> input[..i][m] == input[m];
    }
    assert input[..i] == input[..k][..i];
  }

  // What the walk remembers of each group it has scheduled: the revision once it
  // has been answered for, and nothing before.
  ghost predicate Remembers(groups: Groups, seen: map<string, string>, answered: set<string>) {
    forall g :: g in seen ==> seen[g] == if g in answered then Revision(groups, g) else ""
  }

  // The inner loop: the parents of one group that nobody has scheduled yet.
  method Schedule(up: seq<string>, seen: map<string, string>, next: seq<string>)
    returns (seen': map<string, string>, next': seq<string>)
    requires Distinct(next) && forall g :: g in next ==> g in seen
    ensures Distinct(next') && forall g :: g in next' ==> g in seen'
    ensures Elements(next') == Elements(next) + (seen'.Keys - seen.Keys)
    ensures seen'.Keys == seen.Keys + (set g | g in up && g != "")
    ensures forall g :: g in seen' ==> seen'[g] == if g in seen then seen[g] else ""
  {
    seen', next' := seen, next;
    for j := 0 to |up|
      invariant Distinct(next') && forall g :: g in next' ==> g in seen'
      invariant forall g :: g in next' <==> g in next || (g in seen' && g !in seen)
      invariant forall g :: g in seen' <==> g in seen || (g in up[..j] && g != "")
      invariant forall g :: g in seen' ==> seen'[g] == if g in seen then seen[g] else ""
    {
      if up[j] == "" || up[j] in seen' {
        continue;
      }
      seen' := seen'[up[j] := ""];
      next' := next' + [up[j]];
    }
  }

  // One level's answers folded into the walk: the absent groups, the revisions,
  // and the next frontier.
  method Absorb(groups: Groups, frontier: seq<string>, found: seq<Answer>, seen: map<string, string>,
                unknown: seq<string>, ghost answered: set<string>)
    returns (seen': map<string, string>, unknown': seq<string>, next: seq<string>)
    requires |found| == |frontier| && Elements(frontier) !! answered && Elements(frontier) + answered <= seen.Keys
    requires forall i :: 0 <= i < |frontier| ==> groups(frontier[i]) == Answered(found[i])
    requires Distinct(frontier) && Remembers(groups, seen, answered) && ListsAbsent(groups, unknown, answered)
    ensures Distinct(next) && Elements(next) == seen'.Keys - seen.Keys
    ensures seen'.Keys == seen.Keys + Above(groups, Elements(frontier))
    ensures Remembers(groups, seen', answered + Elements(frontier))
    ensures ListsAbsent(groups, unknown', answered + Elements(frontier))
  {
    hide Folded, Distinct, ListsAbsent, Remembers, Above, Elements;
    seen', unknown', next := seen, unknown, [];
    ghost var done, above := answered, Above(groups, Elements(frontier[..0]));
    Nothing(groups, frontier, answered);
    FoldedNone(groups, seen, unknown, answered, above);
    for i := 0 to |frontier|
      invariant done == answered + Elements(frontier[..i]) && above == Above(groups, Elements(frontier[..i]))
      invariant Folded(groups, seen, done, above, seen', unknown', next)
    {
      var g := frontier[i];
      AboveOne(groups, frontier, i);
      OneMore(frontier, answered, i);
      Scheduled(groups, frontier, i, seen, done, above, seen', unknown', next);
      ghost var before, listed := seen', next;
      if found[i] == Absent {
        FoldAbsent(groups, seen, done, above, seen', unknown', next, g);
        unknown' := unknown' + [g];
      } else {
        seen' := seen'[g := found[i].version];
        ghost var noted := seen';
        seen', next := Schedule(found[i].memberOf, seen', next);
        FoldFound(groups, seen, done, above, before, unknown', listed, g, noted, seen', next);
      }
      done, above := done + {g}, Above(groups, Elements(frontier[..i + 1]));
    }
    FoldedAll(groups, seen, done, above, seen', unknown', next);
    assert frontier[..|frontier|] == frontier;
  }

  // The answers for `done` folded in; `above` is what they are members of.
  ghost predicate Folded(groups: Groups, seen: map<string, string>, done: set<string>, above: set<string>,
                         seen': map<string, string>, unknown': seq<string>, next: seq<string>) {
    && Distinct(next) && Elements(next) == seen'.Keys - seen.Keys && seen'.Keys == seen.Keys + above
    && done <= seen.Keys
    && Remembers(groups, seen', done) && ListsAbsent(groups, unknown', done)
  }

  lemma FoldedNone(groups: Groups, seen: map<string, string>, unknown: seq<string>, answered: set<string>,
                   above: set<string>)
    requires Remembers(groups, seen, answered) && ListsAbsent(groups, unknown, answered) && above == {}
        && answered <= seen.Keys
    ensures Folded(groups, seen, answered, above, seen, unknown, [])
  {
    hide Remembers, ListsAbsent;
  }

  lemma FoldedAll(groups: Groups, seen: map<string, string>, done: set<string>, above: set<string>,
                  seen': map<string, string>, unknown': seq<string>, next: seq<string>)
    requires Folded(groups, seen, done, above, seen', unknown', next)
    ensures Distinct(next) && Elements(next) == seen'.Keys - seen.Keys && seen'.Keys == seen.Keys + above
    ensures Remembers(groups, seen', done) && ListsAbsent(groups, unknown', done)
  {
    hide Remembers, ListsAbsent, Distinct, Elements;
  }

  // The next group of the level has been scheduled and not answered for.
  lemma Scheduled(groups: Groups, frontier: seq<string>, i: nat, seen: map<string, string>, done: set<string>,
                  above: set<string>,
                  seen': map<string, string>, unknown': seq<string>, next: seq<string>)
    requires i < |frontier| && Elements(frontier) <= seen.Keys
        && Folded(groups, seen, done, above, seen', unknown', next)
    ensures frontier[i] in seen && frontier[i] in seen' && Distinct(next) && forall g :: g in next ==> g in seen'
  {
    hide Remembers, ListsAbsent, Distinct;
    assert frontier[i] in Elements(frontier);
    assert forall g :: g in next ==> g in Elements(next);
  }

  // An absent group is listed, once, and leads nowhere.
  lemma FoldAbsent(groups: Groups, seen: map<string, string>, done: set<string>, above: set<string>,
                   seen': map<string, string>, unknown': seq<string>, next: seq<string>, g: string)
    requires Folded(groups, seen, done, above, seen', unknown', next)
    requires groups(g) == Answered(Absent) && g in seen && g in seen' && g !in done
    ensures var ups := set up | up in Parents(groups, g) && up != "";
            Folded(groups, seen, done + {g}, above + ups, seen', unknown' + [g], next)
  {
    hide Distinct, ListsAbsent, Remembers, Elements;
    assert Parents(groups, g) == [];
    assert above + (set up | up in Parents(groups, g) && up != "") == above;
    AbsentOne(groups, unknown', done, g);
    StillBlank(groups, seen', done, g);
    assert seen'[g := ""] == seen';
    RememberAnswer(groups, seen', seen', done, g);
  }

  // A group it does hold: its revision, and the parents nobody had scheduled.
  lemma FoldFound(groups: Groups, seen: map<string, string>, done: set<string>, above: set<string>,
                  before: map<string, string>, unknown': seq<string>, listed: seq<string>, g: string,
                  noted: map<string, string>, seen': map<string, string>, next: seq<string>)
    requires Folded(groups, seen, done, above, before, unknown', listed)
    requires groups(g).Answered? && groups(g).answer.Found? && g in seen && g in before && g !in done
    requires noted == before[g := groups(g).answer.version]
    requires Distinct(next) && Elements(next) == Elements(listed) + (seen'.Keys - noted.Keys)
    requires seen'.Keys == noted.Keys + (set up | up in groups(g).answer.memberOf && up != "")
    requires forall x :: x in seen' ==> seen'[x] == if x in noted then noted[x] else ""
    ensures var ups := set up | up in Parents(groups, g) && up != "";
            Folded(groups, seen, done + {g}, above + ups, seen', unknown', next)
  {
    hide Distinct, ListsAbsent, Remembers, Elements;
    assert groups(g).answer.memberOf == Parents(groups, g);
    assert noted.Keys == before.Keys;
    AbsentOne(groups, unknown', done, g);
    RememberAnswer(groups, before, noted, done, g);
    RememberNew(groups, noted, seen', done + {g});
    var ups := set up | up in Parents(groups, g) && up != "";
    assert seen'.Keys == seen.Keys + (above + ups);
    assert Elements(next) == seen'.Keys - seen.Keys;
  }

  lemma RememberAnswer(groups: Groups, seen: map<string, string>, seen': map<string, string>, done: set<string>,
                       g: string)
    requires Remembers(groups, seen, done) && g in seen && g !in done
    requires seen' == seen[g := Revision(groups, g)]
    ensures Remembers(groups, seen', done + {g})
  {
  }

  lemma StillBlank(groups: Groups, seen: map<string, string>, done: set<string>, g: string)
    requires Remembers(groups, seen, done) && g in seen && g !in done
    ensures seen[g] == ""
  {
  }

  lemma RememberNew(groups: Groups, seen: map<string, string>, seen': map<string, string>, done: set<string>)
    requires Remembers(groups, seen, done) && done <= seen.Keys
    requires forall g :: g in seen' ==> seen'[g] == if g in seen then seen[g] else ""
    ensures Remembers(groups, seen', done)
  {
  }

  lemma OneMore(frontier: seq<string>, answered: set<string>, i: nat)
    requires i < |frontier| && Distinct(frontier) && Elements(frontier) !! answered
    ensures answered + Elements(frontier[..i + 1]) == (answered + Elements(frontier[..i])) + {frontier[i]}
    ensures frontier[i] !in answered + Elements(frontier[..i])
  {
    assert frontier[..i + 1] == frontier[..i] + [frontier[i]];
    assert frontier[i] in Elements(frontier);
  }

  // The absent groups among those answered for, without repetition.
  ghost predicate ListsAbsent(groups: Groups, unknown: seq<string>, answered: set<string>) {
    Distinct(unknown) && forall g :: g in unknown <==> g in answered && groups(g) == Answered(Absent)
  }

  lemma Nothing(groups: Groups, frontier: seq<string>, answered: set<string>)
    ensures Above(groups, Elements(frontier[..0])) == {} && answered + Elements(frontier[..0]) == answered
    ensures Distinct<string>([])
  {
  }

  lemma AbsentOne(groups: Groups, unknown: seq<string>, done: set<string>, g: string)
    requires ListsAbsent(groups, unknown, done) && g !in done
    ensures ListsAbsent(groups, if groups(g) == Answered(Absent) then unknown + [g] else unknown, done + {g})
  {
    assert g !in unknown;
  }

  // What is remembered of a group: the directory's revision, or nothing.
  ghost function Revision(groups: Groups, g: string): string {
    match groups(g)
    case Answered(Found(version, _)) => version
    case _ => ""
  }

  lemma AboveOne(groups: Groups, frontier: seq<string>, i: nat)
    requires i < |frontier|
    ensures Above(groups, Elements(frontier[..i + 1])) ==
            Above(groups, Elements(frontier[..i])) + (set up | up in Parents(groups, frontier[i]) && up != "")
  {
    assert frontier[..i + 1] == frontier[..i] + [frontier[i]];
    assert Elements(frontier[..i + 1]) == Elements(frontier[..i]) + {frontier[i]};
  }

  // What a successful expansion says of a subject.
  ghost predicate Resolves(dir: Directory, hash: string -> nat, e: Expansion) {
    exists ids: seq<string>, closure: set<string> ::
      IsClosure(dir.groups, e.subject.memberOf, closure) && Reports(dir, hash, e, ids, closure)
  }

  ghost predicate IsClosure(groups: Groups, roots: seq<string>, closure: set<string>) {
    forall g :: g in closure <==> Reachable(groups, roots, g)
  }

  ghost predicate Reports(dir: Directory, hash: string -> nat, e: Expansion, ids: seq<string>, closure: set<string>) {
    && Lists(StrLess, ids, closure)
    && |e.members| == |ids| && (forall i :: 0 <= i < |ids| ==> e.members[i] == GroupKey(Ref(dir.name, ids[i])))
    && e.revisions.Keys == closure && (forall g :: g in closure ==>
                                       dir.groups(g).Answered? && e.revisions[g] == Revision(dir.groups, g))
    && V.Stamps(hash, V.Names(dir.name, e.subject.version, ids, e.revisions), e.version)
    && Strict(StrLess, e.unknown)
    && (forall g :: g in e.unknown <==> g in closure && dir.groups(g) == Answered(Absent))
    && e.lookups == 1 + |closure|
    && (forall k: nat :: LevelAt(dir.groups, e.subject.memberOf, k) != {} <==> k < e.depth)
  }

  // The closure is larger than a bound; it may well be infinite.
  ghost predicate Exceeds(groups: Groups, roots: seq<string>, max: nat) {
    exists some: set<string> :: |some| > max && AllReachable(groups, roots, some)
  }

  // No lookup in the closure fails.
  ghost predicate AllAnswer(groups: Groups, roots: seq<string>) {
    forall g :: Reachable(groups, roots, g) ==> groups(g).Answered?
  }

  // The group named is in the closure and its lookup failed so; or, where nothing
  // but a cancellation is reported of a request that goes on, some lookup in the
  // closure came back cancelled.
  ghost predicate Explains(groups: Groups, roots: seq<string>, e: LevelError, live: bool) {
    && Reachable(groups, roots, e.id)
    && (e.failure != Canceled ==> groups(e.id) == Failed(e.failure))
    && (e.failure == Canceled && live ==> exists g :: Reachable(groups, roots, g) && groups(g) == Failed(Canceled))
  }

  // What a walk that gave up says is so.
  ghost predicate TrueOfWalk(groups: Groups, roots: seq<string>, max: nat, live: bool, err: ExpandError) {
    match err
    case Stopped => !live
    case TooManyGroups => Exceeds(groups, roots, max)
    case GroupFailed(e) => Explains(groups, roots, e, live)
    case _ => false
  }

  // And an expansion that did.
  ghost predicate TrueOf(dir: Directory, id: string, max: nat, live: bool, err: ExpandError) {
    var answer := dir.subjects(id);
    match err
    case Stopped => !live
    case Missing => answer.NoSubject?
    case Outage(f) => answer == SubjectFailed(f)
    case Disabled => answer.Holds? && answer.subject.disabled
    case _ =>
      answer.Holds? && !answer.subject.disabled && TrueOfWalk(dir.groups, answer.subject.memberOf, max, live, err)
  }

  ghost predicate AllReachable(groups: Groups, roots: seq<string>, some: set<string>) {
    forall g :: g in some ==> Reachable(groups, roots, g)
  }

  lemma NoLargerThan(groups: Groups, roots: seq<string>, closure: set<string>, max: nat)
    requires IsClosure(groups, roots, closure)
    ensures Exceeds(groups, roots, max) <==> |closure| > max
  {
    hide Reachable;
    if Exceeds(groups, roots, max) {
      var some: set<string> :| |some| > max && AllReachable(groups, roots, some);
      assert some <= closure;
      Smaller(some, closure);
    }
  }

  lemma Smaller<T>(a: set<T>, b: set<T>)
    requires a <= b
    ensures |a| <= |b|
  {
    assert b == a + (b - a);
  }

  // The walk at the head of its loop, `depth` levels in.
  ghost predicate Walking(groups: Groups, roots: seq<string>, depth: nat, frontier: seq<string>,
                          seen: map<string, string>,
                          unknown: seq<string>, answered: set<string>, lookups: nat) {
    && answered == (if depth == 0 then {} else Within(groups, roots, depth - 1))
    && seen.Keys == Within(groups, roots, depth)
    && Distinct(frontier) && Elements(frontier) == LevelAt(groups, roots, depth)
    && Remembers(groups, seen, answered) && ListsAbsent(groups, unknown, answered)
    && lookups == 1 + |answered|
    && (forall g :: g in answered ==> groups(g).Answered?)
    && NoneEmpty(groups, roots, depth)
  }

  ghost predicate NoneEmpty(groups: Groups, roots: seq<string>, depth: nat) {
    forall k: nat :: k < depth ==> LevelAt(groups, roots, k) != {}
  }

  lemma OneMoreLevel(groups: Groups, roots: seq<string>, depth: nat)
    ensures NoneEmpty(groups, roots, depth) && LevelAt(groups, roots, depth) != {} ==>
          NoneEmpty(groups, roots, depth + 1)
  {
    hide LevelAt;
  }

  lemma WalkStarts(groups: Groups, roots: seq<string>, frontier: seq<string>, seen: map<string, string>)
    requires Distinct(frontier) && forall g :: g in frontier <==> g in roots && g != ""
    requires seen == map g | g in frontier :: ""
    ensures Walking(groups, roots, 0, frontier, seen, [], {}, 1)
    ensures |seen| == |frontier|
  {
    DistinctCounts(frontier);
    assert seen.Keys == Elements(frontier);
  }

  lemma WalkSteps(groups: Groups, roots: seq<string>, depth: nat, frontier: seq<string>, seen: map<string, string>,
                  unknown: seq<string>, answered: set<string>, lookups: nat,
                  seen': map<string, string>, unknown': seq<string>, next: seq<string>)
    requires Walking(groups, roots, depth, frontier, seen, unknown, answered, lookups) && frontier != []
    requires forall g :: g in frontier ==> groups(g).Answered?
    requires Distinct(next) && Elements(next) == seen'.Keys - seen.Keys
    requires seen'.Keys == seen.Keys + Above(groups, Elements(frontier))
    requires Remembers(groups, seen', answered + Elements(frontier))
        && ListsAbsent(groups, unknown', answered + Elements(frontier))
    ensures Walking(groups, roots, depth + 1, next, seen', unknown', answered + Elements(frontier),
                    lookups + |frontier|)
    ensures |seen'| == |seen| + |next|
  {
    hide Remembers, ListsAbsent, Above, Within, Parents, LevelAt, Distinct, Elements, NoneEmpty;
    OneMoreLevel(groups, roots, depth);
    NextLevel(groups, roots, depth, answered, Elements(frontier));
    Added(groups, answered, frontier);
    DistinctCounts(next);
    KeysGrow(seen, seen', Elements(next));
  }

  lemma Added(groups: Groups, answered: set<string>, frontier: seq<string>)
    requires Distinct(frontier) && answered !! Elements(frontier)
    requires (forall g :: g in answered ==> groups(g).Answered?) && (forall g :: g in frontier ==> groups(g).Answered?)
    ensures |answered + Elements(frontier)| == |answered| + |frontier|
    ensures forall g :: g in answered + Elements(frontier) ==> groups(g).Answered?
    ensures frontier != [] ==> Elements(frontier) != {}
  {
    hide Distinct;
    DistinctCounts(frontier);
    assert frontier != [] ==> frontier[0] in Elements(frontier);
  }

  lemma KeysGrow(seen: map<string, string>, seen': map<string, string>, more: set<string>)
    requires more == seen'.Keys - seen.Keys && seen.Keys <= seen'.Keys
    ensures |seen'| == |seen| + |more|
  {
    assert |seen'.Keys| == |seen'| && |seen.Keys| == |seen|;
    assert seen'.Keys == seen.Keys + more;
  }

  // Only the newest level has parents that have not been met.
  lemma NextLevel(groups: Groups, roots: seq<string>, depth: nat, answered: set<string>, level: set<string>)
    requires answered == (if depth == 0 then {} else Within(groups, roots, depth - 1))
    requires level == LevelAt(groups, roots, depth)
    ensures answered + level == Within(groups, roots, depth)
    ensures Within(groups, roots, depth) + Above(groups, level) == Within(groups, roots, depth + 1)
    ensures LevelAt(groups, roots, depth + 1) == Within(groups, roots, depth + 1) - Within(groups, roots, depth)
    ensures answered !! level
  {
    hide Above;
    AboveUnion(groups, answered, level);
    assert answered <= Within(groups, roots, depth);
    assert Above(groups, answered) <= Within(groups, roots, depth);
  }

  lemma AboveUnion(groups: Groups, a: set<string>, b: set<string>)
    ensures Above(groups, a + b) == Above(groups, a) + Above(groups, b)
    ensures Above(groups, {}) == {}
  {
  }

  lemma StopsGrowing(groups: Groups, roots: seq<string>, depth: nat)
    requires LevelAt(groups, roots, depth) == {}
    ensures Within(groups, roots, depth) == if depth == 0 then {} else Within(groups, roots, depth - 1)
    ensures Above(groups, Within(groups, roots, depth)) <= Within(groups, roots, depth)
  {
    hide Above, Parents;
    AboveUnion(groups, {}, {});
    var before := if depth == 0 then {} else Within(groups, roots, depth - 1);
    forall g | g in Within(groups, roots, depth) ensures g in before {
      assert g in before || g in LevelAt(groups, roots, depth);
    }
    assert Within(groups, roots, depth) == before;
  }

  // An empty frontier: nothing above what has been seen is missing from it.
  lemma WalkEnds(groups: Groups, roots: seq<string>, depth: nat, seen: map<string, string>,
                 unknown: seq<string>, answered: set<string>, lookups: nat)
    requires Walking(groups, roots, depth, [], seen, unknown, answered, lookups)
    ensures IsClosure(groups, roots, seen.Keys)
    ensures answered == seen.Keys
    ensures forall k: nat :: LevelAt(groups, roots, k) != {} <==> k < depth
  {
    hide Reachable, Remembers, ListsAbsent, Above, Parents, LevelAt, Within, Distinct, Elements;
    assert LevelAt(groups, roots, depth) == {} by { assert Elements<string>([]) == {}; }
    StopsGrowing(groups, roots, depth);
    WithinIsClosure(groups, roots, depth);
    forall k: nat ensures LevelAt(groups, roots, k) != {} <==> k < depth {
      if k > depth {
        StaysEmpty(groups, roots, depth, k);
      }
    }
  }

  lemma StaysEmpty(groups: Groups, roots: seq<string>, depth: nat, k: nat)
    requires depth < k && Above(groups, Within(groups, roots, depth)) <= Within(groups, roots, depth)
    ensures LevelAt(groups, roots, k) == {}
  {
    hide Above, Within;
    Closed(groups, roots, depth, k);
    Grows(groups, roots, depth, k - 1);
  }

  // Of two answers with no NUL in a name, the versions are equal exactly when the
  // source, the subject's revision, the closure and the revision of each group in
  // it are.
  lemma VersionTells(dir: Directory, e: Expansion, dir': Directory, e': Expansion, hash: string -> nat)
    requires Resolves(dir, hash, e) && Resolves(dir', hash, e') && V.Collisionless(hash)
    requires V.AllWhole(dir.name, e.subject.version, e.revisions)
        && V.AllWhole(dir'.name, e'.subject.version, e'.revisions)
    ensures e.version == e'.version <==>
            dir.name == dir'.name && e.subject.version == e'.subject.version && e.revisions == e'.revisions
    ensures forall g :: g in e.revisions <==> Reachable(dir.groups, e.subject.memberOf, g)
    ensures forall g :: g in e.revisions ==> e.revisions[g] == Revision(dir.groups, g)
  {
    hide Reachable, Parents, LevelAt, Strict, GroupKey, V.Collisionless, V.AllWhole, V.Stamps, V.Names;
    var ids, closure :| IsClosure(dir.groups, e.subject.memberOf, closure) && Reports(dir, hash, e, ids, closure);
    var ids', closure' :| IsClosure(dir'.groups, e'.subject.memberOf, closure')
        && Reports(dir', hash, e', ids', closure');
    V.OneVersion(hash, dir.name, e.subject.version, ids, e.revisions, e.version,
                 dir'.name, e'.subject.version, ids', e'.revisions, e'.version);
  }

  class Resolver {
    const dir: Directory
    const width: nat
    const max: nat
    const hash: string -> nat

    var expansions: nat
    var failures: nat
    var lookups: nat
    var missing: nat
    var disabled: nat
    var unresolved: nat

    constructor (dir: Directory, width: nat, max: nat, hash: string -> nat)
      ensures this.dir == dir && this.width == width && this.max == max && this.hash == hash
      ensures expansions == failures == lookups == missing == disabled == unresolved == 0
    {
      this.dir, this.width, this.max, this.hash := dir, width, max, hash;
      expansions, failures, lookups, missing, disabled, unresolved := 0, 0, 0, 0, 0, 0;
    }

    // `live` says the request's context is never done; otherwise every look at it
    // may find it done.
    method Expand(id: string, live: bool) returns (r: Result)
      requires width > 0
      modifies this
      ensures r.Ok? ==> dir.subjects(id).Holds? && !dir.subjects(id).subject.disabled
      ensures r.Ok? ==> r.expansion.subject.memberOf == dir.subjects(id).subject.memberOf
      ensures r.Ok? ==> Resolves(dir, hash, r.expansion) && |r.expansion.members| <= max
      ensures r.Err? ==> TrueOf(dir, id, max, live, r.error)
      ensures live && dir.subjects(id).Holds? && !dir.subjects(id).subject.disabled ==>
                var roots := dir.subjects(id).subject.memberOf;
                AllAnswer(dir.groups, roots) ==>
                  (r == Err(TooManyGroups) <==> Exceeds(dir.groups, roots, max))
                      && (r.Ok? <==> !Exceeds(dir.groups, roots, max))
      ensures r.Ok? ==> expansions == old(expansions) + 1 && failures == old(failures)
                        && lookups == old(lookups) + r.expansion.lookups
                        && unresolved == old(unresolved) + |r.expansion.unknown|
      ensures r.Err? && r.error != Stopped ==> expansions == old(expansions) && failures == old(failures) + 1
    {
      hide Walking, Resolves, Exceeds, AllAnswer, IsClosure, Explains;
      var done := Poll(live);
      if done {
        return Err(Stopped);
      }
      lookups := lookups + 1;
      var answer := dir.subjects(id);
      match answer {
        case NoSubject =>
          missing, failures := missing + 1, failures + 1;
          return Err(Missing);
        case SubjectFailed(f) =>
          failures := failures + 1;
          return Err(ExpandError.Outage(f));
        case Holds(_) =>
      }
      var sub := answer.subject;
      if sub.disabled {
        disabled, failures := disabled + 1, failures + 1;
        return Err(Disabled);
      }
      if sub.id == "" {
        sub := sub.(id := id);
      }
      var err, seen, unknown, asked, depth, answered := Walk(sub.memberOf, live);
      lookups := lookups + (asked - 1);
      if err.Some? {
        failures := failures + 1;
        return Err(err.value);
      }
      WalkEnds(dir.groups, sub.memberOf, depth, seen, unknown, answered, asked);
      assert |seen.Keys| == |seen|;
      NoLargerThan(dir.groups, sub.memberOf, seen.Keys, max);
      var e := Finish(sub, seen, unknown, asked, depth, answered);
      expansions := expansions + 1;
      unresolved := unresolved + |e.unknown|;
      return Ok(e);
    }

    // The breadth first loop of Expand. It ends on any graph: every level either
    // adds a group to a set that may not pass `max`, or is the last.
    method Walk(roots: seq<string>, live: bool)
      returns (err: Option<ExpandError>, seen: map<string, string>, unknown: seq<string>, asked: nat, depth: nat,
               ghost answered: set<string>)
      requires width > 0
      ensures asked >= 1
      ensures err.None? ==> Walking(dir.groups, roots, depth, [], seen, unknown, answered, asked) && |seen| <= max
      ensures err.Some? ==> TrueOfWalk(dir.groups, roots, max, live, err.value)
      ensures live && AllAnswer(dir.groups, roots) ==> err.None? || err == Some(TooManyGroups)
    {
      hide Walking, Exceeds, AllAnswer, Explains, Orderly, Distinct, Elements;
      err := None;
      var frontier := Dedupe(roots);
      seen := map g | g in frontier :: "";
      unknown, asked, depth, answered := [], 1, 0, {};
      WalkStarts(dir.groups, roots, frontier, seen);
      if |seen| > max {
        SeenExceeds(dir.groups, roots, depth, frontier, seen, unknown, answered, asked, max);
        err := Some(TooManyGroups);
        return;
      }
      while frontier != []
        invariant Walking(dir.groups, roots, depth, frontier, seen, unknown, answered, asked)
        invariant |seen| <= max && asked >= 1 && err.None?
        decreases max - |seen|, |frontier| > 0
      {
        var done := Poll(live);
        if done {
          err := Some(Stopped);
          return;
        }
        var failed, seen', unknown', next := OneLevel(roots, frontier, seen, unknown, asked, depth, answered, live);
        if failed.Some? {
          asked := asked + |frontier|;
          err := Some(GroupFailed(failed.value));
          return;
        }
        depth, asked, answered := depth + 1, asked + |frontier|, answered + Elements(frontier);
        seen, unknown, frontier := seen', unknown', next;
        if |seen| > max {
          SeenExceeds(dir.groups, roots, depth, frontier, seen, unknown, answered, asked, max);
          err := Some(TooManyGroups);
          return;
        }
      }
    }

    // One level looked up together, and its answers folded in.
    method OneLevel(ghost roots: seq<string>, frontier: seq<string>, seen: map<string, string>, unknown: seq<string>,
                    ghost asked: nat, ghost depth: nat, ghost answered: set<string>, live: bool)
      returns (failed: Option<LevelError>, seen': map<string, string>, unknown': seq<string>, next: seq<string>)
      requires width > 0 && frontier != []
      requires Walking(dir.groups, roots, depth, frontier, seen, unknown, answered, asked)
      ensures failed.None? ==>
                && Walking(dir.groups, roots, depth + 1, next, seen', unknown', answered + Elements(frontier),
                           asked + |frontier|)
                && |seen'| == |seen| + |next|
      ensures failed.Some? ==> Explains(dir.groups, roots, failed.value, live)
      ensures live && AllAnswer(dir.groups, roots) ==> failed.None?
    {
      hide *;
      seen', unknown', next := seen, unknown, [];
      FrontierReachable(dir.groups, roots, depth, frontier, seen, unknown, answered, asked);
      FrontierSeen(dir.groups, roots, depth, frontier, seen, unknown, answered, asked);
      ghost var turns;
      var found, peak;
      found, failed, peak, turns := LookUp(dir.groups, frontier, width, !live);
      if failed.Some? {
        FrontierExplains(dir.groups, roots, depth, frontier, seen, unknown, answered, asked, failed.value, live);
      }
      if failed.None? {
        AllFound(dir.groups, frontier, found);
        seen', unknown', next := Absorb(dir.groups, frontier, found, seen, unknown, answered);
        WalkSteps(dir.groups, roots, depth, frontier, seen, unknown, answered, asked, seen', unknown', next);
      }
    }

    // The closure sorted and written the way permissions compare it.
    method Finish(sub: Subject, seen: map<string, string>, unknown: seq<string>, asked: nat, depth: nat,
                  ghost answered: set<string>)
      returns (e: Expansion)
      requires Walking(dir.groups, sub.memberOf, depth, [], seen, unknown, answered, asked)
      ensures Resolves(dir, hash, e) && |e.members| == |seen| && |e.unknown| == |unknown|
      ensures e.subject == sub && e.lookups == asked
    {
      hide *;
      var ids := SortedKeys(seen);
      var members := seq(|ids|, i requires 0 <= i < |ids| => GroupKey(Ref(dir.name, ids[i])));
      var version := V.Fingerprint(hash, dir.name, sub.version, ids, seen);
      e := Expansion(sub, version, members, seen, Sort(StrLess, unknown), asked, depth);
      Finished(dir, hash, e, ids, unknown, answered);
    }
  }

  method SortedKeys(seen: map<string, string>) returns (ids: seq<string>)
    ensures Lists(StrLess, ids, seen.Keys) && |ids| == |seen|
    ensures forall g :: g in ids ==> g in seen
  {
    hide StrLess;
    ids := [];
    var left := seen.Keys;
    while left != {}
      invariant left <= seen.Keys && Distinct(ids)
      invariant forall g :: g in ids <==> g in seen && g !in left
    {
      var g :| g in left;
      left := left - {g};
      ids := ids + [g];
    }
    StringsOrdered();
    SortLists(StrLess, ids, seen.Keys);
    assert |seen.Keys| == |seen|;
    ids := Sort(StrLess, ids);
  }

  lemma SortedAbsent(groups: Groups, unknown: seq<string>, answered: set<string>)
    requires ListsAbsent(groups, unknown, answered)
    ensures var sorted := Sort(StrLess, unknown);
            && Strict(StrLess, sorted) && |sorted| == |unknown|
            && forall g :: g in sorted <==> g in answered && groups(g) == Answered(Absent)
  {
    hide StrLess, Strict;
    StringsOrdered();
    SortLists(StrLess, unknown, Elements(unknown));
    assert Strict(StrLess, Sort(StrLess, unknown));
  }

  lemma Remembered(groups: Groups, seen: map<string, string>, answered: set<string>)
    requires Remembers(groups, seen, answered) && answered == seen.Keys
    ensures forall g :: g in seen.Keys ==> seen[g] == Revision(groups, g)
  {
  }

  lemma Finished(dir: Directory, hash: string -> nat, e: Expansion, ids: seq<string>, unknown: seq<string>,
                 answered: set<string>)
    requires Walking(dir.groups, e.subject.memberOf, e.depth, [], e.revisions, unknown, answered, e.lookups)
    requires Lists(StrLess, ids, e.revisions.Keys) && e.unknown == Sort(StrLess, unknown)
    requires |e.members| == |ids| && (forall i :: 0 <= i < |ids| ==> e.members[i] == GroupKey(Ref(dir.name, ids[i])))
    requires V.Stamps(hash, V.Names(dir.name, e.subject.version, ids, e.revisions), e.version)
    ensures Resolves(dir, hash, e) && |e.unknown| == |unknown|
  {
    hide StrLess, IsClosure, LevelAt, Within, GroupKey, Strict, Distinct, Lists, Elements, Sort, ListsAbsent,
        Revision, Remembers, V.Stamps, V.Names;
    WalkEnds(dir.groups, e.subject.memberOf, e.depth, e.revisions, unknown, answered, e.lookups);
    SortedAbsent(dir.groups, unknown, answered);
    Remembered(dir.groups, e.revisions, answered);
    assert Reports(dir, hash, e, ids, e.revisions.Keys);
  }

  // One look at the context.
  method Poll(live: bool) returns (done: bool)
    ensures live ==> !done
  {
    done := *;
    done := done && !live;
  }

  lemma FrontierSeen(groups: Groups, roots: seq<string>, depth: nat, frontier: seq<string>, seen: map<string, string>,
                     unknown: seq<string>, answered: set<string>, lookups: nat)
    requires Walking(groups, roots, depth, frontier, seen, unknown, answered, lookups)
    ensures Distinct(frontier) && Elements(frontier) !! answered && Elements(frontier) + answered <= seen.Keys
    ensures Remembers(groups, seen, answered) && ListsAbsent(groups, unknown, answered)
  {
  }

  // Every group about to be looked up is in the closure.
  lemma FrontierReachable(groups: Groups, roots: seq<string>, depth: nat, frontier: seq<string>,
                          seen: map<string, string>,
                          unknown: seq<string>, answered: set<string>, lookups: nat)
    requires Walking(groups, roots, depth, frontier, seen, unknown, answered, lookups)
    ensures AllAnswer(groups, roots) ==> forall g :: g in frontier ==> groups(g).Answered?
  {
    hide Reachable;
    WithinReachable(groups, roots, depth);
    assert forall g :: g in frontier ==> g in Elements(frontier);
  }

  lemma FrontierExplains(groups: Groups, roots: seq<string>, depth: nat, frontier: seq<string>,
                         seen: map<string, string>, unknown: seq<string>, answered: set<string>, lookups: nat,
                         e: LevelError, live: bool)
    requires Walking(groups, roots, depth, frontier, seen, unknown, answered, lookups)
    requires e.id in frontier && (e.failure != Canceled ==> groups(e.id) == Failed(e.failure))
    requires e.failure == Canceled && live ==> exists id :: id in frontier && groups(id) == Failed(Canceled)
    ensures Explains(groups, roots, e, live)
  {
    hide Reachable;
    WithinReachable(groups, roots, depth);
    assert forall g :: g in frontier ==> g in Elements(frontier);
  }

  lemma AllFound(groups: Groups, frontier: seq<string>, found: seq<Answer>)
    requires |found| == |frontier| && forall i :: 0 <= i < |frontier| ==> groups(frontier[i]) == Answered(found[i])
    ensures forall g :: g in frontier ==> groups(g).Answered?
  {
  }

  // What has been seen is reachable, so too much seen is too much to reach.
  lemma SeenExceeds(groups: Groups, roots: seq<string>, depth: nat, frontier: seq<string>, seen: map<string, string>,
                    unknown: seq<string>, answered: set<string>, lookups: nat, max: nat)
    ensures Walking(groups, roots, depth, frontier, seen, unknown, answered, lookups) && |seen| > max ==>
              Exceeds(groups, roots, max)
  {
    hide Reachable;
    if Walking(groups, roots, depth, frontier, seen, unknown, answered, lookups) && |seen| > max {
      WithinReachable(groups, roots, depth);
      assert |seen.Keys| == |seen| && AllReachable(groups, roots, seen.Keys);
    }
  }
}
