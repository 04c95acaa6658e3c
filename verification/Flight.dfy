// cache/cache.go, Cache.Do, and index/cache.go, Cache.ranked, Cache.corpusStats
// and Cache.Invalidate, taken apart: every read, every critical section and
// every return is a step, and the steps of any number of calls, writes, sweeps
// and evictions interleave in any order.
module Flight {
  import opened Encoding

  // A key names its tenant and the generation it was read at (SearchKey).
  datatype Key = Key(tenant: string, gen: nat, rest: string)

  // What a producing call came back with: the version of the tenant's corpus it
  // read, or that it failed.
  datatype Value = Value(call: nat, version: nat)
  datatype Result = Good(val: Value) | Bad(call: nat)

  // A producing call. `began` is how many Invalidates of the tenant there had
  // been when it began, and `base` how many commits. Returned, its critical
  // section is still to come; stored, its wg.Done is.
  datatype Stage = Running | Returned | Stored | Released
  datatype Call = Call(key: Key, leader: nat, began: nat, base: nat, stage: Stage, out: Option<Result>)

  // One call of ranked or corpusStats: before it reads the generation; with its
  // key; with a value it found; waiting for a call it joined or producing for a
  // call it started, before and after its miss is counted; back.
  datatype Place =
    | Starting
    | Keyed(key: Key)
    | Holding(key: Key, val: Value)
    | Joined(key: Key, call: nat, counted: bool)
    | Leading(key: Key, call: nat, counted: bool)
    | Back(key: Key, result: Result, via: Via)

  // Where an answer is from: a value that was found, or a call joined or started.
  datatype Via = Hit | Miss(call: nat)

  // `floor` is how many Invalidates of the tenant there had been at the start.
  datatype Caller = Caller(tenant: string, rest: string, floor: nat, at: Place)

  // A write: which commit of its tenant it was, and which Invalidate.
  datatype Write = Write(tenant: string, number: nat, dropped: Option<nat>)

  datatype State = State(
    commits: map<string, nat>, gen: map<string, nat>, writes: seq<Write>,
    cached: map<Key, Value>, inflight: map<Key, nat>, calls: seq<Call>, callers: seq<Caller>,
    hits: nat, misses: nat)

  const START := State(map[], map[], [], map[], map[], [], [], 0, 0)

  function Count(m: map<string, nat>, tenant: string): nat {
    if tenant in m then m[tenant] else 0
  }

  datatype Step =
    | Commit(tenant: string)
    | Invalidate(w: nat)
    | Start(tenant: string, rest: string)
    | ReadGen(i: nat)
    | LookUp(i: nat)
    | Tally(i: nat)
    | Compute(c: nat, ok: bool)
    | Store(c: nat)
    | Release(c: nat)
    | Return(i: nat)
    | Drop(key: Key)
    | Clear

  predicate Can(s: State, step: Step) {
    match step
    case Commit(_) => true
    case Invalidate(w) => w < |s.writes| && s.writes[w].dropped.None?
    case Start(_, _) => true
    case ReadGen(i) => i < |s.callers| && s.callers[i].at.Starting?
    case LookUp(i) => i < |s.callers| && s.callers[i].at.Keyed?
    case Tally(i) =>
      && i < |s.callers|
      && (var at := s.callers[i].at; at.Holding? || (at.Joined? && !at.counted) || (at.Leading? && !at.counted))
    case Compute(c, _) =>
      && c < |s.calls| && s.calls[c].stage.Running? && s.calls[c].leader < |s.callers|
      && s.callers[s.calls[c].leader].at == Leading(s.calls[c].key, c, true)
    case Store(c) => c < |s.calls| && s.calls[c].stage.Returned?
    case Release(c) => c < |s.calls| && s.calls[c].stage.Stored?
    case Return(i) =>
      && i < |s.callers|
      && (var at := s.callers[i].at;
          && (at.Joined? || at.Leading?) && at.counted
          && at.call < |s.calls| && s.calls[at.call].stage.Released? && s.calls[at.call].out.Some?)
    case Drop(_) => true
    case Clear => true
  }

  // Each says what it leaves alone.
  function Move(s: State, i: nat, at: Place): (r: State)
    requires i < |s.callers|
    ensures r == s.(callers := r.callers)
  {
    s.(callers := s.callers[i := s.callers[i].(at := at)])
  }

  function Committed(s: State, t: string): (r: State)
    ensures r == s.(commits := r.commits, writes := r.writes)
  {
    var n := Count(s.commits, t) + 1;
    s.(commits := s.commits[t := n], writes := s.writes + [Write(t, n, None)])
  }

  function Invalidated(s: State, w: nat): (r: State)
    requires Can(s, Invalidate(w))
    ensures r == s.(gen := r.gen, writes := r.writes)
  {
    var t := s.writes[w].tenant;
    var g := Count(s.gen, t) + 1;
    s.(gen := s.gen[t := g], writes := s.writes[w := s.writes[w].(dropped := Some(g))])
  }

  // Under one lock: a hit, a call to join, or a call to start.
  function LookedUp(s: State, i: nat): (r: State)
    requires Can(s, LookUp(i))
    ensures r == s.(callers := r.callers, calls := r.calls, inflight := r.inflight)
  {
    var k := s.callers[i].at.key;
    if k in s.cached then Move(s, i, Holding(k, s.cached[k]))
    else if k in s.inflight then Move(s, i, Joined(k, s.inflight[k], false))
    else
      var c := Call(k, i, Count(s.gen, k.tenant), Count(s.commits, k.tenant), Running, None);
      Move(s, i, Leading(k, |s.calls|, false)).(inflight := s.inflight[k := |s.calls|], calls := s.calls + [c])
  }

  function Tallied(s: State, i: nat): (r: State)
    requires Can(s, Tally(i))
    ensures r == s.(callers := r.callers, hits := r.hits, misses := r.misses)
  {
    match s.callers[i].at
    case Holding(k, v) => Move(s, i, Back(k, Good(v), Hit)).(hits := s.hits + 1)
    case Joined(k, c, _) => Move(s, i, Joined(k, c, true)).(misses := s.misses + 1)
    case Leading(k, c, _) => Move(s, i, Leading(k, c, true)).(misses := s.misses + 1)
  }

  function SetCall(s: State, c: nat, stage: Stage, out: Option<Result>): (r: State)
    requires c < |s.calls|
    ensures r == s.(calls := r.calls)
  {
    s.(calls := s.calls[c := s.calls[c].(stage := stage, out := out)])
  }

  // One critical section: the call leaves, and a good value is put.
  function Stores(s: State, c: nat): (r: State)
    requires c < |s.calls|
    ensures r == s.(calls := r.calls, inflight := r.inflight, cached := r.cached)
  {
    var call := s.calls[c];
    SetCall(s, c, Stored, call.out).(
      inflight := s.inflight - {call.key},
      cached := if call.out.Some? && call.out.value.Good? then s.cached[call.key := call.out.value.val] else s.cached)
  }

  function Next(s: State, step: Step): State
    requires Can(s, step)
  {
    match step
    case Commit(t) => Committed(s, t)
    case Invalidate(w) => Invalidated(s, w)
    case Start(t, rest) => s.(callers := s.callers + [Caller(t, rest, Count(s.gen, t), Starting)])
    case ReadGen(i) =>
      var a := s.callers[i];
      Move(s, i, Keyed(Key(a.tenant, Count(s.gen, a.tenant), a.rest)))
    case LookUp(i) => LookedUp(s, i)
    case Tally(i) => Tallied(s, i)
    case Compute(c, ok) =>
      SetCall(s, c, Returned, Some(if ok then Good(Value(c, Count(s.commits, s.calls[c].key.tenant))) else Bad(c)))
    case Store(c) => Stores(s, c)
    case Release(c) => SetCall(s, c, Released, s.calls[c].out)
    case Return(i) =>
      var at := s.callers[i].at;
      Move(s, i, Back(at.key, s.calls[at.call].out.value, Miss(at.call)))
    case Drop(k) => s.(cached := s.cached - {k})
    case Clear => s.(cached := map[])
  }

  // ---- What every step keeps.

  ghost predicate Live(c: Call) {
    c.stage.Running? || c.stage.Returned?
  }

  // A call is in flight under its key exactly while it has not stored.
  ghost predicate Flights(s: State) {
    && (forall k :: k in s.inflight ==>
          s.inflight[k] < |s.calls| && s.calls[s.inflight[k]].key == k && Live(s.calls[s.inflight[k]]))
    && (forall c :: 0 <= c < |s.calls| && Live(s.calls[c]) ==>
        s.calls[c].key in s.inflight && s.inflight[s.calls[c].key] == c)
  }

  // What a call came back with is its own, and not older than its start.
  ghost predicate Outcomes(s: State) {
    forall c :: 0 <= c < |s.calls| ==> OutcomeOf(s, c)
  }

  ghost predicate OutcomeOf(s: State, c: nat)
    requires c < |s.calls|
  {
    var call := s.calls[c];
    && (call.stage.Running? <==> call.out.None?)
    && (call.out.Some? ==> match call.out.value
        case Good(v) => v.call == c && call.base <= v.version <= Count(s.commits, call.key.tenant)
        case Bad(d) => d == c)
  }

  function Producer(r: Result): nat {
    if r.Good? then r.val.call else r.call
  }

  // A value came from a call for this key that came back with it.
  ghost predicate From(s: State, k: Key, r: Result) {
    var c := Producer(r);
    c < |s.calls| && s.calls[c].key == k && s.calls[c].out == Some(r)
  }

  ghost predicate Entries(s: State) {
    forall k :: k in s.cached ==> From(s, k, Good(s.cached[k]))
  }

  ghost predicate Placed(s: State) {
    forall i :: 0 <= i < |s.callers| ==> PlaceOf(s, s.callers[i])
  }

  ghost predicate PlaceOf(s: State, a: Caller) {
    && a.floor <= Count(s.gen, a.tenant)
    && (!a.at.Starting? ==>
          var k := a.at.key;
          k.tenant == a.tenant && k.rest == a.rest && a.floor <= k.gen <= Count(s.gen, a.tenant))
    && (match a.at
        case Starting => true
        case Keyed(_) => true
        case Holding(k, v) => From(s, k, Good(v))
        case Joined(k, c, _) => c < |s.calls| && s.calls[c].key == k
        case Leading(k, c, _) => c < |s.calls| && s.calls[c].key == k
        case Back(k, r, via) => From(s, k, r) && if via.Hit? then r.Good? else Producer(r) == via.call)
  }

  // A call not yet released has its leader at work on it.
  ghost predicate Led(s: State) {
    forall c :: 0 <= c < |s.calls| && !s.calls[c].stage.Released? ==> LedAt(s, c)
  }

  ghost predicate LedAt(s: State, c: nat) {
    && c < |s.calls|
    && (var call := s.calls[c];
        call.leader < |s.callers| && Leads(s.callers[call.leader].at, call, c))
  }

  predicate Leads(at: Place, call: Call, c: nat) {
    at.Leading? && at.key == call.key && at.call == c && (!call.stage.Running? ==> at.counted)
  }

  // Commits and Invalidates are numbered, and a call has read everything that had
  // been invalidated when it began.
  ghost predicate Numbered(s: State) {
    && (forall w :: 0 <= w < |s.writes| ==>
          && s.writes[w].number <= Count(s.commits, s.writes[w].tenant)
          && (s.writes[w].dropped.Some? ==> s.writes[w].dropped.value <= Count(s.gen, s.writes[w].tenant)))
    && (forall t :: Count(s.commits, t) > 0 ==>
          exists w :: 0 <= w < |s.writes| && IsWrite(s.writes[w], t, Count(s.commits, t)))
  }

  ghost predicate IsWrite(w: Write, t: string, number: nat) {
    w.tenant == t && w.number == number
  }

  ghost predicate Begun(s: State) {
    forall c :: 0 <= c < |s.calls| ==> BegunAt(s, s.calls[c])
  }

  ghost predicate BegunAt(s: State, call: Call) {
    && call.key.gen <= call.began <= Count(s.gen, call.key.tenant)
    && call.base <= Count(s.commits, call.key.tenant)
    && forall w :: 0 <= w < |s.writes| && Covers(call, s.writes[w]) ==> s.writes[w].number <= call.base
  }

  ghost predicate Covers(call: Call, w: Write) {
    w.tenant == call.key.tenant && w.dropped.Some? && w.dropped.value <= call.began
  }

  // A call that has counted itself, as a hit or as a miss.
  predicate Marked(at: Place, hit: bool) {
    match at
    case Starting => false
    case Keyed(_) => false
    case Holding(_, _) => false
    case Joined(_, _, counted) => counted && !hit
    case Leading(_, _, counted) => counted && !hit
    case Back(_, _, via) => via.Hit? == hit
  }

  function Total(callers: seq<Caller>, hit: bool): nat {
    if callers == [] then 0
    else Total(callers[..|callers| - 1], hit) + if Marked(callers[|callers| - 1].at, hit) then 1 else 0
  }

  ghost predicate Counted(s: State) {
    s.hits == Total(s.callers, true) && s.misses == Total(s.callers, false)
  }

  ghost predicate Inv(s: State) {
    Flights(s) && Outcomes(s) && Entries(s) && Placed(s) && Led(s) && Numbered(s) && Begun(s) && Counted(s)
  }

  // Which steps touch what.
  lemma Unwritten(s: State, step: Step)
    requires Can(s, step) && !step.Commit? && !step.Invalidate?
    ensures Next(s, step).commits == s.commits && Next(s, step).gen == s.gen && Next(s, step).writes == s.writes
  {
    hide Count, Move, Committed, Invalidated, LookedUp, Tallied, SetCall, Stores;
  }

  lemma Uncalled(s: State, step: Step)
    requires Can(s, step) && !step.LookUp? && !step.Compute? && !step.Store? && !step.Release?
    ensures Next(s, step).calls == s.calls && Next(s, step).inflight == s.inflight
  {
    hide Count, Move, Committed, Invalidated, LookedUp, Tallied, SetCall, Stores;
  }

  lemma Unmoved(s: State, step: Step)
    requires Can(s, step)
    requires step.Commit? || step.Invalidate? || step.Compute? || step.Store? || step.Release? || step.Drop?
        || step.Clear?
    ensures Next(s, step).callers == s.callers
  {
    hide Count, Move, Committed, Invalidated, LookedUp, Tallied, SetCall, Stores;
  }

  lemma FlightsKept(s: State, step: Step)
    requires Can(s, step) && Flights(s)
    ensures Flights(Next(s, step))
  {
    hide Flights, Next, Can;
    match step
    case LookUp(i) => LookUpFlights(s, i);
    case Compute(c, ok) => CallFlights(s, step, c);
    case Store(c) => StoreFlights(s, c);
    case Release(c) => CallFlights(s, step, c);
    case _ => {
      Uncalled(s, step);
      SameFlights(s, Next(s, step));
    }
  }

  lemma SameFlights(s: State, s': State)
    requires Flights(s) && s'.calls == s.calls && s'.inflight == s.inflight
    ensures Flights(s')
  {
  }

  lemma LookUpFlights(s: State, i: nat)
    requires Can(s, LookUp(i)) && Flights(s)
    ensures Flights(Next(s, LookUp(i)))
  {
    hide Count, Flights;
    var s', k := Next(s, LookUp(i)), s.callers[i].at.key;
    if k !in s.cached && k !in s.inflight {
      OneMoreFlight(s, s', s'.calls[|s.calls|]);
    } else {
      SameFlights(s, s');
    }
  }

  lemma OneMoreFlight(s: State, s': State, c: Call)
    requires Flights(s) && c.key !in s.inflight && Live(c)
    requires s'.calls == s.calls + [c] && s'.inflight == s.inflight[c.key := |s.calls|]
    ensures Flights(s')
  {
  }

  lemma StoreFlights(s: State, c: nat)
    requires Can(s, Store(c)) && Flights(s)
    ensures Flights(Next(s, Store(c)))
  {
  }

  lemma CallFlights(s: State, step: Step, c: nat)
    requires Can(s, step) && Flights(s) && (step.Compute? || step.Release?) && step.c == c
    ensures Flights(Next(s, step))
  {
    var s' := Next(s, step);
    assert s'.inflight == s.inflight && s'.calls == s.calls[c := s'.calls[c]];
    assert s'.calls[c].key == s.calls[c].key && (Live(s'.calls[c]) <==> Live(s.calls[c]));
  }

  lemma OutcomesKept(s: State, step: Step)
    requires Can(s, step) && Outcomes(s) && Begun(s)
    ensures Outcomes(Next(s, step))
  {
    hide BegunAt, Can, Next, OutcomeOf;
    var s' := Next(s, step);
    forall c | 0 <= c < |s'.calls| ensures OutcomeOf(s', c) {
      if c < |s.calls| {
        OutcomeKept(s, step, c);
      } else {
        OutcomeNew(s, step, c);
      }
    }
  }

  lemma OutcomeNew(s: State, step: Step, c: nat)
    requires Can(s, step) && |s.calls| <= c < |Next(s, step).calls|
    ensures OutcomeOf(Next(s, step), c)
  {
  }

  lemma OutcomeKept(s: State, step: Step, c: nat)
    requires Can(s, step) && c < |s.calls| && OutcomeOf(s, c) && BegunAt(s, s.calls[c])
    ensures c < |Next(s, step).calls| && OutcomeOf(Next(s, step), c)
  {
    CallsGrow(s, step, if c < |Next(s, step).calls| then c else 0);
    match step
    case Commit(t) => OutcomeCommit(s, t, c);
    case Compute(d, ok) => OutcomeCompute(s, d, ok, c);
    case _ => OutcomeElse(s, step, c);
  }

  lemma OutcomeElse(s: State, step: Step, c: nat)
    requires Can(s, step) && !step.Commit? && !step.Compute? && c < |s.calls| && OutcomeOf(s, c)
    requires c < |Next(s, step).calls|
    ensures OutcomeOf(Next(s, step), c)
  {
    assert Next(s, step).commits == s.commits;
  }

  lemma OutcomeCommit(s: State, t: string, c: nat)
    requires c < |s.calls| && OutcomeOf(s, c)
    ensures OutcomeOf(Next(s, Commit(t)), c)
  {
  }

  lemma OutcomeCompute(s: State, d: nat, ok: bool, c: nat)
    requires Can(s, Compute(d, ok)) && c < |s.calls| && OutcomeOf(s, c) && BegunAt(s, s.calls[c])
    ensures OutcomeOf(Next(s, Compute(d, ok)), c)
  {
  }

  lemma FromKept(s: State, step: Step, k: Key, r: Result)
    requires Can(s, step) && Outcomes(s) && From(s, k, r)
    ensures From(Next(s, step), k, r)
  {
    var c := if r.Good? then r.val.call else r.call;
    assert OutcomeOf(s, c);
  }

  lemma EntriesKept(s: State, step: Step)
    requires Can(s, step) && Outcomes(s) && Entries(s)
    ensures Entries(Next(s, step))
  {
    hide From, OutcomeOf;
    var s' := Next(s, step);
    forall k | k in s'.cached ensures From(s', k, Good(s'.cached[k])) {
      if k in s.cached && s'.cached[k] == s.cached[k] {
        FromKept(s, step, k, Good(s.cached[k]));
      } else {
        StoredFrom(s, step);
      }
    }
  }

  lemma StoredFrom(s: State, step: Step)
    requires Can(s, step) && Outcomes(s) && step.Store?
    ensures var call := s.calls[step.c];
            call.out.Some? ==> From(Next(s, step), call.key, call.out.value)
  {
    assert OutcomeOf(s, step.c);
  }

  lemma PlacedKept(s: State, step: Step)
    requires Can(s, step) && Outcomes(s) && Entries(s) && Flights(s) && Placed(s)
    ensures Placed(Next(s, step))
  {
    hide From, Outcomes, Entries, Flights;
    var s' := Next(s, step);
    forall i | 0 <= i < |s'.callers| ensures PlaceOf(s', s'.callers[i]) {
      if i < |s.callers| {
        assert PlaceOf(s, s.callers[i]);
        if Moves(step, i) {
          Arrives(s, step, i);
        } else {
          OthersStay(s, step, i);
          Keeps(s, step, s.callers[i]);
        }
      }
    }
  }

  lemma Keeps(s: State, step: Step, a: Caller)
    requires Can(s, step) && Outcomes(s) && PlaceOf(s, a)
    ensures PlaceOf(Next(s, step), a)
  {
    hide From, Outcomes, Next, Can, Count;
    GenGrows(s, step, a.tenant);
    match a.at
    case Starting =>
    case Keyed(_) =>
    case Holding(k, v) => FromKept(s, step, k, Good(v));
    case Joined(_, c, _) => CallStays(s, step, c);
    case Leading(_, c, _) => CallStays(s, step, c);
    case Back(k, r, _) => FromKept(s, step, k, r);
  }

  lemma GenGrows(s: State, step: Step, t: string)
    requires Can(s, step)
    ensures Count(s.gen, t) <= Count(Next(s, step).gen, t)
  {
  }

  lemma CallStays(s: State, step: Step, c: nat)
    requires Can(s, step) && c < |s.calls|
    ensures c < |Next(s, step).calls| && Next(s, step).calls[c].key == s.calls[c].key
  {
  }

  // A caller that a step moves is in place where it arrives.
  lemma Arrives(s: State, step: Step, i: nat)
    requires Can(s, step) && Outcomes(s) && Entries(s) && Flights(s)
    requires i < |s.callers| && PlaceOf(s, s.callers[i])
    requires Moves(step, i)
    ensures PlaceOf(Next(s, step), Next(s, step).callers[i])
  {
    hide Outcomes, From, Flights, Entries, PlaceOf, Next, Can;
    match step
    case ReadGen(j) => ArrivesKeyed(s, i);
    case LookUp(j) => ArrivesFound(s, i);
    case Tally(j) => ArrivesTallied(s, i);
    case Return(j) => ReturnFrom(s, step);
  }

  predicate Moves(step: Step, i: nat) {
    (step.ReadGen? || step.LookUp? || step.Tally? || step.Return?) && step.i == i
  }

  lemma OthersStay(s: State, step: Step, i: nat)
    requires Can(s, step) && i < |s.callers| && !Moves(step, i)
    ensures i < |Next(s, step).callers| && Next(s, step).callers[i] == s.callers[i]
  {
    hide Next, Can;
    match step
    case Start(t, rest) => OneMoves(s, step, |s.callers|, i);
    case ReadGen(j) => OneMoves(s, step, j, i);
    case LookUp(j) => OneMoves(s, step, j, i);
    case Tally(j) => OneMoves(s, step, j, i);
    case Return(j) => OneMoves(s, step, j, i);
    case _ => Unmoved(s, step);
  }

  lemma OneMoves(s: State, step: Step, j: nat, i: nat)
    requires Can(s, step) && i < |s.callers| && i != j && (Moves(step, j) || step.Start?)
    ensures i < |Next(s, step).callers| && Next(s, step).callers[i] == s.callers[i]
  {
    hide Count, Committed, Invalidated, SetCall, Stores;
  }

  lemma ArrivesKeyed(s: State, i: nat)
    requires Can(s, ReadGen(i)) && PlaceOf(s, s.callers[i])
    ensures PlaceOf(Next(s, ReadGen(i)), Next(s, ReadGen(i)).callers[i])
  {
  }

  lemma ArrivesFound(s: State, i: nat)
    requires Can(s, LookUp(i)) && PlaceOf(s, s.callers[i]) && Outcomes(s) && Entries(s) && Flights(s)
    ensures PlaceOf(Next(s, LookUp(i)), Next(s, LookUp(i)).callers[i])
  {
    hide Outcomes, From;
    if s.callers[i].at.key in s.cached {
      FromKept(s, LookUp(i), s.callers[i].at.key, Good(s.cached[s.callers[i].at.key]));
    }
  }

  lemma ArrivesTallied(s: State, i: nat)
    requires Can(s, Tally(i)) && PlaceOf(s, s.callers[i])
    ensures PlaceOf(Next(s, Tally(i)), Next(s, Tally(i)).callers[i])
  {
    hide From;
    var s', at := Next(s, Tally(i)), s.callers[i].at;
    assert s'.calls == s.calls && s'.gen == s.gen;
    if at.Holding? {
      SameFrom(s, s', at.key, Good(at.val));
      assert s'.callers[i].at == Back(at.key, Good(at.val), Hit);
    } else {
      assert s'.callers[i].at == at.(counted := true);
    }
  }

  lemma SameFrom(s: State, s': State, k: Key, r: Result)
    requires From(s, k, r) && s'.calls == s.calls
    ensures From(s', k, r)
  {
  }

  lemma ReturnFrom(s: State, step: Step)
    requires Can(s, step) && Outcomes(s) && step.Return? && PlaceOf(s, s.callers[step.i])
    ensures PlaceOf(Next(s, step), Next(s, step).callers[step.i])
  {
    assert OutcomeOf(s, s.callers[step.i].at.call);
  }

  lemma LedKept(s: State, step: Step)
    requires Can(s, step) && Led(s)
    ensures Led(Next(s, step))
  {
    hide Led, Next, Can;
    match step
    case Start(t, rest) => StartLed(s, t, rest);
    case ReadGen(i) => ReadGenLed(s, i);
    case LookUp(i) => LookUpLed(s, i);
    case Tally(i) => TallyLed(s, i);
    case Return(i) => ReturnLed(s, i);
    case Compute(c, ok) => CallLed(s, step, c);
    case Store(c) => CallLed(s, step, c);
    case Release(c) => CallLed(s, step, c);
    case _ => {
      Uncalled(s, step);
      Unmoved(s, step);
      SameLed(s, Next(s, step));
    }
  }

  lemma SameLed(s: State, s': State)
    requires Led(s) && s'.calls == s.calls && s'.callers == s.callers
    ensures Led(s')
  {
  }

  lemma CallLed(s: State, step: Step, c: nat)
    requires Can(s, step) && Led(s) && (step.Compute? || step.Store? || step.Release?) && step.c == c
    ensures Led(Next(s, step))
  {
    var s' := Next(s, step);
    assert s'.callers == s.callers && s'.calls == s.calls[c := s'.calls[c]];
    assert s'.calls[c].key == s.calls[c].key && s'.calls[c].leader == s.calls[c].leader;
  }

  lemma StartLed(s: State, t: string, rest: string)
    requires Led(s)
    ensures Led(Next(s, Start(t, rest)))
  {
    forall c | 0 <= c < |s.calls| && !s.calls[c].stage.Released? ensures LedAt(Next(s, Start(t, rest)), c) {
      assert LedAt(s, c);
    }
  }

  lemma ReadGenLed(s: State, i: nat)
    requires Can(s, ReadGen(i)) && Led(s)
    ensures Led(Next(s, ReadGen(i)))
  {
    forall c | 0 <= c < |s.calls| && !s.calls[c].stage.Released? ensures LedAt(Next(s, ReadGen(i)), c) {
      assert LedAt(s, c);
    }
  }

  lemma LookUpLed(s: State, i: nat)
    requires Can(s, LookUp(i)) && Led(s)
    ensures Led(Next(s, LookUp(i)))
  {
    forall c | 0 <= c < |s.calls| && !s.calls[c].stage.Released? ensures LedAt(Next(s, LookUp(i)), c) {
      assert LedAt(s, c);
    }
  }

  lemma TallyLed(s: State, i: nat)
    requires Can(s, Tally(i)) && Led(s)
    ensures Led(Next(s, Tally(i)))
  {
    forall c | 0 <= c < |s.calls| && !s.calls[c].stage.Released? ensures LedAt(Next(s, Tally(i)), c) {
      assert LedAt(s, c);
    }
  }

  lemma ReturnLed(s: State, i: nat)
    requires Can(s, Return(i)) && Led(s)
    ensures Led(Next(s, Return(i)))
  {
    forall c | 0 <= c < |s.calls| && !s.calls[c].stage.Released? ensures LedAt(Next(s, Return(i)), c) {
      assert LedAt(s, c);
    }
  }

  lemma NumberedKept(s: State, step: Step)
    requires Can(s, step) && Numbered(s)
    ensures Numbered(Next(s, step))
  {
    hide Numbered, Next, Can;
    match step
    case Commit(t) => CommitNumbered(s, t);
    case Invalidate(w) => InvalidateNumbered(s, w);
    case _ => {
      Unwritten(s, step);
      SameNumbered(s, Next(s, step));
    }
  }

  lemma SameNumbered(s: State, s': State)
    requires Numbered(s) && s'.commits == s.commits && s'.gen == s.gen && s'.writes == s.writes
    ensures Numbered(s')
  {
    forall t | Count(s'.commits, t) > 0
      ensures exists w :: 0 <= w < |s'.writes| && IsWrite(s'.writes[w], t, Count(s'.commits, t))
    {
      var w :| 0 <= w < |s.writes| && IsWrite(s.writes[w], t, Count(s.commits, t));
      assert IsWrite(s'.writes[w], t, Count(s'.commits, t));
    }
  }

  lemma CommitNumbered(s: State, c: string)
    requires Numbered(s)
    ensures Numbered(Next(s, Commit(c)))
  {
    hide Count, Next;
    CountCommitted(s, c);
    var s' := Next(s, Commit(c));
    forall t | Count(s'.commits, t) > 0
      ensures exists w :: 0 <= w < |s'.writes| && IsWrite(s'.writes[w], t, Count(s'.commits, t))
    {
      if t == c {
        assert IsWrite(s'.writes[|s.writes|], t, Count(s'.commits, t));
      } else {
        var w :| 0 <= w < |s.writes| && IsWrite(s.writes[w], t, Count(s.commits, t));
        assert IsWrite(s'.writes[w], t, Count(s'.commits, t));
      }
    }
  }

  lemma CountCommitted(s: State, c: string)
    ensures var s' := Next(s, Commit(c));
            && s'.gen == s.gen && s'.writes == s.writes + [Write(c, Count(s.commits, c) + 1, None)]
            && forall t :: Count(s'.commits, t) == Count(s.commits, t) + if t == c then 1 else 0
  {
  }

  lemma InvalidateNumbered(s: State, v: nat)
    requires Can(s, Invalidate(v)) && Numbered(s)
    ensures Numbered(Next(s, Invalidate(v)))
  {
    hide Count, Next;
    CountInvalidated(s, v);
    var s' := Next(s, Invalidate(v));
    forall t | Count(s'.commits, t) > 0
      ensures exists w :: 0 <= w < |s'.writes| && IsWrite(s'.writes[w], t, Count(s'.commits, t))
    {
      var w :| 0 <= w < |s.writes| && IsWrite(s.writes[w], t, Count(s.commits, t));
      assert IsWrite(s'.writes[w], t, Count(s'.commits, t));
    }
  }

  lemma CountInvalidated(s: State, v: nat)
    requires Can(s, Invalidate(v))
    ensures var s', tenant := Next(s, Invalidate(v)), s.writes[v].tenant;
            && s'.commits == s.commits
            && s'.writes == s.writes[v := s.writes[v].(dropped := Some(Count(s.gen, tenant) + 1))]
            && forall t :: Count(s'.gen, t) == Count(s.gen, t) + if t == tenant then 1 else 0
  {
  }

  lemma BegunKept(s: State, step: Step)
    requires Can(s, step) && Begun(s) && Numbered(s) && Placed(s)
    ensures Begun(Next(s, step))
  {
    hide Numbered, Placed, PlaceOf, Next, Can;
    forall c | 0 <= c < |Next(s, step).calls| ensures BegunAt(Next(s, step), Next(s, step).calls[c]) {
      CallsGrow(s, step, c);
      if c < |s.calls| {
        BegunLater(s, step, s.calls[c]);
        SameBegun(Next(s, step), s.calls[c], Next(s, step).calls[c]);
      } else {
        BegunNow(s, step, c);
      }
    }
  }

  lemma CallsGrow(s: State, step: Step, c: nat)
    requires Can(s, step) && c < |Next(s, step).calls|
    ensures |s.calls| <= |Next(s, step).calls|
    ensures c < |s.calls| ==>
              var d := Next(s, step).calls[c];
              d.key == s.calls[c].key && d.began == s.calls[c].began && d.base == s.calls[c].base
  {
  }

  lemma SameBegun(s: State, a: Call, b: Call)
    requires BegunAt(s, a) && a.key == b.key && a.began == b.began && a.base == b.base
    ensures BegunAt(s, b)
  {
    assert forall w :: Covers(b, w) <==> Covers(a, w);
  }

  // An Invalidate after a call began covers nothing the call could have missed.
  lemma BegunLater(s: State, step: Step, call: Call)
    requires Can(s, step) && BegunAt(s, call)
    ensures BegunAt(Next(s, step), call)
  {
    hide Can, Next;
    match step
    case Commit(t) => BegunCommit(s, t, call);
    case Invalidate(w) => BegunInvalidate(s, w, call);
    case _ => Unwritten(s, step);
  }

  lemma BegunCommit(s: State, t: string, call: Call)
    requires BegunAt(s, call)
    ensures BegunAt(Next(s, Commit(t)), call)
  {
  }

  lemma BegunInvalidate(s: State, w: nat, call: Call)
    requires Can(s, Invalidate(w)) && BegunAt(s, call)
    ensures BegunAt(Next(s, Invalidate(w)), call)
  {
  }

  lemma BegunNow(s: State, step: Step, c: nat)
    requires Can(s, step) && Numbered(s) && Placed(s) && |s.calls| <= c < |Next(s, step).calls|
    ensures BegunAt(Next(s, step), Next(s, step).calls[c])
  {
    hide Placed, Count, IsWrite;
    assert step.LookUp?;
    assert PlaceOf(s, s.callers[step.i]) by { InPlace(s, step.i); }
  }

  lemma InPlace(s: State, i: nat)
    requires Placed(s) && i < |s.callers|
    ensures PlaceOf(s, s.callers[i])
  {
    hide PlaceOf;
  }

  lemma {:induction false} TotalMove(callers: seq<Caller>, i: nat, a: Caller, hit: bool)
    requires i < |callers|
    ensures Total(callers[i := a], hit) ==
            Total(callers, hit) - (if Marked(callers[i].at, hit) then 1 else 0) + (if Marked(a.at, hit) then 1 else 0)
  {
    var n := |callers| - 1;
    if i < n {
      TotalMove(callers[..n], i, a, hit);
      assert callers[i := a][..n] == callers[..n][i := a];
    } else {
      assert callers[i := a][..n] == callers[..n];
    }
  }

  lemma CountedKept(s: State, step: Step)
    requires Can(s, step) && Counted(s)
    ensures Counted(Next(s, step))
  {
    hide Total, Marked, Next, Can;
    match step
    case Start(t, rest) => StartCounted(s, t, rest);
    case ReadGen(i) => MoveCounted(s, step, i);
    case LookUp(i) => MoveCounted(s, step, i);
    case Tally(i) => TallyCounted(s, i);
    case Return(i) => MoveCounted(s, step, i);
    case _ => StillCounted(s, step);
  }

  lemma StillCounted(s: State, step: Step)
    requires Can(s, step) && Counted(s) && !step.Start? && !step.ReadGen? && !step.LookUp? && !step.Tally?
        && !step.Return?
    ensures Counted(Next(s, step))
  {
    hide Count, Move, Committed, Invalidated, LookedUp, Tallied, SetCall, Stores, Total;
  }

  lemma StartCounted(s: State, t: string, rest: string)
    requires Counted(s)
    ensures Counted(Next(s, Start(t, rest)))
  {
    hide Count;
    var s' := Next(s, Start(t, rest));
    assert s'.callers[..|s'.callers| - 1] == s.callers;
  }

  lemma MoveCounted(s: State, step: Step, i: nat)
    requires Can(s, step) && Counted(s) && !step.Tally? && Moves(step, i)
    ensures Counted(Next(s, step))
  {
    hide Total, Count;
    var s' := Next(s, step);
    TotalMove(s.callers, i, s'.callers[i], true);
    TotalMove(s.callers, i, s'.callers[i], false);
    assert s'.callers == s.callers[i := s'.callers[i]];
  }

  lemma TallyCounted(s: State, i: nat)
    requires Can(s, Tally(i)) && Counted(s)
    ensures Counted(Next(s, Tally(i)))
  {
    hide Total, Count;
    var s' := Next(s, Tally(i));
    TotalMove(s.callers, i, s'.callers[i], true);
    TotalMove(s.callers, i, s'.callers[i], false);
    assert s'.callers == s.callers[i := s'.callers[i]];
  }

  lemma InvKept(s: State, step: Step)
    requires Can(s, step) && Inv(s)
    ensures Inv(Next(s, step))
  {
    hide Can, Next, Flights, Outcomes, Entries, Placed, Led, Numbered, Begun, Counted;
    FlightsKept(s, step);
    OutcomesKept(s, step);
    EntriesKept(s, step);
    PlacedKept(s, step);
    LedKept(s, step);
    NumberedKept(s, step);
    BegunKept(s, step);
    CountedKept(s, step);
  }

  // ---- Whole runs, in any order.

  predicate Run(steps: seq<Step>)
    decreases |steps|, 0
  {
    steps == [] || (Run(steps[..|steps| - 1]) && Can(End(steps[..|steps| - 1]), steps[|steps| - 1]))
  }

  function End(steps: seq<Step>): State
    requires Run(steps)
    decreases |steps|, 1
  {
    if steps == [] then START else Next(End(steps[..|steps| - 1]), steps[|steps| - 1])
  }

  lemma {:induction false} Always(steps: seq<Step>)
    requires Run(steps)
    ensures Inv(End(steps))
  {
    hide Can, Next, Inv;
    if steps == [] {
      StartInv();
    } else {
      Always(steps[..|steps| - 1]);
      InvKept(End(steps[..|steps| - 1]), steps[|steps| - 1]);
    }
  }

  lemma StartInv()
    ensures Inv(START)
  {
  }

  // At most one producing call for a key is running.
  lemma OneAtATime(steps: seq<Step>, c: nat, d: nat)
    requires Run(steps)
    requires c < |End(steps).calls| && d < |End(steps).calls| && End(steps).calls[c].key == End(steps).calls[d].key
    requires Live(End(steps).calls[c]) && Live(End(steps).calls[d])
    ensures c == d
  {
    hide Run, End, Can, Next;
    Always(steps);
  }

  // What a caller found at its lookup, in the state the lookup was made in: a value
  // held under its key, or no value, and a call in flight or its own new one.
  ghost predicate FoundIn(s: State, at: Place) {
    match at
    case Starting => false
    case Keyed(_) => false
    case Holding(k, v) => k in s.cached && s.cached[k] == v
    case Joined(k, c, _) => InFlight(s, k, c)
    case Leading(k, c, _) => InFlight(s, k, c)
    case Back(k, r, Hit) => k in s.cached && r == Good(s.cached[k])
    case Back(k, _, Miss(c)) => InFlight(s, k, c)
  }

  ghost predicate InFlight(s: State, k: Key, c: nat) {
    k !in s.cached && if k in s.inflight then s.inflight[k] == c else c == |s.calls|
  }

  predicate Looked(at: Place) {
    !at.Starting? && !at.Keyed?
  }

  lemma FoundNow(s: State, i: nat)
    requires Can(s, LookUp(i))
    ensures FoundIn(s, Next(s, LookUp(i)).callers[i].at)
  {
    hide Count;
  }

  // A caller that has looked moves on with what it found.
  lemma FoundStill(s: State, step: Step, i: nat, before: State)
    requires Can(s, step) && i < |Next(s, step).callers| && step != LookUp(i) && Looked(Next(s, step).callers[i].at)
    ensures i < |s.callers| && Looked(s.callers[i].at)
    ensures FoundIn(before, s.callers[i].at) ==> FoundIn(before, Next(s, step).callers[i].at)
  {
    hide Can, Next, InFlight, FoundIn;
    match step
    case Start(t, rest) => {
      StartAdds(s, t, rest, i);
    }
    case _ => {
      SameNumber(s, step);
      if Moves(step, i) {
        FoundMoves(s, step, i, before);
      } else {
        OthersStay(s, step, i);
      }
    }
  }

  lemma StartAdds(s: State, t: string, rest: string, i: nat)
    requires i < |Next(s, Start(t, rest)).callers| && Looked(Next(s, Start(t, rest)).callers[i].at)
    ensures i < |s.callers| && Next(s, Start(t, rest)).callers[i] == s.callers[i]
  {
    hide Count;
  }

  lemma SameNumber(s: State, step: Step)
    requires Can(s, step) && !step.Start?
    ensures |Next(s, step).callers| == |s.callers|
  {
    hide Count, Committed, Invalidated, SetCall, Stores;
  }

  lemma FoundMoves(s: State, step: Step, i: nat, before: State)
    requires Can(s, step) && Moves(step, i) && !step.LookUp? && i < |s.callers|
    requires i < |Next(s, step).callers| && Looked(Next(s, step).callers[i].at)
    ensures Looked(s.callers[i].at)
    ensures FoundIn(before, s.callers[i].at) ==> FoundIn(before, Next(s, step).callers[i].at)
  {
    hide Count, Committed, Invalidated, LookedUp, SetCall, Stores, InFlight;
  }

  // When a caller looked, and what it found then.
  lemma {:induction false} LookedAt(steps: seq<Step>, i: nat) returns (n: nat)
    requires Run(steps) && i < |End(steps).callers| && Looked(End(steps).callers[i].at)
    ensures n < |steps| && steps[n] == LookUp(i) && Run(steps[..n])
        && FoundIn(End(steps[..n]), End(steps).callers[i].at)
  {
    hide Can, Next, FoundIn, Looked;
    assert steps != [];
    var last := |steps| - 1;
    var s := End(steps[..last]);
    if steps[last] == LookUp(i) {
      n := last;
      FoundNow(s, i);
    } else {
      FoundStill(s, steps[last], i, s);
      n := LookedAt(steps[..last], i);
      assert steps[..last][..n] == steps[..n];
      FoundStill(s, steps[last], i, End(steps[..n]));
    }
  }

  // An answer by a hit is the value that was held under the key at the lookup. One
  // by a miss is the outcome of the very call the lookup joined or started, which
  // was in flight from then on. A failure is never kept.
  lemma AnswersAreProduced(steps: seq<Step>, i: nat) returns (n: nat)
    requires Run(steps) && i < |End(steps).callers| && End(steps).callers[i].at.Back?
    ensures n < |steps| && steps[n] == LookUp(i) && Run(steps[..n])
    ensures var s, was, at := End(steps), End(steps[..n]), End(steps).callers[i].at;
            && From(s, at.key, at.result)
            && (at.via.Hit? <==> at.key in was.cached)
            && (at.via.Hit? ==> at.result == Good(was.cached[at.key]))
            && (at.via.Miss? ==> InFlight(was, at.key, at.via.call) && Producer(at.result) == at.via.call)
    ensures forall k :: k in End(steps).cached ==> From(End(steps), k, Good(End(steps).cached[k]))
  {
    hide Run, End, Can, Next, From;
    Always(steps);
    assert PlaceOf(End(steps), End(steps).callers[i]);
    n := LookedAt(steps, i);
  }

  // When everybody is back, each has counted one hit or one miss.
  lemma OneCountEach(steps: seq<Step>)
    requires Run(steps) && forall i :: 0 <= i < |End(steps).callers| ==> End(steps).callers[i].at.Back?
    ensures End(steps).hits + End(steps).misses == |End(steps).callers|
    ensures End(steps).hits == |Hits(End(steps).callers)|
  {
    hide Run, End, Can, Next;
    Always(steps);
    BackCount(End(steps).callers);
  }

  lemma {:induction false} BackCount(callers: seq<Caller>)
    requires forall i :: 0 <= i < |callers| ==> callers[i].at.Back?
    ensures Total(callers, true) + Total(callers, false) == |callers|
    ensures Total(callers, true) == |Hits(callers)|
  {
    hide Hits;
    if callers != [] {
      BackCount(callers[..|callers| - 1]);
      HitsMore(callers);
    } else {
      NoHits();
    }
  }

  // Who was answered from the cache.
  ghost function Hits(callers: seq<Caller>): set<nat>
    requires forall i :: 0 <= i < |callers| ==> callers[i].at.Back?
  {
    set i: nat | i < |callers| && callers[i].at.via.Hit?
  }

  lemma NoHits()
    ensures Hits([]) == {}
  {
  }

  lemma HitsMore(callers: seq<Caller>)
    requires callers != [] && forall i :: 0 <= i < |callers| ==> callers[i].at.Back?
    ensures var n := |callers| - 1;
            |Hits(callers)| == |Hits(callers[..n])| + if callers[n].at.via.Hit? then 1 else 0
  {
    var n := |callers| - 1;
    var init := callers[..n];
    assert forall i :: 0 <= i < n ==> init[i] == callers[i];
    assert n !in Hits(init);
    if callers[n].at.via.Hit? {
      assert Hits(callers) == Hits(init) + {n};
    } else {
      assert Hits(callers) == Hits(init);
    }
  }

  // A call that starts after an Invalidate returned answers with a value whose
  // production began after it too, found, joined or started, and which read the
  // write that was invalidated.
  lemma Fresh(steps: seq<Step>, i: nat, w: nat)
    requires Run(steps) && i < |End(steps).callers| && w < |End(steps).writes|
    requires var a, x := End(steps).callers[i], End(steps).writes[w];
             && a.at.Back? && a.at.result.Good?
             && x.tenant == a.tenant && x.dropped.Some? && x.dropped.value <= a.floor
    ensures var s, v, x := End(steps), End(steps).callers[i].at.result.val, End(steps).writes[w];
            v.call < |s.calls| && s.calls[v.call].began >= x.dropped.value && v.version >= x.number
  {
    hide Run, End, Can, Next;
    Always(steps);
    var s, a := End(steps), End(steps).callers[i];
    assert PlaceOf(s, a);
    var c := a.at.result.val.call;
    assert OutcomeOf(s, c) && BegunAt(s, s.calls[c]);
    assert Covers(s.calls[c], s.writes[w]);
  }

  // With every write invalidated before the call started, the answer is of the
  // corpus as it is now.
  lemma Current(steps: seq<Step>, i: nat)
    requires Run(steps) && i < |End(steps).callers|
    requires End(steps).callers[i].at.Back? && End(steps).callers[i].at.result.Good?
    requires forall w :: 0 <= w < |End(steps).writes| && End(steps).writes[w].tenant == End(steps).callers[i].tenant ==>
               End(steps).writes[w].dropped.Some? && End(steps).writes[w].dropped.value <= End(steps).callers[i].floor
    ensures End(steps).callers[i].at.result.val.version == Count(End(steps).commits, End(steps).callers[i].tenant)
  {
    hide Run, End, Can, Next;
    Always(steps);
    var s, a := End(steps), End(steps).callers[i];
    assert PlaceOf(s, a);
    var c := a.at.result.val.call;
    assert OutcomeOf(s, c);
    if Count(s.commits, a.tenant) > 0 {
      var w :| 0 <= w < |s.writes| && IsWrite(s.writes[w], a.tenant, Count(s.commits, a.tenant));
      Fresh(steps, i, w);
    }
  }

  // A step of caller i, or of the call it waits for: its leader counting, or the
  // call coming back, storing, being released.
  ghost predicate Helps(s: State, i: nat, step: Step)
    requires i < |s.callers|
  {
    var at := s.callers[i].at;
    || Moves(step, i)
    || ((at.Joined? || at.Leading?) && at.call < |s.calls|
        && (|| step == Tally(s.calls[at.call].leader) || (step.Compute? && step.c == at.call)
            || step == Store(at.call) || step == Release(at.call)))
  }

  lemma Onward(s: State, i: nat, c: nat) returns (step: Step)
    requires Inv(s) && i < |s.callers| && c < |s.calls|
    requires (s.callers[i].at.Joined? || s.callers[i].at.Leading?) && s.callers[i].at.counted
        && s.callers[i].at.call == c
    ensures Can(s, step) && Helps(s, i, step)
  {
    hide Flights, Entries, Placed, Numbered, Begun, Counted;
    assert OutcomeOf(s, c);
    match s.calls[c].stage
    case Running =>
      assert LedAt(s, c);
      step := if s.callers[s.calls[c].leader].at.counted then Compute(c, true) else Tally(s.calls[c].leader);
    case Returned => step := Store(c);
    case Stored => step := Release(c);
    case Released => step := Return(i);
  }

  // Nobody waits for a call nobody is producing: a caller not back yet can move,
  // or the call it waits for can.
  lemma NobodyIsStranded(steps: seq<Step>, i: nat) returns (step: Step)
    requires Run(steps) && i < |End(steps).callers| && !End(steps).callers[i].at.Back?
    ensures Can(End(steps), step) && Helps(End(steps), i, step)
  {
    hide Run, End, Next;
    Always(steps);
    var s, at := End(steps), End(steps).callers[i].at;
    assert PlaceOf(s, s.callers[i]);
    match at
    case Starting => step := ReadGen(i);
    case Keyed(_) => step := LookUp(i);
    case Holding(_, _) => step := Tally(i);
    case Joined(_, c, counted) =>
      if counted { step := Onward(s, i, c); } else { step := Tally(i); }
    case Leading(_, c, counted) =>
      if counted { step := Onward(s, i, c); } else { step := Tally(i); }
  }
}
