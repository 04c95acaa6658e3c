// audit/audit.go: a bounded queue and the one goroutine that empties it. Every
// channel operation, call into the sink and counter update is a step, and the
// steps of the writer, of any number of Writes and Syncs and of Close interleave
// in any order.
module Audit {
  // What the writer is appending for: its own loop, a Sync it has received, or
  // the last drain before it leaves.
  datatype Why = Loop | ForSync(s: nat) | ForClose

  // At the select; with a record in hand; after Append and before the counter;
  // before looking at len(queue); draining; before Flush; before the reply;
  // before the sink is closed; gone.
  datatype Writer<R> =
    | Select
    | Holding(rec: R, why: Why)
    | Counting(ok: bool, why: Why)
    | Looking
    | Draining(why: Why)
    | Flushing(why: Why)
    | Replying(s: nat, ok: bool)
    | Closing(ok: bool)
    | Gone(ok: bool)

  // A Write waits in its select until its record is the n-th the queue accepted,
  // or until it sees the log is closed; then it returns.
  datatype WriteState = Waiting | Queued(n: nat) | Returned(n: nat) | Refused
  datatype Write<R> = Write(rec: R, state: WriteState)

  // `before` is which Writes had returned when the call was made, `mark` how many
  // records had been accepted.
  datatype SyncState = Asking | Taken | Replied(ok: bool) | TurnedAway
  datatype Sync = Sync(before: set<nat>, mark: nat, state: SyncState)

  datatype Close = Open | Called(before: set<nat>, mark: nat) | Done(before: set<nat>, mark: nat, ok: bool)

  // What the sink was given, and whether it took it.
  datatype Entry<R> = Entry(rec: R, ok: bool)

  // `tried` is how much of the sink there was at the last Flush, `safe` at the
  // last that succeeded.
  datatype State<R> = State(
    cap: nat, accepted: seq<R>, queue: seq<R>, sink: seq<Entry<R>>, tried: nat, safe: nat,
    written: nat, failed: nat, at: Writer<R>, writes: seq<Write<R>>, syncs: seq<Sync>, close: Close)

  function Start<R>(cap: nat): State<R> {
    State(cap, [], [], [], 0, 0, 0, 0, Select, [], [], Open)
  }

  datatype Step<R> =
    | CallWrite(rec: R)
    | Enqueue(w: nat)
    | Refuse(w: nat)
    | ReturnWrite(w: nat)
    | CallSync
    | TurnAway(s: nat)
    | CallClose
    | ReturnClose
    | Receive
    | Serve(s: nat)
    | Leave
    | Append(ok: bool)
    | Count
    | Look
    | Drain
    | Flush(ok: bool)
    | Reply
    | CloseSink(ok: bool)

  predicate Can<R>(s: State<R>, step: Step<R>) {
    match step
    case CallWrite(_) => true
    case Enqueue(w) => w < |s.writes| && s.writes[w].state.Waiting? && |s.queue| < s.cap
    case Refuse(w) => w < |s.writes| && s.writes[w].state.Waiting? && !s.close.Open?
    case ReturnWrite(w) => w < |s.writes| && s.writes[w].state.Queued?
    case CallSync => true
    case TurnAway(n) => n < |s.syncs| && s.syncs[n].state.Asking? && !s.close.Open?
    case CallClose => s.close.Open?
    case ReturnClose => s.close.Called? && s.at.Gone?
    case Receive => s.at.Select? && s.queue != []
    case Serve(n) => s.at.Select? && n < |s.syncs| && s.syncs[n].state.Asking?
    case Leave => s.at.Select? && !s.close.Open?
    case Append(_) => s.at.Holding?
    case Count => s.at.Counting?
    case Look => s.at.Looking?
    case Drain => s.at.Draining?
    case Flush(_) => s.at.Flushing?
    case Reply => s.at.Replying? && s.at.s < |s.syncs|
    case CloseSink(_) => s.at.Closing?
  }

  function Back<R>(s: State<R>): set<nat> {
    set w | 0 <= w < |s.writes| && s.writes[w].state.Returned?
  }

  function SetWrite<R>(s: State<R>, w: nat, state: WriteState): State<R>
    requires w < |s.writes|
  {
    s.(writes := s.writes[w := s.writes[w].(state := state)])
  }

  function SetSync<R>(s: State<R>, n: nat, state: SyncState): State<R>
    requires n < |s.syncs|
  {
    s.(syncs := s.syncs[n := s.syncs[n].(state := state)])
  }

  function Taking<R>(s: State<R>, why: Why): State<R>
    requires s.queue != []
  {
    s.(queue := s.queue[1..], at := Holding(s.queue[0], why))
  }

  function Next<R>(s: State<R>, step: Step<R>): State<R>
    requires Can(s, step)
  {
    match step
    case CallWrite(rec) => s.(writes := s.writes + [Write(rec, Waiting)])
    case Enqueue(w) =>
      SetWrite(s, w, Queued(|s.accepted|)).(accepted := s.accepted + [s.writes[w].rec],
                                            queue := s.queue + [s.writes[w].rec])
    case Refuse(w) => SetWrite(s, w, Refused)
    case ReturnWrite(w) => SetWrite(s, w, Returned(s.writes[w].state.n))
    case CallSync => s.(syncs := s.syncs + [Sync(Back(s), |s.accepted|, Asking)])
    case TurnAway(n) => SetSync(s, n, TurnedAway)
    case CallClose => s.(close := Called(Back(s), |s.accepted|))
    case ReturnClose => s.(close := Done(s.close.before, s.close.mark, s.at.ok))
    case Receive => Taking(s, Loop)
    case Serve(n) => SetSync(s, n, Taken).(at := Draining(ForSync(n)))
    case Leave => s.(at := Draining(ForClose))
    case Append(ok) => s.(sink := s.sink + [Entry(s.at.rec, ok)], at := Counting(ok, s.at.why))
    case Count =>
      var at := if s.at.why.Loop? then Looking else Draining(s.at.why);
      if s.at.ok then s.(written := s.written + 1, at := at) else s.(failed := s.failed + 1, at := at)
    case Look => s.(at := if s.queue == [] then Flushing(Loop) else Select)
    case Drain => if s.queue != [] then Taking(s, s.at.why) else s.(at := Flushing(s.at.why))
    case Flush(ok) =>
      var at := match s.at.why case Loop => Select case ForSync(n) => Replying(n, ok) case ForClose => Closing(ok);
      s.(tried := |s.sink|, safe := if ok then |s.sink| else s.safe, at := at)
    case Reply => SetSync(s, s.at.s, Replied(s.at.ok)).(at := Select)
    case CloseSink(ok) => s.(at := Gone(s.at.ok && ok))
  }

  // ---- What every step keeps.

  function Hand<R>(s: State<R>): seq<R> {
    if s.at.Holding? then [s.at.rec] else []
  }

  function Recs<R>(sink: seq<Entry<R>>): seq<R> {
    seq(|sink|, i requires 0 <= i < |sink| => sink[i].rec)
  }

  // The sink has seen, and is about to see, what the queue accepted, in order.
  ghost predicate InOrder<R>(s: State<R>) {
    s.accepted == Recs(s.sink) + Hand(s) + s.queue && |s.queue| <= s.cap
  }

  function Tally<R>(sink: seq<Entry<R>>, ok: bool): nat {
    if sink == [] then 0 else Tally(sink[..|sink| - 1], ok) + if sink[|sink| - 1].ok == ok then 1 else 0
  }

  // Every record the sink was given is counted once, but for the one being counted.
  ghost predicate Counted<R>(s: State<R>) {
    && (s.at.Counting? ==> s.sink != [] && s.sink[|s.sink| - 1].ok == s.at.ok)
    && Tally(s.sink, true) == s.written + (if s.at.Counting? && s.at.ok then 1 else 0)
    && Tally(s.sink, false) == s.failed + (if s.at.Counting? && !s.at.ok then 1 else 0)
  }

  predicate Serves(at: Writer, n: nat) {
    match at
    case Holding(_, why) => why == ForSync(n)
    case Counting(_, why) => why == ForSync(n)
    case Draining(why) => why == ForSync(n)
    case Flushing(why) => why == ForSync(n)
    case Replying(m, _) => m == n
    case _ => false
  }

  predicate Leaving(at: Writer) {
    match at
    case Holding(_, why) => why.ForClose?
    case Counting(_, why) => why.ForClose?
    case Draining(why) => why.ForClose?
    case Flushing(why) => why.ForClose?
    case Closing(_) => true
    case Gone(_) => true
    case _ => false
  }

  // Records that were not flushed are left at the select only while more are
  // queued.
  ghost predicate Flushed<R>(s: State<R>) {
    && s.safe <= s.tried <= |s.sink|
    && (s.at.Select? ==> s.tried == |s.sink| || s.queue != [])
    && (s.at.Replying? ==> s.tried == |s.sink|)
  }

  // Where each Sync stands, and what had been flushed when it was answered.
  ghost predicate Synced<R>(s: State<R>) {
    && (forall n: nat :: Serves(s.at, n) ==> n < |s.syncs|)
    && (forall n :: 0 <= n < |s.syncs| ==> SyncOf(s, n))
  }

  ghost predicate SyncOf<R>(s: State<R>, n: nat)
    requires n < |s.syncs|
  {
    var y := s.syncs[n];
    && y.mark <= |s.accepted|
    && (y.state.Taken? <==> Serves(s.at, n))
    && (s.at == Flushing(ForSync(n)) ==> y.mark <= |s.sink|)
    && (s.at.Replying? && s.at.s == n ==> y.mark <= s.tried && (s.at.ok ==> y.mark <= s.safe))
    && (y.state.Replied? ==> y.mark <= s.tried && (y.state.ok ==> y.mark <= s.safe))
  }

  ghost predicate CloseOf<R>(s: State<R>) {
    && (Leaving(s.at) ==> !s.close.Open?)
    && (s.close.Done? ==> s.at.Gone? && s.close.ok == s.at.ok)
    && (!s.close.Open? ==>
          && s.close.mark <= |s.accepted|
          && (s.at == Flushing(ForClose) ==> s.close.mark <= |s.sink|)
          && (s.at.Closing? || s.at.Gone? ==> s.close.mark <= s.tried && (s.at.ok ==> s.close.mark <= s.safe)))
  }

  // A Write that returned has its record in its place, and one that returned
  // before a call is under that call's mark.
  ghost predicate Placed<R>(s: State<R>) {
    && (forall w :: 0 <= w < |s.writes| ==> WriteOf(s, s.writes[w]))
    && (forall n :: 0 <= n < |s.syncs| ==> Under(s, s.syncs[n].before, s.syncs[n].mark))
    && (!s.close.Open? ==> Under(s, s.close.before, s.close.mark))
  }

  ghost predicate WriteOf<R>(s: State<R>, w: Write<R>) {
    w.state.Queued? || w.state.Returned? ==> w.state.n < |s.accepted| && s.accepted[w.state.n] == w.rec
  }

  ghost predicate Under<R>(s: State<R>, before: set<nat>, mark: nat) {
    forall w :: w in before ==> w < |s.writes| && s.writes[w].state.Returned? && s.writes[w].state.n < mark
  }

  predicate Accepted<R>(w: Write<R>) {
    w.state.Queued? || w.state.Returned?
  }

  // No two Writes share a place in the queue.
  ghost predicate Apart<R>(s: State<R>) {
    && (forall w :: 0 <= w < |s.writes| && Accepted(s.writes[w]) ==> s.writes[w].state.n < |s.accepted|)
    && (forall v, w :: 0 <= v < w < |s.writes| && Accepted(s.writes[v]) && Accepted(s.writes[w]) ==>
          s.writes[v].state.n != s.writes[w].state.n)
  }

  ghost predicate Inv<R>(s: State<R>) {
    InOrder(s) && Counted(s) && Flushed(s) && Synced(s) && CloseOf(s) && Placed(s) && Apart(s)
  }

  lemma InOrderKept<R>(s: State<R>, step: Step<R>)
    requires Can(s, step) && InOrder(s)
    ensures InOrder(Next(s, step))
  {
  }

  lemma CountedKept<R>(s: State<R>, step: Step<R>)
    requires Can(s, step) && Counted(s)
    ensures Counted(Next(s, step))
  {
    hide Tally;
    if step.Append? {
      TallyAppend(s.sink, Entry(s.at.rec, step.ok), true);
      TallyAppend(s.sink, Entry(s.at.rec, step.ok), false);
    }
  }

  lemma TallyAppend<R>(sink: seq<Entry<R>>, e: Entry<R>, ok: bool)
    ensures Tally(sink + [e], ok) == Tally(sink, ok) + if e.ok == ok then 1 else 0
  {
    assert (sink + [e])[..|sink|] == sink;
  }

  lemma FlushedKept<R>(s: State<R>, step: Step<R>)
    requires Can(s, step) && Flushed(s)
    ensures Flushed(Next(s, step))
  {
  }

  lemma CloseKept<R>(s: State<R>, step: Step<R>)
    requires Can(s, step) && InOrder(s) && Flushed(s) && CloseOf(s)
    ensures CloseOf(Next(s, step))
  {
    hide InOrder, Recs;
    Lengths(s);
  }

  lemma Lengths<R>(s: State<R>)
    requires InOrder(s)
    ensures |s.accepted| == |s.sink| + |Hand(s)| + |s.queue|
  {
  }

  lemma SyncedKept<R>(s: State<R>, step: Step<R>)
    requires Can(s, step) && InOrder(s) && Flushed(s) && Synced(s)
    ensures Synced(Next(s, step))
  {
    hide Next, Can, InOrder, Flushed, SyncOf, Serves;
    SyncsGrow(s, step);
    forall n: nat | Serves(Next(s, step).at, n) ensures n < |Next(s, step).syncs| { ServesKnown(s, step, n); }
    forall n | 0 <= n < |Next(s, step).syncs| ensures SyncOf(Next(s, step), n) {
      if n < |s.syncs| {
        SyncKept(s, step, n);
      } else {
        SyncNew(s, step, n);
      }
    }
  }

  lemma SyncsGrow<R>(s: State<R>, step: Step<R>)
    requires Can(s, step)
    ensures |s.syncs| <= |Next(s, step).syncs|
  {
  }

  lemma ServesKnown<R>(s: State<R>, step: Step<R>, n: nat)
    requires Can(s, step) && Serves(Next(s, step).at, n)
    requires forall m: nat :: Serves(s.at, m) ==> m < |s.syncs|
    ensures n < |Next(s, step).syncs|
  {
    assert step != Serve(n) ==> Serves(s.at, n);
  }

  lemma SyncKept<R>(s: State<R>, step: Step<R>, n: nat)
    requires Can(s, step) && InOrder(s) && Flushed(s) && n < |s.syncs| && SyncOf(s, n)
    ensures n < |Next(s, step).syncs| && SyncOf(Next(s, step), n)
  {
    hide InOrder, Recs;
    Lengths(s);
  }

  lemma SyncNew<R>(s: State<R>, step: Step<R>, n: nat)
    requires Can(s, step) && |s.syncs| <= n < |Next(s, step).syncs|
    requires forall m: nat :: Serves(s.at, m) ==> m < |s.syncs|
    ensures SyncOf(Next(s, step), n)
  {
    assert step.CallSync? && Next(s, step).at == s.at;
  }

  lemma PlacedKept<R>(s: State<R>, step: Step<R>)
    requires Can(s, step) && Placed(s)
    ensures Placed(Next(s, step))
  {
    hide Next, Can, WriteOf, Under;
    WritesKept(s, step);
    forall n | 0 <= n < |Next(s, step).syncs|
      ensures Under(Next(s, step), Next(s, step).syncs[n].before, Next(s, step).syncs[n].mark)
    {
      UnderSync(s, step, n);
    }
    UnderClose(s, step);
  }

  lemma WritesKept<R>(s: State<R>, step: Step<R>)
    requires Can(s, step) && forall w :: 0 <= w < |s.writes| ==> WriteOf(s, s.writes[w])
    ensures forall w :: 0 <= w < |Next(s, step).writes| ==> WriteOf(Next(s, step), Next(s, step).writes[w])
  {
  }

  // A Write that has returned stays as it is.
  lemma UnderKept<R>(s: State<R>, step: Step<R>, before: set<nat>, mark: nat)
    requires Can(s, step) && Under(s, before, mark)
    ensures Under(Next(s, step), before, mark)
  {
  }

  // At a call, everything that has returned is under the mark.
  lemma UnderNow<R>(s: State<R>)
    requires Placed(s)
    ensures Under(s, Back(s), |s.accepted|)
  {
    forall w | w in Back(s) ensures s.writes[w].state.n < |s.accepted| { assert WriteOf(s, s.writes[w]); }
  }

  lemma UnderSync<R>(s: State<R>, step: Step<R>, n: nat)
    requires Can(s, step) && Placed(s) && n < |Next(s, step).syncs|
    ensures Under(Next(s, step), Next(s, step).syncs[n].before, Next(s, step).syncs[n].mark)
  {
    hide Under, WriteOf, Back;
    if n < |s.syncs| {
      assert Next(s, step).syncs[n].before == s.syncs[n].before && Next(s, step).syncs[n].mark == s.syncs[n].mark;
      UnderKept(s, step, s.syncs[n].before, s.syncs[n].mark);
    } else {
      UnderNow(s);
      UnderKept(s, step, Back(s), |s.accepted|);
    }
  }

  lemma UnderClose<R>(s: State<R>, step: Step<R>)
    requires Can(s, step) && Placed(s)
    ensures var c := Next(s, step).close; !c.Open? ==> Under(Next(s, step), c.before, c.mark)
  {
    hide Under, WriteOf, Back;
    if !s.close.Open? {
      UnderKept(s, step, s.close.before, s.close.mark);
    } else if step.CallClose? {
      UnderNow(s);
      UnderKept(s, step, Back(s), |s.accepted|);
    }
  }

  lemma ApartKept<R>(s: State<R>, step: Step<R>)
    requires Can(s, step) && Apart(s)
    ensures Apart(Next(s, step))
  {
  }

  lemma InvKept<R>(s: State<R>, step: Step<R>)
    requires Can(s, step) && Inv(s)
    ensures Inv(Next(s, step))
  {
    hide Can, Next, InOrder, Counted, Flushed, Synced, CloseOf, Placed, Apart;
    InOrderKept(s, step);
    CountedKept(s, step);
    FlushedKept(s, step);
    SyncedKept(s, step);
    CloseKept(s, step);
    PlacedKept(s, step);
    ApartKept(s, step);
  }

  // ---- Whole runs, in any order.

  predicate Run<R>(cap: nat, steps: seq<Step<R>>)
    decreases |steps|, 0
  {
    steps == [] || (Run(cap, steps[..|steps| - 1]) && Can(End(cap, steps[..|steps| - 1]), steps[|steps| - 1]))
  }

  function End<R>(cap: nat, steps: seq<Step<R>>): State<R>
    requires Run(cap, steps)
    decreases |steps|, 1
  {
    if steps == [] then Start(cap) else Next(End(cap, steps[..|steps| - 1]), steps[|steps| - 1])
  }

  lemma {:induction false} Always<R>(cap: nat, steps: seq<Step<R>>)
    requires Run(cap, steps)
    ensures Inv(End(cap, steps)) && End(cap, steps).cap == cap
  {
    hide Can, Next, Inv;
    if steps == [] {
      StartInv<R>(cap);
    } else {
      Always(cap, steps[..|steps| - 1]);
      InvKept(End(cap, steps[..|steps| - 1]), steps[|steps| - 1]);
      SameCap(End(cap, steps[..|steps| - 1]), steps[|steps| - 1]);
    }
  }

  lemma StartInv<R>(cap: nat)
    ensures Inv(Start<R>(cap)) && Start<R>(cap).cap == cap
  {
  }

  lemma SameCap<R>(s: State<R>, step: Step<R>)
    requires Can(s, step)
    ensures Next(s, step).cap == s.cap
  {
  }

  lemma {:induction false} TallyAll<R>(sink: seq<Entry<R>>)
    ensures Tally(sink, true) + Tally(sink, false) == |sink|
  {
    if sink != [] { TallyAll(sink[..|sink| - 1]); }
  }

  // The sink is given what the queue accepted, in that order, and every record
  // accepted is written, failed, waiting or in the writer's hand.
  lemma Conserved<R>(cap: nat, steps: seq<Step<R>>)
    requires Run(cap, steps)
    ensures var s := End(cap, steps);
            && Recs(s.sink) <= s.accepted && |s.queue| <= cap
            && |s.accepted| == s.written + s.failed + |s.queue| + (if s.at.Holding? || s.at.Counting? then 1 else 0)
  {
    hide Run, End, Can, Next, Tally;
    Always(cap, steps);
    TallyAll(End(cap, steps).sink);
  }

  // Only a log that is being closed turns anybody away.
  lemma {:induction false} RefusedIsClosed<R>(cap: nat, steps: seq<Step<R>>)
    requires Run(cap, steps)
    ensures var s := End(cap, steps);
            s.close.Open? ==>
              && (forall w :: 0 <= w < |s.writes| ==> !s.writes[w].state.Refused?)
              && (forall n :: 0 <= n < |s.syncs| ==> !s.syncs[n].state.TurnedAway?)
              && !Leaving(s.at)
  {
    hide Run, End;
    if steps == [] {
      NothingYet<R>(cap);
    } else {
      LastStep(cap, steps);
      RefusedIsClosed(cap, steps[..|steps| - 1]);
    }
  }

  // A Write that returned without being refused has its record in the queue's
  // order, and in nobody else's place.
  lemma ReturnedIsAccepted<R>(cap: nat, steps: seq<Step<R>>, v: nat)
    requires Run(cap, steps) && v < |End(cap, steps).writes| && End(cap, steps).writes[v].state.Returned?
    ensures var s := End(cap, steps);
            var m := s.writes[v].state.n;
            && m < |s.accepted| && s.accepted[m] == s.writes[v].rec
            && (forall w :: 0 <= w < |s.writes| && w != v && s.writes[w].state.Returned? ==> s.writes[w].state.n != m)
  {
    hide Run, End, Can, Next, InOrder, Counted, Flushed, Synced, CloseOf;
    Always(cap, steps);
    assert WriteOf(End(cap, steps), End(cap, steps).writes[v]);
  }

  // ---- What an answer means, over the steps themselves.

  // The place of the last Flush, or -1.
  function LastFlush<R>(steps: seq<Step<R>>): (f: int)
    ensures -1 <= f < |steps| && (f >= 0 ==> steps[f].Flush?)
    ensures forall i :: f < i < |steps| ==> !steps[i].Flush?
  {
    if steps == [] then -1
    else if steps[|steps| - 1].Flush? then |steps| - 1
    else LastFlush(steps[..|steps| - 1])
  }

  lemma RunUpTo<R>(cap: nat, steps: seq<Step<R>>, i: nat)
    requires Run(cap, steps) && i <= |steps|
    ensures Run(cap, steps[..i])
    decreases |steps|
  {
    hide Can;
    if i < |steps| {
      RunUpTo(cap, steps[..|steps| - 1], i);
      assert steps[..|steps| - 1][..i] == steps[..i];
    } else {
      assert steps[..i] == steps;
    }
  }

  // Step i takes the state before it to the state after it.
  lemma StepAt<R>(cap: nat, steps: seq<Step<R>>, i: nat)
    requires Run(cap, steps) && i < |steps|
    ensures Run(cap, steps[..i]) && Run(cap, steps[..i + 1])
    ensures Can(End(cap, steps[..i]), steps[i]) && End(cap, steps[..i + 1]) == Next(End(cap, steps[..i]), steps[i])
  {
    hide Can, Next;
    RunUpTo(cap, steps, i);
    RunUpTo(cap, steps, i + 1);
    assert steps[..i + 1][..i] == steps[..i];
  }

  // An answer on its way is that of the last Flush, which was made for it.
  ghost predicate LatestFlush<R>(cap: nat, steps: seq<Step<R>>, why: Why, ok: bool) {
    var f := LastFlush(steps);
    && f >= 0 && steps[f] == Flush(ok) && Run(cap, steps[..f]) && End(cap, steps[..f]).at == Flushing(why)
  }

  // The sink was closed once, last of all.
  ghost predicate Closed<R>(cap: nat, steps: seq<Step<R>>, ok: bool) {
    exists c, fo, co :: ClosedAt(cap, steps, c, fo, co) && (ok <==> fo && co)
  }

  ghost predicate ClosedAt<R>(cap: nat, steps: seq<Step<R>>, c: nat, fo: bool, co: bool) {
    && c < |steps| && steps[c] == CloseSink(co) && LatestFlush(cap, steps[..c], ForClose, fo)
    && forall i :: c < i < |steps| ==> !steps[i].Flush? && !steps[i].CloseSink?
  }

  ghost predicate Told<R>(cap: nat, steps: seq<Step<R>>)
    requires Run(cap, steps)
  {
    var at := End(cap, steps).at;
    && (at.Replying? ==> LatestFlush(cap, steps, ForSync(at.s), at.ok))
    && (at.Closing? ==> LatestFlush(cap, steps, ForClose, at.ok))
    && (at.Gone? ==> Closed(cap, steps, at.ok))
  }

  lemma LastFlushMore<R>(steps: seq<Step<R>>)
    requires steps != []
    ensures var init, step := steps[..|steps| - 1], steps[|steps| - 1];
            LastFlush(steps) == if step.Flush? then |steps| - 1 else LastFlush(init)
  {
  }

  lemma LatestKept<R>(cap: nat, steps: seq<Step<R>>, why: Why, ok: bool)
    requires steps != [] && Run(cap, steps) && !steps[|steps| - 1].Flush?
    requires LatestFlush(cap, steps[..|steps| - 1], why, ok)
    ensures LatestFlush(cap, steps, why, ok)
  {
    hide LastFlush, Run, End, Can, Next;
    var init, step := steps[..|steps| - 1], steps[|steps| - 1];
    LastFlushMore(steps);
    assert steps[..LastFlush(steps)] == init[..LastFlush(steps)];
  }

  lemma LastStep<R>(cap: nat, steps: seq<Step<R>>)
    requires steps != [] && Run(cap, steps)
    ensures var init, step := steps[..|steps| - 1], steps[|steps| - 1];
            Run(cap, init) && Can(End(cap, init), step) && End(cap, steps) == Next(End(cap, init), step)
  {
    hide Can, Next;
  }

  lemma LatestNow<R>(cap: nat, steps: seq<Step<R>>, why: Why, ok: bool)
    requires steps != [] && Run(cap, steps) && steps[|steps| - 1] == Flush(ok)
    requires Run(cap, steps[..|steps| - 1]) && End(cap, steps[..|steps| - 1]).at == Flushing(why)
    ensures LatestFlush(cap, steps, why, ok)
  {
    hide LastFlush, Run, End, Can, Next;
    LastFlushMore(steps);
  }

  // Where a step leaves the writer, as far as answers go.
  lemma AnswerStep<R>(s: State<R>, step: Step<R>)
    requires Can(s, step)
    ensures var at := Next(s, step).at;
            && (at.Replying? ==>
                  || (at == s.at && !step.Flush?)
                  || (step == Flush(at.ok) && s.at == Flushing(ForSync(at.s))))
            && (at.Closing? ==>
                  || (at == s.at && !step.Flush?)
                  || (step == Flush(at.ok) && s.at == Flushing(ForClose)))
            && (at.Gone? ==>
                  || (at == s.at && !step.Flush? && !step.CloseSink?)
                  || (step.CloseSink? && s.at.Closing? && (at.ok <==> s.at.ok && step.ok)))
  {
  }

  lemma ClosedKept<R>(cap: nat, steps: seq<Step<R>>, ok: bool)
    requires steps != [] && !steps[|steps| - 1].Flush? && !steps[|steps| - 1].CloseSink?
    requires Closed(cap, steps[..|steps| - 1], ok)
    ensures Closed(cap, steps, ok)
  {
    hide LatestFlush;
    var init := steps[..|steps| - 1];
    var c: nat, fo, co :| ClosedAt(cap, init, c, fo, co) && (ok <==> fo && co);
    assert init[..c] == steps[..c];
    assert ClosedAt(cap, steps, c, fo, co);
  }

  lemma ClosedNow<R>(cap: nat, steps: seq<Step<R>>, fo: bool, co: bool)
    requires steps != [] && steps[|steps| - 1] == CloseSink(co) && LatestFlush(cap, steps[..|steps| - 1], ForClose, fo)
    ensures Closed(cap, steps, fo && co)
  {
    hide LatestFlush;
    assert ClosedAt(cap, steps, |steps| - 1, fo, co);
  }

  lemma {:induction false} ToldAlways<R>(cap: nat, steps: seq<Step<R>>)
    requires Run(cap, steps)
    ensures Told(cap, steps)
  {
    hide Run, End, Can, Next, LastFlush, LatestFlush, Closed;
    if steps == [] {
      StartsAtSelect<R>(cap);
    } else {
      var init, step := steps[..|steps| - 1], steps[|steps| - 1];
      LastStep(cap, steps);
      ToldAlways(cap, init);
      AnswerStep(End(cap, init), step);
      var was, at := End(cap, init).at, End(cap, steps).at;
      if at.Replying? {
        if at == was {
          LatestKept(cap, steps, ForSync(at.s), at.ok);
        } else {
          LatestNow(cap, steps, ForSync(at.s), at.ok);
        }
      } else if at.Closing? {
        if at == was { LatestKept(cap, steps, ForClose, at.ok); } else { LatestNow(cap, steps, ForClose, at.ok); }
      } else if at.Gone? {
        if at == was { ClosedKept(cap, steps, at.ok); } else { ClosedNow(cap, steps, was.ok, step.ok); }
      }
    }
  }

  lemma StartsAtSelect<R>(cap: nat)
    ensures Run<R>(cap, []) && End<R>(cap, []).at == Select
  {
  }

  // How often the sink took a record, or refused one.
  function Appends<R>(steps: seq<Step<R>>, ok: bool): nat {
    if steps == [] then 0
    else Appends(steps[..|steps| - 1], ok) + if steps[|steps| - 1] == Append(ok) then 1 else 0
  }

  // The counters tell how often each happened, but for the one being counted.
  lemma {:induction false} CountersTell<R>(cap: nat, steps: seq<Step<R>>)
    requires Run(cap, steps)
    ensures var s := End(cap, steps);
            && Appends(steps, true) == s.written + (if s.at.Counting? && s.at.ok then 1 else 0)
            && Appends(steps, false) == s.failed + (if s.at.Counting? && !s.at.ok then 1 else 0)
  {
    hide Run, End, Can, Next;
    if steps == [] {
      NothingYet<R>(cap);
    } else {
      LastStep(cap, steps);
      CountersTell(cap, steps[..|steps| - 1]);
      CountersStep(End(cap, steps[..|steps| - 1]), steps[|steps| - 1]);
    }
  }

  lemma CountersStep<R>(s: State<R>, step: Step<R>)
    requires Can(s, step)
    ensures var t := Next(s, step);
            && t.written + (if t.at.Counting? && t.at.ok then 1 else 0) ==
               s.written + (if s.at.Counting? && s.at.ok then 1 else 0) + (if step == Append(true) then 1 else 0)
            && t.failed + (if t.at.Counting? && !t.at.ok then 1 else 0) ==
               s.failed + (if s.at.Counting? && !s.at.ok then 1 else 0) + (if step == Append(false) then 1 else 0)
  {
  }

  // As long as `tried` is the whole sink, nothing was appended since the last Flush.
  lemma {:induction false} TriedMeans<R>(cap: nat, steps: seq<Step<R>>)
    requires Run(cap, steps)
    ensures End(cap, steps).tried == |End(cap, steps).sink| ==>
              forall i :: LastFlush(steps) < i < |steps| ==> !steps[i].Append?
  {
    hide Run, End, LastFlush, Can, Next, Inv;
    if steps != [] {
      var init, step := steps[..|steps| - 1], steps[|steps| - 1];
      LastStep(cap, steps);
      TriedMeans(cap, init);
      LastFlushMore(steps);
      Always(cap, init);
      TriedStep(End(cap, init), step);
    }
  }

  lemma TriedStep<R>(s: State<R>, step: Step<R>)
    requires Can(s, step) && Inv(s)
    ensures step.Append? ==> Next(s, step).tried < |Next(s, step).sink|
    ensures !step.Append? && !step.Flush? ==> Next(s, step).tried == s.tried && Next(s, step).sink == s.sink
  {
    hide InOrder, Counted, Synced, CloseOf, Placed, Apart;
  }

  // At the select of a quiet log everything accepted has been given to the sink, and
  // a Flush has come after every Append.
  lemma QuietIsFlushed<R>(cap: nat, steps: seq<Step<R>>, i: nat) returns (f: nat)
    requires Run(cap, steps) && End(cap, steps).at.Select? && End(cap, steps).queue == []
    ensures |End(cap, steps).sink| == |End(cap, steps).accepted|
    ensures i < |steps| && steps[i].Append? ==> i < f < |steps| && steps[f].Flush?
  {
    hide Run, End, Can, Next, Synced, CloseOf, Counted, Placed, Apart, LastFlush;
    Always(cap, steps);
    TriedMeans(cap, steps);
    f := if LastFlush(steps) < 0 then 0 else LastFlush(steps);
  }

  // ---- What stays as it was from one moment of a run to a later one.

  ghost predicate Later<R>(s: State<R>, t: State<R>) {
    && |s.writes| <= |t.writes| && |s.syncs| <= |t.syncs|
    && (forall w :: 0 <= w < |s.writes| ==> t.writes[w].rec == s.writes[w].rec)
    && (forall w :: 0 <= w < |s.writes| && s.writes[w].state.Returned? ==> t.writes[w] == s.writes[w])
    && (forall n :: 0 <= n < |s.syncs| ==> t.syncs[n].before == s.syncs[n].before)
    && (!s.close.Open? ==> !t.close.Open? && t.close.before == s.close.before)
  }

  lemma StepLater<R>(s: State<R>, step: Step<R>)
    requires Can(s, step)
    ensures Later(s, Next(s, step))
  {
  }

  lemma LaterTwice<R>(s: State<R>, t: State<R>, u: State<R>)
    requires Later(s, t) && Later(t, u)
    ensures Later(s, u)
  {
  }

  lemma {:induction false} LaterOn<R>(cap: nat, steps: seq<Step<R>>, i: nat, j: nat)
    requires Run(cap, steps) && i <= j <= |steps|
    ensures Run(cap, steps[..i]) && Run(cap, steps[..j]) && Later(End(cap, steps[..i]), End(cap, steps[..j]))
    decreases j
  {
    hide Run, End, Can, Next, Later;
    RunUpTo(cap, steps, i);
    RunUpTo(cap, steps, j);
    if i < j {
      LaterOn(cap, steps, i, j - 1);
      StepAt(cap, steps, j - 1);
      StepLater(End(cap, steps[..j - 1]), steps[j - 1]);
      LaterTwice(End(cap, steps[..i]), End(cap, steps[..j - 1]), End(cap, steps[..j]));
    } else {
      LaterSelf(End(cap, steps[..i]));
    }
  }

  lemma LaterSelf<R>(s: State<R>)
    ensures Later(s, s)
  {
  }

  // A Sync is answered by one Reply, with what the writer had in hand for it.
  lemma ReplyStep<R>(s: State<R>, step: Step<R>, n: nat)
    requires Can(s, step) && n < |Next(s, step).syncs| && Next(s, step).syncs[n].state.Replied?
    ensures
      || (n < |s.syncs| && s.syncs[n].state == Next(s, step).syncs[n].state)
      || (step == Reply && s.at == Replying(n, Next(s, step).syncs[n].state.ok))
  {
  }

  lemma {:induction false} SyncReply<R>(cap: nat, steps: seq<Step<R>>, n: nat) returns (r: nat)
    requires Run(cap, steps) && n < |End(cap, steps).syncs| && End(cap, steps).syncs[n].state.Replied?
    ensures r < |steps| && steps[r] == Reply && Run(cap, steps[..r])
    ensures End(cap, steps[..r]).at == Replying(n, End(cap, steps).syncs[n].state.ok)
    decreases |steps|
  {
    hide Run, End, Can, Next;
    if steps == [] {
      NothingYet<R>(cap);
    } else {
      var init, step := steps[..|steps| - 1], steps[|steps| - 1];
      LastStep(cap, steps);
      ReplyStep(End(cap, init), step, n);
      if step == Reply && End(cap, init).at == Replying(n, End(cap, steps).syncs[n].state.ok) {
        r := |steps| - 1;
      } else {
        r := SyncReply(cap, init, n);
        assert init[..r] == steps[..r];
      }
    }
  }

  lemma NothingYet<R>(cap: nat)
    ensures Run<R>(cap, []) && End<R>(cap, []) == Start(cap)
  {
  }

  lemma ToldSync<R>(cap: nat, steps: seq<Step<R>>) returns (f: nat)
    requires Run(cap, steps) && End(cap, steps).at.Replying?
    ensures var at := End(cap, steps).at;
            && f < |steps| && steps[f] == Flush(at.ok) && (forall i :: f < i < |steps| ==> !steps[i].Flush?)
            && Run(cap, steps[..f]) && End(cap, steps[..f]).at == Flushing(ForSync(at.s))
  {
    hide Run, End;
    ToldAlways(cap, steps);
    f := LastFlush(steps);
  }

  lemma Served<R>(s: State<R>, n: nat)
    requires Inv(s) && s.at == Flushing(ForSync(n))
    ensures n < |s.syncs| && s.syncs[n].mark <= |s.sink|
  {
    hide InOrder, Counted, Flushed, CloseOf, Placed, Apart;
    assert Serves(s.at, n);
    assert SyncOf(s, n);
  }

  lemma NoFewer<R>(s: State<R>, t: State<R>)
    requires Later(s, t)
    ensures |s.syncs| <= |t.syncs| && (t.close.Open? ==> s.close.Open?)
  {
  }

  lemma SyncCalled<R>(cap: nat, steps: seq<Step<R>>, k: nat)
    requires Run(cap, steps) && k < |steps| && steps[k] == CallSync
    ensures Run(cap, steps[..k]) && Run(cap, steps[..k + 1])
    ensures var s, t := End(cap, steps[..k]), End(cap, steps[..k + 1]);
            && |t.syncs| == |s.syncs| + 1
            && forall w: nat :: w in t.syncs[|s.syncs|].before <==> w < |s.writes| && s.writes[w].state.Returned?
  {
    hide Run, End;
    StepAt(cap, steps, k);
  }

  // What was under the mark of a call is in the sink once the mark is.
  lemma UnderIsIn<R>(s: State<R>, u: State<R>, before: set<nat>, mark: nat, w: nat)
    requires Inv(u) && Later(s, u) && Under(u, before, mark) && mark <= |u.sink|
    requires w in before && w < |s.writes| && s.writes[w].state.Returned?
    ensures InSink(u, s.writes[w])
  {
    hide Counted, Flushed, Synced, CloseOf, Apart;
    assert WriteOf(u, u.writes[w]);
    SinkAt(u, s.writes[w].state.n);
  }

  lemma SyncBefore<R>(s: State<R>, t: State<R>, u: State<R>, n: nat, w: nat)
    requires n < |t.syncs| && w in t.syncs[n].before && w < |s.writes| && s.writes[w].state.Returned?
    requires Later(s, u) && Later(t, u) && Inv(u) && u.at == Flushing(ForSync(n))
    ensures InSink(u, s.writes[w])
  {
    hide InOrder, Counted, Flushed, Synced, CloseOf, Apart, InSink;
    Served(u, n);
    assert Under(u, u.syncs[n].before, u.syncs[n].mark);
    UnderIsIn(s, u, u.syncs[n].before, u.syncs[n].mark, w);
  }

  lemma SinkAt<R>(s: State<R>, n: nat)
    requires InOrder(s) && n < |s.sink|
    ensures n < |s.accepted| && s.sink[n].rec == s.accepted[n]
  {
    assert Recs(s.sink)[n] == (Recs(s.sink) + (Hand(s) + s.queue))[n];
    assert s.accepted == Recs(s.sink) + (Hand(s) + s.queue);
  }

  // A Sync that was answered covers every Write that had returned when it was
  // called. The answer is that of the last Flush before its Reply, and by then the
  // sink had been given the record, in its place.
  lemma SyncCovers<R>(cap: nat, steps: seq<Step<R>>, k: nat, n: nat, w: nat) returns (f: nat, r: nat)
    requires Run(cap, steps) && k < |steps| && steps[k] == CallSync && Run(cap, steps[..k])
    requires n == |End(cap, steps[..k]).syncs|
    requires n < |End(cap, steps).syncs| && End(cap, steps).syncs[n].state.Replied?
    ensures k < f < r < |steps| && steps[r] == Reply && steps[f] == Flush(End(cap, steps).syncs[n].state.ok)
    ensures forall i :: f < i < r ==> !steps[i].Flush?
    ensures Run(cap, steps[..f]) && Run(cap, steps[..r])
    ensures End(cap, steps[..r]).at == Replying(n, End(cap, steps).syncs[n].state.ok)
    ensures w < |End(cap, steps[..k]).writes| && End(cap, steps[..k]).writes[w].state.Returned? ==>
              InSink(End(cap, steps[..f]), End(cap, steps[..k]).writes[w])
  {
    hide Run, End, Can, Next, Counted, CloseOf, Apart, Later, InSink, Inv, Told, LatestFlush, LastFlush;
    r := SyncReply(cap, steps, n);
    f := ToldSync(cap, steps[..r]);
    assert steps[..r][..f] == steps[..f];
    var at := End(cap, steps[..f]);
    Always(cap, steps[..f]);
    Served(at, n);
    if f <= k {
      LaterOn(cap, steps, f, k);
      NoFewer(at, End(cap, steps[..k]));
      assert false;
    }
    SyncCalled(cap, steps, k);
    LaterOn(cap, steps, k + 1, f);
    LaterOn(cap, steps, k, f);
    if w < |End(cap, steps[..k]).writes| && End(cap, steps[..k]).writes[w].state.Returned? {
      SyncBefore(End(cap, steps[..k]), End(cap, steps[..k + 1]), at, n, w);
    }
  }

  // The record of a Write is in the sink, where the queue's order puts it.
  ghost predicate InSink<R>(s: State<R>, w: Write<R>) {
    w.state.Returned? && w.state.n < |s.sink| && s.sink[w.state.n].rec == w.rec
  }

  // So does a Close that has returned: it comes back well exactly when the last
  // Flush of the run and the closing of the sink after it both did.
  lemma CloseCovers<R>(cap: nat, steps: seq<Step<R>>, k: nat, w: nat) returns (f: nat, c: nat)
    requires Run(cap, steps) && k < |steps| && steps[k] == CallClose && Run(cap, steps[..k])
    requires End(cap, steps).close.Done?
    ensures k < f < c < |steps| && steps[f].Flush? && steps[c].CloseSink?
    ensures End(cap, steps).close.ok <==> steps[f].ok && steps[c].ok
    ensures forall i :: f < i < |steps| ==> !steps[i].Flush? && (i > c ==> !steps[i].CloseSink?)
    ensures Run(cap, steps[..f])
    ensures w < |End(cap, steps[..k]).writes| && End(cap, steps[..k]).writes[w].state.Returned? ==>
              InSink(End(cap, steps[..f]), End(cap, steps[..k]).writes[w])
  {
    hide Run, End, Can, Next, Counted, Synced, Apart, Later, InSink, Inv, Told, LatestFlush, LastFlush;
    f, c := ToldClose(cap, steps);
    var at := End(cap, steps[..f]);
    Always(cap, steps[..f]);
    Leaves(at);
    CloseCalled(cap, steps, k);
    if f <= k {
      LaterOn(cap, steps, f, k);
      NoFewer(at, End(cap, steps[..k]));
      assert false;
    }
    LaterOn(cap, steps, k + 1, f);
    LaterOn(cap, steps, k, f);
    if w < |End(cap, steps[..k]).writes| && End(cap, steps[..k]).writes[w].state.Returned? {
      CloseBefore(End(cap, steps[..k]), End(cap, steps[..k + 1]), at, w);
    }
  }

  lemma ToldClose<R>(cap: nat, steps: seq<Step<R>>) returns (f: nat, c: nat)
    requires Run(cap, steps) && End(cap, steps).close.Done?
    ensures f < c < |steps| && steps[f].Flush? && steps[c].CloseSink?
    ensures End(cap, steps).close.ok <==> steps[f].ok && steps[c].ok
    ensures forall i :: f < i < |steps| ==> !steps[i].Flush? && (i > c ==> !steps[i].CloseSink?)
    ensures Run(cap, steps[..f]) && End(cap, steps[..f]).at == Flushing(ForClose)
  {
    hide Run, End, Can, Next, InOrder, Counted, Flushed, Synced, Placed, Apart;
    Always(cap, steps);
    ToldAlways(cap, steps);
    var ok := End(cap, steps).at.ok;
    var c', fo, co :| ClosedAt(cap, steps, c', fo, co) && (ok <==> fo && co);
    c := c';
    f := LastFlush(steps[..c]);
    assert steps[..c][..f] == steps[..f];
    assert forall i :: f < i < c ==> steps[..c][i] == steps[i];
  }

  lemma Leaves<R>(s: State<R>)
    requires Inv(s) && s.at == Flushing(ForClose)
    ensures !s.close.Open? && s.close.mark <= |s.sink|
  {
    hide InOrder, Counted, Flushed, Synced, Placed, Apart;
  }

  lemma CloseCalled<R>(cap: nat, steps: seq<Step<R>>, k: nat)
    requires Run(cap, steps) && k < |steps| && steps[k] == CallClose
    ensures Run(cap, steps[..k]) && Run(cap, steps[..k + 1])
    ensures var s, t := End(cap, steps[..k]), End(cap, steps[..k + 1]);
            && s.close.Open? && !t.close.Open?
            && forall w: nat :: w in t.close.before <==> w < |s.writes| && s.writes[w].state.Returned?
  {
    hide Run, End;
    StepAt(cap, steps, k);
  }

  lemma CloseBefore<R>(s: State<R>, t: State<R>, u: State<R>, w: nat)
    requires !t.close.Open? && w in t.close.before && w < |s.writes| && s.writes[w].state.Returned?
    requires Later(s, u) && Later(t, u) && Inv(u) && u.at == Flushing(ForClose)
    ensures InSink(u, s.writes[w])
  {
    hide InOrder, Counted, Flushed, Synced, CloseOf, Apart, InSink;
    Leaves(u);
    assert Under(u, u.close.before, u.close.mark);
    UnderIsIn(s, u, u.close.before, u.close.mark, w);
  }

  // Until it is gone the writer can move whenever there is anything to do, so a
  // full queue is felt as waiting and not as a standstill.
  lemma WriterMoves<R>(cap: nat, steps: seq<Step<R>>) returns (step: Step<R>)
    requires Run(cap, steps) && !End(cap, steps).at.Gone?
    requires var s := End(cap, steps);
             !s.at.Select? || s.queue != [] || !s.close.Open? ||
             exists n :: 0 <= n < |s.syncs| && s.syncs[n].state.Asking?
    ensures Can(End(cap, steps), step)
    ensures !step.CallWrite? && !step.Enqueue? && !step.Refuse? && !step.ReturnWrite? && !step.CallSync?
        && !step.TurnAway?
            && !step.CallClose? && !step.ReturnClose?
  {
    hide Run, End, Next, InOrder, Counted, Flushed, CloseOf, Placed, Apart, SyncOf;
    Always(cap, steps);
    var s := End(cap, steps);
    match s.at
    case Select =>
      if s.queue != [] { step := Receive; }
      else if !s.close.Open? { step := Leave; }
      else { var n :| 0 <= n < |s.syncs| && s.syncs[n].state.Asking?; step := Serve(n); }
    case Holding(_, _) => step := Append(true);
    case Counting(_, _) => step := Count;
    case Looking => step := Look;
    case Draining(_) => step := Drain;
    case Flushing(_) => step := Flush(true);
    case Replying(n, _) =>
      assert Serves(s.at, n);
      step := Reply;
    case Closing(_) => step := CloseSink(true);
  }

  // ---- Whatever has happened so far, a call can be made and come to its end.

  lemma More<R>(cap: nat, steps: seq<Step<R>>, step: Step<R>)
    requires Run(cap, steps) && Can(End(cap, steps), step)
    ensures Run(cap, steps + [step]) && End(cap, steps + [step]) == Next(End(cap, steps), step)
  {
    hide Can, Next;
    assert (steps + [step])[..|steps|] == steps;
  }

  // How far the writer is from a quiet select.
  function Distance<R>(s: State<R>): nat {
    10 * |s.queue| +
    match s.at
    case Select => 0
    case Holding(_, why) => if why.Loop? then 5 else 8
    case Counting(_, why) => if why.Loop? then 4 else 7
    case Looking => 3
    case Draining(_) => 6
    case Flushing(why) => if why.Loop? then 1 else 2
    case Replying(_, _) => 1
    case Closing(_) => 1
    case Gone(_) => 0
  }

  ghost predicate Quiet<R>(s: State<R>) {
    s.at.Select? && s.queue == []
  }

  // The writer going about its work: nothing but queue, sink and its own answers.
  ghost predicate Meanwhile<R>(s: State<R>, t: State<R>) {
    && t.cap == s.cap && t.writes == s.writes && t.close == s.close && |t.syncs| == |s.syncs| && !Leaving(t.at)
    && forall n :: 0 <= n < |s.syncs| && s.syncs[n].state.Asking? ==> t.syncs[n].state.Asking?
  }

  lemma SettleStep<R>(s: State<R>) returns (step: Step<R>)
    requires Inv(s) && !Leaving(s.at) && !Quiet(s)
    ensures Can(s, step) && Distance(Next(s, step)) < Distance(s) && Meanwhile(s, Next(s, step))
  {
    hide InOrder, Counted, Flushed, CloseOf, Placed, Apart;
    match s.at
    case Select => step := Receive;
    case Holding(_, _) => step := Append(true);
    case Counting(_, _) => step := Count;
    case Looking => step := Look;
    case Draining(_) => step := Drain;
    case Flushing(_) => step := Flush(true);
    case Replying(n, _) =>
      assert Serves(s.at, n) && SyncOf(s, n);
      step := Reply;
  }

  lemma {:induction false} Settle<R>(cap: nat, steps: seq<Step<R>>) returns (more: seq<Step<R>>)
    requires Run(cap, steps) && !Leaving(End(cap, steps).at)
    ensures Run(cap, steps + more) && Quiet(End(cap, steps + more))
        && Meanwhile(End(cap, steps), End(cap, steps + more))
    decreases Distance(End(cap, steps))
  {
    hide Run, End, Can, Next, Inv, Distance, Quiet, Meanwhile;
    var s := End(cap, steps);
    if Quiet(s) {
      more := [];
      assert steps + [] == steps;
      MeanwhileSelf(s);
    } else {
      Always(cap, steps);
      var step := SettleStep(s);
      More(cap, steps, step);
      NotLeaving(s, Next(s, step));
      var rest := Settle(cap, steps + [step]);
      more := [step] + rest;
      assert steps + [step] + rest == steps + more;
      MeanwhileTwice(s, Next(s, step), End(cap, steps + more));
    }
  }

  lemma NotLeaving<R>(s: State<R>, t: State<R>)
    requires Meanwhile(s, t)
    ensures !Leaving(t.at)
  {
  }

  lemma MeanwhileSelf<R>(s: State<R>)
    requires !Leaving(s.at)
    ensures Meanwhile(s, s)
  {
  }

  lemma MeanwhileTwice<R>(s: State<R>, t: State<R>, u: State<R>)
    requires Meanwhile(s, t) && Meanwhile(t, u)
    ensures Meanwhile(s, u)
  {
  }

  // A Write made at any moment of a log nobody has closed can go through.
  lemma AWriteGoesThrough<R>(cap: nat, steps: seq<Step<R>>, rec: R) returns (more: seq<Step<R>>)
    requires Run(cap, steps) && cap > 0 && End(cap, steps).close.Open?
    ensures more != [] && more[0] == CallWrite(rec) && Run(cap, steps + more)
    ensures var w, s := |End(cap, steps).writes|, End(cap, steps + more);
            w < |s.writes| && s.writes[w].rec == rec && s.writes[w].state.Returned?
  {
    hide Run, End, Distance;
    RefusedIsClosed(cap, steps);
    var w := |End(cap, steps).writes|;
    var called := steps + [CallWrite(rec)];
    More(cap, steps, CallWrite(rec));
    var settled := Settle(cap, called);
    Always(cap, called + settled);
    var more1, more2 := called + settled + [Enqueue(w)], called + settled + [Enqueue(w)] + [ReturnWrite(w)];
    More(cap, called + settled, Enqueue(w));
    More(cap, more1, ReturnWrite(w));
    more := [CallWrite(rec)] + settled + [Enqueue(w), ReturnWrite(w)];
    assert steps + more == more2;
  }

  // A Sync can be answered, and well.
  lemma ASyncIsAnswered<R>(cap: nat, steps: seq<Step<R>>) returns (more: seq<Step<R>>)
    requires Run(cap, steps) && End(cap, steps).close.Open?
    ensures more != [] && more[0] == CallSync && Run(cap, steps + more)
    ensures var n, s := |End(cap, steps).syncs|, End(cap, steps + more);
            n < |s.syncs| && s.syncs[n].state == Replied(true)
  {
    hide Run, End, Distance;
    RefusedIsClosed(cap, steps);
    var n := |End(cap, steps).syncs|;
    More(cap, steps, CallSync);
    var settled := Settle(cap, steps + [CallSync]);
    var a := steps + [CallSync] + settled;
    More(cap, a, Serve(n));
    More(cap, a + [Serve(n)], Drain);
    More(cap, a + [Serve(n)] + [Drain], Flush(true));
    More(cap, a + [Serve(n)] + [Drain] + [Flush(true)], Reply);
    more := [CallSync] + settled + [Serve(n), Drain, Flush(true), Reply];
    assert steps + more == a + [Serve(n)] + [Drain] + [Flush(true)] + [Reply];
  }

  // And a Close can return, well.
  lemma ACloseReturns<R>(cap: nat, steps: seq<Step<R>>) returns (more: seq<Step<R>>)
    requires Run(cap, steps) && End(cap, steps).close.Open?
    ensures more != [] && more[0] == CallClose && Run(cap, steps + more)
    ensures End(cap, steps + more).close.Done? && End(cap, steps + more).close.ok
  {
    hide Run, End, Distance;
    RefusedIsClosed(cap, steps);
    More(cap, steps, CallClose);
    var settled := Settle(cap, steps + [CallClose]);
    var a := steps + [CallClose] + settled;
    More(cap, a, Leave);
    More(cap, a + [Leave], Drain);
    More(cap, a + [Leave] + [Drain], Flush(true));
    More(cap, a + [Leave] + [Drain] + [Flush(true)], CloseSink(true));
    More(cap, a + [Leave] + [Drain] + [Flush(true)] + [CloseSink(true)], ReturnClose);
    more := [CallClose] + settled + [Leave, Drain, Flush(true), CloseSink(true), ReturnClose];
    assert steps + more == a + [Leave] + [Drain] + [Flush(true)] + [CloseSink(true)] + [ReturnClose];
  }
}
