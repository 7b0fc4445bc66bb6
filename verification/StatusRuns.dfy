/** The stored status over all executions: edits of the specification or the metadata, runs that start from any earlier copy of the Package,
    status writes that may be refused, lost or accepted without the run learning of it, and runs that die anywhere. */
module StatusRuns {
  import opened Common
  import opened Cluster
  import opened Status

  /** A run: the copy it works from, whether it announced itself where it had to, and whether it has finished applying
      and sweeping. */
  datatype Worker = Worker(copy: Snapshot, announced: bool, swept: bool)

  /** `past` holds every stored copy so far, the current one last; `completed` the generations for which some run that
      read them finished applying and sweeping. */
  datatype State = State(past: seq<Snapshot>, workers: map<nat, Worker>, completed: set<int>)

  function Stored(s: State): Snapshot
    requires s.past != []
  {
    s.past[|s.past| - 1]
  }

  // ---- moves -------------------------------------------------------------

  /** A status write by a run: what the run then has, and what is stored. */
  ghost predicate Writes(s: State, s': State, w: Worker, value: StatusValue, fate: Fate, ok: bool) {
    && s.past != [] && s'.past != []
    && Written(w.copy, Stored(s), fate, w.copy.(status := value, version := if ok then Stored(s').version else w.copy.version), Stored(s'), ok)
    && s'.past == (if Stored(s') == Stored(s) then s.past else s.past + [Stored(s')])
    && s'.completed == s.completed
  }

  datatype Event =
    | Edit
    | Touch
    | Start(id: nat, from: nat)
    | Announce(id: nat, message: string, now: int, fate: Fate, ok: bool)
    | Sweep(id: nat)
    | Fail(id: nat, reason: string, message: string, now: int, later: int, fate: Fate, ok: bool)
    | Succeed(id: nat, now: int, fate: Fate, ok: bool)
    | Die(id: nat)

  ghost predicate Next(s: State, e: Event, s': State) {
    s.past != [] && s'.past != [] &&
    match e
    case Edit =>
      s' == s.(past := s.past + [Snapshot(Stored(s).generation + 1, Stored(s).version + 1, Stored(s).status)])
    case Touch =>
      s' == s.(past := s.past + [Snapshot(Stored(s).generation, Stored(s).version + 1, Stored(s).status)])
    case Start(id, from) =>
      from < |s.past| &&
      var copy := s.past[from];
      s' == s.(workers := s.workers[id := Worker(copy, copy.generation == copy.status.observedGeneration, false)])
    case Announce(id, message, now, fate, ok) =>
      && id in s.workers && !s.workers[id].announced
      && var w := s.workers[id];
         var value := Reconciling(w.copy.status, w.copy.generation, message, now);
      && Writes(s, s', w, value, fate, ok)
      && s'.workers == if ok then s.workers[id := Worker(Stored(s'), true, false)] else s.workers - {id}
    case Sweep(id) =>
      && id in s.workers && s.workers[id].announced
      && s' == s.(workers := s.workers[id := s.workers[id].(swept := true)], completed := s.completed + {s.workers[id].copy.generation})
    case Fail(id, reason, message, now, later, fate, ok) =>
      && id in s.workers && s.workers[id].announced
      && var w := s.workers[id];
         var value := FailedValue(w.copy.status, w.copy.generation, reason, message, now, later);
      && Writes(s, s', w, value, fate, ok) && s'.workers == s.workers - {id}
    case Succeed(id, now, fate, ok) =>
      && id in s.workers && s.workers[id].announced && s.workers[id].swept
      && var w := s.workers[id];
      && Writes(s, s', w, ReadyValue(w.copy.status, w.copy.generation, now), fate, ok) && s'.workers == s.workers - {id}
    case Die(id) => s' == s.(workers := s.workers - {id})
  }

  ghost predicate Init(s: State) {
    s == State([Snapshot(1, 0, StatusValue(0, []))], map[], {})
  }

  // ---- the invariant -----------------------------------------------------

  /** What holds of every stored copy. */
  ghost predicate Sound(c: Snapshot, completed: set<int>) {
    var cs, observed := c.status.conditions, c.status.observedGeneration;
    && Unique(cs)
    && (HasStatus(cs, "Ready", False) <==> HasStatus(cs, "Stalled", True))
    && (Lookup(cs, "Reconciling").Some? ==> observed < c.generation)
    && 0 <= observed <= c.generation
    && (observed > 0 ==> Lookup(cs, "Ready").Some?)
    && (Lookup(cs, "Ready").Some? ==> Lookup(cs, "Ready").value.observedGeneration == observed)
    && (HasStatus(cs, "Ready", True) ==> observed in completed)
  }

  /** Versions number the stored copies, and neither generation ever goes back. */
  ghost predicate Ordered(past: seq<Snapshot>) {
    && (forall i :: 0 <= i < |past| ==> past[i].version == i)
    && forall i, j :: 0 <= i <= j < |past| ==>
         past[i].generation <= past[j].generation && past[i].status.observedGeneration <= past[j].status.observedGeneration
  }

  /** Every run works from a copy that was stored once. */
  ghost predicate Grounded(s: State) {
    forall id :: id in s.workers ==>
      && s.workers[id].copy.version < |s.past| && s.past[s.workers[id].copy.version] == s.workers[id].copy
      && (s.workers[id].swept ==> s.workers[id].copy.generation in s.completed)
  }

  ghost predicate Inv(s: State) {
    && s.past != [] && Ordered(s.past) && Grounded(s)
    && (forall i :: 0 <= i < |s.past| ==> Sound(s.past[i], s.completed))
    && forall g :: g in s.completed ==> exists i :: 0 <= i < |s.past| && s.past[i].generation == g
  }

  lemma InitInv(s: State)
    requires Init(s)
    ensures Inv(s)
  {
    assert s.past[0].generation == 1;
  }

  // ---- writes ------------------------------------------------------------

  /** An accepted write was based on the stored copy itself. */
  lemma AcceptedIsCurrent(s: State, id: nat)
    requires Inv(s) && id in s.workers && s.workers[id].copy.version == Stored(s).version
    ensures s.workers[id].copy == Stored(s)
  {
    hide Sound;
  }

  lemma SoundReconciling(c: Snapshot, completed: set<int>, version: nat, message: string, now: int)
    requires Sound(c, completed) && c.status.observedGeneration != c.generation
    ensures Sound(Snapshot(c.generation, version, Reconciling(c.status, c.generation, message, now)), completed)
  {
    ReconcilingConditions(c.status, c.generation, message, now);
    hide Set, Lookup, Unique, READY, STALLED, RECONCILING;
  }

  lemma SoundFailed(c: Snapshot, completed: set<int>, version: nat, reason: string, message: string, now: int, later: int)
    requires Sound(c, completed)
    ensures Sound(Snapshot(c.generation, version, FailedValue(c.status, c.generation, reason, message, now, later)), completed)
  {
    FailedConditions(c.status, c.generation, reason, message, now, later);
    assert FailedValue(c.status, c.generation, reason, message, now, later).observedGeneration == c.generation;
    hide Set, Remove, Lookup, Unique, READY, STALLED, RECONCILING, FailedValue;
  }

  lemma SoundReady(c: Snapshot, completed: set<int>, version: nat, now: int)
    requires Sound(c, completed) && c.generation in completed
    ensures Sound(Snapshot(c.generation, version, ReadyValue(c.status, c.generation, now)), completed)
  {
    ReadyConditions(c.status, c.generation, now);
    assert ReadyValue(c.status, c.generation, now).observedGeneration == c.generation;
    hide Set, Remove, Lookup, Unique, READY, STALLED, RECONCILING, ReadyValue;
  }

  /** Storing a sound copy that does not go back keeps the invariant. */
  lemma StoreKeeps(s: State, c: Snapshot, workers: map<nat, Worker>)
    requires Inv(s) && Sound(c, s.completed) && c.version == |s.past|
    requires c.generation >= Stored(s).generation && c.status.observedGeneration >= Stored(s).status.observedGeneration
    requires forall id :: id in workers ==> (id in s.workers && workers[id] == s.workers[id]) || workers[id] == Worker(c, true, false)
    ensures Inv(State(s.past + [c], workers, s.completed))
  {
    hide Sound;
    var past := s.past + [c];
    assert forall i :: 0 <= i < |s.past| ==> past[i] == s.past[i];
  }

  lemma DropKeeps(s: State, id: nat)
    requires Inv(s)
    ensures Inv(s.(workers := s.workers - {id}))
  {
    hide Sound;
  }

  /** A write of a sound value keeps the invariant, whether it is accepted or not. */
  lemma WriteKeeps(s: State, s': State, id: nat, value: StatusValue, fate: Fate, ok: bool)
    requires Inv(s) && id in s.workers && Writes(s, s', s.workers[id], value, fate, ok)
    requires var c := s.workers[id].copy;
             Sound(Snapshot(c.generation, c.version + 1, value), s.completed) && value.observedGeneration >= c.status.observedGeneration
    requires s'.workers == s.workers - {id} || (ok && s'.workers == s.workers[id := Worker(Stored(s'), true, false)])
    ensures Inv(s')
  {
    hide Sound;
    var w := s.workers[id];
    if w.copy.version == Stored(s).version && fate != FailsBefore {
      AcceptedIsCurrent(s, id);
      assert Stored(s').version == Stored(s).version + 1 == |s.past|;
      StoreKeeps(s, Stored(s'), s'.workers);
      assert s' == State(s.past + [Stored(s')], s'.workers, s.completed);
    } else {
      DropKeeps(s, id);
      assert s' == s.(workers := s.workers - {id});
    }
  }

  /** An edit of the specification bumps the generation, one of the metadata only the version. */
  lemma EditKeeps(s: State, bump: nat)
    requires Inv(s)
    ensures Inv(s.(past := s.past + [Snapshot(Stored(s).generation + bump, Stored(s).version + 1, Stored(s).status)]))
  {
    var c := Snapshot(Stored(s).generation + bump, Stored(s).version + 1, Stored(s).status);
    hide Lookup, Unique, READY, STALLED, RECONCILING;
    assert Sound(c, s.completed);
    StoreKeeps(s, c, s.workers);
  }

  lemma SweepKeeps(s: State, id: nat)
    requires Inv(s) && id in s.workers
    ensures Inv(s.(workers := s.workers[id := s.workers[id].(swept := true)], completed := s.completed + {s.workers[id].copy.generation}))
  {
    hide Lookup, Unique, READY, STALLED, RECONCILING;
    var g := s.workers[id].copy.generation;
    assert s.past[s.workers[id].copy.version].generation == g;
  }

  lemma StartKeeps(s: State, id: nat, from: nat)
    requires Inv(s) && from < |s.past|
    ensures var copy := s.past[from];
            Inv(s.(workers := s.workers[id := Worker(copy, copy.generation == copy.status.observedGeneration, false)]))
  {
    hide Sound;
  }

  lemma CopySound(s: State, id: nat)
    requires Inv(s) && id in s.workers
    ensures Sound(s.workers[id].copy, s.completed)
  {
    hide Sound;
  }

  /** A run that still has to announce itself works on a generation that was not observed. */
  ghost predicate Unannounced(s: State) {
    forall id :: id in s.workers && !s.workers[id].announced ==> s.workers[id].copy.generation != s.workers[id].copy.status.observedGeneration
  }

  /** Every move keeps the invariant. */
  lemma NextKeepsInv(s: State, e: Event, s': State)
    requires Inv(s) && Unannounced(s) && Next(s, e, s')
    ensures Inv(s') && Unannounced(s')
  {
    hide Sound, Ordered, Grounded, Inv, Writes, Set, Remove;
    match e
    case Edit => EditKeeps(s, 1);
    case Touch => EditKeeps(s, 0);
    case Start(id, from) => StartKeeps(s, id, from);
    case Announce(id, message, now, fate, ok) =>
      var c := s.workers[id].copy;
      CopySound(s, id);
      SoundReconciling(c, s.completed, c.version + 1, message, now);
      WriteKeeps(s, s', id, Reconciling(c.status, c.generation, message, now), fate, ok);
    case Sweep(id) => SweepKeeps(s, id);
    case Fail(id, reason, message, now, later, fate, ok) =>
      var c := s.workers[id].copy;
      CopySound(s, id);
      SoundFailed(c, s.completed, c.version + 1, reason, message, now, later);
      NotBack(c, s.completed);
      WriteKeeps(s, s', id, FailedValue(c.status, c.generation, reason, message, now, later), fate, ok);
    case Succeed(id, now, fate, ok) =>
      var c := s.workers[id].copy;
      CopySound(s, id);
      SweptCompleted(s, id);
      SoundReady(c, s.completed, c.version + 1, now);
      NotBack(c, s.completed);
      WriteKeeps(s, s', id, ReadyValue(c.status, c.generation, now), fate, ok);
    case Die(id) => DropKeeps(s, id);
  }

  lemma NotBack(c: Snapshot, completed: set<int>)
    requires Sound(c, completed)
    ensures c.status.observedGeneration <= c.generation
  {
  }

  lemma SweptCompleted(s: State, id: nat)
    requires Inv(s) && id in s.workers && s.workers[id].swept
    ensures s.workers[id].copy.generation in s.completed
  {
    hide Sound;
  }

  // ---- executions --------------------------------------------------------

  ghost predicate Execution(states: seq<State>, events: seq<Event>) {
    && |states| == |events| + 1 && Init(states[0])
    && forall n :: 0 <= n < |events| ==> Next(states[n], events[n], states[n + 1])
  }

  lemma {:induction false} InvAlways(states: seq<State>, events: seq<Event>, n: nat)
    requires Execution(states, events) && n < |states|
    ensures Inv(states[n]) && Unannounced(states[n])
    decreases n
  {
    hide Inv, Next;
    if n == 0 {
      InitInv(states[0]);
    } else {
      InvAlways(states, events, n - 1);
      NextKeepsInv(states[n - 1], events[n - 1], states[n]);
    }
  }

  /** Every status ever stored is sound: kinds of conditions are unique, Ready=False goes with Stalled=True, Reconciling
      is there only while the observed generation lags, and Ready=True for a generation means that some run that read
      this generation had finished applying and sweeping. */
  lemma StoredSound(states: seq<State>, events: seq<Event>, n: nat)
    requires Execution(states, events) && n < |states|
    ensures states[n].past != [] && Sound(Stored(states[n]), states[n].completed)
    ensures forall g :: g in states[n].completed ==> exists i :: 0 <= i < |states[n].past| && states[n].past[i].generation == g
  {
    InvAlways(states, events, n);
    hide Sound, Execution;
  }

  /** The observed generation never goes back from one stored status to a later one. */
  lemma {:induction false} ObservedNeverDecreases(states: seq<State>, events: seq<Event>, m: nat, n: nat)
    requires Execution(states, events) && m <= n < |states|
    ensures states[m].past != [] && states[n].past != []
    ensures Stored(states[m]).status.observedGeneration <= Stored(states[n]).status.observedGeneration
    decreases n
  {
    hide Inv, Next, Init;
    InvAlways(states, events, m);
    PastNonEmpty(states[m]);
    if m < n {
      ObservedNeverDecreases(states, events, m, n - 1);
      InvAlways(states, events, n - 1);
      InvAlways(states, events, n);
      LaterObserved(states[n - 1], events[n - 1], states[n]);
    }
  }

  lemma LaterObserved(s: State, e: Event, s': State)
    requires Inv(s) && Inv(s') && Next(s, e, s')
    ensures s.past != [] && s'.past != []
    ensures Stored(s).status.observedGeneration <= Stored(s').status.observedGeneration
  {
    PastGrows(s, e, s');
    hide Sound, Next, Grounded;
  }

  lemma PastGrows(s: State, e: Event, s': State)
    requires Next(s, e, s')
    ensures s'.past == s.past || s'.past == s.past + [Stored(s')]
  {
    hide Set, Remove;
  }

  /** Whenever Ready=True is written, be it over another status or for a new generation over an older Ready=True, the
      writer is a run that read the stored generation and finished its sweep. */
  lemma ReadyWrittenBySweeper(states: seq<State>, events: seq<Event>, n: nat)
    requires Execution(states, events) && n < |events|
    requires states[n].past != [] && states[n + 1].past != []
    requires ReadyChanged(Stored(states[n]).status, Stored(states[n + 1]).status)
    requires HasStatus(Stored(states[n + 1]).status.conditions, READY, True)
    ensures var e := events[n];
            && e.Succeed? && e.id in states[n].workers && states[n].workers[e.id].swept
            && states[n].workers[e.id].copy == Stored(states[n])
            && Stored(states[n + 1]).status.observedGeneration == Stored(states[n]).generation == Stored(states[n + 1]).generation
  {
    InvAlways(states, events, n);
    PastNonEmpty(states[n]);
    hide Inv, Sound, Next, Lookup;
    ReadyStep(states[n], events[n], states[n + 1]);
  }

  lemma ReadyStep(s: State, e: Event, s': State)
    requires Inv(s) && s.past != [] && s'.past != [] && Next(s, e, s')
    requires ReadyChanged(Stored(s).status, Stored(s').status) && HasStatus(Stored(s').status.conditions, READY, True)
    ensures e.Succeed? && e.id in s.workers && s.workers[e.id].swept && s.workers[e.id].copy == Stored(s)
    ensures Stored(s').status.observedGeneration == Stored(s).generation == Stored(s').generation
  {
    hide Sound, Set, Remove, Lookup, Unique, Ordered, Grounded;
    match e
    case Edit =>
    case Touch =>
    case Start(id, from) =>
    case Sweep(id) =>
    case Die(id) =>
    case Announce(id, message, now, fate, ok) =>
      AnnounceKeepsReady(s, id, message, now);
    case Fail(id, reason, message, now, later, fate, ok) =>
      FailedIsNotReady(s, id, reason, message, now, later);
    case Succeed(id, now, fate, ok) =>
      if s.workers[id].copy.version == Stored(s).version {
        AcceptedIsCurrent(s, id);
      }
  }

  lemma AnnounceKeepsReady(s: State, id: nat, message: string, now: int)
    requires Inv(s) && id in s.workers
    ensures var c := s.workers[id].copy;
            var value := Reconciling(c.status, c.generation, message, now);
            c.version == Stored(s).version ==> !ReadyChanged(Stored(s).status, value)
  {
    hide Inv, Lookup, Unique, Set;
    PastNonEmpty(s);
    var c := s.workers[id].copy;
    if c.version == Stored(s).version {
      AcceptedIsCurrent(s, id);
      CopyUnique(s, id);
      ReconcilingConditions(c.status, c.generation, message, now);
      assert Reconciling(c.status, c.generation, message, now).observedGeneration == c.status.observedGeneration;
    }
  }

  lemma FailedIsNotReady(s: State, id: nat, reason: string, message: string, now: int, later: int)
    requires Inv(s) && id in s.workers
    ensures var c := s.workers[id].copy;
            !HasStatus(FailedValue(c.status, c.generation, reason, message, now, later).conditions, READY, True)
  {
    hide Inv, Lookup, Unique, Set, Remove;
    CopyUnique(s, id);
    var c := s.workers[id].copy;
    FailedConditions(c.status, c.generation, reason, message, now, later);
  }

  /** The Ready condition or the generation it is reported for differs. */
  ghost predicate ReadyChanged(v: StatusValue, v': StatusValue) {
    Lookup(v'.conditions, READY) != Lookup(v.conditions, READY) || v'.observedGeneration != v.observedGeneration
  }

  /** Every stored Ready=True has a writer: a run that had read the very generation it is reported for, and had finished
      its sweep when it wrote. */
  lemma {:induction false} ReadyHasWriter(states: seq<State>, events: seq<Event>, n: nat) returns (m: nat)
    requires Execution(states, events) && n < |states| && states[n].past != []
    requires HasStatus(Stored(states[n]).status.conditions, READY, True)
    ensures m < n && WroteReady(states[m], events[m], Stored(states[n]).status.observedGeneration)
    decreases n
  {
    hide Next, Lookup, Set, Remove;
    NoReadyAtFirst(states[0]);
    assert n > 0;
    InvAlways(states, events, n - 1);
    PastNonEmpty(states[n - 1]);
    if ReadyChanged(Stored(states[n - 1]).status, Stored(states[n]).status) {
      ReadyWrittenBySweeper(states, events, n - 1);
      m := n - 1;
    } else {
      m := ReadyHasWriter(states, events, n - 1);
    }
  }

  /** The event is the final status write of a successful run that read generation `g` and had finished its sweep. */
  ghost predicate WroteReady(s: State, e: Event, g: int) {
    e.Succeed? && e.id in s.workers && s.workers[e.id].swept && s.workers[e.id].copy.generation == g
  }

  lemma NoReadyAtFirst(s: State)
    requires Init(s)
    ensures !HasStatus(Stored(s).status.conditions, READY, True)
  {
  }

  lemma PastNonEmpty(s: State)
    requires Inv(s)
    ensures s.past != []
  {
    hide Sound;
  }

  lemma CopyUnique(s: State, id: nat)
    requires Inv(s) && id in s.workers
    ensures Unique(s.workers[id].copy.status.conditions)
  {
    CopySound(s, id);
    hide Inv, Unique;
  }

  // ---- the writes of one run ---------------------------------------------

  /** The events lead from `a` to `b`. */
  ghost predicate Follows(states: seq<State>, events: seq<Event>, a: State, b: State) {
    && |states| == |events| + 1 && states[0] == a && states[|events|] == b
    && forall n :: 0 <= n < |events| ==> Next(states[n], events[n], states[n + 1])
  }

  lemma FollowsOn(states: seq<State>, events: seq<Event>, a: State, b: State, e: Event, c: State)
    requires Follows(states, events, a, b) && Next(b, e, c)
    ensures Follows(states + [c], events + [e], a, c)
  {
    hide Next;
    var longer, more := states + [c], events + [e];
    forall n | 0 <= n < |more| ensures Next(longer[n], more[n], longer[n + 1]) {
      assert longer[n] == states[n];
    }
  }

  /** One run, number 0, that read `read` while `stored` is what the server has. */
  function Alone(read: Snapshot, stored: Snapshot): State {
    State([stored], map[0 := Worker(read, read.generation == read.status.observedGeneration, false)], {})
  }

  /** Versions identify copies. */
  predicate Consistent(read: Snapshot, stored: Snapshot) { read.version == stored.version ==> read == stored }

  function Pushed(s: State, c: Snapshot, workers: map<nat, Worker>): State
    requires s.past != []
  {
    State(if c == Stored(s) then s.past else s.past + [c], workers, s.completed)
  }

  lemma AnnounceEvent(s: State, text: string, now: int, fate: Fate, ok: bool, copy: Snapshot, stored: Snapshot) returns (s': State)
    requires s.past != [] && 0 in s.workers && !s.workers[0].announced && Consistent(s.workers[0].copy, Stored(s))
    requires var c := s.workers[0].copy;
             && Written(c, Stored(s), fate, copy, stored, ok)
             && copy.generation == c.generation && copy.status == Reconciling(c.status, c.generation, text, now)
    ensures Next(s, Announce(0, text, now, fate, ok), s') && s'.past != [] && Stored(s') == stored
    ensures ok ==> s'.workers == s.workers[0 := Worker(copy, true, false)] && Consistent(copy, stored)
  {
    hide Reconciling;
    s' := Pushed(s, stored, if ok then s.workers[0 := Worker(stored, true, false)] else s.workers - {0});
  }

  lemma SweepEvent(s: State) returns (s': State)
    requires s.past != [] && 0 in s.workers && s.workers[0].announced
    ensures Next(s, Sweep(0), s') && s'.past == s.past && 0 in s'.workers && s'.workers[0] == s.workers[0].(swept := true)
  {
    s' := s.(workers := s.workers[0 := s.workers[0].(swept := true)], completed := s.completed + {s.workers[0].copy.generation});
  }

  /** How a run ends. */
  datatype Ending = Failing(reason: string, message: string, now: int, later: int) | Succeeding(now: int)

  function EndingValue(c: Snapshot, end: Ending): StatusValue {
    match end
    case Failing(reason, message, now, later) => FailedValue(c.status, c.generation, reason, message, now, later)
    case Succeeding(now) => ReadyValue(c.status, c.generation, now)
  }

  function EndingEvent(end: Ending, fate: Fate, ok: bool): Event {
    match end
    case Failing(reason, message, now, later) => Fail(0, reason, message, now, later, fate, ok)
    case Succeeding(now) => Succeed(0, now, fate, ok)
  }

  lemma EndEvent(s: State, end: Ending, fate: Fate, ok: bool, copy: Snapshot, stored: Snapshot) returns (s': State)
    requires s.past != [] && 0 in s.workers && s.workers[0].announced && (end.Succeeding? ==> s.workers[0].swept)
    requires var c := s.workers[0].copy;
             Written(c, Stored(s), fate, copy, stored, ok) && copy.generation == c.generation && copy.status == EndingValue(c, end)
    ensures Next(s, EndingEvent(end, fate, ok), s') && s'.past != [] && Stored(s') == stored
  {
    hide FailedValue, ReadyValue;
    s' := Pushed(s, stored, s.workers - {0});
  }

  /** The status writes of a run that got to its end are events of the executions above: an announcement where the
      generation was not observed, a sweep exactly if it succeeded, and the final write. */
  lemma RunLog(read: Snapshot, stored: Snapshot, text: string, now: int, fate: Fate, between: Snapshot, stored': Snapshot,
               end: Ending, fate': Fate, ok: bool, copy: Snapshot, stored'': Snapshot)
    returns (states: seq<State>, events: seq<Event>)
    requires Consistent(read, stored)
    requires if read.generation != read.status.observedGeneration then
               && Written(read, stored, fate, between, stored', true)
               && between.generation == read.generation && between.status == Reconciling(read.status, read.generation, text, now)
             else between == read && stored' == stored
    requires Written(between, stored', fate', copy, stored'', ok)
    requires copy.generation == between.generation && copy.status == EndingValue(between, end)
    ensures states != [] && Follows(states, events, Alone(read, stored), states[|states| - 1])
    ensures states[|states| - 1].past != [] && Stored(states[|states| - 1]) == stored''
    ensures Sweep(0) in events <==> end.Succeeding?
  {
    hide Next, Written, EndingValue, Reconciling;
    var s := Alone(read, stored);
    states, events := [s], [];
    if read.generation != read.status.observedGeneration {
      var t := AnnounceEvent(s, text, now, fate, true, between, stored');
      FollowsOn(states, events, Alone(read, stored), s, Announce(0, text, now, fate, true), t);
      states, events := states + [t], events + [Announce(0, text, now, fate, true)];
      s := t;
    }
    if end.Succeeding? {
      var t := SweepEvent(s);
      FollowsOn(states, events, Alone(read, stored), s, Sweep(0), t);
      states, events := states + [t], events + [Sweep(0)];
      s := t;
    }
    var t := EndEvent(s, end, fate', ok, copy, stored'');
    FollowsOn(states, events, Alone(read, stored), s, EndingEvent(end, fate', ok), t);
    states, events := states + [t], events + [EndingEvent(end, fate', ok)];
  }

  /** The write of a run whose announcement failed. */
  lemma RefusedLog(read: Snapshot, stored: Snapshot, text: string, now: int, fate: Fate, copy: Snapshot, stored': Snapshot)
    returns (states: seq<State>, events: seq<Event>)
    requires Consistent(read, stored) && read.generation != read.status.observedGeneration
    requires Written(read, stored, fate, copy, stored', false)
    requires copy.generation == read.generation && copy.status == Reconciling(read.status, read.generation, text, now)
    ensures states != [] && Follows(states, events, Alone(read, stored), states[|states| - 1])
    ensures states[|states| - 1].past != [] && Stored(states[|states| - 1]) == stored' && Sweep(0) !in events
  {
    hide Next, Written, Reconciling;
    var s := Alone(read, stored);
    var t := AnnounceEvent(s, text, now, fate, false, copy, stored');
    FollowsOn([s], [], s, s, Announce(0, text, now, fate, false), t);
    states, events := [s] + [t], [] + [Announce(0, text, now, fate, false)];
  }
}
