/** One reconcile: generate, apply every object in order, sweep what is no longer wanted, report. */
module Reconcile {
  import opened Common
  import opened Kube
  import opened Cluster
  import opened Convergence
  import opened Moves
  import opened Status
  import SR = StatusRuns
  import G = Generate
  import Heap = Objects
  import Safety
  import S = Spec

  // ---- traces ------------------------------------------------------------

  /** `after` continues `before` with steps only. */
  ghost predicate Continues(before: seq<Objects>, after: seq<Objects>, pkg: S.Package, desired: seq<Manifest>) {
    && before != [] && before <= after
    && IsTrace(after[|before| - 1..], pkg, desired)
  }

  lemma ContinuesNone(h: seq<Objects>, pkg: S.Package, desired: seq<Manifest>)
    requires h != []
    ensures Continues(h, h, pkg, desired)
  {
  }

  lemma ContinuesStep(before: seq<Objects>, after: seq<Objects>, objs: Objects, pkg: S.Package, desired: seq<Manifest>)
    requires Continues(before, after, pkg, desired) && IsStep(after[|after| - 1], objs, pkg, desired)
    ensures Continues(before, after + [objs], pkg, desired)
  {
    hide IsStep;
    var t := after[|before| - 1..];
    var u := t + [objs];
    assert (after + [objs])[|before| - 1..] == u;
    assert forall i :: 0 <= i < |t| ==> u[i] == t[i];
  }

  // ---- apply -------------------------------------------------------------

  /** All calls from number `a` up to `b` succeed. */
  ghost predicate AllSucceed(plan: nat -> Fate, a: nat, b: nat) { forall n: nat :: a <= n < b ==> plan(n) == Succeeds }

  /** A first part of the list was applied and nothing else happened. */
  ghost predicate PartlyApplied(before: Objects, after: Objects, desired: seq<Manifest>) {
    exists part :: part <= desired && after == AppliedAll(before, part)
  }

  /** Applies every object in order and stops at the first failure; nothing is ever deleted here. */
  method ApplyAll(server: Server, pkg: S.Package, desired: seq<Manifest>) returns (ok: bool, failed: string, ghost trace: seq<Point>)
    requires server.Valid()
    modifies server
    ensures server.Valid() && Continues(old(server.history), server.history, pkg, desired) && server.calls >= old(server.calls)
    ensures Leads(pkg, desired, trace, Point(old(server.objects), Applying(0)), Point(server.objects, if ok then Applying(|desired|) else Idle))
    ensures ok <==> AllSucceed(server.plan, old(server.calls), server.calls)
    ensures ok ==> server.objects == AppliedAll(old(server.objects), desired)
    ensures !ok ==> PartlyApplied(old(server.objects), server.objects, desired)
  {
    hide Patched, IsStep, Continues, AppliedAll, KeyOf, Leads, MoveTo;
    ghost var start := server.objects;
    trace := [Point(start, Applying(0))];
    StartHere(pkg, desired, Point(start, Applying(0)));
    ContinuesNone(server.history, pkg, desired);
    AppliedNone(start);
    for n := 0 to |desired|
      invariant server.Valid() && Continues(old(server.history), server.history, pkg, desired) && server.calls >= old(server.calls)
      invariant AllSucceed(server.plan, old(server.calls), server.calls)
      invariant server.objects == AppliedAll(start, desired[..n])
      invariant Leads(pkg, desired, trace, Point(start, Applying(0)), Point(server.objects, Applying(n)))
    {
      ghost var h, objs := server.history, server.objects;
      var r := server.Patch(desired[n]);
      AppliedOne(start, desired, n);
      PatchIsStep(objs, server.objects, desired[n], pkg, desired);
      ContinuesStep(old(server.history), h, server.objects, pkg, desired);
      PatchMoves(pkg, desired, n, objs, server.objects, r == Done);
      ghost var p := Point(server.objects, if r == Done then Applying(n + 1) else Idle);
      MoveOn(pkg, desired, trace, Point(start, Applying(0)), Point(objs, Applying(n)), p);
      trace := trace + [p];
      if r == Failed {
        assert server.plan(server.calls - 1) != Succeeds;
        assert desired[..n] <= desired && desired[..n + 1] <= desired;
        return false, desired[n].name, trace;
      }
    }
    assert desired[..|desired|] == desired;
    return true, "", trace;
  }

  lemma AppliedNone(objs: Objects)
    ensures AppliedAll(objs, []) == objs
  {
  }

  lemma AppliedOne(objs: Objects, ms: seq<Manifest>, n: nat)
    requires n < |ms|
    ensures AppliedAll(objs, ms[..n + 1]) == Patched(AppliedAll(objs, ms[..n]), ms[n])
  {
    assert ms[..n + 1][..n] == ms[..n];
  }

  lemma PatchIsStep(a: Objects, b: Objects, m: Manifest, pkg: S.Package, desired: seq<Manifest>)
    requires m in desired && (b == a || b == Patched(a, m))
    ensures IsStep(a, b, pkg, desired)
  {
  }

  // ---- sweep -------------------------------------------------------------

  function StaleOf(objs: Objects, pkg: S.Package, keep: set<Key>, kinds: seq<Kind>): set<Key> {
    set k | k in objs && IsOurs(objs, k, pkg) && k !in keep && k.kind.kind in kinds
  }

  method KeepKeys(desired: seq<Manifest>) returns (keep: set<Key>)
    ensures keep == Wanted(desired)
  {
    hide KeyOf, Wanted;
    keep := {};
    WantedNone();
    for n := 0 to |desired|
      invariant keep == Wanted(desired[..n])
    {
      WantedOne(desired, n);
      keep := keep + {KeyOf(desired[n])};
    }
    assert desired[..|desired|] == desired;
  }

  /** Lists every managed kind by label and deletes what is not kept; stops at the first failure. */
  method PruneStale(server: Server, pkg: S.Package, desired: seq<Manifest>) returns (ok: bool, failed: string, ghost trace: seq<Point>)
    requires server.Valid()
    modifies server
    ensures server.Valid() && Continues(old(server.history), server.history, pkg, desired) && server.calls >= old(server.calls)
    ensures Leads(pkg, desired, trace, Point(old(server.objects), Applying(|desired|)), Point(server.objects, if ok then Finished else Idle))
    ensures ok <==> AllSucceed(server.plan, old(server.calls), server.calls)
    ensures ok ==> server.objects == Pruned(old(server.objects), pkg, Wanted(desired))
  {
    hide IsOurs, IsStep, Continues, KeyOf, StaleOf, Wanted, Leads, MoveTo;
    var keep := KeepKeys(desired);
    ghost var start := server.objects;
    ghost var from := Point(start, Applying(|desired|));
    ContinuesNone(server.history, pkg, desired);
    StaleNone(start, pkg, keep);
    StartHere(pkg, desired, from);
    SweepBegins(pkg, desired, start);
    MoveOn(pkg, desired, [from], from, from, Point(start, Sweeping(0, [])));
    trace := [from] + [Point(start, Sweeping(0, []))];
    for n := 0 to |MANAGED_KINDS|
      invariant server.Valid() && Continues(old(server.history), server.history, pkg, desired) && server.calls >= old(server.calls)
      invariant AllSucceed(server.plan, old(server.calls), server.calls)
      invariant server.objects == start - StaleOf(start, pkg, keep, MANAGED_KINDS[..n])
      invariant Leads(pkg, desired, trace, from, Point(server.objects, Sweeping(n, [])))
    {
      ok, failed, trace := PruneKind(server, pkg, desired, keep, n, start, old(server.history), trace, from);
      if !ok {
        return;
      }
    }
    assert MANAGED_KINDS[..|MANAGED_KINDS|] == MANAGED_KINDS;
    SweptAll(start, pkg, keep);
    SweepBegins(pkg, desired, server.objects);
    ghost var end := Point(server.objects, Finished);
    MoveOn(pkg, desired, trace, from, Point(server.objects, Sweeping(|MANAGED_KINDS|, [])), end);
    return true, "", trace + [end];
  }

  lemma WantedNone()
    ensures Wanted([]) == {}
  {
  }

  lemma WantedOne(ms: seq<Manifest>, n: nat)
    requires n < |ms|
    ensures Wanted(ms[..n + 1]) == Wanted(ms[..n]) + {KeyOf(ms[n])}
  {
    hide KeyOf;
    assert ms[..n + 1] == ms[..n] + [ms[n]];
  }

  lemma StaleNone(objs: Objects, pkg: S.Package, keep: set<Key>)
    ensures StaleOf(objs, pkg, keep, []) == {} && objs - {} == objs
  {
  }

  lemma SweptAll(objs: Objects, pkg: S.Package, keep: set<Key>)
    ensures objs - StaleOf(objs, pkg, keep, MANAGED_KINDS) == Pruned(objs, pkg, keep)
  {
    hide CarriesLabel, MANAGED_KINDS;
    forall k: Kind ensures k in MANAGED_KINDS {
      AllKindsManaged(k);
    }
  }

  /** The part of the sweep for one kind. */
  method PruneKind(server: Server, pkg: S.Package, desired: seq<Manifest>, keep: set<Key>, n: nat,
                   ghost start: Objects, ghost first: seq<Objects>, ghost before: seq<Point>, ghost from: Point)
    returns (ok: bool, failed: string, ghost trace: seq<Point>)
    requires server.Valid() && keep == Wanted(desired) && n < |MANAGED_KINDS| && Continues(first, server.history, pkg, desired)
    requires server.objects == start - StaleOf(start, pkg, keep, MANAGED_KINDS[..n])
    requires Leads(pkg, desired, before, from, Point(server.objects, Sweeping(n, [])))
    modifies server
    ensures server.Valid() && Continues(first, server.history, pkg, desired) && server.calls >= old(server.calls)
    ensures Leads(pkg, desired, trace, from, Point(server.objects, if ok then Sweeping(n + 1, []) else Idle))
    ensures ok <==> AllSucceed(server.plan, old(server.calls), server.calls)
    ensures ok ==> server.objects == start - StaleOf(start, pkg, keep, MANAGED_KINDS[..n + 1])
  {
    hide IsOurs, IsStep, Continues, Wanted, StaleOf, Removed, Leads, MoveTo, MANAGED_KINDS;
    ghost var h := server.history;
    ghost var here := Point(server.objects, Sweeping(n, []));
    var r, items := server.List(MANAGED_KINDS[n], pkg);
    StayIsStep(server.objects, pkg, desired);
    ContinuesStep(first, h, server.objects, pkg, desired);
    if r == Failed {
      GivesUp(pkg, desired, server.objects, Sweeping(n, []));
      MoveOn(pkg, desired, before, from, here, Point(server.objects, Idle));
      return false, "", before + [Point(server.objects, Idle)];
    }
    ListMoves(pkg, desired, server.objects, n, items);
    MoveOn(pkg, desired, before, from, here, Point(server.objects, Sweeping(n + 1, items)));
    trace := before + [Point(server.objects, Sweeping(n + 1, items))];
    assert items[0..] == items;
    ghost var listed := server.objects;
    ghost var gone: set<Key> := {};
    assert listed - gone == listed;
    for i := 0 to |items|
      invariant server.Valid() && Continues(first, server.history, pkg, desired) && server.calls >= old(server.calls)
      invariant AllSucceed(server.plan, old(server.calls), server.calls)
      invariant server.objects == listed - gone && gone == set k | k in items[..i] && k !in keep
      invariant Leads(pkg, desired, trace, from, Point(server.objects, Sweeping(n + 1, items[i..])))
    {
      assert items[..i + 1] == items[..i] + [items[i]];
      here := Point(server.objects, Sweeping(n + 1, items[i..]));
      if items[i] in keep {
        KeepMoves(pkg, desired, server.objects, n + 1, items, i);
        ghost var p := Point(server.objects, Sweeping(n + 1, items[i + 1..]));
        MoveOn(pkg, desired, trace, from, here, p);
        trace := trace + [p];
        continue;
      }
      ghost var h, objs := server.history, server.objects;
      var r := server.Delete(items[i]);
      RemoveIsStep(listed, gone, items[i], pkg, desired);
      StayIsStep(objs, pkg, desired);
      ContinuesStep(first, h, server.objects, pkg, desired);
      DeleteMoves(pkg, desired, objs, server.objects, n + 1, items, i, r != Failed);
      ghost var p := Point(server.objects, if r != Failed then Sweeping(n + 1, items[i + 1..]) else Idle);
      MoveOn(pkg, desired, trace, from, here, p);
      trace := trace + [p];
      if r == Failed {
        assert server.plan(server.calls - 1) != Succeeds;
        return false, items[i].name, trace;
      }
      gone := gone + {items[i]};
    }
    assert items[..|items|] == items && items[|items|..] == [];
    SweptKind(start, pkg, keep, MANAGED_KINDS, n, items, gone);
    return true, "", trace;
  }

  lemma StayIsStep(objs: Objects, pkg: S.Package, desired: seq<Manifest>)
    ensures IsStep(objs, objs, pkg, desired)
  {
  }

  lemma RemoveIsStep(before: Objects, gone: set<Key>, k: Key, pkg: S.Package, desired: seq<Manifest>)
    requires k !in Wanted(desired) && IsOurs(before, k, pkg)
    ensures IsStep(before - gone, Removed(before - gone, k), pkg, desired)
    ensures Removed(before - gone, k) == before - (gone + {k})
  {
    hide CarriesLabel, Wanted;
    if k in gone {
      assert Removed(before - gone, k) == before - gone;
    } else {
      assert IsOurs(before - gone, k, pkg);
    }
  }

  lemma SweptKind(start: Objects, pkg: S.Package, keep: set<Key>, kinds: seq<Kind>, n: nat, items: seq<Key>, gone: set<Key>)
    requires n < |kinds|
    requires var now := start - StaleOf(start, pkg, keep, kinds[..n]);
             forall k :: k in items <==> IsOurs(now, k, pkg) && k.kind == Managed(kinds[n])
    requires gone == set k | k in items && k !in keep
    ensures start - StaleOf(start, pkg, keep, kinds[..n]) - gone == start - StaleOf(start, pkg, keep, kinds[..n + 1])
  {
    hide CarriesLabel;
    assert kinds[..n + 1] == kinds[..n] + [kinds[n]];
  }

  // ---- the whole run -----------------------------------------------------

  datatype Exit = Skipped | NotAnnounced | GenerationFailed | ApplyFailed | PruneFailed | Succeeded

  ghost function DesiredList(input: G.Input): seq<Manifest> {
    if G.Desired(input).Ok? then G.Desired(input).value else []
  }

  method States(objs: seq<Heap.KubeObject>) returns (ms: seq<Manifest>)
    ensures |ms| == |objs| && forall k :: 0 <= k < |ms| ==> ms[k] == objs[k].State()
  {
    ms := [];
    for n := 0 to |objs|
      invariant |ms| == n && forall k :: 0 <= k < n ==> ms[k] == objs[k].State()
    {
      ms := ms + [objs[n].State()];
    }
  }

  lemma DesiredStamped(input: G.Input)
    ensures Stamped(DesiredList(input), input.pkg)
  {
    hide G.Desired;
    if G.Desired(input).Ok? {
      forall m | m in DesiredList(input) {
        Safety.EveryObjectStamped(input, m);
      }
    }
  }

  /** Reconciles one Package from a copy that may be out of date. The exit tells how far the run got and `stored`
      whether its last status write was accepted. */
  method Run(pkg: PackageObject, deleting: bool, input: G.Input, server: Server, store: StatusStore, text: string, clock: (int, int, int))
    returns (exit: Exit, stored: bool, message: string, ghost log: Log)
    requires server.Valid()
    modifies pkg, server, store
    ensures server.Valid() && Continues(old(server.history), server.history, input.pkg, DesiredList(input))
    ensures exit in {Skipped, NotAnnounced, GenerationFailed} ==> server.history == old(server.history) && server.objects == old(server.objects)
    ensures exit == GenerationFailed ==> G.Desired(input).Err?
    ensures exit == ApplyFailed ==> PartlyApplied(old(server.objects), server.objects, DesiredList(input))
    ensures exit == Succeeded ==> G.Desired(input).Ok? && server.objects == AfterRun(old(server.objects), input)
    ensures exit == Succeeded ==> Converged(server.objects, input.pkg, DesiredList(input))
    ensures pkg.generation == old(pkg.generation) && store.persisted.generation == old(store.persisted.generation)
    ensures var base := if pkg.generation != old(pkg.Value()).observedGeneration
                        then Reconciling(old(pkg.Value()), pkg.generation, text, clock.0) else old(pkg.Value());
            match exit
            case Skipped => pkg.Value() == old(pkg.Value()) && store.persisted == old(store.persisted)
            case NotAnnounced => pkg.Value() == base
            case Succeeded => pkg.Value() == ReadyValue(base, pkg.generation, clock.1)
            case GenerationFailed => pkg.Value() == FailedValue(base, pkg.generation, "GenerationFailed", message, clock.1, clock.2)
            case ApplyFailed => pkg.Value() == FailedValue(base, pkg.generation, "ApplyFailed", message, clock.1, clock.2)
            case PruneFailed => pkg.Value() == FailedValue(base, pkg.generation, "PruneFailed", message, clock.1, clock.2)
    ensures exit == Skipped <==> deleting
    ensures stored ==> store.persisted.status == pkg.Value()
    ensures old(pkg.version) != old(store.persisted.version) ==> store.persisted == old(store.persisted) && !stored
    ensures (forall n :: server.plan(n) == Succeeds) && (forall n :: store.plan(n) == Succeeds)
            && old(pkg.version) == old(store.persisted.version) && !deleting ==>
              stored && exit == if G.Desired(input).Ok? then Succeeded else GenerationFailed
    ensures exit in {ApplyFailed, PruneFailed, Succeeded} ==>
              Leads(input.pkg, DesiredList(input), log.trace, Point(old(server.objects), Applying(0)),
                    Point(server.objects, if exit == Succeeded then Finished else Idle))
    ensures exit != Skipped && SR.Consistent(old(pkg.Copy()), old(store.persisted)) ==>
              log.Writes(old(pkg.Copy()), old(store.persisted), store.persisted, exit == Succeeded)
  {
    hide Continues, Set, Remove, G.Desired, Converged, AppliedAll, Pruned, Wanted, READY, STALLED, RECONCILING, FailedValue, ReadyValue, Reconciling;
    hide Leads, Log.Writes;
    message := "";
    stored := false;
    log := Log([], [], []);
    ghost var desired := DesiredList(input);
    ghost var read, kept, objs := pkg.Copy(), store.persisted, server.objects;
    DesiredStamped(input);
    ContinuesNone(server.history, input.pkg, desired);
    if deleting {
      return Skipped, false, "", log;
    }
    ghost var before := pkg.version == store.persisted.version;
    ghost var fate := store.plan(store.calls);
    if pkg.generation != pkg.observedGeneration {
      var ok := pkg.MarkReconciling(store, text, clock.0);
      if !ok {
        log := RefusedWrites(log, read, kept, text, clock.0, fate, pkg.Copy(), store.persisted);
        return NotAnnounced, false, "", log;
      }
    }
    ghost var between, middling := pkg.Copy(), store.persisted;
    assert (pkg.version == store.persisted.version) == before;
    var generated := G.GenerateObjects(input);
    ghost var fate' := store.plan(store.calls);
    if generated.Err? {
      stored := pkg.MarkFailed(store, "GenerationFailed", message, clock.1, clock.2);
      ghost var end := SR.Failing("GenerationFailed", message, clock.1, clock.2);
      log := RunWrites(log, read, kept, text, clock.0, fate, between, middling, end, fate', stored, pkg.Copy(), store.persisted);
      return GenerationFailed, stored, message, log;
    }
    var ms := States(generated.value);
    assert ms == desired;
    var ok, failed, trace := ApplyAll(server, input.pkg, ms);
    log := log.(trace := trace);
    if !ok {
      stored := pkg.MarkFailed(store, "ApplyFailed", failed, clock.1, clock.2);
      ghost var end := SR.Failing("ApplyFailed", failed, clock.1, clock.2);
      log := RunWrites(log, read, kept, text, clock.0, fate, between, middling, end, fate', stored, pkg.Copy(), store.persisted);
      return ApplyFailed, stored, failed, log;
    }
    ghost var middle, applied := server.history, Point(server.objects, Applying(|desired|));
    ok, failed, trace := PruneStale(server, input.pkg, ms);
    ContinuesOn(old(server.history), middle, server.history, input.pkg, desired);
    ghost var whole := Joined(input.pkg, desired, log.trace, trace, Point(objs, Applying(0)), applied,
                              Point(server.objects, if ok then Finished else Idle));
    log := log.(trace := whole);
    if !ok {
      stored := pkg.MarkFailed(store, "PruneFailed", failed, clock.1, clock.2);
      ghost var end := SR.Failing("PruneFailed", failed, clock.1, clock.2);
      log := RunWrites(log, read, kept, text, clock.0, fate, between, middling, end, fate', stored, pkg.Copy(), store.persisted);
      return PruneFailed, stored, failed, log;
    }
    RunConverges(old(server.objects), input.pkg, desired);
    stored := pkg.MarkReady(store, clock.1);
    log := RunWrites(log, read, kept, text, clock.0, fate, between, middling, SR.Succeeding(clock.1), fate', stored, pkg.Copy(), store.persisted);
    return Succeeded, stored, "", log;
  }

  /** What a run did, in terms of the machines that describe many runs at once. */
  datatype Log = Log(trace: seq<Point>, states: seq<SR.State>, events: seq<SR.Event>) {
    /** The status writes are events of the status machine, with a sweep exactly if the run succeeded. */
    ghost predicate Writes(read: Snapshot, stored: Snapshot, stored': Snapshot, succeeded: bool) {
      && states != [] && SR.Follows(states, events, SR.Alone(read, stored), states[|states| - 1])
      && states[|states| - 1].past != [] && SR.Stored(states[|states| - 1]) == stored'
      && (SR.Sweep(0) in events <==> succeeded)
    }
  }

  lemma RunWrites(log: Log, read: Snapshot, stored: Snapshot, text: string, now: int, fate: Fate, between: Snapshot, stored': Snapshot,
                  end: SR.Ending, fate': Fate, ok: bool, copy: Snapshot, stored'': Snapshot)
    returns (log': Log)
    requires if read.generation != read.status.observedGeneration then
               && Written(read, stored, fate, between, stored', true)
               && between.generation == read.generation && between.status == Reconciling(read.status, read.generation, text, now)
             else between == read && stored' == stored
    requires Written(between, stored', fate', copy, stored'', ok)
    requires copy.generation == between.generation && copy.status == SR.EndingValue(between, end)
    ensures log'.trace == log.trace
    ensures SR.Consistent(read, stored) ==> log'.Writes(read, stored, stored'', end.Succeeding?)
  {
    hide Written, Reconciling, SR.EndingValue, SR.Follows, SR.Consistent;
    log' := log;
    if SR.Consistent(read, stored) {
      var states, events := SR.RunLog(read, stored, text, now, fate, between, stored', end, fate', ok, copy, stored'');
      log' := Log(log.trace, states, events);
    }
  }

  lemma RefusedWrites(log: Log, read: Snapshot, stored: Snapshot, text: string, now: int, fate: Fate, copy: Snapshot, stored': Snapshot)
    returns (log': Log)
    requires read.generation != read.status.observedGeneration && Written(read, stored, fate, copy, stored', false)
    requires copy.generation == read.generation && copy.status == Reconciling(read.status, read.generation, text, now)
    ensures SR.Consistent(read, stored) ==> log'.Writes(read, stored, stored', false)
  {
    hide Written, Reconciling, SR.Follows, SR.Consistent;
    log' := log;
    if SR.Consistent(read, stored) {
      var states, events := SR.RefusedLog(read, stored, text, now, fate, copy, stored');
      log' := Log(log.trace, states, events);
    }
  }

  /** The cluster after a completed run. */
  ghost function AfterRun(objs: Objects, input: G.Input): Objects {
    Pruned(AppliedAll(objs, DesiredList(input)), input.pkg, Wanted(DesiredList(input)))
  }

  lemma ContinuesOn(a: seq<Objects>, b: seq<Objects>, c: seq<Objects>, pkg: S.Package, desired: seq<Manifest>)
    requires Continues(a, b, pkg, desired) && Continues(b, c, pkg, desired)
    ensures Continues(a, c, pkg, desired)
  {
    hide IsStep;
    var s, t, u := b[|a| - 1..], c[|b| - 1..], c[|a| - 1..];
    forall i | 0 <= i < |u| - 1 ensures IsStep(u[i], u[i + 1], pkg, desired) {
      if i + |a| < |b| {
        assert u[i] == s[i] && u[i + 1] == s[i + 1];
      } else {
        assert u[i] == t[i + |a| - |b|] && u[i + 1] == t[i + 1 + |a| - |b|];
      }
    }
  }

  // ---- what every run keeps ----------------------------------------------

  /** The run may not touch what is under this key: it is in another namespace, of another kind, or neither desired nor
      labelled with the Package's name. */
  predicate OffLimits(objs: Objects, k: Key, input: G.Input, wanted: set<Key>) {
    || k.ns != input.pkg.namespace || k.kind.Other?
    || (k !in wanted && (k in objs ==>
          "bigbang.dev/package" !in objs[k].labels || objs[k].labels["bigbang.dev/package"] != input.pkg.name))
  }

  /** Whatever happens in a run, such an object is the same in all of its states. */
  lemma RunFrames(before: seq<Objects>, after: seq<Objects>, input: G.Input, k: Key, i: nat)
    requires Continues(before, after, input.pkg, DesiredList(input)) && |before| - 1 <= i < |after|
    requires OffLimits(before[|before| - 1], k, input, Wanted(DesiredList(input)))
    ensures var first := before[|before| - 1];
            (k in after[i] <==> k in first) && (k in first ==> after[i][k] == first[k])
  {
    hide IsTrace, G.Desired;
    var upTo := after[..i + 1];
    OursByFields(before[|before| - 1], k, input.pkg);
    Shortened(before, after, input.pkg, DesiredList(input), i);
    StaysAtEnd(before, upTo, input, k);
  }

  lemma Shortened(before: seq<Objects>, after: seq<Objects>, pkg: S.Package, desired: seq<Manifest>, i: nat)
    requires Continues(before, after, pkg, desired) && |before| - 1 <= i < |after|
    ensures Continues(before, after[..i + 1], pkg, desired)
  {
    hide IsStep;
    var t, u := after[|before| - 1..], after[..i + 1][|before| - 1..];
    assert forall j :: 0 <= j < |u| ==> u[j] == t[j];
  }

  /** After a completed run no stale object is left: whatever is of a managed kind, in the namespace and labelled with
      the Package's name is desired. */
  lemma NothingStale(objs: Objects, input: G.Input, k: Key)
    requires G.Desired(input).Ok? && k in AfterRun(objs, input)
    requires var s := AfterRun(objs, input)[k];
             && k.kind.Managed? && k.ns == input.pkg.namespace
             && "bigbang.dev/package" in s.labels && s.labels["bigbang.dev/package"] == input.pkg.name
    ensures k in Wanted(DesiredList(input))
  {
    hide G.Desired, AppliedAll, Pruned, Wanted, IsOurs;
    RunCompletes(objs, input);
    OursByFields(AfterRun(objs, input), k, input.pkg);
    assert k in Ours(AfterRun(objs, input), input.pkg);
    hide AfterRun;
  }

  /** The kind an object of this content belongs to. */
  predicate KindFits(kind: Kind, body: Body) {
    && (body.NetworkPolicy? ==> kind == NetworkPolicyKind)
    && (body.AuthorizationPolicy? || body.AllowNothing? ==> kind == AuthorizationPolicyKind)
    && (body.VirtualService? ==> kind == VirtualServiceKind)
    && (body.ServiceEntry? ==> kind == ServiceEntryKind)
    && (body.Raw? ==> kind == body.kind)
  }

  /** After a completed run every desired object stands under its own kind, the Package's namespace and its own name, with
      its content, unless a later one of that kind and name took its place. */
  lemma DesiredInPlace(objs: Objects, input: G.Input, i: nat, kind: Kind)
    requires G.Desired(input).Ok? && i < |DesiredList(input)| && KindFits(kind, DesiredList(input)[i].body)
    requires forall j :: i < j < |DesiredList(input)| && DesiredList(input)[j].name == DesiredList(input)[i].name ==>
               !KindFits(kind, DesiredList(input)[j].body)
    ensures var m, k := DesiredList(input)[i], Key(Managed(kind), input.pkg.namespace, DesiredList(input)[i].name);
            && k in AfterRun(objs, input) && AfterRun(objs, input)[k].body == m.body
            && (forall l :: l in m.labels ==> l in AfterRun(objs, input)[k].labels && AfterRun(objs, input)[k].labels[l] == m.labels[l])
  {
    hide G.Desired, AppliedAll, Pruned;
    var desired := DesiredList(input);
    var m, k := desired[i], Key(Managed(kind), input.pkg.namespace, desired[i].name);
    DesiredStamped(input);
    assert m in desired && m.namespace == input.pkg.namespace;
    forall j | 0 <= j < |desired| ensures KeyOf(desired[j]) == k <==> KindFits(kind, desired[j].body) && desired[j].name == m.name {
      assert desired[j] in desired;
      KindOf(kind, desired[j].body);
    }
    hide KindFits, KeyOf;
    assert KeyOf(desired[i]) == k && k in Wanted(desired);
    LastAt(desired, k, i);
    RunCompletes(objs, input);
    assert k in Ours(AfterRun(objs, input), input.pkg);
    hide AfterRun, Wanted;
  }

  lemma KindOf(kind: Kind, body: Body)
    ensures KindFits(kind, body) <==> kind == body.Kind()
  {
  }

  lemma {:induction false} LastAt(ms: seq<Manifest>, k: Key, i: nat)
    requires i < |ms| && KeyOf(ms[i]) == k && forall j :: i < j < |ms| ==> KeyOf(ms[j]) != k
    ensures k in Wanted(ms) && LastFor(ms, k) == ms[i]
    decreases |ms|
  {
    hide KeyOf;
    assert ms[i] in ms && KeyOf(ms[i]) in Wanted(ms);
    if i < |ms| - 1 {
      LastAt(ms[..|ms| - 1], k, i);
    }
  }

  lemma StaysAtEnd(before: seq<Objects>, after: seq<Objects>, input: G.Input, k: Key)
    requires Continues(before, after, input.pkg, DesiredList(input))
    requires k.ns != input.pkg.namespace || k.kind.Other? || Outsider(before[|before| - 1], k, input.pkg, DesiredList(input))
    ensures var first, last := before[|before| - 1], after[|after| - 1];
            (k in last <==> k in first) && (k in first ==> last[k] == first[k])
  {
    hide IsTrace, CarriesLabel, G.Desired;
    DesiredStamped(input);
    var first, desired := before[|before| - 1], DesiredList(input);
    assert k.ns != input.pkg.namespace || k.kind.Other? ==> Outsider(first, k, input.pkg, desired);
    TraceFrames(after[|before| - 1..], input.pkg, desired, k);
  }

  /** Whatever happens in a run, the distance to the goal does not grow between any two of its states. */
  lemma RunProgress(before: seq<Objects>, after: seq<Objects>, input: G.Input, i: nat)
    requires Continues(before, after, input.pkg, DesiredList(input)) && Distinct(DesiredList(input))
    requires |before| - 1 <= i < |after|
    ensures Measure(after[|after| - 1], input.pkg, DesiredList(input)) <= Measure(after[i], input.pkg, DesiredList(input))
  {
    hide IsTrace, G.Desired, Measure, Distinct, Stamped;
    DesiredStamped(input);
    TraceProgress(after[|before| - 1..], input.pkg, DesiredList(input), i - (|before| - 1));
  }

  /** A completed run brings the distance to zero, and running again from there changes nothing. */
  lemma RunCompletes(objs: Objects, input: G.Input)
    requires G.Desired(input).Ok?
    ensures Converged(AfterRun(objs, input), input.pkg, DesiredList(input))
    ensures AfterRun(AfterRun(objs, input), input) == AfterRun(objs, input)
    ensures Distinct(DesiredList(input)) ==> Measure(AfterRun(objs, input), input.pkg, DesiredList(input)) == 0
  {
    hide G.Desired, Measure, Distinct, Stamped, Converged, AppliedAll, Pruned, Wanted;
    DesiredStamped(input);
    RunConverges(objs, input.pkg, DesiredList(input));
    SecondRun(objs, input.pkg, DesiredList(input));
    if Distinct(DesiredList(input)) {
      GoalReached(AfterRun(objs, input), input.pkg, DesiredList(input));
    }
  }

  /** With distinct desired keys a run from a converged cluster passes through no other state. */
  lemma {:induction false} ConvergedRun(before: seq<Objects>, after: seq<Objects>, input: G.Input, i: nat)
    requires Continues(before, after, input.pkg, DesiredList(input)) && Distinct(DesiredList(input))
    requires Converged(before[|before| - 1], input.pkg, DesiredList(input))
    requires |before| - 1 <= i < |after|
    ensures after[i] == before[|before| - 1]
    decreases i
  {
    hide G.Desired, Distinct, Stamped, Converged, IsStep;
    if i >= |before| {
      ConvergedRun(before, after, input, i - 1);
      DesiredStamped(input);
      var t := after[|before| - 1..];
      assert t[i - |before|] == after[i - 1] && t[i - |before| + 1] == after[i];
      ConvergedStep(after[i - 1], after[i], input.pkg, DesiredList(input));
    }
  }

  /** A failed apply deletes nothing and touches desired keys only. */
  lemma FailedApply(before: Objects, after: Objects, desired: seq<Manifest>, k: Key)
    requires PartlyApplied(before, after, desired) && k in before
    ensures k in after && (k !in Wanted(desired) ==> after[k] == before[k])
  {
    hide AppliedAll, Current, LastFor, KeyOf;
    var part :| part <= desired && after == AppliedAll(before, part);
    AppliedContent(before, part, k);
    assert forall m :: m in part ==> m in desired;
  }
}
