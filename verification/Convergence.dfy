/** What one reconcile does to the cluster, as a relation between states: every step is an apply of a desired object
    or the removal of a stale one. */
module Convergence {
  import opened Common
  import opened Kube
  import opened Cluster
  import S = Spec
  import M = Metadata

  // ---- applying a list ---------------------------------------------------

  function AppliedAll(objs: Objects, ms: seq<Manifest>): Objects {
    if ms == [] then objs else Patched(AppliedAll(objs, ms[..|ms| - 1]), ms[|ms| - 1])
  }

  /** The manifest that is applied last under a key. */
  function LastFor(ms: seq<Manifest>, k: Key): (m: Manifest)
    requires k in Wanted(ms)
    ensures m in ms && KeyOf(m) == k
  {
    var init, last := ms[..|ms| - 1], ms[|ms| - 1];
    assert ms == init + [last];
    if KeyOf(last) == k then last else LastFor(init, k)
  }

  lemma WantedSnoc(ms: seq<Manifest>)
    requires ms != []
    ensures Wanted(ms) == Wanted(ms[..|ms| - 1]) + {KeyOf(ms[|ms| - 1])}
  {
    assert ms == ms[..|ms| - 1] + [ms[|ms| - 1]];
  }

  lemma PatchedIsCurrent(objs: Objects, m: Manifest)
    ensures KeyOf(m) in Patched(objs, m) && Current(Patched(objs, m)[KeyOf(m)], m)
    ensures forall k :: k != KeyOf(m) ==> (k in Patched(objs, m) <==> k in objs)
    ensures forall k :: k != KeyOf(m) && k in objs ==> Patched(objs, m)[k] == objs[k]
  {
  }

  /** An object with a manifest's content consists of that content and of what others contributed. */
  lemma CurrentForm(objs: Objects, k: Key, m: Manifest)
    requires k in objs && Current(objs[k], m)
    ensures objs[k] == Stored(m.body, ForeignLabels(objs, k) + m.labels, ForeignAnnotations(objs, k) + m.annotations,
                              m.labels.Keys, m.annotations.Keys)
  {
    assert ForeignLabels(objs, k) + m.labels == objs[k].labels;
    assert ForeignAnnotations(objs, k) + m.annotations == objs[k].annotations;
  }

  /** Applying an object that is already as desired changes nothing. */
  lemma CurrentStays(objs: Objects, m: Manifest)
    requires KeyOf(m) in objs && Current(objs[KeyOf(m)], m)
    ensures Patched(objs, m) == objs
  {
    hide Current, ForeignLabels, ForeignAnnotations, KeyOf;
    CurrentForm(objs, KeyOf(m), m);
  }

  /** Applying a list leaves each desired key with its last manifest and every other key alone. */
  lemma {:induction false} AppliedContent(objs: Objects, ms: seq<Manifest>, k: Key)
    ensures k in AppliedAll(objs, ms) <==> k in objs || k in Wanted(ms)
    ensures k in Wanted(ms) ==> Current(AppliedAll(objs, ms)[k], LastFor(ms, k))
    ensures k !in Wanted(ms) && k in objs ==> AppliedAll(objs, ms)[k] == objs[k]
    decreases |ms|
  {
    hide Current, Patched, KeyOf;
    if ms != [] {
      var init, last := ms[..|ms| - 1], ms[|ms| - 1];
      WantedSnoc(ms);
      AppliedContent(objs, init, k);
      PatchedIsCurrent(AppliedAll(objs, init), last);
      hide Wanted;
    }
  }

  // ---- the sweep ---------------------------------------------------------

  /** Everything of the Package that is not wanted any more is gone. */
  function Pruned(objs: Objects, pkg: S.Package, keep: set<Key>): Objects {
    map k | k in objs && (k in keep || !IsOurs(objs, k, pkg)) :: objs[k]
  }

  /** The Package's objects are exactly the desired ones, each with the content applied last. */
  ghost predicate Converged(objs: Objects, pkg: S.Package, desired: seq<Manifest>) {
    && Ours(objs, pkg) == Wanted(desired)
    && forall k :: k in Wanted(desired) ==> Current(objs[k], LastFor(desired, k))
  }

  lemma StampedIsOurs(objs: Objects, pkg: S.Package, m: Manifest, k: Key)
    requires m.namespace == pkg.namespace && M.PACKAGE_LABEL in m.labels && m.labels[M.PACKAGE_LABEL] == pkg.name
    requires KeyOf(m) == k && k in objs && Current(objs[k], m)
    ensures IsOurs(objs, k, pkg)
  {
  }

  /** A completed apply and a completed sweep converge, from any cluster state. */
  lemma RunConverges(objs: Objects, pkg: S.Package, desired: seq<Manifest>)
    requires Stamped(desired, pkg)
    ensures Converged(Pruned(AppliedAll(objs, desired), pkg, Wanted(desired)), pkg, desired)
  {
    hide Current, AppliedAll, CarriesLabel, KeyOf, LastFor;
    var applied := AppliedAll(objs, desired);
    var after := Pruned(applied, pkg, Wanted(desired));
    forall k | k in Wanted(desired) ensures k in after && Current(after[k], LastFor(desired, k)) && IsOurs(after, k, pkg) {
      AppliedContent(objs, desired, k);
      StampedIsOurs(after, pkg, LastFor(desired, k), k);
    }
    hide Wanted;
    forall k | IsOurs(after, k, pkg) ensures k in Wanted(desired) {
      assert IsOurs(applied, k, pkg);
    }
  }

  // ---- a second run ------------------------------------------------------

  /** The label keys the manifests under `k` claim. */
  function Claimed(ms: seq<Manifest>, k: Key): set<string> {
    set m, l | m in ms && KeyOf(m) == k && l in m.labels :: l
  }

  function ClaimedAnnotations(ms: seq<Manifest>, k: Key): set<string> {
    set m, l | m in ms && KeyOf(m) == k && l in m.annotations :: l
  }

  lemma ClaimedSnoc(ms: seq<Manifest>, k: Key)
    requires ms != []
    ensures var init, last := ms[..|ms| - 1], ms[|ms| - 1];
            && Claimed(ms, k) == Claimed(init, k) + (if KeyOf(last) == k then last.labels.Keys else {})
            && ClaimedAnnotations(ms, k) == ClaimedAnnotations(init, k) + (if KeyOf(last) == k then last.annotations.Keys else {})
  {
    hide KeyOf;
    var init, last := ms[..|ms| - 1], ms[|ms| - 1];
    assert ms == init + [last];
    assert forall m :: m in ms <==> m in init || m == last;
  }

  /** What other writers contributed survives a list of applies except where the list claims the key. */
  lemma {:induction false} ForeignAfter(objs: Objects, ms: seq<Manifest>, k: Key)
    ensures ForeignLabels(AppliedAll(objs, ms), k) == Without(ForeignLabels(objs, k), Claimed(ms, k))
    ensures ForeignAnnotations(AppliedAll(objs, ms), k) == Without(ForeignAnnotations(objs, k), ClaimedAnnotations(ms, k))
    decreases |ms|
  {
    hide KeyOf, Claimed, ClaimedAnnotations, ForeignLabels, ForeignAnnotations, Patched, Without;
    if ms != [] {
      var init, last := ms[..|ms| - 1], ms[|ms| - 1];
      ForeignAfter(objs, init, k);
      ClaimedSnoc(ms, k);
      ForeignStep(AppliedAll(objs, init), last, k);
      WithoutBoth(ForeignLabels(objs, k), Claimed(init, k), if KeyOf(last) == k then last.labels.Keys else {});
      WithoutBoth(ForeignAnnotations(objs, k), ClaimedAnnotations(init, k), if KeyOf(last) == k then last.annotations.Keys else {});
    } else {
      NothingClaimed(objs, k);
    }
  }

  lemma NothingClaimed(objs: Objects, k: Key)
    ensures Without(ForeignLabels(objs, k), Claimed([], k)) == ForeignLabels(objs, k)
    ensures Without(ForeignAnnotations(objs, k), ClaimedAnnotations([], k)) == ForeignAnnotations(objs, k)
  {
    hide ForeignLabels, ForeignAnnotations;
  }

  lemma WithoutBoth(m: Labels, a: set<string>, b: set<string>)
    ensures Without(Without(m, a), b) == Without(m, a + b)
  {
  }

  lemma ForeignStep(objs: Objects, m: Manifest, k: Key)
    ensures ForeignLabels(Patched(objs, m), k) == Without(ForeignLabels(objs, k), if KeyOf(m) == k then m.labels.Keys else {})
    ensures ForeignAnnotations(Patched(objs, m), k) == Without(ForeignAnnotations(objs, k), if KeyOf(m) == k then m.annotations.Keys else {})
  {
    hide KeyOf;
  }

  /** The object under a desired key, from what others contributed and the manifests alone. */
  lemma {:induction false} AppliedObject(objs: Objects, ms: seq<Manifest>, k: Key)
    requires k in Wanted(ms)
    ensures k in AppliedAll(objs, ms)
    ensures var last := LastFor(ms, k);
            AppliedAll(objs, ms)[k] ==
            Stored(last.body, Without(ForeignLabels(objs, k), Claimed(ms, k)) + last.labels,
                   Without(ForeignAnnotations(objs, k), ClaimedAnnotations(ms, k)) + last.annotations, last.labels.Keys, last.annotations.Keys)
  {
    hide KeyOf, LastFor, AppliedAll, Claimed, ClaimedAnnotations, Wanted, Current, Without, ForeignLabels, ForeignAnnotations;
    AppliedContent(objs, ms, k);
    ForeignAfter(objs, ms, k);
    CurrentForm(AppliedAll(objs, ms), k, LastFor(ms, k));
  }

  /** Running again right after a completed run changes nothing in the end, even when several desired objects share a
      key. */
  lemma SecondRun(objs: Objects, pkg: S.Package, desired: seq<Manifest>)
    requires Stamped(desired, pkg)
    ensures var once := Pruned(AppliedAll(objs, desired), pkg, Wanted(desired));
            Pruned(AppliedAll(once, desired), pkg, Wanted(desired)) == once
  {
    hide AppliedAll, Current, KeyOf, LastFor, Wanted, Stamped, IsOurs;
    var applied := AppliedAll(objs, desired);
    var once := Pruned(applied, pkg, Wanted(desired));
    var again := AppliedAll(once, desired);
    forall k ensures (k in again <==> k in once) && (k in once ==> again[k] == once[k]) {
      AppliedContent(once, desired, k);
      AppliedContent(objs, desired, k);
      if k in Wanted(desired) {
        AppliedObject(once, desired, k);
        AppliedObject(objs, desired, k);
        ForeignAfter(objs, desired, k);
        SameForeign(applied, once, k);
        WithoutTwice(ForeignLabels(objs, k), Claimed(desired, k));
        WithoutTwice(ForeignAnnotations(objs, k), ClaimedAnnotations(desired, k));
      }
    }
    assert again == once;
    PrunedTwice(applied, pkg, Wanted(desired));
  }

  lemma SameForeign(a: Objects, b: Objects, k: Key)
    requires k in a && k in b && a[k] == b[k]
    ensures ForeignLabels(a, k) == ForeignLabels(b, k) && ForeignAnnotations(a, k) == ForeignAnnotations(b, k)
  {
  }

  lemma WithoutTwice(m: Labels, keys: set<string>)
    ensures Without(Without(m, keys), keys) == Without(m, keys)
  {
  }

  lemma PrunedTwice(objs: Objects, pkg: S.Package, keep: set<Key>)
    ensures Pruned(Pruned(objs, pkg, keep), pkg, keep) == Pruned(objs, pkg, keep)
  {
    hide CarriesLabel;
  }

  // ---- steps -------------------------------------------------------------

  /** What a single call of a run may do: nothing, apply a desired object, or remove a stale one. */
  ghost predicate IsStep(a: Objects, b: Objects, pkg: S.Package, desired: seq<Manifest>) {
    || b == a
    || (exists m :: m in desired && b == Patched(a, m))
    || (exists k :: k !in Wanted(desired) && IsOurs(a, k, pkg) && b == Removed(a, k))
  }

  /** A sequence of states connected by steps. */
  ghost predicate IsTrace(states: seq<Objects>, pkg: S.Package, desired: seq<Manifest>) {
    forall i :: 0 <= i < |states| - 1 ==> IsStep(states[i], states[i + 1], pkg, desired)
  }

  /** An object the run may not touch: not desired, and not one of the Package's. */
  predicate Outsider(objs: Objects, k: Key, pkg: S.Package, desired: seq<Manifest>) {
    k !in Wanted(desired) && !IsOurs(objs, k, pkg)
  }

  lemma StepFrames(a: Objects, b: Objects, pkg: S.Package, desired: seq<Manifest>, k: Key)
    requires IsStep(a, b, pkg, desired) && Outsider(a, k, pkg, desired)
    ensures Outsider(b, k, pkg, desired) && (k in b <==> k in a) && (k in a ==> b[k] == a[k])
  {
    hide CarriesLabel, KeyOf;
    if m :| m in desired && b == Patched(a, m) {
      assert KeyOf(m) in Wanted(desired);
    }
  }

  /** No state of a run differs from the first in an object that is neither desired nor the Package's. */
  lemma {:induction false} TraceFrames(states: seq<Objects>, pkg: S.Package, desired: seq<Manifest>, k: Key)
    requires states != [] && IsTrace(states, pkg, desired) && Outsider(states[0], k, pkg, desired)
    ensures var last := states[|states| - 1];
            Outsider(last, k, pkg, desired) && (k in last <==> k in states[0]) && (k in last ==> last[k] == states[0][k])
    decreases |states|
  {
    hide IsStep, Outsider;
    if |states| > 1 {
      var init := states[..|states| - 1];
      TraceFrames(init, pkg, desired, k);
      StepFrames(states[|states| - 2], states[|states| - 1], pkg, desired, k);
    }
  }

  // ---- progress ----------------------------------------------------------

  ghost predicate Distinct(desired: seq<Manifest>) {
    forall i, j :: 0 <= i < j < |desired| ==> KeyOf(desired[i]) != KeyOf(desired[j])
  }

  /** Desired keys whose object is missing or has other content. */
  ghost function Wrong(objs: Objects, desired: seq<Manifest>): set<Key> {
    set k | k in Wanted(desired) && !(k in objs && Current(objs[k], LastFor(desired, k)))
  }

  function Stale(objs: Objects, pkg: S.Package, desired: seq<Manifest>): set<Key> { Ours(objs, pkg) - Wanted(desired) }

  ghost function Measure(objs: Objects, pkg: S.Package, desired: seq<Manifest>): nat {
    |Wrong(objs, desired)| + |Stale(objs, pkg, desired)|
  }

  lemma OnlyManifest(desired: seq<Manifest>, m: Manifest)
    requires Distinct(desired) && m in desired
    ensures KeyOf(m) in Wanted(desired) && LastFor(desired, KeyOf(m)) == m
  {
    hide KeyOf, LastFor;
    assert KeyOf(m) in Wanted(desired);
    var last := LastFor(desired, KeyOf(m));
    var i :| 0 <= i < |desired| && desired[i] == m;
    var j :| 0 <= j < |desired| && desired[j] == last;
  }

  lemma PatchProgress(a: Objects, m: Manifest, pkg: S.Package, desired: seq<Manifest>)
    requires Distinct(desired) && Stamped(desired, pkg) && m in desired
    ensures Measure(Patched(a, m), pkg, desired) <= Measure(a, pkg, desired)
    ensures Patched(a, m) != a ==> Measure(Patched(a, m), pkg, desired) < Measure(a, pkg, desired)
  {
    hide Current, KeyOf, LastFor, Patched, Distinct, Stamped, Wanted, Stale, Wrong;
    var b, k := Patched(a, m), KeyOf(m);
    OnlyManifest(desired, m);
    PatchedStale(a, m, pkg, desired);
    PatchedWrong(a, m, desired);
    if b != a {
      if k !in Wrong(a, desired) {
        NotWrong(a, k, desired);
        CurrentStays(a, m);
        assert false;
      }
    }
  }

  lemma NotWrong(objs: Objects, k: Key, desired: seq<Manifest>)
    requires k in Wanted(desired) && k !in Wrong(objs, desired)
    ensures k in objs && Current(objs[k], LastFor(desired, k))
  {
    hide Current, LastFor, Wanted;
  }

  lemma PatchedStale(a: Objects, m: Manifest, pkg: S.Package, desired: seq<Manifest>)
    requires KeyOf(m) in Wanted(desired)
    ensures Stale(Patched(a, m), pkg, desired) == Stale(a, pkg, desired)
  {
    hide Current, KeyOf, LastFor, Patched, CarriesLabel, Wanted;
    PatchedIsCurrent(a, m);
    assert forall q :: q != KeyOf(m) ==> (IsOurs(Patched(a, m), q, pkg) <==> IsOurs(a, q, pkg));
    hide IsOurs;
  }

  lemma PatchedWrong(a: Objects, m: Manifest, desired: seq<Manifest>)
    requires KeyOf(m) in Wanted(desired) && LastFor(desired, KeyOf(m)) == m
    ensures Wrong(Patched(a, m), desired) == Wrong(a, desired) - {KeyOf(m)}
  {
    hide Current, KeyOf, LastFor, Patched, Wanted;
    PatchedIsCurrent(a, m);
  }

  lemma RemoveProgress(a: Objects, k: Key, pkg: S.Package, desired: seq<Manifest>)
    requires k !in Wanted(desired) && IsOurs(a, k, pkg)
    ensures Measure(Removed(a, k), pkg, desired) == Measure(a, pkg, desired) - 1
  {
    hide Current, LastFor, Wanted, CarriesLabel;
    var b := Removed(a, k);
    assert Stale(b, pkg, desired) == Stale(a, pkg, desired) - {k};
    assert k in Stale(a, pkg, desired);
    assert Wrong(b, desired) == Wrong(a, desired);
  }

  /** The distance to the goal never grows, whatever calls fail, and every step that changes anything makes it
      smaller. */
  lemma StepProgress(a: Objects, b: Objects, pkg: S.Package, desired: seq<Manifest>)
    requires Distinct(desired) && Stamped(desired, pkg) && IsStep(a, b, pkg, desired)
    ensures Measure(b, pkg, desired) <= Measure(a, pkg, desired)
    ensures b != a ==> Measure(b, pkg, desired) < Measure(a, pkg, desired)
  {
    hide Measure, Distinct, Stamped, Patched, Removed, IsOurs, Wanted;
    if b != a {
      if m :| m in desired && b == Patched(a, m) {
        PatchProgress(a, m, pkg, desired);
      } else {
        var k :| k !in Wanted(desired) && IsOurs(a, k, pkg) && b == Removed(a, k);
        RemoveProgress(a, k, pkg, desired);
      }
    }
  }

  lemma {:induction false} TraceProgress(states: seq<Objects>, pkg: S.Package, desired: seq<Manifest>, i: nat)
    requires Distinct(desired) && Stamped(desired, pkg) && IsTrace(states, pkg, desired) && i < |states|
    ensures Measure(states[|states| - 1], pkg, desired) <= Measure(states[i], pkg, desired)
    decreases |states|
  {
    hide Measure, Distinct, Stamped, IsStep;
    if i < |states| - 1 {
      TraceProgress(states[..|states| - 1], pkg, desired, i);
      StepProgress(states[|states| - 2], states[|states| - 1], pkg, desired);
    }
  }

  /** Nothing is left to do exactly when the cluster has converged. */
  lemma GoalReached(objs: Objects, pkg: S.Package, desired: seq<Manifest>)
    requires Distinct(desired) && Stamped(desired, pkg)
    ensures Measure(objs, pkg, desired) == 0 <==> Converged(objs, pkg, desired)
  {
    hide Current, LastFor, CarriesLabel, KeyOf;
    assert Measure(objs, pkg, desired) == 0 <==> Wrong(objs, desired) == {} && Stale(objs, pkg, desired) == {};
    if Wrong(objs, desired) == {} {
      forall k | k in Wanted(desired) ensures k in objs && IsOurs(objs, k, pkg) && Current(objs[k], LastFor(desired, k)) {
        assert k !in Wrong(objs, desired);
        StampedIsOurs(objs, pkg, LastFor(desired, k), k);
      }
    }
    if Converged(objs, pkg, desired) {
      assert forall k :: k in Wanted(desired) ==> k in Ours(objs, pkg);
    }
    hide Wanted, IsOurs;
  }

  /** Once converged, no step of a run changes anything. */
  lemma ConvergedStep(a: Objects, b: Objects, pkg: S.Package, desired: seq<Manifest>)
    requires Distinct(desired) && Stamped(desired, pkg) && Converged(a, pkg, desired) && IsStep(a, b, pkg, desired)
    ensures b == a
  {
    hide Measure, Distinct, Stamped, IsStep, Converged;
    GoalReached(a, pkg, desired);
    StepProgress(a, b, pkg, desired);
  }
}
