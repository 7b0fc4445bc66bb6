/** Several Packages reconciled at the same time in one cluster. The individual calls of their runs interleave in any
    order, any call may fail with or without effect, and any run may be abandoned and started over. */
module Interleave {
  import opened Kube
  import opened Cluster
  import opened Convergence
  import opened Moves
  import S = Spec
  import M = Metadata

  /** The Packages and what each of them wants. */
  datatype Fleet = Fleet(pkgs: seq<S.Package>, desired: seq<seq<Manifest>>) {
    function Theirs(i: nat): set<Key>
      requires |desired| == |pkgs| && i < |pkgs|
    {
      set j, k | 0 <= j < |pkgs| && j != i && k in Wanted(desired[j]) :: k
    }

    /** Packages of one namespace have different names, and no two want the same object. */
    ghost predicate Valid() {
      && |desired| == |pkgs|
      && (forall i :: 0 <= i < |pkgs| ==> Stamped(desired[i], pkgs[i]))
      && (forall i, j :: 0 <= i < |pkgs| && 0 <= j < |pkgs| && i != j ==> pkgs[i].namespace != pkgs[j].namespace || pkgs[i].name != pkgs[j].name)
      && forall i, j :: 0 <= i < |pkgs| && 0 <= j < |pkgs| && i != j ==> Wanted(desired[i]) !! Wanted(desired[j])
    }
  }

  datatype State = State(objs: Objects, phases: seq<Phase>)

  // ---- moves -------------------------------------------------------------

  ghost predicate MoveOf(f: Fleet, i: nat, s: State, s': State) {
    && i < |f.pkgs| == |f.desired| == |s.phases| == |s'.phases|
    && s'.phases == s.phases[i := s'.phases[i]]
    && Move(f.pkgs[i], f.desired[i], s.objs, s.phases[i], s'.objs, s'.phases[i])
  }

  // ---- the invariant -----------------------------------------------------

  /** Nobody carries the label of one Package on an object another one wants. */
  ghost predicate NoConfusion(f: Fleet, objs: Objects)
    requires f.Valid()
  {
    forall i, k :: 0 <= i < |f.pkgs| && k in f.Theirs(i) ==> !IsOurs(objs, k, f.pkgs[i])
  }

  ghost predicate Placed(objs: Objects, ms: seq<Manifest>) {
    forall k :: k in Wanted(ms) ==> k in objs && Current(objs[k], LastFor(ms, k))
  }

  /** What a run has achieved so far, whatever the others do. */
  ghost predicate Achieved(pkg: S.Package, desired: seq<Manifest>, theirs: set<Key>, objs: Objects, p: Phase) {
    match p
    case Idle => true
    case Applying(n) => n <= |desired| && Placed(objs, desired[..n])
    case Sweeping(n, pending) =>
      && n <= |MANAGED_KINDS| && Placed(objs, desired)
      && (forall k :: k in pending ==> k !in theirs && (k in objs ==> IsOurs(objs, k, pkg)))
      && forall k :: IsOurs(objs, k, pkg) && k !in Wanted(desired) && k.kind.kind in MANAGED_KINDS[..n] ==> k in pending
    case Finished => Placed(objs, desired) && forall k :: IsOurs(objs, k, pkg) ==> k in Wanted(desired)
  }

  ghost predicate Inv(f: Fleet, s: State) {
    && f.Valid() && |s.phases| == |f.pkgs| && NoConfusion(f, s.objs)
    && forall i :: 0 <= i < |f.pkgs| ==> Achieved(f.pkgs[i], f.desired[i], f.Theirs(i), s.objs, s.phases[i])
  }

  // ---- the run that moves ------------------------------------------------

  lemma PlacedNone(objs: Objects, desired: seq<Manifest>)
    ensures Placed(objs, desired[..0])
  {
  }

  lemma PlacedMore(objs: Objects, desired: seq<Manifest>, n: nat)
    requires n < |desired| && Placed(objs, desired[..n])
    ensures Placed(Patched(objs, desired[n]), desired[..n + 1])
  {
    hide Current, Patched, KeyOf;
    var before, m := desired[..n], desired[n];
    var ms := desired[..n + 1];
    assert ms[..|ms| - 1] == before && ms[|ms| - 1] == m;
    WantedSnoc(ms);
    PatchedIsCurrent(objs, m);
    hide Wanted;
    forall k | k in Wanted(ms) ensures k in Patched(objs, m) && Current(Patched(objs, m)[k], LastFor(ms, k)) {
      if k != KeyOf(m) {
        assert k in Wanted(before) && LastFor(ms, k) == LastFor(before, k);
      }
    }
  }

  lemma PlacedAfterRemove(objs: Objects, desired: seq<Manifest>, k: Key)
    requires Placed(objs, desired) && k !in Wanted(desired)
    ensures Placed(Removed(objs, k), desired)
  {
  }

  /** A call keeps what its own run achieved, and is a step of that run: it applies a desired object or removes one
      that still carries the run's own label. */
  lemma OwnMove(pkg: S.Package, desired: seq<Manifest>, theirs: set<Key>, objs: Objects, p: Phase, objs': Objects, p': Phase)
    requires Achieved(pkg, desired, theirs, objs, p) && Move(pkg, desired, objs, p, objs', p')
    requires forall k :: k in theirs ==> !IsOurs(objs, k, pkg)
    ensures Achieved(pkg, desired, theirs, objs', p')
    ensures IsStep(objs, objs', pkg, desired)
  {
    hide CarriesLabel, Current, LastFor, KeyOf, Wanted, Placed, Patched, MANAGED_KINDS;
    PlacedNone(objs', desired);
    match p
    case Idle =>
    case Finished =>
    case Applying(n) =>
      if n < |desired| {
        PlacedMore(objs, desired, n);
      } else {
        assert desired[..n] == desired;
      }
    case Sweeping(n, pending) =>
      if pending == [] {
        if n < |MANAGED_KINDS| {
          assert MANAGED_KINDS[..n + 1] == MANAGED_KINDS[..n] + [MANAGED_KINDS[n]];
        } else {
          assert MANAGED_KINDS[..n] == MANAGED_KINDS;
          EveryKind();
        }
      } else {
        assert pending == [pending[0]] + pending[1..];
        if pending[0] !in Wanted(desired) {
          PlacedAfterRemove(objs, desired, pending[0]);
        }
      }
  }

  lemma EveryKind()
    ensures forall k: Kind :: k in MANAGED_KINDS
  {
    forall k: Kind ensures k in MANAGED_KINDS {
      AllKindsManaged(k);
    }
  }

  // ---- the others --------------------------------------------------------

  /** What one run achieved survives a change that touches only objects others want, besides removing objects it does
      not want. */
  lemma OthersKeep(pkg: S.Package, desired: seq<Manifest>, theirs: set<Key>, objs: Objects, p: Phase, objs': Objects)
    requires Achieved(pkg, desired, theirs, objs, p) && Wanted(desired) !! theirs
    requires forall k :: k in objs' && k !in theirs ==> k in objs && objs'[k] == objs[k]
    requires forall k :: k in Wanted(desired) && k in objs ==> k in objs'
    requires forall k :: k in theirs ==> !IsOurs(objs', k, pkg)
    ensures Achieved(pkg, desired, theirs, objs', p)
  {
    hide CarriesLabel, Current, LastFor, KeyOf, Wanted, MANAGED_KINDS, Placed;
    if p.Applying? {
      WantedPart(desired, p.next);
      PlacedKept(objs, objs', desired[..p.next]);
    } else if !p.Idle? {
      PlacedKept(objs, objs', desired);
    }
  }

  lemma WantedPart(ms: seq<Manifest>, n: nat)
    requires n <= |ms|
    ensures Wanted(ms[..n]) <= Wanted(ms)
  {
    hide KeyOf;
    assert forall m :: m in ms[..n] ==> m in ms;
  }

  lemma PlacedKept(objs: Objects, objs': Objects, ms: seq<Manifest>)
    requires Placed(objs, ms) && forall k :: k in Wanted(ms) && k in objs ==> k in objs' && objs'[k] == objs[k]
    ensures Placed(objs', ms)
  {
    hide Current, LastFor, Wanted;
  }

  /** What a move of package `i` does to the cluster, as seen by package `j`. */
  lemma SeenByOthers(f: Fleet, i: nat, j: nat, s: State, s': State)
    requires Inv(f, s) && MoveOf(f, i, s, s') && j < |f.pkgs| && j != i
    ensures forall k :: k in s'.objs && k !in f.Theirs(j) ==> k in s.objs && s'.objs[k] == s.objs[k]
    ensures forall k :: k in Wanted(f.desired[j]) && k in s.objs ==> k in s'.objs
  {
    hide CarriesLabel, Current, LastFor, KeyOf, Patched, MANAGED_KINDS, Listed, NoConfusion, Placed, Stamped;
    var p := s.phases[i];
    assert Achieved(f.pkgs[i], f.desired[i], f.Theirs(i), s.objs, p);
    if p.Applying? && p.next < |f.desired[i]| {
      var m := f.desired[i][p.next];
      PatchedIsCurrent(s.objs, m);
      assert m in f.desired[i] && KeyOf(m) in Wanted(f.desired[i]);
      assert KeyOf(m) in f.Theirs(j);
    }
    if p.Sweeping? && p.pending != [] {
      assert p.pending[0] in p.pending;
    }
    assert forall k :: k in Wanted(f.desired[j]) ==> k in f.Theirs(i);
  }

  /** No move gives an object another Package wants one's own label. */
  lemma StillNoConfusion(f: Fleet, i: nat, s: State, s': State)
    requires Inv(f, s) && MoveOf(f, i, s, s')
    ensures NoConfusion(f, s'.objs)
  {
    hide Current, LastFor, Patched, MANAGED_KINDS, Listed, Placed, Wanted, Achieved;
    var p := s.phases[i];
    forall j, k | 0 <= j < |f.pkgs| && k in f.Theirs(j) ensures !IsOurs(s'.objs, k, f.pkgs[j]) {
      assert !IsOurs(s.objs, k, f.pkgs[j]);
      if p.Applying? && p.next < |f.desired[i]| {
        var m := f.desired[i][p.next];
        PatchedLabel(f, i, j, s.objs, m, k);
        assert s'.objs == s.objs || s'.objs == Patched(s.objs, m);
      }
    }
  }

  lemma PatchedLabel(f: Fleet, i: nat, j: nat, objs: Objects, m: Manifest, k: Key)
    requires f.Valid() && i < |f.pkgs| && j < |f.pkgs| && m in f.desired[i] && k in f.Theirs(j) && !IsOurs(objs, k, f.pkgs[j])
    ensures !IsOurs(Patched(objs, m), k, f.pkgs[j])
  {
    hide Current, LastFor;
    PatchedIsCurrent(objs, m);
    assert KeyOf(m) in Wanted(f.desired[i]);
    if k == KeyOf(m) {
      assert j != i;
      assert Patched(objs, m)[k].labels[M.PACKAGE_LABEL] == f.pkgs[i].name;
    }
  }

  /** Every move keeps the invariant. */
  lemma MoveKeepsInv(f: Fleet, i: nat, s: State, s': State)
    requires Inv(f, s) && MoveOf(f, i, s, s')
    ensures Inv(f, s')
    ensures IsStep(s.objs, s'.objs, f.pkgs[i], f.desired[i])
  {
    hide Achieved, Move, IsOurs, Wanted, IsStep, Stamped;
    StillNoConfusion(f, i, s, s');
    OwnMove(f.pkgs[i], f.desired[i], f.Theirs(i), s.objs, s.phases[i], s'.objs, s'.phases[i]);
    forall j | 0 <= j < |f.pkgs| && j != i ensures Achieved(f.pkgs[j], f.desired[j], f.Theirs(j), s'.objs, s'.phases[j]) {
      SeenByOthers(f, i, j, s, s');
      TheirsDisjoint(f, j);
      OthersKeep(f.pkgs[j], f.desired[j], f.Theirs(j), s.objs, s.phases[j], s'.objs);
    }
  }

  lemma TheirsDisjoint(f: Fleet, i: nat)
    requires f.Valid() && i < |f.pkgs|
    ensures Wanted(f.desired[i]) !! f.Theirs(i)
  {
    hide Wanted, Stamped;
  }

  // ---- executions --------------------------------------------------------

  /** The runs start idle, and nobody carries the label of one Package on an object another one wants. */
  ghost predicate Init(f: Fleet, s: State) {
    && f.Valid() && |s.phases| == |f.pkgs| && (forall i :: 0 <= i < |s.phases| ==> s.phases[i] == Idle)
    && NoConfusion(f, s.objs)
  }

  /** `movers[n]` made the move from state `n` to the next. */
  ghost predicate Execution(f: Fleet, states: seq<State>, movers: seq<nat>) {
    && |states| == |movers| + 1 && Init(f, states[0])
    && forall n :: 0 <= n < |movers| ==> MoveOf(f, movers[n], states[n], states[n + 1])
  }

  lemma {:induction false} InvAlways(f: Fleet, states: seq<State>, movers: seq<nat>, n: nat)
    requires Execution(f, states, movers) && n < |states|
    ensures Inv(f, states[n])
    decreases n
  {
    hide MoveOf, NoConfusion;
    if n > 0 {
      InvAlways(f, states, movers, n - 1);
      MoveKeepsInv(f, movers[n - 1], states[n - 1], states[n]);
    }
  }

  /** Under every interleaving a Package whose run has finished owns exactly what it wants, with the right content, and
      it keeps doing so however the others go on. */
  lemma FinishedConverged(f: Fleet, states: seq<State>, movers: seq<nat>, n: nat, i: nat)
    requires Execution(f, states, movers) && n < |states| && i < |f.pkgs| && i < |states[n].phases| && states[n].phases[i] == Finished
    ensures Converged(states[n].objs, f.pkgs[i], f.desired[i])
  {
    InvAlways(f, states, movers, n);
    hide Execution, NoConfusion, KeyOf, CarriesLabel, Current, LastFor;
    var objs := states[n].objs;
    assert Achieved(f.pkgs[i], f.desired[i], f.Theirs(i), objs, Finished);
    forall k | k in Wanted(f.desired[i]) ensures IsOurs(objs, k, f.pkgs[i]) {
      StampedIsOurs(objs, f.pkgs[i], LastFor(f.desired[i], k), k);
    }
    hide Wanted;
  }

  /** No move deletes or overwrites an object another Package wants: whatever disappears carried the label of the
      Package that deleted it and was wanted by nobody. */
  lemma NothingStolen(f: Fleet, states: seq<State>, movers: seq<nat>, n: nat, k: Key)
    requires Execution(f, states, movers) && n < |movers| && k in states[n].objs
    ensures movers[n] < |f.pkgs|
    ensures k !in states[n + 1].objs ==>
              && k.kind.Managed? && k.ns == f.pkgs[movers[n]].namespace
              && "bigbang.dev/package" in states[n].objs[k].labels
              && states[n].objs[k].labels["bigbang.dev/package"] == f.pkgs[movers[n]].name
              && forall j :: 0 <= j < |f.pkgs| ==> k !in Wanted(f.desired[j])
    ensures forall j :: 0 <= j < |f.pkgs| && j != movers[n] && k in Wanted(f.desired[j]) ==>
              k in states[n + 1].objs && states[n + 1].objs[k] == states[n].objs[k]
  {
    InvAlways(f, states, movers, n);
    var i, s, s' := movers[n], states[n], states[n + 1];
    assert MoveOf(f, i, s, s');
    hide Execution, MoveOf, Achieved, IsOurs, CarriesLabel, Stamped, NoConfusion;
    MoveKeepsInv(f, i, s, s');
    forall j | 0 <= j < |f.pkgs| && j != i && k in Wanted(f.desired[j])
      ensures k in s'.objs && s'.objs[k] == s.objs[k]
    {
      SeenByOthers(f, i, j, s, s');
      TheirsDisjoint(f, j);
    }
    if k !in s'.objs {
      GoneIsOurs(s.objs, s'.objs, f.pkgs[i], f.desired[i], k);
      OursByFields(s.objs, k, f.pkgs[i]);
    }
  }

  lemma GoneIsOurs(a: Objects, b: Objects, pkg: S.Package, desired: seq<Manifest>, k: Key)
    requires IsStep(a, b, pkg, desired) && k in a && k !in b
    ensures IsOurs(a, k, pkg) && k !in Wanted(desired)
  {
    hide KeyOf, CarriesLabel, Wanted;
  }
}
