/** The calls of one run as moves of a small machine: how far the run has got and what each call does to the cluster. */
module Moves {
  import opened Kube
  import opened Cluster
  import S = Spec

  /** Every kind the generator may emit; the sweep looks at these. */
  const MANAGED_KINDS: seq<Kind> := [NetworkPolicyKind, PeerAuthenticationKind, AuthorizationPolicyKind, VirtualServiceKind,
                                     ServiceEntryKind, SidecarKind]

  lemma AllKindsManaged(k: Kind)
    ensures k in MANAGED_KINDS
  {
    match k
    case NetworkPolicyKind => assert MANAGED_KINDS[0] == k;
    case PeerAuthenticationKind => assert MANAGED_KINDS[1] == k;
    case AuthorizationPolicyKind => assert MANAGED_KINDS[2] == k;
    case VirtualServiceKind => assert MANAGED_KINDS[3] == k;
    case ServiceEntryKind => assert MANAGED_KINDS[4] == k;
    case SidecarKind => assert MANAGED_KINDS[5] == k;
  }

  /** How far a run has got: the next object to apply, or the kinds listed and the listed keys still to look at. */
  datatype Phase = Idle | Applying(next: nat) | Sweeping(done: nat, pending: seq<Key>) | Finished

  ghost predicate Listed(objs: Objects, pkg: S.Package, kind: Kind, items: seq<Key>) {
    forall k :: k in items <==> IsOurs(objs, k, pkg) && k.kind == Managed(kind)
  }

  /** One move of one run. A failed call ends the run whether or not it took effect. */
  ghost predicate Move(pkg: S.Package, desired: seq<Manifest>, objs: Objects, p: Phase, objs': Objects, p': Phase) {
    || (objs' == objs && (p' == Idle || p' == Applying(0)))
    || (p.Applying? && p.next < |desired| && objs' == Patched(objs, desired[p.next]) && (p' == Applying(p.next + 1) || p' == Idle))
    || (p.Applying? && p.next == |desired| && objs' == objs && p' == Sweeping(0, []))
    || (p.Sweeping? && p.pending == [] && p.done < |MANAGED_KINDS| && objs' == objs
        && p'.Sweeping? && p'.done == p.done + 1 && Listed(objs, pkg, MANAGED_KINDS[p.done], p'.pending))
    || (p.Sweeping? && p.pending != [] && p.pending[0] in Wanted(desired) && objs' == objs && p' == Sweeping(p.done, p.pending[1..]))
    || (p.Sweeping? && p.pending != [] && p.pending[0] !in Wanted(desired) && objs' == Removed(objs, p.pending[0])
        && (p' == Sweeping(p.done, p.pending[1..]) || p' == Idle))
    || (p.Sweeping? && p.pending == [] && p.done == |MANAGED_KINDS| && objs' == objs && p' == Finished)
  }

  // ---- sequences of moves ------------------------------------------------

  datatype Point = Point(objs: Objects, phase: Phase)

  ghost predicate MoveTo(pkg: S.Package, desired: seq<Manifest>, a: Point, b: Point) {
    Move(pkg, desired, a.objs, a.phase, b.objs, b.phase)
  }

  /** A run leads from `a` to `b` by moves only. */
  ghost predicate Leads(pkg: S.Package, desired: seq<Manifest>, trace: seq<Point>, a: Point, b: Point) {
    && trace != [] && trace[0] == a && trace[|trace| - 1] == b
    && forall i :: 0 <= i < |trace| - 1 ==> MoveTo(pkg, desired, trace[i], trace[i + 1])
  }

  lemma StartHere(pkg: S.Package, desired: seq<Manifest>, a: Point)
    ensures Leads(pkg, desired, [a], a, a)
  {
  }

  lemma MoveOn(pkg: S.Package, desired: seq<Manifest>, trace: seq<Point>, a: Point, b: Point, c: Point)
    requires Leads(pkg, desired, trace, a, b) && MoveTo(pkg, desired, b, c)
    ensures Leads(pkg, desired, trace + [c], a, c)
  {
    hide MoveTo;
    var longer := trace + [c];
    forall i | 0 <= i < |longer| - 1 ensures MoveTo(pkg, desired, longer[i], longer[i + 1]) {
      assert longer[i] == trace[i];
    }
  }

  lemma Joined(pkg: S.Package, desired: seq<Manifest>, s: seq<Point>, t: seq<Point>, a: Point, b: Point, c: Point)
    returns (u: seq<Point>)
    requires Leads(pkg, desired, s, a, b) && Leads(pkg, desired, t, b, c)
    ensures Leads(pkg, desired, u, a, c)
  {
    hide MoveTo;
    u := s + t[1..];
    forall i | 0 <= i < |u| - 1 ensures MoveTo(pkg, desired, u[i], u[i + 1]) {
      if i < |s| - 1 {
        assert u[i] == s[i] && u[i + 1] == s[i + 1];
      } else {
        var j := i - (|s| - 1);
        assert u[i] == t[j] && u[i + 1] == t[j + 1];
      }
    }
  }

  // ---- the calls ---------------------------------------------------------

  lemma PatchMoves(pkg: S.Package, desired: seq<Manifest>, n: nat, a: Objects, b: Objects, done: bool)
    requires n < |desired| && (b == Patched(a, desired[n]) || (!done && b == a))
    ensures MoveTo(pkg, desired, Point(a, Applying(n)), Point(b, if done then Applying(n + 1) else Idle))
  {
  }

  lemma SweepBegins(pkg: S.Package, desired: seq<Manifest>, objs: Objects)
    ensures MoveTo(pkg, desired, Point(objs, Applying(|desired|)), Point(objs, Sweeping(0, [])))
    ensures MoveTo(pkg, desired, Point(objs, Sweeping(|MANAGED_KINDS|, [])), Point(objs, Finished))
  {
  }

  lemma GivesUp(pkg: S.Package, desired: seq<Manifest>, objs: Objects, p: Phase)
    ensures MoveTo(pkg, desired, Point(objs, p), Point(objs, Idle))
  {
  }

  lemma ListMoves(pkg: S.Package, desired: seq<Manifest>, objs: Objects, n: nat, items: seq<Key>)
    requires n < |MANAGED_KINDS| && Listed(objs, pkg, MANAGED_KINDS[n], items)
    ensures MoveTo(pkg, desired, Point(objs, Sweeping(n, [])), Point(objs, Sweeping(n + 1, items)))
  {
  }

  lemma KeepMoves(pkg: S.Package, desired: seq<Manifest>, objs: Objects, n: nat, items: seq<Key>, i: nat)
    requires i < |items| && items[i] in Wanted(desired)
    ensures MoveTo(pkg, desired, Point(objs, Sweeping(n, items[i..])), Point(objs, Sweeping(n, items[i + 1..])))
  {
    assert items[i..][0] == items[i] && items[i..][1..] == items[i + 1..];
  }

  lemma DeleteMoves(pkg: S.Package, desired: seq<Manifest>, a: Objects, b: Objects, n: nat, items: seq<Key>, i: nat, done: bool)
    requires i < |items| && items[i] !in Wanted(desired) && (b == Removed(a, items[i]) || (!done && b == a))
    ensures MoveTo(pkg, desired, Point(a, Sweeping(n, items[i..])), Point(b, if done then Sweeping(n, items[i + 1..]) else Idle))
  {
    assert items[i..][0] == items[i] && items[i..][1..] == items[i + 1..];
  }
}
