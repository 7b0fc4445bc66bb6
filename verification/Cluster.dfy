/** The cluster as the operator sees it: objects by kind, namespace and name, forced server-side apply, listing by
    label, and deletion, where any call may fail before or after it took effect. */
module Cluster {
  import opened Common
  import opened Kube
  import S = Spec
  import M = Metadata

  // ---- objects -----------------------------------------------------------

  /** The kinds the generator may emit, and everything else in a cluster. */
  datatype ClusterKind = Managed(kind: Kind) | Other(name: string)

  datatype Key = Key(kind: ClusterKind, ns: string, name: string)

  function KeyOf(m: Manifest): Key { Key(Managed(m.body.Kind()), m.namespace, m.name) }

  /** A stored object and the label and annotation keys the operator's field manager owns on it. */
  datatype Stored = Stored(body: Body, labels: Labels, annotations: Labels, ownLabels: set<string>, ownAnnotations: set<string>)

  type Objects = map<Key, Stored>

  // ---- forced server-side apply ------------------------------------------

  function Without(m: Labels, keys: set<string>): Labels { map k | k in m && k !in keys :: m[k] }

  /** What other writers contributed; nothing on an object that does not exist yet. */
  function ForeignLabels(objs: Objects, k: Key): Labels { if k in objs then Without(objs[k].labels, objs[k].ownLabels) else map[] }
  function ForeignAnnotations(objs: Objects, k: Key): Labels {
    if k in objs then Without(objs[k].annotations, objs[k].ownAnnotations) else map[]
  }

  /** Creates the object, or overwrites its content: labels of other writers stay unless the manifest sets them too,
      and labels the operator no longer wants disappear. */
  function Patched(objs: Objects, m: Manifest): Objects {
    var k := KeyOf(m);
    objs[k := Stored(m.body, ForeignLabels(objs, k) + m.labels, ForeignAnnotations(objs, k) + m.annotations, m.labels.Keys, m.annotations.Keys)]
  }

  function Removed(objs: Objects, k: Key): Objects { objs - {k} }

  /** The stored object has the manifest's content. */
  predicate Current(s: Stored, m: Manifest) {
    && s.body == m.body && s.ownLabels == m.labels.Keys && s.ownAnnotations == m.annotations.Keys
    && (forall k :: k in m.labels ==> k in s.labels && s.labels[k] == m.labels[k])
    && (forall k :: k in m.annotations ==> k in s.annotations && s.annotations[k] == m.annotations[k])
  }

  // ---- whose objects -----------------------------------------------------

  predicate CarriesLabel(s: Stored, pkg: S.Package) { M.PACKAGE_LABEL in s.labels && s.labels[M.PACKAGE_LABEL] == pkg.name }

  /** An object of a managed kind in the Package's namespace that carries its label. */
  predicate IsOurs(objs: Objects, k: Key, pkg: S.Package) {
    k in objs && k.kind.Managed? && k.ns == pkg.namespace && CarriesLabel(objs[k], pkg)
  }

  /** Ours are the objects of the managed kinds in the namespace whose prune label is there and says the name. */
  lemma OursByFields(objs: Objects, k: Key, pkg: S.Package)
    ensures IsOurs(objs, k, pkg) <==>
            && k in objs && k.kind.Managed? && k.ns == pkg.namespace
            && "bigbang.dev/package" in objs[k].labels && objs[k].labels["bigbang.dev/package"] == pkg.name
  {
  }

  function Ours(objs: Objects, pkg: S.Package): set<Key> { set k | k in objs && IsOurs(objs, k, pkg) }

  /** What the generator promises about every object it returns. */
  ghost predicate Stamped(desired: seq<Manifest>, pkg: S.Package) {
    forall m :: m in desired ==> m.namespace == pkg.namespace && M.PACKAGE_LABEL in m.labels && m.labels[M.PACKAGE_LABEL] == pkg.name
  }

  function Wanted(desired: seq<Manifest>): set<Key> { set m | m in desired :: KeyOf(m) }

  // ---- calls that may fail -----------------------------------------------

  /** The fate of one call: a failing call may still have taken effect. */
  datatype Fate = Succeeds | FailsBefore | FailsAfter

  datatype Reply = Done | Absent | Failed

  /** The API server. `plan` decides the fate of every call; `history` records the state after each of them. */
  class Server {
    var objects: Objects
    var calls: nat
    const plan: nat -> Fate
    ghost var history: seq<Objects>

    ghost predicate Valid()
      reads this
    {
      history != [] && history[|history| - 1] == objects
    }

    constructor (objs: Objects, plan: nat -> Fate)
      ensures Valid() && objects == objs && this.plan == plan && history == [objs] && calls == 0
    {
      objects, this.plan, calls, history := objs, plan, 0, [objs];
    }

    method Patch(m: Manifest) returns (r: Reply)
      requires Valid()
      modifies this
      ensures Valid() && history == old(history) + [objects] && calls == old(calls) + 1
      ensures r == Done || r == Failed
      ensures r == Done <==> plan(old(calls)) == Succeeds
      ensures objects == if plan(old(calls)) == FailsBefore then old(objects) else Patched(old(objects), m)
    {
      var fate := plan(calls);
      if fate != FailsBefore {
        objects := Patched(objects, m);
      }
      history := history + [objects];
      calls := calls + 1;
      r := if fate == Succeeds then Done else Failed;
    }

    method Delete(k: Key) returns (r: Reply)
      requires Valid()
      modifies this
      ensures Valid() && history == old(history) + [objects] && calls == old(calls) + 1
      ensures r == if plan(old(calls)) != Succeeds then Failed else if k in old(objects) then Done else Absent
      ensures objects == if plan(old(calls)) == FailsBefore then old(objects) else Removed(old(objects), k)
    {
      var fate := plan(calls);
      r := if fate != Succeeds then Failed else if k in objects then Done else Absent;
      if fate != FailsBefore {
        objects := Removed(objects, k);
      }
      history := history + [objects];
      calls := calls + 1;
    }

    /** The objects of one kind in one namespace with the Package's label, in any order. */
    method List(kind: Kind, pkg: S.Package) returns (r: Reply, items: seq<Key>)
      requires Valid()
      modifies this
      ensures Valid() && history == old(history) + [objects] && objects == old(objects) && calls == old(calls) + 1
      ensures r == if plan(old(calls)) == Succeeds then Done else Failed
      ensures r == Done ==> forall k :: k in items <==> IsOurs(objects, k, pkg) && k.kind == Managed(kind)
      ensures r == Done ==> forall k :: k in items <==>
                && k in objects && k.kind == Managed(kind) && k.ns == pkg.namespace
                && "bigbang.dev/package" in objects[k].labels && objects[k].labels["bigbang.dev/package"] == pkg.name
      ensures forall i, j :: 0 <= i < j < |items| ==> items[i] != items[j]
    {
      items := [];
      var left := set k | k in objects && IsOurs(objects, k, pkg) && k.kind == Managed(kind);
      ghost var all := left;
      while left != {}
        invariant left <= all && forall k :: k in items <==> k in all && k !in left
        invariant forall i, j :: 0 <= i < j < |items| ==> items[i] != items[j]
        decreases left
      {
        var k :| k in left;
        items := items + [k];
        left := left - {k};
      }
      r := if plan(calls) == Succeeds then Done else Failed;
      history := history + [objects];
      calls := calls + 1;
    }
  }
}
