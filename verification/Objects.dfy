/** The passes that edit generated objects in place. */
module Objects {
  import opened Common
  import opened Kube
  import opened Hbone
  import opened Metadata
  import S = Spec
  import Builders

  /** A generated object on the heap; `State` is its value. */
  class KubeObject {
    var namespace: string
    var name: string
    var labels: Labels
    var annotations: Labels
    var owners: seq<OwnerRef>
    var body: Body

    function State(): Manifest
      reads this
    {
      Manifest(namespace, name, labels, annotations, owners, body)
    }

    constructor (m: Manifest)
      ensures State() == m
    {
      namespace, name, labels, annotations, owners, body := m.namespace, m.name, m.labels, m.annotations, m.owners, m.body;
    }
  }

  method PeerHasK8sSelector(peers: seq<Peer>) returns (found: bool)
    ensures found == HasSelector(peers)
  {
    for n := 0 to |peers|
      invariant forall k :: 0 <= k < n ==> !IsSelectorPeer(peers[k])
    {
      if peers[n].namespaceSelector.Some? || peers[n].podSelector.Some? {
        assert peers[n] in peers && IsSelectorPeer(peers[n]);
        return true;
      }
    }
    return false;
  }

  /** Appends the port unless the rule is not eligible, has no ports, or has it already. */
  method InjectIntoPorts(ports: seq<PortRule>, eligible: bool) returns (out: seq<PortRule>, added: bool)
    ensures added == (eligible && ports != [] && !HasHBone(ports))
    ensures out == if added then ports + [HBONE_RULE] else ports
  {
    if !eligible || |ports| == 0 {
      return ports, false;
    }
    for n := 0 to |ports|
      invariant forall k :: 0 <= k < n ==> !IsHBone(ports[k])
    {
      if IsHBone(ports[n]) {
        assert ports[n] in ports;
        return ports, false;
      }
    }
    return ports + [HBONE_RULE], true;
  }

  method InjectRules(rules: seq<Rule>) returns (out: seq<Rule>, mutated: bool)
    ensures out == InjectAll(rules) && mutated == SomeGains(rules)
  {
    hide HasSelector, HasHBone;
    out, mutated := rules, false;
    for n := 0 to |rules|
      invariant |out| == |rules|
      invariant forall k :: 0 <= k < |rules| ==> out[k] == if k < n then Inject(rules[k]) else rules[k]
      invariant mutated == exists k :: 0 <= k < n && Gains(rules[k])
    {
      var eligible := PeerHasK8sSelector(out[n].peers);
      var ports, added := InjectIntoPorts(out[n].ports, eligible);
      assert added == Gains(rules[n]);
      out := out[n := Rule(out[n].peers, ports)];
      mutated := mutated || added;
    }
  }

  /** The pass over all objects. An object listed twice ends as if listed once. */
  method InjectHBonePorts(objs: seq<KubeObject>)
    modifies objs
    ensures forall o :: o in objs ==> o.State() == InjectManifest(old(o.State()))
  {
    hide InjectManifest;
    for n := 0 to |objs|
      invariant forall o :: o in objs[..n] ==> o.State() == InjectManifest(old(o.State()))
      invariant forall o :: o in objs && o !in objs[..n] ==> o.State() == old(o.State())
    {
      var o := objs[n];
      label before:
      InjectOne(o);
      InjectTwice(old(o.State()));
      assert objs[..n + 1] == objs[..n] + [o];
      forall o' | o' in objs && o' != o ensures o'.State() == old@before(o'.State()) {
      }
    }
    assert objs[..|objs|] == objs;
  }

  method InjectOne(o: KubeObject)
    modifies o
    ensures o.State() == InjectManifest(old(o.State()))
  {
    hide SomeGains, InjectAll;
    if !o.body.NetworkPolicy? {
      return;
    }
    var egress, fromEgress := InjectRules(o.body.spec.egress);
    var ingress, fromIngress := InjectRules(o.body.spec.ingress);
    o.body := NetworkPolicy(o.body.spec.(egress := egress, ingress := ingress));
    if fromEgress || fromIngress {
      o.labels := o.labels[HBONE_LABEL := "true"];
    }
  }

  method MergeMaps(a: Labels, b: Labels) returns (out: Labels)
    ensures out == a + b
  {
    out := map[];
    var left := a.Keys;
    while left != {}
      invariant left <= a.Keys && out.Keys == a.Keys - left
      invariant forall k :: k in out ==> out[k] == a[k]
      decreases left
    {
      var k :| k in left;
      out := out[k := a[k]];
      left := left - {k};
    }
    left := b.Keys;
    while left != {}
      invariant left <= b.Keys && out.Keys == a.Keys + (b.Keys - left)
      invariant forall k :: k in out ==> out[k] == if k in b && k !in left then b[k] else a[k]
      decreases left
    {
      var k :| k in left;
      out := out[k := b[k]];
      left := left - {k};
    }
  }

  /** Folds user-supplied metadata into an object in place; what the generator set stays. */
  method ApplyShorthand(o: KubeObject, meta: Option<S.Metadata>)
    modifies o
    ensures o.State() == Builders.ApplyShorthandMetadata(old(o.State()), meta)
  {
    if meta.None? {
      return;
    }
    var labels := FoldIn(meta.value.labels, o.labels);
    var annotations := FoldIn(meta.value.annotations, o.annotations);
    o.labels := labels;
    o.annotations := annotations;
  }

  /** An empty map leaves the other as it is. */
  method FoldIn(user: Labels, own: Labels) returns (out: Labels)
    ensures out == user + own
  {
    if |user| == 0 {
      assert user == map[] && user + own == own;
      return own;
    }
    out := MergeMaps(user, own);
  }

  lemma OwnedStep(refs: seq<OwnerRef>, owner: OwnerRef, n: nat)
    requires n < |refs|
    ensures refs[..n] + Owned(refs[n..], owner) ==
            if refs[n].uid == owner.uid then refs[n := owner] else refs[..n + 1] + Owned(refs[n + 1..], owner)
  {
    assert refs[n..][1..] == refs[n + 1..];
    if refs[n].uid == owner.uid {
      assert Owned(refs[n..], owner) == [owner] + refs[n + 1..];
    } else {
      assert Owned(refs[n..], owner) == [refs[n]] + Owned(refs[n + 1..], owner);
      assert refs[..n + 1] == refs[..n] + [refs[n]];
    }
  }

  /** Replaces the first reference to the same owner in place, or appends one. */
  method SetOwner(existing: seq<OwnerRef>, owner: OwnerRef) returns (refs: seq<OwnerRef>)
    ensures refs == Owned(existing, owner)
  {
    hide Owned;
    refs := existing;
    assert existing[..0] == [] && existing[0..] == existing;
    for n := 0 to |existing|
      invariant refs == existing && existing[..n] + Owned(existing[n..], owner) == Owned(existing, owner)
    {
      OwnedStep(existing, owner, n);
      if refs[n].uid == owner.uid {
        return refs[n := owner];
      }
    }
    OwnedNone(owner);
    assert existing[|existing|..] == [] && existing[..|existing|] == existing;
    return refs + [owner];
  }

  lemma OwnedNone(owner: OwnerRef)
    ensures Owned([], owner) == [owner]
  {
  }

  /** Sets namespace, labels and owner reference on one object. */
  method StampMetadata(pkg: S.Package, o: KubeObject)
    modifies o
    ensures o.State() == Stamped(pkg, old(o.State()))
  {
    hide Owned;
    if o.namespace == "" {
      o.namespace := pkg.namespace;
    }
    var labels := o.labels;
    if MANAGED_BY !in labels {
      labels := labels[MANAGED_BY := Builders.OPERATOR];
    }
    o.labels := labels[PACKAGE_LABEL := pkg.name];
    o.owners := SetOwner(o.owners, OwnerOf(pkg));
  }

  method StampAll(pkg: S.Package, objs: seq<KubeObject>)
    modifies objs
    ensures forall o :: o in objs ==> o.State() == Stamped(pkg, old(o.State()))
  {
    hide Stamped;
    for n := 0 to |objs|
      invariant forall o :: o in objs[..n] ==> o.State() == Stamped(pkg, old(o.State()))
      invariant forall o :: o in objs && o !in objs[..n] ==> o.State() == old(o.State())
    {
      var o := objs[n];
      label before:
      StampMetadata(pkg, o);
      StampedTwice(pkg, old(o.State()));
      assert objs[..n + 1] == objs[..n] + [o];
      forall o' | o' in objs && o' != o ensures o'.State() == old@before(o'.State()) {
      }
    }
    assert objs[..|objs|] == objs;
  }
}
