/** The metadata every emitted object ends up with: namespace, owner, shared labels, and the precedence of
    user-supplied labels and annotations. */
module Metadata {
  import opened Common
  import opened Kube
  import S = Spec
  import opened Builders
  import opened Hbone

  const MANAGED_BY := "app.kubernetes.io/managed-by"
  const PACKAGE_LABEL := "bigbang.dev/package"

  function OwnerOf(pkg: S.Package): OwnerRef { OwnerRef(pkg.uid, "Package", pkg.name) }

  /** Replaces the first reference to the Package, or appends one. */
  function Owned(refs: seq<OwnerRef>, owner: OwnerRef): seq<OwnerRef> {
    if refs == [] then [owner]
    else if refs[0].uid == owner.uid then [owner] + refs[1..]
    else [refs[0]] + Owned(refs[1..], owner)
  }

  function StampedLabels(pkg: S.Package, labels: Labels): Labels {
    (if MANAGED_BY in labels then labels else labels[MANAGED_BY := OPERATOR])[PACKAGE_LABEL := pkg.name]
  }

  function Stamped(pkg: S.Package, m: Manifest): Manifest {
    m.(namespace := if m.namespace == "" then pkg.namespace else m.namespace,
       labels := StampedLabels(pkg, m.labels),
       owners := Owned(m.owners, OwnerOf(pkg)))
  }

  /** The references of other owners, in order. */
  function Others(refs: seq<OwnerRef>, uid: string): seq<OwnerRef> {
    if refs == [] then []
    else (if refs[0].uid == uid then [] else [refs[0]]) + Others(refs[1..], uid)
  }

  lemma {:induction false} OwnedKeepsOthers(refs: seq<OwnerRef>, owner: OwnerRef)
    ensures owner in Owned(refs, owner)
    ensures Others(Owned(refs, owner), owner.uid) == Others(refs, owner.uid)
    ensures Owned(Owned(refs, owner), owner) == Owned(refs, owner)
  {
    if refs != [] {
      OwnedKeepsOthers(refs[1..], owner);
      var r := Owned(refs, owner);
      assert r[1..] == if refs[0].uid == owner.uid then refs[1..] else Owned(refs[1..], owner);
    }
  }

  /** The first reference with the owner's UID is replaced where it stands; without one the owner comes last. */
  lemma {:induction false} OwnedExactly(refs: seq<OwnerRef>, owner: OwnerRef, i: nat)
    requires i <= |refs| && (forall j :: 0 <= j < i ==> refs[j].uid != owner.uid) && (i < |refs| ==> refs[i].uid == owner.uid)
    ensures Owned(refs, owner) == if i < |refs| then refs[i := owner] else refs + [owner]
    decreases |refs|
  {
    if refs != [] && i > 0 {
      OwnedExactly(refs[1..], owner, i - 1);
      assert refs == [refs[0]] + refs[1..];
    }
  }

  /** Stamping is idempotent, keeps the references of other owners, and whatever the user supplied, the prune
      label ends as the Package's name. */
  lemma StampedTwice(pkg: S.Package, m: Manifest)
    ensures Stamped(pkg, Stamped(pkg, m)) == Stamped(pkg, m)
    ensures Others(Stamped(pkg, m).owners, pkg.uid) == Others(m.owners, pkg.uid)
    ensures PACKAGE_LABEL in Stamped(pkg, m).labels && Stamped(pkg, m).labels[PACKAGE_LABEL] == pkg.name
  {
    OwnedKeepsOthers(m.owners, OwnerOf(pkg));
    hide Owned, Others;
    assert StampedLabels(pkg, StampedLabels(pkg, m.labels)) == StampedLabels(pkg, m.labels);
  }

  /** Both post-processing passes on one object. */
  function Finish(pkg: S.Package, hbone: bool, m: Manifest): Manifest {
    Stamped(pkg, if hbone then InjectManifest(m) else m)
  }

  function Lookup(k: string, layers: seq<Labels>): Option<string> {
    if layers == [] then None else if k in layers[0] then Some(layers[0][k]) else Lookup(k, layers[1..])
  }

  function Value(labels: Labels, k: string): Option<string> { if k in labels then Some(labels[k]) else None }

  function LabelsOf(meta: Option<S.Metadata>): Labels { if meta.None? then map[] else meta.value.labels }
  function AnnotationsOf(meta: Option<S.Metadata>): Labels { if meta.None? then map[] else meta.value.annotations }

  /** Each final annotation of a shorthand object is the generated value, else the rule's, else the local one.
      For labels the same holds outside the operator's own keys; the prune label is the Package's name; the
      managed-by label is the user's if there is one; the HBONE label is the injection pass's where it added a port,
      else what the user supplied. */
  lemma Precedence(pkg: S.Package, hbone: bool, m: Manifest, local: Option<S.Metadata>, remote: Option<S.Metadata>, k: string)
    ensures var final := Finish(pkg, hbone, ApplyShorthandMetadata(m, MergeShorthandMetadata(local, remote)));
            var marker := "ambient.istio.network-policies.bigbang.dev/hbone-injected";
            && Value(final.annotations, k) == Lookup(k, [m.annotations, AnnotationsOf(remote), AnnotationsOf(local)])
            && (k != "bigbang.dev/package" && k != "app.kubernetes.io/managed-by" && k != marker ==>
                  Value(final.labels, k) == Lookup(k, [m.labels, LabelsOf(remote), LabelsOf(local)]))
            && Value(final.labels, "bigbang.dev/package") == Some(pkg.name)
            && Value(final.labels, "app.kubernetes.io/managed-by") ==
               (match Lookup("app.kubernetes.io/managed-by", [m.labels, LabelsOf(remote), LabelsOf(local)])
                case None => Some("bigbang-operator") case Some(v) => Some(v))
            && Value(final.labels, marker) ==
               if hbone && GainsPort(m) then Some("true") else Lookup(marker, [m.labels, LabelsOf(remote), LabelsOf(local)])
  {
    LabelNames();
    hide Finish, Lookup, ApplyShorthandMetadata, MergeShorthandMetadata, GainsPort, Value;
    var applied := ApplyShorthandMetadata(m, MergeShorthandMetadata(local, remote));
    Layers(k, m.annotations, AnnotationsOf(remote), AnnotationsOf(local));
    Layers(k, m.labels, LabelsOf(remote), LabelsOf(local));
    Layers(MANAGED_BY, m.labels, LabelsOf(remote), LabelsOf(local));
    Layers(HBONE_LABEL, m.labels, LabelsOf(remote), LabelsOf(local));
    AppliedMaps(m, local, remote);
    FinishLabels(pkg, hbone, applied);
    ManagedBy(applied.labels);
    hide PACKAGE_LABEL, MANAGED_BY, HBONE_LABEL, OPERATOR;
    assert GainsPort(applied) == GainsPort(m) by { SameBodyGains(applied, m); }
  }

  lemma LabelNames()
    ensures PACKAGE_LABEL == "bigbang.dev/package" && MANAGED_BY == "app.kubernetes.io/managed-by" && OPERATOR == "bigbang-operator"
    ensures HBONE_LABEL == "ambient.istio.network-policies.bigbang.dev/hbone-injected"
  {
  }

  lemma SameBodyGains(m: Manifest, n: Manifest)
    requires m.body == n.body
    ensures GainsPort(m) == GainsPort(n)
  {
    hide SomeGains;
  }

  lemma ManagedBy(labels: Labels)
    ensures Value(labels, MANAGED_BY) == if MANAGED_BY in labels then Some(labels[MANAGED_BY]) else None
  {
  }

  lemma AppliedMaps(m: Manifest, local: Option<S.Metadata>, remote: Option<S.Metadata>)
    ensures var applied := ApplyShorthandMetadata(m, MergeShorthandMetadata(local, remote));
            && applied.annotations == AnnotationsOf(local) + AnnotationsOf(remote) + m.annotations
            && applied.labels == LabelsOf(local) + LabelsOf(remote) + m.labels
  {
    hide PACKAGE_LABEL, MANAGED_BY, HBONE_LABEL;
    assert map[] + m.labels == m.labels && map[] + m.annotations == m.annotations;
  }

  /** The injection pass adds the port to some rule of the object. */
  predicate GainsPort(m: Manifest) {
    m.body.NetworkPolicy? && exists r :: r in m.body.spec.egress + m.body.spec.ingress && LacksTunnel(r)
  }

  lemma GainsMeans(m: Manifest)
    ensures GainsPort(m) <==> m.body.NetworkPolicy? && (SomeGains(m.body.spec.egress) || SomeGains(m.body.spec.ingress))
  {
    if m.body.NetworkPolicy? {
      var rules := m.body.spec.egress + m.body.spec.ingress;
      forall r ensures LacksTunnel(r) <==> Gains(r) {
        SameGain(r);
      }
      hide LacksTunnel, Gains;
      assert forall r :: r in rules <==> r in m.body.spec.egress || r in m.body.spec.ingress;
    }
  }

  lemma Layers(k: string, a: Labels, b: Labels, c: Labels)
    ensures Lookup(k, [a, b, c]) == Value(c + b + a, k)
  {
    assert [a, b, c][1..] == [b, c] && [b, c][1..] == [c] && [c][1..] == [];
    assert Lookup(k, []) == None;
    assert Lookup(k, [c]) == Value(c, k);
    assert Lookup(k, [b, c]) == Value(c + b, k);
  }

  lemma FinishLabels(pkg: S.Package, hbone: bool, m: Manifest)
    ensures var final := Finish(pkg, hbone, m);
            && final.annotations == m.annotations
            && (forall k :: k != PACKAGE_LABEL && k != MANAGED_BY && k != HBONE_LABEL ==> Value(final.labels, k) == Value(m.labels, k))
            && Value(final.labels, PACKAGE_LABEL) == Some(pkg.name)
            && Value(final.labels, MANAGED_BY) == (if MANAGED_BY in m.labels then Some(m.labels[MANAGED_BY]) else Some(OPERATOR))
            && Value(final.labels, HBONE_LABEL) == if hbone && GainsPort(m) then Some("true") else Value(m.labels, HBONE_LABEL)
  {
    assert PACKAGE_LABEL != MANAGED_BY && HBONE_LABEL != PACKAGE_LABEL && HBONE_LABEL != MANAGED_BY by {
      assert |PACKAGE_LABEL| != |MANAGED_BY| && |HBONE_LABEL| > |MANAGED_BY|;
    }
    GainsMeans(m);
    hide Owned, InjectAll, SomeGains, GainsPort;
  }
}
