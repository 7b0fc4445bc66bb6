/** Where generated objects say they come from: the metadata of the entries and routes they carry, and the names that
    the documentation gives them. */
module Provenance {
  import opened Common
  import opened Text
  import opened Shorthand
  import opened Kube
  import opened Builders
  import opened Passes
  import opened Steps
  import opened Metadata
  import opened Ports
  import Names
  import opened Defaults
  import Gen = Generate
  import R = Routes
  import RO = RouteObjects
  import S = Spec

  // ---- metadata ----------------------------------------------------------

  /** The metadata block of the rule an entry stands for. */
  function RuleMetadata(s: Step): Option<S.Metadata>
    requires !s.LocalStep?
  {
    if s.EntryStep? then s.target.metadata else s.literal.metadata
  }

  /** The object carries the local metadata, overridden by the rule's, overridden by what the generator sets. */
  ghost predicate Carries(m: Manifest, s: Step, labels: Labels, annotations: Labels)
    requires !s.LocalStep?
  {
    && m.labels == LabelsOf(s.source.metadata) + LabelsOf(RuleMetadata(s)) + labels
    && m.annotations == AnnotationsOf(s.source.metadata) + AnnotationsOf(RuleMetadata(s)) + annotations
  }

  function SourceLabels(d: Direction): Labels {
    map["network-policies.bigbang.dev/source" := "bigbang-operator",
        "network-policies.bigbang.dev/direction" := if d == Egress then "egress" else "ingress"]
  }

  /** The keys an object was generated from; `localKey` is the key as the object shows it. */
  function KeyAnnotations(s: Step, localKey: string): Labels
    requires !s.LocalStep?
  {
    var local := map["generated.network-policies.bigbang.dev/local-key" := localKey];
    match s
    case EntryStep(Definitions, _, _, key, _) => local["generated.network-policies.bigbang.dev/from-definition" := key]
    case EntryStep(_, _, _, key, _) => local["generated.network-policies.bigbang.dev/remote-key" := key]
    case LiteralStep(_, _, key, lit) =>
      local["generated.network-policies.bigbang.dev/remote-key" := key]["generated.network-policies.bigbang.dev/from-spec-literal" := lit.yaml]
  }

  lemma OneOrigin(x: Manifest, s: Step)
    requires !s.LocalStep?
    ensures Carries(ApplyShorthandMetadata(x, MergeShorthandMetadata(s.source.metadata, RuleMetadata(s))), s, x.labels, x.annotations)
  {
    AppliedMaps(x, s.source.metadata, RuleMetadata(s));
    hide ApplyShorthandMetadata, MergeShorthandMetadata, LabelsOf, AnnotationsOf;
  }

  lemma NetpolMetadata(c: Ctx, d: Direction, name: string, notes: Labels, selector: Selector, rules: seq<Rule>)
    ensures Netpol(c, d, name, notes, selector, rules).labels == SourceLabels(d)
    ensures Netpol(c, d, name, notes, selector, rules).annotations == notes
  {
  }

  /** An egress policy says which entry it is from and carries the entry's metadata. */
  lemma EgressOrigin(c: Ctx, s: Step, m: Manifest)
    requires !s.LocalStep? && Emits(Pass(EgressNetpols, c), s, m)
    ensures Carries(m, s, SourceLabels(Egress), KeyAnnotations(s, s.localKey))
  {
    hide ParseEgressRemoteKey, ParseEgressCIDRKey, ResolveEgressDefinition, ExceptOf, Netpol, Carries, IsName, SourceLabels,
      ApplyShorthandMetadata, MergeShorthandMetadata, NetpolPorts, Names.EgressK8sName, Names.EgressCIDRName, SourceSelector, RemotePeer, ToLower;
    var x := EgressBase(c, s, m);
    OneOrigin(x, s);
  }

  /** The policy before the entry's metadata is folded in. */
  lemma EgressBase(c: Ctx, s: Step, m: Manifest) returns (x: Manifest)
    requires !s.LocalStep? && Emits(Pass(EgressNetpols, c), s, m)
    ensures m == ApplyShorthandMetadata(x, MergeShorthandMetadata(s.source.metadata, RuleMetadata(s)))
    ensures x.labels == SourceLabels(Egress) && x.annotations == KeyAnnotations(s, s.localKey)
  {
    hide ParseEgressRemoteKey, ParseEgressCIDRKey, ResolveEgressDefinition, ExceptOf, Netpol, IsName, SourceLabels,
      ApplyShorthandMetadata, MergeShorthandMetadata, NetpolPorts, Names.EgressK8sName, Names.EgressCIDRName, SourceSelector, RemotePeer, ToLower;
    hide Emit;
    EmitsEgress(c, s, m);
    match s
    case EntryStep(K8s, k, source, key, target) =>
      x := BuildEgressK8s(c, k, source, key, ParseEgressRemoteKey(key).value, target);
      NetpolsMarked(c, Egress);
    case EntryStep(Definitions, k, source, key, target) =>
      x := BuildEgressDefinition(c, k, source, key, ResolveEgressDefinition(c, key).value);
      NetpolsMarked(c, Egress);
    case EntryStep(CIDRs, k, source, key, target) =>
      x := BuildEgressCIDR(c, k, source, key, ParseEgressCIDRKey(key).value, ExceptOf(c, s));
      NetpolsMarked(c, Egress);
    case LiteralStep(k, source, key, lit) =>
      x := BuildEgressLiteral(c, k, source, key, lit.yaml, lit.rules.value);
      NetpolsMarked(c, Egress);
  }

  lemma EmitsEgress(c: Ctx, s: Step, m: Manifest)
    requires Emits(Pass(EgressNetpols, c), s, m)
    ensures EmitEgress(c, s, ExceptOf(c, s)).Ok? && m in EmitEgress(c, s, ExceptOf(c, s)).value
  {
    hide EmitEgress, ExceptOf;
  }

  lemma NetpolsMarked(c: Ctx, d: Direction)
    ensures forall name, notes, selector, rules :: Netpol(c, d, name, notes, selector, rules).labels == SourceLabels(d)
    ensures forall name, notes, selector, rules :: Netpol(c, d, name, notes, selector, rules).annotations == notes
  {
    hide Netpol, SourceLabels;
    forall name, notes, selector, rules
      ensures Netpol(c, d, name, notes, selector, rules).labels == SourceLabels(d)
      ensures Netpol(c, d, name, notes, selector, rules).annotations == notes
    {
      NetpolMetadata(c, d, name, notes, selector, rules);
    }
  }

  /** The same for ingress policies, which show the destination's name instead of the whole local key. */
  lemma IngressOrigin(c: Ctx, s: Step, m: Manifest)
    requires !s.LocalStep? && Emits(Pass(IngressNetpols, c), s, m)
    ensures ParseIngressLocalKey(s.localKey).Ok?
    ensures Carries(m, s, SourceLabels(Ingress), KeyAnnotations(s, ParseIngressLocalKey(s.localKey).value.pod))
  {
    hide ParseIngressLocalKey, EmitIngress, Carries, SourceLabels, ApplyShorthandMetadata, MergeShorthandMetadata;
    var x := IngressBase(c, s, m);
    OneOrigin(x, s);
  }

  lemma IngressBase(c: Ctx, s: Step, m: Manifest) returns (x: Manifest)
    requires !s.LocalStep? && Emits(Pass(IngressNetpols, c), s, m)
    ensures ParseIngressLocalKey(s.localKey).Ok?
    ensures m == ApplyShorthandMetadata(x, MergeShorthandMetadata(s.source.metadata, RuleMetadata(s)))
    ensures x.labels == SourceLabels(Ingress) && x.annotations == KeyAnnotations(s, ParseIngressLocalKey(s.localKey).value.pod)
  {
    hide ParseIngressLocalKey, ParseIngressRemoteKey, IsCIDRText, ResolveIngressDefinition, NetpolPorts, Netpol, DestinationLabels,
      Names.IngressK8sName, Names.IngressCIDRName, Names.IngressHead, Names.LocalPortSegment, IsName, RemotePeer, ToLower, SourceLabels,
      ApplyShorthandMetadata, MergeShorthandMetadata;
    var local := ParseIngressLocalKey(s.localKey).value;
    match s
    case EntryStep(K8s, k, source, key, target) =>
      x := BuildIngressK8s(c, local, source, key, ParseIngressRemoteKey(key).value, target);
      NetpolsMarked(c, Ingress);
    case EntryStep(Definitions, k, source, key, target) =>
      x := BuildIngressDefinition(c, local, source, key, ResolveIngressDefinition(c, key).value);
      NetpolsMarked(c, Ingress);
    case EntryStep(CIDRs, k, source, key, target) =>
      x := BuildIngressCIDR(c, local, source, key, ParseIngressCIDRKey(key).value);
      NetpolsMarked(c, Ingress);
    case LiteralStep(k, source, key, lit) =>
      x := BuildIngressLiteral(c, local, source, key, lit.yaml, lit.rules.value);
      NetpolsMarked(c, Ingress);
  }

  /** What an authorization policy says about its caller. */
  function CallerAnnotations(s: Step): Labels
    requires s.EntryStep?
  {
    var prefix := "generated.authorization-policies.bigbang.dev/";
    if s.family == CIDRs then map[prefix + "from-cidr" := s.key, prefix + "cidr" := s.key]
    else
      var r := ParseIngressRemoteKey(s.key);
      if r.Err? then map[]
      else if r.value.identity != "" then map[prefix + "from-spiffe" := s.key, prefix + "identity" := r.value.identity]
      else if r.value.ns == "*" || r.value.pod == "" then map[prefix + "from-namespace" := s.key]
      else map[prefix + "from-namespace" := s.key, prefix + "pod" := r.value.pod]
  }

  lemma AuthzOrigin(c: Ctx, s: Step, m: Manifest)
    requires Authorizes(s) && Emits(Pass(IngressAuthz, c), s, m)
    ensures Carries(m, s, map[], CallerAnnotations(s))
  {
    hide IngressLocal, EmitAuthz, Carries, CallerAnnotations, ApplyShorthandMetadata, MergeShorthandMetadata;
    var x := AuthzBase(c, s, m);
    OneOrigin(x, s);
  }

  lemma AuthzBase(c: Ctx, s: Step, m: Manifest) returns (x: Manifest)
    requires Authorizes(s) && Emits(Pass(IngressAuthz, c), s, m)
    ensures m == ApplyShorthandMetadata(x, MergeShorthandMetadata(s.source.metadata, RuleMetadata(s)))
    ensures x.labels == map[] && x.annotations == CallerAnnotations(s)
  {
    hide IngressLocal, ParseIngressRemoteKey, IsCIDRText, AuthzPorts, Names.IngressHead, Names.PortTail, Names.CIDRSegment, AuthzK8sTail,
      DestinationLabels, Principal, ApplyShorthandMetadata, MergeShorthandMetadata, Names.Prepend, Names.LowerText;
    var local := IngressLocal(s).value.value;
    if s.family == K8s {
      x := BuildAuthzK8s(c, local, s.source, s.key, ParseIngressRemoteKey(s.key).value);
    } else {
      x := BuildAuthzCIDR(c, local, s.source, s.key, ParseIngressCIDRKey(s.key).value);
    }
  }

  /** Every object of a route carries the route's labels and annotations; its network policies are marked as the
      operator's, whatever the route says. */
  lemma RouteOrigin(pkg: S.Package, prepend: bool, all: seq<R.Resolved>, r: R.Resolved, m: Manifest)
    requires || (RO.RouteBlock(pkg, prepend, true, r).Ok? && m in RO.RouteBlock(pkg, prepend, true, r).value)
             || m in RO.RouteAuthz(pkg, prepend, all, r, |r.gateways|)
    ensures m.annotations == r.route.annotations
    ensures m.labels == if m.body.NetworkPolicy? then r.route.labels + SourceLabels(Ingress) else r.route.labels
  {
    hide RO.RoutingOf, RO.RouteRule, RO.ServiceLeaf, Itoa, RO.Suffix, RO.PortNumber;
  }

  // ---- names -------------------------------------------------------------

  lemma DashedOne(a: int)
    ensures Names.Dashed([a]) == "-" + Itoa(a)
  {
    hide Itoa;
    assert [a][1..] == [] && Names.Dashed([]) == "";
  }

  lemma DashedTwo(a: int, b: int)
    ensures Names.Dashed([a, b]) == "-" + (Itoa(a) + ("-" + Itoa(b)))
  {
    hide Itoa;
    DashedOne(b);
    assert [a, b][1..] == [b];
  }

  lemma SuffixForms(a: int, b: int)
    ensures Names.PortSuffix([], false) == "any-port"
    ensures Names.PortSuffix([a], false) == "port" + Names.Dashed([a])
    ensures Names.PortSuffix([a, b], false) == "ports" + Names.Dashed([a, b])
    ensures Names.PortSuffix([a, b], true) == "ports-" + Itoa(a) + "-thru-" + Itoa(b)
  {
    hide Itoa, Names.Dashed;
  }

  /** The port segment of a name: none, one, a list, a range. */
  lemma PortNames(a: int, b: int)
    ensures Names.PortSuffix([], false) == "any-port"
    ensures Names.PortSuffix([a], false) == "port-" + Itoa(a)
    ensures Names.PortSuffix([a, b], false) == "ports-" + Itoa(a) + "-" + Itoa(b)
    ensures Names.PortSuffix([a, b], true) == "ports-" + Itoa(a) + "-thru-" + Itoa(b)
  {
    SuffixForms(a, b);
    DashedOne(a);
    DashedTwo(a, b);
    hide Itoa, Names.Dashed, Names.PortSuffix;
    var x, y := Itoa(a), Itoa(b);
    assert "port" + ("-" + x) == "port-" + x;
    assert "ports" + ("-" + (x + ("-" + y))) == "ports-" + x + "-" + y;
  }

  /** `udp://ns/pod:port` under a local key, and the wildcards. */
  lemma EgressNames(k: string, ns: string, pod: string, anyPod: string, p: int)
    requires k != "*" && ns != "*" && pod != "" && pod != "*" && (anyPod == "" || anyPod == "*")
    ensures Names.EgressK8sName(k, K8sRemote(ns, pod, "", UDP, [p], false)) ==
            "allow-egress-from-" + k + "-to-" + ("ns-" + ns) + ("-pod-" + pod) + ("-udp-" + ("port-" + Itoa(p)))
    ensures Names.EgressK8sName("*", K8sRemote("*", anyPod, "", TCP, [], false)) ==
            "allow-egress-from-" + "any-pod" + "-to-" + "any-ns" + "-any-pod" + ("-" + "any-port")
  {
    PortNames(p, p);
    hide Itoa, Names.PortSuffix;
  }

  lemma EgressCIDRNames(k: string, cidr: string, p: int)
    requires k != "*" && cidr != "0.0.0.0/0"
    ensures Names.EgressCIDRName(k, CIDRKey("0.0.0.0/0", TCP, [p], false)) ==
            ("allow-egress-from-" + k + "-to-") + ("anywhere" + ("-tcp-" + ("port-" + Itoa(p))))
    ensures Names.EgressCIDRName(k, CIDRKey(cidr, TCP, [p], false)) ==
            ("allow-egress-from-" + k + "-to-") + (("cidr-" + Names.CIDRSegment(cidr)) + ("-tcp-" + ("port-" + Itoa(p))))
  {
    PortNames(p, p);
    hide Itoa, Names.PortSuffix, Names.CIDRSegment;
  }

  /** In the CIDR segment dots and the slash become dashes, and nothing else changes. */
  lemma SegmentText(cidr: string, i: nat)
    requires i < |cidr|
    ensures |Names.CIDRSegment(cidr)| == |cidr|
    ensures Names.CIDRSegment(cidr)[i] == if cidr[i] == '.' || cidr[i] == '/' then '-' else cidr[i]
  {
  }

  lemma IngressNames(pod: string, ns: string, peer: string, anyPeer: string, p: int)
    requires ns != "*" && peer != "" && peer != "*" && (anyPeer == "" || anyPeer == "*")
    ensures Names.IngressK8sName(LocalKey(pod, TCP, [p], false), K8sRemote(ns, peer, "", TCP, [], false)) ==
            ("allow-ingress-to-" + pod + "") + ("-tcp-" + ("port-" + Itoa(p))) + "-from-" + ("ns-" + ns) + ("-pod-" + peer)
    ensures Names.IngressK8sName(LocalKey(pod, TCP, [], false), K8sRemote("*", anyPeer, "", TCP, [], false)) ==
            ("allow-ingress-to-" + pod + "") + ("-" + "any-port") + "-from-" + "any-ns" + "-any-pod"
  {
    PortNames(p, p);
    hide Itoa, Names.PortSuffix;
  }

  /** With UDP ports on the local key the protocol appears twice. */
  lemma IngressCIDRNames(pod: string, p: int)
    ensures Names.IngressCIDRName(LocalKey(pod, UDP, [p], false), "0.0.0.0/0") ==
            ("allow-ingress-to-" + pod + ("-" + "udp")) + ("-udp-" + ("port-" + Itoa(p))) + "-from-" + "anywhere"
    ensures Names.IngressCIDRName(LocalKey(pod, TCP, [], false), "0.0.0.0/0") ==
            ("allow-ingress-to-" + pod + "") + "" + "-from-" + "anywhere"
  {
    PortNames(p, p);
    hide Itoa, Names.PortSuffix;
  }

  /** Definitions and literal rules give their own name, in lower case. */
  lemma NamedByRule(c: Ctx, k: string, source: S.Source, local: LocalKey, name: string, def: Rule, yaml: string, rules: seq<Rule>)
    requires k != "*" && local.protocol == TCP && local.ports == []
    ensures BuildEgressDefinition(c, k, source, name, def).name ==
            Names.Prepend(c.spec.prepend, c.pkg.name, "allow-egress-from-" + k + "-to-" + ToLower(name))
    ensures BuildEgressLiteral(c, k, source, name, yaml, rules).name ==
            Names.Prepend(c.spec.prepend, c.pkg.name, "allow-egress-from-" + k + "-to-" + ToLower(name))
    ensures BuildIngressDefinition(c, local, source, name, def).name ==
            Names.Prepend(c.spec.prepend, c.pkg.name, ("allow-ingress-to-" + local.pod + "") + "" + "-from-" + ToLower(name))
    ensures BuildIngressLiteral(c, local, source, name, yaml, rules).name ==
            Names.Prepend(c.spec.prepend, c.pkg.name, ("allow-ingress-to-" + local.pod + "") + "-from-" + ToLower(name))
  {
    hide Names.Prepend, ToLower, SourceSelector, NetpolLabels, NetpolPorts, DestinationLabels;
  }

  /** Lower case leaves everything but the capitals alone. */
  lemma LowerText(s: string, i: nat)
    requires i < |s|
    ensures |ToLower(s)| == |s|
    ensures 'A' <= s[i] <= 'Z' ==> 'a' <= ToLower(s)[i] <= 'z' && (ToLower(s)[i] - 'a') as int == (s[i] - 'A') as int
    ensures !('A' <= s[i] <= 'Z') ==> ToLower(s)[i] == s[i]
  {
  }

  /** The names of a route's objects: the VirtualService is named after the route, the others after the service's first
      label. */
  lemma RouteNames(pkg: S.Package, prepend: bool, all: seq<R.Resolved>, r: R.Resolved, i: nat, leaf: string, tail: string)
    requires RO.RouteBlock(pkg, prepend, true, r).Ok? && i < |r.gateways|
    requires '.' !in leaf && leaf != "" && (r.route.service == leaf || r.route.service == leaf + ['.'] + tail)
    ensures var block := RO.RouteBlock(pkg, prepend, true, r).value;
            var g, n := r.gateways[i], RO.PortNumber(RO.WorkloadPort(r.route));
            && block[0].name == Names.Prepend(prepend, pkg.name, r.name)
            && block[1].name == Names.Prepend(prepend, pkg.name, r.name + "-internal")
            && block[2 + i].name == Names.Prepend(prepend, pkg.name,
                 "allow-ingress-to-" + leaf + "-" + Itoa(n) + "-from-ns-" + g.ns + "-pod-" + g.name)
            && RO.RouteAuthz(pkg, prepend, all, r, |r.gateways|)[i].name ==
               Names.Prepend(prepend, pkg.name, leaf + "-" + RO.Suffix(all, g) + "-authz-policy")
  {
    hide RO.RoutingOf, RO.RouteRule, RO.ServiceLeaf, Itoa, RO.Suffix, RO.PortNumber, RO.WorkloadPort, Names.Prepend, NetpolLabels, RO.HasWildcard;
    LeafOf(r.route.service, leaf, tail);
  }

  lemma LeafOf(service: string, leaf: string, tail: string)
    requires '.' !in leaf && leaf != "" && (service == leaf || service == leaf + ['.'] + tail)
    ensures RO.ServiceLeaf(service) == leaf
  {
    if service != leaf {
      IndexOfConcat(leaf, '.', tail);
      assert service[..|leaf|] == leaf;
    }
  }

  /** With the switch on the Package's name is put before an object's name, otherwise nothing. */
  lemma PrependText(release: string, name: string)
    ensures Names.Prepend(true, release, name) == release + "-" + name && Names.Prepend(false, release, name) == name
  {
  }

  /** The names of authorization policies: the port part of the companion's name, then the caller; the documentation's
      `-with-identity-` marks a service account. */
  lemma AuthzNames(c: Ctx, pod: string, source: S.Source, key: string, ns: string, account: string)
    requires ns != "*" && account != ""
    ensures BuildAuthzK8s(c, LocalKey(pod, TCP, [], false), source, key, K8sRemote(ns, "", account, TCP, [], false)).name ==
            Names.Prepend(c.spec.prepend, c.pkg.name,
              ("allow-ingress-to-" + pod + "") + ("-" + "any-port") + ("-from-ns-" + ns + "-with-identity-" + account))
    ensures BuildAuthzK8s(c, LocalKey(pod, TCP, [], false), source, key, K8sRemote(ns, "", "", TCP, [], false)).name ==
            Names.Prepend(c.spec.prepend, c.pkg.name, ("allow-ingress-to-" + pod + "") + ("-" + "any-port") + ("-from-ns-" + ns))
    ensures BuildAuthzK8s(c, LocalKey(pod, TCP, [], false), source, key, K8sRemote("*", "", "", TCP, [], false)).name ==
            Names.Prepend(c.spec.prepend, c.pkg.name, ("allow-ingress-to-" + pod + "") + ("-" + "any-port") + "-from-ns-any")
  {
    PortNames(0, 0);
    hide Itoa, Names.PortSuffix, Names.Prepend, AuthzK8sAnnotations, DestinationLabels, AuthzPorts;
  }

  /** A raw policy keeps its labels, its annotations and its rules. */
  lemma AdditionalOrigin(c: Ctx, raw: S.RawPolicy)
    ensures Gen.Additional(c, raw).Ok? <==> raw.spec.Some?
    ensures raw.spec.Some? ==>
              && |Gen.Additional(c, raw).value| == 1
              && var m := Gen.Additional(c, raw).value[0];
              && m.labels == raw.labels && m.annotations == raw.annotations && m.body == NetworkPolicy(raw.spec.value)
              && m.name == if c.spec.prepend then c.pkg.name + "-" + raw.name else raw.name
  {
  }

  /** The documented order of the output: what the service mesh settings give, network policies, routes, then the
      authorization policies: the defaults, those of the shorthand, those of the routes, and the custom ones. Among the
      network policies: defaults, shorthand, raw. */
  lemma OutputOrder(input: Gen.Input)
    requires Gen.Collected(input).Ok?
    ensures Gen.InboundOf(input).Ok? && Gen.NetpolPart(input).Ok? && Gen.ShorthandAuthz(input).Ok?
    ensures input.spec.istioObjects.Ok? && input.spec.customAuthz.Ok? && Gen.RoutePart(input, Gen.InboundOf(input).value).Ok?
    ensures var rs := Gen.InboundOf(input).value;
            Gen.Collected(input).value ==
            Plain(input.spec.istioObjects.value) + Gen.NetpolPart(input).value + Gen.RoutePart(input, rs).value
            + DefaultAuthz(input.pkg, input.spec.istio, input.spec.netpols) + Gen.ShorthandAuthz(input).value
            + Gen.AuthzRoutePart(input, rs) + Plain(input.spec.customAuthz.value)
  {
    hide Gen.NetpolPart, Gen.InboundOf, Gen.RoutePart, DefaultAuthz, Gen.AuthzRoutePart, Gen.ShorthandAuthz;
  }

  lemma NetpolOrder(input: Gen.Input)
    requires input.spec.netpols.Some? && input.spec.netpols.value.enabled && Gen.NetpolPart(input).Ok?
    ensures var c := input.Ctx();
            && Gen.EgressPart(c).Ok? && Gen.IngressPart(c).Ok? && Gen.AdditionalAll(c, c.spec.additional).Ok?
            && Gen.NetpolPart(input).value ==
               DefaultEgress(c, input.spec.istio) + DefaultIngress(c, input.spec.istio) + Gen.EgressPart(c).value + Gen.IngressPart(c).value
               + Gen.AdditionalAll(c, c.spec.additional).value
  {
    hide Gen.SideRun, Gen.AdditionalAll, DefaultEgress, DefaultIngress;
  }

  /** Among the routes the inbound ones come first. */
  lemma RouteOrder(pkg: S.Package, spec: R.RouteSpec, netpols: bool, rs: seq<R.Resolved>)
    requires RO.RoutesOutput(pkg, spec, netpols, rs).Ok?
    ensures RO.InboundObjects(pkg, spec.prepend, netpols, rs).Ok? && spec.outbound.Ok?
    ensures RO.RoutesOutput(pkg, spec, netpols, rs).value ==
            RO.InboundObjects(pkg, spec.prepend, netpols, rs).value + Plain(spec.outbound.value)
  {
    hide RO.InboundObjects;
  }
}
