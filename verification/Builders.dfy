/** The objects a shorthand entry turns into: named definitions, the network policy builders for egress and
    ingress, and the authorization policies that accompany ingress entries. */
module Builders {
  import opened Common
  import opened Text
  import opened Shorthand
  import opened Kube
  import opened Spec
  import opened Ports
  import opened Names

  /** Everything the expansion of one Package reads. */
  datatype Ctx = Ctx(pkg: Package, spec: NetworkPolicies, env: Env)

  const APP_NAME := "app.kubernetes.io/name"
  const NAMESPACE_NAME := "kubernetes.io/metadata.name"
  const LOCAL_KEY := "generated.network-policies.bigbang.dev/local-key"
  const REMOTE_KEY := "generated.network-policies.bigbang.dev/remote-key"
  const FROM_DEFINITION := "generated.network-policies.bigbang.dev/from-definition"
  const FROM_LITERAL := "generated.network-policies.bigbang.dev/from-spec-literal"
  const NETPOL_SOURCE := "network-policies.bigbang.dev/source"
  const DIRECTION := "network-policies.bigbang.dev/direction"
  const OPERATOR := "bigbang-operator"
  const AUTHZ := "generated.authorization-policies.bigbang.dev/"

  // ---- definitions -------------------------------------------------------

  /** Selectors are kept by presence: an explicitly empty one matches everything. */
  function TypedPeer(p: RawPeer): Peer {
    Peer(if p.cidr.Some? || p.except.Some? then
           Some(IPBlock(if p.cidr.Some? then p.cidr.value else "", if p.except.Some? then p.except.value else []))
         else None,
         if p.ns.Some? then Some(ByLabels(p.ns.value)) else None,
         if p.pod.Some? then Some(ByLabels(p.pod.value)) else None)
  }

  function TypedPeers(peers: seq<RawPeer>): (r: seq<Peer>)
    ensures |r| == |peers| && forall k :: 0 <= k < |peers| ==> r[k] == TypedPeer(peers[k])
  {
    seq(|peers|, k requires 0 <= k < |peers| => TypedPeer(peers[k]))
  }

  function TypedPort(p: RawPort): PortRule { PortRule(if p.protocol != "" then Some(p.protocol) else None, p.port, p.endPort) }

  function TypedPorts(ports: seq<RawPort>): (r: seq<PortRule>)
    ensures |r| == |ports| && forall k :: 0 <= k < |ports| ==> r[k] == TypedPort(ports[k])
  {
    seq(|ports|, k requires 0 <= k < |ports| => TypedPort(ports[k]))
  }

  function ParseDefinition(name: string, raw: RawDefinition): Result<Rule> {
    match raw
    case BadDefinition => Err(MalformedValue(name))
    case Definition(peers, ports) => Ok(Rule(TypedPeers(peers), TypedPorts(ports)))
  }

  method BuildDefinition(peersRaw: seq<RawPeer>, portsRaw: seq<RawPort>) returns (r: Rule)
    ensures ParseDefinition("", Definition(peersRaw, portsRaw)) == Ok(r)
  {
    var peers: seq<Peer> := [];
    for n := 0 to |peersRaw|
      invariant |peers| == n && forall k :: 0 <= k < n ==> peers[k] == TypedPeer(peersRaw[k])
    {
      peers := peers + [TypedPeer(peersRaw[n])];
    }
    var ports: seq<PortRule> := [];
    for n := 0 to |portsRaw|
      invariant |ports| == n && forall k :: 0 <= k < n ==> ports[k] == TypedPort(portsRaw[k])
    {
      var np := PortRule(None, None, None);
      if portsRaw[n].port.Some? {
        np := np.(port := portsRaw[n].port);
      }
      if portsRaw[n].endPort.Some? {
        np := np.(endPort := portsRaw[n].endPort);
      }
      if portsRaw[n].protocol != "" {
        np := np.(protocol := Some(portsRaw[n].protocol));
      }
      ports := ports + [np];
    }
    assert peers == TypedPeers(peersRaw) && ports == TypedPorts(portsRaw);
    return Rule(peers, ports);
  }

  function CIDRPeer(cidr: string, except: seq<string>): Peer { Peer(Some(IPBlock(cidr, except)), None, None) }

  function LabelPeer(nsKey: string, ns: string, podKey: string, pod: string): Peer {
    Peer(None, Some(ByLabels(map[nsKey := ns])), Some(ByLabels(map[podKey := pod])))
  }

  function BuiltInEgress(name: string, kubeAPIPorts: seq<PortRef>): Option<Rule> {
    if name == "kubeAPI" then
      Some(Rule([CIDRPeer("10.0.0.0/8", []), CIDRPeer("172.16.0.0/12", []), CIDRPeer("192.168.0.0/16", [])],
                seq(|kubeAPIPorts|, k requires 0 <= k < |kubeAPIPorts| => PortRule(Some("TCP"), Some(kubeAPIPorts[k]), None))))
    else None
  }

  function BuiltInIngress(name: string): Option<Rule> {
    if name == "gateway" then Some(Rule([LabelPeer(NAMESPACE_NAME, "istio-gateway", "istio", "ingressgateway")], []))
    else if name == "monitoring" then Some(Rule([LabelPeer(NAMESPACE_NAME, "monitoring", APP_NAME, "prometheus")], []))
    else None
  }

  /** Package-local definitions win outright; without them an unreadable shared pool stops the resolution,
      because the pool could hold or override the name. */
  function Resolve(own: map<string, RawDefinition>, shared: map<string, RawDefinition>, sharedError: Option<Error>,
                   builtIn: Option<Rule>, name: string): Result<Rule>
  {
    if name in own then ParseDefinition(name, own[name])
    else if sharedError.Some? then Err(Unreadable(name))
    else if name in shared then ParseDefinition(name, shared[name])
    else if builtIn.Some? then Ok(builtIn.value)
    else Err(NotFound(name))
  }

  function OwnDefinitions(side: Option<Side>): map<string, RawDefinition> {
    if side.Some? then side.value.definitions else map[]
  }

  function ResolveEgressDefinition(c: Ctx, name: string): Result<Rule> {
    Resolve(OwnDefinitions(c.spec.egress), c.env.sharedEgress, c.env.sharedError, BuiltInEgress(name, c.env.kubeAPIPorts), name)
  }

  function ResolveIngressDefinition(c: Ctx, name: string): Result<Rule> {
    Resolve(OwnDefinitions(c.spec.ingress), c.env.sharedIngress, c.env.sharedError, BuiltInIngress(name), name)
  }

  // ---- metadata ----------------------------------------------------------

  /** Rule-level keys override local ones. */
  function MergeShorthandMetadata(local: Option<Metadata>, remote: Option<Metadata>): Option<Metadata> {
    match (local, remote)
    case (None, _) => remote
    case (_, None) => local
    case (Some(l), Some(r)) => Some(Metadata(l.labels + r.labels, l.annotations + r.annotations))
  }

  /** Generated keys override user-supplied ones. */
  function ApplyShorthandMetadata(m: Manifest, meta: Option<Metadata>): (r: Manifest)
    ensures r.body == m.body && r.name == m.name && r.namespace == m.namespace && r.owners == m.owners
  {
    if meta.None? then m
    else m.(labels := meta.value.labels + m.labels, annotations := meta.value.annotations + m.annotations)
  }

  // ---- selectors ---------------------------------------------------------

  function RemoteNamespaceSelector(ns: string, override: Labels): Selector {
    if override != map[] then ByLabels(override) else if ns == "*" then EVERYTHING else ByLabels(map[NAMESPACE_NAME := ns])
  }

  function RemotePodSelector(pod: string, override: Labels): Selector {
    if override != map[] then ByLabels(override)
    else if pod == "" || pod == "*" then EVERYTHING else ByLabels(map[APP_NAME := pod])
  }

  function SourceSelector(localKey: string, source: Source): Selector {
    if source.podSelector != map[] then ByLabels(source.podSelector)
    else if localKey != "*" then ByLabels(map[APP_NAME := localKey]) else EVERYTHING
  }

  function DestinationLabels(local: LocalKey, source: Source): Labels {
    if source.podSelector != map[] then source.podSelector else map[APP_NAME := local.pod]
  }

  function RemotePeer(r: K8sRemote, target: Target): Peer {
    Peer(None, Some(RemoteNamespaceSelector(r.ns, target.namespaceSelector)), Some(RemotePodSelector(r.pod, target.podSelector)))
  }

  /** An unset list means the default exclusion; an explicitly empty list disables exclusion. */
  function ExcludeCIDRs(spec: NetworkPolicies): seq<string> {
    if spec.egress.None? || spec.egress.value.excludeCIDRs.None? then ["169.254.169.254/32"]
    else spec.egress.value.excludeCIDRs.value
  }

  // ---- network policies --------------------------------------------------

  function DirectionText(d: Direction): string { if d == Egress then "egress" else "ingress" }

  function NetpolLabels(d: Direction): Labels { map[NETPOL_SOURCE := OPERATOR, DIRECTION := DirectionText(d)] }

  /** A policy of one direction with one list of rules. */
  function Netpol(c: Ctx, d: Direction, name: string, annotations: Labels, selector: Selector, rules: seq<Rule>): Manifest {
    Manifest("", Prepend(c.spec.prepend, c.pkg.name, name), NetpolLabels(d), annotations, [],
             NetworkPolicy(PolicySpec(selector, [d], if d == Egress then rules else [], if d == Ingress then rules else [])))
  }

  function BuildEgressK8s(c: Ctx, localKey: string, source: Source, key: string, r: K8sRemote, target: Target): Manifest {
    Netpol(c, Egress, EgressK8sName(localKey, r), map[LOCAL_KEY := localKey, REMOTE_KEY := key], SourceSelector(localKey, source),
           [Rule([RemotePeer(r, target)], NetpolPorts(r.protocol, r.ports, r.hasRange))])
  }

  function BuildEgressCIDR(c: Ctx, localKey: string, source: Source, key: string, r: CIDRKey, except: seq<string>): Manifest {
    Netpol(c, Egress, EgressCIDRName(localKey, r), map[LOCAL_KEY := localKey, REMOTE_KEY := key], SourceSelector(localKey, source),
           [Rule([CIDRPeer(r.cidr, except)], NetpolPorts(r.protocol, r.ports, r.hasRange))])
  }

  function BuildEgressDefinition(c: Ctx, localKey: string, source: Source, name: string, def: Rule): Manifest {
    Netpol(c, Egress, "allow-egress-from-" + LocalName(localKey) + "-to-" + ToLower(name),
           map[LOCAL_KEY := localKey, FROM_DEFINITION := name], SourceSelector(localKey, source), [def])
  }

  function BuildEgressLiteral(c: Ctx, localKey: string, source: Source, key: string, yaml: string, rules: seq<Rule>): Manifest {
    Netpol(c, Egress, "allow-egress-from-" + LocalName(localKey) + "-to-" + ToLower(key),
           map[LOCAL_KEY := localKey, REMOTE_KEY := key, FROM_LITERAL := yaml], SourceSelector(localKey, source), rules)
  }

  function LocalPorts(local: LocalKey): seq<PortRule> { NetpolPorts(local.protocol, local.ports, local.hasRange) }

  function BuildIngressK8s(c: Ctx, local: LocalKey, source: Source, key: string, r: K8sRemote, target: Target): Manifest {
    Netpol(c, Ingress, IngressK8sName(local, r), map[LOCAL_KEY := local.pod, REMOTE_KEY := key],
           ByLabels(DestinationLabels(local, source)), [Rule([RemotePeer(r, target)], LocalPorts(local))])
  }

  function BuildIngressCIDR(c: Ctx, local: LocalKey, source: Source, key: string, r: CIDRKey): Manifest {
    Netpol(c, Ingress, IngressCIDRName(local, r.cidr), map[LOCAL_KEY := local.pod, REMOTE_KEY := key],
           ByLabels(DestinationLabels(local, source)), [Rule([CIDRPeer(r.cidr, [])], LocalPorts(local))])
  }

  /** Ports on the local key override the definition's ports. */
  function BuildIngressDefinition(c: Ctx, local: LocalKey, source: Source, name: string, def: Rule): Manifest {
    Netpol(c, Ingress, IngressHead(local) + LocalPortSegment(local) + "-from-" + ToLower(name),
           map[LOCAL_KEY := local.pod, FROM_DEFINITION := name], ByLabels(DestinationLabels(local, source)),
           [Rule(def.peers, if local.ports != [] then LocalPorts(local) else def.ports)])
  }

  function BuildIngressLiteral(c: Ctx, local: LocalKey, source: Source, key: string, yaml: string, rules: seq<Rule>): Manifest {
    Netpol(c, Ingress, IngressHead(local) + "-from-" + ToLower(key),
           map[LOCAL_KEY := local.pod, REMOTE_KEY := key, FROM_LITERAL := yaml], ByLabels(DestinationLabels(local, source)), rules)
  }

  // ---- authorization policies --------------------------------------------

  /** A range is written out port by port. */
  function CountUp(a: int, b: int): seq<string>
    decreases b - a
  {
    if b < a then [] else CountUp(a, b - 1) + [Itoa(b)]
  }

  /** The list holds the numbers from `a` to `b` and nothing else. */
  lemma {:induction false} CountUpMembers(a: int, b: int, t: string)
    ensures t in CountUp(a, b) <==> exists n :: a <= n <= b && t == Itoa(n)
    decreases b - a
  {
    hide Itoa;
    if a <= b {
      CountUpMembers(a, b - 1, t);
    }
  }

  /** In ascending order, each once. */
  lemma {:induction false} CountUpAt(a: int, b: int, k: nat)
    requires a + k <= b
    ensures |CountUp(a, b)| == b - a + 1 && CountUp(a, b)[k] == Itoa(a + k)
    decreases b - a
  {
    hide Itoa;
    if a + k < b {
      CountUpAt(a, b - 1, k);
    } else if a < b {
      CountUpAt(a, b - 1, 0);
    } else {
      assert CountUp(a, b - 1) == [];
    }
  }

  function AuthzPorts(local: LocalKey): seq<string> {
    if local.hasRange && |local.ports| == 2 then CountUp(local.ports[0], local.ports[1]) else ItoaAll(local.ports)
  }

  method BuildAuthzPorts(local: LocalKey) returns (out: seq<string>)
    ensures out == AuthzPorts(local)
  {
    hide Itoa, CountUp;
    if local.hasRange && |local.ports| == 2 {
      out := WriteRange(local.ports[0], local.ports[1]);
    } else {
      out := [];
      for n := 0 to |local.ports|
        invariant |out| == n && forall k :: 0 <= k < n ==> out[k] == Itoa(local.ports[k])
      {
        out := out + [Itoa(local.ports[n])];
      }
    }
  }

  /** The counting loop. */
  method WriteRange(a: int, b: int) returns (out: seq<string>)
    ensures out == CountUp(a, b)
  {
    hide Itoa;
    out := [];
    var p := a;
    while p <= b
      invariant a <= p && (p == a || p <= b + 1) && out == CountUp(a, p - 1)
    {
      out := out + [Itoa(p)];
      p := p + 1;
    }
  }

  /** Wrap-around of a signed 64-bit integer. */
  function Int64(n: int): (r: int)
    ensures -MAX_INT64 - 1 <= r <= MAX_INT64
    ensures -MAX_INT64 - 1 <= n <= MAX_INT64 ==> r == n
  {
    (n + MAX_INT64 + 1) % 0x1_0000_0000_0000_0000 - MAX_INT64 - 1
  }

  /** The 64-bit counter that started at `a`, after `n` increments. */
  function Counter(a: int, n: nat): int { Int64(a + n) }

  /** Sooner or later the counter gets past `b`. */
  ghost predicate CounterStops(a: int, b: int) { exists n: nat :: Counter(a, n) > b }

  /** The counting loop of the original stops, and then writes what `WriteRange` writes, exactly for ranges that are
      empty or end below the largest 64-bit integer. */
  lemma CounterStopsExactly(a: int, b: int)
    requires -MAX_INT64 - 1 <= a <= MAX_INT64 && -MAX_INT64 - 1 <= b <= MAX_INT64
    ensures CounterStops(a, b) <==> a > b || b < MAX_INT64
    ensures b < MAX_INT64 ==> forall n: nat :: a + n <= b + 1 ==> Counter(a, n) == a + n
  {
    hide Int64;
    if a > b {
      assert Counter(a, 0) > b;
    } else if b < MAX_INT64 {
      var n: nat := b + 1 - a;
      assert Counter(a, n) > b;
    }
  }

  function BuildAuthzCIDR(c: Ctx, local: LocalKey, source: Source, key: string, r: CIDRKey): Manifest {
    var name := "allow-ingress-to-" + local.pod + (if local.protocol != TCP then "-" + LowerText(local.protocol) else "")
                + (if local.ports == [] then "" else PortTail(local.protocol, local.ports, local.hasRange))
                + "-from-" + (if r.cidr == ANYWHERE then "anywhere" else "cidr-" + CIDRSegment(r.cidr));
    Manifest("", Prepend(c.spec.prepend, c.pkg.name, name), map[], map[AUTHZ + "from-cidr" := key, AUTHZ + "cidr" := r.cidr], [],
             AuthorizationPolicy(AuthzSpec(DestinationLabels(local, source), IPBlocks([r.cidr]), AuthzPorts(local))))
  }

  function AuthzK8sTail(r: K8sRemote): string {
    if r.identity != "" then "-from-ns-" + r.ns + "-with-identity-" + r.identity
    else if r.ns == "*" then "-from-ns-any" else "-from-ns-" + r.ns
  }

  function AuthzK8sAnnotations(key: string, r: K8sRemote): Labels {
    if r.identity != "" then map[AUTHZ + "from-spiffe" := key, AUTHZ + "identity" := r.identity]
    else if r.ns != "*" && r.pod != "" then map[AUTHZ + "from-namespace" := key, AUTHZ + "pod" := r.pod]
    else map[AUTHZ + "from-namespace" := key]
  }

  function Principal(ns: string, account: string): string { "cluster.local/ns/" + ns + "/sa/" + account }

  function BuildAuthzK8s(c: Ctx, local: LocalKey, source: Source, key: string, r: K8sRemote): Manifest {
    Manifest("", Prepend(c.spec.prepend, c.pkg.name,
                         IngressHead(local) + PortTail(local.protocol, local.ports, local.hasRange) + AuthzK8sTail(r)),
             map[], AuthzK8sAnnotations(key, r), [],
             AuthorizationPolicy(AuthzSpec(DestinationLabels(local, source),
                                           if r.identity != "" then Principals([Principal(r.ns, r.identity)]) else Namespaces([r.ns]),
                                           AuthzPorts(local))))
  }
}
