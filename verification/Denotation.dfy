/** What pods, definitions and their ports stand for, without reference to compiled rules. A definition means what the
    first layer that declares its name says: the Package's own, the shared pool, or the built-in ones. */
module Denotation {
  import opened Common
  import opened Kube
  import opened Spec
  import opened Builders
  import Cidr

  // ---- pods --------------------------------------------------------------

  predicate Within(wanted: Labels, labels: Labels) {
    forall k :: k in wanted ==> k in labels && labels[k] == wanted[k]
  }

  predicate HasLabel(labels: Labels, key: string, value: string) { key in labels && labels[key] == value }

  /** A pod of the named namespace with the label. */
  predicate PodOf(e: Endpoint, ns: string, key: string, value: string) { e.Pod? && e.ns == ns && HasLabel(e.labels, key, value) }

  lemma OneLabel(key: string, value: string, labels: Labels)
    ensures ByLabels(map[key := value]).Selects(labels) <==> HasLabel(labels, key, value)
  {
  }

  lemma LabelPeerMatches(ns: string, key: string, value: string, own: string, e: Endpoint)
    requires e.Valid()
    ensures PeersMatch([LabelPeer(NAMESPACE_NAME, ns, key, value)], own, e) <==> PodOf(e, ns, key, value)
  {
    var p := LabelPeer(NAMESPACE_NAME, ns, key, value);
    assert p in [p];
    assert PeersMatch([p], own, e) <==> PeerMatches(p, own, e);
    if e.Pod? {
      OneLabel(NAMESPACE_NAME, ns, e.nsLabels);
      OneLabel(key, value, e.labels);
    }
  }

  // ---- written definitions -----------------------------------------------

  /** One peer of a definition, seen from namespace `ns`: an address block, or pods by namespace labels and pod labels.
      An absent namespace selector stays in the own namespace, an explicitly empty one reaches every namespace. */
  ghost predicate PeerDescribed(p: RawPeer, ns: string, e: Endpoint) {
    if p.cidr.Some? || p.except.Some? then
      Cidr.BlockAdmits(if p.cidr.Some? then p.cidr.value else "", if p.except.Some? then p.except.value else [], e.addr)
    else
      && e.Pod? && (p.ns.Some? || p.pod.Some?)
      && (if p.ns.Some? then Within(p.ns.value, e.nsLabels) else e.ns == ns)
      && (p.pod.Some? ==> Within(p.pod.value, e.labels))
  }

  /** A definition without peers reaches everything, one without ports every port of every protocol. */
  ghost predicate PeersDescribed(peers: seq<RawPeer>, ns: string, e: Endpoint) {
    peers == [] || exists p :: p in peers && PeerDescribed(p, ns, e)
  }

  /** The protocol is TCP unless it is set; a named port is the peer's port of that name. */
  predicate PortDescribed(p: RawPort, conn: Connection) {
    && conn.protocol == (if p.protocol == "" then "TCP" else p.protocol)
    && match p.port
       case None => true
       case Some(Named(n)) => conn.portName == Some(n)
       case Some(Number(n)) => n <= conn.port && conn.port <= if p.endPort.Some? then p.endPort.value else n
  }

  predicate PortsDescribed(ports: seq<RawPort>, conn: Connection) {
    ports == [] || exists p :: p in ports && PortDescribed(p, conn)
  }

  lemma TypedPeerMeans(p: RawPeer, ns: string, e: Endpoint)
    ensures PeerMatches(TypedPeer(p), ns, e) <==> PeerDescribed(p, ns, e)
  {
  }

  lemma TypedPortMeans(p: RawPort, conn: Connection)
    ensures PortMatches(TypedPort(p), conn) <==> PortDescribed(p, conn)
  {
  }

  lemma WrittenMeans(peers: seq<RawPeer>, ports: seq<RawPort>, ns: string, e: Endpoint, conn: Connection)
    ensures PeersMatch(TypedPeers(peers), ns, e) <==> PeersDescribed(peers, ns, e)
    ensures PortsMatch(TypedPorts(ports), conn) <==> PortsDescribed(ports, conn)
  {
    hide PeerMatches, PeerDescribed, PortMatches, PortDescribed, TypedPeer, TypedPort;
    var peers', ports' := TypedPeers(peers), TypedPorts(ports);
    forall k | 0 <= k < |peers|
      ensures PeerMatches(peers'[k], ns, e) <==> PeerDescribed(peers[k], ns, e)
      ensures peers[k] in peers && peers'[k] in peers'
    {
      TypedPeerMeans(peers[k], ns, e);
    }
    forall k | 0 <= k < |ports|
      ensures PortMatches(ports'[k], conn) <==> PortDescribed(ports[k], conn)
      ensures ports[k] in ports && ports'[k] in ports'
    {
      TypedPortMeans(ports[k], conn);
    }
    if p :| p in peers && PeerDescribed(p, ns, e) {
      var k :| 0 <= k < |peers| && peers[k] == p;
    }
    if p :| p in ports && PortDescribed(p, conn) {
      var k :| 0 <= k < |ports| && ports[k] == p;
    }
  }

  // ---- layers ------------------------------------------------------------

  /** Where a name gets its meaning from. Behind an unreadable pool nothing has a meaning but the Package's own names. */
  datatype Layer = Written(raw: RawDefinition) | BuiltIn | Nowhere

  function LayerOf(c: Ctx, d: Direction, name: string): Layer {
    var side := if d == Egress then c.spec.egress else c.spec.ingress;
    var shared := if d == Egress then c.env.sharedEgress else c.env.sharedIngress;
    if side.Some? && name in side.value.definitions then Written(side.value.definitions[name])
    else if c.env.sharedError.Some? then Nowhere
    else if name in shared then Written(shared[name])
    else if name in (if d == Egress then {"kubeAPI"} else {"gateway", "monitoring"}) then BuiltIn
    else Nowhere
  }

  /** The private address ranges, in which an API server is looked for. */
  ghost predicate IsPrivate(x: nat) {
    Cidr.BlockAdmits("10.0.0.0/8", [], x) || Cidr.BlockAdmits("172.16.0.0/12", [], x) || Cidr.BlockAdmits("192.168.0.0/16", [], x)
  }

  /** The peers behind a definition's name. */
  ghost predicate DefinitionPeers(c: Ctx, d: Direction, name: string, e: Endpoint) {
    match LayerOf(c, d, name)
    case Written(raw) => raw.Definition? && PeersDescribed(raw.peers, c.pkg.namespace, e)
    case BuiltIn =>
      if d == Egress then IsPrivate(e.addr)
      else if name == "gateway" then PodOf(e, "istio-gateway", "istio", "ingressgateway")
      else PodOf(e, "monitoring", "app.kubernetes.io/name", "prometheus")
    case Nowhere => false
  }

  /** The API server's ports, over TCP; any port where they are not known. */
  predicate KubeAPIPort(ports: seq<PortRef>, conn: Connection) {
    ports == [] || (conn.protocol == "TCP" && exists p :: p in ports && IsPort(p, conn))
  }

  predicate IsPort(p: PortRef, conn: Connection) {
    match p case Number(n) => conn.port == n case Named(n) => conn.portName == Some(n)
  }

  /** The ports behind a definition's name. */
  predicate DefinitionPorts(c: Ctx, d: Direction, name: string, conn: Connection) {
    match LayerOf(c, d, name)
    case Written(raw) => raw.Definition? && PortsDescribed(raw.ports, conn)
    case BuiltIn => d == Egress ==> KubeAPIPort(c.env.kubeAPIPorts, conn)
    case Nowhere => false
  }

  function ResolveDefinition(c: Ctx, d: Direction, name: string): Result<Rule> {
    if d == Egress then ResolveEgressDefinition(c, name) else ResolveIngressDefinition(c, name)
  }

  lemma KubeAPIMeans(ports: seq<PortRef>, ns: string, e: Endpoint, conn: Connection)
    ensures var rule := BuiltInEgress("kubeAPI", ports).value;
            && (PeersMatch(rule.peers, ns, e) <==> IsPrivate(e.addr))
            && (PortsMatch(rule.ports, conn) <==> KubeAPIPort(ports, conn))
  {
    hide PeersMatch, CIDRPeer, Cidr.BlockAdmits, PortsMatch, KubeAPIPort;
    var rule := BuiltInEgress("kubeAPI", ports).value;
    ThreeBlocks("10.0.0.0/8", "172.16.0.0/12", "192.168.0.0/16", ns, e);
    KubeAPIPortsMean(ports, rule.ports, conn);
  }

  lemma ThreeBlocks(x: string, y: string, z: string, ns: string, e: Endpoint)
    ensures PeersMatch([CIDRPeer(x, []), CIDRPeer(y, []), CIDRPeer(z, [])], ns, e) <==>
            Cidr.BlockAdmits(x, [], e.addr) || Cidr.BlockAdmits(y, [], e.addr) || Cidr.BlockAdmits(z, [], e.addr)
  {
    hide Cidr.BlockAdmits;
    var all := [CIDRPeer(x, []), CIDRPeer(y, []), CIDRPeer(z, [])];
    assert all[0] in all && all[1] in all && all[2] in all;
  }

  lemma KubeAPIPortsMean(ports: seq<PortRef>, rules: seq<PortRule>, conn: Connection)
    requires |rules| == |ports| && forall k :: 0 <= k < |ports| ==> rules[k] == PortRule(Some("TCP"), Some(ports[k]), None)
    ensures PortsMatch(rules, conn) <==> KubeAPIPort(ports, conn)
  {
    forall k | 0 <= k < |ports|
      ensures PortMatches(rules[k], conn) <==> conn.protocol == "TCP" && IsPort(ports[k], conn)
      ensures ports[k] in ports && rules[k] in rules
    {
    }
    hide PortMatches, IsPort;
    if p :| p in ports && IsPort(p, conn) {
      var k :| 0 <= k < |ports| && ports[k] == p;
    }
    if r :| r in rules && PortMatches(r, conn) {
      var k :| 0 <= k < |rules| && rules[k] == r;
    }
  }

  lemma BuiltInIngressMeans(name: string, ns: string, e: Endpoint, conn: Connection)
    requires e.Valid() && name in {"gateway", "monitoring"}
    ensures var rule := BuiltInIngress(name).value;
            && (PeersMatch(rule.peers, ns, e) <==>
                if name == "gateway" then PodOf(e, "istio-gateway", "istio", "ingressgateway") else PodOf(e, "monitoring", "app.kubernetes.io/name", "prometheus"))
            && PortsMatch(rule.ports, conn)
  {
    hide PeersMatch, PodOf, LabelPeer;
    LabelPeerMatches("istio-gateway", "istio", "ingressgateway", ns, e);
    LabelPeerMatches("monitoring", APP_NAME, "prometheus", ns, e);
  }

  /** A name resolves exactly when some layer gives it a readable meaning. */
  lemma ResolvesExactly(c: Ctx, d: Direction, name: string)
    ensures ResolveDefinition(c, d, name).Ok? <==>
            (match LayerOf(c, d, name) case Written(raw) => raw.Definition? case BuiltIn => true case Nowhere => false)
  {
    hide CIDRPeer, LabelPeer, TypedPeers, TypedPorts;
  }

  /** The rule a name resolves to admits exactly the peers and ports behind the name. */
  lemma ResolvedMeans(c: Ctx, d: Direction, name: string, e: Endpoint, conn: Connection)
    requires e.Valid() && ResolveDefinition(c, d, name).Ok?
    ensures var rule := ResolveDefinition(c, d, name).value;
            && (PeersMatch(rule.peers, c.pkg.namespace, e) <==> DefinitionPeers(c, d, name, e))
            && (PortsMatch(rule.ports, conn) <==> DefinitionPorts(c, d, name, conn))
  {
    hide PeersMatch, PortsMatch, IsPrivate, KubeAPIPort, PodOf, TypedPeers, TypedPorts, PeersDescribed, PortsDescribed, CIDRPeer, LabelPeer;
    var ns := c.pkg.namespace;
    ResolvesExactly(c, d, name);
    match LayerOf(c, d, name)
    case Written(raw) => WrittenMeans(raw.peers, raw.ports, ns, e, conn);
    case BuiltIn =>
      if d == Egress {
        KubeAPIMeans(c.env.kubeAPIPorts, ns, e, conn);
      } else {
        BuiltInIngressMeans(name, ns, e, conn);
      }
  }
}
