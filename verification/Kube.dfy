/** The objects the generator emits and what the network policies among them mean: a policy isolates the
    pods it selects, and the connections of an isolated pod are the union of its policies' rules. */
module Kube {
  import opened Common
  import Cidr

  // ---- selectors ---------------------------------------------------------

  datatype Requirement =
    | In(key: string, values: set<string>)
    | NotIn(key: string, values: set<string>)
    | Exists(key: string)
    | DoesNotExist(key: string)
  {
    predicate Holds(labels: Labels) {
      match this
      case In(k, vs) => k in labels && labels[k] in vs
      case NotIn(k, vs) => k !in labels || labels[k] !in vs
      case Exists(k) => k in labels
      case DoesNotExist(k) => k !in labels
    }
  }

  datatype Selector = Selector(matchLabels: Labels, expressions: seq<Requirement>) {
    predicate Selects(labels: Labels) {
      && (forall k :: k in matchLabels ==> k in labels && labels[k] == matchLabels[k])
      && (forall e :: e in expressions ==> e.Holds(labels))
    }
  }

  function ByLabels(labels: Labels): Selector { Selector(labels, []) }

  const EVERYTHING: Selector := Selector(map[], [])

  // ---- network policies --------------------------------------------------

  datatype Direction = Egress | Ingress

  datatype PortRef = Number(number: int) | Named(name: string)

  datatype PortRule = PortRule(protocol: Option<string>, port: Option<PortRef>, endPort: Option<int>)

  datatype IPBlock = IPBlock(cidr: string, except: seq<string>)

  datatype Peer = Peer(ipBlock: Option<IPBlock>, namespaceSelector: Option<Selector>, podSelector: Option<Selector>)

  datatype Rule = Rule(peers: seq<Peer>, ports: seq<PortRule>)

  datatype PolicySpec = PolicySpec(podSelector: Selector, types: seq<Direction>, egress: seq<Rule>, ingress: seq<Rule>)

  // ---- what they mean ----------------------------------------------------

  /** A pod with its own and its namespace's labels, or a host outside the cluster. */
  datatype Endpoint =
    | Pod(ns: string, nsLabels: Labels, labels: Labels, addr: nat)
    | Outside(addr: nat)
  {
    /** Kubernetes labels every namespace with its own name. */
    predicate Valid() { Pod? ==> "kubernetes.io/metadata.name" in nsLabels && nsLabels["kubernetes.io/metadata.name"] == ns }
  }

  datatype Connection = Connection(src: Endpoint, dst: Endpoint, protocol: string, port: nat, portName: Option<string>) {
    predicate Valid() { src.Valid() && dst.Valid() && port <= 65535 }

    /** The pod a policy of this direction restricts, and the peer its rules name. */
    function Subject(d: Direction): Endpoint { if d == Egress then src else dst }
    function Remote(d: Direction): Endpoint { if d == Egress then dst else src }
  }

  ghost predicate PeerMatches(p: Peer, ns: string, e: Endpoint) {
    match p.ipBlock
    case Some(b) => Cidr.BlockAdmits(b.cidr, b.except, e.addr)
    case None =>
      && e.Pod?
      && (p.namespaceSelector.Some? || p.podSelector.Some?)
      && (match p.namespaceSelector case None => e.ns == ns case Some(s) => s.Selects(e.nsLabels))
      && (match p.podSelector case None => true case Some(s) => s.Selects(e.labels))
  }

  ghost predicate PortMatches(r: PortRule, c: Connection) {
    && c.protocol == (if r.protocol.Some? then r.protocol.value else "TCP")
    && match r.port
       case None => true
       case Some(Named(n)) => c.portName == Some(n)
       case Some(Number(n)) => if r.endPort.None? then c.port == n else n <= c.port <= r.endPort.value
  }

  ghost predicate PortsMatch(rules: seq<PortRule>, c: Connection) {
    rules == [] || exists r :: r in rules && PortMatches(r, c)
  }

  ghost predicate PeersMatch(peers: seq<Peer>, ns: string, e: Endpoint) {
    peers == [] || exists p :: p in peers && PeerMatches(p, ns, e)
  }

  ghost predicate RuleAdmits(r: Rule, ns: string, d: Direction, c: Connection) {
    PeersMatch(r.peers, ns, c.Remote(d)) && PortsMatch(r.ports, c)
  }

  function Rules(spec: PolicySpec, d: Direction): seq<Rule> { if d == Egress then spec.egress else spec.ingress }

  /** Without explicit types a policy restricts ingress, and egress only when it has egress rules. */
  predicate Restricts(spec: PolicySpec, d: Direction) {
    if spec.types == [] then d == Ingress || spec.egress != [] else d in spec.types
  }

  predicate Selected(spec: PolicySpec, ns: string, d: Direction, c: Connection) {
    var s := c.Subject(d);
    Restricts(spec, d) && s.Pod? && s.ns == ns && spec.podSelector.Selects(s.labels)
  }

  /** The policy selects the connection's subject and one of its rules admits the connection. */
  ghost predicate PolicyAdmits(spec: PolicySpec, ns: string, d: Direction, c: Connection) {
    Selected(spec, ns, d, c) && exists r :: r in Rules(spec, d) && RuleAdmits(r, ns, d, c)
  }

  // ---- the other kinds ---------------------------------------------------

  /** The callers an authorization rule accepts. */
  datatype Caller = Principals(principals: seq<string>) | Namespaces(namespaces: seq<string>) | IPBlocks(blocks: seq<string>)

  /** One ALLOW rule; an empty port list means every port. */
  datatype AuthzSpec = AuthzSpec(selector: Labels, caller: Caller, ports: seq<string>)

  datatype Kind =
    | NetworkPolicyKind
    | PeerAuthenticationKind
    | AuthorizationPolicyKind
    | VirtualServiceKind
    | ServiceEntryKind
    | SidecarKind

  /** Where a VirtualService sends the traffic of its hosts. */
  datatype Routing =
    | Passthrough(gatewayPort: int, sniHosts: seq<string>, host: string, port: int)
    | HttpRules(rules: seq<string>)
    | Destination(host: string, port: int)

  /** The kinds that are passed through unread; network policies never are. */
  type OtherKind = k: Kind | k != NetworkPolicyKind witness AuthorizationPolicyKind

  /** What an object says beyond its metadata; `AllowNothing` is the authorization policy without rules, and
      `Raw` bodies pass through unread. */
  datatype Body =
    | NetworkPolicy(spec: PolicySpec)
    | AuthorizationPolicy(authz: AuthzSpec)
    | AllowNothing
    | VirtualService(hosts: seq<string>, gateways: seq<string>, routing: Routing)
    | ServiceEntry(hosts: seq<string>, resolution: string)
    | Raw(kind: OtherKind, text: string)
  {
    function Kind(): Kind {
      match this
      case NetworkPolicy(_) => NetworkPolicyKind
      case AuthorizationPolicy(_) => AuthorizationPolicyKind
      case AllowNothing => AuthorizationPolicyKind
      case VirtualService(_, _, _) => VirtualServiceKind
      case ServiceEntry(_, _) => ServiceEntryKind
      case Raw(k, _) => k
    }
  }

  datatype OwnerRef = OwnerRef(uid: string, kind: string, name: string)

  datatype Manifest = Manifest(namespace: string, name: string, labels: Labels, annotations: Labels,
                               owners: seq<OwnerRef>, body: Body)

  /** An object the generator takes over from the specification without interpreting it. It has no namespace and no
      owner yet. */
  datatype RawObject = RawObject(kind: OtherKind, name: string, labels: Labels, annotations: Labels, text: string)

  function Plain(os: seq<RawObject>): (ms: seq<Manifest>)
    ensures |ms| == |os|
    ensures forall m :: m in ms ==> m.namespace == "" && m.owners == [] && m.body.Raw?
  {
    seq(|os|, k requires 0 <= k < |os| => Manifest("", os[k].name, os[k].labels, os[k].annotations, [], Raw(os[k].kind, os[k].text)))
  }

  // ---- a set of manifests ------------------------------------------------

  ghost predicate Admits(m: Manifest, ns: string, d: Direction, c: Connection) {
    m.body.NetworkPolicy? && PolicyAdmits(m.body.spec, ns, d, c)
  }

  ghost predicate Isolates(m: Manifest, ns: string, d: Direction, c: Connection) {
    m.body.NetworkPolicy? && Selected(m.body.spec, ns, d, c)
  }

  /** Some policy of the list admits the connection. */
  ghost predicate SomeAdmits(ms: seq<Manifest>, ns: string, d: Direction, c: Connection) {
    exists m :: m in ms && Admits(m, ns, d, c)
  }

  /** The connection is allowed in direction `d` when the policies `ms` of namespace `ns` are in force. */
  ghost predicate Allowed(ms: seq<Manifest>, ns: string, d: Direction, c: Connection) {
    (exists m :: m in ms && Isolates(m, ns, d, c)) ==> SomeAdmits(ms, ns, d, c)
  }
}
