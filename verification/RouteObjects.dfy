/** What a resolved route turns into: a VirtualService, a service entry, a network policy per gateway and an
    authorization policy per gateway. The emitters do not see each other's output; they agree all the same. */
module RouteObjects {
  import opened Common
  import opened Text
  import opened Kube
  import opened Names
  import opened Ports
  import opened Routes
  import opened Passes
  import S = Spec
  import B = Builders
  import L = Lockstep
  import Meaning
  import Keys

  // ---- ports -------------------------------------------------------------

  /** Conversion to an unsigned 32-bit integer. */
  function UInt32(n: int): (r: nat)
    ensures r < 0x1_0000_0000
  {
    n % 0x1_0000_0000
  }

  /** A named port has no number here. */
  function PortNumber(p: Option<PortRef>): (n: nat)
    ensures n < 0x1_0000_0000
  {
    match p
    case Some(Number(n)) => UInt32(n)
    case _ => 0
  }

  /** The port gateway traffic reaches the pod on. */
  function WorkloadPort(r: InboundRoute): Option<PortRef> { if r.containerPort.Some? then r.containerPort else r.port }

  /** `q` is what a port reference counts as: its number modulo 2^32, and zero for a name. */
  predicate CountsAs(p: Option<PortRef>, q: int) {
    match p
    case Some(Number(n)) => q == n % 0x1_0000_0000
    case Some(Named(_)) => q == 0
    case None => q == 0
  }

  /** `q` is the port gateway traffic reaches the pods of the route on: the container port where one is given, and only
      else the service port. */
  predicate OnWorkloadPort(r: InboundRoute, q: int) {
    && (r.containerPort.Some? ==> CountsAs(r.containerPort, q))
    && (r.containerPort.None? ==> CountsAs(r.port, q))
  }

  lemma WorkloadNumber(r: InboundRoute, q: int)
    ensures OnWorkloadPort(r, q) <==> q == PortNumber(WorkloadPort(r))
    ensures CountsAs(r.port, q) <==> q == PortNumber(r.port)
  {
  }

  // ---- names -------------------------------------------------------------

  /** The first label of a service's host name. */
  function ServiceLeaf(s: string): string {
    var i := Index(s, '.');
    if i > 0 then s[..i] else s
  }

  predicate HasWildcard(hosts: seq<string>) { exists h :: h in hosts && '*' in h }

  // ---- the objects -------------------------------------------------------

  function Decodable(http: seq<Option<string>>): Result<seq<string>> {
    if http == [] then Ok([])
    else if http[|http| - 1].None? then (var init := Decodable(http[..|http| - 1]); if init.Err? then init else Err(MalformedValue("http")))
    else
      var init := Decodable(http[..|http| - 1]);
      if init.Err? then init else Ok(init.value + [http[|http| - 1].value])
  }

  /** Passthrough excludes HTTP rules, and raw HTTP rules replace the default destination. */
  function RoutingOf(r: InboundRoute): Result<Routing> {
    if r.passthrough.Some? then
      Ok(Passthrough(if r.passthrough.value.Some? then UInt32(r.passthrough.value.value) else 8443, r.hosts, r.service, PortNumber(r.port)))
    else if r.http != [] then
      match Decodable(r.http)
      case Err(e) => Err(e)
      case Ok(rules) => Ok(HttpRules(rules))
    else Ok(Routing.Destination(r.service, PortNumber(WorkloadPort(r))))
  }

  function BuildVirtualService(pkg: S.Package, prepend: bool, name: string, r: InboundRoute, routing: Routing): Manifest {
    Manifest("", Prepend(prepend, pkg.name, name), r.labels, r.annotations, [],
             VirtualService(r.hosts, if r.gateways.Some? then r.gateways.value else [], routing))
  }

  /** Wildcard hosts cannot be resolved by DNS. */
  function BuildServiceEntry(pkg: S.Package, prepend: bool, name: string, r: InboundRoute): Manifest {
    Manifest("", Prepend(prepend, pkg.name, name + "-internal"), r.labels, r.annotations, [],
             ServiceEntry(r.hosts, if r.resolution == "" && HasWildcard(r.hosts) then "NONE" else r.resolution))
  }

  function BuildNetpol(pkg: S.Package, prepend: bool, r: InboundRoute, g: Gateway): Manifest {
    Manifest("", Prepend(prepend, pkg.name,
                         "allow-ingress-to-" + ServiceLeaf(r.service) + "-" + Itoa(PortNumber(WorkloadPort(r)))
                         + "-from-ns-" + g.ns + "-pod-" + g.name),
             r.labels + B.NetpolLabels(Ingress), r.annotations, [],
             NetworkPolicy(PolicySpec(ByLabels(r.selector), [Ingress], [], [RouteRule(r, g)])))
  }

  function RouteRule(r: InboundRoute, g: Gateway): Rule {
    Rule([Peer(None, Some(ByLabels(map[B.NAMESPACE_NAME := g.ns])), Some(g.definition.podSelector))],
         [PortRule(Some("TCP"), Some(Number(Int32(PortNumber(WorkloadPort(r))))), None)])
  }

  function BuildAuthz(pkg: S.Package, prepend: bool, r: InboundRoute, g: Gateway, suffix: string): Manifest {
    var n := PortNumber(WorkloadPort(r));
    Manifest("", Prepend(prepend, pkg.name, ServiceLeaf(r.service) + "-" + suffix + "-authz-policy"), r.labels, r.annotations, [],
             AuthorizationPolicy(AuthzSpec(r.selector, Principals([B.Principal(g.ns, g.definition.serviceAccount)]),
                                           if n != 0 then [Itoa(n)] else [])))
  }

  // ---- the routes pass ---------------------------------------------------

  function Netpols(pkg: S.Package, prepend: bool, r: Resolved): (out: seq<Manifest>)
    ensures |out| == |r.gateways| && forall k :: 0 <= k < |out| ==> out[k] == BuildNetpol(pkg, prepend, r.route, r.gateways[k])
  {
    seq(|r.gateways|, k requires 0 <= k < |r.gateways| => BuildNetpol(pkg, prepend, r.route, r.gateways[k]))
  }

  method BuildInboundNetpols(pkg: S.Package, prepend: bool, r: Resolved) returns (out: seq<Manifest>)
    ensures out == Netpols(pkg, prepend, r)
  {
    hide BuildNetpol;
    out := [];
    for n := 0 to |r.gateways|
      invariant |out| == n && forall k :: 0 <= k < n ==> out[k] == BuildNetpol(pkg, prepend, r.route, r.gateways[k])
    {
      out := out + [BuildNetpol(pkg, prepend, r.route, r.gateways[n])];
    }
  }

  function RouteBlock(pkg: S.Package, prepend: bool, netpols: bool, r: Resolved): Result<seq<Manifest>> {
    match RoutingOf(r.route)
    case Err(e) => Err(e)
    case Ok(routing) =>
      Ok([BuildVirtualService(pkg, prepend, r.name, r.route, routing), BuildServiceEntry(pkg, prepend, r.name, r.route)]
         + if netpols then Netpols(pkg, prepend, r) else [])
  }

  function InboundObjects(pkg: S.Package, prepend: bool, netpols: bool, rs: seq<Resolved>): Result<seq<Manifest>> {
    if rs == [] then Ok([])
    else Then(InboundObjects(pkg, prepend, netpols, rs[..|rs| - 1]), RouteBlock(pkg, prepend, netpols, rs[|rs| - 1]))
  }

  function PlainResult(r: Result<seq<RawObject>>): Result<seq<Manifest>> {
    match r case Err(e) => Err(e) case Ok(os) => Ok(Plain(os))
  }

  /** The inbound routes, then the outbound ones. */
  function RoutesOutput(pkg: S.Package, spec: RouteSpec, netpols: bool, rs: seq<Resolved>): Result<seq<Manifest>> {
    Then(InboundObjects(pkg, spec.prepend, netpols, rs), PlainResult(spec.outbound))
  }

  lemma {:induction false} InboundPrefix(pkg: S.Package, prepend: bool, netpols: bool, rs: seq<Resolved>, n: nat)
    requires n <= |rs| && InboundObjects(pkg, prepend, netpols, rs[..n]).Err?
    ensures InboundObjects(pkg, prepend, netpols, rs) == InboundObjects(pkg, prepend, netpols, rs[..n])
    decreases |rs|
  {
    hide RouteBlock;
    if n == |rs| {
      assert rs[..n] == rs;
    } else {
      assert rs[..|rs| - 1][..n] == rs[..n];
      InboundPrefix(pkg, prepend, netpols, rs[..|rs| - 1], n);
    }
  }

  method GenerateRoutes(pkg: S.Package, spec: RouteSpec, netpols: bool, rs: seq<Resolved>) returns (r: Result<seq<Manifest>>)
    ensures r == RoutesOutput(pkg, spec, netpols, rs)
  {
    hide RoutingOf, BuildVirtualService, BuildServiceEntry, BuildNetpol;
    var out: seq<Manifest> := [];
    for n := 0 to |rs|
      invariant InboundObjects(pkg, spec.prepend, netpols, rs[..n]) == Ok(out)
    {
      assert rs[..n + 1][..n] == rs[..n];
      var routing := RoutingOf(rs[n].route);
      if routing.Err? {
        InboundPrefix(pkg, spec.prepend, netpols, rs, n + 1);
        return Err(routing.error);
      }
      ghost var before := out;
      out := out + [BuildVirtualService(pkg, spec.prepend, rs[n].name, rs[n].route, routing.value)];
      out := out + [BuildServiceEntry(pkg, spec.prepend, rs[n].name, rs[n].route)];
      if netpols {
        var nps := BuildInboundNetpols(pkg, spec.prepend, rs[n]);
        out := out + nps;
      }
      assert out == before + RouteBlock(pkg, spec.prepend, netpols, rs[n]).value;
    }
    assert rs[..|rs|] == rs;
    if spec.outbound.Err? {
      return Err(spec.outbound.error);
    }
    return Ok(out + Plain(spec.outbound.value));
  }

  // ---- the authorization pass --------------------------------------------

  /** The namespaces in which gateways of this name occur. */
  function NamespacesOf(rs: seq<Resolved>, name: string): set<string> {
    set r, g | r in rs && g in r.gateways && g.name == name :: g.ns
  }

  /** A gateway name is qualified when it occurs in more than one namespace. */
  function Suffix(rs: seq<Resolved>, g: Gateway): string {
    if |NamespacesOf(rs, g.name)| > 1 then g.ns + "-" + g.name else g.name
  }

  function RouteAuthz(pkg: S.Package, prepend: bool, all: seq<Resolved>, r: Resolved, n: nat): (out: seq<Manifest>)
    requires n <= |r.gateways|
    ensures |out| == n
    ensures forall k :: 0 <= k < n ==> out[k] == BuildAuthz(pkg, prepend, r.route, r.gateways[k], Suffix(all, r.gateways[k]))
  {
    seq(n, k requires 0 <= k < n => BuildAuthz(pkg, prepend, r.route, r.gateways[k], Suffix(all, r.gateways[k])))
  }

  function AuthzOf(pkg: S.Package, prepend: bool, all: seq<Resolved>, rs: seq<Resolved>): seq<Manifest> {
    if rs == [] then []
    else AuthzOf(pkg, prepend, all, rs[..|rs| - 1]) + RouteAuthz(pkg, prepend, all, rs[|rs| - 1], |rs[|rs| - 1].gateways|)
  }

  function NamespacesIn(gateways: seq<Gateway>, name: string): set<string> {
    set g | g in gateways && g.name == name :: g.ns
  }

  function At(namespaces: map<string, set<string>>, name: string): set<string> {
    if name in namespaces then namespaces[name] else {}
  }

  lemma NamespacesStep(rs: seq<Resolved>, n: nat, name: string)
    requires n < |rs|
    ensures NamespacesOf(rs[..n + 1], name) == NamespacesOf(rs[..n], name) + NamespacesIn(rs[n].gateways, name)
  {
    assert rs[..n + 1] == rs[..n] + [rs[n]];
  }

  lemma NamespacesInStep(gateways: seq<Gateway>, m: nat, name: string)
    requires m < |gateways|
    ensures NamespacesIn(gateways[..m + 1], name) ==
            NamespacesIn(gateways[..m], name) + if gateways[m].name == name then {gateways[m].ns} else {}
  {
    assert gateways[..m + 1] == gateways[..m] + [gateways[m]];
  }

  /** Collects, for every gateway name, the namespaces it occurs in. */
  method GatewayNamespaces(rs: seq<Resolved>) returns (namespaces: map<string, set<string>>)
    ensures forall name :: At(namespaces, name) == NamespacesOf(rs, name)
  {
    hide NamespacesOf, NamespacesIn;
    namespaces := map[];
    NoNamespaces(rs);
    for n := 0 to |rs|
      invariant forall name :: At(namespaces, name) == NamespacesOf(rs[..n], name)
    {
      var gws := rs[n].gateways;
      NoNamespacesIn(gws);
      for m := 0 to |gws|
        invariant forall name :: At(namespaces, name) == NamespacesOf(rs[..n], name) + NamespacesIn(gws[..m], name)
      {
        var g := gws[m];
        ghost var before := namespaces;
        if g.name !in namespaces {
          namespaces := namespaces[g.name := {}];
        }
        namespaces := namespaces[g.name := namespaces[g.name] + {g.ns}];
        forall name ensures At(namespaces, name) == NamespacesOf(rs[..n], name) + NamespacesIn(gws[..m + 1], name) {
          NamespacesInStep(gws, m, name);
          assert At(namespaces, name) == At(before, name) + if g.name == name then {g.ns} else {};
        }
      }
      assert gws[..|gws|] == gws;
      forall name ensures At(namespaces, name) == NamespacesOf(rs[..n + 1], name) {
        NamespacesStep(rs, n, name);
      }
    }
    assert rs[..|rs|] == rs;
  }

  lemma NoNamespaces(rs: seq<Resolved>)
    ensures forall name :: NamespacesOf(rs[..0], name) == {}
  {
  }

  lemma NoNamespacesIn(gateways: seq<Gateway>)
    ensures forall name :: NamespacesIn(gateways[..0], name) == {}
  {
  }

  method GenerateAuthzFromRoutes(pkg: S.Package, prepend: bool, rs: seq<Resolved>) returns (out: seq<Manifest>)
    ensures out == AuthzOf(pkg, prepend, rs, rs)
  {
    hide BuildAuthz, NamespacesOf;
    var namespaces := GatewayNamespaces(rs);
    out := [];
    for n := 0 to |rs|
      invariant out == AuthzOf(pkg, prepend, rs, rs[..n])
    {
      assert rs[..n + 1][..n] == rs[..n];
      ghost var before := out;
      for m := 0 to |rs[n].gateways|
        invariant out == before + RouteAuthz(pkg, prepend, rs, rs[n], m)
      {
        var g := rs[n].gateways[m];
        var suffix := g.name;
        if |At(namespaces, g.name)| > 1 {
          suffix := g.ns + "-" + g.name;
        }
        out := out + [BuildAuthz(pkg, prepend, rs[n].route, g, suffix)];
        assert RouteAuthz(pkg, prepend, rs, rs[n], m + 1)
            == RouteAuthz(pkg, prepend, rs, rs[n], m) + [BuildAuthz(pkg, prepend, rs[n].route, g, suffix)];
      }
    }
    assert rs[..|rs|] == rs;
  }

  // ---- where the objects of a route are ----------------------------------

  /** The routes pass holds every route's block, in route order. */
  lemma {:induction false} BlockAt(pkg: S.Package, prepend: bool, netpols: bool, rs: seq<Resolved>, n: nat) returns (tail: seq<Manifest>)
    requires n < |rs| && InboundObjects(pkg, prepend, netpols, rs).Ok?
    ensures InboundObjects(pkg, prepend, netpols, rs[..n]).Ok? && RouteBlock(pkg, prepend, netpols, rs[n]).Ok?
    ensures InboundObjects(pkg, prepend, netpols, rs).value ==
            InboundObjects(pkg, prepend, netpols, rs[..n]).value + RouteBlock(pkg, prepend, netpols, rs[n]).value + tail
    decreases |rs|
  {
    hide RouteBlock;
    if n == |rs| - 1 {
      tail := [];
    } else {
      var init := rs[..|rs| - 1];
      assert init[..n] == rs[..n];
      var rest := BlockAt(pkg, prepend, netpols, init, n);
      tail := rest + RouteBlock(pkg, prepend, netpols, rs[|rs| - 1]).value;
    }
  }

  lemma {:induction false} AuthzAt(pkg: S.Package, prepend: bool, all: seq<Resolved>, rs: seq<Resolved>, n: nat) returns (tail: seq<Manifest>)
    requires n < |rs|
    ensures AuthzOf(pkg, prepend, all, rs) ==
            AuthzOf(pkg, prepend, all, rs[..n]) + RouteAuthz(pkg, prepend, all, rs[n], |rs[n].gateways|) + tail
    decreases |rs|
  {
    hide BuildAuthz, Suffix;
    if n == |rs| - 1 {
      tail := [];
    } else {
      var init := rs[..|rs| - 1];
      assert init[..n] == rs[..n];
      var rest := AuthzAt(pkg, prepend, all, init, n);
      tail := rest + RouteAuthz(pkg, prepend, all, rs[|rs| - 1], |rs[|rs| - 1].gateways|);
    }
  }

  // ---- agreement ---------------------------------------------------------

  /** The pods a gateway consists of. */
  predicate IsGatewayPod(g: Gateway, e: Endpoint) { e.Pod? && e.ns == g.ns && g.definition.podSelector.Selects(e.labels) }

  /** A route's network policy for a gateway opens exactly the way from the gateway's pods to the route's pods on
      the workload port. */
  lemma NetpolMeans(pkg: S.Package, prepend: bool, r: InboundRoute, g: Gateway, conn: Connection)
    requires conn.Valid()
    ensures Admits(BuildNetpol(pkg, prepend, r, g), pkg.namespace, Ingress, conn) <==>
            && conn.dst.Pod? && conn.dst.ns == pkg.namespace && ByLabels(r.selector).Selects(conn.dst.labels)
            && IsGatewayPod(g, conn.src)
            && conn.protocol == "TCP" && OnWorkloadPort(r, conn.port)
  {
    WorkloadNumber(r, conn.port);
    hide PortNumber, WorkloadPort, ServiceLeaf, B.NetpolLabels, PeersMatch, PortsMatch, OnWorkloadPort;
    var rule := RouteRule(r, g);
    var spec := BuildNetpol(pkg, prepend, r, g).body.spec;
    assert Ingress in spec.types && spec.ingress == [rule];
    Meaning.OneRule(rule, pkg.namespace, Ingress, conn);
    hide RouteRule, RuleAdmits;
    assert Selected(spec, pkg.namespace, Ingress, conn) <==>
           conn.dst.Pod? && conn.dst.ns == pkg.namespace && ByLabels(r.selector).Selects(conn.dst.labels);
    RulePeers(r, g, pkg.namespace, conn.src);
    RulePorts(r, g, conn);
  }

  lemma RulePeers(r: InboundRoute, g: Gateway, ns: string, e: Endpoint)
    requires e.Valid()
    ensures PeersMatch(RouteRule(r, g).peers, ns, e) <==> IsGatewayPod(g, e)
  {
    hide PortNumber, WorkloadPort;
    var peer := RouteRule(r, g).peers[0];
    assert peer in RouteRule(r, g).peers;
    if e.Pod? {
      NamespaceByName(g.ns, e);
    }
    hide Selector.Selects;
    assert PeerMatches(peer, ns, e) <==> IsGatewayPod(g, e);
  }

  lemma RulePorts(r: InboundRoute, g: Gateway, conn: Connection)
    requires conn.port <= 65535
    ensures PortsMatch(RouteRule(r, g).ports, conn) <==> conn.protocol == "TCP" && conn.port == PortNumber(WorkloadPort(r))
  {
    hide PortNumber, WorkloadPort;
    var ports := RouteRule(r, g).ports;
    assert ports[0] in ports;
    RealPort(PortNumber(WorkloadPort(r)), conn.port);
  }

  lemma RealPort(n: nat, q: nat)
    requires n < 0x1_0000_0000 && q <= 65535
    ensures q == Int32(n) <==> q == n
  {
  }

  lemma NamespaceByName(ns: string, e: Endpoint)
    requires e.Valid() && e.Pod?
    ensures ByLabels(map[B.NAMESPACE_NAME := ns]).Selects(e.nsLabels) <==> e.ns == ns
  {
  }

  /** The objects of a route and the order they come in. */
  lemma BlockShape(pkg: S.Package, prepend: bool, r: Resolved, i: nat)
    requires RouteBlock(pkg, prepend, true, r).Ok? && i < |r.gateways| && r.route.gateways.Some?
    ensures var block := RouteBlock(pkg, prepend, true, r).value;
            && |block| == 2 + |r.gateways| && RouteBlock(pkg, prepend, false, r) == Ok(block[..2])
            && block[2 + i] == BuildNetpol(pkg, prepend, r.route, r.gateways[i])
            && RoutingOf(r.route).Ok?
            && block[0].body == VirtualService(r.route.hosts, r.route.gateways.value, RoutingOf(r.route).value)
            && block[1].body.ServiceEntry? && block[1].body.hosts == r.route.hosts
            && (block[1].body.resolution == if r.route.resolution != "" then r.route.resolution
                                            else if exists h :: h in r.route.hosts && '*' in h then "NONE" else "")
  {
    hide RoutingOf, BuildNetpol;
    if RoutingOf(r.route).Ok? {
      var head := [BuildVirtualService(pkg, prepend, r.name, r.route, RoutingOf(r.route).value), BuildServiceEntry(pkg, prepend, r.name, r.route)];
      assert (head + Netpols(pkg, prepend, r))[..2] == head && head + [] == head;
    }
  }

  /** The `i`th gateway of the VirtualService, the `i`th network policy and the `i`th authorization policy of a route
      name the same gateway and select the same pods. */
  lemma RouteAgreement(pkg: S.Package, spec: RouteSpec, env: IngressEnv, all: seq<Resolved>, r: Resolved, i: nat)
    requires ResolveAll(spec, env) == Ok(all) && r in all && i < |r.gateways|
    requires RouteBlock(pkg, spec.prepend, true, r).Ok?
    ensures ResolvedFrom(r, spec, env)
    ensures var block := RouteBlock(pkg, spec.prepend, true, r).value;
            var g := r.gateways[i];
            var vs, np := block[0].body, block[2 + i].body;
            var ap := RouteAuthz(pkg, spec.prepend, all, r, |r.gateways|)[i].body;
            && |block| == 2 + |r.gateways|
            && vs.VirtualService? && |vs.gateways| == |r.gateways| && SplitGateway(vs.gateways[i]) == Some((g.ns, g.name))
            && vs.gateways[i] == g.ns + "/" + g.name
            && block[2 + i] == BuildNetpol(pkg, spec.prepend, r.route, g)
            && np.NetworkPolicy? && ap.AuthorizationPolicy?
            && np.spec.podSelector == ByLabels(ap.authz.selector) && ap.authz.selector == r.route.selector
            && ap.authz.caller == Principals(["cluster.local/ns/" + g.ns + "/sa/" + g.definition.serviceAccount])
            && IsGateway(g, vs.gateways[i], env) && Some(vs.gateways) == r.route.gateways
            && vs.hosts == r.route.hosts && block[1].body.ServiceEntry? && block[1].body.hosts == r.route.hosts
            && (DestinationPort(vs.routing).Some? ==>
                  (OnWorkloadPort(r.route, DestinationPort(vs.routing).value) <==>
                   r.route.passthrough.None? || exists n :: CountsAs(r.route.port, n) && OnWorkloadPort(r.route, n)))
  {
    hide RouteBlock, RouteRule, RoutingOf, ServiceLeaf, Itoa, PortNumber, WorkloadPort, Suffix, Keys.KeyOrder, ResolveKeys,
      OnWorkloadPort, CountsAs, SplitGateway, IsLabel, IsSubdomain;
    ResolvedRoutes(spec, env, Keys.KeyOrder(spec.inbound.Keys));
    var g := r.gateways[i];
    SplitGatewayComplete(g.ns, g.name);
    BlockShape(pkg, spec.prepend, r, i);
    if DestinationPort(RoutingOf(r.route).value).Some? {
      DestinationPortAgrees(r.route, g);
    }
    hide DestinationPort;
  }

  /** Where a route's traffic goes: a passthrough route to its service by TLS, from port 8443 unless it says otherwise;
      a route with raw rules wherever they say, in their order; any other to its service. A raw rule that cannot be read
      stops the generation, unless passthrough makes it irrelevant. */
  lemma RoutingChoice(r: InboundRoute)
    ensures r.passthrough.Some? ==>
              RoutingOf(r).Ok? && RoutingOf(r).value.Passthrough?
              && RoutingOf(r).value.host == r.service && RoutingOf(r).value.sniHosts == r.hosts
              && (r.passthrough.value.None? ==> RoutingOf(r).value.gatewayPort == 8443)
              && (r.passthrough.value.Some? && 0 <= r.passthrough.value.value < 0x1_0000_0000 ==>
                    RoutingOf(r).value.gatewayPort == r.passthrough.value.value)
    ensures r.passthrough.None? && r.http != [] ==>
              (RoutingOf(r).Ok? <==> forall k :: 0 <= k < |r.http| ==> r.http[k].Some?)
              && (RoutingOf(r).Ok? ==> RoutingOf(r).value.HttpRules? && |RoutingOf(r).value.rules| == |r.http|
                                       && forall k :: 0 <= k < |r.http| ==> r.http[k] == Some(RoutingOf(r).value.rules[k]))
    ensures r.passthrough.None? && r.http == [] ==>
              RoutingOf(r).Ok? && RoutingOf(r).value.Destination? && RoutingOf(r).value.host == r.service
  {
    hide PortNumber, WorkloadPort, Decodable;
    DecodableExactly(r.http);
  }

  lemma {:induction false} DecodableExactly(http: seq<Option<string>>)
    ensures Decodable(http).Ok? <==> forall k :: 0 <= k < |http| ==> http[k].Some?
    ensures Decodable(http).Ok? ==> |Decodable(http).value| == |http| && forall k :: 0 <= k < |http| ==> http[k] == Some(Decodable(http).value[k])
    decreases |http|
  {
    if http != [] {
      DecodableExactly(http[..|http| - 1]);
    }
  }

  /** Both policies restrict the route to the same ports exactly when the workload port is a non-zero number modulo
      2^32: for a named or zero port the authorization policy allows every port and the network policy only port 0. */
  lemma WorkloadPortsAgree(pkg: S.Package, prepend: bool, r: InboundRoute, g: Gateway, suffix: string)
    ensures var np := RouteRule(r, g).ports;
            var ap := BuildAuthz(pkg, prepend, r, g, suffix).body.authz.ports;
            (forall q: nat :: q <= 65535 ==> (PortsMatch(np, TCPTo(q)) <==> L.AuthzAdmitsPort(ap, q)))
            <==> !OnWorkloadPort(r, 0)
  {
    WorkloadNumber(r, 0);
    hide OnWorkloadPort;
    hide PortNumber, WorkloadPort, ServiceLeaf, Itoa;
    var n := PortNumber(WorkloadPort(r));
    var np, ap := RouteRule(r, g).ports, BuildAuthz(pkg, prepend, r, g, suffix).body.authz.ports;
    forall q: nat | q <= 65535
      ensures PortsMatch(np, TCPTo(q)) <==> q == n
      ensures L.AuthzAdmitsPort(ap, q) <==> n == 0 || q == n
    {
      RulePorts(r, g, TCPTo(q));
      if n != 0 && Itoa(q) in ap {
        ItoaInjective(q, n);
      }
    }
    hide RouteRule, BuildAuthz, PortsMatch, L.AuthzAdmitsPort;
    if n == 0 {
      var q: nat := 1;
      assert !(PortsMatch(np, TCPTo(q)) <==> L.AuthzAdmitsPort(ap, q));
    }
  }

  /** The port of a VirtualService's destination; raw HTTP rules name their own. */
  function DestinationPort(routing: Routing): Option<int> {
    match routing
    case Passthrough(_, _, _, port) => Some(port)
    case Destination(_, port) => Some(port)
    case HttpRules(_) => None
  }

  /** A route's VirtualService, when it names a port itself, sends traffic to the very number its policies open exactly
      if the route is no passthrough or its service port and its workload port are the same number. */
  lemma DestinationPortAgrees(r: InboundRoute, g: Gateway)
    requires RoutingOf(r).Ok? && DestinationPort(RoutingOf(r).value).Some?
    ensures var port := DestinationPort(RoutingOf(r).value).value;
            && (OnWorkloadPort(r, port) <==> r.passthrough.None? || exists n :: CountsAs(r.port, n) && OnWorkloadPort(r, n))
            && (r.passthrough.Some? ==> CountsAs(r.port, port))
            && forall q: nat :: q <= 65535 ==> (PortsMatch(RouteRule(r, g).ports, TCPTo(q)) <==> OnWorkloadPort(r, q))
  {
    var port := DestinationPort(RoutingOf(r).value).value;
    assert port == PortNumber(if r.passthrough.Some? then r.port else WorkloadPort(r)) by {
      hide PortNumber, WorkloadPort, Decodable;
    }
    hide RoutingOf, PortNumber, WorkloadPort, OnWorkloadPort, CountsAs, DestinationPort, RouteRule;
    forall n ensures (OnWorkloadPort(r, n) <==> n == PortNumber(WorkloadPort(r))) && (CountsAs(r.port, n) <==> n == PortNumber(r.port)) {
      WorkloadNumber(r, n);
    }
    forall q: nat | q <= 65535 ensures PortsMatch(RouteRule(r, g).ports, TCPTo(q)) <==> OnWorkloadPort(r, q) {
      RulePorts(r, g, TCPTo(q));
    }
  }

  /** They do differ: a passthrough route with service port 443 and container port 8443 is sent to a port its policies
      keep shut. */
  lemma PassthroughExample(r: InboundRoute, g: Gateway)
    requires r.passthrough.Some? && r.port == Some(Number(443)) && r.containerPort == Some(Number(8443))
    ensures RoutingOf(r).Ok? && DestinationPort(RoutingOf(r).value) == Some(443)
    ensures !PortsMatch(RouteRule(r, g).ports, TCPTo(443)) && PortsMatch(RouteRule(r, g).ports, TCPTo(8443))
  {
    RulePorts(r, g, TCPTo(443));
    RulePorts(r, g, TCPTo(8443));
    hide PortsMatch, RouteRule;
  }

  function TCPTo(q: nat): Connection { Connection(Outside(0), Outside(0), "TCP", q, None) }

  // ---- identities and names ----------------------------------------------

  /** Principals decide namespace and service account, so no two identities are confused. */
  lemma PrincipalInjective(ns: string, account: string, ns': string, account': string)
    requires '/' !in ns && '/' !in ns' && B.Principal(ns, account) == B.Principal(ns', account')
    ensures ns == ns' && account == account'
  {
    var x, y := ns + ("/" + ("sa/" + account)), ns' + ("/" + ("sa/" + account'));
    PrincipalForm(ns, account);
    PrincipalForm(ns', account');
    hide B.Principal;
    Strip("cluster.local/ns/", x, y);
    CutAtSlash(ns, "sa/" + account, ns', "sa/" + account');
    Strip("sa/", account, account');
  }

  lemma PrincipalText(ns: string, account: string)
    ensures B.Principal(ns, account) == "cluster.local/ns/" + ns + "/sa/" + account
  {
  }

  lemma PrincipalForm(ns: string, account: string)
    ensures B.Principal(ns, account) == "cluster.local/ns/" + (ns + ("/" + ("sa/" + account)))
  {
  }

  lemma CutAtSlash(a: string, s: string, b: string, t: string)
    requires '/' !in a && '/' !in b && a + ("/" + s) == b + ("/" + t)
    ensures a == b && s == t
  {
    assert a + ("/" + s) == a + "/" + s && b + ("/" + t) == b + "/" + t;
    IndexOfConcat(a, '/', s);
    IndexOfConcat(b, '/', t);
    var whole := a + "/" + s;
    assert a == whole[..|a|] && b == whole[..|b|];
    Strip(a + "/", s, t);
  }

  /** Gateways with one name in different namespaces get different suffixes; a name found in one namespace only
      keeps its plain suffix. */
  lemma SuffixSeparates(rs: seq<Resolved>, r: Resolved, g: Gateway, r': Resolved, g': Gateway)
    requires r in rs && g in r.gateways && r' in rs && g' in r'.gateways && g.name == g'.name
    ensures Suffix(rs, g) == Suffix(rs, g') <==> g.ns == g'.ns
    ensures (forall x, h :: x in rs && h in x.gateways && h.name == g.name ==> h.ns == g.ns) ==> Suffix(rs, g) == g.name
  {
    var spaces := NamespacesOf(rs, g.name);
    assert g.ns in spaces && g'.ns in spaces;
    if g.ns != g'.ns {
      AtLeastTwo(spaces, g.ns, g'.ns);
      if g.ns + "-" + g.name == g'.ns + "-" + g.name {
        assert g.ns + ("-" + g.name) == g'.ns + ("-" + g.name) by {
          assert forall ns: string :: ns + ("-" + g.name) == ns + "-" + g.name;
        }
        SameEnd(g.ns, g'.ns, "-" + g.name);
      }
    }
    if forall x, h :: x in rs && h in x.gateways && h.name == g.name ==> h.ns == g.ns {
      assert spaces == {g.ns};
    }
  }

  lemma AtLeastTwo<T>(s: set<T>, a: T, b: T)
    requires a in s && b in s && a != b
    ensures |s| > 1
  {
    assert |s| == |s - {a, b}| + 2;
  }

  lemma SameEnd(a: string, b: string, tail: string)
    requires a + tail == b + tail
    ensures a == b
  {
    assert a == (a + tail)[..|a + tail| - |tail|];
    assert b == (b + tail)[..|b + tail| - |tail|];
  }
}
