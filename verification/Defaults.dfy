/** The default policies of a Package, the switches that govern them, and what they mean. */
module Defaults {
  import opened Common
  import opened Kube
  import opened Builders
  import opened Names
  import opened Denotation
  import opened Switches
  import S = Spec
  import Cidr
  import Meaning

  // ---- switches ----------------------------------------------------------

  /** An unset switch counts as on. */
  predicate On(b: Option<bool>) { b.None? || b.value }

  function DefaultsOf(side: Option<S.Side>): S.Defaults {
    if side.Some? && side.value.defaults.Some? then side.value.defaults.value else S.Defaults(None, None, None, None, None, None)
  }

  /** Switching a direction off collapses all its defaults. */
  predicate SideEnabled(side: Option<S.Side>) { On(DefaultsOf(side).enabled) }

  predicate DenyAll(side: Option<S.Side>) { SideEnabled(side) && On(DefaultsOf(side).denyAll) }
  predicate InNamespace(side: Option<S.Side>) { SideEnabled(side) && On(DefaultsOf(side).allowInNamespace) }
  predicate KubeDNS(side: Option<S.Side>) { SideEnabled(side) && On(DefaultsOf(side).allowKubeDNS) }
  predicate Istiod(side: Option<S.Side>) { SideEnabled(side) && On(DefaultsOf(side).allowIstiod) }
  predicate Prometheus(side: Option<S.Side>) { SideEnabled(side) && On(DefaultsOf(side).allowPrometheus) }

  predicate Ambient(istio: Option<S.Istio>) { istio.Some? && istio.value.ambient }

  /** Ambient mode forces port injection; otherwise the Package decides. */
  predicate HBoneEnabled(spec: Option<S.NetworkPolicies>, istio: Option<S.Istio>) {
    Ambient(istio) || (spec.Some? && spec.value.hbone)
  }

  /** The gates are what the specification's switches ask for. */
  lemma GatesAsWritten(side: Option<S.Side>, istio: Option<S.Istio>, netpols: Option<S.NetworkPolicies>)
    ensures SideEnabled(side) <==> WantsSide(side)
    ensures DenyAll(side) <==> WantsDenyAll(side)
    ensures InNamespace(side) <==> WantsInNamespace(side)
    ensures KubeDNS(side) <==> WantsKubeDNS(side)
    ensures Istiod(side) <==> WantsIstiod(side)
    ensures Prometheus(side) <==> WantsPrometheus(side)
    ensures Ambient(istio) <==> IsAmbient(istio)
    ensures HBoneEnabled(netpols, istio) <==> WantsInjection(istio, netpols)
    ensures AuthzEnabled(istio) <==> WantsAuthz(istio)
    ensures FromNetpol(istio) <==> WantsFromNetpol(istio)
  {
  }

  /** The default authorization policies are emitted as their switches ask. */
  lemma AuthzGatesAsWritten(istio: Option<S.Istio>, netpols: Option<S.NetworkPolicies>)
    ensures var on := AuthzEnabled(istio) && (netpols.Some? ==> SideEnabled(netpols.value.ingress));
            && (on && AuthzAllowNothing(istio.value) <==> WantsAllowNothing(istio, netpols))
            && (on && AuthzInNamespace(istio.value) <==> WantsAuthzInNamespace(istio, netpols))
  {
  }

  // ---- network policies --------------------------------------------------

  /** A default selects every pod of the namespace. */
  function Default(c: Ctx, d: Direction, name: string, rules: seq<Rule>): Manifest {
    Netpol(c, d, name, map[], EVERYTHING, rules)
  }

  const OWN_NAMESPACE: Rule := Rule([Peer(None, None, Some(EVERYTHING))], [])

  function PortOf(protocol: string, n: int): PortRule { PortRule(Some(protocol), Some(Number(n)), None) }

  const KUBE_DNS: Rule := Rule([LabelPeer(NAMESPACE_NAME, "kube-system", "k8s-app", "kube-dns")], [PortOf("UDP", 53), PortOf("TCP", 53)])

  const ISTIOD: Rule := Rule([LabelPeer(NAMESPACE_NAME, "istio-system", "app", "istiod")], [PortOf("TCP", 15012)])

  const PROMETHEUS: Rule := Rule([LabelPeer(NAMESPACE_NAME, "monitoring", APP_NAME, "prometheus")], [PortOf("TCP", 15020)])

  const KUBELET := "169.254.7.127/32"

  function If(b: bool, m: Manifest): seq<Manifest> { if b then [m] else [] }

  function DefaultEgress(c: Ctx, istio: Option<S.Istio>): seq<Manifest> {
    var e := c.spec.egress;
    If(DenyAll(e), Default(c, Egress, "default-egress-deny-all", []))
    + If(InNamespace(e), Default(c, Egress, "default-egress-allow-all-in-ns", [OWN_NAMESPACE]))
    + If(KubeDNS(e), Default(c, Egress, "default-egress-allow-kube-dns", [KUBE_DNS]))
    + If(Istiod(e) && !Ambient(istio), Default(c, Egress, "default-egress-allow-istiod", [ISTIOD]))
  }

  function DefaultIngress(c: Ctx, istio: Option<S.Istio>): seq<Manifest> {
    var i := c.spec.ingress;
    If(DenyAll(i), Default(c, Ingress, "default-ingress-deny-all", []))
    + If(InNamespace(i), Default(c, Ingress, "default-ingress-allow-all-in-ns", [OWN_NAMESPACE]))
    + If(Prometheus(i) && !Ambient(istio), Default(c, Ingress, "default-ingress-allow-prometheus-to-istio-sidecar", [PROMETHEUS]))
    + If(Ambient(istio) && SideEnabled(i), Default(c, Ingress, "default-ingress-allow-ambient-kubelet", [Rule([CIDRPeer(KUBELET, [])], [])]))
  }

  function DefaultsFor(c: Ctx, istio: Option<S.Istio>, d: Direction): seq<Manifest> {
    if d == Egress then DefaultEgress(c, istio) else DefaultIngress(c, istio)
  }

  // ---- their meaning -----------------------------------------------------

  predicate To(conn: Connection, protocol: string, port: nat) { conn.protocol == protocol && conn.port == port }

  /** What the defaults of a direction allow a pod of the namespace. */
  ghost predicate DefaultsMean(c: Ctx, istio: Option<S.Istio>, d: Direction, conn: Connection) {
    && conn.Subject(d).Pod? && conn.Subject(d).ns == c.pkg.namespace
    && var peer := conn.Remote(d);
       if d == Egress then
         || (WantsInNamespace(c.spec.egress) && peer.Pod? && peer.ns == c.pkg.namespace)
         || (WantsKubeDNS(c.spec.egress) && PodOf(peer, "kube-system", "k8s-app", "kube-dns") && (To(conn, "UDP", 53) || To(conn, "TCP", 53)))
         || (WantsIstiod(c.spec.egress) && !IsAmbient(istio) && PodOf(peer, "istio-system", "app", "istiod") && To(conn, "TCP", 15012))
       else
         || (WantsInNamespace(c.spec.ingress) && peer.Pod? && peer.ns == c.pkg.namespace)
         || (WantsPrometheus(c.spec.ingress) && !IsAmbient(istio)
             && PodOf(peer, "monitoring", "app.kubernetes.io/name", "prometheus") && To(conn, "TCP", 15020))
         || (IsAmbient(istio) && WantsSide(c.spec.ingress) && Cidr.BlockAdmits("169.254.7.127/32", [], peer.addr))
  }

  lemma DefaultAdmits(c: Ctx, d: Direction, name: string, rules: seq<Rule>, conn: Connection)
    ensures Admits(Default(c, d, name, rules), c.pkg.namespace, d, conn) <==>
            && conn.Subject(d).Pod? && conn.Subject(d).ns == c.pkg.namespace
            && exists r :: r in rules && RuleAdmits(r, c.pkg.namespace, d, conn)
    ensures Isolates(Default(c, d, name, rules), c.pkg.namespace, d, conn) <==>
            conn.Subject(d).Pod? && conn.Subject(d).ns == c.pkg.namespace
  {
    hide NetpolLabels, RuleAdmits, Prepend;
    var spec := Default(c, d, name, rules).body.spec;
    assert spec.types == [d] && d in spec.types && Rules(spec, d) == rules;
  }

  lemma OnePort(protocol: string, n: nat, conn: Connection)
    ensures PortsMatch([PortOf(protocol, n)], conn) <==> To(conn, protocol, n)
  {
    var p := PortOf(protocol, n);
    assert p in [p];
  }

  lemma TwoPorts(p: string, q: string, n: nat, conn: Connection)
    ensures PortsMatch([PortOf(p, n), PortOf(q, n)], conn) <==> To(conn, p, n) || To(conn, q, n)
  {
    var a, b := PortOf(p, n), PortOf(q, n);
    assert a in [a, b] && b in [a, b];
  }

  lemma OwnNamespaceAdmits(ns: string, d: Direction, conn: Connection)
    ensures RuleAdmits(OWN_NAMESPACE, ns, d, conn) <==> conn.Remote(d).Pod? && conn.Remote(d).ns == ns
  {
    var p := OWN_NAMESPACE.peers[0];
    assert p in OWN_NAMESPACE.peers;
    assert PeersMatch(OWN_NAMESPACE.peers, ns, conn.Remote(d)) <==> PeerMatches(p, ns, conn.Remote(d));
  }

  ghost predicate IsDefault(c: Ctx, d: Direction, m: Manifest) { exists name, rules :: m == Default(c, d, name, rules) }

  lemma FourDefaults(c: Ctx, d: Direction, a: bool, p: string, w: seq<Rule>, b: bool, q: string, x: seq<Rule>,
                     e: bool, r: string, y: seq<Rule>, f: bool, s: string, z: seq<Rule>, m: Manifest)
    requires m in If(a, Default(c, d, p, w)) + If(b, Default(c, d, q, x)) + If(e, Default(c, d, r, y)) + If(f, Default(c, d, s, z))
    ensures IsDefault(c, d, m)
  {
    hide Default;
  }

  lemma DefaultsAreDefault(c: Ctx, istio: Option<S.Istio>, d: Direction, m: Manifest)
    requires m in DefaultsFor(c, istio, d)
    ensures IsDefault(c, d, m)
  {
    hide DenyAll, InNamespace, Prometheus, Ambient, SideEnabled, Istiod, KubeDNS, Default, If, KUBE_DNS, ISTIOD, PROMETHEUS, OWN_NAMESPACE,
      CIDRPeer, IsDefault;
    var e, i := c.spec.egress, c.spec.ingress;
    if d == Egress {
      FourDefaults(c, d, DenyAll(e), "default-egress-deny-all", [], InNamespace(e), "default-egress-allow-all-in-ns", [OWN_NAMESPACE],
                   KubeDNS(e), "default-egress-allow-kube-dns", [KUBE_DNS], Istiod(e) && !Ambient(istio), "default-egress-allow-istiod", [ISTIOD], m);
    } else {
      FourDefaults(c, d, DenyAll(i), "default-ingress-deny-all", [], InNamespace(i), "default-ingress-allow-all-in-ns", [OWN_NAMESPACE],
                   Prometheus(i) && !Ambient(istio), "default-ingress-allow-prometheus-to-istio-sidecar", [PROMETHEUS],
                   Ambient(istio) && SideEnabled(i), "default-ingress-allow-ambient-kubelet", [Rule([CIDRPeer(KUBELET, [])], [])], m);
    }
  }

  lemma AnyOf4(a: bool, w: Manifest, b: bool, x: Manifest, e: bool, y: Manifest, f: bool, z: Manifest, ns: string, d: Direction, conn: Connection)
    ensures SomeAdmits(If(a, w) + If(b, x) + If(e, y) + If(f, z), ns, d, conn) <==>
            || (a && Admits(w, ns, d, conn)) || (b && Admits(x, ns, d, conn))
            || (e && Admits(y, ns, d, conn)) || (f && Admits(z, ns, d, conn))
  {
    hide Admits;
    var all := If(a, w) + If(b, x) + If(e, y) + If(f, z);
    assert forall m :: m in all <==> (a && m == w) || (b && m == x) || (e && m == y) || (f && m == z);
  }

  lemma DefaultEgressMeans(c: Ctx, istio: Option<S.Istio>, conn: Connection)
    requires conn.Valid()
    ensures SomeAdmits(DefaultEgress(c, istio), c.pkg.namespace, Egress, conn) <==> DefaultsMean(c, istio, Egress, conn)
  {
    hide Default, Admits, SomeAdmits, RuleAdmits, LabelPeer, DenyAll, InNamespace, KubeDNS, Istiod, Prometheus, Ambient, SideEnabled,
      WantsDenyAll, WantsInNamespace, WantsKubeDNS, WantsIstiod, WantsPrometheus, WantsSide, IsAmbient;
    GatesAsWritten(c.spec.egress, istio, None);
    var e, ns := c.spec.egress, c.pkg.namespace;
    AnyOf4(DenyAll(e), Default(c, Egress, "default-egress-deny-all", []),
           InNamespace(e), Default(c, Egress, "default-egress-allow-all-in-ns", [OWN_NAMESPACE]),
           KubeDNS(e), Default(c, Egress, "default-egress-allow-kube-dns", [KUBE_DNS]),
           Istiod(e) && !Ambient(istio), Default(c, Egress, "default-egress-allow-istiod", [ISTIOD]), ns, Egress, conn);
    DefaultAdmits(c, Egress, "default-egress-deny-all", [], conn);
    DefaultAdmits(c, Egress, "default-egress-allow-all-in-ns", [OWN_NAMESPACE], conn);
    DefaultAdmits(c, Egress, "default-egress-allow-kube-dns", [KUBE_DNS], conn);
    DefaultAdmits(c, Egress, "default-egress-allow-istiod", [ISTIOD], conn);
    OwnNamespaceAdmits(ns, Egress, conn);
    RulesAre(OWN_NAMESPACE, ns, Egress, conn);
    RulesAre(KUBE_DNS, ns, Egress, conn);
    RulesAre(ISTIOD, ns, Egress, conn);
    KubeDNSAdmits(ns, conn);
    IstiodAdmits(ns, conn);
    hide If, PodOf, OWN_NAMESPACE, KUBE_DNS, ISTIOD;
  }

  lemma RulesAre(rule: Rule, ns: string, d: Direction, conn: Connection)
    ensures (exists r :: r in [rule] && RuleAdmits(r, ns, d, conn)) <==> RuleAdmits(rule, ns, d, conn)
  {
    hide RuleAdmits;
    assert rule in [rule];
  }

  lemma KubeDNSAdmits(ns: string, conn: Connection)
    requires conn.Valid()
    ensures RuleAdmits(KUBE_DNS, ns, Egress, conn) <==>
            PodOf(conn.dst, "kube-system", "k8s-app", "kube-dns") && (To(conn, "UDP", 53) || To(conn, "TCP", 53))
  {
    hide PeersMatch, PortsMatch, LabelPeer, PodOf, To, PortOf;
    LabelPeerMatches("kube-system", "k8s-app", "kube-dns", ns, conn.dst);
    TwoPorts("UDP", "TCP", 53, conn);
  }

  lemma IstiodAdmits(ns: string, conn: Connection)
    requires conn.Valid()
    ensures RuleAdmits(ISTIOD, ns, Egress, conn) <==> PodOf(conn.dst, "istio-system", "app", "istiod") && To(conn, "TCP", 15012)
  {
    hide PeersMatch, PortsMatch, LabelPeer, PodOf, To, PortOf;
    LabelPeerMatches("istio-system", "app", "istiod", ns, conn.dst);
    OnePort("TCP", 15012, conn);
  }

  lemma PrometheusAdmits(ns: string, conn: Connection)
    requires conn.Valid()
    ensures RuleAdmits(PROMETHEUS, ns, Ingress, conn) <==> PodOf(conn.src, "monitoring", APP_NAME, "prometheus") && To(conn, "TCP", 15020)
  {
    hide PeersMatch, PortsMatch, LabelPeer, PodOf, To, PortOf;
    LabelPeerMatches("monitoring", APP_NAME, "prometheus", ns, conn.src);
    OnePort("TCP", 15020, conn);
  }

  lemma KubeletAdmits(ns: string, conn: Connection)
    ensures RuleAdmits(Rule([CIDRPeer(KUBELET, [])], []), ns, Ingress, conn) <==> Cidr.BlockAdmits(KUBELET, [], conn.src.addr)
  {
    hide PeersMatch, Cidr.BlockAdmits, CIDRPeer;
    Meaning.BlockSelected(KUBELET, [], ns, conn.src);
  }

  lemma DefaultIngressMeans(c: Ctx, istio: Option<S.Istio>, conn: Connection)
    requires conn.Valid()
    ensures SomeAdmits(DefaultIngress(c, istio), c.pkg.namespace, Ingress, conn) <==> DefaultsMean(c, istio, Ingress, conn)
  {
    hide Default, Admits, SomeAdmits, RuleAdmits, LabelPeer, CIDRPeer, DenyAll, InNamespace, KubeDNS, Istiod, Prometheus, Ambient, SideEnabled, Cidr.BlockAdmits,
      WantsDenyAll, WantsInNamespace, WantsKubeDNS, WantsIstiod, WantsPrometheus, WantsSide, IsAmbient;
    GatesAsWritten(c.spec.ingress, istio, None);
    var i, ns := c.spec.ingress, c.pkg.namespace;
    var kubelet := Rule([CIDRPeer(KUBELET, [])], []);
    AnyOf4(DenyAll(i), Default(c, Ingress, "default-ingress-deny-all", []),
           InNamespace(i), Default(c, Ingress, "default-ingress-allow-all-in-ns", [OWN_NAMESPACE]),
           Prometheus(i) && !Ambient(istio), Default(c, Ingress, "default-ingress-allow-prometheus-to-istio-sidecar", [PROMETHEUS]),
           Ambient(istio) && SideEnabled(i), Default(c, Ingress, "default-ingress-allow-ambient-kubelet", [kubelet]), ns, Ingress, conn);
    DefaultAdmits(c, Ingress, "default-ingress-deny-all", [], conn);
    DefaultAdmits(c, Ingress, "default-ingress-allow-all-in-ns", [OWN_NAMESPACE], conn);
    DefaultAdmits(c, Ingress, "default-ingress-allow-prometheus-to-istio-sidecar", [PROMETHEUS], conn);
    DefaultAdmits(c, Ingress, "default-ingress-allow-ambient-kubelet", [kubelet], conn);
    OwnNamespaceAdmits(ns, Ingress, conn);
    RulesAre(OWN_NAMESPACE, ns, Ingress, conn);
    RulesAre(PROMETHEUS, ns, Ingress, conn);
    RulesAre(kubelet, ns, Ingress, conn);
    PrometheusAdmits(ns, conn);
    KubeletAdmits(ns, conn);
    hide If, PodOf, OWN_NAMESPACE, PROMETHEUS;
  }

  /** With the deny-all default a direction has a baseline: every pod of the namespace is isolated in it. */
  lemma DenyAllIsolates(c: Ctx, istio: Option<S.Istio>, d: Direction, conn: Connection)
    requires WantsDenyAll(if d == Egress then c.spec.egress else c.spec.ingress)
    requires conn.Subject(d).Pod? && conn.Subject(d).ns == c.pkg.namespace
    ensures exists m :: m in DefaultsFor(c, istio, d) && Isolates(m, c.pkg.namespace, d, conn)
  {
    GatesAsWritten(if d == Egress then c.spec.egress else c.spec.ingress, istio, None);
    hide Default, Isolates, LabelPeer, DenyAll, InNamespace, KubeDNS, Istiod, Prometheus, Ambient, CIDRPeer, WantsDenyAll;
    var name := if d == Egress then "default-egress-deny-all" else "default-ingress-deny-all";
    DefaultAdmits(c, d, name, [], conn);
    assert DefaultsFor(c, istio, d)[0] == Default(c, d, name, []);
  }

  /** Where nothing is said about a direction's defaults, every pod of the namespace is isolated, and every default is
      allowed: the own namespace, DNS and, without ambient mode, the control plane or Prometheus. */
  lemma UnsetDefaults(c: Ctx, istio: Option<S.Istio>, d: Direction, conn: Connection)
    requires conn.Valid() && Unset(if d == Egress then c.spec.egress else c.spec.ingress)
    requires conn.Subject(d).Pod? && conn.Subject(d).ns == c.pkg.namespace
    ensures exists m :: m in DefaultsFor(c, istio, d) && Isolates(m, c.pkg.namespace, d, conn)
    ensures var peer, ambient := conn.Remote(d), istio.Some? && istio.value.ambient;
            SomeAdmits(DefaultsFor(c, istio, d), c.pkg.namespace, d, conn) <==>
            || (peer.Pod? && peer.ns == c.pkg.namespace)
            || (d == Egress && PodOf(peer, "kube-system", "k8s-app", "kube-dns") && (To(conn, "UDP", 53) || To(conn, "TCP", 53)))
            || (d == Egress && !ambient && PodOf(peer, "istio-system", "app", "istiod") && To(conn, "TCP", 15012))
            || (d == Ingress && !ambient && PodOf(peer, "monitoring", "app.kubernetes.io/name", "prometheus") && To(conn, "TCP", 15020))
            || (d == Ingress && ambient && Cidr.BlockAdmits("169.254.7.127/32", [], peer.addr))
  {
    UnsetWantsAll(if d == Egress then c.spec.egress else c.spec.ingress);
    DenyAllIsolates(c, istio, d, conn);
    if d == Egress {
      DefaultEgressMeans(c, istio, conn);
    } else {
      DefaultIngressMeans(c, istio, conn);
    }
    hide SomeAdmits, Isolates, DefaultEgress, DefaultIngress, PodOf, To, Cidr.BlockAdmits, WantsDenyAll, WantsInNamespace, WantsKubeDNS,
      WantsIstiod, WantsPrometheus, WantsSide, Unset;
  }

  lemma UnsetWantsAll(side: Option<S.Side>)
    requires Unset(side)
    ensures WantsSide(side) && WantsDenyAll(side) && WantsInNamespace(side) && WantsKubeDNS(side) && WantsIstiod(side) && WantsPrometheus(side)
  {
  }

  // ---- which defaults there are ------------------------------------------

  lemma ByRules(c: Ctx, d: Direction, p: string, w: seq<Rule>, q: string, x: seq<Rule>)
    ensures w != x ==> Default(c, d, p, w) != Default(c, d, q, x)
  {
    hide NetpolLabels, Prepend;
  }

  lemma RulesDiffer()
    ensures OWN_NAMESPACE != KUBE_DNS && OWN_NAMESPACE != ISTIOD && KUBE_DNS != ISTIOD
    ensures OWN_NAMESPACE != PROMETHEUS
    ensures var kubelet := Rule([CIDRPeer(KUBELET, [])], []); OWN_NAMESPACE != kubelet && PROMETHEUS != kubelet
  {
    hide LabelPeer;
    assert |KUBE_DNS.ports| == 2 && |ISTIOD.ports| == 1 && |OWN_NAMESPACE.ports| == 0 && |PROMETHEUS.ports| == 1;
    assert OWN_NAMESPACE.peers[0].ipBlock.None? && CIDRPeer(KUBELET, []).ipBlock.Some?;
  }

  lemma Present4(c: Ctx, d: Direction, a: bool, p: string, w: seq<Rule>, b: bool, q: string, x: seq<Rule>,
                 e: bool, r: string, y: seq<Rule>, f: bool, s: string, z: seq<Rule>)
    requires w != x && w != y && w != z && x != y && x != z && y != z
    ensures var all := If(a, Default(c, d, p, w)) + If(b, Default(c, d, q, x)) + If(e, Default(c, d, r, y)) + If(f, Default(c, d, s, z));
            && (Default(c, d, p, w) in all <==> a) && (Default(c, d, q, x) in all <==> b)
            && (Default(c, d, r, y) in all <==> e) && (Default(c, d, s, z) in all <==> f)
  {
    hide Default;
    ByRules(c, d, p, w, q, x);
    ByRules(c, d, p, w, r, y);
    ByRules(c, d, p, w, s, z);
    ByRules(c, d, q, x, r, y);
    ByRules(c, d, q, x, s, z);
    ByRules(c, d, r, y, s, z);
  }

  /** Each egress default is there unless its own switch or the one for the direction says no; the one for the control
      plane is not for ambient mode. */
  lemma EgressDefaultsPresent(c: Ctx, istio: Option<S.Istio>)
    ensures var e, all := c.spec.egress, DefaultEgress(c, istio);
            && (Default(c, Egress, "default-egress-deny-all", []) in all <==> WantsDenyAll(e))
            && (Default(c, Egress, "default-egress-allow-all-in-ns", [OWN_NAMESPACE]) in all <==> WantsInNamespace(e))
            && (Default(c, Egress, "default-egress-allow-kube-dns", [KUBE_DNS]) in all <==> WantsKubeDNS(e))
            && (Default(c, Egress, "default-egress-allow-istiod", [ISTIOD]) in all <==> WantsIstiod(e) && !IsAmbient(istio))
  {
    GatesAsWritten(c.spec.egress, istio, None);
    RulesDiffer();
    hide Default, If, DenyAll, InNamespace, KubeDNS, Istiod, Prometheus, Ambient, SideEnabled, OWN_NAMESPACE, KUBE_DNS, ISTIOD,
      WantsDenyAll, WantsInNamespace, WantsKubeDNS, WantsIstiod, WantsPrometheus, WantsSide, IsAmbient;
    var e := c.spec.egress;
    assert [OWN_NAMESPACE][0] != [KUBE_DNS][0] && [OWN_NAMESPACE][0] != [ISTIOD][0] && [KUBE_DNS][0] != [ISTIOD][0];
    Present4(c, Egress, DenyAll(e), "default-egress-deny-all", [], InNamespace(e), "default-egress-allow-all-in-ns", [OWN_NAMESPACE],
             KubeDNS(e), "default-egress-allow-kube-dns", [KUBE_DNS], Istiod(e) && !Ambient(istio), "default-egress-allow-istiod", [ISTIOD]);
  }

  lemma IngressDefaultsPresent(c: Ctx, istio: Option<S.Istio>)
    ensures var i, all := c.spec.ingress, DefaultIngress(c, istio);
            && (Default(c, Ingress, "default-ingress-deny-all", []) in all <==> WantsDenyAll(i))
            && (Default(c, Ingress, "default-ingress-allow-all-in-ns", [OWN_NAMESPACE]) in all <==> WantsInNamespace(i))
            && (Default(c, Ingress, "default-ingress-allow-prometheus-to-istio-sidecar", [PROMETHEUS]) in all <==>
                WantsPrometheus(i) && !IsAmbient(istio))
            && (Default(c, Ingress, "default-ingress-allow-ambient-kubelet", [Rule([CIDRPeer("169.254.7.127/32", [])], [])]) in all <==>
                IsAmbient(istio) && WantsSide(i))
  {
    GatesAsWritten(c.spec.ingress, istio, None);
    RulesDiffer();
    hide Default, If, DenyAll, InNamespace, KubeDNS, Istiod, Prometheus, Ambient, SideEnabled, OWN_NAMESPACE, PROMETHEUS, CIDRPeer,
      WantsDenyAll, WantsInNamespace, WantsKubeDNS, WantsIstiod, WantsPrometheus, WantsSide, IsAmbient;
    var i, kubelet := c.spec.ingress, Rule([CIDRPeer(KUBELET, [])], []);
    assert [OWN_NAMESPACE][0] != [PROMETHEUS][0] && [OWN_NAMESPACE][0] != [kubelet][0] && [PROMETHEUS][0] != [kubelet][0];
    Present4(c, Ingress, DenyAll(i), "default-ingress-deny-all", [], InNamespace(i), "default-ingress-allow-all-in-ns", [OWN_NAMESPACE],
             Prometheus(i) && !Ambient(istio), "default-ingress-allow-prometheus-to-istio-sidecar", [PROMETHEUS],
             Ambient(istio) && SideEnabled(i), "default-ingress-allow-ambient-kubelet", [kubelet]);
  }

  // ---- authorization policies --------------------------------------------

  /** Ambient mode forces authorization policies on. */
  predicate AuthzEnabled(istio: Option<S.Istio>) { istio.Some? && (istio.value.ambient || istio.value.authz) }

  predicate FromNetpol(istio: Option<S.Istio>) { istio.None? || On(istio.value.fromNetpol) }

  predicate AuthzAllowNothing(istio: S.Istio) { On(istio.authzDefaults) && On(istio.authzDenyAll) }
  predicate AuthzInNamespace(istio: S.Istio) { On(istio.authzDefaults) && On(istio.authzInNamespace) }

  /** The two default authorization policies; switching the ingress defaults off switches them off too. */
  function DefaultAuthz(pkg: S.Package, istio: Option<S.Istio>, spec: Option<S.NetworkPolicies>): seq<Manifest> {
    if !AuthzEnabled(istio) || (spec.Some? && !SideEnabled(spec.value.ingress)) then []
    else
      If(AuthzAllowNothing(istio.value),
         Manifest("", Prepend(istio.value.prepend, pkg.name, "default-authz-allow-nothing"), map[], map[], [], AllowNothing))
      + If(AuthzInNamespace(istio.value),
           Manifest("", Prepend(istio.value.prepend, pkg.name, "default-authz-allow-all-in-ns"), map[], map[], [],
                    AuthorizationPolicy(AuthzSpec(map[], Namespaces([pkg.namespace]), []))))
  }
}
