/** What the generated authorization policies accept. A workload that some policy applies to accepts a request only if
    a rule of such a policy does; any other accepts everything. */
module Callers {
  import opened Common
  import opened Kube
  import opened Builders
  import opened Passes
  import opened Steps
  import opened Shorthand
  import opened Defaults
  import opened Switches
  import opened Routes
  import opened RouteObjects
  import opened Metadata
  import opened Generate
  import opened Safety
  import S = Spec
  import G = Grammar
  import L = Lockstep
  import Hbone
  import Denotation
  import Cidr
  import Names
  import Keys
  import Text
  import Traffic

  /** A request to a workload of the Package's namespace, by a service account of some namespace. */
  datatype Request = Request(labels: Labels, port: nat, callerNs: string, account: string, addr: nat) {
    predicate Valid() { port <= 65535 && '/' !in callerNs && callerNs != "*" }
  }

  /** A namespace may be the wildcard; a principal is compared as it is. */
  ghost predicate Accepts(caller: Caller, q: Request) {
    match caller
    case Principals(ps) => ("cluster.local/ns/" + q.callerNs + "/sa/" + q.account) in ps
    case Namespaces(ns) => exists n :: n in ns && (n == "*" || n == q.callerNs)
    case IPBlocks(bs) => exists b :: b in bs && Cidr.BlockAdmits(b, [], q.addr)
  }

  ghost predicate PolicyAccepts(m: Manifest, q: Request) {
    && m.body.AuthorizationPolicy? && ByLabels(m.body.authz.selector).Selects(q.labels)
    && Accepts(m.body.authz.caller, q) && L.AuthzAdmitsPort(m.body.authz.ports, q.port)
  }

  ghost predicate SomeAccepts(ms: seq<Manifest>, q: Request) { exists m :: m in ms && PolicyAccepts(m, q) }

  // ---- shorthand entries -------------------------------------------------

  /** The workloads of a local key. */
  predicate IsWorkload(local: LocalKey, source: S.Source, labels: Labels) {
    if source.podSelector != map[] then Denotation.Within(source.podSelector, labels) else Denotation.HasLabel(labels, "app.kubernetes.io/name", local.pod)
  }

  /** The callers a remote key names: with an identity exactly that account, and then `*` is no wildcard but a
      namespace that does not exist. */
  predicate IsCaller(r: K8sRemote, q: Request) {
    if r.identity != "" then q.callerNs == r.ns && q.account == r.identity else r.ns == "*" || q.callerNs == r.ns
  }

  /** The ports of a local key; a range in reverse order restricts nothing. */
  predicate PortAccepted(local: LocalKey, port: nat) {
    if local.hasRange && |local.ports| == 2 then local.ports[0] > local.ports[1] || local.ports[0] <= port <= local.ports[1]
    else local.ports == [] || port as int in local.ports
  }

  ghost predicate EntryAccepts(s: Step, q: Request) {
    && Authorizes(s) && ParseIngressLocalKey(s.localKey).Ok?
    && var local := ParseIngressLocalKey(s.localKey).value;
    && IsWorkload(local, s.source, q.labels) && PortAccepted(local, q.port)
    && if s.family == K8s then ParseIngressRemoteKey(s.key).Ok? && IsCaller(ParseIngressRemoteKey(s.key).value, q)
       else IsCIDRText(s.key) && Cidr.BlockAdmits(s.key, [], q.addr)
  }

  lemma WorkloadSelected(local: LocalKey, source: S.Source, labels: Labels)
    ensures ByLabels(DestinationLabels(local, source)).Selects(labels) <==> IsWorkload(local, source, labels)
  {
    Denotation.OneLabel(APP_NAME, local.pod, labels);
  }

  lemma PortsAccepted(local: LocalKey, port: nat)
    requires G.ValidLocal(local) && port <= 65535
    ensures L.AuthzAdmitsPort(AuthzPorts(local), port) <==> PortAccepted(local, port)
  {
    hide AuthzPorts, L.AuthzAdmitsPort;
    if local.hasRange && |local.ports| == 2 {
      assert local.ports[0] in local.ports;
      L.RangeAdmits(local, port);
    } else {
      L.ListAdmits(local, port);
    }
  }

  lemma CallerAccepted(r: K8sRemote, q: Request)
    requires q.Valid() && '/' !in r.ns
    ensures var caller := if r.identity != "" then Principals([Principal(r.ns, r.identity)]) else Namespaces([r.ns]);
            Accepts(caller, q) <==> IsCaller(r, q)
  {
    hide Principal;
    PrincipalText(q.callerNs, q.account);
    if r.identity != "" && Principal(q.callerNs, q.account) == Principal(r.ns, r.identity) {
      PrincipalInjective(q.callerNs, q.account, r.ns, r.identity);
    }
    assert r.ns in [r.ns];
  }

  lemma NoSlash(key: string)
    requires ParseIngressRemoteKey(key).Ok?
    ensures '/' !in ParseIngressRemoteKey(key).value.ns
  {
    G.IngressParsePrint(key);
    hide ParseIngressRemoteKey, G.PrintIngress;
    SegmentHasNoSlash(ParseIngressRemoteKey(key).value.ns);
  }

  lemma SegmentHasNoSlash(s: string)
    requires IsSegment(s)
    ensures '/' !in s
  {
  }

  lemma OneAccepts(ms: seq<Manifest>, q: Request)
    requires |ms| == 1
    ensures SomeAccepts(ms, q) <==> PolicyAccepts(ms[0], q)
  {
    hide PolicyAccepts;
    assert ms[0] in ms;
  }

  lemma K8sStepAccepts(c: Ctx, s: Step, q: Request)
    requires q.Valid() && Emit(Pass(IngressAuthz, c), s).Ok? && s.EntryStep? && s.family == K8s
    ensures SomeAccepts(Emit(Pass(IngressAuthz, c), s).value, q) <==> EntryAccepts(s, q)
  {
    hide ParseIngressLocalKey, ParseIngressRemoteKey, IsCIDRText, AuthzPorts, Names.IngressHead, MergeShorthandMetadata, ApplyShorthandMetadata,
      Principal, AuthzK8sTail, AuthzK8sAnnotations, Names.PortTail, Names.CIDRSegment, IsWorkload, PortAccepted, IsCaller, Selector.Selects,
      Names.Prepend, Names.LowerText, DestinationLabels, Accepts, L.AuthzAdmitsPort;
    var local, r := ParseIngressLocalKey(s.localKey).value, ParseIngressRemoteKey(s.key).value;
    var out := Emit(Pass(IngressAuthz, c), s).value;
    OneAccepts(out, q);
    hide SomeAccepts;
    G.LocalParsePrint(s.localKey);
    WorkloadSelected(local, s.source, q.labels);
    PortsAccepted(local, q.port);
    NoSlash(s.key);
    CallerAccepted(r, q);
    assert out[0].body == BuildAuthzK8s(c, local, s.source, s.key, r).body;
  }

  lemma CIDRStepAccepts(c: Ctx, s: Step, q: Request)
    requires q.Valid() && Emit(Pass(IngressAuthz, c), s).Ok? && s.EntryStep? && s.family == CIDRs
    ensures SomeAccepts(Emit(Pass(IngressAuthz, c), s).value, q) <==> EntryAccepts(s, q)
  {
    hide ParseIngressLocalKey, ParseIngressRemoteKey, IsCIDRText, AuthzPorts, Names.IngressHead, MergeShorthandMetadata, ApplyShorthandMetadata,
      Principal, AuthzK8sTail, AuthzK8sAnnotations, Names.PortTail, Names.CIDRSegment, IsWorkload, PortAccepted, IsCaller, Selector.Selects,
      Names.Prepend, Names.LowerText, DestinationLabels, Accepts, L.AuthzAdmitsPort;
    var local := ParseIngressLocalKey(s.localKey).value;
    var out := Emit(Pass(IngressAuthz, c), s).value;
    OneAccepts(out, q);
    hide SomeAccepts;
    G.LocalParsePrint(s.localKey);
    WorkloadSelected(local, s.source, q.labels);
    PortsAccepted(local, q.port);
    BlockAccepted(s.key, q);
    assert out[0].body == BuildAuthzCIDR(c, local, s.source, s.key, ParseIngressCIDRKey(s.key).value).body;
  }

  /** The authorization policy of one entry accepts exactly the requests the entry describes. */
  lemma StepAccepts(c: Ctx, s: Step, q: Request)
    requires q.Valid() && Emit(Pass(IngressAuthz, c), s).Ok?
    ensures SomeAccepts(Emit(Pass(IngressAuthz, c), s).value, q) <==> EntryAccepts(s, q)
  {
    if Authorizes(s) {
      hide Emit, EntryAccepts, SomeAccepts;
      if s.family == K8s {
        K8sStepAccepts(c, s, q);
      } else {
        CIDRStepAccepts(c, s, q);
      }
    } else {
      hide ParseIngressLocalKey;
    }
  }

  lemma BlockAccepted(key: string, q: Request)
    ensures Accepts(IPBlocks([key]), q) <==> Cidr.BlockAdmits(key, [], q.addr)
  {
    hide Cidr.BlockAdmits;
    assert key in [key];
  }

  lemma RunAccepts(p: Pass, steps: seq<Step>, q: Request)
    requires Run(p, steps).Ok?
    ensures SomeAccepts(Run(p, steps).value, q) <==> exists s :: s in steps && Emit(p, s).Ok? && SomeAccepts(Emit(p, s).value, q)
  {
    hide Run, Emit, PolicyAccepts;
    var out := Run(p, steps).value;
    if SomeAccepts(out, q) {
      var m :| m in out && PolicyAccepts(m, q);
      RunMembers(p, steps, m);
      var s :| s in steps && Emits(p, s, m);
    }
    if s :| s in steps && Emit(p, s).Ok? && SomeAccepts(Emit(p, s).value, q) {
      var m :| m in Emit(p, s).value && PolicyAccepts(m, q);
      assert Emits(p, s, m);
      RunMembers(p, steps, m);
    }
  }

  /** The authorization policies of an ingress specification accept exactly the union of what its enabled k8s and cidr
      entries describe. */
  lemma AuthzCompiled(c: Ctx, entries: map<string, S.Local>, q: Request)
    requires q.Valid() && Run(Pass(IngressAuthz, c), AllSteps(entries)).Ok?
    ensures SomeAccepts(Run(Pass(IngressAuthz, c), AllSteps(entries)).value, q) <==> exists s :: InSpec(entries, s) && EntryAccepts(s, q)
  {
    hide Run, Emit, AllSteps, InSpec, EntryAccepts, SomeAccepts;
    var p, steps := Pass(IngressAuthz, c), AllSteps(entries);
    RunAccepts(p, steps, q);
    RunOk(p, steps);
    forall s ensures s in steps <==> InSpec(entries, s) {
      StepsAreEntries(entries, s);
    }
    forall s | s in steps ensures SomeAccepts(Emit(p, s).value, q) <==> EntryAccepts(s, q) {
      StepAccepts(c, s, q);
    }
  }

  /** A key with an identity in namespace `*` accepts nobody. */
  lemma IdentityAnywhere(s: Step, q: Request)
    requires q.Valid() && s.EntryStep? && s.family == K8s && ParseIngressRemoteKey(s.key).Ok?
    requires ParseIngressRemoteKey(s.key).value.ns == "*" && ParseIngressRemoteKey(s.key).value.identity != ""
    ensures !EntryAccepts(s, q)
  {
    hide ParseIngressRemoteKey, ParseIngressLocalKey;
  }

  // ---- routes ------------------------------------------------------------

  /** A route's policy for a gateway accepts exactly the gateway's service account, on the workload port if it is a
      number. */
  lemma RouteAccepts(pkg: S.Package, prepend: bool, r: InboundRoute, g: Gateway, suffix: string, q: Request)
    requires q.Valid() && '/' !in g.ns
    ensures PolicyAccepts(BuildAuthz(pkg, prepend, r, g, suffix), q) <==>
            && ByLabels(r.selector).Selects(q.labels)
            && q.callerNs == g.ns && q.account == g.definition.serviceAccount
            && (OnWorkloadPort(r, 0) || OnWorkloadPort(r, q.port))
  {
    WorkloadNumber(r, 0);
    WorkloadNumber(r, q.port);
    PrincipalText(q.callerNs, q.account);
    hide PortNumber, WorkloadPort, ServiceLeaf, Principal, Text.Itoa, Selector.Selects, OnWorkloadPort;
    var n := PortNumber(WorkloadPort(r));
    var authz := BuildAuthz(pkg, prepend, r, g, suffix).body.authz;
    assert Accepts(authz.caller, q) <==> Principal(q.callerNs, q.account) == Principal(g.ns, g.definition.serviceAccount);
    if Principal(q.callerNs, q.account) == Principal(g.ns, g.definition.serviceAccount) {
      PrincipalInjective(q.callerNs, q.account, g.ns, g.definition.serviceAccount);
    }
    if n != 0 && Text.Itoa(q.port) in authz.ports {
      Names.ItoaInjective(q.port, n);
    }
  }

  ghost predicate RouteRequest(r: Resolved, g: Gateway, q: Request) {
    && ByLabels(r.route.selector).Selects(q.labels)
    && q.callerNs == g.ns && q.account == g.definition.serviceAccount
    && (OnWorkloadPort(r.route, 0) || OnWorkloadPort(r.route, q.port))
  }

  ghost predicate SomeRouteRequest(rs: seq<Resolved>, q: Request) {
    exists r, g :: r in rs && g in r.gateways && RouteRequest(r, g, q)
  }

  ghost predicate LabelledGateways(rs: seq<Resolved>) {
    forall r, g :: r in rs && g in r.gateways ==> '/' !in g.ns
  }

  lemma {:induction false} RoutesAccept(pkg: S.Package, prepend: bool, all: seq<Resolved>, rs: seq<Resolved>, q: Request)
    requires q.Valid() && LabelledGateways(rs)
    ensures SomeAccepts(AuthzOf(pkg, prepend, all, rs), q) <==> SomeRouteRequest(rs, q)
    decreases |rs|
  {
    hide PolicyAccepts, BuildAuthz, RouteRequest, Suffix;
    if rs != [] {
      var init, last := rs[..|rs| - 1], rs[|rs| - 1];
      assert rs == init + [last];
      RoutesAccept(pkg, prepend, all, init, q);
      OneRouteAccepts(pkg, prepend, all, last, q);
      AcceptsConcat(AuthzOf(pkg, prepend, all, init), RouteAuthz(pkg, prepend, all, last, |last.gateways|), q);
      hide AuthzOf, SomeAccepts;
      assert forall r :: r in rs <==> r in init || r == last;
    }
  }

  lemma AcceptsConcat(a: seq<Manifest>, b: seq<Manifest>, q: Request)
    ensures SomeAccepts(a + b, q) <==> SomeAccepts(a, q) || SomeAccepts(b, q)
  {
    hide PolicyAccepts;
  }

  lemma OneRouteAccepts(pkg: S.Package, prepend: bool, all: seq<Resolved>, r: Resolved, q: Request)
    requires q.Valid() && forall g :: g in r.gateways ==> '/' !in g.ns
    ensures SomeAccepts(RouteAuthz(pkg, prepend, all, r, |r.gateways|), q) <==> exists g :: g in r.gateways && RouteRequest(r, g, q)
  {
    hide PolicyAccepts, BuildAuthz, RouteRequest, Suffix;
    var out := RouteAuthz(pkg, prepend, all, r, |r.gateways|);
    forall k | 0 <= k < |out| ensures PolicyAccepts(out[k], q) <==> RouteRequest(r, r.gateways[k], q) {
      assert r.gateways[k] in r.gateways;
      RouteMatches(pkg, prepend, r, r.gateways[k], Suffix(all, r.gateways[k]), q);
    }
    if g :| g in r.gateways && RouteRequest(r, g, q) {
      var k :| 0 <= k < |r.gateways| && r.gateways[k] == g;
      assert out[k] in out;
    }
  }

  lemma RouteMatches(pkg: S.Package, prepend: bool, r: Resolved, g: Gateway, suffix: string, q: Request)
    requires q.Valid() && '/' !in g.ns
    ensures PolicyAccepts(BuildAuthz(pkg, prepend, r.route, g, suffix), q) <==> RouteRequest(r, g, q)
  {
    hide PolicyAccepts, BuildAuthz, Selector.Selects;
    RouteAccepts(pkg, prepend, r.route, g, suffix, q);
  }

  lemma ResolvedLabelled(input: Input)
    requires InboundOf(input).Ok?
    ensures LabelledGateways(InboundOf(input).value)
  {
    hide ResolveKeys, IsSubdomain, SplitGateway, DefinitionOf, EffectiveGateways, Filled;
    if input.spec.routes.Some? {
      var spec := input.spec.routes.value;
      ResolvedRoutes(spec, input.ingress, Keys.KeyOrder(spec.inbound.Keys));
      forall r, g | r in InboundOf(input).value && g in r.gateways ensures '/' !in g.ns {
        var i :| 0 <= i < |r.gateways| && r.gateways[i] == g;
        assert ResolvedFrom(r, spec, input.ingress) && IsLabel(g.ns);
      }
    }
  }

  // ---- the main result ---------------------------------------------------

  lemma FinishAccepts(pkg: S.Package, hbone: bool, ms: seq<Manifest>, q: Request)
    ensures SomeAccepts(FinishAll(pkg, hbone, ms), q) <==> SomeAccepts(ms, q)
  {
    hide Accepts, Selector.Selects, L.AuthzAdmitsPort, Metadata.Owned, Metadata.StampedLabels, Hbone.InjectAll, Hbone.SomeGains;
    var out := FinishAll(pkg, hbone, ms);
    forall k | 0 <= k < |ms| ensures PolicyAccepts(out[k], q) <==> PolicyAccepts(ms[k], q) {
    }
    hide PolicyAccepts, Finish;
    if m :| m in ms && PolicyAccepts(m, q) {
      var k :| 0 <= k < |ms| && ms[k] == m;
      assert out[k] in out;
    }
  }

  function InNamespaceDefault(pkg: S.Package, istio: S.Istio): Manifest {
    Manifest("", Names.Prepend(istio.prepend, pkg.name, "default-authz-allow-all-in-ns"), map[], map[], [],
             AuthorizationPolicy(AuthzSpec(map[], Namespaces([pkg.namespace]), [])))
  }

  function NothingDefault(pkg: S.Package, istio: S.Istio): Manifest {
    Manifest("", Names.Prepend(istio.prepend, pkg.name, "default-authz-allow-nothing"), map[], map[], [], AllowNothing)
  }

  lemma TwoAccept(a: bool, x: Manifest, b: bool, y: Manifest, q: Request)
    ensures SomeAccepts(If(a, x) + If(b, y), q) <==> (a && PolicyAccepts(x, q)) || (b && PolicyAccepts(y, q))
  {
    hide PolicyAccepts;
    assert forall m :: m in If(a, x) + If(b, y) <==> (a && m == x) || (b && m == y);
  }

  lemma InNamespaceAccepts(pkg: S.Package, istio: S.Istio, q: Request)
    ensures PolicyAccepts(InNamespaceDefault(pkg, istio), q) <==> pkg.namespace == "*" || q.callerNs == pkg.namespace
  {
    hide Names.Prepend;
    assert pkg.namespace in [pkg.namespace];
  }

  ghost predicate DefaultsDescribe(input: Input, q: Request) {
    var istio, spec := input.spec.istio, input.spec.netpols;
    && WantsAuthzInNamespace(istio, spec)
    && (input.pkg.namespace == "*" || q.callerNs == input.pkg.namespace)
  }

  lemma DefaultsAccept(input: Input, q: Request)
    ensures SomeAccepts(DefaultAuthz(input.pkg, input.spec.istio, input.spec.netpols), q) <==> DefaultsDescribe(input, q)
  {
    AuthzGatesAsWritten(input.spec.istio, input.spec.netpols);
    hide Names.Prepend, SideEnabled, AuthzAllowNothing, AuthzInNamespace, SomeAccepts, PolicyAccepts, If, WantsAuthzInNamespace, WantsAllowNothing;
    if AuthzEnabled(input.spec.istio) && (input.spec.netpols.Some? ==> SideEnabled(input.spec.netpols.value.ingress)) {
      var istio := input.spec.istio.value;
      var nothing := NothingDefault(input.pkg, istio);
      TwoAccept(AuthzAllowNothing(istio), nothing, AuthzInNamespace(istio), InNamespaceDefault(input.pkg, istio), q);
      InNamespaceAccepts(input.pkg, istio, q);
      NothingAccepts(nothing, q);
    } else {
      NobodyAccepts(q);
    }
  }

  lemma NothingAccepts(m: Manifest, q: Request)
    requires m.body.AllowNothing?
    ensures !PolicyAccepts(m, q)
  {
  }

  lemma NobodyAccepts(q: Request)
    ensures !SomeAccepts([], q)
  {
  }

  ghost predicate EntriesDescribe(input: Input, q: Request) {
    && WantsAuthz(input.spec.istio) && WantsFromNetpol(input.spec.istio)
    && input.spec.netpols.Some? && input.spec.netpols.value.ingress.Some?
    && exists s :: InSpec(input.spec.netpols.value.ingress.value.entries, s) && EntryAccepts(s, q)
  }

  lemma EntriesAccept(input: Input, q: Request)
    requires q.Valid() && ShorthandAuthz(input).Ok?
    ensures SomeAccepts(ShorthandAuthz(input).value, q) <==> EntriesDescribe(input, q)
  {
    GatesAsWritten(None, input.spec.istio, None);
    hide Run, AllSteps, InSpec, EntryAccepts, SomeAccepts, AuthzEnabled, FromNetpol, WantsAuthz, WantsFromNetpol;
    NobodyAccepts(q);
    if input.spec.netpols.Some? && AuthzEnabled(input.spec.istio) && FromNetpol(input.spec.istio) && input.spec.netpols.value.ingress.Some? {
      AuthzCompiled(input.Ctx(), input.spec.netpols.value.ingress.value.entries, q);
    }
  }

  ghost predicate RoutesDescribe(input: Input, q: Request) {
    WantsAuthz(input.spec.istio) && input.spec.routes.Some? && InboundOf(input).Ok? && SomeRouteRequest(InboundOf(input).value, q)
  }

  lemma RoutePartAccepts(input: Input, q: Request)
    requires q.Valid() && InboundOf(input).Ok?
    ensures SomeAccepts(AuthzRoutePart(input, InboundOf(input).value), q) <==> RoutesDescribe(input, q)
  {
    GatesAsWritten(None, input.spec.istio, None);
    hide InboundOf, AuthzOf, SomeAccepts, SomeRouteRequest, AuthzEnabled, LabelledGateways, WantsAuthz;
    NobodyAccepts(q);
    if input.spec.routes.Some? && AuthzEnabled(input.spec.istio) {
      var rs := InboundOf(input).value;
      ResolvedLabelled(input);
      RoutesAccept(input.pkg, input.spec.routes.value.prepend, rs, rs, q);
    }
  }

  /** The network policy pass emits network policies only. */
  lemma NetpolsOnly(input: Input, m: Manifest)
    requires NetpolPart(input).Ok? && m in NetpolPart(input).value
    ensures m.body.NetworkPolicy?
  {
    hide SideRun, AdditionalAll, DefaultEgress, DefaultIngress, Names.Prepend;
    var c := input.Ctx();
    if m in DefaultEgress(c, input.spec.istio) {
      Traffic.DefaultsOneWay(c, input.spec.istio, Egress, m);
    } else if m in DefaultIngress(c, input.spec.istio) {
      Traffic.DefaultsOneWay(c, input.spec.istio, Ingress, m);
    } else if m in EgressPart(c).value {
      Traffic.PartOneWay(c, Egress, m);
    } else if m in IngressPart(c).value {
      Traffic.PartOneWay(c, Ingress, m);
    } else {
      Traffic.AdditionalMembers(c, c.spec.additional, m);
    }
  }

  lemma {:induction false} InboundHasNoAuthz(pkg: S.Package, prepend: bool, netpols: bool, rs: seq<Resolved>, m: Manifest)
    requires InboundObjects(pkg, prepend, netpols, rs).Ok? && m in InboundObjects(pkg, prepend, netpols, rs).value
    ensures !m.body.AuthorizationPolicy?
    decreases |rs|
  {
    hide RoutingOf, RouteRule, NetpolLabels, ServiceLeaf, Text.Itoa, HasWildcard;
    if m in InboundObjects(pkg, prepend, netpols, rs[..|rs| - 1]).value {
      InboundHasNoAuthz(pkg, prepend, netpols, rs[..|rs| - 1], m);
    }
  }

  lemma RoutePartHasNoAuthz(input: Input, rs: seq<Resolved>, m: Manifest)
    requires RoutePart(input, rs).Ok? && m.body.AuthorizationPolicy?
    ensures m !in RoutePart(input, rs).value
  {
    hide InboundObjects;
    if input.spec.routes.Some? {
      var spec := input.spec.routes.value;
      if m in InboundObjects(input.pkg, spec.prepend, input.NetpolsOn(), rs).value {
        InboundHasNoAuthz(input.pkg, spec.prepend, input.NetpolsOn(), rs, m);
      }
    }
  }

  lemma AuthzParts(input: Input, m: Manifest)
    requires Collected(input).Ok? && m.body.AuthorizationPolicy?
    ensures InboundOf(input).Ok? && ShorthandAuthz(input).Ok?
    ensures m in Collected(input).value <==>
            || m in DefaultAuthz(input.pkg, input.spec.istio, input.spec.netpols)
            || m in ShorthandAuthz(input).value
            || m in AuthzRoutePart(input, InboundOf(input).value)
  {
    hide NetpolPart, InboundOf, RoutePart, DefaultAuthz, AuthzRoutePart, ShorthandAuthz;
    PartsOk(input);
    RoutePartHasNoAuthz(input, InboundOf(input).value, m);
    if m in NetpolPart(input).value {
      NetpolsOnly(input, m);
    }
  }

  lemma CollectedAccepts(input: Input, q: Request)
    requires Collected(input).Ok? && q.Valid()
    ensures SomeAccepts(Collected(input).value, q) <==> DefaultsDescribe(input, q) || EntriesDescribe(input, q) || RoutesDescribe(input, q)
  {
    hide Collected, InboundOf, DefaultAuthz, AuthzRoutePart, ShorthandAuthz, DefaultsDescribe, EntriesDescribe, RoutesDescribe,
      Accepts, L.AuthzAdmitsPort, Selector.Selects;
    PartsOk(input);
    DefaultsAccept(input, q);
    EntriesAccept(input, q);
    RoutePartAccepts(input, q);
    forall m: Manifest | m.body.AuthorizationPolicy?
      ensures m in Collected(input).value <==>
              || m in DefaultAuthz(input.pkg, input.spec.istio, input.spec.netpols)
              || m in ShorthandAuthz(input).value
              || m in AuthzRoutePart(input, InboundOf(input).value)
    {
      AuthzParts(input, m);
    }
  }

  /** The generated authorization policies accept exactly: callers of the Package's namespace where that default is on,
      what the enabled ingress entries describe, and the gateways of the enabled routes. */
  lemma GeneratedAuthz(input: Input, q: Request)
    requires Desired(input).Ok? && q.Valid()
    ensures SomeAccepts(Desired(input).value, q) <==> DefaultsDescribe(input, q) || EntriesDescribe(input, q) || RoutesDescribe(input, q)
  {
    hide Collected, FinishAll, SomeAccepts, DefaultsDescribe, EntriesDescribe, RoutesDescribe;
    CollectedAccepts(input, q);
    FinishAccepts(input.pkg, input.HBone(), Collected(input).value, q);
  }

  // ---- the decision ------------------------------------------------------

  /** The policy applies to the workload; the one that allows nothing applies to all. */
  predicate AppliesTo(m: Manifest, labels: Labels) {
    m.body.AllowNothing? || (m.body.AuthorizationPolicy? && ByLabels(m.body.authz.selector).Selects(labels))
  }

  /** A workload no policy applies to accepts everything; any other accepts what some policy accepts. */
  ghost predicate Decision(ms: seq<Manifest>, q: Request) {
    (exists m :: m in ms && AppliesTo(m, q.labels)) ==> SomeAccepts(ms, q)
  }

  lemma NothingCollected(input: Input) returns (m: Manifest)
    requires Collected(input).Ok? && WantsAllowNothing(input.spec.istio, input.spec.netpols)
    ensures m in Collected(input).value && m.body.AllowNothing?
  {
    AuthzGatesAsWritten(input.spec.istio, input.spec.netpols);
    m := NothingDefault(input.pkg, input.spec.istio.value);
    hide NetpolPart, InboundOf, RoutePart, AuthzRoutePart, ShorthandAuthz, AuthzEnabled, SideEnabled, AuthzAllowNothing, Names.Prepend;
    PartsOk(input);
    assert DefaultAuthz(input.pkg, input.spec.istio, input.spec.netpols)[0] == m;
    hide DefaultAuthz;
  }

  lemma FinishApplies(pkg: S.Package, hbone: bool, m: Manifest, labels: Labels)
    requires m.body.AllowNothing?
    ensures AppliesTo(Finish(pkg, hbone, m), labels)
  {
    hide Metadata.Owned, Metadata.StampedLabels, Hbone.InjectAll, Hbone.SomeGains, Selector.Selects;
  }

  /** With the allow-nothing default, a request to any workload of the Package's namespace is accepted exactly if it is
      an in-namespace call where that is on, or described by an enabled entry, or comes through an enabled route's
      gateway. */
  lemma GeneratedDecision(input: Input, q: Request)
    requires Desired(input).Ok? && q.Valid() && WantsAllowNothing(input.spec.istio, input.spec.netpols)
    ensures Decision(Desired(input).value, q) <==> DefaultsDescribe(input, q) || EntriesDescribe(input, q) || RoutesDescribe(input, q)
  {
    hide Collected, SomeAccepts, DefaultsDescribe, EntriesDescribe, RoutesDescribe, AppliesTo, WantsAllowNothing, Finish;
    GeneratedAuthz(input, q);
    var ms, out := Collected(input).value, Desired(input).value;
    var m := NothingCollected(input);
    FinishApplies(input.pkg, input.HBone(), m, q.labels);
    var k :| 0 <= k < |ms| && ms[k] == m;
    assert out[k] in out && AppliesTo(out[k], q.labels);
  }
}
