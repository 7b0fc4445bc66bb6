/** Switching more on: with the deny-all default of a direction, enabling further entries, routes, raw policies or
    port injection never takes an allowed connection away. Without it, a connection of one of the Package's pods is safe
    exactly when some policy already admits it. */
module Enabling {
  import opened Common
  import opened Kube
  import opened Builders
  import opened Passes
  import opened Steps
  import opened Defaults
  import opened Switches
  import opened Routes
  import opened RouteObjects
  import opened Hbone
  import opened Generate
  import opened Safety
  import opened Traffic
  import S = Spec
  import Cidr
  import Keys
  import Names
  import Shorthand
  import Ports
  import Text

  // ---- a larger list of policies -----------------------------------------

  /** Every policy of `ms` has a policy with the same content in `more`. */
  ghost predicate Covers(more: seq<Manifest>, ms: seq<Manifest>) {
    forall m :: m in ms && m.body.NetworkPolicy? ==> SomeBody(more, m.body)
  }

  ghost predicate SomeBody(ms: seq<Manifest>, b: Body) { exists m :: m in ms && m.body == b }

  lemma CoveringAdmits(pkg: S.Package, hbone: bool, ms: seq<Manifest>, hbone': bool, more: seq<Manifest>, ns: string, d: Direction, conn: Connection)
    requires Covers(more, ms) && (hbone ==> hbone')
    requires SomeAdmits(FinishAll(pkg, hbone, ms), ns, d, conn)
    ensures SomeAdmits(FinishAll(pkg, hbone', more), ns, d, conn)
  {
    hide PolicyAdmits, IsTunnel, LacksTunnel, PeersMatch, Selected, FinishAll, Rules;
    FinishedAdmit(pkg, hbone, ms, ns, d, conn);
    FinishedAdmit(pkg, hbone', more, ns, d, conn);
  }

  // ---- a larger specification --------------------------------------------

  /** Every enabled entry of `source` is an enabled entry of `source'`, for the same pods. */
  ghost predicate LargerSource(source': S.Source, source: S.Source) {
    && source'.podSelector == source.podSelector
    && forall s: Step :: !s.LocalStep? && InPeers(source, s) ==> InPeers(source', s)
  }

  ghost predicate LargerEntries(entries': map<string, S.Local>, entries: map<string, S.Local>) {
    forall k :: k in entries && entries[k].Decoded? ==>
      k in entries' && entries'[k].Decoded? && LargerSource(entries'[k].source, entries[k].source)
  }

  function Entries(side: Option<S.Side>): map<string, S.Local> { if side.Some? then side.value.entries else map[] }

  /** Everything of a direction but its entries; a missing section says the same as an empty one. */
  function Rest(side: Option<S.Side>): S.Side {
    if side.Some? then side.value.(entries := map[]) else S.Side(map[], map[], None, None)
  }

  ghost predicate LargerSide(side': Option<S.Side>, side: Option<S.Side>) {
    Rest(side') == Rest(side) && LargerEntries(Entries(side'), Entries(side))
  }

  ghost predicate LargerRoutes(routes': Option<RouteSpec>, routes: Option<RouteSpec>) {
    routes.Some? ==>
      && routes'.Some? && routes'.value.defaults == routes.value.defaults && routes'.value.prepend == routes.value.prepend
      && forall name :: name in routes.value.inbound && routes.value.inbound[name].Some? && routes.value.inbound[name].value.enabled ==>
           name in routes'.value.inbound && routes'.value.inbound[name] == routes.value.inbound[name]
  }

  /** `input'` has at least the enabled entries, routes and raw policies of `input`, and differs in nothing else that
      network policies depend on. */
  ghost predicate Larger(input': Input, input: Input) {
    && input.NetpolsOn() && input'.NetpolsOn()
    && input'.pkg == input.pkg && input'.env == input.env && input'.ingress == input.ingress && input'.spec.istio == input.spec.istio
    && var np, np' := input.spec.netpols.value, input'.spec.netpols.value;
    && np'.prepend == np.prepend && LargerSide(np'.egress, np.egress) && LargerSide(np'.ingress, np.ingress)
    && (forall raw :: raw in np.additional ==> raw in np'.additional)
    && (WantsInjection(input.spec.istio, input.spec.netpols) ==> WantsInjection(input'.spec.istio, input'.spec.netpols))
    && LargerRoutes(input'.spec.routes, input.spec.routes)
  }

  // ---- entries -----------------------------------------------------------

  /** The same entry under a source with more peers. */
  function Moved(s: Step, source: S.Source): Step
    requires !s.LocalStep?
  {
    if s.EntryStep? then EntryStep(s.family, s.localKey, source, s.key, s.target)
    else LiteralStep(s.localKey, source, s.key, s.literal)
  }

  lemma StepKept(entries': map<string, S.Local>, entries: map<string, S.Local>, s: Step)
    requires LargerEntries(entries', entries) && InSpec(entries, s) && !s.LocalStep?
    ensures s.localKey in entries' && entries'[s.localKey].Decoded?
    ensures var source' := entries'[s.localKey].source;
            source'.podSelector == s.source.podSelector && InSpec(entries', Moved(s, source'))
  {
    var source' := entries'[s.localKey].source;
    assert InPeers(s.source, s);
    assert InPeers(source', s);
  }

  ghost predicate SameRest(c': Ctx, c: Ctx) {
    && c'.pkg == c.pkg && c'.env == c.env && c'.spec.prepend == c.spec.prepend
    && Rest(c'.spec.egress) == Rest(c.spec.egress) && Rest(c'.spec.ingress) == Rest(c.spec.ingress)
  }

  lemma SameLookups(c': Ctx, c: Ctx, name: string)
    requires SameRest(c', c)
    ensures ExcludeCIDRs(c'.spec) == ExcludeCIDRs(c.spec)
    ensures ResolveEgressDefinition(c', name) == ResolveEgressDefinition(c, name)
    ensures ResolveIngressDefinition(c', name) == ResolveIngressDefinition(c, name)
  {
    hide Resolve, BuiltInEgress, BuiltInIngress;
  }

  lemma EgressBodyKept(c': Ctx, c: Ctx, s: Step, source': S.Source, m: Manifest)
    requires SameRest(c', c) && !s.LocalStep? && source'.podSelector == s.source.podSelector
    requires Emits(Pass(EgressNetpols, c), s, m) && Emit(Pass(EgressNetpols, c'), Moved(s, source')).Ok?
    ensures SomeBody(Emit(Pass(EgressNetpols, c'), Moved(s, source')).value, m.body)
  {
    hide Shorthand.ParseEgressRemoteKey, Shorthand.ParseEgressCIDRKey, ResolveEgressDefinition, Ports.NetpolPorts, Cidr.Exclusions,
      Names.EgressK8sName, Names.EgressCIDRName, NetpolLabels, Text.IsName, MergeShorthandMetadata, ApplyShorthandMetadata, RemotePeer, Text.ToLower, ExcludeCIDRs, SameRest;
    SameLookups(c', c, s.key);
    var out := Emit(Pass(EgressNetpols, c'), Moved(s, source')).value;
    assert SourceSelector(s.localKey, source') == SourceSelector(s.localKey, s.source);
    hide SourceSelector;
    assert out[0].body == m.body;
  }

  lemma IngressBodyKept(c': Ctx, c: Ctx, s: Step, source': S.Source, m: Manifest)
    requires SameRest(c', c) && !s.LocalStep? && source'.podSelector == s.source.podSelector
    requires Emits(Pass(IngressNetpols, c), s, m) && Emit(Pass(IngressNetpols, c'), Moved(s, source')).Ok?
    ensures SomeBody(Emit(Pass(IngressNetpols, c'), Moved(s, source')).value, m.body)
  {
    hide Shorthand.ParseIngressLocalKey, Shorthand.ParseIngressRemoteKey, Shorthand.IsCIDRText, ResolveIngressDefinition, Ports.NetpolPorts,
      Names.IngressK8sName, Names.IngressCIDRName, Names.IngressHead, NetpolLabels, Text.IsName, MergeShorthandMetadata, ApplyShorthandMetadata, RemotePeer,
      Text.ToLower, SameRest;
    SameLookups(c', c, s.key);
    var out := Emit(Pass(IngressNetpols, c'), Moved(s, source')).value;
    assert out[0].body == m.body;
  }

  lemma PartCovers(c': Ctx, c: Ctx, d: Direction)
    requires SameRest(c', c) && LargerSide(SideFor(c', d), SideFor(c, d)) && PartFor(c, d).Ok? && PartFor(c', d).Ok?
    ensures Covers(PartFor(c', d).value, PartFor(c, d).value)
  {
    hide Run, AllSteps, InSpec, Emit, SameRest, LargerEntries;
    forall m | m in PartFor(c, d).value ensures SomeBody(PartFor(c', d).value, m.body) {
      var p, steps := PassFor(c, d), AllSteps(SideFor(c, d).value.entries);
      RunMembers(p, steps, m);
      var s :| s in steps && Emits(p, s, m);
      OneStepKept(c', c, d, s, m);
    }
  }

  lemma OneStepKept(c': Ctx, c: Ctx, d: Direction, s: Step, m: Manifest)
    requires SameRest(c', c) && LargerSide(SideFor(c', d), SideFor(c, d)) && SideFor(c, d).Some? && PartFor(c', d).Ok?
    requires s in AllSteps(SideFor(c, d).value.entries) && Emits(PassFor(c, d), s, m)
    ensures SomeBody(PartFor(c', d).value, m.body)
  {
    hide Run, AllSteps, InSpec, SameRest, LargerEntries, EmitEgress, EmitIngress;
    var entries, entries' := Entries(SideFor(c, d)), Entries(SideFor(c', d));
    StepsAreEntries(entries, s);
    NoLocalOutput(PassFor(c, d), s, m);
    StepKept(entries', entries, s);
    var source' := entries'[s.localKey].source;
    var s' := Moved(s, source');
    StepsAreEntries(entries', s');
    var p', steps' := PassFor(c', d), AllSteps(entries');
    RunOk(p', steps');
    hide Emit;
    if d == Egress {
      EgressBodyKept(c', c, s, source', m);
    } else {
      IngressBodyKept(c', c, s, source', m);
    }
    var m' :| m' in Emit(p', s').value && m'.body == m.body;
    assert Emits(p', s', m');
    RunMembers(p', steps', m');
  }

  lemma NoLocalOutput(p: Pass, s: Step, m: Manifest)
    requires p.kind != IngressAuthz && Emits(p, s, m)
    ensures !s.LocalStep?
  {
  }

  // ---- the other parts ---------------------------------------------------

  lemma SameSwitches(side': Option<S.Side>, side: Option<S.Side>)
    requires Rest(side') == Rest(side)
    ensures DenyAll(side') == DenyAll(side) && InNamespace(side') == InNamespace(side) && KubeDNS(side') == KubeDNS(side)
    ensures Istiod(side') == Istiod(side) && Prometheus(side') == Prometheus(side) && SideEnabled(side') == SideEnabled(side)
  {
    assert DefaultsOf(side') == DefaultsOf(side);
    hide DefaultsOf;
  }

  lemma SameDefault(c': Ctx, c: Ctx, d: Direction, name: string, rules: seq<Rule>)
    requires SameRest(c', c)
    ensures Default(c', d, name, rules) == Default(c, d, name, rules)
  {
    hide NetpolLabels, Names.Prepend;
  }

  lemma SameFour(c': Ctx, c: Ctx, d: Direction, a: bool, p: string, w: seq<Rule>, b: bool, q: string, x: seq<Rule>,
                 e: bool, r: string, y: seq<Rule>, f: bool, s: string, z: seq<Rule>)
    requires SameRest(c', c)
    ensures If(a, Default(c', d, p, w)) + If(b, Default(c', d, q, x)) + If(e, Default(c', d, r, y)) + If(f, Default(c', d, s, z))
         == If(a, Default(c, d, p, w)) + If(b, Default(c, d, q, x)) + If(e, Default(c, d, r, y)) + If(f, Default(c, d, s, z))
  {
    hide Default, If, SameRest;
    SameDefault(c', c, d, p, w);
    SameDefault(c', c, d, q, x);
    SameDefault(c', c, d, r, y);
    SameDefault(c', c, d, s, z);
  }

  lemma SameDefaultBodies(c': Ctx, c: Ctx, istio: Option<S.Istio>, d: Direction)
    requires SameRest(c', c)
    ensures DefaultsFor(c', istio, d) == DefaultsFor(c, istio, d)
    ensures DenyAll(SideFor(c', d)) == DenyAll(SideFor(c, d))
  {
    hide Default, DenyAll, InNamespace, KubeDNS, Istiod, Prometheus, SideEnabled, Ambient, If, KUBE_DNS, ISTIOD, PROMETHEUS, OWN_NAMESPACE, CIDRPeer;
    SameSwitches(c'.spec.egress, c.spec.egress);
    SameSwitches(c'.spec.ingress, c.spec.ingress);
    hide Rest, SameRest;
    var e, i := c.spec.egress, c.spec.ingress;
    if d == Egress {
      SameFour(c', c, d, DenyAll(e), "default-egress-deny-all", [], InNamespace(e), "default-egress-allow-all-in-ns", [OWN_NAMESPACE],
               KubeDNS(e), "default-egress-allow-kube-dns", [KUBE_DNS], Istiod(e) && !Ambient(istio), "default-egress-allow-istiod", [ISTIOD]);
    } else {
      SameFour(c', c, d, DenyAll(i), "default-ingress-deny-all", [], InNamespace(i), "default-ingress-allow-all-in-ns", [OWN_NAMESPACE],
               Prometheus(i) && !Ambient(istio), "default-ingress-allow-prometheus-to-istio-sidecar", [PROMETHEUS],
               Ambient(istio) && SideEnabled(i), "default-ingress-allow-ambient-kubelet", [Rule([CIDRPeer(KUBELET, [])], [])]);
    }
  }

  lemma AdditionalKept(c': Ctx, c: Ctx, raw: S.RawPolicy)
    requires SameRest(c', c)
    ensures Additional(c', raw) == Additional(c, raw)
  {
  }

  lemma RouteKept(input': Input, input: Input, m: Manifest)
    requires Larger(input', input) && InboundOf(input).Ok? && InboundOf(input').Ok? && IsRouteNetpol(input, m)
    ensures exists m' :: IsRouteNetpol(input', m') && m'.body == m.body
  {
    hide ResolveKeys, Keys.KeyOrder, InboundError, GatewaysOf, BuildNetpol, LargerSide, HBoneEnabled, WantsInjection;
    var spec, spec' := input.spec.routes.value, input'.spec.routes.value;
    var r, g :| r in InboundOf(input).value && g in r.gateways && m == BuildNetpol(input.pkg, spec.prepend, r.route, g);
    SameResolved(spec', spec, input.ingress, r);
    assert m == BuildNetpol(input'.pkg, spec'.prepend, r.route, g);
    assert IsRouteNetpol(input', m);
  }

  /** An enabled route that is kept resolves to the same gateways. */
  lemma SameResolved(spec': RouteSpec, spec: RouteSpec, env: IngressEnv, r: Resolved)
    requires ResolveAll(spec, env).Ok? && ResolveAll(spec', env).Ok? && r in ResolveAll(spec, env).value
    requires LargerRoutes(Some(spec'), Some(spec))
    ensures r in ResolveAll(spec', env).value
  {
    hide ResolveKeys, Keys.KeyOrder, IsLabel, IsSubdomain;
    ResolvedRoutes(spec, env, Keys.KeyOrder(spec.inbound.Keys));
    ResolvedRoutes(spec', env, Keys.KeyOrder(spec'.inbound.Keys));
    var r' :| r' in ResolveAll(spec', env).value && r'.name == r.name;
    hide EffectiveGateways;
    assert r'.route == r.route;
    forall i | 0 <= i < |r.gateways| ensures r'.gateways[i] == r.gateways[i] {
      var g, g' := r.gateways[i], r'.gateways[i];
      SplitGatewayComplete(g.ns, g.name);
      SplitGatewayComplete(g'.ns, g'.name);
    }
    assert r'.gateways == r.gateways;
  }

  lemma CollectedCovers(input': Input, input: Input)
    requires Larger(input', input) && Collected(input).Ok? && Collected(input').Ok?
    ensures Covers(Collected(input').value, Collected(input).value)
  {
    hide Collected, PartFor, DefaultsFor, AdditionalAll, IsRouteNetpol, Covers, LargerEntries, LargerRoutes, InboundOf, HBoneEnabled, WantsInjection;
    var c', c, istio := input'.Ctx(), input.Ctx(), input.spec.istio;
    forall m | m in Collected(input).value && m.body.NetworkPolicy? ensures SomeBody(Collected(input').value, m.body) {
      OnePolicyKept(input', input, m);
    }
    assert Covers(Collected(input').value, Collected(input).value) by {
      CoversIf(Collected(input').value, Collected(input).value);
    }
  }

  lemma CoversIf(more: seq<Manifest>, ms: seq<Manifest>)
    ensures Covers(more, ms) <==> forall m :: m in ms && m.body.NetworkPolicy? ==> SomeBody(more, m.body)
  {
  }

  lemma OnePolicyKept(input': Input, input: Input, m: Manifest)
    requires Larger(input', input) && Collected(input).Ok? && Collected(input').Ok?
    requires m in Collected(input).value && m.body.NetworkPolicy?
    ensures SomeBody(Collected(input').value, m.body)
  {
    hide Collected, DefaultsFor, AdditionalAll, IsRouteNetpol, LargerEntries, LargerRoutes, InboundOf, HBoneEnabled, WantsInjection, EgressPart, IngressPart;
    var c', c, istio := input'.Ctx(), input.Ctx(), input.spec.istio;
    PolicyParts(input, m);
    PolicyParts(input', m);
    assert SameRest(c', c);
    hide SameRest;
    if m in DefaultsFor(c, istio, Egress) || m in DefaultsFor(c, istio, Ingress) {
      SameDefaultBodies(c', c, istio, Egress);
      SameDefaultBodies(c', c, istio, Ingress);
    } else if m in EgressPart(c).value {
      PartCovers(c', c, Egress);
      BodyKept(input', PartFor(c', Egress).value, m.body);
    } else if m in IngressPart(c).value {
      PartCovers(c', c, Ingress);
      BodyKept(input', PartFor(c', Ingress).value, m.body);
    } else if m in AdditionalAll(c, c.spec.additional).value {
      RawKept(c', c, m);
    } else {
      PartsOkCollected(input);
      PartsOkCollected(input');
      RouteKept(input', input, m);
      var m' :| IsRouteNetpol(input', m') && m'.body == m.body;
      PolicyParts(input', m');
    }
  }

  lemma PartsOkCollected(input: Input)
    requires Collected(input).Ok?
    ensures InboundOf(input).Ok?
  {
    hide InboundOf, NetpolPart;
  }

  lemma BodyKept(input': Input, part: seq<Manifest>, b: Body)
    requires Collected(input').Ok? && input'.NetpolsOn() && b.NetworkPolicy? && SomeBody(part, b)
    requires part == PartFor(input'.Ctx(), Egress).value || part == PartFor(input'.Ctx(), Ingress).value
    requires PartFor(input'.Ctx(), Egress).Ok? && PartFor(input'.Ctx(), Ingress).Ok?
    ensures SomeBody(Collected(input').value, b)
  {
    hide Collected, DefaultsFor, AdditionalAll, IsRouteNetpol, EgressPart, IngressPart;
    var m' :| m' in part && m'.body == b;
    PolicyParts(input', m');
  }

  lemma RawKept(c': Ctx, c: Ctx, m: Manifest)
    requires SameRest(c', c) && AdditionalAll(c, c.spec.additional).Ok? && AdditionalAll(c', c'.spec.additional).Ok?
    requires m in AdditionalAll(c, c.spec.additional).value
    requires forall raw :: raw in c.spec.additional ==> raw in c'.spec.additional
    ensures m in AdditionalAll(c', c'.spec.additional).value
  {
    hide AdditionalAll, SameRest, Names.Prepend;
    AdditionalMembers(c, c.spec.additional, m);
    AdditionalMembers(c', c'.spec.additional, m);
    var raw :| raw in c.spec.additional && Additional(c, raw).Ok? && m == Additional(c, raw).value[0];
    AdditionalKept(c', c, raw);
  }

  // ---- the main results --------------------------------------------------

  /** A connection some policy admits, and one that does not start or end at a pod of the namespace, stays allowed. */
  lemma AdmittedIsKept(input: Input, input': Input, d: Direction, conn: Connection)
    requires Desired(input).Ok? && Desired(input').Ok? && Larger(input', input)
    requires Inside(input, d, conn) ==> SomeAdmits(Desired(input).value, input.pkg.namespace, d, conn)
    ensures Allowed(Desired(input').value, input.pkg.namespace, d, conn)
  {
    hide Collected, Admits, Isolates, FinishAll, HBoneEnabled, WantsDenyAll, WantsInjection, Covers, LargerRoutes, LargerSide;
    var ns, ms, ms' := input.pkg.namespace, Collected(input).value, Collected(input').value;
    CollectedCovers(input', input);
    Isolation(input', d, conn);
    SameGates(input);
    SameGates(input');
    FinishedAdmit(input.pkg, input'.HBone(), ms', ns, d, conn);
    if SomeAdmits(Desired(input).value, ns, d, conn) {
      CoveringAdmits(input.pkg, input.HBone(), ms, input'.HBone(), ms', ns, d, conn);
    }
  }

  lemma SameGates(input: Input)
    ensures input.HBone() <==> WantsInjection(input.spec.istio, input.spec.netpols)
  {
    GatesAsWritten(None, input.spec.istio, input.spec.netpols);
  }

  /** The connection's subject in direction `d` is a pod of the Package's namespace. */
  predicate Inside(input: Input, d: Direction, conn: Connection) { conn.Subject(d).Pod? && conn.Subject(d).ns == input.pkg.namespace }

  /** With the deny-all default on, enabling more entries, routes, raw policies or port injection keeps every allowed
      connection of that direction. */
  lemma EnablingKeepsTraffic(input: Input, input': Input, d: Direction, conn: Connection)
    requires Desired(input).Ok? && Desired(input').Ok? && Larger(input', input)
    requires WantsDenyAll(SideFor(input.Ctx(), d))
    requires Allowed(Desired(input).value, input.pkg.namespace, d, conn)
    ensures Allowed(Desired(input').value, input.pkg.namespace, d, conn)
  {
    hide Collected, Admits, Isolates, FinishAll, HBoneEnabled, WantsDenyAll, WantsInjection, LargerSide, LargerRoutes;
    Isolation(input, d, conn);
    FinishedAdmit(input.pkg, input.HBone(), Collected(input).value, input.pkg.namespace, d, conn);
    AdmittedIsKept(input, input', d, conn);
  }

  // ---- one more raw policy -----------------------------------------------

  /** A raw policy that isolates every pod of the namespace and admits nothing. */
  function DenyRaw(d: Direction): S.RawPolicy {
    S.RawPolicy("deny", map[], map[], Some(PolicySpec(EVERYTHING, [d], [], [])))
  }

  function WithDeny(input: Input, d: Direction): Input
    requires input.NetpolsOn()
  {
    input.(spec := input.spec.(netpols := Some(MoreRaw(input.spec.netpols.value, DenyRaw(d)))))
  }

  function MoreRaw(np: S.NetworkPolicies, raw: S.RawPolicy): S.NetworkPolicies { np.(additional := np.additional + [raw]) }

  lemma DenyIsLarger(input: Input, d: Direction)
    requires input.NetpolsOn()
    ensures Larger(WithDeny(input, d), input)
  {
    hide InPeers;
    var input' := WithDeny(input, d);
  }

  lemma StepSame(kind: PassKind, c: Ctx, raw: S.RawPolicy, s: Step)
    ensures Emit(Pass(kind, c.(spec := MoreRaw(c.spec, raw))), s) == Emit(Pass(kind, c), s)
  {
    hide Shorthand.ParseEgressRemoteKey, Shorthand.ParseEgressCIDRKey, Shorthand.ParseIngressLocalKey, Shorthand.ParseIngressRemoteKey,
      Shorthand.IsCIDRText, Ports.NetpolPorts, Cidr.Exclusions, Names.EgressK8sName, Names.EgressCIDRName, Names.IngressK8sName,
      Names.IngressCIDRName, Names.IngressHead, AuthzPorts, NetpolLabels, Text.IsName, ApplyShorthandMetadata, MergeShorthandMetadata,
      SourceSelector, RemotePeer, Text.ToLower, ResolveEgressDefinition, ResolveIngressDefinition, ExcludeCIDRs;
    SameLookups(c.(spec := MoreRaw(c.spec, raw)), c, if s.LocalStep? then "" else s.key);
  }

  lemma SideSame(kind: PassKind, c: Ctx, raw: S.RawPolicy, side: Option<S.Side>)
    ensures SideRun(Pass(kind, c.(spec := MoreRaw(c.spec, raw))), side) == SideRun(Pass(kind, c), side)
  {
    hide Emit, Run, AllSteps;
    if side.Some? {
      var p, q := Pass(kind, c), Pass(kind, c.(spec := MoreRaw(c.spec, raw)));
      forall s ensures Emit(p, s) == Emit(q, s) {
        StepSame(kind, c, raw, s);
      }
      RunSame(p, q, AllSteps(side.value.entries));
    }
  }

  lemma {:induction false} AdditionalSame(c: Ctx, raw: S.RawPolicy, raws: seq<S.RawPolicy>)
    ensures AdditionalAll(c.(spec := MoreRaw(c.spec, raw)), raws) == AdditionalAll(c, raws)
    decreases |raws|
  {
    hide Names.Prepend;
    if raws != [] {
      AdditionalSame(c, raw, raws[..|raws| - 1]);
    }
  }

  lemma AdditionalSnoc(c: Ctx, raw: S.RawPolicy)
    ensures var c' := c.(spec := MoreRaw(c.spec, raw));
            AdditionalAll(c', c'.spec.additional) == Then(AdditionalAll(c, c.spec.additional), Additional(c, raw))
  {
    hide Names.Prepend;
    var c', raws := c.(spec := MoreRaw(c.spec, raw)), c.spec.additional;
    assert (raws + [raw])[..|raws|] == raws;
    AdditionalSame(c, raw, raws);
  }

  function DenyManifest(c: Ctx, d: Direction): Manifest { Additional(c, DenyRaw(d)).value[0] }

  lemma DenyGenerates(input: Input, d: Direction)
    requires input.NetpolsOn() && Collected(input).Ok?
    ensures Collected(WithDeny(input, d)).Ok?
  {
    hide Run, AllSteps, AdditionalAll, Additional, DefaultEgress, DefaultIngress, InboundOf, RoutesOutput, AuthzOf, DefaultAuthz, PlainResult,
      SideRun, AuthzEnabled, FromNetpol;
    var input', c := WithDeny(input, d), input.Ctx();
    PartsOk(input);
    SideSame(EgressNetpols, c, DenyRaw(d), c.spec.egress);
    SideSame(IngressNetpols, c, DenyRaw(d), c.spec.ingress);
    SideSame(IngressAuthz, c, DenyRaw(d), c.spec.ingress);
    AdditionalSnoc(c, DenyRaw(d));
    assert Additional(c, DenyRaw(d)).Ok? by { DenyIsReadable(c, d); }
    assert InboundOf(input') == InboundOf(input) by { SameInbound(input, d); }
    assert NetpolPart(input').Ok? && ShorthandAuthz(input') == ShorthandAuthz(input);
    hide NetpolPart, ShorthandAuthz;
  }

  lemma SameInbound(input: Input, d: Direction)
    requires input.NetpolsOn()
    ensures InboundOf(WithDeny(input, d)) == InboundOf(input)
  {
    hide ResolveAll;
  }

  lemma DenyIsReadable(c: Ctx, d: Direction)
    ensures Additional(c, DenyRaw(d)).Ok? && Additional(c, DenyRaw(d)).value == [DenyManifest(c, d)]
    ensures DenyManifest(c, d).body == NetworkPolicy(PolicySpec(EVERYTHING, [d], [], []))
  {
    hide Names.Prepend;
  }

  /** The additional raw policy is the only new policy. */
  lemma DenyAdds(input: Input, d: Direction, m: Manifest)
    requires input.NetpolsOn() && Collected(input).Ok? && Collected(WithDeny(input, d)).Ok? && m.body.NetworkPolicy?
    ensures m in Collected(WithDeny(input, d)).value <==> m in Collected(input).value || m == DenyManifest(input.Ctx(), d)
  {
    hide Collected, Run, AllSteps, AdditionalAll, Additional, DefaultEgress, DefaultIngress, InboundOf, BuildNetpol, SideRun, DenyAll, DenyManifest;
    var input', c, c', istio := WithDeny(input, d), input.Ctx(), WithDeny(input, d).Ctx(), input.spec.istio;
    PolicyParts(input, m);
    PolicyParts(input', m);
    assert SameRest(c', c);
    SameDefaultBodies(c', c, istio, Egress);
    SameDefaultBodies(c', c, istio, Ingress);
    SideSame(EgressNetpols, c, DenyRaw(d), c.spec.egress);
    SideSame(IngressNetpols, c, DenyRaw(d), c.spec.ingress);
    AdditionalSnoc(c, DenyRaw(d));
    DenyIsReadable(c, d);
    SameInbound(input, d);
    assert IsRouteNetpol(input', m) <==> IsRouteNetpol(input, m);
    hide IsRouteNetpol, EgressPart, IngressPart, DefaultsFor, SameRest;
  }

  lemma DenyMeans(c: Ctx, d: Direction, conn: Connection)
    ensures var m := DenyManifest(c, d);
            && !Admits(m, c.pkg.namespace, d, conn) && !Tunnels(m, c.pkg.namespace, d, conn)
            && (Isolates(m, c.pkg.namespace, d, conn) <==> conn.Subject(d).Pod? && conn.Subject(d).ns == c.pkg.namespace)
  {
    DenyIsReadable(c, d);
    hide Additional, DenyManifest;
    assert d in [d];
  }

  /** With the raw policy, exactly the admitted connections of the namespace's pods remain. */
  lemma DenyTraffic(input: Input, d: Direction, conn: Connection)
    requires Desired(input).Ok? && input.NetpolsOn() && Inside(input, d, conn)
    ensures Desired(WithDeny(input, d)).Ok?
    ensures Allowed(Desired(WithDeny(input, d)).value, input.pkg.namespace, d, conn) <==>
            SomeAdmits(Desired(input).value, input.pkg.namespace, d, conn)
  {
    hide Collected, Admits, Isolates, Tunnels, FinishAll, HBoneEnabled, DenyManifest;
    var input', ns, c := WithDeny(input, d), input.pkg.namespace, input.Ctx();
    DenyGenerates(input, d);
    var ms, ms' := Collected(input).value, Collected(input').value;
    forall m: Manifest | m.body.NetworkPolicy? ensures m in ms' <==> m in ms || m == DenyManifest(c, d) {
      DenyAdds(input, d, m);
    }
    DenyMeans(c, d, conn);
    DenyIsReadable(c, d);
    OnlyPolicies(ns, d, conn);
    assert DenyManifest(c, d) in ms';
    FinishedAdmit(input.pkg, input.HBone(), ms, ns, d, conn);
    FinishedAdmit(input.pkg, input'.HBone(), ms', ns, d, conn);
    assert input'.HBone() == input.HBone() by { SameInjection(input, d); }
    assert SomeAdmits(ms', ns, d, conn) <==> SomeAdmits(ms, ns, d, conn);
    assert SomeTunnels(ms', ns, d, conn) <==> SomeTunnels(ms, ns, d, conn);
    assert SomeIsolates(ms', ns, d, conn);
  }

  lemma SameInjection(input: Input, d: Direction)
    requires input.NetpolsOn()
    ensures WithDeny(input, d).HBone() == input.HBone()
  {
  }

  lemma OnlyPolicies(ns: string, d: Direction, conn: Connection)
    ensures forall m :: Admits(m, ns, d, conn) || Tunnels(m, ns, d, conn) || Isolates(m, ns, d, conn) ==> m.body.NetworkPolicy?
  {
    hide PolicyAdmits, Selected;
  }

  /** An allowed connection is kept by every larger specification exactly when some policy admits it already, or it is
      none of the Package's pods' connections. */
  lemma KeptExactly(input: Input, d: Direction, conn: Connection)
    requires Desired(input).Ok? && input.NetpolsOn() && Allowed(Desired(input).value, input.pkg.namespace, d, conn)
    ensures (forall input' :: Larger(input', input) && Desired(input').Ok? ==> Allowed(Desired(input').value, input.pkg.namespace, d, conn))
            <==> (Inside(input, d, conn) ==> SomeAdmits(Desired(input).value, input.pkg.namespace, d, conn))
  {
    hide Larger, Desired, Allowed, SomeAdmits;
    if Inside(input, d, conn) ==> SomeAdmits(Desired(input).value, input.pkg.namespace, d, conn) {
      forall input' | Larger(input', input) && Desired(input').Ok? ensures Allowed(Desired(input').value, input.pkg.namespace, d, conn) {
        AdmittedIsKept(input, input', d, conn);
      }
    } else {
      DenyIsLarger(input, d);
      DenyTraffic(input, d, conn);
    }
  }

  /** A Package whose defaults are off and that says nothing else. */
  function Silent(pkg: S.Package, env: S.Env, ingress: IngressEnv): Input {
    var off := Some(S.Side(map[], map[], None, Some(S.Defaults(Some(false), None, None, None, None, None))));
    Input(pkg, PackageSpec(None, Ok([]), Some(S.NetworkPolicies(true, false, off, off, [], false)), None, Ok([])), env, ingress)
  }

  lemma SilentEmitsNothing(pkg: S.Package, env: S.Env, ingress: IngressEnv)
    ensures Desired(Silent(pkg, env, ingress)) == Ok([])
  {
    hide Default, Run, AllSteps, DefaultEgress, DefaultIngress;
    var input := Silent(pkg, env, ingress);
    var c := input.Ctx();
    NothingToRun(Pass(EgressNetpols, c));
    NothingToRun(Pass(IngressNetpols, c));
    NoDefaults(c);
    assert input.spec.istio == None && c.spec.egress.value.entries == map[] && c.spec.ingress.value.entries == map[];
    assert EgressPart(c) == Ok([]) && IngressPart(c) == Ok([]) && AdditionalAll(c, c.spec.additional) == Ok([]);
    ThenOfEmpty(Ok([]));
    assert NetpolPart(input) == Ok([]);
    assert ShorthandAuthz(input) == Ok([]);
    hide NetpolPart, ShorthandAuthz;
  }

  lemma NoDefaults(c: Ctx)
    requires !SideEnabled(c.spec.egress) && !SideEnabled(c.spec.ingress)
    ensures DefaultEgress(c, None) == [] && DefaultIngress(c, None) == []
  {
    hide Default;
  }

  lemma NothingToRun(p: Pass)
    ensures Run(p, AllSteps(map[])) == Ok([])
  {
    hide Run, Emit, Keys.KeyOrder;
    var entries: map<string, S.Local> := map[];
    NoKeys(Keys.KeyOrder(entries.Keys));
    RunEmpty(p);
    assert AllSteps(entries) == [];
  }

  lemma NoKeys(keys: seq<string>)
    requires forall k :: k in keys ==> false
    ensures keys == []
  {
    Keys.FirstIsMember(keys);
  }

  /** The loss is real: such a Package allows everything, and adding the one raw policy cuts every connection of its
      pods, although both specifications generate. */
  lemma LossExample(pkg: S.Package, env: S.Env, ingress: IngressEnv, d: Direction, conn: Connection)
    requires conn.Subject(d).Pod? && conn.Subject(d).ns == pkg.namespace
    ensures var input := Silent(pkg, env, ingress);
            && Desired(input).Ok? && Allowed(Desired(input).value, pkg.namespace, d, conn)
            && Larger(WithDeny(input, d), input) && Desired(WithDeny(input, d)).Ok?
            && !Allowed(Desired(WithDeny(input, d)).value, pkg.namespace, d, conn)
  {
    hide Larger, Desired, Admits, Isolates;
    var input := Silent(pkg, env, ingress);
    SilentEmitsNothing(pkg, env, ingress);
    DenyIsLarger(input, d);
    DenyTraffic(input, d, conn);
  }
}
