/** The traffic a generated set of network policies allows: exactly what the specification says, and never less
    when more of it is switched on under a deny-all baseline. */
module Traffic {
  import opened Common
  import opened Kube
  import opened Builders
  import opened Passes
  import opened Steps
  import opened Defaults
  import opened Switches
  import opened Routes
  import opened RouteObjects
  import opened Metadata
  import opened Hbone
  import opened Generate
  import opened Safety
  import S = Spec
  import Meaning
  import Names
  import Shorthand
  import Ports
  import Text
  import Cidr

  // ---- post-processing ---------------------------------------------------

  /** The tunnel connections injection adds to a policy. */
  ghost predicate Tunnels(m: Manifest, ns: string, d: Direction, conn: Connection) {
    && Isolates(m, ns, d, conn) && IsTunnel(conn)
    && exists r :: r in Rules(m.body.spec, d) && LacksTunnel(r) && PeersMatch(r.peers, ns, conn.Remote(d))
  }

  lemma FinishAdmits(pkg: S.Package, hbone: bool, m: Manifest, ns: string, d: Direction, conn: Connection)
    ensures Isolates(Finish(pkg, hbone, m), ns, d, conn) <==> Isolates(m, ns, d, conn)
    ensures Admits(Finish(pkg, hbone, m), ns, d, conn) <==>
            Admits(m, ns, d, conn) || (hbone && Tunnels(m, ns, d, conn))
  {
    hide PolicyAdmits, StampedLabels, Owned, InjectManifest, Selected;
    if m.body.NetworkPolicy? {
      InjectedPolicy(m, ns, d, conn);
      forall r ensures LacksTunnel(r) <==> Gains(r) {
        SameGain(r);
      }
      hide LacksTunnel, Gains;
    }
    assert !m.body.NetworkPolicy? ==> InjectManifest(m) == m by { OthersUntouched(m); }
  }

  lemma OthersUntouched(m: Manifest)
    ensures !m.body.NetworkPolicy? ==> InjectManifest(m) == m
  {
  }

  ghost predicate SomeTunnels(ms: seq<Manifest>, ns: string, d: Direction, conn: Connection) {
    exists m :: m in ms && Tunnels(m, ns, d, conn)
  }

  ghost predicate SomeIsolates(ms: seq<Manifest>, ns: string, d: Direction, conn: Connection) {
    exists m :: m in ms && Isolates(m, ns, d, conn)
  }

  lemma FinishedAdmit(pkg: S.Package, hbone: bool, ms: seq<Manifest>, ns: string, d: Direction, conn: Connection)
    ensures SomeAdmits(FinishAll(pkg, hbone, ms), ns, d, conn) <==>
            SomeAdmits(ms, ns, d, conn) || (hbone && SomeTunnels(ms, ns, d, conn))
    ensures SomeIsolates(FinishAll(pkg, hbone, ms), ns, d, conn) <==> SomeIsolates(ms, ns, d, conn)
  {
    hide Admits, Tunnels, Isolates, Finish;
    var out := FinishAll(pkg, hbone, ms);
    forall k | 0 <= k < |ms|
      ensures Admits(out[k], ns, d, conn) <==> Admits(ms[k], ns, d, conn) || (hbone && Tunnels(ms[k], ns, d, conn))
      ensures Isolates(out[k], ns, d, conn) <==> Isolates(ms[k], ns, d, conn)
      ensures out[k] in out && ms[k] in ms
    {
      FinishAdmits(pkg, hbone, ms[k], ns, d, conn);
    }
    forall m | m in ms ensures exists k :: 0 <= k < |ms| && ms[k] == m && out[k] in out {
      var k :| 0 <= k < |ms| && ms[k] == m;
      assert out[k] in out;
    }
  }

  // ---- where the policies come from --------------------------------------

  ghost predicate IsRouteNetpol(input: Input, m: Manifest) {
    input.spec.routes.Some? && InboundOf(input).Ok? &&
    exists r, g :: r in InboundOf(input).value && g in r.gateways && m == BuildNetpol(input.pkg, input.spec.routes.value.prepend, r.route, g)
  }

  lemma BlockPolicies(pkg: S.Package, prepend: bool, r: Resolved, m: Manifest)
    requires RouteBlock(pkg, prepend, true, r).Ok? && m.body.NetworkPolicy?
    ensures m in RouteBlock(pkg, prepend, true, r).value <==> exists g :: g in r.gateways && m == BuildNetpol(pkg, prepend, r.route, g)
  {
    hide RoutingOf, BuildNetpol;
    var nps := Netpols(pkg, prepend, r);
    assert m in RouteBlock(pkg, prepend, true, r).value <==> m in nps;
    if g :| g in r.gateways && m == BuildNetpol(pkg, prepend, r.route, g) {
      var k :| 0 <= k < |r.gateways| && r.gateways[k] == g;
      assert nps[k] in nps;
    }
  }

  lemma {:induction false} RoutePolicies(pkg: S.Package, prepend: bool, rs: seq<Resolved>, m: Manifest)
    requires InboundObjects(pkg, prepend, true, rs).Ok? && m.body.NetworkPolicy?
    ensures m in InboundObjects(pkg, prepend, true, rs).value <==>
            exists r, g :: r in rs && g in r.gateways && m == BuildNetpol(pkg, prepend, r.route, g)
    decreases |rs|
  {
    hide RouteBlock, BuildNetpol;
    if rs != [] {
      var init, last := rs[..|rs| - 1], rs[|rs| - 1];
      assert rs == init + [last];
      RoutePolicies(pkg, prepend, init, m);
      BlockPolicies(pkg, prepend, last, m);
      assert m in InboundObjects(pkg, prepend, true, rs).value <==>
             m in InboundObjects(pkg, prepend, true, init).value || m in RouteBlock(pkg, prepend, true, last).value;
      hide InboundObjects;
      assert forall r :: r in rs <==> r in init || r == last;
    }
  }

  lemma RoutePartPolicies(input: Input, m: Manifest)
    requires input.NetpolsOn() && InboundOf(input).Ok? && RoutePart(input, InboundOf(input).value).Ok? && m.body.NetworkPolicy?
    ensures m in RoutePart(input, InboundOf(input).value).value <==> IsRouteNetpol(input, m)
  {
    hide InboundOf, InboundObjects, BuildNetpol;
    if input.spec.routes.Some? {
      RoutePolicies(input.pkg, input.spec.routes.value.prepend, InboundOf(input).value, m);
      PlainHasNoPolicy(input.spec.routes.value.outbound, m);
    }
  }

  lemma PlainHasNoPolicy(r: Result<seq<RawObject>>, m: Manifest)
    requires m.body.NetworkPolicy?
    ensures PlainResult(r).Ok? ==> m !in PlainResult(r).value
  {
  }

  lemma CollectedPolicies(input: Input, m: Manifest)
    requires Collected(input).Ok? && input.NetpolsOn() && m.body.NetworkPolicy?
    ensures NetpolPart(input).Ok?
    ensures m in Collected(input).value <==> m in NetpolPart(input).value || IsRouteNetpol(input, m)
  {
    hide NetpolPart, InboundOf, RoutePart, DefaultAuthz, AuthzRoutePart, ShorthandAuthz, IsRouteNetpol, PlainResult;
    PartsOk(input);
    RoutePartPolicies(input, m);
    AuthzHasNoPolicy(input, m);
    PlainHasNoPolicy(input.spec.istioObjects, m);
    PlainHasNoPolicy(input.spec.customAuthz, m);
  }

  /** The parts the network policies of a Package come from. */
  ghost predicate InParts(input: Input, m: Manifest)
    requires input.NetpolsOn()
  {
    var c := input.Ctx();
    || m in DefaultsFor(c, input.spec.istio, Egress) || m in DefaultsFor(c, input.spec.istio, Ingress)
    || (EgressPart(c).Ok? && m in EgressPart(c).value) || (IngressPart(c).Ok? && m in IngressPart(c).value)
    || (AdditionalAll(c, c.spec.additional).Ok? && m in AdditionalAll(c, c.spec.additional).value)
    || IsRouteNetpol(input, m)
  }

  lemma PolicyParts(input: Input, m: Manifest)
    requires Collected(input).Ok? && input.NetpolsOn() && m.body.NetworkPolicy?
    ensures var c := input.Ctx(); EgressPart(c).Ok? && IngressPart(c).Ok? && AdditionalAll(c, c.spec.additional).Ok?
    ensures m in Collected(input).value <==> InParts(input, m)
  {
    hide Collected, SideRun, DefaultEgress, DefaultIngress, AdditionalAll, IsRouteNetpol;
    CollectedPolicies(input, m);
  }

  // ---- what the parts mean -----------------------------------------------

  predicate OneWay(m: Manifest, d: Direction) { m.body.NetworkPolicy? && m.body.spec.types == [d] }

  lemma EgressOneWay(c: Ctx, s: Step, m: Manifest)
    requires Emits(Pass(EgressNetpols, c), s, m)
    ensures OneWay(m, Egress)
  {
    hide Shorthand.ParseEgressRemoteKey, Shorthand.ParseEgressCIDRKey, ResolveEgressDefinition, Ports.NetpolPorts, Cidr.Exclusions,
      Names.EgressK8sName, Names.EgressCIDRName, NetpolLabels, Text.IsName, MergeShorthandMetadata, SourceSelector, RemotePeer, Text.ToLower;
  }

  lemma IngressOneWay(c: Ctx, s: Step, m: Manifest)
    requires Emits(Pass(IngressNetpols, c), s, m)
    ensures OneWay(m, Ingress)
  {
    hide IngressLocal, Shorthand.ParseIngressRemoteKey, Shorthand.IsCIDRText, ResolveIngressDefinition, Ports.NetpolPorts, Text.ToLower,
      Names.IngressK8sName, Names.IngressCIDRName, Names.IngressHead, NetpolLabels, Text.IsName, MergeShorthandMetadata, RemotePeer;
  }

  ghost function PartFor(c: Ctx, d: Direction): Result<seq<Manifest>> { if d == Egress then EgressPart(c) else IngressPart(c) }

  function SideFor(c: Ctx, d: Direction): Option<S.Side> { if d == Egress then c.spec.egress else c.spec.ingress }

  function PassFor(c: Ctx, d: Direction): Pass { Pass(if d == Egress then EgressNetpols else IngressNetpols, c) }

  lemma PartOneWay(c: Ctx, d: Direction, m: Manifest)
    requires PartFor(c, d).Ok? && m in PartFor(c, d).value
    ensures OneWay(m, d)
  {
    hide Run, AllSteps, Emits, OneWay;
    var p, steps := PassFor(c, d), AllSteps(SideFor(c, d).value.entries);
    RunMembers(p, steps, m);
    var s :| s in steps && Emits(p, s, m);
    if d == Egress {
      EgressOneWay(c, s, m);
    } else {
      IngressOneWay(c, s, m);
    }
  }

  lemma DefaultsOneWay(c: Ctx, istio: Option<S.Istio>, d: Direction, m: Manifest)
    requires m in DefaultsFor(c, istio, d)
    ensures OneWay(m, d)
  {
    hide DefaultsFor, Default, OneWay;
    DefaultsAreDefault(c, istio, d, m);
    var name, rules :| m == Default(c, d, name, rules);
    DefaultOneWay(c, d, name, rules);
  }

  lemma DefaultOneWay(c: Ctx, d: Direction, name: string, rules: seq<Rule>)
    ensures OneWay(Default(c, d, name, rules), d)
  {
    hide NetpolLabels;
  }

  lemma NotOtherWay(m: Manifest, d: Direction, ns: string, conn: Connection)
    requires OneWay(m, d)
    ensures forall e :: e != d ==> !Isolates(m, ns, e, conn) && !Admits(m, ns, e, conn)
  {
  }

  /** What the enabled shorthand entries of a direction say. */
  ghost predicate EntriesMean(c: Ctx, d: Direction, conn: Connection) {
    SideFor(c, d).Some? && exists s :: InSpec(SideFor(c, d).value.entries, s) && EntryMeans(c, d, s, conn)
  }

  ghost predicate EntryMeans(c: Ctx, d: Direction, s: Step, conn: Connection) {
    if d == Egress then Meaning.EgressMeans(c, s, conn) else Meaning.IngressMeans(c, s, conn)
  }

  /** No port number of an enabled entry is changed by truncation. */
  ghost predicate EntriesFit(c: Ctx, d: Direction) {
    SideFor(c, d).Some? ==> forall s :: InSpec(SideFor(c, d).value.entries, s) ==>
      if d == Egress then Meaning.EgressFits(s) else Meaning.IngressFits(s)
  }

  lemma PartMeans(c: Ctx, d: Direction, conn: Connection)
    requires conn.Valid() && EntriesFit(c, d) && PartFor(c, d).Ok?
    ensures SomeAdmits(PartFor(c, d).value, c.pkg.namespace, d, conn) <==> EntriesMean(c, d, conn)
  {
    hide Run, AllSteps, InSpec, Meaning.EgressMeans, Meaning.IngressMeans, Meaning.EgressFits, Meaning.IngressFits, Admits;
    if SideFor(c, d).Some? {
      var entries := SideFor(c, d).value.entries;
      if d == Egress {
        Meaning.EgressCompiled(c, entries, conn);
      } else {
        Meaning.IngressCompiled(c, entries, conn);
      }
    }
  }

  /** What an enabled route allows: its gateways' pods may reach its pods on the workload port. */
  ghost predicate RoutesMean(input: Input, conn: Connection) {
    && input.spec.routes.Some? && InboundOf(input).Ok?
    && conn.dst.Pod? && conn.dst.ns == input.pkg.namespace && conn.protocol == "TCP"
    && exists r, g :: r in InboundOf(input).value && g in r.gateways && Reaches(r, g, conn)
  }

  ghost predicate Reaches(r: Resolved, g: Gateway, conn: Connection)
    requires conn.dst.Pod?
  {
    ByLabels(r.route.selector).Selects(conn.dst.labels) && IsGatewayPod(g, conn.src) && OnWorkloadPort(r.route, conn.port)
  }

  lemma RoutesAdmit(input: Input, conn: Connection)
    requires conn.Valid()
    ensures RoutesMean(input, conn) <==> exists m :: IsRouteNetpol(input, m) && Admits(m, input.pkg.namespace, Ingress, conn)
  {
    hide InboundOf, Admits, BuildNetpol, IsGatewayPod, Selector.Selects, OnWorkloadPort;
    if input.spec.routes.Some? && InboundOf(input).Ok? {
      var prepend, ns := input.spec.routes.value.prepend, input.pkg.namespace;
      forall r, g | r in InboundOf(input).value && g in r.gateways
        ensures IsRouteNetpol(input, BuildNetpol(input.pkg, prepend, r.route, g))
        ensures Admits(BuildNetpol(input.pkg, prepend, r.route, g), ns, Ingress, conn) <==>
                conn.dst.Pod? && conn.dst.ns == ns && conn.protocol == "TCP" && Reaches(r, g, conn)
      {
        NetpolMeans(input.pkg, prepend, r.route, g, conn);
      }
    }
  }

  lemma RouteNetpolOneWay(input: Input, m: Manifest)
    requires IsRouteNetpol(input, m)
    ensures OneWay(m, Ingress)
  {
    hide InboundOf, ServiceLeaf, RouteRule, Text.Itoa, NetpolLabels;
  }

  lemma {:induction false} AdditionalMembers(c: Ctx, raws: seq<S.RawPolicy>, m: Manifest)
    requires AdditionalAll(c, raws).Ok?
    ensures m in AdditionalAll(c, raws).value <==> exists raw :: raw in raws && Additional(c, raw).Ok? && m == Additional(c, raw).value[0]
    decreases |raws|
  {
    if raws != [] {
      var init, last := raws[..|raws| - 1], raws[|raws| - 1];
      assert raws == init + [last];
      AdditionalMembers(c, init, m);
      assert Additional(c, last).Ok? && |Additional(c, last).value| == 1;
      assert m in AdditionalAll(c, raws).value <==> m in AdditionalAll(c, init).value || m == Additional(c, last).value[0];
      hide Additional, AdditionalAll;
      assert forall raw :: raw in raws <==> raw in init || raw == last;
    }
  }

  ghost predicate AdditionalMean(c: Ctx, d: Direction, conn: Connection) {
    exists raw :: raw in c.spec.additional && raw.spec.Some? && PolicyAdmits(raw.spec.value, c.pkg.namespace, d, conn)
  }

  lemma AdditionalAdmit(c: Ctx, d: Direction, conn: Connection)
    requires AdditionalAll(c, c.spec.additional).Ok?
    ensures SomeAdmits(AdditionalAll(c, c.spec.additional).value, c.pkg.namespace, d, conn) <==> AdditionalMean(c, d, conn)
  {
    hide AdditionalAll, PolicyAdmits, Names.Prepend;
    var ms := AdditionalAll(c, c.spec.additional).value;
    forall m ensures m in ms <==> exists raw :: raw in c.spec.additional && Additional(c, raw).Ok? && m == Additional(c, raw).value[0] {
      AdditionalMembers(c, c.spec.additional, m);
    }
    forall raw | raw in c.spec.additional && raw.spec.Some?
      ensures Additional(c, raw).value[0] in ms
      ensures Admits(Additional(c, raw).value[0], c.pkg.namespace, d, conn) <==> PolicyAdmits(raw.spec.value, c.pkg.namespace, d, conn)
    {
    }
  }

  // ---- the main result ---------------------------------------------------

  /** What a Package's specification says about a direction: its defaults, its entries, its routes and its raw
      policies. */
  ghost predicate SpecMeans(input: Input, d: Direction, conn: Connection)
    requires input.spec.netpols.Some?
  {
    var c := input.Ctx();
    || DefaultsMean(c, input.spec.istio, d, conn) || EntriesMean(c, d, conn) || AdditionalMean(c, d, conn)
    || (d == Ingress && RoutesMean(input, conn))
  }

  lemma DefaultsAdmit(c: Ctx, istio: Option<S.Istio>, d: Direction, conn: Connection)
    requires conn.Valid()
    ensures SomeAdmits(DefaultsFor(c, istio, d), c.pkg.namespace, d, conn) <==> DefaultsMean(c, istio, d, conn)
  {
    hide DefaultEgress, DefaultIngress, DefaultsMean, SomeAdmits;
    if d == Egress {
      DefaultEgressMeans(c, istio, conn);
    } else {
      DefaultIngressMeans(c, istio, conn);
    }
  }

  /** A policy that speaks about direction `d` comes from one of the parts of `d`. */
  lemma SpeakingParts(input: Input, d: Direction, m: Manifest, conn: Connection)
    requires Collected(input).Ok? && input.NetpolsOn() && Admits(m, input.pkg.namespace, d, conn)
    ensures var c := input.Ctx();
            && PartFor(c, d).Ok? && AdditionalAll(c, c.spec.additional).Ok?
            && (m in Collected(input).value <==>
                || m in DefaultsFor(c, input.spec.istio, d) || m in PartFor(c, d).value
                || m in AdditionalAll(c, c.spec.additional).value || (d == Ingress && IsRouteNetpol(input, m)))
  {
    hide Collected, EgressPart, IngressPart, DefaultsFor, AdditionalAll, IsRouteNetpol, PolicyAdmits, Selected, OneWay;
    PolicyParts(input, m);
    var c, istio, ns := input.Ctx(), input.spec.istio, input.pkg.namespace;
    var e := if d == Egress then Ingress else Egress;
    if m in DefaultsFor(c, istio, e) {
      DefaultsOneWay(c, istio, e, m);
      NotOtherWay(m, e, ns, conn);
      assert false;
    }
    if PartFor(c, e).Ok? && m in PartFor(c, e).value {
      PartOneWay(c, e, m);
      NotOtherWay(m, e, ns, conn);
      assert false;
    }
    if d == Egress && IsRouteNetpol(input, m) {
      RouteNetpolOneWay(input, m);
      NotOtherWay(m, Ingress, ns, conn);
      assert false;
    }
  }

  lemma CollectedAdmits(input: Input, d: Direction, conn: Connection)
    requires Collected(input).Ok? && input.NetpolsOn() && conn.Valid() && EntriesFit(input.Ctx(), d)
    ensures SomeAdmits(Collected(input).value, input.pkg.namespace, d, conn) <==> SpecMeans(input, d, conn)
  {
    hide Collected, PartFor, DefaultsFor, AdditionalAll, IsRouteNetpol, Admits, DefaultsMean, EntriesMean, AdditionalMean, RoutesMean, EntriesFit, Run, AllSteps;
    var c, istio, ns := input.Ctx(), input.spec.istio, input.pkg.namespace;
    PartsSucceed(input, d);
    forall m | Admits(m, ns, d, conn)
      ensures m in Collected(input).value <==>
              || m in DefaultsFor(c, istio, d) || m in PartFor(c, d).value
              || m in AdditionalAll(c, c.spec.additional).value || (d == Ingress && IsRouteNetpol(input, m))
    {
      SpeakingParts(input, d, m, conn);
    }
    DefaultsAdmit(c, istio, d, conn);
    PartMeans(c, d, conn);
    AdditionalAdmit(c, d, conn);
    RoutesAdmit(input, conn);
  }

  lemma PartsSucceed(input: Input, d: Direction)
    requires Collected(input).Ok? && input.NetpolsOn()
    ensures PartFor(input.Ctx(), d).Ok? && AdditionalAll(input.Ctx(), input.spec.netpols.value.additional).Ok?
  {
    var m := Manifest("", "", map[], map[], [], NetworkPolicy(PolicySpec(EVERYTHING, [], [], [])));
    PolicyParts(input, m);
    hide Collected, EgressPart, IngressPart, AdditionalAll, InParts;
  }

  /** The generated policies of a Package admit exactly what its specification says, plus, under port injection, the
      tunnels to the peers of the policies' own rules. With the deny-all default of a direction on, a connection of
      one of the Package's pods is allowed exactly then, and no other connection is restricted. */
  lemma GeneratedTraffic(input: Input, d: Direction, conn: Connection)
    requires Desired(input).Ok? && input.spec.netpols.Some? && input.spec.netpols.value.enabled
    requires conn.Valid() && EntriesFit(input.Ctx(), d)
    ensures var ns := input.pkg.namespace;
            var admitted := SpecMeans(input, d, conn) || (WantsInjection(input.spec.istio, input.spec.netpols) && SomeTunnels(Collected(input).value, ns, d, conn));
            && (SomeAdmits(Desired(input).value, ns, d, conn) <==> admitted)
            && (WantsDenyAll(SideFor(input.Ctx(), d)) ==>
                  (Allowed(Desired(input).value, ns, d, conn) <==>
                   (conn.Subject(d).Pod? && conn.Subject(d).ns == ns ==> admitted)))
  {
    GatesAsWritten(None, input.spec.istio, input.spec.netpols);
    hide Collected, Admits, SpecMeans, EntriesFit, Isolates, Tunnels, FinishAll, HBoneEnabled, WantsDenyAll, WantsInjection;
    CollectedAdmits(input, d, conn);
    FinishedAdmit(input.pkg, input.HBone(), Collected(input).value, input.pkg.namespace, d, conn);
    Isolation(input, d, conn);
  }

  /** Every port number in the keys of a direction's enabled entries is a real port. */
  ghost predicate EntriesReal(c: Ctx, d: Direction) {
    SideFor(c, d).Some? ==> forall s :: InSpec(SideFor(c, d).value.entries, s) ==>
      if d == Egress then Meaning.EgressReal(s) else Meaning.IngressReal(s)
  }

  /** For specifications that name real ports only, the generated policies mean what the specification says without
      further conditions. */
  lemma RealTraffic(input: Input, d: Direction, conn: Connection)
    requires Desired(input).Ok? && input.spec.netpols.Some? && input.spec.netpols.value.enabled
    requires conn.Valid() && EntriesReal(input.Ctx(), d)
    ensures SomeAdmits(Desired(input).value, input.pkg.namespace, d, conn) <==>
            SpecMeans(input, d, conn) || (WantsInjection(input.spec.istio, input.spec.netpols) && SomeTunnels(Collected(input).value, input.pkg.namespace, d, conn))
  {
    hide Desired, InSpec, Meaning.EgressReal, Meaning.IngressReal, Meaning.EgressFits, Meaning.IngressFits, SomeAdmits, SpecMeans, SomeTunnels,
      WantsInjection, WantsDenyAll;
    forall s {
      Meaning.RealFits(s);
    }
    assert EntriesFit(input.Ctx(), d);
    assert Collected(input).Ok? by { CollectedOk(input); }
    GeneratedTraffic(input, d, conn);
  }

  lemma CollectedOk(input: Input)
    requires Desired(input).Ok?
    ensures Collected(input).Ok?
  {
    hide Collected;
  }

  /** Under the baseline exactly the pods of the Package's namespace are isolated. */
  lemma Isolation(input: Input, d: Direction, conn: Connection)
    requires Collected(input).Ok? && input.NetpolsOn()
    ensures var inside := conn.Subject(d).Pod? && conn.Subject(d).ns == input.pkg.namespace;
            && (!inside ==> !SomeIsolates(Collected(input).value, input.pkg.namespace, d, conn))
            && (inside && WantsDenyAll(SideFor(input.Ctx(), d)) ==> SomeIsolates(Collected(input).value, input.pkg.namespace, d, conn))
  {
    hide Collected, DefaultsFor, WantsDenyAll, Restricts, Selector.Selects;
    var ns := input.pkg.namespace;
    if conn.Subject(d).Pod? && conn.Subject(d).ns == ns && WantsDenyAll(SideFor(input.Ctx(), d)) {
      DenyAllIsolates(input.Ctx(), input.spec.istio, d, conn);
      var m :| m in DefaultsFor(input.Ctx(), input.spec.istio, d) && Isolates(m, ns, d, conn);
      PolicyParts(input, m);
    }
  }
}
