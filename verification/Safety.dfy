/** What holds of every successful generation: it never depends on shared configuration it could not read, every
    object is stamped for the Package, and objects that share a name do not contradict each other. */
module Safety {
  import opened Common
  import opened Kube
  import opened Builders
  import opened Passes
  import opened Steps
  import opened Defaults
  import opened Routes
  import opened RouteObjects
  import opened Metadata
  import opened Hbone
  import opened Generate
  import opened Shorthand
  import S = Spec
  import G = Grammar
  import Names
  import Keys
  import Text
  import Ports
  import Lockstep

  // ---- unreadable shared definitions -------------------------------------

  /** Under an unreadable shared pool a name resolves exactly when it resolves to the same rule under every readable
      pool: the generator refuses to guess, and refuses nothing else. */
  lemma RefusesToGuess(own: map<string, S.RawDefinition>, error: Error, builtIn: Option<Rule>, name: string, rule: Rule)
    ensures Resolve(own, map[], Some(error), builtIn, name) == Ok(rule) <==>
            forall shared :: Resolve(own, shared, None, builtIn, name) == Ok(rule)
  {
    hide ParseDefinition;
    if name !in own {
      var broken := map[name := S.BadDefinition];
      BrokenPool(own, broken, builtIn, name);
    } else {
      assert Resolve(own, map[], None, builtIn, name) == Resolve(own, map[], Some(error), builtIn, name);
    }
  }

  lemma BrokenPool(own: map<string, S.RawDefinition>, broken: map<string, S.RawDefinition>, builtIn: Option<Rule>, name: string)
    requires name !in own && name in broken && broken[name].BadDefinition?
    ensures Resolve(own, broken, None, builtIn, name).Err?
  {
  }

  lemma ResolveIgnoresPool(own: map<string, S.RawDefinition>, shared: map<string, S.RawDefinition>, other: map<string, S.RawDefinition>,
                           error: Error, builtIn: Option<Rule>, name: string)
    requires Resolve(own, shared, Some(error), builtIn, name).Ok?
    ensures Resolve(own, other, None, builtIn, name) == Resolve(own, shared, Some(error), builtIn, name)
  {
  }

  /** `env` with its unreadable pools replaced by readable ones. */
  function Readable(env: S.Env, egress: map<string, S.RawDefinition>, ingress: map<string, S.RawDefinition>): S.Env {
    S.Env(env.kubeAPIPorts, egress, ingress, None)
  }

  lemma StepIgnoresPool(kind: PassKind, c: Ctx, egress: map<string, S.RawDefinition>, ingress: map<string, S.RawDefinition>, s: Step)
    requires kind != IngressAuthz ==> c.env.sharedError.Some? && Emit(Pass(kind, c), s).Ok?
    ensures Emit(Pass(kind, c.(env := Readable(c.env, egress, ingress))), s) == Emit(Pass(kind, c), s)
  {
    hide ParseEgressRemoteKey, ParseEgressCIDRKey, ParseIngressLocalKey, ParseIngressRemoteKey, IsCIDRText, Ports.NetpolPorts, Cidr.Exclusions,
      Names.EgressK8sName, Names.EgressCIDRName, Names.IngressK8sName, Names.IngressCIDRName, Names.IngressHead, AuthzPorts, Resolve,
      BuiltInEgress, BuiltInIngress, NetpolLabels, Text.IsName, ApplyShorthandMetadata, MergeShorthandMetadata, SourceSelector, RemotePeer;
    if s.EntryStep? && s.family == Definitions && kind != IngressAuthz {
      var error := c.env.sharedError.value;
      if kind == EgressNetpols {
        assert ResolveEgressDefinition(c, s.key).Ok?;
        ResolveIgnoresPool(OwnDefinitions(c.spec.egress), c.env.sharedEgress, egress, error, BuiltInEgress(s.key, c.env.kubeAPIPorts), s.key);
      } else {
        assert ResolveIngressDefinition(c, s.key).Ok?;
        ResolveIgnoresPool(OwnDefinitions(c.spec.ingress), c.env.sharedIngress, ingress, error, BuiltInIngress(s.key), s.key);
      }
    }
  }

  lemma {:induction false} RunSame(p: Pass, q: Pass, steps: seq<Step>)
    requires forall s :: s in steps ==> Emit(p, s) == Emit(q, s)
    ensures Run(p, steps) == Run(q, steps)
    decreases |steps|
  {
    hide Emit;
    if steps != [] {
      RunSame(p, q, steps[..|steps| - 1]);
    }
  }

  lemma PassIgnoresPool(kind: PassKind, c: Ctx, egress: map<string, S.RawDefinition>, ingress: map<string, S.RawDefinition>, side: Option<S.Side>)
    requires kind != IngressAuthz ==> c.env.sharedError.Some? && SideRun(Pass(kind, c), side).Ok?
    ensures SideRun(Pass(kind, c.(env := Readable(c.env, egress, ingress))), side) == SideRun(Pass(kind, c), side)
  {
    hide Emit, Run, AllSteps;
    if side.Some? {
      var steps := AllSteps(side.value.entries);
      var p, q := Pass(kind, c), Pass(kind, c.(env := Readable(c.env, egress, ingress)));
      RunOk(p, steps);
      forall s | s in steps ensures Emit(p, s) == Emit(q, s) {
        StepIgnoresPool(kind, c, egress, ingress, s);
      }
      RunSame(p, q, steps);
    }
  }

  lemma {:induction false} AdditionalIgnoresPool(c: Ctx, env: S.Env, raws: seq<S.RawPolicy>)
    ensures AdditionalAll(c.(env := env), raws) == AdditionalAll(c, raws)
    decreases |raws|
  {
    if raws != [] {
      AdditionalIgnoresPool(c, env, raws[..|raws| - 1]);
    }
  }

  lemma NetpolsIgnorePool(input: Input, egress: map<string, S.RawDefinition>, ingress: map<string, S.RawDefinition>)
    requires input.env.sharedError.Some? && NetpolPart(input).Ok?
    ensures NetpolPart(input.(env := Readable(input.env, egress, ingress))) == NetpolPart(input)
  {
    hide SideRun, AdditionalAll, Default;
    if input.NetpolsOn() {
      var c := input.Ctx();
      PassIgnoresPool(EgressNetpols, c, egress, ingress, c.spec.egress);
      PassIgnoresPool(IngressNetpols, c, egress, ingress, c.spec.ingress);
      AdditionalIgnoresPool(c, Readable(input.env, egress, ingress), c.spec.additional);
      var c' := c.(env := Readable(input.env, egress, ingress));
      SameDefaults(c, c', input.spec.istio);
    }
  }

  lemma SameDefaults(c: Ctx, c': Ctx, istio: Option<S.Istio>)
    requires c'.pkg == c.pkg && c'.spec == c.spec
    ensures DefaultEgress(c', istio) == DefaultEgress(c, istio) && DefaultIngress(c', istio) == DefaultIngress(c, istio)
  {
    hide NetpolLabels;
  }

  /** If generation succeeds although the shared definitions could not be read, its output is the output under every
      readable pair of pools. */
  lemma DefinitionsNotNeeded(input: Input, egress: map<string, S.RawDefinition>, ingress: map<string, S.RawDefinition>)
    requires input.env.sharedError.Some? && Desired(input).Ok?
    ensures Desired(input.(env := Readable(input.env, egress, ingress))) == Desired(input)
  {
    hide NetpolPart, ResolveAll, RoutesOutput, DefaultAuthz, AuthzOf, Run, AllSteps, FinishAll;
    var other := input.(env := Readable(input.env, egress, ingress));
    PartsOk(input);
    NetpolsIgnorePool(input, egress, ingress);
    if input.spec.netpols.Some? {
      PassIgnoresPool(IngressAuthz, input.Ctx(), egress, ingress, input.spec.netpols.value.ingress);
      assert other.Ctx() == input.Ctx().(env := Readable(input.env, egress, ingress));
    }
    assert ShorthandAuthz(other) == ShorthandAuthz(input);
    hide ShorthandAuthz;
  }

  lemma PartsOk(input: Input)
    requires Desired(input).Ok?
    ensures InboundOf(input).Ok? && NetpolPart(input).Ok? && ShorthandAuthz(input).Ok? && RoutePart(input, InboundOf(input).value).Ok?
    ensures input.spec.istioObjects.Ok? && input.spec.customAuthz.Ok?
  {
    hide NetpolPart, InboundOf, RoutePart, DefaultAuthz, AuthzRoutePart, ShorthandAuthz;
  }

  /** The same for the shared ingress configuration. */
  lemma ConfigNotNeeded(input: Input, config: Option<IngressConfig>)
    requires input.ingress.error.Some? && Desired(input).Ok?
    ensures Desired(input.(ingress := IngressEnv(config, None))) == Desired(input)
  {
    hide RoutesOutput, DefaultAuthz, AuthzOf, Run, AllSteps, FinishAll, Default, AdditionalAll, Keys.KeyOrder;
    PartsOk(input);
    var other := input.(ingress := IngressEnv(config, None));
    if input.spec.routes.Some? {
      var spec := input.spec.routes.value;
      ConfigIgnored(spec, input.ingress, other.ingress, Keys.KeyOrder(spec.inbound.Keys));
    }
    hide ResolveKeys;
    assert InboundOf(other) == InboundOf(input);
    assert NetpolPart(other) == NetpolPart(input);
    assert ShorthandAuthz(other) == ShorthandAuthz(input);
    hide InboundOf, NetpolPart, ShorthandAuthz;
  }

  // ---- stamped objects ---------------------------------------------------

  /** No pass places an object: namespaces and owners are left to post-processing. */
  ghost predicate Unplaced(ms: seq<Manifest>) { forall m :: m in ms ==> m.namespace == "" && m.owners == [] }

  lemma UnplacedConcat(a: seq<Manifest>, b: seq<Manifest>)
    requires Unplaced(a) && Unplaced(b)
    ensures Unplaced(a + b)
  {
  }

  lemma EgressUnplaced(c: Ctx, s: Step)
    requires Emit(Pass(EgressNetpols, c), s).Ok?
    ensures Unplaced(Emit(Pass(EgressNetpols, c), s).value)
  {
    hide ParseEgressRemoteKey, ParseEgressCIDRKey, ParseIngressLocalKey, ParseIngressRemoteKey, IsCIDRText, Ports.NetpolPorts, Cidr.Exclusions,
      Names.EgressK8sName, Names.EgressCIDRName, Names.IngressK8sName, Names.IngressCIDRName, Names.IngressHead, AuthzPorts,
      ResolveEgressDefinition, ResolveIngressDefinition, NetpolLabels, Text.IsName, MergeShorthandMetadata, SourceSelector, RemotePeer;
  }

  lemma IngressUnplaced(c: Ctx, s: Step)
    requires Emit(Pass(IngressNetpols, c), s).Ok?
    ensures Unplaced(Emit(Pass(IngressNetpols, c), s).value)
  {
    hide ParseEgressRemoteKey, ParseEgressCIDRKey, ParseIngressLocalKey, ParseIngressRemoteKey, IsCIDRText, Ports.NetpolPorts, Cidr.Exclusions,
      Names.EgressK8sName, Names.EgressCIDRName, Names.IngressK8sName, Names.IngressCIDRName, Names.IngressHead, AuthzPorts,
      ResolveEgressDefinition, ResolveIngressDefinition, NetpolLabels, Text.IsName, MergeShorthandMetadata, SourceSelector, RemotePeer;
  }

  lemma AuthzStepUnplaced(c: Ctx, s: Step)
    requires Emit(Pass(IngressAuthz, c), s).Ok?
    ensures Unplaced(Emit(Pass(IngressAuthz, c), s).value)
  {
    hide ParseEgressRemoteKey, ParseEgressCIDRKey, ParseIngressLocalKey, ParseIngressRemoteKey, IsCIDRText, Ports.NetpolPorts, Cidr.Exclusions,
      Names.EgressK8sName, Names.EgressCIDRName, Names.IngressK8sName, Names.IngressCIDRName, Names.IngressHead, AuthzPorts,
      ResolveEgressDefinition, ResolveIngressDefinition, NetpolLabels, Text.IsName, MergeShorthandMetadata, SourceSelector, RemotePeer;
  }

  lemma StepUnplaced(p: Pass, s: Step)
    requires Emit(p, s).Ok?
    ensures Unplaced(Emit(p, s).value)
  {
    hide Emit, Unplaced;
    match p.kind
    case EgressNetpols => EgressUnplaced(p.ctx, s);
    case IngressNetpols => IngressUnplaced(p.ctx, s);
    case IngressAuthz => AuthzStepUnplaced(p.ctx, s);
  }

  lemma {:induction false} RunUnplaced(p: Pass, steps: seq<Step>)
    requires Run(p, steps).Ok?
    ensures Unplaced(Run(p, steps).value)
    decreases |steps|
  {
    hide Emit;
    if steps != [] {
      RunUnplaced(p, steps[..|steps| - 1]);
      StepUnplaced(p, steps[|steps| - 1]);
    }
  }

  lemma {:induction false} AdditionalUnplaced(c: Ctx, raws: seq<S.RawPolicy>)
    requires AdditionalAll(c, raws).Ok?
    ensures Unplaced(AdditionalAll(c, raws).value)
    decreases |raws|
  {
    if raws != [] {
      AdditionalUnplaced(c, raws[..|raws| - 1]);
    }
  }

  lemma DefaultPlain(c: Ctx, d: Direction, name: string, rules: seq<Rule>)
    ensures Default(c, d, name, rules).namespace == "" && Default(c, d, name, rules).owners == []
  {
  }

  lemma DefaultsUnplaced(c: Ctx, istio: Option<S.Istio>)
    ensures Unplaced(DefaultEgress(c, istio) + DefaultIngress(c, istio))
  {
    hide DefaultEgress, DefaultIngress, Default;
    forall d, m | m in DefaultsFor(c, istio, d) ensures m.namespace == "" && m.owners == [] {
      DefaultsAreDefault(c, istio, d, m);
      var name, rules :| m == Default(c, d, name, rules);
      DefaultPlain(c, d, name, rules);
    }
    assert forall m :: m in DefaultEgress(c, istio) ==> m in DefaultsFor(c, istio, Egress);
    assert forall m :: m in DefaultIngress(c, istio) ==> m in DefaultsFor(c, istio, Ingress);
  }

  lemma SideUnplaced(p: Pass, side: Option<S.Side>)
    requires SideRun(p, side).Ok?
    ensures Unplaced(SideRun(p, side).value)
  {
    hide Run, AllSteps;
    if side.Some? {
      RunUnplaced(p, AllSteps(side.value.entries));
    }
  }

  lemma NetpolsUnplaced(input: Input)
    requires NetpolPart(input).Ok?
    ensures Unplaced(NetpolPart(input).value)
  {
    hide SideRun, AdditionalAll, DefaultEgress, DefaultIngress;
    if input.NetpolsOn() {
      var c := input.Ctx();
      DefaultsUnplaced(c, input.spec.istio);
      SideUnplaced(Pass(EgressNetpols, c), c.spec.egress);
      SideUnplaced(Pass(IngressNetpols, c), c.spec.ingress);
      AdditionalUnplaced(c, c.spec.additional);
      hide Unplaced;
      var a := DefaultEgress(c, input.spec.istio) + DefaultIngress(c, input.spec.istio);
      UnplacedConcat(a, EgressPart(c).value);
      UnplacedConcat(a + EgressPart(c).value, IngressPart(c).value);
      UnplacedConcat(a + EgressPart(c).value + IngressPart(c).value, AdditionalAll(c, c.spec.additional).value);
    }
  }

  lemma BlockUnplaced(pkg: S.Package, prepend: bool, netpols: bool, r: Resolved)
    requires RouteBlock(pkg, prepend, netpols, r).Ok?
    ensures Unplaced(RouteBlock(pkg, prepend, netpols, r).value)
  {
    hide RoutingOf, RouteRule, NetpolLabels, ServiceLeaf, Text.Itoa;
  }

  lemma {:induction false} InboundUnplaced(pkg: S.Package, prepend: bool, netpols: bool, rs: seq<Resolved>)
    requires InboundObjects(pkg, prepend, netpols, rs).Ok?
    ensures Unplaced(InboundObjects(pkg, prepend, netpols, rs).value)
    decreases |rs|
  {
    hide RouteBlock;
    if rs != [] {
      InboundUnplaced(pkg, prepend, netpols, rs[..|rs| - 1]);
      BlockUnplaced(pkg, prepend, netpols, rs[|rs| - 1]);
    }
  }

  lemma {:induction false} AuthzOfUnplaced(pkg: S.Package, prepend: bool, all: seq<Resolved>, rs: seq<Resolved>)
    ensures Unplaced(AuthzOf(pkg, prepend, all, rs))
    decreases |rs|
  {
    hide Suffix, ServiceLeaf, Principal;
    if rs != [] {
      AuthzOfUnplaced(pkg, prepend, all, rs[..|rs| - 1]);
    }
  }

  lemma RoutesUnplaced(input: Input, rs: seq<Resolved>)
    requires RoutePart(input, rs).Ok?
    ensures Unplaced(RoutePart(input, rs).value) && Unplaced(AuthzRoutePart(input, rs))
  {
    hide InboundObjects, AuthzOf;
    if input.spec.routes.Some? {
      var spec := input.spec.routes.value;
      InboundUnplaced(input.pkg, spec.prepend, input.NetpolsOn(), rs);
      AuthzOfUnplaced(input.pkg, spec.prepend, rs, rs);
    }
  }

  lemma AuthzUnplaced(input: Input)
    ensures Unplaced(DefaultAuthz(input.pkg, input.spec.istio, input.spec.netpols))
    ensures ShorthandAuthz(input).Ok? ==> Unplaced(ShorthandAuthz(input).value)
  {
    hide SideRun, Names.Prepend, AuthzAllowNothing, AuthzInNamespace, SideEnabled;
    if ShorthandAuthz(input).Ok? && input.spec.netpols.Some? && AuthzEnabled(input.spec.istio) && FromNetpol(input.spec.istio) {
      SideUnplaced(Pass(IngressAuthz, input.Ctx()), input.spec.netpols.value.ingress);
    }
  }

  lemma RawUnplaced(input: Input)
    requires Collected(input).Ok?
    ensures Unplaced(Collected(input).value)
  {
    hide NetpolPart, InboundOf, RoutePart, DefaultAuthz, AuthzRoutePart, ShorthandAuthz;
    PartsOk(input);
    NetpolsUnplaced(input);
    RoutesUnplaced(input, InboundOf(input).value);
    AuthzUnplaced(input);
  }

  /** Every object the generator returns lies in the Package's namespace, is labelled with the Package's name and
      owned by it, and by nobody else. */
  lemma EveryObjectStamped(input: Input, m: Manifest)
    requires Desired(input).Ok? && m in Desired(input).value
    ensures m.namespace == input.pkg.namespace
    ensures "bigbang.dev/package" in m.labels && m.labels["bigbang.dev/package"] == input.pkg.name
    ensures m.owners == [OwnerRef(input.pkg.uid, "Package", input.pkg.name)]
  {
    hide Collected, InjectAll, SomeGains;
    RawUnplaced(input);
    var ms := Collected(input).value;
    var k :| 0 <= k < |ms| && Desired(input).value[k] == m;
    assert ms[k] in ms;
  }

  // ---- shared names ------------------------------------------------------

  /** Two egress CIDR entries of one local key whose policies got the same name got the same policy: overwriting one
      with the other changes nothing but metadata. */
  lemma SameNameSameBody(c: Ctx, k: string, source: S.Source, key: string, target: S.Target, key': string, target': S.Target,
                         m: Manifest, m': Manifest)
    requires Emits(Pass(EgressNetpols, c), EntryStep(CIDRs, k, source, key, target), m)
    requires Emits(Pass(EgressNetpols, c), EntryStep(CIDRs, k, source, key', target'), m')
    requires m.name == m'.name
    ensures m.body == m'.body
  {
    hide ParseEgressCIDRKey, Names.EgressCIDRName, Ports.NetpolPorts, Cidr.Exclusions, ExcludeCIDRs, NetpolLabels, SourceSelector,
      MergeShorthandMetadata, Names.Prepend, ApplyShorthandMetadata;
    var r, r' := ParseEgressCIDRKey(key).value, ParseEgressCIDRKey(key').value;
    G.CIDRParsePrint(key);
    G.CIDRParsePrint(key');
    SamePrefix(c, Names.EgressCIDRName(k, r), Names.EgressCIDRName(k, r'));
    Names.SameNameSameRule(k, r, r');
  }

  lemma SamePrefix(c: Ctx, a: string, b: string)
    requires Names.Prepend(c.spec.prepend, c.pkg.name, a) == Names.Prepend(c.spec.prepend, c.pkg.name, b)
    ensures a == b
  {
    if c.spec.prepend {
      Names.Strip(c.pkg.name + "-", a, b);
    }
  }

  // ---- the authorization pass --------------------------------------------

  /** Where the network policies of a Package compile, its authorization pass cannot fail: every key it parses was
      accepted before. */
  lemma AuthzNeverFails(input: Input)
    requires input.NetpolsOn() && NetpolPart(input).Ok?
    ensures ShorthandAuthz(input).Ok?
  {
    hide Run, AllSteps, AdditionalAll, DefaultEgress, DefaultIngress;
    var side := input.spec.netpols.value.ingress;
    if side.Some? {
      Lockstep.InOrder(input.Ctx(), AllSteps(side.value.entries));
    }
  }

  // ---- nothing dropped, nothing added ------------------------------------

  ghost predicate OkHolds(r: Result<seq<Manifest>>, m: Manifest) { r.Ok? && m in r.value }

  /** The objects before post-processing are exactly those of the passes. */
  lemma CollectedParts(input: Input, m: Manifest)
    requires Collected(input).Ok?
    ensures m in Collected(input).value <==>
            || OkHolds(PlainResult(input.spec.istioObjects), m) || OkHolds(NetpolPart(input), m)
            || OkHolds(RoutePart(input, InboundOf(input).value), m)
            || m in DefaultAuthz(input.pkg, input.spec.istio, input.spec.netpols)
            || OkHolds(ShorthandAuthz(input), m) || m in AuthzRoutePart(input, InboundOf(input).value)
            || OkHolds(PlainResult(input.spec.customAuthz), m)
  {
    hide NetpolPart, InboundOf, RoutePart, DefaultAuthz, AuthzRoutePart, ShorthandAuthz, PlainResult;
    PartsOk(input);
  }

  /** A raw object as the generator hands it on: its kind, name, metadata and text are not touched. */
  predicate IsRaw(m: Manifest, o: RawObject) {
    m.body == Body.Raw(o.kind, o.text) && m.name == o.name && m.labels == o.labels && m.annotations == o.annotations
  }

  lemma PlainHolds(os: seq<RawObject>, o: RawObject) returns (m: Manifest)
    requires o in os
    ensures m in Plain(os) && IsRaw(m, o)
  {
    var k :| 0 <= k < |os| && os[k] == o;
    m := Plain(os)[k];
  }

  /** Every raw object of the specification, be it from the service mesh settings, custom policies or outbound routes,
      is among the objects. */
  lemma RawObjectsKept(input: Input, o: RawObject) returns (m: Manifest)
    requires Collected(input).Ok?
    requires || (input.spec.istioObjects.Ok? && o in input.spec.istioObjects.value)
             || (input.spec.customAuthz.Ok? && o in input.spec.customAuthz.value)
             || (input.spec.routes.Some? && input.spec.routes.value.outbound.Ok? && o in input.spec.routes.value.outbound.value)
    ensures m in Collected(input).value && IsRaw(m, o)
  {
    hide Collected, NetpolPart, InboundOf, DefaultAuthz, AuthzRoutePart, ShorthandAuthz, InboundObjects, Plain, IsRaw;
    CollectedOnly(input);
    if input.spec.istioObjects.Ok? && o in input.spec.istioObjects.value {
      m := PlainHolds(input.spec.istioObjects.value, o);
    } else if input.spec.customAuthz.Ok? && o in input.spec.customAuthz.value {
      m := PlainHolds(input.spec.customAuthz.value, o);
    } else {
      m := PlainHolds(input.spec.routes.value.outbound.value, o);
    }
    CollectedParts(input, m);
  }

  lemma CollectedOnly(input: Input)
    requires Collected(input).Ok?
    ensures InboundOf(input).Ok? && RoutePart(input, InboundOf(input).value).Ok?
  {
    hide NetpolPart, InboundOf, RoutePart, DefaultAuthz, AuthzRoutePart, ShorthandAuthz;
  }

  /** Every object of every enabled route is among the objects. */
  lemma RouteObjectsKept(input: Input, n: nat, m: Manifest)
    requires Collected(input).Ok? && input.spec.routes.Some? && InboundOf(input).Ok? && n < |InboundOf(input).value|
    requires OkHolds(RouteBlock(input.pkg, input.spec.routes.value.prepend, input.NetpolsOn(), InboundOf(input).value[n]), m)
    ensures m in Collected(input).value
  {
    hide Collected, NetpolPart, InboundOf, DefaultAuthz, AuthzRoutePart, ShorthandAuthz, InboundObjects, RouteBlock;
    CollectedOnly(input);
    var spec, rs := input.spec.routes.value, InboundOf(input).value;
    var tail := BlockAt(input.pkg, spec.prepend, input.NetpolsOn(), rs, n);
    CollectedParts(input, m);
  }

  /** Network policies that are switched off, or not asked for, are not there: no object restricts traffic. */
  lemma NetpolsOff(input: Input, m: Manifest)
    requires Desired(input).Ok? && m in Desired(input).value
    requires input.spec.netpols.None? || !input.spec.netpols.value.enabled
    ensures !m.body.NetworkPolicy?
  {
    hide Collected, InjectAll, SomeGains, OwnerOf, Owned;
    var ms := Collected(input).value;
    var k :| 0 <= k < |ms| && Desired(input).value[k] == m;
    assert ms[k] in ms;
    CollectedParts(input, ms[k]);
    CollectedOnly(input);
    if ms[k].body.NetworkPolicy? {
      NoPolicyElsewhere(input, ms[k]);
    }
    hide Desired;
  }

  lemma NoPolicyElsewhere(input: Input, m: Manifest)
    requires m.body.NetworkPolicy? && !input.NetpolsOn() && InboundOf(input).Ok?
    ensures !OkHolds(PlainResult(input.spec.istioObjects), m) && !OkHolds(PlainResult(input.spec.customAuthz), m)
    ensures !OkHolds(NetpolPart(input), m) && !OkHolds(RoutePart(input, InboundOf(input).value), m)
    ensures m !in DefaultAuthz(input.pkg, input.spec.istio, input.spec.netpols)
    ensures !OkHolds(ShorthandAuthz(input), m) && m !in AuthzRoutePart(input, InboundOf(input).value)
  {
    hide InboundOf, DefaultAuthz, AuthzRoutePart, ShorthandAuthz, InboundObjects;
    AuthzHasNoPolicy(input, m);
    if input.spec.routes.Some? && RoutePart(input, InboundOf(input).value).Ok? {
      InboundHasNoPolicy(input.pkg, input.spec.routes.value.prepend, InboundOf(input).value, m);
    }
  }

  lemma {:induction false} InboundHasNoPolicy(pkg: S.Package, prepend: bool, rs: seq<Resolved>, m: Manifest)
    requires InboundObjects(pkg, prepend, false, rs).Ok? && m.body.NetworkPolicy?
    ensures m !in InboundObjects(pkg, prepend, false, rs).value
    decreases |rs|
  {
    hide RoutingOf;
    if rs != [] {
      InboundHasNoPolicy(pkg, prepend, rs[..|rs| - 1], m);
    }
  }

  lemma AuthzHasNoPolicy(input: Input, m: Manifest)
    requires m.body.NetworkPolicy?
    ensures m !in DefaultAuthz(input.pkg, input.spec.istio, input.spec.netpols)
    ensures ShorthandAuthz(input).Ok? ==> m !in ShorthandAuthz(input).value
    ensures forall rs :: m !in AuthzRoutePart(input, rs)
  {
    hide Run, AllSteps, AuthzOf, Emit, Names.Prepend, AuthzAllowNothing, AuthzInNamespace, SideEnabled, AuthzEnabled, FromNetpol;
    forall rs ensures m !in AuthzRoutePart(input, rs) {
      if input.spec.routes.Some? {
        RouteAuthzHasNoPolicy(input.pkg, input.spec.routes.value.prepend, rs, rs, m);
      }
    }
    if ShorthandAuthz(input).Ok? && m in ShorthandAuthz(input).value {
      var p, steps := Pass(IngressAuthz, input.Ctx()), AllSteps(input.spec.netpols.value.ingress.value.entries);
      RunMembers(p, steps, m);
      var s :| s in steps && Emits(p, s, m);
      AuthzStepHasNoPolicy(p.ctx, s, m);
    }
  }

  lemma AuthzStepHasNoPolicy(c: Ctx, s: Step, m: Manifest)
    requires m.body.NetworkPolicy?
    ensures !Emits(Pass(IngressAuthz, c), s, m)
  {
    hide IngressLocal, ParseIngressRemoteKey, IsCIDRText, AuthzPorts, Names.IngressHead, MergeShorthandMetadata;
  }

  lemma {:induction false} RouteAuthzHasNoPolicy(pkg: S.Package, prepend: bool, all: seq<Resolved>, rs: seq<Resolved>, m: Manifest)
    requires m.body.NetworkPolicy?
    ensures m !in AuthzOf(pkg, prepend, all, rs)
    decreases |rs|
  {
    hide Suffix, ServiceLeaf, Principal;
    if rs != [] {
      RouteAuthzHasNoPolicy(pkg, prepend, all, rs[..|rs| - 1], m);
    }
  }
}
