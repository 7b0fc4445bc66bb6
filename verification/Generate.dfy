/** The generator: from a Package and what is known about the cluster to the list of objects to apply. */
module Generate {
  import opened Common
  import opened Kube
  import opened Builders
  import opened Passes
  import opened Steps
  import opened Defaults
  import opened Routes
  import opened RouteObjects
  import opened Objects
  import opened Metadata
  import opened Hbone
  import S = Spec
  import Names

  // ---- input -------------------------------------------------------------

  /** The specification of a Package. The passes for PeerAuthentication, Sidecar and custom authorization policies
      read no shared state: their results are given. */
  datatype PackageSpec = PackageSpec(istio: Option<S.Istio>, istioObjects: Result<seq<RawObject>>,
                                     netpols: Option<S.NetworkPolicies>, routes: Option<RouteSpec>,
                                     customAuthz: Result<seq<RawObject>>)

  /** Everything the generator is given. `env` and `ingress` carry the shared configuration, each readable or not. */
  datatype Input = Input(pkg: S.Package, spec: PackageSpec, env: S.Env, ingress: IngressEnv)
  {
    /** What the expansion of the network policies reads. */
    function Ctx(): Ctx
      requires spec.netpols.Some?
    {
      Builders.Ctx(pkg, spec.netpols.value, env)
    }

    predicate NetpolsOn() { spec.netpols.Some? && spec.netpols.value.enabled }

    predicate HBone() { HBoneEnabled(spec.netpols, spec.istio) }
  }

  // ---- the passes --------------------------------------------------------

  /** A raw policy keeps its own labels; only its name may be prefixed. */
  function Additional(c: Ctx, raw: S.RawPolicy): Result<seq<Manifest>> {
    if raw.spec.None? then Err(MalformedValue(raw.name))
    else Ok([Manifest("", Names.Prepend(c.spec.prepend, c.pkg.name, raw.name), raw.labels, raw.annotations, [], NetworkPolicy(raw.spec.value))])
  }

  function AdditionalAll(c: Ctx, raws: seq<S.RawPolicy>): Result<seq<Manifest>> {
    if raws == [] then Ok([])
    else Then(AdditionalAll(c, raws[..|raws| - 1]), Additional(c, raws[|raws| - 1]))
  }

  ghost function SideRun(p: Pass, side: Option<S.Side>): Result<seq<Manifest>> {
    if side.None? then Ok([]) else Run(p, AllSteps(side.value.entries))
  }

  ghost function EgressPart(c: Ctx): Result<seq<Manifest>> { SideRun(Pass(EgressNetpols, c), c.spec.egress) }
  ghost function IngressPart(c: Ctx): Result<seq<Manifest>> { SideRun(Pass(IngressNetpols, c), c.spec.ingress) }

  ghost function NetpolPart(input: Input): Result<seq<Manifest>> {
    if !input.NetpolsOn() then Ok([])
    else
      var c := input.Ctx();
      Then(Then(Then(Ok(DefaultEgress(c, input.spec.istio) + DefaultIngress(c, input.spec.istio)),
                     EgressPart(c)), IngressPart(c)), AdditionalAll(c, c.spec.additional))
  }

  ghost function InboundOf(input: Input): Result<seq<Resolved>> {
    if input.spec.routes.None? then Ok([]) else ResolveAll(input.spec.routes.value, input.ingress)
  }

  function RoutePart(input: Input, rs: seq<Resolved>): Result<seq<Manifest>> {
    if input.spec.routes.None? then Ok([]) else RoutesOutput(input.pkg, input.spec.routes.value, input.NetpolsOn(), rs)
  }

  /** Authorization policies follow the ingress entries even when the network policies themselves are off. */
  ghost function ShorthandAuthz(input: Input): Result<seq<Manifest>> {
    if input.spec.netpols.None? || !AuthzEnabled(input.spec.istio) || !FromNetpol(input.spec.istio) then Ok([])
    else SideRun(Pass(IngressAuthz, input.Ctx()), input.spec.netpols.value.ingress)
  }

  function AuthzRoutePart(input: Input, rs: seq<Resolved>): seq<Manifest> {
    if input.spec.routes.None? || !AuthzEnabled(input.spec.istio) then []
    else AuthzOf(input.pkg, input.spec.routes.value.prepend, rs, rs)
  }

  /** All passes in order, before post-processing. Routes are resolved first, so their errors come first. */
  ghost function Collected(input: Input): Result<seq<Manifest>> {
    match InboundOf(input)
    case Err(e) => Err(e)
    case Ok(rs) =>
      Then(Then(Then(Then(Then(Then(
        PlainResult(input.spec.istioObjects),
        NetpolPart(input)),
        RoutePart(input, rs)),
        Ok(DefaultAuthz(input.pkg, input.spec.istio, input.spec.netpols))),
        ShorthandAuthz(input)),
        Ok(AuthzRoutePart(input, rs))),
        PlainResult(input.spec.customAuthz))
  }

  function FinishAll(pkg: S.Package, hbone: bool, ms: seq<Manifest>): (out: seq<Manifest>)
    ensures |out| == |ms| && forall k :: 0 <= k < |ms| ==> out[k] == Finish(pkg, hbone, ms[k])
  {
    seq(|ms|, k requires 0 <= k < |ms| => Finish(pkg, hbone, ms[k]))
  }

  /** The desired objects: the output of the passes, each object finished. */
  ghost function Desired(input: Input): Result<seq<Manifest>> {
    match Collected(input)
    case Err(e) => Err(e)
    case Ok(ms) => Ok(FinishAll(input.pkg, input.HBone(), ms))
  }

  // ---- the methods -------------------------------------------------------

  method DefaultEgressPolicies(c: Ctx, istio: Option<S.Istio>) returns (out: seq<Manifest>)
    ensures out == DefaultEgress(c, istio)
  {
    hide Default;
    out := [];
    if DenyAll(c.spec.egress) {
      out := out + [Default(c, Egress, "default-egress-deny-all", [])];
    }
    if InNamespace(c.spec.egress) {
      out := out + [Default(c, Egress, "default-egress-allow-all-in-ns", [OWN_NAMESPACE])];
    }
    if KubeDNS(c.spec.egress) {
      out := out + [Default(c, Egress, "default-egress-allow-kube-dns", [KUBE_DNS])];
    }
    if Istiod(c.spec.egress) && !Ambient(istio) {
      out := out + [Default(c, Egress, "default-egress-allow-istiod", [ISTIOD])];
    }
  }

  method DefaultIngressPolicies(c: Ctx, istio: Option<S.Istio>) returns (out: seq<Manifest>)
    ensures out == DefaultIngress(c, istio)
  {
    hide Default;
    out := [];
    if DenyAll(c.spec.ingress) {
      out := out + [Default(c, Ingress, "default-ingress-deny-all", [])];
    }
    if InNamespace(c.spec.ingress) {
      out := out + [Default(c, Ingress, "default-ingress-allow-all-in-ns", [OWN_NAMESPACE])];
    }
    if Prometheus(c.spec.ingress) && !Ambient(istio) {
      out := out + [Default(c, Ingress, "default-ingress-allow-prometheus-to-istio-sidecar", [PROMETHEUS])];
    }
    if Ambient(istio) && SideEnabled(c.spec.ingress) {
      out := out + [Default(c, Ingress, "default-ingress-allow-ambient-kubelet", [Rule([CIDRPeer(KUBELET, [])], [])])];
    }
  }

  lemma {:induction false} AdditionalPrefix(c: Ctx, raws: seq<S.RawPolicy>, n: nat)
    requires n <= |raws| && AdditionalAll(c, raws[..n]).Err?
    ensures AdditionalAll(c, raws) == AdditionalAll(c, raws[..n])
    decreases |raws|
  {
    hide Additional;
    if n == |raws| {
      assert raws[..n] == raws;
    } else {
      assert raws[..|raws| - 1][..n] == raws[..n];
      AdditionalPrefix(c, raws[..|raws| - 1], n);
    }
  }

  method AdditionalPolicies(c: Ctx, raws: seq<S.RawPolicy>) returns (r: Result<seq<Manifest>>)
    ensures r == AdditionalAll(c, raws)
  {
    hide Additional;
    var out: seq<Manifest> := [];
    for n := 0 to |raws|
      invariant AdditionalAll(c, raws[..n]) == Ok(out)
    {
      assert raws[..n + 1][..n] == raws[..n];
      var one := Additional(c, raws[n]);
      if one.Err? {
        AdditionalPrefix(c, raws, n + 1);
        return one;
      }
      out := out + one.value;
    }
    assert raws[..|raws|] == raws;
    return Ok(out);
  }

  /** Defaults, shorthand, raw policies; the first failure stops the pass. */
  method GenerateNetworkPolicies(input: Input) returns (r: Result<seq<Manifest>>)
    requires input.NetpolsOn()
    ensures r == NetpolPart(input)
  {
    hide Run, AllSteps, AdditionalAll, DefaultEgress, DefaultIngress;
    var c := input.Ctx();
    var out := DefaultEgressPolicies(c, input.spec.istio);
    var more := DefaultIngressPolicies(c, input.spec.istio);
    out := out + more;
    if c.spec.egress.Some? {
      r := Expand(Pass(EgressNetpols, c), c.spec.egress.value.entries);
      if r.Err? {
        return;
      }
      out := out + r.value;
    } else {
      assert out + [] == out;
    }
    if c.spec.ingress.Some? {
      r := Expand(Pass(IngressNetpols, c), c.spec.ingress.value.entries);
      if r.Err? {
        return;
      }
      out := out + r.value;
    } else {
      assert out + [] == out;
    }
    r := AdditionalPolicies(c, c.spec.additional);
    if r.Ok? {
      r := Ok(out + r.value);
    }
  }

  /** The accumulation of all passes. Every map is read through its sorted keys, so the result is the same whatever
      order the maps yield their entries in. */
  method RunPasses(input: Input) returns (r: Result<seq<Manifest>>)
    ensures r == Collected(input)
  {
    hide NetpolPart, RoutesOutput, DefaultAuthz, AuthzOf, Run, AllSteps, ResolveAll;
    var rs: seq<Resolved> := [];
    if input.spec.routes.Some? {
      var resolved := ResolveInboundRoutes(input.spec.routes.value, input.ingress);
      if resolved.Err? {
        return Err(resolved.error);
      }
      rs := resolved.value;
    }
    if input.spec.istioObjects.Err? {
      return Err(input.spec.istioObjects.error);
    }
    var out := Plain(input.spec.istioObjects.value);
    ghost var sofar := PlainResult(input.spec.istioObjects);
    if input.NetpolsOn() {
      r := GenerateNetworkPolicies(input);
      if r.Err? {
        return;
      }
      out := out + r.value;
    } else {
      NoNetpols(input, out);
    }
    sofar := Then(sofar, NetpolPart(input));
    assert sofar == Ok(out);
    if input.spec.routes.Some? {
      r := GenerateRoutes(input.pkg, input.spec.routes.value, input.NetpolsOn(), rs);
      if r.Err? {
        return;
      }
      out := out + r.value;
    } else {
      assert out + [] == out;
    }
    sofar := Then(sofar, RoutePart(input, rs));
    out := out + DefaultAuthz(input.pkg, input.spec.istio, input.spec.netpols);
    sofar := Then(sofar, Ok(DefaultAuthz(input.pkg, input.spec.istio, input.spec.netpols)));
    assert sofar == Ok(out);
    if input.spec.netpols.Some? && AuthzEnabled(input.spec.istio) && FromNetpol(input.spec.istio) && input.spec.netpols.value.ingress.Some? {
      r := Expand(Pass(IngressAuthz, input.Ctx()), input.spec.netpols.value.ingress.value.entries);
      if r.Err? {
        return;
      }
      out := out + r.value;
    } else {
      assert out + [] == out;
    }
    sofar := Then(sofar, ShorthandAuthz(input));
    assert sofar == Ok(out);
    if input.spec.routes.Some? && AuthzEnabled(input.spec.istio) {
      var aps := GenerateAuthzFromRoutes(input.pkg, input.spec.routes.value.prepend, rs);
      out := out + aps;
    } else {
      assert out + [] == out;
    }
    sofar := Then(sofar, Ok(AuthzRoutePart(input, rs)));
    assert sofar == Ok(out);
    if input.spec.customAuthz.Err? {
      return Err(input.spec.customAuthz.error);
    }
    out := out + Plain(input.spec.customAuthz.value);
    return Ok(out);
  }

  lemma NoNetpols(input: Input, out: seq<Manifest>)
    requires !input.NetpolsOn()
    ensures Then(Ok(out), NetpolPart(input)) == Ok(out)
  {
    assert out + [] == out;
  }

  /** The generator: the objects it returns are new, and their final states are the desired manifests in order. */
  method GenerateObjects(input: Input) returns (r: Result<seq<KubeObject>>)
    ensures r.Ok? <==> Desired(input).Ok?
    ensures r.Err? ==> Desired(input) == Err(r.error)
    ensures r.Ok? ==> |r.value| == |Desired(input).value|
    ensures r.Ok? ==> forall k :: 0 <= k < |r.value| ==> fresh(r.value[k]) && r.value[k].State() == Desired(input).value[k]
  {
    hide Collected, InjectManifest, Stamped, HBoneEnabled;
    var passes := RunPasses(input);
    if passes.Err? {
      return Err(passes.error);
    }
    var ms := passes.value;
    var objs := Allocate(ms);
    var hbone := HBoneEnabled(input.spec.netpols, input.spec.istio);
    label built:
    if hbone {
      InjectHBonePorts(objs);
    }
    forall k | 0 <= k < |objs| ensures objs[k].State() == if hbone then InjectManifest(ms[k]) else ms[k] {
      assert objs[k] in objs;
      assert old@built(objs[k].State()) == ms[k];
    }
    label injected:
    StampAll(input.pkg, objs);
    forall k | 0 <= k < |objs| ensures objs[k].State() == Finish(input.pkg, hbone, ms[k]) {
      assert objs[k] in objs;
      assert objs[k].State() == Stamped(input.pkg, old@injected(objs[k].State()));
    }
    return Ok(objs);
  }

  method Allocate(ms: seq<Manifest>) returns (objs: seq<KubeObject>)
    ensures |objs| == |ms| && forall k :: 0 <= k < |ms| ==> fresh(objs[k]) && objs[k].State() == ms[k]
  {
    objs := [];
    for n := 0 to |ms|
      invariant |objs| == n && forall k :: 0 <= k < n ==> fresh(objs[k]) && objs[k].State() == ms[k]
    {
      var o := new KubeObject(ms[n]);
      objs := objs + [o];
    }
  }
}
