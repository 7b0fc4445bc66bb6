/** Inbound routes: which gateways a route is bound to, who those gateways are, and the VirtualService, the
    network policies and the authorization policies that each speak about them independently. */
module Routes {
  import opened Common
  import opened Text
  import opened Kube
  import B = Builders
  import Keys

  // ---- input -------------------------------------------------------------

  /** Who a gateway is: its pods in the namespace of its reference, and their service account. */
  datatype GatewayDefinition = GatewayDefinition(podSelector: Selector, serviceAccount: string)

  /** A gateway definition as written: a missing selector, or one that cannot be turned into a query, is an error. */
  datatype RawGateway = RawGateway(podSelector: Option<Selector>, convertible: bool, serviceAccount: string)

  datatype IngressConfig = IngressConfig(defaults: Option<seq<string>>, gateways: map<string, GatewayDefinition>)

  /** The shared ingress configuration, or why it could not be read. */
  datatype IngressEnv = IngressEnv(config: Option<IngressConfig>, error: Option<Error>)

  /** A decoded inbound route. `http` holds the raw rules, `None` for one that cannot be decoded; `passthrough`
      is its gateway port when it is switched on. */
  datatype InboundRoute = InboundRoute(enabled: bool, gateways: Option<seq<string>>, hosts: seq<string>, service: string,
                                       port: Option<PortRef>, containerPort: Option<PortRef>, selector: Labels,
                                       labels: Labels, annotations: Labels, passthrough: Option<Option<int>>,
                                       http: seq<Option<string>>, resolution: string)

  /** Outbound routes become service entries without reading any shared state: their result is an input. */
  datatype RouteSpec = RouteSpec(prepend: bool, inbound: map<string, Option<InboundRoute>>, defaults: Option<seq<string>>,
                                 outbound: Result<seq<RawObject>>)

  // ---- references --------------------------------------------------------

  predicate IsLowerAlnum(c: char) { 'a' <= c <= 'z' || IsDigit(c) }

  predicate IsLabelText(s: string) {
    s != "" && IsLowerAlnum(s[0]) && IsLowerAlnum(s[|s| - 1]) && forall c :: c in s ==> IsLowerAlnum(c) || c == '-'
  }

  predicate IsLabel(s: string) { |s| <= 63 && IsLabelText(s) }

  predicate IsSubdomain(s: string) { |s| <= 253 && forall p :: p in Split(s, '.') ==> IsLabelText(p) }

  /** A label has between 1 and 63 characters, a subdomain at most 253 in all. */
  lemma NameLimits(n: nat)
    ensures var s := seq(n, _ => 'a');
            && (IsLabel(s) <==> 1 <= n <= 63)
            && (n > 0 ==> (IsSubdomain(s) <==> n <= 253))
  {
    var s := seq(n, _ => 'a');
    assert '.' !in s;
    assert Split(s, '.') == [s];
    if n > 0 {
      assert s in [s];
    }
  }

  /** Lower-case letters, digits and dashes, and no dash at either end. */
  lemma LabelCharacters(s: string)
    ensures IsLabelText(s) <==>
            && s != "" && s[0] != '-' && s[|s| - 1] != '-'
            && forall i :: 0 <= i < |s| ==> s[i] in "abcdefghijklmnopqrstuvwxyz" || s[i] in "0123456789" || s[i] == '-'
  {
    forall i | 0 <= i < |s| ensures IsLowerAlnum(s[i]) <==> s[i] in "abcdefghijklmnopqrstuvwxyz" || s[i] in "0123456789" {
      LettersByName(s[i]);
      DigitsByName(s[i]);
    }
    hide IsLowerAlnum;
    if s != "" {
      assert s[0] in s && s[|s| - 1] in s;
    }
    assert !IsLowerAlnum('-') by { DashIsNone(); }
  }

  lemma DashIsNone()
    ensures !IsLowerAlnum('-')
  {
  }

  function SplitGateway(s: string): (r: Option<(string, string)>)
    ensures r.Some? ==> s == r.value.0 + "/" + r.value.1 && IsLabel(r.value.0) && IsSubdomain(r.value.1)
  {
    var i := Index(s, '/');
    if i <= 0 || i == |s| - 1 then None
    else if !IsLabel(s[..i]) || !IsSubdomain(s[i + 1..]) then None
    else Some((s[..i], s[i + 1..]))
  }

  /** `SplitGateway` finds the parts of every reference made of a namespace and a gateway name. */
  lemma SplitGatewayComplete(ns: string, name: string)
    requires IsLabel(ns) && IsSubdomain(name)
    ensures SplitGateway(ns + "/" + name) == Some((ns, name))
  {
    hide IsSubdomain;
    var s := ns + "/" + name;
    assert '/' !in ns;
    IndexOfConcat(ns, '/', name);
    assert s[..|ns|] == ns && s[|ns| + 1..] == name;
    NotEmpty(name);
  }

  lemma NotEmpty(name: string)
    requires IsSubdomain(name)
    ensures name != ""
  {
    var parts := Split(name, '.');
    assert parts[0] in parts && IsLabelText(parts[0]);
  }

  // ---- shared gateway definitions ----------------------------------------

  predicate IsGatewayDefinition(ref: string, raw: RawGateway) {
    SplitGateway(ref).Some? && raw.podSelector.Some? && raw.convertible && IsSubdomain(raw.serviceAccount)
  }

  /** Partial definitions are rejected: the configuration is accepted only if every definition is complete. */
  method ParseGateways(raw: map<string, RawGateway>) returns (r: Result<map<string, GatewayDefinition>>)
    ensures r.Ok? <==> forall ref :: ref in raw ==> IsGatewayDefinition(ref, raw[ref])
    ensures r.Ok? ==> r.value.Keys == raw.Keys
    ensures r.Ok? ==> forall ref :: ref in raw ==> r.value[ref] == GatewayDefinition(raw[ref].podSelector.value, raw[ref].serviceAccount)
  {
    hide Keys.KeyOrder, IsSubdomain, SplitGateway;
    var keys := Keys.SortedKeys(raw);
    var out: map<string, GatewayDefinition> := map[];
    for n := 0 to |keys|
      invariant out.Keys == set k | k in keys[..n]
      invariant forall k :: k in keys[..n] ==> IsGatewayDefinition(k, raw[k])
      invariant forall k :: k in out ==> out[k] == GatewayDefinition(raw[k].podSelector.value, raw[k].serviceAccount)
    {
      var ref := keys[n];
      var def := raw[ref];
      assert ref in keys;
      if SplitGateway(ref).None? {
        return Err(BadGateway(ref));
      }
      if def.podSelector.None? {
        return Err(MissingField(ref));
      }
      if !def.convertible {
        return Err(MalformedValue(ref));
      }
      if !IsSubdomain(def.serviceAccount) {
        return Err(MalformedValue(ref));
      }
      out := out[ref := GatewayDefinition(def.podSelector.value, def.serviceAccount)];
      assert keys[..n + 1] == keys[..n] + [ref];
    }
    assert keys[..|keys|] == keys;
    return Ok(out);
  }

  // ---- resolution --------------------------------------------------------

  datatype Gateway = Gateway(ns: string, name: string, definition: GatewayDefinition)

  /** An enabled route with its gateways and its selector filled in. */
  datatype Resolved = Resolved(name: string, route: InboundRoute, gateways: seq<Gateway>)

  /** The first layer that is present: the route, the Package's defaults, the shared defaults. An explicitly empty
      list is present. */
  function EffectiveGateways(route: InboundRoute, defaults: Option<seq<string>>, config: Option<IngressConfig>): Option<seq<string>> {
    if route.gateways.Some? then route.gateways
    else if defaults.Some? then defaults
    else if config.Some? then config.value.defaults
    else None
  }

  function FirstBad(gateways: seq<string>): Option<string> {
    if gateways == [] then None
    else if SplitGateway(gateways[0]).None? then Some(gateways[0])
    else FirstBad(gateways[1..])
  }

  /** Why an enabled route is rejected. */
  function InboundError(name: string, r: InboundRoute): Option<Error> {
    if r.gateways.None? || r.gateways.value == [] then Some(MissingField(name))
    else if FirstBad(r.gateways.value).Some? then Some(BadGateway(FirstBad(r.gateways.value).value))
    else if r.service == "" || r.port.None? then Some(MissingField(name))
    else None
  }

  lemma {:induction false} FirstBadNone(gateways: seq<string>)
    ensures FirstBad(gateways).None? <==> forall k :: 0 <= k < |gateways| ==> SplitGateway(gateways[k]).Some?
  {
    hide SplitGateway;
    if gateways != [] {
      FirstBadNone(gateways[1..]);
      assert forall k :: 1 <= k < |gateways| ==> gateways[k] == gateways[1..][k - 1];
    }
  }

  method ValidateInbound(name: string, r: InboundRoute) returns (e: Option<Error>)
    ensures e == InboundError(name, r)
  {
    hide SplitGateway;
    if r.gateways.None? || |r.gateways.value| == 0 {
      return Some(MissingField(name));
    }
    var refs := r.gateways.value;
    for n := 0 to |refs|
      invariant FirstBad(refs) == FirstBad(refs[n..])
    {
      assert refs[n..][1..] == refs[n + 1..];
      if SplitGateway(refs[n]).None? {
        return Some(BadGateway(refs[n]));
      }
    }
    if r.service == "" {
      return Some(MissingField(name));
    }
    if r.port.None? {
      return Some(MissingField(name));
    }
    return None;
  }

  /** A gateway is who the shared configuration says it is, else the pods and the account named after it. */
  function DefinitionOf(ref: string, name: string, config: Option<IngressConfig>): GatewayDefinition {
    if config.Some? && ref in config.value.gateways then config.value.gateways[ref]
    else GatewayDefinition(ByLabels(map[B.APP_NAME := name]), name + "-ingressgateway-service-account")
  }

  function GatewayOf(ref: string, config: Option<IngressConfig>): Gateway {
    var (ns, name) := if SplitGateway(ref).Some? then SplitGateway(ref).value else ("", "");
    Gateway(ns, name, DefinitionOf(ref, name, config))
  }

  function GatewaysOf(refs: seq<string>, config: Option<IngressConfig>): (r: seq<Gateway>)
    ensures |r| == |refs| && forall k :: 0 <= k < |refs| ==> r[k] == GatewayOf(refs[k], config)
  {
    seq(|refs|, k requires 0 <= k < |refs| => GatewayOf(refs[k], config))
  }

  function Filled(name: string, r: InboundRoute, spec: RouteSpec, env: IngressEnv): InboundRoute {
    r.(gateways := EffectiveGateways(r, spec.defaults, env.config),
       selector := if r.selector == map[] then map[B.APP_NAME := name] else r.selector)
  }

  /** One route; a disabled one resolves to nothing. */
  function ResolveRoute(name: string, spec: RouteSpec, env: IngressEnv): Result<Option<Resolved>>
    requires name in spec.inbound
  {
    match spec.inbound[name]
    case None => Err(MalformedValue(name))
    case Some(r) =>
      if !r.enabled then Ok(None)
      else if env.error.Some? then Err(Unreadable(name))
      else
        var full := Filled(name, r, spec, env);
        if InboundError(name, full).Some? then Err(InboundError(name, full).value)
        else Ok(Some(Resolved(name, full, GatewaysOf(full.gateways.value, env.config))))
  }

  function ResolveKeys(spec: RouteSpec, env: IngressEnv, keys: seq<string>): Result<seq<Resolved>>
    requires forall k :: k in keys ==> k in spec.inbound
  {
    if keys == [] then Ok([])
    else
      var init := ResolveKeys(spec, env, keys[..|keys| - 1]);
      if init.Err? then init
      else
        match ResolveRoute(keys[|keys| - 1], spec, env)
        case Err(e) => Err(e)
        case Ok(None) => init
        case Ok(Some(r)) => Ok(init.value + [r])
  }

  ghost function ResolveAll(spec: RouteSpec, env: IngressEnv): Result<seq<Resolved>> {
    ResolveKeys(spec, env, Keys.KeyOrder(spec.inbound.Keys))
  }

  lemma {:induction false} ResolvePrefix(spec: RouteSpec, env: IngressEnv, keys: seq<string>, n: nat)
    requires (forall k :: k in keys ==> k in spec.inbound) && n <= |keys| && ResolveKeys(spec, env, keys[..n]).Err?
    ensures ResolveKeys(spec, env, keys) == ResolveKeys(spec, env, keys[..n])
    decreases |keys|
  {
    hide ResolveRoute;
    if n == |keys| {
      assert keys[..n] == keys;
    } else {
      var init := keys[..|keys| - 1];
      assert init[..n] == keys[..n];
      ResolvePrefix(spec, env, init, n);
    }
  }

  lemma ResolveNone(spec: RouteSpec, env: IngressEnv)
    ensures ResolveKeys(spec, env, []) == Ok([])
  {
  }

  lemma ResolveNext(spec: RouteSpec, env: IngressEnv, keys: seq<string>, n: nat)
    requires (forall k :: k in keys ==> k in spec.inbound) && n < |keys| && ResolveKeys(spec, env, keys[..n]).Ok?
    ensures var before, one := ResolveKeys(spec, env, keys[..n]).value, ResolveRoute(keys[n], spec, env);
            ResolveKeys(spec, env, keys[..n + 1]) ==
            if one.Err? then Err(one.error) else if one.value.None? then Ok(before) else Ok(before + [one.value.value])
  {
    hide ResolveRoute;
    assert keys[..n + 1][..n] == keys[..n];
  }

  method ResolveInboundRoutes(spec: RouteSpec, env: IngressEnv) returns (r: Result<seq<Resolved>>)
    ensures r == ResolveAll(spec, env)
  {
    hide Keys.KeyOrder, ResolveRoute, ResolveKeys;
    var keys := Keys.SortedKeys(spec.inbound);
    var out: seq<Resolved> := [];
    ResolveNone(spec, env);
    for n := 0 to |keys|
      invariant ResolveKeys(spec, env, keys[..n]) == Ok(out)
    {
      ResolveNext(spec, env, keys, n);
      var one := ResolveOne(keys[n], spec, env);
      if one.Err? {
        ResolvePrefix(spec, env, keys, n + 1);
        return Err(one.error);
      }
      if one.value.Some? {
        out := out + [one.value.value];
      }
    }
    assert keys[..|keys|] == keys;
    return Ok(out);
  }

  /** Decoding, the layers, validation and the loop over the gateways of one route. */
  method ResolveOne(name: string, spec: RouteSpec, env: IngressEnv) returns (r: Result<Option<Resolved>>)
    requires name in spec.inbound
    ensures r == ResolveRoute(name, spec, env)
  {
    hide InboundError, GatewayOf;
    var raw := spec.inbound[name];
    if raw.None? {
      return Err(MalformedValue(name));
    }
    var route := raw.value;
    if !route.enabled {
      return Ok(None);
    }
    if env.error.Some? {
      return Err(Unreadable(name));
    }
    if route.gateways.None? {
      route := route.(gateways := spec.defaults);
      if route.gateways.None? && env.config.Some? {
        route := route.(gateways := env.config.value.defaults);
      }
    }
    if route.selector == map[] {
      route := route.(selector := map[B.APP_NAME := name]);
    }
    assert route == Filled(name, raw.value, spec, env);
    var e := ValidateInbound(name, route);
    if e.Some? {
      return Err(e.value);
    }
    assert route.gateways.Some? by { ValidHasGateways(name, route); }
    var gateways: seq<Gateway> := [];
    for n := 0 to |route.gateways.value|
      invariant |gateways| == n && forall k :: 0 <= k < n ==> gateways[k] == GatewayOf(route.gateways.value[k], env.config)
    {
      gateways := gateways + [GatewayOf(route.gateways.value[n], env.config)];
    }
    assert gateways == GatewaysOf(route.gateways.value, env.config);
    return Ok(Some(Resolved(name, route, gateways)));
  }

  lemma ValidHasGateways(name: string, r: InboundRoute)
    requires InboundError(name, r).None?
    ensures r.gateways.Some? && r.gateways.value != [] && r.port.Some?
    ensures forall k :: 0 <= k < |r.gateways.value| ==> SplitGateway(r.gateways.value[k]).Some?
  {
    hide SplitGateway;
    FirstBadNone(r.gateways.value);
  }

  /** The list of gateway references a route ends up with: its own if it has one, also an empty one; else the Package's;
      else the shared one. */
  ghost predicate HasGateways(list: Option<seq<string>>, route: InboundRoute, spec: RouteSpec, env: IngressEnv) {
    && (route.gateways.Some? ==> list == route.gateways)
    && (route.gateways.None? && spec.defaults.Some? ==> list == spec.defaults)
    && (route.gateways.None? && spec.defaults.None? && env.config.Some? ==> list == env.config.value.defaults)
    && (route.gateways.None? && spec.defaults.None? && env.config.None? ==> list.None?)
  }

  /** A gateway with its parts and its identity: what the shared configuration declares for the reference, else the pods
      and the service account named after it. */
  ghost predicate IsGateway(g: Gateway, ref: string, env: IngressEnv) {
    && ref == g.ns + "/" + g.name && IsLabel(g.ns) && IsSubdomain(g.name)
    && if env.config.Some? && ref in env.config.value.gateways then g.definition == env.config.value.gateways[ref]
       else && g.definition.podSelector == Selector(map["app.kubernetes.io/name" := g.name], [])
            && g.definition.serviceAccount == g.name + "-ingressgateway-service-account"
  }

  /** What resolution promises about an enabled route: at least one gateway, in the order of its list, and pods selected
      by the route or else by its name; everything else is the route as written. */
  ghost predicate ResolvedFrom(r: Resolved, spec: RouteSpec, env: IngressEnv) {
    && r.name in spec.inbound && spec.inbound[r.name].Some?
    && var route := spec.inbound[r.name].value;
    && route.enabled && env.error.None? && route.service != "" && route.port.Some?
    && r.route == route.(gateways := r.route.gateways, selector := r.route.selector)
    && HasGateways(r.route.gateways, route, spec, env)
    && r.route.selector == (if route.selector == map[] then map["app.kubernetes.io/name" := r.name] else route.selector)
    && r.route.gateways.Some? && r.gateways != [] && |r.gateways| == |r.route.gateways.value|
    && forall i :: 0 <= i < |r.gateways| ==> IsGateway(r.gateways[i], r.route.gateways.value[i], env)
  }

  lemma OneResolved(name: string, spec: RouteSpec, env: IngressEnv)
    requires name in spec.inbound && ResolveRoute(name, spec, env).Ok? && ResolveRoute(name, spec, env).value.Some?
    ensures ResolvedFrom(ResolveRoute(name, spec, env).value.value, spec, env)
    ensures ResolveRoute(name, spec, env).value.value.name == name
  {
    hide SplitGateway, FirstBad, IsSubdomain, IsLabel;
    var full := Filled(name, spec.inbound[name].value, spec, env);
    ValidHasGateways(name, full);
  }

  /** An enabled route is accepted exactly if it has a gateway, all its gateways are references, and it names a service
      and a port. */
  lemma ValidExactly(name: string, r: InboundRoute)
    ensures InboundError(name, r).None? <==>
            && r.gateways.Some? && r.gateways.value != []
            && (forall k :: 0 <= k < |r.gateways.value| ==> SplitGateway(r.gateways.value[k]).Some?)
            && r.service != "" && r.port.Some?
  {
    hide SplitGateway;
    if r.gateways.Some? {
      FirstBadNone(r.gateways.value);
    }
  }

  /** A route does not keep the resolution from succeeding: it is readable and, if enabled, the shared configuration is,
      and the first layer that has a list, which one does, names gateways only. */
  ghost predicate Resolvable(name: string, spec: RouteSpec, env: IngressEnv)
    requires name in spec.inbound
  {
    && spec.inbound[name].Some?
    && var route := spec.inbound[name].value;
    route.enabled ==>
      && env.error.None? && route.service != "" && route.port.Some?
      && exists list: seq<string> :: HasGateways(Some(list), route, spec, env) && list != [] && AllReferences(list)
  }

  predicate AllReferences(list: seq<string>) { forall k :: 0 <= k < |list| ==> SplitGateway(list[k]).Some? }

  lemma OneResolvable(name: string, spec: RouteSpec, env: IngressEnv)
    requires name in spec.inbound
    ensures ResolveRoute(name, spec, env).Ok? <==> Resolvable(name, spec, env)
  {
    hide SplitGateway, FirstBad, GatewaysOf;
    if spec.inbound[name].Some? {
      var route := spec.inbound[name].value;
      var full := Filled(name, route, spec, env);
      ValidExactly(name, full);
      assert HasGateways(full.gateways, route, spec, env);
      if full.gateways.Some? {
        assert AllReferences(full.gateways.value) <==> forall k :: 0 <= k < |full.gateways.value| ==> SplitGateway(full.gateways.value[k]).Some?;
      }
      assert forall list :: HasGateways(list, route, spec, env) ==> list == full.gateways;
    }
    hide InboundError, AllReferences;
  }

  /** Resolution succeeds exactly if no route stands in its way; a route without a list in any layer does. */
  lemma {:induction false} ResolutionSucceeds(spec: RouteSpec, env: IngressEnv, keys: seq<string>)
    requires forall k :: k in keys ==> k in spec.inbound
    ensures ResolveKeys(spec, env, keys).Ok? <==> forall k :: k in keys ==> Resolvable(k, spec, env)
    decreases |keys|
  {
    hide ResolveRoute, Resolvable;
    if keys != [] {
      var init, last := keys[..|keys| - 1], keys[|keys| - 1];
      assert keys == init + [last];
      ResolutionSucceeds(spec, env, init);
      OneResolvable(last, spec, env);
    }
  }

  /** A run of the resolution yields exactly the enabled routes, each resolved, in key order. */
  lemma {:induction false} ResolvedRoutes(spec: RouteSpec, env: IngressEnv, keys: seq<string>)
    requires (forall k :: k in keys ==> k in spec.inbound) && ResolveKeys(spec, env, keys).Ok?
    ensures forall r :: r in ResolveKeys(spec, env, keys).value ==> ResolvedFrom(r, spec, env) && r.name in keys
    ensures forall k :: k in keys ==> spec.inbound[k].Some?
    ensures forall k :: k in keys && spec.inbound[k].value.enabled ==> exists r :: r in ResolveKeys(spec, env, keys).value && r.name == k
    ensures forall r :: r in ResolveKeys(spec, env, keys).value ==> spec.inbound[r.name].value.enabled
    decreases |keys|
  {
    hide ResolvedFrom, GatewaysOf, InboundError;
    if keys != [] {
      var init, last := keys[..|keys| - 1], keys[|keys| - 1];
      assert keys == init + [last];
      ResolvedRoutes(spec, env, init);
      var before, all := ResolveKeys(spec, env, init).value, ResolveKeys(spec, env, keys).value;
      assert spec.inbound[last].Some?;
      if spec.inbound[last].value.enabled {
        OneResolved(last, spec, env);
        assert all == before + [ResolveRoute(last, spec, env).value.value];
        assert all[|all| - 1].name == last;
        assert all[|all| - 1] in all;
      } else {
        assert all == before;
      }
      hide ResolveKeys, ResolveRoute;
      assert forall r :: r in before ==> r in all;
    }
  }

  /** If resolution succeeds although the shared configuration could not be read, it used none of it: the result is
      the same for every readable configuration. */
  lemma {:induction false} ConfigIgnored(spec: RouteSpec, env: IngressEnv, other: IngressEnv, keys: seq<string>)
    requires forall k :: k in keys ==> k in spec.inbound
    requires env.error.Some? && ResolveKeys(spec, env, keys).Ok?
    ensures ResolveKeys(spec, other, keys) == ResolveKeys(spec, env, keys) == Ok([])
    decreases |keys|
  {
    if keys != [] {
      ConfigIgnored(spec, env, other, keys[..|keys| - 1]);
    }
  }
}
