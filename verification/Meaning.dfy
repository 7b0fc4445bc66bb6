/** Compiler correctness: the emitted network policies admit exactly the connections the enabled entries of the
    specification describe. The meaning of an entry is stated on its structured key, or on the definition its key
    names, without reference to compiled policies, selectors or rules. Only literal entries are rules to begin with:
    they mean what those rules say. */
module Meaning {
  import opened Common
  import opened Shorthand
  import opened Kube
  import opened Spec
  import opened Steps
  import opened Builders
  import opened Passes
  import opened Ports
  import opened Denotation
  import Cidr
  import G = Grammar

  // ---- what an entry says ------------------------------------------------

  /** The pods of the Package's namespace a local egress key stands for. */
  predicate IsSource(ns: string, localKey: string, source: Source, e: Endpoint) {
    && e.Pod? && e.ns == ns
    && if source.podSelector != map[] then Within(source.podSelector, e.labels)
       else localKey == "*" || HasLabel(e.labels, "app.kubernetes.io/name", localKey)
  }

  predicate IsDestination(ns: string, local: LocalKey, source: Source, e: Endpoint) {
    && e.Pod? && e.ns == ns
    && if source.podSelector != map[] then Within(source.podSelector, e.labels) else HasLabel(e.labels, "app.kubernetes.io/name", local.pod)
  }

  /** The pods a remote key stands for: by namespace name and pod name, unless selectors replace them. */
  predicate IsRemote(r: K8sRemote, target: Target, e: Endpoint) {
    && e.Pod?
    && (if target.namespaceSelector != map[] then Within(target.namespaceSelector, e.nsLabels) else r.ns == "*" || e.ns == r.ns)
    && if target.podSelector != map[] then Within(target.podSelector, e.labels)
       else r.pod == "" || r.pod == "*" || HasLabel(e.labels, "app.kubernetes.io/name", r.pod)
  }

  /** The addresses an egress CIDR stands for: those of the block that no exclusion takes away. */
  ghost predicate Reaches(cidr: string, exclusions: seq<string>, x: nat) {
    && x < Cidr.ADDRESSES
    && Cidr.ParseCIDR(cidr).Some? && Cidr.ParseCIDR(cidr).value.Contains(x)
    && forall ex :: ex in exclusions && ex != cidr && Cidr.ParseCIDR(ex).Some? && Cidr.ParseCIDR(ex).value.Contains(x)
                    ==> Cidr.StrictSubset(Cidr.ParseCIDR(cidr).value, Cidr.ParseCIDR(ex).value)
  }

  /** Exclusions are those of the specification; where it has no list, the instance metadata service alone. */
  ghost predicate EgressAddress(side: Option<Side>, cidr: string, x: nat) {
    if side.Some? && side.value.excludeCIDRs.Some? then Reaches(cidr, side.value.excludeCIDRs.value, x)
    else Reaches(cidr, ["169.254.169.254/32"], x)
  }

  ghost predicate EgressMeans(c: Ctx, s: Step, conn: Connection) {
    match s
    case LocalStep(_, _) => false
    case LiteralStep(k, source, _, lit) =>
      IsSource(c.pkg.namespace, k, source, conn.src) && lit.rules.Some?
      && exists r :: r in lit.rules.value && RuleAdmits(r, c.pkg.namespace, Egress, conn)
    case EntryStep(f, k, source, key, target) =>
      IsSource(c.pkg.namespace, k, source, conn.src) &&
      match f
      case K8s =>
        var r := ParseEgressRemoteKey(key);
        r.Ok? && IsRemote(r.value, target, conn.dst) && PortsMean(r.value.protocol, r.value.ports, r.value.hasRange, conn)
      case CIDRs =>
        var r := ParseEgressCIDRKey(key);
        r.Ok? && EgressAddress(c.spec.egress, r.value.cidr, conn.dst.addr)
        && PortsMean(r.value.protocol, r.value.ports, r.value.hasRange, conn)
      case Definitions =>
        DefinitionPeers(c, Egress, key, conn.dst) && DefinitionPorts(c, Egress, key, conn)
  }

  ghost predicate LocalPortsMean(local: LocalKey, conn: Connection) {
    PortsMean(local.protocol, local.ports, local.hasRange, conn)
  }

  ghost predicate IngressMeans(c: Ctx, s: Step, conn: Connection) {
    !s.LocalStep? && ParseIngressLocalKey(s.localKey).Ok? && IngressEntryMeans(c, s, ParseIngressLocalKey(s.localKey).value, conn)
  }

  ghost predicate IngressEntryMeans(c: Ctx, s: Step, local: LocalKey, conn: Connection)
    requires !s.LocalStep?
  {
    && IsDestination(c.pkg.namespace, local, s.source, conn.dst)
    && match s
       case LiteralStep(k, source, _, lit) =>
         lit.rules.Some? && exists r :: r in lit.rules.value && RuleAdmits(r, c.pkg.namespace, Ingress, conn)
       case EntryStep(f, k, source, key, target) =>
         match f
         case K8s =>
           var r := ParseIngressRemoteKey(key);
           r.Ok? && IsRemote(r.value, target, conn.src) && LocalPortsMean(local, conn)
         case CIDRs => IsCIDRText(key) && Cidr.BlockAdmits(key, [], conn.src.addr) && LocalPortsMean(local, conn)
         case Definitions =>
           DefinitionPeers(c, Ingress, key, conn.src)
           && if local.ports != [] then LocalPortsMean(local, conn) else DefinitionPorts(c, Ingress, key, conn)
  }

  /** No port number of the step's keys is changed by truncation; see `PortsAgreeExactly`. */
  predicate EgressFits(s: Step) {
    s.EntryStep? ==>
      && (s.family == K8s && ParseEgressRemoteKey(s.key).Ok? ==>
            Untruncated(ParseEgressRemoteKey(s.key).value.ports, ParseEgressRemoteKey(s.key).value.hasRange))
      && (s.family == CIDRs && ParseEgressCIDRKey(s.key).Ok? ==>
            Untruncated(ParseEgressCIDRKey(s.key).value.ports, ParseEgressCIDRKey(s.key).value.hasRange))
  }

  predicate IngressFits(s: Step) {
    ParseIngressLocalKey(s.localKey).Ok? ==>
      Untruncated(ParseIngressLocalKey(s.localKey).value.ports, ParseIngressLocalKey(s.localKey).value.hasRange)
  }

  /** Every port the step's keys name is a real one. */
  predicate RealPorts(ports: seq<int>) { forall p :: p in ports ==> 0 <= p <= 65535 }

  predicate EgressReal(s: Step) {
    s.EntryStep? ==>
      && (s.family == K8s && ParseEgressRemoteKey(s.key).Ok? ==> RealPorts(ParseEgressRemoteKey(s.key).value.ports))
      && (s.family == CIDRs && ParseEgressCIDRKey(s.key).Ok? ==> RealPorts(ParseEgressCIDRKey(s.key).value.ports))
  }

  predicate IngressReal(s: Step) {
    ParseIngressLocalKey(s.localKey).Ok? ==> RealPorts(ParseIngressLocalKey(s.localKey).value.ports)
  }

  /** Real ports are never truncated. */
  lemma RealFits(s: Step)
    ensures EgressReal(s) ==> EgressFits(s)
    ensures IngressReal(s) ==> IngressFits(s)
  {
    hide ParseEgressRemoteKey, ParseEgressCIDRKey, ParseIngressLocalKey, Untruncated;
    forall ports, hasRange | RealPorts(ports) ensures Untruncated(ports, hasRange) {
      assert forall k :: 0 <= k < |ports| ==> ports[k] in ports;
      SmallPortsUntruncated(ports, hasRange);
    }
  }

  // ---- selectors ---------------------------------------------------------

  lemma SourceSelected(localKey: string, source: Source, labels: Labels)
    ensures SourceSelector(localKey, source).Selects(labels) <==>
            if source.podSelector != map[] then Within(source.podSelector, labels)
            else localKey == "*" || HasLabel(labels, APP_NAME, localKey)
  {
    OneLabel(APP_NAME, localKey, labels);
  }

  lemma DestinationSelected(local: LocalKey, source: Source, labels: Labels)
    ensures ByLabels(DestinationLabels(local, source)).Selects(labels) <==>
            if source.podSelector != map[] then Within(source.podSelector, labels) else HasLabel(labels, APP_NAME, local.pod)
  {
    OneLabel(APP_NAME, local.pod, labels);
  }

  lemma RemoteSelected(r: K8sRemote, target: Target, ns: string, e: Endpoint)
    requires e.Valid()
    ensures PeersMatch([RemotePeer(r, target)], ns, e) <==> IsRemote(r, target, e)
  {
    var p := RemotePeer(r, target);
    assert p in [p];
    assert PeersMatch([p], ns, e) <==> PeerMatches(p, ns, e);
    if e.Pod? {
      OneLabel(NAMESPACE_NAME, r.ns, e.nsLabels);
      OneLabel(APP_NAME, r.pod, e.labels);
    }
  }

  lemma BlockSelected(cidr: string, except: seq<string>, ns: string, e: Endpoint)
    ensures PeersMatch([CIDRPeer(cidr, except)], ns, e) <==> Cidr.BlockAdmits(cidr, except, e.addr)
  {
    var p := CIDRPeer(cidr, except);
    assert p in [p];
    assert PeersMatch([p], ns, e) <==> PeerMatches(p, ns, e);
  }

  // ---- one policy --------------------------------------------------------

  lemma NetpolAdmits(c: Ctx, d: Direction, name: string, notes: Labels, selector: Selector, rules: seq<Rule>,
                     meta: Option<Metadata>, conn: Connection)
    ensures var e := conn.Subject(d);
            Admits(ApplyShorthandMetadata(Netpol(c, d, name, notes, selector, rules), meta), c.pkg.namespace, d, conn) <==>
            && e.Pod? && e.ns == c.pkg.namespace && selector.Selects(e.labels)
            && exists r :: r in rules && RuleAdmits(r, c.pkg.namespace, d, conn)
  {
    hide NetpolLabels, RuleAdmits;
    var m := ApplyShorthandMetadata(Netpol(c, d, name, notes, selector, rules), meta);
    assert m.body.spec.types == [d] && d in m.body.spec.types;
    assert Rules(m.body.spec, d) == rules;
  }

  lemma OneRule(rule: Rule, ns: string, d: Direction, conn: Connection)
    ensures (exists r :: r in [rule] && RuleAdmits(r, ns, d, conn)) <==>
            PeersMatch(rule.peers, ns, conn.Remote(d)) && PortsMatch(rule.ports, conn)
  {
    hide PeersMatch, PortsMatch;
    assert rule in [rule];
  }

  ghost predicate StepAdmits(p: Pass, s: Step, d: Direction, conn: Connection) {
    Emit(p, s).Ok? && SomeAdmits(Emit(p, s).value, p.ctx.pkg.namespace, d, conn)
  }

  lemma OneAdmits(m: Manifest, ns: string, d: Direction, conn: Connection)
    ensures SomeAdmits([m], ns, d, conn) <==> Admits(m, ns, d, conn)
  {
    hide Admits;
    assert m in [m];
  }

  // ---- egress ------------------------------------------------------------

  lemma EgressK8sStep(c: Ctx, k: string, source: Source, key: string, target: Target, conn: Connection)
    requires conn.Valid() && EgressFits(EntryStep(K8s, k, source, key, target)) && ParseEgressRemoteKey(key).Ok?
    ensures var s := EntryStep(K8s, k, source, key, target);
            StepAdmits(Pass(EgressNetpols, c), s, Egress, conn) <==> EgressMeans(c, s, conn)
  {
    hide ParseEgressRemoteKey, Names.EgressK8sName, NetpolPorts, SomeAdmits, Admits, Untruncated, NetpolLabels, RemotePeer;
    var r := ParseEgressRemoteKey(key).value;
    var rule := Rule([RemotePeer(r, target)], NetpolPorts(r.protocol, r.ports, r.hasRange));
    var meta := MergeShorthandMetadata(source.metadata, target.metadata);
    var notes := map[LOCAL_KEY := k, REMOTE_KEY := key];
    NetpolAdmits(c, Egress, Names.EgressK8sName(k, r), notes, SourceSelector(k, source), [rule], meta, conn);
    OneAdmits(ApplyShorthandMetadata(BuildEgressK8s(c, k, source, key, r, target), meta), c.pkg.namespace, Egress, conn);
    OneRule(rule, c.pkg.namespace, Egress, conn);
    RemoteSelected(r, target, c.pkg.namespace, conn.dst);
    PortsOfKey(r.protocol, r.ports, r.hasRange, conn);
    if conn.src.Pod? {
      SourceSelected(k, source, conn.src.labels);
    }
    hide SourceSelector, IsRemote, PeersMatch, PortsMatch, PortsMean, MergeShorthandMetadata, ApplyShorthandMetadata;
  }

  lemma ExclusionsApply(spec: NetworkPolicies, cidr: string, x: nat)
    ensures Reaches(cidr, ExcludeCIDRs(spec), x) <==> EgressAddress(spec.egress, cidr, x)
    ensures Reaches(cidr, ExcludeCIDRs(spec), x) <==>
            && x < Cidr.ADDRESSES
            && Cidr.ParseCIDR(cidr).Some?
            && Cidr.ParseCIDR(cidr).value.Contains(x)
            && forall ex :: ex in ExcludeCIDRs(spec) && ex != cidr && Cidr.ParseCIDR(ex).Some? && Cidr.ParseCIDR(ex).value.Contains(x)
                            ==> Cidr.StrictSubset(Cidr.ParseCIDR(cidr).value, Cidr.ParseCIDR(ex).value)
  {
    hide Cidr.ParseCIDR, Cidr.StrictSubset;
  }

  lemma EgressCIDRStep(c: Ctx, k: string, source: Source, key: string, target: Target, conn: Connection)
    requires conn.Valid() && EgressFits(EntryStep(CIDRs, k, source, key, target)) && ParseEgressCIDRKey(key).Ok?
    ensures var s := EntryStep(CIDRs, k, source, key, target);
            StepAdmits(Pass(EgressNetpols, c), s, Egress, conn) <==> EgressMeans(c, s, conn)
  {
    hide ParseEgressCIDRKey, Names.EgressCIDRName, NetpolPorts, SomeAdmits, Admits, Untruncated, NetpolLabels, CIDRPeer, Cidr.Exclusions;
    hide SourceSelector, PeersMatch, PortsMatch, PortsMean, MergeShorthandMetadata, ApplyShorthandMetadata, ExcludeCIDRs, Cidr.BlockAdmits, RuleAdmits;
    var r := ParseEgressCIDRKey(key).value;
    var except := Cidr.Exclusions(r.cidr, ExcludeCIDRs(c.spec));
    var rule := Rule([CIDRPeer(r.cidr, except)], NetpolPorts(r.protocol, r.ports, r.hasRange));
    var meta := MergeShorthandMetadata(source.metadata, target.metadata);
    var notes := map[LOCAL_KEY := k, REMOTE_KEY := key];
    NetpolAdmits(c, Egress, Names.EgressCIDRName(k, r), notes, SourceSelector(k, source), [rule], meta, conn);
    OneAdmits(ApplyShorthandMetadata(BuildEgressCIDR(c, k, source, key, r, except), meta), c.pkg.namespace, Egress, conn);
    OneRule(rule, c.pkg.namespace, Egress, conn);
    BlockSelected(r.cidr, except, c.pkg.namespace, conn.dst);
    Cidr.EmittedBlock(r.cidr, ExcludeCIDRs(c.spec), conn.dst.addr);
    ExclusionsApply(c.spec, r.cidr, conn.dst.addr);
    hide EgressAddress, Reaches;
    PortsOfKey(r.protocol, r.ports, r.hasRange, conn);
    if conn.src.Pod? {
      SourceSelected(k, source, conn.src.labels);
    }
  }

  lemma EgressDefinitionStep(c: Ctx, k: string, source: Source, key: string, target: Target, conn: Connection)
    requires conn.Valid() && ResolveEgressDefinition(c, key).Ok?
    ensures var s := EntryStep(Definitions, k, source, key, target);
            StepAdmits(Pass(EgressNetpols, c), s, Egress, conn) <==> EgressMeans(c, s, conn)
  {
    hide ResolveEgressDefinition, SomeAdmits, Admits, NetpolLabels, Text.ToLower, Names.LocalName, PeersMatch, PortsMatch,
      DefinitionPeers, DefinitionPorts;
    ResolvedMeans(c, Egress, key, conn.dst, conn);
    var def := ResolveEgressDefinition(c, key).value;
    var meta := MergeShorthandMetadata(source.metadata, target.metadata);
    var m := BuildEgressDefinition(c, k, source, key, def);
    NetpolAdmits(c, Egress, "allow-egress-from-" + Names.LocalName(k) + "-to-" + Text.ToLower(key),
                 map[LOCAL_KEY := k, FROM_DEFINITION := key], SourceSelector(k, source), [def], meta, conn);
    OneAdmits(ApplyShorthandMetadata(m, meta), c.pkg.namespace, Egress, conn);
    OneRule(def, c.pkg.namespace, Egress, conn);
    if conn.src.Pod? {
      SourceSelected(k, source, conn.src.labels);
    }
    hide SourceSelector, MergeShorthandMetadata, ApplyShorthandMetadata;
  }

  lemma EgressLiteralStep(c: Ctx, k: string, source: Source, key: string, lit: Literal, conn: Connection)
    requires Emit(Pass(EgressNetpols, c), LiteralStep(k, source, key, lit)).Ok?
    ensures var s := LiteralStep(k, source, key, lit);
            StepAdmits(Pass(EgressNetpols, c), s, Egress, conn) <==> EgressMeans(c, s, conn)
  {
    hide SomeAdmits, Admits, NetpolLabels, Text.ToLower, Names.LocalName, RuleAdmits, Text.IsName;
    var meta := MergeShorthandMetadata(source.metadata, lit.metadata);
    var m := BuildEgressLiteral(c, k, source, key, lit.yaml, lit.rules.value);
    NetpolAdmits(c, Egress, "allow-egress-from-" + Names.LocalName(k) + "-to-" + Text.ToLower(key),
                 map[LOCAL_KEY := k, REMOTE_KEY := key, FROM_LITERAL := lit.yaml], SourceSelector(k, source), lit.rules.value, meta, conn);
    OneAdmits(ApplyShorthandMetadata(m, meta), c.pkg.namespace, Egress, conn);
    if conn.src.Pod? {
      SourceSelected(k, source, conn.src.labels);
    }
    hide SourceSelector, MergeShorthandMetadata, ApplyShorthandMetadata;
  }

  lemma EgressStep(c: Ctx, s: Step, conn: Connection)
    requires conn.Valid() && EgressFits(s) && Emit(Pass(EgressNetpols, c), s).Ok?
    ensures StepAdmits(Pass(EgressNetpols, c), s, Egress, conn) <==> EgressMeans(c, s, conn)
  {
    match s
    case LocalStep(_, _) =>
      assert Emit(Pass(EgressNetpols, c), s) == Ok([]);
    case EntryStep(f, k, source, key, target) =>
      match f {
        case K8s => EgressK8sStep(c, k, source, key, target, conn);
        case CIDRs => EgressCIDRStep(c, k, source, key, target, conn);
        case Definitions => EgressDefinitionStep(c, k, source, key, target, conn);
      }
    case LiteralStep(k, source, key, lit) =>
      EgressLiteralStep(c, k, source, key, lit, conn);
  }

  lemma RunAdmits(p: Pass, steps: seq<Step>, d: Direction, conn: Connection)
    requires Run(p, steps).Ok?
    ensures SomeAdmits(Run(p, steps).value, p.ctx.pkg.namespace, d, conn) <==> exists s :: s in steps && StepAdmits(p, s, d, conn)
  {
    hide Run, Emit, Admits;
    var out, ns := Run(p, steps).value, p.ctx.pkg.namespace;
    if SomeAdmits(out, ns, d, conn) {
      var m :| m in out && Admits(m, ns, d, conn);
      RunMembers(p, steps, m);
      var s :| s in steps && Emits(p, s, m);
      assert StepAdmits(p, s, d, conn);
    }
    if s :| s in steps && StepAdmits(p, s, d, conn) {
      var m :| m in Emit(p, s).value && Admits(m, ns, d, conn);
      assert Emits(p, s, m);
      RunMembers(p, steps, m);
    }
  }

  /** The egress policies admit exactly the union of the meanings of the enabled egress entries. */
  lemma EgressCompiled(c: Ctx, entries: map<string, Local>, conn: Connection)
    requires conn.Valid()
    requires forall s :: InSpec(entries, s) ==> EgressFits(s)
    requires Run(Pass(EgressNetpols, c), AllSteps(entries)).Ok?
    ensures SomeAdmits(Run(Pass(EgressNetpols, c), AllSteps(entries)).value, c.pkg.namespace, Egress, conn)
       <==> exists s :: InSpec(entries, s) && EgressMeans(c, s, conn)
  {
    hide Run, Emit, AllSteps, InSpec, EgressMeans, EgressFits, SomeAdmits, StepAdmits;
    var p, steps := Pass(EgressNetpols, c), AllSteps(entries);
    RunAdmits(p, steps, Egress, conn);
    RunOk(p, steps);
    forall s ensures s in steps <==> InSpec(entries, s) {
      StepsAreEntries(entries, s);
    }
    forall s | s in steps ensures StepAdmits(p, s, Egress, conn) <==> EgressMeans(c, s, conn) {
      EgressStep(c, s, conn);
    }
  }

  // ---- ingress -----------------------------------------------------------

  lemma IngressK8sStep(c: Ctx, k: string, source: Source, key: string, target: Target, conn: Connection)
    requires conn.Valid() && ParseIngressLocalKey(k).Ok? && ParseIngressRemoteKey(key).Ok?
    requires IngressFits(EntryStep(K8s, k, source, key, target))
    ensures var s := EntryStep(K8s, k, source, key, target);
            StepAdmits(Pass(IngressNetpols, c), s, Ingress, conn) <==> IngressMeans(c, s, conn)
  {
    hide ParseIngressLocalKey, ParseIngressRemoteKey, Names.IngressK8sName, NetpolPorts, SomeAdmits, Admits, Untruncated, NetpolLabels, RemotePeer;
    var local, r := ParseIngressLocalKey(k).value, ParseIngressRemoteKey(key).value;
    var rule := Rule([RemotePeer(r, target)], LocalPorts(local));
    var meta := MergeShorthandMetadata(source.metadata, target.metadata);
    var notes := map[LOCAL_KEY := local.pod, REMOTE_KEY := key];
    NetpolAdmits(c, Ingress, Names.IngressK8sName(local, r), notes, ByLabels(DestinationLabels(local, source)), [rule], meta, conn);
    OneAdmits(ApplyShorthandMetadata(BuildIngressK8s(c, local, source, key, r, target), meta), c.pkg.namespace, Ingress, conn);
    OneRule(rule, c.pkg.namespace, Ingress, conn);
    RemoteSelected(r, target, c.pkg.namespace, conn.src);
    PortsOfKey(local.protocol, local.ports, local.hasRange, conn);
    if conn.dst.Pod? {
      DestinationSelected(local, source, conn.dst.labels);
    }
    hide DestinationLabels, IsRemote, PeersMatch, PortsMatch, PortsMean, MergeShorthandMetadata, ApplyShorthandMetadata;
  }

  lemma IngressCIDRStep(c: Ctx, k: string, source: Source, key: string, target: Target, conn: Connection)
    requires conn.Valid() && ParseIngressLocalKey(k).Ok? && ParseIngressCIDRKey(key).Ok?
    requires IngressFits(EntryStep(CIDRs, k, source, key, target))
    ensures var s := EntryStep(CIDRs, k, source, key, target);
            StepAdmits(Pass(IngressNetpols, c), s, Ingress, conn) <==> IngressMeans(c, s, conn)
  {
    hide ParseIngressLocalKey, IsCIDRText, Names.IngressCIDRName, NetpolPorts, SomeAdmits, Admits, Untruncated, NetpolLabels, CIDRPeer;
    hide DestinationLabels, PeersMatch, PortsMatch, PortsMean, MergeShorthandMetadata, ApplyShorthandMetadata, Cidr.BlockAdmits, RuleAdmits;
    var local, r := ParseIngressLocalKey(k).value, ParseIngressCIDRKey(key).value;
    var rule := Rule([CIDRPeer(r.cidr, [])], LocalPorts(local));
    var meta := MergeShorthandMetadata(source.metadata, target.metadata);
    var notes := map[LOCAL_KEY := local.pod, REMOTE_KEY := key];
    NetpolAdmits(c, Ingress, Names.IngressCIDRName(local, r.cidr), notes, ByLabels(DestinationLabels(local, source)), [rule], meta, conn);
    OneAdmits(ApplyShorthandMetadata(BuildIngressCIDR(c, local, source, key, r), meta), c.pkg.namespace, Ingress, conn);
    OneRule(rule, c.pkg.namespace, Ingress, conn);
    BlockSelected(r.cidr, [], c.pkg.namespace, conn.src);
    PortsOfKey(local.protocol, local.ports, local.hasRange, conn);
    if conn.dst.Pod? {
      DestinationSelected(local, source, conn.dst.labels);
    }
  }

  lemma IngressDefinitionStep(c: Ctx, k: string, source: Source, key: string, target: Target, conn: Connection)
    requires conn.Valid() && ParseIngressLocalKey(k).Ok? && ResolveIngressDefinition(c, key).Ok?
    requires IngressFits(EntryStep(Definitions, k, source, key, target))
    ensures var s := EntryStep(Definitions, k, source, key, target);
            StepAdmits(Pass(IngressNetpols, c), s, Ingress, conn) <==> IngressMeans(c, s, conn)
  {
    hide ParseIngressLocalKey, ResolveIngressDefinition, NetpolPorts, SomeAdmits, Admits, Untruncated, NetpolLabels,
      Text.ToLower, Names.IngressHead, Names.LocalPortSegment, PeersMatch, PortsMatch, PortsMean, DefinitionPeers, DefinitionPorts;
    ResolvedMeans(c, Ingress, key, conn.src, conn);
    var local, def := ParseIngressLocalKey(k).value, ResolveIngressDefinition(c, key).value;
    var rule := Rule(def.peers, if local.ports != [] then LocalPorts(local) else def.ports);
    var meta := MergeShorthandMetadata(source.metadata, target.metadata);
    NetpolAdmits(c, Ingress, Names.IngressHead(local) + Names.LocalPortSegment(local) + "-from-" + Text.ToLower(key),
                 map[LOCAL_KEY := local.pod, FROM_DEFINITION := key], ByLabels(DestinationLabels(local, source)), [rule], meta, conn);
    OneAdmits(ApplyShorthandMetadata(BuildIngressDefinition(c, local, source, key, def), meta), c.pkg.namespace, Ingress, conn);
    OneRule(rule, c.pkg.namespace, Ingress, conn);
    PortsOfKey(local.protocol, local.ports, local.hasRange, conn);
    if conn.dst.Pod? {
      DestinationSelected(local, source, conn.dst.labels);
    }
    hide DestinationLabels, MergeShorthandMetadata, ApplyShorthandMetadata;
  }

  lemma IngressLiteralStep(c: Ctx, k: string, source: Source, key: string, lit: Literal, conn: Connection)
    requires ParseIngressLocalKey(k).Ok? && Emit(Pass(IngressNetpols, c), LiteralStep(k, source, key, lit)).Ok?
    ensures var s := LiteralStep(k, source, key, lit);
            StepAdmits(Pass(IngressNetpols, c), s, Ingress, conn) <==> IngressMeans(c, s, conn)
  {
    hide ParseIngressLocalKey, SomeAdmits, Admits, NetpolLabels, Text.ToLower, Names.IngressHead, RuleAdmits, Text.IsName;
    var local := ParseIngressLocalKey(k).value;
    var meta := MergeShorthandMetadata(source.metadata, lit.metadata);
    NetpolAdmits(c, Ingress, Names.IngressHead(local) + "-from-" + Text.ToLower(key),
                 map[LOCAL_KEY := local.pod, REMOTE_KEY := key, FROM_LITERAL := lit.yaml],
                 ByLabels(DestinationLabels(local, source)), lit.rules.value, meta, conn);
    OneAdmits(ApplyShorthandMetadata(BuildIngressLiteral(c, local, source, key, lit.yaml, lit.rules.value), meta), c.pkg.namespace, Ingress, conn);
    if conn.dst.Pod? {
      DestinationSelected(local, source, conn.dst.labels);
    }
    hide DestinationLabels, MergeShorthandMetadata, ApplyShorthandMetadata;
  }

  lemma IngressStep(c: Ctx, s: Step, conn: Connection)
    requires conn.Valid() && IngressFits(s) && Emit(Pass(IngressNetpols, c), s).Ok?
    ensures StepAdmits(Pass(IngressNetpols, c), s, Ingress, conn) <==> IngressMeans(c, s, conn)
  {
    hide ParseIngressLocalKey, ParseIngressRemoteKey;
    match s
    case LocalStep(_, _) =>
      assert Emit(Pass(IngressNetpols, c), s) == Ok([]);
    case EntryStep(f, k, source, key, target) =>
      match f {
        case K8s => IngressK8sStep(c, k, source, key, target, conn);
        case CIDRs => IngressCIDRStep(c, k, source, key, target, conn);
        case Definitions => IngressDefinitionStep(c, k, source, key, target, conn);
      }
    case LiteralStep(k, source, key, lit) =>
      IngressLiteralStep(c, k, source, key, lit, conn);
  }

  /** The ingress policies admit exactly the union of the meanings of the enabled ingress entries. */
  lemma IngressCompiled(c: Ctx, entries: map<string, Local>, conn: Connection)
    requires conn.Valid()
    requires forall s :: InSpec(entries, s) ==> IngressFits(s)
    requires Run(Pass(IngressNetpols, c), AllSteps(entries)).Ok?
    ensures SomeAdmits(Run(Pass(IngressNetpols, c), AllSteps(entries)).value, c.pkg.namespace, Ingress, conn)
       <==> exists s :: InSpec(entries, s) && IngressMeans(c, s, conn)
  {
    hide Run, Emit, AllSteps, InSpec, IngressMeans, IngressFits, SomeAdmits, StepAdmits;
    var p, steps := Pass(IngressNetpols, c), AllSteps(entries);
    RunAdmits(p, steps, Ingress, conn);
    RunOk(p, steps);
    forall s ensures s in steps <==> InSpec(entries, s) {
      StepsAreEntries(entries, s);
    }
    forall s | s in steps ensures StepAdmits(p, s, Ingress, conn) <==> IngressMeans(c, s, conn) {
      IngressStep(c, s, conn);
    }
  }

  // ---- structured keys ---------------------------------------------------

  /** For an entry whose key is printed from a structured key, the meaning is that of the structured key. */
  lemma PrintedEgressMeans(c: Ctx, k: string, source: Source, r: K8sRemote, target: Target, conn: Connection)
    requires G.ValidEgress(r)
    ensures EgressMeans(c, EntryStep(K8s, k, source, G.PrintEgress(r), target), conn) <==>
            && IsSource(c.pkg.namespace, k, source, conn.src)
            && IsRemote(r, target, conn.dst)
            && PortsMean(r.protocol, r.ports, r.hasRange, conn)
  {
    hide ParseEgressRemoteKey, G.PrintEgress, IsSource, IsRemote, PortsMean;
    G.EgressRoundTrip(r);
  }

  lemma PrintedCIDRMeans(c: Ctx, k: string, source: Source, r: CIDRKey, target: Target, conn: Connection)
    requires G.ValidCIDR(r)
    ensures EgressMeans(c, EntryStep(CIDRs, k, source, G.PrintCIDR(r), target), conn) <==>
            && IsSource(c.pkg.namespace, k, source, conn.src)
            && EgressAddress(c.spec.egress, r.cidr, conn.dst.addr)
            && PortsMean(r.protocol, r.ports, r.hasRange, conn)
  {
    hide ParseEgressCIDRKey, G.PrintCIDR, IsSource, EgressAddress, PortsMean;
    G.CIDRRoundTrip(r);
  }

  lemma PrintedIngressMeans(c: Ctx, local: LocalKey, source: Source, r: K8sRemote, target: Target, conn: Connection)
    requires G.ValidLocal(local) && G.ValidIngress(r)
    ensures IngressMeans(c, EntryStep(K8s, G.PrintLocal(local), source, G.PrintIngress(r), target), conn) <==>
            && IsDestination(c.pkg.namespace, local, source, conn.dst)
            && IsRemote(r, target, conn.src)
            && PortsMean(local.protocol, local.ports, local.hasRange, conn)
  {
    hide ParseIngressLocalKey, ParseIngressRemoteKey, G.PrintLocal, G.PrintIngress, IsDestination, IsRemote, PortsMean;
    G.LocalRoundTrip(local);
    G.IngressRoundTrip(r);
  }

  // ---- protocols ---------------------------------------------------------

  /** An egress key with ports opens them for the protocol its text names and for no other: UDP after `udp://`, else
      TCP. */
  lemma EgressProtocol(c: Ctx, k: string, source: Source, key: string, target: Target, conn: Connection)
    requires ParseEgressRemoteKey(key).Ok? && ParseEgressRemoteKey(key).value.ports != []
    requires StepAdmits(Pass(EgressNetpols, c), EntryStep(K8s, k, source, key, target), Egress, conn)
    ensures conn.protocol == if "udp://" <= key then "UDP" else "TCP"
  {
    hide ParseEgressRemoteKey, Names.EgressK8sName, NetpolPorts, SomeAdmits, Admits, NetpolLabels, RemotePeer, SourceSelector,
      MergeShorthandMetadata, ApplyShorthandMetadata, PeersMatch, PortsMatch, Selector.Selects;
    var r := ParseEgressRemoteKey(key).value;
    var rule := Rule([RemotePeer(r, target)], NetpolPorts(r.protocol, r.ports, r.hasRange));
    var meta := MergeShorthandMetadata(source.metadata, target.metadata);
    var notes := map[LOCAL_KEY := k, REMOTE_KEY := key];
    NetpolAdmits(c, Egress, Names.EgressK8sName(k, r), notes, SourceSelector(k, source), [rule], meta, conn);
    OneAdmits(ApplyShorthandMetadata(BuildEgressK8s(c, k, source, key, r, target), meta), c.pkg.namespace, Egress, conn);
    OneRule(rule, c.pkg.namespace, Egress, conn);
    ProtocolMatters(r.protocol, r.ports, r.hasRange, conn);
    G.EgressScheme(key);
  }

  lemma CIDRProtocol(c: Ctx, k: string, source: Source, key: string, target: Target, conn: Connection)
    requires ParseEgressCIDRKey(key).Ok? && ParseEgressCIDRKey(key).value.ports != []
    requires StepAdmits(Pass(EgressNetpols, c), EntryStep(CIDRs, k, source, key, target), Egress, conn)
    ensures conn.protocol == if "udp://" <= key then "UDP" else "TCP"
  {
    hide ParseEgressCIDRKey, Names.EgressCIDRName, NetpolPorts, SomeAdmits, Admits, NetpolLabels, CIDRPeer, SourceSelector, ExcludeCIDRs,
      MergeShorthandMetadata, ApplyShorthandMetadata, PeersMatch, PortsMatch, Selector.Selects, Cidr.Exclusions;
    var r := ParseEgressCIDRKey(key).value;
    var except := Cidr.Exclusions(r.cidr, ExcludeCIDRs(c.spec));
    var rule := Rule([CIDRPeer(r.cidr, except)], NetpolPorts(r.protocol, r.ports, r.hasRange));
    var meta := MergeShorthandMetadata(source.metadata, target.metadata);
    var notes := map[LOCAL_KEY := k, REMOTE_KEY := key];
    NetpolAdmits(c, Egress, Names.EgressCIDRName(k, r), notes, SourceSelector(k, source), [rule], meta, conn);
    OneAdmits(ApplyShorthandMetadata(BuildEgressCIDR(c, k, source, key, r, except), meta), c.pkg.namespace, Egress, conn);
    OneRule(rule, c.pkg.namespace, Egress, conn);
    ProtocolMatters(r.protocol, r.ports, r.hasRange, conn);
    G.CIDRScheme(key);
  }

  /** The same for the ports of a local ingress key. */
  lemma IngressProtocol(c: Ctx, k: string, source: Source, key: string, target: Target, conn: Connection)
    requires ParseIngressLocalKey(k).Ok? && ParseIngressLocalKey(k).value.ports != [] && ParseIngressRemoteKey(key).Ok?
    requires StepAdmits(Pass(IngressNetpols, c), EntryStep(K8s, k, source, key, target), Ingress, conn)
    ensures conn.protocol == if "udp://" <= k then "UDP" else "TCP"
  {
    hide ParseIngressLocalKey, ParseIngressRemoteKey, Names.IngressK8sName, NetpolPorts, SomeAdmits, Admits, NetpolLabels, RemotePeer,
      DestinationLabels, MergeShorthandMetadata, ApplyShorthandMetadata, PeersMatch, PortsMatch, Selector.Selects;
    var local, r := ParseIngressLocalKey(k).value, ParseIngressRemoteKey(key).value;
    var rule := Rule([RemotePeer(r, target)], LocalPorts(local));
    var meta := MergeShorthandMetadata(source.metadata, target.metadata);
    var notes := map[LOCAL_KEY := local.pod, REMOTE_KEY := key];
    NetpolAdmits(c, Ingress, Names.IngressK8sName(local, r), notes, ByLabels(DestinationLabels(local, source)), [rule], meta, conn);
    OneAdmits(ApplyShorthandMetadata(BuildIngressK8s(c, local, source, key, r, target), meta), c.pkg.namespace, Ingress, conn);
    OneRule(rule, c.pkg.namespace, Ingress, conn);
    ProtocolMatters(local.protocol, local.ports, local.hasRange, conn);
    G.LocalScheme(k);
  }

  // ---- exclusions --------------------------------------------------------

  lemma MetadataAddress()
    ensures Cidr.ParseCIDR("169.254.169.254/32") == Some(Cidr.Block(2852039166, 32))
  {
    var parts: seq<nat>, mask := [169, 254, 169, 254], "32";
    ThreeDigits(1, 6, 9);
    ThreeDigits(2, 5, 4);
    TwoDigits(3, 2);
    Text.DecimalSnoc("3", '2');
    Text.OneDigitText('3');
    Cidr.CIDRText(parts, mask);
    MetadataText();
  }

  lemma TwoDigits(a: nat, b: nat)
    requires 0 < a < 10 && b < 10
    ensures Text.Itoa(10 * a + b) == [Text.DigitChar(a), Text.DigitChar(b)]
  {
    Text.DigitsStep(a, b);
    assert Text.Digits(a) == [Text.DigitChar(a)];
  }

  lemma ThreeDigits(a: nat, b: nat, d: nat)
    requires 0 < a < 10 && b < 10 && d < 10
    ensures Text.Itoa(100 * a + 10 * b + d) == [Text.DigitChar(a), Text.DigitChar(b), Text.DigitChar(d)]
  {
    TwoDigits(a, b);
    Text.DigitsStep(10 * a + b, d);
  }

  lemma OctetTexts()
    ensures Text.Itoa(169) == "169" && Text.Itoa(254) == "254"
  {
    ThreeDigits(1, 6, 9);
    ThreeDigits(2, 5, 4);
  }

  lemma MetadataText()
    ensures Cidr.PrintAddr([169, 254, 169, 254]) + ['/'] + "32" == "169.254.169.254/32"
  {
    hide Text.Itoa, Text.Join;
    OctetTexts();
    FourJoined("169", "254", "169", "254");
    var tail := "169" + ['.'] + "254";
    assert tail == "169.254";
    assert "254" + ['.'] + tail == "254.169.254";
  }

  lemma FourJoined(a: string, b: string, c: string, d: string)
    ensures Text.Join([a, b, c, d], '.') == a + ['.'] + (b + ['.'] + (c + ['.'] + d))
  {
    JoinStep(a, [b, c, d]);
    JoinStep(b, [c, d]);
    JoinStep(c, [d]);
    assert Text.Join([d], '.') == d;
    hide Text.Join;
    assert [a] + [b, c, d] == [a, b, c, d] && [b] + [c, d] == [b, c, d] && [c] + [d] == [c, d];
  }

  lemma JoinStep(first: string, rest: seq<string>)
    requires rest != []
    ensures Text.Join([first] + rest, '.') == first + ['.'] + Text.Join(rest, '.')
  {
    assert ([first] + rest)[1..] == rest;
  }

  /** Without a list of exclusions no egress CIDR entry opens the instance metadata service, 169.254.169.254, unless its
      CIDR is the text of that very address. */
  lemma MetadataServiceExcluded(c: Ctx, k: string, source: Source, key: string, target: Target, conn: Connection)
    requires conn.Valid() && ParseEgressCIDRKey(key).Ok? && EgressFits(EntryStep(CIDRs, k, source, key, target))
    requires c.spec.egress.None? || c.spec.egress.value.excludeCIDRs.None?
    requires conn.dst.addr == 2852039166 && ParseEgressCIDRKey(key).value.cidr != "169.254.169.254/32"
    ensures !StepAdmits(Pass(EgressNetpols, c), EntryStep(CIDRs, k, source, key, target), Egress, conn)
  {
    hide ParseEgressCIDRKey, StepAdmits, EgressFits, PortsMean, IsSource, Cidr.ParseCIDR;
    EgressCIDRStep(c, k, source, key, target, conn);
    MetadataAddress();
    var cidr := ParseEgressCIDRKey(key).value.cidr;
    var text := "169.254.169.254/32";
    assert text in [text];
    if Reaches(cidr, [text], conn.dst.addr) {
      NotStrictlyInside(Cidr.ParseCIDR(cidr).value, conn.dst.addr);
      assert false;
    }
  }

  /** A block that holds an address is no strict subset of the address alone. */
  lemma NotStrictlyInside(b: Cidr.Block, x: nat)
    requires b.Valid() && x < Cidr.ADDRESSES && b.Contains(x)
    ensures Cidr.Block(x, 32).Contains(x) && !Cidr.StrictSubset(b, Cidr.Block(x, 32))
  {
    forall y: nat | y < Cidr.ADDRESSES ensures Cidr.Block(x, 32).Contains(y) <==> y == x {
      Cidr.ExtremeBlocks(x, y);
    }
    hide Cidr.Block.Contains;
  }

  /** An explicitly empty list switches exclusion off: the whole block is open. */
  lemma NoExclusions(c: Ctx, k: string, source: Source, key: string, target: Target, conn: Connection)
    requires conn.Valid() && ParseEgressCIDRKey(key).Ok? && EgressFits(EntryStep(CIDRs, k, source, key, target))
    requires c.spec.egress.Some? && c.spec.egress.value.excludeCIDRs == Some([])
    ensures var r := ParseEgressCIDRKey(key).value;
            StepAdmits(Pass(EgressNetpols, c), EntryStep(CIDRs, k, source, key, target), Egress, conn) <==>
            && IsSource(c.pkg.namespace, k, source, conn.src) && PortsMean(r.protocol, r.ports, r.hasRange, conn)
            && conn.dst.addr < Cidr.ADDRESSES && Cidr.ParseCIDR(r.cidr).Some? && Cidr.ParseCIDR(r.cidr).value.Contains(conn.dst.addr)
  {
    hide ParseEgressCIDRKey, StepAdmits, EgressFits, PortsMean, IsSource, Cidr.ParseCIDR;
    EgressCIDRStep(c, k, source, key, target, conn);
  }

  // ---- when a specification compiles -------------------------------------

  /** The first layer that declares the name does so readably. */
  predicate IsDefined(c: Ctx, d: Direction, name: string) {
    match LayerOf(c, d, name) case Written(raw) => raw.Definition? case BuiltIn => true case Nowhere => false
  }

  /** Nothing about this entry stops the egress expansion. */
  predicate EgressSound(c: Ctx, s: Step) {
    match s
    case LocalStep(_, local) => local.Decoded?
    case EntryStep(f, _, _, key, _) =>
      && (f == K8s ==> EgressRemotePattern(key) && G.NumbersFit(key))
      && (f == Definitions ==> IsDefined(c, Egress, key))
      && (f == CIDRs ==> EgressCIDRPattern(key) && G.NumbersFit(key))
    case LiteralStep(_, _, key, lit) => Text.IsName(key) && lit.rules.Some?
  }

  /** Nothing about this entry stops the ingress expansion; the key of a destination without peers is not even read. */
  predicate IngressSound(c: Ctx, s: Step) {
    match s
    case LocalStep(k, local) => local.Decoded? && (local.source.peers.Some? ==> IngressLocalPattern(k) && G.NumbersFit(k))
    case EntryStep(f, k, _, key, _) =>
      && IngressLocalPattern(k) && G.NumbersFit(k)
      && (f == K8s ==> IngressRemotePattern(key))
      && (f == Definitions ==> IsDefined(c, Ingress, key))
      && (f == CIDRs ==> IsCIDRText(key))
    case LiteralStep(k, _, key, lit) => IngressLocalPattern(k) && G.NumbersFit(k) && Text.IsName(key) && lit.rules.Some?
  }

  lemma EgressStepSucceeds(c: Ctx, s: Step)
    ensures Emit(Pass(EgressNetpols, c), s).Ok? <==> EgressSound(c, s)
  {
    hide ParseEgressRemoteKey, ParseEgressCIDRKey, EgressRemotePattern, EgressCIDRPattern, G.NumbersFit, ResolveEgressDefinition, LayerOf,
      ExceptOf, Netpol, ApplyShorthandMetadata, MergeShorthandMetadata, NetpolPorts, SourceSelector, RemotePeer, Text.IsName, Text.ToLower,
      Names.EgressK8sName, Names.EgressCIDRName;
    if s.EntryStep? {
      G.EgressAcceptedExactly(s.key);
      G.CIDRAcceptedExactly(s.key);
      ResolvesExactly(c, Egress, s.key);
    }
  }

  lemma IngressStepSucceeds(c: Ctx, s: Step)
    ensures Emit(Pass(IngressNetpols, c), s).Ok? <==> IngressSound(c, s)
  {
    hide ParseIngressLocalKey, IngressLocalPattern, IngressRemotePattern, IsCIDRText, G.NumbersFit, ResolveIngressDefinition, LayerOf,
      Netpol, ApplyShorthandMetadata, MergeShorthandMetadata, NetpolPorts, DestinationLabels, RemotePeer, Text.IsName, Text.ToLower, SplitPod,
      Names.IngressK8sName, Names.IngressCIDRName, Names.IngressHead, Names.LocalPortSegment;
    G.LocalAcceptedExactly(s.localKey);
    if s.EntryStep? {
      ResolvesExactly(c, Ingress, s.key);
    }
  }

  /** The egress entries compile exactly if none of them is in the way: malformed values, keys outside the grammar or with
      numbers that do not fit, names nothing defines, and unreadable rules are. */
  lemma EgressSucceeds(c: Ctx, entries: map<string, Local>)
    ensures Run(Pass(EgressNetpols, c), AllSteps(entries)).Ok? <==> forall s :: InSpec(entries, s) ==> EgressSound(c, s)
  {
    hide Run, Emit, AllSteps, InSpec, EgressSound;
    RunOk(Pass(EgressNetpols, c), AllSteps(entries));
    forall s ensures (s in AllSteps(entries) <==> InSpec(entries, s)) && (Emit(Pass(EgressNetpols, c), s).Ok? <==> EgressSound(c, s)) {
      StepsAreEntries(entries, s);
      EgressStepSucceeds(c, s);
    }
  }

  lemma IngressSucceeds(c: Ctx, entries: map<string, Local>)
    ensures Run(Pass(IngressNetpols, c), AllSteps(entries)).Ok? <==> forall s :: InSpec(entries, s) ==> IngressSound(c, s)
  {
    hide Run, Emit, AllSteps, InSpec, IngressSound;
    RunOk(Pass(IngressNetpols, c), AllSteps(entries));
    forall s ensures (s in AllSteps(entries) <==> InSpec(entries, s)) && (Emit(Pass(IngressNetpols, c), s).Ok? <==> IngressSound(c, s)) {
      StepsAreEntries(entries, s);
      IngressStepSucceeds(c, s);
    }
  }
}
