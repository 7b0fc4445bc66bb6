/** Network policies and authorization policies of one ingress specification go together: the authorization pass
    succeeds whenever the network policy pass does, emits one policy per k8s and cidr entry in the same order, and
    each pair agrees on the pods, the name and the ports it speaks about. */
module Lockstep {
  import opened Common
  import opened Text
  import opened Shorthand
  import opened Kube
  import opened Spec
  import opened Steps
  import opened Builders
  import opened Passes
  import opened Ports
  import Names
  import G = Grammar

  // ---- order -------------------------------------------------------------

  predicate IsEntry(s: Step) { !s.LocalStep? }

  function Entries(steps: seq<Step>): (r: seq<Step>)
    ensures forall s :: s in r <==> s in steps && IsEntry(s)
  {
    if steps == [] then []
    else
      var init, last := steps[..|steps| - 1], steps[|steps| - 1];
      assert steps == init + [last];
      Entries(init) + if IsEntry(last) then [last] else []
  }

  function Authorizing(steps: seq<Step>): (r: seq<Step>)
    ensures forall s :: s in r <==> s in steps && Authorizes(s)
  {
    if steps == [] then []
    else
      var init, last := steps[..|steps| - 1], steps[|steps| - 1];
      assert steps == init + [last];
      Authorizing(init) + if Authorizes(last) then [last] else []
  }

  ghost predicate EmitsOne(p: Pass, s: Step) { Emit(p, s).Ok? && |Emit(p, s).value| == 1 }

  ghost function Sole(p: Pass, s: Step): Manifest
    requires EmitsOne(p, s)
  {
    Emit(p, s).value[0]
  }

  lemma NetpolEmits(c: Ctx, s: Step)
    requires Emit(Pass(IngressNetpols, c), s).Ok?
    ensures if IsEntry(s) then EmitsOne(Pass(IngressNetpols, c), s) else Emit(Pass(IngressNetpols, c), s) == Ok([])
  {
    hide ParseIngressLocalKey, ParseIngressRemoteKey, ResolveIngressDefinition, ApplyShorthandMetadata, IsCIDRText, IsName;
  }

  lemma AuthzEmits(c: Ctx, s: Step)
    requires Emit(Pass(IngressNetpols, c), s).Ok?
    ensures if Authorizes(s) then EmitsOne(Pass(IngressAuthz, c), s) else Emit(Pass(IngressAuthz, c), s) == Ok([])
  {
    hide ParseIngressLocalKey, ParseIngressRemoteKey, ResolveIngressDefinition, ApplyShorthandMetadata, IsCIDRText, IsName;
  }

  /** The outputs of a pass line up with the steps that emit. */
  ghost predicate LinedUp(p: Pass, emitting: seq<Step>, out: seq<Manifest>) {
    |out| == |emitting| && forall i :: 0 <= i < |out| ==> EmitsOne(p, emitting[i]) && out[i] == Sole(p, emitting[i])
  }

  /** If the network policies of an ingress specification compile, so do its authorization policies, one per k8s
      and cidr entry, and both lists follow the order of the entries. */
  lemma {:induction false} InOrder(c: Ctx, steps: seq<Step>)
    requires Run(Pass(IngressNetpols, c), steps).Ok?
    ensures Run(Pass(IngressAuthz, c), steps).Ok?
    ensures LinedUp(Pass(IngressNetpols, c), Entries(steps), Run(Pass(IngressNetpols, c), steps).value)
    ensures LinedUp(Pass(IngressAuthz, c), Authorizing(steps), Run(Pass(IngressAuthz, c), steps).value)
    ensures Authorizing(Entries(steps)) == Authorizing(steps)
    decreases |steps|
  {
    hide Emit, LinedUp, EmitsOne;
    LinedUpEmpty(Pass(IngressNetpols, c));
    LinedUpEmpty(Pass(IngressAuthz, c));
    if steps != [] {
      var init, last := steps[..|steps| - 1], steps[|steps| - 1];
      InOrder(c, init);
      NetpolEmits(c, last);
      AuthzEmits(c, last);
      LinedUpSnoc(Pass(IngressNetpols, c), Entries(init), Run(Pass(IngressNetpols, c), init).value, IsEntry(last), last);
      LinedUpSnoc(Pass(IngressAuthz, c), Authorizing(init), Run(Pass(IngressAuthz, c), init).value, Authorizes(last), last);
      FilterSnoc(Entries(init), last);
      if !IsEntry(last) {
        assert Entries(steps) == Entries(init) && !Authorizes(last);
      } else {
        assert Entries(steps) == Entries(init) + [last];
      }
    }
  }

  lemma LinedUpEmpty(p: Pass)
    ensures LinedUp(p, [], [])
  {
  }

  lemma LinedUpSnoc(p: Pass, emitting: seq<Step>, out: seq<Manifest>, emits: bool, s: Step)
    requires LinedUp(p, emitting, out)
    requires if emits then EmitsOne(p, s) else Emit(p, s) == Ok([])
    ensures Emit(p, s).Ok?
    ensures LinedUp(p, emitting + (if emits then [s] else []), out + Emit(p, s).value)
  {
    hide Emit;
  }

  lemma FilterSnoc(steps: seq<Step>, s: Step)
    ensures Authorizing(steps + [s]) == Authorizing(steps) + if Authorizes(s) then [s] else []
  {
    assert (steps + [s])[..|steps|] == steps;
  }

  // ---- each pair ---------------------------------------------------------

  /** An authorization policy without a port list admits every port. */
  predicate AuthzAdmitsPort(ports: seq<string>, q: nat) { ports == [] || Itoa(q) in ports }

  /** When both policies admit the same ports: the cut-down range and the written-out range cover the same real
      ports, where a range in reverse order is written out as nothing and then restricts nothing. */
  predicate PortsInStep(local: LocalKey) {
    if local.hasRange && |local.ports| == 2 then
      var a, b := local.ports[0], local.ports[1];
      Span(Int32(a), Int32(b)) == if a <= b then Span(a, b) else Some((0, 65535))
    else Untruncated(local.ports, local.hasRange)
  }

  function LocalConnection(local: LocalKey, q: nat): Connection {
    Connection(Outside(0), Outside(0), ProtocolName(local.protocol), q, None)
  }

  ghost predicate SamePorts(local: LocalKey) {
    forall q: nat :: q <= 65535 ==> (PortsMatch(LocalPorts(local), LocalConnection(local, q)) <==> AuthzAdmitsPort(AuthzPorts(local), q))
  }

  /** The authorization policy's port list admits the ports of the network policy, for every port of the key's
      protocol, exactly when `PortsInStep`; ordered ranges and lists of real ports always are in step. */
  lemma PortsAgreeInStep(local: LocalKey)
    requires G.ValidLocal(local)
    ensures SamePorts(local) <==> PortsInStep(local)
  {
    hide Itoa, ItoaAll, CountUp;
    if local.hasRange && |local.ports| == 2 {
      assert local.ports[0] in local.ports;
      RangeInStep(local);
    } else {
      ListInStep(local);
    }
  }

  lemma RealPortsInStep(local: LocalKey)
    requires forall k :: 0 <= k < |local.ports| ==> 0 <= local.ports[k] <= 65535
    requires local.hasRange && |local.ports| == 2 ==> local.ports[0] <= local.ports[1]
    ensures PortsInStep(local)
  {
  }

  lemma RangeInStep(local: LocalKey)
    requires local.hasRange && |local.ports| == 2 && local.ports[0] >= 0
    ensures SamePorts(local) <==> PortsInStep(local)
  {
    var a, b := local.ports[0], local.ports[1];
    var cut := Span(Int32(a), Int32(b));
    var own := if a <= b then Span(a, b) else Some((0, 65535));
    forall q: nat | q <= 65535
      ensures PortsMatch(LocalPorts(local), LocalConnection(local, q)) <==> cut.Some? && cut.value.0 <= q <= cut.value.1
      ensures AuthzAdmitsPort(AuthzPorts(local), q) <==> own.Some? && own.value.0 <= q <= own.value.1
    {
      RangeAdmits(local, q);
      SpanMembers(Int32(a), Int32(b), q);
      SpanMembers(a, b, q);
    }
    hide LocalPorts, AuthzPorts, AuthzAdmitsPort, PortsMatch;
    if cut != own {
      var q := SpanWitness(Low(cut), High(cut), Low(own), High(own));
      assert !(PortsMatch(LocalPorts(local), LocalConnection(local, q)) <==> AuthzAdmitsPort(AuthzPorts(local), q));
    }
  }

  function Low(s: Option<(int, int)>): int { if s.Some? then s.value.0 else 1 }
  function High(s: Option<(int, int)>): int { if s.Some? then s.value.1 else 0 }

  lemma RangeAdmits(local: LocalKey, q: nat)
    requires local.hasRange && |local.ports| == 2 && local.ports[0] >= 0 && q <= 65535
    ensures PortsMatch(LocalPorts(local), LocalConnection(local, q)) <==> Int32(local.ports[0]) <= q <= Int32(local.ports[1])
    ensures AuthzAdmitsPort(AuthzPorts(local), q) <==> local.ports[0] > local.ports[1] || local.ports[0] <= q <= local.ports[1]
  {
    hide CountUp;
    var rules := LocalPorts(local);
    assert rules[0] in rules;
    var a, b := local.ports[0], local.ports[1];
    CountUpMembers(a, b, Itoa(q));
    CountUpMembers(a, b, Itoa(a));
    if n :| a <= n <= b && Itoa(q) == Itoa(n) {
      Names.ItoaInjective(q, n);
    }
    if a > b {
      CountUpEmpty(a, b);
    }
  }

  lemma CountUpEmpty(a: int, b: int)
    requires a > b
    ensures CountUp(a, b) == []
  {
  }

  lemma ListInStep(local: LocalKey)
    requires G.ValidLocal(local) && !(local.hasRange && |local.ports| == 2)
    ensures SamePorts(local) <==> PortsInStep(local)
  {
    forall q: nat | q <= 65535
      ensures AuthzAdmitsPort(AuthzPorts(local), q) <==> PortsMean(local.protocol, local.ports, local.hasRange, LocalConnection(local, q))
    {
      ListAdmits(local, q);
    }
    hide AuthzPorts, AuthzAdmitsPort, PortsMatch;
    PortsAgreeExactly(local.protocol, local.ports, local.hasRange);
    if !Untruncated(local.ports, local.hasRange) {
      var q := TruncatedPort(local);
    } else {
      forall q: nat | q <= 65535
        ensures PortsMatch(LocalPorts(local), LocalConnection(local, q)) <==> AuthzAdmitsPort(AuthzPorts(local), q)
      {
        PortsOfKey(local.protocol, local.ports, local.hasRange, LocalConnection(local, q));
      }
    }
  }

  lemma TruncatedPort(local: LocalKey) returns (q: nat)
    requires !(local.hasRange && |local.ports| == 2) && !Untruncated(local.ports, local.hasRange)
    ensures q <= 65535 && PortsMatch(LocalPorts(local), LocalConnection(local, q))
    ensures !PortsMean(local.protocol, local.ports, local.hasRange, LocalConnection(local, q))
  {
    var p :| p in local.ports && 0 <= Int32(p) <= 65535 && Int32(p) !in local.ports;
    q := Int32(p);
    var k :| 0 <= k < |local.ports| && local.ports[k] == p;
    var rules := LocalPorts(local);
    assert rules[k] in rules && PortMatches(rules[k], LocalConnection(local, q));
  }

  lemma ListAdmits(local: LocalKey, q: nat)
    requires G.ValidLocal(local) && !(local.hasRange && |local.ports| == 2)
    ensures AuthzAdmitsPort(AuthzPorts(local), q) <==> PortsMean(local.protocol, local.ports, local.hasRange, LocalConnection(local, q))
  {
    hide Itoa;
    var texts := ItoaAll(local.ports);
    if Itoa(q) in texts {
      var k :| 0 <= k < |texts| && texts[k] == Itoa(q);
      assert local.ports[k] in local.ports;
      Names.ItoaInjective(q, local.ports[k]);
    }
    if q as int in local.ports {
      var k :| 0 <= k < |local.ports| && local.ports[k] == q;
      assert texts[k] == Itoa(q);
    }
  }

  /** The two policies of one entry select the same pods with the port lists of the same local key; those of a
      cidr entry also share their name and their block. */
  lemma Companions(c: Ctx, s: Step)
    requires Authorizes(s) && Emit(Pass(IngressNetpols, c), s).Ok?
    ensures EmitsOne(Pass(IngressNetpols, c), s) && EmitsOne(Pass(IngressAuthz, c), s)
    ensures var np, ap := Sole(Pass(IngressNetpols, c), s), Sole(Pass(IngressAuthz, c), s);
            && np.body.NetworkPolicy? && ap.body.AuthorizationPolicy?
            && np.body.spec.podSelector == ByLabels(ap.body.authz.selector)
            && ParseIngressLocalKey(s.localKey).Ok?
            && |np.body.spec.ingress| == 1
            && np.body.spec.ingress[0].ports == LocalPorts(ParseIngressLocalKey(s.localKey).value)
            && ap.body.authz.ports == AuthzPorts(ParseIngressLocalKey(s.localKey).value)
            && (s.family == CIDRs ==>
                  && np.name == ap.name && ap.body.authz.caller == IPBlocks([s.key])
                  && np.body.spec.ingress[0].peers == [CIDRPeer(s.key, [])])
  {
    hide ParseIngressLocalKey, ParseIngressRemoteKey, IsCIDRText, NetpolPorts, AuthzPorts, NetpolLabels;
    if s.family == CIDRs {
      SameCIDRName(c, ParseIngressLocalKey(s.localKey).value, s.source, s.key, CIDRKey(s.key, TCP, [], false));
    }
  }

  lemma SameCIDRName(c: Ctx, local: LocalKey, source: Source, key: string, r: CIDRKey)
    ensures BuildAuthzCIDR(c, local, source, key, r).name == BuildIngressCIDR(c, local, source, key, r).name
  {
    hide Names.PortTail, Names.CIDRSegment, NetpolPorts, AuthzPorts, NetpolLabels;
  }
}
