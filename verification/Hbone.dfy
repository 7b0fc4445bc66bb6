/** HBONE port injection: TCP/15008 is added to every rule that restricts ports and names pods or namespaces. */
module Hbone {
  import opened Common
  import opened Kube

  const HBONE_PORT := 15008
  const HBONE_LABEL := "ambient.istio.network-policies.bigbang.dev/hbone-injected"

  const HBONE_RULE: PortRule := PortRule(Some("TCP"), Some(Number(HBONE_PORT)), None)

  predicate IsSelectorPeer(p: Peer) { p.namespaceSelector.Some? || p.podSelector.Some? }

  predicate HasSelector(peers: seq<Peer>) { exists p :: p in peers && IsSelectorPeer(p) }

  /** An explicit TCP protocol with the numeric port; an end port is not looked at. */
  predicate IsHBone(p: PortRule) { p.protocol == Some("TCP") && p.port == Some(Number(HBONE_PORT)) }

  predicate HasHBone(ports: seq<PortRule>) { exists p :: p in ports && IsHBone(p) }

  predicate Gains(r: Rule) { HasSelector(r.peers) && r.ports != [] && !HasHBone(r.ports) }

  function Inject(r: Rule): Rule { if Gains(r) then Rule(r.peers, r.ports + [HBONE_RULE]) else r }

  function InjectAll(rules: seq<Rule>): (out: seq<Rule>)
    ensures |out| == |rules| && forall k :: 0 <= k < |rules| ==> out[k] == Inject(rules[k])
  {
    seq(|rules|, k requires 0 <= k < |rules| => Inject(rules[k]))
  }

  predicate SomeGains(rules: seq<Rule>) { exists r :: r in rules && Gains(r) }

  /** The pass on one object: only network policies change, and the label marks those that gained a port. */
  function InjectManifest(m: Manifest): Manifest {
    if !m.body.NetworkPolicy? then m
    else
      var s := m.body.spec;
      m.(body := NetworkPolicy(s.(egress := InjectAll(s.egress), ingress := InjectAll(s.ingress))),
         labels := if SomeGains(s.egress) || SomeGains(s.ingress) then m.labels[HBONE_LABEL := "true"] else m.labels)
  }

  // ---- what injection does to the admitted connections -------------------

  predicate IsTunnel(c: Connection) { c.protocol == "TCP" && c.port == 15008 }

  /** The rule names pods or namespaces, restricts ports and does not list TCP/15008 yet. */
  predicate LacksTunnel(r: Rule) {
    && (exists p :: p in r.peers && (p.namespaceSelector.Some? || p.podSelector.Some?))
    && r.ports != []
    && forall q :: q in r.ports ==> q.protocol != Some("TCP") || q.port != Some(Number(15008))
  }

  /** Injection appends TCP/15008 to the ports of exactly such rules, and changes nothing else. */
  lemma InjectExactly(r: Rule)
    ensures Inject(r).peers == r.peers
    ensures Inject(r).ports == if LacksTunnel(r) then r.ports + [PortRule(Some("TCP"), Some(Number(15008)), None)] else r.ports
  {
    assert HasHBone(r.ports) <==> exists q :: q in r.ports && q.protocol == Some("TCP") && q.port == Some(Number(15008));
  }

  /** What the pass does to an object: nothing unless it is a network policy; there only the ports of its rules change,
      rule by rule, and the marker label is set exactly if one of them did. */
  lemma InjectedObject(m: Manifest)
    ensures var o := InjectManifest(m);
            && (!m.body.NetworkPolicy? ==> o == m)
            && o.namespace == m.namespace && o.name == m.name && o.annotations == m.annotations && o.owners == m.owners
            && (m.body.NetworkPolicy? ==>
                  && o.body.NetworkPolicy?
                  && var s, t := m.body.spec, o.body.spec;
                  && t.podSelector == s.podSelector && t.types == s.types
                  && |t.egress| == |s.egress| && (forall k :: 0 <= k < |s.egress| ==> t.egress[k] == Inject(s.egress[k]))
                  && |t.ingress| == |s.ingress| && (forall k :: 0 <= k < |s.ingress| ==> t.ingress[k] == Inject(s.ingress[k]))
                  && o.labels == if (exists r :: r in s.egress + s.ingress && LacksTunnel(r))
                                 then m.labels["ambient.istio.network-policies.bigbang.dev/hbone-injected" := "true"] else m.labels)
  {
    if m.body.NetworkPolicy? {
      var s := m.body.spec;
      forall r ensures LacksTunnel(r) <==> Gains(r) {
        SameGain(r);
      }
      hide LacksTunnel, Gains, Inject;
      assert (exists r :: r in s.egress + s.ingress && LacksTunnel(r)) <==> SomeGains(s.egress) || SomeGains(s.ingress);
    }
  }

  lemma SameGain(r: Rule)
    ensures LacksTunnel(r) <==> Gains(r)
  {
    assert HasHBone(r.ports) <==> exists q :: q in r.ports && q.protocol == Some("TCP") && q.port == Some(Number(15008));
  }

  /** A rule that gains the port admits, besides everything it admitted, exactly the tunnel connections of its
      own peers; every other rule admits what it admitted. */
  lemma InjectedRule(r: Rule, ns: string, d: Direction, c: Connection)
    ensures RuleAdmits(Inject(r), ns, d, c) <==>
            RuleAdmits(r, ns, d, c) || (Gains(r) && IsTunnel(c) && PeersMatch(r.peers, ns, c.Remote(d)))
  {
    hide PeersMatch, HasSelector, HasHBone;
    if Gains(r) {
      var ports := r.ports + [HBONE_RULE];
      assert forall p :: p in ports <==> p in r.ports || p == HBONE_RULE;
      assert PortMatches(HBONE_RULE, c) <==> IsTunnel(c);
    }
  }

  /** A policy loses no connection and gains exactly the tunnels of its port-gaining rules. */
  lemma InjectedPolicy(m: Manifest, ns: string, d: Direction, c: Connection)
    requires m.body.NetworkPolicy?
    ensures Isolates(InjectManifest(m), ns, d, c) <==> Isolates(m, ns, d, c)
    ensures Admits(InjectManifest(m), ns, d, c) <==>
            Admits(m, ns, d, c) ||
            (Isolates(m, ns, d, c) && IsTunnel(c) &&
             exists r :: r in Rules(m.body.spec, d) && Gains(r) && PeersMatch(r.peers, ns, c.Remote(d)))
  {
    var s := m.body.spec;
    var s' := InjectManifest(m).body.spec;
    SameEmptiness(s, s');
    var rules, rules' := Rules(s, d), Rules(s', d);
    assert rules' == InjectAll(rules);
    InjectedRules(rules, ns, d, c);
    hide RuleAdmits, Gains, InjectAll, PeersMatch, SomeGains;
  }

  lemma SameEmptiness(s: PolicySpec, s': PolicySpec)
    requires s'.types == s.types && |s'.egress| == |s.egress|
    ensures forall d :: Restricts(s, d) <==> Restricts(s', d)
  {
  }

  lemma InjectedRules(rules: seq<Rule>, ns: string, d: Direction, c: Connection)
    ensures (exists r :: r in InjectAll(rules) && RuleAdmits(r, ns, d, c)) <==>
            || (exists r :: r in rules && RuleAdmits(r, ns, d, c))
            || (IsTunnel(c) && exists r :: r in rules && Gains(r) && PeersMatch(r.peers, ns, c.Remote(d)))
  {
    hide RuleAdmits, Gains, PeersMatch, Inject;
    var rules' := InjectAll(rules);
    forall k | 0 <= k < |rules|
      ensures RuleAdmits(rules'[k], ns, d, c) <==>
              RuleAdmits(rules[k], ns, d, c) || (Gains(rules[k]) && IsTunnel(c) && PeersMatch(rules[k].peers, ns, c.Remote(d)))
    {
      InjectedRule(rules[k], ns, d, c);
    }
    if r :| r in rules && RuleAdmits(r, ns, d, c) {
      var k :| 0 <= k < |rules| && rules[k] == r;
      assert rules'[k] in rules';
    }
    if r :| IsTunnel(c) && r in rules && Gains(r) && PeersMatch(r.peers, ns, c.Remote(d)) {
      var k :| 0 <= k < |rules| && rules[k] == r;
      assert rules'[k] in rules';
    }
    if r :| r in rules' && RuleAdmits(r, ns, d, c) {
      var k :| 0 <= k < |rules'| && rules'[k] == r;
      assert rules[k] in rules;
    }
  }

  /** After injection the tunnel is open for a rule with selector peers exactly when the rule did not look as if it had
      the port already, or one of its own ports admits the tunnel. */
  lemma TunnelOpen(r: Rule, ns: string, d: Direction, c: Connection)
    requires HasSelector(r.peers) && IsTunnel(c) && PeersMatch(r.peers, ns, c.Remote(d))
    ensures RuleAdmits(Inject(r), ns, d, c) <==> !HasHBone(r.ports) || exists p :: p in r.ports && PortMatches(p, c)
  {
    hide PeersMatch, HasSelector;
    InjectedRule(r, ns, d, c);
  }

  /** The one way to fail: a range that starts at 15008 and runs backwards is taken for the port. */
  lemma TunnelClosed(peers: seq<Peer>, ns: string, d: Direction, c: Connection)
    requires HasSelector(peers) && IsTunnel(c) && PeersMatch(peers, ns, c.Remote(d))
    ensures var backwards := PortRule(Some("TCP"), Some(Number(HBONE_PORT)), Some(HBONE_PORT - 1));
            !RuleAdmits(Inject(Rule(peers, [backwards])), ns, d, c)
  {
    var backwards := PortRule(Some("TCP"), Some(Number(HBONE_PORT)), Some(HBONE_PORT - 1));
    assert backwards in [backwards] && IsHBone(backwards) && !PortMatches(backwards, c);
    TunnelOpen(Rule(peers, [backwards]), ns, d, c);
    hide PeersMatch, HasSelector, PortMatches;
  }

  /** Injecting twice is injecting once. */
  lemma InjectTwice(m: Manifest)
    ensures InjectManifest(InjectManifest(m)) == InjectManifest(m)
  {
    if m.body.NetworkPolicy? {
      InjectAllTwice(m.body.spec.egress);
      InjectAllTwice(m.body.spec.ingress);
      hide SomeGains, InjectAll;
    }
  }

  lemma InjectAllTwice(rules: seq<Rule>)
    ensures InjectAll(InjectAll(rules)) == InjectAll(rules) && !SomeGains(InjectAll(rules))
  {
    hide Inject, Gains;
    forall k | 0 <= k < |rules| ensures !Gains(InjectAll(rules)[k]) && Inject(InjectAll(rules)[k]) == InjectAll(rules)[k] {
      GainsOnce(rules[k]);
    }
  }

  lemma GainsOnce(r: Rule)
    ensures !Gains(Inject(r)) && Inject(Inject(r)) == Inject(r)
  {
    hide HasSelector;
    if Gains(r) {
      assert IsHBone(HBONE_RULE) && HBONE_RULE in Inject(r).ports;
    }
  }
}
