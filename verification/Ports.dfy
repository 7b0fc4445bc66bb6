/** The ports of a generated rule: how a parsed port list becomes policy ports, and what they admit. */
module Ports {
  import opened Common
  import opened Shorthand
  import opened Kube

  function ProtocolName(p: Protocol): string { if p == UDP then "UDP" else "TCP" }

  /** Conversion to a signed 32-bit integer, which keeps the low 32 bits. */
  function Int32(n: int): (r: int)
    ensures -0x8000_0000 <= r < 0x8000_0000
    ensures -0x8000_0000 <= n < 0x8000_0000 ==> r == n
  {
    (n + 0x8000_0000) % 0x1_0000_0000 - 0x8000_0000
  }

  function OnePort(protocol: Protocol, p: int): PortRule {
    PortRule(Some(ProtocolName(protocol)), Some(Number(Int32(p))), None)
  }

  function NetpolPorts(protocol: Protocol, ports: seq<int>, hasRange: bool): (r: seq<PortRule>) {
    if hasRange && |ports| == 2 then
      [PortRule(Some(ProtocolName(protocol)), Some(Number(Int32(ports[0]))), Some(Int32(ports[1])))]
    else
      seq(|ports|, k requires 0 <= k < |ports| => OnePort(protocol, ports[k]))
  }

  method BuildNetpolPorts(protocol: Protocol, ports: seq<int>, hasRange: bool) returns (out: seq<PortRule>)
    ensures out == NetpolPorts(protocol, ports, hasRange)
  {
    if |ports| == 0 {
      return [];
    }
    if hasRange && |ports| == 2 {
      return [PortRule(Some(ProtocolName(protocol)), Some(Number(Int32(ports[0]))), Some(Int32(ports[1])))];
    }
    out := [];
    for n := 0 to |ports|
      invariant |out| == n && forall k :: 0 <= k < n ==> out[k] == OnePort(protocol, ports[k])
    {
      out := out + [PortRule(Some(ProtocolName(protocol)), Some(Number(Int32(ports[n]))), None)];
    }
  }

  /** What a key's ports say: no ports means every port of every protocol. */
  predicate PortsMean(protocol: Protocol, ports: seq<int>, hasRange: bool, c: Connection) {
    ports == [] || (c.protocol == (if protocol == UDP then "UDP" else "TCP") &&
                    if hasRange && |ports| == 2 then ports[0] <= c.port <= ports[1] else c.port as int in ports)
  }

  /** The part of a range that real ports can lie in. */
  function Span(a: int, b: int): Option<(int, int)> {
    var lo, hi := if a < 0 then 0 else a, if b > 65535 then 65535 else b;
    if lo <= hi then Some((lo, hi)) else None
  }

  /** Cutting the numbers down to 32 bits does not bring an unlisted port into range. */
  predicate Untruncated(ports: seq<int>, hasRange: bool) {
    if hasRange && |ports| == 2 then Span(Int32(ports[0]), Int32(ports[1])) == Span(ports[0], ports[1])
    else forall p :: p in ports ==> 0 <= Int32(p) <= 65535 ==> Int32(p) in ports
  }

  lemma PortsOfKey(protocol: Protocol, ports: seq<int>, hasRange: bool, c: Connection)
    requires Untruncated(ports, hasRange) && c.port <= 65535
    ensures PortsMatch(NetpolPorts(protocol, ports, hasRange), c) <==> PortsMean(protocol, ports, hasRange, c)
  {
    var rules := NetpolPorts(protocol, ports, hasRange);
    if hasRange && |ports| == 2 {
      assert rules[0] in rules;
      SpanMembers(ports[0], ports[1], c.port);
      SpanMembers(Int32(ports[0]), Int32(ports[1]), c.port);
    } else if ports != [] {
      if PortsMatch(rules, c) {
        var r :| r in rules && PortMatches(r, c);
        var k :| 0 <= k < |rules| && rules[k] == r;
        assert ports[k] in ports;
      }
      if PortsMean(protocol, ports, hasRange, c) {
        var k :| 0 <= k < |ports| && ports[k] == c.port;
        assert rules[k] in rules && PortMatches(rules[k], c);
      }
    }
  }

  /** A rule with ports admits connections of the key's protocol only. */
  lemma ProtocolMatters(protocol: Protocol, ports: seq<int>, hasRange: bool, c: Connection)
    requires ports != [] && PortsMatch(NetpolPorts(protocol, ports, hasRange), c)
    ensures c.protocol == if protocol == UDP then "UDP" else "TCP"
  {
    var rules := NetpolPorts(protocol, ports, hasRange);
    var r :| r in rules && PortMatches(r, c);
  }

  /** Conversion to 32 bits changes a number by a multiple of 2^32 only. */
  lemma KeepsLowBits(n: int)
    ensures (n - Int32(n)) % 0x1_0000_0000 == 0
  {
  }

  lemma SpanMembers(a: int, b: int, q: nat)
    requires q <= 65535
    ensures a <= q <= b <==> Span(a, b).Some? && Span(a, b).value.0 <= q <= Span(a, b).value.1
  {
  }

  ghost predicate PortsAgree(protocol: Protocol, ports: seq<int>, hasRange: bool) {
    forall c: Connection :: c.port <= 65535 ==>
      (PortsMatch(NetpolPorts(protocol, ports, hasRange), c) <==> PortsMean(protocol, ports, hasRange, c))
  }

  /** The emitted ports admit what the key says, for every connection, exactly when truncation to 32 bits
      brings no unlisted port into range. */
  lemma PortsAgreeExactly(protocol: Protocol, ports: seq<int>, hasRange: bool)
    ensures PortsAgree(protocol, ports, hasRange) <==> Untruncated(ports, hasRange)
  {
    if Untruncated(ports, hasRange) {
      forall c: Connection | c.port <= 65535
        ensures PortsMatch(NetpolPorts(protocol, ports, hasRange), c) <==> PortsMean(protocol, ports, hasRange, c)
      {
        PortsOfKey(protocol, ports, hasRange, c);
      }
    } else if hasRange && |ports| == 2 {
      SpansDiffer(protocol, ports);
    } else {
      var p :| p in ports && 0 <= Int32(p) <= 65535 && Int32(p) !in ports;
      var k :| 0 <= k < |ports| && ports[k] == p;
      var c := Connection(Outside(0), Outside(0), ProtocolName(protocol), Int32(p), None);
      var rules := NetpolPorts(protocol, ports, hasRange);
      assert rules[k] in rules && PortMatches(rules[k], c);
      assert !PortsMean(protocol, ports, hasRange, c);
    }
  }

  lemma SpansDiffer(protocol: Protocol, ports: seq<int>)
    requires |ports| == 2 && !Untruncated(ports, true)
    ensures !PortsAgree(protocol, ports, true)
  {
    var q := SpanWitness(Int32(ports[0]), Int32(ports[1]), ports[0], ports[1]);
    var c := Connection(Outside(0), Outside(0), ProtocolName(protocol), q, None);
    var rules := NetpolPorts(protocol, ports, true);
    assert PortsMatch(rules, c) <==> PortMatches(rules[0], c) by {
      assert rules[0] in rules;
    }
  }

  lemma SpanWitness(a: int, b: int, a': int, b': int) returns (q: nat)
    requires Span(a, b) != Span(a', b')
    ensures q <= 65535 && !((a <= q <= b) <==> (a' <= q <= b'))
  {
    var s, t := Span(a, b), Span(a', b');
    q :=
      if s.None? then t.value.0
      else if t.None? then s.value.0
      else if s.value.0 < t.value.0 then s.value.0
      else if t.value.0 < s.value.0 then t.value.0
      else if s.value.1 < t.value.1 then t.value.1
      else s.value.1;
    SpanMembers(a, b, q);
    SpanMembers(a', b', q);
  }

  /** Truncation does bring ports into range: a list naming 2^32 + 80 opens port 80. */
  lemma TruncationExample(p: int)
    requires p == 0x1_0000_0050
    ensures !Untruncated([p], false)
  {
    assert Int32(p) == 80 && p in [p];
  }

  /** Ports below 2^31 are never truncated. */
  lemma SmallPortsUntruncated(ports: seq<int>, hasRange: bool)
    requires forall k :: 0 <= k < |ports| ==> 0 <= ports[k] < 0x8000_0000
    ensures Untruncated(ports, hasRange)
  {
  }
}
