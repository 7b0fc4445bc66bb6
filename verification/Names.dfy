/** Names of generated objects. A name is assembled from text segments, so the question is which
    different rules share a name: for egress CIDR rules of one local key, only rules with equal specs. */
module Names {
  import opened Text
  import opened Shorthand
  import G = Grammar
  import opened Ports

  const ANYWHERE := "0.0.0.0/0"

  function LowerText(p: Protocol): string { if p == UDP then "udp" else "tcp" }

  function Prepend(prepend: bool, release: string, name: string): string {
    if prepend then release + "-" + name else name
  }

  function LocalName(localKey: string): string { if localKey == "*" then "any-pod" else localKey }

  /** "." and "/" become "-". */
  function CIDRSegment(cidr: string): string {
    seq(|cidr|, k requires 0 <= k < |cidr| => if cidr[k] == '.' || cidr[k] == '/' then '-' else cidr[k])
  }

  /** "-<n>" for every port. */
  function Dashed(ports: seq<int>): string {
    if ports == [] then "" else "-" + (Itoa(ports[0]) + Dashed(ports[1..]))
  }

  /** The port segment. The parsers set the range flag only together with exactly two ports; the original
      indexes both without a check. */
  function PortSuffix(ports: seq<int>, hasRange: bool): string {
    if ports == [] then "any-port"
    else if hasRange && |ports| == 2 then "ports-" + Itoa(ports[0]) + "-thru-" + Itoa(ports[1])
    else (if |ports| > 1 then "ports" else "port") + Dashed(ports)
  }

  lemma DashedStep(b: string, ports: seq<int>, n: nat)
    requires n < |ports|
    ensures b + Dashed(ports[n..]) == b + "-" + Itoa(ports[n]) + Dashed(ports[n + 1..])
  {
    assert ports[n..][1..] == ports[n + 1..];
    hide Itoa;
  }

  method NamePortSuffix(ports: seq<int>, hasRange: bool) returns (s: string)
    requires hasRange ==> |ports| == 2
    ensures s == PortSuffix(ports, hasRange)
  {
    if |ports| == 0 {
      return "any-port";
    }
    if hasRange {
      return "ports-" + Itoa(ports[0]) + "-thru-" + Itoa(ports[1]);
    }
    var prefix := "port";
    if |ports| > 1 {
      prefix := "ports";
    }
    var b := "";
    for n := 0 to |ports|
      invariant b + Dashed(ports[n..]) == Dashed(ports)
    {
      DashedStep(b, ports, n);
      b := b + "-" + Itoa(ports[n]);
    }
    assert b + Dashed([]) == b;
    return prefix + b;
  }

  function Destination(ns: string): string { if ns == "*" then "any-ns" else "ns-" + ns }

  function PodSegment(pod: string): string { if pod != "" && pod != "*" then "-pod-" + pod else "-any-pod" }

  /** The protocol, when there are ports to restrict, and the port segment. */
  function TailHead(p: Protocol): string { if p == UDP then "-udp-" else "-tcp-" }

  function PortTail(protocol: Protocol, ports: seq<int>, hasRange: bool): string {
    (if ports == [] then "-" else TailHead(protocol)) + PortSuffix(ports, hasRange)
  }

  function EgressK8sName(localKey: string, r: K8sRemote): string {
    "allow-egress-from-" + LocalName(localKey) + "-to-" + Destination(r.ns) + PodSegment(r.pod)
    + PortTail(r.protocol, r.ports, r.hasRange)
  }

  function CIDRPlace(cidr: string): string { if cidr == ANYWHERE then "anywhere" else "cidr-" + CIDRSegment(cidr) }

  function Tail(r: CIDRKey): string { PortTail(r.protocol, r.ports, r.hasRange) }

  function EgressCIDRName(localKey: string, r: CIDRKey): string {
    ("allow-egress-from-" + LocalName(localKey) + "-to-") + (CIDRPlace(r.cidr) + Tail(r))
  }

  function IngressHead(local: LocalKey): string {
    "allow-ingress-to-" + local.pod + (if local.protocol != TCP then "-" + LowerText(local.protocol) else "")
  }

  function IngressK8sName(local: LocalKey, r: K8sRemote): string {
    IngressHead(local) + PortTail(local.protocol, local.ports, local.hasRange)
    + "-from-" + Destination(r.ns) + PodSegment(r.pod)
  }

  function LocalPortSegment(local: LocalKey): string {
    if local.ports == [] then "" else PortTail(local.protocol, local.ports, local.hasRange)
  }

  function IngressCIDRName(local: LocalKey, cidr: string): string {
    IngressHead(local) + LocalPortSegment(local) + "-from-" + CIDRPlace(cidr)
  }

  // ---- injectivity of the segments ---------------------------------------

  /** The next character, if any, does not continue a digit run. */
  predicate Stops(t: string) { t == "" || !IsDigit(t[0]) }

  lemma NextCharacter(a: string, b: string, s: string, t: string)
    requires a + s == b + t && |a| < |b|
    ensures s != "" && s[0] == b[|a|]
  {
    assert (b + t)[|a|] == b[|a|];
    assert |a + s| == |b + t|;
    assert (a + s)[|a|] == s[0];
  }

  /** A digit run followed by something else can be cut off in one way only. */
  lemma {:induction false} DigitsCut(a: string, b: string, s: string, t: string)
    requires a + s == b + t && Stops(s) && Stops(t)
    requires forall k :: 0 <= k < |a| ==> IsDigit(a[k])
    requires forall k :: 0 <= k < |b| ==> IsDigit(b[k])
    ensures a == b && s == t
  {
    if |a| < |b| {
      NextCharacter(a, b, s, t);
      assert false;
    } else if |b| < |a| {
      NextCharacter(b, a, t, s);
      assert false;
    } else {
      assert a == (a + s)[..|a|] == (b + t)[..|b|] == b;
      assert s == (a + s)[|a|..] == (b + t)[|b|..] == t;
    }
  }

  lemma CIDRSegmentCons(s: string, n: nat)
    requires n < |s| && (s[n] == '.' || s[n] == '/') && forall k :: 0 <= k < n ==> IsDigit(s[k])
    ensures CIDRSegment(s) == s[..n] + ("-" + CIDRSegment(s[n + 1..]))
  {
  }

  lemma CIDRSegmentDigits(s: string)
    requires forall k :: 0 <= k < |s| ==> IsDigit(s[k])
    ensures CIDRSegment(s) == s
  {
  }

  /** CIDR texts with the same segment, even with something that is no digit behind it, are equal. */
  lemma {:induction false} CIDRSegmentInjective(a: string, b: string, seps: string, s: string, t: string)
    requires IsRuns(a, seps) && IsRuns(b, seps) && forall c :: c in seps ==> c == '.' || c == '/'
    requires CIDRSegment(a) + s == CIDRSegment(b) + t && Stops(s) && Stops(t)
    ensures a == b && s == t
    decreases |seps|
  {
    hide CIDRSegment;
    var m, n := DigitRun(a), DigitRun(b);
    if seps == "" {
      CIDRSegmentDigits(a);
      CIDRSegmentDigits(b);
      DigitsCut(a, b, s, t);
    } else {
      assert seps[0] in seps && forall c :: c in seps[1..] ==> c in seps;
      CIDRSegmentCons(a, m);
      CIDRSegmentCons(b, n);
      var a', b' := a[m + 1..], b[n + 1..];
      var x, y := "-" + (CIDRSegment(a') + s), "-" + (CIDRSegment(b') + t);
      assert a[..m] + x == CIDRSegment(a) + s && b[..n] + y == CIDRSegment(b) + t;
      DigitsCut(a[..m], b[..n], x, y);
      assert x[1..] == CIDRSegment(a') + s && y[1..] == CIDRSegment(b') + t;
      CIDRSegmentInjective(a', b', seps[1..], s, t);
      Reassemble(a, m, seps[0]);
      Reassemble(b, n, seps[0]);
    }
  }

  lemma Reassemble(s: string, n: nat, c: char)
    requires n < |s| && s[n] == c
    ensures s == s[..n] + ([c] + s[n + 1..])
  {
  }

  predicate NonNegative(ports: seq<int>) { forall k :: 0 <= k < |ports| ==> ports[k] >= 0 }

  lemma ItoaInjective(a: int, b: int)
    requires a >= 0 && b >= 0 && Itoa(a) == Itoa(b)
    ensures a == b
  {
  }

  lemma {:induction false} DashedInjective(a: seq<int>, b: seq<int>)
    requires NonNegative(a) && NonNegative(b) && Dashed(a) == Dashed(b)
    ensures a == b
    decreases |a|
  {
    if a != [] && b != [] {
      var x, y := Dashed(a[1..]), Dashed(b[1..]);
      assert Dashed(a)[1..] == Itoa(a[0]) + x && Dashed(b)[1..] == Itoa(b[0]) + y;
      DigitsCut(Itoa(a[0]), Itoa(b[0]), x, y);
      ItoaInjective(a[0], b[0]);
      DashedInjective(a[1..], b[1..]);
      assert a == [a[0]] + a[1..] && b == [b[0]] + b[1..];
    }
  }

  lemma Strip(head: string, x: string, y: string)
    requires head + x == head + y
    ensures x == y
  {
    assert x == (head + x)[|head|..] && y == (head + y)[|head|..];
  }

  /** A range is never written like a list. */
  lemma RangeIsNoList(a: int, b: string, list: seq<int>)
    requires a >= 0 && NonNegative(list) && |list| > 1
    ensures Itoa(a) + ("-thru-" + b) != Itoa(list[0]) + Dashed(list[1..])
  {
    var x, y := "-thru-" + b, Dashed(list[1..]);
    assert y[1] == Itoa(list[1])[0];
    assert x[1] == 't' && IsDigit(y[1]);
    if Itoa(a) + x == Itoa(list[0]) + y {
      DigitsCut(Itoa(a), Itoa(list[0]), x, y);
      assert false;
    }
  }

  predicate ParsedPorts(ports: seq<int>, hasRange: bool) { NonNegative(ports) && (hasRange ==> |ports| == 2) }

  /** The segment behind "ports" of a range and of a list. */
  function ManyPorts(ports: seq<int>, hasRange: bool): string
    requires |ports| > 1
  {
    if hasRange && |ports| == 2 then Itoa(ports[0]) + ("-thru-" + Itoa(ports[1]))
    else Itoa(ports[0]) + Dashed(ports[1..])
  }

  lemma ManyPortsInjective(a: seq<int>, aRange: bool, b: seq<int>, bRange: bool)
    requires ParsedPorts(a, aRange) && ParsedPorts(b, bRange) && |a| > 1 && |b| > 1
    requires ManyPorts(a, aRange) == ManyPorts(b, bRange)
    ensures a == b && aRange == bRange
  {
    if aRange && bRange {
      var x, y := "-thru-" + Itoa(a[1]), "-thru-" + Itoa(b[1]);
      DigitsCut(Itoa(a[0]), Itoa(b[0]), x, y);
      Strip("-thru-", Itoa(a[1]), Itoa(b[1]));
      ItoaInjective(a[0], b[0]);
      ItoaInjective(a[1], b[1]);
    } else if aRange {
      RangeIsNoList(a[0], Itoa(a[1]), b);
    } else if bRange {
      RangeIsNoList(b[0], Itoa(b[1]), a);
    } else {
      assert Dashed(a) == "-" + ManyPorts(a, aRange) && Dashed(b) == "-" + ManyPorts(b, bRange);
      DashedInjective(a, b);
    }
  }

  lemma PortSuffixForm(ports: seq<int>, hasRange: bool)
    requires ParsedPorts(ports, hasRange) && ports != []
    ensures |ports| > 1 ==> PortSuffix(ports, hasRange) == "ports-" + ManyPorts(ports, hasRange)
    ensures |ports| == 1 ==> PortSuffix(ports, hasRange) == "port-" + Itoa(ports[0])
  {
    hide Itoa;
    if |ports| == 1 {
      assert ports[1..] == [] && Dashed([]) == "";
      assert Dashed(ports) == "-" + Itoa(ports[0]);
      assert "port" + ("-" + Itoa(ports[0])) == "port-" + Itoa(ports[0]);
    } else if !hasRange {
      assert "ports" + ("-" + ManyPorts(ports, hasRange)) == "ports-" + ManyPorts(ports, hasRange);
    } else {
      assert "ports-" + Itoa(ports[0]) + "-thru-" + Itoa(ports[1]) == "ports-" + ManyPorts(ports, hasRange);
    }
  }

  /** Different parsed port lists have different name segments. */
  lemma PortSuffixInjective(a: seq<int>, aRange: bool, b: seq<int>, bRange: bool)
    requires ParsedPorts(a, aRange) && ParsedPorts(b, bRange) && a != [] && b != []
    requires PortSuffix(a, aRange) == PortSuffix(b, bRange)
    ensures a == b && aRange == bRange
  {
    PortSuffixForm(a, aRange);
    PortSuffixForm(b, bRange);
    hide PortSuffix, ManyPorts, Itoa;
    var many, one := "ports-", "port-";
    assert many[4] == 's' && one[4] == '-';
    var aTail := if |a| > 1 then ManyPorts(a, aRange) else Itoa(a[0]);
    var bTail := if |b| > 1 then ManyPorts(b, bRange) else Itoa(b[0]);
    SameHead(many, one, |a| > 1, |b| > 1, aTail, bTail, 4);
    if |a| > 1 {
      ManyPortsInjective(a, aRange, b, bRange);
    } else {
      ItoaInjective(a[0], b[0]);
    }
  }

  /** Two texts that start with one of two heads telling apart at position `i` agree in head and tail. */
  lemma SameHead(yes: string, no: string, a: bool, b: bool, x: string, y: string, i: nat)
    requires i < |yes| && i < |no| && yes[i] != no[i]
    requires (if a then yes else no) + x == (if b then yes else no) + y
    ensures a == b && x == y
  {
    var s, t := if a then yes else no, if b then yes else no;
    assert (s + x)[i] == s[i] && (t + y)[i] == t[i];
    Strip(s, x, y);
  }

  lemma TailStops(r: CIDRKey)
    ensures Stops(Tail(r))
  {
    hide PortSuffix;
    assert Tail(r)[0] == '-';
  }

  /** The tails of two names decide the ports, and the protocol where there are ports. */
  lemma TailInjective(a: CIDRKey, b: CIDRKey)
    requires ParsedPorts(a.ports, a.hasRange) && ParsedPorts(b.ports, b.hasRange) && Tail(a) == Tail(b)
    ensures a.ports == b.ports && a.hasRange == b.hasRange && (a.ports != [] ==> a.protocol == b.protocol)
  {
    var x, y := PortSuffix(a.ports, a.hasRange), PortSuffix(b.ports, b.hasRange);
    if a.ports == [] || b.ports == [] {
      assert a.ports == [] ==> x == "any-port";
      assert b.ports == [] ==> y == "any-port";
      hide PortSuffix;
      NotAnyPort(a.protocol, x);
      NotAnyPort(b.protocol, y);
    } else {
      hide PortSuffix;
      SameHead("-udp-", "-tcp-", a.protocol == UDP, b.protocol == UDP, x, y, 1);
      PortSuffixInjective(a.ports, a.hasRange, b.ports, b.hasRange);
    }
  }

  lemma NotAnyPort(p: Protocol, suffix: string)
    ensures TailHead(p) + suffix != "-" + "any-port"
  {
    var head := TailHead(p);
    assert (head + suffix)[1] == head[1];
  }

  lemma CIDRPlaceInjective(a: string, b: string, s: string, t: string)
    requires IsCIDRText(a) && IsCIDRText(b) && Stops(s) && Stops(t)
    requires CIDRPlace(a) + s == CIDRPlace(b) + t
    ensures a == b && s == t
  {
    hide IsCIDRText, CIDRSegment, Stops;
    var whole := CIDRPlace(a) + s;
    if a == ANYWHERE {
      assert whole[0] == 'a';
      assert b == ANYWHERE;
      Strip("anywhere", s, t);
    } else {
      assert whole[0] == 'c';
      assert b != ANYWHERE;
      assert whole == "cidr-" + (CIDRSegment(a) + s) == "cidr-" + (CIDRSegment(b) + t);
      Strip("cidr-", CIDRSegment(a) + s, CIDRSegment(b) + t);
      PlainSegments(a, b, s, t);
    }
  }

  lemma PlainSegments(a: string, b: string, s: string, t: string)
    requires IsCIDRText(a) && IsCIDRText(b) && Stops(s) && Stops(t)
    requires CIDRSegment(a) + s == CIDRSegment(b) + t
    ensures a == b && s == t
  {
    var seps := ".../";
    assert forall c :: c in seps ==> c == '.' || c == '/';
    CIDRSegmentInjective(a, b, seps, s, t);
  }

  /** Name collisions among the egress CIDR rules of one local key are harmless: two rules with the same
      name have the same CIDR and the same policy ports, so they differ at most in a protocol prefix that
      means nothing without ports. */
  lemma SameNameSameRule(localKey: string, a: CIDRKey, b: CIDRKey)
    requires G.ValidCIDR(a) && G.ValidCIDR(b)
    requires EgressCIDRName(localKey, a) == EgressCIDRName(localKey, b)
    ensures a.cidr == b.cidr
    ensures NetpolPorts(a.protocol, a.ports, a.hasRange) == NetpolPorts(b.protocol, b.ports, b.hasRange)
  {
    hide EgressCIDRName, IsCIDRText, CIDRPlace, Tail, Stops;
    ValidIsParsed(a.ports, a.hasRange);
    ValidIsParsed(b.ports, b.hasRange);
    NameParts(localKey, a, b);
    TailStops(a);
    TailStops(b);
    CIDRPlaceInjective(a.cidr, b.cidr, Tail(a), Tail(b));
    TailInjective(a, b);
  }

  lemma ValidIsParsed(ports: seq<int>, hasRange: bool)
    requires G.ValidPorts(ports, hasRange)
    ensures ParsedPorts(ports, hasRange)
  {
    assert forall k :: 0 <= k < |ports| ==> ports[k] in ports;
  }

  lemma NameParts(localKey: string, a: CIDRKey, b: CIDRKey)
    requires EgressCIDRName(localKey, a) == EgressCIDRName(localKey, b)
    ensures CIDRPlace(a.cidr) + Tail(a) == CIDRPlace(b.cidr) + Tail(b)
  {
    hide LocalName, CIDRPlace, Tail;
    Strip("allow-egress-from-" + LocalName(localKey) + "-to-", CIDRPlace(a.cidr) + Tail(a), CIDRPlace(b.cidr) + Tail(b));
  }
}
