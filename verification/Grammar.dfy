/** What the key parsers promise: they read off the groups of the pattern, fail on a matching key only
    when a port number overflows, and invert the canonical printer in both directions. */
module Grammar {
  import opened Common
  import opened Text
  import opened Shorthand

  // ---- cutting a matched key ---------------------------------------------

  function SchemeProtocol(scheme: string): Protocol { if scheme == "udp://" then UDP else TCP }

  lemma SchemeAt(head: string, rest: string)
    requires |head| == 3 && ':' !in head
    ensures SchemeIndexFrom(head + "://" + rest, 0) == 3
  {
    hide SchemeIndexFrom;
    var key := head + "://" + rest;
    var i := SchemeIndexFrom(key, 0);
    assert key[0] == head[0] && key[1] == head[1] && key[2] == head[2];
    assert key[3] == ':' && key[4] == '/' && key[5] == '/';
  }

  lemma SchemeCutAt(head: string, rest: string)
    requires |head| == 3 && ':' !in head
    ensures SplitScheme(head + "://" + rest) == (if head == "udp" then UDP else TCP, rest)
  {
    SchemeAt(head, rest);
    hide SchemeIndexFrom;
    var key := head + "://" + rest;
    assert key[..3] == head && key[6..] == rest;
  }

  lemma SchemeCut(scheme: string, rest: string)
    requires IsScheme(scheme)
    requires scheme == "" ==> SchemeIndexFrom(rest, 0) == -1
    ensures SplitScheme(scheme + rest) == (SchemeProtocol(scheme), rest)
  {
    hide SchemeIndexFrom;
    if scheme == "" {
      assert scheme + rest == rest;
    } else {
      hide SplitScheme;
      var head := SchemeHead(scheme);
      SchemeCutAt(head, rest);
    }
  }

  /** A scheme without its separator. */
  lemma SchemeHead(scheme: string) returns (head: string)
    requires IsScheme(scheme) && scheme != ""
    ensures |head| == 3 && ':' !in head && scheme == head + "://"
    ensures SchemeProtocol(scheme) == if head == "udp" then UDP else TCP
  {
    head := if scheme == "udp://" then "udp" else "tcp";
  }

  lemma NoScheme(name: string, part: string)
    requires ':' !in name && IsPortPart(part)
    ensures SchemeIndexFrom(name + part, 0) == -1
  {
    var rest := name + part;
    var i := SchemeIndexFrom(rest, 0);
    assert forall j :: 0 <= j < |name| ==> rest[j] == name[j];
    if part != "" {
      PortChars(part[1..]);
      assert forall j :: |name| < j < |rest| ==> rest[j] == part[1..][j - |name| - 1];
    }
  }

  /** The port part of a matched key as the parser reads it. */
  ghost predicate ReadsPorts(r: Result<(string, seq<int>, bool)>, name: string, part: string)
    requires IsPortPart(part)
  {
    match PortsMeaning(part)
    case None => r.Err?
    case Some((ports, hasRange)) => r == Ok((name, ports, hasRange))
  }

  lemma PortsCut(name: string, part: string)
    requires ':' !in name && IsPortPart(part)
    ensures ReadsPorts(SplitPorts(name + part, Index(name + part, ':')), name, part)
  {
    if part == "" {
      assert name + part == name;
    } else {
      var spec := part[1..];
      assert name + part == name + [':'] + spec;
      IndexOfConcat(name, ':', spec);
      assert (name + part)[|name| + 1..] == spec && (name + part)[..|name|] == name;
      PortSpecMeaning(spec);
    }
  }

  lemma PodCut(ns: string, part: string)
    requires '/' !in ns && IsPodPart(part)
    ensures SplitPod(ns + part) == (ns, if part == "" then "" else part[1..])
  {
    if part == "" {
      assert ns + part == ns;
    } else {
      assert ns + part == ns + ['/'] + part[1..];
      IndexOfConcat(ns, '/', part[1..]);
    }
  }

  lemma SegmentChars(s: string)
    requires IsSegment(s) || IsWord(s)
    ensures s != "" && ':' !in s && '/' !in s && '@' !in s
  {
  }

  // ---- the parsers read off the groups -----------------------------------

  /** The scheme and the port part of a key whose middle has no colon. */
  lemma HeadAndPorts(scheme: string, name: string, part: string)
    requires IsScheme(scheme) && IsPortPart(part) && ':' !in name
    ensures SplitScheme(scheme + (name + part)) == (SchemeProtocol(scheme), name + part)
    ensures ReadsPorts(SplitPorts(name + part, Index(name + part, ':')), name, part)
  {
    NoScheme(name, part);
    SchemeCut(scheme, name + part);
    PortsCut(name, part);
  }

  lemma NameChars(ns: string, pod: string)
    requires IsSegment(ns) && IsPodPart(pod)
    ensures ':' !in ns + pod && '@' !in ns + pod && '/' !in ns
  {
    SegmentChars(ns);
    if pod != "" {
      SegmentChars(pod[1..]);
      assert pod == ['/'] + pod[1..];
    }
  }

  function PodOf(part: string): string { if part == "" then "" else part[1..] }

  ghost predicate EgressReads(r: Result<K8sRemote>, scheme: string, ns: string, pod: string, part: string)
    requires IsPortPart(part)
  {
    match PortsMeaning(part)
    case None => r.Err?
    case Some((ports, hasRange)) => r == Ok(K8sRemote(ns, PodOf(pod), "", SchemeProtocol(scheme), ports, hasRange))
  }

  function EgressKey(scheme: string, ns: string, pod: string, part: string): string {
    scheme + ((ns + pod) + part)
  }

  lemma EgressMatches(scheme: string, ns: string, pod: string, part: string)
    requires IsScheme(scheme) && IsSegment(ns) && IsPodPart(pod) && IsPortPart(part)
    ensures EgressRemotePattern(EgressKey(scheme, ns, pod, part))
  {
    var key := EgressKey(scheme, ns, pod, part);
    var i := |scheme|;
    var j := i + |ns|;
    var k := j + |pod|;
    Joined4(scheme, ns, pod, part);
    hide IsScheme, IsSegment, IsPodPart, IsPortPart;
    assert EgressGroups(key, i, j, k);
  }

  lemma EgressGroupsOf(key: string) returns (scheme: string, ns: string, pod: string, part: string)
    requires EgressRemotePattern(key)
    ensures IsScheme(scheme) && IsSegment(ns) && IsPodPart(pod) && IsPortPart(part)
    ensures key == EgressKey(scheme, ns, pod, part)
  {
    var i, j, k :| 0 <= i <= |key| && 0 <= j <= |key| && 0 <= k <= |key| && EgressGroups(key, i, j, k);
    scheme, ns, pod, part := key[..i], key[i..j], key[j..k], key[k..];
    hide IsScheme, IsSegment, IsPodPart, IsPortPart;
    Slices4(key, i, j, k);
  }

  lemma EgressGroupsRead(scheme: string, ns: string, pod: string, part: string)
    requires IsScheme(scheme) && IsSegment(ns) && IsPodPart(pod) && IsPortPart(part)
    ensures EgressReads(ParseEgressRemoteKey(EgressKey(scheme, ns, pod, part)), scheme, ns, pod, part)
  {
    EgressMatches(scheme, ns, pod, part);
    NameChars(ns, pod);
    HeadAndPorts(scheme, ns + pod, part);
    PodCut(ns, pod);
  }

  function IngressKey(identity: string, ns: string, pod: string): string {
    (if identity == "" then "" else identity + ['@']) + (ns + pod)
  }

  lemma IngressMatches(identity: string, ns: string, pod: string)
    requires (identity == "" || IsName(identity)) && IsSegment(ns) && IsPodPart(pod)
    ensures IngressRemotePattern(IngressKey(identity, ns, pod))
  {
    var key := IngressKey(identity, ns, pod);
    var i := if identity == "" then 0 else |identity| + 1;
    var j := i + |ns|;
    Joined3(if identity == "" then "" else identity + ['@'], ns, pod);
    if i > 0 {
      assert key[..i - 1] == identity && key[i - 1] == '@';
    }
    assert IngressGroups(key, i, j);
  }

  lemma IngressGroupsOf(key: string) returns (identity: string, ns: string, pod: string)
    requires IngressRemotePattern(key)
    ensures (identity == "" || IsName(identity)) && IsSegment(ns) && IsPodPart(pod)
    ensures key == IngressKey(identity, ns, pod)
  {
    var i, j :| 0 <= i <= |key| && 0 <= j <= |key| && IngressGroups(key, i, j);
    identity, ns, pod := if i == 0 then "" else key[..i - 1], key[i..j], key[j..];
    hide IsName, IsSegment, IsPodPart;
    Slices3(key, i, j);
  }

  lemma IngressGroupsRead(identity: string, ns: string, pod: string)
    requires (identity == "" || IsName(identity)) && IsSegment(ns) && IsPodPart(pod)
    ensures ParseIngressRemoteKey(IngressKey(identity, ns, pod)) == Ok(K8sRemote(ns, PodOf(pod), identity, TCP, [], false))
  {
    IngressMatches(identity, ns, pod);
    NameChars(ns, pod);
    PodCut(ns, pod);
    IdentityCut(identity, ns + pod);
    hide IngressRemotePattern, IsSegment, IsPodPart, IsName, SplitPod, PodOf, Index;
  }

  lemma IdentityCut(identity: string, rest: string)
    requires (identity == "" || IsName(identity)) && '@' !in rest
    ensures var key := (if identity == "" then "" else identity + ['@']) + rest;
            var i := Index(key, '@');
            if identity == "" then i == -1 && key == rest
            else i == |identity| && key[..i] == identity && key[i + 1..] == rest
  {
    if identity != "" {
      IndexOfConcat(identity, '@', rest);
    }
  }

  ghost predicate LocalReads(r: Result<LocalKey>, scheme: string, pod: string, part: string)
    requires IsPortPart(part)
  {
    match PortsMeaning(part)
    case None => r.Err?
    case Some((ports, hasRange)) => r == Ok(LocalKey(pod, SchemeProtocol(scheme), ports, hasRange))
  }

  lemma LocalMatches(scheme: string, pod: string, part: string)
    requires IsScheme(scheme) && IsWord(pod) && IsPortPart(part)
    ensures IngressLocalPattern(scheme + (pod + part))
  {
    var key := scheme + (pod + part);
    var i := |scheme|;
    var j := i + |pod|;
    Joined3(scheme, pod, part);
    hide IsScheme, IsWord, IsPortPart;
    assert LocalGroups(key, i, j);
  }

  lemma LocalGroupsOf(key: string) returns (scheme: string, pod: string, part: string)
    requires IngressLocalPattern(key)
    ensures IsScheme(scheme) && IsWord(pod) && IsPortPart(part) && key == scheme + (pod + part)
  {
    var i, j :| 0 <= i <= |key| && 0 <= j <= |key| && LocalGroups(key, i, j);
    scheme, pod, part := key[..i], key[i..j], key[j..];
    hide IsScheme, IsWord, IsPortPart;
    Slices3(key, i, j);
  }

  lemma LocalGroupsRead(scheme: string, pod: string, part: string)
    requires IsScheme(scheme) && IsWord(pod) && IsPortPart(part)
    ensures LocalReads(ParseIngressLocalKey(scheme + (pod + part)), scheme, pod, part)
  {
    LocalMatches(scheme, pod, part);
    SegmentChars(pod);
    HeadAndPorts(scheme, pod, part);
  }

  ghost predicate CIDRReads(r: Result<CIDRKey>, scheme: string, cidr: string, part: string)
    requires IsPortPart(part)
  {
    match PortsMeaning(part)
    case None => r.Err?
    case Some((ports, hasRange)) => r == Ok(CIDRKey(cidr, SchemeProtocol(scheme), ports, hasRange))
  }

  lemma CIDRMatches(scheme: string, cidr: string, part: string)
    requires IsScheme(scheme) && IsCIDRText(cidr) && IsPortPart(part)
    ensures EgressCIDRPattern(scheme + (cidr + part))
  {
    var key := scheme + (cidr + part);
    var i := |scheme|;
    var j := i + |cidr|;
    Joined3(scheme, cidr, part);
    hide IsScheme, IsCIDRText, IsPortPart;
    assert CIDRGroups(key, i, j);
  }

  lemma CIDRGroupsOf(key: string) returns (scheme: string, cidr: string, part: string)
    requires EgressCIDRPattern(key)
    ensures IsScheme(scheme) && IsCIDRText(cidr) && IsPortPart(part) && key == scheme + (cidr + part)
  {
    var i, j :| 0 <= i <= |key| && 0 <= j <= |key| && CIDRGroups(key, i, j);
    scheme, cidr, part := key[..i], key[i..j], key[j..];
    hide IsScheme, IsCIDRText, IsPortPart;
    Slices3(key, i, j);
  }

  lemma {:induction false} RunsChars(s: string, seps: string)
    requires IsRuns(s, seps)
    ensures s != "" && forall k :: 0 <= k < |s| ==> IsDigit(s[k]) || s[k] in seps
    ensures seps != "" ==> seps[|seps| - 1] in s
    decreases |seps|
  {
    var n := DigitRun(s);
    if seps != "" {
      RunsChars(s[n + 1..], seps[1..]);
      assert forall k :: n < k < |s| ==> s[k] == s[n + 1..][k - n - 1];
      if |seps| == 1 {
        assert s[n] == seps[0];
      } else {
        assert seps[1..][|seps| - 2] == seps[|seps| - 1];
        var k :| 0 <= k < |s[n + 1..]| && s[n + 1..][k] == seps[|seps| - 1];
        assert s[n + 1 + k] == seps[|seps| - 1];
      }
    }
  }

  lemma CIDRChars(s: string)
    requires IsCIDRText(s)
    ensures s != "" && ':' !in s && '/' in s
  {
    var seps := ".../";
    RunsChars(s, seps);
    assert seps[|seps| - 1] == '/' && ':' !in seps;
  }

  /** The last colon of a CIDR key comes after its last slash exactly when there is a port part. */
  lemma LastColon(cidr: string, part: string)
    requires ':' !in cidr && '/' in cidr && IsPortPart(part)
    ensures var rest := cidr + part;
            if part == "" then LastIndex(rest, ':') <= LastIndex(rest, '/')
            else LastIndex(rest, ':') == |cidr| > LastIndex(rest, '/')
  {
    var rest := cidr + part;
    assert forall k :: 0 <= k < |cidr| ==> rest[k] == cidr[k];
    if part == "" {
      var slash :| 0 <= slash < |cidr| && cidr[slash] == '/';
      assert rest[slash] == '/';
    } else {
      PortChars(part[1..]);
      assert rest[|cidr|] == ':';
      assert forall k :: |cidr| < k < |rest| ==> rest[k] == part[1..][k - |cidr| - 1];
    }
  }

  lemma CIDRGroupsRead(scheme: string, cidr: string, part: string)
    requires IsScheme(scheme) && IsCIDRText(cidr) && IsPortPart(part)
    ensures CIDRReads(ParseEgressCIDRKey(scheme + (cidr + part)), scheme, cidr, part)
  {
    hide SplitPorts, IsCIDRText, IsPortPart, IsScheme, LastIndex, Index, SplitScheme, EgressCIDRPattern;
    assert part == "" ==> PortsMeaning(part) == Some(([], false));
    hide PortsMeaning;
    CIDRMatches(scheme, cidr, part);
    CIDRChars(cidr);
    HeadAndPorts(scheme, cidr, part);
    LastColon(cidr, part);
    FirstColon(cidr, part);
  }

  lemma FirstColon(name: string, part: string)
    requires ':' !in name && IsPortPart(part)
    ensures Index(name + part, ':') == if part == "" then -1 else |name|
  {
    if part == "" {
      assert name + part == name;
    } else {
      assert name + part == name + [':'] + part[1..];
      IndexOfConcat(name, ':', part[1..]);
    }
  }

  // ---- parse results -----------------------------------------------------

  /** A port list the grammar can express. */
  ghost predicate ValidPorts(ports: seq<int>, hasRange: bool) {
    && (forall p :: p in ports ==> 0 <= p <= MAX_INT64)
    && (hasRange ==> |ports| == 2)
  }

  ghost predicate ValidEgress(r: K8sRemote) {
    IsSegment(r.ns) && (r.pod == "" || IsSegment(r.pod)) && r.identity == "" && ValidPorts(r.ports, r.hasRange)
  }

  ghost predicate ValidIngress(r: K8sRemote) {
    && IsSegment(r.ns) && (r.pod == "" || IsSegment(r.pod)) && (r.identity == "" || IsName(r.identity))
    && r.protocol == TCP && r.ports == [] && !r.hasRange
  }

  ghost predicate ValidLocal(r: LocalKey) { IsWord(r.pod) && ValidPorts(r.ports, r.hasRange) }

  ghost predicate ValidCIDR(r: CIDRKey) { IsCIDRText(r.cidr) && ValidPorts(r.ports, r.hasRange) }

  lemma MeaningIsValid(part: string)
    requires IsPortPart(part) && PortsMeaning(part).Some?
    ensures ValidPorts(PortsMeaning(part).value.0, PortsMeaning(part).value.1)
  {
    if part != "" {
      var numbers := PortNumbers(part[1..]);
      forall p | p in Decimals(numbers) ensures 0 <= p <= MAX_INT64 {
        var k :| 0 <= k < |numbers| && Decimals(numbers)[k] == p;
        assert numbers[k] in numbers;
      }
    }
  }

  /** The port text of a key, found without consulting the pattern. */
  function PortText(key: string): string {
    var rest := SplitScheme(key).1;
    var i := LastIndex(rest, ':');
    if i < 0 then "" else rest[i + 1..]
  }

  lemma PortTextIs(scheme: string, name: string, part: string)
    requires IsScheme(scheme) && ':' !in name && IsPortPart(part)
    ensures PortText(scheme + (name + part)) == PodOf(part)
    ensures part != "" ==> PodOf(part) != ""
  {
    NoScheme(name, part);
    SchemeCut(scheme, name + part);
    LastPortColon(name, part);
  }

  lemma LastPortColon(name: string, part: string)
    requires ':' !in name && IsPortPart(part)
    ensures var rest := name + part;
            if part == "" then LastIndex(rest, ':') == -1
            else LastIndex(rest, ':') == |name| && rest[|name| + 1..] == part[1..] != ""
  {
    var rest := name + part;
    assert forall k :: 0 <= k < |name| ==> rest[k] == name[k];
    if part != "" {
      PortChars(part[1..]);
      assert rest[|name|] == ':';
      assert forall k :: |name| < k < |rest| ==> rest[k] == part[1..][k - |name| - 1];
    }
  }

  predicate NumbersFit(key: string) { PortText(key) == "" || Fits(PortNumbers(PortText(key))) }

  /** A key that matches its pattern is rejected exactly when one of its port numbers is too large for
      a 64-bit integer; a key that does not match is always rejected. */
  lemma EgressAcceptedExactly(key: string)
    ensures ParseEgressRemoteKey(key).Ok? <==> EgressRemotePattern(key) && NumbersFit(key)
  {
    if EgressRemotePattern(key) {
      var scheme, ns, pod, part := EgressGroupsOf(key);
      EgressGroupsRead(scheme, ns, pod, part);
      NameChars(ns, pod);
      PortTextIs(scheme, ns + pod, part);
    }
  }

  lemma LocalAcceptedExactly(key: string)
    ensures ParseIngressLocalKey(key).Ok? <==> IngressLocalPattern(key) && NumbersFit(key)
  {
    if IngressLocalPattern(key) {
      var scheme, pod, part := LocalGroupsOf(key);
      LocalGroupsRead(scheme, pod, part);
      SegmentChars(pod);
      PortTextIs(scheme, pod, part);
    }
  }

  lemma CIDRAcceptedExactly(key: string)
    ensures ParseEgressCIDRKey(key).Ok? <==> EgressCIDRPattern(key) && NumbersFit(key)
  {
    if EgressCIDRPattern(key) {
      var scheme, cidr, part := CIDRGroupsOf(key);
      CIDRGroupsRead(scheme, cidr, part);
      CIDRChars(cidr);
      PortTextIs(scheme, cidr, part);
    }
  }

  // ---- the canonical printer ---------------------------------------------

  function PrintScheme(p: Protocol): string { if p == UDP then "udp://" else "" }

  function PrintPorts(ports: seq<int>, hasRange: bool): string
  {
    if ports == [] then ""
    else if hasRange && |ports| == 2 then [':'] + (Itoa(ports[0]) + ['-'] + Itoa(ports[1]))
    else if |ports| == 1 then [':'] + Itoa(ports[0])
    else [':'] + (['['] + Join(ItoaAll(ports), ',') + [']'])
  }

  function PrintPod(pod: string): string { if pod == "" then "" else ['/'] + pod }

  function PrintEgress(r: K8sRemote): string
  {
    EgressKey(PrintScheme(r.protocol), r.ns, PrintPod(r.pod), PrintPorts(r.ports, r.hasRange))
  }

  function PrintIngress(r: K8sRemote): string {
    IngressKey(r.identity, r.ns, PrintPod(r.pod))
  }

  function PrintLocal(r: LocalKey): string
  {
    PrintScheme(r.protocol) + (r.pod + PrintPorts(r.ports, r.hasRange))
  }

  function PrintCIDR(r: CIDRKey): string
  {
    PrintScheme(r.protocol) + (r.cidr + PrintPorts(r.ports, r.hasRange))
  }

  lemma DecimalsOfItoa(ports: seq<int>)
    requires forall p :: p in ports ==> p >= 0
    ensures Decimals(ItoaAll(ports)) == ports
  {
    forall k | 0 <= k < |ports| ensures Decimals(ItoaAll(ports))[k] == ports[k] {
      assert ports[k] in ports;
    }
  }

  /** A printed port list is a port part that denotes the list it was printed from. */
  lemma PrintedPorts(ports: seq<int>, hasRange: bool)
    requires ValidPorts(ports, hasRange)
    ensures var part := PrintPorts(ports, hasRange); IsPortPart(part) && PortsMeaning(part) == Some((ports, hasRange))
  {
    if hasRange {
      assert ports[0] in ports && ports[1] in ports;
      PrintedRanged(ports);
    } else if ports != [] {
      PrintedPlain(ports);
    }
    hide PortNumbers, Fits, Decimals, IsPorts, IsRange;
    if ports != [] {
      hide PrintPorts;
    }
  }

  lemma PrintedRanged(ports: seq<int>)
    requires |ports| == 2 && 0 <= ports[0] <= MAX_INT64 && 0 <= ports[1] <= MAX_INT64
    ensures var part := PrintPorts(ports, true);
            && part != "" && part[0] == ':'
            && IsPorts(part[1..]) && IsRange(part[1..])
            && Fits(PortNumbers(part[1..])) && Decimals(PortNumbers(part[1..])) == ports
  {
    PrintedRange(ports[0], ports[1]);
    hide PortNumbers, Fits, Decimals, IsRange, Itoa;
    assert PrintPorts(ports, true)[1..] == Itoa(ports[0]) + ['-'] + Itoa(ports[1]);
    assert ports == [ports[0], ports[1]];
  }

  lemma TextsAreDigits(ports: seq<int>)
    requires forall p :: p in ports ==> p >= 0
    ensures forall t :: t in ItoaAll(ports) ==> IsDigits(t) && ',' !in t
  {
    forall t | t in ItoaAll(ports) ensures IsDigits(t) && ',' !in t {
      var k :| 0 <= k < |ports| && ItoaAll(ports)[k] == t;
      assert ports[k] in ports;
    }
  }

  lemma PrintedPlain(ports: seq<int>)
    requires ports != [] && forall p :: p in ports ==> 0 <= p <= MAX_INT64
    ensures var part := PrintPorts(ports, false);
            && part != "" && part[0] == ':'
            && IsPorts(part[1..]) && !IsRange(part[1..])
            && Fits(PortNumbers(part[1..])) && Decimals(PortNumbers(part[1..])) == ports
  {
    var texts := ItoaAll(ports);
    var s := if |ports| == 1 then Itoa(ports[0]) else ['['] + Join(texts, ',') + [']'];
    assert PrintPorts(ports, false)[1..] == s;
    DecimalsOfItoa(ports);
    PortsFit(ports);
    TextsAreDigits(ports);
    if |ports| == 1 {
      PrintedOne(ports[0]);
      assert texts == [Itoa(ports[0])];
    } else {
      SplitJoin(texts, ',');
      PrintedList(texts);
    }
    hide Fits, Decimals, IsPortList, IsRange, Join, Split, Unbracket, PrintPorts, Itoa, ItoaAll;
  }

  lemma PortsFit(ports: seq<int>)
    requires forall p :: p in ports ==> 0 <= p <= MAX_INT64
    ensures Fits(ItoaAll(ports))
  {
    forall n | n in ItoaAll(ports) ensures Decimal(n) <= MAX_INT64 {
      var k :| 0 <= k < |ports| && ItoaAll(ports)[k] == n;
      assert ports[k] in ports;
    }
  }

  lemma PrintedRange(a: nat, b: nat)
    requires a <= MAX_INT64 && b <= MAX_INT64
    ensures var s := Itoa(a) + ['-'] + Itoa(b);
            IsRange(s) && Fits(PortNumbers(s)) && Decimals(PortNumbers(s)) == [a as int, b]
  {
    var s := Itoa(a) + ['-'] + Itoa(b);
    var x, y := Itoa(a), Itoa(b);
    IndexOfConcat(x, '-', y);
    assert s[..|x|] == x && s[|x| + 1..] == y;
    TwoNumbers(x, y);
    hide Itoa, Fits, Decimals;
  }

  lemma PrintedOne(n: nat)
    requires n <= MAX_INT64
    ensures !IsRange(Itoa(n)) && IsPortList(Unbracket(Itoa(n))) && Split(Unbracket(Itoa(n)), ',') == [Itoa(n)]
  {
    var s := Itoa(n);
    assert IsDigit(s[0]) && IsDigit(s[|s| - 1]);
    assert ',' !in s;
  }

  lemma PrintedList(texts: seq<string>)
    requires |texts| > 1 && (forall t :: t in texts ==> IsDigits(t)) && Split(Join(texts, ','), ',') == texts
    ensures var s := ['['] + Join(texts, ',') + [']'];
            !IsRange(s) && Unbracket(s) == Join(texts, ',') && IsPortList(Unbracket(s))
  {
    ListChars(Join(texts, ','));
    Bracketed(Join(texts, ','));
    hide Join, Split, Unbracket;
  }

  lemma Bracketed(list: string)
    requires list != "" && forall i :: 0 <= i < |list| ==> IsDigit(list[i]) || list[i] == ','
    ensures var s := ['['] + list + [']']; Unbracket(s) == list && '-' !in s
  {
    var s := ['['] + list + [']'];
    assert s[1..] == list + [']'] && (list + [']'])[..|list|] == list;
    assert forall k :: 0 <= k < |s| ==> s[k] == if k == 0 then '[' else if k <= |list| then list[k - 1] else ']';
  }

  lemma PrintedPod(pod: string)
    requires pod == "" || IsSegment(pod)
    ensures IsPodPart(PrintPod(pod)) && PodOf(PrintPod(pod)) == pod
  {
    if pod != "" {
      assert PrintPod(pod)[1..] == pod;
    }
  }

  lemma PrintedScheme(p: Protocol)
    ensures IsScheme(PrintScheme(p)) && SchemeProtocol(PrintScheme(p)) == p
  {
  }

  /** Printing a well-formed key and parsing it gives the key back. */
  lemma EgressRoundTrip(r: K8sRemote)
    requires ValidEgress(r)
    ensures ParseEgressRemoteKey(PrintEgress(r)) == Ok(r)
  {
    hide IsPortPart, PortsMeaning, PrintPorts, IsSegment, IsPodPart, PrintPod, PodOf, EgressKey, ParseEgressRemoteKey, IsScheme;
    PrintedPorts(r.ports, r.hasRange);
    PrintedPod(r.pod);
    PrintedScheme(r.protocol);
    hide PrintScheme, SchemeProtocol;
    EgressGroupsRead(PrintScheme(r.protocol), r.ns, PrintPod(r.pod), PrintPorts(r.ports, r.hasRange));
  }

  lemma IngressRoundTrip(r: K8sRemote)
    requires ValidIngress(r)
    ensures ParseIngressRemoteKey(PrintIngress(r)) == Ok(r)
  {
    PrintedPod(r.pod);
    IngressGroupsRead(r.identity, r.ns, PrintPod(r.pod));
  }

  lemma LocalRoundTrip(r: LocalKey)
    requires ValidLocal(r)
    ensures ParseIngressLocalKey(PrintLocal(r)) == Ok(r)
  {
    PrintedPorts(r.ports, r.hasRange);
    LocalGroupsRead(PrintScheme(r.protocol), r.pod, PrintPorts(r.ports, r.hasRange));
  }

  lemma CIDRRoundTrip(r: CIDRKey)
    requires ValidCIDR(r)
    ensures ParseEgressCIDRKey(PrintCIDR(r)) == Ok(r)
  {
    PrintedPorts(r.ports, r.hasRange);
    CIDRGroupsRead(PrintScheme(r.protocol), r.cidr, PrintPorts(r.ports, r.hasRange));
  }

  /** Conversely, every accepted key yields a well-formed result (in particular non-negative ports, and a
      range flag only with exactly two of them), and printing that result and parsing it again changes
      nothing. */
  lemma EgressParsePrint(key: string)
    requires ParseEgressRemoteKey(key).Ok?
    ensures var r := ParseEgressRemoteKey(key);
            ValidEgress(r.value) && ParseEgressRemoteKey(PrintEgress(r.value)) == r
  {
    var scheme, ns, pod, part := EgressGroupsOf(key);
    EgressGroupsRead(scheme, ns, pod, part);
    MeaningIsValid(part);
    hide ParseEgressRemoteKey, PrintEgress, PortsMeaning, IsPortPart;
    EgressRoundTrip(ParseEgressRemoteKey(key).value);
  }

  lemma IngressParsePrint(key: string)
    requires ParseIngressRemoteKey(key).Ok?
    ensures var r := ParseIngressRemoteKey(key);
            ValidIngress(r.value) && ParseIngressRemoteKey(PrintIngress(r.value)) == r
  {
    var identity, ns, pod := IngressGroupsOf(key);
    IngressGroupsRead(identity, ns, pod);
    hide ParseIngressRemoteKey, PrintIngress;
    IngressRoundTrip(ParseIngressRemoteKey(key).value);
  }

  lemma LocalParsePrint(key: string)
    requires ParseIngressLocalKey(key).Ok?
    ensures var r := ParseIngressLocalKey(key);
            ValidLocal(r.value) && ParseIngressLocalKey(PrintLocal(r.value)) == r
  {
    var scheme, pod, part := LocalGroupsOf(key);
    LocalGroupsRead(scheme, pod, part);
    MeaningIsValid(part);
    hide ParseIngressLocalKey, PrintLocal, PortsMeaning, IsPortPart;
    LocalRoundTrip(ParseIngressLocalKey(key).value);
  }

  lemma CIDRParsePrint(key: string)
    requires ParseEgressCIDRKey(key).Ok?
    ensures var r := ParseEgressCIDRKey(key);
            ValidCIDR(r.value) && ParseEgressCIDRKey(PrintCIDR(r.value)) == r
  {
    var scheme, cidr, part := CIDRGroupsOf(key);
    CIDRGroupsRead(scheme, cidr, part);
    MeaningIsValid(part);
    hide ParseEgressCIDRKey, PrintCIDR, PortsMeaning, IsPortPart, IsCIDRText;
    CIDRRoundTrip(ParseEgressCIDRKey(key).value);
  }

  // ---- schemes, as text --------------------------------------------------

  lemma SchemePrefix(scheme: string, name: string, part: string)
    requires IsScheme(scheme) && ':' !in name && IsPortPart(part)
    ensures "udp://" <= scheme + (name + part) <==> scheme == "udp://"
    ensures "tcp://" <= scheme + (name + part) <==> scheme == "tcp://"
  {
    hide IsPortPart, SchemeIndexFrom;
    var rest := name + part;
    var udp, tcp := "udp://", "tcp://";
    assert |udp| == 6 && |tcp| == 6;
    if scheme == "" {
      assert scheme + rest == rest;
      NoScheme(name, part);
      FindsScheme(udp, rest);
      FindsScheme(tcp, rest);
    } else {
      assert |scheme| == 6;
      SixPrefix(scheme, udp, rest);
      SixPrefix(scheme, tcp, rest);
    }
  }

  lemma SixPrefix(scheme: string, other: string, rest: string)
    requires |scheme| == |other|
    ensures other <= scheme + rest <==> scheme == other
  {
    assert (scheme + rest)[..|scheme|] == scheme;
  }

  lemma FindsScheme(scheme: string, rest: string)
    requires |scheme| == 6 && scheme[3] == ':' && scheme[4] == '/' && scheme[5] == '/'
    ensures scheme <= rest ==> SchemeIndexFrom(rest, 0) != -1
  {
    hide SchemeIndexFrom;
    if scheme <= rest {
      assert rest[3] == scheme[3] && rest[4] == scheme[4] && rest[5] == scheme[5];
    }
  }

  lemma TCPIsScheme()
    ensures IsScheme("tcp://") && SchemeProtocol("tcp://") == SchemeProtocol("") == TCP
  {
  }

  lemma SchemeMeans(scheme: string)
    requires IsScheme(scheme)
    ensures SchemeProtocol(scheme) == if scheme == "udp://" then UDP else TCP
    ensures scheme != "udp://" && scheme != "tcp://" ==> scheme == ""
  {
  }

  /** The protocol of an accepted egress key is UDP exactly if its text starts with `udp://`, and an explicit `tcp://`
      before a key without scheme changes nothing. */
  lemma EgressScheme(key: string)
    requires ParseEgressRemoteKey(key).Ok?
    ensures ParseEgressRemoteKey(key).value.protocol == if "udp://" <= key then UDP else TCP
    ensures !("udp://" <= key) && !("tcp://" <= key) ==> ParseEgressRemoteKey("tcp://" + key) == ParseEgressRemoteKey(key)
  {
    hide ParseEgressRemoteKey, EgressRemotePattern, IsPortPart, PortsMeaning, IsSegment, IsPodPart, PodOf, IsScheme, SchemeProtocol, EgressKey,
      NumbersFit;
    EgressAcceptedExactly(key);
    var scheme, ns, pod, part := EgressGroupsOf(key);
    SchemeMeans(scheme);
    TCPIsScheme();
    EgressGroupsRead(scheme, ns, pod, part);
    NameChars(ns, pod);
    SchemePrefix(scheme, ns + pod, part);
    EgressGroupsRead("tcp://", ns, pod, part);
    EgressKeyText(scheme, ns, pod, part);
    EgressKeyText("tcp://", ns, pod, part);
    if scheme == "" {
      assert "" + ((ns + pod) + part) == (ns + pod) + part;
    }
  }

  lemma EgressKeyText(scheme: string, ns: string, pod: string, part: string)
    ensures EgressKey(scheme, ns, pod, part) == scheme + ((ns + pod) + part)
  {
  }

  lemma LocalScheme(key: string)
    requires ParseIngressLocalKey(key).Ok?
    ensures ParseIngressLocalKey(key).value.protocol == if "udp://" <= key then UDP else TCP
    ensures !("udp://" <= key) && !("tcp://" <= key) ==> ParseIngressLocalKey("tcp://" + key) == ParseIngressLocalKey(key)
  {
    hide ParseIngressLocalKey, IngressLocalPattern, IsPortPart, PortsMeaning, IsWord, IsSegment, IsScheme, SchemeProtocol, NumbersFit;
    LocalAcceptedExactly(key);
    var scheme, pod, part := LocalGroupsOf(key);
    SchemeMeans(scheme);
    TCPIsScheme();
    LocalGroupsRead(scheme, pod, part);
    SegmentChars(pod);
    SchemePrefix(scheme, pod, part);
    LocalGroupsRead("tcp://", pod, part);
    if scheme == "" {
      assert "" + (pod + part) == pod + part;
    }
  }

  lemma CIDRScheme(key: string)
    requires ParseEgressCIDRKey(key).Ok?
    ensures ParseEgressCIDRKey(key).value.protocol == if "udp://" <= key then UDP else TCP
    ensures !("udp://" <= key) && !("tcp://" <= key) ==> ParseEgressCIDRKey("tcp://" + key) == ParseEgressCIDRKey(key)
  {
    hide ParseEgressCIDRKey, EgressCIDRPattern, IsPortPart, PortsMeaning, IsCIDRText, IsScheme, SchemeProtocol, NumbersFit;
    CIDRAcceptedExactly(key);
    var scheme, cidr, part := CIDRGroupsOf(key);
    SchemeMeans(scheme);
    TCPIsScheme();
    CIDRGroupsRead(scheme, cidr, part);
    CIDRChars(cidr);
    SchemePrefix(scheme, cidr, part);
    CIDRGroupsRead("tcp://", cidr, part);
    if scheme == "" {
      assert "" + (cidr + part) == cidr + part;
    }
  }

  /** A list may go without its brackets. */
  lemma BareList(texts: seq<string>)
    requires |texts| > 1 && forall t :: t in texts ==> IsDigits(t)
    ensures var bare, bracketed := Join(texts, ','), ['['] + Join(texts, ',') + [']'];
            IsPorts(bare) && IsPorts(bracketed) && PortSpec(bare) == PortSpec(bracketed)
  {
    hide Join, Split, IsPortList, IsRange, TrimSpace, PortSpec;
    NoCommas(texts);
    SplitJoin(texts, ',');
    PrintedList(texts);
    var list := Join(texts, ',');
    ListChars(list);
    BareText(list);
    TrimmedList(list);
    SameVerdict(list, ['['] + list + [']']);
  }

  lemma NoCommas(texts: seq<string>)
    requires forall t :: t in texts ==> IsDigits(t)
    ensures forall t :: t in texts ==> ',' !in t
  {
  }

  lemma BareText(list: string)
    requires list != "" && forall i :: 0 <= i < |list| ==> IsDigit(list[i]) || list[i] == ','
    ensures Unbracket(list) == list && !IsRange(list)
  {
    assert '-' !in list;
  }

  lemma TrimmedList(list: string)
    requires list != "" && forall i :: 0 <= i < |list| ==> IsDigit(list[i]) || list[i] == ','
    ensures TrimSpace(list) == list && TrimSpace(['['] + list + [']']) == ['['] + list + [']']
  {
    hide TrimSpace;
    var s := ['['] + list + [']'];
    assert s[0] == '[' && s[|s| - 1] == ']';
    ListCharsPlain(list);
    TrimDigits(list);
    TrimDigits(s);
  }

  lemma SameVerdict(a: string, b: string)
    requires !IsRange(a) && !IsRange(b) && Unbracket(a) == Unbracket(b) && TrimSpace(a) == a && TrimSpace(b) == b
    ensures PortSpec(a) == PortSpec(b)
  {
    hide IsRange, Unbracket, TrimSpace, BareSpec;
  }
}
