/** The shorthand key grammar: its patterns, the parsers that read matched keys and a canonical
    printer. The patterns are whole-text regular expressions; their groups are the slices between
    the cut positions `i`, `j` and `k`. */
module Shorthand {
  import opened Common
  import opened Text

  datatype Protocol = TCP | UDP

  /** A parsed `[<tcp|udp>://]<ns>[/<pod>][:<ports>]` or `[<identity>@]<ns>[/<pod>]`. */
  datatype K8sRemote = K8sRemote(ns: string, pod: string, identity: string,
                                 protocol: Protocol, ports: seq<int>, hasRange: bool)

  /** A parsed `[<tcp|udp>://]<pod>[:<ports>]`. */
  datatype LocalKey = LocalKey(pod: string, protocol: Protocol, ports: seq<int>, hasRange: bool)

  /** A parsed `[<tcp|udp>://]<cidr>[:<ports>]`. */
  datatype CIDRKey = CIDRKey(cidr: string, protocol: Protocol, ports: seq<int>, hasRange: bool)

  // ---- patterns ----------------------------------------------------------

  /** ((tcp|udp)://)? */
  predicate IsScheme(s: string) { s == "" || s == "tcp://" || s == "udp://" }

  /** [A-Za-z0-9-]+|\* */
  predicate IsSegment(s: string) { s == "*" || IsName(s) }

  /** (/([A-Za-z0-9-]+|\*))? */
  predicate IsPodPart(s: string) { s == "" || (s[0] == '/' && IsSegment(s[1..])) }

  /** [\w-]+ */
  predicate IsWord(s: string) { s != "" && forall i :: 0 <= i < |s| ==> IsWordChar(s[i]) }

  /** \d+-\d+ */
  predicate IsRange(s: string) {
    var i := Index(s, '-');
    i >= 0 && IsDigits(s[..i]) && IsDigits(s[i + 1..])
  }

  /** \d+(,\d+)* */
  predicate IsPortList(s: string) { forall p :: p in Split(s, ',') ==> IsDigits(p) }

  /** Drops one leading "[" and one trailing "]". */
  function Unbracket(s: string): string {
    var t := if s != "" && s[0] == '[' then s[1..] else s;
    if t != "" && t[|t| - 1] == ']' then t[..|t| - 1] else t
  }

  /** \d+|\d+-\d+|\[?\d+(,\d+)*\]? */
  predicate IsPorts(s: string) { IsRange(s) || IsPortList(Unbracket(s)) }

  /** (:(ports))? */
  predicate IsPortPart(s: string) { s == "" || (s[0] == ':' && IsPorts(s[1..])) }

  /** The length of the longest prefix of digits. */
  function DigitRun(s: string): (n: nat)
    ensures n <= |s| && (n < |s| ==> !IsDigit(s[n]))
    ensures forall k :: 0 <= k < n ==> IsDigit(s[k])
  {
    if s == "" || !IsDigit(s[0]) then 0 else 1 + DigitRun(s[1..])
  }

  /** Non-empty digit runs separated by the characters of `seps` in order. */
  predicate IsRuns(s: string, seps: string)
    decreases |seps|
  {
    var n := DigitRun(s);
    n > 0 && if seps == "" then n == |s| else n < |s| && s[n] == seps[0] && IsRuns(s[n + 1..], seps[1..])
  }

  /** (\d+\.){3}\d+/\d+ */
  predicate IsCIDRText(s: string) { IsRuns(s, ".../") }

  predicate EgressGroups(key: string, i: nat, j: nat, k: nat) {
    && i <= j <= k <= |key|
    && IsScheme(key[..i]) && IsSegment(key[i..j]) && IsPodPart(key[j..k]) && IsPortPart(key[k..])
  }

  predicate EgressRemotePattern(key: string) {
    exists i, j, k :: 0 <= i <= |key| && 0 <= j <= |key| && 0 <= k <= |key| && EgressGroups(key, i, j, k)
  }

  predicate IngressGroups(key: string, i: nat, j: nat) {
    && i <= j <= |key|
    && (i > 0 ==> key[i - 1] == '@' && IsName(key[..i - 1]))
    && IsSegment(key[i..j]) && IsPodPart(key[j..])
  }

  predicate IngressRemotePattern(key: string) {
    exists i, j :: 0 <= i <= |key| && 0 <= j <= |key| && IngressGroups(key, i, j)
  }

  predicate LocalGroups(key: string, i: nat, j: nat) {
    i <= j <= |key| && IsScheme(key[..i]) && IsWord(key[i..j]) && IsPortPart(key[j..])
  }

  predicate IngressLocalPattern(key: string) {
    exists i, j :: 0 <= i <= |key| && 0 <= j <= |key| && LocalGroups(key, i, j)
  }

  predicate CIDRGroups(key: string, i: nat, j: nat) {
    i <= j <= |key| && IsScheme(key[..i]) && IsCIDRText(key[i..j]) && IsPortPart(key[j..])
  }

  predicate EgressCIDRPattern(key: string) {
    exists i, j :: 0 <= i <= |key| && 0 <= j <= |key| && CIDRGroups(key, i, j)
  }

  // ---- parsers -----------------------------------------------------------

  /** Every piece as a 64-bit number; the first piece that is none decides the error. */
  function AtoiAll(parts: seq<string>): (r: Result<seq<int>>)
    ensures r.Ok? ==> |r.value| == |parts|
  {
    if parts == [] then Ok([])
    else
      match AtoiAll(parts[..|parts| - 1])
      case Err(e) => Err(e)
      case Ok(ns) =>
        match Atoi(TrimSpace(parts[|parts| - 1]))
        case None => Err(BadPort(parts[|parts| - 1]))
        case Some(n) => Ok(ns + [n])
  }

  function PortSpec(text: string): Result<(seq<int>, bool)> { BareSpec(Unbracket(TrimSpace(text))) }

  /** A range, or a list of numbers. */
  function BareSpec(s: string): Result<(seq<int>, bool)> {
    var i := Index(s, '-');
    if i >= 0 then
      match (Atoi(s[..i]), Atoi(s[i + 1..]))
      case (Some(a), Some(b)) => Ok(([a, b], true))
      case _ => Err(BadPort(s))
    else
      match AtoiAll(Split(s, ','))
      case Ok(ns) => Ok((ns, false))
      case Err(e) => Err(e)
  }

  method ParsePortSpec(text: string) returns (r: Result<(seq<int>, bool)>)
    ensures r == PortSpec(text)
  {
    hide Atoi, TrimSpace, Unbracket, Split, Index, AtoiAll;
    var s := Unbracket(TrimSpace(text));
    var i := Index(s, '-');
    if i >= 0 {
      var a, b := Atoi(s[..i]), Atoi(s[i + 1..]);
      return if a.None? || b.None? then Err(BadPort(s)) else Ok(([a.value, b.value], true));
    }
    var parts := Split(s, ',');
    var out: seq<int> := [];
    AtoiNone();
    for k := 0 to |parts|
      invariant AtoiAll(parts[..k]) == Ok(out)
    {
      AtoiNext(parts, k);
      var n := Atoi(TrimSpace(parts[k]));
      if n.None? {
        FirstBadPort(parts, k);
        return Err(BadPort(parts[k]));
      }
      out := out + [n.value];
    }
    assert parts[..|parts|] == parts;
    return Ok((out, false));
  }

  lemma AtoiNone()
    ensures AtoiAll([]) == Ok([])
  {
  }

  lemma AtoiNext(parts: seq<string>, k: nat)
    requires k < |parts| && AtoiAll(parts[..k]).Ok?
    ensures var n := Atoi(TrimSpace(parts[k]));
            AtoiAll(parts[..k + 1]) == if n.None? then Err(BadPort(parts[k])) else Ok(AtoiAll(parts[..k]).value + [n.value])
  {
    hide Atoi, TrimSpace;
    assert parts[..k + 1][..k] == parts[..k];
  }

  lemma {:induction false} FirstBadPort(parts: seq<string>, k: nat)
    requires k < |parts| && AtoiAll(parts[..k]).Ok? && Atoi(TrimSpace(parts[k])).None?
    ensures AtoiAll(parts) == Err(BadPort(parts[k]))
  {
    var init := parts[..|parts| - 1];
    if k < |parts| - 1 {
      assert init[..k] == parts[..k];
      FirstBadPort(init, k);
    }
  }

  /** Cuts `<scheme>://` off the front. */
  function SplitScheme(key: string): (Protocol, string) {
    var i := SchemeIndexFrom(key, 0);
    if i >= 0 then (if key[..i] == "udp" then UDP else TCP, key[i + 3..]) else (TCP, key)
  }

  /** Cuts the port part off the back, at the colon at position `i`, if there is one. */
  function SplitPorts(rest: string, i: int): Result<(string, seq<int>, bool)>
    requires -1 <= i < |rest|
  {
    if i < 0 then Ok((rest, [], false))
    else
      match PortSpec(rest[i + 1..])
      case Err(e) => Err(e)
      case Ok((ports, hasRange)) => Ok((rest[..i], ports, hasRange))
  }

  function SplitPod(name: string): (string, string) {
    var i := Index(name, '/');
    if i >= 0 then (name[..i], name[i + 1..]) else (name, "")
  }

  function ParseEgressRemoteKey(key: string): Result<K8sRemote> {
    if !EgressRemotePattern(key) then Err(BadEgressKey(key))
    else
      var (protocol, rest) := SplitScheme(key);
      match SplitPorts(rest, Index(rest, ':'))
      case Err(e) => Err(e)
      case Ok((name, ports, hasRange)) =>
        var (ns, pod) := SplitPod(name);
        Ok(K8sRemote(ns, pod, "", protocol, ports, hasRange))
  }

  function ParseIngressRemoteKey(key: string): Result<K8sRemote> {
    if !IngressRemotePattern(key) then Err(BadIngressKey(key))
    else
      var i := Index(key, '@');
      var identity := if i >= 0 then key[..i] else "";
      var (ns, pod) := SplitPod(if i >= 0 then key[i + 1..] else key);
      Ok(K8sRemote(ns, pod, identity, TCP, [], false))
  }

  function ParseIngressLocalKey(key: string): Result<LocalKey> {
    if !IngressLocalPattern(key) then Err(BadLocalKey(key))
    else
      var (protocol, rest) := SplitScheme(key);
      match SplitPorts(rest, Index(rest, ':'))
      case Err(e) => Err(e)
      case Ok((pod, ports, hasRange)) => Ok(LocalKey(pod, protocol, ports, hasRange))
  }

  function ParseEgressCIDRKey(key: string): Result<CIDRKey> {
    if !EgressCIDRPattern(key) then Err(BadCIDRKey(key))
    else
      var (protocol, rest) := SplitScheme(key);
      var i := LastIndex(rest, ':');
      match SplitPorts(rest, if i > LastIndex(rest, '/') then i else -1)
      case Err(e) => Err(e)
      case Ok((cidr, ports, hasRange)) => Ok(CIDRKey(cidr, protocol, ports, hasRange))
  }

  function ParseIngressCIDRKey(key: string): Result<CIDRKey> {
    if !IsCIDRText(key) then Err(BadCIDRKey(key)) else Ok(CIDRKey(key, TCP, [], false))
  }

  // ---- what the port part denotes ----------------------------------------

  /** The number texts of a port specification. */
  function PortNumbers(s: string): seq<string> {
    if IsRange(s) then [s[..Index(s, '-')], s[Index(s, '-') + 1..]] else Split(Unbracket(s), ',')
  }

  predicate Fits(numbers: seq<string>) {
    forall n :: n in numbers ==> Decimal(n) <= MAX_INT64
  }

  /** Numbers fit up to 2^63 - 1. */
  lemma FitsExactly(numbers: seq<string>)
    ensures Fits(numbers) <==> forall n :: n in numbers ==> Decimal(n) <= 9223372036854775807
  {
    hide Decimal;
  }

  /** The port list a port part denotes, unless a number overflows. */
  function PortsMeaning(part: string): (r: Option<(seq<int>, bool)>)
    requires IsPortPart(part)
  {
    if part == "" then Some(([], false))
    else
      var numbers := PortNumbers(part[1..]);
      if Fits(numbers) then Some((Decimals(numbers), IsRange(part[1..]))) else None
  }

  function Decimals(numbers: seq<string>): (out: seq<int>)
    ensures |out| == |numbers|
    ensures forall k :: 0 <= k < |numbers| ==> out[k] == Decimal(numbers[k])
  {
    if numbers == [] then [] else Decimals(numbers[..|numbers| - 1]) + [Decimal(numbers[|numbers| - 1])]
  }

  lemma TrimDigits(s: string)
    requires s != "" && !IsSpace(s[0]) && !IsSpace(s[|s| - 1])
    ensures TrimSpace(s) == s
  {
  }

  lemma {:induction false} AtoiAllDigits(parts: seq<string>)
    requires forall p :: p in parts ==> IsDigits(p)
    ensures AtoiAll(parts).Ok? <==> Fits(parts)
    ensures Fits(parts) ==> AtoiAll(parts) == Ok(Decimals(parts))
  {
    if parts != [] {
      var init, last := parts[..|parts| - 1], parts[|parts| - 1];
      assert last in parts && parts == init + [last];
      AtoiAllDigits(init);
      AtoiDigitsTrimmed(last);
      assert Fits(parts) <==> Fits(init) && Decimal(last) <= MAX_INT64;
    }
  }

  lemma AtoiDigitsTrimmed(s: string)
    requires IsDigits(s)
    ensures Atoi(TrimSpace(s)) == if Decimal(s) <= MAX_INT64 then Some(Decimal(s)) else None
  {
    assert IsDigit(s[0]) && IsDigit(s[|s| - 1]);
    TrimDigits(s);
    AtoiDigits(s);
  }

  /** Characters of a port specification: digits and punctuation, never a colon or a slash. */
  lemma PortChars(s: string)
    requires IsPorts(s)
    ensures s != ""
    ensures forall i :: 0 <= i < |s| ==> s[i] != ':' && s[i] != '/' && !IsSpace(s[i])
  {
    if IsRange(s) {
      RangeChars(s);
    } else {
      hide IsPortList, IsSpace;
      ListChars(Unbracket(s));
      ListCharsPlain(Unbracket(s));
      assert s == Unbracket(s) || s == "[" + Unbracket(s) || s == Unbracket(s) + "]" || s == "[" + Unbracket(s) + "]";
    }
  }

  lemma RangeChars(s: string)
    requires IsRange(s)
    ensures s != "" && forall i :: 0 <= i < |s| ==> s[i] != ':' && s[i] != '/' && !IsSpace(s[i])
  {
    var c := Index(s, '-');
    assert s == s[..c] + ['-'] + s[c + 1..];
    assert forall i :: 0 <= i < |s| && i != c ==> s[i] == if i < c then s[..c][i] else s[c + 1..][i - c - 1];
  }

  lemma ListCharsPlain(s: string)
    requires forall i :: 0 <= i < |s| ==> IsDigit(s[i]) || s[i] == ','
    ensures forall i :: 0 <= i < |s| ==> s[i] != ':' && s[i] != '/' && !IsSpace(s[i])
    ensures !IsSpace('[') && !IsSpace(']')
  {
  }

  lemma {:induction false} ListChars(s: string)
    requires IsPortList(s)
    ensures s != ""
    ensures forall i :: 0 <= i < |s| ==> IsDigit(s[i]) || s[i] == ','
    decreases |s|
  {
    var c := Index(s, ',');
    if c < 0 {
      assert Split(s, ',') == [s];
      assert IsDigits(s);
    } else {
      var tail := s[c + 1..];
      assert s[..c] in Split(s, ',') && forall p :: p in Split(tail, ',') ==> p in Split(s, ',');
      ListChars(tail);
      assert forall i :: 0 <= i < |s| && i != c ==> s[i] == if i < c then s[..c][i] else tail[i - c - 1];
    }
  }

  /** On text the pattern accepts, the port parser reads off exactly the numbers, and fails exactly
      when one of them overflows. */
  lemma PortSpecMeaning(s: string)
    requires IsPorts(s)
    ensures PortSpec(s).Ok? <==> Fits(PortNumbers(s))
    ensures PortSpec(s).Ok? ==> PortSpec(s).value == (Decimals(PortNumbers(s)), IsRange(s))
  {
    PortChars(s);
    TrimDigits(s);
    if IsRange(s) {
      RangeMeaning(s);
    } else {
      ListChars(Unbracket(s));
      AtoiAllDigits(Split(Unbracket(s), ','));
    }
  }

  lemma RangeMeaning(s: string)
    requires IsRange(s) && TrimSpace(s) == s
    ensures PortSpec(s).Ok? <==> Fits(PortNumbers(s))
    ensures PortSpec(s).Ok? ==> PortSpec(s).value == (Decimals(PortNumbers(s)), true)
  {
    var c := Index(s, '-');
    var a, b := s[..c], s[c + 1..];
    assert s[0] == a[0] && s[|s| - 1] == b[|b| - 1];
    assert IsDigit(a[0]) && IsDigit(b[|b| - 1]);
    assert Unbracket(s) == s;
    AtoiDigits(a);
    AtoiDigits(b);
    assert PortNumbers(s) == [a, b];
    TwoNumbers(a, b);
    hide Decimals, Fits, Decimal, Atoi;
  }

  lemma TwoNumbers(a: string, b: string)
    ensures Decimals([a, b]) == [Decimal(a), Decimal(b)]
    ensures Fits([a, b]) <==> Decimal(a) <= MAX_INT64 && Decimal(b) <= MAX_INT64
  {
    assert [a, b][..1] == [a] && [a][..0] == [];
    assert Decimals([a]) == [Decimal(a)];
    assert a in [a, b] && b in [a, b];
    hide Decimal;
  }
}
