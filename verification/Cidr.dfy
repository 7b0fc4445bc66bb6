/** IPv4 address blocks in prefix notation (section 3.1 of RFC 4632) and the exclusion filter
    for egress CIDR rules. An address is a number below 2^32. */
module Cidr {
  import opened Common
  import opened Text

  const ADDRESSES: nat := 0x1_0000_0000

  datatype Block = Block(addr: nat, prefix: nat) {
    predicate Valid() { addr < ADDRESSES && prefix <= 32 }

    function Size(): nat
      requires prefix <= 32
    {
      Pow2(32 - prefix)
    }

    /** Masked comparison: `x` and the block's address agree on the first `prefix` bits. */
    predicate Contains(x: nat)
      requires prefix <= 32
    {
      x / Size() == addr / Size()
    }
  }

  function Pow2(n: nat): (p: nat)
    ensures p >= 1
  {
    if n == 0 then 1 else 2 * Pow2(n - 1)
  }

  // ---- text to block -----------------------------------------------------

  /** One octet: no leading zero, at most 255. */
  function ParseOctet(s: string): Option<nat> {
    if IsDigits(s) && (|s| == 1 || s[0] != '0') && Decimal(s) <= 255 then Some(Decimal(s)) else None
  }

  function ParseAddr(s: string): (r: Option<nat>)
    ensures r.Some? ==> r.value < ADDRESSES
  {
    var parts := Split(s, '.');
    if |parts| != 4 then None
    else
      match (ParseOctet(parts[0]), ParseOctet(parts[1]), ParseOctet(parts[2]), ParseOctet(parts[3]))
      case (Some(a), Some(b), Some(c), Some(d)) => Some(((a * 256 + b) * 256 + c) * 256 + d)
      case _ => None
  }

  function ParseCIDR(s: string): (r: Option<Block>)
    ensures r.Some? ==> r.value.Valid()
  {
    var i := Index(s, '/');
    if i < 0 then None
    else
      match ParseAddr(s[..i])
      case None => None
      case Some(addr) =>
        if IsDigits(s[i + 1..]) && Decimal(s[i + 1..]) <= 32 then Some(Block(addr, Decimal(s[i + 1..]))) else None
  }

  // ---- the notation ------------------------------------------------------

  predicate Octets(parts: seq<nat>) { |parts| == 4 && forall k :: 0 <= k < 4 ==> parts[k] <= 255 }

  /** `<a>.<b>.<c>.<d>`, in decimal. */
  function PrintAddr(parts: seq<nat>): string
    requires |parts| == 4
  {
    Join([Itoa(parts[0]), Itoa(parts[1]), Itoa(parts[2]), Itoa(parts[3])], '.')
  }

  lemma OctetOf(n: nat)
    ensures ParseOctet(Itoa(n)) == if n <= 255 then Some(n) else None
  {
    NoLeadingZero(n);
    hide Digits, Decimal;
  }

  /** The first octet is the most significant one. */
  lemma AddrOf(parts: seq<nat>)
    requires Octets(parts)
    ensures ParseAddr(PrintAddr(parts)) == Some(0x100_0000 * parts[0] + 0x1_0000 * parts[1] + 0x100 * parts[2] + parts[3])
    ensures '/' !in PrintAddr(parts)
  {
    hide Itoa, Split, ParseOctet;
    var texts := [Itoa(parts[0]), Itoa(parts[1]), Itoa(parts[2]), Itoa(parts[3])];
    forall k | 0 <= k < 4 ensures ParseOctet(texts[k]) == Some(parts[k]) && '.' !in texts[k] && '/' !in texts[k] {
      OctetOf(parts[k]);
    }
    SplitJoin(texts, '.');
    JoinFour(texts, '/');
    hide Join;
  }

  lemma JoinFour(texts: seq<string>, c: char)
    requires |texts| == 4 && c != '.' && forall k :: 0 <= k < 4 ==> c !in texts[k]
    ensures c !in Join(texts, '.')
  {
    assert texts[1..][1..] == texts[2..] && texts[2..][1..] == texts[3..];
    assert c !in Join(texts[3..], '.');
    assert c !in Join(texts[2..], '.');
    assert c !in Join(texts[1..], '.');
  }

  /** A text names a block exactly if it is four octets without leading zeros, a slash and digits for at most 32. */
  lemma CIDRText(parts: seq<nat>, mask: string)
    requires Octets(parts) && IsDigits(mask) && Decimal(mask) <= 32
    ensures ParseCIDR(PrintAddr(parts) + ['/'] + mask) ==
            Some(Block(0x100_0000 * parts[0] + 0x1_0000 * parts[1] + 0x100 * parts[2] + parts[3], Decimal(mask)))
  {
    hide ParseAddr, PrintAddr;
    AddrOf(parts);
    SplitAt(PrintAddr(parts), '/', mask);
  }

  lemma CIDRTextOnly(s: string) returns (parts: seq<nat>, mask: string)
    requires ParseCIDR(s).Some?
    ensures Octets(parts) && IsDigits(mask) && Decimal(mask) <= 32 && s == PrintAddr(parts) + ['/'] + mask
  {
    hide ParseAddr, PrintAddr;
    var i := Index(s, '/');
    parts := AddrTextOnly(s[..i]);
    mask := s[i + 1..];
    assert s == s[..i] + ['/'] + mask;
  }

  lemma AddrTextOnly(s: string) returns (parts: seq<nat>)
    requires ParseAddr(s).Some?
    ensures Octets(parts) && s == PrintAddr(parts)
  {
    hide Split, Join, Itoa;
    var texts := Split(s, '.');
    parts := seq(4, k requires 0 <= k < 4 => Decimal(texts[k]));
    forall k | 0 <= k < 4 ensures texts[k] == Itoa(parts[k]) && parts[k] <= 255 {
      OctetText(texts[k]);
    }
    assert texts == [texts[0], texts[1], texts[2], texts[3]];
    JoinSplit(s, '.');
  }

  lemma OctetText(s: string)
    requires ParseOctet(s).Some?
    ensures s == Itoa(Decimal(s)) && Decimal(s) <= 255
  {
    OnlySpelling(s);
  }

  // ---- blocks as address sets --------------------------------------------

  ghost predicate Subset(inner: Block, outer: Block)
    requires inner.Valid() && outer.Valid()
  {
    forall x: nat :: x < ADDRESSES && inner.Contains(x) ==> outer.Contains(x)
  }

  ghost predicate StrictSubset(inner: Block, outer: Block)
    requires inner.Valid() && outer.Valid()
  {
    Subset(inner, outer) && !Subset(outer, inner)
  }

  /** A full prefix names one address, an empty one all of them. */
  lemma ExtremeBlocks(addr: nat, x: nat)
    requires addr < ADDRESSES && x < ADDRESSES
    ensures Block(addr, 32).Contains(x) <==> x == addr
    ensures Block(addr, 0).Contains(x)
  {
    SingleAddress(addr);
    hide Pow2;
    WholeSpace(addr, x);
  }

  lemma SingleAddress(addr: nat)
    ensures Block(addr, 32).Size() == 1
  {
  }

  /** One more bit of prefix halves a block: those of its addresses that agree with its own in that bit. */
  lemma HalfBlock(addr: nat, prefix: nat, x: nat)
    requires addr < ADDRESSES && x < ADDRESSES && prefix < 32
    ensures var bit := Pow2(31 - prefix);
            Block(addr, prefix + 1).Contains(x) <==> Block(addr, prefix).Contains(x) && (x / bit) % 2 == (addr / bit) % 2
  {
    var bit := Pow2(31 - prefix);
    assert Pow2(32 - prefix) == bit * 2;
    DivDiv(x, bit, 2);
    DivDiv(addr, bit, 2);
  }

  lemma {:induction false} Pow2Add(m: nat, n: nat)
    ensures Pow2(m + n) == Pow2(m) * Pow2(n)
  {
    if m > 0 {
      Pow2Add(m - 1, n);
      MulAssoc(2, Pow2(m - 1), Pow2(n));
    }
  }

  lemma {:induction false} MulBounds(d: nat, k: int)
    ensures k >= 1 ==> d * k >= d
    ensures k <= 0 ==> d * k <= 0
    ensures k <= -1 ==> d * k <= 0 - d
    decreases if k < 0 then -k else k
  {
    if k > 1 {
      MulBounds(d, k - 1);
      assert d * k == d * (k - 1) + d;
    } else if k < -1 {
      MulBounds(d, k + 1);
      assert d * k == d * (k + 1) - d;
    }
  }

  lemma QuotientUnique(x: int, d: int, q: int, r: int)
    requires d > 0 && 0 <= r < d && x == d * q + r
    ensures x / d == q
  {
    var q', r' := x / d, x % d;
    assert x == d * q' + r';
    var gap := q - q';
    assert d * gap == d * q - d * q' == r' - r;
    MulBounds(d, gap);
  }

  lemma DivDiv(x: nat, a: nat, b: nat)
    requires a >= 1 && b >= 1
    ensures a * b >= 1 && x / (a * b) == (x / a) / b
  {
    MulBounds(a, b);
    var q, r, s := x / a / b, x / a % b, x % a;
    Recombine(x, a, b, q, r, s);
    RemainderBound(a, b, r, s);
    QuotientUnique(x, a * b, q, a * r + s);
  }

  lemma Recombine(x: int, a: int, b: int, q: int, r: int, s: int)
    requires x == a * (b * q + r) + s
    ensures x == (a * b) * q + (a * r + s)
  {
    Distribute(a, b * q, r);
    MulAssoc(a, b, q);
  }

  lemma RemainderBound(a: nat, b: nat, r: nat, s: nat)
    requires r < b && s < a
    ensures 0 <= a * r + s < a * b
  {
    MulBounds(a, b - r);
    Distribute(a, r, b - r);
    MulNonNeg(a, r);
  }

  lemma Distribute(a: int, b: int, c: int)
    ensures a * (b + c) == a * b + a * c
  {
  }

  lemma MulAssoc(a: int, b: int, c: int)
    ensures a * (b * c) == (a * b) * c
  {
  }

  lemma MulNonNeg(a: nat, b: nat)
    ensures a * b >= 0
  {
  }

  /** A longer prefix names a block that lies inside the block of the same address with a shorter one. */
  lemma LongerPrefix(inner: Block, outer: Block)
    requires inner.Valid() && outer.Valid() && outer.prefix <= inner.prefix && outer.Contains(inner.addr)
    ensures Subset(inner, outer)
  {
    Pow2Add(32 - inner.prefix, inner.prefix - outer.prefix);
    forall x: nat | x < ADDRESSES && inner.Contains(x) ensures outer.Contains(x) {
      DivDiv(x, inner.Size(), Pow2(inner.prefix - outer.prefix));
      DivDiv(inner.addr, inner.Size(), Pow2(inner.prefix - outer.prefix));
    }
  }

  /** A shorter prefix names too many addresses: two of them are a whole `outer` block apart. */
  lemma ShorterPrefix(inner: Block, outer: Block)
    requires inner.Valid() && outer.Valid() && inner.prefix < outer.prefix
    ensures !Subset(inner, outer)
  {
    var small, big := outer.Size(), inner.Size();
    Pow2Add(32 - outer.prefix, outer.prefix - inner.prefix);
    Pow2Add(32 - inner.prefix, inner.prefix);
    Pow2Is32();
    Doubles(small, Pow2(outer.prefix - inner.prefix));
    var base := TwoBlocks(inner.addr, small, big, Pow2(inner.prefix));
    assert inner.Contains(base) && inner.Contains(base + small);
    assert !(outer.Contains(base) && outer.Contains(base + small));
  }

  lemma TwoBlocks(addr: nat, small: nat, big: nat, blocks: nat) returns (base: nat)
    requires 1 <= small < big && addr < big * blocks
    ensures base + small < big * blocks
    ensures base / big == (base + small) / big == addr / big
    ensures (base + small) / small != base / small
  {
    var q := addr / big;
    base := big * q;
    WholeBlock(addr, big, blocks);
    QuotientUnique(base, big, q, 0);
    QuotientUnique(base + small, big, q, small);
    NextBlock(base, small);
  }

  lemma Doubles(d: nat, k: nat)
    requires d >= 1 && k >= 2
    ensures d < d * k
  {
    MulBounds(d, k - 1);
    Distribute(d, k - 1, 1);
  }

  lemma NextBlock(base: nat, size: nat)
    requires size >= 1
    ensures (base + size) / size == base / size + 1
  {
    var q, r := base / size, base % size;
    Distribute(size, q, 1);
    QuotientUnique(base + size, size, q + 1, r);
  }

  lemma Pow2Is32()
    ensures Pow2(32) == ADDRESSES
  {
    assert Pow2(4) == 16;
    Pow2Add(4, 4);
    assert Pow2(8) == 256;
    Pow2Add(8, 8);
    assert Pow2(16) == 65536;
    Pow2Add(16, 16);
  }

  lemma WholeBlock(addr: nat, size: nat, blocks: nat)
    requires size >= 1 && addr < size * blocks
    ensures size * (addr / size) + size <= size * blocks
  {
    var q := addr / size;
    assert size * q <= addr;
    var gap := blocks - q;
    assert size * gap == size * blocks - size * q;
    MulBounds(size, gap);
  }

  /** The test the filter performs, one comparison of prefix lengths and one address lookup, decides
      inclusion of the whole address sets. */
  lemma ContainmentTest(inner: Block, outer: Block)
    requires inner.Valid() && outer.Valid()
    ensures (outer.prefix <= inner.prefix && outer.Contains(inner.addr)) <==> Subset(inner, outer)
  {
    if outer.prefix <= inner.prefix {
      if outer.Contains(inner.addr) {
        LongerPrefix(inner, outer);
      }
    } else {
      ShorterPrefix(inner, outer);
    }
  }

  /** Two blocks that share an address are nested. */
  lemma NestedOrDisjoint(a: Block, b: Block, x: nat)
    requires a.Valid() && b.Valid() && x < ADDRESSES && a.Contains(x) && b.Contains(x)
    ensures Subset(a, b) || Subset(b, a)
  {
    var longer, shorter := if a.prefix <= b.prefix then (b, a) else (a, b), if a.prefix <= b.prefix then a else b;
    var inner := longer.0;
    Pow2Add(32 - inner.prefix, inner.prefix - shorter.prefix);
    DivDiv(x, inner.Size(), Pow2(inner.prefix - shorter.prefix));
    DivDiv(inner.addr, inner.Size(), Pow2(inner.prefix - shorter.prefix));
    LongerPrefix(inner, shorter);
  }

  // ---- the exclusion filter ----------------------------------------------

  /** What an exclusion must be to reach the `except` list of the rule `cidr`. */
  ghost predicate Kept(cidr: string, rule: Block, ex: string)
    requires rule.Valid()
  {
    ex != cidr && ParseCIDR(ex).Some? && Subset(ParseCIDR(ex).value, rule)
  }

  ghost function KeptOf(cidr: string, rule: Block, exclusions: seq<string>): (out: seq<string>)
    requires rule.Valid()
    ensures forall ex :: ex in out <==> ex in exclusions && Kept(cidr, rule, ex)
  {
    if exclusions == [] then []
    else
      var last := exclusions[|exclusions| - 1];
      KeptOf(cidr, rule, exclusions[..|exclusions| - 1]) + if Kept(cidr, rule, last) then [last] else []
  }

  /** The `except` list of a rule: nothing for a rule whose own text is malformed. */
  ghost function Exclusions(cidr: string, exclusions: seq<string>): seq<string> {
    match ParseCIDR(cidr)
    case None => []
    case Some(rule) => KeptOf(cidr, rule, exclusions)
  }

  method ApplyExcludeCIDRs(cidr: string, exclusions: seq<string>) returns (out: seq<string>)
    ensures out == Exclusions(cidr, exclusions)
  {
    out := [];
    if |exclusions| == 0 {
      return;
    }
    var parsed := ParseCIDR(cidr);
    if parsed.None? {
      return;
    }
    var rule := parsed.value;
    for n := 0 to |exclusions|
      invariant out == KeptOf(cidr, rule, exclusions[..n])
    {
      var ex := exclusions[n];
      assert exclusions[..n + 1][..n] == exclusions[..n];
      if ex == cidr {
        continue;
      }
      var exNet := ParseCIDR(ex);
      if exNet.None? {
        continue;
      }
      ContainmentTest(exNet.value, rule);
      if exNet.value.prefix < rule.prefix {
        continue;
      }
      if !rule.Contains(exNet.value.addr) {
        continue;
      }
      out := out + [ex];
    }
    assert exclusions[..|exclusions|] == exclusions;
  }

  /** An `ipBlock` admits the addresses of its CIDR that lie in none of its exceptions. */
  ghost predicate BlockAdmits(cidr: string, except: seq<string>, x: nat) {
    && x < ADDRESSES
    && ParseCIDR(cidr).Some?
    && ParseCIDR(cidr).value.Contains(x)
    && forall ex :: ex in except && ParseCIDR(ex).Some? ==> !ParseCIDR(ex).value.Contains(x)
  }

  /** The emitted block admits exactly the rule minus every exclusion that is neither the rule's own
      text nor a strict superset of it. */
  lemma EmittedBlock(cidr: string, exclusions: seq<string>, x: nat)
    ensures BlockAdmits(cidr, Exclusions(cidr, exclusions), x) <==>
            && x < ADDRESSES
            && ParseCIDR(cidr).Some?
            && ParseCIDR(cidr).value.Contains(x)
            && forall ex :: ex in exclusions && ex != cidr && ParseCIDR(ex).Some? && ParseCIDR(ex).value.Contains(x)
                            ==> StrictSubset(ParseCIDR(cidr).value, ParseCIDR(ex).value)
  {
    if x < ADDRESSES && ParseCIDR(cidr).Some? && ParseCIDR(cidr).value.Contains(x) {
      var rule := ParseCIDR(cidr).value;
      forall ex | ex in exclusions && ex != cidr && ParseCIDR(ex).Some? && ParseCIDR(ex).value.Contains(x)
        ensures Kept(cidr, rule, ex) <==> !StrictSubset(rule, ParseCIDR(ex).value)
      {
        NestedOrDisjoint(ParseCIDR(ex).value, rule, x);
      }
    }
  }

  /** The filter's documentation promises strict containment. That promise is kept exactly when no
      exclusion respells the rule's own block: same prefix length, same network, different text. */
  lemma StrictUnlessRespelled(cidr: string, exclusions: seq<string>)
    requires ParseCIDR(cidr).Some?
    ensures (forall ex :: ex in Exclusions(cidr, exclusions) ==> StrictSubset(ParseCIDR(ex).value, ParseCIDR(cidr).value))
       <==> !exists ex :: ex in exclusions && Respelled(cidr, ex)
  {
    var rule := ParseCIDR(cidr).value;
    forall ex | ex in exclusions && ex != cidr && ParseCIDR(ex).Some?
      ensures Respelled(cidr, ex) <==> Kept(cidr, rule, ex) && Subset(rule, ParseCIDR(ex).value)
    {
      var block := ParseCIDR(ex).value;
      ContainmentTest(block, rule);
      ContainmentTest(rule, block);
    }
    forall ex | ex in Exclusions(cidr, exclusions)
      ensures StrictSubset(ParseCIDR(ex).value, rule) <==> !Respelled(cidr, ex)
    {
    }
  }

  predicate Respelled(cidr: string, ex: string)
    requires ParseCIDR(cidr).Some?
  {
    && ex != cidr
    && ParseCIDR(ex).Some?
    && ParseCIDR(ex).value.prefix == ParseCIDR(cidr).value.prefix
    && ParseCIDR(cidr).value.Contains(ParseCIDR(ex).value.addr)
  }

  /** Respelling happens: 0.0.0.<digit>/0 is the whole address space again, so such an exclusion
      swallows the rule it was meant to narrow. */
  lemma RespelledExample(zero: char, one: char)
    requires zero == '0' && '1' <= one <= '9'
    ensures ParseCIDR(Quad(zero, zero)) == Some(Block(0, 0))
    ensures Respelled(Quad(zero, zero), Quad(zero, one))
  {
    ParseQuad(zero, zero);
    ParseQuad(zero, one);
    WholeSpace(0, DigitValue(one));
  }

  lemma WholeSpace(a: nat, b: nat)
    requires a < ADDRESSES && b < ADDRESSES
    ensures Block(a, 0).Contains(b)
  {
    Pow2Is32();
    QuotientUnique(a, ADDRESSES, 0, a);
    QuotientUnique(b, ADDRESSES, 0, b);
  }

  /** The text `<z>.<z>.<z>.<c>/<z>`. */
  function Quad(z: char, c: char): string { Dotted(3, z, c) + ['/'] + [z] }

  function Dotted(k: nat, z: char, c: char): string {
    if k == 0 then [c] else [z] + ['.'] + Dotted(k - 1, z, c)
  }

  function Pieces(k: nat, z: char, c: char): seq<string> {
    if k == 0 then [[c]] else [[z]] + Pieces(k - 1, z, c)
  }

  lemma ParseQuad(z: char, c: char)
    requires IsDigit(c) && z == '0'
    ensures ParseCIDR(Quad(z, c)) == Some(Block(DigitValue(c), 0))
  {
    var text := Dotted(3, z, c);
    SplitDotted(3, z, c);
    OneDigit(z);
    ParseDotted(z, c);
    hide ParseAddr;
    SplitAt(text, '/', [z]);
  }

  lemma ParseDotted(z: char, c: char)
    requires IsDigit(c) && z == '0'
    ensures ParseAddr(Dotted(3, z, c)) == Some(DigitValue(c))
  {
    SplitDotted(3, z, c);
    OneDigit(c);
    OneDigit(z);
    FourPieces(z, c);
    hide Dotted, ParseOctet, Decimal, Pieces, Split;
  }

  lemma FourPieces(z: char, c: char)
    ensures |Pieces(3, z, c)| == 4
    ensures forall k :: 0 <= k < 4 ==> Pieces(3, z, c)[k] == if k == 3 then [c] else [z]
  {
    assert Pieces(0, z, c) == [[c]];
    assert Pieces(1, z, c) == [[z]] + [[c]];
    assert Pieces(2, z, c) == [[z]] + Pieces(1, z, c);
  }

  lemma SplitAt(a: string, c: char, b: string)
    requires c !in a
    ensures var s := a + [c] + b; Index(s, c) == |a| && s[..|a|] == a && s[|a| + 1..] == b
  {
    IndexOfConcat(a, c, b);
  }

  lemma SplitFirst(a: string, sep: char, b: string)
    requires sep !in a
    ensures Split(a + [sep] + b, sep) == [a] + Split(b, sep)
  {
    SplitAt(a, sep, b);
    hide Index;
  }

  lemma DottedStep(k: nat, z: char, c: char)
    requires k > 0
    ensures Dotted(k, z, c) == [z] + ['.'] + Dotted(k - 1, z, c) && Pieces(k, z, c) == [[z]] + Pieces(k - 1, z, c)
  {
  }

  lemma DottedEnd(z: char, c: char)
    requires IsDigit(c)
    ensures Dotted(0, z, c) == [c] && Pieces(0, z, c) == [[c]] && Split([c], '.') == [[c]]
  {
  }

  lemma {:induction false} SplitDotted(k: nat, z: char, c: char)
    requires IsDigit(c) && IsDigit(z)
    ensures '/' !in Dotted(k, z, c)
    ensures Split(Dotted(k, z, c), '.') == Pieces(k, z, c)
  {
    hide Split, Dotted, Pieces;
    if k > 0 {
      SplitDotted(k - 1, z, c);
      DottedStep(k, z, c);
      SplitFirst([z], '.', Dotted(k - 1, z, c));
    } else {
      DottedEnd(z, c);
    }
  }

  lemma OneDigit(c: char)
    requires IsDigit(c)
    ensures Decimal([c]) == DigitValue(c) && ParseOctet([c]) == Some(DigitValue(c))
  {
    assert [c][..0] == "";
  }
}
