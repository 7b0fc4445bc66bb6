/** The string operations the key grammar rests on: searching, splitting and decimal numbers. */
module Text {
  import opened Common

  // ---- searching ---------------------------------------------------------

  /** The first position at or after `from` where `c` occurs, or -1. */
  function IndexFrom(s: string, c: char, from: nat): (i: int)
    requires from <= |s|
    ensures i == -1 || from <= i < |s|
    ensures i >= 0 ==> s[i] == c
    ensures forall j :: from <= j < (if i < 0 then |s| else i) ==> s[j] != c
    decreases |s| - from
  {
    if from == |s| then -1
    else if s[from] == c then from
    else IndexFrom(s, c, from + 1)
  }

  function Index(s: string, c: char): (i: int)
    ensures i == -1 || 0 <= i < |s|
    ensures i >= 0 ==> s[i] == c && c !in s[..i]
    ensures i < 0 <==> c !in s
  {
    IndexFrom(s, c, 0)
  }

  /** The last position where `c` occurs, or -1. */
  function LastIndex(s: string, c: char): (i: int)
    ensures -1 <= i < |s|
    ensures i >= 0 ==> s[i] == c
    ensures forall j :: i < j < |s| ==> s[j] != c
  {
    if s == "" then -1
    else if s[|s| - 1] == c then |s| - 1
    else LastIndex(s[..|s| - 1], c)
  }

  /** The first position at or after `from` of the three characters "://", or -1. */
  function SchemeIndexFrom(s: string, from: nat): (i: int)
    requires from <= |s|
    ensures i == -1 || from <= i <= |s| - 3
    ensures i >= 0 ==> s[i] == ':' && s[i + 1] == '/' && s[i + 2] == '/'
    ensures forall j :: from <= j < (if i < 0 then |s| - 2 else i) ==> !(s[j] == ':' && s[j + 1] == '/' && s[j + 2] == '/')
    decreases |s| - from
  {
    if |s| < from + 3 then -1
    else if s[from] == ':' && s[from + 1] == '/' && s[from + 2] == '/' then from
    else SchemeIndexFrom(s, from + 1)
  }

  lemma IndexOfConcat(a: string, c: char, b: string)
    requires c !in a
    ensures Index(a + [c] + b, c) == |a|
  {
    var s := a + [c] + b;
    assert forall k :: 0 <= k < |a| ==> s[k] == a[k];
    assert s[|a|] == c;
  }

  // ---- slices --------------------------------------------------------------

  lemma Slices3(s: string, i: nat, j: nat)
    requires i <= j <= |s|
    ensures s == s[..i] + (s[i..j] + s[j..])
  {
  }

  lemma Slices4(s: string, i: nat, j: nat, k: nat)
    requires i <= j <= k <= |s|
    ensures s == s[..i] + ((s[i..j] + s[j..k]) + s[k..])
  {
  }

  lemma Joined3(a: string, b: string, c: string)
    ensures var s, i, j := a + (b + c), |a|, |a| + |b|; s[..i] == a && s[i..j] == b && s[j..] == c
  {
  }

  lemma Joined4(a: string, b: string, c: string, d: string)
    ensures var s, i, j, k := a + ((b + c) + d), |a|, |a| + |b|, |a| + |b| + |c|;
            s[..i] == a && s[i..j] == b && s[j..k] == c && s[k..] == d
  {
  }

  // ---- characters --------------------------------------------------------

  predicate IsDigit(c: char) { '0' <= c <= '9' }

  /** The class [A-Za-z0-9-]. */
  predicate IsNameChar(c: char) {
    'A' <= c <= 'Z' || 'a' <= c <= 'z' || IsDigit(c) || c == '-'
  }

  /** The class [\w-]. */
  predicate IsWordChar(c: char) { IsNameChar(c) || c == '_' }

  /** The classes, member by member. */
  lemma CharacterClasses(c: char)
    ensures IsDigit(c) <==> c in "0123456789"
    ensures IsNameChar(c) <==> c in "ABCDEFGHIJKLMNOPQRSTUVWXYZ" || c in "abcdefghijklmnopqrstuvwxyz" || c in "0123456789" || c == '-'
    ensures IsWordChar(c) <==> IsNameChar(c) || c == '_'
  {
    DigitsByName(c);
    CapitalsByName(c);
    LettersByName(c);
  }

  lemma DigitsByName(c: char)
    ensures '0' <= c <= '9' <==> c in "0123456789"
  {
    var all := "0123456789";
    if '0' <= c <= '9' {
      assert all[(c - '0') as int] == c;
    }
  }

  lemma CapitalsByName(c: char)
    ensures 'A' <= c <= 'Z' <==> c in "ABCDEFGHIJKLMNOPQRSTUVWXYZ"
  {
    var all := "ABCDEFGHIJKLMNOPQRSTUVWXYZ";
    if 'A' <= c <= 'Z' {
      assert all[(c - 'A') as int] == c;
    }
  }

  lemma LettersByName(c: char)
    ensures 'a' <= c <= 'z' <==> c in "abcdefghijklmnopqrstuvwxyz"
  {
    var all := "abcdefghijklmnopqrstuvwxyz";
    if 'a' <= c <= 'z' {
      assert all[(c - 'a') as int] == c;
    }
  }

  /** ASCII lower case. */
  function ToLower(s: string): string {
    seq(|s|, k requires 0 <= k < |s| => if 'A' <= s[k] <= 'Z' then (s[k] as int + 32) as char else s[k])
  }

  /** The expression \d+ matched against the whole of `s`. */
  predicate IsDigits(s: string) { s != "" && forall i :: 0 <= i < |s| ==> IsDigit(s[i]) }

  predicate IsName(s: string) { s != "" && forall i :: 0 <= i < |s| ==> IsNameChar(s[i]) }

  predicate IsSpace(c: char) { c in " \t\n\r\U{0B}\U{0C}\U{85}\U{A0}" }

  function TrimSpace(s: string): string
    decreases |s|
  {
    if s == "" then s
    else if IsSpace(s[0]) then TrimSpace(s[1..])
    else if IsSpace(s[|s| - 1]) then TrimSpace(s[..|s| - 1])
    else s
  }

  // ---- decimal numbers ---------------------------------------------------

  const MAX_INT64: int := 0x7FFF_FFFF_FFFF_FFFF

  function DigitValue(c: char): (d: nat)
    ensures d < 10
  {
    if IsDigit(c) then (c - '0') as int else 0
  }

  /** The number a string of decimal digits denotes. */
  function Decimal(s: string): nat {
    if s == "" then 0 else 10 * Decimal(s[..|s| - 1]) + DigitValue(s[|s| - 1])
  }

  function DigitChar(d: nat): (c: char)
    requires d < 10
    ensures IsDigit(c) && DigitValue(c) == d
  {
    '0' + d as char
  }

  /** Canonical digits: no leading zero. */
  function Digits(n: nat): (s: string)
    ensures IsDigits(s)
    ensures Decimal(s) == n
    decreases n
  {
    if n < 10 then
      var s := [DigitChar(n)];
      assert s[..0] == "";
      s
    else
      var init := Digits(n / 10);
      var s := init + [DigitChar(n % 10)];
      assert s[..|s| - 1] == init;
      s
  }

  function Itoa(n: int): (s: string)
    ensures n >= 0 ==> IsDigits(s) && Decimal(s) == n
  {
    if n < 0 then "-" + Digits(-n) else Digits(n)
  }

  /** A base-10 parse into a 64-bit integer: an optional sign and at least one digit, in range. */
  function Atoi(s: string): Option<int> {
    if s != "" && (s[0] == '+' || s[0] == '-') then
      if !IsDigits(s[1..]) then None
      else
        var n: int := if s[0] == '-' then 0 - Decimal(s[1..]) else Decimal(s[1..]);
        if -MAX_INT64 - 1 <= n <= MAX_INT64 then Some(n) else None
    else if IsDigits(s) && Decimal(s) <= MAX_INT64 then Some(Decimal(s))
    else None
  }

  lemma AtoiDigits(s: string)
    requires IsDigits(s)
    ensures Atoi(s) == if Decimal(s) <= MAX_INT64 then Some(Decimal(s)) else None
  {
    assert IsDigit(s[0]);
  }

  // ---- splitting at a separator ------------------------------------------

  /** The pieces of `s` between occurrences of `sep`; at least one piece. */
  function Split(s: string, sep: char): (parts: seq<string>)
    ensures |parts| >= 1
    decreases |s|
  {
    var i := Index(s, sep);
    if i < 0 then [s] else [s[..i]] + Split(s[i + 1..], sep)
  }

  function Join(parts: seq<string>, sep: char): string
    requires |parts| >= 1
  {
    if |parts| == 1 then parts[0] else parts[0] + [sep] + Join(parts[1..], sep)
  }

  lemma {:induction false} SplitJoin(parts: seq<string>, sep: char)
    requires |parts| >= 1 && forall p :: p in parts ==> sep !in p
    ensures Split(Join(parts, sep), sep) == parts
  {
    var s := Join(parts, sep);
    if |parts| == 1 {
      assert sep !in parts[0];
    } else {
      var rest := Join(parts[1..], sep);
      IndexOfConcat(parts[0], sep, rest);
      assert s[..|parts[0]|] == parts[0] && s[|parts[0]| + 1..] == rest;
      SplitJoin(parts[1..], sep);
    }
  }

  lemma {:induction false} JoinSplit(s: string, sep: char)
    ensures Join(Split(s, sep), sep) == s
    decreases |s|
  {
    var i := Index(s, sep);
    if i >= 0 {
      var rest := Split(s[i + 1..], sep);
      JoinSplit(s[i + 1..], sep);
      assert Split(s, sep) == [s[..i]] + rest;
      JoinFront(s[..i], rest, sep);
      hide Split, Join;
      assert s == s[..i] + [sep] + s[i + 1..];
    }
  }

  lemma JoinFront(p: string, rest: seq<string>, sep: char)
    requires |rest| >= 1
    ensures Join([p] + rest, sep) == p + [sep] + Join(rest, sep)
  {
    assert ([p] + rest)[1..] == rest;
  }

  // ---- canonical numbers -------------------------------------------------

  /** A number is printed without leading zero. */
  lemma {:induction false} NoLeadingZero(n: nat)
    ensures n >= 10 ==> |Digits(n)| > 1 && Digits(n)[0] != '0'
    ensures n < 10 ==> |Digits(n)| == 1 && (n > 0 ==> Digits(n)[0] != '0')
    decreases n
  {
    if n >= 10 {
      NoLeadingZero(n / 10);
      assert Digits(n)[0] == Digits(n / 10)[0];
    }
  }

  lemma DigitOfValue(c: char)
    requires IsDigit(c)
    ensures DigitChar(DigitValue(c)) == c
  {
  }

  lemma DigitsStep(n: nat, d: nat)
    requires n > 0 && d < 10
    ensures Digits(10 * n + d) == Digits(n) + [DigitChar(d)]
  {
    assert (10 * n + d) / 10 == n && (10 * n + d) % 10 == d;
  }

  lemma OneDigitText(c: char)
    requires IsDigit(c)
    ensures Decimal([c]) == DigitValue(c) && Digits(DigitValue(c)) == [c]
  {
    assert [c][..0] == "";
    DigitOfValue(c);
  }

  lemma DecimalSnoc(init: string, c: char)
    ensures Decimal(init + [c]) == 10 * Decimal(init) + DigitValue(c)
  {
    assert (init + [c])[..|init|] == init;
  }

  /** Digits without leading zero are printed from their number. */
  lemma {:induction false} OnlySpelling(s: string)
    requires IsDigits(s) && (|s| == 1 || s[0] != '0')
    ensures s == Digits(Decimal(s))
    decreases |s|
  {
    hide Digits, Decimal, DigitValue, DigitChar;
    var init, last := s[..|s| - 1], s[|s| - 1];
    assert s == init + [last];
    if |s| > 1 {
      OnlySpelling(init);
      Positive(init);
      DecimalSnoc(init, last);
      DigitsStep(Decimal(init), DigitValue(last));
      DigitOfValue(last);
    } else {
      OneDigitText(last);
    }
  }

  lemma {:induction false} Positive(s: string)
    requires IsDigits(s) && s[0] != '0'
    ensures Decimal(s) > 0
    decreases |s|
  {
    var init := s[..|s| - 1];
    if |s| > 1 {
      Positive(init);
    } else {
      assert Decimal(init) == 0;
    }
  }

  function ItoaAll(ns: seq<int>): (out: seq<string>)
    ensures |out| == |ns|
    ensures forall k :: 0 <= k < |ns| ==> out[k] == Itoa(ns[k])
  {
    seq(|ns|, k requires 0 <= k < |ns| => Itoa(ns[k]))
  }
}
