/** `sortedKeys`: the keys of a map in one fixed order, whatever order the map yields them in. */
module Keys {

  /** The order of strings by code point, which is also the order of their UTF-8 bytes. */
  predicate Less(a: string, b: string) {
    if b == "" then false
    else if a == "" then true
    else a[0] < b[0] || (a[0] == b[0] && Less(a[1..], b[1..]))
  }

  /** `a` comes before `b`: they agree up to position `k`, where `a` ends first or has the smaller character. */
  predicate Precedes(a: string, b: string, k: nat) {
    && k <= |a| && k < |b| && a[..k] == b[..k]
    && (k == |a| || a[k] < b[k])
  }

  /** Ascending means: by the first character that differs, a text before its extensions. */
  lemma {:induction false} LessExactly(a: string, b: string)
    ensures Less(a, b) <==> exists k: nat :: Precedes(a, b, k)
    decreases |a|
  {
    if a == "" || b == "" || a[0] != b[0] {
      assert b != "" && (a == "" || a[0] < b[0]) ==> Precedes(a, b, 0);
    } else {
      LessExactly(a[1..], b[1..]);
      if k: nat :| Precedes(a[1..], b[1..], k) {
        assert a[..k + 1] == [a[0]] + a[1..][..k] && b[..k + 1] == [b[0]] + b[1..][..k];
        assert Precedes(a, b, k + 1);
      }
      if k: nat :| Precedes(a, b, k) {
        assert k > 0;
        assert a[1..][..k - 1] == a[..k][1..] && b[1..][..k - 1] == b[..k][1..];
        assert Precedes(a[1..], b[1..], k - 1);
      }
    }
  }

  lemma {:induction false} LessIsStrict(a: string, b: string)
    ensures !Less(a, a)
    ensures Less(a, b) ==> !Less(b, a)
    ensures a != b ==> Less(a, b) || Less(b, a)
    decreases |a|
  {
    if a != "" && b != "" {
      LessIsStrict(a[1..], b[1..]);
      if a[0] == b[0] && a[1..] == b[1..] {
        assert a == [a[0]] + a[1..] && b == [b[0]] + b[1..];
      }
    } else if a != "" {
      LessIsStrict(a[1..], b);
    }
  }

  lemma {:induction false} LessTransitive(a: string, b: string, c: string)
    requires Less(a, b) && Less(b, c)
    ensures Less(a, c)
    decreases |b|
  {
    if a != "" && a[0] == b[0] == c[0] {
      LessTransitive(a[1..], b[1..], c[1..]);
    }
  }

  ghost predicate Ordered(s: seq<string>) {
    forall i, j :: 0 <= i < j < |s| ==> Less(s[i], s[j])
  }

  lemma LeastExists(keys: set<string>) returns (least: string)
    requires keys != {}
    ensures least in keys && forall k :: k in keys && k != least ==> Less(least, k)
  {
    var first :| first in keys;
    least := first;
    var rest := keys - {first};
    if rest != {} {
      var other := LeastExists(rest);
      LessIsStrict(first, other);
      if Less(other, first) {
        least := other;
        assert forall k :: k in keys ==> k == first || k in rest;
      } else {
        forall k | k in keys && k != first ensures Less(first, k) {
          assert k in rest;
          if k != other {
            LessTransitive(first, other, k);
          }
        }
      }
    } else {
      assert forall k :: k in keys ==> k == first || k in rest;
    }
  }

  /** The keys in increasing order. */
  ghost function KeyOrder(keys: set<string>): (r: seq<string>)
    ensures Ordered(r)
    ensures forall k :: k in r <==> k in keys
  {
    if keys == {} then []
    else
      LeastIs(keys);
      var least :| least in keys && forall k :: k in keys && k != least ==> Less(least, k);
      [least] + KeyOrder(keys - {least})
  }

  lemma LeastIs(keys: set<string>)
    requires keys != {}
    ensures exists least :: least in keys && forall k :: k in keys && k != least ==> Less(least, k)
  {
    var least := LeastExists(keys);
  }

  /** There is only one way to list a set of keys in order. */
  lemma {:induction false} OrderIsUnique(a: seq<string>, b: seq<string>)
    requires Ordered(a) && Ordered(b) && forall k :: k in a <==> k in b
    ensures a == b
    decreases |a|
  {
    if a != [] {
      assert a[0] in b;
      SameFirst(a, b);
      TailElements(a, b);
      OrderIsUnique(a[1..], b[1..]);
      assert a == [a[0]] + a[1..] && b == [b[0]] + b[1..];
    } else {
      FirstIsMember(b);
    }
  }

  lemma FirstIsMember(s: seq<string>)
    ensures s != [] ==> s[0] in s
  {
  }

  lemma SameFirst(a: seq<string>, b: seq<string>)
    requires Ordered(a) && Ordered(b) && a != [] && b != [] && forall k :: k in a <==> k in b
    ensures a[0] == b[0]
  {
    hide Ordered, Less;
    assert a[0] in b && b[0] in a;
    var i :| 0 <= i < |b| && b[i] == a[0];
    var j :| 0 <= j < |a| && a[j] == b[0];
    LessIsStrict(a[0], b[0]);
    FirstIsLeast(b, i);
    FirstIsLeast(a, j);
  }

  lemma FirstIsLeast(s: seq<string>, i: nat)
    requires Ordered(s) && i < |s|
    ensures s[i] == s[0] || Less(s[0], s[i])
  {
  }

  lemma TailElements(a: seq<string>, b: seq<string>)
    requires Ordered(a) && Ordered(b) && a != [] && b != [] && a[0] == b[0] && forall k :: k in a <==> k in b
    ensures forall k :: k in a[1..] <==> k in b[1..]
  {
    NotInTail(a);
    NotInTail(b);
    assert forall k :: k in a <==> k == a[0] || k in a[1..];
    assert forall k :: k in b <==> k == b[0] || k in b[1..];
  }

  lemma NotInTail(a: seq<string>)
    requires Ordered(a) && a != []
    ensures a[0] !in a[1..]
  {
    LessIsStrict(a[0], a[0]);
    forall j | 1 <= j < |a| ensures a[j] != a[0] {
      assert Less(a[0], a[j]);
    }
  }

  /** Inserts `x` into an ordered list that does not hold it. */
  method Insert(s: seq<string>, x: string) returns (r: seq<string>)
    requires Ordered(s) && x !in s
    ensures Ordered(r) && forall k :: k in r <==> k in s || k == x
  {
    var i := 0;
    while i < |s| && Less(s[i], x)
      invariant 0 <= i <= |s|
      invariant forall j :: 0 <= j < i ==> Less(s[j], x)
    {
      i := i + 1;
    }
    forall j | i <= j < |s| ensures Less(x, s[j]) {
      LessIsStrict(s[i], x);
      if i < j {
        LessTransitive(x, s[i], s[j]);
      }
    }
    r := s[..i] + [x] + s[i..];
  }

  /** Collects the keys in whatever order the map yields them, then sorts them. */
  method SortedKeys<V>(m: map<string, V>) returns (out: seq<string>)
    ensures out == KeyOrder(m.Keys)
  {
    var found: seq<string> := [];
    var left := m.Keys;
    while left != {}
      invariant left <= m.Keys
      invariant forall k :: k in found <==> k in m.Keys && k !in left
      invariant forall i, j :: 0 <= i < j < |found| ==> found[i] != found[j]
      decreases left
    {
      var k :| k in left;
      found := found + [k];
      left := left - {k};
    }
    out := [];
    for n := 0 to |found|
      invariant Ordered(out) && forall k :: k in out <==> k in found[..n]
    {
      assert found[n] !in found[..n];
      out := Insert(out, found[n]);
      assert found[..n + 1] == found[..n] + [found[n]];
    }
    assert found[..|found|] == found;
    OrderIsUnique(out, KeyOrder(m.Keys));
  }
}
