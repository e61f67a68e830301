/** Lists without repetition: taking elements in and out, and counting them. */
module Lists {
  ghost predicate NoDup(s: seq<nat>) {
    forall i, j :: 0 <= i < j < |s| ==> s[i] != s[j]
  }

  function Range(n: nat): set<nat> {
    if n == 0 then {} else Range(n - 1) + {n - 1}
  }

  lemma {:induction false} RangeCount(n: nat)
    ensures |Range(n)| == n && forall x: nat :: x in Range(n) <==> x < n
  {
    if n > 0 { RangeCount(n - 1); }
  }

  function Elements(s: seq<nat>): set<nat> {
    if s == [] then {} else Elements(s[1..]) + {s[0]}
  }

  lemma {:induction false} ElementCount(s: seq<nat>)
    requires NoDup(s)
    ensures |Elements(s)| == |s| && forall x :: x in Elements(s) <==> x in s
  {
    if s != [] { ElementCount(s[1..]); }
  }

  lemma SubsetCount(a: set<nat>, b: set<nat>)
    requires a <= b && |a| == |b|
    ensures a == b
  {
    if b - a != {} {
      var x :| x in b - a;
      SubsetSize(a, b - {x});
    }
    assert b == a + (b - a);
  }

  lemma {:induction false} SubsetSize(a: set<nat>, b: set<nat>)
    requires a <= b
    ensures |a| <= |b|
    decreases a
  {
    if a != {} {
      var x :| x in a;
      SubsetSize(a - {x}, b - {x});
    }
  }

  /** A list of `n` different numbers below `n` names them all. */
  lemma Pigeonhole(free: seq<nat>, n: nat, c: nat)
    requires NoDup(free) && (forall x :: x in free ==> x < n) && |free| == n && c < n
    ensures c in free
  {
    ElementCount(free);
    RangeCount(n);
    assert forall x :: x in Elements(free) ==> x in Range(n);
    SubsetCount(Elements(free), Range(n));
  }

  /** A list of different numbers below `n` that misses one of them is shorter than `n`. */
  lemma Shorter(s: seq<nat>, n: nat, x: nat)
    requires NoDup(s) && (forall y :: y in s ==> y < n) && x < n && x !in s
    ensures |s| < n
  {
    ElementCount(s);
    RangeCount(n);
    assert Elements(s) <= Range(n) - {x};
    SubsetSize(Elements(s), Range(n) - {x});
  }

  lemma TailFacts(s: seq<nat>)
    requires NoDup(s) && s != []
    ensures NoDup(s[1..]) && s[0] !in s[1..] && forall c :: c in s <==> c == s[0] || c in s[1..]
  {
    assert s == [s[0]] + s[1..];
  }

  lemma ConsNoDup(x: nat, s: seq<nat>)
    requires NoDup(s) && x !in s
    ensures NoDup([x] + s) && forall y :: y in [x] + s <==> y == x || y in s
  {}

  /** `list` with the first occurrence of `t` unlinked. */
  function Without(list: seq<nat>, t: nat): seq<nat> {
    if list == [] then [] else if list[0] == t then list[1..] else [list[0]] + Without(list[1..], t)
  }

  /** Where `t` was unlinked, or the end if it is not on the list. */
  lemma {:induction false} WithoutShape(list: seq<nat>, t: nat) returns (k: nat)
    ensures k <= |list| && (forall i :: 0 <= i < k ==> list[i] != t)
    ensures k < |list| ==> list[k] == t && Without(list, t) == list[..k] + list[k + 1..]
    ensures k == |list| ==> Without(list, t) == list
  {
    if list == [] || list[0] == t { return 0; }
    k := WithoutShape(list[1..], t);
    k := k + 1;
    assert list == [list[0]] + list[1..];
    if k < |list| { assert list[..k] + list[k + 1..] == [list[0]] + (list[1..][..k - 1] + list[1..][k..]); }
  }

  lemma WithoutFacts(list: seq<nat>, t: nat)
    requires NoDup(list)
    ensures NoDup(Without(list, t)) && forall x :: x in Without(list, t) <==> x in list && x != t
  {
    hide Without;
    var k := WithoutShape(list, t);
    var w := Without(list, t);
    forall x | x in list && x != t ensures x in w {
      var i :| 0 <= i < |list| && list[i] == x;
      assert w[if i < k then i else i - 1] == x;
    }
  }

  lemma SnocNoDup(s: seq<nat>, x: nat)
    requires NoDup(s) && x !in s
    ensures NoDup(s + [x]) && forall y :: y in s + [x] <==> y == x || y in s
  {}
}
