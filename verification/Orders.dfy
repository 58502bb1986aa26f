/** Total orders, and the ascending listing of a finite set: what iterating an ordered map visits. */
module Orders {

  ghost predicate TotalOrder<T(!new)>(leq: (T, T) -> bool) {
    && (forall x, y :: leq(x, y) || leq(y, x))
    && (forall x, y :: leq(x, y) && leq(y, x) ==> x == y)
    && (forall x, y, z :: leq(x, y) && leq(y, z) ==> leq(x, z))
  }

  ghost predicate IsLeast<T>(leq: (T, T) -> bool, m: T, s: set<T>) {
    m in s && forall x | x in s :: leq(m, x)
  }

  ghost predicate Ascending<T>(leq: (T, T) -> bool, s: seq<T>) {
    forall i, j | 0 <= i < j < |s| :: leq(s[i], s[j]) && s[i] != s[j]
  }

  ghost predicate Distinct<T>(s: seq<T>) {
    forall i, j | 0 <= i < j < |s| :: s[i] != s[j]
  }

  ghost function Elements<T(!new)>(s: seq<T>): (r: set<T>)
    ensures forall x :: x in r <==> x in s
  {
    set x | x in s
  }

  lemma {:induction false} LeastExists<T(!new)>(leq: (T, T) -> bool, s: set<T>)
    requires TotalOrder(leq) && s != {}
    ensures exists m :: IsLeast(leq, m, s)
    decreases |s|
  {
    var x :| x in s;
    var rest := s - {x};
    if rest == {} {
      assert s == {x};
      assert IsLeast(leq, x, s);
    } else {
      LeastExists(leq, rest);
      var y :| IsLeast(leq, y, rest);
      var m := if leq(x, y) then x else y;
      assert forall z | z in s :: z == x || z in rest;
      assert IsLeast(leq, m, s);
    }
  }

  /** The elements of `s`, each once, in ascending order. */
  ghost function Listing<T(!new)>(leq: (T, T) -> bool, s: set<T>): (r: seq<T>)
    requires TotalOrder(leq)
    ensures forall x :: x in r <==> x in s
    decreases |s|
  {
    if s == {} then
      []
    else
      LeastExists(leq, s);
      var m :| IsLeast(leq, m, s);
      [m] + Listing(leq, s - {m})
  }

  lemma ListingHead<T(!new)>(leq: (T, T) -> bool, s: set<T>, m: T)
    requires TotalOrder(leq) && IsLeast(leq, m, s)
    ensures Listing(leq, s) == [m] + Listing(leq, s - {m})
  {
    var l := Listing(leq, s);
    assert m in l && l[0] in s;
    assert IsLeast(leq, l[0], s);
  }

  lemma {:induction false} ListingAscends<T(!new)>(leq: (T, T) -> bool, s: set<T>)
    requires TotalOrder(leq)
    ensures Ascending(leq, Listing(leq, s)) && |Listing(leq, s)| == |s|
    decreases |s|
  {
    if s != {} {
      LeastExists(leq, s);
      var m :| IsLeast(leq, m, s);
      ListingHead(leq, s, m);
      var rest := Listing(leq, s - {m});
      ListingAscends(leq, s - {m});
      forall i, j | 0 <= i < j < |[m] + rest|
        ensures leq(([m] + rest)[i], ([m] + rest)[j]) && ([m] + rest)[i] != ([m] + rest)[j]
      {
        assert ([m] + rest)[j] in rest;
      }
    }
  }

  lemma NextInOrder<T(!new)>(leq: (T, T) -> bool, order: seq<T>, rest: set<T>, k: T, all: seq<T>)
    requires TotalOrder(leq) && IsLeast(leq, k, rest) && order + Listing(leq, rest) == all
    ensures (order + [k]) + Listing(leq, rest - {k}) == all
  {
    ListingHead(leq, rest, k);
    hide TotalOrder, IsLeast, Listing;
    assert order + ([k] + Listing(leq, rest - {k})) == (order + [k]) + Listing(leq, rest - {k});
  }

  /** Visits a set in ascending order, as iterating an ordered map does. */
  method InOrder<T(!new, ==)>(leq: (T, T) -> bool, s: set<T>) returns (order: seq<T>)
    requires TotalOrder(leq)
    ensures order == Listing(leq, s)
  {
    hide TotalOrder, Listing;
    order := [];
    var rest := s;
    while rest != {}
      invariant order + Listing(leq, rest) == Listing(leq, s)
      decreases rest
    {
      LeastExists(leq, rest);
      var k :| k in rest && forall x | x in rest :: leq(k, x);
      NextInOrder(leq, order, rest, k, Listing(leq, s));
      order, rest := order + [k], rest - {k};
    }
    NothingListed(leq);
  }

  lemma NothingListed<T(!new)>(leq: (T, T) -> bool)
    requires TotalOrder(leq)
    ensures Listing(leq, {}) == []
  {
  }

  /** Ascending listings of the same elements are the same sequence. */
  lemma {:induction false} AscendingIsUnique<T(!new)>(leq: (T, T) -> bool, a: seq<T>, b: seq<T>)
    requires TotalOrder(leq) && Ascending(leq, a) && Ascending(leq, b)
    requires Elements(a) == Elements(b)
    ensures a == b
  {
    assert forall x :: x in a <==> x in Elements(a);
    assert forall x :: x in b <==> x in Elements(b);
    assert a != [] ==> a[0] in b;
    assert b != [] ==> b[0] in a;
    if a != [] {
      assert a[0] in Elements(b) && b[0] in Elements(a);
      assert a[0] == b[0];
      assert Elements(a[1..]) == Elements(a) - {a[0]};
      assert Elements(b[1..]) == Elements(b) - {b[0]};
      AscendingIsUnique(leq, a[1..], b[1..]);
    }
  }

  lemma ListingIs<T(!new)>(leq: (T, T) -> bool, r: seq<T>)
    requires TotalOrder(leq) && Ascending(leq, r)
    ensures Listing(leq, Elements(r)) == r
  {
    var l := Listing(leq, Elements(r));
    ListingAscends(leq, Elements(r));
    assert Elements(l) == Elements(r);
    AscendingIsUnique(leq, l, r);
  }

  /** Lexicographic order of integer sequences, a proper prefix coming first. */
  predicate LexLeq(a: seq<int>, b: seq<int>) {
    || a == []
    || (b != [] && (a[0] < b[0] || (a[0] == b[0] && LexLeq(a[1..], b[1..]))))
  }

  lemma {:induction false} LexAntisymmetric(a: seq<int>, b: seq<int>)
    requires LexLeq(a, b) && LexLeq(b, a)
    ensures a == b
  {
    if a != [] && b != [] {
      LexAntisymmetric(a[1..], b[1..]);
      assert a == [a[0]] + a[1..] && b == [b[0]] + b[1..];
    }
  }

  lemma {:induction false} LexTransitive(a: seq<int>, b: seq<int>, c: seq<int>)
    requires LexLeq(a, b) && LexLeq(b, c)
    ensures LexLeq(a, c)
  {
    if a != [] && a[0] == b[0] == c[0] {
      LexTransitive(a[1..], b[1..], c[1..]);
    }
  }

  lemma {:induction false} LexTotal(a: seq<int>, b: seq<int>)
    ensures LexLeq(a, b) || LexLeq(b, a)
  {
    if a != [] && b != [] {
      LexTotal(a[1..], b[1..]);
    }
  }

  lemma LexIsTotalOrder()
    ensures TotalOrder(LexLeq)
  {
    forall a, b ensures LexLeq(a, b) || LexLeq(b, a) { LexTotal(a, b); }
    forall a, b | LexLeq(a, b) && LexLeq(b, a) ensures a == b { LexAntisymmetric(a, b); }
    forall a, b, c | LexLeq(a, b) && LexLeq(b, c) ensures LexLeq(a, c) { LexTransitive(a, b, c); }
  }

  /** The code points of a text; text is compared as their sequence. */
  function Codes(s: string): seq<int> {
    seq(|s|, i requires 0 <= i < |s| => s[i] as int)
  }

  predicate TextLeq(a: string, b: string) {
    LexLeq(Codes(a), Codes(b))
  }

  lemma CodesInjective(a: string, b: string)
    requires Codes(a) == Codes(b)
    ensures a == b
  {
    assert |a| == |Codes(a)| == |b|;
    forall i | 0 <= i < |a| ensures a[i] == b[i] {
      assert Codes(a)[i] == Codes(b)[i];
    }
  }

  lemma TextIsTotalOrder()
    ensures TotalOrder(TextLeq)
  {
    LexIsTotalOrder();
    forall a, b | TextLeq(a, b) && TextLeq(b, a) ensures a == b {
      LexAntisymmetric(Codes(a), Codes(b));
      CodesInjective(a, b);
    }
    forall a, b, c | TextLeq(a, b) && TextLeq(b, c) ensures TextLeq(a, c) {
      LexTransitive(Codes(a), Codes(b), Codes(c));
    }
    forall a, b ensures TextLeq(a, b) || TextLeq(b, a) {
      LexTotal(Codes(a), Codes(b));
    }
  }

  /** The first place where two sequences differ holds a smaller element in the lesser one. */
  ghost predicate DiffersBelow(a: seq<int>, b: seq<int>, k: nat) {
    k < |a| && k < |b| && a[..k] == b[..k] && a[k] < b[k]
  }

  /** What the lexicographic order means: a prefix comes first, otherwise the first difference decides. */
  lemma {:induction false} LexMeans(a: seq<int>, b: seq<int>)
    ensures LexLeq(a, b) <==> a <= b || exists k: nat :: DiffersBelow(a, b, k)
  {
    if a != [] && b != [] {
      if a[0] < b[0] {
        assert DiffersBelow(a, b, 0);
      } else if a[0] == b[0] {
        LexMeans(a[1..], b[1..]);
        assert a == [a[0]] + a[1..] && b == [b[0]] + b[1..];
        if k: nat :| DiffersBelow(a[1..], b[1..], k) {
          assert a[..k + 1] == [a[0]] + a[1..][..k] && b[..k + 1] == [b[0]] + b[1..][..k];
          assert DiffersBelow(a, b, k + 1);
        }
        if k: nat :| DiffersBelow(a, b, k) {
          assert k > 0 && a[1..][..k - 1] == a[..k][1..] && b[1..][..k - 1] == b[..k][1..];
          assert DiffersBelow(a[1..], b[1..], k - 1);
        }
      } else {
        if k: nat :| DiffersBelow(a, b, k) {
          assert k > 0 ==> a[..k][0] == a[0] && b[..k][0] == b[0];
        }
      }
    }
  }

  /** Texts are ordered by their first differing code point, a prefix coming first. */
  lemma TextLeqMeans(a: string, b: string)
    ensures TextLeq(a, b) <==>
            a <= b || exists k: nat :: k < |a| && k < |b| && a[..k] == b[..k] && a[k] < b[k]
  {
    LexMeans(Codes(a), Codes(b));
    if TextLeq(a, b) {
      if Codes(a) <= Codes(b) {
        CodesInjective(a, b[..|a|]);
      } else {
        var k: nat :| DiffersBelow(Codes(a), Codes(b), k);
        CodesTake(a, k);
        CodesTake(b, k);
        CodesInjective(a[..k], b[..k]);
      }
    }
    if k: nat :| k < |a| && k < |b| && a[..k] == b[..k] && a[k] < b[k] {
      CodesTake(a, k);
      CodesTake(b, k);
      assert DiffersBelow(Codes(a), Codes(b), k);
    }
  }

  lemma CodesTake(a: string, k: nat)
    requires k <= |a|
    ensures Codes(a)[..k] == Codes(a[..k])
  {
  }
}
