/** Lexicographic order of strings, as Python compares them. */
module TextOrder {
  predicate TextLeq(a: string, b: string) {
    a == "" || (b != "" && (a[0] < b[0] || (a[0] == b[0] && TextLeq(a[1..], b[1..]))))
  }

  lemma {:induction false} TextTotal(a: string, b: string)
    ensures TextLeq(a, b) || TextLeq(b, a)
    ensures TextLeq(a, b) && TextLeq(b, a) ==> a == b
  {
    if a != "" && b != "" && a[0] == b[0] {
      TextTotal(a[1..], b[1..]);
      assert a == [a[0]] + a[1..] && b == [b[0]] + b[1..];
    }
  }

  lemma {:induction false} TextTransitive(a: string, b: string, c: string)
    requires TextLeq(a, b) && TextLeq(b, c)
    ensures TextLeq(a, c)
  {
    if a != "" && a[0] == b[0] && b[0] == c[0] {
      TextTransitive(a[1..], b[1..], c[1..]);
    }
  }

  /** The strings differ first at `k`, and `a` has the smaller character there. */
  predicate SmallerAt(a: string, b: string, k: nat) {
    k < |a| && k < |b| && a[..k] == b[..k] && a[k] < b[k]
  }

  lemma SmallerBehind(a: string, b: string, k: nat)
    requires a != "" && b != "" && a[0] == b[0]
    ensures SmallerAt(a[1..], b[1..], k) <==> SmallerAt(a, b, k + 1)
    ensures a[1..] <= b[1..] <==> a <= b
  {
    assert a == [a[0]] + a[1..] && b == [b[0]] + b[1..];
    if k + 1 < |a| && k + 1 < |b| {
      assert a[..k + 1] == [a[0]] + a[1..][..k] && b[..k + 1] == [b[0]] + b[1..][..k];
    }
  }

  /** A prefix comes first; otherwise the first differing character decides. */
  lemma {:induction false} TextLeqMeans(a: string, b: string)
    ensures TextLeq(a, b) <==> a <= b || exists k: nat :: SmallerAt(a, b, k)
  {
    if a != "" && b != "" && a[0] == b[0] {
      TextLeqMeans(a[1..], b[1..]);
      SmallerBehind(a, b, 0);
      forall k: nat ensures SmallerAt(a[1..], b[1..], k) <==> SmallerAt(a, b, k + 1) {
        SmallerBehind(a, b, k);
      }
      assert !SmallerAt(a, b, 0);
      assert forall k: nat :: SmallerAt(a, b, k) ==> k > 0 && SmallerAt(a[1..], b[1..], k - 1);
    } else if a != "" && b != "" {
      forall k: nat | 0 < k <= |a| && k <= |b| ensures a[..k] != b[..k] {
        assert a[..k][0] == a[0] && b[..k][0] == b[0];
      }
      assert SmallerAt(a, b, 0) <==> a[0] < b[0];
    }
  }

  predicate IsLeast(m: string, s: set<string>) {
    m in s && forall x :: x in s ==> TextLeq(m, x)
  }

  lemma LeastExists(s: set<string>)
    requires s != {}
    ensures exists m :: IsLeast(m, s)
  {
    var x :| x in s;
    TextTotal(x, x);
    if s == {x} {
      assert IsLeast(x, s);
    } else {
      LeastExists(s - {x});
      var m :| IsLeast(m, s - {x});
      var n := if TextLeq(x, m) then x else m;
      TextTotal(x, m);
      forall y | y in s ensures TextLeq(n, y) {
        if y != x && n == x { TextTransitive(x, m, y); }
      }
      assert IsLeast(n, s);
    }
  }

  lemma LeastUnique(s: set<string>, a: string, b: string)
    requires IsLeast(a, s) && IsLeast(b, s)
    ensures a == b
  {
    TextTotal(a, b);
  }

  function LeastOf(s: set<string>): (m: string)
    requires s != {}
    ensures IsLeast(m, s)
  {
    LeastExists(s);
    assert forall a, b :: IsLeast(a, s) && IsLeast(b, s) ==> a == b by {
      forall a, b | IsLeast(a, s) && IsLeast(b, s) ensures a == b {
        LeastUnique(s, a, b);
      }
    }
    var m :| IsLeast(m, s);
    m
  }

  /** Python's `sorted` on a set of names. */
  function SortedNames(s: set<string>): (r: seq<string>)
    ensures forall x :: x in r <==> x in s
    ensures forall i, j :: 0 <= i < j < |r| ==> r[i] != r[j] && TextLeq(r[i], r[j])
  {
    if s == {} then [] else [LeastOf(s)] + SortedNames(s - {LeastOf(s)})
  }
}
