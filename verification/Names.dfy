/** Net names and the order strcmp gives them. */
module Names {
  type Name = string

  /** strcmp(a, b) <= 0 */
  predicate LessEq(a: Name, b: Name) {
    a == [] || (b != [] && (a[0] < b[0] || (a[0] == b[0] && LessEq(a[1..], b[1..]))))
  }

  lemma {:induction false} Total(a: Name, b: Name)
    ensures LessEq(a, b) || LessEq(b, a)
  {
    if a != [] && b != [] && a[0] == b[0] {
      Total(a[1..], b[1..]);
    }
  }

  lemma {:induction false} Antisymmetric(a: Name, b: Name)
    requires LessEq(a, b) && LessEq(b, a)
    ensures a == b
  {
    if a != [] && b != [] {
      Antisymmetric(a[1..], b[1..]);
      assert a == [a[0]] + a[1..] && b == [b[0]] + b[1..];
    }
  }

  lemma {:induction false} Transitive(a: Name, b: Name, c: Name)
    requires LessEq(a, b) && LessEq(b, c)
    ensures LessEq(a, c)
  {
    if a != [] && a[0] == b[0] == c[0] {
      Transitive(a[1..], b[1..], c[1..]);
    }
  }

  /** A prefix comes first; otherwise the first character that differs decides. */
  lemma {:induction false} LessEqExact(a: Name, b: Name)
    ensures LessEq(a, b) <==> a <= b || exists k: nat :: FirstLess(a, b, k)
  {
    if a == [] || b == [] {
      assert forall k: nat :: !FirstLess(a, b, k);
    } else {
      LessEqExact(a[1..], b[1..]);
      if k: nat :| FirstLess(a, b, k) && k > 0 {
        assert a[1..][..k - 1] == a[..k][1..] && b[1..][..k - 1] == b[..k][1..];
        assert a[0] == a[..k][0] && b[0] == b[..k][0];
        assert FirstLess(a[1..], b[1..], k - 1);
      }
      if a[0] < b[0] {
        assert FirstLess(a, b, 0);
      }
      if a[0] == b[0] {
        if k: nat :| FirstLess(a[1..], b[1..], k) {
          assert a[..k + 1] == [a[0]] + a[1..][..k] && b[..k + 1] == [b[0]] + b[1..][..k];
          assert FirstLess(a, b, k + 1);
        }
        assert a == [a[0]] + a[1..] && b == [b[0]] + b[1..];
        assert a <= b <==> a[1..] <= b[1..];
      }
    }
  }

  /** The names agree before character k, where a's is the smaller. */
  predicate FirstLess(a: Name, b: Name, k: nat) {
    k < |a| && k < |b| && a[..k] == b[..k] && a[k] < b[k]
  }
}
