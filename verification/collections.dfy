/** Facts about finite sets and sequences used across the model. */
module Collections {
  /** No element occurs twice. */
  predicate Distinct<T(==)>(xs: seq<T>) {
    forall a, b :: 0 <= a < b < |xs| ==> xs[a] != xs[b]
  }

  /** A subset is no larger than its superset. */
  lemma {:induction false} SubsetCard<T>(a: set<T>, b: set<T>)
    requires a <= b
    ensures |a| <= |b|
    decreases |b|
  {
    if a != {} {
      var x :| x in a;
      SubsetCard(a - {x}, b - {x});
    }
  }

  /** A subset missing an element of its superset is strictly smaller. */
  lemma ProperSubsetCard<T>(a: set<T>, b: set<T>, x: T)
    requires a <= b && x in b && x !in a
    ensures |a| < |b|
  {
    SubsetCard(a, b - {x});
  }

  /** The distinct elements of a sequence are at most as many as its entries, and as many exactly when none repeats. */
  lemma {:induction false} DistinctCount<T>(xs: seq<T>)
    ensures |set i | 0 <= i < |xs| :: xs[i]| <= |xs|
    ensures |set i | 0 <= i < |xs| :: xs[i]| == |xs| <==> Distinct(xs)
    decreases |xs|
  {
    if |xs| > 0 {
      var tail := xs[1..];
      DistinctCount(tail);
      var all := set i | 0 <= i < |xs| :: xs[i];
      var rest := set i | 0 <= i < |tail| :: tail[i];
      assert all == rest + {xs[0]} by {
        forall x | x in all
          ensures x in rest + {xs[0]}
        {
          var i :| 0 <= i < |xs| && xs[i] == x;
          if i > 0 {
            assert tail[i - 1] == x;
          }
        }
        forall x | x in rest + {xs[0]}
          ensures x in all
        {
          if x != xs[0] {
            var i :| 0 <= i < |tail| && tail[i] == x;
            assert xs[i + 1] == x;
          }
        }
      }
      if xs[0] in rest {
        var i :| 0 <= i < |tail| && tail[i] == xs[0];
        assert xs[0] == xs[i + 1];
        assert all == rest;
      } else {
        assert |all| == |rest| + 1;
        if Distinct(tail) {
          forall a, b | 0 <= a < b < |xs|
            ensures xs[a] != xs[b]
          {
            if a == 0 {
              assert xs[b] == tail[b - 1];
            } else {
              assert xs[a] == tail[a - 1] && xs[b] == tail[b - 1];
            }
          }
        } else {
          var a, b :| 0 <= a < b < |tail| && tail[a] == tail[b];
          assert xs[a + 1] == xs[b + 1];
        }
      }
    }
  }
}
