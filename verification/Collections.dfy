/** Facts about finite collections that several protocols share. */
module Collections {

  /** The set of all indices below `n`. */
  function Below(n: nat): set<nat> {
    if n == 0 then {} else Below(n - 1) + {n - 1}
  }

  lemma {:induction false} BelowHas(n: nat, i: nat)
    ensures i in Below(n) <==> i < n
  {
    if n == 0 {
    } else {
      BelowHas(n - 1, i);
    }
  }

  lemma {:induction false} BelowSize(n: nat)
    ensures |Below(n)| == n
  {
    if n == 0 {
    } else {
      BelowSize(n - 1);
      BelowHas(n - 1, n - 1);
    }
  }

  /** A set that maps injectively into the indices below `n` has at most `n` elements. */
  lemma {:induction false} InjectionBound<T>(xs: set<T>, f: map<T, nat>, n: nat)
    requires xs <= f.Keys
    requires forall x <- xs :: f[x] < n
    requires forall x <- xs, y <- xs :: f[x] == f[y] ==> x == y
    ensures |xs| <= n
  {
    var image := set x <- xs :: f[x];
    InjectionKeepsSize(xs, f);
    forall i | i in image ensures i in Below(n) { BelowHas(n, i); }
    SubsetSize(image, Below(n));
    BelowSize(n);
  }

  lemma {:induction false} InjectionKeepsSize<T>(xs: set<T>, f: map<T, nat>)
    requires xs <= f.Keys
    requires forall x <- xs, y <- xs :: f[x] == f[y] ==> x == y
    ensures |set x <- xs :: f[x]| == |xs|
  {
    if xs == {} {
      assert (set x <- xs :: f[x]) == {};
    } else {
      var x :| x in xs;
      var rest := xs - {x};
      InjectionKeepsSize(rest, f);
      assert (set y <- xs :: f[y]) == (set y <- rest :: f[y]) + {f[x]};
    }
  }

  lemma {:induction false} SubsetSize<T>(a: set<T>, b: set<T>)
    requires a <= b
    ensures |a| <= |b|
  {
    if a == {} {
    } else {
      var x :| x in a;
      SubsetSize(a - {x}, b - {x});
    }
  }
}
