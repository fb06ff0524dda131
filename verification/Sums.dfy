/** Sums over finite sets of names; the order in which a Go map is walked does not matter to them. */
module Sums {

  ghost function Sum(ks: set<string>, w: string -> nat): nat {
    if ks == {} then 0
    else
      var k :| k in ks;
      w(k) + Sum(ks - {k}, w)
  }

  /** Any element may be taken out first. */
  lemma {:induction false} SumTake(ks: set<string>, w: string -> nat, k: string)
    requires k in ks
    ensures Sum(ks, w) == w(k) + Sum(ks - {k}, w)
  {
    var j :| j in ks && Sum(ks, w) == w(j) + Sum(ks - {j}, w);
    if j != k {
      SumTake(ks - {j}, w, k);
      SumTake(ks - {k}, w, j);
      assert ks - {j} - {k} == ks - {k} - {j};
    }
  }

  lemma {:induction false} SumOfTwo(ks: set<string>, v: string -> nat, w: string -> nat, t: string -> nat)
    requires forall k :: k in ks ==> t(k) == v(k) + w(k)
    ensures Sum(ks, t) == Sum(ks, v) + Sum(ks, w)
  {
    if ks != {} {
      var k :| k in ks;
      SumTake(ks, t, k);
      SumTake(ks, v, k);
      SumTake(ks, w, k);
      SumOfTwo(ks - {k}, v, w, t);
    }
  }

  lemma {:induction false} SumOfZero(ks: set<string>, w: string -> nat)
    requires forall k :: k in ks ==> w(k) == 0
    ensures Sum(ks, w) == 0
  {
    if ks != {} {
      var k :| k in ks;
      SumTake(ks, w, k);
      SumOfZero(ks - {k}, w);
    }
  }

  lemma {:induction false} SumSame(ks: set<string>, v: string -> nat, w: string -> nat)
    requires forall k :: k in ks ==> v(k) == w(k)
    ensures Sum(ks, v) == Sum(ks, w)
  {
    if ks != {} {
      var k :| k in ks;
      SumTake(ks, v, k);
      SumTake(ks, w, k);
      SumSame(ks - {k}, v, w);
    }
  }
}
