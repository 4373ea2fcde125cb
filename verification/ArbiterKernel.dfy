/** The same-tick collision pass computes the greedy kernel of the clash relation. */
module CollisionKernel {
  import opened Values
  import opened Arbitration

  /** A motion survives iff no earlier survivor clashes with it. */
  ghost predicate Survives(due: seq<Motion>, i: nat)
    requires i < |due|
    decreases i
  {
    forall j: nat | j < i && Survives(due, j) :: !Clash(due[j], due[i])
  }

  lemma {:induction false} SweepMeaning(due: seq<Motion>, n: nat, k: nat)
    requires n <= |due| && k < |due|
    ensures k in Sweep(due, n) <==> exists i: nat :: i < n && i < k && Survives(due, i) && Clash(due[i], due[k])
  {
    if n == 0 {
    } else {
      var i := n - 1;
      var out := Sweep(due, i);
      SweepMeaning(due, i, k);
      SweepMeaning(due, i, i);
      assert i in out <==> !Survives(due, i);
      StruckMeaning(due, i, |due|, out);
    }
  }

  /** The survivors of the pass are exactly the kernel. */
  lemma SweepIsKernel(due: seq<Motion>, k: nat)
    requires k < |due|
    ensures k in Sweep(due, |due|) <==> !Survives(due, k)
  {
    SweepMeaning(due, |due|, k);
  }

  /** Any index set that is both conflict-free and absorbing is the set of survivors. */
  ghost predicate IsKernel(due: seq<Motion>, K: set<nat>) {
    && (forall k | k in K :: k < |due|)
    && (forall i, k | i in K && k in K && i < k :: !Clash(due[i], due[k]))
    && (forall k: nat | k < |due| && k !in K :: exists i :: i in K && i < k && Clash(due[i], due[k]))
  }

  lemma {:induction false} KernelIsUnique(due: seq<Motion>, K: set<nat>, k: nat)
    requires IsKernel(due, K) && k < |due|
    ensures k in K <==> Survives(due, k)
  {
    forall i: nat | i < k ensures i in K <==> Survives(due, i) {
      KernelIsUnique(due, K, i);
    }
  }

  lemma SurvivorsAreKernel(due: seq<Motion>)
    ensures IsKernel(due, set k: nat | k < |due| && k !in Sweep(due, |due|))
  {
    var K := set k: nat | k < |due| && k !in Sweep(due, |due|);
    forall k: nat | k < |due| ensures k in K <==> Survives(due, k) {
      SweepIsKernel(due, k);
    }
  }

  lemma {:induction false} StruckDistinct(due: seq<Motion>, i: nat, j: nat, out: seq<nat>)
    requires i < |due| && j <= |due|
    ensures NoRepeats(Struck(due, i, j, out))
  {
    if j <= i + 1 {
    } else {
      var before := Struck(due, i, j - 1, out);
      StruckDistinct(due, i, j - 1, out);
      StruckMeaning(due, i, j - 1, out);
      assert j - 1 !in before;
      NoRepeatsSnoc(before, j - 1);
    }
  }

  /** Each loser is reported once. */
  lemma {:induction false} SweepDistinct(due: seq<Motion>, n: nat)
    requires n <= |due|
    ensures NoRepeats(Sweep(due, n))
  {
    if n == 0 {
    } else {
      var out := Sweep(due, n - 1);
      var more := Struck(due, n - 1, |due|, out);
      SweepDistinct(due, n - 1);
      StruckDistinct(due, n - 1, |due|, out);
      StruckMeaning(due, n - 1, |due|, out);
      forall p, q | 0 <= p < |out| && 0 <= q < |more| ensures out[p] != more[q] {
        var k := more[q];
        assert k in more;
        assert out[p] in out;
      }
    }
  }

  /** What is left keeps its order, and JUMPs are never eliminated. */
  lemma {:induction false} KeptMeaning(due: seq<Motion>, n: nat)
    requires n <= |due|
    ensures Kept(due, Sweep(due, |due|), n) == Survivors(due, n)
    ensures forall k: nat | k < n && due[k].Jump? :: Survives(due, k)
  {
    if n == 0 {
    } else {
      KeptMeaning(due, n - 1);
      SweepIsKernel(due, n - 1);
    }
  }

  /** The kernel's motions among the first n, in starting order. */
  ghost function Survivors(due: seq<Motion>, n: nat): seq<Motion>
    requires n <= |due|
  {
    if n == 0 then []
    else if Survives(due, n - 1) then Survivors(due, n - 1) + [due[n - 1]]
    else Survivors(due, n - 1)
  }
}
