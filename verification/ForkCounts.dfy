/** How many forks the sort makes. */
module ForkCounts {
  import opened SortedSeq
  import opened MergeSort
  import opened ForkTree
  import opened ForkSafety
  import opened ForkProgress

  /** The forks of a sort of `n` elements in which none fails. */
  function ForkCount(threshold: nat, n: nat): nat {
    if n <= threshold || n < 2 then 0
    else 1 + ForkCount(threshold, n / 2) + ForkCount(threshold, n - n / 2)
  }

  /** The forks still to come. */
  function ForksLeft(c: Config, t: Task): nat {
    match t
    case Start(lo, hi) => if lo <= hi then ForkCount(c.threshold, hi - lo) else 0
    case Forked(_, _, child, cont) => ForksLeft(c, child) + ForksLeft(c, cont)
    case Orphaned(_, _, child, cont) => ForksLeft(c, child) + ForksLeft(c, cont)
    case _ => 0
  }

  lemma {:induction false} KillForks(c: Config, t: Task)
    ensures ForksLeft(c, Kill(t)) <= ForksLeft(c, t)
  {
    if t.Forked? {
      KillForks(c, t.cont);
    }
  }

  /** Forks are never added, and lost only through failures. */
  lemma {:induction false} StepForks(c: Config, orig: seq<int>, a: seq<int>, t: Task, forks: nat, b: seq<int>, u: Task)
    requires |a| == |orig| && Inv(c, orig, a, t) && ProcessStep(c, a, t, forks, b, u)
    ensures forks + ForksLeft(c, u) <= ForksLeft(c, t)
    ensures !Failed(u) ==> forks + ForksLeft(c, u) == ForksLeft(c, t)
  {
    if t.Forked? || t.Orphaned? {
      HalvesStep(c, a, t, forks, b, u);
      if ChildSteps(c, a, t, forks, b, u) {
        StepForks(c, orig, a, t.child, forks, b, u.child);
      } else if ContSteps(c, a, t, forks, b, u) {
        StepForks(c, orig, a, t.cont, forks, b, u.cont);
      } else {
        KillForks(c, t);
        KillDied(t);
      }
    } else {
      LeafForks(c, orig, a, t, forks, b, u);
    }
  }

  lemma LeafForks(c: Config, orig: seq<int>, a: seq<int>, t: Task, forks: nat, b: seq<int>, u: Task)
    requires |a| == |orig| && Inv(c, orig, a, t) && ProcessStep(c, a, t, forks, b, u) && !t.Forked? && !t.Orphaned?
    ensures forks + ForksLeft(c, u) <= ForksLeft(c, t)
    ensures !Failed(u) ==> forks + ForksLeft(c, u) == ForksLeft(c, t)
  {
    KillForks(c, t);
    KillDied(t);
    if t.Start? && Step(c, a, t, forks, b, u) {
      StartForks(c, a, t, forks, b, u);
    }
  }

  lemma StartForks(c: Config, a: seq<int>, t: Task, forks: nat, b: seq<int>, u: Task)
    requires Shaped(t, |a|) && t.Start? && FitsWidths(t.hi - t.lo, c.threshold) && Step(c, a, t, forks, b, u)
    ensures forks + ForksLeft(c, u) <= ForksLeft(c, t)
    ensures !Died(u) ==> forks + ForksLeft(c, u) == ForksLeft(c, t)
  {
    Untruncated(t.lo, t.hi, c.threshold);
    if u.Forked? {
      CountOfHalves(c.threshold, t.lo, t.hi);
      assert ForksLeft(c, u) == ForksLeft(c, u.child) + ForksLeft(c, u.cont);
    } else if !Died(u) {
      NoForks(c.threshold, t.hi - t.lo);
    }
  }

  lemma NoForks(threshold: nat, n: nat)
    requires n <= threshold || n < 2
    ensures ForkCount(threshold, n) == 0
  {
  }

  /** The child gets the first floor(n / 2) elements, the process itself the others. */
  lemma ForkedHalves(c: Config, a: seq<int>, t: Task, forks: nat, b: seq<int>, u: Task)
    requires Shaped(t, |a|) && t.Start? && Step(c, a, t, forks, b, u) && u.Forked?
    ensures var n := t.hi - t.lo;
      forks == 1 && b == a && u.child == Start(t.lo, t.lo + n / 2) && u.cont == Start(t.lo + n / 2, t.hi)
  {
  }

  lemma CountOfHalves(threshold: nat, lo: nat, hi: nat)
    requires lo <= hi && threshold < hi - lo && 2 <= hi - lo
    ensures lo <= Mid(lo, hi) <= hi
    ensures ForkCount(threshold, hi - lo) == 1 + ForkCount(threshold, Mid(lo, hi) - lo) + ForkCount(threshold, hi - Mid(lo, hi))
  {
  }

  /** Every leaf holds between floor((threshold + 1) / 2) and threshold elements. */
  lemma {:induction false} ForkCountBounds(threshold: nat, n: nat)
    requires n > threshold
    ensures threshold >= 1 ==> (ForkCount(threshold, n) + 1) * ((threshold + 1) / 2) <= n <= (ForkCount(threshold, n) + 1) * threshold
    ensures threshold == 0 ==> ForkCount(threshold, n) == n - 1
  {
    if threshold >= 1 {
      LeafSizes(threshold, n);
    } else if n >= 2 {
      ForkCountBounds(0, n / 2);
      ForkCountBounds(0, n - n / 2);
    }
  }

  lemma {:induction false} LeafSizes(threshold: nat, n: nat)
    requires 1 <= threshold && (threshold + 1) / 2 <= n
    ensures (ForkCount(threshold, n) + 1) * ((threshold + 1) / 2) <= n <= (ForkCount(threshold, n) + 1) * threshold
  {
    if n > threshold {
      LeafSizes(threshold, n / 2);
      LeafSizes(threshold, n - n / 2);
      var f, g, h := ForkCount(threshold, n / 2) + 1, ForkCount(threshold, n - n / 2) + 1, (threshold + 1) / 2;
      assert f * h + g * h == (f + g) * h;
      assert f * threshold + g * threshold == (f + g) * threshold;
    }
  }
}
