/** Every step of the forking sort brings the end nearer, and no failure is lost. */
module ForkProgress {
  import opened Sequences
  import opened SortedSeq
  import opened MergeSort
  import opened ForkTree

  // ----- every step brings the end nearer

  function StartWork(c: Config, lo: nat, hi: nat): nat
    requires lo <= hi
    decreases hi - lo
  {
    var num := NumElements(lo, hi);
    if num <= c.threshold then c.leafSteps + 2
    else if num < 2 then 1
    else StartWork(c, lo, Mid(lo, hi)) + StartWork(c, Mid(lo, hi), hi) + 2 * (hi - lo) + 4
  }

  /** An upper bound on the steps that `t` and its orphans can still take. */
  function Work(c: Config, t: Task, size: nat): nat
    requires Shaped(t, size)
  {
    match t
    case Start(lo, hi) => StartWork(c, lo, hi)
    case Sorting(_, _, _, steps) => steps + 1
    case Forked(lo, hi, child, cont) => Work(c, child, size) + Work(c, cont, size) + 2 * (hi - lo) + 3
    case Orphaned(_, _, child, cont) => Work(c, child, size) + Work(c, cont, size)
    case Merging(lo, hi, left, right, _) => (Mid(lo, hi) - left) + (hi - right) + (hi - lo) + 2
    case Copying(_, _, temp, i) => |temp| - i + 1
    case Done(_, _) => 0
    case Dead(_, _) => 0
  }

  lemma {:induction false} KillWork(c: Config, t: Task, size: nat)
    requires Shaped(t, size)
    ensures Shaped(Kill(t), size) && Died(Kill(t)) && Kill(t).lo == t.lo && Kill(t).hi == t.hi
    ensures Work(c, Kill(t), size) <= Work(c, t, size)
    ensures !t.Done? && !Died(t) ==> Work(c, Kill(t), size) < Work(c, t, size)
  {
    if t.Forked? {
      KillWork(c, t.cont, size);
    }
  }

  lemma LeafWork(c: Config, a: seq<int>, t: Task, forks: nat, b: seq<int>, u: Task)
    requires !t.Forked? && !t.Orphaned?
    requires Shaped(t, |a|) && ProcessStep(c, a, t, forks, b, u) && Shaped(u, |a|)
    ensures Work(c, u, |a|) < Work(c, t, |a|)
  {
    KillWork(c, t, |a|);
    if u.Forked? {
      assert Work(c, u.child, |a|) == StartWork(c, t.lo, Mid(t.lo, t.hi));
      assert Work(c, u.cont, |a|) == StartWork(c, Mid(t.lo, t.hi), t.hi);
    }
  }

  lemma {:induction false} StepWork(c: Config, a: seq<int>, t: Task, forks: nat, b: seq<int>, u: Task)
    requires Shaped(t, |a|) && ProcessStep(c, a, t, forks, b, u)
    requires |b| == |a| && Shaped(u, |a|)
    ensures Work(c, u, |a|) < Work(c, t, |a|)
  {
    if !t.Forked? && !t.Orphaned? {
      LeafWork(c, a, t, forks, b, u);
    } else {
      KillWork(c, t, |a|);
      HalvesStep(c, a, t, forks, b, u);
      if ChildSteps(c, a, t, forks, b, u) {
        StepWork(c, a, t.child, forks, b, u.child);
      } else if ContSteps(c, a, t, forks, b, u) {
        StepWork(c, a, t.cont, forks, b, u.cont);
      }
    }
  }

  // ----- failures

  /** Some process of the tree has died. */
  predicate Failed(t: Task) {
    Died(t) || (t.Forked? && (Failed(t.child) || Failed(t.cont)))
  }

  /** No step undoes a failure: it stays in the tree until it reaches the root. */
  lemma {:induction false} FailureSticks(c: Config, a: seq<int>, t: Task, forks: nat, b: seq<int>, u: Task)
    requires Shaped(t, |a|) && ProcessStep(c, a, t, forks, b, u) && Failed(t)
    ensures Failed(u)
  {
    KillDied(t);
    if t.Forked? {
      HalvesStep(c, a, t, forks, b, u);
      if ChildSteps(c, a, t, forks, b, u) {
        if Failed(t.child) {
          FailureSticks(c, a, t.child, forks, b, u.child);
        }
      } else if ContSteps(c, a, t, forks, b, u) && Failed(t.cont) {
        FailureSticks(c, a, t.cont, forks, b, u.cont);
      }
    } else {
      assert t.Orphaned?;
    }
  }

  lemma KillDied(t: Task)
    ensures Died(Kill(t))
  {
  }

  /** `a` with `run` written over it from `lo` on. */
  function Splice(a: seq<int>, lo: nat, run: seq<int>): (b: seq<int>)
    requires lo + |run| <= |a|
    ensures SameOutside(a, b, lo, lo + |run|) && b[lo..lo + |run|] == run
  {
    a[..lo] + run + a[lo + |run|..]
  }

  lemma SortReturns(c: Config, a: seq<int>, t: Task) returns (b: seq<int>, u: Task)
    requires t.Sorting? && Shaped(t, |a|)
    ensures Step(c, a, t, 0, b, u) && !Failed(u)
  {
    SortSorts(t.was);
    b := Splice(a, t.lo, Sort(t.was));
    u := Done(t.lo, t.hi);
  }

  lemma MergeProgress(c: Config, a: seq<int>, t: Task) returns (u: Task)
    requires t.Merging? && Shaped(t, |a|)
    ensures Step(c, a, t, 0, a, u) && !Failed(u)
  {
    if t.left == Mid(t.lo, t.hi) && t.right == t.hi {
      u := Copying(t.lo, t.hi, t.temp, 0);
    } else if t.right == t.hi || (t.left < Mid(t.lo, t.hi) && CompareI64(a[t.left], a[t.right]) <= 0) {
      u := t.(temp := t.temp + [a[t.left]], left := t.left + 1);
    } else {
      u := t.(temp := t.temp + [a[t.right]], right := t.right + 1);
    }
  }

  lemma LeafProgress(c: Config, a: seq<int>, t: Task) returns (forks: nat, b: seq<int>, u: Task)
    requires t.Start? || t.Sorting? || t.Merging? || t.Copying?
    requires Shaped(t, |a|)
    ensures Step(c, a, t, forks, b, u) && !Failed(u)
  {
    forks, b := 0, a;
    match t {
      case Start(lo, hi) =>
        var num := NumElements(lo, hi);
        if num <= c.threshold {
          u := Sorting(lo, hi, a[lo..lo + num], c.leafSteps);
        } else if num < 2 {
          u := Done(lo, hi);
        } else {
          forks, u := 1, Forked(lo, hi, Start(lo, Mid(lo, hi)), Start(Mid(lo, hi), hi));
          assert !Failed(u.child) && !Failed(u.cont);
        }
      case Sorting(lo, hi, was, _) =>
        b, u := SortReturns(c, a, t);
      case Merging(_, _, _, _, _) =>
        u := MergeProgress(c, a, t);
      case Copying(lo, hi, temp, i) =>
        if i == |temp| {
          u := Done(lo, hi);
        } else {
          b := a[lo + i := temp[i]];
          u := t.(i := i + 1);
        }
    }
  }

  /** A process that has neither returned nor died can step, and needs no new failure to. */
  lemma {:induction false} Progress(c: Config, a: seq<int>, t: Task) returns (forks: nat, b: seq<int>, u: Task)
    requires Shaped(t, |a|) && !t.Done? && !Died(t)
    ensures Step(c, a, t, forks, b, u)
    ensures Failed(u) ==> Failed(t)
  {
    if !t.Forked? {
      forks, b, u := LeafProgress(c, a, t);
    } else if !t.cont.Done? {
      var v;
      forks, b, v := Progress(c, a, t.cont);
      u := if Died(v) then Orphaned(t.lo, t.hi, t.child, v) else Forked(t.lo, t.hi, t.child, v);
    } else if t.child.Done? {
      forks, b, u := 0, a, Merging(t.lo, t.hi, t.lo, t.child.hi, []);
    } else if Died(t.child) {
      forks, b, u := 0, a, Kill(t);
    } else {
      var v;
      forks, b, v := Progress(c, a, t.child);
      u := Forked(t.lo, t.hi, v, t.cont);
    }
  }
}
