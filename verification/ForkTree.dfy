/**
 * The tree of processes that merge_sort forks, as one interleaved step machine over the
 * shared mapping. A node is one activation of merge_sort on [lo, hi): after a fork, `child`
 * runs the left half in its own process and `cont` is the nested call on the right half in
 * this process. Merging and copying back go one element per step. Any fork may fail, any
 * waitpid may fail, and any process may be killed at any step; its children then run on.
 */
module ForkTree {
  import opened Sequences
  import opened SortedSeq
  import opened MergeSort

  /** `leafSteps` bounds how often one library sort writes before it returns. */
  datatype Config = Config(threshold: nat, leafSteps: nat)

  datatype Task =
    | Start(lo: nat, hi: nat)
    | Sorting(lo: nat, hi: nat, was: seq<int>, steps: nat)
    | Forked(lo: nat, hi: nat, child: Task, cont: Task)
    | Merging(lo: nat, hi: nat, left: nat, right: nat, temp: seq<int>)
    | Copying(lo: nat, hi: nat, temp: seq<int>, i: nat)
    | Done(lo: nat, hi: nat)
    | Dead(lo: nat, hi: nat)
    | Orphaned(lo: nat, hi: nat, child: Task, cont: Task)  // dead, `child` was left behind

  function Mid(lo: nat, hi: nat): nat
    requires lo <= hi
  {
    lo + (hi - lo) / 2
  }

  /** The process of `t` has exited with a non-zero status or was killed. */
  predicate Died(t: Task) {
    t.Dead? || t.Orphaned?
  }

  /** Ends the process that runs `t`; the children along its call stack become orphans. */
  function Kill(t: Task): Task {
    if t.Forked? then Orphaned(t.lo, t.hi, t.child, Kill(t.cont))
    else if t.Orphaned? then t
    else Dead(t.lo, t.hi)
  }

  /** The ranges nest as the recursion splits them, inside an array of length `size`. */
  predicate Shaped(t: Task, size: nat) {
    && t.lo <= t.hi <= size
    && match t
       case Sorting(lo, hi, was, _) => lo + |was| <= hi
       case Forked(lo, hi, child, cont) =>
         child.lo == lo && child.hi == cont.lo == Mid(lo, hi) && cont.hi == hi &&
         Shaped(child, size) && Shaped(cont, size) && !Died(cont)
       case Orphaned(lo, hi, child, cont) =>
         child.lo == lo && child.hi == cont.lo == Mid(lo, hi) && cont.hi == hi &&
         Shaped(child, size) && Shaped(cont, size) && Died(cont)
       case Merging(lo, hi, left, right, temp) =>
         lo <= left <= Mid(lo, hi) <= right <= hi && |temp| == (left - lo) + (right - Mid(lo, hi))
       case Copying(lo, hi, temp, i) => i <= |temp| == hi - lo
       case _ => true
  }

  /** One step of the activation `t`, making `forks` forks (0 or 1). */
  ghost predicate Step(c: Config, a: seq<int>, t: Task, forks: nat, b: seq<int>, u: Task)
    requires Shaped(t, |a|)
    decreases t, 0
  {
    match t
    case Start(lo, hi) =>
      var num := NumElements(lo, hi);
      if num <= c.threshold then
        forks == 0 && b == a && u == Sorting(lo, hi, a[lo..lo + num], c.leafSteps)
      else if num < 2 then
        forks == 0 && b == a && u == Done(lo, hi)
      else
        || (forks == 1 && b == a && u == Forked(lo, hi, Start(lo, Mid(lo, hi)), Start(Mid(lo, hi), hi)))
        || (forks == 0 && b == a && u == Dead(lo, hi))
    case Sorting(lo, hi, was, steps) =>
      // Until it returns, the library sort may leave anything in its range.
      && forks == 0 && SameOutside(a, b, lo, lo + |was|)
      && (|| (steps > 0 && u == t.(steps := steps - 1))
          || (IsSortOf(b[lo..lo + |was|], was) && u == Done(lo, hi)))
    case Forked(lo, hi, child, cont) =>
      || (u.Forked? && u == Forked(lo, hi, u.child, cont) && ProcessStep(c, a, child, forks, b, u.child))
      || (u.Forked? && u == Forked(lo, hi, child, u.cont) && !Died(u.cont) && Step(c, a, cont, forks, b, u.cont))
      || (u.Orphaned? && u == Orphaned(lo, hi, child, u.cont) && Died(u.cont) && Step(c, a, cont, forks, b, u.cont))
      || (forks == 0 && b == a && cont.Done? && WaitReturns(t, u))
    case Orphaned(lo, hi, child, cont) =>
      || (u.Orphaned? && u == Orphaned(lo, hi, u.child, cont) && ProcessStep(c, a, child, forks, b, u.child))
      || (u.Orphaned? && u == Orphaned(lo, hi, child, u.cont) && Died(u.cont) && Step(c, a, cont, forks, b, u.cont))
    case Merging(lo, hi, left, right, temp) =>
      && forks == 0 && b == a
      && (if left == Mid(lo, hi) && right == hi then u == Copying(lo, hi, temp, 0)
          else if right == hi || (left < Mid(lo, hi) && CompareI64(a[left], a[right]) <= 0) then
            u == t.(temp := temp + [a[left]], left := left + 1)
          else
            u == t.(temp := temp + [a[right]], right := right + 1))
    case Copying(lo, hi, temp, i) =>
      && forks == 0
      && (if i == |temp| then b == a && u == Done(lo, hi)
          else b == a[lo + i := temp[i]] && u == t.(i := i + 1))
    case Done(_, _) => false
    case Dead(_, _) => false
  }

  /** waitpid may fail, or report how the child ended once it has ended. */
  ghost predicate WaitReturns(t: Task, u: Task)
    requires t.Forked?
  {
    || u == Kill(t)
    || (t.child.Done? && u == Merging(t.lo, t.hi, t.lo, t.child.hi, []))
  }

  /** One step of the process whose outermost activation is `t`: it steps or is killed. */
  ghost predicate ProcessStep(c: Config, a: seq<int>, t: Task, forks: nat, b: seq<int>, u: Task)
    requires Shaped(t, |a|)
    decreases t, 1
  {
    || Step(c, a, t, forks, b, u)
    || (!t.Done? && !Died(t) && forks == 0 && b == a && u == Kill(t))
  }

  ghost predicate ChildSteps(c: Config, a: seq<int>, t: Task, forks: nat, b: seq<int>, u: Task)
    requires Shaped(t, |a|) && (t.Forked? || t.Orphaned?)
  {
    && ProcessHalves(t, u) && u.cont == t.cont && u.Forked? == t.Forked?
    && ProcessStep(c, a, t.child, forks, b, u.child)
  }

  ghost predicate ContSteps(c: Config, a: seq<int>, t: Task, forks: nat, b: seq<int>, u: Task)
    requires Shaped(t, |a|) && (t.Forked? || t.Orphaned?)
  {
    && ProcessHalves(t, u) && u.child == t.child && u.Orphaned? == Died(u.cont)
    && (t.Orphaned? ==> u.Orphaned?)
    && Step(c, a, t.cont, forks, b, u.cont)
  }

  predicate ProcessHalves(t: Task, u: Task) {
    (u.Forked? || u.Orphaned?) && u.lo == t.lo && u.hi == t.hi
  }

  lemma ForkedStep(c: Config, a: seq<int>, t: Task, forks: nat, b: seq<int>, u: Task)
    requires Shaped(t, |a|) && t.Forked? && Step(c, a, t, forks, b, u)
    ensures
      || ChildSteps(c, a, t, forks, b, u)
      || ContSteps(c, a, t, forks, b, u)
      || (forks == 0 && b == a && t.cont.Done? && t.child.Done? && WaitReturns(t, u))
      || (forks == 0 && b == a && u == Kill(t))
  {
  }

  lemma OrphanedStep(c: Config, a: seq<int>, t: Task, forks: nat, b: seq<int>, u: Task)
    requires Shaped(t, |a|) && t.Orphaned? && Step(c, a, t, forks, b, u)
    ensures ChildSteps(c, a, t, forks, b, u) || ContSteps(c, a, t, forks, b, u)
  {
  }

  /** The ways in which a node with two halves steps. */
  lemma HalvesStep(c: Config, a: seq<int>, t: Task, forks: nat, b: seq<int>, u: Task)
    requires Shaped(t, |a|) && (t.Forked? || t.Orphaned?)
    requires ProcessStep(c, a, t, forks, b, u)
    ensures
      || ChildSteps(c, a, t, forks, b, u)
      || ContSteps(c, a, t, forks, b, u)
      || (t.Forked? && forks == 0 && b == a && u == Kill(t))
      || (t.Forked? && forks == 0 && b == a && t.cont.Done? && t.child.Done? && WaitReturns(t, u))
  {
    if Step(c, a, t, forks, b, u) {
      if t.Forked? {
        ForkedStep(c, a, t, forks, b, u);
      } else {
        OrphanedStep(c, a, t, forks, b, u);
      }
    }
  }

  // ----- what may go wrong

  /** Any process may be killed at any step, and every fork may fail. */
  lemma AnythingFails(c: Config, a: seq<int>, t: Task)
    requires Shaped(t, |a|) && !t.Done? && !Died(t)
    ensures ProcessStep(c, a, t, 0, a, Kill(t)) && Died(Kill(t))
    ensures t.Start? && NumElements(t.lo, t.hi) > c.threshold && NumElements(t.lo, t.hi) >= 2 ==>
      Step(c, a, t, 0, a, Dead(t.lo, t.hi))
  {
  }

  /** The processes that a process has forked and not yet waited for. */
  function Children(t: Task): seq<Task> {
    if t.Forked? || t.Orphaned? then [t.child] + Children(t.cont) else []
  }

  /** They outlive it. */
  lemma {:induction false} ChildrenOutlive(t: Task)
    ensures Children(Kill(t)) == Children(t)
  {
    if t.Forked? {
      ChildrenOutlive(t.cont);
    }
  }
}
