/** Whole runs of the forking sort: every schedule, with and without failures. */
module ForkRuns {
  import opened Sequences
  import opened Arithmetic
  import opened SortedSeq
  import opened MergeSort
  import opened ForkTree
  import opened ForkSafety
  import opened ForkProgress
  import opened ForkCounts

  datatype State = State(arr: seq<int>, task: Task, forks: nat)

  ghost predicate Next(c: Config, s: State, s': State) {
    && Shaped(s.task, |s.arr|)
    && s.forks <= s'.forks
    && ProcessStep(c, s.arr, s.task, s'.forks - s.forks, s'.arr, s'.task)
  }

  /** A run of merge_sort(arr, lo, hi, threshold) in which the steps interleave at will. */
  ghost predicate IsRun(c: Config, orig: seq<int>, lo: nat, hi: nat, run: seq<State>) {
    && lo <= hi <= |orig|
    && |run| > 0 && run[0] == State(orig, Start(lo, hi), 0)
    && forall i :: 0 < i < |run| ==> Next(c, run[i - 1], run[i])
  }

  function Last(run: seq<State>): State
    requires |run| > 0
  {
    run[|run| - 1]
  }

  /** What holds in every state reached from State(orig, Start(lo, hi), 0). */
  ghost predicate Reached(c: Config, orig: seq<int>, lo: nat, hi: nat, s: State) {
    && lo <= hi <= |orig| == |s.arr|
    && s.task.lo == lo && s.task.hi == hi
    && SameOutside(s.arr, orig, lo, hi)
    && Inv(c, orig, s.arr, s.task)
    && s.forks + ForksLeft(c, s.task) <= ForkCount(c.threshold, hi - lo)
    && (!Failed(s.task) ==> s.forks + ForksLeft(c, s.task) == ForkCount(c.threshold, hi - lo))
  }

  lemma NextReached(c: Config, orig: seq<int>, lo: nat, hi: nat, s: State, s': State)
    requires Reached(c, orig, lo, hi, s) && Next(c, s, s')
    ensures Reached(c, orig, lo, hi, s')
    ensures Work(c, s'.task, |orig|) < Work(c, s.task, |orig|)
    ensures Failed(s.task) ==> Failed(s'.task)
  {
    ProcessStepKeeps(c, orig, s.arr, s.task, s'.forks - s.forks, s'.arr, s'.task);
    StepWork(c, s.arr, s.task, s'.forks - s.forks, s'.arr, s'.task);
    StepForks(c, orig, s.arr, s.task, s'.forks - s.forks, s'.arr, s'.task);
    if Failed(s.task) {
      FailureSticks(c, s.arr, s.task, s'.forks - s.forks, s'.arr, s'.task);
    }
  }

  lemma {:induction false} RunReached(c: Config, orig: seq<int>, lo: nat, hi: nat, run: seq<State>, i: nat)
    requires IsRun(c, orig, lo, hi, run) && i < |run|
    requires FitsWidths(hi - lo, c.threshold)
    ensures Reached(c, orig, lo, hi, run[i])
    ensures i + Work(c, run[i].task, |orig|) <= StartWork(c, lo, hi)
  {
    if i > 0 {
      RunReached(c, orig, lo, hi, run, i - 1);
      NextReached(c, orig, lo, hi, run[i - 1], run[i]);
    }
  }

  /** Whatever the schedule and the failures, a root that returns leaves exactly the sorted range. */
  lemma ScheduleIndependence(c: Config, orig: seq<int>, lo: nat, hi: nat, run: seq<State>)
    requires IsRun(c, orig, lo, hi, run) && FitsWidths(hi - lo, c.threshold)
    requires Last(run).task.Done?
    ensures |Last(run).arr| == |orig|
    ensures Last(run).arr == orig[..lo] + Sort(orig[lo..hi]) + orig[hi..]
    ensures IsSortOf(Last(run).arr[lo..hi], orig[lo..hi])
  {
    RunReached(c, orig, lo, hi, run, |run| - 1);
    SortSorts(orig[lo..hi]);
    Reassemble(Last(run).arr, orig, lo, hi);
  }

  lemma Reassemble(a: seq<int>, orig: seq<int>, lo: nat, hi: nat)
    requires lo <= hi <= |orig| && SameOutside(a, orig, lo, hi)
    ensures a == orig[..lo] + a[lo..hi] + orig[hi..]
  {
  }

  /** At every point of every run, nothing outside the range has been written. */
  lemma NothingOutside(c: Config, orig: seq<int>, lo: nat, hi: nat, run: seq<State>, i: nat)
    requires IsRun(c, orig, lo, hi, run) && FitsWidths(hi - lo, c.threshold) && i < |run|
    ensures SameOutside(run[i].arr, orig, lo, hi)
  {
    RunReached(c, orig, lo, hi, run, i);
  }

  /** Activations running side by side own disjoint ranges. */
  lemma OwnersDisjoint(c: Config, orig: seq<int>, lo: nat, hi: nat, run: seq<State>, i: nat)
    requires IsRun(c, orig, lo, hi, run) && FitsWidths(hi - lo, c.threshold) && i < |run|
    ensures var r := Running(run[i].task); forall j, k :: 0 <= j < k < |r| ==> r[j].hi <= r[k].lo
  {
    RunReached(c, orig, lo, hi, run, i);
    RunningDisjoint(run[i].task, |orig|);
  }

  /** Each step writes at most in the range of one running activation. */
  lemma WritesOwnedInRun(c: Config, orig: seq<int>, lo: nat, hi: nat, run: seq<State>, i: nat)
    requires IsRun(c, orig, lo, hi, run) && 0 < i < |run|
    ensures WritesOwned(run[i - 1].arr, run[i].arr, Running(run[i - 1].task))
  {
    assert Next(c, run[i - 1], run[i]);
    NextWritesOwned(c, run[i - 1], run[i]);
  }

  lemma NextWritesOwned(c: Config, s: State, s': State)
    requires Next(c, s, s')
    ensures WritesOwned(s.arr, s'.arr, Running(s.task))
  {
    StepWritesOwned(c, s.arr, s.task, s'.forks - s.forks, s'.arr, s'.task);
  }

  /** Every run ends: its length is bounded before it starts. */
  lemma RunsEnd(c: Config, orig: seq<int>, lo: nat, hi: nat, run: seq<State>)
    requires IsRun(c, orig, lo, hi, run) && FitsWidths(hi - lo, c.threshold)
    ensures |run| <= StartWork(c, lo, hi) + 1
  {
    RunReached(c, orig, lo, hi, run, |run| - 1);
  }

  /** No step is left, other than killing processes. */
  ghost predicate Stuck(c: Config, s: State) {
    Shaped(s.task, |s.arr|) && forall forks, b, u :: !Step(c, s.arr, s.task, forks, b, u)
  }

  lemma {:induction false} FailureStays(c: Config, orig: seq<int>, lo: nat, hi: nat, run: seq<State>, i: nat, j: nat)
    requires IsRun(c, orig, lo, hi, run) && FitsWidths(hi - lo, c.threshold)
    requires i <= j < |run| && Failed(run[i].task)
    ensures Failed(run[j].task)
  {
    if i < j {
      FailureStays(c, orig, lo, hi, run, i, j - 1);
      RunReached(c, orig, lo, hi, run, j - 1);
      NextReached(c, orig, lo, hi, run[j - 1], run[j]);
    }
  }

  /**
   * The exit status is honest: a root that returns (status 0) saw no failure anywhere in the
   * tree, and a run that comes to rest returns or dies, dying exactly when something failed.
   */
  lemma HonestExit(c: Config, orig: seq<int>, lo: nat, hi: nat, run: seq<State>)
    requires IsRun(c, orig, lo, hi, run) && FitsWidths(hi - lo, c.threshold)
    ensures Last(run).task.Done? ==> forall i :: 0 <= i < |run| ==> !Failed(run[i].task)
    ensures Stuck(c, Last(run)) ==> Last(run).task.Done? || Died(Last(run).task)
    ensures Stuck(c, Last(run)) ==> (Last(run).task.Done? <==> !Failed(Last(run).task))
  {
    var s := Last(run);
    if s.task.Done? {
      forall i | 0 <= i < |run|
        ensures !Failed(run[i].task)
      {
        if Failed(run[i].task) {
          FailureStays(c, orig, lo, hi, run, i, |run| - 1);
          assert false;
        }
      }
    } else if Stuck(c, s) && !Died(s.task) {
      var forks, b, u := Progress(c, s.arr, s.task);
      assert false;
    }
  }

  /** The forks of a root that returns; a run with failures never makes more. */
  lemma ForksOfRun(c: Config, orig: seq<int>, lo: nat, hi: nat, run: seq<State>)
    requires IsRun(c, orig, lo, hi, run) && FitsWidths(hi - lo, c.threshold)
    ensures Last(run).forks <= ForkCount(c.threshold, hi - lo)
    ensures Last(run).task.Done? ==> Last(run).forks == ForkCount(c.threshold, hi - lo)
  {
    RunReached(c, orig, lo, hi, run, |run| - 1);
  }

  /** So their number lies between two bounds that need only the length and the threshold. */
  lemma ForksBetween(c: Config, orig: seq<int>, lo: nat, hi: nat, run: seq<State>)
    requires IsRun(c, orig, lo, hi, run) && FitsWidths(hi - lo, c.threshold)
    requires Last(run).task.Done? && hi - lo > c.threshold
    ensures ForksBounded(hi - lo, c.threshold, Last(run).forks)
  {
    ForksOfRun(c, orig, lo, hi, run);
    ForkBounds(hi - lo, c.threshold);
  }

  ghost predicate ForksBounded(n: nat, t: nat, f: nat) {
    if t == 0 then f == n - 1 else (n + t - 1) / t - 1 <= f <= n / ((t + 1) / 2) - 1
  }

  lemma ForkBounds(n: nat, t: nat)
    requires n > t
    ensures ForksBounded(n, t, ForkCount(t, n))
  {
    ForkCountBounds(t, n);
    if t >= 1 {
      DivisionBounds(n, t, ForkCount(t, n) + 1);
      DivisionBounds(n, (t + 1) / 2, ForkCount(t, n) + 1);
    }
  }

  lemma DivisionBounds(n: nat, d: nat, q: nat)
    requires d >= 1
    ensures n <= q * d ==> (n + d - 1) / d <= q
    ensures q * d <= n ==> q <= n / d
  {
    if n <= q * d {
      assert (q + 1) * d == q * d + d;
      CancelFactor((n + d - 1) / d, q + 1, d);
    }
    if q * d <= n {
      assert (n / d + 1) * d == (n / d) * d + d;
      CancelFactor(q, n / d + 1, d);
    }
  }

  /**
   * `num_elements` is an `unsigned`: when it makes the root a leaf or lets it return at once, the
   * run sorts every array exactly when the length fits it.
   */
  lemma LeafSortsIffFits(c: Config, n: nat)
    requires NumElements(0, n) <= c.threshold || NumElements(0, n) < 2
    ensures
      (forall orig, run :: |orig| == n && IsRun(c, orig, 0, n, run) && Last(run).task.Done? ==> Sorted(Last(run).arr))
      <==> n < 0x1_0000_0000
  {
    if n < UINT_MODULUS {
      forall orig, run | |orig| == n && IsRun(c, orig, 0, n, run) && Last(run).task.Done?
        ensures Sorted(Last(run).arr)
      {
        ScheduleIndependence(c, orig, 0, n, run);
        RunReached(c, orig, 0, n, run, |run| - 1);
        assert Last(run).arr[0..n] == Last(run).arr;
      }
    } else {
      var orig, run := UnsortedRun(c, n);
    }
  }

  lemma UnsortedRun(c: Config, n: nat) returns (orig: seq<int>, run: seq<State>)
    requires (NumElements(0, n) <= c.threshold || NumElements(0, n) < 2) && n >= UINT_MODULUS
    ensures |orig| == n && IsRun(c, orig, 0, n, run) && Last(run).task.Done? && !Sorted(Last(run).arr)
  {
    orig := seq(n, (i: int) => -i);
    if NumElements(0, n) <= c.threshold {
      run := CutLeaf(c, orig);
    } else {
      run := [State(orig, Start(0, n), 0), State(orig, Done(0, n), 0)];
      assert Next(c, run[0], run[1]);
      assert orig[0] > orig[1];
    }
  }

  /** The library sort gets only the first elements of a descending array. */
  lemma CutLeaf(c: Config, orig: seq<int>) returns (run: seq<State>)
    requires orig == seq(|orig|, (i: int) => -i)
    requires NumElements(0, |orig|) <= c.threshold && |orig| >= UINT_MODULUS
    ensures IsRun(c, orig, 0, |orig|, run) && Last(run).task.Done? && !Sorted(Last(run).arr)
  {
    var n, num := |orig|, NumElements(0, |orig|);
    assert num + 2 <= n;
    var b := CutRun(c, orig, num);
    run := [State(orig, Start(0, n), 0), State(orig, Sorting(0, n, orig[0..0 + num], c.leafSteps), 0), State(b, Done(0, n), 0)];
    EndUnsorted(orig, b, num);
  }

  lemma CutRun(c: Config, orig: seq<int>, num: nat) returns (b: seq<int>)
    requires num == NumElements(0, |orig|) && num <= c.threshold && num <= |orig|
    ensures var n, was := |orig|, orig[0..0 + num];
      && |b| == n && SameOutside(orig, b, 0, num)
      && Next(c, State(orig, Start(0, n), 0), State(orig, Sorting(0, n, was, c.leafSteps), 0))
      && Next(c, State(orig, Sorting(0, n, was, c.leafSteps), 0), State(b, Done(0, n), 0))
  {
    var was := orig[0..0 + num];
    SortSorts(was);
    b := Splice(orig, 0, Sort(was));
  }

  lemma EndUnsorted(orig: seq<int>, b: seq<int>, num: nat)
    requires orig == seq(|orig|, (i: int) => -i) && num + 2 <= |orig| && SameOutside(orig, b, 0, num)
    ensures !Sorted(b)
  {
    var n := |orig|;
    assert b[n - 2] == orig[n - 2] == 2 - n && b[n - 1] == orig[n - 1] == 1 - n;
  }
}
