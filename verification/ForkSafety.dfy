/** What every step of the forking sort keeps, and where it writes. */
module ForkSafety {
  import opened Sequences
  import opened SortedSeq
  import opened MergeSort
  import opened ForkTree

  // ----- what every step keeps

  /** Where the node is in sorting `orig[lo..hi]`, given the array as it is now. */
  ghost predicate Inv(c: Config, orig: seq<int>, a: seq<int>, t: Task)
    requires |a| == |orig|
    decreases t
  {
    && Shaped(t, |a|)
    && match t
       case Start(lo, hi) => FitsWidths(hi - lo, c.threshold) && a[lo..hi] == orig[lo..hi]
       case Sorting(lo, hi, was, _) => was == orig[lo..hi]
       case Forked(lo, hi, child, cont) => Inv(c, orig, a, child) && Inv(c, orig, a, cont)
       case Orphaned(lo, hi, child, cont) => Inv(c, orig, a, child) && Inv(c, orig, a, cont)
       case Merging(lo, hi, left, right, temp) =>
         temp + Merge(a[left..Mid(lo, hi)], a[right..hi]) == Sort(orig[lo..hi])
       case Copying(lo, hi, temp, i) => temp == Sort(orig[lo..hi]) && a[lo..lo + i] == temp[..i]
       case Done(lo, hi) => a[lo..hi] == Sort(orig[lo..hi])
       case Dead(_, _) => true
  }

  lemma {:induction false} KillKeeps(c: Config, orig: seq<int>, a: seq<int>, t: Task)
    requires |a| == |orig| && Inv(c, orig, a, t)
    ensures Inv(c, orig, a, Kill(t)) && Died(Kill(t)) && Kill(t).lo == t.lo && Kill(t).hi == t.hi
    decreases t
  {
    if t.Forked? {
      KillKeeps(c, orig, a, t.cont);
    }
  }

  /** A node only depends on its own range. */
  lemma {:induction false} InvFrame(c: Config, orig: seq<int>, a: seq<int>, b: seq<int>, t: Task)
    requires |a| == |b| == |orig| && Inv(c, orig, a, t)
    requires a[t.lo..t.hi] == b[t.lo..t.hi]
    ensures Inv(c, orig, b, t)
    decreases t
  {
    match t
    case Forked(lo, hi, child, cont) =>
      FrameHalves(c, orig, a, b, t);
    case Orphaned(lo, hi, child, cont) =>
      FrameHalves(c, orig, a, b, t);
    case Merging(lo, hi, left, right, temp) =>
      SubRange(a, b, lo, hi, left, Mid(lo, hi));
      SubRange(a, b, lo, hi, right, hi);
    case Copying(lo, hi, temp, i) =>
      SubRange(a, b, lo, hi, lo, lo + i);
    case _ =>
  }

  lemma {:induction false} FrameHalves(c: Config, orig: seq<int>, a: seq<int>, b: seq<int>, t: Task)
    requires t.Forked? || t.Orphaned?
    requires |a| == |b| == |orig| && Inv(c, orig, a, t)
    requires a[t.lo..t.hi] == b[t.lo..t.hi]
    ensures Inv(c, orig, b, t.child) && Inv(c, orig, b, t.cont)
    decreases t, 0
  {
    SubRange(a, b, t.lo, t.hi, t.child.lo, t.child.hi);
    SubRange(a, b, t.lo, t.hi, t.cont.lo, t.cont.hi);
    InvFrame(c, orig, a, b, t.child);
    InvFrame(c, orig, a, b, t.cont);
  }

  lemma SubRange(a: seq<int>, b: seq<int>, lo: nat, hi: nat, from: nat, to: nat)
    requires lo <= from <= to <= hi <= |a| == |b| && a[lo..hi] == b[lo..hi]
    ensures a[from..to] == b[from..to]
  {
    forall k | from <= k < to
      ensures a[k] == b[k]
    {
      assert a[lo..hi][k - lo] == b[lo..hi][k - lo];
    }
  }

  /** A step keeps the invariant and writes only inside its own range. */
  ghost predicate Keeps(c: Config, orig: seq<int>, a: seq<int>, t: Task, b: seq<int>, u: Task)
    requires |a| == |orig|
  {
    && u.lo == t.lo && u.hi == t.hi
    && SameOutside(b, a, t.lo, t.hi)
    && Inv(c, orig, b, u)
  }

  /** When one half of a forked node steps, the other half is untouched. */
  lemma HalfKeeps(c: Config, orig: seq<int>, a: seq<int>, t: Task, b: seq<int>, u: Task)
    requires t.Forked? || t.Orphaned?
    requires |a| == |orig| && Inv(c, orig, a, t)
    requires (u.Forked? && !Died(u.cont)) || (u.Orphaned? && Died(u.cont))
    requires u.lo == t.lo && u.hi == t.hi
    requires
      || (u.cont == t.cont && Keeps(c, orig, a, t.child, b, u.child))
      || (u.child == t.child && Keeps(c, orig, a, t.cont, b, u.cont))
    ensures Keeps(c, orig, a, t, b, u)
  {
    if u.cont == t.cont && Keeps(c, orig, a, t.child, b, u.child) {
      SliceOutside(b, a, t.child.lo, t.child.hi, t.cont.lo, t.cont.hi);
      InvFrame(c, orig, a, b, t.cont);
    } else {
      SliceOutside(b, a, t.cont.lo, t.cont.hi, t.child.lo, t.child.hi);
      InvFrame(c, orig, a, b, t.child);
    }
  }

  lemma LeafKeeps(c: Config, orig: seq<int>, a: seq<int>, t: Task, forks: nat, b: seq<int>, u: Task)
    requires !t.Forked? && !t.Orphaned?
    requires |a| == |orig| && Inv(c, orig, a, t)
    requires Step(c, a, t, forks, b, u)
    ensures Keeps(c, orig, a, t, b, u)
  {
    match t
    case Start(_, _) => StartKeeps(c, orig, a, t, forks, b, u);
    case Sorting(_, _, _, _) => SortingKeeps(c, orig, a, t, forks, b, u);
    case Merging(_, _, _, _, _) => MergingKeeps(c, orig, a, t, forks, b, u);
    case Copying(_, _, _, _) => CopyingKeeps(c, orig, a, t, forks, b, u);
    case _ =>
  }

  lemma SortingKeeps(c: Config, orig: seq<int>, a: seq<int>, t: Task, forks: nat, b: seq<int>, u: Task)
    requires t.Sorting? && |a| == |orig| && Inv(c, orig, a, t)
    requires Step(c, a, t, forks, b, u)
    ensures Keeps(c, orig, a, t, b, u)
  {
    if u.Done? {
      SortOfUnique(b[t.lo..t.lo + |t.was|], t.was);
    }
  }

  lemma CopyingKeeps(c: Config, orig: seq<int>, a: seq<int>, t: Task, forks: nat, b: seq<int>, u: Task)
    requires t.Copying? && |a| == |orig| && Inv(c, orig, a, t)
    requires Step(c, a, t, forks, b, u)
    ensures Keeps(c, orig, a, t, b, u)
  {
    if t.i < |t.temp| {
      assert b[t.lo..t.lo + t.i + 1] == a[t.lo..t.lo + t.i] + [t.temp[t.i]];
    }
  }

  lemma {:induction false} StepKeeps(c: Config, orig: seq<int>, a: seq<int>, t: Task, forks: nat, b: seq<int>, u: Task)
    requires |a| == |orig| && Inv(c, orig, a, t)
    requires Step(c, a, t, forks, b, u)
    ensures Keeps(c, orig, a, t, b, u)
    decreases t, 0
  {
    if !t.Forked? && !t.Orphaned? {
      LeafKeeps(c, orig, a, t, forks, b, u);
    } else {
      HalvesStep(c, a, t, forks, b, u);
      if ChildSteps(c, a, t, forks, b, u) {
        ProcessStepKeeps(c, orig, a, t.child, forks, b, u.child);
        HalfKeeps(c, orig, a, t, b, u);
      } else if ContSteps(c, a, t, forks, b, u) {
        StepKeeps(c, orig, a, t.cont, forks, b, u.cont);
        HalfKeeps(c, orig, a, t, b, u);
      } else if u == Kill(t) {
        KillKeeps(c, orig, a, t);
      } else {
        WaitKeeps(c, orig, a, t, u);
      }
    }
  }

  lemma {:induction false} ProcessStepKeeps(c: Config, orig: seq<int>, a: seq<int>, t: Task, forks: nat, b: seq<int>, u: Task)
    requires |a| == |orig| && Inv(c, orig, a, t)
    requires ProcessStep(c, a, t, forks, b, u)
    ensures Keeps(c, orig, a, t, b, u)
    decreases t, 1
  {
    if Step(c, a, t, forks, b, u) {
      StepKeeps(c, orig, a, t, forks, b, u);
    } else {
      KillKeeps(c, orig, a, t);
    }
  }

  lemma Untruncated(lo: nat, hi: nat, threshold: nat)
    requires lo <= hi && FitsWidths(hi - lo, threshold)
    ensures NumElements(lo, hi) == hi - lo
  {
  }

  lemma StartKeeps(c: Config, orig: seq<int>, a: seq<int>, t: Task, forks: nat, b: seq<int>, u: Task)
    requires t.Start? && |a| == |orig| && Inv(c, orig, a, t)
    requires Step(c, a, t, forks, b, u)
    ensures Keeps(c, orig, a, t, b, u)
  {
    var lo, hi, mid := t.lo, t.hi, Mid(t.lo, t.hi);
    Untruncated(lo, hi, c.threshold);
    if u.Forked? {
      SubRange(a, orig, lo, hi, lo, mid);
      SubRange(a, orig, lo, hi, mid, hi);
    }
  }

  /** The parent merges only when both halves hold their sorted elements. */
  lemma WaitKeeps(c: Config, orig: seq<int>, a: seq<int>, t: Task, u: Task)
    requires t.Forked? && t.child.Done? && t.cont.Done? && |a| == |orig| && Inv(c, orig, a, t)
    requires u == Merging(t.lo, t.hi, t.lo, t.child.hi, [])
    ensures Keeps(c, orig, a, t, a, u)
  {
    var lo, hi, mid := t.lo, t.hi, Mid(t.lo, t.hi);
    MergeOfSorts(orig[lo..mid], orig[mid..hi]);
    assert orig[lo..mid] + orig[mid..hi] == orig[lo..hi];
    assert [] + Merge(a[lo..mid], a[mid..hi]) == Merge(a[lo..mid], a[mid..hi]);
  }

  lemma MergingKeeps(c: Config, orig: seq<int>, a: seq<int>, t: Task, forks: nat, b: seq<int>, u: Task)
    requires t.Merging? && |a| == |orig| && Inv(c, orig, a, t)
    requires Step(c, a, t, forks, b, u)
    ensures Keeps(c, orig, a, t, b, u)
  {
    if u.Copying? {
      MergeEnds(c, orig, a, t);
    } else if u.left > t.left {
      TakeLeftKeeps(c, orig, a, t);
    } else {
      TakeRightKeeps(c, orig, a, t);
    }
  }

  lemma MergeEnds(c: Config, orig: seq<int>, a: seq<int>, t: Task)
    requires t.Merging? && |a| == |orig| && Inv(c, orig, a, t)
    requires t.left == Mid(t.lo, t.hi) && t.right == t.hi
    ensures Inv(c, orig, a, Copying(t.lo, t.hi, t.temp, 0))
  {
    SortSorts(orig[t.lo..t.hi]);
    assert t.temp + [] == t.temp;
  }

  lemma TakeLeftKeeps(c: Config, orig: seq<int>, a: seq<int>, t: Task)
    requires t.Merging? && |a| == |orig| && Inv(c, orig, a, t)
    requires t.left < Mid(t.lo, t.hi) && (t.right == t.hi || a[t.left] <= a[t.right])
    ensures Inv(c, orig, a, t.(temp := t.temp + [a[t.left]], left := t.left + 1))
  {
    var Merging(lo, hi, left, right, temp) := t;
    TakeLeft(a, left, Mid(lo, hi), right, hi, temp);
    MergingInv(c, orig, a, Merging(lo, hi, left + 1, right, temp + [a[left]]));
  }

  lemma TakeRightKeeps(c: Config, orig: seq<int>, a: seq<int>, t: Task)
    requires t.Merging? && |a| == |orig| && Inv(c, orig, a, t)
    requires t.right < t.hi && (t.left == Mid(t.lo, t.hi) || a[t.left] > a[t.right])
    ensures Inv(c, orig, a, t.(temp := t.temp + [a[t.right]], right := t.right + 1))
  {
    var Merging(lo, hi, left, right, temp) := t;
    TakeRight(a, left, Mid(lo, hi), right, hi, temp);
    MergingInv(c, orig, a, Merging(lo, hi, left, right + 1, temp + [a[right]]));
  }

  /** The invariant of a node that merges. */
  lemma MergingInv(c: Config, orig: seq<int>, a: seq<int>, u: Task)
    requires u.Merging? && |a| == |orig| && Shaped(u, |a|)
    requires u.temp + Merge(a[u.left..Mid(u.lo, u.hi)], a[u.right..u.hi]) == Sort(orig[u.lo..u.hi])
    ensures Inv(c, orig, a, u)
  {
  }

  // ----- who owns what

  datatype Range = Range(lo: nat, hi: nat)

  /** The ranges of the activations that are running, from left to right. */
  function Running(t: Task): seq<Range> {
    match t
    case Forked(_, _, child, cont) => Running(child) + Running(cont)
    case Orphaned(_, _, child, cont) => Running(child) + Running(cont)
    case Done(_, _) => []
    case Dead(_, _) => []
    case _ => [Range(t.lo, t.hi)]
  }

  /** Activations that run at the same time own disjoint ranges. */
  lemma {:induction false} RunningDisjoint(t: Task, size: nat)
    requires Shaped(t, size)
    ensures forall i :: 0 <= i < |Running(t)| ==> t.lo <= Running(t)[i].lo <= Running(t)[i].hi <= t.hi
    ensures forall i, j :: 0 <= i < j < |Running(t)| ==> Running(t)[i].hi <= Running(t)[j].lo
  {
    if t.Forked? || t.Orphaned? {
      RunningDisjoint(t.child, size);
      RunningDisjoint(t.cont, size);
    }
  }

  /** A step writes at most inside the range of one running activation. */
  ghost predicate WritesOwned(a: seq<int>, b: seq<int>, running: seq<Range>) {
    b == a || exists i :: 0 <= i < |running| && SameOutside(b, a, running[i].lo, running[i].hi)
  }

  lemma WritesOwnedPart(a: seq<int>, b: seq<int>, r: seq<Range>, s: seq<Range>)
    requires WritesOwned(a, b, r) || WritesOwned(a, b, s)
    ensures WritesOwned(a, b, r + s)
  {
    if b != a {
      if WritesOwned(a, b, r) {
        var i :| 0 <= i < |r| && SameOutside(b, a, r[i].lo, r[i].hi);
        assert (r + s)[i] == r[i];
      } else {
        var i :| 0 <= i < |s| && SameOutside(b, a, s[i].lo, s[i].hi);
        assert (r + s)[|r| + i] == s[i];
      }
    }
  }

  lemma {:induction false} StepWritesOwned(c: Config, a: seq<int>, t: Task, forks: nat, b: seq<int>, u: Task)
    requires Shaped(t, |a|) && ProcessStep(c, a, t, forks, b, u)
    ensures WritesOwned(a, b, Running(t))
  {
    if t.Forked? || t.Orphaned? {
      HalvesStep(c, a, t, forks, b, u);
      if ChildSteps(c, a, t, forks, b, u) {
        StepWritesOwned(c, a, t.child, forks, b, u.child);
        WritesOwnedPart(a, b, Running(t.child), Running(t.cont));
      } else if ContSteps(c, a, t, forks, b, u) {
        StepWritesOwned(c, a, t.cont, forks, b, u.cont);
        WritesOwnedPart(a, b, Running(t.child), Running(t.cont));
      }
    } else if !t.Done? && !t.Dead? {
      assert Running(t)[0] == Range(t.lo, t.hi);
      assert b == a || SameOutside(b, a, t.lo, t.hi);
    }
  }
}
