/** The array-level sort of hw4: one process, sorting shared memory in place. */
module MergeSort {
  import opened Sequences
  import opened SortedSeq

  /** `num_elements` is an `unsigned`, `begin` and `end` are `size_t`. */
  const UINT_MODULUS: nat := 0x1_0000_0000
  /** The copy-back index is an `int`. */
  const INT_MAX: nat := 0x7fff_ffff

  function NumElements(begin: nat, end: nat): nat
    requires begin <= end
  {
    (end - begin) % UINT_MODULUS
  }

  /** The inputs on which the widths of `num_elements` and `i` hold the whole range. */
  predicate FitsWidths(n: nat, threshold: nat) {
    n <= INT_MAX || (n < UINT_MODULUS && n <= threshold)
  }

  lemma WidthsAre(begin: nat, end: nat, threshold: nat)
    requires begin <= end
    ensures NumElements(begin, end) < 0x1_0000_0000 && (end - begin < 0x1_0000_0000 ==> NumElements(begin, end) == end - begin)
    ensures FitsWidths(end - begin, threshold) <==>
      end - begin < 0x8000_0000 || (end - begin < 0x1_0000_0000 && end - begin <= threshold)
  {
  }

  function CompareI64(l: int, r: int): (c: int)
    ensures c > 0 <==> l > r
    ensures c < 0 <==> l < r
  {
    if l < r then -1 else if l > r then 1 else 0
  }

  lemma Append(out: seq<int>, x: int, rest: seq<int>)
    ensures out + [x] + rest == out + ([x] + rest)
  {
  }

  lemma TailOf(a: seq<int>, left: nat, mid: nat)
    requires left < mid <= |a|
    ensures a[left..mid][0] == a[left] && a[left..mid][1..] == a[left + 1..mid]
  {
  }

  lemma LeftFirst(a: seq<int>, left: nat, mid: nat, right: nat, end: nat)
    requires left < mid <= right <= end <= |a|
    requires right == end || a[left] <= a[right]
    ensures Merge(a[left..mid], a[right..end]) == [a[left]] + Merge(a[left + 1..mid], a[right..end])
  {
    TailOf(a, left, mid);
  }

  lemma RightFirst(a: seq<int>, left: nat, mid: nat, right: nat, end: nat)
    requires left <= mid <= right < end <= |a|
    requires left == mid || a[left] > a[right]
    ensures Merge(a[left..mid], a[right..end]) == [a[right]] + Merge(a[left..mid], a[right + 1..end])
  {
    TailOf(a, right, end);
  }

  /** Moving the head of the left run to `temp` keeps the outcome of the merge. */
  lemma TakeLeft(a: seq<int>, left: nat, mid: nat, right: nat, end: nat, temp: seq<int>)
    requires left < mid <= right <= end <= |a|
    requires right == end || a[left] <= a[right]
    ensures temp + [a[left]] + Merge(a[left + 1..mid], a[right..end]) == temp + Merge(a[left..mid], a[right..end])
  {
    LeftFirst(a, left, mid, right, end);
    Append(temp, a[left], Merge(a[left + 1..mid], a[right..end]));
  }

  lemma TakeRight(a: seq<int>, left: nat, mid: nat, right: nat, end: nat, temp: seq<int>)
    requires left <= mid <= right < end <= |a|
    requires left == mid || a[left] > a[right]
    ensures temp + [a[right]] + Merge(a[left..mid], a[right + 1..end]) == temp + Merge(a[left..mid], a[right..end])
  {
    RightFirst(a, left, mid, right, end);
    Append(temp, a[right], Merge(a[left..mid], a[right + 1..end]));
  }

  /** What is still to merge, as the pointers see it. */
  ghost function MergeFrom(a: seq<int>, left: nat, mid: nat, right: nat, end: nat): (r: seq<int>)
    requires left <= mid <= right <= end <= |a|
    ensures |r| == mid - left + end - right
    decreases mid - left + end - right
  {
    if left == mid && right == end then []
    else if right == end || (left < mid && a[left] <= a[right]) then [a[left]] + MergeFrom(a, left + 1, mid, right, end)
    else [a[right]] + MergeFrom(a, left, mid, right + 1, end)
  }

  lemma NextRight(a: seq<int>, left: nat, mid: nat, right: nat, end: nat)
    requires left <= mid <= right < end <= |a| && (left == mid || a[left] > a[right])
    ensures MergeFrom(a, left, mid, right, end) == [a[right]] + MergeFrom(a, left, mid, right + 1, end)
  {
  }

  lemma NextLeft(a: seq<int>, left: nat, mid: nat, right: nat, end: nat)
    requires left < mid <= right <= end <= |a| && (right == end || a[left] <= a[right])
    ensures MergeFrom(a, left, mid, right, end) == [a[left]] + MergeFrom(a, left + 1, mid, right, end)
  {
  }

  lemma {:induction false} MergeFromMerges(a: seq<int>, left: nat, mid: nat, right: nat, end: nat)
    requires left <= mid <= right <= end <= |a|
    ensures MergeFrom(a, left, mid, right, end) == Merge(a[left..mid], a[right..end])
    decreases mid - left + end - right
  {
    if left == mid && right == end {
      assert a[left..mid] == [] == a[right..end];
    } else if right == end || (left < mid && a[left] <= a[right]) {
      MergeFromMerges(a, left + 1, mid, right, end);
      LeftFirst(a, left, mid, right, end);
      NextLeft(a, left, mid, right, end);
    } else {
      MergeFromMerges(a, left, mid, right + 1, end);
      RightFirst(a, left, mid, right, end);
      NextRight(a, left, mid, right, end);
    }
  }

  lemma MergeDone(a: seq<int>, begin: nat, mid: nat, end: nat, out: seq<int>)
    requires begin <= mid <= end <= |a|
    requires out + MergeFrom(a, mid, mid, end, end) == MergeFrom(a, begin, mid, mid, end)
    ensures out == Merge(a[begin..mid], a[mid..end])
  {
    MergeFromMerges(a, begin, mid, mid, end);
    assert out + [] == out;
  }

  /** *dst++ = x, which takes it off what is still to come. */
  method Put(temparr: array<int>, dst: nat, x: int, ghost rest: seq<int>)
    requires dst < temparr.Length
    modifies temparr
    ensures temparr[..dst + 1] + rest == old(temparr[..dst]) + ([x] + rest)
  {
    temparr[dst] := x;
    Append(old(temparr[..dst]), x, rest);
  }

  /** Merges arr[begin..mid] and arr[mid..end] into temparr. */
  method MergeInto(arr: array<int>, begin: nat, mid: nat, end: nat, temparr: array<int>)
    requires begin <= mid <= end <= arr.Length
    requires end - begin == temparr.Length && arr != temparr
    modifies temparr
    ensures temparr[..] == Merge(arr[begin..mid], arr[mid..end])
  {
    ghost var a := arr[..];
    ghost var merged := MergeFrom(a, begin, mid, mid, end);
    var left, right, dst := begin, mid, 0;
    assert temparr[..0] == [];
    while true
      invariant begin <= left <= mid <= right <= end && dst == (left - begin) + (right - mid)
      invariant temparr[..dst] + MergeFrom(a, left, mid, right, end) == merged
      decreases (mid - left) + (end - right)
    {
      var atEndL := left >= mid;
      var atEndR := right >= end;
      if atEndL && atEndR {
        break;
      } else if atEndL || (!atEndR && CompareI64(arr[left], arr[right]) > 0) {
        NextRight(a, left, mid, right, end);
        Put(temparr, dst, arr[right], MergeFrom(a, left, mid, right + 1, end));
        right := right + 1;
      } else {
        NextLeft(a, left, mid, right, end);
        Put(temparr, dst, arr[left], MergeFrom(a, left + 1, mid, right, end));
        left := left + 1;
      }
      dst := dst + 1;
    }
    MergeDone(a, begin, mid, end, temparr[..dst]);
    assert arr[..] == a && temparr[..] == temparr[..dst];
  }

  /** Copies `run` back over arr[begin..begin + |run|], one element at a time. */
  method CopyBack(arr: array<int>, begin: nat, run: seq<int>)
    requires begin + |run| <= arr.Length
    modifies arr
    ensures arr[begin..begin + |run|] == run
    ensures SameOutside(arr[..], old(arr[..]), begin, begin + |run|)
  {
    for i := 0 to |run|
      invariant forall k :: 0 <= k < i ==> arr[begin + k] == run[k]
      invariant SameOutside(arr[..], old(arr[..]), begin, begin + i)
    {
      arr[i + begin] := run[i];
    }
  }

  /** Stands for the library sort of `count` elements from `begin` on. */
  method LeafSort(arr: array<int>, begin: nat, count: nat)
    requires begin + count <= arr.Length
    modifies arr
    ensures arr[begin..begin + count] == Sort(old(arr[begin..begin + count]))
    ensures SameOutside(arr[..], old(arr[..]), begin, begin + count)
  {
    var sorted := Sort(arr[begin..begin + count]);
    SortSorts(arr[begin..begin + count]);
    CopyBack(arr, begin, sorted);
  }

  lemma SliceOutside(a: seq<int>, b: seq<int>, lo: nat, hi: nat, from: nat, to: nat)
    requires SameOutside(a, b, lo, hi) && from <= to <= |a|
    requires to <= lo || hi <= from
    ensures a[from..to] == b[from..to]
  {
  }

  /** After the left and then the right half of `was` have been sorted in place. */
  lemma HalvesSorted(was: seq<int>, half: seq<int>, both: seq<int>, begin: nat, mid: nat, end: nat)
    requires begin <= mid <= end <= |was|
    requires SameOutside(half, was, begin, mid) && half[begin..mid] == Sort(was[begin..mid])
    requires SameOutside(both, half, mid, end) && both[mid..end] == Sort(half[mid..end])
    ensures Merge(both[begin..mid], both[mid..end]) == Sort(was[begin..end])
    ensures SameOutside(both, was, begin, end)
  {
    SliceOutside(half, was, begin, mid, mid, end);
    SliceOutside(both, half, mid, end, begin, mid);
    MergeOfSorts(was[begin..mid], was[mid..end]);
    assert was[begin..mid] + was[mid..end] == was[begin..end];
  }

  /**
   * One process's view of merge_sort when every fork succeeds and every child exits with
   * status 0: the child's half is sorted by the time waitpid returns.
   */
  method MergeSort(arr: array<int>, begin: nat, end: nat, threshold: nat)
    requires begin <= end <= arr.Length
    requires FitsWidths(end - begin, threshold)
    modifies arr
    ensures arr[begin..end] == Sort(old(arr[begin..end]))
    ensures SameOutside(arr[..], old(arr[..]), begin, end)
    decreases end - begin
  {
    ghost var was := arr[..];
    var numElements := NumElements(begin, end);
    assert numElements == end - begin;
    if numElements <= threshold {
      LeafSort(arr, begin, numElements);
      return;
    }
    if numElements < 2 {
      return;
    }
    var mid := begin + (end - begin) / 2;
    MergeSort(arr, begin, mid, threshold);
    ghost var half := arr[..];
    assert half[begin..mid] == Sort(was[begin..mid]);
    MergeSort(arr, mid, end, threshold);
    HalvesSorted(was, half, arr[..], begin, mid, end);
    var temparr := new int[numElements];
    MergeInto(arr, begin, mid, end, temparr);
    assert arr[begin..mid] == arr[..][begin..mid] && arr[mid..end] == arr[..][mid..end];
    CopyBack(arr, begin, temparr[..]);
  }
}
