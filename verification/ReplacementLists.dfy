/** LRU and FIFO replacement as plain lists of tags, without timestamps or ranks. */
module ReplacementLists {

  /** `l` without its first `t`. */
  function Remove(l: seq<nat>, t: nat): (r: seq<nat>)
    ensures |r| == if t in l then |l| - 1 else |l|
    ensures forall x :: x in r ==> x in l
    ensures forall x :: x in l && x != t ==> x in r
  {
    if l == [] then []
    else if l[0] == t then l[1..]
    else [l[0]] + Remove(l[1..], t)
  }

  /** Most recently used first; a list that has `n` tags loses its last one. */
  function LruStep(l: seq<nat>, n: nat, t: nat, allocate: bool): seq<nat> {
    if t in l then [t] + Remove(l, t)
    else if !allocate then l
    else if |l| < n || l == [] then [t] + l
    else [t] + l[..|l| - 1]
  }

  /** Oldest first; a hit changes nothing. */
  function FifoStep(q: seq<nat>, n: nat, t: nat, allocate: bool): seq<nat> {
    if t in q || !allocate then q
    else if |q| < n || q == [] then q + [t]
    else q[1..] + [t]
  }

  lemma {:induction false} RemoveAt(l: seq<nat>, k: nat)
    requires k < |l| && l[k] !in l[..k]
    ensures Remove(l, l[k]) == l[..k] + l[k + 1..]
  {
    if k > 0 {
      assert l[0] in l[..k];
      assert l[1..][..k - 1] == l[..k][1..];
      RemoveAt(l[1..], k - 1);
    }
  }

  // ----- inclusion

  ghost predicate Subsequence(a: seq<nat>, b: seq<nat>) {
    if a == [] then true
    else if b == [] then false
    else if a[0] == b[0] then Subsequence(a[1..], b[1..])
    else Subsequence(a, b[1..])
  }

  lemma {:induction false} SubsequenceMember(a: seq<nat>, b: seq<nat>, x: nat)
    requires Subsequence(a, b) && x in a
    ensures x in b
  {
    if a[0] == b[0] {
      if x != a[0] {
        SubsequenceMember(a[1..], b[1..], x);
      }
    } else {
      SubsequenceMember(a, b[1..], x);
    }
  }

  lemma {:induction false} SubsequenceTail(a: seq<nat>, b: seq<nat>)
    requires a != [] && Subsequence(a, b)
    ensures Subsequence(a[1..], b)
  {
    if a[0] == b[0] {
      Weaken(a[1..], b);
    } else {
      SubsequenceTail(a, b[1..]);
      Weaken(a[1..], b);
    }
  }

  lemma {:induction false} Weaken(a: seq<nat>, b: seq<nat>)
    requires b != [] && Subsequence(a, b[1..])
    ensures Subsequence(a, b)
  {
    if a != [] && a[0] == b[0] {
      SubsequenceTail(a, b[1..]);
    }
  }

  lemma {:induction false} SubsequenceRemove(a: seq<nat>, b: seq<nat>, t: nat)
    requires Subsequence(a, b)
    ensures Subsequence(Remove(a, t), Remove(b, t))
  {
    if a != [] {
      if a[0] == b[0] {
        if a[0] != t {
          SubsequenceRemove(a[1..], b[1..], t);
        }
      } else if b[0] == t {
        SubsequenceDropOne(a, b[1..], t);
      } else {
        SubsequenceRemove(a, b[1..], t);
        Weaken(Remove(a, t), Remove(b, t));
      }
    }
  }

  lemma {:induction false} SubsequenceDropOne(a: seq<nat>, b: seq<nat>, t: nat)
    requires Subsequence(a, b)
    ensures Subsequence(Remove(a, t), b)
  {
    if a != [] {
      if a[0] == b[0] {
        if a[0] == t {
          SubsequenceTail(a, b);
        } else {
          SubsequenceDropOne(a[1..], b[1..], t);
        }
      } else {
        SubsequenceDropOne(a, b[1..], t);
        Weaken(Remove(a, t), b);
      }
    }
  }

  lemma {:induction false} SubsequenceDropLast(a: seq<nat>, b: seq<nat>)
    requires Subsequence(a, b) && a != []
    ensures b != [] && Subsequence(a[..|a| - 1], b[..|b| - 1])
  {
    if a[0] == b[0] {
      if |a| > 1 {
        SubsequenceDropLast(a[1..], b[1..]);
        assert a[..|a| - 1][1..] == a[1..][..|a| - 2];
        assert b[..|b| - 1][1..] == b[1..][..|b| - 2];
      }
    } else {
      SubsequenceDropLast(a, b[1..]);
      assert b[..|b| - 1][1..] == b[1..][..|b| - 2];
    }
  }

  lemma {:induction false} SubsequenceSelf(a: seq<nat>)
    ensures Subsequence(a, a)
  {
    if a != [] {
      SubsequenceSelf(a[1..]);
    }
  }

  lemma {:induction false} SubsequenceShorter(a: seq<nat>, b: seq<nat>)
    requires Subsequence(a, b)
    ensures |a| <= |b|
  {
    if a != [] {
      if a[0] == b[0] {
        SubsequenceShorter(a[1..], b[1..]);
      } else {
        SubsequenceShorter(a, b[1..]);
      }
    }
  }

  /** The recency lists of an n-way and an m-way set, n <= m, fed the same accesses. */
  ghost predicate Included(a: seq<nat>, n: nat, b: seq<nat>, m: nat) {
    && 1 <= n <= m && |a| <= n && |b| <= m
    && Subsequence(a, b)
    && (a == b || |a| == n)
  }

  lemma LruInclusionStep(a: seq<nat>, n: nat, b: seq<nat>, m: nat, t: nat, allocate: bool)
    requires Included(a, n, b, m)
    ensures Included(LruStep(a, n, t, allocate), n, LruStep(b, m, t, allocate), m)
    ensures t in a ==> t in b
  {
    SubsequenceShorter(a, b);
    if t in a {
      SubsequenceMember(a, b, t);
      SubsequenceRemove(a, b, t);
    } else if t in b {
      if allocate {
        SubsequenceDropOneFrom(a, b, t);
        SubsequencePrefix(a, Remove(b, t));
      } else {
        LruInclusionSkip(a, b, t);
      }
    } else if allocate && |a| == n {
      SubsequenceDropLast(a, b);
      SubsequencePrefix(a, b);
    }
  }

  lemma LruInclusionSkip(a: seq<nat>, b: seq<nat>, t: nat)
    requires Subsequence(a, b) && t !in a
    ensures Subsequence(a, [t] + Remove(b, t))
  {
    SubsequenceDropOneFrom(a, b, t);
    Weaken(a, [t] + Remove(b, t));
  }

  lemma {:induction false} SubsequenceDropOneFrom(a: seq<nat>, b: seq<nat>, t: nat)
    requires Subsequence(a, b) && t !in a
    ensures Subsequence(a, Remove(b, t))
  {
    SubsequenceRemove(a, b, t);
    RemoveAbsent(a, t);
  }

  lemma {:induction false} RemoveAbsent(a: seq<nat>, t: nat)
    requires t !in a
    ensures Remove(a, t) == a
  {
    if a != [] {
      RemoveAbsent(a[1..], t);
    }
  }

  lemma {:induction false} SubsequencePrefix(a: seq<nat>, b: seq<nat>)
    requires Subsequence(a, b) && a != []
    ensures Subsequence(a[..|a| - 1], b)
  {
    SubsequenceDropLast(a, b);
    SubsequenceExtend(a[..|a| - 1], b[..|b| - 1], b);
  }

  lemma {:induction false} SubsequenceExtend(a: seq<nat>, b: seq<nat>, c: seq<nat>)
    requires Subsequence(a, b) && b <= c
    ensures Subsequence(a, c)
  {
    if a != [] {
      if a[0] == b[0] {
        SubsequenceExtend(a[1..], b[1..], c[1..]);
      } else {
        SubsequenceExtend(a, b[1..], c[1..]);
      }
    }
  }
}
