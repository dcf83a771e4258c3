/** The timestamps and ranks in a set keep its tags in the order of the replacement lists. */
module CacheOrder {
  import opened CacheSet
  import opened ReplacementLists

  /** Exactly the first `m` slots are valid, and no tag occurs twice. */
  ghost predicate Packed(s: seq<Slot>, m: nat) {
    && m <= |s|
    && (forall i :: 0 <= i < |s| ==> (s[i].valid <==> i < m))
    && (forall i, j :: 0 <= i < j < m ==> s[i].tag != s[j].tag)
  }

  function Key(lru: bool, slot: Slot): nat {
    if lru then slot.accessTs else slot.loadTs
  }

  /** `ord` lists the valid slots of `s` by decreasing access_ts (LRU) or load_ts (FIFO). */
  ghost predicate Orders(s: seq<Slot>, lru: bool, m: nat, ord: seq<nat>) {
    && |ord| == m
    && (forall i :: 0 <= i < m ==> ord[i] < m)
    && (forall k :: 0 <= k < m ==> k in ord)
    && m <= |s|
    && (forall i, j :: 0 <= i < j < m ==> Key(lru, s[ord[i]]) > Key(lru, s[ord[j]]))
  }

  function Tags(s: seq<Slot>, ord: seq<nat>): (l: seq<nat>)
    requires forall i :: 0 <= i < |ord| ==> ord[i] < |s|
  {
    seq(|ord|, i requires 0 <= i < |ord| => s[ord[i]].tag)
  }

  lemma Position(s: seq<Slot>, lru: bool, m: nat, ord: seq<nat>, k: nat) returns (p: nat)
    requires Orders(s, lru, m, ord) && k < m
    ensures p < m && ord[p] == k
  {
    assert k in ord;
    p :| 0 <= p < |ord| && ord[p] == k;
  }

  lemma FindInTags(s: seq<Slot>, lru: bool, m: nat, ord: seq<nat>, tag: nat) returns (p: nat)
    requires Packed(s, m) && Orders(s, lru, m, ord)
    ensures tag in Tags(s, ord) <==> Find(s, tag) < |s|
    ensures Find(s, tag) < |s| ==> p < m && ord[p] == Find(s, tag) && Tags(s, ord)[p] == tag
  {
    var k := Find(s, tag);
    p := 0;
    if k < |s| {
      p := Position(s, lru, m, ord, k);
      assert Tags(s, ord)[p] == tag;
    }
    forall q | 0 <= q < |ord|
      ensures Tags(s, ord)[q] == tag <==> Holds(s[ord[q]], tag)
    {
    }
  }

  lemma FullIffAllValid(s: seq<Slot>, m: nat)
    requires Packed(s, m)
    ensures IsFull(s) <==> m == |s|
    ensures IsEmpty(s) <==> m == 0
    ensures FirstFree(s) == m
  {
    if m < |s| {
      assert !s[m].valid;
    }
    if m > 0 {
      assert s[0].valid;
    }
  }

  // ----- LRU

  /** All uses of the set lie before `now`, and an `int` can hold them. */
  ghost predicate Recent(s: seq<Slot>, now: nat) {
    now <= I31 && forall i :: 0 <= i < |s| && s[i].valid ==> s[i].accessTs < now
  }

  ghost predicate Least(s: seq<Slot>, v: nat) {
    v < |s| && forall j :: 0 <= j < |s| ==> s[v].accessTs <= s[j].accessTs
  }

  /** The scan ends at the last least slot from `i` on, if one is at most `min`. */
  lemma {:induction false} LruScanLeast(s: seq<Slot>, i: nat, min: nat, index: nat)
    requires index < i <= |s| && min < U32
    ensures var v := LruScan(s, i, min, index);
      if exists j :: i <= j < |s| && s[j].accessTs <= min then
        && i <= v && s[v].accessTs <= min
        && (forall j :: i <= j < |s| ==> s[v].accessTs <= s[j].accessTs)
        && (forall j :: v < j < |s| ==> s[v].accessTs < s[j].accessTs)
      else v == index
    decreases |s| - i
  {
    if i < |s| {
      if min >= s[i].accessTs {
        LruScanLeast(s, i + 1, s[i].accessTs, i);
      } else {
        LruScanLeast(s, i + 1, min, index);
      }
    }
  }

  /** While the timestamp of slot 0 fits 32 bits, the victim is the last slot with the least timestamp. */
  lemma LruVictimLeast(s: seq<Slot>)
    requires s != [] && s[0].accessTs < U32
    ensures Least(s, LruVictim(s))
    ensures forall j :: LruVictim(s) < j < |s| ==> s[LruVictim(s)].accessTs < s[j].accessTs
  {
    LruScanLeast(s, 1, s[0].accessTs, 0);
  }

  /** Slot ord[p] becomes the most recent. */
  function ToFront(ord: seq<nat>, p: nat): seq<nat>
    requires p < |ord|
  {
    [ord[p]] + ord[..p] + ord[p + 1..]
  }

  lemma ToFrontOrders(s: seq<Slot>, s': seq<Slot>, m: nat, ord: seq<nat>, p: nat)
    requires Packed(s, m) && Orders(s, true, m, ord) && p < m && |s'| == |s|
    requires forall i :: 0 <= i < |s| && i != ord[p] ==> s'[i] == s[i]
    requires forall i :: 0 <= i < m ==> s[i].accessTs < s'[ord[p]].accessTs
    ensures Orders(s', true, m, ToFront(ord, p))
  {
    var o := ToFront(ord, p);
    forall k | 0 <= k < m
      ensures k in o
    {
      ToFrontHolds(s, m, ord, p, k);
    }
    forall i, j | 0 <= i < j < m
      ensures Key(true, s'[o[i]]) > Key(true, s'[o[j]])
    {
      ToFrontBehind(s, m, ord, p, j);
      if i > 0 {
        ToFrontBehind(s, m, ord, p, i);
      }
    }
  }

  /** Where the slot behind the front stood before. */
  lemma ToFrontBehind(s: seq<Slot>, m: nat, ord: seq<nat>, p: nat, j: nat)
    requires Orders(s, true, m, ord) && p < m && 0 < j < m
    ensures var b := if j <= p then j - 1 else j; ToFront(ord, p)[j] == ord[b] && ord[b] != ord[p]
  {
    var b := if j <= p then j - 1 else j;
    assert Key(true, s[ord[b]]) != Key(true, s[ord[p]]);
  }

  lemma ToFrontHolds(s: seq<Slot>, m: nat, ord: seq<nat>, p: nat, k: nat)
    requires Packed(s, m) && Orders(s, true, m, ord) && p < m && k < m
    ensures k in ToFront(ord, p)
  {
    var o := ToFront(ord, p);
    var q := Position(s, true, m, ord, k);
    if q < p {
      assert o[q + 1] == k;
    } else if q > p {
      assert o[q] == k;
    } else {
      assert o[0] == k;
    }
  }

  /** The tags after slot ord[p] moved to the front under the tag it then holds. */
  lemma ToFrontTags(s: seq<Slot>, s': seq<Slot>, m: nat, ord: seq<nat>, p: nat)
    requires Packed(s, m) && Orders(s, true, m, ord) && p < m && |s'| == |s|
    requires forall i :: 0 <= i < |s| && i != ord[p] ==> s'[i] == s[i]
    requires Orders(s', true, m, ToFront(ord, p))
    ensures var l := Tags(s, ord); Tags(s', ToFront(ord, p)) == [s'[ord[p]].tag] + (l[..p] + l[p + 1..])
  {
    var l, o := Tags(s, ord), ToFront(ord, p);
    forall i | 0 < i < m
      ensures Tags(s', o)[i] == (l[..p] + l[p + 1..])[i - 1]
    {
      if i <= p {
        assert o[i] == ord[i - 1] && ord[i - 1] != ord[p];
      } else {
        assert o[i] == ord[i] && ord[i] != ord[p];
      }
    }
  }

  lemma LruHit(s: seq<Slot>, m: nat, ord: seq<nat>, tag: nat, now: nat, s': seq<Slot>) returns (o: seq<nat>)
    requires Packed(s, m) && Orders(s, true, m, ord) && Recent(s, now)
    requires var k := Find(s, tag); k < |s| && exists d :: s' == s[k := s[k].(accessTs := now, dirty := d)]
    ensures Orders(s', true, m, o) && Tags(s', o) == LruStep(Tags(s, ord), |s|, tag, true)
    ensures tag in Tags(s, ord)
  {
    var k, l := Find(s, tag), Tags(s, ord);
    var p := FindInTags(s, true, m, ord, tag);
    o := ToFront(ord, p);
    ToFrontOrders(s, s', m, ord, p);
    ToFrontTags(s, s', m, ord, p);
    forall i | 0 <= i < p
      ensures l[i] != tag
    {
      assert s[ord[i]].tag != s[ord[p]].tag;
    }
    RemoveAt(l, p);
  }

  lemma LruFill(s: seq<Slot>, m: nat, ord: seq<nat>, tag: nat, now: nat, dirty: bool) returns (o: seq<nat>)
    requires Packed(s, m) && Orders(s, true, m, ord) && Recent(s, now)
    requires m < |s| && Find(s, tag) == |s|
    ensures var s' := Fill(s, tag, now, dirty);
      Packed(s', m + 1) && Orders(s', true, m + 1, o) && Tags(s', o) == LruStep(Tags(s, ord), |s|, tag, true)
  {
    var s' := Fill(s, tag, now, dirty);
    FillShape(s, m, tag, now, dirty);
    o := [m] + ord;
    InFrontOrders(s, s', m, ord);
    var _ := FindInTags(s, true, m, ord, tag);
    assert Tags(s', o) == [tag] + Tags(s, ord);
  }

  lemma InFrontOrders(s: seq<Slot>, s': seq<Slot>, m: nat, ord: seq<nat>)
    requires Packed(s, m) && m < |s| == |s'| && Orders(s, true, m, ord)
    requires forall i :: 0 <= i < m ==> s'[i].accessTs == s[i].accessTs < s'[m].accessTs
    ensures Orders(s', true, m + 1, [m] + ord)
  {
    var o := [m] + ord;
    forall k | 0 <= k < m + 1
      ensures k in o
    {
      if k < m {
        var q := Position(s, true, m, ord, k);
        assert o[q + 1] == k;
      } else {
        assert o[0] == k;
      }
    }
  }

  /** A fill writes slot `m` and reranks; the other slots keep everything but load_ts. */
  lemma FillShape(s: seq<Slot>, m: nat, tag: nat, now: nat, dirty: bool)
    requires Packed(s, m) && m < |s| && Find(s, tag) == |s|
    ensures var s' := Fill(s, tag, now, dirty);
      && Packed(s', m + 1)
      && s'[m].tag == tag && s'[m].accessTs == AsInt(now) && s'[m].dirty == dirty
      && (forall i :: 0 <= i < |s| ==> s'[i].loadTs == FillRank(s, m, i))
      && (forall i :: 0 <= i < |s| && i != m ==> s'[i] == s[i].(loadTs := s'[i].loadTs))
  {
    FullIffAllValid(s, m);
    var u := UpdateLoadTs(s);
    FullIffAllValid(u, m);
    var s' := Fill(s, tag, now, dirty);
    assert s' == u[m := Installed(u[m], tag, now, dirty)];
    forall i | 0 <= i < m
      ensures s[i].tag != tag
    {
      assert !Holds(s[i], tag);
    }
  }

  lemma LruEvict(p: Policy, s: seq<Slot>, ord: seq<nat>, tag: nat, now: nat) returns (o: seq<nat>)
    requires p.lru && s != [] && Packed(s, |s|) && Orders(s, true, |s|, ord) && Recent(s, now)
    requires Find(s, tag) == |s|
    ensures var s' := Evict(p, s, tag, now);
      Packed(s', |s|) && Orders(s', true, |s|, o) && Tags(s', o) == LruStep(Tags(s, ord), |s|, tag, true)
    ensures LruVictim(s) == ord[|s| - 1]
  {
    var m, v, l := |s|, LruVictim(s), Tags(s, ord);
    var s' := Evict(p, s, tag, now);
    LruVictimLeast(s);
    var q := Position(s, true, m, ord, v);
    assert q < m - 1 ==> Key(true, s[ord[q]]) > Key(true, s[ord[m - 1]]);
    o := ToFront(ord, q);
    ToFrontOrders(s, s', m, ord, q);
    ToFrontTags(s, s', m, ord, q);
    var _ := FindInTags(s, true, m, ord, tag);
    assert l[..q] + l[q + 1..] == l[..m - 1];
    forall i | 0 <= i < m && i != v
      ensures s[i].tag != tag
    {
      assert !Holds(s[i], tag);
    }
  }

  /** Under LRU an eviction reranks nothing. */
  lemma LruKeepsRanks(p: Policy, s: seq<Slot>, tag: nat, now: nat)
    requires p.lru && s != []
    ensures forall i :: 0 <= i < |s| ==> Evict(p, s, tag, now)[i].loadTs == s[i].loadTs
  {
  }

  /** Whether the access may bring a block in. */
  predicate Allocates(p: Policy, op: Op) {
    op == Load || p.writeAllocate
  }

  lemma LruMiss(p: Policy, s: seq<Slot>, m: nat, ord: seq<nat>, tag: nat, now: nat, dirty: bool, extra: nat)
    returns (m': nat, o: seq<nat>)
    requires p.lru && s != [] && Find(s, tag) == |s|
    requires Packed(s, m) && Orders(s, true, m, ord) && Recent(s, now)
    ensures var s' := Miss(p, s, tag, now, dirty, extra).slots;
      && |s'| == |s| && Packed(s', m') && Orders(s', true, m', o)
      && Tags(s', o) == LruStep(Tags(s, ord), |s|, tag, true)
      && (now < I31 ==> Recent(s', now + 1))
  {
    FullIffAllValid(s, m);
    if m < |s| {
      m' := m + 1;
      o := LruFill(s, m, ord, tag, now, dirty);
      FillShape(s, m, tag, now, dirty);
    } else {
      m' := m;
      o := LruEvict(p, s, ord, tag, now);
    }
  }

  /** One access to an LRU set is one step of the recency list, and hits exactly on its tags. */
  lemma LruRefines(p: Policy, s: seq<Slot>, m: nat, ord: seq<nat>, op: Op, tag: nat, now: nat) returns (m': nat, o: seq<nat>)
    requires p.lru && s != [] && op != Other
    requires Packed(s, m) && Orders(s, true, m, ord) && Recent(s, now)
    ensures var out := Access(p, s, op, tag, now);
      && |out.slots| == |s|
      && Packed(out.slots, m') && Orders(out.slots, true, m', o)
      && Tags(out.slots, o) == LruStep(Tags(s, ord), |s|, tag, Allocates(p, op))
      && (out.hit <==> tag in Tags(s, ord))
      && (now < I31 ==> Recent(out.slots, now + 1))
  {
    m', o := m, ord;
    var _ := FindInTags(s, true, m, ord, tag);
    if Find(s, tag) < |s| {
      o := LruHit(s, m, ord, tag, now, Access(p, s, op, tag, now).slots);
    } else if op == Load {
      m', o := LruMiss(p, s, m, ord, tag, now, false, 0);
    } else if p.writeAllocate {
      m', o := LruMiss(p, s, m, ord, tag, now, !p.writeThrough, if p.writeThrough then 100 else 0);
    }
  }

  // ----- FIFO

  /** The load_ts of slot `i` when slot `c` is the next victim. */
  function Rank(n: nat, c: nat, i: nat): nat
    requires c < n && i < n
  {
    if i < c then c - 1 - i else c + n - 1 - i
  }

  /** Slots fill from the left, so the next victim of a filling set is known. */
  ghost predicate FifoRanked(s: seq<Slot>, m: nat, c: nat) {
    && m <= |s|
    && (0 < m ==> c < |s| && forall i :: 0 <= i < |s| ==> s[i].loadTs == Rank(|s|, c, i))
    && (m < |s| ==> c == if m < 2 then 0 else m)
  }

  ghost predicate HasRank(s: seq<Slot>, r: nat) {
    exists i :: 0 <= i < |s| && s[i].loadTs == r
  }

  /** Once a set holds a block its load_ts values are a permutation of 0..n-1. */
  lemma RanksArePermutation(s: seq<Slot>, m: nat, c: nat)
    requires FifoRanked(s, m, c) && 0 < m
    ensures forall i :: 0 <= i < |s| ==> s[i].loadTs < |s|
    ensures forall i, j :: 0 <= i < j < |s| ==> s[i].loadTs != s[j].loadTs
    ensures forall r :: 0 <= r < |s| ==> HasRank(s, r)
  {
    forall r | 0 <= r < |s|
      ensures HasRank(s, r)
    {
      assert s[Rank(|s|, c, r)].loadTs == r;
    }
  }

  /** The valid slots, oldest first. */
  function FifoOrder(n: nat, m: nat, c: nat): seq<nat> {
    if m < n then seq(m, (i: nat) => i)
    else seq(m, (i: nat) => if c + i < n then c + i else c + i - n)
  }

  lemma FifoOrders(s: seq<Slot>, m: nat, c: nat)
    requires Packed(s, m) && FifoRanked(s, m, c)
    ensures Orders(s, false, m, FifoOrder(|s|, m, c))
  {
    var n, o := |s|, FifoOrder(|s|, m, c);
    forall k | 0 <= k < m
      ensures k in o
    {
      if m < n {
        assert o[k] == k;
      } else {
        assert o[if k < c then k + n - c else k - c] == k;
      }
    }
  }

  /** Only the slot that holds the oldest block has the highest rank. */
  lemma FifoVictimOldest(s: seq<Slot>, c: nat)
    requires s != [] && Packed(s, |s|) && FifoRanked(s, |s|, c)
    ensures FifoVictim(s) == c == FifoOrder(|s|, |s|, c)[0]
  {
    assert s[c].loadTs == |s| - 1;
  }

  /** The next victim once slot `m` of `n` is filled. */
  function NextVictim(n: nat, m: nat): nat {
    if m == 0 || m + 1 == n then 0 else m + 1
  }

  lemma FillRanks(s: seq<Slot>, m: nat, c: nat, i: nat)
    requires Packed(s, m) && FifoRanked(s, m, c) && m < |s| && i < |s|
    ensures FillRank(s, m, i) == Rank(|s|, NextVictim(|s|, m), i)
  {
    FullIffAllValid(s, m);
  }

  /** A fill ranks the new block youngest in all three cases of update_load_ts. */
  lemma FifoFill(s: seq<Slot>, m: nat, c: nat, tag: nat, now: nat, dirty: bool) returns (c': nat)
    requires Packed(s, m) && m < |s| && Find(s, tag) == |s|
    requires FifoRanked(s, m, c)
    ensures var s' := Fill(s, tag, now, dirty);
      && Packed(s', m + 1) && FifoRanked(s', m + 1, c')
      && Tags(s', FifoOrder(|s|, m + 1, c')) == Tags(s, FifoOrder(|s|, m, c)) + [tag]
  {
    var n, s' := |s|, Fill(s, tag, now, dirty);
    FillShape(s, m, tag, now, dirty);
    c' := NextVictim(n, m);
    forall i | 0 <= i < n
      ensures s'[i].loadTs == Rank(n, c', i)
    {
      FillRanks(s, m, c, i);
    }
    FillQueue(s, s', m, c, c', tag);
  }

  lemma FillQueue(s: seq<Slot>, s': seq<Slot>, m: nat, c: nat, c': nat, tag: nat)
    requires m < |s| == |s'| && (m + 1 == |s| ==> c' == 0) && s'[m].tag == tag
    requires forall i :: 0 <= i < m ==> s'[i].tag == s[i].tag
    ensures Tags(s', FifoOrder(|s|, m + 1, c')) == Tags(s, FifoOrder(|s|, m, c)) + [tag]
  {
    var o, o' := FifoOrder(|s|, m, c), FifoOrder(|s|, m + 1, c');
    assert forall i :: 0 <= i < m ==> o'[i] == i == o[i];
  }

  lemma FifoEvict(p: Policy, s: seq<Slot>, c: nat, tag: nat, now: nat) returns (c': nat)
    requires !p.lru && s != [] && Packed(s, |s|) && Find(s, tag) == |s|
    requires FifoRanked(s, |s|, c)
    ensures var s' := Evict(p, s, tag, now);
      && |s'| == |s| && Packed(s', |s|) && FifoRanked(s', |s|, c')
      && Tags(s', FifoOrder(|s|, |s|, c')) == Tags(s, FifoOrder(|s|, |s|, c))[1..] + [tag]
  {
    var n := |s|;
    var s' := Evict(p, s, tag, now);
    FifoVictimOldest(s, c);
    c' := if c + 1 == n then 0 else c + 1;
    var o, o' := FifoOrder(n, n, c), FifoOrder(n, n, c');
    assert o'[n - 1] == c;
    forall i | 0 <= i < n - 1
      ensures Tags(s', o')[i] == Tags(s, o)[1..][i]
    {
      assert o'[i] == o[i + 1] != c;
    }
    forall i | 0 <= i < n
      ensures s[i].tag != tag
    {
      assert !Holds(s[i], tag);
    }
  }

  lemma FifoMiss(p: Policy, s: seq<Slot>, m: nat, c: nat, tag: nat, now: nat, dirty: bool, extra: nat)
    returns (m': nat, c': nat)
    requires !p.lru && s != [] && Find(s, tag) == |s|
    requires Packed(s, m) && FifoRanked(s, m, c)
    ensures var s' := Miss(p, s, tag, now, dirty, extra).slots;
      && |s'| == |s| && Packed(s', m') && FifoRanked(s', m', c')
      && Tags(s', FifoOrder(|s|, m', c')) == FifoStep(Tags(s, FifoOrder(|s|, m, c)), |s|, tag, true)
  {
    FullIffAllValid(s, m);
    FifoOrders(s, m, c);
    var _ := FindInTags(s, false, m, FifoOrder(|s|, m, c), tag);
    if m < |s| {
      m' := m + 1;
      c' := FifoFill(s, m, c, tag, now, dirty);
    } else {
      m' := m;
      c' := FifoEvict(p, s, c, tag, now);
    }
  }

  /** Only uses and dirty bits differ. */
  ghost predicate Touched(s: seq<Slot>, s': seq<Slot>) {
    && |s'| == |s|
    && forall i :: 0 <= i < |s| ==> s'[i] == s[i].(accessTs := s'[i].accessTs, dirty := s'[i].dirty)
  }

  lemma AccessHit(p: Policy, s: seq<Slot>, op: Op, tag: nat, now: nat)
    requires s != [] && Find(s, tag) < |s| && op != Other
    ensures var out := Access(p, s, op, tag, now); out.hit && Touched(s, out.slots)
  {
  }

  /** A hit changes neither the tags nor their ranks. */
  lemma FifoHit(s: seq<Slot>, s': seq<Slot>, m: nat, c: nat)
    requires Packed(s, m) && FifoRanked(s, m, c) && Touched(s, s')
    ensures Packed(s', m) && FifoRanked(s', m, c)
    ensures Tags(s', FifoOrder(|s|, m, c)) == Tags(s, FifoOrder(|s|, m, c))
  {
    var o := FifoOrder(|s|, m, c);
    assert forall i :: 0 <= i < |o| ==> o[i] < |s|;
    assert Tags(s', o) == Tags(s, o);
  }

  lemma AccessMiss(p: Policy, s: seq<Slot>, op: Op, tag: nat, now: nat) returns (dirty: bool, extra: nat)
    requires s != [] && Find(s, tag) == |s| && op != Other
    ensures !Access(p, s, op, tag, now).hit
    ensures Access(p, s, op, tag, now).slots == if Allocates(p, op) then Miss(p, s, tag, now, dirty, extra).slots else s
  {
    dirty, extra := op == Store && !p.writeThrough, if op == Store && p.writeThrough then 100 else 0;
  }

  /** One access to a FIFO set is one step of the bounded queue, and hits exactly on its tags. */
  lemma FifoRefines(p: Policy, s: seq<Slot>, m: nat, c: nat, op: Op, tag: nat, now: nat) returns (m': nat, c': nat)
    requires !p.lru && s != [] && op != Other
    requires Packed(s, m) && FifoRanked(s, m, c)
    ensures var out := Access(p, s, op, tag, now);
      && |out.slots| == |s|
      && Packed(out.slots, m') && FifoRanked(out.slots, m', c')
      && Tags(out.slots, FifoOrder(|s|, m', c')) == FifoStep(Tags(s, FifoOrder(|s|, m, c)), |s|, tag, Allocates(p, op))
      && (out.hit <==> tag in Tags(s, FifoOrder(|s|, m, c)))
  {
    FifoHolds(s, m, c, tag);
    if Find(s, tag) < |s| {
      m', c' := m, c;
      AccessHit(p, s, op, tag, now);
      FifoHit(s, Access(p, s, op, tag, now).slots, m, c);
    } else {
      m', c' := FifoAfterMiss(p, s, m, c, op, tag, now);
    }
  }

  lemma FifoHolds(s: seq<Slot>, m: nat, c: nat, tag: nat)
    requires s != [] && Packed(s, m) && FifoRanked(s, m, c)
    ensures tag in Tags(s, FifoOrder(|s|, m, c)) <==> Find(s, tag) < |s|
  {
    FifoOrders(s, m, c);
    var _ := FindInTags(s, false, m, FifoOrder(|s|, m, c), tag);
  }

  lemma FifoAfterMiss(p: Policy, s: seq<Slot>, m: nat, c: nat, op: Op, tag: nat, now: nat) returns (m': nat, c': nat)
    requires !p.lru && s != [] && op != Other && Find(s, tag) == |s|
    requires Packed(s, m) && FifoRanked(s, m, c) && tag !in Tags(s, FifoOrder(|s|, m, c))
    ensures var out := Access(p, s, op, tag, now);
      && !out.hit && Packed(out.slots, m') && FifoRanked(out.slots, m', c')
      && Tags(out.slots, FifoOrder(|s|, m', c')) == FifoStep(Tags(s, FifoOrder(|s|, m, c)), |s|, tag, Allocates(p, op))
  {
    m', c' := m, c;
    var dirty, extra := AccessMiss(p, s, op, tag, now);
    if Allocates(p, op) {
      m', c' := FifoMiss(p, s, m, c, tag, now, dirty, extra);
    }
  }

  // ----- the order is unique

  /** There is only one way to list the valid slots by decreasing key. */
  lemma {:induction false} OrderUnique(s: seq<Slot>, lru: bool, m: nat, a: seq<nat>, b: seq<nat>, i: nat)
    requires Orders(s, lru, m, a) && Orders(s, lru, m, b) && i < m
    ensures a[i] == b[i]
    decreases i
  {
    forall j | 0 <= j < i
      ensures a[j] == b[j]
    {
      OrderUnique(s, lru, m, a, b, j);
    }
    var p := Position(s, lru, m, b, a[i]);
    var q := Position(s, lru, m, a, b[i]);
    assert p >= i && q >= i;
    assert Key(lru, s[b[i]]) >= Key(lru, s[b[p]]);
    assert Key(lru, s[a[i]]) >= Key(lru, s[a[q]]);
  }
}
