/** Which blocks are dirty: the bit goes with its block, from the store that sets it to the eviction. */
module CacheDirty {
  import opened CacheSet
  import opened CacheAddress
  import opened ReplacementLists
  import opened CacheOrder
  import opened CacheRuns
  import opened CacheTheorems
  import opened CacheCosts
  import opened CacheRecency

  // ----- one access

  /** The access writes to its block in the cache: not through, and not by way of an eviction. */
  predicate Writes(p: Policy, s: seq<Slot>, op: Op, tag: nat) {
    op == Store && !p.writeThrough && (Contains(s, tag) || (p.writeAllocate && !IsFull(s)))
  }

  /** All slots but `k` hold what they held, and slot `k` holds `tag`. */
  ghost predicate OneSlot(s: seq<Slot>, s': seq<Slot>, k: nat, tag: nat, dirty: bool) {
    && k < |s| == |s'| && s'[k].valid && s'[k].tag == tag && s'[k].dirty == dirty
    && forall i :: 0 <= i < |s| && i != k ==>
         s'[i].valid == s[i].valid && s'[i].tag == s[i].tag && s'[i].dirty == s[i].dirty
  }

  lemma UsedSlot(p: Policy, s: seq<Slot>, m: nat, op: Op, tag: nat, now: nat)
    requires s != [] && Packed(s, m) && DirtyOk(p, s)
    ensures var k, s' := Used(p, s, op, tag), Access(p, s, op, tag, now).slots;
      if k == |s| then s' == s && !Writes(p, s, op, tag)
      else OneSlot(s, s', k, tag, Writes(p, s, op, tag) || (Contains(s, tag) && s[k].dirty))
  {
    FullIffAllValid(s, m);
    if op != Other && !Contains(s, tag) && Allocates(p, op) {
      if m < |s| {
        FillShape(s, m, tag, now, op == Store && !p.writeThrough);
      } else {
        EvictShape(p, s, tag, now);
      }
    }
  }

  /** The block is in the set, and dirty. */
  ghost predicate HoldsDirty(s: seq<Slot>, tag: nat) {
    exists j :: 0 <= j < |s| && Holds(s[j], tag) && s[j].dirty
  }

  /** Tags are unique, so a block is dirty exactly when its slot is. */
  lemma HoldsDirtyIff(s: seq<Slot>, m: nat, i: nat)
    requires Packed(s, m) && i < |s| && s[i].valid
    ensures HoldsDirty(s, s[i].tag) <==> s[i].dirty
    ensures Contains(s, s[i].tag) && Find(s, s[i].tag) == i
  {
    var k := Find(s, s[i].tag);
    assert Holds(s[i], s[i].tag);
    assert k == i;
    forall j | 0 <= j < |s| && Holds(s[j], s[i].tag)
      ensures j == i
    {
    }
  }

  lemma HoldsDirtyFound(s: seq<Slot>, m: nat, tag: nat)
    requires Packed(s, m)
    ensures HoldsDirty(s, tag) <==> Contains(s, tag) && s[Find(s, tag)].dirty
  {
    if Contains(s, tag) {
      HoldsDirtyIff(s, m, Find(s, tag));
    }
  }

  /**
   * After any access, at any time, a block of the set is dirty exactly when the access wrote it or
   * it was dirty before: no bit moves to another block, and only leaving the cache clears one.
   */
  lemma DirtyStays(p: Policy, s: seq<Slot>, m: nat, op: Op, tag: nat, now: nat, i: nat)
    requires s != [] && Packed(s, m) && DirtyOk(p, s)
    requires i < |s| && Access(p, s, op, tag, now).slots[i].valid
    ensures var slot := Access(p, s, op, tag, now).slots[i];
      slot.dirty <==> (Writes(p, s, op, tag) && slot.tag == tag) || HoldsDirty(s, slot.tag)
  {
    UsedSlot(p, s, m, op, tag, now);
    HoldsDirtyFound(s, m, tag);
    if i != Used(p, s, op, tag) {
      HoldsDirtyIff(s, m, i);
    }
  }

  // ----- whole traces

  /** The tags of a set after `uses`, in the order of its replacement list. */
  function ListTags(p: Policy, n: nat, uses: seq<Use>): seq<nat> {
    if p.lru then LruTags(p, n, uses) else FifoTags(p, n, uses)
  }

  /**
   * The tags of the dirty blocks after `uses`: a store under write-back adds its tag if it finds
   * its block or a free slot, and a tag goes when it leaves the replacement list.
   */
  function DirtyTags(p: Policy, n: nat, uses: seq<Use>): set<nat>
    decreases |uses|
  {
    if uses == [] then {}
    else
      var front, u := uses[..|uses| - 1], uses[|uses| - 1];
      var before, after := ListTags(p, n, front), ListTags(p, n, uses);
      (set t | t in DirtyTags(p, n, front) && t in after) +
      if u.op == Store && !p.writeThrough && u.tag in after && (u.tag in before || |before| < n) then {u.tag} else {}
  }

  lemma DirtyListed(p: Policy, n: nat, uses: seq<Use>, t: nat)
    ensures t in DirtyTags(p, n, uses) ==> t in ListTags(p, n, uses)
  {
  }

  /** The list holds the tags of the set, and is as long as it has valid slots. */
  lemma Listed(p: Policy, g: Geometry, trace: seq<Line>, i: nat) returns (m: nat)
    requires Sized(g) && i < g.sets && (p.lru ==> |trace| <= I31)
    ensures var s, l := Run(p, g, trace).sets[i], ListTags(p, g.slots, Subtrace(g, trace, i));
      Packed(s, m) && |l| == m && forall t :: t in l <==> Contains(s, t)
  {
    var ord;
    if p.lru {
      m, ord := LruOrder(p, g, trace, i);
    } else {
      m, ord := FifoQueue(p, g, trace, i);
    }
    forall t: nat
      ensures t in ListTags(p, g.slots, Subtrace(g, trace, i)) <==> Contains(Run(p, g, trace).sets[i], t)
    {
      InTags(Run(p, g, trace).sets[i], p.lru, m, ord, t);
    }
  }

  ghost predicate DirtyAre(s: seq<Slot>, tags: set<nat>) {
    forall j :: 0 <= j < |s| ==> (s[j].dirty <==> s[j].valid && s[j].tag in tags)
  }

  /** On every trace the dirty slots of a set are those whose tag is in DirtyTags. */
  lemma {:induction false} DirtyAreTags(p: Policy, g: Geometry, trace: seq<Line>, i: nat)
    requires Sized(g) && i < g.sets && (p.lru ==> |trace| <= I31)
    ensures DirtyAre(Run(p, g, trace).sets[i], DirtyTags(p, g.slots, Subtrace(g, trace, i)))
    ensures DirtyOk(p, Run(p, g, trace).sets[i])
    decreases |trace|
  {
    if trace != [] {
      var front, line := trace[..|trace| - 1], trace[|trace| - 1];
      assert trace == front + [line];
      DirtyAreTags(p, g, front, i);
      SetAfter(p, g, front, line, i);
      SubtraceStep(g, front, line, i);
      if Index(g, line.addr) == i {
        LineDirty(p, g, front, line, i);
      }
    }
  }

  lemma LineDirty(p: Policy, g: Geometry, front: seq<Line>, line: Line, i: nat)
    requires Sized(g) && (p.lru ==> |front| + 1 <= I31) && i == Index(g, line.addr) < g.sets
    requires DirtyAre(Run(p, g, front).sets[i], DirtyTags(p, g.slots, Subtrace(g, front, i)))
    requires DirtyOk(p, Run(p, g, front).sets[i])
    ensures DirtyAre(Run(p, g, front + [line]).sets[i], DirtyTags(p, g.slots, Subtrace(g, front + [line], i)))
    ensures DirtyOk(p, Run(p, g, front + [line]).sets[i])
  {
    var tag := Tag(g, line.addr);
    var uses, u := Subtrace(g, front, i), Use(line.op, tag);
    SetAfter(p, g, front, line, i);
    SubtraceStep(g, front, line, i);
    var s := Run(p, g, front).sets[i];
    var m, m' := 0, 0;
    m := Listed(p, g, front, i);
    m' := Listed(p, g, front + [line], i);
    AccessDirty(p, s, line.op, tag, |front| + 1);
    UseDirty(p, s, m, m', uses, u, |front| + 1);
  }

  lemma UseDirty(p: Policy, s: seq<Slot>, m: nat, m': nat, uses: seq<Use>, u: Use, now: nat)
    requires s != [] && Packed(s, m) && DirtyOk(p, s) && DirtyAre(s, DirtyTags(p, |s|, uses))
    requires |ListTags(p, |s|, uses)| == m && forall t :: t in ListTags(p, |s|, uses) <==> Contains(s, t)
    requires var s' := Access(p, s, u.op, u.tag, now).slots;
      DirtyOk(p, s') && Packed(s', m') && forall t :: t in ListTags(p, |s|, uses + [u]) <==> Contains(s', t)
    ensures DirtyAre(Access(p, s, u.op, u.tag, now).slots, DirtyTags(p, |s|, uses + [u]))
  {
    var s' := Access(p, s, u.op, u.tag, now).slots;
    assert (uses + [u])[..|uses|] == uses;
    UsedSlot(p, s, m, u.op, u.tag, now);
    FullIffAllValid(s, m);
    forall j | 0 <= j < |s'| && s'[j].valid
      ensures s'[j].dirty <==> s'[j].tag in DirtyTags(p, |s|, uses + [u])
    {
      DirtyStays(p, s, m, u.op, u.tag, now, j);
      HoldsDirtyIff(s', m', j);
      HoldsDirtyFound(s, m, s'[j].tag);
      DirtyListed(p, |s|, uses, s'[j].tag);
    }
  }
}
