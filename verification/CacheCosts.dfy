/** Cycles, dirty blocks and write policies over whole traces. */
module CacheCosts {
  import opened CacheSet
  import opened CacheAddress
  import opened CacheOrder
  import opened CacheRuns

  // ----- what happens at an access, read off the state before it

  predicate Evicts(p: Policy, s: seq<Slot>, op: Op, tag: nat) {
    op != Other && !Contains(s, tag) && Allocates(p, op) && IsFull(s)
  }

  predicate EvictsDirty(p: Policy, s: seq<Slot>, op: Op, tag: nat)
    requires s != []
  {
    Evicts(p, s, op, tag) && s[Victim(p, s)].dirty
  }

  predicate Installs(p: Policy, s: seq<Slot>, op: Op, tag: nat) {
    op != Other && !Contains(s, tag) && Allocates(p, op)
  }

  /** A write-through store that misses without evicting goes to memory at once. */
  predicate WritesThroughMiss(p: Policy, s: seq<Slot>, op: Op, tag: nat) {
    op == Store && !Contains(s, tag) && p.writeThrough && !Evicts(p, s, op, tag)
  }

  /** The access turns a clean or free slot dirty. */
  predicate Dirties(p: Policy, s: seq<Slot>, op: Op, tag: nat) {
    op == Store && !p.writeThrough &&
    (if Contains(s, tag) then !s[Find(s, tag)].dirty else p.writeAllocate && !IsFull(s))
  }

  function One(b: bool): nat {
    if b then 1 else 0
  }

  // ----- counting them over a trace

  datatype Events = Events(installs: nat, dirtyEvictions: nat, throughMisses: nat, dirtied: nat)

  function EventsOf(p: Policy, g: Geometry, trace: seq<Line>): Events
    requires Sized(g)
    decreases |trace|
  {
    if trace == [] then Events(0, 0, 0, 0)
    else
      var front, line := trace[..|trace| - 1], trace[|trace| - 1];
      var e := EventsOf(p, g, front);
      var s, tag := Run(p, g, front).sets[Index(g, line.addr)], Tag(g, line.addr);
      EventsAfter(p, s, line.op, tag, e)
  }

  /** The command line refuses write-back without write-allocate. */
  predicate Accepted(p: Policy) {
    p.writeAllocate || p.writeThrough
  }

  lemma AccessCost(p: Policy, s: seq<Slot>, op: Op, tag: nat, now: nat)
    requires Accepted(p) && s != []
    ensures var out := Access(p, s, op, tag, now);
      && (out.hit <==> op != Other && Contains(s, tag))
      && out.cycles ==
        One(op == Load && out.hit) + (if p.writeThrough then 101 else 1) * One(op == Store && out.hit)
        + p.blockCost * One(Installs(p, s, op, tag)) + p.blockCost * One(EvictsDirty(p, s, op, tag))
        + 100 * One(WritesThroughMiss(p, s, op, tag))
  {
  }

  /** The charges for `e` and for the hits of `t`. */
  function Charges(p: Policy, t: Tally, e: Events): nat {
    t.loadHits + (if p.writeThrough then 101 else 1) * t.storeHits
    + p.blockCost * e.installs + p.blockCost * e.dirtyEvictions + 100 * e.throughMisses
  }

  lemma ChargesMove(p: Policy, t: Tally, e: Events, op: Op, hit: bool, installs: bool, evicts: bool, through: bool, dirties: bool)
    ensures Charges(p, Count(t, op, hit), Events(e.installs + One(installs), e.dirtyEvictions + One(evicts),
                                                 e.throughMisses + One(through), e.dirtied + One(dirties)))
      == Charges(p, t, e) + One(op == Load && hit) + (if p.writeThrough then 101 else 1) * One(op == Store && hit)
        + p.blockCost * One(installs) + p.blockCost * One(evicts) + 100 * One(through)
  {
    Distribute(p.blockCost, e.installs, One(installs));
    Distribute(p.blockCost, e.dirtyEvictions, One(evicts));
  }

  lemma EventsStep(p: Policy, g: Geometry, front: seq<Line>, line: Line)
    requires Sized(g)
    ensures var s, tag, e := Run(p, g, front).sets[Index(g, line.addr)], Tag(g, line.addr), EventsOf(p, g, front);
      EventsOf(p, g, front + [line]) ==
      EventsAfter(p, s, line.op, tag, e)
  {
    assert (front + [line])[..|front|] == front;
  }

  /** Every cycle of a trace is accounted for by a hit, a block brought in or written back, or a store sent on. */
  lemma {:induction false} CyclesAccounted(p: Policy, g: Geometry, trace: seq<Line>)
    requires Accepted(p) && Sized(g)
    ensures Run(p, g, trace).cycles == Charges(p, Run(p, g, trace).tally, EventsOf(p, g, trace))
    decreases |trace|
  {
    if trace != [] {
      var front, line := trace[..|trace| - 1], trace[|trace| - 1];
      assert trace == front + [line];
      CyclesAccounted(p, g, front);
      LineAccounted(p, g, front, line);
    }
  }

  lemma LineAccounted(p: Policy, g: Geometry, front: seq<Line>, line: Line)
    requires Accepted(p) && Sized(g) && Run(p, g, front).cycles == Charges(p, Run(p, g, front).tally, EventsOf(p, g, front))
    ensures Run(p, g, front + [line]).cycles
      == Charges(p, Run(p, g, front + [line]).tally, EventsOf(p, g, front + [line]))
  {
    var s := Run(p, g, front).sets[Index(g, line.addr)];
    RunStep(p, g, front, line);
    EventsStep(p, g, front, line);
    AccessAccounted(p, s, line.op, Tag(g, line.addr), |front| + 1, Run(p, g, front).tally, EventsOf(p, g, front));
  }

  function EventsAfter(p: Policy, s: seq<Slot>, op: Op, tag: nat, e: Events): Events
    requires s != []
  {
    Events(e.installs + One(Installs(p, s, op, tag)), e.dirtyEvictions + One(EvictsDirty(p, s, op, tag)),
           e.throughMisses + One(WritesThroughMiss(p, s, op, tag)), e.dirtied + One(Dirties(p, s, op, tag)))
  }

  lemma AccessAccounted(p: Policy, s: seq<Slot>, op: Op, tag: nat, now: nat, t: Tally, e: Events)
    requires Accepted(p) && s != []
    ensures var out := Access(p, s, op, tag, now);
      Charges(p, t, e) + out.cycles == Charges(p, Count(t, op, out.hit), EventsAfter(p, s, op, tag, e))
  {
    AccessCost(p, s, op, tag, now);
    ChargesMove(p, t, e, op, Access(p, s, op, tag, now).hit, Installs(p, s, op, tag), EvictsDirty(p, s, op, tag),
                WritesThroughMiss(p, s, op, tag), Dirties(p, s, op, tag));
  }

  lemma Distribute(b: nat, x: nat, y: nat)
    ensures b * (x + y) == b * x + b * y
  {
  }

  // ----- dirty blocks

  function DirtyIn(s: seq<Slot>): nat {
    if s == [] then 0 else One(s[0].dirty) + DirtyIn(s[1..])
  }

  function DirtyInAll(sets: seq<seq<Slot>>): nat {
    if sets == [] then 0 else DirtyIn(sets[0]) + DirtyInAll(sets[1..])
  }

  /** Changing the dirty bit of at most slot `k`. */
  lemma {:induction false} DirtyUpdate(s: seq<Slot>, s': seq<Slot>, k: nat)
    requires k < |s| == |s'|
    requires forall i :: 0 <= i < |s| && i != k ==> s'[i].dirty == s[i].dirty
    ensures DirtyIn(s') + One(s[k].dirty) == DirtyIn(s) + One(s'[k].dirty)
  {
    if k == 0 {
      DirtySame(s[1..], s'[1..]);
    } else {
      DirtyUpdate(s[1..], s'[1..], k - 1);
    }
  }

  lemma {:induction false} DirtySame(s: seq<Slot>, s': seq<Slot>)
    requires |s| == |s'| && forall i :: 0 <= i < |s| ==> s'[i].dirty == s[i].dirty
    ensures DirtyIn(s) == DirtyIn(s')
  {
    if s != [] {
      DirtySame(s[1..], s'[1..]);
    }
  }

  lemma {:induction false} DirtySetUpdate(sets: seq<seq<Slot>>, i: nat, s: seq<Slot>)
    requires i < |sets|
    ensures DirtyInAll(sets[i := s]) + DirtyIn(sets[i]) == DirtyInAll(sets) + DirtyIn(s)
  {
    if i == 0 {
      assert sets[i := s][1..] == sets[1..];
    } else {
      DirtySetUpdate(sets[1..], i - 1, s);
      assert sets[i := s][1..] == sets[1..][i - 1 := s];
    }
  }

  /** Free slots are clean, and with write-through every slot is. */
  ghost predicate DirtyOk(p: Policy, s: seq<Slot>) {
    forall i :: 0 <= i < |s| && s[i].dirty ==> s[i].valid && !p.writeThrough
  }

  lemma AccessDirty(p: Policy, s: seq<Slot>, op: Op, tag: nat, now: nat)
    requires s != [] && DirtyOk(p, s)
    ensures var s' := Access(p, s, op, tag, now).slots;
      DirtyOk(p, s') &&
      DirtyIn(s') + One(EvictsDirty(p, s, op, tag)) == DirtyIn(s) + One(Dirties(p, s, op, tag))
  {
    var s' := Access(p, s, op, tag, now).slots;
    var k := Find(s, tag);
    if op == Other || (k == |s| && !Allocates(p, op)) {
    } else if k < |s| {
      DirtyUpdate(s, s', k);
    } else if IsFull(s) {
      DirtyUpdate(s, s', Victim(p, s));
    } else {
      FillDirty(s, tag, now, op == Store && !p.writeThrough);
      DirtyUpdate(s, s', FirstFree(s));
    }
  }

  lemma FillDirty(s: seq<Slot>, tag: nat, now: nat, dirty: bool)
    requires !IsFull(s)
    ensures var k, s' := FirstFree(s), Fill(s, tag, now, dirty);
      && k < |s| == |s'| && s'[k].dirty == dirty && s'[k].valid
      && forall i :: 0 <= i < |s| && i != k ==> s'[i] == s[i].(loadTs := s'[i].loadTs)
  {
    var u := UpdateLoadTs(s);
    assert FirstFree(u) == FirstFree(s) by {
      assert !u[FirstFree(s)].valid;
      assert FirstFree(u) < |u| ==> !s[FirstFree(u)].valid;
    }
  }

  /**
   * Dirty blocks are conserved: those evicted and those still there are the ones stores made, at
   * most one per store and none under write-through.
   */
  lemma {:induction false} DirtyConserved(p: Policy, g: Geometry, trace: seq<Line>)
    requires Sized(g)
    ensures var r, e := Run(p, g, trace), EventsOf(p, g, trace);
      && e.dirtyEvictions + DirtyInAll(r.sets) == e.dirtied <= r.tally.stores
      && (p.writeThrough ==> e.dirtied == 0)
      && (forall i :: 0 <= i < g.sets ==> DirtyOk(p, r.sets[i]))
    decreases |trace|
  {
    if trace == [] {
      ColdClean(Run(p, g, trace).sets);
    } else {
      var front, line := trace[..|trace| - 1], trace[|trace| - 1];
      DirtyConserved(p, g, front);
      var sets, i, tag := Run(p, g, front).sets, Index(g, line.addr), Tag(g, line.addr);
      var out := Access(p, sets[i], line.op, tag, |trace|);
      AccessDirty(p, sets[i], line.op, tag, |trace|);
      DirtySetUpdate(sets, i, out.slots);
    }
  }

  lemma {:induction false} ColdClean(sets: seq<seq<Slot>>)
    requires forall i :: 0 <= i < |sets| ==> forall k :: 0 <= k < |sets[i]| ==> !sets[i][k].dirty
    ensures DirtyInAll(sets) == 0
  {
    if sets != [] {
      CleanSet(sets[0]);
      ColdClean(sets[1..]);
    }
  }

  lemma {:induction false} CleanSet(s: seq<Slot>)
    requires forall k :: 0 <= k < |s| ==> !s[k].dirty
    ensures DirtyIn(s) == 0
  {
    if s != [] {
      CleanSet(s[1..]);
    }
  }

  /**
   * With write-back and write-allocate a store leaves its block dirty exactly when it hit or
   * found a free slot: a store that evicts leaves the new block clean.
   */
  lemma StoreLeavesDirtyIff(p: Policy, s: seq<Slot>, m: nat, tag: nat, now: nat)
    requires !p.writeThrough && p.writeAllocate && s != [] && Packed(s, m)
    ensures var s' := Access(p, s, Store, tag, now).slots;
      Contains(s', tag) && (s'[Find(s', tag)].dirty <==> Contains(s, tag) || !IsFull(s))
  {
    var s' := Access(p, s, Store, tag, now).slots;
    FullIffAllValid(s, m);
    var m' := AccessPacked(p, s, m, Store, tag, now);
    var k := if Contains(s, tag) then Find(s, tag) else if m < |s| then m else Victim(p, s);
    if !Contains(s, tag) {
      if m < |s| {
        FillShape(s, m, tag, now, true);
      } else {
        EvictShape(p, s, tag, now);
      }
    }
    assert Holds(s'[k], tag);
  }

  // ----- write-through and write-back

  /** `s` without its dirty bits. */
  ghost predicate SameButDirty(s: seq<Slot>, t: seq<Slot>) {
    |s| == |t| && forall i :: 0 <= i < |s| ==> s[i] == t[i].(dirty := s[i].dirty)
  }

  lemma SameLooks(p: Policy, q: Policy, s: seq<Slot>, t: seq<Slot>, tag: nat)
    requires SameButDirty(s, t) && p.lru == q.lru && s != []
    ensures Find(s, tag) == Find(t, tag) && IsFull(s) == IsFull(t) && Victim(p, s) == Victim(q, t)
  {
    var k, l := Find(s, tag), Find(t, tag);
    assert k < |s| ==> Holds(t[k], tag);
    assert l < |s| ==> Holds(s[l], tag);
    assert forall i :: 0 <= i < |s| ==> s[i].valid == t[i].valid;
    if s[0].accessTs == t[0].accessTs {
      SameScan(s, t, 1, s[0].accessTs % U32, 0);
    }
    SameRankScan(s, t, 0);
  }

  lemma {:induction false} SameScan(s: seq<Slot>, t: seq<Slot>, i: nat, min: nat, index: nat)
    requires SameButDirty(s, t) && i <= |s| && index < |s|
    ensures LruScan(s, i, min, index) == LruScan(t, i, min, index)
    decreases |s| - i
  {
    if i < |s| {
      if min >= s[i].accessTs {
        SameScan(s, t, i + 1, s[i].accessTs % U32, i);
      } else {
        SameScan(s, t, i + 1, min, index);
      }
    }
  }

  lemma {:induction false} SameRankScan(s: seq<Slot>, t: seq<Slot>, i: nat)
    requires SameButDirty(s, t) && i <= |s| && s != []
    ensures FifoScan(s, i) == FifoScan(t, i)
    decreases |s| - i
  {
    if i < |s| {
      SameRankScan(s, t, i + 1);
    }
  }

  lemma SameRanks(s: seq<Slot>, t: seq<Slot>, tag: nat, now: nat, d: bool, e: bool)
    requires SameButDirty(s, t) && !IsFull(s)
    ensures SameButDirty(Fill(s, tag, now, d), Fill(t, tag, now, e))
  {
    assert forall i :: 0 <= i < |s| ==> s[i].valid == t[i].valid;
    assert IsEmpty(s) == IsEmpty(t);
    SameFree(s, t);
    SameFree(UpdateLoadTs(s), s);
    SameFree(UpdateLoadTs(t), t);
    assert forall i :: 0 <= i < |s| ==> FillRank(s, FirstFree(s), i) == FillRank(t, FirstFree(s), i);
  }

  lemma SameFree(s: seq<Slot>, t: seq<Slot>)
    requires |s| == |t| && forall i :: 0 <= i < |s| ==> s[i].valid == t[i].valid
    ensures FirstFree(s) == FirstFree(t)
  {
    var a, b := FirstFree(s), FirstFree(t);
    assert a < |s| ==> !t[a].valid;
    assert b < |s| ==> !s[b].valid;
  }

  lemma SameAccessButDirty(p: Policy, q: Policy, s: seq<Slot>, t: seq<Slot>, op: Op, tag: nat, now: nat)
    requires SameButDirty(s, t) && p.lru == q.lru && p.writeAllocate && q.writeAllocate && s != []
    ensures var a, b := Access(p, s, op, tag, now), Access(q, t, op, tag, now);
      SameButDirty(a.slots, b.slots) && a.hit == b.hit
  {
    SameLooks(p, q, s, t, tag);
    if !IsFull(s) {
      SameRanks(s, t, tag, now, op == Store && !p.writeThrough, op == Store && !q.writeThrough);
    }
  }

  /**
   * Under write-allocate the write policy changes nothing but dirty bits and cycles: tags,
   * timestamps and ranks of every slot and all six counters agree after every trace.
   */
  lemma {:induction false} WritePolicyIndependent(p: Policy, q: Policy, g: Geometry, trace: seq<Line>)
    requires p.lru == q.lru && p.writeAllocate && q.writeAllocate && Sized(g)
    ensures Run(p, g, trace).tally == Run(q, g, trace).tally
    ensures forall i :: 0 <= i < g.sets ==> SameButDirty(Run(p, g, trace).sets[i], Run(q, g, trace).sets[i])
    decreases |trace|
  {
    if trace != [] {
      var front, line := trace[..|trace| - 1], trace[|trace| - 1];
      WritePolicyIndependent(p, q, g, front);
      var i := Index(g, line.addr);
      SameAccessButDirty(p, q, Run(p, g, front).sets[i], Run(q, g, front).sets[i], line.op, Tag(g, line.addr), |trace|);
    }
  }
}
