/** Whole traces: the state of the simulator after every prefix of its input. */
module CacheRuns {
  import opened CacheSet
  import opened CacheAddress
  import opened CacheOrder
  import opened ReplacementLists

  // ----- the whole simulator

  datatype Tally = Tally(loads: nat, stores: nat, loadHits: nat, loadMisses: nat, storeHits: nat, storeMisses: nat)

  function Count(t: Tally, op: Op, hit: bool): Tally {
    match op
    case Load =>
      if hit then t.(loads := t.loads + 1, loadHits := t.loadHits + 1)
      else t.(loads := t.loads + 1, loadMisses := t.loadMisses + 1)
    case Store =>
      if hit then t.(stores := t.stores + 1, storeHits := t.storeHits + 1)
      else t.(stores := t.stores + 1, storeMisses := t.storeMisses + 1)
    case Other => t
  }

  datatype Sim = Sim(sets: seq<seq<Slot>>, cycles: nat, tally: Tally)

  ghost predicate Sized(g: Geometry) {
    g.sets > 0 && g.slots > 0 && g.blockBytes > 0
  }

  ghost predicate Fits(g: Geometry, sets: seq<seq<Slot>>) {
    |sets| == g.sets && forall i :: 0 <= i < |sets| ==> |sets[i]| == g.slots
  }

  function ColdSet(n: nat): seq<Slot> {
    seq(n, (i: nat) => COLD)
  }

  function Cold(g: Geometry): Sim {
    Sim(seq(g.sets, (i: nat) => ColdSet(g.slots)), 0, Tally(0, 0, 0, 0, 0, 0))
  }

  /** One line of the trace at time `now`. */
  function SimStep(p: Policy, g: Geometry, sim: Sim, line: Line, now: nat): (r: Sim)
    requires Sized(g) && Fits(g, sim.sets)
    ensures Fits(g, r.sets)
  {
    var i := Index(g, line.addr);
    var out := Access(p, sim.sets[i], line.op, Tag(g, line.addr), now);
    Sim(sim.sets[i := out.slots], sim.cycles + out.cycles, Count(sim.tally, line.op, out.hit))
  }

  /** The simulator after `trace`; the first line runs at time 1. */
  function Run(p: Policy, g: Geometry, trace: seq<Line>): (r: Sim)
    requires Sized(g)
    ensures Fits(g, r.sets)
    decreases |trace|
  {
    if trace == [] then Cold(g)
    else SimStep(p, g, Run(p, g, trace[..|trace| - 1]), trace[|trace| - 1], |trace|)
  }

  lemma RunStep(p: Policy, g: Geometry, trace: seq<Line>, line: Line)
    requires Sized(g)
    ensures Run(p, g, trace + [line]) == SimStep(p, g, Run(p, g, trace), line, |trace| + 1)
  {
    assert (trace + [line])[..|trace|] == trace;
  }

  /** Whether `line` hits after `trace`. */
  predicate Hits(p: Policy, g: Geometry, trace: seq<Line>, line: Line)
    requires Sized(g)
  {
    Contains(Run(p, g, trace).sets[Index(g, line.addr)], Tag(g, line.addr))
  }

  // ----- one set by itself

  datatype Use = Use(op: Op, tag: nat)

  datatype SetState = SetState(slots: seq<Slot>, cycles: nat, hits: seq<bool>)

  /** A cache of one set with `n` slots, fed `uses`. */
  function SetRun(p: Policy, n: nat, uses: seq<Use>): (r: SetState)
    requires n > 0
    ensures |r.slots| == n && |r.hits| == |uses|
    decreases |uses|
  {
    if uses == [] then SetState(ColdSet(n), 0, [])
    else
      var r := SetRun(p, n, uses[..|uses| - 1]);
      var u := uses[|uses| - 1];
      var out := Access(p, r.slots, u.op, u.tag, |uses|);
      SetState(out.slots, r.cycles + out.cycles, r.hits + [out.hit])
  }

  /** The lines of the trace that fall into set `i`. */
  function Subtrace(g: Geometry, trace: seq<Line>, i: nat): (uses: seq<Use>)
    requires Sized(g)
    ensures |uses| <= |trace|
    decreases |trace|
  {
    if trace == [] then []
    else
      var rest, line := Subtrace(g, trace[..|trace| - 1], i), trace[|trace| - 1];
      if Index(g, line.addr) == i then rest + [Use(line.op, Tag(g, line.addr))] else rest
  }

  // ----- what every access keeps

  /** An access leaves the valid slots a prefix with distinct tags. */
  lemma AccessPacked(p: Policy, s: seq<Slot>, m: nat, op: Op, tag: nat, now: nat) returns (m': nat)
    requires s != [] && Packed(s, m)
    ensures Packed(Access(p, s, op, tag, now).slots, m')
  {
    m' := m;
    FullIffAllValid(s, m);
    if Find(s, tag) == |s| && (op == Load || (op == Store && p.writeAllocate)) {
      if m < |s| {
        m' := m + 1;
        FillShape(s, m, tag, now, op == Store && !p.writeThrough);
      } else {
        EvictShape(p, s, tag, now);
      }
    }
  }

  /** And, while an `int` holds the time, all used before now + 1. */
  lemma AccessKeeps(p: Policy, s: seq<Slot>, m: nat, op: Op, tag: nat, now: nat) returns (m': nat)
    requires s != [] && Packed(s, m) && Recent(s, now)
    ensures var s' := Access(p, s, op, tag, now).slots;
      Packed(s', m') && (now < I31 ==> Recent(s', now + 1))
  {
    m' := AccessPacked(p, s, m, op, tag, now);
    FullIffAllValid(s, m);
    if Find(s, tag) == |s| && (op == Load || (op == Store && p.writeAllocate)) {
      if m < |s| {
        FillShape(s, m, tag, now, op == Store && !p.writeThrough);
      } else {
        EvictShape(p, s, tag, now);
      }
    }
  }

  /** An eviction rewrites the victim; the other slots keep everything but load_ts. */
  lemma EvictShape(p: Policy, s: seq<Slot>, tag: nat, now: nat)
    requires s != [] && Packed(s, |s|) && Find(s, tag) == |s|
    ensures var v, s' := Victim(p, s), Evict(p, s, tag, now);
      && Packed(s', |s|) && |s'| == |s|
      && s'[v].tag == tag && s'[v].accessTs == AsInt(now) && !s'[v].dirty
      && (forall i :: 0 <= i < |s| && i != v ==> s'[i] == s[i].(loadTs := s'[i].loadTs))
  {
    forall i | 0 <= i < |s|
      ensures s[i].tag != tag
    {
      assert !Holds(s[i], tag);
    }
  }

  lemma {:induction false} SetRunKeeps(p: Policy, n: nat, uses: seq<Use>) returns (m: nat)
    requires n > 0 && |uses| < I31
    ensures Packed(SetRun(p, n, uses).slots, m) && Recent(SetRun(p, n, uses).slots, |uses| + 1)
    decreases |uses|
  {
    if uses == [] {
      m := 0;
    } else {
      var front, u := uses[..|uses| - 1], uses[|uses| - 1];
      m := SetRunKeeps(p, n, front);
      m := AccessKeeps(p, SetRun(p, n, front).slots, m, u.op, u.tag, |uses|);
    }
  }

  // ----- set independence

  /** The same blocks in the same slots, used in the same order at possibly different times. */
  ghost predicate SameButTimes(s: seq<Slot>, t: seq<Slot>) {
    && |s| == |t|
    && (forall i :: 0 <= i < |s| ==> s[i] == t[i].(accessTs := s[i].accessTs))
    && (forall i, j :: 0 <= i < |s| && 0 <= j < |s| && s[i].valid && s[j].valid ==>
          (s[i].accessTs <= s[j].accessTs <==> t[i].accessTs <= t[j].accessTs))
  }

  lemma {:induction false} SameFind(s: seq<Slot>, t: seq<Slot>, tag: nat)
    requires SameButTimes(s, t)
    ensures Find(s, tag) == Find(t, tag) && FirstFree(s) == FirstFree(t)
    ensures IsFull(s) == IsFull(t) && IsEmpty(s) == IsEmpty(t)
  {
    var k, l := Find(s, tag), Find(t, tag);
    assert k < |s| ==> Holds(t[k], tag);
    assert l < |s| ==> Holds(s[l], tag);
    var a, b := FirstFree(s), FirstFree(t);
    assert a < |s| ==> !t[a].valid;
    assert b < |s| ==> !s[b].valid;
    assert IsFull(s) ==> IsFull(t);
    assert IsFull(t) ==> IsFull(s);
  }

  lemma SameVictim(p: Policy, s: seq<Slot>, t: seq<Slot>, now: nat, then_: nat)
    requires SameButTimes(s, t) && s != [] && IsFull(s) && Recent(s, now) && Recent(t, then_)
    ensures Victim(p, s) == Victim(p, t)
  {
    if p.lru {
      assert forall i :: 0 <= i < |s| ==> t[i].valid;
      LruVictimLeast(s);
      LruVictimLeast(t);
      var v, w := LruVictim(s), LruVictim(t);
      assert s[v].accessTs <= s[w].accessTs && t[w].accessTs <= t[v].accessTs;
    } else {
      SameFifoScan(s, t, 0);
    }
  }

  lemma {:induction false} SameFifoScan(s: seq<Slot>, t: seq<Slot>, i: nat)
    requires SameButTimes(s, t) && i <= |s| && s != []
    ensures FifoScan(s, i) == FifoScan(t, i)
    decreases |s| - i
  {
    if i < |s| {
      SameFifoScan(s, t, i + 1);
    }
  }

  /** Rewriting slot `k` in both sets, each at its own latest time. */
  lemma SameUpdate(s: seq<Slot>, t: seq<Slot>, s': seq<Slot>, t': seq<Slot>, k: nat, now: nat, then_: nat)
    requires SameButTimes(s, t) && Recent(s, now) && Recent(t, then_) && k < |s|
    requires |s'| == |t'| == |s|
    requires forall i :: 0 <= i < |s| ==> s'[i] == t'[i].(accessTs := s'[i].accessTs)
    requires forall i :: 0 <= i < |s| && i != k ==>
      s'[i].accessTs == s[i].accessTs && t'[i].accessTs == t[i].accessTs && s'[i].valid == s[i].valid
    requires s'[k].accessTs == now && t'[k].accessTs == then_
    ensures SameButTimes(s', t')
  {
  }

  lemma SameFill(s: seq<Slot>, t: seq<Slot>, m: nat, tag: nat, now: nat, then_: nat, dirty: bool)
    requires SameButTimes(s, t) && Recent(s, now) && Recent(t, then_) && now < I31 && then_ < I31
    requires Packed(s, m) && m < |s| && Find(s, tag) == |s|
    ensures SameButTimes(Fill(s, tag, now, dirty), Fill(t, tag, then_, dirty))
  {
    SameFind(s, t, tag);
    FillShape(s, m, tag, now, dirty);
    FillShape(t, m, tag, then_, dirty);
    var s', t' := Fill(s, tag, now, dirty), Fill(t, tag, then_, dirty);
    forall i | 0 <= i < |s|
      ensures s'[i] == t'[i].(accessTs := s'[i].accessTs)
    {
      SameRank(s, t, m, i);
    }
    SameUpdate(s, t, s', t', m, now, then_);
  }

  lemma SameRank(s: seq<Slot>, t: seq<Slot>, m: nat, i: nat)
    requires SameButTimes(s, t) && IsEmpty(s) == IsEmpty(t) && i < |s|
    ensures FillRank(s, m, i) == FillRank(t, m, i)
  {
  }

  lemma SameEvict(p: Policy, s: seq<Slot>, t: seq<Slot>, tag: nat, now: nat, then_: nat)
    requires SameButTimes(s, t) && Recent(s, now) && Recent(t, then_) && now < I31 && then_ < I31
    requires s != [] && Packed(s, |s|) && Find(s, tag) == |s|
    ensures SameButTimes(Evict(p, s, tag, now), Evict(p, t, tag, then_))
  {
    SameVictim(p, s, t, now, then_);
    var s', t' := Evict(p, s, tag, now), Evict(p, t, tag, then_);
    forall i | 0 <= i < |s|
      ensures s'[i] == t'[i].(accessTs := s'[i].accessTs)
    {
    }
    SameUpdate(s, t, s', t', Victim(p, s), now, then_);
  }

  /** The same access at different times does the same to both sets, at the same cost. */
  lemma SameAccess(p: Policy, s: seq<Slot>, t: seq<Slot>, m: nat, op: Op, tag: nat, now: nat, then_: nat)
    requires SameButTimes(s, t) && Recent(s, now) && Recent(t, then_) && now < I31 && then_ < I31
    requires s != [] && Packed(s, m)
    ensures var a, b := Access(p, s, op, tag, now), Access(p, t, op, tag, then_);
      SameButTimes(a.slots, b.slots) && a.hit == b.hit && a.cycles == b.cycles
  {
    var a, b := Access(p, s, op, tag, now), Access(p, t, op, tag, then_);
    SameFind(s, t, tag);
    FullIffAllValid(s, m);
    var k := Find(s, tag);
    if op != Other {
      if k < |s| {
        SameUpdate(s, t, a.slots, b.slots, k, now, then_);
      } else if op == Load || p.writeAllocate {
        if m < |s| {
          SameFill(s, t, m, tag, now, then_, op == Store && !p.writeThrough);
        } else {
          SameVictim(p, s, t, now, then_);
          SameEvict(p, s, t, tag, now, then_);
        }
      }
    }
  }
}
