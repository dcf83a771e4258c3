/** When the LRU policy still evicts the least recently used block, and for how long a trace may be. */
module CacheRecency {
  import opened Arithmetic
  import opened CacheSet
  import opened CacheAddress
  import opened ReplacementLists
  import opened CacheOrder
  import opened CacheRuns
  import opened CacheTheorems

  // ----- true times of use beside the stored ones

  /** The slot that an access uses, or |s|. */
  function Used(p: Policy, s: seq<Slot>, op: Op, tag: nat): (k: nat)
    requires s != []
    ensures k <= |s|
  {
    if op == Other then |s|
    else if Contains(s, tag) then Find(s, tag)
    else if !Allocates(p, op) then |s|
    else if IsFull(s) then Victim(p, s)
    else FirstFree(s)
  }

  function UseAfter(last: seq<nat>, k: nat, now: nat): (r: seq<nat>)
    requires k <= |last|
    ensures |r| == |last|
  {
    if k < |last| then last[k := now] else last
  }

  /** The line at which each slot of set `i` was last used. */
  function LastUses(p: Policy, g: Geometry, trace: seq<Line>, i: nat): (last: seq<nat>)
    requires Sized(g) && i < g.sets
    ensures |last| == g.slots
    decreases |trace|
  {
    if trace == [] then seq(g.slots, (j: nat) => 0)
    else
      var front, line := trace[..|trace| - 1], trace[|trace| - 1];
      var last := LastUses(p, g, front, i);
      if Index(g, line.addr) == i
      then UseAfter(last, Used(p, Run(p, g, front).sets[i], line.op, Tag(g, line.addr)), |trace|)
      else last
  }

  /** A hit stores the time of use, an install what an `int` makes of it. */
  ghost predicate Timed(s: seq<Slot>, last: seq<nat>, now: nat) {
    && |last| == |s|
    && (forall i :: 0 <= i < |s| && s[i].valid ==>
          last[i] < now && (s[i].accessTs == last[i] || s[i].accessTs == AsInt(last[i])))
    && (forall i, j :: 0 <= i < j < |s| && s[i].valid && s[j].valid ==> last[i] != last[j])
  }

  /** Slot `k` gets the time `now`, the others keep theirs. */
  ghost predicate TimedAt(s: seq<Slot>, s': seq<Slot>, k: nat, now: nat) {
    && k < |s| == |s'| && (s'[k].accessTs == now || s'[k].accessTs == AsInt(now))
    && forall i :: 0 <= i < |s| && i != k ==> s'[i].accessTs == s[i].accessTs && s'[i].valid == s[i].valid
  }

  lemma UseTimed(s: seq<Slot>, s': seq<Slot>, k: nat, last: seq<nat>, now: nat)
    requires Timed(s, last, now) && TimedAt(s, s', k, now)
    ensures Timed(s', UseAfter(last, k, now), now + 1)
  {
  }

  lemma AccessTimed(p: Policy, s: seq<Slot>, m: nat, op: Op, tag: nat, last: seq<nat>, now: nat)
    requires s != [] && Packed(s, m) && Timed(s, last, now)
    ensures Timed(Access(p, s, op, tag, now).slots, UseAfter(last, Used(p, s, op, tag), now), now + 1)
  {
    var k, s' := Used(p, s, op, tag), Access(p, s, op, tag, now).slots;
    FullIffAllValid(s, m);
    if k < |s| {
      if Find(s, tag) == |s| && m < |s| {
        FillShape(s, m, tag, now, op == Store && !p.writeThrough);
      } else if Find(s, tag) == |s| {
        EvictShape(p, s, tag, now);
      }
      UseTimed(s, s', k, last, now);
    }
  }

  /** On every trace, however long. */
  lemma {:induction false} RunTimed(p: Policy, g: Geometry, trace: seq<Line>, i: nat) returns (m: nat)
    requires Sized(g) && i < g.sets
    ensures Packed(Run(p, g, trace).sets[i], m) && Timed(Run(p, g, trace).sets[i], LastUses(p, g, trace, i), |trace| + 1)
    decreases |trace|
  {
    if trace == [] {
      m := 0;
    } else {
      var front, line := trace[..|trace| - 1], trace[|trace| - 1];
      assert trace == front + [line];
      m := RunTimed(p, g, front, i);
      SetAfter(p, g, front, line, i);
      if Index(g, line.addr) == i {
        var s, tag := Run(p, g, front).sets[i], Tag(g, line.addr);
        AccessTimed(p, s, m, line.op, tag, LastUses(p, g, front, i), |trace|);
        m := AccessPacked(p, s, m, line.op, tag, |trace|);
      }
    }
  }

  // ----- which slot goes

  ghost predicate Oldest(last: seq<nat>, v: nat) {
    v < |last| && forall j :: 0 <= j < |last| ==> last[v] <= last[j]
  }

  /** What the scan compares: it cuts the timestamp of slot 0 to 32 bits. */
  function ScanKey(s: seq<Slot>, j: nat): nat
    requires j < |s|
  {
    if j == 0 then s[0].accessTs % U32 else s[j].accessTs
  }

  /** The scan prefers slot `a` to slot `b`; on a tie it takes the later one. */
  predicate Before(s: seq<Slot>, a: nat, b: nat)
    requires a < |s| && b < |s|
  {
    ScanKey(s, a) < ScanKey(s, b) || (ScanKey(s, a) == ScanKey(s, b) && b < a)
  }

  lemma ScanPicks(s: seq<Slot>)
    requires s != []
    ensures forall j :: 0 <= j < |s| && j != LruVictim(s) ==> Before(s, LruVictim(s), j)
  {
    LruScanLeast(s, 1, s[0].accessTs % U32, 0);
  }

  /** At any time, the least recently used block goes exactly when its key precedes all others. */
  lemma LruVictimOldestIff(s: seq<Slot>, last: seq<nat>, now: nat)
    requires s != [] && IsFull(s) && Timed(s, last, now)
    ensures Oldest(last, LruVictim(s)) <==>
      exists o: nat :: Oldest(last, o) && forall j :: 0 <= j < |s| && j != o ==> Before(s, o, j)
  {
    ScanPicks(s);
    var v := LruVictim(s);
    forall o | Oldest(last, o) && forall j :: 0 <= j < |s| && j != o ==> Before(s, o, j)
      ensures o == v
    {
      assert o != v ==> Before(s, o, v) && Before(s, v, o);
    }
  }

  lemma AsIntLow(t: nat)
    ensures AsInt(t) % U32 == t % U32
    ensures I31 <= t < U32 ==> AsInt(t) >= U32
  {
    var low := t % U32;
    assert (low + 0xffff_ffff * U32) % U32 == low;
  }

  /** Before 2^32 the scan compares the times of use, but for installs at 2^31 or later. */
  lemma KeyOfTime(s: seq<Slot>, last: seq<nat>, now: nat, j: nat)
    requires IsFull(s) && Timed(s, last, now) && now <= U32 && j < |s|
    ensures if j == 0 || s[j].accessTs == last[j] then ScanKey(s, j) == last[j] else ScanKey(s, j) >= U32
  {
    AsIntLow(last[j]);
  }

  lemma OldestUnique(s: seq<Slot>, last: seq<nat>, now: nat, a: nat, b: nat)
    requires IsFull(s) && Timed(s, last, now) && Oldest(last, a) && Oldest(last, b)
    ensures a == b
  {
    assert s[a].valid && s[b].valid;
  }

  lemma OldestGoesIff(s: seq<Slot>, last: seq<nat>, now: nat, o: nat)
    requires s != [] && IsFull(s) && Timed(s, last, now) && now <= U32 && Oldest(last, o)
    ensures LruVictim(s) == o <==> o == 0 || s[o].accessTs == last[o]
  {
    ScanPicks(s);
    var v := LruVictim(s);
    KeyOfTime(s, last, now, 0);
    KeyOfTime(s, last, now, v);
    KeyOfTime(s, last, now, o);
    assert s[0].valid && last[0] < U32 && s[o].valid && last[o] < U32;
    assert last[v] <= last[o] <==> v == o;
    if v != o {
      assert Before(s, v, o);
    } else if o != 0 {
      assert Before(s, o, 0);
    }
  }

  /**
   * For the first 2^32 lines: exactly when the least recently used block is in slot 0 or its
   * stored timestamp is its time of use, so that it was not installed at 2^31 or later.
   */
  lemma LruVictimKeptIff(s: seq<Slot>, last: seq<nat>, now: nat)
    requires s != [] && IsFull(s) && Timed(s, last, now) && now <= U32
    ensures Oldest(last, LruVictim(s)) <==> exists o: nat :: Oldest(last, o) && (o == 0 || s[o].accessTs == last[o])
  {
    var o := OldestOf(last);
    OldestGoesIff(s, last, now, o);
    forall q: nat | Oldest(last, q)
      ensures q == o
    {
      OldestUnique(s, last, now, q, o);
    }
  }

  /** Some slot is the oldest. */
  lemma {:induction false} OldestOf(last: seq<nat>) returns (o: nat)
    requires last != []
    ensures Oldest(last, o)
  {
    if |last| == 1 {
      o := 0;
    } else {
      var front := last[..|last| - 1];
      o := OldestOf(front);
      assert forall j :: 0 <= j < |front| ==> last[o] <= last[j];
      if last[|last| - 1] < last[o] {
        o := |last| - 1;
      }
    }
  }

  // ----- traces of one set

  /** Lines that only let time pass. */
  function Idle(k: nat): seq<Line> {
    seq(k, (j: nat) => Line(Other, 0))
  }

  lemma AfterLine(p: Policy, g: Geometry, front: seq<Line>, line: Line, i: nat)
    requires Sized(g) && i < g.sets
    ensures var s, tag := Run(p, g, front).sets[i], Tag(g, line.addr);
      LastUses(p, g, front + [line], i) ==
      if Index(g, line.addr) == i
      then UseAfter(LastUses(p, g, front, i), Used(p, s, line.op, tag), |front| + 1)
      else LastUses(p, g, front, i)
  {
    assert (front + [line])[..|front|] == front;
  }

  lemma {:induction false} IdleKeeps(p: Policy, g: Geometry, trace: seq<Line>, k: nat, i: nat)
    requires Sized(g) && i < g.sets
    ensures Run(p, g, trace + Idle(k)).sets[i] == Run(p, g, trace).sets[i]
    ensures LruTags(p, g.slots, Subtrace(g, trace + Idle(k), i)) == LruTags(p, g.slots, Subtrace(g, trace, i))
    ensures LastUses(p, g, trace + Idle(k), i) == LastUses(p, g, trace, i)
  {
    if k == 0 {
      assert trace + Idle(0) == trace;
    } else {
      var front, line := trace + Idle(k - 1), Line(Other, 0);
      assert trace + Idle(k) == front + [line];
      IdleKeeps(p, g, trace, k - 1, i);
      SetAfter(p, g, front, line, i);
      TagsAfter(p, g, front, line, i);
      AfterLine(p, g, front, line, i);
    }
  }

  // ----- for how many lines the order holds

  ghost predicate SetOrdered(p: Policy, g: Geometry, trace: seq<Line>, i: nat)
    requires Sized(g) && i < g.sets
  {
    exists m, ord :: InLruOrder(Run(p, g, trace).sets[i], m, ord, LruTags(p, g.slots, Subtrace(g, trace, i)))
  }

  /** In every set, decreasing access_ts is the order of use. */
  ghost predicate LruOrdered(p: Policy, g: Geometry, trace: seq<Line>)
    requires Sized(g)
  {
    forall i :: 0 <= i < g.sets ==> SetOrdered(p, g, trace, i)
  }

  /** The tags of a set that never holds more than one. */
  function SoloTags(s: seq<Slot>, m: nat): seq<nat>
    requires m <= 1 && m <= |s|
  {
    if m == 0 then [] else [s[0].tag]
  }

  /** A set of one slot, or one that sees a single tag. */
  ghost predicate Solo(s: seq<Slot>, m: nat) {
    s != [] && Packed(s, m) && m <= 1 && (|s| == 1 || m == 0 || s[0].tag == 0)
  }

  lemma SoloStep(p: Policy, s: seq<Slot>, m: nat, op: Op, tag: nat, now: nat) returns (m': nat)
    requires Solo(s, m) && op != Other && (|s| == 1 || tag == 0)
    ensures var s' := Access(p, s, op, tag, now).slots;
      Solo(s', m') && SoloTags(s', m') == LruStep(SoloTags(s, m), |s|, tag, Allocates(p, op))
  {
    FullIffAllValid(s, m);
    if m == 0 {
      m' := if Allocates(p, op) then 1 else 0;
      if Allocates(p, op) {
        FillShape(s, m, tag, now, op == Store && !p.writeThrough);
      }
    } else {
      m' := 1;
      assert Find(s, tag) == if s[0].tag == tag then 0 else |s|;
      if s[0].tag != tag && Allocates(p, op) {
        EvictShape(p, s, tag, now);
      }
    }
  }

  lemma {:induction false} SoloRun(p: Policy, g: Geometry, trace: seq<Line>, i: nat) returns (m: nat)
    requires Sized(g) && i < g.sets && (g.slots == 1 || forall addr :: Tag(g, addr) == 0)
    ensures Solo(Run(p, g, trace).sets[i], m)
    ensures SoloTags(Run(p, g, trace).sets[i], m) == LruTags(p, g.slots, Subtrace(g, trace, i))
    decreases |trace|
  {
    m := 0;
    if trace != [] {
      var front, line := trace[..|trace| - 1], trace[|trace| - 1];
      assert trace == front + [line];
      m := SoloRun(p, g, front, i);
      SetAfter(p, g, front, line, i);
      TagsAfter(p, g, front, line, i);
      if Index(g, line.addr) == i && line.op != Other {
        m := SoloStep(p, Run(p, g, front).sets[i], m, line.op, Tag(g, line.addr), |trace|);
      }
    }
  }

  lemma Exponent(d: nat)
    requires IsAPowerOfTwo(d)
    ensures Pow2(FloorLog2(d)) == d
  {
    BitTestIffPow2(d);
    var k: nat :| Pow2(k) == d;
    LogOfPower(k);
  }

  lemma ShrBelow(x: nat, d: nat, e: nat)
    requires IsAPowerOfTwo(d) && x < e * d
    ensures Shr(x, FloorLog2(d)) < e
  {
    Exponent(d);
    ShrBounds(x, FloorLog2(d));
    CancelFactor(Shr(x, FloorLog2(d)), e, d);
  }

  /** Once one block of every set spans the address space, every address has tag 0. */
  lemma OneTag(g: Geometry, addr: int)
    requires Validated(g) && g.sets * g.blockBytes >= U32
    ensures Tag(g, addr) == 0
  {
    ShrBelow(addr % U32, g.blockBytes, g.sets);
    ShrBelow(BlockNumber(g, addr), g.sets, 1);
  }

  lemma {:induction false} ShrOfProduct(q: nat, k: nat)
    ensures Shr(q * Pow2(k), k) == q
  {
    if k > 0 {
      var half := q * Pow2(k - 1);
      assert q * Pow2(k) == 2 * half;
      ShrOfProduct(q, k - 1);
    }
  }

  lemma ShrProduct(q: nat, d: nat)
    requires IsAPowerOfTwo(d)
    ensures Shr(q * d, FloorLog2(d)) == q
  {
    Exponent(d);
    ShrOfProduct(q, FloorLog2(d));
  }

  /** Before that, two addresses share set 0 under different tags. */
  lemma TwoTags(g: Geometry, x: nat)
    requires Validated(g) && x == g.sets * g.blockBytes < U32
    ensures Tag(g, x) == 1 && Index(g, x) == 0 && Tag(g, 0) == 0 && Index(g, 0) == 0
  {
    ShrProduct(g.sets, g.blockBytes);
    ShrProduct(1, g.sets);
    ShrProduct(0, g.blockBytes);
    ShrProduct(0, g.sets);
    SplitOf(g, x, g.sets);
    SplitOf(g, 0, 0);
  }

  lemma RemainderOfSelf(d: nat)
    requires d > 0
    ensures d % d == 0 && 0 % d == 0
  {
    QuotientUnique(d, d, 1);
  }

  lemma SplitOf(g: Geometry, x: nat, block: nat)
    requires Validated(g) && x < U32 && Shr(x, FloorLog2(g.blockBytes)) == block && block in {0, g.sets}
    ensures Tag(g, x) == Shr(block, FloorLog2(g.sets)) && Index(g, x) == 0
  {
    RemainderOfSelf(g.sets);
  }

  // ----- the trace that breaks it

  /** The address `x` shares set 0 with address 0, under tag 1; a set has room for both. */
  ghost predicate Shares(p: Policy, g: Geometry, x: nat) {
    p.lru && Sized(g) && g.slots >= 2 && Tag(g, x) == 1 && Index(g, x) == 0 && Tag(g, 0) == 0 && Index(g, 0) == 0
  }

  /** Tags 0 and 1 in the first two slots, with these stamps. */
  ghost predicate TwoBlocks(s: seq<Slot>, first: nat, second: nat) {
    |s| >= 2 && Packed(s, 2) && s[0].tag == 0 && s[0].accessTs == first && s[1].tag == 1 && s[1].accessTs == second
  }

  /** What the traces below leave in set 0: both blocks, with these stamps, order and times. */
  ghost predicate Holding(p: Policy, g: Geometry, t: seq<Line>, first: nat, second: nat, tags: seq<nat>, now: nat, then_: nat)
    requires Sized(g)
  {
    var last := LastUses(p, g, t, 0);
    && g.slots >= 2 && TwoBlocks(Run(p, g, t).sets[0], first, second)
    && LruTags(p, g.slots, Subtrace(g, t, 0)) == tags && last[0] == now && last[1] == then_
  }

  /** The first block alone, used at time 1. */
  ghost predicate HoldingOne(p: Policy, g: Geometry, t: seq<Line>)
    requires Sized(g)
  {
    var s := Run(p, g, t).sets[0];
    && g.slots >= 2 && Packed(s, 1) && s[0].tag == 0 && s[0].accessTs == 1
    && LruTags(p, g.slots, Subtrace(g, t, 0)) == [0] && LastUses(p, g, t, 0)[0] == 1
  }

  lemma FirstLoad(p: Policy, g: Geometry, x: nat)
    requires Shares(p, g, x)
    ensures HoldingOne(p, g, [Line(Load, 0)])
  {
    var line, s := Line(Load, 0), ColdSet(g.slots);
    assert [] + [line] == [line];
    SetAfter(p, g, [], line, 0);
    TagsAfter(p, g, [], line, 0);
    AfterLine(p, g, [], line, 0);
    FullIffAllValid(s, 0);
    FillShape(s, 0, 0, 1, false);
  }

  lemma SecondInto(p: Policy, s: seq<Slot>, now: nat)
    requires p.lru && |s| >= 2 && Packed(s, 1) && s[0].tag == 0
    ensures Used(p, s, Load, 1) == 1
    ensures TwoBlocks(Access(p, s, Load, 1, now).slots, s[0].accessTs, AsInt(now))
  {
    FullIffAllValid(s, 1);
    FillShape(s, 1, 1, now, false);
  }

  lemma FirstAgain(p: Policy, s: seq<Slot>, first: nat, second: nat, now: nat)
    requires p.lru && TwoBlocks(s, first, second)
    ensures Used(p, s, Load, 0) == 0 && TwoBlocks(Access(p, s, Load, 0, now).slots, now, second)
  {
    assert Holds(s[0], 0);
  }

  /** What the simulator keeps for set 0 after one more load that falls into it. */
  lemma LoadZero(p: Policy, g: Geometry, front: seq<Line>, x: nat, tag: nat)
    requires Sized(g) && Index(g, x) == 0 && Tag(g, x) == tag
    ensures var s, t, now := Run(p, g, front).sets[0], front + [Line(Load, x)], |front| + 1;
      && Run(p, g, t).sets[0] == Access(p, s, Load, tag, now).slots
      && LruTags(p, g.slots, Subtrace(g, t, 0)) == LruStep(LruTags(p, g.slots, Subtrace(g, front, 0)), g.slots, tag, true)
      && LastUses(p, g, t, 0) == UseAfter(LastUses(p, g, front, 0), Used(p, s, Load, tag), now)
  {
    SetAfter(p, g, front, Line(Load, x), 0);
    TagsAfter(p, g, front, Line(Load, x), 0);
    AfterLine(p, g, front, Line(Load, x), 0);
  }

  lemma SecondLoad(p: Policy, g: Geometry, x: nat, front: seq<Line>)
    requires Shares(p, g, x) && HoldingOne(p, g, front)
    ensures Holding(p, g, front + [Line(Load, x)], 1, AsInt(|front| + 1), [1, 0], 1, |front| + 1)
  {
    SecondInto(p, Run(p, g, front).sets[0], |front| + 1);
    LoadZero(p, g, front, x, 1);
    assert LruStep([0], g.slots, 1, true) == [1, 0];
  }

  lemma ThirdLoad(p: Policy, g: Geometry, x: nat, front: seq<Line>, second: nat, then_: nat)
    requires Shares(p, g, x) && Holding(p, g, front, 1, second, [1, 0], 1, then_)
    ensures Holding(p, g, front + [Line(Load, 0)], |front| + 1, second, [0, 1], |front| + 1, then_)
  {
    FirstAgain(p, Run(p, g, front).sets[0], 1, second, |front| + 1);
    LoadZero(p, g, front, 0, 0);
    assert Remove([1, 0], 0) == [1];
  }

  /** A block, `k` idle lines, a second block of the set, `j` idle lines, and the first block again. */
  function ThreeLoads(x: nat, k: nat, j: nat): seq<Line> {
    [Line(Load, 0)] + Idle(k) + [Line(Load, x)] + Idle(j) + [Line(Load, 0)]
  }

  lemma AfterThree(p: Policy, g: Geometry, x: nat, k: nat, j: nat)
    requires Shares(p, g, x)
    ensures Holding(p, g, ThreeLoads(x, k, j), k + j + 3, AsInt(k + 2), [0, 1], k + j + 3, k + 2)
  {
    var one := [Line(Load, 0)];
    FirstLoad(p, g, x);
    IdleKeeps(p, g, one, k, 0);
    SecondLoad(p, g, x, one + Idle(k));
    var two := one + Idle(k) + [Line(Load, x)];
    IdleKeeps(p, g, two, j, 0);
    ThirdLoad(p, g, x, two + Idle(j), AsInt(k + 2), k + 2);
  }

  /** With the second block installed at 2^31, the timestamps no longer follow the order of use. */
  lemma OrderBroken(p: Policy, g: Geometry, x: nat, extra: nat)
    requires Shares(p, g, x)
    ensures var t := ThreeLoads(x, I31 - 2, 0) + Idle(extra); |t| == I31 + 1 + extra && !LruOrdered(p, g, t)
  {
    var three := ThreeLoads(x, I31 - 2, 0);
    AfterThree(p, g, x, I31 - 2, 0);
    BrokenStays(p, g, three, extra);
  }

  lemma BrokenStays(p: Policy, g: Geometry, three: seq<Line>, extra: nat)
    requires Sized(g) && Holding(p, g, three, I31 + 1, AsInt(I31), [0, 1], I31 + 1, I31)
    ensures !LruOrdered(p, g, three + Idle(extra))
  {
    var t := three + Idle(extra);
    IdleKeeps(p, g, three, extra, 0);
    forall m, ord
      ensures !InLruOrder(Run(p, g, t).sets[0], m, ord, [0, 1])
    {
      NotInOrder(Run(p, g, t).sets[0], m, ord);
    }
    assert !SetOrdered(p, g, t, 0);
  }

  lemma NotInOrder(s: seq<Slot>, m: nat, ord: seq<nat>)
    requires Packed(s, 2) && s[0].tag == 0 && s[1].tag == 1 && s[0].accessTs < s[1].accessTs
    ensures !InLruOrder(s, m, ord, [0, 1])
  {
    if Packed(s, m) && Orders(s, true, m, ord) {
      assert s[1].valid && (|s| > 2 ==> !s[2].valid);
      assert m == 2 && Key(true, s[ord[0]]) > Key(true, s[ord[1]]);
      assert Tags(s, ord)[0] == s[ord[0]].tag == 1;
    }
  }

  /**
   * All traces of `lines` lines leave every LRU set in its order of use exactly up to 2^31 lines,
   * unless a set can never hold two blocks.
   */
  lemma LruOrderIff(p: Policy, g: Geometry, lines: nat)
    requires p.lru && Validated(g) && Sized(g)
    ensures (forall t :: |t| == lines ==> LruOrdered(p, g, t)) <==>
      lines <= I31 || g.slots == 1 || g.sets * g.blockBytes >= U32
  {
    if lines <= I31 || g.slots == 1 || g.sets * g.blockBytes >= U32 {
      forall t | |t| == lines
        ensures LruOrdered(p, g, t)
      {
        forall i | 0 <= i < g.sets
          ensures SetOrdered(p, g, t, i)
        {
          SetStaysOrdered(p, g, t, i);
        }
      }
    } else {
      var x := g.sets * g.blockBytes;
      TwoTags(g, x);
      OrderBroken(p, g, x, lines - I31 - 1);
    }
  }

  lemma SetStaysOrdered(p: Policy, g: Geometry, t: seq<Line>, i: nat)
    requires p.lru && Validated(g) && Sized(g) && i < g.sets
    requires |t| <= I31 || g.slots == 1 || g.sets * g.blockBytes >= U32
    ensures SetOrdered(p, g, t, i)
  {
    if |t| <= I31 {
      var m, ord := LruOrder(p, g, t, i);
    } else {
      if g.slots > 1 {
        forall addr
          ensures Tag(g, addr) == 0
        {
          OneTag(g, addr);
        }
      }
      SoloOrdered(p, g, t, i);
    }
  }

  lemma SoloOrdered(p: Policy, g: Geometry, t: seq<Line>, i: nat)
    requires p.lru && Sized(g) && i < g.sets && (g.slots == 1 || forall addr :: Tag(g, addr) == 0)
    ensures SetOrdered(p, g, t, i)
  {
    var m := SoloRun(p, g, t, i);
    var ord := SoloInOrder(Run(p, g, t).sets[i], m);
  }

  lemma SoloInOrder(s: seq<Slot>, m: nat) returns (ord: seq<nat>)
    requires Solo(s, m)
    ensures InLruOrder(s, m, ord, SoloTags(s, m))
  {
    ord := if m == 0 then [] else [0];
  }

  // ----- the block that goes

  ghost predicate Distinct(l: seq<nat>) {
    forall i, j :: 0 <= i < j < |l| ==> l[i] != l[j]
  }

  lemma {:induction false} Spread(l: seq<nat>, low: nat, high: nat)
    requires Distinct(l) && low <= high && forall i :: 0 <= i < |l| ==> low <= l[i] < high
    ensures |l| <= high - low
    decreases high
  {
    if l != [] {
      assert low <= l[0] < high;
      if k :| 0 <= k < |l| && l[k] == high - 1 {
        Spread(l[..k] + l[k + 1..], low, high - 1);
      } else {
        Spread(l, low, high - 1);
      }
    }
  }

  /** The slots of a full set were used at n different times, so the oldest n - 1 lines ago or more. */
  lemma OldestLongAgo(s: seq<Slot>, last: seq<nat>, now: nat, o: nat)
    requires s != [] && IsFull(s) && Timed(s, last, now) && Oldest(last, o)
    ensures last[o] + |s| <= now
  {
    assert forall j :: 0 <= j < |s| ==> s[j].valid;
    Spread(last, last[o], now);
  }

  /** With n slots, every eviction up to line 2^31 + n - 1 takes the least recently used block. */
  lemma OldestEvicted(p: Policy, g: Geometry, t: seq<Line>, i: nat)
    requires p.lru && Sized(g) && i < g.sets && IsFull(Run(p, g, t).sets[i]) && |t| + 2 <= I31 + g.slots
    requires g.slots <= I31
    ensures Oldest(LastUses(p, g, t, i), LruVictim(Run(p, g, t).sets[i]))
  {
    var m := RunTimed(p, g, t, i);
    OldestGoes(Run(p, g, t).sets[i], LastUses(p, g, t, i), |t| + 1);
  }

  lemma OldestGoes(s: seq<Slot>, last: seq<nat>, now: nat)
    requires s != [] && IsFull(s) && Timed(s, last, now) && now < I31 + |s| <= U32
    ensures Oldest(last, LruVictim(s))
  {
    var o := OldestOf(last);
    OldestLongAgo(s, last, now, o);
    assert s[o].valid && s[o].accessTs == last[o];
    LruVictimKeptIff(s, last, now);
  }

  /** The same trace in a cache of two slots: the next miss evicts the block used last. */
  lemma NewestEvicted(p: Policy, g: Geometry, x: nat)
    requires Shares(p, g, x) && g.slots == 2
    ensures var t := ThreeLoads(x, I31 - 2, 0); GoesNext(p, g, t, I31 + 1, I31)
  {
    AfterThree(p, g, x, I31 - 2, 0);
    FirstGoes(p, g, ThreeLoads(x, I31 - 2, 0), AsInt(I31), I31 + 1, I31);
  }

  /** And so it does, with no late install, once slot 0 is used at 2^32. */
  lemma NewestEvictedByCut(p: Policy, g: Geometry, x: nat)
    requires Shares(p, g, x) && g.slots == 2
    ensures var t := ThreeLoads(x, 0, U32 - 3); GoesNext(p, g, t, U32, 2)
  {
    AfterThree(p, g, x, 0, U32 - 3);
    FirstGoes(p, g, ThreeLoads(x, 0, U32 - 3), 2, U32, 2);
  }

  /** Set 0 is full and slot 0 is its victim, used at `now`, when slot 1 was used at `then_`. */
  ghost predicate GoesNext(p: Policy, g: Geometry, t: seq<Line>, now: nat, then_: nat)
    requires Sized(g) && g.slots == 2
  {
    IsFull(Run(p, g, t).sets[0]) && LruVictim(Run(p, g, t).sets[0]) == 0 && LastUses(p, g, t, 0) == [now, then_]
  }

  lemma FirstGoes(p: Policy, g: Geometry, t: seq<Line>, second: nat, now: nat, then_: nat)
    requires Sized(g) && g.slots == 2 && Holding(p, g, t, now, second, [0, 1], now, then_)
    requires now % U32 < second
    ensures GoesNext(p, g, t, now, then_)
  {
    var s := Run(p, g, t).sets[0];
    ScanPicks(s);
    assert Before(s, LruVictim(s), 0) || LruVictim(s) == 0;
  }
}
