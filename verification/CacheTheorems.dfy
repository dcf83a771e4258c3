/** The main results about the cache simulator, for every trace. */
module CacheTheorems {
  import opened CacheSet
  import opened CacheAddress
  import opened CacheOrder
  import opened CacheRuns
  import opened ReplacementLists
  import opened Sums

  // ----- sets do not interfere

  /** The cycles of each set run alone on its own lines. */
  function CyclesOfSets(p: Policy, g: Geometry, trace: seq<Line>): seq<nat>
    requires Sized(g)
  {
    seq(g.sets, i requires 0 <= i < g.sets => SetRun(p, g.slots, Subtrace(g, trace, i)).cycles)
  }

  /** A line moves only the cycles of its own set. */
  lemma CyclesMove(p: Policy, g: Geometry, trace: seq<Line>, line: Line)
    requires Sized(g)
    ensures var i, c := Index(g, line.addr), CyclesOfSets(p, g, trace + [line]);
      c == CyclesOfSets(p, g, trace)[i := c[i]]
  {
    forall k | 0 <= k < g.sets && k != Index(g, line.addr)
      ensures CyclesOfSets(p, g, trace + [line])[k] == CyclesOfSets(p, g, trace)[k]
    {
      OtherSubtrace(g, trace, line, k);
    }
  }

  lemma OtherSubtrace(g: Geometry, trace: seq<Line>, line: Line, i: nat)
    requires Sized(g) && Index(g, line.addr) != i
    ensures Subtrace(g, trace + [line], i) == Subtrace(g, trace, i)
  {
    SubtraceStep(g, trace, line, i);
  }

  lemma SubtraceStep(g: Geometry, trace: seq<Line>, line: Line, i: nat)
    requires Sized(g)
    ensures Subtrace(g, trace + [line], i) ==
      if Index(g, line.addr) == i then Subtrace(g, trace, i) + [Use(line.op, Tag(g, line.addr))] else Subtrace(g, trace, i)
  {
    assert (trace + [line])[..|trace|] == trace;
  }

  lemma SetRunStep(p: Policy, n: nat, uses: seq<Use>, u: Use)
    requires n > 0
    ensures var r := SetRun(p, n, uses);
      var out := Access(p, r.slots, u.op, u.tag, |uses| + 1);
      SetRun(p, n, uses + [u]) == SetState(out.slots, r.cycles + out.cycles, r.hits + [out.hit])
  {
    assert (uses + [u])[..|uses|] == uses;
  }

  /** Set `s` of the cache at time `now` against the one-set cache `t` at its own time. */
  ghost predicate Matches(s: seq<Slot>, now: nat, t: seq<Slot>, then_: nat) {
    && SameButTimes(s, t) && Recent(s, now) && Recent(t, then_)
    && exists m :: Packed(s, m)
  }

  lemma MatchesStep(p: Policy, s: seq<Slot>, now: nat, t: seq<Slot>, then_: nat, op: Op, tag: nat)
    requires s != [] && Matches(s, now, t, then_) && now < I31 && then_ < I31
    ensures var a, b := Access(p, s, op, tag, now), Access(p, t, op, tag, then_);
      Matches(a.slots, now + 1, b.slots, then_ + 1) && a.hit == b.hit && a.cycles == b.cycles
  {
    var m :| Packed(s, m);
    SameAccess(p, s, t, m, op, tag, now, then_);
    var m' := AccessKeeps(p, s, m, op, tag, now);
    var n := SamePacked(s, t, m);
    var n' := AccessKeeps(p, t, n, op, tag, then_);
  }

  lemma SamePacked(s: seq<Slot>, t: seq<Slot>, m: nat) returns (n: nat)
    requires SameButTimes(s, t) && Packed(s, m)
    ensures Packed(t, n)
  {
    n := m;
  }

  /** Set `i` of the cache is, up to the times of use, the one-set cache fed the lines of set `i`. */
  lemma {:induction false} SetsIndependent(p: Policy, g: Geometry, trace: seq<Line>, i: nat)
    requires Sized(g) && i < g.sets && |trace| < I31
    ensures var uses := Subtrace(g, trace, i);
      Matches(Run(p, g, trace).sets[i], |trace| + 1, SetRun(p, g.slots, uses).slots, |uses| + 1)
    decreases |trace|
  {
    if trace == [] {
      assert Packed(Run(p, g, trace).sets[i], 0);
    } else {
      var front, line := trace[..|trace| - 1], trace[|trace| - 1];
      assert trace == front + [line];
      SetsIndependent(p, g, front, i);
      RunStep(p, g, front, line);
      SubtraceStep(g, front, line, i);
      if Index(g, line.addr) == i {
        var uses, u := Subtrace(g, front, i), Use(line.op, Tag(g, line.addr));
        SetRunStep(p, g.slots, uses, u);
        MatchesStep(p, Run(p, g, front).sets[i], |trace|, SetRun(p, g.slots, uses).slots, |uses| + 1, u.op, u.tag);
      }
    }
  }

  lemma LineCost(p: Policy, g: Geometry, trace: seq<Line>, line: Line)
    requires Sized(g)
    ensures Run(p, g, trace + [line]).cycles == Run(p, g, trace).cycles
      + Access(p, Run(p, g, trace).sets[Index(g, line.addr)], line.op, Tag(g, line.addr), |trace| + 1).cycles
  {
    RunStep(p, g, trace, line);
  }

  lemma UseCost(p: Policy, n: nat, uses: seq<Use>, u: Use)
    requires n > 0
    ensures var a, b := SetRun(p, n, uses), SetRun(p, n, uses + [u]);
      var out := Access(p, a.slots, u.op, u.tag, |uses| + 1);
      b.cycles == a.cycles + out.cycles && |b.hits| > 0 && b.hits[|b.hits| - 1] == out.hit
  {
    SetRunStep(p, n, uses, u);
  }

  /** A line costs what the corresponding use of the one-set cache costs, and hits when it does. */
  lemma LineAndUse(p: Policy, g: Geometry, trace: seq<Line>, line: Line)
    requires Sized(g) && |trace| + 1 < I31
    ensures var i := Index(g, line.addr);
      var a, b := SetRun(p, g.slots, Subtrace(g, trace, i)), SetRun(p, g.slots, Subtrace(g, trace + [line], i));
      && |b.hits| > 0
      && Run(p, g, trace + [line]).cycles - Run(p, g, trace).cycles == b.cycles - a.cycles
      && b.hits[|b.hits| - 1] == Access(p, Run(p, g, trace).sets[i], line.op, Tag(g, line.addr), |trace| + 1).hit
  {
    var i, tag := Index(g, line.addr), Tag(g, line.addr);
    var uses := Subtrace(g, trace, i);
    LineCost(p, g, trace, line);
    SubtraceStep(g, trace, line, i);
    UseCost(p, g.slots, uses, Use(line.op, tag));
    SetsIndependent(p, g, trace, i);
    MatchesStep(p, Run(p, g, trace).sets[i], |trace| + 1, SetRun(p, g.slots, uses).slots, |uses| + 1, line.op, tag);
  }

  /** The hit or miss of each line is the one the one-set cache of its set reports. */
  lemma HitsIndependent(p: Policy, g: Geometry, trace: seq<Line>, line: Line)
    requires Sized(g) && |trace| + 1 < I31 && line.op != Other
    ensures var r := SetRun(p, g.slots, Subtrace(g, trace + [line], Index(g, line.addr)));
      |r.hits| > 0 && (Hits(p, g, trace, line) <==> r.hits[|r.hits| - 1])
  {
    LineAndUse(p, g, trace, line);
  }

  /** The cycles of the cache are the sum of the cycles of its sets run alone. */
  lemma {:induction false} CyclesAreSum(p: Policy, g: Geometry, trace: seq<Line>)
    requires Sized(g) && |trace| < I31
    ensures Run(p, g, trace).cycles == Sum(CyclesOfSets(p, g, trace))
    decreases |trace|
  {
    if trace == [] {
      SumOfZeros(CyclesOfSets(p, g, trace));
    } else {
      var front, line := trace[..|trace| - 1], trace[|trace| - 1];
      assert trace == front + [line];
      CyclesAreSum(p, g, front);
      CyclesStep(p, g, front, line);
    }
  }

  lemma CyclesStep(p: Policy, g: Geometry, front: seq<Line>, line: Line)
    requires Sized(g) && |front| + 1 < I31 && Run(p, g, front).cycles == Sum(CyclesOfSets(p, g, front))
    ensures Run(p, g, front + [line]).cycles == Sum(CyclesOfSets(p, g, front + [line]))
  {
    var i := Index(g, line.addr);
    LineAndUse(p, g, front, line);
    CyclesMove(p, g, front, line);
    SumUpdate(CyclesOfSets(p, g, front), i, CyclesOfSets(p, g, front + [line])[i]);
  }

  // ----- the replacement lists of whole runs

  /** The tags of an LRU set after `uses`, most recently used first. */
  function LruTags(p: Policy, n: nat, uses: seq<Use>): seq<nat>
    decreases |uses|
  {
    if uses == [] then []
    else
      var l, u := LruTags(p, n, uses[..|uses| - 1]), uses[|uses| - 1];
      if u.op == Other then l else LruStep(l, n, u.tag, Allocates(p, u.op))
  }

  /** The tags of a FIFO set after `uses`, oldest first. */
  function FifoTags(p: Policy, n: nat, uses: seq<Use>): seq<nat>
    decreases |uses|
  {
    if uses == [] then []
    else
      var q, u := FifoTags(p, n, uses[..|uses| - 1]), uses[|uses| - 1];
      if u.op == Other then q else FifoStep(q, n, u.tag, Allocates(p, u.op))
  }

  /** `ord` lists the valid slots of `s` by decreasing access_ts, and they hold the tags `l`. */
  ghost predicate InLruOrder(s: seq<Slot>, m: nat, ord: seq<nat>, l: seq<nat>) {
    Packed(s, m) && Orders(s, true, m, ord) && Tags(s, ord) == l
  }

  /**
   * On every trace of at most 2^31 lines, listing the valid slots of an LRU set by decreasing
   * access_ts gives the move-to-front list of the lines of that set.
   */
  lemma {:induction false} LruOrder(p: Policy, g: Geometry, trace: seq<Line>, i: nat) returns (m: nat, ord: seq<nat>)
    requires p.lru && Sized(g) && i < g.sets && |trace| <= I31
    ensures InLruOrder(Run(p, g, trace).sets[i], m, ord, LruTags(p, g.slots, Subtrace(g, trace, i)))
    ensures |trace| < I31 ==> Recent(Run(p, g, trace).sets[i], |trace| + 1)
    decreases |trace|
  {
    if trace == [] {
      m, ord := 0, [];
    } else {
      var front, line := trace[..|trace| - 1], trace[|trace| - 1];
      assert trace == front + [line];
      m, ord := LruOrder(p, g, front, i);
      SetAfter(p, g, front, line, i);
      if Index(g, line.addr) == i && line.op != Other {
        m, ord := LruRefines(p, Run(p, g, front).sets[i], m, ord, line.op, Tag(g, line.addr), |trace|);
      }
      TagsAfter(p, g, front, line, i);
    }
  }

  lemma SetAfter(p: Policy, g: Geometry, front: seq<Line>, line: Line, i: nat)
    requires Sized(g) && i < g.sets
    ensures var s := Run(p, g, front).sets[i];
      Run(p, g, front + [line]).sets[i] ==
      if Index(g, line.addr) == i then Access(p, s, line.op, Tag(g, line.addr), |front| + 1).slots else s
  {
    RunStep(p, g, front, line);
  }

  /** Only a load or store in set `i` moves its lists. */
  lemma TagsAfter(p: Policy, g: Geometry, front: seq<Line>, line: Line, i: nat)
    requires Sized(g)
    ensures var l, q := LruTags(p, g.slots, Subtrace(g, front, i)), FifoTags(p, g.slots, Subtrace(g, front, i));
      var moved, tag, allocate := Index(g, line.addr) == i && line.op != Other, Tag(g, line.addr), Allocates(p, line.op);
      && LruTags(p, g.slots, Subtrace(g, front + [line], i)) == (if moved then LruStep(l, g.slots, tag, allocate) else l)
      && FifoTags(p, g.slots, Subtrace(g, front + [line], i)) == (if moved then FifoStep(q, g.slots, tag, allocate) else q)
  {
    SubtraceStep(g, front, line, i);
    var uses, u := Subtrace(g, front, i), Use(line.op, Tag(g, line.addr));
    assert (uses + [u])[..|uses|] == uses;
  }

  lemma {:induction false} FifoRun(p: Policy, g: Geometry, trace: seq<Line>, i: nat) returns (m: nat, c: nat)
    requires !p.lru && Sized(g) && i < g.sets
    ensures var s := Run(p, g, trace).sets[i];
      Packed(s, m) && FifoRanked(s, m, c) && Tags(s, FifoOrder(g.slots, m, c)) == FifoTags(p, g.slots, Subtrace(g, trace, i))
    decreases |trace|
  {
    if trace == [] {
      m, c := 0, 0;
    } else {
      var front, line := trace[..|trace| - 1], trace[|trace| - 1];
      assert trace == front + [line];
      m, c := FifoRun(p, g, front, i);
      SetAfter(p, g, front, line, i);
      if Index(g, line.addr) == i && line.op != Other {
        m, c := FifoRefines(p, Run(p, g, front).sets[i], m, c, line.op, Tag(g, line.addr), |trace|);
      }
      TagsAfter(p, g, front, line, i);
    }
  }

  /**
   * On every trace, the load_ts of a FIFO set that holds a block are a permutation of 0..n-1, and
   * listing its valid slots by decreasing load_ts gives the bounded queue of the lines of that set.
   */
  lemma FifoQueue(p: Policy, g: Geometry, trace: seq<Line>, i: nat) returns (m: nat, ord: seq<nat>)
    requires !p.lru && Sized(g) && i < g.sets
    ensures var s := Run(p, g, trace).sets[i];
      && Packed(s, m) && Orders(s, false, m, ord)
      && Tags(s, ord) == FifoTags(p, g.slots, Subtrace(g, trace, i))
      && (m > 0 ==> forall r :: 0 <= r < |s| ==> HasRank(s, r))
      && (m > 0 ==> forall j, k :: 0 <= j < k < |s| ==> s[j].loadTs != s[k].loadTs)
  {
    var c;
    m, c := FifoRun(p, g, trace, i);
    ord := FifoOrder(g.slots, m, c);
    var s := Run(p, g, trace).sets[i];
    FifoOrders(s, m, c);
    if m > 0 {
      RanksArePermutation(s, m, c);
    }
  }

  // ----- inclusion

  lemma {:induction false} LruTagsIncluded(p: Policy, n: nat, m: nat, uses: seq<Use>)
    requires 1 <= n <= m
    ensures Included(LruTags(p, n, uses), n, LruTags(p, m, uses), m)
    decreases |uses|
  {
    if uses != [] {
      var front, u := uses[..|uses| - 1], uses[|uses| - 1];
      LruTagsIncluded(p, n, m, front);
      LruInclusionStep(LruTags(p, n, front), n, LruTags(p, m, front), m, u.tag, Allocates(p, u.op));
    }
  }

  lemma SameSubtrace(g: Geometry, h: Geometry, trace: seq<Line>, i: nat)
    requires Sized(g) && Sized(h) && g.sets == h.sets && g.blockBytes == h.blockBytes
    ensures Subtrace(g, trace, i) == Subtrace(h, trace, i)
    decreases |trace|
  {
    if trace != [] {
      SameSubtrace(g, h, trace[..|trace| - 1], i);
    }
  }

  lemma InTags(s: seq<Slot>, lru: bool, m: nat, ord: seq<nat>, tag: nat)
    requires Packed(s, m) && Orders(s, lru, m, ord)
    ensures Contains(s, tag) <==> tag in Tags(s, ord)
  {
    var _ := FindInTags(s, lru, m, ord, tag);
  }

  /** At every step, each set of an LRU cache with more slots holds all tags of the smaller one's. */
  lemma LruInclusion(p: Policy, g: Geometry, h: Geometry, trace: seq<Line>, i: nat, tag: nat)
    requires p.lru && Sized(g) && Sized(h) && |trace| <= I31 && i < g.sets
    requires g.sets == h.sets && g.blockBytes == h.blockBytes && g.slots <= h.slots
    requires Contains(Run(p, g, trace).sets[i], tag)
    ensures Contains(Run(p, h, trace).sets[i], tag)
  {
    var m, a := LruOrder(p, g, trace, i);
    var n, b := LruOrder(p, h, trace, i);
    SameSubtrace(g, h, trace, i);
    var uses := Subtrace(g, trace, i);
    LruTagsIncluded(p, g.slots, h.slots, uses);
    InTags(Run(p, g, trace).sets[i], true, m, a, tag);
    InTags(Run(p, h, trace).sets[i], true, n, b, tag);
    SubsequenceMember(LruTags(p, g.slots, uses), LruTags(p, h.slots, uses), tag);
  }

  /** So every hit of the smaller cache is a hit of the larger. */
  lemma LruHitsIncluded(p: Policy, g: Geometry, h: Geometry, trace: seq<Line>, line: Line)
    requires p.lru && Sized(g) && Sized(h) && |trace| <= I31
    requires g.sets == h.sets && g.blockBytes == h.blockBytes && g.slots <= h.slots
    ensures Hits(p, g, trace, line) ==> Hits(p, h, trace, line)
  {
    SameSplit(g, h, line.addr);
    if Hits(p, g, trace, line) {
      LruInclusion(p, g, h, trace, Index(g, line.addr), Tag(g, line.addr));
    }
  }

  /** And the hit counters of the smaller stay behind. */
  lemma {:induction false} LruMoreSlotsMoreHits(p: Policy, g: Geometry, h: Geometry, trace: seq<Line>)
    requires p.lru && Sized(g) && Sized(h) && |trace| <= I31
    requires g.sets == h.sets && g.blockBytes == h.blockBytes && g.slots <= h.slots
    ensures Behind(Run(p, g, trace).tally, Run(p, h, trace).tally)
    decreases |trace|
  {
    if trace != [] {
      var front, line := trace[..|trace| - 1], trace[|trace| - 1];
      assert trace == front + [line];
      LruMoreSlotsMoreHits(p, g, h, front);
      CountedByHits(p, g, front, line);
      CountedByHits(p, h, front, line);
      LruHitsIncluded(p, g, h, front, line);
    }
  }

  /** The same loads and stores, and no more of them hits. */
  predicate Behind(a: Tally, b: Tally) {
    a.loads == b.loads && a.stores == b.stores && a.loadHits <= b.loadHits && a.storeHits <= b.storeHits
  }

  lemma SameSplit(g: Geometry, h: Geometry, addr: int)
    requires Sized(g) && Sized(h) && g.sets == h.sets && g.blockBytes == h.blockBytes
    ensures Index(g, addr) == Index(h, addr) && Tag(g, addr) == Tag(h, addr)
  {
  }

  lemma CountedByHits(p: Policy, g: Geometry, trace: seq<Line>, line: Line)
    requires Sized(g)
    ensures Run(p, g, trace + [line]).tally == Count(Run(p, g, trace).tally, line.op, Hits(p, g, trace, line))
  {
    RunStep(p, g, trace, line);
  }

  // ----- the counters

  /** The lines of the trace with this letter. */
  function OpsAt(trace: seq<Line>, op: Op): set<nat> {
    set j: nat | j < |trace| && trace[j].op == op
  }

  /** Those that find their block in the cache as the lines before left it. */
  function HitsAt(p: Policy, g: Geometry, trace: seq<Line>, op: Op): set<nat>
    requires Sized(g)
  {
    set j: nat | j < |trace| && trace[j].op == op && Hits(p, g, trace[..j], trace[j])
  }

  lemma OneMoreLine(p: Policy, g: Geometry, front: seq<Line>, line: Line, op: Op)
    requires Sized(g)
    ensures OpsAt(front + [line], op) == OpsAt(front, op) + if line.op == op then {|front|} else {}
    ensures HitsAt(p, g, front + [line], op) ==
      HitsAt(p, g, front, op) + if line.op == op && Hits(p, g, front, line) then {|front|} else {}
  {
    var trace := front + [line];
    forall j: nat | j < |front|
      ensures trace[..j] == front[..j] && trace[j] == front[j]
    {
    }
    assert trace[..|front|] == front && trace[|front|] == line;
  }

  /** On every trace. */
  lemma {:induction false} CountersCount(p: Policy, g: Geometry, trace: seq<Line>)
    requires Sized(g)
    ensures Counted(p, g, trace, Run(p, g, trace).tally)
    decreases |trace|
  {
    if trace != [] {
      var front, line := trace[..|trace| - 1], trace[|trace| - 1];
      assert trace == front + [line];
      CountersCount(p, g, front);
      CountersStep(p, g, front, line);
    } else {
      assert OpsAt([], Load) == {} == OpsAt([], Store) && HitsAt(p, g, [], Load) == {} == HitsAt(p, g, [], Store);
    }
  }

  /**
   * Each counter counts what it is named for: loads and stores the lines with that letter, hits
   * those that find their block, misses the others.
   */
  ghost predicate Counted(p: Policy, g: Geometry, trace: seq<Line>, t: Tally)
    requires Sized(g)
  {
    && t.loads == |OpsAt(trace, Load)| && t.stores == |OpsAt(trace, Store)|
    && t.loadHits == |HitsAt(p, g, trace, Load)| && t.storeHits == |HitsAt(p, g, trace, Store)|
    && t.loadHits + t.loadMisses == t.loads && t.storeHits + t.storeMisses == t.stores
  }

  lemma CountersStep(p: Policy, g: Geometry, front: seq<Line>, line: Line)
    requires Sized(g) && Counted(p, g, front, Run(p, g, front).tally)
    ensures Counted(p, g, front + [line], Run(p, g, front + [line]).tally)
  {
    CountedByHits(p, g, front, line);
    OneMoreCount(p, g, front, line, Load);
    OneMoreCount(p, g, front, line, Store);
    CountMoves(Run(p, g, front).tally, line.op, Hits(p, g, front, line));
  }

  lemma OneMoreCount(p: Policy, g: Geometry, front: seq<Line>, line: Line, op: Op)
    requires Sized(g)
    ensures |OpsAt(front + [line], op)| == |OpsAt(front, op)| + if line.op == op then 1 else 0
    ensures |HitsAt(p, g, front + [line], op)| ==
      |HitsAt(p, g, front, op)| + if line.op == op && Hits(p, g, front, line) then 1 else 0
  {
    OneMoreLine(p, g, front, line, op);
  }

  lemma CountMoves(t: Tally, op: Op, hit: bool)
    ensures var u := Count(t, op, hit);
      && u.loads == t.loads + (if op == Load then 1 else 0) && u.stores == t.stores + (if op == Store then 1 else 0)
      && u.loadHits == t.loadHits + (if op == Load && hit then 1 else 0)
      && u.storeHits == t.storeHits + (if op == Store && hit then 1 else 0)
      && u.loadMisses == t.loadMisses + (if op == Load && !hit then 1 else 0)
      && u.storeMisses == t.storeMisses + (if op == Store && !hit then 1 else 0)
  {
  }
}
