/** One set of the cache simulator as a value: what each operation makes of its slots. */
module CacheSet {

  datatype Slot = Slot(tag: nat, accessTs: nat, loadTs: nat, dirty: bool, valid: bool)

  /** A line of the trace starts with 'l', 's' or some other letter. */
  datatype Op = Load | Store | Other

  /** `blockCost` is the simulator's byte_size_calculation. */
  datatype Policy = Policy(lru: bool, writeThrough: bool, writeAllocate: bool, blockCost: nat)

  /** The set after an access, whether it hit, and the cycles it cost. */
  datatype Outcome = Outcome(slots: seq<Slot>, hit: bool, cycles: nat)

  /** The slots of a set when the simulator starts. */
  const COLD: Slot := Slot(0, 0, 0, false, false)

  // ----- integer widths

  const U32: nat := 0x1_0000_0000
  const I31: nat := 0x8000_0000

  /** A uint64_t passed as an `int` and stored in an unsigned long. */
  function AsInt(ts: nat): nat {
    var low := ts % U32;
    if low < I31 then low else low + 0xffff_ffff_0000_0000
  }

  /** It is the 64-bit pattern of the `int` that has the low 32 bits of `ts`. */
  lemma AsIntSignExtends(ts: nat) returns (v: int)
    ensures -0x8000_0000 <= v < 0x8000_0000 && v % U32 == ts % U32 && AsInt(ts) == v % 0x1_0000_0000_0000_0000
  {
    var low := ts % U32;
    v := if low < I31 then low else low - U32;
    assert low == ts - ts / U32 * U32;
    assert (low - U32) % U32 == low;
  }

  // ----- looking at a set

  predicate IsFull(s: seq<Slot>) {
    forall i :: 0 <= i < |s| ==> s[i].valid
  }

  predicate IsEmpty(s: seq<Slot>) {
    forall i :: 0 <= i < |s| ==> !s[i].valid
  }

  predicate Holds(slot: Slot, tag: nat) {
    slot.valid && slot.tag == tag
  }

  /** The first slot from `i` on that holds `tag`, or |s|. */
  function FindFrom(s: seq<Slot>, tag: nat, i: nat): (k: nat)
    requires i <= |s|
    ensures i <= k <= |s|
    ensures k < |s| ==> Holds(s[k], tag)
    ensures forall j :: i <= j < k ==> !Holds(s[j], tag)
    decreases |s| - i
  {
    if i == |s| || Holds(s[i], tag) then i else FindFrom(s, tag, i + 1)
  }

  function Find(s: seq<Slot>, tag: nat): (k: nat)
    ensures k <= |s|
    ensures k < |s| ==> Holds(s[k], tag)
    ensures forall j :: 0 <= j < k ==> !Holds(s[j], tag)
  {
    FindFrom(s, tag, 0)
  }

  predicate Contains(s: seq<Slot>, tag: nat) {
    Find(s, tag) < |s|
  }

  /** The first invalid slot from `i` on, or |s|. */
  function FreeFrom(s: seq<Slot>, i: nat): (k: nat)
    requires i <= |s|
    ensures i <= k <= |s|
    ensures k < |s| ==> !s[k].valid
    ensures forall j :: i <= j < k ==> s[j].valid
    decreases |s| - i
  {
    if i == |s| || !s[i].valid then i else FreeFrom(s, i + 1)
  }

  function FirstFree(s: seq<Slot>): (k: nat)
    ensures k <= |s|
    ensures k < |s| ==> !s[k].valid
    ensures forall j :: 0 <= j < k ==> s[j].valid
  {
    FreeFrom(s, 0)
  }

  // ----- filling and evicting

  /** Rank of slot `i` once a fill into slot `k` has been ranked. */
  function FillRank(s: seq<Slot>, k: nat, i: nat): nat
    requires i < |s|
  {
    if IsEmpty(s) then |s| - 1 - i
    else if i == k then 0
    else if |s| > 1 && !s[1].valid && s[0].valid then
      if s[i].loadTs == |s| - 1 then 1 else s[i].loadTs + 2
    else s[i].loadTs + 1
  }

  /** update_load_ts in a set that still has an invalid slot. */
  function UpdateLoadTs(s: seq<Slot>): seq<Slot> {
    var k := FirstFree(s);
    seq(|s|, i requires 0 <= i < |s| => s[i].(loadTs := FillRank(s, k, i)))
  }

  function Installed(slot: Slot, tag: nat, now: nat, dirty: bool): Slot {
    slot.(tag := tag, accessTs := AsInt(now), dirty := dirty, valid := true)
  }

  /** write_through: the block goes into the first invalid slot. */
  function WriteThrough(s: seq<Slot>, tag: nat, now: nat, dirty: bool): seq<Slot> {
    var k := FirstFree(s);
    if k == |s| then s else s[k := Installed(s[k], tag, now, dirty)]
  }

  function Fill(s: seq<Slot>, tag: nat, now: nat, dirty: bool): seq<Slot>
  {
    WriteThrough(UpdateLoadTs(s), tag, now, dirty)
  }

  /** The LRU scan from slot `i` on; `min` is a uint32_t. */
  function LruScan(s: seq<Slot>, i: nat, min: nat, index: nat): (k: nat)
    requires i <= |s| && index < |s|
    ensures k < |s|
    decreases |s| - i
  {
    if i == |s| then index
    else if min >= s[i].accessTs then LruScan(s, i + 1, s[i].accessTs % U32, i)
    else LruScan(s, i + 1, min, index)
  }

  function LruVictim(s: seq<Slot>): (k: nat)
    requires s != []
    ensures k < |s|
  {
    LruScan(s, 1, s[0].accessTs % U32, 0)
  }

  /** The first slot from `i` on with the highest rank, or slot 0. */
  function FifoScan(s: seq<Slot>, i: nat): (k: nat)
    requires i <= |s| && s != []
    ensures k < |s|
    ensures (exists j :: i <= j < |s| && s[j].loadTs == |s| - 1) ==> i <= k && s[k].loadTs == |s| - 1
    decreases |s| - i
  {
    if i == |s| then 0
    else if s[i].loadTs == |s| - 1 then i
    else FifoScan(s, i + 1)
  }

  function FifoVictim(s: seq<Slot>): (k: nat)
    requires s != []
    ensures k < |s|
  {
    FifoScan(s, 0)
  }

  function Victim(p: Policy, s: seq<Slot>): (k: nat)
    requires s != []
    ensures k < |s|
  {
    if p.lru then LruVictim(s) else FifoVictim(s)
  }

  function Evict(p: Policy, s: seq<Slot>, tag: nat, now: nat): seq<Slot>
    requires s != []
  {
    var v := Victim(p, s);
    var t := s[v := Installed(s[v], tag, now, false)];
    if p.lru then t
    else seq(|s|, i requires 0 <= i < |s| => t[i].(loadTs := if i == v then 0 else s[i].loadTs + 1))
  }

  // ----- one access

  function Miss(p: Policy, s: seq<Slot>, tag: nat, now: nat, dirty: bool, extra: nat): (o: Outcome)
    requires s != []
    ensures |o.slots| == |s|
  {
    if IsFull(s) then
      var writeBack := if s[Victim(p, s)].dirty then p.blockCost else 0;
      Outcome(Evict(p, s, tag, now), false, writeBack + p.blockCost)
    else
      Outcome(Fill(s, tag, now, dirty), false, p.blockCost + extra)
  }

  function LoadAccess(p: Policy, s: seq<Slot>, tag: nat, now: nat): (o: Outcome)
    requires s != []
    ensures |o.slots| == |s|
  {
    var k := Find(s, tag);
    if k < |s| then Outcome(s[k := s[k].(accessTs := now)], true, 1)
    else Miss(p, s, tag, now, false, 0)
  }

  function StoreAccess(p: Policy, s: seq<Slot>, tag: nat, now: nat): (o: Outcome)
    requires s != []
    ensures |o.slots| == |s|
  {
    var k := Find(s, tag);
    if k < |s| then
      Outcome(s[k := s[k].(accessTs := now, dirty := !p.writeThrough)], true, if p.writeThrough then 101 else 1)
    else if p.writeAllocate then
      Miss(p, s, tag, now, !p.writeThrough, if p.writeThrough then 100 else 0)
    else
      Outcome(s, false, 100)
  }

  function Access(p: Policy, s: seq<Slot>, op: Op, tag: nat, now: nat): (o: Outcome)
    requires s != []
    ensures |o.slots| == |s|
  {
    match op
    case Load => LoadAccess(p, s, tag, now)
    case Store => StoreAccess(p, s, tag, now)
    case Other => Outcome(s, false, 0)
  }
}
