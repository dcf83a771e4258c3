/** The simulator as the program runs it: slots, counters and cycles updated in place. */
module CacheMachine {
  import opened CacheSet
  import opened CacheAddress
  import opened CacheRuns

  class Cache {
    const numSets: nat
    const numSlots: nat
    const byteSizeCalculation: nat
    var totalCycles: nat
    var sets: seq<seq<Slot>>

    ghost predicate Ready()
      reads this
    {
      && numSets > 0 && numSlots > 0 && |sets| == numSets
      && forall i :: 0 <= i < |sets| ==> |sets[i]| == numSlots
    }

    constructor (numberOfSets: nat, blocksInSet: nat, bytesPerBlock: nat)
      requires numberOfSets > 0 && blocksInSet > 0
      ensures Ready() && numSets == numberOfSets && numSlots == blocksInSet
      ensures byteSizeCalculation == 100 * (bytesPerBlock / 4)
      ensures totalCycles == 0 && sets == seq(numberOfSets, (i: nat) => ColdSet(blocksInSet))
    {
      numSets, numSlots, totalCycles := numberOfSets, blocksInSet, 0;
      byteSizeCalculation := 100 * (bytesPerBlock / 4);
      var all: seq<seq<Slot>> := [];
      for i := 0 to numberOfSets
        invariant |all| == i && forall j :: 0 <= j < i ==> all[j] == ColdSet(blocksInSet)
      {
        var one: seq<Slot> := [];
        for j := 0 to blocksInSet
          invariant |one| == j && forall l :: 0 <= l < j ==> one[l] == COLD
        {
          one := one + [Slot(0, 0, 0, false, false)];
        }
        assert one == ColdSet(blocksInSet);
        all := all + [one];
      }
      sets := all;
    }

    /** The slot that holds `tag`; numSlots stands for NULL. */
    method SlotExists(index: nat, tag: nat) returns (k: nat)
      requires Ready() && index < numSets
      ensures k == Find(sets[index], tag)
    {
      var slots := sets[index];
      for i := 0 to |slots|
        invariant Find(slots, tag) == FindFrom(slots, tag, i)
      {
        if slots[i].valid && slots[i].tag == tag {
          return i;
        }
      }
      return |slots|;
    }

    method IsCacheFull(index: nat) returns (full: bool)
      requires Ready() && index < numSets
      ensures full == IsFull(sets[index])
    {
      var currentSet := sets[index];
      for i := 0 to |currentSet|
        invariant forall j :: 0 <= j < i ==> currentSet[j].valid
      {
        if !currentSet[i].valid {
          return false;
        }
      }
      return true;
    }

    method IsCacheEmpty(index: nat) returns (empty: bool)
      requires Ready() && index < numSets
      ensures empty == IsEmpty(sets[index])
    {
      var currentSet := sets[index];
      for i := 0 to |currentSet|
        invariant forall j :: 0 <= j < i ==> !currentSet[j].valid
      {
        if currentSet[i].valid {
          return false;
        }
      }
      return true;
    }

    method FirstInvalid(index: nat) returns (k: nat)
      requires Ready() && index < numSets
      ensures k == FirstFree(sets[index])
    {
      var slots := sets[index];
      for i := 0 to |slots|
        invariant FirstFree(slots) == FreeFrom(slots, i)
      {
        if !slots[i].valid {
          return i;
        }
      }
      return |slots|;
    }

    method SetLoadTs(index: nat, i: nat, ts: nat)
      requires Ready() && index < numSets && i < numSlots
      modifies `sets
      ensures Ready() && sets == old(sets)[index := old(sets[index])[i := old(sets[index][i]).(loadTs := ts)]]
    {
      sets := sets[index := sets[index][i := sets[index][i].(loadTs := ts)]];
    }

    /** Reads slot 1 only when the set is neither full nor empty, so never when a set has one slot. */
    method RankForFill(index: nat)
      requires Ready() && index < numSets && !IsFull(sets[index])
      modifies `sets
      ensures Ready() && sets == old(sets)[index := UpdateLoadTs(old(sets[index]))]
    {
      ghost var was := sets[index];
      var k := FirstInvalid(index);
      var empty := IsCacheEmpty(index);
      var second := !empty && !sets[index][1].valid && sets[index][0].valid;
      for i := 0 to numSlots
        invariant Ready() && sets == old(sets)[index := sets[index]]
        invariant forall j :: 0 <= j < numSlots ==>
          sets[index][j] == if j < i then was[j].(loadTs := FillRank(was, k, j)) else was[j]
      {
        if empty {
          SetLoadTs(index, i, numSlots - 1 - i);
        } else if i == k {
          SetLoadTs(index, i, 0);
        } else if !second {
          SetLoadTs(index, i, sets[index][i].loadTs + 1);
        } else if sets[index][i].loadTs == numSlots - 1 {
          SetLoadTs(index, i, 1);
        } else {
          SetLoadTs(index, i, sets[index][i].loadTs + 2);
        }
      }
      assert sets[index] == UpdateLoadTs(was);
    }

    method FindLru(index: nat) returns (victim: nat)
      requires Ready() && index < numSets
      ensures victim == LruVictim(sets[index])
    {
      var currentSet := sets[index];
      var min: nat := currentSet[0].accessTs % U32;
      victim := 0;
      for i := 1 to |currentSet|
        invariant victim < |currentSet|
        invariant LruVictim(currentSet) == LruScan(currentSet, i, min, victim)
      {
        if min >= currentSet[i].accessTs {
          min, victim := currentSet[i].accessTs % U32, i;
        }
      }
    }

    method FindFifo(index: nat) returns (victim: nat)
      requires Ready() && index < numSets
      ensures victim == FifoVictim(sets[index])
    {
      var currentSet := sets[index];
      for i := 0 to |currentSet|
        invariant FifoVictim(currentSet) == FifoScan(currentSet, i)
      {
        if currentSet[i].loadTs == |currentSet| - 1 {
          return i;
        }
      }
      return 0;
    }

    method EvictionFunction(index: nat, tag: nat, timestamp: nat, p: Policy)
      requires Ready() && index < numSets
      modifies `sets, `totalCycles
      ensures Ready() && sets == old(sets)[index := Evict(p, old(sets[index]), tag, timestamp)]
      ensures totalCycles == old(totalCycles) +
        if old(sets[index])[Victim(p, old(sets[index]))].dirty then byteSizeCalculation else 0
    {
      ghost var was := sets[index];
      var victim: nat;
      if p.lru {
        victim := FindLru(index);
      } else {
        victim := FindFifo(index);
      }
      if sets[index][victim].dirty {
        totalCycles := totalCycles + byteSizeCalculation;
      }
      var slot := sets[index][victim].(tag := tag, accessTs := AsInt(timestamp), dirty := false, valid := true);
      sets := sets[index := sets[index][victim := slot]];
      if !p.lru {
        SetLoadTs(index, victim, 0);
        AgeOthers(index, victim);
        assert sets[index] == Evict(p, was, tag, timestamp);
      }
    }

    /** Every block but the newest one gets a rank older. */
    method AgeOthers(index: nat, newest: nat)
      requires Ready() && index < numSets && newest < numSlots
      modifies `sets
      ensures Ready() && sets == old(sets)[index := sets[index]]
      ensures forall j :: 0 <= j < numSlots ==>
        sets[index][j] == old(sets[index])[j].(loadTs := old(sets[index])[j].loadTs + if j == newest then 0 else 1)
    {
      ghost var was := sets[index];
      for i := 0 to numSlots
        invariant Ready() && sets == old(sets)[index := sets[index]]
        invariant forall j :: 0 <= j < numSlots ==>
          sets[index][j] == was[j].(loadTs := was[j].loadTs + if j < i && j != newest then 1 else 0)
      {
        if i != newest {
          SetLoadTs(index, i, sets[index][i].loadTs + 1);
        }
      }
    }

    method WriteThrough(index: nat, tag: nat, timestamp: nat, dirty: bool)
      requires Ready() && index < numSets
      modifies `sets
      ensures Ready() && sets == old(sets)[index := CacheSet.WriteThrough(old(sets[index]), tag, timestamp, dirty)]
    {
      var k := FirstInvalid(index);
      if k < numSlots {
        var slot := sets[index][k].(tag := tag, accessTs := AsInt(timestamp), dirty := dirty, valid := true);
        sets := sets[index := sets[index][k := slot]];
      } else {
        assert sets == sets[index := sets[index]];
      }
    }
  }

  class Simulator {
    const cache: Cache
    const policy: Policy
    const geometry: Geometry
    var tally: Tally
    var cacheTimestamp: nat

    ghost predicate Ready()
      reads this, cache
    {
      && Sized(geometry) && cache.Ready()
      && cache.numSets == geometry.sets && cache.numSlots == geometry.slots
      && cache.byteSizeCalculation == policy.blockCost
    }

    ghost function State(): Sim
      reads this, cache
    {
      Sim(cache.sets, cache.totalCycles, tally)
    }

    constructor (g: Geometry, lru: bool, writeThrough: bool, writeAllocate: bool)
      requires Sized(g)
      ensures Ready() && fresh(cache) && geometry == g && cacheTimestamp == 1 && State() == Cold(g)
      ensures policy == Policy(lru, writeThrough, writeAllocate, 100 * (g.blockBytes / 4))
    {
      geometry := g;
      policy := Policy(lru, writeThrough, writeAllocate, 100 * (g.blockBytes / 4));
      cache := new Cache(g.sets, g.slots, g.blockBytes);
      tally := Tally(0, 0, 0, 0, 0, 0);
      cacheTimestamp := 1;
    }

    method LoadHitOrMiss(index: nat, tag: nat) returns (hit: bool)
      requires Ready() && index < geometry.sets
      modifies cache
      ensures Ready()
      ensures var o := LoadAccess(policy, old(cache.sets[index]), tag, cacheTimestamp);
        cache.sets == old(cache.sets)[index := o.slots] && cache.totalCycles == old(cache.totalCycles) + o.cycles && hit == o.hit
    {
      var k := cache.SlotExists(index, tag);
      if k < cache.numSlots {
        cache.totalCycles := cache.totalCycles + 1;
        Touch(index, k, cache.sets[index][k].dirty);
        return true;
      }
      var full := cache.IsCacheFull(index);
      if full {
        cache.EvictionFunction(index, tag, cacheTimestamp, policy);
      } else {
        cache.RankForFill(index);
        cache.WriteThrough(index, tag, cacheTimestamp, false);
      }
      cache.totalCycles := cache.totalCycles + cache.byteSizeCalculation;
      return false;
    }

    method Touch(index: nat, k: nat, dirty: bool)
      requires Ready() && index < geometry.sets && k < geometry.slots
      modifies cache`sets
      ensures Ready()
      ensures var s := old(cache.sets[index]);
        cache.sets == old(cache.sets)[index := s[k := s[k].(accessTs := cacheTimestamp, dirty := dirty)]]
    {
      var slot := cache.sets[index][k].(accessTs := cacheTimestamp, dirty := dirty);
      cache.sets := cache.sets[index := cache.sets[index][k := slot]];
    }

    method StoreHitOrMiss(index: nat, tag: nat) returns (hit: bool)
      requires Ready() && index < geometry.sets
      modifies cache
      ensures Ready()
      ensures var o := StoreAccess(policy, old(cache.sets[index]), tag, cacheTimestamp);
        cache.sets == old(cache.sets)[index := o.slots] && cache.totalCycles == old(cache.totalCycles) + o.cycles && hit == o.hit
    {
      var k := cache.SlotExists(index, tag);
      if k < cache.numSlots {
        Touch(index, k, !policy.writeThrough);
        cache.totalCycles := cache.totalCycles + (if policy.writeThrough then 101 else 1);
        return true;
      }
      if !policy.writeAllocate {
        cache.totalCycles := cache.totalCycles + 100;
        assert cache.sets == cache.sets[index := cache.sets[index]];
        return false;
      }
      var full := cache.IsCacheFull(index);
      if full {
        cache.EvictionFunction(index, tag, cacheTimestamp, policy);
      } else {
        cache.RankForFill(index);
        cache.WriteThrough(index, tag, cacheTimestamp, !policy.writeThrough);
        if policy.writeThrough {
          cache.totalCycles := cache.totalCycles + 100;
        }
      }
      cache.totalCycles := cache.totalCycles + cache.byteSizeCalculation;
      return false;
    }

    /** The loop over the lines of the trace. */
    method Simulate(trace: seq<Line>)
      requires Ready() && State() == Cold(geometry) && cacheTimestamp == 1
      modifies this, cache
      ensures Ready() && State() == Run(policy, geometry, trace) && cacheTimestamp == |trace| + 1
    {
      for i := 0 to |trace|
        invariant Ready() && cacheTimestamp == i + 1
        invariant State() == Run(policy, geometry, trace[..i])
      {
        var line := trace[i];
        assert trace[..i + 1][..i] == trace[..i];
        var hit := SimulateLine(line);
        cacheTimestamp := cacheTimestamp + 1;
      }
      assert trace[..|trace|] == trace;
    }

    method SimulateLine(line: Line) returns (hit: bool)
      requires Ready()
      modifies this`tally, cache
      ensures Ready() && State() == SimStep(policy, geometry, old(State()), line, cacheTimestamp)
    {
      var index, tag := Index(geometry, line.addr), Tag(geometry, line.addr);
      hit := false;
      if line.op == Load {
        hit := LoadHitOrMiss(index, tag);
      } else if line.op == Store {
        hit := StoreHitOrMiss(index, tag);
      } else {
        assert cache.sets == cache.sets[index := cache.sets[index]];
      }
      tally := Count(tally, line.op, hit);
    }
  }
}
