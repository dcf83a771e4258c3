/** How the simulator splits an address, and the powers of two it relies on. */
module CacheAddress {
  import opened Arithmetic
  import opened CacheSet

  function Pow2(k: nat): (r: nat)
    ensures r >= 1
  {
    if k == 0 then 1 else 2 * Pow2(k - 1)
  }

  /** x >> k on an unsigned word. */
  function Shr(x: nat, k: nat): nat {
    if k == 0 then x else Shr(x / 2, k - 1)
  }

  /** The bitwise and of two non-negative words. */
  function BitAnd(x: nat, y: nat): nat {
    if x == 0 || y == 0 then 0
    else 2 * BitAnd(x / 2, y / 2) + (if x % 2 == 1 && y % 2 == 1 then 1 else 0)
  }

  /** The bit test that validates the arguments (zero and negative ones are refused beside it). */
  predicate IsAPowerOfTwo(x: int) {
    x > 0 && BitAnd(x, x - 1) == 0
  }

  ghost predicate IsPow2(x: int) {
    exists k: nat :: Pow2(k) == x
  }

  lemma {:induction false} AndSelf(x: nat)
    ensures BitAnd(x, x) == x
  {
    if x > 0 {
      AndSelf(x / 2);
    }
  }

  /** The bit test passes exactly on the powers of two. */
  lemma {:induction false} BitTestIffPow2(x: int)
    ensures IsAPowerOfTwo(x) <==> IsPow2(x)
    decreases if x > 0 then x else 0
  {
    if x == 1 {
      assert Pow2(0) == 1;
    } else if x > 1 {
      BitTestIffPow2(x / 2);
      if x % 2 == 1 {
        assert (x - 1) / 2 == x / 2;
        AndSelf(x / 2);
        forall k: nat
          ensures Pow2(k) != x
        {
          assert k == 0 || Pow2(k) == 2 * Pow2(k - 1);
        }
      } else {
        assert (x - 1) / 2 == x / 2 - 1;
        if IsPow2(x / 2) {
          var k: nat :| Pow2(k) == x / 2;
          assert Pow2(k + 1) == x;
        }
        if IsPow2(x) {
          var k: nat :| Pow2(k) == x;
          assert Pow2(k - 1) == x / 2;
        }
      }
    }
  }

  function FloorLog2(n: nat): nat
    requires n > 0
  {
    if n == 1 then 0 else 1 + FloorLog2(n / 2)
  }

  /** The shifting loop of log2. */
  method Log2(off: nat) returns (result: nat)
    requires off > 0
    ensures Pow2(result) <= off < Pow2(result + 1)
  {
    result := 0;
    var rest := off / 2;
    while rest > 0
      invariant rest >= 0
      invariant FloorLog2(off) == result + if rest == 0 then 0 else 1 + FloorLog2(rest)
      decreases rest
    {
      result := result + 1;
      rest := rest / 2;
    }
    FloorLog2Bounds(off);
  }

  lemma {:induction false} FloorLog2Bounds(n: nat)
    requires n > 0
    ensures Pow2(FloorLog2(n)) <= n < Pow2(FloorLog2(n) + 1)
  {
    if n > 1 {
      FloorLog2Bounds(n / 2);
    }
  }

  lemma {:induction false} LogOfPower(k: nat)
    ensures FloorLog2(Pow2(k)) == k
  {
    if k > 0 {
      LogOfPower(k - 1);
      assert Pow2(k) / 2 == Pow2(k - 1);
    }
  }

  lemma {:induction false} ShrBounds(x: nat, k: nat)
    ensures Shr(x, k) * Pow2(k) <= x < (Shr(x, k) + 1) * Pow2(k)
  {
    if k > 0 {
      ShrBounds(x / 2, k - 1);
      Doubles(Shr(x, k), Pow2(k - 1), x);
    }
  }

  lemma Doubles(q: nat, p: nat, x: nat)
    requires q * p <= x / 2 < (q + 1) * p
    ensures q * (2 * p) <= x < (q + 1) * (2 * p)
  {
    assert q * (2 * p) == 2 * (q * p);
    assert (q + 1) * (2 * p) == 2 * ((q + 1) * p);
  }

  /** The validated command line: powers of two, blocks of at least 4 bytes. */
  datatype Geometry = Geometry(sets: nat, slots: nat, blockBytes: nat)

  ghost predicate Validated(g: Geometry) {
    IsAPowerOfTwo(g.sets) && IsAPowerOfTwo(g.slots) && IsAPowerOfTwo(g.blockBytes) && g.blockBytes >= 4
  }

  /** A line of the trace; the address is what stol returns. */
  datatype Line = Line(op: Op, addr: int)

  function BlockNumber(g: Geometry, addr: int): nat
    requires g.blockBytes > 0
  {
    Shr(addr % U32, FloorLog2(g.blockBytes))
  }

  function Index(g: Geometry, addr: int): (i: nat)
    requires g.blockBytes > 0 && g.sets > 0
    ensures i < g.sets
  {
    BlockNumber(g, addr) % g.sets
  }

  function Tag(g: Geometry, addr: int): nat
    requires g.blockBytes > 0 && g.sets > 0
  {
    Shr(BlockNumber(g, addr), FloorLog2(g.sets))
  }

  lemma ShrIsQuotient(x: nat, d: nat)
    requires IsAPowerOfTwo(d)
    ensures Shr(x, FloorLog2(d)) == x / d
  {
    BitTestIffPow2(d);
    var k: nat :| Pow2(k) == d;
    LogOfPower(k);
    ShrBounds(x, k);
    QuotientUnique(x, d, Shr(x, k));
  }

  /** Two addresses share tag and index exactly when they lie in the same block of memory. */
  lemma SameBlockIff(g: Geometry, a: int, b: int)
    requires Validated(g)
    ensures Tag(g, a) == Tag(g, b) && Index(g, a) == Index(g, b)
      <==> (a % U32) / g.blockBytes == (b % U32) / g.blockBytes
  {
    var x, y := BlockNumber(g, a), BlockNumber(g, b);
    ShrIsQuotient(a % U32, g.blockBytes);
    ShrIsQuotient(b % U32, g.blockBytes);
    ShrIsQuotient(x, g.sets);
    ShrIsQuotient(y, g.sets);
    if x / g.sets == y / g.sets && x % g.sets == y % g.sets {
      Recompose(x, y, g.sets);
    }
  }

  lemma Recompose(x: nat, y: nat, d: nat)
    requires d > 0 && x / d == y / d && x % d == y % d
    ensures x == y
  {
    assert x == (x / d) * d + x % d;
    assert y == (y / d) * d + y % d;
  }

  /** An address is its tag, its index and its place in the block, from left to right. */
  lemma AddressParts(g: Geometry, a: int)
    requires Validated(g)
    ensures a % U32 == (Tag(g, a) * g.sets + Index(g, a)) * g.blockBytes + (a % U32) % g.blockBytes
    ensures 0 <= (a % U32) % g.blockBytes < g.blockBytes && Index(g, a) < g.sets
  {
    var x, block := a % U32, BlockNumber(g, a);
    ShrIsQuotient(x, g.blockBytes);
    ShrIsQuotient(block, g.sets);
    QuotientParts(x, g.blockBytes);
    QuotientParts(block, g.sets);
  }

  lemma QuotientParts(x: nat, d: nat)
    requires d > 0
    ensures x == x / d * d + x % d
  {
  }
}
