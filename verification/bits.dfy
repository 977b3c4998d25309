/**
 Unsigned words as natural numbers: bit tests, single-bit values, and the loop that rounds a
 queue size down to a power of two (setupQueue of sound.go), at any width.
 */
module Bits {
  function Pow2(k: nat): (p: nat)
    ensures p > 0
  {
    if k == 0 then 1 else 2 * Pow2(k - 1)
  }

  /** x & y */
  function And(x: nat, y: nat): (z: nat)
    ensures z <= x && z <= y
    decreases x
  {
    if x == 0 || y == 0 then 0 else 2 * And(x / 2, y / 2) + (if x % 2 == 1 && y % 2 == 1 then 1 else 0)
  }

  /** Bit k of x is set. */
  predicate Bit(x: nat, k: nat)
    decreases k
  {
    if k == 0 then x % 2 == 1 else Bit(x / 2, k - 1)
  }

  /** 1 << k in a uint64: zero once k reaches the width. */
  function Shl64(k: nat): nat {
    if k < 64 then Pow2(k) else 0
  }

  /** x & (1 << k) tests bit k. */
  lemma {:induction false} AndPow2(x: nat, k: nat)
    ensures And(x, Pow2(k)) == if Bit(x, k) then Pow2(k) else 0
    decreases k
  {
    if k == 0 {
      assert And(x / 2, 0) == 0;
    } else {
      AndPow2(x / 2, k - 1);
      assert Pow2(k) / 2 == Pow2(k - 1) && Pow2(k) % 2 == 0;
    }
  }

  lemma {:induction false} BitOfPow2(j: nat, k: nat)
    ensures Bit(Pow2(j), k) <==> j == k
    decreases k
  {
    if j > 0 && k > 0 {
      BitOfPow2(j - 1, k - 1);
    } else if j == 0 && k > 0 {
      NoBits(k - 1);
    }
  }

  lemma {:induction false} NoBits(k: nat)
    ensures !Bit(0, k)
  {
    if k > 0 {
      NoBits(k - 1);
    }
  }

  lemma {:induction false} Pow2Monotone(j: nat, k: nat)
    ensures j < k <==> Pow2(j) < Pow2(k)
  {
    if j > 0 && k > 0 {
      Pow2Monotone(j - 1, k - 1);
    }
  }

  lemma {:induction false} AndSelf(x: nat)
    ensures And(x, x) == x
    decreases x
  {
    if x > 0 {
      AndSelf(x / 2);
    }
  }

  /** x & (x - 1), halved: the lowest set bit of an even number is that of its half. */
  lemma ClearLowest(x: nat)
    requires x > 0
    ensures And(x, x - 1) == if x % 2 == 1 then x - 1 else 2 * And(x / 2, x / 2 - 1)
  {
    if x % 2 == 1 {
      assert (x - 1) / 2 == x / 2;
      AndSelf(x / 2);
    } else {
      assert (x - 1) / 2 == x / 2 - 1;
    }
  }

  /** isSingleBit (pcm.go). */
  predicate IsSingleBit(x: nat) {
    x != 0 && And(x, x - 1) == 0
  }

  lemma ZeroBits()
    ensures !IsSingleBit(0)
  {
  }

  ghost predicate IsPow2(x: nat) {
    exists k :: x == Pow2(k)
  }

  lemma HalfPow2(x: nat)
    requires x > 1
    ensures IsPow2(x) <==> x % 2 == 0 && IsPow2(x / 2)
  {
    if k: nat :| x == Pow2(k) {
      assert k > 0 && x / 2 == Pow2(k - 1);
    }
    if x % 2 == 0 {
      if k: nat :| x / 2 == Pow2(k) {
        assert x == Pow2(k + 1);
      }
    }
  }

  /** The test accepts exactly the powers of two. */
  lemma {:induction false} SingleBitIff(x: nat)
    ensures IsSingleBit(x) <==> IsPow2(x)
    decreases x
  {
    hide IsPow2;
    if x <= 1 {
      SmallPowers();
      assert And(1, 0) == 0;
    } else {
      ClearLowest(x);
      HalfPow2(x);
      if x % 2 == 0 {
        SingleBitIff(x / 2);
      }
    }
  }

  lemma SmallPowers()
    ensures !IsPow2(0) && IsPow2(1)
  {
    assert Pow2(0) == 1;
  }

  /** Clearing the lowest of several bits loses no power of two below. */
  lemma {:induction false} ClearingKeepsTop(x: nat, k: nat)
    requires x > 0 && And(x, x - 1) != 0 && Pow2(k) <= x
    ensures Pow2(k) <= And(x, x - 1)
    decreases x
  {
    ClearLowest(x);
    if x % 2 == 1 {
      assert k > 0 ==> Pow2(k) % 2 == 0;
      if k == 0 {
        assert x > 1 by {
          assert And(1, 0) == 0;
        }
      }
    } else if k > 0 {
      ClearingKeepsTop(x / 2, k - 1);
    }
  }

  /**
   setupQueue's size: the smaller of the desired and the device's size, with its lowest bit
   cleared until one is left.  That is the largest power of two not above either.
   */
  method QueueSize(desired: nat, max: nat) returns (size: nat)
    ensures size == 0 <==> max == 0 || desired == 0
    ensures size > 0 ==> size <= desired && size <= max && IsPow2(size)
    ensures forall k | Pow2(k) <= desired && Pow2(k) <= max :: Pow2(k) <= size
  {
    if max == 0 {
      return 0;
    }
    size := desired;
    if size > max {
      size := max;
    }
    while And(size, Below(size)) != 0
      invariant size <= desired && size <= max && (size == 0 <==> desired == 0)
      invariant forall k | Pow2(k) <= desired && Pow2(k) <= max :: Pow2(k) <= size
      decreases size
    {
      forall k | Pow2(k) <= size
        ensures Pow2(k) <= And(size, size - 1)
      {
        ClearingKeepsTop(size, k);
      }
      size := And(size, Below(size));
    }
    SingleBitIff(size);
  }

  /** size - 1 in a uint16. */
  function Below(size: nat): nat {
    if size == 0 then 0xFFFF else size - 1
  }

  /** The position of the lowest set bit of x among bits i..n, or 0xFF: ByteID of messages.go. */
  function ByteIDFrom(x: nat, i: nat, n: nat): (id: nat)
    requires i <= n < 0xFF
    ensures id == 0xFF || id < n
    decreases n - i
  {
    if i == n then 0xFF else if And(x, Shl64(i)) != 0 then i else ByteIDFrom(x, i + 1, n)
  }

  lemma {:induction false} ByteIDFinds(x: nat, i: nat, n: nat)
    requires i <= n <= 64
    ensures var id := ByteIDFrom(x, i, n);
            && (id == 0xFF <==> forall k | i <= k < n :: !Bit(x, k))
            && (id != 0xFF ==> i <= id < n && Bit(x, id) && forall k | i <= k < id :: !Bit(x, k))
    decreases n - i
  {
    if i < n {
      AndPow2(x, i);
      ByteIDFinds(x, i + 1, n);
    }
  }

  /** ByteID of a bitmap over a table of n entries. */
  function ByteID(x: nat, n: nat): (id: nat)
    requires n < 0xFF
    ensures id == 0xFF || id < n
  {
    if x == 0 then 0xFF else ByteIDFrom(x, 0, n)
  }

  /** RateFromByteID / FormatFromByteID. */
  function FromByteID(id: nat, n: nat): nat {
    if id >= n then 0 else Pow2(id)
  }

  /** On defined ids the two conversions are inverse; a single bit beyond the table converts to 0xFF. */
  lemma ByteIDRoundTrip(k: nat, n: nat)
    requires n <= 64
    ensures ByteID(Pow2(k), n) == if k < n then k else 0xFF
    ensures k < n ==> ByteID(FromByteID(k, n), n) == k
    ensures FromByteID(ByteID(Pow2(k), n), n) == if k < n then Pow2(k) else 0
  {
    ByteIDFinds(Pow2(k), 0, n);
    var id := ByteIDFrom(Pow2(k), 0, n);
    BitOfPow2(k, k);
    BitOfPow2(k, id);
    if k >= n {
      forall j | 0 <= j < n
        ensures !Bit(Pow2(k), j)
      {
        BitOfPow2(k, j);
      }
    }
  }

  /**
   SupportedRates / SupportedFormats: the bits of the bitmap below n, each as a single-bit
   value, in ascending order.
   */
  method Supported(bitmap: nat, n: nat) returns (out: seq<nat>)
    requires n <= 64
    ensures forall j, k | 0 <= j < k < |out| :: out[j] < out[k]
    ensures forall v :: v in out <==> exists k :: 0 <= k < n && Bit(bitmap, k) && v == Pow2(k)
  {
    out := [];
    for i := 0 to n
      invariant forall j, k | 0 <= j < k < |out| :: out[j] < out[k]
      invariant forall j | 0 <= j < |out| :: out[j] < Pow2(i)
      invariant forall v :: v in out <==> exists k :: 0 <= k < i && Bit(bitmap, k) && v == Pow2(k)
    {
      AndPow2(bitmap, i);
      Pow2Monotone(i, i + 1);
      ghost var before := out;
      if And(bitmap, Shl64(i)) != 0 {
        out := out + [Pow2(i)];
      }
      forall v
        ensures v in out <==> exists k :: 0 <= k < i + 1 && Bit(bitmap, k) && v == Pow2(k)
      {
        if v in before {
          var k :| 0 <= k < i && Bit(bitmap, k) && v == Pow2(k);
        }
        if k :| 0 <= k < i + 1 && Bit(bitmap, k) && v == Pow2(k) {
          assert k < i ==> v in before;
          assert k == i ==> out[|out| - 1] == v;
        }
      }
    }
  }
}
