/** The Bloom filter never forgets: after any additions it answers yes for just the items whose bits
    are all among the bits of what was added. */
module BloomFilter {

  // ---- Bits of a byte ----

  /** The byte with just bit `j` set. */
  function Mask(j: nat): bv8
    requires j < 8
  {
    match j
    case 0 => 1 case 1 => 2 case 2 => 4 case 3 => 8
    case 4 => 16 case 5 => 32 case 6 => 64 case 7 => 128
  }

  predicate HasBit(b: bv8, j: nat)
    requires j < 8
  {
    Overlap(b, Mask(j))
  }

  lemma {:induction false} SetBit(b: bv8, j: nat, k: nat)
    requires j < 8 && k < 8
    ensures HasBit(b | Mask(j), k) <==> j == k || HasBit(b, k)
  {
    hide Mask, Overlap;
    MasksDiffer(j, k);
    OrOverlaps(b, Mask(j), Mask(k));
  }

  predicate Overlap(x: bv8, y: bv8) {
    x & y != 0
  }

  lemma OrOverlaps(b: bv8, x: bv8, y: bv8)
    ensures Overlap(b | x, y) <==> Overlap(b, y) || Overlap(x, y)
  {
  }

  lemma MasksDiffer(j: nat, k: nat)
    requires j < 8 && k < 8
    ensures Overlap(Mask(j), Mask(k)) <==> j == k
  {
  }

  // ---- Hashes ----

  /** JavaScript's `%`, whose result has the sign of the dividend. */
  function Remainder(a: int, m: int): int
    requires m > 0
  {
    if a >= 0 then a % m else -((-a) % m)
  }

  /** Taking the remainder, adding the modulus and taking the remainder again gives the one that is
      never negative. */
  lemma {:induction false} RemainderTwice(a: int, m: int)
    requires m > 0
    ensures 0 <= Remainder(Remainder(a, m) + m, m) < m
    ensures Remainder(Remainder(a, m) + m, m) == a % m
  {
    if a >= 0 {
      WholeTurns(a % m, 1, m);
    } else {
      var r := (-a) % m;
      NegativeRemainder(a, m);
      if r == 0 {
        WholeTurns(0, 1, m);
      } else {
        WholeTurns(m - r, 0, m);
      }
    }
  }

  /** The remainder that is never negative, from that of the negated dividend. */
  lemma {:induction false} NegativeRemainder(a: int, m: int)
    requires m > 0
    ensures a % m == if (-a) % m == 0 then 0 else m - (-a) % m
  {
    var q, r := (-a) / m, (-a) % m;
    assert a == -r + -q * m;
    if r == 0 {
      WholeTurns(0, -q, m);
    } else {
      OneTurnLess(q, m);
      WholeTurns(m - r, -q - 1, m);
    }
  }

  lemma OneTurnLess(q: int, m: int)
    ensures (-q - 1) * m == -q * m - m
  {
  }

  lemma {:induction false} WholeTurns(r: int, q: int, m: int)
    requires m > 0 && 0 <= r < m
    ensures (r + q * m) % m == r
  {
    var a := r + q * m;
    var q', r' := a / m, a % m;
    assert a == q' * m + r';
    assert (q - q') * m == r' - r;
    Multiple(q - q', m);
  }

  lemma {:induction false} Multiple(k: int, m: int)
    requires m > 0
    ensures k >= 1 ==> k * m >= m
    ensures k <= -1 ==> k * m <= -m
  {
    if k >= 1 {
      assert (k - 1) * m >= 0;
    } else if k <= -1 {
      assert (-k - 1) * m >= 0;
    }
  }

  /** The bits of an item, by double hashing with two values of the item. */
  ghost function Bits(h1: int, h2: int, numHashes: nat, size: nat): set<nat>
    requires size > 0
  {
    set i | 0 <= i < numHashes :: (h1 % size + i * (h2 % size)) % size
  }

  ghost function AsSet(hashes: seq<nat>): set<nat> {
    set h | h in hashes
  }

  // ---- The filter ----

  class Filter {
    const size: nat
    const numHashes: nat
    /** The hashes of an item before they are reduced to the size. */
    const hash1: string -> int
    const hash2: string -> int
    const bits: array<bv8>

    ghost predicate Valid()
      reads this
    {
      size > 0 && bits.Length == (size + 7) / 8
    }

    /** The bits that are set. */
    ghost function Ones(): set<nat>
      reads this, bits
      requires Valid()
    {
      set h | 0 <= h < 8 * bits.Length && HasBit(bits[h / 8], h % 8)
    }

    ghost function BitsOf(item: string): set<nat>
      reads this
      requires Valid()
    {
      Bits(hash1(item), hash2(item), numHashes, size)
    }

    constructor (size: nat, numHashes: nat, hash1: string -> int, hash2: string -> int)
      requires size > 0
      ensures Valid() && fresh(bits) && Ones() == {}
      ensures this.size == size && this.numHashes == numHashes && this.hash1 == hash1 && this.hash2 == hash2
    {
      this.size, this.numHashes, this.hash1, this.hash2 := size, numHashes, hash1, hash2;
      bits := new bv8[(size + 7) / 8](_ => 0);
      new;
      NoBits();
    }

    lemma NoBits()
      requires Valid() && forall i :: 0 <= i < bits.Length ==> bits[i] == 0
      ensures Ones() == {}
    {
    }

    /** The indices of an item, in the order in which they are used: all within the bytes. */
    method GetHashes(item: string) returns (hashes: seq<nat>)
      requires Valid()
      ensures |hashes| == numHashes
      ensures forall i :: 0 <= i < numHashes ==> hashes[i] == (hash1(item) % size + i * (hash2(item) % size)) % size
      ensures forall i :: 0 <= i < numHashes ==> hashes[i] < size && hashes[i] / 8 < bits.Length
      ensures AsSet(hashes) == BitsOf(item)
    {
      RemainderTwice(hash1(item), size);
      RemainderTwice(hash2(item), size);
      var h1 := Remainder(Remainder(hash1(item), size) + size, size);
      var h2 := Remainder(Remainder(hash2(item), size) + size, size);
      hashes := [];
      for i := 0 to numHashes
        invariant |hashes| == i
        invariant forall k :: 0 <= k < i ==> hashes[k] == (h1 + k * h2) % size && hashes[k] < size
      {
        RemainderTwice(h1 + i * h2, size);
        hashes := hashes + [Remainder(Remainder(h1 + i * h2, size) + size, size)];
      }
      HashesAreBits(item, hashes);
    }

    lemma {:induction false} HashesAreBits(item: string, hashes: seq<nat>)
      requires Valid() && |hashes| == numHashes
      requires forall i :: 0 <= i < numHashes ==> hashes[i] == (hash1(item) % size + i * (hash2(item) % size)) % size
      ensures AsSet(hashes) == BitsOf(item)
    {
      forall h | h in BitsOf(item)
        ensures h in hashes
      {
        var i :| 0 <= i < numHashes && h == (hash1(item) % size + i * (hash2(item) % size)) % size;
        assert hashes[i] == h;
      }
    }

    /** Sets the item's bits, and no other. */
    method Add(item: string)
      requires Valid()
      modifies bits
      ensures Valid() && Ones() == old(Ones()) + BitsOf(item)
    {
      hide Bits, HasBit;
      var hashes := GetHashes(item);
      for i := 0 to |hashes|
        invariant Valid() && Ones() == old(Ones()) + AsSet(hashes[..i])
      {
        SetOne(hashes[i]);
        assert AsSet(hashes[..i + 1]) == AsSet(hashes[..i]) + {hashes[i]};
      }
      assert hashes[..|hashes|] == hashes;
    }

    method SetOne(h: nat)
      requires Valid() && h < 8 * bits.Length
      modifies bits
      ensures Valid() && Ones() == old(Ones()) + {h}
    {
      hide HasBit;
      var byteIndex, bitIndex := h / 8, h % 8;
      ghost var before := bits[byteIndex];
      bits[byteIndex] := bits[byteIndex] | Mask(bitIndex);
      forall k: nat | k < 8
        ensures HasBit(bits[byteIndex], k) <==> bitIndex == k || HasBit(before, k)
      {
        SetBit(before, bitIndex, k);
      }
      assert forall g: nat :: g / 8 == byteIndex && g % 8 == bitIndex ==> g == h;
    }

    method Test(item: string) returns (maybe: bool)
      requires Valid()
      ensures maybe <==> BitsOf(item) <= Ones()
    {
      hide Bits, HasBit;
      var hashes := GetHashes(item);
      for i := 0 to |hashes|
        invariant forall k :: 0 <= k < i ==> hashes[k] in Ones()
      {
        if !HasBit(bits[hashes[i] / 8], hashes[i] % 8) {
          assert hashes[i] in BitsOf(item) && hashes[i] !in Ones();
          return false;
        }
      }
      maybe := true;
    }

    /** Adds all items to an empty filter: it then answers yes for just the items all of whose bits
        were set by some item, and so for each of the items themselves. */
    method AddAll(items: seq<string>)
      requires Valid() && Ones() == {}
      modifies bits
      ensures Valid() && forall h :: h in Ones() <==> exists x :: x in items && h in BitsOf(x)
      ensures forall x :: x in items ==> BitsOf(x) <= Ones()
    {
      hide Bits, Ones;
      for i := 0 to |items|
        invariant Valid() && forall h :: h in Ones() <==> exists x :: x in items[..i] && h in BitsOf(x)
      {
        Add(items[i]);
        assert forall x :: x in items[..i + 1] <==> x in items[..i] || x == items[i];
      }
      assert items[..|items|] == items;
    }
  }
}
