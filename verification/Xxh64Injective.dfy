/**
 * Where the hash cannot collide: every tail step is injective in its chunk and in the running
 * hash, so inputs of one length that differ inside one tail chunk hash differently.
 */
module Xxh64Injective {
  import opened Xxh64

  // ---------- Invertible pieces ----------

  predicate IsTimesPrime1(x: bv64, product: bv64) {
    product == x * 11400714785074694791
  }

  lemma Prime1IsOdd(x: bv64, y: bv64, product: bv64)
    requires IsTimesPrime1(x, product)
    requires IsTimesPrime1(y, product)
    ensures x == y
  {
  }

  lemma TimesPrime1(x: bv64, y: bv64)
    ensures Times(x, PRIME1) == Times(y, PRIME1) ==> x == y
  {
    if Times(x, PRIME1) == Times(y, PRIME1) {
      Prime1IsOdd(x, y, Times(x, PRIME1));
    }
  }

  predicate IsTimesPrime2(x: bv64, product: bv64) {
    product == x * 14029467366897019727
  }

  lemma Prime2IsOdd(x: bv64, y: bv64, product: bv64)
    requires IsTimesPrime2(x, product)
    requires IsTimesPrime2(y, product)
    ensures x == y
  {
  }

  lemma TimesPrime2(x: bv64, y: bv64)
    ensures Times(x, PRIME2) == Times(y, PRIME2) ==> x == y
  {
    if Times(x, PRIME2) == Times(y, PRIME2) {
      Prime2IsOdd(x, y, Times(x, PRIME2));
    }
  }

  predicate IsTimesPrime3(x: bv64, product: bv64) {
    product == x * 1609587929392839161
  }

  lemma Prime3IsOdd(x: bv64, y: bv64, product: bv64)
    requires IsTimesPrime3(x, product)
    requires IsTimesPrime3(y, product)
    ensures x == y
  {
  }

  lemma TimesPrime3(x: bv64, y: bv64)
    ensures Times(x, PRIME3) == Times(y, PRIME3) ==> x == y
  {
    if Times(x, PRIME3) == Times(y, PRIME3) {
      Prime3IsOdd(x, y, Times(x, PRIME3));
    }
  }

  predicate IsTimesPrime5(x: bv64, product: bv64) {
    product == x * 2870177450012600261
  }

  lemma Prime5IsOdd(x: bv64, y: bv64, product: bv64)
    requires IsTimesPrime5(x, product)
    requires IsTimesPrime5(y, product)
    ensures x == y
  {
  }

  lemma TimesPrime5(x: bv64, y: bv64)
    ensures Times(x, PRIME5) == Times(y, PRIME5) ==> x == y
  {
    if Times(x, PRIME5) == Times(y, PRIME5) {
      Prime5IsOdd(x, y, Times(x, PRIME5));
    }
  }

  lemma Rotl31Back(x: bv64)
    ensures ((Rotl(x, 31) >> 31) | (Rotl(x, 31) << 33)) == x
  {
  }

  lemma Rotl31Injective(x: bv64, y: bv64)
    ensures Rotl(x, 31) == Rotl(y, 31) ==> x == y
  {
    hide Rotl;
    Rotl31Back(x);
    Rotl31Back(y);
  }

  lemma Rotl27Back(x: bv64)
    ensures ((Rotl(x, 27) >> 27) | (Rotl(x, 27) << 37)) == x
  {
  }

  lemma Rotl27Injective(x: bv64, y: bv64)
    ensures Rotl(x, 27) == Rotl(y, 27) ==> x == y
  {
    hide Rotl;
    Rotl27Back(x);
    Rotl27Back(y);
  }

  lemma Rotl23Back(x: bv64)
    ensures ((Rotl(x, 23) >> 23) | (Rotl(x, 23) << 41)) == x
  {
  }

  lemma Rotl23Injective(x: bv64, y: bv64)
    ensures Rotl(x, 23) == Rotl(y, 23) ==> x == y
  {
    hide Rotl;
    Rotl23Back(x);
    Rotl23Back(y);
  }

  lemma Rotl11Back(x: bv64)
    ensures ((Rotl(x, 11) >> 11) | (Rotl(x, 11) << 53)) == x
  {
  }

  lemma Rotl11Injective(x: bv64, y: bv64)
    ensures Rotl(x, 11) == Rotl(y, 11) ==> x == y
  {
    hide Rotl;
    Rotl11Back(x);
    Rotl11Back(y);
  }

  lemma XorBack(h: bv64, k: bv64)
    ensures Xor(Xor(h, k), k) == h
    ensures Xor(Xor(h, k), h) == k
  {
  }

  // The high bits pass unchanged, so the shifted operand can be read off the result.

  lemma ShiftXor33HighBits(x: bv64)
    ensures ShiftRight(ShiftXor(x, 33), 33) == ShiftRight(x, 33)
  {
  }

  lemma ShiftXor32HighBits(x: bv64)
    ensures ShiftRight(ShiftXor(x, 32), 32) == ShiftRight(x, 32)
  {
  }

  lemma ShiftXor29HighBits(x: bv64)
    ensures ShiftRight(ShiftXor(x, 29), 58) == ShiftRight(x, 58)
  {
  }

  lemma ShiftXorMiddleBits(x: bv64)
    ensures ShiftRight(ShiftXor(x, 29), 29) == Xor(ShiftRight(x, 29), ShiftRight(x, 58))
  {
  }

  lemma ShiftXorInjective(x: bv64, y: bv64)
    ensures ShiftXor(x, 33) == ShiftXor(y, 33) ==> x == y
    ensures ShiftXor(x, 32) == ShiftXor(y, 32) ==> x == y
    ensures ShiftXor(x, 29) == ShiftXor(y, 29) ==> x == y
  {
    hide Xor, ShiftRight;
    ShiftXor33HighBits(x);
    ShiftXor33HighBits(y);
    ShiftXor32HighBits(x);
    ShiftXor32HighBits(y);
    ShiftXor29HighBits(x);
    ShiftXor29HighBits(y);
    ShiftXorMiddleBits(x);
    ShiftXorMiddleBits(y);
    XorBack(x, ShiftRight(x, 33));
    XorBack(y, ShiftRight(y, 33));
    XorBack(x, ShiftRight(x, 32));
    XorBack(y, ShiftRight(y, 32));
    XorBack(x, ShiftRight(x, 29));
    XorBack(y, ShiftRight(y, 29));
    XorBack(ShiftRight(x, 29), ShiftRight(x, 58));
    XorBack(ShiftRight(y, 29), ShiftRight(y, 58));
  }

  lemma PlusBack(x: bv64, c: bv64)
    ensures (x + c) - c == x
  {
  }

  // ---------- Steps ----------

  lemma Mix2Injective(x: bv64, y: bv64)
    ensures Mix2(x, 0) == Mix2(y, 0) ==> x == y
  {
    hide Times, Rotl, Xor;
    var a, b := Times(x, PRIME2), Times(y, PRIME2);
    TimesPrime1(Rotl(0 + a, 31), Rotl(0 + b, 31));
    Rotl31Injective(0 + a, 0 + b);
    TimesPrime2(x, y);
  }

  lemma Mix1Injective(x: bv64, y: bv64)
    ensures Mix1(x, PRIME2, 33) == Mix1(y, PRIME2, 33) ==> x == y
    ensures Mix1(x, PRIME3, 29) == Mix1(y, PRIME3, 29) ==> x == y
    ensures Mix1(x, 1, 32) == Mix1(y, 1, 32) ==> x == y
  {
    hide Times, ShiftXor;
    TimesPrime2(ShiftXor(x, 33), ShiftXor(y, 33));
    TimesPrime3(ShiftXor(x, 29), ShiftXor(y, 29));
    TimesOne(ShiftXor(x, 32));
    TimesOne(ShiftXor(y, 32));
    ShiftXorInjective(x, y);
  }

  lemma AvalancheInjective(x: bv64, y: bv64)
    ensures Avalanche(x) == Avalanche(y) ==> x == y
  {
    hide Mix1;
    var x1, y1 := Mix1(x, PRIME2, 33), Mix1(y, PRIME2, 33);
    Mix1Injective(x, y);
    Mix1Injective(x1, y1);
    Mix1Injective(Mix1(x1, PRIME3, 29), Mix1(y1, PRIME3, 29));
  }

  lemma Step8Injective(g: bv64, h: bv64, k: bv64, l: bv64)
    ensures Step8(g, k) == Step8(h, l) ==> Xor(g, k) == Xor(h, l)
  {
    hide Times, Rotl, Xor;
    PlusBack(Times(Rotl(Xor(g, k), 27), PRIME1), PRIME4);
    PlusBack(Times(Rotl(Xor(h, l), 27), PRIME1), PRIME4);
    TimesPrime1(Rotl(Xor(g, k), 27), Rotl(Xor(h, l), 27));
    Rotl27Injective(Xor(g, k), Xor(h, l));
  }

  lemma Step4Injective(g: bv64, h: bv64, k: bv64, l: bv64)
    ensures Step4(g, k) == Step4(h, l) ==> Xor(g, k) == Xor(h, l)
  {
    hide Times, Rotl, Xor;
    PlusBack(Times(Rotl(Xor(g, k), 23), PRIME2), PRIME3);
    PlusBack(Times(Rotl(Xor(h, l), 23), PRIME2), PRIME3);
    TimesPrime2(Rotl(Xor(g, k), 23), Rotl(Xor(h, l), 23));
    Rotl23Injective(Xor(g, k), Xor(h, l));
  }

  lemma Step1Injective(g: bv64, h: bv64, k: bv64, l: bv64)
    ensures Step1(g, k) == Step1(h, l) ==> Xor(g, k) == Xor(h, l)
  {
    hide Times, Rotl, Xor;
    TimesPrime1(Rotl(Xor(g, k), 11), Rotl(Xor(h, l), 11));
    Rotl11Injective(Xor(g, k), Xor(h, l));
  }

  /** Each step keeps apart two running hashes that meet the same chunk. */
  lemma StepsKeepApart(g: bv64, h: bv64, k: bv64)
    requires g != h
    ensures Step8(g, k) != Step8(h, k) && Step4(g, k) != Step4(h, k) && Step1(g, k) != Step1(h, k)
  {
    hide Step8, Step4, Step1, Xor;
    Step8Injective(g, h, k, k);
    Step4Injective(g, h, k, k);
    Step1Injective(g, h, k, k);
    XorBack(g, k);
    XorBack(h, k);
  }

  /** Each step keeps apart two chunks that meet the same running hash. */
  lemma StepsSeeChunk(h: bv64, k: bv64, l: bv64)
    requires k != l
    ensures Step8(h, k) != Step8(h, l) && Step4(h, k) != Step4(h, l) && Step1(h, k) != Step1(h, l)
  {
    hide Step8, Step4, Step1, Xor;
    Step8Injective(h, h, k, l);
    Step4Injective(h, h, k, l);
    Step1Injective(h, h, k, l);
    XorBack(h, k);
    XorBack(h, l);
  }

  /** On a common tail, different running hashes stay different to the end. */
  lemma {:induction false} FinalizeInjective(g: bv64, h: bv64, s: Bytes, t: Bytes, p: nat, len: nat)
    requires p + len <= |s| && p + len <= |t|
    requires forall i :: p <= i < p + len ==> s[i] == t[i]
    requires g != h
    ensures Finalize(g, s, p, len) != Finalize(h, t, p, len)
    decreases len
  {
    hide Step8, Step4, Step1, Avalanche, Mix2, Times, Endian64, Endian32;
    if len >= 8 {
      Endian64Reads(s, t, p);
      var k := Fetch64(s, p, 0);
      StepsKeepApart(g, h, k);
      FinalizeInjective(Step8(g, k), Step8(h, k), s, t, p + 8, len - 8);
    } else if len >= 4 {
      Endian32Reads(s, t, p);
      var k := Fetch32(s, p);
      StepsKeepApart(g, h, k);
      FinalizeInjective(Step4(g, k), Step4(h, k), s, t, p + 4, len - 4);
    } else if len > 0 {
      var k := Fetch8(s, p);
      StepsKeepApart(g, h, k);
      FinalizeInjective(Step1(g, k), Step1(h, k), s, t, p + 1, len - 1);
    } else {
      AvalancheInjective(g, h);
    }
  }

  // ---------- Chunks ----------

  lemma ByteInjective(x: bv8, y: bv8)
    ensures x as bv64 == y as bv64 ==> x == y
  {
  }

  lemma Endian32Injective(s: Bytes, t: Bytes, p: nat)
    requires p + 4 <= |s| && p + 4 <= |t|
    ensures Endian32(s, p) == Endian32(t, p) ==> s[p..p + 4] == t[p..p + 4]
  {
    Bytes4(s[p], s[p + 1], s[p + 2], s[p + 3], t[p], t[p + 1], t[p + 2], t[p + 3]);
  }

  lemma Bytes4(a0: bv8, a1: bv8, a2: bv8, a3: bv8, b0: bv8, b1: bv8, b2: bv8, b3: bv8)
    ensures (a0 as bv64) | ((a1 as bv64) << 8) | ((a2 as bv64) << 16) | ((a3 as bv64) << 24)
            == (b0 as bv64) | ((b1 as bv64) << 8) | ((b2 as bv64) << 16) | ((b3 as bv64) << 24)
            ==> a0 == b0 && a1 == b1 && a2 == b2 && a3 == b3
  {
  }

  lemma Endian64Injective(s: Bytes, t: Bytes, p: nat)
    requires p + 8 <= |s| && p + 8 <= |t|
    ensures Endian64(s, p) == Endian64(t, p) ==> s[p..p + 8] == t[p..p + 8]
  {
    Bytes8(s[p], s[p + 1], s[p + 2], s[p + 3], s[p + 4], s[p + 5], s[p + 6], s[p + 7],
           t[p], t[p + 1], t[p + 2], t[p + 3], t[p + 4], t[p + 5], t[p + 6], t[p + 7]);
  }

  lemma Bytes8(a0: bv8, a1: bv8, a2: bv8, a3: bv8, a4: bv8, a5: bv8, a6: bv8, a7: bv8,
               b0: bv8, b1: bv8, b2: bv8, b3: bv8, b4: bv8, b5: bv8, b6: bv8, b7: bv8)
    ensures (a0 as bv64) | ((a1 as bv64) << 8) | ((a2 as bv64) << 16) | ((a3 as bv64) << 24)
            | ((a4 as bv64) << 32) | ((a5 as bv64) << 40) | ((a6 as bv64) << 48) | ((a7 as bv64) << 56)
            == (b0 as bv64) | ((b1 as bv64) << 8) | ((b2 as bv64) << 16) | ((b3 as bv64) << 24)
            | ((b4 as bv64) << 32) | ((b5 as bv64) << 40) | ((b6 as bv64) << 48) | ((b7 as bv64) << 56)
            ==> a0 == b0 && a1 == b1 && a2 == b2 && a3 == b3 && a4 == b4 && a5 == b5 && a6 == b6 && a7 == b7
  {
  }

  /** The chunks that `finalize` reads from a tail of `len` bytes at `p`, by start and size. */
  predicate IsChunk(p: nat, len: nat, start: nat, size: nat)
    decreases len
  {
    if len >= 8 then (start == p && size == 8) || IsChunk(p + 8, len - 8, start, size)
    else if len >= 4 then (start == p && size == 4) || IsChunk(p + 4, len - 4, start, size)
    else if len > 0 then (start == p && size == 1) || IsChunk(p + 1, len - 1, start, size)
    else false
  }

  lemma {:induction false} ChunkInside(p: nat, len: nat, start: nat, size: nat)
    requires IsChunk(p, len, start, size)
    ensures p <= start && start + size <= p + len && size > 0
    decreases len
  {
    if len >= 8 {
      if !(start == p && size == 8) { ChunkInside(p + 8, len - 8, start, size); }
    } else if len >= 4 {
      if !(start == p && size == 4) { ChunkInside(p + 4, len - 4, start, size); }
    } else if !(start == p && size == 1) {
      ChunkInside(p + 1, len - 1, start, size);
    }
  }

  ghost predicate DifferInside(s: Bytes, t: Bytes, start: nat, size: nat)
    requires |s| == |t| && start + size <= |s|
  {
    s[start..start + size] != t[start..start + size]
    && forall i :: 0 <= i < |s| && !(start <= i < start + size) ==> s[i] == t[i]
  }

  /** A chunk that differs is fetched differently. */
  lemma FetchesDiffer(s: Bytes, t: Bytes, start: nat, size: nat)
    requires |s| == |t| && start + size <= |s| && s[start..start + size] != t[start..start + size]
    ensures size == 8 ==> Fetch64(s, start, 0) != Fetch64(t, start, 0)
    ensures size == 4 ==> Fetch32(s, start) != Fetch32(t, start)
    ensures size == 1 ==> Fetch8(s, start) != Fetch8(t, start)
  {
    hide Mix2, Times, Endian64, Endian32;
    if size == 8 {
      Endian64Injective(s, t, start);
      Mix2Injective(Endian64(s, start), Endian64(t, start));
    } else if size == 4 {
      Endian32Injective(s, t, start);
      TimesPrime1(Endian32(s, start), Endian32(t, start));
    } else if size == 1 {
      ByteInjective(s[start], t[start]);
      TimesPrime5(Byte(s, start), Byte(t, start));
    }
  }

  lemma {:induction false} TailDiffers(h: bv64, s: Bytes, t: Bytes, p: nat, len: nat, start: nat, size: nat)
    requires |s| == |t| && p + len <= |s|
    requires IsChunk(p, len, start, size) && start + size <= |s| && DifferInside(s, t, start, size)
    ensures Finalize(h, s, p, len) != Finalize(h, t, p, len)
    decreases len
  {
    hide Step8, Step4, Step1, Avalanche, Fetch64, Fetch32, Fetch8, Endian64, Endian32, Mix2, Times;
    if start == p {
      ChunkSize(p, len, size);
      FetchesDiffer(s, t, start, size);
      if len >= 8 {
        StepsSeeChunk(h, Fetch64(s, p, 0), Fetch64(t, p, 0));
        FinalizeInjective(Step8(h, Fetch64(s, p, 0)), Step8(h, Fetch64(t, p, 0)), s, t, p + 8, len - 8);
      } else if len >= 4 {
        StepsSeeChunk(h, Fetch32(s, p), Fetch32(t, p));
        FinalizeInjective(Step4(h, Fetch32(s, p)), Step4(h, Fetch32(t, p)), s, t, p + 4, len - 4);
      } else {
        StepsSeeChunk(h, Fetch8(s, p), Fetch8(t, p));
        FinalizeInjective(Step1(h, Fetch8(s, p)), Step1(h, Fetch8(t, p)), s, t, p + 1, len - 1);
      }
    } else if len >= 8 {
      ChunkInside(p + 8, len - 8, start, size);
      SameFetch(s, t, p);
      TailDiffers(Step8(h, Fetch64(s, p, 0)), s, t, p + 8, len - 8, start, size);
    } else if len >= 4 {
      ChunkInside(p + 4, len - 4, start, size);
      SameFetch(s, t, p);
      TailDiffers(Step4(h, Fetch32(s, p)), s, t, p + 4, len - 4, start, size);
    } else {
      ChunkInside(p + 1, len - 1, start, size);
      SameFetch(s, t, p);
      TailDiffers(Step1(h, Fetch8(s, p)), s, t, p + 1, len - 1, start, size);
    }
  }

  lemma SameFetch(s: Bytes, t: Bytes, p: nat)
    requires |s| == |t|
    ensures p + 8 <= |s| && (forall i :: p <= i < p + 8 ==> s[i] == t[i]) ==> Fetch64(s, p, 0) == Fetch64(t, p, 0)
    ensures p + 4 <= |s| && (forall i :: p <= i < p + 4 ==> s[i] == t[i]) ==> Fetch32(s, p) == Fetch32(t, p)
    ensures p < |s| && s[p] == t[p] ==> Fetch8(s, p) == Fetch8(t, p)
  {
    hide Mix2, Times, Endian64, Endian32;
    if p + 8 <= |s| && (forall i :: p <= i < p + 8 ==> s[i] == t[i]) {
      Endian64Reads(s, t, p);
    }
    if p + 4 <= |s| && (forall i :: p <= i < p + 4 ==> s[i] == t[i]) {
      Endian32Reads(s, t, p);
    }
  }

  /** The chunk at the front of a tail has the size `finalize` picks. */
  lemma ChunkSize(p: nat, len: nat, size: nat)
    requires IsChunk(p, len, p, size)
    ensures size == if len >= 8 then 8 else if len >= 4 then 4 else 1
  {
    if len >= 8 {
      if size != 8 { ChunkInside(p + 8, len - 8, p, size); }
    } else if len >= 4 {
      if size != 4 { ChunkInside(p + 4, len - 4, p, size); }
    } else if size != 1 {
      ChunkInside(p + 1, len - 1, p, size);
    }
  }

  // ---------- Main results ----------

  /** Inputs of one length that differ inside exactly one tail chunk never collide. */
  lemma OneChunkNeverCollides(s: Bytes, t: Bytes, seed: bv64, start: nat, size: nat)
    requires |s| == |t| && IsChunk(|s| / 32 * 32, |s| % 32, start, size)
    requires start + size <= |s| && DifferInside(s, t, start, size)
    ensures Hash(s, |s|, seed) != Hash(t, |t|, seed)
  {
    hide Times, BeforeTail, Finalize;
    ChunkInside(|s| / 32 * 32, |s| % 32, start, size);
    BeforeTailReads(s, t, |s|, seed);
    TailDiffers(BeforeTail(s, |s|, seed), s, t, |s| / 32 * 32, |s| % 32, start, size);
  }

  /** Distinct strings of 1, of 4 or of 8 bytes have distinct runtime hashes. */
  lemma ShortStringsNeverCollide(s: Bytes, t: Bytes)
    requires |s| == |t| && (|s| == 1 || |s| == 4 || |s| == 8)
    ensures RuntimeHash(s) == RuntimeHash(t) <==> s == t
  {
    hide Hash;
    if s != t {
      assert IsChunk(0, |s|, 0, |s|);
      assert s[0..|s|] == s && t[0..|t|] == t;
      OneChunkNeverCollides(s, t, 0, 0, |s|);
    }
  }
}
