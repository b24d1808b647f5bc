/**
 * The recursive XXH64 of hash.h, in 64-bit arithmetic, over a byte string and positions in it.
 */
module Xxh64 {

  type Bytes = seq<bv8>

  const PRIME1: bv64 := 11400714785074694791
  const PRIME2: bv64 := 14029467366897019727
  const PRIME3: bv64 := 1609587929392839161
  const PRIME4: bv64 := 9650029242287828579
  const PRIME5: bv64 := 2870177450012600261

  const TWO_TO_THE_64: nat := 0x1_0000_0000_0000_0000

  // The operations on 64-bit words. Proofs that only pass their results along hide them.

  function Times(x: bv64, y: bv64): bv64 {
    x * y
  }

  lemma TimesOne(x: bv64)
    ensures Times(x, 1) == x
  {
  }

  function Xor(x: bv64, y: bv64): bv64 {
    x ^ y
  }

  function ShiftRight(x: bv64, r: bv7): bv64
    requires r <= 64
  {
    x >> r
  }

  function Rotl(x: bv64, r: bv7): bv64
    requires 0 < r < 64
  {
    (x << r) | (x >> (64 - r))
  }

  function ShiftXor(h: bv64, rshift: bv7): bv64
    requires rshift <= 64
  {
    Xor(h, ShiftRight(h, rshift))
  }

  function Mix1(h: bv64, prime: bv64, rshift: bv7): bv64
    requires rshift <= 64
  {
    Times(ShiftXor(h, rshift), prime)
  }

  function Mix2(p: bv64, v: bv64): bv64 {
    Times(Rotl(v + Times(p, PRIME2), 31), PRIME1)
  }

  function Mix3(h: bv64, v: bv64): bv64 {
    Times(Xor(h, Mix2(v, 0)), PRIME1) + PRIME4
  }

  function Byte(s: Bytes, p: nat): bv64
    requires p < |s|
  {
    s[p] as bv64
  }

  /** `endian32` and `endian64`: the bytes at `p`, least significant first. */
  function Endian32(s: Bytes, p: nat): bv64
    requires p + 4 <= |s|
  {
    Byte(s, p) | (Byte(s, p + 1) << 8) | (Byte(s, p + 2) << 16) | (Byte(s, p + 3) << 24)
  }

  function Endian64(s: Bytes, p: nat): bv64
    requires p + 8 <= |s|
  {
    Byte(s, p) | (Byte(s, p + 1) << 8) | (Byte(s, p + 2) << 16) | (Byte(s, p + 3) << 24)
    | (Byte(s, p + 4) << 32) | (Byte(s, p + 5) << 40) | (Byte(s, p + 6) << 48) | (Byte(s, p + 7) << 56)
  }

  function Fetch64(s: Bytes, p: nat, v: bv64): bv64
    requires p + 8 <= |s|
  {
    Mix2(Endian64(s, p), v)
  }

  function Fetch32(s: Bytes, p: nat): bv64
    requires p + 4 <= |s|
  {
    Times(Endian32(s, p), PRIME1)
  }

  function Fetch8(s: Bytes, p: nat): bv64
    requires p < |s|
  {
    Times(Byte(s, p), PRIME5)
  }

  function Step8(h: bv64, k: bv64): bv64 { Times(Rotl(Xor(h, k), 27), PRIME1) + PRIME4 }
  function Step4(h: bv64, k: bv64): bv64 { Times(Rotl(Xor(h, k), 23), PRIME2) + PRIME3 }
  function Step1(h: bv64, k: bv64): bv64 { Times(Rotl(Xor(h, k), 11), PRIME1) }

  function Avalanche(h: bv64): bv64 {
    Mix1(Mix1(Mix1(h, PRIME2, 33), PRIME3, 29), 1, 32)
  }

  function Finalize(h: bv64, s: Bytes, p: nat, len: nat): bv64
    requires p + len <= |s|
    decreases len
  {
    hide Times, Rotl, Mix2, Mix3, Merge, Endian64, Endian32, Step8, Step4, Step1, Avalanche, PlusLength;
    if len >= 8 then Finalize(Step8(h, Fetch64(s, p, 0)), s, p + 8, len - 8)
    else if len >= 4 then Finalize(Step4(h, Fetch32(s, p)), s, p + 4, len - 4)
    else if len > 0 then Finalize(Step1(h, Fetch8(s, p)), s, p + 1, len - 1)
    else Avalanche(h)
  }

  /** The four accumulators taken together, before they are merged one by one. */
  function Gather(v1: bv64, v2: bv64, v3: bv64, v4: bv64): bv64 {
    Rotl(v1, 1) + Rotl(v2, 7) + Rotl(v3, 12) + Rotl(v4, 18)
  }

  function Merge(v1: bv64, v2: bv64, v3: bv64, v4: bv64): bv64 {
    hide Gather, Mix3;
    Mix3(Mix3(Mix3(Mix3(Gather(v1, v2, v3, v4), v1), v2), v3), v4)
  }

  function H32Bytes(s: Bytes, p: nat, len: nat, v1: bv64, v2: bv64, v3: bv64, v4: bv64): bv64
    requires p + len <= |s|
    decreases len
  {
    hide Times, Rotl, Mix2, Mix3, Merge, Endian64, Endian32, Step8, Step4, Step1, Avalanche, PlusLength;
    if len >= 32 then
      H32Bytes(s, p + 32, len - 32,
               Fetch64(s, p, v1), Fetch64(s, p + 8, v2), Fetch64(s, p + 16, v3), Fetch64(s, p + 24, v4))
    else
      Merge(v1, v2, v3, v4)
  }

  function PlusLength(h: bv64, len: nat): bv64 {
    h + ((len % TWO_TO_THE_64) as bv64)
  }

  /** The running hash before the tail, with the length mixed in modulo 2^64. */
  function BeforeTail(s: Bytes, len: nat, seed: bv64): bv64
    requires len <= |s|
  {
    hide Times;
    PlusLength(
      if len >= 32 then H32Bytes(s, 0, len, seed + PRIME1 + PRIME2, seed + PRIME2, seed, seed - PRIME1)
      else seed + PRIME5,
      len)
  }

  /** `xxh64::hash` of the first `len` bytes at `s` */
  function Hash(s: Bytes, len: nat, seed: bv64): bv64
    requires len <= |s|
  {
    hide Times, Rotl, Mix2, Mix3, Merge, Endian64, Endian32, Step8, Step4, Step1, Avalanche, PlusLength;
    Finalize(BeforeTail(s, len, seed), s, len / 32 * 32, len % 32)
  }

  // ---------- The three entry points ----------

  /** `length`: the number of bytes before the first NUL. */
  function Length(s: Bytes): (n: nat)
    requires 0 in s
    ensures n < |s| && s[n] == 0 && 0 !in s[..n]
  {
    if s[0] == 0 then 0
    else
      assert s == [s[0]] + s[1..];
      1 + Length(s[1..])
  }

  /** `runtime_hash(const std::string &)` and `runtime_hash(const std::string_view &)` */
  function RuntimeHash(text: Bytes): bv64 {
    Hash(text, |text|, 0)
  }

  /** `runtime_hash(const char *)`; `memory` starts at the pointer. */
  function RuntimeHashPointer(memory: Bytes): bv64
    requires 0 in memory
  {
    Hash(memory, Length(memory), 0)
  }

  lemma {:induction false} FirstNul(s: Bytes, i: nat)
    requires i < |s| && s[i] == 0
    ensures Length(s) <= i
  {
    if s[0] != 0 {
      assert s == [s[0]] + s[1..];
      FirstNul(s[1..], i - 1);
    }
  }

  // ---------- Only the first `len` bytes matter ----------

  lemma Endian32Reads(s: Bytes, t: Bytes, p: nat)
    requires p + 4 <= |s| && p + 4 <= |t| && forall i :: p <= i < p + 4 ==> s[i] == t[i]
    ensures Endian32(s, p) == Endian32(t, p)
  {
    assert s[p] == t[p] && s[p + 1] == t[p + 1] && s[p + 2] == t[p + 2] && s[p + 3] == t[p + 3];
  }

  lemma Endian64Reads(s: Bytes, t: Bytes, p: nat)
    requires p + 8 <= |s| && p + 8 <= |t| && forall i :: p <= i < p + 8 ==> s[i] == t[i]
    ensures Endian64(s, p) == Endian64(t, p)
  {
    assert s[p] == t[p] && s[p + 1] == t[p + 1] && s[p + 2] == t[p + 2] && s[p + 3] == t[p + 3];
    assert s[p + 4] == t[p + 4] && s[p + 5] == t[p + 5] && s[p + 6] == t[p + 6] && s[p + 7] == t[p + 7];
  }

  lemma {:induction false} FinalizeReads(h: bv64, s: Bytes, t: Bytes, p: nat, len: nat)
    requires p + len <= |s| && p + len <= |t|
    requires forall i :: p <= i < p + len ==> s[i] == t[i]
    ensures Finalize(h, s, p, len) == Finalize(h, t, p, len)
    decreases len
  {
    hide Times, Rotl, Mix2, Mix3, Merge, Endian64, Endian32, Step8, Step4, Step1, Avalanche, PlusLength;
    if len >= 8 {
      Endian64Reads(s, t, p);
      FinalizeReads(Step8(h, Fetch64(s, p, 0)), s, t, p + 8, len - 8);
    } else if len >= 4 {
      Endian32Reads(s, t, p);
      FinalizeReads(Step4(h, Fetch32(s, p)), s, t, p + 4, len - 4);
    } else if len > 0 {
      FinalizeReads(Step1(h, Fetch8(s, p)), s, t, p + 1, len - 1);
    }
  }

  lemma {:induction false} H32BytesReads(s: Bytes, t: Bytes, p: nat, len: nat, v1: bv64, v2: bv64, v3: bv64, v4: bv64)
    requires p + len <= |s| && p + len <= |t|
    requires forall i :: p <= i < p + len / 32 * 32 ==> s[i] == t[i]
    ensures H32Bytes(s, p, len, v1, v2, v3, v4) == H32Bytes(t, p, len, v1, v2, v3, v4)
    decreases len
  {
    hide Times, Rotl, Mix2, Mix3, Merge, Endian64, Endian32, Step8, Step4, Step1, Avalanche, PlusLength;
    if len >= 32 {
      Endian64Reads(s, t, p);
      Endian64Reads(s, t, p + 8);
      Endian64Reads(s, t, p + 16);
      Endian64Reads(s, t, p + 24);
      H32BytesReads(s, t, p + 32, len - 32,
                    Fetch64(s, p, v1), Fetch64(s, p + 8, v2), Fetch64(s, p + 16, v3), Fetch64(s, p + 24, v4));
    }
  }

  /** The stripes read the bytes before the tail only. */
  lemma BeforeTailReads(s: Bytes, t: Bytes, len: nat, seed: bv64)
    requires len <= |s| && len <= |t|
    requires forall i :: 0 <= i < len / 32 * 32 ==> s[i] == t[i]
    ensures BeforeTail(s, len, seed) == BeforeTail(t, len, seed)
  {
    hide Times, Rotl, Mix2, Mix3, Merge, Endian64, Endian32, Step8, Step4, Step1, Avalanche, PlusLength;
    if len >= 32 {
      H32BytesReads(s, t, 0, len, seed + PRIME1 + PRIME2, seed + PRIME2, seed, seed - PRIME1);
    }
  }

  lemma HashReads(s: Bytes, t: Bytes, len: nat, seed: bv64)
    requires len <= |s| && len <= |t| && s[..len] == t[..len]
    ensures Hash(s, len, seed) == Hash(t, len, seed)
  {
    hide Times, Rotl, Mix2, Mix3, Merge, Endian64, Endian32, Step8, Step4, Step1, Avalanche, PlusLength;
    forall i | 0 <= i < len ensures s[i] == t[i] {
      assert s[..len][i] == t[..len][i];
    }
    BeforeTailReads(s, t, len, seed);
    FinalizeReads(BeforeTail(s, len, seed), s, t, len / 32 * 32, len % 32);
  }

  /**
   * A pointer into a C string hashes the text before its first NUL. So the overloads agree on a
   * string without NUL, and on any other string the pointer one hashes a proper prefix.
   */
  lemma OverloadsAgree(text: Bytes, beyond: Bytes)
    ensures var memory := text + [0] + beyond;
            var n := Length(memory);
            && n <= |text|
            && (n == |text| <==> 0 !in text)
            && RuntimeHashPointer(memory) == RuntimeHash(text[..n])
  {
    hide Times, Rotl, Mix2, Mix3, Merge, Endian64, Endian32, Step8, Step4, Step1, Avalanche, PlusLength;
    var memory := text + [0] + beyond;
    var n := Length(memory);
    assert memory[|text|] == 0;
    FirstNul(memory, |text|);
    assert memory[..n] == text[..n];
    if 0 in text {
      var i :| 0 <= i < |text| && text[i] == 0;
      FirstNul(memory, i);
    }
    assert n < |text| ==> text[n] == memory[n];
    HashReads(memory, text[..n], n, 0);
  }
}
