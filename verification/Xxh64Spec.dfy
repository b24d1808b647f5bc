/**
 * The XXH64 algorithm as its public description gives it ("XXH64 Algorithm Description", steps 1
 * to 6): four accumulators over 32-byte stripes, convergence, length, tail and avalanche, in
 * loops. The recursive form computes the same value.
 */
module Xxh64Spec {
  import opened Xxh64

  function Lane64(input: Bytes, at: nat): bv64
    requires at + 8 <= |input|
  {
    Endian64(input, at)
  }

  function Lane32(input: Bytes, at: nat): bv64
    requires at + 4 <= |input|
  {
    Endian32(input, at)
  }

  function Round(acc: bv64, lane: bv64): bv64 {
    var acc1 := acc + Times(lane, PRIME2);
    Times(Rotl(acc1, 31), PRIME1)
  }

  function MergeAccumulator(acc: bv64, accN: bv64): bv64 {
    var acc1 := Xor(acc, Round(0, accN));
    Times(acc1, PRIME1) + PRIME4
  }

  lemma RoundIsMix(acc: bv64, lane: bv64)
    ensures Round(acc, lane) == Mix2(lane, acc)
  {
    hide Times, Xor, ShiftRight, Rotl;
  }

  lemma MergeIsMix(acc: bv64, accN: bv64)
    ensures MergeAccumulator(acc, accN) == Mix3(acc, accN)
  {
    hide Times, Xor, ShiftRight, Round, Mix2;
    RoundIsMix(0, accN);
  }

  method Compute(input: Bytes, seed: bv64) returns (acc: bv64)
    ensures acc == Hash(input, |input|, seed)
  {
    hide Times, Xor, ShiftRight, PlusLength, Finalize;
    var at := 0;
    if |input| < 32 {
      acc := seed + PRIME5;
    } else {
      acc, at := Stripes(input, seed + PRIME1 + PRIME2, seed + PRIME2, seed, seed - PRIME1);
    }
    acc := PlusLength(acc, |input|);
    acc := Tail(input, at, acc);
  }

  /** Steps 2 and 3, from the initial accumulators. */
  method Stripes(input: Bytes, v1: bv64, v2: bv64, v3: bv64, v4: bv64) returns (acc: bv64, at: nat)
    requires |input| >= 32
    ensures at == |input| / 32 * 32
    ensures acc == H32Bytes(input, 0, |input|, v1, v2, v3, v4)
  {
    hide Times, Xor, ShiftRight, Rotl, Round, MergeAccumulator, Merge, Mix2, Mix3, Endian64;
    var acc1, acc2, acc3, acc4 := v1, v2, v3, v4;
    ghost var goal := H32Bytes(input, 0, |input|, v1, v2, v3, v4);
    at := 0;
    while at + 32 <= |input|
      invariant at <= |input| && at % 32 == 0
      invariant H32Bytes(input, at, |input| - at, acc1, acc2, acc3, acc4) == goal
      decreases |input| - at
    {
      RoundIsMix(acc1, Lane64(input, at));
      RoundIsMix(acc2, Lane64(input, at + 8));
      RoundIsMix(acc3, Lane64(input, at + 16));
      RoundIsMix(acc4, Lane64(input, at + 24));
      acc1 := Round(acc1, Lane64(input, at));
      acc2 := Round(acc2, Lane64(input, at + 8));
      acc3 := Round(acc3, Lane64(input, at + 16));
      acc4 := Round(acc4, Lane64(input, at + 24));
      at := at + 32;
    }
    acc := Converge(acc1, acc2, acc3, acc4);
  }

  /** Step 3. */
  method Converge(acc1: bv64, acc2: bv64, acc3: bv64, acc4: bv64) returns (acc: bv64)
    ensures acc == Merge(acc1, acc2, acc3, acc4)
  {
    hide Times, Xor, ShiftRight, Rotl, Gather, Round, MergeAccumulator, Mix2, Mix3;
    acc := Gather(acc1, acc2, acc3, acc4);
    MergeIsMix(acc, acc1);
    acc := MergeAccumulator(acc, acc1);
    MergeIsMix(acc, acc2);
    acc := MergeAccumulator(acc, acc2);
    MergeIsMix(acc, acc3);
    acc := MergeAccumulator(acc, acc3);
    MergeIsMix(acc, acc4);
    acc := MergeAccumulator(acc, acc4);
  }

  /** Step 5, then step 6. */
  method Tail(input: Bytes, from: nat, h: bv64) returns (acc: bv64)
    requires from <= |input|
    ensures acc == Finalize(h, input, from, |input| - from)
  {
    hide Times, Xor, ShiftRight, Rotl, Round, Mix2, Avalanche, Endian64, Endian32;
    var at := from;
    acc := h;
    ghost var goal := Finalize(h, input, from, |input| - from);
    while at + 8 <= |input|
      invariant at <= |input| && Finalize(acc, input, at, |input| - at) == goal
      decreases |input| - at
    {
      RoundIsMix(0, Lane64(input, at));
      acc := Xor(acc, Round(0, Lane64(input, at)));
      acc := Times(Rotl(acc, 27), PRIME1) + PRIME4;
      at := at + 8;
    }
    if at + 4 <= |input| {
      acc := Xor(acc, Times(Lane32(input, at), PRIME1));
      acc := Times(Rotl(acc, 23), PRIME2) + PRIME3;
      at := at + 4;
    }
    while at < |input|
      invariant at <= |input| && |input| - at < 4 && Finalize(acc, input, at, |input| - at) == goal
      decreases |input| - at
    {
      acc := Xor(acc, Times(Byte(input, at), PRIME5));
      acc := Times(Rotl(acc, 11), PRIME1);
      at := at + 1;
    }
    acc := Scramble(acc);
  }

  /** Step 6. */
  method Scramble(h: bv64) returns (acc: bv64)
    ensures acc == Avalanche(h)
  {
    hide Times, Xor, ShiftRight, ShiftXor;
    acc := ShiftXor(h, 33);
    acc := Times(acc, PRIME2);
    acc := ShiftXor(acc, 29);
    acc := Times(acc, PRIME3);
    acc := ShiftXor(acc, 32);
    TimesOne(acc);
  }
}
