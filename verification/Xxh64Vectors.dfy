/**
 * Known answers of the hash: the text that the repository's own test hashes, and published values
 * of XXH64 with seed 0 for the empty text and for a text that takes every path of the algorithm.
 */
module Xxh64Vectors {
  import opened Xxh64

  lemma EmptyText()
    ensures RuntimeHash([]) == 0xEF46DB3751D8E999
  {
  }

  /** `foo188` */
  const FOO188: Bytes := [0x66, 0x6F, 0x6F, 0x31, 0x38, 0x38]

  lemma Foo188()
    ensures RuntimeHash(FOO188) == 3578094862220341077
  {
    assert BeforeTail(FOO188, 6, 0) == 0x27D4EB2F165667CB;
    assert Endian32(FOO188, 0) == 0x316F6F66;
    assert Fetch32(FOO188, 0) == 0xD679A8CD404C3ACA;
    assert Step4(0x27D4EB2F165667CB, 0xD679A8CD404C3ACA) == 0x230072911C5B80A8;
    assert Fetch8(FOO188, 4) == Fetch8(FOO188, 5) == 0xB693724CE2E6B318;
    assert Step1(0x230072911C5B80A8, 0xB693724CE2E6B318) == 0x50AEE576A2A4AEB4;
    assert Step1(0x50AEE576A2A4AEB4, 0xB693724CE2E6B318) == 0xA3D5C2DD6F9914D7;
    assert Avalanche(0xA3D5C2DD6F9914D7) == 3578094862220341077;
    hide Times, Rotl, Mix2, Mix3, Endian64, Endian32, Step8, Step4, Step1, Avalanche, PlusLength, Fetch8, Fetch32, BeforeTail;
    assert Finalize(0xA3D5C2DD6F9914D7, FOO188, 6, 0) == 3578094862220341077;
    assert Finalize(0x50AEE576A2A4AEB4, FOO188, 5, 1) == 3578094862220341077;
    assert Finalize(0x230072911C5B80A8, FOO188, 4, 2) == 3578094862220341077;
    assert Finalize(0x27D4EB2F165667CB, FOO188, 0, 6) == 3578094862220341077;
  }

  /** "Call me Ishmael. Some years ago--never mind how long precisely-" */
  const ISHMAEL: Bytes :=
    [0x43, 0x61, 0x6C, 0x6C, 0x20, 0x6D, 0x65, 0x20]
    + [0x49, 0x73, 0x68, 0x6D, 0x61, 0x65, 0x6C, 0x2E]
    + [0x20, 0x53, 0x6F, 0x6D, 0x65, 0x20, 0x79, 0x65]
    + [0x61, 0x72, 0x73, 0x20, 0x61, 0x67, 0x6F, 0x2D]
    + [0x2D, 0x6E, 0x65, 0x76, 0x65, 0x72, 0x20, 0x6D]
    + [0x69, 0x6E, 0x64, 0x20, 0x68, 0x6F, 0x77, 0x20]
    + [0x6C, 0x6F, 0x6E, 0x67, 0x20, 0x70, 0x72, 0x65]
    + [0x63, 0x69, 0x73, 0x65, 0x6C, 0x79, 0x2D]
  /** The four lanes of the stripe. */
  lemma IshmaelLanes01()
    ensures Fetch64(ISHMAEL, 0, 0x60EA27EEADC0B5D6) == 0x670B8618B3AA2200
    ensures Fetch64(ISHMAEL, 8, 0xC2B2AE3D27D4EB4F) == 0xFC3FF3C0203BC028
  {
    assert Endian64(ISHMAEL, 0) == 0x20656D206C6C6143;
    assert Endian64(ISHMAEL, 8) == 0x2E6C65616D687349;
  }

  lemma IshmaelLanes23()
    ensures Fetch64(ISHMAEL, 16, 0x0) == 0x9677E9E66681D852
    ensures Fetch64(ISHMAEL, 24, 0x61C8864E7A143579) == 0xDA7D9AAFD0C02036
  {
    assert Endian64(ISHMAEL, 16) == 0x657920656D6F5320;
    assert Endian64(ISHMAEL, 24) == 0x2D6F676120737261;
  }

  /** The merge of the accumulators, and the length. */
  lemma IshmaelMerge()
    ensures Merge(0x670B8618B3AA2200, 0xFC3FF3C0203BC028, 0x9677E9E66681D852, 0xDA7D9AAFD0C02036) == 0xB89F94801D165F2A
    ensures PlusLength(0xB89F94801D165F2A, 63) == 0xB89F94801D165F69
  {
    assert Rotl(0x670B8618B3AA2200, 1) + Rotl(0xFC3FF3C0203BC028, 7) + Rotl(0x9677E9E66681D852, 12) + Rotl(0xDA7D9AAFD0C02036, 18) == 0xD76E95AA2394EBDB;
    assert Mix3(0xD76E95AA2394EBDB, 0x670B8618B3AA2200) == 0xD9CECBCFAB49C481;
    assert Mix3(0xD9CECBCFAB49C481, 0xFC3FF3C0203BC028) == 0x6EE1A8BEE73B84E1;
    assert Mix3(0x6EE1A8BEE73B84E1, 0x9677E9E66681D852) == 0x96B73AAB55D70966;
    assert Mix3(0x96B73AAB55D70966, 0xDA7D9AAFD0C02036) == 0xB89F94801D165F2A;
    hide Mix3, Rotl;
  }

  lemma IshmaelStart()
    ensures 0 + PRIME1 + PRIME2 == 0x60EA27EEADC0B5D6 && 0 + PRIME2 == 0xC2B2AE3D27D4EB4F && 0 - PRIME1 == 0x61C8864E7A143579
  {
  }

  /** The tail: three chunks of eight bytes, one of four and three of one. */
  lemma IshmaelChunk32()
    ensures Fetch64(ISHMAEL, 32, 0) == 0x285D251BC27BCFB9
    ensures Step8(0xB89F94801D165F69, 0x285D251BC27BCFB9) == 0xC718C0CF5EC8337
  {
    assert Endian64(ISHMAEL, 32) == 0x6D20726576656E2D;
  }

  lemma IshmaelChunk40()
    ensures Fetch64(ISHMAEL, 40, 0) == 0xF656017EC77C8590
    ensures Step8(0xC718C0CF5EC8337, 0xF656017EC77C8590) == 0xDDA50D5890EEF8D0
  {
    assert Endian64(ISHMAEL, 40) == 0x20776F6820646E69;
  }

  lemma IshmaelChunk48()
    ensures Fetch64(ISHMAEL, 48, 0) == 0xD8A17DD9C3294F62
    ensures Step8(0xDDA50D5890EEF8D0, 0xD8A17DD9C3294F62) == 0xE2E40EBEA20F90FF
  {
    assert Endian64(ISHMAEL, 48) == 0x65727020676E6F6C;
  }

  lemma IshmaelChunk56()
    ensures Fetch32(ISHMAEL, 56) == 0xA4F30F67BDE5B135
    ensures Step4(0xE2E40EBEA20F90FF, 0xA4F30F67BDE5B135) == 0x2BCA5F8585968679
  {
    assert Endian32(ISHMAEL, 56) == 0x65736963;
  }

  lemma IshmaelBytes()
    ensures Fetch8(ISHMAEL, 60) == 0xCDD337DD6C73C71C
    ensures Step1(0x2BCA5F8585968679, 0xCDD337DD6C73C71C) == 0x165849E44031C250
    ensures Fetch8(ISHMAEL, 61) == 0xD3A329418ED70C1D
    ensures Step1(0x165849E44031C250, 0xD3A329418ED70C1D) == 0x9669659C916E30C9
    ensures Fetch8(ISHMAEL, 62) == 0x6D5746ED303DA1
    ensures Step1(0x9669659C916E30C9, 0x6D5746ED303DA1) == 0x7166E938EA5418D0
    ensures Avalanche(0x7166E938EA5418D0) == 0x2A2E85470D6FD96
  {
  }

  lemma IshmaelConverge()
    ensures H32Bytes(ISHMAEL, 32, 31, 0x670B8618B3AA2200, 0xFC3FF3C0203BC028, 0x9677E9E66681D852, 0xDA7D9AAFD0C02036) == 0xB89F94801D165F2A
  {
    IshmaelMerge();
    hide Times, Rotl, Merge, Mix2, Mix3, Endian64, Endian32, PlusLength, Fetch64;
  }

  lemma IshmaelStripe()
    ensures H32Bytes(ISHMAEL, 0, 63, 0x60EA27EEADC0B5D6, 0xC2B2AE3D27D4EB4F, 0x0, 0x61C8864E7A143579) == 0xB89F94801D165F2A
  {
    IshmaelLanes01();
    IshmaelLanes23();
    IshmaelConverge();
    hide Times, Rotl, Mix2, Mix3, Endian64, Endian32, PlusLength, Fetch64;
  }

  lemma IshmaelBeforeTail()
    ensures BeforeTail(ISHMAEL, 63, 0) == 0xB89F94801D165F69
  {
    IshmaelStripe();
    IshmaelMerge();
    IshmaelStart();
    hide Times, Rotl, Mix2, Mix3, Endian64, Endian32, PlusLength, H32Bytes;
  }

  lemma IshmaelTail()
    ensures Finalize(0xB89F94801D165F69, ISHMAEL, 32, 31) == 0x2A2E85470D6FD96
  {
    IshmaelChunk32();
    IshmaelChunk40();
    IshmaelChunk48();
    IshmaelChunk56();
    IshmaelBytes();
    hide Times, Rotl, Mix2, Endian64, Endian32, Step8, Step4, Step1, Avalanche, Fetch64, Fetch32, Fetch8;
    assert Finalize(0x7166E938EA5418D0, ISHMAEL, 63, 0) == 0x2A2E85470D6FD96;
    assert Finalize(0x9669659C916E30C9, ISHMAEL, 62, 1) == 0x2A2E85470D6FD96;
    assert Finalize(0x165849E44031C250, ISHMAEL, 61, 2) == 0x2A2E85470D6FD96;
    assert Finalize(0x2BCA5F8585968679, ISHMAEL, 60, 3) == 0x2A2E85470D6FD96;
    assert Finalize(0xE2E40EBEA20F90FF, ISHMAEL, 56, 7) == 0x2A2E85470D6FD96;
    assert Finalize(0xDDA50D5890EEF8D0, ISHMAEL, 48, 15) == 0x2A2E85470D6FD96;
    assert Finalize(0xC718C0CF5EC8337, ISHMAEL, 40, 23) == 0x2A2E85470D6FD96;
    assert Finalize(0xB89F94801D165F69, ISHMAEL, 32, 31) == 0x2A2E85470D6FD96;
  }

  lemma Ishmael()
    ensures RuntimeHash(ISHMAEL) == 0x2A2E85470D6FD96
  {
    IshmaelBeforeTail();
    IshmaelTail();
    hide BeforeTail, Finalize;
  }
}
