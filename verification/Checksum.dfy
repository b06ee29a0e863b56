/** The checksum of tools/lib/carlfw.c. */
module Checksum {

  const POLYNOMIAL: bv32 := 0xedb8_8320
  const SEED: bv32 := 0xffff_ffff

  /** One round of the inner loop. */
  function BitStep(c: bv32): bv32 {
    (c >> 1) ^ (if c & 1 != 0 then POLYNOMIAL else 0)
  }

  function BitSteps(c: bv32, n: nat): bv32
    decreases n
  {
    if n == 0 then c else BitSteps(BitStep(c), n - 1)
  }

  function ByteStep(c: bv32, b: bv8): bv32 {
    BitSteps(c ^ (b as bv32), 8)
  }

  function Crc(c: bv32, s: seq<bv8>): bv32
    decreases |s|
  {
    if s == [] then c else Crc(ByteStep(c, s[0]), s[1..])
  }

  /** A checksum that is seeded with another one is the checksum of both texts together. */
  lemma {:induction false} CrcChain(c: bv32, a: seq<bv8>, b: seq<bv8>)
    ensures Crc(c, a + b) == Crc(Crc(c, a), b)
    decreases |a|
  {
    hide ByteStep;
    if a == [] {
      assert a + b == b;
    } else {
      assert (a + b)[1..] == a[1..] + b;
      CrcChain(ByteStep(c, a[0]), a[1..], b);
    }
  }

  /** The polynomial has its top bit set, so the top bit tells which bit was shifted out. */
  function BitBack(c: bv32): bv32 {
    if c & 0x8000_0000 != 0 then ((c ^ POLYNOMIAL) << 1) | 1 else c << 1
  }

  lemma BitStepBack(c: bv32)
    ensures BitBack(BitStep(c)) == c
  {}

  lemma {:induction false} BitStepsInjective(c: bv32, d: bv32, n: nat)
    requires BitSteps(c, n) == BitSteps(d, n)
    ensures c == d
    decreases n
  {
    if n > 0 {
      hide BitStep, BitBack;
      BitStepsInjective(BitStep(c), BitStep(d), n - 1);
      BitStepBack(c);
      BitStepBack(d);
    }
  }

  lemma XorInjective(c: bv32, d: bv32, a: bv8, b: bv8)
    requires c ^ (a as bv32) == d ^ (b as bv32)
    ensures a == b ==> c == d
    ensures c == d ==> a == b
  {}

  lemma ByteStepInjective(c: bv32, d: bv32, a: bv8, b: bv8)
    requires ByteStep(c, a) == ByteStep(d, b)
    ensures a == b ==> c == d
    ensures c == d ==> a == b
  {
    hide BitSteps;
    BitStepsInjective(c ^ (a as bv32), d ^ (b as bv32), 8);
    XorInjective(c, d, a, b);
  }

  lemma {:induction false} CrcInjective(c: bv32, d: bv32, s: seq<bv8>)
    requires Crc(c, s) == Crc(d, s)
    ensures c == d
    decreases |s|
  {
    hide ByteStep;
    if s != [] {
      CrcInjective(ByteStep(c, s[0]), ByteStep(d, s[0]), s[1..]);
      ByteStepInjective(c, d, s[0], s[0]);
    }
  }

  /** The checksum finds every change of a single byte. */
  lemma {:induction false} OneByteChanges(c: bv32, s: seq<bv8>, i: nat, b: bv8)
    requires i < |s| && s[i] != b
    ensures Crc(c, s[i := b]) != Crc(c, s)
    decreases |s|
  {
    hide ByteStep;
    if i == 0 {
      assert s[0 := b][1..] == s[1..];
      if Crc(c, s[0 := b]) == Crc(c, s) {
        CrcInjective(ByteStep(c, b), ByteStep(c, s[0]), s[1..]);
        ByteStepInjective(c, c, b, s[0]);
      }
    } else {
      assert s[i := b][1..] == s[1..][i - 1 := b];
      OneByteChanges(ByteStep(c, s[0]), s[1..], i - 1, b);
    }
  }

  method Crc32Le(seed: bv32, s: seq<bv8>) returns (crc: bv32)
    ensures crc == Crc(seed, s)
  {
    crc := seed;
    var k := 0;
    while k < |s|
      invariant 0 <= k <= |s|
      invariant Crc(crc, s[k..]) == Crc(seed, s)
    {
      hide BitStep;
      ghost var was := crc;
      assert s[k..][0] == s[k] && s[k..][1..] == s[k + 1..];
      crc := crc ^ (s[k] as bv32);
      var i := 0;
      while i < 8
        invariant 0 <= i <= 8
        invariant BitSteps(crc, 8 - i) == ByteStep(was, s[k])
      {
        crc := BitStep(crc);
        i := i + 1;
      }
      k := k + 1;
    }
    assert s[k..] == [];
  }
}
