/**
 Which checksum it is, and what it detects: it is linear, and finds every change within four
 neighbouring bytes.
 */
module ChecksumLaws {
  import opened Checksum

  /** The check value of CRC-32 (IEEE 802.3) for the digits 1 to 9, before the last inversion. */
  lemma CheckValue()
    ensures Crc(0xffff_ffff, [0x31, 0x32, 0x33, 0x34, 0x35, 0x36, 0x37, 0x38, 0x39]) == 0x340b_c6d9
  {
    hide ByteStep, Crc;
    Bytes123();
    Bytes456();
    Bytes789();
    var a: seq<bv8>, b: seq<bv8>, c: seq<bv8> := [0x31, 0x32, 0x33], [0x34, 0x35, 0x36], [0x37, 0x38, 0x39];
    CrcChain(0xffff_ffff, a, b + c);
    CrcChain(0x77b7_9c2d, b, c);
    assert a + (b + c) == [0x31, 0x32, 0x33, 0x34, 0x35, 0x36, 0x37, 0x38, 0x39];
  }

  lemma CrcThree(c: bv32, a: bv8, b: bv8, d: bv8)
    ensures Crc(c, [a, b, d]) == ByteStep(ByteStep(ByteStep(c, a), b), d)
  {
    hide ByteStep;
    assert [a, b, d][1..] == [b, d] && [b, d][1..] == [d] && [d][1..] == [];
    assert Crc(ByteStep(ByteStep(c, a), b), [d]) == ByteStep(ByteStep(ByteStep(c, a), b), d);
  }

  lemma Bytes123()
    ensures Crc(0xffff_ffff, [0x31, 0x32, 0x33]) == 0x77b7_9c2d
  {
    hide Crc;
    CrcThree(0xffff_ffff, 0x31, 0x32, 0x33);
    ByteIs(0xffff_ffff, 0x31);
    ByteIs(0x7c23_1048, 0x32);
    ByteIs(0xb0ac_bb32, 0x33);
  }

  lemma Bytes456()
    ensures Crc(0x77b7_9c2d, [0x34, 0x35, 0x36]) == 0xf68d_2c9e
  {
    hide Crc;
    CrcThree(0x77b7_9c2d, 0x34, 0x35, 0x36);
    ByteIs(0x77b7_9c2d, 0x34);
    ByteIs(0x641c_1f5c, 0x35);
    ByteIs(0x340a_c5e3, 0x36);
  }

  lemma Bytes789()
    ensures Crc(0xf68d_2c9e, [0x37, 0x38, 0x39]) == 0x340b_c6d9
  {
    hide Crc;
    CrcThree(0xf68d_2c9e, 0x37, 0x38, 0x39);
    ByteIs(0xf68d_2c9e, 0x37);
    ByteIs(0xaffc_9660, 0x38);
    ByteIs(0x651f_2550, 0x39);
  }

  lemma ByteIs(c: bv32, b: bv8)
    ensures var x := c ^ (b as bv32);
            ByteStep(c, b) == BitStep(BitStep(BitStep(BitStep(BitStep(BitStep(BitStep(BitStep(x))))))))
  {
    hide BitStep;
    var x := c ^ (b as bv32);
    assert BitSteps(x, 8) == BitSteps(BitStep(BitStep(x)), 6);
    assert BitSteps(BitStep(BitStep(x)), 6) == BitSteps(BitStep(BitStep(BitStep(BitStep(x)))), 4);
  }

  // ----- linearity -----

  function Xor(a: bv32, b: bv32): bv32 { a ^ b }

  lemma XorGroup(a: bv32, b: bv32, c: bv32)
    ensures Xor(Xor(a, b), c) == Xor(a, Xor(b, c)) && Xor(a, b) == Xor(b, a)
  {
  }

  lemma XorFour(a: bv32, p: bv32, b: bv32, q: bv32)
    ensures Xor(Xor(a, p), Xor(b, q)) == Xor(Xor(a, b), Xor(p, q))
  {
    hide Xor;
    XorGroup(a, p, Xor(b, q));
    XorGroup(p, b, q);
    XorGroup(b, p, q);
    XorGroup(a, b, Xor(p, q));
  }

  lemma XorUnits(a: bv32)
    ensures Xor(a, a) == 0 && Xor(a, 0) == a && Xor(0, a) == a
  {
  }

  lemma XorBytes(a: bv8, b: bv8)
    ensures (a ^ b) as bv32 == Xor(a as bv32, b as bv32)
  {
  }

  /** What the lowest bit adds in one step. */
  function Feedback(c: bv32): bv32 { if c & 1 != 0 then POLYNOMIAL else 0 }

  function Half(c: bv32): bv32 { c >> 1 }

  lemma BitStepIs(c: bv32)
    ensures BitStep(c) == Xor(Half(c), Feedback(c))
  {
  }

  lemma HalfLinear(c: bv32, d: bv32)
    ensures Half(Xor(c, d)) == Xor(Half(c), Half(d))
  {
  }

  lemma ParityXor(c: bv32, d: bv32)
    ensures (Xor(c, d) & 1 != 0) == ((c & 1 != 0) != (d & 1 != 0))
  {
  }

  lemma FeedbackLinear(c: bv32, d: bv32)
    ensures Feedback(Xor(c, d)) == Xor(Feedback(c), Feedback(d))
  {
    hide Xor;
    ParityXor(c, d);
    XorUnits(POLYNOMIAL);
    XorUnits(0);
  }

  lemma BitStepLinear(c: bv32, d: bv32)
    ensures BitStep(Xor(c, d)) == Xor(BitStep(c), BitStep(d))
  {
    hide Xor, Half, Feedback, BitStep;
    BitStepIs(c);
    BitStepIs(d);
    BitStepIs(Xor(c, d));
    HalfLinear(c, d);
    FeedbackLinear(c, d);
    XorFour(Half(c), Feedback(c), Half(d), Feedback(d));
  }

  lemma {:induction false} BitStepsLinear(c: bv32, d: bv32, n: nat)
    ensures BitSteps(Xor(c, d), n) == Xor(BitSteps(c, n), BitSteps(d, n))
    decreases n
  {
    hide BitStep, Xor;
    if n > 0 {
      BitStepLinear(c, d);
      BitStepsLinear(BitStep(c), BitStep(d), n - 1);
    }
  }

  lemma ByteStepIs(c: bv32, b: bv8)
    ensures ByteStep(c, b) == BitSteps(Xor(c, b as bv32), 8)
  {
    hide BitSteps;
  }

  lemma ByteStepLinear(c: bv32, d: bv32, a: bv8, b: bv8)
    ensures ByteStep(Xor(c, d), a ^ b) == Xor(ByteStep(c, a), ByteStep(d, b))
  {
    hide BitSteps, Xor, ByteStep;
    ByteStepIs(c, a);
    ByteStepIs(d, b);
    ByteStepIs(Xor(c, d), a ^ b);
    XorBytes(a, b);
    XorFour(c, a as bv32, d, b as bv32);
    BitStepsLinear(Xor(c, a as bv32), Xor(d, b as bv32), 8);
  }

  /** The bytewise difference of two texts. */
  function Difference(s: seq<bv8>, t: seq<bv8>): (r: seq<bv8>)
    requires |s| == |t|
    ensures |r| == |s|
  {
    seq(|s|, i requires 0 <= i < |s| => s[i] ^ t[i])
  }

  /** The difference of two checksums is the checksum of the difference. */
  lemma {:induction false} CrcLinear(c: bv32, d: bv32, s: seq<bv8>, t: seq<bv8>)
    requires |s| == |t|
    ensures Crc(Xor(c, d), Difference(s, t)) == Xor(Crc(c, s), Crc(d, t))
    decreases |s|
  {
    hide ByteStep, Xor;
    if s != [] {
      ByteStepLinear(c, d, s[0], t[0]);
      CrcLinear(ByteStep(c, s[0]), ByteStep(d, t[0]), s[1..], t[1..]);
      assert Difference(s, t)[1..] == Difference(s[1..], t[1..]);
    }
  }

  // ----- changes of neighbouring bytes -----

  function Up(x: bv32): bv32 { x << 8 }

  lemma ShiftedByte(b: bv32)
    requires b < 0x100_0000
    ensures BitStep(BitStep(BitStep(BitStep(BitStep(BitStep(BitStep(BitStep(Up(b)))))))) ) == b
  {
  }

  lemma EightSteps(x: bv32)
    ensures BitSteps(x, 8) == BitStep(BitStep(BitStep(BitStep(BitStep(BitStep(BitStep(BitStep(x))))))))
  {
    hide BitStep;
    assert BitSteps(x, 8) == BitSteps(BitStep(BitStep(x)), 6);
    assert BitSteps(BitStep(BitStep(x)), 6) == BitSteps(BitStep(BitStep(BitStep(BitStep(x)))), 4);
  }

  /** Eight steps bring the next bytes of a word down. */
  lemma NextBytes(x: bv32, y: bv32)
    requires y < 0x100_0000
    ensures Xor(BitSteps(x, 8), y) == BitSteps(Xor(x, Up(y)), 8)
  {
    hide BitStep, BitSteps, Xor, Up;
    BitStepsLinear(x, Up(y), 8);
    EightSteps(Up(y));
    ShiftedByte(y);
  }

  lemma {:induction false} StepsTwice(x: bv32, m: nat, n: nat)
    ensures BitSteps(BitSteps(x, m), n) == BitSteps(x, m + n)
    decreases m
  {
    hide BitStep;
    if m > 0 {
      StepsTwice(BitStep(x), m - 1, n);
    }
  }

  /** Up to four bytes as a word, the first one lowest. */
  function Word(s: seq<bv8>): bv32
  {
    if s == [] then 0 else Xor(s[0] as bv32, Up(Word(s[1..])))
  }

  lemma WordStep(b: bv8, w: bv32)
    ensures w == 0 ==> Xor(b as bv32, Up(w)) < 0x100
    ensures w < 0x100 ==> Xor(b as bv32, Up(w)) < 0x1_0000
    ensures w < 0x1_0000 ==> Xor(b as bv32, Up(w)) < 0x100_0000
  {
  }

  lemma {:induction false} WordBound(s: seq<bv8>)
    requires |s| <= 3
    ensures Word(s) < 0x100_0000
    ensures |s| == 0 ==> Word(s) == 0
    ensures |s| <= 1 ==> Word(s) < 0x100
    ensures |s| <= 2 ==> Word(s) < 0x1_0000
    decreases |s|
  {
    hide Xor, Up;
    if s != [] {
      WordBound(s[1..]);
      WordStep(s[0], Word(s[1..]));
    }
  }

  lemma WordParts(a: bv8, b: bv8, v: bv32, w: bv32)
    requires v < 0x100_0000 && w < 0x100_0000 && Xor(a as bv32, Up(v)) == Xor(b as bv32, Up(w))
    ensures a == b && v == w
  {
  }

  /** Different bytes have different words. */
  lemma {:induction false} WordInjective(s: seq<bv8>, t: seq<bv8>)
    requires |s| == |t| <= 4 && Word(s) == Word(t)
    ensures s == t
    decreases |s|
  {
    hide Xor, Up;
    if s != [] {
      WordBound(s[1..]);
      WordBound(t[1..]);
      WordParts(s[0], t[0], Word(s[1..]), Word(t[1..]));
      WordInjective(s[1..], t[1..]);
    }
  }

  /** The checksum of up to four bytes is that of their word. */
  lemma {:induction false} WordCrc(c: bv32, s: seq<bv8>)
    requires |s| <= 4
    ensures Crc(c, s) == BitSteps(Xor(c, Word(s)), 8 * |s|)
    decreases |s|
  {
    hide BitStep, Xor, Up, ByteStep;
    if s == [] {
      XorUnits(c);
    } else {
      hide BitSteps;
      var w := Word(s[1..]);
      var x := Xor(c, s[0] as bv32);
      ByteStepIs(c, s[0]);
      WordCrc(ByteStep(c, s[0]), s[1..]);
      WordBound(s[1..]);
      NextBytes(x, w);
      StepsTwice(Xor(x, Up(w)), 8, 8 * |s[1..]|);
      XorGroup(c, s[0] as bv32, Up(w));
    }
  }

  lemma XorSame(c: bv32, v: bv32, w: bv32)
    requires Xor(c, v) == Xor(c, w)
    ensures v == w
  {
  }

  /** The checksum finds every change that stays within four neighbouring bytes, wherever it is. */
  lemma BurstChanges(c: bv32, before: seq<bv8>, s: seq<bv8>, t: seq<bv8>, after: seq<bv8>)
    requires |s| == |t| <= 4 && s != t
    ensures Crc(c, before + s + after) != Crc(c, before + t + after)
  {
    hide Crc, BitSteps, Xor, Word;
    var x := Crc(c, before);
    CrcChain(c, before + s, after);
    CrcChain(c, before, s);
    CrcChain(c, before + t, after);
    CrcChain(c, before, t);
    if Crc(c, before + s + after) == Crc(c, before + t + after) {
      CrcInjective(Crc(x, s), Crc(x, t), after);
      WordCrc(x, s);
      WordCrc(x, t);
      BitStepsInjective(Xor(x, Word(s)), Xor(x, Word(t)), 8 * |s|);
      XorSame(x, Word(s), Word(t));
      WordInjective(s, t);
    }
  }
}
