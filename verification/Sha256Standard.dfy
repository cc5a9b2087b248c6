/** SHA-256 in the terms of FIPS 180-4: words bit by bit, rounds as recurrences, constants as roots of primes. */
module Sha256Standard {
  import opened Wrappers
  import opened Sha256

  // ---------------------------------------------------------------------------------------
  // Words (section 4.1.2 of FIPS 180-4)
  // ---------------------------------------------------------------------------------------

  /** The bit of weight `2^i`. */
  predicate Bit(x: bv32, i: bv32)
    requires i < 32
  {
    (x >> i) & 1 == 1
  }

  /** The position `n` above `i`, around the end of the word. */
  function Around(i: bv32, n: bv32): (r: bv32)
    ensures r < 32
  {
    (i + n) & 31
  }

  predicate Odd(a: bool, b: bool, c: bool) { (a != b) != c }

  function Xor(p: bv32, q: bv32, r: bv32): bv32 { p ^ q ^ r }

  lemma XorBits(p: bv32, q: bv32, r: bv32, i: bv32)
    requires i < 32
    ensures Bit(Xor(p, q, r), i) <==> Odd(Bit(p, i), Bit(q, i), Bit(r, i))
  {
    assert Xor(p, q, r) == p ^ q ^ r;
    hide Xor;
    RawBits(p, q, r, i);
  }

  lemma RawBits(p: bv32, q: bv32, r: bv32, i: bv32)
    requires i < 32
    ensures Bit(p ^ q ^ r, i) <==> Odd(Bit(p, i), Bit(q, i), Bit(r, i))
  {
  }

  lemma Rotates2(x: bv32, i: bv32)
    requires i < 32
    ensures Bit(Rotr(x, 2), i) <==> Bit(x, Around(i, 2))
  {
  }

  lemma Rotates13(x: bv32, i: bv32)
    requires i < 32
    ensures Bit(Rotr(x, 13), i) <==> Bit(x, Around(i, 13))
  {
  }

  lemma Rotates22(x: bv32, i: bv32)
    requires i < 32
    ensures Bit(Rotr(x, 22), i) <==> Bit(x, Around(i, 22))
  {
  }

  lemma Rotates6(x: bv32, i: bv32)
    requires i < 32
    ensures Bit(Rotr(x, 6), i) <==> Bit(x, Around(i, 6))
  {
  }

  lemma Rotates11(x: bv32, i: bv32)
    requires i < 32
    ensures Bit(Rotr(x, 11), i) <==> Bit(x, Around(i, 11))
  {
  }

  lemma Rotates25(x: bv32, i: bv32)
    requires i < 32
    ensures Bit(Rotr(x, 25), i) <==> Bit(x, Around(i, 25))
  {
  }

  lemma Rotates7(x: bv32, i: bv32)
    requires i < 32
    ensures Bit(Rotr(x, 7), i) <==> Bit(x, Around(i, 7))
  {
  }

  lemma Rotates18(x: bv32, i: bv32)
    requires i < 32
    ensures Bit(Rotr(x, 18), i) <==> Bit(x, Around(i, 18))
  {
  }

  lemma Shifts3(x: bv32, i: bv32)
    requires i < 32
    ensures Bit(x >> 3, i) <==> i < 29 && Bit(x, i + 3)
  {
  }

  lemma Rotates17(x: bv32, i: bv32)
    requires i < 32
    ensures Bit(Rotr(x, 17), i) <==> Bit(x, Around(i, 17))
  {
  }

  lemma Rotates19(x: bv32, i: bv32)
    requires i < 32
    ensures Bit(Rotr(x, 19), i) <==> Bit(x, Around(i, 19))
  {
  }

  lemma Shifts10(x: bv32, i: bv32)
    requires i < 32
    ensures Bit(x >> 10, i) <==> i < 22 && Bit(x, i + 10)
  {
  }

  lemma Sums(x: bv32)
    ensures BigSigma0(x) == Xor(Rotr(x, 2), Rotr(x, 13), Rotr(x, 22)) && BigSigma1(x) == Xor(Rotr(x, 6), Rotr(x, 11), Rotr(x, 25))
    ensures SmallSigma0(x) == Xor(Rotr(x, 7), Rotr(x, 18), x >> 3) && SmallSigma1(x) == Xor(Rotr(x, 17), Rotr(x, 19), x >> 10)
  {
    hide Rotr;
  }

  /** Each bit of the sigma functions is the exclusive or of three bits above it: rotations go around the end of the word. */
  lemma BigSigma0Bits(x: bv32, i: bv32)
    requires i < 32
    ensures Bit(BigSigma0(x), i) <==> Odd(Bit(x, Around(i, 2)), Bit(x, Around(i, 13)), Bit(x, Around(i, 22)))
  {
    hide BigSigma0, Rotr, Bit, Around, Xor;
    Sums(x);
    Rotates2(x, i);
    Rotates13(x, i);
    Rotates22(x, i);
    XorBits(Rotr(x, 2), Rotr(x, 13), Rotr(x, 22), i);
  }

  lemma BigSigma1Bits(x: bv32, i: bv32)
    requires i < 32
    ensures Bit(BigSigma1(x), i) <==> Odd(Bit(x, Around(i, 6)), Bit(x, Around(i, 11)), Bit(x, Around(i, 25)))
  {
    hide BigSigma1, Rotr, Bit, Around, Xor;
    Sums(x);
    Rotates6(x, i);
    Rotates11(x, i);
    Rotates25(x, i);
    XorBits(Rotr(x, 6), Rotr(x, 11), Rotr(x, 25), i);
  }

  /** And shifts bring in zeros there. */
  lemma SmallSigma0Bits(x: bv32, i: bv32)
    requires i < 32
    ensures Bit(SmallSigma0(x), i) <==> Odd(Bit(x, Around(i, 7)), Bit(x, Around(i, 18)), i < 29 && Bit(x, i + 3))
  {
    hide SmallSigma0, Rotr, Bit, Around, Xor;
    Sums(x);
    Rotates7(x, i);
    Rotates18(x, i);
    Shifts3(x, i);
    XorBits(Rotr(x, 7), Rotr(x, 18), x >> 3, i);
  }

  lemma SmallSigma1Bits(x: bv32, i: bv32)
    requires i < 32
    ensures Bit(SmallSigma1(x), i) <==> Odd(Bit(x, Around(i, 17)), Bit(x, Around(i, 19)), i < 22 && Bit(x, i + 10))
  {
    hide SmallSigma1, Rotr, Bit, Around, Xor;
    Sums(x);
    Rotates17(x, i);
    Rotates19(x, i);
    Shifts10(x, i);
    XorBits(Rotr(x, 17), Rotr(x, 19), x >> 10, i);
  }

  /** `Ch` is `y` where `x` has ones and `z` where it has zeros. */
  lemma ChMasks(x: bv32, y: bv32, z: bv32)
    ensures Ch(x, y, z) & x == y & x && Ch(x, y, z) & !x == z & !x
  {
  }

  /** `Maj` is `x` where `x` and `y` agree and `z` where they differ. */
  lemma MajMasks(x: bv32, y: bv32, z: bv32)
    ensures (Maj(x, y, z) ^ x) & !(x ^ y) == 0 && (Maj(x, y, z) ^ z) & (x ^ y) == 0
  {
  }

  // ---------------------------------------------------------------------------------------
  // Constants (sections 4.2.2 and 5.3.3 of FIPS 180-4)
  // ---------------------------------------------------------------------------------------

  /** `n` is the cube root of `p`, with 32 bits behind the point, cut. */
  predicate CubeRoot(p: nat, n: nat) {
    n * n * n <= p * 0x1_0000_0000_0000_0000_0000_0000 < (n + 1) * (n + 1) * (n + 1)
  }

  /** The same of the square root. */
  predicate SquareRoot(p: nat, n: nat) {
    n * n <= p * 0x1_0000_0000_0000_0000 < (n + 1) * (n + 1)
  }

  /** The initial hash value: what is behind the point in the square roots of the first eight primes. */
  lemma InitialRoots()
    ensures SquareRoot(2, 0x1_6a09_e667) && IV.a == 0x6a09_e667
    ensures SquareRoot(3, 0x1_bb67_ae85) && IV.b == 0xbb67_ae85
    ensures SquareRoot(5, 0x2_3c6e_f372) && IV.c == 0x3c6e_f372
    ensures SquareRoot(7, 0x2_a54f_f53a) && IV.d == 0xa54f_f53a
    ensures SquareRoot(11, 0x3_510e_527f) && IV.e == 0x510e_527f
    ensures SquareRoot(13, 0x3_9b05_688c) && IV.f == 0x9b05_688c
    ensures SquareRoot(17, 0x4_1f83_d9ab) && IV.g == 0x1f83_d9ab
    ensures SquareRoot(19, 0x4_5be0_cd19) && IV.h == 0x5be0_cd19
  {
  }

  /** The round constants: what is behind the point in the cube roots of the first 64 primes, eight at a time. */
  lemma RoundRootsA()
    ensures |K| == 64
    ensures CubeRoot(2, 0x1_428a_2f98) && K[0] == 0x428a_2f98
    ensures CubeRoot(3, 0x1_7137_4491) && K[1] == 0x7137_4491
    ensures CubeRoot(5, 0x1_b5c0_fbcf) && K[2] == 0xb5c0_fbcf
    ensures CubeRoot(7, 0x1_e9b5_dba5) && K[3] == 0xe9b5_dba5
    ensures CubeRoot(11, 0x2_3956_c25b) && K[4] == 0x3956_c25b
    ensures CubeRoot(13, 0x2_59f1_11f1) && K[5] == 0x59f1_11f1
    ensures CubeRoot(17, 0x2_923f_82a4) && K[6] == 0x923f_82a4
    ensures CubeRoot(19, 0x2_ab1c_5ed5) && K[7] == 0xab1c_5ed5
  {
  }

  lemma RoundRootsB()
    ensures |K| == 64
    ensures CubeRoot(23, 0x2_d807_aa98) && K[8] == 0xd807_aa98
    ensures CubeRoot(29, 0x3_1283_5b01) && K[9] == 0x1283_5b01
    ensures CubeRoot(31, 0x3_2431_85be) && K[10] == 0x2431_85be
    ensures CubeRoot(37, 0x3_550c_7dc3) && K[11] == 0x550c_7dc3
    ensures CubeRoot(41, 0x3_72be_5d74) && K[12] == 0x72be_5d74
    ensures CubeRoot(43, 0x3_80de_b1fe) && K[13] == 0x80de_b1fe
    ensures CubeRoot(47, 0x3_9bdc_06a7) && K[14] == 0x9bdc_06a7
    ensures CubeRoot(53, 0x3_c19b_f174) && K[15] == 0xc19b_f174
  {
  }

  lemma RoundRootsC()
    ensures |K| == 64
    ensures CubeRoot(59, 0x3_e49b_69c1) && K[16] == 0xe49b_69c1
    ensures CubeRoot(61, 0x3_efbe_4786) && K[17] == 0xefbe_4786
    ensures CubeRoot(67, 0x4_0fc1_9dc6) && K[18] == 0x0fc1_9dc6
    ensures CubeRoot(71, 0x4_240c_a1cc) && K[19] == 0x240c_a1cc
    ensures CubeRoot(73, 0x4_2de9_2c6f) && K[20] == 0x2de9_2c6f
    ensures CubeRoot(79, 0x4_4a74_84aa) && K[21] == 0x4a74_84aa
    ensures CubeRoot(83, 0x4_5cb0_a9dc) && K[22] == 0x5cb0_a9dc
    ensures CubeRoot(89, 0x4_76f9_88da) && K[23] == 0x76f9_88da
  {
  }

  lemma RoundRootsD()
    ensures |K| == 64
    ensures CubeRoot(97, 0x4_983e_5152) && K[24] == 0x983e_5152
    ensures CubeRoot(101, 0x4_a831_c66d) && K[25] == 0xa831_c66d
    ensures CubeRoot(103, 0x4_b003_27c8) && K[26] == 0xb003_27c8
    ensures CubeRoot(107, 0x4_bf59_7fc7) && K[27] == 0xbf59_7fc7
    ensures CubeRoot(109, 0x4_c6e0_0bf3) && K[28] == 0xc6e0_0bf3
    ensures CubeRoot(113, 0x4_d5a7_9147) && K[29] == 0xd5a7_9147
    ensures CubeRoot(127, 0x5_06ca_6351) && K[30] == 0x06ca_6351
    ensures CubeRoot(131, 0x5_1429_2967) && K[31] == 0x1429_2967
  {
  }

  lemma RoundRootsE()
    ensures |K| == 64
    ensures CubeRoot(137, 0x5_27b7_0a85) && K[32] == 0x27b7_0a85
    ensures CubeRoot(139, 0x5_2e1b_2138) && K[33] == 0x2e1b_2138
    ensures CubeRoot(149, 0x5_4d2c_6dfc) && K[34] == 0x4d2c_6dfc
    ensures CubeRoot(151, 0x5_5338_0d13) && K[35] == 0x5338_0d13
    ensures CubeRoot(157, 0x5_650a_7354) && K[36] == 0x650a_7354
    ensures CubeRoot(163, 0x5_766a_0abb) && K[37] == 0x766a_0abb
    ensures CubeRoot(167, 0x5_81c2_c92e) && K[38] == 0x81c2_c92e
    ensures CubeRoot(173, 0x5_9272_2c85) && K[39] == 0x9272_2c85
  {
  }

  lemma RoundRootsF()
    ensures |K| == 64
    ensures CubeRoot(179, 0x5_a2bf_e8a1) && K[40] == 0xa2bf_e8a1
    ensures CubeRoot(181, 0x5_a81a_664b) && K[41] == 0xa81a_664b
    ensures CubeRoot(191, 0x5_c24b_8b70) && K[42] == 0xc24b_8b70
    ensures CubeRoot(193, 0x5_c76c_51a3) && K[43] == 0xc76c_51a3
    ensures CubeRoot(197, 0x5_d192_e819) && K[44] == 0xd192_e819
    ensures CubeRoot(199, 0x5_d699_0624) && K[45] == 0xd699_0624
    ensures CubeRoot(211, 0x5_f40e_3585) && K[46] == 0xf40e_3585
    ensures CubeRoot(223, 0x6_106a_a070) && K[47] == 0x106a_a070
  {
  }

  lemma RoundRootsG()
    ensures |K| == 64
    ensures CubeRoot(227, 0x6_19a4_c116) && K[48] == 0x19a4_c116
    ensures CubeRoot(229, 0x6_1e37_6c08) && K[49] == 0x1e37_6c08
    ensures CubeRoot(233, 0x6_2748_774c) && K[50] == 0x2748_774c
    ensures CubeRoot(239, 0x6_34b0_bcb5) && K[51] == 0x34b0_bcb5
    ensures CubeRoot(241, 0x6_391c_0cb3) && K[52] == 0x391c_0cb3
    ensures CubeRoot(251, 0x6_4ed8_aa4a) && K[53] == 0x4ed8_aa4a
    ensures CubeRoot(257, 0x6_5b9c_ca4f) && K[54] == 0x5b9c_ca4f
    ensures CubeRoot(263, 0x6_682e_6ff3) && K[55] == 0x682e_6ff3
  {
  }

  lemma RoundRootsH()
    ensures |K| == 64
    ensures CubeRoot(269, 0x6_748f_82ee) && K[56] == 0x748f_82ee
    ensures CubeRoot(271, 0x6_78a5_636f) && K[57] == 0x78a5_636f
    ensures CubeRoot(277, 0x6_84c8_7814) && K[58] == 0x84c8_7814
    ensures CubeRoot(281, 0x6_8cc7_0208) && K[59] == 0x8cc7_0208
    ensures CubeRoot(283, 0x6_90be_fffa) && K[60] == 0x90be_fffa
    ensures CubeRoot(293, 0x6_a450_6ceb) && K[61] == 0xa450_6ceb
    ensures CubeRoot(307, 0x6_bef9_a3f7) && K[62] == 0xbef9_a3f7
    ensures CubeRoot(311, 0x6_c671_78f2) && K[63] == 0xc671_78f2
  {
  }

  // ---------------------------------------------------------------------------------------
  // Rounds (section 6.2.2 of FIPS 180-4)
  // ---------------------------------------------------------------------------------------

  /** What every round adds twice, `e` being the fifth variable as the recurrence below has it. */
  function Addend(h: Regs, block: Octets, t: nat): bv32
    requires |block| == 64 && 4 <= t < 68
    decreases t, 0
  {
    Plus(Plus(Plus(Plus(E(h, block, t - 4), BigSigma1(E(h, block, t - 1))), Ch(E(h, block, t - 1), E(h, block, t - 2), E(h, block, t - 3))),
              K[t - 4]), Schedule(block, t - 4))
  }

  /** The first working variable: d, c, b and a to start with, then one value a round. */
  function A(h: Regs, block: Octets, t: nat): bv32
    requires |block| == 64 && t < 68
    decreases t, 1
  {
    if t < 4 then [h.d, h.c, h.b, h.a][t]
    else
      Plus(Addend(h, block, t), Plus(BigSigma0(A(h, block, t - 1)), Maj(A(h, block, t - 1), A(h, block, t - 2), A(h, block, t - 3))))
  }

  /** The fifth: h, g, f and e to start with. */
  function E(h: Regs, block: Octets, t: nat): bv32
    requires |block| == 64 && t < 68
    decreases t, 1
  {
    if t < 4 then [h.h, h.g, h.f, h.e][t] else Plus(A(h, block, t - 4), Addend(h, block, t))
  }

  /** The rounds are two recurrences of depth four: the other six variables only remember. */
  lemma {:induction false} RoundsRecur(h: Regs, block: Octets, t: nat)
    requires |block| == 64 && t <= 64
    ensures Rounds(h, block, t) ==
            Regs(A(h, block, t + 3), A(h, block, t + 2), A(h, block, t + 1), A(h, block, t),
                 E(h, block, t + 3), E(h, block, t + 2), E(h, block, t + 1), E(h, block, t))
  {
    hide BigSigma0, BigSigma1, Ch, Maj, Schedule, Plus;
    if t != 0 {
      RoundsRecur(h, block, t - 1);
    }
  }

  /** The schedule, summed oldest first, is the standard's recurrence over the words of the block. */
  lemma ScheduleRecurs(block: Octets, t: nat)
    requires |block| == 64 && t < 64
    ensures t < 16 ==> Schedule(block, t) == FromBytes(block[4 * t], block[4 * t + 1], block[4 * t + 2], block[4 * t + 3])
    ensures t >= 16 ==>
              Schedule(block, t) == Plus(Plus(Plus(Schedule(block, t - 16), SmallSigma0(Schedule(block, t - 15))), Schedule(block, t - 7)),
                                         SmallSigma1(Schedule(block, t - 2)))
  {
    hide FromBytes, SmallSigma0, SmallSigma1, Plus;
    if t >= 16 {
      SumBackwards(Schedule(block, t - 16), SmallSigma0(Schedule(block, t - 15)), Schedule(block, t - 7), SmallSigma1(Schedule(block, t - 2)));
    }
  }

  // ---------------------------------------------------------------------------------------
  // Octets
  // ---------------------------------------------------------------------------------------

  /** The number a string of octets writes in base 256. */
  function Number(b: Octets): nat {
    if b == [] then 0 else Number(b[..|b| - 1]) * 256 + b[|b| - 1]
  }

  lemma {:induction false} BigEndianNumber(n: nat, k: nat)
    requires n < Pow256(k)
    ensures Number(BigEndian(n, k)) == n
  {
    if k != 0 {
      BigEndianNumber(n / 256, k - 1);
      assert BigEndian(n, k)[..k - 1] == BigEndian(n / 256, k - 1);
    }
  }

  /** What padding adds: a one bit, then zeros, then the length in bits as a 64-bit number. */
  lemma Padding(msg: Octets)
    ensures var p := Pad(msg);
            && |p| >= |msg| + 9 && p[..|msg|] == msg && p[|msg|] == 128
            && (forall i :: |msg| < i < |p| - 8 ==> p[i] == 0)
            && Number(p[|p| - 8..]) == |msg| * 8 % 0x1_0000_0000_0000_0000
  {
    hide BigEndian, ZeroCount;
    PadLength(msg);
    PadEnds(msg);
    EightDigits();
    BigEndianNumber(|msg| * 8 % U64, 8);
  }

  /** Four octets and the word they are. */
  lemma WordOctets()
    ensures FromBytes(1, 2, 3, 4) == 0x0102_0304 && ToBytes(0x0102_0304) == [1, 2, 3, 4]
  {
  }

  lemma Laid(a: Octets, b: Octets, c: Octets, d: Octets, e: Octets, f: Octets, g: Octets, h: Octets)
    requires |a| == |b| == |c| == |d| == |e| == |f| == |g| == |h| == 4
    ensures var w := a + b + c + d + e + f + g + h;
            w[..16] == a + b + c + d && w[16..] == e + f + g + h
  {
  }

  /** The digest spells the eight words of the hash value, in order. */
  lemma DigestWords(msg: Octets)
    ensures var h, d := Chain(IV, Pad(msg)), Digest(msg);
            && d[..16] == ToBytes(h.a) + ToBytes(h.b) + ToBytes(h.c) + ToBytes(h.d)
            && d[16..] == ToBytes(h.e) + ToBytes(h.f) + ToBytes(h.g) + ToBytes(h.h)
  {
    hide ToBytes, Chain, Pad;
    var h := Chain(IV, Pad(msg));
    Laid(ToBytes(h.a), ToBytes(h.b), ToBytes(h.c), ToBytes(h.d), ToBytes(h.e), ToBytes(h.f), ToBytes(h.g), ToBytes(h.h));
  }

  /** The code of a message under a key of at most a block, the pads spelled out octet by octet. */
  lemma MacSpelled(key: Octets, msg: Octets, inner: Octets, outer: Octets)
    requires |key| <= 64 && |inner| == |outer| == 64
    requires forall j :: 0 <= j < 64 ==>
               var k := if j < |key| then key[j] else 0;
               inner[j] == ((k as bv8) ^ 0x36) as int && outer[j] == ((k as bv8) ^ 0x5c) as int
    ensures Mac(key, msg) == Digest(outer + Digest(inner + msg))
  {
    hide Digest;
    assert XorAll(BlockKey(key), 0x36) == inner;
    assert XorAll(BlockKey(key), 0x5c) == outer;
  }
}
