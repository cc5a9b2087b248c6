/** The vendored SHA-256 and HMAC, against FIPS 180-4 and RFC 2104. */
module Sha256 {

  import opened Wrappers

  type Octets = seq<byte>

  const BLOCK: nat := 64

  // ---------------------------------------------------------------------------------------
  // Padding (section 5.1.1 of FIPS 180-4)
  // ---------------------------------------------------------------------------------------

  const U64: nat := 0x1_0000_0000_0000_0000

  /** `n` zero octets. */
  function Zeros(n: nat): (z: Octets)
    ensures |z| == n
  {
    seq(n, i => 0)
  }

  /** The last `k` base-256 digits of `n`, most significant first. */
  function BigEndian(n: nat, k: nat): (b: Octets)
    ensures |b| == k
  {
    if k == 0 then [] else BigEndian(n / 256, k - 1) + [n % 256]
  }

  /** The least number of zeros that leaves room for exactly the length in the last block. */
  function ZeroCount(len: nat): (z: nat)
    ensures z < BLOCK && (len + 1 + z) % BLOCK == 56
  {
    (55 - len) % BLOCK
  }

  function Pad(msg: Octets): Octets {
    msg + ([0x80] + Zeros(ZeroCount(|msg|))) + BigEndian(|msg| * 8 % U64, 8)
  }

  /** The padded length is the first multiple of the block that leaves room for the nine octets added. */
  lemma PadLength(msg: Octets)
    ensures |Pad(msg)| % BLOCK == 0
    ensures |msg| + 9 <= |Pad(msg)| < |msg| + 9 + BLOCK
  {
    hide BigEndian, Zeros, ZeroCount;
    WholeBlocks(|msg| + 1 + ZeroCount(|msg|));
  }

  lemma WholeBlocks(n: nat)
    requires n % BLOCK == 56
    ensures (n + 8) % BLOCK == 0
  {
  }

  function Pow256(k: nat): (p: nat)
    ensures p > 0
  {
    if k == 0 then 1 else 256 * Pow256(k - 1)
  }

  lemma {:induction false} BigEndianInjective(m: nat, n: nat, k: nat)
    requires m < Pow256(k) && n < Pow256(k) && BigEndian(m, k) == BigEndian(n, k)
    ensures m == n
  {
    if k != 0 {
      var a, b := BigEndian(m, k), BigEndian(n, k);
      assert a[..k - 1] == BigEndian(m / 256, k - 1) && b[..k - 1] == BigEndian(n / 256, k - 1);
      assert a[k - 1] == m % 256 && b[k - 1] == n % 256;
      BigEndianInjective(m / 256, n / 256, k - 1);
    }
  }

  lemma EightDigits()
    ensures Pow256(8) == U64
  {
    assert Pow256(4) == 0x1_0000_0000;
  }

  /** Lengths within a block of each other are told apart by their bit counts, wrapped or not. */
  lemma SameLength(m: nat, n: nat)
    requires m * 8 % U64 == n * 8 % U64 && m < n + BLOCK && n < m + BLOCK
    ensures m == n
  {
  }

  lemma PadEnds(msg: Octets)
    ensures |Pad(msg)| >= |msg| + 8
    ensures Pad(msg)[..|msg|] == msg
    ensures Pad(msg)[|Pad(msg)| - 8..] == BigEndian(|msg| * 8 % U64, 8)
  {
    hide BigEndian, Zeros, ZeroCount;
    var z := [0x80] + Zeros(ZeroCount(|msg|));
    assert (msg + z)[..|msg|] == msg;
  }

  /** Padding loses nothing: no two messages pad alike, however long. */
  lemma PadInjective(a: Octets, b: Octets)
    ensures Pad(a) == Pad(b) <==> a == b
  {
    hide Pad, BigEndian, Pow256;
    if Pad(a) == Pad(b) {
      PadLength(a);
      PadLength(b);
      PadEnds(a);
      PadEnds(b);
      EightDigits();
      BigEndianInjective(|a| * 8 % U64, |b| * 8 % U64, 8);
      SameLength(|a|, |b|);
    }
  }

  /** The padding loop. */
  method PadMessage(msg: Octets) returns (data: Octets)
    ensures data == Pad(msg)
  {
    hide BigEndian, ZeroCount;
    var bitLen := |msg| * 8 % U64;
    data := msg;
    data := data + [0x80];
    ghost var z := ZeroCount(|msg|);
    ghost var pushed := 0;
    while |data| % 64 != 56
      invariant pushed <= z && |data| == |msg| + 1 + pushed
      invariant data == msg + ([0x80] + Zeros(pushed))
      decreases z - pushed
    {
      NotYet(|msg|, pushed, z);
      assert Zeros(pushed) + [0] == Zeros(pushed + 1);
      data := data + [0];
      pushed := pushed + 1;
    }
    Reached(|msg|, pushed, z);
    data := data + BigEndian(bitLen, 8);
  }

  lemma NotYet(len: nat, pushed: nat, z: nat)
    requires pushed <= z && z < BLOCK && (len + 1 + z) % BLOCK == 56 && (len + 1 + pushed) % BLOCK != 56
    ensures pushed < z
  {
  }

  lemma Reached(len: nat, pushed: nat, z: nat)
    requires pushed <= z && z < BLOCK && (len + 1 + z) % BLOCK == 56 && (len + 1 + pushed) % BLOCK == 56
    ensures pushed == z
  {
  }

  // ---------------------------------------------------------------------------------------
  // The hash (sections 4.1.2, 4.2.2, 5.3.3 and 6.2 of FIPS 180-4)
  // ---------------------------------------------------------------------------------------

  /** The round constants, a row of sixteen at a time. */
  const K: seq<bv32> := K_A + K_B + K_C + K_D

  const K_A: seq<bv32> := [
    0x428a2f98, 0x71374491, 0xb5c0fbcf, 0xe9b5dba5, 0x3956c25b, 0x59f111f1, 0x923f82a4, 0xab1c5ed5,
    0xd807aa98, 0x12835b01, 0x243185be, 0x550c7dc3, 0x72be5d74, 0x80deb1fe, 0x9bdc06a7, 0xc19bf174]

  const K_B: seq<bv32> := [
    0xe49b69c1, 0xefbe4786, 0x0fc19dc6, 0x240ca1cc, 0x2de92c6f, 0x4a7484aa, 0x5cb0a9dc, 0x76f988da,
    0x983e5152, 0xa831c66d, 0xb00327c8, 0xbf597fc7, 0xc6e00bf3, 0xd5a79147, 0x06ca6351, 0x14292967]

  const K_C: seq<bv32> := [
    0x27b70a85, 0x2e1b2138, 0x4d2c6dfc, 0x53380d13, 0x650a7354, 0x766a0abb, 0x81c2c92e, 0x92722c85,
    0xa2bfe8a1, 0xa81a664b, 0xc24b8b70, 0xc76c51a3, 0xd192e819, 0xd6990624, 0xf40e3585, 0x106aa070]

  const K_D: seq<bv32> := [
    0x19a4c116, 0x1e376c08, 0x2748774c, 0x34b0bcb5, 0x391c0cb3, 0x4ed8aa4a, 0x5b9cca4f, 0x682e6ff3,
    0x748f82ee, 0x78a5636f, 0x84c87814, 0x8cc70208, 0x90befffa, 0xa4506ceb, 0xbef9a3f7, 0xc67178f2]

  /** The eight working variables, or the eight words of a hash value. */
  datatype Regs = Regs(a: bv32, b: bv32, c: bv32, d: bv32, e: bv32, f: bv32, g: bv32, h: bv32)

  const IV: Regs := Regs(0x6a09e667, 0xbb67ae85, 0x3c6ef372, 0xa54ff53a, 0x510e527f, 0x9b05688c, 0x1f83d9ab, 0x5be0cd19)

  function Rotr(x: bv32, n: bv32): bv32
    requires 0 < n < 32
  {
    (x >> n) | (x << (32 - n))
  }

  /** `u32::wrapping_add`. */
  function Plus(x: bv32, y: bv32): bv32 { x + y }

  function BigSigma0(x: bv32): bv32 { Rotr(x, 2) ^ Rotr(x, 13) ^ Rotr(x, 22) }

  function BigSigma1(x: bv32): bv32 { Rotr(x, 6) ^ Rotr(x, 11) ^ Rotr(x, 25) }

  function SmallSigma0(x: bv32): bv32 { Rotr(x, 7) ^ Rotr(x, 18) ^ (x >> 3) }

  function SmallSigma1(x: bv32): bv32 { Rotr(x, 17) ^ Rotr(x, 19) ^ (x >> 10) }

  function Ch(x: bv32, y: bv32, z: bv32): bv32 { (x & y) ^ ((!x) & z) }

  function Maj(x: bv32, y: bv32, z: bv32): bv32 { (x & y) ^ (x & z) ^ (y & z) }

  /** `u32::from_be_bytes`. */
  function FromBytes(b0: byte, b1: byte, b2: byte, b3: byte): bv32 {
    ((b0 as bv32) << 24) | ((b1 as bv32) << 16) | ((b2 as bv32) << 8) | (b3 as bv32)
  }

  function Low8(w: bv32): byte { ((w & 0xFF) as bv8) as int }

  /** `u32::to_be_bytes`. */
  function ToBytes(w: bv32): (b: Octets)
    ensures |b| == 4
  {
    [Low8(w >> 24), Low8(w >> 16), Low8(w >> 8), Low8(w)]
  }

  /** The message schedule of one block. */
  function Schedule(block: Octets, t: nat): bv32
    requires |block| == BLOCK && t < 64
  {
    if t < 16 then FromBytes(block[4 * t], block[4 * t + 1], block[4 * t + 2], block[4 * t + 3])
    else
      Plus(Plus(Plus(SmallSigma1(Schedule(block, t - 2)), Schedule(block, t - 7)), SmallSigma0(Schedule(block, t - 15))),
           Schedule(block, t - 16))
  }

  /** One round. */
  function Round(r: Regs, k: bv32, w: bv32): Regs {
    var t1 := Plus(Plus(Plus(Plus(r.h, BigSigma1(r.e)), Ch(r.e, r.f, r.g)), k), w);
    var t2 := Plus(BigSigma0(r.a), Maj(r.a, r.b, r.c));
    Regs(Plus(t1, t2), r.a, r.b, r.c, Plus(r.d, t1), r.e, r.f, r.g)
  }

  /** The working variables after `t` rounds. */
  function Rounds(h: Regs, block: Octets, t: nat): Regs
    requires |block| == BLOCK && t <= 64
  {
    if t == 0 then h else Round(Rounds(h, block, t - 1), K[t - 1], Schedule(block, t - 1))
  }

  function Add(x: Regs, y: Regs): Regs {
    Regs(Plus(x.a, y.a), Plus(x.b, y.b), Plus(x.c, y.c), Plus(x.d, y.d), Plus(x.e, y.e), Plus(x.f, y.f), Plus(x.g, y.g),
         Plus(x.h, y.h))
  }

  function Compress(h: Regs, block: Octets): Regs
    requires |block| == BLOCK
  {
    Add(h, Rounds(h, block, 64))
  }

  /** The hash value after every whole block of `data`. */
  function Chain(h: Regs, data: Octets): Regs
    decreases |data|
  {
    if |data| < BLOCK then h else Chain(Compress(h, data[..BLOCK]), data[BLOCK..])
  }

  function Words(h: Regs): (d: Octets)
    ensures |d| == 32
  {
    ToBytes(h.a) + ToBytes(h.b) + ToBytes(h.c) + ToBytes(h.d) + ToBytes(h.e) + ToBytes(h.f) + ToBytes(h.g) + ToBytes(h.h)
  }

  function Digest(msg: Octets): (d: Octets)
    ensures |d| == 32
  {
    Words(Chain(IV, Pad(msg)))
  }

  /** Hashing block by block: the value after a whole number of blocks is where the rest starts from. */
  lemma {:induction false} ChainSplits(h: Regs, a: Octets, b: Octets)
    requires |a| % BLOCK == 0
    ensures Chain(h, a + b) == Chain(Chain(h, a), b)
    decreases |a|
  {
    hide Compress;
    if a == [] {
      assert a + b == b;
    } else {
      assert |a| >= BLOCK && |a[BLOCK..]| % BLOCK == 0;
      assert (a + b)[..BLOCK] == a[..BLOCK] && (a + b)[BLOCK..] == a[BLOCK..] + b;
      ChainSplits(Compress(h, a[..BLOCK]), a[BLOCK..], b);
    }
  }

  lemma PlusCommutes(x: bv32, y: bv32)
    ensures Plus(x, y) == Plus(y, x)
  {
  }

  lemma PlusAssociates(x: bv32, y: bv32, z: bv32)
    ensures Plus(Plus(x, y), z) == Plus(x, Plus(y, z))
  {
    hide Plus;
    PlusIs(x, y);
    PlusIs(y, z);
    Reassociate(x, y, z);
  }

  lemma PlusIs(x: bv32, y: bv32)
    ensures Plus(x, y) == x + y
  {
  }

  lemma Reassociate(x: bv32, y: bv32, z: bv32)
    ensures Plus(x + y, z) == Plus(x, y + z)
  {
  }

  /** The program adds the schedule's terms oldest first, the standard newest first. */
  lemma SumBackwards(a: bv32, b: bv32, c: bv32, d: bv32)
    ensures Plus(Plus(Plus(a, b), c), d) == Plus(Plus(Plus(d, c), b), a)
  {
    hide Plus;
    PlusCommutes(Plus(Plus(a, b), c), d);
    PlusCommutes(Plus(a, b), c);
    PlusAssociates(d, c, Plus(a, b));
    PlusCommutes(a, b);
    PlusAssociates(Plus(d, c), b, a);
  }

  method FillSchedule(block: Octets, w: array<bv32>)
    requires |block| == BLOCK && w.Length == 64
    modifies w
    ensures forall t :: 0 <= t < 64 ==> w[t] == Schedule(block, t)
  {
    hide FromBytes, SmallSigma0, SmallSigma1, Plus;
    for i := 0 to 16
      invariant forall t :: 0 <= t < i ==> w[t] == Schedule(block, t)
    {
      w[i] := FromBytes(block[i * 4], block[i * 4 + 1], block[i * 4 + 2], block[i * 4 + 3]);
    }
    for i := 16 to 64
      invariant forall t :: 0 <= t < i ==> w[t] == Schedule(block, t)
    {
      var s0 := SmallSigma0(w[i - 15]);
      var s1 := SmallSigma1(w[i - 2]);
      SumBackwards(w[i - 16], s0, w[i - 7], s1);
      w[i] := Plus(Plus(Plus(w[i - 16], s0), w[i - 7]), s1);
    }
  }

  /** The 64 rounds of one block, on eight variables updated in place. */
  method CompressBlock(h: Regs, block: Octets, w: array<bv32>) returns (out: Regs)
    requires |block| == BLOCK && w.Length == 64
    modifies w
    ensures out == Compress(h, block)
  {
    hide BigSigma0, BigSigma1, Ch, Maj, Schedule, Plus;
    FillSchedule(block, w);
    var a, b, c, d, e, f, g, hh := h.a, h.b, h.c, h.d, h.e, h.f, h.g, h.h;
    for i := 0 to 64
      invariant forall t :: 0 <= t < 64 ==> w[t] == Schedule(block, t)
      invariant Regs(a, b, c, d, e, f, g, hh) == Rounds(h, block, i)
    {
      var t1 := Plus(Plus(Plus(Plus(hh, BigSigma1(e)), Ch(e, f, g)), K[i]), w[i]);
      var t2 := Plus(BigSigma0(a), Maj(a, b, c));
      hh := g;
      g := f;
      f := e;
      e := Plus(d, t1);
      d := c;
      c := b;
      b := a;
      a := Plus(t1, t2);
    }
    out := Add(h, Regs(a, b, c, d, e, f, g, hh));
  }

  /** `sha256`: pad, then one block at a time. */
  method Hash(msg: Octets) returns (out: Octets)
    ensures out == Digest(msg)
  {
    hide Compress, Pad, Words;
    PadLength(msg);
    var data := PadMessage(msg);
    var h := IV;
    var w := new bv32[64];
    var off := 0;
    while off < |data|
      invariant 0 <= off <= |data| && off % BLOCK == 0
      invariant Chain(h, data[off..]) == Chain(IV, data)
    {
      assert data[off..][..BLOCK] == data[off..off + BLOCK] && data[off..][BLOCK..] == data[off + BLOCK..];
      h := CompressBlock(h, data[off..off + BLOCK], w);
      off := off + BLOCK;
    }
    out := Words(h);
  }

  // ---------------------------------------------------------------------------------------
  // HMAC (section 2 of RFC 2104)
  // ---------------------------------------------------------------------------------------

  function XorByte(b: byte, m: bv8): byte { ((b as bv8) ^ m) as int }

  /** Every octet of `k` with `m`. */
  function XorAll(k: Octets, m: bv8): (x: Octets)
    ensures |x| == |k|
  {
    seq(|k|, i requires 0 <= i < |k| => XorByte(k[i], m))
  }

  /** The key made a block long: a longer one is hashed first, a shorter one padded with zeros. */
  function BlockKey(key: Octets): (k: Octets)
    ensures |k| == BLOCK
  {
    var k := if |key| > BLOCK then Digest(key) else key;
    k + Zeros(BLOCK - |k|)
  }

  /** `H(K xor opad, H(K xor ipad, text))`. */
  function Mac(key: Octets, msg: Octets): Octets {
    Digest(XorAll(BlockKey(key), 0x5c) + Digest(XorAll(BlockKey(key), 0x36) + msg))
  }

  method Hmac(key: Octets, msg: Octets) returns (out: Octets)
    ensures out == Mac(key, msg)
  {
    hide Digest, XorByte;
    var k := new byte[64](i => 0);
    if |key| > BLOCK {
      var hashed := Hash(key);
      for i := 0 to 32
        invariant k[..] == hashed[..i] + Zeros(BLOCK - i)
      {
        k[i] := hashed[i];
      }
      assert hashed[..32] == hashed;
    } else {
      for i := 0 to |key|
        invariant k[..] == key[..i] + Zeros(BLOCK - i)
      {
        k[i] := key[i];
      }
      assert key[..|key|] == key;
    }
    assert k[..] == BlockKey(key);
    var ipad := Xored(k, 0x36);
    var digest := Hash(ipad + msg);
    var opad := Xored(k, 0x5c);
    out := Hash(opad + digest);
  }

  method Xored(k: array<byte>, m: bv8) returns (x: Octets)
    ensures x == XorAll(k[..], m)
  {
    hide XorByte;
    x := [];
    for i := 0 to k.Length
      invariant |x| == i && forall j :: 0 <= j < i ==> x[j] == XorByte(k[j], m)
    {
      x := x + [XorByte(k[i], m)];
    }
  }

  /** An over-long key acts as its digest does. */
  lemma LongKey(key: Octets, msg: Octets)
    requires |key| > BLOCK
    ensures Mac(key, msg) == Mac(Digest(key), msg)
  {
    hide Digest, XorAll;
  }

  /** A short key acts as itself with zeros appended, up to a block. */
  lemma ZeroPaddedKey(key: Octets, n: nat, msg: Octets)
    requires |key| + n <= BLOCK
    ensures Mac(key, msg) == Mac(key + Zeros(n), msg)
  {
    hide Digest, XorAll;
    assert key + Zeros(n) + Zeros(BLOCK - |key| - n) == key + Zeros(BLOCK - |key|);
  }

  /** The digest of a message takes up where its first whole blocks left off. */
  lemma DigestContinues(a: Octets, b: Octets)
    requires |a| % BLOCK == 0
    ensures |Pad(a + b)| >= |a| && Pad(a + b)[..|a|] == a
    ensures Digest(a + b) == Words(Chain(Chain(IV, a), Pad(a + b)[|a|..]))
  {
    hide Pad, Chain, Words;
    PadEnds(a + b);
    var p := Pad(a + b);
    assert (a + b)[..|a|] == a && p[..|a + b|][..|a|] == p[..|a|];
    assert p == a + p[|a|..];
    ChainSplits(IV, a, p[|a|..]);
  }
}
