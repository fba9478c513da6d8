/** SHA-256 over bytes, against sections 4.1.2, 5.1.1 and 6.2 of FIPS 180-4.  */
module Sha256 {

  type Byte = b: nat | b < 256 witness 0
  type Word = bv32

  // ---------------------------------------------------------------------------------------------
  // The standard

  /** Section 4.2.2.  */
  const K: seq<Word> := K_LOW + K_HIGH

  const K_LOW: seq<Word> := K0 + K1 + K2 + K3
  const K_HIGH: seq<Word> := K4 + K5 + K6 + K7

  const K0: seq<Word> :=
    [0x428a2f98, 0x71374491, 0xb5c0fbcf, 0xe9b5dba5, 0x3956c25b, 0x59f111f1, 0x923f82a4, 0xab1c5ed5]
  const K1: seq<Word> :=
    [0xd807aa98, 0x12835b01, 0x243185be, 0x550c7dc3, 0x72be5d74, 0x80deb1fe, 0x9bdc06a7, 0xc19bf174]
  const K2: seq<Word> :=
    [0xe49b69c1, 0xefbe4786, 0x0fc19dc6, 0x240ca1cc, 0x2de92c6f, 0x4a7484aa, 0x5cb0a9dc, 0x76f988da]
  const K3: seq<Word> :=
    [0x983e5152, 0xa831c66d, 0xb00327c8, 0xbf597fc7, 0xc6e00bf3, 0xd5a79147, 0x06ca6351, 0x14292967]
  const K4: seq<Word> :=
    [0x27b70a85, 0x2e1b2138, 0x4d2c6dfc, 0x53380d13, 0x650a7354, 0x766a0abb, 0x81c2c92e, 0x92722c85]
  const K5: seq<Word> :=
    [0xa2bfe8a1, 0xa81a664b, 0xc24b8b70, 0xc76c51a3, 0xd192e819, 0xd6990624, 0xf40e3585, 0x106aa070]
  const K6: seq<Word> :=
    [0x19a4c116, 0x1e376c08, 0x2748774c, 0x34b0bcb5, 0x391c0cb3, 0x4ed8aa4a, 0x5b9cca4f, 0x682e6ff3]
  const K7: seq<Word> :=
    [0x748f82ee, 0x78a5636f, 0x84c87814, 0x8cc70208, 0x90befffa, 0xa4506ceb, 0xbef9a3f7, 0xc67178f2]

  /** Section 5.3.3.  */
  const H0: Vars :=
    Vars(0x6a09e667, 0xbb67ae85, 0x3c6ef372, 0xa54ff53a, 0x510e527f, 0x9b05688c, 0x1f83d9ab, 0x5be0cd19)

  /** Section 3.2.  */
  function Rotr(x: Word, n: Word): Word
    requires 0 < n < 32
  {
    (x >> n) | (x << (32 - n))
  }

  // Section 4.1.2.
  function Ch(x: Word, y: Word, z: Word): Word { (x & y) ^ (!x & z) }
  function Maj(x: Word, y: Word, z: Word): Word { (x & y) ^ (x & z) ^ (y & z) }
  function BigSigma0(x: Word): Word { Rotr(x, 2) ^ Rotr(x, 13) ^ Rotr(x, 22) }
  function BigSigma1(x: Word): Word { Rotr(x, 6) ^ Rotr(x, 11) ^ Rotr(x, 25) }
  function SmallSigma0(x: Word): Word { Rotr(x, 7) ^ Rotr(x, 18) ^ (x >> 3) }
  function SmallSigma1(x: Word): Word { Rotr(x, 17) ^ Rotr(x, 19) ^ (x >> 10) }

  /** The low `count` bytes of a number, most significant first.  */
  function BigEndian(n: nat, count: nat): (s: seq<Byte>)
    ensures |s| == count
    decreases count
  {
    if count == 0 then [] else BigEndian(n / 256, count - 1) + [n % 256]
  }

  /** Section 5.1.1: how many zero bytes follow the one bit, the fewest that leave room for the length.  */
  function Zeros(len: nat): (k: nat)
    ensures (len + 1 + k) % 64 == 56 && (len + 1 + k + 8) % 64 == 0 && k < 64
  {
    if len % 64 <= 55 then 55 - len % 64 else 119 - len % 64
  }

  function Padded(data: seq<Byte>): (message: seq<Byte>)
    ensures |message| % 64 == 0 && |message| == |data| + 1 + Zeros(|data|) + 8
  {
    data + [0x80] + seq(Zeros(|data|), _ => 0) + LengthField(|data|)
  }

  /** The length in bits, as sixty-four of them.  */
  function LengthField(len: nat): (s: seq<Byte>)
    ensures |s| == 8
  {
    BigEndian(8 * len % 0x1_0000_0000_0000_0000, 8)
  }

  function WordAt(block: seq<Byte>, t: nat): Word
    requires |block| == 64 && t < 16
  {
    ((block[4 * t] as Word) << 24) | ((block[4 * t + 1] as Word) << 16) | ((block[4 * t + 2] as Word) << 8) | (block[4 * t + 3] as Word)
  }

  function Sum(a: Word, b: Word, c: Word, d: Word): Word { a + b + c + d }

  /** Section 6.2.2, step 1: the message schedule.  */
  function Schedule(block: seq<Byte>, t: nat): Word
    requires |block| == 64 && t < 64
  {
    if t < 16 then WordAt(block, t)
    else
      Sum(SmallSigma1(Schedule(block, t - 2)), Schedule(block, t - 7), SmallSigma0(Schedule(block, t - 15)), Schedule(block, t - 16))
  }

  /** The eight working variables.  */
  datatype Vars = Vars(a: Word, b: Word, c: Word, d: Word, e: Word, f: Word, g: Word, h: Word)

  function Plus(x: Word, y: Word): Word { x + y }

  /** Section 6.2.2, step 3: the two temporaries of a round.  */
  function T1(e: Word, f: Word, g: Word, h: Word, k: Word, w: Word): Word {
    h + BigSigma1(e) + Ch(e, f, g) + k + w
  }

  function T2(a: Word, b: Word, c: Word): Word {
    BigSigma0(a) + Maj(a, b, c)
  }

  /** Section 6.2.2, step 3: one round.  */
  function Round(v: Vars, k: Word, w: Word): Vars {
    var t1 := T1(v.e, v.f, v.g, v.h, k, w);
    Vars(Plus(t1, T2(v.a, v.b, v.c)), v.a, v.b, v.c, Plus(v.d, t1), v.e, v.f, v.g)
  }

  function Rounds(v: Vars, block: seq<Byte>, count: nat): Vars
    requires |block| == 64 && count <= 64
  {
    if count == 0 then v else Round(Rounds(v, block, count - 1), K[count - 1], Schedule(block, count - 1))
  }

  function Added(v: Vars, w: Vars): Vars {
    Vars(v.a + w.a, v.b + w.b, v.c + w.c, v.d + w.d, v.e + w.e, v.f + w.f, v.g + w.g, v.h + w.h)
  }

  function Block(message: seq<Byte>, i: nat): (block: seq<Byte>)
    requires 64 * i + 64 <= |message|
    ensures |block| == 64
  {
    message[64 * i..64 * i + 64]
  }

  /** Section 6.2.2: the hash value after so many blocks.  */
  function Hash(message: seq<Byte>, blocks: nat): Vars
    requires 64 * blocks <= |message|
  {
    if blocks == 0 then H0
    else
      var before := Hash(message, blocks - 1);
      Added(before, Rounds(before, Block(message, blocks - 1), 64))
  }

  function Low(w: Word): Byte {
    ((w & 0xff) as bv8) as Byte
  }

  function WordBytes(w: Word): (s: seq<Byte>)
    ensures |s| == 4
  {
    [Low(w >> 24), Low(w >> 16), Low(w >> 8), Low(w)]
  }

  function Bytes(v: Vars): (s: seq<Byte>)
    ensures |s| == 32
  {
    WordBytes(v.a) + WordBytes(v.b) + WordBytes(v.c) + WordBytes(v.d)
    + WordBytes(v.e) + WordBytes(v.f) + WordBytes(v.g) + WordBytes(v.h)
  }

  /** The digest of a message of bytes.  */
  function Digest(data: seq<Byte>): seq<Byte> {
    Bytes(Hash(Padded(data), |Padded(data)| / 64))
  }

  // ---------------------------------------------------------------------------------------------
  // The implementation

  lemma OneMoreZero(k: nat)
    ensures seq<Byte>(k, _ => 0) + [0] == seq<Byte>(k + 1, _ => 0)
  {}

  /** Appends the one bit, zeros until eight bytes are missing from a block, and the length.  */
  method Pad(data: seq<Byte>) returns (message: seq<Byte>)
    ensures message == Padded(data)
  {
    hide LengthField;
    message := data + [0x80];
    var zeros := 0;
    while |message| % 64 != 56
      invariant zeros <= Zeros(|data|) && |message| == |data| + 1 + zeros
      invariant message == data + [0x80] + seq(zeros, _ => 0)
      decreases Zeros(|data|) - zeros
    {
      Missing(|data|, zeros);
      OneMoreZero(zeros);
      message := message + [0];
      zeros := zeros + 1;
    }
    Missing(|data|, zeros);
    message := message + LengthField(|data|);
  }

  /** Fewer zeros than the standard asks for do not end where the length goes.  */
  lemma Missing(len: nat, zeros: nat)
    requires zeros <= Zeros(len)
    ensures (len + 1 + zeros) % 64 == 56 <==> zeros == Zeros(len)
  {}

  /** Fills the schedule of a block.  */
  method Expand(block: seq<Byte>, w: array<Word>)
    requires |block| == 64 && w.Length == 64
    modifies w
    ensures forall t :: 0 <= t < 64 ==> w[t] == Schedule(block, t)
  {
    hide WordAt, SmallSigma0, SmallSigma1, Sum;
    for t := 0 to 16
      invariant forall u :: 0 <= u < t ==> w[u] == Schedule(block, u)
    {
      w[t] := WordAt(block, t);
    }
    for t := 16 to 64
      invariant forall u :: 0 <= u < t ==> w[u] == Schedule(block, u)
    {
      Regroup(w[t - 16], SmallSigma0(w[t - 15]), w[t - 7], SmallSigma1(w[t - 2]));
      w[t] := Sum(w[t - 16], SmallSigma0(w[t - 15]), w[t - 7], SmallSigma1(w[t - 2]));
    }
  }

  lemma Regroup(a: Word, b: Word, c: Word, d: Word)
    ensures Sum(a, b, c, d) == Sum(d, c, b, a)
  {}

  /** One block into the state.  */
  method Compress(state: Vars, block: seq<Byte>) returns (r: Vars)
    requires |block| == 64
    ensures r == Added(state, Rounds(state, block, 64))
  {
    hide Schedule, T1, T2, Plus;
    var w := new Word[64];
    Expand(block, w);
    var a, b, c, d, e, f, g, h := state.a, state.b, state.c, state.d, state.e, state.f, state.g, state.h;
    for i := 0 to 64
      invariant Vars(a, b, c, d, e, f, g, h) == Rounds(state, block, i)
      invariant forall t :: 0 <= t < 64 ==> w[t] == Schedule(block, t)
    {
      var t1 := T1(e, f, g, h, K[i], w[i]);
      var t2 := T2(a, b, c);
      h := g;
      g := f;
      f := e;
      e := Plus(d, t1);
      d := c;
      c := b;
      b := a;
      a := Plus(t1, t2);
    }
    r := Added(state, Vars(a, b, c, d, e, f, g, h));
  }

  /** The digest, block by block.  */
  method ComputeDigest(data: seq<Byte>) returns (out: seq<Byte>)
    ensures out == Digest(data)
  {
    hide Rounds, Padded, Bytes;
    var message := Pad(data);
    var state := H0;
    var blocks := |message| / 64;
    for i := 0 to blocks
      invariant state == Hash(message, i)
    {
      state := Compress(state, Block(message, i));
    }
    out := Bytes(state);
  }

  // ---------------------------------------------------------------------------------------------
  // Padding loses nothing

  lemma {:induction false} BigEndianKept(m: nat, n: nat, count: nat)
    requires BigEndian(m, count) == BigEndian(n, count) && m < Power(count) && n < Power(count)
    ensures m == n
    decreases count
  {
    if count > 0 {
      var a, b := BigEndian(m, count), BigEndian(n, count);
      assert a[count - 1] == m % 256 && b[count - 1] == n % 256;
      assert a[..count - 1] == BigEndian(m / 256, count - 1) && b[..count - 1] == BigEndian(n / 256, count - 1);
      BigEndianKept(m / 256, n / 256, count - 1);
    }
  }

  function Power(count: nat): nat {
    if count == 0 then 1 else 256 * Power(count - 1)
  }

  lemma PowerEight()
    ensures Power(8) == 0x1_0000_0000_0000_0000
  {
    assert Power(2) == 0x1_0000;
    assert Power(4) == 0x1_0000_0000;
    assert Power(6) == 0x1_0000_0000_0000;
  }

  /** Different messages of fewer than two to the sixty-one bytes are padded differently.  */
  lemma PaddingInjective(a: seq<Byte>, b: seq<Byte>)
    requires |a| < 0x2000_0000_0000_0000 && |b| < 0x2000_0000_0000_0000
    requires Padded(a) == Padded(b)
    ensures a == b
  {
    hide BigEndian, Zeros;
    var p, q := Padded(a), Padded(b);
    var n := |p| - 8;
    assert p[n..] == BigEndian(8 * |a|, 8);
    assert q[n..] == BigEndian(8 * |b|, 8);
    PowerEight();
    BigEndianKept(8 * |a|, 8 * |b|, 8);
    assert p[..|a|] == a && q[..|a|] == b;
  }
}
