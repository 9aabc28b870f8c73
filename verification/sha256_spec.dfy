/** SHA-256 as FIPS 180-4 defines it: recursive equations over blocks, words and rounds. */
module Sha256Spec {
  import opened ByteStrings

  type Block = b: seq<Byte> | |b| == 64 witness seq(64, _ => 0)

  // ----- sections 3.2 and 4.1.2: the functions -----

  function Rotr(value: bv32, count: bv32): bv32
    requires 0 < count < 32
  {
    (value >> count) | (value << (32 - count))
  }

  /** Shifting both ways and joining is rotation, for every amount the functions below use. */
  lemma RotrRotates(x: bv32)
    ensures Rotr(x, 2) == x.RotateRight(2) && Rotr(x, 13) == x.RotateRight(13) && Rotr(x, 22) == x.RotateRight(22)
    ensures Rotr(x, 6) == x.RotateRight(6) && Rotr(x, 11) == x.RotateRight(11) && Rotr(x, 25) == x.RotateRight(25)
    ensures Rotr(x, 7) == x.RotateRight(7) && Rotr(x, 18) == x.RotateRight(18)
    ensures Rotr(x, 17) == x.RotateRight(17) && Rotr(x, 19) == x.RotateRight(19)
  {
  }

  /** Addition modulo 2^32. */
  function Add(x: bv32, y: bv32): bv32 {
    x + y
  }

  function Ch(x: bv32, y: bv32, z: bv32): bv32 {
    (x & y) ^ (!x & z)
  }

  function Maj(x: bv32, y: bv32, z: bv32): bv32 {
    (x & y) ^ (x & z) ^ (y & z)
  }

  /** Ch agrees with y where x has ones and with z elsewhere. */
  lemma ChoosesByX(x: bv32, y: bv32, z: bv32)
    ensures Ch(x, y, z) & x == y & x
    ensures Ch(x, y, z) & !x == z & !x
  {
  }

  /** Maj agrees with x where x and y agree. */
  lemma MajorityAgreed(x: bv32, y: bv32, z: bv32)
    ensures Maj(x, y, z) & !(x ^ y) == x & !(x ^ y)
  {
  }

  /** Where x and y disagree, Maj follows z. */
  lemma MajorityDecided(x: bv32, y: bv32, z: bv32)
    ensures Maj(x, y, z) & (x ^ y) == z & (x ^ y)
  {
  }

  function BigSigma0(x: bv32): bv32 {
    Rotr(x, 2) ^ Rotr(x, 13) ^ Rotr(x, 22)
  }

  function BigSigma1(x: bv32): bv32 {
    Rotr(x, 6) ^ Rotr(x, 11) ^ Rotr(x, 25)
  }

  function SmallSigma0(x: bv32): bv32 {
    Rotr(x, 7) ^ Rotr(x, 18) ^ (x >> 3)
  }

  function SmallSigma1(x: bv32): bv32 {
    Rotr(x, 17) ^ Rotr(x, 19) ^ (x >> 10)
  }

  // ----- sections 4.2.2 and 5.3.3: the constants -----

  const K: seq<bv32> := K0 + K1 + K2 + K3 + K4 + K5 + K6 + K7
  const K0: seq<bv32> := [
    0x428a2f98, 0x71374491, 0xb5c0fbcf, 0xe9b5dba5,
    0x3956c25b, 0x59f111f1, 0x923f82a4, 0xab1c5ed5]
  const K1: seq<bv32> := [
    0xd807aa98, 0x12835b01, 0x243185be, 0x550c7dc3,
    0x72be5d74, 0x80deb1fe, 0x9bdc06a7, 0xc19bf174]
  const K2: seq<bv32> := [
    0xe49b69c1, 0xefbe4786, 0x0fc19dc6, 0x240ca1cc,
    0x2de92c6f, 0x4a7484aa, 0x5cb0a9dc, 0x76f988da]
  const K3: seq<bv32> := [
    0x983e5152, 0xa831c66d, 0xb00327c8, 0xbf597fc7,
    0xc6e00bf3, 0xd5a79147, 0x06ca6351, 0x14292967]
  const K4: seq<bv32> := [
    0x27b70a85, 0x2e1b2138, 0x4d2c6dfc, 0x53380d13,
    0x650a7354, 0x766a0abb, 0x81c2c92e, 0x92722c85]
  const K5: seq<bv32> := [
    0xa2bfe8a1, 0xa81a664b, 0xc24b8b70, 0xc76c51a3,
    0xd192e819, 0xd6990624, 0xf40e3585, 0x106aa070]
  const K6: seq<bv32> := [
    0x19a4c116, 0x1e376c08, 0x2748774c, 0x34b0bcb5,
    0x391c0cb3, 0x4ed8aa4a, 0x5b9cca4f, 0x682e6ff3]
  const K7: seq<bv32> := [
    0x748f82ee, 0x78a5636f, 0x84c87814, 0x8cc70208,
    0x90befffa, 0xa4506ceb, 0xbef9a3f7, 0xc67178f2]

  /** The first sixty-four primes. */
  const PRIMES: seq<nat> := P0 + P1 + P2 + P3 + P4 + P5 + P6 + P7
  const P0: seq<nat> := [2, 3, 5, 7, 11, 13, 17, 19]
  const P1: seq<nat> := [23, 29, 31, 37, 41, 43, 47, 53]
  const P2: seq<nat> := [59, 61, 67, 71, 73, 79, 83, 89]
  const P3: seq<nat> := [97, 101, 103, 107, 109, 113, 127, 131]
  const P4: seq<nat> := [137, 139, 149, 151, 157, 163, 167, 173]
  const P5: seq<nat> := [179, 181, 191, 193, 197, 199, 211, 223]
  const P6: seq<nat> := [227, 229, 233, 239, 241, 251, 257, 263]
  const P7: seq<nat> := [269, 271, 277, 281, 283, 293, 307, 311]

  /** The eight hash or working variables. */
  datatype State = State(a: bv32, b: bv32, c: bv32, d: bv32, e: bv32, f: bv32, g: bv32, h: bv32)

  /** Section 5.3.3. */
  const INITIAL := State(0x6a09e667, 0xbb67ae85, 0x3c6ef372, 0xa54ff53a, 0x510e527f, 0x9b05688c, 0x1f83d9ab, 0x5be0cd19)

  /** x / 2^32 is the root of n cut after 32 binary places, for the given power. */
  predicate CubeRootCut(x: nat, n: nat) {
    x * x * x <= n * 0x1_0000_0000_0000_0000_0000_0000 < (x + 1) * (x + 1) * (x + 1)
  }

  predicate SquareRootCut(x: nat, n: nat) {
    x * x <= n * 0x1_0000_0000_0000_0000 < (x + 1) * (x + 1)
  }

  function IntegerCubeRoot(n: nat): nat {
    if n < 1 then 0 else if n < 8 then 1 else if n < 27 then 2 else if n < 64 then 3
    else if n < 125 then 4 else if n < 216 then 5 else 6
  }


  predicate FromCubeRoot(k: bv32, n: nat) {
    CubeRootCut(IntegerCubeRoot(n) * 0x1_0000_0000 + k as int, n)
  }

  function IntegerSquareRoot(n: nat): nat {
    if n < 1 then 0 else if n < 4 then 1 else if n < 9 then 2 else if n < 16 then 3 else 4
  }

  predicate FromSquareRoot(k: bv32, n: nat) {
    SquareRootCut(IntegerSquareRoot(n) * 0x1_0000_0000 + k as int, n)
  }

  lemma Row0()
    ensures forall j :: 0 <= j < 8 ==> FromCubeRoot(K0[j], P0[j])
  {
  }

  lemma Row1()
    ensures forall j :: 0 <= j < 8 ==> FromCubeRoot(K1[j], P1[j])
  {
  }

  lemma Row2()
    ensures forall j :: 0 <= j < 8 ==> FromCubeRoot(K2[j], P2[j])
  {
  }

  lemma Row3()
    ensures forall j :: 0 <= j < 8 ==> FromCubeRoot(K3[j], P3[j])
  {
  }

  lemma Row4()
    ensures forall j :: 0 <= j < 8 ==> FromCubeRoot(K4[j], P4[j])
  {
  }

  lemma Row5()
    ensures forall j :: 0 <= j < 8 ==> FromCubeRoot(K5[j], P5[j])
  {
  }

  lemma Row6()
    ensures forall j :: 0 <= j < 8 ==> FromCubeRoot(K6[j], P6[j])
  {
  }

  lemma Row7()
    ensures forall j :: 0 <= j < 8 ==> FromCubeRoot(K7[j], P7[j])
  {
  }

  lemma EightRows<T>(a: seq<T>, b: seq<T>, c: seq<T>, d: seq<T>, e: seq<T>, f: seq<T>, g: seq<T>, h: seq<T>, t: nat)
    requires |a| == |b| == |c| == |d| == |e| == |f| == |g| == |h| == 8 && t < 64
    ensures var s := a + b + c + d + e + f + g + h;
            |s| == 64 &&
            s[t] == (if t < 8 then a else if t < 16 then b else if t < 24 then c else if t < 32 then d
                     else if t < 40 then e else if t < 48 then f else if t < 56 then g else h)[t % 8]
  {
  }

  lemma Place(t: nat)
    requires t < 64
    ensures |K| == |PRIMES| == 64
    ensures 0 <= t < 8 ==> K[t] == K0[t - 0] && PRIMES[t] == P0[t - 0]
    ensures 8 <= t < 16 ==> K[t] == K1[t - 8] && PRIMES[t] == P1[t - 8]
    ensures 16 <= t < 24 ==> K[t] == K2[t - 16] && PRIMES[t] == P2[t - 16]
    ensures 24 <= t < 32 ==> K[t] == K3[t - 24] && PRIMES[t] == P3[t - 24]
    ensures 32 <= t < 40 ==> K[t] == K4[t - 32] && PRIMES[t] == P4[t - 32]
    ensures 40 <= t < 48 ==> K[t] == K5[t - 40] && PRIMES[t] == P5[t - 40]
    ensures 48 <= t < 56 ==> K[t] == K6[t - 48] && PRIMES[t] == P6[t - 48]
    ensures 56 <= t < 64 ==> K[t] == K7[t - 56] && PRIMES[t] == P7[t - 56]
  {
    EightRows(K0, K1, K2, K3, K4, K5, K6, K7, t);
    EightRows(P0, P1, P2, P3, P4, P5, P6, P7, t);
  }

  /** Section 4.2.2: every round constant is the first 32 bits of the fractional part of the cube
      root of its prime. */
  lemma RoundConstantsAreCubeRoots(t: nat)
    requires t < 64
    ensures |K| == |PRIMES| == 64 && FromCubeRoot(K[t], PRIMES[t])
  {
    Place(t);
    Row0();
    Row1();
    Row2();
    Row3();
    Row4();
    Row5();
    Row6();
    Row7();
  }

  /** Section 5.3.3: the initial hash words come from the square roots of the first eight primes. */
  lemma InitialWordsAreSquareRoots()
    ensures FromSquareRoot(INITIAL.a, 2) && FromSquareRoot(INITIAL.b, 3)
    ensures FromSquareRoot(INITIAL.c, 5) && FromSquareRoot(INITIAL.d, 7)
    ensures FromSquareRoot(INITIAL.e, 11) && FromSquareRoot(INITIAL.f, 13)
    ensures FromSquareRoot(INITIAL.g, 17) && FromSquareRoot(INITIAL.h, 19)
  {
  }

  // ----- section 5.1.1: padding -----

  /** The zero bytes between the marker and the length of a message of n bytes. */
  function ZeroCount(n: nat): (k: nat)
    ensures k < 64 && (n + 1 + k) % 64 == 56
  {
    (119 - n % 64) % 64
  }

  function Pow256(n: nat): (r: nat)
    ensures r > 0
  {
    if n == 0 then 1 else 256 * Pow256(n - 1)
  }

  /** The n-byte big-endian representation of value modulo 256^n. */
  function BigEndian(value: nat, n: nat): (r: seq<Byte>)
    ensures |r| == n
  {
    if n == 0 then [] else BigEndian(value / 256, n - 1) + [(value % 256) as Byte]
  }

  function FromBigEndian(bytes: seq<Byte>): nat {
    if bytes == [] then 0 else 256 * FromBigEndian(bytes[..|bytes| - 1]) + bytes[|bytes| - 1] as nat
  }

  function Zeros(n: nat): (r: seq<Byte>)
    ensures |r| == n
  {
    seq(n, _ => 0)
  }

  function Pad(message: seq<Byte>): seq<Byte> {
    message + [0x80] + Zeros(ZeroCount(|message|)) + BigEndian(8 * |message|, 8)
  }

  // ----- section 5.2.1: words of a block -----

  function Word(b0: Byte, b1: Byte, b2: Byte, b3: Byte): bv32 {
    ((b0 as bv32) << 24) | ((b1 as bv32) << 16) | ((b2 as bv32) << 8) | (b3 as bv32)
  }

  // ----- section 6.2.2: the hash computation -----

  /** The word of the message schedule that follows at least sixteen others. */
  function NextWord(ws: seq<bv32>): bv32
    requires |ws| >= 16
  {
    var t := |ws|;
    Add(Add(Add(SmallSigma1(ws[t - 2]), ws[t - 7]), SmallSigma0(ws[t - 15])), ws[t - 16])
  }

  function MessageWord(block: Block, i: nat): bv32
    requires i < 16
  {
    Word(block[4 * i], block[4 * i + 1], block[4 * i + 2], block[4 * i + 3])
  }

  /** The first n words of the message schedule. */
  function Schedule(block: Block, n: nat): (ws: seq<bv32>)
    requires n <= 64
    ensures |ws| == n
  {
    if n == 0 then []
    else
      var before := Schedule(block, n - 1);
      before + [if n <= 16 then MessageWord(block, n - 1) else NextWord(before)]
  }

  function T1(e: bv32, f: bv32, g: bv32, h: bv32, k: bv32, w: bv32): bv32 {
    Add(Add(Add(Add(h, BigSigma1(e)), Ch(e, f, g)), k), w)
  }

  function T2(a: bv32, b: bv32, c: bv32): bv32 {
    Add(BigSigma0(a), Maj(a, b, c))
  }

  function Round(s: State, k: bv32, w: bv32): State {
    var t1 := T1(s.e, s.f, s.g, s.h, k, w);
    State(Add(t1, T2(s.a, s.b, s.c)), s.a, s.b, s.c, Add(s.d, t1), s.e, s.f, s.g)
  }

  /** The working variables after t rounds. */
  function Rounds(s: State, ws: seq<bv32>, t: nat): State
    requires t <= 64 == |ws|
  {
    if t == 0 then s else Round(Rounds(s, ws, t - 1), K[t - 1], ws[t - 1])
  }

  function Plus(x: State, y: State): State {
    State(Add(x.a, y.a), Add(x.b, y.b), Add(x.c, y.c), Add(x.d, y.d),
          Add(x.e, y.e), Add(x.f, y.f), Add(x.g, y.g), Add(x.h, y.h))
  }

  function Compress(s: State, block: Block): State {
    Plus(s, Rounds(s, Schedule(block, 64), 64))
  }

  /** Block i of a padded message. */
  function BlockAt(padded: seq<Byte>, i: nat): Block
    requires 64 * i + 64 <= |padded|
  {
    padded[64 * i..64 * i + 64]
  }

  /** The chaining value after the first n blocks, for any compression function. */
  function Fold(compress: (State, Block) -> State, padded: seq<Byte>, n: nat): State
    requires 64 * n <= |padded|
  {
    if n == 0 then INITIAL else compress(Fold(compress, padded, n - 1), BlockAt(padded, n - 1))
  }

  /** The hash value after the first n blocks of the padded message. */
  function Chain(padded: seq<Byte>, n: nat): State
    requires 64 * n <= |padded|
  {
    Fold(Compress, padded, n)
  }

  function HexDigit(n: bv32): char {
    if n == 0 then '0' else if n == 1 then '1' else if n == 2 then '2' else if n == 3 then '3'
    else if n == 4 then '4' else if n == 5 then '5' else if n == 6 then '6' else if n == 7 then '7'
    else if n == 8 then '8' else if n == 9 then '9' else if n == 10 then 'a' else if n == 11 then 'b'
    else if n == 12 then 'c' else if n == 13 then 'd' else if n == 14 then 'e' else 'f'
  }

  /** Eight lower-case hexadecimal digits. */
  function Hex(w: bv32): (r: string)
    ensures |r| == 8
  {
    [HexDigit(w >> 28), HexDigit((w >> 24) & 0xf), HexDigit((w >> 20) & 0xf), HexDigit((w >> 16) & 0xf),
     HexDigit((w >> 12) & 0xf), HexDigit((w >> 8) & 0xf), HexDigit((w >> 4) & 0xf), HexDigit(w & 0xf)]
  }

  function Words(s: State): seq<bv32> {
    [s.a, s.b, s.c, s.d, s.e, s.f, s.g, s.h]
  }

  function HexAll(words: seq<bv32>): string {
    if words == [] then "" else HexAll(words[..|words| - 1]) + Hex(words[|words| - 1])
  }

  function Sha256(message: seq<Byte>): string {
    var padded := Pad(message);
    HexAll(Words(Chain(padded, |padded| / 64)))
  }
}
