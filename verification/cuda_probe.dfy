/** The CUDA probe's buffer pattern, its 64-bit buffer hash and its string escaping (cuda_ipc_probe.cpp). */
module CudaProbe {
  import opened ByteStrings
  import opened Concatenation
  import opened JsonValue

  // ----- the buffer hash -----

  /** Unsigned 64-bit values are written as integers, with the wrap-around of the multiplication and
      the bits of the exclusive or spelled out. */
  const MODULUS := 0x1_0000_0000_0000_0000

  type Hash = x: int | 0 <= x < 0x1_0000_0000_0000_0000

  /** Exclusive or of the lowest n bits. */
  function Xor(a: nat, b: nat, n: nat): nat {
    if n == 0 then 0 else (a + b) % 2 + 2 * Xor(a / 2, b / 2, n - 1)
  }

  function Pow2(n: nat): nat {
    if n == 0 then 1 else 2 * Pow2(n - 1)
  }

  lemma {:induction false} XorBound(a: nat, b: nat, n: nat)
    ensures Xor(a, b, n) < Pow2(n)
  {
    if n > 0 {
      XorBound(a / 2, b / 2, n - 1);
    }
  }

  lemma {:induction false} XorTwice(a: nat, b: nat, n: nat)
    requires a < Pow2(n)
    ensures Xor(Xor(a, b, n), b, n) == a
  {
    if n > 0 {
      XorTwice(a / 2, b / 2, n - 1);
      HalfAndRest(Xor(a / 2, b / 2, n - 1), (a + b) % 2);
      SameParity((a + b) % 2 + 2 * Xor(a / 2, b / 2, n - 1), a, b);
    }
  }

  lemma HalfAndRest(q: nat, r: nat)
    requires r < 2
    ensures (r + 2 * q) / 2 == q && (r + 2 * q) % 2 == r
  {
  }

  lemma SameParity(x: nat, a: nat, b: nat)
    requires x % 2 == (a + b) % 2
    ensures (x + b) % 2 == a % 2
  {
  }

  lemma {:induction false} XorCommutes(a: nat, b: nat, n: nat)
    ensures Xor(a, b, n) == Xor(b, a, n)
  {
    if n > 0 {
      XorCommutes(a / 2, b / 2, n - 1);
    }
  }

  lemma {:induction false} Pow2Sum(m: nat, n: nat)
    ensures Pow2(m + n) == Pow2(m) * Pow2(n)
  {
    if m > 0 {
      Pow2Sum(m - 1, n);
    }
  }

  lemma SixtyFourBits()
    ensures Pow2(64) == MODULUS
  {
    assert Pow2(4) == 16;
    Pow2Sum(4, 4);
    Pow2Sum(8, 8);
    Pow2Sum(16, 16);
    Pow2Sum(32, 32);
  }

  /** hash ^ byte. */
  function XorByte(hash: Hash, byte: Byte): (r: Hash)
  {
    XorBound(hash, byte as nat, 64);
    SixtyFourBits();
    Xor(hash, byte as nat, 64)
  }

  function Times(x: Hash): Hash {
    (x * 1099511628211) % MODULUS
  }

  /** Multiplication by the inverse of the (odd) multiplier modulo 2^64. */
  function Untimes(x: Hash): Hash {
    (x * 14886173955864302971) % MODULUS
  }

  lemma Remainder(k: int, x: Hash)
    ensures (MODULUS * k + x) % MODULUS == x
  {
  }

  /** The product of the multiplier and its inverse is one more than a multiple of the modulus. */
  const EXCESS := (1099511628211 * 14886173955864302971 - 1) / MODULUS

  lemma TimesIsBijective(x: Hash)
    ensures Untimes(Times(x)) == x
    ensures Times(Untimes(x)) == x
  {
    assert 1099511628211 * 14886173955864302971 == MODULUS * EXCESS + 1;
    var p := x * 1099511628211 / MODULUS;
    var q := x * 14886173955864302971 / MODULUS;
    Remainder(EXCESS * x - 14886173955864302971 * p, x);
    Remainder(EXCESS * x - 1099511628211 * q, x);
    assert Times(x) == x * 1099511628211 - MODULUS * p;
    assert Untimes(x) == x * 14886173955864302971 - MODULUS * q;
  }

  /** One turn of the hash loop. */
  function Mix(hash: Hash, byte: Byte): Hash {
    Times(XorByte(hash, byte))
  }

  function Unmix(hash: Hash, byte: Byte): Hash {
    XorByte(Untimes(hash), byte)
  }

  function HashFrom(hash: Hash, bytes: Bytes): Hash
    decreases |bytes|
  {
    if bytes == [] then hash else HashFrom(Mix(hash, bytes[0]), bytes[1..])
  }

  const BASIS: Hash := 1469598103934665603

  function Fnv(bytes: Bytes): Hash {
    HashFrom(BASIS, bytes)
  }

  method Fnv1a64(bytes: Bytes) returns (hash: Hash)
    ensures hash == Fnv(bytes)
  {
    hash := 1469598103934665603;
    assert bytes[0..] == bytes;
    var i := 0;
    while i < |bytes|
      invariant 0 <= i <= |bytes|
      invariant HashFrom(hash, bytes[i..]) == Fnv(bytes)
    {
      assert bytes[i..][1..] == bytes[i + 1..];
      hash := XorByte(hash, bytes[i]);
      hash := Times(hash);
      i := i + 1;
    }
  }

  /** For a given byte, mixing is a bijection on hash values. */
  lemma MixIsBijective(hash: Hash, byte: Byte)
    ensures Unmix(Mix(hash, byte), byte) == hash
    ensures Mix(Unmix(hash, byte), byte) == hash
  {
    SixtyFourBits();
    XorTwice(hash, byte as nat, 64);
    XorTwice(Untimes(hash), byte as nat, 64);
    TimesIsBijective(XorByte(hash, byte));
    TimesIsBijective(hash);
  }

  /** For a given hash value, different bytes mix to different values. */
  lemma MixSeparatesBytes(hash: Hash, b: Byte, c: Byte)
    requires Mix(hash, b) == Mix(hash, c)
    ensures b == c
  {
    SixtyFourBits();
    TimesIsBijective(XorByte(hash, b));
    TimesIsBijective(XorByte(hash, c));
    XorCommutes(hash, b as nat, 64);
    XorCommutes(hash, c as nat, 64);
    XorTwice(b as nat, hash, 64);
    XorTwice(c as nat, hash, 64);
  }

  /** The state from which the given bytes lead to the given hash. */
  function Rewind(hash: Hash, bytes: Bytes): Hash
    decreases |bytes|
  {
    if bytes == [] then hash else Unmix(Rewind(hash, bytes[1..]), bytes[0])
  }

  /** Hashing any fixed bytes is a bijection from the state before them to the state after them. */
  lemma {:induction false} HashIsBijective(hash: Hash, bytes: Bytes)
    ensures Rewind(HashFrom(hash, bytes), bytes) == hash
    ensures HashFrom(Rewind(hash, bytes), bytes) == hash
    decreases |bytes|
  {
    if bytes != [] {
      HashIsBijective(Mix(hash, bytes[0]), bytes[1..]);
      HashIsBijective(hash, bytes[1..]);
      MixIsBijective(hash, bytes[0]);
      MixIsBijective(Rewind(hash, bytes[1..]), bytes[0]);
    }
  }

  lemma {:induction false} HashConcat(hash: Hash, a: Bytes, b: Bytes)
    ensures HashFrom(hash, a + b) == HashFrom(HashFrom(hash, a), b)
    decreases |a|
  {
    if a == [] {
      assert a + b == b;
    } else {
      assert (a + b)[1..] == a[1..] + b;
      HashConcat(Mix(hash, a[0]), a[1..], b);
    }
  }

  /** A common tail never hides a difference. */
  lemma CommonTail(a: Bytes, b: Bytes, tail: Bytes)
    ensures Fnv(a + tail) == Fnv(b + tail) <==> Fnv(a) == Fnv(b)
  {
    HashConcat(BASIS, a, tail);
    HashConcat(BASIS, b, tail);
    HashIsBijective(Fnv(a), tail);
    HashIsBijective(Fnv(b), tail);
  }

  /** Changing one byte, and only that, always changes the hash: the probe's comparison with the
      expected hash fails for every buffer with exactly one corrupted byte. */
  lemma OneCorruptedByte(bytes: Bytes, k: nat, byte: Byte)
    requires k < |bytes|
    ensures Fnv(bytes[k := byte]) == Fnv(bytes) <==> byte == bytes[k]
  {
    var front, tail := bytes[..k], bytes[k + 1..];
    assert bytes == (front + [bytes[k]]) + tail;
    assert bytes[k := byte] == (front + [byte]) + tail;
    CommonTail(front + [bytes[k]], front + [byte], tail);
    HashConcat(BASIS, front, [bytes[k]]);
    HashConcat(BASIS, front, [byte]);
    HashOfOne(Fnv(front), byte);
    HashOfOne(Fnv(front), bytes[k]);
    if Fnv(front + [byte]) == Fnv(front + [bytes[k]]) {
      MixSeparatesBytes(Fnv(front), byte, bytes[k]);
    }
  }

  lemma HashOfOne(hash: Hash, byte: Byte)
    ensures HashFrom(hash, [byte]) == Mix(hash, byte)
  {
    assert [byte][1..] == [];
  }

  // ----- the buffer pattern -----

  method MakePattern(sizeBytes: nat) returns (bytes: array<Byte>)
    ensures bytes.Length == sizeBytes && fresh(bytes)
    ensures forall i :: 0 <= i < sizeBytes ==> bytes[i] == PatternByte(i)
  {
    bytes := new Byte[sizeBytes];
    var i := 0;
    while i < sizeBytes
      invariant 0 <= i <= sizeBytes
      invariant forall j :: 0 <= j < i ==> bytes[j] == PatternByte(j)
    {
      bytes[i] := ((i * 131 + 17) % 256) as Byte;
      i := i + 1;
    }
  }

  function PatternByte(i: nat): Byte {
    ((i * 131 + 17) % 256) as Byte
  }

  /** Two positions hold the same byte exactly when they are a multiple of 256 apart, so a copy that
      is displaced by anything else differs at every position. */
  lemma PatternShowsDisplacement(i: nat, shift: nat)
    ensures PatternByte(i) == PatternByte(i + shift) <==> shift % 256 == 0
  {
    var a, b := i * 131 + 17, (i + shift) * 131 + 17;
    var qa, qb := a / 256, b / 256;
    assert b - a == 131 * shift;
    if a % 256 == b % 256 {
      assert 131 * shift == 256 * (qb - qa);
      RestOfMultiple(43 * (qb - qa) - 22 * shift, 0);
    }
    if shift % 256 == 0 {
      var k := shift / 256;
      assert b == 256 * (qa + 131 * k) + a % 256;
      RestOfMultiple(qa + 131 * k, a % 256);
    }
  }

  lemma RestOfMultiple(q: int, r: int)
    requires 0 <= r < 256
    ensures (256 * q + r) % 256 == r
  {
  }

  // ----- string escaping -----

  method JsonEscape(value: string) returns (out: string)
    ensures out == Encode(Dumped, value)
  {
    out := "";
    assert value[0..] == value;
    var i := 0;
    while i < |value|
      invariant 0 <= i <= |value|
      invariant Encode(Dumped, value) == out + Encode(Dumped, value[i..])
    {
      var ch := value[i];
      var piece;
      match ch {
        case '\\' => piece := "\\\\";
        case '"' => piece := "\\\"";
        case '\U{08}' => piece := "\\b";
        case '\U{0C}' => piece := "\\f";
        case '\n' => piece := "\\n";
        case '\r' => piece := "\\r";
        case '\t' => piece := "\\t";
        case _ =>
          if ch < ' ' {
            piece := UnicodeEscape(ch as int);
          } else {
            piece := [ch];
          }
      }
      EscapeStep(out, value, i, piece);
      out := out + piece;
      i := i + 1;
    }
    assert out + [] == out;
  }

  lemma EscapeStep(out: string, value: string, i: nat, piece: string)
    requires i < |value| && piece == EncodeChar(Dumped, value[i])
    ensures out + Encode(Dumped, value[i..]) == (out + piece) + Encode(Dumped, value[i + 1..])
  {
    assert value[i..][1..] == value[i + 1..];
    Regroup(out, piece, Encode(Dumped, value[i + 1..]));
  }

  /** The probe's quoted strings decode to what was quoted, and every control character is escaped. */
  lemma EscapedRoundTrip(value: string)
    ensures Decode("\"" + (Encode(Dumped, value) + "\"")) == Got(Text(value), [])
    ensures forall i :: 0 <= i < |Encode(Dumped, value)| ==> Encode(Dumped, value)[i] >= ' '
  {
    DecodeRendered(Dumped, Text(value), 0);
    NoControls(value);
  }

  lemma {:induction false} NoControls(value: string)
    ensures forall i :: 0 <= i < |Encode(Dumped, value)| ==> Encode(Dumped, value)[i] >= ' '
  {
    if value != [] {
      NoControls(value[1..]);
      var piece := EncodeChar(Dumped, value[0]);
      assert forall i :: 0 <= i < |piece| ==> piece[i] >= ' ';
    }
  }
}
