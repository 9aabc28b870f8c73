/** The in-place SHA-256 of hash_utils.cpp against the recursive definition. */
module Sha256Impl {
  import opened Concatenation
  import opened Arithmetic
  import opened ByteStrings
  import opened Spec = Sha256Spec

  // ----- padding -----

  /** The value shifted right by n bytes. */
  function ShiftBytes(value: nat, n: nat): nat {
    if n == 0 then value else ShiftBytes(value / 256, n - 1)
  }

  lemma {:induction false} ShiftOneMore(value: nat, n: nat)
    ensures ShiftBytes(value, n) / 256 == ShiftBytes(value, n + 1)
  {
    if n > 0 {
      ShiftOneMore(value / 256, n - 1);
    }
  }

  lemma Distribute(a: nat, q: nat, r: nat)
    ensures a * (256 * q + r) == (256 * a) * q + a * r
  {
  }

  /** The padding: the marker, the loop for the zero bytes up to 56 modulo 64, and the loop for the
      64-bit length from its most significant byte. */
  method BuildMessage(data: seq<Byte>) returns (message: seq<Byte>)
    ensures message == Pad(data)
  {
    message := data;
    var bitLength := (|data| * 8) % 0x1_0000_0000_0000_0000;
    message := message + [0x80];
    message := AppendZeros(message, |data|);
    message := AppendLength(message, bitLength);
    LengthWraps(8 * |data|);
  }

  method AppendZeros(marked: seq<Byte>, ghost n: nat) returns (message: seq<Byte>)
    requires |marked| == n + 1
    ensures message == marked + Zeros(ZeroCount(n))
  {
    message := marked;
    ghost var zeros: nat := 0;
    LeastZeros(n, 0);
    while |message| % 64 != 56
      invariant zeros <= ZeroCount(n) && message == marked + Zeros(zeros)
      invariant |message| % 64 == 56 <==> zeros == ZeroCount(n)
      decreases ZeroCount(n) - zeros
    {
      message := message + [0];
      zeros := zeros + 1;
      LeastZeros(n, zeros);
    }
  }

  /** No smaller number of zero bytes will do. */
  lemma LeastZeros(n: nat, zeros: nat)
    requires zeros <= ZeroCount(n)
    ensures (n + 1 + zeros) % 64 == 56 <==> zeros == ZeroCount(n)
  {
  }

  method AppendLength(base: seq<Byte>, bitLength: nat) returns (message: seq<Byte>)
    ensures message == base + BigEndian(bitLength, 8)
  {
    message := base;
    var i := 7;
    while i >= 0
      invariant -1 <= i <= 7
      invariant message == base + BigEndian(ShiftBytes(bitLength, i + 1), 7 - i)
    {
      ShiftOneMore(bitLength, i);
      var byte := (ShiftBytes(bitLength, i) % 256) as Byte;
      Regroup(base, BigEndian(ShiftBytes(bitLength, i + 1), 7 - i), [byte]);
      message := message + [byte];
      i := i - 1;
    }
  }

  /** The length field holds the bit count modulo 2 to the power of 64. */
  lemma LengthWraps(bits: nat)
    ensures BigEndian(bits % 0x1_0000_0000_0000_0000, 8) == BigEndian(bits, 8)
  {
    BigEndianWraps(bits, 8);
    assert Pow256(4) == 0x1_0000_0000;
    assert Pow256(8) == 0x1_0000_0000_0000_0000;
  }

  lemma {:induction false} BigEndianWraps(value: nat, n: nat)
    ensures BigEndian(value % Pow256(n), n) == BigEndian(value, n)
  {
    if n > 0 {
      var p := Pow256(n - 1);
      RemainderInside(value, p);
      BigEndianWraps(value / 256, n - 1);
    }
  }

  lemma RemainderInside(value: nat, p: nat)
    requires p > 0
    ensures (value % (256 * p)) % 256 == value % 256
    ensures (value % (256 * p)) / 256 == (value / 256) % p
  {
    var v, r0 := value / 256, value % 256;
    var q, r1 := v / p, v % p;
    var pq := p * q;
    assert v == pq + r1;
    Distribute(p, q, 0);
    var m := 256 * p;
    assert m * q == 256 * pq;
    RemainderUnique(value, m, q, 256 * r1 + r0);
  }

  // ----- one block -----

  function StateOf(h: seq<bv32>): State
    requires |h| == 8
  {
    State(h[0], h[1], h[2], h[3], h[4], h[5], h[6], h[7])
  }

  lemma ScheduleBegins(block: Block, i: nat, word: bv32)
    requires i < 16 && word == Word(block[4 * i], block[4 * i + 1], block[4 * i + 2], block[4 * i + 3])
    ensures Schedule(block, i + 1) == Schedule(block, i) + [word]
  {
  }

  lemma ScheduleContinues(block: Block, i: nat)
    requires 16 <= i < 64
    ensures Schedule(block, i + 1) == Schedule(block, i) + [NextWord(Schedule(block, i))]
  {
  }

  method FillSchedule(block: Block) returns (w: array<bv32>)
    ensures fresh(w) && w[..] == Schedule(block, 64)
  {
    w := new bv32[64];
    BeginSchedule(block, w);
    ContinueSchedule(block, w);
    assert w[..64] == w[..];
  }

  method BeginSchedule(block: Block, w: array<bv32>)
    requires w.Length == 64
    modifies w
    ensures w[..16] == Schedule(block, 16)
  {
    var i := 0;
    while i < 16
      invariant 0 <= i <= 16
      invariant w[..i] == Schedule(block, i)
    {
      var word := Word(block[4 * i], block[4 * i + 1], block[4 * i + 2], block[4 * i + 3]);
      ScheduleBegins(block, i, word);
      w[i] := word;
      assert w[..i + 1] == w[..i] + [word];
      i := i + 1;
    }
  }

  method ContinueSchedule(block: Block, w: array<bv32>)
    requires w.Length == 64 && w[..16] == Schedule(block, 16)
    modifies w
    ensures w[..64] == Schedule(block, 64)
  {
    var i := 16;
    while i < 64
      invariant 16 <= i <= 64
      invariant w[..i] == Schedule(block, i)
    {
      ghost var before := w[..i];
      w[i] := Add(Add(Add(SmallSigma1(w[i - 2]), w[i - 7]), SmallSigma0(w[i - 15])), w[i - 16]);
      assert w[..i + 1] == before + [NextWord(before)];
      ScheduleContinues(block, i);
      i := i + 1;
    }
  }

  method RunRounds(start: State, w: array<bv32>) returns (end: State)
    requires w.Length == 64
    ensures end == Rounds(start, w[..], 64)
  {
    var a, b, c, d, e, f, g, hh := start.a, start.b, start.c, start.d, start.e, start.f, start.g, start.h;
    var i := 0;
    while i < 64
      invariant 0 <= i <= 64
      invariant State(a, b, c, d, e, f, g, hh) == Rounds(start, w[..], i)
    {
      var t1 := Add(Add(Add(Add(hh, BigSigma1(e)), Ch(e, f, g)), K[i]), w[i]);
      var t2 := Add(BigSigma0(a), Maj(a, b, c));
      hh := g;
      g := f;
      f := e;
      e := Add(d, t1);
      d := c;
      c := b;
      b := a;
      a := Add(t1, t2);
      i := i + 1;
    }
    end := State(a, b, c, d, e, f, g, hh);
  }

  /** The body of the block loop: the hash words are updated in place. */
  method CompressBlock(h: array<bv32>, message: seq<Byte>, offset: nat)
    requires h.Length == 8 && offset + 64 <= |message|
    modifies h
    ensures StateOf(h[..]) == Compress(old(StateOf(h[..])), message[offset..offset + 64])
  {
    var w := FillSchedule(message[offset..offset + 64]);
    var end := RunRounds(StateOf(h[..]), w);
    h[0] := Add(h[0], end.a);
    h[1] := Add(h[1], end.b);
    h[2] := Add(h[2], end.c);
    h[3] := Add(h[3], end.d);
    h[4] := Add(h[4], end.e);
    h[5] := Add(h[5], end.f);
    h[6] := Add(h[6], end.g);
    h[7] := Add(h[7], end.h);
  }

  // ----- the digest -----

  method HashMessage(message: seq<Byte>) returns (h: array<bv32>)
    requires |message| % 64 == 0
    ensures h.Length == 8 && fresh(h) && StateOf(h[..]) == Chain(message, |message| / 64)
  {
    h := new bv32[8];
    h[0], h[1], h[2], h[3] := 0x6a09e667, 0xbb67ae85, 0x3c6ef372, 0xa54ff53a;
    h[4], h[5], h[6], h[7] := 0x510e527f, 0x9b05688c, 0x1f83d9ab, 0x5be0cd19;
    assert StateOf(h[..]) == INITIAL;
    var offset := 0;
    ghost var n := 0;
    while offset < |message|
      invariant 0 <= offset == 64 * n <= |message|
      invariant StateOf(h[..]) == Chain(message, n)
    {
      CompressBlock(h, message, offset);
      offset, n := offset + 64, n + 1;
    }
  }

  method HexDigest(h: array<bv32>) returns (digest: string)
    ensures digest == HexAll(h[..])
  {
    digest := "";
    var i := 0;
    while i < h.Length
      invariant 0 <= i <= h.Length
      invariant digest == HexAll(h[..i])
    {
      assert h[..i + 1][..i] == h[..i];
      digest := digest + Hex(h[i]);
      i := i + 1;
    }
    assert h[..h.Length] == h[..];
  }

  method Sha256Raw(data: seq<Byte>) returns (digest: string)
    ensures digest == Sha256(data)
  {
    var message := BuildMessage(data);
    PadLength(data);
    var h := HashMessage(message);
    digest := HexDigest(h);
    WordsOfState(h[..]);
  }

  lemma WordsOfState(h: seq<bv32>)
    requires |h| == 8
    ensures Words(StateOf(h)) == h
  {
  }

  // ----- what padding guarantees -----

  /** The padded length is the smallest multiple of 64 that leaves room for the marker and the
      eight length bytes. */
  lemma PadLength(message: seq<Byte>)
    ensures |Pad(message)| % 64 == 0
    ensures |message| + 9 <= |Pad(message)| < |message| + 9 + 64
  {
    var n := |message|;
    assert |Pad(message)| == n + 1 + ZeroCount(n) + 8;
    SixtyFourths(n + 1 + ZeroCount(n));
  }

  lemma SixtyFourths(x: nat)
    requires x % 64 == 56
    ensures (x + 8) % 64 == 0
  {
  }

  lemma {:induction false} BigEndianDecodes(value: nat, n: nat)
    ensures FromBigEndian(BigEndian(value, n)) == value % Pow256(n)
  {
    if n > 0 {
      BigEndianDecodes(value / 256, n - 1);
      RemainderInside(value, Pow256(n - 1));
      var bytes := BigEndian(value, n);
      assert bytes[..|bytes| - 1] == BigEndian(value / 256, n - 1);
    }
  }

  function LastEight(padded: seq<Byte>): seq<Byte>
    requires |padded| >= 8
  {
    padded[|padded| - 8..]
  }

  lemma EightBytes()
    ensures Pow256(8) == 0x1_0000_0000_0000_0000
  {
  }

  lemma EndsWith(padded: seq<Byte>, front: seq<Byte>, field: seq<Byte>)
    requires padded == front + field && |field| == 8
    ensures LastEight(padded) == field
  {
  }

  /** The last eight bytes decode to the length in bits. */
  lemma LengthFieldDecodes(message: seq<Byte>)
    requires |message| < 0x2000_0000_0000_0000
    ensures |Pad(message)| >= 8
    ensures FromBigEndian(LastEight(Pad(message))) == 8 * |message|
  {
    PadEnds(message);
    EightBytes();
    FieldDecodes(LastEight(Pad(message)), 8 * |message|, 8);
  }

  lemma FieldDecodes(field: seq<Byte>, value: nat, n: nat)
    requires field == BigEndian(value, n) && value < Pow256(n)
    ensures FromBigEndian(field) == value
  {
    BigEndianDecodes(value, n);
  }

  lemma PadEnds(message: seq<Byte>)
    ensures |Pad(message)| >= 8 && LastEight(Pad(message)) == BigEndian(8 * |message|, 8)
  {
    EndsWith(Pad(message), message + [0x80] + Zeros(ZeroCount(|message|)), BigEndian(8 * |message|, 8));
  }

  /** No padded message is a suffix of another message's padding; in particular padding is injective. */
  lemma PaddingIsSuffixFree(a: seq<Byte>, b: seq<Byte>)
    requires |a| < 0x2000_0000_0000_0000 && |b| < 0x2000_0000_0000_0000
    requires |Pad(a)| <= |Pad(b)| && Pad(b)[|Pad(b)| - |Pad(a)|..] == Pad(a)
    ensures a == b
  {
    LengthFieldDecodes(a);
    LengthFieldDecodes(b);
    assert LastEight(Pad(b)) == LastEight(Pad(a));
    assert |Pad(a)| == |Pad(b)|;
    assert Pad(a)[..|a|] == a && Pad(b)[..|b|] == b;
  }

  // ----- equal digests -----

  function DigitValue(c: char): bv32 {
    if c == '1' then 1 else if c == '2' then 2 else if c == '3' then 3 else if c == '4' then 4
    else if c == '5' then 5 else if c == '6' then 6 else if c == '7' then 7 else if c == '8' then 8
    else if c == '9' then 9 else if c == 'a' then 10 else if c == 'b' then 11 else if c == 'c' then 12
    else if c == 'd' then 13 else if c == 'e' then 14 else if c == 'f' then 15 else 0
  }

  lemma DigitRoundTrip(n: bv32)
    requires n < 16
    ensures DigitValue(HexDigit(n)) == n
  {
  }

  /** The word that eight hexadecimal digits stand for. */
  function WordOf(s: string): bv32
    requires |s| == 8
  {
    Join(DigitValue(s[0]), DigitValue(s[1]), DigitValue(s[2]), DigitValue(s[3]),
         DigitValue(s[4]), DigitValue(s[5]), DigitValue(s[6]), DigitValue(s[7]))
  }

  function Join(a: bv32, b: bv32, c: bv32, d: bv32, e: bv32, f: bv32, g: bv32, h: bv32): bv32 {
    (a << 28) | (b << 24) | (c << 20) | (d << 16) | (e << 12) | (f << 8) | (g << 4) | h
  }

  lemma JoinDigits(w: bv32)
    ensures Join(w >> 28, (w >> 24) & 0xf, (w >> 20) & 0xf, (w >> 16) & 0xf,
                 (w >> 12) & 0xf, (w >> 8) & 0xf, (w >> 4) & 0xf, w & 0xf) == w
  {
  }

  /** The printed digits read back as the word. */
  lemma HexReadsBack(w: bv32)
    ensures WordOf(Hex(w)) == w
  {
    DigitRoundTrip(w >> 28);
    DigitRoundTrip((w >> 24) & 0xf);
    DigitRoundTrip((w >> 20) & 0xf);
    DigitRoundTrip((w >> 16) & 0xf);
    DigitRoundTrip((w >> 12) & 0xf);
    DigitRoundTrip((w >> 8) & 0xf);
    DigitRoundTrip((w >> 4) & 0xf);
    DigitRoundTrip(w & 0xf);
    JoinDigits(w);
  }

  lemma {:induction false} HexAllLength(words: seq<bv32>)
    ensures |HexAll(words)| == 8 * |words|
  {
    if words != [] {
      HexAllLength(words[..|words| - 1]);
    }
  }

  lemma {:induction false} HexAllInjective(x: seq<bv32>, y: seq<bv32>)
    requires |x| == |y| && HexAll(x) == HexAll(y)
    ensures x == y
  {
    if x != [] {
      var n := |x| - 1;
      LastWord(x);
      LastWord(y);
      HexAllInjective(x[..n], y[..n]);
      HexReadsBack(x[n]);
      HexReadsBack(y[n]);
      SplitLast(x);
      SplitLast(y);
    }
  }

  lemma LastWord(x: seq<bv32>)
    requires x != []
    ensures var n := |x| - 1;
            && |HexAll(x)| >= 8 * n
            && HexAll(x)[..8 * n] == HexAll(x[..n]) && HexAll(x)[8 * n..] == Hex(x[n])
  {
    HexAllLength(x[..|x| - 1]);
  }

  /** Steps i and j of two chains put different inputs into the compression function and get the
      same output. */
  ghost predicate CollidesAt(compress: (State, Block) -> State, p: seq<Byte>, i: nat, q: seq<Byte>, j: nat) {
    && 64 * i + 64 <= |p| && 64 * j + 64 <= |q|
    && (Fold(compress, p, i) != Fold(compress, q, j) || BlockAt(p, i) != BlockAt(q, j))
    && compress(Fold(compress, p, i), BlockAt(p, i)) == compress(Fold(compress, q, j), BlockAt(q, j))
  }

  /** Walking back from equal chaining values: either two steps of the chains collide or the blocks
      agree back to the first one of the shorter message. */
  lemma {:induction false} WalkBack(compress: (State, Block) -> State, p: seq<Byte>, m: nat, q: seq<Byte>, n: nat)
    returns (collision: bool, i: nat, j: nat)
    requires 64 * m <= |p| && 64 * n <= |q| && m <= n
    requires Fold(compress, p, m) == Fold(compress, q, n)
    ensures collision ==> i < m && j < n && CollidesAt(compress, p, i, q, j)
    ensures !collision ==> forall k :: 0 <= k < m ==> BlockAt(p, k) == BlockAt(q, k + (n - m))
  {
    collision, i, j := false, 0, 0;
    if m > 0 {
      if CollidesAt(compress, p, m - 1, q, n - 1) {
        return true, m - 1, n - 1;
      }
      collision, i, j := WalkBack(compress, p, m - 1, q, n - 1);
    }
  }

  lemma SameBlocks(p: seq<Byte>, m: nat, q: seq<Byte>, n: nat)
    requires |p| == 64 * m && |q| == 64 * n && m <= n
    requires forall k :: 0 <= k < m ==> BlockAt(p, k) == BlockAt(q, k + (n - m))
    ensures q[|q| - |p|..] == p
  {
    forall x | 0 <= x < |p|
      ensures q[|q| - |p| + x] == p[x]
    {
      var k, y := x / 64, x % 64;
      assert BlockAt(p, k)[y] == p[x];
      assert BlockAt(q, k + (n - m))[y] == q[|q| - |p| + x];
    }
  }

  lemma EqualChains(a: seq<Byte>, b: seq<Byte>) returns (collision: bool, i: nat, j: nat)
    requires |a| < 0x2000_0000_0000_0000 && |b| < 0x2000_0000_0000_0000 && |Pad(a)| <= |Pad(b)|
    requires Sha256(a) == Sha256(b)
    ensures if collision then CollidesAt(Compress, Pad(a), i, Pad(b), j) else a == b
  {
    var p, q := Pad(a), Pad(b);
    PadLength(a);
    PadLength(b);
    var m, n := |p| / 64, |q| / 64;
    HexAllInjective(Words(Chain(p, m)), Words(Chain(q, n)));
    collision, i, j := WalkBack(Compress, p, m, q, n);
    if !collision {
      SameBlocks(p, m, q, n);
      PaddingIsSuffixFree(a, b);
    }
  }

  /** Messages with equal digests are equal unless their own two chains exhibit a collision of the
      compression function: neither padding, chaining nor the hexadecimal form loses information. */
  lemma EqualDigests(a: seq<Byte>, b: seq<Byte>)
    requires |a| < 0x2000_0000_0000_0000 && |b| < 0x2000_0000_0000_0000
    requires Sha256(a) == Sha256(b)
    ensures a == b || exists i, j :: CollidesAt(Compress, Pad(a), i, Pad(b), j)
  {
    if |Pad(a)| <= |Pad(b)| {
      var collision, i, j := EqualChains(a, b);
    } else {
      var collision, i, j := EqualChains(b, a);
      if collision {
        assert CollidesAt(Compress, Pad(a), j, Pad(b), i);
      }
    }
  }
}
