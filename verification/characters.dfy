/** The characters that texts are told apart by, by their codes, and what trimming and the byte hash do to a text. */
module Characters {
  import opened ByteStrings
  import opened JsonText
  import opened ServiceText
  import opened RangeGrammar
  import CudaProbe

  /** Spaces around names are the five controls from the tab on and the space. */
  lemma SpaceExactly(c: char)
    ensures IsSpace(c) <==> 9 <= c as int <= 13 || c as int == 32
  {
  }

  /** JSON knows four of them: tab, line feed, carriage return and space. */
  lemma BlankExactly(c: char)
    ensures JsonText.IsBlank(c) <==> c as int in {9, 10, 13, 32}
    ensures IsOpen(c) <==> c as int in {91, 123}
    ensures IsClose(c) <==> c as int in {93, 125}
  {
  }

  /** The capitals move 32 codes up. */
  lemma LowerExactly(c: char)
    ensures Lower(c) as int == if 65 <= c as int <= 90 then c as int + 32 else c as int
  {
  }

  /** Trimming takes spaces off both ends and leaves none there. */
  lemma TrimExactly(s: string)
    ensures exists front, back :: AllSpace(front) && AllSpace(back) && s == front + Trimmed(s) + back
    ensures Trimmed(s) != [] ==> !IsSpace(Trimmed(s)[0]) && !IsSpace(Trimmed(s)[|Trimmed(s)| - 1])
  {
    var front, back := TrimSplits(s);
    TrimmedIsBare(s);
  }

  // ----- the byte hash -----

  /** The number without its k lowest bits. */
  function Shifted(x: nat, k: nat): nat {
    if k == 0 then x else Shifted(x / 2, k - 1)
  }

  /** Bit k of the exclusive or is set exactly when it is set on one side only. */
  lemma {:induction false} XorBits(a: nat, b: nat, n: nat, k: nat)
    requires k < n
    ensures Shifted(CudaProbe.Xor(a, b, n), k) % 2 == 1 <==> Shifted(a, k) % 2 != Shifted(b, k) % 2
  {
    var rest := CudaProbe.Xor(a / 2, b / 2, n - 1);
    CudaProbe.HalfAndRest(rest, (a + b) % 2);
    if k > 0 {
      XorBits(a / 2, b / 2, n - 1, k - 1);
      assert Shifted(CudaProbe.Xor(a, b, n), k) == Shifted(rest, k - 1);
    } else {
      DifferentBits(a, b);
    }
  }

  lemma DifferentBits(a: nat, b: nat)
    ensures (a + b) % 2 == 1 <==> a % 2 != b % 2
  {
  }

  /** The lower and the higher bits are treated apart. */
  lemma {:induction false} BitsApart(a: nat, b: nat, n: nat, m: nat)
    requires m <= n
    ensures CudaProbe.Xor(a, b, n) ==
            CudaProbe.Xor(a, b, m) + CudaProbe.Pow2(m) * CudaProbe.Xor(Shifted(a, m), Shifted(b, m), n - m)
  {
    if m > 0 {
      var q, rest := CudaProbe.Pow2(m - 1), CudaProbe.Xor(Shifted(a, m), Shifted(b, m), n - m);
      BitsApart(a / 2, b / 2, n - 1, m - 1);
      Doubled(q, rest);
    }
  }

  lemma Doubled(q: nat, k: nat)
    ensures 2 * q * k == 2 * (q * k)
  {
  }

  lemma {:induction false} NoBits(a: nat, n: nat)
    requires a < CudaProbe.Pow2(n)
    ensures CudaProbe.Xor(a, 0, n) == a
  {
    if n > 0 {
      NoBits(a / 2, n - 1);
    }
  }

  lemma ShiftedByTwo(x: nat, k: nat)
    requires k >= 2
    ensures Shifted(x, k) == Shifted(x / 4, k - 2)
  {
    assert Shifted(x, k) == Shifted(x / 2, k - 1) == Shifted(x / 2 / 2, k - 2);
  }

  lemma ByteShifted(x: nat)
    ensures Shifted(x, 8) == x / 256
  {
    ShiftedByTwo(x, 8);
    ShiftedByTwo(x / 4, 6);
    ShiftedByTwo(x / 16, 4);
    ShiftedByTwo(x / 64, 2);
  }

  /** A byte leaves the higher bits of a hash alone. */
  lemma HigherBits(hash: CudaProbe.Hash, byte: Byte)
    ensures CudaProbe.XorByte(hash, byte) == CudaProbe.Xor(hash, byte as nat, 8) + 256 * (hash / 256)
  {
    ByteShifted(hash);
    ByteShifted(byte as nat);
    HighPart(hash / 256);
    BitsApart(hash, byte as nat, 64, 8);
    assert CudaProbe.Pow2(8) == 256;
  }

  lemma HighPart(x: nat)
    requires x < 0x100_0000_0000_0000
    ensures CudaProbe.Xor(x, 0, 56) == x
  {
    CudaProbe.SixtyFourBits();
    CudaProbe.Pow2Sum(8, 56);
    assert CudaProbe.Pow2(8) == 256;
    NoBits(x, 56);
  }

  lemma LetterMixed(hash: nat)
    requires hash == 1469598103934665603
    ensures CudaProbe.Xor(hash, 97, 8) == 226
  {
    assert CudaProbe.Xor(hash / 2 / 2 / 2 / 2 / 2 / 2 / 2, 0, 1) == 1;
    assert CudaProbe.Xor(hash / 2 / 2 / 2 / 2 / 2 / 2, 1, 2) == 3;
    assert CudaProbe.Xor(hash / 2 / 2 / 2 / 2 / 2, 3, 3) == 7;
    assert CudaProbe.Xor(hash / 2 / 2 / 2 / 2, 6, 4) == 14;
    assert CudaProbe.Xor(hash / 2 / 2 / 2, 12, 5) == 28;
    assert CudaProbe.Xor(hash / 2 / 2, 24, 6) == 56;
    assert CudaProbe.Xor(hash / 2, 48, 7) == 113;
  }

  lemma HighOfBasis(hash: nat)
    requires hash == 1469598103934665603
    ensures 256 * (hash / 256) == 1469598103934665472
  {
  }

  lemma LetterMultiplied(x: CudaProbe.Hash)
    requires x == 1469598103934665698
    ensures CudaProbe.Times(x) == 4953267810257967366
  {
  }

  lemma LetterHashed(hash: CudaProbe.Hash, byte: Byte)
    requires hash == 1469598103934665603 && byte == 97
    ensures CudaProbe.Mix(hash, byte) == 4953267810257967366
  {
    HigherBits(hash, byte);
    LetterMixed(hash);
    HighOfBasis(hash);
    LetterMultiplied(CudaProbe.XorByte(hash, byte));
  }

  /** The hash of the one letter a: the letter goes into the hash before the multiplication. */
  lemma HashOfLetter(bytes: Bytes)
    requires |bytes| == 1 && bytes[0] == 97
    ensures CudaProbe.Fnv(bytes) == 4953267810257967366
  {
    CudaProbe.HashOfOne(CudaProbe.BASIS, bytes[0]);
    assert bytes == [bytes[0]];
    LetterHashed(CudaProbe.BASIS, bytes[0]);
  }
}
