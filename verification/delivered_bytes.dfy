/** The files that the verifiers accept, byte by byte. */
module DeliveredBytes {
  import opened ByteStrings
  import opened Wrappers
  import opened DeliveryCases
  import opened DeliveryGrid
  import opened Verifiers
  import opened Sha256Spec
  import opened FileDelivery
  import StructuralCheck

  predicate ReadsAs(bytes: Bytes, at: nat, n: nat) {
    at + 4 <= |bytes| &&
    n == bytes[at] as nat + 0x100 * bytes[at + 1] as nat + 0x1_0000 * bytes[at + 2] as nat +
         0x100_0000 * bytes[at + 3] as nat
  }

  predicate Spells(bytes: Bytes, at: nat, word: string)
    requires |word| == 4
  {
    at + 4 <= |bytes| && forall k :: 0 <= k < 4 ==> bytes[at + k] as int == word[k] as int
  }

  /** A binary glTF file begins with its name, the version, its own length, and the length and kind of a chunk of JSON
      that is not empty and fits; numbers have their least byte first. */
  lemma GlbExactly(bytes: Bytes)
    ensures IsGlb(bytes) <==>
            && Spells(bytes, 0, "glTF") && ReadsAs(bytes, 4, 2) && ReadsAs(bytes, 8, |bytes|)
            && Spells(bytes, 16, "JSON")
            && exists n: nat :: ReadsAs(bytes, 12, n) && 1 <= n <= |bytes| - 20
  {
    GlbReads(bytes);
    if |bytes| >= 20 {
      WordReads(bytes, 0, "glTF", GLTF_MAGIC);
      WordReads(bytes, 16, "JSON", JSON_CHUNK);
      assert ReadsAs(bytes, 12, LeU32(bytes, 12));
    }
  }

  lemma WordReads(bytes: Bytes, at: nat, word: string, n: nat)
    requires at + 4 <= |bytes| && |word| == 4 && forall k :: 0 <= k < 4 ==> word[k] as int < 256
    requires n == word[0] as int + 0x100 * word[1] as int + 0x1_0000 * word[2] as int + 0x100_0000 * word[3] as int
    ensures LeU32(bytes, at) == n <==> Spells(bytes, at, word)
  {
    if LeU32(bytes, at) == n {
      Digits(word[0] as int, word[1] as int, word[2] as int, word[3] as int);
      Digits(bytes[at] as nat, bytes[at + 1] as nat, bytes[at + 2] as nat, bytes[at + 3] as nat);
    }
  }

  /** What each class asks of delivered bytes, and the code with which it refuses them. */
  lemma ClassesMean(kind: Verification, expected: Bytes, delivered: Bytes)
    ensures var v := VerifiedAs(kind, expected, delivered);
            && (v.ok <==> match kind
                          case ByteExact => delivered != [] && Sha256(delivered) == Sha256(expected)
                          case Structural => IsGlb(delivered) || StructuralCheck.Verify(Chars(delivered)).Balanced?
                          case DecodedImage => delivered != []
                          case Integrity => delivered != []
                          case CudaRaw => delivered != [])
            && v.error == if v.ok then ""
                          else if kind == ByteExact then "output_hash_mismatch"
                          else if kind == Structural then "structural_invalid"
                          else "output_artifact_empty"
    ensures forall i :: 0 <= i < |delivered| ==> Chars(delivered)[i] as int == delivered[i] as int
    ensures |Chars(delivered)| == |delivered|
  {
  }

  /** A benchmark's output begins with the signature of PNG and the chunk IHDR of thirteen bytes for an image of
      3840 by 2160. */
  lemma HeaderIsPng()
    ensures |PNG_4K_HEADER| == 24 && PNG_4K_HEADER[..8] == [137, 80, 78, 71, 13, 10, 26, 10]
    ensures PNG_4K_HEADER[8..12] == BigEndian(13, 4) && Spells(PNG_4K_HEADER, 12, "IHDR")
    ensures PNG_4K_HEADER[16..20] == BigEndian(3840, 4) && PNG_4K_HEADER[20..] == BigEndian(2160, 4)
  {
    HeaderParts(PNG_4K_HEADER);
    Four(13, 0, 0, 0, 13);
    Four(3840, 0, 0, 15, 0);
    Four(2160, 0, 0, 8, 112);
  }

  lemma HeaderParts(h: Bytes)
    requires h == PNG_4K_HEADER
    ensures |h| == 24 && h[..8] == [137, 80, 78, 71, 13, 10, 26, 10] && h[8..12] == [0, 0, 0, 13]
    ensures Spells(h, 12, "IHDR") && h[16..20] == [0, 0, 15, 0] && h[20..] == [0, 0, 8, 112]
  {
  }

  lemma Four(n: nat, a: Byte, b: Byte, c: Byte, d: Byte)
    requires n == ((a as nat * 256 + b as nat) * 256 + c as nat) * 256 + d as nat
    ensures BigEndian(n, 4) == [a, b, c, d]
  {
    var n2 := a as nat * 256 + b as nat;
    var n3 := n2 * 256 + c as nat;
    assert n / 256 == n3 && n % 256 == d as nat && n3 / 256 == n2 && n3 % 256 == c as nat;
    assert BigEndian(a as nat, 1) == [a];
    assert BigEndian(n2, 2) == [a, b];
    assert BigEndian(n3, 3) == [a, b, c];
  }

  /** Every type but one has a file to send, which has to be readable; the camera's input stands in the request. */
  lemma SourceMeans(c: FileCase, w: World)
    requires c.contract in DELIVERY_TYPES
    ensures SourceRead(c, w) <==> c.contract.fixtureFile == "" || w.source.Some?
    ensures SourceRead(c, w) ==>
              if c.contract.fixtureFile == "" then SourceBytes(c, w) == [] else w.source == Some(SourceBytes(c, w))
  {
    ChecksByType(c.contract);
  }
}
