/** The verifiers of delivered bytes (verify/). */
module Verifiers {
  import opened ByteStrings
  import opened Sha256Spec
  import opened Sha256Impl
  import opened CaseVerdicts
  import opened DeliveryCases
  import StructuralCheck

  // ----- binary glTF -----

  const LIMIT := 0x1_0000_0000
  const GLTF_MAGIC := 0x46546C67
  const JSON_CHUNK := 0x4E4F534A

  /** Four bytes, the least significant one first. */
  function Le(n: nat): Bytes
    requires n < LIMIT
  {
    [(n % 256) as Byte, (n / 256 % 256) as Byte, (n / 65536 % 256) as Byte, (n / 16777216) as Byte]
  }

  function LeU32(bytes: Bytes, offset: nat): nat
    requires offset + 4 <= |bytes|
  {
    bytes[offset] as nat + bytes[offset + 1] as nat * 256 + bytes[offset + 2] as nat * 65536 +
        bytes[offset + 3] as nat * 16777216
  }

  lemma LeReads(bytes: Bytes, offset: nat, n: nat)
    requires offset + 4 <= |bytes| && n < LIMIT
    ensures LeU32(bytes, offset) == n <==> bytes[offset..offset + 4] == Le(n)
  {
    var s := bytes[offset..offset + 4];
    assert s == [bytes[offset], bytes[offset + 1], bytes[offset + 2], bytes[offset + 3]];
    if LeU32(bytes, offset) == n {
      Digits(bytes[offset] as nat, bytes[offset + 1] as nat, bytes[offset + 2] as nat, bytes[offset + 3] as nat);
    }
    if s == Le(n) {
      Undigits(n);
    }
  }

  lemma Digits(a: nat, b: nat, c: nat, d: nat)
    requires a < 256 && b < 256 && c < 256 && d < 256
    ensures var n := a + b * 256 + c * 65536 + d * 16777216;
            n % 256 == a && n / 256 % 256 == b && n / 65536 % 256 == c && n / 16777216 == d
  {
    var n := a + b * 256 + c * 65536 + d * 16777216;
    assert n / 256 == b + c * 256 + d * 65536;
    assert n / 65536 == c + d * 256;
  }

  lemma Undigits(n: nat)
    ensures n % 256 + n / 256 % 256 * 256 + n / 65536 % 256 * 65536 + n / 16777216 * 16777216 == n
  {
    assert n / 256 / 256 == n / 65536 && n / 65536 / 256 == n / 16777216;
  }

  /** The header of a version 2 file and of its JSON chunk. */
  function GlbHeader(total: nat, json: nat): Bytes
    requires total < LIMIT && json < LIMIT
  {
    Le(GLTF_MAGIC) + Le(2) + Le(total) + Le(json) + Le(JSON_CHUNK)
  }

  /** A whole file: its JSON chunk is not empty, and more holds whatever chunks follow. */
  ghost predicate IsGlb(bytes: Bytes) {
    exists json: Bytes, more: Bytes ::
      json != [] && |bytes| < LIMIT && |json| < LIMIT && bytes == GlbHeader(|bytes|, |json|) + (json + more)
  }

  datatype GlbNote = TooSmall | NoMagic | WrongVersion | WrongLength | NoJsonChunk | BadJsonChunk | ValidGlb(json: nat)

  lemma HeaderReads(bytes: Bytes, total: nat, json: nat)
    requires |bytes| >= 20 && total < LIMIT && json < LIMIT
    ensures bytes[..20] == GlbHeader(total, json) <==>
            && LeU32(bytes, 0) == GLTF_MAGIC && LeU32(bytes, 4) == 2 && LeU32(bytes, 8) == total
            && LeU32(bytes, 12) == json && LeU32(bytes, 16) == JSON_CHUNK
  {
    LeReads(bytes, 0, GLTF_MAGIC);
    LeReads(bytes, 4, 2);
    LeReads(bytes, 8, total);
    LeReads(bytes, 12, json);
    LeReads(bytes, 16, JSON_CHUNK);
    FiveWords(bytes, Le(GLTF_MAGIC), Le(2), Le(total), Le(json), Le(JSON_CHUNK));
  }

  lemma FiveWords(bytes: Bytes, a: Bytes, b: Bytes, c: Bytes, d: Bytes, e: Bytes)
    requires |bytes| >= 20 && |a| == |b| == |c| == |d| == |e| == 4
    ensures bytes[..20] == a + b + c + d + e <==>
            bytes[0..4] == a && bytes[4..8] == b && bytes[8..12] == c && bytes[12..16] == d && bytes[16..20] == e
  {
    var s := a + b + c + d + e;
    assert s[0..4] == a && s[4..8] == b && s[8..12] == c && s[12..16] == d && s[16..20] == e;
    assert bytes[..20] == bytes[0..4] + bytes[4..8] + bytes[8..12] + bytes[12..16] + bytes[16..20];
    if bytes[..20] == s {
      assert bytes[0..4] == bytes[..20][0..4] && bytes[4..8] == bytes[..20][4..8] && bytes[8..12] == bytes[..20][8..12];
      assert bytes[12..16] == bytes[..20][12..16] && bytes[16..20] == bytes[..20][16..20];
    }
  }

  lemma GlbReads(bytes: Bytes)
    ensures IsGlb(bytes) <==>
            && |bytes| >= 20
            && LeU32(bytes, 0) == GLTF_MAGIC && LeU32(bytes, 4) == 2 && LeU32(bytes, 8) == |bytes|
            && 0 < LeU32(bytes, 12) <= |bytes| - 20 && LeU32(bytes, 16) == JSON_CHUNK
  {
    if IsGlb(bytes) {
      var json, more :| json != [] && |bytes| < LIMIT && |json| < LIMIT &&
          bytes == GlbHeader(|bytes|, |json|) + (json + more);
      assert bytes[..20] == GlbHeader(|bytes|, |json|);
      HeaderReads(bytes, |bytes|, |json|);
    }
    if |bytes| >= 20 && LeU32(bytes, 0) == GLTF_MAGIC && LeU32(bytes, 4) == 2 && LeU32(bytes, 8) == |bytes| &&
       0 < LeU32(bytes, 12) <= |bytes| - 20 && LeU32(bytes, 16) == JSON_CHUNK {
      var n := LeU32(bytes, 12);
      HeaderReads(bytes, |bytes|, n);
      var json, more := bytes[20..20 + n], bytes[20 + n..];
      assert json + more == bytes[20..];
      assert bytes == bytes[..20] + bytes[20..];
    }
  }

  method ValidateGlb(bytes: Bytes) returns (ok: bool, note: GlbNote)
    ensures ok <==> IsGlb(bytes)
    ensures ok <==> note.ValidGlb?
  {
    GlbReads(bytes);
    if |bytes| < 20 {
      return false, TooSmall;
    }
    var magic, version, length := LeU32(bytes, 0), LeU32(bytes, 4), LeU32(bytes, 8);
    if magic != GLTF_MAGIC {
      return false, NoMagic;
    }
    if version != 2 {
      return false, WrongVersion;
    }
    if length != |bytes| {
      return false, WrongLength;
    }
    var jsonLength := LeU32(bytes, 12);
    if LeU32(bytes, 16) != JSON_CHUNK {
      return false, NoJsonChunk;
    }
    if jsonLength == 0 || 20 + jsonLength > |bytes| {
      return false, BadJsonChunk;
    }
    return true, ValidGlb(jsonLength);
  }

  // ----- the verdict by class -----

  /** The bytes as the characters the JSON check compares. */
  function Chars(bytes: Bytes): string {
    seq(|bytes|, i requires 0 <= i < |bytes| => bytes[i] as char)
  }

  predicate HasMagic(bytes: Bytes) {
    |bytes| >= 4 && bytes[0] == 0x67 && bytes[1] == 0x6C && bytes[2] == 0x54 && bytes[3] == 0x46
  }

  ghost predicate Accepts(kind: Verification, expected: Bytes, delivered: Bytes) {
    match kind
    case ByteExact => delivered != [] && Sha256(expected) == Sha256(delivered)
    case Structural => IsGlb(delivered) || StructuralCheck.Verify(Chars(delivered)).Balanced?
    case _ => delivered != []
  }

  function Rejection(kind: Verification): string {
    match kind
    case ByteExact => "output_hash_mismatch"
    case Structural => "structural_invalid"
    case _ => "output_artifact_empty"
  }

  ghost function VerifiedAs(kind: Verification, expected: Bytes, delivered: Bytes): Verified {
    if Accepts(kind, expected, delivered) then Verified(true, "") else Verified(false, Rejection(kind))
  }

  lemma MagicDecides(bytes: Bytes)
    ensures IsGlb(bytes) ==> HasMagic(bytes)
    ensures StructuralCheck.Verify(Chars(bytes)).Balanced? ==> !HasMagic(bytes)
  {
    GlbReads(bytes);
    if IsGlb(bytes) {
      Digits(bytes[0] as nat, bytes[1] as nat, bytes[2] as nat, bytes[3] as nat);
    }
    if HasMagic(bytes) {
      assert Chars(bytes)[0] == 'g';
    }
  }

  method VerifyByteExact(expected: Bytes, delivered: Bytes) returns (v: Verified)
    ensures v == VerifiedAs(ByteExact, expected, delivered)
  {
    var expectedHash := Sha256Raw(expected);
    var deliveredHash := Sha256Raw(delivered);
    var ok := delivered != [] && expectedHash == deliveredHash;
    v := Verified(ok, if ok then "" else "output_hash_mismatch");
  }

  method VerifyStructural(delivered: Bytes) returns (v: Verified)
    ensures forall expected :: v == VerifiedAs(Structural, expected, delivered)
  {
    var ok;
    MagicDecides(delivered);
    if |delivered| >= 4 && delivered[0] == 0x67 && delivered[1] == 0x6C && delivered[2] == 0x54 &&
        delivered[3] == 0x46 {
      var glb, note := ValidateGlb(delivered);
      ok := glb;
    } else {
      var json, note := StructuralCheck.ValidateJson(Chars(delivered));
      ok := json;
    }
    ok := ok && delivered != [];
    v := Verified(ok, if ok then "" else "structural_invalid");
  }

  /** An empty serverSha256 is not compared. */
  method VerifyIntegrity(delivered: Bytes, serverSha256: string) returns (v: Verified)
    ensures v.ok <==> delivered != [] && (serverSha256 == "" || Sha256(delivered) == serverSha256)
    ensures v.error == if v.ok then "" else if delivered == [] then "output_artifact_empty" else "output_hash_mismatch"
  {
    var deliveredHash := "";
    if delivered != [] {
      deliveredHash := Sha256Raw(delivered);
    }
    var nonEmpty := delivered != [];
    var hashOk := serverSha256 == "" || deliveredHash == serverSha256;
    v := Verified(nonEmpty && hashOk, "");
    if !nonEmpty {
      v := v.(error := "output_artifact_empty");
    } else if !hashOk {
      v := v.(error := "output_hash_mismatch");
    }
  }

  method RunVerifier(kind: Verification, expected: Bytes, delivered: Bytes) returns (v: Verified)
    ensures v == VerifiedAs(kind, expected, delivered)
    ensures VerifierContract(v)
  {
    match kind {
      case ByteExact => v := VerifyByteExact(expected, delivered);
      case Structural => v := VerifyStructural(delivered);
      case DecodedImage => v := VerifyIntegrity(delivered, "");
      case Integrity => v := VerifyIntegrity(delivered, "");
      case CudaRaw => v := VerifyIntegrity(delivered, "");
    }
  }

  /** A byte-exact delivery is the expected one, unless it exhibits a collision of the compression function. */
  lemma ByteExactMeans(expected: Bytes, delivered: Bytes)
    requires Accepts(ByteExact, expected, delivered)
    requires |expected| < 0x2000_0000_0000_0000 && |delivered| < 0x2000_0000_0000_0000
    ensures delivered == expected || exists i, j :: CollidesAt(Compress, Pad(expected), i, Pad(delivered), j)
  {
    EqualDigests(expected, delivered);
  }
}
