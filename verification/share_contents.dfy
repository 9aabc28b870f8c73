/** What a passing CUDA case imported, field by field and word by word. */
module ShareContents {
  import opened ByteStrings
  import opened Wrappers
  import opened Transports
  import opened DeliveryRun
  import opened FileDelivery
  import opened FramePattern
  import opened Sha256Spec
  import opened Sha256Impl
  import opened CudaDelivery

  /** Letters, digits, underscores and dashes of a case's id stay; everything else becomes a dash. */
  lemma ConsumerExactly(caseId: string, i: nat)
    requires i < |caseId|
    ensures |SafeConsumerId(caseId)| == |caseId|
    ensures var c := caseId[i];
            SafeConsumerId(caseId)[i] ==
            if 'a' <= c <= 'z' || 'A' <= c <= 'Z' || '0' <= c <= '9' || c == '_' then c else '-'
  {
  }

  /** The request asks for CUDA of a type that CUDA, disk and http carry. */
  lemma OpenExactly(c: CudaCase)
    ensures Open(c) <==>
            && Lists(c.serverAvailable, "cuda") && Lists(c.clientReachable, "cuda") && "cuda" in c.serverAvailable
            && c.featuresDevice >= 0 && c.readerPresent
  {
    CudaHonoured(c);
    var allowed := CudaRequest(c).typeAllowed;
    assert allowed[0] == "cuda";
    CudaIsClean();
  }

  lemma CudaIsClean()
    ensures Clean("cuda") == "cuda"
  {
  }

  /** The announcement of a share for a case: by name or consumer, of the right shape and device. */
  ghost predicate AnnouncesImage(c: CudaCase, s: Share) {
    && (s.name == SafeConsumerId(c.caseId) || s.notchConsumerId == SafeConsumerId(c.caseId))
    && s.width == (if c.index == 0 then 8 else 3840) && s.height == (if c.index == 0 then 8 else 2160)
    && s.channels == 4 && s.dtype == "float32" && |s.ipcHandle| == 128 && s.device == c.featuresDevice
  }

  /** The image that is sent: eight pixels square, or a numbered one of 3840 by 2160. */
  ghost predicate HoldsImage(c: CudaCase, bytes: Bytes) {
    var w, h := if c.index == 0 then 8 else 3840, if c.index == 0 then 8 else 2160;
    && |bytes| == w * h * 16
    && forall y: nat, x: nat :: y < h && x < w ==> HoldsPixel(c, bytes, w, h, y, x)
  }

  /** Four words a pixel: the column shifted by the image's number, the row, and both together, as parts of the whole,
      then one. */
  ghost predicate HoldsPixel(c: CudaCase, bytes: Bytes, w: nat, h: nat, y: nat, x: nat)
    requires w > 1 && h > 1
  {
    var at := 16 * (y * w + x);
    && WordAt(bytes, at, c.ratio((x + c.index) % w, w - 1))
    && WordAt(bytes, at + 4, c.ratio(y, h - 1))
    && WordAt(bytes, at + 8, c.ratio((x + y) % w, w - 1))
    && WordAt(bytes, at + 12, c.one)
  }

  lemma ExpectedPixel(c: CudaCase, y: nat, x: nat)
    requires y < ImageOf(c).height && x < ImageOf(c).width
    ensures HoldsPixel(c, Expected(c), ImageOf(c).width, ImageOf(c).height, y, x)
  {
    var f := ImageOf(c);
    assert f.frame == c.index;
    PixelAt(f, [c.one], y, x, 0);
    PixelAt(f, [c.one], y, x, 1);
    PixelAt(f, [c.one], y, x, 2);
    PixelAt(f, [c.one], y, x, 3);
  }

  lemma ExpectedHoldsImage(c: CudaCase)
    ensures HoldsImage(c, Expected(c))
  {
    ImageSize(ImageOf(c), [c.one], ImageOf(c).height);
    forall y: nat, x: nat | y < ImageOf(c).height && x < ImageOf(c).width
      ensures HoldsPixel(c, Expected(c), ImageOf(c).width, ImageOf(c).height, y, x)
    {
      ExpectedPixel(c, y, x);
    }
  }

  /** The image, or a collision of the compression function with it. */
  ghost predicate HoldsOrCollides(c: CudaCase, bytes: Bytes) {
    |bytes| < 0x2000_0000_0000_0000 ==>
      HoldsImage(c, bytes) || exists i, j :: CollidesAt(Compress, Pad(Expected(c)), i, Pad(bytes), j)
  }

  lemma ArrivedHolds(c: CudaCase, bytes: Bytes)
    requires ImageArrives(c, bytes)
    ensures HoldsOrCollides(c, bytes)
  {
    RowsWithAlpha(ImageOf(c), c.one, ImageOf(c).height);
    ExpectedHoldsImage(c);
  }

  lemma ShareAnnounces(c: CudaCase, w: CudaWorld, s: Share)
    requires w.job.Some? && ShareMatches(CudaKeys(c, w), s) && Shares(c, w, s)
    ensures AnnouncesImage(c, s) && w.info == Some(ShareInfo(s.ipcHandle, s.device)) && w.read(s).Some?
  {
  }

  /** A passing case's bytes were read from a share announced for it, of which the server says the same over HTTP. */
  ghost predicate CameFrom(c: CudaCase, w: CudaWorld, s: Share, bytes: Bytes)
    requires w.job.Some?
  {
    && s in AllShares(CudaConsumed(c, w)) && AnnouncesImage(c, s)
    && w.info == Some(ShareInfo(s.ipcHandle, s.device)) && w.read(s) == Some(bytes)
  }

  /** What a passing case read from an announced share is the image, unless it exhibits a collision of the compression
      function. */
  lemma PassHoldsImage(c: CudaCase, w: CudaWorld)
    requires CudaPasses(c, w)
    ensures exists s, bytes :: CameFrom(c, w, s, bytes) && HoldsOrCollides(c, bytes)
  {
    CudaPassMeans(c, w);
    var s :| s in AllShares(CudaConsumed(c, w)) && ShareMatches(CudaKeys(c, w), s) && Shares(c, w, s) &&
             ImageArrives(c, w.read(s).value);
    ShareAnnounces(c, w, s);
    ArrivedHolds(c, w.read(s).value);
    assert CameFrom(c, w, s, w.read(s).value);
  }
}
