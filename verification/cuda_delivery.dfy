/** A whole CUDA delivery case: negotiation, waiting, import of the share and verdict (matrix.cpp). */
module CudaDelivery {
  import opened ByteStrings
  import opened Wrappers
  import opened ServiceText
  import opened Transports
  import opened DeliveryRun
  import opened CaseOutcome
  import opened CaseVerdicts
  import opened FileDelivery
  import opened FramePattern
  import opened Sha256Spec
  import opened Sha256Impl

  /** index is the number of the benchmark image, or zero; ratio and one are the words of the image's floats. */
  datatype CudaCase = CudaCase(
    caseId: string,
    serverAvailable: seq<string>,
    clientReachable: seq<string>,
    featuresDevice: int,
    readerPresent: bool,
    index: nat,
    ratio: (int, int) -> Float,
    one: Float)

  /** What the server says of a share over HTTP. */
  datatype ShareInfo = ShareInfo(handle: string, device: int)

  /** What the case meets outside; reading a share may answer differently the second time. */
  datatype CudaWorld = CudaWorld(
    job: Option<Job>,
    batches: seq<seq<Frame>>,
    info: Option<ShareInfo>,
    available: bool,
    read: Share -> Option<Bytes>,
    readAgain: Share -> Option<Bytes>,
    wsl: bool)

  const NO_SHARE := Share("", "", "", -1, 0, 0, 0, "")

  function ImageOf(c: CudaCase): Image {
    if c.index > 0 then Image(3840, 2160, c.index, c.ratio) else Image(8, 8, 0, c.ratio)
  }

  /** The uploaded RGB image, and the RGBA image the share has to hold. */
  function Uploaded(c: CudaCase): Bytes {
    ImageBytes(ImageOf(c), [], ImageOf(c).height)
  }

  function Expected(c: CudaCase): Bytes {
    ImageBytes(ImageOf(c), [c.one], ImageOf(c).height)
  }

  function CudaRequest(c: CudaCase): Request {
    Request(["cuda", "disk", "http"], c.serverAvailable, c.clientReachable, [], "cuda")
  }

  /** The case gets past the checks before its submission. */
  predicate Open(c: CudaCase) {
    Select(CudaRequest(c)).ok && "cuda" in c.serverAvailable && c.featuresDevice >= 0 && c.readerPresent
  }

  function CudaKeys(c: CudaCase, w: CudaWorld): Keys
    requires w.job.Some?
  {
    Keys(w.job.value.promptId, SafeConsumerId(c.caseId), "cuda")
  }

  function CudaConsumed(c: CudaCase, w: CudaWorld): seq<Frame>
    requires w.job.Some?
  {
    Concat(w.batches[..StopAfter(CudaKeys(c, w), "cuda", NOTHING, w.batches, 0)])
  }

  predicate CudaWaits(c: CudaCase, w: CudaWorld) {
    Open(c) && w.job.Some? && w.job.value.queued
  }

  function CudaSeen(c: CudaCase, w: CudaWorld): Observed {
    if CudaWaits(c, w) then AfterFrames(CudaKeys(c, w), NOTHING, CudaConsumed(c, w)) else NOTHING
  }

  function ShareOf(o: Observed): Share {
    if o.cudaShare.Some? then o.cudaShare.value else NO_SHARE
  }

  /** The share's announced shape. */
  predicate ShapeFits(c: CudaCase, s: Share) {
    s.width == ImageOf(c).width && s.height == ImageOf(c).height && s.channels == 4 && s.dtype == "float32"
  }

  function CudaFactsOf(c: CudaCase, w: CudaWorld, o: Observed, hashesEqual: bool): CudaFacts {
    var share := ShareOf(o);
    CudaFacts(
      Select(CudaRequest(c)).ok,
      "cuda" in c.serverAvailable,
      c.featuresDevice,
      c.readerPresent,
      w.job.Some?,
      w.job.Some? && w.job.value.queued,
      o.terminalSuccess,
      o.terminalType != "",
      o.cudaStatus,
      ShapeFits(c, share),
      w.info.Some?,
      w.available,
      share.ipcHandle,
      if w.info.Some? then w.info.value.handle else "",
      share.device,
      if w.info.Some? then w.info.value.device else -1,
      w.read(share).Some?,
      c.index > 0,
      w.readAgain(share).Some?,
      BytesOf(w.readAgain(share)) == BytesOf(w.read(share)),
      hashesEqual,
      w.wsl)
  }

  function CaseFacts(c: CudaCase, w: CudaWorld): CudaFacts {
    var o := CudaSeen(c, w);
    CudaFactsOf(c, w, o, Sha256(BytesOf(w.read(ShareOf(o)))) == Sha256(Expected(c)))
  }

  /** A share that is in order but cannot be imported under WSL. */
  predicate BlockedByWsl(c: CudaCase, w: CudaWorld) {
    ShareOk(CaseFacts(c, w)) && !ShareRead(CaseFacts(c, w)) && w.wsl
  }

  // ----- the case -----

  method SubmitCuda(ctx: DeliveryContext, c: CudaCase, w: CudaWorld)
    requires ctx.Ready() && ctx.state.Seen() == NOTHING && w.job.Some?
    modifies ctx, ctx.sink, ctx.state, ctx.log`lines, ctx.log`entries, ctx.log.logger
    ensures ctx.Ready() && ctx.log.logger.KeepsCases()
    ensures ctx.state.Seen() ==
            if w.job.value.queued then AfterFrames(CudaKeys(c, w), NOTHING, CudaConsumed(c, w)) else NOTHING
  {
    var consumerId := SafeConsumerId(c.caseId);
    ctx.sink.Configure("", consumerId, "cuda");
    ctx.state.queued := w.job.value.queued;
    ctx.state.promptId := w.job.value.promptId;
    ctx.sink.Configure(ctx.state.promptId, consumerId, "cuda");
    if ctx.state.queued {
      var consumed := ctx.WaitForDelivery("cuda", w.batches);
    }
  }

  /** Builds the expected image and compares its digest with that of the share's bytes. */
  method ObserveCuda(c: CudaCase, w: CudaWorld, o: Observed) returns (facts: CudaFacts)
    requires o == CudaSeen(c, w)
    ensures facts == CaseFacts(c, w)
  {
    var expected := BuildPattern(ImageOf(c), [c.one]);
    var expectedHash := Sha256Raw(expected[..]);
    var outputHash := Sha256Raw(BytesOf(w.read(ShareOf(o))));
    facts := CudaFactsOf(c, w, o, outputHash == expectedHash);
  }

  method RunCudaCase(ctx: DeliveryContext, c: CudaCase, w: CudaWorld) returns (result: Outcome, errors: seq<Code>)
    requires ctx.Ready()
    modifies ctx, ctx.sink, ctx.state, ctx.log, ctx.log.logger
    ensures ctx.Ready() && ctx.log.logger.KeepsCases()
    ensures result == CudaOutcome(c, w)
    ensures result == Pass <==> errors == []
    ensures result == Fail ==> errors == CudaErrors(CaseFacts(c, w))
  {
    ctx.log.SetCase(c.caseId);
    ctx.state.Reset();
    var decision := SelectOutputTransport(CudaRequest(c));
    if decision.ok && "cuda" in c.serverAvailable && c.featuresDevice >= 0 && c.readerPresent && w.job.Some? {
      SubmitCuda(ctx, c, w);
    }
    result, errors := JudgeCase(c, w, ctx.state.Seen());
  }

  method JudgeCase(c: CudaCase, w: CudaWorld, o: Observed) returns (result: Outcome, errors: seq<Code>)
    requires o == CudaSeen(c, w)
    ensures result == CudaOutcome(c, w)
    ensures result == Pass <==> errors == []
    ensures result == Fail ==> errors == CudaErrors(CaseFacts(c, w))
  {
    var facts := ObserveCuda(c, w, o);
    CudaPassesExactly(c, w);
    result, errors := RunCudaDeliveryCase(facts);
  }

  // ----- what a passing case shows -----

  /** All that has to be true of a case and what it meets. */
  ghost predicate CudaPasses(c: CudaCase, w: CudaWorld) {
    && Offered(CudaRequest(c), "cuda") && "cuda" in c.serverAvailable && c.featuresDevice >= 0 && c.readerPresent
    && w.available && w.job.Some? && w.job.value.queued
    && CudaSucceeded(c, w)
    && var share := LastShare(CudaKeys(c, w), AllShares(CudaConsumed(c, w)));
    && share.Some? && Shares(c, w, share.value)
  }

  /** The last terminal event of the case's prompt is a success. */
  ghost predicate CudaSucceeded(c: CudaCase, w: CudaWorld)
    requires w.job.Some?
  {
    var terminal := LastTerminal(CudaKeys(c, w), CudaConsumed(c, w));
    terminal.Some? && terminal.value.terminalStatus == "success"
  }

  /** Socket and HTTP agree on the share, and reading it gives bytes with the expected digest. */
  ghost predicate Shares(c: CudaCase, w: CudaWorld, s: Share) {
    && ShapeFits(c, s)
    && w.info == Some(ShareInfo(s.ipcHandle, s.device)) && |s.ipcHandle| == 128 && s.device == c.featuresDevice
    && w.read(s).Some? && Sha256(w.read(s).value) == Sha256(Expected(c))
    && (c.index > 0 ==> w.readAgain(s) == w.read(s))
  }

  /** Why a case is skipped: it is not open, there is no CUDA, or WSL cannot import a share that is in order. */
  predicate CudaSkips(c: CudaCase, w: CudaWorld) {
    !Open(c) || (w.job.Some? && (!w.available || BlockedByWsl(c, w)))
  }

  /** A case passes, is an error of the harness when its submission failed, is skipped for its reasons, and fails
      otherwise. */
  ghost function CudaOutcome(c: CudaCase, w: CudaWorld): Outcome {
    if CudaPasses(c, w) then Pass
    else if Open(c) && w.job.None? then Error
    else if CudaSkips(c, w) then Skip
    else Fail
  }

  lemma CudaHonoured(c: CudaCase)
    ensures Select(CudaRequest(c)).ok <==> Offered(CudaRequest(c), "cuda")
  {
    HardRequest(CudaRequest(c));
    LowerIsLowered("cuda");
  }

  lemma CudaSeenMeans(c: CudaCase, w: CudaWorld)
    requires CudaWaits(c, w)
    ensures CudaSeen(c, w).terminalSuccess <==> CudaSucceeded(c, w)
    ensures CudaSeen(c, w).cudaShare == LastShare(CudaKeys(c, w), AllShares(CudaConsumed(c, w)))
    ensures CudaSeen(c, w).cudaStatus <==> CudaSeen(c, w).cudaShare.Some?
  {
    FinalState(CudaKeys(c, w), CudaConsumed(c, w));
  }

  lemma ShareOkMeans(c: CudaCase, w: CudaWorld)
    requires CudaWaits(c, w)
    ensures var o := CudaSeen(c, w);
            var s := ShareOf(o);
            ShareOk(CaseFacts(c, w)) <==>
            && o.terminalSuccess && o.cudaStatus && ShapeFits(c, s)
            && w.info == Some(ShareInfo(s.ipcHandle, s.device)) && |s.ipcHandle| == 128 && s.device == c.featuresDevice
  {
    InfoAgrees(c, w);
  }

  lemma InfoAgrees(c: CudaCase, w: CudaWorld)
    requires Open(c)
    ensures var f, s := CaseFacts(c, w), ShareOf(CudaSeen(c, w));
            f.infoOk && HandleOk(f) && DeviceOk(f) <==>
            w.info == Some(ShareInfo(s.ipcHandle, s.device)) && |s.ipcHandle| == 128 && s.device == c.featuresDevice
  {
  }

  lemma ShareReadMeans(c: CudaCase, w: CudaWorld)
    requires CudaSeen(c, w).cudaStatus
    ensures var f, s := CaseFacts(c, w), ShareOf(CudaSeen(c, w));
            ShareRead(f) && f.hashesEqual && RereadOk(f) <==>
            && w.read(s).Some? && Sha256(w.read(s).value) == Sha256(Expected(c))
            && (c.index > 0 ==> w.readAgain(s) == w.read(s))
  {
  }

  lemma CudaDeliveredMeans(c: CudaCase, w: CudaWorld)
    requires CudaWaits(c, w)
    ensures CudaDelivered(CaseFacts(c, w)) <==>
            CudaSeen(c, w).terminalSuccess && CudaSeen(c, w).cudaStatus && Shares(c, w, ShareOf(CudaSeen(c, w)))
  {
    ShareOkMeans(c, w);
    if CudaSeen(c, w).cudaStatus {
      ShareReadMeans(c, w);
    }
  }

  lemma CudaPassesExactly(c: CudaCase, w: CudaWorld)
    ensures var f := CaseFacts(c, w);
            GateOpen(f) && f.submitted && f.cudaAvailable && CudaDelivered(f) <==> CudaPasses(c, w)
  {
    CudaHonoured(c);
    if CudaWaits(c, w) {
      CudaSeenMeans(c, w);
      CudaDeliveredMeans(c, w);
    }
  }

  /** The bytes a passing case imported were announced for it, and are the uploaded image with the word of one
      behind each pixel, unless they exhibit a collision of the compression function. */
  lemma CudaPassMeans(c: CudaCase, w: CudaWorld)
    requires CudaPasses(c, w)
    ensures Offered(CudaRequest(c), "cuda") && w.job.value.promptId != ""
    ensures exists s :: s in AllShares(CudaConsumed(c, w)) && ShareMatches(CudaKeys(c, w), s) && Shares(c, w, s) &&
                        ImageArrives(c, w.read(s).value)
  {
    var keys, frames := CudaKeys(c, w), CudaConsumed(c, w);
    var s := LastShare(keys, AllShares(frames)).value;
    LastShareIsMatch(keys, AllShares(frames));
    TerminalIsMatch(keys, frames);
    SameImage(c, w.read(s).value);
  }

  /** The image arrived, or a collision did. */
  ghost predicate ImageArrives(c: CudaCase, arrived: Bytes) {
    |arrived| < 0x2000_0000_0000_0000 ==>
      || arrived == WithAlpha(Uploaded(c), c.one)
      || exists i, j :: CollidesAt(Compress, Pad(Expected(c)), i, Pad(arrived), j)
  }

  lemma SameImage(c: CudaCase, arrived: Bytes)
    requires Sha256(arrived) == Sha256(Expected(c))
    ensures ImageArrives(c, arrived)
  {
    RowsWithAlpha(ImageOf(c), c.one, ImageOf(c).height);
    ImageSize(ImageOf(c), [c.one], ImageOf(c).height);
    if |arrived| < 0x2000_0000_0000_0000 {
      EqualDigests(Expected(c), arrived);
    }
  }

  lemma {:induction false} LastShareIsMatch(keys: Keys, shares: seq<Share>)
    ensures LastShare(keys, shares).Some? ==>
              LastShare(keys, shares).value in shares && ShareMatches(keys, LastShare(keys, shares).value)
  {
    if shares != [] {
      LastShareIsMatch(keys, shares[..|shares| - 1]);
    }
  }

  /** A case whose prompt only succeeds and whose matching shares are all valid passes, in whatever order and
      batches they arrive, however often, and among any other frames. */
  lemma ShareArrivalPasses(c: CudaCase, w: CudaWorld)
    requires CudaWaits(c, w) && w.available
    requires OnlySucceeds(CudaKeys(c, w), Concat(w.batches))
    requires exists s :: s in AllShares(Concat(w.batches)) && ShareMatches(CudaKeys(c, w), s)
    requires forall s :: s in AllShares(Concat(w.batches)) && ShareMatches(CudaKeys(c, w), s) ==> Shares(c, w, s)
    ensures CudaPasses(c, w)
  {
    var keys, all := CudaKeys(c, w), AllShares(Concat(w.batches));
    LastShareFound(keys, all);
    assert exists i :: 0 <= i < |all| && ShareMatches(keys, all[i]);
    BothAwaited(keys, "cuda", w.batches);
    LastTerminalSucceeds(keys, CudaConsumed(c, w));
    LastShareIsMatch(keys, AllShares(CudaConsumed(c, w)));
    CudaHonoured(c);
  }
}
