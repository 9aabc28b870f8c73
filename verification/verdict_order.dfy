/** The verdicts of case_verdicts.dfy: safe paths by their characters, delivery by the single facts, and the order in
    which errors are reported. */
module VerdictOrder {
  import opened CaseVerdicts

  // ----- safe paths -----

  /** Two dots that begin at i and stand between separators or the ends of the path. */
  predicate IsParentAt(path: string, i: nat) {
    && i + 2 <= |path| && path[i] == '.' && path[i + 1] == '.'
    && (i == 0 || path[i - 1] in {'/', '\\'})
    && (i + 2 == |path| || path[i + 2] in {'/', '\\'})
  }

  lemma {:induction false} SegmentRuns(path: string)
    ensures forall k :: 0 <= k < SegmentLength(path) ==> path[k] !in {'/', '\\'}
    ensures SegmentLength(path) < |path| ==> path[SegmentLength(path)] in {'/', '\\'}
  {
    if path != [] && !IsSeparator(path[0]) {
      SegmentRuns(path[1..]);
    }
  }

  /** A segment is the parent directory exactly when such a pair of dots is there. */
  lemma {:induction false} ParentExactly(path: string)
    ensures ".." in Segments(path) <==> exists i: nat :: i < |path| && IsParentAt(path, i)
    decreases |path|
  {
    var n := SegmentLength(path);
    SegmentRuns(path);
    FirstIsParent(path, n);
    if n < |path| {
      ParentExactly(path[n + 1..]);
      ParentBehind(path, n + 1);
    }
  }

  /** There are such dots from a place behind a separator on. */
  lemma ParentBehind(path: string, m: nat)
    requires 0 < m <= |path| && path[m - 1] in {'/', '\\'}
    ensures (exists i: nat :: i < |path| - m && IsParentAt(path[m..], i)) <==>
            exists i: nat :: m <= i < |path| && IsParentAt(path, i)
  {
    if i: nat :| i < |path| - m && IsParentAt(path[m..], i) {
      ParentShifted(path, m, i);
      assert IsParentAt(path, m + i);
    }
    if i: nat :| m <= i < |path| && IsParentAt(path, i) {
      ParentShifted(path, m, i - m);
      assert IsParentAt(path[m..], i - m);
    }
  }

  lemma ParentShifted(path: string, m: nat, i: nat)
    requires 0 < m <= |path| && path[m - 1] in {'/', '\\'}
    ensures IsParentAt(path[m..], i) <==> IsParentAt(path, m + i)
  {
  }

  lemma FirstIsParent(path: string, n: nat)
    requires n <= |path| && forall k :: 0 <= k < n ==> path[k] !in {'/', '\\'}
    requires n < |path| ==> path[n] in {'/', '\\'}
    ensures path[..n] == ".." <==> IsParentAt(path, 0)
    ensures forall i: nat :: 0 < i <= n ==> !IsParentAt(path, i)
  {
    if path[..n] == ".." {
      assert path[0] == path[..n][0] && path[1] == path[..n][1];
    }
    if IsParentAt(path, 0) {
      assert n == 2;
    }
  }

  /** A path is safe exactly when it is not empty, begins with neither a separator nor a drive, and has no two dots for
      a segment. */
  lemma SafeExactly(path: string)
    ensures SafePath(path) <==>
            && path != "" && path[0] != '/' && path[0] != '\\'
            && !(|path| >= 2 && path[1] == ':' && ('a' <= path[0] <= 'z' || 'A' <= path[0] <= 'Z'))
            && !exists i: nat :: i < |path| && IsParentAt(path, i)
  {
    ParentExactly(path);
  }

  /** Joining keeps both parts and puts one slash between them when there are two and the first ends in no separator. */
  lemma JoinExactly(root: string, relativePath: string)
    ensures var s := JoinPath(root, relativePath);
            if root != "" && relativePath != "" && root[|root| - 1] !in {'/', '\\'}
                then s == root + ['/'] + relativePath
            else s == root + relativePath
  {
    assert root + [] == root && [] + relativePath == relativePath;
    assert "/" == ['/'];
  }

  // ----- what a delivery is -----

  /** A file case is delivered when every single fact is in its favour. */
  lemma DeliveredExactly(f: FileFacts)
    ensures Delivered(f) <==>
            && (f.inlineInput || f.sourceReadable) && f.selected && f.submitted && f.queued
            && f.terminalSuccess && f.outputReady && f.fetchOk && f.consumerMatches && f.verified.ok
            && f.channel != Cuda
            && (f.channel == Shm ==> f.releaseOk)
            && (f.channel == Disk && f.useNamedRouteDisk ==> f.routeIdMatches && f.relativePathSafe && f.diskPathEmpty)
            && (f.benchmark ==> f.headerMatches && f.refetchOk && f.refetchSame)
  {
  }

  /** An announced artifact is missing when one of the facts it is read by is against it. */
  lemma ArtifactMissingExactly(f: FileFacts)
    ensures OutputArtifactMissing in FileErrors(f) <==>
            f.outputReady &&
            (|| !f.fetchOk || f.channel == Cuda || (f.channel == Shm && !f.releaseOk)
             || (f.channel == Disk && f.useNamedRouteDisk && !(f.routeIdMatches && f.relativePathSafe)))
  {
    FileErrorsMean(f, OutputArtifactMissing);
  }

  /** A share is in order when the job succeeded with an announcement whose handle and device agree everywhere. */
  predicate IsSoundShare(f: CudaFacts) {
    && f.queued && f.terminalSuccess && f.cudaStatus && f.metadataMatches && f.infoOk
    && |f.wsHandle| == 128 && f.infoHandle == f.wsHandle
    && f.wsDevice >= 0 && f.infoDevice == f.wsDevice && f.featuresDevice == f.wsDevice
  }

  /** When a CUDA case passes and when it is skipped, with the reason. */
  lemma CudaExactly(f: CudaFacts)
    ensures CudaDelivered(f) <==>
            IsSoundShare(f) && f.shareReadable && f.hashesEqual && (f.benchmark ==> f.rereadOk && f.rereadSame)
    ensures GateOpen(f) <==> f.selected && f.serverListsCuda && f.featuresDevice >= 0 && f.readerPresent
    ensures ShareOk(f) && !ShareRead(f) <==> IsSoundShare(f) && !f.shareReadable
    ensures SkipReason(f) == CudaReaderUnavailable <==>
            f.selected && f.serverListsCuda && f.featuresDevice >= 0 && !f.readerPresent
    ensures SkipReason(f) == CudaIpcUnsupported <==>
            f.selected && f.serverListsCuda && f.featuresDevice >= 0 && f.readerPresent && f.cudaAvailable
    ensures SkipReason(f) in {CudaUnavailable, CudaReaderUnavailable, CudaIpcUnsupported}
  {
  }

  // ----- the order of the errors -----

  /** The place of a code in a list of errors; of those that share a place one at most is reported. */
  function Rank(code: Code): nat {
    match code
    case RepeatTransferMismatch => 0
    case BenchmarkImageShapeMismatch => 1
    case UnexpectedReject => 2
    case WebsocketTimeout => 3
    case ExecutionError => 3
    case OutputEventMissing => 4
    case CudaStatusMissing => 4
    case OutputArtifactMissing => 5
    case CudaMetadataMismatch => 5
    case NamedRouteHandoffMismatch => 6
    case CudaInfoUnavailable => 6
    case ConsumerCorrelationMismatch => 7
    case CudaHandleIntegrityMismatch => 7
    case VerifierCode(_) => 8
    case CudaDeviceIndexMismatch => 8
    case CudaImportFailed => 9
    case OutputHashMismatch => 10
    case _ => 11
  }

  predicate Ascending(codes: seq<Code>) {
    forall i, j :: 0 <= i < j < |codes| ==> Rank(codes[i]) < Rank(codes[j])
  }

  /** The codes of the checks ascend from a rank on. */
  predicate ChecksAscend(checks: Checks, from: nat) {
    checks.When? ==> Rank(checks.code) >= from && ChecksAscend(checks.rest, Rank(checks.code) + 1)
  }

  lemma {:induction false} CollectAscends(checks: Checks, from: nat)
    requires ChecksAscend(checks, from)
    ensures Ascending(Collect(checks))
    ensures forall i :: 0 <= i < |Collect(checks)| ==> Rank(Collect(checks)[i]) >= from
  {
    if checks.When? {
      CollectAscends(checks.rest, Rank(checks.code) + 1);
    }
  }

  lemma AscendByThree(c: Checks, from: nat)
    requires c.When? && c.rest.When? && c.rest.rest.When?
    ensures ChecksAscend(c, from) <==>
            from <= Rank(c.code) < Rank(c.rest.code) < Rank(c.rest.rest.code) &&
            ChecksAscend(c.rest.rest.rest, Rank(c.rest.rest.code) + 1)
  {
    var second, third := c.rest, c.rest.rest;
    AscendByOne(c, from);
    AscendByOne(second, Rank(c.code) + 1);
    AscendByOne(third, Rank(second.code) + 1);
  }

  lemma AscendByOne(c: Checks, from: nat)
    requires c.When?
    ensures ChecksAscend(c, from) <==> from <= Rank(c.code) && ChecksAscend(c.rest, Rank(c.code) + 1)
  {
  }

  /** The errors of a file case come in one fixed order, none twice. */
  lemma FileErrorsAscend(f: FileFacts)
    ensures Ascending(FileErrors(f))
  {
    var c0 := FileChecks(f, Read(f), RepeatOk(f), HandoffOk(f));
    var c3 := c0.rest.rest.rest;
    var c6 := c3.rest.rest.rest;
    AscendByThree(c0, 0);
    AscendByThree(c3, 3);
    AscendByThree(c6, 6);
    CollectAscends(c0, 0);
  }

  /** So do those of a CUDA case. */
  lemma CudaErrorsAscend(f: CudaFacts)
    ensures Ascending(CudaErrors(f))
  {
    CudaChecksAscend(f, ShareRead(f), ShareOk(f), RereadOk(f), HandleOk(f), DeviceOk(f));
    CollectAscends(CudaChecks(f, ShareRead(f), ShareOk(f), RereadOk(f), HandleOk(f), DeviceOk(f)), 0);
  }

  lemma CudaChecksAscend(f: CudaFacts, read: bool, shareOk: bool, rereadOk: bool, handleOk: bool, deviceOk: bool)
    ensures ChecksAscend(CudaChecks(f, read, shareOk, rereadOk, handleOk, deviceOk), 0)
  {
    var c := CudaChecks(f, read, shareOk, rereadOk, handleOk, deviceOk);
    ShareChecksAscend(f, read, shareOk, handleOk, deviceOk);
    AscendByThree(c, 0);
    AscendByOne(c.rest.rest.rest, 4);
  }

  lemma ShareChecksAscend(f: CudaFacts, read: bool, shareOk: bool, handleOk: bool, deviceOk: bool)
    ensures ChecksAscend(ShareChecks(f, read, shareOk, handleOk, deviceOk), 5)
  {
    var c := ShareChecks(f, read, shareOk, handleOk, deviceOk);
    AscendByThree(c, 5);
    AscendByThree(c.rest.rest.rest, 8);
  }
}
