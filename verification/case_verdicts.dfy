/** How the two kinds of delivery case reach their verdict (matrix.cpp). */
module CaseVerdicts {
  import opened CaseOutcome

  datatype Code =
    | HarnessError
    | UnexpectedReject
    | RepeatTransferMismatch
    | BenchmarkImageShapeMismatch
    | WebsocketTimeout
    | ExecutionError
    | OutputEventMissing
    | OutputArtifactMissing
    | NamedRouteHandoffMismatch
    | ConsumerCorrelationMismatch
    | VerifierCode(error: string)
    | CudaUnavailable
    | CudaReaderUnavailable
    | CudaIpcUnsupported
    | CudaStatusMissing
    | CudaMetadataMismatch
    | CudaInfoUnavailable
    | CudaHandleIntegrityMismatch
    | CudaDeviceIndexMismatch
    | CudaImportFailed
    | OutputHashMismatch

  /** Conditions and the codes reported when they hold, in order. */
  datatype Checks = Stop | When(condition: bool, code: Code, rest: Checks)

  /** The codes whose conditions hold. */
  function Collect(checks: Checks): seq<Code> {
    match checks
    case Stop => []
    case When(condition, code, rest) => (if condition then [code] else []) + Collect(rest)
  }

  /** The code is among those whose conditions hold. */
  predicate Due(checks: Checks, code: Code) {
    checks.When? && ((checks.condition && checks.code == code) || Due(checks.rest, code))
  }

  predicate Clear(checks: Checks) {
    checks.When? ==> !checks.condition && Clear(checks.rest)
  }

  /** Three checks at a time. */
  lemma ClearByThree(c: Checks)
    requires c.When? && c.rest.When? && c.rest.rest.When?
    ensures Clear(c) <==> !c.condition && !c.rest.condition && !c.rest.rest.condition && Clear(c.rest.rest.rest)
  {
    assert Clear(c.rest) <==> !c.rest.condition && Clear(c.rest.rest);
  }

  lemma DueByThree(c: Checks, code: Code)
    requires c.When? && c.rest.When? && c.rest.rest.When?
    ensures Due(c, code) <==>
            (c.condition && c.code == code) || (c.rest.condition && c.rest.code == code) ||
            (c.rest.rest.condition && c.rest.rest.code == code) || Due(c.rest.rest.rest, code)
  {
    assert Due(c.rest, code) <==> (c.rest.condition && c.rest.code == code) || Due(c.rest.rest, code);
  }

  lemma {:induction false} Collected(checks: Checks, code: Code)
    ensures code in Collect(checks) <==> Due(checks, code)
    ensures Collect(checks) == [] <==> Clear(checks)
  {
    if checks.When? {
      Collected(checks.rest, code);
    }
  }

  /** Pushes a code onto the errors when its condition holds. */
  method Report(errors: seq<Code>, ghost checks: Checks, condition: bool, code: Code)
    returns (r: seq<Code>)
    requires Begins(checks, condition, code)
    ensures r + Collect(checks.rest) == errors + Collect(checks)
  {
    r := errors;
    if condition {
      r := r + [code];
    }
  }

  /** Whether the checks begin with this one. */
  predicate Begins(checks: Checks, condition: bool, code: Code) {
    checks.When? && checks.condition == condition && (condition ==> checks.code == code)
  }

  /** The checks on the execution itself, common to both kinds of case: signal is what the run's
      transport has to announce. */
  method ReportExecution(errors: seq<Code>, ghost checks: Checks, queued: bool, terminalSuccess: bool,
                         terminalSeen: bool, signal: bool, missing: Code) returns (r: seq<Code>)
    requires Begins(checks, !queued, UnexpectedReject)
    requires Begins(checks.rest, queued && !terminalSuccess, if terminalSeen then ExecutionError else WebsocketTimeout)
    requires Begins(checks.rest.rest, terminalSuccess && !signal, missing)
    ensures r + Collect(checks.rest.rest.rest) == errors + Collect(checks)
  {
    r := Report(errors, checks, !queued, UnexpectedReject);
    r := Report(r, checks.rest, queued && !terminalSuccess, if terminalSeen then ExecutionError else WebsocketTimeout);
    r := Report(r, checks.rest.rest, terminalSuccess && !signal, missing);
  }

  lemma NothingReported(errors: seq<Code>)
    ensures [] + errors == errors && errors + [] == errors
  {
  }

  // ----- paths of a named route -----

  predicate IsSeparator(c: char) {
    c == '/' || c == '\\'
  }

  predicate IsLetter(c: char) {
    'A' <= c <= 'Z' || 'a' <= c <= 'z'
  }

  /** The length of the first segment. */
  function SegmentLength(path: string): (n: nat)
    ensures n <= |path|
  {
    if path == [] || IsSeparator(path[0]) then 0 else 1 + SegmentLength(path[1..])
  }

  /** The pieces between separators. */
  function Segments(path: string): seq<string>
    decreases |path|
  {
    var n := SegmentLength(path);
    [path[..n]] + (if n < |path| then Segments(path[n + 1..]) else [])
  }

  predicate IsRooted(path: string) {
    path == "" || IsSeparator(path[0]) || (|path| >= 2 && IsLetter(path[0]) && path[1] == ':')
  }

  predicate SafePath(path: string) {
    !IsRooted(path) && ".." !in Segments(path)
  }

  /** Some segment from start on is the parent directory. */
  predicate Climbs(path: string, start: nat) {
    start <= |path| && ".." in Segments(path[start..])
  }

  /** No separator from start up to end. */
  predicate Unbroken(path: string, start: nat, end: nat) {
    start <= end <= |path| && forall k :: start <= k < end ==> !IsSeparator(path[k])
  }

  lemma {:induction false} SegmentGrows(path: string, start: nat, i: nat)
    requires Unbroken(path, start, i)
    ensures SegmentLength(path[start..]) >= i - start
    ensures i == |path| || IsSeparator(path[i]) ==> SegmentLength(path[start..]) == i - start
    decreases i - start
  {
    if start < i {
      assert path[start..][1..] == path[start + 1..];
      SegmentGrows(path, start + 1, i);
    }
  }

  /** Closing the segment that began at start and reaches to end. */
  lemma SegmentEnds(path: string, start: nat, end: nat)
    requires Unbroken(path, start, end) && (end == |path| || IsSeparator(path[end]))
    ensures Climbs(path, start) <==> path[start..end] == ".." || Climbs(path, end + 1)
  {
    SegmentGrows(path, start, end);
    var rest := path[start..];
    assert rest[..end - start] == path[start..end];
    if end < |path| {
      assert rest[end - start + 1..] == path[end + 1..];
    }
  }

  method IsSafeRelativePath(path: string) returns (safe: bool)
    ensures safe <==> SafePath(path)
  {
    if path == "" || path[0] == '/' || path[0] == '\\' {
      return false;
    }
    if |path| >= 2 && IsLetter(path[0]) && path[1] == ':' {
      return false;
    }
    safe := ScanSegments(path);
  }

  /** The last of the segments from start on, growing by one character. */
  lemma SliceGrows(path: string, start: nat, i: nat)
    requires start <= i < |path|
    ensures path[start..i] + [path[i]] == path[start..i + 1]
  {
  }

  /** One character at a time, a separator standing for the end of the path. */
  method ScanSegments(path: string) returns (safe: bool)
    ensures safe <==> ".." !in Segments(path)
  {
    var segment := "";
    ghost var start := 0;
    assert path[0..] == path;
    var i := 0;
    while i <= |path|
      invariant 0 <= i <= |path| + 1
      invariant i <= |path| ==> Unbroken(path, start, i) && segment == path[start..i]
      invariant Climbs(path, 0) <==> Climbs(path, start)
      invariant i == |path| + 1 ==> start == i
    {
      var c := if i < |path| then path[i] else '/';
      if c == '/' || c == '\\' {
        SegmentEnds(path, start, i);
        if segment == ".." {
          return false;
        }
        segment, start := "", i + 1;
      } else {
        SliceGrows(path, start, i);
        segment := segment + [c];
      }
      i := i + 1;
    }
    return true;
  }

  function JoinPath(root: string, relativePath: string): string {
    if root == "" then relativePath
    else if relativePath == "" then root
    else if IsSeparator(root[|root| - 1]) then root + relativePath
    else root + "/" + relativePath
  }

  /** Where a list of segments leads from a directory, given by the names on the way to it. */
  function Walk(place: seq<string>, segments: seq<string>): seq<string>
    decreases |segments|
  {
    if segments == [] then place
    else
      var s := segments[0];
      var next := if s == "" || s == "." then place
                  else if s == ".." then (if place == [] then [] else place[..|place| - 1])
                  else place + [s];
      Walk(next, segments[1..])
  }

  lemma {:induction false} WalkConcat(place: seq<string>, a: seq<string>, b: seq<string>)
    ensures Walk(place, a + b) == Walk(Walk(place, a), b)
    decreases |a|
  {
    if a == [] {
      assert a + b == b;
    } else {
      assert (a + b)[1..] == a[1..] + b;
      var s := a[0];
      var next := if s == "" || s == "." then place
                  else if s == ".." then (if place == [] then [] else place[..|place| - 1])
                  else place + [s];
      WalkConcat(next, a[1..], b);
    }
  }

  lemma {:induction false} WalkDescends(place: seq<string>, segments: seq<string>)
    requires ".." !in segments
    ensures place <= Walk(place, segments)
    decreases |segments|
  {
    if segments != [] {
      var s := segments[0];
      var next := if s == "" || s == "." then place else place + [s];
      WalkDescends(next, segments[1..]);
    }
  }

  lemma {:induction false} SegmentsConcat(a: string, c: char, b: string)
    requires IsSeparator(c)
    ensures Segments(a + [c] + b) == Segments(a) + Segments(b)
    decreases |a|
  {
    var s := a + [c] + b;
    var n := SegmentLength(a);
    SegmentOf(a, [c] + b);
    assert a + ([c] + b) == s;
    assert s[..n] == a[..n];
    if n == |a| {
      assert s[n + 1..] == b;
    } else {
      assert s[n + 1..] == a[n + 1..] + [c] + b;
      SegmentsConcat(a[n + 1..], c, b);
    }
  }

  lemma {:induction false} SegmentOf(a: string, b: string)
    requires b != [] && IsSeparator(b[0])
    ensures SegmentLength(a + b) == SegmentLength(a)
  {
    if a == [] {
      assert a + b == b;
    } else {
      assert (a + b)[1..] == a[1..] + b;
      SegmentOf(a[1..], b);
    }
  }

  /** A safe relative path joined to a root leads to the root's directory or below it. */
  lemma SafePathStaysBelow(root: string, relativePath: string)
    requires SafePath(relativePath)
    ensures Walk([], Segments(root)) <= Walk([], Segments(JoinPath(root, relativePath)))
  {
    var rel := Segments(relativePath);
    if root == "" {
      assert Segments(root) == [""];
      assert Walk([], [""]) == Walk([], [""][1..]);
    } else if IsSeparator(root[|root| - 1]) {
      var stem := root[..|root| - 1];
      var last := root[|root| - 1];
      assert root == stem + [last] + "";
      assert root + relativePath == stem + [last] + relativePath;
      SegmentsConcat(stem, last, "");
      SegmentsConcat(stem, last, relativePath);
      assert Segments("") == [""];
      WalkConcat([], Segments(stem), [""]);
      WalkConcat([], Segments(stem), rel);
      assert [""][1..] == [];
      WalkDescends(Walk([], Segments(stem)), rel);
    } else {
      SegmentsConcat(root, '/', relativePath);
      WalkConcat([], Segments(root), rel);
      WalkDescends(Walk([], Segments(root)), rel);
    }
  }

  // ----- artifacts over disk, shared memory and HTTP -----

  /** What a verifier returns. */
  datatype Verified = Verified(ok: bool, error: string)

  /** Every verifier sets its error code exactly when it does not accept. */
  predicate VerifierContract(v: Verified) {
    v.ok <==> v.error == ""
  }

  datatype Channel = Disk | Shm | Http | Cuda

  /** Everything the case observes outside the harness; relativePathSafe is IsSafeRelativePath's answer. */
  datatype FileFacts = FileFacts(
    inlineInput: bool,
    sourceReadable: bool,
    selected: bool,
    submitted: bool,
    queued: bool,
    terminalSuccess: bool,
    terminalSeen: bool,
    outputReady: bool,
    channel: Channel,
    useNamedRouteDisk: bool,
    routeIdMatches: bool,
    relativePathSafe: bool,
    diskPathEmpty: bool,
    consumerMatches: bool,
    fetchOk: bool,
    benchmark: bool,
    refetchOk: bool,
    refetchSame: bool,
    releaseOk: bool,
    verified: Verified,
    headerMatches: bool)

  /** The artifact was fetched. */
  predicate FirstRead(f: FileFacts) {
    && f.outputReady && f.fetchOk
    && (f.channel.Disk? && f.useNamedRouteDisk ==> f.routeIdMatches && f.relativePathSafe)
    && !f.channel.Cuda?
  }

  /** The artifact was fetched and, over shared memory, released. */
  predicate Read(f: FileFacts) {
    FirstRead(f) && (f.channel.Shm? ==> f.releaseOk)
  }

  predicate RepeatOk(f: FileFacts) {
    f.benchmark && FirstRead(f) ==> f.refetchOk && f.refetchSame
  }

  predicate HandoffOk(f: FileFacts) {
    f.useNamedRouteDisk && f.channel.Disk? ==>
      f.outputReady && f.routeIdMatches && f.relativePathSafe && f.diskPathEmpty
  }

  predicate SourceOk(f: FileFacts) {
    f.inlineInput || f.sourceReadable
  }

  /** What a delivered artifact has to show. */
  predicate Delivered(f: FileFacts) {
    && SourceOk(f) && f.selected && f.submitted
    && f.queued && f.terminalSuccess && f.outputReady
    && HandoffOk(f) && f.consumerMatches
    && Read(f) && f.verified.ok && (f.benchmark ==> f.headerMatches) && RepeatOk(f)
  }

  /** What a case that got past its gates checks, in order. */
  function FileChecks(f: FileFacts, read: bool, repeatOk: bool, handoffOk: bool): Checks {
    When(!repeatOk, RepeatTransferMismatch,
    When(f.benchmark && !f.headerMatches, BenchmarkImageShapeMismatch,
    When(!f.queued, UnexpectedReject,
    When(f.queued && !f.terminalSuccess, if f.terminalSeen then ExecutionError else WebsocketTimeout,
    When(f.terminalSuccess && !f.outputReady, OutputEventMissing,
    ArtifactChecks(f, read, handoffOk))))))
  }

  function FileErrors(f: FileFacts): seq<Code> {
    Collect(FileChecks(f, Read(f), RepeatOk(f), HandoffOk(f)))
  }

  /** The verdict of a case whose transfer is over. */
  method JudgeFile(f: FileFacts, outputRead: bool, repeatOk: bool, namedRouteHandoffOk: bool)
    returns (ok: bool, errors: seq<Code>)
    requires VerifierContract(f.verified)
    ensures errors == Collect(FileChecks(f, outputRead, repeatOk, namedRouteHandoffOk))
    ensures ok <==> f.queued && f.terminalSuccess && f.outputReady && namedRouteHandoffOk && f.consumerMatches &&
                    outputRead && f.verified.ok && (f.benchmark ==> f.headerMatches) && repeatOk
  {
    ghost var checks := FileChecks(f, outputRead, repeatOk, namedRouteHandoffOk);
    errors := [];
    NothingReported(Collect(checks));
    errors := Report(errors, checks, !repeatOk, RepeatTransferMismatch);
    checks := checks.rest;
    var verify := if outputRead then f.verified else Verified(false, "");
    var benchmarkShapeOk := !f.benchmark || f.headerMatches;
    var verifyOk := outputRead && verify.ok && benchmarkShapeOk;
    errors := Report(errors, checks, !benchmarkShapeOk, BenchmarkImageShapeMismatch);
    checks := checks.rest;
    var correlationOk := !f.outputReady || f.consumerMatches;
    ok := f.queued && f.terminalSuccess && f.outputReady && namedRouteHandoffOk && correlationOk && verifyOk &&
        repeatOk;
    errors := ReportExecution(errors, checks, f.queued, f.terminalSuccess, f.terminalSeen, f.outputReady,
                              OutputEventMissing);
    checks := checks.rest.rest.rest;
    errors := ReportArtifact(f, errors, checks, outputRead, namedRouteHandoffOk);
  }

  /** The checks on an announced artifact. */
  function ArtifactChecks(f: FileFacts, read: bool, handoffOk: bool): Checks {
    When(f.outputReady && !read, OutputArtifactMissing,
    When(f.outputReady && !handoffOk, NamedRouteHandoffMismatch,
    When(f.outputReady && !f.consumerMatches, ConsumerCorrelationMismatch,
    When(read && !f.verified.ok, VerifierCode(f.verified.error),
    Stop))))
  }

  method ReportArtifact(f: FileFacts, errors: seq<Code>, ghost checks: Checks, outputRead: bool,
                        namedRouteHandoffOk: bool)
    returns (r: seq<Code>)
    requires VerifierContract(f.verified) && checks == ArtifactChecks(f, outputRead, namedRouteHandoffOk)
    ensures r == errors + Collect(checks)
  {
    var verify := if outputRead then f.verified else Verified(false, "");
    var correlationOk := !f.outputReady || f.consumerMatches;
    ghost var left := checks;
    r := Report(errors, left, f.outputReady && !outputRead, OutputArtifactMissing);
    left := left.rest;
    r := Report(r, left, f.outputReady && !namedRouteHandoffOk, NamedRouteHandoffMismatch);
    left := left.rest;
    r := Report(r, left, f.outputReady && !correlationOk, ConsumerCorrelationMismatch);
    left := left.rest;
    r := Report(r, left, outputRead && !verify.ok && verify.error != "", VerifierCode(f.verified.error));
    left := left.rest;
    NothingReported(r);
  }

  /** Fetches the announced artifact, once more for a benchmark, and releases shared memory. */
  method Transfer(f: FileFacts) returns (outputRead: bool, repeatOk: bool, namedRouteHandoffOk: bool)
    ensures outputRead <==> Read(f)
    ensures repeatOk <==> RepeatOk(f)
    ensures namedRouteHandoffOk <==> HandoffOk(f)
  {
    outputRead := false;
    if f.outputReady {
      match f.channel {
        case Disk =>
          if f.useNamedRouteDisk {
            if f.routeIdMatches && f.relativePathSafe {
              outputRead := f.fetchOk;
            }
          } else {
            outputRead := f.fetchOk;
          }
        case Shm => outputRead := f.fetchOk;
        case Http => outputRead := f.fetchOk;
        case Cuda =>
      }
    }
    repeatOk := true;
    if f.benchmark && outputRead {
      repeatOk := f.refetchOk && f.refetchSame;
    }
    if f.channel.Shm? && f.outputReady {
      if !f.releaseOk {
        outputRead := false;
      }
    }
    var routeHandoffApplies := f.useNamedRouteDisk && f.channel.Disk?;
    namedRouteHandoffOk := !routeHandoffApplies ||
      (f.outputReady && f.routeIdMatches && f.relativePathSafe && f.diskPathEmpty);
  }

  method RunFilePathDeliveryCase(f: FileFacts) returns (result: Outcome, errors: seq<Code>)
    requires VerifierContract(f.verified)
    ensures result == Pass <==> errors == []
    ensures result == Pass <==> Delivered(f)
    ensures result == Error <==> !SourceOk(f) || (f.selected && !f.submitted)
    ensures result != Skip
    ensures SourceOk(f) && f.selected && f.submitted ==> errors == FileErrors(f)
    ensures result == Error ==> errors == [HarnessError]
    ensures SourceOk(f) && !f.selected ==> errors == [UnexpectedReject]
  {
    errors := [];
    if !f.inlineInput {
      if !f.sourceReadable {
        return Error, [HarnessError];
      }
    }
    if !f.selected {
      return Fail, [UnexpectedReject];
    }
    if !f.submitted {
      return Error, [HarnessError];
    }
    var outputRead, repeatOk, namedRouteHandoffOk := Transfer(f);
    var ok;
    ok, errors := JudgeFile(f, outputRead, repeatOk, namedRouteHandoffOk);
    NoFileErrors(f);
    result := if ok then Pass else Fail;
  }

  /** Nothing is reported exactly when the artifact was delivered. */
  lemma NoFileErrors(f: FileFacts)
    requires SourceOk(f) && f.selected && f.submitted
    ensures FileErrors(f) == [] <==> Delivered(f)
  {
    var c0 := FileChecks(f, Read(f), RepeatOk(f), HandoffOk(f));
    Collected(c0, HarnessError);
    var c3 := c0.rest.rest.rest;
    var c6 := c3.rest.rest.rest;
    ClearByThree(c0);
    ClearByThree(c3);
    ClearByThree(c6);
  }

  /** When each code is reported. */
  lemma FileErrorsMean(f: FileFacts, code: Code)
    ensures code in FileErrors(f) <==>
            match code
            case RepeatTransferMismatch => f.benchmark && FirstRead(f) && !(f.refetchOk && f.refetchSame)
            case BenchmarkImageShapeMismatch => f.benchmark && !f.headerMatches
            case UnexpectedReject => !f.queued
            case WebsocketTimeout => f.queued && !f.terminalSuccess && !f.terminalSeen
            case ExecutionError => f.queued && !f.terminalSuccess && f.terminalSeen
            case OutputEventMissing => f.terminalSuccess && !f.outputReady
            case OutputArtifactMissing => f.outputReady && !Read(f)
            case NamedRouteHandoffMismatch =>
              f.outputReady && f.useNamedRouteDisk && f.channel.Disk? &&
              !(f.routeIdMatches && f.relativePathSafe && f.diskPathEmpty)
            case ConsumerCorrelationMismatch => f.outputReady && !f.consumerMatches
            case VerifierCode(error) => Read(f) && !f.verified.ok && error == f.verified.error
            case _ => false
  {
    var c0 := FileChecks(f, Read(f), RepeatOk(f), HandoffOk(f));
    Collected(c0, code);
    var c3 := c0.rest.rest.rest;
    var c6 := c3.rest.rest.rest;
    DueByThree(c0, code);
    DueByThree(c3, code);
    DueByThree(c6, code);
  }

  // ----- CUDA shares -----

  datatype CudaFacts = CudaFacts(
    selected: bool,
    serverListsCuda: bool,
    featuresDevice: int,
    readerPresent: bool,
    submitted: bool,
    queued: bool,
    terminalSuccess: bool,
    terminalSeen: bool,
    cudaStatus: bool,
    metadataMatches: bool,
    infoOk: bool,
    cudaAvailable: bool,
    wsHandle: string,
    infoHandle: string,
    wsDevice: int,
    infoDevice: int,
    shareReadable: bool,
    benchmark: bool,
    rereadOk: bool,
    rereadSame: bool,
    hashesEqual: bool,
    wsl: bool)

  predicate GateOpen(f: CudaFacts) {
    f.selected && f.serverListsCuda && f.featuresDevice >= 0 && f.readerPresent
  }

  /** The handle is 64 bytes in hexadecimal and the same over the socket and over HTTP. */
  predicate HandleOk(f: CudaFacts) {
    |f.wsHandle| == 128 && f.infoOk && f.infoHandle != "" && f.infoHandle == f.wsHandle
  }

  /** Socket, HTTP and features name the same device. */
  predicate DeviceOk(f: CudaFacts) {
    f.wsDevice >= 0 && f.infoOk && f.infoDevice == f.wsDevice == f.featuresDevice
  }

  predicate ShareOk(f: CudaFacts) {
    f.queued && f.terminalSuccess && f.cudaStatus && f.metadataMatches && f.infoOk && HandleOk(f) && DeviceOk(f)
  }

  predicate ShareRead(f: CudaFacts) {
    f.cudaStatus && f.shareReadable
  }

  predicate RereadOk(f: CudaFacts) {
    f.benchmark && ShareRead(f) ==> f.rereadOk && f.rereadSame
  }

  /** What a case with a device whose share could be judged checks, in order. */
  function CudaChecks(f: CudaFacts, read: bool, shareOk: bool, rereadOk: bool, handleOk: bool, deviceOk: bool): Checks {
    When(!rereadOk, RepeatTransferMismatch,
    When(!f.queued, UnexpectedReject,
    When(f.queued && !f.terminalSuccess, if f.terminalSeen then ExecutionError else WebsocketTimeout,
    When(f.terminalSuccess && !f.cudaStatus, CudaStatusMissing,
    ShareChecks(f, read, shareOk, handleOk, deviceOk)))))
  }

  /** The checks on an announced share and on its import. */
  function ShareChecks(f: CudaFacts, read: bool, shareOk: bool, handleOk: bool, deviceOk: bool): Checks {
    When(f.cudaStatus && !f.metadataMatches, CudaMetadataMismatch,
    When(f.cudaStatus && !f.infoOk, CudaInfoUnavailable,
    When(f.cudaStatus && f.infoOk && !handleOk, CudaHandleIntegrityMismatch,
    When(f.cudaStatus && f.infoOk && !deviceOk, CudaDeviceIndexMismatch,
    When(shareOk && !read, CudaImportFailed,
    When(read && !f.hashesEqual, OutputHashMismatch,
    Stop))))))
  }

  function CudaErrors(f: CudaFacts): seq<Code> {
    Collect(CudaChecks(f, ShareRead(f), ShareOk(f), RereadOk(f), HandleOk(f), DeviceOk(f)))
  }

  predicate CudaDelivered(f: CudaFacts) {
    ShareOk(f) && ShareRead(f) && f.hashesEqual && RereadOk(f)
  }

  /** Why a case is skipped. */
  function SkipReason(f: CudaFacts): Code {
    if !f.selected || !f.serverListsCuda || f.featuresDevice < 0 then CudaUnavailable
    else if !f.readerPresent then CudaReaderUnavailable
    else if !f.cudaAvailable then CudaUnavailable
    else CudaIpcUnsupported
  }

  lemma NoCudaErrors(f: CudaFacts)
    ensures CudaErrors(f) == [] <==> CudaDelivered(f)
  {
    var c0 := CudaChecks(f, ShareRead(f), ShareOk(f), RereadOk(f), HandleOk(f), DeviceOk(f));
    Collected(c0, HarnessError);
    var c3 := c0.rest.rest.rest;
    var c6 := c3.rest.rest.rest;
    ClearByThree(c0);
    ClearByThree(c3);
    ClearByThree(c6);
  }

  lemma HandleMeans(f: CudaFacts)
    requires f.infoOk
    ensures HandleOk(f) <==> |f.wsHandle| == 128 && f.infoHandle == f.wsHandle
  {
  }

  lemma ShareErrorsMean(f: CudaFacts, code: Code)
    ensures Due(ShareChecks(f, ShareRead(f), ShareOk(f), HandleOk(f), DeviceOk(f)), code) <==>
            match code
            case CudaMetadataMismatch => f.cudaStatus && !f.metadataMatches
            case CudaInfoUnavailable => f.cudaStatus && !f.infoOk
            case CudaHandleIntegrityMismatch => f.cudaStatus && f.infoOk && !HandleOk(f)
            case CudaDeviceIndexMismatch => f.cudaStatus && f.infoOk && !DeviceOk(f)
            case CudaImportFailed => ShareOk(f) && !ShareRead(f)
            case OutputHashMismatch => ShareRead(f) && !f.hashesEqual
            case _ => false
  {
    var c0 := ShareChecks(f, ShareRead(f), ShareOk(f), HandleOk(f), DeviceOk(f));
    DueByThree(c0, code);
    DueByThree(c0.rest.rest.rest, code);
  }

  /** When each code of a judged case is reported. */
  lemma CudaErrorsMean(f: CudaFacts, code: Code)
    ensures code in CudaErrors(f) <==>
            match code
            case RepeatTransferMismatch => f.benchmark && ShareRead(f) && !(f.rereadOk && f.rereadSame)
            case UnexpectedReject => !f.queued
            case WebsocketTimeout => f.queued && !f.terminalSuccess && !f.terminalSeen
            case ExecutionError => f.queued && !f.terminalSuccess && f.terminalSeen
            case CudaStatusMissing => f.terminalSuccess && !f.cudaStatus
            case CudaMetadataMismatch => f.cudaStatus && !f.metadataMatches
            case CudaInfoUnavailable => f.cudaStatus && !f.infoOk
            case CudaHandleIntegrityMismatch =>
              f.cudaStatus && f.infoOk && !(|f.wsHandle| == 128 && f.infoHandle == f.wsHandle)
            case CudaDeviceIndexMismatch =>
              f.cudaStatus && f.infoOk && !(f.wsDevice >= 0 && f.wsDevice == f.infoDevice == f.featuresDevice)
            case CudaImportFailed => ShareOk(f) && !f.shareReadable
            case OutputHashMismatch => f.cudaStatus && f.shareReadable && !f.hashesEqual
            case _ => false
  {
    var c0 := CudaChecks(f, ShareRead(f), ShareOk(f), RereadOk(f), HandleOk(f), DeviceOk(f));
    Collected(c0, code);
    DueByThree(c0, code);
    ShareErrorsMean(f, code);
    if f.infoOk {
      HandleMeans(f);
    }
  }

  /** The verdict of a case that is neither skipped nor a harness error. */
  method JudgeCuda(f: CudaFacts, cudaRead: bool, shareContractOk: bool, repeatOk: bool, handleIntegrityOk: bool,
                   deviceIndexMatch: bool)
    returns (ok: bool, errors: seq<Code>)
    ensures errors == Collect(CudaChecks(f, cudaRead, shareContractOk, repeatOk, handleIntegrityOk, deviceIndexMatch))
    ensures ok <==> shareContractOk && cudaRead && f.hashesEqual && repeatOk
  {
    ghost var checks := CudaChecks(f, cudaRead, shareContractOk, repeatOk, handleIntegrityOk, deviceIndexMatch);
    var hashMatch := cudaRead && f.hashesEqual;
    errors := [];
    NothingReported(Collect(checks));
    errors := Report(errors, checks, !repeatOk, RepeatTransferMismatch);
    checks := checks.rest;
    errors := ReportExecution(errors, checks, f.queued, f.terminalSuccess, f.terminalSeen, f.cudaStatus,
                              CudaStatusMissing);
    checks := checks.rest.rest.rest;
    errors := ReportShare(f, errors, checks, cudaRead, shareContractOk, handleIntegrityOk, deviceIndexMatch);
    ok := shareContractOk && cudaRead && hashMatch && repeatOk;
  }

  method ReportShare(f: CudaFacts, errors: seq<Code>, ghost checks: Checks, cudaRead: bool, shareContractOk: bool,
                     handleIntegrityOk: bool, deviceIndexMatch: bool) returns (r: seq<Code>)
    requires checks == ShareChecks(f, cudaRead, shareContractOk, handleIntegrityOk, deviceIndexMatch)
    ensures r == errors + Collect(checks)
  {
    var hashMatch := cudaRead && f.hashesEqual;
    var shapeOk := f.cudaStatus && f.metadataMatches;
    ghost var left := checks;
    r := Report(errors, left, f.cudaStatus && !shapeOk, CudaMetadataMismatch);
    left := left.rest;
    r := Report(r, left, f.cudaStatus && !f.infoOk, CudaInfoUnavailable);
    left := left.rest;
    r := Report(r, left, f.cudaStatus && f.infoOk && !handleIntegrityOk, CudaHandleIntegrityMismatch);
    left := left.rest;
    r := Report(r, left, f.cudaStatus && f.infoOk && !deviceIndexMatch, CudaDeviceIndexMismatch);
    left := left.rest;
    r := Report(r, left, shareContractOk && !cudaRead, CudaImportFailed);
    left := left.rest;
    r := Report(r, left, cudaRead && !hashMatch, OutputHashMismatch);
    left := left.rest;
    NothingReported(r);
  }

  method RunCudaDeliveryCase(f: CudaFacts) returns (result: Outcome, errors: seq<Code>)
    ensures result == Pass <==> errors == []
    ensures result == Pass <==> GateOpen(f) && f.submitted && f.cudaAvailable && CudaDelivered(f)
    ensures result == Skip <==>
              !GateOpen(f) || (f.submitted && (!f.cudaAvailable || (ShareOk(f) && !ShareRead(f) && f.wsl)))
    ensures result == Error <==> GateOpen(f) && !f.submitted
    ensures result == Fail ==> errors == CudaErrors(f)
    ensures result == Error ==> errors == [HarnessError]
    ensures result == Skip ==>
              SkipReason(f) in errors && forall e :: e in errors ==> e in {SkipReason(f), RepeatTransferMismatch}
    ensures result == Skip ==> (RepeatTransferMismatch in errors <==> GateOpen(f) && !RereadOk(f))
  {
    errors := [];
    if !f.selected || !f.serverListsCuda || f.featuresDevice < 0 {
      return Skip, [CudaUnavailable];
    }
    if !f.readerPresent {
      return Skip, [CudaReaderUnavailable];
    }
    if !f.submitted {
      return Error, [HarnessError];
    }
    var infoHandle := if f.infoOk then f.infoHandle else "";
    var handleWellFormed := |f.wsHandle| == 128;
    var handleIntegrityOk := handleWellFormed && infoHandle != "" && infoHandle == f.wsHandle;
    var infoDevice := if f.infoOk then f.infoDevice else -1;
    var deviceIndexMatch := f.wsDevice >= 0 && f.wsDevice == infoDevice && f.wsDevice == f.featuresDevice;
    assert (handleIntegrityOk <==> HandleOk(f)) && (deviceIndexMatch <==> DeviceOk(f));
    var cudaRead := f.cudaStatus && f.shareReadable;
    var repeatOk := true;
    if f.benchmark && cudaRead {
      repeatOk := f.rereadOk && f.rereadSame;
    }
    var shapeOk := f.cudaStatus && f.metadataMatches;
    var shareContractOk := f.queued && f.terminalSuccess && f.cudaStatus && shapeOk && f.infoOk && handleIntegrityOk &&
        deviceIndexMatch;
    assert (shareContractOk <==> ShareOk(f)) && (cudaRead <==> ShareRead(f)) && (repeatOk <==> RereadOk(f));
    var ok;
    ok, errors := JudgeCuda(f, cudaRead, shareContractOk, repeatOk, handleIntegrityOk, deviceIndexMatch);
    NoCudaErrors(f);
    if !f.cudaAvailable {
      result := Skip;
      errors := (if repeatOk then [] else [RepeatTransferMismatch]) + [CudaUnavailable];
    } else if shareContractOk && !cudaRead && f.wsl {
      result := Skip;
      errors := (if repeatOk then [] else [RepeatTransferMismatch]) + [CudaIpcUnsupported];
    } else {
      result := if ok then Pass else Fail;
    }
  }
}
