/** The cases of a delivery phase, run and recorded one after the other (RunDeliveryCases of matrix.cpp). */
module DeliverySuite {
  import opened Concatenation
  import opened Transports
  import opened DeliveryCases
  import opened DeliveryRun
  import opened CaseOutcome
  import opened CaseVerdicts
  import opened CaseFiles
  import opened RunRecords
  import opened FileDelivery
  import opened CudaDelivery
  import opened FramePattern
  import opened FacadeTrace

  /** What a phase is run with: the transports and routes the server advertises, whether its shared memory can be
      reached, and the options of the client. */
  datatype Setup = Setup(
    local: bool,
    advertised: seq<string>,
    routeIds: seq<string>,
    shmReachable: bool,
    benchmarks: bool,
    namedRouteId: string,
    clientRoot: string,
    featuresDevice: int,
    readerPresent: bool,
    ratio: (int, int) -> Float,
    one: Float)

  /** What the cases meet outside, and what their records say besides id, result and errors, by the number of
      records before theirs. */
  datatype Outside = Outside(file: nat -> World, cuda: nat -> CudaWorld, evidence: nat -> CaseRecord)

  ghost predicate ValidOutside(out: Outside) {
    forall i :: ValidRecord(out.evidence(i))
  }

  datatype Trial =
    | ProbeTrial(reachable: bool)
    | FileTrial(file: FileCase)
    | CudaTrial(cuda: CudaCase)
    | RejectTrial(rejected: Descriptor, request: Request)
    | SkipTrial(skipped: Descriptor, reason: string)

  const PROBE := "local.shm.reachability-probe"

  function TrialId(t: Trial): string {
    match t
    case ProbeTrial(_) => PROBE
    case FileTrial(c) => c.caseId
    case CudaTrial(c) => c.caseId
    case RejectTrial(d, _) => d.id
    case SkipTrial(d, _) => d.id
  }

  function RejectOutcome(request: Request): Outcome {
    if Select(request).ok then Fail else Pass
  }

  /** The outcome of the trial that meets the i-th part of the outside. */
  ghost function TrialOutcome(t: Trial, out: Outside, i: nat): Outcome {
    match t
    case ProbeTrial(reachable) => if reachable then Pass else Fail
    case FileTrial(c) => FileOutcome(c, out.file(i))
    case CudaTrial(c) => CudaOutcome(c, out.cuda(i))
    case RejectTrial(_, request) => RejectOutcome(request)
    case SkipTrial(_, _) => Skip
  }

  /** The trial leaves the run good. */
  ghost predicate Good(t: Trial, out: Outside, i: nat) {
    match t
    case ProbeTrial(reachable) => reachable
    case FileTrial(c) => Passes(c, out.file(i))
    case CudaTrial(c) => CudaPasses(c, out.cuda(i)) || CudaSkips(c, out.cuda(i))
    case RejectTrial(_, request) => !Select(request).ok
    case SkipTrial(_, _) => true
  }

  lemma GoodMeans(t: Trial, out: Outside, i: nat)
    ensures TrialOutcome(t, out, i) in {Pass, Skip} <==> Good(t, out, i)
  {
  }

  // ----- which trials -----

  /** The names the harness knows, in their order; sorting and removing duplicates leaves the same list. */
  function ServerTransports(s: Setup): seq<string> {
    Common(TRANSPORTS, s.advertised)
  }

  predicate RouteConfigured(s: Setup) {
    s.namedRouteId != "" && s.clientRoot != "" && s.namedRouteId in s.routeIds
  }

  function ClientReachable(s: Setup, named: bool): seq<string> {
    if s.local then ["cuda", "disk", "http"] + (if s.shmReachable then ["shm"] else [])
    else if named && RouteConfigured(s) then ["disk", "http"]
    else ["http"]
  }

  function FileCaseOf(s: Setup, named: bool, id: string, contract: Contract, transport: string,
                      benchmark: bool): FileCase {
    FileCase(id, contract, ServerTransports(s), ClientReachable(s, named), transport, named, s.namedRouteId,
             s.clientRoot, benchmark)
  }

  function CudaCaseOf(s: Setup, id: string, index: nat): CudaCase {
    CudaCase(id, ServerTransports(s), if s.local then ["cuda", "disk", "http"] else ["http"], s.featuresDevice,
             s.readerPresent, index, s.ratio, s.one)
  }

  /** A topology of the phase, over named routes or not, and why its cases are skipped, if they are. */
  datatype Part = Part(topology: Topology, named: bool, skipReason: string)

  function BenchmarkId(p: Part, transport: string, n: nat): string
    requires n < 10
  {
    p.topology.name + ".image." + transport + ".benchmark-4k-" + [('0' as int + n) as char]
  }

  function FixtureFile(n: nat): string
    requires n < 10
  {
    "benchmark-4k-" + [('0' as int + n) as char] + ".bmp"
  }

  function BenchmarkTrial(s: Setup, p: Part, d: Descriptor, n: nat): Trial
    requires n < 10
  {
    var id := BenchmarkId(p, d.transport, n);
    if d.transport == "cuda" then CudaTrial(CudaCaseOf(s, id, n))
    else
      FileTrial(FileCaseOf(s, p.named, id, d.contract.(fixtureFile := FixtureFile(n)), d.transport, true))
  }

  predicate Benchmarked(s: Setup, p: Part, d: Descriptor) {
    && !(p.named && d.transport != "disk")
    && d.outputType == "image" && d.verdict == Deliver && p.skipReason == "" && s.benchmarks
  }

  /** The benchmark images up to the n-th. */
  function Benchmarks(s: Setup, p: Part, d: Descriptor, n: nat): seq<Trial>
    requires n < 10
  {
    if n == 0 then [] else Benchmarks(s, p, d, n - 1) + [BenchmarkTrial(s, p, d, n)]
  }

  const IMAGES: nat := 8

  function BenchmarksOf(s: Setup, p: Part, d: Descriptor): seq<Trial> {
    if Benchmarked(s, p, d) then Benchmarks(s, p, d, IMAGES) else []
  }

  function CaseTrial(s: Setup, p: Part, d: Descriptor): Trial {
    if p.skipReason != "" then SkipTrial(d, p.skipReason)
    else if d.verdict != Deliver then RejectTrial(d, HardRequestFor(p.topology, d.contract, d.transport))
    else if d.transport == "cuda" then CudaTrial(CudaCaseOf(s, d.id, 0))
    else FileTrial(FileCaseOf(s, p.named, d.id, d.contract, d.transport, false))
  }

  function TrialsOf(s: Setup, p: Part, d: Descriptor): seq<Trial> {
    if p.named && d.transport != "disk" then [] else [CaseTrial(s, p, d)]
  }

  function AllBenchmarks(s: Setup, p: Part, cases: seq<Descriptor>): seq<Trial> {
    if cases == [] then [] else AllBenchmarks(s, p, cases[..|cases| - 1]) + BenchmarksOf(s, p, cases[|cases| - 1])
  }

  function AllTrials(s: Setup, p: Part, cases: seq<Descriptor>): seq<Trial> {
    if cases == [] then [] else AllTrials(s, p, cases[..|cases| - 1]) + TrialsOf(s, p, cases[|cases| - 1])
  }

  function PartTrials(s: Setup, p: Part): seq<Trial> {
    AllBenchmarks(s, p, Cases(p.topology)) + AllTrials(s, p, Cases(p.topology))
  }

  function LocalPart(s: Setup): Part {
    Part(Topology("local", ServerTransports(s), ClientReachable(s, false)), false, "")
  }

  function HttpPart(s: Setup): Part {
    Part(Topology("remote-http", ServerTransports(s), ["http"]), false, "")
  }

  function RoutePart(s: Setup): Part {
    Part(Topology("remote-route-disk", ServerTransports(s), ["disk", "http"]), true,
         if RouteConfigured(s) then "" else "named_route_unsupported")
  }

  /** All trials of the phase, in order. */
  function Trials(s: Setup): seq<Trial> {
    if s.local then [ProbeTrial(s.shmReachable && "shm" in ServerTransports(s))] + PartTrials(s, LocalPart(s))
    else PartTrials(s, HttpPart(s)) + PartTrials(s, RoutePart(s))
  }

  // ----- running and recording them -----

  function ResultName(outcome: Outcome): string {
    match outcome
    case Pass => "pass"
    case Fail => "fail"
    case Skip => "skip"
    case Error => "error"
  }

  lemma ResultNames(outcome: Outcome)
    ensures OutcomeOf(ResultName(outcome)) == outcome
  {
    assert "pass"[0] != "fail"[0] && "pass"[0] != "skip"[0] && "fail"[0] != "skip"[0];
    assert |"error"| == 5;
  }

  function CodeName(code: Code): string {
    match code
    case HarnessError => "harness_error"
    case UnexpectedReject => "unexpected_reject"
    case RepeatTransferMismatch => "repeat_transfer_mismatch"
    case BenchmarkImageShapeMismatch => "benchmark_image_shape_mismatch"
    case WebsocketTimeout => "websocket_timeout"
    case ExecutionError => "execution_error"
    case OutputEventMissing => "output_event_missing"
    case OutputArtifactMissing => "output_artifact_missing"
    case NamedRouteHandoffMismatch => "named_route_handoff_mismatch"
    case ConsumerCorrelationMismatch => "consumer_correlation_mismatch"
    case VerifierCode(error) => error
    case CudaUnavailable => "cuda_unavailable"
    case CudaReaderUnavailable => "cuda_reader_unavailable"
    case CudaIpcUnsupported => "cuda_ipc_unsupported"
    case CudaStatusMissing => "cuda_status_missing"
    case CudaMetadataMismatch => "cuda_metadata_mismatch"
    case CudaInfoUnavailable => "cuda_info_unavailable"
    case CudaHandleIntegrityMismatch => "cuda_handle_integrity_mismatch"
    case CudaDeviceIndexMismatch => "cuda_device_index_mismatch"
    case CudaImportFailed => "cuda_import_failed"
    case OutputHashMismatch => "output_hash_mismatch"
  }

  function CodeNames(codes: seq<Code>): seq<string> {
    seq(|codes|, i requires 0 <= i < |codes| => CodeName(codes[i]))
  }

  /** The outcome of each trial, by the number of records before its own. */
  type Judge = (Trial, nat) -> Outcome

  /** The outcomes are those of the trials. */
  ghost predicate Judges(judge: Judge, out: Outside) {
    JudgesCases(judge, out) && JudgesOthers(judge)
  }

  ghost predicate JudgesCases(judge: Judge, out: Outside) {
    && (forall c, i {:trigger FileOutcome(c, out.file(i))} :: judge(FileTrial(c), i) == FileOutcome(c, out.file(i)))
    && (forall c, i {:trigger CudaOutcome(c, out.cuda(i))} :: judge(CudaTrial(c), i) == CudaOutcome(c, out.cuda(i)))
  }

  ghost predicate JudgesOthers(judge: Judge) {
    && (forall reachable, i :: judge(ProbeTrial(reachable), i) == if reachable then Pass else Fail)
    && (forall d, reason, i :: judge(SkipTrial(d, reason), i) == Skip)
    && (forall d, request, i {:trigger judge(RejectTrial(d, request), i), RejectOutcome(request)} ::
          judge(RejectTrial(d, request), i) == RejectOutcome(request))
  }

  /** The record of a trial: its id, its outcome, and errors unless it passed. */
  ghost predicate Fits(r: CaseRecord, t: Trial, outcome: Outcome) {
    r.caseId == TrialId(t) && OutcomeOf(r.result) == outcome && (r.errors == [] <==> outcome == Pass)
  }

  /** The records are those of the trials, one for each, in order. */
  ghost predicate AllFit(records: seq<CaseRecord>, trials: seq<Trial>, judge: Judge) {
    |records| == |trials| && forall i :: 0 <= i < |records| ==> Fits(records[i], trials[i], judge(trials[i], i))
  }

  /** The objects of a run belong together, and its records are those of the trials done so far. */
  ghost predicate Reached(ctx: DeliveryContext, recorder: CaseRecorder, done: seq<Trial>, judge: Judge)
    reads ctx, ctx.log, ctx.log.logger, recorder, recorder.logger, recorder.summary
  {
    ctx.Ready() && recorder.logger == ctx.log.logger && recorder.Valid() && AllFit(recorder.logger.records, done, judge)
  }

  lemma OneMoreFits(records: seq<CaseRecord>, trials: seq<Trial>, judge: Judge, r: CaseRecord, t: Trial)
    requires AllFit(records, trials, judge) && Fits(r, t, judge(t, |trials|))
    ensures AllFit(records + [r], trials + [t], judge)
  {
  }

  method RecordTrial(ctx: DeliveryContext, recorder: CaseRecorder, evidence: CaseRecord, t: Trial, outcome: Outcome,
                     errors: seq<string>, ghost done: seq<Trial>, ghost judge: Judge)
    requires Reached(ctx, recorder, done, judge) && ValidRecord(evidence)
    requires outcome == judge(t, |done|) && (errors == [] <==> outcome == Pass)
    modifies recorder, recorder.logger, recorder.summary
    ensures Reached(ctx, recorder, done + [t], judge)
    ensures recorder.summary.setupFailureCode == old(recorder.summary.setupFailureCode)
  {
    var record := evidence.(caseId := TrialId(t), result := ResultName(outcome), errors := errors);
    ResultNames(outcome);
    OneMoreFits(recorder.logger.records, done, judge, record.(index := recorder.index + 1), t);
    assert (recorder as object) != ctx && (recorder.summary as object) != ctx && (recorder.logger as object) != ctx;
    var n := recorder.Record(record);
  }

  method FileResult(ctx: DeliveryContext, c: FileCase, out: Outside, i: nat, ghost judge: Judge)
    returns (result: Outcome, errors: seq<string>)
    requires ctx.Ready() && Judges(judge, out)
    modifies ctx, ctx.sink, ctx.state, ctx.log, ctx.log.logger
    ensures ctx.Ready() && ctx.log.logger.KeepsCases()
    ensures result == judge(FileTrial(c), i) && (errors == [] <==> result == Pass)
  {
    var codes;
    result, codes := RunCase(ctx, c, out.file(i));
    errors := CodeNames(codes);
  }

  method CudaResult(ctx: DeliveryContext, c: CudaCase, out: Outside, i: nat, ghost judge: Judge)
    returns (result: Outcome, errors: seq<string>)
    requires ctx.Ready() && Judges(judge, out)
    modifies ctx, ctx.sink, ctx.state, ctx.log, ctx.log.logger
    ensures ctx.Ready() && ctx.log.logger.KeepsCases()
    ensures result == judge(CudaTrial(c), i) && (errors == [] <==> result == Pass)
  {
    var codes;
    result, codes := RunCudaCase(ctx, c, out.cuda(i));
    errors := CodeNames(codes);
  }

  method RejectResult(d: Descriptor, request: Request, ghost out: Outside, i: nat, ghost judge: Judge)
    returns (result: Outcome, errors: seq<string>)
    requires Judges(judge, out)
    ensures result == judge(RejectTrial(d, request), i) && (errors == [] <==> result == Pass)
  {
    var decision := SelectOutputTransport(request);
    result, errors := Pass, [];
    if decision.ok {
      result, errors := Fail, ["unexpected_accept"];
    }
    assert result == RejectOutcome(request);
  }

  method RunFile(ctx: DeliveryContext, recorder: CaseRecorder, c: FileCase, out: Outside, ghost done: seq<Trial>,
                 ghost judge: Judge)
    requires Reached(ctx, recorder, done, judge) && ValidOutside(out) && Judges(judge, out)
    modifies ctx, ctx.sink, ctx.state, ctx.log, recorder, recorder.logger, recorder.summary
    ensures Reached(ctx, recorder, done + [FileTrial(c)], judge)
    ensures recorder.summary.setupFailureCode == old(recorder.summary.setupFailureCode)
  {
    var i := recorder.index;
    var result, errors := FileResult(ctx, c, out, i, judge);
    RecordTrial(ctx, recorder, out.evidence(i), FileTrial(c), result, errors, done, judge);
  }

  method RunCuda(ctx: DeliveryContext, recorder: CaseRecorder, c: CudaCase, out: Outside, ghost done: seq<Trial>,
                 ghost judge: Judge)
    requires Reached(ctx, recorder, done, judge) && ValidOutside(out) && Judges(judge, out)
    modifies ctx, ctx.sink, ctx.state, ctx.log, recorder, recorder.logger, recorder.summary
    ensures Reached(ctx, recorder, done + [CudaTrial(c)], judge)
    ensures recorder.summary.setupFailureCode == old(recorder.summary.setupFailureCode)
  {
    var i := recorder.index;
    var result, errors := CudaResult(ctx, c, out, i, judge);
    RecordTrial(ctx, recorder, out.evidence(i), CudaTrial(c), result, errors, done, judge);
  }

  method RunReject(ctx: DeliveryContext, recorder: CaseRecorder, d: Descriptor, topology: Topology, out: Outside,
                   ghost done: seq<Trial>, ghost judge: Judge)
    requires Reached(ctx, recorder, done, judge) && ValidOutside(out) && Judges(judge, out)
    modifies ctx.log, recorder, recorder.logger, recorder.summary
    ensures Reached(ctx, recorder, done + [RejectTrial(d, HardRequestFor(topology, d.contract, d.transport))], judge)
    ensures recorder.summary.setupFailureCode == old(recorder.summary.setupFailureCode)
  {
    var request := HardRequestFor(topology, d.contract, d.transport);
    var result, errors := RejectResult(d, request, out, recorder.index, judge);
    ctx.log.SetCase(d.id);
    RecordTrial(ctx, recorder, out.evidence(recorder.index), RejectTrial(d, request), result, errors, done, judge);
  }

  /** The eight images of one benchmarked case. */
  method RunBenchmarks(ctx: DeliveryContext, recorder: CaseRecorder, s: Setup, p: Part, d: Descriptor, out: Outside,
                       ghost done: seq<Trial>, ghost judge: Judge)
    requires Reached(ctx, recorder, done, judge) && ValidOutside(out) && Judges(judge, out)
    modifies ctx, ctx.sink, ctx.state, ctx.log, recorder, recorder.logger, recorder.summary
    ensures Reached(ctx, recorder, done + BenchmarksOf(s, p, d), judge)
    ensures recorder.summary.setupFailureCode == old(recorder.summary.setupFailureCode)
  {
    NothingAfter(done);
    if p.named && d.transport != "disk" {
      return;
    }
    if d.outputType != "image" || d.verdict != Deliver || p.skipReason != "" || !s.benchmarks {
      return;
    }
    for n: nat := 1 to IMAGES + 1
      invariant Reached(ctx, recorder, done + Benchmarks(s, p, d, n - 1), judge)
      invariant recorder.summary.setupFailureCode == old(recorder.summary.setupFailureCode)
    {
      ghost var before := Benchmarks(s, p, d, n - 1);
      NextBenchmark(s, p, d, n);
      Regroup(done, before, [BenchmarkTrial(s, p, d, n)]);
      RunBenchmark(ctx, recorder, s, p, d, n, out, done + before, judge);
    }
  }

  lemma NextBenchmark(s: Setup, p: Part, d: Descriptor, n: nat)
    requires 0 < n < 10
    ensures Benchmarks(s, p, d, n) == Benchmarks(s, p, d, n - 1) + [BenchmarkTrial(s, p, d, n)]
  {
  }

  method RunBenchmark(ctx: DeliveryContext, recorder: CaseRecorder, s: Setup, p: Part, d: Descriptor, n: nat,
                      out: Outside, ghost done: seq<Trial>, ghost judge: Judge)
    requires n < 10 && Reached(ctx, recorder, done, judge) && ValidOutside(out) && Judges(judge, out)
    modifies ctx, ctx.sink, ctx.state, ctx.log, recorder, recorder.logger, recorder.summary
    ensures Reached(ctx, recorder, done + [BenchmarkTrial(s, p, d, n)], judge)
    ensures recorder.summary.setupFailureCode == old(recorder.summary.setupFailureCode)
  {
    var id := BenchmarkId(p, d.transport, n);
    if d.transport == "cuda" {
      RunCuda(ctx, recorder, CudaCaseOf(s, id, n), out, done, judge);
    } else {
      var contract := d.contract.(fixtureFile := FixtureFile(n));
      RunFile(ctx, recorder, FileCaseOf(s, p.named, id, contract, d.transport, true), out, done, judge);
    }
  }

  method RunDescriptor(ctx: DeliveryContext, recorder: CaseRecorder, s: Setup, p: Part, d: Descriptor, out: Outside,
                       ghost done: seq<Trial>, ghost judge: Judge)
    requires Reached(ctx, recorder, done, judge) && ValidOutside(out) && Judges(judge, out)
    modifies ctx, ctx.sink, ctx.state, ctx.log, recorder, recorder.logger, recorder.summary
    ensures Reached(ctx, recorder, done + TrialsOf(s, p, d), judge)
    ensures recorder.summary.setupFailureCode == old(recorder.summary.setupFailureCode)
  {
    NothingAfter(done);
    if p.named && d.transport != "disk" {
      return;
    }
    if p.skipReason != "" {
      RecordTrial(ctx, recorder, out.evidence(recorder.index), SkipTrial(d, p.skipReason), Skip, [p.skipReason], done,
                  judge);
    } else if d.verdict != Deliver {
      RunReject(ctx, recorder, d, p.topology, out, done, judge);
    } else if d.transport == "cuda" {
      RunCuda(ctx, recorder, CudaCaseOf(s, d.id, 0), out, done, judge);
    } else {
      RunFile(ctx, recorder, FileCaseOf(s, p.named, d.id, d.contract, d.transport, false), out, done, judge);
    }
  }

  method RunTopologyCases(ctx: DeliveryContext, recorder: CaseRecorder, s: Setup, p: Part, out: Outside,
                          ghost done: seq<Trial>, ghost judge: Judge)
    requires Reached(ctx, recorder, done, judge) && ValidOutside(out) && Judges(judge, out)
    modifies ctx, ctx.sink, ctx.state, ctx.log, recorder, recorder.logger, recorder.summary
    ensures Reached(ctx, recorder, done + PartTrials(s, p), judge)
    ensures recorder.summary.setupFailureCode == old(recorder.summary.setupFailureCode)
  {
    var cases := GenerateDeliveryCases(p.topology);
    RunAllBenchmarks(ctx, recorder, s, p, cases, out, done, judge);
    ghost var measured := AllBenchmarks(s, p, cases);
    Regroup(done, measured, AllTrials(s, p, cases));
    NothingAfter(done + measured);
    for i := 0 to |cases|
      invariant Reached(ctx, recorder, done + measured + AllTrials(s, p, cases[..i]), judge)
      invariant recorder.summary.setupFailureCode == old(recorder.summary.setupFailureCode)
    {
      NextCase(s, p, cases, i);
      Regroup(done + measured, AllTrials(s, p, cases[..i]), TrialsOf(s, p, cases[i]));
      RunDescriptor(ctx, recorder, s, p, cases[i], out, done + measured + AllTrials(s, p, cases[..i]), judge);
    }
    TakeAll(cases);
  }

  method RunAllBenchmarks(ctx: DeliveryContext, recorder: CaseRecorder, s: Setup, p: Part, cases: seq<Descriptor>,
                          out: Outside, ghost done: seq<Trial>, ghost judge: Judge)
    requires Reached(ctx, recorder, done, judge) && ValidOutside(out) && Judges(judge, out)
    modifies ctx, ctx.sink, ctx.state, ctx.log, recorder, recorder.logger, recorder.summary
    ensures Reached(ctx, recorder, done + AllBenchmarks(s, p, cases), judge)
    ensures recorder.summary.setupFailureCode == old(recorder.summary.setupFailureCode)
  {
    NothingAfter(done);
    for i := 0 to |cases|
      invariant Reached(ctx, recorder, done + AllBenchmarks(s, p, cases[..i]), judge)
      invariant recorder.summary.setupFailureCode == old(recorder.summary.setupFailureCode)
    {
      NextCase(s, p, cases, i);
      Regroup(done, AllBenchmarks(s, p, cases[..i]), BenchmarksOf(s, p, cases[i]));
      RunBenchmarks(ctx, recorder, s, p, cases[i], out, done + AllBenchmarks(s, p, cases[..i]), judge);
    }
    TakeAll(cases);
  }

  lemma NextCase(s: Setup, p: Part, cases: seq<Descriptor>, i: nat)
    requires i < |cases|
    ensures AllBenchmarks(s, p, cases[..i + 1]) == AllBenchmarks(s, p, cases[..i]) + BenchmarksOf(s, p, cases[i])
    ensures AllTrials(s, p, cases[..i + 1]) == AllTrials(s, p, cases[..i]) + TrialsOf(s, p, cases[i])
  {
    assert cases[..i + 1][..i] == cases[..i];
  }

  /** A whole delivery phase: one record for each of its trials, and a good summary exactly when the setup succeeded
      and every trial is good. */
  method RunDeliveryCases(ctx: DeliveryContext, recorder: CaseRecorder, s: Setup, out: Outside, ghost judge: Judge)
    requires Reached(ctx, recorder, [], judge) && ValidOutside(out) && Judges(judge, out)
    modifies ctx, ctx.sink, ctx.state, ctx.log, recorder, recorder.logger, recorder.summary
    ensures Reached(ctx, recorder, Trials(s), judge)
    ensures recorder.summary.setupFailureCode == old(recorder.summary.setupFailureCode)
    ensures recorder.summary.Ok() <==>
            recorder.summary.setupFailureCode == "" &&
            forall i :: 0 <= i < |Trials(s)| ==> judge(Trials(s)[i], i) in {Pass, Skip}
  {
    if s.local {
      var probeOk := s.shmReachable && "shm" in ServerTransports(s);
      RecordTrial(ctx, recorder, out.evidence(recorder.index), ProbeTrial(probeOk), if probeOk then Pass else Fail,
                  if probeOk then [] else ["shm_not_advertised"], [], judge);
      NoGap([ProbeTrial(probeOk)]);
      RunTopologyCases(ctx, recorder, s, LocalPart(s), out, [ProbeTrial(probeOk)], judge);
    } else {
      RunTopologyCases(ctx, recorder, s, HttpPart(s), out, [], judge);
      NoGap(PartTrials(s, HttpPart(s)));
      RunTopologyCases(ctx, recorder, s, RoutePart(s), out, PartTrials(s, HttpPart(s)), judge);
    }
    SummaryTells(ctx, recorder, Trials(s), judge);
  }

  lemma SummaryTells(ctx: DeliveryContext, recorder: CaseRecorder, trials: seq<Trial>, judge: Judge)
    requires Reached(ctx, recorder, trials, judge)
    ensures recorder.summary.Ok() <==>
            recorder.summary.setupFailureCode == "" &&
            forall i :: 0 <= i < |trials| ==> judge(trials[i], i) in {Pass, Skip}
  {
    recorder.Totals();
    var records := recorder.logger.records;
    assert forall i :: 0 <= i < |trials| ==> Fits(records[i], trials[i], judge(trials[i], i));
  }

  ghost function JudgeOf(out: Outside): Judge {
    (t: Trial, i: nat) => TrialOutcome(t, out, i)
  }

  lemma JudgedRightly(out: Outside)
    ensures Judges(JudgeOf(out), out)
  {
    var judge := JudgeOf(out);
    assert JudgesCases(judge, out);
    assert JudgesOthers(judge);
  }

  lemma GoodJudged(s: Setup, out: Outside)
    ensures AllGood(s, out) <==> forall i :: 0 <= i < |Trials(s)| ==> JudgeOf(out)(Trials(s)[i], i) in {Pass, Skip}
  {
    forall i | 0 <= i < |Trials(s)|
      ensures JudgeOf(out)(Trials(s)[i], i) in {Pass, Skip} <==> Good(Trials(s)[i], out, i)
    {
      GoodMeans(Trials(s)[i], out, i);
    }
  }

  method NewPhase(s: Setup, ghost judge: Judge) returns (ctx: DeliveryContext, recorder: CaseRecorder)
    ensures fresh(ctx) && fresh(ctx.sink) && fresh(ctx.state) && fresh(ctx.log)
    ensures fresh(recorder) && fresh(recorder.logger) && fresh(recorder.summary)
    ensures Reached(ctx, recorder, [], judge) && recorder.summary.setupFailureCode == ""
  {
    var logger := new CaseLogger();
    var summary := new MatrixSummary();
    recorder := new CaseRecorder(logger, summary);
    var facade := new FacadeLog(logger, if s.local then "delivery_local" else "delivery_remote");
    var state := new DeliveryRunState();
    var sink := new DeliveryEventSink(state, facade);
    ctx := new DeliveryContext(sink);
  }

  /** A phase after a successful setup, from its fresh objects to its summary. */
  method RunPhase(s: Setup, out: Outside) returns (recorder: CaseRecorder)
    requires ValidOutside(out)
    ensures recorder.Valid() && AllFit(recorder.logger.records, Trials(s), JudgeOf(out))
    ensures recorder.summary.Ok() <==> AllGood(s, out)
  {
    ghost var judge := JudgeOf(out);
    var ctx;
    ctx, recorder := NewPhase(s, judge);
    JudgedRightly(out);
    RunDeliveryCases(ctx, recorder, s, out, judge);
    GoodJudged(s, out);
  }

  ghost predicate AllGood(s: Setup, out: Outside) {
    forall i :: 0 <= i < |Trials(s)| ==> Good(Trials(s)[i], out, i)
  }

  // ----- what a good phase means -----

  lemma CanonicalSetup(s: Setup)
    ensures Canonical(ServerTransports(s)) && Canonical(["http"]) && Canonical(["disk", "http"])
    ensures Canonical(ClientReachable(s, false))
  {
    CommonMembers(TRANSPORTS, s.advertised);
    assert forall i :: 0 <= i < |ServerTransports(s)| ==> ServerTransports(s)[i] in ServerTransports(s);
    assert TRANSPORTS[0] == "cuda" && TRANSPORTS[1] == "disk" && TRANSPORTS[2] == "http" && TRANSPORTS[3] == "shm";
  }

  predicate CanonicalPart(p: Part) {
    Canonical(p.topology.serverAvailable) && Canonical(p.topology.clientReachable)
  }

  lemma {:induction false} BenchmarksDeliver(s: Setup, p: Part, d: Descriptor, n: nat, t: Trial)
    requires n < 10 && t in Benchmarks(s, p, d, n)
    ensures t.FileTrial? || t.CudaTrial?
  {
    if n > 0 && t in Benchmarks(s, p, d, n - 1) {
      BenchmarksDeliver(s, p, d, n - 1, t);
    }
  }

  lemma {:induction false} AllBenchmarksDeliver(s: Setup, p: Part, cases: seq<Descriptor>, t: Trial)
    requires t in AllBenchmarks(s, p, cases)
    ensures t.FileTrial? || t.CudaTrial?
  {
    var front, last := cases[..|cases| - 1], cases[|cases| - 1];
    if t in AllBenchmarks(s, p, front) {
      AllBenchmarksDeliver(s, p, front, t);
    } else {
      BenchmarksDeliver(s, p, last, IMAGES, t);
    }
  }

  lemma {:induction false} TrialsFromCases(s: Setup, p: Part, cases: seq<Descriptor>, t: Trial)
    ensures t in AllTrials(s, p, cases) <==> exists d :: d in cases && t in TrialsOf(s, p, d)
  {
    if cases != [] {
      var front, last := cases[..|cases| - 1], cases[|cases| - 1];
      TrialsFromCases(s, p, front, t);
      assert forall d :: d in cases <==> d in front || d == last;
    }
  }

  /** A part's trials are no probes, and its rejection cases are refused by the negotiation. */
  lemma PartTrial(s: Setup, p: Part, t: Trial)
    requires CanonicalPart(p) && t in PartTrials(s, p)
    ensures !t.ProbeTrial? && (t.RejectTrial? ==> !Select(t.request).ok)
  {
    var cases := Cases(p.topology);
    if t in AllBenchmarks(s, p, cases) {
      AllBenchmarksDeliver(s, p, cases, t);
    } else {
      TrialsFromCases(s, p, cases, t);
      var d :| d in cases && t in TrialsOf(s, p, d);
      GeneratedVerdicts(p.topology, d);
    }
  }

  /** The probe comes first in the local phase, and every rejection case is refused. */
  lemma EachTrial(s: Setup, i: nat)
    requires i < |Trials(s)|
    ensures Trials(s)[i].ProbeTrial? <==> s.local && i == 0
    ensures Trials(s)[i].RejectTrial? ==> !Select(Trials(s)[i].request).ok
  {
    CanonicalSetup(s);
    var t := Trials(s)[i];
    if s.local && i > 0 {
      assert t == PartTrials(s, LocalPart(s))[i - 1];
      PartTrial(s, LocalPart(s), t);
    } else if !s.local && t in PartTrials(s, HttpPart(s)) {
      PartTrial(s, HttpPart(s), t);
    } else if !s.local {
      PartTrial(s, RoutePart(s), t);
    }
  }

  /** The phase is good exactly when shared memory can be reached and is advertised, if the phase is local, every file
      case passes, and every CUDA case passes or is skipped for its reasons: the rejection cases never fail. */
  lemma GoodExactly(s: Setup, out: Outside)
    ensures AllGood(s, out) <==>
            && (s.local ==> s.shmReachable && "shm" in ServerTransports(s))
            && forall i :: 0 <= i < |Trials(s)| ==>
                 match Trials(s)[i]
                 case FileTrial(c) => Passes(c, out.file(i))
                 case CudaTrial(c) => CudaPasses(c, out.cuda(i)) || CudaSkips(c, out.cuda(i))
                 case _ => true
  {
    forall i | 0 <= i < |Trials(s)|
      ensures Trials(s)[i].ProbeTrial? <==> s.local && i == 0
      ensures Trials(s)[i].RejectTrial? ==> Good(Trials(s)[i], out, i)
    {
      EachTrial(s, i);
    }
    assert s.local ==> Trials(s)[0] == ProbeTrial(s.shmReachable && "shm" in ServerTransports(s));
  }

  /** The parts of the phase. */
  predicate IsPart(s: Setup, p: Part) {
    if s.local then p == LocalPart(s) else p == HttpPart(s) || p == RoutePart(s)
  }

  /** Every delivery that the type, the server and the client offer is tried, unless its part is skipped or runs over
      named routes, which carry files on disk only. */
  lemma EveryDeliveryRuns(s: Setup, p: Part, contract: Contract, transport: string)
    requires IsPart(s, p) && p.skipReason == "" && (p.named ==> transport == "disk")
    requires contract in DELIVERY_TYPES && transport in TypeAllowedTransports(contract)
    requires transport in p.topology.serverAvailable && transport in p.topology.clientReachable
    ensures var d := Describe(p.topology, contract, transport);
            CaseTrial(s, p, d) in Trials(s) &&
            CaseTrial(s, p, d) == if transport == "cuda" then CudaTrial(CudaCaseOf(s, d.id, 0))
                                  else FileTrial(FileCaseOf(s, p.named, d.id, contract, transport, false))
  {
    var d := Describe(p.topology, contract, transport);
    AllowedNames(contract);
    EveryTripleCovered(p.topology, contract, transport);
    TrialsFromCases(s, p, Cases(p.topology), CaseTrial(s, p, d));
    assert CaseTrial(s, p, d) in TrialsOf(s, p, d);
    assert CaseTrial(s, p, d) in PartTrials(s, p);
  }
}
