/** A whole delivery case over disk, shared memory or HTTP: negotiation, waiting, retrieval and verdict (matrix.cpp). */
module FileDelivery {
  import opened ByteStrings
  import opened Wrappers
  import opened ServiceText
  import opened Transports
  import opened DeliveryCases
  import opened DeliveryRun
  import opened CaseOutcome
  import opened CaseVerdicts
  import opened Verifiers
  import opened Sha256Spec
  import opened Sha256Impl

  datatype FileCase = FileCase(
    caseId: string,
    contract: Contract,
    serverAvailable: seq<string>,
    clientReachable: seq<string>,
    transport: string,
    useNamedRouteDisk: bool,
    namedRouteId: string,
    clientRoot: string,
    benchmark: bool)

  /** What the server answers to a submission. */
  datatype Job = Job(queued: bool, promptId: string)

  /** What the case meets outside: the fixture, the submission, the frames, files by path, and what fetching an
      output returns; each retrieval may answer differently the second time. */
  datatype World = World(
    source: Option<Bytes>,
    job: Option<Job>,
    batches: seq<seq<Frame>>,
    file: string -> Option<Bytes>,
    fetch: Output -> Option<Bytes>,
    fileAgain: string -> Option<Bytes>,
    fetchAgain: Output -> Option<Bytes>,
    released: bool)

  /** A PNG of 3840 by 2160 pixels begins like this. */
  const PNG_4K_HEADER: Bytes := [
    137, 80, 78, 71, 13, 10, 26, 10, 0, 0, 0, 13, 73, 72, 68, 82, 0, 0, 15, 0, 0, 0, 8, 112]

  const NO_OUTPUT := Output("", "", "", "", DiskArtifact("", "", ""), "")

  function SafeChar(c: char): char {
    if 'A' <= c <= 'Z' || 'a' <= c <= 'z' || '0' <= c <= '9' || c == '_' || c == '-' then c else '-'
  }

  function SafeConsumerId(caseId: string): string {
    seq(|caseId|, i requires 0 <= i < |caseId| => SafeChar(caseId[i]))
  }

  function RequestOf(c: FileCase): Request {
    Request(TypeAllowedTransports(c.contract), c.serverAvailable, c.clientReachable, [], c.transport)
  }

  function InlineInput(c: FileCase): bool {
    c.contract.outputType == "load3d_camera"
  }

  /** Only one kind of input has no fixture to read. */
  predicate SourceRead(c: FileCase, w: World) {
    InlineInput(c) || w.source.Some?
  }

  function SourceBytes(c: FileCase, w: World): Bytes {
    if !InlineInput(c) && w.source.Some? then w.source.value else []
  }

  /** The case waits for its delivery. */
  predicate Waits(c: FileCase, w: World) {
    SourceRead(c, w) && Select(RequestOf(c)).ok && w.job.Some? && w.job.value.queued
  }

  function KeysOf(c: FileCase, w: World): Keys
    requires w.job.Some?
  {
    Keys(w.job.value.promptId, SafeConsumerId(c.caseId), c.transport)
  }

  /** The frames that the case consumes. */
  function Consumed(c: FileCase, w: World): seq<Frame>
    requires w.job.Some?
  {
    Concat(w.batches[..StopAfter(KeysOf(c, w), c.transport, NOTHING, w.batches, 0)])
  }

  function Seen(c: FileCase, w: World): Observed {
    if Waits(c, w) then AfterFrames(KeysOf(c, w), NOTHING, Consumed(c, w)) else NOTHING
  }

  // ----- retrieving the artifact -----

  /** Where an announced artifact on disk is read, if its route is accepted. */
  function ArtifactPath(c: FileCase, disk: DiskArtifact): Option<string> {
    if !c.useNamedRouteDisk then Some(disk.path)
    else if disk.namedRouteId == c.namedRouteId && SafePath(disk.relativePath) then
      Some(JoinPath(c.clientRoot, disk.relativePath))
    else None
  }

  function Retrieved(c: FileCase, o: Output, file: string -> Option<Bytes>,
                     fetch: Output -> Option<Bytes>): Option<Bytes> {
    if c.transport == "disk" then
      if ArtifactPath(c, o.disk).Some? then file(ArtifactPath(c, o.disk).value) else None
    else if c.transport == "shm" || c.transport == "http" then fetch(o)
    else None
  }

  function OutputOf(o: Observed): Output {
    if o.output.Some? then o.output.value else NO_OUTPUT
  }

  function ChannelOf(transport: string): Channel {
    if transport == "disk" then Disk else if transport == "shm" then Shm else if transport == "http" then Http else Cuda
  }

  function BytesOf(bytes: Option<Bytes>): Bytes {
    if bytes.Some? then bytes.value else []
  }

  /** What the verdict depends on. */
  function FactsOf(c: FileCase, w: World, o: Observed, verified: Verified): FileFacts {
    var output := OutputOf(o);
    var first := if o.outputReady then Retrieved(c, output, w.file, w.fetch) else None;
    var again := Retrieved(c, output, w.fileAgain, w.fetchAgain);
    FileFacts(
      InlineInput(c),
      w.source.Some?,
      Select(RequestOf(c)).ok,
      w.job.Some?,
      w.job.Some? && w.job.value.queued,
      o.terminalSuccess,
      o.terminalType != "",
      o.outputReady,
      ChannelOf(c.transport),
      c.useNamedRouteDisk,
      output.disk.namedRouteId == c.namedRouteId,
      SafePath(output.disk.relativePath),
      output.disk.path == "",
      output.consumerId == SafeConsumerId(c.caseId),
      first.Some?,
      c.benchmark,
      again.Some?,
      BytesOf(again) == BytesOf(first),
      w.released,
      verified,
      PNG_4K_HEADER <= BytesOf(first))
  }

  ghost function Facts(c: FileCase, w: World): FileFacts {
    var o := Seen(c, w);
    var first := if o.outputReady then Retrieved(c, OutputOf(o), w.file, w.fetch) else None;
    FactsOf(c, w, o, VerifiedAs(c.contract.verify, SourceBytes(c, w), BytesOf(first)))
  }

  // ----- the case -----

  method Retrieve(c: FileCase, o: Output, file: string -> Option<Bytes>, fetch: Output -> Option<Bytes>)
    returns (bytes: Option<Bytes>)
    ensures bytes == Retrieved(c, o, file, fetch)
  {
    bytes := None;
    if c.transport == "disk" {
      if c.useNamedRouteDisk {
        if o.disk.namedRouteId == c.namedRouteId {
          var safe := IsSafeRelativePath(o.disk.relativePath);
          if safe {
            bytes := file(JoinPath(c.clientRoot, o.disk.relativePath));
          }
        }
      } else {
        bytes := file(o.disk.path);
      }
    } else if c.transport == "shm" || c.transport == "http" {
      bytes := fetch(o);
    }
  }

  /** Submits the workflow and waits for the events of its prompt. */
  method SubmitAndWait(ctx: DeliveryContext, c: FileCase, w: World)
    requires ctx.Ready() && ctx.state.Seen() == NOTHING && w.job.Some?
    modifies ctx, ctx.sink, ctx.state, ctx.log`lines, ctx.log`entries, ctx.log.logger
    ensures ctx.Ready() && ctx.log.logger.KeepsCases()
    ensures ctx.state.Seen() ==
            if w.job.value.queued then AfterFrames(KeysOf(c, w), NOTHING, Consumed(c, w)) else NOTHING
  {
    var consumerId := SafeConsumerId(c.caseId);
    ctx.sink.Configure("", consumerId, c.transport);
    ctx.state.queued := w.job.value.queued;
    ctx.state.promptId := w.job.value.promptId;
    ctx.sink.Configure(ctx.state.promptId, consumerId, c.transport);
    if ctx.state.queued {
      var consumed := ctx.WaitForDelivery(c.transport, w.batches);
    }
  }

  /** The verdict on a case and what it reports. */
  method RunCase(ctx: DeliveryContext, c: FileCase, w: World) returns (result: Outcome, errors: seq<Code>)
    requires ctx.Ready()
    modifies ctx, ctx.sink, ctx.state, ctx.log, ctx.log.logger
    ensures ctx.Ready() && ctx.log.logger.KeepsCases()
    ensures result == FileOutcome(c, w)
    ensures result == Pass <==> errors == []
    ensures SourceRead(c, w) && Select(RequestOf(c)).ok && w.job.Some? ==> errors == FileErrors(Facts(c, w))
  {
    ctx.log.SetCase(c.caseId);
    ctx.state.Reset();
    var decision := SelectOutputTransport(RequestOf(c));
    if SourceRead(c, w) && decision.ok && w.job.Some? {
      SubmitAndWait(ctx, c, w);
    }
    result, errors := Judge(c, w, ctx.state.Seen());
  }

  method Judge(c: FileCase, w: World, o: Observed) returns (result: Outcome, errors: seq<Code>)
    requires o == Seen(c, w)
    ensures result == FileOutcome(c, w)
    ensures result == Pass <==> errors == []
    ensures SourceRead(c, w) && Select(RequestOf(c)).ok && w.job.Some? ==> errors == FileErrors(Facts(c, w))
  {
    var facts := Observe(c, w, o);
    PassesExactly(c, w);
    result, errors := RunFilePathDeliveryCase(facts);
  }

  /** Retrieves and verifies what the wait has seen announced. */
  method Observe(c: FileCase, w: World, o: Observed) returns (facts: FileFacts)
    requires o == Seen(c, w)
    ensures facts == Facts(c, w) && VerifierContract(facts.verified)
  {
    var first := None;
    if o.outputReady {
      first := Retrieve(c, OutputOf(o), w.file, w.fetch);
    }
    var verified := RunVerifier(c.contract.verify, SourceBytes(c, w), BytesOf(first));
    facts := FactsOf(c, w, o, verified);
  }

  // ----- what a passing case shows -----

  /** The transports of a case that retrieves an artifact. */
  predicate CarriesArtifacts(transport: string) {
    transport == "disk" || transport == "shm" || transport == "http"
  }

  /** All that has to be true of a case and what it meets. */
  ghost predicate Passes(c: FileCase, w: World) {
    && SourceRead(c, w)
    && CarriesArtifacts(c.transport)
    && Offered(RequestOf(c), c.transport)
    && w.job.Some? && w.job.value.queued
    && Succeeded(c, w)
    && var output := LastOutput(KeysOf(c, w), AllOutputs(Consumed(c, w)));
    && output.Some? && Delivers(c, w, output.value)
  }

  /** The last terminal event of the case's prompt is a success. */
  ghost predicate Succeeded(c: FileCase, w: World)
    requires w.job.Some?
  {
    var terminal := LastTerminal(KeysOf(c, w), Consumed(c, w));
    terminal.Some? && terminal.value.terminalStatus == "success"
  }

  /** The announced output belongs to the case, and its artifact can be had and is accepted. */
  ghost predicate Delivers(c: FileCase, w: World, o: Output) {
    var bytes := Retrieved(c, o, w.file, w.fetch);
    && o.consumerId == SafeConsumerId(c.caseId)
    && (c.transport == "disk" && c.useNamedRouteDisk ==> o.disk.path == "")
    && bytes.Some? && Accepts(c.contract.verify, SourceBytes(c, w), bytes.value)
    && (c.transport == "shm" ==> w.released)
    && (c.benchmark ==> PNG_4K_HEADER <= bytes.value && Retrieved(c, o, w.fileAgain, w.fetchAgain) == bytes)
  }

  /** A case passes, or is an error of the harness when it could not be tried, and fails otherwise. */
  ghost function FileOutcome(c: FileCase, w: World): Outcome {
    if Passes(c, w) then Pass
    else if !SourceRead(c, w) || (Select(RequestOf(c)).ok && w.job.None?) then Error
    else Fail
  }

  lemma Honoured(c: FileCase)
    requires CarriesArtifacts(c.transport)
    ensures Select(RequestOf(c)).ok <==> Offered(RequestOf(c), c.transport)
  {
    HardRequest(RequestOf(c));
    LowerIsLowered(c.transport);
  }

  lemma ChannelMeans(transport: string)
    ensures ChannelOf(transport).Disk? <==> transport == "disk"
    ensures ChannelOf(transport).Shm? <==> transport == "shm"
    ensures ChannelOf(transport).Cuda? <==> !CarriesArtifacts(transport)
  {
  }

  lemma ReadMeans(c: FileCase, w: World)
    requires Seen(c, w).outputReady
    ensures var bytes := Retrieved(c, OutputOf(Seen(c, w)), w.file, w.fetch);
            Read(Facts(c, w)) <==> bytes.Some? && (c.transport == "shm" ==> w.released)
  {
    ChannelMeans(c.transport);
  }

  lemma HandoffMeans(c: FileCase, w: World)
    requires Seen(c, w).outputReady && Retrieved(c, OutputOf(Seen(c, w)), w.file, w.fetch).Some?
    ensures HandoffOk(Facts(c, w)) <==>
            (c.transport == "disk" && c.useNamedRouteDisk ==> OutputOf(Seen(c, w)).disk.path == "")
  {
    ChannelMeans(c.transport);
  }

  lemma RepeatMeans(c: FileCase, w: World)
    requires Seen(c, w).outputReady && Read(Facts(c, w))
    ensures var o := OutputOf(Seen(c, w));
            RepeatOk(Facts(c, w)) <==>
            (c.benchmark ==> Retrieved(c, o, w.fileAgain, w.fetchAgain) == Retrieved(c, o, w.file, w.fetch))
  {
  }

  lemma DeliveredMeans(c: FileCase, w: World)
    requires Waits(c, w)
    ensures Delivered(Facts(c, w)) <==>
            && CarriesArtifacts(c.transport)
            && Seen(c, w).terminalSuccess && Seen(c, w).outputReady && Delivers(c, w, OutputOf(Seen(c, w)))
  {
    if Seen(c, w).outputReady {
      ReadMeans(c, w);
      if Retrieved(c, OutputOf(Seen(c, w)), w.file, w.fetch).Some? {
        HandoffMeans(c, w);
        if Read(Facts(c, w)) {
          RepeatMeans(c, w);
        }
      }
    }
  }

  lemma PassesExactly(c: FileCase, w: World)
    ensures Delivered(Facts(c, w)) <==> Passes(c, w)
  {
    if Waits(c, w) {
      DeliveredMeans(c, w);
      SeenMeans(c, w);
    }
    if CarriesArtifacts(c.transport) {
      Honoured(c);
    }
  }

  lemma SeenMeans(c: FileCase, w: World)
    requires Waits(c, w)
    ensures Seen(c, w).terminalSuccess <==> Succeeded(c, w)
    ensures Seen(c, w).output == LastOutput(KeysOf(c, w), AllOutputs(Consumed(c, w)))
    ensures Seen(c, w).outputReady <==> Seen(c, w).output.Some?
  {
    FinalState(KeysOf(c, w), Consumed(c, w));
  }

  /** The output names the case's consumer, its transport, and no other prompt. */
  predicate Announced(c: FileCase, w: World, o: Output)
    requires w.job.Some?
  {
    && o.transport == c.transport && o.consumerId == SafeConsumerId(c.caseId)
    && (o.promptId == "" || o.promptId == w.job.value.promptId)
  }

  /** A passing case was promised its transport by all three sides; its prompt's last terminal event came for that
      very prompt; the output it read was announced for it over that transport; over a named route the artifact lies
      below the client's root; and byte-exact content is the fixture's, unless it exhibits a collision. */
  lemma PassMeans(c: FileCase, w: World)
    requires Passes(c, w)
    ensures Offered(RequestOf(c), c.transport)
    ensures w.job.value.promptId != ""
    ensures exists o :: o in AllOutputs(Consumed(c, w)) && Announced(c, w, o) && Delivers(c, w, o)
    ensures c.transport == "disk" && c.useNamedRouteDisk ==>
              exists path, bytes :: w.file(path) == Some(bytes) &&
                Accepts(c.contract.verify, SourceBytes(c, w), bytes) &&
                Walk([], Segments(c.clientRoot)) <= Walk([], Segments(path))
    ensures c.contract.verify.ByteExact? ==>
              exists o :: o in AllOutputs(Consumed(c, w)) &&
                  BytesArrive(SourceBytes(c, w), Retrieved(c, o, w.file, w.fetch))
  {
    var keys, frames := KeysOf(c, w), Consumed(c, w);
    var o := LastOutput(keys, AllOutputs(frames)).value;
    LastOutputIsMatch(keys, AllOutputs(frames));
    TerminalIsMatch(keys, frames);
    var bytes := Retrieved(c, o, w.file, w.fetch).value;
    if c.transport == "disk" && c.useNamedRouteDisk {
      SafePathStaysBelow(c.clientRoot, o.disk.relativePath);
      assert w.file(JoinPath(c.clientRoot, o.disk.relativePath)) == Some(bytes);
    }
    if c.contract.verify.ByteExact? {
      var source := SourceBytes(c, w);
      if |source| < 0x2000_0000_0000_0000 && |bytes| < 0x2000_0000_0000_0000 {
        ByteExactMeans(source, bytes);
      }
      assert BytesArrive(source, Retrieved(c, o, w.file, w.fetch));
    }
  }

  /** Where the bytes of an output come from: over disk the file at the announced path, or at the announced relative
      path below the client's root; over shared memory and HTTP what fetching the output returned, over shared memory
      with its release. */
  ghost predicate ComeFrom(c: FileCase, w: World, o: Output, bytes: Bytes) {
    if c.transport == "disk" then
      if c.useNamedRouteDisk then
        && w.file(JoinPath(c.clientRoot, o.disk.relativePath)) == Some(bytes)
        && o.disk.namedRouteId == c.namedRouteId && SafePath(o.disk.relativePath) && o.disk.path == ""
      else w.file(o.disk.path) == Some(bytes)
    else w.fetch(o) == Some(bytes) && (c.transport == "shm" ==> w.released)
  }

  lemma DeliveredFrom(c: FileCase, w: World, o: Output)
    requires Delivers(c, w, o)
    ensures ComeFrom(c, w, o, Retrieved(c, o, w.file, w.fetch).value)
  {
  }

  /** A passing case accepted the bytes of an announced output, from where that output says. */
  lemma PassReads(c: FileCase, w: World)
    requires Passes(c, w)
    ensures exists o, bytes :: o in AllOutputs(Consumed(c, w)) && ComeFrom(c, w, o, bytes) &&
              Accepts(c.contract.verify, SourceBytes(c, w), bytes)
  {
    var o := LastOutput(KeysOf(c, w), AllOutputs(Consumed(c, w))).value;
    LastOutputIsMatch(KeysOf(c, w), AllOutputs(Consumed(c, w)));
    DeliveredFrom(c, w, o);
  }

  /** Only over shared memory does the outcome depend on the release. */
  lemma ReleaseMatters(c: FileCase, w: World)
    ensures c.transport == "shm" && !w.released ==> FileOutcome(c, w) != Pass
    ensures c.transport != "shm" ==> FileOutcome(c, w) == FileOutcome(c, w.(released := !w.released))
  {
    var v := w.(released := !w.released);
    if w.job.Some? && c.transport != "shm" {
      assert KeysOf(c, w) == KeysOf(c, v) && Consumed(c, w) == Consumed(c, v);
      var output := LastOutput(KeysOf(c, w), AllOutputs(Consumed(c, w)));
      assert output.Some? ==> (Delivers(c, w, output.value) <==> Delivers(c, v, output.value));
    }
  }

  /** The source's bytes arrived, or a collision of the compression function did. */
  ghost predicate BytesArrive(source: Bytes, arrived: Option<Bytes>) {
    && arrived.Some?
    && (|source| < 0x2000_0000_0000_0000 && |arrived.value| < 0x2000_0000_0000_0000 ==>
          arrived.value == source || exists i, j :: CollidesAt(Compress, Pad(source), i, Pad(arrived.value), j))
  }

  lemma {:induction false} LastOutputIsMatch(keys: Keys, outputs: seq<Output>)
    ensures LastOutput(keys, outputs).Some? ==>
              LastOutput(keys, outputs).value in outputs && OutputMatches(keys, LastOutput(keys, outputs).value)
  {
    if outputs != [] {
      LastOutputIsMatch(keys, outputs[..|outputs| - 1]);
    }
  }

  lemma {:induction false} TerminalIsMatch(keys: Keys, frames: seq<Frame>)
    ensures LastTerminal(keys, frames).Some? ==> TerminalMatches(keys, LastTerminal(keys, frames).value)
  {
    if frames != [] {
      TerminalIsMatch(keys, frames[..|frames| - 1]);
    }
  }

  // ----- a delivery that arrives -----

  /** A case whose prompt only succeeds and whose matching outputs can all be delivered passes, in whatever order
      and batches they arrive, however often, and among any other frames. */
  lemma ArrivalPasses(c: FileCase, w: World)
    requires Waits(c, w) && CarriesArtifacts(c.transport)
    requires OnlySucceeds(KeysOf(c, w), Concat(w.batches))
    requires exists o :: o in AllOutputs(Concat(w.batches)) && OutputMatches(KeysOf(c, w), o)
    requires forall o :: o in AllOutputs(Concat(w.batches)) && OutputMatches(KeysOf(c, w), o) ==> Delivers(c, w, o)
    ensures Passes(c, w)
  {
    var keys, all := KeysOf(c, w), AllOutputs(Concat(w.batches));
    NotCuda(c.transport);
    LastOutputFound(keys, all);
    assert exists i :: 0 <= i < |all| && OutputMatches(keys, all[i]);
    BothAwaited(keys, c.transport, w.batches);
    LastTerminalSucceeds(keys, Consumed(c, w));
    LastOutputIsMatch(keys, AllOutputs(Consumed(c, w)));
    Honoured(c);
  }

  lemma NotCuda(transport: string)
    requires CarriesArtifacts(transport)
    ensures transport != "cuda"
  {
  }
}
