/** The delivery wait loop and the event sink it drives (matrix.cpp, delivery_event_sink.cpp). */
module DeliveryRun {
  import opened Concatenation
  import opened FacadeTrace
  import opened JsonValue
  import opened Wrappers

  /** Where an artifact on disk lies: below a named route, or at a path. */
  datatype DiskArtifact = DiskArtifact(namedRouteId: string, relativePath: string, path: string)

  /** What the client codec reports of an announced output; the transport by its name, and locator naming shared
      memory or a URL. */
  datatype Output = Output(
    name: string,
    consumerId: string,
    promptId: string,
    transport: string,
    disk: DiskArtifact,
    locator: string)

  datatype Share = Share(
    name: string,
    notchConsumerId: string,
    ipcHandle: string,
    device: int,
    width: int,
    height: int,
    channels: int,
    dtype: string)

  datatype Kind = OutputReady | CudaShareStatus | ExecutionTerminal | OtherKind

  datatype Event = Event(
    kind: Kind,
    promptId: string,
    typeName: string,
    terminalStatus: string,
    message: string,
    outputs: seq<Output>,
    cudaShares: seq<Share>,
    receipt: Option<int>)

  /** A raw frame together with what the codec makes of it and what acknowledging its receipt returns. */
  datatype Frame = Frame(text: string, parsed: Parsed)

  datatype Parsed = Malformed(error: string) | Accepted(event: Event, ackError: Option<string>)

  datatype Keys = Keys(promptId: string, consumerId: string, transport: string)

  /** The part of the run state the sink writes. */
  datatype Observed = Observed(
    terminalType: string,
    terminalSuccess: bool,
    outputReady: bool,
    cudaStatus: bool,
    output: Option<Output>,
    cudaShare: Option<Share>)

  const NOTHING := Observed("", false, false, false, None, None)

  // ----- what one event means -----

  predicate OutputMatches(keys: Keys, o: Output) {
    && (o.promptId == "" || keys.promptId == "" || o.promptId == keys.promptId)
    && (o.consumerId == keys.consumerId || o.name == keys.consumerId)
    && o.transport == keys.transport
  }

  predicate ShareMatches(keys: Keys, s: Share) {
    s.name == keys.consumerId || s.notchConsumerId == keys.consumerId
  }

  predicate TerminalMatches(keys: Keys, e: Event) {
    e.kind.ExecutionTerminal? && keys.promptId != "" && e.promptId == keys.promptId
  }

  /** The last matching output of a list. */
  function LastOutput(keys: Keys, outputs: seq<Output>): Option<Output> {
    if outputs == [] then None
    else if OutputMatches(keys, outputs[|outputs| - 1]) then Some(outputs[|outputs| - 1])
    else LastOutput(keys, outputs[..|outputs| - 1])
  }

  function LastShare(keys: Keys, shares: seq<Share>): Option<Share> {
    if shares == [] then None
    else if ShareMatches(keys, shares[|shares| - 1]) then Some(shares[|shares| - 1])
    else LastShare(keys, shares[..|shares| - 1])
  }

  function WithOutput(o: Observed, output: Option<Output>): Observed {
    if output.Some? then o.(outputReady := true, output := output) else o
  }

  function WithShare(o: Observed, share: Option<Share>): Observed {
    if share.Some? then o.(cudaStatus := true, cudaShare := share) else o
  }

  function React(keys: Keys, o: Observed, e: Event): Observed {
    match e.kind
    case OutputReady => WithOutput(o, LastOutput(keys, e.outputs))
    case CudaShareStatus => WithShare(o, LastShare(keys, e.cudaShares))
    case ExecutionTerminal =>
      if TerminalMatches(keys, e) then o.(terminalType := e.typeName, terminalSuccess := e.terminalStatus == "success")
      else o
    case OtherKind => o
  }

  // ----- what is logged of one event -----

  const OUTPUT_READY := "event.output_ready"
  const CUDA_SHARE_STATUS := "event.cuda_share_status"
  const EXECUTION_TERMINAL := "event.execution_terminal"
  const PARSE_ERROR := "event.parse_error"

  function OutputFields(o: Output): Fields {
    With(One(TransportField, o.transport), ConsumerField, o.consumerId)
  }

  function OutputNote(scope: Scope, o: Output): Entry {
    Entry(scope, OUTPUT_READY, OutputFields(o), "ok", "")
  }

  function ShareNote(scope: Scope, s: Share): Entry {
    Entry(scope, CUDA_SHARE_STATUS, One(NameField, s.name), "ok", "")
  }

  /** One entry for each matching output, in order. */
  function OutputNotes(scope: Scope, keys: Keys, outputs: seq<Output>): seq<Entry> {
    if outputs == [] then []
    else
      var o := outputs[|outputs| - 1];
      OutputNotes(scope, keys, outputs[..|outputs| - 1]) +
      (if OutputMatches(keys, o) then [OutputNote(scope, o)] else [])
  }

  function ShareNotes(scope: Scope, keys: Keys, shares: seq<Share>): seq<Entry> {
    if shares == [] then []
    else
      var s := shares[|shares| - 1];
      ShareNotes(scope, keys, shares[..|shares| - 1]) +
      (if ShareMatches(keys, s) then [ShareNote(scope, s)] else [])
  }

  function TerminalNotes(scope: Scope, keys: Keys, e: Event): seq<Entry> {
    if TerminalMatches(keys, e) then
      [Entry(scope, EXECUTION_TERMINAL, One(StatusField, e.terminalStatus),
             if e.terminalStatus == "success" then "ok" else "fail", e.message)]
    else []
  }

  function EventNotes(scope: Scope, keys: Keys, e: Event): seq<Entry> {
    match e.kind
    case OutputReady => OutputNotes(scope, keys, e.outputs)
    case CudaShareStatus => ShareNotes(scope, keys, e.cudaShares)
    case ExecutionTerminal => TerminalNotes(scope, keys, e)
    case OtherKind => []
  }

  function ErrorNote(scope: Scope, message: string): Entry {
    Entry(scope, PARSE_ERROR, NoFields, "skip", message)
  }

  // ----- frames and batches -----

  function ReactToFrame(keys: Keys, o: Observed, f: Frame): Observed {
    match f.parsed
    case Malformed(_) => o
    case Accepted(e, _) => React(keys, o, e)
  }

  function AfterFrames(keys: Keys, o: Observed, frames: seq<Frame>): Observed {
    if frames == [] then o
    else ReactToFrame(keys, AfterFrames(keys, o, frames[..|frames| - 1]), frames[|frames| - 1])
  }

  function Concat(batches: seq<seq<Frame>>): seq<Frame> {
    if batches == [] then [] else Concat(batches[..|batches| - 1]) + batches[|batches| - 1]
  }

  /** The loop's two exits: success with the transport's own signal, or a terminal that is not a success. */
  predicate Complete(o: Observed, transport: string) {
    || (o.terminalSuccess && (if transport == "cuda" then o.cudaStatus else o.outputReady))
    || (o.terminalType != "" && !o.terminalSuccess)
  }

  /** The number of batches the loop consumes, having consumed the first k, when the deadline passes
      once all the given batches are drained. */
  function StopAfter(keys: Keys, transport: string, o: Observed, batches: seq<seq<Frame>>, k: nat): (n: nat)
    requires k <= |batches|
    ensures k <= n <= |batches|
    decreases |batches| - k
  {
    if k == |batches| then k
    else if Complete(AfterFrames(keys, o, Concat(batches[..k + 1])), transport) then k + 1
    else StopAfter(keys, transport, o, batches, k + 1)
  }

  /** What the loop does, in order. */
  datatype Act =
    | Received(text: string)
    | Applied(event: Event)
    | Acknowledged(receipt: int)
    | LoggedError(error: string)

  function ActsOfFrame(f: Frame): seq<Act> {
    [Received(f.text)] +
    match f.parsed
    case Malformed(error) => [LoggedError(error)]
    case Accepted(e, ackError) => [Applied(e)] + ActsOfReceipt(e, ackError)
  }

  function ActsOfReceipt(e: Event, ackError: Option<string>): seq<Act> {
    if e.receipt.None? then []
    else [Acknowledged(e.receipt.value)] + (if ackError.Some? then [LoggedError(ackError.value)] else [])
  }

  function ActsOf(frames: seq<Frame>): seq<Act> {
    if frames == [] then [] else ActsOf(frames[..|frames| - 1]) + ActsOfFrame(frames[|frames| - 1])
  }

  function FrameNotes(scope: Scope, keys: Keys, f: Frame): seq<Entry> {
    match f.parsed
    case Malformed(error) => [ErrorNote(scope, error)]
    case Accepted(e, ackError) => EventNotes(scope, keys, e) + ReceiptNotes(scope, e, ackError)
  }

  function ReceiptNotes(scope: Scope, e: Event, ackError: Option<string>): seq<Entry> {
    if e.receipt.Some? && ackError.Some? then [ErrorNote(scope, ackError.value)] else []
  }

  function Notes(scope: Scope, keys: Keys, frames: seq<Frame>): seq<Entry> {
    if frames == [] then []
    else Notes(scope, keys, frames[..|frames| - 1]) + FrameNotes(scope, keys, frames[|frames| - 1])
  }

  function Texts(frames: seq<Frame>): seq<string> {
    seq(|frames|, i requires 0 <= i < |frames| => frames[i].text)
  }

  // ----- the objects -----

  class DeliveryRunState {
    var queued: bool
    var promptId: string
    var injectError: string
    var terminalType: string
    var terminalSuccess: bool
    var outputReady: bool
    var cudaStatus: bool
    var output: Option<Output>
    var cudaShare: Option<Share>
    var websocketFrames: seq<string>

    constructor ()
      ensures Seen() == NOTHING && websocketFrames == []
      ensures !queued && promptId == "" && injectError == ""
    {
      queued, promptId, injectError := false, "", "";
      terminalType, terminalSuccess, outputReady, cudaStatus := "", false, false, false;
      output, cudaShare, websocketFrames := None, None, [];
    }

    /** Assigning a fresh state. */
    method Reset()
      modifies this
      ensures Seen() == NOTHING && websocketFrames == []
      ensures !queued && promptId == "" && injectError == ""
    {
      queued, promptId, injectError := false, "", "";
      terminalType, terminalSuccess, outputReady, cudaStatus := "", false, false, false;
      output, cudaShare, websocketFrames := None, None, [];
    }

    function Seen(): Observed
      reads this
    {
      Observed(terminalType, terminalSuccess, outputReady, cudaStatus, output, cudaShare)
    }
  }

  class DeliveryEventSink {
    const state: DeliveryRunState
    const log: FacadeLog
    var promptId: string
    var consumerId: string
    var transport: string

    constructor (state: DeliveryRunState, log: FacadeLog)
      ensures this.state == state && this.log == log && MatchKeys() == Keys("", "", "")
    {
      this.state, this.log := state, log;
      promptId, consumerId, transport := "", "", "";
    }

    function MatchKeys(): Keys
      reads this
    {
      Keys(promptId, consumerId, transport)
    }

    method Configure(promptId: string, consumerId: string, transport: string)
      modifies this
      ensures MatchKeys() == Keys(promptId, consumerId, transport)
    {
      this.promptId := promptId;
      this.consumerId := consumerId;
      this.transport := transport;
    }

    method OnEvent(event: Event)
      requires log.logger.Valid()
      modifies state`terminalType, state`terminalSuccess, state`outputReady, state`cudaStatus, state`output,
               state`cudaShare
      modifies log`lines, log`entries, log.logger
      ensures state.Seen() == React(MatchKeys(), old(state.Seen()), event)
      ensures log.entries == old(log.entries) + EventNotes(log.CurrentScope(), MatchKeys(), event)
      ensures log.logger.Valid() && log.logger.KeepsCases()
    {
      match event.kind {
        case OutputReady => OnOutputs(event.outputs);
        case CudaShareStatus => OnShares(event.cudaShares);
        case ExecutionTerminal => OnTerminal(event);
        case OtherKind => NothingAfter(log.entries);
      }
    }

    method OnOutputs(outputs: seq<Output>)
      requires log.logger.Valid()
      modifies state`outputReady, state`output, log`lines, log`entries, log.logger
      ensures state.Seen() == WithOutput(old(state.Seen()), LastOutput(MatchKeys(), outputs))
      ensures log.entries == old(log.entries) + OutputNotes(log.CurrentScope(), MatchKeys(), outputs)
      ensures log.logger.Valid() && log.logger.KeepsCases()
    {
      NothingAfter(log.entries);
      for i := 0 to |outputs|
        invariant log.logger.Valid() && log.logger.KeepsCases()
        invariant state.Seen() == WithOutput(old(state.Seen()), LastOutput(MatchKeys(), outputs[..i]))
        invariant log.entries == old(log.entries) + OutputNotes(log.CurrentScope(), MatchKeys(), outputs[..i])
      {
        NextOutput(log.CurrentScope(), MatchKeys(), outputs, i);
        var output := outputs[i];
        var outPromptOk := output.promptId == "" || promptId == "" || output.promptId == promptId;
        var consumerOk := output.consumerId == consumerId || output.name == consumerId;
        if outPromptOk && consumerOk && output.transport == transport {
          ReportOutput(output);
        }
      }
      assert outputs[..|outputs|] == outputs;
    }

    method OnShares(shares: seq<Share>)
      requires log.logger.Valid()
      modifies state`cudaStatus, state`cudaShare, log`lines, log`entries, log.logger
      ensures state.Seen() == WithShare(old(state.Seen()), LastShare(MatchKeys(), shares))
      ensures log.entries == old(log.entries) + ShareNotes(log.CurrentScope(), MatchKeys(), shares)
      ensures log.logger.Valid() && log.logger.KeepsCases()
    {
      NothingAfter(log.entries);
      for i := 0 to |shares|
        invariant log.logger.Valid() && log.logger.KeepsCases()
        invariant state.Seen() == WithShare(old(state.Seen()), LastShare(MatchKeys(), shares[..i]))
        invariant log.entries == old(log.entries) + ShareNotes(log.CurrentScope(), MatchKeys(), shares[..i])
      {
        NextShare(log.CurrentScope(), MatchKeys(), shares, i);
        var share := shares[i];
        if share.name == consumerId || share.notchConsumerId == consumerId {
          ReportShare(share);
        }
      }
      assert shares[..|shares|] == shares;
    }

    method ReportOutput(output: Output)
      requires log.logger.Valid()
      modifies state`outputReady, state`output, log`lines, log`entries, log.logger
      ensures state.Seen() == WithOutput(old(state.Seen()), Some(output)) && log.logger.Valid() &&
              log.logger.KeepsCases()
      ensures log.entries == old(log.entries) + [OutputNote(log.CurrentScope(), output)]
    {
      state.output := Some(output);
      state.outputReady := true;
      var transportText := Quoted(TransportField, output.transport);
      var consumerText := Quoted(ConsumerField, output.consumerId);
      BodyAppends(One(TransportField, output.transport), One(ConsumerField, output.consumerId));
      log.Action(OUTPUT_READY, transportText + ("," + consumerText), "ok", "", OutputFields(output));
    }

    method ReportShare(share: Share)
      requires log.logger.Valid()
      modifies state`cudaStatus, state`cudaShare, log`lines, log`entries, log.logger
      ensures state.Seen() == WithShare(old(state.Seen()), Some(share)) && log.logger.Valid() && log.logger.KeepsCases()
      ensures log.entries == old(log.entries) + [ShareNote(log.CurrentScope(), share)]
    {
      state.cudaShare := Some(share);
      state.cudaStatus := true;
      var nameText := Quoted(NameField, share.name);
      log.Action(CUDA_SHARE_STATUS, nameText, "ok", "", One(NameField, share.name));
    }

    method OnTerminal(event: Event)
      requires event.kind.ExecutionTerminal? && log.logger.Valid()
      modifies state`terminalType, state`terminalSuccess, log`lines, log`entries, log.logger
      ensures state.Seen() == React(MatchKeys(), old(state.Seen()), event)
      ensures log.entries == old(log.entries) + TerminalNotes(log.CurrentScope(), MatchKeys(), event)
      ensures log.logger.Valid() && log.logger.KeepsCases()
    {
      NothingAfter(log.entries);
      var promptMatches := promptId != "" && event.promptId == promptId;
      if promptMatches {
        state.terminalType := event.typeName;
        state.terminalSuccess := event.terminalStatus == "success";
        var statusText := Quoted(StatusField, event.terminalStatus);
        log.Action(EXECUTION_TERMINAL, statusText, if state.terminalSuccess then "ok" else "fail", event.message,
                   One(StatusField, event.terminalStatus));
      }
    }

    method OnParseError(message: string)
      requires log.logger.Valid()
      modifies log`lines, log`entries, log.logger
      ensures log.entries == old(log.entries) + [ErrorNote(log.CurrentScope(), message)] && log.logger.Valid() &&
              log.logger.KeepsCases()
    {
      log.Action(PARSE_ERROR, "", "skip", message, NoFields);
    }
  }

  lemma NextOutput(scope: Scope, keys: Keys, outputs: seq<Output>, i: nat)
    requires i < |outputs|
    ensures LastOutput(keys, outputs[..i + 1]) ==
            if OutputMatches(keys, outputs[i]) then Some(outputs[i]) else LastOutput(keys, outputs[..i])
    ensures OutputNotes(scope, keys, outputs[..i + 1]) ==
            OutputNotes(scope, keys, outputs[..i]) +
            (if OutputMatches(keys, outputs[i]) then [OutputNote(scope, outputs[i])] else [])
  {
    assert outputs[..i + 1][..i] == outputs[..i];
  }

  lemma NextShare(scope: Scope, keys: Keys, shares: seq<Share>, i: nat)
    requires i < |shares|
    ensures LastShare(keys, shares[..i + 1]) ==
            if ShareMatches(keys, shares[i]) then Some(shares[i]) else LastShare(keys, shares[..i])
    ensures ShareNotes(scope, keys, shares[..i + 1]) ==
            ShareNotes(scope, keys, shares[..i]) +
            (if ShareMatches(keys, shares[i]) then [ShareNote(scope, shares[i])] else [])
  {
    assert shares[..i + 1][..i] == shares[..i];
  }

  class DeliveryContext {
    const sink: DeliveryEventSink
    const state: DeliveryRunState
    const log: FacadeLog
    /** What the loop has done so far, the calls into the client codec included. */
    ghost var acts: seq<Act>

    constructor (sink: DeliveryEventSink)
      ensures this.sink == sink && this.state == sink.state && this.log == sink.log && acts == []
    {
      this.sink, this.state, this.log := sink, sink.state, sink.log;
      acts := [];
    }

    ghost predicate Ready()
      reads log, log.logger
    {
      state == sink.state && log == sink.log && log.logger.Valid()
    }

    /** Records, parses, applies and acknowledges one frame. */
    method HandleFrame(f: Frame)
      requires Ready()
      modifies this, state`websocketFrames, log`lines, log`entries, log.logger
      modifies state`terminalType, state`terminalSuccess, state`outputReady, state`cudaStatus, state`output,
               state`cudaShare
      ensures Ready() && log.logger.KeepsCases()
      ensures state.websocketFrames == old(state.websocketFrames) + [f.text]
      ensures state.Seen() == ReactToFrame(sink.MatchKeys(), old(state.Seen()), f)
      ensures acts == old(acts) + ActsOfFrame(f)
      ensures log.entries == old(log.entries) + FrameNotes(log.CurrentScope(), sink.MatchKeys(), f)
    {
      state.websocketFrames := state.websocketFrames + [f.text];
      ghost var before, entries, scope := acts, log.entries, log.CurrentScope();
      acts := acts + [Received(f.text)];
      match f.parsed {
        case Accepted(event, ackError) =>
          Regroup(before, [Received(f.text)], [Applied(event)] + ActsOfReceipt(event, ackError));
          Regroup(before + [Received(f.text)], [Applied(event)], ActsOfReceipt(event, ackError));
          Regroup(entries, EventNotes(scope, sink.MatchKeys(), event), ReceiptNotes(scope, event, ackError));
          sink.OnEvent(event);
          acts := acts + [Applied(event)];
          Acknowledge(event, ackError);
        case Malformed(error) =>
          Regroup(before, [Received(f.text)], [LoggedError(error)]);
          sink.OnParseError(error);
          acts := acts + [LoggedError(error)];
      }
    }

    /** ackError is what confirming the delivery returns. */
    method Acknowledge(event: Event, ackError: Option<string>)
      requires Ready()
      modifies `acts, log`lines, log`entries, log.logger
      ensures Ready() && log.logger.KeepsCases() && acts == old(acts) + ActsOfReceipt(event, ackError)
      ensures log.entries == old(log.entries) + ReceiptNotes(log.CurrentScope(), event, ackError)
    {
      NothingAfter(acts);
      NothingAfter(log.entries);
      if event.receipt.Some? {
        ghost var logged := if ackError.Some? then [LoggedError(ackError.value)] else [];
        Regroup(acts, [Acknowledged(event.receipt.value)], logged);
        acts := acts + [Acknowledged(event.receipt.value)];
        NothingAfter(acts);
        if ackError.Some? {
          sink.OnParseError(ackError.value);
          acts := acts + [LoggedError(ackError.value)];
        }
      }
    }

    method HandleBatch(batch: seq<Frame>)
      requires Ready()
      modifies this, state`websocketFrames, log`lines, log`entries, log.logger
      modifies state`terminalType, state`terminalSuccess, state`outputReady, state`cudaStatus, state`output,
               state`cudaShare
      ensures Ready() && log.logger.KeepsCases()
      ensures state.websocketFrames == old(state.websocketFrames) + Texts(batch)
      ensures state.Seen() == AfterFrames(sink.MatchKeys(), old(state.Seen()), batch)
      ensures acts == old(acts) + ActsOf(batch)
      ensures log.entries == old(log.entries) + Notes(log.CurrentScope(), sink.MatchKeys(), batch)
    {
      NothingAfter(state.websocketFrames);
      NothingAfter(acts);
      NothingAfter(log.entries);
      ghost var keys, scope, start := sink.MatchKeys(), log.CurrentScope(), state.Seen();
      ghost var frames, done, entries := state.websocketFrames, acts, log.entries;
      for i := 0 to |batch|
        invariant Ready() && log.logger.KeepsCases() && sink.MatchKeys() == keys && log.CurrentScope() == scope
        invariant state.websocketFrames == frames + Texts(batch[..i])
        invariant state.Seen() == AfterFrames(keys, start, batch[..i])
        invariant acts == done + ActsOf(batch[..i])
        invariant log.entries == entries + Notes(scope, keys, batch[..i])
      {
        NextFrame(scope, keys, start, batch, i);
        Regroup(done, ActsOf(batch[..i]), ActsOfFrame(batch[i]));
        Regroup(frames, Texts(batch[..i]), [batch[i].text]);
        Regroup(entries, Notes(scope, keys, batch[..i]), FrameNotes(scope, keys, batch[i]));
        HandleFrame(batch[i]);
      }
      assert batch[..|batch|] == batch;
    }

    /** batches holds what each drain returns; the deadline passes when they are used up. */
    method WaitForDelivery(transport: string, batches: seq<seq<Frame>>) returns (consumed: nat)
      requires Ready()
      modifies this, state`websocketFrames, log`lines, log`entries, log.logger
      modifies state`terminalType, state`terminalSuccess, state`outputReady, state`cudaStatus, state`output,
               state`cudaShare
      ensures Ready() && log.logger.KeepsCases()
      ensures consumed == StopAfter(sink.MatchKeys(), transport, old(state.Seen()), batches, 0)
      ensures state.websocketFrames == old(state.websocketFrames) + Texts(Concat(batches[..consumed]))
      ensures state.Seen() == AfterFrames(sink.MatchKeys(), old(state.Seen()), Concat(batches[..consumed]))
      ensures acts == old(acts) + ActsOf(Concat(batches[..consumed]))
      ensures log.entries == old(log.entries) + Notes(log.CurrentScope(), sink.MatchKeys(), Concat(batches[..consumed]))
    {
      consumed := 0;
      ghost var keys, scope, start := sink.MatchKeys(), log.CurrentScope(), state.Seen();
      ghost var frames, done, entries := state.websocketFrames, acts, log.entries;
      ghost var read: seq<Frame> := [];
      NothingAfter(frames);
      NothingAfter(done);
      NothingAfter(entries);
      while consumed < |batches|
        invariant 0 <= consumed <= |batches| && read == Concat(batches[..consumed])
        invariant StopAfter(keys, transport, start, batches, 0) == StopAfter(keys, transport, start, batches, consumed)
        invariant Ready() && log.logger.KeepsCases() && sink.MatchKeys() == keys && log.CurrentScope() == scope
        invariant state.websocketFrames == frames + Texts(read)
        invariant state.Seen() == AfterFrames(keys, start, read)
        invariant acts == done + ActsOf(read)
        invariant log.entries == entries + Notes(scope, keys, read)
      {
        var batch := batches[consumed];
        ConcatStep(batches, consumed);
        ReadOn(keys, scope, start, read, batch);
        Regroup(done, ActsOf(read), ActsOf(batch));
        Regroup(frames, Texts(read), Texts(batch));
        Regroup(entries, Notes(scope, keys, read), Notes(scope, keys, batch));
        HandleBatch(batch);
        consumed, read := consumed + 1, read + batch;
        assert state.Seen() == AfterFrames(keys, start, read);
        if state.terminalSuccess && (if transport == "cuda" then state.cudaStatus else state.outputReady) {
          return;
        }
        if state.terminalType != "" && !state.terminalSuccess {
          return;
        }
      }
    }
  }

  lemma NextFrame(scope: Scope, keys: Keys, o: Observed, batch: seq<Frame>, i: nat)
    requires i < |batch|
    ensures Texts(batch[..i + 1]) == Texts(batch[..i]) + [batch[i].text]
    ensures AfterFrames(keys, o, batch[..i + 1]) == ReactToFrame(keys, AfterFrames(keys, o, batch[..i]), batch[i])
    ensures ActsOf(batch[..i + 1]) == ActsOf(batch[..i]) + ActsOfFrame(batch[i])
    ensures Notes(scope, keys, batch[..i + 1]) == Notes(scope, keys, batch[..i]) + FrameNotes(scope, keys, batch[i])
  {
    assert batch[..i + 1][..i] == batch[..i];
  }

  lemma ReadOn(keys: Keys, scope: Scope, o: Observed, read: seq<Frame>, batch: seq<Frame>)
    ensures AfterFrames(keys, o, read + batch) == AfterFrames(keys, AfterFrames(keys, o, read), batch)
    ensures ActsOf(read + batch) == ActsOf(read) + ActsOf(batch)
    ensures Texts(read + batch) == Texts(read) + Texts(batch)
    ensures Notes(scope, keys, read + batch) == Notes(scope, keys, read) + Notes(scope, keys, batch)
  {
    AfterConcat(keys, o, read, batch);
    ActsConcat(read, batch);
    TextsConcat(read, batch);
    NotesConcat(scope, keys, read, batch);
  }

  lemma TextsConcat(a: seq<Frame>, b: seq<Frame>)
    ensures Texts(a + b) == Texts(a) + Texts(b)
  {
  }

  // ----- folding over concatenations -----

  lemma {:induction false} AfterConcat(keys: Keys, o: Observed, a: seq<Frame>, b: seq<Frame>)
    ensures AfterFrames(keys, o, a + b) == AfterFrames(keys, AfterFrames(keys, o, a), b)
  {
    if b == [] {
      assert a + b == a;
    } else {
      var n := |b| - 1;
      assert (a + b)[..|a + b| - 1] == a + b[..n];
      AfterConcat(keys, o, a, b[..n]);
    }
  }

  lemma {:induction false} ActsConcat(a: seq<Frame>, b: seq<Frame>)
    ensures ActsOf(a + b) == ActsOf(a) + ActsOf(b)
  {
    if b == [] {
      assert a + b == a;
    } else {
      var n := |b| - 1;
      assert (a + b)[..|a + b| - 1] == a + b[..n];
      ActsConcat(a, b[..n]);
      Regroup(ActsOf(a), ActsOf(b[..n]), ActsOfFrame(b[n]));
    }
  }

  lemma {:induction false} NotesConcat(scope: Scope, keys: Keys, a: seq<Frame>, b: seq<Frame>)
    ensures Notes(scope, keys, a + b) == Notes(scope, keys, a) + Notes(scope, keys, b)
  {
    if b == [] {
      NothingAfter(a);
      NothingAfter(Notes(scope, keys, a));
    } else {
      var n := |b| - 1;
      assert (a + b)[..|a + b| - 1] == a + b[..n];
      NotesConcat(scope, keys, a, b[..n]);
      Regroup(Notes(scope, keys, a), Notes(scope, keys, b[..n]), FrameNotes(scope, keys, b[n]));
    }
  }

  lemma ConcatStep(batches: seq<seq<Frame>>, k: nat)
    requires k < |batches|
    ensures Concat(batches[..k + 1]) == Concat(batches[..k]) + batches[k]
  {
    assert batches[..k + 1][..k] == batches[..k];
  }

  // ----- when the loop returns -----

  /** Before the deadline the loop returns only at a batch boundary, at the first one where the run is
      complete. */
  lemma {:induction false} StopsAtFirstCompletion(keys: Keys, transport: string, o: Observed, batches: seq<seq<Frame>>,
                                                  k: nat)
    requires k <= |batches|
    ensures var n := StopAfter(keys, transport, o, batches, k);
            && (forall m :: k < m < n ==> !Complete(AfterFrames(keys, o, Concat(batches[..m])), transport))
            && (n < |batches| ==> k < n && Complete(AfterFrames(keys, o, Concat(batches[..n])), transport))
    decreases |batches| - k
  {
    if k < |batches| && !Complete(AfterFrames(keys, o, Concat(batches[..k + 1])), transport) {
      StopsAtFirstCompletion(keys, transport, o, batches, k + 1);
    }
  }

  // ----- acknowledgements -----

  function ReceiptOf(f: Frame): seq<int> {
    if f.parsed.Accepted? && f.parsed.event.receipt.Some? then [f.parsed.event.receipt.value] else []
  }

  /** The receipts that the accepted events carry, in arrival order. */
  function Receipts(frames: seq<Frame>): seq<int> {
    if frames == [] then [] else Receipts(frames[..|frames| - 1]) + ReceiptOf(frames[|frames| - 1])
  }

  function Acknowledgements(acts: seq<Act>): seq<int> {
    if acts == [] then []
    else
      var last := acts[|acts| - 1];
      Acknowledgements(acts[..|acts| - 1]) + (if last.Acknowledged? then [last.receipt] else [])
  }

  lemma {:induction false} AcknowledgementsConcat(a: seq<Act>, b: seq<Act>)
    ensures Acknowledgements(a + b) == Acknowledgements(a) + Acknowledgements(b)
  {
    if b == [] {
      assert a + b == a;
    } else {
      var n := |b| - 1;
      assert (a + b)[..|a + b| - 1] == a + b[..n];
      AcknowledgementsConcat(a, b[..n]);
    }
  }

  lemma AcknowledgementsOfOne(act: Act)
    ensures Acknowledgements([act]) == if act.Acknowledged? then [act.receipt] else []
  {
    assert [act][..0] == [];
  }

  lemma FrameAcknowledgements(f: Frame)
    ensures Acknowledgements(ActsOfFrame(f)) == ReceiptOf(f)
  {
    AcknowledgementsOfOne(Received(f.text));
    match f.parsed
    case Malformed(error) =>
      AcknowledgementsConcat([Received(f.text)], [LoggedError(error)]);
      AcknowledgementsOfOne(LoggedError(error));
    case Accepted(e, ackError) =>
      AcknowledgementsOfOne(Applied(e));
      var tail := ActsOfReceipt(e, ackError);
      AcknowledgementsConcat([Received(f.text)], [Applied(e)] + tail);
      AcknowledgementsConcat([Applied(e)], tail);
      if e.receipt.Some? {
        AcknowledgementsOfOne(Acknowledged(e.receipt.value));
        if ackError.Some? {
          AcknowledgementsOfOne(LoggedError(ackError.value));
          AcknowledgementsConcat([Acknowledged(e.receipt.value)], [LoggedError(ackError.value)]);
        } else {
          assert tail == [Acknowledged(e.receipt.value)];
        }
      }
  }

  /** Every receipt is acknowledged exactly once and in arrival order. */
  lemma {:induction false} AcknowledgedOnceInOrder(frames: seq<Frame>)
    ensures Acknowledgements(ActsOf(frames)) == Receipts(frames)
  {
    if frames != [] {
      var n := |frames| - 1;
      AcknowledgedOnceInOrder(frames[..n]);
      FrameAcknowledgements(frames[n]);
      AcknowledgementsConcat(ActsOf(frames[..n]), ActsOfFrame(frames[n]));
    }
  }

  /** An acknowledgement directly follows the application of the event that carries its receipt. */
  ghost predicate AppliedFirst(acts: seq<Act>) {
    forall i :: 0 <= i < |acts| && acts[i].Acknowledged? ==>
      i > 0 && acts[i - 1].Applied? && acts[i - 1].event.receipt == Some(acts[i].receipt)
  }

  lemma {:induction false} AppliedBeforeAcknowledged(frames: seq<Frame>)
    ensures AppliedFirst(ActsOf(frames))
  {
    if frames != [] {
      var n := |frames| - 1;
      AppliedBeforeAcknowledged(frames[..n]);
      assert AppliedFirst(ActsOfFrame(frames[n]));
      AppliedFirstConcat(ActsOf(frames[..n]), ActsOfFrame(frames[n]));
    }
  }

  lemma AppliedFirstConcat(a: seq<Act>, b: seq<Act>)
    requires AppliedFirst(a) && AppliedFirst(b)
    ensures AppliedFirst(a + b)
  {
    forall i | 0 <= i < |a + b| && (a + b)[i].Acknowledged?
      ensures i > 0 && (a + b)[i - 1].Applied? && (a + b)[i - 1].event.receipt == Some((a + b)[i].receipt)
    {
      if i >= |a| {
        assert b[i - |a|].Acknowledged?;
        assert i - 1 - |a| >= 0 && (a + b)[i - 1] == b[i - 1 - |a|];
      }
    }
  }

  // ----- the final state in closed form -----

  function OutputsOf(f: Frame): seq<Output> {
    if f.parsed.Accepted? && f.parsed.event.kind.OutputReady? then f.parsed.event.outputs else []
  }

  function SharesOf(f: Frame): seq<Share> {
    if f.parsed.Accepted? && f.parsed.event.kind.CudaShareStatus? then f.parsed.event.cudaShares else []
  }

  /** Every output announced by the accepted events, in order. */
  function AllOutputs(frames: seq<Frame>): seq<Output> {
    if frames == [] then [] else AllOutputs(frames[..|frames| - 1]) + OutputsOf(frames[|frames| - 1])
  }

  function AllShares(frames: seq<Frame>): seq<Share> {
    if frames == [] then [] else AllShares(frames[..|frames| - 1]) + SharesOf(frames[|frames| - 1])
  }

  /** The last terminal event for the configured prompt. */
  function LastTerminal(keys: Keys, frames: seq<Frame>): Option<Event> {
    if frames == [] then None
    else
      var f := frames[|frames| - 1];
      if f.parsed.Accepted? && TerminalMatches(keys, f.parsed.event) then Some(f.parsed.event)
      else LastTerminal(keys, frames[..|frames| - 1])
  }

  lemma {:induction false} LastOutputConcat(keys: Keys, a: seq<Output>, b: seq<Output>)
    ensures LastOutput(keys, a + b) == if LastOutput(keys, b).Some? then LastOutput(keys, b) else LastOutput(keys, a)
  {
    if b == [] {
      assert a + b == a;
    } else {
      var n := |b| - 1;
      assert (a + b)[..|a + b| - 1] == a + b[..n];
      LastOutputConcat(keys, a, b[..n]);
    }
  }

  lemma {:induction false} LastShareConcat(keys: Keys, a: seq<Share>, b: seq<Share>)
    ensures LastShare(keys, a + b) == if LastShare(keys, b).Some? then LastShare(keys, b) else LastShare(keys, a)
  {
    if b == [] {
      assert a + b == a;
    } else {
      var n := |b| - 1;
      assert (a + b)[..|a + b| - 1] == a + b[..n];
      LastShareConcat(keys, a, b[..n]);
    }
  }

  /** From a fresh state, the terminal fields are those of the last terminal for the prompt, and the
      output and share are the last matching ones among all that were announced. */
  lemma {:induction false} FinalState(keys: Keys, frames: seq<Frame>)
    ensures var o := AfterFrames(keys, NOTHING, frames);
            var last := LastTerminal(keys, frames);
            && o.terminalType == (if last.Some? then last.value.typeName else "")
            && (o.terminalSuccess <==> last.Some? && last.value.terminalStatus == "success")
            && o.output == LastOutput(keys, AllOutputs(frames)) && o.outputReady == o.output.Some?
            && o.cudaShare == LastShare(keys, AllShares(frames)) && o.cudaStatus == o.cudaShare.Some?
  {
    if frames != [] {
      var n := |frames| - 1;
      FinalState(keys, frames[..n]);
      LastOutputConcat(keys, AllOutputs(frames[..n]), OutputsOf(frames[n]));
      LastShareConcat(keys, AllShares(frames[..n]), SharesOf(frames[n]));
    }
  }

  /** A signal once seen is never taken back within a case. */
  lemma {:induction false} SignalsPersist(keys: Keys, o: Observed, frames: seq<Frame>)
    ensures o.outputReady ==> AfterFrames(keys, o, frames).outputReady
    ensures o.cudaStatus ==> AfterFrames(keys, o, frames).cudaStatus
  {
    if frames != [] {
      SignalsPersist(keys, o, frames[..|frames| - 1]);
    }
  }

  // ----- what the log tells -----

  /** The result of the last entry for an action. */
  function LastResult(notes: seq<Entry>, action: string): Option<string> {
    if notes == [] then None
    else if notes[|notes| - 1].action == action then Some(notes[|notes| - 1].result)
    else LastResult(notes[..|notes| - 1], action)
  }

  lemma {:induction false} LastResultConcat(a: seq<Entry>, b: seq<Entry>, action: string)
    ensures LastResult(a + b, action) ==
            if LastResult(b, action).Some? then LastResult(b, action) else LastResult(a, action)
  {
    if b == [] {
      NothingAfter(a);
    } else {
      var n := |b| - 1;
      assert (a + b)[..|a + b| - 1] == a + b[..n];
      LastResultConcat(a, b[..n], action);
    }
  }

  lemma {:induction false} LastResultOfOutputs(scope: Scope, keys: Keys, outputs: seq<Output>, action: string)
    ensures LastResult(OutputNotes(scope, keys, outputs), action) ==
            if action == OUTPUT_READY && LastOutput(keys, outputs).Some? then Some("ok") else None
  {
    if outputs != [] {
      var front := outputs[..|outputs| - 1];
      LastResultOfOutputs(scope, keys, front, action);
      NothingAfter(OutputNotes(scope, keys, front));
    }
  }

  lemma {:induction false} LastResultOfShares(scope: Scope, keys: Keys, shares: seq<Share>, action: string)
    ensures LastResult(ShareNotes(scope, keys, shares), action) ==
            if action == CUDA_SHARE_STATUS && LastShare(keys, shares).Some? then Some("ok") else None
  {
    if shares != [] {
      var front := shares[..|shares| - 1];
      LastResultOfShares(scope, keys, front, action);
      NothingAfter(ShareNotes(scope, keys, front));
    }
  }

  lemma ActionsDiffer()
    ensures OUTPUT_READY != CUDA_SHARE_STATUS && OUTPUT_READY != EXECUTION_TERMINAL && OUTPUT_READY != PARSE_ERROR
    ensures CUDA_SHARE_STATUS != EXECUTION_TERMINAL && CUDA_SHARE_STATUS != PARSE_ERROR &&
            EXECUTION_TERMINAL != PARSE_ERROR
  {
    assert |OUTPUT_READY| == 18 && |CUDA_SHARE_STATUS| == 23 && |EXECUTION_TERMINAL| == 24 && |PARSE_ERROR| == 17;
  }

  function EventResult(keys: Keys, e: Event, action: string): Option<string> {
    if e.kind.OutputReady? && action == OUTPUT_READY && LastOutput(keys, e.outputs).Some? then Some("ok")
    else if e.kind.CudaShareStatus? && action == CUDA_SHARE_STATUS && LastShare(keys, e.cudaShares).Some? then
      Some("ok")
    else if action == EXECUTION_TERMINAL && TerminalMatches(keys, e) then
      Some(if e.terminalStatus == "success" then "ok" else "fail")
    else None
  }

  lemma LastResultOfEvent(scope: Scope, keys: Keys, e: Event, action: string)
    ensures LastResult(EventNotes(scope, keys, e), action) == EventResult(keys, e, action)
  {
    LastResultOfOutputs(scope, keys, e.outputs, action);
    LastResultOfShares(scope, keys, e.cudaShares, action);
  }

  function FrameResult(keys: Keys, f: Frame, action: string): Option<string> {
    if f.parsed.Accepted? then EventResult(keys, f.parsed.event, action) else None
  }

  lemma LastResultOfFrame(scope: Scope, keys: Keys, f: Frame, action: string)
    requires action != PARSE_ERROR
    ensures LastResult(FrameNotes(scope, keys, f), action) == FrameResult(keys, f, action)
  {
    if f.parsed.Accepted? {
      var e := f.parsed.event;
      LastResultOfEvent(scope, keys, e, action);
      LastResultConcat(EventNotes(scope, keys, e), ReceiptNotes(scope, e, f.parsed.ackError), action);
    }
  }

  /** The entries of a run tell its state: each signal was seen exactly when it was logged, and the run succeeded
      exactly when the last terminal in the log is ok. */
  lemma {:induction false} NotesTellState(scope: Scope, keys: Keys, frames: seq<Frame>)
    ensures var o, notes := AfterFrames(keys, NOTHING, frames), Notes(scope, keys, frames);
            && (o.outputReady <==> LastResult(notes, OUTPUT_READY).Some?)
            && (o.cudaStatus <==> LastResult(notes, CUDA_SHARE_STATUS).Some?)
            && (o.terminalSuccess <==> LastResult(notes, EXECUTION_TERMINAL) == Some("ok"))
  {
    if frames != [] {
      var front, last := frames[..|frames| - 1], frames[|frames| - 1];
      NotesTellState(scope, keys, front);
      FrameTells(keys, AfterFrames(keys, NOTHING, front), last);
      ActionsDiffer();
      NextResult(scope, keys, frames, OUTPUT_READY);
      NextResult(scope, keys, frames, CUDA_SHARE_STATUS);
      NextResult(scope, keys, frames, EXECUTION_TERMINAL);
    }
  }

  /** What one frame changes is what its last entries say. */
  lemma FrameTells(keys: Keys, o: Observed, f: Frame)
    ensures var next := ReactToFrame(keys, o, f);
            && (next.outputReady <==> o.outputReady || FrameResult(keys, f, OUTPUT_READY).Some?)
            && (next.cudaStatus <==> o.cudaStatus || FrameResult(keys, f, CUDA_SHARE_STATUS).Some?)
            && (var result := FrameResult(keys, f, EXECUTION_TERMINAL);
                next.terminalSuccess <==> if result.Some? then result == Some("ok") else o.terminalSuccess)
  {
    ActionsDiffer();
    assert "ok" != "fail";
  }

  lemma NextResult(scope: Scope, keys: Keys, frames: seq<Frame>, action: string)
    requires frames != [] && action != PARSE_ERROR
    ensures var front, result := frames[..|frames| - 1], FrameResult(keys, frames[|frames| - 1], action);
            LastResult(Notes(scope, keys, frames), action) ==
            if result.Some? then result else LastResult(Notes(scope, keys, front), action)
  {
    var front, last := frames[..|frames| - 1], frames[|frames| - 1];
    LastResultConcat(Notes(scope, keys, front), FrameNotes(scope, keys, last), action);
    LastResultOfFrame(scope, keys, last, action);
  }

  // ----- events that do not match the keys -----

  predicate Relevant(keys: Keys, e: Event) {
    match e.kind
    case OutputReady => exists i :: 0 <= i < |e.outputs| && OutputMatches(keys, e.outputs[i])
    case CudaShareStatus => exists i :: 0 <= i < |e.cudaShares| && ShareMatches(keys, e.cudaShares[i])
    case ExecutionTerminal => TerminalMatches(keys, e)
    case OtherKind => false
  }

  predicate Kept(keys: Keys, f: Frame) {
    f.parsed.Accepted? && Relevant(keys, f.parsed.event)
  }

  /** The frames whose event matches the keys. */
  function Filter(keys: Keys, frames: seq<Frame>): seq<Frame> {
    if frames == [] then []
    else
      var f := frames[|frames| - 1];
      Filter(keys, frames[..|frames| - 1]) + (if Kept(keys, f) then [f] else [])
  }

  function FilterAll(keys: Keys, batches: seq<seq<Frame>>): seq<seq<Frame>> {
    seq(|batches|, i requires 0 <= i < |batches| => Filter(keys, batches[i]))
  }

  lemma {:induction false} LastOutputFound(keys: Keys, outputs: seq<Output>)
    ensures LastOutput(keys, outputs).Some? <==> exists i :: 0 <= i < |outputs| && OutputMatches(keys, outputs[i])
  {
    if outputs != [] {
      var n := |outputs| - 1;
      LastOutputFound(keys, outputs[..n]);
      assert forall i :: 0 <= i < n ==> outputs[..n][i] == outputs[i];
    }
  }

  lemma {:induction false} LastShareFound(keys: Keys, shares: seq<Share>)
    ensures LastShare(keys, shares).Some? <==> exists i :: 0 <= i < |shares| && ShareMatches(keys, shares[i])
  {
    if shares != [] {
      var n := |shares| - 1;
      LastShareFound(keys, shares[..n]);
      assert forall i :: 0 <= i < n ==> shares[..n][i] == shares[i];
    }
  }

  lemma IrrelevantChangesNothing(keys: Keys, o: Observed, f: Frame)
    requires !Kept(keys, f)
    ensures ReactToFrame(keys, o, f) == o
  {
    if f.parsed.Accepted? {
      LastOutputFound(keys, f.parsed.event.outputs);
      LastShareFound(keys, f.parsed.event.cudaShares);
    }
  }

  lemma {:induction false} FilterChangesNothing(keys: Keys, o: Observed, frames: seq<Frame>)
    ensures AfterFrames(keys, o, Filter(keys, frames)) == AfterFrames(keys, o, frames)
  {
    if frames != [] {
      var n := |frames| - 1;
      FilterChangesNothing(keys, o, frames[..n]);
      if Kept(keys, frames[n]) {
        AfterConcat(keys, o, Filter(keys, frames[..n]), [frames[n]]);
        var before := AfterFrames(keys, o, frames[..n]);
        assert [frames[n]][..0] == [];
        assert AfterFrames(keys, before, [frames[n]]) == ReactToFrame(keys, before, frames[n]);
      } else {
        IrrelevantChangesNothing(keys, AfterFrames(keys, o, frames[..n]), frames[n]);
        assert Filter(keys, frames) == Filter(keys, frames[..n]);
      }
    }
  }

  lemma {:induction false} FilterConcat(keys: Keys, a: seq<Frame>, b: seq<Frame>)
    ensures Filter(keys, a + b) == Filter(keys, a) + Filter(keys, b)
  {
    if b == [] {
      assert a + b == a;
    } else {
      var n := |b| - 1;
      assert (a + b)[..|a + b| - 1] == a + b[..n];
      FilterConcat(keys, a, b[..n]);
    }
  }

  lemma {:induction false} ConcatFiltered(keys: Keys, batches: seq<seq<Frame>>, k: nat)
    requires k <= |batches|
    ensures Concat(FilterAll(keys, batches)[..k]) == Filter(keys, Concat(batches[..k]))
  {
    if k > 0 {
      ConcatFiltered(keys, batches, k - 1);
      ConcatStep(batches, k - 1);
      ConcatStep(FilterAll(keys, batches), k - 1);
      FilterConcat(keys, Concat(batches[..k - 1]), batches[k - 1]);
    }
  }

  /** Removing every frame whose event does not match the configured keys (malformed ones included)
      changes neither the batch at which the wait returns nor the state it leaves. */
  lemma NonInterference(keys: Keys, transport: string, o: Observed, batches: seq<seq<Frame>>)
    ensures var n := StopAfter(keys, transport, o, batches, 0);
            && StopAfter(keys, transport, o, FilterAll(keys, batches), 0) == n
            && AfterFrames(keys, o, Concat(FilterAll(keys, batches)[..n])) == AfterFrames(keys, o, Concat(batches[..n]))
  {
    SameStop(keys, transport, o, batches, 0);
    var n := StopAfter(keys, transport, o, batches, 0);
    ConcatFiltered(keys, batches, n);
    FilterChangesNothing(keys, o, Concat(batches[..n]));
  }

  /** The entries for matching events. */
  function MatchNotes(notes: seq<Entry>): seq<Entry> {
    if notes == [] then []
    else
      var last := notes[|notes| - 1];
      MatchNotes(notes[..|notes| - 1]) + (if last.action == PARSE_ERROR then [] else [last])
  }

  lemma {:induction false} MatchNotesConcat(a: seq<Entry>, b: seq<Entry>)
    ensures MatchNotes(a + b) == MatchNotes(a) + MatchNotes(b)
  {
    if b == [] {
      NothingAfter(a);
      NothingAfter(MatchNotes(a));
    } else {
      var n := |b| - 1;
      assert (a + b)[..|a + b| - 1] == a + b[..n];
      MatchNotesConcat(a, b[..n]);
      Regroup(MatchNotes(a), MatchNotes(b[..n]), if b[n].action == PARSE_ERROR then [] else [b[n]]);
    }
  }

  lemma {:induction false} NoOutputNotes(scope: Scope, keys: Keys, outputs: seq<Output>)
    requires LastOutput(keys, outputs).None?
    ensures OutputNotes(scope, keys, outputs) == []
  {
    if outputs != [] {
      NoOutputNotes(scope, keys, outputs[..|outputs| - 1]);
    }
  }

  lemma {:induction false} NoShareNotes(scope: Scope, keys: Keys, shares: seq<Share>)
    requires LastShare(keys, shares).None?
    ensures ShareNotes(scope, keys, shares) == []
  {
    if shares != [] {
      NoShareNotes(scope, keys, shares[..|shares| - 1]);
    }
  }

  lemma OnlyErrorsOfOthers(scope: Scope, keys: Keys, f: Frame)
    requires !Kept(keys, f)
    ensures MatchNotes(FrameNotes(scope, keys, f)) == []
  {
    if f.parsed.Accepted? {
      var e := f.parsed.event;
      LastOutputFound(keys, e.outputs);
      LastShareFound(keys, e.cudaShares);
      if e.kind.OutputReady? {
        NoOutputNotes(scope, keys, e.outputs);
      }
      if e.kind.CudaShareStatus? {
        NoShareNotes(scope, keys, e.cudaShares);
      }
      MatchNotesConcat(EventNotes(scope, keys, e), ReceiptNotes(scope, e, f.parsed.ackError));
    }
  }

  /** Nor does it change what is logged of the matching events. */
  lemma {:induction false} FilterKeepsNotes(scope: Scope, keys: Keys, frames: seq<Frame>)
    ensures MatchNotes(Notes(scope, keys, Filter(keys, frames))) == MatchNotes(Notes(scope, keys, frames))
  {
    if frames != [] {
      var front, last := frames[..|frames| - 1], frames[|frames| - 1];
      FilterKeepsNotes(scope, keys, front);
      MatchNotesConcat(Notes(scope, keys, front), FrameNotes(scope, keys, last));
      if Kept(keys, last) {
        NotesConcat(scope, keys, Filter(keys, front), [last]);
        NotesOfOne(scope, keys, last);
        MatchNotesConcat(Notes(scope, keys, Filter(keys, front)), FrameNotes(scope, keys, last));
      } else {
        OnlyErrorsOfOthers(scope, keys, last);
        NothingAfter(Filter(keys, front));
        NothingAfter(MatchNotes(Notes(scope, keys, front)));
      }
    }
  }

  lemma NotesOfOne(scope: Scope, keys: Keys, f: Frame)
    ensures Notes(scope, keys, [f]) == FrameNotes(scope, keys, f)
  {
    NoGap(FrameNotes(scope, keys, f));
    assert [f][..0] == [];
  }

  lemma {:induction false} SameStop(keys: Keys, transport: string, o: Observed, batches: seq<seq<Frame>>, k: nat)
    requires k <= |batches|
    ensures StopAfter(keys, transport, o, FilterAll(keys, batches), k) == StopAfter(keys, transport, o, batches, k)
    decreases |batches| - k
  {
    if k < |batches| {
      ConcatFiltered(keys, batches, k + 1);
      FilterChangesNothing(keys, o, Concat(batches[..k + 1]));
      SameStop(keys, transport, o, batches, k + 1);
    }
  }

  // ----- a delivery that arrives -----

  predicate Succeeds(keys: Keys, f: Frame) {
    f.parsed.Accepted? && TerminalMatches(keys, f.parsed.event) && f.parsed.event.terminalStatus == "success"
  }

  /** The prompt succeeds, once or more often, and never ends otherwise. */
  ghost predicate OnlySucceeds(keys: Keys, frames: seq<Frame>) {
    && (exists f :: f in frames && Succeeds(keys, f))
    && forall f :: f in frames && f.parsed.Accepted? && TerminalMatches(keys, f.parsed.event) ==> Succeeds(keys, f)
  }

  /** What the transport waits for is announced, once or more often. */
  predicate Signalled(keys: Keys, transport: string, frames: seq<Frame>) {
    if transport == "cuda" then LastShare(keys, AllShares(frames)).Some? else LastOutput(keys, AllOutputs(frames)).Some?
  }

  lemma {:induction false} LastTerminalFound(keys: Keys, frames: seq<Frame>)
    ensures LastTerminal(keys, frames).Some? <==>
            exists f :: f in frames && f.parsed.Accepted? && TerminalMatches(keys, f.parsed.event)
    ensures LastTerminal(keys, frames).Some? ==>
              exists f :: f in frames && f.parsed.Accepted? && TerminalMatches(keys, f.parsed.event) &&
                          f.parsed.event == LastTerminal(keys, frames).value
  {
    if frames != [] {
      LastTerminalFound(keys, frames[..|frames| - 1]);
      assert forall f :: f in frames <==> f in frames[..|frames| - 1] || f == frames[|frames| - 1];
    }
  }

  lemma {:induction false} AnnouncedConcat(a: seq<Frame>, b: seq<Frame>)
    ensures AllOutputs(a + b) == AllOutputs(a) + AllOutputs(b)
    ensures AllShares(a + b) == AllShares(a) + AllShares(b)
  {
    if b == [] {
      NothingAfter(a);
      NothingAfter(AllOutputs(a));
      NothingAfter(AllShares(a));
    } else {
      var n := |b| - 1;
      assert (a + b)[..|a + b| - 1] == a + b[..n];
      AnnouncedConcat(a, b[..n]);
      Regroup(AllOutputs(a), AllOutputs(b[..n]), OutputsOf(b[n]));
      Regroup(AllShares(a), AllShares(b[..n]), SharesOf(b[n]));
    }
  }

  lemma {:induction false} BatchesSplit(batches: seq<seq<Frame>>, n: nat) returns (rest: seq<Frame>)
    requires n <= |batches|
    ensures Concat(batches) == Concat(batches[..n]) + rest
    decreases |batches| - n
  {
    if n == |batches| {
      assert batches[..n] == batches;
      rest := [];
    } else {
      ConcatStep(batches, n);
      var more := BatchesSplit(batches, n + 1);
      rest := batches[n] + more;
    }
  }

  /** From a prompt that only succeeds, an early return has seen the success and the signal. */
  lemma CompleteMeans(keys: Keys, transport: string, read: seq<Frame>)
    requires Complete(AfterFrames(keys, NOTHING, read), transport)
    requires forall f :: f in read && f.parsed.Accepted? && TerminalMatches(keys, f.parsed.event) ==> Succeeds(keys, f)
    ensures OnlySucceeds(keys, read) && Signalled(keys, transport, read)
  {
    FinalState(keys, read);
    LastTerminalFound(keys, read);
  }

  /** When a prompt only succeeds and what the transport waits for is announced, the wait ends with both: in any
      order, repeated or not, spread over any batches and among any other frames. */
  lemma BothAwaited(keys: Keys, transport: string, batches: seq<seq<Frame>>)
    requires OnlySucceeds(keys, Concat(batches)) && Signalled(keys, transport, Concat(batches))
    ensures var read := Concat(batches[..StopAfter(keys, transport, NOTHING, batches, 0)]);
            && OnlySucceeds(keys, read) && Signalled(keys, transport, read)
            && AllOutputs(read) <= AllOutputs(Concat(batches)) && AllShares(read) <= AllShares(Concat(batches))
  {
    var n := StopAfter(keys, transport, NOTHING, batches, 0);
    var read := Concat(batches[..n]);
    var rest := BatchesSplit(batches, n);
    AnnouncedConcat(read, rest);
    StopsAtFirstCompletion(keys, transport, NOTHING, batches, 0);
    if n == |batches| {
      assert batches[..n] == batches;
    } else {
      assert forall f :: f in read ==> f in Concat(batches);
      CompleteMeans(keys, transport, read);
    }
  }

  /** A prompt that only succeeds has a success as its last terminal. */
  lemma LastTerminalSucceeds(keys: Keys, frames: seq<Frame>)
    requires OnlySucceeds(keys, frames)
    ensures LastTerminal(keys, frames).Some? && LastTerminal(keys, frames).value.terminalStatus == "success"
  {
    LastTerminalFound(keys, frames);
  }
}
