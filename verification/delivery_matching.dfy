/** Which announcements the wait reacts to, in the fields of the events (delivery_event_sink.cpp). */
module DeliveryMatching {
  import opened Concatenation
  import opened Wrappers
  import opened FacadeTrace
  import opened DeliveryRun

  // ----- outputs -----

  /** The output is announced over the awaited transport, for no other prompt, and names the consumer. */
  predicate OwnOutput(keys: Keys, o: Output) {
    && o.transport == keys.transport
    && !(o.promptId != "" && keys.promptId != "" && o.promptId != keys.promptId)
    && keys.consumerId in {o.consumerId, o.name}
  }

  ghost predicate SomeOwnOutput(keys: Keys, outputs: seq<Output>) {
    exists i :: 0 <= i < |outputs| && OwnOutput(keys, outputs[i])
  }

  /** The last of the outputs that are the case's own. */
  ghost predicate IsLastOwnOutput(keys: Keys, outputs: seq<Output>, i: nat) {
    && i < |outputs| && OwnOutput(keys, outputs[i])
    && forall j :: i < j < |outputs| ==> !OwnOutput(keys, outputs[j])
  }

  lemma {:induction false} LastOwnOutput(keys: Keys, outputs: seq<Output>)
    ensures LastOutput(keys, outputs).None? <==> forall i :: 0 <= i < |outputs| ==> !OwnOutput(keys, outputs[i])
    ensures forall i: nat :: IsLastOwnOutput(keys, outputs, i) ==> LastOutput(keys, outputs) == Some(outputs[i])
  {
    if outputs != [] {
      var n := |outputs| - 1;
      LastOwnOutput(keys, outputs[..n]);
      assert OutputMatches(keys, outputs[n]) <==> OwnOutput(keys, outputs[n]);
      assert forall i :: 0 <= i < n ==> outputs[..n][i] == outputs[i];
      if !OwnOutput(keys, outputs[n]) {
        forall i: nat | IsLastOwnOutput(keys, outputs, i) ensures LastOutput(keys, outputs) == Some(outputs[i]) {
          assert IsLastOwnOutput(keys, outputs[..n], i);
        }
      }
    }
  }

  /** From a fresh state, the output signal is seen, and logged, exactly when some announced output is the case's own;
      the state then holds the last one of them. */
  lemma OutputSeenExactly(scope: Scope, keys: Keys, frames: seq<Frame>)
    ensures var s, all := AfterFrames(keys, NOTHING, frames), AllOutputs(frames);
            && (s.outputReady <==> SomeOwnOutput(keys, all))
            && (s.outputReady <==> LastResult(Notes(scope, keys, frames), OUTPUT_READY).Some?)
            && forall i: nat :: IsLastOwnOutput(keys, all, i) ==> s.output == Some(all[i])
  {
    FinalState(keys, frames);
    NotesTellState(scope, keys, frames);
    LastOwnOutput(keys, AllOutputs(frames));
  }

  // ----- shares -----

  predicate OwnShare(keys: Keys, s: Share) {
    keys.consumerId in {s.name, s.notchConsumerId}
  }

  ghost predicate SomeOwnShare(keys: Keys, shares: seq<Share>) {
    exists i :: 0 <= i < |shares| && OwnShare(keys, shares[i])
  }

  ghost predicate IsLastOwnShare(keys: Keys, shares: seq<Share>, i: nat) {
    && i < |shares| && OwnShare(keys, shares[i])
    && forall j :: i < j < |shares| ==> !OwnShare(keys, shares[j])
  }

  lemma {:induction false} LastOwnShare(keys: Keys, shares: seq<Share>)
    ensures LastShare(keys, shares).None? <==> forall i :: 0 <= i < |shares| ==> !OwnShare(keys, shares[i])
    ensures forall i: nat :: IsLastOwnShare(keys, shares, i) ==> LastShare(keys, shares) == Some(shares[i])
  {
    if shares != [] {
      var n := |shares| - 1;
      LastOwnShare(keys, shares[..n]);
      OwnShareMatches(keys, shares[n]);
      assert forall i :: 0 <= i < n ==> shares[..n][i] == shares[i];
      if !OwnShare(keys, shares[n]) {
        forall i: nat | IsLastOwnShare(keys, shares, i) ensures LastShare(keys, shares) == Some(shares[i]) {
          assert IsLastOwnShare(keys, shares[..n], i);
        }
      }
    }
  }

  lemma OwnShareMatches(keys: Keys, s: Share)
    ensures ShareMatches(keys, s) <==> OwnShare(keys, s)
  {
  }

  /** The same for shares. */
  lemma ShareSeenExactly(scope: Scope, keys: Keys, frames: seq<Frame>)
    ensures var s, all := AfterFrames(keys, NOTHING, frames), AllShares(frames);
            && (s.cudaStatus <==> SomeOwnShare(keys, all))
            && (s.cudaStatus <==> LastResult(Notes(scope, keys, frames), CUDA_SHARE_STATUS).Some?)
            && forall i: nat :: IsLastOwnShare(keys, all, i) ==> s.cudaShare == Some(all[i])
  {
    FinalState(keys, frames);
    NotesTellState(scope, keys, frames);
    LastOwnShare(keys, AllShares(frames));
  }

  // ----- terminals -----

  /** A terminal event that names the case's prompt, which has to be known. */
  predicate OwnTerminal(keys: Keys, f: Frame) {
    && f.parsed.Accepted? && f.parsed.event.kind == ExecutionTerminal
    && |keys.promptId| > 0 && f.parsed.event.promptId == keys.promptId
  }

  ghost predicate IsLastOwnTerminal(keys: Keys, frames: seq<Frame>, i: nat) {
    && i < |frames| && OwnTerminal(keys, frames[i])
    && forall j :: i < j < |frames| ==> !OwnTerminal(keys, frames[j])
  }

  lemma {:induction false} LastOwnTerminal(keys: Keys, frames: seq<Frame>)
    ensures LastTerminal(keys, frames).None? <==> forall i :: 0 <= i < |frames| ==> !OwnTerminal(keys, frames[i])
    ensures forall i: nat :: IsLastOwnTerminal(keys, frames, i) ==>
              LastTerminal(keys, frames) == Some(frames[i].parsed.event)
  {
    if frames != [] {
      var n := |frames| - 1;
      LastOwnTerminal(keys, frames[..n]);
      assert forall i :: 0 <= i < n ==> frames[..n][i] == frames[i];
      if !OwnTerminal(keys, frames[n]) {
        forall i: nat | IsLastOwnTerminal(keys, frames, i) ensures LastTerminal(keys, frames) ==
            Some(frames[i].parsed.event)
        {
          assert IsLastOwnTerminal(keys, frames[..n], i);
        }
      }
    }
  }

  /** The terminal fields are those of the last terminal event of the case's prompt, and nothing is seen without one. */
  lemma TerminalSeenExactly(scope: Scope, keys: Keys, frames: seq<Frame>)
    ensures var s := AfterFrames(keys, NOTHING, frames);
            && ((forall i :: 0 <= i < |frames| ==> !OwnTerminal(keys, frames[i])) ==>
                  s.terminalType == "" && !s.terminalSuccess)
            && forall i: nat :: IsLastOwnTerminal(keys, frames, i) ==>
                 && s.terminalType == frames[i].parsed.event.typeName
                 && (s.terminalSuccess <==> frames[i].parsed.event.terminalStatus == "success")
  {
    FinalState(keys, frames);
    LastOwnTerminal(keys, frames);
  }

  // ----- when the wait returns -----

  /** What the transport waits for was announced for the case. */
  ghost predicate Announced(keys: Keys, transport: string, frames: seq<Frame>) {
    if transport == "cuda" then SomeOwnShare(keys, AllShares(frames)) else SomeOwnOutput(keys, AllOutputs(frames))
  }

  /** The loop may return: the last terminal of the prompt failed, or it succeeded and what the transport waits for was
      announced. */
  ghost predicate MayReturn(keys: Keys, transport: string, frames: seq<Frame>) {
    exists i: nat :: IsLastOwnTerminal(keys, frames, i) &&
      if frames[i].parsed.event.terminalStatus != "success" then frames[i].parsed.event.typeName != ""
      else Announced(keys, transport, frames)
  }

  lemma {:induction false} SomeLastTerminal(keys: Keys, frames: seq<Frame>) returns (i: nat)
    requires exists k :: 0 <= k < |frames| && OwnTerminal(keys, frames[k])
    ensures IsLastOwnTerminal(keys, frames, i)
  {
    i := |frames| - 1;
    if !OwnTerminal(keys, frames[i]) {
      var k :| 0 <= k < |frames| && OwnTerminal(keys, frames[k]);
      assert frames[..i][k] == frames[k];
      i := SomeLastTerminal(keys, frames[..i]);
    }
  }

  lemma AnnouncedMeans(keys: Keys, transport: string, frames: seq<Frame>)
    ensures var s := AfterFrames(keys, NOTHING, frames);
            Announced(keys, transport, frames) <==> if transport == "cuda" then s.cudaStatus else s.outputReady
  {
    OutputSeenExactly(Scope("", ""), keys, frames);
    ShareSeenExactly(Scope("", ""), keys, frames);
  }

  lemma ReturnsExactly(keys: Keys, transport: string, frames: seq<Frame>)
    ensures Complete(AfterFrames(keys, NOTHING, frames), transport) <==> MayReturn(keys, transport, frames)
  {
    TerminalSeenExactly(Scope("", ""), keys, frames);
    AnnouncedMeans(keys, transport, frames);
    if exists k :: 0 <= k < |frames| && OwnTerminal(keys, frames[k]) {
      var i := SomeLastTerminal(keys, frames);
      ReturnsAt(keys, transport, frames, i);
    }
  }

  lemma ReturnsAt(keys: Keys, transport: string, frames: seq<Frame>, i: nat)
    requires IsLastOwnTerminal(keys, frames, i)
    ensures MayReturn(keys, transport, frames) <==>
            if frames[i].parsed.event.terminalStatus != "success" then frames[i].parsed.event.typeName != ""
            else Announced(keys, transport, frames)
  {
    forall j: nat | IsLastOwnTerminal(keys, frames, j) ensures j == i {
    }
  }

  /** The wait of a fresh state ends with the first batch behind which it may return, and else with the last one. */
  lemma WaitEnds(keys: Keys, transport: string, batches: seq<seq<Frame>>)
    ensures var n := StopAfter(keys, transport, NOTHING, batches, 0);
            && (forall m :: 0 < m < n ==> !MayReturn(keys, transport, Concat(batches[..m])))
            && (n < |batches| ==> 0 < n && MayReturn(keys, transport, Concat(batches[..n])))
  {
    StopsAtFirstCompletion(keys, transport, NOTHING, batches, 0);
    forall m | 0 <= m <= |batches|
      ensures Complete(AfterFrames(keys, NOTHING, Concat(batches[..m])), transport) <==>
              MayReturn(keys, transport, Concat(batches[..m]))
    {
      ReturnsExactly(keys, transport, Concat(batches[..m]));
    }
  }

  // ----- errors -----

  /** What parsing or acknowledging the frame fails with. */
  function FailureOf(f: Frame): seq<string> {
    match f.parsed
    case Malformed(error) => [error]
    case Accepted(e, ackError) => if e.receipt.Some? && ackError.Some? then [ackError.value] else []
  }

  function Failures(frames: seq<Frame>): seq<string> {
    if frames == [] then [] else Failures(frames[..|frames| - 1]) + FailureOf(frames[|frames| - 1])
  }

  /** The messages of the entries for errors. */
  function ErrorMessages(notes: seq<Entry>): seq<string> {
    if notes == [] then []
    else
      var last := notes[|notes| - 1];
      ErrorMessages(notes[..|notes| - 1]) + (if last.action == "event.parse_error" then [last.error] else [])
  }

  lemma {:induction false} ErrorMessagesConcat(a: seq<Entry>, b: seq<Entry>)
    ensures ErrorMessages(a + b) == ErrorMessages(a) + ErrorMessages(b)
  {
    if b == [] {
      NothingAfter(a);
      NothingAfter(ErrorMessages(a));
    } else {
      var n := |b| - 1;
      assert (a + b)[..|a + b| - 1] == a + b[..n];
      ErrorMessagesConcat(a, b[..n]);
      Regroup(ErrorMessages(a), ErrorMessages(b[..n]), if b[n].action == "event.parse_error" then [b[n].error] else []);
    }
  }

  lemma {:induction false} NoErrorsInOutputs(scope: Scope, keys: Keys, outputs: seq<Output>)
    ensures ErrorMessages(OutputNotes(scope, keys, outputs)) == []
  {
    if outputs != [] {
      ActionsDiffer();
      NoErrorsInOutputs(scope, keys, outputs[..|outputs| - 1]);
      NothingAfter(OutputNotes(scope, keys, outputs[..|outputs| - 1]));
    }
  }

  lemma {:induction false} NoErrorsInShares(scope: Scope, keys: Keys, shares: seq<Share>)
    ensures ErrorMessages(ShareNotes(scope, keys, shares)) == []
  {
    if shares != [] {
      ActionsDiffer();
      NoErrorsInShares(scope, keys, shares[..|shares| - 1]);
      NothingAfter(ShareNotes(scope, keys, shares[..|shares| - 1]));
    }
  }

  lemma ErrorsOfFrame(scope: Scope, keys: Keys, f: Frame)
    ensures ErrorMessages(FrameNotes(scope, keys, f)) == FailureOf(f)
  {
    ActionsDiffer();
    if f.parsed.Accepted? {
      var e := f.parsed.event;
      NoErrorsInOutputs(scope, keys, e.outputs);
      NoErrorsInShares(scope, keys, e.cudaShares);
      assert ErrorMessages(EventNotes(scope, keys, e)) == [];
      ErrorMessagesConcat(EventNotes(scope, keys, e), ReceiptNotes(scope, e, f.parsed.ackError));
    }
  }

  /** Every failure to parse or to acknowledge is logged once, in order, and nothing else is logged as an error. */
  lemma {:induction false} ErrorsAreLogged(scope: Scope, keys: Keys, frames: seq<Frame>)
    ensures ErrorMessages(Notes(scope, keys, frames)) == Failures(frames)
  {
    if frames != [] {
      var front, last := frames[..|frames| - 1], frames[|frames| - 1];
      ErrorsAreLogged(scope, keys, front);
      ErrorsOfFrame(scope, keys, last);
      ErrorMessagesConcat(Notes(scope, keys, front), FrameNotes(scope, keys, last));
    }
  }
}
