# Verified model of the Notch conformance harness

The harness drives a ComfyUI extension through its protocol, decides for every case whether it passed, and
leaves files that a report is built from. Its verdicts rest on algorithms it writes by hand: a SHA-256, a JSON
text layer, protocol ranges, transport negotiation, an event loop, a case generator, and a report builder. This
project models those algorithms in Dafny and proves what they are for.

`dafny verify dfyconfig.toml` checks everything.

## How the model is built

| file | models |
|---|---|
| `sha256_spec.dfy`, `sha256.dfy`, `sha256_answers.dfy` | FIPS 180-4 as recursive functions, the in-place implementation refined against them, and the standard's one-block example |
| `json_text.dfy`, `structural_check.dfy`, `pretty_print.dfy`, `pretty_lines.dfy` | string-literal state, the structural check and its grammar, the streaming pretty-printer and the lines it prints |
| `json_value.dfy`, `writer_forms.dfy`, `case_log.dfy` | JSON values with their writers and one decoder, what the writers write, `Quote`/`Array` |
| `case_files.dfy`, `run_records.dfy`, `facade_log.dfy`, `log_members.dfy` | the logger, the recorder with its totals and whole runs, the trace of the client facade, and the members of what they log |
| `script_json.dfy`, `script_undo.dfy`, `script_values.dfy` | the report payload escaped for a script element, the documented way back, and equality of values |
| `service_text.dfy`, `protocol_range.dfy`, `range_grammar.dfy`, `transports.dfy`, `transport_order.dfy` | trimming and splitting, version ranges with their grammar, transport selection and its order |
| `delivery_cases.dfy`, `delivery_grid.dfy`, `delivery_run.dfy`, `delivery_matching.dfy`, `case_verdicts.dfy`, `verdict_order.dfy` | the case generator, the wait loop with its event sink, the verdicts, and for each what it comes to in plain names and fields |
| `verifiers.dfy`, `delivered_bytes.dfy`, `file_delivery.dfy`, `cuda_delivery.dfy`, `share_contents.dfy` | the verifiers with the bytes they accept, and whole delivery cases from negotiation to verdict |
| `delivery_suite.dfy`, `phase_trials.dfy` | a delivery phase: every generated case run, recorded and counted, and what is run with what |
| `cuda_probe.dfy`, `frame_pattern.dfy` | the probe's hash and patterns, the image patterns |
| `job_modes.dfy`, `discover_jobs.dfy`, `job_dirs.dfy`, `transfer_benchmarks.dfy`, `benchmark_figures.dfy`, `prompt_attribution.dfy`, `report_order.dfy` | the report: the search for job directories and their modes, the grouping of measurements with its figures, the attribution of diagnostics with its panels |
| `step_table.dfy`, `step_marks.dfy` | the aligner of action steps, its marks and cells |
| `wrappers.dfy`, `case_outcome.dfy`, `string_order.dfy`, `characters.dfy`, `stable_sort.dfy`, `selection.dfy`, `bytes.dfy`, `arithmetic.dfy`, `concatenation.dfy` | shared vocabulary and small lemmas |

Code that changes things step by step stays imperative: loops over strings and buffers are methods with
invariants, fixed buffers are arrays, and the logger, summary, recorder, facade log, run state, event sink and delivery
context are classes. Each method is tied to a function of its inputs or of the old state, and the properties are proved
about that function. The lemmas named `…Exactly`, `…Means` and `…Picked` say what such a function comes to without
the functions it is built from: in codes and positions of characters, fields of events, names of transports, or the
order in which elements are kept (`selection.dfy`).

Conventions of the model:

* Text and bytes of text are `char`s; a C++ `char` and a code point are not distinguished. `Quote` and the
  pretty-printer treat every byte above 127 alike, so nothing is lost on UTF-8. Lone surrogates, which a Python string
  can hold, are not characters here.
* A JSON number, `true`, `false` and `null` is an uninterpreted `Atom`, a non-empty run of characters that none of
  the scanners reacts to. That admits `NaN` and `Infinity`, which `json.dumps` writes for such floats and a browser's
  `JSON.parse` refuses; the decoder of the model reads them. The JSON fragments that callers put into a record are values, not raw text.
* `Quote` escapes `"`, `\`, and the three line controls only, so round trips are stated against the matching decoder
  and say nothing about conformance of its output to RFC 8259.
* Integers of versions are unbounded. The 64-bit hash of the probe is arithmetic modulo 2^64 on integers; SHA-256
  works on 32-bit words.
* The client codec is opaque: a frame carries what parsing it yields, and an event carries whether its
  acknowledgement fails. The deadline of the wait loop is the end of an arbitrary list of batches.
* `case_verdicts.dfy` judges a record of facts and holds for every combination of them. `file_delivery.dfy` and
  `cuda_delivery.dfy` compute these facts from the capability lists, the received frames and the retrieved bytes, so
  that only the outside world is a parameter: what the server answers, what files, fetches and shares hold.
* The event log is any interleaving of lines passed to `Event` with case lines. The records, totals and case files are
  invariant under all of them.
* The fields of a diagnostics record are texts, and a missing one is empty.
* Durations are exact (`real`), while the report adds Python floats. What the proofs say of averages, of `first` and
  `nextSeven`, and of the median between the extremes is about exact arithmetic; rounding can break it by an ulp. What
  does not depend on rounding is `OrderDoesNotMatter`.
* A directory tree is finite and lists its subdirectories by name.

## What the proofs found

* The docstring of `json_for_script` says that replacing `\u003c` back to `<` yields the original document. The function
  also escapes U+2028 and U+2029, so what the replacement returns is that document exactly when no string and no key of
  the payload contains the six characters `\u003c` or one of the two separators (`UndoingIsExact`). It still decodes to
  the payload exactly when none contains the six characters, and otherwise is no JSON at all (`UndoneDecodes`);
  `UndoingFails` has an input for each. Decoding without the replacement always recovers the payload
  (`ScriptRoundTrip`, with the model's decoder, which also reads `NaN` and `Infinity`).
* The comment in `delivery_types.h` counts 21 cases for the local topology and 15 for the others. The code generates
  28 and 22 (`CaseCount`).
* The range gate answers yes for `>a.b.c` against `<a.b.(c+1)`, and for an unset lower bound against `<0.0.0`, although no
  version satisfies both. Between valid ranges these are its only wrong answers (`IntersectsExactly`, `GateIsExact`;
  `HollowFamily`, `BelowFirstFamily` for the inputs).
* List entries are trimmed and what is requested is not. A required transport is honoured exactly when it has no space
  at either end and its cleaned name is on all three lists (`HardRequestExactly`), and a padded preference is passed over
  as if it were not there (`PaddedPreferenceIgnored`); `PaddedNamesFail` and `PaddedHttpFails` have the inputs.
* The step script compares sums, and is wrong in both directions (`RightExactly`). It lets a missing step pass exactly
  when as many counts are missing as there are too many (`MissingStepPasses`). It rejects steps none of which is missing,
  naming the empty set, exactly when some are counted too often, such as one with both marks (`MarkedStepIsRejected`).
* A record of the diagnostics stream is shown neither for the job nor for a case that names its prompt exactly when such
  cases exist and either the record is an event without a name, of which a summary keeps nothing, or each of these cases
  has diagnostics of its own that do not repeat the record's event or warning (`LostExactly`; `LostRecord` and
  `NamelessRecord` for the inputs). The count of a summary includes what it does not show (`SummaryAccounts`).
* The structural check is blind to the kind of a bracket and accepts any text after the first value as long as that
  text's own brackets and quotes balance (`AcceptedWithoutValue`); `AcceptedIsBalanced` states precisely which texts it accepts.
* A job directory without a recorded profile whose name shows two modes gets the one that comes first among the labels,
  wherever it stands in the name (`ModeExactly`, `NamesReadBack`).

## Model

| member | source | states |
|---|---|---|
| Sha256Impl.Sha256Raw | mock_client/src/hash_utils.cpp:59-144 | the in-place algorithm returns the FIPS 180-4 digest in hexadecimal, for every byte sequence |
| Sha256Impl.BuildMessage | mock_client/src/hash_utils.cpp:72-86 | the growing message ends as the padded message of section 5.1.1; the padding loop terminates |
| Sha256Impl.AppendZeros | mock_client/src/hash_utils.cpp:78-82 | the padding loop terminates after the least number of zero bytes that leaves eight bytes free |
| Sha256Impl.FillSchedule | mock_client/src/hash_utils.cpp:90-102 | the 64-word array holds the message schedule of section 6.2.2 |
| Sha256Impl.RunRounds | mock_client/src/hash_utils.cpp:104-125 | eight rolling registers compute the 64 rounds |
| Sha256Impl.CompressBlock | mock_client/src/hash_utils.cpp:127-134 | the chaining words updated in place are the compression of the old ones with the block |
| Sha256Impl.HashMessage | mock_client/src/hash_utils.cpp:61-135 | the block loop folds the compression over all blocks from the initial words |
| Sha256Impl.HexDigest | mock_client/src/hash_utils.cpp:137-143 | the stream loop prints the hexadecimal digits of all words in order |
| Sha256Impl.PadLength | mock_client/src/hash_utils.cpp:78-86 | the padded length is the smallest multiple of 64 that is at least the length plus nine |
| Sha256Impl.LengthFieldDecodes | mock_client/src/hash_utils.cpp:77-86 | the last eight bytes decode to eight times the length, below 2^61 bytes |
| Sha256Impl.PaddingIsSuffixFree | mock_client/src/hash_utils.cpp:72-86 | no padded message ends with another message's padding; padding is injective |
| Sha256Impl.WalkBack | mock_client/src/hash_utils.cpp:88-135 | equal chaining values mean a collision of the compression function or equal trailing blocks |
| Sha256Impl.EqualDigests | mock_client/src/hash_utils.cpp:59-144 | messages with equal digests are equal unless their own chains contain a collision of the compression function |
| Sha256Impl.HexReadsBack | mock_client/src/hash_utils.cpp:137-143 | the eight digits printed for a word read back as the word |
| Sha256Impl.HexAllInjective | mock_client/src/hash_utils.cpp:137-143 | the digest text determines the hash words |
| Sha256Spec.RotrRotates | mock_client/src/hash_utils.cpp:13-16 | shifting both ways and joining is rotation for every amount in use |
| Sha256Spec.ChoosesByX | mock_client/src/hash_utils.cpp:18-21 | Ch takes y's bits where x has ones and z's elsewhere |
| Sha256Spec.MajorityAgreed | mock_client/src/hash_utils.cpp:23-26 | Maj takes the common bits of x and y |
| Sha256Spec.MajorityDecided | mock_client/src/hash_utils.cpp:23-26 | Maj takes z's bits where x and y differ |
| Sha256Spec.RoundConstantsAreCubeRoots | mock_client/src/hash_utils.cpp:48-57 | each round constant is the first 32 fractional bits of the cube root of its prime, as section 4.2.2 of FIPS 180-4 demands |
| Sha256Spec.InitialWordsAreSquareRoots | mock_client/src/hash_utils.cpp:61-70 | each initial word comes from the square root of its prime, as section 5.3.3 demands |
| Sha256Answers.DigestOfAbc | mock_client/src/hash_utils.cpp:59-144 | the one-block example of FIPS 180-4: the digest of "abc", computed through schedule, rounds and printing |
| Sha256Answers.NextWordOf | mock_client/src/hash_utils.cpp:99-102 | each later word of a schedule is made of the words 2, 7, 15 and 16 places before it, as section 6.2.2 demands |
| Sha256Answers.Wiring | mock_client/src/hash_utils.cpp:113-124 | a round computes the first and fifth working variable and moves the other six on by one place |
| StructuralCheck.ValidateJson | mock_client/src/verify/verify_structural.cpp:62-121 | the loop's answer and note, including which of the three refusals applies |
| StructuralCheck.AcceptedIsBalanced | mock_client/src/verify/verify_structural.cpp:62-121 | accepted if and only if the text is blanks and then a word of an inductive balanced grammar that begins with a group |
| StructuralCheck.EarlyCloseIsSurplus | mock_client/src/verify/verify_structural.cpp:102-111 | refused for an early close if and only if a balanced word is followed by a closing bracket nothing opened |
| StructuralCheck.ReadForest | mock_client/src/verify/verify_structural.cpp:75-113 | every scan that is not left unfinished has a reading in the grammar, with the depth it ends at |
| StructuralCheck.KindBlind | mock_client/src/verify/verify_structural.cpp:100-120 | a group closed by the other kind of bracket, and a second value, are accepted |
| StructuralCheck.ScanForest | mock_client/src/verify/verify_structural.cpp:75-113 | the counter comes back from every word of the grammar at the depth it entered it |
| Characters.BlankExactly | mock_client/src/verify/verify_structural.cpp:62-73 | the blanks and brackets of JSON by their codes |
| PrettyPrinter.PrettyPrint | mock_client/src/case_logger.cpp:166-249 | the loop with its string, escape and indent state prints the specified turns |
| PrettyPrinter.PrettyKeepsStripped | mock_client/src/case_logger.cpp:166-249 | only blanks outside string literals change |
| PrettyPrinter.PrettyIsIdempotent | mock_client/src/case_logger.cpp:166-249 | printing the printed text changes nothing, on every text |
| PrettyPrinter.PrettyIsBounded | mock_client/src/case_logger.cpp:166-249 | at most 130 characters for each input character, unbalanced input included |
| PrettyPrinter.PrettyKeepsVerdict | mock_client/src/case_logger.cpp:166-249 | the separately written structural check answers the same, with the same reason, before and after printing |
| PrettyPrinter.QuotedVerbatim | mock_client/src/case_logger.cpp:182-201 | text that stays inside a literal is copied verbatim |
| PrettyPrinter.PrettyIsLayout | mock_client/src/case_logger.cpp:166-249 | on every accepted text the output is the layout defined by the text's structure, one level a group |
| PrettyLines.PrettyIsLaid | mock_client/src/case_logger.cpp:166-249 | for every text: outside literals each printed line is indented by two spaces for each open group, up to 64 groups, lines break behind commas and open brackets and before closing ones, a colon is followed by one space, and there are no other blanks |
| JsonValue.DecodeRendered | mock_client/src/case_logger.cpp:251-290 | decoding any of the four writers' texts gives the value back |
| JsonValue.ReadRendered | mock_client/src/case_logger.cpp:251-290 | the same in front of arbitrary following text |
| WriterForms.RenderedIsSpaced | mock_client/src/case_logger.cpp:277-290 | outside literals compact text has no blanks, and the report's text exactly one space behind each comma and colon |
| WriterForms.ShortEscapes | mock_client/src/case_logger.cpp:251-270 | the characters that are written with a backslash and a letter, by their codes |
| WriterForms.OtherCharacters | scripts/build_diagnostics_report.py:51-56 | every other character stands for itself, except the ones written by their code, with four hexadecimal digits |
| CaseLog.Quote | mock_client/src/case_logger.cpp:251-270 | the loop returns the quoted text that the decoder inverts |
| CaseLog.QuoteRoundTrip | mock_client/src/case_logger.cpp:251-270 | quoting has a left inverse on all strings, emits no raw line break and is copied verbatim by the pretty-printer |
| CaseLog.EncodedStaysQuoted | mock_client/src/case_logger.cpp:251-270 | scanning a quoted text leaves the literal at its last character and not before |
| CaseLog.Array | mock_client/src/case_logger.cpp:277-290 | the loop returns the compact array of the quoted texts |
| CaseLog.ArrayInjective | mock_client/src/case_logger.cpp:277-290 | different lists give different arrays, and the structural check accepts every one |
| CaseLog.RenderedIsAccepted | mock_client/src/verify/verify_structural.cpp:62-121 | the check accepts every object and array any writer renders |
| CaseLog.PrettyRendered | mock_client/src/case_logger.cpp:166-249 | pretty-printing compact text gives the indented text of the same value, at any depth |
| CaseLog.PrettyKeepsValue | mock_client/src/case_logger.cpp:166-249 | the pretty-printed document decodes to the value that was written, and the structural check answers for it as for the compact one |
| CaseLog.AcceptedWithoutValue | mock_client/src/verify/verify_structural.cpp:62-121 | two texts that the structural check accepts and no decoder reads |
| CaseFiles.CaseLogger.Event | mock_client/src/case_logger.cpp:65-69 | one line is appended to the event log, and case files, records and the logger's invariant stay |
| CaseFiles.CaseLogger.WriteCase | mock_client/src/case_logger.cpp:80-118 | the log, the case file and the list of records after writing a record, with the fields present exactly when set |
| CaseFiles.OnOneLine | mock_client/src/case_logger.cpp:65-118 | compact text holds no line break |
| CaseFiles.LogSplits | mock_client/src/case_logger.cpp:65-69 | a log of lines without line breaks splits back into exactly these lines |
| CaseFiles.CaseFileDecodes | mock_client/src/case_logger.cpp:80-118 | case.json decodes to the record and passes the structural check |
| LogMembers.MembersOfCase | mock_client/src/case_logger.cpp:80-118 | the names and values of a record's members, in order, with those present that are set |
| RunRecords.CaseRecorder.Record | mock_client/src/matrix.cpp:260-279 | numbers, counts and writes a record and keeps the recorder's invariant, whatever else the log holds |
| RunRecords.CaseRecorder.Totals | mock_client/src/matrix.cpp:260-285 | after any sequence of records the four totals sum to the last index, and Ok holds exactly when setup succeeded and no record failed or errored |
| RunRecords.CaseRecorder.Evidence | mock_client/src/matrix.cpp:260-285 | the log splits into the lines that were written; its case lines are exactly the records, in order, and decode to them, and so do the case files |
| RunRecords.Run | mock_client/src/matrix.cpp:2222-2319 | any run, logging JSON objects, finishing cases and giving up its setup in any order: each line of the event log decodes to what that step wrote, and the recorder's invariant holds of the finished cases |
| LogMembers.RecordsPicked | mock_client/src/matrix.cpp:260-279 | the records of a run are those of its finished cases, in order and numbered from one |
| LogMembers.ValuesPicked | mock_client/src/case_logger.cpp:65-118 | the log of a run holds the logged values and the finished records, in order |
| LogMembers.CodeIsLast | mock_client/src/matrix.cpp:2222-2319 | the setup code of a run is the last one it was given up with |
| LogMembers.TotalsExactly | mock_client/src/matrix.cpp:260-285 | the totals are the numbers of records that say pass, fail and skip, and of all others |
| FacadeTrace.FacadeLog.Action | mock_client/src/facade_log.cpp:19-53 | an action appends its one line to the event log, with the fields present exactly when given, and its line to the readable trace, and leaves records and case files alone |
| FacadeTrace.EntryDecodes | mock_client/src/facade_log.cpp:19-39 | the line of an action is one line and decodes to its phase, case, action, fields, result and error |
| LogMembers.MembersOfEntry | mock_client/src/facade_log.cpp:19-39 | the names and values of an entry's members, in order |
| LogMembers.LineOfEntry | mock_client/src/facade_log.cpp:41-52 | the line of the readable trace, with fields and error where they are given |
| LogMembers.MembersOfNotes | mock_client/src/delivery_event_sink.cpp:29-81 | the entries for announced outputs and shares and for unreadable frames |
| LogMembers.MembersOfTerminal | mock_client/src/delivery_event_sink.cpp:63-71 | the entry for the end of the case's prompt |
| LogMembers.OutputsNoted | mock_client/src/delivery_event_sink.cpp:30-46 | the matching outputs of an event are logged one by one, in order |
| LogMembers.SharesNoted | mock_client/src/delivery_event_sink.cpp:48-61 | and so are its matching shares |
| ScriptJson.ScriptRoundTrip | scripts/build_diagnostics_report.py:41-57 | decoding the escaped document gives the payload with sorted keys |
| ScriptJson.ScriptIsSafe | scripts/build_diagnostics_report.py:41-57 | the escaped document contains no `<`, U+2028 or U+2029 |
| ScriptJson.ReplacementsInOnePass | scripts/build_diagnostics_report.py:52-56 | the three replacements do not disturb one another |
| ScriptJson.SortingKeepsDictionary | scripts/build_diagnostics_report.py:51 | sorting keeps every key and value and lists the keys in order |
| ScriptValues.ReaderGetsPayload | scripts/build_diagnostics_report.py:41-57 | what a reader of the script element decodes is the payload, with arrays equal position by position and objects key by key at every depth, and its keys in order |
| ScriptValues.AlikeByPosition | scripts/build_diagnostics_report.py:51 | two lists are alike exactly when they have the same length and are alike at every position |
| ScriptUndo.UndoRestoresExactly | scripts/build_diagnostics_report.py:48-52 | for any text, replacing the escape back restores it if and only if the text did not contain the escape |
| ScriptUndo.UndoneDecodes | scripts/build_diagnostics_report.py:41-57 | with the escape replaced back, the function's result decodes to the payload if and only if no string or key contains the escape, and otherwise not at all |
| ScriptValues.UndoneGivesPayload | scripts/build_diagnostics_report.py:41-57 | the same of the result with the escape replaced back, where no string or key contains it |
| ScriptUndo.UndoingIsExact | scripts/build_diagnostics_report.py:41-57 | the way back from the function's result gives the dumped document if and only if no string or key contains the escape, U+2028 or U+2029 |
| ScriptUndo.UndoingFails | scripts/build_diagnostics_report.py:41-57 | a payload whose result decodes no more, and one whose document is not restored |
| ProtocolRange.ParseSemVer | mock_client/src/service_shim.cpp:91-117 | the cursor code accepts exactly three dotted numbers before a suffix and returns them |
| ProtocolRange.ParseRangePart | mock_client/src/service_shim.cpp:184-233 | a part is folded into the interval when it reads as a comparator, and leaves it alone otherwise |
| ProtocolRange.ParseProtocolRange | mock_client/src/service_shim.cpp:235-256 | the loop over commas yields the interval of all comparators, or invalid when one of them is malformed |
| ProtocolRange.ProtocolRangesIntersect | mock_client/src/service_shim.cpp:258-284 | the gate's answer as a function of the two texts |
| ProtocolRange.Compare | mock_client/src/service_shim.cpp:119-134 | the sign of the comparison is the lexicographic order of versions |
| ProtocolRange.NarrowAdmits | mock_client/src/service_shim.cpp:184-256 | the interval contains a version if and only if every comparator admits it |
| ProtocolRange.NarrowIsTightest | mock_client/src/service_shim.cpp:136-182 | each bound is the tightest one and comes from a comparator |
| ProtocolRange.OrderIsIrrelevant | mock_client/src/service_shim.cpp:235-256 | order and repetition of comparators do not matter |
| ProtocolRange.RangeContains | mock_client/src/service_shim.cpp:235-256 | for a range text, containment is admission by each comma-separated comparator |
| ProtocolRange.VersionRoundTrip | mock_client/src/service_shim.cpp:72-117 | a written version, with or without suffix, parses back |
| ProtocolRange.PartRoundTrip | mock_client/src/service_shim.cpp:184-233 | a comparator is read from any spelling of its sign, spacing and version suffix |
| ProtocolRange.JoinedRange | mock_client/src/service_shim.cpp:235-256 | comparators joined by commas are a valid range that means all of them, and one bad part makes it invalid |
| ProtocolRange.IntersectSymmetric | mock_client/src/service_shim.cpp:258-284 | the gate does not depend on which side is asked |
| ProtocolRange.IntersectsExactly | mock_client/src/service_shim.cpp:258-284 | yes if and only if a common version exists or the merged bounds are hollow, and never both |
| ProtocolRange.GateIsExact | mock_client/src/service_shim.cpp:258-284 | for texts, the answer is whether one version satisfies both ranges if and only if the merged bounds are not hollow |
| ProtocolRange.HollowFamily | mock_client/src/service_shim.cpp:258-284 | for every version, the range above it and the range below the next patch are called compatible, though no version satisfies both |
| ProtocolRange.BelowFirstFamily | mock_client/src/service_shim.cpp:258-284 | for every version, the range below it and the range below 0.0.0 are called compatible, though no version satisfies both |
| RangeGrammar.VersionExactly | mock_client/src/service_shim.cpp:91-117 | a text is read as a version if and only if it is three numbers with dots between them and nothing or a signed suffix behind, each number counting its digits by their places |
| RangeGrammar.PartExactly | mock_client/src/service_shim.cpp:184-233 | a part is read as a comparator if and only if it is a sign or none and a version, with spaces around them |
| RangeGrammar.OrderIsPositional | mock_client/src/service_shim.cpp:119-134 | versions are ordered as the numbers are whose digits they are, in any large enough base |
| RangeGrammar.SignsMean | mock_client/src/service_shim.cpp:184-233 | which versions each of the written signs admits, as a comparison of these numbers |
| RangeGrammar.HollowExactly | mock_client/src/service_shim.cpp:258-284 | the bounds on which the gate errs are those that are in order with no version between them |
| Characters.TrimExactly | mock_client/src/service_shim.cpp:42-55 | trimming takes spaces off both ends and leaves none there |
| Characters.SpaceExactly | mock_client/src/service_shim.cpp:42-55 | the six spaces by their codes |
| Characters.LowerExactly | mock_client/src/service_shim.cpp:62-70 | which characters lower-casing moves, and by how much |
| Transports.NormalizeTransportSet | mock_client/src/service_shim.cpp:342-354 | the loop keeps each cleaned non-empty name at its first occurrence |
| Transports.NormalizedMembers | mock_client/src/service_shim.cpp:342-354 | no duplicates, and exactly the names listed up to spaces and case |
| Transports.SelectOutputTransport | mock_client/src/service_shim.cpp:435-478 | the decision with its usable set and failure as a function of the request |
| Transports.UsableIsIntersection | mock_client/src/service_shim.cpp:439-443 | usable transports are, without duplicates, the names on all three lists |
| Transports.HardRequest | mock_client/src/service_shim.cpp:445-478 | a hard request is honoured if and only if its lower-cased name is on all three lists, and then with that name only |
| Transports.HardRequestMonotone | mock_client/src/service_shim.cpp:445-478 | longer lists never withdraw an honoured hard request |
| Transports.HardRequestExactly | mock_client/src/service_shim.cpp:445-478 | a hard request is honoured if and only if it is not padded and its cleaned name is on all three lists |
| Transports.UsableAsWritten | mock_client/src/service_shim.cpp:439-463 | the same for any name that is looked up as it is written |
| Transports.PaddedPreferenceIgnored | mock_client/src/service_shim.cpp:460-468 | a padded preference can be left out without changing the decision |
| Transports.PaddedNamesFail | mock_client/src/service_shim.cpp:445-478 | requests that all sides offer and padding alone refuses, and preferences it passes over |
| Transports.PaddedHttpFails | mock_client/src/service_shim.cpp:445-478 | the same for two of the harness's transports |
| Transports.SoftRequest | mock_client/src/service_shim.cpp:445-478 | a soft request returns the first usable preference, else the first usable transport, and succeeds whenever anything is usable |
| TransportOrder.UsableInTypeOrder | mock_client/src/service_shim.cpp:435-443 | the usable transports come in the order of the type's list |
| TransportOrder.FallbackIsFirstOffered | mock_client/src/service_shim.cpp:475-477 | without requests the choice is the first entry of the type's list that all sides offer |
| TransportOrder.FailureExactly | mock_client/src/service_shim.cpp:445-463 | which of the two failures is reported, and for which name |
| Transports.ListOrderOnlyAffectsFallback | mock_client/src/service_shim.cpp:435-478 | order within the lists can change nothing but the fallback |
| DeliveryCases.UsableTransports | mock_client/src/delivery_types.cpp:50-63 | the loop returns the allowed names both lists contain |
| DeliveryCases.GenerateDeliveryCases | mock_client/src/delivery_types.cpp:65-114 | the nested loops yield the described triples in order |
| DeliveryGrid.CaseAt | mock_client/src/delivery_types.cpp:9-114 | where the case of each type and transport stands, its id letter by letter, and its verdict |
| DeliveryGrid.PlacesAreAll | mock_client/src/delivery_types.cpp:65-114 | there are no cases at other places |
| DeliveryGrid.ChecksByType | mock_client/src/delivery_types.cpp:9-22 | which check and which input belong to each output type |
| DeliveryCases.CaseCount | mock_client/src/delivery_types.cpp:65-114 | 28 cases for the local topology and 22 for any other, whatever its lists |
| DeliveryCases.VerdictAgreesWithSelection | mock_client/src/delivery_types.cpp:74-96 | deliver if and only if the usable set has the transport, and if and only if the negotiation honours a hard request for it |
| DeliveryCases.GeneratedVerdicts | mock_client/src/delivery_types.cpp:65-114 | every generated verdict is the negotiation's answer, and a rejection names the first excluding axis |
| DeliveryCases.EveryTripleCovered | mock_client/src/delivery_types.cpp:65-114 | no triple is forgotten |
| DeliveryCases.IdsAreDistinct | mock_client/src/delivery_types.cpp:98-112 | all ids of a topology differ |
| DeliveryRun.DeliveryEventSink.Configure | mock_client/src/delivery_event_sink.cpp:13-19 | sets the three match keys |
| DeliveryRun.DeliveryEventSink.OnEvent | mock_client/src/delivery_event_sink.cpp:21-75 | the loops over outputs and shares change the state as the reaction function says, and no field outside it, and log one entry for each match, in order |
| DeliveryRun.DeliveryEventSink.OnParseError | mock_client/src/delivery_event_sink.cpp:77-81 | a failed parse or acknowledgement is logged as skipped and touches no state |
| DeliveryRun.DeliveryContext.HandleFrame | mock_client/src/matrix.cpp:723-741 | one frame is recorded, parsed, applied, logged and acknowledged in that order |
| DeliveryRun.DeliveryContext.WaitForDelivery | mock_client/src/matrix.cpp:715-753 | recorded frames, state, acts and log entries after the loop are those of exactly the consumed batches |
| DeliveryRun.StopsAtFirstCompletion | mock_client/src/matrix.cpp:743-750 | before the deadline the loop returns only at a batch boundary, at the first completion |
| DeliveryRun.AcknowledgedOnceInOrder | mock_client/src/matrix.cpp:727-736 | each receipt is acknowledged exactly once and in arrival order |
| DeliveryRun.AppliedBeforeAcknowledged | mock_client/src/matrix.cpp:727-736 | an acknowledgement directly follows the application of its event |
| DeliveryRun.FinalState | mock_client/src/delivery_event_sink.cpp:21-75 | the terminal fields are those of the last terminal of the prompt, output and share the last matching ones |
| DeliveryRun.SignalsPersist | mock_client/src/delivery_event_sink.cpp:21-75 | the output and CUDA signals never revert within a case |
| DeliveryRun.NotesTellState | mock_client/src/delivery_event_sink.cpp:38-69 | the log tells the state: each signal was seen if and only if it was logged, and the run succeeded if and only if its last logged terminal is ok |
| DeliveryRun.FilterKeepsNotes | mock_client/src/delivery_event_sink.cpp:21-81 | removing the frames that do not match the keys leaves the entries of the matching ones as they were |
| DeliveryRun.BothAwaited | mock_client/src/matrix.cpp:715-753 | when the prompt succeeds and never ends otherwise, and the awaited signal is announced, each once or more often, the wait ends having seen both, over any batches and among any other frames |
| DeliveryRun.NonInterference | mock_client/src/matrix.cpp:715-753 | removing every frame that does not match the keys changes neither the final state nor the batch at which the wait returns |
| DeliveryMatching.OutputSeenExactly | mock_client/src/delivery_event_sink.cpp:30-46 | the output signal is set and logged if and only if some announced output has the awaited transport, names the consumer and no other prompt, and the state holds the last such output |
| DeliveryMatching.ShareSeenExactly | mock_client/src/delivery_event_sink.cpp:48-61 | the same of shares, by name or consumer |
| DeliveryMatching.TerminalSeenExactly | mock_client/src/delivery_event_sink.cpp:63-71 | only a terminal event with the case's own, known prompt sets success, and the last one decides |
| DeliveryMatching.ReturnsExactly | mock_client/src/matrix.cpp:743-750 | the wait is over exactly after a success with the awaited signal, or after a terminal that is no success |
| DeliveryMatching.WaitEnds | mock_client/src/matrix.cpp:715-753 | it returns behind the first batch after which that holds, and not before |
| DeliveryMatching.ErrorsAreLogged | mock_client/src/delivery_event_sink.cpp:76-80 | unreadable frames and refused acknowledgements are logged, in order, and nothing else is logged as skipped |
| CaseVerdicts.IsSafeRelativePath | mock_client/src/matrix.cpp:455-483 | safe if and only if the path is not rooted and none of its segments is the parent directory |
| CaseVerdicts.SafePathStaysBelow | mock_client/src/matrix.cpp:455-500 | a safe path joined to a root leads to the root's directory or below it |
| VerdictOrder.SafeExactly | mock_client/src/matrix.cpp:455-483 | safety by characters: not empty, no leading separator or drive, and no two dots between separators or ends |
| VerdictOrder.JoinExactly | mock_client/src/matrix.cpp:485-500 | joining keeps both parts and adds a slash exactly where one is missing |
| CaseVerdicts.RunFilePathDeliveryCase | mock_client/src/matrix.cpp:1069-1488 | pass if and only if no error is reported, and if and only if every condition of delivery holds; never a skip |
| CaseVerdicts.FileErrorsMean | mock_client/src/matrix.cpp:1326-1429 | for each error code, the condition on the observed facts under which it is reported, and no other code ever is |
| VerdictOrder.DeliveredExactly | mock_client/src/matrix.cpp:1326-1429 | delivery as a conjunction of the single facts |
| VerdictOrder.ArtifactMissingExactly | mock_client/src/matrix.cpp:1414-1417 | when an announced artifact is reported missing, by the single facts |
| VerdictOrder.FileErrorsAscend | mock_client/src/matrix.cpp:1326-1429 | the errors come in one fixed order, none twice |
| CaseVerdicts.RunCudaDeliveryCase | mock_client/src/matrix.cpp:1490-1818 | pass if and only if no error is reported; a skip arises only from the gates or from a valid share whose import fails on WSL, and says why |
| CaseVerdicts.CudaErrorsMean | mock_client/src/matrix.cpp:1637-1744 | for each error code of a judged CUDA case, the condition on the observed facts under which it is reported, and no other code ever is |
| VerdictOrder.CudaExactly | mock_client/src/matrix.cpp:1515-1744 | passing, the gates and the reasons of a skip by the single facts |
| VerdictOrder.CudaErrorsAscend | mock_client/src/matrix.cpp:1650-1742 | the errors come in one fixed order, none twice |
| Verifiers.ValidateGlb | mock_client/src/verify/verify_structural.cpp:22-57 | accepted if and only if the bytes are a version 2 header with the file's own length, a JSON chunk that is not empty, and anything behind it |
| Verifiers.RunVerifier | mock_client/src/matrix.cpp:1027-1047 | each class accepts exactly its bytes, and an error code is given exactly on refusal |
| Verifiers.VerifyIntegrity | mock_client/src/verify/verify_integrity.cpp:10-34 | accepted if and only if there are bytes and the server's digest, if given, is theirs; the code says which failed |
| Verifiers.MagicDecides | mock_client/src/verify/verify_structural.cpp:130-140 | looking at four bytes decides between the two checks without losing a document of either kind |
| Verifiers.ByteExactMeans | mock_client/src/verify/verify_byte_exact.cpp:10-27 | bytes accepted as exact are the expected ones, or exhibit a collision of the compression function |
| DeliveredBytes.GlbExactly | mock_client/src/verify/verify_structural.cpp:22-57 | the accepted binary files byte by byte, with the words glTF and JSON at their places |
| DeliveredBytes.ClassesMean | mock_client/src/matrix.cpp:1027-1047 | what each class asks of the bytes, and the code of its refusal |
| DeliveredBytes.HeaderIsPng | mock_client/src/matrix.cpp:1345-1350 | the header asked of a benchmark is the signature of PNG with an IHDR chunk for 3840 by 2160 |
| DeliveredBytes.SourceMeans | mock_client/src/matrix.cpp:1118-1135 | every type with a fixture needs it to be readable |
| FileDelivery.RunCase | mock_client/src/matrix.cpp:1069-1488 | a case from its negotiation to its verdict: it passes if and only if all sides offer the transport, the prompt's last terminal is a success, and the last matching output is the case's own and retrieved, verified and released; it is an error if it could not be tried, and fails otherwise |
| FileDelivery.PassesExactly | mock_client/src/matrix.cpp:1326-1429 | the verdict's conditions on observed facts are these conditions on lists, frames and bytes |
| FileDelivery.PassMeans | mock_client/src/matrix.cpp:1069-1488 | a passing case was announced to its own keys, read a named-route artifact below the client's root, and received the fixture's bytes if it is byte-exact, up to a collision |
| FileDelivery.ChannelMeans | mock_client/src/matrix.cpp:1332-1340 | the channel that an artifact is read over is the one its transport names |
| FileDelivery.PassReads | mock_client/src/matrix.cpp:1225-1340 | a passing case over disk read the announced file, below the client's root if it was routed, and one over shm or http fetched the output, releasing it over shm |
| FileDelivery.ReleaseMatters | mock_client/src/matrix.cpp:1332-1340 | a refused release fails every case over shm and changes no other |
| FileDelivery.ArrivalPasses | mock_client/src/matrix.cpp:1069-1488 | a waiting case passes when its prompt only succeeds and each of its matching outputs, of which there is one, can be delivered, however often and in whatever order and batches they arrive |
| CudaDelivery.RunCudaCase | mock_client/src/matrix.cpp:1490-1818 | the same for a CUDA case, with its skips and its gates |
| CudaDelivery.CudaPassMeans | mock_client/src/matrix.cpp:1490-1818 | a passing case imported, from a share announced to it, the uploaded image with the word of one behind each pixel, up to a collision |
| ShareContents.PassHoldsImage | mock_client/src/matrix.cpp:1490-1818 | a passing case read, from a share announced with the right shape, handle and device, the words of each row, column and channel of the numbered image, up to a collision |
| ShareContents.OpenExactly | mock_client/src/matrix.cpp:1509-1546 | which cases get past the gates |
| ShareContents.ConsumerExactly | mock_client/src/matrix.cpp:971-985 | the consumer id of a case, character by character |
| CudaDelivery.ShareArrivalPasses | mock_client/src/matrix.cpp:1490-1818 | the same for a CUDA case and its matching shares |
| DeliverySuite.RunDeliveryCases | mock_client/src/matrix.cpp:2104-2202 | a phase runs the probe, the benchmarks and the generated cases in their order, with one record each whose id and result are the trial's, and errors unless it passed |
| DeliverySuite.RunTopologyCases | mock_client/src/matrix.cpp:2104-2167 | the two loops over the generated cases, with their gates, run the specified trials in order |
| DeliverySuite.RunPhase | mock_client/src/matrix.cpp:2222-2319 | from fresh objects and a successful setup, the summary is good if and only if every trial of the phase is |
| DeliverySuite.GoodExactly | mock_client/src/matrix.cpp:2104-2202 | all trials are good if and only if every file case passes, every CUDA case passes or is skipped for its reasons, and the local probe finds shared memory reachable and advertised; rejection cases never fail |
| DeliverySuite.EveryDeliveryRuns | mock_client/src/matrix.cpp:2136-2166 | every type and transport that the type, the server and the client offer is tried, unless the part is skipped or confined to disk |
| PhaseTrials.AdvertisedExactly | mock_client/src/matrix.cpp:535-549 | the server's transports are the known ones it advertises, each once and sorted |
| PhaseTrials.ReachableExactly | mock_client/src/matrix.cpp:551-581 | what a client reaches, by phase, probe and route |
| PhaseTrials.EveryTrialBelongs | mock_client/src/matrix.cpp:2104-2202 | every trial of a phase with its id, contract, lists, route and options |
| PhaseTrials.TrialsPicked | mock_client/src/matrix.cpp:2136-2166 | the cases of a part are run in their order, over a named route only those on disk |
| PhaseTrials.BenchmarksPicked | mock_client/src/matrix.cpp:2107-2134 | the measured cases are run in their order, each with images one to eight |
| PhaseTrials.MeasuredFirst | mock_client/src/matrix.cpp:2104-2167 | all measurements of a part come before its other cases |
| PhaseTrials.EveryImageRuns | mock_client/src/matrix.cpp:2107-2134 | every image is sent over every transport that both sides offer for images |
| PhaseTrials.RoutesLast | mock_client/src/matrix.cpp:2191-2201 | a remote phase runs everything over http before anything over a named route |
| PhaseTrials.RecordTells | mock_client/src/matrix.cpp:2169-2202 | the id and the result word in a trial's record |
| CudaProbe.Fnv1a64 | mock_client/src/tools/cuda_ipc_probe.cpp:80-89 | the loop computes the fold of xor and multiplication modulo 2^64 |
| CudaProbe.TimesIsBijective | mock_client/src/tools/cuda_ipc_probe.cpp:80-89 | multiplying by the odd multiplier is undone by its inverse modulo 2^64 |
| CudaProbe.MixIsBijective | mock_client/src/tools/cuda_ipc_probe.cpp:80-89 | each step is a bijection on hash values |
| CudaProbe.HashIsBijective | mock_client/src/tools/cuda_ipc_probe.cpp:80-89 | hashing fixed bytes is a bijection from the state before to the state after |
| CudaProbe.CommonTail | mock_client/src/tools/cuda_ipc_probe.cpp:80-89 | a common tail never hides a difference |
| CudaProbe.OneCorruptedByte | mock_client/src/tools/cuda_ipc_probe.cpp:321-325 | buffers that differ in exactly one byte always have different hashes |
| Characters.XorBits | mock_client/src/tools/cuda_ipc_probe.cpp:80-89 | the spelled out exclusive or sets a bit exactly when it is set on one side only |
| Characters.HashOfLetter | mock_client/src/tools/cuda_ipc_probe.cpp:80-89 | the hash of one letter as a number |
| CudaProbe.MakePattern | mock_client/src/tools/cuda_ipc_probe.cpp:91-99 | every position holds its pattern byte |
| CudaProbe.PatternShowsDisplacement | mock_client/src/tools/cuda_ipc_probe.cpp:91-99 | two positions hold the same byte if and only if they are a multiple of 256 apart |
| CudaProbe.JsonEscape | mock_client/src/tools/cuda_ipc_probe.cpp:32-61 | the loop returns the escaped text that the decoder inverts |
| CudaProbe.EscapedRoundTrip | mock_client/src/tools/cuda_ipc_probe.cpp:32-66 | the quoted text decodes to what was quoted, and no raw control character remains |
| FramePattern.BuildPattern | mock_client/src/matrix.cpp:639-692 | the nested loops fill the buffer with the rows' words in order and in bounds |
| FramePattern.EachByteOnce | mock_client/src/matrix.cpp:639-692 | every byte offset belongs to exactly one row, column, channel and byte of a word, and an offset inside the buffer to a row of the image |
| FramePattern.RowsWithAlpha | mock_client/src/matrix.cpp:639-692 | the expected RGBA rows are the RGB rows with the alpha word behind each pixel |
| FramePattern.PixelAt | mock_client/src/matrix.cpp:639-692 | the word at the offset of each row, column and channel |
| DiscoverJobs.Search | scripts/build_diagnostics_report.py:551-573 | the explicit stack with its seen set terminates and visits the candidates in the specified order |
| DiscoverJobs.CandidatesExactly | scripts/build_diagnostics_report.py:544-573 | exactly the topmost job directories at depth four or less and not in or below a server directory, or just the root when it is one |
| JobDirs.JobDirExactly | scripts/build_diagnostics_report.py:544-549 | a job directory is one not named server with one of three files or a directory of cases |
| JobDirs.AtExactly | scripts/build_diagnostics_report.py:544-573 | a path leads to a directory exactly when each directory on the way lists the next under the path's name |
| JobDirs.FoundExactly | scripts/build_diagnostics_report.py:544-573 | the candidates by the directories on the way to them: at most four steps, no server and no other job directory on it |
| DiscoverJobs.NoneInside | scripts/build_diagnostics_report.py:567-570 | no candidate lies inside another |
| DiscoverJobs.CandidatesDescend | scripts/build_diagnostics_report.py:559-573 | candidates come in descending order of their paths, hence without duplicates |
| DiscoverJobs.FirstIsBest | scripts/build_diagnostics_report.py:575-578 | the first of a mode after the stable sort is the first one under the least name |
| DiscoverJobs.BestIsKept | scripts/build_diagnostics_report.py:575-578 | which candidate a mode keeps, with ties decided by the paths |
| JobDirs.KeptMeans | scripts/build_diagnostics_report.py:575-578 | the directory kept for a mode has the least name, and the last path among equal names |
| JobModes.ModeForJobDir | scripts/build_diagnostics_report.py:510-527 | the loops over suffixes and labels return the mode of a profile and a directory name |
| JobModes.ModeExactly | scripts/build_diagnostics_report.py:510-527 | the recorded profile decides when it stands for a mode; otherwise the first label the name shows does, and there is none exactly when it shows none |
| JobModes.ProfilesReadBack | scripts/build_diagnostics_report.py:517-522 | for each mode, the profiles of either side lead back to it whatever the directory is called |
| JobModes.NamesReadBack | scripts/build_diagnostics_report.py:523-527 | a name with a mode between dashes has that mode if and only if it shows no earlier label |
| JobModes.NamesDecideInOrder | scripts/build_diagnostics_report.py:523-527 | the six modes, each asked of the name behind a dash and at the end or before a dash, in order |
| JobModes.ProfileExactly | scripts/build_diagnostics_report.py:517-522 | the four profiles that stand for a mode |
| DiscoverJobs.DiscoverJobs | scripts/build_diagnostics_report.py:530-579 | one entry for each mode that the profile or name of some candidate stands for, and the entry that is kept |
| TransferBenchmarks.Group | scripts/build_diagnostics_report.py:324-340 | the dictionary holds, for each group, the samples of its cases in order, and the groups in order of appearance |
| TransferBenchmarks.Benchmarks | scripts/build_diagnostics_report.py:324-370 | the rows are the summaries of the groups that are not superseded, with totals, averages, medians and extremes |
| TransferBenchmarks.GroupsPartition | scripts/build_diagnostics_report.py:326-340 | every matching case is in exactly one group |
| TransferBenchmarks.CompleteExactly | scripts/build_diagnostics_report.py:346-347 | comparing sorted numbers with one to eight succeeds if and only if each image occurs exactly once, in any order |
| TransferBenchmarks.PassExactly | scripts/build_diagnostics_report.py:334-356 | a group passes if and only if each of the eight images occurs once, passed and was measured |
| TransferBenchmarks.TotalsOfPassed | scripts/build_diagnostics_report.py:347-369 | totals exist for passed groups only; in exact arithmetic they agree with the averages, and average and median lie between the extremes |
| TransferBenchmarks.OrderDoesNotMatter | scripts/build_diagnostics_report.py:324-370 | the samples of a complete group are sorted into the same list, and its whole summary is the same, for every order of the cases |
| TransferBenchmarks.RowsShow | scripts/build_diagnostics_report.py:342-345 | which groups the report shows, the routed HTTP group being dropped exactly when the direct one exists |
| BenchmarkFigures.SamplesPicked | scripts/build_diagnostics_report.py:327-340 | a group has one sample for each of its cases, in order, with the measurements of those that passed |
| BenchmarkFigures.KeysExactly | scripts/build_diagnostics_report.py:327-340 | the groups are those of the matching cases |
| BenchmarkFigures.KeysInOrder | scripts/build_diagnostics_report.py:327-340 | they are listed as they first occur |
| BenchmarkFigures.ShownExactly | scripts/build_diagnostics_report.py:342-345 | which rows are shown, by the names of topology and transport |
| BenchmarkFigures.RowsInOrder | scripts/build_diagnostics_report.py:342-345 | the rows come as their groups first occur |
| BenchmarkFigures.RowExactly | scripts/build_diagnostics_report.py:346-369 | the order of a row's samples, its result, and which figures it has |
| BenchmarkFigures.DurationFigures | scripts/build_diagnostics_report.py:348-366 | each figure over the eight durations of a group that passed, the median being the mean of the middle two in order |
| BenchmarkFigures.RepeatFigures | scripts/build_diagnostics_report.py:350-368 | the figures over the repeated transfers |
| BenchmarkFigures.ByteFigures | scripts/build_diagnostics_report.py:369 | the sum of the bytes |
| PromptAttribution.SummarizeRecords | scripts/build_diagnostics_report.py:140-165 | the loop condenses entries into the named events and the warnings, in order, and nothing into no summary |
| PromptAttribution.SummarizeCaseDiagnostics | scripts/build_diagnostics_report.py:168-177 | the same for a case's own diagnostics, with the server's count when it gives one |
| PromptAttribution.SummaryShows | scripts/build_diagnostics_report.py:140-165 | a summary shows an event or a warning if and only if some entry has it |
| PromptAttribution.SummaryAccounts | scripts/build_diagnostics_report.py:140-165 | shown events, shown warnings and the entries that leave nothing add up to the number of entries |
| ReportOrder.EventsPicked | scripts/build_diagnostics_report.py:149-155 | the shown events are the named ones, in order, by event before name |
| ReportOrder.WarningsPicked | scripts/build_diagnostics_report.py:156-163 | the warnings are the other records, in order, with their severity and message or what stands in for them |
| PromptAttribution.DiagnosticsByPrompt | scripts/build_diagnostics_report.py:180-205 | the dictionary holds each prompt's usable records in order |
| PromptAttribution.Attribute | scripts/build_diagnostics_report.py:279-308 | the summary of every case and the rows of the job |
| PromptAttribution.UnattributedIsUnclaimed | scripts/build_diagnostics_report.py:291-308 | the job's panel holds every record that no case claims exactly as often as the stream does, and no other |
| ReportOrder.StreamPicked | scripts/build_diagnostics_report.py:194-205 | the usable lines of the stream, in order |
| ReportOrder.SlicePicked | scripts/build_diagnostics_report.py:205 | a prompt's slice holds its records, in order |
| ReportOrder.PanelExactly | scripts/build_diagnostics_report.py:279-290 | what the panel of a case shows and counts |
| ReportOrder.RowExactly | scripts/build_diagnostics_report.py:297-306 | the row of a record in the job's panel, by name before event |
| ReportOrder.JobPanelInOrder | scripts/build_diagnostics_report.py:291-308 | the job's panel holds the whole slice of each unclaimed prompt, in the order in which the prompts first occur |
| PromptAttribution.WhereShown | scripts/build_diagnostics_report.py:279-308 | when the job's panel has a record's row, and when the panel of a case that names its prompt shows its event or warning; never both |
| PromptAttribution.LostExactly | scripts/build_diagnostics_report.py:140-308 | a record is shown nowhere if and only if its prompt is claimed and it is an event without a name, or every claiming case has diagnostics of its own that do not repeat it |
| PromptAttribution.LostRecord | scripts/build_diagnostics_report.py:279-308 | any record that is alone in the stream is lost to a case whose own diagnostics hold another one |
| PromptAttribution.NamelessRecord | scripts/build_diagnostics_report.py:140-308 | a usable record that is lost although its case has no diagnostics of its own |
| StepTable.ConditionalZip | action_yaml_checker.py:43-74 | the two-pointer loop terminates, its pointers running past the lists, and builds the specified rows, with or without the steps' texts |
| StepTable.ColumnsAreTheSteps | action_yaml_checker.py:43-74 | each column without blanks is its list, in order |
| StepTable.OnlyStandsAlone | action_yaml_checker.py:55-66 | a step of one system only has its row to itself |
| StepTable.RemainingStepsPair | action_yaml_checker.py:43-74 | the remaining steps of both lists pair up one by one |
| StepTable.SortSteps | action_yaml_checker.py:91-110 | the check passes if and only if surplus and missing counts are equal, and its report names exactly the steps without a system |
| StepMarks.MarksExactly | action_yaml_checker.py:55-94 | the marks by their letters |
| StepMarks.ColumnsPicked | action_yaml_checker.py:84-94 | the two columns hold the marked steps, in order |
| StepMarks.CellsExactly | action_yaml_checker.py:55-70 | the text of each cell, with and without the steps' own texts |
| StepTable.RightExactly | action_yaml_checker.py:91-110 | when the check's answer is right, when it lets a missing step pass, and when it rejects steps that are all marked |
| StepTable.RightWithoutSurplus | action_yaml_checker.py:91-110 | with no step counted beyond its expectation, it passes if and only if every step is marked |
| StepTable.MissingStepPasses | action_yaml_checker.py:108-110 | any step without a mark passes beside one that is marked for both systems |
| StepTable.MarkedStepIsRejected | action_yaml_checker.py:108-110 | a step that is marked for both systems is rejected on its own |

## Left out

- Integer width: `ParseIntPart` overflows on numbers beyond the range of `int`; versions are unbounded here.
- Sha256Impl.Sha256Raw: the case of a null pointer with a non-zero size, whose length field disagrees with its data.
- FramePattern.BuildPattern: one method stands for both builders, which differ in the words behind a pixel only; float division is not interpreted and widths below the range of `int` are not excluded.
- DiscoverJobs.DiscoverJobs: symbolic links and the reading of `compatibility-result.json`, whose profile a directory carries; the label is left off.
- StepTable.SortSteps: a step without a name, on which the script stops earlier, and the wrapping of long texts.
- CaseFiles.CaseLogger.WriteCase: records hold JSON fragments as values, so a caller that passes malformed text is outside the model; directories and file failures are not modelled.
- DeliveryRun.DeliveryContext.WaitForDelivery: the clock and the pause between drains; how many batches are drained before the deadline is arbitrary.
- CaseVerdicts.RunFilePathDeliveryCase: hashes, timings, diagnostics and the JSON of expected and actual values, none of which the verdict depends on.
- FileDelivery.RunCase: the fixture's path, the request's contents, the facade entries of negotiation and submission, and files that fail halfway through a read; a digest collision is not excluded.
- CudaDelivery.RunCudaCase: how handle and device are picked out of the share's JSON, and the same entries; the floats of the image are uninterpreted words.
- TransferBenchmarks.TotalsOfPassed: sums are exact, while the report rounds floats, so that an average of eight equal durations may fall below their minimum.
- TransferBenchmarks.Benchmarks: the pattern of case ids, whose outcome a case carries.
- FacadeTrace.FacadeLog.Action: fields are values and not raw text, as for records.
- PromptAttribution.Attribute: reading and parsing the files; a panel of a case shows names and warnings only, so that two records with the same event are not told apart.
- DeliverySuite.RunPhase: a failed setup, which ends the run before its cases, and the evidence files beside a record; the probe of shared memory answers alike each time.
- `WriteIndex`, `HexToBytes`, `TopologyReachable` and the HTML and Markdown rendering: they would add easy members or presentation only.
- HTTP, WebSocket, CUDA and shared-memory transports, the client codec, `jsonxx`, process launching and the actions: foreign code and I/O.
