# rusty-modbus: verified models

This project models two cores of the rusty-modbus repository in Dafny and proves properties of them: the
Modbus wire and session logic of the Rust crates, and the evidence engine of `scripts/baseline.py` and
`scripts/conformance_ledger.py`. Verify it with `dafny verify dfyconfig.toml`.

## What is modelled

Wire and session logic:

- `Bytes`, `Crc`, `CrcValue`: CRC-16/Modbus as a shift register, table-driven and bit-serial, and as a number.
- `Framing`, `Streams`, `StandardPdus`, `FrameDecoders`: the RTU-over-TCP codec (both boundary policies) and the MBAP
  codec, as functions of the buffered bytes, over whole connections, against the standard messages field by field,
  and as methods that consume a mutable buffer.
- `Assembler`, `AssemblerCounters`, `AssemblerObject`: the serial RTU frame assembler driven by timestamped bytes and
  deadlines, and its diagnostic counters.
- `Transactions`, `TransactionObject`, `Contention`: the client's transaction ring as a state machine over the atomic
  steps of any number of callers (drawing an ID, locking a slot, retiring the session, sending), as an object, and
  with callers registering against each other.
- `Packing`, `BitTable`: coil and register payloads, and the server's packed bit table.

Evidence engine:

- `Contract`, `ContractValidator`, `ContractTheorems`, `ContractApproval`, `ContractMeaning`, `ContractExample`: the
  controlled-evidence contract.
- `ScenarioSets`, `ArtifactBindings`, `BindingCounts`, `ArtifactVerifier`, `ArtifactMeaning`: binding manifests, the
  verification loop and its observation rows.
- `Reports`, `Comparison`, `StressSamples`, `StressReport`: samples, aggregates, reports and comparisons.
- `Paths`, `Inventory`, `ArtifactTree`, `ArtifactRun`: the artifact directory, its inventory and its life cycle.
- `JsonDepth`: the nesting guard in front of the JSON parser.
- `Ledger`, `LedgerValidator`, `LedgerTheorems`, `LedgerExample`: the conformance ledger.

`Sorting`, `Folds` and `Indexing` hold what the modules share about lists and sets.

Modelling choices: SHA-256 over canonical text is a function parameter, and a statement that needs it supposes only
that the digests of the very values it speaks of do not collide; metrics are exact reals; strings are ordered by code
point, which is also the order of their UTF-8 bytes; artifact loading, directory lookup, case folding, white-space
normalisation and the standard deviation are parameters. Wrong JSON types and missing or extra keys are excluded by
the record types, while unsupported values of enumerated fields are kept. Error messages are reduced to which check
failed.

## Findings

Each of these is a property one might expect, shown false by an input and replaced by its exact condition:

- A stream of frames survives the compatibility decoder exactly when no proper prefix of a frame already verifies
  (`StreamRoundTrip`); a payload that ends in its own checksum does not (`EarlyMatchIsOpaque`). For the
  function-aware decoder the exact condition is that every PDU is a standard message of its direction
  (`TransparentIsStandard`); read requests of any other length and read responses with another byte count do not
  survive (`WrongLengthIsOpaque`). MBAP needs no condition.
- The inventory writer's output is accepted exactly when there is at least one file and no path contains a line
  break (`WrittenInventoryAccepts`); an empty directory yields one blank line, which the validator rejects.
- A valid report can be compared with itself exactly when its scenario keys are distinct (`SelfComparison`); two
  Criterion scenarios with one benchmark ID and different sources pass validation (`TwinScenarios`).
- A command ID has the three-digit form that reports demand exactly up to the 999th command (`CommandIdForm`).
- The byte-count field of a coil request is truthful exactly up to 2040 coils (`CoilsPduLimits`).
- The ledger checks the mapping from tests to requirements in one direction only: any accepted ledger stays accepted
  when a requirement lists one more test, and is then not reciprocal (`ExtraListingIsAccepted`). An accepted ledger is
  reciprocal exactly when its requirements list as many tests as its tests map requirements (`ReciprocalByCounting`).
- With every slot taken, registering does not always come to its conflict error. With k IDs drawn by others between
  any two of its own draws it does exactly when k is even, and then within thirty-two draws (`GivesUpIfEven`; for
  any run whatever, `SeesAllIfEven`). With k = 15 it meets one slot for ever (`RegistrationCanStarve`), and sixteen
  registrations are enough to fill the ring (`FullIsReachable`).

A result of another kind: three errors of the artifact verifier can never be raised for a valid contract and manifest,
the evidence-kind check and both closing coverage checks (`VerifyArtifacts`).

## Model

| member | source | states |
|---|---|---|
| `Crc.Crc16` | crates/rusty-modbus-frame/src/crc.rs:27-40 | the byte loop computes the checksum register of the data |
| `Crc.UpdateIsBitSerial` | crates/rusty-modbus-frame/src/crc.rs:7-40 | one table-driven byte update equals shifting the byte's eight bits through the polynomial register |
| `Crc.FoldIsBitSerial` | crates/rusty-modbus-frame/src/crc.rs:27-40 | the checksum of any data is the bit-serial register fed with its wire bits |
| `Crc.VerifyIsZeroResidue` | crates/rusty-modbus-frame/src/crc.rs:42-54 | a frame verifies if and only if feeding all of it, trailer included, leaves a zero register |
| `Crc.BurstErrorIsDetected` | crates/rusty-modbus-frame/src/crc.rs:42-54 | no corruption confined to sixteen consecutive wire bits of a valid frame ever verifies |
| `Crc.ValidFramesAreEven` | crates/rusty-modbus-frame/src/crc.rs:42-54 | a frame that verifies has an even number of one bits, trailer included |
| `Crc.OddErrorIsDetected` | crates/rusty-modbus-frame/src/crc.rs:42-54 | no corruption of an odd number of bits of a valid frame ever verifies, whatever its length |
| `Crc.TrailerVerifies` | benchmarks/benches/codec.rs:457-464 | data followed by its own checksum, low byte first, verifies |
| `CrcValue.ShiftWordIs` | crates/rusty-modbus-frame/src/crc.rs:13-20 | as a number, one register step is a halving, followed by exclusive-or with 0xA001 when a one falls out |
| `CrcValue.ValueStep` | crates/rusty-modbus-frame/src/crc.rs:29-40 | the checksum word of extended data is obtained by feeding the new byte's bits to the old word |
| `CrcValue.KnownVector` | crates/rusty-modbus-frame/src/crc.rs:60-67 | the request 01 03 00 00 00 0A has checksum 0xCDC5 |
| `Framing.StrictUnknownIsShort` | crates/rusty-modbus-frame/src/rtu_tcp.rs:185-345 | the function-aware length is undetermined only while fewer bytes than a maximal frame are buffered |
| `Framing.StrictLengthStable` | crates/rusty-modbus-frame/src/rtu_tcp.rs:216-345 | a determined or rejected length never changes when bytes arrive after it |
| `Framing.FirstBoundaryStable` | crates/rusty-modbus-frame/src/rtu_tcp.rs:150-183 | a found CRC boundary does not move when bytes are appended |
| `Framing.DecodeStable` | crates/rusty-modbus-frame/src/rtu_tcp.rs:150-214 | every decision of every codec, frame or error, is unchanged by further bytes |
| `Streams.DecodeOfWire` | crates/rusty-modbus-frame/src/rtu_tcp.rs:371-390 | the first frame decoded from an encoded frame and any tail is that frame if and only if it is transparent to the codec |
| `Streams.EncodeOfDecode` | crates/rusty-modbus-frame/src/mbap.rs:34-165 | a decoded frame re-encodes to exactly the bytes it was cut from, for all three codecs |
| `Streams.ChunkingIsInvisible` | crates/rusty-modbus-frame/src/rtu_tcp.rs:113-214 | frames, rest and error of a connection depend only on the concatenation of the reads, not on how it was split |
| `Streams.DrainConserves` | crates/rusty-modbus-frame/src/rtu_tcp.rs:150-214 | decoding neither loses, reorders nor invents bytes: re-encoded frames and the rest give back the input |
| `Streams.StreamRoundTrip` | benchmarks/benches/codec.rs:393-410 | any chunking of any list of encoded frames is decoded back to that list if and only if every frame is transparent |
| `Streams.EarlyMatchIsOpaque` | crates/rusty-modbus-frame/src/rtu_tcp.rs:150-183 | every frame whose payload ends in the checksum of what precedes it can be sent and is not transparent to the compatibility decoder |
| `Streams.WrongLengthIsOpaque` | crates/rusty-modbus-frame/src/rtu_tcp.rs:216-345 | a read-holding-registers frame is transparent to the function-aware decoder as a request exactly with four bytes of data, and as a response exactly when its byte count is the number of bytes that follow |
| `Streams.SendableIs` | crates/rusty-modbus-frame/src/mbap.rs:93-165 | a frame can be sent exactly with a PDU of 1 to 253 bytes under the codec's own header, and over MBAP only if the header's protocol is 0 and its length is true |
| `Streams.ScanDecides` | crates/rusty-modbus-frame/src/rtu_tcp.rs:150-183 | the compatibility decoder yields a frame exactly when a prefix of 4 to 256 bytes verifies, waits below 256 bytes and fails as truncated from there on |
| `Streams.MbapDecides` | crates/rusty-modbus-frame/src/mbap.rs:34-91 | the exact header fields for which the MBAP decoder refuses, waits and cuts, and what it cuts |
| `StandardPdus.TransparentIsStandard` | crates/rusty-modbus-frame/src/rtu_tcp.rs:216-345 | a frame is transparent to the function-aware decoder if and only if its PDU is a standard request or response of that direction, by its fields: fixed fields, byte counts, the 16-bit FIFO count, diagnostic sub-functions, identification objects and exceptions |
| `StandardPdus.RefusedIsForeign` | crates/rusty-modbus-frame/src/rtu_tcp.rs:216-345 | a buffer is refused as indeterminate if and only if no standard message of the direction begins with its function, sub-function or encapsulated type |
| `StandardPdus.MessagesArrive` | crates/rusty-modbus-frame/src/rtu_tcp.rs:185-345 | any list of standard messages of one direction arrives as it was sent, however the stream is split |
| `FrameDecoders.ScanBoundary` | benchmarks/benches/codec.rs:497-504 | one pass with a running checksum finds the same boundary as re-verifying every prefix |
| `FrameDecoders.DecodeCompatibility` | crates/rusty-modbus-frame/src/rtu_tcp.rs:150-183 | the buffered decoder returns the step of the decoding function and keeps exactly the bytes after it |
| `FrameDecoders.MeiResponsePduLength` | crates/rusty-modbus-frame/src/rtu_tcp.rs:320-345 | the object walk computes the length of an identification response |
| `FrameDecoders.StrictPduLength` | crates/rusty-modbus-frame/src/rtu_tcp.rs:216-258 | the dispatch by function and direction computes the length at which exactly the standard messages end (`TransparentIsStandard`), and rejects exactly the foreign codes (`RefusedIsForeign`) |
| `FrameDecoders.DecodeFunctionAware` | crates/rusty-modbus-frame/src/rtu_tcp.rs:185-214 | the function-aware buffered decoder refines its decoding function and consumes only whole frames |
| `FrameDecoders.DecodeMbapBuffer` | crates/rusty-modbus-frame/src/mbap.rs:34-91 | the MBAP buffered decoder refines its decoding function and consumes only whole frames |
| `Assembler.RunMirrors` | crates/rusty-modbus-rtu/src/assembler.rs:456-567 | after any events the phase holds exactly the last burst of bytes, and emitted and pending frames are the clean bursts |
| `Assembler.FramesAreTheCleanBursts` | crates/rusty-modbus-rtu/src/assembler.rs:456-567 | the frames emitted by any run are exactly the bursts without an over-long gap that have 4 to 256 bytes and verify, in order, an open last burst excepted |
| `Assembler.DeadlinesDoNotChangeFrames` | crates/rusty-modbus-rtu/src/assembler.rs:534-567 | two runs over the same bytes yield the same frames whenever both have been closed, however deadlines were delivered |
| `Assembler.ErrorsAreTransactional` | crates/rusty-modbus-rtu/src/assembler.rs:445-521 | an observation that errs changes nothing but the diagnostic counters |
| `Assembler.RejectionsAre` | crates/rusty-modbus-rtu/src/assembler.rs:445-592 | the exact conditions under which a byte or a deadline is rejected, and with which error |
| `Assembler.OutcomesAre` | crates/rusty-modbus-rtu/src/assembler.rs:445-567 | what every accepted byte and deadline reports, by phase, gap, length and checksum |
| `Assembler.ActiveOrPast` | crates/rusty-modbus-rtu/src/assembler.rs:579-624 | a deadline once handed out is the active one or past for the rest of the run |
| `Assembler.RetiredDeadlineStaysStale` | crates/rusty-modbus-rtu/src/assembler.rs:534-550 | a deadline that stopped being active is refused as stale at every later time |
| `Assembler.BoundaryOrderIsIrrelevant` | crates/rusty-modbus-rtu/src/assembler.rs:456-567 | at the boundary instant it makes no difference whether the deadline or the next byte is observed first |
| `AssemblerCounters.CountersAreTheBursts` | crates/rusty-modbus-rtu/src/assembler.rs:445-639 | after every run of fewer than 2^64 events each counter is the number of bursts with its fate, told from their bytes: verified, under four bytes, not verifying, first spoiled by a gap or by length, and recovered from once over; bytes observed are the byte events |
| `AssemblerCounters.EveryBurstIsBookedOnce` | crates/rusty-modbus-rtu/src/assembler.rs:445-639 | frames, short and corrupt discards add up to the clean bursts that are over, gap and length discards to the unclean bursts, recoveries to the unclean ones that are over; only an open clean burst is not counted yet |
| `AssemblerObject.RtuFrameAssembler.constructor` | crates/rusty-modbus-rtu/src/assembler.rs:376-403 | a new assembler is the initial state |
| `AssemblerObject.RtuFrameAssembler.StartCandidate` | crates/rusty-modbus-rtu/src/assembler.rs:593-608 | the fixed buffer holds the one-byte candidate |
| `AssemblerObject.RtuFrameAssembler.EnterQuarantine` | crates/rusty-modbus-rtu/src/assembler.rs:610-622 | the candidate is dropped and only noise is tracked |
| `AssemblerObject.RtuFrameAssembler.FinishCandidate` | crates/rusty-modbus-rtu/src/assembler.rs:624-639 | a candidate is too short exactly below four bytes, corrupt exactly from four bytes on without verifying, and otherwise emitted whole, and is counted as such |
| `AssemblerObject.RtuFrameAssembler.ObserveByteEvent` | crates/rusty-modbus-rtu/src/assembler.rs:456-521 | the in-place update of buffer, phase and counters is the byte transition |
| `AssemblerObject.RtuFrameAssembler.ObserveDeadlineEvent` | crates/rusty-modbus-rtu/src/assembler.rs:534-567 | the in-place update is the deadline transition |
| `Transactions.RunKeepsInv` | crates/rusty-modbus-client/src/transaction.rs:97-344 | every interleaving of the atomic steps, with slot, session and channel touched one at a time, keeps slots, requests in flight, history and log consistent |
| `Transactions.EveryRequestSettlesOnce` | crates/rusty-modbus-client/src/transaction.rs:117-344 | in every run each registered request is waiting in its slot, taken by whoever will answer it, or answered, never two of these, and answered at most once |
| `Transactions.TakenRequestsCanBeAnswered` | crates/rusty-modbus-client/src/transaction.rs:196-222 | a request that left its slot can always be retired for and answered by two more steps, in every reachable state |
| `Transactions.ResponsesAnswerTheirRequest` | crates/rusty-modbus-client/src/transaction.rs:196-222 | a response handed to a caller has the unit and the function, or its exception, of that caller's request, and on TCP the request's own transaction ID |
| `Transactions.WaitingIdsAreDistinct` | crates/rusty-modbus-client/src/transaction.rs:117-162 | no two waiting requests share a transaction ID, and no ID is zero |
| `Transactions.SameIdIsFarApart` | crates/rusty-modbus-client/src/transaction.rs:97-104 | two allocations share an ID only a whole multiple of 65536 apart |
| `Transactions.LateRepliesStayWithTheirLap` | crates/rusty-modbus-client/src/transaction.rs:196-222 | a reply with the ID of one request can take another only if that one was registered later and their allocations are at least 65536 apart |
| `Transactions.UnretiredMeansUnambiguous` | crates/rusty-modbus-client/src/session.rs:137-154 | a session never retired has sent its callers matching responses and local closures only |
| `Transactions.RunOnlyAdds` | crates/rusty-modbus-client/src/session.rs:137-154 | history and log only grow, and a retirement reason never changes |
| `TransactionObject.TransactionManager.constructor` | crates/rusty-modbus-client/src/transaction.rs:81-91 | a new manager is the initial state |
| `TransactionObject.ResolveIsRun` | crates/rusty-modbus-client/src/transaction.rs:196-344 | an operation that is not interrupted has the effect of its atomic steps run one after the other |
| `TransactionObject.RepliesAreAnswered` | crates/rusty-modbus-client/src/transaction.rs:196-222 | in every reachable state a reply under a waiting request's ID sends that caller, and nobody else, a timeout from the deadline on, and before it the wrong unit, the undecodable PDU, the wrong function or the response itself, retiring the session for all but the response |
| `TransactionObject.RepliesToSlotAreAnswered` | crates/rusty-modbus-client/src/transaction.rs:258-284 | the same for a reply without an ID, except that before the deadline another unit's reply leaves the request waiting |
| `TransactionObject.StrayRepliesRetire` | crates/rusty-modbus-client/src/transaction.rs:205-209 | a reply that finds no waiting request changes nothing but retires the session for it |
| `TransactionObject.UnansweredRequestsEnd` | crates/rusty-modbus-client/src/transaction.rs:290-344 | expiry from the deadline on, cancellation and removal each send the one caller its own value, and only expiry retires the session |
| `TransactionObject.TransactionManager.TryNext` | crates/rusty-modbus-client/src/transaction.rs:97-145 | one allocation takes the next ID and occupies its slot exactly if that ID is not zero and the slot is free, recording the caller's unit, function, deadline and ticket |
| `TransactionObject.TransactionManager.Register` | crates/rusty-modbus-client/src/transaction.rs:117-162 | for a caller left alone registering terminates and succeeds if and only if some slot is free, recording the caller's unit, function and deadline and leaving every other slot alone |
| `TransactionObject.TransactionManager.Send` | crates/rusty-modbus-client/src/transaction.rs:398-441 | answering a request frees its slot, retires the session if it must and logs exactly the value sent under the request's own ticket and ID |
| `TransactionObject.TransactionManager.CompleteResponse` | crates/rusty-modbus-client/src/transaction.rs:196-222 | the request with that full ID, and no other, is answered with the right value, outcome and retirement for the deadline, unit, decoding and function; without one the session is retired and nothing else changes |
| `TransactionObject.TransactionManager.CompleteOldestResponse` | crates/rusty-modbus-client/src/transaction.rs:238-284 | the oldest waiting request is answered with the right value, outcome and retirement, or left waiting for another unit's reply before its deadline |
| `TransactionObject.TransactionManager.RemoveExact` | crates/rusty-modbus-client/src/transaction.rs:290-301 | only the request with the full ID is removed, never one that reuses its slot |
| `TransactionObject.TransactionManager.CancelAll` | crates/rusty-modbus-client/src/transaction.rs:304-316 | every slot ends free, exactly the waiting requests are answered as cancelled, in slot order, and the session is not retired |
| `TransactionObject.TransactionManager.ExpireDue` | crates/rusty-modbus-client/src/transaction.rs:319-344 | exactly the due requests are answered with a timeout, in slot order, retiring the session if there are any, and the reported deadline is the least one left |
| `Contention.SeesAllIfEven` | crates/rusty-modbus-client/src/transaction.rs:97-162 | in any run, from any state, a registration whose draws are k foreign draws apart has seen all sixteen slots after thirty-two draws if k is even, and never sees them all if k is odd |
| `Contention.GivesUpIfEven` | crates/rusty-modbus-client/src/transaction.rs:117-162 | against a full ring with k foreign turns after each of its own, a registration sees every slot, and so returns the conflict, if and only if k is even, within thirty-two turns; nothing is registered meanwhile |
| `Contention.RegistrationCanStarve` | crates/rusty-modbus-client/src/transaction.rs:117-162 | with fifteen foreign turns a registration against a full ring sees one slot only, for any number of turns |
| `Contention.FullIsReachable` | crates/rusty-modbus-client/src/transaction.rs:117-162 | sixteen registrations from the initial state fill every slot |
| `Packing.UnpackOfPack` | benchmarks/benches/server_store.rs:447-454 | unpacking a packed coil list gives the list back |
| `Packing.PackOfUnpack` | benchmarks/benches/codec.rs:231-246 | repacking an unpacked payload restores it if and only if its unused bits are zero |
| `Packing.Pack` | benchmarks/benches/server_store.rs:437-454 | coil 8j+k is bit k of byte j and unused bits are zero |
| `Packing.PackBoolSlice` | benchmarks/benches/server_store.rs:447-454 | the in-place packer fills the buffer with the packed payload and zeros |
| `Packing.UnpackOfRegisterBytes` | benchmarks/benches/server_store.rs:395-401 | big-endian register bytes read back as the registers |
| `Packing.RegisterBytesOfUnpack` | benchmarks/benches/codec.rs:231-246 | an even number of bytes read as registers writes back as those bytes |
| `Packing.PackRegisterSlice` | benchmarks/benches/server_store.rs:456-460 | the in-place packer writes as many register pairs as fit and leaves the rest |
| `Packing.CoilsPduLimits` | benchmarks/benches/server_handler.rs:301-321 | the byte-count field equals the payload length if and only if there are at most 2040 coils; up to 1968 coils the PDU fits 253 bytes |
| `Packing.WriteMultipleCoilsPdu` | benchmarks/benches/server_handler.rs:302-321 | the nested byte and bit loops build the same bytes as packing the flat coil list |
| `BitTable.BitTable.constructor` | crates/rusty-modbus-server/src/store/bits.rs:11-16 | a new table is all false |
| `BitTable.BitTable.Set` | crates/rusty-modbus-server/src/store/bits.rs:22-30 | one bit changes and no other |
| `BitTable.BitTable.ReadByteBits` | crates/rusty-modbus-server/src/store/bits.rs:109-118 | up to eight bits at any offset are read across the byte boundary, upper bits zero |
| `BitTable.BitTable.WriteByteBits` | crates/rusty-modbus-server/src/store/bits.rs:120-143 | up to eight bits at any offset are written across the byte boundary and no others change |
| `BitTable.BitTable.ReadBits` | crates/rusty-modbus-server/src/store/bits.rs:32-53 | reading copies the exact range or reports the exact error without touching the buffer |
| `BitTable.BitTable.WriteBits` | crates/rusty-modbus-server/src/store/bits.rs:55-70 | writing splices the values into the table or changes nothing |
| `BitTable.BitTable.ReadPacked` | crates/rusty-modbus-server/src/store/bits.rs:72-91 | the packed read is the packing of the range, unused bits zero |
| `BitTable.BitTable.WritePacked` | crates/rusty-modbus-server/src/store/bits.rs:93-107 | the packed write splices the unpacked bits into the table |
| `BitTable.SpliceReadBack` | crates/rusty-modbus-server/src/store/bits.rs:32-107 | a written range reads back as written, and every disjoint range is unchanged |
| `JsonDepth.CheckDepth` | scripts/baseline.py:5005-5026 | the early-exit loop accepts exactly when the scan never passes the limit |
| `JsonDepth.GuardMeasuresNesting` | scripts/baseline.py:5005-5026 | on every JSON text, white space and escapes included, the guard accepts if and only if containers nest at most 64 deep, and its depth and string flags return to their start (sections 4, 5 and 7 of RFC 8259) |
| `ContractValidator.CheckRetention` | scripts/baseline.py:4286-4330 | one pass accepts exactly well-formed evidence with distinct IDs and indexes it |
| `ContractValidator.CheckControl` | scripts/baseline.py:4332-4403 | accepts exactly a runner, profile and binding that agree and cite retained evidence of the right kinds |
| `ContractValidator.CheckStudies` | scripts/baseline.py:4444-4574 | the nested loops accept exactly when studies are sound and no run identity, artifact evidence or artifact content is used twice across all studies |
| `ContractValidator.CheckApproval` | scripts/baseline.py:4646-4680 | accepts exactly an approval by the named authority, recorded within its evidence's retention interval |
| `ContractValidator.CheckLink` | scripts/baseline.py:4743-4860 | accepts exactly the link a promotion chain must hold at that position |
| `ContractValidator.CheckBaselines` | scripts/baseline.py:4682-4911 | the two passes accept exactly sound promotion chains whose superseded baselines name approved successors |
| `ContractValidator.CheckBudgets` | scripts/baseline.py:4913-4972 | accepts exactly budget rules with distinct IDs and distinct scenario and metric pairs |
| `ContractValidator.Validate` | scripts/baseline.py:4246-4984 | the validator accepts a contract if and only if it is acceptable as a whole, scope digest included |
| `ContractTheorems.OrderIsIrrelevant` | scripts/baseline.py:4222-4984 | permuting studies, runs, baselines, budget rules, retained evidence or control evidence IDs keeps a contract valid and leaves its canonical form and approval scope unchanged |
| `ContractTheorems.NormalizeReordered` | scripts/baseline.py:4222-4233 | reordered valid contracts have the same canonical form |
| `ContractApproval.NormalizeIsIdempotent` | scripts/baseline.py:4222-4233 | normalising a canonical form changes nothing |
| `ContractApproval.NormalizeOnlyReorders` | scripts/baseline.py:4222-4233 | normalising only permutes unordered lists; promotion chains keep their order |
| `ContractApproval.NormalizeKeepsValid` | scripts/baseline.py:4222-4984 | the canonical form of a valid contract is valid |
| `ContractApproval.ApprovalPinsContract` | scripts/baseline.py:4236-4243 | two valid contracts with the same approval record have the same canonical form, unless the digests of their two scopes collide |
| `ContractApproval.ScopeIgnoresApproval` | scripts/baseline.py:4236-4243 | an approval that carries the scope digest of the contract without it satisfies the scope check once filled in |
| `ContractApproval.ApprovalMeansApproved` | scripts/baseline.py:4715-4911 | a valid contract records an approval if and only if some baseline is currently approved |
| `ContractApproval.SupersededReachesApproved` | scripts/baseline.py:4897-4909 | every superseded baseline reaches a different, approved baseline in one step |
| `ContractApproval.PromotionsShareNothing` | scripts/baseline.py:4530-4574 | distinct promoted baselines rest on distinct runs, distinct evidence IDs and distinct content digests |
| `ContractMeaning.StudiesHaveEnoughRuns` | scripts/baseline.py:4444-4574 | every study of an accepted contract has at least the declared minimum of runs, so two; its runs agree with it, and any two differ in identity, artifact evidence and artifact content |
| `ContractMeaning.TooFewRunsAreRefused` | scripts/baseline.py:4503-4506 | a study cut below the minimum is refused |
| `ContractMeaning.ExtraRunIsAccepted` | scripts/baseline.py:4502-4574 | an accepted contract without an approval stays accepted when a study gains a run that agrees with it and has a fresh identity, evidence and content |
| `ContractMeaning.RecordsAreBacked` | scripts/baseline.py:4332-4420 | control, method, lifecycle and authority cite kept evidence of their own kinds, and the binding binds the very runner and profile |
| `ContractMeaning.ApprovalIsCovered` | scripts/baseline.py:4646-4680 | an approval names the authority, rests on its own record, was given while that record was kept and carries this contract's scope |
| `ContractMeaning.ApprovalMovesWithItsRecord` | scripts/baseline.py:4665-4672 | moving an approval in time keeps the contract accepted if and only if the new time lies within its record's retention |
| `ContractMeaning.PromotionsAreBacked` | scripts/baseline.py:4715-4911 | a baseline has exactly the chain of its stage, each link with its transition, its study, run, rule or approval and its kept evidence, and a supersession exactly when superseded |
| `ContractMeaning.BudgetsAreMeasurable` | scripts/baseline.py:4913-4972 | a budget rule is one of the three metric, unit and direction triples, has no negative limit, cites kept evidence, and shares neither its ID nor its scenario and metric |
| `ContractMeaning.LimitsAreNotNegative` | scripts/baseline.py:4913-4972 | without an approval a limit may be changed to exactly any number that is not negative |
| `ContractExample.ExampleIsValid` | scripts/baseline.py:4246-4984 | for any target, any three artifact digests and any digest function, a contract with an approved and a superseded baseline, one run more than the minimum and the matching scope digest is valid |
| `ContractExample.DraftIsValid` | scripts/baseline.py:4246-4984 | the same contract with one candidate and no approval is valid |
| `ContractExample.ExampleIsPinned` | scripts/baseline.py:4236-4243 | that contract and the one with its baselines exchanged are different, both valid, share one approval record and have one canonical form |
| `Reports.KeyIsComplete` | scripts/baseline.py:2923-2988 | a comparison key determines the whole workload identity |
| `Reports.KeysAreComparable` | scripts/baseline.py:2923-2988 | comparing two keys never sets a text against a number |
| `Reports.KeyOrder` | scripts/baseline.py:3166-3215 | the key order is total and antisymmetric |
| `Reports.ReportsAreSound` | scripts/baseline.py:2440-2664 | a valid report has both kinds of scenarios, statistics and estimates in order and in their units, a source for every repetition, no errors, and totals that count the repetitions |
| `Comparison.IndexScenarios` | scripts/baseline.py:3004-3017 | the index loop succeeds if and only if no two scenarios share a key |
| `Comparison.BuiltExactlyWhenBuildable` | scripts/baseline.py:3166-3215 | a comparison is built if and only if both reports are valid with equal modes, distinct and equal key sets and equal confidence levels; nothing else can fail |
| `Comparison.BuiltIsAccepted` | scripts/baseline.py:3369-3444 | whatever comparison is built, the comparison validator accepts |
| `Comparison.BuiltPairsUp` | scripts/baseline.py:3020-3215 | every pairing sets the means of the same metric, or the point estimates, of the two scenarios with one identity against each other, with their difference and unit, and every scenario of either report is paired |
| `Comparison.ScenarioOrderIsIrrelevant` | scripts/baseline.py:3166-3215 | permuting the scenarios of either report leaves the result unchanged |
| `Comparison.SwappingNegates` | scripts/baseline.py:3020-3215 | swapping the operands succeeds exactly when the original does and negates every delta |
| `Comparison.SelfComparison` | scripts/baseline.py:3004-3215 | a valid report is comparable with itself if and only if its keys are distinct, and then every delta is zero |
| `Comparison.TwinScenarios` | scripts/baseline.py:2603-2664 | two Criterion scenarios with one benchmark ID and different sources make a valid report without a comparison |
| `StressSamples.CompleteIsPermutation` | scripts/baseline.py:958-972 | samples are complete if and only if their keys are a permutation of operation by depth by repetition |
| `StressSamples.SelectorsAre` | scripts/baseline.py:958-972 | the expected scenarios are reads and mixed traffic of one client over ten registers at the depths 1, 8, 16, or 1, 2, 4, 8, 16 outside the smoke mode |
| `StressSamples.OnlyMaximumIsComplete` | scripts/baseline.py:1804-1807 | the largest recorded repetition is the only count for which samples can be complete |
| `StressSamples.GroupRepetitions` | scripts/baseline.py:1152-1158 | in a complete set every group holds each repetition exactly once |
| `StressSamples.CheckComplete` | scripts/baseline.py:1131-1151 | the duplicate, missing and extra tests together accept exactly complete, well-formed samples |
| `StressSamples.GroupSamples` | scripts/baseline.py:1152-1158 | the grouping loop yields each selector's samples in order |
| `StressSamples.AggregateStressSamples` | scripts/baseline.py:1131-1176 | aggregation accepts exactly acceptable samples and yields one aggregate per selector in key order |
| `StressSamples.AggregatesAreUniform` | scripts/baseline.py:1131-1176 | all aggregates count the same repetitions, cover each operation and depth once, and account for every sample |
| `StressSamples.StatisticsPass` | scripts/baseline.py:1114-1128 | the statistics of non-negative samples satisfy min ≤ median ≤ max and min ≤ mean ≤ max and pass the report validator |
| `StressSamples.StatisticsSummarise` | scripts/baseline.py:1114-1128 | recorded statistics are the count, the extremes, the exact mean and a value with at most half of the samples on either side, and the coefficient is the deviation over the mean |
| `StressSamples.MedianIsFair` | scripts/baseline.py:1123 | the median does not depend on the order of the samples, and reflecting the samples reflects it |
| `StressReport.ReportedScenariosPass` | scripts/baseline.py:1812-1864 | the scenarios built from any complete set pass the report validator: counts, sources 1..R, pairwise distinct identities, totals |
| `StressReport.ReportStress` | scripts/baseline.py:1707-1864 | the producer accepts exactly sound and complete samples that agree with their parsed file, passed command record and raw output; what it returns always passes the validator, and each scenario's latency and throughput are the statistics of exactly the samples with its selector |
| `ScenarioSets.ProducerSetIdentity` | scripts/baseline.py:4004-4024 | a producer set has an identity exactly when it is non-empty with distinct, filled-in records |
| `ScenarioSets.ScenarioSetIdentity` | scripts/baseline.py:4036-4054 | a scenario set has an identity exactly when it is non-empty with distinct, supported keys |
| `ScenarioSets.IndividualIndex` | scripts/baseline.py:4099-4123 | the index loop succeeds exactly on distinct digests with fitting metrics and then holds every scenario |
| `ScenarioSets.SetHasIndex` | scripts/baseline.py:4036-4123 | a report with a scenario-set identity, fitting metrics and no two scenarios with colliding digests has an individual index |
| `ScenarioSets.SetDigestFixesTargets` | scripts/baseline.py:4027-4136 | equal scenario-set digests give indexes with the same keys, identities and descriptors, so a rule matches both or neither |
| `ScenarioSets.MatchIsMeasure` | scripts/baseline.py:4099-4136 | a rule describes a scenario exactly when its metric, unit and direction are those of the scenario's kind |
| `ArtifactBindings.RuleMatchesAllOrNone` | scripts/baseline.py:5284-5299 | within one study a budget rule matches every verified run or none |
| `BindingCounts.MatchesPerBudget` | scripts/baseline.py:5340-5343 | a bound budget meets exactly as many artifacts as its studies have runs |
| `BindingCounts.RowsEitherWay` | scripts/baseline.py:5238-5243 | counting rows artifact by artifact or budget by budget gives one total |
| `BindingCounts.RowsAreTheTriples` | scripts/baseline.py:5351-5355 | row keys have no repeats and are exactly the (budget, bound study, run of that study) triples |
| `ArtifactVerifier.BudgetsByStudy` | scripts/baseline.py:5206-5223 | the dictionary lists, for every study, the budgets bound to it in manifest order |
| `ArtifactVerifier.CheckDirectories` | scripts/baseline.py:5225-5236 | accepts exactly bound directories that exist and do not alias |
| `ArtifactVerifier.MatchBudgets` | scripts/baseline.py:5292-5314 | succeeds exactly when all bound rules match, counting each once and capturing one row per rule, each with the rule's own fields, the artifact's, and the record of exactly the rule's metric |
| `ArtifactVerifier.Step` | scripts/baseline.py:5250-5317 | one artifact passes exactly when its content, sets and budgets check out, and all counters and rows advance accordingly; otherwise the first check it fails is reported |
| `ArtifactVerifier.VerifyArtifacts` | scripts/baseline.py:5181-5356 | verification succeeds exactly when every declared condition holds, and otherwise reports the first failing check; every row gives the declared run, the loaded full benchmark, its retained content and its own sets; match counts equal the runs of the bound studies; captured rows are the sorted triples, each with the recorded metric its rule names; the kind and closing coverage errors never occur |
| `ArtifactVerifier.CaptureOnlyAddsTheLimit` | scripts/baseline.py:5238-5356 | within the row limit verification with and without capture reports the same failure, or the same rows and match counts; beyond it capturing fails at the limit unless an earlier gate failed |
| `ArtifactVerifier.CutManifestVerifies` | scripts/baseline.py:5181-5356 | when a manifest verifies, so does the same manifest cut to version 2 or 1, with rows that are projections of the stronger ones; when it fails a check the cut still makes, the cut fails that same check |
| `ArtifactMeaning.VerifiesMeans` | scripts/baseline.py:5181-5356 | verification succeeds if and only if the manifest is pinned to the contract and covers its runs and rules, its directories exist and differ, each holds a full benchmark of its declared run with the retained content and sets, every bound rule measures the scenario it names, and captured rows stay within 4096 |
| `ArtifactMeaning.FailuresAreTrue` | scripts/baseline.py:5190-5299 | every reported failure is true of the manifest or of one of its artifacts |
| `Inventory.SplitOfText` | scripts/baseline.py:1288-1296 | non-empty break-free lines written as text split back into themselves |
| `Inventory.ParseOfPrint` | scripts/baseline.py:1291-1341 | a printed inventory line parses back to its path and digest |
| `Inventory.WriteChecksums` | scripts/baseline.py:1288-1296 | the writer produces the lines of the path-sorted listing |
| `Inventory.ValidateInventory` | scripts/baseline.py:1329-1367 | no fault is reported if and only if the text is exactly the sorted listing of the files present; for a text that inventories the right paths only digest mismatches can be reported |
| `Inventory.WrittenInventoryAccepts` | scripts/baseline.py:1288-1367 | written inventories are accepted exactly for non-empty, break-free file sets, and afterwards no file can be added, removed or changed unnoticed |
| `Inventory.InventoryIsUnique` | scripts/baseline.py:3926-3944 | a text inventories one listing at most |
| `ArtifactTree.CollectFiles` | scripts/baseline.py:3890-3917 | the worklist terminates, succeeds exactly on plain trees within the entry limit without nested inventories, and collects exactly their regular files |
| `ArtifactTree.ReadInventory` | scripts/baseline.py:3919-3944 | the preflight reads an inventory exactly when the text lists every retained path once, in order, with well-formed digests |
| `ArtifactTree.PreflightThenValidate` | scripts/baseline.py:3919-3977 | once the listed digests are the files' own, the inventory accepted by the preflight passes the full validator |
| `ArtifactRun.CommandIdNumber` | scripts/baseline.py:484-485 | the command's number can be read back from its ID |
| `ArtifactRun.CommandIdForm` | scripts/baseline.py:484-485 | an ID has the three-digit form exactly below the thousandth command |
| `ArtifactRun.FinalizedRunIsCoherent` | scripts/baseline.py:602-663 | after any commands and errors, finalising writes documents that pass every cross-document check; the status is failed with errors, else invalid when dirty, else passed, and the reasons are exactly these; the run is baseline-valid exactly when clean, error-free and its report step did not fail; command IDs are distinct and in order; a second finalisation changes nothing |
| `ArtifactRun.ReportFailureIsRecordedOnce` | scripts/baseline.py:591-663 | a report failure leaves exactly one error, however often it is reported |
| `ArtifactRun.Run.RunCommand` | scripts/baseline.py:469-589 | a command is appended under the next number, and only a required failure is raised |
| `ArtifactRun.Run.Finish` | scripts/baseline.py:602-663 | whatever was recorded before, the object is left with coherent, ended documents and distinct command IDs, baseline-valid exactly when clean, error-free and nothing is raised; a second call changes nothing |
| `LedgerTheorems.FormalWordingIsSound` | scripts/conformance_ledger.py:538-611 | in an accepted ledger every public block with formal wording is exactly the notice or exactly a tracked capability claim all of whose requirements are formally certified for its profile, implemented, independently evidenced and authorised |
| `LedgerTheorems.CapabilitiesAreSupported` | scripts/conformance_ledger.py:496-514 | a capability claim never rests on an unsupported requirement, nor on evidence below its threshold |
| `LedgerTheorems.AssessmentsAreHonest` | scripts/conformance_ledger.py:373-414 | supported means implemented in existing files, unsupported means not implemented with a reason, interoperable evidence is independent and certified evidence is authorised, one assessment per profile |
| `LedgerTheorems.RequirementsAreSourced` | scripts/conformance_ledger.py:283-372 | a requirement cites a known document at its recorded revision, project requirements have project strength and cite the policy, and what no known test covers is an admitted gap |
| `LedgerTheorems.ClaimsAreTracked` | scripts/conformance_ledger.py:465-530 | a claim rests on requirements assessed for its profile at its level or above, stands only where the profile is tracked, and uses formal wording only when certified |
| `LedgerTheorems.ExtensionsStayApart` | scripts/conformance_ledger.py:292-421 | only claims about the RTU-over-TCP extension rest on extension requirements, and these cite the project policy at its recorded revision |
| `LedgerTheorems.CountsAreTrue` | scripts/conformance_ledger.py:176-463 | the recorded counts are the numbers of requirements (seventy) and of tests, and the tests are the files the test pattern matches, one each |
| `LedgerTheorems.TestsAreListed` | scripts/conformance_ledger.py:447-451 | a requirement a test maps to lists that test |
| `LedgerTheorems.ExtraListingIsAccepted` | scripts/conformance_ledger.py:330-451 | in every accepted ledger a requirement may list one more known test; the ledger stays accepted and is not reciprocal |
| `LedgerTheorems.ReciprocalByCounting` | scripts/conformance_ledger.py:330-451 | an accepted ledger is reciprocal if and only if the test lists of its requirements are together as long as the requirement lists of its tests; they are never shorter |
| `LedgerExample.ExampleIsAccepted` | scripts/conformance_ledger.py:168-705 | a ledger with all fixed profile, requirement, finding and follow-up IDs and one live test is accepted |
| `LedgerExample.ListingIsOneWay` | scripts/conformance_ledger.py:447-451 | some accepted ledger with the fixed IDs is not reciprocal |
| `LedgerValidator.CheckRequirements` | scripts/conformance_ledger.py:283-421 | reports no fault exactly for acceptable requirements (classification, source, references, tests, gap, assessments, extension rule) and indexes every assessment |
| `LedgerValidator.CheckEveryTest` | scripts/conformance_ledger.py:423-463 | reports no fault exactly when every test is acceptable and the test paths are the live tests without repeats |
| `LedgerValidator.CheckClaim` | scripts/conformance_ledger.py:465-530 | with the filled index, reports no fault exactly for claims their assessments carry |
| `LedgerValidator.ValidateLedger` | scripts/conformance_ledger.py:168-705 | reports no fault if and only if the ledger is acceptable |

## Left out

- Connection pool, client and server tasks, TLS, gateway, simulator and command-line tools: mostly I/O around the modelled cores.
- Subprocesses, Git and Cargo queries, clocks, platform probing, argument parsing and printing in `scripts/baseline.py`: I/O.
- Symbolic links, FIFOs and inode races: a directory is a tree of plain entries; anything else is one `Special` entry.
- SHA-256, UTF-8 and JSON library internals: digests are functions of the value they are taken of.
- Floating-point rounding, overflow and the value of the standard deviation: metrics are exact reals.
- The CRC table as an array: the register model computes each entry when it is used.
- The policy document and controlled evaluation (scripts/baseline.py:3531-3851): one accepted state and constant comparisons.
- Report environment, runner labels, Markdown and CSV rendering, Criterion file discovery: field-by-field copying and checks.
- Request builders for registers (benchmarks/benches/server_handler.rs:273-299): they add only a constant header to the proved register bytes.
- Splitting public text into blocks and searching it for wording, markers and profile links: blocks and surfaces arrive with those facts.
- Register: is stated for a caller left alone; when a registration among others ends is stated by `SeesAllIfEven` and `GivesUpIfEven`.
- Sorting of artifact and budget bindings into canonical manifest order: acceptance does not depend on it; the model takes any manifest with distinct entries.
- scripts/check-publish-versions.py and scripts/fuzz.py: pointwise equality checks and process control.
