# RSScript verification model

A Dafny model of the parts of RSScript that other code trusts: the bytecode verifier, the artifact codec,
the language server's shared state, the ABI type table and the runner's seccomp filter. Each is modelled in the form
it has in the repository and proved against a definition of what it is for.

- **Bytecode verifier.** `ControlFlow` gives control-flow graphs and the runs along them; a run is any path from
  instruction 0, of any length. `Bytecode` has instructions in wire form, their checks, and the graph they induce.
  `RegisterInit` and `ResourceScopes` are the two worklist passes; both are proved exact: they accept if and only if a
  property of all runs holds. `FunctionVerifier` joins them with the range checks, and has the independent reachability
  walk of the typed-facts verifier. `Operands` lists, opcode by opcode, the registers an instruction needs and fills, and
  `InstructionMachine` runs instructions on their fields alone: acceptance is shown to be a property of all such executions.
- **Typed facts.** `WireTypes`, `Generics`, `TypedFacts` and `TypePreservation`: register and call contracts, generic
  instantiation by unification compared with substitution, and preservation of declared types over every execution at
  every call depth. The virtual machine is taken by opcode: a step writes any value the opcode can produce and follows an edge of
  the graph. `ExecutionReads` runs whole units over all
  instructions and decides exactly when every register read was written, across calls.
- **Codec.** `Bytes`, `CborKeys`, `Cbor`, `CborCanonical` and `CborDecoder` are the canonical CBOR subset of RFC 8949,
  its recursive meaning, the encoder and the cursor-based decoder as they run, and the decode, re-encode and compare
  gate. `CborStandard` compares the encoding with the bit patterns and the key order of that standard. `Container` is the
  hashed section container; the digest is a parameter.
- **Language server.** `PackageCache`, `DocumentStore` and `Publication` are step systems in which a scheduler
  interleaves atomic sections in any order; beside each stands the object that is updated in place. `WatchedFiles` joins
  the first two: what a watched-file event and a save promise about later commits. `DiagnosticsDelivery` joins the store
  with the publisher: what the client shows. `WatchedDelivery` joins all three: what the client shows after a
  watched-file event.
  `ClientText` tells the client's text from its notifications alone and compares the store with it. `TextPositions` has
  UTF-16 positions and text edits, `TextEncoding` the encodings they count in.
- **ABI model.** `TypeTable` builds the call-scoped type table, `ValueValidation` checks values against it, `PayloadSize`
  estimates payload bytes.
- **Process guard.** `SeccompFilter` is a compiler from a deny list to BPF and the evaluator of the result;
  `DecimalWriter` is the allocation-free decimal writer.

`dafny verify dfyconfig.toml` checks the project.

Eight promises do not hold as stated. Each has its failing input and the condition under which it does hold:

- The fuzz target asserts that every accepted artifact serialises to its input bytes. That holds if and only if the input
  has no unknown optional section (`Container.RewriteIsIdentityIffNothingUnknown`); `Container.UnknownSectionIsLost` shows
  that every storable artifact with unknown sections is such an input.
- The encoder writes the smallest 64-bit integer and the decoder refuses it. Decoding an encoding succeeds if and only if that
  integer occurs nowhere in the value (`Cbor.ValueRoundTrip`, `CborCanonical.SmallestIntegerIsRefused`).
- Generic unification has a shortcut for equal types, so it accepts a call in which a type parameter of the callee stands
  unsubstituted. Acceptance is substitution if and only if no parameter is kept that way
  (`Generics.InstanceIsUnificationKeepingNone`, `Generics.MentioningCallIsAcceptedUnsubstituted`).
- A variant case without fields is meant to carry no payload; the validator takes exactly that and an empty tuple
  (`ValueValidation.FieldFreeCaseTakesEmptyTuple`). The typing relation it is compared with says so.
- Definite initialisation is verified body by body. Across calls, all executions of an accepted unit find the registers
  they read if and only if every body that can come to be called needs its parameters only
  (`ExecutionReads.UnitFindsItsReadsExactly`). A drop function is also granted its field registers, and an accepted unit
  may call it (`ExecutionReads.DropCallerMissesItsField`).
- A save invalidates the package, but outdates running analyses only if it carries a text within the size limit for an open
  document. Then all later commits see the invalidation (`WatchedFiles.CommitsSeeTheSave`); otherwise an analysis that had
  its package before can still commit (`WatchedFiles.IneffectiveSaveIsNotSeen`).
- The client is meant to show what the store holds. Opens, applied changes, saves and requeues empty the stored diagnostics
  of a document without publishing that, so the client keeps the old ones until an analysis commits
  (`DiagnosticsDelivery.RequeueLeavesClientBehind`). Once things are quiet and nothing of the document was evicted, it shows
  what the store holds if and only if that is not empty or the empty list is what was last published
  (`DiagnosticsDelivery.ClientShowsTheStore`). When a watched-file event requeues several documents of one package, only
  the last of its jobs can ever commit (`DocumentStore.OnlyTheNewestJobCommits`), so for the others this lasts until their
  next analysis.
- A synchronized document is meant to hold the client's text. It does for every run of notifications within the size limit
  and in version order (`ClientText.StoreHasTheClientsText`). A saved text beyond the limit is dropped, and the document
  goes on as synchronized with its old text: the store holds the saved text if and only if it is within the limit
  (`ClientText.SavedTextIsHeldIffItFits`).

## Model

| member | source | states |
|---|---|---|
| `RegisterInit.EnqueueState` | crates/rsscript-bytecode/src/lib.rs:1325-1344 | a join intersects; a target is queued exactly when its state is new or shrank, and no other state changes |
| `RegisterInit.JoinDecreases` | crates/rsscript-bytecode/src/lib.rs:1325-1344 | every join that changes a state lowers the measure (unvisited count, then total size), so the pass ends |
| `RegisterInit.Verify` | crates/rsscript-bytecode/src/lib.rs:870-952 | accepts if and only if on every run each register read was an input or written earlier on that run; the final states are the intersection over all runs, and the visited instructions are the reachable ones |
| `RegisterInit.MissedReadIsUnsafe` | crates/rsscript-bytecode/src/lib.rs:887-892 | a rejection comes with a run that reaches the read with the register unwritten |
| `RegisterInit.FixpointIsMeet` | crates/rsscript-bytecode/src/lib.rs:882-950 | any settled state with an empty queue is the meet over all runs, however the queue was served |
| `ResourceScopes.EnqueueScope` | crates/rsscript-bytecode/src/lib.rs:1140-1165 | refuses only when two runs reach the target with different stacks |
| `ResourceScopes.Verify` | crates/rsscript-bytecode/src/lib.rs:960-1121 | with a marker, accepts if and only if every run arrives at an instruction with one fixed stack and passes its check; live depth stays below the code length however often loops run |
| `ResourceScopes.BalancedIffReplays` | crates/rsscript-bytecode/src/lib.rs:985-1025 | replaying a LIFO stack to empty is the same as matching brackets by their grammar |
| `ResourceScopes.CompleteRunsBalance` | crates/rsscript-bytecode/src/lib.rs:985-1138 | on every run of an accepted body with a `ResourceAcquire`, acquires and drops are balanced brackets at each `Return`, at the end of the body, and at each `TryResult` short-circuit with its cleanup list |
| `Bytecode.RegisterAccesses` | crates/rsscript-bytecode/src/lib.rs:1204-1239 | collecting field by field in any order gives the union over all fields, or fails exactly when some field is malformed |
| `Bytecode.CheckedAccessesInRange` | crates/rsscript-bytecode/src/lib.rs:1554-1622 | what passes the range check reads and writes well-formed registers below the limit, the register of the `some` edge included: the check and the dataflow name the same registers |
| `Bytecode.Edges` | crates/rsscript-bytecode/src/lib.rs:897-949 | the out-edges stay inside the body, write registers below the limit only, and are at most two |
| `Bytecode.GraphIsClosed` | crates/rsscript-bytecode/src/lib.rs:1382-1478 | the instruction checks make the whole graph closed |
| `Operands.ReadsExactly` | crates/rsscript-bytecode/src/lib.rs:1204-1270 | over all checked instructions, the registers the passes take as read are exactly those named by the operand fields of the opcode |
| `Operands.WritesExactly` | crates/rsscript-bytecode/src/lib.rs:1204-1239 | and those taken as written, whatever the outcome, exactly those named by its result fields |
| `InstructionMachine.EdgesWrite` | crates/rsscript-bytecode/src/lib.rs:932-947 | the `some` edge of a map lookup writes exactly `value_dst`; no other edge of any instruction writes anything |
| `InstructionMachine.EdgeFor` | crates/rsscript-bytecode/src/lib.rs:895-949 | every outcome of an instruction, told from its fields, is an edge with that target |
| `InstructionMachine.OutcomeFor` | crates/rsscript-bytecode/src/lib.rs:895-949 | every edge is an outcome of the instruction, and the found outcome of a lookup is its first edge |
| `InstructionMachine.LookupInitialisesWhenFound` | crates/rsscript-bytecode/src/lib.rs:932-947 | on every run, `value_dst` is initialised after a map lookup if and only if it was before or the run took the found outcome, which leads to `some_ip` |
| `InstructionMachine.EffectExactly` | crates/rsscript-bytecode/src/lib.rs:985-1016 | acquires, drops, unwinds and exits are exactly the opcodes that say so, with the register their field names |
| `InstructionMachine.UnwindIsCleanup` | crates/rsscript-bytecode/src/lib.rs:995-1008 | the unwind check passes if and only if the cleanup list names every open resource, innermost first |
| `InstructionMachine.InitialisationIsFound` | crates/rsscript-bytecode/src/lib.rs:870-952 | the dataflow property holds if and only if every execution on the fields alone finds the operands of every instruction it reaches |
| `InstructionMachine.AcceptanceIsExecution` | crates/rsscript-bytecode/src/lib.rs:563-693 | a well-shaped body is accepted if and only if, entered with its parameters, captures and preloaded fields, all executions find their operands and, if it acquires resources, close them innermost first on every way out |
| `FunctionVerifier.VerifyFunction` | crates/rsscript-bytecode/src/lib.rs:620-670 | the shape checks, the instruction checks and both passes together decide acceptance of one function body |
| `FunctionVerifier.AcceptedReadsAreInitialised` | crates/rsscript-bytecode/src/lib.rs:866-952 | on every run of an accepted function each register read is in range and is an input or was written earlier on that run |
| `FunctionVerifier.WrittenRegistersInRange` | crates/rsscript-bytecode/src/lib.rs:932-947 | no run initialises a register outside the frame, not even along a `some` edge |
| `FunctionVerifier.WalkFollowsEdges` | crates/rsscript-bytecode/src/typed_facts.rs:1238-1262 | the typed-facts walk queues the targets of the dataflow passes, in their order |
| `FunctionVerifier.ReachableInstructions` | crates/rsscript-bytecode/src/typed_facts.rs:1218-1265 | fails exactly when a `TailCallGuard` is reachable; otherwise returns the reachable instructions, the set both dataflow passes give a state |
| `WireTypes.HeadAndComponentsDetermine` | crates/rsscript-bytecode/src/typed_facts.rs:920-1025 | a type is determined by its head and its components |
| `Generics.UnifyIsSubstitution` | crates/rsscript-bytecode/src/typed_facts.rs:920-1025 | for all types, substituting gives the actual type if and only if unification succeeds and no parameter is kept unsubstituted |
| `Generics.MentionFreeKeepsNothing` | crates/rsscript-bytecode/src/typed_facts.rs:879-918 | a type that mentions no declared parameter keeps none |
| `Generics.InstanceIsUnificationKeepingNone` | crates/rsscript-bytecode/src/typed_facts.rs:829-877 | for every call of the callee's arity, its types are the substituted signature exactly when the check accepts it and it keeps no parameter |
| `Generics.InstantiationIsSubstitution` | crates/rsscript-bytecode/src/typed_facts.rs:829-877 | when the call's types mention no declared parameter, acceptance is exactly substitution |
| `Generics.MentioningCallIsAcceptedUnsubstituted` | crates/rsscript-bytecode/src/typed_facts.rs:925-927 | a concrete accepted call that is not a substitution instance |
| `TypedFacts.VerifyUnit` | crates/rsscript-bytecode/src/lib.rs:563-693 | the checks of bodies, names, direct-call, dynamic-call and closure shapes, function map and native signatures decide acceptance of the unit |
| `TypedFacts.VerifySignatures` | crates/rsscript-bytecode/src/verification_metadata.rs:357-416 | accepts exactly when the signatures name the public functions and have their parameter counts |
| `TypedFacts.CommonRegisterType` | crates/rsscript-bytecode/src/typed_facts.rs:1306-1327 | the loop finds the one known type of a non-empty register list, and nothing when the list is empty or mixed |
| `TypedFacts.DirectCallArityAgrees` | crates/rsscript-bytecode/src/lib.rs:722-734 | unique names, the function map and native-signature arity force one signature parameter per argument, so the truncating zip drops nothing |
| `TypedFacts.SignatureArity` | crates/rsscript-bytecode/src/verification_metadata.rs:357-416 | the signature found by a function's name has that function's parameter count |
| `TypedFacts.CheckInstructions` | crates/rsscript-bytecode/src/typed_facts.rs:1099-1216 | accepts exactly when every instruction keeps its result, record and call-site contracts and every reached return its result type |
| `TypedFacts.VerifyRegisterContract` | crates/rsscript-bytecode/src/typed_facts.rs:1071-1216 | the check run over the walk decides the contract stated over graph reachability, so only dead returns are skipped |
| `TypePreservation.ComputedIsDeclared` | crates/rsscript-bytecode/src/typed_facts.rs:1098-1190 | the value an opcode computes has the type declared for its destination |
| `TypePreservation.ArgumentMatchesParameter` | crates/rsscript-bytecode/src/typed_facts.rs:713-827 | an argument register and the callee's parameter register are declared with one type up to qualifiers |
| `TypePreservation.ReturnedIsResult` | crates/rsscript-bytecode/src/typed_facts.rs:1184-1200 | a reachable return reads a register declared with the function's result type |
| `TypePreservation.DestinationIsResult` | crates/rsscript-bytecode/src/typed_facts.rs:813-827 | a direct call's destination is declared with the callee's result type |
| `TypePreservation.StepKeeps` | crates/rsscript-bytecode/src/typed_facts.rs:1071-1216 | local steps, calls and returns keep every frame of the stack well typed |
| `TypePreservation.EntryIsOk` | crates/rsscript-bytecode/src/typed_facts.rs:1087-1093 | entering a function with well-typed registers meets the invariant |
| `TypePreservation.ExecutionsKeepTypes` | crates/rsscript-bytecode/src/typed_facts.rs:1055-1216 | from the entry of any function with well-typed registers, at the end of any execution every written register in any frame holds a value of its declared type |
| `ExecutionReads.ReadsAreFoundExactly` | crates/rsscript-bytecode/src/lib.rs:866-952 | for every program of verified bodies, over all instructions, direct calls, dynamic calls and spawned tasks: every execution finds every register it reads if and only if each body that some live run calls needs its parameters only |
| `ExecutionReads.UnitFindsItsReadsExactly` | crates/rsscript-bytecode/src/lib.rs:563-693 | the same for every accepted unit |
| `ExecutionReads.Walk` | crates/rsscript-bytecode/src/lib.rs:882-950 | every run that passes only calls which can return is executable, and leaves the frame holding exactly what the run has written |
| `ExecutionReads.CallFreeEntriesExactly` | crates/rsscript-bytecode/src/lib.rs:866-952 | entering a body without direct or dynamic calls with its parameters only finds all reads if and only if the verifier would accept it with those inputs |
| `ExecutionReads.ExecutionsFindTheirReads` | crates/rsscript-bytecode/src/lib.rs:866-952 | if every body called directly or dynamically would be accepted with its parameters as only inputs, every state of every execution of the accepted unit finds its reads |
| `ExecutionReads.UnitsAreOk` | crates/rsscript-bytecode/src/lib.rs:722-757 | call shapes make every direct call pass exactly its callee's parameters, and every dynamic call those of each of its targets |
| `ExecutionReads.OrdinaryFunctionsStandAlone` | crates/rsscript-bytecode/src/lib.rs:664-670 | an accepted function that is no drop function and has no captures needs its parameters only |
| `ExecutionReads.PreloadedFieldIsMissed` | crates/rsscript-bytecode/src/verification_metadata.rs:70-129 | at any call that a live run reaches, a callee that first reads a register the call does not set misses it |
| `ExecutionReads.DropCallerMissesItsField` | crates/rsscript-bytecode/src/lib.rs:722-734 | such a unit passes the unit checks, so the condition is needed |
| `ExecutionReads.DropCallerExists` | crates/rsscript-bytecode/src/lib.rs:722-734 | a concrete unit of that kind |
| `Bytes.BigEndianRoundTrip` | crates/rsscript-bytecode/src/canonical_cbor.rs:225-236 | reading back a big-endian integer gives the integer |
| `CborKeys.SortKeys` | crates/rsscript-bytecode/src/canonical_cbor.rs:70-82 | the sorted list holds exactly the keys, strictly ascending in the key order |
| `CborStandard.KeyOrderIsBytewise` | crates/rsscript-bytecode/src/canonical_cbor.rs:73-77 | for all texts, comparing by length and then bytes is comparing the encodings bytewise, as section 4.2.1 of RFC 8949 asks |
| `CborStandard.WrittenKeysAscend` | crates/rsscript-bytecode/src/canonical_cbor.rs:70-85 | every object is written as its head and each of its entries once, the encoded keys ascending bytewise |
| `CborStandard.HeadIsStandard` | crates/rsscript-bytecode/src/canonical_cbor.rs:118-135 | the head has the bit layout of section 3 of RFC 8949 |
| `CborStandard.EncodingIsStandard` | crates/rsscript-bytecode/src/canonical_cbor.rs:47-86 | every kind of value is written with the standard's major type and argument or simple value |
| `CborKeys.ListingUnique` | crates/rsscript-bytecode/src/canonical_cbor.rs:70-82 | a set of keys has one canonical order, so insertion order cannot show |
| `Cbor.HeadRoundTrip` | crates/rsscript-bytecode/src/canonical_cbor.rs:118-135 | major type and argument are recovered, and nothing after them is consumed |
| `Cbor.HeadIsShortest` | crates/rsscript-bytecode/src/canonical_cbor.rs:118-135 | no other encoding of the argument is shorter, as section 4.2.1 of RFC 8949 asks |
| `Cbor.ValueRoundTrip` | crates/rsscript-bytecode/src/canonical_cbor.rs:47-187 | for every value the encoder accepts, decoding its encoding followed by any bytes consumes exactly the encoding and returns the value, unless the smallest integer occurs in it, when it is refused |
| `CborCanonical.DecodedIsGood` | crates/rsscript-bytecode/src/canonical_cbor.rs:143-194 | whatever decodes is well formed, within the nesting limit, and free of the smallest integer |
| `CborCanonical.GateIsImage` | crates/rsscript-bytecode/src/lib.rs:1829-1837 | decode, re-encode and compare accepts exactly the image of the encoder, less the values holding the smallest integer |
| `CborCanonical.GateIsOneToOne` | crates/rsscript-bytecode/src/lib.rs:570-574 | each admitted byte string has one value and each value one admitted byte string |
| `CborCanonical.EncodingsArePrefixFree` | crates/rsscript-bytecode/src/canonical_cbor.rs:47-86 | for all values the encoder may be given, the smallest integer included, no encoding begins another |
| `CborCanonical.SmallestIntegerIsRefused` | crates/rsscript-bytecode/src/canonical_cbor.rs:152-160 | a value holding the smallest integer anywhere is written and then refused |
| `CborCanonical.LongArgumentIsDecodedButNotAdmitted` | crates/rsscript-bytecode/src/canonical_cbor.rs:225-236 | the decoder takes an argument longer than needed, the gate does not |
| `CborCanonical.UnsortedKeysAreDecodedButNotAdmitted` | crates/rsscript-bytecode/src/canonical_cbor.rs:175-187 | the decoder takes keys out of order, the gate does not |
| `CborCanonical.EncodeValue` | crates/rsscript-bytecode/src/canonical_cbor.rs:47-86 | appends exactly the encoding, or fails exactly when the nesting limit is passed |
| `CborDecoder.Decoder.NextValue` | crates/rsscript-bytecode/src/canonical_cbor.rs:143-194 | advances the cursor over exactly the bytes the recursive meaning consumes, with the same value or error |
| `CborDecoder.Decoder.Argument` | crates/rsscript-bytecode/src/canonical_cbor.rs:225-236 | reads the argument and advances past it |
| `CborDecoder.Decoder.Length` | crates/rsscript-bytecode/src/canonical_cbor.rs:238-247 | refuses a length that cannot fit in the remaining bytes |
| `CborDecoder.DecodeAll` | crates/rsscript-bytecode/src/canonical_cbor.rs:38-45 | one value and nothing after it, with the same error otherwise |
| `Container.ParseInverts` | crates/rsscript-bytecode/src/lib.rs:184-195 | parsing a written section gives the section and leaves the rest |
| `Container.ParsedIsBytes` | crates/rsscript-bytecode/src/lib.rs:184-195 | whatever parses is a written section followed by the rest |
| `Container.ToBytes` | crates/rsscript-bytecode/src/lib.rs:109-139 | writes magic, count and the artifact's own sections, or fails exactly when a value passes the nesting limit |
| `Container.FromBytes` | crates/rsscript-bytecode/src/lib.rs:167-245 | accepts exactly the normal forms: magic, count, the artifact's sections, then unknown optional ones; the result is the artifact they were made from |
| `Container.DecodeCanonicalSection` | crates/rsscript-bytecode/src/lib.rs:1829-1837 | returns the one value the gate admits, or nothing when there is none |
| `Container.NormalFormUnique` | crates/rsscript-bytecode/src/lib.rs:167-245 | a byte string is the normal form of one artifact and one list of unknown sections at most |
| `Container.WrittenIsNormal` | crates/rsscript-bytecode/src/lib.rs:109-139 | what is written is a normal form without unknown sections |
| `Container.WriteThenRead` | crates/rsscript-bytecode/src/lib.rs:109-245 | reading back what was written gives the artifact if and only if it is storable: within the nesting limit and free of the smallest integer |
| `Container.ReadThenWrite` | crates/rsscript-bytecode/src/lib.rs:109-245 | on every accepted input, writing what was read gives the known sections alone, which is the input itself exactly when it had no others |
| `Container.UnknownSectionIsLost` | fuzz/fuzz_targets/bytecode_artifact.rs:14-22 | every storable artifact followed by any unknown sections is accepted and not written back as it was |
| `Container.RewriteIsIdentityIffNothingUnknown` | fuzz/fuzz_targets/bytecode_artifact.rs:14-22 | writing an accepted artifact gives the input bytes if and only if nothing unknown was in them |
| `TypeTable.InsertKeeps` | crates/rsscript-abi-model/src/lib.rs:553-617 | after an insert the table has no duplicates, every component stands before its parent, every resource is listed, and no identity has changed |
| `TypeTable.SignatureTableOk` | crates/rsscript-abi-model/src/lib.rs:163-175 | the table of a signature is well built and holds all its types |
| `TypeTable.WithRecordsKeeps` | crates/rsscript-abi-model/src/lib.rs:180-193 | record layouts bring in all their field types and change no identity |
| `TypeTable.WithVariantsKeeps` | crates/rsscript-abi-model/src/lib.rs:202-217 | variant layouts bring in all their payload types and change no identity |
| `TypeTable.LayoutOrderDoesNotMatter` | crates/rsscript-abi-model/src/lib.rs:176-217 | layouts of distinct types give the same table in whatever order they are supplied |
| `TypeTable.CallTypeTable.InsertType` | crates/rsscript-abi-model/src/lib.rs:553-617 | growing the lists in place computes the specified insertion, and fails exactly on overflow |
| `TypeTable.CallTypeTable.AddSignature` | crates/rsscript-abi-model/src/lib.rs:163-175 | the loop over parameters and result computes the specified table |
| `TypeTable.CallTypeTable.AddRecords` | crates/rsscript-abi-model/src/lib.rs:180-193 | sorting, inserting and keeping the layouts computes the specified table |
| `TypeTable.CallTypeTable.AddVariants` | crates/rsscript-abi-model/src/lib.rs:202-217 | the same for variant layouts |
| `ValueValidation.IdDenotes` | crates/rsscript-abi-model/src/lib.rs:228-234 | on a well-built table, searching for a type and reading an identity are inverse |
| `ValueValidation.ResourceIn` | crates/rsscript-abi-model/src/lib.rs:240-250 | every resource in the table has one identity in the resource table |
| `ValueValidation.ValidationIsTyping` | crates/rsscript-abi-model/src/lib.rs:282-551 | for every type in a built table the checker accepts exactly the typed values, fields in the order of the first layout listed for the type, and never reports a type as absent; recursive layouts included |
| `ValueValidation.FieldTypesInOrder` | crates/rsscript-abi-model/src/lib.rs:433-439 | the types checked against are those of the layout's fields, one for each and in order |
| `ValueValidation.FindsTheLayout` | crates/rsscript-abi-model/src/lib.rs:195-221 | the search finds a layout whenever one is listed for the type, and then the first |
| `ValueValidation.PayloadAgrees` | crates/rsscript-abi-model/src/lib.rs:517-551 | payload acceptance by field count: none, the value itself, or a tuple |
| `ValueValidation.FieldFreeCaseTakesEmptyTuple` | crates/rsscript-abi-model/src/lib.rs:517-551 | over all payloads, a case without fields takes exactly none and an empty tuple |
| `PayloadSize.EstimatedPayloadBytes` | crates/rsscript-abi-model/src/lib.rs:691-717 | the stack walk with saturating additions gives the sum over the whole value, text counted as encoded, capped at the word size |
| `TextPositions.PositionsIncrease` | crates/lsp/src/text.rs:96-119 | positions and byte offsets strictly increase along the text, so each names one boundary |
| `TextPositions.CheckedByteOffset` | crates/lsp/src/text.rs:96-119 | the exact inverse of the map from boundaries to positions; succeeds if and only if the position names a boundary |
| `TextPositions.ByteOffset` | crates/lsp/src/text.rs:123-153 | the named boundary when there is one; otherwise the first boundary past the position, the end of its line, or the end of the text |
| `TextPositions.ApplyChange` | crates/lsp/src/text.rs:77-94 | applies exactly when both ends name boundaries in order; then splices between them, otherwise leaves the text |
| `TextEncoding.OffsetsCountBytes` | crates/lsp/src/text.rs:96-119 | the offset of every boundary is the length of the UTF-8 encoding before it |
| `TextEncoding.ColumnsCountUnits` | crates/lsp/src/text.rs:96-119 | the column of every boundary is the number of UTF-16 code units since the start of its line |
| `TextEncoding.LinesCountNewlines` | crates/lsp/src/text.rs:96-119 | the line of every boundary is the number of newlines before it |
| `TextEncoding.ChangesReplaceBytes` | crates/lsp/src/text.rs:77-94 | a change replaces exactly the bytes between the offsets of its positions by the bytes of its text |
| `DocumentStore.RunsKeep` | crates/lsp/src/documents.rs:92-313 | over every run of open, change, save, close, requeue, commit and cancel events, an outstanding job whose generation is current saw exactly the current inputs |
| `DocumentStore.CommittedJobIsFresh` | crates/lsp/src/documents.rs:149-198 | a job that passes the guard was computed from exactly the current text of every synchronized open document with its key, and of no other |
| `DocumentStore.OnlyTheNewestJobCommits` | crates/lsp/src/backend.rs:354-398 | of the jobs outstanding for one key only the newest can ever pass the guard, now or after any further events |
| `ClientText.EditAllIsChain` | crates/lsp/src/documents.rs:252-263 | the loop of edits succeeds if and only if there is a chain of texts, each a splice of the one before and within the limit, and gives its last |
| `ClientText.StoreHasTheClientsText` | crates/lsp/src/documents.rs:200-313 | after every run of notifications: a document is open exactly if the client has it open, synchronized exactly if the client's text is known, and then holds the client's text and version; after a change that cannot be applied the text is unknown until a whole text arrives |
| `ClientText.CommittedJobReadTheClientsTexts` | crates/lsp/src/documents.rs:149-198 | a job that passes the guard was computed from the client's text of every document it read |
| `ClientText.SavedTextIsHeldIffItFits` | crates/lsp/src/documents.rs:292-313 | after a save of an open document the synchronized store holds the saved text if and only if it is within the limit; otherwise nothing changes |
| `DocumentStore.DocumentStore.AllocateRevision` | crates/lsp/src/documents.rs:92-97 | a new revision becomes the key's generation; documents stay |
| `DocumentStore.DocumentStore.AnalysisJob` | crates/lsp/src/documents.rs:174-198 | the job carries the synchronized documents of its key and the current generation |
| `DocumentStore.DocumentStore.OpenDocument` | crates/lsp/src/documents.rs:200-231 | the specified new store and job; oversized or stale openings change nothing |
| `DocumentStore.DocumentStore.Change` | crates/lsp/src/documents.rs:233-290 | the loop of edits stores the fold of the splices under a new revision, or leaves the text and suspends the document, with every failure outcome |
| `DocumentStore.DocumentStore.Desynchronize` | crates/lsp/src/documents.rs:279-290 | the specified suspended document under a new generation |
| `DocumentStore.DocumentStore.SaveDocument` | crates/lsp/src/documents.rs:292-313 | the specified new store and job, for open documents within the size limit only |
| `DocumentStore.DocumentStore.CloseDocument` | crates/lsp/src/backend.rs:335-352 | the document is gone and its key has a new generation |
| `DocumentStore.DocumentStore.RequeueDocument` | crates/lsp/src/backend.rs:381-390 | a synchronized document gets a new revision and job, its text unchanged |
| `DocumentStore.DocumentStore.CommitIfCurrent` | crates/lsp/src/documents.rs:149-172 | commits exactly when the guard holds, and then changes only that document's diagnostics |
| `PackageCache.RunsKeep` | crates/lsp/src/workspace.rs:69-151 | under every schedule, a root's generation is its latest install, entries were loaded after their generation was installed, and no held counter value is shared |
| `PackageCache.AnswersAreFresh` | crates/lsp/src/workspace.rs:69-108 | the snapshot a call returns was loaded after every install of its root that preceded the call |
| `PackageCache.AnswersSeeReturnedInvalidations` | crates/lsp/src/workspace.rs:110-133 | a call that begins after an invalidation returned answers with a snapshot loaded after the generation which that invalidation itself installed |
| `PackageCache.GenerationsNeverRecur` | crates/lsp/src/workspace.rs:135-151 | a superseded generation never becomes current again, so the equality test is free of ABA |
| `PackageCache.GenerationsMayGoBack` | crates/lsp/src/workspace.rs:145-151 | a schedule in which a root's generation decreases, so freshness cannot rest on monotonicity |
| `PackageCache.PackageInputCache.GenerationForRoot` | crates/lsp/src/workspace.rs:135-143 | the specified read, allocating on first use |
| `PackageCache.PackageInputCache.AdvanceGeneration` | crates/lsp/src/workspace.rs:145-151 | the two halves in sequence |
| `PackageCache.PackageInputCache.Invalidate` | crates/lsp/src/workspace.rs:110-113 | a new generation, and the entry removed |
| `PackageCache.PackageInputCache.InvalidatePath` | crates/lsp/src/workspace.rs:115-133 | exactly the cached roots above the path and the root found for it get new, pairwise different generations and lose their entries |
| `PackageCache.PackageInputCache.DocumentsForRoot` | crates/lsp/src/workspace.rs:69-108 | one undisturbed pass returns the cached snapshot of the current generation or stores the loaded one |
| `WatchedFiles.TracesKeep` | crates/lsp/src/backend.rs:86-160 | the joint invariant of store, cache and running analyses over every interleaving |
| `WatchedFiles.OlderJobsAreStale` | crates/lsp/src/backend.rs:368-392 | after the requeue section no job of an affected package that existed before can pass the guard |
| `WatchedFiles.CommitsSeeTheChange` | crates/lsp/src/backend.rs:354-398 | after a watched-file event, in every interleaving, a job of an affected package that passes the guard used a package snapshot loaded after the generation the event's invalidation installed |
| `WatchedFiles.CommitsSeeTheSave` | crates/lsp/src/backend.rs:318-333 | the same after a save of an open document within the size limit |
| `WatchedFiles.IneffectiveSaveIsNotSeen` | crates/lsp/src/backend.rs:318-333 | without text, or with a save that is not effective, a job that had its snapshot before the invalidation still passes the guard and does not see it |
| `WatchedFiles.AnsweredJobExists` | crates/lsp/src/backend.rs:86-160 | a trace that leads to such a job |
| `Publication.HistoriesKeep` | crates/lsp/src/publication.rs:23-89 | the invariant of every interleaving of enqueuers and the worker |
| `Publication.NoLostWakeUp` | crates/lsp/src/publication.rs:23-89 | a non-empty map implies a wake, a worker that will still look, or an enqueuer about to send; the map stays within its cap; deliveries of a document follow enqueue order |
| `Publication.QuietMeansDelivered` | crates/lsp/src/publication.rs:66-89 | once quiet, the last publication of every document was delivered after all others of that document, or was evicted at the cap |
| `Publication.EvictedAtCap` | crates/lsp/src/publication.rs:30-35 | every evicted item made room, at some point of the history, for a document that was not pending while the map was at the cap |
| `Publication.FewDocumentsEvictNone` | crates/lsp/src/publication.rs:30-35 | a history that concerns no more documents than the cap evicts nothing |
| `Publication.FewDocumentsAreDelivered` | crates/lsp/src/publication.rs:24-89 | there, once quiet, the last publication of every document was delivered last, without exception |
| `Publication.OwnStepsAreBounded` | crates/lsp/src/publication.rs:66-89 | without new insertions the number of further steps is bounded by the work there was |
| `Publication.EverythingSettles` | crates/lsp/src/publication.rs:66-89 | every interleaving can run on to a quiet state |
| `Publication.DiagnosticsPublisher.Enqueue` | crates/lsp/src/publication.rs:24-41 | the specified insertion, evicting at the cap only for a new document, and a wake |
| `Publication.DiagnosticsPublisher.TakePending` | crates/lsp/src/publication.rs:43-52 | empties the map into a list of exactly its items |
| `DiagnosticsDelivery.LastDeliveryIsLastPublished` | crates/lsp/src/backend.rs:139-159 | over every interleaving, once quiet, the last delivery of a document is that of its last commit, close or loss of synchronization, unless it was evicted at the cap |
| `DiagnosticsDelivery.SectionsPublishWhatTheyStore` | crates/lsp/src/backend.rs:139-352 | each store section leaves a document's diagnostics alone, empties them, or publishes what it stores |
| `DiagnosticsDelivery.ClientShowsTheStore` | crates/lsp/src/backend.rs:139-159 | once quiet, for every open document whose last publication was not evicted: the client shows the diagnostics and version the store holds if and only if they are not empty or the empty list, with that version, is what was last published |
| `DiagnosticsDelivery.FewDocumentsAreShown` | crates/lsp/src/publication.rs:24-89 | while no more documents than the cap were published for, the two results above hold without the exception for evictions |
| `DiagnosticsDelivery.RequeueLeavesClientBehind` | crates/lsp/src/backend.rs:368-392 | after a requeue of a document shown up to date things stay quiet and nothing is evicted, the store holds no diagnostics for it, and the client goes on showing the old ones |
| `DiagnosticsDelivery.DeliverySettles` | crates/lsp/src/publication.rs:66-89 | from every reachable state the publisher's own steps lead to a quiet one, with the store unchanged and nothing evicted |
| `DiagnosticsDelivery.ShownUpToDateExists` | crates/lsp/src/backend.rs:86-160 | open, commit and delivery lead to such a document, without an eviction |
| `WatchedDelivery.StoresAgree` | crates/lsp/src/backend.rs:86-398 | over every interleaving of cache, store and publisher, the run seen without the publisher and the one seen without the cache hold the same store |
| `WatchedDelivery.LastIsLastPublished` | crates/lsp/src/backend.rs:139-159 | what the publisher was last given for a document is what the last section of the joint run that published for it computed |
| `WatchedDelivery.HeldAfterTheEvent` | crates/lsp/src/backend.rs:368-392 | diagnostics that the store holds for a requeued document come from a commit after the watched-file event |
| `WatchedDelivery.ClientSeesTheChange` | crates/lsp/src/backend.rs:354-398 | once quiet, if the last publication for a document of an affected package was a commit after the watched-file event, the client shows it unless evicted, and it was computed from a package snapshot loaded after the generation the event's invalidation installed |
| `WatchedDelivery.HeldSeesTheChange` | crates/lsp/src/backend.rs:354-398 | once quiet after a watched-file event, diagnostics held for a document it requeued are what the client shows, unless evicted, and were computed from such a snapshot |
| `SeccompFilter.Program` | crates/process-guard/src/lib.rs:697-724 | fills the array with the preamble, a test and a denial for each listed number in order, and the final allow |
| `SeccompFilter.Run` | crates/process-guard/src/lib.rs:2094-2127 | the loop over program counter and accumulator computes the evaluator's meaning |
| `SeccompFilter.TestsDecide` | crates/process-guard/src/lib.rs:697-724 | from the i-th test on, the program denies exactly the numbers still listed |
| `SeccompFilter.FilterImplementsPolicy` | crates/process-guard/src/lib.rs:685-724 | for a deny list of any length and any architecture and number, the program never leaves itself and returns kill, deny or allow as the policy says |
| `DecimalWriter.DigitsDenote` | crates/process-guard/src/lib.rs:1211-1226 | the digits denote the number and have no leading zero |
| `DecimalWriter.CanonicalUnique` | crates/process-guard/src/lib.rs:1211-1226 | a number has one such digit string |
| `DecimalWriter.AppendDecimal` | crates/process-guard/src/lib.rs:1211-1226 | writes exactly the number's digits at the start of the buffer and leaves the rest |

## Left out

- Floating-point numbers in CBOR, with their narrowing to half and single width.
- SHA-256: the container's results hold for every function to 32 bytes; nothing is said about collisions.
- The serde mapping between header or imports and their CBOR values, and JSON text.
- Error messages and the order in which several errors of one input would be reported, except in the CBOR decoder.
- The full table of about 110 opcodes: those that steer control, touch resources or change a field's meaning are named, all others are `Plain` with arbitrary fields.
- Shape checks of external calls, mutable-argument lists and variant instruction layouts.
- Size limits, work budgets and cancellation of the verifiers.
- `WireType::parse` and `verify_wire_type`.
- FunctionVerifier.VerifyFunction: the register and instruction count limits are not modelled.
- TypedFacts.VerifyUnit: bodies are checked before names and shapes, so which of several errors is reported is not modelled; nor are resource-drop, type, variant and source-map metadata and the import table.
- The schema-version switch in front of generic instantiation: the model has it on.
- ExecutionReads.ReadsAreFoundExactly: closure and external calls go on locally; closure bodies are entered as executions of their own, with the inputs they were verified with. A dynamic call may enter any of its dispatch targets; the receiver's type is not modelled.
- DiagnosticsDelivery.ClientShowsTheStore: the conversion of stored diagnostics to client positions is the identity.
- TypedFacts.VerifySignatures: types are parsed, so the checks for empty type names and the count limit are not modelled.
- WatchedFiles.CommitsSeeTheChange: cancellation is never forced; each change of an event is invalidated by a thread of its own; an analysis asks the cache once.
- TypePreservation.ExecutionsKeepTypes: assumes no unknown register fact, exact-signature direct calls and the instruction fragment named in `InFragment`, because unknown facts are compatible with every type and a generic callee's registers are declared with type parameters.
- TypeTable.LayoutOrderDoesNotMatter: the derived order on wire types is any total order, given as a parameter.
- TextPositions.ByteOffset: does not model 32-bit wrap-around of the column count.
- PackageCache.PackageInputCache.DocumentsForRoot: one pass without interference; the retry loop and every interleaving are in the step system.
- DocumentStore.RunsKeep: the package key of a document is a fixed function, revisions are unbounded, and the language service's mirror of the documents is not modelled.
- Publication.QuietMeansDelivered: holds for every positive cap, of which the server's 4096 is one; a closed channel and a poisoned lock are not modelled.
- Discovery of package roots on disk, reading of packages, debounce timers and task scheduling.
- The virtual machine, bundles, semantic diff, the compiler front end, editor features, and the guard's operating-system calls.
