# Verified models of the cp-chain scripting host and its neighbours

Dafny models of the parts of cp-chain whose correctness is a matter of invariants rather than of plumbing,
with the properties they are meant to have proved for all inputs and all runs. `dafny verify dfyconfig.toml`
checks everything.

## The call-frame machine of the Forge-script host

The host shadows the EVM call stack with frames of its own, driven by trace hooks, and hangs pranks (overrides
of msg.sender and tx.origin) and broadcasts (sub-calls captured as transactions) on them.

* `CallFrames` has every hook as a function on a value `State`; `None` is a Go panic. `Event`, `Step` and `Run`
  make it a machine: an event is one call into the host, with whatever arguments the EVM picks.
* `Hosts` is the host as it is: a class whose methods push, pop and update frame objects in place. Each method
  is proved to do to the object what the function does to its value, panics included; `Replay` makes any sequence
  of calls into the object a run of the machine, so every lemma about runs is about the object.
* `Journals` is an independent account of a run. It records each frame at the moment it appears (opcode, prank
  and salt of the frame below, scope, nonce of the caller, tx.origin then and before the call) and never looks at
  it again.
* `Ledgers` is kept from the events alone and never looks at the host: which prank or broadcast is in force for every
  frame, and the opcode and salt it ran last. Over every run the host agrees with it, so what is reported, counted
  and answered is a matter of the events.

`StackShape`, `Jumps`, `Access`, `Ledgers`, `Answers`, `Transactions`, `Nonces`, `Panics`, `Exactness`, `Siblings` and
`OneShot` hold for every sequence of hook calls at any depths. `Overrides`, `GasAndNonces`, `Numbering` and `Origins`
are about runs in which the EVM calls the hooks the way it enters and leaves calls; `Nesting.Legal` states all that is
taken of it: calls are entered by the opcodes that make calls and nest like brackets, the depth of an opcode is the
number of open calls, the caller override is asked for just before a call is entered and is what the callee sees, the
EVM itself counts the nonce of a CREATE between entering and the first opcode, cheatcodes run inside calls to the
cheatcode address, and the cheatcode and console addresses run no bytecode. Calls that open no frame (precompiles,
accounts without code) are included. The derivations of CREATE and CREATE2 addresses are arbitrary functions; that
every reported deployment satisfies them is proved, since the host panics otherwise. `Scripts` and `Gaps` build
example runs from a fresh host.

## The rest

* `SourceMaps`, `Programs`, `SourceLookup`: the decoder of Solidity source maps (Solidity documentation, Internals,
  section "Source Mappings") over a sweep of the bytecode, the same against assembled programs, and lookups with a
  cache of line tables.
* `Consoles`, `Formats`, `BigIntegers`, with `Decimals` and `Strings`: the console formatter, what it makes of format
  strings written from parts, and exact printing of integers.
* `AbiNames`, `Reverts`, `FieldSetters`: names of ABI types, revert data (Contract ABI Specification, section
  "Formal Specification of the Encoding"), and the jump table with field getters and setters.
* `Allocations`: genesis allocations as objects on the heap, copied and then funded in place.
* `ForkSchedules`: the upgrade schedule. `Persistence`: the sequencer state on disk, as a machine of threads, a
  lock, file-system steps and crashes, and the two operations that run its steps in order.

## Where the code and what is said about it differ

The models follow the code; each of these has its exact condition as a lemma or a contract.

* A prank that sets both sender and origin never overrides tx.origin: the sender is returned first
  (common/script/prank.go:45-50). When a callee sees the origin of a prank is `Overrides.PrankedCalls`, and
  `Overrides.SenderHidesOrigin` is a run in which it does not.
* Tx.origin is restored only when a frame is popped. A call that overrides it and opens no frame leaves it
  changed: `Origins.OriginDiscipline`, `Origins.LeafCallLeaks`. That includes calls to the cheatcode precompile:
  its exemption tests the caller, not the callee (common/script/prank.go:40).
* A CALL to an account without code counts a nonce and reports nothing, so a number is skipped:
  `Numbering.ConsecutiveNumbering`, `Gaps.NumberSkipped`.
* The fixed-precision printer drops the sign of negative numbers smaller than 10^p: `BigIntegers.FixedExact`.
* `%%` writes both percent signs (common/script/console.go:226-227), so no text is lost; a leading byte order mark is
  dropped: `Consoles.TextAndValuesConserved`, `Consoles.NoValuesUnchanged`.
* An empty source map is one entry, not none: `SourceMaps.CompressionRoundTrip`.
* Columns count from 0 on the first line and from 1 on the others: `SourceLookup.LoadLineColData`.
* Field setters ignore the bytes of a word they do not need: `FieldSetters.ReadBack`.
* Upgrade times wrap around, and an offset of exactly 2^64 minus the genesis time counts as active at genesis:
  `ForkSchedules.UpgradeTimesOrdered`, `ForkSchedules.ActiveIff`. Interop is not part of the check.

## Model

| member | source | states |
|---|---|---|
| `Hosts.Host.HandleCaller` | common/script/prank.go:36-54 | the sender a call gets and the tx.origin it sees, for every prank, opcode and caller, with the stack untouched |
| `Hosts.Host.Prank` | common/script/prank.go:58-85 | replaces the prank of the top frame by a new one that remembers tx.origin, or reports which kind is active and changes nothing |
| `Hosts.Host.StopPrank` | common/script/prank.go:88-113 | removes a prank of the same kind; the silent and the reported mismatches change nothing |
| `Hosts.Host.OnEnter` | common/script/script.go:525-552 | counts the nonce of the effective sender for a broadcast CALL or CREATE2 and nothing else; fails exactly on an opcode mismatch under a prank |
| `Hosts.Host.Report` | common/script/prank.go:216-272 | hands exactly one broadcast to the hook, or none for delegate and static calls; fails exactly where the derived address or the opcode is unexpected |
| `Hosts.Host.Return` | common/script/script.go:642-649 | restores tx.origin if the prank overrides it and uses up a prank that does not repeat |
| `Hosts.Host.Leave` | common/script/script.go:619-651 | what leaving a sub-call does to its parent and to the host, with and without a prank; fails exactly if the report fails |
| `Hosts.Host.PopFrame` | common/script/script.go:616-654 | one round of the unwinding loop: report, restore, use up, drop the top frame and keep all others |
| `Hosts.Host.UnwindCallstack` | common/script/script.go:614-656 | pops exactly the frames deeper than the depth, as objects a prefix of what there was; fails exactly if one report fails |
| `Hosts.Host.OnExit` | common/script/script.go:571-587 | charges the frame on top, then unwinds; fails on an empty stack |
| `Hosts.CallFrame.Tick` | common/script/script.go:684-696 | the bookkeeping of an opcode in its frame, in place |
| `Hosts.Host.GrantCheatcodes` | common/script/script.go:662-668 | only a contract being deployed by an allowed caller gains access |
| `Hosts.Host.Descend` | common/script/script.go:671-679 | a new frame object appears exactly if the opcode runs deeper than the top |
| `Hosts.Host.OnOpcode` | common/script/script.go:659-697 | unwinding, granting, pushing and bookkeeping together; frames below stay the same objects in the same order |
| `Hosts.Host.Dispatch` | common/script/script.go:282-297 | every call into the object is the step of the machine, panics included |
| `Hosts.Host.Replay` | common/script/script.go:282-297 | any sequence of calls into the object is a run of the machine, and stops where that panics |
| `Jumps.JumpsRemembered` | common/script/script.go:684-693 | over every run each frame remembers its last opcode, and the program counters that preceded the last five JUMPDESTs it ran |
| `StackShape.UnwindShape` | common/script/script.go:614-656 | on a stack of increasing depths unwinding keeps exactly the frames no deeper; only the innermost of them may lose a one-shot prank |
| `StackShape.OpcodeSameDepth` | common/script/script.go:659-697 | a frame at the depth of an opcode stays, with everything below it, and is the scope that runs |
| `StackShape.OpcodeNewDepth` | common/script/script.go:659-697 | otherwise a new frame at exactly that depth appears on the shallower ones |
| `StackShape.RunShape` | common/script/script.go:614-697 | frame depths stay strictly increasing over every sequence of hook calls |
| `Access.AccessContained` | common/script/script.go:662-668 | over every run cheatcode access is never lost and stays within every set that holds what was allowed and is closed under grants and deployments by its members |
| `Access.AccessIff` | common/script/script.go:662-668 | over every run an account has access at the end if and only if it had it at first, was granted it, or ran as a deployment by an account that had access by then |
| `Ledgers.OrdersInForce` | common/script/prank.go:58-113 | after any run the prank of every frame is the order that the events left it with: set, refused, replaced, stopped or used up; its last opcode and salt are those of its last opcode and its last CREATE2 |
| `Answers.CheatsAnswered` | common/script/prank.go:58-113 | after any run, which settings and stops are refused, and with which error, by the order in force |
| `Answers.CallsAnswered` | common/script/prank.go:36-54 | after any run, the sender and tx.origin that any caller gets by the order in force, and that the cheatcode precompile as caller is exempt |
| `Transactions.FramesByEvents` | common/script/script.go:659-697 | over every run, the opcode, salt and order under which each frame appeared are those of the events: none after a stop or a used up order |
| `Transactions.BroadcastsByEvents` | common/script/prank.go:216-272 | over every run the broadcasts are one for one the transactions that the events say were made under a broadcast order; a CREATE2 carries the salt of its own opcode |
| `Nonces.StepNonce` | common/script/script.go:525-552 | every step sets a nonce outright, counts it up by one for a CALL or CREATE2 to an ordinary account under a broadcast as that account, or leaves it |
| `Nonces.NonceLaw` | common/script/script.go:545-552 | over every run in which nothing sets it, a nonce rises by exactly the number of those calls, counted from the events alone |
| `Panics.PanicsIff` | common/script/script.go:525-697 | after any run the next call panics if and only if it is an opcode mismatch under a prank, an exit without frames, another scope at a frame's depth, or leaves a frame that cannot be reported |
| `Journals.JournalIsPassive` | common/script/script.go:525-697 | keeping a journal changes no run, so what is proved of journalled runs holds of all |
| `Exactness.BroadcastExactness` | common/script/script.go:614-656 | over every run the k-th broadcast describes the k-th popped frame that was opened under a broadcast by CALL, CREATE or CREATE2, as it was opened; there are no others; every frame is live or closed exactly once |
| `Siblings.SiblingsInOrder` | common/script/script.go:614-656 | over every run the frames that one frame opens are popped in the order they were opened |
| `OneShot.OneShotPranks` | common/script/script.go:642-651 | over every run, two frames opened under one prank, or two reports under one broadcast, mean that it repeats |
| `OneShot.RepeatingPersists` | common/script/script.go:642-651 | a repeating prank stays as it was set until it is stopped or replaced while its frame is on top, or its frame goes |
| `GasAndNonces.GasAttribution` | common/script/script.go:585-586 | the gas of a broadcast is that of the frame's own exit plus that of its direct calls that opened no frame, and nothing of descendants with frames |
| `GasAndNonces.NonceFidelity` | common/script/script.go:545-552 | a CALL or CREATE broadcast is from the sender of the prank or else the frame that made the call, and carries the nonce that account had before the call was entered |
| `Numbering.CallsNumbered` | common/script/script.go:545-552 | in a session of a repeating broadcast in which nothing else changes the sender's nonce, its CALLs take consecutive numbers |
| `Numbering.ReportsFollowCalls` | common/script/prank.go:263-266 | the numbers in the broadcasts about them, and then of a CALL still running, are those of the CALLs that opened a frame, in the order of the calls |
| `Numbering.ConsecutiveNumbering` | common/script/prank.go:263-266 | from the sender's nonce on, the broadcasts of a session carry the numbers of the CALLs that opened a frame, in order; no number is left out if and only if every CALL opens a frame |
| `Gaps.NumberSkipped` | common/script/script.go:545-552 | a concrete legal run from a fresh host and a session whose broadcasts skip a number |
| `Overrides.PrankedCalls` | common/script/prank.go:36-54 | over every legal run, the caller of a frame opened by CALL, CREATE or CREATE2 is the deployer, the sender of the prank or the frame below, and it starts with the origin of the prank if and only if that has no sender and the deployer is not used, else with tx.origin as it was |
| `Overrides.SenderHidesOrigin` | common/script/prank.go:45-50 | a concrete legal run from a fresh host in which a prank sets both and the callee sees only the sender |
| `Origins.OriginDiscipline` | common/script/script.go:642-646 | over every legal run, whenever a frame runs tx.origin is what it was when the frame appeared, if and only if no call that overrides it is left without opening a frame |
| `Origins.FrameOrigins` | common/script/prank.go:36-54 | without such a call, a frame starts with the origin of the prank that redirects it, or with the one the frame below started with |
| `Origins.LeafCallLeaks` | common/script/prank.go:48-50 | wherever a redirecting prank is in force, a CALL that opens no frame breaks the discipline |
| `Origins.OriginLeaks` | common/script/prank.go:48-50 | a concrete legal run from a fresh host that breaks it |
| `SourceMaps.ParseInstrMapping` | common/srcmap/solutil.go:28-71 | field by field inheritance from the entry before; fails exactly on more than five fields or a field that is no 32-bit number |
| `SourceMaps.EntryReads` | common/srcmap/solutil.go:28-71 | an entry is read back whichever of its unchanged fields are left empty or left off |
| `SourceMaps.EntryByFields` | common/srcmap/solutil.go:28-71 | any entry, field by field: when it can be read, which fields are inherited, and that only the first character of the jump field counts |
| `Decimals.NumeralsRead` | common/srcmap/solutil.go:38-42 | a numeral is its value with or without a sign, leading zeros or not, if and only if that fits 32 bits |
| `Decimals.OnlyNumeralsRead` | common/srcmap/solutil.go:38-42 | nothing else is a number |
| `SourceMaps.LosslessDecoding` | common/srcmap/solutil.go:176-218 | every way to write a non-empty sequence of mappings by the rules of the format decodes to it |
| `SourceMaps.CompressionRoundTrip` | common/srcmap/solutil.go:176-218 | the shortest way to write a sequence decodes to it, if and only if it is not empty |
| `SourceMaps.ParseSourceMap` | common/srcmap/solutil.go:176-219 | succeeds exactly if the entries of the instructions can be read; every byte of the k-th instruction gets the fold of the first k + 1 entries |
| `SourceMaps.TableUnique` | common/srcmap/solutil.go:186-218 | that fixes the table; its length is the end of the sweep, at most 32 past the bytecode |
| `SourceMaps.LastRepeats` | common/srcmap/solutil.go:198-206 | once entries run out the last mapping is repeated |
| `SourceMaps.TableOfMappings` | common/srcmap/solutil.go:186-218 | any text that writes mappings makes a table, and it gives the k-th instruction the k-th mapping, or the last |
| `Programs.TableOfProgram` | common/srcmap/solutil.go:186-218 | for every assembled program, whatever follows it, every byte of the k-th instruction and its push data has the k-th mapping, or the last |
| `Programs.TableLength` | common/srcmap/solutil.go:192-218 | the table of a program is as long as its bytecode |
| `Programs.CutTableLength` | common/srcmap/solutil.go:192-218 | after a last push that is short of data, as long as with that data |
| `SourceLookup.CharacterWidth` | common/srcmap/solutil.go:82 | ranging over a string consumes the encoding of every Unicode scalar value whole |
| `SourceLookup.WideIsCharacter` | common/srcmap/solutil.go:82 | and whatever is consumed as more than one byte is such an encoding |
| `SourceLookup.LoadLineColData` | common/srcmap/solutil.go:73-91 | for all bytes, where a character starts: one plus the newlines before it, and the distance from the last newline; nothing elsewhere |
| `SourceLookup.SourceMap.Info` | common/srcmap/solutil.go:122-156 | the answer is that of a lookup without a cache, whatever was looked up before, and kept tables stay |
| `SourceLookup.PlaceOfMapping` | common/srcmap/solutil.go:122-156 | the place of a mapping that starts at a character of a known file: that file, its line and its column |
| `SourceLookup.OtherPlaces` | common/srcmap/solutil.go:122-156 | the answers for all other instructions |
| `Consoles.FormatSpecFromChars` | common/script/console.go:164-198 | the scan with lookahead gives the specifier of the grammar, if any, and exactly the characters consumed |
| `Consoles.ConsoleFormat` | common/script/console.go:143-247 | the one-pass scanner writes what the grammar of pieces and the queue of values call for |
| `Consoles.VerbNames` | common/script/console.go:164-198 | what is taken for a specifier names it; a precision fits 16 bits |
| `Consoles.NamedVerb` | common/script/console.go:164-198 | whatever names a specifier is recognised, whatever follows |
| `Consoles.TextAndValuesConserved` | common/script/console.go:200-246 | the chunks written stand for exactly the format text, in order, and each value is written once, in order |
| `Consoles.NoValuesUnchanged` | common/script/console.go:143-247 | without values the format string comes back unchanged if and only if it has no leading byte order mark |
| `Formats.FormatFilled` | common/script/console.go:143-247 | a format string written from parts, broken and cut off specifiers included, is filled in part by part; values left over are appended as strings with spaces between |
| `BigIntegers.FixedExact` | common/script/console.go:56-67 | the text is a decimal number without trailing zeros; it is exactly x / 10^p if and only if x is not negative or at least 10^p in magnitude |
| `BigIntegers.ScientificExact` | common/script/console.go:48-54 | for every integer the text reads back as mantissa times power of ten, exactly |
| `BigIntegers.LeadingDigit` | common/script/console.go:48-54 | the mantissa has one digit before the point, zero only for zero |
| `AbiNames.ConverterNames` | common/script/precompile.go:367-425 | the converter names the ABI type a Go type stands for, fails exactly if there is none, and never returns an internal type |
| `AbiNames.NameReads` | common/script/precompile.go:367-425 | the name of every ABI type reads back as that type |
| `AbiNames.NamesUnambiguous` | common/script/precompile.go:367-425 | two Go types get the same name if and only if they stand for the same ABI type |
| `AbiNames.IntegerNames` | common/script/precompile.go:367-374 | integers are named by sign and width; those without a width have no name |
| `AbiNames.OtherNames` | common/script/precompile.go:367-425 | the names of the other scalars, of the 256-bit integers, of addresses and of bytes |
| `AbiNames.ByteArrayNames` | common/script/precompile.go:379-386 | byte arrays of up to 32 bytes, and that longer ones have no name |
| `Reverts.RevertRoundTrip` | common/script/precompile.go:637-645 | for every message the revert data decodes to it |
| `Reverts.RevertWords` | common/script/precompile.go:57-63 | revert data is a selector and whole words, with only zeros after the message |
| `FieldSetters.Precompile.SetupStructField` | common/script/precompile.go:476-538 | a field is registered under its selector, or nothing changes if that is taken or the field has no ABI type |
| `FieldSetters.Precompile.SetupFieldSetter` | common/script/precompile.go:540-608 | the setters are put in the table, over whatever was there |
| `FieldSetters.Precompile.Setup` | common/script/precompile.go:429-538 | set-up succeeds if and only if no two selectors conflict and every field has an ABI type; with setters, each settable selector then stands for its own field, and without, none is settable |
| `FieldSetters.Precompile.Run` | common/script/precompile.go:547-632 | getters answer the word of their field; a call changes the field it names or nothing; calls that are too short, unknown, padded or of another length revert, and a kind mismatch panics |
| `FieldSetters.SetterOf` | common/script/precompile.go:540-608 | each of the three signatures calls the setter of its own kind |
| `FieldSetters.GetterSurvives` | common/script/precompile.go:540-608 | after set-up a field has its getter if and only if its selector is not that of a setter |
| `FieldSetters.LastSetHolds` | common/script/precompile.go:547-607 | after any history of calls each field holds the last value set for it, of the kind it had |
| `FieldSetters.GetsLastSet` | common/script/precompile.go:505-525 | after any history of calls the getter of a field is answered with the word of the last value set for it |
| `FieldSetters.SetThenGet` | common/script/precompile.go:547-607 | after any history and a call of `set` by the signature for the field's kind, its getter answers the bytes of the word that the kind looks at, which is the word passed if and only if that is canonical; all other getters answer as before |
| `FieldSetters.Precompile.SetAndGet` | common/script/precompile.go:614-632 | a set by signature and a get through the jump table: the answer, and that no other field changed |
| `FieldSetters.ReadBack` | common/script/precompile.go:559-604 | the word read back is the word set if and only if that word is canonical for the kind |
| `Allocations.Copy` | common/foundry/allocs.go:83-94 | the same values in fresh objects, no two balances shared, the original untouched |
| `Allocations.Genesis.Fund` | common/genesis/layer_one.go:77-82 | adding in place credits one account and changes no other |
| `Allocations.Genesis.FundDevAccounts` | common/genesis/layer_one.go:75-84 | every listed account is credited once per listing |
| `Allocations.Genesis.SetPrecompileBalances` | common/genesis/layer_one.go:88-98 | each of the 256 precompiles gets one wei more |
| `Allocations.BuildL1Alloc` | common/genesis/layer_one.go:37-42 | copying and then funding in place leaves the dump as it was |
| `Allocations.CreditAllAt` | common/genesis/layer_one.go:75-98 | an account gets the amount as often as it is listed and keeps code, storage and nonce |
| `Allocations.FundingConserves` | common/genesis/layer_one.go:75-98 | the total rises by one development balance per listed account and one wei per precompile; unlisted accounts do not change |
| `ForkSchedules.UpgradeSchedule.ForkTimeOffset` | common/genesis/config.go:396-421 | the offset of a fork, in fork order |
| `ForkSchedules.UpgradeSchedule.SetForkTimeOffset` | common/genesis/config.go:423-448 | the offset of that fork reads back as set, and that of every other fork as before |
| `ForkSchedules.UpgradeSchedule.ActivateForkAtOffset` | common/genesis/config.go:457-470 | earlier forks at genesis, the fork at the offset, later ones off |
| `ForkSchedules.UpgradeSchedule.Check` | common/genesis/config.go:556-580 | accepts if and only if the set forks are a prefix and all pairs are in order; otherwise reports the first offending neighbours and what is wrong |
| `ForkSchedules.UpgradeSchedule.AllocMode` | common/genesis/config.go:523-535 | the last listed fork that is active at genesis, but Delta at least |
| `ForkSchedules.OrderedIffNeighbours` | common/genesis/config.go:573-578 | neighbours in order if and only if all pairs are |
| `ForkSchedules.UpgradeTimesOrdered` | common/genesis/config.go:385-394 | upgrade times keep the order if and only if no two offsets straddle 2^64 |
| `ForkSchedules.ActiveIff` | common/genesis/config.go:385-394 | when a fork is active at genesis, wrap-around included |
| `ForkSchedules.ActivatedOrdered` | common/genesis/config.go:457-470 | every result of activating a fork passes the check |
| `ForkSchedules.ActivePrefix` | common/genesis/config.go:523-535 | without wrap-around everything up to the allocation mode is active at genesis |
| `Persistence.CrashSafe` | cp-node/node/config_persistence.go:55-126 | after any interleaving of persists and reads, with failures and crashes at any step, the file reports the value whose rename completed last and no read sees an invalid file |
| `Persistence.ActiveConfigPersistence.Persist` | cp-node/node/config_persistence.go:55-89 | the value is in place and on disk exactly if no step fails; otherwise the file is untouched and the lock released |
| `Persistence.ActiveConfigPersistence.SequencerState` | cp-node/node/config_persistence.go:91-126 | a read reports what the file says and changes nothing |

## Left out

- The EVM, the state database, Keccak and address derivation: foreign code, taken as an environment and as arbitrary functions.
- Logging, labels, environment variables, source-map loading, state dumps and forks of the host: they take no part in the call-frame machine.
- Hosts.Host.OnEnter: does not model flushing the state journal for isolated broadcasts (common/script/script.go:554-567), which changes no frame, nonce or origin.
- Hosts.Host.OnExit: does not model the revert error kept for the Go caller (common/script/script.go:574-583).
- Hosts.Host.Report: the hook is the list of broadcasts it received; the hash that identifies a broadcast is not modelled.
- `CallerMode` (common/script/prank.go:117-135) only names the prank of the top frame.
- SourceMaps.ParseInstrMapping: the half-updated mapping that the Go function returns beside an error is dropped, as its caller does.
- Consoles.ConsoleFormat: how one value is printed is a parameter; strings are valid Unicode, as the scanner sees them.
- BigIntegers.FixedExact: the limit of 10^6 on widths in Go's fmt is not modelled; console values have at most 78 digits.
- FieldSetters.Precompile.Run: what a method of the Go object does is not modelled, only that it is called, nor a getter value that fails to pack.
- FieldSetters.Precompile.Setup: names arrive as ABI names; embedded structs, tags and the lower-cased first letter are not modelled.
- Allocations.BuildL1Alloc: the contracts and accounts added after funding (common/genesis/layer_one.go:44-69) are not modelled.
- Persistence.CrashSafe: creating the directory is part of opening the file; a rename is taken to be atomic and durable, and the JSON codec is any pair that round-trips.
- Peer-to-peer networking, flags, metrics, RPC clients and servers, generated bindings and plain field-by-field config checks: wiring, or easy.
