# Uptick: a verified model of its state machines

This project models the parts of the Uptick chain in which state, arithmetic or I/O can go
wrong across several steps, and proves what they promise:

- the protobuf codec of the collection module: varints, the field skipper, the decode loop,
  the backward writer, sizes, and the round trip of a whole genesis (`Wire`, `Skip`,
  `Decode`, `Messages`, `Marshal`);
- the capped breadth-first walk over nested messages and the recursive commission check
  (`MessageGraph`, `MessageWalk`, `Commission`);
- the export sidecar over a file system that may fail at every step (`ExportDiagnostics`);
- the fee repair, the voucher metadata repair, the IBC gate, and the v0.5.0 upgrade plan with
  rollback, replay marker and its one stage that must not be replayed (`BaseFee`, `Voucher`,
  `IbcGate`, `Strings`, `Upgrade`, `UpgradeRuns`);
- the ICS-721 metadata printer and parser (`Ics721`, `Ics721Limits`);
- the NFT keepers over an upstream store with a wrapping 64-bit counter, the burn guard shared
  between copies of a keeper, whole runs of all of it, and genesis in both directions
  (`Utf8`, `NftStore`, `CollectionKeeper`, `InterNft`, `NftMessages`, `NftRuns`,
  `NftExports`, `Genesis`, `GenesisRoundTrip`, `GenesisLimits`).

Imperative code is modelled by methods and classes, each proved against a specification
function; the theorems are about those functions and hold for every input or every run.

Foreign code appears as parameters with stated laws: JSON objects and base64 (sections 4 of
RFC 8259 and RFC 4648), hex and address text, id and URI rules, the bank module's denom
rules, the upstream registration callback, the iteration order of the store, and all I/O
faults. `SmallCodecLawful` and `OrderExists` show that the laws can be met. Go strings are
byte sequences in the codec and the NFT modules.

Six properties are narrower in the code than its comments suggest. Each is stated with its
exact condition, and shown to fail at an input:

- With registration off, the gate forwards a packet whose acknowledgement failed. No pair is
  created exactly as long as the callback does not register for it
  (`OffCreatesOnlyOnFailure`, `OffRunCreatesNothing`; `FailedTransferCreatesPair`).
- Such a packet is forwarded without the metadata repair. Pairs are created on repaired or
  unrepairable metadata exactly as long as the callback does not register for it over a record
  the repair would rewrite (`CreationReady`, `EveryPairReady`; `FailedTransferSkipsRepair`).
- A raw (non-JSON) class or token blob survives further ICS-721 hops exactly when every class
  id it leaves from is an IBC id (`ClassRouteStable`, `TokenRouteStable`; `RawBlobDropped`).
- A re-export equals the export exactly when every address text is the one its address prints
  as (`RoundTrip`; `AddressTextChanges`).
- The export report covers class metadata and supply only: a token blob that does not decode
  is emptied, and a blob under another type URL is retyped, without a report. Export then
  import restores a store exactly when nothing is reported, every blob is proper metadata and
  every address survives its text form (`RestoresExactly`; `TokenBlobLostUnreported`,
  `ForeignBlobRetypedUnreported`).
- The ICS-721 callbacks check neither token ids nor URIs, so an export can fail to validate.
  Along a run every export validates exactly when every step is admissible
  (`ExportableRuns`; `SlashedTokenBlocksExport`).

## Model

| member | source | states |
|---|---|---|
| `Wire.SovIsVarintLength` | x/collection/types/collection.pb.go:1225-1227 | for every uint64 the closed-form size equals the number of base-128 groups the writer emits |
| `Wire.VarintShort` | x/collection/types/collection.pb.go:1031-1041 | no uint64 needs more than ten groups |
| `Wire.ReadVarintInverse` | x/collection/types/collection.pb.go:1593-1606 | wherever the digits of a value lie in a buffer, reading there returns the value and stops right behind them |
| `Wire.ReadVarintExtend` | x/collection/types/collection.pb.go:1593-1606 | a varint that ends inside the input is read the same way whatever follows |
| `Wire.DecodeVarint` | x/collection/types/collection.pb.go:1593-1606 | the shift-and-or loop, with 64-bit truncation and the overflow cut-off, computes the mathematical reading or its error |
| `Wire.OrIsAdd` | x/collection/types/collection.pb.go:1602 | bitwise or of a shifted value into a value below the shift is their sum |
| `Wire.OrAccumulates` | x/collection/types/collection.pb.go:1602 | one turn of the loop, with the shift truncated to 64 bits, adds the weight of the group modulo 2^64 |
| `Skip.SkipValue` | x/collection/types/collection.pb.go:2519-2561 | the switch over wire types moves the cursor and the group depth as the step function says, errors included |
| `Skip.SkipField` | x/collection/types/collection.pb.go:2498-2575 | the skip loop terminates on every input and returns the end of the first complete field or the right error |
| `Skip.SkipFrame` | x/collection/types/collection.pb.go:2498-2575 | a field that ends inside the input is skipped the same way whatever follows |
| `Skip.SkipWild` | x/collection/types/collection.pb.go:2498-2575 | every well-formed field, nested groups included, is stepped over exactly, at any open depth |
| `Skip.SkipRefuses` | x/collection/types/collection.pb.go:2519-2575 | which tags and lengths the skipper refuses, and with which error |
| `Decode.ReadUnknownField` | x/collection/types/collection.pb.go:1949-1958 | the default branch rewinds to the tag and skips the whole field inside the input |
| `Decode.ReadKnownField` | x/collection/types/collection.pb.go:1616-1647 | length-delimited and varint fields are read with the wire-type, length, overflow and end-of-input checks |
| `Decode.NextField` | x/collection/types/collection.pb.go:1587-1964 | a step that succeeds strictly advances and stays inside the input |
| `Decode.FieldAccepted` | x/collection/types/collection.pb.go:1609-1647 | a known field is read exactly when its number is a positive int32, its wire type is the field's and its value lies inside the input |
| `Decode.FieldRefused` | x/collection/types/collection.pb.go:1609-1640 | end groups, illegal numbers, wrong wire types, negative lengths and short inputs, each with its error |
| `Decode.UnknownAccepted` | x/collection/types/collection.pb.go:1944-1957 | an unknown field is stepped over exactly when the skipper ends inside the input |
| `Decode.Unmarshal` | x/collection/types/collection.pb.go:1587-1964 | the decoder terminates on every byte string, never reads outside it, and succeeds only with its cursor exactly at the end |
| `Decode.NextFieldFrame` | x/collection/types/collection.pb.go:1587-1964 | a field decodes the same wherever its bytes lie |
| `Decode.DecodeFrame` | x/collection/types/collection.pb.go:1587-1964 | a run over a piece of a larger buffer ends where the piece ends, with the same message |
| `Decode.DecodeConcat` | x/collection/types/collection.pb.go:1587-1964 | decoding a concatenation is decoding the second part on top of the result of the first |
| `Decode.ConcatDecodes` | x/collection/types/collection.pb.go:1587-1964 | it is enough that each part decodes on its own: the concatenation then decodes too, last one wins |
| `Decode.NextFieldInverse` | x/collection/types/collection.pb.go:1616-1647 | the decoder reads back any encoded field and stops behind it |
| `Decode.DecodeEncoded` | x/collection/types/collection.pb.go:1587-1964 | decoding an encoded list of fields merges exactly those fields in order |
| `Decode.UnknownFieldIgnored` | x/collection/types/collection.pb.go:1949-1958 | a well-formed unknown field, group or not, does not influence the result |
| `Messages.MessagesSteady` | x/collection/types/collection.pb.go:2381-2497 | for all eight messages, acceptance of an input does not depend on what was decoded before it |
| `Messages.UnknownTags` | x/collection/types/collection.pb.go:2381-2497 | for each message, a field with a number it does not define is passed over |
| `Messages.NFTRoundTrip` | x/collection/types/collection.pb.go:1231-1472 | BaseNFT: decoding the encoding returns the record |
| `Messages.NFTMetadataRoundTrip` | x/collection/types/collection.pb.go:1473-1586 | NFTMetadata: decoding the encoding returns the record |
| `Messages.DenomRoundTrip` | x/collection/types/collection.pb.go:1587-1964 | Denom: decoding the encoding returns the record, both booleans included |
| `Messages.DenomMetadataRoundTrip` | x/collection/types/collection.pb.go:1965-2150 | DenomMetadata: decoding the encoding returns the record |
| `Messages.IDCollectionRoundTrip` | x/collection/types/collection.pb.go:2151-2264 | IDCollection: decoding the encoding returns the record with its list in order |
| `Messages.OwnerRoundTrip` | x/collection/types/collection.pb.go:2265-2380 | Owner: decoding the encoding returns the record with its nested records in order |
| `Messages.CollectionRoundTrip` | x/collection/types/collection.pb.go:2381-2497 | Collection: decoding the encoding returns the class and all nfts in order |
| `Messages.GenesisRoundTrip` | x/collection/types/genesis.pb.go:165-248 | GenesisState: every tree below 2^63 bytes decodes back to itself |
| `Marshal.EncodeVarint` | x/collection/types/collection.pb.go:1031-1041 | the writer reserves and fills exactly the bytes before its offset and touches no other byte |
| `Marshal.PutHeader` | x/collection/types/collection.pb.go:1007-1028 | length and tag land right in front of a payload already in place; nothing else moves |
| `Marshal.PutString` | x/collection/types/collection.pb.go:650-654 | the body of one string field: bytes, length and tag land in front of the fields already there, whatever the length |
| `Marshal.PutBytes` | x/collection/types/collection.pb.go:644-692 | a string field is written backwards in front of the fields already there, and skipped when empty |
| `Marshal.PutBool` | x/collection/types/collection.pb.go:746-835 | a true flag takes two bytes, a false one none |
| `Marshal.NFTSizeExact` | x/collection/types/collection.pb.go:1042-1073 | Size is the length of the encoding |
| `Marshal.DenomSizeExact` | x/collection/types/collection.pb.go:1092-1141 | Size is the length of the encoding |
| `Marshal.CollectionSize` | x/collection/types/collection.pb.go:1208-1223 | the size loop returns the length of the encoding |
| `Marshal.GenesisSize` | x/collection/types/genesis.pb.go:144-157 | the size loop returns the length of the encoding |
| `Marshal.MarshalNFT` | x/collection/types/collection.pb.go:644-692 | the backward writer leaves exactly the encoding before `end`, returns its size, and touches no other byte |
| `Marshal.MarshalDenom` | x/collection/types/collection.pb.go:746-835 | the same for Denom |
| `Marshal.MarshalCollection` | x/collection/types/collection.pb.go:999-1029 | the same for Collection, its nfts written last to first |
| `Marshal.MarshalGenesis` | x/collection/types/genesis.pb.go:111-131 | the same for GenesisState |
| `Marshal.Marshal` | x/collection/types/genesis.pb.go:96-104 | a buffer of exactly Size bytes is filled completely, and its bytes decode to the same state |
| `MessageWalk.Extract` | app/ante/message_security.go:199-256 | terminates on every graph, cyclic ones included; succeeds exactly when all reachable wrappers unpack, at most 32 messages are reachable and every wrapper is nearer than 5; then lists every reachable message once, breadth first |
| `MessageWalk.Enqueue` | app/ante/message_security.go:208-253 | messages join the queue in order, each with its nesting depth |
| `MessageWalk.BreadthFirstUnique` | app/ante/message_security.go:199-256 | the breadth-first order is determined by the graph alone |
| `MessageWalk.FirstSeenDistinct` | app/ante/message_security.go:261-263 | what is kept after removing repeats has no repeats and loses nothing |
| `MessageGraph.KidsExactly` | app/ante/message_security.go:239-252 | a wrapper whose entries all unpack passes each on in its place; a broken one and any other message pass nothing on |
| `Commission.RateExactly` | app/ante/comission.go:92-108 | a new validator and an edit that names a rate need at least one twentieth; everything else passes |
| `Commission.CheckExact` | app/ante/comission.go:39-108 | the recursive check passes exactly when every message within its reach unpacks, is shallow enough and has an acceptable rate; it has then inspected all of them |
| `Commission.SameMessages` | app/ante/comission.go:63-89 | when both checks accept, both have inspected the same messages |
| `Commission.CheckedIsWalkable` | app/ante/message_security.go:214-253 | what the recursive check accepts, the walk can refuse only for the number of messages |
| `Commission.TreeCheckExact` | app/ante/comission.go:39-108 | on trees: passes exactly when all wrappers unpack, none is at depth 5 or more, and every validator message has a rate of at least 5% |
| `ExportDiagnostics.Exporter.WriteFileAtomic` | app/export_diagnostics.go:443-479 | at every moment the report path holds the old file or the complete new one; the outcome of each fault is fixed |
| `ExportDiagnostics.Exporter.WriteSyncRename` | app/export_diagnostics.go:455-478 | succeeds exactly when no step fails; otherwise the report is as before and only the temporary remains |
| `ExportDiagnostics.Exporter.Remove` | app/export_diagnostics.go:491 | the three outcomes of removing a path, and what each leaves |
| `ExportDiagnostics.Exporter.RemoveStale` | app/export_diagnostics.go:485-495 | fails exactly when a node with a home meets an error other than absence; otherwise no report is left |
| `ExportDiagnostics.Exporter.Finalize` | app/export_diagnostics.go:305-374 | one export moves the state as specified, and the path only ever held the old report, nothing, or this complete report |
| `ExportDiagnostics.RunPast` | app/export_diagnostics.go:305-374 | over every sequence of exports, no file carries an id not yet given out |
| `ExportDiagnostics.SidecarDescribesLastExport` | app/export_diagnostics.go:305-374 | over every sequence with arbitrary faults: unless a stale-cleanup error is recorded, the sidecar exists exactly when the last report was written, and is that report |
| `ExportDiagnostics.ExitCodeExact` | app/export_diagnostics.go:163-182 | exit code 3 exactly when the last export was degraded and the sidecar does not carry its id |
| `ExportDiagnostics.FailedWriteLeavesNoTrace` | app/export_diagnostics.go:443-479 | a failed write leaves the directory as it was exactly when the temporary was never made or could be removed |
| `ExportDiagnostics.PublishExact` | app/export_diagnostics.go:443-479 | publishing succeeds exactly when no step fails; what each failure leaves in the temporary file |
| `ExportDiagnostics.ExportExact` | app/export_diagnostics.go:305-374 | the verdict of one export and the file it leaves, for every combination of faults |
| `BaseFee.ScaleExact` | app/upgrades/v041/migrate.go:146-166 | the rounded 18-decimal product by 10^18, truncated, is exact |
| `BaseFee.MulRounds` | app/upgrades/v041/migrate.go:146-166 | the decimal product is rounded to the nearest multiple, ties to even, alike on both sides of zero |
| `BaseFee.TruncatesTowardsZero` | app/upgrades/v041/migrate.go:146-166 | truncation goes towards zero |
| `BaseFee.RepairRestores` | app/upgrades/v041/migrate.go:146-166 | a misread fee n comes back as n exactly when 0 <= n < 10^18 |
| `BaseFee.RepairTouches` | app/upgrades/v041/migrate.go:146-166 | exactly the positive values below one are rewritten; nil, non-positive and whole values stay |
| `BaseFee.RepairOnce` | app/upgrades/v041/migrate.go:123-139 | a second application never rescales |
| `Voucher.LastSegmentOfPath` | ibc/voucher_metadata.go:164-213 | the last segment of a path is what follows its last slash |
| `Voucher.NonZeroUnitExponent` | ibc/voucher_metadata.go:242-252 | returns a positive exponent recorded for the denom, and none exactly when no unit records one |
| `Voucher.NormalizeSound` | ibc/voucher_metadata.go:164-213 | an accepted record comes out bank-valid, differs only in display and units, and gives the precompile a positive exponent for the last display segment |
| `Voucher.RecordedWins` | ibc/voucher_metadata.go:189-196 | the first positive exponent recorded for the source is the one written; without one the derived exponent is |
| `Voucher.NormalizeAccepts` | ibc/voucher_metadata.go:164-213 | a record is accepted exactly when no unit is nil, display names a source other than base, a positive exponent is recorded or derived, and the bank accepts its texts |
| `Voucher.NormalizeIdempotent` | ibc/voucher_metadata.go:257-270 | normalizing again gives the same record, so a second pass writes nothing |
| `Voucher.Bank.NormalizeVoucherDecimals` | ibc/voucher_metadata.go:124-156 | writes exactly when a voucher has metadata that is not settled; the outcome names the case and the decimals |
| `Voucher.RepairedIsSettled` | ibc/voucher_metadata.go:124-156 | afterwards nothing is left to write for the denom and no other record moved |
| `Voucher.SettledExactly` | ibc/voucher_metadata.go:138-156 | nothing is left to write exactly when the record cannot be repaired or already has the two units and the plain display |
| `Voucher.SameUnitsExactly` | ibc/voucher_metadata.go:257-270 | unit lists are compared by denoms and exponents, in order |
| `Voucher.NormalizeExported` | app/export_bank_metadata.go:61-143 | the export loop carries and reports each entry as specified; "changed" exactly when some entry was not valid |
| `Voucher.ExportedAllValid` | app/export_bank_metadata.go:61-143 | every exported entry is valid |
| `Voucher.ExportedUntouched` | app/export_bank_metadata.go:61-143 | a list of valid entries is exported as it is, in order, with no report |
| `Voucher.ExportIdempotent` | app/export_bank_metadata.go:61-143 | exporting twice changes and reports nothing the second time |
| `Voucher.ReportedOnce` | app/export_bank_metadata.go:61-143 | each rewrite and each drop is reported once, and drops account for the shorter list |
| `Voucher.RepairedSurvivesExport` | app/export_bank_metadata.go:61-143 | what the voucher repair writes, the export leaves alone |
| `Voucher.CarriedExactly` | app/export_bank_metadata.go:82-130 | a record is exported as it is, reduced to its base unit with every other text kept, or dropped, each exactly when, with the matching report |
| `Voucher.ExportedPassesBank` | app/export_bank_metadata.go:82-130 | every exported record is free of nil units and passes the bank's rules |
| `Voucher.BankValidExactly` | app/export_bank_metadata.go:104-107 | a record is valid exactly when its texts are, its units climb from the base at exponent 0, and its display is one of them |
| `IbcGate.ERC20IBCGate.Upstream` | app/keepers/erc20_ibc_gate.go:126-159 | delegation adds at most the one pair the callback registers |
| `IbcGate.ERC20IBCGate.NormalizeVoucher` | app/keepers/erc20_ibc_gate.go:172-201 | metadata is repaired for exactly the packets about to be registered |
| `IbcGate.ERC20IBCGate.OnRecvPacket` | app/keepers/erc20_ibc_gate.go:126-159 | state and acknowledgement after a packet, switch on or off |
| `IbcGate.OffCreatesOnlyOnFailure` | app/keepers/erc20_ibc_gate.go:126-159 | with registration off the state changes exactly when the acknowledgement failed and the callback registers anyway |
| `IbcGate.GateSuppressesOnlyRegistration` | app/keepers/erc20_ibc_gate.go:230-247 | with registration off a suppressed packet keeps its acknowledgement and every other packet is delegated; the gate differs from the callback exactly where that would create a pair or answer a failed registration attempt |
| `IbcGate.OnDelegates` | app/keepers/erc20_ibc_gate.go:131-137 | with the switch on, and for failed transfers, the callback is asked and its answer returned; the pair it registers is created, over metadata repaired just before if the transfer succeeded |
| `IbcGate.SwitchedOnRegisters` | app/keepers/erc20_ibc_gate.go:126-159 | once the switch is on, a successful packet the callback registers gets its pair, over the repaired record |
| `IbcGate.WouldRegisterExactly` | app/keepers/erc20_ibc_gate.go:230-247 | exactly the packets that credit a denom under ibc/ without a pair |
| `IbcGate.FailedTransferCreatesPair` | app/keepers/erc20_ibc_gate.go:135-137 | a callback and a failed transfer for which a pair is created with registration off |
| `IbcGate.OffRunCreatesNothing` | app/keepers/erc20_ibc_gate.go:126-159 | with registration off a run of packets and metadata writes creates no pair exactly when the callback registers for none of its failed transfers |
| `IbcGate.CreationReady` | app/keepers/erc20_ibc_gate.go:126-201 | a packet creates at most one pair, on metadata that is absent, already normalized or unrepairable exactly unless it is a failed transfer that registers over a record the repair would still rewrite |
| `IbcGate.EveryPairReady` | app/keepers/erc20_ibc_gate.go:126-201 | over every run, switch flipped at will, all pairs are created on such metadata exactly when no event is such a failed transfer |
| `IbcGate.FailedTransferSkipsRepair` | app/keepers/erc20_ibc_gate.go:135-137 | a failed transfer for which a pair is created over a record the repair would have rewritten |
| `Strings.SortCorrect` | app/upgrades/v050/migrate.go:152-162 | sorting orders the denoms and keeps each as often as it was |
| `Strings.SortIsTheSort` | app/upgrades/v050/migrate.go:152-162 | any sorted arrangement of the denoms is this one |
| `Strings.RecordRoundTrip` | app/upgrades/v050/upgrades.go:349-359 | splitting the stored record returns the list exactly when no entry has a newline and it is not the list of one empty string |
| `Strings.RecordAbsent` | app/upgrades/v050/upgrades.go:320-343 | there is a record exactly when there is something to record |
| `Upgrade.App.DeleteLegacyOwnerModulePairs` | app/upgrades/v040/upgrades.go:822-857 | removes exactly the module-owned pairs |
| `Upgrade.ScanUnits` | app/upgrades/v040/upgrades.go:658-669 | the loop finds the display unit and the first unit with the largest positive exponent, and dies exactly on a nil unit |
| `Upgrade.WithDisplayUnitHas` | app/upgrades/v040/upgrades.go:651-686 | afterwards the display unit exists; a record that had it stays, otherwise its exponent is the largest one or 18; a second repair changes nothing |
| `Upgrade.EvmDenomRepairedKeyed` | app/upgrades/v040/upgrades.go:651-686 | the repair keeps records under their base denom and is idempotent |
| `Upgrade.EvmDenomRepairExact` | app/upgrades/v040/upgrades.go:651-686 | the EVM denom's record gets its display unit and every other record stays |
| `Upgrade.LegacyLeaves` | app/upgrades/v040/upgrades.go:130-281 | the legacy stage sets the probe, turns registration off, carries the flag over, removes the module pairs, repairs the EVM denom, and touches nothing else of these stores |
| `Upgrade.SucceedsExactly` | app/upgrades/v050/upgrades.go:173-243 | when an attempt succeeds: behind the marker, from the legacy state, and from any other |
| `Upgrade.App.RepairEvmDenomMetadata` | app/upgrades/v040/upgrades.go:651-686 | writes the repaired record, and only when it differs; dies on a nil unit before it writes |
| `Upgrade.App.RunLegacy` | app/upgrades/v040/upgrades.go:627-644 | a legacy stage that neither fails nor dies repairs the metadata of the EVM denom, sets the coin-info probe, carries the erc20 flag over and deletes the module-owned pairs |
| `Upgrade.App.RunRepairs` | app/upgrades/v041/migrate.go:52-166 | a completed repair stage fills only what is missing |
| `Upgrade.App.IbcVoucherDenoms` | app/upgrades/v050/migrate.go:152-162 | the loop collects exactly the voucher denoms of the supply, sorted |
| `Upgrade.App.EnablePermissionlessRegistration` | app/upgrades/v050/migrate.go:113-135 | turns the switch on and nothing else; a write error fails only when a write was needed |
| `Upgrade.App.NormalizeVouchers` | app/upgrades/v050/migrate.go:186-219 | repairs the metadata of every voucher in scope and nothing else |
| `Upgrade.App.RegisterAll` | app/upgrades/v050/migrate.go:253-285 | the backfill loop: pairs, counters and failed denoms, in order |
| `Upgrade.App.RetryBackfill` | app/upgrades/v050/migrate.go:297-319 | the retry does the same on any list it is given |
| `Upgrade.App.RecordFailures` | app/upgrades/v050/upgrades.go:320-343 | the record becomes the joined list, or disappears when there is nothing to record |
| `Upgrade.App.ReadFailures` | app/upgrades/v050/upgrades.go:349-359 | returns the list the record was written from, for every list of newline-free denoms |
| `Upgrade.App.Handle` | app/upgrades/v050/upgrades.go:173-243 | succeeds exactly when no stage that runs fails; then the chain is as specified |
| `Upgrade.App.ApplyPlan` | app/upgrades/v050/upgrades.go:272-294 | a failed attempt commits nothing |
| `UpgradeRuns.StepGuarded` | app/upgrades/v050/upgrades.go:384-389 | a committed attempt makes the probe true, and nothing makes it false again |
| `UpgradeRuns.NoDeletionAfterCommit` | app/upgrades/v050/upgrades.go:173-243 | in every history no attempt after a committed one deletes pairs, even with the marker erased |
| `UpgradeRuns.DeletesAtMostOnce` | app/upgrades/v040/upgrades.go:822-857 | in every history the deletion commits at most once |
| `UpgradeRuns.StepKeepsPairs` | app/upgrades/v040/upgrades.go:822-857 | external pairs survive every step, and all pairs survive every step that is not the deletion |
| `UpgradeRuns.ModulePairsDeleted` | app/upgrades/v040/upgrades.go:822-857 | after the deletion exactly the external pairs and those the backfill makes are there: every module-owned pair is gone unless made anew |
| `UpgradeRuns.PairsSurvive` | app/upgrades/v050/upgrades.go:173-243 | every pair present after a committed attempt survives whatever follows |
| `UpgradeRuns.LaterPairStays` | app/upgrades/v050/upgrades.go:173-243 | a pair registered after a committed attempt is there ever after |
| `UpgradeRuns.EventsTake` | app/upgrades/v050/upgrades.go:173-243 | registrations and governance take effect between attempts, and without its marker the plan runs again |
| `UpgradeRuns.FullRunCounts` | app/upgrades/v050/migrate.go:253-285 | a run creates one pair per recorded creation, on top of those it keeps |
| `UpgradeRuns.FillPartition` | app/upgrades/v050/migrate.go:253-319 | the input splits into already paired, newly paired and failed; the pairs afterwards are exactly the old ones and those not refused |
| `UpgradeRuns.VoucherDenomsAre` | app/upgrades/v050/migrate.go:152-162 | the denoms in scope are exactly the supply-bearing vouchers, sorted |
| `UpgradeRuns.FailureRecordExact` | app/upgrades/v050/upgrades.go:320-359 | after a run the record is exactly the sorted supply-bearing vouchers without a pair, and reads back as that list exactly when none of them has a newline |
| `UpgradeRuns.NormalizeAllSettles` | app/upgrades/v050/migrate.go:186-219 | every voucher in scope is settled afterwards and no other record moved |
| `UpgradeRuns.TailIdempotent` | app/upgrades/v050/migrate.go:113-285 | applying the three tail migrations twice equals applying them once |
| `UpgradeRuns.RepairsIdempotent` | app/upgrades/v041/migrate.go:52-166 | the repairs may be replayed |
| `UpgradeRuns.RepairsFill` | app/upgrades/v041/migrate.go:69-75 | a populated precompile list stays and an empty one gets the defaults; a misread fee is scaled, any other stays; nothing else moves |
| `UpgradeRuns.FullRunIdempotent` | app/upgrades/v050/upgrades.go:173-243 | replaying the whole plan with the marker erased changes nothing |
| `UpgradeRuns.FullRunLeaves` | app/upgrades/v050/upgrades.go:225-229 | after a run: probe, marker and switch set, the legacy Erc20 flag kept, and every new pair created on ready metadata |
| `UpgradeRuns.FillReady` | app/upgrades/v050/migrate.go:253-285 | over settled metadata the backfill creates pairs on ready metadata only |
| `Ics721.BuildClassMetadata` | x/collection/types/builder.go:60-127 | the printer fills the object or passes the raw blob on, errors included |
| `Ics721.TakeText` | x/collection/types/builder.go:182-191 | a string entry is taken and removed exactly when it has the expected shape; otherwise it stays |
| `Ics721.TakeFlag` | x/collection/types/builder.go:223-230 | the same for a boolean entry |
| `Ics721.BuildClassFromObject` | x/collection/types/builder.go:182-300 | taking recognized entries out one by one yields the class, with the rest of the object as its blob |
| `Ics721.BuildClass` | x/collection/types/builder.go:130-300 | the parser on both paths, with bounds and errors |
| `Ics721.EntryRead` | x/collection/types/builder.go:182-191 | a media field is an object with a string or boolean under "value" |
| `Ics721.ForeignPacket` | x/collection/types/builder.go:130-300 | any object packet: each field is what its entry says or its default, which is restricted both ways and the module account; refused exactly for a creator that is no hex address, or for size |
| `Ics721.RestKept` | x/collection/types/builder.go:182-270 | the blob keeps exactly the entries that are not taken, as they are |
| `Ics721.RawPacket` | x/collection/types/builder.go:130-180 | a packet that is no object is stored as it came, restricted both ways, under the module account; one that does not decode is refused |
| `Ics721.IsIBCDenomExactly` | x/collection/types/validation.go:354-356 | the ids that start with ibc/ |
| `Ics721.ClassHopRecovers` | x/collection/types/builder.go:60-300 | one hop on the object path recovers name, symbol, description, hash, restrictions, creator (module address if blank), schema and the data entries that are not reserved; it fails only on a bad creator or on size |
| `Ics721.HopCarries` | x/collection/types/builder.go:82-110 | the blob a hop delivers: the unreserved entries of an object, nothing for no blob or the literal null, what a failed parse left otherwise |
| `Ics721.PrintedExactly` | x/collection/types/builder.go:60-127 | a class is printed unless its metadata is undecodable or of another type or its creator does not parse; without metadata like an empty one |
| `Ics721.TokenPrintedExactly` | x/collection/types/builder.go:357-406 | a token is printed unless its metadata is undecodable or of another type |
| `Ics721.ClassHopRaw` | x/collection/types/builder.go:60-300 | on the raw path the blob arrives as it is, under the module account, with both restrictions |
| `Ics721.ClassHopIdentity` | x/collection/types/builder.go:60-300 | after a successful hop the next one, under any id, changes only the id exactly when the blob was an object or the first receiving id is an IBC id |
| `Ics721.ClassHopKeepsRaw` | x/collection/types/builder.go:60-300 | a hop ends with a raw blob exactly when it carried one raw |
| `Ics721.ClassRouteStable` | x/collection/types/builder.go:60-300 | over every route of ids, every hop after a successful first one succeeds and changes only the id, exactly unless a raw blob has to leave from an id that is no IBC id |
| `Ics721.ClassHopsStable` | x/collection/types/builder.go:60-300 | any number of hops under one id equals one hop, under the same exact condition |
| `Ics721.BuildTokenMetadata` | x/collection/types/builder.go:357-406 | the token printer on both paths |
| `Ics721.BuildToken` | x/collection/types/builder.go:409-494 | the token parser on both paths, with bounds and errors |
| `Ics721.ForeignTokenPacket` | x/collection/types/builder.go:409-494 | any object packet for a token: name and hash from their entries or empty, the rest as blob; refused for size alone |
| `Ics721.TokenRestKept` | x/collection/types/builder.go:441-468 | the token blob keeps exactly the entries that are not taken |
| `Ics721.RawTokenPacket` | x/collection/types/builder.go:409-438 | a token packet that is no object is stored as it came |
| `Ics721.TokenHopRecovers` | x/collection/types/builder.go:357-494 | one hop recovers name, hash and the data entries that are not reserved, and fails only on size |
| `Ics721.TokenHopRaw` | x/collection/types/builder.go:357-494 | a raw blob arrives as it is |
| `Ics721.TokenHopIdentity` | x/collection/types/builder.go:357-494 | after a successful hop the next one, under any class id, changes only that id, with the same exception as for classes |
| `Ics721.TokenRouteStable` | x/collection/types/builder.go:357-494 | the law of routes for tokens |
| `Ics721.TokenHopsStable` | x/collection/types/builder.go:357-494 | any number of hops under one class id equals one hop, under the same exact condition |
| `Ics721Limits.SmallCodecLawful` | x/collection/types/builder.go:60-300 | the laws asked of the codecs can be met together |
| `Ics721Limits.RawBlobDropped` | x/collection/types/builder.go:60-127 | for every lawful codec and raw blob: a class and a token that are delivered under a plain id and lose the blob on the next hop |
| `Ics721Limits.SmallCodecHasRaw` | x/collection/types/builder.go:60-127 | there is such a codec and such a blob |
| `Utf8.Clamp` | x/collection/types/validation.go:168-187 | the walk back to a rune start yields the clamped text and whether it changed |
| `Utf8.ToValidIsValid` | x/collection/types/validation.go:168-187 | dropping stray bytes leaves well-formed UTF-8 that is no longer |
| `Utf8.ClampedFits` | x/collection/types/validation.go:152-187 | the result is well-formed, within the bound and stable; unchanged exactly when the input already was |
| `Utf8.ClampedIsRepaired` | x/collection/types/validation.go:168-187 | a short enough string only loses the bytes of no rune; a longer one is cut at the last rune start in bounds first |
| `Utf8.EncodedIsRune` | x/collection/types/validation.go:169-176 | every encoded scalar value is recognized as a rune |
| `Utf8.RuneIsEncoded` | x/collection/types/validation.go:169-176 | a rune is the encoding of a scalar value and nothing else |
| `Utf8.EncodedIsValid` | x/collection/types/validation.go:169-171 | every encoding of scalar values is well-formed |
| `Utf8.ValidIsEncoded` | x/collection/types/validation.go:169-171 | every well-formed string is the encoding of scalar values |
| `Utf8.ToValidKeepsValid` | x/collection/types/validation.go:182-185 | a well-formed string stays as it is |
| `Utf8.StrayDropped` | x/collection/types/validation.go:182-185 | a byte that starts no rune and continues none is dropped wherever it stands, and nothing else with it |
| `Utf8.PrefixValid` | x/collection/types/validation.go:168-187 | a prefix of well-formed text is well-formed exactly when it ends where a rune starts |
| `Utf8.ClampKeepsLongestPrefix` | x/collection/types/validation.go:168-187 | well-formed text keeps its longest well-formed prefix within the bound |
| `NftStore.ClassesConsistent` | x/collection/keeper/denom.go:14-121 | writing a class keeps records filed, owners unique and counters right |
| `NftStore.MintConsistent` | x/collection/keeper/nft.go:18-50 | so does a mint |
| `NftStore.UpdateConsistent` | x/collection/keeper/nft.go:53-117 | so does an edit |
| `NftStore.TransferConsistent` | x/collection/keeper/nft.go:120-200 | so does a transfer, with the by-owner index |
| `NftStore.BurnConsistent` | x/collection/keeper/nft.go:209-230 | so does a burn, and the counter it decrements is not zero while a class holds fewer than 2^64 tokens |
| `NftStore.WritesExact` | x/collection/keeper/nft.go:18-50 | each write of the store is refused exactly for a class or token that is missing, or there already |
| `CollectionKeeper.Keeper.NewKeeper` | x/collection/keeper/keeper.go:39-50 | a new keeper has its own guard slot, still empty |
| `CollectionKeeper.Keeper.SetConvertedNFTChecker` | x/collection/keeper/converted_nft.go:52-57 | fills the shared slot; only a handle without a slot gets a new one |
| `CollectionKeeper.WireThroughOneHandle` | x/collection/keeper/converted_nft.go:34-57 | once set through one handle, every copy of the keeper sees the checker |
| `CollectionKeeper.Keeper.SaveDenom` | x/collection/keeper/denom.go:14-71 | creates the class with its metadata or refuses for id, size or existence, leaving the store alone |
| `CollectionKeeper.Keeper.TransferDenomOwner` | x/collection/keeper/denom.go:74-121 | only the creator, signed by the present one, changes |
| `CollectionKeeper.Keeper.SaveNFT` | x/collection/keeper/nft.go:18-50 | mints one token for a non-empty receiver or refuses |
| `CollectionKeeper.Keeper.UpdateNFT` | x/collection/keeper/nft.go:53-117 | edits the marked fields of the owner's token unless the class is restricted |
| `CollectionKeeper.Keeper.TransferOwnership` | x/collection/keeper/nft.go:120-200 | moves the token and applies real changes only; restricted classes refuse those |
| `CollectionKeeper.Keeper.RemoveNFT` | x/collection/keeper/nft.go:209-230 | burns the owner's token unless the guard protects it |
| `CollectionKeeper.Keeper.Deliver` | x/collection/keeper/msg_server.go:16-254 | the six messages; a refused one leaves the store as it was |
| `NftMessages.MetadataRead` | x/collection/keeper/denom.go:128-157 | how stored metadata reads: absent is the zero value, the type URL does not matter, undecodable is an error |
| `NftMessages.IssueExact` | x/collection/keeper/msg_server.go:16-61 | an issue is accepted exactly for a sender that parses, a valid new id and texts within bounds |
| `NftMessages.IssueWrites` | x/collection/keeper/denom.go:14-71 | what was issued reads back as issued with the sender as creator; nothing else changes |
| `NftMessages.MintExact` | x/collection/keeper/msg_server.go:63-114 | a mint is accepted exactly for addresses that parse, a readable class that is unrestricted or created by the sender, and a new non-empty id |
| `NftMessages.MintWrites` | x/collection/keeper/nft.go:18-50 | the token has every field of the message, the recipient owns it, the supply grows by one; nothing else changes |
| `NftMessages.EditExact` | x/collection/keeper/nft.go:53-117 | an edit is accepted exactly for the owner, a readable unrestricted class, and a readable blob if the blob is to change |
| `NftMessages.EditWritesAll` | x/collection/keeper/nft.go:53-117 | URI, hash, name and data are kept, emptied or replaced as asked; nothing else changes |
| `NftMessages.MoveExact` | x/collection/keeper/nft.go:120-200 | a transfer is accepted exactly for the owner, a readable class and blob, and no real change under the restriction |
| `NftMessages.MoveWritesAll` | x/collection/keeper/nft.go:120-200 | the receiver owns the token, and its fields change as asked exactly when a real change is asked for |
| `NftMessages.BurnExact` | x/collection/keeper/nft.go:209-230 | a burn is accepted exactly for the owner of an unguarded token; that token is gone and the supply shrinks by one |
| `NftMessages.DenomMoveExact` | x/collection/keeper/denom.go:74-121 | exactly the present creator hands a class over, and only the creator changes |
| `InterNft.InterNftKeeper.CreateOrUpdateClass` | x/internft/keeper.go:48-84 | creates or overwrites the class from the packet |
| `InterNft.InterNftKeeper.Mint` | x/internft/keeper.go:87-99 | mints what the packet describes |
| `InterNft.InterNftKeeper.Transfer` | x/internft/keeper.go:102-125 | moves the token, then rewrites it from the packet; on a packet that does not build the ownership has moved already |
| `InterNft.InterNftKeeper.Burn` | x/internft/keeper.go:199-225 | skips a token that is gone, refuses a guarded one |
| `NftMessages.BareClassIs` | x/internft/keeper.go:55-70 | the class of a packet without data is restricted both ways and belongs to the module |
| `NftMessages.ClassCallbackExact` | x/internft/keeper.go:48-84 | fails exactly when the packet does not build; creates or overwrites that class and nothing else |
| `NftMessages.MintCallbackExact` | x/internft/keeper.go:87-99 | mints exactly when the packet builds, the class exists and the token is new |
| `NftMessages.TransferCallbackExact` | x/internft/keeper.go:102-125 | moves the token and rewrites it from the packet, if there is one, under the stored URI |
| `NftMessages.MovedExactly` | x/internft/keeper.go:102-125 | what a transfer callback whose packet does not build has done by then |
| `NftMessages.BurnCallbackExact` | x/internft/keeper.go:199-225 | a token that is gone is skipped, a guarded one refused, any other removed |
| `NftRuns.RunConsistent` | x/collection/keeper/collection.go:241-252 | every run of messages, ICS-721 callbacks and imports from an empty store keeps one owner per token and counters equal to token counts |
| `NftRuns.SupplyNeverDiverges` | x/collection/keeper/collection.go:241-252 | in every such run no supply mismatch is reported and no burn takes a counter below zero |
| `NftRuns.RunKeepsBound` | x/collection/keeper/nft.go:209-230 | once the guard is wired, every run keeps each contract-bound token in the store |
| `NftRuns.BurnRefusedExactly` | x/internft/keeper.go:199-225 | of the tokens an owner asks to burn, exactly the guarded ones remain, on either path |
| `NftRuns.OwnerDecides` | x/collection/keeper/msg_server.go:116-221 | while its owner signs nothing about it and no ICS-721 callback moves or burns it, no run changes a token or its owner |
| `NftRuns.IcsTouches` | x/internft/keeper.go:48-125 | an ICS-721 callback touches the token or class it is about, and nothing else |
| `NftRuns.RestrictedTokensFrozen` | x/collection/keeper/nft.go:53-200 | under an update-restricted class no run of messages, imports and ICS-721 callbacks about other tokens and classes changes a token's URI, hash, name or data before it is burned, and the class stays restricted |
| `NftMessages.ImportElsewhere` | x/collection/keeper/genesis.go:10-49 | an import adds nothing to a class that is there already |
| `NftMessages.MintNeedsCreator` | x/collection/keeper/msg_server.go:81-84 | over every run, a class that restricts minting gains no token and stays as it is while its creator signs nothing about it and ICS-721 leaves it alone |
| `NftRuns.PureTransferPasses` | x/collection/keeper/nft.go:120-200 | under the restriction exactly the transfers that repeat stored values pass, and they change only the owner |
| `NftRuns.ImportStays` | x/collection/keeper/genesis.go:10-49 | an import only adds: what was stored stays as it was |
| `NftRuns.Take` | x/collection/keeper/msg_server.go:16-254 | each abstract step is what the keeper objects do |
| `NftExports.StepMeets` | x/collection/keeper/msg_server.go:16-254 | for any rules on records: from a store that meets them a step leads to one exactly when the records it writes do |
| `NftExports.EditWrites` | x/collection/keeper/nft.go:53-117 | an edit writes one token, keeps its owner and changes its URI as asked |
| `NftExports.MoveWrites` | x/collection/keeper/nft.go:120-200 | a transfer writes one token, gives it to the receiver and changes its URI only when it rewrites the token |
| `NftExports.ReturnWrites` | x/internft/keeper.go:102-125 | an ICS-721 transfer writes one token and keeps its URI |
| `NftExports.ImportBrings` | x/collection/keeper/genesis.go:10-49 | after an import the records meet their rules exactly when the old and the imported ones do |
| `NftExports.ExportableStep` | x/collection/types/genesis.go:28-91 | a step leaves an exportable store exportable exactly when it is admissible: the token ids, URIs, class ids and addresses it brings are valid |
| `NftExports.ExportableRuns` | x/collection/types/genesis.go:28-91 | over every run from an empty store each export validates exactly when each step is admissible |
| `NftExports.LosslessStep` | x/collection/keeper/genesis.go:10-76 | a step leaves a lossless store lossless exactly when it brings well-formed texts and addresses that survive their text form |
| `NftExports.LosslessRuns` | x/collection/keeper/genesis.go:10-76 | over every run from an empty store nothing would ever be lost exactly when each step is so |
| `NftExports.RunsRestore` | x/collection/keeper/genesis.go:10-76 | after every run of such steps the export validates, and importing it gives the very store back |
| `Genesis.GetNFTs` | x/collection/keeper/nft.go:272-293 | lists every token of a class; a blob that does not decode counts as empty and is not reported |
| `Genesis.ExportClass` | x/collection/keeper/collection.go:128-171 | one class: downgraded, clamped and reported, never dropped |
| `Genesis.GetCollectionsWithReport` | x/collection/keeper/collection.go:122-173 | every class is exported, in store order, with its missing, undecodable or clamped class metadata and its supply mismatch reported |
| `GenesisRoundTrip.ExportKeepsClass` | x/collection/keeper/collection.go:306-315 | an exported class keeps id, name, symbol, description, URI and hash whatever its blob; creator, flags and clamped texts come from a blob that decodes, and are zero otherwise |
| `GenesisRoundTrip.ExportKeepsToken` | x/collection/keeper/nft.go:272-293 | every token is exported with its id, URI, hash and the text of its owner, and with the name and data of a blob that decodes |
| `GenesisRoundTrip.ReportedExactly` | x/collection/keeper/collection.go:178-252 | each kind of issue is reported for a class exactly when it is there |
| `GenesisRoundTrip.ReportedAll` | x/collection/keeper/collection.go:122-173 | the report is the issues of every class |
| `Genesis.TokenIdOkExactly` | x/collection/types/validation.go:211-237 | at most 128 bytes, at least 3 or 1 under an IBC class, no NUL and no slash |
| `Genesis.ValidateNFTs` | x/collection/types/genesis.go:69-88 | accepts exactly distinct valid token ids with valid owners and URIs; dies exactly when the first fault met is an owner that is no address |
| `Genesis.ValidateGenesis` | x/collection/types/genesis.go:28-91 | accepts exactly the lists of valid collections with distinct class ids; dies exactly when the first fault met is an owner that is no address |
| `Genesis.SaveCollection` | x/collection/keeper/collection.go:14-30 | saves every token or stops at the first refusal |
| `Genesis.ImportCollection` | x/collection/keeper/genesis.go:15-47 | one round of the import, the empty creator included |
| `Genesis.InitGenesis` | x/collection/keeper/genesis.go:10-49 | succeeds exactly on a valid genesis whose collections can all be saved |
| `GenesisRoundTrip.TokensImport` | x/collection/keeper/collection.go:14-30 | valid tokens of a fresh class are all stored, as listed, and nothing else moves |
| `GenesisRoundTrip.ValidImports` | x/collection/keeper/genesis.go:10-49 | a genesis that validates is imported whole: the store then holds it and nothing else, consistently |
| `GenesisRoundTrip.StartChain` | x/collection/types/genesis.go:21-91 | on an empty chain InitGenesis succeeds exactly on what ValidateGenesis accepts |
| `GenesisRoundTrip.ExportValidates` | x/collection/keeper/collection.go:122-173 | an export validates exactly when ids, URIs and addresses of the store do, whatever its blobs and counters |
| `GenesisRoundTrip.NoSupplyIssue` | x/collection/keeper/collection.go:241-252 | a consistent store has the supply its export counts |
| `GenesisRoundTrip.Reexport` | x/collection/keeper/collection.go:122-173 | a class imported from an export is exported the same again, with nothing to report |
| `GenesisRoundTrip.RoundTrip` | x/collection/keeper/genesis.go:10-76 | the export of a damaged store starts a consistent chain with an empty issue list; the second export equals the first exactly when the address texts are canonical |
| `GenesisRoundTrip.ClassRestored` | x/collection/keeper/collection.go:178-230 | a class comes back as it was exactly when nothing about its metadata is reported, its blob has the right type and its creator survives |
| `GenesisRoundTrip.RestoresExactly` | x/collection/keeper/genesis.go:10-76 | export then import restores the store exactly when nothing is reported, every blob is proper metadata and addresses survive their text form |
| `GenesisLimits.TokenBlobLostUnreported` | x/collection/keeper/nft.go:272-293 | a store with one undecodable token blob that exports with an empty report and is not restored |
| `GenesisLimits.ForeignBlobRetypedUnreported` | x/collection/keeper/collection.go:178-197 | a class whose metadata has another type URL is read, not reported, and comes back under its own |
| `GenesisLimits.SlashedTokenBlocksExport` | x/internft/keeper.go:87-99 | two ICS-721 callbacks after which the export does not validate |
| `GenesisLimits.AddressTextChanges` | x/collection/keeper/genesis.go:20-27 | a store whose second export differs, because a creator text is not the one its address prints as |
| `GenesisLimits.OrderExists` | x/collection/keeper/collection.go:128 | an iteration order as asked for exists |

## Left out

- The backward writers and Size of NFTMetadata, DenomMetadata, IDCollection and Owner: the same pattern as the four modelled; their encodings, decoders and round trips are modelled.
- The message a failed Unmarshal leaves half-filled: callers discard it.
- query.pb.go and the gRPC gateway: the same codec pattern and generated plumbing.
- The per-message checks of the ante decorator (wasm sizes, EVM gas limits): each is one comparison; only the walk that feeds them is modelled.
- Extraction of the deduplication key: messages are compared by identity of the unpacked object, as the pointer-based key does.
- v0.4.0 steps other than the EVM denom metadata, the coin-info write, the erc20 params and the pair deletion (accounts, chain config, the other EVM params, params subspaces, transfer provenance): mostly foreign codecs over stores that `Chain` does not hold.
- settleIBCVoucherPairs, RunMigrations and pruneErc721UIDIndex: their effects lie in keepers that are not part of this model; RunMigrations appears only as a stage that may fail.
- DeriveDecimalsFromDenom, the bank module's denom and alias rules, and the id and URI validators: abstract predicates and functions, used where the source uses them.
- Bech32, hex, base64 and JSON text: functions with inverse laws instead of character-level definitions.
- The JSON text form of an exported genesis file: the round trip is about the GenesisState value and its protobuf form.
- The contract-side state of x/erc721 and x/cw721: only the set of bound tokens is modelled.
- Logging, events, error texts, pagination and queries.
- The checks a message passes before it reaches the keeper (ValidateBasic): not part of the steps; `NftExports.Admissible` names those the export depends on.
- Upgrade.App.Handle: says nothing about the stores after a failed stage, which may have stopped at any write; `Upgrade.App.ApplyPlan` states that nothing of them is committed.
- Messages.GenesisRoundTrip: requires an encoding below 2^63 bytes, the range of Go's `int` lengths.
- UpgradeRuns.TailIdempotent: requires bank metadata to be keyed by its base denom, as the bank keeper stores it.
