# ScreenExtend verification model

A Dafny model of the parts of ScreenExtend that are plain data and logic, with proofs of what they
are for. Loops, classes and in-place updates of the program are methods and classes here, each
proved equal to a specification function; the laws are lemmas about those functions. Pure code is
modelled as functions directly. `dafny verify dfyconfig.toml` checks everything.

What is modelled, and the main result of each part:

- **The shape of `config.json`** (`Shape`, `ConfigTable`, `ConfigPath`, `ConfigAcceptance`,
  `ConfigSafety`, `ConfigReaders`, `ConfigReadback`, `RowReading`): the host's declared shape, its fault
  lister, its dotted-path reader and writer, and the readers that replay a store. A write is accepted
  exactly when what is stored and what is declared at every node let it through, and a refused one is
  told the first thing in its way; writes and reads form a lens; an accepted write adds no fault outside
  the written value; every reader gives the same answer with all faulted values deleted; what any store
  is served as, and the exact condition under which a written setting is served as written.
- **The web view's schema** (`Schema`, `EditorProblems`, `Normalize`, `NormalizeLocal`,
  `ConfigSchemaTable`, `ConfigProvider`): the validator, the repair of a raw store, and writing the
  repaired keys back. Repair is total, its result satisfies the host's shape and the validator, damage
  stays where it is, the notes are the validator's own findings, and one repair stabilises. The host's
  real table is proved to be the erasure of the web view's. `ConfigHistory` and `RowFilling` put both
  languages together: the host's faults are the editor's type problems, a repaired store has no fault for
  the host and keeps none through any run of conforming writes, and what the web view's defaults change
  about the device rows the host reads.
- **The JSON structure scanner** (`JsonStructure`, `JsonAnyText`, `JsonPrint`, `JsonScanPrint`,
  `JsonMask`, `MaskedPaths`): an index-driven scan with an explicit stack, related to an automaton that
  reads any text character by character and to a recursive printer of document trees. On any text the
  scan reports exactly the literals outside key position and the brackets that span lines; on a printed
  document these are exactly its strings and brackets, and the mask covers exactly the characters of
  secret values.
- **The log bus** (`LogBus`, `LogBusWriter`): a step relation for producers, writer and panel, with
  conservation, order, no-loss while the panel is open and silence while it is not proved over every
  interleaving, and the writer and ring as imperative code that takes those steps.
- **Startup and its repair budget** (`StartupGate`, `RepairLedger`, `Bootstrap`, `BootstrapProgress`,
  `BootstrapSafety`, `BootstrapTwoIds`, `BootstrapPage`): the startup page as a state machine over
  arbitrary answers of the host, the store and the user, with a process that can end at any moment. What
  each answer leads to is given event by event. What it does is a list of events that stays lawful on
  every run; the bounds on elevated actions are facts about lawful lists. The page is a class that takes
  the machine's steps and keeps its own list lawful.
- **Codecs and lists** (`WifiQr`, `ControlLine`, `ExitReason`, `DeviceLists`, `DeviceMatching`,
  `TrustReplay`; `Selection` says what picking out of a list is): the
  Wi-Fi payload written by two algorithms, the control request line, the exit breadcrumb, the device
  lists as maps keyed by identity, and a ban followed from the web view into the sets the host enforces
  after its next start.

Assumptions: a text is a sequence of Dafny characters, which are Unicode scalar values. The host's
texts are exactly that. The web view's are UTF-16 code units, so for text outside the basic
multilingual plane the columns and lengths here are smaller than the program's, and a lone surrogate,
which `JSON.stringify` escapes, cannot be written down at all. I/O, clocks, probes and user answers are
parameters; the operations of `config-provider.tsx` and `proceed` each run alone.

Where the code does something other than its documentation or its purpose says, the code is
modelled and a lemma shows the difference:

- `src-tauri/src/cli.rs:967-968` says a whole-number float is an integer to every reader. It is to
  the shape, but the readers use `as_u64`, which does not see `30.0`: the value is reported as no
  fault and replaced by the default (`ConfigReadback.WholeFloatIsNotRead`). A large number is cut to
  32 bits and clamped without a word (`ConfigReadback.LargeGraceIsNotServed`).
  `ConfigReadback.GraceIsReplayedExactlyWhen` and `ConfigReadback.ServedAsWrittenIff` give the exact
  conditions.
- The repair budget is per boot id. A launch whose compatibility probe throws spends under the empty
  id, and alternating such launches with ordinary ones gives the budget back each time:
  `BootstrapTwoIds.TwoIdsHaveNoBudget` installs once per launch without bound. The budget holds while
  the host reports one id and the probe throws only where that id is the empty one
  (`BootstrapSafety.RepairBudget`); under any other answers it holds for each stretch of attempts under
  one id (`BootstrapSafety.RepairBudgetPerStretch`). A count below zero in the file, which no repair
  corrects, adds to it.
- The host and the web view do not take the same defaults for a device row: without a value of its own
  the quality is 15 for `src-tauri/src/cli.rs:2247` and 23 for `src/lib/apply-config.ts:29`, remote
  control is on for the one and off for the other, and so on for an output nobody chose. So when another
  row is damaged and the list is rewritten, a row with nothing wrong in it can read differently
  (`RowFilling.FilledRowIsRead`); `RowFilling.RepairKeepsReadingIff` says exactly when it does not.
- A line feed that a backslash takes inside a literal is not counted as a line, so the lines reported
  after it are too small, and otherwise they are the editor's (`JsonAnyText.LineIsTheEditorsIff`). On
  printed documents no literal holds one.
- An empty control token answers no request at all (`ControlLine.RoundTripIff`).
- A saved row with neither token nor address is never replaced, found or removed, so saving two of
  them is the one way to make the duplicate check speak (`DeviceLists.SavedListHasNoDuplicates`).
- A panel that arms the log stream while a batch is decided but not yet emitted is shown that batch
  twice, and only then (`LogBus.DuplicatesIffPending`).

## Model

| member | source | states |
|---|---|---|
| Shape.PushFaults | src-tauri/src/cli.rs:991-1019 | the pushing loops append exactly the faults of the value, in the order of rows and of declared fields, and stop below a value of the wrong type |
| Shape.FaultsExact | src-tauri/src/cli.rs:964-1019 | a position is listed if and only if everything above it has its declared type and it does not |
| Shape.NoFaultsIsConforms | src-tauri/src/cli.rs:991-1019 | nothing is listed if and only if every declared value has its declared type |
| ConfigTable.ConfigWellNamed | src-tauri/src/cli.rs:864-947 | no key of the shape tables is declared twice at any depth |
| ConfigPath.Dig | src-tauri/src/cli.rs:1044-1060 | the loop over the segments reads what the recursive definition of a position reads |
| ConfigPath.Store.SetNestedKey | src-tauri/src/cli.rs:1078-1101 | an accepted write changes one root of the store, a refused one changes nothing |
| ConfigPath.SetNestedIsPlace | src-tauri/src/cli.rs:1078-1101 | writing through the store is placing into the document that the store is, refusals included |
| ConfigPath.PlaceStep | src-tauri/src/cli.rs:1103-1247 | what one accepted level of a write opened, resolved and put back, and that it reads back there |
| ConfigPath.PutGet | src-tauri/src/cli.rs:1044-1247 | reading the written key gives the written value |
| ConfigPath.PutPut | src-tauri/src/cli.rs:1103-1247 | a second write to the same key wins outright and is refused for the same reasons |
| ConfigPath.PutElsewhere | src-tauri/src/cli.rs:1044-1247 | every key that parts ways with the written one, by resolved position, reads as before |
| ConfigPath.PutsCommute | src-tauri/src/cli.rs:1103-1247 | two writes to non-nested positions give the same document whenever both orders are accepted |
| ConfigAcceptance.AcceptedIff | src-tauri/src/cli.rs:1078-1247 | a write is accepted if and only if no segment is empty, every node on the way holds nothing, null or a container of the declared kind with a row number no higher than the number of rows, nothing is sought below a scalar, and the value has the declared type |
| ConfigAcceptance.RefusedIff | src-tauri/src/cli.rs:1078-1247 | a refused write is told the objection of the first node in its way, and only then that its value is of the wrong type |
| ConfigAcceptance.PlaceAnswers | src-tauri/src/cli.rs:1103-1247 | the same for a placement at any node, in every case |
| ConfigSafety.FaultsAfterWrite | src-tauri/src/cli.rs:1103-1247 | after an accepted write nothing on the way to the written value is at fault, and off that way the faults are exactly the old ones |
| ConfigSafety.WriteAddsNoFaultOutside | src-tauri/src/cli.rs:1062-1077 | a fault found after an accepted write was already there or lies strictly inside the written value |
| ConfigSafety.ContainersKeepTheirKind | src-tauri/src/cli.rs:1062-1077 | every array or object above the written value keeps its kind |
| ConfigSafety.ConformingWriteKeepsConforming | src-tauri/src/cli.rs:1103-1247 | an accepted write of a conforming value into a conforming document leaves it conforming |
| ConfigSafety.WritesKeepStoreFaultFree | src-tauri/src/cli.rs:1078-1247 | any run of writes of conforming values keeps a fault-free store fault-free |
| ConfigReaders.ConfigFaults | src-tauri/src/cli.rs:1964-1975 | going over the stored keys in any order lists exactly the faults of the whole document |
| ConfigReaders.FieldWithout | src-tauri/src/cli.rs:1985-2000 | after deleting the faults a declared field is there exactly when its value has the declared type |
| ConfigReaders.DevicesIgnoreFaults | src-tauri/src/cli.rs:2211-2291 | the saved devices read the same with every faulted value deleted |
| ConfigReaders.TrustIgnoresFaults | src-tauri/src/cli.rs:2070-2097 | the bans and approvals read the same with every faulted value deleted |
| ConfigReaders.GlobalsIgnoreFaults | src-tauri/src/cli.rs:2008-2020 | the other settings read the same with every faulted value deleted |
| ConfigReadback.WrittenSettingIsReplayed | src-tauri/src/cli.rs:2008-2037 | after an accepted `config set` of a setting the host serves with what it makes of that value, and no other setting it serves with moves |
| ConfigReadback.ServedAsWrittenIff | src-tauri/src/windows_utils/mod.rs:808-875 | the host serves with the very value written exactly when a grace period is stored as a whole number from 0 to 600 (or is the default) and texts have no blanks around them |
| ConfigReadback.UrlsServedIff | src-tauri/src/windows_utils/mod.rs:853-875 | splitting a list at its commas, trimming and dropping empty pieces gives the list back exactly when no piece is empty or has blanks around it |
| ConfigReadback.GraceIsReplayedExactlyWhen | src-tauri/src/cli.rs:2013-2034 | whatever number is stored, it is served exactly when it has no fraction part and is from 0 to 600, or equals the default |
| ConfigReadback.LargeGraceIsNotServed | src-tauri/src/windows_utils/mod.rs:808-816 | 2^32 + 5 is served as 5 and 700 as 600 |
| ConfigReadback.RowNumberIsReadExactlyWhen | src-tauri/src/cli.rs:2229-2235 | a number of a device row is read as itself exactly when it has no fraction part and fits 32 bits, or equals the default |
| ConfigReadback.WholeFloatIsNotRead | src-tauri/src/cli.rs:964-969 | a fault-free store whose whole-number float is replayed as the default |
| ConfigReadback.RowReadsBack | src-tauri/src/cli.rs:2211-2291 | a row that gives each setting under its own key is read as exactly that device |
| RowReading.EveryRowIsRead | src-tauri/src/cli.rs:2211-2291 | every stored row is passed over or read, each setting from its own key or from its default where that is absent or of another type |
| RowReading.EveryTrustRowIsRead | src-tauri/src/cli.rs:2070-2097 | every stored row of the known devices likewise, with blanks taken off its token and address |
| RowReading.RowsAreReadInOrder | src-tauri/src/cli.rs:2211-2291 | all rows that can be read are, no others, in the order of the list |
| RowReading.TurnIsServed | src-tauri/src/windows_utils/mod.rs:853-875 | for any store, the addresses served are those between the commas that are not blank, in order and trimmed, and the texts are trimmed |
| RowReading.PiecesAre | src-tauri/src/windows_utils/mod.rs:853-875 | the pieces of a list hold no comma and join to it |
| RowReading.GraceAndSwitchAreServed | src-tauri/src/windows_utils/mod.rs:806-817 | for any store, which grace period and which switch are served |
| Schema.CheckRequired | src/lib/config-schema.ts:295-375 | the missing-key loop reports exactly the required keys that are absent |
| Schema.CheckString | src/lib/config-schema.ts:295-375 | length and pattern problems of a string, each reported exactly when it holds |
| Schema.Walk | src/lib/config-schema.ts:295-375 | the validator reports exactly the problems that hold, each at its position, and looks no further below a wrong type or choice |
| Schema.WalkFields | src/lib/config-schema.ts:295-375 | the object loop reports undeclared keys and the problems under declared ones, and nothing else |
| Schema.MatchesPatternIff | src/lib/config-schema.ts:327-345 | a pattern matches the empty text and exactly what it spells: spaces where it allows them, one of its heads, and nothing that ends a line |
| EditorProblems.ProblemsThere | src/lib/config-schema.ts:295-375 | a value is told the same problems wherever in a document it stands |
| EditorProblems.ProblemsOfUsable | src/lib/config-schema.ts:295-375 | which problems a value of the right type and choice has, each if and only if |
| Normalize.CoerceInto | src/lib/config-normalize.ts:148-219 | the imperative repair returns the specified value and flag and appends the specified notes |
| Normalize.CoerceRowsInto | src/lib/config-normalize.ts:169-189 | the row loop drops rows of the wrong kind, repairs the others, and notes original row numbers |
| Normalize.CoerceFieldsInto | src/lib/config-normalize.ts:191-216 | the field loop repairs what is there, fills in what is absent without a note, and carries undeclared keys through |
| Normalize.CoercedIsFull | src/lib/config-normalize.ts:118-219 | whatever comes in, what comes out has the whole declared shape |
| Normalize.FullIsKept | src/lib/config-normalize.ts:148-219 | a value of the whole declared shape comes out unaltered and without a note |
| Normalize.ReportedIffUnsound | src/lib/config-normalize.ts:142-219 | a value is called malformed if and only if something present in it is of the wrong type or outside its enum, exactly then there are notes, and otherwise it is only filled in |
| NormalizeLocal.DamageIsLocal | src/lib/config-normalize.ts:142-219 | position by position: a sound value under usable containers stays and is only filled in, rows moving up past dropped ones; an unusable value gets its default; undeclared keys stay; absent declared keys get defaults; no key or row appears |
| NormalizeLocal.StoreDamageIsLocal | src/lib/config-normalize.ts:228-253 | a key the store lacks has its runtime default, and damage under a stored key stays under it and local |
| NormalizeLocal.NotesExact | src/lib/config-normalize.ts:142-219 | the notes are at exactly the positions where the validator finds a wrong type or choice, rows of the wrong type told as dropped |
| Normalize.FullConforms | src/lib/config-normalize.ts:221-253 | the declared shape of the web view has no fault for the host |
| Normalize.FullHasOnlySoftProblems | src/lib/config-schema.ts:295-375 | a value of the whole declared shape gets only range, length, pattern and undeclared-key reports |
| ConfigSchemaTable.ShapeIsErasedSchema | src-tauri/src/cli.rs:838-947 | the host's table is the web view's schema with ranges, enums and defaults erased |
| ConfigSchemaTable.SchemaWellFormed | src/lib/config-schema.ts:109-242 | every default in the schema has its shape, every enum has a default in it, every required key is declared |
| ConfigSchemaTable.DefaultsFull | src/lib/config-defaults.ts:156-194 | the runtime defaults have the whole declared shape |
| ConfigProvider.NormalizeLoop | src/lib/config-normalize.ts:228-253 | the loop over the default keys computes the specified config, notes and repaired keys |
| ConfigProvider.ConfigIsFull | src/lib/config-normalize.ts:221-253 | for every raw store the config has every declared key in its declared shape and no other key |
| ConfigProvider.NotesIffRepaired | src/lib/config-normalize.ts:228-253 | there are notes exactly when some key is repaired |
| ConfigProvider.RepairedIffUnsound | src/lib/config-normalize.ts:228-253 | a stored key is repaired exactly when its value is unsound, and otherwise only filled in |
| ConfigProvider.RereadAfterRewrite | src/components/config-provider.tsx:58-76 | whichever corrected keys reach the file, the next read gives the same config and complains about exactly the keys that did not |
| ConfigProvider.RepairStabilises | src/components/config-provider.tsx:58-107 | once the repaired keys are written the next read gives the same config, no notes and nothing to repair |
| ConfigProvider.Provider.RewriteRepaired | src/components/config-provider.tsx:66-76 | exactly the repaired keys whose write gets through change in the store |
| ConfigProvider.Provider.ReadStore | src/components/config-provider.tsx:78-107 | an empty store publishes nothing; otherwise the normalised config is published and only repaired keys are rewritten |
| ConfigProvider.NormalizedSatisfiesBothLanguages | src/lib/config-normalize.ts:221-253 | for every raw store and the real tables, the host finds no fault and the validator no type, enum or missing-key error |
| ConfigHistory.SoundConforms | src/lib/config-normalize.ts:142-219 | what the web view leaves alone the host has no fault in |
| ConfigHistory.FaultsAreTypeProblems | src-tauri/src/cli.rs:964-1019 | the host reports a fault at a position if and only if the editor reports a wrong type there |
| ConfigHistory.NothingToRepairNothingFaulty | src-tauri/src/cli.rs:1958-1975 | a store the web view finds nothing to repair in has no fault for the host |
| ConfigHistory.RepairedStoreStaysFaultFree | src/components/config-provider.tsx:58-107 | any store, once repaired, is fault-free and stays so through any run of conforming writes |
| RowFilling.FilledRowIsRead | src-tauri/src/cli.rs:2236-2291 | a sound row filled in by the web view reads the same for the host but for the quality, remote control and output it lacks |
| RowFilling.RepairKeepsReadingIff | src-tauri/src/cli.rs:2236-2291 | and exactly the same if and only if it names no device or gives all three |
| JsonStructure.PathOfLoop | src/lib/json-structure.ts:57-67 | the loop builds the path the recursive definition gives |
| JsonStructure.SkipString | src/lib/json-structure.ts:124-141 | the inner loop ends a literal after its first quote or before its first line feed that no backslash takes, whichever comes first, or at the end of the text, and says whether a quote closed it |
| JsonStructure.StringEndIs | src/lib/json-structure.ts:124-141 | on any text a literal ends with its first quote, or before its first line feed or at the end of the text, counting only those no backslash takes |
| JsonStructure.LiteralEndIsUnique | src/lib/json-structure.ts:124-141 | and there is only one such end |
| JsonStructure.ScanUncached | src/lib/json-structure.ts:80-156 | the loop computes the specified structure of any text, and ends |
| JsonStructure.Scanner.ScanJson | src/lib/json-structure.ts:69-78 | the cache never changes the answer |
| JsonStructure.ScanIsOrdered | src/lib/json-structure.ts:80-156 | on any text the spans are non-empty, increasing and disjoint, and the pairs span two lines or more and are nested or disjoint |
| JsonAnyText.ScanReportsExactly | src/lib/json-structure.ts:80-157 | on any text the scan reports exactly the literals outside key position, with their paths, lines and columns, and exactly the brackets closed on a later line, as an automaton over single characters finds them |
| JsonAnyText.OpenerIsOpen | src/lib/json-structure.ts:100-113 | the bracket a closing one belongs to is the latest one opened with nothing but deeper text since |
| JsonAnyText.LaterLines | src/lib/json-structure.ts:130-135 | what is below a line feed with no backslash before it is scanned as by itself, so a missing quote hides nothing below its own line |
| JsonAnyText.LineIsTheEditorsIff | src/lib/json-structure.ts:92-98 | the reported line is the editor's exactly when no backslash takes a line feed before it |
| JsonScanPrint.EscapedEnds | src/lib/json-structure.ts:124-141 | the scanner's literal ends where the printer's does, whatever was escaped |
| JsonScanPrint.OverTree | src/lib/json-structure.ts:80-156 | scanning over the text of a tree in value position adds its strings and pairs and restores the stack |
| JsonScanPrint.ScanAfterPrint | src/components/config-json-editor.tsx:68 | the scan of a printed tree is exactly its string values in document order with their paths and spans, and its multi-line bracket pairs |
| JsonMask.SpanSlicesLiteral | src/lib/json-structure.ts:6-11 | the reported line and columns slice exactly the quoted literal out of the text |
| JsonMask.ScannedSpansSlice | src/lib/json-structure.ts:80-156 | so does every string reported on a printed document, with the path of its position |
| JsonMask.PathErasesToPattern | src/lib/json-structure.ts:28-35 | erasing the indices from a reported path gives the pattern of its position |
| MaskedPaths.FirstIndexErased | src/lib/json-structure.ts:28-35 | erasing takes the digits of the first index and nothing before them, and goes on behind it |
| MaskedPaths.NothingToErase | src/lib/json-structure.ts:28-35 | a path without an index stays as it is |
| MaskedPaths.MaskedIff | src/lib/config-schema.ts:248-253 | with the editor's own list, a path is masked if and only if it is one of the patterns or the token of a numbered row of either device list |
| MaskedPaths.TokenIsMasked | src/lib/config-schema.ts:248-253 | the path the scanner gives to the token of any row, and that it is masked |
| MaskedPaths.SpansArePicked | src/lib/json-structure.ts:37-49 | one span for each secret value that is not empty, in the order of the text: its path and what stands between its quotes |
| JsonMask.MaskingIsExact | src/lib/json-structure.ts:34-49 | on a printed document a character is covered if and only if it is content of a string value whose path or erased path is a pattern |
| LogBus.LogConservation | src-tauri/src/logbus.rs:81-163 | lines pushed are queued, held, committed, counted as dropped or counted in a notice, after every interleaving |
| LogBus.EveryRunKeepsInv | src-tauri/src/logbus.rs:81-170 | accepted lines commit in order, the ring is the last 2000 committed entries, queue and batch stay bounded |
| LogBus.ArmedRun | src-tauri/src/logbus.rs:144-170 | while armed, what is decided for emission is each later committed entry once and in order |
| LogBus.PanelLosesNothing | src-tauri/src/logbus.rs:144-180 | arming copies the last 2000 entries and every later one is decided and, with the app attached, emitted in order |
| LogBus.DuplicatesIffPending | src-tauri/src/logbus.rs:144-180 | an entry can be both copied and emitted later exactly when a decided batch was unemitted at arming, app attached or not |
| LogBus.DisarmedRun | src-tauri/src/logbus.rs:154-163 | from any state that is not armed, until someone arms it, nothing is decided for emission and nothing is emitted that was not decided before |
| LogBus.UnopenedIsSilent | src-tauri/src/logbus.rs:128-146 | with no panel ever opened nothing is decided or emitted |
| LogBus.ClosedIsSilent | src-tauri/src/logbus.rs:204-212 | after a disarm only the batch already decided is still emitted |
| LogBus.DetachedIsSilent | src-tauri/src/logbus.rs:133-142 | before an app is attached nothing is emitted |
| LogBus.DisconnectedDropsAll | src-tauri/src/logbus.rs:60-88 | without a writer thread every line is counted as dropped and none accepted |
| LogBusWriter.Bus.ReportDropped | src-tauri/src/logbus.rs:123-128 | the counter becomes zero and, when it was not, one notice with that count at the end of the batch |
| LogBusWriter.Bus.PushLine | src-tauri/src/logbus.rs:81-88 | the line becomes the next to be committed after all accepted before it, or is counted as dropped, and every push stays accounted for |
| LogBusWriter.Bus.FillBatch | src-tauri/src/logbus.rs:99-122 | the batch loop is a run of receive steps, keeps every count and takes at least one line |
| LogBusWriter.Bus.ExtendRing | src-tauri/src/logbus.rs:154-162 | the ring loop leaves the last 2000 of the old ring and the batch |
| LogBusWriter.Bus.Commit | src-tauri/src/logbus.rs:154-163 | the batch is decided for emission exactly when the stream is armed once the ring was extended, with or without a disarm in between |
| LogBusWriter.Bus.ArmAndSnapshot | src-tauri/src/logbus.rs:166-170 | the copy is the last 2000 of everything ever committed, and the stream is armed at that very moment |
| LogBusWriter.Bus.BacklogSnapshot | src-tauri/src/logbus.rs:188-196 | the same copy, with nothing armed |
| LogBusWriter.WriterPass | src-tauri/src/logbus.rs:90-146 | an undisturbed pass commits something, clears the drop counter and loses no accepted line |
| StartupGate.GateIff | src/lib/startup-gate.ts:47-76 | which of the five gates a report gets, if and only if, over the report's own rows: busy exactly on a supported system with a row of the busy key, and so on for each |
| StartupGate.GateRows | src/lib/startup-gate.ts:47-76 | which rows each gate carries, in the report's order |
| StartupGate.RemediationIff | src/lib/startup-gate.ts:79-89 | a silent driver is to be reinstalled whatever else there is, a missing one installed, and nothing is done about anything else |
| RepairLedger.OneIdWithinBudget | src/lib/startup-gate.ts:126-165 | lawful events recorded under one id are at most one removal, two installs and one relaunch, less what the record had spent |
| RepairLedger.BudgetPerStretch | src/lib/startup-gate.ts:126-165 | under any ids the bound is one removal, two installs and one relaunch for each stretch of attempts under one id |
| BootstrapSafety.ReactKept | src/pages/bootstrap.tsx:322-702 | every launch, button and kill keeps the events lawful and the stored record the one they lead to |
| BootstrapSafety.RepairBudget | src/pages/bootstrap.tsx:566-639 | while the host reports one boot id, any launches, retries, kills and answers stay within the budget of that id |
| BootstrapSafety.RepairBudgetPerStretch | src/pages/bootstrap.tsx:566-639 | whatever ids the host reports, the budget bounds each stretch of attempts under one id |
| BootstrapSafety.RecordedBeforeDone | src/pages/bootstrap.tsx:566-590 | at every moment of every run, under whatever ids, no more was removed, installed or relaunched than attempts were recorded for it |
| BootstrapSafety.NoRepairWhileBusy | src/pages/bootstrap.tsx:663-702 | nothing is removed, installed, relaunched or recorded between a report with a row of the busy key on a supported system and the next answer |
| BootstrapProgress.ProceedDoes | src/pages/bootstrap.tsx:663-702 | what every answer to the permission, report and config questions leads to, with the events and the dialog |
| BootstrapProgress.NothingToRemediate | src/pages/bootstrap.tsx:595-612 | rows an install cannot help with are not remediated |
| BootstrapProgress.RefusedRemediation | src/pages/bootstrap.tsx:595-612 | without an attempt left or a store to record it in nothing is removed or installed |
| BootstrapProgress.MissingDriverIsInstalled | src/pages/bootstrap.tsx:595-639 | a granted install of a missing driver is recorded and then made, once |
| BootstrapProgress.SilentDriverIsReinstalled | src/pages/bootstrap.tsx:595-639 | a granted reinstall removes, installs unless the removal threw, and relaunches only when the install failed, none was tried lately and it is granted |
| BootstrapProgress.RestartComesFirst | src/pages/bootstrap.tsx:322-332 | a leaking driver stops the setup before it does anything |
| BootstrapProgress.SetupDoes | src/pages/bootstrap.tsx:360-459 | what each answer of the setup leads to, and that one that succeeded is not run again |
| BootstrapProgress.FailedSetupInstalls | src/pages/bootstrap.tsx:360-459 | a failed setup with leave to install installs once when that is granted and tries the setup once more |
| BootstrapProgress.RetryDoes | src/pages/bootstrap.tsx:705-1130 | exactly the dialogs that offer it lead back to the gate |
| BootstrapTwoIds.TwoIdsHaveNoBudget | src/pages/bootstrap.tsx:669-677 | alternating boot ids give one install per launch for any number of launches |
| BootstrapPage.StartupPage.SpendRepair | src/pages/bootstrap.tsx:569-590 | a granted attempt is on record and paid for, is not granted again to the same boot, and no call writes more than that one record |
| BootstrapPage.StartupPage.Remediate | src/pages/bootstrap.tsx:595-639 | the launch ends only with a relaunch as its latest event; otherwise the page may still repair, whatever failed |
| BootstrapPage.StartupPage.InstallAndMaybeRelaunch | src/pages/bootstrap.tsx:614-627 | a paid install is done first, and a relaunch only when it was recorded after that |
| BootstrapPage.StartupPage.DriverHealthBlocks | src/pages/bootstrap.tsx:322-332 | blocks exactly by opening the restart dialog with the interrupted setup, else the health is settled and is not asked for again |
| BootstrapPage.StartupPage.RunSetup | src/pages/bootstrap.tsx:360-459 | ends with lawful events, within the budget of the boot, and has repaired nothing without leave to install |
| BootstrapPage.StartupPage.Proceed | src/pages/bootstrap.tsx:663-702 | does what the machine does, ends with lawful events, within the budget of the boot, with the busy dialog only on a busy answer |
| BootstrapPage.StartupPage.Press | src/pages/bootstrap.tsx:333-357 | every button leads from a valid page to a valid page within the budget |
| WifiQr.EscapesAgree | src-tauri/src/cli.rs:45-53 | five replacements in a row escape every value to the text of the single pass |
| WifiQr.PayloadsAgree | src/lib/utils.ts:15-21 | both sides print the same payload for every network |
| WifiQr.EscapesExactly | src/lib/utils.ts:15-16 | each of the five characters gets a backslash wherever it stands, and no other is touched |
| WifiQr.PayloadDecodes | src/lib/utils.ts:15-21 | the payload gives back the network name and the password |
| WifiQr.PayloadInjective | src-tauri/src/cli.rs:45-59 | two networks never share a payload |
| ControlLine.RoundTrip | src-tauri/src/single_instance.rs:67-185 | every command that validates comes back from its own request line |
| ControlLine.RoundTripIff | src-tauri/src/single_instance.rs:154-185 | among whitespace-free tokens this holds exactly for the non-empty ones |
| ControlLine.EmptyTokenParsesNothing | src-tauri/src/single_instance.rs:154-161 | an empty token answers no line that says anything |
| ControlLine.HasFirstWord | src-tauri/src/single_instance.rs:154-161 | every line that is not blank has a first word |
| ControlLine.AnsweredIff | src-tauri/src/single_instance.rs:154-161 | a line is answered if and only if its first word is the token, and a blank one if and only if the token is empty |
| ControlLine.WrongTokenParsesNothing | src-tauri/src/single_instance.rs:154-161 | a line with another first word is answered nothing, whatever follows and however it ends |
| ControlLine.VerbDecides | src-tauri/src/single_instance.rs:162-187 | a verb the host knows is that command whatever follows it, and any other is answered as unknown |
| ControlLine.SessionAsksOrSets | src-tauri/src/single_instance.rs:174-184 | SESSION alone asks; with words after it the first is the id and the rest the OTP |
| ControlLine.TokenAlone | src-tauri/src/single_instance.rs:162-187 | the token alone is answered as unknown |
| ControlLine.CredentialsPassIff | src-tauri/src/single_instance.rs:188-213 | credentials pass if and only if both have 1 to 64 characters, all of them letters, digits, hyphens or underscores |
| ControlLine.CutSetRequest | src-tauri/src/single_instance.rs:154-213 | a set request cut after the first id character is read as a set request for what arrived and is refused exactly when no OTP character did |
| ExitReason.RoundTrip | src-tauri/src/exit_reason.rs:65-105 | the time, the process and the flattened, trimmed reason are read back, and nothing exactly when the reason is blank |
| ExitReason.ParsesIff | src-tauri/src/exit_reason.rs:78-105 | what is read from any file: its first line, if and only if it is a time, a process and a reason that is not blank |
| ExitReason.Process.Record | src-tauri/src/exit_reason.rs:47-61 | once there is a reason nothing changes; the first one is what any other process then reads in the directory set, and no other file is touched |
| ExitReason.Process.ReportPrevious | src-tauri/src/exit_reason.rs:107-128 | reports what another process left at the path; afterwards no process finds anything there, and no other file is touched |
| ExitReason.NextProcessReadsTheFirstReason | src-tauri/src/exit_reason.rs:43-128 | over a whole process life the next process reads the first recorded reason |
| Text.TrimIs | src-tauri/src/exit_reason.rs:92-96 | what is left of a text after trimming |
| Text.DecimalParses | src-tauri/src/exit_reason.rs:70-95 | a printed number parses to itself when it is in range |
| Text.ParsesIff | src-tauri/src/cli.rs:1136-1143 | a text parses to a number if and only if it is its printed form with zeros and at most one plus sign in front, and the number is in range |
| DeviceLists.OperationIsOnOneRow | src/components/config-provider.tsx:190-235 | each operation keeps rows unique, does its work on the row of its own device and touches no other row |
| DeviceLists.KnownListIsItsHistory | src/components/config-provider.tsx:190-235 | over any history there is one row per device at most, listed exactly when it joined or was banned since its removal, with the last ban or unban, the last sight and address and the last texts since then |
| DeviceLists.OperationOnItsDevice | src/components/config-provider.tsx:190-235 | an operation leaves the rows of all other devices as they are |
| DeviceLists.DeviceStore.RecordKnownDevice | src/components/config-provider.tsx:195-213 | the device is listed and seen now, is banned exactly if it was, and no other device is touched |
| DeviceLists.DeviceStore.SetKnownDeviceBanned | src/components/config-provider.tsx:215-230 | afterwards the device is banned exactly as asked, is listed if it was or is banned, and no other device is touched |
| DeviceLists.DeviceStore.RemoveKnownDevice | src/components/config-provider.tsx:231-235 | afterwards the device is not listed, and no other device is touched |
| DeviceLists.DeviceStore.SaveDeviceSettings | src/components/config-provider.tsx:167-174 | the saved row is what is found, is the only new row, and replaces exactly the rows it matches |
| DeviceLists.DeviceStore.RemoveSavedDevice | src/components/config-provider.tsx:176-179 | exactly the matching rows go, and the device is not found afterwards |
| DeviceLists.CheckDuplicates | src/lib/config-schema.ts:411-425 | the loop with the `seen` set flags exactly the rows whose device an earlier row names |
| DeviceLists.SavedListHasNoDuplicates | src/components/config-provider.tsx:159-179 | over any history the duplicate check is silent exactly when a row naming no device was saved at most once |
| DeviceLists.SaveThenFind | src/components/config-provider.tsx:167-188 | what was saved is found, even when the save absorbed a tokenless row at its address |
| DeviceLists.SaveElsewhere | src/components/config-provider.tsx:167-188 | a save changes what is found for another device only by taking its row or by being it |
| DeviceMatching.SaveReplacesExactly | src/components/config-provider.tsx:159-174 | a save takes out exactly the rows with the device's token, or without one at its address, keeps the order of the others and adds the device at the end |
| DeviceMatching.FoundIsFirst | src/components/config-provider.tsx:159-188 | what is found is the first row with the token, or without one at the address asked for |
| DeviceMatching.ForgottenExactly | src/components/config-provider.tsx:176-179 | a removal keeps exactly the rows that do not answer, in their order |
| DeviceMatching.RemovedExactly | src/components/config-provider.tsx:231-235 | a removal or a join keeps the rows of all other known devices in their order |
| DeviceMatching.LastTextIs | src/components/config-provider.tsx:195-213 | a text on record is the latest one the device joined with that was not blank, trimmed |
| DeviceMatching.TrimTextIs | src/components/config-provider.tsx:195-206 | trimming takes off all white space in front and behind and nothing else |
| TrustReplay.LastBanIsReplayed | src-tauri/src/cli.rs:2070-2097 | a listed device whose token is not blank is replayed with its last ban or unban |
| TrustReplay.LastNamingDecides | src-tauri/src/cli.rs:2047-2056 | once the entries are applied in order a device is banned exactly as the last entry that names it says |
| TrustReplay.LastBanIsInForce | src-tauri/src/windows_utils/mod.rs:770-790 | after a start of the host a device is banned exactly as its last ban or unban says, unless another row stands for it |
| TrustReplay.LastApprovalDecides | src-tauri/src/cli.rs:2050-2055 | a device is approved in the end exactly when the last entry with its token does not ban it |
| TrustReplay.LastBanDecidesApproval | src-tauri/src/cli.rs:2047-2059 | after a start of the host a listed device is approved exactly when its last ban or unban does not ban it |
| TrustReplay.AddressEntry | src-tauri/src/windows_utils/mod.rs:770-790 | an entry without a token is about whoever is connected from its address, and approves nobody |
| TrustReplay.BannedIsNeverApproved | src-tauri/src/cli.rs:2053-2055 | entries that name devices by their tokens leave no device both banned and approved |
| TrustReplay.ReplayIsHistory | src-tauri/src/cli.rs:2070-2097 | every replayed entry is what the history says of some listed device |

## Left out

- ConfigProvider.RereadAfterRewrite: the write-backs are modelled as landing or not key by key; that a failed `save` leaves landed keys in memory only is not modelled.
- Schema.Walk: states which problems are reported, not their order, because the order of keys in a document is not modelled; the same holds for ConfigReaders.ConfigFaults.
- LogBusWriter.WriterPass: one pass with nobody else running; what holds with others running is stated on the state machine.
- BootstrapSafety.RepairBudget: assumes one boot id, because without it the bound is false (see above), and a store that keeps a write it reported as done, because `src/pages/bootstrap.tsx:92-94` concedes that a relaunch can beat the write to disk. The Install button a user presses is not budgeted by the program and is not in the model.
- TrustReplay.LastBanIsInForce: excludes a second row for the same device, whose later entry would overrule; `TrustReplay.LastNamingDecides` says which entry wins in every case.
- ConfigReadback.RowReadsBack: stops at the parsed row; the clamping of each value when it is applied to a device is not modelled.
- ControlLine.CutSetRequest: lengths are counted in characters where the program counts bytes; the two differ only on values that are refused either way.
- Error wording: faults, notes, refusals and problems are a position and a kind, not a sentence.
- Keys are given split at their dots; row labels in messages are not modelled.
- Numbers are kept as the document stores them (`30` and `30.0` apart, fractions exact); rounding to binary floats and JavaScript merging the two spellings are not modelled.
- Schema forms the real table does not use (enums of non-strings, patterns other than a list of prefixes, schemas without a type).
- The other cross-field checks of `validateConfig` (equal ports, password length, `dpr` above `maxDpr`): single comparisons.
- The drop counter is unbounded; the program's wraps at 2^64.
- The panel's own end of the log protocol, which reads the backlog before it listens.
- Publishing to subscribers, the snapshot's identity and the cache of a read in flight.
- Interleaved operations on the device lists and on the store.
- The startup page's dialogs beyond the buttons that lead back into `proceed` or `runSetup`, the update check and the holder's quit request.
- The relaunch memo of the web view is an answer the page gets, not a store, because the budget must hold whatever it says.
- Sockets, files, locks, processes, drivers, capture, encoding and the user interface.
