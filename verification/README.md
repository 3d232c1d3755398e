# Verified model of the as-built overlay, the release gate and their neighbours

This project models the parts of the repository that keep state across many steps, and proves what they
promise. `dafny verify dfyconfig.toml` checks all of it.

- **As-built overlay** (`Circuit`, `Drivers`, `Bound`, `AsBuilt`, `AsBuiltProofs`, `AsBuiltOutcomes`, `AsBuiltCaches`): the rework a
  board went through is replayed on its bound circuit. Cuts and lifts give terminals ids of their own,
  jumpers merge nets by renaming one node, fits add parts. The proofs say what is connected to what
  afterwards, for every overlay, which values every part then has, which refusal each entry meets, and that the
  cached node ids and driver handles move along.
- **Static board** (`StaticBoard`, `StaticRecords`, `StaticProofs`, `PinRoles`, `StaticMeaning`, `StaticJumpers`): the same rework on the
  extracted board: which pads are severed, under any rule for pin roles and under the binder's own, when its jumpers
  come to the same, and which node each pad's net stands for.
- **Control inputs** (`ControlInputs`, `ControlProofs`): transistor gates nothing sets, and holding them off.
- **Unseen-board ledger and release gate** (`Selection`, `SelectionMeaning`, `Ledger`, `LedgerProofs`, `LedgerMeaning`,
  `LedgerRefusals`, `Gate`, `GateProofs`, `AuditProofs`, `AuditMeaning`, `RunMeaning`, `GateRuns`, `PathGuard`): an append-only hash-chained
  ledger, the seeded selector, one gate run with all its exits, the audit, and any sequence of runs.
- **Value grading** (`Flashes`, `GerberFacts`, `PackageMeaning`, `NativeFacts`, `Unlocks`, `Grading`, `GradeMeaning`, `GradeReasons`): the
  streamed flash count, the net floor and the grade itself.
- **Scripts** (`PublishOrder`, `Processes`, `Cleanup`, `Lexer`, `LexerMeaning`, `TestLines`, `SourceLines`) and
  **evidence subjects** (`Occurrence`).

A module whose name ends in `Meaning`, `Outcomes`, `Reasons` or `Refusals` says what an operation's specification comes to on the
fields, lines and characters it is about, without the specification's own helpers.

`Connectivity`, `Order`, `Sequences`, `Text`, `Json` and `Wrappers` hold what the others share.

Encoders, decoders, the hash (SHA-256, section 6.2 of FIPS 180-4), path redaction, pattern matches and everything
a file, a process table, a clock or a browser run can answer are parameters. Of the encoder only a line
each value comes back from is taken, of the hash only that its digests are 64 hexadecimal digits. The
Gerber flash command is D03 (section 4.8 of the Gerber Layer Format Specification).

## Where a promise holds only under a condition

- An op-amp rail pin that a jumper puts on ground becomes the mark of a fixed rail, and no later jumper
  renames it. It follows its net exactly when it did not meet ground or ground was never merged away
  (`RailFollowsNetUnlessStranded`, `StrandedRailExample`).
- A jumper renames the caches it lists. A peripheral's chip-select and power nodes and the report's part pins
  are not among them, and hold the merged-away node exactly when they did before
  (`JumperLeavesNothingStale`).
- Read off the design, the static board severs exactly the pads of the floated terminals, when no net of the bound
  board is named like a severed pad's own (`asbuilt-...`), no part has one pad number on two nets, and a pad that
  stays keeps its roles while all pads of other roles are moved off its net. The first two a caller can read off
  the boards. For the last it is enough that no two sources name a pad differently, and under the binder's own rule
  the exact condition on the design is known; where it fails, a terminal's pad can be left unsevered. What one entry
  does on the board it meets asks none of this (`SeveringIsFaithful`, `FloatedPadsAreSevered`, `OverlayAgrees`,
  `RulePadsAreSevered`, `RuleStaysIff`, `AgreeingIsSettled`, `TabbedExample`, `DisagreeingExample`, `EntrySevers`, `SeverNameExample`).
- A severed pad stands alone on its fresh net when no pin is on an id handed out, which an unlisted net id can
  be (`AloneIff`, `UnlistedNetExample`).
- A jumper comes to the same on both boards exactly when both have both nets and do not have them as two
  listings of one node. A severed net is a net of the static board alone, two grounds are one node of the bound
  board, and a net merged away is no net of the static board any more (`JumperOutcomesAgreeIff`,
  `JumperListsAgreeIff`, `SeveredNetExample`, `TwoGroundsExample`, `MergedAwayExample`).
- A reservation leaves a readable ledger exactly when it is dated and its boards are well formed. An undated
  one ends the ledger: everything later is refused (`ReserveKeepsLedgerIff`, `UndatedReservationEndsTheLedger`).
- A reserved run leaves its one terminal record exactly when neither a selection error from the runner nor an
  artifact that is not UTF-8 gets in the way, and its evidence passes the path guard into a free file. A
  reservation left open is never closed by a later run (`RunClosesReservationIff`, `EscapesIff`,
  `EscapedRunIsNeverAudited`).
- The path guard also refuses evidence redaction has passed over: a key is never redacted, and a root followed by
  a quote matches only once it is encoded (`PathKeyEscapes`, `QuoteAfterRoot`, `QuotedRootEscapes`).
- The audit accepts a recorded run exactly when its iteration id is a plain file name that redaction leaves
  alone, and a sequence of runs exactly when every run that reserved boards is recorded under such an id
  (`AuditAfterRunIff`, `AuditAcceptsIff`).
- A flash command longer than the limit on unterminated input is lost (`LongRunLosesAFlash`); no stream is ever
  over-counted (`NeverOverCounts`).
- A command whose cleanup could not be proved gives code 125 exactly when no signal to an owned group was refused;
  a refused one raises out of the call, as an interrupt does (`RunCommand`, `RefusedSignalExample`).
- Blanking strings and comments keeps every line number exactly when no line of the text ends in one of them but at a
  newline; a form feed in a comment moves all lines below it (`LinesAlignedIff`, `NewlinesAreKept`, `FormFeedExample`).

## Model

| member | source | states |
|---|---|---|
| `AsBuilt.ApplyReplace` | crates/hauksbee-bind/src/asbuilt.rs:553-648 | the board becomes what the entry makes of it, or is left alone with a refusal; `ReplaceSetsExactly` says what that is on the devices' own fields |
| `AsBuilt.ApplyCut` | crates/hauksbee-bind/src/asbuilt.rs:650-701 | every transistor whose role stands on a matched net gets an id of its own, in device order; the ids handed out are consecutive |
| `AsBuilt.ApplyLift` | crates/hauksbee-bind/src/asbuilt.rs:703-756 | the same for every transistor the reference names, whatever net it stands on |
| `AsBuilt.ApplyJumper` | crates/hauksbee-bind/src/asbuilt.rs:779-853 | every terminal, net name and listed cache is renamed at once, or nothing is touched and the refusal says why |
| `AsBuilt.ApplyFit` | crates/hauksbee-bind/src/asbuilt.rs:478-529 | one device is appended under an unused name between two distinct known nets, or the board is left as it was |
| `AsBuilt.CheckNodeSpace` | crates/hauksbee-bind/src/asbuilt.rs:531-551 | accepts exactly when no node in use reaches the base of the floating ids, and otherwise names the largest |
| `AsBuilt.Apply` | crates/hauksbee-bind/src/asbuilt.rs:453-476 | the five kinds of entry in order: replace, cut, lift, jumper, fit, with the first refusal ending it |
| `AsBuiltOutcomes.ReplaceSetsExactly` | crates/hauksbee-bind/src/asbuilt.rs:553-648 | a replace succeeds exactly when it declares something, hits as many devices as it expects and every declared value fits each of them; then each device it means has the declared resistance, capacitance and thresholds, each in its own field, its undeclared ones are as before, and every other device is untouched; every refusal says which of these failed |
| `AsBuiltOutcomes.ReplacesInTurn` | crates/hauksbee-bind/src/asbuilt.rs:461-466 | so does each replace of a list in turn, on what the earlier ones left |
| `AsBuiltOutcomes.CutTakesExactly` | crates/hauksbee-bind/src/asbuilt.rs:650-701 | a cut fails exactly when no net fits its pattern or the transistors hit are not as many as expected; else exactly the named pin of exactly those floats |
| `AsBuiltOutcomes.LiftTakesExactly` | crates/hauksbee-bind/src/asbuilt.rs:703-756 | a lift fails exactly when its reference names nothing or not one transistor; else exactly its named pin floats |
| `AsBuiltOutcomes.FitOutcome` | crates/hauksbee-bind/src/asbuilt.rs:478-529 | which of the four refusals a fit meets, and when none |
| `AsBuiltOutcomes.NodeSpaceOutcome` | crates/hauksbee-bind/src/asbuilt.rs:531-551 | with a cut or lift, a node in use from 800,000 up refuses the overlay and names the largest; otherwise the check passes |
| `AsBuiltOutcomes.AppliedValues` | crates/hauksbee-bind/src/asbuilt.rs:453-476 | after a successful overlay every part the replaces left has exactly the values they gave it, through cuts, lifts, jumpers and fits, and each fit adds one part with its own |
| `AsBuiltProofs.NextIdCounts` | crates/hauksbee-bind/src/asbuilt.rs:660-690 | the running id advances by exactly the number of transistors hit |
| `AsBuiltProofs.FloatStep` | crates/hauksbee-bind/src/asbuilt.rs:650-756 | one cut or lift keeps the account: floated terminals hold pairwise different ids in the handed-out range, every other terminal its original node |
| `AsBuiltProofs.CutsFloat` | crates/hauksbee-bind/src/asbuilt.rs:650-701 | after all cuts exactly the terminals the cuts name have floated, each alone |
| `AsBuiltProofs.LiftsFloat` | crates/hauksbee-bind/src/asbuilt.rs:703-756 | after all lifts exactly those the lifts name as well |
| `AsBuiltProofs.JumpersMerge` | crates/hauksbee-bind/src/asbuilt.rs:779-801 | each jumper in turn succeeds exactly when its two nets are not already joined by the earlier ones |
| `AsBuiltProofs.JumpersSucceedIffForest` | crates/hauksbee-bind/src/asbuilt.rs:779-801 | a list of jumpers succeeds exactly when its nets are known and its node pairs form a forest; on success two terminals or names share a node exactly when the pairs connect the nodes they had |
| `AsBuiltProofs.JumperOrderIrrelevant` | crates/hauksbee-bind/src/asbuilt.rs:779-801 | the outcome, and what ends up joined, are the same for every order of the entries |
| `AsBuiltProofs.FitsAppend` | crates/hauksbee-bind/src/asbuilt.rs:478-529 | fits only append: one device an entry, with the entry's terminals and value, under a name nothing earlier has |
| `AsBuiltProofs.ReplacesKeepWiring` | crates/hauksbee-bind/src/asbuilt.rs:553-648 | replaces never change a terminal, a rail pin or a net |
| `AsBuiltProofs.BeforeFits` | crates/hauksbee-bind/src/asbuilt.rs:453-476 | a successful overlay has floated exactly its cut and lift terminals on free ids and merged a forest of known nets |
| `AsBuiltProofs.AppliedConnectivity` | crates/hauksbee-bind/src/asbuilt.rs:453-476 | after a successful overlay two terminals share a node exactly when they did with every cut or lifted terminal isolated and the jumper pairs merged |
| `AsBuiltCaches.JumperLeavesNothingStale` | crates/hauksbee-bind/src/asbuilt.rs:794-853 | after a jumper no terminal, net name or listed cache holds the merged-away node; the unlisted caches hold it exactly when they did before |
| `AsBuiltCaches.JumperKeepsCoherence` | crates/hauksbee-bind/src/asbuilt.rs:804-853 | a jumper leaves every cached driver naming the net side of its own resistor |
| `AsBuiltCaches.RetuneKeepsCoherence` | crates/hauksbee-bind/src/drivers.rs:194-220 | retuning one driver's resistance leaves every cached handle coherent |
| `AsBuiltCaches.ApplyKeepsCoherence` | crates/hauksbee-bind/src/asbuilt.rs:453-476 | so does a whole overlay, device ids included |
| `AsBuiltCaches.GroundMovesIffTaken` | crates/hauksbee-bind/src/asbuilt.rs:794-803 | ground itself is renamed exactly when some jumper merges it into another net |
| `AsBuiltCaches.RailFollowsNetUnlessStranded` | crates/hauksbee-bind/src/asbuilt.rs:804-806 | an op-amp rail pin follows its net through the jumpers unless it met ground first and ground was merged away later |
| `AsBuiltCaches.AppliedRails` | crates/hauksbee-bind/src/asbuilt.rs:453-476 | what every rail pin of the board holds after a successful overlay |
| `AsBuiltCaches.AppliedRailConnectivity` | crates/hauksbee-bind/src/asbuilt.rs:453-476 | after a successful overlay a rail pin shares its node with no floated terminal, and with any other terminal or net exactly when the jumper pairs connect them and it is not stranded |
| `AsBuiltCaches.StrandedRailExample` | crates/hauksbee-bind/src/asbuilt.rs:804-806 | a concrete pair of jumpers after which a rail pin and its net disagree |
| `Circuit.MapNodesRenamesTerminals` | crates/hauksbee-bind/src/asbuilt.rs:804-806 | the renaming a jumper applies reaches every terminal of every device variant |
| `Connectivity.ConnectedIsLeast` | crates/hauksbee-bind/src/asbuilt.rs:779-801 | joining by a list of pairs is the least equivalence holding them |
| `Connectivity.ForestIffNeverRedundant` | crates/hauksbee-bind/src/asbuilt.rs:788-796 | no pair is already joined by the earlier ones exactly when no pair is joined by the others |
| `Connectivity.RepIffConnected` | crates/hauksbee-bind/src/asbuilt.rs:794-803 | renaming one node at a time computes that equivalence |
| `Text.GlobMatchIffExpansion` | crates/hauksbee-bind/src/asbuilt.rs:1356-1368 | the matcher accepts exactly the texts some filling of its stars spells |
| `StaticBoard.FindFreeId` | crates/hauksbee-bind/src/asbuilt.rs:1246 | the first severed net id is one past the largest listed id |
| `StaticMeaning.FirstFreeIs` | crates/hauksbee-bind/src/asbuilt.rs:1246 | one past some listed id and above all of them, or 1 for none |
| `StaticMeaning.OwnerIff` | crates/hauksbee-bind/src/asbuilt.rs:1186-1197 | a transistor comes from the last component of its own name; where none has it, from the last one named by what stands before `_q` and a number; else from none |
| `StaticMeaning.PartIs` | crates/hauksbee-bind/src/asbuilt.rs:1249-1275 | what is listed for a terminal without a pad is its component's name, or its device's |
| `StaticMeaning.PadsAre` | crates/hauksbee-bind/src/binder.rs:4526-4580 | the pads of a role are the pins that the first source to name them calls by it and that are on the net of the first connected pin the first source to give the role anywhere gives it to; none on a part left open |
| `StaticBoard.SeverPads` | crates/hauksbee-bind/src/asbuilt.rs:1287-1295 | every planned pad moves to the next fresh id, with a net of that id added for it |
| `StaticBoard.SeverOnBoard` | crates/hauksbee-bind/src/asbuilt.rs:1240-1321 | the severing of all entries, and what is listed as left as designed |
| `StaticBoard.FloatedTerminals` | crates/hauksbee-bind/src/asbuilt.rs:912-940 | what each cut and lift moved, found by applying them to the bound board |
| `StaticBoard.JumperOnBoard` | crates/hauksbee-bind/src/asbuilt.rs:1035-1062 | every pin of the second net joins the first and the second name is dropped |
| `StaticRecords.EntriesRecordFloats` | crates/hauksbee-bind/src/asbuilt.rs:912-940 | every terminal the bound board floats is recorded with the node it has on the design; every record is of such a terminal, with that node, or with the float id an earlier entry gave it |
| `StaticProofs.TraceIs` | crates/hauksbee-bind/src/asbuilt.rs:1249-1258 | the pads found for a terminal are exactly those of its part that carry its role and stand on a net of the node it left |
| `StaticProofs.EntrySevers` | crates/hauksbee-bind/src/asbuilt.rs:1240-1321 | on whatever board an entry meets, exactly the pads of its terminals are severed, each onto a listed net named after it, and exactly the parts and nets of its terminals without a pad are listed |
| `StaticProofs.SeveringIsFaithful` | crates/hauksbee-bind/src/asbuilt.rs:1240-1321 | read off the design alone: which pads all entries sever, that no other pad changes net, and for each entry what it lists as left |
| `StaticProofs.FloatedPadsAreSevered` | crates/hauksbee-bind/src/asbuilt.rs:887-940 | the pads severed are exactly the pads of the terminals the cuts and lifts float on the bound board; a floated terminal without a pad has its part listed |
| `PinRoles.RuleStaysIff` | crates/hauksbee-bind/src/binder.rs:4526-4550 | under the binder's own role rule a pad that stays keeps its roles while whole roles are moved off, exactly when on the design each role's binding pin has it as its own, or has another without the role's pads beside it |
| `PinRoles.AgreeingIsSettled` | crates/hauksbee-bind/src/binder.rs:4580-4617 | that holds of a part when no two naming sources call one pin differently |
| `PinRoles.RulePadsAreSevered` | crates/hauksbee-bind/src/asbuilt.rs:887-940 | so with that rule the severed pads are exactly those of the floated terminals, under conditions read off the design |
| `PinRoles.TabbedExample` | crates/hauksbee-bind/src/binder.rs:4526-4550 | a collector with a lead and a tab of another number loses both pads, each to a net of its own |
| `PinRoles.DisagreeingExample` | crates/hauksbee-bind/src/binder.rs:4580-4598 | two sources that name one pad differently: cutting the base takes the collector's binding along, and a pad the design has is left unsevered and its part listed |
| `StaticProofs.AloneIff` | crates/hauksbee-bind/src/asbuilt.rs:1246-1295 | the severed pads stand alone on their nets when no pin left as it was carries an id handed out, and each pad having been moved once only then |
| `StaticProofs.UnlistedNetExample` | crates/hauksbee-bind/src/asbuilt.rs:1240-1321 | a pin on an unlisted net id shares the fresh net of a severed pad |
| `StaticProofs.SeverNameExample` | crates/hauksbee-bind/src/asbuilt.rs:1249-1258 | with a bound net named like a severed pad's own, a pad is severed twice and a part goes unlisted |
| `StaticJumpers.JumperOutcomesAgreeIff` | crates/hauksbee-bind/src/asbuilt.rs:1011-1062 | a jumper comes to the same on both boards exactly when the one lists both nets if the other names them, and the two are not two listings of one node |
| `StaticJumpers.JumperKeepsNodes` | crates/hauksbee-bind/src/asbuilt.rs:1035-1062 | a jumper both accept renames the node of every pad's net as it renames every terminal's |
| `StaticJumpers.JumpersKeepNodes` | crates/hauksbee-bind/src/asbuilt.rs:887-910 | over a list both accept, the node of every pad's net is what merging the jumper pairs makes of it |
| `StaticJumpers.StaticJumpersSucceedIff` | crates/hauksbee-bind/src/asbuilt.rs:1011-1062 | on the static board a list succeeds exactly when every entry joins two listed nets of different ids, none of which an earlier entry merged away |
| `StaticJumpers.JumperListsAgreeIff` | crates/hauksbee-bind/src/asbuilt.rs:887-910 | over nets both boards have once, a list succeeds on the bound one and not on the static one exactly when the pairs form a forest and an entry names a merged-away net |
| `StaticJumpers.SeveredNetExample` | crates/hauksbee-bind/src/asbuilt.rs:887-910 | a jumper to a severed net is accepted on the static board and unknown on the bound one |
| `StaticJumpers.TwoGroundsExample` | crates/hauksbee-bind/src/binder.rs:500-506 | a jumper between two grounds is accepted on the static board and joins a net to itself on the bound one |
| `StaticJumpers.MergedAwayExample` | crates/hauksbee-bind/src/asbuilt.rs:1055 | a forest that names a merged-away net is accepted on the bound board only |
| `StaticJumpers.IdsListedOnce` | crates/hauksbee-bind/src/binder.rs:476-507 | net ids listed once each stand for at most one node, which is what the comparison asks of a board |
| `StaticJumpers.SeveringKeepsNodes` | crates/hauksbee-bind/src/asbuilt.rs:1240-1321 | severing takes the severed pads off every node and leaves every other pad on its own |
| `StaticJumpers.OverlayAgrees` | crates/hauksbee-bind/src/asbuilt.rs:887-910 | after a whole overlay both accept, a severed pad is on no node, every other pad's net stands for what the jumper pairs make of its node, and so a pad and a terminal that shared one, neither severed nor floated, share one still |
| `Drivers.Netlist.NodeNamed` | crates/hauksbee-bind/src/drivers.rs:80-84 | ground's names give ground in any case, a name known in any case its node, a new name a new node |
| `Drivers.Netlist.Stamp` | crates/hauksbee-bind/src/drivers.rs:77-100 | a stamped leg is coherent and tuned, its devices are the two appended ones, and its hidden node is the one of its name and not ground |
| `Drivers.Netlist.StampSinkOnly` | crates/hauksbee-bind/src/drivers.rs:107-143 | a sink-only leg puts a one-way element between the net and its resistor, whose two hidden nodes are different ones |
| `Drivers.Netlist.RouteSupply` | crates/hauksbee-bind/src/drivers.rs:148-166 | the supply legs are appended and named by the handle, which stays coherent |
| `Drivers.Netlist.RouteReturn` | crates/hauksbee-bind/src/drivers.rs:169-179 | one return leg is appended and named; the handle stays coherent |
| `Drivers.Netlist.SetSupply` | crates/hauksbee-bind/src/drivers.rs:62-73 | the two supply legs take their currents and nothing else changes |
| `Drivers.Netlist.SetVolts` | crates/hauksbee-bind/src/drivers.rs:181-192 | an enabled leg takes the voltage on its own source and nothing else changes |
| `Drivers.Netlist.SetRon` | crates/hauksbee-bind/src/drivers.rs:194-206 | only the driver's own resistance changes, and only while it is enabled |
| `Drivers.Netlist.SetEnabled` | crates/hauksbee-bind/src/drivers.rs:208-220 | enabling or disabling puts the matching resistance on the driver's own leg |
| `Drivers.CoherentAfterAppend` | crates/hauksbee-bind/src/drivers.rs:77-143 | device ids stay valid while devices are only appended |
| `Drivers.CoherentAfterMerge` | crates/hauksbee-bind/src/asbuilt.rs:804-853 | a renamed circuit and a renamed handle are still coherent |
| `ControlInputs.DcGraph` | crates/hauksbee-bind/src/control_inputs.rs:97-116 | the held nodes and the two-way adjacency of resistors and inductors |
| `ControlInputs.FloatingCluster` | crates/hauksbee-bind/src/control_inputs.rs:216-232 | terminates with the gate's whole resistive component exactly when that holds neither ground nor a held node |
| `ControlInputs.FloatingTogether` | crates/hauksbee-bind/src/control_inputs.rs:216-232 | all nodes of one component get the same answer |
| `ControlInputs.JoiningKeepsDetermined` | crates/hauksbee-bind/src/control_inputs.rs:216-232 | more joins and more held nodes never set a determined node floating |
| `ControlInputs.UndeterminedGates` | crates/hauksbee-bind/src/control_inputs.rs:173-212 | the transistors with a floating gate cluster on which an undriven part's pin lands, in device order |
| `ControlInputs.DcDeterminedNodes` | crates/hauksbee-bind/src/control_inputs.rs:136-168 | the named nodes whose cluster, switches included, holds ground or a source |
| `ControlInputs.HoldOff` | crates/hauksbee-bind/src/control_inputs.rs:239-255 | one resistor for each gate that names a transistor, and its metadata dropped; `GatesAreHeldToSource` says between which nodes |
| `ControlProofs.DeterminedNeverFloats` | crates/hauksbee-bind/src/control_inputs.rs:97-168 | a node whose level is determined is never found floating by the gate search |
| `ControlProofs.HoldingLeavesNone` | crates/hauksbee-bind/src/control_inputs.rs:173-255 | holding off every gate found leaves none to find, shared clusters and skipped gates included |
| `ControlProofs.HoldingTouchesNothingElse` | crates/hauksbee-bind/src/control_inputs.rs:239-255 | it appends one resistor a gate, drops ratings of the held parts only, and floats nothing that was determined |
| `ControlProofs.GatesAreHeldToSource` | crates/hauksbee-bind/src/control_inputs.rs:239-255 | the k-th gate that names a transistor gets the k-th added device: a resistor of 1000 ohms from that transistor's gate to its own source, so that on the held board the two are connected |
| `ControlProofs.GateFoundIff` | crates/hauksbee-bind/src/control_inputs.rs:173-212 | a transistor is found exactly when nothing resistive joins its gate to ground or to a held node and some pin of a part that can drive but is not driven is joined to it |
| `ControlProofs.LevelDeterminedIff` | crates/hauksbee-bind/src/control_inputs.rs:136-168 | a name's level is determined exactly when resistors, inductors or switches join its node to ground or to a source |
| `Selection.UniqueCandidates` | qc/unseen_boards.py:744-753 | one candidate an id, refused exactly when two candidates disagree about an id |
| `Selection.SelectUnseen` | qc/unseen_boards.py:798-849 | the greedy choice over the unseen distinct contents; it depends on the index alone |
| `Selection.AvailableCount` | qc/unseen_boards.py:812-824 | as many boards are available as there are unseen contents |
| `Selection.NothingAhead` | qc/unseen_boards.py:838-841 | the chosen board is the first of the best key: nothing ranks ahead of it |
| `Selection.SelectionIsUnseen` | qc/unseen_boards.py:798-849 | exactly `count` boards, distinct in id and content, unseen in both; refused exactly when too few contents remain |
| `Selection.SelectionIgnoresOrder` | qc/unseen_boards.py:744-849 | the same list for every order or repetition of the candidates, equal ranks included |
| `Selection.NewFormatWins` | qc/unseen_boards.py:830-836 | a new format outscores any covered one while no board has more than 89 axes |
| `Selection.SelectionCoversFormats` | qc/unseen_boards.py:825-849 | then the selection covers as many formats as the count and the available formats allow |
| `SelectionMeaning.NewSourceWins` | qc/unseen_boards.py:830-841 | as new otherwise, a board of a new source is drawn before one of a covered source |
| `SelectionMeaning.MoreAxesWin` | qc/unseen_boards.py:830-841 | as new otherwise, a board with more new axes is drawn first |
| `SelectionMeaning.LowerRankWins` | qc/unseen_boards.py:836-841 | between boards as new in every way the lower rank is drawn |
| `SelectionMeaning.SelectionIsGreedy` | qc/unseen_boards.py:798-849 | the boards drawn from are the unseen ones, one a content and of that the least id; each place of the selection holds a board none of those left was better than; too few of them refuse |
| `Ledger.ParseHistory` | qc/unseen_boards.py:852-1094 | reading the ledger line by line: blank lines, every refusal, the hashed prefix and what was seen; `ReadableIff` says which texts read back |
| `Ledger.LedgerFile.ReserveIteration` | qc/unseen_boards.py:1178-1277 | a reservation is appended or the file is left alone |
| `Ledger.LedgerFile.AppendIterationResult` | qc/release_board_gates.py:37-101 | a terminal result is appended or the file is left alone |
| `LedgerProofs.ReadAppended` | qc/unseen_boards.py:852-1094 | an appended entry is read back against the hash of everything before it |
| `LedgerProofs.ReserveKeepsLedgerIff` | qc/unseen_boards.py:1178-1277 | a reservation leaves a readable ledger exactly when it is dated and every drawn board's record is well formed |
| `LedgerProofs.AppendKeepsLedger` | qc/release_board_gates.py:37-101 | a terminal result always leaves a readable ledger with one result more |
| `LedgerProofs.ReadableLedgerIsSound` | qc/unseen_boards.py:1003-1094 | in any readable ledger no board and no content is reserved twice and no iteration is reserved or closed twice |
| `LedgerProofs.ResultFollowsReservation` | qc/unseen_boards.py:852-957 | every result stands below its own reservation |
| `LedgerProofs.EveryRunReadsBack` | qc/unseen_boards.py:1178-1277 | built from nothing by any run of the two operations the ledger reads back, is sound, and later runs only append |
| `LedgerMeaning.ReadableIff` | qc/unseen_boards.py:852-1094 | a text reads back exactly when each of its lines, blank ones aside, is a reservation or a result of the right form that fits the lines above it: the hash of all of them, new boards, contents and id, or an open reservation and its contents; then exactly those lines are held |
| `LedgerRefusals.RefusalIsSo` | qc/unseen_boards.py:852-1094 | a text that does not read back is refused for its first line that does not fit, and what the refusal says of that line, its fields, its boards or the lines above it is so |
| `LedgerMeaning.LinksCarryTheHash` | qc/unseen_boards.py:911-915 | in a text that reads back every result and every reservation of schema 2 carries the hash of all the text above its line, and such a reservation's seed is the hash of its id, that hash and its entropy |
| `LedgerMeaning.EditedAboveCollides` | qc/unseen_boards.py:991-1001 | two texts that read back and hold the same link below different text have two texts of one hash |
| `RunMeaning.ReserveOutcome` | qc/unseen_boards.py:1178-1277 | each way a reservation can be refused, on the plan, the candidates and the ledger's lines, in order; otherwise the entry is the plan, the ledger's hash, the seed drawn from both and the five boards drawn, field by field |
| `RunMeaning.AppendOutcome` | qc/release_board_gates.py:37-101 | each way a result can be refused, in order; otherwise the entry is the terminal's facts, the ledger's hash and its reservation's contents |
| `Gate.ReleaseStore.RecordExternalEvidence` | qc/release_board_gates.py:779-810 | evidence is written unless it leaks a path or its file holds something else; then the reservation is closed with its digest |
| `Gate.ReleaseStore.RunExternalGate` | qc/release_board_gates.py:813-1011 | one run, every exit: refused, returned, failed after a record, escaped |
| `Gate.AuditReleaseHistory` | qc/release_board_gates.py:108-174 | the audit, fault by fault, with the counts; `AuditAcceptsExactly` says what it accepts |
| `AuditMeaning.AuditAcceptsExactly` | qc/release_board_gates.py:108-174 | for any ledger and any store: the audit accepts exactly when the ledger reads back, every reservation is closed, and every result's file is there, has the recorded digest and is an object that says the same gate, id, status, commit and boards; the counts are the numbers of reserving, completed and failed lines |
| `AuditMeaning.AuditRefusalIsSo` | qc/release_board_gates.py:108-174 | what a refusal of the audit says of the ledger, or of the file some result names, is so |
| `RunMeaning.RecordedOutcome` | qc/release_board_gates.py:880-960 | what each reserved run records: completed exactly when it was staged, read, ran to code 0, was unchanged after and was graded without a failed value; otherwise what went wrong |
| `RunMeaning.EvidenceIsWritten` | qc/release_board_gates.py:699-810 | a recorded run leaves its document in its own file: plan, pool, outcome and each board with the digests it was staged with, every text redacted |
| `GateProofs.RecordCloses` | qc/release_board_gates.py:779-810 | what a recorded run adds to the ledger and the store |
| `GateProofs.UnrecordedRunEscapes` | qc/release_board_gates.py:628-646 | a reserved run that reaches no record leaves its reservation open and raises |
| `GateProofs.RunClosesReservationIff` | qc/release_board_gates.py:813-1011 | a reserved run leaves exactly one terminal record if it reaches one and none otherwise; the record says completed exactly when the call returns |
| `GateProofs.EscapesIff` | qc/release_board_gates.py:892-960 | a run has no record to write exactly when the runner raises a selection error or the artifact is not UTF-8; it completes exactly when everything passed with code 0 |
| `AuditProofs.EvidenceNamesTheBoards` | qc/release_board_gates.py:699-740 | the evidence lists the digests of exactly the reserved boards |
| `AuditProofs.AuditAfterRunIff` | qc/release_board_gates.py:108-174 | between runs the audit accepts a recorded run exactly when its id is a plain file name redaction leaves alone, and counts one more |
| `GateRuns.EmptyIsKept` | qc/release_board_gates.py:108-174 | the empty ledger and store are accepted, with nothing to count |
| `GateRuns.AuditAcceptsIff` | qc/release_board_gates.py:108-174 | from an accepted ledger and store, after any sequence of dated runs, the audit accepts again exactly when every run that reserved boards reached its record under an id it can find; its counts are then those of the runs besides |
| `GateRuns.UnfindableIsAtFault` | qc/release_board_gates.py:108-174 | a record under an id that is no plain file name, or that redaction changes, leads the audit to another file, to none or to another id |
| `GateRuns.RunsStayAtFault` | qc/release_board_gates.py:108-174 | no later run puts such a record right, whatever digests collide: another run's evidence lists other boards |
| `PathGuard.PathKeyEscapes` | qc/release_board_gates.py:223-246 | redaction leaves keys alone, so a browser document with a local path for a key makes a reserved run escape unrecorded |
| `PathGuard.QuoteAfterRoot` | qc/release_board_gates.py:235-239 | a root followed by a quote is no local path to redaction, but once encoded it is one to the guard |
| `PathGuard.QuotedRootEscapes` | qc/release_board_gates.py:628-635 | so a browser document with that string makes a reserved run escape unrecorded |
| `GateRuns.EscapedRunIsNeverAudited` | qc/release_board_gates.py:813-1011 | a reservation a run left open is closed by no later run, and every later audit refuses |
| `GateRuns.UndatedReservationEndsTheLedger` | qc/unseen_boards.py:1039-1063 | after an undated reservation every later run and audit is refused |
| `Flashes.CountFlashes` | qc/value_grading.py:490-516 | the streamed count, marker and header of one member |
| `Flashes.CountIgnoresChunks` | qc/value_grading.py:490-516 | count, verdict and header are those of the whole buffer however the stream is cut, as long as no run between stars passes the limit |
| `Flashes.NeverOverCounts` | qc/value_grading.py:490-516 | on any stream no flash and no marker is invented and the header is exact |
| `Flashes.LongRunLosesAFlash` | qc/value_grading.py:511-514 | a flash command past the limit, read in full-sized chunks, is lost |
| `GerberFacts.GerberInputFacts` | qc/value_grading.py:553-633 | the counts over a package's films up to the first unreadable one |
| `GerberFacts.TwoSmallest` | qc/value_grading.py:623 | no two films hold fewer flashes than the two smallest |
| `GerberFacts.UnclassifiedFloorUnderstates` | qc/value_grading.py:609-623 | whichever two or more films are copper, the estimate is no more than their flashes and the floor no more than their true count gives |
| `GerberFacts.FactsAreOrdered` | qc/value_grading.py:553-633 | copper within identified within all films, and the estimate within the total |
| `GerberFacts.ClampMonotone` | qc/value_grading.py:847-851 | the floor stays within 2 and 32 and grows with the flashes |
| `PackageMeaning.PackageIs` | qc/value_grading.py:519-633 | of the members before the first unreadable one: how many are films, look like copper or are identified; the copper is known with two copper films, or one among films all identified; the flashes are those of the copper, or else of the two films that hold the least |
| `Unlocks.CapUnlocks` | qc/value_grading.py:1115-1155 | a list of at most eight is kept whole; of a longer one exactly the first eight are kept when those with fewer of their shape before them go first, and among those with as many the shape that appears earlier; the rest is counted |
| `Unlocks.ShapesComeFirst` | qc/value_grading.py:1115-1155 | the eight hold a sentence of every shape there is, or are of eight different shapes |
| `Unlocks.BaseIsItsOwnBase` | qc/value_grading.py:968-978 | a base designator is its own base |
| `Unlocks.SuffixesDoNotPad` | qc/value_grading.py:981-1011 | listing a part again under an engine suffix counts it once |
| `Grading.SelfConsistencyFailures` | qc/value_grading.py:882-965 | no failure exactly when both inventories are there, without repeats, within their totals, and every section has a title and a verdict |
| `Grading.CopperReasons` | qc/value_grading.py:1448-1549 | no reason exactly when the package is readable and its nets lie between floor and ceiling |
| `Grading.LayoutReasons` | qc/value_grading.py:1613-1773 | the reasons a layout, netlist or other input gives, in order, and what was verified |
| `Grading.BindingReasons` | qc/value_grading.py:1786-1874 | no reason exactly when every open part can be looked up; a shortfall always offers something |
| `Grading.GradeFirmware` | qc/value_grading.py:1254-1338 | no reason exactly when the firmware drove pins with a stated analog verdict, or was load-only and said why not |
| `Grading.GradeBoard` | qc/value_grading.py:1341-1919 | the verdict, every reason in order, the signals and the unlocks: failed exactly with a reason, degraded always with an unlock; the assertion error is never reached |
| `Grading.DeliveredIsBenchGrade` | qc/value_grading.py:1341-1919 | `delivered` means, on the journey's and the report's own fields, a KiCad or Eagle board counted in its bytes, a live clock read later after than before, two check sections, two nets, half of what was counted, no open part, and all critical parts bound |
| `GradeMeaning.GradeIs` | qc/value_grading.py:1341-1919 | failed, degraded and delivered, each exactly: what a journey, its report and its firmware must have, and what leaves a good one wanting, all on fields |
| `GradeMeaning.StillClockFails` | qc/value_grading.py:1246-1251 | a clock not read twice, not live, or read no later after than before fails the board whatever else it did |
| `GradeReasons.ReasonsAre` | qc/value_grading.py:1341-1919 | each of the reasons is given exactly when it holds |
| `Grading.InputFactsFor` | qc/value_grading.py:773-815 | the facts taken from the input: its films, or the counts of its bytes, or none |
| `GradeMeaning.FactsAre` | qc/value_grading.py:647-815 | placements; nets by id where there is one but 0, else by name, the one count that is not exact; net names for Eagle; designators exactly where as many records carry one as there are placements |
| `NativeFacts.ReferenceDesignators` | qc/value_grading.py:665-691 | the designators the records carry, and how many carry one |
| `GradeMeaning.FilmsAreOffered` | qc/value_grading.py:1448-1612 | films are offered what the report says of its reader, or the request for the layout |
| `GradeMeaning.LayoutIsOffered` | qc/value_grading.py:1786-1874 | any other input is offered all the report offers, the instruction for its undriven parts, and the request for a count where none could be checked |
| `GradeMeaning.FirmwareIsOffered` | qc/value_grading.py:1254-1338 | and what its firmware adds: why it did not run, or what would make its analog answers hold |
| `Grading.OpenPartsAreActionable` | qc/value_grading.py:1786-1874 | a part left open on a board that is not failed is named by an unlock the board is offered, and of at most eight unlocks the grade carries every one |
| `Grading.OpenPartNeverHelps` | qc/value_grading.py:1786-1874 | one open part more never lifts a grade, rules `delivered` out, and in a degraded one is named by an unlock |
| `Grading.LostPlacementsNeverHelp` | qc/value_grading.py:1690-1720 | a report that accounts for fewer placed parts never grades higher, and under half of them it fails |
| `Grading.CopperIsNeverDelivered` | qc/value_grading.py:1591-1612 | a fabrication package is at best degraded |
| `PublishOrder.PublishOrder` | scripts/workspace_crates.py:73-83 | round after round, what waits for nothing left, by name; a refusal lists names that all wait for one of themselves |
| `PublishOrder.PublishesIffAcyclic` | scripts/workspace_crates.py:73-83 | succeeds exactly when the publishable set has no dependency cycle; every package once, after all it depends on |
| `PublishOrder.OrderIgnoresInputOrder` | scripts/workspace_crates.py:73-83 | uniquely named inputs give the same list in any order |
| `Processes.OwnedProcesses` | scripts/run_required_integrations.py:202-251 | the least set holding the root, the adopted, the session's and the tagged processes and closed under children, and exactly their groups but the runner's |
| `Cleanup.Runner.LiveProcessGroups` | scripts/run_required_integrations.py:308-320 | every group not returned was just seen dead, every returned one just answered |
| `Cleanup.Runner.SignalProcessGroups` | scripts/run_required_integrations.py:254-266 | descendant groups in ascending order, the root's last; stops at a group that may not be signalled |
| `Cleanup.Runner.WaitForProcessGroups` | scripts/run_required_integrations.py:335-345 | true only once every group was seen dead; false only after every allowed poll, with a group that still answered |
| `Cleanup.Runner.AuditCompletedCommand` | scripts/run_required_integrations.py:348-377 | only the owned groups are touched; each that answers is asked to stop, and none is killed that was not asked and then given the polls it has; clean only with a process table and every owned group seen dead, else every group not seen dead was sent Kill, unless a signal was refused; without a table exactly the root's group is asked, looked at and killed if it answers |
| `Cleanup.Runner.StopProcessGroup` | scripts/run_required_integrations.py:380-432 | all that the first look owns is asked to stop before anything is killed, and only what either look owns is touched; clean only with both tables and every group owned at either seen dead, else every group not seen dead was sent Kill, unless a signal was refused; without a table exactly the root's group is asked and killed |
| `Cleanup.Runner.RunCommand` | scripts/run_required_integrations.py:435-523 | after the command was started and not interrupted the call raises exactly when a signal to an owned group was refused; otherwise an unproved cleanup gives code 125, and with the process tables there some owned group was seen alive; what is asked, killed and touched is as in the two cleanups; a timed-out command gives 125 without a first table, and raises when it has a group and none may be signalled |
| `Cleanup.RefusedSignalExample` | scripts/run_required_integrations.py:254-266 | a system and process table on which a timed-out command raises and there is no code 125 |
| `Lexer.Strip` | scripts/check-package-includes.py:35-95 | the six states of the scanner, character by character |
| `Lexer.StrippedKeepsLines` | scripts/check-package-includes.py:35-95 | newlines stay at their index, every index keeps its character or holds a space, no opener is left, and one space is added exactly when the text ends in a string on a lone backslash |
| `Lexer.StripIsIdempotent` | scripts/check-package-includes.py:35-95 | blanking twice blanks nothing more |
| `Lexer.LineNumbersKept` | scripts/check-package-includes.py:35-118 | counting newlines, every index stands on the same line of the blanked text as of the original |
| `LexerMeaning.CodeKept` | scripts/check-package-includes.py:48-69 | a character that opens no comment and no string is kept |
| `LexerMeaning.LineCommentBlanked` | scripts/check-package-includes.py:70-74 | a line comment is blanked up to the end of its line and no further |
| `LexerMeaning.BlockCommentBlanked` | scripts/check-package-includes.py:75-82 | a block comment is blanked up to the end of the one that matches its opening, comments within it counted |
| `LexerMeaning.StringBlanked` | scripts/check-package-includes.py:83-88 | a string is blanked up to its first quote with an even number of backslashes before it |
| `LexerMeaning.OpenStringBlanked` | scripts/check-package-includes.py:83-88 | a string no quote ends is blanked to the end of the text, with one space more after a lone backslash |
| `LexerMeaning.RawStringBlanked` | scripts/check-package-includes.py:89-94 | a raw string is blanked up to its first quote with as many hashes, or to the end |
| `TestLines.FindModule` | scripts/check-package-includes.py:108-117 | the first line naming a module at most four lines below an attribute line, or none when there is no such line |
| `TestLines.MarkBlock` | scripts/check-package-includes.py:118-131 | every line from the module to the first one at which a brace has been opened and all are closed, or to the end of the file, is added and no other |
| `TestLines.TestModuleLines` | scripts/check-package-includes.py:98-134 | the line numbers returned are those covered by the blocks found one below another from the top |
| `TestLines.BlocksAreApart` | scripts/check-package-includes.py:98-134 | the blocks do not overlap, and each starts at the first module within reach of an attribute line |
| `TestLines.NoModuleIsMissed` | scripts/check-package-includes.py:98-134 | an attribute line with a module in reach lies inside a marked block, or a block starts at that module |
| `SourceLines.LinesAlignedIff` | scripts/check-package-includes.py:38-43 | counting every line end of the text, each index stands on the same line of the blanked text exactly when no line ends in a string or a comment but at a newline |
| `SourceLines.NewlinesAreKept` | scripts/check-package-includes.py:38-43 | that holds of a file whose lines end in newlines |
| `SourceLines.FormFeedExample` | scripts/check-package-includes.py:66-71 | a form feed in a comment is blanked, and the blanked text has one line less |
| `SourceLines.NoMoreLines` | scripts/check-package-includes.py:104-111 | the blanked text never has more lines than the text, so looking up the original of a blanked line never fails |
| `SourceLines.TestLinesOf` | scripts/check-package-includes.py:98-134 | a whole file: attributes looked for in its text, modules and braces in the blanked text |
| `SourceLines.AttributeIff` | scripts/check-package-includes.py:110-113 | a test attribute is a `cfg` of `test`, or a line with a `cfg` and somewhere the word `test` between an opening mark and a closing one |
| `SourceLines.LinesCutTheText` | scripts/check-package-includes.py:104-105 | the lines with their ends after them are the text; no line holds a break, and a carriage return before a newline ends none of its own |
| `SourceLines.BlankedTextDecides` | scripts/check-package-includes.py:98-134 | two files with the same blanked text and the same attribute lines have the same test lines |
| `Occurrence.SubjectsForReferences` | crates/hauksbee-bind/src/occurrence.rs:33-55 | each subject knows its reference's count and its own place among its equals |
| `Occurrence.SubjectsAre` | crates/hauksbee-bind/src/occurrence.rs:16-55 | a trimmed reference that is not empty, stands nowhere else in the list and has not the prefix is its own subject; any other is the prefix, its bytes in hexadecimal and how often it stood up to its place |
| `Occurrence.SubjectReads` | crates/hauksbee-bind/src/occurrence.rs:16-31 | a subject reads back as the trimmed reference, or as its bytes and ordinal |
| `Occurrence.SubjectsAreDistinct` | crates/hauksbee-bind/src/occurrence.rs:33-55 | no two references of a list share a subject |
| `Occurrence.Utf8Injective` | crates/hauksbee-bind/src/occurrence.rs:26-29 | different references have different bytes |
| `Occurrence.CharBytes` | crates/hauksbee-bind/src/occurrence.rs:26-29 | each character gives the one, two, three or four bytes its value needs |

## Left out

- ApplySpec: does not bound the ids handed to floated terminals by 32 bits; the source adds to a `u32` from 800,000 up.
- HoldOff: asks that the circuit can hold the added resistors, since the source aborts past 2^32 devices.
- UndeterminedGates: leaves out the gate's net name and the note, which are report wording.
- PinDriver: is a value here, so that a board's handles cannot alias; the source owns each handle once as well.
- ReplaceSpec: compares values with the source's relative tolerance on reals; rounding is not modelled.
- StaticBoard: replace and fit on the static board, which set text fields or add one component, are left out.
- SeveringIsFaithful: asks, as FloatedPadsAreSevered and OverlayAgrees do, that no part has one pad number on two nets; the source calls that a contradiction of the board, refused elsewhere.
- RuleOf: what each naming source reads, and whether a part is left open, are given as functions of the part, the pin and which pins are connected. The clash that leaves a part open also looks at nets, where a card numbers its pads from a package standard, and net ids past 32 bits are taken for unconnected; both are left out.
- RuleStaysIff: asks that pins of one number have one own role; a pin's function could differ between them.
- NodeNamed: takes the index to be that of the names; the source rebuilds one whose size says otherwise.
- HasLocalPath: follows the pattern for paths that begin with a slash; the one for drive letters, and the escapes of characters beyond ASCII, are left out.
- AsBuilt: line numbers, suggestions, report lines and the TOML reader are left out.
- ParseHistory: splits the text at newlines only, and takes the decoder's values as given; file locking is left out.
- EvidenceOf: leaves out the exit code, the validation message and the known corpus digest, which nothing reads back.
- Graded: validating the browser artifact, journey honesty and the corpus gate enter as one outcome.
- RunExternalGate: discovery, staging, reading and the browser run enter as outcomes, a failure of either kind included.
- CountFlashes: takes the stream as the list of chunks read; a member's copper and role matches are parameters.
- GradeBoard: reasons are named rather than worded, caveats and ratios in the signals are left out, and the sentences a co-simulation refusal states are given.
- NativeScan: takes what the patterns of a KiCad or Eagle file match as given.
- summarize: sorting the grades into the summary's lists is left out, since each list is one filter.
- PublishOrder: the reading of `cargo metadata` and the other two commands are left out.
- OwnedProcesses: states the groups for a table that lists each process once, as the system's listing does.
- WaitForProcessGroups: time is a number of polls, and reaping is left out since it answers nothing.
- RunCommand: output texts are left out; an interrupt during the cleanup itself is not modelled.
- TestModuleLines: takes a line's attribute, module and brace counts as given; `TestLinesOf` reads them off the text.
- Selection: firmware digests and the pool digest are what the disk answers.
