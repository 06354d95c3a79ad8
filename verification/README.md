# VLE, verified

VLE (Virtual Laboratory Environment) runs and edits DEVS simulation models. This
project models five of its parts and proves what they are for:

- **cvle**, the distributed experiment runner: a master cuts a CSV file into
  numbered blocks and hands them to workers, which run one simulation per row on
  a shared experiment they change and restore (`Cvle*.dfy`);
- **gvle**, the model editor: a tree of coupled and atomic models wired by name,
  fresh names, a textual path language, an undo stack of subtree diffs, two such
  stacks kept in step, and values written into XML (`Vpz*.dfy`, `Names.dfy`,
  `Dom.dfy`, `Shared.dfy`, `XQuery*.dfy`, `Diff*.dfy`, `JointUndo.dfy`,
  `EditorUndo.dfy`, `ValueCodec.dfy`);
- the **multi-component DEVS model** and its event list (`EventVector.dfy`,
  `MultiComponent*.dfy`);
- the **File and Storage output plug-ins** (`Output*.dfy`);
- the **two-dimensional array** (`Array2D.dfy`).

Each file holds one module of the same name. `Common.dfy` has the text functions
they share. `dafny verify dfyconfig.toml` checks everything.

## How the pieces fit

The distributed run is a transition system: the master's loops and every worker
are program counters, each pair of processes has a first-in first-out channel,
and a block travels as two messages. `CvleProtocol` gives the steps,
`CvleInvariant` the invariant, `CvleOutcome` the measure, the freedom from
deadlock and the equality with one sequential pass. `CvlePlan` gives the plan on
inputs without blank lines, `CvleBlank` on all others. The simulation itself is an
uninterpreted function of the conditions and the row number. `CvleModes` puts the
two ways of reading a row (columns, complex values) into that machine, and
`CvleReadBack` runs the whole machine on the template the tool generates itself.
What a row says is stated apart from how it is read: `CvleColumns.Leaves` and
`CvleBackup.Between` give the experiment a row is simulated with, and
`CvleModes.ColumnOutput` and `CvleModes.ComplexOutput` give what a finished run has
written in those terms.

The editor is proved twice over. `VpzEditor` shows that every operation keeps the
model tree well formed and does what it means, told by the positions of models and
ports and not by names (`VpzEffect`, `VpzEditor.ApplyEffect`). The undo stack stores
node objects, not copies, so putting one back lets later undos rewrite what an
entry remembers: `Shared` models a document whose nodes carry the number of the
entry that refers to them, `DiffStack` the stack on such documents.
`DiffRefinement` shows that the stack behaves as a list of whole documents while
the list of edited places is safe (no edit strictly inside the place of a later
one, after a still earlier one covering that place, unless another covers it in
between); `DiffExact` shows that on every list that is not safe some session of
undos and redos shows a wrong document; `DiffMerge` treats the edits that merge.
`EditorUndo` joins the two halves: every session of operations, undos and redos
with safe places stays at the document of a well formed model, and one session of
three operations loses a port.

The transition logic of the multi-component model is proved over the event list
its documentation describes; `EventVector` models the vector as it is written and
says exactly when the two agree. `MultiComponentPlay` replays every step as the list
of questions put to the components, arguments included, and shows that each
reacts to exactly what was announced to it, in order.

Where the code does not do what its documentation says, the model follows the
code, and a lemma gives the exact condition together with an input on which the
promise fails:

- an input without rows or without a final newline blocks every process for ever,
  and a blank line can end a run early (`CvlePlan.HaltsExactly`,
  `CvleBlank.BlankLinesExact`, `CvleBlank.BlankLinesHalt`,
  `CvlePlan.BlankLineLosesRows`);
- a row with fewer fields than columns sees values of earlier rows
  (`CvleColumns.HistoryIndependence`, `CvleModes.ShortRowRemembers`);
- in a dotted name, text that is no number addresses the first element of a set
  (`CvleAccess.WordIsFirst`);
- changes to the simulation engine are never restored
  (`CvleBackup.ModifyRestore`, `CvleBackup.EngineLeaks`);
- undo brings back a node object that another undo has changed meanwhile
  (`DiffExact.UndoExact`, `EditorUndo.PortIsLost`);
- an edit that lists an element twice merges with an edit of other elements
  (`DiffStack.RepeatsMerge`);
- an edit merged while redo entries wait can be lost (`DiffMerge.MergeExact`,
  `DiffMerge.MergeLosesEdit`);
- the event list reads its back where the earliest event is in front, and its
  `remove` drops another component's event (`EventVector`);
- a bare date relabels what File has not written yet
  (`OutputFill.FileIsForwardFill`, `OutputFill.QuietMislabels`,
  `OutputNoLoss.NoLossExact`);
- a new row step of a matrix and the empty tuple do not survive the document
  (`ValueCodec.RoundTripExact`);
- the start of a multi-component model announces a date where a duration is
  expected (`MultiComponentCycle.Model.Init`);
- the moving form of the array's `set` inserts (`Array2D.InsertExact`);
- a template gets an empty token after an empty container or an unsupported
  value, on which its own reader stops (`CvleTemplate.NoBlankExactly`,
  `CvleReadBack.TemplateIsNeutral`).

## Model

| member | source | states |
|---|---|---|
| `CvleInput.Root.Read` | apps/cvle/cvle.cpp:1006-1035 | a read returns exactly the next non-blank rows, framed, with the half-open range of their numbers, and leaves the stream behind them |
| `CvlePlan.HaltsExactly` | apps/cvle/cvle.cpp:1006-1035 | on an input without blank lines the reader reports its end, after at least one block, if and only if the block size is positive, there is a row, and a newline ends the last row |
| `CvlePlan.PlanCovers` | apps/cvle/cvle.cpp:1062-1090 | for every worker count and block size the blocks, end to end, are the rows of the input in order |
| `CvlePlan.NumberedOffset` | apps/cvle/cvle.cpp:1006-1035 | the numbers of the blocks are consecutive, so a row's number is its position in the input |
| `CvleBlank.FirstStopIs` | apps/cvle/cvle.cpp:1015-1029 | the line at which a scan of the input stops is the first blank line that directly follows a whole number of blocks of rows |
| `CvleBlank.EndStopIs` | apps/cvle/cvle.cpp:1062-1090 | with n workers to prime, the run ends at the first such line, or at the next one when fewer than n blocks stand before the first |
| `CvleBlank.BlankLinesExact` | apps/cvle/cvle.cpp:1006-1090 | for every list of lines, blank ones included, every worker count and block size: every row is handed out if and only if no row comes after the line that ends the run |
| `CvleBlank.BlankLinesHalt` | apps/cvle/cvle.cpp:1006-1090 | and the master hands out a block and sees the end if and only if the block size is positive, the first line is a row, and a newline ends the last line or a blank line ends the run before |
| `CvlePlan.BlankLineLosesRows` | apps/cvle/cvle.cpp:1024-1029 | the smallest such loss: one worker, blocks of one row, a row, a blank line and a row |
| `CvleWorker.UnframeFrame` | apps/cvle/cvle.cpp:910-954 | a worker takes a framed block apart into exactly the rows the master put in |
| `CvleWorker.Worker.Run` | apps/cvle/cvle.cpp:910-954 | the loop over a block runs its rows in order, numbered from the first, on one memory handed from row to row |
| `CvleWorker.RunRowsIsSequential` | apps/cvle/cvle.cpp:910-954 | a block run on a used memory writes the text of its rows each run on a fresh memory |
| `CvleWorker.SequentialRows` | apps/cvle/cvle.cpp:923-949 | the sequential text is the texts of the rows one behind the other, the k-th run alone under the k-th number |
| `CvleInvariant.StepInv` | apps/cvle/cvle.cpp:1045-1178 | every step of the master or of a worker keeps the invariant: a worker is marked busy exactly when it owes a reply, every channel holds header, then block and numbers in pairs, then one end message, and the ledger of blocks matches the plan |
| `CvleInvariant.RunInv` | apps/cvle/cvle.cpp:1045-1178 | the invariant holds in every state of every run |
| `CvleOutcome.RunsAreBounded` | apps/cvle/cvle.cpp:1058-1101 | a measure on unread rows, messages and replies decreases at every step, so no interleaving goes on for ever |
| `CvleOutcome.Progress` | apps/cvle/cvle.cpp:1076-1101 | in every reachable unfinished state of an input that halts, some process can move |
| `CvleOutcome.Outcome` | apps/cvle/cvle.cpp:1045-1178 | a run that can go no further is finished if and only if the input halts; then every block was written once and the texts, in plan order, are one sequential pass |
| `CvleOutcome.DistributedIsSequential` | apps/cvle/cvle.cpp:1045-1178 | in terms of the input: a maximal run finishes if and only if there is a row, a final newline and a positive block size, and then the blocks are the rows, each simulated under its own index, and what is written is a permutation of the sequential output cut at block ends |
| `CvleColumns.Columns.UpdateFields` | apps/cvle/cvle.cpp:561-607 | a row is accepted if and only if every field has a column and can be read as its kind; then each cell holds the converted text of the last field bound to it (the original value for an empty one), each label its unquoted field, and everything else is as before |
| `CvleColumns.RowLeaves` | apps/cvle/cvle.cpp:561-607 | the same of the row as a whole, for every memory, aliased columns included |
| `CvleColumns.HistoryIndependence` | apps/cvle/cvle.cpp:561-607 | a row leaves the same values and labels whatever rows ran before, aliased columns included, if and only if its fields cover the columns |
| `CvleModes.ColumnRunsAreSequential` | apps/cvle/cvle.cpp:887-954 | column mode end to end, for any header that names columns and is not that of complex mode: on rows that fill the columns every maximal run blocks for want of rows or newline, or writes the sequential output |
| `CvleModes.HeaderBinds` | apps/cvle/cvle.cpp:887-908 | a header is accepted if and only if it is not that of complex mode and every token is a label or denotes a value; each column is then that label, or that cell with its value |
| `CvleModes.ColumnOutput` | apps/cvle/cvle.cpp:910-954 | a finished run has written, for every row, its labels and the simulation under the row's own number of the experiment in which each cell holds what the row says |
| `CvleModes.ShortRowRemembers` | apps/cvle/cvle.cpp:923-949 | a short row repeats the label of whatever row the same worker ran before |
| `CvleBackup.Restore` | apps/cvle/cvle.cpp:693-707 | the restoring loop, for any order of the conditions |
| `CvleBackup.ModifyRestore` | apps/cvle/cvle.cpp:653-707 | modify then restore gives back the original conditions if and only if the row does not change the simulation engine; otherwise exactly the engine's new ports stay |
| `CvleBackup.ModifyWrites` | apps/cvle/cvle.cpp:653-690 | modify throws exactly for an unknown condition or a port without value; otherwise every selected condition has the row's value in each of the row's ports and keeps the others, and every other condition is as before |
| `CvleBackup.EngineLeaks` | src/vle/vpz/Conditions.cpp:116-121 | a row that shortens the simulation leaves it short for the rows behind it |
| `CvleModes.ComplexRunsAreSequential` | apps/cvle/cvle.cpp:887-949 | complex mode end to end, under its literal header: on rows that keep the engine the distributed run is the sequential one |
| `CvleModes.ComplexOutput` | apps/cvle/cvle.cpp:923-949 | a finished run has written, for every row, its name and the simulation under the row's own number of the original conditions with those of the row in place |
| `CvleTemplate.TemplateLine` | apps/cvle/cvle.cpp:217-269 | the loop on the explicit stack ends and prints the columns that recursion on the value gives, commas included |
| `CvleTemplate.Template` | apps/cvle/cvle.cpp:271-323 | header and first line of the whole file, for every experiment, conditions without ports included |
| `CvleTemplate.NoBlankExactly` | apps/cvle/cvle.cpp:251-267 | the template has no empty token if and only if there is a condition, every condition has a port, and every value ends in a scalar along its first children |
| `CvleAccess.LeavesNamed` | apps/cvle/cvle.cpp:332-439 | every dotted name the walk makes resolves to the node it stands for |
| `CvleAccess.EnterExact` | apps/cvle/cvle.cpp:396-432 | a parameter leads into a set by the number its text reads as, when that is a place of the set, into a map by its key, and nowhere else |
| `CvleAccess.WordIsFirst` | apps/cvle/cvle.cpp:396-412 | text that is no number leads to the first element |
| `CvleAccess.LeavesDistinct` | apps/cvle/cvle.cpp:235-250 | no two scalars of a value get the same dotted name |
| `CvleReadBack.TemplateReadBack` | apps/cvle/cvle.cpp:217-439 | token k of the header denotes the scalar printed in field k, tokens are distinct, every scalar has one, and there is no empty one exactly when the experiment is tidy |
| `CvleReadBack.TemplateIsNeutral` | apps/cvle/cvle.cpp:332-364 | a worker opens the generated header if and only if the experiment is tidy (an empty token trips the assertion on condition names), and the generated row then keeps every value and label |
| `CvleReadBack.TemplateRun` | apps/cvle/cvle.cpp:271-323 | the distributed run on the unedited template of a tidy experiment always finishes and writes exactly one text, that of the original experiment numbered zero |
| `Names.ProvideName` | src/gvle/dom_tools.cpp:213-239 | ends for every document and returns the first numbered candidate absent from the children |
| `Names.ProvideNameExcluding` | src/gvle/dom_tools.cpp:190-211 | ends for every document and exclusion set, and returns the first offer that is neither a child nor excluded |
| `Names.OffersDiffer` | src/gvle/dom_tools.cpp:190-211 | different numbered prefixes never lead to the same name, whatever suffix each got |
| `VpzEdit.RmModelExact` | src/gvle/vlevpz.cpp:2025-2082 | removing a submodel keeps exactly the connections that still resolve |
| `VpzEffect.RmModelEffect` | src/gvle/vlevpz.cpp:2025-2082 | the k-th submodel is gone and no other, with exactly the connections that had an end at it; the kept ones are in order and join the same ports |
| `VpzEdit.RmOwnPortExact` | src/gvle/vlevpz.cpp:2487-2506 | removing a port keeps, inside the model, exactly the connections that still resolve |
| `VpzEdit.RmSubPortExact` | src/gvle/vlevpz.cpp:2440-2486 | and so at the level above |
| `VpzEffect.RmSubPortEffect` | src/gvle/vlevpz.cpp:2440-2506 | that port of that submodel is gone and no other, with exactly the connections, inside and outside, that had an end at it |
| `VpzEdit.AddModelExact` | src/gvle/vlevpz.cpp:2168-2224 | a new model gets a fresh name, and the document stays well formed if and only if its parent is a coupled model: the element is created in any parent |
| `VpzEdit.AddConnWF` | src/gvle/vlevpz.cpp:2590-2624 | a connection is never written twice, and the level stays well formed |
| `VpzEffect.AddConnEffect` | src/gvle/vlevpz.cpp:2590-2777 | the two ports are joined afterwards, by one connection more if and only if they were not |
| `VpzEditor.ConnectWF` | src/gvle/vlevpz.cpp:2652-2777 | only connections between ports of the right levels and directions are added, and they resolve |
| `VpzEditor.ApplyWF` | src/gvle/vlevpz.cpp:2002-2793 | every operation with fresh new names keeps the whole tree well formed |
| `VpzEditor.SessionWF` | src/gvle/vlevpz.cpp:2002-2793 | every document of every session stays well formed |
| `VpzEditor.ApplyEffect` | src/gvle/vlevpz.cpp:2002-2793 | every operation on a well formed document does what it means, by position: exactly that submodel, port or connection comes, goes or is renamed, exactly the connections with an end at a removed one go, the others stay in order and join the same ports, and the rest of the tree is untouched |
| `VpzEditor.Elsewhere` | src/gvle/vlevpz.cpp:2002-2793 | a model neither above nor below the place of an edit is the same |
| `VpzEditor.RenameModelWF` | src/gvle/vle_dom.cpp:1190-1325 | renaming a model to a name fresh among its siblings keeps the wiring, as a relation on port nodes, at every level of the tree, whatever names parents, children or grandchildren carry |
| `VpzEditor.RenameModelExact` | src/gvle/vle_dom.cpp:1190-1325 | a rename keeps the document well formed if and only if the name is fresh among the siblings |
| `VpzEditor.RenameModelBack` | src/gvle/vle_dom.cpp:1190-1325 | renaming back is the identity |
| `VpzEditor.RenamePortWF` | src/gvle/vlevpz.cpp:2340-2438 | renaming a port keeps the wiring inside and outside |
| `VpzEditor.RenamePortExact` | src/gvle/vlevpz.cpp:2340-2438 | and is safe if and only if the name is fresh among the ports of that direction |
| `VpzEditor.Editor.Rename` | src/gvle/vle_dom.cpp:1190-1325 | the loops over both lists of connections rename exactly the references to the model, in place |
| `VpzEditor.Editor.Remove` | src/gvle/vlevpz.cpp:2025-2082 | the collecting and removing loops take away the addressed submodel and exactly the connections with an end at it, and nothing else |
| `VpzEditor.Editor.RenamePortOf` | src/gvle/vlevpz.cpp:2340-2438 | the loops over the connections inside the model and in its parent rename exactly the references to the port, in place; the document stays well formed if and only if the name is fresh |
| `VpzEditor.Editor.RemovePortOf` | src/gvle/vlevpz.cpp:2440-2506 | the loops at both levels remove exactly the connections at the port |
| `VpzEditor.Editor.AddModelTo` | src/gvle/vlevpz.cpp:2168-2224 | one submodel under a fresh name, everything else unchanged, whatever the parent |
| `VpzEditor.Editor.AddPortTo` | src/gvle/vlevpz.cpp:2508-2548 | one port under a fresh name, everything else unchanged |
| `VpzEditor.Editor.ConnectPorts` | src/gvle/vlevpz.cpp:2590-2777 | the two port nodes are joined, between siblings, into a model or out of it, by at most one new connection; in any other position nothing happens |
| `VpzEditor.Editor.RemoveConnection` | src/gvle/vlevpz.cpp:2779-2793 | exactly that connection goes |
| `XQueryRoundTrip.RoundTripExact` | src/gvle/vle_dom.cpp:53-142 | resolving the printed query of a node gives that node and creates nothing, if and only if every step to it has a listed tag, is the first with its tag or name, and its name holds no separator |
| `XQueryRoundTrip.QueriesDiffer` | src/gvle/vle_dom.cpp:53-142 | different addressable nodes have different queries |
| `XQueryRoundTrip.QuerySurvivesEdit` | src/gvle/vle_dom.cpp:78-142 | a query still denotes its node after any edit inside it that keeps its tag and name |
| `XQueryRoundTrip.ResolvedIsProper` | src/gvle/dom_tools.cpp:79-158 | whatever any query resolves to is reached by steps a query can name |
| `XQueryGrowth.ResolveGrows` | src/gvle/dom_tools.cpp:79-158 | looking for a node only ever adds empty elements of unique tags behind the children there are |
| `XQueryGrowth.ResolveStays` | src/gvle/dom_tools.cpp:79-158 | on the document it led to, or any that has only grown since, the same query leads to the same node and adds nothing |
| `XQueryRoundTrip.VpzGrammarOk` | src/gvle/vle_dom.cpp:53-142 | no listed tag of the experiment document is a prefix of another or holds a separator |
| `XQueryRoundTrip.VpmGrammarOk` | src/gvle/vle_dom.cpp:152-227 | the same for the metadata document |
| `DiffStack.SnapshotExact` | src/gvle/dom_tools.cpp:314-399 | with room left and no element listed twice, the stack is unchanged if the edit is of the kind of the entry on top, at the same node and about the same set of elements, and that entry is neither the bottom nor the saved one; in every other case a new entry holds a copy of the node as it was |
| `DiffStack.SnapshotOpens` | src/gvle/dom_tools.cpp:352-376 | whatever the lists, an edit that leaves out an element of the entry on top, or is about a different single one, opens a new entry |
| `DiffStack.RepeatsMerge` | src/gvle/dom_tools.cpp:358-376 | a list with a repeated element merges with a different one |
| `DiffStack.SaveSeparates` | src/gvle/dom_tools.cpp:447-463 | after a save the next edit opens a new entry |
| `DiffStack.DomDiffStack.MergeTest` | src/gvle/dom_tools.cpp:347-376 | the nested loops over the queries decide whether the edit belongs to the entry on top |
| `DiffStack.DomDiffStack.TakeSnapshot` | src/gvle/dom_tools.cpp:314-399 | the new entry with a copy of the node as it is and the entries behind it forgotten, or, when the edit goes on with the entry on top, nothing |
| `DiffStack.DomDiffStack.TakeNullSnapshot` | src/gvle/dom_tools.cpp:323-345 | the entry that stands for a change in the other document |
| `DiffStack.DomDiffStack.UndoEdit` | src/gvle/dom_tools.cpp:401-427 | what is at the place is copied for a redo, the remembered node object itself moves there, the tree it replaces falls apart into the objects other entries refer to, and the index moves back |
| `DiffStack.DomDiffStack.RedoEdit` | src/gvle/dom_tools.cpp:429-445 | the copy made by the undo takes the place, the objects it replaces stay with the entries that refer to them, and the index moves forward |
| `DiffRefinement.StepRefines` | src/gvle/dom_tools.cpp:314-463 | every action on the stack of shared node objects matches the same action on a list of whole documents, as long as the places of the edits stay safe |
| `DiffRefinement.RunRefines` | src/gvle/dom_tools.cpp:314-463 | over every run of snapshot-then-edit, undo, redo, save and clear with safe places, the document is version `curr` of the list |
| `DiffExact.UndoExact` | src/gvle/dom_tools.cpp:401-445 | for every list of edits: all sessions of undos and redos show the version they should, at every moment, if and only if the list of edited places is safe |
| `DiffMerge.MergeExact` | src/gvle/dom_tools.cpp:347-445 | after an edit merged while an entry waits, redo and undo lead to the waiting version and back if and only if the edit changed nothing, or changed only what the waiting entry replaces and the node of that entry is part of the document |
| `DiffMerge.MergeLosesEdit` | src/gvle/vlevpz.cpp:2796-2810 | in every document and at every addressable node: edit, edit, undo, undo, redo, a merged edit, redo, undo ends with the first edit, and the merged one is gone |
| `JointUndo.Synchronize` | src/gvle/vlevpz.cpp:4336-4352 | both catching-up loops end and leave the indices equal |
| `JointUndo.JointRefines` | src/gvle/vlevpz.cpp:3987-4014 | every edit of either document followed by synchronisation, and every joint undo or redo, keeps equal indices and marks and, with safe places in both, moves both documents to the same joint version |
| `JointUndo.JointRunRefines` | src/gvle/vlevpz.cpp:3987-4014 | so over every run from two fresh stacks |
| `EditorUndo.EncInjective` | src/gvle/vlevpz.cpp:2186-2223 | the document determines the model |
| `EditorUndo.OpIsLocal` | src/gvle/vlevpz.cpp:2002-2793 | every structural operation replaces exactly the node it snapshots, keeping its tag and name, and the result is the document of the edited model; with a null snapshot or none nothing changes |
| `EditorUndo.EditorWithUndo` | src/gvle/vlevpz.cpp:3987-4014 | over every session of operations, undos and redos with safe places, the document is that of the current model of a plain list of models, and that model is well formed |
| `EditorUndo.PortIsLost` | src/gvle/dom_tools.cpp:401-445 | in every document: a submodel is renamed, one of its submodels gets an input port and is renamed; three undos, three redos and one undo show the model without the port, where it should be there |
| `ValueCodec.RoundTripExact` | src/gvle/vle_dom.cpp:285-625 | a value written into a node reads back as its normal form, and as itself if and only if it holds no empty tuple, no matrix inside it has a row step, and its own row step is the one its node carried before |
| `ValueCodec.BuildThrows` | src/gvle/vle_dom.cpp:285-450 | tables and XML values aside, reading throws if and only if the document holds, where it is read, an element of no value, a matrix with refused dimensions or a key without a value |
| `EventVector.TopExact` | include/vle/devs/MultiComponent.hpp:72-102 | `top` is the minimum if and only if the last event is as early as the first |
| `EventVector.MakeImminent` | include/vle/devs/MultiComponent.hpp:77-92 | the popping loop takes exactly the run of equal dates at the back |
| `EventVector.MakeImminentExact` | include/vle/devs/MultiComponent.hpp:77-92 | it takes exactly the earliest events if and only if all events are simultaneous |
| `EventVector.ImminentSplits` | include/vle/devs/MultiComponent.hpp:77-92 | the list is cut behind the last event of another date than the back: what is behind becomes imminent, what is before stays as it was |
| `EventVector.RemoveExact` | include/vle/devs/MultiComponent.hpp:104-118 | `remove` removes just that component's event if and only if there is none or it is in one of the last two places |
| `EventVector.RemoveDoubles` | include/vle/devs/MultiComponent.hpp:104-118 | otherwise the next event takes its place, is there twice, and the last event is lost |
| `EventVector.BackIsNotEarliest` | include/vle/devs/MultiComponent.hpp:99-102 | two components due at different dates: the later one is announced |
| `EventVector.RemoveLosesLast` | include/vle/devs/MultiComponent.hpp:104-118 | removing the first of three events loses the last |
| `MultiComponent.BuildBags` | include/vle/devs/MultiComponent.hpp:130-146 | the nested loops build one bag per influenced component |
| `MultiComponent.BagContents` | include/vle/devs/MultiComponent.hpp:130-146 | the bag of a component holds exactly the events that influence it, in order |
| `MultiComponentCycle.Model.Init` | include/vle/devs/MultiComponent.hpp:201-223 | the components are started in order, each with a finite first duration gets one event, a negative one stops the start; the date returned is the earliest of the list, the model is ready for its first cycle, and that date is the documented duration if and only if the start is at zero |
| `MultiComponentCycle.Model.InternalTransition` | include/vle/devs/MultiComponent.hpp:307-319 | the loop over the imminent set calls one internal transition for each, in some order, and collects the changes they ask for per target |
| `MultiComponentCycle.Model.ExternalTransition` | include/vle/devs/MultiComponent.hpp:330-355 | the loop over the bags calls one external transition for each influenced component, whose event leaves the list |
| `MultiComponentCycle.Model.ConfluentTransitions` | include/vle/devs/MultiComponent.hpp:370-419 | each imminent component moves internally or confluently and its bag is erased; those whose bag is left move externally |
| `MultiComponentCycle.Model.ProcessChanges` | include/vle/devs/MultiComponent.hpp:173-181 | every component with pending changes reacts once, leaves the event list and joins the imminent set |
| `MultiComponentCycle.Model.TimeAdvance` | include/vle/devs/MultiComponent.hpp:260-298 | exactly the components that moved or reacted are asked and rescheduled; the duration returned is never negative and leads to the earliest date of the list |
| `MultiComponentCycle.InternalCycle` | include/vle/devs/MultiComponent.hpp:234-319 | output followed by an internal step calls exactly the due components, once each, then one reaction per changed component, and none is both imminent and scheduled |
| `MultiComponentCycle.ExternalCycle` | include/vle/devs/MultiComponent.hpp:330-355 | an external step calls exactly the influenced components, once each |
| `MultiComponentCycle.ConfluentCycle` | include/vle/devs/MultiComponent.hpp:370-419 | in the log of the calls made, a confluent step moves every due or influenced component exactly once, by the kind its membership calls for |
| `MultiComponentPlay.InternalPlays` | include/vle/devs/MultiComponent.hpp:165-319 | an internal step is the replay of one internal transition per imminent component at this date, then one reaction per target of changes, handed everything announced to it in the order of the calls; a target has an entry if and only if something was announced |
| `MultiComponentPlay.ExternalPlays` | include/vle/devs/MultiComponent.hpp:165-355 | an external step likewise, each perturbed component handed the events that reach it |
| `MultiComponentPlay.ConfluentPlays` | include/vle/devs/MultiComponent.hpp:165-419 | a confluent step likewise, imminent and perturbed components handed all events, the other perturbed ones those that reach them |
| `MultiComponentPlay.StartExact` | include/vle/devs/MultiComponent.hpp:201-223 | the start is refused exactly when a component answers with a negative wait; otherwise each is started once on what the ones before left, with one event that long after the start if its wait is finite |
| `MultiComponentPlay.AdvanceDates` | include/vle/devs/MultiComponent.hpp:260-298 | every component that moved is due its wait from now, if finite, and no other date changes |
| `MultiComponentCycle.CycleRefinesFlat` | include/vle/devs/MultiComponent.hpp:234-419 | after one legal cycle the event list is that of a flat coordinator: moved components rescheduled from their time advance, all others untouched |
| `MultiComponentCycle.SimulationReady` | include/vle/devs/MultiComponent.hpp:234-248 | over every legal simulation `output` is entered with nothing imminent |
| `MultiComponentCycle.SimulationDisjoint` | include/vle/devs/MultiComponent.hpp:260-275 | over every legal simulation no component is imminent and scheduled at once, so the internal check never fires |
| `MultiComponentCycle.SimulationMonotone` | include/vle/devs/MultiComponent.hpp:234-419 | simulated dates never go back |
| `OutputPlugins.File.FlushLine` | pkgs/vle.output/File.cpp:263-295 | the loop writes the buffered line and clears its marks, only if something is new or there is no column |
| `OutputPlugins.File.OnNewObservable` | pkgs/vle.output/File.cpp:157-187 | a new column flushes first and is refused if it exists |
| `OutputPlugins.File.OnValue` | pkgs/vle.output/File.cpp:197-236 | the line is flushed on a new date or a repeated column, then the cell is set |
| `OutputPlugins.Storage.OnNewObservable` | pkgs/vle.output/Storage.cpp:155-174 | every row of the matrix gets one more empty cell |
| `OutputPlugins.Storage.OnValue` | pkgs/vle.output/Storage.cpp:183-227 | a new date opens a row, and the value goes to the last row |
| `OutputTable.StorageTable` | pkgs/vle.output/Storage.cpp:155-227 | over every trace, with columns announced at any moment: one column per announcement, one row per change of date under that date, and in each cell the last value delivered to that column under that date |
| `OutputFill.FileIsForwardFill` | pkgs/vle.output/File.cpp:157-330 | on the same trace File writes as many lines as Storage has rows if and only if the trace is steady, and then each line is the forward fill of the rows up to it, with the same date |
| `OutputFill.QuietMislabels` | src/vle/devs/View.cpp:149-170 | with or without flush-by-bag, a bare date after a value puts that value on a line under the bare date, where Storage keeps two rows |
| `OutputNoLoss.NothingLost` | pkgs/vle.output/File.cpp:197-330 | with flush-by-bag, on a trace where no bare date changes the date while a value waits, every delivered value is on a line of the final file, in its column, under its own date |
| `OutputNoLoss.NoLossExact` | pkgs/vle.output/File.cpp:197-330 | and on every trace whose dates do not go back and whose values are distinct, no value is lost if and only if the trace is like that |
| `OutputNoLoss.QuietRelabels` | pkgs/vle.output/File.cpp:205-236 | any bare date with another date takes every waiting value over to that date |
| `Array2D.SlotInjective` | include/vle/utils/Array.hpp:311-317 | distinct cells never share a slot |
| `Array2D.ReadInjective` | include/vle/utils/Array.hpp:337-368 | storage of one slot per cell and table of values determine each other |
| `Array2D.CopyOverlap` | include/vle/utils/Array.hpp:154-170 | the nested copy loops of the plain resize keep exactly the overlapping rectangle and default the rest |
| `Array2D.Array.ResizeTo` | include/vle/utils/Array.hpp:154-170 | the array becomes the resized table, one slot per cell |
| `Array2D.Array.ResizeAndFill` | include/vle/utils/Array.hpp:172-183 | the array becomes a table of one value |
| `Array2D.Array.Set` | include/vle/utils/Array.hpp:311-317 | one cell changes, and none when the index is out of range |
| `Array2D.Array.Get` | include/vle/utils/Array.hpp:337-351 | the cell's value, or an error out of range |
| `Array2D.Array.Run` | include/vle/utils/Array.hpp:130-183 | after any sequence of resizes and sets the array stands for the table the same sequence gives |
| `Array2D.ResizeDetour` | include/vle/utils/Array.hpp:154-170 | resizing through another size loses nothing if and only if every cell cut off held the default or lies outside the final size |
| `Array2D.InsertExact` | include/vle/utils/Array.hpp:319-335 | the moving set is a set if and only if the cell and all behind it hold one value, and the storage is one slot too long in any case |

## Left out

- MPI itself: error codes, aborts, buffering and rendezvous of sends, and the 32-bit range of row numbers; channels are unbounded queues that keep order.
- Simulations, conversions between text and numbers, and the parsing of complex rows are parameters.
- A failed simulation or conversion: the end-to-end theorems on runs assume that every row is accepted, since a worker that throws ends the whole program.
- The three vectors of column definitions are one list of columns, so the limit on their size is not modelled.
- The iteration order of hash sets and hash maps: every order is allowed.
- Null pointers inside the values of a template, on which the generator would crash.
- CvleReadBack.TemplateRun: the first line must not be empty, as it is when the only scalar is an empty string; a blank row is not a run.
- Removing the top model, class definitions, dynamics, conditions, observables and views in the editor, and copying models between documents: they add cases, not harder properties.
- White space between elements and the missing `in`, `out`, `submodels` or `connections` elements of a hand-written file: the encoding always has them.
- Sharing of nodes between the documents of two undo stacks does not occur and is not modelled; inside one document it is, in `Shared` and `DiffStack`.
- DiffExact.UndoExact: for lists of edits that do not merge; edits that merge are in `DiffMerge`.
- Past its capacity the undo stack reads out of bounds, so runs stay within it; the indices past it are modelled in `DiffStack`.
- The flag that tells whether the document is saved, except for its effect on merging.
- VpzEditor.Editor.Rename and the other methods of the class work on the model tree as a value in one field; the loops over connections are theirs, the document elements are in `EditorUndo`.
- Tables, XML and user values in `ValueCodec`, and text nodes that are saved and parsed again.
- ValueCodec.RoundTripExact: for values without null inside, as the writer would crash on one.
- The order of reactions inside one cycle of the multi-component model beyond "each changed component once", and the flag for its debug check.
- File names, separators, julian days and locale of the File plug-in; the header row and spare capacity of Storage.
- OutputNoLoss.NoLossExact: the converse needs distinct values, since a lost value cannot be told from an equal one on another line.
- Assertions of the source are modelled as failures, as they are in a build that checks them.
- `assign`, `emplace` and iterators of the array beyond the insertion they share with the moving set.
- Qt widgets, plug-in loading, packages, remote access, the kernel's coordinator and its graph translators.
