# KG OS kernel model

A model of the versioned ontology kernel in `internal/kernel` and of the small state machines around it, with proofs of
what they are for. The graph engine is a set of maps: nodes, relationships, property maps, a commit log. Each statement
sent to it is the update of those maps that it denotes. Go's map iteration is an arbitrary choice, so every result holds
for every order. Clocks, random secrets, network fetches and file contents are arguments.

The parts, by file:

- `History` follows `EvolutionHistory` through commits and the changes inside them, against one flat list;
  `HistoryScopes` says what each scope selects and which requests are answered.
- `BindingGraph`, `Decoder` and `Compiler` write a plan into the internal graph and decode it again.
- `Hunks`, `PatchHunks` and `GitPatch` apply, undo, print and parse Git patches; `GitForms` prints what Git itself adds.
- `RenameData`, `RenameMaintenance`, `NodeRenames`, `NodeSafety` and `DerivedRenames` rename Properties and Definitions
  on stored nodes and relationships and on planned ones.
- `PatchPlan` plans entries and resolves references; `Indexes` settles shared indexes; `PatchExamples` holds concrete
  patches. `SchemaMigration` carries out the schema half, and `Transaction` joins all halves into one patch.
  `PlanMeaning` says what a plan and a committed patch mean for each object, Property and index of the base.
- `MergeLens` maps merge conflicts between native and public values in both directions.
- `PropertyRule` and `PropertyValue` print, parse and normalize property types and values.
- `Sandbox`, `OAuthBroker` and `WebSessions` are step protocols, each with all its runs.
- `Preview` walks the Domain graph through a paginated reader; `ViewDoc` lays out documents with fenced bodies and
  index rows.
- `Common`, `Sorting` and `Model` hold what the others share.

## Findings

Where a promised property fails, the code is modelled as it is, a lemma or method exhibits an input, and a further one
says exactly when the property holds. Paths are below `internal/`.

- kernel/patch_parser.go:250-262: a diff without context lines that inserts into or deletes from a non-empty document is
  refused, although it is correct (`Hunks.GitHunksAccepted`, `Hunks.AppendWithoutContextRefused`).
- kernel/patch_plan.go:226-268: a Rename onto an object that the same patch added is accepted, the added object vanishes
  and its alias names the other one (`EntryPlan.AddedStands`, `RenameOntoAdded.RenameReplacesAdded`).
- kernel/patch_plan.go:352-371: the order in which the rename map is walked shows where one rename leads to the source of
  another (`ReferencePlan.OrderIrrelevant`, `ChainedRename.MemberDependsOnOrder`).
- kernel/patch_plan.go:711-739, kernel/compiler_schema.go:244-267: an index on a Definition that took the name of a
  renamed one is planned and then read back as another one (`IndexRoundTrip.RoundTrip`,
  `IndexOnReusedName.ReusedNameMisleads`).
- kernel/compiler_data.go:255-284: a relationship type renamed to the old name of a Definition handled later is renamed
  twice (`RenameFates.EdgeRenamesExact`, `ChainExamples.TypeMovesTwice`); so are labels (`ChainExamples.LabelMovesTwice`)
  and Properties of overlapping Definitions (`OverlapExamples.LeakMovesTwice`). `NodeOverlaps.NodeRenamesExact` says when
  over all nodes with admitted labels, `SafeOverlaps.SafeNodesExact` when over all admitted data.
- kernel/compiler_data.go:76-84: the safety check skips a rename whose new name is itself renamed away, as in a swap or a
  chain. A Property that an overlapping Definition keeps is then lost (`RenameGaps.ProtectionExact`,
  `OverlapExamples.SwapLosesKept`).
- kernel/patch_knowledge_plan.go:120-139: derived renames on planned values go name by name, so along an ascending chain
  a value moves on (`DerivedRenames.OrderExact`, `DerivedRenames.AscendingFails`).
- kernel/patch_knowledge_plan.go:46-75: they also go Definition by Definition, so where two Definitions of a node give one
  old name two new ones, the planned node gets the first only, the stored node both (`DerivedNodes.PlannedNodesExact`,
  `SplitRename.PlannedLosesSecondName`).
- kernel/evolution_merge_conflict_helpers.go:618-665: an empty label list is shown as null, which the way back refuses
  (`AggregateLens.LabelNativeSurvives`).
- kernel/compiler_schema.go:66-78: a type whose members say NOT NULL themselves does not come back when the property is
  not required (`PropertyRule.PropertyComesBack`); normalization admits none (`PropertyRule.PrintNormalized`).
- mcpserver/view_doc.go:47-49: a document section that begins in the trimmed blanks is given a negative length
  (`Views.RowsSelect`, `Views.BlankSection`); no section that writes a heading can (`Views.HeadedSectionSelected`).
- mcpserver/oauth_flow.go:269-341: a code or refresh token that is presented is spent even when the pair is refused for
  lack of room or randomness (`OAuthBroker.Broker.RedeemCode`).
- daemon/web_sessions.go:248-266: logging out leaves the session's digests in the order list
  (`WebSessions.WebSessionStore.Logout`).

## Model

| member | source | states |
|---|---|---|
| `History.EvolutionHistory` | internal/kernel/evolution_history.go:8-191 | for any limit, any cursor (made-up ones too) and any request that passes the syntax checks, the page is the next `limit` entries of the flat history, its cursor stands for exactly the remainder, and every refusal has its own code |
| `History.WalkListsHistory` | internal/kernel/evolution_history.go:73-190 | following cursors to the end, with any limits and however branch names move meanwhile, concatenates to the flat history of the first root; an unfinished walk is a prefix of it; every page with a cursor is exactly full |
| `History.RequireHistoryAnchor` | internal/kernel/evolution_history.go:197-222 | the paged search accepts exactly the root and the commits of its log, and tells an unknown root from an anchor outside the ancestry |
| `HistoryScopes.FirstPageOpens` | internal/kernel/evolution_history.go:8-72 | a first page is opened exactly for a limit up to 1000, a scope that fits its filter, a named root that resolves and an anchor among its ancestors that has the object |
| `HistoryScopes.NextPageOpens` | internal/kernel/evolution_history.go:8-72 | a cursor that a page carries opens the next page of the same request, under any allowed limit |
| `HistoryScopes.PageHolds` | internal/kernel/evolution_state.go:384-392 | a page that is not the last holds exactly as many entries as were asked for, a hundred if none were named |
| `HistoryScopes.StatesNamed` | internal/kernel/evolution_state.go:394-437 | a State is named by a commit of 64 hexadecimal digits, a branch or a tag |
| `HistoryScopes.OneScopeEach` | internal/kernel/evolution_diff.go:594-625 | every change is listed under exactly one of "ontology" and "knowledge", by its kind, and under "all" |
| `HistoryScopes.CommitScopes` | internal/kernel/evolution_diff.go:594-625 | a commit lists under "all" every change against its first parent in the order of keys, under "ontology" and "knowledge" those of their kinds in the same order |
| `HistoryScopes.ScopedHistory` | internal/kernel/evolution_history.go:73-190 | the flat histories of "ontology" and "knowledge" hold exactly the changes of "all" of their kinds, commit by commit, and end where it ends |
| `HistoryScopes.CommitOfObject` | internal/kernel/evolution_diff.go:594-625 | under "object" a commit lists exactly the changes that carry the anchor as one of their identities, in the order of keys |
| `ChangeOrder.KeyInjective` | internal/kernel/evolution_state.go:483-496 | two changes with one sorting key are one change to a caller |
| `ChangeOrder.CanonicalUnique` | internal/kernel/evolution_history.go:134-135 | whatever the unstable sort leaves to chance, the changes of a commit are listed in one way only |
| `Sorting.OrderedUnique` | internal/kernel/evolution_history.go:135-135 | any two ordered permutations of a list whose key determines the element are equal |
| `Compiler.SyncInternalGraph` | internal/kernel/compiler_internal.go:10-164 | a graph that decodes to the base becomes one that decodes to the plan; every continued object and Property keeps its node, every unchanged membership its edge, and all other elements are new |
| `Compiler.CompileAndDecode` | internal/kernel/compiler_internal.go:10-204 | writing a plan and decoding the graph gives the planned objects back, metadata and members included; identities survive as above |
| `Compiler.SyncDomainMembership` | internal/kernel/compiler_internal.go:169-204 | afterwards each wanted member has exactly one edge, kept edges are the old ones, no other edge of the graph changes |
| `Compiler.SurvivorsWritten` | internal/kernel/compiler_internal.go:19-67 | after the first loop exactly the entities that continue a base entity are rewritten and retained |
| `Compiler.ValidatePlannedSnapshot` | internal/kernel/staged_validate.go:104-130 | accepts exactly the snapshot whose objects are the planned ones |
| `Decoder.BindInternalGraph` | internal/kernel/snapshot_internal.go:192-357 | accepts exactly the graphs that hold some snapshot, and returns a snapshot the graph holds; a refused graph holds none |
| `DecoderFacts.DecodingUnique` | internal/kernel/snapshot_internal.go:192-357 | schema and graph determine the snapshot, element identities included |
| `DecoderFacts.DecodableIsBound` | internal/kernel/snapshot_internal.go:192-357 | none of the decoder's checks refuses a graph that holds a snapshot |
| `Decoder.ReadEdges` | internal/kernel/snapshot_internal.go:203-234 | accepts exactly the edges whose ends have the required categories, whatever order they are read in |
| `Decoder.ReadNodes` | internal/kernel/snapshot_internal.go:235-287 | accepts exactly when locators differ and every Property has one owner |
| `GitPatch.PrintedPatchParses` | internal/kernel/patch_parser.go:42-239 | every well-formed entry list printed as a Git patch is parsed back to itself, for any quoting of paths that unquotes |
| `GitPatch.AcceptedIsWellFormed` | internal/kernel/patch_parser.go:42-173 | whatever the parser accepts is well-formed, so it can be printed and parsed again |
| `GitPatch.ParseGitPatch` | internal/kernel/patch_parser.go:42-173 | the line loop reads what the recursive reading reads (for which the two rows above are proved), with its failure codes |
| `GitPatch.AcceptedHunksApply` | internal/kernel/patch_parser.go:175-239 | the hunks of a parsed patch satisfy what applying and undoing them asks for |
| `GitForms.GitTextParses` | internal/kernel/patch_parser.go:42-239 | the same text as Git writes it, with mode, index and similarity lines, short ranges and hunk contexts, is read back to the same entries |
| `GitForms.EntryRefused` | internal/kernel/patch_parser.go:63-150 | any other header line refuses the patch: lines for copies, binary data and mode changes as unsupported, the rest as parse errors |
| `GitForms.OutsideIsNotIn` | internal/kernel/patch_parser.go:63-150 | no line is both unsupported and read |
| `PatchHunks.ParsePatchHunk` | internal/kernel/patch_parser.go:175-239 | reads one hunk off the front as specified and says where the next line is |
| `Hunks.ApplyExactHunks` | internal/kernel/patch_parser.go:241-293 | accepts exactly when the hunks relate the base to some document, and then returns that document; otherwise PatchBaseMismatch |
| `Hunks.RelatesFunction` | internal/kernel/patch_parser.go:241-293 | hunks relate a base to at most one document |
| `Hunks.UndoRestores` | internal/kernel/patch_parser.go:241-303 | for every accepted hunk list the swapped list is accepted by the result and restores the base with its last line ended |
| `Hunks.GitHunksAccepted` | internal/kernel/patch_parser.go:241-293 | hunks numbered as Git numbers them are accepted exactly when no empty range stands inside a document, and then give the edited document |
| `Hunks.AppendWithoutContextRefused` | internal/kernel/patch_parser.go:250-262 | the failing family by example: a correct diff without context lines is refused |
| `RenameFacts.AssignmentsMeet` | internal/kernel/compiler_data.go:340-369 | the assignments of the SET clause, each reading the values taken before, meet one result in any order |
| `RenameFacts.SimultaneousUnique` | internal/kernel/compiler_data.go:340-369 | a simultaneous renaming determines the properties |
| `RenameFacts.SnapshotThenRemove` | internal/kernel/compiler_data.go:295-369 | maintenance followed by removal of the sources is one simultaneous renaming, swaps and chains included |
| `RenameFacts.NothingLost` | internal/kernel/compiler_data.go:78-94 | with the new names free every value survives under exactly one name, and no name is invented |
| `RenameFacts.OccupiedTargetLoses` | internal/kernel/compiler_data.go:78-94 | with a new name occupied a value is lost: the check on targets is needed |
| `RenameMaintenance.MaintainKnowledge` | internal/kernel/compiler_data.go:255-422 | the three phases of statements leave every node and relationship as its fate under the plan's changes; none appears or disappears, although relationships are replaced |
| `PlannedLabels.OldNameKept` | internal/kernel/compiler_data.go:397-422 | a node under a renamed Definition ends with the new name, and with the old one exactly when the planned Definition lists it among its labels, where Definitions of shared nodes are safely apart |
| `PlannedLabels.OldNameKeptAlone` | internal/kernel/compiler_data.go:397-422 | the same for a node under no other changed Definition, whatever else the plan does |
| `PlannedLabels.PersonStays` | internal/kernel/compiler_data.go:397-422 | a concrete node {Person} under a Person that becomes Human ends as {Person, Human} or {Human}, as the labels say |
| `PlannedLabels.HumanPlanned` | internal/kernel/compiler_data.go:397-422 | those two plans are valid, their changes are these, and the node passes the check |
| `PlannedLabels.NothingUnderGoneNames` | internal/kernel/compiler_data.go:12-60 | checked data has no element of a deleted Definition and none under the new name of a renamed one |
| `PlannedLabels.NothingUnderGoneProperties` | internal/kernel/compiler_data.go:60-111 | checked data has no value of a deleted Property and none under the new name of a renamed one |
| `RenameGaps.ChangesUnique` | internal/kernel/compiler_data.go:286-338 | the plan determines the changes those phases walk |
| `RenameSafety.ValidateStagedDataSafety` | internal/kernel/compiler_data.go:12-169 | passes exactly on the data and plans for which each of its conditions holds, in any map order; otherwise ObjectConflict |
| `RenameSafety.NoEdgeValueLost` | internal/kernel/compiler_data.go:12-111 | after a passed check a relationship keeps every value, each under its new name, unless its new type is the old name of a Definition handled later |
| `RenameSafety.OtherEdgesStay` | internal/kernel/compiler_data.go:255-422 | relationships of no renamed or edited type are untouched |
| `RenameSafety.NoNodeValueLost` | internal/kernel/compiler_data.go:12-111 | the same for nodes under one changed Definition, labels included |
| `RenameFates.EdgeRenamesExact` | internal/kernel/compiler_data.go:255-328 | all relationships that pass the check end as renamed exactly when no Definition that can hold data is renamed to the old name of one handled later |
| `NodeOverlaps.NodeRenamesExact` | internal/kernel/compiler_data.go:255-328 | over all nodes that pass the check of labels, under any number of Definitions: they end as all the renames say exactly when no label is chained into a later Definition and no two Definitions that can share a node interfere (a new name that the later one renames, a result the earlier one removes, one new name for two old ones) |
| `RenameGaps.SharedNodesReachGoal` | internal/kernel/compiler_data.go:12-111 | after a passed check, and where no two Definitions interfere, every node of the data ends so |
| `SafeOverlaps.SafeNodesExact` | internal/kernel/compiler_data.go:12-169 | over all nodes of all data the whole check admits: they end as all the renames say exactly when no label is chained, no name that two Definitions admit on a shared node (neither deletes it, takes it, or renames it away from the other that keeps it) is disturbed between them, and a value handed on from one to the other ends in removed names |
| `HarmlessOverlap.HarmlessReaches` | internal/kernel/compiler_data.go:78-106 | a plan whose Definitions interfere, but on no node the check admits: all admitted nodes end as they should |
| `RenameFates.OtherNode` | internal/kernel/compiler_data.go:255-422 | nodes under no changed Definition stay as they are |
| `RenameGaps.ProtectionExact` | internal/kernel/compiler_data.go:70-106 | a passed check protects a Property that an overlapping Definition keeps exactly when its new name is not itself renamed away, or one of the two Definitions is renamed over |
| `RenameGaps.UnprotectedIsLost` | internal/kernel/compiler_data.go:76-84 | otherwise the check admits a node that holds the Property under both, and the Property is gone afterwards |
| `OverlapExamples.SwapLosesKept` | internal/kernel/compiler_data.go:76-84 | a concrete plan and data for that: A swaps x and y, B keeps x, a node under both loses x |
| `OverlapExamples.LeakMovesTwice` | internal/kernel/compiler_data.go:255-284 | a concrete plan and data that the check admits: A renames x to y, B renames y to z, and the value of x ends under z |
| `OverlapExamples.BothPlansValid` | internal/kernel/patch_plan.go:55-112 | both plans have everything the planner promises |
| `ChainExamples.TypeMovesTwice` | internal/kernel/compiler_data.go:255-284 | a valid plan, A to B and B to C, and admitted data: a relationship of type A ends as one of type C |
| `ChainExamples.LabelMovesTwice` | internal/kernel/compiler_data.go:255-284 | the same for the label of a node |
| `DerivedRenames.OrderExact` | internal/kernel/patch_knowledge_plan.go:111-141 | renaming one name after the other equals renaming at once, for all values, exactly when each name is given up before it is taken |
| `DerivedRenames.ApplyDerivedPropertyRenames` | internal/kernel/patch_knowledge_plan.go:111-141 | on a planned value the renames are simultaneous where new names sort before old ones along every chain (so for disjoint ones) and none is occupied |
| `DerivedRenames.AscendingFails` | internal/kernel/patch_knowledge_plan.go:120-139 | for other renames some value comes out wrong |
| `DerivedRenames.DisjointIsDescending` | internal/kernel/patch_knowledge_plan.go:120-139 | renames whose old and new names are disjoint are among those that come out right |
| `DerivedRenames.MergeDerivedRelationship` | internal/kernel/patch_knowledge_plan.go:76-106 | a planned relationship ends as the stored one does |
| `DerivedNodes.MergeDerivedNode` | internal/kernel/patch_knowledge_plan.go:46-75 | the loop over all Definitions is the composition of its rounds, and where the condition of the next row holds a planned node ends as all its renames say |
| `DerivedNodes.PlannedNodesExact` | internal/kernel/patch_knowledge_plan.go:46-141 | every planned node with nothing under a name that is only given ends as all its renames say exactly when labels are not chained, no renames ascend, and Definitions that can share a node agree: one new name for a shared old one, no new name of the earlier an old name of the later, no two old names for one new one (but for names under which no value can stand) |
| `SplitRename.PlannedLosesSecondName` | internal/kernel/patch_knowledge_plan.go:46-75 | a valid plan and admitted data: A renames x to y, B renames x to w; the stored node has the value under y and w, the planned one under y alone |
| `DerivedNodes.PlannedAsStored` | internal/kernel/patch_knowledge_plan.go:46-75 | where that condition and the one for stored nodes hold, a planned node has exactly the fate of the stored one |
| `EntryPlan.ApplyEntries` | internal/kernel/patch_plan.go:146-299 | accepted exactly when no entry is refused; then objects, aliases, transitions and index changes are what the entries say: each edit and each addition is the parsed result of its own hunks |
| `EntryPlan.AccountedUnique` | internal/kernel/patch_plan.go:146-272 | the entries determine objects, aliases and transitions: nothing may be left out, swapped or added |
| `EntryPlan.EachBaseObjectOnce` | internal/kernel/patch_plan.go:55-272 | every base object is deleted by an entry or is the base of exactly one planned object, stored at its transition target or its own Ref |
| `EntryPlan.AddedStands` | internal/kernel/patch_plan.go:160-268 | what an Add creates stands in the plan under its alias exactly when no later entry renames an object onto its Ref |
| `RenameOntoAdded.RenameReplacesAdded` | internal/kernel/patch_plan.go:186-268 | a two-entry patch that is accepted and loses the object it added |
| `RenameOntoAdded.AddThenRenameAccepted` | internal/kernel/patch_plan.go:186-268 | every Add followed by a Rename onto its Ref is accepted |
| `ReferencePlan.OrderIrrelevant` | internal/kernel/patch_plan.go:352-371 | the order in which the rename map is walked does not matter exactly when no rename leads to the source of another |
| `ChainedRename.MemberDependsOnOrder` | internal/kernel/patch_plan.go:352-371 | an accepted two-entry patch, b to c and a to b: walked in one order the member a of a Domain becomes b, in the other c |
| `ChainedRename.TwoRenamesAccepted` | internal/kernel/patch_plan.go:226-268 | a Rename onto the Ref that an earlier Rename gave up is accepted |
| `ReferencePlan.RenameMembers` | internal/kernel/patch_plan.go:339-371 | without chains every member is renamed once, and an explicit edit that drops a renamed member is refused exactly then |
| `ReferencePlan.ApplyEndpointTransitions` | internal/kernel/patch_plan.go:524-570 | without chains the endpoint is renamed once, refused exactly when an explicit edit points a renamed endpoint elsewhere |
| `PatchPlan.ResolveProperties` | internal/kernel/patch_plan.go:378-411 | accepted exactly when every rename request names another Property, one of the base, and no base Property is asked for twice; then which base Property each continues, with requests consumed and recorded |
| `PatchPlan.ResolveDerivedReferences` | internal/kernel/patch_plan.go:301-513 | every object has its members, endpoints and Properties resolved, in any order; without chains it succeeds exactly when every reference resolves, no explicit edit drops or redirects a renamed one, and the Properties can be resolved |
| `PatchPlan.ValidateReferences` | internal/kernel/patch_plan.go:741-772 | accepts exactly the plans whose references all name planned objects of the right kind |
| `PatchPlan.GoneSourcesAreClean` | internal/kernel/patch_plan.go:301-570 | when no rename source is a planned Ref there are no chains, so references are substituted exactly once |
| `PatchPlan.PlanOntologyEntries` | internal/kernel/patch_plan.go:55-112 | a successful plan is what its entries say, with references resolved, indexes rebuilt and validated, and it is a plan the compiler accepts; where renames are clean it succeeds exactly when no entry is refused, every object resolves, every index settles, nothing is listed twice and all references are planned |
| `PlanMeaning.LeftAloneStays` | internal/kernel/patch_plan.go:55-112 | an object no entry names stands at its Ref with its fields and Properties |
| `PlanMeaning.UpdateStands` | internal/kernel/patch_plan.go:180-272 | an updated object stands at its Ref with the fields and Properties of its new body |
| `PlanMeaning.RenameStands` | internal/kernel/patch_plan.go:180-272 | a renamed object stands at its new Ref with the fields and Properties of its body |
| `PlanMeaning.RenameChangesOnlyTheName` | internal/kernel/patch_plan.go:217-272 | a pure Rename changes nothing but the name |
| `PlanMeaning.PropertyContinues` | internal/kernel/patch_plan.go:376-411 | a Property of an object that continues a Definition continues what it says it is renamed from, otherwise the one of its own name, otherwise none |
| `PlanMeaning.ReferenceResolves` | internal/kernel/patch_plan.go:301-350 | a reference resolves exactly when it names an object of the base, the target of a Rename or what an Add creates |
| `PlanMeaning.RenamedMemberCarried` | internal/kernel/patch_plan.go:320-374 | a member that the patch renames stays a member under its new name, whatever else the patch does to the Domain |
| `PlanMeaning.RenamedEndpointCarried` | internal/kernel/patch_plan.go:426-570 | an endpoint that the patch renames stays the endpoint under its new name |
| `PlanMeaning.ChangedIndexSettles` | internal/kernel/patch_plan.go:274-299 | an index that any entry adds or changes has that entry's kind, targets and Properties, as renamed, wherever one of its Definitions is left |
| `PlanMeaning.OneEntrySettles` | internal/kernel/patch_plan.go:274-299 | after a patch of one entry the settled index is the new declaration to the letter |
| `PlanMeaning.ChangedIndexHides` | internal/kernel/patch_plan.go:572-709 | hidden options survive exactly in an index that an entry only restates |
| `PlanMeaning.RemovedIndexGoes` | internal/kernel/patch_plan.go:274-299 | an index that an entry no longer declares is not settled |
| `PlanMeaning.UnaskedIndexStays` | internal/kernel/patch_plan.go:572-709 | an index that every entry leaves as it was is the moved index of the base, as long as one of its Definitions is left |
| `Pipeline.ApplyOntologyPatch` | internal/kernel/patch_execute.go:37-227 | for the patch read from the text: it succeeds when there is a plan, the decoded objects are the planned ones, the plan is what those entries say, identities survive; on failure the graph is unchanged |
| `PatchTransaction.PatchOntology` | internal/kernel/patch_execute.go:37-227 | one transaction: it succeeds exactly when there is a plan and that changes nothing, or the planned Definitions agree on indexes, each index fits, constraints are maintained, the data is safe and the catalogue takes the target; then the graph decodes to the plan, every node and relationship met its fate, the catalogue holds the target, all in one State; on failure of any step the State is unchanged |
| `PatchTransaction.EverythingKept` | internal/kernel/patch_execute.go:37-227 | of such a State: what is decoded is the plan, every node is as all the renames say, no relationship has lost a value, and the catalogue has the names the plan settled, where Definitions of shared nodes are safely apart, types are not chained and no renamed name is reused |
| `PatchIdentities.UntouchedKeepsElements` | internal/kernel/patch_execute.go:37-227 | after a committed patch an object no entry names is the same element, and so is each of its Properties |
| `PatchIdentities.UpdatedKeepsElements` | internal/kernel/patch_execute.go:37-227 | an updated object is the same element, and each Property of its new body is the element of the Property it continues, or a new one |
| `PatchIdentities.RenamedKeepsElements` | internal/kernel/patch_execute.go:37-227 | and so for a renamed object under its new Ref |
| `PatchTransaction.ValidateTargetIndexes` | internal/kernel/patch_execute.go:345-377 | accepts exactly the indexes over planned Definitions of one kind with the Properties and arities their kind asks for |
| `IndexReading.CollectIndexes` | internal/kernel/patch_plan.go:863-895 | gathering indexes succeeds exactly when all declarations of a name agree, and then gives one index for each, in any order |
| `IndexPlan.MoveIndex` | internal/kernel/patch_plan.go:579-606 | an index follows renames of its Definitions and Properties as the walk in some order does |
| `IndexPlan.IndexRenamedOnce` | internal/kernel/patch_plan.go:592-604 | that order does not matter and each property is renamed once, where renames do not meet each other |
| `IndexPlan.ApplyDeltas` | internal/kernel/patch_plan.go:608-643 | each index is decided by its own changes; contradicting changes are refused |
| `IndexPlan.KeepSurviving` | internal/kernel/patch_plan.go:645-672 | an index whose Definitions are all gone is dropped, one that has lost some or lacks a property is refused |
| `IndexRoundTrip.RebuildIndexes` | internal/kernel/patch_plan.go:572-709 | succeeds exactly when the base declarations agree, the changes of each index agree and its Definitions are left as it needs them or not at all; then the planned Definitions carry exactly the settled indexes |
| `IndexRoundTrip.RoundTrip` | internal/kernel/compiler_schema.go:244-267 | indexes written into Definitions and gathered again come back exactly when no declaration is moved a second time |
| `IndexRoundTrip.ReusedPropertyMoves` | internal/kernel/compiler_schema.go:244-267 | an index on a Property that took the name of a renamed one is moved a second time |
| `IndexRoundTrip.PlanThenCollect` | internal/kernel/patch_plan.go:572-739 | rebuilding then gathering: the same for one patch, and always where the patch reuses no renamed Definition or Property name |
| `IndexRoundTrip.FreshNamesUnused` | internal/kernel/patch_plan.go:572-709 | a patch that reuses no renamed name settles no index over such a name |
| `PatchPlan.PlanIndexes` | internal/kernel/compiler_schema.go:244-267 | the same from the entries of a patch: the moves and changes are those the plan recorded |
| `IndexOnReusedName.ReusedNameMisleads` | internal/kernel/compiler_schema.go:244-267 | a planned patch whose settled index is not the one gathered from the plan |
| `IndexOnReusedName.PlannedSo` | internal/kernel/patch_plan.go:146-299 | the two entries of that patch are accepted and give exactly these objects, moves and changes |
| `IndexOnReusedName.ReusedNameMisleadsAny` | internal/kernel/patch_plan.go:572-709 | so it is for every index over several Definitions of which one took a renamed name |
| `FieldLens.NativeSurvives` | internal/kernel/evolution_merge_conflict_knowledge.go:300-377 | native to public and back returns the native object, for every field with the laws below |
| `FieldLens.PublicSurvives` | internal/kernel/evolution_merge_conflict_knowledge.go:300-377 | every accepted public value comes back: unchanged where it is a side's, in its field's canonical form otherwise |
| `FieldLens.OtherFieldsOfSides` | internal/kernel/evolution_merge_conflict_helpers.go:193-211 | the way back changes no other field |
| `FieldForms.StructuralLawful` | internal/kernel/evolution_merge_conflict_knowledge.go:300-377 | a Relationship's type, start and end obey the laws |
| `FieldForms.EndpointLawful` | internal/kernel/evolution_merge_conflict_schema.go:140-250 | so do a Definition's endpoints, null included |
| `FieldForms.LabelsLawful` | internal/kernel/evolution_merge_conflict_schema.go:129-219 | so do its labels: sorted once, then fixed |
| `AggregateLens.PropertyNativeSurvives` | internal/kernel/evolution_merge_conflict_helpers.go:557-616 | a Property's native value comes back in canonical form, an absent one as null |
| `AggregateLens.PropertyPublicSurvives` | internal/kernel/evolution_merge_conflict_helpers.go:557-616 | every accepted public object comes back with canonical values |
| `AggregateLens.CommonIsCanonical` | internal/kernel/evolution_merge_conflict_helpers.go:565-582 | what two sides have in common meets what the two rows above ask of it |
| `AggregateLens.LabelNativeSurvives` | internal/kernel/evolution_merge_conflict_helpers.go:618-665 | a label's presence comes back exactly when the public list is not empty (an empty one is written null, which the way back refuses) |
| `AggregateLens.LabelPublicSurvives` | internal/kernel/evolution_merge_conflict_helpers.go:618-692 | every accepted public list that is not empty comes back, sorted; an accepted empty one comes back as null |
| `AggregateLens.TogglePublicStringSet` | internal/kernel/evolution_merge_conflict_helpers.go:523-546 | the list without duplicates, in order, with the member added or removed and no other changed; refused exactly where the base is not a list of strings |
| `AggregateLens.IncludesThereAndBack` | internal/kernel/evolution_merge_conflict_internal.go:170-199 | presence of a member survives the way there and back |
| `PropertyRule.PropertyComesBack` | internal/kernel/compiler_schema.go:66-93 | a printed property is parsed to its name, type and flag, for every name, exactly when the property is required or no member of its type says NOT NULL itself |
| `PropertyRule.PrintNormalized` | internal/kernel/model.go:420-447 | so every property that normalization accepts comes back |
| `PropertyRule.NormalizePropertyNullability` | internal/kernel/model.go:420-447 | accepted exactly when all members or none say NOT NULL; then the outer NOT NULLs have become the flag |
| `PropertyRule.ParseGraphPropertySpec` | internal/kernel/snapshot.go:327-436 | the scanning loops read what the recursive reading reads |
| `TypeText.UnionMembers` | internal/kernel/snapshot.go:395-428 | members with balanced brackets, trimmed and without a bar outside brackets, joined by bars, are split into those members |
| `PropertyNormalizer.NormalizeProperty` | internal/kernel/property_value.go:51-342 | succeeds exactly on what stands for a value, and returns that value's canonical form and family |
| `PropertyValues.NormalTwice` | internal/kernel/property_value.go:51-92 | normalizing a canonical value returns the same value and family |
| `PropertyValues.PointForms` | internal/kernel/property_value.go:248-304 | a point is accepted exactly with two finite coordinates under wgs-84 and cartesian or three under their 3D forms, in any letter case, and on the globe with a latitude between the poles |
| `PropertyValues.TextForms` | internal/kernel/property_value.go:232-246 | dates, times and durations are kept as they are written and are never empty |
| `PropertyValues.UuidForms` | internal/kernel/property_value.go:329-342 | a UUID is accepted in any letter case with its hyphens in place and kept in lower case |
| `PropertyValues.NumberForms` | internal/kernel/property_value.go:94-109 | a number with a point or an exponent is read as a float, any other as an integer |
| `PropertyValues.SameFormSameValue` | internal/kernel/property_value.go:51-231 | two values have one canonical form exactly when they stand for the same |
| `PropertyValues.CodecExists` | internal/kernel/property_value.go:122-139 | the laws asked of the float codec can be met |
| `PropertyValues.IntegerForms` | internal/kernel/property_value.go:94-120 | every 64-bit integer has one form on both sides of the tagging boundary |
| `PropertyValues.LongitudeWraps` | internal/kernel/property_value.go:306-311 | a longitude lands in [-180, 180], congruent modulo 360, and is then fixed |
| `PropertyValues.LongitudeUnique` | internal/kernel/property_value.go:306-311 | no other longitude in range is congruent, but for the two ends |
| `PropertyNormalizer.NormalizerSettles` | internal/kernel/property_value.go:35-92 | the normalizer has what the merge mappers ask of theirs |
| `SchemaMigration.SchemaTransaction.Migrate` | internal/kernel/patch_execute.go:243-343 | the four steps succeed exactly when the target names are disjoint and have statements, and then reach exactly the target; every DROP finds its resource, every CREATE a free name |
| `SchemaMigration.MigrationNeeds` | internal/kernel/compiler_schema.go:205-238 | a target has statements exactly when each constraint and each index is there already or is a rule over some Properties of Definitions of one kind that its kind allows |
| `SchemaMigration.IndexInstalled` | internal/kernel/patch_execute.go:316-343 | after the migration every target index is there as declared, with its own hidden options; a new search index without any has the daemon's |
| `SchemaMigration.ValidateConstraintIndexCoexistence` | internal/kernel/compiler_schema.go:269-332 | passes exactly when no index stands where a constraint brings its own, and names are disjoint |
| `SchemaMigration.ApplySchema` | internal/kernel/patch_execute.go:146-188 | what the validation lets through is migrated; what it refuses changes nothing |
| `Sandbox.Run` | internal/mcpsandbox/engine.go:314-434 | under any interleaving of guest, main loop and workers: in-flight calls are the running and the buffered ones and at most 16, so no sender blocks; budgets hold; no id is delivered twice |
| `Sandbox.PendingIsPartitioned` | internal/mcpsandbox/bootstrap.go:11-22 | the guest's pending ids are queued, drained, running or buffered, each in exactly one place |
| `Sandbox.Engine.Dispatch` | internal/mcpsandbox/engine.go:353-382 | one round over the batch: started, or stopped by the call budget, or by the concurrency limit, in that order |
| `OAuthBook.TracesToApproval` | internal/mcpserver/oauth_flow.go:200-341 | every pair goes back through rotations to one approval with the same client and resource, whose redirect and S256 challenge were matched |
| `OAuthBook.OnePairEach` | internal/mcpserver/oauth_flow.go:269-341 | a code and a refresh token yield at most one pair |
| `OAuthBook.OneCodePerTicket` | internal/mcpserver/oauth_flow.go:164-243 | a ticket is decided once and yields at most one code |
| `OAuthBroker.Serve` | internal/mcpserver/oauth.go:131-174 | any run of requests keeps the book sound, so the three rows above hold, and tickets, codes and tokens stay within their limits |
| `OAuthBroker.Broker.BeginAuthorization` | internal/mcpserver/oauth_flow.go:68-123 | a ticket for exactly what was asked, once redirects match; refused for lack of room only when full |
| `OAuthBroker.Broker.FinishAuthorization` | internal/mcpserver/oauth_flow.go:164-243 | only a live ticket is decided; approving hands out a code for what the ticket asked |
| `OAuthBroker.Broker.IssueToken` | internal/mcpserver/oauth_flow.go:269-341 | a pair is granted exactly for a live code that is matched or a live refresh token of the same client, with room and randomness; the pair carries what was approved, a refusal issues nothing and has its own fault |
| `OAuthBroker.Broker.Principal` | internal/mcpserver/oauth.go:160-174 | accepted exactly the access tokens issued less than an hour ago |
| `WebSessions.WebSessionStore.Allows` | internal/daemon/web_sessions.go:268-284 | true exactly for one of the last 512 tokens minted whose session was not logged out and was opened or restored less than 30 days ago |
| `WebSessions.AllowsExactly` | internal/daemon/web_sessions.go:268-284 | the table lookup decides exactly that, stale digests included |
| `WebSessions.WebSessionStore.Login` | internal/daemon/web_sessions.go:184-208 | opens one new session for 30 days and mints one token, exactly when there is room, randomness and the file is written; no other session ends or changes its end; a refusal mints nothing |
| `WebSessions.WebSessionStore.Restore` | internal/daemon/web_sessions.go:226-246 | renews exactly the live session its cookie names and mints one token; every other session keeps its end |
| `WebSessions.WebSessionStore.Logout` | internal/daemon/web_sessions.go:248-266 | ends that session for good and no other; a cookie never handed out ends nothing; digests stay in the order list |
| `WebSessions.Serve` | internal/daemon/web_sessions.go:84-284 | any run keeps sessions within 64 and tokens within 512 |
| `Preview.Collect` | internal/mcpserver/preview.go:163-210 | for any membership graph, cycles included, the work list ends with all Domains, all Definitions and each Domain's full member list, or stops exactly when a budget is exceeded |
| `Preview.Paginate` | internal/mcpserver/preview.go:113-149 | the whole listing, exactly when it is within the budget |
| `Reader.ReadOntology` | internal/kernel/read.go:382-449 | each page is the requested slice of the one listing of its scope, and refusals are exactly those of unknown Domains and of foreign cursors |
| `Listings.ListingUnique` | internal/kernel/read.go:468-515 | the listing does not depend on the order maps are walked in |
| `Listings.ListingShows` | internal/kernel/read.go:382-507 | a listing shows, under their own titles and descriptions, exactly the members of a Domain, or every Domain and the Definitions that are no member |
| `Views.ViewDoc.Finish` | internal/mcpserver/view_doc.go:58-81 | accepts exactly closed documents whose rows are not in the trimmed tail and that fit; returns them with the rows filled in |
| `Views.RowsSelect` | internal/mcpserver/view_doc.go:45-81 | a row selects exactly what its section wrote, less the trimmed blanks, exactly when the section did not begin in those |
| `Views.HeadedSectionSelected` | internal/mcpserver/view_doc.go:28-81 | a section that wrote a line that is not blank is selected |
| `Views.BlankSection` | internal/mcpserver/view_doc.go:47-49 | a document that is accepted and shows the length -1 for such a section |
| `Views.RowLocates` | internal/mcpserver/view_doc.go:45-57 | offset and length are read back from the row alone |
| `Views.NoElementBreaks` | internal/mcpserver/view_doc.go:54-81 | index rows are one line each, whatever text they carry |
| `Cells.NavigationShown` | internal/mcpserver/markdown.go:10-13 | escaped text is displayed as the text it was |
| `Cells.NavigationIsCell` | internal/mcpserver/markdown.go:10-13 | and is one table cell on one line without markup of its own |
| `Fences.FenceReads` | internal/mcpserver/markdown.go:15-39 | whatever is fenced, the block read by section 4.5 of the CommonMark Spec is the body, and what follows stays outside |
| `Fences.BodyIsContent` | internal/mcpserver/markdown.go:15-39 | the body is the content line by line |
| `Fences.AppendFence` | internal/mcpserver/markdown.go:15-39 | the in-order scan appends the block the two rows above speak of |

## Left out

- History.EvolutionHistory: the base64 and JSON form of the cursor is not modelled, a cursor is its decoded value; what ParseObjectRef says of a reference is an argument.
- PatchPlan.PlanOntologyEntries: where renames are chained, when planning fails is not stated, because the order of the walk decides. Constraints are not part of a Definition here, so materializeAnonymousConstraintNames and the renames inside constraints (patch_plan.go:114-144, 412-418) are missing; so is the renaming inside index declarations (419-424), which rebuildIndexes overwrites.
- PatchPlan.ResolveDerivedReferences: where renames are chained, when it fails is not stated, because the order of the walk decides.
- Pipeline.ApplyOntologyPatch: the internal graph alone; the whole transaction is `PatchTransaction.PatchOntology`.
- PatchTransaction.PatchOntology: patches of the ontology only, so the Knowledge entries and their merge into the transaction are left out; what the Definitions ask of constraints and the verdict of validateDerivedResourceMaintenance on the plan are arguments; the Graph Type statement is left out; the branch head is taken to be the base State; steps that touch different parts of the State are not interleaved; which code a failure has is not stated.
- Compiler.SyncInternalGraph: the domainIDs and definitionIDs tables are one table; that the engine never reuses an element identity is taken from it.
- RenameMaintenance.MaintainKnowledge: a relationship's identity changes when its type does, so the result is stated up to the relationship each one stands for.
- DerivedNodes.MergeDerivedNode: labels are a set, so their sorting is not shown.
- DerivedRenames.ApplyDerivedPropertyRenames: equality of JSON texts is equality of canonical texts.
- IndexRoundTrip.RoundTrip: targets come back in order and without repetitions, as the code lists them.
- GitPatch.PrintedPatchParses: strconv.Quote and Unquote are arguments with their one law.
- FieldLens.NativeSurvives: slots whose sides are matched by equality alone (sideMatchingNativeToPublic) are left out.
- PropertyNormalizer.NormalizeProperty: floats are exact numbers with a codec, so rounding is not shown; of a temporal or spatial text only its presence is checked, as in the code.
- PropertyValues.LongitudeWraps: over exact arithmetic, in a fixed fraction of a degree.
- SchemaMigration.SchemaTransaction.Migrate: a resource has a statement or has none; the Cypher text is not built. The Graph Type change between the steps is left out.
- Sandbox.Run: deadlines and cancellation may strike at any step; that calls are ever answered is not shown. The guest's JavaScript is its queue and its pending map.
- OAuthBroker.Broker.BeginAuthorization: client metadata documents and the checks of URLs are arguments; one clock reading serves a request.
- WebSessions.WebSessionStore.Login: the session file's format is an argument, as is whether a write succeeds.
- Reader.ReadOntology: cursors are decoded values; the byte budget of a read is left out.
- Preview.Collect: one budget on items stands for all; byte and time budgets, bodies and the cache of previews are left out.
- Views.ViewDoc.Finish: sizes are counted in characters.
- Fences.AppendFence: the lines are returned, not appended through a pointer.
- Names and texts are sequences of characters; percent-encoding of references, UTF-8 validity, Unicode case folding and Unicode blanks are left out.
- YAML and JSON codecs are arguments with their laws.
- Listing, staging and resolving merge conflicts (evolution_merge.go): plumbing around the mappers.
- The diff between two States (evolution_diff.go): its result is an argument of the history.
- HTTP handlers, configuration, locks, archives, metrics, the command line and the web interface.
- The graph engine, SQLite and QuickJS.
