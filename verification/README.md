# A Dafny model of the audit agent's hard core

The repository holds an agent that audits smart contracts: it plans, asks models, asks an operator, writes proofs of
concept and measures how good they are. This project models the parts of it whose correctness rests on loops, on state
that is changed in place, on line arithmetic or on whole runs of a protocol, and proves what those parts promise.

`dafny verify dfyconfig.toml` checks everything. One module per component:

| file | module | component |
|---|---|---|
| `wrappers.dfy`, `sorting.dfy`, `segments.dfy`, `selection.dfy` | `Wrappers`, `Sorting`, `Segments`, `Selection` | optional values, lists without repetition, stable sorting by a string key, the parts of a string, what it is to pick elements out of a list |
| `text.dfy` | `Text` | stripping, splitting and printing, as Python does them |
| `illustrative_diff.dfy` | `IllustrativeDiff` | the parser of illustrative diffs, and its inverse |
| `unified_diff.dfy` | `UnifiedDiff` | an independent reader and a strict applier of unified diffs (POSIX `diff`, "Diff -u or -U Output Format") |
| `patch_reconstruct.dfy`, `patch_applies.dfy` | `PatchReconstruct`, `PatchApplies` | reconstruction of a real diff, and what applying it does |
| `patch_headers.dfy`, `patch_refusals.dfy`, `patch_meaning.dfy` | `PatchHeaders`, `PatchRefusals`, `PatchMeaning` | which blocks are real diffs already; which have no patch, and why; lines, markers and trailing context in terms of the text |
| `reachability.dfy` | `Reachability` | paths and reachability, shared by the graph modules |
| `sig.dfy`, `sig_meaning.dfy` | `Sig`, `SigMeaning` | the state interference graph, and what it is in terms of nodes and edges |
| `code_graph.dfy` | `CodeGraphs` | adjacency tables and shortest chains of the code map |
| `solidity_index.dfy`, `symbol_lookup.dfy` | `SolidityIndex`, `SymbolLookup` | inheritance queries, symbol lookup, the two lookup protocols |
| `source_lines.dfy`, `import_pattern.dfy` | `SourceLines`, `ImportPattern` | the lines of a source and the imports it holds, on one line or broken anywhere; the pattern that finds them |
| `undeclared_fixer.dfy` | `UndeclaredFixer` | the rewriter that imports undeclared names |
| `qualifying.dfy`, `nested_fixer.dfy`, `nested_lists.dfy` | `Qualifying`, `NestedFixer`, `NestedLists` | the rewriter that imports the containers of nested types and qualifies their uses |
| `fixer_meaning.dfy` | `FixerMeaning` | what the rewriters keep, drop, add and rewrite, place by place |
| `stage2.dfy`, `stage3.dfy`, `stage3_meaning.dfy` | `Stage2`, `Stage3`, `Stage3Meaning` | the resumable relay stage; severity correction, linking and elevation |
| `episodic.dfy`, `tampering.dfy` | `Episodic`, `Tampering` | the signed append-only memory, and what becomes of it when its files are changed |
| `confirmation.dfy`, `orchestrator.dfy`, `protocol_meaning.dfy` | `Confirmation`, `Orchestrator`, `ProtocolMeaning` | the out-of-band confirmation protocol as a state machine, and the loops that take part in it; guarantees and traces in terms of packs, replies and steps |
| `sharing.dfy` | `Sharing` | a session opened by a second process |
| `poc_loop.dfy`, `poc_story.dfy` | `PocLoop`, `PocStory` | the draft, run, repair loop, and what a run of it comes to |
| `bench.dfy`, `proof_bench.dfy`, `proof_meaning.dfy` | `Bench`, `ProofBench`, `ProofMeaning` | scoring of findings; quantiles, credible intervals, the attrition funnel |

Code that changes things step by step is a method with loop invariants (and a class where the source has an object whose
fields it updates); each such method is proved equal to a function of its inputs or of the old state, and the promises
are then lemmas about that function. The model, the sandbox, the operator, other processes and anyone who edits files
are arbitrary: functions, sequences of steps, or maps that the theorems quantify over.

## Where the code does less than it says

Each of these is stated as lemmas: exactly when the promise holds, and an input on which it does not.

- A reconstructed patch goes through, line numbers taken strictly, exactly when every section's ranges are ascending and
  disjoint and the lines they show still stand at the same line numbers, newline-terminated, in what the sections before
  it left (`PatchApplies.PatchDoesTheEdits`). If no path is named twice that is so exactly when the ranges of every
  section are ascending and disjoint and stop short of an unterminated last line (`PatchApplies.DistinctPathsDoTheEdits`).
  Hunks are neither sorted nor checked for overlap, and a path named twice is located twice in the original:
  `PatchApplies.ReversedHunksDoNotApply`, `PatchApplies.UnterminatedLineDoesNotApply`,
  `PatchApplies.RepeatedPathDoesNotApply`.
- The rule that only a human may override a record is skipped for records without a status change
  (`Episodic.OverridingWithoutHuman`, `Episodic.AnOverrideWithoutHuman`).
- A target repeated within one Stage 2 call gets one request each time (`Stage2.OneRequestPerTarget`,
  `Stage2.RepeatedInOneCall`).
- A pass does not need a compiled suite. It is that of a built, defect-free file exactly when the last attempt does not
  stay unbuilt: its first run built something, or one of its two repairs applied, was run to an end and built something
  (`PocLoop.PassIsBuilt`; with one attempt a condition on the draft, `PocLoop.SinglePassIsBuilt`). Whenever a clean exit means that something was built, every pass is real
  (`PocLoop.CleanExitsMakePassesReal`). Otherwise it may be a pass of nothing (`PocLoop.AnUnbuiltPass`) or of a file that
  is no longer there (`PocLoop.AStalePass`).
- A validator of a pack is handed the action itself, after its class is set and before the class is read. Nothing that
  the pack declares to need a human is dispatched without one exactly when no accepting validator leaves such an action
  ungated (`Confirmation.NoUnconfirmedWrite`, `Confirmation.ALoweringPack`); and what the operator approved is what is
  executed exactly when validating a filed request again leaves it as it is (`Confirmation.ApprovedIsExecuted`). Packs
  whose validators leave request and class alone meet both (`Confirmation.TamePacksConfirm`).
- A principal is kept to its own project exactly as far as project ids name different directories; `q` and `./q` do not
  (`Episodic.IsolationIffSeparated`, `Episodic.AliasedIds`).
- "Verified" as a stage and as an outcome agree only on runs without infrastructure errors whose finding was extracted
  (`ProofBench.StageAgreesWithOutcome`, `ProofBench.StageAndOutcomeCanDrift`).
- Another turn on a chat session that waits for a confirmation abandons the request; an approval that comes later has no
  effect (`Confirmation.AnotherTurnAbandons`, `Confirmation.AbandonedNeverExecutes`); a resume executes exactly when the
  session still waits and the record says approved (`Confirmation.ResumeExecutesWhenApproved`).
- Imports are inserted by lines, and imports are read across lines. An import inserted inside a list that goes on is not
  read as one, and an import that is broken elsewhere is itself lost. So the repair of undeclared names is complete, and
  a second pass changes nothing, exactly when no import is unfinished where the new ones go; or its list is open and
  names the first of them already; or it is past its keyword or its list and goes on to import no flagged name of the
  project that is not read before (`UndeclaredFixer.RepairIsComplete`, `UndeclaredFixer.FixUndeclaredTwice`,
  `UndeclaredFixer.SplitListBreaksTheRepair`, `UndeclaredFixer.BrokenImportIsLost`). The nested-type fixer looks at one
  line at a time, leaves nested types in broken imports (`NestedLists.NestedListsLeft`,
  `NestedLists.SplitListKeepsNested`) and loses imports in the same way (`NestedLists.ImportedAfterwards`,
  `NestedLists.AdditionsRead`, `NestedLists.ContainerLostInAList`).
- One approval is executed once as long as no process opens a session that another one holds while it waits for a
  confirmation (`Sharing.AloneExecutesOnce`); in every state opening a session is harmless exactly when the process holds
  it itself or it waits for nothing (`Sharing.OpeningIsHarmless`, `Sharing.ExecutedTwice`).
- The nested-type fixer also rewrites import lines: aliased imports, library imports and paths stay as they are only when
  no removed type is one of their words (`NestedLists.ImportLeftAlone`, `NestedLists.AliasIsRewritten`). It imports a
  container that is itself a nested type exactly when a removed name brings one in that no line imports
  (`NestedFixer.NestedImportsLeft`, `NestedLists.NestedContainerIsImported`).

## Model

| member | source | states |
|---|---|---|
| IllustrativeDiff.ParseIllustrative | scripts/patch_reconstruct.py:54-86 | the line loop computes the parser as a function of the block, refusing a hunk before any file header and a block without hunks |
| IllustrativeDiff.AnchorKept | scripts/patch_reconstruct.py:69-73 | the hunk marker gives an anchor back if and only if it does not end in `@` or white space |
| IllustrativeDiff.ParseUndoesPrint | scripts/patch_reconstruct.py:54-91 | printing any file/hunk/body structure with one-line texts, trimmed paths and anchors and no text that looks like a header, and parsing it, gives the structure back |
| IllustrativeDiff.ParsedIsClean | scripts/patch_reconstruct.py:54-86 | whatever block is parsed, paths, anchors and texts hold no line break |
| UnifiedDiff.ReadUndoesPrint | scripts/patch_reconstruct.py:149-152 | an independent reader of the unified format reads every printed list of files back, header numbers, counts and bodies included |
| PatchReconstruct.LocateAnchor | scripts/patch_reconstruct.py:94-104 | the index returned is the only line that equals the anchor after stripping; a refusal means no such line, or two |
| PatchReconstruct.LocatedExactly | scripts/patch_reconstruct.py:94-104 | the anchor is located if and only if exactly one line matches, and called ambiguous if and only if two do |
| PatchReconstruct.EmitBody | scripts/patch_reconstruct.py:117-134 | the body loop succeeds if and only if all context and removal lines equal the following source lines; then lines, counts and position are right |
| PatchReconstruct.EmitTrail | scripts/patch_reconstruct.py:143-148 | at most three following source lines are appended, never the empty piece after a final newline |
| PatchReconstruct.PrintAt | scripts/patch_reconstruct.py:117-152 | the hunk printed at a line is the text of the edit there: header counts equal the printed old and new lines |
| PatchReconstruct.ReconstructHunk | scripts/patch_reconstruct.py:110-152 | locating and printing together give the text and line change of the located edit, or its refusal |
| PatchReconstruct.ReconstructFile | scripts/patch_reconstruct.py:176-180 | the running delta of the hunk loop is the sum of the line changes before each hunk; the first refusal stops it |
| PatchReconstruct.PrintPatches | scripts/patch_reconstruct.py:168-181 | the file loop prints all files or refuses with the first refusal |
| PatchReconstruct.Reconstruct | scripts/patch_reconstruct.py:155-181 | a block with a real hunk header passes through, newline-terminated; any other is parsed and reconstructed |
| PatchHeaders.RealHeaderIs | scripts/patch_reconstruct.py:30 | a line is a real hunk header if and only if it is `@@ -d[,d] +d[,d] @@` and anything, the `d` being decimal digits |
| PatchHeaders.RealDiffPassesThrough | scripts/patch_reconstruct.py:161-166 | a block with such a line comes back as it is, over any files, its last line ended |
| PatchHeaders.PrintedHasHeader | scripts/patch_reconstruct.py:149-181 | every patch that is reconstructed holds a real hunk header |
| PatchHeaders.ReconstructionIsIdempotent | scripts/patch_reconstruct.py:155-181 | reconstructing a result again, over any files, gives it back |
| PatchHeaders.PrintedBlockHasHeader | scripts/patch_reconstruct.py:30 | a printed illustrative block is taken for a real diff if and only if one of its anchors makes its marker a real header |
| PatchMeaning.CharactersAre | scripts/patch_reconstruct.py:29 | exactly which characters are white space and which end a line |
| PatchMeaning.StripIs | scripts/patch_reconstruct.py:98-99 | stripping takes all white space off both ends and nothing else |
| PatchMeaning.JoinUndoesSplit | scripts/patch_reconstruct.py:173 | joining undoes splitting at newlines |
| PatchMeaning.LinesAre | scripts/patch_reconstruct.py:60 | the lines of a text are those between its line ends, `\r\n` being one |
| PatchMeaning.MarkerIs | scripts/patch_reconstruct.py:29 | the anchor of a marker is the shortest text, after at most one white space, that leaves white space and at most two `@` |
| PatchMeaning.PathIs | scripts/patch_reconstruct.py:89-91 | one `a/` or `b/` is dropped from a path |
| PatchMeaning.BodyLineIs | scripts/patch_reconstruct.py:78-83 | a body line is an addition, a removal or context by its first character, context as it stands without one |
| PatchMeaning.LineDoes | scripts/patch_reconstruct.py:60-83 | what each kind of line does to the files read so far |
| PatchMeaning.TrailIs | scripts/patch_reconstruct.py:143-148 | a hunk that ends at a change shows the next three source lines, or all that there are; any other none |
| PatchMeaning.EndsInContext | scripts/patch_reconstruct.py:135-148 | a printed hunk ends at a change only where the file ends |
| PatchApplies.StandsIffLocated | scripts/patch_reconstruct.py:110-134 | a hunk reconstructs if and only if it has exactly one matching anchor line and its old side is the source right after it |
| PatchApplies.PatchIffAllStand | scripts/patch_reconstruct.py:165-181 | a block without real headers gives a patch if and only if it parses, every file exists and every hunk stands: one failing hunk anywhere means no patch |
| PatchRefusals.ParsesIff | scripts/patch_reconstruct.py:60-86 | a block parses if and only if it has a marker and every marker comes after some header of a new file; any other is called malformed |
| PatchRefusals.OldSideIs | scripts/patch_reconstruct.py:119-131 | what must follow the anchor is the text of all lines of the body but its additions, in order |
| PatchRefusals.HunkRefusalIs | scripts/patch_reconstruct.py:94-131 | a hunk is refused as not found, ambiguous or mismatched if and only if no line is its anchor after stripping, two lines are, or one is and those lines do not follow it |
| PatchRefusals.RefusalIs | scripts/patch_reconstruct.py:168-180 | the refusal of a block is that of the first section whose file does not exist or of the first hunk that does not stand, whichever comes first |
| PatchApplies.ApplyPrinted | scripts/patch_reconstruct.py:143-152 | strict application of the hunks printed for a source to any file succeeds if and only if their ranges are ascending and disjoint and the lines they show are in the file where they are in the source, every new-side start being the true line in the result; it then gives the file with removals dropped and additions put in: trailing context changes nothing |
| PatchApplies.FileApplies | scripts/patch_reconstruct.py:173-181 | the same for all hunks of a file section as located by the code |
| PatchApplies.TextApplies | scripts/patch_reconstruct.py:173-181 | the same for texts, whose last unterminated piece no hunk may show |
| PatchApplies.OwnLinesStand | scripts/patch_reconstruct.py:143-151 | in the text they were located in the shown lines stand if and only if the ranges are ascending and disjoint and end before the unterminated piece |
| PatchApplies.EditedThen | scripts/patch_reconstruct.py:143-148 | lines past the shown ranges are untouched |
| PatchApplies.SectionsApply | scripts/patch_reconstruct.py:168-181 | the printed sections, applied one after the other to any files, make the edits of each in what the earlier ones left, or stop where a section does not stand in it |
| PatchApplies.PatchDoesTheEdits | scripts/patch_reconstruct.py:155-181 | end to end: the text printed for a block whose hunks all stand reads back, and applying the whole patch to the files is making the edits of its sections in turn; it goes through if and only if each section stands in what the earlier ones left |
| PatchApplies.DistinctPathsDoTheEdits | scripts/patch_reconstruct.py:168-181 | with no path named twice the patch goes through if and only if every section is orderly; then every named file is edited by its section and all others are as before |
| PatchHeaders.PrintedBlockDoesTheEdits | scripts/patch_reconstruct.py:155-181 | from the structure of an illustrative diff to the edited files: a printed block whose anchors do not begin with `-` gives a patch if and only if its hunks stand, and applying that makes the edits |
| PatchApplies.ReversedHunksDoNotApply | scripts/patch_reconstruct.py:177-180 | two hunks that stand, listed bottom first, give a patch that does not apply |
| PatchApplies.UnterminatedLineDoesNotApply | scripts/patch_reconstruct.py:143-148 | a hunk at a last line without a newline stands, and its patch does not apply |
| PatchApplies.RepeatedPathDoesNotApply | scripts/patch_reconstruct.py:63-67 | two orderly sections for one path give a patch that does not apply |
| Sig.Reachable | sr_agent/packs/audit/planner/sig.py:176-185 | the stack loop ends on cyclic call graphs and returns exactly what is reached over one call or more |
| Sig.AddFunctions | sr_agent/packs/audit/planner/sig.py:151-155 | one empty node per short name of a function node |
| Sig.AddEdge | sr_agent/packs/audit/planner/sig.py:158-173 | one edge adds its own read, write, call or external-call flag and changes nothing else |
| Sig.AddEdges | sr_agent/packs/audit/planner/sig.py:157-173 | after all edges each function holds exactly its own reads and writes, and the call table exactly the calls of known functions |
| Sig.PropagateTo | sr_agent/packs/audit/planner/sig.py:188-192 | a caller ends with exactly the state of everything it reaches, even when callee sets have been enlarged before |
| Sig.Propagate | sr_agent/packs/audit/planner/sig.py:187-192 | in-place propagation in any order gives every function exactly the union over the known functions it reaches |
| Sig.BuildSigFromSmartGraphical | sr_agent/packs/audit/planner/sig.py:138-194 | the built graph: its functions, their inherited reads and writes, their external-call flags |
| SigMeaning.ShortNameIs | sr_agent/packs/audit/planner/sig.py:122-126 | the short name is what follows the last dot of what follows the first colon; there is none without a colon |
| SigMeaning.FunctionsAre | sr_agent/packs/audit/planner/sig.py:151-155 | the functions are the non-empty short names of function nodes |
| SigMeaning.EdgesAre | sr_agent/packs/audit/planner/sig.py:157-173 | own reads, own writes, calls of known functions and external calls, by the kinds and the names of the edges |
| Sig.InheritedIsLeastSolution | sr_agent/packs/audit/planner/sig.py:142-146 | that union is the least assignment in which every function holds its own state and its callees' |
| Sig.InterferesIffShared | sr_agent/packs/audit/planner/sig.py:38-45 | two functions interfere if and only if some state is written in reach of one and touched in reach of the other |
| Sig.ReentersIffShared | sr_agent/packs/audit/planner/sig.py:47-50 | a function can reenter by way of another if and only if it calls out itself and they share state that one of them writes, in reach |
| Sig.GetFilteredPairs | sr_agent/packs/audit/planner/sig.py:105-117 | the nested loops return the filtered pairs in list order |
| Sig.PairsAreThose | sr_agent/packs/audit/planner/sig.py:105-117 | those are exactly the pairs of a location and a later one whose functions interfere |
| SigMeaning.PairsAreListed | sr_agent/packs/audit/planner/sig.py:105-117 | the filtered pairs are listed once each in the order of the list, by what follows the last colon of a location |
| CodeGraphs.CodeGraph.FromLinks | scripts/codegraph.py:140-157 | the tables hold, for every node, exactly the edges leaving or entering it, in order |
| CodeGraphs.TablesAre | scripts/codegraph.py:140-157 | a table lists the edges of a node in their order, each as often as it occurs |
| CodeGraphs.VisitEdges | scripts/codegraph.py:210-222 | scanning the out-edges of a node keeps the breadth-first layers, with the early exit at discovery |
| CodeGraphs.Unwind | scripts/codegraph.py:216-221 | following predecessor edges back from the goal and reversing gives a chain as long as the distance |
| CodeGraphs.CodeGraph.Path | scripts/codegraph.py:201-223 | the empty list if and only if the ends are equal or there is no chain; otherwise a chain of graph edges that no chain beats in length; on every graph, cycles included |
| SolidityIndex.SymbolIndex.IndexContract | scripts/solidity_index.py:224-248 | indexing a definition replaces its bases if it has any and adds its state-variable types |
| SolidityIndex.SymbolIndex.ProvidesStateVarType | scripts/solidity_index.py:156-171 | true if and only if a line of bases, each direct base of the one before, leads from the contract to one that declares the type; ends on cyclic tables |
| SymbolLookup.NestedContainer | scripts/solidity_index.py:185-197 | the loop returns the container that the next row characterises |
| SymbolLookup.ContainerIs | scripts/solidity_index.py:185-197 | a name has the container `c` if and only if it names a struct or enum and all of them are declared in `c` |
| SymbolLookup.LookupIs | scripts/solidity_index.py:173-183 | the symbols of the very name if there are any, otherwise those of what follows its last dot |
| SymbolLookup.GenerateWithLookups | scripts/poc_queue_runner.py:1916-1946 | the marker loop tells the model exactly what the conversation function says, in one call more than there are answered replies |
| SymbolLookup.GenerateWithToolCalls | scripts/poc_queue_runner.py:2025-2066 | the same for tool calls, structured or written out as text |
| SymbolLookup.ConversationIs | scripts/poc_queue_runner.py:1926-1946 | reply after reply the first requests, as many as are left of the budget, are answered in order by what is found under their names, until nothing is asked or nothing is left |
| SymbolLookup.ToolConversationIs | scripts/poc_queue_runner.py:2025-2066 | the same for tool calls: the structured ones if there are any, else those written out |
| SymbolLookup.ConversationIsBounded | scripts/poc_queue_runner.py:1927-1939 | at most `budget` names are resolved, every answered reply resolves one at least, and the end comes only when the model asks nothing or the budget is used up |
| SymbolLookup.CallsAreBounded | scripts/poc_queue_runner.py:1932-1946 | at most `budget + 1` model calls, whatever it replies |
| SymbolLookup.GenerateEitherWay | scripts/poc_queue_runner.py:2030-2036 | run by marker lines and by tool calls, a model that asks for the same names is told the same in the same order in as many calls; with the same last text the source is the same |
| UndeclaredFixer.ImportedNames | scripts/solidity_fixers.py:163-165 | the loop collects exactly the names that the text imports, lists over several lines included |
| ImportPattern.ReadIsFound | scripts/solidity_fixers.py:163-165 | reading a text line by line finds exactly the matches of the import pattern in it, from left to right, whatever line breaks, broken imports and other text it holds |
| ImportPattern.ListAtIs | scripts/solidity_fixers.py:137 | a match is `import {`, a list without a closing brace, `} from "...";` |
| UndeclaredFixer.FixUndeclaredImport | scripts/solidity_fixers.py:161-184 | changes the code if and only if a flagged name is declared by the project and not imported, and then adds those imports, each once and in order, after the last line that begins with `import` or `pragma` |
| FixerMeaning.RepairIs | scripts/solidity_fixers.py:166-184 | the repaired text: after the last line that begins with `import` or `pragma` one import for each flagged name to repair, where it was first flagged, from where the project declares it |
| UndeclaredFixer.RepairedImports | scripts/solidity_fixers.py:163-184 | what the text imports afterwards: where no import is unfinished, what it did and the repaired names; where a list is open, what stands before it, what it names up to there and all repaired names but the first; where an import is broken elsewhere, what stands before it and the repaired names |
| UndeclaredFixer.RepairIsComplete | scripts/solidity_fixers.py:147-154 | every flagged name that the project declares is imported afterwards if and only if no import is unfinished at the insertion point; or its list is open and names the first repaired name; or it is broken elsewhere and goes on to import no flagged name of the project that is not read before |
| UndeclaredFixer.FixUndeclaredTwice | scripts/solidity_fixers.py:146-154 | under the same compiler output a second pass changes the code again if and only if the first changed it and did not insert safely |
| UndeclaredFixer.SplitListBreaksTheRepair | scripts/solidity_fixers.py:161-184 | a list over several lines into which the import of a flagged name is put, and which is not read as importing it |
| UndeclaredFixer.BrokenImportIsLost | scripts/solidity_fixers.py:137-183 | an import broken after its list, of a flagged name that is no longer imported once another import is put between its lines |
| SourceLines.ImportIsItsParts | scripts/solidity_fixers.py:137 | an import on one line is read as the word `import`, braces, items, commas, `from`, path and semicolon one after the other, in the middle of another import too |
| SourceLines.ReadSpliced | scripts/solidity_fixers.py:137-183 | the import lists of a text with imports put in: on top of all others where no import is unfinished; otherwise in place of the unfinished one, whose list swallows the first of them if it is open |
| NestedFixer.PruneLines | scripts/solidity_fixers.py:201-225 | the line loop drops the nested names of one-line project imports, and a line with none left, and records what it dropped in order |
| FixerMeaning.PrunedNamesAre | scripts/solidity_fixers.py:210-217 | of a list exactly the types nested in one contract go, each with its container and path, and the rest stays, both in order |
| FixerMeaning.PrunedLinesAre | scripts/solidity_fixers.py:201-225 | a project import on one line loses its nested types, and goes with its last name; every other line stays |
| FixerMeaning.OnALineIs | scripts/solidity_fixers.py:228-233 | a container counts as imported if and only if some one-line import names it |
| NestedFixer.MissingContainers | scripts/solidity_fixers.py:228-240 | one import for each container that no line imports, in order of first appearance, from where the project declares it or else from the path of the last name nested in it |
| FixerMeaning.PathIs | scripts/solidity_fixers.py:235-239 | a container is imported from where the project declares it, else from the path of the last name nested in it |
| FixerMeaning.FirstSeenIs | scripts/solidity_fixers.py:235 | each container once, where it first occurs |
| NestedFixer.FixNestedTypeImports | scripts/solidity_fixers.py:187-253 | changes the code if and only if a one-line project import names a nested type; then the lines are the pruned ones with the missing imports put in, rewritten for each removed name in turn |
| NestedFixer.FixedAtOnce | scripts/solidity_fixers.py:249-253 | when no container is a removed name itself, that is rewriting for all names at once |
| Qualifying.QualifyLinesOneMore | scripts/solidity_fixers.py:249-252 | rewriting for one more name comes to the same as qualifying with one name more |
| Qualifying.QualifyInTurnIsAtOnce | scripts/solidity_fixers.py:249-252 | rewriting name after name, in any order, comes to the same as qualifying all names at once |
| FixerMeaning.QualifyIs | scripts/solidity_fixers.py:250-252 | token after token a name that follows no dot gets its container and a dot; everything else stays |
| FixerMeaning.QualifiedLineIs | scripts/solidity_fixers.py:250-252 | names and aliases of import lines are rewritten as words, and so is the path |
| NestedFixer.EveryUseQualified | scripts/solidity_fixers.py:249-252 | after the pass no bare use of a removed type is left on any line: in text, paths, or the names and aliases of import lists |
| Qualifying.QualifyNothing | scripts/solidity_fixers.py:249-252 | uses that are qualified already are left alone |
| NestedFixer.ContainersImported | scripts/solidity_fixers.py:228-240 | after the pass a line of its own imports the container of every removed name; its path is as it was pruned or added if and only if no removed name is a word of it |
| NestedFixer.NestedImportsLeft | scripts/solidity_fixers.py:206-253 | the result names a nested type in a one-line project import if and only if the container of a removed name is itself nested, imported by no pruned line, and declared under a project path or else nowhere known |
| NestedFixer.SecondPassChangesNothing | scripts/solidity_fixers.py:194-195 | with containers that are no nested types a second pass finds nothing to do |
| NestedLists.NestedListsLeft | scripts/solidity_fixers.py:201-253 | read as a whole, imports over several lines included, the result imports a nested type by name if and only if an added import does, or a list of the pruned lines with a name that was not removed; where an import is unfinished only the lists before it count, with the names of an open one in place of the first addition |
| NestedLists.ImportedAfterwards | scripts/solidity_fixers.py:201-253 | a name is imported by the result if and only if it is no removed one and was imported by the pruned lines or added; where an import is unfinished, its names are lost, and with an open list the first addition |
| NestedLists.AdditionsRead | scripts/solidity_fixers.py:241-253 | the result imports an added container if and only if no list is open where it goes, or it is not the first, or it was imported before or is named by the open list |
| NestedLists.NestedContainerIsImported | scripts/solidity_fixers.py:234-240 | an index on which the pass leaves a nested import |
| NestedLists.SplitListKeepsNested | scripts/solidity_fixers.py:201-205 | a nested type in a list over two lines, which the pass does not see |
| NestedLists.ContainerLostInAList | scripts/solidity_fixers.py:241-247 | lines on which the added container is not read as imported |
| NestedLists.ImportLeftAlone | scripts/solidity_fixers.py:193-195 | an import line survives the rewriting if and only if no removed type is a word of its names, aliases or path |
| NestedLists.AliasIsRewritten | scripts/solidity_fixers.py:249-252 | an aliased import and its path are rewritten |
| Bench.MatchFindings | scripts/bench.py:176-203 | produced splits into matched, review and spurious, truth into matched and missed; matched pairs agree on place and tag; each (place, tag) key is credited the smaller of its two counts; review reasons are true; of candidates that one truth would credit the smaller ids are served first; missed is in id order |
| Bench.FindTruth | scripts/bench.py:184-194 | the scan returns the first truth that credits the candidate, or else the first near one with its reason |
| Bench.MatchMeans | scripts/bench.py:176-203 | what matched, reviewed, spurious and missed say of the normalised places and the tags |
| Sorting.LexLeqIs | scripts/bench.py:181 | ids are ordered by code points at the first difference, a beginning first |
| Bench.MatchedIsOptimal | scripts/bench.py:176-198 | no one-to-one assignment of candidates to agreeing truths has more pairs than the greedy matcher |
| Bench.MatchReordered | scripts/bench.py:181-202 | two matchings of the same findings and truths, listed in any order, credit and miss the same places and tags, match equally many and leave equally many candidates over |
| Bench.RecallPerTag | scripts/bench.py:212-215 | for every tag the matched truths are between none and all truths of that tag, and with the missed ones are all of them |
| ProofBench.FortyHalvings | scripts/proof_bench.py:216-280 | the tolerance is met at the fortieth halving and not before |
| ProofBench.BetaPpf | scripts/proof_bench.py:270-281 | for any function in place of the CDF the loop stops after forty halvings, under its cap, and returns the middle of that bracket |
| ProofBench.QuantileIsMonotone | scripts/proof_bench.py:270-281 | the quantile grows with the probability, for any function in place of the CDF |
| ProofBench.BracketHoldsQuantile | scripts/proof_bench.py:273-281 | the bracket contains every p-quantile and its middle is within half its width of it |
| ProofBench.BracketParts | scripts/proof_bench.py:273-280 | for a monotone CDF the bracket parts the unit interval at the p-quantile |
| ProofBench.CredibleInterval | scripts/proof_bench.py:284-296 | bad counts are refused; 0 <= lo <= hi <= 1 for every mass of at least 0; the ends are the two quantiles of the Jeffreys posterior |
| ProofMeaning.IntervalHoldsQuantiles | scripts/proof_bench.py:284-296 | the ends are, within 2^-41, the quantiles of Beta(successes + 1/2, failures + 1/2) that leave half of the rest of the mass on either side |
| ProofBench.StageAgreesWithOutcome | scripts/proof_bench.py:329-360 | in a run with one task stage and outcome agree on success if and only if the outcome is no success or the run is clean and extracted the finding |
| ProofBench.StageAndOutcomeCanDrift | scripts/proof_bench.py:343-344 | a run on which they differ |
| ProofMeaning.StageIsFurthest | scripts/proof_bench.py:329-360 | an infrastructure event or a finding that was not extracted decides; otherwise the stage is the furthest that any event shows |
| ProofBench.BuildFunnel | scripts/proof_bench.py:363-383 | the loops count the survivors of every stage and name its casualties and the off-ladder runs, in order |
| ProofMeaning.SurvivorsAre | scripts/proof_bench.py:371-379 | the survivors of a stage are the runs that reached it or a later one |
| ProofMeaning.CasualtiesAre | scripts/proof_bench.py:372-382 | the casualties of a stage are the runs that stopped right below it, in order |
| ProofMeaning.OffLadderAre | scripts/proof_bench.py:372-376 | the runs off the ladder by what kept them off, in order |
| ProofMeaning.SuccessesAre | scripts/proof_bench.py:393 | the numerator counts the runs whose outcome is `passed_verified` |
| ProofBench.FunnelConserves | scripts/proof_bench.py:363-383 | each drop is the casualties named at the later stage; first-stage survivors and off-ladder runs are all runs; casualties and verified survivors are all runs |
| ProofBench.TopIsNumerator | scripts/proof_bench.py:388-398 | the top of the funnel is the numerator of the interval when stage and outcome agree on every run |
| Episodic.EpisodicMemory.Write | sr_agent/memory/episodic.py:55-84 | a record is signed and appended to its file if and only if the principal and the status rules allow it; nothing else changes |
| Episodic.AcceptedMeans | sr_agent/memory/episodic.py:67-73 | when a write is accepted, with the statuses that need a human |
| Episodic.SafeNameIs | sr_agent/memory/episodic.py:52 | a file name is made character by character: `_` for a slash, `__` for a colon |
| Episodic.EpisodicMemory.LoadFile | sr_agent/memory/episodic.py:124-155 | the loop keeps the last well-signed record of every id and drops the superseded ones |
| Episodic.EpisodicMemory.Load | sr_agent/memory/episodic.py:86-106 | a foreign project is refused, otherwise the file of the target is loaded |
| Episodic.EpisodicMemory.ListFiles | sr_agent/memory/episodic.py:115-120 | the listing of a directory: its files, each once, in the order of their names |
| Episodic.ListingIsUnique | sr_agent/memory/episodic.py:120 | there is one such listing only |
| Episodic.EpisodicMemory.LoadForPrincipal | sr_agent/memory/episodic.py:108-122 | the records of all files of the directory of the project, file by file in the order of the names |
| Episodic.EpisodicMemory.VerifyFile | sr_agent/memory/episodic.py:170-185 | every line that is not empty counts once, as valid if and only if it is a well-signed record |
| Episodic.EpisodicMemory.VerifyIntegrity | sr_agent/memory/episodic.py:157-187 | the totals are the sums over the files of the directory, with the table of the files by stem |
| Episodic.PerTargetTells | sr_agent/memory/episodic.py:183-186 | the table gives under its stem how many lines of a file are not empty, how many of them well-signed records and how many not; save for an empty target beside one named `.jsonl` |
| Episodic.CountsAre | sr_agent/memory/episodic.py:170-182 | the counts of any lines: every line that is not empty once, as valid if and only if it is a well-signed record |
| Tampering.InvalidLinesAre | sr_agent/memory/episodic.py:169-186 | the invalid total of a project is the number of lines in its files that are neither empty nor well-signed records |
| Tampering.TamperedRecordIsReported | sr_agent/memory/episodic.py:157-187 | one line of an untouched memory replaced by a record with a wrong signature: the scan of the project reports exactly one invalid line and one valid line less than were written |
| Episodic.ApplySupersedes | sr_agent/memory/episodic.py:199-207 | the two loops drop exactly the records that some record supersedes |
| Episodic.RunsStayGenuine | sr_agent/memory/episodic.py:55-84 | after any writes and any edits by someone who cannot sign, every line that verifies holds accepted fields |
| Episodic.LoadedWasWritten | sr_agent/memory/episodic.py:124-155 | every record a load returns was accepted by an earlier write; a privileged status in it came from a human |
| Tampering.LoadedFromAnyLines | sr_agent/memory/episodic.py:124-155 | from any lines whatsoever a load returns the last well-signed record of every id, unless another such record names it as superseded |
| Episodic.OverridingWithoutHuman | sr_agent/memory/episodic.py:209-229 | an overriding record without a human source is accepted if and only if it carries no status change |
| Episodic.AnOverrideWithoutHuman | sr_agent/memory/episodic.py:199-229 | two writes after which a model's record hides a human's from every load |
| Episodic.UntouchedLoad | sr_agent/memory/episodic.py:124-155 | with distinct ids and no edits a load returns, in order, the written records that none supersedes |
| Episodic.UntouchedLoadHolds | sr_agent/memory/episodic.py:86-155 | the same record by record, for a project and target, both directions: what was accepted for a project of the same directory and a target of the same file name and is not overridden there |
| Episodic.UntouchedScan | sr_agent/memory/episodic.py:170-186 | a scan of an untouched file finds every write valid |
| Episodic.UntouchedIntegrity | sr_agent/memory/episodic.py:157-187 | on an untouched store the scan of a project counts every write accepted for its directory exactly once |
| Episodic.PrincipalSeesItsOwn | sr_agent/memory/episodic.py:108-122 | what a principal is given was accepted by a write, and without edits for a project of its own directory |
| Episodic.IsolationIffSeparated | sr_agent/memory/episodic.py:51-53 | over all untouched histories a principal is given records of its own project only, if and only if no other id in use names its directory |
| Episodic.AliasedIds | sr_agent/memory/episodic.py:51-53 | a principal of `./q` is given what was written for `q` |
| Stage2.Adapt | sr_agent/packs/audit/relay_ingest.py:44-73 | as many findings as there are well-formed items, each from one of them with sanitized notes |
| Stage2.AdaptKeepsEach | sr_agent/packs/audit/relay_ingest.py:44-73 | every well-formed item becomes a finding, at the place the items before it leave |
| Stage2.RelayedIsWritten | sr_agent/packs/audit/planner/stage2.py:116-124 | the memory refuses none of the relayed findings: each is written in order, under its target and the project, as output of an external model, with no status change and overriding nothing |
| Stage2.RelayedIsLoaded | sr_agent/packs/audit/planner/stage2.py:116-124 | under distinct record ids a later load of the target returns every relayed finding |
| Stage2.Session.EmitRequests | sr_agent/packs/audit/planner/stage2.py:82-94 | one new entry with a fresh id for each listed target that no entry stood for when the call began |
| Stage2.EmitIs | sr_agent/packs/audit/planner/stage2.py:82-94 | the manifest goes on with one waiting entry, under the next free id, for each listed target without an entry, in their order |
| Stage2.Session.WriteFindings | sr_agent/packs/audit/planner/stage2.py:109-126 | the findings of one response are appended to the memory and their ids to the session |
| Stage2.Session.IngestAt | sr_agent/packs/audit/planner/stage2.py:101-129 | one entry stays pending, is skipped or is ingested |
| Stage2.Session.IngestResponses | sr_agent/packs/audit/planner/stage2.py:96-129 | exactly the waiting entries with a readable response are ingested; the rest stay pending |
| Stage2.ArrivalsAreTakenIn | sr_agent/packs/audit/planner/stage2.py:101-129 | what is added to the memory are the records of all well-formed items of readable responses to waiting entries, one for each, in the order of the manifest and of the responses |
| Stage2.PendingIs | sr_agent/packs/audit/planner/stage2.py:101-107 | the pending ids are those of the waiting entries, in order |
| Stage2.Session.RunStage2 | sr_agent/packs/audit/planner/stage2.py:69-144 | a call is one step of the stage; it adds to the memory, and reports, one finding for every well-formed item that was due, with its target and sanitized notes; done if and only if every entry is ingested |
| Stage2.RunsStaySound | sr_agent/packs/audit/planner/stage2.py:69-144 | over any calls, responses arriving, changing or vanishing: no request is ingested twice, and memory and ingested entries match |
| Stage2.NothingReopens | sr_agent/packs/audit/planner/stage2.py:101-129 | no entry is dropped, renamed or reopened, and the memory only grows |
| Stage2.RepeatEmitsNothing | sr_agent/packs/audit/planner/stage2.py:83-88 | targets of an earlier call are not requested again, whatever happened in between |
| Stage2.TargetsHaveEntries | sr_agent/packs/audit/planner/stage2.py:85-93 | after a call every target of it has an entry |
| Stage2.DoneWhenAllReadable | sr_agent/packs/audit/planner/stage2.py:101-133 | a call ends done if and only if all entries were ingested before or have a readable response |
| Stage2.OneRequestPerTarget | sr_agent/packs/audit/planner/stage2.py:82-93 | one request per target is kept if and only if the targets still to be requested are distinct |
| Stage2.RepeatedInOneCall | sr_agent/packs/audit/planner/stage2.py:82-93 | a target listed twice in a first call gets two requests |
| Stage2.ArrivalOrderDoesNotMatter | sr_agent/packs/audit/planner/stage2.py:96-129 | however unchanging responses trickle in, the memory holds as a multiset exactly the records of the well-formed items of the responses to the ingested entries, once each |
| Stage3.CheckSeverity | sr_agent/packs/audit/guardrails/severity.py:51-78 | never above medium when mitigated, never below high with four active preconditions and no mitigation; a reason if and only if there is a correction |
| Stage3.ScaleOfSeverities | sr_agent/packs/audit/planner/stage3.py:31-34 | the scale on which severities are near or far is that of the five in their order |
| Stage3.NearestAllowed | sr_agent/packs/audit/guardrails/severity.py:51-78 | the correction is the least one: the severity the two rules allow that is nearest to the one that came in, which is itself if they allow it |
| Stage3.ReasonOfCorrection | sr_agent/packs/audit/guardrails/severity.py:56-78 | a downgrade, an upgrade or no reason, as the severity went down, up or stayed |
| Stage3.CorrectAll | sr_agent/packs/audit/planner/stage3.py:57-62 | every finding gets its corrected severity once, also when it is listed twice; the corrections are those of the findings corrected, in the order in which they first occur |
| Stage3.GroupByFile | sr_agent/packs/audit/planner/stage3.py:65-67 | one group per file, in order of appearance, with its findings in order |
| Stage3Meaning.GroupIs | sr_agent/packs/audit/planner/stage3.py:65-67 | the group of a file are the findings whose location names it before the first colon, in order |
| Stage3.LinkGroup | sr_agent/packs/audit/planner/stage3.py:81-82 | each finding is linked to exactly the findings of its group it interacts with |
| Stage3Meaning.LinksAre | sr_agent/packs/audit/planner/stage3.py:69-82 | the links are the ids of the interacting findings of the group, in order; a finding alone in its file keeps its own |
| Stage3.FindElevated | sr_agent/packs/audit/planner/stage3.py:86-90 | the two filters select exactly the severe findings with a severe partner, in order |
| Stage3.ProcessGroup | sr_agent/packs/audit/planner/stage3.py:69-97 | one group: final severities, links and at most one chain |
| Stage3.LinkAndElevate | sr_agent/packs/audit/planner/stage3.py:64-97 | pass 2 over all files |
| Stage3.RunStage3 | sr_agent/packs/audit/planner/stage3.py:44-102 | the stage in place: the severities afterwards are a function of the findings alone, with links, number of corrections and chains |
| Stage3Meaning.FinalIs | sr_agent/packs/audit/planner/stage3.py:57-97 | critical for the elevated; for any other finding the allowed severity nearest to the one it came in with |
| Stage3Meaning.ElevatedIs | sr_agent/packs/audit/planner/stage3.py:74-93 | elevated if and only if it is unmitigated and high or critical once corrected, and so is another finding of its file whose function interferes with its own, or whose file has no graph |
| Stage3Meaning.ChainIs | sr_agent/packs/audit/planner/stage3.py:91-97 | a file has a chain if and only if a finding of it is elevated, and it names the elevated ones in order |
| Stage3Meaning.ActiveCountIs | sr_agent/packs/audit/guardrails/severity.py:53 | a precondition counts if it is active |
| Stage3.StageIsIdempotent | sr_agent/packs/audit/planner/stage3.py:57-97 | a second run changes no severity |
| Stage3.RunOnCopies | sr_agent/packs/audit/planner/stage3.py:44-102 | two runs on lists that hold copies of the same findings, in whatever order and however often, end with the same severities |
| Stage3.FinalBounds | sr_agent/packs/audit/planner/stage3.py:57-93 | no mitigated finding ends above medium, no unmitigated one with four active preconditions below high; elevation never lowers |
| Stage3.ElevatedInPairs | sr_agent/packs/audit/planner/stage3.py:90-91 | an elevated finding has an elevated partner, as interaction is symmetric and irreflexive |
| Stage3.ElevatedTogether | sr_agent/packs/audit/planner/stage3.py:90-91 | a non-empty set to elevate has two members at least |
| Stage3.ChainsNameTwo | sr_agent/packs/audit/planner/stage3.py:91-97 | every reported chain names two different findings of its file that are elevated |
| Stage3.ElevatedIsNamed | sr_agent/packs/audit/planner/stage3.py:91-97 | every elevated finding is named in a chain of its file |
| Stage3.GraphIsSymmetric | sr_agent/packs/audit/planner/sig.py:38-45 | the interference of every graph is symmetric |
| Confirmation.EveryRunIsSafe | sr_agent/orchestrator/confirmation.py:49-155 | for every pack, its validators writing to the action as they like, and every interleaving of agents, sessions and operator the protocol's invariant holds |
| Confirmation.StepsKeepSafe | sr_agent/orchestrator/loop.py:191-243 | from every state in which the invariant holds every run of the state machine, so every run of the loops, keeps it |
| Confirmation.NoUnconfirmedWrite | sr_agent/orchestrator/action.py:60-84 | in no history of any steps is an action dispatched unconfirmed that the pack declares as write_execute, by a run or in a chat turn, if and only if no validator accepts such an action and leaves it ungated |
| ProtocolMeaning.UnconfirmedWrites | sr_agent/orchestrator/action.py:60-84 | the same written out: if and only if whatever a validator accepts is left as write_execute, waiting for a human, or as a request that the pack does not declare as write_execute |
| Confirmation.ALoweringPack | sr_agent/orchestrator/action.py:60-84 | a validator that lowers the class of the action, which is then dispatched at once |
| Confirmation.TamePacksConfirm | sr_agent/orchestrator/action.py:79-84 | packs whose validators leave the request, and the class of what needs a human, alone meet both guarantees |
| Confirmation.ExecutedAfterApproval | sr_agent/orchestrator/loop.py:214-243 | what is executed under an id was filed under that id and approved by the operator in between; only a validator may have changed it since |
| Confirmation.ApprovedIsExecuted | sr_agent/cli.py:115-145 | in every history the request executed is the one filed, parameters included, if and only if validating a filed request again leaves it as it is |
| ProtocolMeaning.SwappedRequests | sr_agent/cli.py:115-145 | the same written out: if and only if no validator changes a request that a validator left waiting for a human |
| Confirmation.ExecutedOnce | sr_agent/cli.py:115-145 | an id leads to one execution at most, each session being held by one process |
| Sharing.AloneExecutesOnce | sr_agent/cli.py:115-145 | with sessions opened by further processes the invariant holds and an id leads to one execution at most, if nobody opens a session that somebody else holds while it waits |
| Sharing.OpeningIsHarmless | sr_agent/cli.py:115-145 | from any state that satisfies the invariant: after a session is opened no id is ever executed twice, whatever is done, if and only if its holder opened it or it waits for nothing |
| Sharing.ExecutedTwice | sr_agent/cli.py:115-145 | two processes resume one session and both execute the approved request |
| Confirmation.TimedOutNeverExecutes | sr_agent/orchestrator/confirmation.py:113-119 | a wait that timed out has no effect, whatever the operator does afterwards |
| Confirmation.ResumeExecutesWhenApproved | sr_agent/cli.py:115-145 | a resume executes a request if and only if the session still waits for it and its record says approved |
| Confirmation.DecisionsAreRecorded | sr_agent/orchestrator/confirmation.py:113-121 | a decision is recorded as it was made, a wait that times out as a rejection, and no other record changes |
| Confirmation.DecisionsCount | sr_agent/orchestrator/loop.py:214-243 | a run whose action waits executes it as filed if the operator approves, even at the last poll, and does not if he rejects |
| Confirmation.AnotherTurnAbandons | sr_agent/cli.py:87-89 | another turn takes the session off the request it waits for, whether it files a new one or ends otherwise |
| Confirmation.AbandonedNeverExecutes | sr_agent/cli.py:115-145 | a request nobody waits for is never executed, even if approved |
| Orchestrator.ValidateAction | sr_agent/orchestrator/action.py:50-86 | accepted if and only if the pack knows the action and its validator does not object; class, reversibility and request are as the validator leaves them; an accepted action is marked as waiting for a human if and only if the class left is write_execute or the validator marked it |
| Orchestrator.World.RequestConfirmation | sr_agent/orchestrator/confirmation.py:49-77 | a pending record under a fresh id |
| Orchestrator.World.CheckConfirmation | sr_agent/orchestrator/confirmation.py:92-121 | the polling loop is a run of poll steps: the first decision seen counts, the deadline writes a rejection |
| ProtocolMeaning.PollsAre | sr_agent/orchestrator/confirmation.py:92-121 | one poll after each window, and only the poll after the last window ends the wait by itself |
| Orchestrator.World.OneAction | sr_agent/orchestrator/loop.py:191-243 | one action of a run is its proposal and, if it has to wait, polls in the given windows and a dispatch after an approval; no other step is taken but those of others in the windows, and nothing is left waiting |
| Orchestrator.World.Run | sr_agent/orchestrator/loop.py:131-251 | the run loop is a run of the state machine made of the given steps of others and the actions replied, and nothing else, in at most 50 iterations, and stops for the reason of its last reply |
| ProtocolMeaning.AskedAre | sr_agent/orchestrator/loop.py:131-251 | the actions taken by a run are those that its replies name, in order |
| Orchestrator.World.TurnAction | sr_agent/orchestrator/loop.py:348-376 | an action of a chat turn is refused, filed or, if it needs no human, dispatched |
| Orchestrator.World.RunTurn | sr_agent/orchestrator/loop.py:277-390 | at most 10 tool calls; the steps taken are the given ones of others and one for each action that is dispatched; the first outcome that ends the turn decides its status; a pause means one request filed |
| ProtocolMeaning.AllowedAre | sr_agent/orchestrator/loop.py:277-390 | the actions dispatched in a turn are those that its replies name and that the pack accepts and leaves without a call for a human, in order |
| Orchestrator.World.HandleTurn | sr_agent/cli.py:78-100 | the steps taken are those of the turn and its end; the session then waits for what this turn filed and nothing else |
| Orchestrator.World.ResumeConfirmation | sr_agent/cli.py:103-145 | nothing, still pending, cancelled or executed, by what the record says when it is read; the steps taken are the reading and, if it was approved, the given ones of others and the execution; an executed or cancelled request leaves the session |
| Orchestrator.RunNeedsApproval | sr_agent/orchestrator/loop.py:214-243 | what is executed by the end of a run was approved before it or by somebody else during it; during it, if it was filed during it |
| Orchestrator.TurnNeedsApproval | sr_agent/cli.py:78-100 | the same for a turn of a session |
| PocLoop.MutationVerify | scripts/poc_queue_runner.py:1739-1791 | verified if and only if the fix applies, builds and makes the test fail; turned down if and only if it builds and the test still passes |
| PocLoop.Workspace.RunAndRepair | scripts/poc_queue_runner.py:2356-2406 | first run and in-place repair rounds; the file on disk is the last code written |
| PocLoop.Workspace.ProcessFinding | scripts/poc_queue_runner.py:2325-2561 | the attempt loop plays the run function; the file stays if and only if the outcome is passed_verified, passed_unchecked or compiled, and goes to quarantine otherwise if anything was written |
| PocLoop.LoopSettles | scripts/poc_queue_runner.py:2348-2465 | with one attempt or more an outcome is assigned, in at most attempts * (1 + 2) drafting runs, and the file on disk is the one run last |
| PocLoop.LoopMeans | scripts/poc_queue_runner.py:2409-2465 | what each outcome says about the counting test result and the defects |
| PocStory.PlayIsAStory | scripts/poc_queue_runner.py:2348-2560 | told without the loop: attempts that are chains of repaired files, each followed by the next by the model's reply; the log and the file are those of the story, and the outcome is verified, turned down or unchecked by what the mutation check of the last attempt gave, and otherwise what its counting result and its defects say, each if and only if |
| PocLoop.CompiledIsOfTheFile | scripts/poc_queue_runner.py:2388-2458 | a file reported as compiled is exactly the defect-free code of the last run, which compiled |
| PocLoop.PassIsBuilt | scripts/poc_queue_runner.py:2388-2455 | a reported pass is that of the file on disk, built and free of defects, if and only if the last attempt does not stay unbuilt from its first run on: in terms of its runs and of which of its two repairs apply |
| PocLoop.SinglePassIsBuilt | scripts/poc_queue_runner.py:2388-2455 | with one attempt: if and only if the draft does not stay unbuilt |
| PocLoop.CleanExitsMakePassesReal | scripts/poc_queue_runner.py:2388-2455 | if every run that exits cleanly built something, every reported pass is the last run, of the file on disk, built and free of defects |
| PocLoop.AnUnbuiltPass | scripts/poc_queue_runner.py:2409-2455 | an environment in which a pass is reported for a file that was never built |
| PocLoop.AStalePass | scripts/poc_queue_runner.py:2396-2411 | an environment in which a pass is reported for a file that never ran to an end |

## Left out

- The parsing of JSON, process and file I/O, Docker, `git apply`, the model clients, prompts, tracing, the web app, the event bus and the user interface.
- The signature itself: `sign` is an arbitrary function, and an editor may write any line except one that verifies for fields never signed.
- Corrupt or partly written files and crashes in the middle of a call.
- PatchReconstruct.Reconstruct: digits in a real hunk header are ASCII digits, while the pattern's `\d` also takes other Unicode digits; the detail texts of refusals are not modelled.
- Text: the white space and the line breaks are those Python's `strip` and `splitlines` use; other Unicode behaviour plays no part.
- Sig.BuildSigFromSmartGraphical: takes nodes and edges, not the payload they are taken from; the regex-based `build_sig` and `extract_state_vars` are not part of this model.
- CodeGraphs.CodeGraph.FromLinks: an edge has no confidence, file and line; node records and format errors are not modelled, nor the sorted queries (`callers`, `callees`, `find`, `module_summary`), which only filter the adjacency tables.
- SolidityIndex.SymbolIndex.IndexContract: takes a definition's base names and state-variable types, not the syntax tree.
- Bench.MatchFindings: the normalisation of locations is an arbitrary function; rounding in `score`, the taxonomy of tags and the detectors are left out.
- ProofBench.BetaPpf: exact reals, with an arbitrary function as CDF; the continued fraction and its floating-point errors are left out.
- ProofBench.StageAgreesWithOutcome: ids are compared as given, without lower-casing; comparison of two reports is left out, as it only compares interval ends.
- Episodic.EpisodicMemory.ListFiles: which directory a project id names is an arbitrary function of the id; files are ordered by code points of their names.
- Stage2.Session.RunStage2: request ids are consecutive numbers in place of random ones; the extraction of a finding list from free text and the sanitizer are arbitrary; the variant with a local model has no protocol and is left out.
- Stage3.CorrectAll: the texts of corrections and chains are reduced to what they name.
- Orchestrator.World.ResumeConfirmation: an action that raises while it executes is not modelled. As in the code, the second validation on resume has no say.
- Orchestrator.World.Run: persisting findings, context building and tool output do not bear on the protocol and are left out; so is the action registry used when no pack is given.
- PocLoop.Workspace.ProcessFinding: grounding, scaffolds, hints, stall detection, lessons and retries of a model call shape prompts only and are left out; fixers, defect checks and the model are arbitrary functions.
- PocLoop.MutationVerify: resolving the fix is reduced to whether there is one and whether it applies; all reasons for having none are one.
- Confirmation.ExecutedOnce: like the other guarantees, for sessions held by one process each; `Sharing.AloneExecutesOnce` and `Sharing.OpeningIsHarmless` say what sharing does to it.
- Confirmation.NoUnconfirmedWrite: a validator is an arbitrary function of the moment and the request; one that raises, or that keeps the action and writes to it later, is not modelled.
- SymbolLookup.GenerateWithLookups: the model is a function of the answers it has been given so far; how answers are rendered is left out.
- UndeclaredFixer.FixUndeclaredImport: takes the flagged names, not the compiler output they are read from. An import begins its line; other text in a list holds no comma, and a brace in it ends no import.
- NestedFixer.FixNestedTypeImports: works on parsed lines; indentation and text behind an import on the same line are dropped, and whether an import is a library one is not changed by the rewriting. No type is named `import` or `from`.
- NestedFixer.NestedImportsLeft: like SecondPassChangesNothing, speaks of the imports the fixer looks at, those on one line, with lists of identifiers or aliases (a qualified name there is no Solidity); `NestedLists.NestedListsLeft` speaks of all lists.
- The other fixers (import paths, addresses, setup overrides, scaffold bases) work on text patterns only.
