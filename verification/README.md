# Verified models of the platform's release and engineering rules

A Dafny project that models six parts of the repository and proves what they are for.

**API compatibility.** `SchemaGraph`, `SchemaTraversal`, `SchemaWalk`, `SchemaAlike` and `SchemaChecker` model the
checker's walk over two possibly cyclic schema graphs, with its `seen` set and its shared change list.
`SchemaTour` and `SchemaReport` say without the loops what a walk reports: the pairs it stops at and, rule by rule, each
change it finds there. `SchemaDocument` proves that the comparison of two positions is Python's comparison of their
documents after `_semantic`.
`SchemaMeaning` says which JSON values a schema accepts (JSON Schema 2020-12, Core sections 8.2.3.1, 10.2.1 and
10.3.2, Validation sections 6.1 to 6.5), and `SchemaMirror` that this depends only on what is reached from a
position. `SchemaConditions` states what the walk takes for granted.
`SchemaSoundness` proves that a walk which reports nothing breaking leaves a simulation between the graphs, and
that the simulation is inclusion of accepted values: requests from the base to the candidate, responses back.
`SchemaLeniency` shows for each condition an input that the checker passes without it, in both directions where
both have the condition, and, where one construct decides, exactly when the guarantee holds there.
`SchemaProperties` nests the readings of objects and says which documents are compared without a report;
`SchemaConfusion` has a document whose comparison with itself reports a breaking change.
`TypeScript` models the compiler from schemas to TypeScript types and proves that the types cover the values;
`TypeScriptExact` and `TypeScriptBare` say which values the types have, `TypeScriptSupport` what compiles.
`Contracts`, `ContractChecker`, `ContractGuarantees` and `ContractIdentity` lift this to whole contracts, to histories
of contracts, and to a contract compared with itself; `ContractReport` and `ContractReportProof` give the rules of
a whole report, `ContractTravel` the direction of each component, `ContractMetadata` the numbers of a contract.

**Template upgrades.** `TemplateUpgrade` and `Upgrader` model the three-way plan, the journaled apply that may
stop at any file operation, and the rollback. `UpgradeRecovery` proves that any stack of upgrades can be undone;
`UpgradeMerge` proves what a completed upgrade leaves behind and what a second plan says. `UpgradeApproval` says when
an upgrade may start and when it completes, in terms of the plan that was reviewed, and when it can be rolled back;
`UpgradeJournal` what the journals say.

**Releases.** `ReleaseVersions` is the version parser and printer and `VersionGrammar` the grammar of its texts,
`StableProjection` and `StableRelease` compare a stable candidate with its base, `StableStandard` spells this out for
the repository's own metadata files, `ReleaseProgression` is the progression check and `ReleaseRuns` its consequences
along whole runs of commits.

**Engineering models.** `TaskSchedule` and `ScheduleGuarantees`, `Rack`, `Packing` and `Floor`, `Csv`,
`Traveler` and `Carrier` prove each validator equivalent to a statement in words, with the counting consequences;
`ProblemReports` says of every problem when it is reported.

**Attachments.** `Attachments` and `AttachmentGuarantees` model the upload into an object store and a table that
may each fail, and reading back.

**Event log.** `EventLog` and `EventLogGuarantees` model the hash-chained log and the runs that append to it;
`EventLogRuns` says when a run goes through, what it stores and what it writes.

`Common`, `Json`, `Ordering`, `Numbers` and `ErrorLists` hold shared vocabulary. `dafny verify dfyconfig.toml`
checks the project.

Code that works by changing state is modelled by classes and loops whose methods are proved against
specification functions (`SchemaChecker.Checker`, `ContractChecker.ContractChecker`, `Upgrader.Application`,
`TaskSchedule.CycleSearch`, `Attachments.AttachmentService`, `EventLog.RunStore`, and the loop methods of the
other modules); the lemmas are about those functions.

## How inputs are read

- JSON numbers are reals. Python's `True == 1` is modelled (`PyEq`), and the soundness results ask that no two
  compared literals differ only in that way. The keywords that document a schema are not represented. Properties and
  members of values with such a name are, and `_semantic` removes them too (`SchemaGraph.Plain`, `Said`), which is why
  some contracts do not pass against themselves. `id(...)` of a parsed object is its position in the document.
- The meanings of keywords other than `type`, `const` and the bounds on numbers, lengths and counts are a
  parameter, so the soundness results hold for every meaning of `pattern`, `format`, `multipleOf` and the like.
  `$ref` applies beside every other constraint of its schema.
- The soundness results speak of a region: a set of pairs of positions that contains the two compared ones, stated
  before any walk. A pair from which both documents reach the same, reference targets included, is always in order
  (`SchemaMirror.Unchanged`), whatever its schemas look like. At any other pair the steps of the walk stay in the
  region, and what the walk overlooks is not stricter at the reader (`SchemaConditions.Comparable` and
  `PositionComparable`): what stands beside a reference or a combinator, references to references, keywords
  outside the checker's list, scalar constraints of objects, required names that are no properties, items and
  `additionalProperties` without their type, typed maps in requests that list no properties, properties that an
  open request object begins to list, variants a request `allOf` gains, values a dropped request enumeration
  listed, `true` against 1, and a null constant. These conditions are sufficient. For each kind, `SchemaLeniency`
  has an input, in every direction the condition applies to, that the checker passes and where the guarantee fails.
- All of them compare the text of the two schemas, except two: what a dropped enumeration listed (`ListedKept`) and
  variants that an `allOf` gained (`AddedKept`) are required to accept what the base accepts. Matches of old variants
  and pure annotations meet the second by their text (`SchemaLeniency.AnnotatedGrowthIsKept`).
- The types cover a schema wherever the schemas its type is made of are suitable (`TypeScript.Scope`); other parts
  of the document do not matter.
- Hashes, digests, parsers of bytes and the safety check on evidence are function parameters, assumed injective
  only where a result says so. File operations, storage calls, scanner calls and database flushes raise or not as
  a schedule given with the input decides.
- JavaScript numbers are reals with NaN and the infinities; rounding is not modelled.

## Model

| member | source | states |
|---|---|---|
| `SchemaTraversal.VisitSettles` | scripts/check_api_compatibility.py:120-135 | a walk over a cyclic graph ends, and without a breaking change every pair it has marked had a step list with nothing breaking whose comparisons were all made |
| `SchemaTraversal.VisitStays` | scripts/check_api_compatibility.py:120-135 | a walk marks nothing outside a set of pairs that its comparisons do not leave |
| `SchemaTraversal.QuietVisit` | scripts/check_api_compatibility.py:120-135 | if equal pairs only lead to equal pairs, the walk over them reports nothing, whatever was seen before |
| `SchemaTraversal.VisitAppends` | scripts/check_api_compatibility.py:127-135 | the shared change list is only appended to and never influences the walk |
| `SchemaTour.VisitTours` | scripts/check_api_compatibility.py:120-135 | a walk from nothing seen is a tour: no pair is visited twice, every stop but the first is asked for by an earlier one, whatever a stop asks for is visited, and the changes are those reported at the stops |
| `SchemaGraph.SameIsReflexive` | scripts/check_api_compatibility.py:107-117 | a schema equals itself after documentation is removed, whatever it nests |
| `SchemaDocument.SameIff` | scripts/check_api_compatibility.py:107-117 | two positions are not told apart exactly when the JSON documents there are equal for Python once `_semantic` has removed documentation from them, properties named like it included |
| `SchemaDocument.PlainIs` | scripts/check_api_compatibility.py:107-117 | `_semantic` removes the members `title`, `description`, `examples` and `deprecated` of an object at every depth, and nothing else |
| `SchemaWalk.StepsAreClosed` | scripts/check_api_compatibility.py:60-71 | every pair the walk goes on to exists in the two documents, also behind references and missing keywords |
| `SchemaChecker.Checker.CompareSchemas` | scripts/check_api_compatibility.py:120-135 | the recursive comparison, updating `changes` and `seen` in place, leaves exactly the change list and the seen pairs of the specified traversal |
| `SchemaChecker.Checker.CompareVariants` | scripts/check_api_compatibility.py:143-160 | combinators: old variants against their matches with growth reported, else position by position, else as wholes |
| `SchemaChecker.Checker.CompareNodes` | scripts/check_api_compatibility.py:136-185 | non-objects, combinators, enumerations and the early returns, in that order |
| `SchemaChecker.Checker.CompareOldProperties` | scripts/check_api_compatibility.py:193-207 | the loop over old properties: removal, requiredness by direction, then the child comparison |
| `SchemaChecker.Checker.CompareNewProperties` | scripts/check_api_compatibility.py:208-213 | the loop over new properties: required ones break, optional ones are additive |
| `SchemaChecker.Checker.CompareKeywords` | scripts/check_api_compatibility.py:228-268 | the constraint loop with its widenings by direction and the bootstrap revision exception |
| `SchemaReport.StepsReport` | scripts/check_api_compatibility.py:136-268 | at a pair of schemas exactly these changes are reported: removed, added and differently required properties, `additionalProperties`, enumerations, variants, types, and each constraint that differs, additive where a request is widened or the contract revision advances at one of its two places with the major unchanged, and breaking otherwise |
| `SchemaReport.StepsLead` | scripts/check_api_compatibility.py:136-226 | and exactly these pairs are compared next: matched or positional variants, common properties, differing maps, and items |
| `SchemaReport.WalkReports` | scripts/check_api_compatibility.py:120-268 | a whole comparison reports exactly what those rules give at the pairs they lead to |
| `SchemaReport.CompatibleIff` | scripts/check_api_compatibility.py:120-268 | nothing breaking is reported exactly when no stop meets a rule for a breaking change |
| `SchemaReport.CompatibleKeepsAnnotations` | scripts/check_api_compatibility.py:239-268 | without a breaking change `readOnly`, `writeOnly` and `default` read the same at every pair whose constraints are compared, except for a default that is the old revision and becomes the higher new one at one of the two places of the revision, with the major unchanged |
| `SchemaMeaning.ValidUnfolds` | scripts/check_api_compatibility.py:60-71 | validity over cyclic references is what one schema says of validity around it, the reference and everything beside it included |
| `SchemaMirror.ReachDetermines` | scripts/check_api_compatibility.py:60-71 | what is accepted at a position depends on nothing but what is reached from it, cyclic references included |
| `SchemaConditions.EqualDocumentsAreSuitable` | scripts/check_api_compatibility.py:107-117 | a position of an unchanged document is suitable, with several combinators, typed maps and chained references too |
| `SchemaSoundness.WalkLeavesSimulation` | scripts/check_api_compatibility.py:120-268 | a walk that reports nothing breaking leaves a `seen` set that, read at the positions of any suitable region, is a simulation relating the two roots; pairs from which the same is reached need nothing |
| `SchemaSoundness.SeenIsExplored` | scripts/check_api_compatibility.py:130-135 | in any set of pairs that its steps do not leave, every pair the walk marks is reached from a pair of the set, so the pairs it will mark are bounded before the walk |
| `SchemaSoundness.SimulationCarries` | scripts/check_api_compatibility.py:136-268 | such a simulation carries acceptance derivations of every height to validity on the other side, in the direction of the walk, over cyclic references, what stands beside them, and pairs from which the same is reached |
| `SchemaSoundness.RequestSoundness` | scripts/check_api_compatibility.py:120-268 | no breaking change in direction request, in a region where what the walk overlooks is not stricter: every value the base accepted with closed records is accepted by the candidate |
| `SchemaSoundness.ResponseSoundness` | scripts/check_api_compatibility.py:120-268 | no breaking change in direction response, in such a region: every value valid under the candidate is valid under the base with open records |
| `SchemaProperties.ReadingsNest` | scripts/check_api_compatibility.py:214-222 | closed acceptance implies exact acceptance implies open acceptance, at every derivation height |
| `SchemaProperties.SealedRequestSoundness` | scripts/check_api_compatibility.py:193-222 | where the records reachable from the request schema are sealed the request guarantee holds of plain JSON Schema validity |
| `SchemaProperties.ExactResponseSoundness` | scripts/check_api_compatibility.py:193-222 | what a valid response of the candidate means to a client of the base |
| `SchemaProperties.UnknownKeywordsPass` | scripts/check_api_compatibility.py:228-235 | between any two schemas equal up to keywords outside the constraint list nothing is reported |
| `SchemaProperties.SelfComparisonIsSilent` | scripts/check_api_compatibility.py:107-117 | a document compared with itself reports nothing from any position, with any seen set, combinator variants that repeat included, as a response always, and as a request where no two variants differ only in what `_semantic` removes |
| `SchemaConfusion.ConfusedVariantFails` | scripts/check_api_compatibility.py:145-154 | an old request variant is compared with the first one that is not told apart from it, and what it has and that one has not is reported as removed |
| `SchemaConfusion.SelfComparisonCanFail` | scripts/check_api_compatibility.py:107-154 | so two variants that differ only in a property named `title` make a document break against itself |
| `SchemaLeniency.MisjudgedFails` | scripts/check_api_compatibility.py:120-268 | an input of the rows below is passed by the walk although what the writer may send exactly is not what the reader accepts, exactly or ignoring unknown members |
| `SchemaLeniency.DroppedEnumAlwaysPasses` | scripts/check_api_compatibility.py:164-172 | a request enum that disappears is additive whatever else changes at the node, because the walk returns there |
| `SchemaLeniency.DroppedEnumIff` | scripts/check_api_compatibility.py:168-172 | there the guarantee holds exactly when the candidate accepts every listed value the base accepts |
| `SchemaLeniency.DroppedEnumCanNarrow` | scripts/check_api_compatibility.py:168-172 | a pair of schemas the checker passes although the candidate rejects a listed value |
| `SchemaLeniency.GrownAllOfPasses` | scripts/check_api_compatibility.py:147-153 | a request `allOf` whose old variants all match and that gains any others: beyond the comparisons of the old variants one additive change is reported |
| `SchemaLeniency.GrownAllOfIff` | scripts/check_api_compatibility.py:147-153 | where the old variants are kept, the guarantee holds exactly when every added variant accepts what the base accepts |
| `SchemaLeniency.AnnotatedGrowthIsKept` | scripts/check_api_compatibility.py:147-153 | which holds where each variant is a match of an old one or carries only annotations |
| `SchemaLeniency.GrownAllOfCanNarrow` | scripts/check_api_compatibility.py:147-153 | an `allOf` that gains a variant passes although the candidate rejects a value the base accepted |
| `SchemaLeniency.BesideReferencePasses` | scripts/check_api_compatibility.py:60-71 | what stands beside references never changes a walk |
| `SchemaLeniency.BesideReferenceIff` | scripts/check_api_compatibility.py:60-71 | in both directions: where the target of the reader's reference is kept, the guarantee holds exactly when everything beside the reference accepts what the writer may send |
| `SchemaLeniency.BesideReferenceIsKept` | scripts/check_api_compatibility.py:60-71 | which holds where nothing beside the reference is stricter, by its text, than at the writer |
| `SchemaLeniency.BesideReferenceCanNarrow` | scripts/check_api_compatibility.py:60-71 | in both directions a `maxLength` more beside the reader's reference passes although the reader rejects a value |
| `SchemaLeniency.ChainedReferenceCanNarrow` | scripts/check_api_compatibility.py:60-71 | a reference to a reference is resolved once: the second target may be stricter at the reader unseen, in both directions |
| `SchemaLeniency.BesideCombinatorPasses` | scripts/check_api_compatibility.py:141-160 | whatever stands beside combinators over variants that read the same is not compared |
| `SchemaLeniency.BesideCombinatorCanNarrow` | scripts/check_api_compatibility.py:149-157 | a type that only the reader has beside an `allOf` passes although it rejects a value, in both directions |
| `SchemaLeniency.UnknownKeywordIff` | scripts/check_api_compatibility.py:228-235 | any schema with one unwatched keyword more at the reader, over children that read the same: no report in either direction, and the guarantee holds exactly when the keyword accepts what the writer may send |
| `SchemaLeniency.LoneKeywordIff` | scripts/check_api_compatibility.py:228-235 | for an empty schema that is: exactly when the keyword accepts every value |
| `SchemaLeniency.MinPropertiesCanNarrow` | scripts/check_api_compatibility.py:228-232 | `minProperties` at the reader alone is unseen in both directions although it rejects the empty object |
| `SchemaLeniency.RecordConstraintCanNarrow` | scripts/check_api_compatibility.py:187-223 | a constant beside `type: object` is not compared, in either direction, and the empty object is not the constant |
| `SchemaLeniency.UndeclaredRequiredCanNarrow` | scripts/check_api_compatibility.py:193-213 | a required name that is no declared property is not compared, in either direction |
| `SchemaLeniency.GainedPropertyCanNarrow` | scripts/check_api_compatibility.py:208-213 | an object schema that begins to list properties is additive although it rejects a value accepted before |
| `SchemaLeniency.UntypedSealCanNarrow` | scripts/check_api_compatibility.py:187-223 | `additionalProperties` without a type or properties is not compared |
| `SchemaLeniency.UntypedItemsCanNarrow` | scripts/check_api_compatibility.py:225-226 | `items` without the type of arrays is not compared, in either direction |
| `SchemaLeniency.TypedMapCanNarrow` | scripts/check_api_compatibility.py:214-222 | typed maps are compared as text: what their references lead to may narrow |
| `SchemaLeniency.LiteralsCanNarrow` | scripts/check_api_compatibility.py:165-174 | 1 listed by the writer may be `true` at the reader, in both directions, because Python finds them equal |
| `SchemaLeniency.NullConstCanNarrow` | scripts/check_api_compatibility.py:233-235 | a missing constant and the constant null read the same, in both directions |
| `TypeScript.TypesCover` | scripts/generate_contracts.py:24-56 | every value accepted by a supported schema inhabits the compiled type, in any reading, through chains of references, wherever the schemas the type is made of are suitable |
| `TypeScript.GeneratedTypeCovers` | scripts/generate_contracts.py:24-68 | the declared types cover validity; only the positions the type is made of matter |
| `TypeScriptBare.GeneratedTypeIsBareSchema` | scripts/generate_contracts.py:24-68 | the generated type of every supported schema has exactly the values of the schema without what types cannot say: references, constants, values, variants, kinds, declared and required properties and map values decide, nothing else does |
| `TypeScriptExact.GeneratedTypeIsExact` | scripts/generate_contracts.py:24-68 | where schemas say no more than types can, the generated type has exactly the valid values, through recursive references |
| `TypeScriptExact.IndexIff` | scripts/generate_contracts.py:49-51 | an object type lacks an index signature exactly when its schema accepts no undeclared member |
| `TypeScriptSupport.CompilesIff` | scripts/generate_contracts.py:24-56 | a schema compiles exactly when it is a local reference, a constant, a list of values or of variants, a known type without `prefixItems`, has properties or says nothing, and so is everything inside it |
| `TypeScriptSupport.IdentifierIs` | scripts/generate_contracts.py:20-21 | a type name keeps the letters, digits, `_` and `$` of the component name in order and drops every other character |
| `TypeScript.UntypedRecordEscapes` | scripts/generate_contracts.py:45-51 | a schema with `properties` and no `type` is compiled to an object type that does not cover it: it accepts null |
| `TypeScript.OpenMapEscapes` | scripts/generate_contracts.py:49-50 | the index signature of a map does not cover the reading that ignores unknown members |
| `TypeScript.NewResponsesInhabitOldTypes` | scripts/generate_contracts.py:24-68 | a new server's responses inhabit the types an old client compiled, when the response comparison passes |
| `ContractChecker.ContractChecker.CompareParameters` | scripts/check_api_compatibility.py:279-312 | the two parameter loops append exactly the specified changes, each schema compared with its own seen set |
| `ContractChecker.ContractChecker.CompareOperation` | scripts/check_api_compatibility.py:315-381 | one operation: identifier, parameters, body and responses, appended in that order |
| `ContractChecker.ContractChecker.CompareContracts` | scripts/check_api_compatibility.py:384-464 | the whole comparison yields exactly the specified report: BLOCKED, or the collected changes with FAIL when one is breaking |
| `ContractReportProof.ReportIff` | scripts/check_api_compatibility.py:384-464 | a comparison is blocked exactly when metadata, paths or components cannot be compared; otherwise its changes are exactly those of the rules for metadata, paths, operations, parameters, bodies, responses, components and the revision, and it fails exactly when one of them is breaking |
| `ContractReportProof.BlockedReport` | scripts/check_api_compatibility.py:384-448 | a blocked comparison reports exactly what is wrong with the metadata, and with the paths where these could be compared |
| `ContractTravel.ModeIs` | scripts/check_api_compatibility.py:86-104 | a component is compared as a request exactly when some request body mentions it, directly or nested, and no response does |
| `ContractMetadata.MetadataIff` | scripts/check_api_compatibility.py:33-57 | the numbers of a contract are the explicit ones, or without both of them the major of its one path family with revision 0 |
| `ContractMetadata.RevisionPlacesAre` | scripts/check_api_compatibility.py:242-256 | the two places of the revision are the member `api_revision` of the bootstrap response and of the `Bootstrap` component, as the comparison writes them |
| `ContractGuarantees.PassKeepsOperations` | scripts/check_api_compatibility.py:417-457 | PASS keeps the operations of each path whose own comparisons overlook nothing that matters: accepted parameters and bodies stay accepted, responses stay understood, nothing new is demanded |
| `ContractGuarantees.PassKeepsComponents` | scripts/check_api_compatibility.py:449-457 | after PASS every component name of the base is one of the candidate, and where suitable the two schemas keep their values in the direction given by the occurrences of the name in bodies and responses |
| `ContractGuarantees.CleanParameters` | scripts/check_api_compatibility.py:287-312 | without a breaking change every old parameter is kept with its values, and no new one is required |
| `ContractGuarantees.CleanContent` | scripts/check_api_compatibility.py:345-379 | without a breaking change the media types are the same on both sides and each keeps its values |
| `ContractGuarantees.ClientTypesSurvive` | scripts/check_api_compatibility.py:373-377 | where a response is kept, candidate responses inhabit the TypeScript types generated from the base |
| `ContractGuarantees.PassKeepsClientTypes` | scripts/check_api_compatibility.py:362-379 | after PASS, each media type of each response of such a path has its counterpart in the candidate, all of whose values inhabit the type generated from the base |
| `ContractGuarantees.PassKeepsRevisions` | scripts/check_api_compatibility.py:400-409 | PASS keeps the major, never lowers the revision, and reports a change only when the revision rises |
| `ContractGuarantees.RevisionsNeverFall` | scripts/check_api_compatibility.py:404-463 | along any history of passed comparisons the revision never falls, and between equal revisions every change list is empty |
| `ContractIdentity.MergeIsDistinct` | scripts/check_api_compatibility.py:271-276 | merged path and operation parameters are distinct by position and name |
| `ContractIdentity.SelfComparisonPasses` | scripts/check_api_compatibility.py:384-464 | a well-formed contract with positive metadata, whose combinators list no two variants that differ only in documentation, compared with itself gives PASS and no change |
| `Ordering.Sorted` | scripts/template_tools.py:120 | the paths of a plan are the managed ones, each once |
| `Ordering.SortedIsOrdered` | scripts/template_tools.py:120 | and they are in Python's order of strings |
| `Ordering.PrecedesIff` | scripts/template_tools.py:120 | in that order a prefix comes first, and otherwise the first difference decides |
| `UpgradeMerge.RowInPlan` | scripts/template_tools.py:115-128 | a row is planned exactly for a managed path whose local content differs from the incoming one, with its three digests and their classification |
| `UpgradeMerge.ConflictIff` | scripts/template_tools.py:124-127 | a conflict is reported exactly when local and incoming both moved from the base to different contents, that is when the three-way merge fails |
| `UpgradeApproval.PlanExistsIff` | scripts/template_tools.py:76-120 | a plan exists exactly when both locks are in order and every path of either manifest is owned, does not climb and is no link |
| `UpgradeApproval.PlanIsOrdered` | scripts/template_tools.py:120-128 | its rows are in the order of their paths, each path once |
| `UpgradeApproval.OwnedIff` | scripts/template_tools.py:18-39 | the template owns exactly the listed prefixes |
| `UpgradeApproval.ClimbsUpIff` | scripts/template_tools.py:75-79 | a path climbs exactly when one of its segments is `..` |
| `UpgradeApproval.UnapprovedIsRefused` | scripts/template_tools.py:134-147 | without maintenance `APP-STOPPED`, a plan without conflict, its own non-empty hash and an unused stamp an apply touches nothing |
| `UpgradeApproval.CompletedIff` | scripts/template_tools.py:134-179 | an apply completes only with them, and with plain source files and no fault it does complete |
| `UpgradeApproval.CompletedLock` | scripts/template_tools.py:163-174 | the lock then holds the identity of the incoming template, the digest of every file it owns, and what else the lock said before |
| `UpgradeJournal.JournalSays` | scripts/template_tools.py:142-179 | the journal names the approved plan, is marked applied exactly when the apply completed and partial otherwise, and lists the changed files in the order of the plan with their actions and digests, all of them when it completed |
| `UpgradeRecovery.ApplyRowKeeps` | scripts/template_tools.py:149-162 | whichever file operation of a row raises, the journal rows held so far truthfully record what was changed and backed up |
| `UpgradeRecovery.ApplyIsRecorded` | scripts/template_tools.py:134-179 | an apply is refused without touching files, lock or older journals, or leaves a journal from which it can be rolled back |
| `UpgradeRecovery.RollbackUndoes` | scripts/template_tools.py:181-203 | rolling back after a completed or stopped apply restores every file, the links and the lock, and leaves other journals alone |
| `UpgradeApproval.RollbackIff` | scripts/template_tools.py:181-203 | a rollback goes through exactly with maintenance `APP-STOPPED`, an applied or partial journal with its lock, every changed file as the upgrade left it, and its backup intact |
| `UpgradeJournal.RollsBackOnce` | scripts/template_tools.py:181-203 | it marks its journal, changes no other, and cannot be done again |
| `UpgradeRecovery.UndoRestoresEverything` | scripts/template_tools.py:134-203 | for every sequence of applies, completed, refused or stopped by any file operation, rolling back newest first restores files and lock byte for byte |
| `UpgradeMerge.CompletedIsMerge` | scripts/template_tools.py:149-174 | after a completed apply every managed path holds its merge, with the template's own bytes where it changed, and no other path changed |
| `UpgradeMerge.CompletedLands` | scripts/template_tools.py:163-174 | a completed apply had no conflict and leaves a lock that names exactly the incoming manifest and provenance |
| `UpgradeMerge.ReplanIsFixpoint` | scripts/template_tools.py:115-128 | planning again against the same template yields exactly the `preserve_local` rows of the first plan, so nothing to do |
| `UpgradeMerge.RollbackRefusesEdits` | scripts/template_tools.py:188-201 | rollback is refused exactly when a file the upgrade changed was edited since; otherwise those files are restored, edits elsewhere survive, and edits of the lock are lost |
| `UpgradeMerge.OwnUpgradeKeepsOthers` | scripts/template_tools.py:115-174 | with the repository's own managed paths a completed upgrade leaves every other file as it is |
| `UpgradeMerge.ConfigurationSurvives` | scripts/template_tools.py:132-174 | so the application's own configuration survives every completed upgrade |
| `UpgradeMerge.InterruptedRollbackIsRefused` | scripts/template_tools.py:188-198 | a rollback stopped midway can be run again exactly when it had restored nothing |
| `Upgrader.Application.UpgradePlan` | scripts/template_tools.py:115-132 | the planning loop computes the specified plan or its error |
| `Upgrader.Application.UpgradeApply` | scripts/template_tools.py:134-179 | the apply, operation by operation with its exception handler, leaves exactly the specified files, lock and journal |
| `Upgrader.Application.UpgradeRollback` | scripts/template_tools.py:181-203 | the check loop and the restoring loop, in reverse order, compute the specified rollback; on failure lock and journals are untouched |
| `ReleaseVersions.ParseOfPrint` | scripts/release_version.py:48-50 | parsing the printed form of a well-formed version gives it back |
| `ReleaseVersions.PrintOfParse` | scripts/release_version.py:344-360 | printing what was parsed gives the stripped input back |
| `ReleaseVersions.AcceptedIff` | scripts/release_version.py:18-23 | a string is accepted exactly when its stripped form is the printed form of a well-formed version; the grammar itself is in the rows below |
| `VersionGrammar.ParseIff` | scripts/release_version.py:18-23 | a text is read as a version exactly when, stripped, it is that version written out: three numerals without superfluous zeros joined by dots, then nothing, or `-`, one of `alpha`, `beta`, `rc`, a dot and a positive numeral |
| `VersionGrammar.AcceptedIff` | scripts/release_version.py:18-50 | the accepted texts are exactly those |
| `VersionGrammar.NumeralIff` | scripts/release_version.py:18-23 | a numeral is the one string of digits without superfluous zeros that has the value, digit by digit |
| `VersionGrammar.Pep440Iff` | scripts/release_version.py:63-67 | the PEP 440 form is the three numerals with nothing, or `a`, `b` or `rc` and the ordinal, after them |
| `VersionGrammar.StripIff` | scripts/release_version.py:344-360 | stripping removes exactly the white space at both ends, code point by code point |
| `ReleaseVersions.Pep440IsInjective` | scripts/release_version.py:63-67 | two well-formed versions with the same PEP 440 form are equal |
| `StableProjection.RemaindersDetermine` | scripts/release_version.py:158-177 | documents equal without some fields, the second with a given value in all of them: the second is the first with the fields overwritten |
| `StableProjection.ProjectionIsReconstruction` | scripts/release_version.py:204-264 | a metadata document is accepted exactly when it is the base document with the version fields overwritten and the base had the old version there |
| `StableRelease.StableIsReconstruction` | scripts/release_version.py:286-341 | a stable candidate is accepted exactly when each metadata file is so reconstructed, every other executable path has an unchanged hash, and something changed |
| `StableStandard.StandardStableIff` | scripts/release_version.py:116-124 | for the repository: `frontend/package.json`, the lock file, `contracts/openapi.json` and `backend/pyproject.toml` are the base documents with their version fields rewritten, the last in PEP 440 form, every other source is as it was, and something changed |
| `StableStandard.VerdictIff` | scripts/release_version.py:286-341 | the verdict lists the changed paths in order, blames those outside the metadata or all of them, and lists the rewritten fields |
| `StableRelease.SameDocuments` | scripts/release_version.py:213-238 | the field loops with the removal of one field after the other compute the specified comparison |
| `StableRelease.CompareStableVersionProjection` | scripts/release_version.py:267-341 | the loops over changed paths and metadata files compute the specified verdict |
| `StableRelease.ProjectionIsUsable` | scripts/release_version.py:116-123 | the repository's version fields do not lead through one another |
| `ReleaseProgression.AllowedIffPolicy` | scripts/release_version.py:441-533 | a commit is allowed exactly when both versions are supported and the checked one, from VERSION or the command line, keeps version and source, or advances the ordinal with every skipped version in the log, or is a stable projection of its prerelease base, and a stable argument is the one in VERSION |
| `ReleaseProgression.ErrorIff` | scripts/release_version.py:441-533 | the check raises exactly when a version it needs is not supported: the checked one, the base, VERSION beside a stable argument, or one of the log when ordinals are skipped |
| `ReleaseProgression.ReportIff` | scripts/release_version.py:441-533 | the result names both versions in written form, says whether source changed, and its mode says how the step was judged |
| `ReleaseProgression.ArgumentIsTrusted` | scripts/release_version.py:448-467 | a version from the command line is compared with VERSION when it is stable, and never when it is a prerelease |
| `ReleaseProgression.PermittedIff` | scripts/release_version.py:404-533 | a tree checked by its VERSION text is permitted exactly when both texts, stripped, write versions that follow the policy |
| `ReleaseProgression.AncestorVersions` | scripts/release_version.py:418-427 | the loop over the log collects the specified versions and fails on the first invalid one |
| `ReleaseRuns.RunIsMonotone` | scripts/release_version.py:441-533 | along any run the version never decreases (SemVer 2.0.0 section 11), the train is fixed, the channel changes only to stable, nothing follows stable, and equal versions mean equal source hashes |
| `ReleaseRuns.NoOrdinalIsLost` | scripts/release_version.py:508-532 | every version between two commits of a run was carried by a commit or is in the VERSION ancestry of a step |
| `ReleaseRuns.StableEndsRun` | scripts/release_version.py:458-507 | a run ends at its stable commit, whose source is the last prerelease's with the version fields overwritten |
| `ReleaseRuns.TextsAreMonotone` | scripts/release_version.py:404-533 | the same along runs of trees: the versions their texts say never fall, and equal texts mean equal source |
| `TaskSchedule.FindCycle` | experience-lab/src/model.ts:32-34 | the visiting/done search reports a cycle exactly when the dependency relation has one |
| `TaskSchedule.CycleSearch.Visit` | experience-lab/src/model.ts:33 | one visit: true only with a cycle; otherwise the identifier and all it needs are done and `visiting` is as before |
| `TaskSchedule.ValidateTasks` | experience-lab/src/model.ts:23-35 | the error list is the specified one without repetitions |
| `ScheduleGuarantees.NoErrorsIffValid` | experience-lab/src/model.ts:23-35 | no errors exactly when identifiers are unique, tasks are named, dates are whole and within the horizon, progress is 0 to 100, and every dependency exists and ends in time |
| `ProblemReports.ScheduleProblemsIff` | experience-lab/src/model.ts:23-35 | every error of a schedule is reported exactly when its reason is there, with the names of the tasks concerned |
| `ScheduleGuarantees.CircularIff` | experience-lab/src/model.ts:34 | the circular-dependency error is reported exactly when there is a cycle |
| `ScheduleGuarantees.CycleIsRedundant` | experience-lab/src/model.ts:26-34 | when all other checks pass no cycle can exist |
| `ScheduleGuarantees.StartOrderIsTopological` | experience-lab/src/model.ts:30 | any arrangement of a valid schedule by start date puts prerequisites first |
| `ScheduleGuarantees.MoveTask` | experience-lab/src/model.ts:36-39 | a move succeeds exactly when the task exists and the moved schedule is valid, and returns that schedule |
| `ScheduleGuarantees.MoveAcceptedIff` | experience-lab/src/model.ts:36-39 | in a valid schedule a move changes the start and duration of its task and nothing else; only the moved task's dates, its prerequisites and its dependents decide |
| `Rack.ValidateRack` | experience-lab/src/model.ts:40-49 | the sweep over devices and units with the occupied set yields the specified error list |
| `Rack.NoProblemsIffValid` | experience-lab/src/model.ts:40-49 | no errors exactly when the capacity is sane, identifiers are unique, devices are in range, powered and pairwise disjoint, and within the power budget |
| `ProblemReports.RackProblemsIff` | experience-lab/src/model.ts:40-49 | every error of a rack is reported exactly when its reason is there, with the device or the unit concerned |
| `Rack.UnitsFit` | experience-lab/src/model.ts:46 | the devices of a valid rack never need more units than it has |
| `Rack.MoveDevice` | experience-lab/src/model.ts:50-52 | a move succeeds exactly when the device exists and the moved rack is valid |
| `Rack.MoveAcceptedIff` | experience-lab/src/model.ts:50-52 | in a valid rack the moved device must be in range and clear of the others; total units and watts are kept |
| `Floor.ValidateFloor` | experience-lab/src/manufacturing-model.ts:23 | the bounds loop and the nested pair loop yield the specified error list |
| `Floor.NoProblemsIffValid` | experience-lab/src/manufacturing-model.ts:23 | no errors exactly when every rectangle is in bounds and no two overlap |
| `ProblemReports.FloorProblemsIff` | experience-lab/src/manufacturing-model.ts:23 | every error of a floor is reported exactly when its reason is there, overlaps with the earlier rectangle first |
| `Floor.SharedPointIff` | experience-lab/src/manufacturing-model.ts:23 | the overlap test is the existence of a common interior point |
| `Packing.BoundedCarries` | experience-lab/src/manufacturing-model.ts:23 | weighted intervals with bounded weight at every point carry at most length times the bound |
| `Floor.AreasFit` | experience-lab/src/manufacturing-model.ts:23 | on real coordinates, the rectangles of a valid plan together cover no more than the floor |
| `Csv.ExportIsRead` | experience-lab/src/model.ts:57-58 | reading an export by section 2 of RFC 4180 gives back the six column names and, for each record, its identifier, title, owner, status, priority and update after neutralisation, with any quotes, commas and line breaks |
| `Csv.NoFormulaIsExported` | experience-lab/src/model.ts:57 | no exported cell looks like a formula; other cells are unchanged |
| `Csv.FormulaIff` | experience-lab/src/model.ts:57 | a cell looks like a formula exactly when a sign follows only white space |
| `Csv.ReadCell` | experience-lab/src/model.ts:57 | a written cell is read back as the neutralised text and nothing of what follows |
| `Traveler.TransitionIff` | experience-lab/src/manufacturing-model.ts:14-20 | in a reachable state only the first step that is not complete can move, from queued to running, from running to complete or hold, from hold to running, and only it changes |
| `Traveler.ReachableIsShaped` | experience-lab/src/manufacturing-model.ts:14-20 | every state reachable from all-queued distinct steps is a complete prefix, one running or held step at most, and a queued rest; completed steps never change |
| `Carrier.ValidateCarrier` | experience-lab/src/manufacturing-model.ts:2-6 | the loop over slots with its two sets yields the specified error list |
| `Carrier.NoProblemsIffValid` | experience-lab/src/manufacturing-model.ts:2-6 | no errors exactly when slots are in range and distinct, no wafer is in two, and a slot is empty just when it holds none |
| `ProblemReports.CarrierProblemsIff` | experience-lab/src/manufacturing-model.ts:2-6 | every error of a carrier is reported exactly when its reason is there |
| `Carrier.ReassignWafer` | experience-lab/src/manufacturing-model.ts:7-11 | a reassignment succeeds exactly when its checks pass and the moved carrier is valid with 25 slots |
| `Carrier.ReassignIsSwap` | experience-lab/src/manufacturing-model.ts:10 | in a valid carrier every move that passes the checks keeps validity, loses and duplicates nothing, and is undone by the move back |
| `Carrier.SourceIff` | experience-lab/src/manufacturing-model.ts:8-9 | the checks pass exactly when the source slot holds a wafer and the target exists and is empty |
| `Attachments.AttachmentService.Upload` | backend/app/platform/attachments.py:67-137 | the upload, call by call with its exception handlers, leaves exactly the specified objects, rows and reply |
| `AttachmentGuarantees.UploadedIff` | backend/app/platform/attachments.py:52-137 | an upload succeeds exactly when the actor may write in its own canonical tenant, the mode permits it with a real scanner where required, the record is active, name, type, size and signature are in order, the scan accepts where required, and neither store fails |
| `AttachmentGuarantees.RefusedWith` | backend/app/platform/attachments.py:52-137 | otherwise the error is the one of the first of these conditions that does not hold |
| `AttachmentGuarantees.FailureIsCompensated` | backend/app/platform/attachments.py:111-134 | a failed upload leaves no row, and its object only when the compensating delete raised |
| `AttachmentGuarantees.SuccessIsStored` | backend/app/platform/attachments.py:106-128 | a successful upload adds one object and one row that agree with the file |
| `AttachmentGuarantees.RunScansFirst` | backend/app/platform/attachments.py:96-112 | over any run, under `scanner_required` no object is put before the scanner returned exactly True |
| `AttachmentGuarantees.RunAgrees` | backend/app/platform/attachments.py:67-137 | after any run with any faults each upload is in both stores, in neither, or an orphan whose delete raised, and the stores hold nothing else |
| `AttachmentGuarantees.ReadIsFaithful` | backend/app/platform/attachments.py:140-148 | whatever the store answers, reading a kept attachment returns the uploaded bytes or an error |
| `AttachmentGuarantees.ReadIff` | backend/app/platform/attachments.py:140-148 | bytes are returned exactly when they come from the row or the store and have its size and digest; a failing store and wrong bytes are told apart |
| `EventLog.RunStore.AppendEvent` | scripts/work_qualification/store.py:137-160 | one event is appended with the next sequence number and the last hash, or nothing changes |
| `EventLog.RunStore.EventFingerprints` | scripts/work_qualification/store.py:162-173 | the loop collects the specified fingerprints, or fails on a line that is not an event |
| `EventLog.RunStore.SaveState` | scripts/work_qualification/store.py:131-135 | the state file is replaced only by an unapproved, safe state |
| `EventLog.RunStore.RunOnce` | scripts/work_qualification/engine.py:713-757 | a run saves the state when it changed and logs what was not yet logged, exactly as specified |
| `EventLogRuns.NextFollows` | scripts/work_qualification/store.py:137-157 | the first event is number 1 and follows sixty-four zeros, every other one has the next number and the hash of the event before it |
| `EventLogRuns.RunIff` | scripts/work_qualification/engine.py:713-759 | a run is refused without effect unless the stored state, and the new one if it has moved, approves nothing and is safe; it stores the new state exactly when that differs in more than its time, and logs what is found in the state then stored |
| `EventLogRuns.FindingsAreWritten` | scripts/work_qualification/engine.py:722-757 | what a run appends are events of its findings, each at most once, in their order, with their type, fields and fingerprint |
| `EventLogRuns.SafeRunIff` | scripts/work_qualification/engine.py:713-759 | on a chain, when nothing is unsafe, a run goes through exactly when the states allow it, and then every finding is in the log |
| `EventLogGuarantees.AppendKeepsChain` | scripts/work_qualification/store.py:137-157 | appending to a chain fails only for unsafe fields or an unsafe event, adds one event and alters none |
| `EventLogGuarantees.LastHashDetermines` | scripts/work_qualification/store.py:151-153 | two chains with the same last hash are the same chain |
| `EventLogGuarantees.LogFindingsKeeps` | scripts/work_qualification/engine.py:722-757 | on any chain, whatever it repeats already, one run keeps the chain and logs no fingerprint that is there or that it has just logged, also when an append raises, and otherwise logs every finding |
| `EventLogGuarantees.RepeatsIff` | scripts/work_qualification/engine.py:744-757 | a run logs such a fingerprint exactly when drills and evaluation share one that nothing before had |
| `EventLogGuarantees.HistoryKeeps` | scripts/work_qualification/engine.py:713-759 | over any history of runs and added references the log stays a chain, no event is altered, only references repeat fingerprints, and the stored state never approves production |
| `EventLogGuarantees.WrittenHistoryKeeps` | scripts/work_qualification/engine.py:713-759 | the same of every history whose findings are the records that runs write, when fingerprints of different records differ |
| `EventLogGuarantees.ReferenceRepeats` | scripts/work_qualification/cli.py:126-129 | adding the same reference twice does repeat one |
| `EventLogGuarantees.RerunIsIdle` | scripts/work_qualification/engine.py:713-757 | on any chain, running again on unchanged evaluation results appends nothing and leaves the state file as it is |

## Left out

- Change messages, report metadata fields and the command line of the API checker: they follow from the kind and
  place of each change.
- References into the inside of a component (`#/components/schemas/A/properties/b`) stay unresolved in the model;
  the code follows them.
- SchemaProperties.SelfComparisonIsSilent: its condition on request variants is sufficient; beyond it the schemas of
  properties named like documentation keywords meet every rule, so exactly when something is reported is what
  SchemaReport.WalkReports says.
- ContractIdentity.SelfComparisonPasses: likewise; SchemaConfusion.SelfComparisonCanFail has an input.
- ContractTravel.ModeIs: references in the content of a request body outside its schemas.
- SchemaDocument.SameIff: an empty `required` list reads as none, so a document that gains one is not told apart.
- ContractReportProof.ReportIff: which changes are reported, not how often; their order is the one of the specified
  loops (`ContractChecker.ContractChecker.CompareContracts`).
- A default written `2.0` is no integer for the checker; JSON numbers are reals in the model, which reads it as revision 2.
- `_metadata` accepts a path that ends in a line break after its major, which the model does not.
- TypeScriptSupport.CompilesIff: a schema that says nothing but `deprecated` is refused by the generator; the model has
  no such keyword and compiles it.
- Comparisons that raise in Python (enum values that cannot be put in a set, `<` between a number and a string)
  are not modelled as exceptions; keys with an explicit null, other than plain keywords, read as absent keys.
- SchemaChecker.Checker.CompareSchemas: Python shares one `id()` between equal `true`, `false` and null, so a second
  such pair is reported once by the code and once more by the model; which kinds of change are reported agrees.
- `oneOf` is read as "at least one", and schemas whose keywords do not have the shapes JSON Schema gives them
  (`SchemaConditions.Proper`) are outside the soundness results.
- SchemaLeniency.GrownAllOfIff: its condition on the added variants speaks of accepted values; the condition on their text
  is AnnotatedGrowthIsKept, which is sufficient.
- SchemaLeniency.BesideReferenceIff: its condition on what stands beside the reference speaks of accepted values; the
  condition on its text is BesideReferenceIsKept, which is sufficient.
- `if`/`then`/`else`, `patternProperties` and `prefixItems` are keywords like any other unwatched one: their values
  are compared as a whole, and references inside them are not followed.
- Printing of TypeScript text, `-Output` aliases, and the `OperationInputs` and `OperationOutputs` blocks of the
  generator: the model compiles to type terms; field order and text are left out.
- `_metadata` reads ASCII digits only in the model; the order of merged parameters is not modelled.
- Template upgrades: the file system is a map of regular files and a set of links; directories, permissions and
  temporary files are left out, `_atomic_bytes` takes effect or raises, and an asynchronous interruption between a
  file write and its journal append is excluded, as is a failure of the write in the exception handler.
- Upgrader.Application.UpgradeRollback: file operations of a rollback do not raise; what a stopped rollback leaves is
  stated by InterruptedRollbackIsRefused.
- Creating an application, the command line and the provenance lookups of the template tools.
- Git is modelled as the snapshots, logs and VERSION texts it returns; abbreviated or ambiguous base commits and
  `source_hashes` refusing symbolic links are left out. Reasons of verdicts are not modelled, and projected fields
  are listed in table order rather than sorted by label.
- `_remove_path` copies the document and deletes through a cursor; the model computes the resulting value, so the
  aliasing of cursor and copy is not captured.
- Numerals too long for `int()` in Python, which raise there.
- Artifact labels and release paths, which only print versions.
- Paging, line differences, statistics, control limits and graph validation of the engineering models: one-line
  expressions whose statements would repeat them.
- Error texts of the engineering validators: two different problems with the same text are kept apart in the model.
- Attachments: reading the request body, the registry and the audit event are inputs or left out; the transaction
  around the session is one flush that happens or does not.
- EventLog.RunStore.RunOnce: loading of identity probes and rendering of reports are not part of a run; a rendering
  that raises does so after everything modelled here.
- Event log: operating-system failures of the append itself, rendering of reports, and how an evaluation is computed,
  including the rule that blocks a phase behind an unproven one; a run takes the evaluated state and the
  observations read off a state as inputs.
