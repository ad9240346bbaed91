# Task-graph planning kernel: a verified model

The system turns an approved product manifest into a plan of tasks with dependencies, checks that plan several
times over, freezes it, and hands it to a runtime. Everything in between is about one kind of object, a finite
dependency graph, and about documents that carry it. This project models that kernel in Dafny and proves what its
parts promise:

* **Graph algorithms.** Wave layering, the critical path, four independently written cycle searches, the downstream
  closure and the propagation of blocking are methods over mutable state. They are proved against definitions stated
  without any algorithm: walks, reachability, chains, layerings, and the set of tasks from which a blocked one can be
  reached. `DependencyGraph.dfy` holds the shared theory.
* **The frozen plan.** What a clean validation guarantees for every run of the plan; when printing and re-reading it
  gives the identical document; and when the import verdict survives the trip. The redaction of remote URLs, which
  decides part of both, is taken apart to the character.
* **The canonical model and the evidence graph.** Index-based joins equal their relational meaning, a freshly built
  model is put through the separate validator, and the evidence graph's edges and traces are characterised exactly.
* **Reconciliation and normal forms.** Two plans reconcile exactly when they are alike up to order and provenance;
  manifest normalisation is idempotent and blind to key order exactly where it can be.
* **The generated tracker service.** A class over in-place tables; invariants over every sequence of calls, and for each
  call the rule by which it is accepted or refused.

What each part does is said twice where the code has branches and keys of its own: once as the code computes it, and once
on the bare records, with the keys, texts and fields written out and none of the code's helpers
(`PrintedDocument`, `DocumentSchema`, `RedactionPaths`, `ManifestForm`, `ManifestObjects`, `EvidenceMeaning`, `LineageFields`,
`CapabilityReferences`, `TrackerRules`). Lemmas show that the two say the same.

Ids and texts are strings with Python's ordering (`Order.dfy`), and documents keep the order of their keys wherever
the code shows one as text (`JsonValues.dfy`). Digests, `repr`, `str`, clocks, random ids, the password digest and the
text tests on commands and paths are parameters; where a result needs a digest to tell two
payloads apart, that is an explicit hypothesis (`NoCollision`, `TellsApart`, `Injective`).

## Results that are not what one would guess

* The three boolean cycle checks agree on edge lists whose endpoints are all tasks, and only nest otherwise;
  `CycleChecks.VerdictsDiffer` gives the inputs on which they differ.
* The print-and-read round trip of a frozen plan is exact if and only if its remote URL is none of those that a second
  redaction changes again, and no gate that goes before another by the text of its id has the greater text after
  redaction. Redaction changes the text of an object id in two ways: by masking a secret
  (`ExternalProjectDocument.MaskedIdMoves`) and, with no secret anywhere, by sorting its keys. The gates
  `{"id": {"b": 0, "a": 1}}` and `{"id": "{'a': 2}"}` change places that way (`ExternalProjectDocument.KeyOrderMoves`),
  and with them the document and the hashed payload.
* URL redaction is not idempotent: `a@b?token://c@d` becomes `a@b?<redacted>` and then `<redacted>@b?<redacted>`
  (`RemoteUrls.BareUserExample`). It happens exactly when a query or fragment that begins before the `://` is masked
  together with the user and leaves another user before it (`RemoteUrls.Unsettled`, `RemoteUrls.SettlesIff`).
* An importable plan can stop being importable by going through its document, in two ways only
  (`ExternalProjectVerdict.ImportableStays`). The URL `https://@host` has an empty user and passes the secret test, but is
  redacted to `https://<redacted>@host`, which does not. And redaction can change the set of the gates' id texts, or which
  gate counts for one; that a text moves is not enough, as `GateDefinitions.MovedTextKept` shows.
* In the canonical model the sources of declared objects are completed, but those of the evidence objects added in the
  same step are not: they dangle unless some declared object is or refers to the same source.
* The nodes of the evidence graph, unlike its edges, depend on the order of project memory exactly when two entries
  describe one node differently, as when one execution is recorded under two tasks.
* Because every list is sorted, plan reconciliation does not see a reordering of waves or of any other list; and the
  order of tasks matters exactly when two different tasks share an id.
* A rejected tracker call changes no table unless a drawn id is taken when something has been committed already: the id
  of the audit event, in any call that leaves one, or a project id for which the administrator was made a member
  beforehand. Both can be reached from an empty database (`TrackerTables.UserLeftBehind`, `TrackerTables.ProjectLeftBehind`);
  with fresh ids a rejected call changes nothing.
* The propagation of blocking ignores a dependency whose blocker text is listed from the start. Under the invariant
  that listed blockers mean a blocked task this makes no difference to the status.

## Model

| member | source | states |
|---|---|---|
| `ProductizationPlan.Waves` | src/ai_ent/productization_plan.py:772-784 | the loop ends; it fails exactly when a dependency is no task or the dependencies have a cycle, and otherwise yields a layering: sorted, disjoint waves covering all tasks, each task in the first wave after its dependencies |
| `ProductizationPlan.LayeringUnique` | src/ai_ent/productization_plan.py:772-784 | a plan has only one such layering |
| `ProductizationPlan.LastTaskCounts` | src/ai_ent/productization_plan.py:773 | of tasks sharing an id the last one counts, and the dependencies of the id are those it lists |
| `Order.StrLeMeaning` | src/ai_ent/productization_plan.py:777 | texts are sorted by their first difference, the smaller code point first, and a prefix goes before what continues it |
| `ProductizationPlan.LayeringAcyclic` | src/ai_ent/productization_plan.py:773-783 | a layering exists only for closed, acyclic dependencies |
| `ProductizationPlan.FewestWaves` | src/ai_ent/productization_plan.py:772-784 | any numbering that puts dependencies earlier uses at least as many waves, and puts no task earlier |
| `ProductizationPlan.WaveIsLongestChain` | src/ai_ent/productization_plan.py:772-784 | a task's wave number is the length of the longest dependency chain ending in it |
| `ProductizationPlan.PathSearch.PathTo` | src/ai_ent/productization_plan.py:791-799 | the memoised recursion ends and returns the greatest, by length and then lexicographically, of all chains to the task; the memo only ever holds such chains |
| `ProductizationPlan.CriticalPath` | src/ai_ent/productization_plan.py:787-802 | on a closed, acyclic plan it fails only when empty and otherwise returns a chain that no chain of the plan exceeds |
| `ProductizationPlan.CriticalUnique` | src/ai_ent/productization_plan.py:787-802 | there is only one such chain |
| `ProductizationPlan.CriticalMeaning` | src/ai_ent/productization_plan.py:802 | every other chain is shorter, or as long and has the earlier id where the two first differ |
| `ProductizationPlan.CriticalPathMeetsEveryWave` | src/ai_ent/productization_plan.py:772-802 | its length is the number of waves, and its i-th task lies in the i-th wave |
| `ProductizationPlan.PlanDag` | src/ai_ent/productization_plan.py:147-152 | called in the order of the evaluation, the two succeed together, exactly on non-empty, closed, acyclic plans, and fit each other |
| `ProductPlanAcceptance.CycleCheck.Visit` | src/ai_ent/product_plan_acceptance.py:666-677 | one visit either exhibits a cycle or clears the task and restores the path; cleared tasks stay closed and meet no cycle |
| `ProductPlanAcceptance.HasCycle` | src/ai_ent/product_plan_acceptance.py:658-679 | true exactly when the edges among the known tasks have a closed walk |
| `ProductPlanAcceptance.DownstreamOf` | src/ai_ent/product_plan_acceptance.py:646-654 | the worklist ends and has collected exactly the tasks that depend, in any number of steps, on the root |
| `ProductPlanAcceptance.Downstream` | src/ai_ent/product_plan_acceptance.py:640-655 | the same for every depended-on task, and for no other |
| `ProductPlanAcceptance.CycleIffDownstreamOfItself` | src/ai_ent/product_plan_acceptance.py:640-679 | with all endpoints known there is a cycle exactly when some task is downstream of itself |
| `ProductPlanAcceptance.DagIntegrity` | src/ai_ent/product_plan_acceptance.py:547-577 | passes exactly when there are no orphans, every endpoint is a task, and there is no cycle |
| `ProductPlanFinalAcceptance.CycleCheck.Visit` | src/ai_ent/product_plan_final_acceptance.py:481-493 | as in plan acceptance, on a graph that may lead outside the task set |
| `ProductPlanFinalAcceptance.HasCycle` | src/ai_ent/product_plan_final_acceptance.py:474-494 | true exactly when a cycle can be reached from some task |
| `ProductPlanFinalAcceptance.CycleInReachWhenKnown` | src/ai_ent/product_plan_final_acceptance.py:474-494 | with all endpoints known that is the same as having a cycle |
| `ProductPlanFinalAcceptance.DependencyGraphCheck` | src/ai_ent/product_plan_final_acceptance.py:348-353 | the dependency check passes exactly when there are the expected 51 edges, every endpoint is a task and there is no cycle |
| `ExternalProject.CycleCheck.Visit` | src/ai_ent/external_project.py:2183-2193 | as above, over the endpoints of the edges |
| `ExternalProject.HasDependencyCycle` | src/ai_ent/external_project.py:2175-2196 | true exactly when the edges have a closed walk |
| `CycleChecks.VerdictsNest` | src/ai_ent/product_plan_final_acceptance.py:474-494 | on any input, a cycle for plan acceptance is one for final acceptance, and that is one for the external project |
| `CycleChecks.VerdictsAgree` | src/ai_ent/external_project.py:2175-2196 | with all endpoints known the three definitions coincide |
| `CycleChecks.VerdictsDiffer` | src/ai_ent/product_plan_acceptance.py:658-679 | two edge lists, with an endpoint that is no task, on which neither converse holds |
| `CycleChecks.CheckThrice` | src/ai_ent/product_plan_acceptance.py:658-679 | the three methods themselves return one answer on such edge lists, the right one |
| `ManifestCycle.CycleSearch.Visit` | src/ai_ent/manifest_intake.py:358-371 | the path is always a walk without repeats; a visit returns a written-out simple cycle or clears the node |
| `ManifestCycle.Cycle` | src/ai_ent/manifest_intake.py:354-376 | a non-empty result exactly when there is a cycle, and then a simple one: first equals last, each step an edge, no other repeats |
| `CapabilityDependencies.Aliases` | src/ai_ent/manifest_intake.py:304-312 | the alias table in which the last item with an alias has it, and the ids by position |
| `CapabilityDependencies.AddReferences` | src/ai_ent/manifest_intake.py:268-275 | of one capability's references exactly the resolvable ones become edges, and the others and those to itself findings |
| `CapabilityDependencies.ValidateCapabilityDependencies` | src/ai_ent/manifest_intake.py:256-278 | the findings besides a cycle are exactly the warranted ones; a cycle is reported exactly when the resolved dependencies have one, and is simple |
| `CapabilityReferences.ResolveMeaning` | src/ai_ent/manifest_intake.py:304-340 | a reference means the id of the last item that goes by its slug: by its id, name, title or text; the id is the own one, else the slug of the name, else of the title, else a stand-in for the position |
| `CapabilityReferences.DependencyMeaning` | src/ai_ent/manifest_intake.py:268-275 | one id depends on another exactly when an item with the one id lists a reference that means the other |
| `CapabilityReferences.FindingMeaning` | src/ai_ent/manifest_intake.py:262-275 | which of the findings is warranted, told from the items: no list, a reference nobody goes by, a reference that means the item itself |
| `CapabilityDependencies.CleanIff` | src/ai_ent/manifest_intake.py:256-278 | no finding if and only if every dependency list is a list, every reference resolves and the dependencies are acyclic |
| `ExternalProject.ValidateTaskBindings` | src/ai_ent/external_project.py:1361-1418 | appends exactly the warranted findings: repeated ids, a mismatch with the plan, unknown dependencies, missing or secret-bearing commands, a cycle |
| `ExternalProject.CleanBindingsIff` | src/ai_ent/external_project.py:1361-1418 | no finding is warranted exactly when the tasks have different ids, which are those the plan lists once each, depend on tasks only, run every mandatory command and no secret one, are for the executor `codex`, and do not depend on each other in a circle |
| `ExternalProject.TaskEdgeMeaning` | src/ai_ent/external_project.py:324-331 | the dependency edges are those of some task to an id it names |
| `ExternalProject.NeverStuck` | src/ai_ent/external_project.py:2175-2196 | in a closed, acyclic task set some uncompleted task is ready, whatever has been completed |
| `ExternalProject.RunContinues` | src/ai_ent/external_project.py:1361-1418 | every partial run that has not finished can be continued |
| `ExternalProject.RunFinishes` | src/ai_ent/external_project.py:1361-1418 | every partial run extends to one that completes all tasks |
| `ExternalProject.CompleteRunIffFeasible` | src/ai_ent/external_project.py:1361-1418 | a complete run exists if and only if the dependencies are closed and acyclic |
| `ExternalProject.CleanBindingsComplete` | src/ai_ent/external_project.py:1361-1418 | a plan without binding findings never gets stuck: any run has at most as many steps as tasks, goes on until it has all of them, and then has completed exactly the plan's tasks |
| `ExternalProjectDocument.PrintedPlanReads` | src/ai_ent/external_project.py:991-1244 | the reader accepts a printed plan exactly when its required texts are not empty, and yields the plan with sorted lists, redacted values and explicit hashes |
| `ExternalProjectDocument.PrintedRecordReads` | src/ai_ent/external_project.py:991-1002 | so it does with any record that holds the printed plan under `frozen_plan`, whatever its other keys |
| `PrintedDocument.FrozenPlanPrinted` | src/ai_ent/external_project.py:337-360 | the printed document key by key, with its keys and fixed texts written out: every field of the plan under its key, lists in order, secrets masked, every listed dependency as a pair, and each hash over the payload as printed without it |
| `PrintedDocument.TaskPrinted` | src/ai_ent/external_project.py:272-310 | the same of a task |
| `PrintedDocument.ProjectPrinted` | src/ai_ent/external_project.py:379-409 | the same of the project with its workspace, repository, plan, binding and artifacts |
| `DocumentSchema.FrozenPlanRead` | src/ai_ent/external_project.py:991-1020 | reading yields a plan exactly when the document describes it, key by key with the keys and the defaults for absent ones written out; any other document is refused |
| `ExternalProjectDocument.DependencyEdgesSame` | src/ai_ent/external_project.py:324-331 | re-sorting tasks and their dependencies leaves the listed edges as they were |
| `ExternalProjectDocument.RoundTrip` | src/ai_ent/external_project.py:340-359 | printing, reading and printing again gives the identical document if and only if the remote URL is not an unsettled one and no gate that goes before another by its id text has the greater text after redaction; then the frozen hash is the same |
| `ExternalProjectDocument.RemoteSettles` | src/ai_ent/external_project.py:123-133 | redacting the remote URL twice is redacting it once exactly when it is null or not an unsettled one |
| `ExternalProjectDocument.StableTextsStayOrdered` | src/ai_ent/external_project.py:340-359 | gates whose id texts redaction leaves alone stay in order |
| `ExternalProjectDocument.PlainGatesStayOrdered` | src/ai_ent/external_project.py:340-359 | as those do whose ids are neither objects nor lists |
| `ExternalProjectDocument.MaskedIdMoves` | src/ai_ent/external_project.py:2114-2126 | a family of gates that do not: masking a secret in an object id moves the gate |
| `ExternalProjectDocument.KeyOrderMoves` | src/ai_ent/external_project.py:2114-2126 | two gates without any secret that do not: redaction sorts the keys of an id, and the text it is sorted by changes |
| `ExternalProjectDocument.KeyOrderBreaksRoundTrip` | src/ai_ent/external_project.py:340-359 | a plan with those two gates gets another document, and another payload to hash, when it is read back |
| `RemoteUrls.SettlesIff` | src/ai_ent/external_project.py:2078-2106 | for every URL and every marker test, a second redaction changes something exactly for the unsettled URLs, told from the URL: a query or fragment that begins before the `://` is marked, and what stands before it has a user that is not just a mask at the front, or is followed by an unmarked fragment with a `://` of its own |
| `RemoteUrls.UnsettledScheme` | src/ai_ent/external_project.py:2078-2106 | only URLs whose text before `://` holds an `@` together with a `?` or `#` can be unsettled |
| `RemoteUrls.UnsettledQuery` | src/ai_ent/external_project.py:2078-2106 | the condition for a query that runs from the scheme into the authority, with no fragment: it is marked and the text before it has a bare user |
| `RemoteUrls.BareUserExample` | src/ai_ent/external_project.py:2078-2106 | `a@b?token://c@d` is such a URL, and its second redaction differs from the first |
| `RemoteUrls.RedactTailIdempotent` | src/ai_ent/external_project.py:2094-2106 | masking the query and the fragment is idempotent |
| `RemoteUrls.RedactedWithUser` | src/ai_ent/external_project.py:2081-2091 | of a URL with a separator and an `@` the mask and what follows the last `@` of the rest are left, before the query and the fragment are masked |
| `RemoteUrls.RedactedWithoutSeparator` | src/ai_ent/external_project.py:2081-2091 | a text without separator keeps what follows its last `@`, behind the mask |
| `RemoteUrls.RedactedWithoutUser` | src/ai_ent/external_project.py:2081-2083 | a text without `@` has its query and fragment masked and nothing else |
| `RemoteUrls.TailRedacted` | src/ai_ent/external_project.py:2094-2106 | a marked query becomes the mask and so does a marked fragment; anything else stays |
| `RemoteSecrets.MarkersSeparable` | src/ai_ent/external_project.py:2109-2111 | the code's marker test finds nothing across a space, `?` or `#`, and nothing in the empty text, the mask or the keys gates are read by |
| `RemoteSecrets.MarkedAround` | src/ai_ent/external_project.py:2109-2111 | it marks a text around a masked user exactly when it marks the text before the `://` or after the `@` |
| `RemoteSecrets.SecretRedacted` | src/ai_ent/external_project.py:1633-1643 | the secret test rejects a redacted URL exactly when the URL is one of the web and holds an `@`, or a marker between a `#` and a later `?` |
| `RemoteSecrets.CleanOnceRedacted` | src/ai_ent/external_project.py:1633-1643 | a URL that passes the test fails it after redaction exactly when it is one of the web with an `@` |
| `RemoteSecrets.MarkedIff` | src/ai_ent/external_project.py:2109-2111 | a text is marked exactly when one of six words is spelled in it, in either case and with `-` for `_` |
| `RemoteSecrets.SecretRule` | src/ai_ent/external_project.py:1633-1643 | a URL with a separator is secret exactly when its scheme is one of the web and it names a user or has a marked query or fragment |
| `RemoteSecrets.NoSecretWithoutSeparator` | src/ai_ent/external_project.py:1633-1643 | and no other text is |
| `JsonValues.RedactIdempotent` | src/ai_ent/external_project.py:2114-2126 | structural redaction of nested values is idempotent |
| `RedactionPaths.RedactionMasks` | src/ai_ent/external_project.py:2121-2126 | by paths through objects and lists: at the first secret key of a path stands the mask, with nothing below it, and along a path without one the shape, the keys and the leaves are those of the value |
| `RedactionPaths.MappingMasks` | src/ai_ent/external_project.py:2114-2118 | the same for the mappings that printing redacts |
| `RedactionPaths.SecretFieldIff` | src/ai_ent/external_project.py:2129-2138 | the secret-field check says yes exactly when a path through objects, and lists directly in them, ends in a secret key |
| `JsonValues.RedactionKeepsSecretFields` | src/ai_ent/external_project.py:2129-2138 | redaction hides values and not keys: the secret-field check sees the same afterwards |
| `ExternalProjectVerdict.FindingsSame` | src/ai_ent/external_project.py:1361-1418 | each task-binding finding is warranted for the re-read plan exactly when it is for the plan |
| `ExternalProjectValidation.ValidateFrozenPlan` | src/ai_ent/external_project.py:936-960 | the validators, run one after the other, report exactly what is to be reported, each report told from the fields of the plan |
| `ExternalProjectValidation.NoReportIffImportable` | src/ai_ent/external_project.py:936-960 | and nothing is reported exactly when the plan is importable |
| `ExternalProjectVerdict.VerdictReadBack` | src/ai_ent/external_project.py:919-960 | the import verdict on the re-read plan in terms of the plan before, for all gates and URLs: the other checks are unchanged, and the gates' and the URL's are told from the plan that was printed |
| `ExternalProjectVerdict.VerdictSurvives` | src/ai_ent/external_project.py:919-960 | the verdict on the re-read plan is the verdict on the plan if and only if gates and URL, judged from the plan, pass together after as before, or another check fails anyway |
| `ExternalProjectVerdict.ImportableStays` | src/ai_ent/external_project.py:919-960 | an importable plan stays importable if and only if redaction keeps the set of its gates' id texts, the gates that then count name tasks, and its URL is none of the web with an `@` |
| `GateDefinitions.GatesReadBack` | src/ai_ent/external_project.py:1421-1467 | the gate check on the re-read plan, for any gates: the redacted id texts are the required gates, and under each the gate that sorting by the text before puts last names, redacted, a task |
| `GateDefinitions.DefinitionsNameTasks` | src/ai_ent/external_project.py:1442-1467 | the definitions the check looks at are those that no later one shares its id text with |
| `GateDefinitions.UnmovedGates` | src/ai_ent/external_project.py:1421-1467 | gates whose `id` and `task_id` texts redaction leaves alone are judged as before |
| `GateDefinitions.PlainGateTextsStay` | src/ai_ent/external_project.py:2114-2126 | as it does when these are neither objects nor lists |
| `GateDefinitions.MovedTextKept` | src/ai_ent/external_project.py:1442-1446 | several gates can keep the required set although a text moves: two others have its old and its new text |
| `GateDefinitions.MovedIdUndefined` | src/ai_ent/external_project.py:1421-1467 | a single gate whose id text redaction changes is not the required one any more |
| `SortPlaces.SortPlaces` | src/ai_ent/external_project.py:340-359 | the stable sort takes the places of a list in the order of precedence: by key, ties by position |
| `SortPlaces.LastSorted` | src/ai_ent/external_project.py:1442-1446 | which element is the last under its key in a sorted list, told from the list before |
| `ProductFeasibility.BlockedIffCauseReached` | src/ai_ent/product_feasibility.py:575-616 | from evaluation to the end: a task ends blocked exactly when it has, or reaches through dependencies a task that has, listed blockers or a prohibited policy; any other waits for approval when its policy says so, and else is feasible, with conditions exactly when it has any |
| `ProductFeasibility.PropagateDependencyBlocking` | src/ai_ent/product_feasibility.py:590-616 | the loop ends on every input, cyclic ones included; it fails exactly when a dependency has no contract, and otherwise every contract is in its final state, in order of id |
| `ProductFeasibility.LastCounts` | src/ai_ent/product_feasibility.py:593 | of contracts sharing a task id the last one counts |
| `ProductFeasibility.BlockedIffDependsOnBlocked` | src/ai_ent/product_feasibility.py:590-616 | a task ends blocked exactly when it was, or reaches through dependencies one that was |
| `ProductFeasibility.FinalBlockersExact` | src/ai_ent/product_feasibility.py:597-610 | its blockers are the initial ones and one text per direct dependency that ends blocked, without repeats, sorted when any was added; nothing else of the contract changes |
| `CanonicalModel.CanonicalObjects` | src/ai_ent/canonical_project_model.py:226-290 | the loops produce exactly the declared objects, completed by the sources and evidence they refer to, each once per occurrence, in order of kind and id |
| `ManifestObjects.ObjectsExact` | src/ai_ent/canonical_project_model.py:226-290 | an object is there exactly when it records an entry of the manifest under its kind and native id, or completes one: a source that is named and not declared, or an evidence under its name with the text before its colon as source |
| `ManifestObjects.ObjectsInOrder` | src/ai_ent/canonical_project_model.py:290 | objects go by the name of their kind and then by id |
| `ManifestObjects.KindNames` | src/ai_ent/canonical_project_model.py:232-290 | the names of the kinds, which sorting uses |
| `CanonicalModel.SourcesCompleted` | src/ai_ent/canonical_project_model.py:270-290 | every source a declared object refers to is an object |
| `CanonicalModel.SourceObjectsExact` | src/ai_ent/canonical_project_model.py:270-290 | there are no other source objects than the declared ones and those |
| `CanonicalModel.EvidenceCompleted` | src/ai_ent/canonical_project_model.py:270-290 | every evidence reference of a declared object becomes an object, with the text before its colon as its source |
| `CanonicalModel.EvidenceSourceDangles` | src/ai_ent/canonical_project_model.py:270-290 | the source of an evidence object is missing exactly when no declared object is it or refers to it |
| `CanonicalRelationships.IdsByKey` | src/ai_ent/canonical_project_model.py:570-608 | each of the three index builders maps a key to exactly the ids of the items that carry it |
| `CanonicalRelationships.JoinsAreRelational` | src/ai_ent/canonical_project_model.py:417-488 | the indexed joins equal the relations on the items' own fields: components with a capability of the requirement as one of theirs or their main one, interfaces with either end at such a component, gates with a source of the requirement |
| `CanonicalRelationships.Requests` | src/ai_ent/canonical_project_model.py:360-510 | the builder's loops ask for exactly the wanted relationships of every kind |
| `CanonicalRelationships.CollectRelationships` | src/ai_ent/canonical_project_model.py:327-354 | it stores a record for each wanted relationship whose ends are objects, under the digest of its key, and no other |
| `CanonicalRelationships.BuiltExactly` | src/ai_ent/canonical_project_model.py:327-541 | if no two wanted keys share a digest, the listed relationships are exactly those between existing objects that the items' fields ask for, kind by kind |
| `CanonicalRelationships.WantedIsAskedFor` | src/ai_ent/canonical_project_model.py:360-510 | which relationships are wanted, told from the fields of the items for each kind by itself |
| `CanonicalRelationships.ListedRecord` | src/ai_ent/canonical_project_model.py:513-541 | a listed relationship stands under the digest of what it says and names the native ids of its ends |
| `CanonicalRelationships.ListedInOrder` | src/ai_ent/canonical_project_model.py:510 | relationships are listed by id, none twice |
| `DeterministicValidator.BuildModel` | src/ai_ent/canonical_project_model.py:202-223 | the built model: objects and relationships as above, hashed as a whole |
| `DeterministicValidator.ValidateModelHashes` | src/ai_ent/deterministic_validator.py:260-291 | reports exactly the hashes and ids, of objects, relationships, relationship payloads and the model, that differ from the recomputed ones |
| `DeterministicValidator.HashesPassIff` | src/ai_ent/deterministic_validator.py:260-291 | nothing is reported exactly when every payload, the model and every relationship, with its provenance in order, stands under its own digest |
| `DeterministicValidator.FreshHashesPass` | src/ai_ent/deterministic_validator.py:492-512 | a freshly built model has none |
| `DeterministicValidator.ValidateRelationships` | src/ai_ent/deterministic_validator.py:294-354 | reports exactly the repeated ids, missing or misnamed ends, and active requirements without a source or capability trace |
| `DeterministicValidator.FailsIffFaulty` | src/ai_ent/deterministic_validator.py:294-354 | a failure is reported exactly when it is a fault of the records: an id occurs twice, an end is no object or not under its native id, or an active requirement has no relationship of the kind |
| `DeterministicValidator.ExpectedIdMeaning` | src/ai_ent/deterministic_validator.py:504-512 | the expected id of a relationship is the digest of its kind, ends and provenance |
| `DeterministicValidator.FreshEndpointsPass` | src/ai_ent/deterministic_validator.py:294-354 | on a freshly built model only a repeated object id or a missing trace can be reported |
| `DeterministicValidator.SourceTraceExact` | src/ai_ent/deterministic_validator.py:515-524 | there the source trace of a requirement is there exactly when it lists a source |
| `DeterministicValidator.CapabilityTraceExact` | src/ai_ent/deterministic_validator.py:515-524 | and the capability trace exactly when it lists a capability that exists |
| `DeterministicValidator.FreshVerdict` | src/ai_ent/deterministic_validator.py:294-354 | so a freshly built model passes if and only if object ids are distinct and every active requirement has a source and an existing capability |
| `EvidenceGraph.Builder.AddEdge` | src/ai_ent/knowledge_graph.py:990-1017 | keeps the edge table indexed: ids are the digests of the edges asked for, and each stored edge is one of them |
| `EvidenceGraph.Builder.AddEntry` | src/ai_ent/knowledge_graph.py:733-826 | the first pass over an entry asks for its own edges and nodes and records the requirements it binds |
| `EvidenceGraph.Builder.AddRequirementEdges` | src/ai_ent/knowledge_graph.py:929-961 | the second pass asks for the edges to all requirements bound to the entry's task |
| `EvidenceGraph.BuildArtifactEvidenceGraph` | src/ai_ent/knowledge_graph.py:562-657 | the result lists, by id, an edge table indexed over the wanted edges, which are defined from the set of entries, and the nodes for which the first description counts |
| `EvidenceGraph.ListingMeaning` | src/ai_ent/knowledge_graph.py:628-629 | a listing holds every entry of its table once, by id |
| `EvidenceMeaning.LinksExact` | src/ai_ent/knowledge_graph.py:829-887 | from a task an edge of each of the four kinds leads to a requirement, capability, component or interface exactly when a binding entry of the task lists it under that very key |
| `EvidenceMeaning.ArtifactsExact` | src/ai_ent/knowledge_graph.py:733-826 | records, artifacts and executions: kind, source and target of every such edge, exactly when an entry has those ids |
| `EvidenceMeaning.GatesAndEvidenceExact` | src/ai_ent/knowledge_graph.py:890-961 | gates, their artifacts, and the evidence and gating of requirements, likewise, by what the entries of the task list |
| `EvidenceMeaning.StoredIffAsked` | src/ai_ent/knowledge_graph.py:562-657 | when the digest tells edges apart, every stored edge, whole, is one that some entry asks for by its fields, and every such one is stored |
| `EvidenceMeaning.NodesExact` | src/ai_ent/knowledge_graph.py:733-987 | a node is stored exactly when it is the first description under its id, of the canonical nodes, the project and then the entries in order |
| `EvidenceGraph.GraphEdgesIgnoreOrder` | src/ai_ent/knowledge_graph.py:600-629 | any order of the entries gives the same edge and node ids, and the same edges when the digest tells the wanted ones apart |
| `EvidenceGraph.EvidenceExactlyOnce` | src/ai_ent/knowledge_graph.py:829-961 | an entry has exactly one evidence edge for each requirement bound to its task, by whichever entry, before or after it, and none else |
| `EvidenceGraph.GatesExactlyOnce` | src/ai_ent/knowledge_graph.py:949-960 | likewise a human-gate entry and its gating edges |
| `EvidenceGraph.NodesIgnoreOrderIffAgree` | src/ai_ent/knowledge_graph.py:964-987 | the stored nodes are the same for every order of the entries if and only if no two entries describe a new node differently |
| `EvidenceGraph.ExecutionUnderTwoTasksDisagrees` | src/ai_ent/knowledge_graph.py:777-790 | one execution recorded under two tasks is such a disagreement |
| `EvidenceGraph.BoundOfMeaning` | src/ai_ent/knowledge_graph.py:829-961 | a requirement counts for an entry exactly when some entry lists it for the same task |
| `EvidenceTrace.Expand` | src/ai_ent/knowledge_graph.py:406-415 | one round adds the edges at the frontier and their ends, and the next frontier is what was new |
| `EvidenceTrace.TraceForRequirement` | src/ai_ent/knowledge_graph.py:397-424 | in the order of the graph, exactly the nodes at undirected distance at most two, and the edges that share an id with one at a node of distance at most one; with distinct edge ids, exactly the edges at such a node; the requirement's prefix is added when missing |
| `EvidenceTrace.FilteredMembers` | src/ai_ent/knowledge_graph.py:416-417 | what such a selection contains |
| `EvidenceTrace.BoundEvidenceIsTraced` | src/ai_ent/knowledge_graph.py:397-424 | in a built graph, tracing a requirement reaches the artifact of every entry of a task it is bound to |
| `PlanProjection.SameFormIffAlike` | src/ai_ent/product_dry_run.py:664-676 | two values have one normal form if and only if they are alike but for provenance fields and the order of list members, at any depth |
| `PlanProjection.EqualSameForm` | src/ai_ent/product_dry_run.py:664-676 | values Python finds equal, whatever the order of their keys, have one normal form |
| `LineageReconciliation.SemanticValue` | src/ai_ent/product_dry_run.py:635-641 | the loop follows the path and ends with nothing at the first value that is no mapping |
| `LineageReconciliation.LineageReconciliation` | src/ai_ent/product_dry_run.py:533-632 | the recorded differences, their order and classes, the sorted list of classes and both hashes; passes exactly when none is material |
| `LineageReconciliation.TasksImplyEdges` | src/ai_ent/product_dry_run.py:644-661 | plans whose tasks reconcile have the same recomputed dependency edges |
| `LineageReconciliation.PassIffSame` | src/ai_ent/product_dry_run.py:562-632 | on well-formed plans it never raises, and passes exactly when every field but the edges has one normal form |
| `LineageReconciliation.PassIsEquivalence` | src/ai_ent/product_dry_run.py:562-632 | passing is reflexive, symmetric and transitive on them |
| `LineageFields.PassIffAlike` | src/ai_ent/product_dry_run.py:562-676 | when ids tell tasks apart and values print differently, it passes if and only if the tasks pair up as alike, a missing gate counting as a null one, the waves, human gates and risk distribution of the two task graphs are alike, and so is each of the twelve top-level sections, every key written out |
| `LineageFields.ReportKeyByKey` | src/ai_ent/product_dry_run.py:562-611 | what is reported for each of the seventeen keys: nothing when the two values are equal, a difference of form when they are alike, and else one of the class that belongs to the key |
| `LineageFields.SameIsAlike` | src/ai_ent/product_dry_run.py:583-585 | values that are equal under a key are alike, so a material difference is always one of the values as written |
| `LineageFields.EverythingListed` | src/ai_ent/product_dry_run.py:540-619 | besides those, the plan hash by its text, baseline and evidence by equality, and an accepted decision, and nothing else |
| `LineageFields.EverythingInPlace` | src/ai_ent/product_dry_run.py:540-618 | in a fixed order of labels, each at most once |
| `LineageFields.MaterialCounted` | src/ai_ent/product_dry_run.py:620-631 | the material count is the number of differences of the four material classes |
| `LineageFields.ClassificationNames` | src/ai_ent/product_dry_run.py:628 | the classification holds the name of each class that occurs, and no other |
| `LineageFields.RaisesIff` | src/ai_ent/product_dry_run.py:644-661 | for any two plans: it raises exactly when the task lists differ as written and one holds something that is no mapping, or the edge lists differ and the edges of one plan cannot be told from its tasks, or not sorted |
| `LineageFields.EdgeMeaningsSame` | src/ai_ent/product_dry_run.py:645-650 | the recomputed edges of two plans are one exactly when every task id lists everything equally often |
| `LineageReconciliation.TaskOrderIrrelevantIff` | src/ai_ent/product_dry_run.py:652-661 | the order of the tasks never matters if and only if no two different tasks share an id |
| `ManifestNormalize.NormalizeKeyIdempotent` | src/ai_ent/manifest_intake.py:407-410 | the five rewriting steps together are idempotent |
| `ManifestNormalize.NormalizedKeySettled` | src/ai_ent/manifest_intake.py:407-410 | a rewritten key has no blank ends, dashes, spaces, capitals or double underscores |
| `ManifestForm.KeyFormIff` | src/ai_ent/manifest_intake.py:407-410 | the rewritten key is what one pass over the stripped key yields: one underscore for a run of separators, and before a capital, made small, that neither follows one nor comes first |
| `ManifestNormalize.NormalizeIdempotent` | src/ai_ent/manifest_intake.py:393-404 | normalising is idempotent on documents nested to any depth |
| `ManifestForm.FormOfIff` | src/ai_ent/manifest_intake.py:393-404 | the normal form is the only document that has stripped texts, the forms of list members in place and, under ascending keys, for each rewritten key the form of the last value given for it |
| `ManifestNormalize.NormalKeys` | src/ai_ent/manifest_intake.py:393-399 | a normalised mapping has strictly ascending keys: the rewritten keys that had a value |
| `ManifestNormalize.RebuildMeaning` | src/ai_ent/manifest_intake.py:393-399 | under each key stands the last value, in document order, whose key rewrites to it |
| `ManifestNormalize.KeyOrderIrrelevantIff` | src/ai_ent/manifest_intake.py:393-399 | the order of sibling keys never matters if and only if siblings that rewrite alike have equal values |
| `ManifestNormalize.NormalFormIgnoresKeyOrder` | src/ai_ent/manifest_intake.py:393-404 | without clashing siblings the normal form ignores key order at every depth |
| `ManifestNormalize.HashIgnoresKeyOrder` | src/ai_ent/manifest_intake.py:122-126 | and so does the manifest hash, which normalises twice |
| `TrackerTables.RunSound` | src/ai_ent/e2e_application_proof.py:1512-1725 | over every sequence of calls, with any ids drawn: users exist only beside an administrator, user names are unique, sessions and audit actors are users, memberships and event ids are distinct, every status is one of three |
| `TrackerTables.RunKeepsRows` | src/ai_ent/e2e_application_proof.py:1512-1725 | over every run users, projects and memberships are never changed or removed, tasks never removed, and a task never changes its project |
| `TrackerTables.RejectedChangesNothing` | src/ai_ent/e2e_application_proof.py:1529-1687 | a rejected call changes a table if and only if a drawn id is taken after a commit: an audit id, or a project id with a membership, told from the tables and the call beforehand |
| `TrackerTables.FreshIdsRejectCleanly` | src/ai_ent/e2e_application_proof.py:1529-1687 | with fresh ids a rejected call changes nothing |
| `TrackerTables.ProjectLeftBehind` | src/ai_ent/e2e_application_proof.py:1565-1589 | from the empty database: a project whose administrator was added to its id beforehand is rejected and stays |
| `TrackerTables.UserLeftBehind` | src/ai_ent/e2e_application_proof.py:1548-1563 | from the empty database: a user is rejected and stays when the id of its event is taken |
| `TrackerTables.FirstUserLogsIn` | src/ai_ent/e2e_application_proof.py:1529-1534 | the first bootstrap is always accepted: the password fits the hash just stored |
| `TrackerRules.LoginRule` | src/ai_ent/e2e_application_proof.py:1536-1542 | in sound tables a login is accepted exactly when a user of that name has the digest the password derives to under its salt and the token is free, and changes nothing but the session; otherwise it is a permission error, or an integrity error for a token in use |
| `TrackerRules.BootstrapRule` | src/ai_ent/e2e_application_proof.py:1529-1534 | with an administrator there, a bootstrap ends the same way |
| `TrackerRules.FirstBootstrapRule` | src/ai_ent/e2e_application_proof.py:1529-1534 | and without one it makes the first, whose session is the only one |
| `TrackerRules.PasswordStands` | src/ai_ent/e2e_application_proof.py:1536-1563 | after any run a user created with one password logs in with another exactly when both derive to one digest under the stored salt |
| `TrackerRules.LogoutRule` | src/ai_ent/e2e_application_proof.py:1544-1546 | logging out takes away that session alone |
| `TrackerRules.CreateUserRule` | src/ai_ent/e2e_application_proof.py:1548-1563 | who may create a user, each refusal in order, the row and the event, in terms of the tables |
| `TrackerRules.CreateProjectRule` | src/ai_ent/e2e_application_proof.py:1565-1576 | the same for a project with its first member |
| `TrackerRules.AddMemberRule` | src/ai_ent/e2e_application_proof.py:1578-1589 | the same for a membership, which may be there already |
| `TrackerRules.CreateTaskRule` | src/ai_ent/e2e_application_proof.py:1591-1615 | the same for a task, with each default and each missing or null field of the body |
| `TrackerRules.UpdateTaskRule` | src/ai_ent/e2e_application_proof.py:1617-1632 | the same for a change, which keeps every column the body does not name |
| `TrackerTables.AuditGrows` | src/ai_ent/e2e_application_proof.py:1683-1687 | an accepted create_user, create_project, add_member, create_task or effective update_task appends exactly its event; no other call touches the trail |
| `TrackerTables.RunAudit` | src/ai_ent/e2e_application_proof.py:1683-1687 | over a run the trail is only extended, once for each such call |
| `TrackerTables.OnlyMembersTouchTasks` | src/ai_ent/e2e_application_proof.py:1591-1632 | a task row appears or changes only through a call about it by an administrator or a member of its project |
| `TrackerTables.OnlyAdminsGrow` | src/ai_ent/e2e_application_proof.py:1529-1589 | users, projects and memberships appear only through administrators, or the first bootstrap |
| `TrackerTables.LastWriteStands` | src/ai_ent/e2e_application_proof.py:1591-1632 | after any run, a column of a task holds what the last call that took hold and named it wrote, on creation with the defaults; a call rejected only for the id of its event takes hold too |
| `TrackerTables.StatusesAddUp` | src/ai_ent/e2e_application_proof.py:1669-1676 | in sound tables the visible tasks are those of the three statuses added up |
| `TeamWorkTracker.TeamWorkTrackerService.BootstrapAdmin` | src/ai_ent/e2e_application_proof.py:1529-1534 | creates the first administrator and logs in, or only logs in; keeps the tables sound |
| `TeamWorkTracker.TeamWorkTrackerService.LogOut` | src/ai_ent/e2e_application_proof.py:1544-1546 | drops the session: its token opens nothing any more, and every other token what it opened before |
| `TeamWorkTracker.TeamWorkTrackerService.NewUser` | src/ai_ent/e2e_application_proof.py:1548-1563 | one row and one event, or a rejection, which leaves the row when only the event collides |
| `TeamWorkTracker.TeamWorkTrackerService.NewMember` | src/ai_ent/e2e_application_proof.py:1578-1589 | the same for a membership |
| `TeamWorkTracker.TeamWorkTrackerService.NewProject` | src/ai_ent/e2e_application_proof.py:1565-1576 | the in-place inserts amount to the specified effect, also when the second one is rejected |
| `TeamWorkTracker.TeamWorkTrackerService.AddTask` | src/ai_ent/e2e_application_proof.py:1591-1615 | every check in order, then one row and one event |
| `TeamWorkTracker.TeamWorkTrackerService.ChangeTask` | src/ai_ent/e2e_application_proof.py:1617-1632 | only the updatable columns named in the body change, and only after every check |
| `TeamWorkTracker.TeamWorkTrackerService.ListTasks` | src/ai_ent/e2e_application_proof.py:1654-1667 | exactly the visible tasks of the asked status, each once although the rows come from a join, newest first |
| `TeamWorkTracker.TeamWorkTrackerService.ListProjects` | src/ai_ent/e2e_application_proof.py:1634-1641 | exactly the visible projects, each once, by name |
| `TeamWorkTracker.TeamWorkTrackerService.Dashboard` | src/ai_ent/e2e_application_proof.py:1669-1676 | the counts are those of the visible rows, and the total is the sum of the three |

## Left out

- HasMarker: lower-cases ASCII letters only; results about documents are stated for any marker test, those about the import verdict for any that is `Separable`.
- EvidenceExactlyOnce: assumes distinct memory ids and an edge digest that tells the wanted edges apart; without the latter an edge can be shadowed by another with its id.
- FreshVerdict: assumes that no two wanted relationships share a digest; with a collision a trace can be overwritten.
- HashIgnoresKeyOrder: covers reordered keys only; other changes that leave the normal form alone are not characterised.
- Digests: SHA-256, its truncation to 32 characters and the canonical encoding are parameters. The encoding drops null fields and strips strings, so real digests do tell fewer payloads apart than the hypotheses ask.
- Path and command tests, the password digest, UUIDs and clocks are parameters too.
- Texts of findings and reasons: findings are structured values with the ids they mention.
- ValidateFrozenPlan: keeps the reports as a set; that they are listed in order of their finding ids is not modelled.
- Document readers: an error names the field it is about; the full error text is not modelled.
- Numbers: Python equates `1`, `1.0` and `True`; documents here keep them apart.
- Manifest keys: `str` of keys that are no strings is taken before the model starts, and characters outside ASCII count as caseless and not blank.
- Non-string aliases and references: they count as already passed through `str`; the slug function itself is a parameter.
- Reconciliation of plans with pairs that are not all strings: how Python sorts them is a parameter, so nothing is claimed there beyond raising or comparing what it returns.
- Object and relationship payloads of the canonical model are records of the fields the code reads; relationship payloads are empty, as in the source.
- Evidence-graph node classification and payload hashes: a node stands for its full description.
- The audit listing and the project and task detail calls: they would only add easy members.
- The tracker's request bodies hold strings and nulls only, and its calls come one after the other; a failed statement on PostgreSQL, which leaves a transaction open, is taken to leave no trace.
- The HTTP handler, schema migration, HTML and generated deployment files.
- The concrete 25-task plan, expected hashes and other fixed counts, constant policy tables, command-line parsing, Markdown and JSON writers, subprocess, git and Docker calls, and the database-backed scheduler.
