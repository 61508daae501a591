# secretgen-controller: a Dafny model of its algorithms

secretgen-controller generates Kubernetes secrets (passwords, templates) and copies secrets between namespaces. A
`SecretExport` offers the secret of its own name to other namespaces, a `SecretImport` asks for a copy, and a placeholder
secret is filled with the merged registry credentials of everything offered to its namespace. This project models the
parts of the controller that compute or coordinate something and proves what they are for.

| file | what it models |
|---|---|
| `Kube` | secrets, keys, namespaces, weights |
| `ExportSpec`, `ExportedSecrets`, `ExportOrder`, `ExportCache` | validation of an export, matching, preference, the shared cache and its query |
| `DockerConfig`, `Placeholder` | merging credentials, the reconcile of a placeholder |
| `Protocol` | the cluster, the cache and the work queues as a state machine, one step for each edit and each Reconcile call |
| `ProtocolMeaning` | the protocol's promises in the terms of the stored objects alone |
| `ProtocolCache` | what every possible run keeps of the cache, whichever calls fail |
| `ProtocolSafety` | the invariant behind "out of date implies queued", and the exact steps that break it |
| `ProtocolHazards` | that the invariant is exact: without it, a run in which no call fails loses an update |
| `ProtocolDraining` | whether the queues empty once edits and failures stop |
| `Reconcilers`, `ReconcileStatus` | the controllers' code as classes; each call is one step of the protocol |
| `JsonPath`, `JsonPathMatching`, `JsonPathLaws` | the rewriting of `$( )` to `{ }`: the loop, its declarative meaning, its laws |
| `Expansion`, `OutputSecret` | `$(name)` expansion, and the secret it fills |
| `Shuffle`, `Password`, `PasswordOutcomes` | the in-place shuffle, the password generator, and which passwords can come out |
| `Tokens`, `Quoting` | the cache of service account tokens, and why its quoted keys tell accounts apart |
| `ResourceTracker`, `SecretTemplate` | which templates are told of which secrets |
| `Sequences` | lists without repetition |

A loop or a method that updates fields is a method proved against a function of its inputs or of the old state; the laws are
lemmas about those functions. Draws of the random generator, clocks, map iteration order and the outcome of each API call
are arbitrary inputs.

## What the code does that its promises do not say

**An out-of-date copy is not always queued.** Readers are queued when the *status* of an export changes, when an export is
gone, and when a namespace's exclusion annotation flips. Whatever changes what a reader is due without one of these, or
with one whose list of readers fails, is never announced:

1. *An export held by a finalizer.* Once the deletion timestamp is set, the reconciler drops the entry without writing a
   status (`pkg/sharing/secret_export_reconciler.go:107-111`). Copies made before stay until the object is gone. It is a
   hazard exactly when some unqueued import holds a secret then.
2. *A warm-up.* It saves no status. A secret cached while the stored status calls it missing can be deleted unnoticed; a
   secret it failed to read under a current status arrives unnoticed; and it caches exports that are being deleted, as it
   does not test the timestamp.
3. *A status write that fails* after a secret was cached that the stored status calls missing.
4. *A list that fails in a handler* is logged and queues nobody (`pkg/sharing/secret_import_reconciler.go:79-84` and
   `:117-122`).
5. *A read that fails while an import is reconciled* is taken for an answer: a namespace that cannot be read is not
   excluded and has no fields, a destination that cannot be read has been deleted. The import then leaves the queue.
6. *An edit of namespace fields* that selectors read queues nobody.

`ProtocolSafety.Hazard` says of a step, before it is taken, whether it is one of these; the guards are those of the
branches above. From a state with the invariant a step keeps it if and only if it is no hazard (`StepKeepsInv`), and it is
safe for every future without hazards if and only if it is no hazard (`SafeIffNoHazard`). Among the warmed-up states with a
coherent cache, the invariant holds of exactly those from which no run without hazards forgets an import (`InvIsExact`).
`RestartForgets` is a concrete cluster on which no call ever fails: the
last controller recorded the secret as missing, the secret came while no controller ran, the new controller warms up, a
reader copies the secret, and its deletion goes unnoticed.

**The cache is not quite a function of the cluster.** On every possible run, an export that is not queued is cached as the
cluster has it, except exactly when it is being deleted and was warmed up after its last reconcile and before it was queued
again (`ProtocolCache.CacheConfluence`): the warm-up ignores the deletion timestamp that the reconcile obeys. No other hazard
shows in the cache. `ProtocolHazards.OrderShows` is a cluster on which a warm-up and a reconcile, in either order, empty the
queue and leave different caches.

**The queues need not empty.** Two imports of each other with different data swap their secrets for ever, without an edit or
a failure (`ProtocolDraining.MutualNeverDrains`, from the cluster of `TwinsAreMutual`). When no import feeds itself through
others, the calls that still change something are bounded in number in whatever order they come (`DrainingEnds`); what is left
then is only imports whose destination has another type than the source, which are retried for ever (`DrainedIffEmpty`).

**Other facts.**

- A weight annotation of `NaN` parses, and with it preference is no order any more: `ExportOrder.FitsInIffNumber` shows that
  this is the only such weight. The order of a query's answer is promised for numeric weights only.
- `deleteAssociatedSecret` deletes whatever secret has the import's name, whoever owns it; an import that names itself as
  its source overwrites or deletes that source.
- `string(b)` of a byte is the rune of that number. A byte from 128 on after a lone `$`, or drawn from a symbol set, comes
  out as two bytes (`Expansion.UnresolvedIsVerbatim` is exact, `Expansion.HighByteIsNotVerbatim` an input;
  `Password.Utf8OfAscii`).
- Generating a password panics when symbols are asked for and there are none, and when the random source fails in the
  shuffle, where the error is dropped and the missing number used. A failure before the shuffle is returned.
- A token of unknown lifetime, or of a lifetime of -2 seconds or less, can be handed out expired
  (`Tokens.PassingIsUnexpired`).
- A template tracks no input from the first that fails to resolve on, so the event that creates that input does not find it
  (`SecretTemplate.FailedInputIsNotWatched`); only the retry of the failed reconcile does.

## Model

| member | source | states |
|---|---|---|
| Kube.NsNameInjective | pkg/sharing/secret_exports.go:235-237 | the cache key `ns/name` identifies the object, as a namespace name holds no slash |
| ExportSpec.StaticToNamespaces | pkg/apis/secretgen2/v1alpha1/secret_export.go:79-85 | an export targets its list and its single namespace, unless that is empty |
| ExportSpec.Validate | pkg/apis/secretgen2/v1alpha1/secret_export.go:87-115 | the loops collect no error exactly when the spec is usable, and each kind of error exactly when its own rule is broken |
| ExportSpec.UsableIff | pkg/apis/secretgen2/v1alpha1/secret_export.go:87-115 | usable means a target, no empty name in the list, values for In and NotIn, none for Exists and DoesNotExist |
| ExportSpec.AllSelectorsHold | pkg/sharing/secret_exports.go:110-167 | the loop with its early returns answers whether every selector holds of its field in the object it is given; a key that does not parse fails |
| ExportSpec.Listed | pkg/sharing/secret_exports.go:140-158 | the scan over the values of a selector |
| ExportSpec.MatchesNamespace | pkg/sharing/secret_exports.go:281-291 | a namespace is matched when it is listed, or when the wildcard is and the namespace is not excluded |
| ExportSpec.ViewOf | pkg/sharing/namespace_wildcard_exclusions.go:20-40 | a namespace whose exclusion cannot be read is not excluded, and one whose object cannot be read is matched as an empty one |
| ExportSpec.ExclusionMatters | pkg/sharing/secret_exports.go:265-291 | excluding a namespace withdraws exactly the offers made by the wildcard alone and adds none |
| ExportSpec.StaticOffers | pkg/sharing/secret_exports.go:281-291 | without selectors, a namespace is offered the secret when it is named, or when there is a wildcard and it is not excluded |
| ExportSpec.SelectorOffers | pkg/sharing/secret_exports.go:138-164 | a single selector offers exactly where the field is among the values, is not, is there, or is not; a key that does not parse offers nowhere |
| ExportSpec.SelectorsConjoin | pkg/sharing/secret_exports.go:127-167 | of several selectors all must hold |
| ExportSpec.OffersAreAlternatives | pkg/sharing/secret_exports.go:267-279 | names and wildcard on one side and selectors on the other are alternatives |
| ExportedSecrets.MatchEntry | pkg/sharing/secret_exports.go:243-279 | the chain of checks is the declarative match: no subject, given type, name and source namespace equal, offered to the reader |
| ExportedSecrets.MatchesMeans | pkg/sharing/secret_exports.go:243-279 | what each field of a query asks for: equality, or nothing when empty, and never a subject |
| ExportedSecrets.ImportQueryIsOneKey | pkg/sharing/secret_import_reconciler.go:171-208 | a query with a name and a source namespace selects the entry under that key, or nothing: the "multiple exports" panic is out of reach |
| ExportOrder.LessIsTotalOrder | pkg/sharing/secret_exports.go:324-351 | preference is irreflexive, transitive and total on different names, for numeric weights |
| ExportOrder.StrLessMeans | pkg/sharing/secret_exports.go:348-350 | names compare as in a dictionary: by the first difference, or the shorter first |
| ExportOrder.FitsInIffNumber | pkg/sharing/secret_exports.go:293-334 | a key fits into that order if and only if its weight is a number |
| ExportCache.PreferredIffOutranks | pkg/sharing/secret_exports.go:171-180 | the chain of comparisons is the documented ranking: weight, then own namespace, then named before wildcard, then name |
| ExportCache.HeavierIsPreferred | pkg/sharing/secret_exports.go:293-334 | the heavier of two secrets is preferred, by the real numbers their weights are; no weight is zero |
| ExportCache.InfinityIsPreferred | pkg/sharing/secret_exports.go:293-334 | positive infinity is preferred to every other weight that is a number, and every other to negative infinity |
| ExportCache.SortSlice | pkg/sharing/secret_exports.go:193-196 | the sort by flipped preference returns a rearrangement, ordered when entries are comparable |
| ExportCache.SecretExports.Export | pkg/sharing/secret_exports.go:68-78 | sets the entry of that key and no other |
| ExportCache.SecretExports.Unexport | pkg/sharing/secret_exports.go:82-89 | removes the entry of that key and no other |
| ExportCache.SecretExports.MatchedSecretsForImport | pkg/sharing/secret_exports.go:181-204 | returns each matching entry's secret exactly once and no others, most preferred last, whatever each entry's own reads of the namespace yield |
| ExportCache.QueryResultIsUnique | pkg/sharing/secret_exports.go:181-204 | only one list does that, so neither map iteration order nor the sorting algorithm shows |
| ExportCache.ImportQueryResult | pkg/sharing/secret_import_reconciler.go:180-208 | an importer gets the one secret its source offers, or none |
| DockerConfig.Overlay | pkg/sharing/dockerconfigjson.go:46-48 | the inner loop overwrites the servers of one secret and keeps the others |
| DockerConfig.AuthsAreRead | pkg/sharing/dockerconfigjson.go:37-44 | the config is what is under `.dockerconfigjson`, nothing standing for empty content |
| DockerConfig.NewCombinedDockerConfigJSON | pkg/sharing/dockerconfigjson.go:16-56 | the merge of all secrets in order, or failure exactly when one does not decode |
| DockerConfig.LastDefinitionWins | pkg/sharing/dockerconfigjson.go:31-49 | the last secret that defines a server decides its credentials |
| DockerConfig.CredentialsOfWinner | pkg/sharing/secret_exports.go:171-204 | end to end: the credentials of a server are those of the matching secret that outranks every other one defining it |
| DockerConfig.MergedServers | pkg/sharing/dockerconfigjson.go:34-49 | the servers are exactly those that matching secrets define |
| DockerConfig.MergedIsMerge | pkg/sharing/dockerconfigjson.go:27-49 | the loop's result is the merge: the servers some matching secret defines, each with its winner's credentials |
| DockerConfig.MergeIsUnique | pkg/sharing/dockerconfigjson.go:27-49 | there is only one such merge |
| Placeholder.StatusNamesListEachSecret | pkg/sharing/secret_reconciler.go:235-242 | the status lists each secret used, sorted |
| Placeholder.Reconcile | pkg/sharing/secret_reconciler.go:157-218 | the outcome is that of the declarative reconcile on an answer of the cache over every registry secret offered to the namespace; equal secrets are not written |
| Placeholder.AsksForRegistrySecrets | pkg/sharing/secret_reconciler.go:176-178 | the query selects exactly the cached secrets of type `kubernetes.io/dockerconfigjson` that are offered to the placeholder's namespace |
| Placeholder.WriteKeeps | pkg/sharing/secret_reconciler.go:164-218 | a write changes the status annotation and, for the right type, the data to the merge alone; all else stays, for a wrong type the data too |
| Placeholder.OtherSecrets | pkg/sharing/secret_reconciler.go:157-174 | a secret without the annotation is never written, one of another type only until its status says so |
| Placeholder.WriteSettles | pkg/sharing/secret_reconciler.go:211-218 | after its own write, with whatever new version and whatever answer the unchanged cache gives, a second reconcile writes nothing; for matching exports whose weights are numbers, since others leave the answer's order open |
| Placeholder.SettledIffMerge | pkg/sharing/secret_reconciler.go:157-218 | a placeholder needs no write if and only if every registry secret offered to its namespace decodes and it holds their merge and its status |
| ProtocolCache.StepCoherent | pkg/sharing/secret_export_reconciler.go:61-167 | every step that is possible at all keeps the cache coherent, whichever of its calls fail |
| ProtocolCache.StepLingers | pkg/sharing/secret_export_reconciler.go:61-130 | a step leaves an unqueued export that is being deleted in the cache exactly when it is a warm-up that caches it, or it was there before and the step does not queue it |
| ProtocolCache.LingersIffWarmedLate | pkg/sharing/secret_export_reconciler.go:61-130 | on every possible run it is there at the end exactly when a warm-up cached it and it has not been queued since |
| ProtocolCache.CacheConfluence | pkg/sharing/secret_export_reconciler.go:133-167 | on every possible run, an export that is not queued is cached as the cluster has it if and only if it was not warmed up late, that is while being deleted and after its last reconcile; so always when it is not being deleted |
| ProtocolCache.QuietCache | pkg/sharing/secret_export_reconciler.go:85-167 | with no export queued, each entry is what the cluster's export and secret make it if and only if it was not warmed up late |
| ProtocolCache.WarmUpReachesIdeal | pkg/sharing/secret_exports_warmed_up.go:40-43 | one warm-up whose calls succeed reaches that cache, and also caches the exports being deleted |
| ProtocolMeaning.SeenMeans | pkg/sharing/namespace_wildcard_exclusions.go:20-40 | a query sees the stored annotation and fields, or no exclusion and an empty object where a read fails |
| ProtocolMeaning.CorrectMeans | pkg/sharing/secret_import_reconciler.go:171-266 | an import is right when its secret has the source's type and data, if the source's export is undeleted, valid, has its secret and offers it, and is absent otherwise |
| ProtocolMeaning.CachedMeans | pkg/sharing/secret_export_reconciler.go:133-167 | on every possible run a settled export is cached exactly when it is undeleted, valid and has its secret, with its own weight, spec and secret |
| ProtocolMeaning.StatusMeans | pkg/sharing/secret_export_reconciler.go:118-167 | the status that a reconcile leaves: the generation, and success with the secret's version, an invalid spec, or a missing secret |
| ProtocolMeaning.StoredCopyMeans | pkg/sharing/secret_import_reconciler.go:211-248 | the copy stored for an import, field by field: the source's type and data, the import's labels, annotations and ownership |
| ProtocolMeaning.OfferMeans | pkg/sharing/secret_import_reconciler.go:178-186 | the offer an import gets is that of the cached export it names, if that offers to the namespace as it is seen |
| ProtocolMeaning.NamespaceEventMeans | pkg/sharing/namespace_wildcard_exclusions.go:48-63 | a stored namespace queues its imports when it was there before and its exclusion flips, if their list succeeds, and nobody for any other edit |
| ProtocolMeaning.ExportGoneMeans | pkg/sharing/secret_reconciler.go:269-283 | a deleted export's entry goes and every import is queued if the list of them succeeds |
| ProtocolMeaning.ReconcileTells | pkg/sharing/secret_export_reconciler.go:122-130 | a reconcile queues every import if the status it saves is a new one and the list succeeds, and nobody otherwise |
| ProtocolSafety.InitInv | pkg/sharing/secret_exports_warmed_up.go:40-43 | a controller just started on any cluster satisfies the invariant |
| ProtocolSafety.PutSecretInv | pkg/sharing/secret_export_reconciler.go:47-55 | storing a secret, by a user or a reconcile, keeps the invariant |
| ProtocolSafety.DeleteSecretInv | pkg/sharing/secret_export_reconciler.go:47-55 | deleting one keeps it |
| ProtocolSafety.StoreExportInv | pkg/sharing/secret_reconciler.go:255-267 | creating or editing an export keeps it, though readers are told of status changes only |
| ProtocolSafety.RemoveExportInv | pkg/sharing/secret_reconciler.go:269-283 | the disappearance of an export, which clears its entry and queues every reader, keeps the invariant if and only if its list succeeds or no unqueued import of it holds a secret |
| ProtocolSafety.SetNamespaceInv | pkg/sharing/namespace_wildcard_exclusions.go:52-69 | an edit of a namespace keeps it if and only if it queues the imports there or changes the offer of none that is unqueued and will not be told |
| ProtocolSafety.WarmUpInv | pkg/sharing/secret_export_reconciler.go:61-82 | a warm-up keeps it if and only if it hides no change of an export that can be offered to another namespace |
| ProtocolSafety.ReconcileExportInv | pkg/sharing/secret_export_reconciler.go:85-167 | an export reconcile, whichever of its calls fail and also of an export being deleted, keeps it if and only if it is no hazard |
| ProtocolSafety.ReconcileImportInv | pkg/sharing/secret_import_reconciler.go:133-266 | an import reconcile, whichever of its reads and writes fail, keeps it if and only if it does not slip |
| ProtocolSafety.ReadsDoNotSlip | pkg/sharing/secret_import_reconciler.go:171-266 | with every read answered no import of another object slips |
| ProtocolSafety.StepKeepsInv | pkg/sharing/secret_export_reconciler.go:61-167 | every step of every kind, with failing calls and failing lists, keeps the invariant if and only if it is no hazard |
| ProtocolSafety.OutOfDateImpliesQueued | pkg/sharing/secret_export_reconciler.go:118-127 | on every run without a hazard, from any cluster, an import whose copy is out of date is queued or its export is |
| ProtocolSafety.QuietMeansCorrect | pkg/sharing/secret_import_reconciler.go:171-266 | with empty queues after such a run, every destination equals what its export offers, also when that export is being deleted |
| ProtocolHazards.MissingIsForgotten | pkg/sharing/secret_reconciler.go:255-267 | a secret cached under a status that calls it missing: a run without failures leaves a stale copy unqueued |
| ProtocolHazards.AvailableIsForgotten | pkg/sharing/secret_reconciler.go:255-267 | a secret to be cached under a status already current: likewise an import without its copy |
| ProtocolHazards.LingeringIsForgotten | pkg/sharing/secret_export_reconciler.go:61-82 | a secret cached of an export being deleted: likewise a copy that should not be |
| ProtocolHazards.StuckIsForgotten | pkg/sharing/secret_import_reconciler.go:171-266 | an import out of order, unqueued and not to be told: likewise it stays so |
| ProtocolHazards.InvIsExact | pkg/sharing/secret_reconciler.go:244-283 | for coherent, warmed-up states the invariant holds if and only if no run without a hazard ever forgets an import |
| ProtocolHazards.HazardForgets | pkg/sharing/secret_export_reconciler.go:61-130 | after any hazard a run without further hazards in which no call fails forgets an import |
| ProtocolHazards.SafeIffNoHazard | pkg/sharing/secret_export_reconciler.go:61-130 | a step leaves a state from which no run without hazards forgets an import if and only if it is no hazard |
| ProtocolHazards.TerminatingForgets | pkg/sharing/secret_export_reconciler.go:107-111 | any settled export that another namespace can be offered, once deleted but held by a finalizer, leaves a copy behind unqueued, with no call failing; the drop is the hazard |
| ProtocolHazards.RestartForgets | pkg/sharing/secret_export_reconciler.go:58-82 | a concrete cluster where a restart and a warm-up without failures lose an update |
| ProtocolHazards.UnreadCopyStays | pkg/sharing/secret_import_reconciler.go:250-266 | a concrete cluster where one failed read of the destination leaves a stale copy |
| ProtocolHazards.OrderShows | pkg/sharing/secret_export_reconciler.go:61-111 | a concrete cluster where a warm-up and a reconcile leave different caches in their two orders |
| ProtocolDraining.StaleExportCall | pkg/sharing/secret_export_reconciler.go:85-167 | an export reconcile that changes its entry or status makes nothing stale but imports of it |
| ProtocolDraining.StaleImportCall | pkg/sharing/secret_import_reconciler.go:211-266 | an import reconcile that writes its secret makes nothing stale but the export of that secret |
| ProtocolDraining.HeightRanks | pkg/sharing/secret_import_reconciler.go:178-183 | imports no one of which is its own ancestor can be ranked above their sources |
| ProtocolDraining.DrainingEnds | pkg/sharing/secret_import_reconciler.go:133-266 | without a cycle among imports, edits and failures, the calls that change anything, in any order, are no more than a number fixed at the start |
| ProtocolDraining.Drains | pkg/sharing/secret_import_reconciler.go:133-266 | so calls bring the queues to rest |
| ProtocolDraining.DrainedIffEmpty | pkg/sharing/secret_import_reconciler.go:222-244 | no call changes anything if and only if no export is queued and each queued import has a destination of another type than its source |
| ProtocolDraining.DrainedIsCorrect | pkg/sharing/secret_import_reconciler.go:171-266 | and then, under the invariant, every other import has the right destination |
| ProtocolDraining.RoundRepeats | pkg/sharing/secret_import_reconciler.go:211-248 | one call for each of two imports and exports that feed each other swaps their secrets and queues all four again |
| ProtocolDraining.MutualNeverDrains | pkg/sharing/secret_import_reconciler.go:211-248 | so they have runs of working calls of any length |
| ProtocolDraining.TwinsAreMutual | pkg/sharing/secret_exports_warmed_up.go:40-43 | a concrete cluster is in that state after its warm-up |
| ReconcileStatus.Status.SetReconciling | pkg/reconciler/status.go:42-54 | the current generation and a single condition, whatever was there |
| ReconcileStatus.Status.SetReconcileCompleted | pkg/reconciler/status.go:56-76 | a single condition: succeeded, or failed with its cause |
| ReconcileStatus.Status.WithReconcileCompleted | pkg/reconciler/status.go:88-96 | every error is recorded, a terminal one is not returned to the queue |
| Reconcilers.NewCopy | pkg/sharing/secret_import_reconciler.go:211-215 | a copy has the import's metadata and the source's type and data |
| Reconcilers.Controllers.OnExportUpdate | pkg/sharing/secret_reconciler.go:258-267 | readers are queued when the status changed and the list succeeds, and only then |
| Reconcilers.Controllers.OnExportDelete | pkg/sharing/secret_reconciler.go:269-283 | the event of a deleted export is one step of the protocol |
| Reconcilers.Controllers.OnNamespaceStored | pkg/sharing/namespace_wildcard_exclusions.go:48-63 | the event of a stored namespace is one step of the protocol |
| Reconcilers.Controllers.InnerReconcileExport | pkg/sharing/secret_export_reconciler.go:133-167 | the cache entry, the observed version and the error of one export |
| Reconcilers.Controllers.ReconcileExport | pkg/sharing/secret_export_reconciler.go:85-130 | the call is one step of the protocol, for every outcome of its API calls |
| Reconcilers.Controllers.WarmUp | pkg/sharing/secret_export_reconciler.go:61-82 | the loop over the listed exports, in any order, is the protocol's warm-up |
| Reconcilers.Controllers.CopyAssociatedSecret | pkg/sharing/secret_import_reconciler.go:211-248 | creates or updates the copy; fails on another type, changes nothing when it is equal |
| Reconcilers.Controllers.DeleteAssociatedSecret | pkg/sharing/secret_import_reconciler.go:250-266 | the secret of that name is gone, or could not be read and counts as gone, or the call failed; in the last two nothing changed |
| Reconcilers.Controllers.IsExcluded | pkg/sharing/namespace_wildcard_exclusions.go:20-40 | the exclusion check answers false for a namespace it cannot read or find |
| Reconcilers.Controllers.FieldsOf | pkg/sharing/secret_exports.go:110-126 | selectors see an empty object when the namespace cannot be read or found |
| Reconcilers.Controllers.SyncImport | pkg/sharing/secret_import_reconciler.go:171-209 | query, copy or delete make up the protocol's synchronisation, for every outcome of their reads; the third case is dead |
| Reconcilers.Controllers.ReconcileImport | pkg/sharing/secret_import_reconciler.go:133-169 | the call is one step of the protocol, after a warm-up when it is the first query |
| JsonPath.ReplaceMiddle | pkg/generator/jsonpath.go:66-71 | replacing what is there swaps it for the new text and keeps both sides |
| JsonPath.CloseBracket | pkg/generator/jsonpath.go:51-59 | at a closing bracket both replacements hit what they name, the index steps back with the text, and the cut-off branch is not taken |
| JsonPath.ToK8sJSONPath | pkg/generator/jsonpath.go:43-63 | the loop over the shrinking text, with stack indices valid throughout, yields the left-to-right conversion, and ends |
| JsonPathMatching.OpensTracks | pkg/generator/jsonpath.go:45-60 | the stack is exactly the list of the open brackets not yet matched, with balanced text between them |
| JsonPathMatching.ConvertedIsPieces | pkg/generator/jsonpath.go:42-63 | character by character of the original: the matched pairs whose opening bracket follows `$` become braces, and everything else stays |
| JsonPathLaws.UndoConverted | pkg/generator/jsonpath.go:42-63 | for every text, writing braces back as brackets gives the same from the result as from the original |
| JsonPathLaws.RoundTrip | pkg/generator/jsonpath.go:42-63 | the original comes back if and only if it held no brace |
| JsonPathLaws.Injective | pkg/generator/jsonpath.go:42-63 | no two brace-free texts are rewritten alike |
| JsonPathLaws.Idempotent | pkg/generator/jsonpath.go:42-63 | rewriting twice is rewriting once, for every text |
| JsonPathLaws.PairConverts | pkg/generator/jsonpath.go:42-63 | a balanced text in `$( )` comes out rewritten in `{ }`, and in bare brackets stays in them |
| JsonPathLaws.BracketFreeStays | pkg/generator/jsonpath.go:42-63 | a text without brackets stays |
| Expansion.TokenizeIsLossless | pkg/expansion/expand.go:41-106 | the tokens of a text are well formed and their sources make it up again |
| Expansion.TokenizeIsUnique | pkg/expansion/expand.go:41-106 | there is no other well-formed reading |
| Expansion.ReadIsOneToken | pkg/expansion/expand.go:84-105 | what is read after an operator is one token, and no more than the input is consumed |
| Expansion.Expand | pkg/expansion/expand.go:41-76 | the scanner with cursor and checkpoint renders the reading of its input |
| Expansion.EscapeRoundTrip | pkg/expansion/expand.go:86-88 | doubling every `$` is undone exactly, for any mapping, any bytes, and whatever follows |
| Expansion.ValueIsNotReadAgain | pkg/expansion/expand.go:54-58 | a value is inserted as it is: operators and brackets in it are not expanded |
| Expansion.VariableExpandsToValue | pkg/expansion/expand.go:17-19 | a reference stands for its value under every mapping if and only if its name has no closing bracket |
| Expansion.UnresolvedIsVerbatim | pkg/expansion/expand.go:21-106 | for any contexts, a text none of whose references has a value comes out as it went in if and only if it holds no escape and no byte from 128 on after a lone operator |
| Expansion.MissingIsReference | pkg/expansion/expand.go:25-36 | a name that is in no context stands for `$(name)` |
| Expansion.FirstContextDecides | pkg/expansion/expand.go:27-32 | the first context that has the name decides |
| Expansion.MissingStaysInTemplate | pkg/expansion/expand.go:25-76 | a template keeps a reference it has no value for between its other texts |
| Expansion.RuneStringIsUtf8 | pkg/expansion/expand.go:103 | a byte after a lone operator is written as the UTF-8 form of the rune of that number |
| Expansion.HighByteIsNotVerbatim | pkg/expansion/expand.go:99-104 | the input `$` and byte 200 comes out as three bytes |
| OutputSecret.ExpandAll | pkg/reconciler/secret.go:79-86 | the loop expands every entry, in any order |
| OutputSecret.OutputSecret.ApplyTemplate | pkg/reconciler/secret.go:55-89 | metadata is added; type and data are replaced when the template has any |
| OutputSecret.OutputSecret.ApplyTemplates | pkg/reconciler/secret.go:37-53 | the default template, then the custom one on top |
| OutputSecret.CustomOverDefault | pkg/reconciler/secret.go:37-89 | type, each label, each annotation and the data after both templates: the custom one's if it gives any, else the default's, else the owner's |
| OutputSecret.UnknownReferenceStays | pkg/reconciler/secret.go:79-86 | a reference without a value stays in the data |
| OutputSecret.OneOfTwoReferences | pkg/reconciler/secret.go:79-86 | `$(value)@$(host)` with a value for the first only |
| OutputSecret.OutputSecret.ApplySecret | pkg/reconciler/secret.go:92-104 | type and data of the other secret; empty data leaves the old |
| OutputSecret.PasswordDelivered | pkg/generator/password_reconciler.go:92-105 | any password reaches its basic-auth secret unchanged through the default template, which changes no label or annotation |
| OutputSecret.CustomTemplateDelivers | pkg/reconciler/secret.go:37-89 | a custom template delivers it between its own texts, and its data replaces the default data |
| Shuffle.LocalCryptoShuffle | pkg/generator/password_reconciler.go:192-212 | both loops together perform the swaps of one choice sequence, in place, or panic exactly when one of their draws fails |
| Shuffle.EveryChoiceCanBeDrawn | pkg/generator/password_reconciler.go:204-211 | every choice sequence in range comes from some draws |
| Shuffle.ShufflePermutes | pkg/generator/password_reconciler.go:192-212 | a shuffle rearranges and leaves the places above its range alone |
| Shuffle.ShuffleInjective | pkg/generator/password_reconciler.go:192-212 | different choices give different outcomes on distinct elements |
| Shuffle.ShuffleSurjective | pkg/generator/password_reconciler.go:192-212 | every rearrangement, of any elements, is the outcome of some choices |
| Shuffle.ShuffleBijection | pkg/generator/password_reconciler.go:192-212 | for distinct elements each permutation comes from exactly one choice sequence |
| Password.AppendRandom | pkg/generator/password_reconciler.go:130-136 | a loop appends that many elements of the set, none for a negative count, or fails exactly when a draw it needs fails |
| Password.DrawAll | pkg/generator/password_reconciler.go:129-175 | the five loops draw class by class, or fail with the first draw that does |
| Password.Generate | pkg/generator/password_reconciler.go:120-182 | a panic, an error or the shuffled draw in UTF-8, each exactly when the symbol set and the random source call for it |
| Password.PasswordLength | pkg/generator/password_reconciler.go:120-175 | the length is the larger of the length asked for and the sum of the minimums |
| Password.ClassesSurvive | pkg/generator/password_reconciler.go:120-182 | after the shuffle there are at least the required symbols, digits, uppercase and lowercase letters |
| Password.OnlyAllowed | pkg/generator/password_reconciler.go:120-182 | nothing but letters, digits and the given symbols |
| Password.Utf8OfAscii | pkg/generator/password_reconciler.go:184-190 | bytes and runes agree if and only if all are below 128 |
| Password.AsciiPassword | pkg/generator/password_reconciler.go:120-190 | with ASCII symbols the bytes of the password are its characters |
| PasswordOutcomes.DrawPicks | pkg/generator/password_reconciler.go:184-190 | a draw is the place in the set of the character it picks |
| PasswordOutcomes.DrawChooses | pkg/generator/password_reconciler.go:204-211 | and in the shuffle the place it swaps with |
| PasswordOutcomes.ClassOf | pkg/generator/password_reconciler.go:121-125 | the sets of digits, uppercase and lowercase letters hold the bytes they are named after |
| PasswordOutcomes.EveryTextCanBeDrawn | pkg/generator/password_reconciler.go:129-175 | any five texts of the classes with the lengths asked for are drawn by some draws, whatever the shuffle then draws |
| PasswordOutcomes.ComesOutIffAllowed | pkg/generator/password_reconciler.go:120-212 | a password can come out if and only if it is a rearrangement of such texts |
| Tokens.CacheKeyInjective | pkg/satoken/token_manager.go:76 | two accounts never share a key, whatever bytes their names hold and whichever runes are printable |
| Quoting.QuoteDecodes | pkg/satoken/token_manager.go:76 | a quoted text, valid UTF-8 or not, is told by its quotation and what follows it |
| Quoting.PlainQuote | pkg/satoken/token_manager.go:76 | printable ASCII without quotes and backslashes is quoted as it is |
| Tokens.RefreshWindow | pkg/satoken/token_manager.go:145-155 | an authenticated token issued for S seconds is always refreshed more than 7200 s after its issue or with less than S/2 s left, and never earlier than 9 s before that |
| Tokens.RefreshMeans | pkg/satoken/token_manager.go:145-155 | with a jitter of j seconds both bounds are j seconds earlier |
| Tokens.RefreshWithoutTime | pkg/satoken/token_manager.go:130-144 | a token that fails its review is refreshed, one of unknown lifetime only then |
| Tokens.LookMeans | pkg/satoken/token_manager.go:75-99 | which of the four answers a lookup gives, and with which token |
| Tokens.PassingIsUnexpired | pkg/satoken/token_manager.go:129-156 | a token that passes is unexpired at all times if and only if its lifetime is known and at least -1 second |
| Tokens.Manager.GetServiceAccountToken | pkg/satoken/token_manager.go:75-99 | cached, fetched, kept after a failed refresh, or an error; the cache changes only by a fetch |
| Tokens.Manager.Cleanup | pkg/satoken/token_manager.go:101-109 | the loop removes exactly the tokens expired when it comes to them |
| Tokens.FetchedIsFound | pkg/satoken/token_manager.go:97-98 | a fetched token is what the next lookup for its account finds |
| Tokens.CachedIsFresh | pkg/satoken/token_manager.go:129-156 | a token handed out without a refresh is authenticated and, issued for S >= 0 seconds, has S/2 s left and is at most 7200 s old |
| Tokens.HandedOutIsUnexpired | pkg/satoken/token_manager.go:75-99 | a kept token is unexpired, whatever its lifetime; a token handed out without a refresh is so at all times if and only if its lifetime is known and at least -1 second |
| Tokens.RunsKeepOwners | pkg/satoken/token_manager.go:75-122 | over any run of interleaved lookups and cleanups each token sits under the key of its own account |
| Tokens.OwnTokenOnly | pkg/satoken/token_manager.go:75-122 | however lookups interleave, each hands out only tokens issued for its account |
| Tokens.OthersDoNotDisturb | pkg/satoken/token_manager.go:101-122 | a token stays until a lookup for that account fetches another or a cleanup finds it expired |
| ResourceTracker.Tracker.Track | pkg/tracker/tracker.go:30-41 | adds to what an object tracks and touches no other |
| ResourceTracker.Tracker.UntrackAll | pkg/tracker/tracker.go:44-48 | forgets one object and no other |
| ResourceTracker.Tracker.GetTracking | pkg/tracker/tracker.go:51-61 | each object that tracks the given one, exactly once |
| SecretTemplate.UpToIsUnique | pkg/generator/secret_template_reconciler.go:217-236 | how far the inputs resolve is determined |
| SecretTemplate.ResolveIffFollows | pkg/generator/secret_template_reconciler.go:217-249 | resolving yields exactly the keys whose names the references evaluate to over the contents read under the keys before, and those contents; without an account only Secrets of v1 |
| SecretTemplate.ReachesIffResolvesUpTo | pkg/generator/secret_template_reconciler.go:217-236 | and stops exactly where no key follows |
| SecretTemplate.Reconciler.ResolveInputResources | pkg/generator/secret_template_reconciler.go:197-239 | the inputs in order up to the first that does not resolve, each under the name its reference evaluates to over those before; without an account exactly their keys are tracked, even on failure |
| SecretTemplate.Reconciler.Reconcile | pkg/generator/secret_template_reconciler.go:92-122 | the effect of a call on the tracker: none, untrack when not found, or track what resolved |
| SecretTemplate.TrackerAgrees | pkg/generator/secret_template_reconciler.go:71-122 | over any run of reconciles, a template tracks a secret if and only if its latest reconcile without an account reached it before the first input that failed and it was not found gone since |
| SecretTemplate.InputsAreWatched | pkg/generator/secret_template_reconciler.go:71-83 | once all inputs are resolved, an event on the secret that an input's reference evaluates to finds the template |
| SecretTemplate.FailedInputIsNotWatched | pkg/generator/secret_template_reconciler.go:207-236 | an input that did not resolve is not tracked, unless an earlier one names the same secret |

## Left out

- ExportCache.SortSlice: an insertion stands in for the library's sort, whose own algorithm is not modelled.
- ExportCache.SecretExports.MatchedSecretsForImport: order is promised for numeric weights only, because with NaN there is none.
- Reconcilers.Controllers.WarmUp: one atomic step over the stored exports, where the code walks a listed snapshot that may be older than its reads of secrets.
- Reconcilers.Controllers.ReconcileImport: the import's own status is not stored; the events its writes cause only add to the queue, which Resync covers.
- OutputSecret.OutputSecret.constructor: copies the owner's labels and annotations, where the code shares the owner's maps.
- Tokens.Manager.GetServiceAccountToken: the lock itself is not modelled; reads, stores and cleanups of the cache are atomic and interleave.
- Shuffle.LocalCryptoShuffle: the shuffle calls the swap itself instead of a function it is given.
- ReconcileStatus.Status.SetReconcileCompleted: the message text and the friendly description are not modelled, only which cause a failure has.
- SecretTemplate.Reconciler.Reconcile: evaluating the template and writing the secret and its status are not modelled.
- Placeholder secrets are not part of the protocol's state machine; their reconcile is proved on its own, so "an out-of-date placeholder is queued" is not stated.
- Interleavings inside one Reconcile call of the sharing controllers, rate limits and leader election: each call is one atomic step.
- A weight edit queues no reader; it is modelled, but imports do not depend on weights.
- JSON, the jsonpath engine and base64 are abstract functions of their inputs.
- Overflow of 64-bit durations and of counts: integers are unbounded.
- Certificates, RSA and SSH keys, generated clients, input generation and the service account loader: wrappers around libraries.
- Logging and owner-reference garbage collection.
