# uyuni-operator: a verified model

This project models the parts of the operator whose correctness is not visible from one function body, and proves what
they promise: over every run of a controller, every interleaving of API calls, every input of a codec or a parser. Where a
promise does not hold, the code is modelled as it is, a concrete counterexample is proved, and so is the exact condition
under which the promise holds.

| module | models |
|---|---|
| `Common` | Option, Result, the fate of an API write, lists as sets |
| `NetbootProtocol`, `NetbootReconcilers` | the netboot annotation's way from System over CobblerSystem to the Cobbler record and back |
| `XmlRpc`, `XmlRpcStreams`, `XmlRpcCuts`, `GoText` | Cobbler's XML-RPC codec above the tokeniser (parts "Scalar <value>s", "<struct>s" and "<array>s" of the XML-RPC specification) |
| `EnvChain`, `ChainWalk` | validation of environment chains, the two chain walks, promotion adjacency |
| `FormData`, `FormulaSync` | formula form data: path writes, merge order, drift, convergence |
| `PackageSweep` | the batched sweep of orphaned packages |
| `RpmHeader` | the RPM header parser (LSB Core Generic 5.0, section 25.2, "Package File Format") |
| `Promotion`, `ImageBuild`, `TaskRuns`, `ChannelRetry`, `Retention` | controllers of long-running jobs |
| `ClientPool` | the cache of API clients |

The controllers are state machines whose steps are functions (`Next`, `Reconcile`); a class beside each holds the source's
mutable fields, and its methods are proved to compute those steps. An API write lands and the pass goes on, lands and the
pass ends, or does not land (`Common.Write`). Clocks, answers of Uyuni and the order in which Go yields map entries or breaks
ties in a sort are inputs or free choices.

## What does not hold

- Netboot: the comment at `internal/controller/system_controller.go:846-856` says no intent can be lost. It can. Under free
  interleaving, exactly after a forward that lands behind the strip of the CobblerSystem or no longer matches the System,
  after a change of a request that has been handed over, and after a CobblerSystem pass that sets the record from an earlier
  copy (`LosesIffUnsafe`). With reconciles in turns, exactly after a change of a request of which somebody holds another value
  (`OverwriteLosesInTurns`), and after a pass that starts from an earlier copy with another value (`LosesInTurnsIffHeld`).
- Environment chains: admission accepts forks, and the chain order then silently drops a branch
  (`OrderIsPermutationIffNoFork`). With an empty label on the order, which only the field pattern excludes, `ChainOrder` would
  not end.
- Form data: with two keys of which one is a segment prefix of the other, the result of a bulk merge depends on Go's map
  iteration order (`OrderIndependentIffKeysApart`), and unchanged inputs may drift from pass to pass (`ResolutionsMayDrift`).
- Tasks: the comment at `internal/controller/task_controller.go:75-76` says a failed annotation strip cannot duplicate a run.
  It does when the run has finished by the next pass; so does a pass from a stale cache, which nothing guards against here. A
  changed specification is run again in the same way when its generation could not be recorded.
  A specification change seen while a run is active is never run.
- Package sweep: a package is sure to be deleted only with fewer than a batch of blocked packages as old as it or older
  (`AlwaysSweptIff`); with a batch of strictly older ones it never is (`EverSweptIff`).
- Channel retry: a pass that retries and also takes back the annotation that applies formula values forgets the retry.
- Image builds: polling takes the first image since scheduling for the build's own, which another build may have made; and an
  older one when listing images failed at scheduling time (`FindsOwnImageIffListedAndFirst`).
- Promotions: a promotion may be reported succeeded on the build that stood before its request, exactly when the target shows
  BUILT as Uyuni accepts the request (`MisreportsIffAcceptedOnBuilt`).
- Client pool: Invalidate does not evict entries of Organizations with credentials of their own, though these were built with
  the provider's address and certificate, nor entries built from a snapshot, though it names the provider's Secrets. Only a
  Secret in the operator's namespace and the deletion of a provider are followed by an invalidation, not a changed address. A
  CA reference without a namespace works for the provider and not for these Organizations. Entries cached under an Organization's display name are not evicted by InvalidateOrg.
- Image retention: a pass over an outdated list can delete the last successful build (`LosesAllIffMisled`). The type's comment speaks of a floor of 1 for successful builds; the code does not enforce the category at
  all when the number is not positive, as its own comment says. The model follows the code.

## Model

| member | source | states |
|---|---|---|
| NetbootProtocol.NextKeepsInv | internal/controller/cobbler_controller.go:182-237 | Any step, of a reconciler or of the user, stale reads included, that is neither a late forward, nor a change of a request already handed over, nor the start of a pass that would set the record from an earlier copy keeps: a pending System annotation is the last request, and whatever the CobblerSystem carries or a pass may still apply is that request or already settled |
| NetbootProtocol.CarefulMeansSettled | internal/controller/cobbler_controller.go:182-237 | Over every freely interleaved run without such steps, in which the user sets, overwrites and removes the annotation, reads may be stale and any call may crash, be lost or conflict: a state without annotations has the Cobbler record and both statuses at the last requested value |
| NetbootProtocol.CarefulTurnsAreCareful | internal/controller/system_controller.go:857-883 | In runs where the reconciles take turns no forward is ever late, as long as the user changes no request that somebody holds and no pass starts from an earlier copy with another value |
| NetbootProtocol.TurnTakingLosesNothing | internal/controller/system_controller.go:846-856 | The documented promise as far as it holds: with turn taking and crashes after any write, no intent is lost, over every such run from a fresh cluster |
| NetbootProtocol.WholePass | internal/controller/cobbler_controller.go:182-210 | An undisturbed CobblerSystem pass that starts on an annotated object applies the value everywhere and consumes both annotations |
| NetbootProtocol.TwoPassesComplete | internal/controller/system_controller.go:857-883 | From every turn-taking state with a pending request, one System pass and one CobblerSystem pass realize it: intent is never stuck either |
| NetbootProtocol.LosesIffUnsafe | internal/controller/cobbler_controller.go:182-237 | The exact condition under free interleaving, for every step from an invariant state: some continuation without further such steps loses the last request if and only if the step was a late forward, changed a request already handed over, or began a CobblerSystem pass from an earlier copy whose value is not the last request, with none pending |
| NetbootProtocol.LosesInTurnsIffHeld | internal/controller/system_controller.go:857-883 | The exact condition under turn taking, for every step of a reconciler and every value admission lets through: it can lead to a lost request if and only if it changed a request while the CobblerSystem, or a pass that has read it, held another value, or started a pass from an earlier copy with another value |
| NetbootProtocol.LateForwardLoses | internal/controller/system_controller.go:875-882 | From every late forward a losing run is constructed |
| NetbootProtocol.ClobberLoses | internal/controller/cobbler_controller.go:217-237 | and from every change of a request already handed over |
| NetbootProtocol.HeldValueLoses | internal/controller/system_controller.go:857-883 | and, in turns, from every change of a request that a System pass has read |
| NetbootProtocol.StaleHoldLoses | internal/controller/system_controller.go:857-883 | and, in turns, from every System pass that starts from an earlier copy with a value the System no longer carries |
| NetbootProtocol.StaleRecordLoses | internal/controller/cobbler_controller.go:190-196 | and from every CobblerSystem pass that sets the record from an earlier copy, before the conflict on its own object stops it |
| NetbootProtocol.OrphanLoses | internal/controller/cobbler_controller.go:217-237 | From any state between passes whose CobblerSystem carries a value the System does not, a turn-taking run deletes a newer request unapplied |
| NetbootProtocol.TurnsLoseIffOrphaned | internal/controller/system_controller.go:846-856 | A state between passes is unsafe under turn taking if and only if the CobblerSystem carries an annotation the System does not |
| NetbootProtocol.OverwriteLosesInTurns | internal/controller/cobbler_controller.go:217-237 | A turn-taking run from a fresh cluster, without a crash, conflict or late forward, that loses an overwritten request |
| NetbootProtocol.FreeInterleavingLosesARequest | internal/controller/cobbler_controller.go:200-204 | A concrete interleaved run from a fresh cluster that ends without annotations, with the request for false lost and true applied everywhere |
| NetbootProtocol.ImportNeverMutates | internal/controller/cobbler_controller.go:177-199 | In import mode no interleaving ever changes the Cobbler record or a status |
| NetbootProtocol.ImportPassConsumes | internal/controller/cobbler_controller.go:202-206 | From any state of the machine with a flag on the CobblerSystem: four undisturbed calls in import mode strip both annotations and change nothing else |
| NetbootProtocol.MalformedValueIsStripped | internal/controller/cobbler_controller.go:184-189 | In either mode a value that is no flag leaves the CobblerSystem in two calls, and nothing else happens |
| NetbootProtocol.CobblerPassIsTurn | internal/controller/cobbler_controller.go:182-237 | A whole CobblerSystem pass, crashed anywhere, is a turn of the small-step machine |
| NetbootProtocol.SystemPassIsTurn | internal/controller/system_controller.go:857-883 | The same for a System pass |
| NetbootReconcilers.ForwardNetboot | internal/controller/system_controller.go:857-883 | The pass over the two mutable objects refines the machine's System pass; undisturbed, a flag reaches the CobblerSystem and stays on the System, and anything else is stripped; it waits exactly when a flag finds no CobblerSystem |
| NetbootReconcilers.ApplyNetboot | internal/controller/cobbler_controller.go:182-210 | The pass over the objects refines the machine's CobblerSystem pass. Undisturbed, a flag leaves both objects, and in create mode the record and both statuses hold it; a malformed value leaves the CobblerSystem only; in import mode record and statuses are never touched |
| NetbootReconcilers.RecordNetboot | internal/controller/cobbler_controller.go:190-199 | Record first, status second, each with its own crash point; undisturbed, all of them hold the flag and both annotations are gone |
| NetbootReconcilers.ConsumeNetboot | internal/controller/cobbler_controller.go:200-204 | The CobblerSystem annotation is stripped before the System is touched; undisturbed, both are gone |
| NetbootReconcilers.ClearParent | internal/controller/cobbler_controller.go:217-237 | System status, in create mode only, then System annotation, from one copy with one resource version; undisturbed, the annotation is gone |
| XmlRpc.Codec.DecodeValue | internal/cobbler/xmlrpc.go:147-205 | On any token sequence the decoder ends and leaves a proper suffix of its input |
| XmlRpc.Codec.DecodeStruct | internal/cobbler/xmlrpc.go:225-247 | The same for a struct, mutually recursive with the others |
| XmlRpc.Codec.DecodeMember | internal/cobbler/xmlrpc.go:249-275 | The same for a member |
| XmlRpc.Codec.DecodeArray | internal/cobbler/xmlrpc.go:277-299 | The same for an array |
| XmlRpc.DecodeBody | internal/cobbler/xmlrpc.go:147-205 | Any document for a value (any member order, any white space or comments between structural tags, text in any number of pieces, nils and unknown elements) decodes to exactly that value and leaves exactly what follows |
| XmlRpc.LaterElementCounts | internal/cobbler/xmlrpc.go:147-205 | Of two elements in one value the later counts |
| XmlRpc.BadNumberIsRefused | internal/cobbler/xmlrpc.go:167-181 | An int or double element is refused unless its text, without the white space around it, is a numeral of a 64-bit integer, or what ParseFloat accepts |
| XmlRpc.DecodeMembers | internal/cobbler/xmlrpc.go:225-247 | Struct members decode in any order; the last of a repeated name wins |
| XmlRpc.DecodeItems | internal/cobbler/xmlrpc.go:277-299 | Array items decode in order, through the data element |
| XmlRpc.MemberTakesName | internal/cobbler/xmlrpc.go:249-275 | In a member a name counts wherever it stands, and of several the last |
| XmlRpc.MemberTakesValue | internal/cobbler/xmlrpc.go:249-275 | and so does a value |
| XmlRpc.ResponseReturns | internal/cobbler/xmlrpc.go:111-143 | A response returns the first value, whatever surrounds it |
| XmlRpc.FaultReturns | internal/cobbler/xmlrpc.go:111-143 | A fault response is reported with its own code and message, 0 or empty when missing or of another type |
| XmlRpcCuts.ValueCut | internal/cobbler/xmlrpc.go:147-312 | Over any token sequence and every nesting: a value cut anywhere before its end is refused as incomplete, and what follows it decides nothing |
| XmlRpcCuts.CutResponse | internal/cobbler/xmlrpc.go:111-143 | A response cut anywhere before the end of its value is refused as incomplete; cut behind it, it returns the value |
| XmlRpcCuts.NoValue | internal/cobbler/xmlrpc.go:117-118 | A response without a value is refused as incomplete |
| XmlRpcStreams.DecodeValue | internal/cobbler/xmlrpc.go:147-205 | The loop over the mutable token stream computes the decoder function and leaves the stream at its rest |
| XmlRpcStreams.DecodeStruct | internal/cobbler/xmlrpc.go:225-247 | The same for the struct loop that fills a map |
| XmlRpcStreams.DecodeMember | internal/cobbler/xmlrpc.go:249-275 | The same for a member |
| XmlRpcStreams.DecodeArray | internal/cobbler/xmlrpc.go:277-299 | The same for the array loop that fills a slice |
| XmlRpcStreams.ReadText | internal/cobbler/xmlrpc.go:209-223 | The same for character data |
| XmlRpcStreams.SkipTo | internal/cobbler/xmlrpc.go:302-312 | The same for skipping an element |
| XmlRpcStreams.DecodeResponseStream | internal/cobbler/xmlrpc.go:111-143 | The response loop computes the response function |
| XmlRpcStreams.EncodeValue | internal/cobbler/xmlrpc.go:35-97 | Appends to the builder a document whose meaning is the value; fails exactly on unsupported values |
| XmlRpcStreams.EncodeStruct | internal/cobbler/xmlrpc.go:53-76 | For every map iteration order the members written mean the map |
| XmlRpcStreams.EncodeArray | internal/cobbler/xmlrpc.go:77-92 | The items written mean the list, in order |
| XmlRpcStreams.EncodeRequest | internal/cobbler/xmlrpc.go:19-33 | Read with the same decoder, a request names the method and carries the arguments in order; there is none exactly when an argument is unsupported |
| XmlRpcStreams.EncodeThenDecode | internal/cobbler/xmlrpc.go:35-299 | The round trip of the two imperative codecs: for every encodable value and everything behind it, decoding what was encoded returns the value and leaves the rest |
| GoText.AtoiFormat | internal/cobbler/xmlrpc.go:167-171 | Integer text round trip for every 64-bit integer |
| GoText.AtoiIff | internal/cobbler/xmlrpc.go:167-171 | Atoi accepts the numerals of 64-bit integers, with any zeros in front and the signs that fit, and nothing else |
| EnvChain.Validate | internal/validation/envchain.go:21-66 | The errors reported are exactly the problems of the list, and there are none if and only if the list is non-empty, labels are unique, there is one root, every predecessor is declared and no label reaches itself |
| EnvChain.IsAcyclic | internal/validation/envchain.go:68-85 | With unique labels, true exactly when no environment reaches itself by any number of predecessor steps |
| EnvChain.ClimbsOut | internal/validation/envchain.go:73-83 | One climb ends on any input and decides whether the environment reaches itself or the climb runs into a cycle |
| EnvChain.RevisitMeansCycle | internal/validation/envchain.go:77-80 | A climb that meets a label again proves that some environment of the list reaches itself |
| EnvChain.ReturnMeansCycle | internal/validation/envchain.go:68-85 | Coming back to a label by any number of steps is a cycle of the list |
| EnvChain.CheckLabels | internal/validation/envchain.go:28-56 | Duplicates reported are exactly the repeated labels, and roots are counted exactly |
| EnvChain.CheckPredecessors | internal/validation/envchain.go:58-63 | Undeclared predecessors are reported exactly |
| ChainWalk.ChainOrder | internal/validation/envchain.go:89-105 | On an admitted chain with non-empty labels the unguarded walk terminates and returns the same order as the guarded one |
| ChainWalk.ChainOrderFromUyuni | internal/controller/contentproject_controller.go:318-336 | The guarded walk terminates on any input and returns that order |
| ChainWalk.OrderIsRootPath | internal/controller/contentproject_controller.go:318-336 | On any input the order is one path from a root, each environment directly after its predecessor, without repetition |
| ChainWalk.OrderIsMaximal | internal/validation/envchain.go:95-104 | On an admitted chain the path goes on until nothing follows |
| ChainWalk.OrderIsPermutationIffNoFork | internal/validation/envchain.go:89-105 | The order is a permutation of the input if and only if no two environments share a predecessor |
| ChainWalk.ForkDropsABranch | internal/validation/envchain.go:92-94 | Forks that admission accepts, acyclicity included, and whose order silently lacks a branch |
| ChainWalk.WalkEndsIffLabelsNonEmpty | internal/validation/envchain.go:95-104 | On every admitted chain, forks or not, the unguarded walk ends if and only if no environment on the order has an empty label |
| ChainWalk.WalkEndsIffNoForkAndNonEmpty | api/v1alpha1/contentproject_types.go:6-8 | Without forks: if and only if all labels are non-empty, which only the field pattern guarantees |
| ChainWalk.ClimbEnds | internal/validation/envchain.go:68-85 | In an admitted chain every climb reaches the root: by counting declared labels |
| ChainWalk.OnTheWalk | internal/validation/envchain.go:95-104 | Without forks every environment is on the walk |
| ChainWalk.PromotionIffAdjacent | internal/validation/promotion.go:26-60 | Promotion admission accepts a pair if and only if it is adjacent in the chain order, for every admitted chain without forks |
| ChainWalk.PromotionIffDeclaredSuccessor | internal/validation/promotion.go:48-59 | With forks it accepts exactly the declared predecessor pairs, so also those of the dropped branch |
| FormData.GetAfterSet | internal/controller/formula_values.go:345-360 | Reading a path after writing it gives the value, for every form and path |
| FormData.GetElsewhere | internal/controller/formula_values.go:345-360 | A write leaves every prefix-incomparable path as it was |
| FormData.GetUnder | internal/controller/formula_values.go:345-360 | A write replaces everything below its path |
| FormData.SetCommutes | internal/controller/formula_values.go:345-360 | Writes at incomparable paths commute |
| FormData.ComparableWritesDiffer | internal/controller/formula_values.go:345-360 | Writes of texts at a path and below it never commute |
| FormData.OrdersAgree | internal/controller/formula_values.go:156-164 | When no key is a segment prefix of another, every map iteration order builds the same form data |
| FormData.OrdersThatDiffer | internal/controller/formula_values.go:156-164 | Otherwise two orders are constructed that build different form data |
| FormData.OrderIndependentIffKeysApart | internal/controller/formula_values.go:156-164 | Confluence of the bulk merge, exactly: independent of iteration order if and only if no key is a segment prefix of another, for every form and prefix |
| FormData.EntryStands | internal/controller/formula_values.go:156-164 | When no key is a segment prefix of another, every entry of the source stands below the source's path, or at the top level without one, after the merge in any order |
| FormData.MergeLeavesApart | internal/controller/formula_values.go:156-164 | Whatever is apart from all entries of the source stays |
| FormData.MergeSource | internal/controller/formula_values.go:156-164 | The merge loop computes the merge in the order in which the map yields its entries; with such keys each entry stands below the source's path, and every path apart from them is left alone |
| FormData.WithinReflexive | internal/controller/formula_values.go:384-402 | Subset comparison is reflexive on nested data |
| FormData.WithinTransitive | internal/controller/formula_values.go:384-402 | and transitive |
| FormData.WithinAntisymmetric | internal/controller/formula_values.go:384-402 | and antisymmetric |
| FormData.WithinKeepsPaths | internal/controller/formula_values.go:384-402 | A subset holds at every path: what is wanted anywhere is present there |
| FormulaSync.ReferenceStands | internal/controller/formula_values.go:165-184 | Explicit references override what came before: a resolved reference's value stands at its path unless a later one writes there |
| FormulaSync.TopLevelReferenceStands | internal/controller/formula_values.go:171-181 | The same for a reference without a path: each of its entries stands at the top level |
| FormulaSync.ReferencesLeaveApart | internal/controller/formula_values.go:165-184 | References leave every path apart from theirs as it was |
| FormulaSync.Resolve | internal/controller/formula_values.go:148-185 | Static values, then each bulk source merged in some order of its entries, then the references in order; a missing source stops at the first one |
| FormulaSync.ResolutionOutcome | internal/controller/formula_values.go:148-185 | The first source that is not there, or else the first reference that cannot be applied, decides: waited for when it is only missing, refused otherwise; without any the form data resolves |
| FormulaSync.ResolvedEntryStands | internal/controller/formula_values.go:156-164 | In the resolved form data every entry of a bulk source stands below the source's path, unless a later source or a reference writes there |
| FormulaSync.StaticValuesStand | internal/controller/formula_values.go:148-185 | and static values stand wherever nothing else is written |
| FormulaSync.ResolutionsAgree | internal/controller/formula_values.go:148-185 | When no source has a key that is a segment prefix of another, the same inputs always resolve alike |
| FormulaSync.ResolutionsMayDrift | internal/controller/formula_values.go:148-185 | Otherwise two resolutions are constructed of which one does not hold where the other has been applied: unchanged inputs drift, or are written again |
| FormulaSync.SyncPass | internal/controller/formula_values.go:82-142 | Resolution and synchronisation together: an applying pass with unique names converges the store, and with such sources no later pass over the same inputs writes anything or reports drift |
| FormulaSync.SyncFormulas | internal/controller/formula_values.go:82-142 | Against a store that may add defaults and calls that may fail: success leaves the desired set assigned; applying with unique names converges and reports no drift; not applying writes no data and reports drift exactly when something is missing; a converged store is not written again |
| FormulaSync.SyncData | internal/controller/formula_values.go:112-140 | The per-formula loop behind it, with its exact drift verdict; it stops at the first formula that does not resolve, if not before |
| FormulaSync.SyncFormula | internal/controller/formula_values.go:112-140 | One formula: left alone when the store holds what it wants, else written or reported as drift |
| FormulaSync.RepeatedNameNeverConverges | internal/controller/formula_values.go:112-140 | Why names must be unique: two assignments of one formula with different scalars can never both hold |
| PackageSweep.StepDrains | internal/controller/packagecleanup_controller.go:76-126 | Each batch removes a given unblocked package or at least as many unblocked ones ahead of it as the cap exceeds the blocked ones ahead of it |
| PackageSweep.BacklogAheadShrinks | internal/controller/packagecleanup_controller.go:145-148 | By induction over consecutive batches, the backlog ahead of a package shrinks by that amount each time |
| PackageSweep.GoneWithinBound | internal/controller/packagecleanup_controller.go:145-148 | The bound for one package |
| PackageSweep.BacklogDrains | internal/controller/packagecleanup_controller.go:145-148 | With fewer than the cap blocked, all U unblocked packages are gone once n batches satisfy n * (M - B) >= U |
| PackageSweep.EveryBatchDeletes | internal/controller/packagecleanup_controller.go:83-126 | With fewer than the cap blocked, every batch with an unblocked eligible package deletes one |
| PackageSweep.StepStarves | internal/controller/packagecleanup_controller.go:76-86 | Once the cap is filled by older blocked packages, a batch cannot reach a package, whatever ties |
| PackageSweep.StarvesForever | internal/controller/packagecleanup_controller.go:76-86 | and no later batch does |
| PackageSweep.BlockedFrontStopsEverything | internal/controller/packagecleanup_controller.go:83-126 | If the oldest M are all blocked, a batch changes nothing |
| PackageSweep.AlwaysSweptIff | internal/controller/packagecleanup_controller.go:74-126 | With ties broken in any way: every sufficiently long run sweeps an unblocked package if and only if fewer than M blocked packages are as old as it or older |
| PackageSweep.EverSweptIff | internal/controller/packagecleanup_controller.go:74-126 | and some run sweeps it if and only if fewer than M blocked packages are strictly older |
| PackageSweep.StarvingRun | internal/controller/packagecleanup_controller.go:74-86 | The run in which every tie falls against the package, of any length |
| PackageSweep.SweepingRun | internal/controller/packagecleanup_controller.go:74-86 | The run in which every tie falls in its favour |
| PackageSweep.FilterByAge | internal/controller/packagecleanup_controller.go:64-73 | Exactly the candidates of known, sufficient age; the others are counted |
| PackageSweep.Sort | internal/controller/packagecleanup_controller.go:74-78 | Oldest first, the same packages, ties in any order |
| PackageSweep.ProcessOne | internal/controller/packagecleanup_controller.go:91-125 | The fate of a package is exactly what the two live checks, the kind of the run and the removal make of it; only a deleted one goes |
| PackageSweep.ProcessBatch | internal/controller/packagecleanup_controller.go:88-126 | Each counter is the number of packages of the batch with that fate, and exactly the packages that pass both checks, and whose removal does not fail, are gone |
| PackageSweep.Sweep | internal/controller/packagecleanup_controller.go:58-135 | A batch of the oldest packages that are old enough, as many as the cap allows; every counter is the number of packages it stands for, and they add up; exactly what passes both live checks goes, nothing in a dry run; and without errors a batch is a step of the drain argument |
| RpmHeader.ReadHeaderOfFile | internal/rpm/header.go:39-68 | Reading the byte layout of any lead, signature section, padding, main section and payload returns exactly the fields of the package the section describes if its name, version, release and architecture are all non-empty, and refuses it as incomplete otherwise |
| RpmHeader.EverySectionDescribes | internal/rpm/header.go:53-63 | Every section describes exactly one package: repeated tags, records of other types and texts without terminator included |
| RpmHeader.CutFileIsRefused | internal/rpm/header.go:39-79 | Cut anywhere before the end of its main section a file is refused, and the place of the cut decides the error |
| RpmHeader.ReturnedHeadersAreComplete | internal/rpm/header.go:64-66 | Whatever the data, a header that is returned has all four fields |
| RpmHeader.SectionReads | internal/rpm/header.go:70-90 | A section laid out anywhere is parsed back: table, store and size |
| RpmHeader.IndexReads | internal/rpm/header.go:81-88 | The index loop reads back every entry |
| RpmHeader.ReadsFields | internal/rpm/header.go:53-67 | The fields read are those the section describes, epoch and source flag included |
| RpmHeader.ReadsText | internal/rpm/header.go:92-102 | A field is what the last record for the tag points to, up to a NUL or the end of the store; nothing when that record is of another type or points behind the store |
| RpmHeader.MainOffsetIsAligned | internal/rpm/header.go:47 | The main header offset is the least multiple of 8 at or after the signature's end |
| RpmHeader.ParseSectionBytes | internal/rpm/header.go:70-90 | On every byte string no index or slice is out of range, and the store offset and the end that the section's own lengths give, before they are checked, stay below 2^37 plus the length |
| RpmHeader.ReadMainSection | internal/rpm/header.go:39-51 | The same for both sections of a file, the main one being looked for no further than seven bytes behind the data |
| RpmHeader.ReadHeaderBytes | internal/rpm/header.go:39-68 | The whole reader computes the specified result |
| RpmHeader.ReadFields | internal/rpm/header.go:53-67 | The field reads are in range for any parsed section |
| Promotion.AtMostOneRequestPlusLostWrites | internal/controller/contentprojectpromotion_controller.go:117-153 | Over every run of one object, Uyuni accepts at most one request plus one per status write lost right after an acceptance |
| Promotion.SucceededMeansPromoted | internal/controller/contentprojectpromotion_controller.go:183-199 | In every reachable state Succeeded implies an accepted request, a later poll showing the target built, and NotBefore <= StartedAt <= CompletedAt |
| Promotion.MisreportsIffAcceptedOnBuilt | internal/controller/contentprojectpromotion_controller.go:124-199 | The exact condition, which can be read off the target when the request goes out: after a first acceptance that is recorded, some continuation reports success without the target having changed since if and only if the target showed BUILT at that moment |
| Promotion.MisreportsIffStillOldBuild | internal/controller/contentprojectpromotion_controller.go:155-199 | At any later moment of an unfinished promotion: if and only if the target still shows BUILT, unchanged since the request |
| Promotion.SucceedsInOnePass | internal/controller/contentprojectpromotion_controller.go:124-199 | One undisturbed pass may both request a promotion and report it succeeded on the build that stood before |
| Promotion.SucceededMeansFinished | internal/controller/contentprojectpromotion_controller.go:155-199 | Over every run, Uyuni's own steps included, in which no request is accepted while the target shows BUILT, Succeeded means that the target was built after a change since the request |
| Promotion.RequestedStays | internal/controller/contentprojectpromotion_controller.go:117-153 | PromotionRequested is never reset and no request follows it, over every run |
| Promotion.TerminalStays | internal/controller/contentprojectpromotion_controller.go:34-44 | Succeeded and Failed are absorbing |
| Promotion.PhaseGoesBack | internal/controller/contentprojectpromotion_controller.go:89-93 | Phase is no anchor: Running goes back to Pending and on to Succeeded without a second request |
| Promotion.ReconcileKeeps | internal/controller/contentprojectpromotion_controller.go:28-203 | Every pass keeps the counting and timing invariant |
| Promotion.PassDecides | internal/controller/contentprojectpromotion_controller.go:45-227 | What a pass whose writes land makes of an unfinished promotion: failed, succeeded or pending exactly for the stated causes, with the times and the version it records |
| Promotion.FailsOnlyWithCause | internal/controller/contentprojectpromotion_controller.go:45-227 | Over every run, whatever becomes of the writes: a promotion fails only when it cannot be made, Uyuni refuses the request for another reason than being busy, or the target is missing or failed to build |
| Promotion.BusyIsRetried | internal/controller/contentprojectpromotion_controller.go:124-146 | After any number of busy answers the status is as it was, and the promotion may still succeed |
| Promotion.PromotionObject.ReconcilePass | internal/controller/contentprojectpromotion_controller.go:28-203 | The pass over the mutable object computes the state machine's step |
| Promotion.PromotionObject.ActPass | internal/controller/contentprojectpromotion_controller.go:46-97 | Its gates, in the source's order, each with its own status write |
| Promotion.PromotionObject.ExecutePass | internal/controller/contentprojectpromotion_controller.go:97-105 | Its start part, with a crash point behind the write |
| Promotion.PromotionObject.RequestPass | internal/controller/contentprojectpromotion_controller.go:124-153 | Its request part, each write with a crash point |
| Promotion.PromotionObject.PollPass | internal/controller/contentprojectpromotion_controller.go:155-203 | Its polling part |
| ImageBuild.CallsAreBounded | internal/controller/imagebuild_controller.go:124-163 | Over every run and however stale the cache: ScheduleImageBuild calls <= 1 + lost status writes + failed uncached reads |
| ImageBuild.NextKeepsCounted | internal/controller/imagebuild_controller.go:124-163 | The counting invariant behind it, over the whole version history |
| ImageBuild.ActionStays | internal/controller/imagebuild_controller.go:124-163 | A recorded action stays the build's action over every run |
| ImageBuild.ImageStays | internal/controller/imagebuild_controller.go:254-268 | Over every run an image once recorded stays |
| ImageBuild.DuplicateIffBlindRead | internal/controller/imagebuild_controller.go:124-136 | With an action recorded and a cache that has not seen it, a second call happens if and only if the uncached read fails (and Uyuni accepts) |
| ImageBuild.SchedulingRecords | internal/controller/imagebuild_controller.go:145-163 | A pass that schedules records the action, and as the baseline the largest image listed before |
| ImageBuild.PollingRecords | internal/controller/imagebuild_controller.go:248-312 | A pass that polls records the action's verdict, a timeout as a failure, and a build under way as running exactly when its image is known: the least one above the recorded baseline, which stays once known |
| ImageBuild.FirstAboveIsLeast | internal/controller/imagebuild_controller.go:254-268 | The image taken is the least id above the baseline, or none if there is none |
| ImageBuild.CallsSinceCreationAreBounded | internal/controller/imagebuild_controller.go:124-163 | The same from the moment the object is created |
| ImageBuild.FindsOwnImageIff | internal/controller/imagebuild_controller.go:254-268 | For any baseline and any of the images created since: polling takes it if and only if the baseline covers every image from before and none created since is older |
| ImageBuild.FindsOwnImageIffListedAndFirst | internal/controller/imagebuild_controller.go:145-147 | With the baseline that scheduling records: if and only if the images could be listed, or there were none, and the build's own image is the first one since |
| ImageBuild.RecordsOwnImageIff | internal/controller/imagebuild_controller.go:145-268 | From scheduling to polling: the build's own image is recorded if and only if the images could be listed at scheduling time, or there were none, and none listed with it now is older |
| ImageBuild.OverlappingBuildsShareAnImage | internal/controller/imagebuild_controller.go:254-268 | Of two overlapping builds the one whose image comes second takes the other's image |
| ImageBuild.MaxImageId | internal/controller/imagebuild_controller.go:343-355 | The maximum loop, and 0 when the images cannot be listed |
| ImageBuild.FindImage | internal/controller/imagebuild_controller.go:254-268 | The search loop computes the least id above the baseline |
| ImageBuild.ImageBuildObject.ReconcilePass | internal/controller/imagebuild_controller.go:124-176 | The pass over the mutable object computes the state machine's step |
| ImageBuild.ImageBuildObject.SchedulePass | internal/controller/imagebuild_controller.go:124-163 | Its scheduling part |
| ImageBuild.ImageBuildObject.PollAction | internal/controller/imagebuild_controller.go:248-312 | Its polling part |
| TaskRuns.EveryHistoryIsOk | internal/controller/task_controller.go:140-173 | In every reachable state: at most 10 runs, only the last may be active, completion time exactly on finished runs, numbers never decreasing and at most 11 |
| TaskRuns.NextKeepsHistory | internal/controller/task_controller.go:57-83 | Every pass and every user action keeps it |
| TaskRuns.AppendKeeps | internal/controller/task_controller.go:158-172 | Trimming drops one finished run from the front and never an active one |
| TaskRuns.RefreshKeeps | internal/controller/task_controller.go:226-275 | Refreshing changes active runs only |
| TaskRuns.FinishedRunsNeverChange | internal/controller/task_controller.go:226-275 | Over a pass every finished run stays as it was, except the oldest of a full history |
| TaskRuns.PassStoresResults | internal/controller/task_controller.go:57-94 | What a pass stores whose status writes land: each run as the results have it, and exactly when none is active any more and it is asked for, by the annotation, the lack of any run, or a changed specification, in this order, a new one with the next number, for which the oldest of ten makes room |
| TaskRuns.PassRecords | internal/controller/task_controller.go:57-94 | The annotation goes exactly when the run it asked for is stored and the strip lands; the generation is recorded exactly by a pass that gets to its last write, whether it has scheduled anything or found a run active |
| TaskRuns.NumbersRepeat | internal/controller/task_controller.go:157-171 | From any full history, over every run: each run stored from then on is number eleven |
| TaskRuns.StrippedOnlyWhenDurable | internal/controller/task_controller.go:66-80 | The rerun annotation goes only from a pass that has stored the run it asked for |
| TaskRuns.RerunsAreBounded | internal/controller/task_controller.go:61-80 | Over every run: annotation runs <= requests + lost or refused run writes + failed strips, stale reads included |
| TaskRuns.DuplicateIffRunFinished | internal/controller/task_controller.go:72-79 | Two passes: the first stores the requested run and fails to strip the annotation; the second schedules a duplicate for the same request if and only if it finds that run finished. The comment in the source promises there is none |
| TaskRuns.NothingRunsWithoutTrigger | internal/controller/task_controller.go:110-121 | With everything observed no later pass runs anything |
| TaskRuns.ChangeIsRunIffIdle | internal/controller/task_controller.go:61-83 | The first pass that goes through records a changed specification in any case; however long the controller goes on, the change is run once if no run was active then and never if one was |
| TaskRuns.SpecChangeIsSwallowed | internal/controller/task_controller.go:61-83 | In the second case the other writes of the pass do not matter |
| TaskRuns.ChangeRunsAgainIffRunFinished | internal/controller/task_controller.go:63-83 | Two passes: the first stores the run of a changed specification and does not record the generation; the second runs the same change again if and only if it finds that run finished |
| TaskRuns.RunsSinceCreation | internal/controller/task_controller.go:57-94 | From the creation of a task, over every run, stale reads included: runs <= requests + versions of the specification + passes that did not record what they did, and every history on the way is in order |
| TaskRuns.TaskObject.ReconcilePass | internal/controller/task_controller.go:57-94 | The pass over the mutable history computes the state machine's step |
| TaskRuns.TaskObject.RefreshActiveRuns | internal/controller/task_controller.go:226-275 | The refresh loop fails exactly when an unfinished run cannot be read; else each unfinished run succeeded when some outcome is good and none bad or waiting, failed when some is bad and none good or waiting, is mixed when there are both and none waiting, and runs otherwise; the completion time is set in the first three, and everything else stays |
| TaskRuns.TaskObject.CollectResults | internal/controller/task_controller.go:236-272 | The result loop decides the phase of one run in the same way |
| TaskRuns.TaskObject.StartRun | internal/controller/task_controller.go:140-173 | The new run, the trimmed history, and the writes behind them |
| TaskRuns.TaskObject.StoreRerun | internal/controller/task_controller.go:66-80 | Run stored first, annotation stripped second, with a crash point after each |
| TaskRuns.TaskObject.StoreOther | internal/controller/task_controller.go:66-94 | Run stored first, generation recorded last, with a crash point between |
| ChannelRetry.NextKeepsInv | internal/controller/system_controller.go:1081-1106 | Whatever becomes of a pass's writes: an action is tracked exactly when a time is, and every retry is paid for by a check-in or an unrecorded scheduling |
| ChannelRetry.RunKeepsInv | internal/controller/system_controller.go:479-494 | Over every run |
| ChannelRetry.RetriesNeedCheckIns | internal/controller/system_controller.go:479-494 | Over every run whose scheduling passes lose no last write and take no annotation back, retries <= check-ins |
| ChannelRetry.RetryFollowsCheckIn | internal/controller/system_controller.go:1098-1104 | and between a retry and the scheduling before it the minion has truly checked in, although stored and reported times are rounded to seconds |
| ChannelRetry.PassDecides | internal/controller/system_controller.go:1081-1106 | A pass schedules an action exactly when the channels have drifted, or the tracked action has failed and the minion has checked in since, and Uyuni takes it; what it schedules is tracked, and what has completed or is gone is not |
| ChannelRetry.FormulasAreRecorded | internal/controller/system_controller.go:1044-1066 | Formula values are applied and recorded exactly when the generation or the annotation asks for it, nothing fails, and no annotation is taken back |
| ChannelRetry.RetryRepeatsIffUnrecorded | internal/controller/system_controller.go:1044-1066 | The next pass repeats a retry without a check-in if and only if the last write was lost, or the pass applied formula values without an error while the annotation was set and the update that takes it back was not refused: that update reads the stored status back over what the pass had set |
| ChannelRetry.AppliesAgainIffTakenBack | internal/controller/system_controller.go:1044-1066 | After a pass that applies a new generation's formula values and loses no last write, the next one applies them again if and only if the first took the annotation back, or was refused to while it asked for them |
| ChannelRetry.OneCheckInTwoRetries | internal/controller/system_controller.go:1044-1066 | A run with nothing failing, the formula annotation set by the user, one check-in and two retries |
| ChannelRetry.SystemObject.ChannelActionFailed | internal/controller/system_controller.go:1081-1106 | The check on the object's fields computes the verdict and what stays tracked |
| ChannelRetry.SystemObject.FormulaPass | internal/controller/system_controller.go:1044-1066 | The formula part on the object's fields: generation noted, annotation taken back, status read back, last write |
| ChannelRetry.SystemObject.ChannelPass | internal/controller/system_controller.go:479-494 | The pass over the object stores what the state machine's step says |
| ClientPool.EveryStateIsCoherent | internal/pool/pool.go:372-382 | In every reachable state each entry tagged with a provider holds the very client cached for it, whatever changes in the cluster |
| ClientPool.EveryStateIsNumbered | internal/pool/pool.go:61-309 | In every reachable state the clients of two providers, or of a provider and of Cobbler, are two |
| ClientPool.ForReachesTheProvider | internal/pool/pool.go:61-209 | Field by field: a client for a named provider has that provider's address, TLS setting, certificate and login; there is none exactly when none is cached and the provider, its Secret, one of its keys or its CA Secret is missing, or its login is refused |
| ClientPool.CobblerReachesTheProvider | internal/pool/pool.go:143-184 | The same for Cobbler, which does not log in but needs a certificate that parses |
| ClientPool.OwnClientReaches | internal/pool/pool.go:271-309 | An Organization with a login of its own: the live provider's address and trust, or the snapshot's when the provider is gone, and exactly when there is no client |
| ClientPool.SharedClientReaches | internal/pool/pool.go:253-269 | One without: the live provider's client, or else one built from the snapshot, and exactly when there is none |
| ClientPool.AnswersStay | internal/pool/pool.go:61-77 | What a lookup has answered the next one answers again, whatever has changed |
| ClientPool.SharedClientsGoWithTheProvider | internal/pool/pool.go:369-382 | The entry that a lookup leaves goes with an invalidation of the provider if and only if it shares the provider's client |
| ClientPool.ProviderLookupsAnswerFresh | internal/pool/pool.go:61-77 | With a fresh pool, For and Cobbler answer what a fresh build gives |
| ClientPool.OrgLookupAnswersFresh | internal/pool/pool.go:215-309 | and so does ForOrganization, unless it falls back to a snapshot of a provider that is still there |
| ClientPool.OrgLookupKeepsFreshIff | internal/pool/pool.go:253-269 | A lookup leaves the pool fresh if and only if it does not fall back in that way |
| ClientPool.ForKeepsFresh | internal/pool/pool.go:61-77 | Provider lookups never make the pool stale |
| ClientPool.CobblerKeepsFresh | internal/pool/pool.go:143-167 | nor do Cobbler lookups |
| ClientPool.InvalidateIsEnoughIff | internal/pool/pool.go:369-382 | After a change of any providers, with every Secret they name, which snapshots and Organizations may name as well: invalidating them leaves the pool fresh if and only if no Organization cached without a tag depends on what changed |
| ClientPool.RotationIsFollowedIff | internal/controller/uyuniprovider_controller.go:106-131 | The rotation of a Secret is followed by the invalidation of every provider that reads it if and only if it is in the operator's namespace, or no provider reads it; none but those that name a Secret of that name are invalidated |
| ClientPool.UnfollowedChangeIsHarmlessIff | internal/controller/uyuniprovider_controller.go:32-44 | No other change of a live provider is followed: lookups go on with the cached client, and the cache stays fresh if and only if the change left what clients are built from |
| ClientPool.OwnCredentialsKeepTheOldAddress | internal/pool/pool.go:304-308 | For every fresh pool: an Organization with credentials of its own is still served with the old address after its provider has moved, even if the provider is invalidated, as when it is deleted and created anew |
| ClientPool.InvalidateOrgIsEnoughIff | internal/pool/pool.go:384-390 | After a change of one Organization, InvalidateOrg is enough if and only if no entry cached under its display name is affected; always when lookups use metadata names |
| ClientPool.StaysFreshIffCareful | internal/pool/pool.go:63-390 | Each step keeps the pool fresh if and only if it meets its condition |
| ClientPool.FreshThroughoutIffCareful | internal/pool/pool.go:63-390 | Over every run in which each change is followed by its invalidation: fresh throughout if and only if every step meets its condition |
| ClientPool.Pool.ForProvider | internal/pool/pool.go:61-77 | The lookup over the mutable maps computes the specified answer and new state |
| ClientPool.Pool.ProviderClient | internal/pool/pool.go:186-209 | The same for building a provider client |
| ClientPool.Pool.CobblerClient | internal/pool/pool.go:143-167 | The same for Cobbler clients |
| ClientPool.Pool.OrgClient | internal/pool/pool.go:215-309 | The same for Organizations |
| ClientPool.Pool.EvictProvider | internal/pool/pool.go:372-382 | The eviction loop removes exactly the provider's clients and the entries tagged with it |
| ClientPool.Pool.EvictForSecret | internal/controller/uyuniprovider_controller.go:106-131 | The loop over the providers that mention a changed Secret evicts exactly theirs |
| ClientPool.Pool.EvictOrg | internal/pool/pool.go:386-390 | Removes exactly one entry |
| Retention.KeepsTheNewest | internal/controller/imageprofile_controller.go:411-468 | A pass without errors keeps exactly min(n, keep) builds of each enforced category, each at least as new as each deleted one |
| Retention.OnlyFinishedGo | internal/controller/imageprofile_controller.go:423-434 | However it ends, a pass touches only finished builds of its profile that are not being deleted |
| Retention.NewestSuccessStays | internal/controller/imageprofile_controller.go:436-446 | Whatever the policy and however the pass ends, a newest successful build stays |
| Retention.SecondPassDeletesNothing | internal/controller/imageprofile_controller.go:455-468 | A second pass deletes nothing |
| Retention.InterruptedThenFinished | internal/controller/imageprofile_controller.go:461-465 | An interrupted pass followed by a complete one deletes what one complete pass may delete |
| Retention.LosesAllIffMisled | internal/controller/imageprofile_controller.go:417-446 | A pass over a list that may be out of date can delete the last successful build if and only if the list shows every live success and, besides, at least as many deleted ones as are to be kept, each as new; a list without deleted builds never does |
| Retention.RollbackAlwaysLeft | internal/controller/imageprofile_controller.go:436-446 | Over every run, with policies edited, passes interrupted and lists out of date, a profile that has a successful build keeps one, as long as no list misleads in that way |
| Retention.Namespace.DeleteOldestBeyond | internal/controller/imageprofile_controller.go:455-468 | The sort and delete loop: prunes the category, and reports success exactly when it has pruned all of it |
| Retention.Namespace.Finished | internal/controller/imageprofile_controller.go:417-434 | The selection loop picks exactly the two categories |
| Retention.Namespace.EnforceRetention | internal/controller/imageprofile_controller.go:411-451 | The pass over the namespace: enforced exactly when it reports no error, otherwise in part, failed builds only after all successful ones |

## Left out

- CobblerSystem deletion, a CobblerSystem without an owning System, and status conditions in the netboot hand-off.
- Resolving each formula right before it is written: `SyncPass` resolves all assignments first.
- XML tokenising, EscapeText and character encoding: the codec starts at tokens, and a text is the token it is read back as.
- Floats in the codec: known by the text Go prints for them; that ParseFloat undoes this is a condition of the round trip.
- setPath's in-place update: nested maps are values here, so aliasing between a source's map and the form data is not captured.
- In-place sorting of the sweep's and retention's lists: the library sort is a method that returns some sorted arrangement.
- Parsing of JSON, YAML and JSONPath in formula values: sources are found or missing maps.
- The formula store of Uyuni: any function of name and form data that keeps what it is given.
- The ImageBuild build-now annotation, which clears the status in memory before a patch, and the recording of image details.
- Stale cached reads are modelled for netboot, ImageBuild, Task and the list of retention; promotion and channel passes read
  the stored object, and the netboot methods on objects do, while the protocol machine also starts passes from earlier copies.
  An edited promotion specification is not modelled.
- Which build of the target Uyuni shows: a change of its status since the request is taken for the promotion's own.
- Task kinds, target resolution, time-to-live deletion, and a reboot task that fails after scheduling some of its actions.
- In channel retry an update of the object reads the stored status back, as the client library does, and a pass is one step: a check-in during a pass counts as before or after it.
- Package sweep over changing data: the drain results are for a fixed backlog; one batch is modelled on any data.
- Client pool: check and store of a lookup are two critical sections in the source and one step here; the cached organization
  id is not modelled; a Get error other than not found counts as not found.
- Fingerprints, cron schedules, find-or-create reconcilers, webhooks for single fields, informers, leader election, HTTP and TLS.
