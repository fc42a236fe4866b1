# Eraser: what may be deleted, when, and who waits for whom

Eraser removes images from the nodes of a Kubernetes cluster. This project models the parts that decide about
deletions and proves what they guarantee.

- **On a node** (`Text`, `Images`, `Exclusion`, `AliasIndex`, `ContainerRuntime`, `Collector`, `Scanner`, `Remover`,
  `RemovalProperties`, `Pipeline`). The collector and the remover index every image by ID, name and digest, separate
  running from other images, apply the exclusion list, and delete by reference or prune with `*`. The loops are methods
  over maps and over a runtime store whose deletions may fail; each is proved against a specification of *all* its runs,
  and the properties are proved of that specification. The *ID hypothesis* used by some of them says that image IDs are
  not empty, none is `*`, and none is a name or digest of a different image.
- **Inside a pod** (`Fifo`, `Channel`, `Handshake`, `HandshakeSafety`, `HandshakeLists`, `HandshakeProgress`).
  Collector, scanner and remover wait for each other over four named pipes. `Handshake` has one step function per
  process, each program counter naming the statement to be executed next; opening one end of a FIFO blocks until the
  other end is opened, as `open()` in IEEE Std 1003.1-2017 specifies. Schedules are arbitrary interleavings, for safety
  also with stops anywhere.
- **In the manager** (`NodeFilter`, `JobStatus`, `ApiServer`, `Manager`, `ApiInvariant`, `ManagerInvariant`,
  `ManagerProperties`, `ForeignPods`, `Execution`, `Outcomes`, `JobOwners`, `Reconcilers`, `Schedule`). The imagejob,
  imagelist and imagecollector controllers are processes over a shared API server: each step is one request, which may
  get lost or lose its reply, and between any two steps the other controllers, the pods, the nodes, the ImageList and
  the clock may move and the manager may restart. Status writes carry a version and are refused when it is stale.
  `Reconcilers` writes the three `Reconcile` functions as imperative code that runs while everybody else moves
  (`Execution`), ties them request by request and answer by answer to the state machine, and draws what the running
  manager guarantees; `Outcomes` says what one reconcile achieves. `Schedule` follows the collector's requeue timer.

History variables (`log`, `failedListings`, `removed`, `lost`, `disabled`, `born`, `plans`, `multiple`, `gaps`) record
what happened; no step depends on them.

## Where the code differs from its documentation

The model follows the code.

- A success ratio strictly between 0 and 1 does not work as documented: whole numbers are divided before the comparison,
  so any node that neither succeeds nor is skipped fails the job (`JobStatus.AllOrNothing`,
  `JobStatus.ThreeOfFourFails`).
  `JobStatus.ExactIffWhole` and `JobStatus.ExactWithinDesired` say exactly which ratios work.
- An excluded name does not protect the image from a list that reaches it by another name
  (`RemovalProperties.OtherTagDefeatsExclusion`); `RemovalProperties.ExclusionHoldsIff` gives the exact condition.
- An exclusion entry that ends in `:*` is cut at its first `:`, so it covers more than the tags of its name
  (`Exclusion.TagWildcard`).
- The count of removed images may exceed the images lost (`RemovalProperties.AliasesAreCountedTwice`);
  `RemovalProperties.EveryRunCountsExactlyIff` gives the exact condition on list and listing, for distinct and non-empty
  image IDs and any names.
- The remover gives up if the collector has not yet created the pipe it is to be told on
  (`HandshakeProgress.RaceIsReal`); `HandshakeProgress.LostIff` says exactly which schedules lose that race.
- Pods are listed by type, so a job can count another job's pods (`ForeignPods.CountsExceedNodes`);
  `ManagerProperties.NodeAccounting` gives the exact condition for the counts to add up.
- A deletion that goes through but is reported as an error lets the collector's next job start at once
  (`Schedule.ErrorAfterDeletionSkipsTheWait`), and so, a second later, does a job whose template cannot be read
  (`Schedule.LostTemplateSkipsTheDelay`); `Schedule.AlwaysKeepsIntervalIff` says for which configurations the interval
  is kept all the same, with either, both or none of these faults.

## Model

| member | source | states |
|---|---|---|
| Text.SplitJoin | pkg/utils/utils.go:396-407 | splitting a string and joining the fields again yields the string, so no character of a repo digest or exclusion entry is lost |
| Images.DigestPartMeaning | pkg/utils/utils.go:392-412 | a repo digest without `@` is malformed; of `repository@digest` exactly the digest is kept |
| Images.ProcessRepoDigests | pkg/utils/utils.go:392-412 | the digests come out once each, in any order, as exactly the digest parts of the well-formed entries; the errors are the malformed entries in order |
| Images.ByIdListed | pkg/remover/helpers.go:22-43 | the ID map has exactly the listed IDs as keys and maps each to a listed entry with that ID |
| Images.LastEntryCounts | pkg/remover/helpers.go:22-43 | of the entries with one ID the last one counts |
| Images.ReferencesOfEntry | pkg/utils/utils.go:154-166 | the references of a listed image are exactly its ID, its tags, and the texts its repo digests have between the first `@` and the next |
| Images.DescribeListing | pkg/remover/helpers.go:22-43 | one description per listed image, in listing order, and an ID map that describes the last entry of each ID, whatever order digests come in |
| Exclusion.MergeExcluded | pkg/utils/utils.go:263-287 | an entry is in the exclusion set exactly if some file lists it |
| Exclusion.IsExcluded | pkg/utils/utils.go:172-246 | true exactly if some entry covers the given string or, when it is a listed ID, one of its names or digests; hence independent of every iteration order |
| Exclusion.PlainEntry | pkg/utils/utils.go:172-196 | an entry that ends in neither wildcard covers itself and nothing else |
| Exclusion.ExcludedByUnion | pkg/utils/utils.go:282-284 | merged lists protect what either list protects and nothing else |
| Exclusion.ExcludedIsMonotone | pkg/utils/utils.go:172-246 | more entries or more references never protect less |
| Exclusion.RepositoryWildcard | pkg/utils/utils.go:198-219 | `p/*` covers every reference that starts with `p/`; exactly those if `p` holds no `*`, otherwise everything from the first `*` on is ignored |
| Exclusion.TagWildcard | pkg/utils/utils.go:222-242 | `p:*` covers every reference that starts with `p:`, and always more: exactly the references that start with `p` cut at its first `:` |
| AliasIndex.GetRunningImages | pkg/utils/utils.go:129-147 | computes the running index: later containers overwrite earlier ones |
| AliasIndex.GetNonRunningImages | pkg/utils/utils.go:149-170 | computes the index of the images whose ID is no key of the running index |
| AliasIndex.RunningIndexMeaning | pkg/utils/utils.go:129-147 | its keys are exactly the references of the containers' images; every value is a container's image with that reference |
| AliasIndex.NonRunningIndexMeaning | pkg/utils/utils.go:149-170 | its keys are exactly the references of listed images whose ID is no running key; every value is such an image with that reference |
| AliasIndex.LastContainerWins | pkg/utils/utils.go:129-147 | of several containers with a reference in common the last one gets it |
| AliasIndex.LastImageWins | pkg/utils/utils.go:149-170 | of several idle images with a reference in common the last one listed gets it |
| AliasIndex.NonRunningIsSafe | pkg/utils/utils.go:149-170 | no value of the non-running index is a key of the running index, whatever the names |
| AliasIndex.EveryAliasIsAKey | pkg/utils/utils.go:154-166 | every reference of an image that is not running can be looked up |
| AliasIndex.IdResolvesToItself | pkg/utils/utils.go:154-166 | under the ID hypothesis an ID that is not running resolves to itself |
| AliasIndex.NonRunningValues | pkg/utils/utils.go:149-170 | under the ID hypothesis the index resolves to exactly the listed IDs that are not running |
| AliasIndex.NameCanHideAnId | pkg/utils/utils.go:158-160 | without the hypothesis a name equal to another image's ID hides that image from the index: a concrete listing |
| ContainerRuntime.Runtime.DeleteImage | pkg/cri/client_v1.go:37-53 | the empty ID counts as success without a request; otherwise the store loses at most that ID, only on success, and a missing image counts as deleted |
| ContainerRuntime.LostCount | pkg/cri/client_v1.go:37-53 | the store shrinks by exactly the number of listed IDs taken from it |
| Remover.RemoveTargets | pkg/remover/helpers.go:63-97 | the target loop calls `DeleteImage` for exactly the eligible targets in order, records the references whose deletion succeeded, counts successes, and notices `*` |
| Remover.Prune | pkg/remover/helpers.go:99-126 | in some order of the index it tries every unprotected ID that is not recorded as deleted, again for each further alias while it fails, and counts successes |
| Remover.RemoveImages | pkg/remover/helpers.go:11-129 | a whole call is a target run followed, with `*`, by a prune run; the store changes by exactly its successful calls, the count is their number; it fails exactly if a listing does, and then changes nothing |
| RemovalProperties.PruneRunMeaning | pkg/remover/helpers.go:101-120 | for every map order: only candidates are tried, none after its success, and one that never succeeds is tried once per alias |
| RemovalProperties.PruneRunWithoutFailure | pkg/remover/helpers.go:101-120 | without failures a prune deletes each candidate exactly once |
| RemovalProperties.CallReason | pkg/remover/helpers.go:66-120 | every call has a reason: a target that no entry covers, by itself or as an image ID by its aliases, resolved to it, or the prune found it unprotected |
| RemovalProperties.ListCallsExactly | pkg/remover/helpers.go:66-97 | without `*`, `DeleteImage` is called exactly for the images that some target resolves to without being covered by an entry; with no hypothesis on names, whatever fails |
| RemovalProperties.ExcludedTargetsAreKept | pkg/remover/helpers.go:73-76 | a list of references each covered by some entry deletes nothing; with `*`, nothing but unprotected images |
| RemovalProperties.PruneCallsExactly | pkg/remover/helpers.go:66-120 | with `*`, under the ID hypothesis, exactly the images asked for and every listed one neither running nor protected |
| RemovalProperties.DeletionSafety | pkg/remover/helpers.go:65-120 | with no hypothesis on names: `DeleteImage` is called only with listed IDs that are no key of the running index, hence no container's image reference and no alias of one |
| RemovalProperties.ExclusionHoldsIff | pkg/remover/helpers.go:72-84 | no protected image is deleted if and only if no protected image is asked for, that is reached by a target that no entry covers |
| RemovalProperties.IdTargetsRespectExclusion | pkg/remover/helpers.go:66-120 | a list of image IDs, optionally with `*`, never deletes an image any of whose references is excluded; IDs of images that are not on the node may be among them |
| RemovalProperties.OtherTagDefeatsExclusion | pkg/remover/helpers.go:73-76 | excluding one tag does not protect the image from a list that names its other tag: a concrete run |
| RemovalProperties.LostAtMostRemoved | pkg/remover/helpers.go:65-128 | the store loses at most as many images as the count claims, whatever fails |
| RemovalProperties.CountExactIffNoRepeat | pkg/remover/helpers.go:84-119 | the count equals the images lost if and only if no image was successfully deleted twice |
| RemovalProperties.FailureFreeRun | pkg/remover/helpers.go:63-128 | without failures the images removed and the count are functions of the listing and the target list |
| RemovalProperties.OrderIndependence | pkg/remover/helpers.go:99-126 | two runs of the same list on the same node, neither with a failed delete, leave the same store and return the same count |
| RemovalProperties.PruneCompleteness | pkg/remover/helpers.go:99-126 | with `*` and no failed delete an image is kept exactly if it is running or protected, and no target resolved to it |
| RemovalProperties.CountExactIff | pkg/remover/helpers.go:84-119 | on a run without failures the count is exact if and only if no two eligible targets resolve to one image and, with `*`, each resolved image is listed by ID or protected by it |
| RemovalProperties.AlwaysCountsOnceSuffices | pkg/remover/helpers.go:65-120 | whatever the names are and whatever fails, in whatever map order: if no two eligible targets resolve to one image and, with `*`, each resolved image is protected by its ID or listed by that ID and found under it, no image is deleted twice and the count is exact |
| RemovalProperties.EveryRunCountsExactlyIff | pkg/remover/helpers.go:65-120 | every run of a list counts exactly if and only if the list and the listing meet that condition; no hypothesis on names |
| RemovalProperties.SomeFailureFreeRun | pkg/remover/helpers.go:63-128 | every list has a run in which nothing fails |
| RemovalProperties.CountedAgain | pkg/remover/helpers.go:84-119 | with `*`, if a target resolves to an unprotected image whose own ID is a target that resolves to yet another image, there is a run that deletes and counts the first image twice: the other deletion fails, and nothing is recorded under the ID |
| RemovalProperties.DistinctIdsCountExactly | pkg/remover/helpers.go:65-120 | for distinct IDs, optionally with `*` and whether or not their images are on the node, each image is successfully deleted at most once and the count is exact, whatever fails |
| RemovalProperties.AliasesAreCountedTwice | pkg/remover/helpers.go:84-86 | an image listed by ID and by tag is counted twice: a concrete run |
| Collector.GetImages | pkg/collector/helpers.go:11-82 | every unprotected image the index resolves to, once, with the names and digests of the listing; it fails exactly if a listing does |
| Collector.Select | pkg/collector/helpers.go:57-79 | whatever the map order, each ID of the index is judged once and kept exactly if the exclusion test clears it |
| Collector.CollectedExactly | pkg/collector/helpers.go:57-79 | under the ID hypothesis exactly the listed IDs that are neither running nor excluded |
| Scanner.Scan | pkg/scanners/trivy/types.go:175-231 | the first reference, digests before names, that yields a report decides; the image is failed if none does |
| Scanner.VerdictIsUnique | pkg/scanners/trivy/types.go:175-231 | that rule determines the verdict, and it is failed exactly if no reference yields a report |
| Scanner.DigestsBeforeNames | pkg/scanners/trivy/types.go:175-231 | the first digest with a report decides whatever the names yield, and only without one the first name with a report; non-compliant means an unsupported system, if those are to go, or a finding |
| Scanner.ScanAll | pkg/scanners/trivy/trivy.go:168-198 | for every point at which the total timeout is noticed: the two lists are the sub-lists of their class, the unscanned rest being failed |
| Scanner.RestFails | pkg/scanners/trivy/trivy.go:174-177 | after the timeout the whole suffix is failed and nothing more is found vulnerable |
| Scanner.ScanConserves | pkg/scanners/trivy/trivy.go:168-198 | vulnerable, failed and clean images together are the input as a multiset, for every timeout point |
| Scanner.SiftKeepsOrder | pkg/scanners/trivy/trivy.go:173-195 | each list takes images of its class from strictly increasing positions of the input |
| Scanner.SiftIsComplete | pkg/scanners/trivy/trivy.go:173-195 | every image of a class is in that class's list |
| Scanner.ClassMeaning | pkg/scanners/trivy/trivy.go:180-193 | with verdicts from `Scan`, an image before the timeout is vulnerable, clean or failed exactly as its first report says or as none reports |
| Pipeline.RunPipeline | pkg/remover/remover.go:114-141 | collector, scanner and remover in sequence with the node changing in between: the remover makes a run on exactly what the scanner sends; `DeleteImage` is called exactly for the images sent that are still listed, unused and unprotected, none of which was found OK; the count is exact; it fails exactly if a listing does |
| Pipeline.SentMeaning | pkg/scanners/template/scanner_template.go:82-90 | what the scanner passes on was collected and was not found OK, with or without the failed images |
| Pipeline.PipelineSafety | pkg/remover/helpers.go:66-97 | the same for every run of the remover on the sent list, whatever its map order and failures |
| Pipeline.SentAreCalledFor | pkg/remover/helpers.go:66-97 | for every run on the sent list: called for are exactly the images sent that are still listed, unused and unprotected |
| Pipeline.SentExactlyTheCondemned | pkg/scanners/trivy/trivy.go:112-126 | with verdicts from `Scan`, the remover is sent exactly the images whose first report is non-compliant and, if failed images are to go, those after the timeout or without any report |
| Pipeline.DeletedWereCondemned | pkg/remover/remover.go:114-141 | every image the remover deletes is one of those |
| Pipeline.PipelineCount | pkg/remover/helpers.go:84-86 | the count of a pipeline run is the number of images the node lost |
| Pipeline.PipelineEqualsPrune | pkg/collector/helpers.go:57-79 | without a scanner and without failures the pipeline leaves the same store, with the same count, as a list of `*` alone |
| Pipeline.SecondRunDeletesNothing | pkg/remover/helpers.go:99-126 | after either, the collector reports nothing and neither a prune nor the pipeline deletes anything |
| Fifo.DecodeMeaning | pkg/remover/remover.go:108-112 | a byte stream decodes to a list exactly if it is that list's whole encoding |
| Fifo.PrefixDoesNotDecode | pkg/utils/utils.go:362-365 | a prefix of an encoding that decodes at all is the whole encoding, so a list cut short is an error |
| HandshakeSafety.SafeCollector | pkg/collector/collector.go:82-134 | no step of the collector breaks the protocol invariant |
| HandshakeSafety.SafeScanner | pkg/scanners/template/scanner_template.go:59-134 | no step of the scanner breaks the protocol invariant |
| HandshakeSafety.SafeRemover | pkg/remover/remover.go:80-196 | no step of the remover breaks the protocol invariant |
| HandshakeSafety.SafeRun | pkg/utils/utils.go:328-390 | the invariant holds after every schedule of steps and stops of the three processes |
| HandshakeSafety.Causality | pkg/remover/remover.go:80-196 | after every schedule with stops: the collector succeeds and `Finish` gets past its open only after `removeImages` returned; the return for a disabled scanner is taken only without one; whoever holds a list holds its sender's, written in full |
| HandshakeLists.GatheredStays | pkg/collector/collector.go:69-100 | over every schedule with stops: what `getImages` found in its step is the collector's list from then on |
| HandshakeLists.SelectedStays | pkg/scanners/template/scanner_template.go:82-90 | what the scan selected in its step is the scanner's list from then on |
| HandshakeLists.ScannedWasGathered | pkg/scanners/template/scanner_template.go:59-80 | whoever scans holds exactly what the collector gathered |
| HandshakeLists.Provenance | pkg/remover/remover.go:108-116 | over every schedule with stops: without a scanner the remover acts on exactly what the collector gathered; with one on exactly what was selected, from exactly what had been gathered |
| HandshakeProgress.WhoCanMove | pkg/collector/collector.go:88-126 | without stops nobody is ever stuck before the last wait |
| HandshakeProgress.OutcomeOfCompleteRun | pkg/remover/remover.go:160-196 | when nobody can move, all have finished normally, unless the remover lost the race for `eraseCompleteCollect`; then the others wait for ever |
| HandshakeProgress.LostIff | pkg/remover/remover.go:160-165 | over every schedule without stops: the race is lost exactly if at some point the remover opens the pipe while the collector has closed its list but not yet created it |
| HandshakeProgress.StepsDecrease | pkg/collector/collector.go:82-134 | every step of every process lowers a lexicographic measure over program counters, tokens to write and tokens to read |
| HandshakeProgress.NoInfiniteRun | pkg/scanners/template/scanner_template.go:59-134 | so there is no infinite run |
| HandshakeProgress.EveryCompleteRun | pkg/remover/remover.go:80-196 | every schedule without stops, scanner on or off, any capacity and lists: once nobody can move, all finished normally if no such step is in the schedule, and the others wait for ever if one is |
| HandshakeProgress.RaceIsReal | pkg/remover/remover.go:161-165 | a schedule that loses the race: everything is removed, the remover exits with an error, the collector waits for ever |
| NodeFilter.VerdictMeaning | controllers/imagejob/imagejob_controller.go:473-492 | the first selector that fails to parse or matches decides about a node |
| NodeFilter.SelectIncludedNodes | controllers/imagejob/imagejob_controller.go:464-496 | fails exactly if some node reaches an unparsable selector; otherwise the matching nodes in order, and the number of the others |
| NodeFilter.FilterOutSkippedNodes | controllers/imagejob/imagejob_controller.go:498-531 | fails exactly if some node reaches an unparsable selector; otherwise the other nodes in order, and the number of the matching ones |
| NodeFilter.PickDealsOut | controllers/imagejob/imagejob_controller.go:464-531 | the two lists deal the nodes out between them in order, and their lengths add up to the node count |
| NodeFilter.FiltersAreDual | controllers/imagejob/imagejob_controller.go:464-531 | both filters fail together or succeed together; then each count is the length of the other's list |
| NodeFilter.ChooseNodes | controllers/imagejob/imagejob_controller.go:336-354 | the choice for a new job: the default label is added if missing, an unknown filter type is an error |
| NodeFilter.WithDefaultMeaning | controllers/imagejob/imagejob_controller.go:336-340 | the default label is always among the selectors, once more only if it was missing, after the configured ones |
| NodeFilter.ChoiceExactly | controllers/imagejob/imagejob_controller.go:336-354 | there is a choice exactly if the kind is `include` or `exclude` and no node's search comes to an unparsable selector; then a node is chosen exactly if a configured selector or the default label matches it, or for `exclude` if none does |
| NodeFilter.ChoiceMeaning | controllers/imagejob/imagejob_controller.go:336-354 | a node is chosen exactly if no selector matches it (exclude) or one does (include); no name twice; chosen plus skipped is the node count |
| JobStatus.ContainersFailed | controllers/imagejob/imagejob_controller.go:445-453 | true exactly if some container terminated with a non-zero code |
| JobStatus.PodsComplete | controllers/imagejob/imagejob_controller.go:436-443 | true exactly if no pod is active, or the first active one has a failed container |
| JobStatus.OverMeaning | controllers/imagejob/imagejob_controller.go:436-443 | all pods done means over; not over means some pod is active without failure; with no failed container over means all done |
| JobStatus.FirstActiveDecides | controllers/imagejob/imagejob_controller.go:436-453 | the first active pod decides: over exactly if one of its containers ended with a non-zero code, whatever comes after it |
| JobStatus.SucceededMeaning | controllers/imagejob/imagejob_controller.go:253-262 | exactly the pods in phase succeeded count as succeeded, and every other pod as failed |
| JobStatus.HandleRunningJob | controllers/imagejob/imagejob_controller.go:246-291 | waits exactly while pods are not complete, divides by zero exactly for zero desired nodes, otherwise the final status; by `JobStatus.SucceededMeaning` everything not succeeded counts as failed, even while active |
| JobStatus.CompletedMeetsRatio | controllers/imagejob/imagejob_controller.go:272-289 | a completed job has met the success ratio as a real number |
| JobStatus.AllOrNothing | controllers/imagejob/imagejob_controller.go:282 | with no more good nodes than desired, a job completes exactly if the ratio is not positive, or at most 1 and every node is good |
| JobStatus.ExactIffWhole | controllers/imagejob/imagejob_controller.go:272-289 | the phase is the documented one for every outcome if and only if the ratio is a whole number or not positive |
| JobStatus.ExactWithinDesired | controllers/imagejob/imagejob_controller.go:272-289 | for every outcome with no more good nodes than desired, if and only if the ratio is not strictly between 0 and 1 |
| JobStatus.ThreeOfFourFails | docs/docs/customization.md:41-45 | the documented example fails: ratio 0.75, three of four pods succeed, and the job is marked failed |
| ApiInvariant.SentKeeps | controllers/imagejob/imagejob_controller.go:455-462 | every justified request, delivered, dropped or with its reply lost, keeps the server's invariant and moves each job only along its life cycle |
| ApiInvariant.HappensKeeps | controllers/imagejob/imagejob_controller.go:118-156 | so does everything else that happens in the cluster |
| ManagerInvariant.JobPcStays | controllers/imagejob/imagejob_controller.go:294-413 | what the imagejob controller has read stays good enough to act on, whatever others do meanwhile |
| ManagerInvariant.ListPcStays | controllers/imagelist/imagelist_controller.go:139-255 | the same for the imagelist controller |
| ManagerInvariant.CollectorPcStays | controllers/imagecollector/imagecollector_controller.go:216-280 | the same for the imagecollector controller |
| ManagerInvariant.ListingCounts | controllers/imagejob/imagejob_controller.go:240-262 | if a pod listing holds only the job's pods it is no longer than its plan, and as long as the chosen nodes if none is missing |
| ManagerInvariant.JobMovesKeep | controllers/imagejob/imagejob_controller.go:178-413 | every step of the imagejob controller keeps the invariant |
| ManagerInvariant.ListMovesKeep | controllers/imagelist/imagelist_controller.go:139-434 | every step of the imagelist controller keeps the invariant |
| ManagerInvariant.CollectorMovesKeep | controllers/imagecollector/imagecollector_controller.go:216-601 | every step of the imagecollector controller keeps the invariant |
| ManagerInvariant.RunKeeps | controllers/imagejob/imagejob_controller.go:178-204 | the invariant holds after every interleaving of steps, failures, restarts and changes in the cluster |
| ManagerProperties.LifeCycle | controllers/imagejob/imagejob_controller.go:188-201 | between any two moments of any run a job's phase only moves forward, final counts are final, a deletion time is set at most once, a deleted job stays away |
| ManagerProperties.StatusOfEveryJob | controllers/imagejob/imagejob_controller.go:188-204 | a deletion time only on jobs that have ended; a new job has no plan and no pods |
| ManagerProperties.DeletedOnlyWhenDue | controllers/imagelist/imagelist_controller.go:225-236 | outside the first reconcile and garbage collection, only ended jobs are deleted, and not before their deletion time |
| ManagerProperties.OneJobPerOwner | controllers/imagelist/imagelist_controller.go:158-176 | in every reachable state at most one job per ImageList and one for the collector, and the branch for multiple jobs has never been taken |
| ManagerProperties.PlansOnlyGrow | controllers/imagejob/imagejob_controller.go:356-404 | a started job keeps its nodes and choice, and its pods are only added to |
| ManagerProperties.OnePodPerNode | controllers/imagejob/imagejob_controller.go:341-404 | two pods of one job, even at different moments of a run, are never for the same node |
| ManagerProperties.NoPodOnFilteredNode | controllers/imagejob/imagejob_controller.go:341-404 | every pod is for a node that was listed when its job started and that the filter let through |
| ManagerProperties.NodeAccounting | controllers/imagejob/imagejob_controller.go:246-270 | for every ended job: skipped plus chosen is desired; the counts stay within desired, or reach it, exactly if no more pods, or as many, were listed as nodes chosen; so they do when only its own pods were listed, and none was missing |
| ManagerProperties.CountedPods | controllers/imagejob/imagejob_controller.go:246-270 | over all runs the final counts are the numbers of listed pods that had and had not succeeded; an active pod was among them exactly if some active pod had a failed container, and then the failed count is positive |
| ManagerProperties.CompletedJobsMeetTheRatio | controllers/imagejob/imagejob_controller.go:272-289 | over all runs a completed job has met the ratio configured when its pods were counted |
| ManagerProperties.ReportedBeforeDeleted | controllers/imagelist/imagelist_controller.go:182-236 | when the imagelist controller deletes a job, its ImageList carries exactly that job's counts |
| ForeignPods.CountsExceedNodes | controllers/imagejob/imagejob_controller.go:206-219 | a reachable state with two succeeded pods for one node: after a restart the swept job's pod is counted for the next one |
| Reconcilers.ReconcileImageJob | controllers/imagejob/imagejob_controller.go:178-204 | whatever others do during its calls: it sends exactly the requests the state machine is to send and takes one of its steps for each answer, from idle to idle; if every call is answered and the job gets its plan, each chosen node has had a pod created |
| Reconcilers.ReconcileImageList | controllers/imagelist/imagelist_controller.go:139-177 | the same; and from a state the manager can reach it never returns the error for multiple child jobs |
| Reconcilers.HandleJobListEvent | controllers/imagelist/imagelist_controller.go:179-255 | report, then stamp, wait or delete, with the requests and steps of the state machine |
| Reconcilers.ReconcileCollector | controllers/imagecollector/imagecollector_controller.go:216-247 | the same, the first reconcile included |
| Reconcilers.HandleCompleted | controllers/imagecollector/imagecollector_controller.go:531-594 | stamp, wait or delete, with the requests and steps of the state machine |
| Reconcilers.RunManager | controllers/imagejob/imagejob_controller.go:178-204 | any sequence of these reconciles, with anything happening in between and meanwhile and with restarts, leaves at most one job per owner and one pod of a job per node, and the error for multiple child jobs is never returned |
| Execution.UnderwayIsRun | controllers/imagelist/imagelist_controller.go:139-177 | wherever a reconcile stands, the state is one that a run of the state machine reaches |
| Outcomes.EveryChosenNodeGetsAPod | controllers/imagejob/imagejob_controller.go:356-404 | whatever others do meanwhile: if every call of a reconcile is answered and the job gets its plan in it, each chosen node has had a pod created when it is over |
| Outcomes.NewJobGetsPods | controllers/imagejob/imagejob_controller.go:294-404 | left alone, a reconcile of a new job with template and valid filter leaves it running with desired and skipped counts set, with one new pod for each chosen node and no other |
| Outcomes.WithPodsMeaning | controllers/imagejob/imagejob_controller.go:363-404 | creating the pods adds one pending pod per node, in order, and changes nothing else |
| Outcomes.ImageJobAlone | controllers/imagejob/imagejob_controller.go:178-291 | left alone with every call answered: a new job starts or waits, a running one fails without its template, waits for its pods or ends with its final status, anything else is left alone |
| Outcomes.ImageListAlone | controllers/imagelist/imagelist_controller.go:139-255 | the same for the list: without a job it gets one with its template; the counts of an ended job are reported and it is stamped, kept until its time, or deleted with its template; nothing else changes |
| Outcomes.CollectorAlone | controllers/imagecollector/imagecollector_controller.go:216-280 | the same for the collector: the first reconcile leaves one new job and no other; later ones create a missing job, and stamp, keep or delete a single ended one; nothing else changes |
| Outcomes.AloneReconciles | controllers/imagelist/imagelist_controller.go:139-177 | these undisturbed reconciles are among the executions of the code |
| JobOwners.FilterJobListByOwner | controllers/util/util.go:74-91 | the listed jobs with an owner reference to the uid, in listing order |
| JobOwners.OwnedByMeaning | controllers/util/util.go:74-91 | exactly those jobs, from increasing positions, each as often as listed however many of its references match |
| Schedule.ChildJob.HandleJobDeletion | controllers/imagecollector/imagecollector_controller.go:249-280 | before its time the job stays and the rest of the wait is returned; after it, it is deleted |
| Schedule.ChildJob.HandleCompletedImageJob | controllers/imagecollector/imagecollector_controller.go:531-601 | the whole new job state and the result, as the specification of the timer says |
| Schedule.OnTimeRun | controllers/imagecollector/imagecollector_controller.go:531-601 | in every run each pending time and each gap respects the earliest moment: the deletion time and, unless errors after deletions are allowed, the rest of the interval |
| Schedule.EarliestBounds | controllers/util/util.go:112-115 | after a stamp by this controller that moment, with no such errors, is later than the longer of interval and delay less one second, never later than it, and equal exactly for whole-second delays |
| Schedule.CollectorSpacing | controllers/imagecollector/imagecollector_controller.go:546-600 | in every run without an error after a deletion, the next job is created later than the repeat interval, and later than the delay for the phase in which its predecessor ended, minus one second after a stamp by this controller; after a stamp by the imagejob controller, which is what losing the template leads to, only one second plus what remains of the interval is left |
| Schedule.EarliestIsReached | controllers/util/util.go:112-115 | the earliest moment is attained, for every configuration, with or without errors and lost templates |
| Schedule.ErrorAfterDeletionSkipsTheWait | controllers/imagecollector/imagecollector_controller.go:257-276 | a deletion that goes through but is reported as an error lets the next job start at once |
| Schedule.LostTemplateSkipsTheDelay | controllers/imagejob/imagejob_controller.go:228-237 | a job that loses its template is stamped with one second, yet the cleanup delay is subtracted from the interval: with a delay as long as the interval the next job starts one second after the stamp |
| Schedule.AlwaysKeepsIntervalIff | controllers/imagecollector/imagecollector_controller.go:531-601 | for runs with or without errors after deletions, and with or without lost templates: exactly the configurations for which the interval is kept in every one of them |
| Schedule.SameJudgement | controllers/imagecollector/imagecollector_controller.go:546-594 | the timer model stamps, waits and deletes exactly when the state machine of the manager does |
| Schedule.SameLoss | controllers/imagejob/imagejob_controller.go:228-237 | a lost template leaves the same phase and deletion time in the timer model as in the state machine of the manager |

## Left out

- ContainerRuntime.Runtime.DeleteImage: a deletion that fails leaves the store as it was; one that takes effect and then
  reports an error is not modelled, nor are the timeouts of the listings, which count as failed listings.
- Reconcilers.ReconcileImageJob: an execution that the process does not survive is not followed further; its steps up to
  there, and the restart, are those of `Manager`. The same holds for the other two.
- Schedule.CollectorSpacing: only the requeue timer wakes the controller once the job is deleted; other wake-ups, the
  back-off after errors, restarts of the manager and changes of the configuration are not timed.
- Schedule.AlwaysKeepsIntervalIff: speaks of the same runs; a template that is gone, not just unreadable, also makes the
  later deletion report an error, so it counts as both faults.
- ManagerProperties.OneJobPerOwner: that the listing of ImageJobs answers NotFound, which the imagelist controller takes
  for an empty list, is excluded: the API server gives that answer only if the resource itself is not installed.
- JobStatus.ExactIffWhole: the ratio is a real number; the rounding of 64-bit floats is not modelled.
- Text.SplitJoin: strings are sequences of characters; their encoding is not modelled.
- A list crosses a pipe in tokens rather than bytes, and the completion message is one token, as its few bytes are
  written at once. Writing to a pipe whose reader is gone stops the collector and the remover; the scanner logs the
  error and goes on to wait for the remover. Permissions of the pipes are not modelled.
- ImageJobs are deleted by the controllers and by garbage collection only; a user who deletes one is not modelled.
- The manager reads fresh data: informer caches, work queues and their retries are replaced by reconciles at any moment.
- A missing pod of the manager, and zero desired nodes, make the process panic; both restart all three controllers.
- After a job is created, a failure to create its pod template has no recovery in the code; only safety is claimed.
- The wait for pods to leave the pending state, the config map that carries the image list, and pod contents (images,
  resources, mounts, environment, additional labels) have no effect on the modelled state.
- Times have nanosecond resolution; the whole-second resolution of serialised timestamps is not modelled.
- JSON and YAML encoding, the syntax of label selectors and endpoint URLs, and the Trivy command line: parsing is a
  parameter, a scan of one reference yields a report or an error.
- Metrics, logging, profiling, configuration reload, API conversion, and the configmap controller would only add easy
  members.
