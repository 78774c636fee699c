# A verified model of the image mirror

The program watches Kubernetes workloads and copies the container images they use into a target
registry.  Many `Mirror` calls run at once; a mutex-protected pair of tables decides which call
may process which target and keeps failed targets out for a cooldown.  This project models that
protocol, the decision procedure of a `Mirror` call over abstract registries, platform selection,
the controllers that issue the calls, and the naming rules for target repositories, and proves
properties of all runs, all inputs and all reachable states.

| file | content |
|---|---|
| `Text.dfy`, `Refs.dfy`, `Registry.dfy`, `Selection.dfy` | strings, references, content-addressed stores with a tag table, first-match selection from lists |
| `Gate.dfy`, `Runs.dfy` | the critical sections, and any number of calls interleaved step by step with an operator |
| `Retry.dfy` | bounded retries |
| `Platforms.dfy` | platform lists, index filtering, the architecture label |
| `RepoNames.dfy`, `Exclusions.dfy` | repository names and excluded sources |
| `Mirroring.dfy`, `MirrorFacts.dfy` | one `Mirror` call as a function of configuration, registries and faults, and what holds of every call |
| `Starts.dfy`, `Landing.dfy`, `Outcomes.dfy` | what a call asks for, what its push leaves at the target, and which answer it gives when, in terms of its fields, its faults and the stores |
| `Convergence.dfy`, `Degraded.dfy` | repeated calls: when a repeat writes nothing, and exactly when it pushes again |
| `OrderFree.dfy` | how far the order of the entries of a source index decides where a call goes |
| `Programs.dfy`, `MirrorTrace.dfy` | `Mirror` calls as programs interleaved action by action, their simulation by the protocol, and a program alone as the `Mirror` function |
| `Breaches.dfy` | `Mirror` calls that overwrite a tag through a release window |
| `Instances.dfy` | concrete calls for which the exact conditions fail |
| `PusherObject.dfy` | the pusher as a class whose methods update the tables and the target in place, each proved against the functions above |
| `NameMatching.dfy`, `PodImages.dfy`, `Reconcile.dfy`, `Requeue.dfy` | skip lists, images of a pod, bulk and per-object reconciliation, requeueing |

## Reading the model

- **Steps.** Every critical section is one step.  `failureResult` reads the clock before it takes
  the lock, so a failing call takes two steps (`Stamps`, then `Fails`).  The deferred release is a
  step of its own: a call that has already given up its claim still has a second release of the
  same target ahead of it.  The stretch between the two is its *release window*.
- **Exclusion and tag immutability are conditional, and the condition is exact.**  A claim that lands
  in a release window is dropped by the second release, after which a third call can claim the same
  target.  `Runs.ExclusionExact` and `Runs.ImmutabilityExact` show that the window condition is
  necessary and sufficient for both; even a window claim of a tag that is already there endangers
  other tags, because its holder is admitted to any free target without claiming it
  (`Runs.ClaimlessReassign`).  `Runs.CooldownClosesWindows` shows when the code itself keeps the
  windows shut.  A bounced `reassignProcessing` opens a window that no cooldown protects.
- **Three levels.**  `Runs` is the protocol: any call may take any step that its phase allows.
  `Programs` runs whole calls on it, each action on the tables and the target as they are at that
  moment, with any other call in between; the reads of a pull may see any state of the target.  A
  call is there a task: its faults, what it asks for and what its pull makes of the target it sees;
  `Programs.TaskOf` is the task of a `Mirror` call.  `Programs.MirrorsAreRuns` shows that every such
  run is a run of the protocol, so that what holds of the protocol holds of the calls, and
  `Breaches` shows that `Mirror` calls do reach the failing runs of the protocol.
  `Mirroring.Mirror` is one call as a function; `MirrorTrace.MirrorAlone` shows that a `Mirror` call
  with nobody else acting computes it.
- **Registries.**  A store maps (repository, digest) to an object and tagged references to digests.
  A push attempt may land nothing, only the parts, or everything, and may report an error in each
  case.  A reference pinned by digest accepts only an object with that digest.  Repositories are
  implicit, as for a plain registry, or managed, as for ECR, where `EnsureRepository` looks them up
  and may create them; it comes before the dry-run exit, so a dry run may create one.
- **Faults.**  Every read and write of a call fails or succeeds as its environment says.  Two faults
  are silent in the program: an image that cannot be resolved for the requested platform falls back
  to the first runnable manifest, and an unreadable config or index manifest loses the architecture.
  `Convergence.Convergence` is about calls that did not degrade in this way;
  `Convergence.ConvergenceExact` says for all calls exactly when a repeat pushes again, and
  `Degraded.LostArchitectureDiverges` describes the calls that lose the architecture.
- **Order.**  Permuting or repeating the entries of an index never changes the target of a call that
  mirrors the whole index.  A call that selects entries takes the first match, so there the claim is
  false; `OrderFree.SelectedTargetExact` and `OrderFree.SubsetTargetExact` say exactly when it holds,
  and `OrderFree.OrderDecides`, `Instances.FirstEntryDecides` and `Instances.CaseDecides` give failing
  orders.
- **Keys.**  The tables are keyed by references instead of strings; `Refs.RenderInjective` shows that
  this is the same, and `PusherObject.RenderNotBlank` that the guard against blank targets in
  `finishProcessing` never fires.
- **Parameters.**  Reference parsing, hashing, the platform choice made inside an image pull, regular
  expressions and the short digest are functions passed in; of the short digest it is assumed that it
  is a non-empty hexadecimal string, and of its length where that matters that it is constant and
  below 256.  Hashes are assumed to be collision-free only in `MirrorFacts.FilterFromTargetSame` and
  for the parts in `Convergence.SamePull`.
- **Strings** are ASCII sequences; clock readings are integers.

## Model

| member | source | states |
|---|---|---|
| `Runs.NoLeakedClaims` | internal/mirror/pusher.go:499-508 | in every interleaving, double releases included, each claimed target is held by a live call, so nothing is claimed once no call runs |
| `Runs.NoCooldownNoRetry` | internal/mirror/pusher.go:1244-1262 | without a positive cooldown no run records a failure and no begin or reassign is rejected |
| `Runs.ExclusiveStep` | internal/mirror/pusher.go:1156-1262 | every step outside release windows keeps: busy calls have different targets, live calls own their claims, claims and failure records are disjoint |
| `Runs.ExclusiveClaims` | internal/mirror/pusher.go:1156-1262 | in every window-respecting run a target has at most one holder, who owns the claim, and no claimed target has a failure record |
| `Runs.RecordNeverMoves` | internal/mirror/pusher.go:1208-1239 | in such runs the branch that carries a failure record to the new target has no effect for a holder |
| `Runs.WindowClaimBreaks` | internal/mirror/pusher.go:1188-1196 | after any claim inside a release window there is a legal continuation with two holders |
| `Runs.ExclusionExact` | internal/mirror/pusher.go:499-508 | the next event keeps all window-respecting continuations exclusive if and only if it claims no target in a release window |
| `Runs.TwoHoldersThroughWindow` | internal/mirror/pusher.go:1198-1242 | a reachable run of the protocol with two holders of one target, for every cooldown and pair of targets |
| `Runs.CooldownSafety` | internal/mirror/pusher.go:1162-1173 | after a failure recorded at T, until T plus the cooldown and without a reset, nobody holds or is admitted to the target and every attempt is rejected with exactly that retry time |
| `Runs.ResetReopens` | internal/mirror/pusher.go:1051-1069 | from any state, after a reset nobody is rejected until the next failure, and no claim is touched |
| `Runs.CooldownClosesWindows` | internal/mirror/pusher.go:1244-1262 | with a positive cooldown, deferred releases before the retry time and no reset in between, claims stay out of the windows that failures open, hence one holder |
| `Runs.TagImmutability` | internal/mirror/pusher.go:824-913 | a tag other than latest, once present, keeps its digest for the rest of every window-respecting run, through commits that report errors and retries |
| `Runs.TagOverwrittenThroughWindow` | internal/mirror/pusher.go:824-913 | without the window condition a reachable run of the protocol overwrites an immutable tag, for every cooldown |
| `Runs.ClaimlessReassign` | internal/mirror/pusher.go:1236-1241 | a holder that has lost its claim is admitted to any free target without claiming it |
| `Runs.WindowClaimOverwrites` | internal/mirror/pusher.go:1188-1196 | after any claim inside a release window, of whatever target, legal steps push an absent immutable tag and overwrite it |
| `Runs.ImmutabilityExact` | internal/mirror/pusher.go:499-508 | the next event keeps every immutable tag in all window-respecting continuations if and only if it claims no target in a release window |
| `Breaches.TwoCallsAfterFailure` | internal/mirror/pusher.go:1244-1262 | three calls to one target, the first failing: a run after which the other two both hold it |
| `Breaches.TwoCallsAfterBounce` | internal/mirror/pusher.go:778-803 | the same after a bounced change of target, with prompt releases and any cooldown |
| `Breaches.OverwrittenAfterFailure` | internal/mirror/pusher.go:824-913 | Mirror calls that push a tag and overwrite it after a failure with a late release |
| `Breaches.OverwrittenAfterBounce` | internal/mirror/pusher.go:824-913 | Mirror calls that push a tag and overwrite it after a bounced change of target, for every cooldown |
| `Breaches.ReachesMeans` | internal/mirror/pusher.go:379-946 | the states so reached are those of executed runs in which all calls are Mirror calls |
| `Instances.OverwrittenForEveryCooldown` | internal/mirror/pusher.go:824-913 | four such Mirror calls into an empty registry, for every cooldown |
| `Programs.MirrorsAreRuns` | internal/mirror/pusher.go:379-946 | any number of Mirror calls, interleaved action by action with each other and the operator, is a run of the protocol: same tables, clock and tags, every call in a fitting phase |
| `Programs.ActionIsStep` | internal/mirror/pusher.go:493-913 | each action of a call that touches tables or tags is one step of the protocol, with the same effect |
| `Programs.SoundRun` | internal/mirror/pusher.go:1156-1262 | every state that an undisturbed run of Mirror calls reaches is sound: claims exclusive, pushers of immutable tags in agreement |
| `Programs.OneCallPerTarget` | internal/mirror/pusher.go:499-508 | in sound states at most one call works on a target |
| `Programs.ConcurrentTagImmutability` | internal/mirror/pusher.go:824-913 | in every undisturbed run of Mirror calls a tag that may not be overwritten keeps its digest, through all sources, faults and partial pushes |
| `Programs.MirrorsKeepTags` | internal/mirror/pusher.go:824-913 | the same from the empty system, from the moment the tag is there |
| `Programs.ConcurrentCooldown` | internal/mirror/pusher.go:1162-1173 | after a call records a failure, until the retry time and without a reset, no call works on that target and every call asking for it returns the retry error with that time |
| `Programs.NothingStaysClaimed` | internal/mirror/pusher.go:506-508 | unconditionally, once every call is done nothing is claimed |
| `Programs.NoRetryErrors` | internal/mirror/pusher.go:1244-1262 | with no positive cooldown no run leaves any Mirror call with a retry error |
| `Programs.RunStaysAddressed` | internal/mirror/pusher.go:874-913 | every interleaving keeps every object of the target under its own digest |
| `MirrorTrace.MirrorAlone` | internal/mirror/pusher.go:379-946 | a Mirror call with no event but its own actions, on the target as it is, and the clock ends with the outcome, tables and target of the Mirror function; no other worker moves |
| `MirrorTrace.FailRun` | internal/mirror/pusher.go:1244-1262 | stamp, record and deferred release lead to the tables and the error of a failing call |
| `MirrorTrace.ReassignRun` | internal/mirror/pusher.go:778-803 | a change of target on the way, bounced or admitted, leads to the end of the call that the function gives |
| `MirrorTrace.PushesRun` | internal/mirror/pusher.go:874-913 | the push attempts leave the target and the call where the retry loop does |
| `MirrorFacts.DigestPullNoninterference` | internal/mirror/pusher.go:473-497 | with digest pull on and the tag not among the ignored ones, source registries that differ only in tags give the same result, claims, target and payload |
| `Starts.PodRefMeaning` | internal/mirror/pusher.go:174-215 | the digest reference of a pod: there exactly when digest pull is on, the tag is not ignored and the image ID parses, as a whole reference or as a digest in the source repository |
| `Starts.PullReference` | internal/mirror/pusher.go:473-497 | digest pull off or the tag ignored: the source is pulled as it stands and the call goes on; otherwise the digest of the image ID is pulled, and without one a tag source ends in nil before any claim |
| `Starts.TargetMeaning` | internal/mirror/pusher.go:433-459 | the target is the tag of the source, the tag in front of its digest if there is one, else its digest |
| `Starts.RegistryMeaning` | internal/mirror/pusher.go:404-411 | a given registry is kept, Docker Hub is called docker.io, and no other field changes |
| `Starts.StartMeaning` | internal/mirror/pusher.go:396-497 | where a request leads: excluded, unparsable, no target reference, waiting for its digest, or on to its target |
| `MirrorFacts.Provenance` | internal/mirror/pusher.go:677-755 | what is pushed has as root the pulled object, a child of it, or a non-empty index of runnable entries of it; its parts are the objects under the digests of the entries of that root, none missing that the source has; it goes to the target for its architecture; a dry call pushes nothing |
| `MirrorFacts.TargetStaysAddressed` | internal/mirror/pusher.go:874-913 | a call keeps every object of the target under its own digest |
| `MirrorFacts.FilterFromTargetSame` | internal/mirror/pusher.go:1437-1506 | taking entries from the target by digest gives the same filtered index and parts as taking them from the source |
| `MirrorFacts.PushedIsPresent` | internal/mirror/pusher.go:824-913 | after a call that returned nil and was not dry, its final target answers with the digest it carried there |
| `Convergence.SamePull` | internal/mirror/pusher.go:677-755 | what is pulled depends neither on faults that did not stop the pull nor on the content of the target: the root always, the parts when stores are addressed by digest |
| `Convergence.Convergence` | internal/mirror/pusher.go:536-913 | repeating a call that pushed and returned nil writes nothing, through a reassigned target and a filtered index alike |
| `Convergence.ConvergenceExact` | internal/mirror/pusher.go:778-871 | exactly when a repeat whose reads succeed pushes again after a call that pushed and returned nil, degraded or not, in terms of the target before the first call and the payload it delivered |
| `Landing.MirrorDelivers` | internal/mirror/pusher.go:874-913 | after a call that pushed and returned nil, every object of its payload, the children of an index included, is in the target repository under its digest, the tag names the root, and nothing else differs from before |
| `Landing.MirrorLevels` | internal/mirror/pusher.go:874-913 | what such a call leaves depends on its payload and not on what its earlier attempts had left |
| `Landing.AttemptMeaning` | internal/mirror/pusher.go:880-905 | what one attempt leaves: everything if it reports success; on an error nothing, the parts with no tag changed, or everything, and that only if the target takes the root |
| `Landing.RefusedAttempt` | internal/mirror/pusher.go:880-905 | a root pushed under a digest that is not its own is refused for good, and only its parts land |
| `Landing.PushConfined` | internal/mirror/pusher.go:874-913 | a call that pushed, with success or not, changed at most the keys and the tag of its payload |
| `Convergence.SentElsewhere` | internal/mirror/pusher.go:874-913 | a push leaves what another repository answers unchanged |
| `Degraded.LostArchitectureDiverges` | internal/mirror/pusher.go:1614-1624 | with `$arch` as template, a call that cannot read the architecture of its image pushes to the bare name; the repeat pushes again exactly if the name behind the architecture is a valid target that was missing or overwritable |
| `Instances.PushedTwice` | internal/mirror/pusher.go:778-803 | such a pair of calls, into an empty registry |
| `Degraded.ArchTemplate` | internal/mirror/pusher.go:1639-1666 | the template `$arch` expands to the non-blank segments of the architecture, for every architecture |
| `OrderFree.TargetFollowsArchs` | internal/mirror/pusher.go:778-803 | the final target depends on an index only through its set of known architectures |
| `OrderFree.OrderFreeTarget` | internal/mirror/pusher.go:715-728 | a call that mirrors a whole index goes to the same place for every order and repetition of the entries |
| `OrderFree.MiddleDestination` | internal/mirror/pusher.go:645-803 | the place in question is the final target of the call |
| `OrderFree.SelectionReaches` | internal/mirror/pusher.go:1296-1329 | an entry is selected for some order exactly if it is a candidate, or runnable when there is no candidate |
| `OrderFree.SelectedTargetExact` | internal/mirror/pusher.go:1279-1329 | a call that selects one entry, because none can be resolved for the requested platform, is order-free if and only if all selectable entries lead to the same target |
| `OrderFree.OrderDecides` | internal/mirror/pusher.go:1279-1329 | two selectable images of different architecture: two orders of the index with different targets |
| `Instances.FirstEntryDecides` | internal/mirror/pusher.go:1296-1329 | such an index, mirrored for a platform that it lacks |
| `OrderFree.FilterReaches` | internal/mirror/pusher.go:1388-1425 | the subsets that filtering yields over all orders are exactly the choices of one candidate per offered platform |
| `OrderFree.SubsetTargetExact` | internal/mirror/pusher.go:682-714 | a call that mirrors a subset is order-free if and only if all such choices lead to the same place, nowhere if an entry cannot be loaded |
| `Instances.CaseDecides` | internal/mirror/pusher.go:1586-1612 | entries arm64, ARM64 and amd64: the label is sorted before the name is folded, so the order decides the target |
| `OrderFree.DistinctPlatformsOrderFree` | internal/mirror/pusher.go:1388-1425 | in particular for an index that names no platform twice |
| `MirrorFacts.NilMeaning` | internal/mirror/pusher.go:379-946 | what nil from a call that is not dry means: excluded, wanting a digest that is not known yet, in other hands, or one of three facts about the target |
| `Outcomes.EndMeaning` | internal/mirror/pusher.go:811-913 | which error the last part of a call reports when, in order, with claim, record and retry time, and what nil means: the same digest is there, the call is dry, or the payload has landed |
| `Outcomes.PushSucceeds` | internal/mirror/pusher.go:1078-1118 | a push succeeds exactly when some attempt among the first max(1, Attempts) is accepted after failures worth a retry and uninterrupted waits |
| `Outcomes.AdmissionMeaning` | internal/mirror/pusher.go:1156-1242 | a cooling target is rejected with its retry time and a claimed one left to its holder, at the claim and at a change of target; only a call that gets through both reaches its end |
| `Outcomes.MiddleMeaning` | internal/mirror/pusher.go:510-803 | authentication before the shortcuts before the pull, and the payload goes to the target in the repository for its own architecture |
| `Outcomes.ShortcutMeaning` | internal/mirror/pusher.go:536-624 | exactly when a call finds its work done before it pulls |
| `Outcomes.PrimaryMeaning` | internal/mirror/pusher.go:524-534 | a single image is chosen for the platform of the node, else for the first configured one |
| `Outcomes.PullMeaning` | internal/mirror/pusher.go:645-755 | when the pull fails, is dry, takes an image, or takes a whole index with every child that the source has |
| `Outcomes.SubsetMeaning` | internal/mirror/pusher.go:682-714 | several wanted platforms: the first runnable entries for them and the objects these load, the whole index if there are none, a failure if one cannot be loaded |
| `Outcomes.SingleMeaning` | internal/mirror/pusher.go:729-755 | one wanted platform: the image that the library resolves, else that of the selected entry |
| `Outcomes.LoadMeaning` | internal/mirror/pusher.go:1437-1506 | an entry is loaded from the target if it answers for the digest and can be read, else from the source |
| `MirrorFacts.NilWithoutTag` | internal/mirror/pusher.go:536-564 | the tag need not exist: the pod's digest in the target repository is enough |
| `Instances.NilAndNoTag` | internal/mirror/pusher.go:536-564 | such a call |
| `MirrorFacts.CallBalance` | internal/mirror/pusher.go:499-508 | a call alone leaves the claims as it found them, writes no object and no tag unless it reaches a push, and reaches none when dry |
| `MirrorFacts.RepositoryCreated` | internal/mirror/pusher.go:862-871 | exactly when a call creates a repository, in a dry run as well, and that it creates no other |
| `MirrorFacts.NoArchNoReassign` | internal/mirror/pusher.go:778-803 | unless the prefix template names the architecture a call never changes its target |
| `PusherObject.Pusher.BeginProcessing` | internal/mirror/pusher.go:1156-1186 | the tables and the verdict after asking for a target, for every state |
| `PusherObject.Pusher.FinishProcessing` | internal/mirror/pusher.go:1188-1196 | releases exactly the given target |
| `PusherObject.Pusher.ReassignProcessing` | internal/mirror/pusher.go:1198-1242 | the tables and the verdict after a change of target, in all its exits |
| `PusherObject.Pusher.FailureResult` | internal/mirror/pusher.go:1244-1262 | claim released, failure recorded at the time read before the lock, retry time in the error |
| `PusherObject.Pusher.ResetCooldown` | internal/mirror/pusher.go:1051-1069 | all records cleared and counted when a cooldown is set, nothing otherwise |
| `PusherObject.Pusher.PushWithRetry` | internal/mirror/pusher.go:874-913 | the target after all attempts; success exactly when the retry run succeeds, and then the whole payload has landed and nothing else changed; at most its keys and its tag otherwise |
| `PusherObject.Pusher.PullSource` | internal/mirror/pusher.go:645-755 | the loops over platforms and entries compute the pull that the lemmas are about |
| `PusherObject.Pusher.Prepare` | internal/mirror/pusher.go:510-803 | authentication, shortcuts, pull and final target, in the order of the program |
| `PusherObject.Pusher.MirrorClaimed` | internal/mirror/pusher.go:778-913 | from the claim to the last statement before the deferred release, with the target that release frees |
| `PusherObject.Pusher.Mirror` | internal/mirror/pusher.go:379-946 | the whole call in place: outcome, tables and target as the function over values says |
| `PusherObject.RenderNotBlank` | internal/mirror/pusher.go:1188-1196 | a rendered target is never blank |
| `Refs.RenderInjective` | internal/mirror/pusher.go:433-459 | different targets render to different table keys |
| `Retry.RunExplained` | internal/mirror/pusher.go:1078-1118 | between one and max(1, Attempts) calls, all earlier ones failed retryably, nil exactly when the last succeeded, otherwise its error or an interrupted wait |
| `Retry.TraceDetermines` | internal/mirror/pusher.go:1078-1118 | these facts determine the run |
| `Retry.WithRetry` | internal/mirror/pusher.go:1078-1118 | the loop produces the run so explained |
| `Retry.RetryClasses` | internal/mirror/pusher.go:1120-1154 | which failures are retried: an expired deadline, not a cancelled context, an early end of stream, six status codes and no other, network timeouts, four texts anywhere in the message in any case |
| `Platforms.ParseMirrorPlatforms` | internal/mirror/pusher.go:149-172 | the accumulating loop keeps the first occurrence of every case-folded key |
| `Platforms.MirrorPlatformsMeaning` | internal/mirror/pusher.go:149-172 | every value that parses is there up to case and blanks, and nothing else |
| `Platforms.SpecMeaning` | internal/mirror/pusher.go:126-147 | `os/arch` gives that system and that architecture, trimmed, with linux as the default system, and the same spec as a node with that platform |
| `Platforms.BareSpecMeaning` | internal/mirror/pusher.go:126-147 | a word without a slash is an architecture of linux |
| `Platforms.CollectDesired` | internal/mirror/pusher.go:1369-1386 | the node's platform first, then the configured ones, without repeated keys |
| `Platforms.DesiredMeaning` | internal/mirror/pusher.go:1369-1386 | the node comes first, every configured platform is there up to case and blanks, and no other |
| `Platforms.DesiredDistinguishable` | internal/mirror/pusher.go:126-172 | every desired spec has both fields set and no two share a key |
| `Platforms.MatchIsKeyEquality` | internal/mirror/pusher.go:95-113 | a fully set spec matches a runnable descriptor only with the same key, and with it if the operating systems contain no slash |
| `Platforms.SelectionsDiffer` | internal/mirror/pusher.go:1508-1522 | distinct desired specs never select the same entry |
| `Platforms.IndexFiltering` | internal/mirror/pusher.go:1388-1425 | matched and missing partition the desired specs in order; each matched spec gets its first runnable match, with its own key and at its own place |
| `Platforms.FilterIndexByPlatforms` | internal/mirror/pusher.go:1388-1425 | the loop with its early exit computes that filtering, or fails exactly when loading a chosen entry fails |
| `Platforms.SelectImageDescriptor` | internal/mirror/pusher.go:1296-1352 | the first runnable entry that names the platform up to case and blanks, else the first runnable one, none only if there is none; runnable written out: both fields there and known, no attestation |
| `Platforms.RunnableMeaning` | internal/mirror/pusher.go:1331-1352 | runnable means: architecture and operating system there and not unknown in any case, and no attestation manifest |
| `Platforms.LabelOrderFree` | internal/mirror/pusher.go:1586-1612 | the label depends only on the set of known architectures |
| `Platforms.ArchsElements` | internal/mirror/pusher.go:1590-1601 | an architecture counts exactly if some entry names it and it is neither blank nor unknown in any case |
| `Platforms.LabelMeaning` | internal/mirror/pusher.go:1586-1612 | any sorted list of exactly these architectures, joined by dashes, is the label |
| `Text.LessMeaning` | internal/mirror/pusher.go:1604-1608 | the order of the names: by the first difference, else by length |
| `Platforms.ResolveIndexArchitecture` | internal/mirror/pusher.go:1586-1612 | the loop over a set and the sort give the sorted architectures that entries name, blank and unknown ones left out, joined by dashes, or multiarch |
| `Selection.FreshMeaning` | internal/mirror/pusher.go:1369-1386 | exactly the first spec of every new key is kept, in order |
| `Selection.PickedMeaning` | pkg/util/images.go:18-46 | exactly the elements that yield something are there, in order: images of containers, rules of mappings |
| `Selection.KeptShuffle` | internal/mirror/pusher.go:1404-1419 | the two accumulated lists interleave to the list that was walked |
| `Selection.FirstsAreFirst` | internal/mirror/pusher.go:1508-1522 | the chosen entries are the first candidates of the matched specs, in order |
| `Selection.FailurePersists` | internal/mirror/pusher.go:1413-1416 | a failed load of an entry fails the whole filtering |
| `RepoNames.CleanRepoName` | pkg/util/images.go:101-134 | the stepwise rewriting yields a clean name and the value of the cleaning function |
| `RepoNames.CleanIsClean` | pkg/util/images.go:97-134 | for every input: non-empty, at most 256 long, allowed characters, no cut character at either end |
| `RepoNames.CleanFixedPoint` | pkg/util/images.go:97-134 | the fixed points of the cleaner are exactly the clean names |
| `RepoNames.CleanIdempotent` | pkg/util/images.go:97-134 | cleaning twice is cleaning once |
| `RepoNames.SanitizeMeaning` | pkg/util/images.go:101-104 | one leading slash dropped, letters folded, every other forbidden character a dash, position by position |
| `Text.LowerMeaning` | pkg/util/images.go:102 | folding maps the 26 letters one by one and keeps everything else |
| `RepoNames.CleanNames` | pkg/util/images.go:97-134 | the clean names, written out |
| `RepoNames.CleanMiddle` | pkg/util/images.go:101-134 | dashes, slashes and dots go from both ends and from nowhere else; an empty rest becomes library/unknown |
| `RepoNames.OverlongShape` | pkg/util/images.go:105-128 | an over-long name is its longest head that fits, less what is stripped, a dash, and the digest |
| `RepoNames.OverlongStayDistinct` | pkg/util/images.go:112-139 | over-long names with different short digests stay different |
| `RepoNames.CompileRules` | pkg/util/path.go:25-39 | the compiled rules in order: a mapping gives its prefix rule, or its pattern if that compiles, and nothing otherwise |
| `RepoNames.PrefixRuleMeaning` | pkg/util/path.go:46-52 | a prefix rule applies to what starts with its prefix and puts its replacement there, with exactly one slash behind it unless it is empty |
| `RepoNames.TransformMeaning` | pkg/util/path.go:40-58 | the first rule that applies decides, and without one the path is only cleaned |
| `RepoNames.TransformPath` | pkg/util/path.go:40-58 | the first applying rule rewrites, then the result is cleaned |
| `RepoNames.ResolvedPathIsClean` | internal/mirror/pusher.go:1626-1637 | for every template, metadata and path map the repository path is a fixed point of the cleaner, without tag or digest separators |
| `RepoNames.PlaceholderMeaning` | internal/mirror/pusher.go:1639-1651 | each placeholder is replaced by the value it names and other text is kept |
| `RepoNames.ExpandMeaning` | internal/mirror/pusher.go:1639-1666 | the expanded template is its segments, trimmed, without the blank ones |
| `RepoNames.RepoPathMeaning` | internal/mirror/pusher.go:1626-1637 | the mapped name stands behind the prefix and one slash, and the whole is cleaned |
| `RepoNames.ArchUnused` | internal/mirror/pusher.go:1639-1666 | a template without `$arch` expands alike for all architectures |
| `Exclusions.NormalizeExcludedRegistries` | internal/mirror/pusher.go:1668-1686 | the loop and the sort give the sorted set of normalised prefixes |
| `Exclusions.MatchExcludedRegistry` | internal/mirror/pusher.go:1745-1759 | the scan reports the first non-empty prefix that is the normalised source or is continued in it by a slash, a colon or an at sign, and none only if there is none |
| `Exclusions.ExclusionMeaning` | internal/mirror/pusher.go:1731-1759 | excluded if and only if some normalised configured prefix is the normalised source or is continued in it by a slash, a colon or an at sign; the reported one is the shortest |
| `Exclusions.HostExcludes` | internal/mirror/pusher.go:1731-1759 | a configured host, with or without a port, excludes everything under it, in any capitalisation of the two and under either name of Docker Hub |
| `Exclusions.LongerHostKept` | internal/mirror/pusher.go:1731-1743 | a host whose name merely starts with the configured one is not excluded |
| `Exclusions.PrefixSpellings` | internal/mirror/pusher.go:1688-1702 | case, blanks, a scheme and one trailing slash do not matter in a configured prefix, and the alias of Docker Hub is replaced |
| `Exclusions.HubUserReference` | internal/mirror/pusher.go:1720-1727 | a path whose first component is no host is an image of Docker Hub |
| `Exclusions.ConfigurationOrderIrrelevant` | internal/mirror/pusher.go:1668-1686 | order and repetition of the configured prefixes do not matter |
| `Exclusions.HubAliasesAgree` | internal/mirror/pusher.go:1704-1729 | the four spellings of a Docker Hub library image are always excluded together |
| `NameMatching.NewNameMatcher` | internal/controllers/controllers.go:94-154 | the index answers exactly as a scan of the raw list, for every list, order and repetition |
| `NameMatching.PlainEntryMeaning` | internal/controllers/controllers.go:100-138 | a star speaks of every object, a name without a slash of all objects of that name |
| `NameMatching.SlashEntryMeaning` | internal/controllers/controllers.go:110-128 | a name behind a slash speaks of that object of that namespace only |
| `PodImages.ImagesFromPodSpec` | pkg/util/images.go:18-46 | the images of init, then regular, then ephemeral containers, each trimmed, exactly those that name one |
| `PodImages.ImagesFromPod` | pkg/util/images.go:48-84 | every image keeps its name and container and carries the last image ID reported under that container |
| `PodImages.ReportedMeaning` | pkg/util/images.go:58-82 | the last status of the name that reports an ID decides, and no ID means that none reports one |
| `Text.ImageIDMeaning` | pkg/util/images.go:86-95 | the scheme of the runtime and blanks are dropped from an image ID |
| `Text.SpaceCodes` | internal/mirror/pusher.go:115-124 | what is trimmed are tab to carriage return and the space |
| `Reconcile.MirrorPodImages` | internal/controllers/controllers.go:356-393 | one Mirror call per image in order, with its image, container and image ID and the given namespace, pod, architecture and system, each in its field; mirrored plus failed calls is the number of images; the first retry error, else the first error, is returned |
| `Reconcile.FirstWhereMeaning` | internal/controllers/controllers.go:362-392 | what the error accumulators hold is the first answer of its kind |
| `Reconcile.ReportMeaning` | internal/controllers/controllers.go:374-393 | the first retry error is returned whatever came before it, else the first error, and nil only without any |
| `Reconcile.NamespaceMeaning` | internal/controllers/controllers.go:322-346 | skipped beats allowed; no list or a single star allows the rest; in a longer list a star is a name like any other |
| `Reconcile.SkipMeaning` | internal/controllers/controllers.go:592-664 | without failed reads a pod is skipped exactly when it is listed, or an owner is under its own kind, or the Deployment or CronJob above its ReplicaSet or Job is, in any order |
| `Reconcile.OwnersInOrder` | internal/controllers/controllers.go:592-627 | with failing reads: the first owner that is skipped or cannot be read decides |
| `Reconcile.OwnerReads` | internal/controllers/controllers.go:592-664 | only a ReplicaSet, and a Job that is not listed itself, have to be read to answer |
| `Reconcile.NodeMeaning` | internal/controllers/controllers.go:569-590 | the platform passed on is the one the node reports, trimmed, if nodes are checked and it is there, else none |
| `Reconcile.ForceReconcile` | internal/controllers/controllers.go:176-320 | asks for exactly the calls of the watched kinds, whatever Mirror answers, and cut short for a first part of them; counts eligible objects; images plus failures is all calls; without faults a call is issued exactly when an eligible object of a watched kind asks for it, field by field, and on a consistent snapshot these are the calls of the per-object reconcilers |
| `Reconcile.BulkMeaning` | internal/controllers/controllers.go:176-320 | the calls of a run without failed reads: an allowed, unlisted object, pending or running if a pod, one of its container images, and the image ID and node platform that are reported |
| `Reconcile.ForceKind` | internal/controllers/controllers.go:186-206 | one kind after given totals; cut short by a failed read it has done a first part of the list |
| `Reconcile.ReconcileRequest` | internal/controllers/controllers.go:418-432 | the calls and the result of a per-object reconciler, exactly which requests end in a failed API read, after no call, and without faults exactly the calls that the named object asks for |
| `Reconcile.RequestMeaning` | internal/controllers/controllers.go:531-560 | a call is issued exactly when the object of the request asks for it |
| `Reconcile.RequestEqualsVisit` | internal/controllers/controllers.go:531-560 | a reconciler's calls for a listed object are what the bulk run issues for it |
| `Reconcile.BulkEqualsPointwise` | internal/controllers/controllers.go:176-320 | bulk calls are the concatenation, in list order, of the per-object calls |
| `Requeue.RetryTarget` | internal/mirror/pusher.go:1162-1173 | every retry error carries the end of a cooldown recorded for the first or the final target of that very call, after which both gates reject it only on a newer failure |
| `Requeue.RequeueMeetsGate` | internal/controllers/controllers.go:403-416 | a requeue is issued exactly for a retry time still ahead, and lands when the gates to one of the call's own targets open |
| `Requeue.PodRequeueMeetsGate` | internal/controllers/controllers.go:356-416 | after one call per image the requeue lands at the end of the cooldown left by the first call that reports one, for a target of its own image |
| `Requeue.ConcurrentRetryTarget` | internal/mirror/pusher.go:1208-1217 | in the middle of all other calls: whenever an action makes a Mirror call return a retry error, it carries the time at which the gates to a target open that this call works on or asks for |
| `Requeue.ConcurrentPodRequeue` | internal/controllers/controllers.go:356-416 | the requeue of a pod whose calls run among those of all others lands at that time, for the first of its calls to report one |
| `Requeue.RejectedOnlyByNewer` | internal/mirror/pusher.go:1208-1217 | at or after the end of a cooldown a target is rejected, by begin and by reassign, exactly on a record that is still cooling, hence newer |
| `Requeue.SequentialTagImmutability` | internal/mirror/pusher.go:824-913 | calls that do not overlap keep every tag that may not be overwritten, through all sources, faults and partial pushes |

## Left out

- Go map and slice aliasing: the tables are a set and a map that the methods reassign.
- Convergence.Convergence: is stated for calls that did not degrade silently, because otherwise it is false; `Convergence.ConvergenceExact` covers all calls.
- OrderFree.SelectedTargetExact: is about calls for which the library resolves no image, in any order of the entries; the child that it resolves otherwise is a parameter of the model.
- MirrorFacts.Provenance: the parts of a payload are the objects that the entries of its root name; the objects below an index among them, which the library uploads too, are not modelled.
- A child of a whole index that is missing at the source is no part of the payload; that such a push fails is one of the outcomes that an attempt may have.
- Programs.Act: all reads of a pull are one action on a target given with the event, which need not be the current one.
- RepoNames.CleanRepoName: the character replacement before the stripping is one function, where the program uses a regular expression.
- Reference parsing by go-containerregistry, `desc.Image()` platform resolution, transports, TLS, credentials and wildcard keychains: library behaviour or plumbing, present only as functions and faults.
- The check of the pushed digest after a push, progress messages, metrics, logging and error texts: no effect on the tables or the registries.
- The ignored tags are given trimmed and in lower case, as the constructor of the pusher leaves them.
- Unicode: case folding and trimming are those of ASCII.
- The AWS client: `EnsureRepository` has the cases of the ECR target, `BasicAuth` is a call that may fail.
- Configuration loading, environment overrides, HTTP handlers, leader election, watches and event filters: single-branch plumbing.
- Namespace globs: matched by library functions outside the repository.
- ReplicaSet, Job and Node objects are looked up in one snapshot of the cluster; changes between two reads of a reconciliation are not modelled.
