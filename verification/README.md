# The package pipeline, modelled and proved

This project models the dependency pipeline of an in-browser bundler and its package CDN: how the CDN
collects a dependency tree concurrently, which files of a package an import loads, how the bundler
installs packages on demand and rolls failed installs back, how a specifier resolves to a file, and how
modules are evaluated. `dafny verify dfyconfig.toml` checks everything.

| Files | Component |
|---|---|
| `Collector*.dfy` | the CDN's tree collector as an interleaved step system, one step per lock section or await: safety, closure, confluence, termination |
| `EntryClosures.dfy`, `EntryResolution.dfy`, `ExportTargets.dfy`, `ExportSubpaths.dfy`, `ModuleParts.dfy` | entry closures on the CDN, `exports` targets, and the bundler's overlay of the parts |
| `Registry*.dfy` | the install registry: the object, its synchronous segments as steps, and theorems over whole runs: what is installed, what it holds, what is loaded and when an entry is lost; `TreeAnswers.dfy` ties its requests to the collector |
| `PackageJson.dfy`, `PackageAliases.dfy`, `Resolver.dfy`, `ResolverFiles.dfy`, `Specifiers.dfy`, `MainEntries.dfy`, `CdnLayout.dfy`, `FastPath*.dfy` | alias tables, the full resolver and what it answers for relative imports, the CDN-layout fast path, and when the two agree |
| `Evaluations.dfy`, `EvaluationOrder.dfy`, `TranspileBarrier.dfy` | module evaluation with cycle detection; the wait for a compiled graph |
| `Coalescing.dfy` | request coalescing under one mutex |
| `SideEffectImports.dfy`, `ScannerTokens.dfy` | the side-effect-import scanner and its meaning on tokens |
| `Artifacts.dfy`, `ArtifactPlaces.dfy`, `RegistryTree.dfy`, `ToolchainHash.dfy` | artifact seeding, the flat-map file system, the canonical hash pre-image |
| `Paths.dfy`, `AbsolutePaths.dfy`, `Strings.dfy`, `Sets.dfy`, `Wrappers.dfy` | path algebra and what everything shares |

Code that updates objects or runs loops is modelled by classes and methods whose postconditions equate the
new state or the result with a function; the theorems are lemmas about those functions and about runs of
the step systems built from them. npm metadata, package contents, module parsing, globbing, `JSON.parse`,
SHA-256 and file reads are arbitrary functions: parameters of every theorem.

Three results differ from what the repository says of itself:

- The header of `cdnLayoutResolve.ts` (lines 17-31) calls the fast path provably equivalent to the full
  resolver, because the main-entry alias never fires for a relative subpath. It does fire when the subpath
  is a directory with its own package.json (`FastPathExample.FastCanBeWrong`), and a package root is no
  file prefix for the full resolver (`FastPathExample.RootCanBeWrong`).
  `FastPathExact.FastIsRightExactlyWhen` and `FastPathExact.MainEntryGuard` give the exact condition, by
  where main entries lead. The model follows the code.
- `export_target` runs over a hash map. Its comment says the longest prefix wins, which leaves ties open:
  `ExportTargets.OrderMattersForTies` says exactly when the answer is a function of the exports, and
  `ExportTargets.OrderCanMatter` gives one that is not. The closure theorems take it as one.
- An install promises the entries it was asked for. It loads exactly what its trees list
  (`RegistryBounds.LoadedExactly`), so a subpath they leave out is missing, except where an expansion is in
  flight that an earlier failed install left behind. Then the entry can be lost, and only then
  (`RegistryStale.LoadsExactlyWhenFresh`); `RegistryStaleExample.EntryCanBeLost` is such a run.

## Model

| member | source | states |
|---|---|---|
| `CollectorClosure.CollectedTreeIsClosed` | crates/sandpack-cdn/src/package/collect_dep_tree.rs:315-416 | Under every interleaving, a returned tree answers the initial requests and everything the closures of its packages' recorded entries request, each by name and entries; only requests for names outside the tree that `should_skip` refuses may stay open. No entry of a listed name is lost, at the cap or not, whether it arrives before, during or after the name's resolution. |
| `CollectorOrigins.ImportsAreFollowed` | crates/sandpack-cdn/src/package/collect_dep_tree.rs:220-248 | On the returned tree: whatever a file that a listed package's entries load imports from another package, at the declared range or `latest` if npm can read it, is listed with the imported entry, or may not be listed; a self-import is an entry of the package itself. |
| `CollectorOrigins.EntriesAreImported` | crates/sandpack-cdn/src/package/collect_dep_tree.rs:315-343 | Nothing is listed for nothing: each entry of a listed package was asked for initially, or a listed package imports it. |
| `CollectorOrigins.ReleasesAreAnswers` | crates/sandpack-cdn/src/package/collect_dep_tree.rs:205-218 | Each listed release is npm's answer: to the pin where there is one, else to a range that an initial request gives or a listed importer declares. |
| `CollectorOrigins.ListedNamesAreInstallable` | crates/sandpack-cdn/src/package/collect_dep_tree.rs:305-313 | Whatever is requested, no listed name is a type declaration's or no npm name. |
| `CollectorClosure.FirstErrorStays` | crates/sandpack-cdn/src/package/collect_dep_tree.rs:292-297 | The first recorded error is kept, and it is the one returned. |
| `CollectorClosure.EveryStateIsSafe` | crates/sandpack-cdn/src/package/collect_dep_tree.rs:304-416 | In every reachable state: at most 501 names, each listed at most once, no two tasks resolving one name; out of the loop, no task is alive. |
| `CollectorClosure.InvRun` | crates/sandpack-cdn/src/package/collect_dep_tree.rs:315-416 | The collector's whole invariant (handles tracked, names attended, entries covered, cap, releases known, requests handled) holds in every reachable state. |
| `CollectorClosure.HandledStep` | crates/sandpack-cdn/src/package/collect_dep_tree.rs:315-343 | A request once pending stays recorded, refused or pending until its lock section handles it, and a recorded name is never refused: no lost update. |
| `CollectorClosure.CoveredStep` | crates/sandpack-cdn/src/package/collect_dep_tree.rs:349-390 | Every recorded entry of a resolved name has been followed or is carried by a task that will follow it, across every step. |
| `CollectorClosure.NewEntryCarried` | crates/sandpack-cdn/src/package/collect_dep_tree.rs:319-358 | An entry recorded for a resolved name, or found when its name resolves, is carried by a task from that very step on. |
| `CollectorClosure.AttendedStep` | crates/sandpack-cdn/src/package/collect_dep_tree.rs:336-366 | Every recorded name is being resolved, about to be listed, or listed, in every state without an error. |
| `CollectorSafety.TrackedStep` | crates/sandpack-cdn/src/package/collect_dep_tree.rs:345-347 | A live task's handle is always queued or awaited; the popping loop cannot miss one. |
| `CollectorSafety.ConsistentStep` | crates/sandpack-cdn/src/package/collect_dep_tree.rs:349-378 | Names are listed once, with the release recorded for them; at most one task owns a name's resolution. |
| `CollectorSafety.StepGrows` | crates/sandpack-cdn/src/package/collect_dep_tree.rs:315-366 | Recorded names and entries only grow and a resolved release never changes. |
| `CollectorConfluence.TreeIsLeast` | crates/sandpack-cdn/src/package/collect_dep_tree.rs:224-248 | Every returned tree lies below every set of names and entries closed under the requests. |
| `CollectorConfluence.SmallIsUncut` | crates/sandpack-cdn/src/package/collect_dep_tree.rs:315-343 | A returned tree of up to 500 names is uncut: every request, initial or of its own packages, is for listed entries or for a name refused at any size. |
| `CollectorConfluence.TreeIsClosed` | crates/sandpack-cdn/src/package/collect_dep_tree.rs:315-378 | A returned tree of pinned names from which the cap refused nothing is itself closed, at the pinned releases: with TreeIsLeast, the least fixpoint. |
| `CollectorConfluence.SchedulesAgree` | crates/sandpack-cdn/src/package/collect_dep_tree.rs:224-430 | If one schedule returns a tree of pinned names from which the cap refused nothing, be it of 501 names, every schedule that returns returns that same tree: same names, versions, sources, entries, and no error. |
| `CollectorTermination.NeverStuck` | crates/sandpack-cdn/src/package/collect_dep_tree.rs:396-416 | A reachable state has no next step exactly when `try_collect` has returned. |
| `CollectorTermination.StepDecreases` | crates/sandpack-cdn/src/package/collect_dep_tree.rs:315-409 | Every step strictly decreases one lexicographic measure: names below the cap, unresolved names, entries their releases could still ask for, tasks by stage. |
| `CollectorTermination.EveryScheduleEnds` | crates/sandpack-cdn/src/package/collect_dep_tree.rs:396-416 | No schedule goes on for ever, whatever the npm world offers. |
| `EntryClosures.MakeModSpecifierAbsolute` | crates/sandpack-cdn/src/package/resolver.rs:4-22 | The loop computes the segment algebra of `PushAll` without climbing above the package, and its result has only ordinary segments. |
| `EntryClosures.EntryRoots` | crates/sandpack-cdn/src/package/entries.rs:172-174 | The initial queue holds exactly the entries' own files after browser replacement. |
| `EntryResolution.FoundIsFirst` | crates/sandpack-cdn/src/package/resolver.rs:40-96 | A path is found as itself, else with the importer's extension, else with one of the seven extensions in their order, else the same for its index. |
| `EntryResolution.UnexportedFile` | crates/sandpack-cdn/src/package/entries.rs:135-143 | A subpath that `exports` does not match is the file at that path. |
| `EntryResolution.ExportedFile` | crates/sandpack-cdn/src/package/entries.rs:135-143 | An entry with an `exports` target is the file at the target. |
| `EntryResolution.MainFile` | crates/sandpack-cdn/src/package/entries.rs:135-143 | Without exports the root entry is the main file. |
| `EntryResolution.EntryIsFound` | crates/sandpack-cdn/src/package/entries.rs:135-143 | In general an entry names the first of its candidates, as the browser field has it. |
| `EntryResolution.UnloadedEntry` | crates/sandpack-cdn/src/package/entries.rs:135-143 | An entry mapped to nothing loads no file and imports no package. |
| `EntryResolution.MainEntryIsForRoot` | crates/sandpack-cdn/src/package/entries.rs:135-143 | Entries other than the root have the same closure under any main entry. |
| `EntryResolution.BrowserFileIsReplaced` | crates/sandpack-cdn/src/package/entries.rs:85-92 | The `browser` field replaces or excludes a file it names, and one it names without its extension. |
| `EntryResolution.RelativeImportIsLoaded` | crates/sandpack-cdn/src/package/entries.rs:185-190 | A loaded file's relative import, taken from its directory, is loaded. |
| `EntryResolution.BareImportIsReported` | crates/sandpack-cdn/src/package/entries.rs:191-203 | A loaded file's bare import that the `browser` field leaves alone is a package edge with its entry. |
| `EntryResolution.BareImportIsReplaced` | crates/sandpack-cdn/src/package/entries.rs:191-203 | One that the field maps is excluded, loads the file, or is the other module's edge. |
| `EntryResolution.ImportedEntry` | crates/sandpack-cdn/src/package/entries.rs:25-31 | An import's subpath is the entry `./subpath`, slashes around it trimmed, and no subpath is the root. |
| `EntryClosures.FollowDependencies` | crates/sandpack-cdn/src/package/entries.rs:185-207 | One file's inner loop queues exactly its next files and records exactly its package edges. |
| `EntryClosures.FollowDependency` | crates/sandpack-cdn/src/package/entries.rs:186-206 | One dependency leads to exactly the files and the package edge its kind and the browser field give it. |
| `EntryClosures.Visit` | crates/sandpack-cdn/src/package/entries.rs:176-208 | Visiting one new file keeps the worklist invariant and leaves strictly less to explore. |
| `EntryClosures.EntryClosure` | crates/sandpack-cdn/src/package/entries.rs:146-210 | The worklist terminates and returns exactly the reachable files and the packages they import, whatever order the queue holds, with no package lacking an entry. |
| `EntryClosures.ClosureIsLeast` | crates/sandpack-cdn/src/package/entries.rs:170-210 | Those files are the least set that contains the entries' own files and is closed under relative and browser-replacement edges. |
| `EntryClosures.ClosureOfUnion` | crates/sandpack-cdn/src/package/entries.rs:145-210 | closure(E1 + E2) is closure(E1) + closure(E2), files and package edges alike. |
| `ExportTargets.FindTarget` | crates/sandpack-cdn/src/package/entries.rs:108-132 | A field without subpath keys exports only the root; otherwise an exact key wins, and the running-best loop yields the first key, in visiting order, among those with the longest matching prefix. |
| `ExportTargets.LongestWins` | crates/sandpack-cdn/src/package/entries.rs:104-128 | Whatever the visiting order, the winner is a longest match, and there is none exactly when no wildcard key matches. |
| `ExportSubpaths.WildcardMatches` | crates/sandpack-cdn/src/package/entries.rs:114-119 | A key `p*s` matches exactly the entries `p`, anything, `s`. |
| `ExportSubpaths.WildcardTarget` | crates/sandpack-cdn/src/package/entries.rs:123-124 | The target's star becomes what the key's star matched. |
| `ExportSubpaths.ExactKeyWins` | crates/sandpack-cdn/src/package/entries.rs:108-113 | In a field with subpath keys an exact key gives its own value, before any wildcard. |
| `ExportSubpaths.WholeFieldIsRoot` | crates/sandpack-cdn/src/package/entries.rs:108-132 | Without subpath keys the field is the root's target and exports nothing else. |
| `ExportTargets.OrderMattersForTies` | crates/sandpack-cdn/src/package/entries.rs:111-127 | The target does not depend on the hash map's order if and only if the entry is an exact key or the wildcard keys tying for the longest prefix agree on the target. |
| `ExportTargets.OrderCanMatter` | crates/sandpack-cdn/src/package/entries.rs:111-127 | For `./a/b.js` under the keys `./a/*` and `./a/*.js` the two visiting orders give two different targets. |
| `ModuleParts.MergeModuleParts` | packages/sandpack-bundler/src/bundler/module-registry/module-cdn.ts:139-149 | The overlay loops compute `Merge`: inlined files win, listed files only fill gaps, the `m` sets unite. |
| `ModuleParts.OverlayMany` | crates/sandpack-cdn/src/package/entries.rs:229-257 | Entry responses overlaid in any order and repetition inline exactly the transformed files of the union closure, list the rest unchanged, and give its `m`. |
| `ModuleParts.InstalledFiles` | crates/sandpack-cdn/src/package/entries.rs:226-257 | What is installed, file by file: loaded files, package.json and what was not transformed are inlined, others known by size; used packages are those imported, itself excepted. |
| `ModuleParts.MergeGrouped` | packages/sandpack-bundler/src/bundler/module-registry/module-cdn.ts:155-158 | Overlaying a pre-merged group equals overlaying its members one by one. |
| `ModuleParts.FetchModuleInstalls` | packages/sandpack-bundler/src/bundler/module-registry/module-cdn.ts:165-171 | `fetchModule(E)` depends only on the set E: it is the listing with that closure inlined. |
| `ModuleParts.StagedEqualsOneShot` | packages/sandpack-bundler/src/bundler/module-registry/index.ts:452-479 | `fetchModule(E1)` expanded by any grouping, order and repetition of E2 equals `fetchModule(E1 + E2)`. |
| `ModuleParts.NodeModule.ExpandModule` | packages/sandpack-bundler/src/bundler/module-registry/index.ts:452-479 | An installed package always equals the one-shot install of its recorded entries; expansion adds exactly the asked ones. |
| `Registry.ModuleRegistry.BatchRequest` | packages/sandpack-bundler/src/bundler/module-registry/index.ts:307-316 | The loop asks for exactly the imports that lack an entry, at the pinned, installed or declared range, with the entries they lack. |
| `Registry.ModuleRegistry.RegisterEsmFallbacks` | packages/sandpack-bundler/src/bundler/module-registry/index.ts:368-377 | Every requested name the tree dropped gets a fallback and a manifest entry, in request order, and nothing else changes. |
| `RegistrySafety.StartOne` | packages/sandpack-bundler/src/bundler/module-registry/index.ts:541-567 | A name that is not installed gets a fresh live download of its own: no running download of its key is shared, a cancelled one is replaced. |
| `RegistrySafety.FulfilFlights` | packages/sandpack-bundler/src/bundler/module-registry/index.ts:554-558 | A fulfilled download registers the package that its batch awaits, or nothing; live downloads stay exactly the awaited, unregistered ones. |
| `RegistrySafety.SettleFlights` | packages/sandpack-bundler/src/bundler/module-registry/index.ts:559-562 | Settling keeps live downloads exactly the awaited, unregistered ones: a retry that took over the key is left alone. |
| `Registry.ModuleRegistry.RollBack` | packages/sandpack-bundler/src/bundler/module-registry/index.ts:332-341 | The catch block cancels all running downloads, restores manifest and fallbacks, and deletes exactly the names registered since. |
| `Registry.ModuleRegistry.StartExpansions` | packages/sandpack-bundler/src/bundler/module-registry/index.ts:452-479 | The loop starts or shares an expansion for each entry the package lacks; a package of unknown origin takes the entries at once. |
| `RegistrySafety.AddImportAdds` | packages/sandpack-bundler/src/bundler/module-registry/index.ts:280-297 | Joining a batch adds the entry to its own package's wants and changes no other's. |
| `RegistrySafety.RequestIsMissing` | packages/sandpack-bundler/src/bundler/module-registry/index.ts:306-316 | A batch requests exactly the packages that lack an entry it wants, each for exactly the entries it lacks. |
| `RegistryRequests.RequestRanges` | packages/sandpack-bundler/src/bundler/module-registry/index.ts:307-316 | Each is asked for at its installed release, by version or as `npm:name@version` under another name; a fallback or a package of unknown origin at its installed version; one not installed at its declared range. |
| `RegistryRequests.RequestReadsBack` | crates/sandpack-cdn/src/package/collect_dep_tree.rs:44-53 | The CDN reads the range asked for an installed package back as exactly its release. |
| `RegistryRequests.DeclaredIsIgnored` | packages/sandpack-bundler/src/bundler/module-registry/index.ts:307-316 | Editing what is declared changes nothing that is asked for an installed package. |
| `RegistryRequests.CommittedRange` | packages/sandpack-bundler/src/bundler/module-registry/index.ts:345-350 | In every run a committed package is always asked for at the release it was committed with. |
| `RegistrySafety.StartAll` | packages/sandpack-bundler/src/bundler/module-registry/index.ts:541-567 | Starting a tree's downloads gives each missing name its own live download and shares no cancelled one. |
| `RegistrySafety.RollbackFlights` | packages/sandpack-bundler/src/bundler/module-registry/index.ts:332-341 | After a rollback no download in flight can register any more. |
| `RegistrySafety.ManifestGrows` | packages/sandpack-bundler/src/bundler/module-registry/index.ts:323-324 | Merging a tree keeps manifest names distinct and adds exactly the tree's names. |
| `RegistrySafety.RegisterFallbacksIs` | packages/sandpack-bundler/src/bundler/module-registry/index.ts:368-377 | Registering fallbacks adds exactly the unresolved requested names to fallbacks and manifest, once each. |
| `RegistryRequests.DroppedName` | packages/sandpack-bundler/src/bundler/module-registry/index.ts:368-377 | A requested name that neither tree nor manifest knows becomes a fallback at the requested range where fallbacks are enabled; otherwise the batch rejects. |
| `RegistryRequests.LoadedBatchEnds` | packages/sandpack-bundler/src/bundler/module-registry/index.ts:307-317 | A batch whose imports are all loaded ends at once and changes nothing. |
| `RegistryRequests.DownloadedRelease` | packages/sandpack-bundler/src/bundler/module-registry/index.ts:541-567 | A download that is no fallback's registers exactly the release the tree listed, with the entries it was started for. |
| `RegistryRuns.InvRun` | packages/sandpack-bundler/src/bundler/module-registry/index.ts:274-363 | The registry invariant holds in every state of every run: one batch, counted; manifest = installed + awaited; live downloads are exactly the awaited ones; the snapshot is restorable. |
| `RegistryRuns.OneBatchAtATime` | packages/sandpack-bundler/src/bundler/module-registry/index.ts:280-297 | In every run at most one `installBatch` is active, and manifest names are pairwise distinct. |
| `RegistryRuns.IdleMeans` | packages/sandpack-bundler/src/bundler/module-registry/index.ts:274-278 | `pendingBatches` is zero exactly when no batch is collecting, queued or running; then no download can register and the manifest is what is installed. |
| `RegistryRuns.RejectedInstallLeavesNoTrace` | packages/sandpack-bundler/src/bundler/module-registry/index.ts:306-343 | A batch that rejects leaves manifest, fallbacks and installed names as they were when it started, and they stay so under any late completions until the next batch starts. |
| `RegistryRuns.QuietUntilNextBatch` | packages/sandpack-bundler/src/bundler/module-registry/index.ts:541-567 | While no batch runs, late completions, expansions and new requests change neither manifest, fallbacks nor installed names. |
| `RegistryRuns.CancelledNeverRegisters` | packages/sandpack-bundler/src/bundler/module-registry/index.ts:550-565 | A cancelled download never registers, however late it completes and whatever retry reuses its key. |
| `RegistryContents.CommittedStays` | packages/sandpack-bundler/src/bundler/module-registry/index.ts:299-343 | In every run, whatever is answered, a committed package stays the same object, version and release through all later batches, failures included, and stays a fallback or not; its entries, file names and used packages only grow. |
| `RegistryContents.CommittedIsStable` | packages/sandpack-bundler/src/bundler/module-registry/index.ts:299-343 | Where answers are served from the releases' processed packages, its files stay the same too, except that listed ones may be inlined. |
| `RegistryContents.InstalledIsServed` | packages/sandpack-bundler/src/bundler/module-registry/index.ts:452-567 | Staged equals one-shot under every interleaving of installs, expansions, failures and late downloads: an installed package is what one request for its recorded entries installs, or a bundled package inlined whole. |
| `RegistryLoads.FinishedInstallDelivers` | packages/sandpack-bundler/src/bundler/module-registry/index.ts:306-331 | When a batch's body is done, every package it requested is installed, the manifest is exactly what is installed, and nothing loaded before is lost. |
| `RegistryLoads.ImportsAreInstalled` | packages/sandpack-bundler/src/bundler/module-registry/index.ts:299-331 | When a batch's body is done, every package it imports is installed, requested or not. |
| `RegistryLoads.WantedIsLoaded` | packages/sandpack-bundler/src/bundler/module-registry/index.ts:306-331 | When a batch's body is done, every entry it wants of a package its tree lists is loaded, unless a stale expansion of that entry was in flight when the batch started. |
| `RegistryLoads.ListedIsLoaded` | packages/sandpack-bundler/src/bundler/module-registry/index.ts:411-479 | The same for every entry that the batch's trees list. |
| `RegistryBounds.LoadedIsBounded` | packages/sandpack-bundler/src/bundler/module-registry/index.ts:306-479 | Whatever is loaded while a batch runs was loaded or being expanded when it started, or its trees list it. |
| `RegistryBounds.LoadedExactly` | packages/sandpack-bundler/src/bundler/module-registry/index.ts:306-479 | For every entry not being expanded when a batch starts: it is loaded at the batch's end if and only if it was loaded at the start or the batch's trees asked for it. |
| `RegistryBounds.AskedIsListed` | packages/sandpack-bundler/src/bundler/module-registry/index.ts:411-479 | What a batch asks for is exactly what its trees list, with the root entries of new fallbacks. |
| `RegistryBounds.ListedIsAsked` | packages/sandpack-bundler/src/bundler/module-registry/index.ts:441-444 | A package listed with entries is asked for them, one listed without for its root. |
| `RegistryBounds.UnlistedIsNotLoaded` | packages/sandpack-bundler/src/bundler/module-registry/index.ts:368-377 | A wanted subpath that no tree of the batch lists is not loaded at its end, for a package that became a fallback or any other. |
| `RegistryLoads.UnlistedAsksRoot` | packages/sandpack-bundler/src/bundler/module-registry/index.ts:368-377 | A requested package the tree does not list is a new fallback, and asked for its root entry only, whatever was wanted of it. |
| `RegistryStale.LoadsExactlyWhenFresh` | packages/sandpack-bundler/src/bundler/module-registry/index.ts:452-479 | A batch that wants one more entry of an installed package loads it in every run that finishes with a tree listing it, if and only if no expansion of that entry is in flight, when it starts, for an object a failure took back. |
| `RegistryStale.StaleRun` | packages/sandpack-bundler/src/bundler/module-registry/index.ts:452-479 | From every stale start there is such a run that ends well without the entry: it shares the stale expansion. |
| `RegistryStaleExample.StaleIsReachable` | packages/sandpack-bundler/src/bundler/module-registry/index.ts:299-343 | From a blank registry three installs lead to a stale start: the first fails while expanding a package it had registered, the second registers it again, the third wants the entry still being expanded. |
| `RegistryStaleExample.EntryCanBeLost` | packages/sandpack-bundler/src/bundler/module-registry/index.ts:299-479 | And the third can finish, its tree listing the entry, without it. |
| `RegistryLoads.StaysFresh` | packages/sandpack-bundler/src/bundler/module-registry/index.ts:332-341 | Only a failure that takes back the package itself makes an expansion in flight stale. |
| `RegistryClosure.UsedIsInstalled` | packages/sandpack-bundler/src/bundler/module-registry/index.ts:389-438 | On success every package that an installed one was found to use is installed or was requested by the used-module closure, unless one of its requests failed or was answered with nothing. |
| `RegistryClosure.OnlyMissingAreRequested` | packages/sandpack-bundler/src/bundler/module-registry/index.ts:406-412 | Only packages that an installed one uses and that are not there yet are requested, and no paths. |
| `RegistryClosure.AttemptedIsRequested` | packages/sandpack-bundler/src/bundler/module-registry/index.ts:394-417 | The closure attempts exactly the names its turns found missing, and none twice. |
| `TreeAnswers.ReplyAnswers` | crates/sandpack-cdn/src/package/collect_dep_tree.rs:224-430 | Under every interleaving the collector's reply lists a name once, each requested package it lists with all entries asked of it, and leaves one out only if `should_skip` refuses it: what the registry relies on. |
| `PackageJson.ProcessPackageJSON` | packages/sandpack-bundler/src/resolver/utils/pkg-json.ts:15-54 | The loops over main, browser, alias and exports fields fill the alias table of `Process`, or throw where it does. |
| `PackageJson.OnlyRootKeys` | packages/sandpack-bundler/src/resolver/utils/pkg-json.ts:20-51 | The alias table has no key but the package root if and only if `browser` and `exports` keys all name the root and `alias` is empty: what eligibility tests. |
| `PackageJson.MainPriority` | packages/sandpack-bundler/src/resolver/utils/pkg-json.ts:21-26 | The first main field in priority order that is a string decides, and without one there is no main entry. |
| `PackageJson.RootTarget` | packages/sandpack-bundler/src/resolver/utils/pkg-json.ts:20-44 | Where no field maps subpaths, the root maps to the `exports` string, else the empty module for `browser: false`, else the first main field, else nothing. |
| `PackageAliases.FieldOrder` | packages/sandpack-bundler/src/resolver/utils/pkg-json.ts:15-54 | The fields are laid over each other: main, `browser`, `alias`, `exports`, later ones winning. |
| `PackageAliases.AliasIsStored` | packages/sandpack-bundler/src/resolver/utils/pkg-json.ts:32-45 | A `browser` or `alias` key maps to its normalised target, a falsy one to the empty module, and an `alias` key maps everything below it too. |
| `PackageAliases.ExportIsStored` | packages/sandpack-bundler/src/resolver/utils/pkg-json.ts:48-54 | An `exports` key maps to its target, or to the empty module when it has none; the last of equal keys wins. |
| `PackageAliases.ConditionOrder` | packages/sandpack-bundler/src/resolver/utils/exports.ts:3-47 | An object's target is the first of `browser`, `development`, `default`, `require`, `import` that it has. |
| `PackageAliases.ArrayTarget` | packages/sandpack-bundler/src/resolver/utils/exports.ts:28-34 | An array's target is its first element's that has one. |
| `PackageAliases.StarIsCapture` | packages/sandpack-bundler/src/resolver/utils/exports.ts:15-17 | A star in a target becomes a reference to what the key's matched. |
| `Resolver.AliasComesToRest` | packages/sandpack-bundler/src/resolver/resolver.ts:90-135 | Without wildcard keys a path resolves exactly when five replacements bring it to rest, to where it rests; otherwise the alias is cyclic. |
| `Resolver.GetParentDirectories` | packages/sandpack-bundler/src/resolver/utils/fs.ts:15-28 | The pop loop lists the path and its ancestors down to the root directory, stopping outside it. |
| `Resolver.FollowAliases` | packages/sandpack-bundler/src/resolver/resolver.ts:90-135 | The do-while follows direct aliases up to its cycle limit and then applies wildcard keys once. |
| `Resolver.ModuleResolver.LoadPackageJSON` | packages/sandpack-bundler/src/resolver/resolver.ts:48-76 | The cached walk finds the nearest readable package.json, as an uncached one would, and keeps the cache coherent. |
| `Resolver.ModuleResolver.FindPackage` | packages/sandpack-bundler/src/resolver/resolver.ts:188-202 | The nearest package.json, else what the walk from `/index` finds, else no aliases. |
| `Resolver.ModuleResolver.Expand` | packages/sandpack-bundler/src/resolver/resolver.ts:204-231 | Extension probing with alias recursion equals `ExpandFile`, cache or not. |
| `Resolver.ModuleResolver.ResolveSpecifier` | packages/sandpack-bundler/src/resolver/resolver.ts:270-324 | The resolver with its cache equals `Resolution`: module path, probe, index probe, one retry with `/index`, errors. |
| `ResolverFiles.BareImport` | packages/sandpack-bundler/src/resolver/resolver.ts:270-290 | A bare specifier that no package.json aliases goes to the resolution of bare specifiers, with the importer's path and extensions. |
| `ResolverFiles.PackageOfPath` | packages/sandpack-bundler/src/bundler/module-registry/cdnLayoutResolve.ts:45-61 | A path below `/node_modules` names a package by its first segment, or two after a scope. |
| `Specifiers.NoRunIsLeft` | packages/sandpack-bundler/src/resolver/resolver.ts:233-239 | A normalised specifier has no backslash and no two slashes in a row. |
| `Specifiers.TrailingSlashGoes` | packages/sandpack-bundler/src/resolver/resolver.ts:233-239 | A trailing slash is dropped. |
| `Specifiers.BackslashIsSlash` | packages/sandpack-bundler/src/resolver/resolver.ts:233-239 | Backslashes count as slashes. |
| `Resolver.RetryEndsInIndex` | packages/sandpack-bundler/src/resolver/resolver.ts:309-311 | The `/index` retry cannot retry again. |
| `ResolverFiles.AnswersAreFiles` | packages/sandpack-bundler/src/resolver/resolver.ts:204-324 | Whatever the resolver answers is the empty module, a file in an installed package's map, or readable outside, unless an alias to a bare name led away. |
| `ResolverFiles.OutsideImport` | packages/sandpack-bundler/src/resolver/resolver.ts:204-324 | A relative import outside the packages that no package.json aliases is the first readable file of the path's extensions, its index's, its index's index's, else it is not found. |
| `ResolverFiles.NearestApplies` | packages/sandpack-bundler/src/resolver/resolver.ts:48-76 | The package.json that applies to a path is the first, going up its directories, that can be read and processed. |
| `CdnLayout.IsFastPathEligible` | packages/sandpack-bundler/src/bundler/module-registry/cdnLayoutResolve.ts:68-89 | The nested loops decide `Eligible`: every package.json of the package is inlined, readable, and aliases only its own directory. |
| `CdnLayout.LayoutResolver.ResolveFromCdnLayout` | packages/sandpack-bundler/src/bundler/module-registry/cdnLayoutResolve.ts:99-144 | The memoised fast path equals `Fast` and keeps its eligibility cache coherent. |
| `FastPath.ParsedSegments` | packages/sandpack-bundler/src/bundler/module-registry/cdnLayoutResolve.ts:45-61 | A normal path parses exactly into a package name of one or two segments and a rest. |
| `FastPath.NearestInside` | packages/sandpack-bundler/src/resolver/resolver.ts:48-76 | From any path in an eligible package with a root package.json, the walk stops inside the package, at a file whose only alias key is an ancestor directory. |
| `Specifiers.CollapseJoins` | packages/sandpack-bundler/src/resolver/resolver.ts:233-239 | Collapsing slash runs in a specifier does not change what it joins to. |
| `Specifiers.JoinedIndex` | packages/sandpack-bundler/src/resolver/resolver.ts:309-311 | The `/index` retry joins to the index child of what was joined before. |
| `MainEntries.FullIsAnswer` | packages/sandpack-bundler/src/resolver/resolver.ts:188-324 | For a relative import whose paths meet only main entries and no starred alias, the full resolver is `Answer`: the chain of main entries, then the extensions, then the index, then once more behind `/index`. |
| `FastPath.InsideIsMild` | packages/sandpack-bundler/src/resolver/resolver.ts:90-135 | In an eligible package only the path itself can be an alias key of its nearest package.json, so its extensions are looked up as they are. |
| `FastPath.FastRefinesFull` | packages/sandpack-bundler/src/bundler/module-registry/cdnLayoutResolve.ts:17-31 | Unless a package.json with a main entry of its own sits at the joined path or its `index` child, any fast answer is the full resolver's answer; at a package root, if no file is named by a bare extension. |
| `FastPathExact.TameIsRegular` | packages/sandpack-bundler/src/resolver/resolver.ts:90-231 | If inside eligible packages no alias key that applies holds a star and every main entry leads inside one, every path there is regular, whatever chains or cycles main entries form. |
| `FastPathExact.FastIsRightExactlyWhen` | packages/sandpack-bundler/src/bundler/module-registry/cdnLayoutResolve.ts:99-144 | In such a registry, for every import: a main entry at the joined path must lead to the fast answer's file, or to nothing and leave it to the index on the retry; without one, a phase A hit below the root is always right, and an index is unless its own main entry leads elsewhere; the fast path is right if and only if this holds. |
| `FastPathExact.MainEntryGuard` | packages/sandpack-bundler/src/bundler/module-registry/cdnLayoutResolve.ts:99-144 | From file lookups, on any disk where the joined path's main entry, if any, leads straight to files: without one the fast path is right below a root, and at a root if and only if no bare extension is a file; with one, if and only if its files give the same file, or nothing while phase A misses and a retry is left. |
| `FastPath.BrokenMainFallsBack` | packages/sandpack-bundler/src/bundler/module-registry/cdnLayoutResolve.ts:125-143 | Where the main entry leads to nothing and the fast path answers with an index, the retry makes the full resolver answer the same. |
| `FastPathExample.FastCanBeWrong` | packages/sandpack-bundler/src/bundler/module-registry/cdnLayoutResolve.ts:20-25 | A concrete package for which the header's claim fails: `./d` gives `d.js` on the fast path and `d/m.js`, the directory's main entry still without its extension, in the full resolver. |
| `FastPathExample.RootCanBeWrong` | packages/sandpack-bundler/src/bundler/module-registry/cdnLayoutResolve.ts:125-143 | And one at a package root: `.` with a file named `.js` gives that file on the fast path and `index.js` in the full resolver. |
| `Evaluations.Bundler.Evaluate` | packages/sandpack-bundler/src/bundler/module/Module.ts:163-205 | Terminates on every graph, restores the stack, ends as `EvalOf` does, with the same completions in the same order; from an idle bundler it succeeds if and only if nothing reachable is faulty or cyclic; errors are genuine. |
| `Evaluations.Bundler.RunOnStack` | packages/sandpack-bundler/src/bundler/module/Module.ts:190-195 | The try/finally pops whatever happened; success means every required module completed before. |
| `Evaluations.Bundler.RunCode` | packages/sandpack-bundler/src/bundler/module/Evaluation.ts:63-70 | Code runs from its first action to its last, once per evaluation; each of its requires completes before the next action. |
| `EvaluationOrder.SuccessIsPostOrder` | packages/sandpack-bundler/src/bundler/module/Module.ts:163-205 | The modules a successful evaluation completes are exactly the depth-first post-order of the require graph, each module's requires in program order, after those completed before. |
| `EvaluationOrder.EvaluationFailsAtFirst` | packages/sandpack-bundler/src/bundler/module/Evaluation.ts:63-103 | A failing evaluation fails with its module's first failing action, every action before which had succeeded. |
| `Evaluations.Bundler.RequireSpecifier` | packages/sandpack-bundler/src/bundler/module/Evaluation.ts:72-103 | Helpers are served in place, uncollected or unavailable specifiers fail by name, others evaluate their module. |
| `Evaluations.CompletedIsEvaluable` | packages/sandpack-bundler/src/bundler/module/Module.ts:163-205 | A module completed in a dependencies-first order has no cycle and no fault within reach. |
| `Evaluations.CycleNotCompleted` | packages/sandpack-bundler/src/bundler/module/Module.ts:168-178 | No module of a require cycle can have completed. |
| `Evaluations.StackCycle` | packages/sandpack-bundler/src/bundler/module/circularImport.ts:53-57 | The slice that `detectCycle` returns is a genuine require cycle: consecutive edges plus the closing one, reachable from the bottom of the stack. |
| `Evaluations.GenuineMeansNotEvaluable` | packages/sandpack-bundler/src/bundler/module/Evaluation.ts:80-101 | Each reported error refutes success: what it names is a reachable fault or cycle. |
| `TranspileBarrier.Finish` | packages/sandpack-bundler/src/bundler/bundler.ts:831-871 | One recursive call with the shared visited set: normal return means all it visited leads only to visited modules; failure blames a reachable module. |
| `TranspileBarrier.ReadyMeans` | packages/sandpack-bundler/src/bundler/bundler.ts:839-858 | Ready means that every reachable module is registered, has no compilation error and is compiled; each lack is its own failure. |
| `TranspileBarrier.FailsAtFirst` | packages/sandpack-bundler/src/bundler/bundler.ts:860-870 | What fails is the first dependency, in order, that does; those before it have finished. |
| `TranspileBarrier.ModuleFinished` | packages/sandpack-bundler/src/bundler/bundler.ts:831-871 | Terminates on any graph and returns normally if and only if every reachable module is present, compiled and error-free; otherwise it fails with the first failure of the depth-first walk `FinishOf`. |
| `TranspileBarrier.SettledIsReady` | packages/sandpack-bundler/src/bundler/bundler.ts:860-870 | A set of sound modules whose dependencies stay inside it covers everything its members reach. |
| `Coalescing.CompletionAnswersAll` | crates/sandpack-cdn/src/cached.rs:100-130 | When a fetch completes, every waiting caller can receive, its own waiters hold its result, no fetch is left running, and the kept value changes only on success. |
| `Coalescing.OneFetchLastGood` | crates/sandpack-cdn/src/cached.rs:59-131 | In every interleaving at most one fetch runs, and the kept value is the last good one. |
| `Coalescing.CallServesOrWaits` | crates/sandpack-cdn/src/cached.rs:64-126 | A caller waits exactly when no fetch ever succeeded, on the one running flight; it launches exactly when none runs and the value is missing or stale. |
| `Coalescing.WaiterIsAnswered` | crates/sandpack-cdn/src/cached.rs:83-130 | No missed send: a waiter's receiver holds its own flight's result from the moment it is sent and can receive as soon as the flight has sent or ended; it learns of a closed channel only if the flight ended without sending. |
| `SideEffectImports.ExtractSideEffectImports` | packages/sandpack-bundler/src/bundler/sideEffectImports.ts:41-137 | The index loops terminate and compute `Scan` on every source, malformed ones included. |
| `SideEffectImports.SkipStringFrom` | packages/sandpack-bundler/src/bundler/sideEffectImports.ts:49-61 | The string loop skips escapes and stops behind the closing quote or at the end. |
| `SideEffectImports.SkipTriviaFrom` | packages/sandpack-bundler/src/bundler/sideEffectImports.ts:94-110 | Blanks and comments after `import` are skipped, and nothing else. |
| `SideEffectImports.ScanWord` | packages/sandpack-bundler/src/bundler/sideEffectImports.ts:88-128 | An identifier is consumed whole; an `import` not behind a dot takes the string that directly follows it. |
| `ScannerTokens.ExtractsSideEffects` | packages/sandpack-bundler/src/bundler/sideEffectImports.ts:29-41 | For every unambiguously printed token list the scanner returns exactly the string bodies that follow an `import` not behind a dot, in order. |
| `ScannerTokens.ImportStatement` | packages/sandpack-bundler/src/bundler/sideEffectImports.ts:112-128 | `import 'x'` and `import "x"` yield `x`, unless a dot comes before. |
| `ScannerTokens.SkipTriviaRead` | packages/sandpack-bundler/src/bundler/sideEffectImports.ts:94-110 | On printed tokens, skipping trivia drops exactly the leading blanks and comments. |
| `ScannerTokens.StringRead` | packages/sandpack-bundler/src/bundler/sideEffectImports.ts:49-61 | A body whose quotes and backslashes are escaped is read to its own closing quote. |
| `Paths.NormalizeArray` | packages/sandpack-bundler/src/utils/path.ts:12-32 | The loop computes `PushAll`; its result has no empty, `.` or `..` segment, or `..` only as a prefix when it may climb. |
| `Paths.JoinPaths` | packages/sandpack-bundler/src/utils/path.ts:56-73 | `join` normalises its non-empty arguments glued by slashes. |
| `Paths.ResolvePath` | packages/sandpack-bundler/src/utils/path.ts:187-212 | The right-to-left loop stops at the first absolute argument or the working directory. |
| `Paths.TrimArray` | packages/sandpack-bundler/src/utils/path.ts:214-229 | Exactly the leading and trailing empty segments go. |
| `Paths.RelativePath` | packages/sandpack-bundler/src/utils/path.ts:231-255 | The common-prefix loop computes the climb to the deepest shared directory and the descent from it. |
| `Paths.SegmentsShape` | packages/sandpack-bundler/src/utils/path.ts:38-54 | Absolute results hold no `.`, `..` or empty segment, relative ones `..` only as a prefix. |
| `Paths.SegmentsOfSpelling` | packages/sandpack-bundler/src/utils/path.ts:38-54 | A normal path reads back as the segments it was spelt from. |
| `Paths.NormalizeIdempotent` | packages/sandpack-bundler/src/utils/path.ts:38-54 | Normalising twice is normalising once, for every string. |
| `Paths.ResolveAnchored` | packages/sandpack-bundler/src/utils/path.ts:187-212 | An anchored `resolve` is an absolute path of ordinary segments. |
| `Paths.ResolveRelative` | packages/sandpack-bundler/src/utils/path.ts:187-255 | `resolve(from, relative(from, to))` is `resolve(to)` for all paths that resolve to absolute ones. |
| `Artifacts.NormalizeRepoRelPath` | packages/sandpack-bundler/src/bundler/artifacts/artifactIndex.ts:134-142 | The loop accepts exactly absolute keys all of whose segments are ordinary. |
| `Artifacts.ManifestShaMap` | packages/sandpack-bundler/src/bundler/artifacts/artifactIndex.ts:209-217 | The loop folds the sidecar's entries into one map, dropping paths that do not canonicalise. |
| `Artifacts.LastEntryWins` | packages/sandpack-bundler/src/bundler/artifacts/artifactIndex.ts:209-217 | A path is in the map exactly when some entry names it, with the sha of the last one that does. |
| `Artifacts.OutIsConfined` | packages/sandpack-bundler/src/bundler/artifacts/artifactIndex.ts:149-156 | `outWithinArtifacts` accepts exactly relative paths that stay below the artifacts directory; the result is that directory and at least one more segment, all ordinary. |
| `Artifacts.GateOnCanonicalPaths` | packages/sandpack-bundler/src/bundler/artifacts/artifactIndex.ts:187-202 | On a layer of canonical paths, no seeding input leads into the layer if and only if the readable-layer gate passes and no output names a path of the layer with a trailing slash. |
| `Artifacts.GateOverlooks` | packages/sandpack-bundler/src/bundler/artifacts/artifactIndex.ts:187-202 | An output spelt with a trailing slash behind a plain file name does name that path, so the gate's comparison of spellings differs from one of paths. |
| `Artifacts.ChecksAreTheRules` | packages/sandpack-bundler/src/bundler/artifacts/artifactIndex.ts:166-185 | An entry validates if and only if it meets every seeding rule; the result carries its confined path and its dependencies. |
| `ArtifactPlaces.RefusedFor` | packages/sandpack-bundler/src/bundler/artifacts/artifactIndex.ts:166-185 | A refused entry is refused for the first rule it breaks: path, manifest, confinement, edits, blob. |
| `Artifacts.CollectInputs` | packages/sandpack-bundler/src/bundler/artifacts/artifactStore.ts:119-126 | The gate's inputs are the index, the sidecar and every confined artifact. |
| `Artifacts.ArtifactStore.Seed` | packages/sandpack-bundler/src/bundler/artifacts/artifactStore.ts:100-149 | No usable index, or any input in the writable layer: nothing is written or recorded; otherwise exactly `SeedAll`, once per session. |
| `ArtifactPlaces.IndexCounts` | packages/sandpack-bundler/src/bundler/artifacts/artifactStore.ts:100-117 | An index counts exactly if it can be read and parsed and names this very toolchain. |
| `ArtifactPlaces.OtherToolchainIsRefused` | packages/sandpack-bundler/src/bundler/artifacts/artifactStore.ts:100-117 | An index of another version or build of the toolchain seeds nothing. |
| `ArtifactPlaces.OneWritableInputRefuses` | packages/sandpack-bundler/src/bundler/artifacts/artifactIndex.ts:187-202 | A single input in the writable layer refuses the whole section. |
| `ArtifactPlaces.SpellingsAgree` | packages/sandpack-bundler/src/bundler/artifacts/artifactIndex.ts:209-217 | `/p`, `./p` and `p` in the sidecar name the same path. |
| `ArtifactPlaces.Places` | packages/sandpack-bundler/src/bundler/artifacts/artifactStore.ts:131-147 | Artifacts are read below `/app` and go to `/transpiled`, under the module's path with `.js` behind it. |
| `Artifacts.SeedableIsCopied` | packages/sandpack-bundler/src/bundler/artifacts/artifactStore.ts:131-147 | Every seedable artifact ends up at its target with the bytes it had before the run, recorded as seeded, its dependencies recorded. |
| `Artifacts.Untouched` | packages/sandpack-bundler/src/bundler/artifacts/artifactStore.ts:131-147 | No other path of the file system changes. |
| `Artifacts.SeededIsTrusted` | packages/sandpack-bundler/src/bundler/artifacts/artifactStore.ts:131-147 | Whatever a run newly seeds comes from an entry in the manifest with equal sha, not dirty, read from below the artifacts directory. |
| `RegistryTree.HasDirPrefix` | packages/sandpack-bundler/src/FileSystem/RegistryFS.ts:120-128 | The loop finds whether some key lies strictly below a directory. |
| `RegistryTree.ReaddirSync` | packages/sandpack-bundler/src/FileSystem/RegistryFS.ts:227-263 | The loops list root, scope and package directories as `Readdir` does, with its two errors. |
| `RegistryTree.ParseAbs` | packages/sandpack-bundler/src/FileSystem/RegistryFS.ts:73-87 | A normal path parses by its segments: root, scope, or package and remainder. |
| `RegistryTree.ClassifyFile` | packages/sandpack-bundler/src/FileSystem/RegistryFS.ts:139-150 | A path is a file exactly when it is a registered file's path. |
| `RegistryTree.ClassifyIsShown` | packages/sandpack-bundler/src/FileSystem/RegistryFS.ts:139-150 | A path exists exactly when it lies on the way to a registered package or file. |
| `RegistryTree.DirPrefixMeans` | packages/sandpack-bundler/src/FileSystem/RegistryFS.ts:120-128 | A directory prefix is exactly what some key continues, behind a slash unless it is the root. |
| `RegistryTree.ListedIffExists` | packages/sandpack-bundler/src/FileSystem/RegistryFS.ts:227-263 | A name is listed in a directory if and only if the path below it exists. |
| `RegistryTree.WalkVisitsFiles` | packages/sandpack-bundler/src/FileSystem/RegistryFS.ts:139-263 | Reading directories from the root reaches exactly the registered files, if no key is a directory of another. |
| `ToolchainHash.CompareBytes` | packages/transpiler/src/toolchainHash.ts:30-36 | The loop computes the lexicographic byte order. |
| `ToolchainHash.CompareIsLexicographic` | packages/transpiler/src/toolchainHash.ts:30-36 | One path comes before another exactly if it is a proper prefix or has the smaller byte where they first differ. |
| `ToolchainHash.CompareTotal` | packages/transpiler/src/toolchainHash.ts:30-36 | The order is antisymmetric and zero only on equal paths. |
| `ToolchainHash.CompareTransitive` | packages/transpiler/src/toolchainHash.ts:30-36 | The order is transitive. |
| `ToolchainHash.Concat` | packages/transpiler/src/toolchainHash.ts:38-48 | The buffer filled at a moving offset is the concatenation of the parts. |
| `ToolchainHash.BuildPreImage` | packages/transpiler/src/toolchainHash.ts:63-77 | The hashed buffer is path, zero byte and digest of every file in path order. |
| `ToolchainHash.SortIs` | packages/transpiler/src/toolchainHash.ts:69-69 | Sorting distinct paths yields the same entries in strictly ascending order. |
| `ToolchainHash.DecodePreImage` | packages/transpiler/src/toolchainHash.ts:71-77 | A pre-image of zero-free paths decodes to its paths and digests, in order. |
| `ToolchainHash.PreImageIsCanonical` | packages/transpiler/src/toolchainHash.ts:56-78 | Two file sets with distinct zero-free paths have equal pre-images if and only if every path has the same digest in both; enumeration order does not matter. |

## Left out

- FastIsRightExactlyWhen: registries with starred alias keys, or main entries that lead out of eligible packages; there `MainEntryGuard` covers imports whose own main entry leads straight to files. Extensions start with a dot in both.
- FastRefinesFull: specifiers with a backslash or a trailing slash, which neither comparison covers.
- ResolveSpecifier: tsconfig paths and bare specifiers are one opaque function of the module path, wildcard aliases another; the writable layer over the installed packages and the read caches of the file system are not modelled.
- ProcessPackageJSON: a truthy `browser` or `alias` value that is no string counts as an error, where the code would store it.
- SchedulesAgree: depths are not compared, and nothing is claimed for unpinned names, whose release the first request to arrive fixes.
- RequestReadsBack: blanks around a range string, and npm's rejection of invalid package names, are left out of the reading.
- OutsideImport: specifiers that already end in `index`, which get no retry, and absolute ones.
- InstalledIsServed: fallback packages, whose files come from another origin; for bundled packages the `m` list is not compared.
- WantedIsLoaded: one direction, for every batch; the other is `LoadsExactlyWhenFresh`, for a batch that wants a single entry of an installed package, and `LoadedExactly`, for entries not being expanded.
- CommittedIsStable: a fallback that does have a release may see an inlined file replaced.
- ExtractsSideEffects: regular-expression literals and code nested in template literals are no tokens of the model; `Scan` still says what the scanner does with them.
- Evaluate: hot-reload handlers run around an evaluation, and module code that catches a `require` error, are left out; a module's code is the sequence of its requires, or a throw.
- ModuleFinished: the module map is settled; awaiting a running transformation is left out.
- Seed: runs without other writers between its reads and writes; a failing write, consulting, invalidation and spot verification are left out. Files are looked up by spelling.
- BuildPreImage: takes paths as bytes, distinct; text encoding and the final digest and its hexadecimal spelling are left out, and the built-in sort is an insertion sort, which distinct paths make immaterial.
- ReaddirSync: every listed file is present; lazy fetching, inode numbers and content caches are left out.
- FindTarget: the choice among conditions; each key's target is given.
- The order of requests inside one `/dep_tree` answer: requests are sets, so every order is covered and none is predicted; a package's `m` list is a set for the same reason.
- UsedIsInstalled: which entries the closure's request names for a package is left out, and what such a tree lists is arbitrary, as long as it lists a name once. Packages that an expansion left over from a failed install brings into `m` lists after the closure's last turn are not closed over.
- The `installs` promises of `ensureEntries` (one per name and entry, kept once settled): a second request for an entry that its batch lost gets the first one's promise and asks for nothing. Every import of the model opens or joins a batch. `ensureEntries` also ignores names neither declared nor installed.
- The boot install, asset loading after an install (`loadModuleDependencies`, which may fail at any time), and forgetting a deleted package's cached files.
- Panicking collector tasks: the collector only logs them. In `Coalescing` a lost fetch task is a step.
- `browser` field parsing, `parse_module_specifier`, globbing and npm version resolution are functions of the model, not modelled themselves.
- HTTP routes, storage, transforms, user interface and message protocols.
