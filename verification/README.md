# Verified model of the platform's front-end logic

This project models the algorithmic core of the admin front end and of its in-memory
control-plane simulator, and proves what that code is for:

- the `${{resource.OUTPUT}}` variable resolver with its memo table and cycle detection;
- the search that scopes a trace to one agent run, over parent links that may be cyclic;
- the control plane: projects, canvases, five stores and denormalised counters on project
  objects that the list and the canvases share; deployments; log paging; the object browser;
- the ANSI scanner and the SGR machine;
- the directory loader, a small concurrent protocol with generations, aborts and ownership;
- the tracker registry over root domains, rollout schedules and the Wilson interval;
- the aggregation behind the AI overview.

Code that updates things step by step is imperative here (classes with `modifies`, loops with
invariants), and every such method is proved equal to a function of the old state. The
properties are then proved of those functions, over all inputs and over all runs. Each
function is also described from outside, by what a caller sees of it: which code sets which
field, which address stands under which name, which entry a request adds and what it leaves.

## Layout

| file | models |
|---|---|
| `Text.dfy`, `Sorting.dfy` | options, results, filters, the string operations the sources use; stable sorting |
| `Templates.dfy` | the reference pattern, the tokens of a value, the printer |
| `Substitution.dfy`, `VariableResolver.dfy` | what a variable means; the memoising resolver |
| `AiRuns.dfy` | agent runs of a trace |
| `Sgr.dfy`, `AnsiText.dfy` | the SGR machine; the scanner |
| `FileBrowser.dfy` | the directory loader |
| `Resources.dfy`, `Plane.dfy`, `ControlPlane.dfy` | identifiers; the control plane as a value; the control plane on the heap |
| `CanvasVolumes.dfy`, `Connections.dfy` | what a canvas shows of volumes; the edges of a service |
| `Deployments.dfy`, `LogPaging.dfy`, `ObjectBrowser.dfy` | deployments, logs and objects |
| `TrackerRegistry.dfy`, `Rollout.dfy`, `Wilson.dfy` | analytics |
| `AiOverview.dfy` | usage totals |

## Results that differ from what one might expect

- A reset does not always split ANSI parsing. `ResetSplitsExactly` gives the exact condition:
  the scan of the first part meets no OSC introducer without a BEL after it. An open OSC
  swallows the reset (`OpenOscSwallows`, at a two-character input `OpenOscExists`); text without
  an introducer always qualifies (`NoOscIsClosed`).
- A failed response of an older generation of the directory loader still overwrites the error
  line (`StaleResponseIsInert`).
- The volume handlers take the project of the address without asking whether it owns the
  service. A canvas stays in step with the volumes filed exactly when they agree
  (`AddedIsShownExactly`, `MisroutedVolume`); the next update of the service repairs it
  (`UpdateShows`).
- Canvas edges go to the first resource of a name, the resolver asks the last. They agree exactly
  when no two resources share a name (`EdgesFollowResolverExactly`), which the simulator does not
  enforce.
- Provider and model are joined by a NUL, so models can share one total when a provider contains
  one (`SharedKeyExactly`, `CollidingModels`).
- A run of an agent span without an identifier does not hold that span (`RootInRun`).
- A volume can be filed under a service identifier before the service exists, because the
  handler does not look the service up. `DeleteUndoesCreate` therefore names those volumes as
  what is lost when a service is created and deleted again.
- Several rollout steps may share the reported next time; the last of them takes over, not the
  reported one (`NextTakesOver`).
- ECMA-48 reads an empty SGR parameter as zero; the code drops it. The class `[@-~]` under the
  flags `iu` also admits U+017F and U+212A. The model follows the code in both.

## Model

| member | source | states |
|---|---|---|
| `Templates.MatchAt` | _frontend/mock/service-variables.ts:4-6 | A match begins at an opening and names a valid resource and output |
| `Templates.MatchAtExact` | _frontend/mock/service-variables.ts:4-6 | Greedy matching succeeds exactly where some split of the text spells a reference, and the split is unique |
| `Templates.ResourceNameIsPattern` | _frontend/mock/service-variables.ts:4-5 | A resource name begins and ends with a small letter or digit, with at most sixty-one of those or hyphens in between |
| `Templates.OutputNameIsPattern` | _frontend/mock/service-variables.ts:4-5 | An output name is letters, digits and underscores, not beginning with a digit |
| `Templates.SpaceIsListed` | _frontend/mock/service-variables.ts:4-5 | What counts as a blank, by code point |
| `Templates.FindMatchIsLeftmost` | _frontend/mock/service-variables.ts:91-91 | `matchAll` yields the leftmost match, and yields none only if no offset matches |
| `Templates.MalformedExactly` | _frontend/mock/service-variables.ts:88-109 | A value is rejected as malformed exactly when some opening in it does not begin a well-formed reference |
| `Templates.RoundTrip` | _frontend/mock/state.ts:113-114 | Printing any alternation of opening-free literals and valid references and scanning it again gives the same tokens |
| `Templates.PrintedIsShortest` | _frontend/mock/state.ts:113-114 | The printed reference is the spelling without blanks |
| `Templates.TemplatesGrow` | _frontend/mock/service-variables.ts:88-109 | Every alternation of opening-free literals and valid references is a template |
| `Templates.NamesAreLookups` | _frontend/mock/service-variables.ts:265-268 | The resources listed for canvas edges are exactly those the expander looks up, in order |
| `Substitution.KeyIsInjective` | _frontend/mock/service-variables.ts:129-129 | Cache keys of different variables never collide, although service ids may contain dots |
| `Substitution.Lookup` | _frontend/mock/service-variables.ts:111-172 | A reference leads to an existing variable of that name, to fixed text or to a lookup error, never to a cycle error |
| `Substitution.UnknownResource` | _frontend/mock/service-variables.ts:112-115 | A name no resource has is an error that names it |
| `Substitution.VariableOutput` | _frontend/mock/service-variables.ts:128-156 | A variable of the last resource of the name is expanded in turn, or reported as a cycle if it is being expanded |
| `Substitution.DomainOutput` | _frontend/mock/service-variables.ts:157-171 | Otherwise the first domain with that output name gives its public address under the public name and the service's internal address under the internal one |
| `Substitution.MissingOutput` | _frontend/mock/service-variables.ts:163-165 | A service that is not stored, or has neither variable nor domain of that name, does not export it |
| `Substitution.ManagedOutput` | _frontend/mock/service-variables.ts:119-126 | A database, cache or store answers from its table; anything else is looked for among the stores |
| `Substitution.EvalConcat` | _frontend/mock/service-variables.ts:88-109 | Text is read left to right: values are joined in order and the first error decides |
| `Substitution.ReachesStep` | _frontend/mock/service-variables.ts:128-147 | Following references reaches a variable exactly when the text refers to it or to a variable that reaches it |
| `Substitution.SucceedsExactly` | _frontend/mock/service-variables.ts:88-172 | Substitution succeeds if and only if, from this text on, every opening is a reference, every reference names an output and no variable reaches itself |
| `Substitution.CycleIsReal` | _frontend/mock/service-variables.ts:134-136 | A cycle error names a reachable variable that really reaches itself, so shared references are never rejected |
| `Substitution.PathIrrelevant` | _frontend/mock/service-variables.ts:128-147 | A successful value does not depend on which variables were in progress |
| `Substitution.SubstitutionEquation` | _frontend/mock/service-variables.ts:88-109 | A resolved text is the text with each reference replaced by the value of what it names |
| `VariableResolver.Resolution.constructor` | _frontend/mock/service-variables.ts:25-38 | A new resolution of an existing service has nothing cached and nothing in progress, and knows the last resource of each name |
| `VariableResolver.Resolution.Expand` | _frontend/mock/service-variables.ts:88-109 | The expanding loop, with the cache, returns exactly what uncached substitution returns, errors included; it terminates |
| `VariableResolver.Resolution.Reference` | _frontend/mock/service-variables.ts:111-126 | Looking up a reference gives the uncached value of that reference and caches a variable it leads to |
| `VariableResolver.Resolution.ServiceOutput` | _frontend/mock/service-variables.ts:149-172 | Environment before domains, public before internal, and the two error cases |
| `VariableResolver.Resolution.ServiceVariable` | _frontend/mock/service-variables.ts:128-147 | The cached, cyclic, missing and fresh cases agree with substitution; in-progress keys are exactly the call stack and disjoint from the cache |
| `VariableResolver.CachedIsMeaning` | _frontend/mock/service-variables.ts:129-146 | Every cached text is the meaning of its variable |
| `VariableResolver.SettledAgree` | _frontend/mock/service-variables.ts:130-133 | A text over cached variables has one meaning for every call stack that avoids them |
| `VariableResolver.SettleOne` | _frontend/mock/service-variables.ts:142-146 | Caching a finished variable keeps every cached value right |
| `VariableResolver.Resolution.Resolve` | _frontend/mock/service-variables.ts:40-86 | All entries expand or the first failing one decides the error; the result holds exactly the service's own expanded variables, the telemetry defaults it leaves unset and the platform variables, which beat both |
| `VariableResolver.ResolveMockEnvironment` | _frontend/mock/service-variables.ts:259-263 | A service resolves if and only if all its variables are resolvable; values satisfy the substitution equation; cycle errors are real; defaults and platform variables as in the source |
| `VariableResolver.ForcedValues` | _frontend/mock/service-variables.ts:73-84 | What stands under each of the eight platform names |
| `VariableResolver.DefaultValues` | _frontend/mock/service-variables.ts:48-72 | What stands under the names a service may set itself |
| `VariableResolver.DefaultAttributes` | _frontend/mock/service-variables.ts:57-61 | The resource attributes, with the deployment only when there is one |
| `VariableResolver.PlatformWins` | _frontend/mock/service-variables.ts:66-85 | A platform variable cannot be overridden, and a default stands where nothing else is set |
| `VariableResolver.JoinConcat` | _frontend/mock/service-variables.ts:84-84 | One comma between neighbouring URLs |
| `VariableResolver.PublicUrlsAreSorted` | _frontend/mock/service-variables.ts:80-84 | The public URLs are in string order, one per domain |
| `AiRuns.ChildIndex` | _frontend/web/ai-trace.ts:536-548 | The children map holds exactly the parent links |
| `AiRuns.Subtree` | _frontend/web/ai-trace.ts:549-561 | The stack search ends on any links, cyclic or not, and returns exactly the spans reachable from the root, in their order |
| `AiRuns.AiRuns` | _frontend/web/ai-trace.ts:536-576 | One run per agent span with exactly its descendants, or one run of all AI spans when there is no agent |
| `AiRuns.KindsRead` | _frontend/web/ai-trace.ts:562-574 | Agent spans are those of the kind agent, AI spans those of any kind, each as often as it occurs |
| `AiRuns.RootInRun` | _frontend/web/ai-trace.ts:549-561 | A run holds its own root exactly when the root has an identifier |
| `AiRuns.AncestorsComparable` | telemetry/README.md:26-27 | With unique ids, two ancestors of one span lie on one line |
| `AiRuns.ContainsExactly` | _frontend/web/ai-trace.ts:549-564 | One run contains another exactly when its root is an ancestor of the other's root |
| `AiRuns.NestedOrDisjoint` | _frontend/web/ai-trace.ts:549-564 | Any two agent runs are nested or disjoint |
| `Sgr.PaletteExactly` | _frontend/web/ansi-text.tsx:54-69 | The palette is sixteen named colours, the cube of six levels a side, twenty-four greys, and nothing above 255 |
| `Sgr.CodeSets` | _frontend/web/ansi-text.tsx:109-166 | What each code does on its own: the one field it sets or clears, for every code and state |
| `Sgr.NoNumberSetsNothing` | _frontend/web/ansi-text.tsx:174-184 | A parameter that is no number does nothing |
| `Sgr.ExtendedSets` | _frontend/web/ansi-text.tsx:87-107 | The indexed and the direct colours after 38 and 48, channels cut at 255 |
| `Sgr.StyleShows` | _frontend/web/ansi-text.tsx:71-85 | The style field by field; reverse video swaps the two colours |
| `Sgr.CodesRead` | _frontend/web/ansi-text.tsx:168-175 | Parameters are decimal numerals between semicolons or colons, empty ones are dropped, none at all is zero |
| `Sgr.ApplySgr` | _frontend/web/ansi-text.tsx:168-185 | The loop over codes has the effect of the codes applied one after the other |
| `Sgr.SplitsExactly` | _frontend/web/ansi-text.tsx:87-107 | A sequence can be split after some codes, whatever follows, if and only if no colour introducer reached in them is short of its arguments |
| `Sgr.ResetForgets` | _frontend/web/ansi-text.tsx:109-110 | After a zero code the state before it does not matter |
| `AnsiText.MatchedIsControl` | _frontend/web/ansi-text.tsx:189-190 | Whatever the expression matches is a control sequence of the grammar |
| `AnsiText.LongestIsMatched` | _frontend/web/ansi-text.tsx:189-190 | Wherever a control sequence of the grammar begins, the expression matches, and it takes the longest |
| `AnsiText.CsiIsTaken` | _frontend/web/ansi-text.tsx:189-190 | A sequence is taken whole for each of the three introducers, and only the command m carries parameters on |
| `AnsiText.ClassesRead` | _frontend/web/ansi-text.tsx:189-190 | The character classes of the expression by code point |
| `AnsiText.ParseAnsi` | _frontend/web/ansi-text.tsx:192-213 | The scanner produces the segments of a terminal that reads one character at a time |
| `AnsiText.PiecesRebuild` | _frontend/web/ansi-text.tsx:192-213 | Shown text and matched sequences put together again are the input |
| `AnsiText.PiecesOk` | _frontend/web/ansi-text.tsx:192-213 | No piece is empty, no shown text contains a complete control sequence, every hidden piece is one |
| `AnsiText.StyleIsFold` | _frontend/web/ansi-text.tsx:196-211 | A segment's style is the fold of all SGR codes before it |
| `AnsiText.ParseIsExact` | _frontend/web/ansi-text.tsx:192-213 | The parse as a whole: styled pieces, exact rebuilding, no hidden sequence in shown text |
| `AnsiText.SgrShows` | _frontend/web/ansi-text.tsx:192-213 | One code and plain text give one segment in the style of that code |
| `AnsiText.ColorShows` | _frontend/web/ansi-text.tsx:140-151 | The eight text and background colours as they are seen |
| `AnsiText.OtherCommandIsHidden` | _frontend/web/ansi-text.tsx:204-207 | Any other command vanishes without effect |
| `AnsiText.OscIsHidden` | _frontend/web/ansi-text.tsx:189-190 | An OSC up to its BEL vanishes without effect |
| `AnsiText.TerminatedOscIsHidden` | _frontend/web/ansi-text.tsx:189-190 | Without a BEL, an OSC up to its last string terminator vanishes |
| `AnsiText.UnendedOscIsShown` | _frontend/web/ansi-text.tsx:189-190 | An OSC that nothing ends is shown like text |
| `AnsiText.ResetSplitsExactly` | _frontend/web/ansi-text.tsx:189-213 | A reset splits parsing for every continuation if and only if the scan leaves no OSC introducer without a BEL |
| `AnsiText.OpenOscSwallows` | _frontend/web/ansi-text.tsx:189-190 | Behind an open OSC a reset and everything up to the next BEL vanish: what shows is the text before the OSC, then the rest in the state that text had reached |
| `AnsiText.OpenOscExists` | _frontend/web/ansi-text.tsx:189-190 | ESC ] alone makes a following reset disappear |
| `AnsiText.NoOscIsClosed` | _frontend/web/ansi-text.tsx:189-190 | Text without an OSC introducer meets that condition |
| `FileBrowser.Loader.constructor` | _frontend/web/container-file-browser.tsx:58-74 | The component starts with nothing loaded and nothing in flight, which satisfies the invariant |
| `FileBrowser.Loader.LoadDirectory` | _frontend/web/container-file-browser.tsx:76-107 | Up to the await: rejected path, duplicate load, root change or plain load, with the whole new state; the invariant of all interleavings is kept |
| `FileBrowser.Loader.Resume` | _frontend/web/container-file-browser.tsx:108-147 | From the await on: stale, aborted, failed and delivered responses, and the release of the own registration only; the invariant is kept |
| `FileBrowser.Loader.ToggleDirectory` | _frontend/web/container-file-browser.tsx:182-199 | Collapse, expand from what is held, or load; the invariant is kept |
| `FileBrowser.Loader.Dispose` | _frontend/web/container-file-browser.tsx:155-162 | Clean-up begins a generation and aborts every registered request; the invariant is kept |
| `FileBrowser.RunKeeps` | _frontend/web/container-file-browser.tsx:76-163 | Under every interleaving: registered requests are exactly the live ones, filed under their path and current; marks, listings and generations agree |
| `FileBrowser.ListingsAreCurrent` | _frontend/web/container-file-browser.tsx:108-115 | Once the current generation's root has arrived, every listing held was requested in that generation |
| `FileBrowser.StaleResponseIsInert` | _frontend/web/container-file-browser.tsx:108-110 | In every reachable state a response of an older generation changes nothing, except that a failure other than an abort still writes the error line |
| `FileBrowser.OvertakenForGood` | _frontend/web/container-file-browser.tsx:83-93 | A call once overtaken stays overtaken whatever happens later |
| `FileBrowser.MarkClearedByOwner` | _frontend/web/container-file-browser.tsx:138-145 | A loading mark is cleared only by the request that owns it or by a root change |
| `FileBrowser.NoStuckSpinner` | _frontend/web/container-file-browser.tsx:97-99 | After a root change, when all calls have settled, nothing is marked as loading |
| `FileBrowser.OneLiveRequestPerPath` | _frontend/web/container-file-browser.tsx:84-96 | There is at most one live request per path |
| `FileBrowser.RootChangeTakesEffect` | _frontend/web/container-file-browser.tsx:108-124 | Whatever loads, clicks and responses fall in between, the awaited root replaces the whole tree when it arrives |
| `FileBrowser.PlainLoadTakesEffect` | _frontend/web/container-file-browser.tsx:108-124 | Whatever falls in between, an awaited subdirectory is added to the listings held and opened, and nothing else of the tree changes |
| `FileBrowser.FailureTakesEffect` | _frontend/web/container-file-browser.tsx:125-146 | A failure shows its message and clears its mark, an abort only clears the mark |
| `FileBrowser.RefusedPath` | _frontend/web/container-file-browser.tsx:78-81 | A path that is not absolute or holds a NUL is refused with a message and nothing else |
| `FileBrowser.LoadBegins` | _frontend/web/container-file-browser.tsx:91-99 | A plain load files, marks and sends one request, unless one is under way for the path |
| `FileBrowser.RootChangeBegins` | _frontend/web/container-file-browser.tsx:83-99 | A root change leaves one request and one mark in a new generation, every earlier call aborted and overtaken, and what is shown |
| `FileBrowser.CleanupOvertakes` | _frontend/web/container-file-browser.tsx:155-162 | A clean-up aborts and overtakes every call and forgets the requests |
| `FileBrowser.ToggleExactly` | _frontend/web/container-file-browser.tsx:182-199 | A click closes, opens from what is held, or loads; on a file it does nothing |
| `FileBrowser.SelectShows` | _frontend/web/container-file-browser.tsx:69-69 | A selection changes the selected path only |
| `Resources.MockIdTellsNumber` | _frontend/mock/state.ts:1049-1052 | Identifiers of different sequence numbers differ, whatever their prefixes |
| `Resources.MockIdReads` | _frontend/mock/state.ts:1049-1052 | An identifier as it reads |
| `Resources.MockIdIsSpent` | _frontend/mock/state.ts:1049-1052 | An identifier already handed out is never handed out again |
| `Resources.SeededIsSpent` | _frontend/mock/state.ts:1049-1052 | Seeded identifiers are never handed out |
| `Plane.CreateProjectKeeps` | _frontend/mock/projects.ts:37-56 | Creating a project keeps the invariant: counters, canvases, stores and list agree, identifiers are used for one thing |
| `Plane.InsertKeeps` | _frontend/mock/project-resources.ts:186-204 | Storing, listing and counting one resource under an unused identifier keeps the invariant |
| `Plane.CreateResourceKeeps` | _frontend/mock/project-resources.ts:61-204 | Creating any of the five kinds keeps the invariant |
| `Plane.DeleteResourceKeeps` | _frontend/mock/managed-resources.ts:84-118 | Deleting any resource keeps the invariant |
| `Plane.RenameGatewayKeeps` | _frontend/mock/network-gateways.ts:136-151 | Updating a gateway keeps the invariant |
| `Plane.RenameShows` | _frontend/mock/network-gateways.ts:144-148 | The canvas lists the gateway under its new name, in its old place, and every other resource unchanged |
| `Plane.SetIconKeeps` | _frontend/mock/projects.ts:162-189 | Icon changes keep the invariant |
| `Plane.TouchKeeps` | _frontend/mock/managed-resources.ts:178-198 | A new version of a managed resource keeps the invariant |
| `Plane.AddVolumeKeeps` | _frontend/mock/services.ts:471-484 | Adding a volume under any service and on any project's canvas keeps the invariant |
| `Plane.DropVolumeKeeps` | _frontend/mock/services.ts:454-466 | Dropping a volume keeps the invariant |
| `Plane.UpdateServiceKeeps` | _frontend/mock/services.ts:148-171 | Refreshing the canvas entry of a service keeps the invariant |
| `Plane.DoomedExactly` | _frontend/mock/projects.ts:313-336 | Of all stored resources, project deletion names exactly the project's own, although volume ids are in the same set |
| `Plane.StoresAfterProject` | _frontend/mock/projects.ts:338-348 | Project deletion empties the stores of that project and of nothing else |
| `Plane.DeleteProjectKeeps` | _frontend/mock/projects.ts:313-409 | Deleting a project keeps the invariant |
| `Plane.StepKeeps` | README.md:161-163 | Every request keeps the invariant |
| `Plane.RunKeeps` | README.md:161-163 | Every run of requests keeps the invariant |
| `Plane.LeadsOn` | README.md:161-163 | Each request leads from one state to the next |
| `Plane.LeadsConcat` | README.md:161-163 | Runs can be put one after the other |
| `Plane.CountersAgree` | _frontend/mock/project-helpers.ts:8-26 | The stored counter of each project and kind is the number of canvas resources and the number of store entries |
| `Plane.ReachableCountersAgree` | _frontend/mock/project-helpers.ts:8-26 | The same in every reachable state |
| `Plane.ClampNeverBites` | _frontend/mock/services.ts:120-123 | In every reachable state a deletion lowers its owner's counter by exactly one and no other project changes: the clamp at zero has no effect |
| `Plane.CreateProjectShows` | _frontend/mock/projects.ts:37-56 | A new project stands last, with the requested name and nothing in it |
| `Plane.CreateResourceShows` | _frontend/mock/project-resources.ts:61-204 | A creation lists one entry with the requested name behind the others, stores one entry for the project, files a service's volumes, and leaves the rest |
| `Plane.PrefixReads` | _frontend/mock/project-resources.ts:66-66 | How identifiers of each kind begin |
| `Plane.DeleteResourceTakes` | _frontend/mock/managed-resources.ts:84-118 | A deletion takes out one store entry and one canvas entry and leaves the others in order |
| `Plane.DecrementedReads` | _frontend/mock/services.ts:120-123 | Every counter but a gateway's is lowered by one but not below zero; a gateway's is lowered plainly |
| `Plane.SetIconShows` | _frontend/mock/projects.ts:162-189 | An icon change sets the flag of one project and nothing else |
| `Plane.TouchShows` | _frontend/mock/managed-resources.ts:178-199 | A new version keeps the owner and sets the time of one entry |
| `Plane.DeleteProjectTakes` | _frontend/mock/projects.ts:400-409 | A deleted project is gone from list and table, with its store entries and the volumes of its services, and nothing else is |
| `Plane.DeleteProjectKeepsName` | _frontend/mock/projects.ts:397-399 | A deletion under another name changes nothing |
| `Plane.AddVolumeFiles` | _frontend/mock/services.ts:471-479 | A volume is filed last under the service, with a fresh identifier |
| `Plane.DropVolumeFiles` | _frontend/mock/services.ts:455-457 | Dropping a volume unfiles exactly that one |
| `Plane.SetVolumesKeepsRest` | _frontend/mock/services.ts:480-483 | Showing volumes changes nothing else of any canvas |
| `Plane.DeleteUndoesCreate` | _frontend/mock/managed-resources.ts:84-118 | Deleting what was just created gives back stores, canvases, counters and list |
| `Plane.DeleteProjectUndoesCreate` | _frontend/mock/projects.ts:400-409 | Deleting a project that was just created gives the old plane back |
| `Plane.EmptyIsConsistent` | _frontend/mock/state.ts:430-453 | The empty scenario satisfies the invariant |
| `Plane.DemoIsConsistent` | _frontend/mock/state.ts:455-564 | The seeded storefront satisfies the invariant |
| `CanvasVolumes.OneEntry` | _frontend/mock/services.ts:149-152 | A service has exactly one entry on all canvases together, its owner's |
| `CanvasVolumes.AddedIsShownExactly` | _frontend/mock/services.ts:471-484 | A volume added to a shown service is shown if and only if the request names the project that owns the service |
| `CanvasVolumes.DroppedIsShownExactly` | _frontend/mock/services.ts:454-467 | A volume dropped from a shown service is gone from its entry if and only if the request names the owner or there was nothing to drop |
| `CanvasVolumes.UpdateShows` | _frontend/mock/services.ts:148-171 | An update of a service shows its filed volumes, whatever was shown before |
| `CanvasVolumes.RunShows` | _frontend/mock/services.ts:440-485 | Over every run whose volume requests name the owning project, each service's canvas entry shows exactly the volumes filed for it |
| `CanvasVolumes.DemoIsShown` | _frontend/mock/state.ts:266-324 | The seeded canvas shows what is filed |
| `CanvasVolumes.MisroutedVolume` | _frontend/mock/services.ts:471-484 | In the seeded storefront a volume request through another project leaves the canvas behind |
| `Connections.Connect` | _frontend/mock/services.ts:172-198 | The loops over variables and references replace the service's edges by one per resource used, and keep everyone else's |
| `Connections.EdgesExactly` | _frontend/mock/services.ts:172-198 | There is an edge to a resource if and only if some value of the environment refers to it; there is one, and its sorted names list each variable once per reference |
| `Connections.EdgesFollowResolverExactly` | _frontend/mock/services.ts:177-179 | Edges and the variable resolver read every resource name alike if and only if no two resources of the canvas share a name |
| `ControlPlane.Server.constructor` | _frontend/mock/state.ts:430-453 | The server of the empty scenario is valid |
| `ControlPlane.Server.CountersAgree` | _frontend/mock/project-helpers.ts:5-26 | List and canvas hold one project object, found at one place, whose counters are the canvas and store counts |
| `ControlPlane.Server.TouchProject` | _frontend/mock/project-helpers.ts:8-26 | Counting through the list is seen through the canvas, and only there |
| `ControlPlane.Server.CreateProject` | _frontend/mock/projects.ts:37-56 | The handler's new state, with one new project object shared by list and canvas |
| `ControlPlane.Server.CreateResource` | _frontend/mock/project-resources.ts:61-204 | Canvas, counter, store and volumes after a creation; an unknown project changes nothing |
| `ControlPlane.Server.DeleteService` | _frontend/mock/services.ts:91-127 | The handler's new state and its not-found case |
| `ControlPlane.Server.DeleteManaged` | _frontend/mock/managed-resources.ts:66-118 | The handler's new state, and the not-found and changed cases |
| `ControlPlane.Server.UpdateManaged` | _frontend/mock/managed-resources.ts:161-199 | Only the version the caller saw is replaced; the not-found and changed cases |
| `ControlPlane.Server.DeleteGateway` | _frontend/mock/network-gateways.ts:155-168 | The handler's new state; a gateway of another project is not found |
| `ControlPlane.Server.UpdateGateway` | _frontend/mock/network-gateways.ts:136-151 | The handler's new state; a gateway of another project is not found |
| `ControlPlane.Server.ChangeIcon` | _frontend/mock/projects.ts:134-189 | List and canvas move together to one new project object; removing an absent icon fails |
| `ControlPlane.Server.DeleteProject` | _frontend/mock/projects.ts:392-409 | The handler's new state, and the not-found and name-changed cases |
| `ControlPlane.Server.CreateVolume` | _frontend/mock/services.ts:471-485 | The new volume's identifier, where it is filed and on which canvas entry it is shown |
| `ControlPlane.Server.DeleteVolume` | _frontend/mock/services.ts:454-466 | The volume is gone from where it is filed and from the entry on the named canvas |
| `ControlPlane.Server.UpdateService` | _frontend/mock/services.ts:148-171 | The canvas entry shows the filed volumes; an unknown service is not found |
| `Deployments.StepKeeps` | _frontend/mock/services.ts:98-125 | Create, update, delete, project deletion, deploy, remove and restart keep the deployment invariant |
| `Deployments.RunKeeps` | _frontend/mock/services.ts:220-288 | Every run keeps it |
| `Deployments.ActiveNamesExactlyOne` | _frontend/mock/services.ts:251-269 | Over every run, the active deployment names exactly one entry of the history, succeeded, with the service's hash and digest |
| `Deployments.KeptRecordsNameHistory` | _frontend/mock/services.ts:275-285 | Over every run, each kept log record names a deployment still in the history |
| `Deployments.CreateStarts` | _frontend/mock/project-resources.ts:140-142 | A new service has never been deployed and has no records |
| `Deployments.UpdateSwitches` | _frontend/mock/services.ts:131-131 | An update switches the service on or off and leaves what is deployed |
| `Deployments.DeleteLeavesNothing` | _frontend/mock/services.ts:98-103 | Deleted services leave neither history nor records, one at a time or with their project |
| `Deployments.RestartLeaves` | _frontend/mock/services.ts:244-250 | A restart changes nothing that is recorded here |
| `Deployments.RunConcat` | _frontend/mock/services.ts:220-288 | A run is its requests one after the other |
| `Deployments.OtherDraws` | _frontend/mock/state.ts:1049-1052 | Requests elsewhere only draw identifiers |
| `Deployments.DeployActivates` | _frontend/mock/services.ts:251-269 | A deploy activates a copy with the chosen hash and digest under a new identifier, in front of an unchanged history |
| `Deployments.RemoveForgets` | _frontend/mock/services.ts:270-285 | Removing the active deployment only deactivates it; removing another takes exactly that entry and its records out, keeps the order of the rest and every other service |
| `Deployments.RemoveTwiceUndoesDeploy` | _frontend/mock/services.ts:251-285 | Removing a fresh deployment twice restores the whole board, with nothing active and the identifier spent |
| `Deployments.DemoIsInv` | _frontend/mock/state.ts:583-665 | The seeded histories and logs satisfy the invariant |
| `Deployments.Handlers.PutService` | _frontend/mock/services.ts:91-201 | An update leaves history, log and active deployment alone and keeps the invariant; an unknown service is not found |
| `Deployments.Handlers.RemoveService` | _frontend/mock/services.ts:91-127 | Service, history and log go together and the invariant is kept; an unknown service is not found |
| `Deployments.Handlers.Act` | _frontend/mock/services.ts:220-288 | Status and whole new state of deploy, remove and restart; the invariant is kept |
| `TrackerRegistry.SuffixesComparable` | _frontend/web/analytics-model.ts:170-181 | Two label suffixes of one host are comparable |
| `TrackerRegistry.HostNormalizes` | _frontend/web/analytics-model.ts:125-138 | Blanks around a hostname, dots behind it and its case do not matter |
| `TrackerRegistry.PortNormalizes` | _frontend/web/analytics-model.ts:133-136 | Neither does a port |
| `TrackerRegistry.BracketNormalizes` | _frontend/web/analytics-model.ts:127-132 | Of an address in brackets only the inside matters |
| `TrackerRegistry.NoPortStays` | _frontend/web/analytics-model.ts:133-136 | What follows a colon and is not all digits is no port |
| `TrackerRegistry.LeadingColonStays` | _frontend/web/analytics-model.ts:133-136 | A colon in front of everything introduces no port |
| `TrackerRegistry.UnderIsLabelSuffix` | _frontend/web/analytics-model.ts:145-148 | A host lies under a root if and only if the root's labels are its last labels |
| `TrackerRegistry.OverlapExactly` | _frontend/web/analytics-model.ts:170-181 | Two roots overlap exactly when some hostname matches both |
| `TrackerRegistry.MatchingExactly` | _frontend/web/analytics-model.ts:140-149 | The hostnames listed for a root are the matching ones, each as often as given and in the given order |
| `TrackerRegistry.PostKeeps` | _frontend/mock/analytics.ts:338-359 | POST keeps roots pairwise apart across all projects |
| `TrackerRegistry.PutKeeps` | _frontend/mock/analytics.ts:375-387 | PUT keeps roots pairwise apart, whatever fields it changes |
| `TrackerRegistry.DeleteKeeps` | _frontend/mock/analytics.ts:388-398 | DELETE keeps roots pairwise apart |
| `TrackerRegistry.RunKeeps` | _frontend/mock/analytics.ts:338-400 | Every run keeps roots pairwise apart |
| `TrackerRegistry.HostHasOneTracker` | _frontend/mock/analytics.ts:58-69 | In every reachable registry a hostname matches at most one tracker of any project |
| `TrackerRegistry.RefusedExactly` | _frontend/mock/analytics.ts:58-69 | A root is refused if and only if some hostname would match it and a registered tracker other than the one being changed |
| `TrackerRegistry.RefusedPost` | _frontend/mock/analytics.ts:351-353 | A refused POST only spends an identifier |
| `TrackerRegistry.PutShows` | _frontend/mock/analytics.ts:375-387 | A PUT changes name and root of the one tracker it names, to what is given or what was there; a conflict changes nothing |
| `TrackerRegistry.PutAnswers` | _frontend/mock/analytics.ts:362-387 | PUT answers not found, overlap or done, in that order |
| `TrackerRegistry.RunConcat` | _frontend/mock/analytics.ts:338-400 | A run is its requests one after the other |
| `TrackerRegistry.OtherDraws` | _frontend/mock/state.ts:1049-1052 | Requests elsewhere only draw identifiers |
| `TrackerRegistry.DeleteUndoesPost` | _frontend/mock/analytics.ts:338-398 | An accepted POST appends the tracker, and deleting it gives every project its list back |
| `TrackerRegistry.DemoIsInv` | _frontend/mock/state.ts:736-749 | The seeded registry satisfies the invariant |
| `TrackerRegistry.Store.HasConflict` | _frontend/mock/analytics.ts:58-69 | The loop over all projects finds a conflict exactly when there is one |
| `TrackerRegistry.Store.PostTracker` | _frontend/mock/analytics.ts:338-359 | Status and new registry, with the identifier drawn even on a conflict |
| `TrackerRegistry.Store.PutTracker` | _frontend/mock/analytics.ts:362-387 | Status and new registry; the edit in place touches one tracker only |
| `TrackerRegistry.Store.DeleteTracker` | _frontend/mock/analytics.ts:362-398 | Status and new registry |
| `Rollout.GroupRollout` | _frontend/web/analytics-model.ts:393-408 | The loop computes the schedule's value at an instant |
| `Rollout.ClampIsNearest` | _frontend/web/analytics-model.ts:407-407 | Clamping goes to the nearest percentage |
| `Rollout.FiniteExactly` | _frontend/web/analytics-model.ts:360-378 | A step survives reading exactly when both its numbers are finite, in order, with its percentage clamped |
| `Rollout.GroupsKeepPlace` | _frontend/web/analytics-model.ts:379-391 | Every group keeps its place, base and properties |
| `Rollout.RolloutIsStepFunction` | _frontend/web/analytics-model.ts:393-408 | That value is the step function: the latest step not after the instant, the last on ties, else the base, clamped |
| `Rollout.SortInOrder` | _frontend/web/analytics-model.ts:383-383 | The sorted schedule holds the same steps in time order |
| `Rollout.SortKeepsRollout` | _frontend/web/analytics-model.ts:383-383 | Sorting does not change the step function |
| `Sorting.SortIsOrdered` | _frontend/web/analytics-model.ts:383-383 | Sorting by any strict weak order puts nothing before what precedes it |
| `Sorting.SortIsPermutation` | _frontend/web/analytics-model.ts:383-383 | Sorting neither adds nor loses anything |
| `Sorting.LessExactly` | _frontend/mock/managed-resources.ts:509-509 | The order of strings is that of their first difference |
| `Rollout.ConstantUntilNext` | _frontend/web/analytics-model.ts:417-431 | The effective rollout is constant until the reported next step, or forever if none is reported |
| `Rollout.NextTakesOver` | _frontend/web/analytics-model.ts:425-431 | At the reported time the last step of that time takes over |
| `Rollout.EffectiveExactly` | _frontend/web/analytics-model.ts:410-431 | The first group without properties decides, else the first group, else everything is rolled out; the next step is the first still to come |
| `Wilson.IntervalIsOrdered` | _frontend/web/analytics-model.ts:250-266 | 0 <= low <= rate <= high <= 1 and neither clamp changes a value |
| `Wilson.EndsAreScoreRoots` | _frontend/web/analytics-model.ts:250-266 | The two ends are exactly the values at which the rate lies 1.96 standard errors away |
| `Wilson.RateReads` | _frontend/web/analytics-model.ts:250-256 | The rate is what was converted of what was exposed; nobody exposed gives zeros |
| `Wilson.Reflection` | _frontend/web/analytics-model.ts:250-266 | Swapping conversions with non-conversions reflects the interval about one half |
| `Wilson.RootIsUnique` | _frontend/web/analytics-model.ts:250-266 | The square root, and so the interval, is determined by the counts |
| `LogPaging.FilterChain` | _frontend/mock/services.ts:380-395 | Chained filters keep exactly what passes all of them |
| `LogPaging.WalkFrom` | _frontend/mock/services.ts:396-399 | Following the cursor from anywhere shows exactly the records before it |
| `LogPaging.PageExactly` | _frontend/mock/services.ts:396-399 | A page holds the records just before the cursor, as many as the limit allows; a next cursor is given exactly when older records remain |
| `LogPaging.ParametersRead` | _frontend/mock/services.ts:372-379 | How missing, zero and negative parameters are read |
| `LogPaging.PagesAreTheLog` | _frontend/mock/services.ts:372-400 | Following the cursor from zero with any limits ends, and the pages in reverse order are the matching records, each once |
| `ObjectBrowser.BrowseObjectPage` | _frontend/mock/managed-resources.ts:488-510 | The page holds the objects with no delimiter after the prefix and the common prefixes, ascending and each once |
| `ObjectBrowser.FoldsExactly` | _frontend/mock/managed-resources.ts:499-508 | A key under the prefix is a leaf if and only if no delimiter follows the prefix; otherwise it folds into the key up to and with the first one |
| `ObjectBrowser.OutsideIsOut` | _frontend/mock/managed-resources.ts:497-499 | What is not under the prefix is on no page of it |
| `ObjectBrowser.TopLevelShowsFolders` | _frontend/mock/managed-resources.ts:488-510 | The top level of a store with one object in one folder |
| `ObjectBrowser.FoldersExactly` | _frontend/mock/managed-resources.ts:500-508 | A common prefix is listed exactly when some object folds into it |
| `ObjectBrowser.FolderIsExact` | _frontend/mock/managed-resources.ts:500-508 | The keys under a common prefix are exactly the keys folded into it |
| `ObjectBrowser.CrawlIsExact` | _frontend/mock/managed-resources.ts:488-510 | Descending into every common prefix ends and collects each object under the prefix as often as it is stored, and nothing else |
| `ObjectBrowser.CrawlListsAll` | _frontend/mock/managed-resources.ts:488-510 | The crawl and the page without delimiter hold the same objects |
| `AiOverview.AddUsage` | _frontend/web/ai-overview-model.ts:121-138 | Adding a row adds its numbers and joins its flags |
| `AiOverview.TotalsExactly` | _frontend/web/ai-overview-model.ts:111-138 | Each number of a total is the sum of that number over the rows, and the cost is reported and estimated cost together |
| `AiOverview.FlagsExactly` | _frontend/web/ai-overview-model.ts:111-138 | A total is estimated, priced or partial exactly when some row has an estimate, has a price, or has none |
| `AiOverview.SumAtExactly` | _frontend/web/ai-overview-model.ts:144-178 | The sum at a key is the total of the rows of that key |
| `AiOverview.MillisecondsExactly` | _frontend/web/ai-overview-model.ts:5-6 | Nanoseconds are cut to milliseconds towards zero |
| `AiOverview.PointShowsActivity` | _frontend/web/ai-overview-model.ts:42-54 | A point shows the counts of the last activity row of its time |
| `AiOverview.ActivityPoints` | _frontend/web/ai-overview-model.ts:38-57 | One point per millisecond with activity, holding the last row of that millisecond |
| `AiOverview.Timeline` | _frontend/web/ai-overview-model.ts:140-171 | Points strictly increase in time, each is the activity and the sum of the usage of its time, and the total is the sum of all rows |
| `AiOverview.GroupsConserve` | _frontend/web/ai-overview-model.ts:144-178 | Grouping rows by key and adding up the groups gives the grand total |
| `AiOverview.TimelineConserves` | _frontend/web/ai-overview-model.ts:140-186 | Tokens and cost (in cents) over the points equal the total, and the total's partial and estimated flags are the disjunction of the points' flags |
| `AiOverview.ByModel` | _frontend/web/ai-overview-model.ts:172-178 | The total under each key is the sum of the rows with that key, and the keys together make up all rows |
| `AiOverview.ModelTotal` | _frontend/web/ai-overview-model.ts:172-178 | When no provider continues another with a NUL, the total under a model's key is the sum of that model's own rows |
| `AiOverview.SharedKeyExactly` | _frontend/web/ai-overview-model.ts:174-174 | Two providers can share a key for different models if and only if one continues the other with a NUL |
| `AiOverview.CollidingModels` | _frontend/web/ai-overview-model.ts:174-174 | Two models of different providers whose rows fall into one total |
| `AiOverview.OverviewAnalysis` | _frontend/web/ai-overview-model.ts:140-186 | The whole analysis conserves its totals |

## Left out

- React rendering, forms, charts, HTTP routing, JSON parsing, field defaults of request bodies
  and the body-size test of icons: handlers are modelled from the parsed request on.
- The contents of a database's, cache's or store's output table, and with them the percent-encoding
  of connection URLs: the resolver takes each table as a map.
- JavaScript's prototype effects of `in`: environments are plain maps.
- Lone surrogates: strings are sequences of Unicode scalar values, and string order compares
  scalar values rather than UTF-16 units.
- TrackerRegistry.PostKeeps: lower-casing covers ASCII letters only, because the full case mapping is a table of the platform; the proofs about overlap and the registry never look inside the normalisation.
- Tracker goals, funnels, flags, experiments and charts, which a tracker's deletion empties.
- Deployments.Handlers.PutService: of the fields a PUT stores, only `enabled` is modelled here; its effect on the canvas entry and on the edges is in `CanvasVolumes` and `Connections`, without host names and container paths.
- Edges that creations, deletions and gateways add or remove; backup policies, webhooks, tokens, domains, listeners, telemetry and
  container files of the control plane. They have no part in counters or canvases; requests
  about them that draw identifiers are the `Elsewhere` and `Other` requests.
- The `updatedAt` of projects, services and gateways; it is kept for managed resources, where deletion depends on it.
- Invariants the simulator does not keep: gateway and backup targets that exist, listeners
  that stay unique when a host changes, container files that go with their project.
- Plane.DemoIsConsistent: the seeded worker has an empty volume list where the source has none; both list no volume.
- FileBrowser.Loader.LoadDirectory: abort controllers are numbered instead of allocated, and suspended calls are ghost state; the refresh after an upload is not an event.
- Sgr.ApplySgr: returns the display state instead of assigning the fields of one object; that object is never aliased in the source.
- AiOverview.AddUsage: returns the total instead of assigning the fields of an accumulator; each accumulator is reachable from one place only.
- Wilson.IntervalIsOrdered: the square root is a parameter that squares to the right value, since exact reals have no root function.
- Floating-point rounding, and rollout percentages or times that are infinite, except that steps which are not finite are dropped as in the source.
- LogPaging.PagesAreTheLog: the record filters are one given test; how text and field filters compare is not modelled.
- The rest of the view models: `userRows` groups usage by user with maxima and sums as in
  `addUsage` and sorts by tokens, cost and runs; `funnelReached` sums the visitors at or above
  each level; `trackerRootCandidates` lists the label suffixes of hostnames by length;
  the formatters turn numbers into text.
