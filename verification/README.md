# EarthBuild, modelled in Dafny

EarthBuild turns Earthfiles into build graphs. This project models the parts of it where correctness
is hard to see from one function, and proves what they keep over every input, every interleaving or
every run.

- **Visited targets, legacy collection** (`RequestGraph`, `LegacyVisited`, `LegacyAncestry`,
  `LegacySequential`, `LegacyOutcome`, `LegacyDelivery`). Concurrent requests share targets through `Add`. One state holds the targets, the
  dependency channels (as sequences with their capacity of 1024), the running `Add` calls and the lock;
  one step is one atomic action of one goroutine; a list of steps is one interleaving. A ghost set of
  edges records who asked for whom.
- **Visited targets, upfront-hash collection, and conversion** (`UpfrontVisited`, `ConversionSpec`,
  `ConversionLaws`, `ConversionExact`, `Conversion`). The recursive conversion over shared target objects, with
  its hash stack, compared with the graph of requests in the recipes. A target's input hash may change while it
  is converted, as ARG and LET make it do. `ConversionExact` says, from the recipes alone, at which place a
  conversion stops and how: a place is a list of targets with the step each has come to.
- **References** (`Delimited`, `PlusEscape`, `Paths`, `PathLaws`, `References`, `ReferenceText`, `Imports`).
  Splitting and escaping on `+`, parsing and printing, joining relative references, import aliases. Targets
  and commands are one datatype with a kind. Paths are lists of components.
- **Input-graph hashing** (`HashWalk`, `HashScripts`, `HashWalkLaws`, `HashMemo`, `HashLoader`). The hasher is the transcript of
  what is written to it. Walking statements never looks at the hash of another target, so a walk is a script of
  values to write and targets to load. Expanding, declaring and testing variables are parameters of an
  `Earthfile`. The loader is a class with the code's handlers and loops.
- **Look-ahead, WAIT blocks and manifests** (`LookAhead`, `SaveImages`, `WaitBlock`, `ManifestBarrier`).
- **Settings encoding** (`Settings`). The bytes that are fed to the hash.

`Options` and `Sets` hold what several of them share. `dafny verify dfyconfig.toml` verifies everything.

## Where a property does not hold

Each of these comes with a concrete witness; the rows of the table give the condition under which the property does hold.

- `JoinReferences` is associative on resolved references except for one shape: remote, then absolute local,
  then remote (`References.JoinAssociative`, `References.DiscardedAbsoluteDiffers`).
- The hash walk refuses a repeated name whatever its arguments, so it also refuses walks that would end. Without
  the cache a target is hashed exactly if its hash exists and no chain of loads repeats a name
  (`HashWalkLaws.VisitedExactly`). With the cache a run can succeed where it fails without it, never with another
  hash (`HashLoader.CacheHidesDetour`, `HashMemo.CacheHidesRepeats`).
- The hash stack does not always tell cycles from other requests once input hashes change. A real cycle can become
  a wait for oneself (`Conversion.RehashedCycleBlocks`), and a finished target can be reported as a cycle
  (`Conversion.RehashedDiamondReported`). When each happens is stated exactly, for all recipes
  (`ConversionExact.OutcomeExactly`, `ConversionExact.BlockedExactly`, `ConversionExact.AcyclicExactly`).
- Look-ahead passes IMPORT, so a block that works in turn can fail when it is looked ahead
  (`LookAhead.LookAheadPassesImport`, exactly when: `LookAhead.LookAheadHarmless`).
- Of two images with one tag, a later one with `--no-manifest-list` is accepted unless both are checked for
  duplicates (`SaveImages.RepeatNoticed`, `SaveImages.AcceptedRepeats`). The error message meant for this case can
  never be produced (`SaveImages.Save`).
- Settings with strings of 2^32 bytes can share a stream (`Settings.LongStringsCollide`).

## Model

| member | source | states |
|---|---|---|
| `LegacyVisited.ApplyGrows` | states/visited-legacy.go:93-95 | in every step lists of a name only grow and a finished target stays finished |
| `LegacyVisited.WaitKept` | states/visited-legacy.go:102-152 | every step keeps: lists name existing targets of that name, one owner of the lock, and every call has settled (done or dependent) the part of the list it has passed |
| `LegacyVisited.LockKept` | states/visited-legacy.go:113-125 | the calls past the wait and before the return are exactly the owner of the lock |
| `LegacyAncestry.AncestryKept` | states/states.go:283-334 | every step keeps: each ID in a target, channel, goroutine's hand or call belongs to a genuine transitive requester |
| `LegacyAncestry.RunsKeepInvariants` | states/visited-legacy.go:39-152 | both invariants hold after every interleaving |
| `LegacyAncestry.NoPanicInAnyInterleaving` | states/visited-legacy.go:58-86 | in no interleaving is "same sts but not done" reached; whoever holds the lock finds every listed target done or among its dependents |
| `LegacyAncestry.RecursionIsGenuine` | states/visited-legacy.go:66-73 | "infinite recursion" names a target that really is upstream of the requester, through recorded requests |
| `LegacyAncestry.IdsAreGenuine` | states/states.go:143-167 | wherever an ID is found, its target has asked, directly or not, for the one holding it |
| `LegacySequential.SeqRunsKeep` | states/visited-legacy.go:39-152 | in a sequential conversion the unfinished targets are the call stack, each knows exactly those below it, and the running request's channel carries the whole stack |
| `LegacySequential.SeqRunIsRun` | states/visited-legacy.go:39-98 | sequential runs are among the interleavings |
| `LegacySequential.RequestNeverBlocks` | states/visited-legacy.go:113-151 | up to depth 1024 a running request always has a step of its own that is enabled |
| `LegacySequential.RequestStepsDescend` | states/visited-legacy.go:102-152 | each step of a request lowers a lexicographic measure, so it returns |
| `LegacySequential.BackgroundKeepsProgress` | states/states.go:306-317 | background goroutines never raise that measure |
| `LegacySequential.SequentialNeverBlocks` | states/states.go:143-156 | unfinished targets are exactly the stack after every sequential run, and up to depth 1024 the running request can go on |
| `LegacySequential.RequestStartsWithinDepth` | states/states.go:320-334 | a new request can be started exactly up to 1024 targets deep, and its subscription then carries the IDs of the whole stack |
| `LegacySequential.UnfinishedMatchIsReported` | states/visited-legacy.go:66-85 | a request that matches an unfinished target is reported as recursion, one that matches a finished one reuses it |
| `LegacyOutcome.EveryListedTargetIsCompared` | states/visited-legacy.go:58-95 | in every interleaving a call that made a new target has compared and found different every target listed before it; one that returned a listed target has found that one the same and all before it different |
| `LegacyOutcome.RequestReturns` | states/visited-legacy.go:39-98 | what a sequential request returns, for any relation of sameness: the first listed target that is the same, as recursion if it is unfinished when compared and for reuse if done; a new target exactly if none is the same |
| `LegacyDelivery.NoIdIsLost` | states/states.go:143-167 | in every interleaving each ID that a target knows, and its own, is known by everyone it has asked for, or on its way there, or no longer needed |
| `LegacyDelivery.AtRestAncestorsAreKnown` | states/states.go:283-334 | once nothing is on its way, an unfinished target knows who asked for it and all that one knows |
| `LegacyDelivery.DeliveryMoves` | states/states.go:306-317 | what is on its way to an unfinished target can take its next step unless a channel is full |
| `UpfrontVisited.Collection.Add` | states/visited-upfront-hash.go:57-68 | returns the target already there or puts the new one into map and list, which keep the same targets without repeats |
| `UpfrontVisited.Collection.All` | states/visited-upfront-hash.go:29-34 | every visited target exactly once, no two with one key, in the order of their insertion |
| `UpfrontVisited.Serve` | states/visited-upfront-hash.go:38-69 | for any callers in any order of getting the lock: told new exactly if no earlier caller had the key, one target per key, the list holds the accepted ones in order |
| `UpfrontVisited.OneNewPerKey` | states/visited-upfront-hash.go:57-68 | exactly one caller per key is told that its target is new |
| `ConversionLaws.VisitLaw` | earthfile2llb/earthfile2llb.go:268-331 | an induction principle: what entering, rehashing and finishing a target keep holds after a conversion that succeeds |
| `ConversionLaws.AlwaysInductive` | earthfile2llb/earthfile2llb.go:200-207 | known targets are the hash stack and the finished ones, the latter in an order that puts every target after what it asks for |
| `ConversionLaws.ConvertedInOrder` | earthfile2llb/earthfile2llb.go:268-331 | for all recipes: a conversion that succeeds has converted exactly the reachable targets, each once and after its dependencies, and no cycle is reachable |
| `ConversionLaws.OrderedIsAcyclic` | earthfile2llb/earthfile2llb.go:286-311 | targets in such an order reach neither a cycle nor an unknown target |
| `ConversionExact.StepsExact` | earthfile2llb/earthfile2llb.go:268-331 | from any place a conversion gets to: either the target gets through, with known targets, hashes and finished targets as the recipes say, or the conversion ends at the first place that stops it |
| `ConversionExact.ConvertedExactly` | earthfile2llb/earthfile2llb.go:286-311 | for all recipes: success exactly if no place stops the conversion |
| `ConversionExact.OutcomeExactly` | earthfile2llb/earthfile2llb.go:286-296 | for all recipes and outcomes: cycle, wait or unknown exactly as the first place says that stops the conversion |
| `ConversionExact.FirstStopUnique` | earthfile2llb/earthfile2llb.go:286-296 | there is one first stop at most |
| `ConversionExact.BlockedExactly` | earthfile2llb/earthfile2llb.go:291-296 | the wait blocks exactly if the first stop returns to a target whose hash, as changed up to that request, is not on the stack |
| `ConversionExact.AcyclicExactly` | earthfile2llb/earthfile2llb.go:286-289 | recipes without cycle and unknown target: converted, unless a finished target is asked for again whose final hash is on the stack, and then reported as a cycle |
| `ConversionExact.ApartExactly` | earthfile2llb/earthfile2llb.go:286-289 | special case: if no hash turns into another target's, success means exactly no reachable cycle and no unknown target |
| `ConversionExact.FixedNeverBlocks` | earthfile2llb/earthfile2llb.go:286-296 | special case: if hashes stay fixed the wait never blocks, and a cycle is reported exactly if one is reachable |
| `Conversion.Convert` | earthfile2llb/earthfile2llb.go:268-331 | over shared objects: same outcome and same targets, hashes and done flags as the specification; ends for all recipes |
| `Conversion.ConvertSteps` | earthfile2llb/earthfile2llb.go:340-358 | the interpreter's loop over one recipe, against the specification |
| `Conversion.ConvertRoot` | earthfile2llb/earthfile2llb.go:200-207 | the whole run: outcome exactly that of the first stop, visited targets after success exactly the reachable ones, all done |
| `Conversion.RehashedCycleBlocks` | earthfile2llb/converter.go:1762-1768 | witness: a target that declares an ARG and asks for itself waits for itself |
| `Conversion.RehashedDiamondReported` | earthfile2llb/converter.go:1762-1768 | witness: an acyclic graph whose second request for a finished target is reported as a cycle |
| `PlusEscape.SplitUnescapePlus` | domain/reference.go:247-284 | the loop computes the words of the scanner, or the error for an open escape |
| `PlusEscape.EscapeRoundTrip` | domain/reference.go:247-288 | splitting undoes escaping exactly when every backslash run before a `+` or at the end is even |
| `PlusEscape.WordsAreEscapable` | domain/reference.go:252-283 | every word the splitter produces meets that condition |
| `Paths.CleanIdempotent` | domain/reference.go:92-96 | cleaning a path twice is cleaning it once |
| `Paths.JoinWalks` | domain/reference.go:84-96 | joining two paths walks the second from the first, component by component |
| `PathLaws.CleanSlashes` | domain/reference.go:92-96 | several slashes count as one, and one at the end for none |
| `PathLaws.CleanDots` | domain/reference.go:92-96 | a dot component stands for where it is |
| `PathLaws.CleanUp` | domain/reference.go:84-96 | two dots take back the name before them, inside a path, at its end and at its start |
| `PathLaws.CleanAboveRoot` | domain/reference.go:91-93 | two dots at the root are lost |
| `PathLaws.CleanNormal` | domain/reference.go:92-96 | paths to which none of these rules applies are clean already |
| `PathLaws.WalkClosed` | domain/reference.go:84-96 | a relative path of k steps up and some names, in closed form: it takes back k names, and what it cannot take back stays in front or is lost at a root |
| `References.JoinRefines` | domain/reference.go:58-124 | joining references is walking in the place the first one names; failures agree |
| `References.JoinResolved` | domain/reference.go:58-124 | joining resolved references gives a resolved reference |
| `References.JoinAbsolute` | domain/reference.go:69-93 | remote references and absolute paths stand for themselves, except absolute paths in a remote context, which fail |
| `References.JoinInternal` | domain/reference.go:86-101 | a name without a path is one of the same place, repository tag included |
| `References.JoinRelative` | domain/reference.go:77-99 | a relative path in closed form, for local and remote places; the tag is that of the place |
| `References.JoinParent` | domain/reference.go:84-96 | one step up from a place that ends in a name leads to the place without it |
| `References.JoinSibling` | domain/reference.go:96-99 | from `./c`, `../b` is `./b` |
| `References.JoinAssociative` | domain/reference.go:58-124 | both groupings fail together or give the same reference, exactly outside the one shape named above |
| `References.DiscardedAbsoluteDiffers` | domain/reference.go:71-82 | witness for that shape |
| `ReferenceText.PrintParseRoundTrip` | domain/reference.go:126-240 | for every reference, printing and parsing gives it back exactly if it is printable |
| `ReferenceText.ParsedRoundTrip` | domain/target.go:106-124 | what the parser returned survives printing exactly except for empty git URLs, slash-less remotes without a tag, text that cannot be escaped, and home-directory paths that are not clean |
| `ReferenceText.UnescapableNeverSplitsInTwo` | domain/reference.go:193-201 | such text never parses as the same prefix and name |
| `Imports.ImportTracker.Add` | domain/importtracker.go:104-127 | an accepted import adds one alias to one scope, the one named with AS or else the last component of the path, and overwrites none; a refused one changes nothing |
| `Imports.ReadableExactly` | domain/importtracker.go:50-102 | which imports can be accepted: other places, with a last component that is not empty and, without AS, is no dots, and with an alias without slash and colon |
| `Imports.AliasChosen` | domain/importtracker.go:84-102 | the alias is the one named with AS, else the text after the last slash of the imported path |
| `Imports.ImportThenRefer` | domain/importtracker.go:50-178 | on the tracker: the alias named with AS, or the last path component, leads to the accepted import unless a local alias hides a global one, exactly if its place survives printing, with the privilege of the import; every other alias leads where it led before, and after a refused import all do |
| `Imports.ParseDependsOnPrefix` | domain/importtracker.go:55-60 | parsing with the fictional name `none` tells how every other name will parse |
| `Imports.DerefIsFullPath` | domain/importtracker.go:50-178 | dereferencing an accepted alias gives the place its full path names exactly if that place survives printing; the privilege is that of the import |
| `Imports.AliasReadsBack` | domain/importtracker.go:98-102 | `alias+name` reads as a reference to an accepted alias exactly if the alias neither starts with a dot nor defeats escaping |
| `HashWalkLaws.DependencyMatters` | inputgraph/loader.go:1055-1068 | with another hash for one dependency the walk still succeeds, and the target's hash changes exactly if the dependency is loaded |
| `HashWalkLaws.ResolvesExactly` | inputgraph/loader.go:924-935 | a walk succeeds exactly if it meets no error and every load succeeds |
| `HashScripts.StmtsConcat` | inputgraph/loader.go:924-935 | statements one after the other, each with the variables the ones before it leave |
| `HashScripts.StatementOfTarget` | inputgraph/loader.go:1143-1170 | every statement of a target is part of its script, unbroken |
| `HashScripts.IfTakesThen` | inputgraph/loader.go:783-791 | an IF whose condition holds: its text and its own body, nothing else |
| `HashScripts.IfTakesElseIf` | inputgraph/loader.go:793-802 | the first ELSE IF that holds, after conditions that do not: its body and no other |
| `HashScripts.IfTakesElse` | inputgraph/loader.go:804-808 | no condition holds: the ELSE body or nothing |
| `HashScripts.IfTakesAll` | inputgraph/loader.go:754-834 | a condition too complex to decide: every body, that of IF first, each ELSE IF after its text, ELSE last |
| `HashScripts.IfFails` | inputgraph/loader.go:769-773 | a condition that cannot be expanded is an error |
| `HashScripts.UntakenIrrelevant` | inputgraph/loader.go:783-809 | bodies that are not taken make no difference |
| `HashScripts.ForItems` | inputgraph/loader.go:836-853 | header, number of values, rounds; the variable is unbound afterwards; values that cannot be expanded are an error |
| `HashScripts.RoundsOne` | inputgraph/loader.go:855-866 | in its round the body sees the variable bound to the value, which is hashed before it |
| `HashScripts.RoundsConcat` | inputgraph/loader.go:855-866 | the values one after the other |
| `HashScripts.WithItems` | inputgraph/loader.go:586-634 | WITH loads all its references before its body |
| `HashScripts.TryItems` | inputgraph/loader.go:899-922 | the blocks of TRY in order, missing ones skipped |
| `HashScripts.DeclareItems` | inputgraph/loader.go:487-578 | a declaration is hashed raw and expanded and takes effect; one that fails is an error |
| `HashWalkLaws.DepthIrrelevant` | inputgraph/loader.go:1083-1174 | the pure hash of a target and its arguments does not depend on the depth at which it is computed |
| `HashWalkLaws.PureIsFixpoint` | inputgraph/loader.go:1083-1174 | it is what the target's statements give with pure hashes for the others, failures included |
| `HashWalkLaws.VisitedBelowPure` | inputgraph/loader.go:1011-1068 | where the walk that refuses repeated names succeeds it gives the pure hash |
| `HashWalkLaws.VisitedSetIrrelevant` | inputgraph/loader.go:1044-1048 | two such walks with different visited sets agree if both succeed |
| `HashWalkLaws.VisitedExactly` | inputgraph/loader.go:1044-1048 | the walk that refuses repeated names succeeds exactly if the pure hash exists and every chain of loads has pairwise distinct names outside the visited set |
| `HashMemo.FeedSound` | inputgraph/loader.go:1083-1174 | with a truthful cache: it stays truthful, a success is the pure result, and what succeeds without the cache succeeds |
| `HashMemo.AskSound` | inputgraph/loader.go:1083-1097 | the same for a referenced target |
| `HashMemo.CacheHidesRepeats` | inputgraph/loader.go:1044-1048 | a target served with the cache would be served without it exactly if no chain of its loads repeats a name |
| `HashLoader.Loader.HandleStatements` | inputgraph/loader.go:924-935 | the loop over a block does exactly what its script says, on transcript, variables and cache; ends on cyclic names too |
| `HashLoader.Loader.HandleStatement` | inputgraph/loader.go:937-963 | the same for one statement |
| `HashLoader.Loader.HandleIf` | inputgraph/loader.go:754-809 | the first condition that holds decides, one that is too complex makes every branch count |
| `HashLoader.Loader.HandleIfDefault` | inputgraph/loader.go:811-834 | every branch in order |
| `HashLoader.Loader.HandleFor` | inputgraph/loader.go:836-869 | each value is hashed, bound, used and unbound before the next |
| `HashLoader.Loader.HandleTry` | inputgraph/loader.go:899-922 | its blocks in order, missing ones skipped |
| `HashLoader.Loader.HandleReferences` | inputgraph/loader.go:103-130 | writes and loads in order, up to the first failure |
| `HashLoader.Loader.LoadTarget` | inputgraph/loader.go:1044-1068 | a forbidden name fails even if cached; else a cached hash is returned and counted as a hit; else a loader of its own walks the target; each entered target is counted as hashed or as a hit |
| `HashLoader.HashRoot` | inputgraph/loader.go:1083-1181 | a whole run, result exactly determined: the pure hash on success, success wherever the walk without the cache succeeds, every non-root entry a pure hash, targets visited are targets hashed plus cache hits |
| `HashLoader.DepthBounded` | inputgraph/loader.go:969-973 | loaders below the root are nested at most as deep as there are names |
| `HashLoader.CacheHidesDetour` | inputgraph/loader.go:1044-1097 | witness: a run of the loader that succeeds through the cache and fails without it |
| `LookAhead.ReachedFrom` | earthfile2llb/interpreter.go:132-177 | look-ahead reaches a statement from one place at most: after the nearest barrier, if that is ARG, LET or SET |
| `LookAhead.Interpreter.HandleBlockParallel` | earthfile2llb/interpreter.go:132-177 | considers each BUILD up to the next barrier once, all of them unless one fails; one is started exactly if it has neither shell-outs nor --auto-skip, expands and resolves; the others are skipped before they are resolved |
| `LookAhead.Interpreter.HandleBlock` | earthfile2llb/interpreter.go:111-130 | a run considers and interprets exactly the BUILDs that are due, none twice, each ahead before its turn, and starts the right ones; succeeds exactly if every statement does and no BUILD looked at fails where look-ahead starts |
| `LookAhead.ConsideredFrom` | earthfile2llb/interpreter.go:111-177 | a BUILD is considered exactly if, outside LOCALLY, look-ahead starts before it, at the start of the block or after ARG, LET or SET, with none of the ten kinds of barriers on the way |
| `LookAhead.ConsideredExactly` | earthfile2llb/interpreter.go:111-177 | outside LOCALLY: exactly if its nearest barrier is missing or is ARG, LET or SET |
| `LookAhead.AheadSeesTheSame` | earthfile2llb/interpreter.go:1471-1609 | without ENV, IMPORT or DO in between, both launches of a BUILD see the same variables |
| `LookAhead.LookAheadHarmless` | earthfile2llb/interpreter.go:1471-1561 | a block that succeeds in turn succeeds with look-ahead exactly if every BUILD behind an ENV, IMPORT or DO expands where look-ahead starts and, if it is started there, resolves |
| `LookAhead.LookAheadPassesImport` | earthfile2llb/converter.go:2303-2314 | witness: IMPORT, then BUILD of the alias, fails exactly if the BUILD neither shells out nor has --auto-skip |
| `SaveImages.FirstPass` | earthfile2llb/wait_block.go:110-165 | passes exactly if of two images with one tag the first is part of a manifest list and the second has a platform; an error names a pair that does not go together and says the right thing of it; tells which tags are multi-platform |
| `SaveImages.SecondPass` | earthfile2llb/wait_block.go:180-262 | passes exactly if all platform names exist and no two images claim the same one; entries have consecutive reference numbers; the tar images are exactly the local multi-platform ones outside the registry |
| `SaveImages.NamesExactly` | earthfile2llb/wait_block.go:225-245 | which names are exported: every image under its tag with its own push flag, and never pushed, under its platform's name, every local image of a multi-platform tag |
| `SaveImages.PlanExactly` | earthfile2llb/wait_block.go:225-262 | each image has an entry with its tag and push flag; the tar images are exactly the local ones of multi-platform tags outside the registry |
| `SaveImages.Save` | earthfile2llb/wait_block.go:110-262 | both passes together; the message about a repeated `--no-manifest-list` never appears |
| `SaveImages.CheckedExactly` | earthfile2llb/wait_block.go:133-223 | with the duplicate check on, accepted exactly if repeated tags have platforms and manifest lists throughout and platform-specific names are pairwise distinct |
| `SaveImages.AcceptedRepeats` | earthfile2llb/wait_block.go:129-163 | of accepted images, repeated tags are part of manifest lists throughout exactly if no later repeat has `--no-manifest-list` |
| `SaveImages.RepeatNoticed` | earthfile2llb/wait_block.go:199-223 | such a repeat is refused exactly if both images are checked for duplicates |
| `SaveImages.UncheckedRepeatAccepted` | earthfile2llb/wait_block.go:151-158 | witness: both unchecked |
| `WaitBlock.NewSaveImage` | earthfile2llb/converter.go:1464-1468 | starts unpushed, exported only if saving is on, pushable only with the flag, and none of it without a tag |
| `WaitBlock.SaveImageItem.SetDoSave` | earthfile2llb/save_image_wait_item.go:29-36 | turns on local export for tagged images only |
| `WaitBlock.SaveImageItem.SetDoPush` | earthfile2llb/save_image_wait_item.go:38-45 | turns on pushing for tagged images that allow it |
| `WaitBlock.Block.AddItem` | earthfile2llb/wait_block.go:58-69 | appends a new item and ignores a seen one; items stay duplicate-free and equal to the seen set |
| `WaitBlock.Block.Wait` | earthfile2llb/wait_block.go:71-108 | works exactly if it is the first call, the first to push or the first to export |
| `WaitBlock.Block.SetDoSaves` | earthfile2llb/wait_block.go:40-47 | turns on local export for every tagged image of the block and nothing else |
| `WaitBlock.Block.SaveAll` | earthfile2llb/wait_block.go:110-165 | saves exactly the images that are to be pushed or exported, with just their item's flags |
| `WaitBlock.ActiveExactly` | earthfile2llb/wait_block.go:118-127 | an image is saved exactly if its item pushes or exports it |
| `WaitBlock.ActiveConcat` | earthfile2llb/wait_block.go:118-127 | in the order of the items |
| `WaitBlock.ActiveImagesTagged` | earthfile2llb/save_image_wait_item.go:20-45 | no image without a tag is ever saved |
| `WaitBlock.SavedExactly` | earthfile2llb/wait_block.go:110-223 | what `CheckedExactly` states, for the active images of any block |
| `WaitBlock.WaitsBounded` | earthfile2llb/wait_block.go:71-108 | at most three waits work and at most two export; the first wait and the first export always do |
| `WaitBlock.Drive` | earthfile2llb/wait_block.go:58-108 | for any sequence of calls: items in first-insertion order, and those bounds |
| `WaitBlock.BoundsReached` | earthfile2llb/wait_block.go:71-108 | both bounds are reached |
| `ManifestBarrier.Barrier.OnImageDone` | builder/builder.go:606-641 | loads exactly if all images of the list are exported and known, and then the grouped manifests |
| `ManifestBarrier.GroupedByTag` | builder/builder.go:611-625 | each tag gets exactly the manifests of its own images, in their order |
| `ManifestBarrier.Complete` | builder/builder.go:602-641 | for any order of completions of any blocks, what each completion loads |
| `ManifestBarrier.LoadedOnceAtTheEnd` | earthfile2llb/wait_block.go:265-274 | a block's manifests are loaded by its last completion and by no other, whatever other blocks do; never if an image never finishes |
| `Delimited.SplitJoin` | earthfile2llb/wait_block.go:268 | the list of keys survives being joined and split on the separator |
| `Settings.HashInput` | buildkitd/settings.go:87-116 | the writes produce the specified stream |
| `Settings.SettingsHasher.WriteString` | buildkitd/settings.go:46-60 | writes the length and then the bytes of the string |
| `Settings.SettingsHasher.WriteBool` | buildkitd/settings.go:62-74 | writes one byte, 1 or 0 |
| `Settings.SettingsHasher.WriteInt` | buildkitd/settings.go:76-84 | writes eight bytes of the two's complement |
| `Settings.BigEndianValue` | buildkitd/settings.go:51-54 | the bytes of a number stand for it, most significant first, cut to their width |
| `Settings.SettingsHasher.WriteArgs` | buildkitd/settings.go:101-105 | the loop writes the number of arguments and then each of them |
| `Settings.StreamInjective` | buildkitd/settings.go:46-116 | below 2^32 bytes per string, equal streams mean equal settings except for the three unhashed fields, and conversely |
| `Settings.LongStringsCollide` | buildkitd/settings.go:51-54 | witness: 2^32 zero bytes moved from one hashed field to the next, different settings with one stream |

## Left out

- The legacy collection is a step system on values, not a class: its point is the interleaving of goroutines, which one sequential method could not show.
- Deadlock freedom of parallel conversion: two targets started in parallel that name each other can each wait for the other, so only safety is claimed for arbitrary interleavings.
- The comparison of target inputs in the legacy collection is a verdict that any run may choose; what makes two inputs equal is not modelled.
- Cancellation of a context is a step that ends a waiting or draining call; background goroutines that end with it are not modelled.
- Conversion.Convert: models the sequential conversion; cancellation, the error group and saving or pushing for a target that is found again are not modelled, nor which commands change an input hash, which a recipe lists as given.
- Windows paths; the home directory is a parameter of the parser. The regular expressions of target and command names are written out as character classes.
- The base recipe of the root, several Earthfiles and global imports in the hash walk: the walk starts after the base recipe and stays in one Earthfile. Files, remote references and argument matrices are among the values that a reference command writes and the loads it makes.
- HashLoader.HashRoot: does not claim that a success with the cache implies success without it, because that is false (see above); which runs the order of the loads saves is not characterised beyond `CacheHidesRepeats`.
- How a condition is evaluated: it is a parameter with the verdicts yes, no, too complex and broken. The code's handling of `&&` is not a faithful conjunction.
- Nested blocks in look-ahead: IF, FOR, WAIT, TRY, WITH and DO act on the world as given functions, and so do expanding and resolving a BUILD. That only barriers, ENV, IMPORT and DO change variables or imports is a premise (`Sensible`) of the lemmas that compare environments.
- Solving, marshalling and exporting in `saveImages`, and its errors that come from outside; platform-specific naming is a parameter. The keys of the export coordinator are taken to have no spaces.
- What `saveArtifactLocal` and `waitStates` do. Whether an image is pushed at END is not claimed, because `Wait` never turns pushing on.
- Settings.HashInput: does not model the reused buffer and the error field, because writing to the hash does not fail; the hash function itself is not modelled, only its input.
- SAVE ARTIFACT, console output, autocompletion, editing of configuration files, and everything that talks to BuildKit, Docker, git, SSH, TLS or the file system.
