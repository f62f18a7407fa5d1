# Peers: verified models of the media stack and the browser libraries

Dafny models of the most intricate code in this repository, with proofs of what that code is for.
`dafny verify dfyconfig.toml` checks everything. The modules stand in the order of the parts below;
each file begins with what it is about.

**Selectors** (`Dom`, `Selectors`, `SelectorEngine`, `SelectorCompiler`, `SelectorMeaning`). Nodes are
heap objects with parent and sibling links and an expando. Sizzle compiles a token list into a chain
of matchers, which leave memo cells in the expandos; one cell is shared by all nodes that a walk
visits. The compiled chain with its cells gives the same answers as the search without cells, and
these are the answers that section 8 of Selectors Level 3 asks for: the candidates that end a chain of
nodes related as the combinators say, which begins below a context node unless the context is the
document. This holds for every forest, context and selector list, and whatever earlier runs have left
in the expandos. `NthChild` does the same for the resumable position caches of `:nth-child` and its
kin (section 6.6.5.2), and `DocumentOrder` for the comparator made from ancestor lists, sorting, and
the removal of repeats.

**Module loader** (`LoaderState`, `LoaderSteps`, `LoaderWiring`, `LoaderGraph`, `Loader`,
`LoaderRuns`). A state machine of modules whose factories are foreign code that may call back into the
loader. One invariant holds over all runs: `depCount` counts the wired dependencies without a value, a
factory starts at most once, after all dependencies that were not forced, and with their values; what
an enabled module depends on is enabled, and has been asked for. Cycles are left alone as long as some
module that has been asked for has not come, and broken once all have; that terminates, completes
every pending require of a region where that is possible, and forces only edges that lie on a cycle.
`PathTrimming` treats `trimDots`.

**Callbacks, Deferred and when** (`CallbackLists`, `CallbackViews`, `CallbackSteps`, `Callbacks`,
`CallbackFiring`, `CallbackEnding`, `CallbackMoves`, `CallbackWorld`, `CallbackRuns`, `When`). Foreign
callbacks may add, remove, fire, disable, lock, empty and create lists and Deferreds while a list is
firing. What they do is a script of any finite length, so a theorem about every script is one about
every run that ends. Every list keeps a history next to it: what was added, which entries took part in
a pass, which have run, and which were removed before their turn. A world knows what the code that
runs in it leaves alone: lists that it never empties, disables or locks, and callbacks that it never
removes. Unless such a list stops on false, each of its passes calls every such callback that takes
part exactly once, in list order, whatever callbacks are added, removed or fired meanwhile. A Deferred
calls what was given to `done` exactly once with the arguments of `resolve`, and never when it is
rejected; for `fail` and `reject` it is the other way round.

**Deep equality** (`ObjectGraphs`, `Numbers`, `Comparing`, `Equality`). Underscore's `eq` on object
graphs that may have cycles, with its two stacks. It terminates, a yes means that the graphs are
bisimilar, without cycles a yes means exactly structural equality, and every copy is equal to its
original.

**SDP** (`SdpText`, `Sdp`, `SdpParsing`, `SdpLines`, `SdpRoundTrip`, `SdpNegotiation`). Printer,
line-reading parser and codec choice, on text. Parsing undoes printing, with an rtpmap line for every
codec or for some of them; `SdpLines` says what becomes of other lines, and when the parser refuses or
throws. Both ends of a negotiation settle on the same codec, also when the answer has gone through its
printed form (section 5 of RFC 4566, section 6 of RFC 3264).

**Backbone** (`BackboneModel`, `BackboneCollection`). The change log of a model through any nesting of
`set`, `unset` and `clear` in its listeners, which changes are announced, and the index of a
collection beside its ordered list.

**G.711 and RTP** (`Samples`, `ALaw`, `MuLaw`, `CompandedBuffers`, `Rtp`, `RtpSending`). Both codecs
with error bounds, order and the byte-level inverse (section 3 of ITU-T G.711); the packet parser and
its inverse, and the stream that the sender puts on the wire across integer wrap-around (section 5.1 of
RFC 3550).

Where the code falls short of what one would expect of it, the model follows the code:

- An audio packet can carry the marker bit: the sender reuses one packet record, and only a payload
  type that differs from the one of the codec resets the bit. `AudioCanBeMarked` shows such a run,
  `AudioMarker` says exactly when it happens.
- `Model.set` with the `unset` option and a value other than undefined spoils the change log, and can
  lose a change. `UnsetWithValueLosesChange` shows it. For a whole call, `UnsetLogsChange` says exactly
  when the log stays right, and `UnsetKeepsKeys` exactly when it has at least the right attributes.
- The comparator of `sort` puts the root of a detached tree after everything below it, and holds nodes
  of two detached trees to be equal. `SortOrder` says exactly what it does with every pair of nodes.
- The printed form of a session without media, or with a media without codecs, is not read back.
  `ParsePrintedSession` states both cases.
- The A-law encoder turns the sample -32768 into one that decodes to -8 (`LeastSampleLost`), and the
  mu-law code 0x7F comes back as 0xFF (`MuLaw.CompressDecompress`).
- The RTP parser misreads contributing sources, for a sum is computed before a shift (`CsrcMisread`).
- `trimDots` does not trim every path to its end. `BreaksOff` says exactly which ones it does not, and
  `TrimLeavesDots` has one that is left as it was.

## Model

| member | source | states |
|---|---|---|
| `SelectorCompiler.Compiler.AddCombinator` | site/js/jquery-1.11.2.js:2123-2174 | every combinator gets a `doneName` of its own, which no earlier matcher has |
| `SelectorCompiler.Compiler.MatcherFromTokens` | site/js/jquery-1.11.2.js:2313-2369 | the compiled matcher stands for the tokens read from the right, and its combinators have different `doneName`s |
| `SelectorCompiler.Compiler.Compile` | site/js/jquery-1.11.2.js:2470-2498 | one matcher for each group, the last group first, all with different `doneName`s |
| `SelectorEngine.StaleIgnored` | site/js/jquery-1.11.2.js:2155-2161 | memo cells of earlier runs have no effect on a new run |
| `SelectorEngine.MemosFrame` | site/js/jquery-1.11.2.js:2155-2163 | a slot that takes a cell with a `doneName` foreign to the matcher does not make its cells wrong |
| `SelectorEngine.Engine.Match` | site/js/jquery-1.11.2.js:2123-2188 | running a compiled matcher with its caches gives what the search without caches gives, and leaves every cell of this run right |
| `SelectorEngine.Engine.TraversePlain` | site/js/jquery-1.11.2.js:2128-2151 | a walk that stops at the first element, or runs in XML, without cells |
| `SelectorEngine.Engine.TraverseCached` | site/js/jquery-1.11.2.js:2138-2173 | a walk whose visited nodes share one cell: an earlier cell that ends it, and the result written last, are both right for every node |
| `SelectorEngine.Engine.Walk` | site/js/jquery-1.11.2.js:2153-2171 | the loop of that walk, from a cell that no node holds yet: the answer of the search without cells, and every cell right at the end |
| `SelectorEngine.Engine.Consider` | site/js/jquery-1.11.2.js:2154-2170 | one node of a cached walk: the answer of an earlier cell, which is then adopted, or a new cell planted and the inner matcher tried |
| `SelectorEngine.Engine.Visit` | site/js/jquery-1.11.2.js:2161-2169 | a node without a usable cell gets the shared one, the inner matcher runs, and its result goes into the cell of all nodes visited so far |
| `SelectorEngine.Engine.MatchInner` | site/js/jquery-1.11.2.js:2165-2168 | the inner matcher may run its own walks over the same nodes; the cell shared by the outer walk stays where it was |
| `SelectorEngine.Engine.MatchContext` | site/js/jquery-1.11.2.js:2320-2335 | the first matcher looks for one context node, or any of several |
| `SelectorEngine.Engine.MatchAll` | site/js/jquery-1.11.2.js:2176-2188 | all matchers of a compound selector, from the last one back |
| `SelectorEngine.Engine.MatchAny` | site/js/jquery-1.11.2.js:2396-2404 | a candidate is taken as soon as one group accepts it |
| `SelectorEngine.Engine.FilterElements` | site/js/jquery-1.11.2.js:2395-2421 | the candidates that some group accepts, in the order given |
| `SelectorEngine.Engine.SuperMatch` | site/js/jquery-1.11.2.js:2371-2463 | a whole run: exactly the candidates accepted for this context, in input order, where the context counts as outermost unless it is the document; whatever cells earlier runs have left, and no cell is ahead of the run number afterwards |
| `SelectorMeaning.UpwardWalk` | site/js/jquery-1.11.2.js:2128-2173 | `>` and the blank: the walk succeeds exactly if the parent, or some ancestor, is accepted |
| `SelectorMeaning.SidewaysWalk` | site/js/jquery-1.11.2.js:2128-2173 | `+` and `~`: the walk succeeds exactly if the nearest earlier element sibling, or some earlier one, is accepted |
| `SelectorMeaning.CombinatorMeaning` | site/js/jquery-1.11.2.js:1575-1580 | the table of combinators gives each of them its meaning in Selectors Level 3 |
| `SelectorMeaning.StandsMeaning` | site/js/jquery-1.11.2.js:2337-2368 | the matchers built so far accept what the tokens read so far demand |
| `SelectorMeaning.ArrivesByPath` | site/js/jquery-1.11.2.js:2337-2368 | an accepted node ends a chain of nodes that satisfies the combinators and starts within reach of the context |
| `SelectorMeaning.PathArrives` | site/js/jquery-1.11.2.js:2337-2368 | the end of every such chain is accepted |
| `SelectorMeaning.CompilationPreservesMeaning` | site/js/jquery-1.11.2.js:2313-2369 | for every forest, context and token list: the compiled matcher accepts a node exactly if the selector selects it |
| `SelectorMeaning.CompiledListSelects` | site/js/jquery-1.11.2.js:2470-2498 | a compiled selector list accepts exactly the nodes that one of its groups selects |
| `SelectorMeaning.SelectsMeans` | site/js/jquery-1.11.2.js:2320-2328 | a chain begins anywhere if the context is the document or in XML, else below a context node; with a leading combinator, at a node so related to a context node |
| `SelectorMeaning.Search` | site/js/jquery-1.11.2.js:2371-2498 | compile and run: the results are, in input order, the candidates that end a chain of nodes that satisfies a group and begins where the context allows, whatever cells earlier runs have left |
| `SelectorMeaning.KeptOfConcat` | site/js/jquery-1.11.2.js:2395-2421 | candidates are filtered one by one, in order |
| `SelectorMeaning.KeptCounts` | site/js/jquery-1.11.2.js:2395-2421 | a selected candidate comes out as often as it went in, any other never |
| `NthChild.Seek` | site/js/jquery-1.11.2.js:1745-1759 | from any true mark, or none, the seek finds the element at its true place among the elements, even when it lies before the mark |
| `NthChild.SeekFromMark` | site/js/jquery-1.11.2.js:1741-1759 | `:nth-child` through the mark on the parent: the true place, and a true mark for the next query of the run |
| `NthChild.SeekFromEnd` | site/js/jquery-1.11.2.js:1761-1782 | `:nth-last-child` and of-type: the true place from either end; every mark left on a node is true |
| `NthChild.InCycleMeansReached` | site/js/jquery-1.11.2.js:1784-1786 | for all integers a and b the final test holds exactly if some n from 0 on has position = a*n + b |
| `NthChild.MatchesNth` | site/js/jquery-1.11.2.js:1702-1787 | the whole filter, with or without caches: true exactly if the number of elements, or of siblings of the same name in lower case, up to the element or from it on, is a*n + b for some n from 0 on |
| `NthChild.PlaceIsPosition` | site/js/jquery-1.11.2.js:1745-1782 | what the walks count is the size of the set of siblings that are alike |
| `NthChild.MarksOkAtStart` | site/js/jquery-1.11.2.js:1742-1763 | marks of earlier runs do not count, so a run starts with true marks, however the tree has changed |
| `NthChild.NextRun` | site/js/jquery-1.11.2.js:1742-1763 | the end of one run is a start for the next |
| `DocumentOrder.PrecedesIsStrictTotalOrder` | site/js/jquery-1.11.2.js:1371-1423 | document order on the nodes of one document is irreflexive, total and transitive |
| `DocumentOrder.PrecedesIsPreorder` | site/js/jquery-1.11.2.js:1371-1423 | a node precedes all below it, and these precede the later siblings and all below them |
| `DocumentOrder.SiblingCheck` | site/js/jquery-1.11.2.js:961-982 | the sign says which sibling has the smaller index; nothing precedes something |
| `DocumentOrder.Ancestors` | site/js/jquery-1.11.2.js:1400-1408 | the list from the root to the node |
| `DocumentOrder.LinesPart` | site/js/jquery-1.11.2.js:1410-1417 | where two ancestor lists part, the siblings there decide the order of the nodes |
| `DocumentOrder.Sorter.SortOrder` | site/js/jquery-1.11.2.js:1371-1423 | on nodes of the document the comparator is negative exactly if the first precedes, positive exactly if the second does, and notices identical nodes; in a detached tree the same holds but for the root, which comes last; between trees the document comes first, then nodes with a parent, and for the others the input order decides, if it is kept |
| `DocumentOrder.Sorter.Sort` | site/js/jquery-1.11.2.js:1507 | sorting by the comparator gives document order, the same nodes as often, and notices every repeat |
| `DocumentOrder.WithoutRepeats` | site/js/jquery-1.11.2.js:1509-1518 | dropping adjacent repeats leaves each node once, in strict document order |
| `DocumentOrder.Sorter.UniqueSort` | site/js/jquery-1.11.2.js:1498-1525 | every node of the input exactly once, in document order |
| `ModuleLoader.Loader.constructor` | site/js/require.js:194-218 | an empty loader satisfies the invariant |
| `ModuleLoader.Loader.Init` | site/js/require.js:734-782 | a definition is taken once: the module is inited with these dependencies and this factory; later ones change nothing, and a definition that nobody needs yet starts nothing |
| `ModuleLoader.Loader.CallDefine` | site/js/require.js:1165-1170 | a definition gets a record unless its module has a value, and starts nothing as long as nobody needs it |
| `ModuleLoader.Loader.CallRequire` | site/js/require.js:1398-1418 | a `require` call makes a module under a new name, which is enabled at once |
| `ModuleLoader.Loader.DefineDep` | site/js/require.js:784-792 | a pending dependency is matched at most once, with its value, and `depCount` goes down by one |
| `ModuleLoader.Loader.Check` | site/js/require.js:832-929 | keeps the loader invariant from any state; a module that is needed and has not been inited is asked for, one that is not ready stays as it is, and one that waits for nothing is defined or being defined |
| `ModuleLoader.Loader.DefineNow` | site/js/require.js:852-926 | how the factory ends decides: the module keeps an error, or is defined with the exports that follow; whatever the factory calls, it is not started again |
| `ModuleLoader.Loader.Start` | site/js/require.js:854-870 | a factory that has never started starts, with the values of its dependencies as arguments |
| `ModuleLoader.Loader.Execute` | site/js/require.js:854-899 | the exports of a literal are its value; after a call they are `module.exports` if that was asked for and set, else the return value, else the `exports` object handed out |
| `ModuleLoader.Loader.Fail` | site/js/require.js:889-894 | a module whose factory throws keeps the error, and nothing else changes |
| `ModuleLoader.Loader.Complete` | site/js/require.js:901-915 | the module leaves the registry and its value becomes what others receive |
| `ModuleLoader.Loader.Announce` | site/js/require.js:920-926 | every listener is told before `defineEmitComplete` is set |
| `ModuleLoader.Loader.Notify` | site/js/require.js:1109-1112 | a told listener has its dependency matched, and is checked |
| `ModuleLoader.Loader.Wire` | site/js/require.js:1088-1112 | one dependency becomes a value, or a listener that will be told |
| `ModuleLoader.Loader.WireSpecial` | site/js/require.js:556-594 | `require` and `module` get the local function and the module object of this module; `exports` gets what the module exports so far, or else a new object, which is then its value |
| `ModuleLoader.Loader.Listen` | site/js/require.js:496-513 | a listener for the dependency is recorded with its module, and the dependency is pending |
| `ModuleLoader.Loader.MatchDefined` | site/js/require.js:496-506 | the value of a module that has announced itself to all is taken at once |
| `ModuleLoader.Loader.EnableDep` | site/js/require.js:1088-1128 | one dependency is wired, and its module is enabled |
| `ModuleLoader.Loader.EnableTarget` | site/js/require.js:1119-1127 | the module of a dependency is enabled, unless it is enabled or defined already |
| `ModuleLoader.Loader.Enable` | site/js/require.js:1077-1142 | afterwards the module is enabled, all dependencies are wired and their modules enabled, and the module is checked |
| `ModuleLoader.Loader.GetModule` | site/js/require.js:485-494 | a record is made only where there is none |
| `ModuleLoader.Loader.BreakEdge` | site/js/require.js:609-625 | an edge back to a module being traced is forced, any other pending one is followed |
| `ModuleLoader.Loader.Force` | site/js/require.js:617-620 | a forced dependency is matched, and lies on a cycle |
| `ModuleLoader.Loader.MatchByForce` | site/js/require.js:619 | it gets what the table of values has for it, or undefined if there is nothing |
| `ModuleLoader.Loader.BreakCycle` | site/js/require.js:602-628 | terminates on every graph; in a region of inited, enabled, error-free modules the traced module ends up defined; only edges on cycles are forced |
| `ModuleLoader.Loader.VisitDeps` | site/js/require.js:609-625 | the loop over the dependencies of the traced module |
| `ModuleLoader.Loader.BreakCycles` | site/js/require.js:693-698 | every pending require of a region that can be completed is completed |
| `ModuleLoader.Loader.CheckLoaded` | site/js/require.js:630-715 | while an enabled, error-free module that has been asked for has not been defined by its script, nothing happens at all; once all have, every enabled require has run whose dependencies, taken all the way down, are inited and without error; that they are enabled follows |
| `ModuleLoader.Loader.LookAround` | site/js/require.js:648-684 | the loop over the enabled modules finds the `require` calls, and whether each module asked for has been inited |
| `ModuleLoader.Loader.RunFactory` | site/js/require.js:1635-1637 | foreign code may call into the loader in any way before it returns or throws, and its calls are carried out |
| `ModuleLoader.Loader.Perform` | site/js/require.js:832-929 | every call that foreign code can make keeps the invariant; a definition is taken unless its module has a value or a definition, a `require` call is taken always |
| `ModuleLoader.Loader.Run` | site/js/require.js:832-929 | the invariant holds after every run, and every forced dependency lies on a cycle |
| `LoaderRuns.DepCountIsExact` | site/js/require.js:784-792 | `depCount` is the number of dependencies wired and not matched |
| `LoaderRuns.StartIsSafe` | site/js/require.js:854-870 | a factory starts at most once, after every dependency that was not forced is defined, with exactly the value defined |
| `LoaderRuns.AcyclicNeverForces` | site/js/require.js:602-628 | without dependency cycles nothing is forced |
| `LoaderRuns.AcyclicRunIsSafe` | site/js/require.js:832-929 | without dependency cycles every start comes after all its dependencies, with their values |
| `LoaderRuns.CompletedHasRun` | site/js/require.js:854-915 | a defined module has had all dependencies matched and its callback run |
| `LoaderGraph.QuietEvolves` | site/js/require.js:602-628 | a region that can be completed stays so, and what is defined stays defined, while other code runs |
| `LoaderGraph.EnabledIsQuiet` | site/js/require.js:1077-1142 | whatever a module depends on, however indirectly, is enabled once the module is |
| `PathTrimming.CutKeepsPlace` | site/js/require.js:233-248 | cutting a ".", or a name and the ".." after it, does not change where the path leads |
| `PathTrimming.TrimOk` | site/js/require.js:229-251 | the result leads to the same place; unless the loop breaks off, no "." and no ".." but at the front is left before the first empty segment |
| `PathTrimming.BreaksOff` | site/js/require.js:229-251 | the loop breaks off exactly if, before the first empty segment, a ".." comes where the path has led one level up, or one level down with another ".." next |
| `PathTrimming.TrimLeavesDots` | site/js/require.js:236-244 | a path that is left with its dots |
| `PathTrimming.TrimIsIdempotent` | site/js/require.js:229-251 | trimming twice is trimming once |
| `PathTrimming.Segments.TrimDots` | site/js/require.js:229-251 | the in-place loop terminates, keeps the place, and trims every path to its end but those that break off |
| `CallbackOperations.CallbackWorld.NewCallbacks` | site/js/jquery-1.11.2.js:3110-3134 | a new list is empty, and touches no other |
| `CallbackOperations.CallbackWorld.NewDeferred` | site/js/jquery-1.11.2.js:3277-3349 | a new Deferred is pending, with three internal functions at the head of each settling list |
| `CallbackOperations.CallbackWorld.PushAll` | site/js/jquery-1.11.2.js:3166-3180 | appends the callbacks, under `unique` only new ones; a firing list takes them into its pass |
| `CallbackOperations.WithAddedAll` | site/js/jquery-1.11.2.js:3166-3180 | without `unique` all callbacks are appended in order |
| `CallbackOperations.WithAddedOnce` | site/js/jquery-1.11.2.js:3166-3180 | under `unique` every callback is there afterwards, and only those are appended that were not, once each |
| `CallbackOperations.CallbackWorld.Add` | site/js/jquery-1.11.2.js:3164-3193 | also `done`, `fail`, `progress`: the new callbacks get the next numbers; a list that remembers its fire delivers that to them at once; such a pass can only be broken off on a list that stops on false, or that the script empties, disables or locks |
| `CallbackOperations.CallbackWorld.Remove` | site/js/jquery-1.11.2.js:3195-3214 | every occurrence of each function goes, and the firing indices stay in step: a running pass stays undisturbed |
| `CallbackOperations.CallbackWorld.RemoveNext` | site/js/jquery-1.11.2.js:3199-3211 | one occurrence goes, and an entry removed before its turn is accounted for |
| `CallbackOperations.CallbackWorld.Empty` | site/js/jquery-1.11.2.js:3221-3225 | the list is empty; a pass under way counts as broken off |
| `CallbackOperations.CallbackWorld.Disable` | site/js/jquery-1.11.2.js:3227-3230 | list, queue and memory are gone |
| `CallbackOperations.CallbackWorld.Lock` | site/js/jquery-1.11.2.js:3236-3242 | no more queueing; without memory the list is disabled |
| `CallbackOperations.CallbackWorld.FireWith` | site/js/jquery-1.11.2.js:3248-3259 | also `resolve`, `reject`, `notify`: ignored, queued behind the running pass, or delivered to all callbacks that are there |
| `CallbackOperations.CallbackWorld.Done` | site/js/jquery-1.11.2.js:3330-3331 | `done` adds to the done list, unless the Deferred is rejected, when nothing happens |
| `CallbackOperations.CallbackWorld.Fail` | site/js/jquery-1.11.2.js:3330-3331 | `fail` adds to the fail list, unless the Deferred is resolved, when nothing happens |
| `CallbackOperations.CallbackWorld.Progress` | site/js/jquery-1.11.2.js:3330-3331 | `progress` adds to the progress list while there is one |
| `CallbackOperations.CallbackWorld.Settle` | site/js/jquery-1.11.2.js:3333-3348 | the first `resolve` or `reject` sets the state and delivers its arguments on the done or the fail list; later ones do nothing |
| `CallbackOperations.CallbackWorld.Notify` | site/js/jquery-1.11.2.js:3343-3348 | `notify` is accepted by the progress list while the Deferred is pending, and does nothing later |
| `CallbackOperations.CallbackWorld.Fire` | site/js/jquery-1.11.2.js:3135-3160 | one pass and then the queue: the pass covers all entries it started with, and can only be broken off on a list that stops on false, or that the script empties, disables or locks |
| `CallbackOperations.CallbackWorld.RunPass` | site/js/jquery-1.11.2.js:3136-3148 | whatever the callbacks call, the pass ends with each entry run or removed before its turn; on a list that the script spares and that does not stop on false, nothing breaks it off |
| `CallbackOperations.CallbackWorld.Loop` | site/js/jquery-1.11.2.js:3142-3147 | indices that callbacks shift never skip or repeat an entry, for as long as nothing breaks the pass off; a list that stops on false stops at the first callback that returns it, and no other list stops |
| `CallbackOperations.CallbackWorld.Turn` | site/js/jquery-1.11.2.js:3143 | exactly the entry at `firingIndex` is called, with the arguments of the pass |
| `CallbackOperations.CallbackWorld.CallInternal` | site/js/jquery-1.11.2.js:3334-3341 | the internal functions set the state once, disable the other list and lock progress, before any foreign callback runs |
| `CallbackOperations.CallbackWorld.FireNext` | site/js/jquery-1.11.2.js:3149-3159 | what was queued first is fired and delivered first; a list with an empty queue that fires no more keeps its arguments only, or nothing |
| `CallbackOperations.CallbackWorld.RunForeign` | site/js/jquery-1.11.2.js:3143 | any finite behaviour of a callback keeps everything right, and breaks off no pass of a list that it spares; its calls are carried out, and what it returns is what the script says |
| `CallbackOperations.CallbackWorld.TurnAndAdvance` | site/js/jquery-1.11.2.js:3142-3147 | one callback is called, and the list stops exactly if it returned false and the list has that option |
| `CallbackOperations.CallbackWorld.Perform` | site/js/jquery-1.11.2.js:3162-3259 | every call that foreign code can make keeps everything right, and does what it is for: each function of a Deferred reaches its own list, and each function of a list has its effect on that list |
| `CallbackLists.RemoveAtOk` | site/js/jquery-1.11.2.js:3199-3210 | removing an entry, at any time, keeps indices and accounts right |
| `CallbackLists.PushOk` | site/js/jquery-1.11.2.js:3166-3187 | adding an entry, at any time, keeps indices and accounts right |
| `CallbackLists.PassComplete` | site/js/jquery-1.11.2.js:3142-3147 | at the end of an undisturbed pass every entry that took part has run or was removed |
| `CallbackRuns.IndicesAreRepaired` | site/js/jquery-1.11.2.js:3195-3214 | whenever foreign code runs in the middle of a pass of a list that is spared and does not stop on false, `firingLength` is the list length, and the entries up to `firingIndex` are those that have run |
| `CallbackRuns.PassServesAll` | site/js/jquery-1.11.2.js:3135-3147 | each entry that takes part in a finished pass is called exactly once in it, with the arguments of the pass, unless foreign code removed it before its turn; then it is not called, and never comes back |
| `CallbackRuns.KeptAreServed` | site/js/jquery-1.11.2.js:3135-3160 | in every pass of a list that is spared and does not stop on false, each entry that takes part is called exactly once with the arguments of the pass, if the script does not remove its callback |
| `CallbackRuns.Run` | site/js/jquery-1.11.2.js:3110-3262 | after any run everything is right and no list is left firing; left alone are exactly the lists that the script never empties, disables or locks, and the callbacks it never removes |
| `CallbackRuns.EveryPassFinishes` | site/js/jquery-1.11.2.js:3135-3160 | every pass of a list that is spared and does not stop on false finishes, under any adds, removes and nested fires |
| `CallbackRuns.PassInOrder` | site/js/jquery-1.11.2.js:3142-3147 | the calls of a list come pass after pass, and within a pass in list order |
| `CallbackRuns.FirstComeFirstServed` | site/js/jquery-1.11.2.js:3149-3155 | the callbacks are called with the arguments of the accepted fire calls, pass by pass in the order of acceptance; only a pass for late callbacks repeats the one before it; a list at rest has delivered all it accepted |
| `CallbackRuns.OnceEach` | site/js/jquery-1.11.2.js:3133-3159 | a `once` list calls no entry twice |
| `CallbackRuns.NeverBoth` | site/js/jquery-1.11.2.js:3333-3341 | done and fail callbacks of one Deferred never both run; calls tell the state |
| `CallbackRuns.SettledServesAll` | site/js/jquery-1.11.2.js:3277-3361 | after settling, each callback of the settled kind, early or late, is called exactly once with the first settling arguments |
| `CallbackRuns.DoneServes` | site/js/jquery-1.11.2.js:3277-3361 | a callback given to `done`, before or after, is called exactly once with the arguments of `resolve` |
| `CallbackRuns.FailServes` | site/js/jquery-1.11.2.js:3277-3361 | a callback given to `fail`, before or after, is called exactly once with the arguments of `reject` |
| `CallbackRuns.OtherKindIsSilent` | site/js/jquery-1.11.2.js:3333-3341 | no callback given to `done` is ever called when the Deferred is rejected, and none given to `fail` when it is resolved |
| `CallbackRuns.SettledForGood` | site/js/jquery-1.11.2.js:3333-3341 | a settled state never changes, whatever happens later |
| `CallbackRuns.QuietAgain` | site/js/jquery-1.11.2.js:3148 | no list is left firing when a run that started outside all passes is over |
| `WhenAll.When.constructor` | site/js/jquery-1.11.2.js:3365-3373 | `remaining` starts at the number of arguments, or 0 for a single plain value; a single promise stands for itself |
| `WhenAll.When.Wire` | site/js/jquery-1.11.2.js:3396-3405 | a plain value counts as resolved when it is reached |
| `WhenAll.When.OnDone` | site/js/jquery-1.11.2.js:3376-3387 | the value goes into its slot, `remaining` stays the number unresolved, and the last one resolves the master |
| `WhenAll.When.OnFail` | site/js/jquery-1.11.2.js:3400 | the first failure rejects the master with its arguments |
| `WhenAll.When.OnProgress` | site/js/jquery-1.11.2.js:3376-3382 | progress values of all subordinates are passed on while the master is open |
| `WhenAll.When.Happen` | site/js/jquery-1.11.2.js:3396-3402 | of what happens to a promise that has been wired, the first settling decides its outcome; while the master is open each report of progress is passed on with its value in its slot, and nothing else is |
| `WhenAll.When.Run` | site/js/jquery-1.11.2.js:3364-3412 | subordinates may settle while others are being wired; the outcome of each is decided by the first settling after it is wired; with nothing to wait for the master resolves |
| `WhenAll.When.MasterFollows` | site/js/jquery-1.11.2.js:3364-3412 | the master resolves exactly when all promises have, with the i-th value in slot i, an array if there are several, and is rejected exactly when one fails |
| `Numbers.SameNumberMeansIdentical` | site/js/underscore.js:874-877 | numbers compare as identical values: the zeros apart, NaN equal to itself |
| `Comparing.LeavesByValue` | site/js/underscore.js:865-890 | strings, numbers, booleans, dates and regular expressions compare by value, boxed or not |
| `Comparing.Comparison.Find` | site/js/underscore.js:894-899 | the search on the stack, from the top |
| `Comparing.Comparison.Eq` | site/js/underscore.js:856-944 | terminates on every finite graph and restores both stacks; a yes leaves only pairs that match; a relation that fits forces a yes |
| `Comparing.Comparison.EqObjects` | site/js/underscore.js:891-943 | an object under comparison is equal only to its partner; otherwise all parts are compared |
| `Comparing.Comparison.EqItems` | site/js/underscore.js:912-921 | arrays are equal if their lengths are and all items are |
| `Comparing.Comparison.EqProperties` | site/js/underscore.js:922-939 | objects are equal if every property of the left one is in the right one and equal, and there are no others |
| `Comparing.CountKeys` | site/js/underscore.js:933-938 | the second loop counts the keys of the right object |
| `Comparing.SameKeys` | site/js/underscore.js:924-938 | equal counts and inclusion mean the same keys |
| `Equality.BisimilarMeansSameTree` | site/js/underscore.js:856-944 | values without cycles that agree to any depth are structurally equal |
| `Equality.SameTreeMeansAlike` | site/js/underscore.js:856-944 | structurally equal values are related by a bisimulation |
| `Equality.IsEqual` | site/js/underscore.js:947-949 | yes implies bisimilar; without cycles on the left yes exactly for structural equality; yes for every deep copy, cyclic ones included |
| `ObjectGraphs.PrimitivesLike` | site/js/underscore.js:866-886 | strings, numbers and booleans are like themselves and like objects around the same value; undefined and null like themselves only |
| `ObjectGraphs.LeavesLike` | site/js/underscore.js:866-891 | regular expressions are alike with equal source and equal three flags, dates with equal valid times, functions only if identical |
| `ObjectGraphs.ObjectsLike` | site/js/underscore.js:901-938 | arrays and objects are like others of their kind only, with the same constructor or two that are instances of themselves, and the same length or keys |
| `Text.SplitJoined` | src/main/java/net/sourceforge/peers/sdp/SdpParser.java:67 | tokens joined by blanks are what `split(" ")` gives back |
| `Text.ParsePrinted` | src/main/java/net/sourceforge/peers/sdp/SdpParser.java:72-73 | parsing a printed number gives the number |
| `Text.ReadPrintedLines` | src/main/java/net/sourceforge/peers/sdp/SdpParser.java:46-133 | reading ended lines gives the lines |
| `Sdp.PrintCodec` | src/main/java/net/sourceforge/peers/sdp/Codec.java:57-65 | the rtpmap line |
| `Sdp.PrintMedia` | src/main/java/net/sourceforge/peers/sdp/MediaDescription.java:77-116 | the lines of a media: first line, address, codecs, attributes |
| `Sdp.PrintSession` | src/main/java/net/sourceforge/peers/sdp/SessionDescription.java:94-128 | the whole text, with attributes in the order of the table; a blank session attribute has no line end |
| `Sdp.TextIsLines` | src/main/java/net/sourceforge/peers/sdp/SessionDescription.java:95-128 | without blank session attributes the text consists of complete lines |
| `SdpParsing.Parse` | src/main/java/net/sourceforge/peers/sdp/SdpParser.java:35-226 | the line-reading loops compute the parse of the text |
| `SdpParsing.ParseMedia` | src/main/java/net/sourceforge/peers/sdp/SdpParser.java:135-225 | one line after the other changes the last media; missing addresses are filled in |
| `SdpLines.OtherLineEnds` | src/main/java/net/sourceforge/peers/sdp/SdpParser.java:46 | a line may also end with CR or LF alone |
| `SdpLines.HeaderRead` | src/main/java/net/sourceforge/peers/sdp/SdpParser.java:46-86 | exactly which first three lines are read, and as what; and exactly when reading them throws |
| `SdpLines.SessionLineIgnored` | src/main/java/net/sourceforge/peers/sdp/SdpParser.java:92-114 | lines of other types, lines that are too short, and addresses with other than three parts change nothing at the session level |
| `SdpLines.SessionAddress` | src/main/java/net/sourceforge/peers/sdp/SdpParser.java:94-101 | an address line gives the session its address, or throws if the host is unknown |
| `SdpLines.SessionAttribute` | src/main/java/net/sourceforge/peers/sdp/SdpParser.java:102-113 | what stands before the first colon is the name of the attribute |
| `SdpLines.SessionLevel` | src/main/java/net/sourceforge/peers/sdp/SdpParser.java:92-117 | the lines before the first media line are taken one by one; an empty one throws |
| `SdpLines.NoMediaNoSession` | src/main/java/net/sourceforge/peers/sdp/SdpParser.java:115-117 | without a media line there is no session |
| `SdpLines.MediaLineRead` | src/main/java/net/sourceforge/peers/sdp/SdpParser.java:140-172 | exactly which media lines are read, refused or throw, and what is read |
| `SdpLines.MediaAttribute` | src/main/java/net/sourceforge/peers/sdp/SdpParser.java:179-210 | an attribute without value, or with one that does not start with a number and a blank |
| `SdpLines.MediaMapping` | src/main/java/net/sourceforge/peers/sdp/SdpParser.java:185-204 | a value that starts with a number and a blank names the first codec with that payload type, up to the slash, and changes nothing else |
| `SdpLines.MediaLevel` | src/main/java/net/sourceforge/peers/sdp/SdpParser.java:173-213 | addresses of a media, other lines, and lines before the first media |
| `SdpLines.MediaPartRefused` | src/main/java/net/sourceforge/peers/sdp/SdpParser.java:121-133 | one malformed line from the first media line on and there is no session |
| `SdpRoundTrip.HeaderParsed` | src/main/java/net/sourceforge/peers/sdp/SdpParser.java:44-86 | version, origin and name come back |
| `SdpRoundTrip.AttributesParsed` | src/main/java/net/sourceforge/peers/sdp/SdpParser.java:88-117 | the session attributes come back, in any order of printing |
| `SdpRoundTrip.MediaLineParsed` | src/main/java/net/sourceforge/peers/sdp/SdpParser.java:140-172 | kind, port and payload types come back; without codecs the line is refused |
| `SdpRoundTrip.RtpMapsParsed` | src/main/java/net/sourceforge/peers/sdp/SdpParser.java:185-204 | each rtpmap line gives its own codec the name, given distinct payload types; a codec without one keeps its first name |
| `SdpRoundTrip.MediaAttributesParsed` | src/main/java/net/sourceforge/peers/sdp/SdpParser.java:179-211 | the media attributes come back, blank values as empty ones |
| `SdpRoundTrip.MediaParsed` | src/main/java/net/sourceforge/peers/sdp/SdpParser.java:138-213 | the lines of one media, with rtpmap lines for some of its codecs, give the media back |
| `SdpRoundTrip.ParsePrintedSession` | src/main/java/net/sourceforge/peers/sdp/SdpParser.java:35-225 | parsing the printed form gives the session back, with missing media addresses replaced; it gives null exactly if there is no media or one without a codec |
| `SdpRoundTrip.ParsePartlyMapped` | src/main/java/net/sourceforge/peers/sdp/SdpParser.java:140-225 | with rtpmap lines for any of the codecs: a codec without one is called PCMU for payload type 0, PCMA for 8 and unsupported otherwise, and everything else comes back |
| `SdpNegotiation.GetMediaDestination` | src/main/java/net/sourceforge/peers/sdp/SDPManager.java:75-104 | the first PCMU or PCMA codec of the first audio media that has one, with that port and address, or failure exactly if there is none |
| `SdpNegotiation.StaticTypeIsPicked` | src/main/java/net/sourceforge/peers/sdp/SdpParser.java:156-170 | from an offer without rtpmap lines that starts with payload type 0 or 8, PCMU or PCMA is picked |
| `SdpNegotiation.VoiceMeans` | src/main/java/net/sourceforge/peers/sdp/SDPManager.java:84-86 | a voice codec is called PCMU or PCMA in letters of any case |
| `SdpNegotiation.CreateSessionDescription` | src/main/java/net/sourceforge/peers/sdp/SDPManager.java:105-148 | an offer has PCMU as 0, PCMA as 8 and telephone-event as 101; an answer has the supported codecs of all audio media, in the order offered |
| `SdpNegotiation.FirstVoiceKept` | src/main/java/net/sourceforge/peers/sdp/SDPManager.java:125-134 | leaving out unsupported codecs does not change which voice codec comes first |
| `SdpNegotiation.EndsAgree` | src/main/java/net/sourceforge/peers/sdp/SDPManager.java:75-148 | both ends pick the same codec; both fail exactly if the offer has no PCMU or PCMA audio codec |
| `SdpNegotiation.AnswerIsGood` | src/main/java/net/sourceforge/peers/sdp/SDPManager.java:105-148 | an answer meets the conditions of the round trip |
| `SdpNegotiation.EndsAgreeOnTheWire` | src/main/java/net/sourceforge/peers/sdp/SDPManager.java:66-148 | the same after the answer has been printed and parsed |
| `SdpNegotiation.Negotiate` | src/main/java/net/sourceforge/peers/sdp/SDPManager.java:66-148 | answer, print, parse and choose: both ends find the same codec, or neither finds one, which is when the offer has no PCMU or PCMA audio codec; media go to the address and port of the answer |
| `BackboneModel.Model.Set` | site/js/backbone.js:322-374 | for any attributes and options: the snapshot is that of the outermost call; each attribute passed with another value than it had is announced, and followed by a "change" before the outermost call returns; when no listener acts exactly these are announced, with the new value, and "change" comes exactly if there is one and no outer call; the log is right after every call, nested ones included, as long as no call unsets an attribute along with a value |
| `BackboneModel.Model.Begin` | site/js/backbone.js:329-355 | up to the first event: snapshot, new values, change log and pending flag, for any attributes and options |
| `BackboneModel.Model.Update` | site/js/backbone.js:336-351 | attributes, change log and list of real alterations after the loop over the new values, and a right log stays right unless an attribute is unset along with a value |
| `BackboneModel.AlterationsAre` | site/js/backbone.js:342-345 | the alterations of a call are the attributes passed with another value than they had |
| `BackboneModel.AlterationsInOrder` | site/js/backbone.js:342-345 | they come once each, in the order in which they were passed |
| `BackboneModel.ToldExactly` | site/js/backbone.js:354-370 | the events of a call that no listener answers: exactly the altered attributes with their new values, then "change" if there is one and no outer call |
| `BackboneModel.Model.TriggerChanges` | site/js/backbone.js:354-359 | one "change:" event for each attribute that was really altered, in order, with its value |
| `BackboneModel.Model.TriggerPending` | site/js/backbone.js:364-370 | "change" is triggered until no listener makes a change; what a listener then alters is announced |
| `BackboneModel.Model.Perform` | site/js/backbone.js:322-387 | every call of a listener keeps everything right, and what it alters is announced |
| `BackboneModel.Model.UnsetKey` | site/js/backbone.js:378-380 | `unset` keeps the log right and removes the attribute |
| `BackboneModel.Model.ClearAll` | site/js/backbone.js:383-387 | `clear` keeps the log right and removes all attributes |
| `BackboneModel.UnsetLogsChange` | site/js/backbone.js:342-351 | after a whole call on a right log, the log is right exactly if nothing was unset along with a value other than undefined |
| `BackboneModel.UnsetKeepsKeys` | site/js/backbone.js:342-351 | after a whole call, `changed` has the right keys exactly if each attribute that was unset along with a value had another value in the snapshot, and was there |
| `BackboneModel.UnsetWithValueLosesChange` | site/js/backbone.js:342-351 | `set` with the unset option and a value can lose a change |
| `BackboneModel.PutAllGets` | site/js/backbone.js:342-351 | an attribute holds the value it was set to |
| `BackboneCollection.Collection.GetModel` | site/js/backbone.js:804-807 | a member is found by its id and by itself |
| `BackboneCollection.Collection.Remove` | site/js/backbone.js:642-662 | exactly the members asked for go, the others keep their order, and the index agrees; each entry of the answer is the member that the input refers to among those left at its turn, by id or else by client id, or nothing if there is none |
| `BackboneCollection.Collection.RemoveMember` | site/js/backbone.js:650-654 | list, length and index lose one member together |
| `BackboneCollection.Collection.AddReference` | site/js/backbone.js:922-927 | the index gains the keys of a model that has none there yet |
| `BackboneCollection.Collection.Take` | site/js/backbone.js:684-716 | an input becomes a present member or a new model, and takes its place in the order at most once |
| `BackboneCollection.Collection.RemoveOthers` | site/js/backbone.js:718-724 | exactly the members that no input refers to go, and the others keep their order |
| `BackboneCollection.Collection.Set` | site/js/backbone.js:668-756 | the index agrees with the list; with distinct non-null ids and removal the list is exactly the inputs in order; without removal the old members stay; with `at` the new models stand at that place, and the others keep their order |
| `BackboneCollection.Collection.InsertAll` | site/js/backbone.js:730-733 | the new models stand in a row at their place, or at the end if that is beyond it |
| `BackboneCollection.Collection.Add` | site/js/backbone.js:637-639 | present members stay, in order, the inputs are members, and there are no others; with `at` the new ones stand at that place |
| `BackboneCollection.Collection.Reset` | site/js/backbone.js:762-772 | the list has the new models only, and the index agrees |
| `BackboneCollection.Collection.ChangeId` | site/js/backbone.js:942-945 | a change of id to an unused one keeps the index right |
| `BackboneCollection.CleanTurn` | site/js/backbone.js:692-716 | with distinct ids no input is mistaken for another |
| `BackboneCollection.KeptAndAdded` | site/js/backbone.js:718-741 | the models in order are the ones kept and the ones added |
| `BackboneCollection.MinusOne` | site/js/backbone.js:650-654 | splicing out one member at a time removes exactly these members |
| `ALaw.LevelOk` | src/main/java/net/sourceforge/peers/media/PcmaEncoder.java:84-93 | the seven bits name the interval that the clipped magnitude lies in |
| `ALaw.DecompressMeans` | src/main/java/net/sourceforge/peers/media/PcmaDecoder.java:24-57 | the decoder table holds, for every code, the signed middle of its interval |
| `ALaw.Error` | src/main/java/net/sourceforge/peers/media/PcmaEncoder.java:74-96 | the error of decode after encode is at most max(8, m/32) for a sample of magnitude m |
| `ALaw.Monotone` | src/main/java/net/sourceforge/peers/media/PcmaEncoder.java:74-96 | decode after encode keeps the order of samples |
| `ALaw.CompressDecompress` | src/main/java/net/sourceforge/peers/media/PcmaEncoder.java:74-96 | encode after decode returns every code |
| `ALaw.LeastSampleLost` | src/main/java/net/sourceforge/peers/media/PcmaEncoder.java:80-96 | the sample -32768 comes back as -8 |
| `MuLaw.LevelOk` | src/main/java/net/sourceforge/peers/media/PcmuEncoder.java:78-90 | the seven bits name the interval that the biased magnitude lies in |
| `MuLaw.NegativeCode` | src/main/java/net/sourceforge/peers/media/PcmuDecoder.java:29-62 | the decoder table holds the middle of the interval for negative codes |
| `MuLaw.PositiveCode` | src/main/java/net/sourceforge/peers/media/PcmuDecoder.java:29-62 | the decoder table holds the middle of the interval for positive codes |
| `MuLaw.Error` | src/main/java/net/sourceforge/peers/media/PcmuEncoder.java:64-103 | the error of decode after encode is at most (m + 132)/32 for a sample of magnitude m |
| `MuLaw.Monotone` | src/main/java/net/sourceforge/peers/media/PcmuEncoder.java:64-103 | decode after encode keeps the order of samples |
| `MuLaw.CompressDecompress` | src/main/java/net/sourceforge/peers/media/PcmuEncoder.java:64-103 | encode after decode returns every code but 0x7F, which becomes 0xFF |
| `CompandedBuffers.LinearToALawSample` | src/main/java/net/sourceforge/peers/media/PcmaEncoder.java:74-96 | the steps of the code compute the A-law code |
| `CompandedBuffers.LinearToMuLaw` | src/main/java/net/sourceforge/peers/media/PcmuEncoder.java:64-103 | the steps of the code compute the mu-law code |
| `CompandedBuffers.EncodeALaw` | src/main/java/net/sourceforge/peers/media/PcmaEncoder.java:57-66 | two bytes of the buffer give one code |
| `CompandedBuffers.EncodeMuLaw` | src/main/java/net/sourceforge/peers/media/PcmuEncoder.java:118-127 | two bytes of the buffer give one code |
| `CompandedBuffers.DecodeALaw` | src/main/java/net/sourceforge/peers/media/PcmaDecoder.java:60-69 | each code gives two bytes |
| `CompandedBuffers.DecodeMuLaw` | src/main/java/net/sourceforge/peers/media/PcmuDecoder.java:65-74 | each code gives two bytes |
| `CompandedBuffers.LowerHalfFirst` | src/main/java/net/sourceforge/peers/media/PcmaEncoder.java:57-66 | a sample is read with the lower half of its bits first |
| `CompandedBuffers.LowerHalfFirstAgain` | src/main/java/net/sourceforge/peers/media/PcmaDecoder.java:60-69 | and written so |
| `CompandedBuffers.ALawBuffer` | src/main/java/net/sourceforge/peers/media/PcmaDecoder.java:60-69 | whole buffers: length kept, error bound and order for all samples |
| `CompandedBuffers.ALawCodes` | src/main/java/net/sourceforge/peers/media/PcmaEncoder.java:57-66 | every buffer of A-law codes comes back unchanged |
| `CompandedBuffers.MuLawBuffer` | src/main/java/net/sourceforge/peers/media/PcmuDecoder.java:65-74 | whole buffers: length kept, error bound and order for all samples |
| `CompandedBuffers.MuLawCodes` | src/main/java/net/sourceforge/peers/media/PcmuEncoder.java:118-127 | every buffer of mu-law codes comes back, 0x7F as 0xFF |
| `Rtp.Decode` | src/main/java/net/sourceforge/peers/rtp/RtpParser.java:33-72 | null for less than 12 bytes, an exception for less than the header announces, otherwise the fields in the bytes |
| `Rtp.CsrcMisread` | src/main/java/net/sourceforge/peers/rtp/RtpParser.java:54-62 | contributing sources that begin with 1, 0, 0 are all read as 0 |
| `Rtp.Encode` | src/main/java/net/sourceforge/peers/rtp/RtpParser.java:74-119 | the bytes of the header, the contributing sources and the payload |
| `Rtp.WordThere` | src/main/java/net/sourceforge/peers/rtp/RtpParser.java:49-53 | a word read through an overflowing int is written back byte for byte |
| `Rtp.WordBack` | src/main/java/net/sourceforge/peers/rtp/RtpParser.java:90-97 | the four bytes written hold the number modulo 2^32 |
| `Rtp.HeaderAgain` | src/main/java/net/sourceforge/peers/rtp/RtpParser.java:33-105 | the fixed header comes back byte for byte |
| `Rtp.EncodedDecoded` | src/main/java/net/sourceforge/peers/rtp/RtpParser.java:33-119 | encode after decode gives the packet back if it has no contributing sources; otherwise length, fixed header and payload are kept |
| `RtpSending.FirstInFirstOut` | src/main/java/net/sourceforge/peers/media/RtpSender.java:132-137 | pushed packets leave in the order in which they were pushed, none lost or doubled |
| `RtpSending.HeaderOnWire` | src/main/java/net/sourceforge/peers/rtp/RtpParser.java:77-101 | the first twelve bytes as section 5.1 of RFC 3550 lays them out |
| `RtpSending.AudioMarker` | src/main/java/net/sourceforge/peers/media/RtpSender.java:132-144 | an audio packet has the marker bit exactly if the pushed packet before it had it with the type of the codec |
| `RtpSending.AudioCanBeMarked` | src/main/java/net/sourceforge/peers/media/RtpSender.java:132-144 | a marked packet of the type of the codec marks the audio after it |
| `RtpSending.RtpSender.PushPackets` | src/main/java/net/sourceforge/peers/media/RtpSender.java:196-198 | the packets wait behind those already there |
| `RtpSending.RtpSender.Fill` | src/main/java/net/sourceforge/peers/media/RtpSender.java:132-144 | the head of the queue goes into the packet record, or else the audio frame |
| `RtpSending.RtpSender.Run` | src/main/java/net/sourceforge/peers/media/RtpSender.java:82-173 | the k-th packet has version 2 and no options, sequence number (start + k) mod 2^16, timestamp 160(k+1) mod 2^32 and the source given, in network order, and carries the head of the queue with its marker and type, or else the k-th frame with the type of the codec |

## Left out

Selectors
- Reading selectors with regular expressions, native `querySelectorAll`, `matchesSelector` and `compareDocumentPosition`, and the `sourceIndex` of old browsers: browser behaviour.
- Positional pseudo-classes and `setMatcher`, and nested selector runs, which draw a random `dirruns`: state outside a single run.
- What a simple selector tests: an arbitrary predicate on nodes.
- An expando exists on every node from the start instead of being made on first use; the search context is an argument of the matchers instead of the variable `checkContext`.
- `:first-child`, `:last-child` and `:only-child`, the simple branch of the child filter, lines 1723-1736 of `site/js/jquery-1.11.2.js`.
- The native sort: an insertion sort with the same comparator stands for it.
- DocumentOrder.Sorter.UniqueSort: the nodes are those of one document; with detached trees the outcome depends on the native sort, since the comparator is no order there.

Module loader
- Fetching scripts, timeouts, the global define queue, plugins, shims, `undef`, error listeners and `onError`: a module that has been fetched calls `Init` at any time.
- A factory that throws outside the guarded call: every throw is caught and kept as the error of the module.
- Modules are values in a map of the loader instead of heap objects, so that no aliasing is modelled.
- The part of `normalize` around `trimDots`: map configuration and base names.

Callbacks, Deferred, when
- CallbackRuns.EveryPassFinishes: a list counts as spared only if the script never locks it, though locking a list that remembers its arguments breaks off no pass.
- `this` of callbacks, nested argument lists of `add`, `has` and other queries, `then`, `always`, `pipe` and promise objects.
- Callbacks that throw, and callbacks that never return: a run is finite.
- Lists are values in a map of the world, not heap objects.
- CallbackOperations.CallbackWorld.PushAll: `firingLength` follows each callback that is added, while the code sets it once after the loop; no callback runs in between.
- WhenAll.When.Run: each subordinate settles at most once and none before it is wired, as the theorems on Deferreds say of them; contexts are not modelled.

Deep equality
- Host objects, own properties that are not enumerable or are inherited by prototype tricks, wrappers of null, and the order of properties.
- Equality.IsEqual: cyclic graphs that are bisimilar but not copies of each other may compare either way, depending on where the two stacks meet; the yes answer is sound for them too.

SDP
- The bytes of the text and their character set, host name lookup (a table), random session ids and the configuration: parameters.
- SdpNegotiation.Negotiate: payload types are 32-bit integers, and those of the supported codecs offered are distinct, as the round trip needs.
- Case folding beyond ASCII letters and digits beyond ASCII ones.
- Descriptions are values; the setters of the Java objects have no counterpart.
- SdpRoundTrip.ParsePrintedSession: blank session attributes, attribute names with a colon, media values that begin with a number and a blank, repeated payload types, an empty session name and an empty media attribute name are outside the good sessions, for the code does not read them back.

Backbone
- `Collection.set` with `add: false`, which reads the id of a model that is not there.
- Comparators and sorting, merging attributes into present models, and the events of the collection.
- Listeners that change the collection while it is being changed, silent or nested changes of an id, `save` with `wait`: the index is not kept up there.
- Validation (a flag), `isEqual` on attribute values (identity), exceptions in listeners.
- BackboneCollection.Collection.Set: a model without id that is listed twice while others are removed is added twice by the code, and is outside the precondition.
- BackboneCollection.Collection.ChangeId: the new id is unused, and is not the client id of a member.

G.711 and RTP
- ALaw.Error: the sample -32768 is outside, for the code negates it wrongly.
- MuLaw.Error: samples of magnitude above 32635 are outside, for the code does not clip them.
- Rtp.EncodedDecoded: the contributing sources themselves are not kept, for decoding reads them with a wrong stride; `CsrcAt` has what the code reads.
- RtpSending.RtpSender.Run: input and output never fail and the input does not end, packets are pushed between turns and not during one; sleeping, the latch and the debug file are not modelled.
