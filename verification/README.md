# Verified models of the hard parts of CloudMQ

CloudMQ is a message queue with a web console. This project models the parts of its repository
whose behaviour is hardest to see from the code and proves what they promise. Nothing is executed:
every statement is checked by Dafny's verifier (`dafny verify dfyconfig.toml`).

The console ships jQuery 1.12.4, whose selector engine (Sizzle), callback lists and deferreds are
modelled first. The rest is the console's Base64 codec and four pieces of the Java code: crash-safe
configuration files, two concurrency primitives, a table of type information, and array search.

## How it is modelled

**Selectors.** `Dom` is a finite ordered tree; a node is its path from the root. `Matchers` turns the
closures that Sizzle builds into a datatype with a plain meaning, `Accepts`, in which every walk is
made in full. `Selectors` states what a selector means in the words of section 8 of Selectors
Level 3 (nodes can be assigned to the compound selectors so that filters, combinators and context
are satisfied) and proves that the compiled matcher means just that. `Engine` is the code with its
caches: a walk's result array is one heap cell that many node slots share, written while nested
combinators read and overwrite slots. The invariant `Sound` says what each entry of the current run
is worth; `open` holds the cells of walks that are still going on. With it, matching with the cache
agrees with `Accepts` for every sequence of queries. A cell belongs to one combinator, and a
combinator's number is above those of the combinators inside it, so a nested call never reads a cell
that is still open. `NthChild` has the resumable `:nth-child` search, whose filter runs among the
others and writes a second cache in the same run; every step keeps both caches sound. `GroupMatcher`
says what a group of matchers picks from a seed, and `DocumentOrder` has the comparator and the
removal of duplicates. `SizzleUse` is the engine as a program uses it: selectors as they are written,
and what a search finds, node by node.

**Callbacks, deferreds, `when`.** Callbacks may call back into the list at will, so a run is any
sequence of operations in which `Return` ends the callback that is running. `Callbacks` is the
machine with a history of its passes; `CallbackLaws` says what an operation does to the list and to
the passes without the machine's indices, and `CallbackMemory` what the options, `lock` and `disable`
mean over whole runs; `CallbackList` is the object with the loops, proved to make the same steps, and
`CallbackUse` has lists as programs make them. `Deferreds` wires two lists together with the three internal callbacks;
`DeferredObject` is the object. `DeferredAccount` sums up what a sequence of calls has made of a
deferred (what settled it, who listens, whose turn it is) and is proved true of every run.
`When` puts `jQuery.when` among the deferreds of a program: each is any run of `Deferreds`, the master
is one more, and a handler does its work when it has its turn in its deferred's list. Several arguments
may be the same deferred. `WhenCall` is the call on deferred objects, with the lemmas on single events
in `WhenSteps`, and `WhenUse` is how a program uses it: deferreds with any past, any number of
arguments, and subordinates that are settled after the call.

**Base64.** `Bits` and `Base64` say what the encoder and decoder compute, `Base64Laws` proves the round
trip, `Utf8` defines UTF-8 of a string on its own (section 3 of RFC 3629; a pair of surrogates is
one character, and a lone one has no form) and proves when the encoder is Base64 (section 4 of
RFC 4648) of it, `Utf8Decoding` what the decoder makes of text that others have encoded, `Base64Texts`
known texts, and `Base64Codec` is the code with its bit arrays and loops. A string is any sequence of
16-bit units.

**Configuration files.** `ConfigStore` has the three files, a crash at any point of `string2File`, and
`load`. A file is read back only when it has one byte per character, as in the code.

**Threads.** `ServiceThread` interleaves one worker with any number of threads that call `wakeup` and
`stop`, one access at a time, with timeouts, interrupts and spurious wakeups. `IncreaseOnly` does the
same for the compare-and-set loop.

**Types and arrays.** `TypeInfo` has the recursive construction of superclass and interface lists with
its table; `ArraySearch` the two sequence searches and the reversal in place. `Wrappers`, `Sequences`
and `Arithmetic` are shared helpers.

## Where the code and its documentation differ

- `ArrayUtil.indexOf` is documented to return -1 when the start lies beyond the end. By
  `ArraySearch.StartBeyondEnd` it does so if and only if the sequence that is sought is not empty; an
  empty one is found at the end, as in `ArraySearch.EmptyBeyondEnd`.
- `MixAll.string2File` is documented as the safe way to write a file. `ConfigStore.CrashSafety` gives
  the exact condition: the last document survives if and only if it is not empty, has one byte for
  each character and can be decoded. `ConfigStore.WideDocumentIsLost` is a concrete run in which a
  document with a wide character is written without any crash and an older one is loaded. A backup
  that a crash has torn may be loaded, too: by `ConfigStore.TornBackup` this happens if and only if
  part of the document decodes and the whole does not; else, by `ConfigStore.WholeIsLoaded`, only
  documents are loaded that were there in full.
- The encoder works unit by unit, so it gives a surrogate the three bytes of its own value, for which
  RFC 3629 has no form. By `Utf8.EncoderFollowsTheStandards` its text is Base64 of UTF-8 if and only
  if no unit lies from 0xD800 to 0xDFFF; `Utf8.PairIsNotUtf8` is the pair D83D DE00. The round trip
  holds for all strings nevertheless.
- What another program encodes by the standards is decoded to characters, not to 16-bit units: by
  `Utf8Decoding.DecodesStandardText` a pair of surrogates comes out as one number above 0xFFFF.
- `lock` is commented to disable `fire` and to abort pending executions. It drops no queued call
  (`CallbackLaws.DroppedByDisable`), and it does not last: by `CallbackMemory.LockedRefuses` a locked list
  is unlocked if and only if `add` replays the memory of a list without `once`, as in
  `CallbackMemory.LockIsUndone`.

## Model

| member | source | states |
|---|---|---|
| Selectors.BeyondMeans | cloudmq-web/src/main/webapp/static/js/jquery/jquery-1.12.4.js:2195-2203 | a walk over all ancestors or preceding siblings accepts iff some eligible one is accepted |
| Selectors.NearestMeans | cloudmq-web/src/main/webapp/static/js/jquery/jquery-1.12.4.js:2179-2187 | a walk to the closest one accepts iff the first eligible node is accepted |
| Selectors.ClosestIsRelated | cloudmq-web/src/main/webapp/static/js/jquery/jquery-1.12.4.js:2179-2187 | in a document, the closest eligible node is the parent, or the adjacent element sibling, that the standard speaks of |
| Selectors.WalkMeans | cloudmq-web/src/main/webapp/static/js/jquery/jquery-1.12.4.js:2174-2230 | for each of the four combinators, the walk accepts iff some node related as the standard says is eligible and accepted |
| Selectors.StartMeans | cloudmq-web/src/main/webapp/static/js/jquery/jquery-1.12.4.js:2376-2391 | the foundational matcher accepts exactly the nodes that lie where the leading combinator and the context require |
| Selectors.MatchersMean | cloudmq-web/src/main/webapp/static/js/jquery/jquery-1.12.4.js:2393-2424 | after every prefix of the tokens, the matchers built so far accept exactly the nodes in which an assignment to the compounds read so far can end |
| Selectors.CompiledSelects | cloudmq-web/src/main/webapp/static/js/jquery/jquery-1.12.4.js:2369-2425 | compiler correctness: the matcher of a token list accepts a node iff the selector selects it, both directions |
| Selectors.ParseThenWrite | cloudmq-web/src/main/webapp/static/js/jquery/jquery-1.12.4.js:2369-2425 | a selector is read from its tokens without loss: written again, it gives the same tokens, the leading combinator included |
| Selectors.WriteThenParse | cloudmq-web/src/main/webapp/static/js/jquery/jquery-1.12.4.js:2369-2425 | and every selector, told by its leading combinator, compounds and combinators, is read from the tokens that write it |
| Matchers.RegisteredIsNumbered | cloudmq-web/src/main/webapp/static/js/jquery/jquery-1.12.4.js:2174-2177 | what compiling records is enough for the cache in any document: combinators are told apart by number, and those inside one have smaller numbers |
| Matchers.RegisteredLater | cloudmq-web/src/main/webapp/static/js/jquery/jquery-1.12.4.js:2177 | compiling more selectors later leaves the numbering of earlier matchers valid |
| Engine.Sizzle.Match | cloudmq-web/src/main/webapp/static/js/jquery/jquery-1.12.4.js:2174-2244 | matching with the caches gives the truth value of the uncached matcher and keeps both the combinator cache and the index of `:nth-child` sound, for every nesting and from every sound state |
| Engine.Sizzle.WalkPlainly | cloudmq-web/src/main/webapp/static/js/jquery/jquery-1.12.4.js:2179-2202 | the walks without a cache compute the plain meaning although the nested matcher writes the cache |
| Engine.Sizzle.WalkCached | cloudmq-web/src/main/webapp/static/js/jquery/jquery-1.12.4.js:2190-2229 | the caching walk computes the same truth value as the plain one and leaves a sound cache |
| Engine.Sizzle.Visit | cloudmq-web/src/main/webapp/static/js/jquery/jquery-1.12.4.js:2205-2226 | one step of the caching walk: an answer taken over from another walk is right for every slot that shares the cell |
| Engine.Sizzle.AddCombinator | cloudmq-web/src/main/webapp/static/js/jquery/jquery-1.12.4.js:2174-2177 | each combinator gets a fresh number above all before it |
| Engine.Sizzle.Foundation | cloudmq-web/src/main/webapp/static/js/jquery/jquery-1.12.4.js:2372-2391 | the two context combinators and the first matcher, as specified |
| Engine.Sizzle.MatcherFromTokens | cloudmq-web/src/main/webapp/static/js/jquery/jquery-1.12.4.js:2369-2425 | the compiler's loop builds the specified matcher and keeps the numbering that the cache relies on |
| GroupMatcher.NothingTaken | cloudmq-web/src/main/webapp/static/js/jquery/jquery-1.12.4.js:2486-2493 | when there are no set matchers or nothing is left over, skipping them does not change the result |
| GroupMatcher.TakenWasLeft | cloudmq-web/src/main/webapp/static/js/jquery/jquery-1.12.4.js:2494-2497 | what set matchers take, one after the other, was left over by the element matchers |
| GroupMatcher.TakenInTurn | cloudmq-web/src/main/webapp/static/js/jquery/jquery-1.12.4.js:2494-2497 | a place is taken iff it has an entry and some set matcher accepts it on the list that the ones before have left |
| GroupMatcher.OneSetMatcher | cloudmq-web/src/main/webapp/static/js/jquery/jquery-1.12.4.js:2486-2514 | with one set matcher the group picks what the element matchers accept, and of the rest the places that the set matcher accepts |
| GroupMatcher.PickMeans | cloudmq-web/src/main/webapp/static/js/jquery/jquery-1.12.4.js:2500-2514 | what is picked are the elements at exactly these places, in increasing order |
| Engine.Sizzle.MatchElements | cloudmq-web/src/main/webapp/static/js/jquery/jquery-1.12.4.js:2447-2484 | the loop over the seed picks exactly the elements that some matcher accepts, keeps the rest as unmatched entries and counts the matches, while every element reads and writes both caches |
| Engine.Sizzle.RunSetMatchers | cloudmq-web/src/main/webapp/static/js/jquery/jquery-1.12.4.js:2494-2497 | an entry moves to the same index of `setMatched` iff some set matcher takes it when its turn comes |
| Engine.Sizzle.PopBack | cloudmq-web/src/main/webapp/static/js/jquery/jquery-1.12.4.js:2500-2507 | the backward loop pops exactly the elements pushed before, each into its own place, and restores the old results |
| Engine.Sizzle.Condense | cloudmq-web/src/main/webapp/static/js/jquery/jquery-1.12.4.js:2255-2274 | dropping the placeholders leaves the kept elements in seed order |
| Engine.Sizzle.Integrate | cloudmq-web/src/main/webapp/static/js/jquery/jquery-1.12.4.js:2493-2514 | set matching and reintegration leave the old results followed by the matched elements of both kinds, in seed order |
| Engine.Sizzle.SuperMatcher | cloudmq-web/src/main/webapp/static/js/jquery/jquery-1.12.4.js:2430-2531 | on a seed, `results` becomes its old contents followed by exactly the elements that an element or a set matcher accepts, in seed order |
| Engine.Sizzle.Compile | cloudmq-web/src/main/webapp/static/js/jquery/jquery-1.12.4.js:2544-2560 | every selector of a group is compiled, the last one first, to a matcher for it |
| Engine.GroupSelects | cloudmq-web/src/main/webapp/static/js/jquery/jquery-1.12.4.js:2457-2462 | some matcher of a compiled group accepts a node iff some selector of the group selects it |
| Engine.Sizzle.Select | cloudmq-web/src/main/webapp/static/js/jquery/jquery-1.12.4.js:2427-2566 | compiling a group and matching a seed, with caches, appends exactly the elements that the standard says are selected |
| SizzleUse.FindAll | cloudmq-web/src/main/webapp/static/js/jquery/jquery-1.12.4.js:2427-2566 | a group of written selectors finds exactly the elements to whose compounds nodes can be assigned as the standard says |
| SizzleUse.OneCompound | cloudmq-web/src/main/webapp/static/js/jquery/jquery-1.12.4.js:2369-2425 | a selector of one compound stands for the nodes in their place that satisfy its filters |
| SizzleUse.TwoCompounds | cloudmq-web/src/main/webapp/static/js/jquery/jquery-1.12.4.js:2369-2425 | one of two compounds stands for the nodes that satisfy the second and are related to an element that satisfies the first |
| SizzleUse.PlacedAt | cloudmq-web/src/main/webapp/static/js/jquery/jquery-1.12.4.js:2372-2391 | where a node may lie, for each leading combinator and one context node |
| SizzleUse.PlacedWithout | cloudmq-web/src/main/webapp/static/js/jquery/jquery-1.12.4.js:2382-2391 | without a leading combinator: anywhere in XML or when the context is not the outermost one, else below a node of the context |
| SizzleUse.FindChildren | cloudmq-web/src/main/webapp/static/js/jquery/jquery-1.12.4.js:2372-2391 | `> *` finds the child of the context and not its descendants |
| SizzleUse.FindAfter | cloudmq-web/src/main/webapp/static/js/jquery/jquery-1.12.4.js:2179-2203 | `+` finds the next element past a text, and `~` all later ones |
| SizzleUse.FindFirst | cloudmq-web/src/main/webapp/static/js/jquery/jquery-1.12.4.js:2486-2514 | a set matcher that accepts the first place finds the first element |
| NthChild.PositionIsElements | cloudmq-web/src/main/webapp/static/js/jquery/jquery-1.12.4.js:1780 | the running count at an element is 1 + the number of element siblings before it |
| NthChild.OnCycleMeans | cloudmq-web/src/main/webapp/static/js/jquery/jquery-1.12.4.js:1835-1837 | the final test holds iff some n >= 0 gives a*n + b equal to the position, for a and b of any sign and for a = 0 (section 6.6.5.2 of Selectors Level 3) |
| NthChild.IsNthMeans | cloudmq-web/src/main/webapp/static/js/jquery/jquery-1.12.4.js:1718-1837 | an element matches `:nth-child(an+b)` iff it has a parent and its position is a*n + b for some n >= 0, the shortcut for `n` included |
| NthChild.ChildIndex.Seek | cloudmq-web/src/main/webapp/static/js/jquery/jquery-1.12.4.js:1753-1784 | from any sound index the search ends in at most two passes, finds the position of an element and 0 for any other node, and leaves a sound index |
| NthChild.ChildIndex.SeekPlainly | cloudmq-web/src/main/webapp/static/js/jquery/jquery-1.12.4.js:1729-1830 | the search in XML documents, from the first child on, finds the same position |
| NthChild.ChildIndex.Matches | cloudmq-web/src/main/webapp/static/js/jquery/jquery-1.12.4.js:1718-1839 | on any node and in either kind of document, the filter answers what `IsNth` says and leaves a sound index |
| NthChild.ChildIndex.NewRun | cloudmq-web/src/main/webapp/static/js/jquery/jquery-1.12.4.js:1769-1770 | after a new run number every old entry is ignored, whatever became of the document |
| DocumentOrder.PreorderLists | cloudmq-web/src/main/webapp/static/js/jquery/jquery-1.12.4.js:1381-1433 | the reference order lists exactly the nodes of the tree |
| DocumentOrder.PreorderSorted | cloudmq-web/src/main/webapp/static/js/jquery/jquery-1.12.4.js:1420-1423 | preorder agrees with comparing paths at the first difference |
| DocumentOrder.BeforeIsPlace | cloudmq-web/src/main/webapp/static/js/jquery/jquery-1.12.4.js:1420-1433 | a node comes before another iff its place in preorder is smaller, so the order is strict and total |
| DocumentOrder.PlaceMeans | cloudmq-web/src/main/webapp/static/js/jquery/jquery-1.12.4.js:1420-1433 | a node comes earlier iff it is an ancestor of the other or the first difference of the paths leads to an earlier child |
| DocumentOrder.SiblingCheck | cloudmq-web/src/main/webapp/static/js/jquery/jquery-1.12.4.js:976-997 | without `sourceIndex` the walk over next siblings decides which sibling is first, also when one is undefined |
| DocumentOrder.Ancestry | cloudmq-web/src/main/webapp/static/js/jquery/jquery-1.12.4.js:1410-1418 | the walk to the root lists all ancestors from the top |
| DocumentOrder.CompareAncestry | cloudmq-web/src/main/webapp/static/js/jquery/jquery-1.12.4.js:1410-1427 | walking down both lists to the first difference compares the nodes |
| DocumentOrder.SortOrder | cloudmq-web/src/main/webapp/static/js/jquery/jquery-1.12.4.js:1381-1433 | the comparator is 0 for one and the same node and negative iff the first comes earlier in preorder |
| DocumentOrder.FindRepeats | cloudmq-web/src/main/webapp/static/js/jquery/jquery-1.12.4.js:1521-1525 | the indices collected are exactly those that repeat the node before, going up |
| DocumentOrder.SpliceRepeat | cloudmq-web/src/main/webapp/static/js/jquery/jquery-1.12.4.js:1526-1528 | removing the last collected index leaves all others valid, the order intact and the same set of nodes |
| DocumentOrder.RemoveAt | cloudmq-web/src/main/webapp/static/js/jquery/jquery-1.12.4.js:1526-1528 | splicing the indices going down removes every repetition and no node |
| DocumentOrder.UniqueSort | cloudmq-web/src/main/webapp/static/js/jquery/jquery-1.12.4.js:1509-1536 | given a sorted permutation, the array ends strictly increasing with the same set of nodes |
| Callbacks.CallNextKeeps | cloudmq-web/src/main/webapp/static/js/jquery/jquery-1.12.4.js:3229-3239 | running the next callback keeps the account of the pass: nothing is skipped or repeated |
| Callbacks.ProceedKeeps | cloudmq-web/src/main/webapp/static/js/jquery/jquery-1.12.4.js:3227-3260 | going on to the next callback, the next queued call or the end keeps the invariant |
| Callbacks.AddKeeps | cloudmq-web/src/main/webapp/static/js/jquery/jquery-1.12.4.js:3267-3295 | adding, with or without a pass over the new entries, keeps the invariant; entries added during a pass wait for their turn in it |
| Callbacks.RemoveKeeps | cloudmq-web/src/main/webapp/static/js/jquery/jquery-1.12.4.js:3298-3311 | removal during a pass takes away exactly the turns still to come, thanks to the adjustment of the firing index |
| Callbacks.FireNowKeeps | cloudmq-web/src/main/webapp/static/js/jquery/jquery-1.12.4.js:3356-3366 | a call made from inside a callback is queued, others start a pass; both keep the invariant |
| Callbacks.DisableKeeps | cloudmq-web/src/main/webapp/static/js/jquery/jquery-1.12.4.js:3332-3336 | disabling at any time drops only queued calls and pending turns |
| Callbacks.StepKeeps | cloudmq-web/src/main/webapp/static/js/jquery/jquery-1.12.4.js:3219-3366 | every operation at every moment keeps the invariant |
| Callbacks.InvMeansOnePassEach | cloudmq-web/src/main/webapp/static/js/jquery/jquery-1.12.4.js:3356-3366 | passes, calls dropped by `disable` and queued calls add up to the accepted ones, in call order, and nothing is queued when nothing runs |
| Callbacks.EveryRun | cloudmq-web/src/main/webapp/static/js/jquery/jquery-1.12.4.js:3219-3366 | over every run with arbitrary re-entrant calls: each accepted call has its one pass in order, is queued or was dropped by `disable`, and each pass runs every entry it meets exactly once in list order, less those removed before their turn |
| CallbackLaws.ListChanges | cloudmq-web/src/main/webapp/static/js/jquery/jquery-1.12.4.js:3242-3311 | in any reachable state, after any operation, the list holds what `add`, `remove`, `disable` and `lock` are meant to leave, except that a locked list is emptied when `fire` ends |
| CallbackLaws.PassesMeetTheList | cloudmq-web/src/main/webapp/static/js/jquery/jquery-1.12.4.js:3227-3240 | in any reachable state, every pass begun by `fireWith` or by a returning callback meets the whole list |
| CallbackLaws.ReplayMeetsTheAdded | cloudmq-web/src/main/webapp/static/js/jquery/jquery-1.12.4.js:3270-3292 | `add` on a list with a memory begins one pass, which meets just the callbacks that were added |
| CallbackLaws.AcceptedUnlessLocked | cloudmq-web/src/main/webapp/static/js/jquery/jquery-1.12.4.js:3356-3366 | a call is accepted, also from inside a callback, just when the list is not locked |
| CallbackLaws.DroppedByDisable | cloudmq-web/src/main/webapp/static/js/jquery/jquery-1.12.4.js:3332-3350 | accepted calls are dropped by `disable` alone, which drops just those that wait; `lock` drops none |
| CallbackLaws.EveryCallHasItsPass | cloudmq-web/src/main/webapp/static/js/jquery/jquery-1.12.4.js:3219-3366 | in a run without `disable`, once no callback is running every accepted call has had its pass, on spent `once` lists as well |
| CallbackLaws.RunningPassChanges | cloudmq-web/src/main/webapp/static/js/jquery/jquery-1.12.4.js:3267-3336 | during a pass `remove` takes out just the pending turns of its callback, `disable` all pending turns, `add` appends just what it adds, and nothing else changes what the pass meets or loses |
| CallbackMemory.MemoryIsLastCall | cloudmq-web/src/main/webapp/static/js/jquery/jquery-1.12.4.js:3219-3261 | over every run, when no callback is running: the memory is the arguments of the last accepted call if the list has the option `memory` and is still there, and else empty |
| CallbackMemory.AddReplaysLastCall | cloudmq-web/src/main/webapp/static/js/jquery/jquery-1.12.4.js:3267-3295 | so `add` to a list at rest begins one pass with those arguments, or none |
| CallbackMemory.ListStays | cloudmq-web/src/main/webapp/static/js/jquery/jquery-1.12.4.js:3250-3260 | a list that was never disabled or locked is locked iff it is `once` and was called, and gone iff it also has no memory and its call is over |
| CallbackMemory.OnceAcceptsOne | cloudmq-web/src/main/webapp/static/js/jquery/jquery-1.12.4.js:3219-3223 | a `once` list that has accepted a call ignores every later one, whatever is done in between |
| CallbackMemory.FiredIsAccepted | cloudmq-web/src/main/webapp/static/js/jquery/jquery-1.12.4.js:3226 | `fired` tells iff a call has been accepted |
| CallbackMemory.LockedRefuses | cloudmq-web/src/main/webapp/static/js/jquery/jquery-1.12.4.js:3344-3366 | a locked list ignores calls, and one step unlocks it iff it is an `add` that replays the memory of a list without `once` |
| CallbackMemory.LockHolds | cloudmq-web/src/main/webapp/static/js/jquery/jquery-1.12.4.js:3344-3366 | over every run a locked list stays locked as long as no such `add` is made |
| CallbackMemory.LockIsUndone | cloudmq-web/src/main/webapp/static/js/jquery/jquery-1.12.4.js:3223 | a concrete list that is fired, locked and added to, and then accepts a call |
| CallbackMemory.GoneForGood | cloudmq-web/src/main/webapp/static/js/jquery/jquery-1.12.4.js:3332-3336 | on a list that is gone nothing runs any more, no call is accepted and it does not come back |
| CallbackList.SpliceKeepsRest | cloudmq-web/src/main/webapp/static/js/jquery/jquery-1.12.4.js:3301-3302 | splicing one occurrence does not change what remains after all are removed |
| CallbackList.InArray | cloudmq-web/src/main/webapp/static/js/jquery/jquery-1.12.4.js:3301 | the search finds the first occurrence from an index on, or none |
| CallbackList.CallbackList.Continue | cloudmq-web/src/main/webapp/static/js/jquery/jquery-1.12.4.js:3227-3240 | the two loops of `fire`, resumed after a callback, make the machine's step |
| CallbackList.CallbackList.FirePending | cloudmq-web/src/main/webapp/static/js/jquery/jquery-1.12.4.js:3219-3261 | `fire` makes the machine's step |
| CallbackList.CallbackList.Add | cloudmq-web/src/main/webapp/static/js/jquery/jquery-1.12.4.js:3267-3295 | `add` with its loop makes the machine's step |
| CallbackList.CallbackList.SpliceAll | cloudmq-web/src/main/webapp/static/js/jquery/jquery-1.12.4.js:3301-3308 | the removal loop leaves the other entries on each side of the firing index and moves the index with them |
| CallbackList.CallbackList.Remove | cloudmq-web/src/main/webapp/static/js/jquery/jquery-1.12.4.js:3298-3311 | `remove` makes the machine's step |
| CallbackList.CallbackList.FireWith | cloudmq-web/src/main/webapp/static/js/jquery/jquery-1.12.4.js:3356-3366 | `fireWith` makes the machine's step |
| CallbackList.CallbackList.DisableAll | cloudmq-web/src/main/webapp/static/js/jquery/jquery-1.12.4.js:3332-3336 | `disable` makes the machine's step |
| CallbackList.CallbackList.LockAll | cloudmq-web/src/main/webapp/static/js/jquery/jquery-1.12.4.js:3344-3350 | `lock` makes the machine's step, disabling when there is no memory |
| CallbackUse.AddAfterCall | cloudmq-web/src/main/webapp/static/js/jquery/jquery-1.12.4.js:3270-3292 | on a `memory` list that has been called, a callback that is added runs at once with the arguments of the call |
| CallbackUse.AddAfterOnce | cloudmq-web/src/main/webapp/static/js/jquery/jquery-1.12.4.js:3250-3260 | on a `once` list that has been called it does not, and the list is gone |
| CallbackUse.AddAfterPlain | cloudmq-web/src/main/webapp/static/js/jquery/jquery-1.12.4.js:3246-3248 | on a list without options it is added, does not run, and nothing is remembered |
| CallbackUse.AddTwice | cloudmq-web/src/main/webapp/static/js/jquery/jquery-1.12.4.js:3276-3288 | a callback that is added twice is on the list once with `unique` and twice without |
| Deferreds.SettleKeeps | cloudmq-web/src/main/webapp/static/js/jquery/jquery-1.12.4.js:3448-3464 | the first settling call sets the state and disables the other list before any other callback runs |
| Deferreds.ListenKeeps | cloudmq-web/src/main/webapp/static/js/jquery/jquery-1.12.4.js:3267-3295 | a callback added after settling runs once with the settling arguments, in its turn |
| Deferreds.EveryRun | cloudmq-web/src/main/webapp/static/js/jquery/jquery-1.12.4.js:3386-3477 | over every run of resolve, reject, done and fail, from outside or inside callbacks: the first settling call decides the state, its callbacks run once each in order of addition with its arguments, the other list never runs |
| Deferreds.SettlesOnce | cloudmq-web/src/main/webapp/static/js/jquery/jquery-1.12.4.js:3448-3457 | the state leaves "pending" at most once |
| Deferreds.AllToldWhenQuiet | cloudmq-web/src/main/webapp/static/js/jquery/jquery-1.12.4.js:3386-3477 | once no callback is running, all callbacks of the settled side have run and none of the other |
| DeferredAccount.EveryRunAgrees | cloudmq-web/src/main/webapp/static/js/jquery/jquery-1.12.4.js:3386-3477 | after every run of calls the two lists stand where a count of the listeners that have come and gone says |
| DeferredAccount.AccountIsTrue | cloudmq-web/src/main/webapp/static/js/jquery/jquery-1.12.4.js:3386-3477 | after every run that account gives the state, the listeners that have been called, in order and with the settling arguments, and the one that is running |
| DeferredObject.DeferredObject.constructor | cloudmq-web/src/main/webapp/static/js/jquery/jquery-1.12.4.js:3387-3457 | the constructor puts the internal callbacks at the head of both lists |
| DeferredObject.DeferredObject.Settle | cloudmq-web/src/main/webapp/static/js/jquery/jquery-1.12.4.js:3448-3464 | `resolve` and `reject`, run through the internal callbacks, make the specified step |
| DeferredObject.DeferredObject.Listen | cloudmq-web/src/main/webapp/static/js/jquery/jquery-1.12.4.js:3446 | `done` and `fail` make the specified step |
| When.StepKeeps | cloudmq-web/src/main/webapp/static/js/jquery/jquery-1.12.4.js:3494-3529 | whatever is done with the deferreds, each handler has one place in its deferred's list and has run iff its turn has come, `remaining` equals the arguments not yet visited plus the visited deferreds whose done handler has not run, and the values are in their places |
| When.EveryRun | cloudmq-web/src/main/webapp/static/js/jquery/jquery-1.12.4.js:3480-3532 | in every run of the program after `when` has returned: the master is resolved only when all subordinates are, with their values in argument order, and rejected only when one is, with its arguments; both are equivalences when no callback of a subordinate is running |
| When.MasterSettlesOnce | cloudmq-web/src/main/webapp/static/js/jquery/jquery-1.12.4.js:3494-3529 | once the master has left "pending" no continuation of the run changes its state, although several handlers may try to settle it |
| When.HandlersRunOnce | cloudmq-web/src/main/webapp/static/js/jquery/jquery-1.12.4.js:3516-3519 | in every run a handler that does its work has not done so before, and neither has the other handler of its argument |
| When.TurnIsReal | cloudmq-web/src/main/webapp/static/js/jquery/jquery-1.12.4.js:3516-3519 | a handler has its turn just as the callback that runs in the list of its deferred, with the arguments of the settling call |
| WhenCall.WhenCall.constructor | cloudmq-web/src/main/webapp/static/js/jquery/jquery-1.12.4.js:3480-3490 | whatever the deferreds have been through, the counter, the values and a fresh master start as specified, and `Start` can be called |
| WhenCall.WhenCall.Start | cloudmq-web/src/main/webapp/static/js/jquery/jquery-1.12.4.js:3511-3529 | the loop over the arguments, with any mix of them settled already, and the check after it lead the objects along a run of `When` to its end; no deferred is settled by it, and deferreds at rest are left at rest |
| WhenSteps.FailIsDeaf | cloudmq-web/src/main/webapp/static/js/jquery/jquery-1.12.4.js:3518-3519 | a resolved deferred takes no notice of what is added to its fail list, so it does not matter when that is done |
| WhenSteps.VisitLeaves | cloudmq-web/src/main/webapp/static/js/jquery/jquery-1.12.4.js:3516-3519 | adding both handlers settles no deferred, and a deferred at rest is at rest again when the handler that is due has had its turn |
| WhenCall.WhenCall.AddDone | cloudmq-web/src/main/webapp/static/js/jquery/jquery-1.12.4.js:3518 | the done handler is added and, on a resolved deferred at rest, has its turn at once |
| WhenCall.WhenCall.AddFail | cloudmq-web/src/main/webapp/static/js/jquery/jquery-1.12.4.js:3519 | then the fail handler is added and, on a rejected deferred at rest, has its turn at once |
| WhenCall.WhenCall.CallOn | cloudmq-web/src/main/webapp/static/js/jquery/jquery-1.12.4.js:3446-3464 | any call that the program makes on a subordinate keeps the objects on a run of `When` |
| WhenCall.WhenCall.RunHandler | cloudmq-web/src/main/webapp/static/js/jquery/jquery-1.12.4.js:3495-3504 | the handler that has its turn reads the arguments from its list and makes the specified step on counter, values and master |
| WhenCall.WhenCall.ObjectsShow | cloudmq-web/src/main/webapp/static/js/jquery/jquery-1.12.4.js:3480-3532 | on the objects: once the call has returned and no callback of a subordinate is running, the master is resolved iff all subordinates are and rejected iff one is |
| WhenUse.MasterTells | cloudmq-web/src/main/webapp/static/js/jquery/jquery-1.12.4.js:3494-3529 | on the objects, after the call: a resolved master remembers, in argument order, for each plain argument the value and for each subordinate the one value it was resolved with, an array of several, or an undefined one |
| WhenUse.MasterTellsReason | cloudmq-web/src/main/webapp/static/js/jquery/jquery-1.12.4.js:3519 | a rejected master remembers what one of the rejected subordinates was rejected with |
| WhenUse.Several | cloudmq-web/src/main/webapp/static/js/jquery/jquery-1.12.4.js:3480-3532 | with none, two or more arguments and deferreds with any past: no state of a subordinate changes, and when none of their callbacks is running, all are at rest after the call and the master is resolved iff all are and rejected iff one is |
| WhenUse.CallWhen | cloudmq-web/src/main/webapp/static/js/jquery/jquery-1.12.4.js:3480-3532 | the same for any number of arguments, where a single deferred is handed back itself and a single value resolves a new master |
| WhenUse.SettleLater | cloudmq-web/src/main/webapp/static/js/jquery/jquery-1.12.4.js:3494-3532 | when a pending subordinate is settled after the call, its callbacks all have their turns and the master is settled accordingly |
| WhenUse.OneBeforeOneAfter | cloudmq-web/src/main/webapp/static/js/jquery/jquery-1.12.4.js:3480-3532 | with one subordinate resolved before the call and the other settled after it, the master ends as the second, with both values in their order or with its reason |
| WhenUse.OneValueEach | cloudmq-web/src/main/webapp/static/js/jquery/jquery-1.12.4.js:3498 | two subordinates resolved with `v` and with `w` make the master tell `v` and `w` |
| WhenUse.SeveralAndNone | cloudmq-web/src/main/webapp/static/js/jquery/jquery-1.12.4.js:3498 | one resolved with two values and one with none make it tell an array of the two and an undefined value |
| WhenCall.WhenCall.Update | cloudmq-web/src/main/webapp/static/js/jquery/jquery-1.12.4.js:3495-3504 | the done handler of an argument stores its value, counts down and resolves the master object at 0 |
| Base64Laws.RoundTrip | cloudmq-web/src/main/webapp/static/js/common/Base64.js:92-217 | decoding the encoding of any sequence of 16-bit units, 0 and lone surrogates included, gives that sequence |
| Base64Laws.EncodeIsInjective | cloudmq-web/src/main/webapp/static/js/common/Base64.js:92-144 | different strings have different encodings |
| Base64Laws.TextOfBits | cloudmq-web/src/main/webapp/static/js/common/Base64.js:117-187 | the decoder recovers the bits from the characters and the equals signs |
| Base64Laws.ReadsUnit | cloudmq-web/src/main/webapp/static/js/common/Base64.js:191-215 | wherever the bits of a unit stand, the main loop reads that unit and advances past it |
| Base64Laws.BitsOfBytes | cloudmq-web/src/main/webapp/static/js/common/Base64.js:59-115 | the bits that the encoder collects are those of one to three bytes for each unit |
| Base64Laws.TextIsRfc4648 | cloudmq-web/src/main/webapp/static/js/common/Base64.js:117-143 | cutting bits into sextets with zeros and equals signs at the end is Base64 (section 4 of RFC 4648) |
| Base64Laws.EncodesBytes | cloudmq-web/src/main/webapp/static/js/common/Base64.js:92-144 | the encoder is Base64 of those bytes, for every string, and its length is 4 * ceil(n / 3) |
| Utf8.EncoderFollowsTheStandards | cloudmq-web/src/main/webapp/static/js/common/Base64.js:92-144 | the text is Base64 of UTF-8 of the string iff the string has no surrogates; with one, UTF-8 differs or does not exist |
| Utf8.PairIsNotUtf8 | cloudmq-web/src/main/webapp/static/js/common/Base64.js:92-107 | the pair D83D DE00 is encoded as six bytes, while UTF-8 has F0 9F 98 80 |
| Base64.NextIndex | cloudmq-web/src/main/webapp/static/js/common/Base64.js:191-215 | on every input an iteration of the decoder's main loop advances by at least eight bits, so the loop ends |
| Base64.AlphabetDigit | cloudmq-web/src/main/webapp/static/js/common/Base64.js:8-17 | the table holds each digit's character at its index |
| Base64.DigitAlphabet | cloudmq-web/src/main/webapp/static/js/common/Base64.js:169-170 | a character that stands for a digit is found at that index |
| Bits.PaddedIsFixed | cloudmq-web/src/main/webapp/static/js/common/Base64.js:22-38 | the shortest form of a number, filled up with zeros in front, is its fixed-width form |
| Base64Codec.ToBinary | cloudmq-web/src/main/webapp/static/js/common/Base64.js:22-38 | the loop and the final reversal give the bits, most significant first |
| Base64Codec.ToDecimal | cloudmq-web/src/main/webapp/static/js/common/Base64.js:43-54 | the backward loop over powers of two gives the number |
| Base64Codec.ToUtf8Binary | cloudmq-web/src/main/webapp/static/js/common/Base64.js:59-86 | the marked sequence of 2 to 6 bytes that holds the given bits |
| Base64Codec.TwoBytesFramed | cloudmq-web/src/main/webapp/static/js/common/Base64.js:104-105 | in two bytes this is the form of a unit from 0x80 to 0x7FF |
| Base64Codec.ThreeBytesFramed | cloudmq-web/src/main/webapp/static/js/common/Base64.js:106-107 | in three bytes this is the form of a unit from 0x800 on |
| Base64Codec.UnitBinary | cloudmq-web/src/main/webapp/static/js/common/Base64.js:96-107 | the branches of the encoder give the bits of one to three bytes for each unit |
| Base64Codec.Group | cloudmq-web/src/main/webapp/static/js/common/Base64.js:117-133 | the loop that pushes zeros while it runs yields the sextets and the number of zeros |
| Base64Codec.Encoder | cloudmq-web/src/main/webapp/static/js/common/Base64.js:92-144 | the encoder's loops compute the specified text |
| Base64Codec.Scan | cloudmq-web/src/main/webapp/static/js/common/Base64.js:169-182 | the scan stops at the first occurrence or runs off the table |
| Base64Codec.CharBits | cloudmq-web/src/main/webapp/static/js/common/Base64.js:168-182 | each character of the alphabet gives its six bits and any other none |
| Base64Codec.ToPayload | cloudmq-web/src/main/webapp/static/js/common/Base64.js:149-187 | stripping equals signs, scanning and cutting gives the specified bits |
| Base64Codec.NextSequence | cloudmq-web/src/main/webapp/static/js/common/Base64.js:191-215 | one iteration of the main loop reads one sequence and moves on as specified |
| Base64Codec.Decoder | cloudmq-web/src/main/webapp/static/js/common/Base64.js:148-217 | the decoder's loops compute the specified units, on every input |
| Utf8Decoding.ReadsSequenceOf | cloudmq-web/src/main/webapp/static/js/common/Base64.js:191-215 | a sequence of 1 to 7 bytes, wherever it stands, is read as the number that its bits behind the marks give, and the index advances past it |
| Utf8Decoding.DecodesUtf8 | cloudmq-web/src/main/webapp/static/js/common/Base64.js:148-217 | Base64 of the UTF-8 of any characters up to 0x10FFFF decodes to these characters |
| Utf8Decoding.DecodesStandardText | cloudmq-web/src/main/webapp/static/js/common/Base64.js:148-217 | so whatever another program encodes by the standards decodes to the characters of its string |
| Base64Texts.DecodesEmoji | cloudmq-web/src/main/webapp/static/js/common/Base64.js:191-215 | the text `8J+YgA==` decodes to 0x1F600 alone |
| Base64Texts.SkipsOthers | cloudmq-web/src/main/webapp/static/js/common/Base64.js:167-183 | a character that is not of the alphabet makes no difference inside a text |
| Base64Texts.EncodesOne | cloudmq-web/src/main/webapp/static/js/common/Base64.js:92-144 | the letter M is encoded as `TQ==` and U+4E2D as `5Lit` |
| ConfigStore.ReadsBack | cloudmq-common/src/main/java/com/alibaba/rocketmq/common/MixAll.java:214-245 | a file is read back iff each of its characters takes one byte |
| ConfigStore.StepKeeps | cloudmq-common/src/main/java/com/alibaba/rocketmq/common/MixAll.java:131-150 | a `string2File` that crashes anywhere, or not at all, keeps the committed document in the file or, when that is missing, in the backup |
| ConfigStore.OnlySurvivorsAreLoaded | cloudmq-common/src/main/java/com/alibaba/rocketmq/common/ConfigManager.java:48-87 | whatever is loaded is the contents of one of the two files, not empty, readable and decodable |
| ConfigStore.LoadMeans | cloudmq-common/src/main/java/com/alibaba/rocketmq/common/ConfigManager.java:48-87 | `load` takes the document of the file, else that of the backup; it fails iff the file holds none and the backup can be read, is not empty and does not decode; else it changes nothing |
| ConfigStore.WholeIsLoaded | cloudmq-common/src/main/java/com/alibaba/rocketmq/common/ConfigManager.java:48-101 | over every run with crashes anywhere: if no part of an initial or committed document decodes where the whole does not, what is loaded was there at the start or was committed, and in full |
| ConfigStore.TornBackup | cloudmq-common/src/main/java/com/alibaba/rocketmq/common/MixAll.java:131-150 | that condition is exact: a crash while the backup of a document is written leads to a torn one being loaded iff part of it decodes and the whole, though readable, does not |
| ConfigStore.CrashSafety | cloudmq-common/src/main/java/com/alibaba/rocketmq/common/ConfigManager.java:48-101 | after any sequence of writes and crashes `load` yields the last committed document iff it is not empty, has one byte per character and decodes; before the first commit it leaves the initial state |
| ConfigStore.LoadNeverFails | cloudmq-common/src/main/java/com/alibaba/rocketmq/common/ConfigManager.java:48-101 | with such documents only, `load` never fails and yields exactly the last committed one |
| ConfigStore.WideDocumentIsLost | cloudmq-common/src/main/java/com/alibaba/rocketmq/common/MixAll.java:214-245 | a run without crashes after which an older document is loaded |
| ConfigStore.ConfigManager.String2File | cloudmq-common/src/main/java/com/alibaba/rocketmq/common/MixAll.java:131-150 | the file operations, up to any crash, have the specified effect and touch no other file |
| ConfigStore.ConfigManager.File2String | cloudmq-common/src/main/java/com/alibaba/rocketmq/common/MixAll.java:214-245 | the contents, unless the file is missing or has more bytes than characters |
| ConfigStore.ConfigManager.Persist | cloudmq-common/src/main/java/com/alibaba/rocketmq/common/ConfigManager.java:90-101 | nothing is written when there is nothing to encode |
| ConfigStore.ConfigManager.Load | cloudmq-common/src/main/java/com/alibaba/rocketmq/common/ConfigManager.java:48-67 | the file, or the backup when it is missing, empty, unreadable or undecodable |
| ConfigStore.ConfigManager.LoadBak | cloudmq-common/src/main/java/com/alibaba/rocketmq/common/ConfigManager.java:70-87 | the backup; it fails only when the backup does not decode |
| ServiceThread.StepKeeps | cloudmq-common/src/main/java/com/alibaba/rocketmq/common/ServiceThread.java:70-144 | every step keeps mutual exclusion and never leaves the worker un-notified in the wait set with the flag up |
| ServiceThread.EveryRun | cloudmq-common/src/main/java/com/alibaba/rocketmq/common/ServiceThread.java:70-144 | the same over every interleaving, with what is owed after each finished call |
| ServiceThread.NoLostWakeup | cloudmq-common/src/main/java/com/alibaba/rocketmq/common/ServiceThread.java:115-144 | between the end of a `wakeup` or `stop` and the next time that the worker blocks, `waitForRunning` returns |
| ServiceThread.AtMostOneMore | cloudmq-common/src/main/java/com/alibaba/rocketmq/common/ServiceThread.java:64-83 | after `stoped` is set the worker returns from `waitForRunning` at most once more |
| ServiceThread.NeverBlocksAfterStop | cloudmq-common/src/main/java/com/alibaba/rocketmq/common/ServiceThread.java:70-83 | after the synchronized block of `stop` the worker never blocks again |
| ServiceThread.EndedIsStopped | cloudmq-common/src/main/java/com/alibaba/rocketmq/common/ServiceThread.java:70-83 | in every run the worker has ended only if `stoped` is set |
| ServiceThread.StoppedByACall | cloudmq-common/src/main/java/com/alibaba/rocketmq/common/ServiceThread.java:64-83 | and `stoped` is set only if a call has set it |
| ServiceThread.Progress | cloudmq-common/src/main/java/com/alibaba/rocketmq/common/ServiceThread.java:125-144 | while a call is owed, each step of the worker brings the return nearer and no other step delays it |
| ServiceThread.WorkerStepsAreFew | cloudmq-common/src/main/java/com/alibaba/rocketmq/common/ServiceThread.java:115-144 | over every run: from a state in which a call is owed the worker makes at most five steps before `waitForRunning` returns, whatever the other threads do |
| ServiceThread.ReturnIsNear | cloudmq-common/src/main/java/com/alibaba/rocketmq/common/ServiceThread.java:115-144 | from every reachable state in which a call is owed, at most nine steps lead to the return or the end of the loop |
| ServiceThread.ServiceThread.Wakeup | cloudmq-common/src/main/java/com/alibaba/rocketmq/common/ServiceThread.java:115-122 | run without interruption, `wakeup` makes the machine's steps and leaves the flag up |
| ServiceThread.ServiceThread.Stop | cloudmq-common/src/main/java/com/alibaba/rocketmq/common/ServiceThread.java:70-83 | `stop` sets `stoped` first and then notifies |
| ServiceThread.ServiceThread.BeginWait | cloudmq-common/src/main/java/com/alibaba/rocketmq/common/ServiceThread.java:125-134 | a pending notification is consumed and `waitForRunning` returns at once, else the worker waits |
| ServiceThread.ServiceThread.EndWait | cloudmq-common/src/main/java/com/alibaba/rocketmq/common/ServiceThread.java:139-142 | however the wait ended, the flag is cleared before the return |
| IncreaseOnly.StepKeeps | cloudmq-common/src/main/java/com/alibaba/rocketmq/common/MixAll.java:465-476 | every step of every thread keeps the invariant and does not lower the target |
| IncreaseOnly.NeverFalls | cloudmq-common/src/main/java/com/alibaba/rocketmq/common/MixAll.java:465-476 | over every run the target never falls |
| IncreaseOnly.InstalledRise | cloudmq-common/src/main/java/com/alibaba/rocketmq/common/MixAll.java:468-470 | the values installed rise strictly |
| IncreaseOnly.TrueMeansInstalled | cloudmq-common/src/main/java/com/alibaba/rocketmq/common/MixAll.java:468-475 | a call returns true iff its own compare-and-set installed its value |
| IncreaseOnly.EndsAtMaximum | cloudmq-common/src/main/java/com/alibaba/rocketmq/common/MixAll.java:465-476 | when all calls have returned, the target is the maximum of the initial value and all arguments |
| IncreaseOnly.RetryShrinks | cloudmq-common/src/main/java/com/alibaba/rocketmq/common/MixAll.java:467-473 | what is read after a failed swap is above what was read before |
| IncreaseOnly.GetsAreFew | cloudmq-common/src/main/java/com/alibaba/rocketmq/common/MixAll.java:466-473 | a call reads the target at most `value - initial + 1` times, or once, whatever the other threads do |
| IncreaseOnly.AtomicLong.CompareAndIncreaseOnly | cloudmq-common/src/main/java/com/alibaba/rocketmq/common/MixAll.java:465-476 | the loop ends while others raise the target before every access; true means that the value was installed over a smaller one, false that the target is what the others have made of it; undisturbed, the result is true iff the value is above the target |
| TypeInfo.SuperclassesAre | cloudmq-filtersrv/src/main/java/com/alibaba/common/lang/ClassUtil.java:1089-1123 | for every type: the proper superclasses of the boxed base in its dimension (just `Object` for an interface), then the arrays of `Object` down to `Object` |
| TypeInfo.SuperclassAt | cloudmq-filtersrv/src/main/java/com/alibaba/common/lang/ClassUtil.java:1089-1123 | the superclasses of a class one by one: the chain in its dimension, then `Object` with one pair of brackets less each time |
| TypeInfo.ChainMeans | cloudmq-filtersrv/src/main/java/com/alibaba/common/lang/ClassUtil.java:1106-1121 | the chain leads from each class to its own superclass, until there is none |
| TypeInfo.SuperclassesDoNotRepeat | cloudmq-filtersrv/src/main/java/com/alibaba/common/lang/ClassUtil.java:1089-1123 | no superclass is listed twice, and the type itself is not listed |
| TypeInfo.DedupeKeeps | cloudmq-filtersrv/src/main/java/com/alibaba/common/lang/ClassUtil.java:1143-1149 | the last loop drops repetitions and nothing else |
| TypeInfo.ListedIsReached | cloudmq-filtersrv/src/main/java/com/alibaba/common/lang/ClassUtil.java:1126-1149 | a listed type is an interface that `extends` and `implements` lead to |
| TypeInfo.ReachedIsListed | cloudmq-filtersrv/src/main/java/com/alibaba/common/lang/ClassUtil.java:1126-1149 | every interface that they lead to is listed |
| TypeInfo.InterfacesAreClosure | cloudmq-filtersrv/src/main/java/com/alibaba/common/lang/ClassUtil.java:1126-1149 | the interfaces are the transitive closure without repetition |
| TypeInfo.InterfacesOfAny | cloudmq-filtersrv/src/main/java/com/alibaba/common/lang/ClassUtil.java:1126-1156 | the same for arrays, in their dimension, and for primitive types through their wrappers |
| TypeInfo.PrimitiveMeans | cloudmq-filtersrv/src/main/java/com/alibaba/common/lang/ClassUtil.java:1167-1196 | a primitive type, and an array of one, has the superclasses and interfaces of its own wrapper; `void` has none |
| TypeInfo.ClassUtil.GetTypeInfo | cloudmq-filtersrv/src/main/java/com/alibaba/common/lang/ClassUtil.java:1035-1087 | the table always agrees with a fresh computation and keeps its entries; dimension and component are those of the type |
| TypeInfo.ClassUtil.NewTypeInfo | cloudmq-filtersrv/src/main/java/com/alibaba/common/lang/ClassUtil.java:1071-1157 | the recursive constructor ends, by dimension and then rank, with the specified lists |
| TypeInfo.ClassUtil.FindSuperclasses | cloudmq-filtersrv/src/main/java/com/alibaba/common/lang/ClassUtil.java:1089-1123 | the branches for arrays, interfaces and primitives give the specified list |
| TypeInfo.ClassUtil.FindInterfaces | cloudmq-filtersrv/src/main/java/com/alibaba/common/lang/ClassUtil.java:1125-1156 | the loops give the specified list |
| ArraySearch.IndexOf | cloudmq-filtersrv/src/main/java/com/alibaba/common/lang/ArrayUtil.java:3297-3348 | the least occurrence at or after the clamped start, or -1 when there is none or an array is null |
| ArraySearch.StartBeyondEnd | cloudmq-filtersrv/src/main/java/com/alibaba/common/lang/ArrayUtil.java:3284-3322 | with a start beyond the end the result is -1, as documented, iff the sequence sought is not empty, and else the length |
| ArraySearch.StartBelowZero | cloudmq-filtersrv/src/main/java/com/alibaba/common/lang/ArrayUtil.java:3284-3326 | a start below zero counts as zero, as documented |
| ArraySearch.EmptyBeyondEnd | cloudmq-filtersrv/src/main/java/com/alibaba/common/lang/ArrayUtil.java:3284-3322 | searching a one-element array for the empty sequence from 5 on gives 1 |
| ArraySearch.LastIndexOf | cloudmq-filtersrv/src/main/java/com/alibaba/common/lang/ArrayUtil.java:3451-3500 | the greatest occurrence at or before the start, or -1 |
| ArraySearch.RestAgrees | cloudmq-filtersrv/src/main/java/com/alibaba/common/lang/ArrayUtil.java:3331-3346 | the inner loop tells whether the sequence stands at the place where its first element was found |
| ArraySearch.RestAgreesBackwards | cloudmq-filtersrv/src/main/java/com/alibaba/common/lang/ArrayUtil.java:3487-3498 | the same from the last element backwards |
| ArraySearch.Reverse | cloudmq-filtersrv/src/main/java/com/alibaba/common/lang/ArrayUtil.java:2323-2334 | the array is reversed in place |
| ArraySearch.Duality | cloudmq-filtersrv/src/main/java/com/alibaba/common/lang/ArrayUtil.java:3297-3500 | searching from the end is searching the reversed array for the reversed sequence, counted from the other end, and both fail together |

## Left out

- Tokenizing with regular expressions, the `querySelectorAll` shortcuts and the reduction of the context in `Sizzle.select`: the model starts from tokens.
- Filters other than `:nth-child` are arbitrary predicates of the document and a node; `:not` and `:has` change `dirruns` in the middle of a run and are not modelled.
- Positional selectors and the inside of `setMatcher`: set matchers are arbitrary functions that may only move unmatched entries to the same index.
- Engine.Sizzle.MatcherFromTokens: without the branch for positional selectors, which ends the compilation with a set matcher.
- Engine.Sizzle.Select: always on a seed, and without the cache of compiled selectors, which hands back a compiled group; `Matchers.RegisteredLater` is what makes an older one good for a later run.
- Engine.Sizzle.SuperMatcher: only with a seed; without one the result of set matchers is sorted, which `DocumentOrder.UniqueSort` covers on its own. Each run gets a fresh whole number, also where the source adds a random fraction.
- The variable `checkContext` that the two context matchers share is passed to them as part of the setting.
- The cached `:nth-last-child` branch and the `of-type` variants.
- DocumentOrder.UniqueSort: the sorting itself is a parameter, any sorted permutation; only the mode that assumes duplicates is modelled.
- `sourceIndex`, `compareDocumentPosition` and nodes outside the document in the comparator.
- The option `stopOnFalse`, the method `empty`, and `progress` and `notify` of deferreds.
- TypeInfo.InterfacesAreClosure: which interfaces are listed, each once; their order is stated only by the functions that the constructor is proved against.
- `then`, `always` and `promise`, which only combine the operations that are modelled; callback contexts (`this`).
- Callback entries carry a number in the order of addition that no branch reads; it lets the history tell two additions of one function apart.
- A callback that throws: `fire` has no `try`, so `firing` would stay true and later calls would only be queued.
- Nested arrays of callbacks in `add` and several arguments to `remove`, which repeat the operation one callback at a time.
- Progress values of `when`, and the contexts that it collects.
- WhenCall.WhenCall.constructor: a number of arguments other than one; `WhenUse.CallWhen` has the rest.
- When.EveryRun: the same; with one argument this is not the run that the source makes. Both handlers of an argument are added in one event, which `WhenSteps.FailIsDeaf` allows; `WhenCall` adds them in the order of the source.
- WhenUse.SettleLater: the other callbacks of the subordinate are taken to return without making calls; `When.EveryRun` has no such limit.
- Base64Codec.ToDecimal: an exact sum; the source adds doubles, which round above 2^53, on bits that no encoder writes (a sequence marked with ten or more leading ones).
- Base64Codec.NextSequence: exact for the same reason.
- Base64Codec.Decoder: exact for the same reason; on what the encoder writes no sum exceeds 16 bits.
- Branches of the encoder for code points above 0xFFFF, which `charCodeAt` never returns.
- The rename and the delete are atomic and succeed, `decode` either accepts a document or changes nothing, and a reader returns all characters of a file; a crash that cuts a wide character in half is not modelled.
- Interrupting and joining the worker in `stop(true)` and `shutdown` beyond the wake-up that an interrupt causes; times and logging.
- ServiceThread.ServiceThread.BeginWait and `EndWait` are the two halves of `waitForRunning`, which gives up the lock in between; interleavings inside the synchronized blocks are covered by the machine, not by the class.
- Arithmetic is on unbounded integers: array lengths near 2^31 and the 64-bit range of the counter play no part, since the code only compares these values.
- The other element types, tolerance variants and null helpers of `ArrayUtil`; reflection other than the four queries that `TypeInfo` makes.
- Brokers, controllers, storage, network and page scripts.
