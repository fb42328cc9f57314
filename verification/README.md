# What is verified here

This project models, in Dafny, the five pieces of logic in this repository that are hardest to get right, and proves what
they promise.

* **jQuery 1.10.2 as shipped with the miner's web pages.** Sizzle's combinator matcher with its one cache slot per node and
  direction, the position caches of `:nth-child`, and `jQuery.Callbacks`, `Deferred` and `when`.
* **cJSON.** The recursive-descent parser, the two printers, the in-place minifier, and the doubly linked trees on the heap.
* **minermonitor's receive queues.** Two ring buffers between a receiving thread and a main loop that share no lock.
* **The hash boards' status frame** and the table-driven CRC-16 that guards it.
* **The CRC-32 with its computed table**, and the splitter that cuts the checked command text.

## How the model is laid out

| files | contents |
|---|---|
| `Options` | optional values |
| `Dom`, `Selectors` | trees with sibling order, tokens, compiled matchers and what they mean |
| `SelectorMeaning` | the combinators, chains and contexts in terms of ancestors and siblings |
| `Sizzle`, `SuperMatcher` | the shared counters and cache slots, the walks, compiling and the element loop |
| `NthChild` | position caches and the cycle test |
| `Callbacks`, `CallbackList` | the closure's variables and each operation as a function, and the object whose methods are proved against them |
| `OnceMemory` | a ledger of additions as reference, and the promise of a `once memory` list |
| `Announcements` | the batches of a repeatable list with memory, over every run |
| `Deferred`, `DeferredProof`, `Notices` | three lists wired together, that they settle once, and what becomes of notify |
| `When`, `WhenDeferreds` | the closure of `when`, and the closure attached to real deferreds |
| `Json`, `JsonParse` | values and their printed text, and the recursive-descent parser |
| `JsonGrammar` | the concrete syntax of RFC 8259 with comments, and what its texts mean |
| `JsonScan`, `JsonAccepts`, `JsonRefuses` | single steps of the parser, that it reads every text of the grammar, and where it refuses others |
| `JsonPrinted`, `JsonRoundTrip` | that every print is a text of the grammar, and the round trip |
| `Unsigned` | the number a 32-bit word stands for, and what bit operators do to it |
| `JsonString`, `Minify` | the two-pass buffers, UTF-8, and the in-place minifier |
| `JsonHeap`, `JsonTree` | memory, nodes, ownership, deletion, linking |
| `JsonBuffers`, `JsonPrint` | tables of strings that are filled and given back, and the printers over them |
| `JsonHeapParse`, `JsonDuplicate`, `JsonList` | the parser that fills nodes, duplication, list surgery |
| `RevQueue`, `QueueClient` | the ring buffer, and the interleaved steps of both threads |
| `Crc16`, `StatusFrame` | byte tables, frame layout |
| `Crc32`, `CommandParser` | computed table, splitter |

A DOM tree is a finite forest whose nodes are numbered in document order, and a filter is a pure predicate on nodes. A callback
is called by handing it out: an operation that reaches a call returns it, and the moment the callback returns is an operation
of its own, so that everything a callback may do in between is just a longer sequence of operations. C strings are texts
without the terminator; characters stand for bytes. A number that is read is the exact pair of mantissa and decimal exponent.

On the heap, a ghost forest says which nodes, strings and sub-chains a structure owns; `Owns` ties it to the actual `next`,
`prev` and `child` fields, and `live` is what has been allocated and not freed. Which allocations fail is an arbitrary plan, so
every statement covers running out of memory at any point. The two threads of the queue model take single steps: one read of
the other side's index, one copied byte, one index update.

## Where the code and its promises differ

* Sizzle skips the check against the context on XML documents. `SuperMatcher.XmlIsUnscoped` says what the plain walk selects
  then, and `AgreesExactly` when the two walks agree: for every context exactly when each selector starts with a combinator
  or fits nothing. `XmlIsNotScoped` is an instance of the difference.
* `empty` inside a running callback resets the length but not the index. `OnceMemory.EmptyLosesAdditions` says which later
  additions are lost, `NothingLost` that emptying at any other moment loses nothing.
* `empty` brings a disabled list back. `Callbacks.DisabledForGood` and `EmptyRevives` give the cases in which it calls again.
* `parse_string` skips the escape behind an unpaired high surrogate; `JsonString.DecodedIsStandard` gives the exact condition
  under which nothing is lost.
* `parse_string` accepts a string that the end of the text cuts off. `JsonString.TokenCloses` says exactly when a token ends at
  its closing quote, `TextCloses` that all tokens of an accepted text do so unless the whole text is one string, and
  `CutOffAccepted` is a text that is accepted without one.
* `cJSON_Minify` reads on behind the text when a string or a block comment is not closed, and `Minify.MinifyInPlace` states that
  it does so exactly then.
* A block comment whose inside starts with a slash ends too early for `cJSON_Minify`. `Minify.CommentSkipped` gives the exact
  condition, `ClosesEarly` an instance; the texts with comments in `JsonGrammar` are those without such a comment.
* `cJSON_ReplaceItemInObject` does not free the name its new node already has; `JsonList.ReplaceItemInObject` states the leak.
* The receiving thread clears both queues when a receive fails, which writes the main loop's index;
  `QueueClient.ClearUnderDequeue` shows that this is safe only outside a running `DeQueue`, and `BrokenRun` that such a run
  exists.
* `parse_status_data` copies both runs of bitmaps into `chain_asic_exist`; `StatusFrame.ParsedFrame` states what is left, and
  exactly when nothing is lost.

## Model

| member | source | states |
|---|---|---|
| `Dom.Tree.ClosestNearest` | sources/meta-altera/recipes-bitmianer/lighttpd/lighttpd-1.0/www/js/jquery-1.10.2.js:1930-1935 | `Closest`, where a `>` or `+` walk stops, is the nearest eligible ancestor or preceding sibling; if there is none, nothing above is eligible |
| `SelectorMeaning.AboveIsAncestors` | sources/meta-altera/recipes-bitmianer/lighttpd/lighttpd-1.0/www/js/jquery-1.10.2.js:1930-1935 | following parentNode again and again reaches exactly the proper ancestors, the nodes at the other end of a path of parent links |
| `SelectorMeaning.AboveIsEarlier` | sources/meta-altera/recipes-bitmianer/lighttpd/lighttpd-1.0/www/js/jquery-1.10.2.js:1930-1935 | following previousSibling reaches exactly the children of the same parent with a smaller index |
| `SelectorMeaning.ReachIsRelates` | sources/meta-altera/recipes-bitmianer/lighttpd/lighttpd-1.0/www/js/jquery-1.10.2.js:2475-2523 | the nodes a combinator looks at are exactly the ancestors or earlier siblings of the right kind, or only the nearest of them if it has `first` |
| `SelectorMeaning.SymbolsMean` | sources/meta-altera/recipes-bitmianer/lighttpd/lighttpd-1.0/www/js/jquery-1.10.2.js:1930-1935 | in a document the four combinators are those of section 8 of Selectors Level 3: ancestor, parent, earlier sibling, and the sibling with no element in between |
| `SelectorMeaning.SelectsIsChain` | sources/meta-altera/recipes-bitmianer/lighttpd/lighttpd-1.0/www/js/jquery-1.10.2.js:2653-2703 | a token list selects a node exactly when its tests hold along a chain of nodes in the relations asked for, whose leftmost node passes the context check |
| `SelectorMeaning.MatchesMeans` | sources/meta-altera/recipes-bitmianer/lighttpd/lighttpd-1.0/www/js/jquery-1.10.2.js:2653-2672 | a selector that starts with a filter matches exactly when its chain ends at a node with a context node among its proper ancestors, however far up; XML walks and other contexts do without |
| `SelectorMeaning.LeadingMeans` | sources/meta-altera/recipes-bitmianer/lighttpd/lighttpd-1.0/www/js/jquery-1.10.2.js:2653-2672 | a selector that starts with a combinator relates the leftmost node of its chain to a context node by that combinator, in every walk |
| `SelectorMeaning.FiltersMean` | sources/meta-altera/recipes-bitmianer/lighttpd/lighttpd-1.0/www/js/jquery-1.10.2.js:2653-2672 | a selector of filters only matches a node in an outermost HTML run exactly when all tests hold and some node above it is in the context |
| `Selectors.OwnerInRange` | sources/meta-altera/recipes-bitmianer/lighttpd/lighttpd-1.0/www/js/jquery-1.10.2.js:2475-2478 | a compiled chain's doneNames lie in the range reserved for it and never belong to a filter, so levels and groups cannot take each other's cache entries for their own |
| `SuperMatcher.MatcherFromTokens` | sources/meta-altera/recipes-bitmianer/lighttpd/lighttpd-1.0/www/js/jquery-1.10.2.js:2653-2706 | the compiled chain has the combinator at index 0 and filters behind it, uses doneNames from a range of its own, and selects in every environment and on every node exactly what the tokens mean |
| `SuperMatcher.AgreesFilter` | sources/meta-altera/recipes-bitmianer/lighttpd/lighttpd-1.0/www/js/jquery-1.10.2.js:2678-2701 | appending a filter matcher corresponds to appending its token |
| `SuperMatcher.AgreesRelative` | sources/meta-altera/recipes-bitmianer/lighttpd/lighttpd-1.0/www/js/jquery-1.10.2.js:2675-2676 | wrapping the chain in a combinator corresponds to appending the combinator token, with a new walk in the given direction |
| `SuperMatcher.AgreesContext` | sources/meta-altera/recipes-bitmianer/lighttpd/lighttpd-1.0/www/js/jquery-1.10.2.js:2660-2672 | the base matchers are the context check that an empty token list stands for |
| `Sizzle.Engine.MatchAll` | sources/meta-altera/recipes-bitmianer/lighttpd/lighttpd-1.0/www/js/jquery-1.10.2.js:2525-2537 | elementMatcher answers what the declarative semantics answers; after a miss every miss recorded in this run is still vouched for; only slots below the start were touched |
| `Sizzle.Engine.MatchFirst` | sources/meta-altera/recipes-bitmianer/lighttpd/lighttpd-1.0/www/js/jquery-1.10.2.js:2667-2676 | the context check or combinator at index 0 answers as the semantics does and keeps the promises about the slots |
| `Sizzle.Engine.WalkFirst` | sources/meta-altera/recipes-bitmianer/lighttpd/lighttpd-1.0/www/js/jquery-1.10.2.js:2480-2488 | the closest-only walk finds a match exactly when the nearest eligible node is one |
| `Sizzle.Engine.WalkPlain` | sources/meta-altera/recipes-bitmianer/lighttpd/lighttpd-1.0/www/js/jquery-1.10.2.js:2496-2503 | the uncached walk over all ancestors or preceding siblings finds a match exactly when there is one, and writes no slot |
| `Sizzle.Engine.WalkCached` | sources/meta-altera/recipes-bitmianer/lighttpd/lighttpd-1.0/www/js/jquery-1.10.2.js:2504-2521 | the cached walk finds a match exactly when there is one, although it stops early at `true` and at `cachedruns` and other levels overwrite the same slots; afterwards the recorded hits and misses are still right |
| `Sizzle.Engine.Visit` | sources/meta-altera/recipes-bitmianer/lighttpd/lighttpd-1.0/www/js/jquery-1.10.2.js:2512-2518 | reserving a slot, asking the inner matcher (which may overwrite it) and writing the answer back keeps every promise about the slots |
| `Sizzle.WriteBack` | sources/meta-altera/recipes-bitmianer/lighttpd/lighttpd-1.0/www/js/jquery-1.10.2.js:2513-2514 | the entry written after the inner matcher has run is right whatever that matcher did to the slot |
| `Sizzle.ProbeKeeps` | sources/meta-altera/recipes-bitmianer/lighttpd/lighttpd-1.0/www/js/jquery-1.10.2.js:2514-2514 | misses already recorded by this walk survive the inner matcher's own walks |
| `Sizzle.WalkFails` | sources/meta-altera/recipes-bitmianer/lighttpd/lighttpd-1.0/www/js/jquery-1.10.2.js:2505-2511 | a walk that ends at a slot holding the current `cachedruns`, or at the root, has really failed, and its misses may be vouched for |
| `Sizzle.WalkAdvances` | sources/meta-altera/recipes-bitmianer/lighttpd/lighttpd-1.0/www/js/jquery-1.10.2.js:2505-2519 | a failed node joins the nodes passed without weakening what is known about the others |
| `Sizzle.Strengthen` | sources/meta-altera/recipes-bitmianer/lighttpd/lighttpd-1.0/www/js/jquery-1.10.2.js:2508-2514 | after a failed match the weak reading of the slots (hits are hits) becomes the strong one (misses of this run cover everything above) |
| `SuperMatcher.Selector.constructor` | sources/meta-altera/recipes-bitmianer/lighttpd/lighttpd-1.0/www/js/jquery-1.10.2.js:2809-2830 | every group of a selector list is compiled faithfully, with doneNames disjoint from those of all other groups |
| `SuperMatcher.MatchAny` | sources/meta-altera/recipes-bitmianer/lighttpd/lighttpd-1.0/www/js/jquery-1.10.2.js:2734-2746 | one element is matched against all groups; the answer is that of the semantics and the slots are ready for the next element |
| `SuperMatcher.OthersKeep` | sources/meta-altera/recipes-bitmianer/lighttpd/lighttpd-1.0/www/js/jquery-1.10.2.js:2475-2478 | what one group records is not invalidated by another group of the same selector list |
| `SuperMatcher.NextRun` | sources/meta-altera/recipes-bitmianer/lighttpd/lighttpd-1.0/www/js/jquery-1.10.2.js:2742-2745 | raising the run counter turns the misses of the last element into old entries, so nothing stale can cut off a walk |
| `SuperMatcher.Run` | sources/meta-altera/recipes-bitmianer/lighttpd/lighttpd-1.0/www/js/jquery-1.10.2.js:2713-2746 | whatever earlier runs left on the nodes, on any list of elements the outermost run returns exactly those the tokens select, in order; XML runs write no slot |
| `SuperMatcher.XmlIsUnscoped` | sources/meta-altera/recipes-bitmianer/lighttpd/lighttpd-1.0/www/js/jquery-1.10.2.js:2667-2672 | the XML walk selects exactly what the HTML walk selects with its context check left out |
| `SuperMatcher.XmlSelectsMore` | sources/meta-altera/recipes-bitmianer/lighttpd/lighttpd-1.0/www/js/jquery-1.10.2.js:2667-2672 | whatever the cached walk selects the plain XML walk selects too, and both agree when the selector starts with a combinator or the context is not the outermost one |
| `SuperMatcher.CachedAgreesWithPlain` | sources/meta-altera/recipes-bitmianer/lighttpd/lighttpd-1.0/www/js/jquery-1.10.2.js:2475-2523 | for any selectors and any list of elements the cached and the plain walk choose the same elements, under the condition of the row above |
| `SuperMatcher.SelfIsNoContext` | sources/meta-altera/recipes-bitmianer/lighttpd/lighttpd-1.0/www/js/jquery-1.10.2.js:2660-2672 | run against a context that is one node, the cached walk selects neither that node nor anything before it, for any selector |
| `SuperMatcher.ScopeMatters` | sources/meta-altera/recipes-bitmianer/lighttpd/lighttpd-1.0/www/js/jquery-1.10.2.js:2667-2672 | the other half: a selector that fits a node and does not start with a combinator is, in a context of just that node, selected by the plain walk and not by the cached one |
| `SuperMatcher.AgreesExactly` | sources/meta-altera/recipes-bitmianer/lighttpd/lighttpd-1.0/www/js/jquery-1.10.2.js:2667-2672 | on any tree, both walks choose the same elements for every context and element list of an outermost run exactly when each selector of the group starts with a combinator or fits no node at all |
| `SuperMatcher.XmlIsNotScoped` | sources/meta-altera/recipes-bitmianer/lighttpd/lighttpd-1.0/www/js/jquery-1.10.2.js:2667-2672 | an instance: a selector and a one-node tree on which the two differ, because XML skips the context check |
| `NthChild.CycleTestCorrect` | sources/meta-altera/recipes-bitmianer/lighttpd/lighttpd-1.0/www/js/jquery-1.10.2.js:2139-2141 | the last test holds exactly when position = a*n + b for some n >= 0, also for a <= 0 |
| `NthChild.PositionAt` | sources/meta-altera/recipes-bitmianer/lighttpd/lighttpd-1.0/www/js/jquery-1.10.2.js:2104-2114 | a child's position is the count of elements up to it from the first child, or from the last, whichever end the walk starts at |
| `NthChild.PositionIsSize` | sources/meta-altera/recipes-bitmianer/lighttpd/lighttpd-1.0/www/js/jquery-1.10.2.js:2102-2136 | that position is the number of elements among the siblings up to the node, or from it on |
| `NthChild.PositionCache.Resume` | sources/meta-altera/recipes-bitmianer/lighttpd/lighttpd-1.0/www/js/jquery-1.10.2.js:2102-2114 | from a cached index and count, with at most one restart, the loop stops at the element with the count of elements from the start |
| `NthChild.PositionCache.SeekForward` | sources/meta-altera/recipes-bitmianer/lighttpd/lighttpd-1.0/www/js/jquery-1.10.2.js:2096-2114 | the cached forward search yields the position from the first child and leaves a cache that is right again |
| `NthChild.PositionCache.SeekBackward` | sources/meta-altera/recipes-bitmianer/lighttpd/lighttpd-1.0/www/js/jquery-1.10.2.js:2116-2136 | the backward search yields the position from the last child, from its own slot or by a walk that fills the slots of all elements passed |
| `NthChild.PositionCache.SeekUncached` | sources/meta-altera/recipes-bitmianer/lighttpd/lighttpd-1.0/www/js/jquery-1.10.2.js:2120-2136 | without a cache the same walk counts the elements (or elements of the type) from its end |
| `NthChild.PositionCache.NextRun` | sources/meta-altera/recipes-bitmianer/lighttpd/lighttpd-1.0/www/js/jquery-1.10.2.js:2723-2724 | a new run may see a changed child list: old entries no longer count |
| `NthChild.PositionCache.Query` | sources/meta-altera/recipes-bitmianer/lighttpd/lighttpd-1.0/www/js/jquery-1.10.2.js:2094-2142 | over any sequence of :nth-* queries in a run the filter holds exactly for elements whose position is in the progression a*n + b |
| `NthChild.QuerySimple` | sources/meta-altera/recipes-bitmianer/lighttpd/lighttpd-1.0/www/js/jquery-1.10.2.js:2069-2092 | the filters :first-*, :last-* and :only-* hold exactly for elements at position 1 from the first child, from the last, or from both |
| `NthChild.Alone` | sources/meta-altera/recipes-bitmianer/lighttpd/lighttpd-1.0/www/js/jquery-1.10.2.js:2080-2087 | the walk to one side finds no counted sibling exactly when none is counted there |
| `CallbackList.CallbackList.constructor` | sources/meta-altera/recipes-bitmianer/lighttpd/lighttpd-1.0/www/js/jquery-1.10.2.js:3023-3038 | a new list is the empty one, with a stack only when it may fire repeatedly |
| `CallbackList.CallbackList.Fire` | sources/meta-altera/recipes-bitmianer/lighttpd/lighttpd-1.0/www/js/jquery-1.10.2.js:3040-3052 | firing sets memory, indexes and length and hands the first callback out, as the reference step says |
| `CallbackList.CallbackList.LoopHead` | sources/meta-altera/recipes-bitmianer/lighttpd/lighttpd-1.0/www/js/jquery-1.10.2.js:3047-3065 | the head of the firing loop and what follows it: next callback, queued firing, emptied or disabled list |
| `CallbackList.CallbackList.Returned` | sources/meta-altera/recipes-bitmianer/lighttpd/lighttpd-1.0/www/js/jquery-1.10.2.js:3047-3052 | what happens when a callback returns, possibly after re-entrant calls |
| `CallbackList.CallbackList.AddFns` | sources/meta-altera/recipes-bitmianer/lighttpd/lighttpd-1.0/www/js/jquery-1.10.2.js:3069-3098 | adding appends in order, and joins the running batch or fires with the remembered data |
| `CallbackList.CallbackList.RemoveFn` | sources/meta-altera/recipes-bitmianer/lighttpd/lighttpd-1.0/www/js/jquery-1.10.2.js:3100-3119 | removing by repeated search and splice removes every occurrence and moves both indexes by what was taken before them |
| `CallbackList.CallbackList.FireWithData` | sources/meta-altera/recipes-bitmianer/lighttpd/lighttpd-1.0/www/js/jquery-1.10.2.js:3153-3164 | a locked or fired once-list ignores it, a firing one queues it, otherwise it fires |
| `Callbacks.WithoutSplit` | sources/meta-altera/recipes-bitmianer/lighttpd/lighttpd-1.0/www/js/jquery-1.10.2.js:3104-3115 | removal acts on the part already called and the part still to come separately, which is why nothing is skipped or repeated |
| `Callbacks.OneFiring` | sources/meta-altera/recipes-bitmianer/lighttpd/lighttpd-1.0/www/js/jquery-1.10.2.js:3040-3062 | for all four combinations of `once` and `memory`: a firing of a list at rest calls every callback once, in order, with its data; then a `once` list is disabled, or empty and remembering if it has memory, and any other list is as before, with or without memory of the data |
| `Callbacks.AddedLater` | sources/meta-altera/recipes-bitmianer/lighttpd/lighttpd-1.0/www/js/jquery-1.10.2.js:3068-3099 | adding to a list at rest calls the new callbacks at once, in order, with the remembered data, if there is a memory, and nothing otherwise |
| `Callbacks.NoMemory` | sources/meta-altera/recipes-bitmianer/lighttpd/lighttpd-1.0/www/js/jquery-1.10.2.js:3041-3041 | over any run a list without the memory option remembers nothing, so the row above never calls |
| `Callbacks.LockedForGood` | sources/meta-altera/recipes-bitmianer/lighttpd/lighttpd-1.0/www/js/jquery-1.10.2.js:3140-3164 | after `lock`, over any run that follows, firing makes no call and changes nothing, unless a list that has never fired is emptied |
| `Callbacks.DisabledForGood` | sources/meta-altera/recipes-bitmianer/lighttpd/lighttpd-1.0/www/js/jquery-1.10.2.js:3131-3139 | a disabled list makes no call over any run that follows, unless it is emptied before it has ever fired or while it is firing |
| `Callbacks.EmptyRevives` | sources/meta-altera/recipes-bitmianer/lighttpd/lighttpd-1.0/www/js/jquery-1.10.2.js:3126-3130 | in the first of those cases it does come back: emptied, added to and fired, it calls |
| `Callbacks.EmptyRevivesFiring` | sources/meta-altera/recipes-bitmianer/lighttpd/lighttpd-1.0/www/js/jquery-1.10.2.js:3126-3130 | in the second case too: the running loop goes on with what is added after the emptying |
| `OnceMemory.ListKeepsLedger` | sources/meta-altera/recipes-bitmianer/lighttpd/lighttpd-1.0/www/js/jquery-1.10.2.js:3040-3164 | over every run of a `once memory` list (adding, removing, firing, emptying, disabling, locking, also from running callbacks) the list makes exactly the calls of a ledger of additions, at the same moments |
| `OnceMemory.StepLinked` | sources/meta-altera/recipes-bitmianer/lighttpd/lighttpd-1.0/www/js/jquery-1.10.2.js:3040-3164 | each operation keeps list and ledger in step: the list is what the running batch has passed and then exactly what still waits, and firingIndex stands behind the passed part |
| `OnceMemory.RemoveLinked` | sources/meta-altera/recipes-bitmianer/lighttpd/lighttpd-1.0/www/js/jquery-1.10.2.js:3100-3119 | a removal, also one made by a running callback, strikes exactly the waiting entries of that callback |
| `OnceMemory.EmptyLinked` | sources/meta-altera/recipes-bitmianer/lighttpd/lighttpd-1.0/www/js/jquery-1.10.2.js:3126-3130 | emptying strikes everything that waits; what the running batch had passed becomes the number of later additions it steps over |
| `OnceMemory.OnceMemoryPromise` | sources/meta-altera/recipes-bitmianer/lighttpd/lighttpd-1.0/www/js/jquery-1.10.2.js:3040-3177 | over every run the calls are exactly the called additions, each once, in order of addition, with the data of the first firing; an addition is dropped exactly when an event after it and before its turn removes its callback or empties the list, or when it is added within the stretch an emptied batch steps over; at rest on a fired, live list nothing else is left waiting |
| `OnceMemory.EmptyLosesAdditions` | sources/meta-altera/recipes-bitmianer/lighttpd/lighttpd-1.0/www/js/jquery-1.10.2.js:3126-3130 | after any run that is inside a callback, `empty` loses exactly the first firingIndex + 1 callbacks added next |
| `OnceMemory.FatesStay` | sources/meta-altera/recipes-bitmianer/lighttpd/lighttpd-1.0/www/js/jquery-1.10.2.js:3040-3164 | what has been called, removed or lost stays so however the run goes on, so a lost callback is never called |
| `OnceMemory.NothingLost` | sources/meta-altera/recipes-bitmianer/lighttpd/lighttpd-1.0/www/js/jquery-1.10.2.js:3126-3130 | if the list is only ever emptied while no callback it holds is running, nothing is lost |
| `OnceMemory.EverythingCalled` | sources/meta-altera/recipes-bitmianer/lighttpd/lighttpd-1.0/www/js/jquery-1.10.2.js:3040-3177 | in a run without removals and emptying, once at rest on a fired, live list, the calls are all additions in order with the first firing's data |
| `OnceMemory.FateCauses` | sources/meta-altera/recipes-bitmianer/lighttpd/lighttpd-1.0/www/js/jquery-1.10.2.js:3100-3130 | an addition is removed exactly when some event strikes it while it waits, and lost exactly when it is added within the stretch to be stepped over |
| `DeferredProof.SettlesOnce` | sources/meta-altera/recipes-bitmianer/lighttpd/lighttpd-1.0/www/js/jquery-1.10.2.js:3180-3265 | over any run, re-entrant calls included: the state is that of the first resolve or reject, the losing list calls nothing, the winning list calls every callback added to it once, in order, with the settling arguments |
| `DeferredProof.FirstSettles` | sources/meta-altera/recipes-bitmianer/lighttpd/lighttpd-1.0/www/js/jquery-1.10.2.js:3180-3265 | by index: if the first resolve or reject of a run is resolve number k, the deferred is resolved, the done callbacks are called in order with the arguments of that very call, and no fail callback is; the same the other way round; without either nothing is called |
| `DeferredProof.SettledIsFinal` | sources/meta-altera/recipes-bitmianer/lighttpd/lighttpd-1.0/www/js/jquery-1.10.2.js:3247-3252 | after settling, resolve, reject and notify change nothing at all |
| `DeferredProof.LeavesPendingOnce` | sources/meta-altera/recipes-bitmianer/lighttpd/lighttpd-1.0/www/js/jquery-1.10.2.js:3237-3245 | the state never changes again once it has left pending |
| `DeferredProof.RunLinked` | sources/meta-altera/recipes-bitmianer/lighttpd/lighttpd-1.0/www/js/jquery-1.10.2.js:3180-3265 | every reachable state is linked to the history: which list won, how far it has got, that the other is silent and progress locked |
| `DeferredProof.ActionLinked` | sources/meta-altera/recipes-bitmianer/lighttpd/lighttpd-1.0/www/js/jquery-1.10.2.js:3230-3253 | every single operation keeps that link |
| `DeferredProof.BuiltInsRun` | sources/meta-altera/recipes-bitmianer/lighttpd/lighttpd-1.0/www/js/jquery-1.10.2.js:3237-3245 | the three built-in callbacks set the state, disable the other list and lock the progress list before any user callback runs |
| `Announcements.AnnouncementPromise` | sources/meta-altera/recipes-bitmianer/lighttpd/lighttpd-1.0/www/js/jquery-1.10.2.js:3040-3164 | over every run of a repeatable list with memory (adding, firing, locking, also from running callbacks) the calls are those of the firings asked for, one firing after the other in that order; each calls, in order of addition, at least the callbacks added before it was asked for and those its predecessors called; at rest the last has reached everybody and, unless locked, all have been made |
| `Announcements.EventInStep` | sources/meta-altera/recipes-bitmianer/lighttpd/lighttpd-1.0/www/js/jquery-1.10.2.js:3068-3157 | every operation keeps the list in step with its batches: what is queued is exactly what has been asked for and not begun |
| `Announcements.TurnInStep` | sources/meta-altera/recipes-bitmianer/lighttpd/lighttpd-1.0/www/js/jquery-1.10.2.js:3040-3062 | the firing loop calls the next callback, begins the next queued firing, or comes to rest with everybody called |
| `Notices.NotifyPromise` | sources/meta-altera/recipes-bitmianer/lighttpd/lighttpd-1.0/www/js/jquery-1.10.2.js:3180-3265 | the same for the progress callbacks of a deferred over every run: notifications made before the settlement are delivered one after the other, in order, to every callback, with the arguments of the notify call |
| `Notices.ActionFollows` | sources/meta-altera/recipes-bitmianer/lighttpd/lighttpd-1.0/www/js/jquery-1.10.2.js:3227-3254 | whatever is done to a deferred is exactly one operation on its progress list, or none; the first resolve or reject locks it |
| `DeferredProof.LaterFiresIgnored` | sources/meta-altera/recipes-bitmianer/lighttpd/lighttpd-1.0/www/js/jquery-1.10.2.js:3153-3164 | a settled deferred ignores later firings of any of its lists |
| `When.When.constructor` | sources/meta-altera/recipes-bitmianer/lighttpd/lighttpd-1.0/www/js/jquery-1.10.2.js:3268-3317 | attaching to any mix of plain values, pending and settled deferreds leaves the count equal to the arguments still open and settles the master at once if none is or one has failed, then with the first failure in argument order |
| `When.When.Attach` | sources/meta-altera/recipes-bitmianer/lighttpd/lighttpd-1.0/www/js/jquery-1.10.2.js:3299-3308 | one argument: a plain value counts down, a deferred that has settled or reported progress calls back during the attaching |
| `When.When.AttachAll` | sources/meta-altera/recipes-bitmianer/lighttpd/lighttpd-1.0/www/js/jquery-1.10.2.js:3295-3309 | the loop over the arguments leaves the bookkeeping consistent, whatever calls back meanwhile |
| `When.When.Finish` | sources/meta-altera/recipes-bitmianer/lighttpd/lighttpd-1.0/www/js/jquery-1.10.2.js:3311-3314 | with nothing left to wait for the master is resolved |
| `When.When.Succeeded` | sources/meta-altera/recipes-bitmianer/lighttpd/lighttpd-1.0/www/js/jquery-1.10.2.js:3280-3290 | a resolution fills its own slot and counts down; the last one resolves the master with all values |
| `When.When.Failed` | sources/meta-altera/recipes-bitmianer/lighttpd/lighttpd-1.0/www/js/jquery-1.10.2.js:3303-3303 | a rejection rejects the master; only the first one counts |
| `When.When.Progressed` | sources/meta-altera/recipes-bitmianer/lighttpd/lighttpd-1.0/www/js/jquery-1.10.2.js:3280-3285 | a progress report, also one during attaching, fills its slot, notifies the master with all slots and leaves the settlement alone |
| `When.When.MasterFollows` | sources/meta-altera/recipes-bitmianer/lighttpd/lighttpd-1.0/www/js/jquery-1.10.2.js:3268-3317 | after every run of these steps the master is resolved exactly when all arguments are, with the values in argument order, and rejected exactly when one was, with the first rejection, the count then never being zero |
| `WhenDeferreds.ToldOnce` | sources/meta-altera/recipes-bitmianer/lighttpd/lighttpd-1.0/www/js/jquery-1.10.2.js:3277-3304 | over any run of a deferred that carries the listeners of `when`, at most one call ever tells `when` that a given argument has ended |
| `WhenDeferreds.Act` | sources/meta-altera/recipes-bitmianer/lighttpd/lighttpd-1.0/www/js/jquery-1.10.2.js:3277-3304 | one action on a deferred leads to at most one call, and what `when` hears of each argument agrees with what the deferred has delivered for it |
| `WhenDeferreds.DeliveredIsSettled` | sources/meta-altera/recipes-bitmianer/lighttpd/lighttpd-1.0/www/js/jquery-1.10.2.js:3301-3304 | what is delivered for an argument is how its deferred has settled, and once none of the callbacks is running it has been delivered |
| `WhenDeferreds.HookCalls` | sources/meta-altera/recipes-bitmianer/lighttpd/lighttpd-1.0/www/js/jquery-1.10.2.js:3301-3304 | adding a listener calls at most that listener, and its return calls nothing more |
| `WhenDeferreds.CalledWasAdded` | sources/meta-altera/recipes-bitmianer/lighttpd/lighttpd-1.0/www/js/jquery-1.10.2.js:3068-3094 | every callback a deferred calls, progress callbacks included, was added to the list that calls it |
| `WhenDeferreds.Gathering.constructor` | sources/meta-altera/recipes-bitmianer/lighttpd/lighttpd-1.0/www/js/jquery-1.10.2.js:3268-3317 | attaching to real deferreds in any state, the same one several times if given so, leaves the closure knowing exactly what their calls have told; a rejection met while attaching is the first in argument order |
| `WhenDeferreds.Gathering.Happens` | sources/meta-altera/recipes-bitmianer/lighttpd/lighttpd-1.0/www/js/jquery-1.10.2.js:3277-3304 | any action at a deferred, its callbacks' returns included, keeps closure and deferreds in agreement; the first rejection to be heard is kept for good |
| `WhenDeferreds.Gathering.MasterFollowsDeferreds` | sources/meta-altera/recipes-bitmianer/lighttpd/lighttpd-1.0/www/js/jquery-1.10.2.js:3268-3317 | when no callback is running, the master has resolved exactly when all deferreds have, with their values in argument order, and rejected exactly when one of them has, with the first rejection that arrived |
| `JsonAccepts.HexReads` | sources/meta-altera/recipes-bitmianer/d-ddos/d-ddos-1.0/d-ddos/cjson.c:175-217 | each of the sixteen hexadecimal digits, in either case, is read as its value |
| `JsonAccepts.QuadReads` | sources/meta-altera/recipes-bitmianer/d-ddos/d-ddos-1.0/d-ddos/cjson.c:175-217 | four digits in any mixture of cases are read most significant first |
| `JsonAccepts.BytesAre` | sources/meta-altera/recipes-bitmianer/d-ddos/d-ddos-1.0/d-ddos/cjson.c:286-309 | a scalar value becomes the bytes of the table in section 3 of RFC 3629 |
| `JsonAccepts.UnitOfPiece` | sources/meta-altera/recipes-bitmianer/d-ddos/d-ddos-1.0/d-ddos/cjson.c:244-316 | each way in which section 7 of RFC 8259 lets a character be written (as it is, with a letter, with its number, as a surrogate pair) is decoded to its bytes |
| `JsonAccepts.StringReads` | sources/meta-altera/recipes-bitmianer/d-ddos/d-ddos-1.0/d-ddos/cjson.c:221-324 | every string of section 7 of RFC 8259, except for U+0000 and unpaired surrogates, is read as its meaning, through its closing quote |
| `JsonAccepts.NumberReads` | sources/meta-altera/recipes-bitmianer/d-ddos/d-ddos-1.0/d-ddos/cjson.c:110-147 | every number of section 6 of RFC 8259, with fraction and exponent in all their forms, is read as its exact value |
| `JsonAccepts.EntriesRead` | sources/meta-altera/recipes-bitmianer/d-ddos/d-ddos-1.0/d-ddos/cjson.c:539-577 | the items of every array, with any white space between the tokens, are read in order through the closing bracket |
| `JsonAccepts.PairsRead` | sources/meta-altera/recipes-bitmianer/d-ddos/d-ddos-1.0/d-ddos/cjson.c:658-716 | the members of every object likewise |
| `JsonAccepts.DocReads` | sources/meta-altera/recipes-bitmianer/d-ddos/d-ddos-1.0/d-ddos/cjson.c:464-503 | parse_value reads every value of the grammar of RFC 8259, wherever it stands, as its meaning and stops right behind it |
| `JsonAccepts.TextReads` | sources/meta-altera/recipes-bitmianer/d-ddos/d-ddos-1.0/d-ddos/cjson.c:417-446 | every JSON text, with white space before and behind it, is accepted with its meaning, whether or not the text must end there |
| `JsonRefuses.FirstDecides` | sources/meta-altera/recipes-bitmianer/d-ddos/d-ddos-1.0/d-ddos/cjson.c:464-503 | the first visible character decides the kind of value, in both directions, and where no value can start parsing fails right there |
| `JsonRefuses.TrailingText` | sources/meta-altera/recipes-bitmianer/d-ddos/d-ddos-1.0/d-ddos/cjson.c:429-441 | anything visible behind a JSON text is refused exactly where it starts if the text must end there, and ignored otherwise |
| `JsonRefuses.BrokenArray` | sources/meta-altera/recipes-bitmianer/d-ddos/d-ddos-1.0/d-ddos/cjson.c:539-577 | an array that is cut off behind a complete item, or goes on with anything but a comma or its bracket, is refused exactly there, whatever its items are |
| `JsonRefuses.MissingColon` | sources/meta-altera/recipes-bitmianer/d-ddos/d-ddos-1.0/d-ddos/cjson.c:675-684 | a name that no colon follows is refused exactly there |
| `JsonPrinted.PrintIs` | sources/meta-altera/recipes-bitmianer/d-ddos/d-ddos-1.0/d-ddos/cjson.c:506-832 | every print, formatted or not, at any depth, is a text of the grammar of RFC 8259 that means the printed value |
| `JsonPrinted.PieceIs` | sources/meta-altera/recipes-bitmianer/d-ddos/d-ddos-1.0/d-ddos/cjson.c:352-389 | each character is written as the grammar allows it: as it is, with its letter, or with its number |
| `JsonPrinted.EscapesAreSafe` | sources/meta-altera/recipes-bitmianer/d-ddos/d-ddos-1.0/d-ddos/cjson.c:352-389 | in an escaped string every character is above 31, every quotation mark stands behind an odd run of backslashes, and every backslash behind an even run starts an escape of section 7 of RFC 8259 |
| `JsonPrinted.PrintVisible` | sources/meta-altera/recipes-bitmianer/d-ddos/d-ddos-1.0/d-ddos/cjson.c:506-832 | an unformatted print contains no character below 32 |
| `JsonPrinted.LayoutExample` | sources/meta-altera/recipes-bitmianer/d-ddos/d-ddos-1.0/d-ddos/cjson.c:818-832 | the tabs, newlines and blanks of a formatted object in an array in an object, and of empty objects |
| `JsonRoundTrip.ParsePrinted` | sources/meta-altera/recipes-bitmianer/d-ddos/d-ddos-1.0/d-ddos/cjson.c:464-832 | at any place in any text, parsing a printed value yields the value and stops right behind it, for every tree, depth and format, numbers needing a continuation that cannot extend them |
| `JsonRoundTrip.RoundTrip` | sources/meta-altera/recipes-bitmianer/d-ddos/d-ddos-1.0/d-ddos/cjson.c:417-446 | cJSON_ParseWithOpts on a printed value followed by anything returns the value and the end of the print |
| `JsonRoundTrip.RoundTripWhole` | sources/meta-altera/recipes-bitmianer/d-ddos/d-ddos-1.0/d-ddos/cjson.c:432-441 | a whole print passes the null-terminated parse |
| `JsonRoundTrip.PrintInjective` | sources/meta-altera/recipes-bitmianer/d-ddos/d-ddos-1.0/d-ddos/cjson.c:506-832 | different values never print alike, even across the two formats |
| `JsonRoundTrip.ParseInteger` | sources/meta-altera/recipes-bitmianer/d-ddos/d-ddos-1.0/d-ddos/cjson.c:110-173 | reading what "%d" wrote gives the integer back |
| `JsonRoundTrip.StringOfQuote` | sources/meta-altera/recipes-bitmianer/d-ddos/d-ddos-1.0/d-ddos/cjson.c:221-393 | parsing a quoted string gives the string back, for every C string |
| `JsonRoundTrip.UnitOfEscape` | sources/meta-altera/recipes-bitmianer/d-ddos/d-ddos-1.0/d-ddos/cjson.c:246-389 | every escape the printer writes is decoded to the character it was written for |
| `Minify.MinifyInPlace` | sources/meta-altera/recipes-bitmianer/d-ddos/d-ddos-1.0/d-ddos/cjson.c:1165-1202 | in one buffer, with the write position never past the read position, the text becomes its minified form and nothing behind the terminator changes; the read position passes the terminator exactly when a string or block comment is not closed |
| `Minify.Round` | sources/meta-altera/recipes-bitmianer/d-ddos/d-ddos-1.0/d-ddos/cjson.c:1168-1199 | each round of the loop consumes a space, comment, string or plain character and writes exactly what the specification keeps of it, or passes the terminator where the specification has nothing |
| `Minify.CopyString` | sources/meta-altera/recipes-bitmianer/d-ddos/d-ddos-1.0/d-ddos/cjson.c:1187-1197 | string literals are copied whole, escaped quotes included; an unclosed one takes the terminator along |
| `Minify.SkipLine` | sources/meta-altera/recipes-bitmianer/d-ddos/d-ddos-1.0/d-ddos/cjson.c:1178-1180 | the loop stops where the line ends |
| `Minify.SkipComment` | sources/meta-altera/recipes-bitmianer/d-ddos/d-ddos-1.0/d-ddos/cjson.c:1181-1186 | the loop ends behind the closing mark, for an unclosed comment behind the terminator |
| `Minify.LineEndIsFirst` | sources/meta-altera/recipes-bitmianer/d-ddos/d-ddos-1.0/d-ddos/cjson.c:1178-1180 | that line end is the first newline, or the end of the text if there is none |
| `Minify.CommentEndIsFirst` | sources/meta-altera/recipes-bitmianer/d-ddos/d-ddos-1.0/d-ddos/cjson.c:1181-1186 | that closing mark is the first one from the opening on, and it is missing only if there is none |
| `Minify.CommentSkipped` | sources/meta-altera/recipes-bitmianer/d-ddos/d-ddos-1.0/d-ddos/cjson.c:1181-1186 | a block comment is skipped as a whole exactly unless its inside starts with a slash, because the search starts at the opening mark, whose star then counts |
| `Minify.ClosesEarly` | sources/meta-altera/recipes-bitmianer/d-ddos/d-ddos-1.0/d-ddos/cjson.c:1181-1186 | such a comment, and what is left of it |
| `Minify.MinDoc` | sources/meta-altera/recipes-bitmianer/d-ddos/d-ddos-1.0/d-ddos/cjson.c:1165-1202 | wherever a value of the grammar stands, with white space and comments of both kinds between its tokens, minifying leaves the same value with nothing between them, strings and numbers untouched |
| `Minify.CompactOk` | sources/meta-altera/recipes-bitmianer/d-ddos/d-ddos-1.0/d-ddos/cjson.c:1165-1202 | what is left is JSON proper with the same meaning |
| `Minify.MinifyText` | sources/meta-altera/recipes-bitmianer/d-ddos/d-ddos-1.0/d-ddos/cjson.c:1165-1202 | the same for a whole text with white space and comments before and behind the value |
| `Minify.MinifyPrint` | sources/meta-altera/recipes-bitmianer/d-ddos/d-ddos-1.0/d-ddos/cjson.c:1165-1202 | minifying the formatted or unformatted print of any tree, at any depth, gives byte for byte the unformatted print at depth 0 |
| `Minify.MinPrinted` | sources/meta-altera/recipes-bitmianer/d-ddos/d-ddos-1.0/d-ddos/cjson.c:1165-1202 | the same inside any larger text |
| `Minify.MinifyKeepsMeaning` | sources/meta-altera/recipes-bitmianer/d-ddos/d-ddos-1.0/d-ddos/cjson.c:1165-1202 | so minifying any JSON text with comments yields a text that parses to what the commented one stands for |
| `JsonString.ParseStringBuffer` | sources/meta-altera/recipes-bitmianer/d-ddos/d-ddos-1.0/d-ddos/cjson.c:221-324 | the first pass asks for exactly the counted length and one more byte; the second writes the decoded string and its terminator into that and stops behind the closing quote |
| `JsonString.FirstPass` | sources/meta-altera/recipes-bitmianer/d-ddos/d-ddos-1.0/d-ddos/cjson.c:234-236 | the counting loop counts each escape pair once |
| `JsonString.BodyFits` | sources/meta-altera/recipes-bitmianer/d-ddos/d-ddos-1.0/d-ddos/cjson.c:234-238 | the decoded bytes never exceed the first pass's length |
| `JsonString.DecodeUnit` | sources/meta-altera/recipes-bitmianer/d-ddos/d-ddos-1.0/d-ddos/cjson.c:246-316 | one plain character, simple escape, code unit or surrogate pair is consumed and its bytes are appended |
| `JsonString.DecodeCode` | sources/meta-altera/recipes-bitmianer/d-ddos/d-ddos-1.0/d-ddos/cjson.c:268-310 | the `u` case: lone low surrogates and zero yield nothing, a pair is joined, and the cursor stops at the last digit read |
| `JsonString.SecondPass` | sources/meta-altera/recipes-bitmianer/d-ddos/d-ddos-1.0/d-ddos/cjson.c:243-317 | the second pass writes exactly the decoded text and ends at the end of the body |
| `JsonString.WriteUtf8` | sources/meta-altera/recipes-bitmianer/d-ddos/d-ddos-1.0/d-ddos/cjson.c:286-309 | the bytes made backwards by masks, shifts and marks are the UTF-8 encoding of the word's number; other bytes are untouched |
| `JsonString.Utf8RoundTrip` | sources/meta-altera/recipes-bitmianer/d-ddos/d-ddos-1.0/d-ddos/cjson.c:286-309 | decoding an encoding by section 3 of RFC 3629 gives the scalar value and length back, for every scalar below 0x110000 |
| `JsonString.ContinuationBits` | sources/meta-altera/recipes-bitmianer/d-ddos/d-ddos-1.0/d-ddos/cjson.c:297-305 | or-ing 0x80, masking with 0xBF and cutting to a byte makes the continuation byte of the number, and the shift divides it by 64 |
| `JsonString.LeadBits` | sources/meta-altera/recipes-bitmianer/d-ddos/d-ddos-1.0/d-ddos/cjson.c:306-307 | or-ing the first byte mark makes the lead byte that the encoding asks for |
| `JsonString.PairBits` | sources/meta-altera/recipes-bitmianer/d-ddos/d-ddos-1.0/d-ddos/cjson.c:275-283 | the bit formula for a surrogate pair is that of section 2.2 of RFC 2781 |
| `JsonString.SurrogateBits` | sources/meta-altera/recipes-bitmianer/d-ddos/d-ddos-1.0/d-ddos/cjson.c:272-281 | the range tests on the 32-bit word are those on its number |
| `JsonString.ParseHex4` | sources/meta-altera/recipes-bitmianer/d-ddos/d-ddos-1.0/d-ddos/cjson.c:175-217 | four hex digits, shifted in one by one, make the word of the code unit |
| `JsonString.BodyDecodes` | sources/meta-altera/recipes-bitmianer/d-ddos/d-ddos-1.0/d-ddos/cjson.c:244-317 | a string body is a sequence of plain bytes and 16-bit codes, and its value is what those stand for |
| `JsonString.DecodedIsStandard` | sources/meta-altera/recipes-bitmianer/d-ddos/d-ddos-1.0/d-ddos/cjson.c:268-284 | the result is the standard one (simple escapes, UTF-8 of scalars and pairs, U+0000 and unpaired surrogates dropped) exactly when no unpaired high surrogate is directly followed by an escape that stands for something |
| `JsonString.Losses` | sources/meta-altera/recipes-bitmianer/d-ddos/d-ddos-1.0/d-ddos/cjson.c:268-284 | what the code yields is the standard result with something left out, and less than it unless the condition of the row above holds |
| `JsonString.SwallowedLetter` | sources/meta-altera/recipes-bitmianer/d-ddos/d-ddos-1.0/d-ddos/cjson.c:275-284 | a text where a letter disappears behind an unpaired high surrogate |
| `JsonString.BodyCloses` | sources/meta-altera/recipes-bitmianer/d-ddos/d-ddos-1.0/d-ddos/cjson.c:244-318 | a string body ends at the closing quote that ends the literal, exactly when there is one, and otherwise at the end of the text |
| `JsonString.TokenCloses` | sources/meta-altera/recipes-bitmianer/d-ddos/d-ddos-1.0/d-ddos/cjson.c:229-323 | a string token is read up to and including its closing quote if it has one, and is accepted up to the end of the text if it has none |
| `JsonString.ItemsClose` | sources/meta-altera/recipes-bitmianer/d-ddos/d-ddos-1.0/d-ddos/cjson.c:539-577 | in an array that parses, every string token has its closing quote, in all items and however deeply nested |
| `JsonString.MembersClose` | sources/meta-altera/recipes-bitmianer/d-ddos/d-ddos-1.0/d-ddos/cjson.c:658-716 | in an object that parses, every name and every string token has its closing quote, in all members and however deeply nested |
| `JsonString.TextCloses` | sources/meta-altera/recipes-bitmianer/d-ddos/d-ddos-1.0/d-ddos/cjson.c:409-437 | a text is accepted without one of its closing quotes exactly when it is a single string that the end of the text cuts off |
| `JsonString.CutOffAccepted` | sources/meta-altera/recipes-bitmianer/d-ddos/d-ddos-1.0/d-ddos/cjson.c:318-323 | a text that is accepted although it breaks off inside its string |
| `JsonString.PrintStringPtr` | sources/meta-altera/recipes-bitmianer/d-ddos/d-ddos-1.0/d-ddos/cjson.c:327-393 | both passes of the string printer agree: the buffer holds exactly the quoted text and its terminator, or memory has run out |
| `JsonString.WriteEscape` | sources/meta-altera/recipes-bitmianer/d-ddos/d-ddos-1.0/d-ddos/cjson.c:353-389 | one character is written in its shortest escaped form |
| `JsonPrint.StrDup` | sources/meta-altera/recipes-bitmianer/d-ddos/d-ddos-1.0/d-ddos/cjson.c:57-67 | a copy of exactly the needed size, or null with nothing allocated |
| `JsonPrint.PrintNumber` | sources/meta-altera/recipes-bitmianer/d-ddos/d-ddos-1.0/d-ddos/cjson.c:150-159 | every 32-bit integer fits the 21 bytes allotted |
| `JsonPrint.CollectItems` | sources/meta-altera/recipes-bitmianer/d-ddos/d-ddos-1.0/d-ddos/cjson.c:604-615 | the measuring pass of an array yields the entries' texts and a length computed from their lengths, and stops at the first entry that fails; in either case exactly the strings in the table have been allocated |
| `JsonPrint.ItemsFit` | sources/meta-altera/recipes-bitmianer/d-ddos/d-ddos-1.0/d-ddos/cjson.c:604-654 | the composed array text never exceeds that length |
| `JsonPrint.PrintArray` | sources/meta-altera/recipes-bitmianer/d-ddos/d-ddos-1.0/d-ddos/cjson.c:580-655 | the buffer, of the measured size, holds the array's text, terminator included; entries and table are given back, and if any allocation fails so is everything else |
| `JsonPrint.CollectMembers` | sources/meta-altera/recipes-bitmianer/d-ddos/d-ddos-1.0/d-ddos/cjson.c:760-774 | the measuring pass of an object yields names, entries and a length computed from them, and goes on after a failure; in either case exactly the strings in the two tables have been allocated |
| `JsonPrint.MembersFit` | sources/meta-altera/recipes-bitmianer/d-ddos/d-ddos-1.0/d-ddos/cjson.c:760-831 | the composed object text never exceeds that length |
| `JsonPrint.PutMembers` | sources/meta-altera/recipes-bitmianer/d-ddos/d-ddos-1.0/d-ddos/cjson.c:803-822 | members are composed one behind the other, inside the buffer, and names and entries given back on the way, each once |
| `JsonPrint.PrintObject` | sources/meta-altera/recipes-bitmianer/d-ddos/d-ddos-1.0/d-ddos/cjson.c:719-832 | the buffer, of the measured size, holds the object's text, terminator included; names, entries and tables are given back, and if any allocation fails so is everything else |
| `JsonPrint.EmptyObject` | sources/meta-altera/recipes-bitmianer/d-ddos/d-ddos-1.0/d-ddos/cjson.c:730-746 | the special case of an object without members |
| `JsonPrint.PrintValue` | sources/meta-altera/recipes-bitmianer/d-ddos/d-ddos-1.0/d-ddos/cjson.c:506-536 | printing any tree, at any depth and in both formats, fills its buffers with exactly the specified text, never writes past them and leaves nothing but the text allocated; it gives null only if an allocation fails, and then nothing is left allocated |
| `JsonPrint.FinishArray` | sources/meta-altera/recipes-bitmianer/d-ddos/d-ddos-1.0/d-ddos/cjson.c:617-655 | the failure path of the array printer frees exactly the entries made so far, the success path composes from all of them |
| `JsonPrint.FinishObject` | sources/meta-altera/recipes-bitmianer/d-ddos/d-ddos-1.0/d-ddos/cjson.c:776-832 | the failure path of the object printer frees exactly the names and entries made so far, the success path composes from all of them |
| `JsonBuffers.FreeAll` | sources/meta-altera/recipes-bitmianer/d-ddos/d-ddos-1.0/d-ddos/cjson.c:624-632 | freeing the table's non-null entries gives back each string once and nothing else |
| `JsonBuffers.FreeBoth` | sources/meta-altera/recipes-bitmianer/d-ddos/d-ddos-1.0/d-ddos/cjson.c:783-795 | the same for names and entries side by side |
| `JsonBuffers.SlotFilled` | sources/meta-altera/recipes-bitmianer/d-ddos/d-ddos-1.0/d-ddos/cjson.c:607-615 | storing a new string, or null, in an empty slot keeps the table in step with what is allocated |
| `JsonHeap.Delete` | sources/meta-altera/recipes-bitmianer/d-ddos/d-ddos-1.0/d-ddos/cjson.c:92-107 | frees every node and owned string of a structure exactly once, and nothing reached through a reference |
| `JsonHeap.FreeNode` | sources/meta-altera/recipes-bitmianer/d-ddos/d-ddos-1.0/d-ddos/cjson.c:100-105 | a node's strings, unless a reference's value, and the node itself |
| `JsonHeap.Heap.NewItem` | sources/meta-altera/recipes-bitmianer/d-ddos/d-ddos-1.0/d-ddos/cjson.c:83-89 | a zeroed node, or null when memory runs out |
| `JsonHeap.Heap.NewChars` | sources/meta-altera/recipes-bitmianer/d-ddos/d-ddos-1.0/d-ddos/cjson.c:52-67 | a buffer of the size asked for, or null when memory runs out |
| `JsonTree.SuffixObject` | sources/meta-altera/recipes-bitmianer/d-ddos/d-ddos-1.0/d-ddos/cjson.c:859-863 | two well-linked chains become one well-linked chain |
| `JsonTree.ConcatOwns` | sources/meta-altera/recipes-bitmianer/d-ddos/d-ddos-1.0/d-ddos/cjson.c:859-863 | linking the ends is all that concatenation needs: prev and next stay mutually inverse everywhere |
| `JsonTree.SplitOwns` | sources/meta-altera/recipes-bitmianer/d-ddos/d-ddos-1.0/d-ddos/cjson.c:911-944 | a well-linked chain can be cut at any node |
| `JsonDuplicate.CopyFields` | sources/meta-altera/recipes-bitmianer/d-ddos/d-ddos-1.0/d-ddos/cjson.c:1113-1136 | type, numbers and strings are copied into fresh memory, the reference flag is cleared; if memory runs out all of it is given back |
| `JsonDuplicate.Duplicate` | sources/meta-altera/recipes-bitmianer/d-ddos/d-ddos-1.0/d-ddos/cjson.c:1106-1163 | the copy says what the original says, owns exactly the memory allocated for it, is well linked with null outer links and contains no reference; on failure nothing stays allocated, and failure happens only when an allocation fails |
| `JsonDuplicate.CopyChildren` | sources/meta-altera/recipes-bitmianer/d-ddos/d-ddos-1.0/d-ddos/cjson.c:1140-1161 | the children are copied in order and hung below the copy, partial chains included |
| `JsonDuplicate.OwnedViews` | sources/meta-altera/recipes-bitmianer/d-ddos/d-ddos-1.0/d-ddos/cjson.c:1106-1163 | every well-linked structure without references can be duplicated as it stands |
| `JsonHeapParse.ParseNumber` | sources/meta-altera/recipes-bitmianer/d-ddos/d-ddos-1.0/d-ddos/cjson.c:110-147 | the digit loops compute mantissa and exponent of the specified number and stop behind it |
| `JsonHeapParse.SkipSpace` | sources/meta-altera/recipes-bitmianer/d-ddos/d-ddos-1.0/d-ddos/cjson.c:409-414 | stops at the first character above space |
| `JsonHeapParse.ParseString` | sources/meta-altera/recipes-bitmianer/d-ddos/d-ddos-1.0/d-ddos/cjson.c:221-324 | fills the item with a new string holding the bytes the two passes produce, which are the decoded token, or sets the error position, or runs out of memory; nothing else is allocated |
| `JsonHeapParse.ParseValue` | sources/meta-altera/recipes-bitmianer/d-ddos/d-ddos-1.0/d-ddos/cjson.c:464-503 | filling a node from a text succeeds, fails or runs out of memory as the parser on texts says, the node then represents the parsed value, and in every case all that was allocated hangs below the node |
| `JsonHeapParse.ParseContainer` | sources/meta-altera/recipes-bitmianer/d-ddos/d-ddos-1.0/d-ddos/cjson.c:539-716 | arrays and objects: the children represent the entries in order, every child being linked before it is parsed |
| `JsonHeapParse.NextEntry` | sources/meta-altera/recipes-bitmianer/d-ddos/d-ddos-1.0/d-ddos/cjson.c:560-571 | one more entry: link, parse, and the chain is owned whole again, complete or not |
| `JsonHeapParse.Advance` | sources/meta-altera/recipes-bitmianer/d-ddos/d-ddos-1.0/d-ddos/cjson.c:560-571 | one round of the loop consumes one entry of what the recursive grammar reads |
| `JsonHeapParse.ParseWithOpts` | sources/meta-altera/recipes-bitmianer/d-ddos/d-ddos-1.0/d-ddos/cjson.c:417-446 | on success the caller owns exactly the tree of the parsed value; on failure everything allocated on the way has been freed exactly once and the error position is the parser's, unset only when memory ran out |
| `JsonHeapParse.ImageInjective` | sources/meta-altera/recipes-bitmianer/d-ddos/d-ddos-1.0/d-ddos/cjson.c:464-716 | the nodes determine the value: different values are represented by different node data |
| `JsonHeapParse.ReadImage` | sources/meta-altera/recipes-bitmianer/d-ddos/d-ddos-1.0/d-ddos/cjson.c:464-716 | read by their type tags, the nodes say exactly the value that was parsed |
| `JsonList.SurgeryNodes` | sources/meta-altera/recipes-bitmianer/d-ddos/d-ddos-1.0/d-ddos/cjson.c:911-963 | detaching is removal at the index, replacing is update at the index, on the sequence of nodes |
| `JsonList.Links` | sources/meta-altera/recipes-bitmianer/d-ddos/d-ddos-1.0/d-ddos/cjson.c:859-863 | along a well-linked chain next and prev are mutually inverse, the head's prev and the last next are null |
| `JsonList.GetArraySize` | sources/meta-altera/recipes-bitmianer/d-ddos/d-ddos-1.0/d-ddos/cjson.c:835-842 | the length of the sequence |
| `JsonList.GetArrayItem` | sources/meta-altera/recipes-bitmianer/d-ddos/d-ddos-1.0/d-ddos/cjson.c:843-849 | the element at the index, the first for a negative index, null behind the end |
| `JsonList.StrCaseCmp` | sources/meta-altera/recipes-bitmianer/d-ddos/d-ddos-1.0/d-ddos/cjson.c:42-52 | 0 exactly for names that differ at most in the case of ASCII letters; a missing name equals none |
| `JsonList.Folds` | sources/meta-altera/recipes-bitmianer/d-ddos/d-ddos-1.0/d-ddos/cjson.c:42-52 | two characters are taken for the same exactly if they are equal or the capital and the small form of one of the 26 letters |
| `JsonList.GetObjectItem` | sources/meta-altera/recipes-bitmianer/d-ddos/d-ddos-1.0/d-ddos/cjson.c:850-856 | the first child with that name |
| `JsonList.FindIs` | sources/meta-altera/recipes-bitmianer/d-ddos/d-ddos-1.0/d-ddos/cjson.c:850-856 | the position found is the first one that matches |
| `JsonList.AddItemToArray` | sources/meta-altera/recipes-bitmianer/d-ddos/d-ddos-1.0/d-ddos/cjson.c:878-892 | the item goes behind the last child, for every chain, the empty one included; a null item changes nothing |
| `JsonList.AddItemToObject` | sources/meta-altera/recipes-bitmianer/d-ddos/d-ddos-1.0/d-ddos/cjson.c:893-901 | the old name is freed, the new one copied, and the item appended |
| `JsonList.CreateReference` | sources/meta-altera/recipes-bitmianer/d-ddos/d-ddos-1.0/d-ddos/cjson.c:865-875 | a reference node shares children and value of the original but owns only itself, so deleting it frees nothing else |
| `JsonList.DetachItemFromArray` | sources/meta-altera/recipes-bitmianer/d-ddos/d-ddos-1.0/d-ddos/cjson.c:911-926 | the node at the index leaves the chain, the rest is well linked, and the node's own links are cleared, so it owns nothing of its former siblings |
| `JsonList.DeleteItemFromArray` | sources/meta-altera/recipes-bitmianer/d-ddos/d-ddos-1.0/d-ddos/cjson.c:927-930 | frees exactly what the node at the index owns; without such a node nothing happens |
| `JsonList.DetachItemFromObject` | sources/meta-altera/recipes-bitmianer/d-ddos/d-ddos-1.0/d-ddos/cjson.c:931-940 | detaches the same node that cJSON_GetObjectItem finds |
| `JsonList.ReplaceItemInArray` | sources/meta-altera/recipes-bitmianer/d-ddos/d-ddos-1.0/d-ddos/cjson.c:947-964 | the new node takes the place of the old one, which is freed with all it owns; without such a node nothing happens |
| `JsonList.ReplaceItemInObject` | sources/meta-altera/recipes-bitmianer/d-ddos/d-ddos-1.0/d-ddos/cjson.c:965-976 | the same by name; a name the new node already had stays allocated and belongs to nobody |
| `JsonList.Unlink` | sources/meta-altera/recipes-bitmianer/d-ddos/d-ddos-1.0/d-ddos/cjson.c:918-924 | the neighbours of a node, or its parent, are linked past it |
| `JsonList.Substitute` | sources/meta-altera/recipes-bitmianer/d-ddos/d-ddos-1.0/d-ddos/cjson.c:954-961 | a node takes over the links of another |
| `RevQueue.SqQueue.constructor` | sources/meta-altera/recipes-bitmianer/minermonitor/minermonitor-1.0/minermonitor/rev_queue.c:5-22 | an empty queue of nine slots |
| `RevQueue.SqQueue.ClearQueue` | sources/meta-altera/recipes-bitmianer/minermonitor/minermonitor-1.0/minermonitor/rev_queue.c:35-39 | the queue is empty |
| `RevQueue.SqQueue.QueueEmpty` | sources/meta-altera/recipes-bitmianer/minermonitor/minermonitor-1.0/minermonitor/rev_queue.c:41-47 | whether nothing is queued |
| `RevQueue.SqQueue.QueueLength` | sources/meta-altera/recipes-bitmianer/minermonitor/minermonitor-1.0/minermonitor/rev_queue.c:50-53 | the number of queued elements |
| `RevQueue.SqQueue.GetHead` | sources/meta-altera/recipes-bitmianer/minermonitor/minermonitor-1.0/minermonitor/rev_queue.c:56-64 | the oldest element, which stays |
| `RevQueue.SqQueue.EnQueue` | sources/meta-altera/recipes-bitmianer/minermonitor/minermonitor-1.0/minermonitor/rev_queue.c:67-74 | appends unless eight elements are queued |
| `RevQueue.SqQueue.DeQueue` | sources/meta-altera/recipes-bitmianer/minermonitor/minermonitor-1.0/minermonitor/rev_queue.c:77-84 | takes the oldest element unless there is none |
| `RevQueue.SqQueue.QueueTraverse` | sources/meta-altera/recipes-bitmianer/minermonitor/minermonitor-1.0/minermonitor/rev_queue.c:87-98 | visits the queued elements in order |
| `RevQueue.SqQueue.FulQueue` | sources/meta-altera/recipes-bitmianer/minermonitor/minermonitor-1.0/minermonitor/rev_queue.c:105-111 | 0 exactly when the queue is full |
| `RevQueue.Appended` | sources/meta-altera/recipes-bitmianer/minermonitor/minermonitor-1.0/minermonitor/rev_queue.c:71-73 | writing the rear slot and moving the rear appends to the contents, wrap-around included |
| `RevQueue.Removed` | sources/meta-altera/recipes-bitmianer/minermonitor/minermonitor-1.0/minermonitor/rev_queue.c:81-83 | moving the front drops the first of the contents |
| `RevQueue.RearIsFree` | sources/meta-altera/recipes-bitmianer/minermonitor/minermonitor-1.0/minermonitor/rev_queue.c:67-73 | writing the rear slot alone changes nothing of the contents |
| `QueueClient.ProduceKeeps` | sources/meta-altera/recipes-bitmianer/minermonitor/minermonitor-1.0/minermonitor/client.c:273-304 | every single read or write of the receiving thread keeps the invariant, byte-wise copying included |
| `QueueClient.ConsumeKeeps` | sources/meta-altera/recipes-bitmianer/minermonitor/minermonitor-1.0/minermonitor/client.c:447-519 | so does every single step of the main loop |
| `QueueClient.RunKeeps` | sources/meta-altera/recipes-bitmianer/minermonitor/minermonitor-1.0/minermonitor/client.c:273-519 | the invariant holds over every interleaving |
| `QueueClient.FirstInFirstOut` | sources/meta-altera/recipes-bitmianer/minermonitor/minermonitor-1.0/minermonitor/client.c:456-488 | in every such state what was taken from a queue is a prefix of what was routed to it, at most eight packages wait, and the slots being written and read differ |
| `QueueClient.EveryRun` | sources/meta-altera/recipes-bitmianer/minermonitor/minermonitor-1.0/minermonitor/client.c:273-304 | from the initial state over every interleaving in which the queues are not cleared under a running DeQueue: first in first out on both queues, occupancy at most eight, and EnQueue never fails after the double guard |
| `QueueClient.RoutedInOrder` | sources/meta-altera/recipes-bitmianer/minermonitor/minermonitor-1.0/minermonitor/client.c:277-297 | from any state over every run without a broken connection: of the packages that arrive while the thread waits for one, those whose command starts with f are routed to the response queue and all others to the command queue, each in the order of arrival |
| `QueueClient.TakenInOrder` | sources/meta-altera/recipes-bitmianer/minermonitor/minermonitor-1.0/minermonitor/client.c:273-519 | so from the start the main loop takes as commands a prefix of the packages without the f and as responses a prefix of those with it, and at most eight of either are still to come |
| `QueueClient.NeverMixed` | sources/meta-altera/recipes-bitmianer/minermonitor/minermonitor-1.0/minermonitor/client.c:273-519 | even over runs with broken connections no response is taken as a command and no command as a response |
| `QueueClient.OneResponseEach` | sources/meta-altera/recipes-bitmianer/minermonitor/minermonitor-1.0/minermonitor/client.c:447-519 | over every run the main loop deals with each command it takes, once, and takes at most one response for each command that was carried out and none for the others |
| `QueueClient.GoesOnWhenQueued` | sources/meta-altera/recipes-bitmianer/minermonitor/minermonitor-1.0/minermonitor/client.c:456-490 | each test of the main loop looks at its own queue: it goes on exactly when something is queued there, the wait for a response also on a time-out |
| `QueueClient.NeverOverwritten` | sources/meta-altera/recipes-bitmianer/minermonitor/minermonitor-1.0/minermonitor/rev_queue.c:67-84 | no step of the receiving thread touches the slot that is being read |
| `QueueClient.ClearUnderDequeue` | sources/meta-altera/recipes-bitmianer/minermonitor/minermonitor-1.0/minermonitor/rev_queue.c:35-39 | the condition is exact: from every reachable state with a DeQueue in progress, clearing makes the main loop take a package that is not queued and the queue then claims to hold eight |
| `QueueClient.ClearIsReachable` | sources/meta-altera/recipes-bitmianer/minermonitor/minermonitor-1.0/minermonitor/client.c:273-304 | from the start, one command package is enough to have the receiving thread wait for the next package while the main loop is inside DeQueue |
| `QueueClient.BrokenRun` | sources/meta-altera/recipes-bitmianer/minermonitor/minermonitor-1.0/minermonitor/rev_queue.c:35-39 | so for every command package there is a run from the start, with a single clear in it, that takes a package which is not queued |
| `Crc16.HighTable` | sources/meta-altera/recipes-bitmianer/test-btn/test-btn-1.0/test-hash.c:21-45 | every entry of the high byte table is the low half of the byte's remainder |
| `Crc16.LowTable` | sources/meta-altera/recipes-bitmianer/test-btn/test-btn-1.0/test-hash.c:47-71 | every entry of the low byte table is the high half of the byte's remainder |
| `Crc16.ClosedIsEight` | sources/meta-altera/recipes-bitmianer/test-btn/test-btn-1.0/test-hash.c:21-71 | eight steps of bitwise division of a byte, in closed form |
| `Crc16.TableStep` | sources/meta-altera/recipes-bitmianer/test-btn/test-btn-1.0/test-hash.c:78-82 | one lookup in both tables does eight steps of the reflected 0xA001 division |
| `Crc16.Crc16` | sources/meta-altera/recipes-bitmianer/test-btn/test-btn-1.0/test-hash.c:72-84 | the table-driven loop computes the bit-by-bit CRC of section 6.2.2 of MODBUS over Serial Line V1.02 from 0xFFFF, for every message |
| `Crc16.CheckValue` | sources/meta-altera/recipes-bitmianer/test-btn/test-btn-1.0/test-hash.c:72-84 | the digits 1 to 9 have the published CRC 0x4B37 |
| `Crc16.CrcSplit` | sources/meta-altera/recipes-bitmianer/test-btn/test-btn-1.0/test-hash.c:72-84 | the register after a concatenation is that of the second part started from the first's |
| `Crc16.EightInjective` | sources/meta-altera/recipes-bitmianer/test-btn/test-btn-1.0/test-hash.c:72-84 | eight steps of the division can be undone |
| `Crc16.Residue` | sources/meta-altera/recipes-bitmianer/test-btn/test-btn-1.0/test-hash.c:104-110 | a message with two check bytes leaves residue 0 exactly when they are its CRC, low byte first |
| `Crc16.BurstDetected` | sources/meta-altera/recipes-bitmianer/test-btn/test-btn-1.0/test-hash.c:72-84 | messages of equal length that differ only inside two adjacent bytes have different CRCs, from any start value |
| `StatusFrame.WordsFit` | sources/meta-altera/recipes-bitmianer/test-btn/test-btn-1.0/test-hash.c:117-126 | a bitmap has as few words as hold its chips, at least one and at most the eight of a row |
| `StatusFrame.CopyRun` | sources/meta-altera/recipes-bitmianer/test-btn/test-btn-1.0/test-hash.c:116-129 | the loop copies one bitmap per chain into its row; the 16-bit index never wraps and ends behind the run |
| `StatusFrame.CopyBoth` | sources/meta-altera/recipes-bitmianer/test-btn/test-btn-1.0/test-hash.c:116-143 | after both loops the rows hold the second run of bitmaps |
| `StatusFrame.Check` | sources/meta-altera/recipes-bitmianer/test-btn/test-btn-1.0/test-hash.c:95-110 | the checks of type, length and CRC |
| `StatusFrame.ParseStatusData` | sources/meta-altera/recipes-bitmianer/test-btn/test-btn-1.0/test-hash.c:85-157 | accepts exactly the frames whose checks pass and whose parts add up, and fills the struct with counts, the second run of bitmaps, temperatures and fans |
| `StatusFrame.FrameTiles` | sources/meta-altera/recipes-bitmianer/test-btn/test-btn-1.0/test-hash.c:85-157 | an accepted frame of at most 16 chains, with any number of temperatures and fans, is header, two runs of bitmaps of max(1, ceil(n/32)) words per chain, counts, temperatures, fans and CRC, without gap or overlap |
| `StatusFrame.Layout` | sources/meta-altera/recipes-bitmianer/test-btn/test-btn-1.0/test-hash.c:112-149 | the chip counts found from the end of an accepted frame of at most 16 chains are those found from the front |
| `StatusFrame.EncodedAccepted` | sources/meta-altera/recipes-bitmianer/test-btn/test-btn-1.0/test-hash.c:85-157 | conversely every frame of at most 16 chains laid out that way is accepted and cut into the parts it was made from |
| `StatusFrame.FieldsRead` | sources/meta-altera/recipes-bitmianer/test-btn/test-btn-1.0/test-hash.h:28-46 | what the parser takes from bytes 0, 2 and 3, 5, 12 and 13 are type, length, number of chains, fans and temperatures of the struct, laid out field by field in its order |
| `StatusFrame.FieldsAccepted` | sources/meta-altera/recipes-bitmianer/test-btn/test-btn-1.0/test-hash.c:85-157 | a frame made from the fields of the struct and parts that fit them is accepted and cut into these parts |
| `StatusFrame.ParsedFrame` | sources/meta-altera/recipes-bitmianer/test-btn/test-btn-1.0/test-hash.c:116-157 | of such a frame chain_asic_exist ends up with the status bitmaps, so a row begins with its own bitmap exactly when the two bitmaps are equal, and chain_asic_status with nothing |
| `Crc32.MakeCrc32Table` | sources/meta-altera/recipes-bitmianer/d-ddos/d-ddos-1.0/d-ddos/main.c:36-58 | the nested loops fill the table with the remainder of every byte value |
| `Crc32.EightShifts` | sources/meta-altera/recipes-bitmianer/d-ddos/d-ddos-1.0/d-ddos/main.c:43-54 | eight rounds of the inner loop are eight steps of the division |
| `Crc32.TableStep` | sources/meta-altera/recipes-bitmianer/d-ddos/d-ddos-1.0/d-ddos/main.c:63-63 | one table lookup does eight steps of the reflected 0xEDB88320 division |
| `Crc32.MakeCrc` | sources/meta-altera/recipes-bitmianer/d-ddos/d-ddos-1.0/d-ddos/main.c:60-65 | with that table, make_crc is the bit-by-bit division (polynomial of section 3.2.9 of IEEE 802.3, no final complement) for every start value and string |
| `Crc32.CheckValue` | sources/meta-altera/recipes-bitmianer/d-ddos/d-ddos-1.0/d-ddos/main.c:36-65 | the digits 1 to 9 leave 0x340BC6D9, the complement of the published check value 0xCBF43926 |
| `Crc32.CrcSplit` | sources/meta-altera/recipes-bitmianer/d-ddos/d-ddos-1.0/d-ddos/main.c:60-65 | it can be computed piece by piece |
| `Crc32.EightLinear` | sources/meta-altera/recipes-bitmianer/d-ddos/d-ddos-1.0/d-ddos/main.c:43-54 | the division is linear |
| `Crc32.CrcPack` | sources/meta-altera/recipes-bitmianer/d-ddos/d-ddos-1.0/d-ddos/main.c:60-65 | feeding up to four bytes is adding their word and shifting it through |
| `Crc32.BurstDetected` | sources/meta-altera/recipes-bitmianer/d-ddos/d-ddos-1.0/d-ddos/main.c:60-65 | strings of equal length that differ only inside four adjacent bytes have different CRCs, from any start value |
| `CommandParser.PiecesJoin` | sources/meta-altera/recipes-bitmianer/d-ddos/d-ddos-1.0/d-ddos/main.c:183-206 | the pieces of a command text contain no separator and join to the text |
| `CommandParser.LastPiece` | sources/meta-altera/recipes-bitmianer/d-ddos/d-ddos-1.0/d-ddos/main.c:187-189 | cutting at the last separator splits off the last piece |
| `CommandParser.StrRChr` | sources/meta-altera/recipes-bitmianer/d-ddos/d-ddos-1.0/d-ddos/main.c:187-187 | finds the last separator of the string at the start of the buffer |
| `CommandParser.Execution` | sources/meta-altera/recipes-bitmianer/d-ddos/d-ddos-1.0/d-ddos/main.c:142-182 | it gives exactly the orders of its command, in that order, and answers as they do; nothing in front of the command is written |
| `CommandParser.UpdateCommand` | sources/meta-altera/recipes-bitmianer/d-ddos/d-ddos-1.0/d-ddos/main.c:147-168 | the command 00, a path without a number sign, a number sign and an address: the address is fetched to the path, then the path is started exactly if that succeeded, and the answer is true exactly if both did |
| `CommandParser.RestartCommand` | sources/meta-altera/recipes-bitmianer/d-ddos/d-ddos-1.0/d-ddos/main.c:169-180 | the command 03 with anything behind it gives the one order to restart everything, whose answer it returns |
| `CommandParser.OtherCommand` | sources/meta-altera/recipes-bitmianer/d-ddos/d-ddos-1.0/d-ddos/main.c:147-182 | every other command gives no order and fails, an update without a number sign included |
| `CommandParser.CutCommand` | sources/meta-altera/recipes-bitmianer/d-ddos/d-ddos-1.0/d-ddos/main.c:151-154 | the NUL at the path separator leaves path and address as two strings |
| `CommandParser.CutLast` | sources/meta-altera/recipes-bitmianer/d-ddos/d-ddos-1.0/d-ddos/main.c:187-197 | one round: the text loses its last separator and what follows, which is executed |
| `CommandParser.CommandParser` | sources/meta-altera/recipes-bitmianer/d-ddos/d-ddos-1.0/d-ddos/main.c:183-206 | in place, every command is executed exactly once, last one first, whatever the others answered, and gives its orders in that order; the result is true exactly when all succeeded |
| `CommandParser.OneCommand` | sources/meta-altera/recipes-bitmianer/d-ddos/d-ddos-1.0/d-ddos/main.c:198-204 | the orders of a text without a bar are those of the one command it is |
| `CommandParser.OrdersOf` | sources/meta-altera/recipes-bitmianer/d-ddos/d-ddos-1.0/d-ddos/main.c:187-204 | the orders of a text a, a bar and a last command b are those of b followed by those of a |

## Left out

- Nested `:not` and `:has` matchers, positional filters and set matchers, nested runs of superMatcher, and tokenising: the chains are those of combinators and pure filters.
- The `expando` entries of elements that leave the document: a run works on one tree.
- `unique` and `stopOnFalse` lists, callbacks that throw, `has`, and argument lists that are flattened on adding.
- Announcements.AnnouncementPromise: covers runs without removing, emptying and disabling, which a deferred never does to its progress list, and does not say how many of the callbacks added during a firing that firing still calls when another one is queued behind it.
- WhenDeferreds.Gathering.constructor: a single deferred argument is excluded as in `When`.
- `Deferred.then`, `pipe` and the conversion of arguments: they only wrap the operations modelled here.
- DeferredProof.SettlesOnce: says nothing about the calls of the progress list; `Notices.NotifyPromise` does.
- When.When.constructor: a single deferred argument is excluded, because `when` then returns that deferred's own promise instead of building a master.
- Json.Print: numbers are 32-bit integers; the "%f" and "%e" branches of the printer are left out.
- JsonAccepts.StringReads: the code for U+0000 and unpaired surrogates are excluded, which the parser drops; `JsonString.DecodedIsStandard` covers them.
- JsonParse.ParseNumber: the value is exact; rounding to a double, and `valueint` beside the exact value, are left out.
- JsonParse.ParseValue: texts with a backslash at their end, or a `\u` without four hexadecimal digits behind it, are told apart (`Truncated`) but nothing is stated about them, because there the C code may step over the closing quote or the end of its input.
- Minify.MinifyInPlace: the model stops where the read position passes the terminator; what the C code then reads and writes is not modelled.
- `malloc` hooks, the `cJSON_Create` functions, and adding references in one call, which is `CreateReference` followed by adding.
- QueueClient.EveryRun: clearing the queues is one atomic step, and packages still queued then count as given up.
- Sockets, sleeps, signals and the time-out of the main loop, which is a free choice of the model.
- StatusFrame.ParseStatusData: checked frames with more than 16 chains or with chip counts outside the frame, and accepted frames with more than 16 temperatures or fans, are excluded from the parser, because the C code then copies past the struct or the frame; the tiling lemmas cover any number of temperatures and fans. The report that is written afterwards is left out.
- CommandParser.Execution: the shell is a parameter that answers the orders it is given; the script name that is cut out of the path for the start order is left out.
- The server loop around the CRC-32, which compares it with a number sent as text.
