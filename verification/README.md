# The flow engine of flow_manager, verified

flow_manager runs call-center *schemas*: JSON programs made of applications, `if`, `switch`, `while`, `break`,
`goto` tags and dispatch limits. A `Flow` parses a schema into a tree of nodes, keeps a cursor in that tree, and
`Route` hands one request after another to its application until the requests are used up, a break is met, or
the context is done. This project models that engine, the LRU cache and the schema lookup that feed it, and the
JSON string escaper, and proves what they promise for all schemas, all worlds and all histories of use.

Everything the outside world decides about a dispatched request is one `Reply`: the truth of a condition, the
text that a `switch` looks at, a jump, a cancellation, and whether the context was done before the handler came
back. An `Oracle` is any function from the history of dispatched requests to a `Reply`, so "for every oracle"
covers every script engine, every application and every connection.

## How it is laid out

| file | content |
|---|---|
| `Common`, `Schema`, `World` | options and tables; schemas as syntax; events, replies and oracles |
| `Tree`, `Parsing` | the node tree with its parents, tags, loops and limiters; parsing is well formed and mirrors the schema |
| `Machine`, `Termination` | the cursor, the handlers and one round of `Route`; every run ends, within an explicit bound |
| `Semantics`, `Simulation` | a structured semantics without cursor or tree; `Route` means exactly that |
| `Jumps`, `Likeness`, `Interruption`, `Repetition`, `Steps`, `Witnesses`, `Life`, `Limits`, `Rerun`, `Calls` | properties of tags, of repeated requests, of single rounds, of limiters, of whole lives, of runs that follow each other, of nested flows |
| `FlowObject`, `CallHandlers`, `Timer` | the class `Flow`, the calling applications and the timer, as imperative code proved against the functions above |
| `Lru`, `LruTheorems`, `LruObject`, `SchemaCache` | the cache with lazy purging beside one that clears eagerly, its class, and the schema lookup over it |
| `JsonText`, `JsonCharacters`, `JsonTheorems`, `JsonRoundTrip`, `JsonReading` | the chunk-copying escaper, what it makes of characters, and what its output reads as |
| `Requests` | one JSON object read as a request, in any order of its keys |

Nodes are indices into a table and a request is addressed by its node and its place, so "the same request" is
equality of addresses, as it is equality of pointers in the source. The pure functions of `Tree`, `Machine` and
`Termination` are the specification; the methods of `FlowObject.Flow` carry out the same steps on fields that
are updated in place and are proved equal to them, so every theorem about the functions holds of the class.

## Findings

- Repeating an interrupted request is not always transparent. `Repetition.RepeatsAlikeExactlyIf` gives the exact
  condition under which the flow taken up dispatches the request again and does with it what it would have done,
  whatever the handler comes back with: the attempt that was cut off has not used up the request's limiter, has
  spent no step of a loop with requests in its body, and has made no jump that shows. `Witnesses` has a reachable
  flow for each case: `LastDispatchIsLost`, `SpentStepShows` and `MovedNodeShows`. If no such step was spent and no
  jump has moved a node, all that a whole run loses is a dispatch of the limiter and a jump
  (`Interruption.InterruptionIsTransparent`).
- A run of a flow that was cancelled from outside dispatches nothing, but steps over the request it would have
  dispatched; a later run goes on behind it (`Steps.CancelledIsSilent`).
- A lookup by id is always current if and only if an id and a time of update determine the version
  (`SchemaCache.CurrentExactlyIfDetermined`). A lookup by version can hand out a schema of another domain; it stays
  in its domain if and only if all versions of that id and time of update do (`SchemaCache.OwnDomainExactlyIf`).
- The order in which the keys of a JSON object are visited matters exactly for objects with two or more keys
  that name an application (`Requests.OrderMattersExactlyIfAmbiguous`).
- The output of `JsonString` cannot always stand between quotes: a quote behind an escaped backslash comes out
  bare (`JsonReading.BareQuote`), and a backslash at the end swallows the closing quote
  (`JsonReading.TrailingBackslash`). It can if and only if every backslash of the source has something to escape
  and no other quote stands right behind one (`JsonReading.ReadableExactlyIfPaired`). It reads as the source if
  and only if the source has no backslash (`JsonReading.ReadsBackExactlyWithoutBackslash`).
- `Reset` rewinds only the node the cursor is in. After a run that broke inside a block, the next run of a timer
  starts in that block (`Timer.SecondRunStartsInside`, `Rerun.ResetStartsHere`). As long as no run stops, every run
  starts at the start, and the timer iterates the schema (`Timer.TimerIteratesSchema`).

## Model

| member | source | states |
|---|---|---|
| `Simulation.RouteMeansSchema` | flow/handler.go:29-98 | for every schema without limits, every oracle that does not jump and every point of a flow's life at which it stands at the start, the requests that `Route` dispatches are those of a structured semantics in which `while` is a do-while with a step budget that persists; it ends cancelled exactly if that semantics stops, and otherwise back at the start with the same loop counters |
| `Termination.RunBound` | flow/handler.go:38-98 | every run of every parsed schema, with any jumps, limits, loops and branches and from any state, ends, having dispatched at most 1002 * (all loop steps + 1) * (requests ahead + 1) requests |
| `Termination.TurnLowers` | flow/flow.go:278-297 | each round that goes on lowers the triple of jumps left, loop steps left and work left along the chain of parents |
| `Termination.RoundsExtend` | flow/handler.go:38-98 | a run only adds to the history of dispatched requests |
| `Parsing.CompileWellFormed` | flow/flow.go:339-388 | the tree parsed from any schema mirrors it request by request and is well formed: parents precede their blocks, `idx` is the place of the statement that owns the block, tags point at a request carrying that tag, and a `while` knows the request before it |
| `Limits.LimitersAreOwn` | flow/flow.go:415-418 | in every parsed schema, requests at two different places have the same limiter if and only if they are the two places of one `while`: where it was written and the end of its body |
| `Limits.RefusedExactlyAfterMax` | flow/handler.go:49-59 | over the whole life of any parsed flow a limiter stands at the number of dispatches of its own request, which is refused if and only if that number has reached `max` |
| `Parsing.ParseIfMirrors` | flow/if.go:33-55 | the two blocks of an `if` are parsed under the place at which the `if` will stand, `then` first |
| `Parsing.ParseWhileMirrors` | flow/while.go:27-59 | the body of a `while` is its statements followed by the `while` itself, with the request before it recorded |
| `Parsing.ParseCasesMirrors` | flow/switch.go:21-49 | each case of a `switch` becomes a block of its own under the place of the `switch` |
| `Life.BudgetsLastALifetime` | flow/while.go:74-84 | over any sequence of runs, jumps, repeats, resets and cleared cancel flags: the state stays well formed, each loop enters its body at most `maxSteps` times, at most 1001 jumps succeed (so an int16 holds the count), and requests sharing a limiter are dispatched at most `max` times |
| `Life.NothingIsGivenBack` | flow/flow.go:191-228 | no operation on a flow gives back jumps, loop steps or dispatches of a limiter, or forgets a dispatch |
| `Life.ExactlySoManyJumps` | flow/flow.go:278-297 | of any number of jumps to a tag exactly the first 1001 succeed |
| `Life.TurnThrifty` | flow/handler.go:49-59 | one round keeps the accounting: a limiter's count is the number of its dispatches and a loop's counter covers the times its body was entered |
| `Machine.Next` | flow/flow.go:230-267 | from every well-formed state, looking for the next request ends, stays well formed and yields a request that exists, so no child is read out of range |
| `Jumps.NextFinds` | flow/flow.go:230-267 | the next request is the one at the position of the innermost node around the cursor that is not used up; that node moves on by one, the nodes left are rewound, all others stay; if all are used up there is none and all are rewound |
| `Machine.NextAdvances` | flow/flow.go:244-253 | after a request is found the cursor stands right behind it and the previous request is the sibling before it; if there is none, the cursor is at the start of the root |
| `Jumps.LoopKnowsItsCaller` | flow/while.go:49-72 | in every reachable state the test of a loop with a body is true exactly if the loop is reached where it was written, by fall-through, outer loop or jump, and false at the end of its own body |
| `Jumps.LastRegistrationWins` | flow/flow.go:269-276 | the tag table holds, for each tag, the last request in parsing order that carries it, where a statement comes after the blocks nested in it |
| `Jumps.JumpReachesTag` | flow/flow.go:278-297 | after a successful jump the next request is the one registered for the tag, at any depth |
| `Jumps.CompletesUntouched` | flow/node.go:15-20 | exactly the nodes on the way up that stand at 0, with nothing but such nodes below them, are taken to their ends |
| `Jumps.JumpPositions` | flow/flow.go:284-295 | the position of every node of the tree after a jump |
| `Jumps.JumpHolds` | flow/flow.go:288-291 | right after a jump into a nested block its parent stands behind the statement that holds the block |
| `Jumps.BlockIsLeftForItsSibling` | flow/flow.go:278-297 | for as long as there is no other jump, the run is still in that block or has left it for the sibling right after the statement that holds it; the request of the round in which the run ends is still in the block, or that sibling was looked for |
| `Interruption.RepeatMeansInterrupted` | flow/flow.go:311-331 | `true` means that the next request is the interrupted one and has one of the names; `false` changes nothing; the mark is gone either way |
| `Steps.RepeatSucceedsExactlyIf` | flow/flow.go:319-326 | the answer is `true` if and only if a request is marked, has one of the names, and the cursor stands right behind it |
| `Steps.CutRepeatsExactlyIf` | flow/handler.go:63-67 | for every cut and every set of names: the request can be repeated if and only if it has one of the names and the cut left the cursor behind it |
| `Steps.PlainCutRepeats` | flow/handler.go:63-67 | a cut whose handler did not run, or ran as a plain application and did not jump, can be repeated if and only if the request has one of the names |
| `Steps.MarkedExactlyIfCut` | flow/handler.go:36-67 | whatever was marked before, a run leaves a mark if and only if its last dispatch was cut off |
| `Steps.CancelledIsSilent` | flow/handler.go:38-47 | a cancelled flow dispatches nothing and stays cancelled, but its run steps over the next request |
| `Interruption.InterruptionIsTransparent` | flow/handler.go:36-67 | unless a step of a loop with requests in its body was spent or a jump has moved a node, the flow taken up dispatches, in the same world, what the uninterrupted run would have dispatched with one dispatch of the request's limiter and, if the attempt jumped, one jump less; with neither, exactly that; the interrupted request comes first unless its limiter is used up |
| `Likeness.RoundsAlike` | flow/while.go:74-97 | loops that have no requests in their body or no steps left make no difference to what a run dispatches, whatever their counts, and neither does being in an empty block or having left it |
| `Interruption.TakenUpBudget` | flow/flow.go:305-331 | the flow taken up has the same loop steps, limiter dispatches and jumps left if and only if the attempt that was cut off had spent none |
| `Repetition.RepeatsAlikeExactlyIf` | flow/handler.go:49-67 | for every cut-off request, with or without limiter, loop or jump: the flow taken up dispatches it in its next round and then stands, goes on or stops as the flow before the cut would have, whatever the handler comes back with, if and only if its limiter is not used up, no step of a loop with requests in its body was spent and no jump was made that shows |
| `Repetition.LostStepShows` | flow/while.go:74-84 | the answer that shows a lost step in the next round: false if the loop has steps left, true if the lost one was its last |
| `Repetition.SpentLoopGoesRound` | flow/while.go:74-84 | in its next round a loop that lost a step is not dispatched if its limiter is used up; otherwise it goes round again whatever its condition says if it has steps left, and stays out whatever its condition says if it has none |
| `Repetition.LimitStops` | flow/handler.go:49-55 | a request over its limit is not dispatched |
| `Steps.LimitDecides` | flow/handler.go:49-56 | over whole runs: at a request over its limit, if the failover is no tag or the jumps are used up the run is over and nothing more is dispatched; otherwise the next request looked for is the one the failover's tag names |
| `Steps.JumpDecides` | flow/goto.go:10-19 | an application told to jump: with such a tag and jumps left the next request is the one the tag names, otherwise the run goes on behind the application |
| `Steps.LoopGoesRoundExactlyIf` | flow/while.go:70-97 | wherever it is reached from, a loop with requests in its body enters it if and only if it has steps left and is reached where it was written, is not under way, or its condition is true; otherwise it is passed over |
| `Steps.FreshLoopGoesRound` | flow/while.go:77-79 | a loop that never ran goes round whatever its condition says, even when a jump led into its body |
| `Jumps.JumpStays` | flow/flow.go:284-295 | a jump to where the cursor stands changes no position if and only if the parent stands behind the block's statement and the node above is the root or under way |
| `Witnesses.SpentStepShows` | flow/while.go:74-84 | a schema and a reachable state in which the flow taken up dispatches more than the uninterrupted run |
| `Witnesses.LastDispatchIsLost` | flow/handler.go:49-64 | a request that may be dispatched once is not dispatched at all after its only dispatch was cut off |
| `Witnesses.MovedNodeShows` | flow/flow.go:288-291 | a schema and a reachable state in which a jump that was cut off and repeated has moved a node and shows |
| `Interruption.RoundsRebased` | flow/handler.go:38-98 | a run depends on earlier dispatches only through the world's answers |
| `Rerun.RunEndsAtStart` | flow/flow.go:230-267 | a run that was not cancelled ends at the root's start, unless an exhausted limit without a reachable failover holds it up |
| `Rerun.RerunRepeats` | flow/flow.go:221-267 | a flow without loops, limits and jumps, run again in the same world, dispatches the same requests again |
| `Rerun.ResetLeadsToStart` | flow/flow.go:221-228 | a reset flow is at its start if and only if the cursor is in the root; only the position of the cursor's node and the cancel flag change |
| `Rerun.ResetStartsHere` | flow/flow.go:221-228 | otherwise the next run starts with the first request of the block the cursor is in |
| `Timer.SecondRunStartsInside` | flow/timer.go:40-50 | a schema whose second run dispatches only the break that ended the first one inside a block |
| `Timer.TimerIteratesSchema` | flow/timer.go:36-52 | as long as no run stops, the runs of a timer over a schema without limits and jumps dispatch what the structured semantics of the schema dispatches, iterated with the loop budgets that are left |
| `Calls.RoundsEnd` | flow/handler.go:61-96 | a request that breaks, cancels or is cut off is the last one its run dispatches, and leaves the flow cancelled |
| `Calls.BreakStopsEverything` | flow/handler.go:44-96 | a break at any depth of synchronous calls is the last request that any flow on the call stack dispatches, apart from what the breaking request itself calls; the outermost flow ends up cancelled |
| `Calls.CallBreaks` | flow/execute.go:27-36 | a break anywhere in a call cancels the caller |
| `CallHandlers.CallFlow` | flow/schema.go:26-35 | the caller is cancelled exactly if it was or the forked flow's run ends cancelled; nothing else of it changes |
| `CallHandlers.Execute` | flow/execute.go:13-39 | an empty or unknown function name is an error and calls nothing; otherwise the caller is cancelled exactly if it was or the forked run ends cancelled, for an asynchronous call only if that run is over when the flag is read |
| `CallHandlers.CallSchema` | flow/schema.go:13-38 | a schema that is not found is an error and calls nothing; a synchronous call passes on the cancellation, an asynchronous one never does |
| `CallHandlers.CallList` | flow/list.go:26-62 | missing actions or a failed lookup is an error; the actions are called only if the number is listed |
| `Timer.Timer` | flow/timer.go:19-53 | with interval 0 nothing runs; otherwise the forked flow runs exactly the least number of times after which the tries are used up (999 for 0), the next pause would be below 1, or the context is done while it waits; it is reset between runs |
| `FlowObject.Flow.constructor` | flow/flow.go:61-93 | a new or forked flow holds the tree parsed from its schema, in the initial state |
| `FlowObject.Flow.ParseFlowArray` | flow/flow.go:339-388 | the loop over the applications, with its recursion into nested blocks, builds the specified tree in place |
| `FlowObject.Flow.NewWhileArgs` | flow/while.go:27-59 | the body and the self-request of a `while`, built in place |
| `FlowObject.Flow.NewSwitchArgs` | flow/switch.go:21-49 | the blocks of a `switch`, built in place by a loop over the cases |
| `FlowObject.Flow.NextRequest` | flow/flow.go:230-267 | the cursor moves in place as specified |
| `FlowObject.Flow.CompleteTreeTraversal` | flow/node.go:15-20 | positions on the way up are updated in place as specified |
| `FlowObject.Flow.Goto` | flow/flow.go:278-297 | the jump, with its failures, updates cursor, positions and counter as specified |
| `FlowObject.Flow.RepeatInterrupted` | flow/flow.go:311-331 | the rewind and the consumed mark, as specified |
| `FlowObject.Flow.WhileHandler` | flow/while.go:61-87 | restart, budget, condition, step and counter, as specified |
| `FlowObject.Flow.Route` | flow/handler.go:29-98 | the whole loop, with limiters, interruption, handlers, break and cancel, ends in the state specified |
| `LruTheorems.PurgeIsInvisible` | model/lru.go:61-178 | over all sequences of operations, every Get, Len and Keys of the cache that purges lazily is that of a cache that clears at once |
| `Lru.StepRefines` | model/lru.go:69-135 | each operation keeps the invariant (distinct keys, at most `size` entries, current entries before stale ones, `len` their number) and does what the eager cache does |
| `Lru.EvictRefines` | model/lru.go:98-107 | a full cache evicts a current entry only if none is stale |
| `LruTheorems.AlwaysSane` | model/lru.go:69-160 | in every reachable state `len` is the number of current entries and the keys returned are distinct and as many |
| `LruTheorems.HitIsLastAdded` | model/lru.go:109-126 | a hit returns the value last added for the key, not expired and not removed or purged since |
| `LruTheorems.FoundUntilDeadline` | model/lru.go:77-126 | what was just added is found for exactly the given number of seconds, and for ever if that is not positive |
| `LruTheorems.LostOnlyToOthers` | model/lru.go:77-135 | an unexpired, unremoved and unpurged key can be missed only after at least `size` other keys were added or hit |
| `LruTheorems.GetsDoNotDisturb` | model/lru.go:109-126 | a lookup, whether it hits, misses or drops an expired entry, does not change what any later lookup finds |
| `LruObject.Cache.constructor` | model/lru.go:44-58 | a new cache is empty |
| `LruObject.Cache.AddWithExpiresInSecs` | model/lru.go:77-107 | both branches update map, list, entry and `len` in place as specified; map and list keep holding the same entries |
| `LruObject.Cache.AddWithDefaultExpires` | model/lru.go:73-75 | an add with the cache's own expiry |
| `LruObject.Cache.Add` | model/lru.go:69-71 | an add without expiry |
| `LruObject.Cache.Get` | model/lru.go:109-126 | hit, miss, stale and expired entries as specified |
| `LruObject.Cache.Remove` | model/lru.go:128-135 | the key is gone, and nothing else |
| `LruObject.Cache.Purge` | model/lru.go:61-67 | the generation moves on, the entries stay in place |
| `LruObject.Cache.Keys` | model/lru.go:138-153 | the slice of length `len` is filled exactly with the current keys from oldest to newest |
| `LruObject.Cache.Len` | model/lru.go:156-160 | the number of current entries |
| `LruObject.Cache.RemoveElement` | model/lru.go:171-178 | list, map and `len` lose one element |
| `SchemaCache.ByIdIsWhatTheStoreHolds` | app/schema.go:54-75 | after any history of writes, deletions, lookups and cache operations, a lookup by id gives exactly what the store gives, if an id and a time of update determine the version |
| `SchemaCache.CurrentExactlyIfDetermined` | app/schema.go:54-75 | for every set of versions: after all histories that write only those, lookups by id give what the store gives, if and only if id and time of update determine a version in the set |
| `SchemaCache.ByVersionIsRequestedOrCurrent` | app/schema.go:15-52 | a lookup by version gives a version of that id with the requested time of update, or what the store holds; it fails only if the store does |
| `SchemaCache.OwnDomainExactlyIf` | app/schema.go:15-52 | for every set of versions: after all histories that write only those, what a lookup by version finds is in the domain asked for, if and only if all versions in the set of that id and time of update are |
| `SchemaCache.OtherDomainIsHandedOut` | app/schema.go:20-25 | a lookup by version that finds a schema of another domain while the store itself finds none |
| `SchemaCache.OnlyTheStoreChangesTheCache` | app/schema.go:20-45 | after any history, a lookup that fails or that the cache can serve changes nothing that a later lookup finds |
| `SchemaCache.StoreAfterExpiry` | app/schema.go:50 | after any history, once the expiry has passed since the last lookup, every lookup gives what the store gives |
| `SchemaCache.FoundIsCached` | app/schema.go:47-51 | after any history, what a lookup had to get from the store is found again, even with the store down, for exactly the expiry (for ever if it is not positive); after that the store decides |
| `SchemaCache.UndeterminedIsStale` | app/schema.go:20-25 | for any two versions with the same id and time of update, in whatever domains, a history after which a lookup by id returns the outdated one |
| `SchemaCache.FlowManager.GetSchema` | app/schema.go:15-52 | the lookup over the cache object, as specified |
| `SchemaCache.FlowManager.GetSchemaById` | app/schema.go:54-75 | the lookup by id over the cache object, as specified |
| `JsonText.JsonString` | model/json.go:17-93 | the chunk-copying loop appends exactly the escapes of the source's units, where a quote is left bare exactly if the byte before it is a backslash |
| `JsonCharacters.DecodesEncoded` | model/json.go:66 | wherever the UTF-8 encoding of a character of two or more bytes stands, that character is decoded (RFC 3629 section 3) |
| `JsonCharacters.DecodedIsEncoded` | model/json.go:66 | whatever is decoded is a character whose encoding stands there |
| `JsonCharacters.CharacterEscapes` | model/json.go:21-90 | at every place of every source, a character that stands there comes out as said character by character (`CharOut`), without reference to the decoder or the tables |
| `JsonCharacters.BadByteEscapes` | model/json.go:67-73 | a byte at which no character stands comes out as the escape of U+FFFD |
| `JsonCharacters.TextEscapes` | model/json.go:17-93 | every text, as a sequence of characters, comes out character by character |
| `JsonCharacters.TextRoundTrip` | model/json.go:17-93 | every text without a backslash is read back as it was |
| `JsonCharacters.ValidIsText` | model/json.go:66 | the sources without bad bytes are the encodings of texts |
| `JsonTheorems.OutputIsGuarded` | model/json.go:17-93 | the text appended has no byte below 0x20, none of `<`, `>`, `&` when escaping HTML, and every quote has a backslash right before it |
| `JsonReading.ReadableExactlyIfPaired` | model/json.go:17-93 | for every source: the text appended is the inside of a JSON string (RFC 8259 section 7) if and only if in the source every backslash has something to escape and no other quote stands right behind one |
| `JsonReading.ReadsBackExactlyWithoutBackslash` | model/json.go:17-93 | for every source: the text appended reads as the source, with bytes that are no characters replaced by U+FFFD, if and only if the source has no backslash |
| `JsonReading.BareQuote` | model/json.go:28-35 | two backslashes and a quote come out unchanged and are not the inside of a JSON string |
| `JsonReading.TrailingBackslash` | model/json.go:28-29 | neither is a backslash alone |
| `JsonTheorems.EscapingTwiceIsOnce` | model/json.go:17-93 | escaping is idempotent for a fixed flag |
| `JsonRoundTrip.RoundTrip` | model/json.go:29-90 | for every source without backslashes, a reader that refuses bare quotes and control bytes and joins surrogate pairs gives the source back, with bytes that are no characters replaced by U+FFFD |
| `JsonRoundTrip.BackslashesCollide` | model/json.go:28-52 | two sources, one with a backslash, that come out the same |
| `Requests.ParseReq` | flow/flow.go:390-446 | the loop over the fields, in the order given, folds them into the request specified |
| `Requests.RequestMeans` | flow/flow.go:390-472 | for every object, ambiguous or not, in every order of its keys: `break` and `async` are set if and only if the object has `true` there; the limit is `n` dispatches with failover `f` if and only if `max` is a positive number whose integer part is `n` (mod 2^32) and `failover` the nonempty text `f`; trace, tag and id as the keys say; the application is one the object names, with its value as arguments |
| `Requests.ItoaReads` | flow/flow.go:412-413 | a number used as a tag is written in decimal without leading zeros and reads back as itself |
| `Requests.UnambiguousIsDescribed` | flow/flow.go:394-446 | if at most one key names an application, every order gives the request that the object describes |
| `Requests.OrderMattersExactlyIfAmbiguous` | flow/flow.go:394-438 | all orders give the same request, and the same header in a schema, if and only if at most one key names an application |
| `Requests.FirstNameWins` | flow/flow.go:423-436 | the first key visited that names an application becomes the name, and its value the arguments |
| `Requests.LoneBreak` | flow/flow.go:440-442 | an object with no application and a true `break` becomes the break application, in every order |

## Left out

- Simulation.RouteMeansSchema: leaves out limits and jumps, which have no structured meaning; jumps are covered by `Jumps`, limits by `Life`, and both by `Termination`.
- Interruption.InterruptionIsTransparent: leaves out attempts that lost a step of a loop with requests in its body or moved a node by a jump; after those, whole runs differ in ways that depend on the rest of the schema, and the exact condition is about the next round, in `Repetition.RepeatsAlikeExactlyIf`.
- Rerun.RerunRepeats: leaves out loops, whose budgets persist from run to run, so that a second run may differ.
- JsonRoundTrip.RoundTrip: is stated for sources without backslashes; `JsonReading.ReadsBackExactlyWithoutBackslash` shows that it holds for no others.
- Timer.Timer: does not model the length of the waits.
- Reading the arguments of `if`, `while` and `switch` from JSON (missing keys, `maxSteps` as text, expressions rewritten by regular expressions): a schema holds them as already read, with a `while` or `switch` of the wrong shape as a case of its own.
- `function` and `trigger` definitions: a statement that adds no request; the table of functions is a parameter of `CallHandlers.Execute`.
- The JavaScript engine, text substitution and the applications themselves: parameters of every theorem, as an oracle.
- What a flow called asynchronously dispatches, the goroutine around handlers, mutexes and `singleflight`: handlers and lookups are atomic steps.
- The clock, the store and the list check are parameters.
- Pointers between nodes and requests are indices into tables, and the linked list of the cache is a sequence of element objects.
- int64 overflow of the cache's generation, of clock values and of durations; the int16 of the jump counter and the uint32 of a limit are modelled.
- Logging, step logs, connections, time zones and everything outside the engine, the cache, the schema lookup and the escaper.
