# DST-ts core, modelled and proved in Dafny

This project models the core of DST-ts, a TypeScript port of the game scripts of Don't Starve Together. It covers:

- **The behaviour-tree engine** (`src/behaviourtree.ts`). Nodes hold a status, READY, RUNNING, SUCCESS or FAILED. Visit, Reset, Step and SaveStatus update those statuses, with the per-class state of each node, in place. `BT` is the per-agent handle that runs one Visit, SaveStatus and Step per tick.
- **The tick scheduler `BrainWrangler` and the controller `Brain`** (`src/brain.ts`). Each registered controller is filed in exactly one list:
  - the updaters;
  - the hibernaters;
  - a bucket of controllers waiting for a given tick.
- **The vote tallies** (`src/voteutil.ts`).
- **The event-handler registry** (`src/events.ts`).
- **The configuration options with their platform overrides** (`src/config.ts`).
- **The print plumbing** (`src/debugprint.ts`): Lua-pattern escaping, argument packing, the logger fan-out and the 20-line console buffer.
- **The save patch `AddWorldEntities`** (`src/worldentities.ts`).
- **The `Prefab` and `Asset` records** (`src/prefabs.ts`).
- **The achievement table** (`src/achievements.ts`).
- **The platform predicates and build flags** (`src/API/System/predefine.ts`, `src/API/System/mainPredefine.ts`).

Layout:
- **The behaviour tree.** It is an arena: a `seq<Shape>` whose children and parent links are indices, beside a `seq<NodeState>` with every node's mutable fields. Node 0 is the root. The class `BehaviourTree.Tree` owns the state, and its methods update it in place. Each method is proved equal to a recursive function (ResetF, StepF, SaveF), and the lemmas about those functions carry the properties.
- **The scheduler.** `Brains.BrainWrangler` keeps its four dictionaries as fields. Every method is proved to compute the matching function of `BrainRegistry`, whose lemmas prove the exactly-one-list invariant, `Partitioned`.
- **Host inputs.**
  - The clock, `GetTime`/`Date.now`, is an explicit `now` in milliseconds.
  - `Math.random` draws are parameters.
  - Condition and action callbacks are oracle functions in `BehaviourShape.Env`.
  - Entity validity, sleep checks and a brain's sleep time are oracle functions passed to `BrainWrangler.UpdateIntended`.
  - The renderings of a sleep time and of a tree's state, which make up a brain's registry key, are oracle functions given to each `Brain`.
  - Host callbacks (event handlers, print loggers, a prefab's `fn`) are opaque references. Calling one is reported in the result instead of being run.

## Model

| member | source | states |
|---|---|---|
| BehaviourShape.PriorityPeriod | src/behaviourtree.ts:704-714 | the PriorityNode constructor's `period \|\| 1`: never 0, and a given non-zero period is kept |
| BehaviourState.InitNode | src/behaviourtree.ts:78-91 | a freshly built node is READY with lastResult READY, cursor 1, no choice, and a `lasttime` exactly for a scattering Priority node |
| BehaviourReset.ResetOwn | src/behaviourtree.ts:472-475 | the class overrides of Reset (Sequence, Selector, Loop, Random, Priority, Event) never touch status or lastResult |
| BehaviourReset.ResetFrame | src/behaviourtree.ts:239-248 | Reset changes nothing outside the subtree of the node it is called on |
| BehaviourReset.ResetRoot | src/behaviourtree.ts:239-248 | after Reset the node is READY with its class's own fields restored (cursor, rep, idx, triggered) |
| BehaviourReset.ResetReadyShallow | src/behaviourtree.ts:239-248 | Reset of a READY node leaves every child untouched |
| BehaviourReset.ResetChildrenReady | src/behaviourtree.ts:239-248 | Reset of a node that was not READY leaves each child READY |
| BehaviourReset.ResetIdempotent | src/behaviourtree.ts:239-248 | Reset twice equals Reset once |
| BehaviourReset.ResetOwnIdempotent | src/behaviourtree.ts:608-612 | each class's own Reset step is idempotent |
| BehaviourReset.ResetKeepsResults | src/behaviourtree.ts:239-248 | Reset never changes any node's lastResult |
| BehaviourReset.ResetKeepsOK | src/behaviourtree.ts:239-248 | Reset keeps every node's cursor and choice within its children |
| BehaviourReset.StepFrame | src/behaviourtree.ts:225-233 | Step changes nothing outside the subtree |
| BehaviourReset.StepRoot | src/behaviourtree.ts:225-233 | after Step a RUNNING node stays RUNNING and any other is READY; an Event node's `triggered` is cleared; lastResult is kept |
| BehaviourReset.StepKeepsResults | src/behaviourtree.ts:225-233 | Step never changes a lastResult |
| BehaviourReset.StepKeepsOK | src/behaviourtree.ts:824-837 | Step, including Parallel's re-arming of SUCCESS conditions, keeps every node's bounds |
| BehaviourReset.SaveSpec | src/behaviourtree.ts:212-219 | SaveStatus sets lastResult := status for exactly the nodes of the subtree and nothing else |
| BehaviourSleep.OwnSleep | src/behaviourtree.ts:716-736 | a node reports its own sleep time exactly when it is a RUNNING or READY Priority node (the base GetSleepTime at 141-157 never does); it is never negative, and 0 when READY |
| BehaviourSleep.SleepBeforeEval | src/behaviourtree.ts:716-736 | a RUNNING Priority node that reports a positive sleep time does not re-evaluate before that time has passed |
| BehaviourSleep.EvalDueNoSleep | src/behaviourtree.ts:716-736 | a RUNNING Priority node whose evaluation is due reports sleep time 0 |
| BehaviourSleep.SmallerMin | src/behaviourtree.ts:169-181 | the update rule of GetTreeSleepTime keeps the smaller known value, and null only when both are null |
| BehaviourSleep.ChildrenSleepMin | src/behaviourtree.ts:163-174 | the loop over the children yields the minimum of the RUNNING children's tree sleep times, or null when none reports one |
| BehaviourSleep.TreeSleepMin | src/behaviourtree.ts:163-185 | GetTreeSleepTime is the minimum of the node's own sleep time and its RUNNING children's tree sleep times, null when none exists |
| BehaviourSleep.TreeSleepNonNegative | src/behaviourtree.ts:163-185 | a tree sleep time is never negative |
| BehaviourSleep.IdleChildrenOwnSleep | src/behaviourtree.ts:163-185 | with no RUNNING child, the tree sleep time is the node's own |
| BehaviourTree.Remap | src/behaviourtree.ts:547-589 | Not swaps SUCCESS and FAILED and passes RUNNING and READY through; FailIfRunning never yields RUNNING and keeps any other status; FailIfSuccess never yields SUCCESS and keeps any other status |
| BehaviourTree.Circ | src/behaviourtree.ts:665-696 | the k-th child tried by RandomNode is `(start + k) mod n` |
| BehaviourTree.CircNext | src/behaviourtree.ts:680-690 | RandomNode's wrap-around increment steps to the next circular index and returns to the start after n steps |
| BehaviourTree.CircDistinct | src/behaviourtree.ts:665-696 | RandomNode never tries the same child twice in one pass |
| BehaviourTree.Triggered | src/behaviourtree.ts:908-912 | onEvent's own update sets `triggered` on the Event node |
| BehaviourTree.ParallelOutcome | src/behaviourtree.ts:839-867 | after Parallel's walk: `done` iff no child is RUNNING, `anyDone` iff some child is not RUNNING, no walked child FAILED, every Condition child passed its test, and children already in SUCCESS were not visited |
| BehaviourTree.StopKeepsEventListening | src/behaviourtree.ts:253-259 | in the tree EventNode(ActionNode), node 0 is one of the callbacks Stop as intended removes, and Stop as written keeps |
| BehaviourTree.OnEventKeepsPriorityClock | src/behaviourtree.ts:908-920 | under a Priority root, onEvent as written (throwing before DoToParents) keeps the root's `lasttime`, while onEvent as intended clears it |
| BehaviourTree.Tree.constructor | src/behaviourtree.ts:885-899 | every node starts in its constructor state and every Event node's callback is registered |
| BehaviourTree.Tree.Reset | src/behaviourtree.ts:239-248 | the new state is ResetF of the old one, and the tree stays within its bounds |
| BehaviourTree.Tree.Step | src/behaviourtree.ts:225-233 | the new state is StepF of the old one (Parallel and Event overrides included) |
| BehaviourTree.Tree.RearmConditions | src/behaviourtree.ts:824-837 | ParallelNode.Step on a RUNNING node resets exactly its SUCCESS Condition children |
| BehaviourTree.Tree.SaveStatus | src/behaviourtree.ts:212-219 | the new state is SaveF of the old one |
| BehaviourTree.Tree.Stop | src/behaviourtree.ts:253-259 | as written: neither the state nor the registered Event callbacks change |
| BehaviourTree.Tree.OnStop | src/behaviourtree.ts:901-906 | EventNode.onStop unregisters that node's callback and nothing else |
| BehaviourTree.Tree.StopIntended | src/behaviourtree.ts:253-259 | Stop as evidently intended: exactly the Event nodes of the subtree are unregistered |
| BehaviourTree.Tree.ClearPriorityAncestors | src/behaviourtree.ts:97-102 | the parent walk of DoToParents clears `lasttime` on exactly the Priority ancestors |
| BehaviourTree.Tree.OnEvent | src/behaviourtree.ts:908-922 | as written: a RUNNING child is reset and the node triggered; with a brain attached the misspelled `forceUpdate` call throws, and the Priority ancestors keep `lasttime` |
| BehaviourTree.Tree.OnEventIntended | src/behaviourtree.ts:908-922 | as intended: the child reset, the node triggered, the brain told to update, and every Priority ancestor's `lasttime` cleared |
| BehaviourTree.Tree.Visit | src/behaviourtree.ts:205-207 | Visit dispatches on the class; it touches only the subtree and no lastResult, and a Condition node ends SUCCESS or FAILED by its test |
| BehaviourTree.Tree.VisitBase | src/behaviourtree.ts:205-207 | a plain node's Visit sets FAILED |
| BehaviourTree.Tree.VisitCondition | src/behaviourtree.ts:356-362 | ConditionNode is SUCCESS iff its test holds, otherwise FAILED, never RUNNING |
| BehaviourTree.Tree.VisitMultiCondition | src/behaviourtree.ts:381-393 | the running flag is the start test when not running and the continue test when running; the node is SUCCESS iff the flag is set, otherwise FAILED |
| BehaviourTree.Tree.VisitConditionWait | src/behaviourtree.ts:404-410 | ConditionWaitNode is SUCCESS iff its test holds, otherwise RUNNING, never FAILED |
| BehaviourTree.Tree.VisitAction | src/behaviourtree.ts:421-424 | ActionNode is always SUCCESS |
| BehaviourTree.Tree.VisitWait | src/behaviourtree.ts:442-457 | the wake time is set on entry and kept while RUNNING; SUCCESS iff now has reached it, otherwise RUNNING with `Sleep(now - wakeTime)` recorded |
| BehaviourTree.Tree.ScanChildren | src/behaviourtree.ts:477-498 | the cursor walk starts at the resumed index, never moves back, skips no child, stops at the first halting child, and leaves every other child's subtree untouched |
| BehaviourTree.Tree.VisitSequence | src/behaviourtree.ts:477-498 | the status is the first RUNNING or FAILED child's status, with the cursor on it; children before the resumed cursor are not revisited; SUCCESS when every child passes |
| BehaviourTree.Tree.VisitSelector | src/behaviourtree.ts:518-539 | the status is the first RUNNING or SUCCESS child's status, with the cursor on it; FAILED when every child fails |
| BehaviourTree.Tree.VisitDecorator | src/behaviourtree.ts:547-589 | a decorator's status is its child's status under Remap |
| BehaviourTree.Tree.VisitLoop | src/behaviourtree.ts:614-649 | a halting child sets the status; otherwise the repetition count is increased and either the loop is SUCCESS at maxreps or every child is reset with the status left unchanged |
| BehaviourTree.Tree.LoopWrap | src/behaviourtree.ts:639-648 | when every child has completed: the cursor goes back to 1 and one more repetition is counted; at maxreps the node is SUCCESS and nothing else changes, otherwise the node keeps its status and each child subtree is Reset in turn, exactly as Reset does, leaving every child READY |
| BehaviourTree.Tree.VisitRandom | src/behaviourtree.ts:665-696 | from READY, children are tried in circular order from the drawn start, each at most once, until one does not fail (its status is taken) or all fail (FAILED); otherwise only the chosen child is visited and its status copied |
| BehaviourTree.Tree.VisitParallel | src/behaviourtree.ts:839-867 | FAILED at the first failing child; otherwise SUCCESS when no child is RUNNING (or, with stopOnAnyComplete, some child is not), else RUNNING; only the node's status changes |
| BehaviourTree.Tree.VisitEvent | src/behaviourtree.ts:934-948 | a triggered READY or a RUNNING Event node mirrors its only child; any other leaves the whole state unchanged |
| BehaviourTree.Tree.VisitLatch | src/behaviourtree.ts:997-1025 | a READY latch whose window is open records the time and duration and mirrors its child; a closed window makes it FAILED with nothing else changed |
| BehaviourTree.Tree.VisitPriority | src/behaviourtree.ts:754-813 | an evaluation pass stamps `lasttime` and selects the first child reaching SUCCESS or RUNNING (FAILED, with the old choice, when none does); between passes only a RUNNING selected child is revisited, and its status is copied, with `lasttime` cleared once it stops running |
| BehaviourHandle.BT.constructor | src/behaviourtree.ts:286-289 | the handle wraps the tree with the force flag off |
| BehaviourHandle.BT.ForceUpdate | src/behaviourtree.ts:294-296 | sets the force flag |
| BehaviourHandle.BT.Update | src/behaviourtree.ts:301-306 | one tick is Visit, then SaveStatus (every node's lastResult becomes its visited status), then Step; the root ends RUNNING or READY; the force flag is cleared |
| BehaviourHandle.BT.Reset | src/behaviourtree.ts:311-313 | resets the root, which ends READY |
| BehaviourHandle.BT.Stop | src/behaviourtree.ts:318-320 | stops the root with BehaviorNode.Stop as written: no Event callback is unregistered and the state is unchanged |
| BehaviourHandle.BT.StopIntended | src/behaviourtree.ts:318-320 | BT.Stop over Stop as evidently intended: exactly the Event nodes of the tree are unregistered, and the state is unchanged |
| BehaviourHandle.BT.GetSleepTime | src/behaviourtree.ts:326-331 | 0 while the force flag is set, otherwise the root's tree sleep time; never negative |
| BehaviourBuilders.Combine | src/behaviourtree.ts:951-977 | a builder puts the composite at the root over the condition and the given tree; every node of the given tree is kept, moved up by 2 with its children and parent shifted alike, the old root becoming the composite's second child; the result is again a well-formed tree |
| BehaviourBuilders.CombineWellFormed | src/behaviourtree.ts:951-977 | the tree a builder returns is again a well-formed tree |
| BehaviourBuilders.WhileNode | src/behaviourtree.ts:951-957 | whileNode is a ParallelNode over a ConditionNode and the given node, whose subtree is kept intact (as Combine states) |
| BehaviourBuilders.IfNode | src/behaviourtree.ts:959-965 | ifNode is a SequenceNode over a ConditionNode and the given node, whose subtree is kept intact (as Combine states) |
| BehaviourBuilders.IfThenDoWhileNode | src/behaviourtree.ts:967-977 | ifThenDoWhileNode is a ParallelNode over a MultiConditionNode and the given node, whose subtree is kept intact (as Combine states) |
| BrainRegistry.ExactlyOne | src/brain.ts:31-44 | in a partitioned registry a registered controller is in its recorded list and in no other |
| BrainRegistry.SendToListF | src/brain.ts:31-44 | a no-op when the controller has no record or is already in the target; otherwise it leaves its old list, joins the target (a bucket is created on demand) and its record is updated, or dropped for `null` |
| BrainRegistry.SendToListPartitioned | src/brain.ts:31-44 | SendToList keeps every controller in exactly one list |
| BrainRegistry.WakeHibernateMove | src/brain.ts:46-56 | Wake and Hibernate move a registered controller to the updaters or the hibernaters only, and leave an unregistered one alone |
| BrainRegistry.SleepTarget | src/brain.ts:58-62 | the target tick is the floor of tick + time/tickTime, with a zero sleep counted as one tick |
| BrainRegistry.SleepTargetLater | src/brain.ts:58-64 | sleeping longer than one tick always targets a future tick |
| BrainRegistry.SleepFiles | src/brain.ts:58-74 | Sleep files the controller in the bucket of its target tick only when that tick is in the future, creating the bucket; the registry stays partitioned |
| BrainRegistry.RemoveInstanceClears | src/brain.ts:76-84 | RemoveInstance drops the controller's record and removes it from every list; nothing else changes |
| BrainRegistry.RemoveInstancePartitioned | src/brain.ts:76-84 | RemoveInstance keeps the registry partitioned |
| BrainRegistry.AddInstanceFiles | src/brain.ts:86-89 | AddInstance records the controller in the updaters; the registry stays partitioned when the controller was unregistered or already an updater |
| BrainRegistry.AddInstanceTwice | src/brain.ts:86-89 | AddInstance has no guard: adding a hibernating controller leaves it in two lists |
| BrainRegistry.AddThenRemove | src/brain.ts:76-89 | adding an unregistered controller and removing it again restores the registry |
| BrainRegistry.OthersKept | src/brain.ts:76-89 | adding or removing one key keeps every other key's record and list membership |
| BrainRegistry.PauseThenResume | src/brain.ts:209-217 | Pause followed by Resume files the controller among the updaters and removes it from every other list |
| BrainRegistry.PopPartitioned | src/brain.ts:91-99 | popping the bucket of the current tick moves its controllers into the updaters, deletes the bucket, and keeps the partition |
| BrainRegistry.Refile | src/brain.ts:104-111 | a falsy sleep amount (null or 0) hibernates; one above the tick time files into a future bucket; any other stays in the updaters |
| BrainRegistry.RefilePartitioned | src/brain.ts:101-113 | re-filing an evaluated updater keeps the partition and records it where Refile says |
| Brains.UpdateStep | src/brain.ts:101-113 | in the intended Update, each evaluated controller is re-filed by its sleep amount; an invalid or asleep one keeps its list |
| Brains.BrainWrangler.constructor | src/brain.ts:1-5 | the wrangler starts with four empty dictionaries |
| Brains.BrainWrangler.OnRemoveEntity | src/brain.ts:7-11 | removes the key String(brain) only when the entity has a brain and that key is registered; otherwise nothing changes |
| Brains.BrainWrangler.SendToList | src/brain.ts:31-44 | the dictionaries become SendToListF of the old ones |
| Brains.BrainWrangler.Wake | src/brain.ts:46-50 | the dictionaries become WakeF of the old ones |
| Brains.BrainWrangler.Hibernate | src/brain.ts:52-56 | the dictionaries become HibernateF of the old ones |
| Brains.BrainWrangler.Sleep | src/brain.ts:58-74 | the dictionaries become SleepF of the old ones |
| Brains.BrainWrangler.RemoveInstance | src/brain.ts:76-84 | the dictionaries become RemoveInstanceF of the old ones |
| Brains.BrainWrangler.RemoveFromBuckets | src/brain.ts:80-82 | the loop over the buckets removes the controller from each and keeps every bucket |
| Brains.BrainWrangler.AddInstance | src/brain.ts:86-89 | the dictionaries become AddInstanceF of the old ones |
| Brains.BrainWrangler.PopBucket | src/brain.ts:92-99 | the first half of Update: the dictionaries become PopF of the old ones |
| Brains.BrainWrangler.Promote | src/brain.ts:94-97 | the loop over the popped bucket records every controller in it as an updater and adds it to the updaters; others keep their record |
| Brains.BrainWrangler.Update | src/brain.ts:91-114 | as written: the dictionaries become PopF of the old ones, and the loop throws exactly when `updaters` is then non-empty, since its `k` is a key string, so nothing is evaluated or re-filed |
| Brains.BrainWrangler.UpdateIntended | src/brain.ts:91-114 | as intended: after popping the bucket, every updater of the snapshot has been evaluated and re-filed by its sleep amount; the registry stays partitioned |
| Brains.BrainWrangler.EvaluateAll | src/brain.ts:101-113 | the intended loop over the snapshot of updaters leaves the registry as re-filing every controller of the snapshot, one at a time, would |
| Brains.BrainWrangler.UpdateOne | src/brain.ts:102-112 | in the intended loop, one evaluated controller is re-filed only when valid and awake |
| Brains.Brain.constructor | src/brain.ts:119-126 | a new brain has no handlers and is neither paused nor stopped |
| Brains.Brain.Key | src/brain.ts:136-141 | String(brain), the registry key: exactly "--brain--" for every brain without a tree, and a longer text, built from the current sleep time and tree state, for one with a tree |
| Brains.Brain.ForceUpdate | src/brain.ts:128-134 | sets the tree's force flag, then wakes the key String(this) as rendered after that flag is set |
| Brains.Brain.AddEventHandler | src/brain.ts:143-145 | the handler under that name is set, overwriting an older one |
| Brains.Brain.PushEvent | src/brain.ts:201-207 | the stored handler is called exactly when there is one for the name |
| Brains.Brain.GetSleepTime | src/brain.ts:147-153 | 0 without a tree or while an update is forced, otherwise the tree's sleep time; never negative |
| Brains.Brain.Start | src/brain.ts:155-174 | a no-op while paused; otherwise clears `stopped` and registers the current key String(this) among the updaters |
| Brains.Brain.OnUpdate | src/brain.ts:176-184 | runs one BT.Update when there is a tree |
| Brains.Brain.Stop | src/brain.ts:186-199 | a no-op while paused; otherwise stops the tree (which, as written, leaves its Event callbacks registered and its state unchanged), sets `stopped` and deregisters the current key String(this), whichever brain that key was filed for |
| Brains.Brain.Pause | src/brain.ts:209-212 | sets `paused` and deregisters the current key String(this) |
| Brains.Brain.Resume | src/brain.ts:214-217 | clears `paused` and registers the current key String(this) among the updaters |
| Brains.TreelessBrainsCollide | src/brain.ts:136-141 | two brains without a tree share a key: after both start, stopping the first leaves the second unstopped and deregistered |
| VoteUtil.DefaultUnanimousVote | src/voteutil.ts:47-63 | returns option i with count options[i] exactly when i is the only option with a positive count, and nothing otherwise |
| VoteUtil.DefaultMajorityVote | src/voteutil.ts:71-87 | returns option i with count options[i] exactly when options[i] is positive and strictly greater than every other count; nothing on a tie at the top |
| VoteUtil.TwoPositive | src/voteutil.ts:52-60 | two positive options rule out a unanimous result |
| VoteUtil.TiedAtTop | src/voteutil.ts:77-85 | a tie at the maximum rules out a majority result |
| VoteUtil.UnanimousIsMajority | src/voteutil.ts:47-87 | a unanimous winner is also the majority winner |
| VoteUtil.StrictMaxUnique | src/voteutil.ts:71-87 | there is at most one majority winner |
| VoteUtil.YesNoUnanimousVote | src/voteutil.ts:95-104 | a result exactly when option 1 (0-based) is the unanimous winner, and then it is [1, options[1]] |
| VoteUtil.YesNoMajorityVote | src/voteutil.ts:112-121 | a result exactly when option 1 (0-based) is the majority winner, and then it is [1, options[1]] |
| VoteUtil.DefaultCanStartVote | src/voteutil.ts:144-150 | always allows the vote, with no reason |
| Events.IndexOf | src/events.ts:88 | `indexOf`: -1 exactly when absent, otherwise the first position holding the value |
| Events.Splice | src/events.ts:90 | `splice(i, 1)` drops the element at i and keeps the others in order |
| Events.RemoveFirstCount | src/events.ts:84-94 | removing a handler drops exactly one occurrence when there is one, and nothing otherwise |
| Events.AppendThenRemove | src/events.ts:68-94 | appending a handler that was absent and removing it restores the list |
| Events.AddThenRemoveRestores | src/events.ts:68-94 | adding a handler and then removing it restores every event's list |
| Events.EventHandler.constructor | src/events.ts:31-35 | stores the event, the function and the processor |
| Events.EventHandler.Remove | src/events.ts:40-42 | is its processor's RemoveHandler applied to itself |
| Events.EventProcessor.constructor | src/events.ts:58-60 | starts with no events |
| Events.EventProcessor.GetHandlersForEvent | src/events.ts:101-103 | the event's list, or the empty list for an unknown event |
| Events.EventProcessor.AddEventHandler | src/events.ts:68-78 | a fresh handler for this processor is appended to its event's list (created if needed); other events are unchanged |
| Events.EventProcessor.RemoveHandler | src/events.ts:84-94 | the registry becomes RemovedFrom of the old one: unchanged for null or an unknown event; otherwise only that event's list changes, losing its first occurrence of the handler |
| Events.EventProcessor.HandleEvent | src/events.ts:110-117 | calls each handler's function once, in list order; no calls for an unknown event |
| Text.JoinHeader | src/config.ts:46 | `join` of a header and lines is the header followed by each line after a separator |
| Configuration.Get | src/config.ts:29-31 | looking up an option gives its value, and nothing when it is absent |
| Configuration.GetPut | src/config.ts:25 | after setting k, k reads the new value and every other key reads as before |
| Configuration.PutKeys | src/config.ts:25 | setting an existing key keeps the key order; a new key is appended last |
| Configuration.PutDistinct | src/config.ts:25 | setting a key keeps the keys distinct |
| Configuration.PutIdempotent | src/config.ts:33-35 | setting the same value twice equals setting it once |
| Configuration.GetRemove | src/config.ts:37-39 | after deleting k, k is absent and every other key reads as before |
| Configuration.RemoveKeys | src/config.ts:37-39 | deleting keeps only entries of other keys, and is a no-op for an absent key |
| Configuration.RemoveDistinct | src/config.ts:37-39 | deleting keeps the keys distinct |
| Configuration.GetAppend | src/config.ts:24-26 | appending an entry for a new key adds exactly that key |
| Configuration.GetPutAll | src/config.ts:23-27 | after setOptions, a given key reads its given value and any other key reads as before |
| Configuration.Config.constructor | src/config.ts:16-21 | the options are the given ones copied in, or none |
| Configuration.Config.SetOptions | src/config.ts:23-27 | the options become the old ones with every given entry set in turn |
| Configuration.Config.IsEnabled | src/config.ts:29-31 | undefined exactly when the option is absent |
| Configuration.Config.Enable | src/config.ts:33-35 | the option is set to true, and then reads as enabled |
| Configuration.Config.Disable | src/config.ts:37-39 | the option is deleted, and then reads as undefined |
| Configuration.Config.ToString | src/config.ts:41-47 | the header line followed by one `k = v` line per option, joined by newlines |
| Configuration.MakeTheConfig | src/config.ts:69-75 | TheConfig holds the defaults with the platform's overrides applied |
| Configuration.OptionNamesDiffer | src/config.ts:50-53 | the two option names differ |
| Configuration.DefaultsCopied | src/config.ts:50-53 | both defaults are false, in declaration order |
| Configuration.NaclOverride | src/config.ts:55-58 | on NACL only force_netbookmode becomes true |
| Configuration.MobileOverride | src/config.ts:59-66 | on ANDROID and IOS both options become true |
| Configuration.TheConfigValues | src/config.ts:50-75 | for every platform: hide_vignette is true iff ANDROID or IOS, force_netbookmode iff NACL, ANDROID or IOS |
| DebugPrint.EscapeLuaPattern | src/debugprint.ts:16-34 | the escaped length is the input length plus the number of magic characters and NULs; a string without them is unchanged |
| DebugPrint.UnescapeEscape | src/debugprint.ts:16-34 | escaping loses nothing: reading `%c` as `c` and `%z` as NUL gives back the input |
| DebugPrint.EscapeConcat | src/debugprint.ts:32-34 | escaping works character by character: it distributes over concatenation |
| DebugPrint.Packed | src/debugprint.ts:36-43 | the packed line is empty exactly for no arguments and otherwise ends with a tab |
| DebugPrint.PackedConcat | src/debugprint.ts:36-43 | packing is each argument followed by a tab, concatenated |
| DebugPrint.PackString | src/debugprint.ts:36-43 | the loop builds the packed line |
| DebugPrint.FindCrlf | src/debugprint.ts:75 | the first "\r\n" of the string, or -1 when it has none |
| DebugPrint.SplitCrlf | src/debugprint.ts:75 | `split("\r\n")` yields at least one piece and no piece contains "\r\n" |
| DebugPrint.JoinSplit | src/debugprint.ts:75 | joining the pieces with "\r\n" gives back the string |
| DebugPrint.RemoveAll | src/debugprint.ts:74 | removing the directory never lengthens the line, and a line without it is unchanged |
| DebugPrint.ConsoleDir | src/debugprint.ts:11-12 | the directory has no backslash and ends with "/", one character longer than CWD |
| DebugPrint.Newest | src/debugprint.ts:78-80 | the shift loop keeps the newest min(n, 20) lines, in order |
| DebugPrint.Fanout | src/debugprint.ts:58-60 | every host logger receives the same packed line once, in registration order; the buffer is unchanged or at most 20 lines |
| DebugPrint.Console.constructor | src/debugprint.ts:87-89 | the console buffer is registered as a logger exactly off consoles; the buffer starts empty |
| DebugPrint.Console.AddPrintLogger | src/debugprint.ts:7-9 | the logger is appended last |
| DebugPrint.Console.GetConsoleOutputList | src/debugprint.ts:83-85 | returns the buffer's lines |
| DebugPrint.Console.ConsoleLogLines | src/debugprint.ts:72-81 | the push and shift loops leave the buffer as ConsoleLogged: the old lines followed by the CRLF pieces of the packed line with the directory removed, cut to the newest 20 |
| DebugPrint.Console.Log | src/debugprint.ts:45-61 | the line is packed once and handed to every logger in registration order |
| WorldEntities.Patched | src/worldentities.ts:43-49 | the loop never adds or removes a key |
| WorldEntities.PatchedOk | src/worldentities.ts:43-46 | the loop completes exactly when every listed prefab has an entry; otherwise `Object.keys(undefined)` throws |
| WorldEntities.PatchedEntries | src/worldentities.ts:46-48 | a listed prefab with an empty entry gets the one placeholder position; a non-empty entry and every unlisted key are unchanged |
| WorldEntities.PatchedIdempotent | src/worldentities.ts:43-49 | running the patch twice equals running it once |
| WorldEntities.PatchedStopped | src/worldentities.ts:43-46 | once the loop has thrown, later prefabs change nothing |
| WorldEntities.AddWorldEntities | src/worldentities.ts:35-50 | the save's table is patched in place, in definition order, as Patched says, and the throw is reported |
| Prefabs.LastIndexOfSpec | src/prefabs.ts:29 | `lastIndexOf`: -1 exactly when absent, otherwise the last position holding the character |
| Prefabs.BaseNameSpec | src/prefabs.ts:29 | the name has no "/", equals the path when the path has none, and is otherwise what follows the path's last "/" |
| Prefabs.BaseNameIdempotent | src/prefabs.ts:29 | naming a name again changes nothing |
| Prefabs.BaseNameOfJoin | src/prefabs.ts:29 | a prefab declared as `dir/name` is named `name` |
| Prefabs.StringArray.PushAll | src/prefabs.ts:36-41 | the constructor's push loop appends the skins to the shared array in order |
| Prefabs.Prefab.constructor | src/prefabs.ts:22-42 | the base name, an empty description, the given function, assets and flag; the caller's deps array (a fresh one when none) is extended in place with the name's skins, in order; toString is `"Prefab " + name + " - "` |
| Prefabs.Asset.constructor | src/prefabs.ts:67-71 | stores its three arguments as given |
| AchievementColumns.IdsNumbered | src/achievements.ts:30-66 | the table has 35 rows whose ids are "1" to "35" in order |
| AchievementColumns.NamesDistinct | src/achievements.ts:30-66 | the 35 names are pairwise distinct |
| Achievements.SteamIdSplits | src/achievements.ts:26-28 | the psn id is the given id, the name is kept, and the steam id is the id, "_", then the name |
| Achievements.Rows | src/achievements.ts:30-66 | row i is ACHIEVEMENT of the i-th id and name |
| Achievements.TableIds | src/achievements.ts:30-66 | the table has 35 entries; entry i has psn id i + 1 in decimal and steam id `psn + "_" + name` |
| Achievements.TableNamesDistinct | src/achievements.ts:30-66 | no two achievements share a name |
| Predefine.NotConsoleIsNegation | src/API/System/predefine.ts:6-12 | IsNotConsole is the negation of IsConsole |
| Predefine.ConsoleFamily | src/API/System/predefine.ts:6-20 | IsPS4 or IsXB1 implies IsConsole |
| Predefine.StoreFamilies | src/API/System/predefine.ts:22-40 | IsRail implies IsWin32, and IsLinux implies IsSteam |
| Predefine.ExclusiveFamilies | src/API/System/predefine.ts:6-36 | IsConsole and IsSteam never both hold, nor do IsWin32 and IsLinux |
| MainPredefine.DevBranch | src/API/System/mainPredefine.ts:46 | ENCODE_SAVES holds iff the branch is not "dev", and a dev build has the debug menu |
| MainPredefine.DbuiNeedsCheats | src/API/System/mainPredefine.ts:47-49 | CHEATS_ENABLED iff the configuration is not PRODUCTION; CAN_USE_DBUI iff cheats are on and the platform is WIN32_STEAM, which is a Steam, Win32, non-console platform |
| MainPredefine.DebugMenuCases | src/API/System/mainPredefine.ts:53-54 | DEBUG_MENU_ENABLED iff the branch is "dev" or a non-production console build; off consoles it implies unencoded saves |

## Left out

- Debug strings are not modelled: `GetTreeString`, `DBString`, `GetString`, `BT.toString`, `BrainWrangler.NameList`, `Prefab.desc` beyond its initial value, and the `console.log` calls inside LatchNode. They format state for people and decide nothing. `Brain.toString` is the exception: it is the key the scheduler files a brain under, so it is modelled as `Brains.Brain.Key`, with the number formatting of the sleep time and the tree's `toString` text left to host oracles (`showTime`, `showTree`).
- Clocks: `GetTime()` and `Date.now()` are both the explicit `now` in milliseconds, with `GetTime()` read as `now / 1000`. WaitNode's mix of the two units is kept as written.
- The Priority scatter and RandomNode's start index come from `Math.random()`. They are parameters: the draw of the Priority constructor and `Env.pick`.
- Condition, action, latch-duration and MultiCondition callbacks are host functions, represented by oracle functions in `Env`. Each node is visited at most once per root Visit, so one answer per node suffices.
- `ListenForEvent` and `RemoveEventCallback` are host calls. The model tracks only the set of Event nodes whose callback is registered. The `data` argument of onEvent is not modelled.
- BehaviourTree.Tree.VisitRandom: a RandomNode with no children is not modelled. Its constructor accepts one, but Visit from READY then calls `Visit()` on `this.children[start]`, which is undefined, and throws (src/behaviourtree.ts:670-674). The arena's well-formedness (`ArityOK`) requires every Random node to have at least one child, so this throw is left out.
- BehaviourShape.WellFormed: nodes form a tree, and every model of the behaviour tree requires this. A node listed twice among one node's children, as in `new SequenceNode([a, a])`, is not modelled. The source's constructor (src/behaviourtree.ts:78-91) accepts it, and Visit and Reset then handle that node once per occurrence. A node passed to two composites is not modelled either. There `child.parent = this` keeps only the last parent, so DoToParents (97-102) walks only that parent's ancestors.
- Brains.Brain: `bt` is fixed when the brain is built. Concrete brains install it in their `OnStart`, which is host code, as are `OnStop`, `DoUpdate`, `OnInitializationComplete` and the mod post-init functions.
- Brains.BrainWrangler.UpdateIntended: entity validity, the asleep check, a brain's OnUpdate and its sleep amount are oracle functions of the key, standing for the brain filed under it. The order in which the updaters are visited (`Object.entries`) is left unspecified.
- Brains.Brain: a brain with a tree can be filed under a key that later goes stale. The key renders the sleep time and tree state at each call, so after the tree changes, Stop, Pause and ForceUpdate compute a different key from the one Start filed. The model shows this through `Key(now)` at each call. Because `showTree` is a host oracle, no lemma names a concrete pair of differing keys.
- Tick numbers are natural numbers. The tick time is a positive parameter, since GetTick and GetTickTime are engine calls.
- Brains.Brain.PushEvent: the handler's own effect is host code, so the model returns the handler that would be called.
- Events.EventProcessor.HandleEvent: handler functions are host code, so the model returns the functions in call order. Handlers that add or remove handlers while the event is handled are not modelled.
- Configuration: option values are booleans. They are the only values the source stores, and `isEnabled` of a missing key is `undefined`, modelled as no value. JavaScript lists integer-like keys (`Enable("1")`, say) before all other keys; the model keeps insertion order for every key, so that ordering is not modelled.
- Inherited `Object.prototype` keys are not modelled. The option, handler and brain-event tables are plain JavaScript objects, so names such as "toString" or "constructor" are present in them before anything is stored. The model treats these tables as empty maps. The members this affects are:
  - Configuration.Get and Configuration.Config.IsEnabled: `isEnabled("toString")` returns a function in the source (src/config.ts:29-30) and no value in the model.
  - Events.EventProcessor.AddEventHandler: for such a name the source skips the initialisation (src/events.ts:71-72) and throws at the `push` (75).
  - Events.EventProcessor.GetHandlersForEvent: the source returns the inherited function (101-102), not an empty list.
  - Events.EventProcessor.HandleEvent: the source throws when `for...of` runs over the inherited function (111-113).
  - Brains.Brain.PushEvent: the source calls the inherited `Object.prototype` function (src/brain.ts:201-207).
  - Prefabs.Prefab.constructor: PREFAB_SKINS is a plain object too, so a prefab named "constructor" or "toString" finds an inherited function (src/prefabs.ts:36-37). `for...of` over that function then throws. The model finds no skins and extends nothing.
- Predefine.IsSteamDeck: IS_STEAM_DECK is a host flag, passed in and returned unchanged. There is nothing to prove about it.
- Configuration.MakeTheConfig: the platform is a parameter instead of the PLATFORM global.
- The `PRINT_SOURCE` branch of console.log is not modelled. The flag is the constant `false`, and the branch reads host `debug.getinfo` data.
- `nolineprint` is not modelled; nothing calls it.
- `String(arg)` is host code: print arguments arrive already rendered as strings.
- DebugPrint.RemoveAll: the directory is removed as literal text. In the source it is the Lua-escaped directory used as a JavaScript regular expression. That reading of the `%` escapes depends on the regular-expression engine and is not modelled.
- Prefabs: the skin table PREFAB_SKINS is not part of this model and is a parameter. A prefab's `fn` and an asset's `param` are opaque references.
- WorldEntities: the container definitions are the one definition of `src/prefabs/pocketdimensioncontainer_defs.ts`, taken as a constant. Positions are pairs of reals.
- MainPredefine: the predicates at `src/API/System/mainPredefine.ts:4-42` are copies of those in `predefine.ts`. They are modelled once, in Predefine, and MainPredefine uses them. The fixed literal flags (MAIN at line 44 and the flags at 50-52 and 55-65) are not modelled; no modelled operation reads them.
- `Package`, `MODS_ROOT` and `kleiloadlua` in `predefine.ts` are declarations with no behaviour.
- The platform, branch and configuration globals are parameters.

## Findings

| source | as written | input that shows it | evidently intended | confidence | as-written member | corrected member |
|---|---|---|---|---|---|---|
| src/behaviourtree.ts:253-259 | BehaviorNode.Stop only recurses into the children and never calls EventNode.onStop (901-906), so a stopped tree's Event callbacks stay registered with the entity | Stop on the tree EventNode(ActionNode): node 0 stays in `listening` | Stop calls onStop on each Event node of the subtree, unregistering its callback | not executed | BehaviourTree.Tree.Stop, BehaviourHandle.BT.Stop, BehaviourTree.StopKeepsEventListening | BehaviourTree.Tree.StopIntended, BehaviourHandle.BT.StopIntended |
| src/behaviourtree.ts:913-915 | onEvent calls `this.inst.brain.forceUpdate()`, but Brain's method is `ForceUpdate` (src/brain.ts:128), so with a brain attached the call throws before DoToParents clears the Priority ancestors' `lasttime` | an event on node 1 of PriorityNode(EventNode(ActionNode)) with a brain attached and the root's `lasttime` set: the root keeps `lasttime` | the brain is force-updated and every Priority ancestor re-evaluates | not executed | BehaviourTree.Tree.OnEvent, BehaviourTree.OnEventKeepsPriorityClock | BehaviourTree.Tree.OnEventIntended |
| src/brain.ts:101-102 | Update loops over `Object.entries(this.updaters)`, so `k` is a key string: `k.inst` is undefined and `k.inst.entity.IsValid()` throws a TypeError on the first updater | one brain calls Start, then `Update(t)`: the call throws after the pop, and the brain is never evaluated or re-filed | each updater's brain is evaluated and re-filed by its sleep amount | not executed | Brains.BrainWrangler.Update | Brains.BrainWrangler.UpdateIntended |
| src/brain.ts:136-141 | every registry dictionary is indexed by `String(brain)`, that is by `Brain.toString`, which is "--brain--" for every brain without a tree and changes with the tree's state otherwise | two tree-less brains both Start, then the first Stops: the second is deregistered too | each brain is filed under its own identity, so one brain's registration leaves every other brain's record alone | not executed | Brains.Brain.Key, Brains.TreelessBrainsCollide | BrainRegistry.OthersKept |
