# Verified model of pewbot's scheduler, plugin manager and command front end

This project models the stateful core of the bot and proves properties of it, in Dafny 4.11. It is kept
beside the Go sources; `dafny verify dfyconfig.toml` checks all of it.

What is modelled, one or more modules per part:

- **Scheduler lifecycle** (`SchedulerLifecycle`, `LifecycleSafety`, `LifecycleProgress`, `LifecycleLiveness`,
  `LifecycleDelivery`, `LifecycleConfig`, `LifecycleReturns`, `SchedulerService`).
  Start, Stop, its background finalizer, Apply, the workers, cron functions on their way into enqueue and
  every other user of the two mutexes are threads of a transition system; one action is one critical
  section, one blocking wait that came true, or one statement outside a lock. The state is always stopped,
  running or stopping, one worker pool is alive at a time, no task crosses from one run to another, and
  nothing gets stuck as long as the timezone is not changed: left alone, the service always comes to rest,
  with every stop completed. What a caller may rely on when Start, Stop or Apply has returned is stated for
  every run, and tasks are taken from a queue in the order they were sent. Two documented intentions hold on exact
  regions only, which are stated: an Apply that changes the timezone during a stop leaves a live cron
  behind, and one that meets a cron function on its way into enqueue blocks the service for good.
- **One-time tasks** (`OnceTimers`, `OnceRuns`, `OnceTables`). Five maps, version numbers, timers that fire
  before they get the lock. Each definition's job is handed over at most once; a callback runs the
  definition it was armed for exactly when the name's version entry was not deleted in between.
- **Cron definitions** (`CronIndex`, `CronCapture`, `CronRuns`, `CronTable`). The slice with its backing
  arrays, compacted in place, and the cron entries whose closures point into it. Definitions and entries
  correspond one to one; which definition an entry really fires is given for every removal and upsert, and a run
  fires the right ones throughout exactly if no operation writes a cell that a surviving entry points to.
  Entries of crons that Start found in the service's field and did not stop are included: what they make
  of the correspondence, exactly when there are any, and a removed definition that goes on firing.
- **Overlap policy and workers** (`Overlap`, `Worker`). Runs of a skipping definition never overlap as long
  as a firing that passes the test finds no other copy on its way, and can overlap otherwise. Retry loop,
  backoff delays in 64 bits, bounded history.
- **Plugin manager** (`PluginReconcile`, `PluginRuns`, `PluginManager`). Reconciliation through all its
  exits over arbitrary plugin outcomes, any visiting order, whole runs. The branch of setQuarantine that
  counts a repeated error turns out never to be taken.
- **Configuration delivery** (`ConfigDelivery`, `ConfigManager`). One publisher and any number of
  subscribers interleaved; publish, drop the oldest, retry, coalesce. The newest configuration wins.
- **Auto-recover** (`AutoRecover`, `AutoRecoverPlugin`). Backoff with 64-bit wrap-around, gating, alert
  spacing over whole outages. With the program's own defaults the computation is exact; with a base of
  2^33 ns or more it is not, and a delay that is not positive switches the gating off. The tick keeps its
  times in terms of its own start, so the restarts and alerts themselves may be closer by their lag.
- **Command front end** (`CommandLine`, `CommandFlags`, `Sanitize`, `CommandTree`, `CommandRegistry`,
  `CommandManager`, `RequestId`). Tokenizer, flag parser, menu names, the mutable command tree and its
  shortcuts, routing, request identifiers.
- **Bounded stores** (`History`, `EnabledCache`, `ScheduleHelper`, `ScheduleRuns`). The speedtest history
  ring and compaction, the cache before systemd's IsEnabled, the plugins' schedule helpers over the
  scheduler.

`Wrappers`, `Text`, `Int64` and `Lists` hold what several modules share.

Protocols are transition systems over values, because their steps interleave; the objects whose fields
the program updates are classes, whose methods are proved to have exactly the effect of the corresponding
step or function. Foreign calls (plugins, systemd, the cron parser, clocks, random numbers) are parameters
that may answer anything.

## Model

| member | source | states |
|---|---|---|
| SchedulerService.Service.Start | internal/services/scheduler/service.go:54-123 | start: what the section under s.mu does in all three phases is the transition of StartEnter, including queue, cron, wait group and workers; a start from stopped adds as many workers as configured, or 2 |
| SchedulerService.Service.Stop | internal/services/scheduler/service.go:129-153 | stop: the first section; marks the stop in progress and takes the cron out of the service |
| SchedulerService.Service.Apply | internal/services/scheduler/service.go:35-52 | keeps the new configuration in every phase, stopped included; with another timezone, unless stopped, begins a restart of the cron |
| SchedulerService.Service.StopAndWait | internal/services/scheduler/service.go:129-192 | a stop carried through to its end by one caller: stopped, no worker left, the run's stop channel and the stop's done channel each closed once more, the cron dead, queues and configuration untouched |
| SchedulerService.Service.Restart | internal/services/scheduler/service.go:84-118 | stop and start again: exactly one pool of the configured size, in a run of a new number with an empty queue of its own and a live cron of its own; the old queue is left behind and the old cron is dead |
| SchedulerService.System.Perform | internal/services/scheduler/service.go:35-193 | every action of the transition system, of any thread at any program point, is one method call on the objects with exactly that effect |
| SchedulerService.Execute | internal/services/scheduler/service.go:35-193 | any schedule performed on the objects leaves them in the state of the run; there the wait group counts the workers, all of the current run, a stopped service has none, and no channel was closed twice |
| LifecycleSafety.RunInv | internal/services/scheduler/service.go:35-193 | every action of every thread keeps the invariant: phases, channel ownership, crons, logs |
| LifecycleSafety.OnePool | internal/services/scheduler/service.go:59-118 | in every reachable state all live workers belong to the current run, the wait group counts them, a stopped service has none, and no channel was closed twice |
| LifecycleSafety.OneStopper | internal/services/scheduler/service.go:128-184 | at most one thread is in charge of a stop, and the service is then stopping that very run |
| LifecycleSafety.NoStaleTask | internal/services/scheduler/service.go:87-88 | a task is only executed by workers of the run in whose queue it was put, while that run is current |
| LifecycleSafety.StopWaitsForWorkers | internal/services/scheduler/service.go:173-188 | once a done channel is closed the run it stands for has no worker left, then or later |
| LifecycleSafety.StoppedMeansNoCron | internal/services/scheduler/service.go:44-50 | a stopped service has no live cron if and only if no timezone-changing Apply restarted a cron during a stop so far |
| LifecycleSafety.RunningMeansOneCron | internal/services/scheduler/service.go:44-94 | a running service has no live cron but its own, unless it is just restarting it, if and only if no timezone-changing Apply restarted a cron during a stop so far: Start does not stop the one it finds |
| LifecycleProgress.NoDeadlock | internal/services/scheduler/service.go:59-82 | in every reachable state with an unfinished thread some thread can step, except while an Apply waits for a cron function that has not passed enqueue's lock |
| LifecycleProgress.NeverStuck | internal/services/scheduler/service.go:129-184 | in runs without a timezone-changing Apply that exception never arises |
| LifecycleProgress.DoomedForever | internal/services/scheduler/api.go:325-328 | the exception is permanent: s.mu stays with the waiting Apply whatever anybody does |
| LifecycleProgress.ReachesDoomed | internal/services/scheduler/worker.go:15-18 | from any running state with a live cron and a free s.mu the stuck state can be reached |
| LifecycleProgress.DeadlockReachable | internal/services/scheduler/api.go:325-328 | such a run from the initial state |
| LifecycleLiveness.NoEndlessRun | internal/services/scheduler/service.go:54-193 | without new calls, firings and cancellations the service never goes on for ever, whichever threads get their turns: a well-founded measure falls with every step, workers' loops and Starts that wait for several stops included |
| LifecycleLiveness.LeftAlone | internal/services/scheduler/service.go:128-192 | from every reachable state the service so left alone comes to rest, and wherever it does every stop has closed its done channel, no stop is under way, no call, callback or task is left waiting, and no worker is left of a run that was closed or cancelled, unless it is stuck behind an Apply with another timezone |
| LifecycleLiveness.DoomExactly | internal/services/scheduler/service.go:44-50 | in every reachable state an action leads into the deadlock if and only if it is the section of an Apply with another timezone while a function of the service's cron is before enqueue's lock, or such a function passing the test of its running flag while that Apply waits |
| LifecycleConfig.ConfigIsLast | internal/services/scheduler/service.go:35-46 | in every run the service holds the configuration of the last Apply that got its turn, in whatever phase, or the one it was made with |
| LifecycleConfig.StartSpawns | internal/services/scheduler/service.go:80-115 | a Start that finds the service stopped in any reachable state leaves exactly as many workers as the last applied configuration asks for, or 2, all of the new run |
| LifecycleReturns.StartReturns | internal/services/scheduler/service.go:54-122 | in every reachable state a call of Start that returns without giving up leaves the service running; it waits for a stop in progress and looks again |
| LifecycleReturns.StopReturns | internal/services/scheduler/service.go:124-193 | whatever everybody does meanwhile, when a call of Stop returns without giving up the run it found is over, no worker of it is left, and the cron it found in a running service is dead with none of its functions on the way |
| LifecycleReturns.ApplyDrains | internal/services/scheduler/api.go:325-339 | restartLocked puts a new cron in place only when the old one is dead and none of its functions is on the way |
| LifecycleReturns.SignalledLeaves | internal/services/scheduler/worker.go:32-49 | a worker that looks at its signals or waits for a task leaves, and tells the wait group, if and only if its stop channel is closed or its context cancelled |
| LifecycleReturns.TakenInOrder | internal/services/scheduler/worker.go:12-51 | in every run the tasks taken from a queue followed by those in it are exactly the tasks sent to it while it held fewer than 256, in the order they were sent |
| LifecycleDelivery.EnqueueReaches | internal/services/scheduler/worker.go:15-22 | in every reachable state a task handed to enqueue gets past the lock if and only if the service is not stopped then, and is bound for the current run's queue |
| LifecycleDelivery.SendReaches | internal/services/scheduler/worker.go:23-29 | it enters that queue behind everything in it if and only if that holds fewer than 256 tasks when it is sent; otherwise no queue changes |
| LifecycleDelivery.EndedRunLoses | internal/services/scheduler/worker.go:32-49 | once a run is not current any more no task of its queue is ever executed, whatever happens next |
| LifecycleProgress.StoppedWithLiveCronReachable | internal/services/scheduler/service.go:173-184 | a run after which the service is stopped and a cron still live |
| OnceTables.OnceTable.AddOnce | internal/services/scheduler/api.go:126-205 | the section under s.tmu equals the model's upsert; refuses the empty name and the zero time |
| OnceTables.OnceTable.OnFire | internal/services/scheduler/api.go:168-200 | the callback's test, deletion and hand-over, in all cases of missing entries |
| OnceTables.OnceTable.Remove | internal/services/scheduler/api.go:243-265 | removal on all five maps, with the stopped timer |
| OnceTables.OnceTable.Clear | internal/services/scheduler/service.go:165-171 | stop: timers stopped and forgotten, definitions kept |
| OnceTables.OnceTable.Rebuild | internal/services/scheduler/api.go:341-404 | the loop that re-arms every kept definition and drops nil jobs equals the model's rebuild, in any order of names |
| OnceRuns.TablesAgree | internal/services/scheduler/api.go:126-206 | in every run the four persisted maps have the same keys, the timers' keys are among them, and between start and stop all five agree and each timer is armed under the current version |
| OnceRuns.HandedAtMostOnce | internal/services/scheduler/api.go:174-200 | every task handed to enqueue carries its definition's name, timeout and job, and no definition is handed over twice |
| OnceRuns.EveryDefinitionAccounted | internal/services/scheduler/api.go:243-265 | a definition is persisted or handed over, replaced, removed or dropped for a nil job, never both; it counts as handed over if and only if the list of tasks handed over has one for it |
| OnceRuns.VersionsIncrease | internal/services/scheduler/api.go:153-155 | while a name's version entry is not deleted its version grows by one per upsert and otherwise not at all |
| OnceRuns.CallbackRunsItsOwn | internal/services/scheduler/api.go:168-179 | a callback that passes the test hands over its own definition if and only if the version entry was not deleted since it was armed |
| OnceRuns.StaleCallback | internal/services/scheduler/api.go:186-262 | after fire, remove and add again, the old callback hands over the new definition's job |
| OnceRuns.FiredAroundStop | internal/services/scheduler/api.go:180-200 | when a timer fires before a Stop and its callback runs after it, the definition is deleted and the next Start does not arm it again |
| OnceRuns.PhaseExactly | internal/services/scheduler/api.go:136-205 | what each step makes of each timer: one stopped by Stop, by Remove of its name, by an upsert of its name or by a Start was the one the table mapped and had not fired; no other timer is touched |
| OnceRuns.SpentForever | internal/services/scheduler/service.go:165-171 | a timer that was stopped or whose callback ran never fires and never hands anything over again, whatever happens |
| OnceRuns.StopKeepsDefinition | internal/services/scheduler/service.go:165-171 | a definition whose timer has not fired when Stop runs stays as it is, whatever happens to other names while the service is down, and the next Start arms a timer for it under its version |
| OnceRuns.StartKeepsExactly | internal/services/scheduler/api.go:349-372 | Start keeps exactly the definitions with a job, with their time and timeout; one with a nil function is dropped from all five maps and will never run |
| CronTable.Compact | internal/services/scheduler/api.go:290-301 | the in-place loop over the array is a stable filter, and the cells behind keep what they held |
| CronTable.DefTable.Unregister | internal/services/scheduler/api.go:281-289 | the entries of that name leave the cron and their ids are cleared, nothing else changes |
| CronTable.DefTable.Remove | internal/services/scheduler/api.go:275-304 | removal by trimmed name on array, length and cron; reports whether a definition of that name existed |
| CronTable.DefTable.Append | internal/services/scheduler/api.go:64-64 | append writes the next cell, or moves to a new array with any spare capacity |
| CronTable.DefTable.Register | internal/services/scheduler/api.go:306-323 | an accepted spec gets an entry pointing at the definition's cell; a refused one changes nothing |
| CronTable.DefTable.Add | internal/services/scheduler/api.go:44-81 | the whole upsert, including the definition kept when the running cron refuses its spec |
| CronTable.DefTable.StartCron | internal/services/scheduler/service.go:92-97 | a new cron with every definition registered anew |
| CronIndex.RemoveDefs | internal/services/scheduler/api.go:290-301 | the list after removal is the list without that name, in order |
| CronIndex.AddAgrees | internal/services/scheduler/api.go:52-77 | after an upsert the list is the old one without the name plus the new definition; it is in the cron exactly if its spec is valid |
| CronRuns.RunInv | internal/services/scheduler/api.go:275-323 | in every run definitions with a valid spec and the entries of the cron in the service's field correspond one to one, and a name that a removal can find stands in the list at most once |
| CronRuns.RunAgrees | internal/services/scheduler/service.go:84-97 | whenever the service runs, the live entries of all crons, abandoned ones included, and the definitions with a valid spec correspond one to one if and only if no Start so far found a cron with entries in the field |
| CronRuns.AbandonedExactly | internal/services/scheduler/service.go:44-50 | a running service has another live cron beside its own if and only if an Apply with another timezone came between a Stop and its completion |
| CronRuns.AbandonedForever | internal/services/scheduler/api.go:281-289 | an abandoned cron keeps all its entries whatever is added, removed, stopped or started later |
| CronRuns.RemovedStillFires | internal/services/scheduler/service.go:92-94 | start, add A, stop, Apply with another timezone, start, remove A: the list is empty and an entry goes on firing A's job |
| CronRuns.OwnCapture | internal/services/scheduler/api.go:306-318 | had closures captured definitions by value, the service's own cron would fire each definition with a valid spec once, through the entry it lists, and each abandoned cron at most once more |
| CronRuns.RunUnique | internal/services/scheduler/api.go:50-52 | names stay unique in runs that add names equal to their trimmed form |
| CronRuns.UpsertTwice | internal/services/scheduler/api.go:276-276 | upserting a name twice leaves one definition if and only if the name is trimmed |
| CronRuns.Removable | internal/services/scheduler/api.go:230-241 | some call to Remove removes a definition if and only if its name is trimmed and not empty |
| CronCapture.RemoveFaithful | internal/services/scheduler/api.go:290-301 | wherever every entry reads its own definition, a removal keeps it so if and only if no surviving entry points to a cell that the compaction moves another definition into |
| CronCapture.AddRead | internal/services/scheduler/api.go:52-66 | what any cell an entry may point to holds after an upsert, of a new name or an existing one: the new definition, the next one, or what it held |
| CronCapture.AddFaithful | internal/services/scheduler/api.go:44-81 | wherever every entry reads its own definition, an upsert of any name with any spec keeps it so if and only if no surviving entry points to a cell that the compaction or the append writes |
| CronCapture.ReAddTrace | internal/services/scheduler/api.go:306-318 | add A, add B, add A again: B's entry enqueues A's job |
| CronCapture.RemoveAddTrace | internal/services/scheduler/api.go:64-66 | add A, add B, remove A, and all is well; add C, a new name, and B's entry enqueues C's job |
| CronRuns.RunFaithful | internal/services/scheduler/api.go:306-323 | in any run of upserts, removals, starts, stops and Applies, every live entry of every cron fires its own definition at every moment if and only if no operation wrote a cell that a live entry outliving it points to |
| Overlap.QuietRunsAlone | internal/services/scheduler/doc.go:25-29 | if every firing that passes the test finds no copy of the definition on its way, at most one run is active and the flag is set exactly then |
| Overlap.TestExactly | internal/services/scheduler/api.go:306-318 | a firing puts its task on its way if and only if the definition does not skip or its flag is not set, that is, where the flag tells, if nobody executes it |
| Overlap.OverlapExactly | internal/services/scheduler/worker.go:53-66 | with two workers, two simultaneous runs can come about without a further firing if and only if two copies of the task exist |
| Overlap.NoisyFiring | internal/services/scheduler/api.go:306-318 | one firing of a skipping definition makes overlap possible if and only if it passes while another copy is on its way |
| Overlap.TwoFirings | internal/services/scheduler/worker.go:31-66 | two firings and two workers suffice |
| Worker.BackoffDelay | internal/services/scheduler/worker.go:174-209 | the delay is the jittered 64-bit doubling, never negative, never above the maximum |
| Worker.BackoffExact | internal/services/scheduler/worker.go:188-196 | the doubling is exact up to the maximum for every retry if and only if the base can be doubled past the maximum in 64 bits |
| Worker.JitterBounds | internal/services/scheduler/worker.go:197-208 | with a jitter of at most 1 the delay stays within that fraction of the ideal |
| Worker.DelayExact | internal/services/scheduler/worker.go:174-209 | the delay is half a second, or the base given, doubled with each retry up to 15 seconds, or the maximum given, times 1 + (2u-1) of a fifth, or the jitter given, cut at zero and at the maximum |
| Worker.Attempt | internal/services/scheduler/worker.go:76-120 | one attempt and as many retries as the task asks for, else the configuration: up to the first success, the last one allowed, or a wait that was cut short |
| Worker.Executor.ExecOne | internal/services/scheduler/worker.go:53-155 | attempts and outcome as for Attempt, flag cleared at the end, one line added to the history, of which the last 200 are kept where no size is set |
| Worker.HistoryIsRecent | internal/services/scheduler/worker.go:144-154 | the history is always the most recent executions in order, at most as many as configured |
| Worker.HistoryIsLast | internal/services/scheduler/worker.go:144-154 | under one size it is exactly the last so many, 200 where none is set |
| PluginManager.Manager.SetQuarantine | internal/core/plugins.go:115-137 | quarantine with its count and start time, as coded |
| PluginReconcile.QuarantineTells | internal/core/plugins.go:115-137 | after any number of reasons for quarantine: the last one, since when it was given without another in between, and how many there were |
| PluginManager.Manager.ClearQuarantineOnChange | internal/core/plugins.go:103-113 | a quarantine of another configuration is dropped |
| PluginManager.Manager.StopOne | internal/core/plugins.go:231-277 | a running registered plugin is cancelled, stopped and forgotten in all maps; others untouched |
| PluginManager.Manager.EnableOne | internal/core/plugins.go:310-380 | all exits of starting a plugin: quarantined, bad timeouts, Init, validation, configuration, Start, success |
| PluginManager.Manager.ReapplyOne | internal/core/plugins.go:386-433 | all exits of reconfiguring a running plugin |
| PluginManager.Manager.Reconcile | internal/core/plugins.go:279-439 | for an arbitrary visiting order each plugin ends as its own step says; registry refreshed |
| PluginManager.Manager.StopAll | internal/core/plugins.go:200-215 | every registered plugin is stopped and nothing is published |
| PluginManager.Manager.Register | internal/core/plugins.go:186-193 | registration changes no plugin's state |
| PluginReconcile.AfterSettles | internal/core/plugins.go:310-433 | after a step a running plugin is enabled; an enabled one runs unless it is quarantined at this configuration or failed Init or Start just now, never both |
| PluginReconcile.AfterTwice | internal/core/plugins.go:310-433 | a second step with the same configuration calls the plugin if and only if Init or Start had failed, and otherwise changes nothing |
| PluginReconcile.AfterFits | internal/core/plugins.go:310-433 | for each way an operation on a plugin can end: the calls made to it in order, the state, hash and quarantine left, and what became of its context |
| PluginReconcile.OneEnding | internal/core/plugins.go:310-433 | every operation ends in one of these ways, told by the configuration, the plugin and its answers |
| PluginReconcile.ConfigPassedOn | internal/core/plugins.go:386-433 | a running, enabled, configurable plugin is given the configuration if and only if its own changed and has good timeouts, or did not change but the global settings did |
| PluginRuns.RunInv | internal/core/plugins.go:186-439 | in every run the maps agree, no running plugin is quarantined, every context is stored or cancelled but not both, and no quarantine was ever counted twice |
| PluginRuns.ReconcileSettles | internal/core/plugins.go:279-439 | a plugin runs after reconcile if and only if the configuration names and enables it, it is not quarantined at it, and Init and Start did not fail now; the published ones are those that run |
| PluginRuns.ReconcileFits | internal/core/plugins.go:279-439 | the calls, state and contexts that reconcile leaves of each registered plugin, by the way its operation ends |
| PluginRuns.GlobalsPassedOn | internal/core/plugins.go:281-433 | reconcile passes changed global settings on to every enabled running plugin that takes configurations, and calls OnConfigChange on no other but those whose own changed |
| PluginRuns.ReconcileTwice | internal/core/plugins.go:281-304 | reconciling twice is a fixed point except for retries of failed Init or Start |
| PluginRuns.OrderIndependent | internal/core/plugins.go:296-308 | the result does not depend on the order of map iteration |
| ConfigDelivery.RunInv | internal/core/config.go:100-160 | every step of commit, publish, subscribe, unsubscribe, receive and apply keeps the invariant of every subscription |
| ConfigDelivery.NeverGivesUp | internal/core/config.go:144-157 | with buffered channels and one publisher the give-up branch is never reached |
| ConfigDelivery.OrderKept | internal/core/app.go:226-243 | every subscriber receives configurations in publication order, each at most once |
| ConfigDelivery.NewestWins | internal/core/app.go:223-253 | whenever nothing is on its way the subscriber's last applied configuration is the manager's |
| ConfigDelivery.PublisherAdvances | internal/core/config.go:130-158 | the publisher never waits for a subscriber |
| ConfigDelivery.SwapRemoveSubset | internal/core/config.go:114-122 | swap-remove takes out exactly the channel that leaves |
| ConfigManager.Manager.Unsubscribe | internal/core/config.go:108-124 | the loop removes exactly that channel from the list |
| ConfigManager.Manager.Publish | internal/core/config.go:126-160 | without a subscriber moving, each channel gets the configuration at the price of its oldest if full |
| ConfigManager.Manager.Reload | internal/core/config.go:187-236 | a parsed configuration is committed and published exactly if it differs and is accepted; otherwise nothing changes |
| ConfigManager.Manager.Load | internal/core/config.go:85-92 | startup commits without publishing |
| ConfigManager.KeepsNewest | internal/core/config.go:133-157 | after any publications an unread channel holds the newest ones in order |
| AutoRecover.JobTimeoutExact | plugins/systemd/auto_recover.go:126-135 | the job timeout is one restart timeout per unit plus 15 s, kept between 30 s and 5 min, if and only if that sum fits 64 bits or what is left of it there still comes to 5 min |
| AutoRecover.JobTimeoutOverflows | plugins/systemd/auto_recover.go:126-135 | for every restart timeout some number of units needs too much for 64 bits and gets 30 s instead of 5 min |
| AutoRecover.ParseParams | plugins/systemd/auto_recover.go:115-145 | each parameter is its own setting where that is present and positive, else its own default: 3 s, 5 s, 5 min, 10 min, 3 failures, 15 s for a restart; the job timeout between 30 s and 5 min |
| AutoRecover.BackoffExact | plugins/systemd/auto_recover.go:293-304 | the backoff is the base doubled per failure up to 30 times and capped, for every streak, if and only if the base is below 2^33 ns |
| AutoRecover.BackoffMonotone | plugins/systemd/auto_recover.go:293-304 | below that base it never shrinks as the streak grows |
| AutoRecover.DefaultBackoff | plugins/systemd/auto_recover.go:115-304 | with no settings the delay is 5 s, doubled with every failure after the first, 5 min at most, after any number of failures |
| AutoRecover.TenSecondBase | plugins/systemd/auto_recover.go:293-304 | at 10 s and the 31st failure the product is negative and the cap does not catch it |
| AutoRecover.AttemptsOnlyLongDown | plugins/systemd/auto_recover.go:187-272 | in every run a failure comes from a tick that saw the unit down for minDown by one of its time stamps |
| AutoRecover.OutageExactly | plugins/systemd/auto_recover.go:203-345 | in every run the next tick tries a restart if and only if the unit was never found missing, has been down for minDown by the stamp that counts, and the last delay is over; a failure is one more of the outage, a success or a unit seen active end it, nothing else changes it |
| AutoRecover.GatingOff | plugins/systemd/auto_recover.go:269-308 | a failure lets every later tick try again at once if and only if the delay it sets is not positive |
| AutoRecover.Separated | plugins/systemd/auto_recover.go:269-308 | the ticks of two failures in a row of one outage start at least the jittered backoff apart; this holds of the ticks' starts only |
| AutoRecover.AttemptsApart | plugins/systemd/auto_recover.go:214-319 | the restarts themselves, which come later than their tick's start, are apart at least what the first one's lag leaves of the backoff |
| AutoRecover.AttemptsClose | plugins/systemd/auto_recover.go:214-319 | that bound is reached for every lag; with a lag of the whole delay the second restart follows at once |
| AutoRecover.DelaysNearIdeal | plugins/systemd/auto_recover.go:293-308 | below 2^33 ns every delay in every run lies within the jitter's range of the ideal one |
| AutoRecover.FirstAlert | plugins/systemd/auto_recover.go:310-313 | the first alert of an outage comes with exactly the failure that reaches the alert streak |
| AutoRecover.AlertSpacing | plugins/systemd/auto_recover.go:310-313 | the ticks of any two alerts of an outage start at least alertEvery apart |
| AutoRecover.AlertsApart | plugins/systemd/auto_recover.go:310-341 | the alerts themselves, sent after their restarts failed, are apart at least alertEvery less the first one's lag |
| AutoRecover.AlertsClose | plugins/systemd/auto_recover.go:310-341 | that bound is reached |
| AutoRecoverPlugin.Plugin.Visit | plugins/systemd/auto_recover.go:218-342 | one unit of the tick: its new state, and whether an alert goes out |
| AutoRecoverPlugin.Plugin.AutoRecoverTick | plugins/systemd/auto_recover.go:203-345 | the loop over a list that may repeat units |
| AutoRecoverPlugin.Plugin.ValidateAllowlistOnce | plugins/systemd/auto_recover.go:147-173 | exactly the units not found are marked missing |
| AutoRecoverPlugin.VisitsAreRun | plugins/systemd/auto_recover.go:216-343 | the visits of a unit in a tick continue that unit's own run |
| CommandLine.TokenizeCommandLine | internal/core/parse.go:55-104 | the loop computes the model's scan of the trimmed text |
| CommandLine.TokensNonEmpty | internal/core/parse.go:67-72 | no text yields an empty token |
| CommandLine.TokenizePrinted | internal/core/parse.go:51-104 | quoting arguments with either quote, from any position on, with backslash escapes in and outside quotes and any blanks between, and tokenizing returns the word and exactly the arguments that are not empty |
| CommandLine.TokenizeExact | internal/core/parse.go:51-104 | the round trip is exact if and only if no argument is empty |
| CommandLine.Unclosed | internal/core/parse.go:55-104 | a last quote that is missing is forgiven: an argument that does not end in white space is read all the same |
| CommandLine.Dangling | internal/core/parse.go:73-104 | so is a lone backslash at the end |
| CommandFlags.ParseFlags | internal/core/parse.go:112-157 | the index loop computes the model's parse |
| CommandFlags.ParseExactly | internal/core/parse.go:106-157 | parsing what was written gives back flags, boolean flags and positionals if and only if no boolean flag stands right before a positional |
| CommandFlags.CommandRoundTrip | internal/core/parse.go:51-157 | print, tokenize, parse: the whole way returns what was meant |
| CommandFlags.ClusterFlags | internal/core/parse.go:142-152 | a cluster sets the flag of each of its characters and no other |
| CommandFlags.RuneReadBack | internal/core/parse.go:142-152 | the name of such a flag is the character in UTF-8, from which its number can be read back |
| RequestId.Base36 | internal/core/parse.go:33-49 | at most 13 base 36 digits that decode to the absolute value; none for the smallest integer |
| RequestId.Fill | internal/core/parse.go:41-47 | filling the array from its end writes the digits of the number, within the buffer |
| RequestId.RendersAlike | internal/core/parse.go:33-49 | two integers have the same digits if and only if they are equal up to their sign; only the smallest has none |
| RequestId.SequenceReadBack | internal/core/parse.go:14-22 | the sequence number can be read back from an identifier if and only if it is below 2^63 |
| RequestId.DistinctIds | internal/core/parse.go:14-22 | identifiers of different sequence numbers below 2^63 differ, whatever clock and random characters |
| RequestId.Generator.NewReqId | internal/core/parse.go:14-22 | no identifier of the first 2^63 is given twice |
| Sanitize.SanitizeTelegramCommand | internal/core/menu.go:13-64 | the code computes the model's sanitizing, both truncations and the cmd_ prefix included |
| Sanitize.SanitizedLegal | internal/core/menu.go:11-64 | every string gives the empty string or a legal name: 1 to 32 of [a-z0-9_], a letter first, no trailing or doubled underscore |
| Sanitize.FixedPoints | internal/core/menu.go:13-64 | the strings left alone are exactly the legal names, so sanitizing twice is sanitizing once |
| Sanitize.NamelessExactly | internal/core/menu.go:48-59 | a string has no name if and only if no letter or digit remains of it |
| Sanitize.SeparatorsJoin | internal/core/menu.go:35-42 | dashes, slashes, underscores and white space between two parts of a name become one underscore, however many there are |
| Sanitize.OthersVanish | internal/core/menu.go:22-44 | any other character vanishes |
| Sanitize.DigitFirst | internal/core/menu.go:57-62 | what begins with a digit gets the prefix cmd_ |
| Sanitize.CutTo32 | internal/core/menu.go:50-52 | what is too long is cut to 32 characters, or 31 where the last of them would be an underscore |
| Sanitize.RouteNameLegal | internal/core/menu.go:66-86 | the menu name of a route is legal and not empty |
| Sanitize.RouteNameSpelled | internal/core/menu.go:66-86 | the menu name of a route of legal words is the words with an underscore between each two |
| CommandTree.Tree.Add | internal/core/commandtree.go:26-40 | adds the command under its route: the map changes there only, the nodes gain the route's prefixes |
| CommandTree.Tree.Find | internal/core/commandtree.go:42-52 | finds the node of a path if and only if there is one |
| CommandRegistry.TableIsLast | internal/core/commands.go:162-172 | a route finds the last accepted command given with it, and nothing else is found |
| CommandRegistry.NodesAre | internal/core/commandtree.go:26-40 | the nodes are exactly the prefixes of the registered routes |
| CommandRegistry.AliasesReach | internal/core/commands.go:172-210 | every shortcut points to a reachable node that holds a command |
| CommandRegistry.AliasesAre | internal/core/commands.go:173-210 | the shortcuts are exactly the claimed names, each pointing to its owner: the last command to give it, else the first to claim it |
| CommandRegistry.ShortcutResolves | internal/core/commands.go:362-368 | a shortcut runs the command at its target under the command's own route with all arguments |
| CommandRegistry.DescentDeepest | internal/core/commands.go:370-391 | the walk stops at the deepest node along the words, before the first flag or miss, and only there |
| CommandRegistry.WordRead | internal/core/commands.go:352-355 | of the first word what comes before the first @ counts, with or without a slash in front of it |
| CommandRegistry.ResolvesDeepest | internal/core/commands.go:370-406 | a word that is no shortcut runs the command at the deepest node along the words with the words left over, or shows that group's help |
| CommandRegistry.ResolvesNowhere | internal/core/commands.go:362-376 | a word is unknown if and only if it is no shortcut and no route begins with it |
| CommandRegistry.RoutesAre | internal/core/commands.go:162-172 | a route is found if and only if some command with a handler has it |
| CommandRegistry.RouteIsLast | internal/core/commands.go:162-172 | what it finds is the last such command |
| CommandRegistry.NamesAre | internal/core/commands.go:173-210 | the shortcuts are exactly the menu names of the routes, unless they are the route, and the aliases, trimmed or made safe, that are not empty and have no blank inside |
| CommandRegistry.HelpShortcut | internal/core/commands.go:146-160 | whatever is registered, the word h leads to the help command with all arguments |
| CommandRegistry.WordExactly | internal/core/commands.go:362-406 | a word that is a command's whole route runs that command with all arguments if and only if no other command owns it as a shortcut and, where nobody does, the first argument is none, a flag, or does not continue a registered route |
| CommandRegistry.HelpExactly | internal/core/commands.go:146-160 | the same of the word help and the help command that is always added |
| CommandRegistry.HelpTaken | internal/core/commands.go:362-391 | a plugin's alias help takes the word away, a route below help takes that subcommand |
| CommandRegistry.LegalReadsAsItself | internal/core/commandtree.go:18-24 | every legal name reads as itself as a route, an alias and a menu name |
| Text.FieldsSpread | internal/core/commandtree.go:18-24 | words with white space before each and any at the end are what comes back |
| CommandRegistry.MenuNameShadows | internal/core/commands.go:174-193 | a group command's menu name shadows a root command of that name, in either order |
| CommandManager.Manager.SetRegistry | internal/core/commands.go:146-210 | the tree and the shortcuts that are swapped in are the model's registry of the commands and help |
| CommandManager.Manager.RouteMessage | internal/core/commands.go:346-406 | the resolution of a message's words is the model's |
| CommandManager.AddAliases | internal/core/commands.go:196-209 | the loop over one command's aliases |
| History.Ring.Push | plugins/speedtest/history.go:226-233 | the ring holds the last so many elements, oldest first |
| History.ReverseInPlace | plugins/speedtest/history.go:239-242 | the two-index loop reverses the array |
| History.GetRecentResults | plugins/speedtest/history.go:187-244 | the last min(n, 50) valid records, newest first; none for n at most 0 |
| History.Compact | plugins/speedtest/history.go:267-357 | writes the last maxRecords, or 2000, valid records not before the cutoff, in order; removed plus kept is the number of non-empty lines |
| History.CompactTwice | plugins/speedtest/history.go:267-357 | compacting again at the same moment writes the same lines and removes nothing |
| History.CompactEarlier | plugins/speedtest/history.go:267-357 | in a file in the order of time, compacting earlier with an earlier cutoff and appending more lines does not change the file a later compaction writes |
| History.SchemaFilled | plugins/speedtest/history.go:331-333 | a record without a schema gets schema 1; nothing else about a record changes |
| History.CutoffExact | plugins/speedtest/history.go:275-275 | the cutoff is the intended moment if and only if at most 106751 days are kept |
| EnabledCache.Manager.IsEnabled | pkg/systemdmanager/systemdmanager_linux.go:483-542 | a question is answered from the cache if and only if the backend gave an answer less than a TTL ago that was not pruned away; failures are not cached; the cache is pruned exactly if it became too large or at every 64th insertion; the size stays within the maximum |
| EnabledCache.LearntRemembered | pkg/systemdmanager/systemdmanager_linux.go:495-541 | what was learnt and not pruned away is remembered, with that answer, until one TTL has passed and no longer |
| EnabledCache.NewestStays | pkg/systemdmanager/systemdmanager_linux.go:164-195 | a new entry is never pruned away when all others expire before it |
| EnabledCache.Manager.PruneEnabledCache | pkg/systemdmanager/systemdmanager_linux.go:164-195 | drops all expired entries, then keeps as many as fit, those that expire last |
| EnabledCache.Manager.SetEnabledCacheMax | pkg/systemdmanager/systemdmanager_linux.go:152-162 | the new maximum, 512 where none is given, holds at once |
| EnabledCache.Manager.SetEnabledCacheTTL | pkg/systemdmanager/systemdmanager_linux.go:121-134 | a new TTL, 0 meaning five minutes, empties the cache |
| EnabledCache.KeysByExpiry | pkg/systemdmanager/systemdmanager_linux.go:183-190 | the keys sorted by expiry, each once |
| EnabledCache.DropFirst | pkg/systemdmanager/systemdmanager_linux.go:191-194 | deletes exactly the first so many keys |
| ScheduleHelper.NamesDisjoint | internal/pluginkit/schedule.go:151-159 | two plugins can share a full name if and only if their names are equal, one is empty, or one continues the other behind a colon |
| ScheduleHelper.Helper.Do | internal/pluginkit/schedule.go:203-230 | registers under the full name and remembers it only on success |
| ScheduleHelper.Helper.Remove | internal/pluginkit/schedule.go:114-124 | removes the schedule and forgets the name |
| ScheduleHelper.Helper.Cleanup | internal/pluginkit/schedule.go:128-143 | in any order, removes exactly the remembered names and leaves all other schedules as they were |
| ScheduleHelper.RefusedStays | internal/services/scheduler/api.go:64-77 | a schedule refused by a running cron is kept under its name although the caller gets an error |
| ScheduleHelper.RegisteredHolds | internal/services/scheduler/api.go:44-206 | registering succeeds exactly for a name that is not white space and a spec the running cron, if any, parses, or a one-time task with a name and a time, and then the schedule is there as it was asked for |
| ScheduleRuns.RunInv | internal/pluginkit/schedule.go:114-143 | in every run over several plugins whatever is scheduled is remembered by a helper or left from a failed registration |
| ScheduleRuns.CleanupExactly | internal/pluginkit/schedule.go:128-143 | after a cleanup a name is scheduled if and only if it was and the helper did not remember it |
| ScheduleRuns.CleanupComplete | internal/pluginkit/schedule.go:128-143 | nothing the helper registered remains, and no schedule of a plugin with non-colliding names changed |
| ScheduleRuns.CleanupLeavesNothing | internal/pluginkit/schedule.go:128-143 | if no registration failed, nothing is left under the plugin's names |
| ScheduleRuns.RefusedOutlives | internal/pluginkit/schedule.go:225-229 | a refused schedule outlives the cleanup |

## Left out

- Telegram adapter, notifier, logging, pprof, help text, menus, middleware and panic recovery: input, output and presentation.
- D-Bus, /proc and systemctl reads, batch operations and the service watcher: foreign calls; only the cache before them is modelled, over an arbitrary backend.
- Cron expressions, the cron library's own scheduling, durations as text, JSON and hashing: specs are valid or not, a duration parses or not, decoding is a partial function, and hashes do not collide.
- The broadcast service: it is not wired into the application and repeats the scheduler's lifecycle.
- Schedule strings, HH:MM parsing, callback routes and the rest of the command handlers: single-branch claims.
- LifecycleProgress.NoDeadlock: jobs are assumed to end and not to call Stop and wait for it themselves; Go's select between ready cases is free, fairness is not modelled.
- LifecycleLiveness.LeftAlone: a job that never ends or a cron that goes on firing keeps the service from coming to rest; here jobs end and nothing fires meanwhile.
- SchedulerService.Service.StopAndWait: one caller with nobody else about, so nothing of the cron is in flight and its wait is over at once; LifecycleLiveness.LeftAlone has every interleaving.
- LifecycleSafety.NoStaleTask: worker panics end a worker in the program after the wait group is informed; the model's workers do not panic.
- OnceRuns.VersionsIncrease: for fewer than 2^64 upserts between two deletions; the 64-bit counter is modelled with its wrap-around.
- Overlap.OverlapExactly: for services with at least two workers, the default; with one worker no two runs are ever active.
- Text: only ASCII white space is white space; the sanitizer has a Unicode table as a parameter, the scheduler's and tokenizer's trimming has not.
- Worker.JitterBounds: floating point is replaced by reals, and a product beyond 64 bits is not converted back.
- AutoRecover.AttemptsApart: ticks are taken not to overlap, as the job asks the scheduler to skip a tick while one runs; Overlap says when the scheduler keeps to that.
- AutoRecover.Separated: holds of the starts of ticks, which is what the program writes down; AutoRecover.AttemptsApart and AutoRecover.AttemptsClose say what remains of it for the restarts.
- AutoRecover.DelaysNearIdeal: floating point is replaced by reals; the jitter's range 0.7 to 1.3 is a parameter; times do not saturate.
- PluginManager.Manager.Reconcile: one reconcile at a time, as the application calls it; a Start that goes on after its timeout is not followed.
- PluginRuns.RunInv: the base context is not cancelled meanwhile.
- ConfigDelivery.NewestWins: channels are buffered and the debounced callbacks of Watch do not overlap, so there is one publisher; published configurations are never nil.
- ConfigManager.Manager.Publish: the nil entries that publish skips cannot occur in the list and are not modelled.
- CommandLine.TokenizePrinted: strings are byte strings; the printed word needs no quoting and every argument ends in quotes.
- CommandManager.Manager.RouteMessage: access checks, callbacks and the job queue behind resolution are not modelled, nor is the swap's lock.
- RequestId.Generator.NewReqId: the atomic increment is one step; the random characters are letters and digits and play no other part.
- History.Compact: file operations and their errors, and lines longer than the scanner's buffer, which end the reading.
- EnabledCache.Manager.IsEnabled: sequential calls; two concurrent misses may both ask the backend.
- EnabledCache.KeysByExpiry: an insertion sort stands for the library's sort, which leaves the order of equal expiries open.
- ScheduleRuns.CleanupComplete: speaks of definitions; an abandoned cron, CronRuns.RemovedStillFires, may go on firing one that was cleaned up.
- ScheduleRuns.RunInv: full names are trimmed and not empty; CronRuns.Removable says what happens to others.
- CronRuns.RunFaithful: a firing is read at one moment; that a closure may read a cell while another goroutine writes it is not modelled.
- ScheduleHelper.Helper.Do: the builder's default timeout and overlap option are passed through and not modelled.
