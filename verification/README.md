# Verified model of the agent runtime's decision logic

This project models the parts of the runtime whose correctness is about every input or every run, and
proves those properties with Dafny's verifier: the cron trigger, the capability engine with its linter
and command-line aliases, the egress budget meter and deny receipts, the checkpoint store, the Telegram
approval bridge and the directory watcher. `dafny verify dfyconfig.toml` checks everything.

| file | models |
|---|---|
| `Common.dfy` | options, results, splitting strings |
| `Calendar.dfy` | the proleptic Gregorian calendar of Python's `datetime` |
| `CronSchedule.dfy`, `CronSearch.dfy`, `CronLiveness.dfy`, `CronTrigger.dfy` | docker/cron_mcp.py |
| `Paths.dfy`, `Capabilities.dfy` | agentd/src/capability.rs and the `std::path` operations under it |
| `Linter.dfy` | agentd/src/check.rs |
| `CapAlias.dfy` | agentctl/src/spawn.rs |
| `BudgetMeter.dfy`, `DenyReceipts.dfy` | agentd/src/egress.rs |
| `Checkpoint.dfy` | agentd/src/checkpoint.rs |
| `ApprovalRelay.dfy`, `ApprovalDurability.dfy`, `ApprovalBridge.dfy` | docker/telegram_mcp.py |
| `DirectoryWatcher.dfy` | docker/fs_watch_mcp.py |

Code that changes state step by step is a class or a method with loops, proved against a pure function;
the properties are lemmas about those functions and about runs. In runs, a crash may fall between any two
effects: a call is a list of atomic effects and a crashed call performs a prefix of it (checkpoint, relay),
or it carries the point it dies at (trigger). Everything the code reads from outside (clocks, scans, HTTP
answers, whether a write succeeds, token counts) is a parameter, so the lemmas hold for all of it.

## What the code does that its comments do not say

- `_init` reads the clock twice, first for the catch-up decision and then for the search
  (docker/cron_mcp.py:320, 337). A restart keeps the stored fire exactly when the second reading is still
  before it (`CronTrigger.RestartIsTransparent`). When the due minute falls between the two readings, what
  is decided lies beyond the second one and that fire is never answered by any continuation
  (`CronTrigger.SkippedForGood`; `CronTrigger.SkipIsReachable` is a run that does it).
- A restart in interval mode always counts the whole interval again (`CronTrigger.IntervalRestartPostpones`).
- A process that dies after storing the next fire and before answering loses the fire it was answering, for
  good (`CronTrigger.CallLosesFireIff`, `CronTrigger.LostForGood`, `CronTrigger.LossIsReachable`).
- `TRIGGER_MAX_WAIT_S` is never forgiven: the wait start is reset only by a fire, so after one timeout every
  later call of that process times out, and a due fire or pending changes are not reported any more
  (`CronTrigger.ExpiredForGood`, `DirectoryWatcher.ExpiredForGood`); `CronTrigger.DueCanBeStranded` and
  `DirectoryWatcher.PendingCanBeStranded` are runs that end so.
- The 366-day limit is strict, so a schedule with a single yearly minute raises when asked exactly on that
  minute with zero seconds and 29 February lies ahead, and on no other reading
  (`CronLiveness.OnePointFailsIff`); `CronLiveness.AlwaysFiresIff` says exactly which accepted schedules can
  never raise.
- `normalize_path` keeps a `..` taken at the root, so `/../etc` and `/etc` name the same directory and a grant
  of one does not let the other through. `Paths.ContainmentIsExact` says what the test means for all paths:
  containment of places with equally many `..` at the root, or at least as many when the root is granted.
- A two-tool MCP request can be denied by a parent and allowed by a child it covers, because coverage is by
  union and satisfaction per entry; `Capabilities.NoGainIff` shows that several tools at once is the only
  way to gain. The runtime itself asks for one tool at a time (agentd/src/tools/mcp.rs:1004-1008), so such a
  gain takes a direct call of `satisfies` with more.
- A tool listing asks `satisfies_type`, which lists a file tool for any grant of its kind. What it hides cannot
  be used (`Capabilities.HiddenToolIsUnusable`), but a listed file tool can be used on some path exactly when
  one of the grants has a valid prefix (`Capabilities.ListedFileToolIsUsableIff`).
- Suggestions come from a template and need not be absolute. An empty one passes every path at the CLI guard
  and none at runtime, any other relative one passes none at the guard and may at runtime, and the guard has
  no case for `RunJob`. `CapAlias.GuardAgreesIff` says exactly when the two agree, on every suggestion list.
- A rebase of the budget window is a read and a store; tokens metered in between are counted in the new window
  (`BudgetMeter.RebaseRace`). A publish is two stores. For some arguments a read around both would see less
  than the totals before and after (`BudgetMeter.BelowBothIff` says for which), but the scheduler only lets
  the lifetime grow or moves the anchor to it (agentd/src/scheduler.rs:276-279, 1854, 1920, 3361), and then
  every racing read is the true native term of some moment in between (`BudgetMeter.NativeReadIsReal`).
- A crash can make the bridge repeat an accepted post or an update, but only when the process that did it
  first ended before it stored anything more, or any offset beyond that update
  (`ApprovalDurability.RepeatsNeedACrash`).
- The second checkpoint copy is one save behind, so a spoilt primary can cost one save and never more while
  the copy is there; between saves there is only one copy (`Checkpoint.SpoiltPrimaryFallsBack`,
  `Checkpoint.RunOneBehind`).

## Model

| member | source | states |
|---|---|---|
| Calendar.MinutesOrder | docker/cron_mcp.py:149-158 | counting minutes agrees with `datetime`'s field-wise order, and no two valid datetimes share a minute |
| Calendar.EveryMinuteIsADateTime | docker/cron_mcp.py:146-147 | every later minute is the minute of exactly one valid datetime, so scanning datetimes scans all minutes |
| Calendar.PlusDay | docker/cron_mcp.py:171 | adding a day is 1440 minutes later at the same time of day, across month ends, year ends and leap days |
| Calendar.PlusHour | docker/cron_mcp.py:176 | adding an hour is 60 minutes later |
| Calendar.PlusMinute | docker/cron_mcp.py:146 | adding a minute is one minute later |
| CronSchedule.ParseField | docker/cron_mcp.py:59-90 | accepts a field exactly when every comma token is legal, and returns exactly the values in range that some token selects |
| CronSchedule.FieldNeverEmpty | docker/cron_mcp.py:59-90 | an accepted field selects at least one value |
| CronSchedule.ParseCron | docker/cron_mcp.py:93-112 | five fields, each by its meaning, weekday 7 folded to 0, stars remembered literally |
| CronSchedule.ParsedIsValid | docker/cron_mcp.py:93-112 | every accepted expression gives non-empty fields within their ranges |
| CronSchedule.ExpressionMeaning | docker/cron_mcp.py:93-112 | a written expression gives a schedule if and only if its five fields, in the order minute, hour, day of month, month, weekday, have those values in their own ranges |
| CronSchedule.ListField | docker/cron_mcp.py:59-90 | a written list of numbers gives exactly those, and is refused if and only if one is out of range |
| CronSchedule.StepField | docker/cron_mcp.py:66-79 | `*/n` gives every n-th value from the low end, and `*/0` is refused |
| CronSchedule.FieldUnion | docker/cron_mcp.py:59-90 | a comma unites what its sides give, and a fault on either side refuses the field |
| CronSchedule.OnlyStarsStep | docker/cron_mcp.py:66-79 | a step on anything but a star is refused |
| CronSchedule.OtherFieldsAreRefused | docker/cron_mcp.py:59-90 | ranges, names and any other characters are refused |
| CronSchedule.WordsGap | docker/cron_mcp.py:93-112 | any run of white space separates two fields |
| CronSearch.NextFireCron | docker/cron_mcp.py:140-186 | the search that skips months, days and hours returns what a minute-by-minute scan returns, for every schedule and clock reading, and terminates |
| CronSearch.NextFireIsTheFirst | docker/cron_mcp.py:140-186 | what is found matches, is later than the reading, lies strictly before 366 days and has no match before it; nothing is found exactly when no minute of the window matches |
| CronSearch.WeekdayFire | docker/cron_mcp.py:160-168 | with a restricted weekday only, the next fire is the first allowed minute on a day that many days after a Sunday, within 366 days |
| CronSearch.MonthDayFire | docker/cron_mcp.py:160-168 | with a restricted day of the month only, it is the first allowed minute on such a day |
| CronSearch.AnyDayFire | docker/cron_mcp.py:160-168 | with neither restricted, it is the first allowed minute of any day |
| CronSearch.EitherDayFire | docker/cron_mcp.py:160-168 | with both restricted, it is the earlier of the next fires with either field starred |
| CronSearch.NextFireIsStable | docker/cron_mcp.py:140-186 | searching again from any later reading before the found fire finds the same fire |
| CronLiveness.AlwaysFiresIff | docker/cron_mcp.py:140-186 | the search never raises for a schedule if and only if the day of month is free, or a weekday rule is in force, or two different minutes of the year are allowed of which one exists every year |
| CronLiveness.AcceptedExpressionFires | docker/cron_mcp.py:93-186 | every accepted expression with `*` as day of month or a restricted weekday has a fire in the window of every reading |
| CronLiveness.WeekdayScheduleFires | docker/cron_mcp.py:160-168 | the same for parsed schedules, through seven consecutive whole days of an allowed month within a year |
| CronLiveness.OnePointFailsIff | docker/cron_mcp.py:147-149 | a schedule with one yearly minute raises on a reading if and only if that is this very minute, with no seconds gone, and the next one is 366 days away |
| CronTrigger.Trigger.PersistNext | docker/cron_mcp.py:254-267 | stores the next fire with the schedule's fingerprint if there is a state directory and the write succeeds, and else leaves the file alone |
| CronTrigger.Trigger.Init | docker/cron_mcp.py:297-343 | fires at once if the file holds a due fire of this very schedule, and else next after the interval or at the next fire of the schedule; stores that, and fails exactly when the search raises; with a working state directory it is the boot step of the runs |
| CronTrigger.Trigger.AdvanceNextFire | docker/cron_mcp.py:287-294 | moves to the reading plus the interval, or to the next fire of the schedule, and stores it; a search that raises leaves everything as it was |
| CronTrigger.Trigger.Wait | docker/cron_mcp.py:350-407 | what each reply says and when it is given, the new state, and a sleep until the fire or the end of the clamped timeout, whichever comes first; with a working state directory it is the call step of the runs |
| CronTrigger.RunsAreSafe | docker/cron_mcp.py:237-407 | over every run of boots, calls, kills and crashes, with schedules changing between boots: no fire is early, each is due after the answer to the one before, and a stored fire is due already or was computed for its schedule |
| CronTrigger.FiresAreOrdered | docker/cron_mcp.py:350-407 | from a first boot on, due times and answers strictly increase |
| CronTrigger.RestartIsTransparent | docker/cron_mcp.py:237-276 | after any run, with the schedule unchanged and the stored fire ahead at the first reading, a cron boot decides on the stored fire if and only if it is ahead at the second reading too; what it decides on is beyond that reading, and it dies exactly when the search raises there |
| CronTrigger.SkippedForGood | docker/cron_mcp.py:320-338 | a boot whose two readings straddle the stored fire and that stores its decision skips that fire in every continuation |
| CronTrigger.SkipIsReachable | docker/cron_mcp.py:320-338 | a run from a first boot on that reaches such a boot |
| CronTrigger.IntervalRestartPostpones | docker/cron_mcp.py:329-330 | an interval boot before its fire postpones it by the time already waited |
| CronTrigger.DueStaysDue | docker/cron_mcp.py:270-276 | a due fire stays due through any number of restarts and crashes that neither answer nor replace it |
| CronTrigger.CallLosesFireIff | docker/cron_mcp.py:381-400 | a call on a due fire answers it or leaves it due, except exactly when it dies between storing and answering |
| CronTrigger.LostForGood | docker/cron_mcp.py:381-400 | that fire is answered by no continuation |
| CronTrigger.LossIsReachable | docker/cron_mcp.py:381-400 | a run from a first boot on in which it happens |
| CronTrigger.DueIsAnsweredIff | docker/cron_mcp.py:360-400 | a call that wakes on a due fire answers it if and only if the total waiting time is not used up and the search succeeds |
| CronTrigger.ExpiredForGood | docker/cron_mcp.py:360-374 | once a process has timed out on its total limit, no later call of it answers or stores anything |
| CronTrigger.DueCanBeStranded | docker/cron_mcp.py:360-374 | a run from a first boot on that ends with a due fire in a process that has timed out |
| CronTrigger.MissedFireIsAnsweredOnce | docker/cron_mcp.py:328-339 | a due time passed while down is answered by the first call, once, with what is stored next beyond that call's clock |
| Paths.NormalizePath | agentd/src/capability.rs:190-208 | the pushing and popping loop computes the normal form of the components |
| Paths.NormalizedComponents | agentd/src/capability.rs:190-208 | the rendered result splits into exactly that normal form, which has no `.` and no name before `..`; absolute stays absolute |
| Paths.NormalizeIdempotent | agentd/src/capability.rs:190-208 | normalising twice gives the same string as once |
| Paths.NormalizeKeepsPlace | agentd/src/capability.rs:186-208 | the normalised path names the same place from every working directory, `..` at the root staying there |
| Paths.AnchorAbsPlace | agentd/src/capability.rs:71-77 | absolutising gives an absolute normal form that names the same place |
| Paths.ContainmentIsSound | agentd/src/capability.rs:249-279 | component-wise containment of absolutised paths implies containment of places |
| Paths.RootedIsDetermined | agentd/src/capability.rs:190-208 | the normal form of an absolute path is the root, then one `..` for each climb above the root, then the names of the place |
| Paths.NormKeepsClimbs | agentd/src/capability.rs:193-202 | normalising keeps how often a path climbs above the root |
| Paths.ContainmentIsExact | agentd/src/capability.rs:249-279 | for every prefix and path, component-wise containment is containment of places with as many climbs above the root on both sides, or at least as many where the prefix names the root |
| Paths.RelativePrefixIsBelowAnchor | agentd/src/capability.rs:79-88 | a valid relative prefix names something at or below the anchor |
| Capabilities.AllowedFileIsInside | agentd/src/capability.rs:249-279 | every file the runtime check allows lies inside a granted directory of its kind, and inside the anchor when that grant is relative |
| Capabilities.AllowedFileIff | agentd/src/capability.rs:249-279 | for every request and grant list, a file is allowed if and only if a valid grant of its kind contains its place and climbs above the root alike |
| Capabilities.RefusedInsideIff | agentd/src/capability.rs:249-279 | a request inside a granted directory is refused if and only if the two climb above the root differently |
| Capabilities.ClimbingRequestIsRefused | agentd/src/capability.rs:190-208 | `/../x` names the same place as `/x` and is refused by a grant of it |
| Capabilities.CoverComposes | agentd/src/capability.rs:348-405 | what B covers A covers, when A covers all of B, for every capability kind |
| Capabilities.ChainNarrows | agentd/src/scheduler.rs:2525-2531 | along a chain of spawns and narrowings of any length, inheriting and unrestricted sets included, the last set narrows the first |
| Capabilities.NoGain | agentd/src/capability.rs:249-395 | a covered set satisfies no request of at most one MCP tool that its parent does not satisfy |
| Capabilities.ChainNoGain | agentd/src/scheduler.rs:2525-2531 | the same from the top of a spawn chain to its end |
| Capabilities.NoGainIff | agentd/src/capability.rs:284-297 | a request is never gained by attenuation if and only if it names at most one MCP tool |
| Capabilities.BareSegmentIff | agentd/src/capability.rs:413-451 | a non-empty segment covers two different agents' memory namespaces if and only if it is the bare word |
| Capabilities.HeldIff | agentd/src/capability.rs:299-331 | a credential is satisfied and covered if and only if one for this very provider is in the list, and each unit capability if and only if it is itself in the list |
| Capabilities.SegmentAllowedIff | agentd/src/capability.rs:298-324 | a segment is allowed if and only if it is, or lies below in either spelling, a granted segment of the same kind |
| Capabilities.ToolsAllowedIff | agentd/src/capability.rs:284-297 | MCP tools are satisfied if and only if one entry of the server holds them all or is empty |
| Capabilities.ToolsCoveredIff | agentd/src/capability.rs:356-383 | MCP tools are covered if and only if an entry of the server is empty, or they are named and each is in some entry |
| Capabilities.NetworkIff | agentd/src/capability.rs:350-355 | the network is always satisfied, and covered if and only if one entry covers the hosts and the ports |
| Capabilities.ValidPrefixIff | agentd/src/capability.rs:79-88 | a granted prefix is valid if and only if it is absolute or leads strictly below every working directory |
| Capabilities.NarrowsIff | agentd/src/scheduler.rs:2525-2531 | an unrestricted parent refuses nothing; a restricted one refuses an unrestricted child and any child with a capability it does not cover, unless it inherits |
| Capabilities.ListedIff | agentd/src/capability.rs:218-238 | a listing asks for any grant of the kind, and any other request as it is |
| Linter.CheckConfig | agentd/src/check.rs:65-258 | the report holds exactly the defects present in servers, agents, jobs and credential wiring, each with its severity; it has no error if and only if the config is well formed |
| Linter.ErrorFreeIff | agentd/src/check.rs:65-258 | in either profile, no errors means: the agents are given in one form, no HTTP server is sandboxed, every MCP grant names a server, no segment is the bare word, every held credential is carried by a stdio server and, when strict, every file prefix is absolute and unpadded; and conversely |
| Linter.UnwiredProviderIff | agentd/src/check.rs:236-245 | a wiring defect is there if and only if an agent or job holds a credential whose provider no stdio server carries |
| Linter.UnknownServerIff | agentd/src/check.rs:135-144 | an unknown server is there if and only if a holder grants it and no server has that name |
| Linter.UndeclaredSegmentIff | agentd/src/check.rs:58-61 | an undeclared segment is there if and only if a holder grants it, it is not the bare word, and no declared segment is it or lies below it |
| Linter.RelativePrefixIff | agentd/src/check.rs:54-56 | a suspect prefix is there if and only if an agent, job or stdio server has a file grant whose prefix is relative or padded |
| Linter.InertGrantIff | agentd/src/capability.rs:488-514 | which grants are reported as doing nothing, for agents and jobs and for stdio servers |
| Linter.UnrestrictedIff | agentd/src/check.rs:124-130 | an unrestricted agent is reported if and only if one declares no capabilities, and the HTTP exemption if and only if sandboxes are mandatory and a server is HTTP |
| Linter.LintServer | agentd/src/check.rs:77-113 | the findings of one server, and the credential providers a stdio server carries |
| Linter.LintGrants | agentd/src/check.rs:135-180 | the findings of one agent's grants, and the providers they reference |
| Linter.LintJobs | agentd/src/check.rs:186-229 | the findings of all jobs, and the providers they reference |
| Linter.LintWiring | agentd/src/check.rs:236-245 | one error for each provider that is referenced and not provided |
| Linter.CleanConfigIgnoresAnchor | agentd/src/check.rs:54-56 | without strict errors, an absolute file request gets the same answer under every anchor, for every declared capability list |
| Linter.CleanConfigIsolatesMemory | agentd/src/check.rs:146-160 | without errors, no segment granted to an agent or a job covers two agents' memories |
| CapAlias.AliasRoundTrip | agentctl/src/spawn.rs:194-276 | printing what an accepted alias parses to and parsing that again gives the same capability |
| CapAlias.PrintedIsParsed | agentctl/src/spawn.rs:341-359 | every capability an alias can stand for is parsed back from its printed form |
| CapAlias.UnitAliases | agentctl/src/spawn.rs:194-276 | the spellings of spawn and shell execution |
| CapAlias.ReportAliases | agentctl/src/spawn.rs:194-276 | the spellings of runs reading and brief publishing |
| CapAlias.FileReadAlias | agentctl/src/spawn.rs:194-220 | a file alias is accepted if and only if its path is absolute, and names the same place |
| CapAlias.PortAlias | agentctl/src/spawn.rs:245-270 | a port list is accepted if and only if every piece between commas is a port, and gives them in order |
| CapAlias.PortIff | agentctl/src/spawn.rs:245-270 | a number is a port if and only if it is at most 65535, with or without a plus sign |
| CapAlias.PortGuardIff | agentctl/src/spawn.rs:316-329 | the guard passes ports if and only if one suggestion allows any, or they are named and one holds them all |
| CapAlias.NeverAddedAtTheGuard | agentctl/src/spawn.rs:285-338 | MCP tools, credentials and jobs never pass the guard |
| CapAlias.GuardAgreesIff | agentctl/src/spawn.rs:285-338 | for absolute file, segment and unit capabilities, on every suggestion list: guard and runtime check agree on a file if and only if an absolute suggestion contains it, or an empty one and a containing relative one are both there or both missing; on `RunJob` if and only if it is not suggested; on all else always |
| CapAlias.FileGuardIff | agentctl/src/spawn.rs:288-303 | the guard passes a file if and only if an absolute suggestion contains it or an empty one is there |
| CapAlias.FileEntryAgreesIff | agentctl/src/spawn.rs:288-303 | guard and runtime check agree on one suggestion if and only if it is absolute, or not empty and does not contain the file |
| CapAlias.EmptySuggestionParts | agentctl/src/spawn.rs:289-295 | a suggested prefix that normalises to nothing passes every path at the guard and none at runtime |
| CapAlias.RelativeSuggestionParts | agentctl/src/spawn.rs:289-295 | every valid relative suggestion allows a path at runtime that the guard refuses |
| BudgetMeter.GlobalBudgetMeter.AddUniversal | agentd/src/egress.rs:164-168 | adds to the universal spend, saturating |
| BudgetMeter.GlobalBudgetMeter.RebaseUniversal | agentd/src/egress.rs:172-175 | undisturbed, leaves only the native term in the windowed spend |
| BudgetMeter.RebaseRace | agentd/src/egress.rs:172-175 | whatever runs between the read and the store of a rebase, the new window holds exactly the tokens metered in between |
| BudgetMeter.GlobalBudgetMeter.Publish | agentd/src/egress.rs:178-181 | undisturbed, replaces both native counters and nothing else |
| BudgetMeter.PublishRace | agentd/src/egress.rs:178-189 | bounds on what reads racing the two stores of any publish can see, for counters that do not go back |
| BudgetMeter.BelowBothIff | agentd/src/egress.rs:178-189 | exactly the publishes that a read around both stores could see less of than before and after |
| BudgetMeter.NativeReadIsReal | agentd/src/scheduler.rs:276-279 | while each store lets the lifetime grow or moves the anchor to it, a native read racing any number of publishes is the true native term of some moment between its two loads |
| BudgetMeter.RacingReadIsNotBelow | agentd/src/egress.rs:183-189 | so a racing read of the windowed spend, native resets included, is not below the true total of some moment within it |
| BudgetMeter.BetweenStoresIff | agentd/src/egress.rs:178-181 | between the two stores the native term is already the published one if and only if the anchor stays or the new lifetime does not exceed the old anchor |
| BudgetMeter.GlobalBudgetMeter.ReadWindowed | agentd/src/egress.rs:183-189 | the saturating sum of both windows |
| BudgetMeter.RacingReadIsBetween | agentd/src/egress.rs:158-189 | with no reset, four loads at different moments give a value between the totals at the first and the last, and exactly the total at the spend load while the native term is fixed |
| BudgetMeter.MeteringIgnoresOrder | agentd/src/egress.rs:741-753 | under every interleaving a workload's budget is its initial budget less its charges, floored at zero, and the universal spend is the saturated sum of all metered tokens |
| BudgetMeter.ExposureStep | agentd/src/egress.rs:603-650 | within a window, spend plus tokens in flight grows only by an admission made below the ceiling or by native spend |
| BudgetMeter.SoftCap | agentd/src/egress.rs:618-650 | within a window the spend is below the ceiling, or it crossed it at a metering or publishing step and exceeds ceiling - 1 by at most the tokens in flight just before and the native spend since |
| BudgetMeter.ArriveIff | agentd/src/egress.rs:603-638 | a request passes the first check if and only if its workload is known and has budget left |
| BudgetMeter.AdmitIff | agentd/src/egress.rs:638-650 | a checked request is admitted if and only if there is no ceiling or the native and universal spend of the window are below it |
| BudgetMeter.ExhaustedForGood | agentd/src/egress.rs:603-638 | over every run, a workload without budget stays so and none of its later requests gets in |
| DenyReceipts.EgressProxy.RecordInference | agentd/src/egress.rs:239-291 | an allowed inference ends the agent's deny episodes and attempts one receipt |
| DenyReceipts.EgressProxy.RecordDeniedPolicy | agentd/src/egress.rs:353-362 | a flight event on every call, then the receipt once per episode |
| DenyReceipts.EgressProxy.ReceiptDenialOnce | agentd/src/egress.rs:370-413 | a receipt is attempted only for a reason that is new to the agent's episode |
| DenyReceipts.EgressProxy.ForgetAgent | agentd/src/egress.rs:423-427 | forgets one agent's episodes and nothing else |
| DenyReceipts.ReceiptIff | agentd/src/egress.rs:353-427 | over every history, a denied receipt is attempted if and only if no denial of that agent and reason occurred since the agent's last allowed inference or termination |
| DenyReceipts.ReceiptsAreBounded | agentd/src/egress.rs:246-259 | denied receipts per agent and reason are at most one more than the agent's re-arms |
| DenyReceipts.FlightCountsEveryAttempt | agentd/src/egress.rs:353-362 | the flight events of an agent and reason equal its policy denials |
| DenyReceipts.AttemptsLeaveOneEvent | agentd/src/egress.rs:239-413 | over every history, each attempted receipt leaves exactly one event telling whether it was written |
| DenyReceipts.NoLeak | agentd/src/egress.rs:415-427 | the edge map holds an agent only while it has a running episode |
| Checkpoint.CheckpointStore.Save | agentd/src/checkpoint.rs:238-260 | performs exactly its five file operations, in order, and what they make of the directory |
| Checkpoint.CheckpointStore.MarkRestored | agentd/src/checkpoint.rs:277-289 | performs one rename of the primary, and succeeds if either copy is there |
| Checkpoint.CheckpointStore.SweepStaleTmp | agentd/src/checkpoint.rs:304-336 | performs exactly the removals of the listed names of temporary form that are old enough, in order |
| Checkpoint.CheckpointStore.Load | agentd/src/checkpoint.rs:338-383 | the result, and exactly the removals and renames performed, in order |
| Checkpoint.CheckpointStore.Boot | agentd/src/main.rs:1267-1285 | performs exactly the operations of a boot step of the runs, and returns what was loaded |
| Checkpoint.SweepKeepsCopies | agentd/src/checkpoint.rs:291-336 | whatever the directory lists, a sweep leaves both checkpoint copies as they are |
| Checkpoint.SweepIsExact | agentd/src/checkpoint.rs:304-336 | a sweep removes exactly the listed old files named like temporary ones and changes nothing else |
| Checkpoint.UnusableIsKeptAside | agentd/src/checkpoint.rs:353-379 | a copy that cannot be used, of a newer format or damaged, is kept under its `.corrupt` name with its bytes |
| Checkpoint.SaveLeaves | agentd/src/checkpoint.rs:238-260 | a whole save leaves the new state as the only copy, no temporary file, and the rest as it was |
| Checkpoint.LoadReturnsLastDurable | agentd/src/checkpoint.rs:238-383 | over every run of saves and boots with a crash after any file operation, a load returns the state of the last save whose rename took effect, and none only if there was none |
| Checkpoint.LoadAgain | agentd/src/checkpoint.rs:338-383 | on any directory, loading again returns the same checkpoint, and starts fresh after a failure |
| Checkpoint.BootKeepsResult | agentd/src/main.rs:1268-1285 | a whole boot leaves a directory that loads what the boot loaded |
| Checkpoint.SpoiltPrimaryKeepsRestored | agentd/src/checkpoint.rs:360-379 | with a spoilt primary the other copy is loaded and survives the boot |
| Checkpoint.RunOneBehind | agentd/src/checkpoint.rs:238-383 | over every run in which only a completed boot or save is followed by a save, a second copy holds the save just before the last, and a running process keeps one copy |
| Checkpoint.SpoiltPrimaryFallsBack | agentd/src/checkpoint.rs:360-379 | after any such run, what loading with a spoilt primary gives: the save before the last where there were two copies, the last one where the second copy was all, an error where there was none |
| Checkpoint.SpoiltRestoredCostsNothing | agentd/src/checkpoint.rs:338-352 | after any run, a spoilt second copy beside a primary costs nothing |
| ApprovalRelay.RunsAreSafe | docker/telegram_mcp.py:217-456 | every effect, kill and restart keeps the relay's safety invariant |
| ApprovalRelay.CrashedCallIsSafe | docker/telegram_mcp.py:217-456 | a call cut short after any of its effects is a run too, and keeps that invariant |
| ApprovalRelay.RelayIsSafe | docker/telegram_mcp.py:217-456 | over every run with crashes and restarts: each post directly follows a re-read showing the id pending with the digest of an earlier message for it; within one process update ids strictly increase, and between two accepted posts of an id it was sent anew |
| ApprovalDurability.RepeatsNeedACrash | docker/telegram_mcp.py:236-269 | over every run with crashes and restarts, an accepted post comes again without a new message, and an update again or late, only if the process that did it first ended before it stored anything more, or any offset beyond the update |
| ApprovalBridge.Bridge.constructor | docker/telegram_mcp.py:217-233 | a start takes offset and bindings from the stored state |
| ApprovalBridge.Bridge.PersistState | docker/telegram_mcp.py:236-269 | one atomic write, or memory only from then on |
| ApprovalBridge.Bridge.DeliverApproval | docker/telegram_mcp.py:276-299 | a legal run of effects that logs exactly the accepted message and binds the id only to it |
| ApprovalBridge.Bridge.PollManagement | docker/telegram_mcp.py:317-341 | a legal run of effects after which only pending ids are bound, existing bindings are unchanged, and every pending id whose message went out is bound; it sends exactly one message for each id not bound before |
| ApprovalBridge.Bridge.HandleCommand | docker/telegram_mcp.py:368-417 | a legal run of effects that posts if and only if the re-read shows the id with the bound digest, logs exactly the re-read and that post, and unbinds exactly on 200 and 404 |
| ApprovalBridge.Bridge.ProcessUpdate | docker/telegram_mcp.py:420-438 | posts if and only if the operator commands it in a private chat and the re-read confirms it; anything else shows nothing |
| ApprovalBridge.Bridge.HandleUpdates | docker/telegram_mcp.py:441-456 | a legal run of effects that takes the sorted batch turn by turn, with exactly the log, bindings and offset of those turns, processes exactly the new ids and stores the state; every post is commanded by an update of the batch from the operator in a private chat, and a batch without one only advances the offset |
| ApprovalBridge.ConfirmedIsPosted | docker/telegram_mcp.py:441-456 | a batch posts every private command of the operator whose turn comes and whose re-read confirms it, right after that re-read |
| ApprovalBridge.ConfirmsIff | docker/telegram_mcp.py:376-401 | a re-read confirms a command if and only if the first entry with its id has the digest that was delivered |
| ApprovalBridge.StrangersShowNothing | docker/telegram_mcp.py:429-434 | updates that are not from the operator in a private chat show nothing and change no binding |
| ApprovalBridge.OutgoingIff | docker/telegram_mcp.py:317-341 | a poll sends a message for an id if and only if it is not bound and an entry of it can be sent, with the digest of the first such entry |
| ApprovalBridge.BatchIsExact | docker/telegram_mcp.py:441-456 | the ids processed for a batch strictly increase, are not behind the offset, and miss no new update |
| DirectoryWatcher.Diff | docker/fs_watch_mcp.py:102-113 | the two loops report the changes in snapshot order |
| DirectoryWatcher.DiffIsExact | docker/fs_watch_mcp.py:102-113 | a change is reported if and only if its path appeared, differs or vanished |
| DirectoryWatcher.ReplayDiff | docker/fs_watch_mcp.py:102-113 | replaying a diff on the old paths gives the new paths, every change fitting where it applies |
| DirectoryWatcher.Watcher.Wait | docker/fs_watch_mcp.py:174-249 | the polling loop's reply and state, for any clock readings and scans |
| DirectoryWatcher.NothingIsLost | docker/fs_watch_mcp.py:174-249 | over every run of calls, what the replies told followed by what is pending is the concatenation of all diffs, and replays the baseline's paths to the current ones; each report came at least the quiet period after the last scan that differs from the one before it |
| DirectoryWatcher.FlushedIsSound | docker/fs_watch_mcp.py:203-214 | a report keeps that invariant |
| DirectoryWatcher.SettledIsReportedIff | docker/fs_watch_mcp.py:184-214 | changes that are settled when a call looks are reported by it if and only if the total waiting time is not used up |
| DirectoryWatcher.CallScans | docker/fs_watch_mcp.py:177-229 | a call takes the scans of its first turns, all begun before the clamped timeout is over, and stops before that only to report |
| DirectoryWatcher.ExpiredForGood | docker/fs_watch_mcp.py:184-197 | once a call has timed out on the total limit, every later one does and nothing changes |
| DirectoryWatcher.PendingCanBeStranded | docker/fs_watch_mcp.py:184-249 | for every quiet period and limit, a call with readings in clock order after which changes are pending and the limit can be used up by the next call |

## Left out

- Time zones and the naive `timestamp()` conversion: instants are UTC microseconds; the rounding of floating-point seconds is not modelled.
- The years 1 and 9999 as limits of `datetime`: the calendar is unbounded, so overflow near them is not modelled.
- `parse_interval` and the choice between the two environment variables: a configuration holds an interval's text and length as given.
- CronSchedule.ParseField: decimal digits are the ASCII ones; Python's `int` also takes other Unicode digits.
- Runs of the trigger assume a working state directory: a write that fails is an outcome of `CronTrigger.Trigger.PersistNext`, `Init` and `Wait`, and no step of a run.
- File-system errors in the checkpoint store, `fsync`, file modes, and two processes sharing one directory: an operation that returns has taken effect, and one process runs at a time.
- JSON, TOML and the fields of a checkpoint: a file is a version with a state, or unreadable.
- Symbolic links and case-insensitive file systems: paths are lexical, as in the code.
- `check_path`, `McpServerConfig::validate` and the wording of findings: findings are structured values, and their order is not stated.
- CapAlias.PrintedIsParsed: only capabilities an alias can produce; the printed forms of MCP, credential and job capabilities are not parseable and nothing is stated about them.
- A poisoned lock around the deny edges, the signing of receipts and the hash chain: a receipt is an attempted record whose outcome is a parameter.
- HTTP, headers, bodies and sockets of the proxy, and registering or removing workloads while requests run: only check, admit, charge, meter, publish and rebase are steps.
- ApprovalBridge.Bridge.ProcessUpdate: takes the parsed command as input; `parse_command` and the daily brief are not modelled, and an exception inside processing is not a separate outcome.
- Scanning directories, ignore patterns and sleeping between polls in the watcher: a poll's scan and its clock readings are parameters.
- The scheduler, evidence, memory, credential and management modules, the other sidecars, the flight recorder and the user interfaces: easy invariants or services that cannot be seen from here.
