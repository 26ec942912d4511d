# A verified model of the core of home-go

home-go automates a household: it runs appliances when electricity is cheap, warns about extreme prices, keeps
reminders until somebody acknowledges them, and shows its entities to Home Assistant over MQTT. This project states
what its decision-making parts promise, as a model in Dafny, and proves it for all inputs and all runs, much of it for
every outcome of the calls to the outside. `dafny verify dfyconfig.toml` checks everything.

Code that is a loop or changes an object is a method or a class here, proved equal to a function of its inputs or its
old state; the theorems are about those functions, and each main operation has one that names none of them, only the
fields of its inputs. Where the code does not keep what it or its documentation says, the
model follows the code, a lemma shows a concrete case, and another says exactly when it does hold.

| files | what they model |
|---|---|
| `price_slots`, `price_levels`, `price_index`, `price_summary`, `cheapest_window` | the price index: thresholds, cheapest windows and slots, the daily summary and its averages |
| `stage_costs`, `window_search`, `savings`, `cheapest_hours` | the optimizer: cost of a staged cycle, search for its cheapest start and what it saves, charging in the cheapest slots |
| `price_announcer`, `price_alerts`, `price_realerts` | alerts about runs of extreme prices, remembering a single timestamp; which run of prices is alerted, and when one run is alerted again |
| `reminders`, `reminder_store`, `reminder_manager` | a reminder, the store and notifier whose calls can fail, and the manager as objects |
| `reminder_outcomes`, `reminder_tick`, `reminder_runs`, `reminder_escalation` | what each operation makes of the fields of a reminder; what one tick, whole runs and the escalation profiles keep |
| `noise` | the brown and pink noise generators |
| `topics`, `entity_runtime`, `entity_reconnect`, `entity_objects`, `entity_runs` | MQTT entities: topics, the operations with failing publishes, healing after a reconnect, whole runs with restarts |
| `reminder_sync`, `reminder_switches`, `reminder_sync_runs`, `reminder_handler` | one switch per stored reminder: single calls, whole syncs, runs with failures, restarts and reconnects |
| `options`, `outcomes`, `sums` | optional values; how calls to the outside end; totals over sequences and sorting by price |

Choices that hold throughout:

- Times and durations are integers in nanoseconds; the store's truncation to whole seconds is written out. The zero
  time is 0 and a day is 24 hours of that clock, as `Truncate(24 * time.Hour)` cuts it.
- Prices and costs are exact real numbers. Stage boundaries are `i * len / stages`; the original computes them with
  floating-point numbers, which can round the last boundary down and drop a slot.
- `sort.Slice` is not stable: results are stated for every order of equal prices.
- The store, the notifier and the broker take a script of outcomes, so every theorem that does not ask for an empty
  script holds for every pattern of failing calls. Any call can report an error with or without having taken effect.
- Listing the rows of a table or the keys of a map yields any order.
- The optimizer is asked for a cycle that is not negative and a first slot of positive length; with a slot of no length
  the original converts an infinite number to an integer, which the language leaves open.
- Each operation is one step; see below for concurrency.

## Model

| member | source | states |
|---|---|---|
| PriceLevels.ComputeThresholdsFromPrices | internal/domain/pricing/levels.go:65-78 | each threshold is the price of the rounded percentile rank, whatever the sort does with ties; both are 0 for no prices |
| PriceLevels.ComputeMedian | internal/domain/pricing/index.go:44-53 | the median is midway between the two middle ranks, which coincide for an odd number of prices |
| PriceLevels.SortingIsUnique | internal/domain/pricing/levels.go:70-72 | two sorted lists of the same prices are equal, so ranks are well defined |
| PriceLevels.RankIsMonotone | internal/domain/pricing/levels.go:74-77 | a price of lower rank is never higher |
| PriceLevels.ThresholdsBracketMedian | internal/domain/pricing/index.go:43-53 | for every non-empty price list: cheap threshold <= median <= expensive threshold |
| PriceLevels.RankCounts | internal/domain/pricing/levels.go:74-77 | at least k+1 prices are at or below the price of rank k, and at least n-k at or above it |
| PriceLevels.CheapShare | internal/domain/pricing/levels.go:65-78 | at least round(0.35(n-1)) + 1 prices are at or below the cheap threshold |
| PriceLevels.ExpensiveShare | internal/domain/pricing/levels.go:65-78 | at least n - round(0.7(n-1)) prices are at or above the expensive threshold |
| PriceIndexes.NewPriceIndex | internal/domain/pricing/index.go:35-57 | the middle of all slot prices, and the prices of rank round(0.35(n-1)) and round(0.7(n-1)), in bracketing order; all zero for no slots |
| PriceIndexes.SlotAt | internal/domain/pricing/index.go:73-80 | finds the first slot with From <= t < Till, or none if there is none |
| PriceIndexes.FirstContainingFound | internal/domain/pricing/index.go:73-80 | the slot SlotAt answers with has From <= t < Till and no earlier one has; without an answer none has |
| PriceIndexes.SlotAtIsTheSlotAround | internal/domain/pricing/index.go:73-80 | on disjoint slots SlotAt answers with the one slot around t |
| PriceIndexes.SlotsInRange | internal/domain/pricing/index.go:209-221 | the skip and break loop computes the slots ending after from, up to the first starting at or after the deadline |
| PriceIndexes.RangeIsBlock | internal/domain/pricing/index.go:209-221 | on sorted disjoint slots that is exactly the block of consecutive slots overlapping [from, deadline) |
| CheapestWindow.FindCheapestWindow | internal/domain/pricing/index.go:104-138 | on a timeline: the earliest of the cheapest options, an option being consecutive slots of the range grown until they last the duration or the range runs out, ending by the deadline; found exactly when there is an option |
| CheapestWindow.GrowBlock | internal/domain/pricing/index.go:114-122 | the inner loop grows exactly that block and adds up its prices |
| CheapestWindow.CheapestIsBest | internal/domain/pricing/index.go:104-138 | the block chosen among the candidates is, in terms of the slots alone, the earliest of the options of least average price |
| CheapestWindow.FoundIff | internal/domain/pricing/index.go:125-138 | some block ends in time exactly when the slots have an option |
| CheapestWindow.CheapestWindowOnTimeline | internal/domain/pricing/index.go:104-138 | on sorted disjoint slots the block is consecutive slots of the index within the range; if it is shorter than the duration it is the tail of the candidates |
| CheapestWindow.TailBargainWins | internal/domain/pricing/index.go:116-134 | prices under which the single last candidate, shorter than the duration, is the answer |
| CheapestWindow.FullLengthAtAnyPrices | internal/domain/pricing/index.go:101-138 | the documented requested duration is reached at all prices if and only if the last candidate overruns the deadline or is itself long enough |
| CheapestWindow.FindCheapestSlots | internal/domain/pricing/index.go:141-155 | n candidates, sorted by price, no other choice of as many of which costs less in total |
| PriceSummaries.Summary | internal/domain/pricing/index.go:168-207 | the two loops compute the run-length summary split into cheap, expensive and negative windows |
| PriceSummaries.RunsCutTheCandidates | internal/domain/pricing/index.go:182-191 | the runs cut the candidates into consecutive blocks of one level and sign, and neighbouring runs differ |
| PriceSummaries.SummaryAgreesWithSlotAt | internal/domain/pricing/index.go:168-207 | on contiguous slots every instant of the range lies in a window of a kind exactly when the slot SlotAt finds is of that kind |
| PriceSummaries.SummaryInPrices | internal/domain/pricing/index.go:168-207 | on contiguous slots an instant of the range lies in a negative window iff the price around it is below 0, in a cheap one iff it is between 0 and the cheap threshold, in an expensive one iff it is not negative, above the cheap and at or above the expensive threshold; in neither of these with both thresholds 0 |
| PriceSummaries.ConvertWindows | internal/tech/mcp/pricing/conversion.go:173-203 | every window keeps its bounds and gets the mean price of the slots starting in it |
| PriceSummaries.StartingInIsBlock | internal/tech/mcp/pricing/conversion.go:173-203 | on sorted slots the average of a window is over exactly the slots with window start <= From < window end |
| PriceSummaries.WindowAveragesItsRun | internal/tech/mcp/pricing/conversion.go:173-203 | that mean is of exactly the slots merged into the window |
| PriceSummaries.PriceRange | internal/tech/mcp/pricing/conversion.go:145-169 | least price, average, and a maximum that is the greatest price or 0; all 0 for an empty range |
| PriceSummaries.MaximumIsRightIff | internal/tech/mcp/pricing/conversion.go:145-161 | the reported maximum is the greatest price if and only if some price in the range is not negative |
| StageCosts.StagesPartition | internal/domain/optimizer/optimizer.go:284-291 | slot j lies between the boundaries of stage i exactly when i is the stage of j computed from j alone |
| StageCosts.ListsPartition | internal/domain/optimizer/optimizer.go:284-291 | for any number of stages and slots the boundaries ascend from 0 to the end and every slot has one stage, empty stages included |
| StageCosts.CalculateCostForWindow | internal/domain/optimizer/optimizer.go:268-325 | total and weighted cost equal the per-slot reference sums; the allocations hold every slot once and in order |
| StageCosts.AllocateStage | internal/domain/optimizer/optimizer.go:284-317 | stage i gets the slots between its boundaries, its weight, and what those slots cost |
| StageCosts.StageCost | internal/domain/optimizer/optimizer.go:296-307 | average price times power times stage length equals the price total times power times slot hours, also for an empty stage |
| StageCosts.StagesAddUp | internal/domain/optimizer/optimizer.go:284-324 | the stages together hold all slots, and their costs add up to the per-slot sums, plain and weighted |
| StageCosts.CostsBySlot | internal/domain/optimizer/optimizer.go:284-317 | both costs as sums over the slots: price times power times hours for slot j, weighted with the weight of the stage in which that slot ends |
| StageCosts.EstimatedCostClosedForm | internal/domain/optimizer/optimizer.go:305-309 | the estimated cost is the sum of all slot prices times power times slot hours |
| StageCosts.EqualWeights | internal/domain/optimizer/optimizer.go:309-310 | when all slots have one weight the weighted cost is that weight times the estimated cost |
| WindowSearch.SlotsNeeded | internal/domain/optimizer/optimizer.go:126-132 | the fewest slots that last the cycle, capped by what is available; none for a cycle of no length |
| WindowSearch.FindBestWindow | internal/domain/optimizer/optimizer.go:142-201 | the earliest window of least weighted cost among the starts the loop reaches, with its times, costs and allocations; null exactly when it reaches none; an index error exactly for no slots needed and no slot that makes the loop break |
| WindowSearch.BreakLosesNothing | internal/domain/optimizer/optimizer.go:156-175 | on slots sorted by start the early break skips no candidate |
| WindowSearch.BestReachedIsBest | internal/domain/optimizer/optimizer.go:142-201 | so the result is the earliest of the cheapest among all candidates |
| WindowSearch.FindFirstValidSlot | internal/domain/optimizer/optimizer.go:234-241 | the first slot not ended before now, or 0 |
| WindowSearch.ImmediateIsCandidate | internal/domain/optimizer/optimizer.go:243-252 | when any start is a candidate so is the immediate one, so the guard in calculateSavings always holds |
| WindowSearch.CalculateSavings | internal/domain/optimizer/optimizer.go:243-265 | savings compare with the cost of starting at once; nothing else of the result changes |
| WindowSearch.CreateImmediateResult | internal/domain/optimizer/optimizer.go:203-232 | without a candidate: the costs and allocations of starting in the first valid slot, cut off at the last slot |
| WindowSearch.BestOrImmediate | internal/domain/optimizer/optimizer.go:104-113 | on sorted slots: the best window with its savings, or the immediate start when there is no candidate |
| WindowSearch.Optimize | internal/domain/optimizer/optimizer.go:91-124 | in the request's own terms, on sorted slots: with now the later of clock and startAfter, the answer starts in the earliest of the slots of least weighted cost among all that have not ended, have enough slots after them, and let the cycle end within maxDelayHours hours, with savings against the first slot left; with no such slot it starts in the first not ended, or the first of all; no result exactly for an empty list, which is an error, or a cycle of no length that no slot starting too late keeps from running past the last one |
| Savings.OneWeightSavesMoney | internal/domain/optimizer/optimizer.go:258-259 | when all slots of a window have one weight that is not negative, savings are not negative |
| Savings.SavesMoneyIff | internal/domain/optimizer/optimizer.go:142-265 | over all prices of a given day savings are never negative if and only if the cycle can start in one slot only, or all slots of a window have one weight that is not negative |
| Savings.ReportedSavings | internal/domain/optimizer/optimizer.go:259 | the reported savings are then not negative |
| Savings.UnequalWeightsCanCostMore | internal/domain/optimizer/optimizer.go:198-259 | a request with unequal weights whose best window costs 10 where starting at once costs 3 |
| CheapestHours.GetWindowSlots | internal/domain/optimizer/optimizer.go:789-801 | the loop collects the window, slot by slot |
| CheapestHours.WindowIsOffer | internal/domain/optimizer/optimizer.go:789-801 | the window is, in their order, the slots with From <= now < Till and those with now < From < now + windowSize, and no others |
| CheapestHours.WindowCounts | internal/domain/optimizer/optimizer.go:789-801 | each of these as often as it is listed |
| CheapestHours.SelectCheapestSlotsByDuration | internal/domain/optimizer/optimizer.go:873-896 | the first prefix of some order by price that lasts the target, or everything |
| CheapestHours.SelectionIsCheapest | internal/domain/optimizer/optimizer.go:873-896 | a sub-multiset of the window, no dearer than any other choice of as many slots, for every order of ties |
| CheapestHours.SelectionIsShortest | internal/domain/optimizer/optimizer.go:873-896 | with slots of one length no part of the window lasting the target has fewer slots |
| CheapestHours.SelectionReachesTargetCheapest | internal/domain/optimizer/optimizer.go:873-896 | with slots of one length and no negative price it is the cheapest way to last the target at all |
| CheapestHours.IsCurrentSlotInSelection | internal/domain/optimizer/optimizer.go:898-905 | whether a selected slot contains now |
| CheapestHours.ChargeNowIsNeeded | internal/domain/optimizer/optimizer.go:430-474 | charging now means that slots around now or starting within windowSize that are strictly cheaper do not last the target, however chosen |
| CheapestHours.WaitingIsEnough | internal/domain/optimizer/optimizer.go:430-474 | not charging now means that the selected slots, all around now or starting within windowSize, none dearer than the current one and none the current one, do last the target |
| CheapestHours.GetCurrentPrice | internal/domain/optimizer/optimizer.go:924-931 | the price SlotAt would find, or 0 |
| CheapestHours.CalculateAveragePrice | internal/domain/optimizer/optimizer.go:907-913 | the mean of the prices |
| CheapestHours.OptimizeOpportunistic | internal/domain/optimizer/optimizer.go:413-474 | each validation error in its order; an error exactly when no slot is around now or starts within windowSize; otherwise the cheapest choice of as many such slots, the decision with the two laws above, the price of the slot around now or 0, the average over all such slots and the saving against it |
| PriceAnnouncer.FirstExtremeRun | internal/domain/devices/priceannouncer/announcer.go:185-219 | the one-pass scan returns the first maximal run of extreme slots in view that is long enough, or none |
| PriceAlerts.FirstRunInPrices | internal/domain/devices/priceannouncer/announcer.go:185-219 | in terms of the slots alone: the first maximal block of slots that have not ended, start by the deadline and are below 0 or above the threshold, and that last long enough; its start, its length and its kind by the sign of the first price; none iff there is no such block |
| PriceAnnouncer.StartNeverDecreases | internal/domain/devices/priceannouncer/announcer.go:185-219 | as time and the day-end deadline move on, the start of the reported run never decreases |
| PriceAnnouncer.SameStartWhileLeadingSlotLasts | internal/domain/devices/priceannouncer/announcer.go:120-141 | a later update reports the same start if and only if the leading slot of the run has not ended |
| PriceAnnouncer.Announcer.constructor | internal/domain/devices/priceannouncer/announcer.go:40-54 | starts with no run alerted |
| PriceAnnouncer.Announcer.HandlePriceUpdate | internal/domain/devices/priceannouncer/announcer.go:120-166 | alerts about the reported run unless suppressed, already alerted last or refused by the notifier, remembers its start exactly when it alerts, and names its length in whole hours, at least one |
| PriceAlerts.AlertInPrices | internal/domain/devices/priceannouncer/announcer.go:120-166 | an update alerts iff neither mode suppresses it, the notifier accepts, and there is such a block above median times multiplier, up to the end of its day, that does not start where the last alerted one did; it alerts the first |
| PriceAnnouncer.AlertsStrictlyAscend | internal/domain/devices/priceannouncer/announcer.go:139-165 | over any updates in time order the delivered alerts start later and later |
| PriceAnnouncer.LastStartIsEnough | internal/domain/devices/priceannouncer/announcer.go:34-36 | remembering only the last start alerts exactly as remembering every start would |
| PriceAnnouncer.LastStartIsEnoughFromTheStart | internal/domain/devices/priceannouncer/announcer.go:34-54 | in particular for a new announcer |
| PriceAnnouncer.OneRunTwoAlerts | docs/announcer.md:46 | the documented one alert per run fails: a run of two negative hours is alerted twice |
| PriceRealerts.ReportedIff | internal/domain/devices/priceannouncer/announcer.go:185-219 | slot i of a run is reported if and only if it is the first of the run in view, what is in view of the run is long enough, and of no earlier run is |
| PriceRealerts.ReportedAgainIff | internal/domain/devices/priceannouncer/announcer.go:185-219 | a later update reports another slot of the same run if and only if the slot reported before has ended and what is still in view of the run is long enough |
| PriceRealerts.AlertedTwiceIff | internal/domain/devices/priceannouncer/announcer.go:120-166 | over any updates in time order a run is alerted twice if and only if an update free to alert finds what is left of it, up to the end of its day, long enough and of no earlier run, and a later one finds the first slot of that rest ended and what is left still long enough |
| Reminders.AckCompletes | internal/domain/reminders/lifecycle.go:96-113 | an acknowledgement succeeds exactly for a target, and one always completes the reminder, so the Save at the end of Ack is unreachable |
| Reminders.LiveReminder.constructor | internal/tech/postgres/reminders_repo.go:146-156 | a loaded reminder |
| Reminders.LiveReminder.Trigger | internal/domain/reminders/lifecycle.go:48-56 | updating field by field gives the triggered reminder as one value; without the interval of a recurring one it panics with the fire count and times already set |
| Reminders.NextRunByProfile | internal/domain/reminders/lifecycle.go:60-93 | the n-th firing: a recurring reminder is due an interval later; a one-time one again only if it requires an ack, after the delay of the documented profile table, and a quiet one not after its third |
| Reminders.FiredAgain | internal/domain/reminders/lifecycle.go:48-56 | fired again, a recurring reminder forgets its acknowledgements and a one-time one keeps them |
| Reminders.LiveReminder.Acknowledge | internal/domain/reminders/lifecycle.go:96-108 | a stranger is refused, a second acknowledgement changes nothing, otherwise one is appended |
| Reminders.AcknowledgedOnce | internal/domain/reminders/lifecycle.go:97-108 | a stranger is refused; a first acknowledgement is appended and noted; one by the same user again changes nothing |
| ReminderManager.Backend.Save | internal/tech/postgres/reminders_repo.go:31-101 | an upsert in whole seconds that keeps the creation time of an existing row; a call that reports an error has left the rows as they were or taken effect all the same |
| ReminderManager.Backend.GetById | internal/tech/postgres/reminders_repo.go:104-113 | the row, not found, or a failed call |
| ReminderManager.Backend.Remove | internal/tech/postgres/reminders_repo.go:139-144 | deletes the row, if any; with an error, it has or has not |
| ReminderManager.Backend.Notify | internal/domain/reminders/notifier.go:6-15 | a delivered notification carries id, targets and message; with an error, it has or has not gone out |
| ReminderManager.Backend.ListDueBefore | internal/tech/postgres/reminders_repo.go:125-136 | every due row once, in an order nothing is promised about |
| ReminderManager.Manager.Create | internal/domain/reminders/manager.go:38-47 | validates, then saves; errors are passed on |
| ReminderManager.Manager.Ack | internal/domain/reminders/manager.go:50-62 | loads, acknowledges in place, then removes |
| ReminderManager.Manager.Delete | internal/domain/reminders/manager.go:70-72 | removes |
| ReminderManager.Manager.Tick | internal/domain/reminders/manager.go:82-126 | the loop over the due rows equals the fold of single turns, stopping at the first failing call or panic; what it comes to is ReminderOutcomes.TickSendsWhatIsDue |
| ReminderManager.Manager.TickOne | internal/domain/reminders/manager.go:88-123 | one turn: expired, a panic, exhausted, notified and removed, or notified and saved |
| ReminderOutcomes.CreatedAsAsked | internal/domain/reminders/manager.go:38-47 | a creation is refused exactly for no targets or an unknown kind; otherwise the row holds each field as asked, in whole seconds, unfired and unacked, with profile normal for none and the creation time of a replaced row |
| ReminderOutcomes.AckedIff | internal/domain/reminders/manager.go:50-62 | an ack succeeds iff the row is stored and the user is one of its targets, and then takes exactly that row out |
| ReminderOutcomes.DeletedIsGone | internal/domain/reminders/manager.go:70-72 | a delete takes exactly its row out |
| ReminderOutcomes.TickSendsWhatIsDue | internal/domain/reminders/manager.go:82-126 | without failures, in terms of its fields and now: a reminder is sent, exactly once, iff it is due, now is not past validUntil, and it is not a quiet one-time one already sent twice and waiting for an ack; of the due ones exactly the sent ones that recur or require an ack stay, advanced by their interval or documented delay; what is not due stays as it is |
| ReminderTick.SqlAgreesWithIsDue | internal/tech/postgres/sql/reminders.sql:26-31 | on every stored row the SQL test at the Unix second agrees with IsDue at the instant, despite truncation |
| ReminderTick.TickOneEffect | internal/domain/reminders/manager.go:88-123 | under any failures one turn either completes, though it may report an error, or leaves the row as it was, with at most the notification gone out |
| ReminderTick.TickHandlesPrefix | internal/domain/reminders/manager.go:88-125 | under any failures the loop completes some first k due reminders, all of them when it succeeds, and has at most sent the notification of the next one |
| ReminderTick.TickOutcome | internal/domain/reminders/manager.go:82-126 | the same for a whole Tick, including its listing call |
| ReminderTick.LeavesForAReason | internal/domain/reminders/manager.go:82-126 | whatever fails, a reminder leaves the store only when due, and only if its validUntil is before now, it is quiet, waits for an ack and has fired twice, or the log gains its notification |
| ReminderTick.AbortLeavesTheRestDue | internal/domain/reminders/manager.go:82-126 | when Tick aborts, the reminders not yet reached are unchanged and still due |
| ReminderTick.StillDueOnlyByInterval | internal/domain/reminders/lifecycle.go:60-93 | a triggered row that stays is still due exactly if it recurs at less than a second |
| ReminderTick.NothingDueAfterwards | internal/domain/reminders/manager.go:82-126 | after a failure-free Tick nothing is due at that instant, if and only if every due unexpired recurring reminder recurs at a second or more |
| ReminderTick.SecondTickIsIdle | internal/domain/reminders/manager.go:82-126 | then a second Tick at the same instant sends and changes nothing |
| ReminderTick.OrderDoesNotMatter | internal/domain/reminders/manager.go:82-126 | the order in which the database lists the due rows makes no difference to the store |
| ReminderTick.TickPanicsIff | internal/domain/reminders/lifecycle.go:60-64 | without failures a tick panics if and only if a due and unexpired recurring reminder has no interval |
| ReminderTick.PanicRepeats | internal/domain/reminders/lifecycle.go:60-64 | such a reminder stays as it is, and every later tick panics until it expires or is deleted |
| ReminderTick.DelayIsLong | internal/domain/reminders/lifecycle.go:81-93 | every repeat delay is at least 5 minutes, and 15 unless the profile is annoying |
| ReminderRuns.StepKeeps | internal/domain/reminders/manager.go:38-126 | create, ack, delete and tick keep the invariant under any failing calls |
| ReminderRuns.StoredRemindersCountTheirNotifications | internal/domain/reminders/manager.go:38-126 | in every run a stored reminder has no acks, and its fire count falls behind its notifications since its latest creation by at most the failed calls |
| ReminderRuns.NotificationsStayInBudget | internal/domain/reminders/manager.go:82-126 | in every run a one-time no-ack reminder is notified at most once and a quiet ack-required one at most twice, plus the failed calls |
| ReminderRuns.FailureFreeCounts | internal/domain/reminders/manager.go:82-126 | without failures the count is exact and the budgets are 1 and 2; the design notes say 3 for quiet |
| ReminderRuns.AckRemoves | internal/domain/reminders/manager.go:50-62 | the first acknowledgement removes a reminder, a recurring one too, unlike the design notes |
| ReminderRuns.NoTickPanics | internal/domain/reminders/manager.go:82-126 | in no run of what the handler sends does a tick panic, whatever calls fail |
| ReminderEscalation.OneTickFollows | internal/domain/reminders/manager.go:82-126 | a failure-free Tick makes of one row, and tells about it, what its own trajectory says |
| ReminderEscalation.StoreFollowsTrajectory | internal/domain/reminders/manager.go:38-126 | in every failure-free run, whatever happens to other reminders, each is notified at exactly the times of its own trajectory over the ticks |
| ReminderEscalation.NotificationsAreSpaced | internal/domain/reminders/lifecycle.go:60-93 | the Unix seconds of successive notifications of an escalating reminder are at least 5 minutes apart |
| ReminderEscalation.GapOfLessThanFiveMinutes | internal/domain/reminders/lifecycle.go:60-93 | in nanoseconds the gap can be shorter: a run stores a reminder whose next two notifications are 299.1 s apart |
| ReminderEscalation.AlwaysSpacedIffWellSpaced | internal/domain/reminders/lifecycle.go:60-93 | over given ticks every escalating reminder that some run stores is notified at least 5 minutes apart, to the nanosecond, if and only if from any tick that is the first of its second to the first tick 300 seconds of the clock later it is 5 minutes |
| ReminderEscalation.SteadyTicksAreWellSpaced | internal/tech/homeassistant/devices/reminders/handler.go:107-113 | in particular for ticks on the same fraction of a second |
| ReminderEscalation.FastStaysAhead | internal/domain/reminders/lifecycle.go:81-93 | the simulation between two profiles: the less patient one keeps its lead on any ascending ticks |
| ReminderEscalation.LessPatientIsNoLater | internal/domain/reminders/policy.go:14-44 | the n-th notification under annoying is no later than under normal, and under normal no later than under quiet, for every n the slower one reaches |
| Noise.BrownGenerator.Advance | internal/domain/noise/generator.go:48-56 | one step of the leaky integrator; no 32-bit addition overflows and the result fits 16 bits |
| Noise.BrownGenerator.Fill | internal/domain/noise/generator.go:46-58 | sample i is the integrator after i+1 draws |
| Noise.BrownInPieces | internal/domain/noise/generator.go:46-58 | filling one buffer after another gives the samples of one long buffer |
| Noise.BrownSampleIsClose | internal/domain/noise/generator.go:48-56 | a sample is 127/128 of the integrator plus a sixteenth of the centred draw, up to rounding, or the limit of 16 bits on its side |
| Noise.BrownStepContracts | internal/domain/noise/generator.go:48-56 | the same draw keeps the order of two generators; their gap does not grow, and shrinks from 128 on |
| Noise.BrownForgets | internal/domain/noise/generator.go:46-58 | after n common draws two generators are in order and at most max(127, gap - n) apart |
| Noise.PinkGenerator.constructor | internal/domain/noise/generator.go:64-68 | all rows and the running total are 0 |
| Noise.PinkGenerator.Next | internal/domain/noise/generator.go:72-78 | one sample; no 32-bit addition overflows and the sample fits 16 bits |
| Noise.PinkGenerator.Fill | internal/domain/noise/generator.go:70-80 | sample i comes from the rows after i+1 draws; the running total stays the sum of the rows |
| Noise.PinkStepKeeps | internal/domain/noise/generator.go:75-76 | the running total is the sum of the sixteen rows after every sample |
| Noise.PinkSampleIsClose | internal/domain/noise/generator.go:72-78 | seventeen times a sample is the sum of the rows and the centred extra draw, rounded toward zero |
| Noise.RefreshedBy | internal/domain/noise/generator.go:72-73 | a counter whose lowest set bit is number j refreshes row j modulo 16, and the wrapped counter 0 refreshes row 0 |
| Noise.RowIsRefreshed | internal/domain/noise/generator.go:72-73 | row k is refreshed within any 2^(k+1) consecutive samples, also across the wrap of the 64-bit counter |
| Noise.RowHoldsLatest | internal/domain/noise/generator.go:72-76 | a row holds the draw of the last sample that refreshed it, or what it held at first |
| Noise.RowForgets | internal/domain/noise/generator.go:72-76 | a row that was refreshed once is the same in two generators fed the same draws |
| Noise.PinkForgets | internal/domain/noise/generator.go:70-80 | after 65536 common draws two generators at the same counter are in the same state |
| Topics.TrimCuts | internal/tech/homeassistant/entities/runtime.go:688-693 | trimming cuts only white space, at both ends, and leaves none there |
| Topics.TrimIsUnique | internal/tech/homeassistant/entities/runtime.go:688-693 | there is only one way to trim |
| Topics.WhiteSpace | internal/tech/homeassistant/entities/runtime.go:688-693 | white space is exactly the 25 characters that Unicode calls so |
| Topics.TopicLevels | internal/tech/homeassistant/entities/runtime.go:574-582 | the levels of each topic, named one by one |
| Topics.ValidatedIsKey | internal/tech/homeassistant/entities/runtime.go:688-697 | validation accepts exactly what trims to a non-empty key without a slash, and accepts its own result unchanged |
| Topics.TopicsAreInjective | internal/tech/homeassistant/entities/runtime.go:574-582 | two entities share a discovery or a state topic only if they are the same |
| Topics.TopicsAreDisjoint | internal/tech/homeassistant/entities/runtime.go:574-582 | discovery, state, command and availability topics never coincide, whatever the prefixes |
| Topics.ParseUndoesBuild | internal/tech/homeassistant/entities/runtime.go:574-582 | parsing the command topic of a key gives the key back |
| Topics.ParseAcceptsExactly | internal/tech/homeassistant/entities/runtime.go:699-711 | besides command topics exactly one topic parses: prefix/entities/set, to the key set |
| Topics.FilterPassesCommandTopics | internal/tech/homeassistant/entities/runtime.go:222 | the subscription filter lets through exactly the command topics (MQTT 3.1.1, section 4.7.1.3) |
| Topics.ParseIsExactOnCommands | internal/tech/homeassistant/entities/runtime.go:699-711 | so on subscribed messages parsing succeeds with a key on that key's command topic only |
| EntityRuntime.PublishHolds | internal/tech/homeassistant/entities/runtime_transport.go:81-88 | a publish changes at most its own topic; an empty payload clears it (MQTT 3.1.1, section 3.3.1.3); a failed one may or may not have arrived |
| EntityRuntime.ParsedBool | internal/tech/homeassistant/entities/runtime.go:713-722 | a payload reads as on or off iff, white space around it aside, it is ON or OFF in any case |
| EntityRuntime.DeclareKeepsInv | internal/tech/homeassistant/entities/runtime.go:449-484 | declaring keeps entities registered under their own key and kind, and forgets no entity and no callback |
| EntityRuntime.DeclaredAs | internal/tech/homeassistant/entities/runtime.go:449-484 | a successful declaration registers the trimmed key under its kind, puts its payload on the discovery topic, and remembers the entity with that payload and the state it had before, if any; any other changes nothing in the process |
| EntityRuntime.DeclareOrphans | internal/tech/homeassistant/entities/runtime.go:449-484 | declaring leaves no discovery topic without a registered key and kind, if and only if the key does not change its kind over a topic still set and no unanswered publish reaches the broker for a key not yet registered |
| EntityRuntime.DeclareMirrors | internal/tech/homeassistant/entities/runtime.go:449-484 | a failure-free declaration keeps the broker in step, and succeeds with the validated key |
| EntityRuntime.SetStateKeeps | internal/tech/homeassistant/entities/runtime.go:486-502 | setting a state keeps the invariant and orphans nothing, whether or not the publish fails |
| EntityRuntime.SetStateMirrors | internal/tech/homeassistant/entities/runtime.go:486-502 | a failure-free state change keeps the broker in step |
| EntityRuntime.RemoveTopics | internal/tech/homeassistant/entities/runtime.go:298-331 | a removal leaves the topics of all other keys alone, sets none, and clears the discovery topic before the state topic |
| EntityRuntime.RemoveKeeps | internal/tech/homeassistant/entities/runtime.go:298-331 | a removal keeps the invariant and orphans nothing, also when it fails halfway |
| EntityRuntime.RemoveMirrors | internal/tech/homeassistant/entities/runtime.go:298-331 | a failure-free removal keeps the broker in step for the entities that stay |
| EntityRuntime.RemoveClears | internal/tech/homeassistant/entities/runtime.go:298-331 | after a successful removal nothing of the key is left, in the maps, the registry or on the broker |
| EntityReconnect.ReconnectHeals | internal/tech/homeassistant/entities/runtime.go:511-535 | whatever the broker held: after a successful reconnect every declared entity's topics hold the remembered values; nothing local and no other topic changes; after a failed one each topic holds its old or its remembered value; nothing is published before availability, no state before its discovery, and nothing after a failing publish |
| EntityReconnect.ReconcileLeavesKept | internal/tech/homeassistant/entities/runtime.go:339-363 | a successful Reconcile leaves registered exactly the keys whose trimmed name is in the given list, and nothing of any other; kept keys are untouched even when it fails, and nothing is published after a failing publish; it is refused without a registry file |
| EntityReconnect.CommandReachesItsSwitch | internal/tech/homeassistant/entities/runtime.go:547-572 | a message on prefix/entities/key/set that says ON or OFF runs the callback of the declared switch key with true or false, and no other; any other payload runs none |
| EntityObjects.Transport.Publish | internal/tech/homeassistant/entities/runtime_transport.go:81-88 | what one publish does to the retained messages |
| EntityObjects.Registry.Upsert | internal/tech/homeassistant/entities/runtime_registry.go:49-55 | sets the kind of a key |
| EntityObjects.Registry.Remove | internal/tech/homeassistant/entities/runtime_registry.go:57-63 | forgets a key |
| EntityObjects.Runtime.constructor | internal/tech/homeassistant/entities/runtime.go:215-225 | nothing declared, the registry as loaded |
| EntityObjects.Runtime.Declare | internal/tech/homeassistant/entities/runtime.go:449-484 | name and key checks, the kind clash, the kept state, then publish, register and store, in that order |
| EntityObjects.Runtime.SetState | internal/tech/homeassistant/entities/runtime.go:486-502 | the state is remembered before it is published |
| EntityObjects.Runtime.OnCommand | internal/tech/homeassistant/entities/runtime.go:381-398 | only a declared switch gets a callback |
| EntityObjects.Runtime.Remove | internal/tech/homeassistant/entities/runtime.go:298-331 | an undeclared key is looked up in the registry; topics are cleared before anything is forgotten |
| EntityObjects.Runtime.Reconcile | internal/tech/homeassistant/entities/runtime.go:339-363 | removes the registered keys that are not kept, stopping at the first failure |
| EntityObjects.Runtime.HandleReconnect | internal/tech/homeassistant/entities/runtime.go:511-535 | availability, then discovery and known state of every entity, stopping at the first failure |
| EntityRuns.StepKeeps | internal/tech/homeassistant/entities/runtime.go:298-535 | each operation keeps the invariant and orphans no topic, except exactly a declaration that does, and a restart without a registry file while a topic holds something |
| EntityRuns.RunLeavesNoOrphans | internal/tech/homeassistant/entities/runtime.go:298-535 | in every run, with any failing publishes, no topic is orphaned unless a declaration or a restart is of that kind |
| EntityRuns.RunSparesUnregistered | internal/tech/homeassistant/entities/runtime.go:298-535 | until it is declared again no run touches anything of a key that is not registered |
| EntityRuns.RestartOrphansForGood | internal/app.go:81-89 | the program gives the registry no file: what a topic holds at a restart it holds until its key is declared again, and removing the key succeeds without touching it |
| EntityRuns.ForgottenIsOrphaned | README.md:65 | the documented memory of owned entities across restarts fails in that configuration: declared, restarted, removed without an error, and the discovery topic is still set |
| EntityRuns.RemovedStaysRemoved | internal/tech/homeassistant/entities/runtime.go:298-331 | once removed, the topics of a key stay empty in every run, restarts with and without a file included, until the key is declared again |
| EntityRuns.ChangedKindIsOrphaned | internal/tech/homeassistant/entities/runtime.go:449-484 | a run without failures after which nothing is registered and a discovery topic is still set: a key that changed its kind across a restart |
| ReminderSync.EntityKeyIsKey | internal/tech/homeassistant/devices/reminders/handler.go:326-329 | the entity key of a reminder is valid, and already trimmed, exactly when its id has no slash |
| ReminderSync.DeclareEffect | internal/tech/homeassistant/devices/reminders/handler.go:273-318 | a declaration takes effect exactly if the id has no slash, the name is not blank and its publish is acknowledged: switch, state and callback are then in place, whether or not the state gets through; otherwise all stay as they were |
| ReminderSync.DeclaredIffDeclarable | internal/tech/homeassistant/devices/reminders/handler.go:273-318 | without failures a reminder gets its switch if and only if its id has no slash and its name is not blank; otherwise nothing changes |
| ReminderSync.DeclarableIff | internal/tech/homeassistant/devices/reminders/handler.go:273-288 | a reminder can have a switch iff its id has no slash and the first 64 characters of its message are not all white space |
| ReminderSync.RemoveKeepsShown | internal/tech/homeassistant/devices/reminders/handler.go:228-239 | removing one switch leaves the others as they are, whatever its publishes come to |
| ReminderSwitches.SyncKeepsShown | internal/tech/homeassistant/devices/reminders/handler.go:209-270 | whatever calls fail, a sync leaves every switch of the map declared, remembered right and with its callback |
| ReminderSwitches.SyncEstablishesIff | internal/tech/homeassistant/devices/reminders/handler.go:209-270 | without failures, whatever has happened to the store, a sync makes the switches exactly the stored reminders that can have one; unless, exactly, one with a switch is stored that no longer can |
| ReminderSwitches.SecondSyncIsIdle | internal/tech/homeassistant/devices/reminders/handler.go:209-270 | once synced no later sync makes a runtime call: no publish outcome is used up and nothing changes |
| ReminderSwitches.RemovalStaysIff | internal/tech/homeassistant/devices/reminders/handler.go:228-239 | when a reminder is gone its switch leaves the map, and its entity stays declared if and only if the two publishes that clear its topics are not both acknowledged |
| ReminderSwitches.ReconnectShows | internal/tech/homeassistant/entities/runtime.go:511-535 | a reconnect that succeeds puts the state topic of every switch right, whatever the broker held |
| ReminderSwitches.RecoversAfterFailures | internal/tech/homeassistant/devices/reminders/handler.go:209-270 | after any failures one sync and one reconnect without any give every stored reminder that can have one a switch, shown right on the broker |
| ReminderSwitches.RetainedShowsPending | internal/tech/homeassistant/devices/reminders/handler.go:321-323 | when synced, the topic prefix/entities/key/state of a stored reminder that can have a switch holds OFF iff it requires an ack and its fire count is above 0, and ON otherwise; no topic of an id without a switch holds anything |
| ReminderSwitches.CommandNamesItsReminder | internal/tech/homeassistant/devices/reminders/handler.go:299-311 | a message on the command topic of a switch that says ON or OFF reaches the callback of its own reminder with true or false, in the name of its owner |
| ReminderSwitches.KeysCanCoincide | internal/tech/homeassistant/devices/reminders/handler.go:326-329 | two different ids with the same entity key |
| ReminderSwitches.KeysCoincideIff | internal/tech/homeassistant/devices/reminders/handler.go:326-329 | two ids share a key iff, trimmed, they are alike letter by letter, a space being like an underscore and a capital like its small letter |
| ReminderSwitches.PlainIdsDiffer | internal/tech/homeassistant/devices/reminders/handler.go:326-329 | ids that are their own slug never share a key |
| ReminderSwitches.RemovalSparesOther | internal/tech/homeassistant/devices/reminders/handler.go:228-239 | when one of two reminders is gone, the switch of the other stays declared if and only if their keys differ |
| ReminderSwitches.CoincidingSwitchIsLost | internal/tech/homeassistant/devices/reminders/handler.go:228-249 | with coinciding keys the second reminder loses its switch and no later sync finds anything to do |
| ReminderSyncRuns.HandleKeepsInHand | internal/tech/homeassistant/devices/reminders/handler.go:76-206 | each of the four handlers, a restart with or without a registry file, and a reconnect, with any failing calls, leaves every switch of the map declared, remembered right and operable |
| ReminderSyncRuns.RunKeepsInHand | internal/tech/homeassistant/devices/reminders/handler.go:76-206 | so does every run |
| ReminderSyncRuns.OwnersStayKnownIff | internal/tech/homeassistant/devices/reminders/handler.go:298-311 | the callbacks keep naming the owners under any failures, except exactly when a reminder with a switch is stored anew for another owner and its switch is not declared again |
| ReminderSyncRuns.HandleKeepsSyncedIff | internal/tech/homeassistant/devices/reminders/handler.go:76-206 | without failures each handler, a restart with or without a registry file, and a reconnect, leaves the switches in step with the store, and the store as the manager left it; except exactly when a creation takes a reminder with a switch what it needs for one |
| ReminderSyncRuns.SwitchesMirrorTheStore | internal/tech/homeassistant/devices/reminders/handler.go:76-318 | from the start of any process whose broker holds traces of no ids but those of stored reminders, after every failure-free run with restarts and reconnects the switch map has exactly the stored ids that can have a switch, and the state topic of each holds OFF iff the row requires an ack and has fired, else ON; nothing for any other id |
| ReminderSyncRuns.FailingRunsRecover | internal/tech/homeassistant/devices/reminders/handler.go:76-270 | after every run with any failing calls one sync and one reconnect without any show every stored reminder right |
| ReminderSyncRuns.CreatedIsShownOn | internal/tech/homeassistant/devices/reminders/handler.go:166-172 | a created reminder that can have a switch is shown ON |
| ReminderSyncRuns.SentIsShownOff | internal/tech/homeassistant/devices/reminders/handler.go:201-206 | when a tick sends a reminder that requires an ack, its state topic holds OFF |
| ReminderSyncRuns.SwitchIsOperated | internal/tech/homeassistant/devices/reminders/handler.go:299-311 | a message ON, in any case, on the command topic of a switch takes its reminder out of the store, its switch out of the map and its state off the broker, if the owner is a target; any other message or owner changes nothing |
| ReminderSyncRuns.StartIsSyncedIff | internal/tech/homeassistant/devices/reminders/handler.go:94-103 | a new process shows every stored reminder that can have a switch; all is in step if and only if every known id that is registered or has a topic that holds something is one of these |
| ReminderSyncRuns.ReplacementKeepsOldSwitch | internal/tech/homeassistant/devices/reminders/handler.go:115-174 | a failure-free run after which an id has a switch it could not be given, acknowledging for its former owner: created, then created again with a blank message |
| ReminderSyncRuns.RunLingers | internal/tech/homeassistant/devices/reminders/handler.go:228-239 | whatever calls fail, an entity whose id has left the store and the switch map is never removed: no run clears its topics before the id is created again, and it stays declared until a restart |
| ReminderSyncRuns.FailedRemovalIsFinal | internal/tech/homeassistant/devices/reminders/handler.go:209-270 | after a sync that meets a switch whose reminder is gone, and any further turns but a restart, the entity is still declared if and only if its two clearing publishes were not both acknowledged then |
| ReminderHandler.CommandFrom | internal/tech/homeassistant/devices/reminders/handler.go:128-163 | the command built for the manager always has what it needs: one of the two kinds, and an interval exactly if it recurs |
| ReminderHandler.MessageReachesTheStore | internal/tech/homeassistant/devices/reminders/handler.go:115-172 | a message without targets changes nothing; any other is stored with its id, targets, times, validity, need for an ack, profile and metadata |
| ReminderHandler.Handler.constructor | internal/tech/homeassistant/devices/reminders/handler.go:64-73 | no switches known |
| ReminderHandler.Handler.DeclareEntity | internal/tech/homeassistant/devices/reminders/handler.go:273-318 | declares, shows the state, registers the callback, then records the switch |
| ReminderHandler.Handler.SyncEntities | internal/tech/homeassistant/devices/reminders/handler.go:209-270 | the two loops of the sync over the switch map and the listed reminders |
| ReminderHandler.Handler.HandleCreate | internal/tech/homeassistant/devices/reminders/handler.go:166-172 | a created reminder is declared; a refused one leaves the switches alone |
| ReminderHandler.Handler.HandleAck | internal/tech/homeassistant/devices/reminders/handler.go:175-186 | syncs exactly after a successful ack |
| ReminderHandler.Handler.HandleDelete | internal/tech/homeassistant/devices/reminders/handler.go:188-199 | syncs exactly after a successful delete |
| ReminderHandler.Handler.Tick | internal/tech/homeassistant/devices/reminders/handler.go:201-206 | syncs after every tick, a failing one too, unless it panics |
| ReminderHandler.Handler.HandleCommand | internal/tech/homeassistant/devices/reminders/handler.go:299-311 | the callback of a switch: turned on it acknowledges for the owner and syncs if that succeeds, turned off it does nothing |
| ReminderHandler.Handler.Start | internal/tech/homeassistant/devices/reminders/handler.go:94-104 | declares every listed reminder; a failing listing or declaration is not fatal |

## Left out

- Floating-point rounding, the `MaxFloat64` starting value of the two searches, and 32-bit wrap-around of a fire count.
- Concurrency: goroutines, locks and the interleaving of a reconnect with a removal; operations are atomic here.
- The critical-hours and battery strategies of the optimizer, and `CalculateDynamicThreshold`, which needs `exp`.
- `ShouldDelay` and the request validators that read one field; a missing device profile cannot be expressed.
- Targets of a reminder are a set: duplicates in the command and the order of notification targets are not modelled; stored acks come back by user, but no stored reminder has any.
- The discovery payload is a stand-in; only that it is not empty matters. Announcement and alert texts are left out.
- Letters are lowered and raised in ASCII only; a message is cut after 64 characters where the original cuts 64 bytes.
- JSON and time parsing in the command handlers: a run starts from parsed commands.
- Writing and reading a registry file are taken to succeed; the program gives the registry none.
- Listing reminders and loading their targets and acks is one call with one outcome, and a save is one transaction.
- MQTT beyond retained messages and the subscription filter: quality of service, the last will, the transport's reconnect.
- Night and away mode are an input of the announcer; an unavailable price index behaves as a suppressed update.
- `HandleOnDemand`, `GetNextPrice` and other readers that only format what the price index returns.
- The white noise generator, which keeps no state; random draws are inputs of the other two.
- Dishwasher, laptop and vacuum components, and all HTTP, MCP and audio transport: thin decisions around device calls.
- ReminderEscalation.NotificationsAreSpaced: states the 5 minutes on the Unix clock; to the nanosecond they depend on the ticks, exactly as ReminderEscalation.AlwaysSpacedIffWellSpaced says.
- PriceAnnouncer.AlertsStrictlyAscend: says that no start is alerted twice, not that no run is; when a run is, PriceRealerts.AlertedTwiceIff says exactly.
- ReminderSyncRuns.SwitchesMirrorTheStore: asks that no call fails; what holds when calls fail is ReminderSyncRuns.RunKeepsInHand, ReminderSyncRuns.FailedRemovalIsFinal and ReminderSyncRuns.FailingRunsRecover.
- ReminderEscalation.AlwaysSpacedIffWellSpaced: takes the run that stores a reminder and the ticks after it independently of each other; ticks that only some runs can have are not singled out.
- ReminderRuns.NoTickPanics: is about reminders that come from the handler, whose commands have an interval whenever they recur (ReminderHandler.CommandFrom); the manager itself does not check it.
