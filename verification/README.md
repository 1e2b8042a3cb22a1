# Funes: a verified model

Funes runs language-model agents: a loop between a model and its tools, a
scheduler that starts agents and scripts, and a memory store that agents write
to and recall from. This project models the parts of it where many conditions
meet, and proves what they promise.

The modules follow the program:

- `AgentLoop`, `RunLog`, `CompletionContract`, `ToolBudget`, `AnswerSchema`,
  `Transcript`, `ContextBudget`, `ContextBudgetLaws`, `AnthropicMessages` — one
  run of an agent. The model, the tools, the result store and the stop button
  are oracles: the n-th answer of each is an arbitrary function of n. The loop is
  a class whose fields are the loop's variables, beside a ghost log of every
  completion asked for, every call charged and every nudge injected.
- `Calendar`, `CronSchedule`, `CronFields`, `CronRunner` — cron expressions, the
  minute-by-minute search for the next run on a Gregorian calendar at a fixed
  offset from UTC, and the protocol between the poll thread and its workers as a
  state machine over the statements they share.
- `MemoryTables`, `MemoryUpkeep`, `MemoryStore`, `Recall` — the memories and the
  four tables hung on them, what the background passes do to them round by round,
  the store's public operations as atomic steps of one object, and ranked recall. What SQLite and the two judging models answer is an oracle,
  constrained only by what a query's conditions determine.
- `Base64`, `Password`, `SseLines`, `XmlBlocks`, `ScriptArgv`, `LinkedInPost`, `WhatsAppPoll` —
  codecs and small protocols: base64 (section 4 of RFC 4648) and the password
  record, the incremental event-stream parser, tool calls written as tags, a script's arguments built and
  read back, the two-step LinkedIn post, the WhatsApp watermark.
- `Arithmetic`, `JsonValues`, `Text`, `Wrappers` — shared helpers.

A `std::string` is a sequence of bytes, so a `char` stands for one byte; scores
and ratios are exact reals; integers are unbounded except where the program's
width matters and is written out.

## What turned out to hold only under a condition

- `next_run_after` skips a minute when `from` lies before 1970 and is not on a
  full minute, because C's remainder of a negative number is negative
  (`CronSchedule.NextExactlyFromCleanStart`).
- An expression with day-of-week `*` and no selected day in any selected month of
  a common year makes `next_run_after` throw for some starting times, and no other
  does (`CronSchedule.NeverThrowsExactly`); "0 0 29 2 *" does so from the end of 2024
  (`CronFields.LeapDaysRead`, `CronSchedule.LeapDaysThrow`).
- A new vector of another dimension than the index's drops the vectors of every
  account (`MemoryTables.PutVectorSparesExactly`). So consolidating one account
  leaves another's vectors alone exactly while every merged text gets a vector of
  the index's dimension or none (`MemoryUpkeep.VectorsKeptExactly`; a merge that
  does not is `MemoryUpkeep.MergeDropsOthers`).
- A LinkedIn post recorded under an empty id counts as not posted: the slot is
  posted again and its finished comment is owed again
  (`LinkedInPost.DoneIsSafeExactly`, `LinkedInPost.IdsAreSafeExactly`; the run
  that does it is `LinkedInPost.PostOverEmptyId`).
- The WhatsApp poller takes a store whose timestamps are all empty for an empty
  store, and its first poll hands out the backlog
  (`WhatsAppPoll.BacklogSafeExactly`).
- A memory reached over a link scores below the hit it was reached from exactly
  when that hit scores above zero (`Recall.LinkScoreBelow`).
- A required boolean parameter turned off is accepted and yet absent from the
  command line, and nothing else required is (`ScriptArgv.RequiredIsMissedExactly`;
  a call it happens to is `ScriptArgv.RequiredFlagOff`).

## Model

| member | source | states |
|---|---|---|
| AgentLoop.Agent.RunLoop | src/core/agent.cpp:501-1085 | ends within max_steps plus the nudge budget although the limit moves, and as the model's last completion says: its text when nothing is owed, the printed value under a schema, the detector's or the answering tool's text, the failure only for its cause, a throw only on a refusal; or at the first press of the button; or at the limit. Every earlier completion without calls got a reminder, and every call asked for is charged once, in order |
| AgentLoop.Run | src/core/agent.cpp:501-1085 | the same from a well-formed transcript and nothing else, with dispatch budgets and the satisfied set as the log of calls says |
| AgentLoop.Agent.Step | src/core/agent.cpp:615-1080 | one iteration ends the run exactly as its completion says; otherwise its words got a reminder, which needs something owed or rejected and a reminder left, or all its calls were answered in order; and everything promised for the next one is re-established |
| AgentLoop.Agent.Conclude | src/core/agent.cpp:750-1079 | a completion ends the run as it says or the step went on, with every completion without calls so far reminded and exactly the calls asked for charged |
| AgentLoop.Agent.Respond | src/core/agent.cpp:750-1079 | a completion without calls ends the run with exactly the text its content comes to or gets one reminder; one with calls ends it at the call that says so or has all of them answered; the limit grows only with a nudge |
| AgentLoop.Agent.KeepInWindow | src/core/agent.cpp:587-609 | the transcript becomes exactly the trim for the budget of the moment, still well-formed, no message lost |
| AgentLoop.TrimBudgetFits | src/core/agent.cpp:587-592 | scaled by the ratio, the budget is the largest whole number within three quarters of the window, rounded up |
| AgentLoop.QuarterTowardsZero | src/core/agent.cpp:587-587 | the quarter kept for the reply is cut towards zero, whatever the sign |
| AgentLoop.SchemaInBytes | src/core/agent.cpp:588-588 | a tool schema counts as a quarter of its dumped bytes: its entries, a comma between any two, and the brackets |
| AgentLoop.Agent.OfferTools | src/core/agent.cpp:650-661 | what is offered is the full list without the exhausted tools |
| AgentLoop.NoneWithout | src/core/agent.cpp:650-661 | with nothing exhausted the short cut offers the same list |
| AgentLoop.Agent.Prepare | src/core/agent.cpp:629-664 | a call is forced exactly after a contract nudge, tools are withheld exactly on the last step otherwise, and only the client in use is touched |
| AgentLoop.Agent.Send | src/core/agent.cpp:674-688 | what goes out is the transcript, with the notice exactly when tools are withheld, and its estimate is what the ratio is learned from |
| AgentLoop.Agent.SendWithFallback | src/core/agent.cpp:686-703 | one more request exactly when streaming failed for another reason than an overflow, and the reply is that of the last request |
| AgentLoop.Agent.RetryOverflow | src/core/agent.cpp:710-732 | once per run: the ratio grows by a quarter or more, the transcript is trimmed to it, and one request goes out |
| AgentLoop.RefusalRatio | src/core/agent.cpp:718-722 | a quarter more, or exactly what covers the figure the server reported, whichever is greater |
| AgentLoop.Agent.Request | src/core/agent.cpp:666-734 | at most two requests beyond the run's one overflow retry, over a well-formed transcript |
| AgentLoop.Agent.Complete | src/core/agent.cpp:616-748 | the reply is the model's to the transcript as it stands; the tool choice is restored whether or not it throws |
| AgentLoop.Agent.TakeReply | src/core/agent.cpp:735-748 | the choice is restored, and the ratio is what the prompt really cost, never below one |
| AgentLoop.ServedRatio | src/core/agent.cpp:740-747 | scaled by the ratio the estimate covers what the prompt cost, exactly unless that would be below one |
| AgentLoop.Agent.Finish | src/core/agent.cpp:548-570 | a text that ends the run becomes the contract failure when tools are owed, the schema failure when it does not fit, and passes unchanged otherwise |
| AgentLoop.NotViolatedIsAccepted | src/core/agent.cpp:562-570 | nothing missing and no violation means every required tool is satisfied and a value that satisfies the schema can be extracted |
| AgentLoop.CanonicalIsAccepted | src/core/agent.cpp:868-874 | the canonical text of an extracted value is itself an accepted answer |
| AgentLoop.Agent.PushNudge | src/core/agent.cpp:759-769 | the transcript grows by what the model said, if anything, and the reminder, and stays well-formed |
| AgentLoop.Agent.Remind | src/core/agent.cpp:758-781 | a nudge while the shared budget lasts, the failure exactly once it is spent |
| AgentLoop.Agent.OweTurn | src/core/agent.cpp:755-781 | stopping with tools owed gets the reminder and forces a call next |
| AgentLoop.Agent.RetryEmpty | src/core/agent.cpp:790-811 | one tool-free completion after an empty one, whose failure is not the run's |
| AgentLoop.Agent.RejectTurn | src/core/agent.cpp:833-867 | a rejected answer gets the reminder, and on the last step one more step |
| AgentLoop.Agent.AnswerTurn | src/core/agent.cpp:750-877 | for every completion without calls, which of nudge, failure and answer it comes to, with the exact text |
| AgentLoop.Agent.ChargeKeys | src/core/agent.cpp:921-934 | stops at the first key over its ceiling, the declared one or for the tool itself max_steps or six; a call charged to all keys is within every ceiling |
| AgentLoop.Agent.Admit | src/core/agent.cpp:897-976 | refused exactly when a key is over its ceiling or the same call comes a third time, stopped exactly when the tool is past max_steps and six calls, run otherwise; a tool is withdrawn exactly when its own ceiling is spent or the same call comes a fourth time |
| AgentLoop.Agent.Settle | src/core/agent.cpp:1034-1037 | success inserts every key of the call, failure erases them |
| AgentLoop.Agent.Execute | src/core/agent.cpp:978-1037 | a refused call is an error without a dispatch; the log, the counters and the satisfied set stay in step |
| AgentLoop.Agent.ChargeCall | src/core/agent.cpp:897-1078 | each call is charged once and answered by a message with its id and the result, the store's preview or the error; it ends the run exactly when the detector stops it or a success of the answering tool is the answer |
| AgentLoop.Agent.CallTurn | src/core/agent.cpp:879-1079 | the assistant message is followed by exactly one answer per call, in order, unless the run ends at one of them, as that call says |
| AgentLoop.AnsweredTurnKeepsWellFormed | src/core/agent.cpp:879-895 | an asking message with all its answers extends a well-formed transcript |
| RunLog.CountersStep | src/core/agent.cpp:898-934 | the counters never fall behind the log of calls |
| RunLog.BudgetStep | src/core/agent.cpp:916-951 | no tool runs more often than max(max_steps, 6) or its declared limit, no qualified key more often than its own, no identical call a third time |
| RunLog.SatisfiedStep | src/core/agent.cpp:1019-1037 | inserting on success and erasing on failure tracks the latest outcome of each key |
| RunLog.LogStep | src/core/agent.cpp:650-661 | completions stay in order, and withdrawn tools only accumulate |
| RunLog.NudgeKeepsLog | src/core/agent.cpp:757-781 | a later nudge says nothing about earlier completions |
| CompletionContract.ComputeMissing | src/core/completion_contract.cpp:9-19 | the unsatisfied required tools in declaration order |
| CompletionContract.MissingMeans | src/core/completion_contract.cpp:9-19 | exactly the required tools not satisfied, each once |
| CompletionContract.NothingMissingIff | src/core/completion_contract.cpp:9-19 | nothing is missing exactly when every required tool is satisfied |
| CompletionContract.JoinedNamesAll | src/core/completion_contract.cpp:21-30 | a reminder names every missing tool in order, commas between and an "and" before the last |
| ToolBudget.CallKeys | src/core/tool_budget.cpp:10-23 | the tool's own key first, and at most one qualified key, different from it |
| ToolBudget.SameQualifiedKey | src/core/tool_budget.cpp:15-22 | two calls share the qualified key exactly when they run the same script |
| ToolBudget.ScriptKeyExactly | src/core/tool_budget.cpp:10-23 | a script's key is charged exactly when the call runs a script whose name is clean: up to 64 of a-z, 0-9, '-' and '_' |
| Transcript.WellFormedIffNothingOwed | src/core/agent.cpp:879-895 | each asking message followed at once by its answers, read segment by segment or message by message |
| Transcript.PushPlain | src/core/agent.cpp:759-769 | a message that neither asks nor answers keeps a transcript well-formed |
| Transcript.SkeletonKeepsWellFormed | src/core/context_budget.cpp:80-137 | changing only texts, arguments and images keeps a transcript well-formed |
| Transcript.LighterIsCheaper | src/core/context_compressor.h:37-46 | the estimate never grows when no message does |
| Transcript.PlainEstimate | src/core/context_compressor.h:37-46 | without calls the estimate is a quarter of the content bytes, and 800 for each image |
| Transcript.DumpedIsLength | src/core/context_compressor.h:41-43 | what is counted for the calls of a message is the length of their JSON text, escapes included |
| Transcript.EstimateOfMessage | src/core/context_compressor.h:37-46 | one message is estimated at a quarter of its content and of the JSON text of its calls, and 800 for each image |
| Transcript.RoomInBytes | src/core/context_compressor.h:37-46 | an estimate within a room bounds the content and argument bytes beside the images |
| ContextBudget.TrimToFit | src/core/context_budget.cpp:65-140 | in place, exactly the first cut, pass by pass and oldest first, whose estimate fits, with the counters that go with it; when it fits, the bytes left are at most four times the room beside the images, and three |
| ContextBudget.ProtectedTail | src/core/context_budget.cpp:38-42 | the latest assistant message, or the end |
| ContextBudget.NewestPerTool | src/core/context_budget.cpp:48-61 | exactly the messages holding the last result or the last call of some tool |
| ContextBudget.DropImages | src/core/context_budget.cpp:82-88 | the first pass ends at the first fit or having taken every unprotected image |
| ContextBudget.ShrinkResults | src/core/context_budget.cpp:90-100 | a pass over results ends at the first fit or with none left |
| ContextBudget.ShrinkCalls | src/core/context_budget.cpp:101-127 | a pass over argument sets ends at the first fit or with none left |
| ContextBudget.ShrinkProse | src/core/context_budget.cpp:131-137 | the last pass ends at the first fit or with none left |
| ContextBudgetLaws.TrimProtects | src/core/context_budget.cpp:80-137 | never changes count, order, roles, ids, names, system or user messages, or anything from the last assistant message on |
| ContextBudgetLaws.TrimNeverGrows | src/core/context_budget.cpp:68-78 | `after` is the estimate on exit, never above `before`, and `fits` says how it stands to the budget |
| ContextBudget.FitsInBytes | src/core/context_budget.cpp:65-78 | a trim that fits leaves no more content and argument bytes than the budget has room for |
| ContextBudgetLaws.LeftAloneExactly | src/core/context_budget.cpp:65-71 | without calls a transcript is left alone exactly when a quarter of its bytes and 800 for each image fit |
| ContextBudgetLaws.TouchedWasLarge | src/core/context_budget.cpp:80-137 | what changed lay before the protected tail, had 600 bytes or more, and became its shortened form or its stub, once |
| ContextBudgetLaws.UnfitMeansNothingLeft | src/core/context_budget.cpp:128-139 | when it does not fit, nothing any pass may take is left |
| ContextBudgetLaws.UnfitInFields | src/core/context_budget.cpp:80-137 | when it does not fit, no image, no result or prose of 600 bytes and no argument set of 600 is left before the protected tail |
| ContextBudgetLaws.TrimIsIdempotent | src/core/context_budget.cpp:65-140 | a second run to the same budget changes and counts nothing |
| ContextBudgetLaws.NewestGoesLast | src/core/context_budget.cpp:89-130 | a tool's newest result or call is touched only after every image and every other result and argument set |
| ContextBudgetLaws.ProseGoesLast | src/core/context_budget.cpp:128-137 | prose is touched only after all results and arguments |
| ContextBudgetLaws.OldestGoesFirst | src/core/context_budget.cpp:80-137 | within a pass what is taken is an oldest-first prefix |
| ContextBudgetLaws.ShortenSize | src/core/context_budget.cpp:29-34 | a shortened text is shorter, and below the threshold |
| ContextBudgetLaws.ShortenKeepsHead | src/core/context_budget.cpp:29-34 | a shortened text keeps its first 400 bytes, or as many of them as are whole characters, and says how many are gone |
| Text.TruncateKeepsUtf8 | src/core/text_utils.cpp:34-60 | cutting a UTF-8 text leaves whole characters, and as many of them as fit |
| Text.BytesByPayload | src/core/text_utils.cpp:48-54 | which bytes lead a sequence of which length, and which continue one |
| ContextBudgetLaws.StubSize | src/core/context_budget.cpp:116-118 | a stub stays below the threshold, escapes included |
| ContextBudgetLaws.StubSaysSize | src/core/context_budget.cpp:113-118 | a stub says how many bytes it replaces |
| AnthropicMessages.BuildAnthropicMessages | src/core/llm_client.cpp:738-793 | the system text is the last one, and each run of tool messages is one turn |
| AnthropicMessages.WellFormedIsPaired | src/core/llm_client.cpp:738-793 | a well-formed transcript is sent with every tool_use answered at once, with the same ids in the same order |
| AnthropicMessages.TurnsLoseNothing | src/core/llm_client.cpp:738-793 | the turns unroll to every non-system message in order: its text, its images, its ids, and its calls with their arguments |
| AnthropicMessages.ContentSays | src/core/llm_client.cpp:738-793 | a content holds exactly the text and the images, in parts only when there are images, and no empty text part |
| AnswerSchema.CheckIff | src/core/answer_schema.cpp:165-182 | no violation is found exactly when the value satisfies the declarative relation |
| AnswerSchema.ValidateIff | src/core/answer_schema.cpp:196-199 | the same for the entry point and its empty schemas |
| AnswerSchema.RequiredIff | src/core/answer_schema.cpp:102-111 | required fields are present and not null, exactly |
| AnswerSchema.ViolationIsReal | src/core/answer_schema.cpp:81-182 | the violation reported is one the value has, at the place it names |
| AnswerSchema.RelaxingKeepsAnswers | src/core/answer_schema.cpp:165-182 | deleting keywords anywhere never rejects what was accepted |
| AnswerSchema.FenceIsFound | src/core/answer_schema.cpp:24-34 | the body of the first fence is parsed whatever surrounds it |
| AnswerSchema.ObjectSpanIsFound | src/core/answer_schema.cpp:38-49 | prose around a bare object is cut away |
| AnswerSchema.ArraySpanIsFound | src/core/answer_schema.cpp:38-49 | so is prose around a bare array |
| AnswerSchema.NothingIsFound | src/core/answer_schema.cpp:186-194 | a text that does not parse, without a fence and an opening bracket, gives nothing |
| JsonValues.JsonEqIff | src/core/answer_schema.cpp:171-177 | values are equal exactly when they are one once integers and reals are taken as numbers |
| AnswerSchema.ExtractedIsParsed | src/core/answer_schema.cpp:186-194 | whatever is extracted, the parser delivered for some text |
| CronFields.ParseTerm | src/core/cron_schedule.cpp:27-70 | an accepted term is an ordered range within bounds with a positive step, and no weekday 7 |
| CronFields.TermRoundTrip | src/core/cron_schedule.cpp:29-60 | a range with a step, written out, reads back |
| CronFields.StarStepReads | src/core/cron_schedule.cpp:29-72 | a star over n reads as every n-th value from the start of the field's range |
| CronFields.RangeReads | src/core/cron_schedule.cpp:43-60 | a range without a step reads as every value from its start to its end |
| CronFields.CommaJoins | src/core/cron_schedule.cpp:19-26 | texts joined by a comma read as the union of what each selects |
| CronFields.SevenIsSunday | src/core/cron_schedule.cpp:61-66 | weekday 7 reads as 0 |
| CronFields.StepBelowOneIsRefused | src/core/cron_schedule.cpp:31-40 | a step of zero or less is refused |
| CronFields.OutsideIsRefused | src/core/cron_schedule.cpp:67-70 | a number outside a field's bounds is refused |
| CronFields.BoundsOfFields | src/core/cron_schedule.cpp:92-97 | the bounds of the five fields |
| CronFields.StoiLimits | src/core/cron_schedule.cpp:36-60 | a number reads exactly when it fits 32 bits, with a plus, a minus or no sign |
| CronFields.InsertSpan | src/core/cron_schedule.cpp:72-72 | the loop inserts exactly the values a whole number of steps from the start |
| CronFields.ParseField | src/core/cron_schedule.cpp:16-77 | accepted exactly when every term is; the set is what some term selects; otherwise the first bad term's reason |
| CronFields.ParseCronExpr | src/core/cron_schedule.cpp:81-102 | five fields, each read as it says, the stars remembered as written; a refusal means there is no reading |
| CronFields.StarReads | src/core/cron_schedule.cpp:43-48 | a star selects the whole range, for weekdays without a second Sunday |
| CronFields.WeekdaysStopAtSix | src/core/cron_schedule.cpp:61-66 | no weekday beyond Saturday comes out |
| CronFields.NumberReads | src/core/cron_schedule.cpp:29-72 | a printed number within bounds selects itself and nothing else |
| CronFields.WordsRoundTrip | src/core/cron_schedule.cpp:81-85 | fields written with a blank between them come apart as they were |
| CronFields.LeapDaysRead | src/core/cron_schedule.cpp:81-102 | "0 0 29 2 *" reads as the expression only leap days meet |
| CronSchedule.NextRunAfter | src/core/cron_schedule.cpp:104-137 | the first matching candidate of a year of minutes, or the exception when there is none |
| CronSchedule.DayFieldsDecide | src/core/cron_schedule.cpp:119-129 | with both day fields restricted either selects the day; with one a star the other decides alone |
| CronSchedule.MinuteDecides | src/core/cron_schedule.cpp:113-132 | a minute of a day matches exactly when its day does and its hour and minute are selected |
| CronSchedule.ClockRuns | src/core/cron_schedule.cpp:113-118 | sixty seconds are a minute of the local clock, and the offset moves it |
| CronSchedule.EpochIsThursday | src/core/cron_schedule.cpp:110-118 | the zero of the clock is midnight of Thursday, 1 January 1970 |
| CronSchedule.ThirteenthOrFriday | src/core/cron_schedule.cpp:119-129 | with 13 and Friday both Friday the 12th and Saturday the 13th of January 2024 are selected, Sunday is not |
| CronSchedule.FiresIsNext | src/core/cron_schedule.cpp:104-132 | from a clean start it is the least minute-aligned match strictly after `from` |
| CronSchedule.NextExactlyFromCleanStart | src/core/cron_schedule.cpp:108-108 | and that holds for every expression exactly from a clean start |
| CronSchedule.DayWithinYear | src/core/cron_schedule.cpp:119-129 | some day of any 366 in a row is selected, the OR rule included |
| CronSchedule.FiresWithinYear | src/core/cron_schedule.cpp:113-136 | the window always contains a match for an expression that can always fire |
| CronSchedule.NeverThrowsExactly | src/core/cron_schedule.cpp:110-136 | it never throws exactly when weekdays are restricted or some selected day exists in a common year |
| CronSchedule.SilentInCommonYears | src/core/cron_schedule.cpp:113-136 | before any two common years an expression that needs a leap day finds nothing |
| CronSchedule.LeapDaysThrow | src/core/cron_schedule.cpp:113-136 | the expression of "0 0 29 2 *" throws from the end of 2024 on |
| Calendar.DateOfDay | src/core/cron_schedule.cpp:116-124 | every day has a real date whose number it is |
| Calendar.DateOfNumber | src/core/cron_schedule.cpp:116-124 | and every real date is the date of its number |
| Calendar.DateWithinYear | src/core/cron_schedule.cpp:110-113 | a date of common years recurs within any 366 days |
| Calendar.WeekdayWithinYear | src/core/cron_schedule.cpp:110-113 | any month has any weekday within any 366 days |
| CronRunner.JobTable.MarkRunning | src/core/memory.cpp:1864-1870 | the flag of one row |
| CronRunner.JobTable.RecordRun | src/core/memory.cpp:1879-1895 | outcome and next due time of one row, the flag untouched |
| CronRunner.JobTable.ClearStaleRuns | src/core/memory.cpp:1872-1877 | no flag is left, and the count is of those that were set |
| CronRunner.JobTable.PollOnce | src/core/cron_runner.cpp:268-279 | an undisturbed round marks exactly the due jobs and gives each one worker |
| CronRunner.StepKeepsInv | src/core/cron_runner.cpp:216-284 | every step of every interleaving keeps the invariant |
| CronRunner.RunKeepsInv | src/core/cron_runner.cpp:216-284 | in every state of every run `running` is set exactly while one worker is in flight, and no job is launched twice for one due time |
| CronRunner.FlagKept | src/core/cron_runner.cpp:248-279 | the flag and the workers agree after every step |
| CronRunner.LaunchedKept | src/core/cron_runner.cpp:240-279 | launches of one job are for strictly later due times |
| CronRunner.DueTimeAdvances | src/core/cron_runner.cpp:240-249 | a due time never moves back, and a recorded run moves it forward |
| CronRunner.DueTimesOnlyGrow | src/core/cron_runner.cpp:240-249 | over whole runs, restarts included |
| CronRunner.RecordsItsOwn | src/core/cron_runner.cpp:240-249 | recording writes the worker's own outcome and due time into its job's row and nothing else |
| CronRunner.ComputedIsRecorded | src/core/cron_runner.cpp:230-249 | what a worker computed is what it records, whatever happens in between short of a restart |
| CronRunner.PollPicksAllIdle | src/core/memory.cpp:1841-1850 | a poll picks exactly the overdue jobs without a worker |
| CronRunner.RestartLosesNothing | src/core/cron_runner.cpp:259-268 | after a restart the first poll picks every overdue job |
| CronRunner.ListIsWorkedOff | src/core/cron_runner.cpp:268-279 | after a poll, what was launched since and what is still pending are the due list, in its order |
| CronRunner.ListedAreLaunchedOnce | src/core/cron_runner.cpp:259-284 | between a poll and the next one, without a restart, exactly the listed jobs are launched, each once |
| CronRunner.LaunchRuns | src/core/cron_runner.cpp:268-278 | launching a job from the due list sets its flag and gives it its worker |
| MemoryTables.InsertKeeps | src/core/memory.cpp:502-516 | a new fact keeps all five tables consistent |
| MemoryTables.RemoveKeeps | src/core/memory.cpp:1141-1162 | so does a removal |
| MemoryTables.RemoveIsExact | src/core/memory.cpp:1141-1162 | nothing is left of a removed memory, and nothing else goes |
| MemoryTables.RecycledIdStartsClean | src/core/memory.cpp:315-348 | a recycled id inherits no vector, link, judgment or term entry |
| MemoryTables.PutVectorKeeps | src/core/memory.cpp:406-487 | a vector of another dimension empties the index, and all vectors have one dimension and their owner's partition |
| MemoryTables.PutVectorSparesExactly | src/core/memory.cpp:406-487 | every other memory, of any account, keeps its vector exactly when the new one has the index's dimension |
| MemoryTables.PutLinkKeeps | src/core/memory.cpp:637-672 | a link is ordered, of one owner, with a weight above zero and at most one |
| MemoryTables.LinkIsStored | src/core/memory.cpp:656-668 | a link is stored lower id first, with its weight or one if that is less, and every other link stays |
| MemoryTables.JudgeKeeps | src/core/memory.cpp:991-998 | a judgment is ordered and of one owner and agent |
| MemoryTables.TouchKeeps | src/core/memory.cpp:582-592 | counting a recall touches nothing another table looks at |
| MemoryTables.LinkIsSymmetric | src/core/memory.cpp:656-659 | links have no direction |
| MemoryTables.UnlinkUndoesLink | src/core/memory.cpp:637-696 | unlinking undoes linking, from either end |
| MemoryUpkeep.FilledKeepsEach | src/core/memory.cpp:1198-1235 | with one dimension throughout, each memory filled has the vector of its own call and no other memory loses its vector |
| MemoryUpkeep.MergedRows | src/core/memory.cpp:1387-1432 | a merge deletes its cluster but for the row kept, leaves every other row as it was, and the row kept holds the text |
| MemoryUpkeep.MergedLeavesOutside | src/core/memory.cpp:1387-1432 | no row, link or judgment of another account or agent is affected |
| MemoryUpkeep.MergedVectorsExactly | src/core/memory.cpp:1421-1429 | a memory the merge has nothing to do with keeps its vector exactly when the merged text has none or one of the index's dimension |
| MemoryUpkeep.MergeDropsOthers | src/core/memory.cpp:1421-1429 | a merge of one account whose vector has another dimension costs another account its vector |
| MemoryUpkeep.VectorsKeptExactly | src/core/memory.cpp:1318-1436 | over all rounds such a memory keeps its vector exactly when every merged text's fits, and otherwise has none |
| MemoryUpkeep.OutsidersAreUninvolved | src/core/memory.cpp:1318-1436 | no merge has anything to do with another account's memory, or another agent's where one is named, and its row stands |
| MemoryUpkeep.UnmergedSurvives | src/core/memory.cpp:1318-1436 | a memory no merge took is still there, unchanged |
| MemoryUpkeep.NewRowsAreMerged | src/core/memory.cpp:1387-1432 | a row that is new or changed is one a merge kept, with its text, owner and agent |
| MemoryUpkeep.KeptHoldsText | src/core/memory.cpp:1387-1432 | after each merge the row kept holds the model's text for the owner and agent of the whole cluster |
| MemoryUpkeep.ClustersApart | src/core/memory.cpp:1310-1366 | no memory takes part in two merges |
| MemoryUpkeep.InquiriesGrow | src/core/memory.cpp:968-998 | over all anchors earlier verdicts and links stand, and a link that is new or weighs other than before joins a pair judged related in between |
| MemoryUpkeep.VerdictsAreRecorded | src/core/memory.cpp:968-998 | every verdict the judge gave is the one on record at the end |
| MemoryUpkeep.RecordsWereGiven | src/core/memory.cpp:968-998 | every record that was not there before is a verdict the judge gave on that pair |
| MemoryStore.MemoryStore.TryEmbed | src/core/memory.cpp:451-464 | a vector exactly when the embedder answers with one; its health remembered |
| MemoryStore.MemoryStore.Open | src/core/memory.cpp:390-404 | an index from before the partitions is emptied on opening, every other table is as it was found |
| MemoryStore.MemoryStore.EnsureVecTable | src/core/memory.cpp:406-447 | afterwards the index is partitioned and of that dimension; its vectors are lost exactly when the dimension changes or it had no partitions |
| MemoryStore.MemoryStore.InsertVector | src/core/memory.cpp:466-487 | one vector per memory, under its owner's partition |
| MemoryStore.MemoryStore.Remember | src/core/memory.cpp:491-541 | the id returned holds the fact; a fact already there changes nothing; empty facts and unknown users are refused |
| MemoryStore.MemoryStore.Forget | src/core/memory.cpp:1141-1162 | exactly the owner's memory goes, with everything hung on it |
| MemoryStore.MemoryStore.LinkMemories | src/core/memory.cpp:637-672 | linked exactly when both ends are the caller's and the link makes sense |
| MemoryStore.MemoryStore.UnlinkMemories | src/core/memory.cpp:674-696 | unlinked exactly when the link exists and is the caller's |
| MemoryStore.MemoryStore.PruneStale | src/core/memory.cpp:1239-1277 | with an age of zero days or more, gone is exactly what is automatic, was never recalled, is of that age and is in the user's and agent's pool, without a trace; the rest stays as it was |
| MemoryStore.RecalledIsSpared | src/core/memory.cpp:579-592 | a memory recalled, or kept deliberately, survives pruning |
| MemoryStore.MemoryStore.TouchRecalled | src/core/memory.cpp:582-592 | the recall count of each memory grows by the hits on it, and nothing else changes |
| MemoryStore.MemoryStore.BackfillEmbeddings | src/core/memory.cpp:1198-1235 | each memory in list order gets, under its owner, the vector of its own call, until the first call that gives none |
| MemoryStore.MemoryStore.Cluster | src/core/memory.cpp:1322-1366 | exactly the similar enough, unclaimed neighbours of the seed's agent, for a seed the index lists |
| MemoryStore.MemoryStore.MergeCluster | src/core/memory.cpp:1387-1432 | the tables become exactly those of the merge: cluster gone, one row with the merged text and its vector |
| MemoryStore.MemoryStore.MergeRounds | src/core/memory.cpp:1300-1436 | each candidate in order gets its round until enough clusters were seen, none without an embedder that works or an index |
| MemoryStore.MemoryStore.ConsolidateSeed | src/core/memory.cpp:1318-1436 | the cluster is exactly the seed's; it is merged exactly when the model gives a text for it, and otherwise nothing changes |
| MemoryStore.MemoryStore.Consolidate | src/core/memory.cpp:1279-1445 | the rounds follow one another over all candidates or until enough clusters; a memory no merge took is gone exactly when it is automatic, never recalled, old enough and the pool's, and unchanged otherwise; merges are apart; no row, link or judgment of another account or agent is affected, and their vectors stay exactly while every merged text's fits |
| MemoryStore.MemoryStore.Candidates | src/core/memory.cpp:900-966 | exactly the memories the index lists for this user within the band, of the anchor's agent and never judged with it, each once |
| MemoryStore.MemoryStore.JudgePair | src/core/memory.cpp:968-998 | a failed call changes nothing; any verdict is recorded, with a full-weight link exactly when it says related |
| MemoryStore.MemoryStore.BackfillLinks | src/core/memory.cpp:857-1001 | every candidate of every anchor is asked about; verdicts given and records made are the same; earlier verdicts and links stand; no other account or agent is affected |
| MemoryStore.MemoryStore.RecallMemories | src/core/memory.cpp:543-577 | at most k distinct memories of the caller, descending; the best direct hit leads; with room for all, every memory of the pool linked to a direct hit is there, and every term match; term matches displace nothing; only the recall counts of the hits grow, by one, and only when asked to touch them |
| MemoryStore.MemoryStore.DirectHits | src/core/memory.cpp:563-576 | the index's answer when it has one for the agent, else the keyword rows |
| Recall.SortDescSorts | src/core/memory.cpp:556-557 | sorting is a permutation in descending order |
| Recall.SortDescIsStable | src/core/memory.cpp:556-557 | hits of equal score keep their order |
| Recall.BestComesFirst | src/core/memory.cpp:556-557 | the first hit of the highest score leads |
| Recall.LinkScoreBelow | src/core/memory.cpp:779-783 | an inherited score is below its anchor's exactly when the anchor's is positive |
| Recall.ExpandAnchor | src/core/memory.cpp:757-786 | all of an anchor's links to the caller's memories, each new memory once |
| Recall.ExpandLinks | src/core/memory.cpp:741-791 | appends memories one hop from a hit, anchor by anchor, none missing of an anchor gone through; it stops after the first anchor with which k were found |
| Recall.FtsFill | src/core/memory.cpp:795-855 | appends term matches in order as far as there is room, scored down from the base |
| Recall.FloorIsLowest | src/core/memory.cpp:803-808 | with positive scores the running floor is the lowest |
| Recall.TermsBelow | src/core/memory.cpp:803-846 | term matches score below everything found before them, and fall in order |
| Recall.ScoresInFigures | src/core/memory.cpp:779-846 | inherited and term scores, in figures |
| Recall.BestOfDirectIsBest | src/core/memory.cpp:549-561 | widening never overtakes the best direct hit |
| Recall.Widen | src/core/memory.cpp:553-561 | the three kinds of hits in one ranking: what each may displace, and that none is missed: every link of a direct hit unless k were found, the first fresh term rows as far as there is room, and all of them in the answer when they are no more than k |
| Recall.RecallSemantic | src/core/memory.cpp:1018-1071 | the k best of the agent's rows by weighted similarity; what is left out scores no more |
| Recall.NearerScoresHigher | src/core/memory.cpp:1052-1062 | of two rows of like sources the nearer scores higher, exactly |
| Recall.DeliberateOutranks | src/core/memory.cpp:1052-1062 | at one distance what was kept deliberately outranks what was consolidated, and that the rest |
| Recall.SourceWeights | src/core/memory.cpp:1007-1016 | the weights of the sources, in figures |
| Recall.RecallKeyword | src/core/memory.cpp:1073-1106 | the newest matching rows with positive scores |
| Base64.Encode | src/core/base64.cpp:21-52 | the grouped encoding with its padding |
| Base64.Decode | src/core/base64.cpp:54-81 | what an accumulator that never overflows would decode, or a refusal |
| Base64.WordGivesOut | src/core/base64.cpp:68-78 | the 32-bit buffer gives out the same bytes as an unbounded one |
| Base64.EncodedReads | src/core/base64.cpp:21-81 | encoded bytes come back after any reading |
| Base64.RoundTrip | src/core/base64.cpp:21-81 | decoding undoes encoding, for every byte string |
| Base64.EncodedShape | src/core/base64.cpp:21-52 | four characters for every three bytes begun, all from the alphabet |
| Password.ParseIterations | src/core/password.cpp:50-60 | strict digits with a bounded value, or nothing |
| Password.ConstantTimeEquals | src/core/password.cpp:117-125 | true exactly for equal byte strings |
| Password.VerifyPassword | src/core/password.cpp:71-103 | true exactly for a readable record whose hash the password derives |
| Password.HashPassword | src/core/password.cpp:64-69 | the record of a fresh hash holds its count, salt and hash, and a failed derivation gives none |
| Password.SplitJoins | src/core/password.cpp:75-91 | three parts without dollars come apart as they were joined |
| Password.RecordReadsBack | src/core/password.cpp:64-103 | every accepted count, nonempty salt and 32-byte hash reads back from its record |
| Password.VerifyRecord | src/core/password.cpp:64-103 | a stored record accepts a password exactly when it derives the stored hash |
| XmlBlocks.ExtractXmlBlocks | src/core/llm_client.cpp:304-327 | the blocks in order, each the next opening tag's name and the text up to its closing tag; improper names skipped |
| XmlBlocks.NamesExactly | src/core/llm_client.cpp:304-327 | a name is one or more of a-z, A-Z, 0-9 and the underscore |
| XmlBlocks.BlocksShift | src/core/llm_client.cpp:304-327 | what stands before the place one reads from does not matter |
| XmlBlocks.BlocksRoundTrip | src/core/llm_client.cpp:304-327 | blocks written one after another are read back, each with its name and body |
| SseLines.SseLineParser.Feed | src/core/llm_client.cpp:268-281 | after any feeds, the payloads of the stream so far and its unfinished line |
| SseLines.FeedAll | src/core/llm_client.cpp:264-282 | any cutting of a stream gives the payloads of the stream |
| SseLines.ParseAppend | src/core/llm_client.cpp:268-281 | parsing a continued stream is parsing the leftover with the rest |
| SseLines.LeftoverIsTail | src/core/llm_client.cpp:268-273 | the buffer is exactly the bytes after the last newline |
| SseLines.PayloadRoundTrip | src/core/llm_client.cpp:274-279 | a payload on a line of its own comes out as it went in |
| ScriptArgv.BuildArgv | src/core/script_library.cpp:295-368 | accepted exactly when every key is known and every parameter takes its value; a refusal names the first fault and leaves argv alone |
| ScriptArgv.BuildTokens | src/core/script_library.cpp:316-364 | one token per present parameter, in manifest order |
| ScriptArgv.ParseArgs | scriptlib/workspace_report.py:15-22 | the dictionary the tokens spell, or the exit |
| ScriptArgv.TokenParses | scriptlib/workspace_report.py:18-21 | a token reads as its name and value whatever the value contains |
| ScriptArgv.TokensRecover | src/core/script_library.cpp:295-368 | the script finds each parameter exactly as accepted |
| ScriptArgv.AcceptedExactly | src/core/script_library.cpp:334-360 | a parameter that is no boolean is accepted exactly when given a scalar whose text is short, without control characters, a number where due and one of its choices, and passes that text on |
| ScriptArgv.BooleanExactly | src/core/script_library.cpp:322-333 | a boolean is on for true or "true", off for false or any other text, and refused otherwise |
| ScriptArgv.NotGivenExactly | src/core/script_library.cpp:316-321 | what is not given, or null, is refused when required and left out otherwise |
| ScriptArgv.Deliver | src/core/script_library.cpp:295-368 | builder and parser composed |
| ScriptArgv.RequiredIsPresent | src/core/script_library.cpp:316-333 | an accepted required parameter was given, and contributes no token exactly when it is a boolean turned off |
| ScriptArgv.RequiredIsMissedExactly | src/core/script_library.cpp:316-333 | in a whole accepted call the script misses a required parameter exactly then |
| ScriptArgv.RequiredFlagOff | src/core/script_library.cpp:316-333 | a required flag given as false is accepted and nothing is said of it |
| LinkedInPost.Publisher.Post | publishing/post_tweet.py:360-460 | the record changes exactly as by one create for a slot not posted and one round of comments; every exit is the one its cause has: what is withheld, unreadable, beyond the issue or incomplete, the dry run, no token or a failed create, comments owed or none |
| LinkedInPost.Publisher.FinishComments | publishing/post_tweet.py:330-349 | every owed comment is tried once, lowest slot first, and the record says of each what its own call answered; returns exactly what is still owed |
| LinkedInPost.Publisher.OwedSlots | publishing/post_tweet.py:335-336 | exactly the slots not done, in ascending order |
| LinkedInPost.CommentedAt | publishing/post_tweet.py:330-349 | a slot is done after the round exactly when it has a post and a link and its own comment worked |
| LinkedInPost.FailedCommentsKeep | publishing/post_tweet.py:330-349 | comments that all fail leave the record as it was |
| LinkedInPost.OutcomeIsStep | publishing/post_tweet.py:413-460 | a run creates only for a slot not posted, changes no other id and undoes no other comment |
| LinkedInPost.CreateWithoutComment | publishing/post_tweet.py:434-453 | a create that returned stays on file when every comment after it fails |
| LinkedInPost.PostedIsForever | publishing/post_tweet.py:434-453 | over any number of runs a slot posted under an id keeps it, and its comment stays done |
| LinkedInPost.OneIdPerSlot | publishing/post_tweet.py:434-453 | at most one create of a slot returns an id |
| LinkedInPost.DoneIsSafeExactly | publishing/post_tweet.py:434-453 | no run undoes done exactly when no done entry of a slot from 1 on has a missing or empty id |
| LinkedInPost.IdsAreSafeExactly | publishing/post_tweet.py:434-453 | no run changes a recorded id exactly when none of a slot from 1 on is missing or empty |
| LinkedInPost.PostOverEmptyId | publishing/post_tweet.py:424-453 | the script, run on a record whose one entry is done under an empty id, posts again and owes the comment again |
| WhatsAppPoll.Poller.Seed | scripts/whatsapp_autoresponder.py:152-169 | the first watermark is the newest timestamp with the ids at it |
| WhatsAppPoll.Poller.FetchNewMessages | scripts/whatsapp_autoresponder.py:320-346 | exactly the selected rows not seen at the watermark, oldest first, and the watermark moved to the newest |
| WhatsAppPoll.ExactlyOnce | scripts/whatsapp_autoresponder.py:320-346 | an incoming row is handed out by the first poll after it arrived if it was not behind the watermark, and by no other |
| WhatsAppPoll.SettledStays | scripts/whatsapp_autoresponder.py:335-344 | a row behind or seen at the watermark stays so |
| WhatsAppPoll.BacklogStaysUnanswered | scripts/whatsapp_autoresponder.py:152-169 | with any timestamp to start behind, no row present at seeding is handed out |
| WhatsAppPoll.BacklogSafeExactly | scripts/whatsapp_autoresponder.py:161-163 | that holds on a store exactly when a message has a timestamp or none is incoming |

## Left out

- The wording of reminders, refusals and failures is shortened; that a failure starts with the failure marker is kept.
- JSON text: printing and parsing are functions; a value the parser delivered is assumed to read back from its printed text, and the empty text not to parse. A number is an integer or a real, and the arguments of a recorded call are always JSON text.
- Token estimates, counters and ratios are exact: no 32-bit overflow of the estimate, no rounding of doubles.
- `ContextBudgetLaws.UnfitMeansNothingLeft` and the laws that use it take every text to fit a `std::string` on a 64-bit platform.
- Of the report on judging links only the number linked is modelled.
- Deltas, events and log lines of a run, the vision model's own prompt, and everything before and after the loop in `FunesAgent`.
- What is made of recovered blocks (JSON arguments, ids) in `llm_client.cpp`, the OpenAI message builder, HTTP and retries.
- Daylight saving and time zones: the calendar has a fixed offset. `v += step` beyond the int range, undefined in C++, is unbounded here.
- `run_job_now`, deleting and rescheduling jobs while their worker runs, and a table edited by hand are outside the runner's protocol; marking a job and starting its worker is one step.
- Each public method of the memory store is one step: the lock released inside consolidation and backfills, SQL failures, the transaction rollback, and the choice of every user in turn are not modelled.
- Schema migrations other than the vector index's, full-text availability changing at run time, and the language column.
- Which row id SQLite gives, what the nearest-neighbour, keyword and term queries list and rank first, and embeddings themselves are oracles.
- PBKDF2, SHA-256, random salts and tokens: the derivation is any function, which may fail.
- A LinkedIn run interrupted between the reply and the saved record, two runs at once, the image upload, and the retries inside one comment.
- A WhatsApp poller crashing between a poll and its saved state, messages without a timestamp, and deleted messages.
- ScriptArgv.TokensRecover: parameter names are distinct and contain no '=', as the token syntax needs.
- Manifest loading, script output, the library search path, prompt texts, the user interface, newsletters, images, benchmarks and configuration.
