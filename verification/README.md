# Verified models of seven components

This project models the components of the repository whose behaviour rests on an argument rather than on reading
one function, and proves that argument in Dafny 4.11. `dafny verify dfyconfig.toml` checks all of it.

| component | modules | what is proved |
|---|---|---|
| asynchronous logger | `AsyncLoggingSpec`, `AsyncLogging`, `LogFile` | stream order, how lines fill buffers, what a drop and a stop lose and when, that all is written, buffer ownership, the in-code asserts, when files roll |
| monitors | `Monitor`, `BoundedBlockingQueueSpec`, `BoundedBlockingQueue`, `ThreadPoolSpec`, `ThreadPool` | exact mutex holder, no lost wakeup, conservation of values and tasks, progress, shutdown |
| calendar | `Date`, `ComputeDays`, `TimeZone` | closed forms against day-by-day counting, round trips, 32-bit ranges, local time lookup |
| integer formatting | `LogStream` | round trip, canonical form, length bounds, the free byte |
| sorting | `Shellsort`, `Insertsort`, `Quicksort`, `Heapsort`, `Mergesort` | in-place algorithms against specifications, and exactly when they sort or keep order |
| configuration parser | `ConfFormat`, `ConfParser` | the character scanner refines a line-by-line meaning; printing, decoration, the switch, error exits |
| crawler worklist | `CrawlerSpec`, `Crawler` | a concurrent fixpoint: once-only queueing, closure, the redirect limit, termination |

How the models are built:

- A component that several threads share is a state with atomic steps in a `...Spec` module. A run is any sequence
  of steps of any threads; a step that is not possible when its turn comes does nothing. Which threads a notification
  wakes is part of the step, at least one if any waits, and spurious wakeups are steps of their own. The class with the
  same name has the source's fields and one method for each step, proved to change its abstract value by that step.
  `Monitor.OthersLeaveAlone` is why a critical section may be one step.
- An algorithm on an array works in place and is proved equal to a function, or to a property that fixes its result.
- C's division truncates toward zero (`CInt`); where the sign matters it is written out. Ranges of `int` are stated
  where the source depends on them.

Where the code and its comments disagree, the code is modelled:

- `Shellsort` is commented as ascending; its comparison sorts in non-increasing order.
- `Mergesort` is commented as stable; `Merge` takes the right element on ties, so equal keys come out reversed.
- `median3` exchanges left with right where it compares left with the centre. Permutation, bounds and partition hold for
  the code as written; it sorts exactly if no call is given centre < left < right.
- `AsyncLogging` may leave lines unwritten at `stop`, since `running_` is tested only between rounds: exactly those appended
  after the last locked section.
- `ThreadPool::stop` wakes workers but no callers that are blocked in `run`; `ThreadPoolSpec.CallersReleasedExactly` says
  which of them can still return.
- `Crawler.add_url` says "if not seen before" but does not look.
- `check_comment_line` says that its result is 0 for a comment line; a line of 1 to 1023 blanks, or a lone carriage
  return, counts as valid and loses its block.

## Model

| member | source | states |
|---|---|---|
| `AsyncLoggingSpec.AppendKeeps` | src/log/muduo-clog/muduo/base/AsyncLogging.cc:29-51 | an append keeps the whole invariant: stream order, every buffer below its size, and a missing spare buffer only while buffers are queued |
| `AsyncLoggingSpec.SwapKeeps` | src/log/muduo-clog/muduo/base/AsyncLogging.cc:70-83 | the locked section keeps the invariant: the queue and the current buffer become the batch, in order, and a spare buffer is lent exactly if none was left |
| `AsyncLoggingSpec.CheckKeeps` | src/log/muduo-clog/muduo/base/AsyncLogging.cc:85-96 | the drop rule keeps the invariant: beyond 25 buffers a notice goes out and the first two buffers stay |
| `AsyncLoggingSpec.WriteKeeps` | src/log/muduo-clog/muduo/base/AsyncLogging.cc:98-102 | each write outputs the next buffer of the batch and keeps the invariant |
| `AsyncLoggingSpec.RecycleKeeps` | src/log/muduo-clog/muduo/base/AsyncLogging.cc:104-126 | recycling two buffers keeps the invariant, so the next round starts with two spares |
| `AsyncLoggingSpec.StepKeeps` | src/log/muduo-clog/muduo/base/AsyncLogging.cc:29-128 | every step of appenders, owner and backend keeps the invariant |
| `AsyncLoggingSpec.RunKeeps` | src/log/muduo-clog/muduo/base/AsyncLogging.cc:29-128 | the invariant holds after every interleaving |
| `AsyncLoggingSpec.AcceptedAreFitting` | src/log/muduo-clog/muduo/base/AsyncLogging.cc:29-51 | in every run the lines accepted are, in order, exactly the appended lines shorter than one large buffer |
| `AsyncLoggingSpec.OutputIsKept` | src/log/muduo-clog/muduo/base/AsyncLogging.cc:64-126 | in every run the lines output, with the unwritten rest of the current round, are the lines of all batches without what the drop rule takes: the buffers after the first two of a batch of more than 25 |
| `AsyncLoggingSpec.NothingLost` | src/log/muduo-clog/muduo/base/AsyncLogging.cc:29-128 | while no batch exceeds 25 buffers: output, unwritten buffers, queue and current buffer hold exactly the fitting appended lines, whole and in order |
| `AsyncLoggingSpec.TailAtExit` | src/log/muduo-clog/muduo/base/AsyncLogging.cc:64-128 | at thread exit the output is a prefix of those lines, and the rest is exactly queue and current buffer |
| `AsyncLoggingSpec.QueueIsSinceSwap` | src/log/muduo-clog/muduo/base/AsyncLogging.cc:29-83 | in every run queue and current buffer hold exactly the fitting lines appended after the last locked section that took the queue |
| `AsyncLoggingSpec.AllWrittenExactly` | src/log/muduo-clog/muduo/base/AsyncLogging.cc:64-128 | at exit without drops the output and those lines are together all fitting lines, so everything is written if and only if nothing that fits was appended after the last locked section |
| `AsyncLoggingSpec.RunPacks` | src/log/muduo-clog/muduo/base/AsyncLogging.cc:29-83 | in every run the buffers of each batch, and those of the queue with the current one, are a packing of all lines appended: each line is in the buffer at hand if it had room there, and starts the next one otherwise |
| `AsyncLoggingSpec.PackingIsUnique` | src/log/muduo-clog/muduo/base/AsyncLogging.cc:32-47 | the appended lines alone determine that packing |
| `AsyncLoggingSpec.BuffersAreTight` | src/log/muduo-clog/muduo/base/AsyncLogging.cc:32-47 | while no line is as long as a buffer: in queue and batches no buffer but the first is empty, and none was started by a line for which the one before had room |
| `AsyncLoggingSpec.OneBufferIsEnough` | src/log/muduo-clog/muduo/base/AsyncLogging.cc:32-35 | while the lines since the last locked section have fewer bytes than a buffer, they are all in the current one and nothing is queued |
| `AsyncLoggingSpec.ModerateMeansNoDrops` | src/log/muduo-clog/muduo/base/AsyncLogging.cc:32-96 | while less than 104,000,000 bytes, those of 13 buffers, are appended between any two locked sections, no buffer is ever dropped |
| `AsyncLoggingSpec.DropsAtTheBound` | src/log/muduo-clog/muduo/base/AsyncLogging.cc:32-96 | with exactly that many bytes there is a run that drops buffers |
| `AsyncLoggingSpec.RunningGoesOn` | src/log/muduo-clog/muduo/base/AsyncLogging.cc:55-126 | in every run the backend leaves its loop only after a stop, and until then always has a next step |
| `AsyncLoggingSpec.RunningWritesAll` | src/log/muduo-clog/muduo/base/AsyncLogging.cc:64-126 | from every state of a running logger at most 60 further steps of the backend alone empty the queue and the current buffer; without drops the output is then exactly all that fits |
| `AsyncLoggingSpec.StoppedEnds` | src/log/muduo-clog/muduo/base/AsyncLogging.cc:64-128 | once stopped, the backend takes at most 30 more steps, whatever is appended meanwhile, and it can go on until it is done |
| `AsyncLoggingSpec.TailCanRemain` | src/log/muduo-clog/muduo/base/AsyncLogging.cc:64 | a run in which the backend exits with an appended line unwritten, because running is tested only between rounds |
| `AsyncLoggingSpec.BackendAsserts` | src/log/muduo-clog/muduo/base/AsyncLogging.cc:55-122 | none of the asserts of the backend about which buffers are there can fail in any run: both spares and no batch at the top, a non-empty batch after the locked section, and enough buffers left to recycle |
| `AsyncLogging.AsyncLogging.constructor` | src/log/muduo-clog/muduo/base/AsyncLogging.cc:9-27 | two distinct empty buffers; the initial state of the protocol |
| `AsyncLogging.AsyncLogging.Append` | src/log/muduo-clog/muduo/base/AsyncLogging.cc:29-51 | on buffer objects: no buffer changes hands if more than the line's length is free, else the current one is queued and the spare one, or a new one, takes the line; the new abstract state is the protocol's append step, all live buffers stay distinct with bytes of their own, and the spare ones empty |
| `AsyncLogging.AsyncLogging.Start` | src/log/muduo-clog/muduo/base/AsyncLogging.h:37-42 | running is set and the thread launched, as the protocol's step |
| `AsyncLogging.AsyncLogging.Stop` | src/log/muduo-clog/muduo/base/AsyncLogging.h:44-49 | running is cleared, as the protocol's step |
| `AsyncLogging.AsyncLogging.Begin` | src/log/muduo-clog/muduo/base/AsyncLogging.cc:55-63 | the thread's prologue with its two new buffers refines the protocol's step |
| `AsyncLogging.AsyncLogging.Test` | src/log/muduo-clog/muduo/base/AsyncLogging.cc:64 | the loop test refines the protocol's step |
| `AsyncLogging.AsyncLogging.AssertsAtTop` | src/log/muduo-clog/muduo/base/AsyncLogging.cc:66-68 | at the top of the loop both spare buffers are there with length 0, and there is nothing left to write |
| `AsyncLogging.AsyncLogging.Enter` | src/log/muduo-clog/muduo/base/AsyncLogging.cc:66-83 | taking the lock: the three asserts hold, lengths included, and the thread waits or swaps the buffer objects as the protocol says |
| `AsyncLogging.AsyncLogging.Wake` | src/log/muduo-clog/muduo/base/AsyncLogging.cc:72-83 | after a wait that ended for any reason the swap happens without a second test |
| `AsyncLogging.AsyncLogging.Check` | src/log/muduo-clog/muduo/base/AsyncLogging.cc:85-96 | the assert holds, and the batch is truncated to two buffer objects after a notice exactly beyond 25 |
| `AsyncLogging.AsyncLogging.WriteOne` | src/log/muduo-clog/muduo/base/AsyncLogging.cc:98-102 | the bytes handed to the log file are exactly the lines of the next buffer |
| `AsyncLogging.AsyncLogging.Recycle` | src/log/muduo-clog/muduo/base/AsyncLogging.cc:104-126 | both asserts hold, and two distinct buffers of the batch become empty spares |
| `LogStream.DecimalReadsBack` | src/log/muduo-clog/muduo/base/LogStream.cc:34-55 | for every integer the decimal text is canonical and reads back as the integer |
| `LogStream.DecimalIsUnique` | src/log/muduo-clog/muduo/base/LogStream.cc:34-55 | a canonical decimal text is the text of the integer it denotes, so there is no other |
| `LogStream.NumeralReadsBack` | src/log/muduo-clog/muduo/base/LogStream.cc:34-73 | in bases 10 and 16 the digits of a number are canonical and denote it |
| `LogStream.NumeralFits` | src/log/muduo-clog/muduo/base/LogStream.cc:34-73 | a 64-bit magnitude takes at most 20 decimal and 16 hexadecimal digits |
| `LogStream.TruncatedByTen` | src/log/muduo-clog/muduo/base/LogStream.cc:40-45 | C's truncating quotient and remainder give the digits of the magnitude for negative values too, the most negative included |
| `LogStream.ReverseRange` | src/log/muduo-clog/muduo/base/LogStream.cc:52 | reversing in place touches only the range and gives it backward |
| `LogStream.Convert` | src/log/muduo-clog/muduo/base/LogStream.cc:34-55 | for every 64-bit value, signed or unsigned, the buffer holds its decimal text and a NUL within kMaxNumericSize, and nothing before it changes |
| `LogStream.ConvertHex` | src/log/muduo-clog/muduo/base/LogStream.cc:57-73 | the same in base 16, at most 16 digits and a NUL |
| `LogStream.PutHex` | src/log/muduo-clog/muduo/base/LogStream.cc:163-175 | a pointer's text is 0x and its hexadecimal digits |
| `LogStream.FixedBuffer.Append` | src/log/muduo-clog/muduo/base/LogStream.h:41-49 | the bytes are added whole if more than that many are free, else nothing changes; one byte stays free |
| `LogStream.FixedBuffer.Add` | src/log/muduo-clog/muduo/base/LogStream.h:57 | the bytes written at the current position join the contents |
| `LogStream.FixedBuffer.Reset` | src/log/muduo-clog/muduo/base/LogStream.h:59 | the buffer is empty again |
| `LogStream.LogStream.FormatInteger` | src/log/muduo-clog/muduo/base/LogStream.cc:105-113 | an integer's text is appended if kMaxNumericSize bytes are free, else nothing |
| `LogStream.LogStream.PutPointer` | src/log/muduo-clog/muduo/base/LogStream.cc:163-175 | a pointer's text is appended under the same test |
| `LogStream.LogStream.PutText` | src/log/muduo-clog/muduo/base/LogStream.h:113-158 | text is appended whole or not at all |
| `LogStream.InsertAllFits` | src/log/muduo-clog/muduo/base/LogStream.h:41-49 | after any sequence of text, integer and pointer insertions one byte is free, and what is there is whole items in order |
| `LogStream.InsertAllKeepsAll` | src/log/muduo-clog/muduo/base/LogStream.cc:105-113 | while the texts together leave room for one number, nothing is left out |
| `LogStream.TextReadsBack` | src/log/muduo-clog/muduo/base/LogStream.h:88-92 | the text of an integer, a pointer behind its 0x, or a truth value reads back as the value |
| `LogFile.LogFile.AppendUnlocked` | src/log/muduo-clog/muduo/base/LogFile.cc:61-88 | the file object's new state is that of the append function: write, then roll by size, by period, or flush |
| `LogFile.LogFile.RollFile` | src/log/muduo-clog/muduo/base/LogFile.cc:90-105 | a new file is opened exactly if the clock is past the last roll |
| `LogFile.RunConserves` | src/log/muduo-clog/muduo/base/LogFile.cc:61-105 | for every sequence of appends and clock readings the opened files concatenate to the appended lines, each whole in one file, and startOfPeriod_ is lastRoll_ rounded down to the day |
| `LogFile.FreshInv` | src/log/muduo-clog/muduo/base/LogFile.cc:20-29 | the constructor's first roll opens a file exactly if the clock reads later than 0 |
| `LogFile.PastRollSizeMeansNoRoll` | src/log/muduo-clog/muduo/base/LogFile.cc:61-105 | in every run the current file is past rollSize_ if and only if the last append passed it and read a clock not past lastRoll_ |
| `LogFile.RollReason` | src/log/muduo-clog/muduo/base/LogFile.cc:61-105 | an append opens a new file if and only if the clock is past the last roll and the line takes the file past rollSize_, or it is the line that checks the time and the day is another one; with the times of roll and flush and the line count it leaves in every case |
| `LogFile.CountIs` | src/log/muduo-clog/muduo/base/LogFile.cc:71-76 | in every run the time is checked at each checkEveryN_-th line that keeps its file within rollSize_, and at no other |
| `LogFile.SamePeriodExactly` | src/log/muduo-clog/muduo/base/LogFile.cc:77-80 | two clock readings are of one period exactly if they are of one day; truncation joins the day before 1970 to the first |
| `Date.NextDayCounts` | src/log/muduo-clog/muduo/base/Date.cc:20-27 | the Julian day number of the next calendar day is one more, from -4800-03-01 on |
| `Date.JdnCountsDays` | src/log/muduo-clog/muduo/base/Date.cc:20-27 | the closed form equals counting the days of the proleptic Gregorian calendar (section 3.2.1 of ISO 8601:2004) one by one from -4800-03-01 |
| `Date.OrderAgrees` | src/log/muduo-clog/muduo/base/Date.cc:20-27 | day numbers are ordered as the dates are, and equal only for equal dates |
| `Date.NumberRoundTrip` | src/log/muduo-clog/muduo/base/Date.cc:20-42 | for every number from -32044 on: the result is a valid date with that number |
| `Date.NumbersThatAreDates` | src/log/muduo-clog/muduo/base/Date.cc:29-42 | getYearMonthDay returns a valid date if and only if the number is at least -32044 |
| `Date.DateRoundTrip` | src/log/muduo-clog/muduo/base/Date.cc:20-42 | for a valid date: converting to a number and back gives the date if and only if it is not before -4800-03-01 |
| `Date.RoundTripFailsBefore` | src/log/muduo-clog/muduo/base/Date.cc:20-42 | -4800-02-29 comes back as -4800-03-01, because C divides toward zero |
| `Date.YearMonthDayCountsDays` | src/log/muduo-clog/muduo/base/Date.cc:29-42 | the n-th number after -32044 is the n-th calendar day after -4800-03-01 |
| `Date.YearMonthDayRange` | src/log/muduo-clog/muduo/base/Date.cc:29-42 | no intermediate of getYearMonthDay leaves 32 bits if and only if the number is at most 536838867 |
| `Date.JulianDayNumberRange` | src/log/muduo-clog/muduo/base/Date.cc:20-27 | no intermediate of getJulianDayNumber leaves 32 bits for dates up to that number |
| `Date.WeekDayRange` | src/log/muduo-clog/muduo/base/Date.h:95-99 | weekDay is in 0..6 if and only if the number is at least -1 or falls on a Sunday |
| `Date.WeekDayCycles` | src/log/muduo-clog/muduo/base/Date.h:95-99 | weekdays follow each other in a cycle of seven, anchored by Thursday 1970-01-01 |
| `ComputeDays.DaysBeforeIsJdn` | trash/c_tools/miscellaneous/compute_days.c:12-14 | the other month term notwithstanding, the day count is the Julian day number less a constant, plus one for the skewed dates before year 1 |
| `ComputeDays.ComputeDaysIsDifference` | trash/c_tools/miscellaneous/compute_days.c:7-21 | compute_days is the difference of the two day numbers if and only if both dates or neither are skewed, which no date from year 1 on is |
| `ComputeDays.ComputeDaysCounts` | trash/c_tools/miscellaneous/compute_days.c:7-21 | from year 1 on it counts the days from one date to the other one by one |
| `ComputeDays.ComputeDaysMissesADay` | trash/c_tools/miscellaneous/compute_days.c:7-21 | 0000-02-29 and the day after it are counted as the same day |
| `TimeZone.FillHMS` | src/log/muduo-clog/muduo/base/TimeZone.cc:71-77 | hours, minutes and seconds in range that sum up to the seconds given |
| `TimeZone.ToUtcTime` | src/log/muduo-clog/muduo/base/TimeZone.cc:321-347 | the struct filled step by step with C's truncating division and its correction is the broken-down time that rounds down |
| `TimeZone.SecondsRoundTrip` | src/log/muduo-clog/muduo/base/TimeZone.cc:321-362 | fromUtcTime(toUtcTime(s)) is s, negative seconds included, and the result is a valid broken-down time |
| `TimeZone.BrokenRoundTrip` | src/log/muduo-clog/muduo/base/TimeZone.cc:321-362 | toUtcTime(fromUtcTime(b)) is b with weekday and yearday of its date, for every valid b |
| `TimeZone.FieldsInRange` | src/log/muduo-clog/muduo/base/TimeZone.cc:321-347 | month, day, time of day and yearday are always in range, the yearday a day short in year -4800; the weekday is in range if and only if the day number is at least -1 or falls on a Sunday |
| `TimeZone.WeekDayCanBeNegative` | src/log/muduo-clog/muduo/base/TimeZone.cc:339 | a time in range, in year -4713, whose weekday is -2 |
| `TimeZone.YearDayIsDayOfYear` | src/log/muduo-clog/muduo/base/TimeZone.cc:341-345 | tm_yday is the sum of the days of the months before plus the day, if and only if the year is after -4800; in that year it is one less |
| `TimeZone.AgreesWithPosix` | src/log/muduo-clog/muduo/base/TimeZone.cc:321-347 | from 1970 on the formula of section 4.16 of the Base Definitions of IEEE Std 1003.1-2017 gives the seconds back from the result of toUtcTime |
| `TimeZone.FromUtcAgreesWithPosix` | src/log/muduo-clog/muduo/base/TimeZone.cc:349-362 | for every valid broken-down time from 1970 on fromUtcTime is that formula, with the day of the year of the date |
| `TimeZone.ToUtcTimeFits` | src/log/muduo-clog/muduo/base/TimeZone.cc:326-334 | the casts to int and the day arithmetic stay in 32 bits |
| `TimeZone.LowerBoundSplits` | src/log/muduo-clog/muduo/base/TimeZone.cc:229-232 | the binary search returns the first transition that is not less than the sentry |
| `TimeZone.FindLocaltimeIsRecordInForce` | src/log/muduo-clog/muduo/base/TimeZone.cc:218-250 | on transitions ascending in the compared key the lookup gives the record of the last transition not after the time, the first record when there is none (section 3.2 of RFC 8536) |
| `TimeZone.LookupByGmt` | src/log/muduo-clog/muduo/base/TimeZone.cc:218-250 | for universal times it is the record of the last transition whose gmttime is not after the time, the first record when there is none |
| `TimeZone.LookupByLocal` | src/log/muduo-clog/muduo/base/TimeZone.cc:218-250 | for local times, of the last transition whose localtime is not after it |
| `Monitor.StepKeeps` | src/log/muduo-clog/muduo/base/Mutex.h:79-125 | each step of a thread keeps the owner unique and the recorded holder exact |
| `Monitor.HolderIsExact` | src/log/muduo-clog/muduo/base/Mutex.h:66-125 | in every run a thread finds itself the holder exactly while it is inside the critical section, waits included; no two are inside; holder_ is 0 exactly if nobody is |
| `Monitor.OthersLeaveAlone` | src/log/muduo-clog/muduo/base/Mutex.h:137-154 | while a thread holds the mutex no run of the others changes owner or holder or enters: a critical section is one atomic step |
| `Monitor.MutexLock.IsLockedByThisThread` | src/log/muduo-clog/muduo/base/Mutex.h:67-70 | true exactly inside the critical section |
| `Monitor.MutexLock.Lock` | src/log/muduo-clog/muduo/base/Mutex.h:79-83 | acquires, then records the holder |
| `Monitor.MutexLock.Unlock` | src/log/muduo-clog/muduo/base/Mutex.h:85-89 | clears the holder, then releases |
| `Monitor.Condition.Wait` | src/log/muduo-clog/muduo/base/Condition.h:31-35 | clears the holder, blocks the thread and releases the mutex |
| `Monitor.Condition.Return` | src/log/muduo-clog/muduo/base/Condition.h:31-35 | wait returns with the mutex held and the thread recorded again |
| `Monitor.NotifyServes` | src/log/muduo-clog/muduo/base/Condition.h:40-43 | one more item with one notification keeps enough threads woken |
| `Monitor.WaitSteps` | src/log/muduo-clog/muduo/base/Condition.h:31-35 | after the first half of a wait the mutex is free and exactly one more thread is in a wait |
| `Monitor.ReturnSteps` | src/log/muduo-clog/muduo/base/Condition.h:31-35 | a thread that returns holds the mutex alone |
| `BoundedBlockingQueueSpec.StepKeeps` | src/log/muduo-clog/muduo/base/BoundedBlockingQueue.h:31-55 | each critical section and each spurious wakeup keeps the invariant |
| `BoundedBlockingQueueSpec.NoLostWakeup` | src/log/muduo-clog/muduo/base/BoundedBlockingQueue.h:31-55 | for any number of threads and every run: a blocked consumer means at least as many woken consumers as queued values, a blocked producer at least as many woken producers as free slots |
| `BoundedBlockingQueueSpec.FirstInFirstOut` | src/log/muduo-clog/muduo/base/BoundedBlockingQueue.h:31-55 | the queue stays within its capacity; values taken followed by values queued are the values put, in order |
| `BoundedBlockingQueueSpec.EachPutEntersOnce` | src/log/muduo-clog/muduo/base/BoundedBlockingQueue.h:31-41 | each thread's calls of put enter its values once and in order, all but one that is blocked in the call |
| `BoundedBlockingQueueSpec.StuckWithoutCapacity` | src/log/muduo-clog/muduo/base/BoundedBlockingQueue.h:23-55 | a producer and a consumer can be blocked with nobody woken if and only if the capacity is 0 |
| `BoundedBlockingQueueSpec.BlockedMeansProgress` | src/log/muduo-clog/muduo/base/BoundedBlockingQueue.h:31-55 | where a value meets a blocked consumer some woken consumer takes one, and the same for free slots and producers |
| `BoundedBlockingQueueSpec.WokenStepsEnd` | src/log/muduo-clog/muduo/base/BoundedBlockingQueue.h:31-55 | each step of a woken thread completes a call, or puts the thread back to sleep and leaves fewer woken |
| `BoundedBlockingQueueSpec.EveryWokenRunRests` | src/log/muduo-clog/muduo/base/BoundedBlockingQueue.h:31-55 | without new calls, in whatever order the woken threads run and whomever they wake, their steps number at most the square of the blocked calls and the woken threads; where none can go on, no consumer is blocked beside a value and no producer beside a free slot |
| `BoundedBlockingQueueSpec.ComesToRest` | src/log/muduo-clog/muduo/base/BoundedBlockingQueue.h:31-55 | and a run that gets there exists |
| `BoundedBlockingQueue.BoundedBlockingQueue.constructor` | src/log/muduo-clog/muduo/base/BoundedBlockingQueue.h:23-29 | an empty queue with a free mutex and nobody waiting |
| `BoundedBlockingQueue.BoundedBlockingQueue.Empty` | src/log/muduo-clog/muduo/base/BoundedBlockingQueue.h:57-61 | exactly if there is no value |
| `BoundedBlockingQueue.BoundedBlockingQueue.Full` | src/log/muduo-clog/muduo/base/BoundedBlockingQueue.h:63-67 | exactly at the capacity |
| `BoundedBlockingQueue.BoundedBlockingQueue.Put` | src/log/muduo-clog/muduo/base/BoundedBlockingQueue.h:31-41 | takes the lock and runs to its end or its wait; the assert holds, and the new state is the protocol's step |
| `BoundedBlockingQueue.BoundedBlockingQueue.PutAgain` | src/log/muduo-clog/muduo/base/BoundedBlockingQueue.h:34-41 | a woken producer tests again under the lock, as the protocol's step |
| `BoundedBlockingQueue.BoundedBlockingQueue.Take` | src/log/muduo-clog/muduo/base/BoundedBlockingQueue.h:43-55 | takes the lock and returns the front value or waits, as the protocol's step |
| `BoundedBlockingQueue.BoundedBlockingQueue.TakeAgain` | src/log/muduo-clog/muduo/base/BoundedBlockingQueue.h:46-55 | a woken consumer tests again under the lock, as the protocol's step |
| `ThreadPoolSpec.StepKeeps` | src/log/muduo-clog/muduo/base/ThreadPool.cc:34-155 | each step of workers, callers and owner keeps the invariant, and that no worker of a running pool has left its loop or came back from take without a task |
| `ThreadPoolSpec.TakenIsAPrefix` | src/log/muduo-clog/muduo/base/ThreadPool.cc:71-138 | in every run the tasks taken are a prefix of those submitted, the rest is queued, and the queue never exceeds a positive maxQueueSize_ |
| `ThreadPoolSpec.EachTaskBeginsOnce` | src/log/muduo-clog/muduo/base/ThreadPool.cc:113-155 | every task taken is begun exactly once by the worker that took it, or is still in that worker's hands |
| `ThreadPoolSpec.NoLostWakeup` | src/log/muduo-clog/muduo/base/ThreadPool.cc:71-132 | a sleeping worker means a running pool with at least as many woken workers as queued tasks; a sleeping caller at least as many woken callers as free places |
| `ThreadPoolSpec.EachRunEntersOnce` | src/log/muduo-clog/muduo/base/ThreadPool.cc:71-89 | per thread the tasks given to run are those it executed itself, then those it entered into the queue, in order, then the one it holds while blocked |
| `ThreadPoolSpec.RunsFromStartToStop` | src/log/muduo-clog/muduo/base/ThreadPool.cc:34-63 | the pool runs exactly from a start to the next stop |
| `ThreadPoolSpec.RunningStaysInLoop` | src/log/muduo-clog/muduo/base/ThreadPool.cc:148-155 | in every run no worker of a running pool has left its loop or came back from take without a task |
| `ThreadPoolSpec.WorkerTakesNext` | src/log/muduo-clog/muduo/base/ThreadPool.cc:113-155 | while the pool runs and tasks are queued, any worker not itself blocked in run takes the next one by at most four steps of its own, woken before if it slept |
| `ThreadPoolSpec.WorkerEmptiesQueue` | src/log/muduo-clog/muduo/base/ThreadPool.cc:113-155 | one such worker alone takes and begins all queued tasks, in order |
| `ThreadPoolSpec.WorkersShutDown` | src/log/muduo-clog/muduo/base/ThreadPool.cc:53-63 | after stop, in any further run: no worker sleeps, each takes at most four more steps and starts at most one more task, and can always go on unless its own task is blocked in run |
| `ThreadPoolSpec.StoppedRun` | src/log/muduo-clog/muduo/base/ThreadPool.cc:148-155 | once stopped, a worker's steps taken and steps left never exceed what was left at the stop |
| `ThreadPoolSpec.CallersReleasedExactly` | src/log/muduo-clog/muduo/base/ThreadPool.cc:53-89 | stop wakes no callers: once the pool is stopped, a caller blocked in run returns in some further run if and only if the queue is not full or a worker is on its way to take |
| `ThreadPoolSpec.BlockedForGood` | src/log/muduo-clog/muduo/base/ThreadPool.cc:53-89 | with the queue full and no worker at take a blocked caller stays blocked in every further run |
| `ThreadPoolSpec.StopCanStrandACaller` | src/log/muduo-clog/muduo/base/ThreadPool.cc:53-89 | a run that ends so |
| `ThreadPool.ThreadPool.Start` | src/log/muduo-clog/muduo/base/ThreadPool.cc:34-51 | the pool runs with the new threads at the top of their loops |
| `ThreadPool.ThreadPool.Stop` | src/log/muduo-clog/muduo/base/ThreadPool.cc:53-63 | under the lock running is cleared and all waiting workers are woken |
| `ThreadPool.ThreadPool.Run` | src/log/muduo-clog/muduo/base/ThreadPool.cc:71-89 | with no threads the task runs at once; else it is queued with a notification, or the caller blocks while the queue is full |
| `ThreadPool.ThreadPool.RunAgain` | src/log/muduo-clog/muduo/base/ThreadPool.cc:80-88 | a woken caller tests again under the lock |
| `ThreadPool.ThreadPool.IsFull` | src/log/muduo-clog/muduo/base/ThreadPool.cc:134-138 | exactly if a positive limit is reached; the caller holds the mutex, as asserted |
| `ThreadPool.ThreadPool.Take` | src/log/muduo-clog/muduo/base/ThreadPool.cc:113-132 | a task, none once stopped, or the worker sleeps; a caller is notified only under a positive limit |
| `ThreadPool.ThreadPool.TakeAgain` | src/log/muduo-clog/muduo/base/ThreadPool.cc:117-131 | a woken worker tests again under the lock |
| `ThreadPool.ThreadPool.Test` | src/log/muduo-clog/muduo/base/ThreadPool.cc:148 | the loop test of running |
| `ThreadPool.ThreadPool.Begin` | src/log/muduo-clog/muduo/base/ThreadPool.cc:150-154 | a worker executes the task it took unless it is empty |
| `Shellsort.SortingKeepsOrder` | src/csort/Shellsort.c:24-36 | Knuth's theorem: sorting the chains of distance h of a k-ordered sequence leaves it k-ordered, for all h and k |
| `Shellsort.SwapKeepsChains` | src/csort/Shellsort.c:28-34 | an exchange within a chain changes no chain's contents |
| `Shellsort.Insert` | src/csort/Shellsort.c:26-36 | the inner loop orders one element more of its chain and keeps every chain's contents |
| `Shellsort.Pass` | src/csort/Shellsort.c:25-36 | a pass orders all chains of its distance and loses no order of any other distance |
| `Shellsort.Shellsort` | src/csort/Shellsort.c:19-37 | a permutation in non-increasing order, as the comparison says |
| `Insertsort.SortedSorts` | src/csort/Insertsort.c:19-32 | repeated insertion gives an ascending permutation |
| `Insertsort.SortedKeepsEquals` | src/csort/Insertsort.c:19-32 | the sort is stable: the elements of each key keep their order |
| `Insertsort.Insertsort` | src/csort/Insertsort.c:19-32 | the segment becomes its sorted form in place, the rest of the array stays |
| `Quicksort.Median3Bounds` | src/csort/Quicksort.c:13-29 | after median3 the left end is at most the pivot, in the code as in the intended version, and the right end is below the pivot if and only if the centre was the smallest and the right end the largest |
| `Quicksort.ScanUp` | src/csort/Quicksort.c:47 | the unguarded scan stops at or before right - 1, at the first element not below the pivot |
| `Quicksort.ScanDown` | src/csort/Quicksort.c:48 | the unguarded scan stops at or after left, at the first element not above the pivot |
| `Quicksort.PartitionParts` | src/csort/Quicksort.c:44-54 | on return nothing before i exceeds the pivot and nothing from i to right - 1 is below it; a permutation within the segment |
| `Quicksort.SplitParts` | src/csort/Quicksort.c:41-55 | the pivot is in its final place between the two sides |
| `Quicksort.QsortRearranges` | src/csort/Quicksort.c:34-62 | the recursion ends, permutes the segment and touches nothing else, in both versions |
| `Quicksort.QsortSortsUnlessHit` | src/csort/Quicksort.c:34-62 | the segment is ascending if and only if no call, this one or one below, is given centre < left < right, the case the exchange on line 18 gets wrong |
| `Quicksort.IntendedNeverHits` | src/csort/Quicksort.c:13-29 | with left exchanged with the centre no call is wrong |
| `Quicksort.QuicksortedSorts` | src/csort/Quicksort.c:64-67 | a permutation in both versions, ascending in the intended one always, in the code exactly if no call is given that case |
| `Quicksort.NotAlwaysAscending` | src/csort/Quicksort.c:13-67 | 5 1 2 9 becomes 1 2 9 5 as written and 1 2 5 9 as intended |
| `Quicksort.Median3InPlace` | src/csort/Quicksort.c:13-29 | the exchanges in the array are the function's, as written |
| `Quicksort.PartitionInPlace` | src/csort/Quicksort.c:44-54 | the loops in the array compute the partition without leaving the segment |
| `Quicksort.QsortInPlace` | src/csort/Quicksort.c:34-62 | the recursion in the array is the function's |
| `Quicksort.QuicksortInPlace` | src/csort/Quicksort.c:64-67 | the array becomes a permutation of itself, ascending exactly under the condition above |
| `Heapsort.SiftStep` | src/csort/Heapsort.c:28-36 | moving the larger child up keeps every node but the next one in order |
| `Heapsort.PercDownMax` | src/csort/Heapsort.c:22-38 | with heaps beneath pos, sifting with the held-out value restores the heap from pos on and only permutes the first len elements |
| `Heapsort.BuildHeap` | src/csort/Heapsort.c:82-84 | the whole array becomes a heap |
| `Heapsort.RootIsLargest` | src/csort/Heapsort.c:86-90 | the root of a heap is its largest element |
| `Heapsort.RootMovesToTheSuffix` | src/csort/Heapsort.c:87-91 | the sorted suffix grows by the root and dominates what is left |
| `Heapsort.PrefixStaysBelow` | src/csort/Heapsort.c:91 | sifting the prefix keeps it below the suffix |
| `Heapsort.Heapsort` | src/csort/Heapsort.c:78-95 | an ascending permutation, for length at least 1 |
| `Mergesort.MergedOfKey` | src/csort/Mergesort.c:27-31 | of equal keys the merge puts out those of the right part first |
| `Mergesort.MergedAscends` | src/csort/Mergesort.c:26-40 | merging ascending parts gives an ascending whole |
| `Mergesort.SortedReversesEquals` | src/csort/Mergesort.c:48-64 | an ascending permutation in which the elements of each key stand in exactly the reverse of their order before |
| `Mergesort.StableOnlyForPalindromes` | src/csort/Mergesort.c:73 | so the claimed stability holds if and only if every key's elements read the same in both directions |
| `Mergesort.Merge` | src/csort/Mergesort.c:20-46 | the two parts are replaced by their merge, nothing outside the segment changes |
| `Mergesort.Msort` | src/csort/Mergesort.c:48-64 | the segment is replaced by its sorted form, nothing outside it changes; both halves are shorter |
| `Mergesort.Mergesort` | src/csort/Mergesort.c:75-84 | the array is sorted, or left as it was when there is no memory |
| `CrawlerSpec.StepKeeps` | trash/python_learn/code/crawling.py:164-260 | each stretch of a worker between two yield points keeps the invariant |
| `CrawlerSpec.QueuedOnce` | trash/python_learn/code/crawling.py:212-225 | for distinct roots and every interleaving: each URL is queued at most once, and every URL taken out was seen |
| `CrawlerSpec.QueuedOnceNeedsDistinctRoots` | trash/python_learn/code/crawling.py:78-79 | each URL is queued at most once in every run if and only if the roots are distinct |
| `CrawlerSpec.DrainedIsRecorded` | trash/python_learn/code/crawling.py:262-271 | when the queue has drained there is exactly one record for each URL seen, and nobody is busy |
| `CrawlerSpec.DrainedIsClosure` | trash/python_learn/code/crawling.py:164-271 | then the URLs seen are the least set with the roots that is closed under allowed links and redirects, if and only if every redirect refused at the limit leads to a URL seen anyway |
| `CrawlerSpec.LimitIsKept` | trash/python_learn/code/crawling.py:212-219 | in every run, on every network: each URL seen is the end of a chain of at most max_redirect redirects from a root or an allowed link of a page seen, through URLs seen, and a redirect is refused only at the end of a chain of exactly that many |
| `CrawlerSpec.FailsExactly` | trash/python_learn/code/crawling.py:169-196 | a URL fails exactly if none of its first max_tries attempts is answered |
| `CrawlerSpec.LimitNeverHit` | trash/python_learn/code/crawling.py:212-219 | no redirect is ever refused if no chain of redirects through different URLs, from a root or an allowed link within reach, is longer than the limit; loops do not matter |
| `CrawlerSpec.LoopIsNoObstacle` | trash/python_learn/code/crawling.py:212-213 | a root that redirects to itself is crawled to its closure under every limit |
| `CrawlerSpec.ShortChainsGiveTheClosure` | trash/python_learn/code/crawling.py:164-271 | under that condition the result is the closure for every interleaving |
| `CrawlerSpec.SeenStaysInside` | trash/python_learn/code/crawling.py:198-225 | nothing is seen beyond what the roots lead to |
| `CrawlerSpec.CrawlEnds` | trash/python_learn/code/crawling.py:230-271 | with finitely many URLs to reach every interleaving ends after at most four steps for each, and not before the queue has drained |
| `CrawlerSpec.NewLinksAreNew` | trash/python_learn/code/crawling.py:145-149 | the links queued are exactly the page's allowed ones that were not seen, each once |
| `Crawler.Crawler.constructor` | trash/python_learn/code/crawling.py:60-79 | the roots are queued and seen |
| `Crawler.Crawler.AddUrl` | trash/python_learn/code/crawling.py:254-260 | the URL is seen and queued, without a look whether it was seen before |
| `Crawler.Crawler.Get` | trash/python_learn/code/crawling.py:234-235 | the first item goes to the worker; the assert holds |
| `Crawler.Crawler.Try` | trash/python_learn/code/crawling.py:169-196 | attempts are made up to the first that is answered and no more than max_tries; the URL is given up exactly if none was |
| `Crawler.Crawler.Respond` | trash/python_learn/code/crawling.py:167-219 | a failure is recorded, a redirect recorded and followed, refused or dropped, a page goes on to be read |
| `Crawler.Crawler.Parse` | trash/python_learn/code/crawling.py:221-225 | the page is recorded, and its new links are queued and seen |
| `Crawler.Crawler.Release` | trash/python_learn/code/crawling.py:226-237 | the response is released and the item done |
| `ConfFormat.DocumentMeansItsModes` | src/utils/config/iridium_conf_core.c:192-420 | a document of blocks with any blanks, further words, empty lines, comments and carriage returns within the line limits means exactly its modes, each with its first 64 pairs |
| `ConfFormat.DecorationDoesNotMatter` | src/utils/config/iridium_conf_core.c:192-420 | two documents with the same modes mean the same |
| `ConfFormat.PrintThenParse` | src/utils/config/iridium_conf_core.c:192-420 | printing a table of distinct modes with up to 64 pairs of legal tokens of at most 126 characters, with or without carriage returns (which take one of the 126), and parsing it gives exactly the table |
| `ConfFormat.LastModeCounts` | src/utils/config/iridium_conf_core.c:57-61 | of modes with one name the last is in the table, and all are counted |
| `ConfFormat.BodySays` | src/utils/config/iridium_conf_core.c:282-322 | the lines of a block add their pairs in order, up to 64 |
| `ConfFormat.PairLineSays` | src/utils/config/iridium_conf_core.c:397-420 | a decorated key-value line gives its two tokens |
| `ConfFormat.ValidPart` | src/utils/config/iridium_conf_core.c:344-366 | the valid length of a line is that of the text before its comment |
| `ConfFormat.CommentSays` | src/utils/config/iridium_conf_core.c:344-366 | a comment line has valid length 0 |
| `ConfFormat.GetStringExactly` | src/utils/config/iridium_conf_core.c:369-394 | for every string, cut into blanks, a word and the rest: the word is found, without a carriage return at its end, exactly if it has less than 127 characters |
| `ConfFormat.GetStringFinds` | src/utils/config/iridium_conf_core.c:369-394 | a legal word is found whatever stands behind the blank or carriage return that ends it |
| `ConfFormat.ValidLengthExactly` | src/utils/config/iridium_conf_core.c:344-366 | the first # before any NUL ends the valid part, which is empty if only blanks stand before it; without one the whole line is valid |
| `ConfFormat.PairOfParts` | src/utils/config/iridium_conf_core.c:397-420 | a line with an equals sign gives a pair exactly if it has less than 256 characters and both its words less than 127 |
| `ConfFormat.LongNameLosesTheMode` | src/utils/config/iridium_conf_core.c:297-307 | a block whose name has 127 characters or more makes no mode |
| `ConfFormat.UnclosedBlockIsLost` | src/utils/config/iridium_conf_core.c:192-256 | a block still open at the end of the file makes no mode |
| `ConfFormat.LineWithoutPair` | src/utils/config/iridium_conf_core.c:282-322 | a line without an equals sign or comment in a block, blanks or a lone carriage return for instance, unless 64 pairs were reached before it: an empty one is skipped, one of 1 to 1023 characters loses the whole mode, a longer one ends the block, which keeps the mode and drops the rest |
| `ConfFormat.MissingEndStopsTheParse` | src/utils/config/iridium_conf_core.c:227-232 | in a block a line that begins with - but not with -end stops the parse with result 0, and the modes before it stay |
| `ConfFormat.SwitchClosesAll` | src/utils/config/iridium_conf_core.c:199-225 | after any whole blocks a line that switches the configuration off closes everything |
| `ConfFormat.SwitchInABlockClosesAll` | src/utils/config/iridium_conf_core.c:199-225 | and so it does inside a block |
| `ConfFormat.SwitchOffExactly` | src/utils/config/iridium_conf_core.c:199-225 | for every line: it switches off exactly if within its first 125 characters behind the @ the name CONF_SWITCH stands before any NUL, and the first equals sign is followed by blanks and a 0 |
| `ConfFormat.SwitchValueDecides` | src/utils/config/iridium_conf_core.c:210-224 | after the name and an equals sign the first character that is no blank decides: 0 switches off, any other does not |
| `ConfFormat.SwitchNeedsBoth` | src/utils/config/iridium_conf_core.c:210-219 | a line without the name, or without an equals sign, switches nothing off |
| `ConfFormat.SwitchLineMeans` | src/utils/config/iridium_conf_core.c:192-256 | a file of whole blocks around such a line: closed for the value 0, else the modes before and behind the line |
| `ConfFormat.BlockOverrunsExactly` | src/utils/config/iridium_conf_core.c:291-307 | a block overruns the buffer of its mode line if and only if its first valid line, behind none of 1024 characters or more, has 256 valid characters or more |
| `ConfFormat.MeaningOverrunsExactly` | src/utils/config/iridium_conf_core.c:192-255 | a file overruns if and only if the parse comes to the -end of such a block |
| `ConfFormat.LongNameOverruns` | src/utils/config/iridium_conf_core.c:369-378 | a file that does: a mode name of 256 characters |
| `ConfParser.CheckCommentLine` | src/utils/config/iridium_conf_core.c:344-366 | computes the valid length |
| `ConfParser.GetStringOf` | src/utils/config/iridium_conf_core.c:369-394 | computes the token |
| `ConfParser.LineHandle` | src/utils/config/iridium_conf_core.c:397-420 | computes the pair, or fails |
| `ConfParser.HandleConfBlock` | src/utils/config/iridium_conf_core.c:273-329 | going through the block by position gives what its lines mean |
| `ConfParser.SwitchedOff` | src/utils/config/iridium_conf_core.c:199-225 | the line is read to its end, and switches off exactly by the characters of its first 125: the name before any NUL, and a 0 behind the first equals sign and blanks |
| `ConfParser.ParseBuffer` | src/utils/config/iridium_conf_core.c:189-256 | going through the buffer by position gives what its lines mean, for every text |
| `ConfParser.LookupFindsTheFirst` | src/utils/config/iridium_conf_core.c:110-120 | the value found is that of the first pair with the name; none exactly if there is no such pair |
| `ConfParser.GetValue` | src/utils/config/iridium_conf_core.c:110-120 | computes the lookup |
| `ConfParser.ConfManager.GetConfInfoFromFile` | src/utils/config/iridium_conf_core.c:149-263 | a second call is refused; otherwise the error codes, or the table and the count of the file's meaning, or no table when it is closed; a file that overruns is told apart exactly |

## Left out

- File, network, process and package code, and `Bubblesort`, `Bucketsort`, `Selectsort` and the other thin containers
  and locks: I/O, or easy members.
- Reading TZif files, `toLocalTime` and `fromLocalTime`, `LogStream` for floating point, `Fmt`, Timestamp and file name
  formatting: they rest on system or library calls that are not part of this model.
- Clocks are arbitrary inputs; the text of the logger's drop notice, whose time stamp depends on one, is a parameter.
- Failed writes and failed allocations other than those named in a row; a block's own allocation in the parser.
- The memory model: each unlocked read of `running_` is one atomic step.
- AsyncLogging.AsyncLogging.Wake: does not model how a wait ends; a signal, the timeout and a spurious wakeup are one step.
- LogFile.LogFile.AppendUnlocked: does not model the optional mutex around it nor what a flush makes durable.
- LogStream.Convert: the value is required to fit 64 bits, signed or unsigned, which the C++ types guarantee.
- TimeZone.ToUtcTime: outside the range in which the calendar functions stay in 32 bits the result is not described,
  because there the C++ code overflows.
- Date.JulianDayNumberRange: years so far off that the additions themselves overflow are not described.
- Monitor.MutexLock.Lock: does not model the time a thread spends blocked for the mutex; the step is taken once it is free.
- ThreadPool.ThreadPool.Start: starting the threads is one step, so a call of `run` during `start` is not described;
  thread names, the init callback and exceptions that end a worker are left out.
- ThreadPool.ThreadPool.Run: an empty task run without threads, which throws in C++, is only recorded.
- Heapsort.Heapsort: length 0 is left out, since the code then reads and writes an element of an empty array.
- Heapsort.PercDownMax: the overflow of 2i+1 beyond 2^30 elements is not modelled; `perceDownMin` mirrors it and is not used.
- Quicksort.Median3InPlace: the overflow of left + right beyond 2^30 elements is not modelled.
- Mergesort.Sorted: elements carry an identity beside their key, here and in the insertion sort and quicksort, so that the
  order of equal keys can be seen.
- CrawlerSpec.Leads: link extraction, URL joining and `url_allowed` are one function of the configuration, and the network
  is a fixed function from URL to failures and answer; byte counts and content types in the records are left out.
- ConfParser.ConfManager.GetConfInfoFromFile: for a file whose mode line overruns the buffer it is copied to, only the fact is
  reported and nothing else is promised. A file of 2 MB or more makes the scanner read one byte behind its buffer, which the
  model takes for the NUL that fills the rest.
- ConfFormat.GetString: for an empty token the code also looks at the byte before the destination, which has no effect
  within a pair and is not modelled.
- ConfFormat.Added: a second block of the same name replaces the pairs in the table; that the hash table keeps the key
  string of the first, which is freed, is not modelled.
