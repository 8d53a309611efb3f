# Verified models of a small C library

A Dafny model of the parts of the library whose correctness is not visible from one function body:
thread synchronisation and the thread-handle registry (`src/pthread.rs`), calendar arithmetic and
`strftime` (`src/time.rs`), glob matching and expansion (`src/glob.rs`), the ABI snapshot format
(`src/bin/abi_check.rs`), the buffered directory reader (`src/dirent/mod.rs`) and the CPU range-list
parser (`src/system.rs`). `dafny verify dfyconfig.toml` checks everything.

## How the model is built

- Code that updates state in place is a class or a loop method (`PthreadMutex.MutexState`,
  `OutputBuffers.OutputBuffer`, `DirStreams.DirStream`, `GlobPattern.PatternMatchesFrom`, ...). Each is
  proved equal to, or against, a value-level specification, and the laws are proved about that
  specification.
- The pthread code is a transition system. Every thread has a program counter, every event is one
  critical section of one host lock, host condvars may wake a sleeper at any time, and the number of
  threads, mutexes and condition variables is unbounded. The value functions that the events use
  (`LockPass`, `TestPass`, `ReadPass`, `JoinLookup`, ...) are the ones the class methods are proved
  equal to. Safety is proved for every reachable state or every run.
- Errors are results (`Errno`, `Result`, `Option`), not preconditions. Null pointers of `strftime` are
  `None`/`null`; C strings are the text before their NUL; bytes are characters, of which only equality
  and order matter.
- Rust's integer division truncates: `Calendar.Quot`. `div_euclid` and `rem_euclid` are Dafny's `/` and `%`.
- The file system of `glob`, the kernel behind `getdents64`, the host's answers to forwarded pthread
  calls and the passing of deadlines are parameters that may take any value.

## What the proofs found

- How often an owner must unlock is settled over whole runs: `PthreadLevels.LocksLessUnlocks` for mutexes of every
  type, condition waits included, and `RwlockLevels.LocksLessUnlocks` for read and write levels. Together with
  `RwlockLevels.WriterTakesUnowned`, a writer gets in only when every read level has been given back.
- A broadcast, unlike a signal, is for everybody who waits when it is sent: as long as nobody else enters a wait,
  no interleaving lets one of them sleep again or time out (`PthreadBroadcast.BroadcastReleasesAll`).
- `%G`, `%g` and `%V` do not follow ISO 8601 in every year, although the documentation of `strftime`
  (`src/time.rs:1434`) says they do. `iso_week_context` computes `(yday + 10 - weekday) / 7` with a
  zero-based day of the year. The model keeps the code as it is. `IsoWeek.IsoWeekContextCorrectIff`
  proves that the result is right exactly in the years that do not start on a Thursday,
  `IsoWeek.IsoWeekContextExact` that otherwise it is the week before, and `IsoWeek.ThursdayYearExample`
  gives 1 January 2015.
- A signal is not reserved for the threads that were waiting when it was sent.
  `PthreadRuns.SignalTakenByLatecomer` is a run in which the only waiter at the signal is woken for it and
  goes back to sleep, because a thread that entered its wait later took the credit.
  `PthreadRuns.SleepDecidedAtEntry` gives the exact condition: a wait is answered with 0 at its first test,
  without sleeping, if and only if a credit is pending when it is entered, whatever happens until that
  test. The accounting that holds in every state is `PthreadSafety.CondAccounting`.
- `pthread_mutex_destroy` can succeed while an unlocking thread has released the mutex and not yet notified
  its condvar; `PthreadRuns.DestroyBeforeNotifyRun` is such a run. Among the threads the model places
  inside a call, these unlockers are exactly the ones a successful destroy misses
  (`PthreadSafety.DestroyMissesOnlyNotifiers`), so a successful destroy is quiet if and only if no thread is
  at that notification (`PthreadSafety.DestroyIsQuietIff`). A caller between reading the state pointer and
  taking its lock is not a place of its own in the model (see "Left out"); the code does not see it either.
- Two racing joins of one native thread can leave its handle both joinable and consumed.
  `RegistrySystem.RacingJoinsOverlap` is such a run, `RegistrySystem.StepKeepsDisjointIff` says which events
  do it, and `RegistrySystem.SequentialRunsKeepDisjoint` that runs whose calls do not overlap never do.
- A local thread that is detached or joined by its id before its creator has stored the join handle is
  cached as consumed, and its handle is then found by no join or detach. `RegistrySystem.DetachBeforePublishRun`
  is such a run; `RegistrySystem.LocalHandleFoundIff` says that a published handle is found if and only if its
  id is not cached as consumed, and `RegistryAnswers.FreshHandleIsFound` that this is so in every run in which no
  call names the id before.

## Model

| member | source | states |
|---|---|---|
| Calendar.DaysRoundTrip | src/time.rs:337-374 | every integer day number converts to a valid Gregorian date and back to itself |
| Calendar.CivilRoundTrip | src/time.rs:337-374 | every valid (year, month, day), negative years included, converts to a day number and back |
| Calendar.DaysFollowCalendar | src/time.rs:360-374 | the calendar's successor rule (month lengths, leap years) adds one to the day number |
| Calendar.DaysOrderDates | src/time.rs:360-374 | on valid dates, lexicographic order of dates is the order of day numbers, both directions |
| Calendar.DaysInjective | src/time.rs:360-374 | two valid dates with one day number are the same date |
| Calendar.EpochIsDayZero | src/time.rs:360-374 | 1970-01-01 is day 0 |
| BrokenDownTime.DayOfYearIsDistance | src/time.rs:324-335 | the month table gives the distance in days from 1 January |
| BrokenDownTime.GmtimeIsCanonical | src/time.rs:376-402 | conversion succeeds exactly when the year fits `int`; then all fields are in range, weekday and year day agree with the day number, and the clock fields are those of the second |
| BrokenDownTime.CanonicalRoundTrip | src/time.rs:376-422 | a canonical `tm` is what `gmtime_r` produces for its own seconds |
| BrokenDownTime.TimegmUndoesGmtime | src/time.rs:404-437 | `timegm` and `mktime` undo `gmtime_r` at every representable time |
| BrokenDownTime.StoreIsIdempotent | src/time.rs:1159-1248 | a second `timegm` or `mktime` changes neither the count nor the fields, whatever the first input was |
| BrokenDownTime.FieldsAreAdditive | src/time.rs:404-422 | arbitrary out-of-range seconds, minutes, hours and days add up as units of time |
| BrokenDownTime.TwelveMonthsAreAYear | src/time.rs:404-422 | any multiple of twelve months equals that many years |
| BrokenDownTime.DaylightIsOneHour | src/time.rs:424-437 | a positive daylight hint makes `mktime` read the fields one hour earlier, no other hint changes anything |
| BrokenDownTime.StoreFailsIff | src/time.rs:1159-1248 | `timegm` and `mktime` fail with `ERANGE` exactly when the year does not fit `int`; an epoch count that does not fit `long` never occurs alone |
| BrokenDownTime.TmCell.Gmtime | src/time.rs:992-1013 | in place: the converted fields, or `ERANGE` and an untouched result |
| BrokenDownTime.TmCell.Timegm | src/time.rs:1159-1186 | in place: epoch count and normalised fields, or -1, `ERANGE` and untouched fields |
| BrokenDownTime.TmCell.Mktime | src/time.rs:1221-1248 | the same with one hour off for a positive daylight-saving hint |
| IsoWeek.WeeksInYearExact | src/time.rs:739-747 | the week count of a year is the distance between the Mondays of two successive first ISO weeks |
| IsoWeek.IsoWeekUnique | src/time.rs:749-773 | ISO 8601:2004 section 4.1.4 gives a day at most one (year, week) |
| IsoWeek.IsoWeekAdvances | src/time.rs:739-773 | Monday to Sunday share a week no larger than the year's count, and the next Monday opens the next week or year |
| IsoWeek.IsoWeekContextExact | src/time.rs:749-773 | for every canonical `tm` the code names the ISO week of the day, or of the day a week earlier when the year starts on a Thursday |
| IsoWeek.IsoWeekContextCorrectIff | src/time.rs:749-773 | the code's week is the ISO week of the day if and only if 1 January is not a Thursday |
| IsoWeek.ThursdayYearExample | src/time.rs:749-773 | 1 January 2015 is in week 1 of 2015; the code says week 52 of 2014 |
| IsoWeek.WeekNumberCounts | src/time.rs:708-737 | `%U` and `%W` count the Sundays, respectively Mondays, of the year up to the day |
| DecimalText.DecimalReadsBack | src/time.rs:515-519 | the printed number reads back as itself, sign included |
| DecimalText.SignedPaddedReadsBack | src/time.rs:567-569 | zero padding to any width keeps the value, negative numbers included |
| OutputBuffers.OutputBuffer.PushByte | src/time.rs:198-211 | in place: the storage holds the first min(length, max-1) bytes pushed so far and nothing else changed |
| OutputBuffers.OutputBuffer.PushBytes | src/time.rs:213-217 | the same for a run of bytes |
| OutputBuffers.OutputBuffer.Finish | src/time.rs:219-240 | the NUL goes after what fits; the result is the full length exactly when text and NUL fit, else 0 |
| Strftime.AppendToken | src/time.rs:856-964 | one directive appends its text to the buffer, composite ones piece by piece |
| Strftime.FormatInto | src/time.rs:1484-1539 | the format loop, with `%E`/`%O` modifiers and a dangling `%`, appends the unbounded text of the format |
| Strftime.Strftime | src/time.rs:1466-1542 | the array holds the first min(length, max-1) bytes of the unbounded output and a NUL, nothing else is written, the result is the length iff it is less than max, and bad pointers give 0 and `EINVAL` |
| StrftimeLaws.FormatConcat | src/time.rs:1484-1539 | formatting is compositional at directive boundaries |
| StrftimeLaws.ExpansionsAgree | src/time.rs:856-964 | `%c %D %x %F %T %X %R %v %r` give, anywhere in any format, the same bytes as their written-out forms |
| StrftimeLaws.EpochReadsBack | src/time.rs:515-519 | `%s` after `gmtime_r` prints the epoch count itself |
| StrftimeLaws.TimestampReadsBack | src/time.rs:885-897 | `%F %T` of any canonical time reads back as its six fields, with 19 characters in years 0 to 9999 |
| StrftimeFields.YearsReadBack | src/time.rs:483-513 | in every year, `%Y` reads back as the year and `%C` and `%y` as its floored quotient and remainder by 100 |
| StrftimeFields.TwelveHourClockReadsBack | src/time.rs:622-679 | `%I` with `%p` or `%P` determines the hour |
| StrftimeFields.SpacePaddedFieldsReadBack | src/time.rs:598-649 | `%e`, `%k` and `%l` show the numbers of `%d`, `%H` and `%I` |
| StrftimeFields.NamesReadBack | src/time.rs:439-462 | weekday and month names determine the field, and short names are the first three letters of the long ones |
| StrftimeFields.OffsetReadsBack | src/time.rs:521-543 | `%z` is `?` exactly for offsets that are not whole minutes within a day, and otherwise determines the offset |
| StrftimeFields.DaysReadBack | src/time.rs:681-706 | `%j`, `%u` and `%w` of a canonical time are the day of the year and the weekday in both countings |
| StrftimeFields.PrintedIsoWeekIsCorrect | src/time.rs:775-807 | in years that do not start on a Thursday, the printed `%G` and `%V` are the ISO 8601 week of the day, and `%g` is the year's last two digits |
| StrftimeFields.PrintedWeekNumbersCount | src/time.rs:708-737 | the printed `%U` and `%W` count the Sundays and Mondays of the year up to the day |
| StrftimeDirectives.ModifiersExact | src/time.rs:825-854 | `%E` and `%O` are dropped before exactly the directives POSIX.1-2017 allows and those documented besides; with any other character the three are copied |
| StrftimeDirectives.LiteralDirectives | src/time.rs:846-964 | `%%`, `%n`, `%t`, `%Z`, a dangling `%`, and every character that is no documented directive, copied with its `%` |
| StrftimeDirectives.FieldsExact | src/time.rs:571-657 | `%S %M %H %d %m` at every field value: `?` exactly out of range, else two digits that denote the field |
| StrftimeDirectives.UnknownExact | src/time.rs:598-679 | `%I %l %k %p` are `?` exactly for an hour outside 0 to 23, `%e` for a day outside 1 to 31 |
| StrftimeDirectives.UnknownNames | src/time.rs:439-462 | weekday and month names are `?` exactly outside the week and the year |
| StrftimeDirectives.UnknownWeeks | src/time.rs:681-807 | `%j` is `?` exactly for a year day outside its year, `%U %W %G %g %V` also for a weekday outside the week, `%u %w` only for that |
| StrftimeDirectives.FieldWidths | src/time.rs:501-807 | fixed widths: two characters for `%y %U %W %g %V %I %l %k %e` in range, three for `%j`, two for `%C` in years 0 to 9999 |
| StrftimeLaws.FormatHasNoNul | src/time.rs:856-964 | no output contains a NUL |
| StrftimeLaws.StrftimeReadsBack | src/time.rs:183-241 | the C string the caller finds is the longest prefix of the output that fits, all of it iff the length is less than max, and cells from max on are untouched |
| GlobPattern.BracketMatch | src/glob.rs:398-474 | whether a bracket closes, and where, depends on the pattern and the escape flag alone; the candidate only decides membership in the denoted set |
| GlobPattern.MatchesIffSplits | src/glob.rs:476-581 | a name matches a token sequence exactly when it can be cut into one part per token: any text for a star, one accepted character for the others |
| GlobPattern.PatternMatchesFrom | src/glob.rs:476-581 | the backtracking matcher terminates and decides that relation from any position of pattern and name |
| GlobPattern.PatternMatches | src/glob.rs:583-585 | true exactly when the pattern's tokens can be split over the whole name |
| GlobPattern.StarRun | src/glob.rs:487-494 | a run of stars means one star |
| GlobLiteral.SegmentHasPatternMeta | src/glob.rs:86-111 | true exactly when some token of the segment is not a literal |
| GlobLiteral.UnescapeSegment | src/glob.rs:224-245 | the segment without its escaping backslashes |
| GlobLiteral.FastPathAgrees | src/glob.rs:86-245 | for a segment without metacharacters the matcher accepts a name exactly when it equals the unescaped segment, in both escape modes, unclosed brackets and final backslashes included |
| GlobLiteral.ShouldMatchHiddenName | src/glob.rs:200-222 | hidden names are considered exactly when the first token is a literal dot or a non-negated bracket holding one |
| GlobPath.ParseSegmentsWithSeparators | src/glob.rs:267-304 | leading separators, segments, separator counts and trailing separators join back to the input; segments are non-empty and slash-free |
| GlobPath.AssembleInjective | src/glob.rs:267-304 | such a split is unique: the parts are determined by the text |
| GlobPath.NormalizeEscapedSeparators | src/glob.rs:247-265 | the loop drops one backslash before every separator it escapes |
| GlobPath.NormalizeKeepsMeaning | src/glob.rs:247-265 | the normalised text, cut at every separator, has the escapes and separators of the original for any run of backslashes |
| GlobUnits.SegmentsDecode | src/glob.rs:267-304 | decoding segment by segment is decoding the whole text |
| GlobUnits.NormalizedPathMeaning | src/glob.rs:247-304 | the separators and decoded segments `glob` works with are the ones the caller wrote |
| GlobUnits.TokensFromUnits | src/glob.rs:398-581 | the tokens of a segment, brackets included, are a function of its decoded units |
| GlobUnits.SameUnitsSameMatches | src/glob.rs:476-585 | segments that decode alike match the same names |
| GlobNoEscape.TokensFromRawUnits | src/glob.rs:398-581 | under `GLOB_NOESCAPE` the tokens of a segment, brackets and ranges included, are those of its characters taken as unescaped units, by the reading of units that serves escapes |
| GlobNoEscape.ModesAgree | src/glob.rs:398-581 | a segment without a backslash means the same in both modes |
| GlobExpand.LevelExact | src/glob.rs:673-733 | after i segments the candidates are exactly the name vectors whose j-th name is a choice for segment j where the earlier names lead |
| GlobExpand.LevelDistinct | src/glob.rs:673-733 | directories that list every name once lead to every match once |
| GlobExpand.ExpansionExact | src/glob.rs:624-748 | a path is a result if and only if it comes from a complete match: each name matches its segment and is listed and visible (or exists), and a directory under a trailing separator |
| GlobDistinct.NoPathTwice | src/glob.rs:624-748 | the results hold no path twice when directories list non-empty, separator-free names once each |
| GlobMeaning.CandidatePath | src/glob.rs:652-719 | names lead to the path that starts at `/` (pattern with a leading separator) or `.` and has exactly one separator before each name |
| GlobMeaning.VisibleExact | src/glob.rs:200-222 | a matching name with a leading dot is considered exactly when the first token is no wildcard and no negated bracket |
| GlobMeaning.MatchesExact | src/glob.rs:624-748 | a path is a result if and only if the pattern names it: names that fit, read off listings and existence of such plain paths, shown with the pattern's own separators |
| GlobMeaning.UnblockedExact | src/glob.rs:595-722 | the traversal is stopped if and only if some plain path that fitting names lead to is to be listed, cannot be, and the callback (given the path shown, or `.`) or `GLOB_ERR` stops there |
| GlobCollect.ExpandSegment | src/glob.rs:673-727 | one segment: all choices of all candidates in order, or the error number of the first candidate whose directory stops the traversal |
| GlobCollect.ExpandParsed | src/glob.rs:673-748 | the call fails exactly when a reachable unreadable directory stops it, with the error of the first in traversal order, else it returns the complete matches in order |
| GlobCollect.StoppedFirstUnique | src/glob.rs:673-727 | the traversal order determines the reported error number |
| GlobCollect.NoErrorsUnblocked | src/glob.rs:595-622 | without unreadable directories nothing stops the traversal, whatever the callback and `GLOB_ERR` |
| GlobCollect.LeadingSeparatorsIncludeEscaped | src/glob.rs:306-333 | whether the leading run of separators holds an escaped one |
| GlobCollect.CollectMatches | src/glob.rs:624-748 | all of it from the pattern text, whose split exists and is unique: `/` or `//` for a pattern of separators alone, otherwise failure exactly when a directory that is to be listed stops the traversal, with the error of the first that does, and else the matches in order; for listings of proper names, both are also stated through plain paths: exactly the paths the pattern names |
| PthreadMutex.MutexState.Lock | src/pthread.rs:1043-1091 | one pass of the lock loop for every mutex type, trylock included |
| PthreadMutex.MutexState.Resume | src/pthread.rs:1071-1087 | a woken waiter is uncounted and runs the loop again |
| PthreadMutex.MutexState.Unlock | src/pthread.rs:1093-1116 | release or one level less, and whether a notification follows; which of them, and how many unlocks a mutex needs, is `PthreadLevels.UnlockExact` and `PthreadLevels.LocksLessUnlocks` |
| PthreadMutex.MutexState.AddCondWaiterReference | src/pthread.rs:1118-1132 | only the owner is counted as a condition waiter, and its depth is recorded |
| PthreadMutex.MutexState.RemoveCondWaiterReference | src/pthread.rs:1134-1138 | the reference is dropped and nothing else changes |
| PthreadMutex.MutexState.RestoreDepth | src/pthread.rs:1140-1163 | an error of the first relock is passed on; after its success the depth is restored level by level, each level succeeding |
| PthreadCond.CondState.Signal | src/pthread.rs:2173-2190 | one more credit, capped by the waiters |
| PthreadCond.CondState.Broadcast | src/pthread.rs:2226-2240 | a credit for every waiter; whom it reaches is `PthreadBroadcast.BroadcastExact` and `PthreadBroadcast.BroadcastReleasesAll` |
| PthreadCond.CondState.Test | src/pthread.rs:2022-2028 | sleep without a credit; otherwise take one; time out only without one |
| PthreadSafety.StepKeeps | src/pthread.rs:1043-1163 | every event of every call keeps the invariant of all mutexes, condition variables and threads |
| PthreadSafety.MutexSafety | src/pthread.rs:1043-1138 | in every reachable state: owner `None` iff depth 0, depth at most 1 unless recursive, both waiter counters exact, and a free mutex with a sleeper has a woken thread or an outstanding notification |
| PthreadSafety.MutexDestroyExact | src/pthread.rs:1652-1658 | destroy succeeds exactly when nobody owns the mutex, waits for it or is in a condition wait on it |
| PthreadSafety.DestroyOvertakesNotifier | src/pthread.rs:1111-1113 | wherever the owner can unlock with nobody else around, a destroy can come between its release and its notification |
| PthreadSafety.DestroyMissesOnlyNotifiers | src/pthread.rs:1652-1658 | when destroy succeeds, a thread is inside a call on the mutex if and only if it is an unlocker that has not notified yet |
| PthreadSafety.DestroyIsQuietIff | src/pthread.rs:1652-1658 | nobody owns the mutex or is inside a call on it if and only if destroy succeeds and no unlocker is at its notification |
| PthreadRuns.DestroyBeforeNotifyRun | src/pthread.rs:1111-1113 | a run of init, lock, unlock and destroy in which the destroy succeeds before the notification |
| PthreadSafety.OwnershipKept | src/pthread.rs:1043-1116 | a mutex changes owner only by its owner's own release |
| PthreadLevels.LockAnswers | src/pthread.rs:1043-1091 | a lock or trylock returns 0 exactly on a free mutex or its own recursive one, `EBUSY` and `EDEADLK` exactly in their cases, and sleeps exactly in the others |
| PthreadLevels.ResumedLockAnswers | src/pthread.rs:1071-1087 | a woken locker answers the same way |
| PthreadLevels.UnlockExact | src/pthread.rs:1093-1116 | in every reachable state an unlock succeeds exactly for the owner; at depth 1 it frees the mutex and is about to notify, otherwise the mutex is recursive, its owner keeps it one level lower, and nobody moves |
| PthreadLevels.StepBalanced | src/pthread.rs:1043-1163 | every event changes every thread's level of every mutex by that thread's own successful lock or unlock of it, and by nothing else |
| PthreadLevels.LocksLessUnlocks | src/pthread.rs:1043-1163 | in every run, a thread's successful locks less its successful unlocks of a mutex are its depth: outside its own condition wait it owns the mutex exactly when some are left, at exactly that depth; inside, they are what the wait will restore |
| PthreadSafety.WaitLeavesByReturn | src/pthread.rs:2012-2035 | a condition wait ends only by its last step, after the relock; the exit of a failed unlock is never taken |
| PthreadSafety.CondWaitRestoresDepth | src/pthread.rs:1987-2140 | every return of a wait past the ownership check leaves the caller owning the mutex at its depth on entry, for every type and every interleaving, with 0 or, if timed, `ETIMEDOUT` |
| PthreadSafety.RelockNeverFails | src/pthread.rs:1140-1163 | in no reachable state does the first relock of a wait report an error, and each further level succeeds at once with the next depth |
| PthreadSafety.CondAccounting | src/pthread.rs:1997-2240 | in every reachable state: credits at most waiters, waiters exact, credits granted equal pending plus being returned plus returned as 0, and each pending credit has a woken thread or a signaller of its own unless a broadcast is outstanding |
| PthreadSafety.TimeoutTakesNoCredit | src/pthread.rs:2109-2125 | a wait times out exactly when no credit is pending, and takes none |
| PthreadBroadcast.SignalExact | src/pthread.rs:2173-2197 | in every reachable state a signal adds one credit while there are fewer credits than waiting threads, moves no waiter, and notifies unless nobody waits |
| PthreadBroadcast.BroadcastExact | src/pthread.rs:2226-2247 | a broadcast leaves exactly one credit for each thread waiting, and notifies unless nobody waits |
| PthreadBroadcast.BroadcastReleasesAll | src/pthread.rs:2022-2240 | in every run from a broadcast in which nobody enters a wait, there stays a credit for each thread still waiting, and a thread stops waiting only by its own test, which answers 0 at once: none sleeps again, none times out |
| PthreadBroadcast.CondDestroyExact | src/pthread.rs:1917-1960 | destroy marks a condition variable destroyed exactly when no thread waits on it |
| PthreadRuns.FirstTestExact | src/pthread.rs:2022-2028 | a wait is answered with 0 at its first test, without sleeping, exactly when a credit is pending, and then takes one; it sleeps exactly when none is and its deadline has not passed |
| PthreadRuns.EntryFreezesCredits | src/pthread.rs:1997-2027 | from the entry of a wait to its first test no other event changes the credits |
| PthreadRuns.SleepDecidedAtEntry | src/pthread.rs:1997-2027 | along every run, the first test of a wait answers with 0, without sleeping, if and only if a credit was pending at its entry |
| PthreadRuns.SignalTakenByLatecomer | src/pthread.rs:2022-2028 | a run in which a signal sent to the only waiter is taken by a thread that enters later, and the waiter sleeps again |
| PthreadRwlock.RwlockState.Read | src/pthread.rs:1165-1227 | one pass of the read-lock loop, with its `EAGAIN` exits |
| PthreadRwlock.RwlockState.Write | src/pthread.rs:1229-1275 | one pass of the write-lock loop |
| PthreadRwlock.RwlockState.Unlock | src/pthread.rs:1277-1319 | one level or the ownership is given back, and whether a notification follows; how many unlocks each owner needs is `RwlockLevels.LocksLessUnlocks` |
| PthreadRwlock.RwlockState.MarkDestroyed | src/pthread.rs:1367-1387 | refused while the lock is owned or waited for |
| RwlockSafety.RwlockSafe | src/pthread.rs:1165-1319 | in every reachable state a writer excludes readers, the reader total is the sum of the depths, each at least 1, waiter counters are exact, and a destroyed lock has no owner and no waiter |
| RwlockSafety.RwlockNoLostWakeup | src/pthread.rs:1179-1318 | a sleeper the lock would let through now has a `notify_all` outstanding |
| RwlockSafety.WriterPreference | src/pthread.rs:1179-1203 | a thread becomes a reader only while no writer owns the lock or waits for it |
| RwlockLevels.ReadAnswers | src/pthread.rs:1165-1227 | what a read lock or tryrdlock answers in every reachable state, in terms of owners and waiting threads: a reader re-enters past waiting writers, and only a total at the counter's limit is `EAGAIN` |
| RwlockLevels.WriteAnswers | src/pthread.rs:1229-1275 | what a write lock or trywrlock answers: 0 exactly when nobody owns the lock |
| RwlockLevels.UnlockAnswers | src/pthread.rs:1277-1319 | an unlock succeeds exactly for an owner, `EINVAL` changes nothing, and it notifies exactly when it leaves the lock unowned |
| RwlockLevels.ReachableFits | src/pthread.rs:1183-1198 | the reader total never passes the width of its counter |
| RwlockLevels.RwStepBalanced | src/pthread.rs:1165-1319 | every event changes every thread's read depth and write ownership by that thread's own successful calls, and by nothing else |
| RwlockLevels.LocksLessUnlocks | src/pthread.rs:1165-1319 | in every run, a thread's read depth is its successful read locks less its successful read unlocks, and it is the writer exactly when its write locks outnumber its write unlocks, which is by one |
| RwlockLevels.WriterTakesUnowned | src/pthread.rs:1229-1258 | a write lock returns 0 only when every thread has given back every read and write level it took |
| RwlockSafety.DestroyedForGood | src/pthread.rs:1367-1387 | after destroy, in every continuation, no thread owns the lock again |
| RwlockSafety.RwlockDestroyExact | src/pthread.rs:1367-1387 | destroy succeeds exactly when nobody owns the lock or waits for it |
| PthreadRegistry.PushedOk | src/pthread.rs:263-309 | a bounded queue that takes a handle stays duplicate-free, equal to its set and within 1024; a new handle goes to the back and only a full queue loses one, its oldest |
| PthreadRegistry.WithoutOk | src/pthread.rs:280-323 | removing a handle from set and queue keeps them equal and duplicate-free |
| PthreadRegistry.RemoveFromQueue | src/pthread.rs:285-291 | finding the handle's position and removing it there is removing the handle |
| PthreadRegistry.InsertBounded | src/pthread.rs:267-277 | insertion and the eviction loop keep set and queue equal and within the limit, the new handle included |
| PthreadRegistry.RegistryObject.HandleLocalThreadExit | src/pthread.rs:255-261 | a detached thread is forgotten, a joinable or pending one is finished |
| PthreadRegistry.RegistryObject.MarkNativeDetached | src/pthread.rs:263-278 | the handle moves to the detached cache, out of the other two |
| PthreadRegistry.RegistryObject.MarkNativeConsumed | src/pthread.rs:294-309 | the handle moves to the consumed cache, out of the other two |
| PthreadRegistry.RegistryObject.HandleForwardedNativeJoinResult | src/pthread.rs:350-387 | what each answer of the host does to the handle |
| PthreadRegistry.RegistryObject.HandleForwardedNativeDetachResult | src/pthread.rs:325-348 | the same for detach |
| PthreadRegistry.RegistryObject.BeginJoin | src/pthread.rs:876-914 | the first critical section of a join: refused, local, native or unknown |
| PthreadRegistry.RegistryObject.BeginDetach | src/pthread.rs:785-826 | the first critical section of a detach |
| PthreadRegistry.RegistryObject.AllocateThreadId | src/pthread.rs:462-484 | the first id from the counter on that is not zero and not known to the registry |
| RegistrySystem.NativeCachesSafe | src/pthread.rs:254-387 | over all interleavings each queue is duplicate-free, equals its set and holds at most 1024 handles, and detached is disjoint from joinable and consumed |
| RegistrySystem.LocalHandlesSafe | src/pthread.rs:649-946 | over all interleavings each local thread is handed to a join or detach at most once, is detached only while it runs, and finished is contained in joinable plus pending |
| RegistrySystem.LocalHandleFoundIff | src/pthread.rs:785-914 | in every reachable registry a join or detach finds a local handle exactly when it is published and its id is not cached as consumed |
| RegistrySystem.DetachBeforePublishRun | src/pthread.rs:649-701 | a run in which a detach before publication leaves a handle that no join or detach finds |
| RegistrySystem.AtomicCallsKeepDisjoint | src/pthread.rs:780-946 | a whole join, detach or native create with nothing in between keeps joinable and consumed disjoint |
| RegistrySystem.RestoreOverlapExact | src/pthread.rs:343-384 | an answer of the host breaks that exactly when it restores a handle consumed in between |
| RegistrySystem.StepKeepsDisjointIff | src/pthread.rs:254-387 | of all events, exactly the restoring answers end the disjointness of joinable and consumed |
| RegistrySystem.RunsKeepDisjoint | src/pthread.rs:649-946 | every run without a restoring answer ends with joinable and consumed disjoint |
| RegistrySystem.SequentialRunsKeepDisjoint | src/pthread.rs:649-946 | so does every run whose calls do not overlap |
| RegistrySystem.RacingJoinsOverlap | src/pthread.rs:902-946 | a run of two racing joins that reaches the overlap |
| RegistryAnswers.JoinAnswerDecides | src/pthread.rs:350-387 | after the host's answer to a join the next call on the handle is refused with `ESRCH` (joined, or no such thread), refused with `EINVAL` (detached), or finds it joinable again, exactly by the answer |
| RegistryAnswers.DetachAnswerDecides | src/pthread.rs:325-348 | the same after the answer to a detach |
| RegistryAnswers.OtherAnswersDecide | src/pthread.rs:263-323 | an unknown handle is used up by the call that asked for it, and a created native handle is joinable whatever was cached |
| RegistryAnswers.LocalDetachDecides | src/pthread.rs:785-826 | a local thread found by a detach stays marked detached exactly if it still runs, and the next call is then refused with `EINVAL` |
| RegistryAnswers.DetachedIsRefused | src/pthread.rs:785-889 | while a detached local thread runs, every call on it is refused with `EINVAL`, even if the caches hold its id |
| RegistryAnswers.ReservedIsFresh | src/pthread.rs:462-484 | a reserved id is non-zero, was never handed out, and is in no set of the registry |
| RegistryAnswers.FreshHandleIsFound | src/pthread.rs:649-914 | in every run, a reserved thread whose id no call names in between is found by a join or detach as soon as its handle is published |
| RegistryAnswers.SettledStays | src/pthread.rs:263-323 | no call on another handle makes a used-up or detached handle joinable again; it stays cached until it is the oldest of a full cache |
| AbiText.TrimIsTrimmed | src/bin/abi_check.rs:560 | trimming leaves no white space at either end, and a trimmed text alone |
| AbiText.LinesOfJoin | src/bin/abi_check.rs:519-536 | lines written with line feeds are read back as they are |
| AbiText.LinesExact | src/bin/abi_check.rs:538-545 | the lines of any text are what stands between its line feeds, a carriage return before one belonging to the line end, and an empty rest being no line |
| AbiText.InsertKeepsAscending | src/bin/abi_check.rs:554-616 | inserting a new symbol keeps the set's iteration in order |
| AbiSnapshots.FormatSnapshot | src/bin/abi_check.rs:519-536 | the formatting loop writes header, class, machine and the symbols in order |
| AbiSnapshots.ParseSnapshot | src/bin/abi_check.rs:538-743 | the parsing loop, with the error of every rejected text |
| AbiSnapshots.AcceptedIsWellFormed | src/bin/abi_check.rs:538-756 | every accepted text yields a class without white space, a trimmed machine and a non-empty ordered set of valid symbols |
| AbiSnapshots.RoundTrip | src/bin/abi_check.rs:519-756 | parsing a formatted snapshot gives it back, for every well-formed snapshot |
| AbiSnapshots.FormatIsFixpoint | src/bin/abi_check.rs:519-756 | formatting what an accepted text means parses to the same snapshot |
| AbiGrammar.ValidSymbolExact | src/bin/abi_check.rs:745-756 | a symbol is valid exactly when it is a C identifier over the written-out alphabet |
| AbiGrammar.AcceptedIffShape | src/bin/abi_check.rs:538-743 | a text is accepted if and only if its lines are the title, blank lines with one class and one machine line in any order, `SYMBOLS:`, at least one symbol, all different and valid, and then only empty lines; the snapshot holds those values, the symbols in ascending order |
| DirRecords.LeRoundTrip | src/dirent/mod.rs:95-117 | little-endian fields of any width read back |
| DirRecords.ParseEncoded | src/dirent/mod.rs:186-203 | reading a record recovers all of its fields |
| DirRecords.NameReadsBack | src/dirent/mod.rs:119-202 | the C string in the name buffer is the record's name cut at the first NUL or at 255 bytes |
| DirRecords.NextReturnsFirst | src/dirent/mod.rs:164-209 | one call returns the first record still to come, however the kernel chunked it, or the end |
| DirRecords.RunReturnsRecords | src/dirent/mod.rs:140-209 | of any number of calls the k-th returns the k-th record, however the kernel chunks them, and after the last the end of the directory, never an error |
| DirRecords.EndAndErrors | src/dirent/mod.rs:140-209 | the end is reported exactly when nothing is buffered and the kernel gives 0 bytes; a kernel error is reported with its number and leaves entry and buffer alone |
| DirRecords.ErrorLosesNothing | src/dirent/mod.rs:140-209 | the calls after an error return every record still to come, then the end |
| DirRecords.MalformedChangesNothing | src/dirent/mod.rs:164-184 | with bytes buffered or just refilled, a call fails exactly on a record too short or longer than they are, with `EIO`, and leaves entry and unread bytes alone |
| DirRecords.MalformedStays | src/dirent/mod.rs:164-184 | every further call then returns the same `EIO` and changes nothing |
| DirStreams.DirStream.Refill | src/dirent/mod.rs:140-162 | in place: an answer replaces the buffered bytes, an error leaves cursor and buffer |
| DirStreams.DirStream.FillUserEntry | src/dirent/mod.rs:119-138 | in place: fields and a cleared, then filled name buffer |
| DirStreams.DirStream.NextEntry | src/dirent/mod.rs:164-209 | in place: cursor, buffer and entry do what the stream step says, cursor at most filled always |
| DirStreams.DirStream.Rewind | src/dirent/mod.rs:337-365 | success drops the buffered bytes, an error changes nothing |
| DirStreams.RewoundReturnsAll | src/dirent/mod.rs:337-365 | a rewound stream returns the whole directory again |
| CpuRanges.PiecesJoin | src/system.rs:322 | the pieces are the comma-free parts of the text |
| CpuRanges.ParseCpuRangeList | src/system.rs:318-361 | accepts exactly the lists of well-formed ranges, ascending and disjoint, whose CPUs can be counted in `usize` |
| CpuRanges.TotalCountsCpus | src/system.rs:349-352 | the running total of ascending ranges is the cardinality of the set of CPUs |
| CpuRanges.AcceptedCountsCpus | src/system.rs:310-361 | the result is the number of different CPUs that some piece of the text names |
| CpuRanges.RangeOfExact | src/system.rs:310-347 | a token is accepted for a range exactly when it is one index, for that CPU alone, or two indices around a hyphen in order, in decimal digits that fit `usize` |
| CpuRanges.WrittenListReadsBack | src/system.rs:318-361 | a written list of ranges is accepted exactly when it is ascending, disjoint and countable, and reads back as itself |

## Left out

- Saturating `usize` counters of mutexes and condition variables: unbounded naturals. The read-write lock's checked additions are kept.
- The process-wide lock around lazy initialisation of condition variables: it only serialises entries, signals and destroys, so the model allows more interleavings than the code.
- Reading a state pointer and the critical section behind it are one event, and so are the check and the release of memory in a destroy: a caller between its pointer read and its lock is not visible to the model.
- Freeing and reusing the memory of destroyed mutexes and condition variables: each initialisation has its own number.
- Clocks and deadlines: a timed wait may find its deadline passed at any test. `timeout_from_abstime` is not modelled.
- Liveness and fairness of the host scheduler; only the safety form of "no lost wakeup" is stated.
- Wrap-around of the 64-bit thread-id counter, the per-thread list of recent native creations, and all host symbol lookup; the host's answers are arbitrary codes.
- The self-join check of `pthread_join` and the transfer of a thread's return value: they do not touch the registry.
- `restore_joinable_on_error`, a parameter that every caller passes as true.
- Overflow of the length counter of the output buffer beyond 2^64 bytes.
- `gmtime`'s per-thread storage and null-pointer checks of the calendar functions.
- PthreadMutex.MutexState.RestoreDepth: the first relock can sleep, so its code is a parameter of the method; the relock itself is the `Relock` and `Resume` events of the transition system.
- PthreadRegistry.RegistryObject.AllocateThreadId: the counter is an unbounded parameter and second result instead of a 64-bit atomic; its wrap-around after 2^64 creations would reuse ids.
- GlobCollect.CollectMatches: the callback is a pure function of path and error number.
- `glob`'s sorting, `GLOB_NOCHECK` fallback, `GLOB_APPEND` and C vectors; reading a directory is one answer of the file system.
- `opendir`, `closedir` and the system calls themselves; the Rust `lines` and `trim` calls are written out for the snapshot format, UTF-8 decoding is not.
- AbiSnapshots.ParseSnapshot: error texts are constructors with the offending line where the message quotes it.
- `setlocale`, character classes, signal sets, sockets, number parsing and the other thin modules.
