# Attendance, approvals, token refresh and rate limiting: a verified model

This project models the parts of an HR back office where several functions have
to agree about shared state, and proves what they keep.

* **Attendance engine.** Each employee and day has an append-only punch ledger and a
  summary row rebuilt from it (worked and break minutes, late, early, overtime,
  status). Device uploads, manual entries, overrides, approved corrections, batch
  generation, midnight finalisation and month locks all act on the same tables.
* **Approval workflow.** Polymorphic envelopes for leave, attendance corrections and
  login resets; balance deduction; delegation into the attendance engine; bulk decisions.
* **Token refresh.** The HTTP client's response interceptor as an interleaved protocol.
* **Fixed-window limiter.** INCR, EXPIRE and TTL of concurrent callers, and the timed bound.

## How it is laid out

| file | content |
|---|---|
| Common.dfy | option and outcome types, the time line (integer microseconds), truncating minutes |
| Metrics.dfy, DayMetrics.dfy | the punch walk and its meaning as sessions and gaps; ledger order; the summary row |
| Calendar.dfy, Locks.dfy | Gregorian months, the month cover, the lock table |
| AttendanceStore.dfy | the attendance tables as a value and each operation on them |
| AttendanceService.dfy | the service object, each method proved to make its operation or to restore the tables; finalisation, which restores nothing, proved to leave what it had done |
| AttendanceRuns.dfy, AttendanceLaws.dfy | theorems over whole runs of the attendance operations |
| SummaryLaws.dfy | what a summary row says: status, overtime, live minutes; manual days, added punches, overrides, generated rows |
| Payload.dfy, UploadLaws.dfy, UploadOrder.dfy, UploadText.dfy, UploadMeaning.dfy | the upload parser; replay, duplicates, batching, line order; what each code and text leaves behind |
| PinCascade.dfy | which employee a device PIN means |
| Corrections.dfy, CorrectionPath.dfy | the clock text of a correction and the corrected day; a correction from filing to the day |
| ApprovalDesk.dfy, ApprovalService.dfy | approval operations on a value, and the service object over the attendance service |
| ApprovalRuns.dfy, LeaveLedger.dfy, ApprovalLaws.dfy | theorems over whole runs of approvals mixed with attendance operations |
| SingleFlight.dfy | the refresh protocol and the client object |
| Limiter.dfy | interleavings, the timed window, the two-counter dependency |

Objects that the program updates in place are classes with the same fields; loops are
loops with invariants. A method's contract equates its new state with a function of the
old one, and the laws are proved about those functions. Shift resolution, time zones
(device text to instant and local date), holidays, leave and weekly-off lookups, payroll
settings and the clock are parameters; a failing lookup is one of their values.

## What the proofs found

* `_recompute_day_metrics` compares the expected end with the expected start without a
  null check (both columns are nullable), so a day with an end, no start and a valid punch
  cannot be recomputed. Uploads, punches and corrections that would make such a day are
  rolled back, and no run of them ever makes finalisation raise (`FinalizeNeverRaises`).
  `recompute_attendance` can make one, because it writes the new expected times and does not
  recompute: exactly when it puts a shift with an end only on a punched day
  (`RescheduleFitExactly`, a run in `HalfRescheduleBlocks`).
* Finalisation has no transaction. When it raises, the job that called it commits the days
  reached by then (backend/app/jobs/tasks.py:543-555, through the commit at 96)
  (`FinalizeRunExact`, a run that leaves one day absent and the other as it was in
  `RaisingRunLeavesPart`). A later run gives the same result from any such partial state as
  without the earlier run (`FinalizeAbsorbs`).
* Once a finalisation rewrote a day, whatever the day saw before, its stored minutes are those
  of its own punches and expected times (`FinalizationSettles`), and so are those of a day that
  no operation saw running (`MinutesStaySettled`). Only an override of minutes or a reschedule
  that writes new expected times can part the two; the latter exactly unless lateness, early
  leaving and overtime come out the same (`RescheduleSettledExactly`).
* One post of joined payloads and two posts, each at its own time, always agree on punches,
  days and totals. Their summaries agree except on a day that only the first post touched and
  that is still running at one of the two times, under an exact condition
  (`BatchesCompose`, `ReadingExact`); they do differ there (`SeparatePostsDiffer`).
* The order of an upload matters exactly when two of its new records are of one employee and
  one instant and either fall on one day with different types, or are one punch of two days
  (`OrderMattersExactly`). "Matters" there includes the order of simultaneous punches on the day
  line. Summaries depend only on what opens and what closes a session, and at that grain, for
  which the same theorem holds, an IN and a BREAK_IN of one instant do not clash, nor do an OUT
  and a BREAK_OUT. An IN and an OUT do: `TieOrderMatters` is an upload that shows it in the worked
  minutes. One punch of two days comes from two texts of which one names a local time that the
  clocks skipped; `DateOrderMatters` is the upload.
* More worked minutes never make the status of a past day worse. On the running day they do, exactly
  when they reach the half-day threshold but not the full-day one: a punched day counts as present
  below it (`MoreWorkNeverWorse`).
* Late, work, break and early minutes fit into the shift on every past day unless start
  and end fall in the same minute with the end on an earlier second (`TilingExact`).
* An unlocked month can never be locked again for the same scope (`RelockRefused`). A
  request with company scope that carries a branch id locks only that branch, and a period
  reaching December 9999 raises (`LockSucceedsExactly`).
* A branch lock does not stop finalisation, nor generation for all branches at once: both
  treat the days as if it did not exist (`FinalizeIgnoresBranchLocks`,
  `GenerationIgnoresBranchLocks`) and there are runs in which they change a locked day
  (`BranchLockedDayIsFinalized`, `BranchLockedDayIsGenerated`).
* Minutes set by an override last only until the next recompute of the day; its status stays
  (`OverriddenMinutesAreTransient`, `HandMadeStatusStays`).
* The corrected gap is the requested span in whole minutes exactly when that span is under
  a day and the out time's seconds are not below the in time's (`GapIsRequestedSpan`).
* An attendance decision commits before the notification is written. If that last part
  fails, the call fails and the correction stays (`FailureIsAtomicExactly`).
* The direct correction route does not look at the request type. Each request table numbers
  its rows on its own, so the envelope of a leave can name a correction; the route then decides
  the leave's envelope, while the leave stays pending and no balance moves
  (`CorrectionSoundExactly`, a run in `CorrectionRouteDecidesLeave`).
* The generic submission accepts a request that already has an envelope; both can be approved
  and both are charged (`SharedRequestChargedTwice`, a run in `TwiceChargedRun`), and
  cancelling one deletes the request under the other (`CancelTakesSharedSource`). Its only
  caller, backend/app/modules/leave/service.py:973, passes a leave it has just created, so this
  needs a second caller.
* A correction requested through the attendance module is not checked for a pending one of the
  same day, as the approval module's is. Accepting it keeps one pending correction per day exactly
  when that missing test would have passed (`RequestingKeepsOneExactly`), and a run keeps it
  throughout exactly when no such request was accepted for a day that had one
  (`OnePendingRequestEach`; the duplicate from empty tables in `AttendanceRouteDuplicates`).
* Backend errors after INCR lift the limit, whatever it is (`FailOpenExceedsAttempts`).
* The parser's docstring promises a comma-separated format; the code splits such a line at
  spaces and takes PIN and date together as the PIN (`CommaLineMisread`).
* A queued request is resent without `_retry`, so it can refresh again: among n requests one
  can be sent n + 1 times, for every n (`QueuedRequestMayRefreshAgain`, bound in `SingleFlight`).

What the theorems over runs do not see: `cancel_leave_request`
(backend/app/modules/leave/service.py:1040-1100) refunds a balance, clears the leave of day rows
and recomputes them without a lock check, and leaves the approval envelope as it is. It is not a
step of these runs, so lock safety, the leave ledger and the agreement of envelope and source
are claimed for runs without it. The status it then writes, `cancelled`, is one the CHECK on
leave requests does not allow (backend/app/modules/leave/models/leave.py:326-328).

## Model

| member | source | states |
|---|---|---|
| Sessions.Accumulate | backend/app/modules/attendance/service.py:1864-1884 | the in-place loop computes the one-punch-at-a-time walk |
| Sessions.NeverBothSet | backend/app/modules/attendance/service.py:1864-1884 | current_in and previous_out are never both set |
| Sessions.SessionsExact | backend/app/modules/attendance/service.py:1864-1884 | the session list holds every maximal opening block with its closing punch, and nothing else, in order |
| Sessions.GapsExact | backend/app/modules/attendance/service.py:1864-1884 | the gap list holds every closing punch directly followed by an opening one, and nothing else |
| Sessions.WalkIsSessionsAndGaps | backend/app/modules/attendance/service.py:1864-1884 | worked and break minutes are the whole minutes of those sessions and gaps |
| Sessions.WorkAndBreakWithinSpan | backend/app/modules/attendance/service.py:1864-1884 | worked plus break never exceeds the span from first to last punch |
| Sessions.WellPairedShortfall | backend/app/modules/attendance/service.py:1864-1884 | on a well-paired day what is missing is under a minute per session and gap |
| Ledger.SortedValidSorts | backend/app/modules/attendance/service.py:1853-1853 | the engine sees the valid punches, each as often as recorded, sorted by time and sequence number |
| Ledger.AppendPlaces | backend/app/modules/attendance/service.py:604-625 | a punch appended with the next number lands after every punch at or before it |
| DayRow.MetricsNonNegative | backend/app/modules/attendance/service.py:1886-2032 | worked, break, late, early and overtime satisfy the table's CHECK constraints, also during the day |
| DayRow.LateExact | backend/app/modules/attendance/service.py:1945-1962 | lateness is zero exactly within grace or the first minute, otherwise the whole minutes from the scheduled start and at least the grace |
| DayRow.EarlyExact | backend/app/modules/attendance/service.py:1964-1973 | leaving early is the whole minutes missing, without grace |
| DayRow.FirstLastExact | backend/app/modules/attendance/service.py:1928-1932 | on a past day the first-last mode splits the whole span into work and break and never counts less work than all-punches |
| DayRow.RecomputeAbsorbs | backend/app/modules/attendance/service.py:1850-2032 | an earlier recompute leaves no trace in a later one |
| DayRow.ReadingExact | backend/app/modules/attendance/service.py:1886-2018 | the exact condition under which the summary of a punched day reads the same at two times; always on a day past for both |
| DayRow.TilingExact | backend/app/modules/attendance/service.py:1919-1973 | late, work, break and early fit the shift with no overtime on every past day, exactly unless the shift is a same-minute overnight one |
| SummaryLaws.PunchedStatusExact | backend/app/modules/attendance/service.py:1975-2018 | on a plain day with a valid punch, the exact worked minutes, thresholds and date for present, half-day and absent |
| SummaryLaws.OtherStatusExact | backend/app/modules/attendance/service.py:1975-2008 | the status of every other day: by hand, leave, weekly off with and without a punch, kept holiday or leave, not-marked while running, absent after |
| SummaryLaws.MoreWorkNeverWorse | backend/app/modules/attendance/service.py:2002-2018 | more worked minutes never make a past day's status worse, and on the running day exactly when they move it from below half-day into half-day |
| SummaryLaws.LiveIsClosedNow | backend/app/modules/attendance/service.py:1886-1893 | the minutes of the running day are those of the day closed, or its break ended, at this moment |
| SummaryLaws.SinglePunchExact | backend/app/modules/attendance/service.py:1933-1935 | the single-punch mode credits the greater of a full day and the work, and a past plain day with a punch is present |
| SummaryLaws.OvertimeExact | backend/app/modules/attendance/service.py:1919-1943 | overtime is the work beyond the minutes from expected start to expected end around the clock, 480 if they share a minute or one is unset |
| Calendar.MonthsBetween | backend/app/modules/attendance/service.py:1639-1649 | the date loop terminates and yields the consecutive month indexes of the cover |
| Calendar.CoverExact | backend/app/modules/attendance/service.py:1639-1649 | the cover is, in order and without repeats, exactly the months with a day in the period |
| Calendar.MonthStartClosed | backend/app/modules/attendance/service.py:1639-1649 | the ordinal of the first of any month in closed form |
| Calendar.FourCenturies | backend/app/modules/attendance/service.py:1639-1649 | the calendar repeats after 146097 days, and January 2000 starts at ordinal 730120 |
| Calendar.DateInMonth | backend/app/modules/attendance/service.py:1639-1649 | the days of each month, leap years included, lie in that month |
| Locks.LockSucceedsExactly | backend/app/modules/attendance/service.py:1596-1676 | the exact condition under which a lock request goes through |
| Locks.LockExact | backend/app/modules/attendance/repository.py:624-648 | a successful request adds a locked row for every month of the period and changes no other row |
| Locks.LockCovers | backend/app/modules/attendance/repository.py:662-682 | afterwards a month reads as locked for a branch exactly if it did before or the request covers it |
| Locks.LockUnlockRestores | backend/app/modules/attendance/service.py:1699-1781 | lock then unlock of one range restores what every month and branch reads |
| Locks.UnlockExact | backend/app/modules/attendance/service.py:1699-1781 | when an unlock goes through, and exactly which rows it unlocks |
| Locks.RelockRefused | backend/app/modules/attendance/models.py:358-391 | an unlocked row still blocks a new lock for its month and scope |
| AttendanceService.Service.MeasureDay | backend/app/modules/attendance/service.py:1886-1935 | accrual and mode arithmetic give the specified totals |
| AttendanceService.Service.RecomputeDayMetrics | backend/app/modules/attendance/service.py:1850-2032 | rewrites one day to the pure function of its ledger, or leaves it alone and reports failure |
| AttendanceService.Service.CreateManualAttendance | backend/app/modules/attendance/service.py:240-339 | adds a day with an IN and an OUT and its derived summary, all or nothing |
| SummaryLaws.ManualDayExact | backend/app/modules/attendance/service.py:240-339 | exactly when a manual day is accepted; its IN is the in time, its OUT the out time, work the time between, none if they are reversed |
| AttendanceService.Service.AddManualPunch | backend/app/modules/attendance/service.py:547-637 | appends one punch with the next number and rebuilds the summary, all or nothing |
| SummaryLaws.AddedPunchExact | backend/app/modules/attendance/service.py:547-637 | exactly when a punch is accepted; it ends its day's ledger as given, and a missing day gets the planned times |
| AttendanceService.Service.CorrectDay | backend/app/modules/attendance/service.py:1358-1413 | invalidates every punch, appends the corrected pair and rebuilds the summary, all or nothing |
| AttendanceService.Service.FinalizeUnclosedDays | backend/app/modules/attendance/service.py:1545-1590 | rewrites the selected days one by one; raises exactly if one cannot be recomputed and then leaves the days reached before it |
| AttendanceService.Service.GenerateForRange | backend/app/modules/attendance/service.py:2102-2264 | adds the missing rows of the selected employees; the result is the growth of the table |
| AttendanceService.Service.LockAttendance | backend/app/modules/attendance/service.py:1596-1697 | all months or none |
| AttendanceService.Service.UnlockAttendance | backend/app/modules/attendance/service.py:1699-1781 | flips the locked rows of the range and keeps them |
| AttendanceService.Service.HandleAttlog | backend/app/modules/adms/service.py:300-606 | the record loop in the device's own time zone, a savepoint per record, and the counter update |
| AttendanceService.Service.HandleRecord | backend/app/modules/adms/service.py:326-540 | one record is skipped without effect or inserted with its day recomputed |
| AttendanceRuns.RunsKeepOk | backend/app/modules/attendance/service.py:1853-1862 | in every reachable state sequence numbers are 1..n and first and last punch are unset together or the extremes of the valid punches |
| AttendanceRuns.LockStays | backend/app/modules/attendance/repository.py:684-704 | only an unlock of that month and scope lifts a lock |
| AttendanceRuns.CompanyLockFreezes | backend/app/modules/attendance/service.py:107-127 | while a company lock stands no run changes, adds or removes a day or punch of the month |
| AttendanceRuns.BranchLockFreezes | backend/app/modules/attendance/service.py:107-127 | the same under a branch lock for all paths but finalisation and generation for all branches at once |
| AttendanceRuns.FinalizeIgnoresBranchLocks | backend/app/modules/attendance/service.py:1570-1576 | finalisation treats the days as if no branch lock existed |
| AttendanceRuns.GenerationIgnoresBranchLocks | backend/app/modules/attendance/service.py:2155-2170 | so does generation without a branch |
| AttendanceRuns.FinalizeExact | backend/app/modules/attendance/service.py:1545-1590 | succeeds exactly if every past day up to the target outside company-locked months can be recomputed; each of those rows becomes the pure function of ledger, schedule, leave flag and prior status; every other day is untouched |
| AttendanceRuns.FinalizeAbsorbs | backend/app/modules/attendance/service.py:1545-1590 | however far an earlier run got, finished or not, a later run to a date not before it gives the same result as without it |
| AttendanceRuns.FinalizeRunExact | backend/app/jobs/tasks.py:543-555 | what a run that raised leaves behind: every day as before or as finalised, today, locked months and punches as before |
| AttendanceRuns.FinalizeNeverRaises | backend/app/modules/attendance/service.py:1955-1973 | no run whose reschedules put no half shift on a day ever makes finalisation raise, at any time and up to any date |
| AttendanceRuns.RescheduleFitExactly | backend/app/modules/attendance/service.py:1806-1834 | a reschedule keeps every day computable exactly unless it puts a half shift on a day with a valid punch |
| AttendanceRuns.HalfRescheduleBlocks | backend/app/modules/attendance/service.py:1791-1848 | a run from empty tables after which finalisation raises |
| AttendanceRuns.GenerateExactlyOnce | backend/app/modules/attendance/service.py:2102-2264 | one row per covered unlocked date and active employee of the branch, department and ids asked for, and for no other; existing rows untouched; a second call adds nothing |
| SummaryLaws.GeneratedRowsExact | backend/app/modules/attendance/service.py:2202-2262 | a generated row is empty, has the planned times, and holiday before leave before week-off before not-marked |
| AttendanceRuns.GeneratedThenFinalized | backend/app/modules/attendance/service.py:1995-2008 | a punch-less generated day keeps holiday and leave, otherwise becomes absent, once a finalisation reaches it |
| BranchLockLimits.BranchLockedDayIsFinalized | backend/app/modules/attendance/service.py:1570-1576 | a run in which finalisation turns a branch-locked day into an absence |
| BranchLockLimits.BranchLockedDayIsGenerated | backend/app/modules/attendance/service.py:2155-2170 | a run in which generation adds a day to a locked branch |
| FinalizeLimits.RaisingRunLeavesPart | backend/app/jobs/tasks.py:543-555 | a run from empty tables in which a raising finalisation turns one day absent and leaves the other as it was |
| HandMade.MarkingExact | backend/app/modules/attendance/service.py:187-238 | exactly when a day can be marked; it then carries this status by hand and no other row changed |
| HandMade.HandMadeStatusStays | backend/app/modules/attendance/service.py:1975-1978 | a status set by hand stays through every run that does not override it again |
| SummaryLaws.OverrideExact | backend/app/modules/attendance/service.py:341-394 | exactly when an override is accepted, and which column each field lands in |
| HandMade.OverriddenMinutesAreTransient | backend/app/modules/attendance/service.py:341-394 | after an override the next recompute writes the minutes of the punches as if there had been none, and keeps the status |
| SettledMinutes.MinutesStaySettled | backend/app/modules/attendance/service.py:1850-2032 | a day not yet there, or whose minutes are those of its punches and expected times, stays so through every run that does not see it running, override its minutes or write its expected times |
| SettledMinutes.FinalizationSettles | backend/app/modules/attendance/service.py:1545-1590 | a day a finalisation rewrote shows the minutes of its punches, whatever came before, and keeps doing so through such runs, also when the finalisation raised elsewhere |
| SettledMinutes.RescheduleSettledExactly | backend/app/modules/attendance/service.py:1806-1834 | new expected times keep a settled day settled exactly when lateness, early leaving and overtime come out the same |
| Payload.ReadLine | backend/app/modules/adms/parser.py:42-93 | one raw line yields the records of its stripped text |
| Payload.ParseAttendancePayload | backend/app/modules/adms/parser.py:29-95 | the line loop yields the records of the payload |
| Payload.ParseConcatenation | backend/app/modules/adms/parser.py:39-95 | parsing is a homomorphism on concatenation at any line boundary |
| PayloadRoundTrip.TabLineRoundTrip | backend/app/modules/adms/parser.py:54-70 | a tab-separated line reads back to its fields, extra fields ignored |
| PayloadRoundTrip.SpaceLineRoundTrip | backend/app/modules/adms/parser.py:71-90 | so does a space-separated line, date and clock joined |
| PayloadRoundTrip.ShortLineDefaults | backend/app/modules/adms/parser.py:45-70 | missing trailing fields take the defaults |
| PayloadRoundTrip.CommaLineMisread | backend/app/modules/adms/parser.py:30-38 | the comma-separated form the documentation names is read as a wrong PIN and time |
| PayloadRoundTrip.FileRoundTrip | backend/app/modules/adms/parser.py:29-95 | a whole upload reads back to its records in order |
| UploadLaws.InsertableExact | backend/app/modules/adms/service.py:326-540 | a record inserts exactly if its text, PIN, lock and schedule allow it and the punch is new, whatever the clock |
| UploadMeaning.RecordExact | backend/app/modules/adms/service.py:326-606 | for each device code, when a readable record is taken, which punch it leaves on which day, and that only the total changes besides |
| UploadMeaning.CheckInCheckOut | backend/app/modules/adms/service.py:405-419 | a check-in and a check-out line of a past day, in either order and as text, give first, last and the minutes between |
| UploadMeaning.BreakIsTaken | backend/app/modules/adms/service.py:405-419 | codes 0, 2, 3, 1 give work on both sides of the break and the break between |
| UploadMeaning.TotalCountsPunches | backend/app/modules/adms/service.py:604-606 | every post raises its device's total by the number of punches it added |
| UploadLaws.ReplayIsIdempotent | backend/app/modules/adms/service.py:419-448 | posting any already posted records again changes no punch, day or total |
| UploadLaws.NoNewDuplicates | backend/app/modules/adms/service.py:419-448 | a punch already in the store or earlier in the payload is never added again |
| UploadLaws.BatchesCompose | backend/app/modules/adms/service.py:307-606 | two posts at two times leave the days, punches and totals of one joint post at any time; which rows agree, exactly |
| UploadLaws.SeparatePostsDiffer | backend/app/modules/attendance/service.py:1886-1893 | an IN of today posted at once shows fewer minutes than posted with the second batch |
| UploadOrder.OrderDoesNotMatter | backend/app/modules/adms/service.py:472-540 | if no two new records clash any order gives the same summaries, look of the day lines, punches and total, at either grain |
| UploadTies.OrderMattersExactly | backend/app/modules/adms/service.py:419-540 | all orders of a payload agree, at the grain of types or of what opens and closes, exactly when no two of its new records clash at it |
| UploadTies.TieOrderMatters | backend/app/modules/attendance/service.py:1853-1884 | an upload that counts no work or an hour depending on the order of its lines |
| UploadTies.DateOrderMatters | backend/app/modules/adms/service.py:343-448 | an upload of one punch under two local dates: it lands on the date of the record that comes first |
| UploadText.HandleCdataPost | backend/app/modules/adms/service.py:248-606 | registers an unknown device and, for an ATTLOG body, parses and records it in the device's time zone |
| UploadText.PayloadsCompose | backend/app/modules/adms/service.py:307-606 | one post of joined texts and two posts at two times, under the same exact condition |
| UploadText.ResentTextIsIgnored | backend/app/modules/adms/service.py:419-448 | sending the same text again changes nothing |
| UploadText.LinesInAnyOrder | backend/app/modules/adms/service.py:307-606 | permuting the lines of a body whose new records do not clash leaves the same summaries, punches and total, at either grain |
| PinCascade.ResolveEmployee | backend/app/modules/adms/service.py:120-246 | the answer is a first match of the earliest strategy that matches anyone |
| PinCascade.QueryExact | backend/app/modules/adms/service.py:149-235 | each ordered query returns a least match, or nothing exactly if nothing matches |
| PinCascade.AnswerIsUnique | backend/app/modules/adms/service.py:120-246 | the answer does not depend on the order of the employee table |
| PinCascade.CodeBeatsBiometricId | backend/app/modules/adms/service.py:149-182 | a PIN that is someone's code answers them, whoever has it as biometric id; without a code the bearer of the id |
| PinCascade.NumericAnswers | backend/app/modules/adms/service.py:184-235 | otherwise a numeric PIN answers by the digits of the code up to leading zeros, or by employee id; active employees first |
| PinCascade.PaddingIsIgnored | backend/app/modules/adms/service.py:184-235 | the numeric strategies cannot tell a PIN from its zero-padded form |
| ClockText.SpanRoundTrip | backend/app/modules/attendance/service.py:1258-1260 | the stored clock text parses back to the minutes it was printed from |
| ClockText.PrintsWhatItParsed | backend/app/modules/attendance/service.py:1369-1372 | a five-character clock that parses is the printed form of its minute |
| Corrections.CorrectedOrder | backend/app/modules/attendance/service.py:1374-1380 | the corrected OUT is not before the corrected IN; the gap is in [0, 1440) and is the minute difference modulo a day |
| Corrections.GapIsRequestedSpan | backend/app/modules/attendance/service.py:1258-1260 | the exact condition under which the gap is the requested span in whole minutes |
| Corrections.CorrectedMetrics | backend/app/modules/attendance/service.py:1358-1413 | on a past day exactly the two corrected punches are valid, work is the gap, break is zero; exact refusal condition |
| Corrections.CorrectionRoundTrip | backend/app/modules/attendance/service.py:1236-1413 | from requested times through the stored text to the worked minutes |
| CorrectionPath.FiledCorrectionIsApplied | backend/app/modules/attendance/service.py:1236-1425 | a correction filed through either module and approved after any run, by either route, leaves exactly the requested IN and OUT and their minutes on its day; a rejection, or an approval without the day, changes no day |
| CorrectionPath.RunKeepsRequests | backend/app/modules/approvals/service.py:745-818 | no run changes what a filed request or envelope asks for, or uses its id again |
| ApprovalService.Approvals.ApproveCorrection | backend/app/modules/attendance/service.py:1307-1425 | envelope, request and day change together or not at all |
| ApprovalService.Approvals.Rollback | backend/app/shared/base/service.py:36-55 | a failing block takes the session back to its last commit |
| ApprovalService.Approvals.DecideLeaveRequest | backend/app/modules/approvals/service.py:356-418 | what a leave decision writes when it succeeds; why it fails, and that the leave row is then already written and nothing else |
| ApprovalService.Approvals.JudgeRequest | backend/app/modules/approvals/service.py:341-452 | one decision between two clean sessions: an early leave update is taken back by a later failure, a committed correction is not |
| ApprovalService.Approvals.BulkApprove | backend/app/modules/approvals/service.py:575-611 | the loop equals the fold of single decisions although each failing item rolls back the whole session; one line per item |
| ApprovalService.Approvals.BulkReject | backend/app/modules/approvals/service.py:613-654 | the same for rejections; blank remarks refuse the batch |
| ApprovalRuns.CycleYearExact | backend/app/modules/approvals/service.py:128-135 | a cycle year is exactly the twelve months from its starting month |
| ApprovalRuns.CycleYearMonotone | backend/app/modules/approvals/service.py:128-135 | later dates never fall into an earlier cycle |
| ApprovalRuns.FailureIsAtomicExactly | backend/app/modules/approvals/service.py:341-452 | a failed decision changes nothing, exactly unless it is an attendance decision that failed after its commit |
| ApprovalRuns.DecisionTakesEffectExactly | backend/app/modules/approvals/service.py:322-418 | a decision changes anything exactly if the envelope is pending, its employee in scope and not the reviewer, the source row is there, a leave to approve is covered by its balance, a correction is outside locked months and, to approve it, readable and computable, and the call got through or had committed |
| ApprovalRuns.DecisionExact | backend/app/modules/approvals/service.py:312-573 | a decision writes its verdict on one envelope and its source row and no other status |
| ApprovalRuns.DecidedStays | backend/app/modules/approvals/service.py:329-330 | no run changes or removes an approved or rejected envelope |
| LeaveLedger.LeaveDecisionExact | backend/app/modules/approvals/service.py:356-418 | which balance an approval needs and moves, by how much, and that a rejection moves none |
| ApprovalRuns.StepKeepsSound | backend/app/modules/approvals/service.py:339-452 | every proper step keeps envelope and source status equal with one envelope per source |
| ApprovalRuns.RunsKeepSound | backend/app/modules/approvals/service.py:312-869 | so does every run, attendance delegation included |
| LeaveLedger.Conservation | backend/app/modules/approvals/service.py:377-405 | on every run used + closing is constant per employee, type and cycle year, used never shrinks, closing never turns negative |
| LeaveLedger.UsedIsApproved | backend/app/modules/approvals/service.py:377-405 | used grows by exactly the durations of the leave envelopes approved into the cycle |
| LeaveLedger.SharedRequestChargedTwice | backend/app/modules/approvals/service.py:698-743 | two envelopes of one leave can both be approved and both be charged |
| LeaveLedger.TwiceChargedRun | backend/app/modules/approvals/service.py:698-743 | a run from empty tables in which that happens |
| Agreement.SubmissionSoundExactly | backend/app/modules/approvals/service.py:714-731 | a generic submission keeps agreement exactly for a pending source without an envelope |
| Agreement.CorrectionSoundExactly | backend/app/modules/attendance/service.py:1315-1357 | the correction route keeps agreement exactly for attendance envelopes, or when it decides nothing |
| Agreement.CorrectionRouteDecidesLeave | backend/app/modules/attendance/service.py:1315-1357 | a run from empty tables in which the correction route decides a leave's envelope, the leave stays pending and no balance moves |
| Submissions.SubmissionAdds | backend/app/modules/approvals/service.py:698-869 | an accepted submission adds one pending envelope for its employee and, unless generic, its own new pending source row with what was asked, and touches nothing else |
| Submissions.SubmissionAcceptedExactly | backend/app/modules/approvals/service.py:698-869 | the exact condition under which each submission is accepted |
| Submissions.RejectionNeedsRemarks | backend/app/modules/approvals/service.py:454-480 | a rejection needs remarks that are not all whitespace |
| Submissions.CancelUndoesSubmission | backend/app/modules/approvals/service.py:658-696 | cancelling right after submitting restores every table |
| Submissions.CancelTakesSharedSource | backend/app/modules/approvals/service.py:658-696 | after a generic submission it deletes the source row it did not add |
| Submissions.OnePendingRequestEach | backend/app/modules/approvals/service.py:757-835 | a proper run has at most one pending correction per employee and day and one pending reset per employee throughout, exactly when the attendance route accepted no request for a day with a pending one |
| Submissions.RequestingKeepsOneExactly | backend/app/modules/attendance/service.py:1236-1305 | a request the attendance route accepts keeps that exactly when the day has no pending correction |
| Submissions.AttendanceRouteDuplicates | backend/app/modules/attendance/service.py:1236-1305 | a run from empty tables after which two corrections of one day are pending |
| BulkLaws.BulkIsFold | backend/app/modules/approvals/service.py:575-654 | a bulk approval or rejection ends where the single decisions, left to right, end |
| BulkLaws.OneLineEach | backend/app/modules/approvals/service.py:575-654 | one line per item in order, telling the outcome of that item's own decision |
| BulkLaws.RepeatIsRefused | backend/app/modules/approvals/service.py:575-654 | after an id succeeded, its repetitions are reported as already decided |
| ApprovalTrace.RunIsRun | backend/app/modules/attendance/service.py:1307-1425 | approvals move the attendance tables only as a run of attendance operations does |
| ApprovalTrace.ApprovalsKeepOk | backend/app/modules/attendance/service.py:1358-1413 | numbering and first and last punch stay right under approvals |
| ApprovalTrace.ApprovalsRespectLocks | backend/app/modules/attendance/service.py:1331-1336 | no approval changes a day of a company-locked month |
| ApprovalTrace.ApprovalsRespectBranchLocks | backend/app/modules/attendance/service.py:1331-1336 | nor one of a branch-locked month, on runs without the two paths that ignore branch locks |
| RefreshProtocol.SingleFlight | frontend/src/lib/axios-client.ts:50-118 | on every interleaving at most one refresh runs, exactly while the flag is up; a queue only behind it; at most n refreshes and n + 1 sends |
| RefreshProtocol.ReleasedInOrder | frontend/src/lib/axios-client.ts:53-62 | queued requests are settled once, in arrival order, with the outcome of the refresh they waited for |
| RefreshProtocol.ExemptNeverRefreshes | frontend/src/lib/axios-client.ts:70-94 | login and refresh calls are never queued, retried or sent twice and their 401 is final and leaves all else alone; any other first 401 starts or joins a refresh |
| RefreshProtocol.RefreshReleasesAll | frontend/src/lib/axios-client.ts:96-118 | when a refresh ends, the refresher and all who wait are sent again, or have failed, and nobody else changes |
| RefreshProtocol.SettledStays | frontend/src/lib/axios-client.ts:67-123 | a settled request never changes again and is not sent again |
| RefreshProtocol.MeasureDecreases | frontend/src/lib/axios-client.ts:70-118 | a measure falls at every event although a refresh resends the whole queue |
| RefreshProtocol.NeverStuck | frontend/src/lib/axios-client.ts:78-118 | while a request is unsettled some event can happen |
| RefreshProtocol.EveryRunSettles | frontend/src/lib/axios-client.ts:64-123 | runs are bounded and a finished run has settled every request |
| RefreshProtocol.QueuedRequestMayRefreshAgain | frontend/src/lib/axios-client.ts:78-92 | for every n the bound of n + 1 sends is attained by a queued request |
| AxiosClient.Client.HandleUnauthorized | frontend/src/lib/axios-client.ts:67-94 | the interceptor up to its await makes one protocol step |
| AxiosClient.Client.ProcessQueue | frontend/src/lib/axios-client.ts:53-62 | the drain loop releases the whole queue in order |
| AxiosClient.Client.HandleRefreshDone | frontend/src/lib/axios-client.ts:94-118 | the continuation makes one protocol step |
| LimiterInterleaving.RunInv | backend/app/core/cache/redis.py:113-128 | in every interleaving the key is absent, armed within a window or owed an EXPIRE, and counts of one lifetime never repeat |
| LimiterInterleaving.LifetimeBound | backend/app/core/dependencies/rate_limit.py:159-175 | a lifetime of the key admits at most the allowed number of callers |
| LimiterInterleaving.EveryCountOnce | backend/app/core/cache/redis.py:113-128 | in every interleaving each count up to the key's was answered to exactly one caller of its lifetime |
| LimiterInterleaving.CompletionArms | backend/app/core/cache/redis.py:119-128 | a completed call leaves the key absent or armed for at most one window, orphans included |
| LimiterInterleaving.UnarmedIsOwed | backend/app/core/cache/redis.py:119-128 | a key without expiry is owed one by its creator |
| LimiterInterleaving.FailOpenExceedsAttempts | backend/app/core/dependencies/rate_limit.py:122-128 | for every allowed number some run lets more callers through in one lifetime |
| FixedWindow.HitRefinesWindow | backend/app/core/cache/redis.py:113-128 | count and TTL are the position in, and the rest of, a reference window |
| FixedWindow.TimedBound | backend/app/core/dependencies/rate_limit.py:159-175 | any stretch no longer than the window admits at most twice the allowed number |
| FixedWindow.TimedBoundIsTight | backend/app/core/dependencies/rate_limit.py:159-175 | that bound is attained |
| FixedWindow.RetryAfterExact | backend/app/core/dependencies/rate_limit.py:159-175 | Retry-After is positive and a lone caller is admitted exactly if it waits that long |
| FixedWindow.ZeroWindowNeverRefuses | backend/app/core/config/settings.py:73-76 | why the settings demand a window of at least one second: with none nobody would be refused |
| RateLimit.BucketsDisjoint | backend/app/core/dependencies/rate_limit.py:93-95 | an IP and an account never share a counter within a scope |
| RateLimit.CounterKeyInjective | backend/app/core/dependencies/rate_limit.py:93-95 | different values of one bucket have different counters |
| RateLimit.Limiter.CounterIncr | backend/app/core/cache/redis.py:113-128 | a hit on one key, or as much of it as the backend answered, no other key touched |
| RateLimit.LostCallCounts | backend/app/core/dependencies/rate_limit.py:122-128 | a lost call costs one count or none, never a wrong one |
| RateLimit.NextCallRearms | backend/app/core/cache/redis.py:124-127 | a key it left without expiry is armed by the next full call |
| RateLimit.Limiter.EnforceCounter | backend/app/core/dependencies/rate_limit.py:122-175 | refusal by count; a call that loses the backend is let through and may have counted |
| RateLimit.Limiter.Enforce | backend/app/core/dependencies/rate_limit.py:199-215 | a refused IP never spends the account's budget; the two counters lose the backend independently |
| RateLimit.CountersAreWindows | backend/app/core/dependencies/rate_limit.py:199-215 | over any sequence of answered requests each counter of the object is the reference counter of the requests that hit it |
| RateLimit.RefusedExactly | backend/app/core/dependencies/rate_limit.py:159-215 | a request is refused exactly when the allowed number of calls had fallen into the window of its IP or, that being passed, of its account; the delay is the rest of that window |
| RateLimit.EnforceBound | backend/app/core/dependencies/rate_limit.py:159-215 | in a stretch no longer than the window at most twice the allowed number of requests of one IP or account is let through |
| RateLimit.EnforceBoundIsTight | backend/app/core/dependencies/rate_limit.py:159-215 | that bound is attained by the object's own answers |
| RateLimit.WaitingHelpsExactly | backend/app/core/dependencies/rate_limit.py:159-175 | a refused lone client is let through next exactly if it waited the delay |

## Left out

* Routers, schemas beyond their validators, query building, audit rows, notification content, e-mail, caches of dashboards: plumbing.
* Time zones and daylight saving: the maps from device text to instant and local date are given functions. Requested correction times are read off their own clocks.
* Penalties, reports, missing-punch analysis, list_attendance_days' automatic generation: they add no harder property.
* `cancel_correction`: it writes an envelope status that the table's CHECK does not allow.
* What the database library does with statements issued in a bulk item's savepoint after an inner block committed the session: whether the notification after an attendance decision is written is given with each item.
* The leave module: its checks when a leave is filed (a filed leave enters the model with its envelope), editing, and `cancel_leave_request`, whose effects on days, balances and envelopes are named above.
* Database failures other than refused rows, concurrent writers of the attendance and approval tables, column widths, the branch columns of requests.
* Device heartbeat fields and biometric auto-enrolment; `resolve` is a parameter of the upload model and PinCascade proves what the cascade answers.
* Unicode digits in clock texts and PINs, and integers wider than the database's; both modules read ASCII digits as unbounded numbers.
* TTL is in whole seconds; Redis' sub-second rounding is not modelled. Identifiers are hashed before they become keys; the hash is not part of this model.
* Fields no rule reads: shift id, marked-by, remarks, who decided and when, subtypes.
