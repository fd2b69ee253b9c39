# ShiftHub back end: a verified model of the scheduling core

ShiftHub is a multi-company workforce scheduling back end. An admin creates
weekly shift templates ("schedule periods"), each with demand rows: a weekday,
a time slot and the number of workers needed. Employees book those slots for a
given week and year, ask for time off, and propose shift swaps to coworkers.
Around this sit task boards with collaborators and checklist notes, a
notification inbox, sign-up, login, e-mail verification and password reset,
team invitations, and the request middlewares that normalise bodies and guard
routes.

This project models that core in Dafny and proves what each operation does:

- **Persistence.** The Prisma repositories are classes over `seq` fields.
  Their methods state the new table contents. Their lookups are functions
  with the source's filters: soft-deleted rows are hidden, and the sort order
  is kept.
- **Services.** A guard function lists each service's refusals in source
  order. The operation itself is a method whose `ensures` give the whole new
  state: only the named rows change, notifications are appended in order,
  and the reply is the re-read view. Further lemmas relate each operation to
  its partner: the invariant it keeps, the record it makes findable, or the
  link it spends.
- **Dates.** `formatDate` is modelled on the ECMAScript `Date` arithmetic it
  relies on, using the time-value algorithms of section 21.4.1 of ECMA-262
  (`Day`, `YearFromTime`, `MonthFromTime`, `MakeDay`, `MakeDate`). This
  covers `new Date(y, 0, 4)`, `getDay`, and `setDate`/`setHours`/`setMinutes`/`setSeconds`
  with out-of-range arguments. Times are local milliseconds, with no
  time-zone offset and no daylight saving.
- **Request middleware.** The casing rewrites are global regex replaces,
  modelled as left-to-right scans. They are proved equal to a per-character
  reference definition, and therefore idempotent.
- **Source defects.** Where the code evidently does not do what it means,
  both versions are modelled (see "## Findings"). The corrected version is
  the one the rest of the model uses.

Modules follow the source layout:

| module | source |
|---|---|
| `FormatDate` | `src/utils/formatDate.ts` |
| `Pagination` | `src/utils/request.ts` |
| `DaySort` | the `sortByDay` comparator used by `formatSchedule` |
| `Entities` | the Prisma records shared by the repositories |
| `ScheduleRepo` | `ScheduleRepository.ts` |
| `UserRepo` | `AuthRepository.ts` (with its `SecurityRepository`), `CompanyRepository.ts` |
| `EmployeeRepo` | `TimeOffRepository.ts`, `ShiftSwapRepository.ts`, `NotificationsRepository.ts` |
| `TaskRepo` | `TaskRepository.ts` (`TaskRepository`, `TaskListRepository`, `EmployeeTaskRepository`) |
| `ScheduleService`, `EmployeeService`, `NotificationService`, `AdminService`, `TaskService`, `AuthService`, `TeamService` | the service of the same name |
| `RequestMiddleware`, `UserAuthMiddleware`, `AdminAuthMiddleware`, `ApiResponseMiddleware` | `src/middlewares/` |
| `Js`, `JsDate`, `Seqs`, `Wrappers` | JavaScript and `Date` built-ins, sequence helpers, `Option`/`Result` |

Every id the database or `uuid` would generate is a parameter of the
operation, and it is required to be fresh. The clock is a parameter too:
`new Date()`, `moment().week()` and `moment().year()`. So are bcrypt's
`compare`/`hash` and jwt's `sign`/`verify`.

## Model

| member | source | states |
|---|---|---|
| FormatDate.WeekIndex | src/utils/formatDate.ts:95-103 | the `weeks` table gives every weekday an index below 7, SUNDAY exactly 0 and SATURDAY exactly 6 |
| FormatDate.WeekIndexOrder | src/utils/formatDate.ts:95-103 | the table is one to one and increases from SUNDAY to SATURDAY |
| FormatDate.OrSeven | src/utils/formatDate.ts:19 | `x \|\| 7` keeps a truthy weekday number and turns 0 (Sunday) or NaN into 7 |
| FormatDate.Jan4WeekDay | src/utils/formatDate.ts:17-19 | the weekday of 4 January is in 0..6 |
| FormatDate.FormatDate | src/utils/formatDate.ts:5-30 | the Date object built on 4 January and moved by `setDate`, `setHours`, `setMinutes` and `setSeconds` ends on the value of the projection, or the "Invalid date" error |
| FormatDate.ProjectionRejects | src/utils/formatDate.ts:11-15 | the call throws exactly when the token after the first space is neither "AM" nor "PM", and then with the "Invalid date" error |
| FormatDate.ProjectedHourMarker | src/utils/formatDate.ts:22-23 | "AM" keeps the parsed hour, "PM" adds 12, so "12:xx PM" asks for hour 24 |
| FormatDate.ProjectedDayIsWeekday | src/utils/formatDate.ts:18-20 | the day `week*7 - ((getDay of 4 January \|\| 7) - weeks[weekDay]) - 3` is the Monday of ISO week 1 plus `7*(week-1) + index - 1`, and falls on the requested weekday |
| FormatDate.Jan4Value | src/utils/formatDate.ts:17 | `new Date(year, 0, 4)` is midnight of 4 January of the calendar year, two-digit years mapped to 19xx |
| FormatDate.Jan4GetDay | src/utils/formatDate.ts:19 | `getDay()` of that midnight is the weekday of 4 January |
| FormatDate.DateStep | src/utils/formatDate.ts:17-20 | building 4 January and moving it with `setDate` lands on midnight of the projected day |
| FormatDate.TimeSteps | src/utils/formatDate.ts:22-27 | `setHours(h)`, `setMinutes(m)`, `setSeconds(m)` from midnight add `h` hours, `m` minutes and `m` seconds |
| FormatDate.ProjectionClosedForm | src/utils/formatDate.ts:5-30 | a valid result is day*MsPerDay + hour + parsed minute as minutes and again as seconds; a NaN year, week, hour or minute gives an Invalid Date |
| FormatDate.TwelvePmIsNextDay | src/utils/formatDate.ts:22-27 | a valid "12:xx PM" result falls on the day after the projected day |
| FormatDate.MinutesEqualSeconds | src/utils/formatDate.ts:25-27 | with a parsed minute in 0..59, the result's minute field and second field both equal it |
| FormatDate.MinuteAndSecondFields | src/utils/formatDate.ts:25-27 | the minute and second fields of day + h hours + m minutes + m seconds are both `m` |
| FormatDate.HourStringDifferenceSymmetric | src/utils/formatDate.ts:40-54 | `getHourStringDifference` does not depend on the order of its arguments (the absolute value) |
| FormatDate.HourStringDifferenceBound | src/utils/formatDate.ts:48-53 | with parsed non-negative hours and minutes and seconds below 60, the result is a whole number in 0..11, hours being taken modulo 12 |
| FormatDate.DayDifference | src/utils/formatDate.ts:56-69 | `days` is the floor of the elapsed days (also when negative) and `hour` the whole hours in 0..23 left after removing them |
| FormatDate.DayDifferenceUnique | src/utils/formatDate.ts:61-68 | exactly one pair of whole days and hours 0..23 meets those bounds, so they determine the result |
| FormatDate.DateGuard | src/utils/formatDate.ts:71-93 | the guard passes exactly when the booking is possible; a current year above the year or a current week above the week (even in a later year) fails as past, a bad marker with the "Invalid date" error, a projected instant before now as past |
| FormatDate.CalculateIfValid | src/utils/formatDate.ts:71-93 | the method's result is that guard's outcome, with no other effect |
| Pagination.CeilDiv | src/utils/request.ts:47 | `Math.ceil(a / b)` is the least integer whose multiple of `b` reaches `a` (for either sign of `b`) |
| Pagination.LastPage | src/utils/request.ts:47 | `lastpage` is the ceiling of `total / limit`; a zero limit gives Infinity, -Infinity or NaN by the sign of `total` |
| Pagination.Paginate | src/utils/request.ts:40-58 | `data`, `count` and `currentpage` are passed through; `nextpage` is null exactly when `page + 1 > lastpage` (false against NaN), else `page + 1`; `prevpage` is null exactly when `page - 1 < 1`, else `page - 1` |
| Pagination.NextPageIffMore | src/utils/request.ts:47-48 | with a positive limit there is a next page exactly when `page * limit < total` |
| Pagination.LimitOf | src/modules/admin/services/AdminService.ts:126 | `limit ? limit : 10`: a given non-zero limit is kept, otherwise 10 |
| Pagination.PageOf | src/modules/admin/services/AdminService.ts:127 | `page ? page : 1`: a given non-zero page is kept, otherwise 1 |
| Pagination.SkipFollowsEarlierPages | src/modules/admin/services/AdminService.ts:126-128 | the rows skipped, `(page - 1) * limit` after the defaults, are exactly the rows of pages 1 to page - 1, so the requested page begins right after them and pages 1 to page are the first `page * limit` rows |
| Pagination.EarlierPagesPrefix | src/modules/admin/services/AdminService.ts:126-128 | the windows of pages 1 to n, laid end to end, are the first `n * limit` rows |
| Pagination.WindowSplit | src/modules/schedule/repository/ScheduleRepository.ts:81-82 | taking `a` rows and then `b` more after them takes the first `a + b` rows |
| Pagination.Window | src/modules/admin/services/AdminService.ts:129-135 | Prisma's `take`/`skip`: at most `take` rows, the rows from position `skip` on in order, empty past the end |
| Pagination.WindowsConsecutive | src/modules/admin/services/AdminService.ts:126-135 | the windows of two consecutive pages join into one window of twice the limit: no gap and no overlap |
| DaySort.Insert | src/modules/schedule/services/ScheduleService.ts:296-300 | one insertion step adds exactly one row |
| DaySort.SortByDay | src/modules/schedule/services/ScheduleService.ts:296-300 | the weekday sort keeps the number of rows |
| DaySort.InsertElements | src/modules/schedule/services/ScheduleService.ts:296-300 | the inserted sequence holds only the new row and the old rows |
| DaySort.SortedSnoc | src/modules/schedule/services/ScheduleService.ts:296-300 | appending a row no earlier in the week than all others keeps the order |
| DaySort.InsertSorted | src/modules/schedule/services/ScheduleService.ts:296-300 | inserting into a weekday-ordered sequence keeps it ordered |
| DaySort.InsertMultiset | src/modules/schedule/services/ScheduleService.ts:296-300 | insertion adds exactly the new row to the multiset |
| DaySort.InsertOnDay | src/modules/schedule/services/ScheduleService.ts:296-300 | insertion appends the row to those of its own weekday and leaves every other weekday's rows as they were |
| DaySort.SortByDaySorted | src/modules/schedule/services/ScheduleService.ts:296-300 | the sorted rows run from SUNDAY to SATURDAY by `week` index |
| DaySort.SortByDayPermutes | src/modules/schedule/services/ScheduleService.ts:296-300 | the sort is a permutation: no row is dropped or added |
| DaySort.SortByDayStable | src/modules/schedule/services/ScheduleService.ts:296-300 | the rows of a weekday keep their original relative order (Array.prototype.sort is stable) |
| DaySort.SortByDayStableAll | src/modules/schedule/services/ScheduleService.ts:296-300 | stability holds for every weekday at once |
| ScheduleRepo.ApplyPeriodPatch | src/modules/schedule/repository/ScheduleRepository.ts:129-138 | an update writes `published` and `deletedAt` only when given and keeps every other column |
| ScheduleRepo.PatchPeriods | src/modules/schedule/repository/ScheduleRepository.ts:129-138 | `update({ where: { id } })` patches the row with that id and keeps every other row and the row count |
| ScheduleRepo.PatchBookings | src/modules/schedule/repository/ScheduleRepository.ts:272-282 | the booking with that id gets the new `deletedAt`; every other booking is kept |
| ScheduleRepo.DemandsOfPeriod | src/modules/schedule/repository/ScheduleRepository.ts:45-59 | the demands included with a period are exactly the stored demands of that period |
| ScheduleRepo.FirstPublished | src/modules/schedule/repository/ScheduleRepository.ts:111-128 | `findFirst` finds a period exactly when the company has a live published one, and then returns such a stored period |
| ScheduleRepo.UpcomingMissesEarlyWeeksOfLaterYears | src/modules/schedule/repository/ScheduleRepository.ts:154-156 | the `week >= w` and `year >= y` filters are independent: a live booking of a later year is upcoming exactly when its week number is at least `w` |
| ScheduleRepo.ScheduleRepository.CreateSchedulePeriod | src/modules/schedule/repository/ScheduleRepository.ts:21-28 | appends the period, or fails on a used id leaving the store unchanged; the other tables stay as they were |
| ScheduleRepo.ScheduleRepository.CreateSchedulePeriodDemand | src/modules/schedule/repository/ScheduleRepository.ts:29-36 | appends the demand, or fails on a used id leaving the store unchanged |
| ScheduleRepo.ScheduleRepository.CreateUserSchedule | src/modules/schedule/repository/ScheduleRepository.ts:37-44 | appends the booking, or fails on a used id leaving the store unchanged |
| ScheduleRepo.ScheduleRepository.UpdateSchedulePeriod | src/modules/schedule/repository/ScheduleRepository.ts:129-138 | fails with "record not found" on a missing id; otherwise only the given fields of that row change |
| ScheduleRepo.ScheduleRepository.UpdateUserSchedulePeriod | src/modules/schedule/repository/ScheduleRepository.ts:272-282 | fails on a missing id; otherwise only `deletedAt` of that booking changes |
| ScheduleRepo.ScheduleRepository.DemandsOf | src/modules/schedule/repository/ScheduleRepository.ts:45-59 | the demands of a period, every one of them and no other |
| ScheduleRepo.ScheduleRepository.BookingsOfPeriod | src/modules/schedule/repository/ScheduleRepository.ts:45-59 | the bookings of a period, every one of them and no other |
| ScheduleRepo.ScheduleRepository.Full | src/modules/schedule/repository/ScheduleRepository.ts:45-59 | a period with its demands and bookings included |
| ScheduleRepo.ScheduleRepository.FindSchedulePeriodById | src/modules/schedule/repository/ScheduleRepository.ts:45-59 | found exactly when a live period has that id; the result is that period with its relations |
| ScheduleRepo.ScheduleRepository.CompanyPeriods | src/modules/schedule/repository/ScheduleRepository.ts:60-110 | the company's live periods, restricted to the published ones when asked |
| ScheduleRepo.ScheduleRepository.FullAll | src/modules/schedule/repository/ScheduleRepository.ts:60-110 | each listed period with its relations, in order |
| ScheduleRepo.ScheduleRepository.GetAllCompanySchedule | src/modules/schedule/repository/ScheduleRepository.ts:60-85 | one `take`/`skip` page of the company's live, published periods, in stored order: row `i` is period `skip + i`, and the page holds `take` rows or every row after `skip`, whichever is fewer |
| ScheduleRepo.ScheduleRepository.GetAllAdminCompanySchedule | src/modules/schedule/repository/ScheduleRepository.ts:86-110 | one page of the company's live periods, published or not: row `i` is period `skip + i`, and the page holds `take` rows or every row after `skip`, whichever is fewer |
| ScheduleRepo.ScheduleRepository.PublishedListing | src/modules/schedule/repository/ScheduleRepository.ts:60-110 | the employee listing holds exactly the published periods of the admin listing |
| ScheduleRepo.ScheduleRepository.GetCompanyPublishedSchedule | src/modules/schedule/repository/ScheduleRepository.ts:111-128 | a live published period of the company, or nothing exactly when there is none |
| ScheduleRepo.ScheduleRepository.BookingsOfDemand | src/modules/schedule/repository/ScheduleRepository.ts:168-181 | every booking of a demand, soft-deleted or not, for every week |
| ScheduleRepo.ScheduleRepository.FindSchedulePeriodDemandById | src/modules/schedule/repository/ScheduleRepository.ts:168-181 | found exactly when a live demand has that id; it comes with all its bookings, soft-deleted ones and other weeks included, and its period |
| ScheduleRepo.ScheduleRepository.FindUsersBySchedulePeriodDemandId | src/modules/schedule/repository/ScheduleRepository.ts:195-210 | exactly the live bookings of the demand |
| ScheduleRepo.ScheduleRepository.LiveBookingsOfDemand | src/modules/schedule/repository/ScheduleRepository.ts:168-210 | the live bookings of a demand are its full booking list without the soft-deleted rows |
| ScheduleRepo.ScheduleRepository.FindUserSchedulePeriodById | src/modules/schedule/repository/ScheduleRepository.ts:182-194 | found exactly when a live booking has that id |
| ScheduleRepo.ScheduleRepository.FindBookingById | src/modules/schedule/repository/ScheduleRepository.ts:182-194 | the booking with that id whatever its deletion state, found exactly when the id is stored |
| ScheduleRepo.ScheduleRepository.FindAllUserSchedule | src/modules/schedule/repository/ScheduleRepository.ts:211-223 | exactly the live bookings of the user |
| ScheduleRepo.ScheduleRepository.CountAllSchedules | src/modules/schedule/repository/ScheduleRepository.ts:224-231 | the number of the company's live bookings, at most the table size |
| ScheduleRepo.ScheduleRepository.FindUserScheduleInScheduleDemand | src/modules/schedule/repository/ScheduleRepository.ts:257-271 | found exactly when the user has a live booking on the demand, and then returns one |
| ScheduleRepo.ScheduleRepository.UpcomingCompanyShifts | src/modules/schedule/repository/ScheduleRepository.ts:139-167 | the company's live bookings passing the week and year filters |
| ScheduleRepo.ScheduleRepository.GetAllUpcomingCompanyShifts | src/modules/schedule/repository/ScheduleRepository.ts:139-167 | one page of those bookings, in order: row `i` is booking `skip + i`, and the page holds `take` rows or every row after `skip`, whichever is fewer |
| ScheduleRepo.ScheduleRepository.UpcomingUserShifts | src/modules/schedule/repository/ScheduleRepository.ts:232-256 | the user's live bookings passing the week and year filters |
| ScheduleRepo.ScheduleRepository.FindUpcomingUserSchedule | src/modules/schedule/repository/ScheduleRepository.ts:232-256 | one page of those bookings, in order: row `i` is booking `skip + i`, and the page holds `take` rows or every row after `skip`, whichever is fewer |
| ScheduleService.Credentials | src/modules/schedule/services/ScheduleService.ts:39-44 | the acting user is looked up first (its own "user not found" error), then a missing company fails with "Invalid credentials"; success yields that live user |
| ScheduleService.SlotsOf | src/modules/schedule/services/ScheduleService.ts:63-64 | one (day, slot) entry per slot of a day of the request, in order |
| ScheduleService.EntriesAppend | src/modules/schedule/services/ScheduleService.ts:63-78 | the entries of two runs of days are the entries of each, one after the other |
| ScheduleService.EntriesSplit | src/modules/schedule/services/ScheduleService.ts:63-78 | the entries up to day `i+1` are those up to day `i` and then day `i`'s slots |
| ScheduleService.DemandRow | src/modules/schedule/services/ScheduleService.ts:65-76 | the slot row belongs to the new period, is live, and copies the day, `userCount` as `workerQuantity`, `time` as `timeFrame`, and the start and end times |
| ScheduleService.DemandRows | src/modules/schedule/services/ScheduleService.ts:63-78 | one slot row per entry |
| ScheduleService.DemandRowsAt | src/modules/schedule/services/ScheduleService.ts:63-78 | the `t`-th row is the row of the `t`-th entry with the `t`-th id |
| ScheduleService.DemandRowsOfPeriod | src/modules/schedule/services/ScheduleService.ts:63-78 | every row made for the request belongs to the new period and is live |
| ScheduleService.NewPeriod | src/modules/schedule/services/ScheduleService.ts:46-61 | the period stored has the request's title and repeat flag, belongs to the acting user and to the user's own company, and is unpublished and live |
| ScheduleService.DemandRowsAppend | src/modules/schedule/services/ScheduleService.ts:63-78 | the rows of two runs of entries are the rows of each, one after the other |
| ScheduleService.FreshAfter | src/modules/schedule/services/ScheduleService.ts:63-78 | storing rows with the next ids keeps the remaining ids unused |
| ScheduleService.CreateDaySlots | src/modules/schedule/services/ScheduleService.ts:64-77 | the inner loop appends exactly one slot row per slot of the day, in order, and changes no other table |
| ScheduleService.RowsConcat | src/modules/schedule/services/ScheduleService.ts:63-78 | the rows of the first `i+1` days are those of the first `i` days followed by those of day `i` |
| ScheduleService.RowsStep | src/modules/schedule/services/ScheduleService.ts:63-78 | storing day `i`'s rows extends the rows-so-far invariant of the outer loop to day `i+1` |
| ScheduleService.SliceFresh | src/modules/schedule/services/ScheduleService.ts:63-78 | the ids of one day are distinct and unused when all remaining ids are |
| ScheduleService.CreateDayAt | src/modules/schedule/services/ScheduleService.ts:63-78 | one pass of the outer loop keeps the invariant and advances it by one day |
| ScheduleService.CreateSlots | src/modules/schedule/services/ScheduleService.ts:63-78 | the outer loop appends one slot row per (day, slot) entry of the whole request, in request order |
| ScheduleService.CreateSchedule | src/modules/schedule/services/ScheduleService.ts:34-86 | bad credentials fail with nothing stored; otherwise exactly one new period and one slot row per entry are stored, bookings untouched, and the reply is the first page of the admin listing `getAllAdminSchedules` after the writes |
| ScheduleService.CreatedSlotsReadBack | src/modules/schedule/services/ScheduleService.ts:63-78 | read back, the new period's slots are exactly the rows made from the request |
| ScheduleService.FilterKeepsAll | src/modules/schedule/services/ScheduleService.ts:63-78 | filtering rows that all belong to the period keeps them all |
| ScheduleService.FilterDropsAll | src/modules/schedule/services/ScheduleService.ts:63-78 | filtering rows of other periods keeps none |
| ScheduleService.Short | src/modules/schedule/services/ScheduleService.ts:312-319 | `shortSchedule` copies id, name as title, repeat flag and published flag |
| ScheduleService.Shorts | src/modules/schedule/services/ScheduleService.ts:113 | the listing maps `shortSchedule` over the page, in order |
| ScheduleService.PageOfOwnLengthIsLast | src/modules/schedule/services/ScheduleService.ts:111-117 | with the page's own length passed as the total there is never a next page |
| ScheduleService.EmployeeSchedules | src/modules/schedule/services/ScheduleService.ts:88-119 | bad credentials fail; otherwise one page, of at most `limit` templates, of the company's published live templates, with no next page |
| ScheduleService.AdminSchedules | src/modules/schedule/services/ScheduleService.ts:121-152 | bad credentials fail; otherwise one page of the company's live templates, published or not |
| ScheduleService.Cleared | src/modules/schedule/services/ScheduleService.ts:176-185 | unpublishing the company's published template keeps ids and companies and publishes nothing new |
| ScheduleService.ClearedHasNonePublished | src/modules/schedule/services/ScheduleService.ts:176-185 | after that first update the acting company has no published template |
| ScheduleService.PublishCheck | src/modules/schedule/services/ScheduleService.ts:160-174 | passes exactly when the credentials hold, the template is found, belongs to the company and its flag differs from the request; a missing or foreign template is "Schedule not found", an equal flag "Status is same" |
| ScheduleService.PublishCheckAsWritten | src/modules/schedule/services/ScheduleService.ts:167-174 | as written the template is looked up by id alone: any found template with a different flag passes |
| ScheduleService.PublishKeepsSinglePublished | src/modules/schedule/services/ScheduleService.ts:176-189 | publishing or unpublishing the company's own template keeps every company at one published template at most |
| ScheduleService.PublishKeepsEverySinglePublished | src/modules/schedule/services/ScheduleService.ts:176-189 | the same for all companies at once |
| ScheduleService.PublishAsWrittenBreaksSinglePublished | src/modules/schedule/services/ScheduleService.ts:167-189 | an admin of company "y" can publish company "x"'s template next to the one "x" already publishes |
| ScheduleService.ApplyPublish | src/modules/schedule/services/ScheduleService.ts:176-189 | the two updates: the company's published template is cleared when publishing, then the target gets the flag; other tables untouched |
| ScheduleService.PublishSchedule | src/modules/schedule/services/ScheduleService.ts:154-192 | the outcome is the guard's; on failure nothing changes; on success only the flags change, at most one template per company stays published, and the reply is the first page of `getAllAdminSchedules` after the writes |
| ScheduleService.PublishTargetOwned | src/modules/schedule/services/ScheduleService.ts:167-174 | with unique ids, every row carrying the target's id belongs to the acting company |
| ScheduleService.DeleteCheck | src/modules/schedule/services/ScheduleService.ts:199-209 | passes exactly when the credentials hold and the template is found in the acting company; otherwise "Schedule not found" |
| ScheduleService.DeleteSchedule | src/modules/schedule/services/ScheduleService.ts:194-216 | on failure nothing changes; on success only `deletedAt` of that template is set to now, and the reply is the first page of `getAllAdminSchedules` after the write |
| ScheduleService.DeletedScheduleIsGone | src/modules/schedule/services/ScheduleService.ts:211-213 | after deletion the template is no longer live and every other template is as it was |
| ScheduleService.ClampQuery | src/modules/schedule/services/ScheduleService.ts:246-249 | a year before the creation year is replaced, with the week, by the creation week and year; otherwise the query is kept |
| ScheduleService.ClampQueryProperties | src/modules/schedule/services/ScheduleService.ts:246-249 | a numeric clamped year is never before the creation year, clamping is idempotent, and a NaN year is left alone |
| ScheduleService.Workers | src/modules/schedule/services/ScheduleService.ts:269-276 | one entry per booking, in order, each the booking id with the avatar, full name and email of the user row the booking joins; a booking with no user row fails the whole view with the TypeError of reading a null relation |
| ScheduleService.PushWorkers | src/modules/schedule/services/ScheduleService.ts:269-276 | the `for` loop pushing those entries gives exactly the entries above, failing at the first booking with no user row |
| ScheduleService.WeekBookings | src/modules/schedule/services/ScheduleService.ts:261-268 | exactly the live bookings of the slot whose week and year loosely equal the query's |
| ScheduleService.InWeek | src/modules/schedule/services/ScheduleService.ts:263-268 | the filter keeps exactly the rows whose week and year loosely equal the query's |
| ScheduleService.DemandStatusShowsWeek | src/modules/schedule/services/ScheduleService.ts:259-291 | a slot fails exactly when one of its bookings of the week has no user row; otherwise its fields are copied, its workers are the entries of those bookings (id, avatar, full name, email), `availableWorkers` counts them, and the status is "Available" exactly when that count is below `workerQuantity`, else "Booked" |
| ScheduleService.DemandStatus | src/modules/schedule/services/ScheduleService.ts:259-291 | a failing slot fails with the TypeError of reading a null relation |
| ScheduleService.DemandStatuses | src/modules/schedule/services/ScheduleService.ts:259-294 | the rows fail exactly when some slot fails, with that TypeError; otherwise one row per slot, in slot order, each that slot's row |
| ScheduleService.SlotRows | src/modules/schedule/services/ScheduleService.ts:259-294 | one row result per slot, in slot order, each that slot's row |
| Seqs.Collect | src/modules/schedule/services/ScheduleService.ts:259-294 | a loop that throws at its first failing step yields every value in order when no step fails, and otherwise the error of the first failing step |
| Seqs.CollectSnoc | src/modules/schedule/services/ScheduleService.ts:259-294 | one more step extends the collected values or fails with its own error |
| ScheduleService.StatusesExtend | src/modules/schedule/services/ScheduleService.ts:259-294 | one more slot either extends the rows of the slots before it by its own row, or makes the whole view fail |
| ScheduleService.StatusRow | src/modules/schedule/services/ScheduleService.ts:260-291 | the loop body computes exactly that slot's row |
| ScheduleService.ScheduleView | src/modules/schedule/services/ScheduleService.ts:253-309 | the view fails exactly when the rows fail; otherwise it copies the template's id, name and flags, and holds the status rows sorted by weekday |
| ScheduleService.FormatSchedule | src/modules/schedule/services/ScheduleService.ts:253-309 | the loop's result is the view: a failing slot fails it, and otherwise the rows are ordered SUNDAY..SATURDAY and are a permutation of the status rows |
| ScheduleService.GetSchedule | src/modules/schedule/services/ScheduleService.ts:237-251 | a missing template fails with "Schedule not found"; otherwise its view at the clamped week and year |
| ScheduleService.GetScheduleDetails | src/modules/schedule/services/ScheduleService.ts:218-235 | the credentials are checked first and their error is the reply; then a missing template is "Schedule not found"; otherwise the reply is exactly `getSchedule`'s view of that template at the clamped week and year, sorted by weekday |
| Entities.Patch | src/modules/user/repository/AuthRepository.ts:237-248 | a given optional field is written, an absent one keeps the stored value |
| Entities.ApplyUserPatch | src/modules/user/repository/AuthRepository.ts:237-248 | `updateUser`'s `...body` writes exactly the given columns; identity, email, type, company, names and avatar are kept, and the empty patch changes nothing |
| Entities.SchemaToUser | src/modules/admin/services/AdminService.ts:315-329 | the user view copies id, names, email, type and flags, and reports `isAdmin` as the user's `isActive` flag |
| UserRepo.PatchLiveByEmail | src/modules/user/repository/AuthRepository.ts:237-248 | the live user with that email is patched; every other row is kept |
| UserRepo.LiveWithEmail | src/modules/user/repository/AuthRepository.ts:237-248 | the row `where: { email, deletedAt: null }` selects: found exactly when a live user has that email |
| UserRepo.LiveWithEmailAfterPatch | src/modules/user/repository/AuthRepository.ts:237-248 | after a patch that leaves `deletedAt` alone, the email finds the patched user |
| UserRepo.SoftDeleteById | src/modules/user/repository/AuthRepository.ts:250-261 | the user with that id gets `deletedAt` now; every other row is kept |
| UserRepo.AuthRepository.CreateUser | src/modules/user/repository/AuthRepository.ts:10-15 | appends the user, or fails on a taken id or a taken email leaving the table unchanged |
| UserRepo.AuthRepository.FindUserByEmail | src/modules/user/repository/AuthRepository.ts:16-26 | found exactly when some user, deleted or not, has that email |
| UserRepo.AuthRepository.LiveByEmail | src/modules/user/repository/AuthRepository.ts:237-248 | found exactly when a live user has that email |
| UserRepo.AuthRepository.FindUserByIdInCompany | src/modules/user/repository/AuthRepository.ts:180-192 | found exactly when a live user has that id in that company; otherwise "User not found" |
| UserRepo.AuthRepository.FindUserByIdOrThrow | src/modules/user/repository/AuthRepository.ts:193-208 | found exactly when a live user has that id; otherwise "User not found" |
| UserRepo.AuthRepository.FindUserById | src/modules/user/repository/AuthRepository.ts:193-208 | the user a relation joins by id, found exactly when the id is stored |
| UserRepo.AuthRepository.FindUserByVerificationCode | src/modules/user/repository/AuthRepository.ts:209-222 | found exactly when a live user with that id holds that code |
| UserRepo.AuthRepository.FindUserByPasswordToken | src/modules/user/repository/AuthRepository.ts:223-236 | found exactly when a user with that id holds that token, deleted or not |
| UserRepo.AuthRepository.FindInactiveUsers | src/modules/user/repository/AuthRepository.ts:27-48 | exactly the company's live users that are neither active nor verified |
| UserRepo.AuthRepository.UpdateUser | src/modules/user/repository/AuthRepository.ts:237-248 | fails with "record not found" when no live user has the email; otherwise patches that user and returns the patched row |
| UserRepo.AuthRepository.DeleteUser | src/modules/user/repository/AuthRepository.ts:250-261 | fails on an unknown id; otherwise only that row's `deletedAt` changes |
| UserRepo.EmailIdentifies | src/modules/user/repository/AuthRepository.ts:16-26 | with unique emails, two users with one email are one user |
| UserRepo.IdIdentifies | src/modules/user/repository/AuthRepository.ts:193-208 | with unique ids, two users with one id are one user |
| UserRepo.ApplyQuestionsPatch | src/modules/user/repository/AuthRepository.ts:280-295 | only the given question and answer columns change |
| UserRepo.SecurityRepository.CreateSecurityFields | src/modules/user/repository/AuthRepository.ts:262-269 | stores an empty question record for the user, or fails on a used id |
| UserRepo.SecurityRepository.FindUserQuestions | src/modules/user/repository/AuthRepository.ts:270-279 | found exactly when the user has a question record |
| UserRepo.SecurityRepository.UpdateQuestion | src/modules/user/repository/AuthRepository.ts:280-295 | fails on an unknown id; otherwise only that record is patched |
| UserRepo.ApplyCompanyPatch | src/modules/user/repository/CompanyRepository.ts:51-67 | only the given name, address and schedule start day change |
| UserRepo.CompanyRepository.CreateCompany | src/modules/user/repository/CompanyRepository.ts:11-18 | appends the company, or fails on a used id |
| UserRepo.CompanyRepository.FindCompanyById | src/modules/user/repository/CompanyRepository.ts:19-26 | found exactly when the id is stored |
| UserRepo.CompanyRepository.UpdateCompany | src/modules/user/repository/CompanyRepository.ts:51-67 | a key that is not a column fails the whole update before anything is written; an unknown id fails; otherwise only that company is patched |
| EmployeeRepo.ApplyTimeOffPatch | src/modules/employee/repository/TimeOffRepository.ts:96-106 | only the given type, reason, time frame, dates and status change |
| EmployeeRepo.TimeOffRepository.CreateTimeOffRequest | src/modules/employee/repository/TimeOffRepository.ts:14-21 | stores the request first in creation-descending order, or fails on a used id |
| EmployeeRepo.TimeOffRepository.OfUser | src/modules/employee/repository/TimeOffRepository.ts:22-40 | exactly the user's requests |
| EmployeeRepo.TimeOffRepository.GetUserTimeOffRequests | src/modules/employee/repository/TimeOffRepository.ts:22-40 | one `take`/`skip` window of the user's requests |
| EmployeeRepo.TimeOffRepository.OfCompany | src/modules/employee/repository/TimeOffRepository.ts:41-61 | exactly the company's requests with that status |
| EmployeeRepo.TimeOffRepository.GetAllTimeOffRequests | src/modules/employee/repository/TimeOffRepository.ts:41-61 | one window of the company's requests with that status |
| EmployeeRepo.TimeOffRepository.FindById | src/modules/employee/repository/TimeOffRepository.ts:88-95 | found exactly when the id is stored, whatever the company |
| EmployeeRepo.TimeOffRepository.FindOneOfUser | src/modules/employee/services/EmployeeService.ts:413-418 | found exactly when the user has a request with that id |
| EmployeeRepo.TimeOffRepository.UpdateOne | src/modules/employee/repository/TimeOffRepository.ts:96-106 | fails on an unknown id; otherwise only that request is patched |
| EmployeeRepo.PatchSwapStatus | src/modules/employee/repository/ShiftSwapRepository.ts:26-36 | the swap with that id gets the new status; every other swap is kept |
| EmployeeRepo.ShiftSwapRepository.CreateSwap | src/modules/employee/repository/ShiftSwapRepository.ts:8-15 | appends the swap, or fails on a used id |
| EmployeeRepo.ShiftSwapRepository.FindBothIds | src/modules/employee/services/EmployeeService.ts:542-545 | found exactly when a swap, of any status, already offers the first booking for the second |
| EmployeeRepo.ShiftSwapRepository.FindById | src/modules/employee/services/EmployeeService.ts:641 | found exactly when the id is stored |
| EmployeeRepo.ShiftSwapRepository.SentBy | src/modules/employee/services/EmployeeService.ts:784 | exactly the user's own requests |
| EmployeeRepo.ShiftSwapRepository.ReceivedBy | src/modules/employee/services/EmployeeService.ts:785 | exactly the requests made to the user |
| EmployeeRepo.ShiftSwapRepository.FindUserSentSwaps | src/modules/employee/services/EmployeeService.ts:784 | one window of the user's own requests |
| EmployeeRepo.ShiftSwapRepository.FindUserReceivedSwaps | src/modules/employee/services/EmployeeService.ts:785 | one window of the requests made to the user |
| EmployeeRepo.ShiftSwapRepository.UpdateStatus | src/modules/employee/repository/ShiftSwapRepository.ts:26-36 | fails on an unknown id; otherwise only that swap's status changes |
| EmployeeRepo.NotificationRepository.CreateNotification | src/modules/employee/repository/NotificationsRepository.ts:8-15 | appends exactly the new notification |
| TaskRepo.ApplyTaskPatch | src/modules/task/repository/TaskRepository.ts:113-124 | only the given draft flag, status and deletion instant change |
| TaskRepo.ApplyNotePatch | src/modules/task/repository/TaskRepository.ts:167-182 | only the given note text and checked flag change |
| TaskRepo.PatchTasks | src/modules/task/repository/TaskRepository.ts:113-124 | the task with that id is patched; every other task is kept |
| TaskRepo.PatchLiveNotes | src/modules/task/repository/TaskRepository.ts:167-182 | the live note with that id is patched; every other note is kept |
| TaskRepo.StampLinks | src/modules/task/repository/TaskRepository.ts:205-215 | the link with that id gets the new `deletedAt`; every other link is kept |
| TaskRepo.TaskStore.CreateTask | src/modules/task/repository/TaskRepository.ts:21-26 | appends the task, or fails on a used id; notes and links untouched |
| TaskRepo.TaskStore.LinksOf | src/modules/task/repository/TaskRepository.ts:27-43 | exactly the links of the task |
| TaskRepo.TaskStore.NotesOf | src/modules/task/repository/TaskRepository.ts:27-43 | exactly the notes of the task |
| TaskRepo.TaskStore.FindTaskById | src/modules/task/repository/TaskRepository.ts:27-43 | found exactly when a live task has that id, with every link and note it has |
| TaskRepo.TaskStore.FindTaskByTitle | src/modules/task/services/TaskService.ts:65-68 | found exactly when the company has a live task with that title |
| TaskRepo.TaskStore.UpdateTask | src/modules/task/repository/TaskRepository.ts:113-124 | fails on an unknown id; otherwise only that task is patched and the plain row is returned |
| TaskRepo.TaskStore.CreateTaskList | src/modules/task/repository/TaskRepository.ts:140-147 | appends the note, or fails on a used id |
| TaskRepo.TaskStore.FindListItemById | src/modules/task/repository/TaskRepository.ts:156-166 | found exactly when the id is stored, with the note's task |
| TaskRepo.TaskStore.UpdateListTask | src/modules/task/repository/TaskRepository.ts:167-182 | only a live note can be updated; otherwise "record not found" and nothing changes |
| TaskRepo.TaskStore.CreateEmployeeTask | src/modules/task/repository/TaskRepository.ts:197-204 | appends the link, or fails on a used id |
| TaskRepo.TaskStore.FindLinkById | src/modules/task/repository/TaskRepository.ts:244-251 | found exactly when a live link has that id |
| TaskRepo.TaskStore.FindByUserAndTask | src/modules/task/repository/TaskRepository.ts:252-262 | found exactly when the user has a link to the task, deleted or not |
| TaskRepo.TaskStore.UpdateCollaboration | src/modules/task/repository/TaskRepository.ts:205-215 | fails on an unknown id; otherwise only that link's `deletedAt` changes |
| EmployeeService.Member | src/modules/employee/services/EmployeeService.ts:377-381 | the acting user is looked up ("User not found"), then must belong to the request's company ("User company mismatch"); success yields that user |
| EmployeeService.GetSchedulePeriodDemand | src/modules/employee/services/EmployeeService.ts:186-237 | an unknown user or a missing live slot fails; otherwise the reply is the week view's row of that slot at moment's current week and year: its live bookings of that week with each user's avatar, full name and email, "Available" exactly when fewer than `workerQuantity` |
| EmployeeService.JoinGuards | src/modules/employee/services/EmployeeService.ts:245-290 | the guards in source order: a missing slot, an unpublished period or another company is "Schedule not found", then the duplicate test is "already booked", then a full slot, then a past year, week or instant; a NaN week or year, which passes those comparisons, is refused by the store's integer columns, and so is a week or year outside the signed 32-bit range (Prisma's out-of-range error); success needs a week and year not behind the clock |
| EmployeeService.JoinAsWrittenRefusesBookedSlots | src/modules/employee/services/EmployeeService.ts:258-262 | as written, `map` keeps the length, so a slot anybody has booked refuses everybody else with "already booked"; the intended test does not |
| EmployeeService.NewBooking | src/modules/employee/services/EmployeeService.ts:292-315 | the booking stored belongs to the user and the user's company, is live, points at the slot and its period and carries the resolved week and year |
| EmployeeService.JoinShift | src/modules/employee/services/EmployeeService.ts:239-316 | the outcome is the intended guards' on the resolved week and year (`parseInt` of a given string, moment's value otherwise), so a success has a week and year that fit the 32-bit `Int` columns; a failure stores nothing, a success stores exactly one booking |
| EmployeeService.JoinRespectsCapacity | src/modules/employee/services/EmployeeService.ts:258-267 | a successful join found a free place below `workerQuantity` and the user held no booking of the slot |
| EmployeeService.RangeCheck | src/modules/employee/services/EmployeeService.ts:331-341 | passes exactly when now ≤ start < end; a start or end before now is "Cannot select past date", otherwise "End date must be past start date" |
| EmployeeService.TimeOffSchema | src/modules/employee/services/EmployeeService.ts:871-881 | `timeOffRequest` copies id, type, status, dates, time frame and reason |
| EmployeeService.TimeOffSchemas | src/modules/employee/services/EmployeeService.ts:393 | the view maps it over the page, in order |
| EmployeeService.UserTimeOffPage | src/modules/employee/services/EmployeeService.ts:371-399 | fails exactly when the membership check fails; otherwise at most `limit` of the caller's own requests, with no next page |
| EmployeeService.NewestRequestListedFirst | src/modules/employee/services/EmployeeService.ts:350-368 | on the first page the request just stored in front comes first |
| EmployeeService.NewTimeOff | src/modules/employee/services/EmployeeService.ts:346-366 | the stored request is PENDING, belongs to the caller and company, keeps the dates and type, a falsy reason becomes null, and its time frame reads "D day(s), H hour(s)" of its own dates |
| EmployeeService.RequestTimeOff | src/modules/employee/services/EmployeeService.ts:320-369 | a request that passes membership and the date check always succeeds; membership or date failures store nothing; otherwise exactly one new request is stored in front and the answer's first row shows it |
| EmployeeService.EditCheck | src/modules/employee/services/EmployeeService.ts:407-447 | guards in order: membership, "Request not found", an APPROVED or an EXPIRED request, a given date before now, and an end not after the start of the edited dates |
| EmployeeService.EditKeepsOmittedFields | src/modules/employee/services/EmployeeService.ts:442-459 | an omitted type, reason or date keeps its stored value, the status is untouched and the time frame matches the edited dates |
| EmployeeService.UpdateUserRequest | src/modules/employee/services/EmployeeService.ts:401-462 | a failed guard changes nothing; otherwise only the caller's request is patched and the answer is the first page of the caller's requests |
| EmployeeService.PeriodDemandSchema | src/modules/employee/services/EmployeeService.ts:891-902 | `periodDemandSchema` copies id, day, time frame, start, end and quantity |
| EmployeeService.Summaries | src/modules/employee/services/EmployeeService.ts:802-804 | one summary per slot, in order |
| EmployeeService.FormatScheduleWithoutUser | src/modules/employee/services/EmployeeService.ts:796-820 | the slots are sorted SUNDAY..SATURDAY, are a permutation of the summaries, and keep their stored order within a weekday |
| EmployeeService.SwapSchema | src/modules/employee/services/EmployeeService.ts:822-853 | a swap's view carries its id and status |
| EmployeeService.SlotOf | src/modules/employee/services/EmployeeService.ts:823-838 | the slot of a joined shift is found only when the shift and its live slot exist |
| EmployeeService.SwapSchemaShowsBothSides | src/modules/employee/services/EmployeeService.ts:822-853 | the view shows the requester with the offered slot and the receiver with the requested slot, both live; a missing requester shift fails |
| EmployeeService.SwapGuards | src/modules/employee/services/EmployeeService.ts:512-588 | guards in source order: membership, the own shift must exist and be the caller's, the target must exist and not be the caller's, no swap for the pair, both slots must exist, the booked test, and both shifts must pass `calculateIfValid` |
| EmployeeService.SwapAsWrittenMissesOwnBooking | src/modules/employee/services/EmployeeService.ts:575-581 | as written the test compares the caller's id with booking ids, so a caller booked on the requested slot is not stopped; the intended test refuses |
| EmployeeService.NewSwap | src/modules/employee/services/EmployeeService.ts:590-620 | the swap stored is PENDING, its receiver is the target's owner, its requester the caller, and it links the two shifts |
| EmployeeService.AppendKeepsPairsUnique | src/modules/employee/services/EmployeeService.ts:542-550 | adding a swap for a new pair keeps at most one swap per (own, target) pair |
| EmployeeService.StoreSwap | src/modules/employee/services/EmployeeService.ts:590-622 | stores exactly that swap and notifies its receiver once |
| EmployeeService.RequestSwap | src/modules/employee/services/EmployeeService.ts:506-627 | the outcome is the intended guards'; a failure writes nothing; a success stores exactly one swap and one notification to the target's owner, keeping pairs unique |
| EmployeeService.ViewGuards | src/modules/employee/services/EmployeeService.ts:736-757 | membership, then "No swap record found" for a missing or foreign swap, then the permission test |
| EmployeeService.ViewAsWrittenRejectsParties | src/modules/employee/services/EmployeeService.ts:751-757 | as written (`\|\|`) a non-admin party to a swap between two users is always refused; with the intended test either party passes |
| EmployeeService.ViewSwapDetails | src/modules/employee/services/EmployeeService.ts:731-760 | a non-party non-admin is refused; a result is the schema of that swap of the company, seen by an admin or a party |
| EmployeeService.RespondGuards | src/modules/employee/services/EmployeeService.ts:635-660 | guards in order: membership, a missing or foreign swap, only the receiver may act, and only on a PENDING swap |
| EmployeeService.RequesterBooking | src/modules/employee/services/EmployeeService.ts:675-698 | the requester's new booking is on the receiver shift's slot, week and year |
| EmployeeService.ReceiverBooking | src/modules/employee/services/EmployeeService.ts:701-724 | the receiver's new booking is on the requester shift's slot, week and year |
| EmployeeService.ApprovalExchangesShifts | src/modules/employee/services/EmployeeService.ts:666-699 | an approval retires both old shifts, gives the requester the receiver's slot and the receiver the requester's, and changes no other booking |
| EmployeeService.DenialAsWrittenBooksReceiver | src/modules/employee/services/EmployeeService.ts:701-724 | as written a denial still books the receiver on the requester's slot; the intended denial changes no booking |
| EmployeeService.ApprovalAsWrittenFails | src/modules/employee/services/EmployeeService.ts:666-673 | as written the second soft delete uses the requester's user id as a booking id and fails when no booking has that id, after the first write |
| EmployeeService.PatchKeepsIds | src/modules/employee/services/EmployeeService.ts:667-673 | a soft delete keeps every booking id |
| EmployeeService.ApplyAnswer | src/modules/employee/services/EmployeeService.ts:666-724 | the booking writes of an answer are exactly the intended outcome |
| EmployeeService.RecordAnswer | src/modules/employee/services/EmployeeService.ts:662-726 | the swap's status becomes APPROVED or DENIED, the bookings follow the intended outcome, the requester is notified once |
| EmployeeService.AnswerSettlesSwap | src/modules/employee/services/EmployeeService.ts:656-664 | after an answer the swap carries the new status, so a second answer finds it no longer PENDING |
| EmployeeService.AcceptOrRejectSwap | src/modules/employee/services/EmployeeService.ts:629-729 | a failed guard writes nothing; otherwise status, bookings and one notification as above, answered with the swap's view |
| EmployeeService.ListedSwaps | src/modules/employee/services/EmployeeService.ts:775-785 | at most `limit` swaps, sent by the user unless `status` is a non-empty string other than "sent", else received by the user |
| EmployeeService.UserSwapsPage | src/modules/employee/services/EmployeeService.ts:762-794 | membership first; the call succeeds exactly when the user is a member and every swap's schema succeeds, and the first failing schema's error is the answer otherwise; a result pages the swap rows themselves, with no next page |
| EmployeeService.SchemasCheckAt | src/modules/employee/services/EmployeeService.ts:787-789 | the loop stops at the first swap whose schema fails, with that failure |
| EmployeeService.ValidViewsGrow | src/modules/employee/services/EmployeeService.ts:787-789 | each pushed view is the schema of the swap at its position |
| EmployeeService.BuildSchemas | src/modules/employee/services/EmployeeService.ts:787-789 | the loop fails as the first failing schema, and otherwise pushes one view per swap |
| EmployeeService.GetUserSwaps | src/modules/employee/services/EmployeeService.ts:762-794 | the method's result is that page |
| NotificationService.Answer | src/modules/employee/services/NotificationService.ts:218 | the verb is "approved" exactly when the status is APPROVED, and "denied" for every other status |
| NotificationService.Notices | src/modules/employee/services/NotificationService.ts:90-106 | one notification per item, in item order |
| NotificationService.NoticesAppend | src/modules/employee/services/NotificationService.ts:90-106 | the notices of two runs of items are those of each, one after the other |
| NotificationService.SendAll | src/modules/employee/services/NotificationService.ts:90-106 | the `for` loop appends exactly one notification per item, in order |
| NotificationService.ChunkEnd | src/modules/employee/services/NotificationService.ts:244 | a chunk ends at `min(start + limit, length)` |
| NotificationService.BatchNotificationAsWritten | src/modules/employee/services/NotificationService.ts:237-254 | as written the loop returns inside its body: an empty input leaves the result undefined and sends nothing; otherwise only the first `min(limit, n)` items are processed |
| NotificationService.BatchNotification | src/modules/employee/services/NotificationService.ts:237-254 | with the `return` after the loop, every chunk is processed: each item gets its notification, in order, and the result has all `n` results |
| NotificationService.Receivers | src/modules/employee/services/NotificationService.ts:86-88 | the receivers are exactly the task's links, removed or not, of users other than the one who made the change |
| NotificationService.UpdateNoticesReachOthers | src/modules/employee/services/NotificationService.ts:86-124 | nobody is told of their own change; one notification per other collaborator link, in order, with the trigger user, task id, type TASK and the "updated task" text; the owner is told last, exactly when the owner did not make the change |
| NotificationService.UpdatePlan | src/modules/employee/services/NotificationService.ts:78-125 | a missing task is "Task not found", then a missing acting user is "User not found"; otherwise the notifications above |
| NotificationService.SendUpdateTask | src/modules/employee/services/NotificationService.ts:78-125 | a failure creates nothing; otherwise exactly the planned notifications are created |
| NotificationService.SendCreateTaskNotification | src/modules/employee/services/NotificationService.ts:127-150 | a missing task fails, a missing owner fails on the null relation; otherwise the collaborator is told once, from the owner, "assigned you to task" |
| NotificationService.CreateTaskAsWritten | src/modules/employee/services/NotificationService.ts:65-76 | as written the notifier is passed unbound, so its first call fails on `this`: with any collaborator link nothing is sent and the call fails; only a task with no link gets through |
| NotificationService.CreateTask | src/modules/employee/services/NotificationService.ts:65-76 | with the notifier bound and every chunk sent, each collaborator link gets one "assigned you" notice from the owner, in link order; a missing task fails with nothing sent |
| NotificationService.RemoveNotification | src/modules/employee/services/NotificationService.ts:152-179 | a missing admin or task fails with nothing sent; otherwise the removed user gets one "removed you from task" notice |
| NotificationService.AddTaskNotification | src/modules/employee/services/NotificationService.ts:181-208 | a missing admin or task fails with nothing sent; otherwise the added user gets one "assigned you to task" notice |
| NotificationService.TimeOffResponse | src/modules/employee/services/NotificationService.ts:210-234 | a missing admin or request fails with nothing sent; otherwise the request's owner gets one TIME_OFF notice saying "approved" or "denied" |
| AdminService.Target | src/modules/admin/services/AdminService.ts:65-73 | an admin not found in the company is "User not found", thrown by the repository lookup; a missing employee is "User not found" as well, from `findUserByIdOrThrow`; an employee of another company is "Employee does not exist"; otherwise the live employee of the admin's company |
| AdminService.SoftDeleteHidesUser | src/modules/admin/services/AdminService.ts:75 | once every row of the id is stamped, no live user has that id |
| AdminService.DeleteUser | src/modules/admin/services/AdminService.ts:60-80 | a failed guard changes nothing; otherwise the employee is soft-deleted and can no longer be looked up by id; the reply is a pass, except when admins delete themselves: the write happens and the second admin lookup then fails with "User not found" |
| AdminService.ToggleCheck | src/modules/admin/services/AdminService.ts:87-99 | the guards of `Target`, then "You cannot blacklist yourself" exactly when the admin is the employee |
| AdminService.BlacklistValue | src/modules/admin/services/AdminService.ts:101 | the new flag differs from the employee's current flag |
| AdminService.ToggleAsWrittenNeverLifts | src/modules/admin/services/AdminService.ts:101 | as written the flag negates the admin's own: an admin who is not blacklisted always writes `true`, so a blacklisted employee stays listed where the toggle lifts it |
| AdminService.ToggleUserStatus | src/modules/admin/services/AdminService.ts:82-113 | a failed guard changes nothing; otherwise only the employee's flag flips, every other user is unchanged, and the reply is the updated employee |
| AdminService.CompleteMeansAnswered | src/modules/admin/services/AdminService.ts:214-221 | a body passes exactly when some question is given and every given question has its answer |
| AdminService.QuestionsCheck | src/modules/admin/services/AdminService.ts:196-221 | the checks pass exactly when the admin exists, has a password, the password matches and the body is complete; "Incomplete details" only for an incomplete body |
| AdminService.QuestionsData | src/modules/admin/services/AdminService.ts:228-236 | the patch holds each given question, the hash of each given answer, and nothing else |
| AdminService.ReplyMatchesStored | src/modules/admin/services/AdminService.ts:238-250 | the reply shows a given question, else the stored one, and equals what the record holds after the write |
| AdminService.SetSecurityQuestions | src/modules/admin/services/AdminService.ts:196-251 | a failed check writes nothing; otherwise the user's record, created empty when missing, gets the patch, every other record is unchanged, and the reply is as above |
| AdminService.StatusOf | src/modules/admin/services/AdminService.ts:269 | a missing status is PENDING, a given one is kept |
| AdminService.ViewTimeOffRequests | src/modules/admin/services/AdminService.ts:253-283 | fails exactly for a missing admin; otherwise at most `limit` requests, each a request of the company with the asked status (PENDING by default), on the asked page, with no next page |
| AdminService.AnswerCheck | src/modules/admin/services/AdminService.ts:291-303 | a missing admin or request, or a request of another company, fails; the check passes exactly for a request of the admin's company that has not expired |
| AdminService.AnswerCheckAsWritten | src/modules/admin/services/AdminService.ts:291-303 | as written the request is found by id alone: it passes for any existing request that has not expired |
| AdminService.AnswerAsWrittenCrossesCompanies | src/modules/admin/services/AdminService.ts:296-303 | as written a pending request of another company passes, where the company test refuses it |
| AdminService.AnswerStatus | src/modules/admin/services/AdminService.ts:306 | APPROVED exactly when approving, DENIED exactly when not |
| AdminService.AnswerPatchSetsStatus | src/modules/admin/services/AdminService.ts:305-307 | the update changes the request's status and no other field |
| AdminService.StoreAnswer | src/modules/admin/services/AdminService.ts:305-309 | only the request's status changes, then its owner gets exactly one TIME_OFF notice with the answer |
| AdminService.SetAnswer | src/modules/admin/services/AdminService.ts:305-307 | only the request's status changes, and the request then reads back with the new status |
| AdminService.AcceptOrRejectRequest | src/modules/admin/services/AdminService.ts:285-312 | a failed check changes nothing; otherwise only the request's status changes, its owner is told once, and the reply lists the company's requests with the request's status as it was before the update |
| AdminService.AnsweredRequest | src/modules/admin/services/AdminService.ts:305-311 | after the status write, finding the request by id gives it with the new status |
| AdminService.FindUnique | src/modules/admin/services/AdminService.ts:296 | in a table where ids are unique, finding by an id gives the row with that id |
| TaskService.UserRow | src/modules/task/services/TaskService.ts:530-531 | the user row a link joins is the row with that id, if any |
| TaskService.MembersOf | src/modules/task/services/TaskService.ts:524-536 | one member per live link whose user row exists, in link order, with the link's id, user id and lead flag |
| TaskService.MembersFromLiveLinks | src/modules/task/services/TaskService.ts:524-536 | every member shown comes from a live link, with its id, user and lead flag |
| TaskService.LiveLinksShown | src/modules/task/services/TaskService.ts:524-536 | every live link whose user exists is shown |
| TaskService.LiveNotes | src/modules/task/services/TaskService.ts:538-548 | exactly the live notes, in order, with their id, text and `checked` |
| TaskService.SchemaWith | src/modules/task/services/TaskService.ts:520-564 | a missing owner relation fails; otherwise the view has the task's id, title and status, the members and the live notes |
| TaskService.SchemaOf | src/modules/task/services/TaskService.ts:520-564 | the view of a task read with its owner joined; a missing owner is the error of reading through `null` |
| TaskService.SchemaOmitsRemoved | src/modules/task/services/TaskService.ts:524-548 | the view never shows a removed collaborator or a removed note |
| TaskService.TaskSchema | src/modules/task/services/TaskService.ts:520-564 | the two pushing loops build exactly the view `SchemaOf` describes |
| TaskService.TaskResponse | src/modules/task/services/TaskService.ts:364-377 | a missing task, or one of another company, is "Task does not exist"; otherwise the view of that task |
| TaskService.GetTask | src/modules/task/services/TaskService.ts:364-377 | returns exactly `TaskResponse` and changes nothing |
| TaskService.CreateCheck | src/modules/task/services/TaskService.ts:58-71 | passes exactly for an ADMIN user and a title no live task of the company already has |
| TaskService.NewLinks | src/modules/task/services/TaskService.ts:94-111 | one link per requested member, with its lead flag, when the task is assigned to MEMBERS; none otherwise |
| TaskService.NewNotes | src/modules/task/services/TaskService.ts:117-128 | one unticked note per given text, in order |
| TaskService.AddLinks | src/modules/task/services/TaskService.ts:96-110 | the loop appends exactly the given links, in order |
| TaskService.AddNotes | src/modules/task/services/TaskService.ts:118-127 | the loop appends exactly the given notes, in order |
| TaskService.CreateTask | src/modules/task/services/TaskService.ts:53-135 | a failed guard changes nothing; otherwise one task, its links and its notes are stored; a published task notifies each of its collaborators once, a draft nobody |
| TaskService.StoreTask | src/modules/task/services/TaskService.ts:73-128 | the writes append exactly the task row, its links and its notes |
| TaskService.NewTaskFound | src/modules/task/services/TaskService.ts:73-92 | a task just appended under a fresh id is the one found by that id |
| TaskService.ToggleCheck | src/modules/task/services/TaskService.ts:217-229 | a missing user fails; a missing note or one of another company is "This note does not exist"; passes exactly when the note's value differs from the new one |
| TaskService.ToggleTask | src/modules/task/services/TaskService.ts:211-241 | a failed guard changes nothing; otherwise only the live note's `checked` changes, the collaborators are told of the update, and the reply is the task's view |
| TaskService.UpdatedView | src/modules/task/services/TaskService.ts:238-240 | `sendUpdateTask` writes exactly its planned notices, then the reply is the task's view |
| TaskService.ToggleSetsValue | src/modules/task/services/TaskService.ts:231-236 | after the toggle, every live copy of the note has the new value |
| TaskService.PublishCheck | src/modules/task/services/TaskService.ts:340-347 | a missing task or one of another company fails; "already published" exactly for a task that is not a draft; passes exactly for a draft of the company |
| TaskService.PublishReplyAsWritten | src/modules/task/services/TaskService.ts:349-361 | as written the reply reads the owner through the updated row, which has no `user` relation, so it fails whatever the row holds |
| TaskService.PublishedTaskFound | src/modules/task/services/TaskService.ts:349-354 | after the write the task is found again, no longer a draft, in the same company |
| TaskService.PublishTask | src/modules/task/services/TaskService.ts:336-362 | a failed guard changes nothing; otherwise only `isDraft` of that task changes, every collaborator is told once, and the reply is the task read back |
| TaskService.PublishAndAnnounce | src/modules/task/services/TaskService.ts:349-361 | the write, then `createTask`'s notices, then the view read back |
| TaskService.PublishedView | src/modules/task/services/TaskService.ts:356-361 | `createTask`'s notices, then the view read back |
| TaskService.AdminOf | src/modules/task/services/TaskService.ts:385-394 | passes exactly for a live user of the company of type ADMIN |
| TaskService.CompanyTask | src/modules/task/services/TaskService.ts:396-399 | passes exactly for a live task of the company |
| TaskService.AddCheck | src/modules/task/services/TaskService.ts:424-453 | passes exactly for an admin, a task of the company, a user of the company and no live link of the user to the task; returns the removed link to revive, if any |
| TaskService.AddedLinksMakeCollaborator | src/modules/task/services/TaskService.ts:450-473 | either way the user ends up a live collaborator of the task |
| TaskService.JoinCollaborator | src/modules/task/services/TaskService.ts:450-473 | the removed link is revived, or a new link is appended |
| TaskService.AddTaskCollaborator | src/modules/task/services/TaskService.ts:418-478 | a failed guard changes nothing; otherwise the user is a live collaborator, only the links change, the user is told once, and the reply is the task's view |
| TaskService.JoinAndAnnounce | src/modules/task/services/TaskService.ts:450-477 | the write, then the one notice, then the view |
| TaskService.AddedView | src/modules/task/services/TaskService.ts:475-477 | the one "assigned you" notice, then the view |
| TaskService.RemoveCheck | src/modules/task/services/TaskService.ts:385-405 | passes exactly for an admin, a task of the company and a live link of that task; a link of another task is "not a collaborator" |
| TaskService.RemoveTaskCollaborator | src/modules/task/services/TaskService.ts:379-416 | a failed guard changes nothing; otherwise the link is stamped as removed and can no longer be found, only the links change, the user is told once, and the reply is the task's view |
| TaskService.LeaveAndAnnounce | src/modules/task/services/TaskService.ts:407-415 | the write, then the one notice, then the view |
| TaskService.RemovedView | src/modules/task/services/TaskService.ts:409-415 | the one "removed you" notice, then the view |
| TaskService.LeaveCollaboration | src/modules/task/services/TaskService.ts:407 | only the link of that id is stamped as removed |
| TaskService.StampHidesLink | src/modules/task/services/TaskService.ts:407 | after stamping, no link with that id is live |
| AuthService.SplitName | src/modules/user/services/AuthService.ts:100-101 | the first name is the trimmed name up to its first whitespace character (all of it when there is none), so it holds no whitespace; a blank name gives two empty names; any other name gives a non-empty first name |
| AuthService.SplitNameWords | src/modules/user/services/AuthService.ts:100-101 | the first name is the first word of the trimmed name; a one-word name has an empty last name; otherwise splitting the last name on whitespace again gives back exactly the remaining words, so it is those words joined by single spaces |
| AuthService.LettersAppend | src/modules/user/services/AuthService.ts:100-101 | the non-whitespace characters of a concatenation are those of each part, in order |
| AuthService.LettersOfSpaces | src/modules/user/services/AuthService.ts:100 | whitespace alone holds no non-whitespace characters |
| AuthService.LettersAroundSpaces | src/modules/user/services/AuthService.ts:100-101 | whitespace between two strings adds no characters |
| AuthService.LettersTrimStart | src/modules/user/services/AuthService.ts:100 | trimming the start keeps every non-whitespace character |
| AuthService.LettersTrimEnd | src/modules/user/services/AuthService.ts:100 | trimming the end keeps every non-whitespace character |
| AuthService.LettersTrim | src/modules/user/services/AuthService.ts:100 | `trim()` keeps every non-whitespace character |
| AuthService.LettersJoinSplit | src/modules/user/services/AuthService.ts:100-101 | splitting on whitespace runs and rejoining with single spaces keeps every non-whitespace character, in order |
| AuthService.SplitNameKeepsLetters | src/modules/user/services/AuthService.ts:100-101 | first and last name together hold exactly the full name's non-whitespace characters, in order; the last name is empty exactly for a one-word name |
| AuthService.CodePatch | src/modules/user/services/AuthService.ts:602-608 | the verification-code write never touches `deletedAt` |
| AuthService.SendEmailVerification | src/modules/user/services/AuthService.ts:587-609 | nothing is written while the current code is less than an hour old; otherwise the live user of the e-mail gets the new code stamped now |
| AuthService.CodeSentThrottles | src/modules/user/services/AuthService.ts:595-609 | after a code is sent the user holds it, and a new request is ignored for exactly one hour after |
| AuthService.CompanyOf | src/modules/user/services/AuthService.ts:317-333 | the company relation exists exactly when a company has the user's company id, and it is that company |
| AuthService.LoginStepOf | src/modules/user/services/AuthService.ts:285-323 | the login decision: no account; blacklisted or deleted; no password; wrong password; unverified; admitted, each exactly under its condition, checked in that order |
| AuthService.LoginChecksBeforePassword | src/modules/user/services/AuthService.ts:285-309 | a missing, blocked or password-less user gets the same answer whatever password is given |
| AuthService.ResetPatch | src/modules/user/services/AuthService.ts:715-722 | the reset-link write never touches `deletedAt` |
| AuthService.Login | src/modules/user/services/AuthService.ts:280-338 | each refusal changes nothing, except that a password-less user gets a reset token stamped now and an unverified user a verification code (throttled); only a verified user with a matching password gets the token reply |
| AuthService.ResetCheck | src/modules/user/services/AuthService.ts:359-397 | an unknown link, a mismatched confirmation, a missing timestamp and a link an hour old or more fail, in that order; passes exactly otherwise, for the user holding the link |
| AuthService.NewPasswordPatch | src/modules/user/services/AuthService.ts:402-409 | the password write clears the token and never touches `deletedAt` |
| AuthService.PasswordWriteSpendsToken | src/modules/user/services/AuthService.ts:402-409 | after the write the user of that id holds no reset token, so the link works once |
| AuthService.ResetPasswordComplete | src/modules/user/services/AuthService.ts:353-424 | a failed check changes nothing; otherwise the hashed password is stored, the link can no longer be found, and the reply is a login reply for the user |
| AuthService.StorePassword | src/modules/user/services/AuthService.ts:399-424 | the write and the reply of a reset that passed its checks |
| AuthService.VerifyStepOf | src/modules/user/services/AuthService.ts:634-669 | no user; unknown code; already verified; no timestamp; expired; accepted, each exactly under its condition, in that order |
| AuthService.VerifiedUserLive | src/modules/user/services/AuthService.ts:640-643 | a user who passes the lookups is live |
| AuthService.VerifyUserEmail | src/modules/user/services/AuthService.ts:633-694 | a refusal changes nothing; an expired code is replaced by a fresh one; an accepted one makes the user verified and active and can never be used again |
| AuthService.AcceptCode | src/modules/user/services/AuthService.ts:671-693 | the write clears the code and marks the user verified and active; the same link is refused from then on |
| AuthService.CodeSpent | src/modules/user/services/AuthService.ts:671-680 | once the code is cleared no code verifies the user any more |
| AuthService.VerifyToken | src/modules/user/services/AuthService.ts:813-826 | a bad token fails; a token with no e-mail is "not authorized"; otherwise it passes exactly when a user has the e-mail, and gives that user |
| AuthService.VerifyAdminToken | src/modules/user/services/AuthService.ts:828-845 | the checks of `VerifyToken`, and an EMPLOYEE is refused; passes exactly for a non-employee |
| AuthService.SignupCheck | src/modules/user/services/AuthService.ts:85-95 | an existing account for the e-mail as given and then a mismatched confirmation fail; passes exactly otherwise |
| AuthService.NewAdmin | src/modules/user/services/AuthService.ts:160-178 | the new user has the lowercased e-mail, the split name, the hash, type ADMIN, and is active, unverified, not blacklisted, with no code or token yet |
| AuthService.PatchAppended | src/modules/user/services/AuthService.ts:602-609 | patching by an e-mail only the appended row holds patches that row alone |
| AuthService.Signup | src/modules/user/services/AuthService.ts:72-188 | a failed check creates nothing; otherwise one company is created, and, unless the lowercased e-mail is taken, one ADMIN with its first code and an empty question record |
| AuthService.CreateAdmin | src/modules/user/services/AuthService.ts:160-183 | a taken e-mail creates nothing; otherwise exactly the user (with its code) and its question record are appended |
| TeamService.InviteOf | src/modules/team/services/TeamService.ts:47-54 | an entry carries the user's id, e-mail, name and type, and is Pending exactly while the user holds a verification code |
| TeamService.InvitesOf | src/modules/team/services/TeamService.ts:46-55 | one entry per user, in order |
| TeamService.PendingInvites | src/modules/team/services/TeamService.ts:34-59 | fails exactly when the organisation does not exist; otherwise one entry per inactive user of the company |
| TeamService.InvitesListInactive | src/modules/team/services/TeamService.ts:44-55 | every listed entry is a live, inactive, unverified user of the company, and every such user is listed |
| TeamService.InviteCheck | src/modules/team/services/TeamService.ts:62-69 | a missing user is "User not found", thrown by `findUserByIdOrThrow`; a user of another company is "User does not exist. Kindly contact support"; an active user gets the operation's own refusal; passes exactly for an inactive user of the company |
| TeamService.RevokePatch | src/modules/team/services/TeamService.ts:71-77 | the write clears the code and its timestamp and nothing else |
| TeamService.RevokeInvite | src/modules/team/services/TeamService.ts:61-80 | a failed check changes nothing; otherwise the user loses the code, and the reply lists the company's invitations, with that user shown as Revoked |
| TeamService.RevokedShown | src/modules/team/services/TeamService.ts:71-79 | a revoked user who never verified stays listed, now as Revoked |
| TeamService.ResendInvite | src/modules/team/services/TeamService.ts:82-96 | a failed check changes nothing; otherwise the user is sent a verification code, unless the current one is less than an hour old |
| TeamService.SchemaOf | src/modules/team/services/TeamService.ts:184 | the view has the company's id, name, address and start day |
| TeamService.EditPatchAsWritten | src/modules/team/services/TeamService.ts:163-168 | as written a given name goes under `companyName`, which is no column, and the `name` column is never set |
| TeamService.EditPatch | src/modules/team/services/TeamService.ts:163-168 | each given field, and only those, goes under its own column |
| TeamService.EditWritesGivenFields | src/modules/team/services/TeamService.ts:163-169 | the given fields are written and every other field keeps its value |
| TeamService.EditOrganization | src/modules/team/services/TeamService.ts:156-171 | a missing organisation fails; a key that is no column fails and writes nothing; otherwise only that company changes and the reply is it, updated |
| TeamService.EditOrganizationSettingAsWritten | src/modules/team/services/TeamService.ts:152-172 | as written a request that renames the organisation fails on the unknown key and writes nothing, not even the address or the start day it also carries |
| TeamService.EditOrganizationSetting | src/modules/team/services/TeamService.ts:152-172 | with the name under its own column the given fields are stored, nothing else changes, and the updated company is the reply |
| RequestMiddleware.Plain | src/middlewares/RequestMiddleware.ts:106-116 | whitespace and sentence stops are neither word characters nor lower-case letters, and a word character is neither |
| RequestMiddleware.SliceSplit | src/middlewares/RequestMiddleware.ts:108 | a suffix splits at any later position into two consecutive slices |
| RequestMiddleware.TitleMatchEnd | src/middlewares/RequestMiddleware.ts:108 | a match of `/(^\w{1})\|(\s+\w{1})/` tried at a position ends at or after it, within the string |
| RequestMiddleware.TitleScan | src/middlewares/RequestMiddleware.ts:108 | the global replace keeps the length of what it scans |
| RequestMiddleware.TitleMarked | src/middlewares/RequestMiddleware.ts:108 | the reference marking keeps the length |
| RequestMiddleware.TitleMatchChar | src/middlewares/RequestMiddleware.ts:108 | every character of a match is one the reference capitalises |
| RequestMiddleware.TitleMatchMarks | src/middlewares/RequestMiddleware.ts:108 | a match upper-cased is the reference on that stretch, and the scan may resume after it |
| RequestMiddleware.TitleMissMarks | src/middlewares/RequestMiddleware.ts:108 | where nothing matches, the reference leaves the character alone and the scan may resume after it |
| RequestMiddleware.TitleScanMarks | src/middlewares/RequestMiddleware.ts:108 | the regex scan capitalises exactly the characters the reference marks |
| RequestMiddleware.TitleCase | src/middlewares/RequestMiddleware.ts:106-111 | same length; each character is lower-cased, and upper-cased as well exactly when it is a word character that opens the string or follows whitespace |
| RequestMiddleware.TitleCaseIdempotent | src/middlewares/RequestMiddleware.ts:106-111 | title-casing twice is title-casing once |
| RequestMiddleware.SentenceMatchEnd | src/middlewares/RequestMiddleware.ts:115 | a match of `/(^\w\|[.!?]\s*\w)/` tried at a position ends at or after it, within the string |
| RequestMiddleware.SentenceScan | src/middlewares/RequestMiddleware.ts:115 | the global replace keeps the length of what it scans |
| RequestMiddleware.RunStart | src/middlewares/RequestMiddleware.ts:115 | the whitespace run before a position is all whitespace and cannot be extended to the left |
| RequestMiddleware.SentenceMarked | src/middlewares/RequestMiddleware.ts:115 | the reference marking keeps the length |
| RequestMiddleware.StopRun | src/middlewares/RequestMiddleware.ts:115 | after a stop and its whitespace run, the next position follows a stop |
| RequestMiddleware.ResumeAfterWord | src/middlewares/RequestMiddleware.ts:115 | the scan may always resume right after a word character |
| RequestMiddleware.SentenceMatchChar | src/middlewares/RequestMiddleware.ts:115 | every character of a match is one the reference capitalises |
| RequestMiddleware.SentenceMatchMarks | src/middlewares/RequestMiddleware.ts:115 | a match upper-cased is the reference on that stretch, and the scan may resume after it |
| RequestMiddleware.SentenceMissMarks | src/middlewares/RequestMiddleware.ts:115 | where nothing matches, the reference leaves the character alone and the scan may resume after it |
| RequestMiddleware.SentenceScanMarks | src/middlewares/RequestMiddleware.ts:115 | the regex scan capitalises exactly the characters the reference marks |
| RequestMiddleware.SentenceCase | src/middlewares/RequestMiddleware.ts:113-116 | same length; each character is lower-cased, and upper-cased as well exactly when it is a word character that opens the string or has only whitespace between it and a `.`, `!` or `?` |
| RequestMiddleware.SentenceCaseIdempotent | src/middlewares/RequestMiddleware.ts:113-116 | sentence-casing twice is sentence-casing once |
| RequestMiddleware.LowerOfCased | src/middlewares/RequestMiddleware.ts:106-116 | a string differing from the lower-cased one only by capitals lower-cases back to it |
| RequestMiddleware.LowerIdempotent | src/middlewares/RequestMiddleware.ts:106-107 | `toLowerCase` twice is once |
| RequestMiddleware.Lowered | src/middlewares/RequestMiddleware.ts:31-33 | a falsy e-mail is left as it is; a truthy one is lower-cased |
| RequestMiddleware.Titled | src/middlewares/RequestMiddleware.ts:34-45 | a falsy name field is left as it is; a truthy one is rewritten to one of the same length |
| RequestMiddleware.Sentenced | src/middlewares/RequestMiddleware.ts:46-51 | a falsy text field is left as it is; a truthy one is rewritten to one of the same length |
| RequestMiddleware.Dated | src/middlewares/RequestMiddleware.ts:52-60 | a falsy date field is left as it is; a truthy one becomes the Date built from its text |
| RequestMiddleware.SentencedNotes | src/middlewares/RequestMiddleware.ts:83-87 | a missing or empty notes array is left as it is; otherwise each note is sentence-cased, in order |
| RequestMiddleware.ArrayTouched | src/middlewares/RequestMiddleware.ts:30-62 | `touchArray` leaves the notes alone |
| RequestMiddleware.ObjectTouched | src/middlewares/RequestMiddleware.ts:64-104 | `touchObject` does what `touchArray` does, and sentence-cases the notes and the note as well |
| RequestMiddleware.TitledIdempotent | src/middlewares/RequestMiddleware.ts:34-45 | rewriting a name field twice is rewriting it once |
| RequestMiddleware.SentencedIdempotent | src/middlewares/RequestMiddleware.ts:46-51 | rewriting a text field twice is rewriting it once |
| RequestMiddleware.ArrayTouchIdempotent | src/middlewares/RequestMiddleware.ts:30-62 | normalising an array element a second time changes nothing |
| RequestMiddleware.ObjectTouchIdempotent | src/middlewares/RequestMiddleware.ts:64-104 | normalising an object body a second time changes nothing |
| RequestMiddleware.BodyObject.TouchCommon | src/middlewares/RequestMiddleware.ts:31-60 | each of the ten shared fields is rewritten exactly as its rule says, and the notes are left alone |
| RequestMiddleware.BodyObject.TouchArray | src/middlewares/RequestMiddleware.ts:30-62 | the object's fields become `ArrayTouched` of what they were |
| RequestMiddleware.BodyObject.TouchObject | src/middlewares/RequestMiddleware.ts:64-104 | the object's fields become `ObjectTouched` of what they were |
| RequestMiddleware.Normalised | src/middlewares/RequestMiddleware.ts:13-27 | any method other than POST leaves a body as it is; a POST array element is `touchArray`ed, any other body `touchObject`ed |
| RequestMiddleware.Request.Use | src/middlewares/RequestMiddleware.ts:13-27 | every object of the body ends up `Normalised`, and the request keeps its method and body objects |
| UserAuthMiddleware.BearerToken | src/middlewares/UserAuthMiddleware.ts:29-42 | a missing header is "No authorization provided"; one that does not start with `Bearer`, or does not split around `"Bearer "` into exactly two pieces, is "Invalid auth token" |
| UserAuthMiddleware.SplitOfContaining | src/middlewares/UserAuthMiddleware.ts:37-38 | a string holding the separator splits into at least two pieces |
| UserAuthMiddleware.BearerTokenOf | src/middlewares/UserAuthMiddleware.ts:29-42 | the header `Bearer <t>` gives `t` exactly when `t` holds no `"Bearer "` itself |
| UserAuthMiddleware.BearerTokenShape | src/middlewares/UserAuthMiddleware.ts:33-42 | an accepted header is a lead without `"Bearer "`, the separator, then the token, which holds none either |
| UserAuthMiddleware.UserGate | src/middlewares/UserAuthMiddleware.ts:28-47 | the header's refusals, then `verifyToken`'s, then "User is not verified"; an admitted user exists and has verified the e-mail |
| UserAuthMiddleware.EmployeeGate | src/middlewares/UserAuthMiddleware.ts:72-95 | the checks of `UserGate`, then "User is not an employee"; admits exactly the users `UserGate` admits that are EMPLOYEEs |
| UserAuthMiddleware.UserGateAdmits | src/middlewares/UserAuthMiddleware.ts:21-56 | a bearer header is admitted exactly when the token's e-mail names a user who has verified it |
| UserAuthMiddleware.Admit | src/middlewares/UserAuthMiddleware.ts:48-55 | an admitted user's ids are set on the request and `next()` is called; a refusal is handed to `next` and the ids are left as they were |
| UserAuthMiddleware.AuthenticateUser | src/middlewares/UserAuthMiddleware.ts:21-56 | the request passes exactly when `UserGate` admits, and then carries that user's ids |
| UserAuthMiddleware.AuthenticateEmployee | src/middlewares/UserAuthMiddleware.ts:65-104 | the request passes exactly when `EmployeeGate` admits, and then carries that user's ids |
| AdminAuthMiddleware.AdminGate | src/middlewares/AdminAuthMiddleware.ts:28-49 | the header's refusals, then `verifyAdminToken`'s, then the refusal of any non-MANAGER; an admitted user exists and is a MANAGER |
| AdminAuthMiddleware.AdminGateAdmits | src/middlewares/AdminAuthMiddleware.ts:21-60 | a bearer header is admitted exactly when the token's e-mail names a MANAGER; an ADMIN meets the guard's own refusal |
| AdminAuthMiddleware.SignupAdminRefused | src/middlewares/AdminAuthMiddleware.ts:45-49 | the ADMIN the password signup creates is refused by the admin guard |
| AdminAuthMiddleware.AuthenticateAdmin | src/middlewares/AdminAuthMiddleware.ts:21-60 | the request passes exactly when `AdminGate` admits, and then carries that user's ids; a refusal is handed to `next` |
| ApiResponseMiddleware.Intercept | src/middlewares/ApiResponseMiddleware.ts:12-23 | `null` and `undefined` pass unwrapped; any other value is wrapped as a success, and the content read back is the content given |
| JsDate.LocalDate.GetDay | src/utils/formatDate.ts:18-19 | `getDay()` of a valid date is its week day, 0 to 6; NaN exactly on an Invalid Date |
| JsDate.LocalDate.SetDate | src/utils/formatDate.ts:20 | `setDate` replaces the date's time value by `SetDateValue` of the old one |
| JsDate.LocalDate.SetHours | src/utils/formatDate.ts:25 | `setHours` replaces the time value by `SetHoursValue` of the old one |
| JsDate.LocalDate.SetMinutes | src/utils/formatDate.ts:26 | `setMinutes` replaces the time value by `SetMinutesValue` of the old one |
| JsDate.LocalDate.SetSeconds | src/utils/formatDate.ts:27 | `setSeconds` replaces the time value by `SetSecondsValue` of the old one |
| JsDate.SetDateInJanuary | src/utils/formatDate.ts:18-20 | `setDate(n)` on a January date of a year gives day `n` counted on from 1 January, rolling past 31 into later months and below 1 into the year before |
| JsDate.SetHoursShift | src/utils/formatDate.ts:25 | setting the hours to `h`, in range or not, moves the time by `h` minus the old hour, in hours |
| JsDate.SetMinutesShift | src/utils/formatDate.ts:26 | setting the minutes moves the time by the difference, in minutes |
| JsDate.SetSecondsShift | src/utils/formatDate.ts:27 | setting the seconds moves the time by the difference, in seconds |
| Js.JoinSplit | src/utils/formatDate.ts:12-16 | joining the pieces of `split(sep)` with the same separator gives back the string |
| Js.SplitSpacesJoin | src/modules/user/services/AuthService.ts:100-101 | `split(/\s+/)` takes apart exactly the words that `join(" ")` put together |
| Js.ParseIntToString | src/utils/formatDate.ts:22-27 | `parseInt` reads back the decimal rendering of every integer |

## Left out

- Cryptography, tokens and mail: bcrypt `hash`/`compare`, jwt `sign`/`verify`, `uuid` and `sendMail` are function-typed parameters or fresh-id parameters; their algorithms are outside the model.
- Clock sources: `new Date()`, `moment().week()` and `moment().year()` are the `Clock` parameter; moment's locale week numbering is not modelled.
- Time zones: instants are local integer milliseconds, so a time-zone offset and daylight saving are not modelled.
- `getHourDifference`: it returns fractional hours from a moment duration, and floating point is not modelled.
- `waitForResponse` in `src/utils/request.ts`: it depends on timers and response headers.
- Concurrency: `Promise.all` and the un-awaited `map(async …)` loops are modelled as sequential loops in source order.
- Logging: the winston logger and its serializers have no effect on the modelled state.
- Exceptions thrown by `next()` itself: the guards hand their error to `next`, and what the error handler does is not modelled.
- Controllers, application wiring and `ManagerService`: they forward arguments without logic of their own.
- `ImageUploadMiddleware`: the upload is external I/O.
- Google sign-in (`checkGoogleLogin`, `googleSignup`): it is third-party authentication.
- AuthService `resetPassword`, `inviteTeammates`, `changeUserPassword`, `editUserDetails`, `getActiveUsers`, `getUser` and `testEmail`: these are not among the auth rules modelled here (name split, login order, the code and token windows, e-mail verification, the token gates).
- Departments and roles: signup's department and role creation, and the role title in invites, are not modelled.
- TeamService `getDetails`, `getActiveUsers`, `getTeamDepartments` and the `getCompanyDetails` message: these are read-only listings outside the invite and settings rules.
- Listings outside this model: `getUpcomingShifts` (the reply of `joinShift`), `getAvailableSwaps`, `getUserTasks`, `getAvailableSchedules`, `getBlackListedUsers` and `getSecurityQuestions`.
- The mappers `userScheduleSchema`, `userCompanyShifts`, `timeOffRequestWithUser` and `individualTaskSchema`: they serve only the listings above.
- TaskService `deleteTask`, `deleteNote`, `updateNote`, `updateTask`, `editTaskRequest` and `addTaskNote`: they are store writes outside the task rules modelled here.
- Repository methods the services call but the repositories do not define (`findBothIds`, `findById`, `findUserSentSwaps` and `findUserRecievedSwaps` of the swap repository, `findTaskByTitle` of the task repository): they are given their evident semantics, a lookup by the named keys.
- NotificationService `requestShiftSwap` and `respondShiftSwap`: they are called but not defined, so the notice they send is an `activity` parameter addressed to the receiver or the requester.
- `resetPasswordComplete` on an expired link also mails a fresh link; the mail is not modelled, only the refusal.
- Casing is ASCII only: `toLowerCase`/`toUpperCase` and the regex `\w` are modelled on ASCII letters, digits and `_`; other characters pass through unchanged.
- Body fields of an unexpected type (a numeric `email`, on which `toLowerCase` would throw): every field the normaliser reads is modelled as a string, a string array or a date.
- Date parsing in `touchObject`: `new Date(text)` is the abstract `Built(text)`; the parsing of the text is not modelled.
- RequestMiddleware.Titled: states only that the rewrite keeps the length; the whole rewritten text is stated by the contract of `RequestMiddleware.TitleCase`.
- RequestMiddleware.Sentenced: states only that the rewrite keeps the length; the whole rewritten text is stated by the contract of `RequestMiddleware.SentenceCase`.
- AdminService.DeleteUser: returns only the outcome; the reply `getAllCompanyUser` listing that follows a pass is outside this model.
- TaskService.CreateTask: does not state the reply, the `getCompanyTasks` listing, which is outside this model.
- AdminService.ViewTimeOffRequests: states which requests the page holds (company, status, mapping), not their order or the rows skipped before the page.
- EmployeeService.UserTimeOffPage: states which requests the page holds, not their order or the rows skipped before the page.
- Pagination.LimitOf: the `limit` parameter is a whole number of at least zero; a negative or fractional limit, which is truthy and kept as given and which Prisma would reject or round as `take`, is not modelled.
- Pagination.PageOf: the `page` parameter is a whole number of at least zero; a negative or fractional page, which is truthy and kept, giving a negative or fractional skip that Prisma would reject, is not modelled.
- NotificationService.BatchNotification: requires a positive `limit`; with `limit` 0 the source loop never advances.

## Findings

| source | as written | input that shows it | evidently intended | confidence | as-written member | corrected member |
|---|---|---|---|---|---|---|
| src/modules/employee/services/EmployeeService.ts:258-262 | the duplicate-booking test maps the bookings to booleans and checks the length of the result, so it fires whenever the slot has any booking | a published slot of the user's company booked once by another user; the user joins it | refuse only a user who already holds a booking of the slot | not executed | EmployeeService.JoinAsWrittenRefusesBookedSlots | EmployeeService.JoinShift |
| src/modules/employee/services/EmployeeService.ts:701-724 | the receiver's new booking is created outside the approval branch, so a denial books the receiver too | any pending swap answered with `false` | a denial leaves every booking as it was | not executed | EmployeeService.DenialAsWrittenBooksReceiver | EmployeeService.AcceptOrRejectSwap |
| src/modules/employee/services/EmployeeService.ts:671-673 | after retiring the requester's shift, approval updates the booking whose id is the requester's USER id | an approved swap where no booking has the requester's user id as its id: the update fails after the first write | the requester is moved to the receiver's slot | not executed | EmployeeService.ApprovalAsWrittenFails | EmployeeService.ApprovalExchangesShifts |
| src/modules/employee/services/EmployeeService.ts:751-757 | the access test is `receiver !== user \|\| requester !== user`, which holds for every swap between two different users | a non-admin receiver views their own swap | either party, or an admin, may view it | not executed | EmployeeService.ViewAsWrittenRejectsParties | EmployeeService.ViewSwapDetails |
| src/modules/employee/services/EmployeeService.ts:575-581 | the "already booked on the requested shift" test compares booking ids with the user id, so it never fires | a caller holding a booking of the target slot requests a swap onto it | refuse a caller who already works that slot | not executed | EmployeeService.SwapAsWrittenMissesOwnBooking | EmployeeService.RequestSwap |
| src/modules/schedule/services/ScheduleService.ts:167-174 | the template to publish is found by id alone, with no company test | an admin of company `y` publishes template `b` of company `x`, where `a` is already published | refuse another company's template, keeping one published template per company | not executed | ScheduleService.PublishAsWrittenBreaksSinglePublished | ScheduleService.PublishSchedule |
| src/modules/employee/services/NotificationService.ts:243-253 | `return results` sits inside the loop, so only the first chunk is sent, and an empty input returns `undefined` | five notices with a limit of two: two are sent | send every chunk and return all results | not executed | NotificationService.BatchNotificationAsWritten | NotificationService.BatchNotification |
| src/modules/employee/services/NotificationService.ts:71-75 | `this.sendCreateTaskNotification` is passed unbound, so its first call fails on `this.taskRepo` | a task with one collaborator link | every collaborator is notified | not executed | NotificationService.CreateTaskAsWritten | NotificationService.CreateTask |
| src/modules/admin/services/AdminService.ts:101 | the new flag is the negation of the ACTING admin's flag | a blacklisted employee toggled by an admin who is not blacklisted stays blacklisted | the employee's own flag is negated | not executed | AdminService.ToggleAsWrittenNeverLifts | AdminService.ToggleUserStatus |
| src/modules/admin/services/AdminService.ts:296-303 | the time-off request is found by id alone, with no company test | an admin answers a pending request of another company | refuse requests of other companies | not executed | AdminService.AnswerAsWrittenCrossesCompanies | AdminService.AcceptOrRejectRequest |
| src/modules/task/services/TaskService.ts:349-361 | the reply is `taskSchema` of the row `updateTask` returns, which carries no `user` relation, so reading the owner throws | publishing any draft task | reply with the published task's full view | not executed | TaskService.PublishReplyAsWritten | TaskService.PublishTask |
| src/modules/team/services/TeamService.ts:166 | the new name is written under `companyName`, which is not a column of the company table | a settings request that carries a new organization name: the update fails and writes nothing | write the name to the `name` column | not executed | TeamService.EditOrganizationSettingAsWritten | TeamService.EditOrganizationSetting |

## Notes

- `formatDate` turns "12:xx PM" into hour 24 (the next day's midnight hour) and sets the seconds to the minute field. These are kept as written and stated by `FormatDate.TwelvePmIsNextDay` and `FormatDate.MinutesEqualSeconds`; they are not listed as findings because every caller uses the same projection.
- The password signup creates an ADMIN account, while `AdminAuthMiddleware` admits only MANAGER; `AdminAuthMiddleware.SignupAdminRefused` states the consequence. Task creation, in turn, requires ADMIN.
- The signup checks compare the e-mail as given, while `RequestMiddleware` lowercases the e-mail of a POST body before it reaches the service.
