/** `EmployeeService` of `src/modules/employee/services/EmployeeService.ts`:
    the week view of one slot, booking a slot, time-off requests and their
    edits, and the shift-swap workflow. */
module EmployeeService {
  import opened Wrappers
  import opened Js
  import opened JsDate
  import opened Seqs
  import opened Pagination
  import opened Entities
  import opened FormatDate
  import opened ScheduleRepo
  import opened UserRepo
  import opened EmployeeRepo
  import opened DaySort
  import opened ScheduleService

  const DemandNotFound := Error(NotFound, "Schedule not found. Kindly contact your ogranization")
  const AlreadyBooked := Error(Conflict, "You are already booked for this shift")
  const FullyBooked := Error(BadRequest, "Shift is fully booked")
  const CompanyMismatch := Error(BadRequest, "User company mismatch")
  const PastSelection := Error(BadRequest, "Cannot select past date")
  const EndNotAfterStart := Error(BadRequest, "End date must be past start date")
  const RequestNotFound := Error(NotFound, "Request not found")
  const AlreadyApproved := Error(NotFound, "Request is already approved")
  const ExpiredRequest := Error(NotFound, "Expired requests cannot be updated")
  const OwnScheduleMissing := Error(NotFound, "Own schedule doesn't exist")
  const NotAuthorized := Error(BadRequest, "You are not authorized to perform this action")
  const RequestedScheduleMissing := Error(NotFound, "Requested schedule doesn't exist")
  const SwapOwnSchedule := Error(BadRequest, "You cannot swap your own schedule")
  const SwapExists := Error(BadRequest, "A request has already been created for these two shifts")
  const OwnPeriodMissing := Error(NotFound, "Own schedule period doesn't exist")
  const RequestedPeriodMissing := Error(NotFound, "Requested schedule period doesn't exist")
  const BookedOnRequested := Error(BadRequest, "You cannot swap a schedule you are booked for")
  const SwapNotFound := Error(NotFound, "No swap record found")
  const SwapOfOtherCompany := Error(BadRequest, "No swap record found")
  const NoPermission := Error(BadRequest, "You do not have the permssions to perform this action")
  const SwapLocked := Error(BadRequest, "You are currently unable to change the status of this swap")

  /** The acting user, who must belong to the company of the request. */
  function Member(auth: AuthRepository, userId: Id, companyId: Id): (r: Result<User>)
    reads auth
    ensures auth.FindUserByIdOrThrow(userId).Err? ==> r == Err(UserNotFound)
    ensures auth.FindUserByIdOrThrow(userId).Ok? && auth.FindUserByIdOrThrow(userId).value.companyId != companyId ==>
              r == Err(CompanyMismatch)
    ensures r.Ok? <==> auth.FindUserByIdOrThrow(userId).Ok? && auth.FindUserByIdOrThrow(userId).value.companyId == companyId
    ensures r.Ok? ==> r.value in auth.users && r.value.id == userId && r.value.companyId == companyId
  {
    match auth.FindUserByIdOrThrow(userId)
    case Err(e) => Err(e)
    case Ok(u) =>
      if u.companyId != companyId then Err(CompanyMismatch)
      else Ok(u)
  }

  // ------------------------------------------------------------ one slot

  /** The view `getSchedulePeriodDemand` uses: moment's current week and year. */
  function CurrentWeek(clock: Clock): ViewQuery
  {
    ViewQuery(Num(clock.week), Num(clock.year))
  }

  /** `getSchedulePeriodDemand`: a live slot with its live bookings of the
      current week and year, each pushed into `usersAvailable` with the
      avatar, name and e-mail of its user. */
  method GetSchedulePeriodDemand(auth: AuthRepository, sched: ScheduleRepository, userId: Id, demandId: Id,
                                 clock: Clock)
    returns (r: Result<PeriodDemand>)
    ensures auth.FindUserByIdOrThrow(userId).Err? ==> r == Err(UserNotFound)
    ensures auth.FindUserByIdOrThrow(userId).Ok? && sched.FindSchedulePeriodDemandById(demandId).None? ==>
              r == Err(DemandNotFound)
    ensures auth.FindUserByIdOrThrow(userId).Ok? && sched.FindSchedulePeriodDemandById(demandId).Some? ==>
              r == DemandStatus(sched, auth, sched.FindSchedulePeriodDemandById(demandId).value.demand, CurrentWeek(clock))
  {
    var user := auth.FindUserByIdOrThrow(userId);
    if user.Err? {
      return Err(user.error);
    }
    var details := sched.FindSchedulePeriodDemandById(demandId);
    if details.None? {
      return Err(DemandNotFound);
    }
    var demand := details.value.demand;
    var users := sched.FindUsersBySchedulePeriodDemandId(demand.id);
    users := InWeek(users, CurrentWeek(clock));
    var usersAvailable := PushWorkers(auth, users);
    if usersAvailable.Err? {
      return Err(usersAvailable.error);
    }
    var ws := usersAvailable.value;
    return Ok(PeriodDemand(demand.id, demand.weekDay, demand.timeFrame, demand.startTime, demand.endTime,
                           demand.workerQuantity, |ws|,
                           if |ws| < demand.workerQuantity then Available else Booked, ws));
  }

  // ------------------------------------------------------------ joining a slot

  /** The `week` or `year` argument of `joinShift`: `parseInt` of a non-empty
      string, moment's current value otherwise. */
  function Resolve(arg: Option<string>, current: int): JsNumber
  {
    if Present(arg) then ParseInt(arg.value, true) else Num(current)
  }

  /** The user already holds a booking of the slot, deleted or not, for any week. */
  predicate HoldsBooking(details: DemandDetails, userId: Id)
  {
    exists b :: b in details.bookings && b.userId == userId
  }

  /** The duplicate test of `joinShift` as written: `map` keeps the length,
      so it holds as soon as the slot has any booking at all. */
  predicate HoldsBookingAsWritten(details: DemandDetails, userId: Id)
  {
    |details.bookings| > 0
  }

  /** The guards of `joinShift`, in order, with the duplicate test `dup`. */
  function JoinGuards(user: Result<User>, details: Option<DemandDetails>, dup: bool,
                      week: JsNumber, year: JsNumber, clock: Clock): (r: Outcome)
    ensures user.Err? ==> r == Fail(user.error)
    ensures r == Pass <==>
              user.Ok? && details.Some? && details.value.period.Some? && details.value.period.value.published
              && user.value.companyId == details.value.period.value.companyId && !dup
              && |details.value.bookings| < details.value.demand.workerQuantity
              && Bookable(details.value.demand.startTime, year, week, details.value.demand.weekDay, clock)
              && week.Num? && year.Num? && FitsInt(week.v) && FitsInt(year.v)
    ensures r == Pass ==> week.v >= clock.week && year.v >= clock.year
    ensures (user.Ok? && details.Some? && details.value.period.Some? && details.value.period.value.published
             && user.value.companyId == details.value.period.value.companyId) ==> (r == Fail(AlreadyBooked) <==> dup)
  {
    if user.Err? then Fail(user.error)
    else if details.None? then Fail(ScheduleNotFound)
    else if details.value.period.None? then Fail(MissingRelation)
    else if !details.value.period.value.published || user.value.companyId != details.value.period.value.companyId
    then Fail(ScheduleNotFound)
    else if dup then Fail(AlreadyBooked)
    else if |details.value.bookings| >= details.value.demand.workerQuantity then Fail(FullyBooked)
    else match DateGuard(details.value.demand.startTime, year, week, details.value.demand.weekDay, clock)
      case Fail(e) => Fail(e)
      case Pass =>
        if week.NaN? || year.NaN? then Fail(InvalidInt)
        else if !FitsInt(week.v) || !FitsInt(year.v) then Fail(IntOutOfRange)
        else Pass
  }

  /** The guards of `joinShift` with the duplicate test it evidently intends. */
  function JoinCheck(user: Result<User>, details: Option<DemandDetails>, userId: Id,
                     week: JsNumber, year: JsNumber, clock: Clock): Outcome
  {
    JoinGuards(user, details, details.Some? && HoldsBooking(details.value, userId), week, year, clock)
  }

  /** The guards of `joinShift` as written. */
  function JoinCheckAsWritten(user: Result<User>, details: Option<DemandDetails>, userId: Id,
                              week: JsNumber, year: JsNumber, clock: Clock): Outcome
  {
    JoinGuards(user, details, details.Some? && HoldsBookingAsWritten(details.value, userId), week, year, clock)
  }

  /** As written, a published slot of the user's company that anybody has
      booked is refused with "already booked" to everyone else. */
  lemma JoinAsWrittenRefusesBookedSlots(user: User, details: DemandDetails, week: JsNumber, year: JsNumber,
                                        clock: Clock)
    requires details.period.Some? && details.period.value.published
    requires user.companyId == details.period.value.companyId
    requires |details.bookings| > 0 && forall b :: b in details.bookings ==> b.userId != user.id
    ensures JoinCheckAsWritten(Ok(user), Some(details), user.id, week, year, clock) == Fail(AlreadyBooked)
    ensures JoinCheck(Ok(user), Some(details), user.id, week, year, clock) != Fail(AlreadyBooked)
  {
  }

  /** The booking `joinShift` stores. */
  function NewBooking(id: Id, user: User, d: SchedulePeriodDemand, week: int, year: int): (r: UserSchedulePeriod)
    ensures r.id == id && r.userId == user.id && r.companyId == user.companyId && Live(r.deletedAt)
    ensures r.schedulePeriodId == d.schedulePeriodId && r.schedulePeriodDemandId == d.id
    ensures r.week == week && r.year == year
  {
    UserSchedulePeriod(id, user.id, user.companyId, d.schedulePeriodId, d.id, week, year, None)
  }

  /** `joinShift`, with the duplicate test it evidently intends; the store
      generates the booking id, here given and fresh. */
  method JoinShift(auth: AuthRepository, sched: ScheduleRepository, userId: Id, demandId: Id,
                   week: Option<string>, year: Option<string>, clock: Clock, bookingId: Id)
    returns (r: Outcome)
    requires sched.Valid() && !sched.HasBooking(bookingId)
    modifies sched
    ensures sched.Valid()
    ensures r == JoinCheck(auth.FindUserByIdOrThrow(userId), old(sched.FindSchedulePeriodDemandById(demandId)), userId,
                           Resolve(week, clock.week), Resolve(year, clock.year), clock)
    ensures r.Fail? ==> unchanged(sched)
    ensures r.Pass? ==> FitsInt(Resolve(week, clock.week).v) && FitsInt(Resolve(year, clock.year).v)
    ensures r.Pass? ==>
              sched.bookings == old(sched.bookings) + [NewBooking(bookingId, auth.FindUserByIdOrThrow(userId).value,
                                                                  old(sched.FindSchedulePeriodDemandById(demandId)).value.demand,
                                                                  Resolve(week, clock.week).v, Resolve(year, clock.year).v)]
              && sched.periods == old(sched.periods) && sched.demands == old(sched.demands)
  {
    var user := auth.FindUserByIdOrThrow(userId);
    var schedule := sched.FindSchedulePeriodDemandById(demandId);
    var accurateWeek := Resolve(week, clock.week);
    var accurateYear := Resolve(year, clock.year);
    r := JoinCheck(user, schedule, userId, accurateWeek, accurateYear, clock);
    if r.Fail? {
      return;
    }
    var o := sched.CreateUserSchedule(NewBooking(bookingId, user.value, schedule.value.demand,
                                                 accurateWeek.v, accurateYear.v));
  }

  /** A slot whose bookings were already at its quantity stays there: a
      successful join needed a free place, and adds exactly one booking. */
  lemma JoinRespectsCapacity(user: Result<User>, details: Option<DemandDetails>, userId: Id,
                             week: JsNumber, year: JsNumber, clock: Clock)
    requires JoinCheck(user, details, userId, week, year, clock) == Pass
    ensures |details.value.bookings| + 1 <= details.value.demand.workerQuantity
    ensures forall b :: b in details.value.bookings ==> b.userId != userId
  {
  }

  // ------------------------------------------------------------ time off

  datatype TimeOffRequest = TimeOffRequest(kind: string, reason: Option<string>, startDate: int, endDate: int)
  datatype EditTimeOffRequest = EditTimeOffRequest(kind: Option<string>, reason: Option<string>,
                                                   startDate: Option<int>, endDate: Option<int>)

  /** The `timeFrame` text "D day(s), H hour(s)" of a range. */
  function TimeFrameText(startDate: int, endDate: int): string
  {
    var d := DayDifference(startDate, endDate);
    IntToString(d.days) + " day(s), " + IntToString(d.hour) + " hour(s)"
  }

  /** The date guards of `requestTimeOff` and `updateUserRequest`, in order. */
  function RangeCheck(now: int, startDate: int, endDate: int): (r: Outcome)
    ensures r.Pass? <==> now <= startDate < endDate
    ensures r.Fail? ==> r.error == if now > startDate || now > endDate then PastSelection else EndNotAfterStart
  {
    if now > startDate then Fail(PastSelection)
    else if now > endDate then Fail(PastSelection)
    else if endDate <= startDate then Fail(EndNotAfterStart)
    else Pass
  }

  /** Every stored request's `timeFrame` describes its own dates. */
  predicate TimeFrameMatches(t: TimeOff)
  {
    t.timeFrame == TimeFrameText(t.startDate, t.endDate)
  }

  /** The `timeOffRequest` mapper: the columns a listed request shows. */
  datatype TimeOffView = TimeOffView(id: Id, kind: string, status: Status, startDate: int, endDate: int,
                                     timeFrame: string, reason: Option<string>)

  function TimeOffSchema(t: TimeOff): (r: TimeOffView)
    ensures r.id == t.id && r.kind == t.kind && r.status == t.status && r.reason == t.reason
    ensures r.startDate == t.startDate && r.endDate == t.endDate && r.timeFrame == t.timeFrame
  {
    TimeOffView(t.id, t.kind, t.status, t.startDate, t.endDate, t.timeFrame, t.reason)
  }

  function TimeOffSchemas(ts: seq<TimeOff>): (r: seq<TimeOffView>)
    ensures |r| == |ts| && forall i :: 0 <= i < |ts| ==> r[i] == TimeOffSchema(ts[i])
  {
    seq(|ts|, i requires 0 <= i < |ts| => TimeOffSchema(ts[i]))
  }

  /** `getAllUserTimeOffReuests`: one page of the caller's own requests,
      newest first, paginated with the page's own length as the total. */
  function UserTimeOffPage(auth: AuthRepository, timeOff: TimeOffRepository, userId: Id, companyId: Id, q: Query)
    : (r: Result<Page<TimeOffView>>)
    reads auth, timeOff
    ensures r.Err? <==> Member(auth, userId, companyId).Err?
    ensures r.Err? ==> r.error == Member(auth, userId, companyId).error
    ensures r.Ok? ==> |r.value.data| <= LimitOf(q) && r.value.currentpage == PageOf(q) && r.value.nextpage.None?
    ensures r.Ok? ==> forall i :: 0 <= i < |r.value.data| ==>
                        exists t :: t in timeOff.requests && t.userId == userId && r.value.data[i] == TimeOffSchema(t)
  {
    match Member(auth, userId, companyId)
    case Err(e) => Err(e)
    case Ok(_) =>
      var rows := timeOff.GetUserTimeOffRequests(userId, LimitOf(q), SkipOf(q));
      var data := TimeOffSchemas(rows);
      PageOfOwnLengthIsLast(data, PageOf(q), LimitOf(q));
      assert forall i :: 0 <= i < |data| ==> rows[i] in rows;
      Ok(Paginate(data, PageOf(q), LimitOf(q), |data|))
  }

  /** The first page of a user's requests after a new one was stored in
      front shows that request first. */
  lemma NewestRequestListedFirst(rows: seq<TimeOff>, t: TimeOff, q: Query)
    requires PageOf(q) == 1
    ensures var w := Window(Filter([t] + rows, (x: TimeOff) => x.userId == t.userId), LimitOf(q), SkipOf(q));
            |w| > 0 && w[0] == t
  {
    var p := (x: TimeOff) => x.userId == t.userId;
    assert ([t] + rows)[1..] == rows;
    assert Filter([t] + rows, p) == [t] + Filter(rows, p);
  }

  /** The request `requestTimeOff` stores; the status column defaults to PENDING. */
  function NewTimeOff(id: Id, userId: Id, companyId: Id, body: TimeOffRequest, now: int): (r: TimeOff)
    ensures r.id == id && r.userId == userId && r.companyId == companyId && r.status == PENDING
    ensures r.kind == body.kind && r.startDate == body.startDate && r.endDate == body.endDate
    ensures r.reason == (if Present(body.reason) then body.reason else None)
    ensures TimeFrameMatches(r)
  {
    TimeOff(id, userId, companyId, body.kind, if Present(body.reason) then body.reason else None,
            TimeFrameText(body.startDate, body.endDate), body.startDate, body.endDate, PENDING, now)
  }

  /** `requestTimeOff`, answering with the first page of the caller's
      requests; the store generates the id, here given and fresh. */
  method RequestTimeOff(auth: AuthRepository, timeOff: TimeOffRepository, userId: Id, companyId: Id,
                        body: TimeOffRequest, now: int, id: Id)
    returns (r: Result<Page<TimeOffView>>)
    requires timeOff.Valid() && !timeOff.Has(id)
    modifies timeOff
    ensures timeOff.Valid()
    ensures Member(auth, userId, companyId).Err? ==> r == Err(Member(auth, userId, companyId).error)
    ensures Member(auth, userId, companyId).Ok? && RangeCheck(now, body.startDate, body.endDate).Fail? ==>
              r == Err(RangeCheck(now, body.startDate, body.endDate).error)
    ensures Member(auth, userId, companyId).Ok? && RangeCheck(now, body.startDate, body.endDate).Pass? ==> r.Ok?
    ensures r.Err? ==> unchanged(timeOff)
    ensures r.Ok? ==> RangeCheck(now, body.startDate, body.endDate).Pass?
                      && timeOff.requests == [NewTimeOff(id, userId, companyId, body, now)] + old(timeOff.requests)
                      && r == UserTimeOffPage(auth, timeOff, userId, companyId, Query(None, None))
                      && r.value.data[0] == TimeOffSchema(NewTimeOff(id, userId, companyId, body, now))
  {
    var user := Member(auth, userId, companyId);
    if user.Err? {
      return Err(user.error);
    }
    var check := RangeCheck(now, body.startDate, body.endDate);
    if check.Fail? {
      return Err(check.error);
    }
    var row := NewTimeOff(id, userId, companyId, body, now);
    var o := timeOff.CreateTimeOffRequest(row);
    NewestRequestListedFirst(old(timeOff.requests), row, Query(None, None));
    r := UserTimeOffPage(auth, timeOff, userId, companyId, Query(None, None));
  }

  /** The dates an edit ends up with: the given ones, else the stored ones. */
  function EditedStart(t: TimeOff, body: EditTimeOffRequest): int
  {
    if body.startDate.Some? then body.startDate.value else t.startDate
  }

  function EditedEnd(t: TimeOff, body: EditTimeOffRequest): int
  {
    if body.endDate.Some? then body.endDate.value else t.endDate
  }

  /** The guards of `updateUserRequest`, in order. */
  function EditCheck(user: Result<User>, request: Option<TimeOff>, body: EditTimeOffRequest, now: int): (r: Outcome)
    ensures user.Err? ==> r == Fail(user.error)
    ensures user.Ok? && request.None? ==> r == Fail(RequestNotFound)
    ensures user.Ok? && request.Some? && request.value.status == APPROVED ==> r == Fail(AlreadyApproved)
    ensures user.Ok? && request.Some? && request.value.status == EXPIRED ==> r == Fail(ExpiredRequest)
    ensures r.Pass? <==> user.Ok? && request.Some? && request.value.status != APPROVED && request.value.status != EXPIRED
                         && (body.startDate.Some? ==> now <= body.startDate.value)
                         && (body.endDate.Some? ==> now <= body.endDate.value)
                         && EditedStart(request.value, body) < EditedEnd(request.value, body)
  {
    if user.Err? then Fail(user.error)
    else if request.None? then Fail(RequestNotFound)
    else if request.value.status == APPROVED then Fail(AlreadyApproved)
    else if request.value.status == EXPIRED then Fail(ExpiredRequest)
    else if body.startDate.Some? && now > body.startDate.value then Fail(PastSelection)
    else if body.endDate.Some? && now > body.endDate.value then Fail(PastSelection)
    else if EditedEnd(request.value, body) <= EditedStart(request.value, body) then Fail(EndNotAfterStart)
    else Pass
  }

  /** The columns `updateUserRequest` writes: every omitted field keeps its
      stored value, the time frame is recomputed, the status is not touched. */
  function EditPatch(t: TimeOff, body: EditTimeOffRequest): TimeOffPatch
  {
    var startDate := EditedStart(t, body);
    var endDate := EditedEnd(t, body);
    TimeOffPatch(Some(if Present(body.kind) then body.kind.value else t.kind),
                 Some(if Present(body.reason) then body.reason else t.reason),
                 Some(TimeFrameText(startDate, endDate)), Some(startDate), Some(endDate), None)
  }

  /** An edit keeps what it was not given and leaves a consistent time frame. */
  lemma EditKeepsOmittedFields(t: TimeOff, body: EditTimeOffRequest)
    ensures var e := ApplyTimeOffPatch(EditPatch(t, body), t);
            e.id == t.id && e.userId == t.userId && e.status == t.status && TimeFrameMatches(e)
            && (!Present(body.kind) ==> e.kind == t.kind) && (!Present(body.reason) ==> e.reason == t.reason)
            && (body.startDate.None? ==> e.startDate == t.startDate)
            && (body.endDate.None? ==> e.endDate == t.endDate)
  {
  }

  /** `updateUserRequest`: the caller's own request, edited in place, then
      the first page of the caller's requests. */
  method UpdateUserRequest(auth: AuthRepository, timeOff: TimeOffRepository, userId: Id, companyId: Id,
                           requestId: Id, body: EditTimeOffRequest, now: int)
    returns (r: Result<Page<TimeOffView>>)
    requires timeOff.Valid()
    modifies timeOff
    ensures timeOff.Valid()
    ensures var c := EditCheck(Member(auth, userId, companyId), old(timeOff.FindOneOfUser(requestId, userId)), body, now);
            (c.Fail? ==> r == Err(c.error) && unchanged(timeOff))
            && (c.Pass? ==> r == UserTimeOffPage(auth, timeOff, userId, companyId, Query(None, None)))
    ensures r.Ok? ==>
              var t := old(timeOff.FindOneOfUser(requestId, userId)).value;
              |timeOff.requests| == |old(timeOff.requests)|
              && forall i :: 0 <= i < |timeOff.requests| ==>
                   timeOff.requests[i] == if old(timeOff.requests[i]).id == requestId
                                          then ApplyTimeOffPatch(EditPatch(t, body), old(timeOff.requests[i]))
                                          else old(timeOff.requests[i])
  {
    var user := Member(auth, userId, companyId);
    var request := timeOff.FindOneOfUser(requestId, userId);
    var check := EditCheck(user, request, body, now);
    if check.Fail? {
      return Err(check.error);
    }
    var o := timeOff.UpdateOne(request.value.id, EditPatch(request.value, body));
    r := UserTimeOffPage(auth, timeOff, userId, companyId, Query(None, None));
  }

  // ------------------------------------------------------------ schema helpers

  /** The `periodDemandSchema` mapper: a slot without its bookings. */
  datatype DemandSummary = DemandSummary(id: Id, day: DayOfWeek, timeFrame: string, startTime: string,
                                         endTime: string, neededWorkers: int)

  function PeriodDemandSchema(d: SchedulePeriodDemand): (r: DemandSummary)
    ensures r.id == d.id && r.day == d.weekDay && r.timeFrame == d.timeFrame && r.neededWorkers == d.workerQuantity
    ensures r.startTime == d.startTime && r.endTime == d.endTime
  {
    DemandSummary(d.id, d.weekDay, d.timeFrame, d.startTime, d.endTime, d.workerQuantity)
  }

  function DaySummary(d: DemandSummary): DayOfWeek { d.day }

  function Summaries(ds: seq<SchedulePeriodDemand>): (r: seq<DemandSummary>)
    ensures |r| == |ds| && forall i :: 0 <= i < |ds| ==> r[i] == PeriodDemandSchema(ds[i])
  {
    seq(|ds|, i requires 0 <= i < |ds| => PeriodDemandSchema(ds[i]))
  }

  datatype ScheduleSummary = ScheduleSummary(id: Id, title: string, isPublished: bool, repeat: bool,
                                             data: seq<DemandSummary>)

  /** `formatScheduleWithoutUser`: the template's slots without bookings,
      sorted by weekday, the slots of one weekday in their stored order. */
  function FormatScheduleWithoutUser(s: FullPeriod): (r: ScheduleSummary)
    ensures r.id == s.period.id && r.title == s.period.periodName
    ensures r.isPublished == s.period.published && r.repeat == s.period.repeat
    ensures SortedByDay(r.data, DaySummary)
    ensures multiset(r.data) == multiset(Summaries(s.demands))
    ensures forall d :: Filter(r.data, OnDay(DaySummary, d)) == Filter(Summaries(s.demands), OnDay(DaySummary, d))
  {
    var data := Summaries(s.demands);
    SortByDaySorted(data, DaySummary);
    SortByDayPermutes(data, DaySummary);
    SortByDayStableAll(data, DaySummary);
    ScheduleSummary(s.period.id, s.period.periodName, s.period.published, s.period.repeat,
                    SortByDay(data, DaySummary))
  }

  /** One side of a swap in its `userSchedulePeriodSchema` view. */
  datatype ShiftView = ShiftView(user: UserSchema, shift: DemandSummary)
  datatype SwapView = SwapView(id: Id, status: Status, offeredShift: ShiftView, requestedShift: ShiftView)

  /** `userSchedulePeriodSchema`: the swap with both parties and both slots.
      The shifts and users are relations the swap joins; the slots are
      looked up again and must still be live. */
  function SwapSchema(auth: AuthRepository, sched: ScheduleRepository, s: SwapShifts): (r: Result<SwapView>)
    reads auth, sched
    ensures r.Ok? ==> r.value.id == s.id && r.value.status == s.status
  {
    match SlotOf(sched, s.requesterShiftId)
    case Err(e) => Err(e)
    case Ok(offered) =>
      match SlotOf(sched, s.receiverShiftId)
      case Err(e) => Err(e)
      case Ok(requested) =>
        match (auth.FindUserById(s.requesterId), auth.FindUserById(s.receiverId))
        case (None, _) => Err(MissingRelation)
        case (_, None) => Err(MissingRelation)
        case (Some(requester), Some(receiver)) =>
          Ok(SwapView(s.id, s.status, ShiftView(SchemaToUser(requester), PeriodDemandSchema(offered)),
                      ShiftView(SchemaToUser(receiver), PeriodDemandSchema(requested))))
  }

  /** The live slot of a shift a swap joins. */
  function SlotOf(sched: ScheduleRepository, shiftId: Id): (r: Result<SchedulePeriodDemand>)
    reads sched
    ensures sched.FindBookingById(shiftId).None? ==> r == Err(MissingRelation)
    ensures r.Ok? ==> sched.FindBookingById(shiftId).Some?
                      && r.value.id == sched.FindBookingById(shiftId).value.schedulePeriodDemandId
                      && r.value in sched.demands && Live(r.value.deletedAt)
  {
    match sched.FindBookingById(shiftId)
    case None => Err(MissingRelation)
    case Some(b) =>
      match sched.FindSchedulePeriodDemandById(b.schedulePeriodDemandId)
      case None => Err(ScheduleNotFound)
      case Some(details) => Ok(details.demand)
  }

  /** The view of a swap shows the requester with the slot offered and the
      receiver with the slot requested, both slots still live. */
  lemma SwapSchemaShowsBothSides(auth: AuthRepository, sched: ScheduleRepository, s: SwapShifts)
    ensures sched.FindBookingById(s.requesterShiftId).None? ==> SwapSchema(auth, sched, s) == Err(MissingRelation)
    ensures var r := SwapSchema(auth, sched, s);
            r.Ok? ==>
              r.value.offeredShift.user.id == s.requesterId && r.value.requestedShift.user.id == s.receiverId
              && SlotOf(sched, s.requesterShiftId).Ok? && SlotOf(sched, s.receiverShiftId).Ok?
              && r.value.offeredShift.shift == PeriodDemandSchema(SlotOf(sched, s.requesterShiftId).value)
              && r.value.requestedShift.shift == PeriodDemandSchema(SlotOf(sched, s.receiverShiftId).value)
  {
  }

  // ------------------------------------------------------------ requesting a swap

  /** The slot of a booking, looked up as `findSchedulePeriodDemandById` does. */
  function DemandOf(sched: ScheduleRepository, b: Option<UserSchedulePeriod>): Option<DemandDetails>
    reads sched
  {
    if b.None? then None else sched.FindSchedulePeriodDemandById(b.value.schedulePeriodDemandId)
  }

  /** The "booked on the requested slot" test of `requestSwap` as written: it
      compares the caller's id with the id of each booking, never its user. */
  predicate BookedAsWritten(details: DemandDetails, userId: Id)
  {
    exists b :: b in details.bookings && b.id == userId
  }

  /** The guards of `requestSwap`, in order, with the "booked" test `booked`. */
  function SwapGuards(member: Result<User>, own: Option<UserSchedulePeriod>, target: Option<UserSchedulePeriod>,
                      existing: bool, ownDemand: Option<DemandDetails>, targetDemand: Option<DemandDetails>,
                      booked: bool, userId: Id, clock: Clock): (r: Outcome)
    ensures member.Err? ==> r == Fail(member.error)
    ensures member.Ok? && own.Some? ==> (r == Fail(NotAuthorized) <==> own.value.userId != userId)
    ensures member.Ok? && own.Some? && own.value.userId == userId && target.Some? ==>
              (r == Fail(SwapOwnSchedule) <==> target.value.userId == userId)
    ensures member.Ok? && own.Some? && own.value.userId == userId && target.Some? && target.value.userId != userId ==>
              (r == Fail(SwapExists) <==> existing)
    ensures r == Pass <==>
              member.Ok? && own.Some? && own.value.userId == userId && target.Some? && target.value.userId != userId
              && !existing && ownDemand.Some? && targetDemand.Some? && !booked
              && Bookable(ownDemand.value.demand.startTime, Num(own.value.year), Num(own.value.week),
                          ownDemand.value.demand.weekDay, clock)
              && Bookable(targetDemand.value.demand.startTime, Num(target.value.year), Num(target.value.week),
                          targetDemand.value.demand.weekDay, clock)
  {
    if member.Err? then Fail(member.error)
    else if own.None? then Fail(OwnScheduleMissing)
    else if own.value.userId != userId then Fail(NotAuthorized)
    else if target.None? then Fail(RequestedScheduleMissing)
    else if target.value.userId == userId then Fail(SwapOwnSchedule)
    else if existing then Fail(SwapExists)
    else if ownDemand.None? then Fail(OwnPeriodMissing)
    else match DateGuard(ownDemand.value.demand.startTime, Num(own.value.year), Num(own.value.week),
                         ownDemand.value.demand.weekDay, clock)
      case Fail(e) => Fail(e)
      case Pass =>
        if targetDemand.None? then Fail(RequestedPeriodMissing)
        else if booked then Fail(BookedOnRequested)
        else DateGuard(targetDemand.value.demand.startTime, Num(target.value.year), Num(target.value.week),
                       targetDemand.value.demand.weekDay, clock)
  }

  /** The guards of `requestSwap` with the "booked" test it evidently intends. */
  function SwapCheck(member: Result<User>, own: Option<UserSchedulePeriod>, target: Option<UserSchedulePeriod>,
                     existing: bool, ownDemand: Option<DemandDetails>, targetDemand: Option<DemandDetails>,
                     userId: Id, clock: Clock): Outcome
  {
    SwapGuards(member, own, target, existing, ownDemand, targetDemand,
               targetDemand.Some? && HoldsBooking(targetDemand.value, userId), userId, clock)
  }

  /** The guards of `requestSwap` as written. */
  function SwapCheckAsWritten(member: Result<User>, own: Option<UserSchedulePeriod>, target: Option<UserSchedulePeriod>,
                              existing: bool, ownDemand: Option<DemandDetails>, targetDemand: Option<DemandDetails>,
                              userId: Id, clock: Clock): Outcome
  {
    SwapGuards(member, own, target, existing, ownDemand, targetDemand,
               targetDemand.Some? && BookedAsWritten(targetDemand.value, userId), userId, clock)
  }

  /** As written, a caller who holds a booking of the requested slot is not
      stopped: booking ids are never user ids, so the test never fires. */
  lemma SwapAsWrittenMissesOwnBooking(member: Result<User>, own: Option<UserSchedulePeriod>,
                                      target: Option<UserSchedulePeriod>, ownDemand: Option<DemandDetails>,
                                      targetDemand: DemandDetails, userId: Id, clock: Clock, b: UserSchedulePeriod)
    requires member.Ok? && own.Some? && own.value.userId == userId && target.Some? && target.value.userId != userId
    requires ownDemand.Some? && Bookable(ownDemand.value.demand.startTime, Num(own.value.year), Num(own.value.week),
                                         ownDemand.value.demand.weekDay, clock)
    requires b in targetDemand.bookings && b.userId == userId
    requires forall x :: x in targetDemand.bookings ==> x.id != userId
    ensures SwapCheck(member, own, target, false, ownDemand, Some(targetDemand), userId, clock) == Fail(BookedOnRequested)
    ensures SwapCheckAsWritten(member, own, target, false, ownDemand, Some(targetDemand), userId, clock)
            != Fail(BookedOnRequested)
  {
  }

  /** The swap `requestSwap` stores: the requester offers the own shift for
      the target's shift. */
  function NewSwap(id: Id, target: UserSchedulePeriod, userId: Id, ownerPeriodId: Id, userPeriodId: Id,
                   companyId: Id): (r: SwapShifts)
    ensures r.id == id && r.receiverId == target.userId && r.requesterId == userId && r.companyId == companyId
    ensures r.receiverShiftId == userPeriodId && r.requesterShiftId == ownerPeriodId && r.status == PENDING
  {
    SwapShifts(id, target.userId, userId, userPeriodId, ownerPeriodId, companyId, PENDING)
  }

  /** At most one swap offers a given shift for a given other shift. */
  predicate PairsUnique(rows: seq<SwapShifts>)
  {
    forall i, j :: 0 <= i < j < |rows| ==>
      rows[i].requesterShiftId != rows[j].requesterShiftId || rows[i].receiverShiftId != rows[j].receiverShiftId
  }

  lemma AppendKeepsPairsUnique(rows: seq<SwapShifts>, s: SwapShifts)
    requires PairsUnique(rows)
    requires forall x :: x in rows ==> x.requesterShiftId != s.requesterShiftId || x.receiverShiftId != s.receiverShiftId
    ensures PairsUnique(rows + [s])
  {
    forall i, j | 0 <= i < j < |rows| + 1
      ensures (rows + [s])[i].requesterShiftId != (rows + [s])[j].requesterShiftId
              || (rows + [s])[i].receiverShiftId != (rows + [s])[j].receiverShiftId
    {
      assert (rows + [s])[i] == rows[i] && rows[i] in rows;
    }
  }

  /** Stores a new swap and notifies its receiver. */
  method StoreSwap(swapRepo: ShiftSwapRepository, notes: NotificationRepository, swap: SwapShifts, activity: string)
    requires swapRepo.Valid() && !swapRepo.Has(swap.id)
    requires swapRepo.FindBothIds(swap.requesterShiftId, swap.receiverShiftId).None?
    modifies swapRepo, notes
    ensures swapRepo.Valid()
    ensures swapRepo.swaps == old(swapRepo.swaps) + [swap]
    ensures notes.notifications == old(notes.notifications) + [Notification(swap.receiverId, swap.requesterId, swap.id, SWAP, activity)]
    ensures old(PairsUnique(swapRepo.swaps)) ==> PairsUnique(swapRepo.swaps)
  {
    if PairsUnique(swapRepo.swaps) {
      AppendKeepsPairsUnique(swapRepo.swaps, swap);
    }
    var o := swapRepo.CreateSwap(swap);
    notes.CreateNotification(Notification(swap.receiverId, swap.requesterId, swap.id, SWAP, activity));
  }

  /** `requestSwap`; the store generates the swap id, here given and fresh.
      `activity` is the text of the request notification. */
  method RequestSwap(auth: AuthRepository, sched: ScheduleRepository, swapRepo: ShiftSwapRepository,
                     notes: NotificationRepository, userId: Id, companyId: Id, ownerPeriodId: Id, userPeriodId: Id,
                     clock: Clock, swapId: Id, activity: string)
    returns (r: Outcome)
    requires swapRepo.Valid() && !swapRepo.Has(swapId)
    modifies swapRepo, notes
    ensures swapRepo.Valid()
    ensures r == old(SwapCheck(Member(auth, userId, companyId), sched.FindUserSchedulePeriodById(ownerPeriodId),
                               sched.FindUserSchedulePeriodById(userPeriodId),
                               swapRepo.FindBothIds(ownerPeriodId, userPeriodId).Some?,
                               DemandOf(sched, sched.FindUserSchedulePeriodById(ownerPeriodId)),
                               DemandOf(sched, sched.FindUserSchedulePeriodById(userPeriodId)), userId, clock))
    ensures r.Fail? ==> unchanged(swapRepo, notes)
    ensures r.Pass? ==>
              var target := old(sched.FindUserSchedulePeriodById(userPeriodId)).value;
              swapRepo.swaps == old(swapRepo.swaps) + [NewSwap(swapId, target, userId, ownerPeriodId, userPeriodId, companyId)]
              && notes.notifications == old(notes.notifications) + [Notification(target.userId, userId, swapId, SWAP, activity)]
    ensures old(PairsUnique(swapRepo.swaps)) ==> PairsUnique(swapRepo.swaps)
  {
    var user := Member(auth, userId, companyId);
    var ownSchedule := sched.FindUserSchedulePeriodById(ownerPeriodId);
    var userSchedule := sched.FindUserSchedulePeriodById(userPeriodId);
    var checkIfExists := swapRepo.FindBothIds(ownerPeriodId, userPeriodId);
    r := SwapCheck(user, ownSchedule, userSchedule, checkIfExists.Some?,
                   DemandOf(sched, ownSchedule), DemandOf(sched, userSchedule), userId, clock);
    if r.Fail? {
      return;
    }
    StoreSwap(swapRepo, notes, NewSwap(swapId, userSchedule.value, userId, ownerPeriodId, userPeriodId, companyId),
              activity);
  }

  // ------------------------------------------------------------ viewing a swap

  /** Who may see a swap: an admin, or either party to it. */
  predicate SwapAccess(user: User, s: SwapShifts)
  {
    user.userType == ADMIN || s.receiverId == user.id || s.requesterId == user.id
  }

  /** The permission test of `viewSwapDetails` as written: a non-admin must
      be both the receiver and the requester. */
  predicate SwapAccessAsWritten(user: User, s: SwapShifts)
  {
    user.userType == ADMIN || (s.receiverId == user.id && s.requesterId == user.id)
  }

  /** The guards of `viewSwapDetails`, in order, with the permission `access`. */
  function ViewGuards(member: Result<User>, swap: Option<SwapShifts>, companyId: Id, access: bool): (r: Outcome)
    ensures member.Err? ==> r == Fail(member.error)
    ensures member.Ok? && swap.None? ==> r == Fail(SwapNotFound)
    ensures member.Ok? && swap.Some? && swap.value.companyId == companyId ==> (r == Fail(NoPermission) <==> !access)
    ensures r.Pass? <==> member.Ok? && swap.Some? && swap.value.companyId == companyId && access
  {
    if member.Err? then Fail(member.error)
    else if swap.None? then Fail(SwapNotFound)
    else if swap.value.companyId != companyId then Fail(SwapOfOtherCompany)
    else if !access then Fail(NoPermission)
    else Pass
  }

  /** As written, a non-admin party to a swap between two different users
      can never view it; with the intended test either party can. */
  lemma ViewAsWrittenRejectsParties(user: User, s: SwapShifts, companyId: Id)
    requires user.userType != ADMIN && s.receiverId != s.requesterId
    requires s.receiverId == user.id || s.requesterId == user.id
    requires s.companyId == companyId
    ensures ViewGuards(Ok(user), Some(s), companyId, SwapAccessAsWritten(user, s)) == Fail(NoPermission)
    ensures ViewGuards(Ok(user), Some(s), companyId, SwapAccess(user, s)) == Pass
  {
  }

  /** `viewSwapDetails`, with the permission test it evidently intends. */
  function ViewSwapDetails(auth: AuthRepository, sched: ScheduleRepository, swapRepo: ShiftSwapRepository,
                           userId: Id, companyId: Id, swapId: Id): (r: Result<SwapView>)
    reads auth, sched, swapRepo
    ensures Member(auth, userId, companyId).Err? ==> r == Err(Member(auth, userId, companyId).error)
    ensures Member(auth, userId, companyId).Ok? && swapRepo.FindById(swapId).Some?
            && swapRepo.FindById(swapId).value.companyId == companyId
            && !SwapAccess(Member(auth, userId, companyId).value, swapRepo.FindById(swapId).value) ==>
              r == Err(NoPermission)
    ensures r.Ok? ==>
              Member(auth, userId, companyId).Ok? && swapRepo.FindById(swapId).Some?
              && swapRepo.FindById(swapId).value.companyId == companyId
              && SwapAccess(Member(auth, userId, companyId).value, swapRepo.FindById(swapId).value)
              && r == SwapSchema(auth, sched, swapRepo.FindById(swapId).value) && r.value.id == swapId
  {
    var member := Member(auth, userId, companyId);
    var swap := swapRepo.FindById(swapId);
    match ViewGuards(member, swap, companyId, member.Ok? && swap.Some? && SwapAccess(member.value, swap.value))
    case Fail(e) => Err(e)
    case Pass => SwapSchema(auth, sched, swap.value)
  }

  // ------------------------------------------------------------ answering a swap

  /** The guards of `acceptOrRejectSwap`, in order. The two shifts are the
      relations the swap joins; foreign keys make them present. */
  function RespondGuards(member: Result<User>, swap: Option<SwapShifts>, requesterShift: Option<UserSchedulePeriod>,
                         receiverShift: Option<UserSchedulePeriod>, userId: Id, companyId: Id): (r: Outcome)
    ensures member.Err? ==> r == Fail(member.error)
    ensures member.Ok? && swap.None? ==> r == Fail(SwapNotFound)
    ensures member.Ok? && swap.Some? && swap.value.companyId == companyId ==>
              (r == Fail(NoPermission) <==> swap.value.receiverId != userId)
    ensures member.Ok? && swap.Some? && swap.value.companyId == companyId && swap.value.receiverId == userId ==>
              (r == Fail(SwapLocked) <==> swap.value.status != PENDING)
    ensures r.Pass? <==> member.Ok? && swap.Some? && swap.value.companyId == companyId
                         && swap.value.receiverId == userId && swap.value.status == PENDING
                         && requesterShift.Some? && receiverShift.Some?
  {
    if member.Err? then Fail(member.error)
    else if swap.None? then Fail(SwapNotFound)
    else if swap.value.companyId != companyId then Fail(SwapOfOtherCompany)
    else if swap.value.receiverId != userId then Fail(NoPermission)
    else if swap.value.status != PENDING then Fail(SwapLocked)
    else if requesterShift.None? || receiverShift.None? then Fail(MissingRelation)
    else Pass
  }

  /** The booking the requester gets: the receiver's slot, week and year. */
  function RequesterBooking(id: Id, s: SwapShifts, receiverShift: UserSchedulePeriod): (r: UserSchedulePeriod)
    ensures r.id == id && r.userId == s.requesterId && r.companyId == s.companyId && Live(r.deletedAt)
    ensures r.schedulePeriodId == receiverShift.schedulePeriodId
    ensures r.schedulePeriodDemandId == receiverShift.schedulePeriodDemandId
    ensures r.week == receiverShift.week && r.year == receiverShift.year
  {
    UserSchedulePeriod(id, s.requesterId, s.companyId, receiverShift.schedulePeriodId,
                       receiverShift.schedulePeriodDemandId, receiverShift.week, receiverShift.year, None)
  }

  /** The booking the receiver gets: the requester's slot, week and year. */
  function ReceiverBooking(id: Id, s: SwapShifts, requesterShift: UserSchedulePeriod): (r: UserSchedulePeriod)
    ensures r.id == id && r.userId == s.receiverId && r.companyId == s.companyId && Live(r.deletedAt)
    ensures r.schedulePeriodId == requesterShift.schedulePeriodId
    ensures r.schedulePeriodDemandId == requesterShift.schedulePeriodDemandId
    ensures r.week == requesterShift.week && r.year == requesterShift.year
  {
    UserSchedulePeriod(id, s.receiverId, s.companyId, requesterShift.schedulePeriodId,
                       requesterShift.schedulePeriodDemandId, requesterShift.week, requesterShift.year, None)
  }

  /** The bookings after an answer, as evidently intended: an approval
      retires both shifts and gives each party the other's slot; a denial
      leaves the bookings alone. */
  function SwapOutcome(rows: seq<UserSchedulePeriod>, s: SwapShifts, requesterShift: UserSchedulePeriod,
                       receiverShift: UserSchedulePeriod, approve: bool, now: int, requesterBookingId: Id,
                       receiverBookingId: Id): seq<UserSchedulePeriod>
  {
    if approve then
      PatchBookings(PatchBookings(rows, s.requesterShiftId, Some(now)), s.receiverShiftId, Some(now))
      + [RequesterBooking(requesterBookingId, s, receiverShift), ReceiverBooking(receiverBookingId, s, requesterShift)]
    else rows
  }

  predicate HasBookingId(rows: seq<UserSchedulePeriod>, id: Id)
  {
    exists b :: b in rows && b.id == id
  }

  /** The bookings after an answer as written, with the outcome of the
      writes: an approval retires the requester's shift, then updates the
      booking whose id is the requester's user id, which fails unless such a
      booking exists; both answers give the receiver the requester's slot. */
  function SwapOutcomeAsWritten(rows: seq<UserSchedulePeriod>, s: SwapShifts, requesterShift: UserSchedulePeriod,
                                receiverShift: UserSchedulePeriod, approve: bool, now: int, requesterBookingId: Id,
                                receiverBookingId: Id): (Outcome, seq<UserSchedulePeriod>)
  {
    if approve then
      if !HasBookingId(rows, s.requesterShiftId) then (Fail(RecordNotFound), rows)
      else
        var first := PatchBookings(rows, s.requesterShiftId, Some(now));
        if !HasBookingId(first, s.requesterId) then (Fail(RecordNotFound), first)
        else (Pass, PatchBookings(first, s.requesterId, Some(now))
                    + [RequesterBooking(requesterBookingId, s, receiverShift),
                       ReceiverBooking(receiverBookingId, s, requesterShift)])
    else (Pass, rows + [ReceiverBooking(receiverBookingId, s, requesterShift)])
  }

  /** An approved swap exchanges the parties' slots: both old shifts are
      retired, the requester holds the receiver's slot, the receiver holds
      the requester's, and no other booking changes. */
  lemma ApprovalExchangesShifts(rows: seq<UserSchedulePeriod>, s: SwapShifts, requesterShift: UserSchedulePeriod,
                                receiverShift: UserSchedulePeriod, now: int, requesterBookingId: Id,
                                receiverBookingId: Id)
    ensures var out := SwapOutcome(rows, s, requesterShift, receiverShift, true, now, requesterBookingId,
                                   receiverBookingId);
            |out| == |rows| + 2
            && (forall i :: 0 <= i < |rows| ==>
                  out[i].id == rows[i].id
                  && (rows[i].id == s.requesterShiftId || rows[i].id == s.receiverShiftId ==> !Live(out[i].deletedAt))
                  && (rows[i].id != s.requesterShiftId && rows[i].id != s.receiverShiftId ==> out[i] == rows[i]))
            && out[|rows|].userId == s.requesterId && Live(out[|rows|].deletedAt)
            && out[|rows|].schedulePeriodDemandId == receiverShift.schedulePeriodDemandId
            && out[|rows|].week == receiverShift.week && out[|rows|].year == receiverShift.year
            && out[|rows| + 1].userId == s.receiverId && Live(out[|rows| + 1].deletedAt)
            && out[|rows| + 1].schedulePeriodDemandId == requesterShift.schedulePeriodDemandId
            && out[|rows| + 1].week == requesterShift.week && out[|rows| + 1].year == requesterShift.year
  {
  }

  /** As written, a denied swap still books the receiver on the requester's
      slot; the intended denial changes no booking. */
  lemma DenialAsWrittenBooksReceiver(rows: seq<UserSchedulePeriod>, s: SwapShifts, requesterShift: UserSchedulePeriod,
                                     receiverShift: UserSchedulePeriod, now: int, requesterBookingId: Id,
                                     receiverBookingId: Id)
    ensures var w := SwapOutcomeAsWritten(rows, s, requesterShift, receiverShift, false, now, requesterBookingId,
                                          receiverBookingId);
            w.0 == Pass && |w.1| == |rows| + 1 && w.1[|rows|].userId == s.receiverId
            && w.1[|rows|].schedulePeriodDemandId == requesterShift.schedulePeriodDemandId
    ensures SwapOutcome(rows, s, requesterShift, receiverShift, false, now, requesterBookingId, receiverBookingId) == rows
  {
  }

  /** As written, approving a swap fails once the requester's shift is
      retired whenever no booking carries the requester's user id as its id,
      so nobody gets a new booking. */
  lemma ApprovalAsWrittenFails(rows: seq<UserSchedulePeriod>, s: SwapShifts, requesterShift: UserSchedulePeriod,
                               receiverShift: UserSchedulePeriod, now: int, requesterBookingId: Id,
                               receiverBookingId: Id)
    requires HasBookingId(rows, s.requesterShiftId)
    requires forall b :: b in rows ==> b.id != s.requesterId
    ensures SwapOutcomeAsWritten(rows, s, requesterShift, receiverShift, true, now, requesterBookingId,
                                 receiverBookingId)
            == (Fail(RecordNotFound), PatchBookings(rows, s.requesterShiftId, Some(now)))
  {
    var first := PatchBookings(rows, s.requesterShiftId, Some(now));
    forall b | b in first
      ensures b.id != s.requesterId
    {
      var k :| 0 <= k < |first| && first[k] == b;
      assert rows[k] in rows;
    }
  }

  /** A soft delete keeps every booking id. */
  lemma PatchKeepsIds(rows: seq<UserSchedulePeriod>, id: Id, deletedAt: Option<int>, x: Id)
    ensures HasBookingId(PatchBookings(rows, id, deletedAt), x) <==> HasBookingId(rows, x)
  {
    var out := PatchBookings(rows, id, deletedAt);
    if HasBookingId(rows, x) {
      var b :| b in rows && b.id == x;
      var k :| 0 <= k < |rows| && rows[k] == b;
      assert out[k] in out;
    }
    if HasBookingId(out, x) {
      var b :| b in out && b.id == x;
      var k :| 0 <= k < |out| && out[k] == b;
      assert rows[k] in rows;
    }
  }

  /** The writes of an answer, as evidently intended. */
  method ApplyAnswer(sched: ScheduleRepository, s: SwapShifts, requesterShift: UserSchedulePeriod,
                     receiverShift: UserSchedulePeriod, approve: bool, now: int, requesterBookingId: Id,
                     receiverBookingId: Id)
    requires sched.Valid() && sched.HasBooking(s.requesterShiftId) && sched.HasBooking(s.receiverShiftId)
    requires !sched.HasBooking(requesterBookingId) && !sched.HasBooking(receiverBookingId)
    requires requesterBookingId != receiverBookingId
    modifies sched
    ensures sched.Valid()
    ensures sched.bookings == SwapOutcome(old(sched.bookings), s, requesterShift, receiverShift, approve, now,
                                          requesterBookingId, receiverBookingId)
    ensures sched.periods == old(sched.periods) && sched.demands == old(sched.demands)
  {
    if approve {
      ghost var rows := sched.bookings;
      var o1 := sched.UpdateUserSchedulePeriod(s.requesterShiftId, Some(now));
      PatchKeepsIds(rows, s.requesterShiftId, Some(now), s.receiverShiftId);
      PatchKeepsIds(rows, s.requesterShiftId, Some(now), requesterBookingId);
      PatchKeepsIds(rows, s.requesterShiftId, Some(now), receiverBookingId);
      ghost var first := sched.bookings;
      var o2 := sched.UpdateUserSchedulePeriod(s.receiverShiftId, Some(now));
      PatchKeepsIds(first, s.receiverShiftId, Some(now), requesterBookingId);
      PatchKeepsIds(first, s.receiverShiftId, Some(now), receiverBookingId);
      var o3 := sched.CreateUserSchedule(RequesterBooking(requesterBookingId, s, receiverShift));
      var o4 := sched.CreateUserSchedule(ReceiverBooking(receiverBookingId, s, requesterShift));
    }
  }

  /** The writes of an answer: the swap's status, the bookings and the
      notification of the requester. */
  method RecordAnswer(sched: ScheduleRepository, swapRepo: ShiftSwapRepository, notes: NotificationRepository,
                      s: SwapShifts, requesterShift: UserSchedulePeriod, receiverShift: UserSchedulePeriod,
                      approve: bool, now: int, requesterBookingId: Id, receiverBookingId: Id, userId: Id,
                      activity: string)
    requires swapRepo.Valid() && swapRepo.Has(s.id)
    requires sched.Valid() && sched.HasBooking(s.requesterShiftId) && sched.HasBooking(s.receiverShiftId)
    requires !sched.HasBooking(requesterBookingId) && !sched.HasBooking(receiverBookingId)
    requires requesterBookingId != receiverBookingId
    modifies sched, swapRepo, notes
    ensures sched.Valid() && swapRepo.Valid()
    ensures swapRepo.swaps == PatchSwapStatus(old(swapRepo.swaps), s.id, if approve then APPROVED else DENIED)
    ensures sched.bookings == SwapOutcome(old(sched.bookings), s, requesterShift, receiverShift, approve, now,
                                          requesterBookingId, receiverBookingId)
    ensures sched.periods == old(sched.periods) && sched.demands == old(sched.demands)
    ensures notes.notifications == old(notes.notifications) + [Notification(s.requesterId, userId, s.id, SWAP, activity)]
  {
    var o := swapRepo.UpdateStatus(s.id, if approve then APPROVED else DENIED);
    ApplyAnswer(sched, s, requesterShift, receiverShift, approve, now, requesterBookingId, receiverBookingId);
    notes.CreateNotification(Notification(s.requesterId, userId, s.id, SWAP, activity));
  }

  /** After an answer the swap carries the new status for good: a second
      answer meets a swap that is no longer PENDING. */
  lemma AnswerSettlesSwap(rows: seq<SwapShifts>, id: Id, status: Status)
    ensures HasSwapId(rows, id) <==> HasSwapId(PatchSwapStatus(rows, id, status), id)
    ensures forall x :: x in PatchSwapStatus(rows, id, status) && x.id == id ==> x.status == status
  {
    var out := PatchSwapStatus(rows, id, status);
    forall x | x in out && x.id == id
      ensures x.status == status && HasSwapId(rows, id)
    {
      var k :| 0 <= k < |out| && out[k] == x;
      assert rows[k] in rows;
    }
    if HasSwapId(rows, id) {
      var x :| x in rows && x.id == id;
      var k :| 0 <= k < |rows| && rows[k] == x;
      assert out[k] in out;
    }
  }

  predicate HasSwapId(rows: seq<SwapShifts>, id: Id)
  {
    exists x :: x in rows && x.id == id
  }

  /** A shift a swap joins: the requester's when `ofRequester`, else the receiver's. */
  function JoinedShift(sched: ScheduleRepository, swap: Option<SwapShifts>, ofRequester: bool): Option<UserSchedulePeriod>
    reads sched
  {
    if swap.None? then None
    else sched.FindBookingById(if ofRequester then swap.value.requesterShiftId else swap.value.receiverShiftId)
  }

  /** `acceptOrRejectSwap`, with the writes it evidently intends, answering
      with the intended `viewSwapDetails` of the answered swap. The store
      generates the two booking ids, here given and fresh; `activity` is the
      text of the answer notification. */
  method AcceptOrRejectSwap(auth: AuthRepository, sched: ScheduleRepository, swapRepo: ShiftSwapRepository,
                            notes: NotificationRepository, userId: Id, companyId: Id, swapId: Id, userStatus: bool,
                            now: int, requesterBookingId: Id, receiverBookingId: Id, activity: string)
    returns (r: Result<SwapView>)
    requires sched.Valid() && swapRepo.Valid()
    requires !sched.HasBooking(requesterBookingId) && !sched.HasBooking(receiverBookingId)
    requires requesterBookingId != receiverBookingId
    modifies sched, swapRepo, notes
    ensures sched.Valid() && swapRepo.Valid()
    ensures var c := old(RespondGuards(Member(auth, userId, companyId), swapRepo.FindById(swapId),
                                       JoinedShift(sched, swapRepo.FindById(swapId), true),
                                       JoinedShift(sched, swapRepo.FindById(swapId), false), userId, companyId));
            c.Fail? ==> r == Err(c.error) && unchanged(sched, swapRepo, notes)
    ensures var c := old(RespondGuards(Member(auth, userId, companyId), swapRepo.FindById(swapId),
                                       JoinedShift(sched, swapRepo.FindById(swapId), true),
                                       JoinedShift(sched, swapRepo.FindById(swapId), false), userId, companyId));
            c.Pass? ==>
              var s := old(swapRepo.FindById(swapId)).value;
              swapRepo.swaps == PatchSwapStatus(old(swapRepo.swaps), swapId, if userStatus then APPROVED else DENIED)
              && sched.bookings == SwapOutcome(old(sched.bookings), s, old(sched.FindBookingById(s.requesterShiftId)).value,
                                               old(sched.FindBookingById(s.receiverShiftId)).value, userStatus, now,
                                               requesterBookingId, receiverBookingId)
              && sched.periods == old(sched.periods) && sched.demands == old(sched.demands)
              && notes.notifications == old(notes.notifications) + [Notification(s.requesterId, userId, s.id, SWAP, activity)]
              && r == ViewSwapDetails(auth, sched, swapRepo, userId, companyId, swapId)
    ensures var c := old(RespondGuards(Member(auth, userId, companyId), swapRepo.FindById(swapId),
                                       JoinedShift(sched, swapRepo.FindById(swapId), true),
                                       JoinedShift(sched, swapRepo.FindById(swapId), false), userId, companyId));
            c.Pass? ==> swapRepo.FindById(swapId).Some?
                        && swapRepo.FindById(swapId).value.status == if userStatus then APPROVED else DENIED
  {
    var user := Member(auth, userId, companyId);
    var swap := swapRepo.FindById(swapId);
    var requesterShift := JoinedShift(sched, swap, true);
    var receiverShift := JoinedShift(sched, swap, false);
    var check := RespondGuards(user, swap, requesterShift, receiverShift, userId, companyId);
    if check.Fail? {
      return Err(check.error);
    }
    RecordAnswer(sched, swapRepo, notes, swap.value, requesterShift.value, receiverShift.value, userStatus, now,
                 requesterBookingId, receiverBookingId, userId, activity);
    AnswerSettlesSwap(old(swapRepo.swaps), swapId, if userStatus then APPROVED else DENIED);
    r := ViewSwapDetails(auth, sched, swapRepo, userId, companyId, swapId);
  }

  // ------------------------------------------------------------ listing swaps

  /** The first failure among the schemas of `rows`, in order. */
  function SchemasCheck(auth: AuthRepository, sched: ScheduleRepository, rows: seq<SwapShifts>): Outcome
    reads auth, sched
    decreases |rows|
  {
    if rows == [] then Pass
    else match SwapSchema(auth, sched, rows[0])
      case Err(e) => Fail(e)
      case Ok(_) => SchemasCheck(auth, sched, rows[1..])
  }

  /** `getUserSwaps` lists the requests the user sent unless `status` is a
      non-empty string other than "sent". */
  predicate ListsSent(status: Option<string>)
  {
    !Present(status) || status.value == "sent"
  }

  function ListedSwaps(swapRepo: ShiftSwapRepository, userId: Id, q: Query, status: Option<string>)
    : (r: seq<SwapShifts>)
    reads swapRepo
    ensures |r| <= LimitOf(q)
    ensures forall x :: x in r ==> x in swapRepo.swaps
                                   && (if ListsSent(status) then x.requesterId == userId else x.receiverId == userId)
  {
    if ListsSent(status) then swapRepo.FindUserSentSwaps(userId, LimitOf(q), SkipOf(q))
    else swapRepo.FindUserReceivedSwaps(userId, LimitOf(q), SkipOf(q))
  }

  /** `getUserSwaps`: one page of the user's sent or received swaps, failing
      on the first swap whose schema fails; the page holds the swap rows
      themselves and counts only itself. */
  function UserSwapsPage(auth: AuthRepository, sched: ScheduleRepository, swapRepo: ShiftSwapRepository, userId: Id,
                         companyId: Id, q: Query, status: Option<string>): (r: Result<Page<SwapShifts>>)
    reads auth, sched, swapRepo
    ensures Member(auth, userId, companyId).Err? ==> r == Err(Member(auth, userId, companyId).error)
    ensures r.Ok? <==> Member(auth, userId, companyId).Ok?
                       && SchemasCheck(auth, sched, ListedSwaps(swapRepo, userId, q, status)) == Pass
    ensures Member(auth, userId, companyId).Ok? && SchemasCheck(auth, sched, ListedSwaps(swapRepo, userId, q, status)).Fail?
            ==> r == Err(SchemasCheck(auth, sched, ListedSwaps(swapRepo, userId, q, status)).error)
    ensures r.Ok? ==>
              r.value.data == ListedSwaps(swapRepo, userId, q, status)
              && r.value.currentpage == PageOf(q) && r.value.nextpage.None?
              && SchemasCheck(auth, sched, r.value.data) == Pass
  {
    match Member(auth, userId, companyId)
    case Err(e) => Err(e)
    case Ok(_) =>
      var rows := ListedSwaps(swapRepo, userId, q, status);
      match SchemasCheck(auth, sched, rows)
      case Fail(e) => Err(e)
      case Pass =>
        PageOfOwnLengthIsLast(rows, PageOf(q), LimitOf(q));
        Ok(Paginate(rows, PageOf(q), LimitOf(q), |rows|))
  }

  /** One step of `SchemasCheck` from position `k`. */
  lemma SchemasCheckAt(auth: AuthRepository, sched: ScheduleRepository, rows: seq<SwapShifts>, k: nat)
    requires k < |rows|
    ensures SwapSchema(auth, sched, rows[k]).Err? ==>
              SchemasCheck(auth, sched, rows[k..]) == Fail(SwapSchema(auth, sched, rows[k]).error)
    ensures SwapSchema(auth, sched, rows[k]).Ok? ==>
              SchemasCheck(auth, sched, rows[k..]) == SchemasCheck(auth, sched, rows[k + 1..])
  {
    assert rows[k..][0] == rows[k] && rows[k..][1..] == rows[k + 1..];
  }

  lemma ValidViewsGrow(auth: AuthRepository, sched: ScheduleRepository, swaps: seq<SwapShifts>, data: seq<SwapView>,
                       v: SwapView, k: nat)
    requires k < |swaps| && |data| == k && Ok(v) == SwapSchema(auth, sched, swaps[k])
    requires forall i :: 0 <= i < k ==> Ok(data[i]) == SwapSchema(auth, sched, swaps[i])
    ensures forall i :: 0 <= i < k + 1 ==> Ok((data + [v])[i]) == SwapSchema(auth, sched, swaps[i])
  {
    forall i | 0 <= i < k + 1
      ensures Ok((data + [v])[i]) == SwapSchema(auth, sched, swaps[i])
    {
      if i < k {
        assert (data + [v])[i] == data[i];
      }
    }
  }

  /** The loop of `getUserSwaps` pushing the schema of each swap into `data`. */
  method BuildSchemas(auth: AuthRepository, sched: ScheduleRepository, swaps: seq<SwapShifts>)
    returns (r: Outcome, data: seq<SwapView>)
    ensures r == SchemasCheck(auth, sched, swaps)
    ensures r.Pass? ==> |data| == |swaps| && forall i :: 0 <= i < |swaps| ==> Ok(data[i]) == SwapSchema(auth, sched, swaps[i])
  {
    data := [];
    var k := 0;
    while k < |swaps|
      invariant 0 <= k <= |swaps| && |data| == k
      invariant forall i :: 0 <= i < k ==> Ok(data[i]) == SwapSchema(auth, sched, swaps[i])
      invariant SchemasCheck(auth, sched, swaps) == SchemasCheck(auth, sched, swaps[k..])
    {
      SchemasCheckAt(auth, sched, swaps, k);
      var view := SwapSchema(auth, sched, swaps[k]);
      if view.Err? {
        return Fail(view.error), data;
      }
      ValidViewsGrow(auth, sched, swaps, data, view.value, k);
      data := data + [view.value];
      k := k + 1;
    }
    return Pass, data;
  }

  /** `getUserSwaps`. */
  method GetUserSwaps(auth: AuthRepository, sched: ScheduleRepository, swapRepo: ShiftSwapRepository, userId: Id,
                      companyId: Id, q: Query, status: Option<string>)
    returns (r: Result<Page<SwapShifts>>)
    ensures r == UserSwapsPage(auth, sched, swapRepo, userId, companyId, q, status)
  {
    var user := Member(auth, userId, companyId);
    if user.Err? {
      return Err(user.error);
    }
    var swaps := ListedSwaps(swapRepo, userId, q, status);
    var check, data := BuildSchemas(auth, sched, swaps);
    if check.Fail? {
      return Err(check.error);
    }
    PageOfOwnLengthIsLast(swaps, PageOf(q), LimitOf(q));
    r := Ok(Paginate(swaps, PageOf(q), LimitOf(q), |swaps|));
  }
}
