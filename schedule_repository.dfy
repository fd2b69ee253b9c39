/** `ScheduleRepository` of `src/modules/schedule/repository/ScheduleRepository.ts`
    as an in-memory store: three tables of records and the rows each query
    returns. */
module ScheduleRepo {
  import opened Wrappers
  import opened Seqs
  import opened Pagination
  import opened Entities

  /** The fields `updateSchedulePeriod` is called with. */
  datatype PeriodPatch = PeriodPatch(published: Option<bool>, deletedAt: Option<Option<int>>)

  /** A period with the rows its `include` joins: every demand and every
      booking of the period, whatever their deletion state. */
  datatype FullPeriod = FullPeriod(period: SchedulePeriod, demands: seq<SchedulePeriodDemand>,
                                   bookings: seq<UserSchedulePeriod>)

  /** A demand with every booking of it and its period. */
  datatype DemandDetails = DemandDetails(demand: SchedulePeriodDemand, bookings: seq<UserSchedulePeriod>,
                                         period: Option<SchedulePeriod>)

  /** The live bookings of a demand among `rows`, in their stored order. */
  function LiveOfDemand(rows: seq<UserSchedulePeriod>, demandId: Id): (r: seq<UserSchedulePeriod>)
    ensures |r| <= |rows|
    ensures forall b :: b in r <==> b in rows && b.schedulePeriodDemandId == demandId && Live(b.deletedAt)
  {
    if rows == [] then []
    else
      var rest := LiveOfDemand(rows[1..], demandId);
      if rows[0].schedulePeriodDemandId == demandId && Live(rows[0].deletedAt) then [rows[0]] + rest else rest
  }

  function ApplyPeriodPatch(p: PeriodPatch, row: SchedulePeriod): (r: SchedulePeriod)
    ensures r.id == row.id && r.companyId == row.companyId && r.createdAt == row.createdAt
    ensures r.periodName == row.periodName && r.repeat == row.repeat
    ensures r.published == Patch(p.published, row.published)
    ensures r.deletedAt == Patch(p.deletedAt, row.deletedAt)
  {
    row.(published := Patch(p.published, row.published), deletedAt := Patch(p.deletedAt, row.deletedAt))
  }

  /** The table after `update({ where: { id }, data })`: the row with that id
      is patched, every other row is kept as it was. */
  function PatchPeriods(rows: seq<SchedulePeriod>, id: Id, p: PeriodPatch): (r: seq<SchedulePeriod>)
    ensures |r| == |rows|
    ensures forall i :: 0 <= i < |r| ==> r[i] == if rows[i].id == id then ApplyPeriodPatch(p, rows[i]) else rows[i]
  {
    seq(|rows|, i requires 0 <= i < |rows| => if rows[i].id == id then ApplyPeriodPatch(p, rows[i]) else rows[i])
  }

  function PatchBookings(rows: seq<UserSchedulePeriod>, id: Id, deletedAt: Option<int>): (r: seq<UserSchedulePeriod>)
    ensures |r| == |rows|
    ensures forall i :: 0 <= i < |r| ==> r[i] == if rows[i].id == id then rows[i].(deletedAt := deletedAt) else rows[i]
  {
    seq(|rows|, i requires 0 <= i < |rows| => if rows[i].id == id then rows[i].(deletedAt := deletedAt) else rows[i])
  }

  /** The demands of a period, in stored order. */
  function DemandsOfPeriod(rows: seq<SchedulePeriodDemand>, periodId: Id): (r: seq<SchedulePeriodDemand>)
    ensures forall d :: d in r <==> d in rows && d.schedulePeriodId == periodId
  {
    Filter(rows, (d: SchedulePeriodDemand) => d.schedulePeriodId == periodId)
  }

  /** The first live published period of a company. */
  function FirstPublished(rows: seq<SchedulePeriod>, companyId: Id): (r: Option<SchedulePeriod>)
    ensures r.Some? <==> exists p :: p in rows && p.companyId == companyId && p.published && Live(p.deletedAt)
    ensures r.Some? ==> r.value in rows && r.value.companyId == companyId && r.value.published
                        && Live(r.value.deletedAt)
  {
    Find(rows, (p: SchedulePeriod) => p.companyId == companyId && p.published && Live(p.deletedAt))
  }

  /** The independent `week >= w` and `year >= y` filters of the upcoming
      queries, on a live booking. */
  predicate Upcoming(b: UserSchedulePeriod, week: int, year: int)
  {
    Live(b.deletedAt) && b.week >= week && b.year >= year
  }

  /** The filters are applied one by one, so a booking early in a later year
      is not upcoming once the current week number is past it. */
  lemma UpcomingMissesEarlyWeeksOfLaterYears(b: UserSchedulePeriod, week: int, year: int)
    requires Live(b.deletedAt) && b.year > year
    ensures Upcoming(b, week, year) <==> b.week >= week
  {
  }

  class ScheduleRepository {
    var periods: seq<SchedulePeriod>
    var demands: seq<SchedulePeriodDemand>
    var bookings: seq<UserSchedulePeriod>

    /** Primary keys are unique in each table. */
    predicate Valid()
      reads this
    {
      (forall i, j :: 0 <= i < j < |periods| ==> periods[i].id != periods[j].id) &&
      (forall i, j :: 0 <= i < j < |demands| ==> demands[i].id != demands[j].id) &&
      (forall i, j :: 0 <= i < j < |bookings| ==> bookings[i].id != bookings[j].id)
    }

    constructor ()
      ensures Valid()
      ensures periods == [] && demands == [] && bookings == []
    {
      periods, demands, bookings := [], [], [];
    }

    predicate HasPeriod(id: Id) reads this { exists p :: p in periods && p.id == id }
    predicate HasDemand(id: Id) reads this { exists d :: d in demands && d.id == id }
    predicate HasBooking(id: Id) reads this { exists b :: b in bookings && b.id == id }

    // ------------------------------------------------------------ creation

    /** `createSchedulePeriod`. */
    method CreateSchedulePeriod(row: SchedulePeriod) returns (r: Outcome)
      requires Valid()
      modifies this
      ensures Valid()
      ensures old(HasPeriod(row.id)) ==> r == Fail(DuplicateKey) && unchanged(this)
      ensures !old(HasPeriod(row.id)) ==> r == Pass && periods == old(periods) + [row]
                                          && demands == old(demands) && bookings == old(bookings)
    {
      if HasPeriod(row.id) {
        return Fail(DuplicateKey);
      }
      periods := periods + [row];
      return Pass;
    }

    /** `createSchedulePeriodDemand`. */
    method CreateSchedulePeriodDemand(row: SchedulePeriodDemand) returns (r: Outcome)
      requires Valid()
      modifies this
      ensures Valid()
      ensures old(HasDemand(row.id)) ==> r == Fail(DuplicateKey) && unchanged(this)
      ensures !old(HasDemand(row.id)) ==> r == Pass && demands == old(demands) + [row]
                                          && periods == old(periods) && bookings == old(bookings)
    {
      if HasDemand(row.id) {
        return Fail(DuplicateKey);
      }
      demands := demands + [row];
      return Pass;
    }

    /** `createUserSchedule`. */
    method CreateUserSchedule(row: UserSchedulePeriod) returns (r: Outcome)
      requires Valid()
      modifies this
      ensures Valid()
      ensures old(HasBooking(row.id)) ==> r == Fail(DuplicateKey) && unchanged(this)
      ensures !old(HasBooking(row.id)) ==> r == Pass && bookings == old(bookings) + [row]
                                           && periods == old(periods) && demands == old(demands)
    {
      if HasBooking(row.id) {
        return Fail(DuplicateKey);
      }
      bookings := bookings + [row];
      return Pass;
    }

    // ------------------------------------------------------------ updates

    /** `updateSchedulePeriod(id, body)`: only the given fields of the row
        with that id change. */
    method UpdateSchedulePeriod(id: Id, patch: PeriodPatch) returns (r: Outcome)
      requires Valid()
      modifies this
      ensures Valid()
      ensures !old(HasPeriod(id)) ==> r == Fail(RecordNotFound) && unchanged(this)
      ensures old(HasPeriod(id)) ==> r == Pass && periods == PatchPeriods(old(periods), id, patch)
                                     && demands == old(demands) && bookings == old(bookings)
    {
      if !HasPeriod(id) {
        return Fail(RecordNotFound);
      }
      periods := PatchPeriods(periods, id, patch);
      return Pass;
    }

    /** `updateUserSchedulePeriod(id, { deletedAt })`. */
    method UpdateUserSchedulePeriod(id: Id, deletedAt: Option<int>) returns (r: Outcome)
      requires Valid()
      modifies this
      ensures Valid()
      ensures !old(HasBooking(id)) ==> r == Fail(RecordNotFound) && unchanged(this)
      ensures old(HasBooking(id)) ==> r == Pass && bookings == PatchBookings(old(bookings), id, deletedAt)
                                      && periods == old(periods) && demands == old(demands)
    {
      if !HasBooking(id) {
        return Fail(RecordNotFound);
      }
      bookings := PatchBookings(bookings, id, deletedAt);
      return Pass;
    }

    // ------------------------------------------------------------ periods

    function DemandsOf(periodId: Id): (r: seq<SchedulePeriodDemand>)
      reads this
      ensures r == DemandsOfPeriod(demands, periodId)
      ensures forall d :: d in r <==> d in demands && d.schedulePeriodId == periodId
    {
      DemandsOfPeriod(demands, periodId)
    }

    function BookingsOfPeriod(periodId: Id): (r: seq<UserSchedulePeriod>)
      reads this
      ensures forall b :: b in r <==> b in bookings && b.schedulePeriodId == periodId
    {
      Filter(bookings, (b: UserSchedulePeriod) => b.schedulePeriodId == periodId)
    }

    function Full(p: SchedulePeriod): (r: FullPeriod)
      reads this
      ensures r.period == p && r.demands == DemandsOf(p.id) && r.bookings == BookingsOfPeriod(p.id)
    {
      FullPeriod(p, DemandsOf(p.id), BookingsOfPeriod(p.id))
    }

    /** `findSchedulePeriodById`: the live period with that id, with all its
        demands and bookings. */
    function FindSchedulePeriodById(id: Id): (r: Option<FullPeriod>)
      reads this
      ensures r.Some? <==> exists p :: p in periods && p.id == id && Live(p.deletedAt)
      ensures r.Some? ==> r.value.period in periods && r.value.period.id == id && Live(r.value.period.deletedAt)
      ensures r.Some? ==> r.value == Full(r.value.period)
    {
      match Find(periods, (p: SchedulePeriod) => p.id == id && Live(p.deletedAt))
      case None => None
      case Some(p) => Some(Full(p))
    }

    /** The live periods of a company, only the published ones when asked. */
    function CompanyPeriods(companyId: Id, publishedOnly: bool): (r: seq<SchedulePeriod>)
      reads this
      ensures forall p :: p in r <==> p in periods && p.companyId == companyId && Live(p.deletedAt)
                                      && (publishedOnly ==> p.published)
    {
      Filter(periods, (p: SchedulePeriod) => p.companyId == companyId && Live(p.deletedAt) && (publishedOnly ==> p.published))
    }

    function FullAll(ps: seq<SchedulePeriod>): (r: seq<FullPeriod>)
      reads this
      ensures |r| == |ps| && forall i :: 0 <= i < |r| ==> r[i] == Full(ps[i])
    {
      seq(|ps|, i reads this requires 0 <= i < |ps| => Full(ps[i]))
    }

    /** `getAllCompanySchedule(companyId, take, skip)`: one page of the
        company's live, published periods. */
    function GetAllCompanySchedule(companyId: Id, take: nat, skip: nat): (r: seq<FullPeriod>)
      reads this
      ensures |r| <= take
      ensures |r| > 0 ==> skip + |r| <= |CompanyPeriods(companyId, true)|
      ensures skip <= |CompanyPeriods(companyId, true)| ==> |r| == if |CompanyPeriods(companyId, true)| - skip < take then |CompanyPeriods(companyId, true)| - skip else take
      ensures skip >= |CompanyPeriods(companyId, true)| ==> r == []
      ensures forall i :: 0 <= i < |r| ==> r[i] == Full(CompanyPeriods(companyId, true)[skip + i])
      ensures forall i :: 0 <= i < |r| ==>
                r[i].period in periods && r[i].period.companyId == companyId && r[i].period.published
                && Live(r[i].period.deletedAt)
    {
      var ps := CompanyPeriods(companyId, true);
      var w := Window(ps, take, skip);
      assert forall i :: 0 <= i < |w| ==> w[i] in ps;
      FullAll(w)
    }

    /** `getAllAdminCompanySchedule(companyId, take, skip)`: one page of the
        company's live periods, published or not. */
    function GetAllAdminCompanySchedule(companyId: Id, take: nat, skip: nat): (r: seq<FullPeriod>)
      reads this
      ensures |r| <= take
      ensures |r| > 0 ==> skip + |r| <= |CompanyPeriods(companyId, false)|
      ensures skip <= |CompanyPeriods(companyId, false)| ==> |r| == if |CompanyPeriods(companyId, false)| - skip < take then |CompanyPeriods(companyId, false)| - skip else take
      ensures skip >= |CompanyPeriods(companyId, false)| ==> r == []
      ensures forall i :: 0 <= i < |r| ==> r[i] == Full(CompanyPeriods(companyId, false)[skip + i])
      ensures forall i :: 0 <= i < |r| ==>
                r[i].period in periods && r[i].period.companyId == companyId && Live(r[i].period.deletedAt)
    {
      var ps := CompanyPeriods(companyId, false);
      var w := Window(ps, take, skip);
      assert forall i :: 0 <= i < |w| ==> w[i] in ps;
      FullAll(w)
    }

    /** The employee listing holds exactly the published periods of the admin listing. */
    lemma PublishedListing(companyId: Id)
      ensures forall p :: p in CompanyPeriods(companyId, true) <==> p in CompanyPeriods(companyId, false) && p.published
    {
    }

    /** `getCompanyPublishedSchedule(companyId)`: the first live published
        period of the company, or nothing when there is none. */
    function GetCompanyPublishedSchedule(companyId: Id): (r: Option<SchedulePeriod>)
      reads this
      ensures r.Some? <==> exists p :: p in periods && p.companyId == companyId && p.published && Live(p.deletedAt)
      ensures r.Some? ==> r.value in periods && r.value.companyId == companyId && r.value.published
                          && Live(r.value.deletedAt)
      ensures r == FirstPublished(periods, companyId)
    {
      FirstPublished(periods, companyId)
    }

    // ------------------------------------------------------------ demands

    /** Every booking of a demand, soft-deleted or not, for every week. */
    function BookingsOfDemand(demandId: Id): (r: seq<UserSchedulePeriod>)
      reads this
      ensures forall b :: b in r <==> b in bookings && b.schedulePeriodDemandId == demandId
    {
      Filter(bookings, (b: UserSchedulePeriod) => b.schedulePeriodDemandId == demandId)
    }

    /** `findSchedulePeriodDemandById`: a live demand with all its bookings
        (deleted ones and other weeks included) and its period. */
    function FindSchedulePeriodDemandById(id: Id): (r: Option<DemandDetails>)
      reads this
      ensures r.Some? <==> exists d :: d in demands && d.id == id && Live(d.deletedAt)
      ensures r.Some? ==> r.value.demand in demands && r.value.demand.id == id && Live(r.value.demand.deletedAt)
      ensures r.Some? ==> r.value.bookings == BookingsOfDemand(id)
      ensures r.Some? ==> r.value.period == Find(periods, (p: SchedulePeriod) => p.id == r.value.demand.schedulePeriodId)
    {
      match Find(demands, (d: SchedulePeriodDemand) => d.id == id && Live(d.deletedAt))
      case None => None
      case Some(d) =>
        Some(DemandDetails(d, BookingsOfDemand(id), Find(periods, (p: SchedulePeriod) => p.id == d.schedulePeriodId)))
    }

    /** `findUsersBySchedulePeriodDemandId`: the live bookings of a demand. */
    function FindUsersBySchedulePeriodDemandId(demandId: Id): (r: seq<UserSchedulePeriod>)
      reads this
      ensures forall b :: b in r <==> b in bookings && b.schedulePeriodDemandId == demandId && Live(b.deletedAt)
    {
      LiveOfDemand(bookings, demandId)
    }

    /** The live bookings of a demand are those of its full booking list
        without the soft-deleted ones. */
    lemma LiveBookingsOfDemand(demandId: Id)
      ensures forall b :: b in FindUsersBySchedulePeriodDemandId(demandId)
                          <==> b in BookingsOfDemand(demandId) && Live(b.deletedAt)
    {
    }

    // ------------------------------------------------------------ bookings

    /** `findUserSchedulePeriodById`: the live booking with that id. */
    function FindUserSchedulePeriodById(id: Id): (r: Option<UserSchedulePeriod>)
      reads this
      ensures r.Some? <==> exists b :: b in bookings && b.id == id && Live(b.deletedAt)
      ensures r.Some? ==> r.value in bookings && r.value.id == id && Live(r.value.deletedAt)
    {
      Find(bookings, (b: UserSchedulePeriod) => b.id == id && Live(b.deletedAt))
    }

    /** A booking by id, whatever its deletion state, as a relation joins it. */
    function FindBookingById(id: Id): (r: Option<UserSchedulePeriod>)
      reads this
      ensures r.Some? <==> HasBooking(id)
      ensures r.Some? ==> r.value in bookings && r.value.id == id
    {
      Find(bookings, (b: UserSchedulePeriod) => b.id == id)
    }

    /** `findAllUserSchedule(userId)`. */
    function FindAllUserSchedule(userId: Id): (r: seq<UserSchedulePeriod>)
      reads this
      ensures forall b :: b in r <==> b in bookings && b.userId == userId && Live(b.deletedAt)
    {
      Filter(bookings, (b: UserSchedulePeriod) => b.userId == userId && Live(b.deletedAt))
    }

    /** `countAllSchedules(companyId)`: the number of live bookings of a company. */
    function CountAllSchedules(companyId: Id): (r: nat)
      reads this
      ensures r <= |bookings|
      ensures r == |Filter(bookings, (b: UserSchedulePeriod) => b.companyId == companyId && Live(b.deletedAt))|
    {
      |Filter(bookings, (b: UserSchedulePeriod) => b.companyId == companyId && Live(b.deletedAt))|
    }

    /** `findUserScheduleInScheduleDemand(userId, demandId)`. */
    function FindUserScheduleInScheduleDemand(userId: Id, demandId: Id): (r: Option<UserSchedulePeriod>)
      reads this
      ensures r.Some? <==> exists b :: b in bookings && b.userId == userId && b.schedulePeriodDemandId == demandId
                                       && Live(b.deletedAt)
      ensures r.Some? ==> r.value in bookings && r.value.userId == userId
                          && r.value.schedulePeriodDemandId == demandId && Live(r.value.deletedAt)
    {
      Find(bookings, (b: UserSchedulePeriod) => b.userId == userId && b.schedulePeriodDemandId == demandId && Live(b.deletedAt))
    }

    /** The company's upcoming bookings, unpaged. */
    function UpcomingCompanyShifts(companyId: Id, week: int, year: int): (r: seq<UserSchedulePeriod>)
      reads this
      ensures forall b :: b in r <==> b in bookings && b.companyId == companyId && Upcoming(b, week, year)
    {
      Filter(bookings, (b: UserSchedulePeriod) => b.companyId == companyId && Upcoming(b, week, year))
    }

    /** `getAllUpcomingCompanyShifts(companyId, week, year, take, skip)`. */
    function GetAllUpcomingCompanyShifts(companyId: Id, week: int, year: int, take: nat, skip: nat)
      : (r: seq<UserSchedulePeriod>)
      reads this
      ensures |r| <= take
      ensures |r| > 0 ==> skip + |r| <= |UpcomingCompanyShifts(companyId, week, year)|
      ensures skip <= |UpcomingCompanyShifts(companyId, week, year)| ==> |r| == if |UpcomingCompanyShifts(companyId, week, year)| - skip < take then |UpcomingCompanyShifts(companyId, week, year)| - skip else take
      ensures skip >= |UpcomingCompanyShifts(companyId, week, year)| ==> r == []
      ensures forall i :: 0 <= i < |r| ==> r[i] == UpcomingCompanyShifts(companyId, week, year)[skip + i]
      ensures forall b :: b in r ==> b in bookings && b.companyId == companyId && Upcoming(b, week, year)
    {
      var all := UpcomingCompanyShifts(companyId, week, year);
      var w := Window(all, take, skip);
      assert forall b :: b in w ==> b in all;
      w
    }

    /** The user's upcoming bookings, unpaged. */
    function UpcomingUserShifts(userId: Id, week: int, year: int): (r: seq<UserSchedulePeriod>)
      reads this
      ensures forall b :: b in r <==> b in bookings && b.userId == userId && Upcoming(b, week, year)
    {
      Filter(bookings, (b: UserSchedulePeriod) => b.userId == userId && Upcoming(b, week, year))
    }

    /** `findUpcomingUserSchedule(userId, week, year, take, skip)`. */
    function FindUpcomingUserSchedule(userId: Id, week: int, year: int, take: nat, skip: nat)
      : (r: seq<UserSchedulePeriod>)
      reads this
      ensures |r| <= take
      ensures |r| > 0 ==> skip + |r| <= |UpcomingUserShifts(userId, week, year)|
      ensures skip <= |UpcomingUserShifts(userId, week, year)| ==> |r| == if |UpcomingUserShifts(userId, week, year)| - skip < take then |UpcomingUserShifts(userId, week, year)| - skip else take
      ensures skip >= |UpcomingUserShifts(userId, week, year)| ==> r == []
      ensures forall i :: 0 <= i < |r| ==> r[i] == UpcomingUserShifts(userId, week, year)[skip + i]
      ensures forall b :: b in r ==> b in bookings && b.userId == userId && Upcoming(b, week, year)
    {
      var all := UpcomingUserShifts(userId, week, year);
      var w := Window(all, take, skip);
      assert forall b :: b in w ==> b in all;
      w
    }
  }
}
