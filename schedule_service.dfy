/** `ScheduleService` of `src/modules/schedule/services/ScheduleService.ts`:
    creating a schedule template with its slots, publishing one template per
    company, soft deletion, the paged listings, and the week view of a
    template with the bookings of each slot. */
module ScheduleService {
  import opened Wrappers
  import opened Js
  import opened Seqs
  import opened Pagination
  import opened Entities
  import opened FormatDate
  import opened ScheduleRepo
  import opened UserRepo
  import opened DaySort

  const InvalidCredentials := Error(NotFound, "Invalid credentials")
  const ScheduleNotFound := Error(NotFound, "Schedule not found")
  const StatusIsSame := Error(BadRequest, "Status is same")

  /** The acting user, looked up first, then the company of the request. */
  function Credentials(auth: AuthRepository, companies: CompanyRepository, userId: Id, companyId: Id)
    : (r: Result<User>)
    reads auth, companies
    ensures r.Ok? <==> auth.FindUserByIdOrThrow(userId).Ok? && companies.Has(companyId)
    ensures r.Ok? ==> r.value in auth.users && r.value.id == userId && Live(r.value.deletedAt)
    ensures auth.FindUserByIdOrThrow(userId).Err? ==> r == Err(UserNotFound)
    ensures auth.FindUserByIdOrThrow(userId).Ok? && !companies.Has(companyId) ==> r == Err(InvalidCredentials)
  {
    match auth.FindUserByIdOrThrow(userId)
    case Err(e) => Err(e)
    case Ok(u) => if companies.FindCompanyById(companyId).None? then Err(InvalidCredentials) else Ok(u)
  }

  // ------------------------------------------------------------ creation

  datatype Slot = Slot(time: string, startTime: string, endTime: string, userCount: int)
  datatype DayAvailability = DayAvailability(day: DayOfWeek, data: seq<Slot>)
  datatype CreateScheduleRequest = CreateScheduleRequest(title: string, repeat: bool, maxHoursBefore: int,
                                                         maxHoursAfter: int, availability: seq<DayAvailability>)

  /** The (day, slot) entries of one day of the request. */
  function SlotsOf(a: DayAvailability): (r: seq<(DayOfWeek, Slot)>)
    ensures |r| == |a.data|
    ensures forall i :: 0 <= i < |r| ==> r[i] == (a.day, a.data[i])
  {
    seq(|a.data|, i requires 0 <= i < |a.data| => (a.day, a.data[i]))
  }

  /** Every (day, slot) entry of the request, day by day in request order. */
  function Entries(av: seq<DayAvailability>): seq<(DayOfWeek, Slot)>
  {
    if av == [] then [] else SlotsOf(av[0]) + Entries(av[1..])
  }

  lemma {:induction false} EntriesAppend(a: seq<DayAvailability>, b: seq<DayAvailability>)
    ensures Entries(a + b) == Entries(a) + Entries(b)
  {
    if a != [] {
      assert (a + b)[1..] == a[1..] + b;
      EntriesAppend(a[1..], b);
    } else {
      assert a + b == b;
    }
  }

  lemma EntriesSplit(av: seq<DayAvailability>, i: nat)
    requires i < |av|
    ensures Entries(av[..i + 1]) == Entries(av[..i]) + SlotsOf(av[i])
    ensures |Entries(av[..i])| + |SlotsOf(av[i])| <= |Entries(av)|
  {
    assert av[..i + 1] == av[..i] + [av[i]];
    EntriesAppend(av[..i], [av[i]]);
    assert Entries([av[i]]) == SlotsOf(av[i]) + Entries([]);
    assert av == av[..i + 1] + av[i + 1..];
    EntriesAppend(av[..i + 1], av[i + 1..]);
  }

  /** The slot row `createSchedulePeriodDemand` stores for one entry. */
  function DemandRow(id: Id, periodId: Id, e: (DayOfWeek, Slot)): (r: SchedulePeriodDemand)
    ensures r.id == id && r.schedulePeriodId == periodId && Live(r.deletedAt)
    ensures r.weekDay == e.0 && r.workerQuantity == e.1.userCount && r.timeFrame == e.1.time
    ensures r.startTime == e.1.startTime && r.endTime == e.1.endTime
  {
    SchedulePeriodDemand(id, periodId, e.1.time, e.0, e.1.userCount, e.1.startTime, e.1.endTime, None)
  }

  /** The slot rows for the entries `es`, the `i`-th with id `ids[i]`. */
  function DemandRows(periodId: Id, es: seq<(DayOfWeek, Slot)>, ids: seq<Id>): (r: seq<SchedulePeriodDemand>)
    requires |ids| == |es|
    ensures |r| == |es|
    decreases |es|
  {
    if es == [] then [] else [DemandRow(ids[0], periodId, es[0])] + DemandRows(periodId, es[1..], ids[1..])
  }

  lemma {:induction false} DemandRowsAt(periodId: Id, es: seq<(DayOfWeek, Slot)>, ids: seq<Id>, t: nat)
    requires |ids| == |es| && t < |es|
    ensures DemandRows(periodId, es, ids)[t] == DemandRow(ids[t], periodId, es[t])
    decreases t
  {
    if t > 0 {
      DemandRowsAt(periodId, es[1..], ids[1..], t - 1);
    }
  }

  /** Every row made for the request belongs to the new period and is live. */
  lemma {:induction false} DemandRowsOfPeriod(periodId: Id, es: seq<(DayOfWeek, Slot)>, ids: seq<Id>)
    requires |ids| == |es|
    ensures forall d :: d in DemandRows(periodId, es, ids) ==> d.schedulePeriodId == periodId && Live(d.deletedAt)
    decreases |es|
  {
    if es != [] {
      DemandRowsOfPeriod(periodId, es[1..], ids[1..]);
    }
  }

  /** The period row `createSchedulePeriod` stores: it belongs to the acting
      user's own company, is not published, and is live. */
  function NewPeriod(id: Id, body: CreateScheduleRequest, user: User, now: int): (r: SchedulePeriod)
    ensures r.id == id && r.periodName == body.title && r.repeat == body.repeat
    ensures r.userId == user.id && r.companyId == user.companyId && !r.published && Live(r.deletedAt)
  {
    SchedulePeriod(id, body.title, body.repeat, body.maxHoursAfter, body.maxHoursBefore, user.id,
                   user.companyId, false, now, None)
  }

  predicate DistinctIds(ids: seq<Id>)
  {
    forall i, j :: 0 <= i < j < |ids| ==> ids[i] != ids[j]
  }

  lemma {:induction false} DemandRowsAppend(periodId: Id, es1: seq<(DayOfWeek, Slot)>, es2: seq<(DayOfWeek, Slot)>,
                                           ids1: seq<Id>, ids2: seq<Id>)
    requires |ids1| == |es1| && |ids2| == |es2|
    ensures DemandRows(periodId, es1 + es2, ids1 + ids2) == DemandRows(periodId, es1, ids1) + DemandRows(periodId, es2, ids2)
    decreases |es1|
  {
    if es1 == [] {
      assert es1 + es2 == es2 && ids1 + ids2 == ids2;
    } else {
      assert (es1 + es2)[1..] == es1[1..] + es2 && (ids1 + ids2)[1..] == ids1[1..] + ids2;
      DemandRowsAppend(periodId, es1[1..], es2, ids1[1..], ids2);
    }
  }

  /** No stored slot row carries one of the ids from position `k` on. */
  ghost predicate FreshFrom(demands: seq<SchedulePeriodDemand>, ids: seq<Id>, k: nat)
  {
    forall m, d :: k <= m < |ids| && d in demands ==> d.id != ids[m]
  }

  lemma FreshAfter(before: seq<SchedulePeriodDemand>, added: seq<SchedulePeriodDemand>, ids: seq<Id>, k: nat, n: nat)
    requires DistinctIds(ids) && k + n <= |ids| && |added| == n
    requires forall t :: 0 <= t < n ==> added[t].id == ids[k + t]
    requires FreshFrom(before, ids, k)
    ensures FreshFrom(before + added, ids, k + n)
  {
    forall m, d | k + n <= m < |ids| && d in before + added
      ensures d.id != ids[m]
    {
      if d in added {
        var t :| 0 <= t < n && added[t] == d;
        assert k + t < m;
      }
    }
  }

  /** The inner loop of `createSchedule`: one slot row per slot of one day. */
  method CreateDaySlots(sched: ScheduleRepository, periodId: Id, day: DayAvailability, ids: seq<Id>)
    requires sched.Valid()
    requires |ids| == |day.data| && DistinctIds(ids)
    requires FreshFrom(sched.demands, ids, 0)
    modifies sched
    ensures sched.Valid()
    ensures sched.demands == old(sched.demands) + DemandRows(periodId, SlotsOf(day), ids)
    ensures sched.periods == old(sched.periods) && sched.bookings == old(sched.bookings)
  {
    var slots := SlotsOf(day);
    var j := 0;
    while j < |day.data|
      invariant 0 <= j <= |day.data|
      invariant sched.Valid()
      invariant sched.periods == old(sched.periods) && sched.bookings == old(sched.bookings)
      invariant sched.demands == old(sched.demands) + DemandRows(periodId, slots[..j], ids[..j])
      invariant FreshFrom(sched.demands, ids, j)
    {
      var row := DemandRow(ids[j], periodId, slots[j]);
      var o := sched.CreateSchedulePeriodDemand(row);
      assert slots[..j + 1] == slots[..j] + [slots[j]] && ids[..j + 1] == ids[..j] + [ids[j]];
      DemandRowsAppend(periodId, slots[..j], [slots[j]], ids[..j], [ids[j]]);
      assert [slots[j]][1..] == [] && [ids[j]][1..] == [];
      assert DemandRows(periodId, [slots[j]], [ids[j]]) == [row];
      j := j + 1;
    }
    assert slots[..j] == slots && ids[..j] == ids;
  }

  /** The slot rows of the first `i` days, with the first `k` ids, are stored after `base`. */
  ghost predicate RowsSoFar(demands: seq<SchedulePeriodDemand>, base: seq<SchedulePeriodDemand>, periodId: Id,
                            av: seq<DayAvailability>, i: nat, ids: seq<Id>, k: nat)
  {
    i <= |av| && k == |Entries(av[..i])| && k <= |ids|
    && demands == base + DemandRows(periodId, Entries(av[..i]), ids[..k])
  }

  lemma RowsConcat(periodId: Id, av: seq<DayAvailability>, i: nat, ids: seq<Id>, k: nat)
    requires i < |av| && |ids| == |Entries(av)| && k == |Entries(av[..i])|
    ensures k + |av[i].data| <= |ids| && |Entries(av[..i + 1])| == k + |av[i].data|
    ensures DemandRows(periodId, Entries(av[..i + 1]), ids[..k + |av[i].data|])
            == DemandRows(periodId, Entries(av[..i]), ids[..k])
               + DemandRows(periodId, SlotsOf(av[i]), ids[k..k + |av[i].data|])
  {
    EntriesSplit(av, i);
    var n := |av[i].data|;
    assert ids[..k + n] == ids[..k] + ids[k..k + n];
    DemandRowsAppend(periodId, Entries(av[..i]), SlotsOf(av[i]), ids[..k], ids[k..k + n]);
  }

  lemma RowsStep(before: seq<SchedulePeriodDemand>, base: seq<SchedulePeriodDemand>, periodId: Id,
                 av: seq<DayAvailability>, i: nat, ids: seq<Id>, k: nat)
    requires i < |av| && |ids| == |Entries(av)|
    requires RowsSoFar(before, base, periodId, av, i, ids, k)
    ensures k + |av[i].data| <= |ids|
    ensures RowsSoFar(before + DemandRows(periodId, SlotsOf(av[i]), ids[k..k + |av[i].data|]),
                      base, periodId, av, i + 1, ids, k + |av[i].data|)
  {
    RowsConcat(periodId, av, i, ids, k);
    var n := |av[i].data|;
    var done := DemandRows(periodId, Entries(av[..i]), ids[..k]);
    var added := DemandRows(periodId, SlotsOf(av[i]), ids[k..k + n]);
    assert before + added == base + (done + added);
  }

  /** The ids of one day are distinct and fresh when all the remaining ids are. */
  lemma SliceFresh(demands: seq<SchedulePeriodDemand>, ids: seq<Id>, k: nat, n: nat)
    requires DistinctIds(ids) && k + n <= |ids| && FreshFrom(demands, ids, k)
    ensures DistinctIds(ids[k..k + n])
    ensures FreshFrom(demands, ids[k..k + n], 0)
  {
    var s := ids[k..k + n];
    forall m, d | 0 <= m < n && d in demands
      ensures d.id != s[m]
    {
      assert s[m] == ids[k + m];
    }
    forall a, b | 0 <= a < b < n
      ensures s[a] != s[b]
    {
      assert s[a] == ids[k + a] && s[b] == ids[k + b];
    }
  }

  /** One pass of the outer loop of `createSchedule`: the slot rows of day `i`. */
  method CreateDayAt(sched: ScheduleRepository, ghost base: seq<SchedulePeriodDemand>, periodId: Id,
                     av: seq<DayAvailability>, i: nat, demandIds: seq<Id>, k: nat)
    returns (next: nat)
    requires sched.Valid() && i < |av| && |demandIds| == |Entries(av)| && DistinctIds(demandIds)
    requires RowsSoFar(sched.demands, base, periodId, av, i, demandIds, k)
    requires FreshFrom(sched.demands, demandIds, k)
    modifies sched
    ensures sched.Valid()
    ensures RowsSoFar(sched.demands, base, periodId, av, i + 1, demandIds, next)
    ensures FreshFrom(sched.demands, demandIds, next)
    ensures sched.periods == old(sched.periods) && sched.bookings == old(sched.bookings)
  {
    RowsStep(sched.demands, base, periodId, av, i, demandIds, k);
    var n := |av[i].data|;
    var ids := demandIds[k..k + n];
    SliceFresh(sched.demands, demandIds, k, n);
    ghost var before := sched.demands;
    CreateDaySlots(sched, periodId, av[i], ids);
    ghost var added := DemandRows(periodId, SlotsOf(av[i]), ids);
    forall t | 0 <= t < n
      ensures added[t].id == demandIds[k + t]
    {
      DemandRowsAt(periodId, SlotsOf(av[i]), ids, t);
    }
    FreshAfter(before, added, demandIds, k, n);
    next := k + n;
  }

  /** The outer loop of `createSchedule`: the slot rows of every day of the request. */
  method CreateSlots(sched: ScheduleRepository, periodId: Id, av: seq<DayAvailability>, demandIds: seq<Id>)
    requires sched.Valid()
    requires |demandIds| == |Entries(av)| && DistinctIds(demandIds)
    requires forall m, d :: 0 <= m < |demandIds| && d in sched.demands ==> d.id != demandIds[m]
    modifies sched
    ensures sched.Valid()
    ensures sched.demands == old(sched.demands) + DemandRows(periodId, Entries(av), demandIds)
    ensures sched.periods == old(sched.periods) && sched.bookings == old(sched.bookings)
  {
    var k: nat := 0;
    var i := 0;
    assert av[..0] == [] && demandIds[..0] == [];
    assert RowsSoFar(sched.demands, old(sched.demands), periodId, av, 0, demandIds, 0);
    while i < |av|
      invariant 0 <= i <= |av|
      invariant sched.Valid()
      invariant sched.periods == old(sched.periods) && sched.bookings == old(sched.bookings)
      invariant RowsSoFar(sched.demands, old(sched.demands), periodId, av, i, demandIds, k)
      invariant FreshFrom(sched.demands, demandIds, k)
    {
      k := CreateDayAt(sched, old(sched.demands), periodId, av, i, demandIds, k);
      i := i + 1;
    }
    assert av[..i] == av;
    assert demandIds[..k] == demandIds;
  }

  /** `createSchedule`: one period, then one slot row per (day, slot) entry of
      the request, answered with the first page of `getAllAdminSchedules`
      read after the writes. The store generates the ids; here they are
      given, fresh. */
  method CreateSchedule(auth: AuthRepository, companies: CompanyRepository, sched: ScheduleRepository,
                        body: CreateScheduleRequest, userId: Id, companyId: Id,
                        periodId: Id, demandIds: seq<Id>, now: int)
    returns (r: Result<Page<ShortSchedule>>)
    requires sched.Valid()
    requires !sched.HasPeriod(periodId)
    requires |demandIds| == |Entries(body.availability)| && DistinctIds(demandIds)
    requires forall i :: 0 <= i < |demandIds| ==> !sched.HasDemand(demandIds[i])
    modifies sched
    ensures sched.Valid()
    ensures Credentials(auth, companies, userId, companyId).Err? ==>
              r == Err(Credentials(auth, companies, userId, companyId).error) && unchanged(sched)
    ensures Credentials(auth, companies, userId, companyId).Ok? ==>
              r.Ok? && r == AdminSchedules(auth, companies, sched, userId, companyId, NoQuery)
              && sched.periods == old(sched.periods) + [NewPeriod(periodId, body, Credentials(auth, companies, userId, companyId).value, now)]
              && sched.demands == old(sched.demands) + DemandRows(periodId, Entries(body.availability), demandIds)
              && sched.bookings == old(sched.bookings)
  {
    var cred := Credentials(auth, companies, userId, companyId);
    if cred.Err? {
      return Err(cred.error);
    }
    var created := sched.CreateSchedulePeriod(NewPeriod(periodId, body, cred.value, now));
    CreateSlots(sched, periodId, body.availability, demandIds);
    return AdminSchedules(auth, companies, sched, userId, companyId, NoQuery);
  }

  /** Once created, the period's slots are exactly the rows made from the
      request's entries, provided no earlier slot pointed at the new period. */
  lemma CreatedSlotsReadBack(before: seq<SchedulePeriodDemand>, periodId: Id,
                             es: seq<(DayOfWeek, Slot)>, ids: seq<Id>)
    requires |ids| == |es|
    requires forall d :: d in before ==> d.schedulePeriodId != periodId
    ensures DemandsOfPeriod(before + DemandRows(periodId, es, ids), periodId) == DemandRows(periodId, es, ids)
  {
    var rows := DemandRows(periodId, es, ids);
    DemandRowsOfPeriod(periodId, es, ids);
    FilterAppend(before, rows, (d: SchedulePeriodDemand) => d.schedulePeriodId == periodId);
    FilterKeepsAll(rows, periodId);
    FilterDropsAll(before, periodId);
  }

  lemma {:induction false} FilterKeepsAll(rows: seq<SchedulePeriodDemand>, periodId: Id)
    requires forall d :: d in rows ==> d.schedulePeriodId == periodId
    ensures Filter(rows, (d: SchedulePeriodDemand) => d.schedulePeriodId == periodId) == rows
  {
    if rows != [] {
      assert rows[0] in rows;
      assert forall d :: d in rows[1..] ==> d in rows;
      FilterKeepsAll(rows[1..], periodId);
      assert rows == [rows[0]] + rows[1..];
    }
  }

  lemma {:induction false} FilterDropsAll(rows: seq<SchedulePeriodDemand>, periodId: Id)
    requires forall d :: d in rows ==> d.schedulePeriodId != periodId
    ensures Filter(rows, (d: SchedulePeriodDemand) => d.schedulePeriodId == periodId) == []
  {
    if rows != [] {
      assert rows[0] in rows;
      assert forall d :: d in rows[1..] ==> d in rows;
      FilterDropsAll(rows[1..], periodId);
    }
  }

  // ------------------------------------------------------------ listings

  datatype ShortSchedule = ShortSchedule(id: Id, title: string, repeat: bool, isPublished: bool)

  /** `shortSchedule`. */
  function Short(s: FullPeriod): (r: ShortSchedule)
    ensures r.id == s.period.id && r.title == s.period.periodName
    ensures r.repeat == s.period.repeat && r.isPublished == s.period.published
  {
    ShortSchedule(s.period.id, s.period.periodName, s.period.repeat, s.period.published)
  }

  function Shorts(ss: seq<FullPeriod>): (r: seq<ShortSchedule>)
    ensures |r| == |ss| && forall i :: 0 <= i < |r| ==> r[i] == Short(ss[i])
  {
    seq(|ss|, i requires 0 <= i < |ss| => Short(ss[i]))
  }

  /** The listings pass the length of the page itself to `paginate` as the
      total, so with a positive page number there is never a next page. */
  lemma PageOfOwnLengthIsLast<T>(data: seq<T>, page: int, limit: int)
    requires page >= 1 && limit >= 1 && |data| <= limit
    ensures Paginate(data, page, limit, |data|).nextpage.None?
  {
    NextPageIffMore(data, page, limit, |data|);
    MulMono(1, page, limit);
  }

  /** `getAllEmployeeSchedules`: one page of the company's published, live templates. */
  function EmployeeSchedules(auth: AuthRepository, companies: CompanyRepository, sched: ScheduleRepository,
                             userId: Id, companyId: Id, q: Query)
    : (r: Result<Page<ShortSchedule>>)
    reads auth, companies, sched
    ensures Credentials(auth, companies, userId, companyId).Err? ==>
              r == Err(Credentials(auth, companies, userId, companyId).error)
    ensures Credentials(auth, companies, userId, companyId).Ok? ==>
              r.Ok? && r.value.data == Shorts(sched.GetAllCompanySchedule(companyId, LimitOf(q), SkipOf(q)))
              && r.value.currentpage == PageOf(q) && r.value.count == |r.value.data|
    ensures r.Ok? ==> |r.value.data| <= LimitOf(q) && r.value.nextpage.None?
    ensures r.Ok? ==> forall s :: s in r.value.data ==> s.isPublished
  {
    match Credentials(auth, companies, userId, companyId)
    case Err(e) => Err(e)
    case Ok(_) =>
      var data := Shorts(sched.GetAllCompanySchedule(companyId, LimitOf(q), SkipOf(q)));
      PageOfOwnLengthIsLast(data, PageOf(q), LimitOf(q));
      Ok(Paginate(data, PageOf(q), LimitOf(q), |data|))
  }

  /** `getAllAdminSchedules`: one page of the company's live templates. */
  function AdminSchedules(auth: AuthRepository, companies: CompanyRepository, sched: ScheduleRepository,
                          userId: Id, companyId: Id, q: Query)
    : (r: Result<Page<ShortSchedule>>)
    reads auth, companies, sched
    ensures Credentials(auth, companies, userId, companyId).Err? ==>
              r == Err(Credentials(auth, companies, userId, companyId).error)
    ensures Credentials(auth, companies, userId, companyId).Ok? ==>
              r.Ok? && r.value.data == Shorts(sched.GetAllAdminCompanySchedule(companyId, LimitOf(q), SkipOf(q)))
              && r.value.currentpage == PageOf(q) && r.value.count == |r.value.data|
    ensures r.Ok? ==> |r.value.data| <= LimitOf(q) && r.value.nextpage.None?
  {
    match Credentials(auth, companies, userId, companyId)
    case Err(e) => Err(e)
    case Ok(_) =>
      var data := Shorts(sched.GetAllAdminCompanySchedule(companyId, LimitOf(q), SkipOf(q)));
      PageOfOwnLengthIsLast(data, PageOf(q), LimitOf(q));
      Ok(Paginate(data, PageOf(q), LimitOf(q), |data|))
  }

  // ------------------------------------------------------------ publishing

  /** At most one live, published template per company. */
  predicate SinglePublished(rows: seq<SchedulePeriod>, c: Id)
  {
    forall i, j :: 0 <= i < |rows| && 0 <= j < |rows| && IsPublishedIn(rows[i], c) && IsPublishedIn(rows[j], c) ==> i == j
  }

  predicate IsPublishedIn(p: SchedulePeriod, c: Id)
  {
    p.companyId == c && p.published && Live(p.deletedAt)
  }

  predicate DistinctPeriodIds(rows: seq<SchedulePeriod>)
  {
    forall i, j :: 0 <= i < j < |rows| ==> rows[i].id != rows[j].id
  }

  /** The first update of `publishSchedule`: when publishing, the company's
      currently published template is unpublished. */
  function Cleared(rows: seq<SchedulePeriod>, companyId: Id, status: bool): (r: seq<SchedulePeriod>)
    ensures |r| == |rows|
    ensures forall k :: 0 <= k < |r| ==> r[k].id == rows[k].id && r[k].companyId == rows[k].companyId
    ensures forall k, c :: 0 <= k < |r| && IsPublishedIn(r[k], c) ==> IsPublishedIn(rows[k], c)
  {
    if status && FirstPublished(rows, companyId).Some?
    then PatchPeriods(rows, FirstPublished(rows, companyId).value.id, PeriodPatch(Some(false), None))
    else rows
  }

  /** Both updates of `publishSchedule`: then the target's flag is set. */
  function PublishedPeriods(rows: seq<SchedulePeriod>, companyId: Id, status: bool, targetId: Id)
    : seq<SchedulePeriod>
  {
    PatchPeriods(Cleared(rows, companyId, status), targetId, PeriodPatch(Some(status), None))
  }

  /** Clearing leaves the acting company with no published template. */
  lemma ClearedHasNonePublished(rows: seq<SchedulePeriod>, companyId: Id)
    requires SinglePublished(rows, companyId)
    ensures forall k :: 0 <= k < |rows| ==> !IsPublishedIn(Cleared(rows, companyId, true)[k], companyId)
  {
    var cleared := Cleared(rows, companyId, true);
    forall k | 0 <= k < |rows|
      ensures !IsPublishedIn(cleared[k], companyId)
    {
      if IsPublishedIn(rows[k], companyId) {
        assert rows[k] in rows;
        var fp := FirstPublished(rows, companyId).value;
        var m :| 0 <= m < |rows| && rows[m] == fp;
        assert k == m;
      }
    }
  }

  /** The guards of `publishSchedule`, with the ownership test `deleteSchedule` has. */
  function PublishCheck(cred: Result<User>, target: Option<FullPeriod>, companyId: Id, status: bool): (r: Outcome)
    ensures cred.Err? ==> r == Fail(cred.error)
    ensures cred.Ok? && (target.None? || target.value.period.companyId != companyId) ==> r == Fail(ScheduleNotFound)
    ensures r == Pass <==> cred.Ok? && target.Some? && target.value.period.companyId == companyId
                           && target.value.period.published != status
    ensures r.Fail? && cred.Ok? && target.Some? && target.value.period.companyId == companyId ==>
              r == Fail(StatusIsSame)
  {
    if cred.Err? then Fail(cred.error)
    else if target.None? || target.value.period.companyId != companyId then Fail(ScheduleNotFound)
    else if target.value.period.published == status then Fail(StatusIsSame)
    else Pass
  }

  /** The guards of `publishSchedule` as written: the template is looked up by
      id alone, whatever company it belongs to. */
  function PublishCheckAsWritten(cred: Result<User>, target: Option<FullPeriod>, status: bool): (r: Outcome)
    ensures r == Pass <==> cred.Ok? && target.Some? && target.value.period.published != status
  {
    if cred.Err? then Fail(cred.error)
    else if target.None? then Fail(ScheduleNotFound)
    else if target.value.period.published == status then Fail(StatusIsSame)
    else Pass
  }

  /** Publishing or unpublishing a template of the acting company keeps every
      company at one published template at most. */
  lemma PublishKeepsSinglePublished(rows: seq<SchedulePeriod>, companyId: Id, status: bool, targetId: Id, c: Id)
    requires DistinctPeriodIds(rows)
    requires forall k :: 0 <= k < |rows| && rows[k].id == targetId ==> rows[k].companyId == companyId
    requires SinglePublished(rows, c) && SinglePublished(rows, companyId)
    ensures SinglePublished(PublishedPeriods(rows, companyId, status, targetId), c)
  {
    var cleared := Cleared(rows, companyId, status);
    var result := PatchPeriods(cleared, targetId, PeriodPatch(Some(status), None));
    if status {
      ClearedHasNonePublished(rows, companyId);
    }
    forall i, j | 0 <= i < |result| && 0 <= j < |result| && IsPublishedIn(result[i], c) && IsPublishedIn(result[j], c)
      ensures i == j
    {
      assert rows[i].id == rows[j].id ==> !(i < j) && !(j < i);
    }
  }

  ghost predicate EverySinglePublished(rows: seq<SchedulePeriod>)
  {
    forall c :: SinglePublished(rows, c)
  }

  /** The same, for every company at once. */
  lemma PublishKeepsEverySinglePublished(rows: seq<SchedulePeriod>, companyId: Id, status: bool, target: SchedulePeriod)
    requires DistinctPeriodIds(rows) && EverySinglePublished(rows)
    requires target in rows && target.companyId == companyId
    ensures EverySinglePublished(PublishedPeriods(rows, companyId, status, target.id))
  {
    PublishTargetOwned(rows, target, companyId);
    forall c
      ensures SinglePublished(PublishedPeriods(rows, companyId, status, target.id), c)
    {
      PublishKeepsSinglePublished(rows, companyId, status, target.id, c);
    }
  }

  /** Without the ownership test, an admin of one company can publish
      another company's template next to the one already published there. */
  lemma PublishAsWrittenBreaksSinglePublished()
    ensures var a := SchedulePeriod("a", "Morning", false, 0, 0, "u1", "x", true, 0, None);
            var b := SchedulePeriod("b", "Evening", false, 0, 0, "u1", "x", false, 0, None);
            var admin := User("u2", "admin@y", "Ann", "Lee", "Ann Lee", None, None, ADMIN, "y",
                              true, false, true, None, None, None, None, None);
            PublishCheckAsWritten(Ok(admin), Some(FullPeriod(b, [], [])), true) == Pass
            && PublishCheck(Ok(admin), Some(FullPeriod(b, [], [])), "y", true) == Fail(ScheduleNotFound)
            && SinglePublished([a, b], "x")
            && !SinglePublished(PublishedPeriods([a, b], "y", true, "b"), "x")
  {
    var a := SchedulePeriod("a", "Morning", false, 0, 0, "u1", "x", true, 0, None);
    var b := SchedulePeriod("b", "Evening", false, 0, 0, "u1", "x", false, 0, None);
    assert FirstPublished([a, b], "y") == None;
    var after := PublishedPeriods([a, b], "y", true, "b");
    assert after[0] == a && after[1] == b.(published := true);
    assert IsPublishedIn(after[0], "x") && IsPublishedIn(after[1], "x");
  }

  /** The two updates of `publishSchedule`. */
  method ApplyPublish(sched: ScheduleRepository, companyId: Id, status: bool, target: SchedulePeriod)
    requires sched.Valid() && target in sched.periods
    modifies sched
    ensures sched.Valid()
    ensures sched.periods == PublishedPeriods(old(sched.periods), companyId, status, target.id)
    ensures sched.demands == old(sched.demands) && sched.bookings == old(sched.bookings)
  {
    var rows := sched.periods;
    if status {
      var findPublished := sched.GetCompanyPublishedSchedule(companyId);
      if findPublished.Some? {
        var o := sched.UpdateSchedulePeriod(findPublished.value.id, PeriodPatch(Some(false), None));
      }
    }
    assert sched.periods == Cleared(rows, companyId, status);
    var m :| 0 <= m < |rows| && rows[m] == target;
    assert sched.periods[m] in sched.periods;
    var o := sched.UpdateSchedulePeriod(target.id, PeriodPatch(Some(status), None));
  }

  /** `publishSchedule`, with the ownership test of `deleteSchedule`,
      answered with the first page of `getAllAdminSchedules` read after the
      writes. */
  method PublishSchedule(auth: AuthRepository, companies: CompanyRepository, sched: ScheduleRepository,
                         userId: Id, companyId: Id, status: bool, scheduleId: Id)
    returns (r: Result<Page<ShortSchedule>>)
    requires sched.Valid()
    modifies sched
    ensures sched.Valid()
    ensures var check := PublishCheck(Credentials(auth, companies, userId, companyId),
                                      old(sched.FindSchedulePeriodById(scheduleId)), companyId, status);
            check.Fail? ==> r == Err(check.error) && unchanged(sched)
    ensures var check := PublishCheck(Credentials(auth, companies, userId, companyId),
                                      old(sched.FindSchedulePeriodById(scheduleId)), companyId, status);
            check.Pass? ==> sched.periods == PublishedPeriods(old(sched.periods), companyId, status, scheduleId)
                            && sched.demands == old(sched.demands) && sched.bookings == old(sched.bookings)
                            && r.Ok? && r == AdminSchedules(auth, companies, sched, userId, companyId, NoQuery)
                            && (old(EverySinglePublished(sched.periods)) ==> EverySinglePublished(sched.periods))
  {
    var cred := Credentials(auth, companies, userId, companyId);
    var schedule := sched.FindSchedulePeriodById(scheduleId);
    var check := PublishCheck(cred, schedule, companyId, status);
    if check.Fail? {
      return Err(check.error);
    }
    var target := schedule.value.period;
    if EverySinglePublished(sched.periods) {
      PublishKeepsEverySinglePublished(sched.periods, companyId, status, target);
    }
    ApplyPublish(sched, companyId, status, target);
    return AdminSchedules(auth, companies, sched, userId, companyId, NoQuery);
  }

  /** The store's primary keys make every template `publishSchedule` can
      reach belong to the acting company once the ownership test passed. */
  lemma PublishTargetOwned(rows: seq<SchedulePeriod>, target: SchedulePeriod, companyId: Id)
    requires DistinctPeriodIds(rows)
    requires target in rows && target.companyId == companyId
    ensures forall k :: 0 <= k < |rows| && rows[k].id == target.id ==> rows[k].companyId == companyId
  {
    forall k | 0 <= k < |rows| && rows[k].id == target.id
      ensures rows[k].companyId == companyId
    {
      var m :| 0 <= m < |rows| && rows[m] == target;
      assert !(k < m) && !(m < k);
    }
  }

  // ------------------------------------------------------------ deletion

  /** The guards of `deleteSchedule`. */
  function DeleteCheck(cred: Result<User>, target: Option<FullPeriod>, companyId: Id): (r: Outcome)
    ensures cred.Err? ==> r == Fail(cred.error)
    ensures r == Pass <==> cred.Ok? && target.Some? && target.value.period.companyId == companyId
    ensures cred.Ok? && r.Fail? ==> r == Fail(ScheduleNotFound)
  {
    if cred.Err? then Fail(cred.error)
    else if target.None? || target.value.period.companyId != companyId then Fail(ScheduleNotFound)
    else Pass
  }

  /** `deleteSchedule`: stamps the template as deleted now; nothing else
      changes. The reply is the first page of `getAllAdminSchedules` read
      after the write. */
  method DeleteSchedule(auth: AuthRepository, companies: CompanyRepository, sched: ScheduleRepository,
                        userId: Id, companyId: Id, scheduleId: Id, now: int)
    returns (r: Result<Page<ShortSchedule>>)
    requires sched.Valid()
    modifies sched
    ensures sched.Valid()
    ensures var check := DeleteCheck(Credentials(auth, companies, userId, companyId),
                                     old(sched.FindSchedulePeriodById(scheduleId)), companyId);
            check.Fail? ==> r == Err(check.error) && unchanged(sched)
    ensures var check := DeleteCheck(Credentials(auth, companies, userId, companyId),
                                     old(sched.FindSchedulePeriodById(scheduleId)), companyId);
            check.Pass? ==> sched.periods == PatchPeriods(old(sched.periods), scheduleId, PeriodPatch(None, Some(Some(now))))
                            && sched.demands == old(sched.demands) && sched.bookings == old(sched.bookings)
                            && r.Ok? && r == AdminSchedules(auth, companies, sched, userId, companyId, NoQuery)
  {
    var cred := Credentials(auth, companies, userId, companyId);
    var schedule := sched.FindSchedulePeriodById(scheduleId);
    var check := DeleteCheck(cred, schedule, companyId);
    if check.Fail? {
      return Err(check.error);
    }
    var o := sched.UpdateSchedulePeriod(scheduleId, PeriodPatch(None, Some(Some(now))));
    return AdminSchedules(auth, companies, sched, userId, companyId, NoQuery);
  }

  /** After the deletion the template is no longer found, and every other
      template is as it was. */
  lemma DeletedScheduleIsGone(rows: seq<SchedulePeriod>, id: Id, now: int)
    ensures var after := PatchPeriods(rows, id, PeriodPatch(None, Some(Some(now))));
            (forall p :: p in after && p.id == id ==> !Live(p.deletedAt))
            && forall k :: 0 <= k < |rows| && rows[k].id != id ==> after[k] == rows[k]
  {
  }

  // ------------------------------------------------------------ week view

  /** The `week` and `year` of a view request, as numbers; a missing query
      value compares like `NaN`. */
  datatype ViewQuery = ViewQuery(week: JsNumber, year: JsNumber)

  /** moment's week number and year of an instant. */
  datatype WeekYear = WeekYear(week: int, year: int)

  /** `getSchedule`'s clamp: a year before the template's creation year is
      replaced, with the week, by the creation week and year. */
  function ClampQuery(q: ViewQuery, created: WeekYear): (r: ViewQuery)
    ensures Greater(Num(created.year), q.year) ==> r == ViewQuery(Num(created.week), Num(created.year))
    ensures !Greater(Num(created.year), q.year) ==> r == q
  {
    if q.year.Num? && q.year.v < created.year then ViewQuery(Num(created.week), Num(created.year)) else q
  }

  /** The clamped view never shows a numeric year before the creation year,
      and clamping twice is clamping once. */
  lemma ClampQueryProperties(q: ViewQuery, created: WeekYear)
    ensures ClampQuery(q, created).year.Num? ==> ClampQuery(q, created).year.v >= created.year
    ensures ClampQuery(ClampQuery(q, created), created) == ClampQuery(q, created)
    ensures q.year.NaN? ==> ClampQuery(q, created) == q
  {
  }

  const Available := "Available"
  const Booked := "Booked"

  /** A booked worker as the week view lists it: the booking's id (under the
      name `userId`) and the avatar, full name and e-mail of the booked user. */
  datatype UserAvailability = UserAvailability(userId: Id, avatar: Option<string>, fullName: string, email: string)

  /** One slot of the week view. */
  datatype PeriodDemand = PeriodDemand(id: Id, day: DayOfWeek, timeFrame: string, startTime: string,
                                       endTime: string, neededWorkers: int, availableWorkers: nat,
                                       status: string, workers: seq<UserAvailability>)

  function DayOf(p: PeriodDemand): DayOfWeek { p.day }

  datatype ScheduleData = ScheduleData(id: Id, title: string, isPublished: bool, repeat: bool,
                                       data: seq<PeriodDemand>)

  /** The `.filter` keeping the bookings of the requested week and year, by
      loose equality, in their stored order. */
  function InWeek(rows: seq<UserSchedulePeriod>, q: ViewQuery): (r: seq<UserSchedulePeriod>)
    ensures |r| <= |rows|
    ensures forall b :: b in r <==> b in rows && q.week == Num(b.week) && q.year == Num(b.year)
  {
    if rows == [] then []
    else
      var rest := InWeek(rows[1..], q);
      if q.week == Num(rows[0].week) && q.year == Num(rows[0].year) then [rows[0]] + rest else rest
  }

  /** The bookings of a slot that the week view counts: live, and in the
      requested week and year. */
  function WeekBookings(sched: ScheduleRepository, demandId: Id, q: ViewQuery): (r: seq<UserSchedulePeriod>)
    reads sched
    ensures forall b :: b in r <==> b in sched.bookings && b.schedulePeriodDemandId == demandId && Live(b.deletedAt)
                                    && q.week == Num(b.week) && q.year == Num(b.year)
  {
    InWeek(sched.FindUsersBySchedulePeriodDemandId(demandId), q)
  }

  /** Every booking's `user` relation joins a stored user row. */
  predicate Joined(auth: AuthRepository, rows: seq<UserSchedulePeriod>)
    reads auth
  {
    forall i :: 0 <= i < |rows| ==> auth.HasUser(rows[i].userId)
  }

  /** The entry pushed for a booking whose user row is `u`. */
  function WorkerOf(b: UserSchedulePeriod, u: User): UserAvailability
  {
    UserAvailability(b.id, u.avatar, u.fullName, u.email)
  }

  /** The entries pushed for the bookings, in order. Reading a field of a
      null `user` relation throws, so one booking without its user row fails
      the whole view. */
  function Workers(auth: AuthRepository, rows: seq<UserSchedulePeriod>): (r: Result<seq<UserAvailability>>)
    reads auth
    ensures r.Ok? <==> Joined(auth, rows)
    ensures r.Err? ==> r.error == MissingRelation
    ensures r.Ok? ==> |r.value| == |rows|
    ensures r.Ok? ==> forall i :: 0 <= i < |rows| ==>
              exists u :: u in auth.users && u.id == rows[i].userId
                          && r.value[i] == UserAvailability(rows[i].id, u.avatar, u.fullName, u.email)
  {
    if rows == [] then Ok([])
    else
      var pre := rows[..|rows| - 1];
      var last := rows[|rows| - 1];
      assert forall i :: 0 <= i < |pre| ==> pre[i] == rows[i];
      match Workers(auth, pre)
      case Err(e) => Err(e)
      case Ok(ws) =>
        match auth.FindUserById(last.userId)
        case None => Err(MissingRelation)
        case Some(u) =>
          var all := ws + [WorkerOf(last, u)];
          assert all[|rows| - 1] == UserAvailability(last.id, u.avatar, u.fullName, u.email);
          assert forall i :: 0 <= i < |pre| ==> all[i] == ws[i];
          Ok(all)
  }

  /** The `for` loop pushing one entry per booking into `usersAvailable`. */
  method PushWorkers(auth: AuthRepository, users: seq<UserSchedulePeriod>) returns (r: Result<seq<UserAvailability>>)
    ensures r == Workers(auth, users)
  {
    var usersAvailable: seq<UserAvailability> := [];
    var k := 0;
    while k < |users|
      invariant 0 <= k <= |users|
      invariant Workers(auth, users[..k]) == Ok(usersAvailable)
    {
      var u := auth.FindUserById(users[k].userId);
      if u.None? {
        assert !Joined(auth, users);
        return Err(MissingRelation);
      }
      assert users[..k + 1][..k] == users[..k];
      usersAvailable := usersAvailable + [WorkerOf(users[k], u.value)];
      k := k + 1;
    }
    assert users[..k] == users;
    return Ok(usersAvailable);
  }

  /** A slot of the week view: the slot's fields, the workers booked for that
      week and whether the slot still has room. */
  function DemandStatus(sched: ScheduleRepository, auth: AuthRepository, d: SchedulePeriodDemand, q: ViewQuery)
    : (r: Result<PeriodDemand>)
    reads sched, auth
    ensures r.Err? ==> r == Err(MissingRelation)
  {
    match Workers(auth, WeekBookings(sched, d.id, q))
    case Err(e) => Err(e)
    case Ok(ws) =>
      Ok(PeriodDemand(d.id, d.weekDay, d.timeFrame, d.startTime, d.endTime, d.workerQuantity, |ws|,
                      if |ws| < d.workerQuantity then Available else Booked, ws))
  }

  /** What a slot of the week view shows: it fails exactly when a booking of
      that week lacks its user row; otherwise it copies the slot's fields,
      lists one worker per live booking of the week, counts them, and is
      "Available" exactly while that count is below the slot's capacity. */
  lemma DemandStatusShowsWeek(sched: ScheduleRepository, auth: AuthRepository, d: SchedulePeriodDemand, q: ViewQuery)
    ensures var r := DemandStatus(sched, auth, d, q);
            var week := WeekBookings(sched, d.id, q);
            (r.Ok? <==> Joined(auth, week))
            && (r.Ok? ==> r.value.id == d.id && r.value.day == d.weekDay && r.value.timeFrame == d.timeFrame
                          && r.value.neededWorkers == d.workerQuantity
                          && r.value.startTime == d.startTime && r.value.endTime == d.endTime
                          && r.value.workers == Workers(auth, week).value
                          && r.value.availableWorkers == |week|
                          && (r.value.status == Available <==> |week| < d.workerQuantity)
                          && (r.value.status == Available || r.value.status == Booked))
  {
  }

  /** The row of every slot, in slot order. */
  function SlotRows(sched: ScheduleRepository, auth: AuthRepository, ds: seq<SchedulePeriodDemand>, q: ViewQuery)
    : (r: seq<Result<PeriodDemand>>)
    reads sched, auth
    ensures |r| == |ds| && forall i :: 0 <= i < |ds| ==> r[i] == DemandStatus(sched, auth, ds[i], q)
  {
    if ds == [] then []
    else
      var pre := ds[..|ds| - 1];
      var rest := SlotRows(sched, auth, pre, q);
      var all := rest + [DemandStatus(sched, auth, ds[|ds| - 1], q)];
      assert forall i :: 0 <= i < |pre| ==> pre[i] == ds[i] && all[i] == rest[i];
      all
  }

  /** The slots of the week view, in slot order; the first slot that fails
      fails them all. */
  function DemandStatuses(sched: ScheduleRepository, auth: AuthRepository, ds: seq<SchedulePeriodDemand>, q: ViewQuery)
    : (r: Result<seq<PeriodDemand>>)
    reads sched, auth
    ensures r.Ok? <==> forall i :: 0 <= i < |ds| ==> DemandStatus(sched, auth, ds[i], q).Ok?
    ensures r.Err? ==> r.error == MissingRelation
    ensures r.Ok? ==> |r.value| == |ds| &&
                      forall i :: 0 <= i < |ds| ==> r.value[i] == DemandStatus(sched, auth, ds[i], q).value
  {
    Collect(SlotRows(sched, auth, ds, q))
  }

  /** The week view of a template: every slot with its status, Sunday first. */
  function ScheduleView(sched: ScheduleRepository, auth: AuthRepository, s: FullPeriod, q: ViewQuery)
    : (r: Result<ScheduleData>)
    reads sched, auth
    ensures r.Err? <==> DemandStatuses(sched, auth, s.demands, q).Err?
    ensures r.Err? ==> r.error == MissingRelation
    ensures r.Ok? ==> r.value.id == s.period.id && r.value.title == s.period.periodName
                      && r.value.isPublished == s.period.published && r.value.repeat == s.period.repeat
    ensures r.Ok? ==> r.value.data == SortByDay(DemandStatuses(sched, auth, s.demands, q).value, DayOf)
  {
    match DemandStatuses(sched, auth, s.demands, q)
    case Err(e) => Err(e)
    case Ok(rows) =>
      Ok(ScheduleData(s.period.id, s.period.periodName, s.period.published, s.period.repeat, SortByDay(rows, DayOf)))
  }

  /** One more slot extends the rows of the slots before it, or fails the view. */
  lemma StatusesExtend(sched: ScheduleRepository, auth: AuthRepository, ds: seq<SchedulePeriodDemand>, i: nat,
                       q: ViewQuery, rows: seq<PeriodDemand>)
    requires i < |ds| && DemandStatuses(sched, auth, ds[..i], q) == Ok(rows)
    ensures DemandStatus(sched, auth, ds[i], q).Err? ==> DemandStatuses(sched, auth, ds, q).Err?
    ensures DemandStatus(sched, auth, ds[i], q).Ok? ==>
              DemandStatuses(sched, auth, ds[..i + 1], q) == Ok(rows + [DemandStatus(sched, auth, ds[i], q).value])
  {
    var row := DemandStatus(sched, auth, ds[i], q);
    if row.Err? {
      assert SlotRows(sched, auth, ds, q)[i] == row;
    } else {
      var rs := SlotRows(sched, auth, ds[..i], q);
      assert SlotRows(sched, auth, ds[..i + 1], q) == rs + [row];
      CollectSnoc(rs, row);
    }
  }

  /** The body of `formatSchedule`'s loop: the slot's live bookings of the
      requested week, their workers, and the slot's row. */
  method StatusRow(sched: ScheduleRepository, auth: AuthRepository, demand: SchedulePeriodDemand, q: ViewQuery)
    returns (r: Result<PeriodDemand>)
    ensures r == DemandStatus(sched, auth, demand, q)
  {
    var users := sched.FindUsersBySchedulePeriodDemandId(demand.id);
    users := InWeek(users, q);
    var usersAvailable := PushWorkers(auth, users);
    if usersAvailable.Err? {
      return Err(usersAvailable.error);
    }
    var ws := usersAvailable.value;
    return Ok(PeriodDemand(demand.id, demand.weekDay, demand.timeFrame, demand.startTime, demand.endTime,
                           demand.workerQuantity, |ws|,
                           if |ws| < demand.workerQuantity then Available else Booked, ws));
  }

  /** `formatSchedule`: one row per slot, each pushed with the workers of the
      requested week, then the rows sorted by weekday. */
  method FormatSchedule(sched: ScheduleRepository, auth: AuthRepository, s: FullPeriod, q: ViewQuery)
    returns (r: Result<ScheduleData>)
    ensures r == ScheduleView(sched, auth, s, q)
    ensures r.Ok? ==> SortedByDay(r.value.data, DayOf)
                      && multiset(r.value.data) == multiset(DemandStatuses(sched, auth, s.demands, q).value)
  {
    var periodDemand: seq<PeriodDemand> := [];
    var i := 0;
    while i < |s.demands|
      invariant 0 <= i <= |s.demands|
      invariant DemandStatuses(sched, auth, s.demands[..i], q) == Ok(periodDemand)
    {
      var row := StatusRow(sched, auth, s.demands[i], q);
      StatusesExtend(sched, auth, s.demands, i, q, periodDemand);
      if row.Err? {
        return Err(row.error);
      }
      periodDemand := periodDemand + [row.value];
      i := i + 1;
    }
    assert s.demands[..i] == s.demands;
    SortByDaySorted(periodDemand, DayOf);
    SortByDayPermutes(periodDemand, DayOf);
    r := Ok(ScheduleData(s.period.id, s.period.periodName, s.period.published, s.period.repeat,
                         SortByDay(periodDemand, DayOf)));
  }

  /** `getSchedule`: the live template, viewed at the clamped week and year.
      `calendar` is moment's week and year of an instant. */
  method GetSchedule(sched: ScheduleRepository, auth: AuthRepository, scheduleId: Id, q: ViewQuery,
                     calendar: int -> WeekYear)
    returns (r: Result<ScheduleData>)
    ensures sched.FindSchedulePeriodById(scheduleId).None? ==> r == Err(ScheduleNotFound)
    ensures sched.FindSchedulePeriodById(scheduleId).Some? ==>
              var s := sched.FindSchedulePeriodById(scheduleId).value;
              r == ScheduleView(sched, auth, s, ClampQuery(q, calendar(s.period.createdAt)))
  {
    var schedule := sched.FindSchedulePeriodById(scheduleId);
    if schedule.None? {
      return Err(ScheduleNotFound);
    }
    r := FormatSchedule(sched, auth, schedule.value, ClampQuery(q, calendar(schedule.value.period.createdAt)));
  }

  /** `getScheduleDetails`: the credentials, then `getSchedule`. */
  method GetScheduleDetails(auth: AuthRepository, companies: CompanyRepository, sched: ScheduleRepository,
                            scheduleId: Id, userId: Id, companyId: Id, q: ViewQuery, calendar: int -> WeekYear)
    returns (r: Result<ScheduleData>)
    ensures Credentials(auth, companies, userId, companyId).Err? ==>
              r == Err(Credentials(auth, companies, userId, companyId).error)
    ensures Credentials(auth, companies, userId, companyId).Ok? && sched.FindSchedulePeriodById(scheduleId).None? ==>
              r == Err(ScheduleNotFound)
    ensures Credentials(auth, companies, userId, companyId).Ok? && sched.FindSchedulePeriodById(scheduleId).Some? ==>
              var s := sched.FindSchedulePeriodById(scheduleId).value;
              r == ScheduleView(sched, auth, s, ClampQuery(q, calendar(s.period.createdAt)))
    ensures r.Ok? ==> sched.FindSchedulePeriodById(scheduleId).Some?
                      && r.value.id == scheduleId && SortedByDay(r.value.data, DayOf)
  {
    var cred := Credentials(auth, companies, userId, companyId);
    if cred.Err? {
      return Err(cred.error);
    }
    r := GetSchedule(sched, auth, scheduleId, q, calendar);
    if r.Ok? {
      var s := sched.FindSchedulePeriodById(scheduleId).value;
      SortByDaySorted(DemandStatuses(sched, auth, s.demands, ClampQuery(q, calendar(s.period.createdAt))).value, DayOf);
    }
  }
}
