/** `TimeOffRepository`, `ShiftSwapRepository` and `NotificationRepository`
    of `src/modules/employee/repository/` as in-memory tables. */
module EmployeeRepo {
  import opened Wrappers
  import opened Seqs
  import opened Pagination
  import opened Entities

  /** The columns `updateOne` writes on a time-off request; `None` keeps a column. */
  datatype TimeOffPatch = TimeOffPatch(kind: Option<string>, reason: Option<Option<string>>,
                                       timeFrame: Option<string>, startDate: Option<int>,
                                       endDate: Option<int>, status: Option<Status>)

  function ApplyTimeOffPatch(p: TimeOffPatch, t: TimeOff): (r: TimeOff)
    ensures r.id == t.id && r.userId == t.userId && r.companyId == t.companyId && r.createdAt == t.createdAt
    ensures r.kind == Patch(p.kind, t.kind) && r.reason == Patch(p.reason, t.reason)
    ensures r.timeFrame == Patch(p.timeFrame, t.timeFrame)
    ensures r.startDate == Patch(p.startDate, t.startDate) && r.endDate == Patch(p.endDate, t.endDate)
    ensures r.status == Patch(p.status, t.status)
  {
    t.(kind := Patch(p.kind, t.kind), reason := Patch(p.reason, t.reason),
       timeFrame := Patch(p.timeFrame, t.timeFrame), startDate := Patch(p.startDate, t.startDate),
       endDate := Patch(p.endDate, t.endDate), status := Patch(p.status, t.status))
  }

  class TimeOffRepository {
    /** Newest request first: each new request is put in front. */
    var requests: seq<TimeOff>

    predicate Valid()
      reads this
    {
      forall i, j :: 0 <= i < j < |requests| ==> requests[i].id != requests[j].id
    }

    constructor ()
      ensures Valid() && requests == []
    {
      requests := [];
    }

    predicate Has(id: Id) reads this { exists t :: t in requests && t.id == id }

    /** `createTimeOffRequest`: the new request comes first in creation-descending order. */
    method CreateTimeOffRequest(row: TimeOff) returns (r: Outcome)
      requires Valid()
      modifies this
      ensures Valid()
      ensures old(Has(row.id)) ==> r == Fail(DuplicateKey) && unchanged(this)
      ensures !old(Has(row.id)) ==> r == Pass && requests == [row] + old(requests)
    {
      if Has(row.id) {
        return Fail(DuplicateKey);
      }
      requests := [row] + requests;
      return Pass;
    }

    function OfUser(userId: Id): (r: seq<TimeOff>)
      reads this
      ensures forall t :: t in r <==> t in requests && t.userId == userId
    {
      Filter(requests, (t: TimeOff) => t.userId == userId)
    }

    /** `getUserTimeOffRequests(userId, take, skip)`. */
    function GetUserTimeOffRequests(userId: Id, take: nat, skip: nat): (r: seq<TimeOff>)
      reads this
      ensures r == Window(OfUser(userId), take, skip)
      ensures forall t :: t in r ==> t in requests && t.userId == userId
    {
      var w := Window(OfUser(userId), take, skip);
      assert forall t :: t in w ==> t in OfUser(userId);
      w
    }

    function OfCompany(companyId: Id, status: Status): (r: seq<TimeOff>)
      reads this
      ensures forall t :: t in r <==> t in requests && t.companyId == companyId && t.status == status
    {
      Filter(requests, (t: TimeOff) => t.companyId == companyId && t.status == status)
    }

    /** `getAllTimeOffRequests(companyId, status, take, skip)`. */
    function GetAllTimeOffRequests(companyId: Id, status: Status, take: nat, skip: nat): (r: seq<TimeOff>)
      reads this
      ensures r == Window(OfCompany(companyId, status), take, skip)
      ensures forall t :: t in r ==> t in requests && t.companyId == companyId && t.status == status
    {
      var w := Window(OfCompany(companyId, status), take, skip);
      assert forall t :: t in w ==> t in OfCompany(companyId, status);
      w
    }

    /** `findById(id)`, whatever company the request belongs to. */
    function FindById(id: Id): (r: Option<TimeOff>)
      reads this
      ensures r.Some? <==> Has(id)
      ensures r.Some? ==> r.value in requests && r.value.id == id
    {
      Find(requests, (t: TimeOff) => t.id == id)
    }

    /** `findOne({ where: { id, user: { id: userId } } })`. */
    function FindOneOfUser(id: Id, userId: Id): (r: Option<TimeOff>)
      reads this
      ensures r.Some? <==> exists t :: t in requests && t.id == id && t.userId == userId
      ensures r.Some? ==> r.value in requests && r.value.id == id && r.value.userId == userId
    {
      Find(requests, (t: TimeOff) => t.id == id && t.userId == userId)
    }

    /** `updateOne(id, data)`: only the given columns of that request change. */
    method UpdateOne(id: Id, p: TimeOffPatch) returns (r: Outcome)
      requires Valid()
      modifies this
      ensures Valid()
      ensures !old(Has(id)) ==> r == Fail(RecordNotFound) && unchanged(this)
      ensures old(Has(id)) ==> r == Pass && |requests| == |old(requests)|
                               && forall i :: 0 <= i < |requests| ==>
                                    requests[i] == if old(requests[i]).id == id
                                                   then ApplyTimeOffPatch(p, old(requests[i])) else old(requests[i])
    {
      if !Has(id) {
        return Fail(RecordNotFound);
      }
      var rows := requests;
      requests := seq(|rows|, i requires 0 <= i < |rows| =>
        if rows[i].id == id then ApplyTimeOffPatch(p, rows[i]) else rows[i]);
      return Pass;
    }
  }

  /** The swap table after `updateOne(id, { status })`. */
  function PatchSwapStatus(rows: seq<SwapShifts>, id: Id, status: Status): (r: seq<SwapShifts>)
    ensures |r| == |rows|
    ensures forall i :: 0 <= i < |r| ==> r[i] == if rows[i].id == id then rows[i].(status := status) else rows[i]
  {
    seq(|rows|, i requires 0 <= i < |rows| => if rows[i].id == id then rows[i].(status := status) else rows[i])
  }

  class ShiftSwapRepository {
    var swaps: seq<SwapShifts>

    predicate Valid()
      reads this
    {
      forall i, j :: 0 <= i < j < |swaps| ==> swaps[i].id != swaps[j].id
    }

    constructor ()
      ensures Valid() && swaps == []
    {
      swaps := [];
    }

    predicate Has(id: Id) reads this { exists s :: s in swaps && s.id == id }

    /** `createSwap`. */
    method CreateSwap(row: SwapShifts) returns (r: Outcome)
      requires Valid()
      modifies this
      ensures Valid()
      ensures old(Has(row.id)) ==> r == Fail(DuplicateKey) && unchanged(this)
      ensures !old(Has(row.id)) ==> r == Pass && swaps == old(swaps) + [row]
    {
      if Has(row.id) {
        return Fail(DuplicateKey);
      }
      swaps := swaps + [row];
      return Pass;
    }

    /** `findBothIds(requesterShiftId, receiverShiftId)`: a swap already
        offering the first booking for the second, whatever its status. */
    function FindBothIds(requesterShiftId: Id, receiverShiftId: Id): (r: Option<SwapShifts>)
      reads this
      ensures r.Some? <==> exists s :: s in swaps && s.requesterShiftId == requesterShiftId
                                       && s.receiverShiftId == receiverShiftId
      ensures r.Some? ==> r.value in swaps && r.value.requesterShiftId == requesterShiftId
                          && r.value.receiverShiftId == receiverShiftId
    {
      Find(swaps, (s: SwapShifts) => s.requesterShiftId == requesterShiftId && s.receiverShiftId == receiverShiftId)
    }

    /** `findById(id)`. */
    function FindById(id: Id): (r: Option<SwapShifts>)
      reads this
      ensures r.Some? <==> Has(id)
      ensures r.Some? ==> r.value in swaps && r.value.id == id
    {
      Find(swaps, (s: SwapShifts) => s.id == id)
    }

    function SentBy(userId: Id): (r: seq<SwapShifts>)
      reads this
      ensures forall s :: s in r <==> s in swaps && s.requesterId == userId
    {
      Filter(swaps, (s: SwapShifts) => s.requesterId == userId)
    }

    function ReceivedBy(userId: Id): (r: seq<SwapShifts>)
      reads this
      ensures forall s :: s in r <==> s in swaps && s.receiverId == userId
    {
      Filter(swaps, (s: SwapShifts) => s.receiverId == userId)
    }

    /** `findUserSentSwaps(userId, take, skip)`: one page of the user's own requests. */
    function FindUserSentSwaps(userId: Id, take: nat, skip: nat): (r: seq<SwapShifts>)
      reads this
      ensures r == Window(SentBy(userId), take, skip)
      ensures forall s :: s in r ==> s in swaps && s.requesterId == userId
    {
      var w := Window(SentBy(userId), take, skip);
      assert forall s :: s in w ==> s in SentBy(userId);
      w
    }

    /** `findUserRecievedSwaps(userId, take, skip)`: one page of the requests made to the user. */
    function FindUserReceivedSwaps(userId: Id, take: nat, skip: nat): (r: seq<SwapShifts>)
      reads this
      ensures r == Window(ReceivedBy(userId), take, skip)
      ensures forall s :: s in r ==> s in swaps && s.receiverId == userId
    {
      var w := Window(ReceivedBy(userId), take, skip);
      assert forall s :: s in w ==> s in ReceivedBy(userId);
      w
    }

    /** `updateOne(id, { status })`: only that swap's status changes. */
    method UpdateStatus(id: Id, status: Status) returns (r: Outcome)
      requires Valid()
      modifies this
      ensures Valid()
      ensures !old(Has(id)) ==> r == Fail(RecordNotFound) && unchanged(this)
      ensures old(Has(id)) ==> r == Pass && swaps == PatchSwapStatus(old(swaps), id, status)
    {
      if !Has(id) {
        return Fail(RecordNotFound);
      }
      swaps := PatchSwapStatus(swaps, id, status);
      return Pass;
    }
  }

  class NotificationRepository {
    var notifications: seq<Notification>

    constructor ()
      ensures notifications == []
    {
      notifications := [];
    }

    /** `createNotification`: the store generates the id, so a create always succeeds. */
    method CreateNotification(n: Notification)
      modifies this
      ensures notifications == old(notifications) + [n]
    {
      notifications := notifications + [n];
    }
  }
}
