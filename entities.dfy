/** The stored records the services read and write, with the fields the
    services use. Identifiers are strings; instants are milliseconds; a
    soft-deleted record carries the instant of its deletion. */
module Entities {
  import opened Wrappers
  import opened FormatDate

  type Id = string

  datatype UserType = ADMIN | MANAGER | EMPLOYEE

  /** The `STATUS` enumeration shared by time-off requests and swaps. */
  datatype Status = PENDING | APPROVED | DENIED | EXPIRED

  datatype NotificationType = TASK | TIME_OFF | SWAP

  datatype User = User(
    id: Id,
    email: string,
    firstName: string,
    lastName: string,
    fullName: string,
    avatar: Option<string>,
    password: Option<string>,
    userType: UserType,
    companyId: Id,
    isActive: bool,
    isBlacklisted: bool,
    emailVerified: bool,
    verificationCode: Option<string>,
    verificationCodeCreatedAt: Option<int>,
    passwordToken: Option<string>,
    passwordTokenCreatedAt: Option<int>,
    deletedAt: Option<int>)

  datatype Company = Company(id: Id, name: string, address: string, scheduleStartDay: Option<DayOfWeek>)

  datatype SecurityQuestions = SecurityQuestions(
    id: Id, userId: Id,
    questionOne: Option<string>, questionTwo: Option<string>,
    answerOne: Option<string>, answerTwo: Option<string>)

  /** A schedule template ("period") of a company. */
  datatype SchedulePeriod = SchedulePeriod(
    id: Id,
    periodName: string,
    repeat: bool,
    maxHoursAfter: int,
    maxHoursBefore: int,
    userId: Id,
    companyId: Id,
    published: bool,
    createdAt: int,
    deletedAt: Option<int>)

  /** One slot of a template: a weekday, a time frame and a worker quota. */
  datatype SchedulePeriodDemand = SchedulePeriodDemand(
    id: Id,
    schedulePeriodId: Id,
    timeFrame: string,
    weekDay: DayOfWeek,
    workerQuantity: int,
    startTime: string,
    endTime: string,
    deletedAt: Option<int>)

  /** A booking of a user on a slot for one week of one year. */
  datatype UserSchedulePeriod = UserSchedulePeriod(
    id: Id,
    userId: Id,
    companyId: Id,
    schedulePeriodId: Id,
    schedulePeriodDemandId: Id,
    week: int,
    year: int,
    deletedAt: Option<int>)

  datatype TimeOff = TimeOff(
    id: Id,
    userId: Id,
    companyId: Id,
    kind: string,
    reason: Option<string>,
    timeFrame: string,
    startDate: int,
    endDate: int,
    status: Status,
    createdAt: int)

  /** A swap request: the requester offers `requesterShiftId` for the
      receiver's `receiverShiftId`. */
  datatype SwapShifts = SwapShifts(
    id: Id,
    receiverId: Id,
    requesterId: Id,
    receiverShiftId: Id,
    requesterShiftId: Id,
    companyId: Id,
    status: Status)

  /** A notification for `userId` about the record `tagId`, caused by
      `triggerUserId`. Its generated id is never read, so it is not modelled. */
  datatype Notification = Notification(
    userId: Id, triggerUserId: Id, tagId: Id, kind: NotificationType, activity: string)

  datatype Task = Task(
    id: Id,
    title: string,
    description: string,
    isDraft: bool,
    startDate: Option<int>,
    endDate: Option<int>,
    assignType: string,
    status: string,
    priority: string,
    userId: Id,
    companyId: Id,
    deletedAt: Option<int>)

  /** A checklist note of a task (`TaskList`). */
  datatype TaskNote = TaskNote(id: Id, taskId: Id, note: string, checked: bool, deletedAt: Option<int>)

  /** A collaborator link between a task and a user (`EmployeeTask`). */
  datatype EmployeeTask = EmployeeTask(id: Id, taskId: Id, userId: Id, isTaskLead: bool, deletedAt: Option<int>)

  /** `Option` of a nullable column: `Some(v)` writes `v`, `None` leaves the column. */
  function Patch<T>(update: Option<T>, current: T): (r: T)
    ensures update.Some? ==> r == update.value
    ensures update.None? ==> r == current
  {
    if update.Some? then update.value else current
  }

  /** The partial updates `authRepo.updateUser` receives in the modelled
      services: each present field is written, every other field keeps its value. */
  datatype UserPatch = UserPatch(
    password: Option<Option<string>>,
    isActive: Option<bool>,
    isBlacklisted: Option<bool>,
    emailVerified: Option<bool>,
    verificationCode: Option<Option<string>>,
    verificationCodeCreatedAt: Option<Option<int>>,
    passwordToken: Option<Option<string>>,
    passwordTokenCreatedAt: Option<Option<int>>,
    deletedAt: Option<Option<int>>)

  const NoUserChange := UserPatch(None, None, None, None, None, None, None, None, None)

  function ApplyUserPatch(p: UserPatch, u: User): (r: User)
    ensures r.id == u.id && r.email == u.email && r.userType == u.userType && r.companyId == u.companyId
    ensures r.firstName == u.firstName && r.lastName == u.lastName && r.fullName == u.fullName
    ensures r.avatar == u.avatar
    ensures r.password == Patch(p.password, u.password)
    ensures r.isActive == Patch(p.isActive, u.isActive) && r.isBlacklisted == Patch(p.isBlacklisted, u.isBlacklisted)
    ensures r.emailVerified == Patch(p.emailVerified, u.emailVerified)
    ensures r.verificationCode == Patch(p.verificationCode, u.verificationCode)
    ensures r.verificationCodeCreatedAt == Patch(p.verificationCodeCreatedAt, u.verificationCodeCreatedAt)
    ensures r.passwordToken == Patch(p.passwordToken, u.passwordToken)
    ensures r.passwordTokenCreatedAt == Patch(p.passwordTokenCreatedAt, u.passwordTokenCreatedAt)
    ensures r.deletedAt == Patch(p.deletedAt, u.deletedAt)
    ensures p == NoUserChange ==> r == u
  {
    u.(password := Patch(p.password, u.password),
       isActive := Patch(p.isActive, u.isActive),
       isBlacklisted := Patch(p.isBlacklisted, u.isBlacklisted),
       emailVerified := Patch(p.emailVerified, u.emailVerified),
       verificationCode := Patch(p.verificationCode, u.verificationCode),
       verificationCodeCreatedAt := Patch(p.verificationCodeCreatedAt, u.verificationCodeCreatedAt),
       passwordToken := Patch(p.passwordToken, u.passwordToken),
       passwordTokenCreatedAt := Patch(p.passwordTokenCreatedAt, u.passwordTokenCreatedAt),
       deletedAt := Patch(p.deletedAt, u.deletedAt))
  }

  /** The `schemaToUser` mapper of `AdminService.ts`. Its `isAdmin` is the
      user's `isActive` flag, as written there. */
  datatype UserSchema = UserSchema(id: Id, fullName: string, firstName: string, lastName: string, email: string,
                                   avatar: Option<string>, userType: UserType, isAdmin: bool, isActive: bool,
                                   emailVerified: bool, isBlacklisted: bool)

  function SchemaToUser(u: User): (r: UserSchema)
    ensures r.id == u.id && r.email == u.email && r.userType == u.userType
    ensures r.fullName == u.fullName && r.firstName == u.firstName && r.lastName == u.lastName
    ensures r.isActive == u.isActive && r.isAdmin == u.isActive
    ensures r.emailVerified == u.emailVerified && r.isBlacklisted == u.isBlacklisted
  {
    UserSchema(u.id, u.fullName, u.firstName, u.lastName, u.email, u.avatar, u.userType, u.isActive, u.isActive,
               u.emailVerified, u.isBlacklisted)
  }

  /** Prisma's error for a second row with the same primary key. */
  const DuplicateKey := Error(StoreFailure, "Unique constraint failed on the fields: (`id`)")
  /** Prisma's error for a second user with the same email. */
  const DuplicateEmail := Error(StoreFailure, "Unique constraint failed on the fields: (`email`)")
  /** Prisma's error for an `update` whose `where` matches no row. */
  const RecordNotFound := Error(StoreFailure, "Record to update not found.")

  /** The `TypeError` of reading a field through a relation that joined no
      row (a dangling reference the foreign keys rule out). */
  const MissingRelation := Error(TypeError, "Cannot read properties of null")
  /** Prisma's error for an `Int` column given `NaN`. */
  const InvalidInt := Error(StoreFailure, "Invalid value provided. Expected Int, provided Float.")
  /** Prisma's error for an `Int` column given a whole number outside 32 bits. */
  const IntOutOfRange := Error(StoreFailure, "Unable to fit integer value into an INT4 (32-bit signed integer).")

  /** The range of a Prisma `Int` column: a signed 32-bit integer. */
  predicate FitsInt(v: int) { -0x8000_0000 <= v < 0x8000_0000 }

  /** A record is live while it has no deletion instant. */
  predicate Live(deletedAt: Option<int>) { deletedAt.None? }
}
