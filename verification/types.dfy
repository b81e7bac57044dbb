/** The records the components receive from their parent container, and
    their enumerations. Only the enumeration members that the components
    mention are modelled. Amounts of money are whole poisha (hundredths of a
    taka), so the two-decimal amounts the forms accept are represented
    exactly. */
module Types {

  /** Hundredths of a taka. */
  type Poisha = int

  /** One taka. */
  const Taka: Poisha := 100

  datatype UserRole = Member | Admin

  datatype User = User(
    id: string,
    name: string,
    role: UserRole,
    avatar: string,
    balance: Poisha,
    totalEarned: Poisha,
    joinedDate: string)

  /** Shared by tasks (OPEN) and reports (the other three). */
  datatype TaskStatus = Open | PendingVerification | Completed | Rejected

  datatype Task = Task(
    id: string,
    title: string,
    description: string,
    rewardAmount: Poisha,
    status: TaskStatus,
    createdAt: string,
    guidelines: seq<string>)

  datatype Report = Report(
    id: string,
    userId: string,
    workerName: string,
    taskId: string,
    workLink: string,
    visitCount: int,
    workDate: string,
    status: TaskStatus)

  /** PENDING, PROCESSED and REJECTED; the last is named `Declined` here
      because `Rejected` already names a report status in this module. */
  datatype PayoutStatus = Pending | Processed | Declined

  /** The mobile-money gateways the payout form offers (the request field
      `method`, named `gateway` here because `method` is a keyword). */
  datatype PayoutMethod = Bkash | Nagad | Rocket | Upay

  datatype PayoutRequest = PayoutRequest(
    id: string,
    userId: string,
    amount: Poisha,
    gateway: PayoutMethod,
    accountDetails: string,
    status: PayoutStatus,
    requestDate: string)

  predicate IsPendingReport(r: Report) {
    r.status == PendingVerification
  }

  predicate IsCompletedReport(r: Report) {
    r.status == Completed
  }

  predicate IsRejectedReport(r: Report) {
    r.status == Rejected
  }

  predicate IsPendingPayout(p: PayoutRequest) {
    p.status == Pending
  }

  predicate IsTeamMember(u: User) {
    u.role != Admin
  }
}
