/** The relational store the handlers work on. Every table is a field of
    `Database` holding its rows in table order; each SQL statement of the
    handlers becomes an operation on these fields. Timestamps are integers
    (milliseconds), money amounts are integers, ids are strings. */
module Schema {
  import opened Js

  /** The dashboard role; a membership row carries one of the three club roles. */
  datatype Role = Superadmin | Admin | Coach | Student

  type ClubRole = r: Role | r != Superadmin witness Student

  /** The text stored in `club_memberships.role` and compared by the handlers. */
  function RoleName(r: Role): string {
    match r
    case Superadmin => "superadmin"
    case Admin => "admin"
    case Coach => "coach"
    case Student => "student"
  }

  /** Reads a membership role back from its stored text. */
  function ParseClubRole(s: string): (r: Option<ClubRole>)
    ensures r.Some? <==> (s == "admin" || s == "coach" || s == "student")
    ensures r.Some? ==> RoleName(r.value) == s
    ensures forall c: ClubRole :: s == RoleName(c) ==> r == Some(c)
  {
    if s == "admin" then Some(Admin)
    else if s == "coach" then Some(Coach)
    else if s == "student" then Some(Student)
    else None
  }

  // `public.profiles`
  datatype Profile = Profile(id: string, email: string, passwordHash: string,
                             fullName: Option<string>, isSuperadmin: bool)

  // `public.user_sessions`
  datatype SessionRow = SessionRow(id: string, userId: string, expiresAt: int)

  // `public.sports`
  datatype Sport = Sport(id: string, name: string)

  // `public.clubs`
  datatype Club = Club(id: string, name: string, sportId: string)

  // `public.club_memberships`
  datatype Membership = Membership(id: string, clubId: string, userId: string,
                                   role: ClubRole, createdAt: int)

  // `public.sessions` (training sessions)
  datatype TrainingSession = TrainingSession(id: string, clubId: string, sportId: string,
                                             coachId: string, title: string, startsAt: int,
                                             location: Option<string>, capacity: Option<int>,
                                             qrToken: string)

  // `public.attendance`
  datatype Attendance = Attendance(sessionId: string, studentId: string, status: string,
                                   scannedAt: int)

  // `public.wallets`
  datatype Wallet = Wallet(id: string, clubId: string, studentId: string, balance: int)

  // `public.wallet_transactions`: the append-only ledger
  datatype WalletTx = WalletTx(walletId: string, amount: int, reason: string,
                               note: Option<string>, createdBy: Option<string>, createdAt: int)

  // `public.billing_runs`
  datatype BillingRun = BillingRun(runMonth: string, executedAt: int, monthlyFee: int,
                                   chargedCount: int, skippedCount: int)

  // `public.notifications`
  datatype Notification = Notification(id: string, userId: string, clubId: Option<string>,
                                       kind: string, title: string, body: Option<string>,
                                       dedupeKey: Option<string>, createdAt: int,
                                       readAt: Option<int>)

  /** A handler's JSON reply: an error status with its message, or a 200 body. */
  datatype Reply<T> = Fail(status: nat, error: string) | Ok(body: T)

  /** The status text of the framework's reply to a handler that throws. */
  const InternalError: string := "Internal Server Error"

  /** True when the memberships table holds a row (userId, clubId, role) with a
      role in `roles`: the `join club_memberships cm on cm.club_id = … and
      cm.user_id = $1 and cm.role in (…)` that scopes every listing. */
  predicate HoldsRoleIn(ms: seq<Membership>, userId: string, clubId: string, roles: set<ClubRole>) {
    exists m :: m in ms && m.userId == userId && m.clubId == clubId && m.role in roles
  }

  /** Numeric settings of `public.app_settings` (absent row or null column: None). */
  datatype Settings = Settings(monthlyFee: Option<int>, registrationFee: Option<int>)

  /** `Number(feeRows[0]?.monthly_fee ?? 0)`: a missing fee reads as 0. */
  function FeeValue(fee: Option<int>): int {
    if fee.Some? then fee.value else 0
  }

  class Database {
    var profiles: seq<Profile>
    var userSessions: seq<SessionRow>
    var clubs: seq<Club>
    var memberships: seq<Membership>
    var sessions: seq<TrainingSession>
    var attendance: seq<Attendance>
    var wallets: seq<Wallet>
    var walletTransactions: seq<WalletTx>
    var billingRuns: seq<BillingRun>
    var notifications: seq<Notification>
    var settings: Settings

    constructor Empty(settings: Settings)
      ensures this.settings == settings
      ensures profiles == [] && userSessions == [] && clubs == [] && memberships == []
      ensures sessions == [] && attendance == [] && wallets == [] && walletTransactions == []
      ensures billingRuns == [] && notifications == []
    {
      profiles, userSessions, clubs, memberships := [], [], [], [];
      sessions, attendance, wallets, walletTransactions := [], [], [], [];
      billingRuns, notifications := [], [];
      this.settings := settings;
    }
  }
}
