/** The notification jobs of scripts/notifications.js. Each job is one
    `insert into notifications … select … on conflict (dedupe_key) do nothing`:
    the select yields candidate rows, and a candidate goes in only when no row
    (stored earlier, or inserted earlier by the same statement) carries its
    dedupe key. The key decides how often a user hears about the same thing:
    once per wallet, admin and day for a low balance, once ever per session
    and member for a reminder. */
module NotificationJobs {
  import opened Js
  import opened Schema
  import opened Sql
  import opened Auth
  import opened Billing
  import TrainingSessions

  // ---------------------------------------------------------------------------
  // insert … on conflict (dedupe_key) do nothing

  /** A stored row already carries the (non-null) key; null keys never conflict. */
  predicate KeyTaken(rows: seq<Notification>, key: Option<string>) {
    key.Some? && exists r :: r in rows && r.dedupeKey == key
  }

  /** The unique constraint on `notifications.dedupe_key`. */
  predicate UniqueKeys(rows: seq<Notification>) {
    forall i, j :: 0 <= i < j < |rows| && rows[i].dedupeKey.Some? ==> rows[i].dedupeKey != rows[j].dedupeKey
  }

  /** The rows the statement adds to `existing`, candidate by candidate. */
  function Inserted(existing: seq<Notification>, cands: seq<Notification>): (r: seq<Notification>)
    decreases |cands|
  {
    if cands == [] then []
    else
      var prev := Inserted(existing, cands[..|cands| - 1]);
      var c := cands[|cands| - 1];
      if KeyTaken(existing + prev, c.dedupeKey) then prev else prev + [c]
  }

  /** Only candidates whose key was free go in, and the key stays unique. */
  lemma {:induction false} InsertedKeepsKeysUnique(existing: seq<Notification>, cands: seq<Notification>)
    requires UniqueKeys(existing)
    ensures UniqueKeys(existing + Inserted(existing, cands))
    ensures forall r :: r in Inserted(existing, cands) ==> r in cands && !KeyTaken(existing, r.dedupeKey)
    ensures |Inserted(existing, cands)| <= |cands|
    decreases |cands|
  {
    if cands != [] {
      var init := cands[..|cands| - 1];
      InsertedKeepsKeysUnique(existing, init);
      var prev := Inserted(existing, init);
      var c := cands[|cands| - 1];
      assert forall r :: r in init ==> r in cands;
      if !KeyTaken(existing + prev, c.dedupeKey) {
        var all := existing + prev + [c];
        forall i, j | 0 <= i < j < |all| && all[i].dedupeKey.Some?
          ensures all[i].dedupeKey != all[j].dedupeKey
        {
          if j == |all| - 1 {
            assert all[i] in existing + prev;
          }
        }
        assert existing + (prev + [c]) == all;
        assert forall r :: r in existing ==> r in existing + prev;
      }
    }
  }

  /** After the statement, every candidate's key is taken. */
  lemma {:induction false} InsertedCoversCandidates(existing: seq<Notification>, cands: seq<Notification>)
    ensures forall c :: c in cands && c.dedupeKey.Some? ==>
              KeyTaken(existing + Inserted(existing, cands), c.dedupeKey)
    decreases |cands|
  {
    if cands != [] {
      var init := cands[..|cands| - 1];
      InsertedCoversCandidates(existing, init);
      var prev := Inserted(existing, init);
      var last := cands[|cands| - 1];
      var after := existing + Inserted(existing, cands);
      assert forall r :: r in existing + prev ==> r in after;
      forall c | c in cands && c.dedupeKey.Some?
        ensures KeyTaken(after, c.dedupeKey)
      {
        if c in init {
          var r :| r in existing + prev && r.dedupeKey == c.dedupeKey;
          assert r in after;
        } else {
          assert cands == init + [last];
          if !KeyTaken(existing + prev, c.dedupeKey) {
            assert after == existing + prev + [c];
            assert c in after;
          }
        }
      }
    }
  }

  /** When every candidate key is already taken, the statement inserts nothing. */
  lemma {:induction false} NothingNewWhenAllTaken(existing: seq<Notification>, cands: seq<Notification>)
    requires forall c :: c in cands ==> KeyTaken(existing, c.dedupeKey)
    ensures Inserted(existing, cands) == []
    decreases |cands|
  {
    if cands != [] {
      var init := cands[..|cands| - 1];
      assert forall c :: c in init ==> c in cands;
      NothingNewWhenAllTaken(existing, init);
      assert existing + [] == existing;
      assert cands[|cands| - 1] in cands;
    }
  }

  /** The dedupe keys of a list of rows, in order. */
  function Keys(rows: seq<Notification>): (keys: seq<Option<string>>)
    ensures |keys| == |rows|
    ensures forall i :: 0 <= i < |rows| ==> keys[i] == rows[i].dedupeKey
  {
    seq(|rows|, i requires 0 <= i < |rows| => rows[i].dedupeKey)
  }

  lemma KeysAppend(a: seq<Notification>, b: seq<Notification>)
    ensures Keys(a + b) == Keys(a) + Keys(b)
  {
  }

  /** Running the statement again with candidates carrying the same keys (all
      non-null) adds no row: the first run took every key. */
  lemma NothingNewForSameKeys(existing: seq<Notification>, first: seq<Notification>, again: seq<Notification>)
    requires Keys(first) == Keys(again)
    requires forall c :: c in first ==> c.dedupeKey.Some?
    ensures Inserted(existing + Inserted(existing, first), again) == []
  {
    var after := existing + Inserted(existing, first);
    InsertedCoversCandidates(existing, first);
    forall n | n in again
      ensures KeyTaken(after, n.dedupeKey)
    {
      var i :| 0 <= i < |again| && again[i] == n;
      assert Keys(first)[i] == Keys(again)[i];
      assert first[i] in first;
    }
    NothingNewWhenAllTaken(after, again);
  }

  /** The statement itself: the candidates in select order, each inserted unless its
      key is taken; `created` is the statement's `rowCount`. */
  method InsertDeduplicated(db: Database, cands: seq<Notification>) returns (created: nat)
    modifies db`notifications
    ensures db.notifications == old(db.notifications) + Inserted(old(db.notifications), cands)
    ensures created == |Inserted(old(db.notifications), cands)|
  {
    created := 0;
    var i := 0;
    while i < |cands|
      invariant 0 <= i <= |cands|
      invariant db.notifications == old(db.notifications) + Inserted(old(db.notifications), cands[..i])
      invariant created == |Inserted(old(db.notifications), cands[..i])|
    {
      assert cands[..i + 1][..i] == cands[..i];
      assert cands[..i + 1][i] == cands[i];
      if !KeyTaken(db.notifications, cands[i].dedupeKey) {
        db.notifications := db.notifications + [cands[i]];
        created := created + 1;
      }
      i := i + 1;
    }
    assert cands[..i] == cands;
  }

  // ---------------------------------------------------------------------------
  // Low-balance alerts

  const LowBalanceType: string := "low_balance"
  const LowBalanceTitle: string := "Low balance alert"

  datatype AlertsResult = AlertsNotRun(reason: string) | AlertsRan(created: nat)

  /** `concat('low_balance:', w.id, ':', cm.user_id, ':', current_date::text)`. */
  function LowBalanceKey(walletId: string, userId: string, today: string): string {
    "low_balance:" + walletId + ":" + userId + ":" + today
  }

  /** The alert text: the student's name (or "Student"), the balance, the fee and
      the club's name. */
  function LowBalanceBody(studentName: Option<string>, balance: int, fee: int, clubName: string): string {
    (if studentName.Some? then studentName.value else "Student")
    + " balance RM " + IntToString(balance) + " is below monthly fee RM " + IntToString(fee)
    + " for " + clubName
  }

  /** `join club_memberships cm on cm.club_id = w.club_id and cm.role = 'admin'`. */
  function AdminOf(clubId: string): Membership -> bool {
    (m: Membership) => m.clubId == clubId && m.role == Admin
  }

  /** One candidate row per member of `ms` satisfying `p`, in table order: the
      `join club_memberships cm on …` of both jobs. */
  function ForMembers(ms: seq<Membership>, p: Membership -> bool, mk: Membership -> Notification)
    : (r: seq<Notification>)
    ensures |r| == |Where(ms, p)|
    ensures forall i :: 0 <= i < |r| ==> r[i] == mk(Where(ms, p)[i])
    ensures forall n :: n in r ==> exists m :: m in ms && p(m) && n == mk(m)
    ensures forall m :: m in ms && p(m) ==> mk(m) in r
  {
    var members := Where(ms, p);
    var r := seq(|members|, i requires 0 <= i < |members| => mk(members[i]));
    assert forall i :: 0 <= i < |members| ==> members[i] in members;
    assert forall m :: m in members ==> exists i :: 0 <= i < |members| && members[i] == m;
    r
  }

  /** The alert to one admin about one wallet. */
  function LowBalanceAlert(w: Wallet, userId: string, body: string, today: string, now: int,
                           idFor: string -> string): (n: Notification)
    ensures n.userId == userId && n.clubId == Some(w.clubId) && n.readAt.None?
    ensures n.kind == LowBalanceType && n.dedupeKey == Some(LowBalanceKey(w.id, userId, today))
  {
    var key := LowBalanceKey(w.id, userId, today);
    Notification(idFor(key), userId, Some(w.clubId), LowBalanceType, LowBalanceTitle, Some(body), Some(key), now, None)
  }

  /** The candidate rows for one wallet: one per admin of its club when the balance
      is below the fee and the student's profile and the club exist (inner joins). */
  function AlertsForWallet(w: Wallet, profiles: seq<Profile>, clubs: seq<Club>, ms: seq<Membership>,
                           fee: int, today: string, now: int, idFor: string -> string): (r: seq<Notification>)
    ensures forall n :: n in r ==> exists m :: m in ms && AdminOf(w.clubId)(m) && n.userId == m.userId
                                             && n.dedupeKey == Some(LowBalanceKey(w.id, m.userId, today))
    ensures forall n :: n in r ==> n.kind == LowBalanceType && n.clubId == Some(w.clubId) && n.readAt.None?
    ensures r != [] ==> FallsShort(fee)(w)
    ensures FallsShort(fee)(w) && FindProfile(profiles, w.studentId).Some?
            && TrainingSessions.FindClub(clubs, w.clubId).Some? ==>
              forall m :: m in ms && AdminOf(w.clubId)(m) ==>
                exists n :: n in r && n.dedupeKey == Some(LowBalanceKey(w.id, m.userId, today))
  {
    var p := FindProfile(profiles, w.studentId);
    var c := TrainingSessions.FindClub(clubs, w.clubId);
    if !FallsShort(fee)(w) || p.None? || c.None? then []
    else
      var body := LowBalanceBody(p.value.fullName, w.balance, fee, c.value.name);
      ForMembers(ms, AdminOf(w.clubId), (m: Membership) => LowBalanceAlert(w, m.userId, body, today, now, idFor))
  }

  /** The whole select: the wallets in table order, each with its club's admins. */
  function LowBalanceCandidates(wallets: seq<Wallet>, profiles: seq<Profile>, clubs: seq<Club>,
                                ms: seq<Membership>, fee: int, today: string, now: int,
                                idFor: string -> string): (r: seq<Notification>)
    ensures forall n :: n in r ==> n.dedupeKey.Some? && n.kind == LowBalanceType
    ensures forall n :: n in r ==> exists w, m :: w in wallets && m in ms && FallsShort(fee)(w)
                                                 && AdminOf(w.clubId)(m) && n.userId == m.userId
                                                 && n.dedupeKey == Some(LowBalanceKey(w.id, m.userId, today))
    ensures forall w, m :: w in wallets && m in ms && FallsShort(fee)(w) && AdminOf(w.clubId)(m)
                           && FindProfile(profiles, w.studentId).Some?
                           && TrainingSessions.FindClub(clubs, w.clubId).Some? ==>
              exists n :: n in r && n.dedupeKey == Some(LowBalanceKey(w.id, m.userId, today))
  {
    if wallets == [] then []
    else
      var head := AlertsForWallet(wallets[0], profiles, clubs, ms, fee, today, now, idFor);
      var tail := LowBalanceCandidates(wallets[1..], profiles, clubs, ms, fee, today, now, idFor);
      assert forall w :: w in wallets ==> w == wallets[0] || w in wallets[1..];
      head + tail
  }

  /** `runLowBalanceAlerts`: nothing without a positive monthly fee; otherwise the
      deduplicated insert of the candidates. `today` is the database's
      `current_date`, `idFor` the generated row id. */
  method RunLowBalanceAlerts(db: Database, today: string, now: int, idFor: string -> string)
    returns (result: AlertsResult)
    modifies db`notifications
    ensures var fee := FeeValue(db.settings.monthlyFee);
            var cands := LowBalanceCandidates(db.wallets, db.profiles, db.clubs, db.memberships, fee, today, now, idFor);
            && (fee <= 0 ==> result == AlertsNotRun(FeeNotConfigured) && db.notifications == old(db.notifications))
            && (fee > 0 ==> && db.notifications == old(db.notifications) + Inserted(old(db.notifications), cands)
                            && result == AlertsRan(|Inserted(old(db.notifications), cands)|))
    ensures FeeValue(db.settings.monthlyFee) > 0 ==>
              forall w, m :: w in db.wallets && m in db.memberships && FallsShort(FeeValue(db.settings.monthlyFee))(w)
                             && AdminOf(w.clubId)(m) && FindProfile(db.profiles, w.studentId).Some?
                             && TrainingSessions.FindClub(db.clubs, w.clubId).Some? ==>
                KeyTaken(db.notifications, Some(LowBalanceKey(w.id, m.userId, today)))
  {
    var monthlyFee := FeeValue(db.settings.monthlyFee);
    if monthlyFee <= 0 {
      return AlertsNotRun(FeeNotConfigured);
    }
    var cands := LowBalanceCandidates(db.wallets, db.profiles, db.clubs, db.memberships, monthlyFee, today, now, idFor);
    ghost var before := db.notifications;
    var created := InsertDeduplicated(db, cands);
    InsertedCoversCandidates(before, cands);
    result := AlertsRan(created);
  }

  /** The keys of the alerts do not depend on the time of the run. */
  lemma {:induction false} AlertKeysIgnoreClock(wallets: seq<Wallet>, profiles: seq<Profile>, clubs: seq<Club>,
                                                ms: seq<Membership>, fee: int, today: string, now: int,
                                                later: int, idFor: string -> string)
    ensures Keys(LowBalanceCandidates(wallets, profiles, clubs, ms, fee, today, now, idFor))
            == Keys(LowBalanceCandidates(wallets, profiles, clubs, ms, fee, today, later, idFor))
  {
    if wallets != [] {
      var h1 := AlertsForWallet(wallets[0], profiles, clubs, ms, fee, today, now, idFor);
      var h2 := AlertsForWallet(wallets[0], profiles, clubs, ms, fee, today, later, idFor);
      assert Keys(h1) == Keys(h2);
      AlertKeysIgnoreClock(wallets[1..], profiles, clubs, ms, fee, today, now, later, idFor);
      KeysAppend(h1, LowBalanceCandidates(wallets[1..], profiles, clubs, ms, fee, today, now, idFor));
      KeysAppend(h2, LowBalanceCandidates(wallets[1..], profiles, clubs, ms, fee, today, later, idFor));
    }
  }

  /** A second run on the same day, over the same tables, creates no alert. */
  lemma SameDayAlertsOnce(existing: seq<Notification>, wallets: seq<Wallet>, profiles: seq<Profile>,
                          clubs: seq<Club>, ms: seq<Membership>, fee: int, today: string,
                          now: int, later: int, idFor: string -> string)
    ensures var first := Inserted(existing, LowBalanceCandidates(wallets, profiles, clubs, ms, fee, today, now, idFor));
            Inserted(existing + first, LowBalanceCandidates(wallets, profiles, clubs, ms, fee, today, later, idFor)) == []
  {
    AlertKeysIgnoreClock(wallets, profiles, clubs, ms, fee, today, now, later, idFor);
    NothingNewForSameKeys(existing, LowBalanceCandidates(wallets, profiles, clubs, ms, fee, today, now, idFor),
                          LowBalanceCandidates(wallets, profiles, clubs, ms, fee, today, later, idFor));
  }

  // ---------------------------------------------------------------------------
  // Session reminders

  const ReminderType: string := "session_reminder"
  const ReminderTitle: string := "Session reminder"
  const HourMs: int := 60 * 60 * 1000

  datatype RemindersResult = RemindersResult(created: nat, windowHours: int)

  /** `Number(NOTIFY_WINDOW_HOURS ?? "24")`, then clamped into [1, 168] when finite
      and 24 otherwise. */
  function WindowHours(setting: Option<JsNumber>): (hours: int)
    ensures 1 <= hours <= 168
    ensures setting.None? || !setting.value.Finite? ==> hours == 24
    ensures setting.Some? && setting.value.Finite? ==> hours == Min(Max(setting.value.value, 1), 168)
  {
    ClampParam(setting, 24, 1, 168)
  }

  /** `concat('session_reminder:', s.id, ':', cm.user_id)`. */
  function ReminderKey(sessionId: string, userId: string): string {
    "session_reminder:" + sessionId + ":" + userId
  }

  /** `s.starts_at >= now() and s.starts_at <= now() + hours`. */
  predicate InWindow(s: TrainingSession, now: int, hours: int) {
    now <= s.startsAt <= now + hours * HourMs
  }

  /** `join club_memberships cm on cm.club_id = s.club_id and cm.role in ('coach', 'student')`. */
  function AttendeeOf(clubId: string): Membership -> bool {
    (m: Membership) => m.clubId == clubId && (m.role == Coach || m.role == Student)
  }

  /** The reminder to one member about one session. */
  function Reminder(s: TrainingSession, userId: string, body: string, now: int,
                    idFor: string -> string): (n: Notification)
    ensures n.userId == userId && n.clubId == Some(s.clubId) && n.readAt.None?
    ensures n.kind == ReminderType && n.dedupeKey == Some(ReminderKey(s.id, userId))
  {
    var key := ReminderKey(s.id, userId);
    Notification(idFor(key), userId, Some(s.clubId), ReminderType, ReminderTitle, Some(body), Some(key), now, None)
  }

  /** The candidate rows for one session. `formatTime` renders `starts_at` as
      `to_char(…, 'Mon DD, HH24:MI')`. */
  function RemindersForSession(s: TrainingSession, ms: seq<Membership>, now: int, hours: int,
                               formatTime: int -> string, idFor: string -> string): (r: seq<Notification>)
    ensures forall n :: n in r ==> exists m :: m in ms && AttendeeOf(s.clubId)(m) && n.userId == m.userId
                                             && n.dedupeKey == Some(ReminderKey(s.id, m.userId))
    ensures forall n :: n in r ==> n.kind == ReminderType && n.clubId == Some(s.clubId) && n.readAt.None?
    ensures r != [] ==> InWindow(s, now, hours)
    ensures InWindow(s, now, hours) ==>
              forall m :: m in ms && AttendeeOf(s.clubId)(m) ==>
                exists n :: n in r && n.dedupeKey == Some(ReminderKey(s.id, m.userId))
  {
    if !InWindow(s, now, hours) then []
    else
      var body := s.title + " starts at " + formatTime(s.startsAt);
      ForMembers(ms, AttendeeOf(s.clubId), (m: Membership) => Reminder(s, m.userId, body, now, idFor))
  }

  function ReminderCandidates(sessions: seq<TrainingSession>, ms: seq<Membership>, now: int, hours: int,
                              formatTime: int -> string, idFor: string -> string): (r: seq<Notification>)
    ensures forall n :: n in r ==> n.dedupeKey.Some? && n.kind == ReminderType
    ensures forall n :: n in r ==> exists s, m :: s in sessions && m in ms && InWindow(s, now, hours)
                                                 && AttendeeOf(s.clubId)(m) && n.userId == m.userId
                                                 && n.dedupeKey == Some(ReminderKey(s.id, m.userId))
    ensures forall s, m :: s in sessions && m in ms && InWindow(s, now, hours) && AttendeeOf(s.clubId)(m) ==>
              exists n :: n in r && n.dedupeKey == Some(ReminderKey(s.id, m.userId))
  {
    if sessions == [] then []
    else
      var head := RemindersForSession(sessions[0], ms, now, hours, formatTime, idFor);
      var tail := ReminderCandidates(sessions[1..], ms, now, hours, formatTime, idFor);
      assert forall s :: s in sessions ==> s == sessions[0] || s in sessions[1..];
      head + tail
  }

  /** `runSessionReminders`: the deduplicated insert of the reminders for sessions
      starting within the window. */
  method RunSessionReminders(db: Database, setting: Option<JsNumber>, now: int,
                             formatTime: int -> string, idFor: string -> string)
    returns (result: RemindersResult)
    modifies db`notifications
    ensures var cands := ReminderCandidates(db.sessions, db.memberships, now, WindowHours(setting), formatTime, idFor);
            && db.notifications == old(db.notifications) + Inserted(old(db.notifications), cands)
            && result == RemindersResult(|Inserted(old(db.notifications), cands)|, WindowHours(setting))
    ensures forall s, m :: s in db.sessions && m in db.memberships && InWindow(s, now, WindowHours(setting))
                           && AttendeeOf(s.clubId)(m) ==>
              KeyTaken(db.notifications, Some(ReminderKey(s.id, m.userId)))
  {
    var hours := WindowHours(setting);
    var cands := ReminderCandidates(db.sessions, db.memberships, now, hours, formatTime, idFor);
    ghost var before := db.notifications;
    var created := InsertDeduplicated(db, cands);
    InsertedCoversCandidates(before, cands);
    result := RemindersResult(created, hours);
  }

  /** A member is reminded of a session at most once, however often the job runs
      and whatever the window: once the key is taken no later candidate for the
      same session and member is inserted. */
  lemma ReminderOncePerSessionAndMember(existing: seq<Notification>, cands: seq<Notification>,
                                        sessionId: string, userId: string)
    requires KeyTaken(existing, Some(ReminderKey(sessionId, userId)))
    ensures forall n :: n in Inserted(existing, cands) ==> n.dedupeKey != Some(ReminderKey(sessionId, userId))
  {
    InsertedNeverTaken(existing, cands);
  }

  /** No inserted row repeats a key that was taken before the statement. */
  lemma {:induction false} InsertedNeverTaken(existing: seq<Notification>, cands: seq<Notification>)
    ensures forall n :: n in Inserted(existing, cands) ==> !KeyTaken(existing, n.dedupeKey)
    decreases |cands|
  {
    if cands != [] {
      InsertedNeverTaken(existing, cands[..|cands| - 1]);
      var prev := Inserted(existing, cands[..|cands| - 1]);
      assert forall r :: r in existing ==> r in existing + prev;
    }
  }

  // ---------------------------------------------------------------------------

  /** The table after one cycle: the alerts inserted against the rows already there
      (none without a positive fee), then the reminders inserted against the result. */
  function CycleRows(existing: seq<Notification>, fee: int, alertCands: seq<Notification>,
                     reminderCands: seq<Notification>): seq<Notification>
  {
    var alerts := if fee > 0 then Inserted(existing, alertCands) else [];
    existing + alerts + Inserted(existing + alerts, reminderCands)
  }

  /** A cycle keeps the keys of the table unique. */
  lemma CycleRowsKeepKeysUnique(existing: seq<Notification>, fee: int, alertCands: seq<Notification>,
                                reminderCands: seq<Notification>)
    requires UniqueKeys(existing)
    ensures UniqueKeys(CycleRows(existing, fee, alertCands, reminderCands))
  {
    var alerts := if fee > 0 then Inserted(existing, alertCands) else [];
    if fee > 0 {
      InsertedKeepsKeysUnique(existing, alertCands);
    } else {
      assert existing + alerts == existing;
    }
    InsertedKeepsKeysUnique(existing + alerts, reminderCands);
  }

  datatype NotificationsCycle = NotificationsCycle(lowBalance: AlertsResult, reminders: RemindersResult)

  /** `runNotificationsCycle`: the alerts, then the reminders, on one connection. */
  method RunNotificationsCycle(db: Database, setting: Option<JsNumber>, today: string, now: int,
                               formatTime: int -> string, idFor: string -> string)
    returns (result: NotificationsCycle)
    modifies db`notifications
    ensures UniqueKeys(old(db.notifications)) ==> UniqueKeys(db.notifications)
    ensures result.reminders.windowHours == WindowHours(setting)
    ensures result.lowBalance.AlertsNotRun? <==> FeeValue(db.settings.monthlyFee) <= 0
    ensures |db.notifications| == |old(db.notifications)| + result.reminders.created
                                   + (if result.lowBalance.AlertsRan? then result.lowBalance.created else 0)
    ensures db.notifications == CycleRows(old(db.notifications), FeeValue(db.settings.monthlyFee),
              LowBalanceCandidates(db.wallets, db.profiles, db.clubs, db.memberships, FeeValue(db.settings.monthlyFee), today, now, idFor),
              ReminderCandidates(db.sessions, db.memberships, now, WindowHours(setting), formatTime, idFor))
    ensures var fee := FeeValue(db.settings.monthlyFee);
            var alertCands := LowBalanceCandidates(db.wallets, db.profiles, db.clubs, db.memberships, fee, today, now, idFor);
            result.lowBalance.AlertsRan? ==> result.lowBalance.created == |Inserted(old(db.notifications), alertCands)|
    ensures var fee := FeeValue(db.settings.monthlyFee);
            var alertCands := LowBalanceCandidates(db.wallets, db.profiles, db.clubs, db.memberships, fee, today, now, idFor);
            var alerts := if fee > 0 then Inserted(old(db.notifications), alertCands) else [];
            var reminderCands := ReminderCandidates(db.sessions, db.memberships, now, WindowHours(setting), formatTime, idFor);
            result.reminders.created == |Inserted(old(db.notifications) + alerts, reminderCands)|
  {
    ghost var start := db.notifications;
    var lowBalance := RunLowBalanceAlerts(db, today, now, idFor);
    ghost var middle := db.notifications;
    var reminders := RunSessionReminders(db, setting, now, formatTime, idFor);
    ghost var fee := FeeValue(db.settings.monthlyFee);
    ghost var alertCands := LowBalanceCandidates(db.wallets, db.profiles, db.clubs, db.memberships, fee, today, now, idFor);
    ghost var reminderCands := ReminderCandidates(db.sessions, db.memberships, now, WindowHours(setting), formatTime, idFor);
    ghost var alerts: seq<Notification> := if fee > 0 then Inserted(start, alertCands) else [];
    if fee <= 0 {
      assert start + alerts == start;
    }
    assert middle == start + alerts;
    assert db.notifications == CycleRows(start, fee, alertCands, reminderCands);
    if UniqueKeys(start) {
      CycleRowsKeepKeysUnique(start, fee, alertCands, reminderCands);
    }
    result := NotificationsCycle(lowBalance, reminders);
  }
}
