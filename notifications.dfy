/**
 * The reminder engine: the dispatcher that turns one (user, bill) pair into a
 * mail and a ledger entry, the daily sweep that sends one reminder per bill
 * inside the user's notification window, and the urgent sweep that repeats a
 * reminder every three hours on the due day. Both sweeps append to the same
 * notification ledger.
 *
 * The mail transport, the credentials check and the file system are
 * parameters: a `Mailer` says whether credentials are configured, which
 * bills' mails the transport rejects during the sweep, and which stored
 * attachment files exist. Time is one instant `now` in milliseconds, and the
 * sweep's `today` is the local date that contains it.
 */
module Notifications {
  import opened Wrappers
  import opened Calendar
  import opened Text
  import opened Sequences
  import opened Bills

  /** The fields of a user the sweeps populate. */
  datatype User = User(
    id: Id,
    name: string,
    email: Option<string>,
    notificationEmail: Option<string>,
    daysBefore: Option<int>)

  /** A ledger entry (backend/models/Notification.js); `kind` is always "email" here. */
  datatype Notification = Notification(userId: Id, billId: Option<Id>, kind: string, message: string, sentAt: int)

  /** The parts of an outgoing mail kept here are the recipient, the subject and the attached boleto's name. */
  datatype Mail = Mail(to: string, subject: string, attachment: Option<string>)

  /** What one call of the dispatcher does. Only `Failed` leaves the call by throwing. */
  datatype DispatchResult =
    | NoDestination
    | SavedOnly(record: Notification)
    | Sent(mail: Mail, record: Notification)
    | Failed(mail: Mail)

  /** The environment of a sweep: credentials present, bills whose mail is rejected, files on disk. */
  datatype Mailer = Mailer(configured: bool, failures: set<Id>, onDisk: set<string>)

  const ThreeHoursMs: int := 3 * 60 * 60 * 1000

  /** `today` is the local date that contains the instant `now`. */
  predicate IsToday(today: Date, now: int) {
    Valid(today) && Midnight(today) <= now < Midnight(today) + MsPerDay
  }

  /** `user.notification_email || user.email`. */
  function Destination(u: User): (r: Option<string>)
    ensures r.Some? <==> Truthy(u.notificationEmail) || Truthy(u.email)
    ensures r.Some? ==> r.value != ""
    ensures Truthy(u.notificationEmail) ==> r == u.notificationEmail
  {
    if Truthy(u.notificationEmail) then u.notificationEmail
    else if Truthy(u.email) then u.email
    else None
  }

  /** `user.notification_days_before || 3`. */
  function DaysBefore(u: User): int {
    if u.daysBefore.Some? && u.daysBefore.value != 0 then u.daysBefore.value else 3
  }

  /** `Math.ceil((dueDate - now) / day)`: whole days left until the due date, rounded up. */
  function DaysUntil(due: Date, now: int): (k: int)
    requires 1 <= due.month <= 12
    ensures (k - 1) * MsPerDay < Midnight(due) - now <= k * MsPerDay
  {
    -((now - Midnight(due)) / MsPerDay)
  }

  /** When `now` falls within `today`, the days left are the difference of the day numbers. */
  lemma DaysUntilFromToday(due: Date, today: Date, now: int)
    requires 1 <= due.month <= 12 && IsToday(today, now)
    ensures DaysUntil(due, now) == DayNumber(due) - DayNumber(today)
  {
    var k := DaysUntil(due, now);
    var n := DayNumber(due) - DayNumber(today);
    assert Midnight(due) - now <= n * MsPerDay;
    assert (n - 1) * MsPerDay < Midnight(due) - now;
  }

  /** `'HOJE'`, `'AMANHÃ'` or `` `em ${diffDays} dias` ``. */
  function TimeMessage(diffDays: int): string {
    if diffDays == 0 then "HOJE"
    else if diffDays == 1 then "AMANH\U{00C3}"
    else "em " + IntToString(diffDays) + " dias"
  }

  /** The wording names today and tomorrow exactly when the difference is 0 and 1. */
  lemma TimeMessageWording(diffDays: int)
    ensures TimeMessage(diffDays) == "HOJE" <==> diffDays == 0
    ensures TimeMessage(diffDays) == "AMANH\U{00C3}" <==> diffDays == 1
    ensures diffDays != 0 && diffDays != 1 ==> StartsWith(TimeMessage(diffDays), "em ")
  {
    if diffDays != 0 && diffDays != 1 {
      var t := TimeMessage(diffDays);
      assert t[0] == 'e';
      assert "HOJE"[0] == 'H' && "AMANH\U{00C3}"[0] == 'A';
      assert t[..3] == "em ";
    }
  }

  const UrgentPrefix: string := "\U{1F525} URGENTE - "
  const ReminderHead: string := "\U{26A0}\U{FE0F} Lembrete: "

  /** The mail subject: the urgent marker, the bill's name and when it falls due. */
  function Subject(isUrgent: bool, name: string, diffDays: int): (r: string)
    ensures StartsWith(r, UrgentPrefix) <==> isUrgent
    ensures isUrgent ==> r == UrgentPrefix + Subject(false, name, diffDays)
    ensures !isUrgent ==> StartsWith(r, ReminderHead)
  {
    var regular := ReminderHead + name + " vence " + TimeMessage(diffDays);
    assert regular[..|ReminderHead|] == ReminderHead;
    assert regular[0] != UrgentPrefix[0];
    if isUrgent then
      var r := UrgentPrefix + regular;
      assert r[..|UrgentPrefix|] == UrgentPrefix;
      r
    else regular
  }

  /** The name the attached boleto carries, when the bill has a stored boleto that exists on disk. */
  function BoletoAttachment(b: Bill, onDisk: set<string>): (r: Option<string>)
    ensures r.Some? <==> Truthy(b.boletoFile) && b.boletoFile.value in onDisk
    ensures r.Some? && Truthy(b.boletoFilename) ==> r == b.boletoFilename
    ensures r.Some? && !Truthy(b.boletoFilename) ==> r == Some("boleto.pdf")
  {
    if Truthy(b.boletoFile) && b.boletoFile.value in onDisk then
      Some(if Truthy(b.boletoFilename) then b.boletoFilename.value else "boleto.pdf")
    else None
  }

  /**
   * `sendNotification(user, bill, isUrgent)`: no destination returns quietly;
   * without credentials a plain reminder is recorded and no mail goes out;
   * otherwise the mail is handed to the transport and the ledger entry,
   * whose message is the subject, is written only when the transport accepts
   * it. A rejected mail is rethrown with nothing recorded.
   */
  function Dispatch(u: User, b: Bill, isUrgent: bool, configured: bool, delivered: bool, onDisk: set<string>, now: int): (r: DispatchResult)
    requires 1 <= b.due.month <= 12
    ensures r.NoDestination? <==> Destination(u).None?
    ensures r.SavedOnly? <==> Destination(u).Some? && !configured
    ensures r.Sent? <==> Destination(u).Some? && configured && delivered
    ensures r.Failed? <==> Destination(u).Some? && configured && !delivered
  {
    match Destination(u)
    case None => NoDestination
    case Some(to) =>
      if !configured then
        SavedOnly(Notification(u.id, Some(b.id), "email", "Lembrete: " + b.name + " vence em " + PtBrDate(b.due), now))
      else
        var mail := Mail(to, Subject(isUrgent, b.name, DaysUntil(b.due, now)), BoletoAttachment(b, onDisk));
        if delivered then Sent(mail, Notification(u.id, Some(b.id), "email", mail.subject, now))
        else Failed(mail)
  }

  /** What a dispatch records and what mail it hands to the transport. */
  lemma DispatchContents(u: User, b: Bill, isUrgent: bool, configured: bool, delivered: bool, onDisk: set<string>, now: int)
    requires 1 <= b.due.month <= 12
    ensures var r := Dispatch(u, b, isUrgent, configured, delivered, onDisk, now);
            (r.SavedOnly? || r.Sent?) ==>
              r.record.userId == u.id && r.record.billId == Some(b.id) && r.record.kind == "email" && r.record.sentAt == now
    ensures var r := Dispatch(u, b, isUrgent, configured, delivered, onDisk, now);
            r.SavedOnly? ==> r.record.message == "Lembrete: " + b.name + " vence em " + PtBrDate(b.due)
    ensures var r := Dispatch(u, b, isUrgent, configured, delivered, onDisk, now);
            r.Sent? ==> r.record.message == r.mail.subject
    ensures var r := Dispatch(u, b, isUrgent, configured, delivered, onDisk, now);
            (r.Sent? || r.Failed?) ==>
              && r.mail.to == Destination(u).value
              && r.mail.subject == Subject(isUrgent, b.name, DaysUntil(b.due, now))
              && r.mail.attachment == BoletoAttachment(b, onDisk)
  {
  }

  /** The ledger entries a dispatch leaves. */
  function RecordsOf(d: DispatchResult): (r: seq<Notification>)
    ensures |r| <= 1
    ensures |r| == 1 <==> d.SavedOnly? || d.Sent?
  {
    if d.SavedOnly? || d.Sent? then [d.record] else []
  }

  /** The user `populate` attaches to a bill: the one whose id is the bill's owner. */
  function FindUser(users: seq<User>, id: Id): (r: Option<User>)
    ensures r.Some? ==> r.value in users && r.value.id == id
    ensures r.None? ==> forall i :: 0 <= i < |users| ==> users[i].id != id
  {
    if users == [] then None
    else if users[0].id == id then Some(users[0])
    else FindUser(users[1..], id)
  }

  /** Every due date in the store is a calendar date. */
  predicate DueDatesValid(bills: seq<Bill>) {
    forall i :: 0 <= i < |bills| ==> Valid(bills[i].due)
  }

  /** The ids of the bills the ledger already holds an entry for. */
  function NotifiedIds(ledger: seq<Notification>): set<Id> {
    set n | n in ledger && n.billId.Some? :: n.billId.value
  }

  // ---------------------------------------------------------------------------
  // The daily sweep, checkUpcomingBills

  /** The query of the daily sweep: pending bills whose owner is a known user. */
  predicate IsRegularCandidate(users: seq<User>, b: Bill) {
    b.status == Pending && FindUser(users, b.owner).Some?
  }

  function RegularCandidates(users: seq<User>, bills: seq<Bill>): seq<Bill> {
    Filter(bills, b => IsRegularCandidate(users, b))
  }

  /**
   * A bill is due for its one reminder when the ledger had no entry for it
   * when the sweep started and today lies between N days before the due date
   * and the due date, both included.
   */
  predicate InWindow(u: User, b: Bill, today: Date, notified: set<Id>)
    requires 1 <= b.due.month <= 12 && 1 <= today.month <= 12
  {
    b.id !in notified
    && DayNumber(b.due) - DaysBefore(u) <= DayNumber(today) <= DayNumber(b.due)
  }

  /** What the daily sweep does with one candidate: nothing, or one dispatch. */
  function RegularStep(users: seq<User>, b: Bill, today: Date, now: int, notified: set<Id>, env: Mailer): Option<DispatchResult>
    requires 1 <= b.due.month <= 12 && 1 <= today.month <= 12
  {
    match FindUser(users, b.owner)
    case None => None
    case Some(u) =>
      if InWindow(u, b, today, notified) then
        Some(Dispatch(u, b, false, env.configured, b.id !in env.failures, env.onDisk, now))
      else None
  }

  /** A dispatch that returned normally counts as processed; one that threw does not. */
  function Counted(d: Option<DispatchResult>): int {
    if d.Some? && !d.value.Failed? then 1 else 0
  }

  function StepRecords(d: Option<DispatchResult>): seq<Notification> {
    if d.Some? then RecordsOf(d.value) else []
  }

  /** The entries the daily sweep appends, candidate by candidate. */
  function RegularRecords(users: seq<User>, cands: seq<Bill>, today: Date, now: int, notified: set<Id>, env: Mailer): seq<Notification>
    requires DueDatesValid(cands) && 1 <= today.month <= 12
  {
    if cands == [] then []
    else
      RegularRecords(users, cands[..|cands| - 1], today, now, notified, env)
      + StepRecords(RegularStep(users, cands[|cands| - 1], today, now, notified, env))
  }

  /** The number the daily sweep returns. */
  function RegularCount(users: seq<User>, cands: seq<Bill>, today: Date, now: int, notified: set<Id>, env: Mailer): int
    requires DueDatesValid(cands) && 1 <= today.month <= 12
  {
    if cands == [] then 0
    else
      RegularCount(users, cands[..|cands| - 1], today, now, notified, env)
      + Counted(RegularStep(users, cands[|cands| - 1], today, now, notified, env))
  }

  lemma DueDatesValidPrefix(bills: seq<Bill>, n: nat)
    requires DueDatesValid(bills) && n <= |bills|
    ensures DueDatesValid(bills[..n])
  {
  }

  /** A selection from the store keeps its due dates valid. */
  lemma FilterKeepsDueDates(bills: seq<Bill>, p: Bill -> bool)
    requires DueDatesValid(bills)
    ensures DueDatesValid(Filter(bills, p))
  {
    var cs := Filter(bills, p);
    forall i | 0 <= i < |cs|
      ensures Valid(cs[i].due)
    {
      var k :| 0 <= k < |bills| && bills[k] == cs[i];
    }
  }

  lemma RegularUnfold(users: seq<User>, cands: seq<Bill>, i: int, today: Date, now: int, notified: set<Id>, env: Mailer)
    requires DueDatesValid(cands) && 0 <= i < |cands| && 1 <= today.month <= 12
    ensures DueDatesValid(cands[..i]) && DueDatesValid(cands[..i + 1])
    ensures RegularRecords(users, cands[..i + 1], today, now, notified, env)
            == RegularRecords(users, cands[..i], today, now, notified, env)
               + StepRecords(RegularStep(users, cands[i], today, now, notified, env))
    ensures RegularCount(users, cands[..i + 1], today, now, notified, env)
            == RegularCount(users, cands[..i], today, now, notified, env)
               + Counted(RegularStep(users, cands[i], today, now, notified, env))
  {
    assert cands[..i + 1][..i] == cands[..i];
  }

  /** One more candidate handled: the ledger and the count of the prefix grow by that candidate's step. */
  lemma RegularExtend(users: seq<User>, cands: seq<Bill>, i: int, today: Date, now: int, notified: set<Id>, env: Mailer,
                      base: seq<Notification>, before: seq<Notification>, after: seq<Notification>, count: int, counted: int)
    requires DueDatesValid(cands) && 0 <= i < |cands| && 1 <= today.month <= 12
    requires DueDatesValid(cands[..i])
    requires before == base + RegularRecords(users, cands[..i], today, now, notified, env)
    requires count == RegularCount(users, cands[..i], today, now, notified, env)
    requires after == before + StepRecords(RegularStep(users, cands[i], today, now, notified, env))
    requires counted == Counted(RegularStep(users, cands[i], today, now, notified, env))
    ensures DueDatesValid(cands[..i + 1])
    ensures after == base + RegularRecords(users, cands[..i + 1], today, now, notified, env)
    ensures count + counted == RegularCount(users, cands[..i + 1], today, now, notified, env)
  {
    RegularUnfold(users, cands, i, today, now, notified, env);
  }

  /** The daily sweep reports at most one success per candidate, and never a negative number. */
  lemma {:induction false} RegularCountBound(users: seq<User>, cands: seq<Bill>, today: Date, now: int, notified: set<Id>, env: Mailer)
    requires DueDatesValid(cands) && 1 <= today.month <= 12
    ensures 0 <= RegularCount(users, cands, today, now, notified, env) <= |cands|
    decreases |cands|
  {
    if cands != [] {
      RegularCountBound(users, cands[..|cands| - 1], today, now, notified, env);
    }
  }

  /**
   * Every entry the daily sweep writes is for a candidate that had no entry
   * when the sweep started and whose window contains today, and it is
   * addressed to that candidate's owner.
   */
  lemma {:induction false} RegularRecordsInWindow(users: seq<User>, cands: seq<Bill>, today: Date, now: int, notified: set<Id>, env: Mailer)
    requires DueDatesValid(cands) && 1 <= today.month <= 12
    ensures forall n :: n in RegularRecords(users, cands, today, now, notified, env) ==>
              exists b :: b in cands && FindUser(users, b.owner).Some? && n.billId == Some(b.id) && n.userId == b.owner
                && InWindow(FindUser(users, b.owner).value, b, today, notified)
    decreases |cands|
  {
    if cands != [] {
      var init, last := cands[..|cands| - 1], cands[|cands| - 1];
      RegularRecordsInWindow(users, init, today, now, notified, env);
      forall n | n in RegularRecords(users, cands, today, now, notified, env)
        ensures exists b :: b in cands && FindUser(users, b.owner).Some? && n.billId == Some(b.id) && n.userId == b.owner
                  && InWindow(FindUser(users, b.owner).value, b, today, notified)
      {
        if n in RegularRecords(users, init, today, now, notified, env) {
          var b :| b in init && FindUser(users, b.owner).Some? && n.billId == Some(b.id) && n.userId == b.owner
                   && InWindow(FindUser(users, b.owner).value, b, today, notified);
          assert b in cands;
        } else {
          assert n in StepRecords(RegularStep(users, last, today, now, notified, env));
          DispatchContents(FindUser(users, last.owner).value, last, false, env.configured, last.id !in env.failures, env.onDisk, now);
          assert last in cands;
        }
      }
    }
  }

  /** No entry of the daily sweep concerns a bill the ledger already had an entry for. */
  lemma RegularSkipsNotified(users: seq<User>, cands: seq<Bill>, today: Date, now: int, notified: set<Id>, env: Mailer)
    requires DueDatesValid(cands) && 1 <= today.month <= 12
    ensures forall n :: n in RegularRecords(users, cands, today, now, notified, env) ==>
              n.billId.Some? && n.billId.value !in notified
  {
    RegularRecordsInWindow(users, cands, today, now, notified, env);
  }

  /**
   * A candidate whose window contains today, that had no entry yet, whose
   * owner has an address and whose mail is not rejected gets its reminder.
   */
  lemma {:induction false} RegularReachesEligible(users: seq<User>, cands: seq<Bill>, today: Date, now: int, notified: set<Id>, env: Mailer, i: int)
    requires DueDatesValid(cands) && 1 <= today.month <= 12
    requires 0 <= i < |cands|
    requires FindUser(users, cands[i].owner).Some?
    requires InWindow(FindUser(users, cands[i].owner).value, cands[i], today, notified)
    requires Destination(FindUser(users, cands[i].owner).value).Some?
    requires cands[i].id !in env.failures || !env.configured
    ensures exists n :: n in RegularRecords(users, cands, today, now, notified, env) && n.billId == Some(cands[i].id)
    decreases |cands|
  {
    var init, last := cands[..|cands| - 1], cands[|cands| - 1];
    var step := RegularStep(users, last, today, now, notified, env);
    if i == |cands| - 1 {
      var u := FindUser(users, last.owner).value;
      DispatchContents(u, last, false, env.configured, last.id !in env.failures, env.onDisk, now);
      assert step.Some? && (step.value.SavedOnly? || step.value.Sent?);
      assert step.value.record in StepRecords(step);
    } else {
      assert init[i] == cands[i];
      RegularReachesEligible(users, init, today, now, notified, env, i);
      var n :| n in RegularRecords(users, init, today, now, notified, env) && n.billId == Some(cands[i].id);
      assert n in RegularRecords(users, cands, today, now, notified, env);
    }
  }

  // ---------------------------------------------------------------------------
  // The urgent sweep, checkBillsDueToday

  /** The query of the urgent sweep: pending, and due between today 00:00 and 23:59:59.999. */
  predicate IsDueToday(b: Bill, today: Date)
    requires 1 <= b.due.month <= 12 && 1 <= today.month <= 12
  {
    b.status == Pending && Midnight(today) <= Midnight(b.due) <= Midnight(today) + MsPerDay - 1
  }

  /** On calendar dates the timestamp window selects exactly the pending bills due on `today`. */
  lemma DueTodayIsSameDate(b: Bill, today: Date)
    requires Valid(b.due) && Valid(today)
    ensures IsDueToday(b, today) <==> b.status == Pending && b.due == today
  {
    DayNumberOrder(b.due, today);
  }

  predicate IsUrgentCandidate(today: Date, b: Bill) {
    1 <= b.due.month <= 12 && 1 <= today.month <= 12 && IsDueToday(b, today)
  }

  function UrgentCandidates(bills: seq<Bill>, today: Date): (r: seq<Bill>)
    requires DueDatesValid(bills) && 1 <= today.month <= 12
    ensures DueDatesValid(r)
    ensures forall i :: 0 <= i < |r| ==> IsDueToday(r[i], today) && r[i] in bills
  {
    FilterKeepsDueDates(bills, (b: Bill) => IsUrgentCandidate(today, b));
    Filter(bills, (b: Bill) => IsUrgentCandidate(today, b))
  }

  /** An entry for this user and bill written in the last three hours. */
  predicate RecentlyNotified(ledger: seq<Notification>, userId: Id, billId: Id, now: int) {
    exists i :: 0 <= i < |ledger| && ledger[i].userId == userId && ledger[i].billId == Some(billId)
                && ledger[i].sentAt >= now - ThreeHoursMs
  }

  /** The ledger, the successes so far, and whether a bill without an owner has aborted the sweep. */
  datatype UrgentState = UrgentState(ledger: seq<Notification>, count: int, aborted: bool)

  /**
   * One bill of the urgent sweep. A bill whose owner no longer exists makes
   * the sweep throw (the owner is dereferenced outside the per-bill `try`);
   * a bill with an entry in the last three hours is skipped.
   */
  function UrgentStep(users: seq<User>, st: UrgentState, b: Bill, now: int, env: Mailer): UrgentState
    requires 1 <= b.due.month <= 12
  {
    if st.aborted then st
    else
      match FindUser(users, b.owner)
      case None => st.(aborted := true)
      case Some(u) =>
        if RecentlyNotified(st.ledger, u.id, b.id, now) then st
        else
          var d := Dispatch(u, b, true, env.configured, b.id !in env.failures, env.onDisk, now);
          UrgentState(st.ledger + RecordsOf(d), st.count + (if d.Failed? then 0 else 1), false)
  }

  function UrgentRun(users: seq<User>, ledger: seq<Notification>, cands: seq<Bill>, now: int, env: Mailer): UrgentState
    requires DueDatesValid(cands)
  {
    if cands == [] then UrgentState(ledger, 0, false)
    else UrgentStep(users, UrgentRun(users, ledger, cands[..|cands| - 1], now, env), cands[|cands| - 1], now, env)
  }

  /**
   * The urgent sweep only appends, counts at most one success per bill, and
   * writes an entry for a (user, bill) pair only when the ledger as it stood
   * had none for that pair in the last three hours.
   */
  lemma {:induction false} UrgentRunAppendsWithCooldown(users: seq<User>, ledger: seq<Notification>, cands: seq<Bill>, now: int, env: Mailer)
    requires DueDatesValid(cands)
    ensures var st := UrgentRun(users, ledger, cands, now, env);
            && |ledger| <= |st.ledger| && st.ledger[..|ledger|] == ledger
            && 0 <= st.count <= |cands|
            && forall k :: |ledger| <= k < |st.ledger| ==>
                 st.ledger[k].billId.Some? && !RecentlyNotified(st.ledger[..k], st.ledger[k].userId, st.ledger[k].billId.value, now)
    decreases |cands|
  {
    if cands != [] {
      var init, last := cands[..|cands| - 1], cands[|cands| - 1];
      UrgentRunAppendsWithCooldown(users, ledger, init, now, env);
      var prev := UrgentRun(users, ledger, init, now, env);
      var st := UrgentRun(users, ledger, cands, now, env);
      assert st == UrgentStep(users, prev, last, now, env);
      if !prev.aborted && FindUser(users, last.owner).Some? {
        var u := FindUser(users, last.owner).value;
        if !RecentlyNotified(prev.ledger, u.id, last.id, now) {
          var d := Dispatch(u, last, true, env.configured, last.id !in env.failures, env.onDisk, now);
          assert st.ledger == prev.ledger + RecordsOf(d);
          assert st.ledger[..|prev.ledger|] == prev.ledger;
          assert st.ledger[..|ledger|] == prev.ledger[..|ledger|];
          forall k | |ledger| <= k < |st.ledger|
            ensures st.ledger[k].billId.Some? && !RecentlyNotified(st.ledger[..k], st.ledger[k].userId, st.ledger[k].billId.value, now)
          {
            if k < |prev.ledger| {
              assert st.ledger[k] == prev.ledger[k];
              assert st.ledger[..k] == prev.ledger[..k];
            } else {
              assert st.ledger[k] == d.record;
              assert st.ledger[..k] == prev.ledger;
            }
          }
        }
      }
    }
  }

  /** A bill already reminded within the last three hours gets no new urgent entry. */
  lemma {:induction false} UrgentRespectsCooldown(users: seq<User>, ledger: seq<Notification>, cands: seq<Bill>, now: int, env: Mailer, u: Id, b: Id)
    requires DueDatesValid(cands)
    requires RecentlyNotified(ledger, u, b, now)
    ensures var st := UrgentRun(users, ledger, cands, now, env);
            forall k :: |ledger| <= k < |st.ledger| ==> !(st.ledger[k].userId == u && st.ledger[k].billId == Some(b))
  {
    UrgentRunAppendsWithCooldown(users, ledger, cands, now, env);
    var st := UrgentRun(users, ledger, cands, now, env);
    var j :| 0 <= j < |ledger| && ledger[j].userId == u && ledger[j].billId == Some(b) && ledger[j].sentAt >= now - ThreeHoursMs;
    forall k | |ledger| <= k < |st.ledger|
      ensures !(st.ledger[k].userId == u && st.ledger[k].billId == Some(b))
    {
      assert st.ledger[..k][j] == ledger[j];
    }
  }

  /** One step aborts exactly when the sweep had already aborted or the bill's owner is missing. */
  lemma UrgentStepAborts(users: seq<User>, st: UrgentState, b: Bill, now: int, env: Mailer)
    requires 1 <= b.due.month <= 12
    ensures UrgentStep(users, st, b, now, env).aborted <==> st.aborted || FindUser(users, b.owner).None?
  {
  }

  /** Some bill in `cands` has an owner that is not among the users. */
  predicate OwnerMissing(users: seq<User>, cands: seq<Bill>) {
    exists i :: 0 <= i < |cands| && FindUser(users, cands[i].owner).None?
  }

  lemma OwnerMissingSnoc(users: seq<User>, cands: seq<Bill>)
    requires cands != []
    ensures OwnerMissing(users, cands) <==>
            OwnerMissing(users, cands[..|cands| - 1]) || FindUser(users, cands[|cands| - 1].owner).None?
  {
    var init := cands[..|cands| - 1];
    if OwnerMissing(users, init) {
      var i :| 0 <= i < |init| && FindUser(users, init[i].owner).None?;
      assert cands[i] == init[i];
    }
    if OwnerMissing(users, cands) {
      var i :| 0 <= i < |cands| && FindUser(users, cands[i].owner).None?;
      if i < |init| {
        assert init[i] == cands[i];
      }
    }
  }

  /** The sweep aborts exactly when some bill due today has no owner among the users. */
  lemma {:induction false} UrgentAbortsOnMissingOwner(users: seq<User>, ledger: seq<Notification>, cands: seq<Bill>, now: int, env: Mailer)
    requires DueDatesValid(cands)
    ensures UrgentRun(users, ledger, cands, now, env).aborted <==> OwnerMissing(users, cands)
    decreases |cands|
  {
    if cands != [] {
      var init, last := cands[..|cands| - 1], cands[|cands| - 1];
      UrgentAbortsOnMissingOwner(users, ledger, init, now, env);
      var st := UrgentRun(users, ledger, init, now, env);
      assert UrgentRun(users, ledger, cands, now, env) == UrgentStep(users, st, last, now, env);
      UrgentStepAborts(users, st, last, now, env);
      OwnerMissingSnoc(users, cands);
    }
  }

  lemma UrgentUnfold(users: seq<User>, ledger: seq<Notification>, cands: seq<Bill>, i: int, now: int, env: Mailer)
    requires DueDatesValid(cands) && 0 <= i < |cands|
    ensures DueDatesValid(cands[..i]) && DueDatesValid(cands[..i + 1])
    ensures UrgentRun(users, ledger, cands[..i + 1], now, env)
            == UrgentStep(users, UrgentRun(users, ledger, cands[..i], now, env), cands[i], now, env)
  {
    assert cands[..i + 1][..i] == cands[..i];
  }

  /** Once aborted, the rest of the bills change nothing. */
  lemma {:induction false} UrgentAbortIsFinal(users: seq<User>, ledger: seq<Notification>, cands: seq<Bill>, now: int, env: Mailer, n: nat)
    requires DueDatesValid(cands) && n <= |cands|
    requires UrgentRun(users, ledger, cands[..n], now, env).aborted
    ensures UrgentRun(users, ledger, cands, now, env) == UrgentRun(users, ledger, cands[..n], now, env)
    decreases |cands| - n
  {
    if n < |cands| {
      assert cands[..|cands| - 1][..n] == cands[..n];
      UrgentAbortIsFinal(users, ledger, cands[..|cands| - 1], now, env, n);
    } else {
      assert cands[..n] == cands;
    }
  }

  /** A step keeps the ledger it was given as a prefix of its own. */
  lemma UrgentStepGrows(users: seq<User>, st: UrgentState, b: Bill, now: int, env: Mailer)
    requires 1 <= b.due.month <= 12
    ensures var next := UrgentStep(users, st, b, now, env);
            |st.ledger| <= |next.ledger| && next.ledger[..|st.ledger|] == st.ledger
  {
  }

  /** The ledger after the first `n` bills is a prefix of the ledger after all of them. */
  lemma {:induction false} UrgentLedgerGrows(users: seq<User>, ledger: seq<Notification>, cands: seq<Bill>, now: int, env: Mailer, n: nat)
    requires DueDatesValid(cands) && n <= |cands|
    ensures var part := UrgentRun(users, ledger, cands[..n], now, env).ledger;
            var full := UrgentRun(users, ledger, cands, now, env).ledger;
            |part| <= |full| && full[..|part|] == part
    decreases |cands| - n
  {
    if n < |cands| {
      var init := cands[..|cands| - 1];
      assert init[..n] == cands[..n];
      UrgentLedgerGrows(users, ledger, init, now, env, n);
      UrgentStepGrows(users, UrgentRun(users, ledger, init, now, env), cands[|cands| - 1], now, env);
    } else {
      assert cands[..n] == cands;
    }
  }

  /** Every entry the urgent sweep appends names one of the bills it was given. */
  lemma {:induction false} UrgentEntriesNameCandidates(users: seq<User>, ledger: seq<Notification>, cands: seq<Bill>, now: int, env: Mailer)
    requires DueDatesValid(cands)
    ensures var st := UrgentRun(users, ledger, cands, now, env);
            forall k :: |ledger| <= k < |st.ledger| ==>
              exists j :: 0 <= j < |cands| && st.ledger[k].billId == Some(cands[j].id)
    decreases |cands|
  {
    if cands != [] {
      var init, last := cands[..|cands| - 1], cands[|cands| - 1];
      UrgentEntriesNameCandidates(users, ledger, init, now, env);
      UrgentRunAppendsWithCooldown(users, ledger, init, now, env);
      var prev := UrgentRun(users, ledger, init, now, env);
      var st := UrgentRun(users, ledger, cands, now, env);
      assert st == UrgentStep(users, prev, last, now, env);
      forall k | |ledger| <= k < |st.ledger|
        ensures exists j :: 0 <= j < |cands| && st.ledger[k].billId == Some(cands[j].id)
      {
        if k < |prev.ledger| {
          UrgentStepGrows(users, prev, last, now, env);
          assert st.ledger[k] == prev.ledger[k];
          var j :| 0 <= j < |init| && prev.ledger[k].billId == Some(init[j].id);
          assert init[j] == cands[j];
        } else {
          var u := FindUser(users, last.owner).value;
          DispatchContents(u, last, true, env.configured, last.id !in env.failures, env.onDisk, now);
          assert st.ledger[k].billId == Some(cands[|cands| - 1].id);
        }
      }
    }
  }

  /** A step for a bill not yet reminded, whose owner can be reached, appends one entry for it. */
  lemma UrgentStepAppends(users: seq<User>, st: UrgentState, b: Bill, now: int, env: Mailer)
    requires 1 <= b.due.month <= 12
    requires !st.aborted && FindUser(users, b.owner).Some?
    requires !RecentlyNotified(st.ledger, b.owner, b.id, now)
    requires Destination(FindUser(users, b.owner).value).Some?
    requires b.id !in env.failures || !env.configured
    ensures var next := UrgentStep(users, st, b, now, env);
            |next.ledger| == |st.ledger| + 1 && next.ledger[|st.ledger|].billId == Some(b.id)
            && next.ledger[|st.ledger|].userId == b.owner && next.ledger[|st.ledger|].sentAt == now
  {
    var u := FindUser(users, b.owner).value;
    DispatchContents(u, b, true, env.configured, b.id !in env.failures, env.onDisk, now);
  }

  /**
   * Before the `i`-th bill, the sweep has not aborted when every owner so far
   * exists, and with distinct bill ids it has written nothing for that bill.
   */
  lemma UrgentFreshBefore(users: seq<User>, ledger: seq<Notification>, cands: seq<Bill>, now: int, env: Mailer, i: int)
    requires DueDatesValid(cands) && 0 <= i < |cands|
    requires forall j, k :: 0 <= j < k < |cands| ==> cands[j].id != cands[k].id
    requires forall j :: 0 <= j < i ==> FindUser(users, cands[j].owner).Some?
    requires !RecentlyNotified(ledger, cands[i].owner, cands[i].id, now)
    ensures DueDatesValid(cands[..i])
    ensures var prev := UrgentRun(users, ledger, cands[..i], now, env);
            !prev.aborted && !RecentlyNotified(prev.ledger, cands[i].owner, cands[i].id, now) && |ledger| <= |prev.ledger|
  {
    var pre, b := cands[..i], cands[i];
    forall j | 0 <= j < |pre|
      ensures FindUser(users, pre[j].owner).Some?
    {
      assert pre[j] == cands[j];
    }
    UrgentAbortsOnMissingOwner(users, ledger, pre, now, env);
    UrgentRunAppendsWithCooldown(users, ledger, pre, now, env);
    UrgentEntriesNameCandidates(users, ledger, pre, now, env);
    var prev := UrgentRun(users, ledger, pre, now, env);
    forall k | 0 <= k < |prev.ledger|
      ensures !(prev.ledger[k].userId == b.owner && prev.ledger[k].billId == Some(b.id) && prev.ledger[k].sentAt >= now - ThreeHoursMs)
    {
      if k < |ledger| {
        assert prev.ledger[k] == ledger[k];
      } else {
        var j :| 0 <= j < |pre| && prev.ledger[k].billId == Some(pre[j].id);
        assert pre[j] == cands[j];
      }
    }
  }

  /**
   * A bill due today whose owner exists, that had no entry in the last three
   * hours, whose owner has an address and whose mail is not rejected gets an
   * entry, provided no earlier bill has aborted the sweep.
   */
  lemma UrgentReachesEligible(users: seq<User>, ledger: seq<Notification>, cands: seq<Bill>, now: int, env: Mailer, i: int)
    requires DueDatesValid(cands) && 0 <= i < |cands|
    requires forall j, k :: 0 <= j < k < |cands| ==> cands[j].id != cands[k].id
    requires forall j :: 0 <= j <= i ==> FindUser(users, cands[j].owner).Some?
    requires !RecentlyNotified(ledger, cands[i].owner, cands[i].id, now)
    requires Destination(FindUser(users, cands[i].owner).value).Some?
    requires cands[i].id !in env.failures || !env.configured
    ensures var st := UrgentRun(users, ledger, cands, now, env);
            exists k :: |ledger| <= k < |st.ledger| && st.ledger[k].billId == Some(cands[i].id)
                        && st.ledger[k].userId == cands[i].owner && st.ledger[k].sentAt == now
  {
    UrgentFreshBefore(users, ledger, cands, now, env, i);
    UrgentUnfold(users, ledger, cands, i, now, env);
    var prev := UrgentRun(users, ledger, cands[..i], now, env);
    UrgentStepAppends(users, prev, cands[i], now, env);
    UrgentLedgerGrows(users, ledger, cands, now, env, i + 1);
    var mid := UrgentRun(users, ledger, cands[..i + 1], now, env);
    var st := UrgentRun(users, ledger, cands, now, env);
    assert st.ledger[|prev.ledger|] == mid.ledger[|prev.ledger|];
  }

  /**
   * Both sweeps share the ledger: once the urgent sweep has written an entry
   * for a bill, a later daily sweep sends no reminder for that bill.
   */
  lemma UrgentEntryBlocksRegular(users: seq<User>, ledger: seq<Notification>, urgent: seq<Bill>, now: int, env: Mailer,
                                 later: seq<Bill>, today2: Date, now2: int, env2: Mailer, k: int)
    requires DueDatesValid(urgent) && DueDatesValid(later) && 1 <= today2.month <= 12
    requires var st := UrgentRun(users, ledger, urgent, now, env); |ledger| <= k < |st.ledger|
    ensures var st := UrgentRun(users, ledger, urgent, now, env);
            forall n :: n in RegularRecords(users, later, today2, now2, NotifiedIds(st.ledger), env2) ==>
              n.billId != st.ledger[k].billId
  {
    UrgentRunAppendsWithCooldown(users, ledger, urgent, now, env);
    var st := UrgentRun(users, ledger, urgent, now, env);
    assert st.ledger[k] in st.ledger;
    assert st.ledger[k].billId.value in NotifiedIds(st.ledger);
    RegularSkipsNotified(users, later, today2, now2, NotifiedIds(st.ledger), env2);
  }

  /** In the urgent sweep, run within the due day, the subject always says the bill is due today. */
  lemma UrgentSubjectSaysToday(u: User, b: Bill, today: Date, now: int, env: Mailer)
    requires Valid(b.due) && IsToday(today, now) && IsDueToday(b, today)
    requires Dispatch(u, b, true, env.configured, b.id !in env.failures, env.onDisk, now).Sent?
    ensures Dispatch(u, b, true, env.configured, b.id !in env.failures, env.onDisk, now).mail.subject
            == UrgentPrefix + ReminderHead + b.name + " vence HOJE"
  {
    DueTodayIsSameDate(b, today);
    DaysUntilFromToday(b.due, today, now);
  }

  // ---------------------------------------------------------------------------
  // The ledger and the two sweeps as they run

  class NotificationLedger {
    var records: seq<Notification>

    constructor (initial: seq<Notification>)
      ensures records == initial
    {
      records := initial;
    }

    /** One call of `sendNotification`; `thrown` says whether it left by throwing. */
    method SendNotification(u: User, b: Bill, isUrgent: bool, configured: bool, delivered: bool, onDisk: set<string>, now: int)
      returns (thrown: bool)
      requires 1 <= b.due.month <= 12
      modifies this
      ensures records == old(records) + RecordsOf(Dispatch(u, b, isUrgent, configured, delivered, onDisk, now))
      ensures thrown <==> Dispatch(u, b, isUrgent, configured, delivered, onDisk, now).Failed?
    {
      var d := Dispatch(u, b, isUrgent, configured, delivered, onDisk, now);
      thrown := false;
      match d
      case NoDestination =>
      case SavedOnly(record) =>
        records := records + [record];
      case Sent(_, record) =>
        records := records + [record];
      case Failed(_) =>
        thrown := true;
    }

    /** `checkUpcomingBills`: one reminder per bill, inside its window; returns the successes. */
    method CheckUpcomingBills(users: seq<User>, bills: seq<Bill>, today: Date, now: int, env: Mailer)
      returns (count: int)
      requires DueDatesValid(bills) && IsToday(today, now)
      modifies this
      ensures DueDatesValid(RegularCandidates(users, bills))
      ensures records == old(records)
                + RegularRecords(users, RegularCandidates(users, bills), today, now, NotifiedIds(old(records)), env)
      ensures count == RegularCount(users, RegularCandidates(users, bills), today, now, NotifiedIds(old(records)), env)
    {
      var cands := RegularCandidates(users, bills);
      FilterKeepsDueDates(bills, b => IsRegularCandidate(users, b));
      count := RemindAll(users, cands, today, now, NotifiedIds(records), env);
    }

    /** The loop over the candidates: every reminder appended in order, the successes counted. */
    method RemindAll(users: seq<User>, cands: seq<Bill>, today: Date, now: int, notified: set<Id>, env: Mailer)
      returns (count: int)
      requires DueDatesValid(cands) && 1 <= today.month <= 12
      requires forall i :: 0 <= i < |cands| ==> IsRegularCandidate(users, cands[i])
      modifies this
      ensures records == old(records) + RegularRecords(users, cands, today, now, notified, env)
      ensures count == RegularCount(users, cands, today, now, notified, env)
    {
      count := 0;
      var i := 0;
      assert RegularRecords(users, cands[..0], today, now, notified, env) == [];
      assert records == records + [];
      while i < |cands|
        invariant 0 <= i <= |cands|
        invariant DueDatesValid(cands[..i])
        invariant records == old(records) + RegularRecords(users, cands[..i], today, now, notified, env)
        invariant count == RegularCount(users, cands[..i], today, now, notified, env)
      {
        ghost var before := records;
        var counted := RemindOne(users, cands[i], today, now, notified, env);
        RegularExtend(users, cands, i, today, now, notified, env, old(records), before, records, count, counted);
        count := count + counted;
        i := i + 1;
      }
      assert cands[..i] == cands;
    }

    /** One candidate of the daily sweep: a reminder when the bill is inside its owner's window. */
    method RemindOne(users: seq<User>, b: Bill, today: Date, now: int, notified: set<Id>, env: Mailer)
      returns (counted: int)
      requires 1 <= b.due.month <= 12 && 1 <= today.month <= 12
      requires IsRegularCandidate(users, b)
      modifies this
      ensures records == old(records) + StepRecords(RegularStep(users, b, today, now, notified, env))
      ensures counted == Counted(RegularStep(users, b, today, now, notified, env))
    {
      var u := FindUser(users, b.owner).value;
      counted := 0;
      if InWindow(u, b, today, notified) {
        var thrown := SendNotification(u, b, false, env.configured, b.id !in env.failures, env.onDisk, now);
        if !thrown {
          counted := 1;
        }
      }
    }

    /** `checkBillsDueToday`: an urgent reminder per bill due today, at most one per three hours. */
    method CheckBillsDueToday(users: seq<User>, bills: seq<Bill>, today: Date, now: int, env: Mailer)
      returns (outcome: Option<int>)
      requires DueDatesValid(bills) && IsToday(today, now)
      modifies this
      ensures var st := UrgentRun(users, old(records), UrgentCandidates(bills, today), now, env);
              records == st.ledger && outcome == (if st.aborted then None else Some(st.count))
    {
      var cands := UrgentCandidates(bills, today);
      outcome := UrgentAll(users, cands, now, env);
    }

    /** The loop over the bills due today; `None` when a bill without an owner ends it by throwing. */
    method UrgentAll(users: seq<User>, cands: seq<Bill>, now: int, env: Mailer) returns (outcome: Option<int>)
      requires DueDatesValid(cands)
      modifies this
      ensures var st := UrgentRun(users, old(records), cands, now, env);
              records == st.ledger && outcome == (if st.aborted then None else Some(st.count))
    {
      ghost var start := records;
      var count := 0;
      var i := 0;
      while i < |cands|
        invariant 0 <= i <= |cands|
        invariant UrgentRun(users, start, cands[..i], now, env) == UrgentState(records, count, false)
      {
        UrgentUnfold(users, start, cands, i, now, env);
        var next, aborted := UrgentOne(users, cands[i], now, env, count);
        if aborted {
          UrgentAbortIsFinal(users, start, cands, now, env, i + 1);
          return None;
        }
        count := next;
        i := i + 1;
      }
      assert cands[..i] == cands;
      outcome := Some(count);
    }

    /** One bill of the urgent sweep, from the owner lookup to the reminder. */
    method UrgentOne(users: seq<User>, b: Bill, now: int, env: Mailer, count: int) returns (next: int, aborted: bool)
      requires 1 <= b.due.month <= 12
      modifies this
      ensures UrgentStep(users, UrgentState(old(records), count, false), b, now, env) == UrgentState(records, next, aborted)
    {
      var found := FindUser(users, b.owner);
      if found.None? {
        return count, true;
      }
      var u := found.value;
      next, aborted := count, false;
      if !RecentlyNotified(records, u.id, b.id, now) {
        var thrown := SendNotification(u, b, true, env.configured, b.id !in env.failures, env.onDisk, now);
        if !thrown {
          next := count + 1;
        }
      }
    }
  }
}
