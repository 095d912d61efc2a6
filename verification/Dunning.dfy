/** The reminder job and the suspension jobs together: no hard suspension comes unannounced. */
module Dunning {
  import opened Base
  import R = Reminder
  import S = Suspension

  /** A run of one of the jobs. */
  datatype Job = Remind(reminders: R.Tick) | Act(actions: S.Tick)

  function At(job: Job): Time {
    match job
    case Remind(t) => t.now
    case Act(t) => t.now
  }

  function Reminders(jobs: seq<Job>): seq<R.Row> {
    if jobs == [] then []
    else
      var before, job := Reminders(jobs[..|jobs| - 1]), jobs[|jobs| - 1];
      if job.Remind? then R.RemindAll(job.reminders.rules, before, job.reminders.views, job.reminders.now) else before
  }

  function Actions(jobs: seq<Job>): S.Desk {
    if jobs == [] then S.Desk(map[], [])
    else
      var before, job := Actions(jobs[..|jobs| - 1]), jobs[|jobs| - 1];
      if job.Act? then S.RunTick(before, job.actions) else before
  }

  ghost predicate InOrder(jobs: seq<Job>) {
    forall i, j :: 0 <= i < j < |jobs| ==> At(jobs[i]) <= At(jobs[j])
  }

  /** The final warning for an invoice is on record, from no later than an instant. */
  ghost predicate Warned(log: seq<R.Row>, invoice: R.Id, latest: Time) {
    exists m :: 0 <= m < |log| && log[m].invoice == invoice && log[m].kind == R.PreSuspend && log[m].at <= latest
  }

  // ------------------------------------------------------------------
  // The reminder job
  // ------------------------------------------------------------------

  ghost predicate Past(log: seq<R.Row>, now: Time) {
    forall m :: 0 <= m < |log| ==> log[m].at <= now
  }

  lemma {:induction false} LastKindRow(log: seq<R.Row>, invoice: R.Id, latest: Time)
    requires R.LastKind(log, invoice) == Some(R.PreSuspend) && Past(log, latest)
    ensures Warned(log, invoice, latest)
  {
    var n := |log| - 1;
    if log[n].invoice != invoice {
      LastKindRow(log[..n], invoice, latest);
      var m :| 0 <= m < n && log[..n][m].invoice == invoice && log[..n][m].kind == R.PreSuspend &&
        log[..n][m].at <= latest;
      assert log[m] == log[..n][m];
    } else {
      assert log[n].kind == R.PreSuspend;
    }
  }

  lemma WarnedGrows(log: seq<R.Row>, more: seq<R.Row>, invoice: R.Id, latest: Time)
    requires Warned(log, invoice, latest) && log <= more
    ensures Warned(more, invoice, latest)
  {
    var m :| 0 <= m < |log| && log[m].invoice == invoice && log[m].kind == R.PreSuspend && log[m].at <= latest;
    assert more[m] == log[m];
  }

  lemma {:induction false} RemindAllGrows(rules: R.Rules, log: seq<R.Row>, views: seq<R.Invoice>, now: Time)
    requires Past(log, now)
    ensures log <= R.RemindAll(rules, log, views, now) && Past(R.RemindAll(rules, log, views, now), now)
  {
    hide R.Sent;
    if views != [] {
      RemindAllGrows(rules, log, views[..|views| - 1], now);
    }
  }

  /** The pre-suspend window of an unpaid invoice is open, and the look-ahead does not skip it. */
  predicate WarningDue(rules: R.Rules, v: R.Invoice, now: Time) {
    var i := R.InputOf(rules, [], v);
    !v.isPaid && !v.isCancelled && i.suspendAfterDays > 0 && R.PreSuspendAt(rules.reminder(v.customer), i) <= now &&
    !R.Skipped(i, now)
  }

  lemma RemindWarns(rules: R.Rules, log: seq<R.Row>, v: R.Invoice, now: Time)
    requires WarningDue(rules, v, now) && Past(log, now)
    ensures Warned(R.Remind(rules, log, v, now), v.id, now)
  {
    var sent, r := R.Sent(rules, log, v, now), R.Remind(rules, log, v, now);
    if R.LastKind(log, v.id) == Some(R.PreSuspend) {
      LastKindRow(log, v.id, now);
      WarnedGrows(log, r, v.id, now);
    } else {
      assert sent == Some(R.PreSuspend);
      hide R.Sent;
      var row := R.Row(v.id, R.PreSuspend, now);
      assert r == R.Insert(log, row);
      if r != log {
        assert r[|log|] == row;
      }
    }
  }

  /** A tick that lists the invoice in its pre-suspend window leaves the final warning on record. */
  lemma {:induction false} RemindAllWarns(
    rules: R.Rules, log: seq<R.Row>, views: seq<R.Invoice>, now: Time, v: R.Invoice)
    requires WarningDue(rules, v, now) && Past(log, now) && v in views
    ensures Warned(R.RemindAll(rules, log, views, now), v.id, now)
  {
    hide WarningDue, Warned, R.Remind;
    var n := |views| - 1;
    RemindAllGrows(rules, log, views[..n], now);
    RemindAllGrows(rules, log, views, now);
    var before := R.RemindAll(rules, log, views[..n], now);
    if views[n] == v {
      RemindWarns(rules, before, v, now);
    } else {
      RemindAllWarns(rules, log, views[..n], now, v);
      RemindGrows(rules, before, views[n], now);
      WarnedGrows(before, R.RemindAll(rules, log, views, now), v.id, now);
    }
  }

  lemma RemindGrows(rules: R.Rules, log: seq<R.Row>, v: R.Invoice, now: Time)
    ensures log <= R.Remind(rules, log, v, now)
  {
  }

  lemma {:induction false} RemindersPast(jobs: seq<Job>, now: Time)
    requires InOrder(jobs) && (jobs != [] ==> At(jobs[|jobs| - 1]) <= now)
    ensures Past(Reminders(jobs), now)
  {
    hide R.RemindAll;
    if jobs != [] {
      var n := |jobs| - 1;
      assert n > 0 ==> At(jobs[n - 1]) <= At(jobs[n]);
      RemindersPast(jobs[..n], At(jobs[n]));
      if jobs[n].Remind? {
        RemindAllGrows(jobs[n].reminders.rules, Reminders(jobs[..n]), jobs[n].reminders.views, jobs[n].reminders.now);
      }
    }
  }

  /** Once a job has listed the invoice in its window, the warning stays on record. */
  lemma {:induction false} WarnedFrom(jobs: seq<Job>, i: nat, v: R.Invoice)
    requires InOrder(jobs) && i < |jobs| && jobs[i].Remind?
    requires v in jobs[i].reminders.views && WarningDue(jobs[i].reminders.rules, v, At(jobs[i]))
    ensures Warned(Reminders(jobs), v.id, At(jobs[i]))
    decreases |jobs|
  {
    hide WarningDue, Warned, R.RemindAll;
    var n := |jobs| - 1;
    var before := Reminders(jobs[..n]);
    assert n > 0 ==> At(jobs[n - 1]) <= At(jobs[n]);
    RemindersPast(jobs[..n], At(jobs[n]));
    if i == n {
      RemindAllWarns(jobs[n].reminders.rules, before, jobs[n].reminders.views, At(jobs[n]), v);
    } else {
      WarnedFrom(jobs[..n], i, v);
      if jobs[n].Remind? {
        RemindAllGrows(jobs[n].reminders.rules, before, jobs[n].reminders.views, jobs[n].reminders.now);
        WarnedGrows(before, Reminders(jobs), v.id, At(jobs[i]));
      }
    }
  }

  // ------------------------------------------------------------------
  // The suspension jobs
  // ------------------------------------------------------------------

  lemma HardIsLate(p: S.Policy, due: Time, last: Option<S.Action>, now: Time)
    requires S.NextAction(p, Some(due), last, now) == Some(S.HardSuspend)
    ensures p.hardDays > 0 && due + p.hardDays * DAY <= now
  {
    var worst := S.NextIsWorst(p, due, last, now);
  }

  /** The grace before a hard suspension has run out for an invoice due then. */
  predicate GraceOver(p: S.Policy, due: Time, now: Time) {
    p.hardDays > 0 && due + p.hardDays * DAY <= now
  }

  /** A row of a pass that hard-suspends a customer carries its instant, and a listing past the grace caused it. */
  lemma {:induction false} HardRowCause(
    policy: S.Id -> S.Policy, d: S.Desk, cs: seq<S.Candidate>, now: Time, c: S.Id, n: nat)
    returns (k: nat)
    requires |d.log| <= n < |S.EscalateAll(policy, d, cs, now).log|
    requires
      var row := S.EscalateAll(policy, d, cs, now).log[n];
      row.customer == c && row.action == S.HardSuspend
    ensures S.EscalateAll(policy, d, cs, now).log[n].at == now
    ensures k < |cs| && cs[k].customer == c && cs[k].oldestDue.Some?
    ensures GraceOver(policy(c), cs[k].oldestDue.value, now)
  {
    hide S.NextAction;
    var last := |cs| - 1;
    var before := S.EscalateAll(policy, d, cs[..last], now);
    if n < |before.log| {
      k := HardRowCause(policy, d, cs[..last], now, c, n);
      assert cs[..last][k] == cs[k];
    } else {
      k := last;
      S.NoDueNoAction(policy(c), S.LastAction(before.log, c), now);
      HardIsLate(policy(c), cs[k].oldestDue.value, S.LastAction(before.log, c), now);
    }
  }

  lemma {:induction false} EscalateGrows(policy: S.Id -> S.Policy, d: S.Desk, cs: seq<S.Candidate>, now: Time)
    ensures d.log <= S.EscalateAll(policy, d, cs, now).log
  {
    hide S.NextAction;
    if cs != [] {
      EscalateGrows(policy, d, cs[..|cs| - 1], now);
    }
  }

  lemma {:induction false} RestoreRows(d: S.Desk, listed: S.Desk, cs: seq<S.Id>, now: Time)
    ensures
      var log := S.RestoreAll(d, listed, cs, now).log;
      d.log <= log && forall n :: |d.log| <= n < |log| ==> log[n].action == S.Restore
  {
    if cs != [] {
      RestoreRows(d, listed, cs[..|cs| - 1], now);
    }
  }

  // ------------------------------------------------------------------
  // Both
  // ------------------------------------------------------------------

  /** An unpaid invoice of a customer, due then. */
  predicate Unpaid(v: R.Invoice, c: S.Id, due: Time) {
    v.customer == c && v.due == due && !v.isPaid && !v.isCancelled
  }

  /** A reminder tick in the day before an instant listed the invoice, under the same grace. */
  predicate ListsDayBefore(job: Job, v: R.Invoice, hardDays: int, now: Time) {
    && job.Remind? && v in job.reminders.views
    && job.reminders.rules.suspension(v.customer).hardDays == hardDays
    && now - DAY <= At(job) < now
  }

  /** In the day before, some unpaid invoice of the set that the customer is listed for was listed for a reminder. */
  ghost predicate Reminded(jobs: seq<Job>, among: set<R.Invoice>, c: S.Id, due: Time, hardDays: int, now: Time) {
    exists i, v ::
      0 <= i < |jobs| && v in among && Unpaid(v, c, due) && ListsDayBefore(jobs[i], v, hardDays, now)
  }

  /** A job that is no suspension tick, or one that lists the customer past the grace only after a reminder. */
  ghost predicate TickReminded(jobs: seq<Job>, among: set<R.Invoice>, c: S.Id, job: Job) {
    job.Act? && job.actions.Suspend? ==>
      forall k :: 0 <= k < |job.actions.candidates| ==>
        var who, p := job.actions.candidates[k], job.actions.policy(c);
        who.customer == c && who.oldestDue.Some? && GraceOver(p, who.oldestDue.value, At(job)) ==>
          Reminded(jobs, among, c, who.oldestDue.value, p.hardDays, At(job))
  }

  ghost predicate RemindedInTime(jobs: seq<Job>, among: set<R.Invoice>, c: S.Id) {
    forall j :: 0 <= j < |jobs| ==> TickReminded(jobs, among, c, jobs[j])
  }

  /** At that instant a suspension tick listed the customer for an invoice due then, past the grace. */
  ghost predicate ListedAt(jobs: seq<Job>, c: S.Id, due: Time, at: Time) {
    exists j :: 0 <= j < |jobs| && At(jobs[j]) == at && Lists(jobs[j], c, due)
  }

  ghost predicate Lists(job: Job, c: S.Id, due: Time) {
    && job.Act? && job.actions.Suspend? && S.Candidate(c, Some(due)) in job.actions.candidates
    && GraceOver(job.actions.policy(c), due, At(job))
  }

  /** An unpaid invoice for which the customer was listed at that instant had its final warning on record before. */
  ghost predicate AnnouncedBefore(jobs: seq<Job>, among: set<R.Invoice>, c: S.Id, at: Time) {
    exists v :: v in among && Unpaid(v, c, v.due) && ListedAt(jobs, c, v.due, at) &&
      Warned(Reminders(jobs), v.id, at - 1)
  }

  /** Every hard suspension of the customer in the action log was announced. */
  ghost predicate Announced(jobs: seq<Job>, among: set<R.Invoice>, c: S.Id) {
    var log := Actions(jobs).log;
    forall n :: 0 <= n < |log| && log[n].customer == c && log[n].action == S.HardSuspend ==>
      AnnouncedBefore(jobs, among, c, log[n].at)
  }

  lemma RemindedEarlier(
    jobs: seq<Job>, among: set<R.Invoice>, c: S.Id, due: Time, hardDays: int, n: nat, now: Time)
    requires InOrder(jobs) && n < |jobs| && Reminded(jobs, among, c, due, hardDays, now) && now <= At(jobs[n])
    ensures Reminded(jobs[..n], among, c, due, hardDays, now)
  {
    var i, v :|
      0 <= i < |jobs| && v in among && Unpaid(v, c, due) && ListsDayBefore(jobs[i], v, hardDays, now);
    assert i < n;
    assert jobs[..n][i] == jobs[i];
  }

  lemma FrontReminded(jobs: seq<Job>, among: set<R.Invoice>, c: S.Id)
    requires jobs != [] && InOrder(jobs) && RemindedInTime(jobs, among, c)
    ensures InOrder(jobs[..|jobs| - 1]) && RemindedInTime(jobs[..|jobs| - 1], among, c)
  {
    hide Reminded, GraceOver;
    var n := |jobs| - 1;
    forall j | 0 <= j < n
      ensures TickReminded(jobs[..n], among, c, jobs[..n][j])
    {
      var job := jobs[j];
      assert jobs[..n][j] == job && TickReminded(jobs, among, c, job) && At(job) <= At(jobs[n]);
      if job.Act? && job.actions.Suspend? {
        var p, cs := job.actions.policy(c), job.actions.candidates;
        forall k | 0 <= k < |cs| && cs[k].customer == c && cs[k].oldestDue.Some? &&
          GraceOver(p, cs[k].oldestDue.value, At(job))
          ensures Reminded(jobs[..n], among, c, cs[k].oldestDue.value, p.hardDays, At(job))
        {
          RemindedEarlier(jobs, among, c, cs[k].oldestDue.value, p.hardDays, n, At(job));
        }
      }
    }
  }

  /** The reminder that listed the invoice the day before found its window open. */
  lemma WarningWasDue(rules: R.Rules, v: R.Invoice, now: Time, hard: Time)
    requires !v.isPaid && !v.isCancelled && rules.suspension(v.customer).hardDays > 0
    requires v.due + rules.suspension(v.customer).hardDays * DAY <= hard && hard - DAY <= now
    ensures WarningDue(rules, v, now)
  {
    var days, offset := rules.suspension(v.customer).hardDays, rules.reminder(v.customer).preSuspendOffset;
    assert R.PreSuspendAt(rules.reminder(v.customer), R.InputOf(rules, [], v)) <= v.due + (days - 1) * DAY;
  }

  lemma RemindersGrow(jobs: seq<Job>)
    requires InOrder(jobs) && jobs != []
    ensures Reminders(jobs[..|jobs| - 1]) <= Reminders(jobs)
  {
    hide R.RemindAll;
    var n := |jobs| - 1;
    assert n > 0 ==> At(jobs[n - 1]) <= At(jobs[n]);
    RemindersPast(jobs[..n], At(jobs[n]));
    if jobs[n].Remind? {
      RemindAllGrows(jobs[n].reminders.rules, Reminders(jobs[..n]), jobs[n].reminders.views, jobs[n].reminders.now);
    }
  }

  lemma ActsGrow(d: S.Desk, t: S.Tick)
    ensures d.log <= S.RunTick(d, t).log
  {
    match t
    case Suspend(policy, candidates, now) => EscalateGrows(policy, d, candidates, now);
    case RestorePaid(customers, now) => RestoreRows(d, d, customers, now);
  }

  lemma AnnouncedGrows(jobs: seq<Job>, among: set<R.Invoice>, c: S.Id, at: Time)
    requires InOrder(jobs) && jobs != [] && AnnouncedBefore(jobs[..|jobs| - 1], among, c, at)
    ensures AnnouncedBefore(jobs, among, c, at)
  {
    hide Warned, Lists, InOrder, Reminders;
    var front := jobs[..|jobs| - 1];
    var v :| v in among && Unpaid(v, c, v.due) && ListedAt(front, c, v.due, at) &&
      Warned(Reminders(front), v.id, at - 1);
    var j :| 0 <= j < |front| && At(front[j]) == at && Lists(front[j], c, v.due);
    assert jobs[j] == front[j];
    RemindersGrow(jobs);
    WarnedGrows(Reminders(front), Reminders(jobs), v.id, at - 1);
  }

  /** A hard suspension that the last job logs was announced. */
  lemma AnnouncedNow(jobs: seq<Job>, among: set<R.Invoice>, c: S.Id, n: nat)
    requires jobs != [] && InOrder(jobs) && RemindedInTime(jobs, among, c)
    requires |Actions(jobs[..|jobs| - 1]).log| <= n < |Actions(jobs).log|
    requires Actions(jobs).log[n].customer == c && Actions(jobs).log[n].action == S.HardSuspend
    ensures AnnouncedBefore(jobs, among, c, Actions(jobs).log[n].at)
  {
    hide WarningDue, Warned, R.RemindAll, S.EscalateAll, S.RestoreAll, Reminders;
    var last := |jobs| - 1;
    var before, act := Actions(jobs[..last]), jobs[last].actions;
    match act
    case RestorePaid(customers, now) =>
      RestoreRows(before, before, customers, now);
      assert false;
    case Suspend(policy, candidates, now) =>
      var k := HardRowCause(policy, before, candidates, now, c, n);
      var due, hardDays := candidates[k].oldestDue.value, policy(c).hardDays;
      assert TickReminded(jobs, among, c, jobs[last]);
      assert Reminded(jobs, among, c, due, hardDays, now);
      var i, v :|
        0 <= i < |jobs| && v in among && Unpaid(v, c, due) && ListsDayBefore(jobs[i], v, hardDays, now);
      WarningWasDue(jobs[i].reminders.rules, v, At(jobs[i]), now);
      WarnedFrom(jobs, i, v);
      WarnedLater(Reminders(jobs), v.id, At(jobs[i]), now - 1);
      assert candidates[k] == S.Candidate(c, Some(due));
      assert Lists(jobs[last], c, due);
  }

  /**
   Over any interleaving of the two jobs, with restores in between and policies and due dates changing:
   if each suspension tick that lists a customer past the grace comes within a day of a reminder tick
   that listed an unpaid invoice with that due date, under the same grace, then every hard suspension
   of the customer is preceded by the logged pre-suspend reminder of an unpaid invoice it was for.
   */
  lemma {:induction false} HardSuspensionsAnnounced(jobs: seq<Job>, among: set<R.Invoice>, c: S.Id)
    requires InOrder(jobs) && RemindedInTime(jobs, among, c)
    ensures Announced(jobs, among, c)
  {
    if jobs != [] {
      var n := |jobs| - 1;
      FrontReminded(jobs, among, c);
      HardSuspensionsAnnounced(jobs[..n], among, c);
      hide InOrder, RemindedInTime, AnnouncedBefore, S.RunTick;
      var before, log := Actions(jobs[..n]), Actions(jobs).log;
      forall k | 0 <= k < |log| && log[k].customer == c && log[k].action == S.HardSuspend
        ensures AnnouncedBefore(jobs, among, c, log[k].at)
      {
        if jobs[n].Act? {
          ActsGrow(before, jobs[n].actions);
        }
        if k < |before.log| {
          assert log[k] == before.log[k];
          AnnouncedGrows(jobs, among, c, log[k].at);
        } else {
          AnnouncedNow(jobs, among, c, k);
        }
      }
    }
  }

  /** In particular, for one invoice that is all its customer is ever listed for. */
  lemma OneInvoiceAnnounced(jobs: seq<Job>, v: R.Invoice, hardDays: int, n: nat)
    requires InOrder(jobs) && Unpaid(v, v.customer, v.due)
    requires forall j :: 0 <= j < |jobs| && jobs[j].Act? && jobs[j].actions.Suspend? ==>
      && jobs[j].actions.policy(v.customer).hardDays == hardDays
      && (forall k :: 0 <= k < |jobs[j].actions.candidates| && jobs[j].actions.candidates[k].customer == v.customer ==>
        jobs[j].actions.candidates[k].oldestDue == Some(v.due))
      && exists i :: 0 <= i < |jobs| && ListsDayBefore(jobs[i], v, hardDays, At(jobs[j]))
    requires n < |Actions(jobs).log| && Actions(jobs).log[n].customer == v.customer
    requires Actions(jobs).log[n].action == S.HardSuspend
    ensures Warned(Reminders(jobs), v.id, Actions(jobs).log[n].at - 1)
  {
    hide ListsDayBefore, InOrder, Actions, Warned, Reminders, GraceOver;
    HardSuspensionsAnnounced(jobs, {v}, v.customer);
  }

  lemma WarnedLater(log: seq<R.Row>, invoice: R.Id, latest: Time, later: Time)
    requires Warned(log, invoice, latest) && latest <= later
    ensures Warned(log, invoice, later)
  {
  }
}
