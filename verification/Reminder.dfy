/**
 The reminder ladder of an invoice, and the scheduled job that climbs it. The job logs at most one
 row for each invoice and kind.
 */
module Reminder {
  import opened Base
  import Suspension

  type Id = nat

  datatype Kind = Soft | DueToday | OverdueD1 | OverdueD3 | OverdueD7 | PreSuspend | Unknown(name: string)

  datatype Step = Step(daysAfterDue: int, kind: Kind)

  datatype Policy = Policy(softOffset: int, steps: seq<Step>, preSuspendOffset: int)

  datatype Input = Input(due: Time, isPaid: bool, isCancelled: bool, lastSent: Option<Kind>, suspendAfterDays: int)

  /** Position in the canonical order; nothing sent and unknown kinds come before all. */
  function Index(k: Option<Kind>): (i: int)
    ensures -1 <= i <= 5
  {
    match k
    case Some(Soft) => 0
    case Some(DueToday) => 1
    case Some(OverdueD1) => 2
    case Some(OverdueD3) => 3
    case Some(OverdueD7) => 4
    case Some(PreSuspend) => 5
    case _ => -1
  }

  /** The ladder from its first rung to its last; unknown kinds are below it. */
  lemma Ladder(k: Kind)
    ensures Index(Some(Soft)) < Index(Some(DueToday)) < Index(Some(OverdueD1))
    ensures Index(Some(OverdueD1)) < Index(Some(OverdueD3)) < Index(Some(OverdueD7)) < Index(Some(PreSuspend))
    ensures k.Unknown? ==> Index(Some(k)) == Index(None) < Index(Some(Soft))
  {
  }

  /** The latest kind among the overdue steps that have been reached. */
  function HighestStep(steps: seq<Step>, due: Time, now: Time): Option<Kind> {
    if steps == [] then None
    else
      var best, step := HighestStep(steps[..|steps| - 1], due, now), steps[|steps| - 1];
      if now >= due + step.daysAfterDue * DAY && Index(Some(step.kind)) > Index(best) then Some(step.kind) else best
  }

  function PreSuspendAt(p: Policy, i: Input): Time {
    i.due + (i.suspendAfterDays - if p.preSuspendOffset <= 0 then 1 else p.preSuspendOffset) * DAY
  }

  function NextKind(p: Policy, i: Input, now: Time): Option<Kind> {
    var last, step := Index(i.lastSent), HighestStep(p.steps, i.due, now);
    if i.isPaid || i.isCancelled then None
    else if i.suspendAfterDays > 0 && now >= PreSuspendAt(p, i) && last < Index(Some(PreSuspend)) then Some(PreSuspend)
    else if step.Some? && Index(step) > last then step
    else if i.due <= now < i.due + DAY && last < Index(Some(DueToday)) then Some(DueToday)
    else if p.softOffset > 0 && i.due - p.softOffset * DAY <= now < i.due && last < Index(Some(Soft)) then Some(Soft)
    else None
  }

  /** The evaluator, with the loop that keeps the best step so far. */
  method NextReminderKindForInvoice(p: Policy, i: Input, now: Time) returns (kind: Option<Kind>)
    ensures kind == NextKind(p, i, now)
  {
    if i.isPaid || i.isCancelled {
      return None;
    }
    var lastIdx := Index(i.lastSent);
    if i.suspendAfterDays > 0 {
      var preOffset := p.preSuspendOffset;
      if preOffset <= 0 {
        preOffset := 1;
      }
      var preSuspendAt := i.due + (i.suspendAfterDays - preOffset) * DAY;
      if now >= preSuspendAt {
        if lastIdx < Index(Some(PreSuspend)) {
          return Some(PreSuspend);
        }
      }
    }
    var candidate: Option<Kind>, candidateIdx := None, -1;
    for n := 0 to |p.steps|
      invariant candidate == HighestStep(p.steps[..n], i.due, now)
      invariant candidateIdx == Index(candidate)
    {
      assert p.steps[..n + 1][..n] == p.steps[..n];
      var step := p.steps[n];
      if now >= i.due + step.daysAfterDue * DAY {
        var idx := Index(Some(step.kind));
        if idx > candidateIdx {
          candidate, candidateIdx := Some(step.kind), idx;
        }
      }
    }
    assert p.steps[..|p.steps|] == p.steps;
    if candidate.Some? && candidateIdx > lastIdx {
      return candidate;
    }
    if i.due <= now && now < i.due + DAY && lastIdx < Index(Some(DueToday)) {
      return Some(DueToday);
    }
    if p.softOffset > 0 {
      var softAt := i.due - p.softOffset * DAY;
      if softAt <= now && now < i.due && lastIdx < Index(Some(Soft)) {
        return Some(Soft);
      }
    }
    return None;
  }

  // ------------------------------------------------------------------
  // One evaluation
  // ------------------------------------------------------------------

  /** The highest step is a crossed step, and no crossed step is later in the order. */
  lemma {:induction false} HighestStepIsHighest(steps: seq<Step>, due: Time, now: Time)
    ensures
      var best := HighestStep(steps, due, now);
      (best.Some? ==>
        Index(best) >= 0 &&
        exists n :: 0 <= n < |steps| && steps[n].kind == best.value && now >= due + steps[n].daysAfterDue * DAY) &&
      forall n :: 0 <= n < |steps| && now >= due + steps[n].daysAfterDue * DAY ==>
        Index(Some(steps[n].kind)) <= Index(best)
  {
    if steps != [] {
      var n := |steps| - 1;
      HighestStepIsHighest(steps[..n], due, now);
      var before := HighestStep(steps[..n], due, now);
      if before.Some? {
        var k :| 0 <= k < n && steps[..n][k].kind == before.value && now >= due + steps[..n][k].daysAfterDue * DAY;
        assert steps[k] == steps[..n][k];
      }
      forall k | 0 <= k < |steps| && now >= due + steps[k].daysAfterDue * DAY
        ensures Index(Some(steps[k].kind)) <= Index(HighestStep(steps, due, now))
      {
        if k < n {
          assert steps[..n][k] == steps[k];
        }
      }
    }
  }

  /** A reminder is always of a kind later than the last one sent. */
  lemma NextIsLater(p: Policy, i: Input, now: Time)
    ensures NextKind(p, i, now).Some? ==> Index(NextKind(p, i, now)) > Index(i.lastSent)
  {
  }

  /** The steps a resolved policy can hold: the resolver drops those not after the due date. */
  ghost predicate Resolved(p: Policy) {
    forall n :: 0 <= n < |p.steps| ==> p.steps[n].daysAfterDue >= 1
  }

  /** The grace has run out, or will within the days of the pre-suspend offset, which is one by default. */
  predicate NearSuspension(p: Policy, i: Input, now: Time) {
    && i.suspendAfterDays > 0
    && i.due + i.suspendAfterDays * DAY <= now + (if p.preSuspendOffset > 0 then p.preSuspendOffset else 1) * DAY
  }

  lemma NearSuspensionIff(p: Policy, i: Input, now: Time)
    ensures NearSuspension(p, i, now) <==> i.suspendAfterDays > 0 && now >= PreSuspendAt(p, i)
  {
  }

  /** The kinds whose own window is open at an instant, read off one by one. */
  ghost predicate IsDue(p: Policy, i: Input, k: Kind, now: Time) {
    || (k == PreSuspend && NearSuspension(p, i, now))
    || (exists n :: 0 <= n < |p.steps| && p.steps[n].kind == k && now >= i.due + p.steps[n].daysAfterDue * DAY)
    || (k == DueToday && i.due <= now < i.due + DAY)
    || (k == Soft && p.softOffset > 0 && i.due - p.softOffset * DAY <= now < i.due)
  }

  /** The latest known kind that is due, if any is. */
  ghost predicate IsLatestDue(p: Policy, i: Input, k: Option<Kind>, now: Time) {
    (k.Some? ==> Index(k) >= 0 && IsDue(p, i, k.value, now)) &&
    forall other :: IsDue(p, i, other, now) ==> Index(Some(other)) <= Index(k)
  }

  /**
   The ordered rules amount to one: an open invoice gets the latest kind that is due, if that is
   later than the last one sent, however long the job was down; kinds skipped on the way are gone.
   */
  lemma NextIsLatestDue(p: Policy, i: Input, now: Time) returns (latest: Option<Kind>)
    requires Resolved(p) && !i.isPaid && !i.isCancelled
    ensures IsLatestDue(p, i, latest, now)
    ensures NextKind(p, i, now) == if Index(latest) > Index(i.lastSent) then latest else None
  {
    hide HighestStep, PreSuspendAt, NearSuspension;
    HighestStepIsHighest(p.steps, i.due, now);
    NearSuspensionIff(p, i, now);
    var step := HighestStep(p.steps, i.due, now);
    latest := if i.suspendAfterDays > 0 && now >= PreSuspendAt(p, i) then Some(PreSuspend)
    else if step.Some? then step
    else if i.due <= now < i.due + DAY then Some(DueToday)
    else if p.softOffset > 0 && i.due - p.softOffset * DAY <= now < i.due then Some(Soft)
    else None;
  }

  /** Evaluating again at the same instant, with the reminder just sent on record, sends nothing. */
  lemma SecondTickSendsNothing(p: Policy, i: Input, now: Time)
    requires Resolved(p) && NextKind(p, i, now).Some?
    ensures NextKind(p, i.(lastSent := NextKind(p, i, now)), now) == None
  {
    HighestStepIsHighest(p.steps, i.due, now);
  }

  /** Some step for a soft reminder comes no later than the due date, and no such step is for a later kind. */
  ghost predicate EarlySoftLast(p: Policy) {
    (exists n :: 0 <= n < |p.steps| && p.steps[n].kind == Soft && p.steps[n].daysAfterDue <= 0) &&
    forall n :: 0 <= n < |p.steps| && p.steps[n].daysAfterDue <= 0 ==> Index(Some(p.steps[n].kind)) <= Index(Some(Soft))
  }

  /** Without the resolver's filter a second evaluation at the same instant can send again exactly in that case. */
  lemma SecondEvaluationIff(p: Policy)
    ensures
      (forall i: Input, now: Time ::
        NextKind(p, i, now).Some? ==> NextKind(p, i.(lastSent := NextKind(p, i, now)), now) == None) <==>
      !EarlySoftLast(p)
  {
    if EarlySoftLast(p) {
      var i := Input(0, false, false, None, 0);
      HighestStepIsHighest(p.steps, 0, 0);
      assert NextKind(p, i, 0) == Some(Soft) && NextKind(p, i.(lastSent := Some(Soft)), 0) == Some(DueToday);
    } else {
      forall i: Input, now: Time | NextKind(p, i, now).Some?
        ensures NextKind(p, i.(lastSent := NextKind(p, i, now)), now) == None
      {
        HighestStepIsHighest(p.steps, i.due, now);
        if HighestStep(p.steps, i.due, now) == Some(Soft) && i.due <= now < i.due + DAY {
          SoftStepIsEarly(p, i, now);
        }
      }
    }
  }

  lemma SoftStepIsEarly(p: Policy, i: Input, now: Time)
    requires HighestStep(p.steps, i.due, now) == Some(Soft) && i.due <= now < i.due + DAY
    ensures EarlySoftLast(p)
  {
    HighestStepIsHighest(p.steps, i.due, now);
    hide HighestStep;
    var n :| 0 <= n < |p.steps| && p.steps[n].kind == Soft && now >= i.due + p.steps[n].daysAfterDue * DAY;
    assert p.steps[n].daysAfterDue <= 0;
  }

  /**
   The due-day reminder keeps to an hour of the due date exactly when that hour is the first: the
   evaluator never reads the hour a policy names.
   */
  lemma DueTodayHourIff(p: Policy, hour: int)
    requires Resolved(p)
    ensures
      (forall i: Input, now: Time :: NextKind(p, i, now) == Some(DueToday) ==> now >= i.due + hour * HOUR) <==>
        hour <= 0
  {
    if hour > 0 {
      var i := Input(0, false, false, None, 0);
      HighestStepIsHighest(p.steps, 0, 0);
      assert NextKind(p, i, 0) == Some(DueToday);
    } else {
      forall i: Input, now: Time | NextKind(p, i, now) == Some(DueToday)
        ensures now >= i.due + hour * HOUR
      {
        HighestStepIsHighest(p.steps, i.due, now);
      }
    }
  }

  /** With a step on or before the due date the second evaluation can send again. */
  lemma EarlyStepSendsTwice()
    ensures
      var p, i := Policy(0, [Step(0, Soft)], 1), Input(0, false, false, None, 0);
      NextKind(p, i, 0) == Some(Soft) && NextKind(p, i.(lastSent := Some(Soft)), 0) == Some(DueToday)
  {
    assert [Step(0, Soft)][..0] == [];
    assert HighestStep([], 0, 0) == None;
  }

  /**
   A hard suspension never comes unannounced: whenever the suspension policy would hard-suspend for
   the due date of an unpaid invoice, the final warning has been sent or is sent at that instant,
   and it was already due a day before.
   */
  lemma WarnedBeforeHardSuspend(p: Policy, sp: Suspension.Policy, i: Input, last: Option<Suspension.Action>, now: Time)
    requires !i.isPaid && !i.isCancelled && i.suspendAfterDays == sp.hardDays
    requires Suspension.NextAction(sp, Some(i.due), last, now) == Some(Suspension.HardSuspend)
    ensures PreSuspendAt(p, i) + DAY <= now
    ensures i.lastSent == Some(PreSuspend) || NextKind(p, i, now) == Some(PreSuspend)
  {
    var worst := Suspension.NextIsWorst(sp, i.due, last, now);
  }

  // ------------------------------------------------------------------
  // The scan window
  // ------------------------------------------------------------------

  const LOOK_AHEAD_DAYS := 30

  /** The job skips invoices due later than the look-ahead. */
  predicate Skipped(i: Input, now: Time) {
    i.due > now + LOOK_AHEAD_DAYS * DAY
  }

  /** The skip never loses a reminder exactly when neither early kind can be due beyond the look-ahead. */
  lemma SkipLosesNothingIff(p: Policy, suspendAfterDays: int)
    requires Resolved(p)
    ensures (forall i: Input, now: Time :: i.suspendAfterDays == suspendAfterDays && Skipped(i, now) ==>
      NextKind(p, i, now) == None) <==>
            p.softOffset <= LOOK_AHEAD_DAYS &&
            (suspendAfterDays > 0 ==> p.preSuspendOffset - suspendAfterDays <= LOOK_AHEAD_DAYS)
  {
    var early := Input((LOOK_AHEAD_DAYS + 1) * DAY, false, false, None, suspendAfterDays);
    HighestStepIsHighest(p.steps, early.due, 0);
    assert Skipped(early, 0);
    if p.softOffset <= LOOK_AHEAD_DAYS &&
      (suspendAfterDays > 0 ==> p.preSuspendOffset - suspendAfterDays <= LOOK_AHEAD_DAYS) {
      forall i: Input, now: Time | i.suspendAfterDays == suspendAfterDays && Skipped(i, now)
        ensures NextKind(p, i, now) == None
      {
        HighestStepIsHighest(p.steps, i.due, now);
      }
    } else {
      assert NextKind(p, early, 0).Some?;
    }
  }

  // ------------------------------------------------------------------
  // The job
  // ------------------------------------------------------------------

  datatype Invoice = Invoice(id: Id, customer: Id, due: Time, isPaid: bool, isCancelled: bool)

  datatype Row = Row(invoice: Id, kind: Kind, at: Time)

  /** The kind of the newest row of an invoice. */
  function LastKind(log: seq<Row>, invoice: Id): Option<Kind> {
    if log == [] then None
    else if log[|log| - 1].invoice == invoice then Some(log[|log| - 1].kind)
    else LastKind(log[..|log| - 1], invoice)
  }

  /** Inserts a row unless its invoice and kind are on record. */
  function Insert(log: seq<Row>, row: Row): seq<Row> {
    if exists n :: 0 <= n < |log| && log[n].invoice == row.invoice && log[n].kind == row.kind then log else log + [row]
  }

  /** The policies in force, by customer. */
  datatype Rules = Rules(reminder: Id -> Policy, suspension: Id -> Suspension.Policy)

  function InputOf(rules: Rules, log: seq<Row>, v: Invoice): Input {
    Input(v.due, v.isPaid, v.isCancelled, LastKind(log, v.id), rules.suspension(v.customer).hardDays)
  }

  /** The reminder one invoice gets from a tick. */
  function Sent(rules: Rules, log: seq<Row>, v: Invoice, now: Time): Option<Kind> {
    var i := InputOf(rules, log, v);
    if Skipped(i, now) then None else NextKind(rules.reminder(v.customer), i, now)
  }

  function Remind(rules: Rules, log: seq<Row>, v: Invoice, now: Time): seq<Row> {
    match Sent(rules, log, v, now)
    case None => log
    case Some(kind) => Insert(log, Row(v.id, kind, now))
  }

  function RemindAll(rules: Rules, log: seq<Row>, views: seq<Invoice>, now: Time): seq<Row> {
    if views == [] then log
    else Remind(rules, RemindAll(rules, log, views[..|views| - 1], now), views[|views| - 1], now)
  }

  class ReminderService {
    var log: seq<Row>

    constructor ()
      ensures log == []
    {
      log := [];
    }

    method RunReminderTick(rules: Rules, views: seq<Invoice>, now: Time) returns (sent: nat)
      modifies this
      ensures log == RemindAll(rules, old(log), views, now)
      ensures LogClimbs(old(log)) ==> LogClimbs(log) && sent == |log| - |old(log)|
    {
      hide NextKind, LastKind, LogClimbs, RemindAll;
      sent := 0;
      RemindNone(rules, log, now);
      for n := 0 to |views|
        invariant log == RemindAll(rules, old(log), views[..n], now)
        invariant LogClimbs(old(log)) ==> LogClimbs(log) && sent == |log| - |old(log)|
      {
        RemindOneMore(rules, old(log), views, n, now);
        var v := views[n];
        if v.due > now + LOOK_AHEAD_DAYS * DAY {
          continue;
        }
        var next := NextReminderKindForInvoice(rules.reminder(v.customer), InputOf(rules, log, v), now);
        if next.None? {
          continue;
        }
        if LogClimbs(log) {
          RemindClimbs(rules, log, v, now);
        }
        log := Insert(log, Row(v.id, next.value, now));
        sent := sent + 1;
      }
      assert views[..|views|] == views;
    }
  }

  lemma RemindNone(rules: Rules, log: seq<Row>, now: Time)
    ensures RemindAll(rules, log, [], now) == log
  {
  }

  lemma RemindOneMore(rules: Rules, log: seq<Row>, views: seq<Invoice>, n: nat, now: Time)
    requires n < |views|
    ensures
      RemindAll(rules, log, views[..n + 1], now) == Remind(rules, RemindAll(rules, log, views[..n], now), views[n], now)
  {
    hide Remind;
    assert views[..n + 1][..n] == views[..n];
  }

  /** Later rows of an invoice are of later kinds. */
  ghost predicate LogClimbs(log: seq<Row>) {
    (forall n :: 0 <= n < |log| ==> Index(Some(log[n].kind)) >= 0) &&
    forall m, n :: 0 <= m < n < |log| && log[m].invoice == log[n].invoice ==>
      Index(Some(log[m].kind)) < Index(Some(log[n].kind))
  }

  lemma {:induction false} LastIsLatest(log: seq<Row>, invoice: Id, n: nat)
    requires LogClimbs(log) && n < |log| && log[n].invoice == invoice
    ensures Index(Some(log[n].kind)) <= Index(LastKind(log, invoice))
  {
    var last := |log| - 1;
    if log[last].invoice != invoice {
      LastIsLatest(log[..last], invoice, n);
    }
  }

  /** The uniqueness constraint never has to act: a reminder that is sent is new to the log. */
  lemma RemindClimbs(rules: Rules, log: seq<Row>, v: Invoice, now: Time)
    requires LogClimbs(log)
    ensures LogClimbs(Remind(rules, log, v, now))
    ensures Sent(rules, log, v, now).Some? ==>
      Remind(rules, log, v, now) == log + [Row(v.id, Sent(rules, log, v, now).value, now)]
  {
    var kind := Sent(rules, log, v, now);
    if kind.Some? {
      hide NextKind, LastKind;
      NextIsLater(rules.reminder(v.customer), InputOf(rules, log, v), now);
      forall n | 0 <= n < |log| && log[n].invoice == v.id
        ensures Index(Some(log[n].kind)) < Index(kind)
      {
        LastIsLatest(log, v.id, n);
      }
    }
  }

  datatype Tick = Tick(rules: Rules, views: seq<Invoice>, now: Time)

  function Run(ticks: seq<Tick>): seq<Row> {
    if ticks == [] then []
    else
      var t := ticks[|ticks| - 1];
      RemindAll(t.rules, Run(ticks[..|ticks| - 1]), t.views, t.now)
  }

  lemma {:induction false} RemindAllClimbs(rules: Rules, log: seq<Row>, views: seq<Invoice>, now: Time)
    requires LogClimbs(log)
    ensures LogClimbs(RemindAll(rules, log, views, now))
  {
    if views != [] {
      RemindAllClimbs(rules, log, views[..|views| - 1], now);
      RemindClimbs(rules, RemindAll(rules, log, views[..|views| - 1], now), views[|views| - 1], now);
    }
  }

  /** Over any ticks, under any policies, the kinds logged for an invoice strictly climb the ladder. */
  lemma {:induction false} RunClimbs(ticks: seq<Tick>)
    ensures LogClimbs(Run(ticks))
  {
    if ticks != [] {
      var t := ticks[|ticks| - 1];
      RunClimbs(ticks[..|ticks| - 1]);
      RemindAllClimbs(t.rules, Run(ticks[..|ticks| - 1]), t.views, t.now);
    }
  }

  function CountOf(log: seq<Row>, invoice: Id): nat {
    if log == [] then 0 else CountOf(log[..|log| - 1], invoice) + if log[|log| - 1].invoice == invoice then 1 else 0
  }

  lemma {:induction false} CountBelowLatest(log: seq<Row>, invoice: Id)
    requires LogClimbs(log)
    ensures CountOf(log, invoice) <= Index(LastKind(log, invoice)) + 1
  {
    if log != [] {
      var n := |log| - 1;
      CountBelowLatest(log[..n], invoice);
      if log[n].invoice == invoice && CountOf(log[..n], invoice) > 0 {
        var m := Witness(log[..n], invoice);
        assert log[..n][m] == log[m];
      }
    }
  }

  /** A row that holds the last kind of an invoice. */
  lemma {:induction false} Witness(log: seq<Row>, invoice: Id) returns (m: nat)
    requires CountOf(log, invoice) > 0
    ensures m < |log| && log[m].invoice == invoice && LastKind(log, invoice) == Some(log[m].kind)
  {
    m := |log| - 1;
    if log[m].invoice != invoice {
      m := Witness(log[..m], invoice);
    }
  }

  /** No invoice is ever reminded more than six times. */
  lemma AtMostSixReminders(ticks: seq<Tick>, invoice: Id)
    ensures CountOf(Run(ticks), invoice) <= 6
  {
    RunClimbs(ticks);
    CountBelowLatest(Run(ticks), invoice);
  }

  // ------------------------------------------------------------------
  // The job acts
  // ------------------------------------------------------------------

  lemma LastAppended(log: seq<Row>, row: Row, invoice: Id)
    ensures LastKind(log + [row], invoice) == if row.invoice == invoice then Some(row.kind) else LastKind(log, invoice)
  {
    assert (log + [row])[..|log|] == log;
  }

  lemma RemindOther(rules: Rules, log: seq<Row>, v: Invoice, now: Time, invoice: Id)
    requires v.id != invoice
    ensures LastKind(Remind(rules, log, v, now), invoice) == LastKind(log, invoice)
  {
    hide Sent, LastKind;
    var kind := Sent(rules, log, v, now);
    if kind.Some? {
      LastAppended(log, Row(v.id, kind.value, now), invoice);
    }
  }

  /** The tick lists the invoice once. */
  ghost predicate ListsOnce(views: seq<Invoice>, v: Invoice, k: nat) {
    k < |views| && views[k] == v && forall j :: 0 <= j < |views| && views[j].id == v.id ==> j == k
  }

  lemma {:induction false} UnlistedAlone(rules: Rules, log: seq<Row>, views: seq<Invoice>, now: Time, invoice: Id)
    requires forall j :: 0 <= j < |views| ==> views[j].id != invoice
    ensures LastKind(RemindAll(rules, log, views, now), invoice) == LastKind(log, invoice)
  {
    hide Remind, LastKind;
    if views != [] {
      var n := |views| - 1;
      UnlistedAlone(rules, log, views[..n], now, invoice);
      RemindOther(rules, RemindAll(rules, log, views[..n], now), views[n], now, invoice);
    }
  }

  /** The reminder on record for an invoice after a tick that lists it. */
  ghost predicate Reminded(p: Policy, i: Input, latest: Option<Kind>, after: Option<Kind>, now: Time) {
    after ==
      if !i.isPaid && !i.isCancelled && i.due <= now + 30 * DAY && Index(latest) > Index(i.lastSent)
      then latest
      else i.lastSent
  }

  /**
   A reminder tick that lists an invoice leaves the latest kind that is due on record, if that is later
   than the last one sent and the invoice is open and due within thirty days, and otherwise sends nothing.
   */
  lemma {:induction false} TickReminds(
    rules: Rules, log: seq<Row>, views: seq<Invoice>, now: Time, v: Invoice, k: nat)
    returns (latest: Option<Kind>)
    requires LogClimbs(log) && ListsOnce(views, v, k) && Resolved(rules.reminder(v.customer))
    ensures
      var i := InputOf(rules, log, v);
      && (!v.isPaid && !v.isCancelled ==> IsLatestDue(rules.reminder(v.customer), i, latest, now))
      && Reminded(rules.reminder(v.customer), i, latest, LastKind(RemindAll(rules, log, views, now), v.id), now)
    decreases |views|
  {
    hide Remind, LastKind, LogClimbs, Resolved, IsLatestDue;
    var n := |views| - 1;
    var before := RemindAll(rules, log, views[..n], now);
    if k == n {
      UnlistedAlone(rules, log, views[..n], now, v.id);
      RemindAllClimbs(rules, log, views[..n], now);
      latest := RemindActs(rules, before, v, now);
    } else {
      latest := TickReminds(rules, log, views[..n], now, v, k);
      RemindOther(rules, before, views[n], now, v.id);
    }
  }

  lemma RemindActs(rules: Rules, log: seq<Row>, v: Invoice, now: Time) returns (latest: Option<Kind>)
    requires LogClimbs(log) && Resolved(rules.reminder(v.customer))
    ensures
      var i := InputOf(rules, log, v);
      && (!v.isPaid && !v.isCancelled ==> IsLatestDue(rules.reminder(v.customer), i, latest, now))
      && Reminded(rules.reminder(v.customer), i, latest, LastKind(Remind(rules, log, v, now), v.id), now)
  {
    RemindClimbs(rules, log, v, now);
    hide LastKind, LogClimbs, Resolved, IsLatestDue, NextKind;
    var i, p := InputOf(rules, log, v), rules.reminder(v.customer);
    latest := None;
    if !v.isPaid && !v.isCancelled {
      latest := NextIsLatestDue(p, i, now);
    } else {
      ClosedSendsNothing(p, i, now);
    }
    var sent := Sent(rules, log, v, now);
    if sent.Some? {
      LastAppended(log, Row(v.id, sent.value, now), v.id);
    }
  }

  lemma ClosedSendsNothing(p: Policy, i: Input, now: Time)
    requires i.isPaid || i.isCancelled
    ensures NextKind(p, i, now) == None
  {
  }
}
