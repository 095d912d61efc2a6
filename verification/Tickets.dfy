/**
 The support ticket: a seven-state machine whose clock stops while the ticket waits on somebody
 else. Pauses are accumulated in whole seconds.
 */
module Tickets {
  import opened Base

  type Id = nat

  const NIL: Id := 0

  datatype Status = Open | Assigned | InProgress | PendingCustomer | PendingInternal | Resolved | Closed

  datatype Priority = Low | Normal | High | Urgent | UnknownPriority(name: string)

  datatype PauseKind = WaitCustomer | WaitInternal | UnknownPause(name: string)

  /** One row of the SLA matrix; budgets are whole minutes. */
  datatype Entry = Entry(id: Id, firstResponseMinutes: int, resolveMinutes: int, warnPct: real)

  /** The fields of a ticket that its state machine and its SLA clock use. */
  datatype TicketState = TicketState(
    status: Status, priority: Priority, assignee: Option<Id>,
    firstResponseAt: Option<Time>, resolvedAt: Option<Time>, closedAt: Option<Time>, escalationLevel: int,
    pauseSeconds: int, pausedSince: Option<Time>, createdAt: Time, updatedAt: Time,
    matrixId: Option<Id>, firstResponseDue: Option<Time>, resolveDue: Option<Time>,
    breachedFirstResponse: bool, breachedResolve: bool, warnedAt: Option<Time>)

  datatype Op =
    | Assign(user: Id)
    | Start(user: Id)
    | Pause(kind: PauseKind)
    | Resume
    | Resolve(resolution: string)
    | Close
    | Reopen
    | ChangePriority(priority: Priority)
    | MarkFirstResponse
    | ApplySLA(entry: Entry)

  function NewTicket(priority: Priority, now: Time): TicketState {
    TicketState(Open, priority, None, None, None, None, 0, 0, None, now, now, None, None, None, false, false, None)
  }

  predicate IsPending(s: Status) {
    s == PendingCustomer || s == PendingInternal
  }

  predicate IsSettled(s: Status) {
    s == Resolved || s == Closed
  }

  function WithPause(t: TicketState, seconds: int): TicketState {
    if seconds < 0 then t else t.(pauseSeconds := t.pauseSeconds + seconds)
  }

  function WithFirstResponse(t: TicketState, at: Time): TicketState {
    if t.firstResponseAt.Some? then t else t.(firstResponseAt := Some(at))
  }

  /** Due dates count from the creation of the ticket, whenever they are stamped. */
  function DueDates(e: Entry, createdAt: Time): (Time, Time) {
    (createdAt + e.firstResponseMinutes * MINUTE, createdAt + e.resolveMinutes * MINUTE)
  }

  /** The transition table: the new state, or the old state and a refusal. */
  function Apply(t: TicketState, op: Op, now: Time): (TicketState, Outcome) {
    match op
    case Assign(user) =>
      if user == NIL then (t, Refused("assignee_required"))
      else if t.status == Assigned && t.assignee == Some(user) then (t, Done)
      else if t.status != Open && t.status != Assigned then (t, Refused("cannot_assign"))
      else (t.(status := Assigned, assignee := Some(user), updatedAt := now), Done)
    case Start(user) =>
      if t.status == InProgress then (t, Done)
      else if t.status != Open && t.status != Assigned then (t, Refused("cannot_start"))
      else
        var assignee := if t.assignee.None? then Some(user) else t.assignee;
        (WithFirstResponse(t.(status := InProgress, assignee := assignee), now).(updatedAt := now), Done)
    case Pause(kind) =>
      if t.status != InProgress then (t, Refused("cannot_pause"))
      else if kind.UnknownPause? then (t, Refused("pause_kind_invalid"))
      else
        var pending := if kind.WaitCustomer? then PendingCustomer else PendingInternal;
        (t.(status := pending, pausedSince := Some(now), updatedAt := now), Done)
    case Resume =>
      if !IsPending(t.status) then (t, Refused("cannot_resume"))
      else
        var sealed := if t.pausedSince.None? then t
          else WithPause(t, Trunc(now - t.pausedSince.value, SECOND)).(pausedSince := None);
        (sealed.(status := InProgress, updatedAt := now), Done)
    case Resolve(resolution) =>
      if t.status != InProgress then (t, Refused("cannot_resolve"))
      else if IsBlank(resolution) then (t, Refused("resolution_required"))
      else (t.(status := Resolved, resolvedAt := Some(now), updatedAt := now), Done)
    case Close =>
      if t.status == Closed then (t, Done)
      else if t.status != Resolved then (t, Refused("cannot_close"))
      else (t.(status := Closed, closedAt := Some(now), updatedAt := now), Done)
    case Reopen =>
      if !IsSettled(t.status) then (t, Refused("cannot_reopen"))
      else (t.(status := InProgress, resolvedAt := None, closedAt := None, escalationLevel := t.escalationLevel + 1,
        updatedAt := now), Done)
    case ChangePriority(priority) =>
      if priority.UnknownPriority? then (t, Refused("priority_invalid"))
      else if t.status == Closed then (t, Refused("priority_locked"))
      else if t.priority == priority then (t, Done)
      else (t.(priority := priority, updatedAt := now), Done)
    case MarkFirstResponse => (WithFirstResponse(t, now), Done)
    case ApplySLA(entry) =>
      if entry.id == NIL then (t, Done)
      else
        var (first, resolve) := DueDates(entry, t.createdAt);
        (t.(matrixId := Some(entry.id), firstResponseDue := Some(first), resolveDue := Some(resolve), updatedAt := now),
          Done)
  }

  /** Age minus paused time, both clamped at zero. */
  function EffectiveAge(t: TicketState, now: Time): int {
    var live := t.pauseSeconds * SECOND + if t.pausedSince.Some? then now - t.pausedSince.value else 0;
    var paused := if live < 0 then 0 else live;
    var age := now - t.createdAt - paused;
    if age < 0 then 0 else age
  }

  function RemainingFirstResponse(t: TicketState, now: Time): int {
    if t.firstResponseDue.None? || t.firstResponseAt.Some? then 0
    else Trunc(t.firstResponseDue.value - (t.createdAt + EffectiveAge(t, now)), SECOND)
  }

  function RemainingResolve(t: TicketState, now: Time): int {
    if t.resolveDue.None? || IsSettled(t.status) then 0
    else Trunc(t.resolveDue.value - (t.createdAt + EffectiveAge(t, now)), SECOND)
  }

  predicate BreachesFirstResponse(e: Entry, t: TicketState, now: Time) {
    t.firstResponseAt.None? && EffectiveAge(t, now) > e.firstResponseMinutes * MINUTE
  }

  predicate BreachesResolve(e: Entry, t: TicketState, now: Time) {
    !IsSettled(t.status) && EffectiveAge(t, now) > e.resolveMinutes * MINUTE
  }

  function WarnThreshold(e: Entry): int {
    ((e.resolveMinutes * MINUTE) as real * e.warnPct).Floor
  }

  predicate InWarnWindow(e: Entry, t: TicketState, now: Time) {
    !IsSettled(t.status) && t.warnedAt.None? && WarnThreshold(e) <= EffectiveAge(t, now) < e.resolveMinutes * MINUTE
  }

  // ------------------------------------------------------------------
  // The aggregate, updated in place
  // ------------------------------------------------------------------

  class Ticket {
    var status: Status
    var priority: Priority
    var assignee: Option<Id>
    var firstResponseAt: Option<Time>
    var resolvedAt: Option<Time>
    var closedAt: Option<Time>
    var escalationLevel: int
    var pauseSeconds: int
    var pausedSince: Option<Time>
    var createdAt: Time
    var updatedAt: Time
    var matrixId: Option<Id>
    var firstResponseDue: Option<Time>
    var resolveDue: Option<Time>
    var breachedFirstResponse: bool
    var breachedResolve: bool
    var warnedAt: Option<Time>

    function State(): TicketState
      reads this
    {
      TicketState(status, priority, assignee, firstResponseAt, resolvedAt, closedAt, escalationLevel,
                  pauseSeconds, pausedSince, createdAt, updatedAt, matrixId, firstResponseDue, resolveDue,
                  breachedFirstResponse, breachedResolve, warnedAt)
    }

    constructor (priority: Priority, now: Time)
      ensures State() == NewTicket(priority, now)
    {
      status, this.priority, assignee := Open, priority, None;
      firstResponseAt, resolvedAt, closedAt, escalationLevel := None, None, None, 0;
      pauseSeconds, pausedSince, createdAt, updatedAt := 0, None, now, now;
      matrixId, firstResponseDue, resolveDue := None, None, None;
      breachedFirstResponse, breachedResolve, warnedAt := false, false, None;
    }

    method DoAssign(user: Id, now: Time) returns (r: Outcome)
      modifies this
      ensures (State(), r) == Apply(old(State()), Assign(user), now)
    {
      if user == NIL {
        return Refused("assignee_required");
      }
      match status {
        case Open =>
        case Assigned =>
          if assignee == Some(user) {
            return Done;
          }
        case _ =>
          return Refused("cannot_assign");
      }
      status := Assigned;
      assignee := Some(user);
      updatedAt := now;
      return Done;
    }

    method DoStart(user: Id, now: Time) returns (r: Outcome)
      modifies this
      ensures (State(), r) == Apply(old(State()), Start(user), now)
    {
      hide IsBlank, Trunc, DueDates, WithPause;
      match status {
        case Open =>
        case Assigned =>
        case InProgress =>
          return Done;
        case _ =>
          return Refused("cannot_start");
      }
      status := InProgress;
      if assignee.None? {
        assignee := Some(user);
      }
      DoMarkFirstResponse(now);
      updatedAt := now;
      return Done;
    }

    method DoPause(kind: PauseKind, now: Time) returns (r: Outcome)
      modifies this
      ensures (State(), r) == Apply(old(State()), Pause(kind), now)
    {
      if status != InProgress {
        return Refused("cannot_pause");
      }
      match kind {
        case WaitCustomer => status := PendingCustomer;
        case WaitInternal => status := PendingInternal;
        case UnknownPause(_) => return Refused("pause_kind_invalid");
      }
      pausedSince := Some(now);
      updatedAt := now;
      return Done;
    }

    method DoResume(now: Time) returns (r: Outcome)
      modifies this
      ensures (State(), r) == Apply(old(State()), Resume, now)
    {
      if status != PendingCustomer && status != PendingInternal {
        return Refused("cannot_resume");
      }
      if pausedSince.Some? {
        AddPauseDuration(Trunc(now - pausedSince.value, SECOND));
        pausedSince := None;
      }
      status := InProgress;
      updatedAt := now;
      return Done;
    }

    method DoResolve(resolution: string, now: Time) returns (r: Outcome)
      modifies this
      ensures (State(), r) == Apply(old(State()), Resolve(resolution), now)
    {
      if status != InProgress {
        return Refused("cannot_resolve");
      }
      if IsBlank(resolution) {
        return Refused("resolution_required");
      }
      status := Resolved;
      resolvedAt := Some(now);
      updatedAt := now;
      return Done;
    }

    method DoClose(now: Time) returns (r: Outcome)
      modifies this
      ensures (State(), r) == Apply(old(State()), Close, now)
    {
      match status {
        case Resolved =>
        case Closed =>
          return Done;
        case _ =>
          return Refused("cannot_close");
      }
      status := Closed;
      closedAt := Some(now);
      updatedAt := now;
      return Done;
    }

    method DoReopen(now: Time) returns (r: Outcome)
      modifies this
      ensures (State(), r) == Apply(old(State()), Reopen, now)
    {
      if status != Resolved && status != Closed {
        return Refused("cannot_reopen");
      }
      status := InProgress;
      resolvedAt := None;
      closedAt := None;
      escalationLevel := escalationLevel + 1;
      updatedAt := now;
      return Done;
    }

    method DoChangePriority(newPriority: Priority, now: Time) returns (r: Outcome)
      modifies this
      ensures (State(), r) == Apply(old(State()), ChangePriority(newPriority), now)
    {
      if newPriority.UnknownPriority? {
        return Refused("priority_invalid");
      }
      if status == Closed {
        return Refused("priority_locked");
      }
      if priority != newPriority {
        priority := newPriority;
        updatedAt := now;
      }
      return Done;
    }

    method DoMarkFirstResponse(at: Time)
      modifies this`firstResponseAt
      ensures State() == Apply(old(State()), MarkFirstResponse, at).0
    {
      if firstResponseAt.None? {
        firstResponseAt := Some(at);
      }
    }

    method AddPauseDuration(seconds: int)
      modifies this`pauseSeconds
      ensures State() == WithPause(old(State()), seconds)
    {
      if seconds < 0 {
        return;
      }
      pauseSeconds := pauseSeconds + seconds;
    }

    method DoApplySLA(entry: Entry, now: Time)
      modifies this
      ensures State() == Apply(old(State()), ApplySLA(entry), now).0
    {
      if entry.id == NIL {
        return;
      }
      matrixId := Some(entry.id);
      firstResponseDue := Some(createdAt + entry.firstResponseMinutes * MINUTE);
      resolveDue := Some(createdAt + entry.resolveMinutes * MINUTE);
      updatedAt := now;
    }
  }

  // ------------------------------------------------------------------
  // Runs
  // ------------------------------------------------------------------

  datatype Event = Event(op: Op, at: Time)

  /** Times of a run never go back, and never precede its start. */
  ghost predicate Ordered(start: Time, events: seq<Event>) {
    (forall i :: 0 <= i < |events| ==> start <= events[i].at) &&
    (forall i, j :: 0 <= i < j < |events| ==> events[i].at <= events[j].at)
  }

  function After(t: TicketState, events: seq<Event>): TicketState {
    if events == [] then t
    else Apply(After(t, events[..|events| - 1]), events[|events| - 1].op, events[|events| - 1].at).0
  }

  function Clock(start: Time, events: seq<Event>): Time {
    if events == [] then start else events[|events| - 1].at
  }

  /** Time the ticket has spent outside the two pending states, up to `now`. */
  function ActiveTime(t: TicketState, events: seq<Event>, now: Time): int {
    var latest := now - Clock(t.createdAt, events);
    (if IsPending(After(t, events).status) then 0 else latest) +
    if events == [] then 0 else ActiveTime(t, events[..|events| - 1], Clock(t.createdAt, events))
  }

  /** Pauses that have ended. */
  function PausesEnded(t: TicketState, events: seq<Event>): nat {
    if events == [] then 0
    else
      var before := events[..|events| - 1];
      PausesEnded(t, before) +
        if IsPending(After(t, before).status) && !IsPending(After(t, events).status) then 1 else 0
  }

  /** What holds of a ticket at every instant of its life. */
  ghost predicate Sound(t: TicketState, now: Time) {
    && (t.pausedSince.Some? <==> IsPending(t.status))
    && (t.resolvedAt.Some? <==> IsSettled(t.status))
    && (t.closedAt.Some? <==> t.status == Closed)
    && t.pauseSeconds >= 0
    && t.createdAt <= now
    && (t.pausedSince.Some? ==> t.createdAt <= t.pausedSince.value <= now)
    && t.pauseSeconds * SECOND <= (if t.pausedSince.Some? then t.pausedSince.value else now) - t.createdAt
  }

  lemma ApplySound(t: TicketState, op: Op, now: Time, at: Time)
    requires Sound(t, now) && now <= at
    ensures Sound(Apply(t, op, at).0, at)
    ensures Apply(t, op, at).0.createdAt == t.createdAt
  {
    hide IsBlank, DueDates, Trunc;
  }

  lemma SoundLater(t: TicketState, now: Time, later: Time)
    requires Sound(t, now) && now <= later
    ensures Sound(t, later)
  {
  }

  /** The accumulator never runs ahead of the wall clock, so neither clamp of the age ever fires. */
  lemma ClampsIdle(t: TicketState, now: Time)
    requires Sound(t, now)
    ensures
      EffectiveAge(t, now) ==
        now - t.createdAt - t.pauseSeconds * SECOND - (if t.pausedSince.Some? then now - t.pausedSince.value else 0)
    ensures 0 <= EffectiveAge(t, now) <= now - t.createdAt
  {
  }

  lemma NewTicketSound(priority: Priority, start: Time)
    ensures Sound(NewTicket(priority, start), start)
  {
  }

  lemma {:induction false} RunSound(priority: Priority, start: Time, events: seq<Event>, now: Time)
    requires Ordered(start, events) && Clock(start, events) <= now
    ensures Sound(After(NewTicket(priority, start), events), now)
    ensures After(NewTicket(priority, start), events).createdAt == start
  {
    hide Apply, Sound;
    if events == [] {
      NewTicketSound(priority, start);
      SoundLater(NewTicket(priority, start), start, now);
    } else {
      var n := |events| - 1;
      RunSound(priority, start, events[..n], events[n].at);
      ApplySound(After(NewTicket(priority, start), events[..n]), events[n].op, events[n].at, events[n].at);
      SoundLater(After(NewTicket(priority, start), events), events[n].at, now);
    }
  }

  /** One transition changes the age by less than a second, and only when it ends a pause. */
  lemma ApplyAge(t: TicketState, op: Op, at: Time)
    requires Sound(t, at)
    ensures
      var t' := Apply(t, op, at).0;
      EffectiveAge(t, at) <= EffectiveAge(t', at) <=
        EffectiveAge(t, at) + if IsPending(t.status) && !IsPending(t'.status) then SECOND - 1 else 0
  {
    ApplySound(t, op, at, at);
    ClampsIdle(t, at);
    ClampsIdle(Apply(t, op, at).0, at);
  }

  /** Between transitions the age advances with the wall clock, or stands still while pending. */
  lemma AgeAdvances(t: TicketState, now: Time, later: Time)
    requires Sound(t, now) && now <= later
    ensures EffectiveAge(t, later) == EffectiveAge(t, now) + if IsPending(t.status) then 0 else later - now
  {
    ClampsIdle(t, now);
    ClampsIdle(t, later);
  }

  lemma NewTicketAge(priority: Priority, start: Time)
    ensures EffectiveAge(NewTicket(priority, start), start) == 0
  {
  }

  /**
   Over every run from a new ticket the effective age is never less than the time really spent
   outside the pending states, and exceeds it by less than a second for each pause that ended.
   */
  lemma {:induction false} PauseAccounting(priority: Priority, start: Time, events: seq<Event>, now: Time)
    requires Ordered(start, events) && Clock(start, events) <= now
    ensures
      var t := NewTicket(priority, start);
      ActiveTime(t, events, now) <= EffectiveAge(After(t, events), now) <=
        ActiveTime(t, events, now) + PausesEnded(t, events) * (SECOND - 1)
  {
    hide Apply, Sound, EffectiveAge;
    var t := NewTicket(priority, start);
    RunSound(priority, start, events, Clock(start, events));
    NewTicketAge(priority, start);
    AgeAdvances(After(t, events), Clock(start, events), now);
    if events != [] {
      var n := |events| - 1;
      var at := events[n].at;
      PauseAccounting(priority, start, events[..n], at);
      RunSound(priority, start, events[..n], at);
      ApplyAge(After(t, events[..n]), events[n].op, at);
    }
  }

  /** The effective age never goes back, whatever happens to the ticket in between. */
  lemma {:induction false} AgeNeverFalls(t: TicketState, now: Time, events: seq<Event>, later: Time)
    requires Sound(t, now) && Ordered(now, events) && Clock(now, events) <= later
    ensures Sound(After(t, events), later)
    ensures EffectiveAge(t, now) <= EffectiveAge(After(t, events), later)
    ensures After(t, events).createdAt == t.createdAt
  {
    hide Apply, Sound, EffectiveAge;
    if events == [] {
      SoundLater(t, now, later);
      AgeAdvances(t, now, later);
    } else {
      var n := |events| - 1;
      var before, op, at := After(t, events[..n]), events[n].op, events[n].at;
      AgeNeverFalls(t, now, events[..n], at);
      ApplyAge(before, op, at);
      ApplySound(before, op, at, at);
      SoundLater(After(t, events), at, later);
      AgeAdvances(After(t, events), at, later);
    }
  }

  lemma ApplyKeeps(t: TicketState, op: Op, at: Time)
    ensures var t' := Apply(t, op, at).0;
      (t.firstResponseAt.Some? ==> t'.firstResponseAt == t.firstResponseAt) &&
      t'.breachedFirstResponse == t.breachedFirstResponse && t'.breachedResolve == t.breachedResolve &&
      t'.warnedAt == t.warnedAt
  {
  }

  /** The first response is recorded once; breach flags and the warning belong to the sweep alone. */
  lemma {:induction false} RunKeeps(t: TicketState, events: seq<Event>)
    ensures t.firstResponseAt.Some? ==> After(t, events).firstResponseAt == t.firstResponseAt
    ensures After(t, events).breachedFirstResponse == t.breachedFirstResponse
    ensures After(t, events).breachedResolve == t.breachedResolve
    ensures After(t, events).warnedAt == t.warnedAt
  {
    hide Apply;
    if events != [] {
      var n := |events| - 1;
      RunKeeps(t, events[..n]);
      ApplyKeeps(After(t, events[..n]), events[n].op, events[n].at);
    }
  }

  // ------------------------------------------------------------------
  // What the stamps mean
  // ------------------------------------------------------------------

  /** Somebody answers: work starts on a waiting ticket, or a response is marked. */
  predicate Responds(t: TicketState, op: Op) {
    op.MarkFirstResponse? || (op.Start? && (t.status == Open || t.status == Assigned))
  }

  ghost predicate RespondsAt(t: TicketState, events: seq<Event>, k: int) {
    0 <= k < |events| && Responds(After(t, events[..k]), events[k].op)
  }

  ghost predicate FirstRespondsAt(t: TicketState, events: seq<Event>, k: int) {
    RespondsAt(t, events, k) && forall j :: 0 <= j < k ==> !RespondsAt(t, events, j)
  }

  /** The first response on record is the instant of the first answer, and missing exactly while there was none. */
  lemma {:induction false} FirstResponseIs(t: TicketState, events: seq<Event>)
    requires t.firstResponseAt.None?
    ensures After(t, events).firstResponseAt.None? <==> forall k :: !RespondsAt(t, events, k)
    ensures
      var first := After(t, events).firstResponseAt;
      first.Some? ==> exists k :: FirstRespondsAt(t, events, k) && events[k].at == first.value
  {
    hide Apply, Responds;
    if events != [] {
      var n := |events| - 1;
      var before := After(t, events[..n]);
      FirstResponseIs(t, events[..n]);
      ResponseStamped(before, events[n].op, events[n].at);
      RespondsFront(t, events);
      if before.firstResponseAt.Some? {
        var k :| FirstRespondsAt(t, events[..n], k) && events[..n][k].at == before.firstResponseAt.value;
        assert FirstRespondsAt(t, events, k);
      } else if After(t, events).firstResponseAt.Some? {
        assert FirstRespondsAt(t, events, n);
      }
    }
  }

  lemma ResponseStamped(t: TicketState, op: Op, at: Time)
    ensures
      Apply(t, op, at).0.firstResponseAt ==
        if t.firstResponseAt.None? && Responds(t, op) then Some(at) else t.firstResponseAt
  {
  }

  lemma RespondsFront(t: TicketState, events: seq<Event>)
    requires events != []
    ensures forall k :: k < |events| - 1 ==> RespondsAt(t, events[..|events| - 1], k) == RespondsAt(t, events, k)
    ensures RespondsAt(t, events, |events| - 1) == Responds(After(t, events[..|events| - 1]), events[|events| - 1].op)
  {
    hide Responds;
    forall k | 0 <= k < |events| - 1
      ensures RespondsAt(t, events[..|events| - 1], k) == RespondsAt(t, events, k)
    {
      assert events[..|events| - 1][..k] == events[..k];
    }
  }

  /** A ticket that is no longer waiting has been answered, and one that is not open has an assignee. */
  ghost predicate Answered(t: TicketState) {
    && (t.status != Open && t.status != Assigned ==> t.firstResponseAt.Some?)
    && (t.status != Open ==> t.assignee.Some?)
  }

  lemma ApplyAnswered(t: TicketState, op: Op, at: Time)
    requires Answered(t)
    ensures Answered(Apply(t, op, at).0)
  {
    hide IsBlank, Trunc, DueDates;
  }

  lemma {:induction false} RunAnswered(priority: Priority, start: Time, events: seq<Event>)
    ensures Answered(After(NewTicket(priority, start), events))
  {
    hide Apply;
    if events != [] {
      var n := |events| - 1;
      RunAnswered(priority, start, events[..n]);
      ApplyAnswered(After(NewTicket(priority, start), events[..n]), events[n].op, events[n].at);
    }
  }

  /** A status set the ticket has been in without a break since the event k brought it there. */
  ghost predicate Since(t: TicketState, events: seq<Event>, k: int, settled: bool) {
    && 0 <= k < |events| && !InState(After(t, events[..k]), settled)
    && forall j :: k < j <= |events| ==> InState(After(t, events[..j]), settled)
  }

  /** Resolved or closed, or just closed. */
  predicate InState(t: TicketState, settled: bool) {
    if settled then t.status == Resolved || t.status == Closed else t.status == Closed
  }

  function StampOf(t: TicketState, settled: bool): Option<Time> {
    if settled then t.resolvedAt else t.closedAt
  }

  /** The resolution and closing stamps carry the instant at which the ticket was last resolved, and closed. */
  lemma {:induction false} StampedSince(t: TicketState, events: seq<Event>, settled: bool)
    requires !InState(t, settled)
    ensures
      var t' := After(t, events);
      InState(t', settled) ==>
        exists k :: Since(t, events, k, settled) && StampOf(t', settled) == Some(events[k].at)
  {
    hide Apply, InState, StampOf;
    if events != [] {
      var n := |events| - 1;
      var before, t' := After(t, events[..n]), After(t, events);
      StampedSince(t, events[..n], settled);
      ApplyStamps(before, events[n].op, events[n].at, settled);
      assert events[..n + 1] == events;
      if InState(t', settled) && InState(before, settled) {
        var k :| Since(t, events[..n], k, settled) && StampOf(before, settled) == Some(events[..n][k].at);
        assert events[..n][..k] == events[..k] && events[..n][k] == events[k];
        forall j | k < j <= |events|
          ensures InState(After(t, events[..j]), settled)
        {
          assert j <= n ==> events[..n][..j] == events[..j];
        }
        assert Since(t, events, k, settled);
      } else if InState(t', settled) {
        assert Since(t, events, n, settled);
      }
    }
  }

  lemma ApplyStamps(t: TicketState, op: Op, at: Time, settled: bool)
    ensures
      var t' := Apply(t, op, at).0;
      InState(t', settled) ==> StampOf(t', settled) == if InState(t, settled) then StampOf(t, settled) else Some(at)
  {
    hide IsBlank, Trunc, DueDates;
  }

  /** The only moves of the status, and what each needs. */
  function Next(s: Status, op: Op): Option<Status> {
    match (s, op)
    case (Open, Assign(user)) => if user != NIL then Some(Assigned) else None
    case (Assigned, Assign(user)) => if user != NIL then Some(Assigned) else None
    case (Open, Start(_)) => Some(InProgress)
    case (Assigned, Start(_)) => Some(InProgress)
    case (InProgress, Pause(WaitCustomer)) => Some(PendingCustomer)
    case (InProgress, Pause(WaitInternal)) => Some(PendingInternal)
    case (PendingCustomer, Resume) => Some(InProgress)
    case (PendingInternal, Resume) => Some(InProgress)
    case (InProgress, Resolve(text)) => if IsBlank(text) then None else Some(Resolved)
    case (Resolved, Close) => Some(Closed)
    case (Resolved, Reopen) => Some(InProgress)
    case (Closed, Reopen) => Some(InProgress)
    case _ => None
  }

  /** An operation that is refused changes nothing, and the status moves along the edges alone. */
  lemma StatusMoves(t: TicketState, op: Op, at: Time)
    ensures
      var (t', outcome) := Apply(t, op, at);
      && (outcome.Refused? ==> t' == t)
      && t'.status == (if Next(t.status, op).Some? then Next(t.status, op).value else t.status)
      && (Next(t.status, op).Some? ==> outcome == Done)
  {
    hide IsBlank, Trunc, DueDates;
  }

  /** The assignee changes by assigning a waiting ticket, or starting one nobody has; the priority when asked to. */
  lemma AssigneeMoves(t: TicketState, op: Op, at: Time)
    ensures
      var t', waiting := Apply(t, op, at).0, t.status == Open || t.status == Assigned;
      && t'.assignee ==
        (if op.Assign? && op.user != NIL && waiting then Some(op.user)
        else if op.Start? && waiting && t.assignee.None? then Some(op.user)
        else t.assignee)
      && t'.priority ==
        (if op.ChangePriority? && !op.priority.UnknownPriority? && t.status != Closed then op.priority else t.priority)
  {
    hide IsBlank, Trunc, DueDates;
  }

  /** How often a settled ticket was reopened. */
  function Reopened(t: TicketState, events: seq<Event>): nat {
    if events == [] then 0
    else
      var before := After(t, events[..|events| - 1]);
      Reopened(t, events[..|events| - 1]) +
      if events[|events| - 1].op.Reopen? && InState(before, true) then 1 else 0
  }

  /** Each reopening escalates by one, and nothing else does. */
  lemma {:induction false} EscalationCounts(t: TicketState, events: seq<Event>)
    ensures After(t, events).escalationLevel == t.escalationLevel + Reopened(t, events)
  {
    hide Apply, InState;
    if events != [] {
      var n := |events| - 1;
      EscalationCounts(t, events[..n]);
      ApplyEscalates(After(t, events[..n]), events[n].op, events[n].at);
    }
  }

  lemma ApplyEscalates(t: TicketState, op: Op, at: Time)
    ensures
      Apply(t, op, at).0.escalationLevel == t.escalationLevel + if op.Reopen? && InState(t, true) then 1 else 0
  {
    hide IsBlank, Trunc, DueDates;
  }

  /**
   A warning is called for exactly on an unsettled, unwarned ticket whose age has reached the row's share
   of its resolution budget, in whole nanoseconds, and not yet the budget.
   */
  lemma WarnsFromShare(e: Entry, t: TicketState, now: Time)
    ensures
      InWarnWindow(e, t, now) <==>
        t.status != Resolved && t.status != Closed && t.warnedAt.None? &&
        EffectiveAge(t, now) < e.resolveMinutes * MINUTE &&
        (e.resolveMinutes * MINUTE) as real * e.warnPct < (EffectiveAge(t, now) + 1) as real
  {
    hide EffectiveAge;
    FloorAtMost((e.resolveMinutes * MINUTE) as real * e.warnPct, EffectiveAge(t, now));
  }

  lemma FloorAtMost(x: real, n: int)
    ensures x.Floor <= n <==> x < (n + 1) as real
  {
  }

  // ------------------------------------------------------------------
  // The two SLA computations
  // ------------------------------------------------------------------

  /** Due dates always carry the budgets of the matrix row they were stamped from. */
  ghost predicate StampedFrom(matrix: map<Id, Entry>, t: TicketState) {
    match t.matrixId
    case None => t.firstResponseDue.None? && t.resolveDue.None?
    case Some(id) =>
      id in matrix && (t.firstResponseDue, t.resolveDue) ==
        (Some(DueDates(matrix[id], t.createdAt).0), Some(DueDates(matrix[id], t.createdAt).1))
  }

  /** Every stamp of a run comes from the matrix, which the run does not change. */
  ghost predicate StampsFrom(matrix: map<Id, Entry>, events: seq<Event>) {
    forall i :: 0 <= i < |events| && events[i].op.ApplySLA? ==>
      var e := events[i].op.entry;
      e.id in matrix && matrix[e.id] == e
  }

  lemma ApplyStamped(matrix: map<Id, Entry>, t: TicketState, op: Op, at: Time)
    requires StampedFrom(matrix, t)
    requires op.ApplySLA? ==> op.entry.id in matrix && matrix[op.entry.id] == op.entry
    ensures StampedFrom(matrix, Apply(t, op, at).0)
  {
    hide DueDates;
  }

  lemma {:induction false} RunStamped(matrix: map<Id, Entry>, t: TicketState, events: seq<Event>)
    requires StampedFrom(matrix, t) && StampsFrom(matrix, events)
    ensures StampedFrom(matrix, After(t, events))
  {
    hide Apply, StampedFrom;
    if events != [] {
      var n := |events| - 1;
      RunStamped(matrix, t, events[..n]);
      ApplyStamped(matrix, After(t, events[..n]), events[n].op, events[n].at);
    }
  }

  /**
   The countdown shown on a ticket and the test of the breach sweep agree up to a second, after any
   run of transitions and any number of re-stampings from an unchanged matrix.
   */
  lemma SlaComputationsAgree(matrix: map<Id, Entry>, priority: Priority, start: Time, events: seq<Event>, now: Time)
    requires Ordered(start, events) && Clock(start, events) <= now && StampsFrom(matrix, events)
    requires After(NewTicket(priority, start), events).matrixId.Some?
    ensures
      var t := After(NewTicket(priority, start), events);
      t.matrixId.value in matrix &&
      var e := matrix[t.matrixId.value];
      (BreachesResolve(e, t, now) ==> RemainingResolve(t, now) <= 0) &&
      (RemainingResolve(t, now) < 0 <==>
        !IsSettled(t.status) && EffectiveAge(t, now) - e.resolveMinutes * MINUTE >= SECOND) &&
      (RemainingResolve(t, now) < 0 ==> BreachesResolve(e, t, now)) &&
      (BreachesFirstResponse(e, t, now) ==> RemainingFirstResponse(t, now) <= 0) &&
      (RemainingFirstResponse(t, now) < 0 <==>
        t.firstResponseAt.None? && EffectiveAge(t, now) - e.firstResponseMinutes * MINUTE >= SECOND) &&
      (RemainingFirstResponse(t, now) < 0 ==> BreachesFirstResponse(e, t, now))
  {
    RunStamped(matrix, NewTicket(priority, start), events);
    RunSound(priority, start, events, now);
  }
}
