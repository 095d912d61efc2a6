/** The periodic sweep that flags breached tickets, and its interleaving with ticket transitions. */
module SlaSweep {
  import opened Base
  import opened Tickets

  datatype Kind = FirstResponseBreach | ResolveBreach | Warning

  datatype SlaEvent = SlaEvent(ticket: Id, kind: Kind)

  /** The rows of the SLA matrix by id, and the row found by ticket key when an id has gone. */
  datatype Matrix = Matrix(byId: map<Id, Entry>, byKey: TicketState -> Option<Entry>)

  function EntryFor(m: Matrix, t: TicketState): Option<Entry> {
    if t.matrixId.Some? && t.matrixId.value in m.byId then Some(m.byId[t.matrixId.value]) else m.byKey(t)
  }

  /** The stored tickets and the timeline of SLA events. */
  datatype Desk = Desk(tickets: map<Id, TicketState>, events: seq<SlaEvent>)

  datatype Report = Report(evaluated: nat, firstResponse: nat, resolve: nat, warned: nat)

  predicate Flag(t: TicketState, kind: Kind) {
    match kind
    case FirstResponseBreach => t.breachedFirstResponse
    case ResolveBreach => t.breachedResolve
    case Warning => t.warnedAt.Some?
  }

  /** Whether the ticket calls for an event of the kind. */
  predicate Due(e: Entry, t: TicketState, kind: Kind, now: Time) {
    match kind
    case FirstResponseBreach => BreachesFirstResponse(e, t, now)
    case ResolveBreach => BreachesResolve(e, t, now)
    case Warning => InWarnWindow(e, t, now)
  }

  function Raise(t: TicketState, kind: Kind, now: Time): TicketState {
    match kind
    case FirstResponseBreach => t.(breachedFirstResponse := true, updatedAt := now)
    case ResolveBreach => t.(breachedResolve := true, updatedAt := now)
    case Warning => t.(warnedAt := Some(now), updatedAt := now)
  }

  /** Raises one flag if it is due and not up yet. */
  function Consider(e: Entry, t: TicketState, kind: Kind, now: Time): (TicketState, bool) {
    if !Flag(t, kind) && Due(e, t, kind, now) then (Raise(t, kind, now), true) else (t, false)
  }

  /** One ticket of a sweep: what is written back and what is recorded. */
  function Examine(m: Matrix, id: Id, t: TicketState, now: Time): (TicketState, seq<SlaEvent>) {
    match EntryFor(m, t)
    case None => (t, [])
    case Some(e) =>
      var (t1, first) := Consider(e, t, FirstResponseBreach, now);
      var (t2, resolve) := Consider(e, t1, ResolveBreach, now);
      var (t3, warn) := Consider(e, t2, Warning, now);
      (t3, (if first then [SlaEvent(id, FirstResponseBreach)] else []) +
           (if resolve then [SlaEvent(id, ResolveBreach)] else []) +
           (if warn then [SlaEvent(id, Warning)] else []))
  }

  function ExamineIn(m: Matrix, d: Desk, id: Id, t: TicketState, now: Time): Desk {
    var (t', recorded) := Examine(m, id, t, now);
    Desk(if recorded == [] then d.tickets else d.tickets[id := t'], d.events + recorded)
  }

  /** The rows loaded at the start of a sweep. */
  function Load(tickets: map<Id, TicketState>, ids: seq<Id>): seq<(Id, TicketState)>
    requires forall i :: 0 <= i < |ids| ==> ids[i] in tickets
  {
    seq(|ids|, i requires 0 <= i < |ids| => (ids[i], tickets[ids[i]]))
  }

  function SweepRows(m: Matrix, d: Desk, rows: seq<(Id, TicketState)>, now: Time): Desk {
    if rows == [] then d
    else
      var (id, t) := rows[|rows| - 1];
      ExamineIn(m, SweepRows(m, d, rows[..|rows| - 1], now), id, t, now)
  }

  /** Tickets a sweep may list: open ones that carry an SLA stamp. */
  ghost predicate Listable(d: Desk, ids: seq<Id>) {
    (forall i :: 0 <= i < |ids| ==>
      ids[i] in d.tickets && !IsSettled(d.tickets[ids[i]].status) && d.tickets[ids[i]].matrixId.Some?) &&
    (forall i, j :: 0 <= i < j < |ids| ==> ids[i] != ids[j])
  }

  function Sweep(m: Matrix, d: Desk, ids: seq<Id>, now: Time): Desk
    requires Listable(d, ids)
  {
    SweepRows(m, d, Load(d.tickets, ids), now)
  }

  /** Events of a kind. */
  function Tally(events: seq<SlaEvent>, kind: Kind): nat {
    if events == [] then 0 else Tally(events[..|events| - 1], kind) + if events[|events| - 1].kind == kind then 1 else 0
  }

  class SlaService {
    const matrix: Matrix
    var tickets: map<Id, TicketState>
    var events: seq<SlaEvent>

    function State(): Desk
      reads this
    {
      Desk(tickets, events)
    }

    constructor (matrix: Matrix, tickets: map<Id, TicketState>)
      ensures this.matrix == matrix && State() == Desk(tickets, [])
    {
      this.matrix, this.tickets, events := matrix, tickets, [];
    }

    /** Sweeps the listed rows; each ticket is written back only if a flag went up. */
    method EvaluateBreaches(ids: seq<Id>, now: Time) returns (out: Report)
      requires Listable(State(), ids)
      modifies this
      ensures State() == Sweep(matrix, old(State()), ids, now)
      ensures out.evaluated == |ids|
      ensures out.firstResponse == Tally(events, FirstResponseBreach) - Tally(old(events), FirstResponseBreach)
      ensures out.resolve == Tally(events, ResolveBreach) - Tally(old(events), ResolveBreach)
      ensures out.warned == Tally(events, Warning) - Tally(old(events), Warning)
    {
      hide ExamineIn, Examine, Tally;
      var rows := Load(tickets, ids);
      out := Report(0, 0, 0, 0);
      for i := 0 to |rows|
        invariant State() == SweepRows(matrix, old(State()), rows[..i], now)
        invariant out.evaluated == i
        invariant out.firstResponse == Tally(events, FirstResponseBreach) - Tally(old(events), FirstResponseBreach)
        invariant out.resolve == Tally(events, ResolveBreach) - Tally(old(events), ResolveBreach)
        invariant out.warned == Tally(events, Warning) - Tally(old(events), Warning)
      {
        assert rows[..i + 1][..i] == rows[..i];
        var first, resolve, warn := EvaluateOne(rows[i].0, rows[i].1, now);
        out := Report(out.evaluated + 1, out.firstResponse + first, out.resolve + resolve, out.warned + warn);
      }
      assert rows[..|rows|] == rows;
    }

    /** The body of the sweep for one loaded row. */
    method EvaluateOne(id: Id, row: TicketState, now: Time) returns (first: nat, resolve: nat, warn: nat)
      modifies this
      ensures State() == ExamineIn(matrix, old(State()), id, row, now)
      ensures first == Tally(events, FirstResponseBreach) - Tally(old(events), FirstResponseBreach)
      ensures resolve == Tally(events, ResolveBreach) - Tally(old(events), ResolveBreach)
      ensures warn == Tally(events, Warning) - Tally(old(events), Warning)
    {
      hide BreachesFirstResponse, BreachesResolve, InWarnWindow, Tally, EntryFor;
      first, resolve, warn := 0, 0, 0;
      var entry, t := EntryFor(matrix, row), row;
      if entry.None? {
        assert events + [] == events;
        return;
      }
      var e, dirty := entry.value, false;
      if !t.breachedFirstResponse && BreachesFirstResponse(e, t, now) {
        t := t.(breachedFirstResponse := true, updatedAt := now);
        first, dirty := 1, true;
        Record(id, FirstResponseBreach);
      }
      if !t.breachedResolve && BreachesResolve(e, t, now) {
        t := t.(breachedResolve := true, updatedAt := now);
        resolve, dirty := 1, true;
        Record(id, ResolveBreach);
      }
      if t.warnedAt.None? && InWarnWindow(e, t, now) {
        t := t.(warnedAt := Some(now), updatedAt := now);
        warn, dirty := 1, true;
        Record(id, Warning);
      }
      if dirty {
        tickets := tickets[id := t];
      }
    }

    method Record(id: Id, kind: Kind)
      modifies this`events
      ensures events == old(events) + [SlaEvent(id, kind)]
      ensures forall k :: Tally(events, k) == Tally(old(events), k) + if k == kind then 1 else 0
    {
      events := events + [SlaEvent(id, kind)];
      assert events[..|events| - 1] == old(events);
    }
  }

  // ------------------------------------------------------------------
  // One sweep
  // ------------------------------------------------------------------

  /** Nothing left for the sweep to do on a ticket. */
  ghost predicate Quiet(m: Matrix, t: TicketState, now: Time) {
    EntryFor(m, t).Some? ==> forall kind :: Due(EntryFor(m, t).value, t, kind, now) ==> Flag(t, kind)
  }

  /** The matrix row of a ticket does not depend on what a sweep changes. */
  ghost predicate KeyIgnoresFlags(m: Matrix) {
    forall t, kind, now :: m.byKey(Raise(t, kind, now)) == m.byKey(t)
  }

  lemma ConsiderSettles(m: Matrix, e: Entry, t: TicketState, kind: Kind, now: Time)
    requires KeyIgnoresFlags(m)
    ensures
      var t' := Consider(e, t, kind, now).0;
      EntryFor(m, t') == EntryFor(m, t) && (Due(e, t', kind, now) ==> Flag(t', kind)) &&
      (forall other :: other != kind ==>
        Flag(t', other) == Flag(t, other) && Due(e, t', other, now) == Due(e, t, other, now)) &&
      (Flag(t, kind) ==> Flag(t', kind))
  {
  }

  lemma ExamineSettles(m: Matrix, id: Id, t: TicketState, now: Time)
    requires KeyIgnoresFlags(m)
    ensures Quiet(m, Examine(m, id, t, now).0, now)
    ensures Quiet(m, t, now) ==> Examine(m, id, t, now) == (t, [])
    ensures Examine(m, id, t, now).1 == [] <==> Quiet(m, t, now)
  {
    hide Due, KeyIgnoresFlags, EntryFor;
    if EntryFor(m, t).Some? {
      var e := EntryFor(m, t).value;
      var t1 := Consider(e, t, FirstResponseBreach, now).0;
      var t2 := Consider(e, t1, ResolveBreach, now).0;
      ConsiderSettles(m, e, t, FirstResponseBreach, now);
      ConsiderSettles(m, e, t1, ResolveBreach, now);
      ConsiderSettles(m, e, t2, Warning, now);
    }
  }

  /** A sweep touches only the rows it was given, each as its own row says. */
  lemma {:induction false} SweepPointwise(m: Matrix, d: Desk, rows: seq<(Id, TicketState)>, now: Time, id: Id)
    requires forall i, j :: 0 <= i < j < |rows| ==> rows[i].0 != rows[j].0
    requires forall i :: 0 <= i < |rows| ==> rows[i].0 in d.tickets && d.tickets[rows[i].0] == rows[i].1
    requires KeyIgnoresFlags(m)
    ensures SweepRows(m, d, rows, now).tickets.Keys == d.tickets.Keys
    ensures forall i :: 0 <= i < |rows| && rows[i].0 == id ==>
      SweepRows(m, d, rows, now).tickets[id] == Examine(m, id, rows[i].1, now).0
    ensures id in d.tickets && (forall i :: 0 <= i < |rows| ==> rows[i].0 != id) ==>
      SweepRows(m, d, rows, now).tickets[id] == d.tickets[id]
  {
    hide Examine, KeyIgnoresFlags;
    if rows != [] {
      var n := |rows| - 1;
      SweepPointwise(m, d, rows[..n], now, id);
      SweepPointwise(m, d, rows[..n], now, rows[n].0);
      ExamineSettles(m, rows[n].0, rows[n].1, now);
    }
  }

  /** After a sweep no listed ticket whose matrix row is known is breached, or due a warning, but not flagged. */
  lemma SweepLeavesNoneUnflagged(m: Matrix, d: Desk, ids: seq<Id>, now: Time, id: Id)
    requires Listable(d, ids) && KeyIgnoresFlags(m) && id in ids
    ensures id in Sweep(m, d, ids, now).tickets && Quiet(m, Sweep(m, d, ids, now).tickets[id], now)
  {
    var i :| 0 <= i < |ids| && ids[i] == id;
    var rows := Load(d.tickets, ids);
    assert rows[i].0 == id;
    SweepPointwise(m, d, rows, now, id);
    ExamineSettles(m, id, rows[i].1, now);
  }

  /** Each flag goes up exactly when the age is past its budget, or in the last share of it, and stays up. */
  ghost predicate Flagged(e: Entry, t: TicketState, t': TicketState, now: Time) {
    var age, budget := EffectiveAge(t, now), e.resolveMinutes * MINUTE;
    var open := t.status != Resolved && t.status != Closed;
    && t'.breachedFirstResponse ==
      (t.breachedFirstResponse || (t.firstResponseAt.None? && age > e.firstResponseMinutes * MINUTE))
    && t'.breachedResolve == (t.breachedResolve || (open && age > budget))
    && t'.warnedAt ==
      if t.warnedAt.None? && open && age < budget && budget as real * e.warnPct < (age + 1) as real
      then Some(now)
      else t.warnedAt
  }

  /** What a sweep does to a listed ticket whose matrix row is known, flag by flag. */
  lemma SweepExact(m: Matrix, d: Desk, ids: seq<Id>, now: Time, id: Id)
    requires Listable(d, ids) && KeyIgnoresFlags(m) && id in ids && EntryFor(m, d.tickets[id]).Some?
    ensures id in Sweep(m, d, ids, now).tickets
    ensures Flagged(EntryFor(m, d.tickets[id]).value, d.tickets[id], Sweep(m, d, ids, now).tickets[id], now)
  {
    hide Examine, SweepRows, Flagged, EntryFor, KeyIgnoresFlags;
    var i :| 0 <= i < |ids| && ids[i] == id;
    var rows := Load(d.tickets, ids);
    assert rows[i].0 == id && rows[i].1 == d.tickets[id];
    SweepPointwise(m, d, rows, now, id);
    ExamineExact(m, id, d.tickets[id], now);
  }

  lemma ExamineExact(m: Matrix, id: Id, t: TicketState, now: Time)
    requires EntryFor(m, t).Some?
    ensures Flagged(EntryFor(m, t).value, t, Examine(m, id, t, now).0, now)
  {
    hide Consider, Due, EntryFor, Flagged, Flag;
    var e := EntryFor(m, t).value;
    var t1 := Consider(e, t, FirstResponseBreach, now).0;
    var t2 := Consider(e, t1, ResolveBreach, now).0;
    ConsiderExact(e, t, FirstResponseBreach, now);
    ConsiderExact(e, t1, ResolveBreach, now);
    ConsiderExact(e, t2, Warning, now);
    FlaggedIs(e, t, Examine(m, id, t, now).0, now);
  }

  /** One flag considered: it goes up if it is due, the others stay, and nothing else becomes or stops being due. */
  lemma ConsiderExact(e: Entry, t: TicketState, kind: Kind, now: Time)
    ensures
      var t', due := Consider(e, t, kind, now).0, Due(e, t, kind, now);
      && t'.breachedFirstResponse == (t.breachedFirstResponse || (kind == FirstResponseBreach && due))
      && t'.breachedResolve == (t.breachedResolve || (kind == ResolveBreach && due))
      && t'.warnedAt == (if kind == Warning && due && t.warnedAt.None? then Some(now) else t.warnedAt)
      && forall other :: other != kind ==> Due(e, t', other, now) == Due(e, t, other, now)
  {
    hide WarnThreshold;
  }

  lemma FlaggedIs(e: Entry, t: TicketState, t': TicketState, now: Time)
    ensures
      Flagged(e, t, t', now) <==>
        && t'.breachedFirstResponse == (t.breachedFirstResponse || Due(e, t, FirstResponseBreach, now))
        && t'.breachedResolve == (t.breachedResolve || Due(e, t, ResolveBreach, now))
        && t'.warnedAt == (if Due(e, t, Warning, now) && t.warnedAt.None? then Some(now) else t.warnedAt)
  {
    hide InWarnWindow, EffectiveAge;
    WarnsFromShare(e, t, now);
  }

  lemma ExamineRaisesDue(m: Matrix, id: Id, t: TicketState, now: Time, kind: Kind)
    requires KeyIgnoresFlags(m)
    ensures Flag(Examine(m, id, t, now).0, kind) && !Flag(t, kind) ==>
      EntryFor(m, t).Some? && Due(EntryFor(m, t).value, t, kind, now)
  {
    hide Due, KeyIgnoresFlags, EntryFor;
    if EntryFor(m, t).Some? {
      var e := EntryFor(m, t).value;
      var t1 := Consider(e, t, FirstResponseBreach, now).0;
      var t2 := Consider(e, t1, ResolveBreach, now).0;
      ConsiderSettles(m, e, t, FirstResponseBreach, now);
      ConsiderSettles(m, e, t1, ResolveBreach, now);
      ConsiderSettles(m, e, t2, Warning, now);
    }
  }

  /** A sweep raises a flag only on a listed ticket, and only when its matrix row calls for it. */
  lemma SweepRaisesOnlyDue(m: Matrix, d: Desk, ids: seq<Id>, now: Time, id: Id, kind: Kind)
    requires Listable(d, ids) && KeyIgnoresFlags(m) && id in d.tickets && id in Sweep(m, d, ids, now).tickets
    requires Flag(Sweep(m, d, ids, now).tickets[id], kind) && !Flag(d.tickets[id], kind)
    ensures id in ids && EntryFor(m, d.tickets[id]).Some? &&
      Due(EntryFor(m, d.tickets[id]).value, d.tickets[id], kind, now)
  {
    var rows := Load(d.tickets, ids);
    assert forall i :: 0 <= i < |rows| ==> rows[i].0 == ids[i];
    SweepPointwise(m, d, rows, now, id);
    if i :| 0 <= i < |ids| && ids[i] == id {
      ExamineRaisesDue(m, id, rows[i].1, now, kind);
    }
  }

  lemma {:induction false} QuietRowsStay(m: Matrix, d: Desk, rows: seq<(Id, TicketState)>, now: Time)
    requires KeyIgnoresFlags(m) && forall i :: 0 <= i < |rows| ==> Quiet(m, rows[i].1, now)
    ensures SweepRows(m, d, rows, now) == d
  {
    hide Examine, Quiet, KeyIgnoresFlags;
    if rows != [] {
      QuietRowsStay(m, d, rows[..|rows| - 1], now);
      ExamineSettles(m, rows[|rows| - 1].0, rows[|rows| - 1].1, now);
      assert d.events + [] == d.events;
    }
  }

  /** Sweeping the same tickets again at the same instant writes nothing and records nothing. */
  lemma SweepTwice(m: Matrix, d: Desk, ids: seq<Id>, now: Time)
    requires Listable(d, ids) && KeyIgnoresFlags(m)
    ensures Listable(Sweep(m, d, ids, now), ids)
    ensures Sweep(m, Sweep(m, d, ids, now), ids, now) == Sweep(m, d, ids, now)
  {
    var d' := Sweep(m, d, ids, now);
    forall i | 0 <= i < |ids|
      ensures ids[i] in d'.tickets && Quiet(m, d'.tickets[ids[i]], now)
      ensures !IsSettled(d'.tickets[ids[i]].status) && d'.tickets[ids[i]].matrixId.Some?
    {
      SweepLeavesNoneUnflagged(m, d, ids, now, ids[i]);
      var rows := Load(d.tickets, ids);
      assert rows[i].0 == ids[i];
      SweepPointwise(m, d, rows, now, ids[i]);
      ExamineKeeps(m, ids[i], rows[i].1, now);
    }
    QuietRowsStay(m, d', Load(d'.tickets, ids), now);
  }

  lemma ExamineKeeps(m: Matrix, id: Id, t: TicketState, now: Time)
    ensures
      var t' := Examine(m, id, t, now).0;
      t' == t.(breachedFirstResponse := t'.breachedFirstResponse, breachedResolve := t'.breachedResolve,
        warnedAt := t'.warnedAt, updatedAt := t'.updatedAt)
    ensures forall kind :: Flag(t, kind) ==> Flag(Examine(m, id, t, now).0, kind)
  {
    hide Due, EntryFor;
  }

  /** A raised breach stays justified: under the row that raised it, the age only grows. */
  lemma BreachStaysJustified(e: Entry, t: TicketState, raisedAt: Time, events: seq<Event>, now: Time)
    requires Sound(t, raisedAt) && Ordered(raisedAt, events) && Clock(raisedAt, events) <= now
    ensures BreachesFirstResponse(e, t, raisedAt) ==>
      EffectiveAge(After(t, events), now) > e.firstResponseMinutes * MINUTE
    ensures BreachesResolve(e, t, raisedAt) ==> EffectiveAge(After(t, events), now) > e.resolveMinutes * MINUTE
  {
    AgeNeverFalls(t, raisedAt, events, now);
  }

  // ------------------------------------------------------------------
  // Sweeps and transitions interleaved
  // ------------------------------------------------------------------

  datatype Step =
    | Open(id: Id, priority: Priority, at: Time)
    | Transition(id: Id, op: Op, at: Time)
    | Evaluate(ids: seq<Id>, at: Time)

  /** One step of the desk; an unknown or taken id changes nothing, and the listing is whatever may be listed. */
  function Advance(m: Matrix, d: Desk, step: Step): Desk {
    match step
    case Open(id, priority, at) =>
      if id in d.tickets then d else d.(tickets := d.tickets[id := NewTicket(priority, at)])
    case Transition(id, op, at) =>
      if id !in d.tickets then d else d.(tickets := d.tickets[id := Apply(d.tickets[id], op, at).0])
    case Evaluate(ids, at) =>
      if forall i :: 0 <= i < |ids| ==> ids[i] in d.tickets
      then SweepRows(m, d, Load(d.tickets, Distinct(ids)), at)
      else d
  }

  function Distinct(ids: seq<Id>): (r: seq<Id>)
    ensures forall i :: 0 <= i < |r| ==> r[i] in ids
    ensures forall i, j :: 0 <= i < j < |r| ==> r[i] != r[j]
  {
    if ids == [] then []
    else
      var front, last := Distinct(ids[..|ids| - 1]), ids[|ids| - 1];
      if last in front then front else front + [last]
  }

  function Run(m: Matrix, steps: seq<Step>): Desk {
    if steps == [] then Desk(map[], []) else Advance(m, Run(m, steps[..|steps| - 1]), steps[|steps| - 1])
  }

  /** Events of a kind on the timeline of one ticket. */
  function Recorded(events: seq<SlaEvent>, id: Id, kind: Kind): nat {
    if events == [] then 0
    else Recorded(events[..|events| - 1], id, kind) + if events[|events| - 1] == SlaEvent(id, kind) then 1 else 0
  }

  lemma {:induction false} RecordedConcat(a: seq<SlaEvent>, b: seq<SlaEvent>, id: Id, kind: Kind)
    ensures Recorded(a + b, id, kind) == Recorded(a, id, kind) + Recorded(b, id, kind)
  {
    if b == [] {
      assert a + b == a;
    } else {
      RecordedConcat(a, b[..|b| - 1], id, kind);
      assert (a + b)[..|a + b| - 1] == a + b[..|b| - 1];
    }
  }

  /** The timeline tells exactly which flags are up. */
  ghost predicate Consistent(d: Desk) {
    forall id, kind :: Recorded(d.events, id, kind) == if id in d.tickets && Flag(d.tickets[id], kind) then 1 else 0
  }

  lemma ExamineRecords(m: Matrix, id: Id, t: TicketState, now: Time, other: Id, kind: Kind)
    ensures
      var (t', recorded) := Examine(m, id, t, now);
      Recorded(recorded, other, kind) == if other == id && Flag(t', kind) && !Flag(t, kind) then 1 else 0
    ensures Examine(m, id, t, now).1 == [] ==> Examine(m, id, t, now).0 == t
  {
    hide EntryFor, Consider, Recorded;
    if EntryFor(m, t).Some? {
      var e := EntryFor(m, t).value;
      var t1 := Consider(e, t, FirstResponseBreach, now).0;
      var t2 := Consider(e, t1, ResolveBreach, now).0;
      var a, b, c := Noted(e, id, t, FirstResponseBreach, now), Noted(e, id, t1, ResolveBreach, now),
        Noted(e, id, t2, Warning, now);
      ConsiderRecords(e, id, t, FirstResponseBreach, now, other, kind);
      ConsiderRecords(e, id, t1, ResolveBreach, now, other, kind);
      ConsiderRecords(e, id, t2, Warning, now, other, kind);
      RecordedConcat(a + b, c, other, kind);
      RecordedConcat(a, b, other, kind);
    } else {
      NothingRecorded(other, kind);
    }
  }

  /** What one flag contributes to the timeline. */
  function Noted(e: Entry, id: Id, t: TicketState, kind: Kind, now: Time): seq<SlaEvent> {
    if Consider(e, t, kind, now).1 then [SlaEvent(id, kind)] else []
  }

  lemma NothingRecorded(other: Id, kind: Kind)
    ensures Recorded([], other, kind) == 0
  {
  }

  lemma ConsiderRecords(e: Entry, id: Id, t: TicketState, kind: Kind, now: Time, other: Id, seen: Kind)
    ensures
      var (t', raised) := Consider(e, t, kind, now);
      Recorded(Noted(e, id, t, kind, now), other, seen) == (if other == id && seen == kind && raised then 1 else 0) &&
      Flag(t', seen) == (Flag(t, seen) || (seen == kind && raised)) && (raised ==> !Flag(t, kind)) &&
      (!raised ==> t' == t)
  {
    hide Due;
    NothingRecorded(other, seen);
    assert [SlaEvent(id, kind)][..0] == [];
  }

  lemma ExamineConsistent(m: Matrix, d: Desk, id: Id, t: TicketState, now: Time)
    requires Consistent(d) && id in d.tickets && d.tickets[id] == t
    ensures Consistent(ExamineIn(m, d, id, t, now))
  {
    hide Examine, Recorded;
    var d' := ExamineIn(m, d, id, t, now);
    forall other, kind
      ensures Recorded(d'.events, other, kind) == if other in d'.tickets && Flag(d'.tickets[other], kind) then 1 else 0
    {
      ExamineRecords(m, id, t, now, other, kind);
      RecordedConcat(d.events, Examine(m, id, t, now).1, other, kind);
      ExamineKeeps(m, id, t, now);
      assert Recorded(d.events, other, kind) == if other in d.tickets && Flag(d.tickets[other], kind) then 1 else 0;
    }
  }

  lemma {:induction false} SweepConsistent(m: Matrix, d: Desk, rows: seq<(Id, TicketState)>, now: Time)
    requires KeyIgnoresFlags(m) && Consistent(d)
    requires forall i, j :: 0 <= i < j < |rows| ==> rows[i].0 != rows[j].0
    requires forall i :: 0 <= i < |rows| ==> rows[i].0 in d.tickets && d.tickets[rows[i].0] == rows[i].1
    ensures Consistent(SweepRows(m, d, rows, now))
  {
    hide Consistent, KeyIgnoresFlags;
    if rows != [] {
      var n := |rows| - 1;
      SweepConsistent(m, d, rows[..n], now);
      SweepPointwise(m, d, rows[..n], now, rows[n].0);
      ExamineConsistent(m, SweepRows(m, d, rows[..n], now), rows[n].0, rows[n].1, now);
    }
  }

  lemma ApplyKeepsFlags(t: TicketState, op: Op, at: Time, kind: Kind)
    ensures Flag(Apply(t, op, at).0, kind) == Flag(t, kind)
  {
  }

  lemma AdvanceConsistent(m: Matrix, d: Desk, step: Step)
    requires KeyIgnoresFlags(m) && Consistent(d)
    ensures Consistent(Advance(m, d, step))
  {
    hide Apply, KeyIgnoresFlags, SweepRows;
    var d' := Advance(m, d, step);
    match step
    case Open(id, priority, at) =>
      assert forall kind :: !Flag(NewTicket(priority, at), kind);
    case Transition(id, op, at) =>
      forall other, kind
        ensures Recorded(d'.events, other, kind) ==
          if other in d'.tickets && Flag(d'.tickets[other], kind) then 1 else 0
      {
        assert Recorded(d.events, other, kind) == if other in d.tickets && Flag(d.tickets[other], kind) then 1 else 0;
        if id in d.tickets {
          ApplyKeepsFlags(d.tickets[id], op, at, kind);
        }
      }
    case Evaluate(ids, at) =>
      if forall i :: 0 <= i < |ids| ==> ids[i] in d.tickets {
        SweepConsistent(m, d, Load(d.tickets, Distinct(ids)), at);
      }
  }

  /**
   Over any interleaving of new tickets, transitions and sweeps, each ticket has at most one event
   of each kind on its timeline, and has it exactly when its flag is up.
   */
  lemma {:induction false} AtMostOneEvent(m: Matrix, steps: seq<Step>, id: Id, kind: Kind)
    requires KeyIgnoresFlags(m)
    ensures Recorded(Run(m, steps).events, id, kind) <= 1
    ensures Recorded(Run(m, steps).events, id, kind) == 1 <==>
      id in Run(m, steps).tickets && Flag(Run(m, steps).tickets[id], kind)
  {
    RunConsistent(m, steps);
  }

  lemma {:induction false} RunConsistent(m: Matrix, steps: seq<Step>)
    requires KeyIgnoresFlags(m)
    ensures Consistent(Run(m, steps))
  {
    if steps != [] {
      RunConsistent(m, steps[..|steps| - 1]);
      AdvanceConsistent(m, Run(m, steps[..|steps| - 1]), steps[|steps| - 1]);
    }
  }

  // ------------------------------------------------------------------
  // Raised flags stay justified
  // ------------------------------------------------------------------

  function StepTime(step: Step): Time {
    step.at
  }

  /** The times of a run never go back. */
  ghost predicate InOrder(steps: seq<Step>) {
    forall i, j :: 0 <= i < j < |steps| ==> StepTime(steps[i]) <= StepTime(steps[j])
  }

  /** The age a ticket has to pass, or to reach for a warning, before the row calls for an event. */
  function Budget(e: Entry, kind: Kind): int {
    match kind
    case FirstResponseBreach => e.firstResponseMinutes * MINUTE
    case ResolveBreach => e.resolveMinutes * MINUTE
    case Warning => WarnThreshold(e) - 1
  }

  lemma ExamineKeepsClock(m: Matrix, id: Id, t: TicketState, at: Time)
    requires Sound(t, at)
    ensures Sound(Examine(m, id, t, at).0, at) && EffectiveAge(Examine(m, id, t, at).0, at) == EffectiveAge(t, at)
  {
    ExamineKeeps(m, id, t, at);
    hide Examine;
  }

  lemma ApplyKeepsClock(t: TicketState, op: Op, at: Time)
    requires Sound(t, at)
    ensures Sound(Apply(t, op, at).0, at) && EffectiveAge(Apply(t, op, at).0, at) >= EffectiveAge(t, at)
  {
    ApplyAge(t, op, at);
    ApplySound(t, op, at, at);
  }

  /** One step keeps every ticket sound, and lets no age fall. */
  lemma AdvanceKeepsClock(m: Matrix, d: Desk, step: Step, id: Id)
    requires KeyIgnoresFlags(m) && (id in d.tickets ==> Sound(d.tickets[id], step.at)) &&
      id in Advance(m, d, step).tickets
    ensures Sound(Advance(m, d, step).tickets[id], step.at)
    ensures id in d.tickets ==>
      EffectiveAge(Advance(m, d, step).tickets[id], step.at) >= EffectiveAge(d.tickets[id], step.at)
  {
    hide KeyIgnoresFlags, Apply, SweepRows, Sound, EffectiveAge;
    match step
    case Open(other, priority, at) =>
      NewTicketSound(priority, at);
    case Transition(other, op, at) =>
      if other in d.tickets && other == id {
        ApplyKeepsClock(d.tickets[other], op, at);
      }
    case Evaluate(ids, at) =>
      if forall i :: 0 <= i < |ids| ==> ids[i] in d.tickets {
        var rows := Load(d.tickets, Distinct(ids));
        SweepPointwise(m, d, rows, at, id);
        if i :| 0 <= i < |rows| && rows[i].0 == id {
          ExamineKeepsClock(m, id, rows[i].1, at);
        }
      }
  }

  /** Every ticket of a run is sound, whatever sweeps have done to it. */
  lemma {:induction false} RunTicketsSound(m: Matrix, steps: seq<Step>, now: Time, id: Id)
    requires KeyIgnoresFlags(m) && InOrder(steps) && (steps != [] ==> StepTime(steps[|steps| - 1]) <= now)
    requires id in Run(m, steps).tickets
    ensures Sound(Run(m, steps).tickets[id], now)
  {
    hide KeyIgnoresFlags, Advance, Sound;
    var n := |steps| - 1;
    var before, at := Run(m, steps[..n]), steps[n].at;
    assert StepTime(steps[n]) == at && (n > 0 ==> StepTime(steps[n - 1]) <= StepTime(steps[n]));
    if id in before.tickets {
      RunTicketsSound(m, steps[..n], at, id);
    }
    AdvanceKeepsClock(m, before, steps[n], id);
    SoundLater(Run(m, steps).tickets[id], at, now);
  }

  /** A step that raises a flag is a sweep that lists the ticket and finds its own row calling for it. */
  lemma RaisedByOwnRow(m: Matrix, d: Desk, step: Step, id: Id, kind: Kind)
    requires KeyIgnoresFlags(m) && id in Advance(m, d, step).tickets && Flag(Advance(m, d, step).tickets[id], kind)
    requires id in d.tickets ==> !Flag(d.tickets[id], kind)
    ensures step.Evaluate? && id in step.ids && id in d.tickets
    ensures EntryFor(m, d.tickets[id]).Some? && Due(EntryFor(m, d.tickets[id]).value, d.tickets[id], kind, step.at)
  {
    hide KeyIgnoresFlags, Apply, SweepRows, Due, EntryFor;
    match step
    case Open(other, priority, at) =>
    case Transition(other, op, at) =>
      if other in d.tickets {
        ApplyKeepsFlags(d.tickets[other], op, at, kind);
      }
    case Evaluate(ids, at) =>
      if forall i :: 0 <= i < |ids| ==> ids[i] in d.tickets {
        var rows := Load(d.tickets, Distinct(ids));
        SweepPointwise(m, d, rows, at, id);
        if i :| 0 <= i < |rows| && rows[i].0 == id {
          ExamineRaisesDue(m, id, rows[i].1, at, kind);
        }
      }
  }

  lemma DuePastBudget(e: Entry, t: TicketState, kind: Kind, now: Time)
    requires Due(e, t, kind, now)
    ensures EffectiveAge(t, now) > Budget(e, kind)
  {
  }

  /** How a flag came to be up: a sweep of the run found the ticket's own row of that moment calling for it. */
  ghost predicate RaisedAt(m: Matrix, steps: seq<Step>, id: Id, kind: Kind, k: nat, e: Entry) {
    && k < |steps| && steps[k].Evaluate? && id in steps[k].ids
    && var before := Run(m, steps[..k]).tickets;
      id in before && !Flag(before[id], kind) && EntryFor(m, before[id]) == Some(e) &&
      Due(e, before[id], kind, steps[k].at)
  }

  lemma RaisedEarlier(m: Matrix, steps: seq<Step>, id: Id, kind: Kind, k: nat, e: Entry)
    requires steps != [] && RaisedAt(m, steps[..|steps| - 1], id, kind, k, e)
    ensures RaisedAt(m, steps, id, kind, k, e)
  {
    hide Due, Flag, EntryFor, Run;
    assert steps[..|steps| - 1][..k] == steps[..k];
  }

  /**
   Over any interleaving on a clock that never goes back, each flag that is up was raised by a sweep
   for which the ticket's own matrix row called, and the ticket's age is past the budget of that row
   now and from then on; flags for first response, resolution and warning alike.
   */
  lemma {:induction false} FlagsStayJustified(m: Matrix, steps: seq<Step>, now: Time, id: Id, kind: Kind)
    returns (k: nat, e: Entry)
    requires KeyIgnoresFlags(m) && InOrder(steps) && (steps != [] ==> StepTime(steps[|steps| - 1]) <= now)
    requires id in Run(m, steps).tickets && Flag(Run(m, steps).tickets[id], kind)
    ensures RaisedAt(m, steps, id, kind, k, e)
    ensures EffectiveAge(Run(m, steps).tickets[id], now) > Budget(e, kind)
  {
    hide KeyIgnoresFlags, Advance, Sound, EffectiveAge, Due, Budget;
    var n := |steps| - 1;
    var before, at, t := Run(m, steps[..n]), steps[n].at, Run(m, steps).tickets[id];
    assert StepTime(steps[n]) == at && (n > 0 ==> StepTime(steps[n - 1]) <= StepTime(steps[n]));
    if id in before.tickets {
      RunTicketsSound(m, steps[..n], at, id);
    }
    AdvanceKeepsClock(m, before, steps[n], id);
    AgeAdvances(t, at, now);
    assert EffectiveAge(t, at) <= EffectiveAge(t, now);
    if id in before.tickets && Flag(before.tickets[id], kind) {
      k, e := FlagsStayJustified(m, steps[..n], at, id, kind);
      hide RaisedAt, Flag;
      RaisedEarlier(m, steps, id, kind, k, e);
    } else {
      RaisedByOwnRow(m, before, steps[n], id, kind);
      k, e := n, EntryFor(m, before.tickets[id]).value;
      DuePastBudget(e, before.tickets[id], kind, at);
    }
  }
}
