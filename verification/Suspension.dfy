/**
 The suspension ladder (warn, soft suspend, hard suspend), the restore that resets it, and the two
 scheduled jobs that climb and reset it. Both jobs append to one action log.
 */
module Suspension {
  import opened Base

  type Id = nat

  datatype Action = Warn | SoftSuspend | HardSuspend | Restore

  datatype Policy = Policy(warnDays: int, softDays: int, hardDays: int, supervisorForHard: bool)

  datatype Stage = Stage(action: Action, grace: int)

  /** Position on the ladder; a restore, like no action at all, is below its first rung. */
  function Severity(a: Option<Action>): int {
    match a
    case Some(Warn) => 0
    case Some(SoftSuspend) => 1
    case Some(HardSuspend) => 2
    case _ => -1
  }

  /** Stages from the most severe to the least; the first one reached decides. */
  function Walk(stages: seq<Stage>, daysPast: int, lastIndex: int): Option<Action> {
    if stages == [] then None
    else if stages[0].grace <= 0 && stages[0].action != Warn then Walk(stages[1..], daysPast, lastIndex)
    else if daysPast >= stages[0].grace then
      if Severity(Some(stages[0].action)) > lastIndex then Some(stages[0].action) else None
    else Walk(stages[1..], daysPast, lastIndex)
  }

  function Stages(p: Policy): seq<Stage> {
    [Stage(HardSuspend, p.hardDays), Stage(SoftSuspend, p.softDays), Stage(Warn, p.warnDays)]
  }

  /** The next action for a customer whose oldest overdue invoice was due at `due`. */
  function NextAction(p: Policy, due: Option<Time>, last: Option<Action>, now: Time): Option<Action> {
    if due.None? || last == Some(HardSuspend) then None
    else Walk(Stages(p), Trunc(now - due.value, DAY), Severity(last))
  }

  // ------------------------------------------------------------------
  // Confluence
  // ------------------------------------------------------------------

  /** A stage the schema has not left out. */
  predicate Enabled(p: Policy, a: Action) {
    match a
    case Warn => true
    case SoftSuspend => p.softDays > 0
    case HardSuspend => p.hardDays > 0
    case Restore => false
  }

  function Grace(p: Policy, a: Action): int {
    match a
    case Warn => p.warnDays
    case SoftSuspend => p.softDays
    case _ => p.hardDays
  }

  predicate Crossed(p: Policy, due: Time, a: Action, now: Time) {
    Enabled(p, a) && Trunc(now - due, DAY) >= Grace(p, a)
  }

  /** The most severe enabled stage whose grace has run out, if any has. */
  ghost predicate IsWorstCrossed(p: Policy, due: Time, a: Option<Action>, now: Time) {
    (a.Some? ==> Crossed(p, due, a.value, now)) &&
    forall other :: Crossed(p, due, other, now) ==> Severity(Some(other)) <= Severity(a)
  }

  /** The last action after a series of ticks. */
  function LastAfter(p: Policy, due: Time, last: Option<Action>, ticks: seq<Time>): Option<Action> {
    if ticks == [] then last
    else
      var before := LastAfter(p, due, last, ticks[..|ticks| - 1]);
      var next := NextAction(p, Some(due), before, ticks[|ticks| - 1]);
      if next.Some? then next else before
  }

  lemma WorstUnique(p: Policy, due: Time, a: Option<Action>, b: Option<Action>, now: Time)
    requires IsWorstCrossed(p, due, a, now) && IsWorstCrossed(p, due, b, now)
    ensures a == b
  {
  }

  /** A tick acts exactly when the worst stage crossed is worse than the last action, and then takes that stage. */
  lemma NextIsWorst(p: Policy, due: Time, last: Option<Action>, now: Time) returns (worst: Option<Action>)
    ensures IsWorstCrossed(p, due, worst, now)
    ensures NextAction(p, Some(due), last, now) == if Severity(worst) > Severity(last) then worst else None
  {
    var stages, days := Stages(p), Trunc(now - due, DAY);
    assert stages[1..] == [Stage(SoftSuspend, p.softDays), Stage(Warn, p.warnDays)];
    assert stages[1..][1..] == [Stage(Warn, p.warnDays)];
    assert stages[1..][1..][1..] == [];
    assert Walk([], days, Severity(last)) == None;
    assert Walk([Stage(Warn, p.warnDays)], days, Severity(last)) ==
      if days >= p.warnDays && Severity(last) < 0 then Some(Warn) else None;
    assert Walk(stages[1..], days, Severity(last)) ==
      if p.softDays > 0 && days >= p.softDays then (if Severity(last) < 1 then Some(SoftSuspend) else None)
      else Walk([Stage(Warn, p.warnDays)], days, Severity(last));
    worst := if Crossed(p, due, HardSuspend, now) then Some(HardSuspend)
    else if Crossed(p, due, SoftSuspend, now) then Some(SoftSuspend)
    else if Crossed(p, due, Warn, now) then Some(Warn) else None;
  }

  lemma CrossedStays(p: Policy, due: Time, a: Action, now: Time, later: Time)
    requires Crossed(p, due, a, now) && now <= later
    ensures Crossed(p, due, a, later)
  {
  }

  /**
   From no action, or from a restore, any non-decreasing schedule of ticks ends with the worst stage
   crossed at its final tick: missed ticks lose nothing and extra ticks add nothing.
   */
  lemma {:induction false} Confluence(p: Policy, due: Time, last: Option<Action>, ticks: seq<Time>)
    returns (worst: Option<Action>)
    requires Severity(last) == -1 && ticks != []
    requires forall i, j :: 0 <= i < j < |ticks| ==> ticks[i] <= ticks[j]
    ensures IsWorstCrossed(p, due, worst, ticks[|ticks| - 1])
    ensures LastAfter(p, due, last, ticks) == if worst.Some? then worst else last
  {
    var n := |ticks| - 1;
    worst := NextIsWorst(p, due, LastAfter(p, due, last, ticks[..n]), ticks[n]);
    if n > 0 {
      var earlier := Confluence(p, due, last, ticks[..n]);
      if earlier.Some? {
        CrossedStays(p, due, earlier.value, ticks[n - 1], ticks[n]);
      }
    }
  }

  /** Two schedules that end at the same instant end with the same last action. */
  lemma SchedulesAgree(p: Policy, due: Time, last: Option<Action>, ticks: seq<Time>, ticks': seq<Time>)
    requires Severity(last) == -1 && ticks != [] && ticks' != []
    requires forall i, j :: 0 <= i < j < |ticks| ==> ticks[i] <= ticks[j]
    requires forall i, j :: 0 <= i < j < |ticks'| ==> ticks'[i] <= ticks'[j]
    requires ticks[|ticks| - 1] == ticks'[|ticks'| - 1]
    ensures LastAfter(p, due, last, ticks) == LastAfter(p, due, last, ticks')
  {
    var worst := Confluence(p, due, last, ticks);
    var worst' := Confluence(p, due, last, ticks');
    WorstUnique(p, due, worst, worst', ticks[|ticks| - 1]);
  }

  // ------------------------------------------------------------------
  // The two jobs
  // ------------------------------------------------------------------

  datatype State = Active | SoftSuspended | HardSuspended

  datatype Row = Row(customer: Id, action: Action, at: Time)

  datatype Candidate = Candidate(customer: Id, oldestDue: Option<Time>)

  /** Customer states, active unless listed, and the action log. */
  datatype Desk = Desk(states: map<Id, State>, log: seq<Row>)

  function StateOf(d: Desk, c: Id): State {
    if c in d.states then d.states[c] else Active
  }

  /** The newest logged action of a customer. */
  function LastAction(log: seq<Row>, c: Id): Option<Action> {
    if log == [] then None
    else if log[|log| - 1].customer == c then Some(log[|log| - 1].action)
    else LastAction(log[..|log| - 1], c)
  }

  /** What the restore reader shows: the customer record has a single suspended status. */
  function Visible(s: State): State {
    if s == Active then Active else SoftSuspended
  }

  predicate ShouldRestore(current: State, hasUnpaid: bool) {
    (current == SoftSuspended || current == HardSuspended) && !hasUnpaid
  }

  function Escalate(p: Policy, d: Desk, c: Candidate, now: Time): Desk {
    match NextAction(p, c.oldestDue, LastAction(d.log, c.customer), now)
    case None => d
    case Some(action) =>
      var states :=
        if action == SoftSuspend then d.states[c.customer := SoftSuspended]
        else if action == HardSuspend && !p.supervisorForHard then d.states[c.customer := HardSuspended]
        else d.states;
      Desk(states, d.log + [Row(c.customer, action, now)])
  }

  function EscalateAll(policy: Id -> Policy, d: Desk, cs: seq<Candidate>, now: Time): Desk {
    if cs == [] then d
    else
      var c := cs[|cs| - 1];
      Escalate(policy(c.customer), EscalateAll(policy, d, cs[..|cs| - 1], now), c, now)
  }

  function RestoreOne(d: Desk, c: Id, seen: State, now: Time): Desk {
    if !ShouldRestore(seen, false) then d
    else Desk(d.states[c := Active], d.log + [Row(c, Restore, now)])
  }

  /** Restores the listed customers; each state is the one read when the list was made. */
  function RestoreAll(d: Desk, listed: Desk, cs: seq<Id>, now: Time): Desk {
    if cs == [] then d
    else
      var c := cs[|cs| - 1];
      RestoreOne(RestoreAll(d, listed, cs[..|cs| - 1], now), c, Visible(StateOf(listed, c)), now)
  }

  class OrchestrationService {
    const policy: Id -> Policy
    var states: map<Id, State>
    var log: seq<Row>

    function View(): Desk
      reads this
    {
      Desk(states, log)
    }

    constructor (policy: Id -> Policy)
      ensures this.policy == policy && View() == Desk(map[], [])
    {
      this.policy, states, log := policy, map[], [];
    }

    method RunSuspensionTick(candidates: seq<Candidate>, now: Time) returns (emitted: nat)
      modifies this
      ensures View() == EscalateAll(policy, old(View()), candidates, now)
      ensures emitted == |log| - |old(log)|
    {
      emitted := 0;
      for i := 0 to |candidates|
        invariant View() == EscalateAll(policy, old(View()), candidates[..i], now)
        invariant emitted == |log| - |old(log)|
      {
        assert candidates[..i + 1][..i] == candidates[..i];
        var c := candidates[i];
        var p := policy(c.customer);
        var next := NextAction(p, c.oldestDue, LastAction(log, c.customer), now);
        if next.None? {
          continue;
        }
        if next.value == SoftSuspend {
          states := states[c.customer := SoftSuspended];
        } else if next.value == HardSuspend && !p.supervisorForHard {
          states := states[c.customer := HardSuspended];
        }
        log := log + [Row(c.customer, next.value, now)];
        emitted := emitted + 1;
      }
      assert candidates[..|candidates|] == candidates;
    }

    method RunRestoreTick(candidates: seq<Id>, now: Time) returns (restored: nat)
      modifies this
      ensures View() == RestoreAll(old(View()), old(View()), candidates, now)
      ensures restored == |log| - |old(log)|
    {
      var listed := View();
      restored := 0;
      for i := 0 to |candidates|
        invariant View() == RestoreAll(old(View()), listed, candidates[..i], now)
        invariant restored == |log| - |old(log)|
      {
        assert candidates[..i + 1][..i] == candidates[..i];
        var c := candidates[i];
        if !ShouldRestore(Visible(StateOf(listed, c)), false) {
          continue;
        }
        states := states[c := Active];
        log := log + [Row(c, Restore, now)];
        restored := restored + 1;
      }
      assert candidates[..|candidates|] == candidates;
    }
  }

  // ------------------------------------------------------------------
  // Every interleaving of the two jobs
  // ------------------------------------------------------------------

  /** A run of one of the jobs; policies and due dates may differ from tick to tick. */
  datatype Tick =
    | Suspend(policy: Id -> Policy, candidates: seq<Candidate>, now: Time)
    | RestorePaid(customers: seq<Id>, now: Time)

  function RunTick(d: Desk, t: Tick): Desk {
    match t
    case Suspend(policy, candidates, now) => EscalateAll(policy, d, candidates, now)
    case RestorePaid(customers, now) => RestoreAll(d, d, customers, now)
  }

  function Run(ticks: seq<Tick>): Desk {
    if ticks == [] then Desk(map[], []) else RunTick(Run(ticks[..|ticks| - 1]), ticks[|ticks| - 1])
  }

  /** The log alone tells the state. */
  function StateFrom(last: Option<Action>): State {
    match last
    case Some(SoftSuspend) => SoftSuspended
    case Some(HardSuspend) => HardSuspended
    case _ => Active
  }

  ghost predicate Projects(d: Desk) {
    forall c :: StateOf(d, c) == StateFrom(LastAction(d.log, c))
  }

  /** The policy has a hard suspension, and leaves it to a supervisor. */
  predicate Gated(p: Policy) {
    p.supervisorForHard && p.hardDays > 0
  }

  /** No tick defers a hard suspension to a supervisor. */
  ghost predicate Unsupervised(ticks: seq<Tick>) {
    forall i, c :: 0 <= i < |ticks| && ticks[i].Suspend? ==> !Gated(ticks[i].policy(c))
  }

  /** All ticks run under these policies. */
  ghost predicate Under(policy: Id -> Policy, ticks: seq<Tick>) {
    forall i :: 0 <= i < |ticks| && ticks[i].Suspend? ==> ticks[i].policy == policy
  }

  ghost predicate Once(cs: seq<Id>) {
    forall j, k :: 0 <= j < k < |cs| ==> cs[j] != cs[k]
  }

  /** A listing names each customer once. */
  ghost predicate ListsOnce(ticks: seq<Tick>) {
    forall i :: 0 <= i < |ticks| && ticks[i].RestorePaid? ==>
      Once(ticks[i].customers)
  }

  lemma LastAppended(log: seq<Row>, row: Row, c: Id)
    ensures LastAction(log + [row], c) == if row.customer == c then Some(row.action) else LastAction(log, c)
  {
    assert (log + [row])[..|log|] == log;
  }

  /** An escalation keeps log and state in step exactly when it is not a hard suspension left to a supervisor. */
  lemma EscalateProjectsIff(p: Policy, d: Desk, c: Candidate, now: Time)
    requires Projects(d)
    ensures Projects(Escalate(p, d, c, now)) <==>
            !(p.supervisorForHard &&
              NextAction(p, c.oldestDue, LastAction(d.log, c.customer), now) == Some(HardSuspend))
  {
    hide Walk;
    var last := LastAction(d.log, c.customer);
    var next := NextAction(p, c.oldestDue, last, now);
    if next.Some? {
      var worst := NextIsWorst(p, c.oldestDue.value, last, now);
      forall other
        ensures LastAction(d.log + [Row(c.customer, next.value, now)], other) ==
          if other == c.customer then next else LastAction(d.log, other)
      {
        LastAppended(d.log, Row(c.customer, next.value, now), other);
      }
      assert StateOf(d, c.customer) == StateFrom(last);
      var d' := Escalate(p, d, c, now);
      if p.supervisorForHard && next == Some(HardSuspend) {
        assert StateOf(d', c.customer) != StateFrom(LastAction(d'.log, c.customer));
      }
    }
  }

  lemma HardIsEnabled(p: Policy, due: Option<Time>, last: Option<Action>, now: Time)
    ensures NextAction(p, due, last, now) == Some(HardSuspend) ==> p.hardDays > 0
  {
    if due.Some? {
      var worst := NextIsWorst(p, due.value, last, now);
    }
  }

  lemma {:induction false} EscalateAllProjects(policy: Id -> Policy, d: Desk, cs: seq<Candidate>, now: Time)
    requires Projects(d) && forall c :: !Gated(policy(c))
    ensures Projects(EscalateAll(policy, d, cs, now))
  {
    if cs != [] {
      var n := |cs| - 1;
      EscalateAllProjects(policy, d, cs[..n], now);
      HardIsEnabled(policy(cs[n].customer), cs[n].oldestDue,
        LastAction(EscalateAll(policy, d, cs[..n], now).log, cs[n].customer), now);
      hide NextAction, Projects;
      EscalateProjectsIff(policy(cs[n].customer), EscalateAll(policy, d, cs[..n], now), cs[n], now);
    }
  }

  lemma {:induction false} RestoreAllProjects(d: Desk, cs: seq<Id>, now: Time)
    requires Projects(d)
    ensures Projects(RestoreAll(d, d, cs, now))
  {
    if cs != [] {
      var n := |cs| - 1;
      RestoreAllProjects(d, cs[..n], now);
      forall other {
        LastAppended(RestoreAll(d, d, cs[..n], now).log, Row(cs[n], Restore, now), other);
      }
    }
  }

  /**
   After any interleaving of the two jobs, with any policies and due dates, the suspension state of
   every customer is a function of that customer's last logged action.
   */
  lemma {:induction false} StateIsProjectionOfLog(ticks: seq<Tick>)
    requires Unsupervised(ticks)
    ensures Projects(Run(ticks))
  {
    if ticks != [] {
      var n := |ticks| - 1;
      StateIsProjectionOfLog(ticks[..n]);
      match ticks[n]
      case Suspend(policy, candidates, now) =>
        assert forall c :: !Gated(ticks[n].policy(c));
        EscalateAllProjects(policy, Run(ticks[..n]), candidates, now);
      case RestorePaid(customers, now) =>
        RestoreAllProjects(Run(ticks[..n]), customers, now);
    }
  }

  /** One tick under a gated policy: a hard suspension is on record, and the customer is active. */
  lemma GatedBreaks(policy: Id -> Policy, c: Id) returns (ticks: seq<Tick>)
    requires Gated(policy(c))
    ensures Under(policy, ticks) && !Projects(Run(ticks))
  {
    var p, now := policy(c), policy(c).hardDays * DAY;
    var t := Suspend(policy, [Candidate(c, Some(0))], now);
    ticks := [t];
    var worst := NextIsWorst(p, 0, None, now);
    assert Crossed(p, 0, HardSuspend, now);
    assert worst == Some(HardSuspend);
    assert [t][..0] == [] && [Candidate(c, Some(0))][..0] == [];
    var d := Desk(map[], []);
    assert NextAction(p, Some(0), LastAction(d.log, c), now) == Some(HardSuspend);
    assert Run([]) == d && Run(ticks) == RunTick(d, t);
    assert EscalateAll(policy, d, [], now) == d;
    assert RunTick(d, t) == Escalate(p, d, Candidate(c, Some(0)), now);
    LastAppended([], Row(c, HardSuspend, now), c);
    assert StateOf(Run(ticks), c) == Active;
  }

  /**
   State and log agree after every run under given policies exactly when none leaves a hard suspension to a
   supervisor.
   */
  lemma ProjectionIff(policy: Id -> Policy)
    ensures (forall ticks :: Under(policy, ticks) ==> Projects(Run(ticks))) <==> forall c :: !Gated(policy(c))
  {
    hide Projects, Run, Gated;
    if c :| Gated(policy(c)) {
      var ticks := GatedBreaks(policy, c);
    } else {
      forall ticks | Under(policy, ticks)
        ensures Projects(Run(ticks))
      {
        StateIsProjectionOfLog(ticks);
      }
    }
  }

  /** The actions of one customer, oldest first. */
  function ActionsOf(log: seq<Row>, c: Id): seq<Action> {
    if log == [] then []
    else ActionsOf(log[..|log| - 1], c) + if log[|log| - 1].customer == c then [log[|log| - 1].action] else []
  }

  /** Between restores the actions of a customer grow strictly more severe. */
  ghost predicate Climbs(actions: seq<Action>) {
    forall i {:trigger actions[i]} :: 0 < i < |actions| && actions[i] != Restore ==>
      Severity(Some(actions[i - 1])) < Severity(Some(actions[i]))
  }

  /** A restore directly follows a suspension. */
  ghost predicate RestoresSuspended(actions: seq<Action>) {
    forall i {:trigger actions[i]} :: 0 <= i < |actions| && actions[i] == Restore ==>
      0 < i && (actions[i - 1] == SoftSuspend || actions[i - 1] == HardSuspend)
  }

  lemma ActionsAppended(log: seq<Row>, row: Row, c: Id)
    ensures ActionsOf(log + [row], c) ==
      if row.customer == c then ActionsOf(log, c) + [row.action] else ActionsOf(log, c)
  {
    assert (log + [row])[..|log|] == log;
    assert ActionsOf(log, c) + [] == ActionsOf(log, c);
  }

  lemma {:induction false} LastOfActions(log: seq<Row>, c: Id)
    ensures LastAction(log, c) ==
      if ActionsOf(log, c) == [] then None else Some(ActionsOf(log, c)[|ActionsOf(log, c)| - 1])
  {
    if log != [] {
      LastOfActions(log[..|log| - 1], c);
      assert ActionsOf(log[..|log| - 1], c) + [] == ActionsOf(log[..|log| - 1], c);
    }
  }

  lemma {:induction false} EscalateAllClimbs(policy: Id -> Policy, d: Desk, cs: seq<Candidate>, now: Time, c: Id)
    requires Climbs(ActionsOf(d.log, c))
    ensures
      var d' := EscalateAll(policy, d, cs, now);
      Climbs(ActionsOf(d'.log, c)) &&
      (RestoresSuspended(ActionsOf(d.log, c)) ==> RestoresSuspended(ActionsOf(d'.log, c)))
  {
    hide Climbs, RestoresSuspended, ActionsOf, Escalate;
    if cs != [] {
      var n := |cs| - 1;
      EscalateAllClimbs(policy, d, cs[..n], now, c);
      EscalateClimbs(policy(cs[n].customer), EscalateAll(policy, d, cs[..n], now), cs[n], now, c);
    }
  }

  lemma EscalateClimbs(p: Policy, d: Desk, who: Candidate, now: Time, c: Id)
    requires Climbs(ActionsOf(d.log, c))
    ensures
      var d' := Escalate(p, d, who, now);
      Climbs(ActionsOf(d'.log, c)) &&
      (RestoresSuspended(ActionsOf(d.log, c)) ==> RestoresSuspended(ActionsOf(d'.log, c)))
  {
    hide LastAction, NextAction, ActionsOf, Climbs, RestoresSuspended, Enabled, Walk;
    var last := LastAction(d.log, who.customer);
    var next := NextAction(p, who.oldestDue, last, now);
    if next.Some? {
      assert who.oldestDue.Some? by { NoDueNoAction(p, last, now); }
      var worst := NextIsWorst(p, who.oldestDue.value, last, now);
      ActionsAppended(d.log, Row(who.customer, next.value, now), c);
      LastOfActions(d.log, who.customer);
      if who.customer == c {
        ClimbsOn(ActionsOf(d.log, c), next.value);
      }
    }
  }

  lemma ClimbsOn(actions: seq<Action>, a: Action)
    requires Climbs(actions) && a != Restore &&
      (actions != [] ==> Severity(Some(actions[|actions| - 1])) < Severity(Some(a)))
    ensures Climbs(actions + [a]) && (RestoresSuspended(actions) ==> RestoresSuspended(actions + [a]))
  {
    hide Severity;
  }

  lemma NoDueNoAction(p: Policy, last: Option<Action>, now: Time)
    ensures NextAction(p, None, last, now) == None
  {
  }

  lemma {:induction false} RestoreAllClimbs(d: Desk, listed: Desk, cs: seq<Id>, now: Time, c: Id)
    requires Climbs(ActionsOf(d.log, c))
    ensures Climbs(ActionsOf(RestoreAll(d, listed, cs, now).log, c))
    ensures c !in cs ==> ActionsOf(RestoreAll(d, listed, cs, now).log, c) == ActionsOf(d.log, c)
  {
    hide ActionsOf, Visible;
    if cs != [] {
      var n := |cs| - 1;
      RestoreAllClimbs(d, listed, cs[..n], now, c);
      ActionsAppended(RestoreAll(d, listed, cs[..n], now).log, Row(cs[n], Restore, now), c);
    }
  }

  lemma {:induction false} RestoreAllSuspended(d: Desk, cs: seq<Id>, now: Time, c: Id)
    requires Once(cs) && Projects(d) && Climbs(ActionsOf(d.log, c)) && RestoresSuspended(ActionsOf(d.log, c))
    ensures RestoresSuspended(ActionsOf(RestoreAll(d, d, cs, now).log, c))
  {
    hide LastAction, ActionsOf, Projects, Climbs;
    if cs != [] {
      var n := |cs| - 1;
      RestoreAllSuspended(d, cs[..n], now, c);
      ActionsAppended(RestoreAll(d, d, cs[..n], now).log, Row(cs[n], Restore, now), c);
      if cs[n] == c {
        assert c !in cs[..n];
        RestoreAllClimbs(d, d, cs[..n], now, c);
        LastOfActions(d.log, c);
        ProjectsOne(d, c);
      }
    }
  }

  lemma ProjectsOne(d: Desk, c: Id)
    requires Projects(d)
    ensures StateOf(d, c) == StateFrom(LastAction(d.log, c))
  {
  }

  /** Whatever policies and due dates do, the log of each customer climbs between restores. */
  lemma {:induction false} LogClimbs(ticks: seq<Tick>, c: Id)
    ensures Climbs(ActionsOf(Run(ticks).log, c))
    ensures Unsupervised(ticks) && ListsOnce(ticks) ==> RestoresSuspended(ActionsOf(Run(ticks).log, c))
  {
    hide ActionsOf, Climbs, RestoresSuspended, Projects;
    if ticks == [] {
      NothingClimbs(c);
    } else {
      var n := |ticks| - 1;
      LogClimbs(ticks[..n], c);
      match ticks[n]
      case Suspend(policy, candidates, now) =>
        EscalateAllClimbs(policy, Run(ticks[..n]), candidates, now, c);
      case RestorePaid(customers, now) =>
        RestoreAllClimbs(Run(ticks[..n]), Run(ticks[..n]), customers, now, c);
        if Unsupervised(ticks) && ListsOnce(ticks) {
          StateIsProjectionOfLog(ticks[..n]);
          assert Once(ticks[n].customers);
          RestoreAllSuspended(Run(ticks[..n]), customers, now, c);
        }
    }
  }

  lemma NothingClimbs(c: Id)
    ensures Climbs(ActionsOf([], c)) && RestoresSuspended(ActionsOf([], c))
  {
  }

  lemma {:induction false} SegmentClimbs(actions: seq<Action>, a: nat, b: nat)
    requires Climbs(actions) && a < b <= |actions|
    requires forall i :: a <= i < b ==> actions[i] != Restore
    ensures Severity(Some(actions[b - 1])) >= b - a - 1
    decreases b
  {
    if a + 1 < b {
      SegmentClimbs(actions, a, b - 1);
    }
  }

  /** A customer sees at most three actions between restores. */
  lemma AtMostThreeBetweenRestores(ticks: seq<Tick>, c: Id, a: nat, b: nat)
    requires a <= b <= |ActionsOf(Run(ticks).log, c)|
    requires forall i :: a <= i < b ==> ActionsOf(Run(ticks).log, c)[i] != Restore
    ensures b - a <= 3
  {
    LogClimbs(ticks, c);
    if a < b {
      SegmentClimbs(ActionsOf(Run(ticks).log, c), a, b);
    }
  }

  // ------------------------------------------------------------------
  // The jobs act
  // ------------------------------------------------------------------

  /** A stage whose days past the due date have run out; a warning of no days is due once the date is near. */
  predicate Reached(p: Policy, due: Time, a: Action, now: Time) {
    match a
    case Warn => if p.warnDays > 0 then due + p.warnDays * DAY <= now else due + (p.warnDays - 1) * DAY < now
    case SoftSuspend => p.softDays > 0 && due + p.softDays * DAY <= now
    case HardSuspend => p.hardDays > 0 && due + p.hardDays * DAY <= now
    case Restore => false
  }

  /** The most severe stage reached. */
  function Worst(p: Policy, due: Time, now: Time): Option<Action> {
    if Reached(p, due, HardSuspend, now) then Some(HardSuspend)
    else if Reached(p, due, SoftSuspend, now) then Some(SoftSuspend)
    else if Reached(p, due, Warn, now) then Some(Warn)
    else None
  }

  lemma DaysPast(x: int, days: int)
    ensures Trunc(x, DAY) >= days <==> if days > 0 then days * DAY <= x else (days - 1) * DAY < x
  {
  }

  lemma CrossedIff(p: Policy, due: Time, a: Action, now: Time)
    ensures Crossed(p, due, a, now) <==> Reached(p, due, a, now)
  {
    DaysPast(now - due, Grace(p, a));
    hide Trunc;
  }

  lemma WorstIs(p: Policy, due: Time, now: Time)
    ensures IsWorstCrossed(p, due, Worst(p, due, now), now)
  {
    forall a: Action
      ensures Crossed(p, due, a, now) <==> Reached(p, due, a, now)
    {
      CrossedIff(p, due, a, now);
    }
    hide Crossed, Reached;
  }

  /** What a suspension tick leaves for a customer: the worst stage reached, if that is worse than the last action. */
  function Due(p: Policy, due: Time, last: Option<Action>, now: Time): Option<Action> {
    var worst := Worst(p, due, now);
    if worst == Some(HardSuspend) && last != Some(HardSuspend) then worst
    else if worst == Some(SoftSuspend) && last != Some(HardSuspend) && last != Some(SoftSuspend) then worst
    else if worst == Some(Warn) && (last == None || last == Some(Restore)) then worst
    else None
  }

  lemma NextIsDue(p: Policy, due: Time, last: Option<Action>, now: Time)
    ensures NextAction(p, Some(due), last, now) == Due(p, due, last, now)
  {
    hide NextAction, Reached;
    var worst := NextIsWorst(p, due, last, now);
    WorstIs(p, due, now);
    WorstUnique(p, due, worst, Worst(p, due, now), now);
    hide IsWorstCrossed;
  }

  /** The tick lists the customer once, for an invoice due then. */
  ghost predicate ListsOnceFor(cs: seq<Candidate>, c: Id, due: Time, k: nat) {
    k < |cs| && cs[k] == Candidate(c, Some(due)) && forall j :: 0 <= j < |cs| && cs[j].customer == c ==> j == k
  }

  /** A customer a suspension tick does not list is left alone. */
  lemma {:induction false} UnlistedAlone(policy: Id -> Policy, d: Desk, cs: seq<Candidate>, now: Time, c: Id)
    requires forall j :: 0 <= j < |cs| ==> cs[j].customer != c
    ensures
      var d' := EscalateAll(policy, d, cs, now);
      StateOf(d', c) == StateOf(d, c) && ActionsOf(d'.log, c) == ActionsOf(d.log, c) &&
      LastAction(d'.log, c) == LastAction(d.log, c)
  {
    hide NextAction, ActionsOf, LastAction;
    if cs != [] {
      var n := |cs| - 1;
      UnlistedAlone(policy, d, cs[..n], now, c);
      EscalateOther(policy(cs[n].customer), EscalateAll(policy, d, cs[..n], now), cs[n], now, c);
    }
  }

  lemma EscalateOther(p: Policy, d: Desk, who: Candidate, now: Time, c: Id)
    requires who.customer != c
    ensures
      var d' := Escalate(p, d, who, now);
      StateOf(d', c) == StateOf(d, c) && ActionsOf(d'.log, c) == ActionsOf(d.log, c) &&
      LastAction(d'.log, c) == LastAction(d.log, c)
  {
    hide NextAction, ActionsOf, LastAction;
    var next := NextAction(p, who.oldestDue, LastAction(d.log, who.customer), now);
    if next.Some? {
      ActionsAppended(d.log, Row(who.customer, next.value, now), c);
      LastAppended(d.log, Row(who.customer, next.value, now), c);
    }
  }

  /**
   A suspension tick that lists a customer takes the worst stage reached, if that is worse than the last
   action, logs it, and sets the state, unless it leaves a hard suspension to a supervisor.
   */
  lemma {:induction false} TickActs(
    policy: Id -> Policy, d: Desk, cs: seq<Candidate>, now: Time, c: Id, due: Time, k: nat)
    requires ListsOnceFor(cs, c, due, k)
    ensures
      var d', p := EscalateAll(policy, d, cs, now), policy(c);
      var act := Due(p, due, LastAction(d.log, c), now);
      && LastAction(d'.log, c) == (if act.Some? then act else LastAction(d.log, c))
      && ActionsOf(d'.log, c) == ActionsOf(d.log, c) + (if act.Some? then [act.value] else [])
      && StateOf(d', c) ==
        if act == Some(SoftSuspend) then SoftSuspended
        else if act == Some(HardSuspend) && !p.supervisorForHard then HardSuspended
        else StateOf(d, c)
    decreases |cs|
  {
    hide NextAction, Due, ActionsOf, LastAction;
    var n := |cs| - 1;
    var before := EscalateAll(policy, d, cs[..n], now);
    if k == n {
      UnlistedAlone(policy, d, cs[..n], now, c);
      NextIsDue(policy(c), due, LastAction(before.log, c), now);
      var act := Due(policy(c), due, LastAction(before.log, c), now);
      if act.Some? {
        ActionsAppended(before.log, Row(c, act.value, now), c);
        LastAppended(before.log, Row(c, act.value, now), c);
      }
    } else {
      TickActs(policy, d, cs[..n], now, c, due, k);
      EscalateOther(policy(cs[n].customer), before, cs[n], now, c);
    }
  }

  ghost predicate TickLists(t: Tick, p: Policy, c: Id, due: Time) {
    t.Suspend? && t.policy(c) == p && exists k :: ListsOnceFor(t.candidates, c, due, k)
  }

  /** Suspension ticks under one policy that each list the customer, for one due date, at times that never go back. */
  ghost predicate ListedThroughout(ticks: seq<Tick>, p: Policy, c: Id, due: Time) {
    && (forall i :: 0 <= i < |ticks| ==> TickLists(ticks[i], p, c, due))
    && (forall i, j :: 0 <= i < j < |ticks| ==> ticks[i].now <= ticks[j].now)
  }

  function Times(ticks: seq<Tick>): seq<Time> {
    seq(|ticks|, i requires 0 <= i < |ticks| => ticks[i].now)
  }

  lemma ListedFront(ticks: seq<Tick>, p: Policy, c: Id, due: Time)
    requires ticks != [] && ListedThroughout(ticks, p, c, due)
    ensures ListedThroughout(ticks[..|ticks| - 1], p, c, due)
  {
    hide TickLists;
    var front := ticks[..|ticks| - 1];
    assert forall i :: 0 <= i < |front| ==> front[i] == ticks[i];
  }

  lemma {:induction false} JobFollowsLadder(before: seq<Tick>, ticks: seq<Tick>, p: Policy, c: Id, due: Time)
    requires ListedThroughout(ticks, p, c, due)
    ensures
      LastAction(Run(before + ticks).log, c) ==
        LastAfter(p, due, LastAction(Run(before).log, c), Times(ticks))
  {
    hide LastAction, NextAction, EscalateAll, ListsOnceFor, Due, StateOf;
    if ticks == [] {
      assert before + ticks == before;
    } else {
      var n := |ticks| - 1;
      var all := before + ticks;
      ListedFront(ticks, p, c, due);
      JobFollowsLadder(before, ticks[..n], p, c, due);
      assert all[..|all| - 1] == before + ticks[..n] && all[|all| - 1] == ticks[n];
      assert Times(ticks)[..n] == Times(ticks[..n]);
      var d := Run(before + ticks[..n]);
      assert TickLists(ticks[n], p, c, due);
      var k :| ListsOnceFor(ticks[n].candidates, c, due, k);
      TickActs(ticks[n].policy, d, ticks[n].candidates, ticks[n].now, c, due, k);
      NextIsDue(p, due, LastAction(d.log, c), ticks[n].now);
    }
  }

  /**
   Confluence of the job itself: after any run, from no action or a restore, however often suspension
   ticks then list the customer for one due date, the last logged action is the worst stage reached at
   the last of them, or what it was if none was.
   */
  lemma JobConfluence(before: seq<Tick>, ticks: seq<Tick>, p: Policy, c: Id, due: Time)
    requires ticks != [] && ListedThroughout(ticks, p, c, due)
    requires LastAction(Run(before).log, c) == None || LastAction(Run(before).log, c) == Some(Restore)
    ensures
      var worst := Worst(p, due, ticks[|ticks| - 1].now);
      LastAction(Run(before + ticks).log, c) == if worst.Some? then worst else LastAction(Run(before).log, c)
  {
    hide LastAction, Run, LastAfter, Worst;
    var now := ticks[|ticks| - 1].now;
    JobFollowsLadder(before, ticks, p, c, due);
    var worst := Confluence(p, due, LastAction(Run(before).log, c), Times(ticks));
    WorstIs(p, due, now);
    WorstUnique(p, due, worst, Worst(p, due, now), now);
  }

  /**
   A restore tick leaves every customer it lists active, with a restore on record exactly if suspended
   before, and every other customer as it was.
   */
  lemma {:induction false} RestoreActs(d: Desk, cs: seq<Id>, now: Time, c: Id)
    requires Once(cs)
    ensures
      var d' := RestoreAll(d, d, cs, now);
      && (c in cs ==> StateOf(d', c) == Active)
      && (c !in cs ==> StateOf(d', c) == StateOf(d, c))
      && ActionsOf(d'.log, c) == ActionsOf(d.log, c) + (if c in cs && StateOf(d, c) != Active then [Restore] else [])
  {
    hide ActionsOf;
    if cs != [] {
      var n := |cs| - 1;
      RestoreActs(d, cs[..n], now, c);
      assert c in cs <==> c in cs[..n] || c == cs[n];
      assert cs[n] !in cs[..n];
      ActionsAppended(RestoreAll(d, d, cs[..n], now).log, Row(cs[n], Restore, now), c);
    }
  }
}
