/** The billing cycles that ticks record over time: one for each period, and periods that do not overlap. */
module BillingCycles {
  import opened Base
  import opened BillingTick
  import opened BillingFixpoint
  import Calendar
  import I = Invoices

  /** Recurring passes, with anything else in between that leaves the cycle log alone. */
  datatype Event =
    | Bill(now: Time)
    | Elsewhere(customers: map<Id, Customer>, invoices: seq<I.Invoice>, requests: seq<Termination>)

  function Happen(cfg: Config, s: Store, e: Event): Store {
    match e
    case Bill(now) => AfterRecurring(cfg, s, now)
    case Elsewhere(customers, invoices, requests) => Store(customers, s.cycles, invoices, requests)
  }

  /** The order has no activation date, or one that has come. */
  predicate Live(o: Order, now: Time) {
    o.activatedAt.None? || o.activatedAt.value <= now
  }

  lemma LiveIff(o: Order, now: Time)
    ensures Activated(o, now) <==> Live(o, now)
  {
  }

  function Run(cfg: Config, s: Store, events: seq<Event>): Store {
    if events == [] then s else Happen(cfg, Run(cfg, s, events[..|events| - 1]), events[|events| - 1])
  }

  /** The day of month an order bills on, months being at most 31 days long. */
  function BillingDay(cfg: Config, o: Order): int {
    Max(1, Min(Calendar.AnchorDayOf(o.activatedAt, cfg.billing(o.customer).anchorDay), 31))
  }

  /** Cycle rows of a customer for one period start. */
  function Rows(cycles: seq<Cycle>, c: Id, start: Time): nat {
    if cycles == [] then 0
    else
      Rows(cycles[..|cycles| - 1], c, start) +
      if cycles[|cycles| - 1].customer == c && cycles[|cycles| - 1].start == start then 1 else 0
  }

  lemma {:induction false} RowsIff(cycles: seq<Cycle>, c: Id, start: Time)
    ensures Rows(cycles, c, start) > 0 <==> HasCycle(cycles, c, start)
  {
    if cycles != [] {
      var n := |cycles| - 1;
      RowsIff(cycles[..n], c, start);
      if i :| 0 <= i < n && cycles[i].customer == c && cycles[i].start == start {
        assert cycles[..n][i] == cycles[i];
      }
    }
  }

  lemma RowsAppend(cycles: seq<Cycle>, row: Cycle, c: Id, start: Time)
    ensures Rows(cycles + [row], c, start) == Rows(cycles, c, start) +
      if row.customer == c && row.start == start then 1 else 0
  {
    assert (cycles + [row])[..|cycles|] == cycles;
  }

  lemma RecurringStepRows(cfg: Config, s: Store, o: Order, now: Time, c: Id, start: Time)
    requires Rows(s.cycles, c, start) <= 1
    ensures Rows(RecurringStep(cfg, s, o, now).cycles, c, start) <= 1
  {
    hide PeriodOf, I.Create, NextNumber, RecurringRequest, Rows;
    RowsIff(s.cycles, c, start);
    var (from, to) := PeriodOf(cfg, o, now);
    RowsAppend(s.cycles, Cycle(o.customer, o.id, from, to, Generated), c, start);
    RowsAppend(s.cycles, Cycle(o.customer, o.id, from, to, Failed), c, start);
  }

  lemma {:induction false} RecurringPassRows(cfg: Config, s: Store, orders: seq<Order>, now: Time, c: Id, start: Time)
    requires Rows(s.cycles, c, start) <= 1
    ensures Rows(RecurringPass(cfg, s, orders, now).cycles, c, start) <= 1
  {
    hide RecurringStep, Rows;
    if orders != [] {
      RecurringPassRows(cfg, s, orders[..|orders| - 1], now, c, start);
      RecurringStepRows(cfg, RecurringPass(cfg, s, orders[..|orders| - 1], now), orders[|orders| - 1], now, c, start);
    }
  }

  /** A customer has at most one cycle for each period start, whenever and however often the pass runs. */
  lemma {:induction false} AtMostOneCycle(cfg: Config, s: Store, events: seq<Event>, c: Id, start: Time)
    requires s.cycles == []
    ensures Rows(Run(cfg, s, events).cycles, c, start) <= 1
  {
    hide RecurringPass;
    if events != [] {
      var n := |events| - 1;
      AtMostOneCycle(cfg, s, events[..n], c, start);
      var before := Run(cfg, s, events[..n]);
      if events[n].Bill? {
        RecurringPassRows(cfg, before, ActiveOrders(cfg.orders, before), events[n].now, c, start);
      }
    }
  }

  lemma {:induction false} CyclesGrow(cfg: Config, s: Store, events: seq<Event>, k: nat)
    requires k <= |events|
    ensures Run(cfg, s, events[..k]).cycles <= Run(cfg, s, events).cycles
    decreases |events|
  {
    hide RecurringPass, CycleDone;
    if k < |events| {
      var n := |events| - 1;
      assert events[..n][..k] == events[..k];
      CyclesGrow(cfg, s, events[..n], k);
      var before := Run(cfg, s, events[..n]);
      if events[n].Bill? {
        RecurringEffect(cfg, before, ActiveOrders(cfg.orders, before), events[n].now);
      }
    } else {
      assert events[..k] == events;
    }
  }

  /**
   Whenever a tick ran while a customer was active and an order of theirs activated, the period of
   that instant has exactly one cycle row from then on, generated or failed.
   */
  lemma ExactlyOneCyclePerBilledPeriod(cfg: Config, s: Store, events: seq<Event>, k: nat, o: Order)
    requires s.cycles == [] && k < |events| && events[k].Bill? && o in cfg.orders
    requires HasStatus(Run(cfg, s, events[..k]), o.customer, Active) && Live(o, events[k].now)
    ensures Rows(Run(cfg, s, events).cycles, o.customer, PeriodOf(cfg, o, events[k].now).0) == 1
  {
    LiveIff(o, events[k].now);
    hide RecurringPass, PeriodOf, Activated, Live;
    var before, now := Run(cfg, s, events[..k]), events[k].now;
    var orders, start := ActiveOrders(cfg.orders, before), PeriodOf(cfg, o, now).0;
    RecurringEffect(cfg, before, orders, now);
    var i :| 0 <= i < |orders| && orders[i] == o;
    assert CycleDone(cfg, RecurringPass(cfg, before, orders, now).cycles, orders[i], now);
    assert events[..k + 1][..k] == events[..k];
    var billed := Run(cfg, s, events[..k + 1]);
    CyclesGrow(cfg, s, events, k + 1);
    HasCycleGrows(billed.cycles, Run(cfg, s, events).cycles, o.customer, start);
    RowsIff(Run(cfg, s, events).cycles, o.customer, start);
    AtMostOneCycle(cfg, s, events, o.customer, start);
  }

  // ------------------------------------------------------------------
  // Disjoint periods
  // ------------------------------------------------------------------

  /** The cycle spans one period of the billing day. */
  ghost predicate Spans(row: Cycle, day: int) {
    exists month :: SpansMonth(row, day, month)
  }

  ghost predicate SpansMonth(row: Cycle, day: int, month: int) {
    row.start == Calendar.Anchor(month, day) * DAY && row.end + DAY == Calendar.Anchor(month + 1, day) * DAY
  }

  /** All orders of a customer bill on the same day. */
  ghost predicate CommonDay(cfg: Config) {
    forall o, p :: o in cfg.orders && p in cfg.orders && o.customer == p.customer ==>
      BillingDay(cfg, o) == BillingDay(cfg, p)
  }

  ghost predicate Disjoint(cycles: seq<Cycle>) {
    forall i, j :: 0 <= i < j < |cycles| && cycles[i].customer == cycles[j].customer ==>
      cycles[i].end + DAY <= cycles[j].start || cycles[j].end + DAY <= cycles[i].start
  }

  lemma AnchorNormal(month: int, day: int)
    ensures Calendar.Anchor(month, day) == Calendar.Anchor(month, Max(1, Min(day, 31)))
  {
    Calendar.AnchorClamps(month, day);
    Calendar.AnchorClamps(month, Max(1, Min(day, 31)));
    hide Calendar.Anchor, Calendar.MonthOf, Calendar.Date, Calendar.MonthLength;
    assert 28 <= Calendar.MonthLength(month) <= 31;
  }

  lemma PeriodSpans(cfg: Config, o: Order, now: Time) returns (month: int)
    ensures SpansMonth(Cycle(o.customer, o.id, PeriodOf(cfg, o, now).0, PeriodOf(cfg, o, now).1, Generated),
      BillingDay(cfg, o), month)
    ensures PeriodOf(cfg, o, now).0 <= now < PeriodOf(cfg, o, now).1 + DAY
  {
    hide Calendar.Anchor, Calendar.CyclePeriod, Calendar.PeriodMonth, Calendar.AnchorDayOf;
    var day := Calendar.AnchorDayOf(o.activatedAt, cfg.billing(o.customer).anchorDay);
    Calendar.PeriodSpansAnchors(now, o.activatedAt, cfg.billing(o.customer).anchorDay);
    month := Calendar.PeriodMonth(now, day);
    AnchorNormal(month, day);
    AnchorNormal(month + 1, day);
  }

  /**
   Every recorded cycle comes from an order of its customer, spans a period of that order, and is the only
   one of its start.
   */
  ghost predicate FromOrders(cfg: Config, cycles: seq<Cycle>) {
    (forall i :: 0 <= i < |cycles| ==>
      exists o :: o in cfg.orders && o.customer == cycles[i].customer && Spans(cycles[i], BillingDay(cfg, o))) &&
    (forall i, j :: 0 <= i < j < |cycles| && cycles[i].customer == cycles[j].customer ==>
      cycles[i].start != cycles[j].start)
  }

  lemma RecurringStepFromOrders(cfg: Config, s: Store, o: Order, now: Time)
    requires FromOrders(cfg, s.cycles) && o in cfg.orders
    ensures FromOrders(cfg, RecurringStep(cfg, s, o, now).cycles)
  {
    hide PeriodOf, I.Create, NextNumber, RecurringRequest, SpansMonth, BillingDay;
    var r := RecurringStep(cfg, s, o, now);
    if r.cycles != s.cycles {
      var row := r.cycles[|s.cycles|];
      var month := PeriodSpans(cfg, o, now);
      SpanIgnoresStatus(row, Cycle(o.customer, o.id, row.start, row.end, Generated), BillingDay(cfg, o), month);
      assert Spans(row, BillingDay(cfg, o));
      forall i | 0 <= i < |r.cycles|
        ensures exists p ::
          p in cfg.orders && p.customer == r.cycles[i].customer && Spans(r.cycles[i], BillingDay(cfg, p))
      {
        if i < |s.cycles| {
          assert r.cycles[i] == s.cycles[i];
        } else {
          assert r.cycles[i] == row;
        }
      }
      assert !HasCycle(s.cycles, row.customer, row.start);
    }
  }

  lemma SpanIgnoresStatus(row: Cycle, row': Cycle, day: int, month: int)
    requires row.start == row'.start && row.end == row'.end && SpansMonth(row', day, month)
    ensures SpansMonth(row, day, month)
  {
  }

  lemma {:induction false} RecurringPassFromOrders(cfg: Config, s: Store, orders: seq<Order>, now: Time)
    requires FromOrders(cfg, s.cycles) && forall i :: 0 <= i < |orders| ==> orders[i] in cfg.orders
    ensures FromOrders(cfg, RecurringPass(cfg, s, orders, now).cycles)
  {
    hide RecurringStep, FromOrders;
    if orders != [] {
      RecurringPassFromOrders(cfg, s, orders[..|orders| - 1], now);
      RecurringStepFromOrders(cfg, RecurringPass(cfg, s, orders[..|orders| - 1], now), orders[|orders| - 1], now);
    }
  }

  lemma {:induction false} RunFromOrders(cfg: Config, s: Store, events: seq<Event>)
    requires s.cycles == []
    ensures FromOrders(cfg, Run(cfg, s, events).cycles)
  {
    if events != [] {
      hide FromOrders, RecurringPass;
      var n := |events| - 1;
      RunFromOrders(cfg, s, events[..n]);
      var before := Run(cfg, s, events[..n]);
      if events[n].Bill? {
        RecurringPassFromOrders(cfg, before, ActiveOrders(cfg.orders, before), events[n].now);
      }
    }
  }

  lemma SpansApart(a: Cycle, b: Cycle, day: int)
    requires Spans(a, day) && Spans(b, day) && a.start != b.start
    ensures a.end + DAY <= b.start || b.end + DAY <= a.start
  {
    hide Calendar.Anchor;
    var k :| SpansMonth(a, day, k);
    var m :| SpansMonth(b, day, m);
    if k + 1 < m {
      Calendar.AnchorsAscend(k + 1, m, day);
    } else if m + 1 < k {
      Calendar.AnchorsAscend(m + 1, k, day);
    }
  }

  /** With one billing day per customer, recorded periods never overlap. */
  lemma PeriodsDisjoint(cfg: Config, s: Store, events: seq<Event>)
    requires s.cycles == [] && CommonDay(cfg)
    ensures Disjoint(Run(cfg, s, events).cycles)
  {
    RunFromOrders(cfg, s, events);
    hide Spans, BillingDay, Run;
    var cycles := Run(cfg, s, events).cycles;
    forall i, j | 0 <= i < j < |cycles| && cycles[i].customer == cycles[j].customer
      ensures cycles[i].end + DAY <= cycles[j].start || cycles[j].end + DAY <= cycles[i].start
    {
      var o :| o in cfg.orders && o.customer == cycles[i].customer && Spans(cycles[i], BillingDay(cfg, o));
      var p :| p in cfg.orders && p.customer == cycles[j].customer && Spans(cycles[j], BillingDay(cfg, p));
      SpansApart(cycles[i], cycles[j], BillingDay(cfg, o));
    }
  }

  // ------------------------------------------------------------------
  // Orders of one customer that bill on different days
  // ------------------------------------------------------------------

  /** The last day of January of a year late enough for both orders to be activated. */
  function LateJanuary(o: Order, p: Order): int {
    var a := if o.activatedAt.Some? then o.activatedAt.value else 0;
    var b := if p.activatedAt.Some? then p.activatedAt.value else 0;
    12 * (Max(0, a) + Max(0, b) + 1)
  }

  lemma LateEnough(o: Order, p: Order)
    ensures
      var now := Calendar.Date(LateJanuary(o, p), 31) * DAY;
      Live(o, now) && Live(p, now)
    ensures Calendar.MonthLength(LateJanuary(o, p)) == 31
  {
    hide Calendar.MonthStart, Calendar.MonthLength, Calendar.Date;
    var month := LateJanuary(o, p);
    JanuaryLength(month);
    LateDay(month);
    assert Calendar.Date(month, 31) * DAY >= month;
  }

  lemma LateDay(month: nat)
    ensures Calendar.Date(month, 31) >= month
  {
    Calendar.MonthsAscend(0, month);
    assert Calendar.MonthStart(0) == 0;
    hide Calendar.MonthStart;
  }

  lemma JanuaryLength(month: int)
    requires exists year :: month == 12 * year
    ensures Calendar.MonthLength(month) == 31
  {
    var year :| month == 12 * year;
    Calendar.MonthOfYear(year, 0);
  }

  /** On the last day of January an order's period starts on its billing day in January. */
  lemma JanuaryPeriod(cfg: Config, o: Order, month: int)
    requires Calendar.MonthLength(month) == 31
    ensures PeriodOf(cfg, o, Calendar.Date(month, 31) * DAY).0 == Calendar.Date(month, BillingDay(cfg, o)) * DAY
  {
    var day, now := Calendar.AnchorDayOf(o.activatedAt, cfg.billing(o.customer).anchorDay),
      Calendar.Date(month, 31) * DAY;
    Calendar.PeriodSpansAnchors(now, o.activatedAt, cfg.billing(o.customer).anchorDay);
    Calendar.AnchorClamps(month, day);
    Calendar.DateRoundTrip(Calendar.Date(month, 31), month, 31);
    hide Calendar.CyclePeriod, Calendar.Anchor, Calendar.MonthOf, Calendar.MonthStart;
    assert Calendar.DayNumber(now) == Calendar.Date(month, 31);
    assert Calendar.PeriodMonth(now, day) == month;
  }

  /** Two cycles that start on different days of one month overlap. */
  lemma SameMonthOverlaps(a: Cycle, b: Cycle, day: int, day': int, month: int)
    requires Spans(a, day) && Spans(b, day')
    requires Calendar.MonthStart(month) * DAY <= a.start < Calendar.MonthStart(month + 1) * DAY
    requires Calendar.MonthStart(month) * DAY <= b.start < Calendar.MonthStart(month + 1) * DAY
    ensures b.start < a.end + DAY && a.start < b.end + DAY
  {
    hide Calendar.Anchor, Calendar.MonthStart;
    var k :| SpansMonth(a, day, k);
    var m :| SpansMonth(b, day', m);
    SpanMonthIs(a, day, k, month);
    SpanMonthIs(b, day', m, month);
    Calendar.AnchorInMonth(month + 1, day);
    Calendar.AnchorInMonth(month + 1, day');
  }

  lemma SpanMonthIs(a: Cycle, day: int, k: int, month: int)
    requires SpansMonth(a, day, k)
    requires Calendar.MonthStart(month) * DAY <= a.start < Calendar.MonthStart(month + 1) * DAY
    ensures k == month
  {
    hide Calendar.Anchor, Calendar.MonthStart, Calendar.MonthOf;
    Calendar.AnchorInMonth(k, day);
    Calendar.MonthUnique(Calendar.Anchor(k, day), month);
    Calendar.MonthUnique(Calendar.Anchor(k, day), k);
  }

  lemma OverlapInMonth(cfg: Config, cycles: seq<Cycle>, c: Id, start: Time, start': Time, month: int)
    requires FromOrders(cfg, cycles) && start != start'
    requires HasCycle(cycles, c, start) && HasCycle(cycles, c, start')
    requires Calendar.MonthStart(month) * DAY <= start < Calendar.MonthStart(month + 1) * DAY
    requires Calendar.MonthStart(month) * DAY <= start' < Calendar.MonthStart(month + 1) * DAY
    ensures !Disjoint(cycles)
  {
    hide Calendar.MonthStart, BillingDay, Spans;
    var i :| 0 <= i < |cycles| && cycles[i].customer == c && cycles[i].start == start;
    var j :| 0 <= j < |cycles| && cycles[j].customer == c && cycles[j].start == start';
    var q :| q in cfg.orders && q.customer == cycles[i].customer && Spans(cycles[i], BillingDay(cfg, q));
    var r :| r in cfg.orders && r.customer == cycles[j].customer && Spans(cycles[j], BillingDay(cfg, r));
    SameMonthOverlaps(cycles[i], cycles[j], BillingDay(cfg, q), BillingDay(cfg, r), month);
  }

  lemma BilledOnce(cfg: Config, s: Store, o: Order, now: Time)
    requires s.cycles == [] && o in cfg.orders && HasStatus(s, o.customer, Active) && Live(o, now)
    ensures HasCycle(Run(cfg, s, [Bill(now)]).cycles, o.customer, PeriodOf(cfg, o, now).0)
  {
    hide PeriodOf, Live, RecurringPass;
    assert [Bill(now)][..0] == [];
    ExactlyOneCyclePerBilledPeriod(cfg, s, [Bill(now)], 0, o);
    RowsIff(Run(cfg, s, [Bill(now)]).cycles, o.customer, PeriodOf(cfg, o, now).0);
  }

  /** Two orders of a customer with different billing days get overlapping periods from a single tick. */
  lemma ClashingOrdersOverlap(cfg: Config, o: Order, p: Order) returns (s: Store, events: seq<Event>)
    requires o in cfg.orders && p in cfg.orders && o.customer == p.customer && BillingDay(cfg, o) != BillingDay(cfg, p)
    ensures s.cycles == [] && !Disjoint(Run(cfg, s, events).cycles)
  {
    hide Run, PeriodOf, Live, Calendar.Date, Calendar.MonthStart, LateJanuary, FromOrders, Disjoint, HasCycle;
    var month := LateJanuary(o, p);
    var now := Calendar.Date(month, 31) * DAY;
    s := Store(map[o.customer := Customer(Active, None)], [], [], []);
    events := [Bill(now)];
    LateEnough(o, p);
    JanuaryPeriod(cfg, o, month);
    JanuaryPeriod(cfg, p, month);
    BilledOnce(cfg, s, o, now);
    BilledOnce(cfg, s, p, now);
    RunFromOrders(cfg, s, events);
    InMonth(month, BillingDay(cfg, o));
    InMonth(month, BillingDay(cfg, p));
    OverlapInMonth(cfg, Run(cfg, s, events).cycles, o.customer, PeriodOf(cfg, o, now).0, PeriodOf(cfg, p, now).0,
      month);
  }

  lemma InMonth(month: int, day: int)
    requires 1 <= day <= 31 && Calendar.MonthLength(month) == 31
    ensures Calendar.MonthStart(month) * DAY <= Calendar.Date(month, day) * DAY < Calendar.MonthStart(month + 1) * DAY
    ensures forall other :: other != day ==> Calendar.Date(month, day) * DAY != Calendar.Date(month, other) * DAY
  {
    Calendar.MonthsAbut(month);
    hide Calendar.MonthStart, Calendar.MonthLength;
  }

  /** Recorded periods are disjoint in every run exactly when each customer's orders share a billing day. */
  lemma DisjointIff(cfg: Config)
    ensures (forall s: Store, events: seq<Event> :: s.cycles == [] ==> Disjoint(Run(cfg, s, events).cycles)) <==>
      CommonDay(cfg)
  {
    hide Run, Disjoint, BillingDay;
    if CommonDay(cfg) {
      forall s: Store, events: seq<Event> | s.cycles == []
        ensures Disjoint(Run(cfg, s, events).cycles)
      {
        PeriodsDisjoint(cfg, s, events);
      }
    } else {
      var o, p :| o in cfg.orders && p in cfg.orders && o.customer == p.customer &&
        BillingDay(cfg, o) != BillingDay(cfg, p);
      var s, events := ClashingOrdersOverlap(cfg, o, p);
    }
  }

  // ------------------------------------------------------------------
  // Orders of one customer that bill on the same day
  // ------------------------------------------------------------------

  /** A row from there on bills this very order for the period of the instant. */
  ghost predicate BilledItself(cfg: Config, cycles: seq<Cycle>, from: nat, o: Order, now: Time) {
    exists i :: from <= i < |cycles| && IsRowOf(cfg, cycles[i], o, now)
  }

  ghost predicate IsRowOf(cfg: Config, row: Cycle, o: Order, now: Time) {
    row.customer == o.customer && row.order == o.id && row.start == PeriodOf(cfg, o, now).0
  }

  /** The order bills the customer for a period that starts then. */
  predicate Claims(cfg: Config, o: Order, now: Time, c: Id, start: Time) {
    Live(o, now) && o.customer == c && PeriodOf(cfg, o, now).0 == start
  }

  lemma HasCycleAppend(cycles: seq<Cycle>, row: Cycle, c: Id, start: Time)
    ensures HasCycle(cycles + [row], c, start) <==>
      HasCycle(cycles, c, start) || (row.customer == c && row.start == start)
  {
    RowsAppend(cycles, row, c, start);
    RowsIff(cycles, c, start);
    RowsIff(cycles + [row], c, start);
  }

  /** What one order adds to the cycle log: its own row, exactly when nothing is on record for its period. */
  lemma StepRow(cfg: Config, s: Store, o: Order, now: Time) returns (row: Cycle)
    ensures
      var start := PeriodOf(cfg, o, now).0;
      RecurringStep(cfg, s, o, now).cycles ==
        if Activated(o, now) && !HasCycle(s.cycles, o.customer, start) then s.cycles + [row] else s.cycles
    ensures IsRowOf(cfg, row, o, now)
  {
    hide PeriodOf, I.Create, NextNumber, RecurringRequest, HasCycle, Activated;
    var (start, end) := PeriodOf(cfg, o, now);
    var status := if I.Create(NextNumber(s, "INV"), RecurringRequest(cfg, o, start)).Created? then Generated
      else Failed;
    row := Cycle(o.customer, o.id, start, end, status);
  }

  lemma {:induction false} PassHasCycle(cfg: Config, s: Store, orders: seq<Order>, now: Time, c: Id, start: Time)
    ensures
      HasCycle(RecurringPass(cfg, s, orders, now).cycles, c, start) <==>
      HasCycle(s.cycles, c, start) || exists i :: 0 <= i < |orders| && Claims(cfg, orders[i], now, c, start)
  {
    hide RecurringStep, PeriodOf, HasCycle, Activated, Live;
    if orders != [] {
      var n := |orders| - 1;
      var before := RecurringPass(cfg, s, orders[..n], now);
      LiveIff(orders[n], now);
      PassHasCycle(cfg, s, orders[..n], now, c, start);
      var row := StepRow(cfg, before, orders[n], now);
      HasCycleAppend(before.cycles, row, c, start);
      hide Claims;
      ClaimsIs(cfg, orders[n], now, c, start);
      ClaimedFront(cfg, orders, now, c, start);
    }
  }

  lemma ClaimsIs(cfg: Config, o: Order, now: Time, c: Id, start: Time)
    ensures Claims(cfg, o, now, c, start) <==> Live(o, now) && o.customer == c && PeriodOf(cfg, o, now).0 == start
  {
    hide PeriodOf, Live;
  }

  lemma ClaimedFront(cfg: Config, orders: seq<Order>, now: Time, c: Id, start: Time)
    requires orders != []
    ensures
      var n := |orders| - 1;
      (exists i :: 0 <= i < |orders| && Claims(cfg, orders[i], now, c, start)) <==>
      (exists i :: 0 <= i < n && Claims(cfg, orders[..n][i], now, c, start)) || Claims(cfg, orders[n], now, c, start)
  {
    hide Claims;
    var n := |orders| - 1;
    if i :| 0 <= i < |orders| && Claims(cfg, orders[i], now, c, start) {
      assert i < n ==> orders[..n][i] == orders[i];
    }
    if i :| 0 <= i < n && Claims(cfg, orders[..n][i], now, c, start) {
      assert orders[..n][i] == orders[i];
    }
  }

  /** Rows a pass adds belong to its orders. */
  lemma {:induction false} PassRowOrders(cfg: Config, s: Store, orders: seq<Order>, now: Time)
    ensures
      var cycles := RecurringPass(cfg, s, orders, now).cycles;
      s.cycles <= cycles && forall i :: |s.cycles| <= i < |cycles| ==>
        exists k :: 0 <= k < |orders| && orders[k].id == cycles[i].order
  {
    hide RecurringStep, PeriodOf, HasCycle, Activated;
    if orders != [] {
      var n := |orders| - 1;
      var before, cycles := RecurringPass(cfg, s, orders[..n], now), RecurringPass(cfg, s, orders, now).cycles;
      PassRowOrders(cfg, s, orders[..n], now);
      var row := StepRow(cfg, before, orders[n], now);
      forall i | |s.cycles| <= i < |cycles|
        ensures exists k :: 0 <= k < |orders| && orders[k].id == cycles[i].order
      {
        if i < |before.cycles| {
          var k :| 0 <= k < n && orders[..n][k].id == before.cycles[i].order;
          assert orders[k].id == cycles[i].order;
        } else {
          assert orders[n].id == cycles[i].order;
        }
      }
    }
  }

  ghost predicate DistinctOrders(orders: seq<Order>) {
    forall j, k :: 0 <= j < k < |orders| ==> orders[j].id != orders[k].id
  }

  /**
   An order is billed itself by a pass exactly when it is activated, its period is not on record, and no
   order before it in the listing claims the same period for the same customer.
   */
  lemma {:induction false} BilledItselfIff(cfg: Config, s: Store, orders: seq<Order>, now: Time, i: nat)
    requires DistinctOrders(orders) && i < |orders|
    ensures
      var o := orders[i];
      var start := PeriodOf(cfg, o, now).0;
      BilledItself(cfg, RecurringPass(cfg, s, orders, now).cycles, |s.cycles|, o, now) <==>
      Live(o, now) && !HasCycle(s.cycles, o.customer, start) &&
      forall j :: 0 <= j < i ==> !Claims(cfg, orders[j], now, o.customer, start)
    decreases |orders|
  {
    hide RecurringStep, PeriodOf, HasCycle, Activated, Live, Claims;
    LiveIff(orders[|orders| - 1], now);
    var n := |orders| - 1;
    var front, o := orders[..n], orders[i];
    var before, cycles := RecurringPass(cfg, s, front, now), RecurringPass(cfg, s, orders, now).cycles;
    var row := StepRow(cfg, before, orders[n], now);
    PassRowOrders(cfg, s, front, now);
    if i < n {
      assert front[i] == o && (forall j :: 0 <= j < i ==> front[j] == orders[j]);
      BilledItselfIff(cfg, s, front, now, i);
      SameRows(cfg, before.cycles, cycles, |s.cycles|, o, now);
    } else {
      PassHasCycle(cfg, s, front, now, o.customer, PeriodOf(cfg, o, now).0);
      assert forall j :: 0 <= j < n ==> front[j] == orders[j];
      NoRowBefore(cfg, before.cycles, |s.cycles|, front, o, now);
      if cycles != before.cycles {
        assert cycles[|before.cycles|] == row;
      }
    }
  }

  lemma SameRows(cfg: Config, cycles: seq<Cycle>, more: seq<Cycle>, from: nat, o: Order, now: Time)
    requires cycles <= more && forall i :: |cycles| <= i < |more| ==> more[i].order != o.id
    ensures BilledItself(cfg, cycles, from, o, now) <==> BilledItself(cfg, more, from, o, now)
  {
    hide PeriodOf;
    if i :| from <= i < |cycles| && IsRowOf(cfg, cycles[i], o, now) {
      assert more[i] == cycles[i];
    }
    if i :| from <= i < |more| && IsRowOf(cfg, more[i], o, now) {
      assert more[i] == cycles[i];
    }
  }

  lemma NoRowBefore(cfg: Config, cycles: seq<Cycle>, from: nat, orders: seq<Order>, o: Order, now: Time)
    requires forall i :: from <= i < |cycles| ==> exists k :: 0 <= k < |orders| && orders[k].id == cycles[i].order
    requires forall k :: 0 <= k < |orders| ==> orders[k].id != o.id
    ensures !BilledItself(cfg, cycles, from, o, now)
  {
    hide PeriodOf;
  }

  /** From an empty log, every activated order listed is billed exactly when no two of one customer share a period. */
  lemma EveryOrderBilledIff(cfg: Config, s: Store, orders: seq<Order>, now: Time)
    requires s.cycles == [] && DistinctOrders(orders)
    ensures
      (forall i :: 0 <= i < |orders| && Live(orders[i], now) ==>
        BilledItself(cfg, RecurringPass(cfg, s, orders, now).cycles, 0, orders[i], now)) <==>
      (forall i, j :: 0 <= j < i < |orders| && Live(orders[i], now) ==>
        !Claims(cfg, orders[j], now, orders[i].customer, PeriodOf(cfg, orders[i], now).0))
  {
    hide PeriodOf, Live, Claims, BilledItself, RecurringPass;
    forall i | 0 <= i < |orders|
      ensures BilledItself(cfg, RecurringPass(cfg, s, orders, now).cycles, 0, orders[i], now) <==>
        Live(orders[i], now) &&
        forall j :: 0 <= j < i ==> !Claims(cfg, orders[j], now, orders[i].customer, PeriodOf(cfg, orders[i], now).0)
    {
      BilledItselfIff(cfg, s, orders, now, i);
    }
  }
}
