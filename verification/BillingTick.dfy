/**
 One billing tick: recurring invoices, late fees, suspensions and restores, and auto-termination, run
 in this order over one store. The passes feed each other through the store.
 */
module BillingTick {
  import opened Base
  import Calendar
  import Printers
  import I = Invoices

  type Id = nat

  datatype BillingPolicy = BillingPolicy(graceDays: int, feeAmount: real, anchorDay: int, dueOffsetDays: int)

  datatype SuspensionPolicy = SuspensionPolicy(suspendAfterDays: int, terminateAfterDays: int)

  datatype Order = Order(id: Id, customer: Id, activatedAt: Option<Time>, monthlyPrice: real)

  datatype AddonFee = AddonFee(name: string, fee: real)

  /**
   What a tick reads and never writes. `linesListed` says whether the invoice listing carries line
   items, as its port promises; the shipped listing leaves them out.
   */
  datatype Config = Config(
    orders: seq<Order>, roster: seq<Id>, billing: Id -> BillingPolicy, suspension: Id -> SuspensionPolicy,
    addons: Id -> seq<AddonFee>, linesListed: bool, fieldWired: bool)

  datatype CustomerStatus = Pending | Active | Suspended | Terminated

  datatype Customer = Customer(status: CustomerStatus, suspendedAt: Option<Time>)

  datatype CycleStatus = Generated | Failed

  datatype Cycle = Cycle(customer: Id, order: Id, start: Time, end: Time, status: CycleStatus)

  datatype RequestStatus = Requested | AwaitingPayment | WoPending | WoCreated | Completed | Cancelled

  datatype Termination = Termination(customer: Id, status: RequestStatus, requestedAt: Time)

  datatype Store = Store(customers: map<Id, Customer>, cycles: seq<Cycle>, invoices: seq<I.Invoice>,
    requests: seq<Termination>)

  const TAX_RATE := 11.0

  /** Due dates are stored as dates. */
  function StoredDate(t: Time): Time {
    Calendar.DayNumber(t) * DAY
  }

  predicate HasStatus(s: Store, c: Id, status: CustomerStatus) {
    c in s.customers && s.customers[c].status == status
  }

  /** The orders of active customers, in listing order. */
  function ActiveOrders(orders: seq<Order>, s: Store): (r: seq<Order>)
    ensures forall i :: 0 <= i < |r| ==> r[i] in orders && HasStatus(s, r[i].customer, Active)
    ensures forall o :: o in orders && HasStatus(s, o.customer, Active) ==> o in r
  {
    if orders == [] then []
    else
      ActiveOrders(orders[..|orders| - 1], s) +
      if HasStatus(s, orders[|orders| - 1].customer, Active) then [orders[|orders| - 1]] else []
  }

  function SuspendedCustomers(roster: seq<Id>, s: Store): (r: seq<Id>)
    ensures forall i :: 0 <= i < |r| ==> r[i] in roster && HasStatus(s, r[i], Suspended)
    ensures forall c :: c in roster && HasStatus(s, c, Suspended) ==> c in r
  {
    if roster == [] then []
    else
      SuspendedCustomers(roster[..|roster| - 1], s) +
      if HasStatus(s, roster[|roster| - 1], Suspended) then [roster[|roster| - 1]] else []
  }

  function NextNumber(s: Store, prefix: string): string {
    prefix + "-" + Printers.Decimal(|s.invoices|)
  }

  // ------------------------------------------------------------------
  // Pass 1: recurring invoices
  // ------------------------------------------------------------------

  predicate HasCycle(cycles: seq<Cycle>, c: Id, start: Time) {
    exists i :: 0 <= i < |cycles| && cycles[i].customer == c && cycles[i].start == start
  }

  predicate Activated(o: Order, now: Time) {
    !(o.activatedAt.Some? && o.activatedAt.value > now)
  }

  function PeriodOf(cfg: Config, o: Order, now: Time): (Time, Time) {
    Calendar.CyclePeriod(now, o.activatedAt, cfg.billing(o.customer).anchorDay)
  }

  function Item(description: string, itemType: I.ItemType, price: real): I.Line {
    I.Line(0, description, itemType, 1.0, price, 0.0)
  }

  function RecurringLines(cfg: Config, o: Order): seq<I.Line> {
    var addons := cfg.addons(o.customer);
    [Item("Monthly service", I.MonthlyService, o.monthlyPrice)] +
    seq(|addons|, i requires 0 <= i < |addons| => Item(addons[i].name, I.AddonItem, addons[i].fee))
  }

  function RecurringRequest(cfg: Config, o: Order, start: Time): I.Request {
    var offset := cfg.billing(o.customer).dueOffsetDays;
    var due := start + (if offset <= 0 then 7 else offset) * DAY;
    I.Request(o.customer, Some(o.id), I.Recurring, TAX_RATE, StoredDate(due), true, RecurringLines(cfg, o))
  }

  function RecurringStep(cfg: Config, s: Store, o: Order, now: Time): Store {
    if !Activated(o, now) then s
    else
      var (start, end) := PeriodOf(cfg, o, now);
      if HasCycle(s.cycles, o.customer, start) then s
      else
        match I.Create(NextNumber(s, "INV"), RecurringRequest(cfg, o, start))
        case Rejected(_) => s.(cycles := s.cycles + [Cycle(o.customer, o.id, start, end, Failed)])
        case Created(invoice) => s.(invoices := s.invoices + [invoice],
          cycles := s.cycles + [Cycle(o.customer, o.id, start, end, Generated)])
  }

  function RecurringPass(cfg: Config, s: Store, orders: seq<Order>, now: Time): Store {
    if orders == [] then s
    else RecurringStep(cfg, RecurringPass(cfg, s, orders[..|orders| - 1], now), orders[|orders| - 1], now)
  }

  // ------------------------------------------------------------------
  // Pass 2: late fees
  // ------------------------------------------------------------------

  predicate IsLate(cfg: Config, v: I.Invoice, now: Time) {
    v.due < now - cfg.billing(v.customer).graceDays * DAY
  }

  function FeePrefix(): string {
    "Late fee \U{2014} "
  }

  function FeeDescription(number: string): string {
    FeePrefix() + number
  }

  predicate IsFeeFor(l: I.Line, number: string) {
    l.itemType == I.Penalty && (number == "" || l.description == FeeDescription(number))
  }

  predicate CarriesFeeFor(v: I.Invoice, order: Option<Id>, number: string) {
    v.order == order && v.kind == I.Addon && exists j :: 0 <= j < |v.lines| && IsFeeFor(v.lines[j], number)
  }

  /** Looks for a penalty line naming the invoice among the listed add-on invoices of its order. */
  predicate HasLateFee(cfg: Config, invoices: seq<I.Invoice>, order: Option<Id>, number: string) {
    order.Some? && cfg.linesListed && exists i :: 0 <= i < |invoices| && CarriesFeeFor(invoices[i], order, number)
  }

  function FeeRequest(cfg: Config, v: I.Invoice, now: Time): I.Request {
    I.Request(v.customer, v.order, I.Addon, TAX_RATE, StoredDate(now + 7 * DAY), true,
              [Item(FeeDescription(v.number), I.Penalty, cfg.billing(v.customer).feeAmount)])
  }

  function FeeStep(cfg: Config, s: Store, v: I.Invoice, now: Time): Store {
    if !IsLate(cfg, v, now) || HasLateFee(cfg, s.invoices, v.order, v.number) then s
    else
      match I.Create(NextNumber(s, "ADD"), FeeRequest(cfg, v, now))
      case Rejected(_) => s
      case Created(invoice) => s.(invoices := s.invoices + [invoice])
  }

  function IssuedInvoices(invoices: seq<I.Invoice>): (r: seq<I.Invoice>)
    ensures forall i :: 0 <= i < |r| ==> r[i] in invoices && r[i].status == I.Issued
    ensures forall v :: v in invoices && v.status == I.Issued ==> v in r
  {
    if invoices == [] then []
    else
      IssuedInvoices(invoices[..|invoices| - 1]) +
      if invoices[|invoices| - 1].status == I.Issued then [invoices[|invoices| - 1]] else []
  }

  function FeePass(cfg: Config, s: Store, views: seq<I.Invoice>, now: Time): Store {
    if views == [] then s
    else FeeStep(cfg, FeePass(cfg, s, views[..|views| - 1], now), views[|views| - 1], now)
  }

  // ------------------------------------------------------------------
  // Pass 3: suspend, then restore
  // ------------------------------------------------------------------

  predicate PastDue(invoices: seq<I.Invoice>, c: Id, cutoff: Time) {
    exists i :: 0 <= i < |invoices| && invoices[i].customer == c && invoices[i].status == I.Issued &&
      invoices[i].due < cutoff
  }

  predicate MustSuspend(cfg: Config, s: Store, c: Id, now: Time) {
    PastDue(s.invoices, c, now - cfg.suspension(c).suspendAfterDays * DAY)
  }

  /** `stamp` is the database's own clock. */
  function SuspendStep(cfg: Config, s: Store, c: Id, now: Time, stamp: Time): Store {
    if !MustSuspend(cfg, s, c, now) then s else s.(customers := s.customers[c := Customer(Suspended, Some(stamp))])
  }

  function SuspendPass(cfg: Config, s: Store, orders: seq<Order>, now: Time, stamp: Time): Store {
    if orders == [] then s
    else SuspendStep(cfg, SuspendPass(cfg, s, orders[..|orders| - 1], now, stamp), orders[|orders| - 1].customer, now,
      stamp)
  }

  function RestoreStep(s: Store, c: Id, now: Time): Store {
    if PastDue(s.invoices, c, now) then s else s.(customers := s.customers[c := Customer(Active, None)])
  }

  function RestorePass(s: Store, cs: seq<Id>, now: Time): Store {
    if cs == [] then s else RestoreStep(RestorePass(s, cs[..|cs| - 1], now), cs[|cs| - 1], now)
  }

  // ------------------------------------------------------------------
  // Pass 4: auto-termination
  // ------------------------------------------------------------------

  predicate ShouldAutoTerminate(now: Time, suspendedAt: Option<Time>, thresholdDays: int) {
    suspendedAt.Some? && suspendedAt.value <= now - thresholdDays * DAY
  }

  predicate HasOpen(requests: seq<Termination>, c: Id) {
    exists i :: 0 <= i < |requests| && requests[i].customer == c && requests[i].status != Completed &&
      requests[i].status != Cancelled
  }

  function TerminateStep(cfg: Config, s: Store, c: Id, now: Time): Store {
    if c !in s.customers ||
      !ShouldAutoTerminate(now, s.customers[c].suspendedAt, cfg.suspension(c).terminateAfterDays) then s
    else if HasOpen(s.requests, c) then s
    else s.(requests := s.requests + [Termination(c, if cfg.fieldWired then WoCreated else WoPending, now)])
  }

  function TerminatePass(cfg: Config, s: Store, cs: seq<Id>, now: Time): Store {
    if cs == [] then s else TerminateStep(cfg, TerminatePass(cfg, s, cs[..|cs| - 1], now), cs[|cs| - 1], now)
  }

  // ------------------------------------------------------------------
  // The tick
  // ------------------------------------------------------------------

  function AfterRecurring(cfg: Config, s: Store, now: Time): Store {
    RecurringPass(cfg, s, ActiveOrders(cfg.orders, s), now)
  }

  function AfterFees(cfg: Config, s: Store, now: Time): Store {
    var s1 := AfterRecurring(cfg, s, now);
    FeePass(cfg, s1, IssuedInvoices(s1.invoices), now)
  }

  function AfterSuspend(cfg: Config, s: Store, now: Time, stamp: Time): Store {
    var s2 := AfterFees(cfg, s, now);
    SuspendPass(cfg, s2, ActiveOrders(cfg.orders, s2), now, stamp)
  }

  function AfterRestore(cfg: Config, s: Store, now: Time, stamp: Time): Store {
    var s3 := AfterSuspend(cfg, s, now, stamp);
    RestorePass(s3, SuspendedCustomers(cfg.roster, s3), now)
  }

  function Tick(cfg: Config, s: Store, now: Time, stamp: Time): Store {
    var s4 := AfterRestore(cfg, s, now, stamp);
    TerminatePass(cfg, s4, SuspendedCustomers(cfg.roster, s4), now)
  }
}
