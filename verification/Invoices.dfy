/** Invoices: totals with tax, the life cycle, and payment until covered. */
module Invoices {
  import opened Base
  import opened Money

  type Id = nat

  datatype InvoiceType = OTC | Recurring | ExcessCable | Addon | Milestone

  datatype Status = Draft | Issued | Paid | Overdue | Cancelled

  datatype ItemType = MonthlyService | AddonItem | Penalty | OtherItem

  /** A line as its caller wrote it, or as the invoice keeps it. */
  datatype Line = Line(order: int, description: string, itemType: ItemType, quantity: real, unitPrice: real,
    amount: real)

  datatype Invoice = Invoice(
    number: string, customer: Id, order: Option<Id>, kind: InvoiceType, due: Time,
    subtotal: real, ppnRate: real, ppn: real, total: real, status: Status, paidAt: Option<Time>, lines: seq<Line>)

  /** What a caller asks for when creating an invoice. */
  datatype Request = Request(customer: Id, order: Option<Id>, kind: InvoiceType, ppnRate: real, due: Time,
    issueNow: bool, lines: seq<Line>)

  datatype Created = Created(invoice: Invoice) | Rejected(code: string)

  const NIL: Id := 0

  /** Defaults for a missing order, quantity and amount. */
  function Normalise(l: Line, i: nat): Line {
    var quantity := if l.quantity == 0.0 then 1.0 else l.quantity;
    l.(order := if l.order == 0 then i + 1 else l.order,
       quantity := quantity,
       amount := if l.amount == 0.0 then l.unitPrice * quantity else l.amount)
  }

  function NormaliseAll(lines: seq<Line>): seq<Line> {
    seq(|lines|, i requires 0 <= i < |lines| => Normalise(lines[i], i))
  }

  function Amounts(lines: seq<Line>): seq<real> {
    seq(|lines|, i requires 0 <= i < |lines| => lines[i].amount)
  }

  /** Tax on a subtotal at a percentage. */
  function Tax(subtotal: real, rate: real): real {
    subtotal * rate / 100.0
  }

  function Totalled(number: string, r: Request): Invoice {
    var lines := NormaliseAll(r.lines);
    var subtotal := Sum(Amounts(lines));
    var ppn := Round2(Tax(subtotal, r.ppnRate));
    Invoice(number, r.customer, r.order, r.kind, r.due, Round2(subtotal), r.ppnRate, ppn, Round2(subtotal + ppn), Draft,
      None, lines)
  }

  function Build(number: string, r: Request): Created {
    if r.customer == NIL then Rejected("customer_required")
    else if r.lines == [] then Rejected("empty")
    else if r.ppnRate < 0.0 || r.ppnRate > 100.0 then Rejected("ppn_invalid")
    else Created(Totalled(number, r))
  }

  /** A draft is built for a customer, with lines, at a rate from 0 to 100, and refused otherwise. */
  lemma BuiltIff(number: string, r: Request)
    ensures Build(number, r).Created? <==> r.customer != NIL && |r.lines| > 0 && 0.0 <= r.ppnRate <= 100.0
    ensures Build(number, r).Created? ==>
      var i := Build(number, r).invoice;
      (i.number, i.customer, i.order, i.kind, i.due) == (number, r.customer, r.order, r.kind, r.due) &&
      (i.ppnRate, i.status, i.paidAt, i.lines) == (r.ppnRate, Draft, None, NormaliseAll(r.lines))
  {
    hide Sum, Tax, Round2, NormaliseAll;
  }

  lemma NoLines(lines: seq<Line>)
    ensures |NormaliseAll(lines)| == |lines| && NormaliseAll(lines)[..0] == [] && Sum(Amounts([])) == 0.0
  {
  }

  lemma LineAppended(lines: seq<Line>, out: seq<Line>, i: nat)
    requires i < |lines| && out == NormaliseAll(lines)[..i]
    ensures
      var l := Normalise(lines[i], i);
      out + [l] == NormaliseAll(lines)[..i + 1] && Sum(Amounts(out + [l])) == Sum(Amounts(out)) + l.amount
  {
    var l := Normalise(lines[i], i);
    SumAppend(Amounts(out), l.amount);
    assert Amounts(out + [l]) == Amounts(out) + [l.amount];
  }

  /** Builds a draft, accumulating the subtotal line by line. */
  method NewInvoice(number: string, r: Request) returns (c: Created)
    ensures c == Build(number, r)
  {
    hide Sum, Amounts, NormaliseAll, Tax, Cents, Round2;
    if r.customer == NIL {
      return Rejected("customer_required");
    }
    if r.lines == [] {
      return Rejected("empty");
    }
    if r.ppnRate < 0.0 || r.ppnRate > 100.0 {
      return Rejected("ppn_invalid");
    }
    var out: seq<Line>, subtotal := [], 0.0;
    NoLines(r.lines);
    for i := 0 to |r.lines|
      invariant out == NormaliseAll(r.lines)[..i]
      invariant subtotal == Sum(Amounts(out))
    {
      var l := r.lines[i];
      if l.order == 0 {
        l := l.(order := i + 1);
      }
      if l.quantity == 0.0 {
        l := l.(quantity := 1.0);
      }
      if l.amount == 0.0 {
        l := l.(amount := l.unitPrice * l.quantity);
      }
      assert l == Normalise(r.lines[i], i);
      LineAppended(r.lines, out, i);
      subtotal := subtotal + l.amount;
      out := out + [l];
    }
    assert NormaliseAll(r.lines)[..|r.lines|] == NormaliseAll(r.lines);
    var ppn := Round2(Tax(subtotal, r.ppnRate));
    var total := Round2(subtotal + ppn);
    return Created(Invoice(number, r.customer, r.order, r.kind, r.due, Round2(subtotal), r.ppnRate, ppn, total, Draft,
      None, out));
  }

  /**
   The three rounded figures of an invoice never drift apart: for all lines, negative ones included,
   and all rates, the total is the subtotal plus the tax, and the tax is the nearest cent.
   */
  lemma TotalsNeverDesync(number: string, r: Request)
    requires Build(number, r).Created?
    ensures
      var i, exact := Build(number, r).invoice, Sum(Amounts(NormaliseAll(r.lines)));
      i.total == i.subtotal + i.ppn &&
      -0.005 <= i.ppn - Tax(exact, r.ppnRate) <= 0.005 &&
      -0.005 <= i.subtotal - exact <= 0.005 && -0.005 <= i.total - (exact + i.ppn) <= 0.005 && WholeCents(i.total)
  {
    hide Cents, Sum, Tax;
    RoundedIsWhole(Sum(Amounts(NormaliseAll(r.lines))) + Round2(Tax(Sum(Amounts(NormaliseAll(r.lines))), r.ppnRate)));
    var exact := Sum(Amounts(NormaliseAll(r.lines)));
    TaxSign(exact, r.ppnRate);
    var tax := Tax(exact, r.ppnRate);
    CentsNearest(tax);
    CentsNearest(exact);
    CentsShift(exact, Cents(tax));
  }

  /** The tax is the percentage of the exact subtotal, to the nearest cent. */
  lemma TaxNearest(number: string, r: Request)
    requires Build(number, r).Created?
    ensures
      var exact := Sum(Amounts(NormaliseAll(r.lines)));
      -0.005 <= Build(number, r).invoice.ppn - exact * r.ppnRate / 100.0 <= 0.005
  {
    hide Tax, Build, Sum, Cents, Amounts, NormaliseAll, Round2, WholeCents, Totalled;
    TotalsNeverDesync(number, r);
    TaxIs(Sum(Amounts(NormaliseAll(r.lines))), r.ppnRate);
  }

  lemma TaxIs(subtotal: real, rate: real)
    ensures Tax(subtotal, rate) == subtotal * rate / 100.0
  {
  }

  lemma TaxSign(exact: real, rate: real)
    requires rate >= 0.0
    ensures exact >= 0.0 ==> Tax(exact, rate) >= 0.0
    ensures exact <= 0.0 ==> Tax(exact, rate) <= 0.0
  {
  }

  // ------------------------------------------------------------------
  // Creation through the service
  // ------------------------------------------------------------------

  /** The service prices each line itself before handing it on. */
  function Priced(l: Line): Line {
    l.(amount := if l.quantity == 0.0 then l.unitPrice else l.unitPrice * l.quantity)
  }

  function PriceAll(lines: seq<Line>): seq<Line> {
    seq(|lines|, i requires 0 <= i < |lines| => Priced(lines[i]))
  }

  /** One more than the cents that fit a column of fifteen digits, two of them after the point. */
  const CENTS_LIMIT := 1_000_000_000_000_000

  predicate Fits(x: real) {
    -CENTS_LIMIT < Cents(x) < CENTS_LIMIT
  }

  /** A line fits its columns; a quantity kept to three decimals has to stay positive. */
  predicate LineFits(l: Line) {
    0.0005 <= l.quantity < 9_999_999.9995 && Fits(l.unitPrice) && Fits(l.amount)
  }

  /** The database refuses negative figures, and figures that do not fit their columns. */
  predicate Storable(i: Invoice) {
    && i.subtotal >= 0.0 && i.ppn >= 0.0 && i.total >= 0.0
    && Fits(i.subtotal) && Fits(i.ppn) && Fits(i.total)
    && forall l :: l in i.lines ==> LineFits(l)
  }

  function Create(number: string, r: Request): Created {
    match Build(number, r.(lines := PriceAll(r.lines)))
    case Rejected(code) => Rejected(code)
    case Created(draft) =>
      var i := if r.issueNow then draft.(status := Issued) else draft;
      if Storable(i) then Created(i) else Rejected("check_violation")
  }

  /** Prices the lines, builds the draft, issues it if asked to, and stores it. */
  method CreateInvoice(number: string, r: Request) returns (c: Created)
    ensures c == Create(number, r)
  {
    hide Totalled;
    var lines: seq<Line> := [];
    for i := 0 to |r.lines|
      invariant lines == PriceAll(r.lines)[..i]
    {
      var li := r.lines[i];
      var amt := li.unitPrice * li.quantity;
      if li.quantity == 0.0 {
        amt := li.unitPrice;
      }
      assert PriceAll(r.lines)[i] == li.(amount := amt);
      lines := lines + [li.(amount := amt)];
    }
    assert lines == PriceAll(r.lines);
    c := NewInvoice(number, r.(lines := lines));
    if c.Rejected? {
      return;
    }
    var invoice := c.invoice;
    if r.issueNow {
      DraftBuilt(number, r.(lines := lines));
      invoice := Issue(invoice).0;
    }
    return if Storable(invoice) then Created(invoice) else Rejected("check_violation");
  }

  lemma DraftBuilt(number: string, r: Request)
    ensures Totalled(number, r).status == Draft
  {
  }

  /** Pricing twice is pricing once: the service and the invoice agree on every line amount. */
  lemma PricingAgrees(l: Line, i: nat)
    ensures Normalise(Priced(l), i).amount == l.unitPrice * (if l.quantity == 0.0 then 1.0 else l.quantity)
  {
  }

  /** What the database asks of a line, before defaults are filled in. */
  predicate Admissible(l: Line) {
    var quantity := if l.quantity == 0.0 then 1.0 else l.quantity;
    0.0005 <= quantity < 9_999_999.9995 && Fits(l.unitPrice) &&
    Fits(if l.amount == 0.0 then l.unitPrice * quantity else l.amount)
  }

  /**
   An invoice is stored exactly when its lines add up to more than half a cent below zero, come with
   tax to less than ten trillion, and each fit their columns.
   */
  lemma StorableIff(number: string, r: Request)
    requires Build(number, r).Created?
    ensures
      var exact := Sum(Amounts(NormaliseAll(r.lines)));
      Storable(Build(number, r).invoice) <==>
        exact > -0.005 && Cents(exact) + Cents(Tax(exact, r.ppnRate)) < CENTS_LIMIT && forall l :: l in r.lines ==>
          Admissible(l)
  {
    hide Sum, Tax, Cents, Admissible, LineFits;
    var exact := Sum(Amounts(NormaliseAll(r.lines)));
    var c, t := Cents(exact), Cents(Tax(exact, r.ppnRate));
    LinesFitIff(r.lines);
    TaxSign(exact, r.ppnRate);
    CentsNearest(exact);
    CentsNearest(Tax(exact, r.ppnRate));
    CentsShift(exact, t);
    CentsExact(c);
    CentsExact(t);
    CentsExact(c + t);
    if -0.005 < exact < 0.0 {
      SmallTax(exact, r.ppnRate);
    } else if exact <= -0.005 {
      BelowZero(exact);
    }
  }

  lemma BelowZero(exact: real)
    requires exact <= -0.005
    ensures Cents(exact) < 0
  {
  }

  lemma LinesFitIff(lines: seq<Line>)
    ensures (forall l :: l in NormaliseAll(lines) ==> LineFits(l)) <==> (forall l :: l in lines ==> Admissible(l))
  {
    hide Fits;
    forall i | 0 <= i < |lines|
      ensures LineFits(NormaliseAll(lines)[i]) <==> Admissible(lines[i])
    {
      assert NormaliseAll(lines)[i] == Normalise(lines[i], i);
    }
    assert forall i :: 0 <= i < |lines| ==> NormaliseAll(lines)[i] in NormaliseAll(lines) && lines[i] in lines;
  }

  lemma SmallTax(exact: real, rate: real)
    requires -0.005 < exact <= 0.0 && 0.0 <= rate <= 100.0
    ensures Cents(Tax(exact, rate)) == 0 && Cents(exact) == 0
  {
    assert exact * rate >= exact * 100.0 by {
      assert (-exact) * (100.0 - rate) >= 0.0;
    }
    TaxSign(exact, rate);
  }

  // ------------------------------------------------------------------
  // Life cycle
  // ------------------------------------------------------------------

  function Issue(i: Invoice): (Invoice, Outcome) {
    if i.status == Issued then (i, Refused("already_issued"))
    else if i.status != Draft then (i, Refused("bad_state"))
    else (i.(status := Issued), Done)
  }

  function MarkPaid(i: Invoice, at: Time): (Invoice, Outcome) {
    if i.status == Paid then (i, Refused("already_paid"))
    else if i.status == Cancelled then (i, Refused("cancelled"))
    else (i.(status := Paid, paidAt := Some(at)), Done)
  }

  function Cancel(i: Invoice): (Invoice, Outcome) {
    if i.status == Paid then (i, Refused("paid_uncancellable"))
    else if i.status == Cancelled then (i, Refused("already_cancelled"))
    else (i.(status := Cancelled), Done)
  }

  /** One invoice with its confirmed payments. */
  datatype Account = Account(invoice: Invoice, payments: seq<real>)

  predicate Covered(a: Account) {
    Sum(a.payments) + 0.000001 >= a.invoice.total
  }

  /** Payments are kept to the cent, and an amount that rounds to nothing or overflows is refused by the database. */
  function Pay(a: Account, amount: real, method': string, now: Time): (Account, Outcome) {
    if a.invoice.status == Cancelled then (a, Refused("cancelled"))
    else if a.invoice.status == Paid then (a, Refused("already_paid"))
    else if amount <= 0.0 then (a, Refused("amount_invalid"))
    else if IsBlank(method') then (a, Refused("method_required"))
    else if Round2(amount) <= 0.0 || !Fits(amount) then (a, Refused("check_violation"))
    else
      var paid := Account(a.invoice, a.payments + [Round2(amount)]);
      (if Covered(paid) then paid.(invoice := a.invoice.(status := Paid, paidAt := Some(now))) else paid, Done)
  }

  /** The record of one invoice, updated in place. */
  class Ledger {
    var invoice: Invoice
    var payments: seq<real>

    function View(): Account
      reads this
    {
      Account(invoice, payments)
    }

    constructor (invoice: Invoice)
      ensures View() == Account(invoice, [])
    {
      this.invoice, payments := invoice, [];
    }

    method DoIssue() returns (r: Outcome)
      modifies this
      ensures (View(), r) == (old(View()).(invoice := Issue(old(invoice)).0), Issue(old(invoice)).1)
    {
      if invoice.status == Issued {
        return Refused("already_issued");
      }
      if invoice.status != Draft {
        return Refused("bad_state");
      }
      invoice := invoice.(status := Issued);
      return Done;
    }

    method DoMarkPaid(at: Time) returns (r: Outcome)
      modifies this
      ensures (View(), r) == (old(View()).(invoice := MarkPaid(old(invoice), at).0), MarkPaid(old(invoice), at).1)
    {
      if invoice.status == Paid {
        return Refused("already_paid");
      }
      if invoice.status == Cancelled {
        return Refused("cancelled");
      }
      invoice := invoice.(status := Paid, paidAt := Some(at));
      return Done;
    }

    method DoCancel() returns (r: Outcome)
      modifies this
      ensures (View(), r) == (old(View()).(invoice := Cancel(old(invoice)).0), Cancel(old(invoice)).1)
    {
      if invoice.status == Paid {
        return Refused("paid_uncancellable");
      }
      if invoice.status == Cancelled {
        return Refused("already_cancelled");
      }
      invoice := invoice.(status := Cancelled);
      return Done;
    }

    method RecordPayment(amount: real, method': string, now: Time) returns (r: Outcome)
      modifies this
      ensures (View(), r) == Pay(old(View()), amount, method', now)
    {
      if invoice.status == Cancelled {
        return Refused("cancelled");
      }
      if invoice.status == Paid {
        return Refused("already_paid");
      }
      if amount <= 0.0 {
        return Refused("amount_invalid");
      }
      if IsBlank(method') {
        return Refused("method_required");
      }
      if Round2(amount) <= 0.0 || !Fits(amount) {
        return Refused("check_violation");
      }
      payments := payments + [Round2(amount)];
      if Sum(payments) + 0.000001 >= invoice.total {
        invoice := invoice.(status := Paid, paidAt := Some(now));
      }
      return Done;
    }
  }

  datatype Op = IssueOp | CancelOp | PayOp(amount: real, method': string, at: Time)

  function Apply(a: Account, op: Op): Account {
    match op
    case IssueOp => a.(invoice := Issue(a.invoice).0)
    case CancelOp => a.(invoice := Cancel(a.invoice).0)
    case PayOp(amount, method', at) => Pay(a, amount, method', at).0
  }

  function After(i: Invoice, ops: seq<Op>): Account {
    if ops == [] then Account(i, []) else Apply(After(i, ops[..|ops| - 1]), ops[|ops| - 1])
  }

  predicate WholeCents(x: real) {
    Round2(x) == x
  }

  /** Paid exactly when a payment was taken and the payments cover the total, and not a payment more. */
  ghost predicate PaidInStep(i: Invoice, a: Account) {
    && a.invoice == i.(status := a.invoice.status, paidAt := a.invoice.paidAt)
    && a.invoice.status != Overdue
    && (forall p :: p in a.payments ==> WholeCents(p))
    && (a.invoice.status != Cancelled ==>
      (a.invoice.status == Paid <==> a.payments != [] && Sum(a.payments) >= i.total))
    && (a.invoice.status != Paid && a.payments != [] ==> Sum(a.payments) < i.total)
    && (|a.payments| > 1 ==> Sum(a.payments[..|a.payments| - 1]) < i.total)
  }

  lemma RoundedIsWhole(f: real)
    ensures WholeCents(Round2(f))
  {
    hide Cents;
    CentsExact(Cents(f));
  }

  lemma {:induction false} WholeSum(amounts: seq<real>)
    requires forall p :: p in amounts ==> WholeCents(p)
    ensures WholeCents(Sum(amounts))
  {
    hide Cents;
    if amounts == [] {
      CentsExact(0);
    } else {
      var n := |amounts| - 1;
      WholeSum(amounts[..n]);
      assert WholeCents(amounts[n]);
      var a, b := Cents(Sum(amounts[..n])), Cents(amounts[n]);
      assert Sum(amounts) == a as real / 100.0 + b as real / 100.0;
      assert Sum(amounts) == (a + b) as real / 100.0;
      CentsExact(a + b);
    }
  }

  /** The tolerance of the coverage test never matters: amounts are whole cents. */
  lemma ToleranceIdle(a: Account)
    requires WholeCents(a.invoice.total) && forall p :: p in a.payments ==> WholeCents(p)
    ensures Covered(a) <==> Sum(a.payments) >= a.invoice.total
  {
    hide Cents, Sum;
    WholeSum(a.payments);
    assert Cents(Sum(a.payments)) < Cents(a.invoice.total) ==> Cents(Sum(a.payments)) + 1 <= Cents(a.invoice.total);
  }

  lemma ApplyInStep(i: Invoice, a: Account, op: Op)
    requires PaidInStep(i, a) && WholeCents(i.total)
    ensures PaidInStep(i, Apply(a, op))
  {
    match op
    case IssueOp =>
    case CancelOp =>
    case PayOp(amount, method', at) => PayInStep(i, a, amount, method', at);
  }

  lemma PayInStep(i: Invoice, a: Account, amount: real, method': string, at: Time)
    requires PaidInStep(i, a) && WholeCents(i.total)
    ensures PaidInStep(i, Pay(a, amount, method', at).0)
  {
    hide Sum, Cents, Round2, WholeCents, IsBlank, Fits, Covered;
    if Pay(a, amount, method', at).1 == Done {
      var paid := a.payments + [Round2(amount)];
      RoundedIsWhole(amount);
      assert paid[..|a.payments|] == a.payments;
      assert a.payments != [] ==> Sum(a.payments) < i.total;
      ToleranceIdle(Account(a.invoice, paid));
    }
  }

  /**
   Over every run from a new invoice: unless cancelled, it is paid exactly when a payment was taken
   and the payments cover the total; no payment is taken once they do; and its figures never change.
   */
  lemma {:induction false} PaidExactlyWhenCovered(i: Invoice, ops: seq<Op>)
    requires (i.status == Draft || i.status == Issued) && WholeCents(i.total)
    ensures PaidInStep(i, After(i, ops))
  {
    if ops != [] {
      hide PaidInStep, Apply;
      PaidExactlyWhenCovered(i, ops[..|ops| - 1]);
      ApplyInStep(i, After(i, ops[..|ops| - 1]), ops[|ops| - 1]);
    }
  }

  // ------------------------------------------------------------------
  // What a payment leaves on record
  // ------------------------------------------------------------------

  /** A payment that is accepted: on an open invoice, of at least half a cent, with a method, and within the column. */
  predicate Takes(a: Account, op: Op) {
    && op.PayOp? && a.invoice.status != Cancelled && a.invoice.status != Paid
    && 0.005 <= op.amount < 9_999_999_999_999.995 && !IsBlank(op.method')
  }

  /** The amounts offered by the payments a run accepts, in order. */
  function Offered(i: Invoice, ops: seq<Op>): seq<real> {
    if ops == [] then []
    else
      var n := |ops| - 1;
      Offered(i, ops[..n]) + if Takes(After(i, ops[..n]), ops[n]) then [ops[n].amount] else []
  }

  lemma FitsIff(f: real)
    requires f > 0.0
    ensures Round2(f) > 0.0 && Fits(f) <==> 0.005 <= f < 9_999_999_999_999.995
  {
  }

  /** A payment that is not accepted changes nothing; one that is adds one amount, and may settle the invoice. */
  lemma PayEffect(a: Account, op: Op)
    requires op.PayOp?
    ensures
      var a' := Apply(a, op);
      && (!Takes(a, op) ==> a' == a)
      && (Takes(a, op) ==>
        && |a'.payments| == |a.payments| + 1 && a'.payments[..|a.payments|] == a.payments
        && WholeCents(a'.payments[|a.payments|]) && -0.005 <= a'.payments[|a.payments|] - op.amount <= 0.005
        && (a'.invoice == a.invoice || a'.invoice == a.invoice.(status := Paid, paidAt := Some(op.at))))
  {
    hide Sum, Cents, Covered;
    if op.amount > 0.0 {
      FitsIff(op.amount);
    }
    hide Fits, Round2;
    RoundedIsNear(op.amount);
    RoundedIsWhole(op.amount);
  }

  lemma RoundedIsNear(f: real)
    ensures -0.005 <= Round2(f) - f <= 0.005
  {
    CentsNearest(f);
    hide Cents;
  }

  /** The payments on record are, in order, those accepted: whole cents, each within half a cent of what was offered. */
  ghost predicate Kept(payments: seq<real>, offered: seq<real>) {
    && |payments| == |offered|
    && forall k :: 0 <= k < |payments| ==> WholeCents(payments[k]) && -0.005 <= payments[k] - offered[k] <= 0.005
  }

  /**
   Over every run the payments on record are those accepted, in order and to the cent, so their sum is
   within half a cent a payment of the sum offered.
   */
  lemma {:induction false} PaymentsKept(i: Invoice, ops: seq<Op>)
    ensures Kept(After(i, ops).payments, Offered(i, ops))
    ensures
      var payments, offered := After(i, ops).payments, Offered(i, ops);
      -0.005 * |offered| as real <= Sum(payments) - Sum(offered) <= 0.005 * |offered| as real
  {
    hide Takes, Apply, WholeCents, Sum;
    if ops == [] {
      NothingPaid();
    } else {
      var n := |ops| - 1;
      var before, a := After(i, ops[..n]), After(i, ops);
      PaymentsKept(i, ops[..n]);
      if ops[n].PayOp? {
        PayEffect(before, ops[n]);
        if !Takes(before, ops[n]) {
          OfferedSame(i, ops);
        } else {
          var last := a.payments[|before.payments|];
          assert a.payments == before.payments + [last];
          SumAppend(before.payments, last);
          SumAppend(Offered(i, ops[..n]), ops[n].amount);
        }
      } else {
        NoPayment(before, ops[n]);
        OfferedSame(i, ops);
      }
    }
  }

  lemma NothingPaid()
    ensures Sum([]) == 0.0
  {
  }

  lemma NoPayment(a: Account, op: Op)
    ensures !op.PayOp? ==> Apply(a, op).payments == a.payments && !Takes(a, op)
  {
  }

  /** The last payment a run accepts. */
  ghost predicate LastTaken(i: Invoice, ops: seq<Op>, k: int) {
    && 0 <= k < |ops| && ops[k].PayOp? && Takes(After(i, ops[..k]), ops[k])
    && Offered(i, ops[..k + 1]) == Offered(i, ops)
  }

  /** A paid invoice carries the instant of the last payment it accepted. */
  lemma {:induction false} PaidAtLastPayment(i: Invoice, ops: seq<Op>)
    requires i.status != Paid && After(i, ops).invoice.status == Paid
    ensures exists k :: LastTaken(i, ops, k) && After(i, ops).invoice.paidAt == Some(ops[k].at)
  {
    hide Takes, Apply, Offered;
    if ops != [] {
      var n := |ops| - 1;
      var before, a := After(i, ops[..n]), After(i, ops);
      StatusMoves(before, ops[n]);
      if before.invoice.status == Paid {
        PaidAtLastPayment(i, ops[..n]);
        var k :| LastTaken(i, ops[..n], k) && before.invoice.paidAt == Some(ops[..n][k].at);
        assert ops[..n][..k] == ops[..k] && ops[..n][..k + 1] == ops[..k + 1] && ops[..n][k] == ops[k];
        OfferedSame(i, ops);
        assert LastTaken(i, ops, k);
      } else {
        assert ops[..n + 1] == ops;
        assert LastTaken(i, ops, n);
      }
    }
  }

  lemma OfferedSame(i: Invoice, ops: seq<Op>)
    requires ops != [] && !Takes(After(i, ops[..|ops| - 1]), ops[|ops| - 1])
    ensures Offered(i, ops) == Offered(i, ops[..|ops| - 1])
  {
    hide Takes;
  }

  /** Drafts are issued, open invoices are cancelled or paid, and paid and cancelled invoices stay as they are. */
  lemma StatusMoves(a: Account, op: Op)
    ensures
      var a' := Apply(a, op);
      && (a.invoice.status == Paid || a.invoice.status == Cancelled ==> a' == a && !Takes(a, op))
      && (op.IssueOp? ==> a'.invoice.status == if a.invoice.status == Draft then Issued else a.invoice.status)
      && (op.CancelOp? ==> a'.invoice.status == if a.invoice.status == Paid then Paid else Cancelled)
      && (a'.invoice.status == Paid && a.invoice.status != Paid ==>
        op.PayOp? && Takes(a, op) && a'.invoice.paidAt == Some(op.at))
  {
    hide Sum, Cents, Covered;
    if op.PayOp? {
      PayEffect(a, op);
      hide Pay;
    }
  }

  /**
   A line keeps what its caller set, and takes its place, one piece, and its price times its pieces for what
   was left out.
   */
  lemma LinesKept(lines: seq<Line>, k: nat)
    requires k < |lines|
    ensures
      var l, kept := lines[k], NormaliseAll(lines)[k];
      && |NormaliseAll(lines)| == |lines| && kept.description == l.description && kept.itemType == l.itemType
      && kept.unitPrice == l.unitPrice && kept.order == (if l.order != 0 then l.order else k + 1)
      && (l.quantity != 0.0 ==> kept.quantity == l.quantity) && (l.quantity == 0.0 ==> kept.quantity == 1.0)
      && (l.amount != 0.0 ==> kept.amount == l.amount)
      && (l.amount == 0.0 ==> kept.amount == l.unitPrice * kept.quantity)
  {
  }
}
