/** The five-party commission on an order's first payment: resolving the split and emitting the rows. */
module Commission {
  import opened Base
  import opened Money

  type Id = nat

  /** Percentages of the five parties. */
  datatype Split = Split(rep: real, mgr: real, branchSales: real, branchInfra: real, holding: real)

  /** A published commission schema; a key may be missing. */
  datatype Body = Body(rep: Option<real>, mgr: Option<real>, branchSales: Option<real>, branchInfra: Option<real>,
    holding: Option<real>)

  const LEGACY := Split(15.0, 5.0, 10.0, 10.0, 60.0)

  function Read(key: Option<real>, default: real): real {
    if key.Some? then key.value else default
  }

  function Total(s: Split): real {
    s.rep + s.mgr + s.branchSales + s.branchInfra + s.holding
  }

  function Scale(s: Split, k: real): Split {
    Split(s.rep * k, s.mgr * k, s.branchSales * k, s.branchInfra * k, s.holding * k)
  }

  /** The schema's keys over the legacy split. */
  function Merge(b: Body): Split {
    Split(Read(b.rep, LEGACY.rep), Read(b.mgr, LEGACY.mgr), Read(b.branchSales, LEGACY.branchSales),
          Read(b.branchInfra, LEGACY.branchInfra), Read(b.holding, LEGACY.holding))
  }

  /** A total of at most 1.5 is read as fractions and scaled to percentages. */
  function Resolve(body: Option<Body>): Split {
    if body.None? then LEGACY
    else
      var out := Merge(body.value);
      if 0.0 < Total(out) <= 1.5 then Scale(out, 100.0) else out
  }

  lemma ScaledTwice(s: Split)
    ensures Total(Scale(s, 100.0)) == 100.0 * Total(s)
    ensures Scale(s, 100.0) == s <==> s == Split(0.0, 0.0, 0.0, 0.0, 0.0)
    ensures Scale(s, 100.0) == Split(0.0, 0.0, 0.0, 0.0, 0.0) <==> s == Split(0.0, 0.0, 0.0, 0.0, 0.0)
  {
  }

  /** Without a schema the split is the standing one, which adds up to a hundred. */
  lemma StandingSplit()
    ensures Resolve(None) == Split(15.0, 5.0, 10.0, 10.0, 60.0) && Total(Resolve(None)) == 100.0
  {
  }

  /** What a schema gives, and what the defaults add for the keys it leaves out. */
  function Given(b: Body): real {
    Read(b.rep, 0.0) + Read(b.mgr, 0.0) + Read(b.branchSales, 0.0) + Read(b.branchInfra, 0.0) + Read(b.holding, 0.0)
  }

  function Defaults(b: Body): real {
    (if b.rep.None? then LEGACY.rep else 0.0) + (if b.mgr.None? then LEGACY.mgr else 0.0) +
    (if b.branchSales.None? then LEGACY.branchSales else 0.0) +
      (if b.branchInfra.None? then LEGACY.branchInfra else 0.0) +
    (if b.holding.None? then LEGACY.holding else 0.0)
  }

  predicate Partial(b: Body) {
    b.rep.None? || b.mgr.None? || b.branchSales.None? || b.branchInfra.None? || b.holding.None?
  }

  /** The same schema with every figure it gives multiplied by a hundred. */
  function InPercent(b: Body): Body {
    Body(Hundredfold(b.rep), Hundredfold(b.mgr), Hundredfold(b.branchSales), Hundredfold(b.branchInfra),
      Hundredfold(b.holding))
  }

  function Hundredfold(key: Option<real>): Option<real> {
    if key.Some? then Some(100.0 * key.value) else None
  }

  predicate NothingGiven(b: Body) {
    && Read(b.rep, 0.0) == 0.0 && Read(b.mgr, 0.0) == 0.0 && Read(b.branchSales, 0.0) == 0.0
    && Read(b.branchInfra, 0.0) == 0.0 && Read(b.holding, 0.0) == 0.0
  }

  /**
   A schema in fractions and the same in percentages resolve alike exactly when the schema gives nothing,
   or is complete and its total tells the two shapes apart. A partial one that gives anything never does.
   */
  lemma ShapesAgreeIff(b: Body)
    ensures Resolve(Some(b)) == Resolve(Some(InPercent(b))) <==>
            NothingGiven(b) || (!Partial(b) && 0.015 < Given(b) <= 1.5)
  {
    var m, m' := Merge(b), Merge(InPercent(b));
    GivenOverDefaults(b);
    GivenOverDefaults(InPercent(b));
    PercentGiven(b);
    PercentMerge(b);
    ScaleInjective(m, m');
    ScaledTwice(m);
    ScaledTwice(m');
    ZeroTotal();
    hide Merge, Scale, Total, Given, Defaults, Partial, NothingGiven, InPercent;
    assert Resolve(Some(b)) == if 0.0 < Total(m) <= 1.5 then Scale(m, 100.0) else m;
    assert Resolve(Some(InPercent(b))) == if 0.0 < Total(m') <= 1.5 then Scale(m', 100.0) else m';
  }

  lemma PercentGiven(b: Body)
    ensures Given(InPercent(b)) == 100.0 * Given(b) && Defaults(InPercent(b)) == Defaults(b)
    ensures NothingGiven(b) ==> Given(b) == 0.0
    ensures !Partial(b) ==> Defaults(b) == 0.0
  {
  }

  /** A key that is given tells the merged splits apart, and a default tells a scaled one from one that is not. */
  lemma PercentMerge(b: Body)
    ensures Merge(b) == Merge(InPercent(b)) <==> NothingGiven(b)
    ensures !Partial(b) ==> Merge(InPercent(b)) == Scale(Merge(b), 100.0)
    ensures Partial(b) ==>
      Scale(Merge(b), 100.0) != Merge(InPercent(b)) && Merge(b) != Scale(Merge(InPercent(b)), 100.0)
    ensures !Partial(b) && NothingGiven(b) ==> Merge(b) == Split(0.0, 0.0, 0.0, 0.0, 0.0)
  {
  }

  lemma ScaleInjective(s: Split, s': Split)
    ensures Scale(s, 100.0) == Scale(s', 100.0) <==> s == s'
  {
  }

  lemma ZeroTotal()
    ensures Total(Split(0.0, 0.0, 0.0, 0.0, 0.0)) == 0.0
  {
  }

  /**
   A schema is scaled exactly when what it gives, together with the defaults, comes to at most 1.5.
   One that leaves any party to its default has to give less than nothing for that: fractions in it
   are taken for percentages, since each default alone exceeds the threshold.
   */
  lemma ScaledIff(b: Body)
    ensures Resolve(Some(b)) != Merge(b) <==> -Defaults(b) < Given(b) <= 1.5 - Defaults(b)
    ensures Partial(b) && Given(b) > -3.5 ==> Resolve(Some(b)) == Merge(b)
  {
    hide Merge, Scale, Total, Given, Defaults;
    GivenOverDefaults(b);
    ScaledTwice(Merge(b));
    ZeroTotal();
  }

  lemma GivenOverDefaults(b: Body)
    ensures Total(Merge(b)) == Given(b) + Defaults(b)
    ensures Partial(b) ==> Defaults(b) >= 5.0
  {
  }

  // ------------------------------------------------------------------
  // Rows
  // ------------------------------------------------------------------

  datatype Party = SalesPerson | SalesManager | SalesBranch | InfrastructureBranch | Company

  datatype Order = Order(id: Id, monthlyPrice: real, sales: Option<Id>, branch: Option<Id>)

  datatype Row = Row(order: Id, party: Party, user: Option<Id>, branch: Option<Id>, amount: real, percentage: real,
    base: real)

  /** The part of the base a percentage stands for. */
  function Share(base: real, pct: real): real {
    base * pct / 100.0
  }

  function MakeRow(o: Order, party: Party, pct: real, user: Option<Id>, branch: Option<Id>): Row {
    Row(o.id, party, user, branch, Round2(Share(o.monthlyPrice, pct)), pct, o.monthlyPrice)
  }

  function BuildRows(o: Order, manager: Option<Id>, salesBranch: Option<Id>, crossBranch: bool, s: Split): seq<Row> {
    var infra := if crossBranch then s.branchInfra else 0.0;
    var company := if crossBranch then s.holding else s.holding + s.branchInfra;
    [MakeRow(o, SalesPerson, s.rep, o.sales, None)] +
    (if manager.Some? then [MakeRow(o, SalesManager, s.mgr, manager, None)] else []) +
    (if salesBranch.Some? then [MakeRow(o, SalesBranch, s.branchSales, None, salesBranch)] else []) +
    (if crossBranch && o.branch.Some? then [MakeRow(o, InfrastructureBranch, infra, None, o.branch)] else []) +
    [MakeRow(o, Company, company, None, None)]
  }

  /** The percentage and payee a party is owed, if it takes part. */
  function Owed(o: Order, manager: Option<Id>, salesBranch: Option<Id>, s: Split, p: Party)
    : Option<(real, Option<Id>, Option<Id>)>
  {
    var cross := IsCrossBranch(o, salesBranch);
    match p
    case SalesPerson => Some((s.rep, o.sales, None))
    case SalesManager => if manager.Some? then Some((s.mgr, manager, None)) else None
    case SalesBranch => if salesBranch.Some? then Some((s.branchSales, None, salesBranch)) else None
    case InfrastructureBranch => if cross then Some((s.branchInfra, None, o.branch)) else None
    case Company => Some((if cross then s.holding else s.holding + s.branchInfra, None, None))
  }

  function OwedRow(o: Order, p: Party, owed: (real, Option<Id>, Option<Id>)): Row {
    Row(o.id, p, owed.1, owed.2, Round2(Share(o.monthlyPrice, owed.0)), owed.0, o.monthlyPrice)
  }

  /**
   Each party that takes part has one row, for its own percentage, payee and rounded share; no other party
   has any.
   */
  lemma EachPartyItsShare(o: Order, manager: Option<Id>, salesBranch: Option<Id>, s: Split, p: Party)
    ensures
      var rows, owed := BuildRows(o, manager, salesBranch, IsCrossBranch(o, salesBranch), s),
        Owed(o, manager, salesBranch, s, p);
      (owed.Some? <==> exists i :: 0 <= i < |rows| && rows[i].party == p) &&
      (forall i :: 0 <= i < |rows| && rows[i].party == p ==> owed.Some? && rows[i] == OwedRow(o, p, owed.value)) &&
      (forall i, j :: 0 <= i < j < |rows| ==> rows[i].party != rows[j].party)
  {
    hide Round2, Share;
    var rows := BuildRows(o, manager, salesBranch, IsCrossBranch(o, salesBranch), s);
    var m := if manager.Some? then 1 else 0;
    var b := if salesBranch.Some? then 1 else 0;
    assert rows[0].party == SalesPerson && rows[|rows| - 1].party == Company;
    assert manager.Some? ==> rows[1].party == SalesManager;
    assert salesBranch.Some? ==> rows[1 + m].party == SalesBranch;
    assert IsCrossBranch(o, salesBranch) ==> rows[1 + m + b].party == InfrastructureBranch;
  }

  function Percentages(rows: seq<Row>): real {
    if rows == [] then 0.0 else Percentages(rows[..|rows| - 1]) + rows[|rows| - 1].percentage
  }

  function AmountOf(rows: seq<Row>): real {
    if rows == [] then 0.0 else AmountOf(rows[..|rows| - 1]) + rows[|rows| - 1].amount
  }

  lemma {:induction false} PercentagesConcat(a: seq<Row>, b: seq<Row>)
    ensures Percentages(a + b) == Percentages(a) + Percentages(b)
  {
    if b == [] {
      assert a + b == a;
    } else {
      PercentagesConcat(a, b[..|b| - 1]);
      assert (a + b)[..|a + b| - 1] == a + b[..|b| - 1];
    }
  }

  lemma PercentageOne(r: Row)
    ensures Percentages([r]) == r.percentage && Percentages([]) == 0.0
  {
    assert [r][..0] == [];
  }

  /** The branches differ only when both are known. */
  function IsCrossBranch(o: Order, salesBranch: Option<Id>): bool {
    o.branch.Some? && salesBranch.Some? && o.branch != salesBranch
  }

  /**
   The emitted percentages add up to the split, less only the shares of an absent manager or an
   absent sales branch: folding the infrastructure share of a same-branch order loses nothing.
   */
  lemma PercentagesConserved(o: Order, manager: Option<Id>, salesBranch: Option<Id>, s: Split)
    ensures
      Percentages(BuildRows(o, manager, salesBranch, IsCrossBranch(o, salesBranch), s)) ==
        Total(s) - (if manager.None? then s.mgr else 0.0) - (if salesBranch.None? then s.branchSales else 0.0)
  {
    hide MakeRow;
    var cross := IsCrossBranch(o, salesBranch);
    var company := if cross then s.holding else s.holding + s.branchInfra;
    var rep, comp := MakeRow(o, SalesPerson, s.rep, o.sales, None), MakeRow(o, Company, company, None, None);
    var mgr := MakeRow(o, SalesManager, s.mgr, manager, None);
    var sales := MakeRow(o, SalesBranch, s.branchSales, None, salesBranch);
    var infra := MakeRow(o, InfrastructureBranch, s.branchInfra, None, o.branch);
    var b := if manager.Some? then [mgr] else [];
    var c := if salesBranch.Some? then [sales] else [];
    var d := if cross then [infra] else [];
    RowPercentage(o, SalesPerson, s.rep, o.sales, None);
    RowPercentage(o, Company, company, None, None);
    RowPercentage(o, SalesManager, s.mgr, manager, None);
    RowPercentage(o, SalesBranch, s.branchSales, None, salesBranch);
    RowPercentage(o, InfrastructureBranch, s.branchInfra, None, o.branch);
    PercentageOne(rep);
    PercentageOne(mgr);
    PercentageOne(sales);
    PercentageOne(infra);
    PercentageOne(comp);
    PercentagesConcat([rep], b);
    PercentagesConcat([rep] + b, c);
    PercentagesConcat([rep] + b + c, d);
    PercentagesConcat([rep] + b + c + d, [comp]);
  }

  lemma RowPercentage(o: Order, party: Party, pct: real, user: Option<Id>, branch: Option<Id>)
    ensures MakeRow(o, party, pct, user, branch).percentage == pct
  {
  }

  /** Rows whose amounts are the rounded shares of one base. */
  ghost predicate Shares(rows: seq<Row>, base: real) {
    forall i :: 0 <= i < |rows| ==> rows[i].base == base && rows[i].amount == Round2(Share(base, rows[i].percentage))
  }

  lemma SharesAdd(base: real, p: real, q: real)
    ensures Share(base, p) + Share(base, q) == Share(base, p + q)
    ensures Share(base, 0.0) == 0.0
  {
  }

  lemma {:induction false} AmountsNearShare(rows: seq<Row>, base: real)
    requires Shares(rows, base)
    ensures -0.005 * |rows| as real <= AmountOf(rows) - Share(base, Percentages(rows)) <= 0.005 * |rows| as real
  {
    hide Share, Cents;
    SharesAdd(base, 0.0, 0.0);
    if rows != [] {
      var n := |rows| - 1;
      AmountsNearShare(rows[..n], base);
      SharesAdd(base, Percentages(rows[..n]), rows[n].percentage);
      CentsNearest(Share(base, rows[n].percentage));
    }
  }

  /** What is paid out is the base's share of the emitted percentages, to within half a cent a row. */
  lemma AmountsConserved(o: Order, manager: Option<Id>, salesBranch: Option<Id>, s: Split)
    ensures
      var rows := BuildRows(o, manager, salesBranch, IsCrossBranch(o, salesBranch), s);
      2 <= |rows| <= 5 &&
      -0.005 * |rows| as real <= AmountOf(rows) - Share(o.monthlyPrice, Percentages(rows)) <= 0.005 * |rows| as real
  {
    hide Share, Cents, AmountOf, Percentages;
    var rows := BuildRows(o, manager, salesBranch, IsCrossBranch(o, salesBranch), s);
    AmountsNearShare(rows, o.monthlyPrice);
  }

  // ------------------------------------------------------------------
  // The payment hook
  // ------------------------------------------------------------------

  /** What the hook sees of an invoice that a payment has just settled, and of its order. */
  datatype Settled = Settled(isOtc: bool, isPaid: bool, order: Option<Order>, manager: Option<Id>,
    salesBranch: Option<Id>, split: Split)

  predicate Eligible(v: Settled) {
    v.order.Some? && v.isOtc && v.isPaid && v.order.value.monthlyPrice > 0.0 && v.order.value.sales.Some?
  }

  function RowsFor(v: Settled): seq<Row>
    requires v.order.Some?
  {
    BuildRows(v.order.value, v.manager, v.salesBranch, IsCrossBranch(v.order.value, v.salesBranch), v.split)
  }

  predicate ExistsForOrder(records: seq<Row>, order: Id) {
    exists i :: 0 <= i < |records| && records[i].order == order
  }

  function ApplyHook(records: seq<Row>, v: Settled): seq<Row> {
    if !Eligible(v) || ExistsForOrder(records, v.order.value.id) then records else records + RowsFor(v)
  }

  class CommissionBook {
    var records: seq<Row>

    constructor ()
      ensures records == []
    {
      records := [];
    }

    method MaybeApplyCommission(v: Settled)
      modifies this
      ensures records == ApplyHook(old(records), v)
    {
      if v.order.None? || !v.isOtc || !v.isPaid {
        return;
      }
      var o := v.order.value;
      if ExistsForOrder(records, o.id) {
        return;
      }
      if o.monthlyPrice <= 0.0 || o.sales.None? {
        return;
      }
      var rows := RowsFor(v);
      ghost var before := records;
      for i := 0 to |rows|
        invariant records == before + rows[..i]
      {
        records := records + [rows[i]];
      }
    }
  }

  function HookRun(events: seq<Settled>): seq<Row> {
    if events == [] then [] else ApplyHook(HookRun(events[..|events| - 1]), events[|events| - 1])
  }

  function OfOrder(records: seq<Row>, order: Id): seq<Row> {
    if records == [] then []
    else
      OfOrder(records[..|records| - 1], order) +
      if records[|records| - 1].order == order then [records[|records| - 1]] else []
  }

  /** The first settlement that entitles an order to commission. */
  function FirstEligible(events: seq<Settled>, order: Id): Option<Settled> {
    if events == [] then None
    else
      var before, v := FirstEligible(events[..|events| - 1], order), events[|events| - 1];
      if before.None? && Eligible(v) && v.order.value.id == order then Some(v) else before
  }

  lemma {:induction false} OfOrderAppend(records: seq<Row>, rows: seq<Row>, order: Id, owner: Id)
    requires forall i :: 0 <= i < |rows| ==> rows[i].order == owner
    ensures OfOrder(records + rows, order) == OfOrder(records, order) + if owner == order then rows else []
  {
    if rows == [] {
      assert records + rows == records;
      assert OfOrder(records, order) + [] == OfOrder(records, order);
    } else {
      var n := |rows| - 1;
      OfOrderAppend(records, rows[..n], order, owner);
      assert (records + rows)[..|records + rows| - 1] == records + rows[..n];
    }
  }

  lemma {:induction false} OfOrderEmptyIff(records: seq<Row>, order: Id)
    ensures OfOrder(records, order) != [] <==> ExistsForOrder(records, order)
  {
    if records != [] {
      var n := |records| - 1;
      OfOrderEmptyIff(records[..n], order);
      if i :| 0 <= i < n && records[i].order == order {
        assert records[..n][i] == records[i];
      }
    }
  }

  lemma RowsOwned(v: Settled)
    requires v.order.Some?
    ensures RowsFor(v) != [] && forall i :: 0 <= i < |RowsFor(v)| ==> RowsFor(v)[i].order == v.order.value.id
  {
  }

  /**
   However often settlements are reported, an order's records are exactly the rows of the first
   settlement that entitled it: commission is never paid twice, and never mixed from two splits.
   */
  lemma {:induction false} CommissionOnce(events: seq<Settled>, order: Id)
    ensures
      var first := FirstEligible(events, order);
      (first.Some? ==> Eligible(first.value)) &&
      OfOrder(HookRun(events), order) == if first.Some? then RowsFor(first.value) else []
  {
    hide RowsFor, OfOrder, ExistsForOrder;
    if events == [] {
      assert OfOrder([], order) == [] by { NoneOfOrder(order); }
    } else {
      var n := |events| - 1;
      var v, records := events[n], HookRun(events[..n]);
      CommissionOnce(events[..n], order);
      if Eligible(v) {
        var owner := v.order.value.id;
        CommissionOnce(events[..n], owner);
        OfOrderEmptyIff(records, owner);
        RowsOwned(v);
        OfOrderAppend(records, RowsFor(v), order, owner);
        if FirstEligible(events[..n], order).Some? {
          RowsOwned(FirstEligible(events[..n], order).value);
        }
      }
    }
  }

  lemma NoneOfOrder(order: Id)
    ensures OfOrder([], order) == []
  {
  }

  /** A paid one-time invoice of the order, which has a price and a sales person. */
  ghost predicate Entitles(v: Settled, order: Id) {
    && v.isOtc && v.isPaid && v.order.Some? && v.order.value.id == order
    && v.order.value.monthlyPrice > 0.0 && v.order.value.sales.Some?
  }

  /** An order has commission exactly if some settlement entitled it, and then the rows of the first that did. */
  lemma CommissionPaid(events: seq<Settled>, order: Id)
    ensures OfOrder(HookRun(events), order) == [] <==> forall k :: 0 <= k < |events| ==> !Entitles(events[k], order)
    ensures forall k ::
      0 <= k < |events| && Entitles(events[k], order) && (forall j :: 0 <= j < k ==> !Entitles(events[j], order)) ==>
        OfOrder(HookRun(events), order) == RowsFor(events[k])
  {
    hide RowsFor, OfOrder, HookRun, Eligible, Entitles;
    CommissionOnce(events, order);
    FirstEligibleIs(events, order);
    var first := FirstEligible(events, order);
    if first.Some? {
      EntitledHasOrder(first.value, order);
      RowsOwned(first.value);
    }
  }

  lemma EntitledHasOrder(v: Settled, order: Id)
    ensures Entitles(v, order) ==> v.order.Some?
    ensures Eligible(v) && v.order.value.id == order <==> Entitles(v, order)
  {
  }

  lemma {:induction false} FirstEligibleIs(events: seq<Settled>, order: Id)
    ensures
      var first := FirstEligible(events, order);
      && (first.None? <==> forall k :: 0 <= k < |events| ==> !Entitles(events[k], order))
      && (forall k ::
          0 <= k < |events| && Entitles(events[k], order) &&
          (forall j :: 0 <= j < k ==> !Entitles(events[j], order)) ==>
            first == Some(events[k]))
      && (first.Some? ==> Entitles(first.value, order))
  {
    hide Eligible, Entitles;
    if events != [] {
      var n := |events| - 1;
      FirstEligibleIs(events[..n], order);
      EntitledHasOrder(events[n], order);
      assert forall k :: 0 <= k < n ==> events[..n][k] == events[k];
    }
  }

  /** Each row pays its percentage of the order's monthly price, to the nearest cent. */
  lemma RowsPayShares(v: Settled)
    requires v.order.Some?
    ensures forall i :: 0 <= i < |RowsFor(v)| ==> PaysShare(RowsFor(v)[i], v.order.value.monthlyPrice)
  {
    hide PaysShare, MakeRow;
    forall party, pct, user, branch
      ensures PaysShare(MakeRow(v.order.value, party, pct, user, branch), v.order.value.monthlyPrice)
    {
      RowPaysShare(v.order.value, party, pct, user, branch);
    }
  }

  lemma RowPaysShare(o: Order, party: Party, pct: real, user: Option<Id>, branch: Option<Id>)
    ensures PaysShare(MakeRow(o, party, pct, user, branch), o.monthlyPrice)
  {
    hide Cents, Share;
    ShareNearest(o.monthlyPrice, pct);
  }

  ghost predicate PaysShare(r: Row, price: real) {
    r.base == price && -0.005 <= r.amount - price * r.percentage / 100.0 <= 0.005
  }

  lemma ShareNearest(base: real, pct: real)
    ensures -0.005 <= Round2(Share(base, pct)) - base * pct / 100.0 <= 0.005
  {
    CentsNearest(Share(base, pct));
    hide Cents;
  }
}
