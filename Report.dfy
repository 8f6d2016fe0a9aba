/** Lines 39-134 end to end: the order lines, the net total against the
    warehouses' stock, and the warehouse view with each stock figure's sign. */
module Report {
  import opened Outcomes
  import opened TableParser
  import opened Normalizer
  import opened Demand

  /** One row of `df_req`: a branch and its order quantity. */
  datatype OrderLine = OrderLine(branch: string, quantity: int)

  /** The three colours of line 134. */
  datatype Sign = Positive | Zero | Negative

  /** One row of `df_wh`: a warehouse, its signed stock and that stock's sign. */
  datatype StockLine = StockLine(branch: string, stock: int, sign: Sign)

  /** What a run shows: the net total, the order lines, the warehouse view. */
  datatype OrderReport = OrderReport(total: int, orders: seq<OrderLine>, warehouses: seq<StockLine>)

  // ---------------------------------------------------------------------
  // Order lines (lines 102-106)

  /** Lines 102-106: the rows whose order is positive, in their order, as
      branch and quantity. */
  function Requested(rows: seq<BranchRecord>, pedido: seq<int>): (out: seq<OrderLine>)
    requires |pedido| == |rows|
    ensures |out| <= |rows|
    ensures forall l :: l in out ==> l.quantity > 0
    ensures forall i :: 0 <= i < |rows| && pedido[i] > 0 ==> OrderLine(rows[i].id, pedido[i]) in out
    ensures forall l :: l in out ==>
              exists i :: 0 <= i < |rows| && pedido[i] > 0 && l == OrderLine(rows[i].id, pedido[i])
  {
    if rows == [] then []
    else
      var rest := Requested(rows[1..], pedido[1..]);
      assert forall i :: 1 <= i < |rows| ==> rows[i] == rows[1..][i - 1] && pedido[i] == pedido[1..][i - 1];
      if pedido[0] > 0 then [OrderLine(rows[0].id, pedido[0])] + rest else rest
  }

  /** The selection works row by row, so the listed lines keep the order of
      the rows they come from. */
  lemma {:induction false} RequestedAppend(r1: seq<BranchRecord>, p1: seq<int>, r2: seq<BranchRecord>, p2: seq<int>)
    requires |p1| == |r1| && |p2| == |r2|
    ensures Requested(r1 + r2, p1 + p2) == Requested(r1, p1) + Requested(r2, p2)
  {
    if r1 == [] {
      assert r1 + r2 == r2 && p1 + p2 == p2;
    } else {
      assert (r1 + r2)[1..] == r1[1..] + r2 && (p1 + p2)[1..] == p1[1..] + p2;
      assert (r1 + r2)[0] == r1[0] && (p1 + p2)[0] == p1[0];
      RequestedAppend(r1[1..], p1[1..], r2, p2);
    }
  }

  lemma RequestedOne(r: BranchRecord, p: int)
    ensures Requested([r], [p]) == if p > 0 then [OrderLine(r.id, p)] else []
  {
    assert [r][1..] == [] && [p][1..] == [];
  }

  /** The order lines read straight off the normalised records: every
      active branch whose order is positive, in input order. */
  function OrdersOf(records: seq<BranchRecord>, days: int): seq<OrderLine> {
    if records == [] then []
    else
      var r := records[0];
      (if IsActive(r.id) && PedidoOf(r, days) > 0 then [OrderLine(r.id, PedidoOf(r, days))] else [])
      + OrdersOf(records[1..], days)
  }

  /** Filtering the active rows and then the positive orders (lines 77 and
      102-106) gives the order lines of the records. */
  lemma {:induction false} RequestedIsOrdersOf(records: seq<BranchRecord>, days: int)
    ensures Requested(ActiveRows(records), PedidosOf(ActiveRows(records), days)) == OrdersOf(records, days)
  {
    if records != [] {
      RequestedIsOrdersOf(records[1..], days);
      var act := ActiveRows(records);
      var rest := ActiveRows(records[1..]);
      var r := records[0];
      if IsActive(r.id) {
        assert act == [r] + rest;
        PedidosOfCons(r, rest, days);
        RequestedAppend([r], [PedidoOf(r, days)], rest, PedidosOf(rest, days));
        RequestedOne(r, PedidoOf(r, days));
      } else {
        assert act == rest;
      }
    }
  }

  lemma PedidosOfCons(r: BranchRecord, rest: seq<BranchRecord>, days: int)
    ensures PedidosOf([r] + rest, days) == [PedidoOf(r, days)] + PedidosOf(rest, days)
  {
    var a, b := PedidosOf([r] + rest, days), [PedidoOf(r, days)] + PedidosOf(rest, days);
    assert |a| == |b|;
    forall i | 0 <= i < |a| ensures a[i] == b[i] {
      if i == 0 {
        assert ([r] + rest)[0] == r;
      } else {
        assert ([r] + rest)[i] == rest[i - 1];
      }
    }
  }

  /** Every order line names an active branch, never a warehouse and never
      0010 or 0020, and orders a positive quantity. */
  lemma {:induction false} OrdersAreActive(records: seq<BranchRecord>, days: int)
    ensures forall l :: l in OrdersOf(records, days) ==>
              IsActive(l.branch) && !IsWarehouse(l.branch) && l.branch != "0010" && l.branch != "0020"
              && l.quantity > 0
  {
    if records != [] {
      OrdersAreActive(records[1..], days);
      var r := records[0];
      if IsActive(r.id) && PedidoOf(r, days) > 0 {
        if IsWarehouse(r.id) || r.id == "0010" || r.id == "0020" {
          ExcludedIdsNotActive(r.id);
        }
      }
    }
  }

  // ---------------------------------------------------------------------
  // Totals (lines 109-110)

  function Sum(xs: seq<int>): int {
    if xs == [] then 0 else xs[0] + Sum(xs[1..])
  }

  function SumQuantities(ls: seq<OrderLine>): int {
    if ls == [] then 0 else ls[0].quantity + SumQuantities(ls[1..])
  }

  /** Line 109: the clipped stock of the warehouse rows. */
  function StockWh(records: seq<BranchRecord>): int {
    if records == [] then 0
    else (if IsWarehouse(records[0].id) then records[0].exi else 0) + StockWh(records[1..])
  }

  /** Line 110. */
  function TotalNet(ordered: int, stock: int): (n: int)
    ensures n >= 0 && n >= ordered - stock
    ensures n == 0 || n == ordered - stock
  {
    if ordered - stock > 0 then ordered - stock else 0
  }

  /** The rows left out of `df_req` order nothing, so the sum of all orders is
      the sum of the order lines. */
  lemma {:induction false} OrderSumIsLineSum(records: seq<BranchRecord>, days: int)
    ensures Sum(PedidosOf(ActiveRows(records), days)) == SumQuantities(OrdersOf(records, days))
  {
    if records != [] {
      OrderSumIsLineSum(records[1..], days);
      var r := records[0];
      var act := ActiveRows(records);
      var rest := ActiveRows(records[1..]);
      var lines := OrdersOf(records[1..], days);
      if IsActive(r.id) {
        assert act == [r] + rest;
        PedidosOfCons(r, rest, days);
        var ps := PedidosOf(act, days);
        assert ps == [PedidoOf(r, days)] + PedidosOf(rest, days);
        assert ps[0] == PedidoOf(r, days) && ps[1..] == PedidosOf(rest, days);
        if PedidoOf(r, days) > 0 {
          var l := OrderLine(r.id, PedidoOf(r, days));
          assert OrdersOf(records, days) == [l] + lines;
          assert ([l] + lines)[1..] == lines;
        } else {
          assert OrdersOf(records, days) == lines;
        }
      } else {
        assert OrdersOf(records, days) == lines;
      }
    }
  }

  /** Stock that is clipped at 0 adds up to a non-negative amount. */
  lemma {:induction false} StockWhNonNegative(records: seq<BranchRecord>)
    requires forall i :: 0 <= i < |records| ==> records[i].exi >= 0
    ensures StockWh(records) >= 0
  {
    if records != [] {
      StockWhNonNegative(records[1..]);
    }
  }

  // ---------------------------------------------------------------------
  // Warehouse view (lines 119-123, 134)

  /** Line 134: green for stock, red for a deficit, nothing for zero. */
  function SignOf(e: int): (s: Sign)
    ensures s == Positive <==> e > 0
    ensures s == Negative <==> e < 0
    ensures s == Zero <==> e == 0
  {
    if e > 0 then Positive else if e < 0 then Negative else Zero
  }

  /** The line of `df_wh` for record `r` (lines 119-123, 134). */
  function LineOf(r: BranchRecord): StockLine { StockLine(r.id, r.exiRaw, SignOf(r.exiRaw)) }

  /** Lines 119-123: the warehouse rows with their signed stock; every
      warehouse record is listed, and nothing else. */
  function WarehouseView(records: seq<BranchRecord>): (v: seq<StockLine>)
    ensures |v| <= |records|
    ensures forall l :: l in v ==> IsWarehouse(l.branch) && l.sign == SignOf(l.stock)
    ensures forall r :: r in records && IsWarehouse(r.id) ==> LineOf(r) in v
    ensures forall l :: l in v ==> exists r :: r in records && IsWarehouse(r.id) && l == LineOf(r)
  {
    if records == [] then []
    else
      var r := records[0];
      assert records == [r] + records[1..];
      (if IsWarehouse(r.id) then [LineOf(r)] else [])
      + WarehouseView(records[1..])
  }

  /** The view is taken row by row, so its lines keep the input order. */
  lemma {:induction false} WarehouseViewAppend(a: seq<BranchRecord>, b: seq<BranchRecord>)
    ensures WarehouseView(a + b) == WarehouseView(a) + WarehouseView(b)
  {
    if a == [] {
      assert a + b == b;
    } else {
      assert (a + b)[1..] == a[1..] + b;
      assert (a + b)[0] == a[0];
      WarehouseViewAppend(a[1..], b);
    }
  }

  lemma WarehouseViewOne(r: BranchRecord)
    ensures WarehouseView([r]) == if IsWarehouse(r.id) then [LineOf(r)] else []
  {
    assert [r][1..] == [];
  }

  /** The stock of a warehouse line as line 109 counts it. */
  function Counted(l: StockLine): int { if l.stock < 0 then 0 else l.stock }

  function SumCounted(v: seq<StockLine>): int {
    if v == [] then 0 else Counted(v[0]) + SumCounted(v[1..])
  }

  /** The stock netted against the orders is the positive part of what the
      warehouse view shows: a warehouse in deficit counts as 0. */
  lemma {:induction false} StockWhFromView(records: seq<BranchRecord>)
    requires forall i :: 0 <= i < |records| ==>
               records[i].exi == if records[i].exiRaw < 0 then 0 else records[i].exiRaw
    ensures StockWh(records) == SumCounted(WarehouseView(records))
  {
    if records != [] {
      StockWhFromView(records[1..]);
      var r := records[0];
      var rest := WarehouseView(records[1..]);
      if IsWarehouse(r.id) {
        var l := StockLine(r.id, r.exiRaw, SignOf(r.exiRaw));
        assert WarehouseView(records) == [l] + rest;
        assert ([l] + rest)[1..] == rest;
        assert Counted(l) == r.exi;
      } else {
        assert WarehouseView(records) == rest;
      }
    }
  }

  /** Warehouses holding 50, -3 and 0: 50 is netted, and the lines are
      positive, negative and zero. */
  lemma WarehouseScenario(records: seq<BranchRecord>)
    requires |records| == 3
    requires records[0].id == "0100" && records[0].exiRaw == 50 && records[0].exi == 50
    requires records[1].id == "0105" && records[1].exiRaw == -3 && records[1].exi == 0
    requires records[2].id == "0106" && records[2].exiRaw == 0 && records[2].exi == 0
    ensures StockWh(records) == 50
    ensures |WarehouseView(records)| == 3
    ensures WarehouseView(records)[0].sign == Positive && WarehouseView(records)[1].sign == Negative
    ensures WarehouseView(records)[2].sign == Zero && WarehouseView(records)[1].stock == -3
  {
    var r0, r1, r2 := records[0], records[1], records[2];
    assert IsWarehouse(r0.id) && IsWarehouse(r1.id) && IsWarehouse(r2.id);
    var s1, s2 := records[1..], records[1..][1..];
    assert s1[0] == r1 && s2 == [r2] && s2[1..] == [];
    var l0, l1, l2 := StockLine(r0.id, 50, Positive), StockLine(r1.id, -3, Negative), StockLine(r2.id, 0, Zero);
    assert WarehouseView(s2) == [l2];
    assert WarehouseView(s1) == [l1, l2];
    assert WarehouseView(records) == [l0, l1, l2];
    assert StockWh(s2) == 0;
    assert StockWh(s1) == 0;
  }

  // ---------------------------------------------------------------------
  // The whole run

  /** Lines 77-134 on the normalised records. */
  function ReportFrom(records: seq<BranchRecord>, days: int): OrderReport {
    var act := ActiveRows(records);
    var peds := PedidosOf(act, days);
    OrderReport(TotalNet(Sum(peds), StockWh(records)), Requested(act, peds), WarehouseView(records))
  }

  /** Lines 39-134: a blank input, a table that does not parse or a frame
      that does not normalise stops the run with that error. */
  function ReportOf(text: string, days: int): Result<OrderReport>
    requires days >= 1
  {
    if IsBlank(text) then Err(EmptyInput)
    else
      match ParseTable(text)
      case Err(e) => Err(e)
      case Ok(t) =>
        match Normalize(t)
        case Err(e) => Err(e)
        case Ok(records) => Ok(ReportFrom(records, days))
  }

  /** Line 39: the empty-input error is raised exactly for blank text. */
  lemma ReportEmptyInput(text: string, days: int)
    requires days >= 1
    ensures ReportOf(text, days) == Err(EmptyInput) <==> IsBlank(text)
  {
    if !IsBlank(text) && ParseTable(text) == Err(EmptyInput) {
      ParseTableEmptyInput(text);
    }
  }

  /** What a successful run shows, in terms of the normalised records: the
      order lines of the active branches with a positive order, a net total
      that is the sum of those lines less the warehouses' clipped stock (never
      below 0), and the warehouse view whose clipped sum is that stock. */
  lemma ReportMeaning(text: string, days: int)
    requires days >= 1 && ReportOf(text, days).Ok?
    ensures ParseTable(text).Ok? && Normalize(ParseTable(text).value).Ok?
    ensures var records := Normalize(ParseTable(text).value).value;
            var rep := ReportOf(text, days).value;
            && rep.orders == OrdersOf(records, days)
            && rep.total == TotalNet(SumQuantities(rep.orders), StockWh(records))
            && rep.total >= 0
            && rep.warehouses == WarehouseView(records)
            && StockWh(records) == SumCounted(rep.warehouses)
            && StockWh(records) >= 0
  {
    var t := ParseTable(text).value;
    var records := Normalize(t).value;
    RequestedIsOrdersOf(records, days);
    OrderSumIsLineSum(records, days);
    NormalizeClipsStock(t);
    StockWhFromView(records);
    StockWhNonNegative(records);
  }

  /** The run as the script performs it: the frame is rewritten step by
      step, then the active frame's `Prom` and `Pedido` columns likewise. */
  method ComputeOrderReport(text: string, days: int) returns (r: Result<OrderReport>)
    requires days >= 1
    ensures r == ReportOf(text, days)
  {
    if IsBlank(text) {
      return Err(EmptyInput);
    }
    var parsed := ParseTable(text);
    if parsed.Err? {
      return Err(parsed.error);
    }
    var normalized := NormalizeTable(parsed.value);
    if normalized.Err? {
      return Err(normalized.error);
    }
    var records := normalized.value;
    var rows, pedido := OrderQuantities(records, days);
    var total := TotalNet(Sum(pedido), StockWh(records));
    r := Ok(OrderReport(total, Requested(rows, pedido), WarehouseView(records)));
  }
}
