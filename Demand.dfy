/** Lines 75-101: the active-branch filter, the three demand regimes and the
    order quantity. `Prom` is a multiple of 1/4 in every regime, so the model
    keeps `4·Prom` as an integer ("quarters") and rounds from there; a
    real-valued reading of the same lines is given beside it and shown to
    agree. */
module Demand {
  import opened Numerals
  import opened Normalizer

  // ---------------------------------------------------------------------
  // Active branches and warehouses (lines 75-76)

  /** `f"{i:04d}"` for a natural number. */
  function Pad4(i: nat): string { ZFill4(ShowNat(i)) }

  /** The numbers line 75 keeps: 1 to 27 except 10 and 20. */
  predicate IsActiveNumber(i: int) { 1 <= i < 28 && i != 10 && i != 20 }

  /** `[f"{i:04d}" for i in range(from, 28) if i not in (10, 20)]`. */
  function ActiveFrom(from: nat): seq<string>
    decreases 28 - from
  {
    if from >= 28 then []
    else if from == 10 || from == 20 then ActiveFrom(from + 1)
    else [Pad4(from)] + ActiveFrom(from + 1)
  }

  /** Line 75. */
  function ActiveIds(): seq<string> { ActiveFrom(1) }

  /** Line 76. */
  const Warehouses: seq<string> := ["0100", "0105", "0106"]

  predicate IsActive(id: string) { id in ActiveIds() }

  predicate IsWarehouse(id: string) { id in Warehouses }

  /** A two-digit number pads to four digits spelling the same number. */
  lemma Pad4Shape(i: nat)
    requires i < 100
    ensures |Pad4(i)| == 4 && AllDigits(Pad4(i)) && DigitsValue(Pad4(i)) == i
  {
    var s := ShowNat(i);
    if i >= 10 {
      assert |ShowNat(i / 10)| == 1;
    }
    assert |s| <= 2;
    DigitsValueOfShowNat(i);
    DigitsValueLeadingZeros(Zeros(4 - |s|), s);
    assert Pad4(i) == Zeros(4 - |s|) + s;
  }

  /** A four-digit string is the padding of the number it spells, and of no other. */
  lemma Pad4Exactly(i: nat, id: string)
    requires i < 100
    ensures id == Pad4(i) <==> |id| == 4 && AllDigits(id) && DigitsValue(id) == i
  {
    Pad4Shape(i);
    if |id| == 4 && AllDigits(id) && DigitsValue(id) == i {
      DigitsValueInjective(id, Pad4(i));
    }
  }

  predicate IsFourDigits(id: string) { |id| == 4 && AllDigits(id) }

  lemma {:induction false} ActiveFromMembers(from: nat, id: string)
    requires from >= 1
    ensures id in ActiveFrom(from) <==>
              IsFourDigits(id) && from <= DigitsValue(id) && IsActiveNumber(DigitsValue(id))
    decreases 28 - from
  {
    if from < 28 {
      ActiveFromMembers(from + 1, id);
      if from != 10 && from != 20 {
        Pad4Exactly(from, id);
        assert ActiveFrom(from) == [Pad4(from)] + ActiveFrom(from + 1);
      }
    }
  }

  /** The active ids are exactly the four-digit strings spelling 1 to 27,
      except 10 and 20. */
  lemma ActiveIdsExactly(id: string)
    ensures IsActive(id) <==> IsFourDigits(id) && IsActiveNumber(DigitsValue(id))
  {
    ActiveFromMembers(1, id);
  }

  lemma {:induction false} ActiveFromLength(from: nat)
    requires 1 <= from <= 28
    ensures |ActiveFrom(from)| == 28 - from - (if from <= 10 then 1 else 0) - (if from <= 20 then 1 else 0)
    decreases 28 - from
  {
    if from < 28 {
      ActiveFromLength(from + 1);
      ActiveFromStep(from);
      var n, m := |ActiveFrom(from)|, |ActiveFrom(from + 1)|;
      var skip := if from == 10 || from == 20 then 0 else 1;
      assert n == skip + m;
      assert m == 27 - from - (if from + 1 <= 10 then 1 else 0) - (if from + 1 <= 20 then 1 else 0);
    }
  }

  lemma ActiveFromStep(from: nat)
    requires from < 28
    ensures |ActiveFrom(from)| == (if from == 10 || from == 20 then 0 else 1) + |ActiveFrom(from + 1)|
  {
  }

  /** Line 75 lists 25 branches. */
  lemma ActiveIdsCount()
    ensures |ActiveIds()| == 25
  {
    ActiveFromLength(1);
  }

  /** The value of a four-digit string, digit by digit. */
  lemma FourDigitsValue(s: string)
    requires IsFourDigits(s)
    ensures DigitsValue(s) ==
              DigitValue(s[0]) * 1000 + DigitValue(s[1]) * 100 + DigitValue(s[2]) * 10 + DigitValue(s[3])
  {
    var p3, p2, p1 := s[..3], s[..2], s[..1];
    assert p3[..2] == p2 && p2[..1] == p1 && p1[..0] == [];
    assert p3[2] == s[2] && p2[1] == s[1] && p1[0] == s[0];
    assert DigitsValue(p1) == DigitValue(s[0]);
    assert DigitsValue(p2) == DigitValue(s[0]) * 10 + DigitValue(s[1]);
    assert DigitsValue(p3) == DigitsValue(p2) * 10 + DigitValue(s[2]);
  }

  /** No warehouse and neither of the skipped ids 0010 and 0020 is active. */
  lemma ExcludedIdsNotActive(id: string)
    requires IsWarehouse(id) || id == "0010" || id == "0020"
    ensures !IsActive(id)
  {
    ActiveIdsExactly(id);
    FourDigitsValue(id);
  }

  /** Line 77: the records of active branches, each as often as in the
      input; `ActiveRowsAppend` adds that they keep their order. */
  function ActiveRows(records: seq<BranchRecord>): (out: seq<BranchRecord>)
    ensures |out| <= |records|
    ensures forall r :: r in out ==> r in records && IsActive(r.id)
    ensures forall r :: r in records && IsActive(r.id) ==> r in out
    ensures forall r :: multiset(out)[r] == if IsActive(r.id) then multiset(records)[r] else 0
  {
    if records == [] then []
    else
      assert records == [records[0]] + records[1..];
      if IsActive(records[0].id) then [records[0]] + ActiveRows(records[1..])
      else ActiveRows(records[1..])
  }

  /** The filter works record by record: on a concatenation it is the
      concatenation of the two filters, so the kept records stay in input
      order. */
  lemma {:induction false} ActiveRowsAppend(a: seq<BranchRecord>, b: seq<BranchRecord>)
    ensures ActiveRows(a + b) == ActiveRows(a) + ActiveRows(b)
  {
    if a != [] {
      assert (a + b)[1..] == a[1..] + b;
      assert (a + b)[0] == a[0];
      ActiveRowsAppend(a[1..], b);
    } else {
      assert a + b == b;
    }
  }

  lemma ActiveRowsOne(r: BranchRecord)
    ensures ActiveRows([r]) == if IsActive(r.id) then [r] else []
  {
    assert [r][1..] == [];
  }

  // ---------------------------------------------------------------------
  // The regime masks (lines 80-82)

  /** Row sum of `1T`..`4T`. */
  function SumT(r: BranchRecord): int { r.t1 + r.t2 + r.t3 + r.t4 }

  /** Line 80: a forecast but no history. */
  predicate NoHistory(r: BranchRecord) { r.vf > 0 && SumT(r) == 0 }

  /** Line 81: a forecast and some history. */
  predicate WithHistory(r: BranchRecord) { r.vf > 0 && !NoHistory(r) }

  /** Line 82: no forecast. */
  predicate NoForecast(r: BranchRecord) { r.vf == 0 }

  /** The masks are pairwise disjoint and cover exactly the records whose
      forecast is not negative. */
  lemma MasksPartition(r: BranchRecord)
    ensures !(NoHistory(r) && WithHistory(r)) && !(NoHistory(r) && NoForecast(r))
    ensures !(WithHistory(r) && NoForecast(r))
    ensures NoHistory(r) || WithHistory(r) || NoForecast(r) <==> r.vf >= 0
    ensures WithHistory(r) <==> r.vf > 0 && SumT(r) != 0
  {
  }

  // ---------------------------------------------------------------------
  // Prom in quarters (lines 85-98)

  /** `ceil(x / 2)` for an integer `x`. */
  function CeilHalf(x: int): (c: int)
    ensures 2 * c - 1 <= x <= 2 * c
  {
    (x + 1) / 2
  }

  /** Line 88 on one row, in quarters: `Prom` becomes 1. */
  function PromNoHistory(r: BranchRecord, p: int): int {
    if NoHistory(r) then 4 else p
  }

  /** Lines 91-92 on one row, in quarters: the mean of the four periods
      (a quarter of their sum), or 1 when the mean is below 1. */
  function PromWithHistory(r: BranchRecord, p: int): int {
    if WithHistory(r) then (if SumT(r) >= 4 then SumT(r) else 4) else p
  }

  /** Lines 95-98 on one row, in quarters: half the two sales figures,
      rounded up, times `days`. */
  function PromNoForecast(r: BranchRecord, days: int, p: int): int {
    if NoForecast(r) then 4 * CeilHalf(r.v30d + r.v60d) * days else p
  }

  /** `4·Prom` after lines 85-98: start at 0, then overwrite mask by mask. */
  function PromQuarters(r: BranchRecord, days: int): (q: int)
    ensures NoHistory(r) ==> q == 4
    ensures WithHistory(r) ==> q == if SumT(r) >= 4 then SumT(r) else 4
    ensures NoForecast(r) ==> q == 4 * CeilHalf(r.v30d + r.v60d) * days
    ensures r.vf < 0 ==> q == 0
  {
    PromNoForecast(r, days, PromWithHistory(r, PromNoHistory(r, 0)))
  }

  // ---------------------------------------------------------------------
  // Pedido (line 101)

  /** numpy's `round` of `q / 4`: to the nearest integer, halves to even. */
  function RoundQuarters(q: nat): (n: nat)
    ensures 4 * n - 2 <= q <= 4 * n + 2
    ensures q % 4 == 2 ==> n % 2 == 0
    ensures q % 4 == 0 ==> 4 * n == q
  {
    var a, b := q / 4, q % 4;
    if b < 2 then a
    else if b > 2 then a + 1
    else if a % 2 == 0 then a else a + 1
  }

  /** `(Prom - Exi).clip(lower=0).round()` with `Prom` in quarters. */
  function Pedido(prom4: int, exi: int): (n: nat)
    ensures prom4 <= 4 * exi ==> n == 0
    ensures prom4 > 4 * exi ==> 4 * n - 2 <= prom4 - 4 * exi <= 4 * n + 2
    ensures (prom4 - 4 * exi) % 4 == 2 ==> n % 2 == 0
  {
    var d := prom4 - 4 * exi;
    RoundQuarters(if d < 0 then 0 else d)
  }

  /** The order quantity of one active record. */
  function PedidoOf(r: BranchRecord, days: int): nat {
    Pedido(PromQuarters(r, days), r.exi)
  }

  /** 10 and 11 units sold, no forecast, three days, five in stock: Prom is
      ceil(21 / 2)·3 = 33 and the order is 28. */
  lemma ScenarioNoForecast(r: BranchRecord)
    requires r.v30d == 10 && r.v60d == 11 && r.vf == 0 && r.exi == 5
    ensures PromQuarters(r, 3) == 4 * 33
    ensures PedidoOf(r, 3) == 28
  {
    assert CeilHalf(21) == 11;
  }

  /** Periods 2, 3, 1 and 0 with a forecast: Prom is the mean 1.5, not
      floored to 1; both halves round to the even neighbour, so 1.5 orders 2
      and 0.5 orders nothing. */
  lemma ScenarioWithHistory(r: BranchRecord)
    requires r.t1 == 2 && r.t2 == 3 && r.t3 == 1 && r.t4 == 0 && r.vf > 0
    ensures PromQuarters(r, 3) == 6
    ensures r.exi == 0 ==> PedidoOf(r, 3) == 2
    ensures r.exi == 1 ==> PedidoOf(r, 3) == 0
  {
  }

  /** With `Prom = 1` the order is 1 on an empty shelf and 0 otherwise. */
  lemma ScenarioNoHistory(r: BranchRecord, days: int)
    requires NoHistory(r) && r.exi >= 0
    ensures PedidoOf(r, days) == if r.exi == 0 then 1 else 0
  {
  }

  // ---------------------------------------------------------------------
  // The same lines over the reals

  /** `np.ceil`. */
  function CeilReal(x: real): (c: int)
    ensures c as real - 1.0 < x <= c as real
  {
    if x.Floor as real == x then x.Floor else x.Floor + 1
  }

  /** numpy's `round` to an integer: halves go to the even neighbour. */
  function RoundHalfEven(x: real): (n: int)
    ensures n as real - 0.5 <= x <= n as real + 0.5
    ensures n == x.Floor || n == x.Floor + 1
    ensures x - x.Floor as real == 0.5 ==> n % 2 == 0
  {
    var f := x.Floor;
    var d := x - f as real;
    if d < 0.5 then f
    else if d > 0.5 then f + 1
    else if f % 2 == 0 then f else f + 1
  }

  /** Line 91: the row mean of `1T`..`4T`. */
  function MeanT(r: BranchRecord): real {
    (r.t1 + r.t2 + r.t3 + r.t4) as real / 4.0
  }

  /** `Prom` after lines 85-98, overwrite by overwrite, over the reals. */
  function PromReal(r: BranchRecord, days: int): real {
    var p0 := 0.0;
    var p1 := if NoHistory(r) then 1.0 else p0;
    var base := MeanT(r);
    var p2 := if WithHistory(r) then (if base >= 1.0 then base else 1.0) else p1;
    if NoForecast(r)
    then CeilReal((r.v30d + r.v60d) as real / 2.0) as real * days as real
    else p2
  }

  /** Line 101 over the reals. */
  function PedidoReal(r: BranchRecord, days: int): (n: int)
    ensures n >= 0
  {
    var d := PromReal(r, days) - r.exi as real;
    RoundHalfEven(if d < 0.0 then 0.0 else d)
  }

  lemma CeilHalfIsCeil(x: int)
    ensures CeilReal(x as real / 2.0) == CeilHalf(x)
  {
    var c := CeilHalf(x);
    var y := CeilReal(x as real / 2.0);
    assert (2 * y) as real - 2.0 < x as real <= (2 * y) as real;
  }

  lemma RoundQuartersIsRound(q: nat)
    ensures RoundHalfEven(q as real / 4.0) == RoundQuarters(q)
  {
    var a, b := q / 4, q % 4;
    assert q == 4 * a + b;
    var x := q as real / 4.0;
    assert x == a as real + b as real / 4.0;
    assert x.Floor == a;
  }

  /** The quarter model is four times the real-valued `Prom`. */
  lemma PromMatchesReal(r: BranchRecord, days: int)
    ensures PromQuarters(r, days) as real == 4.0 * PromReal(r, days)
  {
    MasksPartition(r);
    if NoForecast(r) {
      CeilHalfIsCeil(r.v30d + r.v60d);
    }
  }

  /** The quarter model orders what the real-valued reading orders. */
  lemma PedidoMatchesReal(r: BranchRecord, days: int)
    ensures PedidoOf(r, days) == PedidoReal(r, days)
  {
    PromMatchesReal(r, days);
    var d := PromQuarters(r, days) - 4 * r.exi;
    var q: nat := if d < 0 then 0 else d;
    RoundQuartersIsRound(q);
    var dr := PromReal(r, days) - r.exi as real;
    assert dr == d as real / 4.0;
    assert (if dr < 0.0 then 0.0 else dr) == q as real / 4.0;
  }

  // ---------------------------------------------------------------------
  // The active frame, rewritten in place (lines 77-101)

  /** `df_act`: the active records with their `Prom` column (in quarters)
      and, once computed, their `Pedido` column. */
  class ActiveFrame {
    const rows: seq<BranchRecord>
    var prom: seq<int>
    var pedido: seq<int>

    ghost predicate Valid()
      reads this
    {
      |prom| == |rows|
    }

    /** Lines 77 and 85: the active rows, `Prom` at 0, no `Pedido` yet. */
    constructor (records: seq<BranchRecord>)
      ensures Valid() && rows == ActiveRows(records) && pedido == []
      ensures forall i :: 0 <= i < |prom| ==> prom[i] == 0
    {
      rows := ActiveRows(records);
      prom := seq(|ActiveRows(records)|, i => 0);
      pedido := [];
    }

    /** Line 88. */
    method MarkNoHistory()
      requires Valid()
      modifies this
      ensures Valid() && pedido == old(pedido)
      ensures forall i :: 0 <= i < |rows| ==> prom[i] == PromNoHistory(rows[i], old(prom)[i])
    {
      var i := 0;
      while i < |rows|
        invariant 0 <= i <= |rows| == |prom| && pedido == old(pedido)
        invariant forall j :: 0 <= j < |rows| ==>
                    prom[j] == if j < i then PromNoHistory(rows[j], old(prom)[j]) else old(prom)[j]
      {
        if NoHistory(rows[i]) {
          prom := prom[i := 4];
        }
        i := i + 1;
      }
    }

    /** Lines 91-92. */
    method MarkWithHistory()
      requires Valid()
      modifies this
      ensures Valid() && pedido == old(pedido)
      ensures forall i :: 0 <= i < |rows| ==> prom[i] == PromWithHistory(rows[i], old(prom)[i])
    {
      var i := 0;
      while i < |rows|
        invariant 0 <= i <= |rows| == |prom| && pedido == old(pedido)
        invariant forall j :: 0 <= j < |rows| ==>
                    prom[j] == if j < i then PromWithHistory(rows[j], old(prom)[j]) else old(prom)[j]
      {
        if WithHistory(rows[i]) {
          var s := SumT(rows[i]);
          prom := prom[i := if s >= 4 then s else 4];
        }
        i := i + 1;
      }
    }

    /** Lines 95-98. */
    method MarkNoForecast(days: int)
      requires Valid()
      modifies this
      ensures Valid() && pedido == old(pedido)
      ensures forall i :: 0 <= i < |rows| ==> prom[i] == PromNoForecast(rows[i], days, old(prom)[i])
    {
      var i := 0;
      while i < |rows|
        invariant 0 <= i <= |rows| == |prom| && pedido == old(pedido)
        invariant forall j :: 0 <= j < |rows| ==>
                    prom[j] == if j < i then PromNoForecast(rows[j], days, old(prom)[j]) else old(prom)[j]
      {
        if NoForecast(rows[i]) {
          prom := prom[i := 4 * CeilHalf(rows[i].v30d + rows[i].v60d) * days];
        }
        i := i + 1;
      }
    }

    /** Line 101: one order quantity per row. */
    method ComputePedido()
      requires Valid()
      modifies this
      ensures Valid() && prom == old(prom)
      ensures |pedido| == |rows| && forall i :: 0 <= i < |rows| ==> pedido[i] == Pedido(prom[i], rows[i].exi)
    {
      var out: seq<int> := [];
      var i := 0;
      while i < |rows|
        invariant 0 <= i <= |rows| && |out| == i
        invariant forall j :: 0 <= j < i ==> out[j] == Pedido(prom[j], rows[j].exi)
      {
        out := out + [Pedido(prom[i], rows[i].exi)];
        i := i + 1;
      }
      pedido := out;
    }
  }

  /** Lines 85-101 in order leave every row's `Prom` and `Pedido` as the
      per-record functions give them. */
  lemma MarksComposeToProm(rows: seq<BranchRecord>, p0: seq<int>, p1: seq<int>, p2: seq<int>,
                           p3: seq<int>, days: int)
    requires |p0| == |p1| == |p2| == |p3| == |rows|
    requires forall i :: 0 <= i < |rows| ==> p0[i] == 0
    requires forall i :: 0 <= i < |rows| ==> p1[i] == PromNoHistory(rows[i], p0[i])
    requires forall i :: 0 <= i < |rows| ==> p2[i] == PromWithHistory(rows[i], p1[i])
    requires forall i :: 0 <= i < |rows| ==> p3[i] == PromNoForecast(rows[i], days, p2[i])
    ensures forall i :: 0 <= i < |rows| ==> p3[i] == PromQuarters(rows[i], days)
  {
  }
  lemma PedidosMatchReal(rows: seq<BranchRecord>, days: int)
    ensures forall i :: 0 <= i < |rows| ==> PedidoOf(rows[i], days) == PedidoReal(rows[i], days)
  {
    forall i | 0 <= i < |rows| ensures PedidoOf(rows[i], days) == PedidoReal(rows[i], days) {
      PedidoMatchesReal(rows[i], days);
    }
  }

  /** Line 101 for every active row: the order the real-valued reading of
      the script gives, and never negative. */
  function PedidosOf(rows: seq<BranchRecord>, days: int): (ps: seq<int>)
    ensures |ps| == |rows| && forall i :: 0 <= i < |rows| ==> ps[i] == PedidoReal(rows[i], days) >= 0
  {
    PedidosMatchReal(rows, days);
    seq(|rows|, i requires 0 <= i < |rows| => PedidoOf(rows[i], days))
  }

  /** Lines 77-101 on the active frame, one statement at a time. */
  method OrderQuantities(records: seq<BranchRecord>, days: int) returns (rows: seq<BranchRecord>, pedido: seq<int>)
    ensures rows == ActiveRows(records)
    ensures pedido == PedidosOf(rows, days)
  {
    var act := new ActiveFrame(records);
    ghost var p0 := act.prom;
    act.MarkNoHistory();
    ghost var p1 := act.prom;
    act.MarkWithHistory();
    ghost var p2 := act.prom;
    act.MarkNoForecast(days);
    ghost var p3 := act.prom;
    MarksComposeToProm(act.rows, p0, p1, p2, p3, days);
    act.ComputePedido();
    rows, pedido := act.rows, act.pedido;
  }
}
