/** The cash a refund pays back, from what the order's lines prove; anything unproven makes the answer none. */
module Refunds {
  import opened Wrappers
  import opened Sequences

  /** A value of the order as it arrived. */
  datatype Value = Undefined | Null | Whole(n: int) | Other

  datatype Amounts = NotAList | List(values: seq<Value>)

  /** `available` and `amounts` are none when the line has no such property. */
  datatype Line = Line(
    quantity: Value, refundQuantity: Value, refundedQty: Value, available: Option<Value>, amounts: Option<Amounts>,
    unitPrice: Value)

  predicate Safe(v: Value) {
    v.Whole? && -MAX_SAFE_INTEGER <= v.n <= MAX_SAFE_INTEGER
  }

  predicate Count(v: Value) {
    Safe(v) && v.n >= 0
  }

  // ---------------------------------------------------------------- units

  function AvailableUnits(line: Line): (r: Option<nat>)
    ensures r.Some? ==> r.value <= MAX_SAFE_INTEGER
  {
    if line.available.Some? then
      if Count(line.available.value) then Some(line.available.value.n) else None
    else
      var quantity := if line.refundQuantity.Undefined? || line.refundQuantity.Null? then line.quantity
          else line.refundQuantity;
      if !Count(quantity) || !Count(line.refundedQty) then None
      else if quantity.n >= line.refundedQty.n then Some(quantity.n - line.refundedQty.n)
      else Some(0)
  }

  // ---------------------------------------------------------------- one line's cash

  /** The amounts are whole, safe and never fall, from `previous` on. */
  predicate NeverFalls(values: seq<Value>, previous: int) {
    values == [] || (Safe(values[0]) && values[0].n >= previous && NeverFalls(values[1..], values[0].n))
  }

  function CashFor(line: Line, quantity: Value): Option<int> {
    var available := AvailableUnits(line);
    if available == None || !Safe(quantity) || quantity.n < 1 || quantity.n > available.value then None
    else if line.amounts.Some? then
      var amounts := line.amounts.value;
      if !amounts.List? || |amounts.values| != available.value || !NeverFalls(amounts.values, 0) then None
      else
        var amount := amounts.values[quantity.n - 1];
        if amount.Whole? then Some(amount.n) else None
    else if !Count(line.unitPrice) then None
    else
      var amount := line.unitPrice.n * quantity.n;
      if amount <= MAX_SAFE_INTEGER then Some(amount) else None
  }

  method RefundCashForQuantity(line: Line, quantity: Value) returns (cash: Option<int>)
    ensures cash == CashFor(line, quantity)
  {
    var available := AvailableUnits(line);
    if available == None || !Safe(quantity) || quantity.n < 1 || quantity.n > available.value { return None; }
    if line.amounts.Some? {
      var amounts := line.amounts.value;
      if !amounts.List? || |amounts.values| != available.value { return None; }
      var previous := 0;
      for i := 0 to |amounts.values|
        invariant NeverFalls(amounts.values, 0) == NeverFalls(amounts.values[i..], previous)
      {
        var amount := amounts.values[i];
        if !Safe(amount) || amount.n < previous { return None; }
        previous := amount.n;
      }
      NeverFallsAt(amounts.values, 0, quantity.n - 1);
      return Some(amounts.values[quantity.n - 1].n);
    }
    if !Count(line.unitPrice) { return None; }
    var amount := line.unitPrice.n * quantity.n;
    assert amount >= 0;
    return if amount <= MAX_SAFE_INTEGER then Some(amount) else None;
  }

  lemma {:induction false} NeverFallsAt(values: seq<Value>, previous: int, i: nat)
    requires NeverFalls(values, previous) && i < |values|
    ensures Safe(values[i]) && values[i].n >= previous
    ensures forall j :: i <= j < |values| ==> Safe(values[j]) && values[j].n >= values[i].n
  {
    if i > 0 {
      NeverFallsAt(values[1..], values[0].n, i - 1);
      assert forall j :: i <= j < |values| ==> values[j] == values[1..][j - 1];
    } else {
      forall j | 0 < j < |values| ensures Safe(values[j]) && values[j].n >= values[0].n {
        NeverFallsAt(values[1..], values[0].n, j - 1);
        assert values[j] == values[1..][j - 1];
      }
    }
  }

  lemma CashInRange(line: Line, quantity: Value)
    ensures CashFor(line, quantity).Some? ==> 0 <= CashFor(line, quantity).value <= MAX_SAFE_INTEGER
  {
    if CashFor(line, quantity).Some? && line.amounts.Some? {
      NeverFallsAt(line.amounts.value.values, 0, quantity.n - 1);
    }
  }

  lemma Product(price: nat, fewer: nat, more: nat)
    requires fewer <= more
    ensures price * fewer <= price * more
  {
  }

  /** Proven cash for some units proves the cash of fewer, which is never more. */
  lemma CashGrowsWithQuantity(line: Line, fewer: int, more: int)
    requires 1 <= fewer <= more && CashFor(line, Whole(more)).Some?
    ensures CashFor(line, Whole(fewer)).Some? && CashFor(line, Whole(fewer)).value <= CashFor(line, Whole(more)).value
  {
    if line.amounts.Some? {
      NeverFallsAt(line.amounts.value.values, 0, fewer - 1);
    } else {
      Product(line.unitPrice.n, fewer, more);
    }
  }

  // ---------------------------------------------------------------- what proves a line's cash

  /** The units a line has left: those it says, or the quantity for refunds less what was refunded, never below zero. */
  predicate UnitsLeft(line: Line, n: int) {
    if line.available.Some? then Count(line.available.value) && n == line.available.value.n
    else
      var quantity := if line.refundQuantity in {Undefined, Null} then line.quantity else line.refundQuantity;
      && Count(quantity) && Count(line.refundedQty)
      && n >= 0 && n >= quantity.n - line.refundedQty.n && (n == 0 || n == quantity.n - line.refundedQty.n)
  }

  lemma UnitsMean(line: Line, n: int)
    ensures UnitsLeft(line, n) <==> AvailableUnits(line).Some? && AvailableUnits(line).value == n
  {
  }

  /** One safe amount for each unit count, from zero up, each at least the one before. */
  predicate Amounting(values: seq<Value>) {
    && (forall i :: 0 <= i < |values| ==> Count(values[i]))
    && (forall i, j :: 0 <= i < j < |values| ==> values[i].n <= values[j].n)
  }

  lemma {:induction false} NeverFallsMeans(values: seq<Value>, previous: int)
    requires previous >= 0
    ensures NeverFalls(values, previous) <==> Amounting(values) && (values != [] ==> values[0].n >= previous)
  {
    if values != [] {
      if Safe(values[0]) && values[0].n >= previous { NeverFallsMeans(values[1..], values[0].n); }
      if NeverFalls(values, previous) {
        forall i | 0 <= i < |values| ensures Count(values[i]) { NeverFallsAt(values, previous, i); }
        forall i, j | 0 <= i < j < |values| ensures values[i].n <= values[j].n { NeverFallsAt(values, previous, i); }
      }
    }
  }

  /** What proves the cash of some units: as many amounts as there are units left, or a price whose product is safe. */
  predicate Proves(line: Line, left: int, quantity: int, cash: int) {
    match line.amounts
    case Some(List(values)) =>
      |values| == left && Amounting(values) && 1 <= quantity <= left && cash == values[quantity - 1].n
    case Some(NotAList) => false
    case None => Count(line.unitPrice) && cash == line.unitPrice.n * quantity && cash <= MAX_SAFE_INTEGER
  }

  /** Cash is proven for a quantity exactly when that many units are left and the amounts or the price prove it. */
  lemma CashMeans(line: Line, quantity: int, cash: int)
    ensures
      CashFor(line, Whole(quantity)) == Some(cash) <==>
        quantity >= 1 && exists left :: UnitsLeft(line, left) && quantity <= left && Proves(line, left, quantity, cash)
  {
    var available := AvailableUnits(line);
    forall left: int | UnitsLeft(line, left) ensures available.Some? && available.value == left {
      UnitsMean(line, left);
    }
    if available.Some? {
      UnitsMean(line, available.value);
      if line.amounts.Some? && line.amounts.value.List? {
        NeverFallsMeans(line.amounts.value.values, 0);
      }
    }
  }

  /** With no list of amounts, units are worth their price one by one. */
  lemma CashAdds(line: Line, a: int, b: int)
    requires line.amounts == None && a >= 1 && b >= 1 && CashFor(line, Whole(a + b)).Some?
    ensures CashFor(line, Whole(a)).Some? && CashFor(line, Whole(b)).Some?
    ensures CashFor(line, Whole(a + b)).value == CashFor(line, Whole(a)).value + CashFor(line, Whole(b)).value
    ensures CashFor(line, Whole(1)) == Some(line.unitPrice.n)
  {
    CashGrowsWithQuantity(line, a, a + b);
    CashGrowsWithQuantity(line, b, a + b);
    CashGrowsWithQuantity(line, 1, a + b);
    assert line.unitPrice.n * (a + b) == line.unitPrice.n * a + line.unitPrice.n * b;
  }

  // ---------------------------------------------------------------- all remaining lines

  /** A line's part: nothing when no unit is left, provided its list of amounts, if any, is empty too. */
  function LineCash(line: Line): Option<int> {
    var available := AvailableUnits(line);
    if available == None then None
    else if available.value == 0 then
      if line.amounts.Some? && line.amounts.value != List([]) then None else Some(0)
    else CashFor(line, Whole(available.value))
  }

  /** A line's part: the cash of all units left, or nothing when none is left and no amount says otherwise. */
  lemma LineCashMeans(line: Line, cash: int)
    ensures
      LineCash(line) == Some(cash) <==>
        || (UnitsLeft(line, 0) && cash == 0 && line.amounts in {None, Some(List([]))})
        || (exists left :: left >= 1 && UnitsLeft(line, left) && CashFor(line, Whole(left)) == Some(cash))
  {
    var available := AvailableUnits(line);
    forall left: int | UnitsLeft(line, left) ensures available.Some? && available.value == left {
      UnitsMean(line, left);
    }
    if available.Some? { UnitsMean(line, available.value); }
  }

  function RemainingFrom(total: int, lines: seq<Line>): Option<int>
    decreases |lines|
  {
    if lines == [] then Some(total)
    else
      var cash := LineCash(lines[0]);
      if cash == None || !Safe(Whole(total + cash.value)) then None else RemainingFrom(total + cash.value, lines[1..])
  }

  /** The body of the loop: current API proof failures also report no availability, so even then the list is checked. */
  method RemainingLineCash(line: Line) returns (cash: Option<int>)
    ensures cash == LineCash(line)
  {
    var available := AvailableUnits(line);
    if available == None { return None; }
    if available.value == 0 {
      var proven := line.amounts == None || line.amounts.value == List([]);
      return if proven then Some(0) else None;
    }
    cash := RefundCashForQuantity(line, Whole(available.value));
  }

  method RefundCashForRemainingLines(lines: seq<Line>) returns (total: Option<int>)
    ensures total == Remaining(lines)
  {
    var sum := 0;
    RemainingMeans(0, lines);
    for i := 0 to |lines|
      invariant 0 <= sum <= MAX_SAFE_INTEGER
      invariant RemainingFrom(0, lines) == RemainingFrom(sum, lines[i..])
    {
      var amount := RemainingLineCash(lines[i]);
      if amount == None || !Safe(Whole(sum + amount.value)) { return None; }
      LineCashInRange(lines[i]);
      sum := sum + amount.value;
    }
    return Some(sum);
  }

  // ---------------------------------------------------------------- the sum

  predicate AllProven(lines: seq<Line>) {
    forall i :: 0 <= i < |lines| ==> LineCash(lines[i]).Some?
  }

  function ProvenCash(line: Line): int {
    if LineCash(line).Some? then LineCash(line).value else 0
  }

  function Sum(lines: seq<Line>): int {
    SumOf(lines, ProvenCash)
  }

  /** The sum of every line's cash, when all are proven and the sum is a safe integer. */
  function Remaining(lines: seq<Line>): Option<int> {
    if AllProven(lines) && Sum(lines) <= MAX_SAFE_INTEGER then Some(Sum(lines)) else None
  }

  lemma LineCashInRange(line: Line)
    ensures LineCash(line).Some? ==> 0 <= LineCash(line).value <= MAX_SAFE_INTEGER
  {
    var available := AvailableUnits(line);
    if available.Some? { CashInRange(line, Whole(available.value)); }
  }

  lemma {:induction false} SumIsNotNegative(lines: seq<Line>)
    ensures Sum(lines) >= 0
  {
    if lines != [] {
      LineCashInRange(lines[0]);
      SumIsNotNegative(lines[1..]);
    }
  }

  /** Adding line by line, with a check at each, gives the sum exactly when all lines are proven and the sum is safe. */
  lemma {:induction false} RemainingMeans(total: int, lines: seq<Line>)
    requires 0 <= total <= MAX_SAFE_INTEGER
    ensures RemainingFrom(total, lines).Some? <==> AllProven(lines) && total + Sum(lines) <= MAX_SAFE_INTEGER
    ensures RemainingFrom(total, lines).Some? ==> RemainingFrom(total, lines).value == total + Sum(lines)
    decreases |lines|
  {
    if lines != [] {
      LineCashInRange(lines[0]);
      SumIsNotNegative(lines[1..]);
      assert AllProven(lines) <==> LineCash(lines[0]).Some? && AllProven(lines[1..]) by {
        assert forall i :: 0 < i < |lines| ==> lines[i] == lines[1..][i - 1];
      }
      var cash := LineCash(lines[0]);
      if cash.Some? && total + cash.value <= MAX_SAFE_INTEGER { RemainingMeans(total + cash.value, lines[1..]); }
    }
  }

  /** The refund does not depend on the order of the lines. */
  lemma RemainingIgnoresOrder(a: seq<Line>, b: seq<Line>)
    requires multiset(a) == multiset(b)
    ensures Remaining(a) == Remaining(b)
  {
    SumIgnoresOrder(a, b, ProvenCash);
    if AllProven(a) { ProvenInAnyOrder(a, b); }
    if AllProven(b) { ProvenInAnyOrder(b, a); }
  }

  lemma ProvenInAnyOrder(a: seq<Line>, b: seq<Line>)
    requires multiset(a) == multiset(b) && AllProven(a)
    ensures AllProven(b)
  {
    forall i | 0 <= i < |b| ensures LineCash(b[i]).Some? {
      assert b[i] in multiset(a);
      var j :| 0 <= j < |a| && a[j] == b[i];
    }
  }
}
