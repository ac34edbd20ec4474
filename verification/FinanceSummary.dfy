/**
 The finance summary aggregates the same charges twice: once into totals, once into one balance per
 resident. Both are accumulated in loops; the proof ties them together column by column.
 */
module FinanceSummary {
  import opened Wrappers
  import opened Money
  import opened EstateLedger
  import opened Sequences

  /** A charge as findMany returns it. */
  datatype Entry = Entry(id: string, charge: Charge)

  /** A decorated charge. */
  datatype Line = Line(id: string, residentId: Option<string>, status: Status,
                       amount: real, paidAmount: real, outstandingAmount: real, isInArrears: bool)

  /** A charge without a resident gets a balance of its own. */
  datatype Key = Resident(id: string) | Unassigned(chargeId: string)

  /** The columns that totals and balances share. */
  datatype Sums = Sums(billed: real, paid: real, outstanding: real, overdue: real, charges: nat)

  datatype Balance = Balance(key: Key, sums: Sums)
  datatype Summary = Summary(totals: Sums, residentsInArrears: nat, balances: seq<Balance>)

  const ZERO := Sums(0.0, 0.0, 0.0, 0.0, 0)

  function Plus(a: Sums, b: Sums): Sums {
    Sums(a.billed + b.billed, a.paid + b.paid, a.outstanding + b.outstanding, a.overdue + b.overdue,
         a.charges + b.charges)
  }

  function Rounded(a: Sums): Sums {
    Sums(Round2(a.billed), Round2(a.paid), Round2(a.outstanding), Round2(a.overdue), a.charges)
  }

  function Decorated(e: Entry, now: int): Line {
    var c := e.charge;
    var paid := Round2(Sum(c.payments));
    var outstanding := Max(Round2(c.amount - paid), 0.0);
    var status := Derived(c.amount, paid, c.dueDate, c.status, now);
    Line(e.id, c.residentId, status, c.amount, paid, outstanding, status == Overdue && outstanding > 0.0)
  }

  function Active(entries: seq<Entry>, now: int): seq<Line> {
    if entries == [] then []
    else
      var line := Decorated(entries[|entries| - 1], now);
      Active(entries[..|entries| - 1], now) + if line.status != Void then [line] else []
  }

  function KeyOf(l: Line): Key { if l.residentId.Some? then Resident(l.residentId.value) else Unassigned(l.id) }

  function Of(l: Line): Sums {
    Sums(l.amount, l.paidAmount, l.outstandingAmount, if l.isInArrears then l.outstandingAmount else 0.0, 1)
  }

  // ---- the specification: every cell is a sum over the lines ----

  function Total(lines: seq<Line>): Sums {
    if lines == [] then ZERO else Plus(Total(lines[..|lines| - 1]), Of(lines[|lines| - 1]))
  }

  function TotalFor(lines: seq<Line>, key: Key): Sums {
    if lines == [] then ZERO
    else
      var rest := TotalFor(lines[..|lines| - 1], key);
      if KeyOf(lines[|lines| - 1]) == key then Plus(rest, Of(lines[|lines| - 1])) else rest
  }

  /** The keys in order of first appearance. */
  function Keys(lines: seq<Line>): seq<Key> {
    if lines == [] then []
    else
      var rest, key := Keys(lines[..|lines| - 1]), KeyOf(lines[|lines| - 1]);
      if key in rest then rest else rest + [key]
  }

  function ArrearsResidents(lines: seq<Line>): set<string> {
    set l | l in lines && l.isInArrears && l.residentId.Some? :: l.residentId.value
  }

  function Balances(keys: seq<Key>, lines: seq<Line>): seq<Balance> {
    seq(|keys|, i requires 0 <= i < |keys| => Balance(keys[i], Rounded(TotalFor(lines, keys[i]))))
  }

  function SummaryOf(entries: seq<Entry>, now: int): Summary {
    var lines := Active(entries, now);
    Summary(Rounded(Total(lines)), |ArrearsResidents(lines)|, Balances(Keys(lines), lines))
  }

  // ---- the loops ----

  method GetFinanceSummary(entries: seq<Entry>, now: int) returns (summary: Summary)
    ensures summary == SummaryOf(entries, now)
  {
    var lines := [];
    for i := 0 to |entries|
      invariant lines == Active(entries[..i], now)
    {
      assert entries[..i + 1][..i] == entries[..i];
      var line := Decorated(entries[i], now);
      if line.status != Void { lines := lines + [line]; }
    }
    assert entries[..|entries|] == entries;

    var totals, arrears := ReduceTotals(lines);
    var keys, balanceMap := CollectBalances(lines);
    summary := Summary(Rounded(totals), |arrears|,
                       seq(|keys|, i requires 0 <= i < |keys| && keys[i] in balanceMap =>
                           Balance(keys[i], Rounded(balanceMap[keys[i]]))));
    assert summary.balances == Balances(keys, lines);
  }

  lemma OneMoreArrear(lines: seq<Line>, i: nat)
    requires i < |lines|
    ensures ArrearsResidents(lines[..i + 1])
            == ArrearsResidents(lines[..i])
               + if lines[i].isInArrears && lines[i].residentId.Some? then {lines[i].residentId.value} else {}
  {
    var longer := lines[..i + 1];
    assert longer == lines[..i] + [lines[i]];
    assert forall l :: l in longer <==> l in lines[..i] || l == lines[i];
  }

  method ReduceTotals(lines: seq<Line>) returns (acc: Sums, arrears: set<string>)
    ensures acc == Total(lines) && arrears == ArrearsResidents(lines)
  {
    acc, arrears := ZERO, {};
    assert lines[..0] == [];
    hide ArrearsResidents;
    for i := 0 to |lines|
      invariant acc == Total(lines[..i])
      invariant arrears == ArrearsResidents(lines[..i])
    {
      var l := lines[i];
      assert lines[..i + 1][..i] == lines[..i];
      OneMoreArrear(lines, i);
      acc := acc.(billed := acc.billed + l.amount, paid := acc.paid + l.paidAmount,
                  outstanding := acc.outstanding + l.outstandingAmount, charges := acc.charges + 1);
      if l.isInArrears {
        acc := acc.(overdue := acc.overdue + l.outstandingAmount);
        if l.residentId.Some? { arrears := arrears + {l.residentId.value}; }
      }
    }
    assert lines[..|lines|] == lines;
  }

  /** The insertion-ordered Map of balances: its keys in order, and its entries. */
  method CollectBalances(lines: seq<Line>) returns (keys: seq<Key>, balanceMap: map<Key, Sums>)
    ensures keys == Keys(lines)
    ensures forall key :: key in keys <==> key in balanceMap
    ensures forall key <- balanceMap :: balanceMap[key] == TotalFor(lines, key)
  {
    keys, balanceMap := [], map[];
    for i := 0 to |lines|
      invariant keys == Keys(lines[..i])
      invariant forall key :: key in keys <==> key in balanceMap
      invariant forall key :: TotalFor(lines[..i], key) == if key in balanceMap then balanceMap[key] else ZERO
    {
      var l := lines[i];
      assert lines[..i + 1][..i] == lines[..i];
      var key := KeyOf(l);
      var current := if key in balanceMap then balanceMap[key] else ZERO;
      current := current.(billed := current.billed + l.amount, paid := current.paid + l.paidAmount,
                          outstanding := current.outstanding + l.outstandingAmount, charges := current.charges + 1);
      if l.isInArrears { current := current.(overdue := current.overdue + l.outstandingAmount); }
      if key !in balanceMap { keys := keys + [key]; }
      balanceMap := balanceMap[key := current];
    }
    assert lines[..|lines|] == lines;
  }

  // ---- the balances partition the totals ----

  function SumFor(keys: seq<Key>, lines: seq<Line>): Sums {
    if keys == [] then ZERO
    else Plus(SumFor(keys[..|keys| - 1], lines), TotalFor(lines, keys[|keys| - 1]))
  }

  lemma {:induction false} KeysAreDistinct(lines: seq<Line>)
    ensures Distinct(Keys(lines))
    ensures forall l <- lines :: KeyOf(l) in Keys(lines)
  {
    if lines == [] {
    } else {
      KeysAreDistinct(lines[..|lines| - 1]);
      assert lines == lines[..|lines| - 1] + [lines[|lines| - 1]];
    }
  }

  lemma {:induction false} AbsentKey(lines: seq<Line>, key: Key)
    requires forall l <- lines :: KeyOf(l) != key
    ensures TotalFor(lines, key) == ZERO
  {
    if lines == [] {
    } else {
      AbsentKey(lines[..|lines| - 1], key);
    }
  }

  /** One more line adds to the sum over the keys exactly once, if its key is among them. */
  lemma {:induction false} OneMoreLine(keys: seq<Key>, lines: seq<Line>)
    requires lines != [] && Distinct(keys)
    ensures var front, last := lines[..|lines| - 1], lines[|lines| - 1];
            SumFor(keys, lines) == Plus(SumFor(keys, front), if KeyOf(last) in keys then Of(last) else ZERO)
    decreases |keys|
  {
    if keys == [] {
    } else {
      OneMoreLine(keys[..|keys| - 1], lines);
      assert keys == keys[..|keys| - 1] + [keys[|keys| - 1]];
    }
  }

  lemma {:induction false} BalancesPartitionTotals(lines: seq<Line>)
    ensures SumFor(Keys(lines), lines) == Total(lines)
  {
    if lines == [] {
    } else {
      var front, last := lines[..|lines| - 1], lines[|lines| - 1];
      BalancesPartitionTotals(front);
      KeysAreDistinct(front);
      OneMoreLine(Keys(front), lines);
      if KeyOf(last) !in Keys(front) {
        AbsentKey(front, KeyOf(last));
        assert Keys(lines)[..|Keys(front)|] == Keys(front);
      }
    }
  }

  // ---- ledgers in whole hundredths ----

  /** A charge in whole hundredths that is not overpaid: what EstateLedger.Bounded gives for such a charge. */
  ghost predicate CentValued(c: Charge) {
    WholeCents(c.amount) && (forall p <- c.payments :: WholeCents(p)) && Sum(c.payments) <= c.amount
  }

  ghost predicate Balanced(l: Line) {
    && WholeCents(l.amount) && WholeCents(l.paidAmount) && WholeCents(l.outstandingAmount)
    && l.amount == l.paidAmount + l.outstandingAmount
    && l.outstandingAmount >= 0.0
    && (l.isInArrears ==> l.outstandingAmount > 0.0)
  }

  lemma DecoratedIsBalanced(e: Entry, now: int)
    requires CentValued(e.charge)
    ensures Balanced(Decorated(e, now))
  {
    var paid := Sum(e.charge.payments);
    WholeCentsSum(e.charge.payments);
    RoundingIsClose(paid);
    WholeCentsAdd(e.charge.amount, paid);
    RoundingIsClose(e.charge.amount - paid);
  }

  lemma {:induction false} LinesAreBalanced(entries: seq<Entry>, now: int)
    requires forall i :: 0 <= i < |entries| ==> CentValued(entries[i].charge)
    ensures forall l <- Active(entries, now) :: Balanced(l)
  {
    if entries == [] {
    } else {
      LinesAreBalanced(entries[..|entries| - 1], now);
      DecoratedIsBalanced(entries[|entries| - 1], now);
    }
  }

  ghost predicate Whole(a: Sums) {
    WholeCents(a.billed) && WholeCents(a.paid) && WholeCents(a.outstanding) && WholeCents(a.overdue)
  }

  lemma WholePlus(a: Sums, b: Sums)
    requires Whole(a) && Whole(b)
    ensures Whole(Plus(a, b)) && Rounded(Plus(a, b)) == Plus(a, b)
  {
    WholeCentsAdd(a.billed, b.billed);
    WholeCentsAdd(a.paid, b.paid);
    WholeCentsAdd(a.outstanding, b.outstanding);
    WholeCentsAdd(a.overdue, b.overdue);
    WholeIsRounded(Plus(a, b));
  }

  lemma WholeIsRounded(a: Sums)
    requires Whole(a)
    ensures Rounded(a) == a
  {
    RoundingIsClose(a.billed);
    RoundingIsClose(a.paid);
    RoundingIsClose(a.outstanding);
    RoundingIsClose(a.overdue);
  }

  lemma {:induction false} TotalsAreWhole(lines: seq<Line>)
    requires forall i :: 0 <= i < |lines| ==> Balanced(lines[i])
    ensures Whole(Total(lines)) && Total(lines).billed == Total(lines).paid + Total(lines).outstanding
    ensures Total(lines).charges == |lines|
  {
    assert WholeCents(0.0) by { assert (0.0 * 100.0).Floor == 0; }
    if lines == [] {
    } else {
      TotalsAreWhole(lines[..|lines| - 1]);
      WholePlus(Total(lines[..|lines| - 1]), Of(lines[|lines| - 1]));
    }
  }

  /** A balance is in whole hundredths, and overdue exactly when one of its lines is in arrears. */
  lemma {:induction false} BalanceFacts(lines: seq<Line>, key: Key)
    requires forall i :: 0 <= i < |lines| ==> Balanced(lines[i])
    ensures Whole(TotalFor(lines, key)) && TotalFor(lines, key).overdue >= 0.0
    ensures TotalFor(lines, key).overdue > 0.0 <==> exists l <- lines :: KeyOf(l) == key && l.isInArrears
  {
    assert WholeCents(0.0) by { assert (0.0 * 100.0).Floor == 0; }
    if lines == [] {
    } else {
      var front, last := lines[..|lines| - 1], lines[|lines| - 1];
      BalanceFacts(front, key);
      if KeyOf(last) == key { WholePlus(TotalFor(front, key), Of(last)); }
      assert lines == front + [last];
      assert forall l :: l in lines <==> l in front || l == last;
    }
  }

  /** The sum of the balances as returned. */
  function SumOfBalances(balances: seq<Balance>): Sums {
    if balances == [] then ZERO else Plus(SumOfBalances(balances[..|balances| - 1]), balances[|balances| - 1].sums)
  }

  predicate InArrears(b: Balance) { b.key.Resident? && b.sums.overdue > 0.0 }

  /** How many resident balances are overdue. */
  function ArrearsCount(balances: seq<Balance>): nat {
    if balances == [] then 0
    else ArrearsCount(balances[..|balances| - 1]) + if InArrears(balances[|balances| - 1]) then 1 else 0
  }

  ghost function OverdueResidents(keys: seq<Key>, lines: seq<Line>): set<string> {
    set k | k in keys && k.Resident? && TotalFor(lines, k).overdue > 0.0 :: k.id
  }

  lemma {:induction false} BalancesAddUp(keys: seq<Key>, lines: seq<Line>)
    requires forall i :: 0 <= i < |lines| ==> Balanced(lines[i])
    requires Distinct(keys)
    ensures SumOfBalances(Balances(keys, lines)) == SumFor(keys, lines)
    ensures ArrearsCount(Balances(keys, lines)) == |OverdueResidents(keys, lines)|
    decreases |keys|
  {
    if keys == [] {
    } else {
      var front, last := keys[..|keys| - 1], keys[|keys| - 1];
      BalancesAddUp(front, lines);
      BalanceFacts(lines, last);
      WholeIsRounded(TotalFor(lines, last));
      hide TotalFor;
      hide OverdueResidents;
      hide Rounded;
      assert Balances(keys, lines)[..|keys| - 1] == Balances(front, lines);
      assert keys == front + [last];
      OneMoreKey(front, last, lines);
    }
  }

  lemma OneMoreKey(front: seq<Key>, last: Key, lines: seq<Line>)
    requires last !in front
    ensures |OverdueResidents(front + [last], lines)|
            == |OverdueResidents(front, lines)| + if last.Resident? && TotalFor(lines, last).overdue > 0.0 then 1 else 0
  {
    var longer := OverdueResidents(front + [last], lines);
    if last.Resident? && TotalFor(lines, last).overdue > 0.0 {
      assert last.id !in OverdueResidents(front, lines);
      assert last in front + [last];
      assert longer == OverdueResidents(front, lines) + {last.id};
    } else {
      assert longer == OverdueResidents(front, lines);
    }
  }

  /**
   Conservation. For every ledger in whole hundredths within the overpayment bound: billed = paid +
   outstanding; the balances sum to the totals in every column, charge counts included; and
   residentsInArrears is the number of resident balances with a positive overdue amount.
   */
  lemma SummaryIsConserved(entries: seq<Entry>, now: int)
    requires forall i :: 0 <= i < |entries| ==> CentValued(entries[i].charge)
    ensures var s := SummaryOf(entries, now);
            && s.totals.billed == s.totals.paid + s.totals.outstanding
            && SumOfBalances(s.balances) == s.totals
            && s.totals.charges == |Active(entries, now)|
            && s.residentsInArrears == ArrearsCount(s.balances)
  {
    var lines := Active(entries, now);
    LinesAreBalanced(entries, now);
    assert forall i :: 0 <= i < |lines| ==> lines[i] in lines;
    TotalsAreWhole(lines);
    WholeIsRounded(Total(lines));
    KeysAreDistinct(lines);
    BalancesPartitionTotals(lines);
    BalancesAddUp(Keys(lines), lines);
    ArrearsSetsAgree(lines);
  }

  lemma ArrearsSetsAgree(lines: seq<Line>)
    requires forall i :: 0 <= i < |lines| ==> Balanced(lines[i])
    ensures OverdueResidents(Keys(lines), lines) == ArrearsResidents(lines)
  {
    KeysAreDistinct(lines);
    forall r ensures r in OverdueResidents(Keys(lines), lines) <==> r in ArrearsResidents(lines) {
      BalanceFacts(lines, Resident(r));
      if r in ArrearsResidents(lines) {
        var l :| l in lines && l.isInArrears && l.residentId == Some(r);
        assert KeyOf(l) == Resident(r);
      }
      if r in OverdueResidents(Keys(lines), lines) {
        var l :| l in lines && KeyOf(l) == Resident(r) && l.isInArrears;
        assert l.residentId == Some(r);
      }
    }
  }

  // ---- what the columns mean, said of the charges themselves ----

  /** A charge in whole hundredths, as the ledger keeps it. */
  ghost predicate Regular(c: Charge) { WholeCents(c.amount) && c.amount >= 0.0 && Bounded(c) }

  function Remainder(c: Charge): real { c.amount - Sum(c.payments) }

  /** Something is left to pay and the due date has passed. */
  predicate IsLate(c: Charge, now: int) { c.status != Void && Remainder(c) > 0.0 && c.dueDate < now }

  /** What one charge adds to the columns. */
  function Share(c: Charge, now: int): Sums {
    Sums(c.amount, Sum(c.payments), Remainder(c), if IsLate(c, now) then Remainder(c) else 0.0, 1)
  }

  function OwnKey(e: Entry): Key {
    if e.charge.residentId.Some? then Resident(e.charge.residentId.value) else Unassigned(e.id)
  }

  /** The shares of all charges that are not void. */
  function AllShares(entries: seq<Entry>, now: int): Sums {
    if entries == [] then ZERO
    else
      var (rest, last) := (AllShares(entries[..|entries| - 1], now), entries[|entries| - 1]);
      if last.charge.status == Void then rest else Plus(rest, Share(last.charge, now))
  }

  /** The shares of the charges of one key. */
  function SharesOf(entries: seq<Entry>, now: int, key: Key): Sums {
    if entries == [] then ZERO
    else
      var (rest, last) := (SharesOf(entries[..|entries| - 1], now, key), entries[|entries| - 1]);
      if last.charge.status == Void || OwnKey(last) != key then rest else Plus(rest, Share(last.charge, now))
  }

  ghost function LateResidents(entries: seq<Entry>, now: int): set<string> {
    set e | e in entries && IsLate(e.charge, now) && e.charge.residentId.Some? :: e.charge.residentId.value
  }

  /** A line says of its charge: what is left to pay, and whether that is late. */
  lemma LineMeans(e: Entry, now: int)
    requires Regular(e.charge)
    ensures var l := Decorated(e, now);
            && l.id == e.id && l.residentId == e.charge.residentId && KeyOf(l) == OwnKey(e)
            && (l.status == Void <==> e.charge.status == Void)
            && (e.charge.status != Void ==> Of(l) == Share(e.charge, now) && (l.isInArrears <==> IsLate(e.charge, now)))
  {
    var c := e.charge;
    WholeCentsSum(c.payments);
    RoundingIsClose(Sum(c.payments));
    WholeCentsAdd(c.amount, Sum(c.payments));
    RoundingIsClose(Remainder(c));
    if Remainder(c) <= TOLERANCE { NoSmallGap(c.amount, Sum(c.payments)); }
  }

  lemma {:induction false} ColumnsMean(entries: seq<Entry>, now: int, key: Key)
    requires forall i :: 0 <= i < |entries| ==> Regular(entries[i].charge)
    ensures Total(Active(entries, now)) == AllShares(entries, now)
    ensures TotalFor(Active(entries, now), key) == SharesOf(entries, now, key)
  {
    if entries == [] {
    } else {
      var front, last := entries[..|entries| - 1], entries[|entries| - 1];
      assert entries == front + [last] && Regular(last.charge);
      ColumnsMean(front, now, key);
      LineMeans(last, now);
      OneMoreCharge(front, last, now);
      assert Active(front, now) + [] == Active(front, now);
      AddedLine(Active(front, now), Decorated(last, now), key);
      hide Active;
      hide Decorated;
      hide Total;
      hide TotalFor;
      hide Share;
    }
  }

  lemma AddedLine(lines: seq<Line>, l: Line, key: Key)
    ensures Total(lines + [l]) == Plus(Total(lines), Of(l))
    ensures TotalFor(lines + [l], key)
            == if KeyOf(l) == key then Plus(TotalFor(lines, key), Of(l)) else TotalFor(lines, key)
    ensures KeyOf(l) in Keys(lines + [l]) && forall k <- Keys(lines) :: k in Keys(lines + [l])
  {
    assert (lines + [l])[..|lines|] == lines;
  }

  /** One more charge adds its line exactly when it is not void. */
  lemma OneMoreCharge(front: seq<Entry>, e: Entry, now: int)
    requires Regular(e.charge)
    ensures Active(front + [e], now)
            == Active(front, now) + if e.charge.status == Void then [] else [Decorated(e, now)]
  {
    assert (front + [e])[..|front|] == front;
    LineMeans(e, now);
    hide Decorated;
  }

  lemma {:induction false} ArrearsMean(entries: seq<Entry>, now: int)
    requires forall i :: 0 <= i < |entries| ==> Regular(entries[i].charge)
    ensures ArrearsResidents(Active(entries, now)) == LateResidents(entries, now)
  {
    if entries == [] {
    } else {
      var front, last := entries[..|entries| - 1], entries[|entries| - 1];
      assert entries == front + [last] && Regular(last.charge);
      ArrearsMean(front, now);
      LineMeans(last, now);
      OneMoreCharge(front, last, now);
      AddedArrear(Active(front, now), Decorated(last, now));
      AddedLate(front, last, now);
      assert Active(front, now) + [] == Active(front, now);
      hide Active;
      hide Decorated;
      hide ArrearsResidents;
      hide LateResidents;
    }
  }

  lemma {:induction false} ChargeHasBalance(entries: seq<Entry>, now: int, e: Entry)
    requires forall i :: 0 <= i < |entries| ==> Regular(entries[i].charge)
    requires e in entries && e.charge.status != Void
    ensures OwnKey(e) in Keys(Active(entries, now))
  {
    hide *;
    var front, last := entries[..|entries| - 1], entries[|entries| - 1];
    assert entries == front + [last] && Regular(last.charge);
    LineMeans(last, now);
    OneMoreCharge(front, last, now);
    AddedLine(Active(front, now), Decorated(last, now), OwnKey(last));
    assert Active(front, now) + [] == Active(front, now);
    if e in front { ChargeHasBalance(front, now, e); }
  }

  lemma AddedArrear(lines: seq<Line>, l: Line)
    ensures ArrearsResidents(lines + [l])
            == ArrearsResidents(lines) + if l.isInArrears && l.residentId.Some? then {l.residentId.value} else {}
  {
    assert forall m :: m in lines + [l] <==> m in lines || m == l;
  }

  lemma AddedLate(front: seq<Entry>, e: Entry, now: int)
    ensures LateResidents(front + [e], now)
            == LateResidents(front, now)
               + if IsLate(e.charge, now) && e.charge.residentId.Some? then {e.charge.residentId.value} else {}
  {
    assert forall other :: other in front + [e] <==> other in front || other == e;
  }

  lemma {:induction false} SharesAreWhole(entries: seq<Entry>, now: int, key: Key)
    requires forall i :: 0 <= i < |entries| ==> Regular(entries[i].charge)
    ensures Rounded(AllShares(entries, now)) == AllShares(entries, now)
    ensures Rounded(SharesOf(entries, now, key)) == SharesOf(entries, now, key)
  {
    forall i | 0 <= i < |entries| ensures CentValued(entries[i].charge) { assert Regular(entries[i].charge); }
    var lines := Active(entries, now);
    LinesAreBalanced(entries, now);
    assert forall i :: 0 <= i < |lines| ==> lines[i] in lines;
    ColumnsMean(entries, now, key);
    TotalsAreWhole(lines);
    WholeIsRounded(Total(lines));
    BalanceFacts(lines, key);
    WholeIsRounded(TotalFor(lines, key));
  }

  /**
   What the summary reports, for every ledger in whole hundredths: each column is the sum over the charges
   that are not void, overdue being what is left to pay of those past their due date; each balance is that sum
   for its own resident; every such charge has its balance; and residentsInArrears counts the residents with a
   late charge.
   */
  lemma SummaryMeans(entries: seq<Entry>, now: int)
    requires forall i :: 0 <= i < |entries| ==> Regular(entries[i].charge)
    ensures var s := SummaryOf(entries, now);
            && s.totals == AllShares(entries, now)
            && s.residentsInArrears == |LateResidents(entries, now)|
            && (forall i :: 0 <= i < |s.balances| ==> s.balances[i].sums == SharesOf(entries, now, s.balances[i].key))
            && (forall i, j :: 0 <= i < j < |s.balances| ==> s.balances[i].key != s.balances[j].key)
            && forall e <- entries :: e.charge.status != Void ==>
                 exists i :: 0 <= i < |s.balances| && s.balances[i].key == OwnKey(e)
  {
    var (s, lines) := (SummaryOf(entries, now), Active(entries, now));
    var keys := Keys(lines);
    ArrearsMean(entries, now);
    KeysAreDistinct(lines);
    ColumnsMean(entries, now, Unassigned(""));
    SharesAreWhole(entries, now, Unassigned(""));
    forall i | 0 <= i < |keys|
      ensures s.balances[i].sums == SharesOf(entries, now, keys[i]) && s.balances[i].key == keys[i]
    {
      ColumnsMean(entries, now, keys[i]);
      SharesAreWhole(entries, now, keys[i]);
    }
    hide Rounded;
    hide AllShares;
    hide SharesOf;
    hide LateResidents;
    forall e <- entries | e.charge.status != Void
      ensures exists i :: 0 <= i < |s.balances| && s.balances[i].key == OwnKey(e)
    {
      ChargeHasBalance(entries, now, e);
      var i :| 0 <= i < |keys| && keys[i] == OwnKey(e);
      assert s.balances[i].key == OwnKey(e);
    }
  }

  /** The premise holds for every run of the ledger in which the charge amounts are whole hundredths. */
  lemma LedgerRunsAreCentValued(clock: int, ops: seq<Op>, id: Id)
    requires ValidRun(EstateLedger.Empty(clock), ops)
    requires id in Run(EstateLedger.Empty(clock), ops).charges
    requires var amount := Run(EstateLedger.Empty(clock), ops).charges[id].amount; WholeCents(amount) && amount >= 0.0
    ensures CentValued(Run(EstateLedger.Empty(clock), ops).charges[id])
    ensures Regular(Run(EstateLedger.Empty(clock), ops).charges[id])
  {
    RunKeepsInv(EstateLedger.Empty(clock), ops);
  }
}
