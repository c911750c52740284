/** The day ledger of the daily budget app, as values: the day records of a month, what
    adding a transaction does to them, and the month totals. The class in month_record.dfy
    updates an array of these records in place and is proved against the functions here. */
module Ledger {

  datatype Option<T> = None | Some(value: T)

  /** A category is stored in a 50-character buffer that keeps one place for the terminator. */
  const MaxCategoryLength: nat := 49

  datatype Transaction = Transaction(date: int, amount: real, category: string)

  /** One node of the month list: the day's fixed allocation, what is left of it, and its
      transactions, most recently added first. */
  datatype Day = Day(date: int, budget: real, remaining: real, transactions: seq<Transaction>)

  // ---------------------------------------------------------------------------------------
  // Creating a month
  // ---------------------------------------------------------------------------------------

  /** The month as createMonthRecord builds it: days 1..daysInMonth, each allotted an equal share. */
  function NewMonth(monthlyBudget: real, daysInMonth: int): (r: seq<Day>)
    requires daysInMonth > 0
    ensures |r| == daysInMonth
    ensures forall i :: 0 <= i < |r| ==>
      && r[i].date == i + 1 && r[i].transactions == []
      && r[i].remaining == r[i].budget && daysInMonth as real * r[i].budget == monthlyBudget
  {
    var daily := monthlyBudget / daysInMonth as real;
    seq(daysInMonth, i requires 0 <= i < daysInMonth => Day(i + 1, daily, daily, []))
  }

  /** The days carry the dates 1..N in list order, with no gap and no repeat. */
  ghost predicate Contiguous(ds: seq<Day>)
  {
    forall i :: 0 <= i < |ds| ==> ds[i].date == i + 1
  }

  /** Every day's remaining amount lies between zero and its budget. */
  ghost predicate Bounded(ds: seq<Day>)
  {
    forall i :: 0 <= i < |ds| ==> 0.0 <= ds[i].remaining <= ds[i].budget
  }

  // ---------------------------------------------------------------------------------------
  // Looking a day up
  // ---------------------------------------------------------------------------------------

  /** The position of the first day carrying `date`, walking the list from its head. */
  function IndexOf(ds: seq<Day>, date: int): (r: Option<nat>)
    ensures r.Some? ==> r.value < |ds| && ds[r.value].date == date
    ensures r.Some? ==> forall j :: 0 <= j < r.value ==> ds[j].date != date
    ensures r.None? <==> forall j :: 0 <= j < |ds| ==> ds[j].date != date
  {
    if ds == [] then None
    else if ds[0].date == date then Some(0)
    else match IndexOf(ds[1..], date)
      case None => None
      case Some(k) => Some(k + 1)
  }

  // ---------------------------------------------------------------------------------------
  // Adding a transaction
  // ---------------------------------------------------------------------------------------

  /** The category as stored: its first MaxCategoryLength characters. */
  function Truncate(category: string): (r: string)
    ensures r <= category
    ensures |r| == if |category| <= MaxCategoryLength then |category| else MaxCategoryLength
  {
    if |category| <= MaxCategoryLength then category else category[..MaxCategoryLength]
  }

  /** The day the transaction is booked on: the transaction goes to the head of its list and the
      remaining amount drops by the amount, or to zero on overspend. */
  function Charge(d: Day, t: Transaction): (r: Day)
    ensures r.date == d.date && r.budget == d.budget
    ensures r.transactions == [t] + d.transactions
    ensures 0.0 <= r.remaining && d.remaining - t.amount <= r.remaining
    ensures t.amount <= d.remaining ==> r.remaining == d.remaining - t.amount
    ensures 0.0 <= t.amount && 0.0 <= d.remaining ==> r.remaining <= d.remaining
  {
    var difference := d.remaining - t.amount;
    d.(transactions := [t] + d.transactions,
       remaining := if difference >= 0.0 then difference else 0.0)
  }

  /** A later day taking its share of a deficit: lowered by the share, clamped at zero. */
  function Absorb(d: Day, share: real): (r: Day)
    ensures r.date == d.date && r.budget == d.budget && r.transactions == d.transactions
    ensures 0.0 <= r.remaining && d.remaining - share <= r.remaining
    ensures share <= d.remaining ==> r.remaining == d.remaining - share
    ensures 0.0 <= share && 0.0 <= d.remaining ==> r.remaining <= d.remaining
  {
    var lowered := d.remaining - share;
    d.(remaining := if lowered < 0.0 then 0.0 else lowered)
  }

  /** Every day from position `from` on absorbs `share`; the days before it are kept. */
  function Spread(ds: seq<Day>, from: nat, share: real): (r: seq<Day>)
    ensures |r| == |ds|
    ensures forall i :: 0 <= i < |ds| && i < from ==> r[i] == ds[i]
    ensures forall i :: from <= i < |ds| ==> r[i].transactions == ds[i].transactions
  {
    seq(|ds|, i requires 0 <= i < |ds| => if from <= i then Absorb(ds[i], share) else ds[i])
  }

  /** The ledger after addTransaction(date, amount, category, daysInMonth). An unknown date
      changes nothing. On overspend the deficit is divided by daysInMonth - date, not by a count
      of the days that follow, and nothing is spread when that divisor is not positive. */
  function AfterAdd(ds: seq<Day>, date: int, amount: real, category: string, daysInMonth: int): (r: seq<Day>)
    ensures |r| == |ds|
    ensures IndexOf(ds, date).None? ==> r == ds
  {
    match IndexOf(ds, date)
    case None => ds
    case Some(k) =>
      var charged := ds[k := Charge(ds[k], Transaction(date, amount, Truncate(category)))];
      var difference := ds[k].remaining - amount;
      if difference >= 0.0 || daysInMonth - date <= 0 then charged
      else Spread(charged, k + 1, -difference / (daysInMonth - date) as real)
  }

  // ---------------------------------------------------------------------------------------
  // Month totals
  // ---------------------------------------------------------------------------------------

  /** Sum of a sequence, adding from the front as the summary loops do. */
  function Sum(xs: seq<real>): real
  {
    if xs == [] then 0.0 else Sum(xs[..|xs| - 1]) + xs[|xs| - 1]
  }

  function Amounts(ts: seq<Transaction>): seq<real>
  {
    seq(|ts|, i requires 0 <= i < |ts| => ts[i].amount)
  }

  function Budgets(ds: seq<Day>): seq<real>
  {
    seq(|ds|, i requires 0 <= i < |ds| => ds[i].budget)
  }

  function Remainings(ds: seq<Day>): seq<real>
  {
    seq(|ds|, i requires 0 <= i < |ds| => ds[i].remaining)
  }

  /** What was spent on each day: the sum of that day's transaction amounts. */
  function Spending(ds: seq<Day>): seq<real>
  {
    seq(|ds|, i requires 0 <= i < |ds| => Sum(Amounts(ds[i].transactions)))
  }

  /** Changing one day changes only that day's entry in the remaining amounts. */
  lemma RemainingsUpdate(ds: seq<Day>, k: nat, d: Day)
    requires k < |ds|
    ensures Remainings(ds[k := d]) == Remainings(ds)[k := d.remaining]
  {
  }

  /** Every transaction of the month, day by day in list order. */
  function AllTransactions(ds: seq<Day>): seq<Transaction>
  {
    if ds == [] then [] else AllTransactions(ds[..|ds| - 1]) + ds[|ds| - 1].transactions
  }

  /** The sum of the day budgets; with no negative budget it is not negative. */
  function TotalBudget(ds: seq<Day>): (r: real)
    ensures (forall i :: 0 <= i < |ds| ==> 0.0 <= ds[i].budget) ==> 0.0 <= r
  {
    SumBounds(Budgets(ds), Budgets(ds));
    Sum(Budgets(ds))
  }

  /** The sum, day by day, of each day's transaction amounts: the sum of the amounts of all
      the month's transactions. */
  function TotalSpent(ds: seq<Day>): (r: real)
    ensures r == Sum(Amounts(AllTransactions(ds)))
  {
    SpendingIsAllAmounts(ds);
    Sum(Spending(ds))
  }

  /** The sum of the remaining amounts; in a month where every day lies within its bounds it lies
      between zero and the total budget. */
  function TotalRemaining(ds: seq<Day>): (r: real)
    ensures Bounded(ds) ==> 0.0 <= r <= Sum(Budgets(ds))
  {
    SumBounds(Remainings(ds), Budgets(ds));
    Sum(Remainings(ds))
  }

  // ---------------------------------------------------------------------------------------
  // Facts about sums
  // ---------------------------------------------------------------------------------------

  lemma {:induction false} SumAppend(xs: seq<real>, ys: seq<real>)
    ensures Sum(xs + ys) == Sum(xs) + Sum(ys)
  {
    if ys != [] {
      var zs := xs + ys;
      assert zs[..|zs| - 1] == xs + ys[..|ys| - 1];
      SumAppend(xs, ys[..|ys| - 1]);
    } else {
      assert xs + ys == xs;
    }
  }

  /** A sum of entries that are each between zero and their counterpart is between zero and
      the counterpart's sum. */
  lemma {:induction false} SumBounds(xs: seq<real>, ys: seq<real>)
    requires |xs| == |ys|
    ensures (forall i :: 0 <= i < |xs| ==> 0.0 <= xs[i] <= ys[i]) ==> 0.0 <= Sum(xs) <= Sum(ys)
  {
    if xs != [] && forall i :: 0 <= i < |xs| ==> 0.0 <= xs[i] <= ys[i] {
      SumBounds(xs[..|xs| - 1], ys[..|ys| - 1]);
    }
  }

  /** Adding up each day's spending is adding up every transaction of the month. */
  lemma {:induction false} SpendingIsAllAmounts(ds: seq<Day>)
    ensures Sum(Spending(ds)) == Sum(Amounts(AllTransactions(ds)))
  {
    if ds != [] {
      var init, last := ds[..|ds| - 1], ds[|ds| - 1];
      assert Spending(ds)[..|ds| - 1] == Spending(init);
      SpendingIsAllAmounts(init);
      assert Amounts(AllTransactions(ds)) == Amounts(AllTransactions(init)) + Amounts(last.transactions);
      SumAppend(Amounts(AllTransactions(init)), Amounts(last.transactions));
    }
  }

  lemma SumCons(x: real, xs: seq<real>)
    ensures Sum([x] + xs) == x + Sum(xs)
  {
    SumAppend([x], xs);
    assert [x][..0] == [];
  }

  /** Replacing one element changes the sum by exactly the difference. */
  lemma SumUpdate(xs: seq<real>, k: nat, v: real)
    requires k < |xs|
    ensures Sum(xs[k := v]) == Sum(xs) - xs[k] + v
  {
    assert xs == xs[..k] + ([xs[k]] + xs[k + 1..]);
    assert xs[k := v] == xs[..k] + ([v] + xs[k + 1..]);
    SumAppend(xs[..k], [xs[k]] + xs[k + 1..]);
    SumAppend(xs[..k], [v] + xs[k + 1..]);
    SumCons(xs[k], xs[k + 1..]);
    SumCons(v, xs[k + 1..]);
  }

  lemma {:induction false} SumConstant(xs: seq<real>, c: real)
    requires forall i :: 0 <= i < |xs| ==> xs[i] == c
    ensures Sum(xs) == |xs| as real * c
  {
    if xs != [] {
      SumConstant(xs[..|xs| - 1], c);
    }
  }

  /** Lowering each of the last `count` elements by at most `c` lowers the sum by at most
      count * c. */
  lemma {:induction false} SumLoweredAtMost(xs: seq<real>, ys: seq<real>, from: nat, count: nat, c: real)
    requires |ys| == |xs| && from + count == |xs|
    requires forall i :: 0 <= i < from ==> ys[i] == xs[i]
    requires forall i :: from <= i < |xs| ==> ys[i] >= xs[i] - c
    ensures Sum(ys) >= Sum(xs) - count as real * c
  {
    if count == 0 {
      assert ys == xs;
    } else {
      var n := |xs| - 1;
      SumLoweredAtMost(xs[..n], ys[..n], from, count - 1, c);
      assert (count - 1) as real * c + c == count as real * c;
    }
  }

  /** Lowering each of the last `count` elements by exactly `c` lowers the sum by count * c. */
  lemma {:induction false} SumLoweredExactly(xs: seq<real>, ys: seq<real>, from: nat, count: nat, c: real)
    requires |ys| == |xs| && from + count == |xs|
    requires forall i :: 0 <= i < from ==> ys[i] == xs[i]
    requires forall i :: from <= i < |xs| ==> ys[i] == xs[i] - c
    ensures Sum(ys) == Sum(xs) - count as real * c
  {
    if count == 0 {
      assert ys == xs;
    } else {
      var n := |xs| - 1;
      SumLoweredExactly(xs[..n], ys[..n], from, count - 1, c);
      assert (count - 1) as real * c + c == count as real * c;
    }
  }

  /** Dividing a deficit into `count` equal shares loses nothing. */
  lemma SharesMakeUpDeficit(deficit: real, count: int)
    requires count > 0
    ensures count as real * (deficit / count as real) == deficit
  {
  }

  /** `ys` is `xs` with every element from `from` on lowered by `share` and clamped at zero. */
  ghost predicate ClampedFrom(xs: seq<real>, ys: seq<real>, from: nat, share: real)
  {
    && |ys| == |xs| && from <= |xs|
    && (forall i :: 0 <= i < from ==> ys[i] == xs[i])
    && (forall i :: from <= i < |xs| ==> ys[i] == if xs[i] - share < 0.0 then 0.0 else xs[i] - share)
  }

  /** `ys` is `xs` with element k zeroed and the deficit amount - xs[k] spread over the `count`
      elements after it in equal shares of `share`, each clamped at zero. */
  ghost predicate ZeroedAndSpread(xs: seq<real>, ys: seq<real>, k: nat, count: nat, share: real, amount: real)
  {
    && k + 1 + count == |xs|
    && count as real * share == amount - xs[k]
    && ClampedFrom(xs[k := 0.0], ys, k + 1, share)
  }

  /** Zeroing and spreading takes at most the amount out of the sum: clamping only ever keeps
      more. */
  lemma ZeroAndSpreadAtMost(xs: seq<real>, ys: seq<real>, k: nat, count: nat, share: real, amount: real)
    requires ZeroedAndSpread(xs, ys, k, count, share, amount)
    ensures Sum(ys) >= Sum(xs) - amount
  {
    assert Sum(xs[k := 0.0]) == Sum(xs) - xs[k] by {
      SumUpdate(xs, k, 0.0);
    }
    assert Sum(ys) >= Sum(xs[k := 0.0]) - count as real * share by {
      SumLoweredAtMost(xs[k := 0.0], ys, k + 1, count, share);
    }
  }

  /** When no element after k is below the share, nothing is clamped and zeroing and spreading
      takes exactly the amount out of the sum. */
  lemma ZeroAndSpreadExactly(xs: seq<real>, ys: seq<real>, k: nat, count: nat, share: real, amount: real)
    requires ZeroedAndSpread(xs, ys, k, count, share, amount)
    requires forall i :: k < i < |xs| ==> xs[i] >= share
    ensures Sum(ys) == Sum(xs) - amount
  {
    assert Sum(xs[k := 0.0]) == Sum(xs) - xs[k] by {
      SumUpdate(xs, k, 0.0);
    }
    assert Sum(ys) == Sum(xs[k := 0.0]) - count as real * share by {
      SumLoweredExactly(xs[k := 0.0], ys, k + 1, count, share);
    }
  }

  // ---------------------------------------------------------------------------------------
  // Properties of a new month
  // ---------------------------------------------------------------------------------------

  /** A new month's budgets add up to the monthly budget, nothing is spent yet, and every day
      still has its whole allocation. */
  lemma NewMonthTotals(monthlyBudget: real, daysInMonth: int)
    requires daysInMonth > 0
    ensures TotalBudget(NewMonth(monthlyBudget, daysInMonth)) == monthlyBudget
    ensures TotalRemaining(NewMonth(monthlyBudget, daysInMonth)) == monthlyBudget
    ensures TotalSpent(NewMonth(monthlyBudget, daysInMonth)) == 0.0
  {
    var ds := NewMonth(monthlyBudget, daysInMonth);
    var daily := monthlyBudget / daysInMonth as real;
    assert daysInMonth as real * daily == monthlyBudget;
    assert Sum(Budgets(ds)) == monthlyBudget by {
      SumConstant(Budgets(ds), daily);
    }
    assert Sum(Remainings(ds)) == monthlyBudget by {
      SumConstant(Remainings(ds), daily);
    }
    assert Sum(Spending(ds)) == 0.0 by {
      assert forall i :: 0 <= i < |ds| ==> Amounts(ds[i].transactions) == [];
      SumConstant(Spending(ds), 0.0);
    }
  }

  /** A new month lists the days 1..N in order, and with a budget that is not negative every
      day starts inside its bounds. */
  lemma NewMonthWellFormed(monthlyBudget: real, daysInMonth: int)
    requires daysInMonth > 0
    ensures Contiguous(NewMonth(monthlyBudget, daysInMonth))
    ensures 0.0 <= monthlyBudget ==> Bounded(NewMonth(monthlyBudget, daysInMonth))
  {
  }

  // ---------------------------------------------------------------------------------------
  // Properties of day lookup
  // ---------------------------------------------------------------------------------------

  /** In a contiguous month the day with date d sits at position d - 1, and dates outside
      1..N are not found. */
  lemma ContiguousLookup(ds: seq<Day>, date: int)
    requires Contiguous(ds)
    ensures IndexOf(ds, date) == if 1 <= date <= |ds| then Some(date - 1) else None
  {
    if 1 <= date <= |ds| {
      assert ds[date - 1].date == date;
    }
  }

  // ---------------------------------------------------------------------------------------
  // Properties of adding a transaction
  // ---------------------------------------------------------------------------------------

  /** A date that matches no day leaves the whole ledger as it was. */
  lemma AddUnknownDate(ds: seq<Day>, date: int, amount: real, category: string, daysInMonth: int)
    requires forall i :: 0 <= i < |ds| ==> ds[i].date != date
    ensures AfterAdd(ds, date, amount, category, daysInMonth) == ds
  {
  }

  /** On a known date exactly one transaction, carrying the date, the amount and the truncated
      category, goes to the head of the first matching day's list. No other list changes, no
      day's date or budget changes, and the days before the matching one are untouched. */
  lemma AddFrame(ds: seq<Day>, date: int, amount: real, category: string, daysInMonth: int, k: nat)
    requires IndexOf(ds, date) == Some(k)
    ensures var r := AfterAdd(ds, date, amount, category, daysInMonth);
      && |r| == |ds|
      && r[k].transactions == [Transaction(date, amount, Truncate(category))] + ds[k].transactions
      && (forall i :: 0 <= i < |ds| && i != k ==> r[i].transactions == ds[i].transactions)
      && (forall i :: 0 <= i < |ds| ==> r[i].date == ds[i].date && r[i].budget == ds[i].budget)
      && (forall i :: 0 <= i < k ==> r[i] == ds[i])
  {
  }

  /** When the amount fits in the day's remaining amount, only that day changes: its remaining
      amount drops by the amount. */
  lemma AddWithinRemaining(ds: seq<Day>, date: int, amount: real, category: string, daysInMonth: int, k: nat)
    requires IndexOf(ds, date) == Some(k)
    requires amount <= ds[k].remaining
    ensures AfterAdd(ds, date, amount, category, daysInMonth)
         == ds[k := ds[k].(remaining := ds[k].remaining - amount,
                           transactions := [Transaction(date, amount, Truncate(category))] + ds[k].transactions)]
  {
  }

  /** On overspend with later days to share it, the day's remaining amount becomes zero, every
      later day loses (amount - remaining) / (daysInMonth - date) clamped at zero, and the days
      before it are untouched. */
  lemma AddOverspend(ds: seq<Day>, date: int, amount: real, category: string, daysInMonth: int, k: nat)
    requires IndexOf(ds, date) == Some(k)
    requires amount > ds[k].remaining && daysInMonth - date > 0
    ensures var r := AfterAdd(ds, date, amount, category, daysInMonth);
      var share := (amount - ds[k].remaining) / (daysInMonth - date) as real;
      && |r| == |ds|
      && r[k].remaining == 0.0
      && (forall i :: k < i < |ds| ==>
            r[i] == ds[i].(remaining := if ds[i].remaining - share < 0.0 then 0.0 else ds[i].remaining - share))
      && (forall i :: 0 <= i < k ==> r[i] == ds[i])
  {
    var charged := ds[k := Charge(ds[k], Transaction(date, amount, Truncate(category)))];
    var share := (amount - ds[k].remaining) / (daysInMonth - date) as real;
    assert -(ds[k].remaining - amount) == amount - ds[k].remaining;
    assert AfterAdd(ds, date, amount, category, daysInMonth) == Spread(charged, k + 1, share);
  }

  /** Overspending on the last day (or wherever daysInMonth - date is not positive) only zeroes
      that day: no other day changes and nothing is divided. */
  lemma AddOverspendLastDay(ds: seq<Day>, date: int, amount: real, category: string, daysInMonth: int, k: nat)
    requires IndexOf(ds, date) == Some(k)
    requires amount > ds[k].remaining && daysInMonth - date <= 0
    ensures AfterAdd(ds, date, amount, category, daysInMonth)
         == ds[k := ds[k].(remaining := 0.0,
                           transactions := [Transaction(date, amount, Truncate(category))] + ds[k].transactions)]
  {
  }

  /** Adding a transaction keeps the dates, so a contiguous month stays contiguous. */
  lemma AddKeepsContiguous(ds: seq<Day>, date: int, amount: real, category: string, daysInMonth: int)
    requires Contiguous(ds)
    ensures Contiguous(AfterAdd(ds, date, amount, category, daysInMonth))
  {
    if IndexOf(ds, date).Some? {
      AddFrame(ds, date, amount, category, daysInMonth, IndexOf(ds, date).value);
    }
  }

  /** With an amount that is not negative, every day's remaining amount stays within
      [0, budget]. */
  lemma AddKeepsBounded(ds: seq<Day>, date: int, amount: real, category: string, daysInMonth: int)
    requires Bounded(ds) && 0.0 <= amount
    ensures Bounded(AfterAdd(ds, date, amount, category, daysInMonth))
  {
  }

  /** In a contiguous month of daysInMonth days, the divisor daysInMonth - date is exactly the
      number of days after the chosen one, the days the deficit is spread over. */
  lemma DivisorCountsLaterDays(ds: seq<Day>, date: int, daysInMonth: int)
    requires Contiguous(ds) && daysInMonth == |ds|
    requires IndexOf(ds, date).Some?
    ensures daysInMonth - date == |ds[IndexOf(ds, date).value + 1..]|
  {
    ContiguousLookup(ds, date);
  }

  /** Budgets are never touched, so the month's total budget is unchanged. */
  lemma AddKeepsTotalBudget(ds: seq<Day>, date: int, amount: real, category: string, daysInMonth: int)
    ensures TotalBudget(AfterAdd(ds, date, amount, category, daysInMonth)) == TotalBudget(ds)
  {
    var r := AfterAdd(ds, date, amount, category, daysInMonth);
    if IndexOf(ds, date).Some? {
      AddFrame(ds, date, amount, category, daysInMonth, IndexOf(ds, date).value);
      assert Budgets(r) == Budgets(ds);
    }
  }

  /** The per-day spending after a booked transaction: the chosen day's grows by the amount. */
  lemma SpendingAfterAdd(ds: seq<Day>, date: int, amount: real, category: string, daysInMonth: int, k: nat)
    requires IndexOf(ds, date) == Some(k)
    ensures Spending(AfterAdd(ds, date, amount, category, daysInMonth))
         == Spending(ds)[k := Spending(ds)[k] + amount]
  {
    var r := AfterAdd(ds, date, amount, category, daysInMonth);
    AddFrame(ds, date, amount, category, daysInMonth, k);
    assert Amounts(r[k].transactions) == [amount] + Amounts(ds[k].transactions);
    SumCons(amount, Amounts(ds[k].transactions));
    var spent := Spending(ds)[k := Spending(ds)[k] + amount];
    forall i | 0 <= i < |ds|
      ensures Spending(r)[i] == spent[i]
    {
      if i != k {
        assert r[i].transactions == ds[i].transactions;
      }
    }
  }

  /** A ledger whose per-day spending is that of `ds` with day k grown by the amount has
      spent that amount more in total. */
  lemma SpentMore(ds: seq<Day>, r: seq<Day>, k: nat, amount: real)
    requires k < |ds|
    requires Spending(r) == Spending(ds)[k := Spending(ds)[k] + amount]
    ensures TotalSpent(r) == TotalSpent(ds) + amount
  {
    var spent := Spending(ds);
    SumUpdate(spent, k, spent[k] + amount);
  }

  /** A booked transaction adds its amount to the month's total spent; an unknown date adds
      nothing. */
  lemma AddTotalSpent(ds: seq<Day>, date: int, amount: real, category: string, daysInMonth: int)
    ensures TotalSpent(AfterAdd(ds, date, amount, category, daysInMonth))
         == TotalSpent(ds) + if IndexOf(ds, date).Some? then amount else 0.0
  {
    match IndexOf(ds, date)
    case None =>
    case Some(k) =>
      SpendingAfterAdd(ds, date, amount, category, daysInMonth, k);
      SpentMore(ds, AfterAdd(ds, date, amount, category, daysInMonth), k, amount);
  }

  /** Without overspend the month's total remaining drops by exactly the amount. */
  lemma AddWithinRemainingTotal(ds: seq<Day>, date: int, amount: real, category: string, daysInMonth: int)
    requires IndexOf(ds, date).Some? && amount <= ds[IndexOf(ds, date).value].remaining
    ensures TotalRemaining(AfterAdd(ds, date, amount, category, daysInMonth)) == TotalRemaining(ds) - amount
  {
    var k := IndexOf(ds, date).value;
    var booked := ds[k].(remaining := ds[k].remaining - amount,
                         transactions := [Transaction(date, amount, Truncate(category))] + ds[k].transactions);
    AddWithinRemaining(ds, date, amount, category, daysInMonth, k);
    RemainingLess(ds, k, booked);
  }

  /** Replacing day k by one with `amount` less remaining lowers the total remaining by it. */
  lemma RemainingLess(ds: seq<Day>, k: nat, d: Day)
    requires k < |ds|
    ensures TotalRemaining(ds[k := d]) == TotalRemaining(ds) - (ds[k].remaining - d.remaining)
  {
    var rem := Remainings(ds);
    assert rem[k] == ds[k].remaining;
    RemainingsUpdate(ds, k, d);
    SumUpdate(rem, k, d.remaining);
  }

  /** The remaining amounts after an overspend that is spread: the chosen day at zero, the
      later days lowered by the share and clamped at zero. */
  lemma OverspendRemainings(ds: seq<Day>, date: int, amount: real, category: string, daysInMonth: int, k: nat)
    requires IndexOf(ds, date) == Some(k)
    requires amount > ds[k].remaining && daysInMonth - date > 0
    ensures ClampedFrom(Remainings(ds)[k := 0.0], Remainings(AfterAdd(ds, date, amount, category, daysInMonth)),
                        k + 1, (amount - Remainings(ds)[k]) / (daysInMonth - date) as real)
  {
    AddOverspend(ds, date, amount, category, daysInMonth, k);
    assert Remainings(ds)[k] == ds[k].remaining;
  }

  /** In a contiguous month of daysInMonth days, an overspend before the last day zeroes the
      chosen day (position date - 1) and spreads the deficit over the daysInMonth - date days
      after it. */
  lemma OverspendShape(ds: seq<Day>, date: int, amount: real, category: string, daysInMonth: int)
    requires Contiguous(ds) && daysInMonth == |ds| && date < daysInMonth
    requires IndexOf(ds, date).Some? && amount > ds[IndexOf(ds, date).value].remaining
    ensures 1 <= date && IndexOf(ds, date) == Some(date - 1)
    ensures ZeroedAndSpread(Remainings(ds), Remainings(AfterAdd(ds, date, amount, category, daysInMonth)),
                            date - 1, daysInMonth - date,
                            (amount - ds[date - 1].remaining) / (daysInMonth - date) as real, amount)
  {
    ContiguousLookup(ds, date);
    OverspendRemainings(ds, date, amount, category, daysInMonth, date - 1);
    SharesMakeUpDeficit(amount - ds[date - 1].remaining, daysInMonth - date);
  }

  /** In a contiguous month of daysInMonth days, an overspend never takes more than the amount
      out of the month's total remaining: a later day that reaches zero drops the rest of its
      share, which is not carried forward. */
  lemma OverspendTakesAtMostAmount(ds: seq<Day>, date: int, amount: real, category: string, daysInMonth: int)
    requires Contiguous(ds) && daysInMonth == |ds|
    requires IndexOf(ds, date).Some? && amount > ds[IndexOf(ds, date).value].remaining
    ensures TotalRemaining(AfterAdd(ds, date, amount, category, daysInMonth)) >= TotalRemaining(ds) - amount
  {
    var k := IndexOf(ds, date).value;
    if daysInMonth - date <= 0 {
      AddOverspendLastDay(ds, date, amount, category, daysInMonth, k);
      RemainingLess(ds, k, ds[k].(remaining := 0.0,
                                  transactions := [Transaction(date, amount, Truncate(category))] + ds[k].transactions));
    } else {
      OverspendShape(ds, date, amount, category, daysInMonth);
      ZeroAndSpreadAtMost(Remainings(ds), Remainings(AfterAdd(ds, date, amount, category, daysInMonth)),
                          date - 1, daysInMonth - date,
                          (amount - ds[date - 1].remaining) / (daysInMonth - date) as real, amount);
    }
  }

  /** When no later day has to be clamped at zero, the overspend takes exactly the amount out
      of the month's total remaining: the whole deficit is absorbed. */
  lemma OverspendExactWithoutClamping(ds: seq<Day>, date: int, amount: real, category: string, daysInMonth: int)
    requires Contiguous(ds) && daysInMonth == |ds|
    requires IndexOf(ds, date).Some? && amount > ds[IndexOf(ds, date).value].remaining
    requires date < daysInMonth
    requires var k := IndexOf(ds, date).value;
      forall i :: k < i < |ds| ==>
        ds[i].remaining >= (amount - ds[k].remaining) / (daysInMonth - date) as real
    ensures TotalRemaining(AfterAdd(ds, date, amount, category, daysInMonth)) == TotalRemaining(ds) - amount
  {
    OverspendShape(ds, date, amount, category, daysInMonth);
    var rem := Remainings(ds);
    var share := (amount - ds[date - 1].remaining) / (daysInMonth - date) as real;
    assert forall i :: date - 1 < i < |rem| ==> rem[i] >= share by {
      forall i | date - 1 < i < |rem| ensures rem[i] >= share {
        assert rem[i] == ds[i].remaining;
      }
    }
    ZeroAndSpreadExactly(rem, Remainings(AfterAdd(ds, date, amount, category, daysInMonth)),
                         date - 1, daysInMonth - date, share, amount);
  }

  /** A worked case: a budget of 30 over 3 days gives 10 a day; spending 16 on day 1 zeroes
      day 1 and spreads the deficit of 6 as 3 to each of days 2 and 3. */
  lemma OverspendExample()
    ensures Remainings(AfterAdd(NewMonth(30.0, 3), 1, 16.0, "food", 3)) == [0.0, 7.0, 7.0]
  {
  }
}
