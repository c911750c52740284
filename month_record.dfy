/** The month record as the daily budget app keeps it: one node per day, updated in place.
    The day list is built once and never relinked, so it is an array whose elements (the day
    records) are overwritten; every method is proved against the functions of module Ledger. */
module Budget {
  import opened Ledger

  class MonthRecord {
    /** The day records in list order. */
    const days: array<Day>

    /** The list holds the days 1..N in order, as the constructor builds it. */
    ghost predicate Valid()
      reads days
    {
      Contiguous(days[..])
    }

    /** createMonthRecord: days 1..daysInMonth, each with budget and remaining equal to
        monthlyBudget / daysInMonth and no transactions. */
    constructor (monthlyBudget: real, daysInMonth: int)
      requires daysInMonth > 0
      ensures fresh(days)
      ensures days[..] == NewMonth(monthlyBudget, daysInMonth)
      ensures days.Length == daysInMonth
      ensures forall i :: 0 <= i < daysInMonth ==>
        days[i] == Day(i + 1, monthlyBudget / daysInMonth as real, monthlyBudget / daysInMonth as real, [])
      ensures Valid()
    {
      var dailyBudget := monthlyBudget / daysInMonth as real;
      var list := new Day[daysInMonth];
      for i := 1 to daysInMonth + 1
        invariant forall j :: 0 <= j < i - 1 ==> list[j] == Day(j + 1, dailyBudget, dailyBudget, [])
      {
        list[i - 1] := Day(i, dailyBudget, dailyBudget, []);
      }
      assert list[..] == NewMonth(monthlyBudget, daysInMonth);
      days := list;
    }

    /** The walk from the head of the list to the first day carrying `date`, as done by
        addTransaction, displayRemainingBudget and displayTransactions. */
    method FindDay(date: int) returns (k: Option<nat>)
      ensures k == IndexOf(days[..], date)
      ensures Valid() ==> k == if 1 <= date <= days.Length then Some(date - 1) else None
    {
      var i := 0;
      while i < days.Length && days[i].date != date
        invariant 0 <= i <= days.Length
        invariant forall j :: 0 <= j < i ==> days[j].date != date
      {
        i := i + 1;
      }
      k := if i == days.Length then None else Some(i);
      if Valid() {
        ContiguousLookup(days[..], date);
      }
    }

    /** addTransaction: books the transaction on the first day carrying `date` and lowers that
        day's remaining amount, spreading any deficit over the later days. `found` is false when
        no day matches (the program reports an invalid date), and then nothing changes. */
    method AddTransaction(date: int, amount: real, category: string, daysInMonth: int) returns (found: bool)
      modifies days
      ensures found == IndexOf(old(days[..]), date).Some?
      ensures days[..] == AfterAdd(old(days[..]), date, amount, category, daysInMonth)
      ensures old(Valid()) ==> Valid()
      ensures old(Bounded(days[..])) && 0.0 <= amount ==> Bounded(days[..])
    {
      ghost var initial := days[..];
      var k := FindDay(date);
      if k.None? {
        found := false;
      } else {
        var i := k.value;
        var day := days[i];
        var t := Transaction(date, amount, Truncate(category));
        var difference := day.remaining - amount;
        days[i] := day.(transactions := [t] + day.transactions,
                        remaining := if difference >= 0.0 then difference else 0.0);
        assert days[..] == initial[i := Charge(initial[i], t)];
        if difference < 0.0 && daysInMonth - date > 0 {
          SpreadDeficit(i + 1, -difference / (daysInMonth - date) as real);
        }
        found := true;
      }
      if Contiguous(initial) {
        AddKeepsContiguous(initial, date, amount, category, daysInMonth);
      }
      if Bounded(initial) && 0.0 <= amount {
        AddKeepsBounded(initial, date, amount, category, daysInMonth);
      }
    }

    /** The walk over the days after the overspent one: each loses `deficitPerDay` from its
        remaining amount, clamped at zero. Only AddTransaction calls it, with the share
        deficit / (daysInMonth - date), which is not negative. */
    method SpreadDeficit(from: nat, deficitPerDay: real)
      requires 0.0 <= deficitPerDay
      modifies days
      ensures days[..] == Spread(old(days[..]), from, deficitPerDay)
    {
      ghost var charged := days[..];
      var j := from;
      while j < days.Length
        invariant from <= j
        invariant forall m :: 0 <= m < days.Length ==>
          days[m] == if from <= m < j then Absorb(charged[m], deficitPerDay) else charged[m]
      {
        var lowered := days[j].remaining - deficitPerDay;
        if lowered < 0.0 {
          lowered := 0.0;
        }
        days[j] := days[j].(remaining := lowered);
        j := j + 1;
      }
    }

    /** The value displayRemainingBudget prints: the remaining amount of the day carrying
        `date`, or nothing for an invalid date. */
    method RemainingBudget(date: int) returns (r: Option<real>)
      ensures r.None? <==> forall i :: 0 <= i < days.Length ==> days[i].date != date
      ensures r.Some? ==> r == Some(days[IndexOf(days[..], date).value].remaining)
      ensures Valid() ==> (r.Some? <==> 1 <= date <= days.Length)
      ensures Valid() && r.Some? ==> r.value == days[date - 1].remaining
    {
      var k := FindDay(date);
      r := if k.None? then None else Some(days[k.value].remaining);
    }

    /** The list displayTransactions prints: the transactions of the day carrying `date`,
        most recent first, or nothing for an invalid date. */
    method Transactions(date: int) returns (r: Option<seq<Transaction>>)
      ensures r.None? <==> forall i :: 0 <= i < days.Length ==> days[i].date != date
      ensures r.Some? ==> r == Some(days[IndexOf(days[..], date).value].transactions)
      ensures Valid() ==> (r.Some? <==> 1 <= date <= days.Length)
      ensures Valid() && r.Some? ==> r.value == days[date - 1].transactions
    {
      var k := FindDay(date);
      r := if k.None? then None else Some(days[k.value].transactions);
    }

    /** The figures displayMonthlySummary prints: the sum of the day budgets, the sum of all
        transaction amounts, and their difference. */
    method Summary() returns (totalBudget: real, totalSpent: real, savings: real)
      ensures totalBudget == TotalBudget(days[..])
      ensures totalSpent == TotalSpent(days[..])
      ensures savings == totalBudget - totalSpent
    {
      totalSpent, totalBudget := 0.0, 0.0;
      var i := 0;
      while i < days.Length
        invariant 0 <= i <= days.Length
        invariant totalBudget == Sum(Budgets(days[..i]))
        invariant totalSpent == Sum(Spending(days[..i]))
      {
        totalBudget := totalBudget + days[i].budget;
        var ts := days[i].transactions;
        ghost var spentBefore := totalSpent;
        var j := 0;
        while j < |ts|
          invariant 0 <= j <= |ts|
          invariant totalSpent == spentBefore + Sum(Amounts(ts[..j]))
        {
          totalSpent := totalSpent + ts[j].amount;
          assert Amounts(ts[..j + 1])[..j] == Amounts(ts[..j]);
          j := j + 1;
        }
        assert ts[..j] == ts;
        assert Budgets(days[..i + 1])[..i] == Budgets(days[..i]);
        assert Spending(days[..i + 1])[..i] == Spending(days[..i]);
        i := i + 1;
      }
      assert days[..i] == days[..];
      savings := totalBudget - totalSpent;
    }
  }
}
