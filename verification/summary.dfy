/**
  The computation inside `get_summary` (app.py lines 137-171): income, expense and net
  totals over the transactions, expenses grouped by category, and a savings projection
  for every goal whose deadline is still ahead.
 */
module Summary {
  import opened Text
  import opened Classifier
  import opened Ledger

  /** Sum of all amounts, folded from the back so that appending is one step. */
  function SumOf(txs: seq<Transaction>): int {
    if |txs| == 0 then 0 else SumOf(txs[..|txs| - 1]) + txs[|txs| - 1].amount
  }

  /** Sum of the positive amounts. */
  function IncomeOf(txs: seq<Transaction>): int {
    if |txs| == 0 then 0
    else
      var a := txs[|txs| - 1].amount;
      IncomeOf(txs[..|txs| - 1]) + (if a > 0 then a else 0)
  }

  /** Magnitude of the sum of the negative amounts. */
  function ExpensesOf(txs: seq<Transaction>): int {
    if |txs| == 0 then 0
    else
      var a := txs[|txs| - 1].amount;
      ExpensesOf(txs[..|txs| - 1]) + (if a < 0 then -a else 0)
  }

  /** What one transaction adds to the expenses of category `c`. */
  function ExpenseIn(t: Transaction, c: string): int {
    if t.amount < 0 && t.category == c then -t.amount else 0
  }

  /** Magnitude of the sum of the negative amounts carrying category `c`. */
  function CategoryExpense(txs: seq<Transaction>, c: string): int {
    if |txs| == 0 then 0 else CategoryExpense(txs[..|txs| - 1], c) + ExpenseIn(txs[|txs| - 1], c)
  }

  /** Some negative transaction carries category `c`: `c` is a group of the group-by. */
  predicate HasExpenseIn(txs: seq<Transaction>, c: string) {
    exists k :: 0 <= k < |txs| && txs[k].amount < 0 && txs[k].category == c
  }

  /** Income less expenses is the sum of all amounts: zero amounts count in neither. */
  lemma {:induction false} NetIsSum(txs: seq<Transaction>)
    ensures IncomeOf(txs) - ExpensesOf(txs) == SumOf(txs)
  {
    if |txs| > 0 {
      NetIsSum(txs[..|txs| - 1]);
    }
  }

  lemma {:induction false} TotalsNonNegative(txs: seq<Transaction>)
    ensures IncomeOf(txs) >= 0 && ExpensesOf(txs) >= 0
  {
    if |txs| > 0 {
      TotalsNonNegative(txs[..|txs| - 1]);
    }
  }

  /** Appending a transaction moves the net balance by exactly its amount, and adds its
      amount to income when positive, or its magnitude to expenses and to the expenses
      of its own category when negative. */
  lemma TotalsAfterAppend(txs: seq<Transaction>, t: Transaction)
    ensures SumOf(txs + [t]) == SumOf(txs) + t.amount
    ensures IncomeOf(txs + [t]) == IncomeOf(txs) + (if t.amount > 0 then t.amount else 0)
    ensures ExpensesOf(txs + [t]) == ExpensesOf(txs) + (if t.amount < 0 then -t.amount else 0)
    ensures forall c :: CategoryExpense(txs + [t], c) == CategoryExpense(txs, c) + ExpenseIn(t, c)
  {
    assert (txs + [t])[..|txs|] == txs;
  }

  /** A category with no negative transaction has no expenses. */
  lemma {:induction false} NoExpenseNoTotal(txs: seq<Transaction>, c: string)
    requires !HasExpenseIn(txs, c)
    ensures CategoryExpense(txs, c) == 0
  {
    if |txs| > 0 {
      var pre := txs[..|txs| - 1];
      assert forall k :: 0 <= k < |pre| ==> pre[k] == txs[k];
      NoExpenseNoTotal(pre, c);
    }
  }

  /** A category that has a negative transaction has positive expenses. */
  lemma {:induction false} ExpenseIsPositive(txs: seq<Transaction>, c: string)
    requires HasExpenseIn(txs, c)
    ensures CategoryExpense(txs, c) > 0
  {
    var pre := txs[..|txs| - 1];
    if txs[|txs| - 1].amount < 0 && txs[|txs| - 1].category == c {
      CategoryNonNegative(pre, c);
    } else {
      var k :| 0 <= k < |txs| && txs[k].amount < 0 && txs[k].category == c;
      assert pre[k] == txs[k];
      ExpenseIsPositive(pre, c);
    }
  }

  lemma {:induction false} CategoryNonNegative(txs: seq<Transaction>, c: string)
    ensures CategoryExpense(txs, c) >= 0
  {
    if |txs| > 0 {
      CategoryNonNegative(txs[..|txs| - 1], c);
    }
  }

  /** Whether `c` has an expense among the first `i + 1` transactions. */
  lemma ExpenseGroupsGrow(txs: seq<Transaction>, i: nat, c: string)
    requires i < |txs|
    ensures HasExpenseIn(txs[..i + 1], c) <==>
      HasExpenseIn(txs[..i], c) || (txs[i].amount < 0 && txs[i].category == c)
  {
    var pre, cur := txs[..i], txs[..i + 1];
    assert cur[i] == txs[i];
    if HasExpenseIn(cur, c) && !(txs[i].amount < 0 && txs[i].category == c) {
      var k :| 0 <= k < |cur| && cur[k].amount < 0 && cur[k].category == c;
      assert pre[k] == cur[k];
    }
    if HasExpenseIn(pre, c) {
      var k :| 0 <= k < |pre| && pre[k].amount < 0 && pre[k].category == c;
      assert cur[k] == pre[k];
    }
  }

  /** One pass over the transactions accumulating the three totals and the grouped
      expenses, as the masks and `groupby('category')` of `get_summary` compute them. */
  method Totals(txs: seq<Transaction>) returns (income: int, expenses: int, byCategory: map<string, int>)
    ensures income == IncomeOf(txs) && expenses == ExpensesOf(txs)
    ensures forall c :: c in byCategory <==> HasExpenseIn(txs, c)
    ensures forall c :: c in byCategory ==> byCategory[c] == CategoryExpense(txs, c)
  {
    income, expenses, byCategory := 0, 0, map[];
    var i := 0;
    while i < |txs|
      invariant 0 <= i <= |txs|
      invariant income == IncomeOf(txs[..i]) && expenses == ExpensesOf(txs[..i])
      invariant forall c :: c in byCategory <==> HasExpenseIn(txs[..i], c)
      invariant forall c :: c in byCategory ==> byCategory[c] == CategoryExpense(txs[..i], c)
    {
      var t := txs[i];
      assert txs[..i + 1][..i] == txs[..i];
      forall c {
        ExpenseGroupsGrow(txs, i, c);
      }
      if t.amount > 0 {
        income := income + t.amount;
      } else if t.amount < 0 {
        expenses := expenses - t.amount;
        var prior := 0;
        if t.category in byCategory {
          prior := byCategory[t.category];
        } else {
          NoExpenseNoTotal(txs[..i], t.category);
        }
        byCategory := byCategory[t.category := prior - t.amount];
      }
      i := i + 1;
    }
    assert txs[..i] == txs;
  }

  /** Sum of the expenses of the listed categories. */
  function SumOver(txs: seq<Transaction>, cats: seq<string>): int {
    if |cats| == 0 then 0 else CategoryExpense(txs, cats[0]) + SumOver(txs, cats[1..])
  }

  /** What one transaction adds to the listed categories together. */
  function ShareOver(t: Transaction, cats: seq<string>): int {
    if |cats| == 0 then 0 else ExpenseIn(t, cats[0]) + ShareOver(t, cats[1..])
  }

  predicate Distinct(cats: seq<string>) {
    forall i, j :: 0 <= i < j < |cats| ==> cats[i] != cats[j]
  }

  lemma {:induction false} ShareOverAbsent(t: Transaction, cats: seq<string>)
    requires t.category !in cats
    ensures ShareOver(t, cats) == 0
  {
    if |cats| > 0 {
      assert cats[0] != t.category;
      ShareOverAbsent(t, cats[1..]);
    }
  }

  /** A transaction lands in exactly one group, so a listing of distinct categories that
      includes its category collects exactly its expense. */
  lemma {:induction false} ShareOverOnce(t: Transaction, cats: seq<string>)
    requires Distinct(cats)
    requires t.amount < 0 ==> t.category in cats
    ensures ShareOver(t, cats) == (if t.amount < 0 then -t.amount else 0)
  {
    if |cats| > 0 {
      if t.amount < 0 && cats[0] == t.category {
        assert forall j :: 0 <= j < |cats| - 1 ==> cats[1..][j] == cats[j + 1] != cats[0];
        ShareOverAbsent(t, cats[1..]);
      } else {
        if t.amount < 0 {
          var j :| 0 <= j < |cats| && cats[j] == t.category;
          assert cats[1..][j - 1] == t.category;
        }
        ShareOverOnce(t, cats[1..]);
      }
    }
  }

  lemma {:induction false} SumOverStep(txs: seq<Transaction>, cats: seq<string>)
    requires |txs| > 0
    ensures SumOver(txs, cats) == SumOver(txs[..|txs| - 1], cats) + ShareOver(txs[|txs| - 1], cats)
  {
    if |cats| > 0 {
      SumOverStep(txs, cats[1..]);
    }
  }

  /** Summed over any listing of distinct categories that covers every negative
      transaction, the grouped expenses add up to the total expenses. */
  lemma {:induction false} GroupsSumToExpenses(txs: seq<Transaction>, cats: seq<string>)
    requires Distinct(cats)
    requires forall k :: 0 <= k < |txs| && txs[k].amount < 0 ==> txs[k].category in cats
    ensures SumOver(txs, cats) == ExpensesOf(txs)
  {
    if |txs| == 0 {
      SumOverZero(txs, cats);
    } else {
      var pre := txs[..|txs| - 1];
      assert forall k :: 0 <= k < |pre| ==> pre[k] == txs[k];
      GroupsSumToExpenses(pre, cats);
      SumOverStep(txs, cats);
      ShareOverOnce(txs[|txs| - 1], cats);
    }
  }

  lemma {:induction false} SumOverZero(txs: seq<Transaction>, cats: seq<string>)
    requires |txs| == 0
    ensures SumOver(txs, cats) == 0
  {
    if |cats| > 0 {
      SumOverZero(txs, cats[1..]);
    }
  }

  const MicrosPerDay: int := 86_400_000_000

  /** Days from `now` (microseconds since the epoch) to midnight of day `deadline`,
      rounded down as `timedelta.days` does. */
  function DaysRemaining(deadline: int, now: int): (d: int)
    ensures d * MicrosPerDay <= deadline * MicrosPerDay - now < (d + 1) * MicrosPerDay
  {
    (deadline * MicrosPerDay - now) / MicrosPerDay
  }

  /** A deadline is still ahead exactly when it is later than tomorrow, or is tomorrow
      and the clock reads exactly midnight. */
  lemma AheadIff(deadline: int, now: int)
    ensures DaysRemaining(deadline, now) > 0 <==>
      var today := now / MicrosPerDay;
      deadline > today + 1 || (deadline == today + 1 && now % MicrosPerDay == 0)
  {
    var today, r := now / MicrosPerDay, now % MicrosPerDay;
    assert now == today * MicrosPerDay + r;
    assert deadline * MicrosPerDay - now == (deadline - today) * MicrosPerDay - r;
    var d := DaysRemaining(deadline, now);
    if deadline > today + 1 {
      assert (deadline - today) * MicrosPerDay >= 2 * MicrosPerDay;
    } else if deadline == today + 1 {
      assert deadline * MicrosPerDay - now == MicrosPerDay - r;
    } else {
      assert (deadline - today) * MicrosPerDay <= MicrosPerDay;
    }
  }

  /** One row of `savings_goals`. The rates are exact; the source rounds them to cents
      only for display. */
  datatype Projection = Projection(
    goal: string,
    target: int,
    current: int,
    remaining: int,
    daysRemaining: int,
    daily: real,
    biweekly: real)

  function Project(g: Goal, days: int): (p: Projection)
    requires days > 0
    ensures p.goal == g.name && p.target == g.target && p.current == g.current
    ensures p.current + p.remaining == p.target
    ensures p.daysRemaining == days
    ensures p.daily * days as real == p.remaining as real
    ensures p.biweekly == 14.0 * p.daily
  {
    var remaining := g.target - g.current;
    var daily := remaining as real / days as real;
    Projection(g.name, g.target, g.current, remaining, days, daily, daily * 14.0)
  }

  /** The projections of the goals whose deadline is still ahead, in goal order. */
  function Projections(goals: seq<Goal>, now: int): (ps: seq<Projection>)
    ensures |ps| <= |goals|
    ensures forall p :: p in ps ==> p.daysRemaining > 0
  {
    if |goals| == 0 then []
    else
      var g := goals[|goals| - 1];
      var days := DaysRemaining(g.deadline, now);
      Projections(goals[..|goals| - 1], now) + (if days > 0 then [Project(g, days)] else [])
  }

  /** Projecting a concatenation projects each part in turn: the filter keeps order. */
  lemma {:induction false} ProjectionsAppend(a: seq<Goal>, b: seq<Goal>, now: int)
    ensures Projections(a + b, now) == Projections(a, now) + Projections(b, now)
  {
    if |b| > 0 {
      var ab := a + b;
      assert ab[..|ab| - 1] == a + b[..|b| - 1];
      assert ab[|ab| - 1] == b[|b| - 1];
      ProjectionsAppend(a, b[..|b| - 1], now);
    } else {
      assert a + b == a;
    }
  }

  /** A goal appears in the projections exactly when its deadline is ahead. */
  lemma {:induction false} ProjectionsAreActiveGoals(goals: seq<Goal>, now: int, p: Projection)
    ensures p in Projections(goals, now) <==> exists k :: (0 <= k < |goals| &&
      DaysRemaining(goals[k].deadline, now) > 0 && p == Project(goals[k], DaysRemaining(goals[k].deadline, now)))
  {
    if |goals| > 0 {
      var pre := goals[..|goals| - 1];
      ProjectionsAreActiveGoals(pre, now, p);
      assert forall k :: 0 <= k < |pre| ==> pre[k] == goals[k];
      if exists k :: (0 <= k < |goals| &&
        DaysRemaining(goals[k].deadline, now) > 0 && p == Project(goals[k], DaysRemaining(goals[k].deadline, now)))
      {
        var k :| 0 <= k < |goals| &&
          DaysRemaining(goals[k].deadline, now) > 0 && p == Project(goals[k], DaysRemaining(goals[k].deadline, now));
        if k < |pre| {
          assert pre[k] == goals[k];
        }
      }
    }
  }

  /** The answer of `get_summary`, amounts in cents. */
  datatype Report = Report(
    totalIncome: int,
    totalExpenses: int,
    netBalance: int,
    categoryExpenses: map<string, int>,
    savingsGoals: seq<Projection>)

  method Summarize(txs: seq<Transaction>, goals: seq<Goal>, now: int) returns (r: Report)
    ensures r.totalIncome == IncomeOf(txs) && r.totalExpenses == ExpensesOf(txs)
    ensures r.totalIncome >= 0 && r.totalExpenses >= 0
    ensures r.netBalance == SumOf(txs)
    ensures forall c :: c in r.categoryExpenses <==> HasExpenseIn(txs, c)
    ensures forall c :: c in r.categoryExpenses ==> r.categoryExpenses[c] == CategoryExpense(txs, c) > 0
    ensures r.savingsGoals == Projections(goals, now)
  {
    var income, expenses, byCategory := Totals(txs);
    NetIsSum(txs);
    TotalsNonNegative(txs);
    forall c | c in byCategory {
      ExpenseIsPositive(txs, c);
    }
    r := Report(income, expenses, income - expenses, byCategory, Projections(goals, now));
  }

  /** Sum of the map's values over the listed keys. */
  function SumValues(m: map<string, int>, keys: seq<string>): int
    requires forall k :: 0 <= k < |keys| ==> keys[k] in m
  {
    if |keys| == 0 then 0 else m[keys[0]] + SumValues(m, keys[1..])
  }

  /** The grouped expenses of a report, listed in any order without repeats, add up
      to its total expenses. */
  lemma {:induction false} ReportGroupsSumToExpenses(txs: seq<Transaction>, m: map<string, int>, keys: seq<string>)
    requires forall c :: c in m <==> HasExpenseIn(txs, c)
    requires forall c :: c in m ==> m[c] == CategoryExpense(txs, c)
    requires Distinct(keys) && forall c :: c in keys <==> c in m
    ensures SumValues(m, keys) == ExpensesOf(txs)
  {
    assert forall k :: 0 <= k < |txs| && txs[k].amount < 0 ==> HasExpenseIn(txs, txs[k].category);
    GroupsSumToExpenses(txs, keys);
    SumValuesIsSumOver(txs, m, keys);
  }

  lemma {:induction false} SumValuesIsSumOver(txs: seq<Transaction>, m: map<string, int>, keys: seq<string>)
    requires forall k :: 0 <= k < |keys| ==> keys[k] in m
    requires forall c :: c in m ==> m[c] == CategoryExpense(txs, c)
    ensures SumValues(m, keys) == SumOver(txs, keys)
  {
    if |keys| > 0 {
      SumValuesIsSumOver(txs, m, keys[1..]);
    }
  }

  /** Booking a text moves the net balance by exactly the signed amount classified. */
  lemma AddTransactionMovesNet(store: Store, text: string, today: int)
    requires HasDigit(text)
    ensures SumOf(AddTransaction(store, text, today).value.transactions)
      == SumOf(store.transactions) + Classify(text, GoalNames(store.goals)).value.amount
  {
    var after := AddTransaction(store, text, today).value.transactions;
    var n := |store.transactions|;
    assert after == store.transactions + [after[n]];
    TotalsAfterAppend(store.transactions, after[n]);
  }
}
