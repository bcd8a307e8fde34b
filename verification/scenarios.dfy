/**
  Worked scenarios over the whole model: a summary over three transactions, a goal
  projection, a goal due tomorrow, and booking a saving towards the seeded "Trip"
  goal.
 */
module Scenarios {
  import opened Wrappers
  import opened Keywords
  import opened Classifier
  import opened Ledger
  import opened Summary

  /** Salary of 1000.00, then food for 200.00 and 50.00. */
  lemma ThreeTransactionSummary(txs: seq<Transaction>)
    requires |txs| == 3
    requires txs[0].amount == 100000 && txs[0].category == "Income"
    requires txs[1].amount == -20000 && txs[1].category == "Food"
    requires txs[2].amount == -5000 && txs[2].category == "Food"
    ensures IncomeOf(txs) == 100000 && ExpensesOf(txs) == 25000 && SumOf(txs) == 75000
    ensures HasExpenseIn(txs, "Food") && CategoryExpense(txs, "Food") == 25000
    ensures !HasExpenseIn(txs, "Income")
    ensures forall c :: HasExpenseIn(txs, c) <==> c == "Food"
  {
    assert txs == [] + [txs[0]] + [txs[1]] + [txs[2]];
    TotalsAfterAppend([], txs[0]);
    TotalsAfterAppend([txs[0]], txs[1]);
    TotalsAfterAppend([txs[0], txs[1]], txs[2]);
    assert [] + [txs[0]] == [txs[0]] && [txs[0]] + [txs[1]] == [txs[0], txs[1]];
    assert "Income" != "Food";
  }

  /** 800.00 still to save over 30 days: 800/30 a day, 14 times that a fortnight. */
  lemma ThirtyDayProjection(g: Goal)
    requires g == Goal("Trip", 100000, 20000, 30)
    ensures DaysRemaining(g.deadline, 0) == 30
    ensures Projections([g], 0) == [Project(g, 30)]
    ensures Project(g, 30).remaining == 80000
    ensures Project(g, 30).daily == 8000.0 / 3.0
    ensures Project(g, 30).biweekly == 112000.0 / 3.0
  {
    assert [g][..0] == [];
  }

  /** A goal due tomorrow has no projection once the day has begun: `timedelta.days`
      of the remaining part-day is 0. */
  lemma DueTomorrowExcluded(g: Goal, now: int)
    requires g.deadline == 1 && 0 < now < MicrosPerDay
    ensures DaysRemaining(g.deadline, now) == 0
    ensures Projections([g], now) == []
  {
    assert [g][..0] == [];
  }

  /** The goals of the seeding script: targets of 3000.00, 2000.00, 1000.00 and
      2400.00, nothing saved yet; deadlines are day numbers chosen for the scenario. */
  const SeedGoalRows: seq<Goal> := [
    Goal("Summer Savings", 300000, 0, 30),
    Goal("Trip", 200000, 0, 30),
    Goal("Gifts", 100000, 0, 30),
    Goal("Monthly Dates", 240000, 0, 10)]

  /** The seeded goal rows meet the precondition of `SavedForTripBooking`. */
  lemma SeedGoalNames()
    ensures GoalNames(SeedGoalRows) == SeedGoals
  {
  }

  /** "saved 50 for trip" is booked as -50.00 under Savings, yet the Trip goal grows by
      +50.00: the goal takes the magnitude while the ledger keeps the sign. Any store
      whose goals carry the seeded names behaves so. */
  lemma SavedForTripBooking(text: string, store: Store)
    requires text == "saved 50 for trip" && GoalNames(store.goals) == SeedGoals
    ensures AddTransaction(store, text, 7).Success?
    ensures var s := AddTransaction(store, text, 7).value;
      && |s.transactions| == |store.transactions| + 1
      && s.transactions[|store.transactions|].amount == -5000
      && s.transactions[|store.transactions|].category == "Savings"
      && s.goals[1].current == store.goals[1].current + 5000
      && s.goals[0] == store.goals[0] && s.goals[2] == store.goals[2] && s.goals[3] == store.goals[3]
  {
    var c := SavedForTripClassification(text);
    TripSavingBooking(store, text, 7, c);
  }

  /** Booking a -50.00 saving aimed at "Trip" against the seeded goal names. */
  lemma TripSavingBooking(store: Store, text: string, today: int, c: Classification)
    requires GoalNames(store.goals) == SeedGoals
    requires Classify(text, SeedGoals) == Some(c)
    requires c.amount == -5000 && c.category == Savings && c.goalName == Some("Trip")
    ensures AddTransaction(store, text, today).Success?
    ensures var s := AddTransaction(store, text, today).value;
      && |s.transactions| == |store.transactions| + 1
      && s.transactions[|store.transactions|].amount == -5000
      && s.transactions[|store.transactions|].category == "Savings"
      && s.goals[1].current == store.goals[1].current + 5000
      && s.goals[0] == store.goals[0] && s.goals[2] == store.goals[2] && s.goals[3] == store.goals[3]
  {
    BookingOf(store, text, today, c);
    TripIsSecondSeedGoal(store.goals);
  }

  lemma SavedForTripClassification(text: string) returns (c: Classification)
    requires text == "saved 50 for trip"
    ensures Classify(text, SeedGoals) == Some(c)
    ensures c.amount == -5000 && c.category == Savings && c.goalName == Some("Trip")
  {
    SavedForTripIsNegative(text);
    SavedForTripGoesToTrip(text);
    c := Classify(text, SeedGoals).value;
  }

  lemma TripIsSecondSeedGoal(goals: seq<Goal>)
    requires GoalNames(goals) == SeedGoals
    ensures |goals| == 4 && goals[1].name == "Trip"
    ensures goals[0].name != "Trip" && goals[2].name != "Trip" && goals[3].name != "Trip"
  {
    var names := GoalNames(goals);
    assert names[0] == "Summer Savings" && names[1] == "Trip" && names[2] == "Gifts" && names[3] == "Monthly Dates";
  }

  /** What booking a text with a known classification produces. */
  lemma BookingOf(store: Store, text: string, today: int, c: Classification)
    requires Classify(text, GoalNames(store.goals)) == Some(c)
    ensures AddTransaction(store, text, today) == Success(Store(
      store.transactions + [Record(c, today)],
      if c.goalName.Some? then Credit(store.goals, c.goalName.value, Abs(c.amount)) else store.goals))
  {
  }
}
