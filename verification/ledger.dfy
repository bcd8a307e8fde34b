/**
  The store updates of `add_transaction` (app.py lines 108-135) and `update_goal`
  (app.py lines 173-189): appending one classified transaction, crediting the goal
  it names, and adjusting a goal's balance by name. The CSV files become the
  `Store` value; each operation returns the new store.
 */
module Ledger {
  import opened Wrappers
  import opened Text
  import opened Keywords
  import opened Classifier

  /** A stored transaction. `date` is a day number; `amount` is signed, in cents. */
  datatype Transaction = Transaction(date: int, amount: int, category: string, description: string)

  /** A savings goal; amounts in cents, `deadline` a day number. */
  datatype Goal = Goal(name: string, target: int, current: int, deadline: int)

  /** The contents of the transaction and goal files. */
  datatype Store = Store(transactions: seq<Transaction>, goals: seq<Goal>)

  function GoalNames(goals: seq<Goal>): (names: seq<string>)
    ensures |names| == |goals|
    ensures forall i :: 0 <= i < |goals| ==> names[i] == goals[i].name
  {
    seq(|goals|, i requires 0 <= i < |goals| => goals[i].name)
  }

  /** Some goal row carries exactly this name (pandas' `mask.any()`). */
  predicate HasGoal(goals: seq<Goal>, name: string) {
    exists i :: 0 <= i < |goals| && goals[i].name == name
  }

  /** Adds `delta` to the current amount of every goal row named `name`, as the masked
      `goals_df.loc[mask, 'current_amount'] += delta` does; every other field and row
      stays as it was. */
  function Credit(goals: seq<Goal>, name: string, delta: int): (r: seq<Goal>)
    ensures |r| == |goals|
    ensures forall i :: 0 <= i < |goals| ==>
      r[i].name == goals[i].name && r[i].target == goals[i].target && r[i].deadline == goals[i].deadline
    ensures forall i :: 0 <= i < |goals| && goals[i].name == name ==> r[i].current == goals[i].current + delta
    ensures forall i :: 0 <= i < |goals| && goals[i].name != name ==> r[i] == goals[i]
  {
    if |goals| == 0 then []
    else
      var head := if goals[0].name == name then goals[0].(current := goals[0].current + delta) else goals[0];
      [head] + Credit(goals[1..], name, delta)
  }

  /** Crediting a name no row carries changes nothing. */
  lemma CreditUnknownName(goals: seq<Goal>, name: string, delta: int)
    requires !HasGoal(goals, name)
    ensures Credit(goals, name, delta) == goals
  {
  }

  /** Crediting and then debiting the same amount restores the goals. */
  lemma CreditUndo(goals: seq<Goal>, name: string, delta: int)
    ensures Credit(Credit(goals, name, delta), name, -delta) == goals
  {
  }

  /** Two credits to the same goal add up. */
  lemma {:induction false} CreditTwice(goals: seq<Goal>, name: string, a: int, b: int)
    ensures Credit(Credit(goals, name, a), name, b) == Credit(goals, name, a + b)
  {
    if |goals| > 0 {
      CreditTwice(goals[1..], name, a, b);
      assert Credit(goals, name, a)[1..] == Credit(goals[1..], name, a);
    }
  }

  /** The transaction `add_transaction` appends for a classification made on day `today`. */
  function Record(c: Classification, today: int): Transaction {
    Transaction(today, c.amount, c.category.Name(), c.description)
  }

  datatype AddError = CouldNotProcess

  /** `add_transaction`: classify the text against the current goal names, append the
      record, and, for a saving, credit the named goal rows with the amount's magnitude. */
  function AddTransaction(store: Store, text: string, today: int): (r: Result<Store, AddError>)
    ensures r.Failure? <==> !HasDigit(text)
    ensures r.Success? ==> var c := Classify(text, GoalNames(store.goals)).value;
      && |r.value.transactions| == |store.transactions| + 1
      && r.value.transactions[..|store.transactions|] == store.transactions
      && r.value.transactions[|store.transactions|].date == today
      && r.value.transactions[|store.transactions|].amount == c.amount
      && r.value.transactions[|store.transactions|].category == c.category.Name()
      && r.value.transactions[|store.transactions|].description == c.description
    ensures r.Success? ==> |r.value.goals| == |store.goals|
    ensures r.Success? ==> forall i :: 0 <= i < |store.goals| ==>
      && r.value.goals[i].name == store.goals[i].name
      && r.value.goals[i].target == store.goals[i].target
      && r.value.goals[i].deadline == store.goals[i].deadline
      && r.value.goals[i].current >= store.goals[i].current
    ensures r.Success? ==> var c := Classify(text, GoalNames(store.goals)).value;
      forall i :: 0 <= i < |store.goals| ==>
        r.value.goals[i].current == store.goals[i].current
          + (if c.goalName == Some(store.goals[i].name) then Abs(c.amount) else 0)
  {
    match Classify(text, GoalNames(store.goals))
    case None => Failure(CouldNotProcess)
    case Some(c) =>
      var transactions := store.transactions + [Record(c, today)];
      var goals := match c.goalName
        case Some(g) => Credit(store.goals, g, Abs(c.amount))
        case None => store.goals;
      Success(Store(transactions, goals))
  }

  /** A text that does not mention saving never touches the goals. */
  lemma AddNonSavingKeepsGoals(store: Store, text: string, today: int)
    requires HasDigit(text) && !IsSavingText(text)
    ensures AddTransaction(store, text, today).value.goals == store.goals
  {
  }

  /** A saving booked to a goal no row carries ("General Savings" when no such row
      exists) leaves the goals as they were. */
  lemma AddToUnknownGoalKeepsGoals(store: Store, text: string, today: int)
    requires HasDigit(text)
    requires var c := Classify(text, GoalNames(store.goals)).value;
      c.goalName.Some? && !HasGoal(store.goals, c.goalName.value)
    ensures AddTransaction(store, text, today).value.goals == store.goals
  {
    var c := Classify(text, GoalNames(store.goals)).value;
    CreditUnknownName(store.goals, c.goalName.value, Abs(c.amount));
  }

  datatype UpdateStatus = Updated | GoalNotFound

  /** `update_goal`: add a signed `delta` to every goal row named `name`; an unknown
      name reports not-found and leaves the goals untouched. */
  function UpdateGoal(goals: seq<Goal>, name: string, delta: int): (r: (seq<Goal>, UpdateStatus))
    ensures r.1 == GoalNotFound <==> !HasGoal(goals, name)
    ensures r.1 == GoalNotFound ==> r.0 == goals
    ensures |r.0| == |goals|
    ensures forall i :: 0 <= i < |goals| ==>
      && r.0[i].name == goals[i].name && r.0[i].target == goals[i].target
      && r.0[i].deadline == goals[i].deadline
      && r.0[i].current == goals[i].current + (if goals[i].name == name then delta else 0)
  {
    if HasGoal(goals, name) then (Credit(goals, name, delta), Updated)
    else (goals, GoalNotFound)
  }

  /** An update followed by the opposite update restores the goals. */
  lemma UpdateGoalUndo(goals: seq<Goal>, name: string, delta: int)
    ensures UpdateGoal(UpdateGoal(goals, name, delta).0, name, -delta).0 == goals
  {
    if HasGoal(goals, name) {
      var i :| 0 <= i < |goals| && goals[i].name == name;
      assert Credit(goals, name, delta)[i].name == name;
      CreditUndo(goals, name, delta);
    }
  }
}
