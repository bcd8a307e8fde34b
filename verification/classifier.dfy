/**
  The rule-based classifier of `process_natural_language` (app.py lines 29-102):
  free text plus the known goal names become a signed amount in cents, a category,
  a description and, for savings, the goal the money goes to, or `None` when the
  text holds no number.
 */
module Classifier {
  import opened Wrappers
  import opened Text
  import opened Amount
  import opened Keywords
  import opened KeywordExamples

  function Abs(x: int): (r: nat)
    ensures r == x || r == -x
  {
    if x < 0 then -x else x
  }

  /** Which of the three keyword lists have a hit; several may. */
  datatype Intent = Intent(expense: bool, income: bool, saving: bool)

  function DetectIntent(lowered: string): Intent {
    Intent(AnyOccurs(lowered, ExpenseWords), AnyOccurs(lowered, IncomeWords), AnyOccurs(lowered, SavingWords))
  }

  /** The text mentions saving; this alone decides the goal and the Savings override. */
  predicate IsSavingText(text: string) {
    AnyOccurs(Lower(text), SavingWords)
  }

  /** Sign rule: an expense word wins; otherwise an income or saving word makes the
      amount positive; a text with no intent word defaults to an expense. */
  function SignedAmount(magnitude: nat, intent: Intent): (r: int)
    ensures Abs(r) == magnitude
    ensures r > 0 <==> magnitude > 0 && !intent.expense && (intent.income || intent.saving)
  {
    if intent.expense then -(magnitude as int)
    else if intent.income then magnitude
    else if intent.saving then magnitude
    else -(magnitude as int)
  }

  /** Goal `k` is the first, in list order, whose lowered name occurs in the text. */
  ghost predicate FirstGoalHit(names: seq<string>, lowered: string, k: int) {
    && 0 <= k < |names|
    && Contains(lowered, Lower(names[k]))
    && forall k' :: 0 <= k' < k ==> !Contains(lowered, Lower(names[k']))
  }

  /** The first goal at or after index `from` whose lowered name occurs in the text. */
  function FirstGoalFrom(names: seq<string>, lowered: string, from: nat): (r: Option<nat>)
    requires from <= |names|
    ensures r.Some? ==> from <= r.value < |names| && Contains(lowered, Lower(names[r.value]))
    ensures r.Some? ==> forall k :: from <= k < r.value ==> !Contains(lowered, Lower(names[k]))
    ensures r.None? ==> forall k :: from <= k < |names| ==> !Contains(lowered, Lower(names[k]))
    decreases |names| - from
  {
    if from == |names| then None
    else if Contains(lowered, Lower(names[from])) then Some(from)
    else FirstGoalFrom(names, lowered, from + 1)
  }

  /** The goal a saving text is booked to: the first goal named in the text, kept only
      when its name is not empty (Python's `if not goal_name`), else "General Savings". */
  function ResolveGoal(names: seq<string>, lowered: string): (r: string)
    ensures r != ""
    ensures forall k :: FirstGoalHit(names, lowered, k) && names[k] != "" ==> r == names[k]
    ensures (forall k :: FirstGoalHit(names, lowered, k) ==> names[k] == "") ==> r == GeneralSavings
  {
    match FirstGoalFrom(names, lowered, 0)
    case Some(k) =>
      assert FirstGoalHit(names, lowered, k);
      if names[k] != "" then names[k] else GeneralSavings
    case None => GeneralSavings
  }

  /** Row `m` is the first row of the category table with a keyword in the text. */
  ghost predicate FirstCategoryHit(lowered: string, m: int) {
    && 0 <= m < |CategoryTable|
    && AnyOccurs(lowered, CategoryTable[m].1)
    && forall m' :: 0 <= m' < m ==> !AnyOccurs(lowered, CategoryTable[m'].1)
  }

  function CategoryFrom(lowered: string, from: nat): (r: Category)
    requires from <= |CategoryTable|
    ensures r == Other ==> forall m :: from <= m < |CategoryTable| ==> !AnyOccurs(lowered, CategoryTable[m].1)
    ensures r != Other ==> exists m :: (
      && from <= m < |CategoryTable| && CategoryTable[m].0 == r
      && AnyOccurs(lowered, CategoryTable[m].1)
      && forall m' :: from <= m' < m ==> !AnyOccurs(lowered, CategoryTable[m'].1))
    decreases |CategoryTable| - from
  {
    if from == |CategoryTable| then Other
    else if AnyOccurs(lowered, CategoryTable[from].1) then CategoryTable[from].0
    else CategoryFrom(lowered, from + 1)
  }

  /** The keyword category of a lowered text: the first table row with a hit, or Other. */
  function CategoryOf(lowered: string): (r: Category)
    ensures forall m :: FirstCategoryHit(lowered, m) ==> r == CategoryTable[m].0
    ensures (forall m :: 0 <= m < |CategoryTable| ==> !AnyOccurs(lowered, CategoryTable[m].1)) <==> r == Other
  {
    CategoryFrom(lowered, 0)
  }

  /** The keyword table's Savings row is reached only by a saving text. */
  lemma KeywordSavingsIsSaving(lowered: string)
    ensures CategoryOf(lowered) == Savings ==> AnyOccurs(lowered, SavingWords)
  {
    assert forall m :: 0 <= m < |CategoryTable| && CategoryTable[m].0 == Savings ==> m == 7;
    assert CategoryTable[7].1 == SavingWords;
  }

  /** What the classifier hands back for a text it accepts. */
  datatype Classification = Classification(
    amount: int,              // signed, in cents
    category: Category,
    description: string,
    goalName: Option<string>) // present exactly for saving texts

  /** `process_natural_language`: `None` when no amount can be read, else the record. */
  function Classify(text: string, goalNames: seq<string>): (r: Option<Classification>)
    ensures r.None? <==> !HasDigit(text)
    ensures r.Some? ==> Abs(r.value.amount) == ExtractAmount(text).value
    ensures r.Some? ==> (r.value.goalName.Some? <==> IsSavingText(text))
    ensures r.Some? ==> (r.value.category == Savings <==> IsSavingText(text))
    ensures r.Some? && IsSavingText(text) ==>
      r.value.description == text + " (Goal: " + r.value.goalName.value + ")"
    ensures r.Some? && !IsSavingText(text) ==> r.value.description == text
  {
    match ExtractAmount(text)
    case None => None
    case Some(magnitude) =>
      var lowered := Lower(text);
      var intent := DetectIntent(lowered);
      var amount := SignedAmount(magnitude, intent);
      if intent.saving then
        var goal := ResolveGoal(goalNames, lowered);
        Some(Classification(amount, Savings, text + " (Goal: " + goal + ")", Some(goal)))
      else
        KeywordSavingsIsSaving(lowered);
        Some(Classification(amount, CategoryOf(lowered), text, None))
  }

  /** Sign precedence: an expense word wins, then an income or saving word; a text
      with no intent word at all is an expense. The magnitude is always the amount read. */
  lemma ClassifySign(text: string, goalNames: seq<string>)
    requires HasDigit(text)
    ensures var amount := Classify(text, goalNames).value.amount;
      var magnitude: int := ExtractAmount(text).value;
      var lowered := Lower(text);
      && (AnyOccurs(lowered, ExpenseWords) ==> amount == -magnitude)
      && (!AnyOccurs(lowered, ExpenseWords) && AnyOccurs(lowered, IncomeWords) ==> amount == magnitude)
      && (!AnyOccurs(lowered, ExpenseWords) && IsSavingText(text) ==> amount == magnitude)
      && (!AnyOccurs(lowered, ExpenseWords) && !AnyOccurs(lowered, IncomeWords) && !IsSavingText(text)
          ==> amount == -magnitude)
  {
  }

  /** A saving text names the first goal, in list order, whose name occurs in the text
      ignoring case; when there is none (or it has an empty name) it names General Savings. */
  lemma ClassifyGoal(text: string, goalNames: seq<string>)
    requires HasDigit(text) && IsSavingText(text)
    ensures var goal := Classify(text, goalNames).value.goalName;
      && (forall k :: FirstGoalHit(goalNames, Lower(text), k) && goalNames[k] != "" ==> goal == Some(goalNames[k]))
      && ((forall k :: FirstGoalHit(goalNames, Lower(text), k) ==> goalNames[k] == "") ==> goal == Some(GeneralSavings))
  {
  }

  /** Any other text takes the first category of the keyword table with a hit, or Other. */
  lemma ClassifyCategory(text: string, goalNames: seq<string>)
    requires HasDigit(text) && !IsSavingText(text)
    ensures var category := Classify(text, goalNames).value.category;
      && (forall m :: FirstCategoryHit(Lower(text), m) ==> category == CategoryTable[m].0)
      && (category == Other <==> forall m :: 0 <= m < |CategoryTable| ==> !AnyOccurs(Lower(text), CategoryTable[m].1))
  {
  }

  /** The goal names the repository's seed data creates. */
  const SeedGoals: seq<string> := ["Summer Savings", "Trip", "Gifts", "Monthly Dates"]

  lemma SavedForTripLower()
    ensures Lower("saved 50 for trip") == "saved 50 for trip"
  {
  }

  lemma SavedForTripScan()
    ensures Scan("saved 50 for trip") == Some((6, 8)) && "saved 50 for trip"[6..8] == "50"
  {
    var t := "saved 50 for trip";
    assert forall m :: 0 <= m < 6 ==> !IsDigit(t[m]);
    assert IsDigit(t[6]) && IsDigit(t[7]) && !IsDigit(t[8]) && t[8] != '.';
    assert FirstDigitFrom(t, 0) == Some(6);
    assert DigitRunEnd(t, 6) == 8;
  }

  lemma FiftyCents()
    ensures InPattern("50") && PatternCents("50") == 5000
  {
    assert "50"[..1] == "5";
    assert AllDigits("50") && NumeralValue("50") == 50;
  }

  lemma SavedForTripAmount()
    ensures ExtractAmount("saved 50 for trip") == Some(5000)
  {
    SavedForTripScan();
    FiftyCents();
  }

  lemma SavedForTripIntent()
    ensures AnyOccurs("saved 50 for trip", ExpenseWords)
    ensures AnyOccurs("saved 50 for trip", SavingWords)
  {
    var t := "saved 50 for trip";
    assert OccursAt(t, "trip", 13) && OccursAt(t, "saved", 0);
    ContainsIffOccurs(t, "trip");
    ContainsIffOccurs(t, "saved");
    assert ExpenseWords[12] == "trip" && SavingWords[1] == "saved";
  }

  lemma SeedGoalsLower(names: seq<string>)
    requires names == SeedGoals
    ensures Lower(names[0]) == "summer savings" && Lower(names[1]) == "trip"
  {
  }

  lemma SavedForTripGoal(t: string)
    requires t == "saved 50 for trip"
    ensures ResolveGoal(SeedGoals, t) == "Trip"
  {
    SeedGoalsLower(SeedGoals);
    assert "summer savings"[1] == 'u' && 'u' !in t;
    MissingCharBlocks(t, "summer savings", 1);
    assert OccursAt(t, "trip", 13);
    ContainsIffOccurs(t, "trip");
    assert FirstGoalHit(SeedGoals, t, 1);
  }

  /** Saving towards a goal whose name is also an expense word: "trip" is in the
      expense list, so "saved 50 for trip" is booked as -50 although it is a saving. */
  lemma SavedForTripIsNegative(text: string)
    requires text == "saved 50 for trip"
    ensures Classify(text, SeedGoals).Some?
    ensures Classify(text, SeedGoals).value.amount == -5000
  {
    SavedForTripLower();
    SavedForTripAmount();
    SavedForTripIntent();
  }

  /** ... while it is still categorised Savings and aimed at the goal "Trip". */
  lemma SavedForTripGoesToTrip(text: string)
    requires text == "saved 50 for trip"
    ensures Classify(text, SeedGoals).Some?
    ensures Classify(text, SeedGoals).value.category == Savings
    ensures Classify(text, SeedGoals).value.goalName == Some("Trip")
  {
    SavedForTripLower();
    SavedForTripAmount();
    SavedForTripIntent();
    SavedForTripGoal(text);
  }

  lemma SpentOnFoodLower()
    ensures Lower("spent $42.50 on food") == "spent $42.50 on food"
  {
  }

  lemma SpentOnFoodScan()
    ensures Scan("spent $42.50 on food") == Some((6, 12))
    ensures "spent $42.50 on food"[6..12] == "$42.50"
  {
    var t := "spent $42.50 on food";
    assert forall m :: 0 <= m < 7 ==> !IsDigit(t[m]);
    assert IsDigit(t[7]) && IsDigit(t[8]) && !IsDigit(t[9]) && t[6] == '$';
    assert FirstDigitFrom(t, 0) == Some(7);
    assert DigitRunEnd(t, 7) == 9;
    assert HasCents(t, 9);
  }

  lemma SpentOnFoodAmount()
    ensures ExtractAmount("spent $42.50 on food") == Some(4250)
  {
    SpentOnFoodScan();
    DollarFortyTwoFifty();
  }

  /** An ordinary expense, whatever the goals: the dollar sign is dropped, "spent"
      makes the amount negative, no saving word occurs, and "food" selects Food. */
  lemma SpentOnFood(t: string, names: seq<string>)
    requires t == "spent $42.50 on food"
    ensures Classify(t, names) == Some(Classification(-4250, Food, t, None))
  {
    SpentOnFoodLower();
    SpentOnFoodAmount();
    SpentOnFoodHits();
    SpentOnFoodNotSaving();
    assert FirstCategoryHit(t, 0);
  }
}
