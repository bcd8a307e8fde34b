# Accounting: a Dafny model of the transaction classifier, ledger and summary

The Accounting app logs money from free text ("spent $40 on groceries",
"saved 50 for trip"). A rule-based classifier turns each text into a signed amount,
a category, a description and, for savings, the goal the money goes to. The text is
rejected when it holds no number. Transactions are appended to a ledger, and
savings are credited to goals. A summary reports income, expenses, net balance,
expenses per category and how much is still needed per day and per fortnight for
each goal whose deadline lies ahead.

This project models that logic from `app.py` as pure Dafny functions over immutable
values:

- `Text` (text.dfy): ASCII digits and ASCII lower-casing. It also defines Python's
  substring test `w in s` and "some word of a list occurs", each proved equal to a
  position-based definition.
- `Amount` (amount.dfy): the amount regex `\$?\d+(?:\.\d{2})?`.
  - It is a hand-written scanner, `Scan`.
  - `Scan` is proved to return exactly the leftmost-longest match of an independent
    definition of the pattern's language, `InPattern`.
  - The matched text is converted to integer cents, with the dollar sign dropped.
- `Keywords` (keywords.dfy): the three intent keyword lists and the ordered
  category table, copied exactly as written in the source.
- `KeywordExamples` (keyword_examples.dfy): which keyword lists have a hit in the
  sample text "spent $42.50 on food", and which have none.
- `Classifier` (classifier.dfy): `process_natural_language`. This covers intent
  detection, the sign rule, goal resolution, the category and the Savings override.
- `Ledger` (ledger.dfy): the store updates of `add_transaction` and `update_goal`.
  The two CSV files become a `Store` value.
- `Summary` (summary.dfy): the computation of `get_summary`.
  - Recursive reference sums are matched by a single-pass method.
  - Savings projections are computed for goals whose deadline is ahead.
- `Scenarios` (scenarios.dfy): worked examples across the modules.

Amounts are integer cents. The per-day and per-fortnight rates of a projection are
exact `real` quotients. The clock is a parameter, `now`, in microseconds since the
epoch, and dates are day numbers.

A transaction's sign does not always match its category. An expense word beats a
saving word for the sign, but the Savings category override still applies. So with
the seeded goal "Trip", the text "saved 50 for trip" is booked as -50.00 under
Savings, while the goal itself grows by +50.00 (`Classifier.SavedForTripIsNegative`,
`Scenarios.SavedForTripBooking`).

## Model

| member | source | states |
|---|---|---|
| Text.ContainsIffOccurs | app.py:42-47 | The recursive substring test holds exactly when the word occurs at some position of the text. The empty word occurs everywhere. |
| Text.AnyOccurs | app.py:42-47 | `any(word in s for word in words)` holds exactly when some word of the list occurs in the text. |
| Amount.Scan | app.py:33 | It returns no match exactly when the text has no digit. Otherwise it returns the unique leftmost-longest span matching `\$?\d+(?:\.\d{2})?`, as defined independently by `InPattern`. |
| Amount.LeftmostLongestUnique | app.py:33 | At most one span is the leftmost-longest match, so the amount depends only on the pattern, not on how it is searched. |
| Amount.ExtractAmount | app.py:33-36 | There is no amount exactly when the text has no digit. Otherwise the amount is the cent value of the leftmost-longest match. |
| Amount.AmountIgnoresLaterText | app.py:33-36 | Only the first number counts: appending anything to a text that already holds a number, and that ends in neither a digit nor a point, leaves the amount unchanged. |
| Amount.ThreeDecimalsTruncate | app.py:33-36 | "12.345" reads as 12.34: the fraction takes exactly two digits. |
| Amount.OneDecimalIgnored | app.py:33-36 | "5.5" reads as 5: a point followed by only one digit is not a fraction. |
| Amount.DollarStripped | app.py:33-36 | "$42.50" reads as 42.50: the dollar sign is matched, but it does not count towards the value. |
| Classifier.SignedAmount | app.py:61-71 | The magnitude is kept. The result is positive exactly when the magnitude is non-zero, no expense word occurs, and an income or saving word does. |
| Classifier.ClassifySign | app.py:61-71 | An expense word makes the amount negative. Failing that, an income or saving word makes it positive. A text with no intent word is negative. The magnitude is always the extracted amount. |
| Classifier.FirstGoalFrom | app.py:54-57 | It returns the first goal at or after the start index whose lowered name occurs in the lowered text, or none when no such goal exists. |
| Classifier.ResolveGoal | app.py:50-59 | The resolved goal is never empty. It is the first goal named in the text when that name is non-empty, and "General Savings" otherwise. |
| Classifier.ClassifyGoal | app.py:50-59 | For a saving text, the goal is the first goal, in list order, whose name occurs in the text ignoring case. If there is none, the goal is "General Savings". |
| Classifier.CategoryFrom | app.py:86-89 | It returns the category of the first table row, from the start index on, that has a keyword in the text, or Other when no such row exists. |
| Classifier.CategoryOf | app.py:73-89 | The category is that of the first row of the ordered table with a keyword hit. It is Other exactly when no row has a hit. |
| Classifier.KeywordSavingsIsSaving | app.py:84-91 | The table's own Savings row is reached only by a text that also counts as a saving. |
| Classifier.ClassifyCategory | app.py:73-92 | A non-saving text takes the first table category with a hit, or Other when no row has a hit. |
| Classifier.Classify | app.py:29-99 | It rejects exactly the texts with no digit. The magnitude is the extracted amount. A goal is present exactly for saving texts. The category is Savings exactly for saving texts. A saving's description is annotated with its goal; any other description is the original text. |
| Classifier.SavedForTripIsNegative | app.py:42-71 | With the seeded goals, "saved 50 for trip" is classified with amount -50.00, because "trip" is also an expense word. |
| KeywordExamples.SpentOnFoodNotSaving | app.py:46-47 | No saving word occurs in "spent $42.50 on food". "set to" is the only saving word whose characters all appear in it, and it does not occur either. |
| Classifier.SpentOnFood | app.py:33-92 | With any goal names, "spent $42.50 on food" is classified as -42.50 under Food, with the text as its description and no goal. The dollar sign is dropped, "spent" makes the amount negative, and "food" selects the first table row. |
| Classifier.SavedForTripGoesToTrip | app.py:50-92 | The same text is still categorised Savings and booked to the goal "Trip". |
| Ledger.Credit | app.py:130-132 | Every goal row with the name gains exactly the delta. Every other row is unchanged. No row changes its name, target or deadline. |
| Ledger.CreditUnknownName | app.py:130-132 | Crediting a name that no row carries changes nothing. |
| Ledger.CreditUndo | app.py:130-132 | Crediting an amount and then its negation restores the goal list. |
| Ledger.CreditTwice | app.py:130-132 | Two credits to the same name equal one credit of their sum. |
| Ledger.AddTransaction | app.py:111-133 | A text without a digit fails. Otherwise exactly one record is appended at the end, with the day, signed amount, category label and description of the classification. Goal rows keep their name, target and deadline, and never lose money. The goal named by a saving gains the magnitude of the amount, not the signed amount. |
| Ledger.AddNonSavingKeepsGoals | app.py:128-133 | A text that does not mention saving leaves every goal unchanged. |
| Ledger.AddToUnknownGoalKeepsGoals | app.py:128-133 | A saving booked to a goal that no row carries, such as "General Savings", leaves the goals unchanged. |
| Ledger.UpdateGoal | app.py:176-189 | It reports not-found exactly when no row carries the name, and then changes nothing. Otherwise every row with the name gains the signed delta, with no lower bound. Targets, deadlines and other rows are untouched. |
| Ledger.UpdateGoalUndo | app.py:183-189 | An update followed by the opposite update restores the goals. |
| Summary.NetIsSum | app.py:141-143 | Income minus expenses equals the sum of all amounts. Zero amounts count towards neither total. |
| Summary.TotalsNonNegative | app.py:141-142 | Total income and total expenses are both non-negative. |
| Summary.TotalsAfterAppend | app.py:141-146 | Appending a transaction changes the sum of amounts by exactly its amount. A positive amount adds to income only. A negative amount adds its magnitude to the expenses and to its own category's expenses only. |
| Summary.NoExpenseNoTotal | app.py:144-145 | A category with no negative transaction has zero expenses. |
| Summary.ExpenseIsPositive | app.py:144-145 | A category with a negative transaction has positive expenses. |
| Summary.Totals | app.py:141-145 | A single pass yields the reference income and expenses. It yields a category map keyed exactly by the categories of negative transactions, each mapped to that category's expenses. |
| Summary.GroupsSumToExpenses | app.py:144-146 | Over any listing of distinct categories that covers every negative transaction, the per-category expenses add up to the total expenses. |
| Summary.ReportGroupsSumToExpenses | app.py:144-147 | The values of the category map, summed over its keys in any order, equal the total expenses. |
| Summary.DaysRemaining | app.py:150-151 | The result is the whole number of days between now and midnight of the deadline day, rounded down as `timedelta.days` rounds. |
| Summary.AheadIff | app.py:150-152 | A deadline counts as ahead exactly when it is later than tomorrow, or is tomorrow and the clock reads exactly midnight. |
| Summary.Project | app.py:152-154 | The remaining amount is the target minus the current amount, and may be negative. The daily rate times the number of days gives the remaining amount. The fortnightly rate is 14 times the unrounded daily rate. |
| Summary.Projections | app.py:148-163 | Every projection has a positive number of days remaining, and there are no more projections than goals. |
| Summary.ProjectionsAppend | app.py:148-163 | Projecting a concatenation of goal lists gives the concatenation of the projections, so input order is kept. |
| Summary.ProjectionsAreActiveGoals | app.py:148-163 | A projection is listed exactly when it is the projection of a goal whose deadline is ahead. |
| Summary.Summarize | app.py:137-171 | Income and expenses are non-negative and equal the reference sums. The net balance is the sum of all amounts. The category map has a key exactly for each category with a negative transaction, with a positive value equal to that category's expenses. The goal list is the filtered projection list. |
| Summary.AddTransactionMovesNet | app.py:117-125 | Booking a text changes the net balance by exactly the signed amount it was classified with. |
| Scenarios.ThreeTransactionSummary | app.py:141-147 | Income of 1000.00 with food expenses of 200.00 and 50.00 gives income 1000.00, expenses 250.00, net 750.00, and expenses of 250.00 under Food. Food is the only category with an expense. |
| Scenarios.ThirtyDayProjection | app.py:148-155 | With 800.00 still to save over 30 days, the daily rate is 800/30 and the fortnightly rate is 14 times that. |
| Scenarios.DueTomorrowExcluded | app.py:149-152 | A goal due tomorrow is not projected once the current day has begun. |
| Scenarios.SavedForTripBooking | app.py:117-133 | For any store whose goals carry the seeded names, booking "saved 50 for trip" appends a -50.00 Savings record. "Trip" gains +50.00, and the other goals are untouched. |

## Left out

- Flask routes, `request.json`, `jsonify` and HTTP status codes. These are transport only. Rejection and not-found are result values.
- Reading and writing the CSV files, and `init_csv_files`. The stores are passed in and returned as values.
- The seeding and reset scripts (`init_data.py`, `reset_data.py`). They only write constant tables. The scenarios use the seeded goal names and targets.
- `datetime.now`, `strftime` and `strptime`. The clock is the parameter `now`, in microseconds since the epoch. Dates are day numbers, and `today` is given to `AddTransaction`.
- Python floats. Amounts are exact integer cents. A stored float that is not a whole number of cents cannot arise from the classifier and is not modelled.
- Summary.Project: its daily and fortnightly rates are exact, not `round(x, 2)`, because Python's float rounding is not modelled.
- Text.Lower: lowers only the ASCII letters A-Z. Python's `str.lower` also folds other Unicode letters.
- Amount.Scan: treats only the ASCII digits 0-9 as digits. Python's `\d` also matches other Unicode decimal digits.
- The catch-all `except` with its `print`. With goal names typed as strings, `.lower()` cannot fail.
- `update_goal` with a missing `goal` key or a non-numeric `amount` is not modelled. The name is a string and the delta an integer number of cents.
- The `if not processed_data` test in `add_transaction` is modelled as the classifier's `None`. A returned record is always truthy.
- The `if processed_data.get('goal_name')` test is modelled as "a goal is present". An empty goal name cannot be produced (`Classifier.ResolveGoal`).
- The budget file, which the core never reads.
